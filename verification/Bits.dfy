/** Natural numbers as big-endian bit strings, and bit strings cut into equal groups. */
module Bits {
  function Pow2(k: nat): (p: nat)
    ensures p > 0
  {
    if k == 0 then 1 else 2 * Pow2(k - 1)
  }

  /** The low k bits of n, most significant first. */
  function ToBits(n: nat, k: nat): (bits: seq<bool>)
    ensures |bits| == k
  {
    if k == 0 then [] else ToBits(n / 2, k - 1) + [n % 2 == 1]
  }

  function FromBits(bits: seq<bool>): nat {
    if bits == [] then 0 else 2 * FromBits(bits[..|bits| - 1]) + (if bits[|bits| - 1] then 1 else 0)
  }

  function Zeros(k: nat): (bits: seq<bool>)
    ensures |bits| == k && forall i | 0 <= i < k :: !bits[i]
  {
    seq(k, i => false)
  }

  /** The bits of numbers written with k bits each, one after the other. */
  function Join(xs: seq<nat>, k: nat): seq<bool> {
    if xs == [] then [] else ToBits(xs[0], k) + Join(xs[1..], k)
  }

  /** The numbers in consecutive groups of k bits; an incomplete last group is dropped. */
  function Cut(bits: seq<bool>, k: nat): (xs: seq<nat>)
    requires k > 0
    decreases |bits|
  {
    if |bits| < k then [] else [FromBits(bits[..k])] + Cut(bits[k..], k)
  }

  lemma Regroup(a: seq<bool>, b: seq<bool>, c: seq<bool>)
    ensures (a + b) + c == a + (b + c)
  {
  }

  lemma TakeNext<T>(s: seq<T>, n: nat)
    requires n < |s|
    ensures s[..n + 1] == s[..n] + [s[n]]
  {
  }

  // ---------- One number ----------

  lemma {:induction false} FromToBits(n: nat, k: nat)
    requires n < Pow2(k)
    ensures FromBits(ToBits(n, k)) == n
  {
    if k > 0 {
      FromToBits(n / 2, k - 1);
      assert ToBits(n, k)[..k - 1] == ToBits(n / 2, k - 1);
    }
  }

  lemma {:induction false} ToFromBits(bits: seq<bool>)
    ensures ToBits(FromBits(bits), |bits|) == bits
    ensures FromBits(bits) < Pow2(|bits|)
  {
    if bits != [] {
      ToFromBits(bits[..|bits| - 1]);
    }
  }

  lemma QuotientRemainder(n: nat, d: nat) returns (q: nat, r: nat)
    requires d > 0
    ensures n == d * q + r && r < d
    ensures q == n / d && r == n % d
  {
    NonNegative(n, d);
    q, r := n / d, n % d;
  }

  lemma NonNegative(n: nat, m: nat)
    requires m > 0
    ensures n / m >= 0
  {
  }

  /** Dropping the last bit of n halves the remainder and keeps the quotient. */
  lemma Halve(n: nat, m: nat)
    requires m > 0
    ensures (n % (2 * m)) / 2 == (n / 2) % m && (n / 2) / m == n / (2 * m)
    ensures (n % (2 * m)) % 2 == n % 2
  {
    var q, r := QuotientRemainder(n, 2 * m);
    HalveParts(n, m, q, r);
  }

  lemma HalveParts(n: nat, m: nat, q: nat, r: nat)
    requires n == (2 * m) * q + r && r < 2 * m
    ensures r / 2 == (n / 2) % m && (n / 2) / m == q
    ensures r % 2 == n % 2
  {
    Doubled(m, q);
    HalfOfSum(n, m * q, r);
    UniqueRemainder(n / 2, m, q, r / 2);
  }

  lemma Doubled(m: nat, q: nat)
    ensures (2 * m) * q == 2 * (m * q)
  {
  }

  lemma HalfOfSum(n: nat, p: nat, r: nat)
    requires n == 2 * p + r
    ensures n / 2 == p + r / 2 && n % 2 == r % 2
  {
  }

  lemma UniqueRemainder(n: nat, m: nat, q: nat, r: nat)
    requires n == m * q + r && r < m
    ensures n % m == r && n / m == q
  {
    var p, s := n / m, n % m;
    assert n == m * p + s;
    if p < q {
      NextMultiple(m, p, q);
    } else if p > q {
      NextMultiple(m, q, p);
    }
  }

  lemma NextMultiple(m: nat, p: nat, q: nat)
    requires p < q
    ensures m * p + m <= m * q
  {
    assert m * q == m * p + m * (q - p);
    assert m * (q - p) == m + m * (q - p - 1);
  }

  /** Bits that a reduction modulo 2^m drops are above the low m bits. */
  lemma {:induction false} ToBitsMod(n: nat, m: nat, k: nat)
    requires k <= m
    ensures ToBits(n % Pow2(m), k) == ToBits(n, k)
  {
    if k > 0 {
      Halve(n, Pow2(m - 1));
      ToBitsMod(n / 2, m - 1, k - 1);
    }
  }

  /** n shifted right by k bits. */
  function ShiftRight(n: nat, k: nat): nat {
    NonNegative(n, Pow2(k));
    n / Pow2(k)
  }

  lemma ShiftRightStep(n: nat, k: nat)
    requires k > 0
    ensures ShiftRight(n, k) == ShiftRight(n / 2, k - 1)
  {
    Halve(n, Pow2(k - 1));
  }

  lemma {:induction false} ToBitsSplit(n: nat, j: nat, k: nat)
    ensures ToBits(n, j + k) == ToBits(ShiftRight(n, k), j) + ToBits(n, k)
  {
    if k > 0 {
      ShiftRightStep(n, k);
      ToBitsSplit(n / 2, j, k - 1);
    }
  }

  lemma Scaled(v: nat, m: nat, b: nat)
    ensures v * m + b >= 0
  {}

  /** v shifted left by k bits with b filled in. */
  function ShiftIn(v: nat, k: nat, b: nat): nat {
    Scaled(v, Pow2(k), b);
    v * Pow2(k) + b
  }

  lemma ShiftedIn(v: nat, k: nat, b: nat)
    requires b < Pow2(k)
    ensures ShiftRight(ShiftIn(v, k, b), k) == v && ShiftIn(v, k, b) % Pow2(k) == b
  {
    UniqueRemainder(ShiftIn(v, k, b), Pow2(k), v, b);
  }

  /** Shifting left by k and filling in b appends the k bits of b. */
  lemma ToBitsAppend(v: nat, b: nat, j: nat, k: nat)
    requires b < Pow2(k)
    ensures ToBits(ShiftIn(v, k, b), j + k) == ToBits(v, j) + ToBits(b, k)
  {
    ToBitsSplit(ShiftIn(v, k, b), j, k);
    ShiftedIn(v, k, b);
    ToBitsMod(ShiftIn(v, k, b), k, k);
  }

  lemma {:induction false} ToBitsZero(k: nat)
    ensures ToBits(0, k) == Zeros(k)
  {
    if k > 0 {
      ToBitsZero(k - 1);
    }
  }

  // ---------- Groups ----------

  lemma {:induction false} JoinLength(xs: seq<nat>, k: nat)
    ensures |Join(xs, k)| == |xs| * k
  {
    if xs != [] {
      JoinLength(xs[1..], k);
      assert |xs| * k == (|xs| - 1) * k + k;
    }
  }

  lemma {:induction false} JoinAppend(xs: seq<nat>, x: nat, k: nat)
    ensures Join(xs + [x], k) == Join(xs, k) + ToBits(x, k)
  {
    if xs == [] {
      assert [x][1..] == [];
      assert Join([x], k) == ToBits(x, k) + Join([], k);
    } else {
      JoinAppend(xs[1..], x, k);
      assert (xs + [x])[1..] == xs[1..] + [x];
    }
  }

  /** Cutting undoes joining, whatever incomplete group follows. */
  lemma {:induction false} CutJoin(xs: seq<nat>, rest: seq<bool>, k: nat)
    requires forall i | 0 <= i < |xs| :: xs[i] < Pow2(k)
    requires |rest| < k
    ensures Cut(Join(xs, k) + rest, k) == xs
  {
    if xs == [] {
      assert Join(xs, k) + rest == rest;
    } else {
      var tail := Join(xs[1..], k) + rest;
      CutJoin(xs[1..], rest, k);
      FromToBits(xs[0], k);
      assert Join(xs, k) + rest == ToBits(xs[0], k) + tail;
      assert (ToBits(xs[0], k) + tail)[k..] == tail;
    }
  }

  /** Joining undoes cutting, up to the incomplete group. */
  lemma {:induction false} JoinCut(bits: seq<bool>, k: nat)
    requires k > 0
    ensures forall i | 0 <= i < |Cut(bits, k)| :: Cut(bits, k)[i] < Pow2(k)
    ensures |Join(Cut(bits, k), k)| <= |bits| < |Join(Cut(bits, k), k)| + k
    ensures Join(Cut(bits, k), k) == bits[..|Join(Cut(bits, k), k)|]
    decreases |bits|
  {
    if |bits| >= k {
      var rest := bits[k..];
      JoinCut(rest, k);
      ToFromBits(bits[..k]);
      assert Cut(bits, k)[1..] == Cut(rest, k);
      assert Join(Cut(bits, k), k) == bits[..k] + Join(Cut(rest, k), k);
    }
  }

  /** With no incomplete group, nothing is lost. */
  lemma JoinCutWhole(bits: seq<bool>, k: nat)
    requires k > 0 && |bits| % k == 0
    ensures Join(Cut(bits, k), k) == bits
    ensures forall i | 0 <= i < |Cut(bits, k)| :: Cut(bits, k)[i] < Pow2(k)
  {
    JoinCut(bits, k);
    JoinLength(Cut(bits, k), k);
    WholeGroups(|bits|, |Cut(bits, k)|, k);
    assert bits[..|bits|] == bits;
  }

  lemma WholeGroups(n: nat, q: nat, k: nat)
    requires k > 0 && n % k == 0 && q * k <= n < q * k + k
    ensures q * k == n
  {
    UniqueRemainder(n, k, q, n - q * k);
  }
}

/** Facts about sequences and sets that several modules use. */
module Collections {
  predicate Distinct<T(==)>(s: seq<T>) {
    forall i, j | 0 <= i < j < |s| :: s[i] != s[j]
  }

  function Min(a: nat, b: nat): nat {
    if a < b then a else b
  }

  lemma NextOfDistinct<T>(s: seq<T>, n: nat, next: nat)
    requires Distinct(s) && n < |s| && next == n + 1
    ensures s[n] !in s[..n] && forall x :: x in s[..next] <==> x in s[..n] || x == s[n]
  {
    assert s[..next] == s[..n] + [s[n]];
  }

  lemma SubsetCount<T>(a: set<T>, b: set<T>)
    requires a <= b
    ensures |a| <= |b|
  {
    assert b == a + (b - a);
  }

  // ---------- Sorting by insertion ----------

  ghost predicate Preorder<T(!new)>(leq: (T, T) -> bool) {
    (forall a, b :: leq(a, b) || leq(b, a)) && forall a, b, c :: leq(a, b) && leq(b, c) ==> leq(a, c)
  }

  ghost predicate Ordered<T>(s: seq<T>, leq: (T, T) -> bool) {
    forall i, j | 0 <= i < j < |s| :: leq(s[i], s[j])
  }

  function InsertAt<T>(s: seq<T>, p: nat, x: T): seq<T>
    requires p <= |s|
  {
    s[..p] + [x] + s[p..]
  }

  lemma InsertAtIs<T>(s: seq<T>, p: nat, x: T)
    requires p <= |s|
    ensures |InsertAt(s, p, x)| == |s| + 1
    ensures forall i | 0 <= i <= |s| :: InsertAt(s, p, x)[i] == if i < p then s[i] else if i == p then x else s[i - 1]
  {
  }

  lemma InsertAtMembers<T>(s: seq<T>, p: nat, x: T)
    requires p <= |s|
    ensures forall y :: y in InsertAt(s, p, x) <==> y in s || y == x
  {
    assert s == s[..p] + s[p..];
  }

  /** Behind the elements that may come before x. */
  function Place<T>(x: T, sorted: seq<T>, leq: (T, T) -> bool): (p: nat)
    ensures p <= |sorted| && forall i | p <= i < |sorted| :: !leq(sorted[i], x)
    ensures p > 0 ==> leq(sorted[p - 1], x)
  {
    if sorted == [] || leq(sorted[|sorted| - 1], x) then |sorted| else Place(x, sorted[..|sorted| - 1], leq)
  }

  lemma InsertKeepsOrder<T(!new)>(x: T, sorted: seq<T>, leq: (T, T) -> bool)
    requires Preorder(leq) && Ordered(sorted, leq)
    ensures Ordered(InsertAt(sorted, Place(x, sorted, leq), x), leq)
  {
    var p := Place(x, sorted, leq);
    InsertAtIs(sorted, p, x);
    forall i | 0 <= i < p ensures leq(sorted[i], x) {
      if i < p - 1 {
        assert leq(sorted[i], sorted[p - 1]);
      }
    }
  }
}

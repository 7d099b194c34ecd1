/** money.util.ts: the amounts that a split and an allocation answer, in terms of the total they are given. */
module MoneyAmounts {
  import opened MoneySplit
  import opened Sums
  import Digits

  /** One whole is p minor units. */
  predicate Precision(decimals: int, p: real) {
    match decimals
    case 0 => p == 1.0
    case 1 => p == 10.0
    case 2 => p == 100.0
    case 3 => p == 1000.0
    case 4 => p == 10000.0
    case _ => false
  }

  /** n is a nearest integer to x, and of two nearest ones the one further from zero. */
  predicate Nearest(x: real, n: int) {
    -0.5 <= n as real - x <= 0.5 && (n as real - x == 0.5 ==> x > 0.0) && (n as real - x == -0.5 ==> x < 0.0)
  }

  /** The total is that many minor units when rounded. */
  predicate RoundsTo(total: real, p: real, n: int) {
    Nearest(total * p, n)
  }

  /** The amount is exactly n minor units. */
  predicate Worth(amount: real, p: real, n: int) {
    amount * p == n as real
  }

  function Size(n: int): nat {
    if n < 0 then -n else n
  }

  function WithSign(n: int, x: int): int {
    if n < 0 then -x else x
  }

  /** The amount is a whole number of minor units. */
  ghost predicate IsWhole(amount: real, p: real) {
    exists n :: Worth(amount, p, n)
  }

  lemma RoundsToOne(total: real, p: real, m: int, n: int)
    requires RoundsTo(total, p, m) && RoundsTo(total, p, n)
    ensures m == n
  {
    NearestIsUnique(total * p, m, n);
  }

  lemma NearestIsUnique(x: real, m: int, n: int)
    requires Nearest(x, m) && Nearest(x, n)
    ensures m == n
  {
  }

  lemma ScaleIs(decimals: nat, p: real)
    requires Precision(decimals, p)
    ensures decimals <= 4 && Scale(decimals) == p
  {
    assert Digits.Pow10(1) == 10 && Digits.Pow10(2) == 100 && Digits.Pow10(3) == 1000;
    assert Digits.Pow10(4) == 10 * Digits.Pow10(3);
  }

  lemma RoundedIsNearest(total: real, decimals: nat, p: real)
    requires Precision(decimals, p)
    ensures RoundsTo(total, p, MinorUnits(total, decimals))
  {
    ScaleIs(decimals, p);
    RoundsToNearest(total * p);
  }

  lemma RoundedIs(total: real, decimals: nat, p: real, n: int)
    requires Precision(decimals, p) && RoundsTo(total, p, n)
    ensures MinorUnits(total, decimals) == n
  {
    RoundedIsNearest(total, decimals, p);
    RoundsToOne(total, p, n, MinorUnits(total, decimals));
  }

  lemma ExactUnits(units: int, decimals: nat, p: real)
    requires Precision(decimals, p)
    ensures Worth(ToMoney(units, decimals), p, units)
  {
    ScaleIs(decimals, p);
    DivideBack(units as real, p);
  }

  lemma DivideBack(x: real, p: real)
    requires p > 0.0
    ensures x / p * p == x
  {
  }

  lemma WorthRounds(total: real, p: real, n: int)
    requires Worth(total, p, n)
    ensures RoundsTo(total, p, n)
  {
  }

  lemma SameWorth(x: real, y: real, p: real, n: int)
    requires p > 0.0 && Worth(x, p, n) && Worth(y, p, n)
    ensures x == y
  {
    assert (x - y) * p == 0.0;
  }

  // ---------- When there is an answer ----------

  lemma {:induction false} TotalIsZero(weights: seq<real>)
    requires forall i | 0 <= i < |weights| :: weights[i] >= 0.0
    ensures Total(weights) == 0.0 <==> forall i | 0 <= i < |weights| :: weights[i] == 0.0
  {
    TotalNonNegative(weights);
    if weights != [] {
      TotalNonNegative(weights[1..]);
      TotalIsZero(weights[1..]);
      assert (forall i | 0 <= i < |weights| :: weights[i] == 0.0)
        <==> weights[0] == 0.0 && forall i | 0 <= i < |weights[1..]| :: weights[1..][i] == 0.0;
    }
  }

  /** A split succeeds exactly with weights of which none is negative and some is positive, and with 0 to 4 decimals;
      otherwise the first of these that fails is reported. */
  lemma SplitSucceedsExactly(total: real, weights: seq<real>, decimals: int)
    ensures var r := SplitMoney(total, weights, decimals);
            if |weights| == 0 then r == Failed(NoWeights)
            else if exists i | 0 <= i < |weights| :: weights[i] < 0.0 then r == Failed(NegativeWeight)
            else if forall i | 0 <= i < |weights| :: weights[i] == 0.0 then r == Failed(ZeroWeights)
            else if decimals !in {0, 1, 2, 3, 4} then r == Failed(BadDecimals)
            else r.Parts? && |r.amounts| == |weights|
  {
    if forall i | 0 <= i < |weights| :: weights[i] >= 0.0 {
      TotalIsZero(weights);
      TotalNonNegative(weights);
      if weights != [] && Total(weights) != 0.0 && 0 <= decimals <= 4 {
        SignedAddsUp(MinorUnits(total, decimals), weights);
      }
    }
  }

  /** An allocation succeeds exactly with a positive count and with 0 to 4 decimals. */
  lemma AllocationSucceedsExactly(total: real, count: int, decimals: int)
    ensures var r := AllocateMoney(total, count, decimals);
            if count <= 0 then r == Failed(BadCount)
            else if decimals !in {0, 1, 2, 3, 4} then r == Failed(BadDecimals)
            else r.Parts? && |r.amounts| == count
  {
  }

  // ---------- What the amounts add up to ----------

  /** The amounts are whole numbers of minor units whose sum is the nearest such number to the total, halves away from
      zero; so a total that is one itself is split without loss. */
  ghost predicate AddsUpTo(total: real, amounts: seq<real>, p: real) {
    (forall i | 0 <= i < |amounts| :: IsWhole(amounts[i], p))
    && (exists n :: RoundsTo(total, p, n) && Worth(SumMoney(amounts), p, n))
    && (IsWhole(total, p) ==> SumMoney(amounts) == total)
  }

  lemma MakeAddsUpTo(total: real, amounts: seq<real>, units: seq<int>, p: real, n: int)
    requires p > 0.0 && |amounts| == |units| && forall i | 0 <= i < |amounts| :: Worth(amounts[i], p, units[i])
    requires RoundsTo(total, p, n) && Worth(SumMoney(amounts), p, n)
    ensures AddsUpTo(total, amounts, p)
  {
    if IsWhole(total, p) {
      NothingLost(total, SumMoney(amounts), p, n);
    }
    forall i | 0 <= i < |amounts| ensures IsWhole(amounts[i], p) {
      assert Worth(amounts[i], p, units[i]);
    }
  }

  lemma NothingLost(total: real, sum: real, p: real, n: int)
    requires p > 0.0 && IsWhole(total, p) && RoundsTo(total, p, n) && Worth(sum, p, n)
    ensures sum == total
  {
    var m :| Worth(total, p, m);
    WorthRounds(total, p, m);
    RoundsToOne(total, p, m, n);
    SameWorth(sum, total, p, n);
  }

  lemma UnitsAddUp(total: real, units: seq<int>, decimals: nat, p: real)
    requires Precision(decimals, p) && Sum(units) == MinorUnits(total, decimals)
    ensures AddsUpTo(total, ToMoneys(units, decimals), p)
  {
    var amounts, n := ToMoneys(units, decimals), MinorUnits(total, decimals);
    forall i | 0 <= i < |amounts| ensures Worth(amounts[i], p, units[i]) {
      ExactUnits(units[i], decimals, p);
    }
    SumOfMoneys(units, decimals);
    ExactUnits(n, decimals, p);
    RoundedIsNearest(total, decimals, p);
    PrecisionIsPositive(decimals, p);
    MakeAddsUpTo(total, amounts, units, p, n);
  }

  lemma PrecisionIsPositive(decimals: int, p: real)
    requires Precision(decimals, p)
    ensures p > 0.0
  {
  }

  lemma SplitAddsUpTo(total: real, weights: seq<real>, decimals: int, p: real)
    requires SplitMoney(total, weights, decimals).Parts? && Precision(decimals, p)
    ensures AddsUpTo(total, SplitMoney(total, weights, decimals).amounts, p)
  {
    TotalNonNegative(weights);
    var signed := MinorUnits(total, decimals);
    SignedAddsUp(signed, weights);
    UnitsAddUp(total, SplitSigned(signed, weights), decimals, p);
  }

  lemma AllocationAddsUpTo(total: real, count: int, decimals: int, p: real)
    requires AllocateMoney(total, count, decimals).Parts? && Precision(decimals, p)
    ensures AddsUpTo(total, AllocateMoney(total, count, decimals).amounts, p)
  {
    AllocationIsEqualSplit(total, 1.0, count, decimals);
    SplitAddsUpTo(total, Repeat(1.0, count), decimals, p);
  }

  // ---------- Who gets what ----------

  /** The exact share of a weight in a number of minor units. */
  function Portion(size: nat, weights: seq<real>, i: nat): real
    requires Total(weights) > 0.0 && i < |weights|
  {
    size as real * weights[i] / Total(weights)
  }

  function Remainder(size: nat, weights: seq<real>, i: nat): real
    requires Total(weights) > 0.0 && i < |weights|
  {
    Portion(size, weights, i) - Portion(size, weights, i).Floor as real
  }

  /** The weights with a larger remainder, or an equal one and a smaller index. */
  ghost function Ahead(size: nat, weights: seq<real>, i: nat): set<nat>
    requires Total(weights) > 0.0 && i < |weights|
  {
    set j: nat | j < |weights| && (Remainder(size, weights, j) > Remainder(size, weights, i)
                                   || (Remainder(size, weights, j) == Remainder(size, weights, i) && j < i))
  }

  /** What rounding every share down leaves over. */
  function LeftOver(size: nat, weights: seq<real>): int
    requires Total(weights) > 0.0
  {
    size - Sum(seq(|weights|, i requires 0 <= i < |weights| => Portion(size, weights, i).Floor))
  }

  lemma PortionIs(size: nat, weights: seq<real>, i: nat)
    requires ValidWeights(weights) && i < |weights|
    ensures Items(size, weights, Total(weights))[i]
         == Item(i, Portion(size, weights, i).Floor, Remainder(size, weights, i))
  {
    assert Quota(size, weights[i], Total(weights)) == Portion(size, weights, i);
  }

  lemma LeftOverIs(size: nat, weights: seq<real>)
    requires ValidWeights(weights)
    ensures Residual(size, Items(size, weights, Total(weights))) == LeftOver(size, weights)
  {
    var items := Items(size, weights, Total(weights));
    var floors := seq(|weights|, i requires 0 <= i < |weights| => Portion(size, weights, i).Floor);
    forall i | 0 <= i < |weights| ensures UnitsOf(items)[i] == floors[i] {
      PortionIs(size, weights, i);
    }
    assert UnitsOf(items) == floors;
    SumOfUnits(items);
  }

  ghost function IndexesBefore(order: seq<Item>, k: nat): set<nat>
    requires k <= |order|
  {
    set l | 0 <= l < k :: order[l].index
  }

  lemma {:induction false} IndexesCount(order: seq<Item>, k: nat)
    requires DistinctIndexes(order) && k <= |order|
    ensures |IndexesBefore(order, k)| == k
  {
    if k == 0 {
      assert IndexesBefore(order, k) == {};
    } else {
      IndexesCount(order, k - 1);
      assert IndexesBefore(order, k) == IndexesBefore(order, k - 1) + {order[k - 1].index};
      assert order[k - 1].index !in IndexesBefore(order, k - 1);
    }
  }

  ghost function Order(size: nat, weights: seq<real>): seq<Item>
    requires ValidWeights(weights)
  {
    SortItems(Items(size, weights, Total(weights)))
  }

  /** Where a weight stands in the order in which units are handed out. */
  lemma PlaceOf(size: nat, weights: seq<real>, i: nat) returns (k: nat)
    requires ValidWeights(weights) && i < |weights|
    ensures k < |Order(size, weights)|
    ensures Order(size, weights)[k] == Item(i, Portion(size, weights, i).Floor, Remainder(size, weights, i))
  {
    var items := Items(size, weights, Total(weights));
    OrderFacts(size, weights);
    PortionIs(size, weights, i);
    assert items[i] in Order(size, weights);
    k :| 0 <= k < |Order(size, weights)| && Order(size, weights)[k] == items[i];
  }

  lemma OrderIsSorted(size: nat, weights: seq<real>)
    requires ValidWeights(weights)
    ensures Sorted(Order(size, weights)) && DistinctIndexes(Order(size, weights))
    ensures forall k | 0 <= k < |Order(size, weights)| :: Order(size, weights)[k].index < |weights|
  {
    OrderFacts(size, weights);
  }

  lemma EarlierIsBefore(order: seq<Item>, l: nat, k: nat)
    requires Sorted(order) && DistinctIndexes(order) && l < |order| && k < |order|
    ensures Before(order[l], order[k]) <==> l < k
    ensures order[l].index in IndexesBefore(order, k) <==> l < k
  {
    if l < k {
      assert Before(order[l], order[k]);
    } else if k < l {
      assert Before(order[k], order[l]);
    }
  }

  lemma AheadIs(size: nat, weights: seq<real>, i: nat, j: nat, a: Item, b: Item)
    requires Total(weights) > 0.0 && i < |weights| && j < |weights|
    requires a.index == j && a.fraction == Remainder(size, weights, j)
    requires b.index == i && b.fraction == Remainder(size, weights, i)
    ensures j in Ahead(size, weights, i) <==> Before(a, b)
  {
  }

  lemma SameSet(a: set<nat>, b: set<nat>, n: nat)
    requires forall j: nat | j < n :: j in a <==> j in b
    requires (forall j | j in a :: j < n) && forall j | j in b :: j < n
    ensures a == b
  {
  }

  /** The place of a weight in the order is the number of weights ahead of it. */
  lemma PlaceIsAhead(size: nat, weights: seq<real>, i: nat) returns (k: nat)
    requires ValidWeights(weights) && i < |weights|
    ensures k < |Order(size, weights)| && Order(size, weights)[k].index == i
    ensures |Ahead(size, weights, i)| == k
  {
    k := PlaceOf(size, weights, i);
    var order := Order(size, weights);
    OrderIsSorted(size, weights);
    forall j: nat | j < |weights| ensures j in Ahead(size, weights, i) <==> j in IndexesBefore(order, k) {
      var l := PlaceOf(size, weights, j);
      EarlierIsBefore(order, l, k);
      AheadIs(size, weights, i, j, order[l], order[k]);
    }
    SameSet(Ahead(size, weights, i), IndexesBefore(order, k), |weights|);
    IndexesCount(order, k);
  }

  lemma ReachedAt(order: seq<Item>, n: int, k: nat)
    requires DistinctIndexes(order) && k < |order|
    ensures Reached(order, n, order[k].index) <==> k < n
  {
  }

  lemma GetsOneExactly(size: nat, weights: seq<real>, i: nat)
    requires ValidWeights(weights) && i < |weights|
    ensures GetsOne(size, weights, i) <==> |Ahead(size, weights, i)| < LeftOver(size, weights)
  {
    LeftOverIs(size, weights);
    OrderIsSorted(size, weights);
    var k := PlaceIsAhead(size, weights, i);
    ReachedAt(Order(size, weights), LeftOver(size, weights), k);
  }

  /** The units of a part of n: its exact share rounded down towards zero, and one more exactly when fewer weights are
      ahead of it than there are units left over. */
  ghost function UnitsFor(n: int, weights: seq<real>, i: nat): int
    requires Total(weights) > 0.0 && i < |weights|
  {
    var more := if |Ahead(Size(n), weights, i)| < LeftOver(Size(n), weights) then 1 else 0;
    WithSign(n, Portion(Size(n), weights, i).Floor + more)
  }

  lemma UnitsForIs(n: int, weights: seq<real>, i: nat)
    requires ValidWeights(weights) && i < |weights|
    ensures |SplitSigned(n, weights)| == |weights| && SplitSigned(n, weights)[i] == UnitsFor(n, weights, i)
  {
    SignedAddsUp(n, weights);
    PartIs(Size(n), weights, i);
    GetsOneExactly(Size(n), weights, i);
    assert Quota(Size(n), weights[i], Total(weights)) == Portion(Size(n), weights, i);
  }

  /** Every amount is that many minor units, for the rounded total. */
  lemma LargestRemainders(total: real, weights: seq<real>, decimals: int, p: real, n: int, i: nat)
    requires SplitMoney(total, weights, decimals).Parts? && Precision(decimals, p) && RoundsTo(total, p, n)
    requires i < |weights|
    ensures Total(weights) > 0.0 && i < |SplitMoney(total, weights, decimals).amounts|
    ensures Worth(SplitMoney(total, weights, decimals).amounts[i], p, UnitsFor(n, weights, i))
  {
    TotalNonNegative(weights);
    RoundedIs(total, decimals, p, n);
    UnitsForIs(n, weights, i);
    ExactUnits(UnitsFor(n, weights, i), decimals, p);
  }

  lemma AllocatedIs(n: int, count: nat, k: nat)
    requires k < count
    ensures AllocateUnits(n, count)[k] == WithSign(n, Size(n) / count + if k < Size(n) % count then 1 else 0)
  {
    AllocatedShare(Size(n), count, k);
    NegatedAllocation(Size(n), count);
  }

  /** Equal shares, the first ones one minor unit larger. */
  lemma AllocationIs(total: real, count: int, decimals: int, p: real, n: int, k: nat)
    requires AllocateMoney(total, count, decimals).Parts? && Precision(decimals, p) && RoundsTo(total, p, n)
    requires k < count
    ensures |AllocateMoney(total, count, decimals).amounts| == count
    ensures Worth(AllocateMoney(total, count, decimals).amounts[k], p,
                  WithSign(n, Size(n) / count + if k < Size(n) % count then 1 else 0))
  {
    RoundedIs(total, decimals, p, n);
    AllocatedIs(n, count, k);
    ExactUnits(AllocateUnits(n, count)[k], decimals, p);
  }
}

/** money.util.ts: splitting an amount over weights by largest remainder, and equally, in exact minor units. */
module MoneySplit {
  import Digits
  import opened Sums

  /** A weight's provisional share: whole units and the fraction left over. */
  datatype Item = Item(index: nat, units: int, fraction: real)

  datatype Split = Parts(amounts: seq<real>) | Failed(error: SplitError)

  datatype SplitError = BadDecimals | BadCount | NoWeights | NegativeWeight | ZeroWeights

  // ---------- Rounding ----------

  /** ROUND_HALF_UP of decimal.js: halves go away from zero. */
  function RoundHalfUp(x: real): int {
    if x >= 0.0 then (x + 0.5).Floor else -((0.5 - x).Floor)
  }

  function Scale(decimals: nat): (s: real)
    ensures s > 0.0
  {
    Digits.Pow10(decimals) as real
  }

  function MinorUnits(value: real, decimals: nat): int {
    RoundHalfUp(value * Scale(decimals))
  }

  function ToMoney(units: int, decimals: nat): real {
    units as real / Scale(decimals)
  }

  function ToMoneys(units: seq<int>, decimals: nat): seq<real> {
    seq(|units|, i requires 0 <= i < |units| => ToMoney(units[i], decimals))
  }

  // ---------- The split as a function ----------

  function Total(weights: seq<real>): real {
    if weights == [] then 0.0 else weights[0] + Total(weights[1..])
  }

  function Quota(minor: nat, weight: real, total: real): real
    requires total > 0.0
  {
    minor as real * weight / total
  }

  function ItemOf(index: nat, quota: real): Item {
    Item(index, quota.Floor, quota - quota.Floor as real)
  }

  function Items(minor: nat, weights: seq<real>, total: real): (items: seq<Item>)
    requires total > 0.0
    ensures |items| == |weights|
        && forall i | 0 <= i < |weights| :: items[i] == ItemOf(i, Quota(minor, weights[i], total))
  {
    seq(|weights|, i requires 0 <= i < |weights| => ItemOf(i, Quota(minor, weights[i], total)))
  }

  /** The sort order: larger fractions first, then smaller indexes. */
  predicate Before(a: Item, b: Item) {
    a.fraction > b.fraction || (a.fraction == b.fraction && a.index < b.index)
  }

  function Insert(x: Item, items: seq<Item>): seq<Item> {
    if items == [] || Before(x, items[0]) then [x] + items else [items[0]] + Insert(x, items[1..])
  }

  function SortItems(items: seq<Item>): seq<Item> {
    if items == [] then [] else Insert(items[0], SortItems(items[1..]))
  }

  function SumUnits(items: seq<Item>): int {
    if items == [] then 0 else items[0].units + SumUnits(items[1..])
  }

  /** The units that rounding every quota down leaves over. */
  function Residual(minor: nat, items: seq<Item>): int {
    minor - SumUnits(items)
  }

  function UnitsOf(items: seq<Item>): (units: seq<int>)
    ensures |units| == |items| && forall i | 0 <= i < |items| :: units[i] == items[i].units
  {
    seq(|items|, i requires 0 <= i < |items| => items[i].units)
  }

  /** One more unit for each item in order while there is a residual. */
  function Bump(units: seq<int>, order: seq<Item>, residual: int): (r: seq<int>)
    requires forall k | 0 <= k < |order| :: order[k].index < |units|
    ensures |r| == |units|
    decreases |order|
  {
    if order == [] || residual == 0 then units
    else Bump(units[order[0].index := units[order[0].index] + 1], order[1..], residual - 1)
  }

  predicate ValidWeights(weights: seq<real>) {
    (forall i | 0 <= i < |weights| :: weights[i] >= 0.0) && Total(weights) > 0.0
  }

  /** The parts of a non-negative number of minor units. */
  function SplitUnits(minor: nat, weights: seq<real>): (r: seq<int>)
    requires ValidWeights(weights)
    ensures |r| == |weights|
  {
    var items := Items(minor, weights, Total(weights));
    SortedIndexes(items);
    Bump(UnitsOf(items), SortItems(items), Residual(minor, items))
  }

  function Negate(units: seq<int>): (r: seq<int>) {
    seq(|units|, i requires 0 <= i < |units| => -units[i])
  }

  function SplitSigned(signed: int, weights: seq<real>): seq<int>
    requires ValidWeights(weights)
  {
    if signed < 0 then Negate(SplitUnits(-signed, weights)) else SplitUnits(signed, weights)
  }

  function SplitMoney(total: real, weights: seq<real>, decimals: int): Split {
    if weights == [] then Failed(NoWeights)
    else if exists i | 0 <= i < |weights| :: weights[i] < 0.0 then Failed(NegativeWeight)
    else if Total(weights) == 0.0 then Failed(ZeroWeights)
    else if decimals < 0 || decimals > 4 then Failed(BadDecimals)
    else
      TotalNonNegative(weights);
      Parts(ToMoneys(SplitSigned(MinorUnits(total, decimals), weights), decimals))
  }

  lemma {:induction false} TotalNonNegative(weights: seq<real>)
    requires forall i | 0 <= i < |weights| :: weights[i] >= 0.0
    ensures Total(weights) >= 0.0
  {
    if weights != [] {
      TotalNonNegative(weights[1..]);
    }
  }

  // ---------- The sort ----------

  lemma {:induction false} InsertKeeps(x: Item, items: seq<Item>)
    ensures |Insert(x, items)| == |items| + 1
    ensures forall y :: y in Insert(x, items) <==> y == x || y in items
    ensures SumFractions(Insert(x, items)) == x.fraction + SumFractions(items)
  {
    if items != [] && !Before(x, items[0]) {
      InsertKeeps(x, items[1..]);
      assert forall y :: y in items <==> y == items[0] || y in items[1..];
    } else {
      assert ([x] + items)[1..] == items;
    }
  }

  function SumFractions(items: seq<Item>): real {
    if items == [] then 0.0 else items[0].fraction + SumFractions(items[1..])
  }

  lemma {:induction false} SortKeepsItems(items: seq<Item>)
    ensures |SortItems(items)| == |items|
    ensures forall y :: y in SortItems(items) <==> y in items
    ensures SumFractions(SortItems(items)) == SumFractions(items)
  {
    if items != [] {
      SortKeepsItems(items[1..]);
      InsertKeeps(items[0], SortItems(items[1..]));
      assert forall y :: y in items <==> y == items[0] || y in items[1..];
    }
  }

  lemma SortedIndexes(items: seq<Item>)
    requires forall i | 0 <= i < |items| :: items[i].index == i
    ensures forall k | 0 <= k < |SortItems(items)| :: SortItems(items)[k].index < |items|
  {
    SortKeepsItems(items);
    forall k | 0 <= k < |SortItems(items)| ensures SortItems(items)[k].index < |items| {
      assert SortItems(items)[k] in items;
    }
  }

  ghost predicate Sorted(items: seq<Item>) {
    forall k, l | 0 <= k < l < |items| :: Before(items[k], items[l])
  }

  ghost predicate DistinctIndexes(items: seq<Item>) {
    forall i, j | 0 <= i < j < |items| :: items[i].index != items[j].index
  }

  lemma {:induction false} InsertSorted(x: Item, items: seq<Item>)
    requires Sorted(items) && forall y | y in items :: y.index != x.index
    ensures Sorted(Insert(x, items))
  {
    if items != [] && !Before(x, items[0]) {
      InsertSorted(x, items[1..]);
      InsertKeeps(x, items[1..]);
      var rest := Insert(x, items[1..]);
      assert items[0] in items;
      forall l | 0 <= l < |rest| ensures Before(items[0], rest[l]) {
        assert rest[l] in rest;
      }
    }
  }

  lemma {:induction false} SortSorted(items: seq<Item>)
    requires DistinctIndexes(items)
    ensures Sorted(SortItems(items))
  {
    if items != [] {
      SortSorted(items[1..]);
      SortKeepsItems(items[1..]);
      forall y | y in SortItems(items[1..]) ensures y.index != items[0].index {
        var j :| 0 <= j < |items[1..]| && items[1..][j] == y;
        assert y == items[j + 1];
      }
      InsertSorted(items[0], SortItems(items[1..]));
    }
  }

  lemma {:induction false} SortOfSorted(items: seq<Item>)
    requires Sorted(items)
    ensures SortItems(items) == items
  {
    if items != [] {
      SortOfSorted(items[1..]);
      assert |items| > 1 ==> Before(items[0], items[1]);
      assert [items[0]] + items[1..] == items;
    }
  }

  // ---------- The residual ----------

  lemma {:induction false} QuotasAdd(minor: nat, weights: seq<real>, total: real)
    requires total > 0.0
    ensures SumQuotas(minor, weights, total) == minor as real * Total(weights) / total
  {
    if weights != [] {
      QuotasAdd(minor, weights[1..], total);
      var m, w, t := minor as real, weights[0], Total(weights[1..]);
      Distribute(m, w, t);
      DivideSum(m * w, m * t, total);
    }
  }

  lemma Distribute(m: real, a: real, b: real)
    ensures m * (a + b) == m * a + m * b
  {
  }

  lemma DivideSum(a: real, b: real, t: real)
    requires t > 0.0
    ensures (a + b) / t == a / t + b / t
  {
  }

  lemma DivideProduct(x: real, t: real)
    requires t > 0.0
    ensures x * t / t == x
  {
  }

  function SumQuotas(minor: nat, weights: seq<real>, total: real): real
    requires total > 0.0
  {
    if weights == [] then 0.0 else Quota(minor, weights[0], total) + SumQuotas(minor, weights[1..], total)
  }

  lemma {:induction false} ItemsAdd(minor: nat, weights: seq<real>, total: real, items: seq<Item>)
    requires total > 0.0 && |items| == |weights|
    requires forall i | 0 <= i < |weights| ::
                items[i].units as real + items[i].fraction == Quota(minor, weights[i], total)
    ensures SumUnits(items) as real + SumFractions(items) == SumQuotas(minor, weights, total)
  {
    if weights != [] {
      ItemsAdd(minor, weights[1..], total, items[1..]);
    }
  }

  lemma ItemParts(index: nat, quota: real)
    ensures ItemOf(index, quota).units as real + ItemOf(index, quota).fraction == quota
  {
  }

  lemma UnitsAndFractions(minor: nat, weights: seq<real>, total: real)
    requires total > 0.0 && total == Total(weights)
    ensures SumUnits(Items(minor, weights, total)) as real + SumFractions(Items(minor, weights, total)) == minor as real
  {
    var items := Items(minor, weights, total);
    forall i | 0 <= i < |weights|
      ensures items[i].units as real + items[i].fraction == Quota(minor, weights[i], total)
    {
      ItemParts(i, Quota(minor, weights[i], total));
    }
    ItemsAdd(minor, weights, total, items);
    QuotasAdd(minor, weights, total);
    DivideProduct(minor as real, total);
  }

  /** The residual is the sum of the fractions. */
  lemma ResidualIsFractions(minor: nat, weights: seq<real>)
    requires ValidWeights(weights)
    ensures var items := Items(minor, weights, Total(weights));
            (Residual(minor, items)) as real == SumFractions(items)
  {
    UnitsAndFractions(minor, weights, Total(weights));
    RealDifference(minor, SumUnits(Items(minor, weights, Total(weights))));
  }

  lemma RealDifference(a: int, b: int)
    ensures (a - b) as real == a as real - b as real
  {
  }

  lemma {:induction false} FractionsBounded(items: seq<Item>)
    requires forall k | 0 <= k < |items| :: 0.0 <= items[k].fraction < 1.0
    ensures 0.0 <= SumFractions(items) <= |items| as real
  {
    if items != [] {
      FractionsBounded(items[1..]);
    }
  }

  lemma {:induction false} FractionsSplit(a: seq<Item>, b: seq<Item>)
    ensures SumFractions(a + b) == SumFractions(a) + SumFractions(b)
  {
    if a == [] {
      assert a + b == b;
    } else {
      FractionsSplit(a[1..], b);
      assert (a + b)[1..] == a[1..] + b;
    }
  }

  lemma {:induction false} ZeroFractions(items: seq<Item>)
    requires forall k | 0 <= k < |items| :: items[k].fraction == 0.0
    ensures SumFractions(items) == 0.0
  {
    if items != [] {
      ZeroFractions(items[1..]);
    }
  }

  /** Every item that the residual reaches has a positive fraction. */
  lemma ReachedIsPositive(order: seq<Item>, residual: int, k: nat)
    requires Sorted(order) && forall l | 0 <= l < |order| :: 0.0 <= order[l].fraction < 1.0
    requires residual as real == SumFractions(order) && k < |order|
    ensures order[k].fraction > 0.0 || residual <= k
  {
    var head, tail := order[..k], order[k..];
    assert head + tail == order;
    FractionsSplit(head, tail);
    FractionsBounded(head);
    if order[k].fraction == 0.0 {
      forall l | 0 <= l < |tail| ensures tail[l].fraction == 0.0 {
        assert l > 0 ==> Before(order[k], order[k + l]);
      }
      ZeroFractions(tail);
    }
  }

  // ---------- The bumps ----------

  ghost predicate Reached(order: seq<Item>, residual: int, i: nat) {
    exists k | 0 <= k < |order| && k < residual :: order[k].index == i
  }

  lemma {:induction false} BumpAt(units: seq<int>, order: seq<Item>, residual: int, i: nat)
    requires (forall k | 0 <= k < |order| :: order[k].index < |units|) && DistinctIndexes(order)
    requires 0 <= residual && i < |units|
    ensures Bump(units, order, residual)[i] == units[i] + if Reached(order, residual, i) then 1 else 0
    decreases |order|
  {
    if order != [] && residual > 0 {
      var at := order[0].index;
      BumpAt(units[at := units[at] + 1], order[1..], residual - 1, i);
      if Reached(order[1..], residual - 1, i) {
        var k :| 0 <= k < |order[1..]| && k < residual - 1 && order[1..][k].index == i;
        assert order[k + 1].index == i;
      }
      if Reached(order, residual, i) && i != at {
        var k :| 0 <= k < |order| && k < residual && order[k].index == i;
        assert order[1..][k - 1].index == i;
      }
    }
  }

  lemma {:induction false} BumpAddsResidual(units: seq<int>, order: seq<Item>, residual: int)
    requires forall k | 0 <= k < |order| :: order[k].index < |units|
    requires 0 <= residual <= |order|
    ensures Sum(Bump(units, order, residual)) == Sum(units) + residual
    decreases |order|
  {
    if order != [] && residual > 0 {
      var at := order[0].index;
      SumUpdate(units, at, units[at] + 1);
      BumpAddsResidual(units[at := units[at] + 1], order[1..], residual - 1);
    }
  }

  lemma {:induction false} SumOfUnits(items: seq<Item>)
    ensures Sum(UnitsOf(items)) == SumUnits(items)
  {
    if items != [] {
      SumOfUnits(items[1..]);
      assert UnitsOf(items)[1..] == UnitsOf(items[1..]);
    }
  }

  // ---------- What the split guarantees ----------

  /** The facts about the sorted items that the theorems rest on. */
  lemma OrderFacts(minor: nat, weights: seq<real>)
    requires ValidWeights(weights)
    ensures var items := Items(minor, weights, Total(weights));
            var order, residual := SortItems(items), Residual(minor, items);
            |order| == |items| && Sorted(order) && DistinctIndexes(order)
            && (forall k | 0 <= k < |order| :: order[k].index < |items| && order[k] == items[order[k].index])
            && (forall i | 0 <= i < |items| :: items[i] in order)
            && (forall k | 0 <= k < |order| :: 0.0 <= order[k].fraction < 1.0)
            && residual as real == SumFractions(order) && 0 <= residual <= |order|
  {
    var items := Items(minor, weights, Total(weights));
    var order := SortItems(items);
    SortSorted(items);
    SortKeepsItems(items);
    forall k | 0 <= k < |order|
      ensures order[k].index < |items| && order[k] == items[order[k].index] && 0.0 <= order[k].fraction < 1.0
    {
      assert order[k] in items;
      var i :| 0 <= i < |items| && items[i] == order[k];
    }
    forall k, l | 0 <= k < l < |order| ensures order[k].index != order[l].index {
      assert Before(order[k], order[l]);
    }
    ResidualIsFractions(minor, weights);
    FractionsBounded(order);
  }

  /** Does the residual reach the i-th weight? */
  ghost predicate GetsOne(minor: nat, weights: seq<real>, i: nat)
    requires ValidWeights(weights)
  {
    var items := Items(minor, weights, Total(weights));
    Reached(SortItems(items), Residual(minor, items), i)
  }

  /** A part is its exact quota rounded down, or one more when the residual reaches it. */
  lemma PartIs(minor: nat, weights: seq<real>, i: nat)
    requires ValidWeights(weights) && i < |weights|
    ensures SplitUnits(minor, weights)[i]
         == Quota(minor, weights[i], Total(weights)).Floor + if GetsOne(minor, weights, i) then 1 else 0
  {
    var items := Items(minor, weights, Total(weights));
    OrderBasics(minor, weights);
    PartOf(minor, weights, items, SortItems(items), Residual(minor, items), i);
    assert items[i] == ItemOf(i, Quota(minor, weights[i], Total(weights)));
  }

  lemma PartOf(minor: nat, weights: seq<real>, items: seq<Item>, order: seq<Item>, residual: int, i: nat)
    requires ValidWeights(weights) && items == Items(minor, weights, Total(weights))
    requires order == SortItems(items) && residual == Residual(minor, items) && residual >= 0
    requires DistinctIndexes(order) && forall k | 0 <= k < |order| :: order[k].index < |items|
    requires i < |items|
    ensures SplitUnits(minor, weights)[i] == items[i].units + if Reached(order, residual, i) then 1 else 0
  {
    BumpAt(UnitsOf(items), order, residual, i);
  }

  lemma OrderBasics(minor: nat, weights: seq<real>)
    requires ValidWeights(weights)
    ensures var items := Items(minor, weights, Total(weights));
            Residual(minor, items) >= 0 && DistinctIndexes(SortItems(items))
            && forall k | 0 <= k < |SortItems(items)| :: SortItems(items)[k].index < |items|
  {
    OrderFacts(minor, weights);
  }

  lemma GetsOneIsPositive(minor: nat, weights: seq<real>, i: nat)
    requires ValidWeights(weights) && i < |weights| && GetsOne(minor, weights, i)
    ensures ItemOf(i, Quota(minor, weights[i], Total(weights))).fraction > 0.0
  {
    var items := Items(minor, weights, Total(weights));
    var order, residual := SortItems(items), Residual(minor, items);
    OrderFacts(minor, weights);
    var k :| 0 <= k < |order| && k < residual && order[k].index == i;
    ReachedIsPositive(order, residual, k);
  }

  /** The parts add up to the amount. */
  lemma SplitAddsUp(minor: nat, weights: seq<real>)
    requires ValidWeights(weights)
    ensures Sum(SplitUnits(minor, weights)) == minor
  {
    var items := Items(minor, weights, Total(weights));
    OrderFacts(minor, weights);
    BumpAddsResidual(UnitsOf(items), SortItems(items), Residual(minor, items));
    SumOfUnits(items);
  }

  /** Each part is less than one minor unit from its exact quota; a zero weight gets nothing. */
  lemma SplitIsFair(minor: nat, weights: seq<real>, i: nat)
    requires ValidWeights(weights) && i < |weights|
    ensures var quota := Quota(minor, weights[i], Total(weights));
            quota - 1.0 < SplitUnits(minor, weights)[i] as real < quota + 1.0
    ensures weights[i] == 0.0 ==> SplitUnits(minor, weights)[i] == 0
    ensures SplitUnits(minor, weights)[i] >= 0
  {
    PartIs(minor, weights, i);
    QuotaSign(minor, weights[i], Total(weights));
    if GetsOne(minor, weights, i) {
      GetsOneIsPositive(minor, weights, i);
    }
  }

  lemma QuotaSign(minor: nat, weight: real, total: real)
    requires total > 0.0 && weight >= 0.0
    ensures Quota(minor, weight, total) >= 0.0
    ensures weight == 0.0 ==> Quota(minor, weight, total) == 0.0
  {
  }

  lemma QuotaMonotone(minor: nat, small: real, large: real, total: real)
    requires total > 0.0 && 0.0 <= small < large
    ensures Quota(minor, small, total) <= Quota(minor, large, total)
    ensures Quota(minor, small, total) > 0.0 ==> Quota(minor, small, total) < Quota(minor, large, total)
  {
    var m := minor as real;
    assert m * large - m * small == m * (large - small);
    assert m * large / total - m * small / total == (m * (large - small)) / total;
    if minor == 0 {
      assert m * small / total == 0.0;
    } else {
      assert m * (large - small) > 0.0;
      assert (m * (large - small)) / total > 0.0;
    }
  }

  /** An item that sorts before a reached item is reached. */
  lemma EarlierIsReached(minor: nat, weights: seq<real>, i: nat, j: nat)
    requires ValidWeights(weights) && i < |weights| && j < |weights| && GetsOne(minor, weights, j)
    requires var items := Items(minor, weights, Total(weights)); Before(items[i], items[j])
    ensures GetsOne(minor, weights, i)
  {
    var items := Items(minor, weights, Total(weights));
    var order, residual := SortItems(items), Residual(minor, items);
    OrderFacts(minor, weights);
    var l :| 0 <= l < |order| && l < residual && order[l].index == j;
    assert items[i] in order;
    var k :| 0 <= k < |order| && order[k] == items[i];
    assert !Before(order[l], order[k]);
    assert order[k].index == i;
  }

  /** A larger weight never gets less. */
  lemma SplitIsMonotone(minor: nat, weights: seq<real>, i: nat, j: nat)
    requires ValidWeights(weights) && i < |weights| && j < |weights| && weights[i] > weights[j]
    ensures SplitUnits(minor, weights)[i] >= SplitUnits(minor, weights)[j]
  {
    var total := Total(weights);
    PartIs(minor, weights, i);
    PartIs(minor, weights, j);
    QuotaMonotone(minor, weights[j], weights[i], total);
    if GetsOne(minor, weights, j) && Quota(minor, weights[i], total).Floor == Quota(minor, weights[j], total).Floor {
      GetsOneIsPositive(minor, weights, j);
      QuotaSign(minor, weights[j], total);
      EarlierIsReached(minor, weights, i, j);
    }
  }

  function SumMoney(amounts: seq<real>): real {
    if amounts == [] then 0.0 else amounts[0] + SumMoney(amounts[1..])
  }

  lemma {:induction false} SumOfMoneys(units: seq<int>, decimals: nat)
    ensures SumMoney(ToMoneys(units, decimals)) == ToMoney(Sum(units), decimals)
  {
    if units != [] {
      SumOfMoneys(units[1..], decimals);
      assert ToMoneys(units, decimals)[1..] == ToMoneys(units[1..], decimals);
      DivideSum(units[0] as real, Sum(units[1..]) as real, Scale(decimals));
    }
  }

  lemma {:induction false} SumNegates(units: seq<int>)
    ensures Sum(Negate(units)) == -Sum(units)
  {
    if units != [] {
      SumNegates(units[1..]);
      assert Negate(units)[1..] == Negate(units[1..]);
    }
  }

  /** The amounts add up to the rounded total, whatever its sign. */
  lemma MoneyAddsUp(total: real, weights: seq<real>, decimals: nat)
    requires SplitMoney(total, weights, decimals).Parts?
    ensures var amounts := SplitMoney(total, weights, decimals).amounts;
      |amounts| == |weights| && SumMoney(amounts) == ToMoney(MinorUnits(total, decimals), decimals)
  {
    TotalNonNegative(weights);
    var signed := MinorUnits(total, decimals);
    SignedAddsUp(signed, weights);
    SumOfMoneys(SplitSigned(signed, weights), decimals);
  }

  lemma SignedAddsUp(signed: int, weights: seq<real>)
    requires ValidWeights(weights)
    ensures Sum(SplitSigned(signed, weights)) == signed && |SplitSigned(signed, weights)| == |weights|
  {
    if signed < 0 {
      SplitAddsUp(-signed, weights);
      SumNegates(SplitUnits(-signed, weights));
    } else {
      SplitAddsUp(signed, weights);
    }
  }

  lemma SignedNegates(signed: int, weights: seq<real>)
    requires ValidWeights(weights)
    ensures |SplitSigned(-signed, weights)| == |SplitSigned(signed, weights)|
    ensures forall i | 0 <= i < |SplitSigned(signed, weights)| ::
                SplitSigned(-signed, weights)[i] == -SplitSigned(signed, weights)[i]
  {
    if signed == 0 {
      ZeroSplit(weights);
    }
  }

  /** Splitting the negated amount negates every part. */
  lemma SplitNegates(total: real, weights: seq<real>, decimals: int)
    ensures match SplitMoney(total, weights, decimals)
            case Failed(error) => SplitMoney(-total, weights, decimals) == Failed(error)
            case Parts(amounts) =>
              SplitMoney(-total, weights, decimals).Parts?
              && |SplitMoney(-total, weights, decimals).amounts| == |amounts|
              && forall i | 0 <= i < |amounts| :: SplitMoney(-total, weights, decimals).amounts[i] == -amounts[i]
  {
    if SplitMoney(total, weights, decimals).Parts? {
      MinorUnitsNegate(total, decimals);
      TotalNonNegative(weights);
      PartsNegate(MinorUnits(total, decimals), weights, decimals);
    }
  }

  lemma MinorUnitsNegate(total: real, decimals: nat)
    ensures MinorUnits(-total, decimals) == -MinorUnits(total, decimals)
  {
    assert (-total) * Scale(decimals) == -(total * Scale(decimals));
    RoundNegates(total * Scale(decimals));
  }

  lemma PartsNegate(signed: int, weights: seq<real>, decimals: nat)
    requires ValidWeights(weights)
    ensures var a, b := ToMoneys(SplitSigned(signed, weights), decimals),
        ToMoneys(SplitSigned(-signed, weights), decimals);
            |a| == |b| && forall i | 0 <= i < |a| :: b[i] == -a[i]
  {
    SignedNegates(signed, weights);
    var a := SplitSigned(signed, weights);
    forall i | 0 <= i < |a| ensures ToMoney(-a[i], decimals) == -ToMoney(a[i], decimals) {
      MoneyNegates(a[i], decimals);
    }
  }

  lemma MoneyNegates(units: int, decimals: nat)
    ensures ToMoney(-units, decimals) == -ToMoney(units, decimals)
  {
    QuotientNegates(units as real, Scale(decimals));
  }

  lemma QuotientNegates(x: real, s: real)
    requires s > 0.0
    ensures (-x) / s == -(x / s)
  {
  }

  /** The rounded number is a nearest integer, and of two nearest ones the one further from zero. */
  lemma RoundsToNearest(x: real)
    ensures -0.5 <= RoundHalfUp(x) as real - x <= 0.5
    ensures RoundHalfUp(x) as real - x == 0.5 ==> x > 0.0
    ensures RoundHalfUp(x) as real - x == -0.5 ==> x < 0.0
  {
  }

  lemma RoundNegates(x: real)
    ensures RoundHalfUp(-x) == -RoundHalfUp(x)
  {
  }

  lemma ZeroSplit(weights: seq<real>)
    requires ValidWeights(weights)
    ensures forall i | 0 <= i < |weights| :: SplitUnits(0, weights)[i] == 0
  {
    forall i | 0 <= i < |weights| ensures SplitUnits(0, weights)[i] == 0 {
      PartIs(0, weights, i);
      assert Quota(0, weights[i], Total(weights)) == 0.0;
      if GetsOne(0, weights, i) {
        GetsOneIsPositive(0, weights, i);
      }
    }
  }

  // ---------- Equal allocation ----------

  /** BigInt division: towards zero. */
  function TruncatedQuotient(a: int, b: int): int
    requires b > 0
  {
    if a >= 0 then a / b else -(-a / b)
  }

  /** The k-th share of an equal allocation: the quotient, and one unit more in size for the first |residual| shares. */
  function AllocateUnits(minor: int, count: nat): (r: seq<int>)
    requires count > 0
    ensures |r| == count
  {
    var base := TruncatedQuotient(minor, count);
    var residual := minor - base * count;
    seq(count, k requires 0 <= k < count => base + if k < residual then 1 else if k < -residual then -1 else 0)
  }

  function AllocateMoney(total: real, count: int, decimals: int): Split {
    if count <= 0 then Failed(BadCount)
    else if decimals < 0 || decimals > 4 then Failed(BadDecimals)
    else Parts(ToMoneys(AllocateUnits(MinorUnits(total, decimals), count), decimals))
  }

  function Repeat(weight: real, count: nat): (r: seq<real>)
    ensures |r| == count && forall i | 0 <= i < count :: r[i] == weight
  {
    seq(count, _ => weight)
  }

  lemma {:induction false} RepeatTotal(weight: real, count: nat)
    ensures Total(Repeat(weight, count)) == count as real * weight
  {
    if count > 0 {
      RepeatTotal(weight, count - 1);
      assert Repeat(weight, count)[1..] == Repeat(weight, count - 1);
    }
  }

  lemma EqualQuota(minor: nat, weight: real, count: nat)
    requires weight > 0.0 && count > 0
    ensures Quota(minor, weight, count as real * weight) == minor as real / count as real
    ensures (minor as real / count as real).Floor == minor / count
  {
    var m, n := minor as real, count as real;
    assert (m / n) * (n * weight) == m * weight;
    assert m * weight / (n * weight) == m / n;
    var q, r := minor / count, minor % count;
    assert m == q as real * n + r as real;
    assert m / n == q as real + r as real / n;
    assert 0.0 <= r as real / n < 1.0;
  }

  lemma {:induction false} SameUnitsSum(items: seq<Item>, units: int)
    requires forall i | 0 <= i < |items| :: items[i].units == units
    ensures SumUnits(items) == |items| * units
  {
    if items != [] {
      SameUnitsSum(items[1..], units);
    }
  }

  /** Equal weights have equal quotas, so the sort leaves the items in place. */
  lemma EqualItems(minor: nat, weight: real, count: nat)
    requires weight > 0.0 && count > 0
    ensures ValidWeights(Repeat(weight, count))
    ensures var items := Items(minor, Repeat(weight, count), Total(Repeat(weight, count)));
            SortItems(items) == items && Residual(minor, items) == minor % count
            && forall i | 0 <= i < count :: items[i].index == i && items[i].units == minor / count
  {
    var weights := Repeat(weight, count);
    RepeatTotal(weight, count);
    assert count as real * weight > 0.0;
    EqualQuota(minor, weight, count);
    SameQuotas(minor, Items(minor, weights, Total(weights)), minor as real / count as real, count, minor / count);
  }

  lemma SameQuotas(minor: nat, items: seq<Item>, quota: real, count: nat, units: nat)
    requires |items| == count && count > 0 && forall i | 0 <= i < count :: items[i] == ItemOf(i, quota)
    requires quota.Floor == units == minor / count
    ensures SortItems(items) == items && Residual(minor, items) == minor % count
    ensures forall i | 0 <= i < count :: items[i].index == i && items[i].units == units
  {
    SameUnitsSum(items, units);
    RestOf(minor, count, units);
    SortOfSorted(items);
  }

  lemma RestOf(minor: nat, count: nat, units: nat)
    requires count > 0 && units == minor / count
    ensures minor - count * units == minor % count
  {
  }

  /** With equal weights the largest-remainder split is the equal allocation. */
  lemma EqualSplitUnits(minor: nat, weight: real, count: nat)
    requires weight > 0.0 && count > 0
    ensures ValidWeights(Repeat(weight, count))
    ensures SplitUnits(minor, Repeat(weight, count)) == AllocateUnits(minor, count)
  {
    var weights := Repeat(weight, count);
    EqualItems(minor, weight, count);
    var items := Items(minor, weights, Total(weights));
    forall i | 0 <= i < count ensures SplitUnits(minor, weights)[i] == AllocateUnits(minor, count)[i] {
      EqualPart(minor, weights, items, i, count);
    }
  }

  lemma EqualPart(minor: nat, weights: seq<real>, items: seq<Item>, i: nat, count: nat)
    requires ValidWeights(weights) && items == Items(minor, weights, Total(weights)) && i < count == |weights|
    requires SortItems(items) == items && Residual(minor, items) == minor % count
    requires forall k | 0 <= k < count :: items[k].index == k && items[k].units == minor / count
    ensures SplitUnits(minor, weights)[i] == AllocateUnits(minor, count)[i]
  {
    var residual := minor % count;
    BumpAt(UnitsOf(items), items, residual, i);
    if i < residual {
      assert items[i].index == i;
    }
    assert Reached(items, residual, i) <==> i < residual;
    AllocatedShare(minor, count, i);
  }

  lemma AllocatedShare(minor: nat, count: nat, i: nat)
    requires i < count
    ensures AllocateUnits(minor, count)[i] == minor / count + if i < minor % count then 1 else 0
  {
    assert minor - minor / count * count == minor % count;
  }

  lemma NegatedAllocation(minor: int, count: nat)
    requires count > 0 && minor >= 0
    ensures AllocateUnits(-minor, count) == Negate(AllocateUnits(minor, count))
  {
  }

  /** allocateMoneyDecimal(total, n) is the split over n equal weights, for amounts of either sign. */
  lemma AllocationIsEqualSplit(total: real, weight: real, count: nat, decimals: int)
    requires weight > 0.0 && count > 0
    ensures AllocateMoney(total, count, decimals) == SplitMoney(total, Repeat(weight, count), decimals)
  {
    if 0 <= decimals <= 4 {
      var signed := MinorUnits(total, decimals);
      var size := if signed < 0 then -signed else signed;
      EqualSplitUnits(size, weight, count);
      NegatedAllocation(size, count);
    } else {
      RepeatTotal(weight, count);
      assert count as real * weight > 0.0;
    }
  }

  // ---------- The two functions as the source writes them ----------

  /** allocateMoneyDecimal */
  method AllocateMoneyDecimal(total: real, count: int, decimals: int) returns (r: Split)
    ensures r == AllocateMoney(total, count, decimals)
  {
    if count <= 0 {
      return Failed(BadCount);
    }
    if decimals < 0 || decimals > 4 {
      return Failed(BadDecimals);
    }
    var minor := MinorUnits(total, decimals);
    var base := TruncatedQuotient(minor, count);
    var residual := minor - base * count;
    ghost var whole := residual;
    ResidualSmall(minor, count);
    var amounts := new real[count];
    for k := 0 to count
      invariant residual == if whole >= 0 then (if k < whole then whole - k else 0)
          else (if k < -whole then whole + k else 0)
      invariant forall j | 0 <= j < k :: amounts[j] == ToMoney(AllocateUnits(minor, count)[j], decimals)
    {
      var step := if residual > 0 then 1 else if residual < 0 then -1 else 0;
      residual := residual - step;
      amounts[k] := ToMoney(base + step, decimals);
    }
    r := Parts(amounts[..]);
    assert amounts[..] == ToMoneys(AllocateUnits(minor, count), decimals);
  }

  lemma ResidualSmall(minor: int, count: nat)
    requires count > 0
    ensures 0 - count < minor - TruncatedQuotient(minor, count) * count < count
  {
  }

  /** splitMoneyByWeightsDecimal: the residual is handed out in sorted order, one unit at a time. */
  method SplitMoneyByWeightsDecimal(total: real, weights: seq<real>, decimals: int) returns (r: Split)
    ensures r == SplitMoney(total, weights, decimals)
  {
    if weights == [] {
      return Failed(NoWeights);
    }
    if exists i | 0 <= i < |weights| :: weights[i] < 0.0 {
      return Failed(NegativeWeight);
    }
    var weightTotal := Total(weights);
    if weightTotal == 0.0 {
      return Failed(ZeroWeights);
    }
    if decimals < 0 || decimals > 4 {
      return Failed(BadDecimals);
    }
    TotalNonNegative(weights);
    var signed := MinorUnits(total, decimals);
    var minor := if signed < 0 then -signed else signed;
    var units := SplitInPlace(minor, weights, weightTotal);
    r := Parts(ToMoneys(if signed < 0 then Negate(units) else units, decimals));
  }

  method SplitInPlace(minor: nat, weights: seq<real>, weightTotal: real) returns (units: seq<int>)
    requires ValidWeights(weights) && weightTotal == Total(weights)
    ensures units == SplitUnits(minor, weights)
  {
    var items := Items(minor, weights, weightTotal);
    var provisional := new int[|weights|](i requires 0 <= i < |weights| => items[i].units);
    var residual := Residual(minor, items);
    var order := SortItems(items);
    SortedIndexes(items);
    assert provisional[..] == UnitsOf(items);
    var k := 0;
    while k < |order| && residual != 0
      invariant 0 <= k <= |order|
      invariant Bump(provisional[..], order[k..], residual) == Bump(UnitsOf(items), order, Residual(minor, items))
    {
      var at := order[k].index;
      ghost var before := provisional[..];
      provisional[at] := provisional[at] + 1;
      assert provisional[..] == before[at := before[at] + 1];
      assert order[k..][1..] == order[k + 1..];
      residual := residual - 1;
      k := k + 1;
    }
    units := provisional[..];
  }
}

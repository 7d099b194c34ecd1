/** shop-order-stock.util.ts and menu-stock-db.util.ts: selling, and restoring canceled lines, under races. */
module StockClaims {
  import opened Options
  import opened Sums

  datatype Item = Item(stock: int, tracked: bool)

  /** Gone is the place of a deleted row: ids are never given out twice. */
  datatype Status = Active | Canceled | Gone

  datatype Line = Line(order: nat, item: Option<string>, quantity: nat, status: Status)

  /** A row as some query returned it, perhaps long ago. */
  datatype Listed = Listed(id: nat, line: Line)

  /** One shop's menu items and order lines; a line's id is its place. */
  datatype Tables = Tables(items: map<string, Item>, lines: seq<Line>)

  /** No menu item has the empty id. */
  predicate IsTracked(t: Tables, item: string) {
    item != "" && item in t.items && t.items[item].tracked
  }

  /** line.menuItemId is neither null nor empty. */
  predicate HasItem(line: Line) {
    line.item != None && line.item != Some("")
  }

  // ---------- Single statements ----------

  /** Whether `UPDATE ... WHERE id, shopOrderId, lineStatus = 'ACTIVE'` finds its row. */
  predicate Claimable(t: Tables, order: nat, id: nat) {
    id < |t.lines| && t.lines[id].order == order && t.lines[id].status == Active
  }

  function Claimed(t: Tables, id: nat, status: Status): Tables
    requires id < |t.lines|
  {
    t.(lines := t.lines[id := t.lines[id].(status := status)])
  }

  function AddedStock(t: Tables, item: string, amount: int): Tables
    requires IsTracked(t, item)
  {
    t.(items := t.items[item := Item(t.items[item].stock + amount, true)])
  }

  /** Running adjustMenuItemStockBy alone: the new tables and whether the change was applied or not needed. */
  function AdjustStockBy(t: Tables, item: string, delta: int): (Tables, bool) {
    if delta == 0 || !IsTracked(t, item) then (t, true)
    else if t.items[item].stock < delta && delta > 0 then (t, false)
    else (AddedStock(t, item, -delta), true)
  }

  /** Running claimActiveLinesAndRestoreStock alone. */
  function ClaimAll(t: Tables, order: nat, listed: seq<Listed>): (Tables, nat)
    decreases |listed|
  {
    if listed == [] then (t, 0)
    else
      var id, line := listed[0].id, listed[0].line;
      if line.status != Active || !HasItem(line) || !Claimable(t, order, id) then
        ClaimAll(t, order, listed[1..])
      else
        var (after, restored) :=
          ClaimAll(AdjustStockBy(Claimed(t, id, Canceled), line.item.value, 0 - line.quantity).0, order, listed[1..]);
        (after, line.quantity + restored)
  }

  class MenuStock {
    var tables: Tables

    constructor (t: Tables)
      ensures tables == t
    {
      tables := t;
    }

    method AdjustMenuItemStockBy(menuItemId: string, delta: int) returns (applied: bool)
      modifies this
      ensures (tables, applied) == AdjustStockBy(old(tables), menuItemId, delta)
    {
      if delta == 0 {
        return true;
      }
      if !IsTracked(tables, menuItemId) {
        return true;
      }
      var row := tables.items[menuItemId];
      if delta > 0 && row.stock < delta {
        return false;
      }
      if delta > 0 {
        if row.tracked && row.stock >= delta {
          tables := tables.(items := tables.items[menuItemId := row.(stock := row.stock - delta)]);
          return true;
        }
        return false;
      }
      tables := tables.(items := tables.items[menuItemId := row.(stock := row.stock + -delta)]);
      return true;
    }

    /** updateMany on one line id: the number of rows it changed. */
    method CancelActive(id: nat, order: nat) returns (count: nat)
      modifies this
      ensures count == (if Claimable(old(tables), order, id) then 1 else 0)
      ensures tables == if count == 1 then Claimed(old(tables), id, Canceled) else old(tables)
    {
      count := 0;
      if Claimable(tables, order, id) {
        tables := tables.(lines := tables.lines[id := tables.lines[id].(status := Canceled)]);
        count := 1;
      }
    }

    method ClaimActiveLinesAndRestoreStock(order: nat, listed: seq<Listed>) returns (restoredQty: nat)
      modifies this
      ensures (tables, restoredQty) == ClaimAll(old(tables), order, listed)
    {
      restoredQty := 0;
      var i := 0;
      while i < |listed|
        invariant 0 <= i <= |listed|
        invariant var rest := ClaimAll(tables, order, listed[i..]);
          ClaimAll(old(tables), order, listed) == (rest.0, restoredQty + rest.1)
      {
        var Listed(id, line) := listed[i];
        ghost var before := tables;
        assert listed[i..][0] == listed[i] && listed[i..][1..] == listed[i + 1..];
        i := i + 1;
        if line.status != Active || !HasItem(line) {
          continue;
        }
        var claimed := CancelActive(id, order);
        if claimed != 1 {
          continue;
        }
        var applied := AdjustMenuItemStockBy(line.item.value, 0 - line.quantity);
        restoredQty := restoredQty + line.quantity;
      }
    }
  }

  // ---------- What is sold ----------

  /** Quantity still sold in a line, of one item or (None) of any. */
  function ActiveShare(line: Line, item: Option<string>): nat {
    if line.status == Active && line.item != None && (item == None || line.item == item) then line.quantity else 0
  }

  function ActiveShares(lines: seq<Line>, item: Option<string>): seq<int> {
    seq(|lines|, i requires 0 <= i < |lines| => ActiveShare(lines[i], item))
  }

  function Sold(t: Tables, item: Option<string>): int {
    Sum(ActiveShares(t.lines, item))
  }

  lemma SoldUpdate(t: Tables, k: nat, line: Line, item: Option<string>)
    requires k < |t.lines|
    ensures Sold(t.(lines := t.lines[k := line]), item)
      == Sold(t, item) - ActiveShare(t.lines[k], item) + ActiveShare(line, item)
  {
    assert ActiveShares(t.lines[k := line], item) == ActiveShares(t.lines, item)[k := ActiveShare(line, item)];
    SumUpdate(ActiveShares(t.lines, item), k, ActiveShare(line, item));
  }

  lemma SoldAppend(t: Tables, line: Line, item: Option<string>)
    ensures Sold(t.(lines := t.lines + [line]), item) == Sold(t, item) + ActiveShare(line, item)
  {
    assert ActiveShares(t.lines + [line], item) == ActiveShares(t.lines, item) + [ActiveShare(line, item)];
    SumAppend(ActiveShares(t.lines, item), ActiveShare(line, item));
  }

  // ---------- One caller alone ----------

  function StockOf(t: Tables, item: string): int {
    if item in t.items then t.items[item].stock else 0
  }

  /** A listed row still names the row's order and item. */
  predicate SameRow(lines: seq<Line>, l: Listed) {
    l.id < |lines| && lines[l.id].order == l.line.order && lines[l.id].item == l.line.item
  }

  predicate SameQuantity(lines: seq<Line>, l: Listed) {
    l.id < |lines| && lines[l.id].quantity == l.line.quantity
  }

  predicate UpToDate(lines: seq<Line>, listed: seq<Listed>) {
    forall l | l in listed :: SameRow(lines, l) && SameQuantity(lines, l)
  }

  /** What one turn of the loop does to the tables. */
  function ClaimOne(t: Tables, order: nat, l: Listed): Tables {
    if l.line.status != Active || !HasItem(l.line) || !Claimable(t, order, l.id) then t
    else AdjustStockBy(Claimed(t, l.id, Canceled), l.line.item.value, 0 - l.line.quantity).0
  }

  lemma ClaimOneMoves(t: Tables, order: nat, l: Listed, item: string)
    requires IsTracked(t, item) && SameRow(t.lines, l) && SameQuantity(t.lines, l)
    ensures var next := ClaimOne(t, order, l);
      IsTracked(next, item)
      && StockOf(next, item) + Sold(next, Some(item)) == StockOf(t, item) + Sold(t, Some(item))
  {
    SoldUpdate(t, l.id, t.lines[l.id].(status := Canceled), Some(item));
  }

  lemma ClaimOneKeepsLists(t: Tables, order: nat, l: Listed, listed: seq<Listed>)
    requires UpToDate(t.lines, listed)
    ensures UpToDate(ClaimOne(t, order, l).lines, listed)
  {
  }

  /** Canceling moves quantity from sold back to stock and neither makes nor loses any. */
  lemma {:induction false} ClaimAllConserves(t: Tables, order: nat, listed: seq<Listed>, item: string)
    requires IsTracked(t, item) && UpToDate(t.lines, listed)
    ensures var after := ClaimAll(t, order, listed).0;
      IsTracked(after, item)
      && StockOf(after, item) + Sold(after, Some(item)) == StockOf(t, item) + Sold(t, Some(item))
    decreases |listed|
  {
    if listed != [] {
      var next := ClaimOne(t, order, listed[0]);
      ClaimOneMoves(t, order, listed[0], item);
      ClaimOneKeepsLists(t, order, listed[0], listed[1..]);
      ClaimAllConserves(next, order, listed[1..], item);
      assert ClaimAll(t, order, listed).0 == ClaimAll(next, order, listed[1..]).0;
    }
  }

  /** The returned quantity is what the lines that were still sold held. */
  lemma {:induction false} ClaimAllReturns(t: Tables, order: nat, listed: seq<Listed>)
    requires UpToDate(t.lines, listed)
    ensures ClaimAll(t, order, listed).1 == Sold(t, None) - Sold(ClaimAll(t, order, listed).0, None)
    decreases |listed|
  {
    if listed != [] {
      var l := listed[0];
      var next := ClaimOne(t, order, l);
      assert SameRow(t.lines, l) && SameQuantity(t.lines, l);
      SoldUpdate(t, l.id, t.lines[l.id].(status := Canceled), None);
      ClaimOneKeepsLists(t, order, l, listed[1..]);
      ClaimAllReturns(next, order, listed[1..]);
      assert Sold(next, None) == Sold(t, None) - (if next == t then 0 else l.line.quantity);
    }
  }

  // ---------- Which lines and which stock ----------

  /** The caller listed the line as ACTIVE, with an item. */
  predicate ListedToClaim(listed: seq<Listed>, id: nat) {
    exists l | l in listed :: l.id == id && l.line.status.Active? && l.line.item.Some? && l.line.item.value != ""
  }

  /** A line is canceled exactly when it is an ACTIVE line of the order and was listed as one with an item; nothing else
      of it changes, and no other line does. */
  lemma {:induction false} ClaimedExactly(t: Tables, order: nat, listed: seq<Listed>, id: nat)
    requires id < |t.lines|
    ensures var after, line := ClaimAll(t, order, listed).0, t.lines[id];
      |after.lines| == |t.lines|
      && after.lines[id] == if line.order == order && line.status.Active? && ListedToClaim(listed, id)
                            then Line(line.order, line.item, line.quantity, Canceled) else line
    decreases |listed|
  {
    if listed != [] {
      var next := ClaimOne(t, order, listed[0]);
      assert ClaimAll(t, order, listed).0 == ClaimAll(next, order, listed[1..]).0;
      ClaimedExactly(next, order, listed[1..], id);
      ListedNext(listed, id);
    }
  }

  lemma ListedNext(listed: seq<Listed>, id: nat)
    requires listed != []
    ensures ListedToClaim(listed, id) <==> ListedToClaim(listed[1..], id) || ListedToClaim([listed[0]], id)
  {
    assert forall l | l in listed :: l == listed[0] || l in listed[1..];
  }

  /** A change of stock is refused exactly when it takes more of a tracked item than there is; otherwise the stock of a
      tracked item moves by exactly that, and nothing else changes. */
  lemma AdjustsExactly(t: Tables, item: string, delta: int)
    ensures var tracked := item != "" && item in t.items && t.items[item].tracked;
      AdjustStockBy(t, item, delta) ==
        if !tracked then (t, true)
        else if delta > t.items[item].stock && delta > 0 then (t, false)
        else (Tables(t.items[item := Item(t.items[item].stock - delta, true)], t.lines), true)
  {
    if item in t.items && t.items[item].tracked && delta == 0 {
      assert t.items[item := Item(t.items[item].stock, true)] == t.items;
    }
  }
}

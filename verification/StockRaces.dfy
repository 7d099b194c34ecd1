/** Order lines sold and canceled by any number of concurrent callers, one SQL statement at a time. */
module StockRaces {
  import opened Options
  import opened StockClaims
  import opened Sums

  /** Before the claiming UPDATE, before the SELECT of the restore, before its UPDATE. */
  datatype Pc = Claiming | Checking | Adding

  datatype Worker =
    | Cancel(order: nat, todo: seq<Listed>, pc: Pc, deletes: bool)
    | Sale(order: nat, item: string, quantity: nat, checked: bool)
    | Done

  /** `restored` lists the lines whose quantity was added back to stock, in order. */
  datatype World = World(t: Tables, workers: seq<Worker>, restored: seq<nat>)

  datatype Action =
    | Begin(order: nat, ids: seq<nat>, deletes: bool)
    | Claim(k: nat)
    | Check(k: nat)
    | Add(k: nat)
    | Offer(order: nat, item: string, quantity: nat)
    | CheckSale(k: nat)
    | Sell(k: nat)
    | Patch(id: nat, quantity: nat)
    | Reset(item: string, daily: nat)

  predicate Canceling(w: World, k: nat, pc: Pc) {
    k < |w.workers| && w.workers[k].Cancel? && w.workers[k].todo != [] && w.workers[k].pc == pc
  }

  predicate Selling(w: World, k: nat, checked: bool) {
    k < |w.workers| && w.workers[k].Sale? && w.workers[k].checked == checked
  }

  predicate Enabled(w: World, a: Action) {
    match a
    case Begin(order, ids, _) =>
      forall i | 0 <= i < |ids| :: ids[i] < |w.t.lines| && w.t.lines[ids[i]].order == order
    case Claim(k) => Canceling(w, k, Claiming)
    case Check(k) => Canceling(w, k, Checking)
    case Add(k) => Canceling(w, k, Adding)
    case Offer(_, _, _) => true
    case CheckSale(k) => Selling(w, k, false)
    case Sell(k) => Selling(w, k, true)
    case Patch(id, _) => id < |w.t.lines| && w.t.lines[id].status == Active
    case Reset(item, _) => IsTracked(w.t, item)
  }

  function WithWorker(w: World, k: nat, worker: Worker): World
    requires k < |w.workers|
  {
    w.(workers := w.workers[k := worker])
  }

  /** The line a worker has claimed and not yet restored, or is about to claim. */
  function Current(worker: Worker): Listed
    requires worker.Cancel? && worker.todo != []
  {
    worker.todo[0]
  }

  function NextLine(worker: Worker): Worker
    requires worker.Cancel? && worker.todo != []
  {
    worker.(todo := worker.todo[1..], pc := Claiming)
  }

  function ListRows(lines: seq<Line>, ids: seq<nat>): (listed: seq<Listed>)
    requires forall i | 0 <= i < |ids| :: ids[i] < |lines|
    ensures |listed| == |ids| && forall i | 0 <= i < |ids| :: listed[i] == Listed(ids[i], lines[ids[i]])
  {
    seq(|ids|, i requires 0 <= i < |ids| => Listed(ids[i], lines[ids[i]]))
  }

  /** The claim finds an ACTIVE row and the caller goes on to restore. */
  predicate Wins(w: World, k: nat)
    requires Canceling(w, k, Claiming)
  {
    var l := Current(w.workers[k]);
    l.line.status == Active && HasItem(l.line) && Claimable(w.t, w.workers[k].order, l.id)
  }

  function ClaimStep(w: World, k: nat): World
    requires Canceling(w, k, Claiming)
  {
    var worker := w.workers[k];
    if !Wins(w, k) then WithWorker(w, k, NextLine(worker))
    else
      WithWorker(w, k, worker.(pc := Checking))
        .(t := Claimed(w.t, Current(worker).id, if worker.deletes then Gone else Canceled))
  }

  function CheckStep(w: World, k: nat): World
    requires Canceling(w, k, Checking)
  {
    var worker := w.workers[k];
    var line := Current(worker).line;
    if line.item == None || line.quantity == 0 || !IsTracked(w.t, line.item.value) then
      WithWorker(w, k, NextLine(worker))
    else
      WithWorker(w, k, worker.(pc := Adding))
  }

  function AddStep(w: World, k: nat): World
    requires Canceling(w, k, Adding)
  {
    var worker := w.workers[k];
    var l := Current(worker);
    var moved := WithWorker(w, k, NextLine(worker));
    if l.line.item == None || !IsTracked(w.t, l.line.item.value) then moved
    else moved.(t := AddedStock(w.t, l.line.item.value, l.line.quantity), restored := w.restored + [l.id])
  }

  function CheckSaleStep(w: World, k: nat): World
    requires Selling(w, k, false)
  {
    var sale := w.workers[k];
    if sale.quantity > 0 && IsTracked(w.t, sale.item) && w.t.items[sale.item].stock < sale.quantity then
      WithWorker(w, k, Done)
    else
      WithWorker(w, k, sale.(checked := true))
  }

  /** The conditional decrement, and the new line that commits with it. */
  function SellStep(w: World, k: nat): World
    requires Selling(w, k, true)
  {
    var Sale(order, item, quantity, _) := w.workers[k];
    var (t, ok) := AdjustStockBy(w.t, item, quantity);
    if !ok then WithWorker(w, k, Done)
    else WithWorker(w, k, Done).(t := t.(lines := t.lines + [Line(order, Some(item), quantity, Active)]))
  }

  /** A change of quantity, in one transaction with the stock it takes or gives back. */
  function PatchStep(w: World, id: nat, quantity: nat): World
    requires id < |w.t.lines|
  {
    var line := w.t.lines[id];
    var (t, ok) := if line.item == None then (w.t, true)
      else AdjustStockBy(w.t, line.item.value, quantity - line.quantity);
    if !ok then w else w.(t := t.(lines := t.lines[id := line.(quantity := quantity)]))
  }

  function ResetStep(w: World, item: string, daily: nat): World
    requires IsTracked(w.t, item)
  {
    if daily == 0 then w else w.(t := w.t.(items := w.t.items[item := Item(daily, true)]))
  }

  function Step(w: World, a: Action): World
    requires Enabled(w, a)
  {
    match a
    case Begin(order, ids, deletes) =>
      w.(workers := w.workers + [Cancel(order, ListRows(w.t.lines, ids), Claiming, deletes)])
    case Claim(k) => ClaimStep(w, k)
    case Check(k) => CheckStep(w, k)
    case Add(k) => AddStep(w, k)
    case Offer(order, item, quantity) => w.(workers := w.workers + [Sale(order, item, quantity, false)])
    case CheckSale(k) => CheckSaleStep(w, k)
    case Sell(k) => SellStep(w, k)
    case Patch(id, quantity) => PatchStep(w, id, quantity)
    case Reset(item, daily) => ResetStep(w, item, daily)
  }

  ghost predicate IsRun(ws: seq<World>, actions: seq<Action>) {
    |ws| == |actions| + 1
    && forall i | 0 <= i < |actions| :: Enabled(ws[i], actions[i]) && ws[i + 1] == Step(ws[i], actions[i])
  }

  // ---------- What workers hold ----------

  /** Either the quantity of one item or the number of holders of one line. */
  datatype Probe = OfItem(item: string) | OfLine(id: nat)

  function Held(worker: Worker, probe: Probe): nat {
    if !worker.Cancel? || worker.todo == [] || worker.pc == Claiming then 0
    else match probe
      case OfItem(item) => if Current(worker).line.item == Some(item) then Current(worker).line.quantity else 0
      case OfLine(id) => if Current(worker).id == id then 1 else 0
  }

  function HeldShares(workers: seq<Worker>, probe: Probe): (xs: seq<int>)
    ensures |xs| == |workers| && forall i | 0 <= i < |xs| :: xs[i] == Held(workers[i], probe)
  {
    seq(|workers|, i requires 0 <= i < |workers| => Held(workers[i], probe))
  }

  function AllHeld(workers: seq<Worker>, probe: Probe): nat {
    SumNonNegative(HeldShares(workers, probe));
    Sum(HeldShares(workers, probe))
  }

  lemma HeldUpdate(workers: seq<Worker>, k: nat, worker: Worker, probe: Probe)
    requires k < |workers|
    ensures AllHeld(workers[k := worker], probe)
      == AllHeld(workers, probe) - Held(workers[k], probe) + Held(worker, probe)
  {
    assert HeldShares(workers[k := worker], probe) == HeldShares(workers, probe)[k := Held(worker, probe)];
    SumUpdate(HeldShares(workers, probe), k, Held(worker, probe));
  }

  lemma HeldAppend(workers: seq<Worker>, worker: Worker, probe: Probe)
    ensures AllHeld(workers + [worker], probe) == AllHeld(workers, probe) + Held(worker, probe)
  {
    assert HeldShares(workers + [worker], probe) == HeldShares(workers, probe) + [Held(worker, probe) as int];
    SumAppend(HeldShares(workers, probe), Held(worker, probe));
  }

  // ---------- Conservation ----------

  /** Stock, sold quantity, and quantity claimed but not yet given back. */
  function Total(w: World, item: string): int {
    StockOf(w.t, item) + Sold(w.t, Some(item)) + AllHeld(w.workers, OfItem(item))
  }

  ghost predicate Listing(w: World) {
    forall k, l | 0 <= k < |w.workers| && w.workers[k].Cancel? && l in w.workers[k].todo :: SameRow(w.t.lines, l)
  }

  /** How far the listed quantity a winning claim relies on is from the row's. */
  function Drift(w: World, a: Action, item: string): int
    requires Enabled(w, a)
  {
    if a.Claim? && Wins(w, a.k) && Current(w.workers[a.k]).line.item == Some(item) then
      Current(w.workers[a.k]).line.quantity - w.t.lines[Current(w.workers[a.k]).id].quantity
    else 0
  }

  lemma ClaimDrifts(w: World, k: nat, item: string)
    requires Listing(w) && Canceling(w, k, Claiming) && IsTracked(w.t, item)
    ensures Total(ClaimStep(w, k), item) == Total(w, item) + Drift(w, Claim(k), item)
  {
    var worker := w.workers[k];
    var l := Current(worker);
    assert SameRow(w.t.lines, l);
    HeldUpdate(w.workers, k, ClaimStep(w, k).workers[k], OfItem(item));
    SoldUpdate(w.t, l.id, w.t.lines[l.id].(status := if worker.deletes then Gone else Canceled), Some(item));
  }

  lemma RestoreConserves(w: World, a: Action, item: string)
    requires a.Check? || a.Add?
    requires Enabled(w, a) && IsTracked(w.t, item)
    ensures Total(Step(w, a), item) == Total(w, item)
  {
    HeldUpdate(w.workers, a.k, Step(w, a).workers[a.k], OfItem(item));
  }

  lemma SaleConserves(w: World, a: Action, item: string)
    requires a.CheckSale? || a.Sell?
    requires Enabled(w, a) && IsTracked(w.t, item)
    ensures Total(Step(w, a), item) == Total(w, item)
  {
    var sale := w.workers[a.k];
    HeldUpdate(w.workers, a.k, Step(w, a).workers[a.k], OfItem(item));
    SoldAppend(AdjustStockBy(w.t, sale.item, sale.quantity).0, Line(sale.order, Some(sale.item), sale.quantity, Active),
      Some(item));
  }

  lemma PatchConserves(w: World, id: nat, quantity: nat, item: string)
    requires id < |w.t.lines| && w.t.lines[id].status == Active && IsTracked(w.t, item)
    ensures Total(PatchStep(w, id, quantity), item) == Total(w, item)
  {
    SoldUpdate(w.t, id, w.t.lines[id].(quantity := quantity), Some(item));
  }

  lemma ArrivalConserves(w: World, a: Action, item: string)
    requires a.Begin? || a.Offer?
    requires Enabled(w, a) && IsTracked(w.t, item)
    ensures Total(Step(w, a), item) == Total(w, item)
  {
    var workers := Step(w, a).workers;
    HeldAppend(w.workers, workers[|w.workers|], OfItem(item));
  }

  /** Between resets, the total of a tracked item moves only by what a claim's stale quantity is off. */
  lemma StepDrifts(w: World, a: Action, item: string)
    requires Listing(w) && Enabled(w, a) && IsTracked(w.t, item) && !(a.Reset? && a.item == item)
    ensures Total(Step(w, a), item) == Total(w, item) + Drift(w, a, item)
    ensures IsTracked(Step(w, a).t, item)
  {
    match a
    case Begin(_, _, _) => ArrivalConserves(w, a, item);
    case Claim(k) => ClaimDrifts(w, k, item);
    case Check(_) => RestoreConserves(w, a, item);
    case Add(_) => RestoreConserves(w, a, item);
    case Offer(_, _, _) => ArrivalConserves(w, a, item);
    case CheckSale(_) => SaleConserves(w, a, item);
    case Sell(_) => SaleConserves(w, a, item);
    case Patch(id, quantity) => PatchConserves(w, id, quantity, item);
    case Reset(_, _) =>
  }

  // ---------- Every line restored at most once ----------

  function ActiveToken(lines: seq<Line>, id: nat): nat {
    if id < |lines| && lines[id].status == Active then 1 else 0
  }

  /** A line is either sold, held by one caller, or restored. */
  function Tokens(w: World, id: nat): nat {
    ActiveToken(w.t.lines, id) + AllHeld(w.workers, OfLine(id)) + multiset(w.restored)[id]
  }

  ghost predicate Once(w: World) {
    forall id: nat :: Tokens(w, id) <= 1 && (id >= |w.t.lines| ==> Tokens(w, id) == 0)
  }

  ghost predicate NoneNegative(w: World) {
    forall item | item in w.t.items :: w.t.items[item].stock >= 0
  }

  ghost predicate Inv(w: World) {
    Listing(w) && Once(w) && NoneNegative(w)
  }

  lemma ListingKept(w: World, a: Action)
    requires Listing(w) && Enabled(w, a)
    ensures Listing(Step(w, a))
  {
    var next := Step(w, a);
    forall k, l | 0 <= k < |next.workers| && next.workers[k].Cancel? && l in next.workers[k].todo
      ensures SameRow(next.t.lines, l)
    {
      if k < |w.workers| {
        assert l in w.workers[k].todo;
        assert SameRow(w.t.lines, l);
      }
    }
  }

  lemma StockKept(w: World, a: Action)
    requires NoneNegative(w) && Enabled(w, a)
    ensures NoneNegative(Step(w, a))
  {
  }

  lemma ArrivalTokens(w: World, a: Action, id: nat)
    requires a.Begin? || a.Offer?
    requires Enabled(w, a)
    ensures Tokens(Step(w, a), id) == Tokens(w, id)
  {
    HeldAppend(w.workers, Step(w, a).workers[|w.workers|], OfLine(id));
  }

  lemma ClaimTokens(w: World, k: nat, id: nat)
    requires Canceling(w, k, Claiming)
    ensures Tokens(ClaimStep(w, k), id) == Tokens(w, id)
  {
    HeldUpdate(w.workers, k, ClaimStep(w, k).workers[k], OfLine(id));
  }

  predicate Drops(w: World, a: Action, id: nat)
    requires Enabled(w, a)
  {
    (a.Check? || a.Add?) && Current(w.workers[a.k]).id == id
    && (a.Check? ==> Step(w, a).workers[a.k] == NextLine(w.workers[a.k]))
    && (a.Add? ==> Step(w, a).restored == w.restored)
  }

  lemma RestoreTokens(w: World, a: Action, id: nat)
    requires a.Check? || a.Add?
    requires Enabled(w, a)
    ensures Tokens(Step(w, a), id) <= Tokens(w, id)
    ensures !Drops(w, a, id) ==> Tokens(Step(w, a), id) == Tokens(w, id)
  {
    HeldUpdate(w.workers, a.k, Step(w, a).workers[a.k], OfLine(id));
  }

  lemma SaleTokens(w: World, a: Action, id: nat)
    requires a.CheckSale? || a.Sell?
    requires Enabled(w, a)
    ensures Tokens(Step(w, a), id) == Tokens(w, id)
      + (if id == |w.t.lines| && |Step(w, a).t.lines| > |w.t.lines| then 1 else 0)
  {
    HeldUpdate(w.workers, a.k, Step(w, a).workers[a.k], OfLine(id));
  }

  /** Only a sale makes a token, and only for the line it adds. */
  lemma TokensStep(w: World, a: Action, id: nat)
    requires Enabled(w, a)
    ensures Tokens(Step(w, a), id) <= Tokens(w, id)
      + (if id == |w.t.lines| && |Step(w, a).t.lines| > |w.t.lines| then 1 else 0)
    ensures id < |w.t.lines| && !Drops(w, a, id) ==> Tokens(Step(w, a), id) == Tokens(w, id)
  {
    match a
    case Begin(_, _, _) => ArrivalTokens(w, a, id);
    case Offer(_, _, _) => ArrivalTokens(w, a, id);
    case Claim(k) => ClaimTokens(w, k, id);
    case Check(_) => RestoreTokens(w, a, id);
    case Add(_) => RestoreTokens(w, a, id);
    case CheckSale(_) => SaleTokens(w, a, id);
    case Sell(_) => SaleTokens(w, a, id);
    case Patch(_, _) =>
    case Reset(_, _) =>
  }

  lemma LinesGrow(w: World, a: Action)
    requires Enabled(w, a)
    ensures |w.t.lines| <= |Step(w, a).t.lines| <= |w.t.lines| + 1
  {
  }

  lemma InvKept(w: World, a: Action)
    requires Inv(w) && Enabled(w, a)
    ensures Inv(Step(w, a))
  {
    ListingKept(w, a);
    StockKept(w, a);
    LinesGrow(w, a);
    forall id: nat
      ensures Tokens(Step(w, a), id) <= 1 && (id >= |Step(w, a).t.lines| ==> Tokens(Step(w, a), id) == 0)
    {
      TokensStep(w, a, id);
    }
  }

  lemma {:induction false} InvOfRun(ws: seq<World>, actions: seq<Action>, n: nat)
    requires IsRun(ws, actions) && n <= |actions| && Inv(ws[0])
    ensures Inv(ws[n])
  {
    if n > 0 {
      InvOfRun(ws, actions, n - 1);
      InvKept(ws[n - 1], actions[n - 1]);
    }
  }

  /** Nobody at work, nothing restored yet, no item below zero. */
  ghost predicate Quiet(w: World) {
    w.workers == [] && w.restored == [] && NoneNegative(w)
  }

  /** Whatever the callers and their order, no line is restored twice and no stock goes below zero. */
  lemma NoDoubleRestore(ws: seq<World>, actions: seq<Action>, n: nat, id: nat, item: string)
    requires IsRun(ws, actions) && n <= |actions| && Quiet(ws[0])
    ensures multiset(ws[n].restored)[id] <= 1
    ensures item in ws[n].t.items ==> ws[n].t.items[item].stock >= 0
  {
    assert Inv(ws[0]);
    InvOfRun(ws, actions, n);
    assert Tokens(ws[n], id) <= 1;
  }

  // ---------- Runs in which line quantities stay ----------

  ghost predicate FreshListing(w: World) {
    forall k, l | 0 <= k < |w.workers| && w.workers[k].Cancel? && l in w.workers[k].todo :: SameQuantity(w.t.lines, l)
  }

  ghost predicate NoPatch(actions: seq<Action>) {
    forall i | 0 <= i < |actions| :: !actions[i].Patch?
  }

  lemma FreshListingKept(w: World, a: Action)
    requires FreshListing(w) && Enabled(w, a) && !a.Patch?
    ensures FreshListing(Step(w, a))
  {
    var next := Step(w, a);
    forall k, l | 0 <= k < |next.workers| && next.workers[k].Cancel? && l in next.workers[k].todo
      ensures SameQuantity(next.t.lines, l)
    {
      if k < |w.workers| {
        assert l in w.workers[k].todo;
        assert SameQuantity(w.t.lines, l);
      }
    }
  }

  lemma {:induction false} FreshListingOfRun(ws: seq<World>, actions: seq<Action>, n: nat)
    requires IsRun(ws, actions) && n <= |actions| && Quiet(ws[0]) && NoPatch(actions)
    ensures FreshListing(ws[n]) && Inv(ws[n])
  {
    if n > 0 {
      FreshListingOfRun(ws, actions, n - 1);
      FreshListingKept(ws[n - 1], actions[n - 1]);
      InvKept(ws[n - 1], actions[n - 1]);
    }
  }

  /** Stock, sold and claimed quantities of a tracked item add up to the same total between its resets. */
  lemma {:induction false} TotalIsConserved(ws: seq<World>, actions: seq<Action>, n: nat, item: string)
    requires IsRun(ws, actions) && n <= |actions| && Quiet(ws[0]) && NoPatch(actions) && IsTracked(ws[0].t, item)
    requires forall i | 0 <= i < |actions| :: !(actions[i].Reset? && actions[i].item == item)
    ensures IsTracked(ws[n].t, item) && Total(ws[n], item) == Total(ws[0], item)
  {
    if n > 0 {
      var w, a := ws[n - 1], actions[n - 1];
      TotalIsConserved(ws, actions, n - 1, item);
      FreshListingOfRun(ws, actions, n - 1);
      StepDrifts(w, a, item);
      if a.Claim? {
        assert SameQuantity(w.t.lines, Current(w.workers[a.k]));
      }
    }
  }

  /** A line whose cancellation has something to give back. */
  predicate Restorable(t: Tables, id: nat) {
    id < |t.lines| && t.lines[id].item != None && t.lines[id].quantity > 0 && IsTracked(t, t.lines[id].item.value)
  }

  lemma TokenKept(w: World, a: Action, id: nat)
    requires Listing(w) && FreshListing(w) && Enabled(w, a) && !a.Patch? && Restorable(w.t, id)
    ensures Restorable(Step(w, a).t, id) && Tokens(Step(w, a), id) == Tokens(w, id)
  {
    TokensStep(w, a, id);
    if a.Check? || a.Add? {
      var l := Current(w.workers[a.k]);
      assert SameRow(w.t.lines, l) && SameQuantity(w.t.lines, l);
    }
  }

  lemma {:induction false} TokenOfRun(ws: seq<World>, actions: seq<Action>, m: nat, n: nat, id: nat)
    requires IsRun(ws, actions) && m <= n <= |actions| && Quiet(ws[0]) && NoPatch(actions) && Restorable(ws[m].t, id)
    ensures Restorable(ws[n].t, id) && Tokens(ws[n], id) == Tokens(ws[m], id)
  {
    if n > m {
      TokenOfRun(ws, actions, m, n - 1, id);
      FreshListingOfRun(ws, actions, n - 1);
      TokenKept(ws[n - 1], actions[n - 1], id);
    }
  }

  /** A line that was sold at some time of the run, from its start or later, is at any later time restored exactly once
      when it is no longer sold and nobody is still restoring it, and not at all otherwise. */
  lemma RestoredExactlyOnce(ws: seq<World>, actions: seq<Action>, m: nat, n: nat, id: nat)
    requires IsRun(ws, actions) && m <= n <= |actions| && Quiet(ws[0]) && NoPatch(actions)
    requires Restorable(ws[m].t, id) && ws[m].t.lines[id].status == Active
    ensures id < |ws[n].t.lines| && multiset(ws[n].restored)[id] ==
      (if ws[n].t.lines[id].status == Active || AllHeld(ws[n].workers, OfLine(id)) > 0 then 0 else 1)
  {
    TokenOfRun(ws, actions, m, n, id);
    FreshListingOfRun(ws, actions, m);
    assert Tokens(ws[m], id) <= 1;
  }

  // ---------- One caller undisturbed ----------

  /** A canceler's turn at its next line, when nobody comes between. */
  function Turn(w: World, k: nat): World
    requires Canceling(w, k, Claiming)
  {
    var claimed := ClaimStep(w, k);
    if !Canceling(claimed, k, Checking) then claimed
    else
      var checked := CheckStep(claimed, k);
      if !Canceling(checked, k, Adding) then checked else AddStep(checked, k)
  }

  /** It does to the tables what one turn of the loop does, and the canceler goes on to the next line. */
  lemma TurnIsClaim(w: World, k: nat)
    requires Canceling(w, k, Claiming) && !w.workers[k].deletes
    ensures var worker := w.workers[k];
      Turn(w, k).t == ClaimOne(w.t, worker.order, worker.todo[0])
      && Turn(w, k).workers == w.workers[k := Cancel(worker.order, worker.todo[1..], Claiming, false)]
  {
    var worker := w.workers[k];
    var l := worker.todo[0];
    if Wins(w, k) {
      var claimed := ClaimStep(w, k);
      assert claimed.workers[k] == worker.(pc := Checking);
      AdjustsExactly(claimed.t, l.line.item.value, 0 - l.line.quantity);
      var checked := CheckStep(claimed, k);
      assert claimed.t == Claimed(w.t, l.id, Canceled);
      if checked.workers[k] == worker.(pc := Adding) {
        assert Turn(w, k) == AddStep(checked, k);
      } else {
        assert Turn(w, k) == checked;
      }
    }
  }

  function Turns(w: World, k: nat): World
    requires k < |w.workers| && w.workers[k].Cancel? && w.workers[k].pc.Claiming? && !w.workers[k].deletes
    decreases |w.workers[k].todo|
  {
    if w.workers[k].todo == [] then w
    else
      TurnIsClaim(w, k);
      Turns(Turn(w, k), k)
  }

  /** Undisturbed, the statements of a canceler add up to claimActiveLinesAndRestoreStock. */
  lemma {:induction false} UndisturbedIsClaimAll(w: World, k: nat)
    requires k < |w.workers| && w.workers[k].Cancel? && w.workers[k].pc.Claiming? && !w.workers[k].deletes
    ensures Turns(w, k).t == ClaimAll(w.t, w.workers[k].order, w.workers[k].todo).0
    decreases |w.workers[k].todo|
  {
    if w.workers[k].todo != [] {
      TurnIsClaim(w, k);
      UndisturbedIsClaimAll(Turn(w, k), k);
    }
  }

  /** A sale that checks and then takes its stock, nobody coming between: it adds its line and takes the quantity
      exactly when the item is not tracked or has that many; otherwise it changes nothing. */
  lemma UndisturbedSale(w: World, order: nat, item: string, quantity: nat)
    ensures var k, tracked := |w.workers|, item != "" && item in w.t.items && w.t.items[item].tracked;
      var checked := Step(Step(w, Offer(order, item, quantity)), CheckSale(k));
      var line := Line(order, Some(item), quantity, Active);
      if tracked && w.t.items[item].stock < quantity && quantity > 0 then checked == w.(workers := w.workers + [Done])
      else
        Enabled(checked, Sell(k))
        && Step(checked, Sell(k)).t.lines == w.t.lines + [line]
        && Step(checked, Sell(k)).t.items
          == if tracked then w.t.items[item := Item(w.t.items[item].stock - quantity, true)] else w.t.items
  {
    AdjustsExactly(w.t, item, quantity);
    var offered := Step(w, Offer(order, item, quantity));
    assert offered.workers[|w.workers|] == Sale(order, item, quantity, false);
  }

  /** A claim wins exactly when line and listing are both active, of this order and with an item; a winning one cancels
      the line, or deletes it when the order is deleted. */
  lemma ClaimsExactly(w: World, k: nat)
    requires Enabled(w, Claim(k))
    ensures var worker := w.workers[k];
      var l, lines, w' := worker.todo[0], w.t.lines, Step(w, Claim(k));
      w'.t.items == w.t.items
      && if l.line.status == Active && l.line.item.Some? && l.line.item.value != ""
            && l.id < |lines| && lines[l.id].order == worker.order && lines[l.id].status == Active then
           w'.t.lines == lines[l.id := Line(lines[l.id].order, lines[l.id].item, lines[l.id].quantity,
                                            if worker.deletes then Gone else Canceled)]
           && w'.workers == w.workers[k := worker.(pc := Checking)]
         else
           w'.t.lines == lines && w'.workers == w.workers[k := worker.(todo := worker.todo[1..])]
  {
  }

  /** A change of quantity moves the stock of a tracked item by the difference, or is refused as a whole. */
  lemma PatchesExactly(w: World, id: nat, quantity: nat)
    requires Enabled(w, Patch(id, quantity))
    ensures var line := w.t.lines[id];
      var item, more := line.item.GetOr(""), quantity - line.quantity;
      var tracked := item != "" && item in w.t.items && w.t.items[item].tracked;
      Step(w, Patch(id, quantity)) ==
        if tracked && more > 0 && w.t.items[item].stock < more then w
        else w.(t := Tables(if tracked then w.t.items[item := Item(w.t.items[item].stock - more, true)] else w.t.items,
                            w.t.lines[id := Line(line.order, line.item, quantity, Active)]))
  {
    if w.t.lines[id].item.Some? {
      AdjustsExactly(w.t, w.t.lines[id].item.value, quantity - w.t.lines[id].quantity);
    }
  }

  /** The day's first look at a tracked item fills its stock up to the daily quantity, if it has one. */
  lemma ResetsExactly(w: World, item: string, daily: nat)
    requires Enabled(w, Reset(item, daily))
    ensures item in w.t.items
    ensures Step(w, Reset(item, daily)).t.items
      == w.t.items[item := Item(if daily > 0 then daily else w.t.items[item].stock, true)]
    ensures Step(w, Reset(item, daily)).t.lines == w.t.lines && Step(w, Reset(item, daily)).workers == w.workers
  {
    assert w.t.items[item := w.t.items[item]] == w.t.items;
  }

  const TEA := Line(0, Some("tea"), 2, Active)

  /** One order of two teas, none left in stock; a canceler has just listed it. */
  const LISTED_TEA :=
    World(Tables(map["tea" := Item(0, true)], [TEA]), [Cancel(0, [Listed(0, TEA)], Claiming, false)], [])

  /** The order has since been changed to one tea, and one went back to stock. */
  const PATCHED_TEA := LISTED_TEA.(t := Tables(map["tea" := Item(1, true)], [TEA.(quantity := 1)]))

  lemma ListTea()
    ensures var w := LISTED_TEA.(workers := []);
      Quiet(w) && Enabled(w, Begin(0, [0], false)) && Step(w, Begin(0, [0], false)) == LISTED_TEA
  {
    assert ListRows([TEA], [0]) == [Listed(0, TEA)];
  }

  lemma PatchTea()
    ensures Listing(LISTED_TEA) && Enabled(LISTED_TEA, Patch(0, 1)) && Step(LISTED_TEA, Patch(0, 1)) == PATCHED_TEA
  {
  }

  lemma ClaimTea()
    ensures Listing(PATCHED_TEA) && Enabled(PATCHED_TEA, Claim(0)) && Drift(PATCHED_TEA, Claim(0), "tea") == 1
  {
  }

  /** A quantity changed between listing and claiming: the old quantity goes back to stock, more than was sold. */
  lemma StaleQuantityInflatesStock() returns (ws: seq<World>, actions: seq<Action>)
    ensures IsRun(ws, actions) && Quiet(ws[0]) && IsTracked(ws[0].t, "tea")
    ensures forall i | 0 <= i < |actions| :: !actions[i].Reset?
    ensures Total(ws[|actions|], "tea") == Total(ws[0], "tea") + 1
  {
    ListTea();
    PatchTea();
    ClaimTea();
    actions := [Begin(0, [0], false), Patch(0, 1), Claim(0)];
    ws := [LISTED_TEA.(workers := []), LISTED_TEA, PATCHED_TEA, Step(PATCHED_TEA, Claim(0))];
    StepDrifts(ws[0], actions[0], "tea");
    StepDrifts(ws[1], actions[1], "tea");
    StepDrifts(ws[2], actions[2], "tea");
  }
}

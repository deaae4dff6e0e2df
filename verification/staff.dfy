/** The staff dashboard (src/pages/Staff.tsx): who may see it, which status changes it offers
    for an order, the sales figures it computes from the fetched orders, and the state of the
    dish form. Fetching, updating and the realtime feed are backend calls; only the values
    computed from their results and the payloads sent are modelled. */
module Staff {
  import opened Wrappers
  import opened Seqs
  import opened OrderBook
  import Catalog

  // ---------------------------------------------------------------------------------------
  // Access

  /** What the page does for a visitor: show the spinner while the session is loading, send a
      signed-out or non-staff visitor away, or show the dashboard. `Denied` stands for "render,
      then redirect": the page has no guard in its markup, so a denied visitor gets one render of
      the dashboard before the redirect effect runs. */
  datatype Access = Checking | Denied | Granted

  /** The spinner test `loading || (!user && loading)` and the redirect effect guarded by
      `!loading && (!user || !isStaff)`. */
  function AccessFor(loading: bool, signedIn: bool, isStaff: bool): (r: Access)
    ensures r.Checking? <==> loading
    ensures r.Denied? <==> !loading && (!signedIn || !isStaff)
    ensures r.Granted? <==> !loading && signedIn && isStaff
  {
    if loading || (!signedIn && loading) then Checking
    else if !signedIn || !isStaff then Denied
    else Granted
  }

  // ---------------------------------------------------------------------------------------
  // Status changes

  /** The workflow the buttons follow: pending to preparing to ready to completed, with
      cancelling allowed before the food is ready. */
  predicate CanMove(from: Status, to: Status) {
    match (from, to)
    case (Pending, Preparing) => true
    case (Preparing, Ready) => true
    case (Ready, Completed) => true
    case (Pending, Cancelled) => true
    case (Preparing, Cancelled) => true
    case _ => false
  }

  /** How far an order has come: every move goes strictly up, and both terminal statuses sit at
      the top. */
  function Rank(s: Status): nat {
    match s
    case Pending => 0
    case Preparing => 1
    case Ready => 2
    case Completed => 3
    case Cancelled => 3
  }

  /** The target statuses of the buttons shown for an order, in button order: "Start
      Preparing", "Mark as Ready", "Mark as Delivered", "Cancel". Each button appears at most
      once, and "Cancel", when shown, comes after the forward move. */
  function OfferedTransitions(raw: string): (r: seq<string>)
    ensures forall i :: 0 <= i < |r| ==>
              Parse(raw).Some? && Parse(r[i]).Some? && CanMove(Parse(raw).value, Parse(r[i]).value)
    ensures forall t: Status :: Parse(raw).Some? && CanMove(Parse(raw).value, t) ==> Name(t) in r
    ensures raw == "completed" || raw == "cancelled" ==> r == []
    ensures forall i, j :: 0 <= i < j < |r| ==> r[i] != r[j]
    ensures "cancelled" in r ==> r[|r| - 1] == "cancelled"
  {
    var r :=
      (if raw == "pending" then ["preparing"] else []) +
      (if raw == "preparing" then ["ready"] else []) +
      (if raw == "ready" then ["completed"] else []) +
      (if raw in ["pending", "preparing"] then ["cancelled"] else []);
    assert raw == "pending" ==> r == ["preparing", "cancelled"];
    assert raw == "preparing" ==> r == ["ready", "cancelled"];
    assert raw == "ready" ==> r == ["completed"];
    assert Parse(raw).None? || raw in ["completed", "cancelled"] ==> r == [];
    r
  }

  /** Every offered change moves the order strictly forward. */
  lemma OfferedMovesForward(raw: string, target: string)
    requires target in OfferedTransitions(raw)
    ensures Parse(raw).Some? && Parse(target).Some?
    ensures Rank(Parse(raw).value) < Rank(Parse(target).value)
  {
    var r := OfferedTransitions(raw);
    var i :| 0 <= i < |r| && r[i] == target;
  }

  /** A history of statuses in which each one was offered from the one before. */
  predicate OfferedPath(path: seq<string>) {
    forall i :: 0 < i < |path| ==> path[i] in OfferedTransitions(path[i - 1])
  }

  /** Along an offered history the rank climbs by at least one per step. */
  lemma {:induction false} PathRankClimbs(path: seq<string>, i: nat, j: nat)
    requires OfferedPath(path)
    requires i < j < |path|
    ensures Parse(path[i]).Some? && Parse(path[j]).Some?
    ensures Rank(Parse(path[i]).value) + (j - i) <= Rank(Parse(path[j]).value)
    decreases j - i
  {
    OfferedMovesForward(path[j - 1], path[j]);
    if i < j - 1 {
      PathRankClimbs(path, i, j - 1);
    }
  }

  /** Following the buttons never brings an order back to a status it had before, and no order
      goes through more than four statuses. */
  lemma OfferedPathNeverRevisits(path: seq<string>)
    requires OfferedPath(path)
    ensures forall i, j :: 0 <= i < j < |path| ==> path[i] != path[j]
    ensures |path| <= 4
  {
    forall i, j | 0 <= i < j < |path|
      ensures path[i] != path[j]
    {
      PathRankClimbs(path, i, j);
    }
    if |path| > 1 {
      PathRankClimbs(path, 0, |path| - 1);
    }
  }

  /** `updateOrderStatus`: the order row after the update is sent. */
  function UpdateOrderStatus(o: Order, newStatus: string): (r: Order)
    ensures r.status == newStatus
    ensures r.id == o.id && r.total == o.total && r.createdMonth == o.createdMonth
  {
    o.(status := newStatus)
  }

  /** Using a button moves an order out of the in-progress list exactly when it completes or
      cancels it, and a finished order has no buttons. */
  lemma UpdateLeavesInProgress(o: Order, target: string)
    requires target in OfferedTransitions(o.status)
    ensures IsInProgress(o.status)
    ensures IsFinished(UpdateOrderStatus(o, target).status) <==> target in ["completed", "cancelled"]
    ensures IsInProgress(UpdateOrderStatus(o, target).status) <==> target in ["preparing", "ready"]
  {
    OfferedMovesForward(o.status, target);
    ListsSplitStatuses(o.status);
    ListsSplitStatuses(target);
  }

  // ---------------------------------------------------------------------------------------
  // Sales figures

  function CompletedOrder(o: Order): bool {
    o.status == "completed"
  }

  function CancelledOrder(o: Order): bool {
    o.status == "cancelled"
  }

  function OrderTotal(o: Order): int {
    o.total
  }

  /** One entry of `monthlySales`, in the order its month was first seen. */
  datatype Bucket = Bucket(month: string, sales: int)

  ghost predicate UniqueMonths(b: seq<Bucket>) {
    forall i, j :: 0 <= i < j < |b| ==> b[i].month != b[j].month
  }

  /** `monthlySales[month]` as a position: the first entry for the month. This is the same
      first-match search as the cart's `find`, over buckets keyed by month instead of lines keyed
      by dish id; it is kept separate so that each module's lemmas speak of its own key field. */
  function FindMonth(b: seq<Bucket>, month: string): (r: Option<nat>)
    ensures r.Some? ==> r.value < |b| && b[r.value].month == month
    ensures r.Some? ==> forall j :: 0 <= j < r.value ==> b[j].month != month
    ensures r.None? <==> forall j :: 0 <= j < |b| ==> b[j].month != month
  {
    if |b| == 0 then None
    else if b[0].month == month then Some(0)
    else match FindMonth(b[1..], month)
      case None => None
      case Some(k) => Some(k + 1)
  }

  /** `monthlySales[month] ?? 0`: the sales recorded for a month. */
  function MonthSales(b: seq<Bucket>, month: string): int {
    match FindMonth(b, month)
    case None => 0
    case Some(k) => b[k].sales
  }

  function BucketSales(x: Bucket): int {
    x.sales
  }

  /** One step of the `forEach`: a falsy entry (missing, or zero) is set to zero, then the
      order's total is added. A new month gets one entry at the end holding the amount; for a
      month already present the reset has no effect, and its entry grows by the amount in place. */
  function AddSale(b: seq<Bucket>, month: string, amount: int): (r: seq<Bucket>)
    ensures FindMonth(b, month).None? ==> r == b + [Bucket(month, amount)]
    ensures FindMonth(b, month).Some? ==>
              var k := FindMonth(b, month).value; r == b[k := Bucket(month, b[k].sales + amount)]
  {
    match FindMonth(b, month)
    case None => b + [Bucket(month, 0 + amount)]
    case Some(k) =>
      var base := if b[k].sales == 0 then 0 else b[k].sales;
      b[k := Bucket(month, base + amount)]
  }

  /** The first entry for a month is found. */
  lemma FindMonthAt(b: seq<Bucket>, month: string, k: nat)
    requires k < |b| && b[k].month == month
    requires forall j :: 0 <= j < k ==> b[j].month != month
    ensures FindMonth(b, month) == Some(k)
  {
  }

  /** Appending an entry finds earlier months where they were and the new month at the end. */
  lemma FindMonthAppend(b: seq<Bucket>, x: Bucket, month: string)
    ensures FindMonth(b + [x], month) ==
              if FindMonth(b, month).Some? then FindMonth(b, month)
              else if x.month == month then Some(|b|) else None
  {
    match FindMonth(b, month)
    case Some(k) =>
      FindMonthAt(b + [x], month, k);
    case None =>
      if x.month == month {
        FindMonthAt(b + [x], month, |b|);
      } else {
        assert forall j :: 0 <= j < |b + [x]| ==> (b + [x])[j].month != month;
      }
  }

  /** Changing the sales of entries never moves a month. */
  lemma FindMonthSameMonths(b: seq<Bucket>, r: seq<Bucket>, month: string)
    requires |r| == |b| && forall i :: 0 <= i < |b| ==> r[i].month == b[i].month
    ensures FindMonth(r, month) == FindMonth(b, month)
  {
    match FindMonth(b, month)
    case None =>
    case Some(k) =>
      FindMonthAt(r, month, k);
  }

  /** Adding a sale gives its month an entry and leaves the other months' entries in place. */
  lemma AddSaleKeys(b: seq<Bucket>, month: string, amount: int, m: string)
    ensures FindMonth(AddSale(b, month, amount), m).Some? <==> FindMonth(b, m).Some? || m == month
  {
    match FindMonth(b, month)
    case None =>
      assert AddSale(b, month, amount) == b + [Bucket(month, amount)];
      FindMonthAppend(b, Bucket(month, amount), m);
    case Some(k) =>
      FindMonthSameMonths(b, AddSale(b, month, amount), m);
  }

  /** Adding a sale keeps one entry per month. */
  lemma AddSaleUnique(b: seq<Bucket>, month: string, amount: int)
    requires UniqueMonths(b)
    ensures UniqueMonths(AddSale(b, month, amount))
  {
  }

  /** Adding a sale credits its own month with the amount and no other month. */
  lemma AddSaleSales(b: seq<Bucket>, month: string, amount: int, m: string)
    requires UniqueMonths(b)
    ensures MonthSales(AddSale(b, month, amount), m) == MonthSales(b, m) + (if m == month then amount else 0)
  {
    var r := AddSale(b, month, amount);
    match FindMonth(b, month)
    case None =>
      assert r == b + [Bucket(month, amount)];
      FindMonthAppend(b, Bucket(month, amount), m);
    case Some(k) =>
      FindMonthSameMonths(b, r, m);
  }

  /** Adding a sale grows the grand total by the amount. */
  lemma AddSaleSum(b: seq<Bucket>, month: string, amount: int)
    ensures Sum(AddSale(b, month, amount), BucketSales) == Sum(b, BucketSales) + amount
  {
    match FindMonth(b, month)
    case None =>
      var x := Bucket(month, amount);
      assert AddSale(b, month, amount) == b + [x];
      assert (b + [x])[..|b|] == b;
    case Some(k) =>
      SumUpdate(b, k, Bucket(month, b[k].sales + amount), BucketSales);
  }

  /** The monthly figures: the `forEach` over the completed orders, in fetch order. There is at
      most one entry per order, and at least one as soon as there is an order. */
  function MonthlySales(completed: seq<Order>): (r: seq<Bucket>)
    ensures |r| <= |completed|
    ensures |completed| > 0 ==> |r| >= 1
  {
    if |completed| == 0 then []
    else
      var n := |completed| - 1;
      AddSale(MonthlySales(completed[..n]), completed[n].createdMonth, completed[n].total)
  }

  /** Reference definition: the total of the orders created in a month. */
  function MonthTotal(s: seq<Order>, month: string): int {
    if |s| == 0 then 0
    else MonthTotal(s[..|s| - 1], month) + (if s[|s| - 1].createdMonth == month then s[|s| - 1].total else 0)
  }

  /** The monthly figures hold one entry per month. */
  lemma {:induction false} MonthlySalesUnique(s: seq<Order>)
    ensures UniqueMonths(MonthlySales(s))
  {
    if |s| > 0 {
      var n := |s| - 1;
      MonthlySalesUnique(s[..n]);
      AddSaleUnique(MonthlySales(s[..n]), s[n].createdMonth, s[n].total);
    }
  }

  /** Each month's figure is that month's total. */
  lemma {:induction false} MonthlySalesMonth(s: seq<Order>, m: string)
    ensures MonthSales(MonthlySales(s), m) == MonthTotal(s, m)
  {
    if |s| > 0 {
      var n := |s| - 1;
      MonthlySalesMonth(s[..n], m);
      MonthlySalesUnique(s[..n]);
      AddSaleSales(MonthlySales(s[..n]), s[n].createdMonth, s[n].total, m);
    }
  }

  /** The monthly figures hold one entry per month, each equal to that month's total. */
  lemma MonthlySalesPerMonth(s: seq<Order>)
    ensures UniqueMonths(MonthlySales(s))
    ensures forall m :: MonthSales(MonthlySales(s), m) == MonthTotal(s, m)
  {
    MonthlySalesUnique(s);
    forall m
      ensures MonthSales(MonthlySales(s), m) == MonthTotal(s, m)
    {
      MonthlySalesMonth(s, m);
    }
  }

  /** A month has an entry exactly when some order was created in it. */
  lemma {:induction false} MonthlySalesKeys(s: seq<Order>, m: string)
    ensures FindMonth(MonthlySales(s), m).Some? <==> exists i :: 0 <= i < |s| && s[i].createdMonth == m
  {
    if |s| > 0 {
      var n := |s| - 1;
      var prev := s[..n];
      MonthlySalesKeys(prev, m);
      AddSaleKeys(MonthlySales(prev), s[n].createdMonth, s[n].total, m);
      if exists i :: 0 <= i < |s| && s[i].createdMonth == m {
        var i :| 0 <= i < |s| && s[i].createdMonth == m;
        if i < n {
          assert prev[i].createdMonth == m;
        }
      }
      if exists i :: 0 <= i < n && prev[i].createdMonth == m {
        var i :| 0 <= i < n && prev[i].createdMonth == m;
        assert s[i].createdMonth == m;
      }
    }
  }

  /** Together the monthly figures add up to the total of all the orders. */
  lemma {:induction false} MonthlySalesSum(s: seq<Order>)
    ensures Sum(MonthlySales(s), BucketSales) == Sum(s, OrderTotal)
  {
    if |s| > 0 {
      var n := |s| - 1;
      MonthlySalesSum(s[..n]);
      AddSaleSum(MonthlySales(s[..n]), s[n].createdMonth, s[n].total);
    }
  }

  /** The figures the dashboard shows. */
  datatype Metrics = Metrics(totalSales: int, completedOrders: nat, cancelledOrders: nat, monthlySales: seq<Bucket>)

  /** The metrics computed from the fetched orders. */
  function ComputeMetrics(orders: seq<Order>): (r: Metrics)
    ensures r.completedOrders == Sum(orders, Masked(CompletedOrder, One))
    ensures r.cancelledOrders == Sum(orders, Masked(CancelledOrder, One))
    ensures r.completedOrders + r.cancelledOrders <= |orders|
    ensures r.totalSales == Sum(orders, Masked(CompletedOrder, OrderTotal))
    ensures UniqueMonths(r.monthlySales)
    ensures Sum(r.monthlySales, BucketSales) == r.totalSales
    ensures forall m :: MonthSales(r.monthlySales, m) == MonthTotal(Filter(orders, CompletedOrder), m)
  {
    var completed := Filter(orders, CompletedOrder);
    var cancelled := Filter(orders, CancelledOrder);
    FilterDisjointCount(orders, CompletedOrder, CancelledOrder);
    FilterCount(orders, CompletedOrder);
    FilterCount(orders, CancelledOrder);
    SumFilter(orders, CompletedOrder, OrderTotal);
    MonthlySalesPerMonth(completed);
    MonthlySalesSum(completed);
    Metrics(Sum(completed, OrderTotal), |completed|, |cancelled|, MonthlySales(completed))
  }

  /** Only completed orders count as sales: a pending, preparing, ready, cancelled or unknown
      order adds nothing to the total or to any month. */
  lemma SalesIgnoreUnfinished(orders: seq<Order>, o: Order)
    requires o.status != "completed"
    ensures ComputeMetrics(orders + [o]).totalSales == ComputeMetrics(orders).totalSales
    ensures ComputeMetrics(orders + [o]).monthlySales == ComputeMetrics(orders).monthlySales
  {
    FilterAppend(orders, [o], CompletedOrder);
    assert [o][1..] == [];
    assert Filter(orders + [o], CompletedOrder) == Filter(orders, CompletedOrder);
  }

  // ---------------------------------------------------------------------------------------
  // Dishes

  /** The payload of `handleToggleDishActive`: the opposite of the dish's flag. */
  function ToggleActivePayload(d: Catalog.Dish): (active: bool)
    ensures active != d.active
  {
    !d.active
  }

  /** The dish once a toggle is stored. */
  function ToggleActive(d: Catalog.Dish): Catalog.Dish {
    d.(active := ToggleActivePayload(d))
  }

  /** Two toggles give the dish back unchanged; one toggle changes nothing but the flag. */
  lemma ToggleTwiceRestores(d: Catalog.Dish)
    ensures ToggleActive(ToggleActive(d)) == d
    ensures ToggleActive(d) != d && ToggleActive(d).(active := d.active) == d
  {
  }

  /** The fields of the new-dish form, as entered text. */
  datatype DishDraft = DishDraft(name: string, description: string, price: string, category: string, imageUrl: string)

  /** The empty draft with the first category preselected. */
  const DefaultDraft := DishDraft("", "", "", "biryani", "")

  /** The form: the dish being edited, if any, the new-dish draft, and whether it is shown. */
  datatype DishForm = DishForm(editing: Option<Catalog.Dish>, draft: DishDraft, visible: bool)

  /** `resetForm`. */
  function ResetForm(f: DishForm): (r: DishForm)
    ensures r.editing.None? && !r.visible
    ensures r.draft.name == "" && r.draft.description == "" && r.draft.price == "" && r.draft.imageUrl == ""
    ensures r.draft.category == Catalog.DishCategories[0]
  {
    DishForm(None, DefaultDraft, false)
  }

  /** `handleEditDish`. */
  function EditDish(f: DishForm, d: Catalog.Dish): (r: DishForm)
    ensures r.editing == Some(d) && r.visible && r.draft == f.draft
  {
    f.(editing := Some(d), visible := true)
  }

  /** The "Add New Dish" button: reset, then flip the visibility the button saw when clicked. */
  function AddNewDishClick(f: DishForm): (r: DishForm)
    ensures r.editing.None? && r.draft == DefaultDraft
    ensures r.visible == !f.visible
  {
    ResetForm(f).(visible := !f.visible)
  }

  /** The form after `handleSubmit` succeeds: an edit drops the edited dish and keeps the draft,
      a creation clears the draft; either way the form closes. */
  function AfterSubmit(f: DishForm): (r: DishForm)
    ensures r.editing.None? && !r.visible
    ensures f.editing.Some? ==> r.draft == f.draft
    ensures f.editing.None? ==> r.draft == DefaultDraft
  {
    if f.editing.Some? then f.(editing := None, visible := false)
    else f.(draft := DefaultDraft, visible := false)
  }

  /** Resetting is idempotent, it forgets any dish being edited, and after creating a dish the
      form is exactly the reset form. */
  lemma ResetFormFacts(f: DishForm, d: Catalog.Dish)
    ensures ResetForm(ResetForm(f)) == ResetForm(f)
    ensures ResetForm(EditDish(f, d)) == ResetForm(f)
    ensures f.editing.None? ==> AfterSubmit(f) == ResetForm(f)
    ensures f.editing.Some? ==> AfterSubmit(f).draft == f.draft && !AfterSubmit(f).visible
  {
  }

  /** The button opens a hidden form on a fresh draft and closes an open one. */
  lemma AddNewDishToggles(f: DishForm)
    ensures !f.visible ==> AddNewDishClick(f) == DishForm(None, DefaultDraft, true)
    ensures f.visible ==> AddNewDishClick(f) == ResetForm(f)
    ensures AddNewDishClick(AddNewDishClick(f)).visible == f.visible
  {
  }
}

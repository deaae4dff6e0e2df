/** Orders as both order lists see them (src/pages/Orders.tsx and the staff dashboard in
    src/pages/Staff.tsx). The status is the raw string stored with the order; the five known
    statuses are an enumeration, and a string outside it belongs to neither list. */
module OrderBook {
  import opened Wrappers
  import opened Seqs

  datatype Status = Pending | Preparing | Ready | Completed | Cancelled

  /** The string stored for each status. */
  function Name(s: Status): string {
    match s
    case Pending => "pending"
    case Preparing => "preparing"
    case Ready => "ready"
    case Completed => "completed"
    case Cancelled => "cancelled"
  }

  /** The status a stored string denotes, if it is one of the five. */
  function Parse(raw: string): (r: Option<Status>)
    ensures r.Some? ==> Name(r.value) == raw
    ensures r.None? <==> forall s: Status :: Name(s) != raw
  {
    if raw == "pending" then Some(Pending)
    else if raw == "preparing" then Some(Preparing)
    else if raw == "ready" then Some(Ready)
    else if raw == "completed" then Some(Completed)
    else if raw == "cancelled" then Some(Cancelled)
    else None
  }

  /** Distinct statuses are stored as distinct strings, and parsing reads a status back. */
  lemma ParseName(s: Status)
    ensures Parse(Name(s)) == Some(s)
    ensures forall t: Status :: Name(t) == Name(s) ==> t == s
  {
  }

  /** One order row: its id, stored status, total in cents and the month key its creation date
      formats to (`format(created_at, 'MMM yyyy')`, kept abstract). */
  datatype Order = Order(id: string, status: string, total: int, createdMonth: string)

  /** `['pending', 'preparing', 'ready'].includes(status)` */
  predicate IsInProgress(raw: string) {
    raw in ["pending", "preparing", "ready"]
  }

  /** `['completed', 'cancelled'].includes(status)` */
  predicate IsFinished(raw: string) {
    raw in ["completed", "cancelled"]
  }

  /** The two lists split the known statuses between them: an in-progress status is a pending,
      preparing or ready one, a finished status a completed or cancelled one, no string is both,
      and a string is in one of them exactly when it is a known status. */
  lemma ListsSplitStatuses(raw: string)
    ensures IsInProgress(raw) <==> Parse(raw) in {Some(Pending), Some(Preparing), Some(Ready)}
    ensures IsFinished(raw) <==> Parse(raw) in {Some(Completed), Some(Cancelled)}
    ensures !(IsInProgress(raw) && IsFinished(raw))
    ensures IsInProgress(raw) || IsFinished(raw) <==> Parse(raw).Some?
  {
  }

  function InProgressOrder(o: Order): bool {
    IsInProgress(o.status)
  }

  function FinishedOrder(o: Order): bool {
    IsFinished(o.status)
  }

  function KnownOrder(o: Order): bool {
    Parse(o.status).Some?
  }

  /** The in-progress list: every pending, preparing or ready order, in fetch order. */
  function InProgress(orders: seq<Order>): (r: seq<Order>)
    ensures forall i :: 0 <= i < |r| ==> r[i] in orders && IsInProgress(r[i].status)
    ensures forall i :: 0 <= i < |orders| && IsInProgress(orders[i].status) ==> orders[i] in r
    ensures IsSubseq(r, orders)
    ensures |r| == Sum(orders, Masked(InProgressOrder, One))
  {
    FilterIsSubseq(orders, InProgressOrder);
    FilterMembers(orders, InProgressOrder);
    FilterCount(orders, InProgressOrder);
    Filter(orders, InProgressOrder)
  }

  /** The finished list: every completed or cancelled order, in fetch order. */
  function Finished(orders: seq<Order>): (r: seq<Order>)
    ensures forall i :: 0 <= i < |r| ==> r[i] in orders && IsFinished(r[i].status)
    ensures forall i :: 0 <= i < |orders| && IsFinished(orders[i].status) ==> orders[i] in r
    ensures IsSubseq(r, orders)
    ensures |r| == Sum(orders, Masked(FinishedOrder, One))
  {
    FilterIsSubseq(orders, FinishedOrder);
    FilterMembers(orders, FinishedOrder);
    FilterCount(orders, FinishedOrder);
    Filter(orders, FinishedOrder)
  }

  /** No order is in both lists. */
  lemma ListsDisjoint(orders: seq<Order>)
    ensures forall i, j :: 0 <= i < |InProgress(orders)| && 0 <= j < |Finished(orders)| ==>
              InProgress(orders)[i] != Finished(orders)[j]
  {
    var active, done := InProgress(orders), Finished(orders);
    forall i, j | 0 <= i < |active| && 0 <= j < |done|
      ensures active[i] != done[j]
    {
      ListsSplitStatuses(active[i].status);
    }
  }

  /** Between them the two lists hold exactly as many orders as have one of the five known
      statuses: an order with any other status is shown in neither. */
  lemma PartitionCount(orders: seq<Order>)
    ensures |InProgress(orders)| + |Finished(orders)| == |Filter(orders, KnownOrder)|
  {
    var either := (o: Order) => InProgressOrder(o) || FinishedOrder(o);
    forall i | 0 <= i < |orders|
      ensures !(InProgressOrder(orders[i]) && FinishedOrder(orders[i]))
      ensures either(orders[i]) == KnownOrder(orders[i])
    {
      ListsSplitStatuses(orders[i].status);
    }
    FilterDisjointCount(orders, InProgressOrder, FinishedOrder);
    FilterExt(orders, either, KnownOrder);
  }
}

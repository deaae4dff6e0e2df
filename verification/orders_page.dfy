/** The customer's order history page (src/pages/Orders.tsx): the upcoming and past tabs, the
    status badge text and the action button of an upcoming order. */
module OrdersPage {
  import opened Wrappers
  import opened Seqs
  import opened OrderBook

  /** `upcomingOrders`: the pending, preparing and ready orders, in list order. */
  function UpcomingOrders(orders: seq<Order>): (r: seq<Order>)
    ensures forall i :: 0 <= i < |r| ==> r[i] in orders && Parse(r[i].status) in {Some(Pending), Some(Preparing), Some(Ready)}
    ensures forall i :: 0 <= i < |orders| && Parse(orders[i].status) in {Some(Pending), Some(Preparing), Some(Ready)} ==> orders[i] in r
    ensures IsSubseq(r, orders)
    ensures |r| == Sum(orders, Masked(InProgressOrder, One))
  {
    var r := InProgress(orders);
    forall i | 0 <= i < |r| ensures Parse(r[i].status) in {Some(Pending), Some(Preparing), Some(Ready)} {
      ListsSplitStatuses(r[i].status);
    }
    forall i | 0 <= i < |orders| ensures Parse(orders[i].status) in {Some(Pending), Some(Preparing), Some(Ready)} ==> IsInProgress(orders[i].status) {
      ListsSplitStatuses(orders[i].status);
    }
    r
  }

  /** `pastOrders`: the completed and cancelled orders, in list order. */
  function PastOrders(orders: seq<Order>): (r: seq<Order>)
    ensures forall i :: 0 <= i < |r| ==> r[i] in orders && Parse(r[i].status) in {Some(Completed), Some(Cancelled)}
    ensures forall i :: 0 <= i < |orders| && Parse(orders[i].status) in {Some(Completed), Some(Cancelled)} ==> orders[i] in r
    ensures IsSubseq(r, orders)
    ensures |r| == Sum(orders, Masked(FinishedOrder, One))
  {
    var r := Finished(orders);
    forall i | 0 <= i < |r| ensures Parse(r[i].status) in {Some(Completed), Some(Cancelled)} {
      ListsSplitStatuses(r[i].status);
    }
    forall i | 0 <= i < |orders| ensures Parse(orders[i].status) in {Some(Completed), Some(Cancelled)} ==> IsFinished(orders[i].status) {
      ListsSplitStatuses(orders[i].status);
    }
    r
  }

  /** The tabs never show an order twice, and they show every order with a known status: the
      two counts add up to the number of such orders. */
  lemma TabsPartitionKnownOrders(orders: seq<Order>)
    ensures forall i, j :: 0 <= i < |UpcomingOrders(orders)| && 0 <= j < |PastOrders(orders)| ==>
              UpcomingOrders(orders)[i] != PastOrders(orders)[j]
    ensures |UpcomingOrders(orders)| + |PastOrders(orders)| == |Filter(orders, KnownOrder)|
  {
    ListsDisjoint(orders);
    PartitionCount(orders);
  }

  /** The badge text of each known status in `orderStatusLabels`. */
  function Label(s: Status): string {
    match s
    case Pending => "Pending"
    case Preparing => "Preparing"
    case Ready => "Ready for Pickup"
    case Completed => "Completed"
    case Cancelled => "Cancelled"
  }

  /** `orderStatusLabels[order.status]?.label || 'Processing'`. An order with an unknown status is
      in neither tab, so the page never displays the fallback. */
  function StatusLabel(raw: string): (r: string)
    ensures r == "Processing" <==> Parse(raw).None?
    ensures Parse(raw).Some? ==> r == Label(Parse(raw).value)
  {
    match Parse(raw)
    case None => "Processing"
    case Some(s) => Label(s)
  }

  /** Different statuses get different badges, and every known status has its own badge,
      distinct from the fallback. */
  lemma StatusLabelsDistinct(s: Status, t: Status)
    ensures StatusLabel(Name(s)) == Label(s)
    ensures s != t ==> StatusLabel(Name(s)) != StatusLabel(Name(t))
  {
    ParseName(s);
    ParseName(t);
  }

  /** The second button of an upcoming order. */
  function ActionLabel(raw: string): (r: string)
    ensures r == "View QR Code" <==> raw == "ready"
    ensures r != "View QR Code" ==> r == "Track Order"
  {
    if raw == "ready" then "View QR Code" else "Track Order"
  }

  /** The action button reads "View QR Code" exactly on the orders whose badge says they are ready
      for pickup. */
  lemma QrCodeWhenReadyForPickup(raw: string)
    ensures ActionLabel(raw) == "View QR Code" <==> StatusLabel(raw) == "Ready for Pickup"
  {
    if StatusLabel(raw) == "Ready for Pickup" {
      assert Parse(raw) == Some(Ready);
    }
  }
}

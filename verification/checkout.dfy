/** The two-step checkout form (src/pages/Checkout.tsx): the guard of the details step and the
    rows that placing an order writes, one `orders` row and one `order_items` row per cart line.

    The backend assigns the order id and the QR code is random; both arrive here as parameters. */
module Checkout {
  import opened Wrappers
  import opened Seqs
  import CartStore
  import PickupSlots

  const SelectTimeMessage := "Please select a pickup time"
  const NameAndPhoneMessage := "Please enter your name and phone number"

  /** The form step after submitting the details, and the error toast shown, if any. */
  datatype DetailsOutcome = DetailsOutcome(step: int, toast: Option<string>)

  /** `handleSubmitDetails`: a missing time is reported before a missing name or phone; only a
      form with all three filled in moves on to the review step. */
  function SubmitDetails(step: int, selectedTime: string, name: string, phone: string): (r: DetailsOutcome)
    ensures r.toast.None? <==> selectedTime != "" && name != "" && phone != ""
    ensures r.toast.None? ==> r.step == 2
    ensures r.toast.Some? ==> r.step == step
    ensures selectedTime == "" ==> r.toast == Some(SelectTimeMessage)
    ensures selectedTime != "" && (name == "" || phone == "") ==> r.toast == Some(NameAndPhoneMessage)
  {
    if selectedTime == "" then DetailsOutcome(step, Some(SelectTimeMessage))
    else if name == "" || phone == "" then DetailsOutcome(step, Some(NameAndPhoneMessage))
    else DetailsOutcome(2, None)
  }

  /** From the details step the form reaches the review step exactly when a time is chosen and
      both name and phone are given; otherwise it stays where it was. */
  lemma DetailsStepGate(selectedTime: string, name: string, phone: string)
    ensures SubmitDetails(1, selectedTime, name, phone).step == 2 <==>
              selectedTime != "" && name != "" && phone != ""
    ensures SubmitDetails(1, selectedTime, name, phone).step in {1, 2}
  {
  }

  /** The signed-in account, when there is one. */
  datatype User = User(id: string)

  /** `user?.id || null`: a guest, and an account whose id is the empty string, both give null. */
  function UserIdOrNull(user: Option<User>): (r: Option<string>)
    ensures r.Some? <==> user.Some? && user.value.id != ""
    ensures r.Some? ==> r.value == user.value.id
  {
    match user
    case None => None
    case Some(u) => if u.id == "" then None else Some(u.id)
  }

  /** The `orders` row. `pickupMinute` is the pickup moment in minutes after today's midnight. */
  datatype OrderInsert = OrderInsert(
    userId: Option<string>,
    total: int,
    status: string,
    pickupMinute: int,
    notes: string,
    qrCode: string)

  /** One `order_items` row. */
  datatype OrderItemInsert = OrderItemInsert(orderId: string, dishId: string, quantity: int, price: int)

  /** The `items.map(...)` of `handlePlaceOrder`: one row per cart line, in cart order. */
  function OrderItems(orderId: string, items: CartStore.Cart): (r: seq<OrderItemInsert>)
    ensures |r| == |items|
    ensures forall i :: 0 <= i < |r| ==>
              r[i].orderId == orderId && r[i].dishId == items[i].id &&
              r[i].quantity == items[i].quantity && r[i].price == items[i].price
  {
    seq(|items|, i requires 0 <= i < |items| =>
      OrderItemInsert(orderId, items[i].id, items[i].quantity, items[i].price))
  }

  function ItemLineTotal(it: OrderItemInsert): int {
    it.price * it.quantity
  }

  /** The order rows of a prefix of the cart are the prefix of the order rows. */
  lemma OrderItemsPrefix(orderId: string, items: CartStore.Cart, n: nat)
    requires n <= |items|
    ensures OrderItems(orderId, items)[..n] == OrderItems(orderId, items[..n])
  {
  }

  /** The item rows carry the whole order total: their price-times-quantity sum is the cart's
      total price. */
  lemma {:induction false} OrderItemsTotal(orderId: string, items: CartStore.Cart)
    ensures Sum(OrderItems(orderId, items), ItemLineTotal) == CartStore.TotalPrice(items)
    decreases |items|
  {
    if |items| > 0 {
      var n := |items| - 1;
      OrderItemsPrefix(orderId, items, n);
      OrderItemsTotal(orderId, items[..n]);
      assert ItemLineTotal(OrderItems(orderId, items)[n]) == CartStore.LineTotal(items[n]);
    }
  }

  /** The rows written by a successful `handlePlaceOrder`. */
  datatype Placement = Placement(order: OrderInsert, items: seq<OrderItemInsert>)

  /** `handlePlaceOrder` up to the inserts: None when the chosen time does not parse, where the
      source builds an invalid date and reports an error instead of inserting anything. After
      both inserts succeed the source also empties the shared cart (`CartStore.ClearCart`) and
      moves to the orders page; those two steps are not part of this function. */
  function PlaceOrder(cart: CartStore.Cart, user: Option<User>, selectedTime: string, notes: string,
                      qrCode: string, orderId: string): (r: Option<Placement>)
    ensures r.None? <==> PickupSlots.PickupMinute(selectedTime).None?
    ensures r.Some? ==> r.value.order.status == "pending"
    ensures r.Some? ==> r.value.order.total == CartStore.TotalPrice(cart)
    ensures r.Some? ==> r.value.order.userId == UserIdOrNull(user)
    ensures r.Some? ==> r.value.order.pickupMinute == PickupSlots.PickupMinute(selectedTime).value
    ensures r.Some? ==> r.value.order.notes == notes && r.value.order.qrCode == qrCode
    ensures r.Some? ==> r.value.items == OrderItems(orderId, cart)
  {
    match PickupSlots.PickupMinute(selectedTime)
    case None => None
    case Some(pickup) =>
      Some(Placement(
        OrderInsert(UserIdOrNull(user), CartStore.TotalPrice(cart), "pending", pickup, notes, qrCode),
        OrderItems(orderId, cart)))
  }

  /** Choosing any offered slot places the order for exactly that slot, with an order total equal
      to what its item rows add up to, and with no account attached for a guest. */
  lemma PlaceOrderForSlot(cart: CartStore.Cart, user: Option<User>, m: int, notes: string,
                          qrCode: string, orderId: string)
    requires 0 <= m < PickupSlots.MinutesPerDay
    ensures var r := PlaceOrder(cart, user, PickupSlots.SlotValue(m), notes, qrCode, orderId);
            r.Some? && r.value.order.pickupMinute == m &&
            Sum(r.value.items, ItemLineTotal) == r.value.order.total &&
            |r.value.items| == |cart| &&
            (user.None? ==> r.value.order.userId.None?)
  {
    PickupSlots.SlotValueRoundTrip(m);
    OrderItemsTotal(orderId, cart);
  }
}

/** The shared shopping cart (src/hooks/useCart.tsx): an ordered list of lines keyed by dish id,
    with add, remove, update-quantity and clear, and the two totals derived from it.
    Prices are integer cents; quantities are integers. */
module CartStore {
  import opened Wrappers
  import opened Seqs
  import opened Catalog

  datatype CartItem = CartItem(id: string, name: string, price: int, quantity: int, imageUrl: Option<string>)

  type Cart = seq<CartItem>

  /** No two lines share a dish id. */
  ghost predicate UniqueIds(c: Cart) {
    forall i, j :: 0 <= i < j < |c| ==> c[i].id != c[j].id
  }

  /** Every line holds at least one of its dish. */
  ghost predicate PositiveQuantities(c: Cart) {
    forall i :: 0 <= i < |c| ==> c[i].quantity >= 1
  }

  /** The invariant every operation of the store keeps. */
  ghost predicate Valid(c: Cart) {
    UniqueIds(c) && PositiveQuantities(c)
  }

  /** `items.find(i => i.id === id)`, as the position of the first line with that id. */
  function Find(c: Cart, id: string): (r: Option<nat>)
    ensures r.Some? ==> r.value < |c| && c[r.value].id == id
    ensures r.Some? ==> forall j :: 0 <= j < r.value ==> c[j].id != id
    ensures r.None? <==> forall j :: 0 <= j < |c| ==> c[j].id != id
  {
    if |c| == 0 then None
    else if c[0].id == id then Some(0)
    else match Find(c[1..], id)
      case None => None
      case Some(k) => Some(k + 1)
  }

  /** `items.map(i => i.id === id ? { ...i, quantity: f(i.quantity) } : i)`. */
  function WithQuantity(c: Cart, id: string, f: int -> int): (r: Cart)
    ensures |r| == |c|
    ensures forall i :: 0 <= i < |c| && c[i].id == id ==> r[i] == c[i].(quantity := f(c[i].quantity))
    ensures forall i :: 0 <= i < |c| && c[i].id != id ==> r[i] == c[i]
  {
    if |c| == 0 then []
    else [if c[0].id == id then c[0].(quantity := f(c[0].quantity)) else c[0]] + WithQuantity(c[1..], id, f)
  }

  /** The line a dish gets when it first enters the cart. */
  function NewLine(d: Dish): CartItem {
    CartItem(d.id, d.name, d.price, 1, d.imageUrl)
  }

  /** `addToCart`: one more of a dish already in the cart, or a new line with quantity 1 at the end. */
  function AddToCart(c: Cart, d: Dish): (r: Cart)
    ensures (forall j :: 0 <= j < |c| ==> c[j].id != d.id) ==>
              |r| == |c| + 1 && r[..|c|] == c && r[|c|] == CartItem(d.id, d.name, d.price, 1, d.imageUrl)
    ensures (exists j :: 0 <= j < |c| && c[j].id == d.id) ==> |r| == |c|
    ensures (exists j :: 0 <= j < |c| && c[j].id == d.id) ==>
              forall i :: 0 <= i < |c| && c[i].id == d.id ==> r[i] == c[i].(quantity := c[i].quantity + 1)
    ensures (exists j :: 0 <= j < |c| && c[j].id == d.id) ==>
              forall i :: 0 <= i < |c| && c[i].id != d.id ==> r[i] == c[i]
  {
    if Find(c, d.id).Some? then WithQuantity(c, d.id, q => q + 1) else c + [NewLine(d)]
  }

  /** The filter predicate of `removeFromCart`: keep lines of other dishes. */
  function KeepOthers(id: string): CartItem -> bool {
    (it: CartItem) => it.id != id
  }

  /** `removeFromCart`: drop the lines with that id, keep the rest in order. */
  function RemoveFromCart(c: Cart, id: string): (r: Cart)
    ensures forall i :: 0 <= i < |r| ==> r[i].id != id && r[i] in c
    ensures forall i :: 0 <= i < |c| && c[i].id != id ==> c[i] in r
    ensures IsSubseq(r, c)
    ensures |r| == Sum(c, Masked(KeepOthers(id), One))
  {
    FilterIsSubseq(c, KeepOthers(id));
    FilterMembers(c, KeepOthers(id));
    FilterCount(c, KeepOthers(id));
    Filter(c, KeepOthers(id))
  }

  /** `updateQuantity`: below one the line is removed, otherwise its quantity is set. */
  function UpdateQuantity(c: Cart, id: string, q: int): (r: Cart)
    ensures q < 1 ==> r == RemoveFromCart(c, id)
    ensures q >= 1 ==> |r| == |c|
    ensures q >= 1 ==> forall i :: 0 <= i < |c| && c[i].id == id ==> r[i] == c[i].(quantity := q)
    ensures q >= 1 ==> forall i :: 0 <= i < |c| && c[i].id != id ==> r[i] == c[i]
  {
    if q < 1 then RemoveFromCart(c, id) else WithQuantity(c, id, _ => q)
  }

  /** `clearCart`. */
  function ClearCart(c: Cart): (r: Cart)
    ensures TotalItems(r) == 0 && TotalPrice(r) == 0
    ensures forall d: Dish :: AddToCart(r, d) == [NewLine(d)]
  {
    []
  }

  function Quantity(it: CartItem): int {
    it.quantity
  }

  function LineTotal(it: CartItem): int {
    it.price * it.quantity
  }

  /** `totalItems`: the sum of the quantities. The empty cart holds no items, a one-line cart
      holds that line's quantity, and a cart whose lines hold at least one item each holds at
      least one item per line. */
  function TotalItems(c: Cart): (r: int)
    ensures |c| == 0 ==> r == 0
    ensures |c| == 1 ==> r == c[0].quantity
    ensures PositiveQuantities(c) ==> r >= |c|
  {
    SumSingleton(c, Quantity);
    if forall i :: 0 <= i < |c| ==> c[i].quantity >= 1 then
      SumAtLeastLength(c, Quantity);
      Sum(c, Quantity)
    else
      Sum(c, Quantity)
  }

  /** `totalPrice`: the sum of price times quantity. The empty cart costs nothing, a one-line
      cart costs that line's price times its quantity, and with no negative prices or quantities
      the total is not negative. */
  function TotalPrice(c: Cart): (r: int)
    ensures |c| == 0 ==> r == 0
    ensures |c| == 1 ==> r == c[0].price * c[0].quantity
    ensures (forall i :: 0 <= i < |c| ==> c[i].price >= 0 && c[i].quantity >= 0) ==> r >= 0
  {
    SumSingleton(c, LineTotal);
    if forall i :: 0 <= i < |c| ==> c[i].price >= 0 && c[i].quantity >= 0 then
      SumNonNegative(c, LineTotal);
      Sum(c, LineTotal)
    else
      Sum(c, LineTotal)
  }

  /** In a cart with unique ids, adding an existing dish rewrites exactly its line. */
  lemma AddExistingRewritesOneLine(c: Cart, d: Dish, k: nat)
    requires UniqueIds(c)
    requires k < |c| && c[k].id == d.id
    ensures AddToCart(c, d) == c[k := c[k].(quantity := c[k].quantity + 1)]
  {
    var r := AddToCart(c, d);
    var e := c[k := c[k].(quantity := c[k].quantity + 1)];
    assert |r| == |e|;
    forall i | 0 <= i < |r|
      ensures r[i] == e[i]
    {
      if i != k {
        assert c[i].id != d.id;
      }
    }
  }

  /** Adding a dish raises the item count by exactly one and the price total by the price of the
      line that grew: the stored line's price if the dish was in the cart, its own price if not. */
  lemma AddToCartTotals(c: Cart, d: Dish)
    requires UniqueIds(c)
    ensures TotalItems(AddToCart(c, d)) == TotalItems(c) + 1
    ensures TotalPrice(AddToCart(c, d)) ==
            TotalPrice(c) + (match Find(c, d.id) case Some(k) => c[k].price case None => d.price)
  {
    match Find(c, d.id)
    case None =>
      AddNewTotals(c, d);
    case Some(k) =>
      AddExistingTotals(c, d, k);
  }

  /** A new dish adds one item at its own price. */
  lemma AddNewTotals(c: Cart, d: Dish)
    requires Find(c, d.id).None?
    ensures TotalItems(AddToCart(c, d)) == TotalItems(c) + 1
    ensures TotalPrice(AddToCart(c, d)) == TotalPrice(c) + d.price
  {
    assert AddToCart(c, d) == c + [NewLine(d)];
    assert [NewLine(d)][..0] == [];
    SumAppend(c, [NewLine(d)], Quantity);
    SumAppend(c, [NewLine(d)], LineTotal);
  }

  /** A dish already in the cart adds one item at the price stored on its line. */
  lemma AddExistingTotals(c: Cart, d: Dish, k: nat)
    requires UniqueIds(c)
    requires k < |c| && c[k].id == d.id
    ensures TotalItems(AddToCart(c, d)) == TotalItems(c) + 1
    ensures TotalPrice(AddToCart(c, d)) == TotalPrice(c) + c[k].price
  {
    AddExistingRewritesOneLine(c, d, k);
    var x := c[k].(quantity := c[k].quantity + 1);
    SumUpdate(c, k, x, Quantity);
    SumUpdate(c, k, x, LineTotal);
    OneMoreItem(c[k]);
  }

  /** One more item on a line adds its price to the line total. */
  lemma OneMoreItem(it: CartItem)
    ensures LineTotal(it.(quantity := it.quantity + 1)) == LineTotal(it) + it.price
  {
    assert it.price * (it.quantity + 1) == it.price * it.quantity + it.price;
  }

  /** In a cart with unique ids, removing an id that is present deletes exactly its line. */
  lemma RemoveDeletesOneLine(c: Cart, k: nat)
    requires UniqueIds(c)
    requires k < |c|
    ensures RemoveFromCart(c, c[k].id) == c[..k] + c[k + 1..]
    ensures TotalItems(RemoveFromCart(c, c[k].id)) == TotalItems(c) - c[k].quantity
    ensures TotalPrice(RemoveFromCart(c, c[k].id)) == TotalPrice(c) - c[k].price * c[k].quantity
  {
    FilterDropsOne(c, KeepOthers(c[k].id), k);
    SumDropOne(c, k, Quantity);
    SumDropOne(c, k, LineTotal);
  }

  /** Removing an id that no line carries leaves the cart as it was. */
  lemma RemoveAbsentIsIdentity(c: Cart, id: string)
    requires forall j :: 0 <= j < |c| ==> c[j].id != id
    ensures RemoveFromCart(c, id) == c
  {
    FilterAll(c, KeepOthers(id));
  }

  /** Setting a quantity of one or more changes the totals by that line's difference alone. */
  lemma UpdateQuantityTotals(c: Cart, k: nat, q: int)
    requires UniqueIds(c)
    requires k < |c| && q >= 1
    ensures UpdateQuantity(c, c[k].id, q) == c[k := c[k].(quantity := q)]
    ensures TotalItems(UpdateQuantity(c, c[k].id, q)) == TotalItems(c) - c[k].quantity + q
    ensures TotalPrice(UpdateQuantity(c, c[k].id, q)) == TotalPrice(c) - c[k].price * c[k].quantity + c[k].price * q
  {
    var r := UpdateQuantity(c, c[k].id, q);
    var e := c[k := c[k].(quantity := q)];
    forall i | 0 <= i < |r|
      ensures r[i] == e[i]
    {
      if i != k {
        assert c[i].id != c[k].id;
      }
    }
    assert r == e;
    SumUpdate(c, k, c[k].(quantity := q), Quantity);
    SumUpdate(c, k, c[k].(quantity := q), LineTotal);
  }

  /** For an id that is in no line, setting a quantity, of whatever value, leaves the cart as it
      was. */
  lemma UpdateAbsentIsIdentity(c: Cart, id: string, q: int)
    requires forall j :: 0 <= j < |c| ==> c[j].id != id
    ensures UpdateQuantity(c, id, q) == c
  {
    if q < 1 {
      RemoveAbsentIsIdentity(c, id);
    }
  }

  /** The cart page's "-" button asks for quantity - 1; at quantity 1 that removes the line. */
  lemma MinusAtOneRemovesLine(c: Cart, k: nat)
    requires UniqueIds(c)
    requires k < |c| && c[k].quantity == 1
    ensures UpdateQuantity(c, c[k].id, c[k].quantity - 1) == c[..k] + c[k + 1..]
  {
    RemoveDeletesOneLine(c, k);
  }

  /** In a valid cart every line counts at least once, so the count is zero only for the empty cart. */
  lemma TotalItemsAtLeastLines(c: Cart)
    requires Valid(c)
    ensures TotalItems(c) >= |c|
    ensures TotalItems(c) == 0 <==> |c| == 0
  {
    SumAtLeastLength(c, Quantity);
  }

  /** Filtering a cart with unique ids keeps the ids unique. */
  lemma {:induction false} FilterKeepsUniqueIds(c: Cart, p: CartItem -> bool)
    requires UniqueIds(c)
    ensures UniqueIds(Filter(c, p))
  {
    if |c| > 0 {
      FilterKeepsUniqueIds(c[1..], p);
      FilterMembers(c[1..], p);
      var rest := Filter(c[1..], p);
      forall i | 0 <= i < |rest|
        ensures rest[i].id != c[0].id
      {
        var j :| 0 <= j < |c[1..]| && c[1..][j] == rest[i];
        assert c[j + 1] == rest[i];
      }
    }
  }

  /** The operations the pages offer on the shared cart. */
  datatype CartOp =
    | AddDish(dish: Dish)
    | RemoveLine(id: string)
    | SetLineQuantity(id: string, quantity: int)
    | ClearAll

  function Apply(c: Cart, op: CartOp): Cart {
    match op
    case AddDish(d) => AddToCart(c, d)
    case RemoveLine(id) => RemoveFromCart(c, id)
    case SetLineQuantity(id, q) => UpdateQuantity(c, id, q)
    case ClearAll => ClearCart(c)
  }

  /** The operations applied one after another, first to last. */
  function Run(c: Cart, ops: seq<CartOp>): Cart
    decreases |ops|
  {
    if |ops| == 0 then c else Run(Apply(c, ops[0]), ops[1..])
  }

  /** Each single operation keeps ids unique and quantities positive. */
  lemma ApplyKeepsValid(c: Cart, op: CartOp)
    requires Valid(c)
    ensures Valid(Apply(c, op))
  {
    match op
    case AddDish(d) =>
      var r := AddToCart(c, d);
      if Find(c, d.id).None? {
        assert r == c + [NewLine(d)];
      }
    case RemoveLine(id) =>
      FilterKeepsUniqueIds(c, KeepOthers(id));
    case SetLineQuantity(id, q) =>
      if q < 1 {
        FilterKeepsUniqueIds(c, KeepOthers(id));
      }
    case ClearAll =>
  }

  /** Any sequence of operations keeps the invariant; starting from the empty cart of a fresh
      session, no two lines ever share an id and no line holds fewer than one item. */
  lemma {:induction false} RunKeepsValid(c: Cart, ops: seq<CartOp>)
    requires Valid(c)
    ensures Valid(Run(c, ops))
    decreases |ops|
  {
    if |ops| > 0 {
      ApplyKeepsValid(c, ops[0]);
      RunKeepsValid(Apply(c, ops[0]), ops[1..]);
    }
  }

  /** A worked example: one biryani at 14.99 and two naan at 2.99 make 3 items and 20.97. */
  lemma ExampleTotals()
    ensures var c := [CartItem("biryani", "Chicken Biryani", 1499, 1, None),
                      CartItem("naan", "Naan", 299, 2, None)];
            TotalItems(c) == 3 && TotalPrice(c) == 2097
  {
    var c := [CartItem("biryani", "Chicken Biryani", 1499, 1, None),
              CartItem("naan", "Naan", 299, 2, None)];
    assert c[..1] == [c[0]] && [c[0]][..0] == [];
    assert Sum([c[0]], Quantity) == 1 && Sum([c[0]], LineTotal) == 1499;
    assert Sum(c, Quantity) == Sum([c[0]], Quantity) + 2;
    assert Sum(c, LineTotal) == Sum([c[0]], LineTotal) + 598;
  }
}

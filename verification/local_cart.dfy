/** The slide-out cart panel (src/components/Cart.tsx). It keeps its own list, seeded with one
    sample line, separate from the shared cart store, and its quantity rule differs: asking for
    fewer than one item is ignored instead of removing the line. */
module LocalCart {
  import opened Seqs
  import CartStore

  datatype LocalItem = LocalItem(id: int, name: string, price: int, quantity: int, image: string)

  /** The sample line the panel starts with: one Chicken Biryani at 14.99. */
  const InitialItems: seq<LocalItem> :=
    [LocalItem(1, "Chicken Biryani", 1499, 1,
               "https://images.unsplash.com/photo-1631452180539-96aca7d48617?q=80&w=1974&auto=format&fit=crop")]

  ghost predicate UniqueIds(xs: seq<LocalItem>) {
    forall i, j :: 0 <= i < j < |xs| ==> xs[i].id != xs[j].id
  }

  /** `updateQuantity`: ignored below one, otherwise every line with the id gets the new quantity. */
  function UpdateQuantity(xs: seq<LocalItem>, id: int, q: int): (r: seq<LocalItem>)
    ensures q < 1 ==> r == xs
    ensures |r| == |xs|
    ensures q >= 1 ==> forall i :: 0 <= i < |xs| && xs[i].id == id ==> r[i] == xs[i].(quantity := q)
    ensures forall i :: 0 <= i < |xs| && xs[i].id != id ==> r[i] == xs[i]
  {
    if q < 1 then xs
    else if |xs| == 0 then []
    else [if xs[0].id == id then xs[0].(quantity := q) else xs[0]] + UpdateQuantity(xs[1..], id, q)
  }

  /** The filter predicate of `removeItem`. */
  function KeepOthers(id: int): LocalItem -> bool {
    (it: LocalItem) => it.id != id
  }

  /** `removeItem`: drop every line with the id, keep the others in order. */
  function RemoveItem(xs: seq<LocalItem>, id: int): (r: seq<LocalItem>)
    ensures forall i :: 0 <= i < |r| ==> r[i].id != id && r[i] in xs
    ensures forall i :: 0 <= i < |xs| && xs[i].id != id ==> xs[i] in r
    ensures IsSubseq(r, xs)
    ensures |r| == Sum(xs, Masked(KeepOthers(id), One))
    ensures (forall i :: 0 <= i < |xs| ==> xs[i].id != id) ==> r == xs
  {
    FilterIsSubseq(xs, KeepOthers(id));
    FilterMembers(xs, KeepOthers(id));
    FilterCount(xs, KeepOthers(id));
    if forall i :: 0 <= i < |xs| ==> xs[i].id != id then
      FilterAll(xs, KeepOthers(id));
      Filter(xs, KeepOthers(id))
    else
      Filter(xs, KeepOthers(id))
  }

  function LineTotal(it: LocalItem): int {
    it.price * it.quantity
  }

  /** `subtotal`: the sum of price times quantity. The empty list costs nothing, a one-line list
      costs that line's price times its quantity, and with no negative prices or quantities the
      subtotal is not negative. */
  function Subtotal(xs: seq<LocalItem>): (r: int)
    ensures |xs| == 0 ==> r == 0
    ensures |xs| == 1 ==> r == xs[0].price * xs[0].quantity
    ensures (forall i :: 0 <= i < |xs| ==> xs[i].price >= 0 && xs[i].quantity >= 0) ==> r >= 0
  {
    SumSingleton(xs, LineTotal);
    if forall i :: 0 <= i < |xs| ==> xs[i].price >= 0 && xs[i].quantity >= 0 then
      SumNonNegative(xs, LineTotal);
      Sum(xs, LineTotal)
    else
      Sum(xs, LineTotal)
  }

  /** With unique ids, removing an id that is present deletes exactly its line, and the subtotal
      drops by exactly that line's price times quantity. */
  lemma RemoveItemSubtotal(xs: seq<LocalItem>, k: nat)
    requires UniqueIds(xs)
    requires k < |xs|
    ensures RemoveItem(xs, xs[k].id) == xs[..k] + xs[k + 1..]
    ensures Subtotal(RemoveItem(xs, xs[k].id)) == Subtotal(xs) - xs[k].price * xs[k].quantity
  {
    FilterDropsOne(xs, KeepOthers(xs[k].id), k);
    SumDropOne(xs, k, LineTotal);
  }

  /** Changing one line's quantity moves the subtotal by that line's difference alone. */
  lemma UpdateQuantitySubtotal(xs: seq<LocalItem>, k: nat, q: int)
    requires UniqueIds(xs)
    requires k < |xs| && q >= 1
    ensures UpdateQuantity(xs, xs[k].id, q) == xs[k := xs[k].(quantity := q)]
    ensures Subtotal(UpdateQuantity(xs, xs[k].id, q)) == Subtotal(xs) - xs[k].price * xs[k].quantity + xs[k].price * q
  {
    var r := UpdateQuantity(xs, xs[k].id, q);
    var e := xs[k := xs[k].(quantity := q)];
    forall i | 0 <= i < |r|
      ensures r[i] == e[i]
    {
      if i != k {
        assert xs[i].id != xs[k].id;
      }
    }
    assert r == e;
    SumUpdate(xs, k, xs[k].(quantity := q), LineTotal);
  }

  /** The panel's list and a store cart show the same lines: same names, prices and quantities
      at the same positions. */
  ghost predicate Mirrors(c: CartStore.Cart, xs: seq<LocalItem>) {
    |c| == |xs| &&
    forall i :: 0 <= i < |c| ==> c[i].name == xs[i].name && c[i].price == xs[i].price && c[i].quantity == xs[i].quantity
  }

  /** Mirrored lists have the same money total. */
  lemma {:induction false} MirrorsSameTotal(c: CartStore.Cart, xs: seq<LocalItem>)
    requires Mirrors(c, xs)
    ensures CartStore.TotalPrice(c) == Subtotal(xs)
    decreases |c|
  {
    if |c| > 0 {
      var n := |c| - 1;
      assert Mirrors(c[..n], xs[..n]);
      MirrorsSameTotal(c[..n], xs[..n]);
      assert CartStore.LineTotal(c[n]) == LineTotal(xs[n]);
    }
  }

  /** Setting the same quantity on the same line of two mirrored lists keeps them mirrored. */
  lemma MirrorsUnderPointUpdate(c: CartStore.Cart, xs: seq<LocalItem>, k: nat, q: int)
    requires Mirrors(c, xs)
    requires k < |c|
    ensures Mirrors(c[k := c[k].(quantity := q)], xs[k := xs[k].(quantity := q)])
  {
  }

  /** For a quantity of one or more the two carts agree: updating the same line in both keeps
      them showing the same lines, and so the same money total. */
  lemma UpdateAgreesFromOne(c: CartStore.Cart, xs: seq<LocalItem>, k: nat, q: int)
    requires Mirrors(c, xs) && CartStore.UniqueIds(c) && UniqueIds(xs)
    requires k < |c| && q >= 1
    ensures Mirrors(CartStore.UpdateQuantity(c, c[k].id, q), UpdateQuantity(xs, xs[k].id, q))
    ensures CartStore.TotalPrice(CartStore.UpdateQuantity(c, c[k].id, q)) == Subtotal(UpdateQuantity(xs, xs[k].id, q))
  {
    CartStore.UpdateQuantityTotals(c, k, q);
    UpdateQuantitySubtotal(xs, k, q);
    MirrorsUnderPointUpdate(c, xs, k, q);
    MirrorsSameTotal(CartStore.UpdateQuantity(c, c[k].id, q), UpdateQuantity(xs, xs[k].id, q));
  }

  /** The "-" button at quantity 1 is where the two carts part ways: the store loses the line and
      its money, the panel keeps its list and subtotal exactly as they were. */
  lemma MinusAtOneDiverges(c: CartStore.Cart, xs: seq<LocalItem>, k: nat)
    requires Mirrors(c, xs) && CartStore.UniqueIds(c)
    requires k < |c| && c[k].quantity == 1
    ensures |CartStore.UpdateQuantity(c, c[k].id, c[k].quantity - 1)| == |c| - 1
    ensures CartStore.TotalPrice(CartStore.UpdateQuantity(c, c[k].id, c[k].quantity - 1)) == Subtotal(xs) - xs[k].price
    ensures UpdateQuantity(xs, xs[k].id, xs[k].quantity - 1) == xs
  {
    var id := c[k].id;
    assert c[k].quantity - 1 == 0;
    var r := CartStore.UpdateQuantity(c, id, 0);
    assert r == CartStore.RemoveFromCart(c, id);
    CartStore.RemoveDeletesOneLine(c, k);
    assert c[k].price * c[k].quantity == c[k].price;
    MirrorsSameTotal(c, xs);
    assert c[k].price == xs[k].price;
  }

  /** The panel opens on one line: a subtotal of 14.99, and the "-" button leaves it in place. */
  lemma InitialPanel()
    ensures Subtotal(InitialItems) == 1499
    ensures UpdateQuantity(InitialItems, 1, InitialItems[0].quantity - 1) == InitialItems
    ensures UniqueIds(InitialItems)
  {
    assert InitialItems[..0] == [];
  }
}

/**
 The cart store of `src/contexts/cart.ts`: one shared state holding the line
 items and their stored total, replaced as a whole by each of the four
 operations.
 */
module Cart {
  import opened CartItems
  import opened CartProperties

  /** The confirmation toasts `addItem` and `removeItem` raise, by product id. */
  datatype Notice = AddedToCart(id: ItemId) | RemovedFromCart(id: ItemId)

  class CartStore {
    var items: seq<CartItem>
    var total: int
    /** The toasts raised so far, oldest first. */
    ghost var notices: seq<Notice>

    /** The stored total is the sum over the lines, and there is one line per id. */
    ghost predicate Valid()
      reads this
    {
      total == Sum(items) && Unique(items)
    }

    /** The initial state: no items, total 0. */
    constructor ()
      ensures items == [] && total == 0 && notices == []
      ensures Valid()
    {
      items := [];
      total := 0;
      notices := [];
    }

    /** `addItem`: merge into the line with the same id, or append; recompute the
        total; raise a toast. The total moves by the added quantity at the unit
        price of the line it lands on. */
    method AddItem(item: CartItem)
      modifies this
      ensures items == MergeItem(old(items), item)
      ensures total == Sum(items)
      ensures notices == old(notices) + [AddedToCart(item.id)]
      ensures total == Sum(old(items)) +
        (if HasId(old(items), item.id) then PriceOf(old(items), item.id) * item.quantity else LineTotal(item))
      ensures Unique(old(items)) ==> Valid()
    {
      AddTotal(items, item);
      if Unique(items) {
        AddPreservesUnique(items, item);
      }
      items := MergeItem(items, item);
      notices := notices + [AddedToCart(item.id)];
      total := Sum(items);
    }

    /** `removeItem`: drop every line with that id; recompute the total; raise a
        toast even when nothing was removed. */
    method RemoveItem(id: ItemId)
      modifies this
      ensures items == FilterOut(old(items), id)
      ensures total == Sum(items)
      ensures notices == old(notices) + [RemovedFromCart(id)]
      ensures !HasId(old(items), id) ==> items == old(items)
      ensures total == Sum(old(items)) - LinesTotal(old(items), id)
      ensures !HasId(old(items), id) && old(Valid()) ==> total == old(total)
      ensures Unique(old(items)) ==> Valid()
    {
      RemoveTotal(items, id);
      if !HasId(items, id) {
        RemoveAbsent(items, id);
        LinesOfAbsent(items, id);
      }
      if Unique(items) {
        RemovePreservesUnique(items, id);
      }
      items := FilterOut(items, id);
      notices := notices + [RemovedFromCart(id)];
      total := Sum(items);
    }

    /** `updateQuantity`: overwrite the quantity of the line with that id, whatever
        the number; recompute the total; no toast. */
    method UpdateQuantity(id: ItemId, quantity: int)
      modifies this
      ensures items == SetQty(old(items), id, quantity)
      ensures total == Sum(items)
      ensures notices == old(notices)
      ensures !HasId(old(items), id) ==> items == old(items)
      ensures total == Sum(old(items)) - LinesTotal(old(items), id) + PriceOf(old(items), id) * quantity
      ensures Unique(old(items)) ==> Valid()
    {
      ghost var before := items;
      items := SetQty(items, id, quantity);
      total := Sum(items);
      UpdateTotal(before, id, quantity);
      if !HasId(before, id) {
        UpdateAbsent(before, id, quantity);
      }
      if Unique(before) {
        UpdatePreservesUnique(before, id, quantity);
      }
    }

    /** `clearCart`: back to the initial state; no toast. */
    method ClearCart()
      modifies this
      ensures items == [] && total == 0
      ensures notices == old(notices)
      ensures Valid()
    {
      items := [];
      total := 0;
    }
  }

  /** Clearing twice leaves the store as clearing once does. */
  method ClearCartTwice(c: CartStore)
    modifies c
    ensures c.items == [] && c.total == 0 && c.notices == old(c.notices)
  {
    c.ClearCart();
    var once := (c.items, c.total, c.notices);
    c.ClearCart();
    assert (c.items, c.total, c.notices) == once;
  }

  /** Adding `p1` at 10 with quantity 1 and then with quantity 2 leaves one line of
      quantity 3, a total of 30, and two toasts. */
  method MergeOnAdd(title: string, image: string) returns (c: CartStore)
    ensures c.items == [CartItem(Str("p1"), title, 10, image, 3)]
    ensures c.total == 30 && c.Valid()
    ensures c.notices == [AddedToCart(Str("p1")), AddedToCart(Str("p1"))]
  {
    var p1 := CartItem(Str("p1"), title, 10, image, 1);
    assert MergeItem(MergeItem([], p1), p1.(quantity := 2)) == [p1.(quantity := 3)] by {
      AddSameIdTwice([], p1, p1.(quantity := 2));
    }
    assert Sum([p1.(quantity := 3)]) == 30 by {
      SumSingle(p1.(quantity := 3));
    }
    c := new CartStore();
    c.AddItem(p1);
    c.AddItem(p1.(quantity := 2));
  }
}

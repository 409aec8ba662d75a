/**
 The values the cart store of `src/contexts/cart.ts` works on, and the pure
 updates its operations apply to the item sequence: the `find`, `map`,
 `filter` and `reduce` calls inside `addItem`, `removeItem`,
 `updateQuantity` and the total recomputation.
 */
module CartItems {

  datatype Option<+T> = None | Some(value: T)

  /** A product id is `string | number`; `===` never equates a string with a number. */
  datatype ItemId = Str(s: string) | Num(n: int)

  datatype CartItem = CartItem(id: ItemId, title: string, price: int, image: string, quantity: int)

  /** What one line contributes to the total: `i.price * i.quantity`. */
  function LineTotal(i: CartItem): int {
    i.price * i.quantity
  }

  /** The total the store recomputes with `reduce((sum, i) => sum + i.price * i.quantity, 0)`:
      a left fold, so the last line is added last. */
  function Sum(s: seq<CartItem>): int {
    if s == [] then 0 else Sum(s[..|s| - 1]) + LineTotal(s[|s| - 1])
  }

  predicate HasId(s: seq<CartItem>, id: ItemId) {
    exists k :: 0 <= k < |s| && s[k].id == id
  }

  /** At most one line per id. */
  predicate Unique(s: seq<CartItem>) {
    forall j, k :: 0 <= j < k < |s| ==> s[j].id != s[k].id
  }

  /** The ids of the lines, in display order. */
  function Ids(s: seq<CartItem>): seq<ItemId> {
    seq(|s|, k requires 0 <= k < |s| => s[k].id)
  }

  /** `items.find((i) => i.id === id)`: the first line with that id, if any. */
  function Find(s: seq<CartItem>, id: ItemId): (r: Option<CartItem>)
    ensures r.None? <==> !HasId(s, id)
    ensures r.Some? ==> r.value.id == id && r.value in s
  {
    if s == [] then None
    else if s[0].id == id then Some(s[0])
    else
      assert forall k :: 1 <= k < |s| ==> s[k] == s[1..][k - 1];
      Find(s[1..], id)
  }

  /** The `map` of `addItem`: every line with the incoming id gets the incoming
      quantity added to its own; its title, price and image are kept. */
  function MergeQuantity(s: seq<CartItem>, item: CartItem): (r: seq<CartItem>)
    ensures Ids(r) == Ids(s)
  {
    if s == [] then []
    else
      var head := if s[0].id == item.id then s[0].(quantity := s[0].quantity + item.quantity) else s[0];
      var r := [head] + MergeQuantity(s[1..], item);
      assert forall k :: 0 <= k < |s| ==> Ids(r)[k] == Ids(s)[k] by {
        var rest := MergeQuantity(s[1..], item);
        assert |rest| == |Ids(rest)| == |Ids(s[1..])| == |s| - 1;
        assert forall k :: 0 <= k < |rest| ==> rest[k].id == Ids(rest)[k] == Ids(s[1..])[k] == s[1..][k].id;
        assert forall k :: 1 <= k < |s| ==> r[k] == rest[k - 1];
        assert forall k :: 1 <= k < |s| ==> s[k] == s[1..][k - 1];
      }
      r
  }

  /** The new item sequence of `addItem`: merge into an existing line, or append. */
  function MergeItem(s: seq<CartItem>, item: CartItem): (r: seq<CartItem>)
    ensures HasId(r, item.id)
    ensures Ids(r) == if HasId(s, item.id) then Ids(s) else Ids(s) + [item.id]
  {
    if Find(s, item.id).Some? then
      var r := MergeQuantity(s, item);
      assert forall k :: 0 <= k < |s| ==> r[k].id == Ids(r)[k] == Ids(s)[k] == s[k].id;
      r
    else
      var r := s + [item];
      assert r[|s|].id == item.id;
      r
  }

  /** The `filter` of `removeItem`: every line whose id differs from `id`, in order. */
  function FilterOut(s: seq<CartItem>, id: ItemId): (r: seq<CartItem>)
    ensures !HasId(r, id)
    ensures forall x :: x in r <==> x in s && x.id != id
    ensures |r| <= |s|
  {
    if s == [] then []
    else (if s[0].id == id then [] else [s[0]]) + FilterOut(s[1..], id)
  }

  /** The `map` of `updateQuantity`: every line with that id gets quantity `q`. */
  function SetQty(s: seq<CartItem>, id: ItemId, q: int): (r: seq<CartItem>)
    ensures Ids(r) == Ids(s)
  {
    if s == [] then []
    else
      var r := [if s[0].id == id then s[0].(quantity := q) else s[0]] + SetQty(s[1..], id, q);
      assert forall k :: 0 <= k < |s| ==> Ids(r)[k] == Ids(s)[k] by {
        var rest := SetQty(s[1..], id, q);
        assert |rest| == |Ids(rest)| == |Ids(s[1..])| == |s| - 1;
        assert forall k :: 0 <= k < |rest| ==> rest[k].id == Ids(rest)[k] == Ids(s[1..])[k] == s[1..][k].id;
        assert forall k :: 1 <= k < |s| ==> r[k] == rest[k - 1];
        assert forall k :: 1 <= k < |s| ==> s[k] == s[1..][k - 1];
      }
      r
  }
}

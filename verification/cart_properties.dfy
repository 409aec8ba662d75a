/**
 What the item-sequence updates of `src/contexts/cart.ts` guarantee: the
 recomputed total, one line per id, order, and that each operation touches
 only the line whose id it names.
 */
module CartProperties {
  import opened CartItems

  // ---------------------------------------------------------------------
  // The total
  // ---------------------------------------------------------------------

  lemma {:induction false} SumAppend(s: seq<CartItem>, t: seq<CartItem>)
    ensures Sum(s + t) == Sum(s) + Sum(t)
  {
    if t == [] {
      assert s + t == s;
    } else {
      var t' := t[..|t| - 1];
      assert (s + t)[..|s + t| - 1] == s + t';
      assert (s + t)[|s + t| - 1] == t[|t| - 1];
      SumAppend(s, t');
    }
  }

  lemma SumSingle(x: CartItem)
    ensures Sum([x]) == LineTotal(x)
  {
    assert [x][..0] == [];
  }

  lemma SumCons(x: CartItem, t: seq<CartItem>)
    ensures Sum([x] + t) == LineTotal(x) + Sum(t)
  {
    SumAppend([x], t);
    SumSingle(x);
  }

  /** The unit prices of the lines carrying `id`, added up. */
  function PriceOf(s: seq<CartItem>, id: ItemId): int {
    if s == [] then 0 else (if s[0].id == id then s[0].price else 0) + PriceOf(s[1..], id)
  }

  /** What the lines carrying `id` contribute to the total. */
  function LinesTotal(s: seq<CartItem>, id: ItemId): int {
    if s == [] then 0 else (if s[0].id == id then LineTotal(s[0]) else 0) + LinesTotal(s[1..], id)
  }

  /** In a cart with one line per id, those sums are the one line's price and total. */
  lemma {:induction false} LinesOfUnique(s: seq<CartItem>, k: nat)
    requires Unique(s) && k < |s|
    ensures PriceOf(s, s[k].id) == s[k].price
    ensures LinesTotal(s, s[k].id) == LineTotal(s[k])
  {
    UniqueCons(s[0], s[1..]);
    assert [s[0]] + s[1..] == s;
    if k == 0 {
      LinesOfAbsent(s[1..], s[0].id);
    } else {
      assert s[1..][k - 1] == s[k];
      LinesOfUnique(s[1..], k - 1);
    }
  }

  lemma {:induction false} LinesOfAbsent(s: seq<CartItem>, id: ItemId)
    requires !HasId(s, id)
    ensures PriceOf(s, id) == 0 && LinesTotal(s, id) == 0
  {
    if s != [] {
      assert forall k :: 0 <= k < |s[1..]| ==> s[1..][k] == s[k + 1];
      LinesOfAbsent(s[1..], id);
    }
  }

  // ---------------------------------------------------------------------
  // Uniqueness of ids
  // ---------------------------------------------------------------------

  lemma UniqueCons(x: CartItem, t: seq<CartItem>)
    ensures Unique([x] + t) <==> Unique(t) && !HasId(t, x.id)
  {
    var s := [x] + t;
    if Unique(s) {
      forall j, k | 0 <= j < k < |t| ensures t[j].id != t[k].id {
        assert t[j] == s[j + 1] && t[k] == s[k + 1];
      }
      forall k | 0 <= k < |t| ensures t[k].id != x.id {
        assert t[k] == s[k + 1] && x == s[0];
      }
    }
    if Unique(t) && !HasId(t, x.id) {
      forall j, k | 0 <= j < k < |s| ensures s[j].id != s[k].id {
        if j == 0 {
          assert s[j] == x && s[k] == t[k - 1];
        } else {
          assert s[j] == t[j - 1] && s[k] == t[k - 1];
        }
      }
    }
  }

  /** Uniqueness depends on the ids alone, in order. */
  lemma UniqueOfIds(s: seq<CartItem>, t: seq<CartItem>)
    requires Ids(s) == Ids(t)
    ensures Unique(s) <==> Unique(t)
  {
    assert |s| == |Ids(s)| == |Ids(t)| == |t|;
    assert forall k :: 0 <= k < |s| ==> s[k].id == Ids(s)[k] == Ids(t)[k] == t[k].id;
  }

  lemma FindCons(x: CartItem, t: seq<CartItem>, id: ItemId)
    ensures Find([x] + t, id) == if x.id == id then Some(x) else Find(t, id)
  {
    assert ([x] + t)[0] == x && ([x] + t)[1..] == t;
  }

  lemma {:induction false} FindUnique(s: seq<CartItem>, k: nat)
    requires Unique(s) && k < |s|
    ensures Find(s, s[k].id) == Some(s[k])
  {
    if k > 0 {
      UniqueCons(s[0], s[1..]);
      assert [s[0]] + s[1..] == s;
      assert s[1..][k - 1] == s[k];
      FindUnique(s[1..], k - 1);
    }
  }

  // ---------------------------------------------------------------------
  // addItem
  // ---------------------------------------------------------------------

  lemma {:induction false} MergeQuantityAbsent(s: seq<CartItem>, item: CartItem)
    requires !HasId(s, item.id)
    ensures MergeQuantity(s, item) == s
  {
    if s != [] {
      assert forall k :: 0 <= k < |s[1..]| ==> s[1..][k] == s[k + 1];
      MergeQuantityAbsent(s[1..], item);
      assert [s[0]] + s[1..] == s;
    }
  }

  lemma {:induction false} MergeQuantityAt(s: seq<CartItem>, item: CartItem, k: nat)
    requires Unique(s) && k < |s| && s[k].id == item.id
    ensures MergeQuantity(s, item) == s[k := s[k].(quantity := s[k].quantity + item.quantity)]
  {
    UniqueCons(s[0], s[1..]);
    assert [s[0]] + s[1..] == s;
    if k == 0 {
      MergeQuantityAbsent(s[1..], item);
    } else {
      assert s[1..][k - 1] == s[k];
      MergeQuantityAt(s[1..], item, k - 1);
      assert s[k := s[k].(quantity := s[k].quantity + item.quantity)]
          == [s[0]] + s[1..][k - 1 := s[k].(quantity := s[k].quantity + item.quantity)];
    }
  }

  /** The merge of `addItem`, line by line: every line carrying the incoming id gets
      the incoming quantity added, keeping its own title, price and image; every
      other line is kept as it was. */
  lemma {:induction false} MergeEach(s: seq<CartItem>, item: CartItem)
    ensures |MergeQuantity(s, item)| == |s|
    ensures forall k :: 0 <= k < |s| ==>
      MergeQuantity(s, item)[k] ==
        if s[k].id == item.id then s[k].(quantity := s[k].quantity + item.quantity) else s[k]
  {
    if s != [] {
      var head := if s[0].id == item.id then s[0].(quantity := s[0].quantity + item.quantity) else s[0];
      var rest := MergeQuantity(s[1..], item);
      assert MergeQuantity(s, item) == [head] + rest;
      MergeEach(s[1..], item);
      assert forall k :: 1 <= k < |s| ==> s[k] == s[1..][k - 1];
    }
  }

  /** `addItem` with a new id appends the item: every earlier line stays where it was. */
  lemma AddNewAppends(s: seq<CartItem>, item: CartItem)
    requires !HasId(s, item.id)
    ensures |MergeItem(s, item)| == |s| + 1
    ensures MergeItem(s, item)[..|s|] == s && MergeItem(s, item)[|s|] == item
    ensures Unique(s) ==> Unique(MergeItem(s, item))
  {
    var r := MergeItem(s, item);
    assert r == s + [item];
    assert r[..|s|] == s;
    if Unique(s) {
      forall j, k | 0 <= j < k < |r| ensures r[j].id != r[k].id {
        if k == |s| {
          assert r[j] == s[j];
        } else {
          assert r[j] == s[j] && r[k] == s[k];
        }
      }
    }
  }

  /** `addItem` with an id already present adds the quantities on that line, keeps
      the line's own title, price and image, and leaves every other line alone. */
  lemma AddExistingMerges(s: seq<CartItem>, item: CartItem, k: nat)
    requires Unique(s) && k < |s| && s[k].id == item.id
    ensures MergeItem(s, item) == s[k := s[k].(quantity := s[k].quantity + item.quantity)]
  {
    FindUnique(s, k);
    MergeQuantityAt(s, item, k);
  }

  lemma AddPreservesUnique(s: seq<CartItem>, item: CartItem)
    requires Unique(s)
    ensures Unique(MergeItem(s, item))
  {
    if HasId(s, item.id) {
      UniqueOfIds(s, MergeItem(s, item));
    } else {
      AddNewAppends(s, item);
    }
  }

  /** Adding the same new id twice leaves one line holding both quantities. */
  lemma AddSameIdTwice(s: seq<CartItem>, a: CartItem, b: CartItem)
    requires Unique(s) && !HasId(s, a.id) && b.id == a.id
    ensures MergeItem(MergeItem(s, a), b) == s + [a.(quantity := a.quantity + b.quantity)]
  {
    AddNewAppends(s, a);
    var s1 := MergeItem(s, a);
    assert s1 == s + [a];
    AddExistingMerges(s1, b, |s|);
  }

  lemma {:induction false} FindAppend(s: seq<CartItem>, item: CartItem, x: ItemId)
    ensures Find(s + [item], x) == if Find(s, x).Some? then Find(s, x) else if item.id == x then Some(item) else None
  {
    if s == [] {
      assert s + [item] == [item];
    } else {
      assert (s + [item])[1..] == s[1..] + [item];
      FindAppend(s[1..], item, x);
    }
  }

  /** A looked-up line with `n` more units, as the merge of `addItem` leaves it. */
  function Bumped(found: Option<CartItem>, n: int): Option<CartItem> {
    match found
    case Some(e) => Some(e.(quantity := e.quantity + n))
    case None => None
  }

  lemma {:induction false} FindMergeQuantityOther(s: seq<CartItem>, item: CartItem, x: ItemId)
    requires x != item.id
    ensures Find(MergeQuantity(s, item), x) == Find(s, x)
  {
    if s != [] {
      var head := if s[0].id == item.id then s[0].(quantity := s[0].quantity + item.quantity) else s[0];
      var rest := MergeQuantity(s[1..], item);
      assert MergeQuantity(s, item) == [head] + rest;
      FindCons(head, rest, x);
      FindCons(s[0], s[1..], x);
      assert [s[0]] + s[1..] == s;
      FindMergeQuantityOther(s[1..], item, x);
    }
  }

  lemma {:induction false} FindMergeQuantitySame(s: seq<CartItem>, item: CartItem)
    ensures Find(MergeQuantity(s, item), item.id) == Bumped(Find(s, item.id), item.quantity)
  {
    if s != [] {
      var rest := MergeQuantity(s[1..], item);
      if s[0].id == item.id {
        var head := s[0].(quantity := s[0].quantity + item.quantity);
        assert MergeQuantity(s, item) == [head] + rest;
        FindCons(head, rest, item.id);
      } else {
        assert MergeQuantity(s, item) == [s[0]] + rest;
        FindCons(s[0], rest, item.id);
        FindMergeQuantitySame(s[1..], item);
      }
    }
  }

  /** What `addItem` does, seen per id: only the incoming id's line changes, and it
      becomes the existing line with the quantities added, or the item itself. This
      holds whether or not ids were unique beforehand. */
  lemma FindAfterAdd(s: seq<CartItem>, item: CartItem, x: ItemId)
    ensures x != item.id ==> Find(MergeItem(s, item), x) == Find(s, x)
    ensures Find(MergeItem(s, item), item.id) ==
      if HasId(s, item.id) then Bumped(Find(s, item.id), item.quantity) else Some(item)
  {
    if Find(s, item.id).Some? {
      if x != item.id {
        FindMergeQuantityOther(s, item, x);
      }
      FindMergeQuantitySame(s, item);
    } else {
      FindAppend(s, item, x);
      FindAppend(s, item, item.id);
    }
  }

  lemma LineTotalMerged(e: CartItem, n: int)
    ensures LineTotal(e.(quantity := e.quantity + n)) == LineTotal(e) + e.price * n
  {
    assert e.price * (e.quantity + n) == e.price * e.quantity + e.price * n;
  }

  lemma Distribute(a: int, b: int, n: int)
    ensures (a + b) * n == a * n + b * n
  {
  }

  /** One step of `MergeQuantity` and of `Sum` at the front of the sequence. */
  lemma MergeQuantityCons(s: seq<CartItem>, item: CartItem)
    requires s != []
    ensures Sum(MergeQuantity(s, item)) ==
      LineTotal(if s[0].id == item.id then s[0].(quantity := s[0].quantity + item.quantity) else s[0]) +
      Sum(MergeQuantity(s[1..], item))
    ensures Sum(s) == LineTotal(s[0]) + Sum(s[1..])
  {
    var head := if s[0].id == item.id then s[0].(quantity := s[0].quantity + item.quantity) else s[0];
    assert MergeQuantity(s, item) == [head] + MergeQuantity(s[1..], item);
    SumCons(head, MergeQuantity(s[1..], item));
    SumCons(s[0], s[1..]);
    assert [s[0]] + s[1..] == s;
  }

  lemma {:induction false} MergeQuantityTotal(s: seq<CartItem>, item: CartItem)
    ensures Sum(MergeQuantity(s, item)) == Sum(s) + PriceOf(s, item.id) * item.quantity
  {
    if s != [] {
      MergeQuantityCons(s, item);
      MergeQuantityTotal(s[1..], item);
      if s[0].id == item.id {
        LineTotalMerged(s[0], item.quantity);
        Distribute(s[0].price, PriceOf(s[1..], item.id), item.quantity);
      }
    }
  }

  /** The total after `addItem` grows by the incoming quantity at the unit price of
      the line(s) it lands on, or by the new line when the id was absent. */
  lemma AddTotal(s: seq<CartItem>, item: CartItem)
    ensures Sum(MergeItem(s, item)) == Sum(s) +
      (if HasId(s, item.id) then PriceOf(s, item.id) * item.quantity else LineTotal(item))
  {
    if HasId(s, item.id) {
      MergeQuantityTotal(s, item);
    } else {
      assert MergeItem(s, item) == s + [item];
      SumAppend(s, [item]);
      SumSingle(item);
    }
  }

  // ---------------------------------------------------------------------
  // removeItem
  // ---------------------------------------------------------------------

  /** Removing an id that is not in the cart leaves the items as they were. */
  lemma {:induction false} RemoveAbsent(s: seq<CartItem>, id: ItemId)
    requires !HasId(s, id)
    ensures FilterOut(s, id) == s
  {
    if s != [] {
      assert forall k :: 0 <= k < |s[1..]| ==> s[1..][k] == s[k + 1];
      RemoveAbsent(s[1..], id);
      assert [s[0]] + s[1..] == s;
    }
  }

  /** The filter distributes over concatenation: the lines that stay keep their relative order. */
  lemma {:induction false} RemoveKeepsOrder(s: seq<CartItem>, t: seq<CartItem>, id: ItemId)
    ensures FilterOut(s + t, id) == FilterOut(s, id) + FilterOut(t, id)
  {
    if s == [] {
      assert s + t == t;
    } else {
      assert (s + t)[1..] == s[1..] + t;
      RemoveKeepsOrder(s[1..], t, id);
    }
  }

  /** In a cart with one line per id, `removeItem` cuts out exactly that line. */
  lemma {:induction false} RemoveAt(s: seq<CartItem>, id: ItemId, k: nat)
    requires Unique(s) && k < |s| && s[k].id == id
    ensures FilterOut(s, id) == s[..k] + s[k + 1..]
  {
    var t := s[1..];
    assert Unique(t) && !HasId(t, s[0].id) by {
      assert [s[0]] + t == s;
      UniqueCons(s[0], t);
    }
    if k == 0 {
      RemoveAbsent(t, id);
      assert FilterOut(s, id) == t;
    } else {
      assert t[k - 1] == s[k];
      RemoveAt(t, id, k - 1);
      assert FilterOut(s, id) == [s[0]] + (t[..k - 1] + t[k..]);
      DropInTail(s, k);
    }
  }

  lemma DropInTail(s: seq<CartItem>, k: nat)
    requires 0 < k < |s|
    ensures [s[0]] + (s[1..][..k - 1] + s[1..][k..]) == s[..k] + s[k + 1..]
  {
  }

  lemma RemoveIdempotent(s: seq<CartItem>, id: ItemId)
    ensures FilterOut(FilterOut(s, id), id) == FilterOut(s, id)
  {
    RemoveAbsent(FilterOut(s, id), id);
  }

  lemma {:induction false} RemovePreservesUnique(s: seq<CartItem>, id: ItemId)
    requires Unique(s)
    ensures Unique(FilterOut(s, id))
  {
    if s != [] {
      UniqueCons(s[0], s[1..]);
      assert [s[0]] + s[1..] == s;
      RemovePreservesUnique(s[1..], id);
      var rest := FilterOut(s[1..], id);
      if s[0].id != id {
        assert !HasId(rest, s[0].id) by {
          forall k | 0 <= k < |rest| ensures rest[k].id != s[0].id {
            assert rest[k] in rest;
            var j :| 0 <= j < |s[1..]| && s[1..][j] == rest[k];
          }
        }
        UniqueCons(s[0], rest);
      }
    }
  }

  /** What `removeItem` does, seen per id: that id is gone, every other id is untouched. */
  lemma {:induction false} FindAfterRemove(s: seq<CartItem>, id: ItemId, x: ItemId)
    ensures Find(FilterOut(s, id), x) == if x == id then None else Find(s, x)
  {
    if s != [] {
      FindAfterRemove(s[1..], id, x);
      FindCons(s[0], s[1..], x);
      assert [s[0]] + s[1..] == s;
      if s[0].id != id {
        FindCons(s[0], FilterOut(s[1..], id), x);
      } else {
        assert [] + FilterOut(s[1..], id) == FilterOut(s[1..], id);
      }
    }
  }

  /** The total after `removeItem` drops by what the removed lines contributed:
      nothing when the id is absent. */
  lemma {:induction false} RemoveTotal(s: seq<CartItem>, id: ItemId)
    ensures Sum(FilterOut(s, id)) == Sum(s) - LinesTotal(s, id)
  {
    if s != [] {
      var rest := FilterOut(s[1..], id);
      SumCons(s[0], s[1..]);
      assert [s[0]] + s[1..] == s;
      RemoveTotal(s[1..], id);
      if s[0].id != id {
        SumCons(s[0], rest);
      } else {
        assert FilterOut(s, id) == rest;
      }
    }
  }

  // ---------------------------------------------------------------------
  // updateQuantity
  // ---------------------------------------------------------------------

  /** Updating an id that is not in the cart leaves the items as they were. */
  lemma {:induction false} UpdateAbsent(s: seq<CartItem>, id: ItemId, q: int)
    requires !HasId(s, id)
    ensures SetQty(s, id, q) == s
  {
    if s != [] {
      assert forall k :: 0 <= k < |s[1..]| ==> s[1..][k] == s[k + 1];
      UpdateAbsent(s[1..], id, q);
      assert [s[0]] + s[1..] == s;
    }
  }

  /** The `map` of `updateQuantity`, line by line: every line carrying `id` gets
      quantity `q` and keeps its other fields; every other line is kept as it was. */
  lemma {:induction false} UpdateEach(s: seq<CartItem>, id: ItemId, q: int)
    ensures |SetQty(s, id, q)| == |s|
    ensures forall k :: 0 <= k < |s| ==>
      SetQty(s, id, q)[k] == if s[k].id == id then s[k].(quantity := q) else s[k]
  {
    if s != [] {
      var head := if s[0].id == id then s[0].(quantity := q) else s[0];
      var rest := SetQty(s[1..], id, q);
      assert SetQty(s, id, q) == [head] + rest;
      UpdateEach(s[1..], id, q);
      assert forall k :: 1 <= k < |s| ==> s[k] == s[1..][k - 1];
    }
  }

  /** In a cart with one line per id, `updateQuantity` rewrites that line's quantity
      and nothing else: length, order, ids and every other line are kept. */
  lemma {:induction false} UpdateAt(s: seq<CartItem>, id: ItemId, q: int, k: nat)
    requires Unique(s) && k < |s| && s[k].id == id
    ensures SetQty(s, id, q) == s[k := s[k].(quantity := q)]
  {
    UniqueCons(s[0], s[1..]);
    assert [s[0]] + s[1..] == s;
    if k == 0 {
      UpdateAbsent(s[1..], id, q);
    } else {
      assert s[1..][k - 1] == s[k];
      UpdateAt(s[1..], id, q, k - 1);
      assert s[k := s[k].(quantity := q)] == [s[0]] + s[1..][k - 1 := s[k].(quantity := q)];
    }
  }

  lemma UpdatePreservesUnique(s: seq<CartItem>, id: ItemId, q: int)
    requires Unique(s)
    ensures Unique(SetQty(s, id, q))
  {
    UniqueOfIds(s, SetQty(s, id, q));
  }

  /** A later `updateQuantity` of the same id overrides an earlier one. */
  lemma {:induction false} UpdateLastWins(s: seq<CartItem>, id: ItemId, q1: int, q2: int)
    ensures SetQty(SetQty(s, id, q1), id, q2) == SetQty(s, id, q2)
  {
    if s != [] {
      var r := SetQty(s, id, q1);
      assert r[1..] == SetQty(s[1..], id, q1);
      UpdateLastWins(s[1..], id, q1, q2);
    }
  }

  /** What `updateQuantity` does, seen per id: that id's line gets the new quantity
      with its other fields kept, every other id is untouched. */
  lemma {:induction false} FindAfterUpdate(s: seq<CartItem>, id: ItemId, q: int, x: ItemId)
    ensures Find(SetQty(s, id, q), x) ==
      if x != id then Find(s, x)
      else match Find(s, x)
        case Some(e) => Some(e.(quantity := q))
        case None => None
  {
    if s != [] {
      var head := if s[0].id == id then s[0].(quantity := q) else s[0];
      assert SetQty(s, id, q) == [head] + SetQty(s[1..], id, q);
      FindCons(head, SetQty(s[1..], id, q), x);
      FindCons(s[0], s[1..], x);
      assert [s[0]] + s[1..] == s;
      FindAfterUpdate(s[1..], id, q, x);
    }
  }

  /** One step of `SetQty` and of `Sum` at the front of the sequence. */
  lemma SetQtyCons(s: seq<CartItem>, id: ItemId, q: int)
    requires s != []
    ensures Sum(SetQty(s, id, q)) ==
      LineTotal(if s[0].id == id then s[0].(quantity := q) else s[0]) + Sum(SetQty(s[1..], id, q))
    ensures Sum(s) == LineTotal(s[0]) + Sum(s[1..])
  {
    var head := if s[0].id == id then s[0].(quantity := q) else s[0];
    assert SetQty(s, id, q) == [head] + SetQty(s[1..], id, q);
    SumCons(head, SetQty(s[1..], id, q));
    SumCons(s[0], s[1..]);
    assert [s[0]] + s[1..] == s;
  }

  /** The total after `updateQuantity` trades what the matching lines contributed
      for the new quantity at their unit prices. */
  lemma {:induction false} UpdateTotal(s: seq<CartItem>, id: ItemId, q: int)
    ensures Sum(SetQty(s, id, q)) == Sum(s) - LinesTotal(s, id) + PriceOf(s, id) * q
  {
    if s != [] {
      SetQtyCons(s, id, q);
      UpdateTotal(s[1..], id, q);
      if s[0].id == id {
        Distribute(s[0].price, PriceOf(s[1..], id), q);
      }
    }
  }

  // ---------------------------------------------------------------------
  // The totals in a cart with one line per id
  // ---------------------------------------------------------------------

  /** Adding to the line at `k` raises the total by its unit price times the added quantity. */
  lemma AddTotalAt(s: seq<CartItem>, item: CartItem, k: nat)
    requires Unique(s) && k < |s| && s[k].id == item.id
    ensures Sum(MergeItem(s, item)) == Sum(s) + s[k].price * item.quantity
  {
    AddTotal(s, item);
    LinesOfUnique(s, k);
  }

  /** Removing the line at `k` lowers the total by that line's price times quantity. */
  lemma RemoveTotalAt(s: seq<CartItem>, k: nat)
    requires Unique(s) && k < |s|
    ensures Sum(FilterOut(s, s[k].id)) == Sum(s) - s[k].price * s[k].quantity
  {
    RemoveTotal(s, s[k].id);
    LinesOfUnique(s, k);
  }

  /** Setting the quantity of the line at `k` to `q` moves the total by its unit
      price times the change in quantity. */
  lemma UpdateTotalAt(s: seq<CartItem>, k: nat, q: int)
    requires Unique(s) && k < |s|
    ensures Sum(SetQty(s, s[k].id, q)) == Sum(s) + s[k].price * (q - s[k].quantity)
  {
    UpdateTotal(s, s[k].id, q);
    LinesOfUnique(s, k);
    assert s[k].price * (q - s[k].quantity) == s[k].price * q - s[k].price * s[k].quantity;
  }

  // ---------------------------------------------------------------------
  // Worked cases
  // ---------------------------------------------------------------------

  /** From lines 1 (5 x 2) and 2 (3 x 1), total 13, removing id 1 leaves line 2 and total 3. */
  lemma RemoveExample(x1: CartItem, x2: CartItem)
    requires x1.id == Num(1) && x1.price == 5 && x1.quantity == 2
    requires x2.id == Num(2) && x2.price == 3 && x2.quantity == 1
    ensures Sum([x1, x2]) == 13
    ensures FilterOut([x1, x2], Num(1)) == [x2] && Sum([x2]) == 3
  {
    assert [x1, x2] == [x1] + [x2];
    SumAppend([x1], [x2]);
    SumSingle(x1);
    SumSingle(x2);
    assert [x1, x2][1..] == [x2] && [x2][1..] == [];
  }

  /** Ids match strictly: the string "1" does not select the line whose id is the number 1. */
  lemma StrictIdExample(x: CartItem, q: int)
    requires x.id == Num(1)
    ensures FilterOut([x], Str("1")) == [x]
    ensures SetQty([x], Str("1"), q) == [x]
  {
    assert [x][1..] == [];
  }
}

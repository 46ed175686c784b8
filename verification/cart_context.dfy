/**
 * The shopping cart of src/context/CartContext.tsx: a list of cart items and
 * at most one applied discount code. Each update of the source is a pure
 * `find`/`map`/`filter`/spread over the previous list; those are the
 * functions below, and class `Cart` holds the state that `setItems` and
 * `setDiscountCode` replace.
 */
module CartContext {
  import opened Wrappers
  import opened Types
  import Seqs

  /** Quantity bounds enforced by addItem and updateQuantity. */
  const MinQuantity: int := 1
  const MaxQuantity: int := 10

  function Min(a: int, b: int): int { if a <= b then a else b }

  // ---------------------------------------------------------------------------
  // Invariants of the item list

  /** Some entry carries this product id. */
  ghost predicate Contains(items: seq<CartItem>, productId: string) {
    exists k :: 0 <= k < |items| && items[k].productId == productId
  }

  /** No two entries share a product id. */
  ghost predicate UniqueIds(items: seq<CartItem>) {
    forall i, j :: 0 <= i < j < |items| ==> items[i].productId != items[j].productId
  }

  /** Every quantity lies in 1..10. */
  ghost predicate QuantitiesInRange(items: seq<CartItem>) {
    forall k :: 0 <= k < |items| ==> MinQuantity <= items[k].quantity <= MaxQuantity
  }

  /** Index `k` holds the first entry with this product id. */
  ghost predicate FirstWith(items: seq<CartItem>, productId: string, k: int) {
    && 0 <= k < |items| && items[k].productId == productId
    && forall j :: 0 <= j < k ==> items[j].productId != productId
  }

  ghost predicate ValidItems(items: seq<CartItem>) {
    UniqueIds(items) && QuantitiesInRange(items)
  }

  // ---------------------------------------------------------------------------
  // The pure update bodies

  /** `prev.find((i) => i.product_id === productId)`: the first entry with that id, if any. */
  function Find(items: seq<CartItem>, productId: string): (r: Option<CartItem>)
    ensures r.Some? <==> Contains(items, productId)
    ensures r.Some? ==> r.value in items && r.value.productId == productId
    ensures r.Some? ==> exists k :: FirstWith(items, productId, k) && items[k] == r.value
  {
    if items == [] then None
    else if items[0].productId == productId then Some(items[0])
    else
      var r := Find(items[1..], productId);
      assert Contains(items, productId) ==> items[0].productId == productId || Contains(items[1..], productId) by {
        if Contains(items, productId) {
          var k :| 0 <= k < |items| && items[k].productId == productId;
          if k > 0 { assert items[1..][k - 1].productId == productId; }
        }
      }
      assert r.Some? ==> exists k :: FirstWith(items, productId, k) && items[k] == r.value by {
        if r.Some? {
          var k :| FirstWith(items[1..], productId, k) && items[1..][k] == r.value;
          forall j | 0 <= j < k + 1 ensures items[j].productId != productId {
            if j > 0 { assert items[j] == items[1..][j - 1]; }
          }
          assert FirstWith(items, productId, k + 1);
        }
      }
      r
  }

  /**
   * `prev.map((i) => i.product_id === productId ? { ...i, quantity: f(i.quantity) } : i)`:
   * every entry with the id gets quantity `f(quantity)`; all other entries stay.
   */
  function SetQuantities(items: seq<CartItem>, productId: string, f: int -> int): (r: seq<CartItem>)
    ensures |r| == |items|
    ensures forall k :: 0 <= k < |items| ==>
      r[k] == if items[k].productId == productId then items[k].(quantity := f(items[k].quantity)) else items[k]
  {
    if items == [] then []
    else
      var head := if items[0].productId == productId then items[0].(quantity := f(items[0].quantity)) else items[0];
      [head] + SetQuantities(items[1..], productId, f)
  }

  /** addItem: merge by product id, capping the quantity at 10, or append with quantity 1. */
  function AddTo(items: seq<CartItem>, productId: string, name: string, price: real): (r: seq<CartItem>)
    ensures !Contains(items, productId) ==> r == items + [CartItem(productId, name, price, 1)]
    ensures Contains(items, productId) ==> |r| == |items|
    ensures Contains(items, productId) ==> forall k :: 0 <= k < |items| ==>
      r[k] == if items[k].productId == productId
              then items[k].(quantity := Min(items[k].quantity + 1, MaxQuantity))
              else items[k]
  {
    if Find(items, productId).Some? then SetQuantities(items, productId, q => Min(q + 1, MaxQuantity))
    else items + [CartItem(productId, name, price, 1)]
  }

  /** removeItem: `prev.filter((item) => item.product_id !== productId)`. */
  function RemoveFrom(items: seq<CartItem>, productId: string): (r: seq<CartItem>)
    ensures forall k :: 0 <= k < |r| ==> r[k].productId != productId && r[k] in items
    ensures forall k :: 0 <= k < |items| && items[k].productId != productId ==> items[k] in r
    ensures Seqs.IsSubsequence(r, items)
  {
    Seqs.Filter(items, (i: CartItem) => i.productId != productId)
  }

  /** updateQuantity: ignored outside 1..10, otherwise sets the quantity of the matching entries. */
  function UpdateIn(items: seq<CartItem>, productId: string, quantity: int): (r: seq<CartItem>)
    ensures (quantity < MinQuantity || quantity > MaxQuantity) ==> r == items
    ensures MinQuantity <= quantity <= MaxQuantity ==> |r| == |items|
    ensures MinQuantity <= quantity <= MaxQuantity ==> forall k :: 0 <= k < |items| ==>
      r[k] == if items[k].productId == productId then items[k].(quantity := quantity) else items[k]
  {
    if quantity < MinQuantity || quantity > MaxQuantity then items
    else SetQuantities(items, productId, _ => quantity)
  }

  // ---------------------------------------------------------------------------
  // Derived values

  /** `items.reduce((sum, item) => sum + item.price * item.quantity, 0)`, folded from the left. */
  function SubtotalOf(items: seq<CartItem>): (r: real)
    ensures (forall k :: 0 <= k < |items| ==> items[k].price >= 0.0 && items[k].quantity >= 0) ==> r >= 0.0
  {
    if items == [] then 0.0
    else
      var last := items[|items| - 1];
      assert last.price >= 0.0 && last.quantity >= 0 ==> LineTotal(last) >= 0.0 by {
        if last.price >= 0.0 && last.quantity >= 0 {
          assert last.price * last.quantity as real >= 0.0;
        }
      }
      SubtotalOf(items[..|items| - 1]) + LineTotal(last)
  }

  function LineTotal(item: CartItem): real {
    item.price * item.quantity as real
  }

  /** `items.reduce((sum, item) => sum + item.quantity, 0)`. */
  function ItemCountOf(items: seq<CartItem>): (r: int)
    ensures QuantitiesInRange(items) ==> MinQuantity * |items| <= r <= MaxQuantity * |items|
  {
    if items == [] then 0
    else ItemCountOf(items[..|items| - 1]) + items[|items| - 1].quantity
  }

  /** discountAmount: 0 without a code, a percentage of the subtotal, or the fixed value. */
  function DiscountAmountOf(subtotal: real, discount: Option<DiscountCode>): (r: real)
    ensures 0.0 <= subtotal && discount.Some? && 0.0 <= discount.value.value ==> 0.0 <= r
    ensures discount.Some? && discount.value.kind == Percentage && discount.value.value <= 100.0 && 0.0 <= subtotal
            ==> r <= subtotal
    ensures discount.Some? && discount.value.kind == Fixed ==> r == discount.value.value
  {
    match discount
    case None => 0.0
    case Some(code) =>
      if code.kind == Percentage then
        assert 0.0 <= subtotal && code.value <= 100.0 ==> subtotal * (100.0 - code.value) >= 0.0;
        (subtotal * code.value) / 100.0
      else code.value
  }

  /** `Math.max(subtotal - discountAmount, 0)`. */
  function TotalOf(subtotal: real, discountAmount: real): (r: real)
    ensures r >= 0.0 && r >= subtotal - discountAmount
    ensures r == 0.0 || r == subtotal - discountAmount
  {
    if subtotal - discountAmount >= 0.0 then subtotal - discountAmount else 0.0
  }

  // ---------------------------------------------------------------------------
  // Lemmas: invariants preserved

  lemma AddItemPreservesValid(items: seq<CartItem>, productId: string, name: string, price: real)
    requires ValidItems(items)
    ensures ValidItems(AddTo(items, productId, name, price))
  {
    var r := AddTo(items, productId, name, price);
    if Contains(items, productId) {
      assert forall k :: 0 <= k < |r| ==> r[k].productId == items[k].productId;
      assert QuantitiesInRange(r) by {
        forall k | 0 <= k < |r| ensures MinQuantity <= r[k].quantity <= MaxQuantity {
          assert MinQuantity <= items[k].quantity <= MaxQuantity;
        }
      }
    } else {
      assert r == items + [CartItem(productId, name, price, 1)];
      assert forall k :: 0 <= k < |items| ==> items[k].productId != productId;
    }
  }

  lemma {:induction false} RemovePreservesUniqueIds(items: seq<CartItem>, productId: string)
    requires UniqueIds(items)
    ensures UniqueIds(RemoveFrom(items, productId))
  {
    if items != [] {
      var rest := items[1..];
      assert UniqueIds(rest) by {
        forall i, j | 0 <= i < j < |rest| ensures rest[i].productId != rest[j].productId {
          assert rest[i] == items[i + 1] && rest[j] == items[j + 1];
        }
      }
      RemovePreservesUniqueIds(rest, productId);
      var tail := RemoveFrom(rest, productId);
      if items[0].productId != productId {
        assert RemoveFrom(items, productId) == [items[0]] + tail;
        forall k | 0 <= k < |tail| ensures tail[k].productId != items[0].productId {
          var m :| 0 <= m < |rest| && rest[m] == tail[k];
          assert rest[m] == items[m + 1];
        }
        ConsKeepsUniqueIds(items[0], tail);
      } else {
        assert RemoveFrom(items, productId) == tail;
      }
    }
  }

  /** Putting an entry with a new id in front of a list with unique ids keeps them unique. */
  lemma ConsKeepsUniqueIds(x: CartItem, tail: seq<CartItem>)
    requires UniqueIds(tail)
    requires forall k :: 0 <= k < |tail| ==> tail[k].productId != x.productId
    ensures UniqueIds([x] + tail)
  {
    var r := [x] + tail;
    forall i, j | 0 <= i < j < |r| ensures r[i].productId != r[j].productId {
      assert r[j] == tail[j - 1];
      if i > 0 { assert r[i] == tail[i - 1]; }
    }
  }

  lemma RemoveItemPreservesValid(items: seq<CartItem>, productId: string)
    requires ValidItems(items)
    ensures ValidItems(RemoveFrom(items, productId))
  {
    RemovePreservesUniqueIds(items, productId);
    var r := RemoveFrom(items, productId);
    forall k | 0 <= k < |r| ensures MinQuantity <= r[k].quantity <= MaxQuantity {
      var m :| 0 <= m < |items| && items[m] == r[k];
    }
  }

  lemma UpdateQuantityPreservesValid(items: seq<CartItem>, productId: string, quantity: int)
    requires ValidItems(items)
    ensures ValidItems(UpdateIn(items, productId, quantity))
  {
  }

  // ---------------------------------------------------------------------------
  // Lemmas: derived values

  lemma {:induction false} SubtotalAppend(a: seq<CartItem>, b: seq<CartItem>)
    ensures SubtotalOf(a + b) == SubtotalOf(a) + SubtotalOf(b)
    decreases |b|
  {
    if b == [] {
      assert a + b == a;
    } else {
      var b' := b[..|b| - 1];
      assert (a + b)[..|a + b| - 1] == a + b';
      SubtotalAppend(a, b');
    }
  }

  lemma {:induction false} ItemCountAppend(a: seq<CartItem>, b: seq<CartItem>)
    ensures ItemCountOf(a + b) == ItemCountOf(a) + ItemCountOf(b)
    decreases |b|
  {
    if b == [] {
      assert a + b == a;
    } else {
      var b' := b[..|b| - 1];
      assert (a + b)[..|a + b| - 1] == a + b';
      ItemCountAppend(a, b');
    }
  }

  /** Replacing one entry changes the subtotal and the item count by the difference of that entry. */
  lemma ReplaceOne(items: seq<CartItem>, k: nat, x: CartItem)
    requires k < |items|
    ensures SubtotalOf(items[k := x]) == SubtotalOf(items) - LineTotal(items[k]) + LineTotal(x)
    ensures ItemCountOf(items[k := x]) == ItemCountOf(items) - items[k].quantity + x.quantity
  {
    var pre, post := items[..k], items[k + 1..];
    assert items == pre + [items[k]] + post;
    assert items[k := x] == pre + [x] + post;
    SubtotalAppend(pre + [items[k]], post);
    SubtotalAppend(pre, [items[k]]);
    SubtotalAppend(pre + [x], post);
    SubtotalAppend(pre, [x]);
    ItemCountAppend(pre + [items[k]], post);
    ItemCountAppend(pre, [items[k]]);
    ItemCountAppend(pre + [x], post);
    ItemCountAppend(pre, [x]);
    assert SubtotalOf([items[k]]) == LineTotal(items[k]) by { assert [items[k]][..0] == []; }
    assert SubtotalOf([x]) == LineTotal(x) by { assert [x][..0] == []; }
    assert ItemCountOf([items[k]]) == items[k].quantity by { assert [items[k]][..0] == []; }
    assert ItemCountOf([x]) == x.quantity by { assert [x][..0] == []; }
  }

  /** Adding a new product raises the item count by one and the subtotal by its price. */
  lemma AddNewItemTotals(items: seq<CartItem>, productId: string, name: string, price: real)
    requires !Contains(items, productId)
    ensures ItemCountOf(AddTo(items, productId, name, price)) == ItemCountOf(items) + 1
    ensures SubtotalOf(AddTo(items, productId, name, price)) == SubtotalOf(items) + price
  {
    var r := AddTo(items, productId, name, price);
    assert r[..|r| - 1] == items;
  }

  /** With unique ids, adding a product already at index `k` replaces that one entry. */
  lemma AddExistingIsPointUpdate(items: seq<CartItem>, k: nat, name: string, price: real)
    requires UniqueIds(items) && k < |items|
    ensures AddTo(items, items[k].productId, name, price)
         == items[k := items[k].(quantity := Min(items[k].quantity + 1, MaxQuantity))]
  {
    var productId := items[k].productId;
    var r := AddTo(items, productId, name, price);
    assert Contains(items, productId);
    forall j | 0 <= j < |items| && j != k ensures items[j].productId != productId {
      if j < k {
        assert items[j].productId != items[k].productId;
      } else {
        assert items[k].productId != items[j].productId;
      }
    }
  }

  /** With unique ids, a valid quantity update of the product at index `k` replaces that one entry. */
  lemma UpdateExistingIsPointUpdate(items: seq<CartItem>, k: nat, quantity: int)
    requires UniqueIds(items) && k < |items|
    requires MinQuantity <= quantity <= MaxQuantity
    ensures UpdateIn(items, items[k].productId, quantity) == items[k := items[k].(quantity := quantity)]
  {
    forall j | 0 <= j < |items| && j != k ensures items[j].productId != items[k].productId {
      if j < k {
        assert items[j].productId != items[k].productId;
      } else {
        assert items[k].productId != items[j].productId;
      }
    }
  }

  /**
   * Adding a product already at index `k` raises the item count by one and the
   * subtotal by its price, unless its quantity is already at the cap of 10.
   */
  lemma AddExistingItemTotals(items: seq<CartItem>, k: nat, name: string, price: real)
    requires ValidItems(items) && k < |items|
    ensures var r := AddTo(items, items[k].productId, name, price);
      var grows := items[k].quantity < MaxQuantity;
      && ItemCountOf(r) == ItemCountOf(items) + (if grows then 1 else 0)
      && SubtotalOf(r) == SubtotalOf(items) + (if grows then items[k].price else 0.0)
  {
    var before := items[k];
    var x := before.(quantity := Min(before.quantity + 1, MaxQuantity));
    var r := AddTo(items, before.productId, name, price);
    AddExistingIsPointUpdate(items, k, name, price);
    assert r == items[k := x];
    ReplaceOne(items, k, x);
    if before.quantity < MaxQuantity {
      LineTotalIncrement(before);
    } else {
      assert x == before;
    }
  }

  lemma LineTotalIncrement(item: CartItem)
    ensures LineTotal(item.(quantity := item.quantity + 1)) == LineTotal(item) + item.price
  {
    assert (item.quantity + 1) as real == item.quantity as real + 1.0;
  }

  /**
   * The total is never negative; without a code it is the subtotal; with a
   * non-negative discount value it is at most the subtotal.
   */
  lemma TotalProperties(items: seq<CartItem>, discount: Option<DiscountCode>)
    requires forall k :: 0 <= k < |items| ==> items[k].price >= 0.0 && items[k].quantity >= 0
    ensures var s := SubtotalOf(items); TotalOf(s, DiscountAmountOf(s, discount)) >= 0.0
    ensures discount.None? ==> TotalOf(SubtotalOf(items), DiscountAmountOf(SubtotalOf(items), discount)) == SubtotalOf(items)
    ensures discount.Some? && discount.value.value >= 0.0 ==>
      TotalOf(SubtotalOf(items), DiscountAmountOf(SubtotalOf(items), discount)) <= SubtotalOf(items)
  {
  }

  // ---------------------------------------------------------------------------
  // The cart state

  class Cart {
    var items: seq<CartItem>
    var discount: Option<DiscountCode>

    /** An empty cart with no code (before anything is restored from storage). */
    constructor ()
      ensures items == [] && discount == None
    {
      items := [];
      discount := None;
    }

    ghost predicate Valid()
      reads this
    {
      ValidItems(items)
    }

    function Subtotal(): (r: real)
      reads this
      ensures (forall k :: 0 <= k < |items| ==> items[k].price >= 0.0) && Valid() ==> r >= 0.0
    {
      SubtotalOf(items)
    }

    function DiscountAmount(): (r: real)
      reads this
      ensures discount.None? ==> r == 0.0
    {
      DiscountAmountOf(Subtotal(), discount)
    }

    function Total(): (r: real)
      reads this
      ensures r >= 0.0
      ensures discount.None? && Subtotal() >= 0.0 ==> r == Subtotal()
    {
      TotalOf(Subtotal(), DiscountAmount())
    }

    function ItemCount(): (r: int)
      reads this
      ensures Valid() ==> |items| <= r <= 10 * |items|
    {
      ItemCountOf(items)
    }

    method AddItem(productId: string, name: string, price: real)
      modifies this
      ensures items == AddTo(old(items), productId, name, price)
      ensures discount == old(discount)
      ensures old(Valid()) ==> Valid()
    {
      if old(Valid()) { AddItemPreservesValid(items, productId, name, price); }
      items := AddTo(items, productId, name, price);
    }

    method RemoveItem(productId: string)
      modifies this
      ensures items == RemoveFrom(old(items), productId)
      ensures discount == old(discount)
      ensures old(Valid()) ==> Valid()
    {
      if old(Valid()) { RemoveItemPreservesValid(items, productId); }
      items := RemoveFrom(items, productId);
    }

    method UpdateQuantity(productId: string, quantity: int)
      modifies this
      ensures items == UpdateIn(old(items), productId, quantity)
      ensures (quantity < MinQuantity || quantity > MaxQuantity) ==> items == old(items)
      ensures discount == old(discount)
      ensures old(Valid()) ==> Valid()
    {
      if quantity < MinQuantity || quantity > MaxQuantity {
        return;
      }
      if old(Valid()) { UpdateQuantityPreservesValid(items, productId, quantity); }
      items := SetQuantities(items, productId, _ => quantity);
    }

    method ApplyDiscount(code: DiscountCode)
      modifies this
      ensures discount == Some(code)
      ensures items == old(items)
    {
      discount := Some(code);
    }

    method RemoveDiscount()
      modifies this
      ensures discount == None
      ensures items == old(items)
    {
      discount := None;
    }

    method ClearCart()
      modifies this
      ensures items == [] && discount == None
      ensures Valid()
    {
      items := [];
      discount := None;
    }
  }
}

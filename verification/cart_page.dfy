/**
 * The cart page of src/pages/CartPage.tsx: the checks a discount code must
 * pass before it is applied (handleApplyDiscount) and the rules that enable
 * the quantity buttons. The backend's discount table is an input; the
 * request either fails or returns the table's rows.
 */
module CartPage {
  import opened Wrappers
  import opened Types
  import opened Text
  import Seqs
  import CartContext

  /** How a press of "Apply" ends, named after the message the page shows. */
  datatype Verdict =
    | Blank                       // blank input: nothing happens
    | InvalidCode                 // no active code with that name (or the query failed)
    | Expired
    | UsageLimitReached
    | BelowMinimum(minimum: real)
    | Accepted(code: DiscountCode)

  /** What `.maybeSingle()` yields for the query. */
  datatype Lookup = Row(code: DiscountCode) | NoRow | QueryError

  /** The rows selected by `code = key AND active = true`, in table order. */
  function MatchingRows(table: seq<DiscountCode>, key: string): (rows: seq<DiscountCode>)
    ensures forall i :: 0 <= i < |rows| ==> rows[i] in table && rows[i].code == key && rows[i].active
    ensures forall i :: 0 <= i < |table| && table[i].code == key && table[i].active ==> table[i] in rows
    ensures forall x :: multiset(rows)[x] == if x.code == key && x.active then multiset(table)[x] else 0
    ensures Seqs.IsSubsequence(rows, table)
  {
    var keep := (c: DiscountCode) => c.code == key && c.active;
    Seqs.FilterMultiplicity(table, keep);
    Seqs.Filter(table, keep)
  }

  /**
   * The lookup. `backend` is None when the request fails. `.maybeSingle()`
   * gives no data for zero rows, the row for one, and an error for several.
   */
  function LookUp(backend: Option<seq<DiscountCode>>, key: string): (r: Lookup)
    ensures backend.None? ==> r == QueryError
    ensures r.Row? ==> backend.Some? && r.code in backend.value && r.code.code == key && r.code.active
    ensures backend.Some? && (forall i :: 0 <= i < |backend.value| ==> !(backend.value[i].code == key && backend.value[i].active))
            ==> r == NoRow
  {
    match backend
    case None => QueryError
    case Some(table) =>
      var rows := MatchingRows(table, key);
      if |rows| == 0 then NoRow
      else if |rows| == 1 then Row(rows[0])
      else QueryError
  }

  /** `code.expires_at && new Date(code.expires_at) < new Date()` */
  function IsExpired(code: DiscountCode, now: int): (r: bool)
    ensures code.expiresAt.None? ==> !r
    ensures r ==> now > code.expiresAt.value
    ensures code.expiresAt == Some(now) ==> !r
  {
    code.expiresAt.Some? && code.expiresAt.value < now
  }

  /** `code.max_uses && code.times_used >= code.max_uses`: a limit of 0 means no limit. */
  function IsUsedUp(code: DiscountCode): (r: bool)
    ensures code.maxUses == None || code.maxUses == Some(0) ==> !r
    ensures code.maxUses.Some? && code.maxUses.value > 0 ==> (r <==> code.timesUsed >= code.maxUses.value)
  {
    code.maxUses.Some? && code.maxUses.value != 0 && code.timesUsed >= code.maxUses.value
  }

  /** `code.minimum_purchase > subtotal` */
  function IsBelowMinimum(code: DiscountCode, subtotal: real): (r: bool)
    ensures subtotal == code.minimumPurchase ==> !r
    ensures code.minimumPurchase <= 0.0 && subtotal >= 0.0 ==> !r
  {
    code.minimumPurchase > subtotal
  }

  /** The checks that follow a successful lookup, in the page's order. */
  function CheckCode(code: DiscountCode, now: int, subtotal: real): (v: Verdict)
    ensures v.Accepted? <==> !IsExpired(code, now) && !IsUsedUp(code) && !IsBelowMinimum(code, subtotal)
    ensures v.Accepted? ==> v.code == code
    ensures v == Expired <==> IsExpired(code, now)
    ensures v == UsageLimitReached <==> !IsExpired(code, now) && IsUsedUp(code)
    ensures v.BelowMinimum? <==> !IsExpired(code, now) && !IsUsedUp(code) && IsBelowMinimum(code, subtotal)
    ensures v.BelowMinimum? ==> v.minimum == code.minimumPurchase
  {
    if IsExpired(code, now) then Expired
    else if IsUsedUp(code) then UsageLimitReached
    else if IsBelowMinimum(code, subtotal) then BelowMinimum(code.minimumPurchase)
    else Accepted(code)
  }

  /** The whole of handleApplyDiscount as a decision: the first check that fails, or Accepted. */
  function Decide(input: string, backend: Option<seq<DiscountCode>>, now: int, subtotal: real): (v: Verdict)
    ensures v == Blank <==> IsBlank(input)
    ensures v == InvalidCode <==> !IsBlank(input) && !LookUp(backend, Upper(input)).Row?
    ensures !v.Blank? && !v.InvalidCode? ==>
      var found := LookUp(backend, Upper(input));
      found.Row? && v == CheckCode(found.code, now, subtotal)
    ensures v.Accepted? ==>
      && backend.Some? && v.code in backend.value && v.code.active && v.code.code == Upper(input)
      && !IsExpired(v.code, now) && !IsUsedUp(v.code) && v.code.minimumPurchase <= subtotal
  {
    if IsBlank(input) then Blank
    else
      match LookUp(backend, Upper(input))
      case Row(code) => CheckCode(code, now, subtotal)
      case _ => InvalidCode
  }

  /** The accepted code is the only active row with the upper-cased name. */
  lemma AcceptedCodeIsUnique(input: string, table: seq<DiscountCode>, now: int, subtotal: real)
    requires Decide(input, Some(table), now, subtotal).Accepted?
    ensures forall i :: 0 <= i < |table| && table[i].code == Upper(input) && table[i].active ==>
              table[i] == Decide(input, Some(table), now, subtotal).code
  {
    var key := Upper(input);
    var v := Decide(input, Some(table), now, subtotal);
    var found := LookUp(Some(table), key);
    assert found.Row? && v == CheckCode(found.code, now, subtotal);
    var rows := MatchingRows(table, key);
    assert |rows| == 1 && found.code == rows[0];
    assert v.code == rows[0];
    forall i | 0 <= i < |table| && table[i].code == key && table[i].active
      ensures table[i] == rows[0]
    {
      assert table[i] in rows;
    }
  }

  /** With exactly one active row of that name, `.maybeSingle()` returns that row. */
  lemma UniqueRowIsFound(table: seq<DiscountCode>, key: string, i: nat)
    requires i < |table| && table[i].code == key && table[i].active
    requires forall j :: 0 <= j < |table| && j != i ==> !(table[j].code == key && table[j].active)
    ensures LookUp(Some(table), key) == Row(table[i])
  {
    var keep := (c: DiscountCode) => c.code == key && c.active;
    var front, back := table[..i], table[i + 1..];
    assert table == front + ([table[i]] + back);
    Seqs.FilterAppend(front, [table[i]] + back, keep);
    forall k | 0 <= k < |front| ensures !keep(front[k]) {
      assert front[k] == table[k];
    }
    forall k | 0 <= k < |back| ensures !keep(back[k]) {
      assert back[k] == table[i + 1 + k];
    }
    Seqs.FilterKeepsNone(front, keep);
    Seqs.FilterKeepsNone(back, keep);
    assert ([table[i]] + back)[1..] == back;
    assert Seqs.Filter([table[i]] + back, keep) == [table[i]];
    assert MatchingRows(table, key) == [table[i]];
  }

  /** With two or more active rows of that name, `.maybeSingle()` reports an error. */
  lemma SeveralRowsFail(table: seq<DiscountCode>, key: string, i: nat, j: nat)
    requires i < j < |table|
    requires table[i].code == key && table[i].active
    requires table[j].code == key && table[j].active
    ensures LookUp(Some(table), key) == QueryError
  {
    var keep := (c: DiscountCode) => c.code == key && c.active;
    var front, back := Seqs.Filter(table[..j], keep), Seqs.Filter(table[j..], keep);
    assert table == table[..j] + table[j..];
    Seqs.FilterAppend(table[..j], table[j..], keep);
    assert MatchingRows(table, key) == front + back;
    assert |front| > 0 by { assert table[..j][i] == table[i]; }
    assert |back| > 0 by { assert table[j..][0] == table[j]; }
  }

  /**
   * A single active row named by the upper-cased input is checked, and it is
   * accepted exactly when it passes the three checks.
   */
  lemma UniqueRowDecides(input: string, table: seq<DiscountCode>, i: nat, now: int, subtotal: real)
    requires !IsBlank(input) && i < |table|
    requires table[i].code == Upper(input) && table[i].active
    requires forall j :: 0 <= j < |table| && j != i ==> !(table[j].code == Upper(input) && table[j].active)
    ensures Decide(input, Some(table), now, subtotal) == CheckCode(table[i], now, subtotal)
    ensures Decide(input, Some(table), now, subtotal) == Accepted(table[i]) <==>
      !IsExpired(table[i], now) && !IsUsedUp(table[i]) && !IsBelowMinimum(table[i], subtotal)
  {
    UniqueRowIsFound(table, Upper(input), i);
  }

  /** Two active rows with the same name make every input naming them invalid. */
  lemma DuplicateRowsAreInvalid(input: string, table: seq<DiscountCode>, i: nat, j: nat, now: int, subtotal: real)
    requires i < j < |table| && !IsBlank(input)
    requires table[i].code == Upper(input) && table[i].active
    requires table[j].code == Upper(input) && table[j].active
    ensures Decide(input, Some(table), now, subtotal) == InvalidCode
  {
    SeveralRowsFail(table, Upper(input), i, j);
  }

  /** The boundaries: a code expiring exactly now, or a subtotal equal to the minimum, still passes. */
  lemma CheckBoundaries(code: DiscountCode, now: int)
    requires !IsUsedUp(code)
    requires code.expiresAt == Some(now)
    ensures CheckCode(code, now, code.minimumPurchase) == Accepted(code)
  {
  }

  /** A usage limit of 0 behaves as no limit at all. */
  lemma ZeroLimitIsNoLimit(code: DiscountCode, now: int, subtotal: real)
    ensures CheckCode(code.(maxUses := Some(0)), now, subtotal).Accepted?
        <==> CheckCode(code.(maxUses := None), now, subtotal).Accepted?
  {
  }

  // ---------------------------------------------------------------------------
  // The code-entry form

  class DiscountForm {
    var input: string
    var validating: bool

    constructor ()
      ensures input == "" && !validating
    {
      input := "";
      validating := false;
    }

    /**
     * The input's onChange: the field holds the upper-cased text, so the
     * lookup's own upper-casing leaves the typed field as it is.
     */
    method Type(text: string)
      modifies this
      ensures input == Upper(text) && validating == old(validating)
      ensures Upper(input) == input
    {
      input := Upper(text);
      UpperIdempotent(text);
    }

    /**
     * handleApplyDiscount: the early-return chain. Only an accepted code is
     * applied to the cart and clears the field; every run past the blank
     * check ends with `validating` false.
     */
    method HandleApply(cart: CartContext.Cart, backend: Option<seq<DiscountCode>>, now: int) returns (v: Verdict)
      modifies this, cart
      ensures v == Decide(old(input), backend, now, old(cart.Subtotal()))
      ensures cart.items == old(cart.items)
      ensures v.Accepted? ==> cart.discount == Some(v.code) && input == ""
      ensures !v.Accepted? ==> cart.discount == old(cart.discount) && input == old(input)
      ensures validating == if v == Blank then old(validating) else false
    {
      if IsBlank(input) {
        return Blank;
      }
      validating := true;
      var found := LookUp(backend, Upper(input));
      if !found.Row? {
        validating := false;
        return InvalidCode;
      }
      var code := found.code;
      if IsExpired(code, now) {
        validating := false;
        return Expired;
      }
      if IsUsedUp(code) {
        validating := false;
        return UsageLimitReached;
      }
      if IsBelowMinimum(code, cart.Subtotal()) {
        validating := false;
        return BelowMinimum(code.minimumPurchase);
      }
      cart.ApplyDiscount(code);
      input := "";
      validating := false;
      v := Accepted(code);
    }
  }

  // ---------------------------------------------------------------------------
  // Quantity buttons

  /** The minus button is disabled at quantity <= 1. */
  function DecrementEnabled(quantity: int): (r: bool)
    ensures r <==> quantity - 1 >= CartContext.MinQuantity
  {
    !(quantity <= 1)
  }

  /** The plus button is disabled at quantity >= 10. */
  function IncrementEnabled(quantity: int): (r: bool)
    ensures r <==> quantity + 1 <= CartContext.MaxQuantity
  {
    !(quantity >= 10)
  }

  /** A click on the minus button of row `k`: `updateQuantity(id, quantity - 1)` unless disabled. */
  function PressDecrement(items: seq<CartItem>, k: nat): (r: seq<CartItem>)
    requires k < |items|
    ensures |r| == |items|
    ensures forall j :: 0 <= j < |items| && items[j].productId != items[k].productId ==> r[j] == items[j]
    ensures var q := items[k].quantity;
      r[k] == items[k].(quantity := if 1 < q <= CartContext.MaxQuantity + 1 then q - 1 else q)
  {
    if DecrementEnabled(items[k].quantity)
    then CartContext.UpdateIn(items, items[k].productId, items[k].quantity - 1)
    else items
  }

  /** A click on the plus button of row `k`: `updateQuantity(id, quantity + 1)` unless disabled. */
  function PressIncrement(items: seq<CartItem>, k: nat): (r: seq<CartItem>)
    requires k < |items|
    ensures |r| == |items|
    ensures forall j :: 0 <= j < |items| && items[j].productId != items[k].productId ==> r[j] == items[j]
    ensures var q := items[k].quantity;
      r[k] == items[k].(quantity := if CartContext.MinQuantity - 1 <= q < CartContext.MaxQuantity then q + 1 else q)
  {
    if IncrementEnabled(items[k].quantity)
    then CartContext.UpdateIn(items, items[k].productId, items[k].quantity + 1)
    else items
  }

  /**
   * On a valid cart the minus button, when enabled, requests a quantity the
   * guard of updateQuantity accepts, so a click lowers exactly that row by one
   * and keeps the cart valid; when disabled nothing changes.
   */
  lemma DecrementStaysInRange(items: seq<CartItem>, k: nat)
    requires CartContext.ValidItems(items) && k < |items|
    ensures var q := items[k].quantity;
      DecrementEnabled(q) ==> CartContext.MinQuantity <= q - 1 <= CartContext.MaxQuantity
    ensures var q := items[k].quantity;
      PressDecrement(items, k) == items[k := items[k].(quantity := if q > 1 then q - 1 else q)]
    ensures CartContext.ValidItems(PressDecrement(items, k))
  {
    var q := items[k].quantity;
    if q > 1 {
      CartContext.UpdateExistingIsPointUpdate(items, k, q - 1);
      CartContext.UpdateQuantityPreservesValid(items, items[k].productId, q - 1);
    } else {
      assert items[k := items[k]] == items;
    }
  }

  /** The same for the plus button, which is enabled below 10. */
  lemma IncrementStaysInRange(items: seq<CartItem>, k: nat)
    requires CartContext.ValidItems(items) && k < |items|
    ensures var q := items[k].quantity;
      IncrementEnabled(q) ==> CartContext.MinQuantity <= q + 1 <= CartContext.MaxQuantity
    ensures var q := items[k].quantity;
      PressIncrement(items, k) == items[k := items[k].(quantity := if q < 10 then q + 1 else q)]
    ensures CartContext.ValidItems(PressIncrement(items, k))
  {
    var q := items[k].quantity;
    if q < 10 {
      CartContext.UpdateExistingIsPointUpdate(items, k, q + 1);
      CartContext.UpdateQuantityPreservesValid(items, items[k].productId, q + 1);
    } else {
      assert items[k := items[k]] == items;
    }
  }
}

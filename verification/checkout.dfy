/**
 * The checkout page of src/pages/CheckoutPage.tsx: the e-mail pattern
 * `/^[A-Z0-9._%+-]+@[A-Z0-9.-]+\.[A-Z]{2,}$/i` (also used by the quiz's
 * e-mail step), the order number and the order record sent to the backend.
 * The clock and the random generator are parameters: `isoTimestamp` is
 * `new Date().toISOString()` and `randomBase36` is `Math.random().toString(36)`.
 */
module Checkout {
  import opened Wrappers
  import opened Types
  import opened Text
  import Seqs
  import CartContext

  // ---------------------------------------------------------------------------
  // The e-mail pattern

  /** `[A-Z0-9._%+-]` under the `i` flag. */
  predicate IsLocalChar(c: char) {
    IsAsciiLetter(c) || IsAsciiDigit(c) || c == '.' || c == '_' || c == '%' || c == '+' || c == '-'
  }

  /** `[A-Z0-9.-]` under the `i` flag. */
  predicate IsDomainChar(c: char) {
    IsAsciiLetter(c) || IsAsciiDigit(c) || c == '.' || c == '-'
  }

  predicate AllLocal(s: string) { forall i :: 0 <= i < |s| ==> IsLocalChar(s[i]) }
  predicate AllDomain(s: string) { forall i :: 0 <= i < |s| ==> IsDomainChar(s[i]) }
  predicate AllLetters(s: string) { forall i :: 0 <= i < |s| ==> IsAsciiLetter(s[i]) }

  /**
   * `s` splits as local + '@' + domain + '.' + tld with the '@' at `at` and
   * the '.' at `dot`: a non-empty local part, a non-empty domain, and a
   * top-level part of at least two letters that ends the string.
   */
  predicate EmailSplit(s: string, at: int, dot: int) {
    && 0 < at && at + 1 < dot && dot + 3 <= |s|
    && s[at] == '@' && s[dot] == '.'
    && AllLocal(s[..at]) && AllDomain(s[at + 1..dot]) && AllLetters(s[dot + 1..])
  }

  /** The regular expression matches `s`. */
  ghost predicate MatchesEmailPattern(s: string) {
    exists at, dot :: EmailSplit(s, at, dot)
  }

  /** The first index of `c` in `s`. */
  function IndexOf(s: string, c: char): (r: Option<nat>)
    ensures r.None? ==> forall i :: 0 <= i < |s| ==> s[i] != c
    ensures r.Some? ==> r.value < |s| && s[r.value] == c && forall i :: 0 <= i < r.value ==> s[i] != c
  {
    if s == [] then None
    else if s[0] == c then Some(0)
    else match IndexOf(s[1..], c)
      case None => None
      case Some(i) => Some(i + 1)
  }

  /** The last index of `c` in `s`. */
  function LastIndexOf(s: string, c: char): (r: Option<nat>)
    ensures r.None? ==> forall i :: 0 <= i < |s| ==> s[i] != c
    ensures r.Some? ==> r.value < |s| && s[r.value] == c && forall i :: r.value < i < |s| ==> s[i] != c
  {
    if s == [] then None
    else if s[|s| - 1] == c then Some(|s| - 1)
    else LastIndexOf(s[..|s| - 1], c)
  }

  /** In any split the '@' is the first one in `s` and the '.' the last one. */
  lemma SplitPosition(s: string, at: int, dot: int)
    requires EmailSplit(s, at, dot)
    ensures IndexOf(s, '@') == Some(at)
    ensures LastIndexOf(s, '.') == Some(dot)
  {
    forall i | 0 <= i < at ensures s[i] != '@' {
      assert IsLocalChar(s[..at][i]);
    }
    forall i | dot < i < |s| ensures s[i] != '.' {
      assert IsAsciiLetter(s[dot + 1..][i - dot - 1]);
    }
  }

  /**
   * The pattern check. The local part cannot hold '@' and the top-level part
   * cannot hold '.', so the only candidate split is at the first '@' and the
   * last '.'.
   */
  function IsValidEmail(s: string): (ok: bool)
    ensures ok <==> MatchesEmailPattern(s)
  {
    var at, dot := IndexOf(s, '@'), LastIndexOf(s, '.');
    var ok := at.Some? && dot.Some? && EmailSplit(s, at.value, dot.value);
    assert MatchesEmailPattern(s) ==> ok by {
      if MatchesEmailPattern(s) {
        var a, d :| EmailSplit(s, a, d);
        SplitPosition(s, a, d);
      }
    }
    ok
  }

  lemma NoAtInClasses(t: string)
    requires AllLocal(t) || AllDomain(t) || AllLetters(t)
    ensures multiset(t)['@'] == 0
  {
    assert !IsLocalChar('@') && !IsDomainChar('@') && !IsAsciiLetter('@');
    assert forall i :: 0 <= i < |t| ==> t[i] != '@';
    assert '@' !in t;
  }

  /** Every accepted address is non-empty and holds exactly one '@'. */
  lemma AcceptedHasOneAt(s: string)
    requires IsValidEmail(s)
    ensures |s| > 0 && multiset(s)['@'] == 1
  {
    var at, dot :| EmailSplit(s, at, dot);
    var local, domain, tld := s[..at], s[at + 1..dot], s[dot + 1..];
    assert s == local + [s[at]] + domain + [s[dot]] + tld;
    NoAtInClasses(local);
    NoAtInClasses(domain);
    NoAtInClasses(tld);
    assert multiset(s) == multiset(local) + multiset([s[at]]) + multiset(domain) + multiset([s[dot]]) + multiset(tld);
  }

  lemma UpperKeepsClasses(c: char)
    ensures IsLocalChar(UpperChar(c)) == IsLocalChar(c)
    ensures IsDomainChar(UpperChar(c)) == IsDomainChar(c)
    ensures IsAsciiLetter(UpperChar(c)) == IsAsciiLetter(c)
    ensures (UpperChar(c) == '@') == (c == '@') && (UpperChar(c) == '.') == (c == '.')
  {
  }

  lemma UpperSlice(s: string, lo: nat, hi: nat)
    requires lo <= hi <= |s|
    ensures Upper(s)[lo..hi] == Upper(s[lo..hi])
  {
    var a, b := Upper(s)[lo..hi], Upper(s[lo..hi]);
    assert |a| == |b|;
    forall i | 0 <= i < |a| ensures a[i] == b[i] {
      assert a[i] == Upper(s)[lo + i] == UpperChar(s[lo + i]);
      assert b[i] == UpperChar(s[lo..hi][i]);
    }
  }

  lemma UpperKeepsAll(t: string)
    ensures AllLocal(Upper(t)) == AllLocal(t)
    ensures AllDomain(Upper(t)) == AllDomain(t)
    ensures AllLetters(Upper(t)) == AllLetters(t)
  {
    forall i | 0 <= i < |t| ensures Upper(t)[i] == UpperChar(t[i]) {
    }
    forall i | 0 <= i < |t| {
      UpperKeepsClasses(t[i]);
    }
  }

  /** Upper-casing keeps a local part a local part. */
  lemma UpperKeepsLocal(s: string, at: nat)
    requires at <= |s|
    ensures AllLocal(Upper(s)[..at]) == AllLocal(s[..at])
  {
    var a, b := Upper(s)[..at], Upper(s[..at]);
    assert a == b by {
      forall i | 0 <= i < at ensures a[i] == b[i] {
        assert a[i] == UpperChar(s[i]);
        assert b[i] == UpperChar(s[..at][i]);
      }
    }
    UpperKeepsAll(s[..at]);
  }

  /** Upper-casing keeps a domain a domain. */
  lemma UpperKeepsDomain(s: string, lo: nat, hi: nat)
    requires lo <= hi <= |s|
    ensures AllDomain(Upper(s)[lo..hi]) == AllDomain(s[lo..hi])
  {
    UpperSlice(s, lo, hi);
    UpperKeepsAll(s[lo..hi]);
  }

  /** Upper-casing keeps a top-level part all letters. */
  lemma UpperKeepsLetters(s: string, lo: nat)
    requires lo <= |s|
    ensures AllLetters(Upper(s)[lo..]) == AllLetters(s[lo..])
  {
    var a, b := Upper(s)[lo..], Upper(s[lo..]);
    assert a == b by {
      forall i | 0 <= i < |a| ensures a[i] == b[i] {
        assert a[i] == UpperChar(s[lo + i]);
        assert b[i] == UpperChar(s[lo..][i]);
      }
    }
    UpperKeepsAll(s[lo..]);
  }

  /** Upper-casing keeps every split point of the pattern. */
  lemma UpperKeepsSplit(s: string, at: int, dot: int)
    ensures EmailSplit(s, at, dot) <==> EmailSplit(Upper(s), at, dot)
  {
    if 0 < at && at + 1 < dot && dot + 3 <= |s| {
      UpperKeepsClasses(s[at]);
      UpperKeepsClasses(s[dot]);
      UpperKeepsLocal(s, at);
      UpperKeepsDomain(s, at + 1, dot);
      UpperKeepsLetters(s, dot + 1);
    }
  }

  /** The `i` flag: upper-casing the address does not change the verdict. */
  lemma CaseInsensitive(s: string)
    ensures IsValidEmail(Upper(s)) == IsValidEmail(s)
  {
    var u := Upper(s);
    if MatchesEmailPattern(s) {
      var at, dot :| EmailSplit(s, at, dot);
      UpperKeepsSplit(s, at, dot);
    }
    if MatchesEmailPattern(u) {
      var at, dot :| EmailSplit(u, at, dot);
      UpperKeepsSplit(s, at, dot);
    }
  }

  // ---------------------------------------------------------------------------
  // The order number

  /** `s.slice(start, end)` / `s.substring(start, end)` for 0 <= start <= end: clamped to the length. */
  function Slice(s: string, start: nat, end: nat): (r: string)
    requires start <= end
    ensures |r| <= end - start
    ensures end <= |s| ==> r == s[start..end]
  {
    var e := if end <= |s| then end else |s|;
    var b := if start <= e then start else e;
    s[b..e]
  }

  /**
   * `.replace(/-/g, '')`: every '-' goes, and every other character stays,
   * in its order and as often as it occurs.
   */
  function RemoveDashes(s: string): (r: string)
    ensures |r| <= |s|
    ensures forall i :: 0 <= i < |r| ==> r[i] != '-'
    ensures forall i :: 0 <= i < |s| && s[i] != '-' ==> s[i] in r
    ensures forall c :: multiset(r)[c] == if c == '-' then 0 else multiset(s)[c]
    ensures Seqs.IsSubsequence(r, s)
  {
    var keep := (c: char) => c != '-';
    Seqs.FilterMultiplicity(s, keep);
    Seqs.Filter(s, keep)
  }

  lemma RemoveDashesAppend(a: string, b: string)
    ensures RemoveDashes(a + b) == RemoveDashes(a) + RemoveDashes(b)
  {
    Seqs.FilterAppend(a, b, (c: char) => c != '-');
  }

  lemma RemoveDashesKeeps(a: string)
    requires forall i :: 0 <= i < |a| ==> a[i] != '-'
    ensures RemoveDashes(a) == a
  {
    Seqs.FilterKeepsAll(a, (c: char) => c != '-');
  }

  /** `AMP-` + the date without dashes + `-` + four upper-cased random characters. */
  function OrderNumber(isoTimestamp: string, randomBase36: string): (r: string)
    ensures |r| >= 5 && r[..4] == "AMP-"
  {
    "AMP-" + RemoveDashes(Slice(isoTimestamp, 0, 10)) + "-" + Upper(Slice(randomBase36, 2, 6))
  }

  /** `toISOString()` starts with a `YYYY-MM-DD` date. */
  predicate StartsWithIsoDate(s: string) {
    && |s| >= 10
    && (forall i :: 0 <= i < 10 && i != 4 && i != 7 ==> IsAsciiDigit(s[i]))
    && s[4] == '-' && s[7] == '-'
  }

  /** Dropping the dashes of `YYYY-MM-DD` leaves the eight digits `YYYYMMDD`. */
  lemma DateDigits(isoTimestamp: string)
    requires StartsWithIsoDate(isoTimestamp)
    ensures RemoveDashes(Slice(isoTimestamp, 0, 10)) == isoTimestamp[0..4] + isoTimestamp[5..7] + isoTimestamp[8..10]
  {
    var d := Slice(isoTimestamp, 0, 10);
    var y, m, dd := isoTimestamp[0..4], isoTimestamp[5..7], isoTimestamp[8..10];
    assert d == y + "-" + m + "-" + dd;
    assert RemoveDashes("-") == [] by { assert "-"[1..] == []; }
    RemoveDashesKeeps(y);
    RemoveDashesKeeps(m);
    RemoveDashesKeeps(dd);
    calc {
      RemoveDashes(d);
      { RemoveDashesAppend(y + "-" + m + "-", dd); }
      RemoveDashes(y + "-" + m + "-") + RemoveDashes(dd);
      { RemoveDashesAppend(y + "-" + m, "-"); }
      RemoveDashes(y + "-" + m) + RemoveDashes(dd);
      { RemoveDashesAppend(y + "-", m); }
      RemoveDashes(y + "-") + RemoveDashes(m) + RemoveDashes(dd);
      { RemoveDashesAppend(y, "-"); }
      y + m + dd;
    }
  }

  /**
   * For a `YYYY-MM-DD...` timestamp the order number is `AMP-YYYYMMDD-` followed
   * by at most four characters without lower-case letters.
   */
  lemma OrderNumberShape(isoTimestamp: string, randomBase36: string)
    requires StartsWithIsoDate(isoTimestamp)
    ensures var r := OrderNumber(isoTimestamp, randomBase36);
      && 13 <= |r| <= 17
      && r[..4] == "AMP-"
      && r[4..12] == isoTimestamp[0..4] + isoTimestamp[5..7] + isoTimestamp[8..10]
      && (forall i :: 4 <= i < 12 ==> IsAsciiDigit(r[i]))
      && r[12] == '-'
      && (forall i :: 13 <= i < |r| ==> !IsAsciiLower(r[i]))
  {
    DateDigits(isoTimestamp);
    var middle := isoTimestamp[0..4] + isoTimestamp[5..7] + isoTimestamp[8..10];
    var suffix := Upper(Slice(randomBase36, 2, 6));
    var r := OrderNumber(isoTimestamp, randomBase36);
    assert r == "AMP-" + middle + "-" + suffix;
    assert |middle| == 8;
    assert r[4..12] == middle;
    forall i | 4 <= i < 12 ensures IsAsciiDigit(r[i]) {
      assert r[i] == middle[i - 4];
      if i < 8 { assert middle[i - 4] == isoTimestamp[i - 4]; }
      else if i < 10 { assert middle[i - 4] == isoTimestamp[i - 3]; }
      else { assert middle[i - 4] == isoTimestamp[i - 2]; }
    }
    forall i | 13 <= i < |r| ensures !IsAsciiLower(r[i]) {
      assert r[i] == suffix[i - 13];
    }
  }

  // ---------------------------------------------------------------------------
  // The order record

  datatype OrderRecord = OrderRecord(
    orderNumber: string,
    email: string,
    items: seq<CartItem>,
    subtotal: real,
    discountCode: Option<string>,
    discountAmount: real,
    tax: real,
    total: real,
    status: string)

  /** The object inserted into `orders`, built from the cart at submit time. */
  function BuildOrder(orderNumber: string, email: string, items: seq<CartItem>, discount: Option<DiscountCode>): (r: OrderRecord)
    ensures r.items == items && r.email == email && r.orderNumber == orderNumber
    ensures r.subtotal == CartContext.SubtotalOf(items)
    ensures r.discountAmount == CartContext.DiscountAmountOf(r.subtotal, discount)
    ensures r.total == CartContext.TotalOf(r.subtotal, r.discountAmount) && r.total >= 0.0
    ensures r.tax == 0.0 && r.status == "pending"
    ensures r.discountCode.Some? <==> discount.Some? && discount.value.code != ""
    ensures r.discountCode.Some? ==> r.discountCode.value == discount.value.code
  {
    var subtotal := CartContext.SubtotalOf(items);
    var amount := CartContext.DiscountAmountOf(subtotal, discount);
    // `discountCode?.code || null`: an empty code is stored as null too
    var code := if discount.Some? && discount.value.code != "" then Some(discount.value.code) else None;
    OrderRecord(orderNumber, email, items, subtotal, code, amount, 0.0, CartContext.TotalOf(subtotal, amount), "pending")
  }

  /** What the page renders: nothing (after redirecting to /cart) for an empty cart. */
  datatype CheckoutView = RedirectToCart | CheckoutForm

  function ViewFor(items: seq<CartItem>): (v: CheckoutView)
    ensures v == RedirectToCart <==> items == []
  {
    if |items| == 0 then RedirectToCart else CheckoutForm
  }
}

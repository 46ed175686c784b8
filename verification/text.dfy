/**
 * Character classes and string operations of JavaScript that the pages use:
 * `String.prototype.trim` and `String.prototype.toUpperCase`, restricted to ASCII letters.
 */
module Text {

  /**
   * The characters `trim` removes: ECMAScript's WhiteSpace (tab, vertical
   * tab, form feed, space, no-break space, byte order mark and the Unicode
   * space separators) and LineTerminator (LF, CR, LS, PS).
   */
  predicate IsJsWhitespace(c: char) {
    || c == '\t' || c == '\U{000B}' || c == '\U{000C}' || c == ' ' || c == '\U{00A0}' || c == '\U{FEFF}'
    || c == '\n' || c == '\r' || c == '\U{2028}' || c == '\U{2029}'
    || c == '\U{1680}' || ('\U{2000}' <= c <= '\U{200A}') || c == '\U{202F}' || c == '\U{205F}' || c == '\U{3000}'
  }

  /** Drops the leading whitespace. */
  function TrimStart(s: string): (r: string)
    ensures forall i :: 0 <= i < |s| - |r| ==> IsJsWhitespace(s[i])
    ensures r == [] || !IsJsWhitespace(r[0])
    ensures r == [] <==> forall i :: 0 <= i < |s| ==> IsJsWhitespace(s[i])
  {
    if s != [] && IsJsWhitespace(s[0]) then
      var rest := s[1..];
      assert (forall i :: 0 <= i < |rest| ==> IsJsWhitespace(rest[i])) ==>
             (forall i :: 0 <= i < |s| ==> IsJsWhitespace(s[i])) by {
        forall i | 0 < i < |s| ensures s[i] == rest[i - 1] { }
      }
      TrimStart(rest)
    else s
  }

  /** What `TrimStart` leaves is a suffix of the input. */
  lemma {:induction false} TrimStartSuffix(s: string)
    ensures |TrimStart(s)| <= |s| && TrimStart(s) == s[|s| - |TrimStart(s)|..]
  {
    if s != [] && IsJsWhitespace(s[0]) {
      TrimStartSuffix(s[1..]);
    }
  }

  /** Drops the trailing whitespace; what remains is a prefix of the input. */
  function TrimEnd(s: string): (r: string)
    ensures |r| <= |s| && r == s[..|r|]
    ensures forall i :: |r| <= i < |s| ==> IsJsWhitespace(s[i])
    ensures r == [] || !IsJsWhitespace(r[|r| - 1])
    ensures r == [] <==> forall i :: 0 <= i < |s| ==> IsJsWhitespace(s[i])
  {
    if s != [] && IsJsWhitespace(s[|s| - 1]) then
      var front := s[..|s| - 1];
      assert (forall i :: 0 <= i < |front| ==> IsJsWhitespace(front[i])) ==>
             (forall i :: 0 <= i < |s| ==> IsJsWhitespace(s[i])) by {
        forall i | 0 <= i < |s| - 1 ensures s[i] == front[i] { }
      }
      TrimEnd(front)
    else s
  }

  /**
   * `r` is `s[i..j]` with only whitespace before `i` and after `j`: what is
   * left after removing some leading and trailing whitespace.
   */
  ghost predicate InnerSlice(s: string, r: string, i: int, j: int) {
    && 0 <= i <= j <= |s|
    && r == s[i..j]
    && (forall k :: 0 <= k < i ==> IsJsWhitespace(s[k]))
    && (forall k :: j <= k < |s| ==> IsJsWhitespace(s[k]))
  }

  /** `String.prototype.trim`: neither end of the result is whitespace. */
  function Trim(s: string): (r: string)
    ensures r == [] || (!IsJsWhitespace(r[0]) && !IsJsWhitespace(r[|r| - 1]))
  {
    var t := TrimStart(s);
    var r := TrimEnd(t);
    assert r != [] ==> r[0] == t[0];
    r
  }

  /** `trim` removes leading and trailing whitespace and nothing else. */
  lemma TrimIsInnerSlice(s: string)
    ensures exists i, j :: InnerSlice(s, Trim(s), i, j)
  {
    var t := TrimStart(s);
    var r := TrimEnd(t);
    var i := |s| - |t|;
    var j := i + |r|;
    TrimStartSuffix(s);
    assert t == s[i..];
    assert r == s[i..j] by {
      forall k | 0 <= k < |r| ensures r[k] == s[i + k] {
        assert r[k] == t[k];
      }
    }
    forall k | j <= k < |s| ensures IsJsWhitespace(s[k]) {
      assert s[k] == t[k - i];
    }
    assert Trim(s) == r;
    assert InnerSlice(s, r, i, j);
  }

  /** `!s.trim()`: the string is empty once leading and trailing whitespace is removed. */
  function IsBlank(s: string): (r: bool)
    ensures r <==> Trim(s) == []
  {
    forall i :: 0 <= i < |s| ==> IsJsWhitespace(s[i])
  }

  predicate IsAsciiUpper(c: char) { 'A' <= c <= 'Z' }
  predicate IsAsciiLower(c: char) { 'a' <= c <= 'z' }
  predicate IsAsciiLetter(c: char) { IsAsciiUpper(c) || IsAsciiLower(c) }
  predicate IsAsciiDigit(c: char) { '0' <= c <= '9' }

  /** Upper case of one character; only ASCII letters change. */
  function UpperChar(c: char): (u: char)
    ensures IsAsciiLetter(u) <==> IsAsciiLetter(c)
    ensures !IsAsciiLower(u)
    ensures !IsAsciiLower(c) ==> u == c
  {
    if IsAsciiLower(c) then (c as int - 32) as char else c
  }

  /** `toUpperCase` over ASCII: the same length, each character upper-cased. */
  function Upper(s: string): (r: string)
    ensures |r| == |s|
    ensures forall i :: 0 <= i < |s| ==> r[i] == UpperChar(s[i])
  {
    if s == [] then [] else [UpperChar(s[0])] + Upper(s[1..])
  }

  /** Upper-casing is idempotent, so upper-casing a field that was upper-cased as it was typed changes nothing. */
  lemma UpperIdempotent(s: string)
    ensures Upper(Upper(s)) == Upper(s)
  {
  }
}

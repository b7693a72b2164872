/** ECMAScript `String.prototype.trim` and the "blank" test the UI applies to
    titles, notes, links and next actions (`s.trim()` is falsy / `=== ''`). */
module Text {

  /** The code points `trim` strips: the WhiteSpace and LineTerminator
      productions of ECMA-262 (sections 12.2 and 12.3), i.e. TAB, LF, VT, FF,
      CR, SPACE, NBSP, the Unicode space separators, LS, PS and the BOM. */
  predicate IsTrimmable(c: char) {
    var n := c as int;
    || n == 0x09 || n == 0x0A || n == 0x0B || n == 0x0C || n == 0x0D
    || n == 0x20 || n == 0xA0 || n == 0x1680
    || (0x2000 <= n <= 0x200A)
    || n == 0x2028 || n == 0x2029 || n == 0x202F || n == 0x205F
    || n == 0x3000 || n == 0xFEFF
  }

  /** Every character of `s` is stripped by `trim`. */
  predicate AllTrimmable(s: string) {
    forall i :: 0 <= i < |s| ==> IsTrimmable(s[i])
  }

  /** Drops the longest trimmable prefix. */
  function TrimStart(s: string): (r: string)
    ensures |r| <= |s| && r == s[|s| - |r|..]
    ensures forall i :: 0 <= i < |s| - |r| ==> IsTrimmable(s[i])
    ensures r == [] || !IsTrimmable(r[0])
  {
    if |s| > 0 && IsTrimmable(s[0]) then TrimStart(s[1..]) else s
  }

  /** Drops the longest trimmable suffix. */
  function TrimEnd(s: string): (r: string)
    ensures |r| <= |s| && r == s[..|r|]
    ensures forall i :: |r| <= i < |s| ==> IsTrimmable(s[i])
    ensures r == [] || !IsTrimmable(r[|r| - 1])
  {
    if |s| > 0 && IsTrimmable(s[|s| - 1]) then TrimEnd(s[..|s| - 1]) else s
  }

  /** Number of characters `trim` removes from the front of `s`. */
  function TrimOffset(s: string): nat
  {
    |s| - |TrimStart(s)|
  }

  /** `s.trim()`: the infix of `s` left after removing trimmable characters
      at both ends; it is empty exactly when every character is trimmable. */
  function Trim(s: string): (r: string)
    ensures TrimOffset(s) + |r| <= |s|
    ensures r == s[TrimOffset(s)..TrimOffset(s) + |r|]
    ensures forall i :: 0 <= i < TrimOffset(s) ==> IsTrimmable(s[i])
    ensures forall i :: TrimOffset(s) + |r| <= i < |s| ==> IsTrimmable(s[i])
    ensures r == [] || (!IsTrimmable(r[0]) && !IsTrimmable(r[|r| - 1]))
    ensures r == [] <==> AllTrimmable(s)
  {
    TrimEnd(TrimStart(s))
  }

  /** The UI's emptiness test: `s.trim()` is the empty string. */
  predicate Blank(s: string) {
    Trim(s) == []
  }

  /** Non-empty, and starting and ending with a character `trim` keeps. */
  predicate Tidy(s: string) {
    |s| > 0 && !IsTrimmable(s[0]) && !IsTrimmable(s[|s| - 1])
  }

  /** A tidy string is exactly the non-blank string `trim` leaves alone, and
      trimming any non-blank string yields a tidy one. */
  lemma TidyIffTrimFixed(s: string)
    ensures Tidy(s) <==> !Blank(s) && Trim(s) == s
    ensures !Blank(s) ==> Tidy(Trim(s))
  {
    if Tidy(s) {
      assert TrimStart(s) == s;
      assert TrimEnd(s) == s;
    }
  }

  /** `trim` is idempotent. */
  lemma {:induction false} TrimIdempotent(s: string)
    ensures Trim(Trim(s)) == Trim(s)
  {
    var r := Trim(s);
    if r != [] {
      assert TrimStart(r) == r;
      assert TrimEnd(r) == r;
    }
  }

  /** A trimmed non-blank string is not blank once more: the text the UI
      hands to the store is already in trimmed form. */
  lemma TrimmedNotBlank(s: string)
    requires !Blank(s)
    ensures !Blank(Trim(s)) && Trim(Trim(s)) == Trim(s)
  {
    TrimIdempotent(s);
  }
}

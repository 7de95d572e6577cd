/**
 * The pieces of ECMAScript string semantics the payment form relies on:
 * the `\s` and `\d` regular-expression classes, a global `replace` of one
 * of them by the empty string, and `String.prototype.trim`.
 *
 * Strings are sequences of code points; `\s` and `trim` use the same set of
 * characters (WhiteSpace plus LineTerminator of ECMA-262, section 12.2 and 12.3).
 */
module JsText {

  /**
   * `\s`: the characters `trim` strips, by code point: tab to carriage
   * return, space, no-break space, ogham space mark, en quad to hair space,
   * line and paragraph separator, narrow no-break space, medium mathematical
   * space, ideographic space and the byte-order mark.
   */
  predicate IsWhitespace(c: char) {
    var n := c as int;
    || (0x09 <= n <= 0x0D) || n == 0x20 || n == 0xA0 || n == 0x1680
    || (0x2000 <= n <= 0x200A)
    || n == 0x2028 || n == 0x2029 || n == 0x202F || n == 0x205F
    || n == 0x3000 || n == 0xFEFF
  }

  /** `\d`: the ASCII decimal digits only. */
  predicate IsDigit(c: char) {
    '0' <= c <= '9'
  }

  predicate AllDigits(s: string) {
    forall i :: 0 <= i < |s| ==> IsDigit(s[i])
  }

  predicate AllWhitespace(s: string) {
    forall i :: 0 <= i < |s| ==> IsWhitespace(s[i])
  }

  predicate NoWhitespace(s: string) {
    forall i :: 0 <= i < |s| ==> !IsWhitespace(s[i])
  }

  /** `s.replace(/\s/g, '')`: every whitespace character dropped, the rest kept in order. */
  function RemoveWhitespace(s: string): string {
    if s == [] then []
    else (if IsWhitespace(s[0]) then [] else [s[0]]) + RemoveWhitespace(s[1..])
  }

  /** `s.replace(/\D/g, '')`: every non-digit dropped, the digits kept in order. */
  function KeepDigits(s: string): string {
    if s == [] then []
    else (if IsDigit(s[0]) then [s[0]] else []) + KeepDigits(s[1..])
  }

  /** Leading whitespace removed. */
  function TrimStart(s: string): string {
    if s != [] && IsWhitespace(s[0]) then TrimStart(s[1..]) else s
  }

  /** Trailing whitespace removed. */
  function TrimEnd(s: string): string {
    if s != [] && IsWhitespace(s[|s| - 1]) then TrimEnd(s[..|s| - 1]) else s
  }

  /** What is left after removing whitespace has none, and is no longer than what was given. */
  lemma {:induction false} RemoveWhitespaceShape(s: string)
    ensures NoWhitespace(RemoveWhitespace(s)) && |RemoveWhitespace(s)| <= |s|
    decreases |s|
  {
    if s != [] {
      RemoveWhitespaceShape(s[1..]);
    }
  }

  /** What is left after keeping the digits is all digits, and is no longer than what was given. */
  lemma {:induction false} KeepDigitsShape(s: string)
    ensures AllDigits(KeepDigits(s)) && |KeepDigits(s)| <= |s|
    decreases |s|
  {
    if s != [] {
      KeepDigitsShape(s[1..]);
    }
  }

  /** Trimming the start leaves a suffix, empty or starting with a non-space, after a run of whitespace. */
  lemma {:induction false} TrimStartShape(s: string)
    ensures var r := TrimStart(s);
      && |r| <= |s| && r == s[|s| - |r|..]
      && AllWhitespace(s[..|s| - |r|])
      && (r == [] || !IsWhitespace(r[0]))
    decreases |s|
  {
    if s != [] && IsWhitespace(s[0]) {
      TrimStartShape(s[1..]);
      var r := TrimStart(s);
      var k := |s| - |r|;
      forall i | 0 <= i < k ensures IsWhitespace(s[i]) {
        if i > 0 {
          assert s[i] == s[1..][..k - 1][i - 1];
        }
      }
    }
  }

  /** Trimming the end leaves a prefix, empty or ending with a non-space, before a run of whitespace. */
  lemma {:induction false} TrimEndShape(s: string)
    ensures var r := TrimEnd(s);
      && |r| <= |s| && r == s[..|r|]
      && AllWhitespace(s[|r|..])
      && (r == [] || !IsWhitespace(r[|r| - 1]))
    decreases |s|
  {
    if s != [] && IsWhitespace(s[|s| - 1]) {
      var s' := s[..|s| - 1];
      TrimEndShape(s');
      var r := TrimEnd(s);
      forall i | |r| <= i < |s| ensures IsWhitespace(s[i]) {
        if i < |s| - 1 {
          assert s[i] == s'[|r|..][i - |r|];
        }
      }
    }
  }

  /** `s.trim()`. */
  function Trim(s: string): string {
    TrimEnd(TrimStart(s))
  }

  /** `!s.trim()` is false: the trimmed string is not the empty (falsy) string. */
  predicate NonBlank(s: string) {
    Trim(s) != []
  }

  lemma {:induction false} RemoveWhitespaceAppend(a: string, b: string)
    ensures RemoveWhitespace(a + b) == RemoveWhitespace(a) + RemoveWhitespace(b)
    decreases |a|
  {
    if a == [] {
      assert a + b == b;
    } else {
      var head := if IsWhitespace(a[0]) then [] else [a[0]];
      assert (a + b)[0] == a[0] && (a + b)[1..] == a[1..] + b;
      assert RemoveWhitespace(a + b) == head + RemoveWhitespace(a[1..] + b);
      RemoveWhitespaceAppend(a[1..], b);
      assert RemoveWhitespace(a) == head + RemoveWhitespace(a[1..]);
    }
  }

  /** Removing whitespace from a string without any gives it back (so the removal is idempotent). */
  lemma {:induction false} RemoveWhitespaceFixed(s: string)
    requires NoWhitespace(s)
    ensures RemoveWhitespace(s) == s
    decreases |s|
  {
    if s != [] {
      RemoveWhitespaceFixed(s[1..]);
    }
  }

  lemma {:induction false} RemoveWhitespaceOfBlank(s: string)
    requires AllWhitespace(s)
    ensures RemoveWhitespace(s) == []
    decreases |s|
  {
    if s != [] {
      RemoveWhitespaceOfBlank(s[1..]);
    }
  }

  lemma RemoveWhitespaceBlankAfter(s: string)
    ensures RemoveWhitespace(s + " ") == RemoveWhitespace(s)
  {
    RemoveWhitespaceAppend(s, " ");
    assert RemoveWhitespace(" ") == [];
  }

  lemma RemoveWhitespaceIdempotent(s: string)
    ensures RemoveWhitespace(RemoveWhitespace(s)) == RemoveWhitespace(s)
  {
    RemoveWhitespaceShape(s);
    RemoveWhitespaceFixed(RemoveWhitespace(s));
  }

  /** Keeping the digits of a string of digits gives it back (so the filter is idempotent). */
  lemma {:induction false} KeepDigitsFixed(s: string)
    requires AllDigits(s)
    ensures KeepDigits(s) == s
    decreases |s|
  {
    if s != [] {
      KeepDigitsFixed(s[1..]);
    }
  }

  lemma {:induction false} KeepDigitsAppend(a: string, b: string)
    ensures KeepDigits(a + b) == KeepDigits(a) + KeepDigits(b)
    decreases |a|
  {
    if a == [] {
      assert a + b == b;
    } else {
      var head := if IsDigit(a[0]) then [a[0]] else [];
      assert (a + b)[0] == a[0] && (a + b)[1..] == a[1..] + b;
      assert KeepDigits(a + b) == head + KeepDigits(a[1..] + b);
      KeepDigitsAppend(a[1..], b);
      assert KeepDigits(a) == head + KeepDigits(a[1..]);
    }
  }

  lemma RemoveWhitespaceTrimStart(s: string)
    ensures RemoveWhitespace(TrimStart(s)) == RemoveWhitespace(s)
  {
    TrimStartShape(s);
    var t := TrimStart(s);
    var w := s[..|s| - |t|];
    assert s == w + t;
    RemoveWhitespaceAppend(w, t);
    RemoveWhitespaceOfBlank(w);
  }

  lemma RemoveWhitespaceTrimEnd(s: string)
    ensures RemoveWhitespace(TrimEnd(s)) == RemoveWhitespace(s)
  {
    TrimEndShape(s);
    var e := TrimEnd(s);
    var w := s[|e|..];
    assert s == e + w;
    RemoveWhitespaceAppend(e, w);
    RemoveWhitespaceOfBlank(w);
  }

  /** Trimming only ever removes whitespace: the non-whitespace content is untouched. */
  lemma RemoveWhitespaceTrim(s: string)
    ensures RemoveWhitespace(Trim(s)) == RemoveWhitespace(s)
  {
    RemoveWhitespaceTrimStart(s);
    RemoveWhitespaceTrimEnd(TrimStart(s));
  }

  lemma {:induction false} BlankTrimsToEmpty(s: string)
    requires AllWhitespace(s)
    ensures TrimStart(s) == [] && Trim(s) == []
    decreases |s|
  {
    if s != [] {
      BlankTrimsToEmpty(s[1..]);
    }
  }

  lemma EmptyTrimIsBlank(s: string)
    requires Trim(s) == []
    ensures AllWhitespace(s)
  {
    TrimStartShape(s);
    var t := TrimStart(s);
    TrimEndShape(t);
    assert t[|TrimEnd(t)|..] == t;
    assert t == [];
    assert s[..|s|] == s;
  }

  /** `s.trim()` is empty exactly when `s` is all whitespace. */
  lemma TrimEmptyIffBlank(s: string)
    ensures Trim(s) == [] <==> AllWhitespace(s)
  {
    if Trim(s) == [] {
      EmptyTrimIsBlank(s);
    }
    if AllWhitespace(s) {
      BlankTrimsToEmpty(s);
    }
  }

  /** Adding one trailing blank does not change what trimming the end yields. */
  lemma TrimEndSpace(s: string)
    ensures TrimEnd(s + " ") == TrimEnd(s)
  {
    assert (s + " ")[..|s|] == s;
  }

  lemma TrimOfSolid(s: string)
    requires s == [] || (!IsWhitespace(s[0]) && !IsWhitespace(s[|s| - 1]))
    ensures Trim(s) == s
  {
  }
}

/**
 * The two string operations of JavaScript the core relies on:
 * `String.prototype.toLowerCase` (only on the characters that matter for the
 * extension checks) and `String.prototype.trim`.
 */
module JsStrings {

  /**
   * Lower-casing of one character. Only `A`-`Z` are mapped; every other
   * character is returned unchanged (see README for why this is enough here).
   */
  function LowerChar(c: char): (r: char)
    ensures 'A' <= c <= 'Z' ==> r as int == c as int + 32
    ensures !('A' <= c <= 'Z') ==> r == c
  {
    if 'A' <= c <= 'Z' then (c as int + 32) as char else c
  }

  function LowerStr(s: string): (r: string)
    ensures |r| == |s|
    ensures forall i :: 0 <= i < |s| ==> r[i] == LowerChar(s[i])
  {
    seq(|s|, i requires 0 <= i < |s| => LowerChar(s[i]))
  }

  lemma LowerCharIdempotent(c: char)
    ensures LowerChar(LowerChar(c)) == LowerChar(c)
  {
  }

  /** Lower-casing twice is lower-casing once. */
  lemma LowerStrIdempotent(s: string)
    ensures LowerStr(LowerStr(s)) == LowerStr(s)
  {
    var l := LowerStr(s);
    forall i | 0 <= i < |s| ensures LowerStr(l)[i] == l[i] {
      LowerCharIdempotent(s[i]);
    }
  }

  /** `s` ends with `suffix` when both are lower-cased: the `$` anchor of an `/i` regular expression. */
  predicate EndsWithIgnoringCase(s: string, suffix: string): (r: bool)
    ensures r <==> (|suffix| <= |s| &&
                    forall i :: 0 <= i < |suffix| ==> LowerChar(s[|s| - |suffix| + i]) == LowerChar(suffix[i]))
  {
    assert |suffix| <= |s| ==> |LowerStr(s[|s| - |suffix|..])| == |LowerStr(suffix)|;
    |suffix| <= |s| && LowerStr(s[|s| - |suffix|..]) == LowerStr(suffix)
  }

  /**
   * The characters `trim` removes: the WhiteSpace and LineTerminator code
   * points of ECMA-262 (tab, vertical tab, form feed, space, no-break space,
   * zero-width no-break space, the Unicode space separators, line feed,
   * carriage return, line and paragraph separators). Every property below is
   * stated through this predicate, whatever exactly it contains.
   */
  predicate IsWhitespace(c: char) {
    c == '\t' || c == '\U{000B}' || c == '\U{000C}' || c == ' ' || c == '\U{00A0}' || c == '\U{FEFF}'
    || c == '\n' || c == '\r' || c == '\U{2028}' || c == '\U{2029}'
    || c == '\U{1680}' || ('\U{2000}' <= c <= '\U{200A}') || c == '\U{202F}' || c == '\U{205F}' || c == '\U{3000}'
  }

  /** Every character of `s` is whitespace (vacuously so for the empty string). */
  predicate Blank(s: string) {
    forall i :: 0 <= i < |s| ==> IsWhitespace(s[i])
  }

  /** Drops the leading whitespace: what remains is a suffix of `s` that starts with a non-whitespace character, if any. */
  function TrimStart(s: string): (r: string)
    ensures |r| <= |s| && r == s[|s| - |r|..]
    ensures Blank(s[..|s| - |r|])
    ensures r != [] ==> !IsWhitespace(r[0])
    ensures r == [] <==> Blank(s)
  {
    if s == [] then []
    else if IsWhitespace(s[0]) then
      var t := s[1..];
      var r := TrimStart(t);
      assert forall i :: 1 <= i < |s| ==> s[i] == t[i - 1];
      assert r == s[|s| - |r|..] by {
        assert t[|t| - |r|..] == s[|s| - |r|..];
      }
      assert Blank(s[..|s| - |r|]) by {
        forall i | 0 <= i < |s| - |r| ensures IsWhitespace(s[i]) {
          if i > 0 { assert s[i] == t[..|t| - |r|][i - 1]; }
        }
      }
      r
    else s
  }

  /** Drops the trailing whitespace: what remains is a prefix of `s` that ends with a non-whitespace character, if any. */
  function TrimEnd(s: string): (r: string)
    ensures |r| <= |s| && r == s[..|r|]
    ensures Blank(s[|r|..])
    ensures r != [] ==> !IsWhitespace(r[|r| - 1])
    ensures r == [] <==> Blank(s)
  {
    if s == [] then []
    else if IsWhitespace(s[|s| - 1]) then
      var t := s[..|s| - 1];
      var r := TrimEnd(t);
      assert forall i :: |r| <= i < |s| - 1 ==> s[i] == t[|r|..][i - |r|];
      assert Blank(s) <==> Blank(t) by {
        assert forall i :: 0 <= i < |s| - 1 ==> s[i] == t[i];
      }
      r
    else s
  }

  /** `String.prototype.trim`: whitespace removed from both ends. */
  function Trim(s: string): (r: string)
    ensures |r| <= |s|
    ensures r != [] ==> !IsWhitespace(r[0]) && !IsWhitespace(r[|r| - 1])
  {
    TrimStart(TrimEnd(s))
  }

  /** `s.trim().length === 0` holds exactly when every character of `s` is whitespace. */
  lemma TrimEmptyIffBlank(s: string)
    ensures |Trim(s)| == 0 <==> Blank(s)
  {
    var e := TrimEnd(s);
    if e != [] {
      assert !IsWhitespace(e[|e| - 1]);
      assert !Blank(e);
    }
  }
}

/** The string primitives of ECMAScript that the bookmark code relies on. */
module JsString {

  /** The WhiteSpace and LineTerminator code points of ECMA-262 (sections 12.2 and 12.3):
      exactly the characters String.prototype.trim removes at either end. */
  predicate IsJsWhitespace(c: char) {
    || c == '\U{0009}' || c == '\U{000B}' || c == '\U{000C}' || c == ' '
    || c == '\U{00A0}' || c == '\U{FEFF}' || c == '\U{1680}'
    || ('\U{2000}' <= c <= '\U{200A}')
    || c == '\U{202F}' || c == '\U{205F}' || c == '\U{3000}'
    || c == '\n' || c == '\r' || c == '\U{2028}' || c == '\U{2029}'
  }

  predicate AllWhitespace(s: string) {
    forall i :: 0 <= i < |s| ==> IsJsWhitespace(s[i])
  }

  /** Drops the longest whitespace prefix. */
  function TrimStart(s: string): string {
    if s != [] && IsJsWhitespace(s[0]) then TrimStart(s[1..]) else s
  }

  /** Drops the longest whitespace suffix. */
  function TrimEnd(s: string): string {
    if s != [] && IsJsWhitespace(s[|s| - 1]) then TrimEnd(s[..|s| - 1]) else s
  }

  /** TrimStart leaves a suffix of `s`, what it cut is all whitespace, and what is left does not
      start with whitespace. */
  lemma {:induction false} TrimStartCutsWhitespace(s: string)
    ensures |TrimStart(s)| <= |s| && TrimStart(s) == s[|s| - |TrimStart(s)|..]
    ensures AllWhitespace(s[..|s| - |TrimStart(s)|])
    ensures TrimStart(s) != [] ==> !IsJsWhitespace(TrimStart(s)[0])
  {
    if s != [] && IsJsWhitespace(s[0]) {
      TrimStartCutsWhitespace(s[1..]);
      var r := TrimStart(s[1..]);
      assert s[|s| - |r|..] == s[1..][|s| - 1 - |r|..];
      assert s[..|s| - |r|] == [s[0]] + s[1..][..|s| - 1 - |r|];
    } else {
      assert s[..0] == [];
    }
  }

  /** TrimEnd leaves a prefix of `s`, what it cut is all whitespace, and what is left does not
      end with whitespace. */
  lemma {:induction false} TrimEndCutsWhitespace(s: string)
    ensures |TrimEnd(s)| <= |s| && TrimEnd(s) == s[..|TrimEnd(s)|]
    ensures AllWhitespace(s[|TrimEnd(s)|..])
    ensures TrimEnd(s) != [] ==> !IsJsWhitespace(TrimEnd(s)[|TrimEnd(s)| - 1])
  {
    if s != [] && IsJsWhitespace(s[|s| - 1]) {
      var p := s[..|s| - 1];
      TrimEndCutsWhitespace(p);
      var r := TrimEnd(p);
      assert s[..|r|] == p[..|r|];
      assert s[|r|..] == p[|r|..] + [s[|s| - 1]];
    } else {
      assert s[|s|..] == [];
    }
  }

  /** String.prototype.trim. */
  function Trim(s: string): (r: string)
    ensures r == [] <==> AllWhitespace(s)
    ensures r != [] ==> !IsJsWhitespace(r[0]) && !IsJsWhitespace(r[|r| - 1])
  {
    var t := TrimStart(s);
    TrimStartCutsWhitespace(s);
    TrimEndCutsWhitespace(t);
    assert s == s[..|s| - |t|] + t;
    TrimEnd(t)
  }

  /** Trim cuts `s` into whitespace, the result and whitespace, in that order. */
  lemma TrimIsSlice(s: string)
    ensures exists i :: SliceAt(s, i, Trim(s))
  {
    var t := TrimStart(s);
    var i := |s| - |t|;
    var r := TrimEnd(t);
    TrimStartCutsWhitespace(s);
    TrimEndCutsWhitespace(t);
    assert t == s[i..];
    assert r == s[i..i + |r|];
    assert s[i + |r|..] == t[|r|..];
    assert SliceAt(s, i, r) && r == Trim(s);
  }

  /** `r` stands at offset `i` of `s` with only whitespace around it. */
  predicate SliceAt(s: string, i: int, r: string) {
    0 <= i <= |s| - |r| && r == s[i..i + |r|] && AllWhitespace(s[..i]) && AllWhitespace(s[i + |r|..])
  }

  /** Trimming twice is trimming once. */
  lemma TrimIdempotent(s: string)
    ensures Trim(Trim(s)) == Trim(s)
  {
    var r := Trim(s);
    TrimStartStable(r);
    TrimEndStable(r);
  }

  /** Whitespace around a string with non-whitespace ends is exactly what Trim removes. */
  lemma TrimDropsPadding(before: string, core: string, after: string)
    requires AllWhitespace(before) && AllWhitespace(after)
    requires core != [] && !IsJsWhitespace(core[0]) && !IsJsWhitespace(core[|core| - 1])
    ensures Trim(before + core + after) == core
  {
    assert before + core + after == before + (core + after);
    TrimStartDropsPadding(before, core + after);
    TrimEndDropsPadding(core, after);
    assert TrimStart(before + core + after) == core + after;
  }

  lemma {:induction false} TrimStartDropsPadding(before: string, rest: string)
    requires AllWhitespace(before)
    requires rest != [] && !IsJsWhitespace(rest[0])
    ensures TrimStart(before + rest) == rest
  {
    if before != [] {
      assert (before + rest)[1..] == before[1..] + rest;
      TrimStartDropsPadding(before[1..], rest);
    } else {
      assert before + rest == rest;
    }
  }

  lemma {:induction false} TrimEndDropsPadding(core: string, after: string)
    requires AllWhitespace(after)
    requires core != [] && !IsJsWhitespace(core[|core| - 1])
    ensures TrimEnd(core + after) == core
  {
    if after != [] {
      var s := core + after;
      assert s[..|s| - 1] == core + after[..|after| - 1];
      TrimEndDropsPadding(core, after[..|after| - 1]);
    } else {
      assert core + after == core;
    }
  }

  lemma TrimStartStable(s: string)
    requires s == [] || !IsJsWhitespace(s[0])
    ensures TrimStart(s) == s
  {
  }

  lemma TrimEndStable(s: string)
    requires s == [] || !IsJsWhitespace(s[|s| - 1])
    ensures TrimEnd(s) == s
  {
  }

  /** ASCII case folding, all the `i` flag of a regular expression without `u` does to the
      letters of /^https?:\/\//: a non-ASCII character never folds onto an ASCII one there. */
  function AsciiLower(c: char): (d: char)
    ensures ('A' <= c <= 'Z') ==> 'a' <= d <= 'z' && d as int == c as int + 32
    ensures !('A' <= c <= 'Z') ==> d == c
  {
    if 'A' <= c <= 'Z' then (c as int + 32) as char else c
  }

  /** The characters that fold onto a lower-case ASCII letter are that letter and its upper-case
      form, and nothing else: no non-ASCII character (such as U+017F or U+212A) folds onto one. */
  lemma AsciiLowerPreimage(c: char, w: char)
    requires 'a' <= w <= 'z'
    ensures AsciiLower(c) == w <==> c == w || c as int == w as int - 32
  {
  }

  /** A character other than a lower-case letter is the fold of itself only. */
  lemma AsciiLowerFixesOthers(c: char, d: char)
    requires !('a' <= d <= 'z')
    ensures AsciiLower(c) == d ==> c == d
  {
  }

  /** `s` equals the lower-case word `word` up to ASCII case. */
  predicate EqualsIgnoringCase(s: string, word: string) {
    |s| == |word| && forall i :: 0 <= i < |s| ==> AsciiLower(s[i]) == word[i]
  }
}

/**
 * The ECMAScript string primitives the server relies on: the character class
 * `\s` (WhiteSpace and LineTerminator, sections 12.2 and 12.3 of ECMA-262),
 * `String.prototype.trim`, `includes`, `startsWith`, `Array.prototype.join`
 * and the case mappings, restricted to ASCII letters.
 */
module JsString {

  /** LineTerminator: LF, CR, LINE SEPARATOR and PARAGRAPH SEPARATOR. */
  predicate IsLineTerminator(c: char) {
    c == '\n' || c == '\r' || c == '\U{2028}' || c == '\U{2029}'
  }

  /** WhiteSpace: TAB, VT, FF, ZWNBSP and every code point of category Zs. */
  predicate IsSpaceChar(c: char) {
    var n := c as int;
    n == 0x09 || n == 0x0B || n == 0x0C || n == 0x20 || n == 0xA0 || n == 0xFEFF ||
    n == 0x1680 || (0x2000 <= n <= 0x200A) || n == 0x202F || n == 0x205F || n == 0x3000
  }

  /** The regular-expression class `\s`, and what `trim` removes. */
  predicate IsWhitespace(c: char) {
    IsSpaceChar(c) || IsLineTerminator(c)
  }

  predicate AllWhitespace(s: string) {
    forall i :: 0 <= i < |s| ==> IsWhitespace(s[i])
  }

  /** Neither the first nor the last character is whitespace. */
  predicate IsTrimmed(s: string) {
    s == [] || (!IsWhitespace(s[0]) && !IsWhitespace(s[|s| - 1]))
  }

  /** The first index at or after `i` whose character is not whitespace, or `|s|`. */
  function SkipWhitespace(s: string, i: nat): (e: nat)
    requires i <= |s|
    ensures i <= e <= |s|
    ensures forall j :: i <= j < e ==> IsWhitespace(s[j])
    ensures e == |s| || !IsWhitespace(s[e])
    decreases |s| - i
  {
    if i < |s| && IsWhitespace(s[i]) then SkipWhitespace(s, i + 1) else i
  }

  /** The end of `s[lo..hi]` once the whitespace it ends with is removed. */
  function TrimmedEnd(s: string, lo: nat, hi: nat): (e: nat)
    requires lo <= hi <= |s|
    ensures lo <= e <= hi
    ensures forall j :: e <= j < hi ==> IsWhitespace(s[j])
    ensures e == lo || !IsWhitespace(s[e - 1])
    decreases hi - lo
  {
    if lo < hi && IsWhitespace(s[hi - 1]) then TrimmedEnd(s, lo, hi - 1) else hi
  }

  /** The number of whitespace characters `s` starts with. */
  function LeadingWhitespace(s: string): (n: nat)
    ensures n <= |s|
    ensures forall i :: 0 <= i < n ==> IsWhitespace(s[i])
    ensures n == |s| || !IsWhitespace(s[n])
  {
    SkipWhitespace(s, 0)
  }

  /**
   * `String.prototype.trim`: the longest slice of `s` obtained by removing
   * whitespace at both ends.
   */
  function Trim(s: string): (r: string)
    ensures IsTrimmed(r)
    ensures r == [] <==> AllWhitespace(s)
    ensures LeadingWhitespace(s) + |r| <= |s|
    ensures r == s[LeadingWhitespace(s)..LeadingWhitespace(s) + |r|]
    ensures forall i :: LeadingWhitespace(s) + |r| <= i < |s| ==> IsWhitespace(s[i])
  {
    var a := LeadingWhitespace(s);
    var e := TrimmedEnd(s, a, |s|);
    assert a < |s| ==> a < e;
    s[a..e]
  }

  /** A trimmed string is its own trim. */
  lemma TrimTrimmed(s: string)
    requires IsTrimmed(s)
    ensures Trim(s) == s
  {
    if s != [] {
      assert LeadingWhitespace(s) == 0;
      assert TrimmedEnd(s, 0, |s|) == |s|;
    }
  }

  /** Whitespace at every index of a range makes the slice blank. */
  lemma BlankSlice(s: string, lo: nat, hi: nat)
    requires lo <= hi <= |s|
    requires forall j :: lo <= j < hi ==> IsWhitespace(s[j])
    ensures AllWhitespace(s[lo..hi])
  {
    assert forall j :: 0 <= j < hi - lo ==> s[lo..hi][j] == s[lo + j];
  }

  /** The UTF-16 code units of one code point: two above U+FFFF, one otherwise. */
  function CodeUnits(c: char): nat {
    if c as int >= 0x1_0000 then 2 else 1
  }

  /**
   * `String.prototype.length`: the number of UTF-16 code units, at least one
   * and at most two per code point.
   */
  function Utf16Length(s: string): (n: nat)
    ensures |s| <= n <= 2 * |s|
    decreases |s|
  {
    if s == [] then 0 else Utf16Length(s[..|s| - 1]) + CodeUnits(s[|s| - 1])
  }

  lemma {:induction false} Utf16Concat(a: string, b: string)
    ensures Utf16Length(a + b) == Utf16Length(a) + Utf16Length(b)
    decreases |b|
  {
    if b == [] {
      assert a + b == a;
    } else {
      var init := b[..|b| - 1];
      Utf16Concat(a, init);
      assert (a + b)[..|a + b| - 1] == a + init;
    }
  }

  /** Only code points above U+FFFF make the length exceed the number of code points. */
  lemma {:induction false} Utf16LengthBmp(s: string)
    ensures Utf16Length(s) == |s| <==> forall i :: 0 <= i < |s| ==> s[i] as int < 0x1_0000
    decreases |s|
  {
    if s != [] {
      var init := s[..|s| - 1];
      Utf16LengthBmp(init);
      assert forall i :: 0 <= i < |init| ==> init[i] == s[i];
    }
  }

  /** A slice is no longer, in code units, than a slice around it. */
  lemma Utf16Monotone(s: string, a: nat, i: nat, j: nat, b: nat)
    requires a <= i <= j <= b <= |s|
    ensures Utf16Length(s[i..j]) <= Utf16Length(s[a..b])
  {
    assert s[a..b] == s[a..i] + s[i..j] + s[j..b];
    Utf16Concat(s[a..i] + s[i..j], s[j..b]);
    Utf16Concat(s[a..i], s[i..j]);
  }

  predicate IsAsciiLower(c: char) { 'a' <= c <= 'z' }
  predicate IsAsciiUpper(c: char) { 'A' <= c <= 'Z' }

  function UpperChar(c: char): char {
    if IsAsciiLower(c) then (c as int - 32) as char else c
  }

  function LowerChar(c: char): char {
    if IsAsciiUpper(c) then (c as int + 32) as char else c
  }

  /**
   * `String.prototype.toUpperCase` on ASCII letters: each lower-case letter
   * becomes its upper-case partner and every other character stays; a string
   * is its own upper-case form exactly when it holds no lower-case letter.
   */
  function ToUpperCase(s: string): (r: string)
    ensures |r| == |s|
    ensures forall i :: 0 <= i < |s| ==> !IsAsciiLower(r[i])
    ensures forall i :: 0 <= i < |s| && IsAsciiLower(s[i]) ==>
      IsAsciiUpper(r[i]) && r[i] as int == s[i] as int - 32
    ensures forall i :: 0 <= i < |s| && !IsAsciiLower(s[i]) ==> r[i] == s[i]
    ensures r == s <==> forall i :: 0 <= i < |s| ==> !IsAsciiLower(s[i])
  {
    var r := seq(|s|, i requires 0 <= i < |s| => UpperChar(s[i]));
    assert (forall i :: 0 <= i < |s| ==> !IsAsciiLower(s[i])) ==> r == s;
    assert r == s ==> forall i :: 0 <= i < |s| ==> !IsAsciiLower(s[i]) by {
      if r == s {
        forall i | 0 <= i < |s| ensures !IsAsciiLower(s[i]) {
          assert r[i] == UpperChar(s[i]);
        }
      }
    }
    r
  }

  /**
   * `String.prototype.toLowerCase` on ASCII letters: each upper-case letter
   * becomes its lower-case partner, 32 code points further on.
   */
  function ToLowerCase(s: string): (r: string)
    ensures |r| == |s|
    ensures forall i :: 0 <= i < |s| ==> !IsAsciiUpper(r[i])
    ensures forall i :: 0 <= i < |s| && IsAsciiUpper(s[i]) ==>
      IsAsciiLower(r[i]) && r[i] as int == s[i] as int + 32
    ensures forall i :: 0 <= i < |s| && !IsAsciiUpper(s[i]) ==> r[i] == s[i]
  {
    seq(|s|, i requires 0 <= i < |s| => LowerChar(s[i]))
  }

  /**
   * Lower-casing ignores the case a text was written in: the upper-case form
   * of a text lower-cases to the same string as the text itself.
   */
  lemma LowerCaseIgnoresCase(s: string)
    ensures ToLowerCase(ToUpperCase(s)) == ToLowerCase(s)
  {
    var u := ToUpperCase(s);
    forall i | 0 <= i < |s| ensures ToLowerCase(u)[i] == ToLowerCase(s)[i] {
      assert u[i] == UpperChar(s[i]);
    }
  }

  predicate StartsWith(s: string, prefix: string) {
    |prefix| <= |s| && s[..|prefix|] == prefix
  }

  /** `String.prototype.includes`, scanning from the left. */
  predicate Includes(s: string, k: string)
    decreases |s|
  {
    StartsWith(s, k) || (s != [] && Includes(s[1..], k))
  }

  /** `k` occurs in `s` starting at offset `i`. */
  predicate OccursAt(s: string, k: string, i: int) {
    0 <= i <= |s| - |k| && s[i..i + |k|] == k
  }

  /** An occurrence in `s[1..]` is an occurrence in `s`, one place later. */
  lemma OccursInTail(s: string, k: string, i: int)
    requires s != [] && 0 <= i
    ensures OccursAt(s[1..], k, i) <==> OccursAt(s, k, i + 1)
  {
    if 0 <= i <= |s| - 1 - |k| {
      assert s[1..][i..i + |k|] == s[i + 1..i + 1 + |k|];
    }
  }

  /** `includes` holds exactly when `k` occurs at some offset of `s`. */
  lemma {:induction false} IncludesIff(s: string, k: string)
    ensures Includes(s, k) <==> exists i :: OccursAt(s, k, i)
    decreases |s|
  {
    if StartsWith(s, k) {
      assert OccursAt(s, k, 0);
    } else if s == [] {
      assert forall i :: !OccursAt(s, k, i);
    } else {
      IncludesIff(s[1..], k);
      if Includes(s[1..], k) {
        var i :| OccursAt(s[1..], k, i);
        OccursInTail(s, k, i);
      } else {
        forall i | OccursAt(s, k, i) ensures false {
          if i > 0 {
            OccursInTail(s, k, i - 1);
          }
        }
      }
    }
  }

  /** `Array.prototype.join` over strings. */
  function Join(parts: seq<string>, sep: string): string
    decreases |parts|
  {
    if parts == [] then ""
    else if |parts| == 1 then parts[0]
    else parts[0] + sep + Join(parts[1..], sep)
  }

  lemma AllWhitespaceConcat(a: string, b: string)
    ensures AllWhitespace(a + b) <==> AllWhitespace(a) && AllWhitespace(b)
  {
    if AllWhitespace(a + b) {
      forall i | 0 <= i < |b| ensures IsWhitespace(b[i]) { assert b[i] == (a + b)[|a| + i]; }
      forall i | 0 <= i < |a| ensures IsWhitespace(a[i]) { assert a[i] == (a + b)[i]; }
    }
  }

  /**
   * Joining with a whitespace separator gives a blank string exactly when
   * every part is blank.
   */
  lemma {:induction false} JoinBlankIff(parts: seq<string>, sep: string)
    requires AllWhitespace(sep)
    ensures AllWhitespace(Join(parts, sep)) <==> forall i :: 0 <= i < |parts| ==> AllWhitespace(parts[i])
    decreases |parts|
  {
    if |parts| > 1 {
      JoinBlankIff(parts[1..], sep);
      AllWhitespaceConcat(parts[0] + sep, Join(parts[1..], sep));
      AllWhitespaceConcat(parts[0], sep);
      assert forall i :: 1 <= i < |parts| ==> parts[i] == parts[1..][i - 1];
    }
  }

  /** The characters of `s` that are not whitespace, in order. */
  function Visible(s: string): string
    decreases |s|
  {
    if s == [] then ""
    else (if IsWhitespace(s[0]) then "" else [s[0]]) + Visible(s[1..])
  }

  lemma {:induction false} VisibleConcat(a: string, b: string)
    ensures Visible(a + b) == Visible(a) + Visible(b)
    decreases |a|
  {
    if a == [] {
      assert a + b == b;
    } else {
      assert (a + b)[0] == a[0] && (a + b)[1..] == a[1..] + b;
      VisibleConcat(a[1..], b);
    }
  }

  lemma {:induction false} VisibleOfBlank(s: string)
    requires AllWhitespace(s)
    ensures Visible(s) == ""
    decreases |s|
  {
    if s != [] { VisibleOfBlank(s[1..]); }
  }

  lemma VisibleCons(c: char, s: string)
    ensures Visible([c] + s) == (if IsWhitespace(c) then "" else [c]) + Visible(s)
  {
    assert ([c] + s)[0] == c && ([c] + s)[1..] == s;
  }

  /** Dropping a blank stretch at the front leaves the visible characters alone. */
  lemma VisibleSkipBlank(s: string, q: nat, e: nat)
    requires q <= e <= |s| && AllWhitespace(s[q..e])
    ensures Visible(s[q..]) == Visible(s[e..])
  {
    assert s[q..] == s[q..e] + s[e..];
    VisibleConcat(s[q..e], s[e..]);
    VisibleOfBlank(s[q..e]);
  }

  /** Trimming removes only whitespace. */
  lemma TrimVisible(s: string)
    ensures Visible(Trim(s)) == Visible(s)
  {
    var a := LeadingWhitespace(s);
    var r := Trim(s);
    var e := a + |r|;
    BlankSlice(s, 0, a);
    VisibleSkipBlank(s, 0, a);
    BlankSlice(s, e, |s|);
    VisibleSkipBlank(s, e, |s|);
    assert s[a..] == r + s[e..];
    VisibleConcat(r, s[e..]);
    assert s[0..] == s && s[|s|..] == [];
  }
}

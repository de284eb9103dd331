/** The parts of JavaScript's string semantics that the apps rely on: the white-space
    class shared by `\s` and `String.prototype.trim`, ASCII case mapping, `includes`,
    `startsWith`, `Array.prototype.join` over strings, and `length` in UTF-16 code units. */
module JsText {

  /** ECMAScript WhiteSpace and LineTerminator code points (the `\s` class and what `trim` strips). */
  predicate IsJsSpace(c: char) {
    var n := c as int;
    n == 0x09 || n == 0x0A || n == 0x0B || n == 0x0C || n == 0x0D || n == 0x20 ||
    n == 0xA0 || n == 0x1680 || (0x2000 <= n <= 0x200A) || n == 0x2028 || n == 0x2029 ||
    n == 0x202F || n == 0x205F || n == 0x3000 || n == 0xFEFF
  }

  predicate AllSpace(s: string) {
    forall k :: 0 <= k < |s| ==> IsJsSpace(s[k])
  }

  /** `s.trimStart()` */
  function TrimStart(s: string): (r: string)
    ensures |r| <= |s| && r == s[|s| - |r|..]
    ensures r == [] || !IsJsSpace(r[0])
    ensures AllSpace(s[..|s| - |r|])
  {
    if |s| > 0 && IsJsSpace(s[0]) then
      var r := TrimStart(s[1..]);
      assert s[1..][..|s| - 1 - |r|] == s[1..|s| - |r|];
      r
    else s
  }

  /** `s.trimEnd()` */
  function TrimEnd(s: string): (r: string)
    ensures |r| <= |s| && r == s[..|r|]
    ensures r == [] || !IsJsSpace(r[|r| - 1])
    ensures AllSpace(s[|r|..])
  {
    if |s| > 0 && IsJsSpace(s[|s| - 1]) then
      var r := TrimEnd(s[..|s| - 1]);
      assert s[..|s| - 1][..|r|] == s[..|r|];
      assert s[|r|..] == s[..|s| - 1][|r|..] + [s[|s| - 1]];
      r
    else s
  }

  /** `s.trim()` */
  function Trim(s: string): string {
    TrimEnd(TrimStart(s))
  }

  /** A string is blank (`!s.trim()`) exactly when every character is white space. */
  lemma {:induction false} TrimStartAllSpace(s: string)
    requires AllSpace(s)
    ensures TrimStart(s) == ""
  {
    if |s| > 0 {
      TrimStartAllSpace(s[1..]);
    }
  }

  lemma TrimEmptyIffAllSpace(s: string)
    ensures Trim(s) == "" <==> AllSpace(s)
  {
    var t := TrimStart(s);
    if AllSpace(s) {
      TrimStartAllSpace(s);
    }
    if Trim(s) == "" {
      assert AllSpace(t[0..]);
      assert t == [];
      assert s[..|s| - |t|] == s;
    }
  }

  /** ASCII-only `toUpperCase` on one character. */
  function UpperChar(c: char): (d: char)
    ensures 'a' <= c <= 'z' ==> 'A' <= d <= 'Z'
    ensures !('a' <= c <= 'z') ==> d == c
  {
    if 'a' <= c <= 'z' then (c as int - 32) as char else c
  }

  /** ASCII-only `toLowerCase` on one character. */
  function LowerChar(c: char): (d: char)
    ensures 'A' <= c <= 'Z' ==> 'a' <= d <= 'z'
    ensures !('A' <= c <= 'Z') ==> d == c
  {
    if 'A' <= c <= 'Z' then (c as int + 32) as char else c
  }

  function Upper(s: string): (r: string)
    ensures |r| == |s| && forall k :: 0 <= k < |s| ==> r[k] == UpperChar(s[k])
  {
    seq(|s|, k requires 0 <= k < |s| => UpperChar(s[k]))
  }

  function Lower(s: string): (r: string)
    ensures |r| == |s| && forall k :: 0 <= k < |s| ==> r[k] == LowerChar(s[k])
  {
    seq(|s|, k requires 0 <= k < |s| => LowerChar(s[k]))
  }

  /** Upper-casing twice is upper-casing once. */
  lemma UpperIdempotent(s: string)
    ensures Upper(Upper(s)) == Upper(s)
  {
    forall k | 0 <= k < |s| ensures Upper(Upper(s))[k] == Upper(s)[k] {
      var c := s[k];
      if 'a' <= c <= 'z' {
        assert 'A' <= Upper(s)[k] <= 'Z';
      }
    }
  }

  /** `sub` occurs in `s` starting at `i`. */
  predicate OccursAt(s: string, sub: string, i: int) {
    0 <= i && i + |sub| <= |s| && s[i..i + |sub|] == sub
  }

  /** `s.includes(sub)` */
  predicate Includes(s: string, sub: string) {
    exists i | 0 <= i <= |s| :: OccursAt(s, sub, i)
  }

  lemma IncludesEmpty(s: string)
    ensures Includes(s, "")
  {
    assert OccursAt(s, "", 0);
  }

  lemma IncludesSelf(s: string)
    ensures Includes(s, s)
  {
    assert OccursAt(s, s, 0);
  }

  /** A string that contains `sub` is at least as long as `sub`, and only `sub` itself has the same length. */
  lemma IncludesLength(s: string, sub: string)
    requires Includes(s, sub)
    ensures |sub| <= |s|
    ensures |sub| == |s| ==> s == sub
  {
    var i :| 0 <= i <= |s| && OccursAt(s, sub, i);
    if |sub| == |s| { assert i == 0 && s[0..|s|] == s; }
  }

  /** `s.toLowerCase().includes(t.toLowerCase())`: the case-insensitive plate search used throughout. */
  predicate ContainsIgnoringCase(s: string, t: string) {
    Includes(Lower(s), Lower(t))
  }

  /** `a.toLowerCase() === b.toLowerCase()` */
  predicate EqualsIgnoringCase(a: string, b: string) {
    Lower(a) == Lower(b)
  }

  /** `s.startsWith(p)` */
  predicate StartsWith(s: string, p: string) {
    |p| <= |s| && s[..|p|] == p
  }

  /** `xs.join(sep)` */
  function Join(xs: seq<string>, sep: string): string {
    if |xs| == 0 then ""
    else if |xs| == 1 then xs[0]
    else xs[0] + sep + Join(xs[1..], sep)
  }

  /** Joining non-empty strings gives the empty string only for the empty list. */
  lemma JoinEmptyIff(xs: seq<string>, sep: string)
    requires forall k :: 0 <= k < |xs| ==> xs[k] != ""
    ensures Join(xs, sep) == "" <==> xs == []
  {
    if |xs| > 0 {
      assert |Join(xs, sep)| >= |xs[0]|;
    }
  }

  /** `s.length`: the number of UTF-16 code units (characters above U+FFFF count twice). */
  function JsLength(s: string): (n: nat)
    ensures |s| <= n <= 2 * |s|
  {
    if |s| == 0 then 0 else (if s[0] as int > 0xFFFF then 2 else 1) + JsLength(s[1..])
  }

  predicate AllBmp(s: string) {
    forall k :: 0 <= k < |s| ==> s[k] as int <= 0xFFFF
  }

  /** For text made of Basic Multilingual Plane characters the UTF-16 length is the character count. */
  lemma {:induction false} JsLengthBmp(s: string)
    requires AllBmp(s)
    ensures JsLength(s) == |s|
  {
    if |s| > 0 {
      assert s[0] as int <= 0xFFFF;
      JsLengthBmp(s[1..]);
    }
  }
}

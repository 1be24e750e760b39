/** The few JavaScript string built-ins the forms and the server rely on:
    what `\s` matches and `trim` removes, `length` in UTF-16 code units,
    `toUpperCase` on the ASCII letters that base-36 digits use. */
module JsText {
  import opened Wrappers

  /** ECMAScript WhiteSpace and LineTerminator code points. */
  predicate IsWhitespace(c: char) {
    || c == '\t' || c == '\n' || c == '\U{000B}' || c == '\U{000C}' || c == '\r'
    || c == ' ' || c == '\U{00A0}' || c == '\U{1680}'
    || ('\U{2000}' <= c <= '\U{200A}')
    || c == '\U{2028}' || c == '\U{2029}' || c == '\U{202F}' || c == '\U{205F}'
    || c == '\U{3000}' || c == '\U{FEFF}'
  }

  predicate AllWhitespace(s: string) {
    forall k :: 0 <= k < |s| ==> IsWhitespace(s[k])
  }

  predicate NoWhitespace(s: string) {
    forall k :: 0 <= k < |s| ==> !IsWhitespace(s[k])
  }

  /** A code point outside the Basic Multilingual Plane takes two UTF-16 code units. */
  predicate IsAstral(c: char) {
    c as int > 0xFFFF
  }

  /** `s.length`: the number of UTF-16 code units. */
  function JsLength(s: string): (n: nat)
    ensures |s| <= n <= 2 * |s|
  {
    if s == [] then 0
    else (if IsAstral(s[0]) then 2 else 1) + JsLength(s[1..])
  }

  /** `.length` counts the characters exactly when none lies outside the BMP. */
  lemma {:induction false} JsLengthCountsCharsIff(s: string)
    ensures JsLength(s) == |s| <==> forall k :: 0 <= k < |s| ==> !IsAstral(s[k])
  {
    if s != [] {
      JsLengthCountsCharsIff(s[1..]);
      assert forall k :: 1 <= k < |s| ==> s[k] == s[1..][k - 1];
    }
  }

  lemma {:induction false} JsLengthAppend(a: string, b: string)
    ensures JsLength(a + b) == JsLength(a) + JsLength(b)
  {
    if a == [] {
      assert a + b == b;
    } else {
      assert (a + b)[0] == a[0];
      assert (a + b)[1..] == a[1..] + b;
      JsLengthAppend(a[1..], b);
    }
  }

  /** `s.trimStart()`: drops the longest whitespace prefix. */
  function TrimStart(s: string): (r: string)
    ensures |r| <= |s| && r == s[|s| - |r|..]
    ensures AllWhitespace(s[..|s| - |r|])
    ensures r != [] ==> !IsWhitespace(r[0])
  {
    if s != [] && IsWhitespace(s[0]) then TrimStart(s[1..]) else s
  }

  /** `s.trimEnd()`: drops the longest whitespace suffix. */
  function TrimEnd(s: string): (r: string)
    ensures |r| <= |s| && r == s[..|r|]
    ensures AllWhitespace(s[|r|..])
    ensures r != [] ==> !IsWhitespace(r[|r| - 1])
  {
    if s != [] && IsWhitespace(s[|s| - 1]) then TrimEnd(s[..|s| - 1]) else s
  }

  /** `s.trim()`. */
  function Trim(s: string): string {
    TrimEnd(TrimStart(s))
  }

  /** Trimming leaves nothing exactly when the string is all whitespace. */
  lemma TrimEmptyIff(s: string)
    ensures Trim(s) == [] <==> AllWhitespace(s)
  {
    var t := TrimStart(s);
    if Trim(s) == [] {
      assert AllWhitespace(t[0..]);
      if t != [] {
        assert false;
      }
      assert s[..|s|] == s;
    } else {
      var r := Trim(s);
      assert !IsWhitespace(r[0]);
      assert r[0] == t[0] == s[|s| - |t|];
    }
  }

  /** The trimmed string is a slice of the input whose ends are not whitespace,
      and everything cut away is whitespace. */
  lemma TrimIsCore(s: string) returns (a: nat, r: string)
    ensures r == Trim(s)
    ensures a + |r| <= |s| && r == s[a..a + |r|]
    ensures forall k :: 0 <= k < a ==> IsWhitespace(s[k])
    ensures forall k :: a + |r| <= k < |s| ==> IsWhitespace(s[k])
    ensures r != [] ==> !IsWhitespace(s[a]) && !IsWhitespace(s[a + |r| - 1])
  {
    var t := TrimStart(s);
    r := TrimEnd(t);
    a := |s| - |t|;
    CoreOfSuffix(s, t, r);
  }

  /** A prefix `r` of a suffix `t` of `s`, with whitespace cut away on both
      sides, read back on `s`. */
  lemma CoreOfSuffix(s: string, t: string, r: string)
    requires |t| <= |s| && t == s[|s| - |t|..] && AllWhitespace(s[..|s| - |t|])
    requires |r| <= |t| && r == t[..|r|] && AllWhitespace(t[|r|..])
    requires t != [] ==> !IsWhitespace(t[0])
    requires r != [] ==> !IsWhitespace(r[|r| - 1])
    ensures var a := |s| - |t|;
      && r == s[a..a + |r|]
      && (forall k :: 0 <= k < a ==> IsWhitespace(s[k]))
      && (forall k :: a + |r| <= k < |s| ==> IsWhitespace(s[k]))
      && (r != [] ==> !IsWhitespace(s[a]) && !IsWhitespace(s[a + |r| - 1]))
  {
    var a := |s| - |t|;
    WhitespaceEnds(s, a, a + |r|);
    if r != [] {
      assert r[0] == t[0] == s[a];
      assert r[|r| - 1] == t[|r| - 1] == s[a + |r| - 1];
    }
  }

  /** What `TrimStart` and `TrimEnd` cut away, read back on the input. */
  lemma WhitespaceEnds(s: string, a: nat, b: nat)
    requires a <= b <= |s|
    requires AllWhitespace(s[..a]) && AllWhitespace(s[a..][b - a..])
    ensures forall k :: 0 <= k < a ==> IsWhitespace(s[k])
    ensures forall k :: b <= k < |s| ==> IsWhitespace(s[k])
  {
    forall k | 0 <= k < a ensures IsWhitespace(s[k]) {
      assert s[k] == s[..a][k];
    }
    forall k | b <= k < |s| ensures IsWhitespace(s[k]) {
      assert s[k] == s[a..][b - a..][k - b];
    }
  }

  /** `!x?.trim()` on an optional string: absent, empty, or whitespace only. */
  predicate IsBlank(x: Option<string>) {
    x.None? || Trim(x.value) == []
  }

  lemma BlankIff(x: Option<string>)
    ensures IsBlank(x) <==> (x.None? || AllWhitespace(x.value))
  {
    if x.Some? { TrimEmptyIff(x.value); }
  }

  /** Two non-whitespace characters, at positions i < j. */
  predicate HasTwoVisible(s: string) {
    exists i, j :: 0 <= i < j < |s| && !IsWhitespace(s[i]) && !IsWhitespace(s[j])
  }

  /** A non-whitespace character outside the BMP. */
  predicate HasAstralVisible(s: string) {
    exists i :: 0 <= i < |s| && !IsWhitespace(s[i]) && IsAstral(s[i])
  }

  /** Trimmed `length` reaches 2 exactly when the string holds two non-whitespace
      characters, or one non-whitespace character outside the BMP. */
  lemma TrimmedLengthAtLeastTwo(s: string)
    ensures JsLength(Trim(s)) >= 2 <==> HasTwoVisible(s) || HasAstralVisible(s)
  {
    var a, r := TrimIsCore(s);
    if JsLength(r) >= 2 {
      LongCoreHasVisible(s, a, r);
    }
    if HasTwoVisible(s) {
      TwoVisibleInCore(s, a, r);
    }
    if HasAstralVisible(s) {
      AstralInCore(s, a, r);
    }
  }

  /** The lemmas below speak of a slice `r` of `s` at `a` outside which
      everything is whitespace, as `TrimIsCore` gives for `Trim(s)`. */
  lemma TwoVisibleInCore(s: string, a: nat, r: string)
    requires a + |r| <= |s| && r == s[a..a + |r|]
    requires forall k :: 0 <= k < a ==> IsWhitespace(s[k])
    requires forall k :: a + |r| <= k < |s| ==> IsWhitespace(s[k])
    requires HasTwoVisible(s)
    ensures JsLength(r) >= 2
  {
    var i, j :| 0 <= i < j < |s| && !IsWhitespace(s[i]) && !IsWhitespace(s[j]);
    assert a <= i && j < a + |r|;
  }

  lemma AstralInCore(s: string, a: nat, r: string)
    requires a + |r| <= |s| && r == s[a..a + |r|]
    requires forall k :: 0 <= k < a ==> IsWhitespace(s[k])
    requires forall k :: a + |r| <= k < |s| ==> IsWhitespace(s[k])
    requires HasAstralVisible(s)
    ensures JsLength(r) >= 2
  {
    var i :| 0 <= i < |s| && !IsWhitespace(s[i]) && IsAstral(s[i]);
    assert a <= i < a + |r|;
    assert r[i - a] == s[i];
    JsLengthAtLeastAstral(r, i - a);
  }

  lemma LongCoreHasVisible(s: string, a: nat, r: string)
    requires a + |r| <= |s| && r == s[a..a + |r|]
    requires r != [] ==> !IsWhitespace(s[a]) && !IsWhitespace(s[a + |r| - 1])
    requires JsLength(r) >= 2
    ensures HasTwoVisible(s) || HasAstralVisible(s)
  {
    if |r| >= 2 {
      assert !IsWhitespace(s[a]) && !IsWhitespace(s[a + |r| - 1]);
      assert HasTwoVisible(s);
    } else {
      assert r[0] == s[a];
      assert r[1..] == [];
      assert IsAstral(r[0]);
      assert HasAstralVisible(s);
    }
  }

  lemma {:induction false} JsLengthAtLeastAstral(s: string, k: nat)
    requires k < |s| && IsAstral(s[k])
    ensures JsLength(s) >= 2
  {
    if k > 0 { JsLengthAtLeastAstral(s[1..], k - 1); }
  }

  /** `toUpperCase` on one character, for the ASCII letters. */
  function AsciiUpper(c: char): (u: char)
    ensures 'a' <= c <= 'z' ==> u as int == c as int - 32
    ensures !('a' <= c <= 'z') ==> u == c
  {
    if 'a' <= c <= 'z' then (c as int - 32) as char else c
  }

  /** `s.toUpperCase()` for strings whose letters are ASCII. */
  function ToUpperCase(s: string): (r: string)
    ensures |r| == |s|
    ensures forall k :: 0 <= k < |s| ==> r[k] == AsciiUpper(s[k])
  {
    seq(|s|, k requires 0 <= k < |s| => AsciiUpper(s[k]))
  }

  predicate HasNoLowerAscii(s: string) {
    forall k :: 0 <= k < |s| ==> !('a' <= s[k] <= 'z')
  }

  /** How many times `c` occurs in `s`. */
  function CountOf(s: string, c: char): (n: nat)
    ensures n <= |s|
    ensures n == 0 <==> c !in s
  {
    if s == [] then 0 else (if s[0] == c then 1 else 0) + CountOf(s[1..], c)
  }

  lemma {:induction false} CountOfAppend(a: string, b: string, c: char)
    ensures CountOf(a + b, c) == CountOf(a, c) + CountOf(b, c)
  {
    if a == [] {
      assert a + b == b;
    } else {
      assert (a + b)[0] == a[0];
      assert (a + b)[1..] == a[1..] + b;
      CountOfAppend(a[1..], b, c);
    }
  }

  /** `s.indexOf(c)`, with `|s|` standing for "not found" (JavaScript's -1). */
  function IndexOf(s: string, c: char): (k: nat)
    ensures k <= |s|
    ensures k < |s| ==> s[k] == c
    ensures c !in s[..k]
  {
    if s == [] then 0
    else if s[0] == c then 0
    else
      var k := IndexOf(s[1..], c);
      assert s[..k + 1] == [s[0]] + s[1..][..k];
      1 + k
  }

  /** The first occurrence is the one with no earlier occurrence. */
  lemma IndexOfIs(s: string, c: char, i: nat)
    requires i < |s| && s[i] == c && c !in s[..i]
    ensures IndexOf(s, c) == i
  {

  }

  /** `s.replace(from, to)` with a one-character pattern: only the first
      occurrence is replaced. */
  function ReplaceFirst(s: string, from: char, to: char): (r: string)
    ensures |r| == |s|
    ensures from !in s ==> r == s
    ensures from in s ==> var k := IndexOf(s, from);
      r[k] == to && forall m :: 0 <= m < |s| && m != k ==> r[m] == s[m]
  {
    var k := IndexOf(s, from);
    if k == |s| then s else s[..k] + [to] + s[k + 1..]
  }

  /** `xs.join(sep)`. */
  function Join(xs: seq<string>, sep: string): string {
    if |xs| == 0 then ""
    else if |xs| == 1 then xs[0]
    else xs[0] + sep + Join(xs[1..], sep)
  }

  /** Cuts `s` at every `,` and drops the one character after each cut: the
      inverse of joining with `", "`. */
  function SplitCommaSpace(s: string): seq<string>
    decreases |s|
  {
    var k := IndexOf(s, ',');
    if k == |s| then [s]
    else [s[..k]] + SplitCommaSpace(s[if k + 2 <= |s| then k + 2 else |s|..])
  }

  /** Items free of commas are recovered from their `", "` join. */
  lemma {:induction false} SplitJoinRoundTrip(xs: seq<string>)
    requires |xs| >= 1
    requires forall k :: 0 <= k < |xs| ==> ',' !in xs[k]
    ensures SplitCommaSpace(Join(xs, ", ")) == xs
  {
    if |xs| == 1 {
      assert xs[0][..|xs[0]|] == xs[0];
      assert IndexOf(xs[0], ',') == |xs[0]|;
    } else {
      var rest := Join(xs[1..], ", ");
      var s := xs[0] + ", " + rest;
      assert s[..|xs[0]|] == xs[0];
      IndexOfIs(s, ',', |xs[0]|);
      assert s[|xs[0]| + 2..] == rest;
      SplitJoinRoundTrip(xs[1..]);
      assert xs == [xs[0]] + xs[1..];
    }
  }
}

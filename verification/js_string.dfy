/** The few operations of JavaScript strings the site relies on: `length`,
    `trim`, `indexOf` (for one character and for a pattern) and
    `substring(0, n)`. A string is a sequence of Unicode scalar values;
    JavaScript measures it in UTF-16 code units, where a character beyond
    U+FFFF takes two. */
module JsString {

  /** ECMAScript's WhiteSpace and LineTerminator characters, the set that
      `String.prototype.trim` strips from both ends. */
  predicate IsWhiteSpace(c: char) {
    || c == '\t' || c == '\n' || c == '\U{000B}' || c == '\U{000C}' || c == '\r'
    || c == ' ' || c == '\U{00A0}' || c == '\U{1680}'
    || ('\U{2000}' <= c <= '\U{200A}')
    || c == '\U{2028}' || c == '\U{2029}' || c == '\U{202F}' || c == '\U{205F}'
    || c == '\U{3000}' || c == '\U{FEFF}'
  }

  predicate AllSpace(s: string) {
    forall k :: 0 <= k < |s| ==> IsWhiteSpace(s[k])
  }

  /** Neither end of `s` is white space (vacuously so for the empty string). */
  predicate NoEdgeSpace(s: string) {
    |s| == 0 || (!IsWhiteSpace(s[0]) && !IsWhiteSpace(s[|s| - 1]))
  }

  /** `r` sits at offset `i` of `s` with only white space around it. */
  ghost predicate PaddedAt(s: string, r: string, i: int) {
    && 0 <= i <= |s| - |r|
    && s[i..i + |r|] == r
    && AllSpace(s[..i])
    && AllSpace(s[i + |r|..])
  }

  /** `s` without its leading white space. */
  function TrimStart(s: string): string {
    if |s| > 0 && IsWhiteSpace(s[0]) then TrimStart(s[1..]) else s
  }

  /** `s` without its trailing white space. */
  function TrimEnd(s: string): string {
    if |s| > 0 && IsWhiteSpace(s[|s| - 1]) then TrimEnd(s[..|s| - 1]) else s
  }

  /** `String.prototype.trim`: `s` without the white space at either end. */
  function Trim(s: string): string {
    TrimEnd(TrimStart(s))
  }

  /** `TrimStart` drops exactly the leading run of white space. */
  lemma {:induction false} TrimStartSplit(s: string) returns (n: nat)
    ensures n <= |s| && TrimStart(s) == s[n..]
    ensures AllSpace(s[..n])
    ensures n < |s| ==> !IsWhiteSpace(s[n])
  {
    if |s| > 0 && IsWhiteSpace(s[0]) {
      var m := TrimStartSplit(s[1..]);
      n := m + 1;
      assert s[1..][m..] == s[n..];
      assert s[..n] == [s[0]] + s[1..][..m];
    } else {
      n := 0;
    }
  }

  /** `TrimEnd` drops exactly the trailing run of white space. */
  lemma {:induction false} TrimEndSplit(s: string) returns (n: nat)
    ensures n <= |s| && TrimEnd(s) == s[..n]
    ensures AllSpace(s[n..])
    ensures 0 < n ==> !IsWhiteSpace(s[n - 1])
    decreases |s|
  {
    if |s| > 0 && IsWhiteSpace(s[|s| - 1]) {
      var t := s[..|s| - 1];
      n := TrimEndSplit(t);
      assert t[..n] == s[..n];
      assert s[n..] == t[n..] + [s[|s| - 1]];
    } else {
      n := |s|;
    }
  }

  /** What `Trim` produces: a core without edge space that `s` pads with
      white space on both sides. */
  lemma TrimDecomposes(s: string) returns (i: nat)
    ensures NoEdgeSpace(Trim(s))
    ensures PaddedAt(s, Trim(s), i)
  {
    i := TrimStartSplit(s);
    var t := s[i..];
    var n := TrimEndSplit(t);
    var r := Trim(s);
    assert r == t[..n];
    assert s[i..i + |r|] == r;
    assert s[i + |r|..] == t[n..];
    if |r| > 0 {
      assert r[0] == s[i];
    }
  }

  /** Index-level reading of `PaddedAt`. */
  lemma PaddedFacts(s: string, x: string, i: int)
    requires PaddedAt(s, x, i)
    ensures forall k :: 0 <= k < i ==> IsWhiteSpace(s[k])
    ensures forall k :: i + |x| <= k < |s| ==> IsWhiteSpace(s[k])
    ensures forall k :: 0 <= k < |x| ==> s[i + k] == x[k]
  {
    forall k | 0 <= k < i ensures IsWhiteSpace(s[k]) {
      assert s[k] == s[..i][k];
    }
    forall k | i + |x| <= k < |s| ensures IsWhiteSpace(s[k]) {
      assert s[k] == s[i + |x|..][k - i - |x|];
    }
    forall k | 0 <= k < |x| ensures s[i + k] == x[k] {
      assert s[i + k] == s[i..i + |x|][k];
    }
  }

  /** The trimmed value is the only core without edge space that `s` pads:
      whatever surrounds `x` with white space trims back to `x`. */
  lemma TrimCharacterized(s: string, x: string, i: int)
    requires PaddedAt(s, x, i) && NoEdgeSpace(x)
    ensures Trim(s) == x
  {
    var r := Trim(s);
    var j := TrimDecomposes(s);
    PaddedFacts(s, x, i);
    PaddedFacts(s, r, j);
    if |x| == 0 {
      assert AllSpace(s);
      assert |r| == 0;
    } else {
      assert s[i + 0] == x[0];
      assert 0 < |r|;
      // Both cores start at the first non-space character of `s` ...
      assert s[i + 0] == x[0] && s[j + 0] == r[0];
      assert i == j;
      // ... and end at its last non-space character.
      assert s[i + (|x| - 1)] == x[|x| - 1] && s[j + (|r| - 1)] == r[|r| - 1];
      assert |r| == |x|;
      assert r == s[i..i + |x|];
    }
  }

  /** Trimming is idempotent. */
  lemma TrimIdempotent(s: string)
    ensures Trim(Trim(s)) == Trim(s)
  {
    var r := Trim(s);
    var _ := TrimDecomposes(s);
    assert r[0..0 + |r|] == r;
    assert PaddedAt(r, r, 0);
    TrimCharacterized(r, r, 0);
  }

  /** White space added around a string never changes what it trims to. */
  lemma TrimIgnoresPadding(pre: string, t: string, post: string)
    requires AllSpace(pre) && AllSpace(post)
    ensures Trim(pre + t + post) == Trim(t)
  {
    var r := Trim(t);
    var i := TrimDecomposes(t);
    var s := pre + t + post;
    assert s[|pre| + i..|pre| + i + |r|] == t[i..i + |r|];
    assert s[..|pre| + i] == pre + t[..i];
    assert s[|pre| + i + |r|..] == t[i + |r|..] + post;
    assert PaddedAt(s, r, |pre| + i);
    TrimCharacterized(s, r, |pre| + i);
  }

  /** `s.indexOf(c)`: the index of the first `c` in `s`, or -1. */
  function IndexOf(s: string, c: char): (r: int)
    ensures -1 <= r < |s|
    ensures r == -1 <==> c !in s
    ensures 0 <= r ==> s[r] == c && c !in s[..r]
  {
    if |s| == 0 then -1
    else if s[0] == c then 0
    else
      var k := IndexOf(s[1..], c);
      if k == -1 then -1
      else
        assert s[..k + 1] == [s[0]] + s[1..][..k];
        k + 1
  }

  /** `pat` occurs in `s` starting at index `i`. */
  predicate OccursAt(s: string, pat: string, i: nat) {
    i + |pat| <= |s| && s[i..i + |pat|] == pat
  }

  ghost predicate Contains(s: string, pat: string) {
    exists i: nat :: OccursAt(s, pat, i)
  }

  /** `s.indexOf(pat)`: the first index at which `pat` occurs in `s`, or -1. */
  function IndexOfSubstring(s: string, pat: string): (r: int)
    ensures -1 <= r
    ensures r == -1 <==> !Contains(s, pat)
    ensures 0 <= r ==> OccursAt(s, pat, r) && forall i: nat :: i < r ==> !OccursAt(s, pat, i)
  {
    SearchFrom(s, pat, 0)
  }

  function SearchFrom(s: string, pat: string, k: nat): (r: int)
    requires forall i: nat :: i < k ==> !OccursAt(s, pat, i)
    ensures -1 <= r
    ensures r == -1 <==> !Contains(s, pat)
    ensures 0 <= r ==> k <= r && OccursAt(s, pat, r) && forall i: nat :: i < r ==> !OccursAt(s, pat, i)
    decreases |s| - k
  {
    if k + |pat| > |s| then
      assert forall i: nat :: !OccursAt(s, pat, i) by {
        forall i: nat ensures !OccursAt(s, pat, i) {
          if i >= k { assert i + |pat| > |s|; }
        }
      }
      -1
    else if s[k..k + |pat|] == pat then
      assert OccursAt(s, pat, k);
      k
    else SearchFrom(s, pat, k + 1)
  }

  /** The UTF-16 code units of one character. */
  function CodeUnits(c: char): nat {
    if c as int >= 0x1_0000 then 2 else 1
  }

  /** `s.length`: the number of UTF-16 code units of `s`. */
  function Length(s: string): (n: nat)
    ensures |s| <= n <= 2 * |s|
  {
    if s == [] then 0 else CodeUnits(s[0]) + Length(s[1..])
  }

  /** JavaScript lengths add up over concatenation. */
  lemma {:induction false} LengthAppend(a: string, b: string)
    ensures Length(a + b) == Length(a) + Length(b)
    decreases |a|
  {
    if a == [] {
      assert a + b == b;
    } else {
      assert (a + b)[1..] == a[1..] + b;
      LengthAppend(a[1..], b);
    }
  }

  /** Without characters beyond U+FFFF, the JavaScript length is the number
      of characters. */
  lemma {:induction false} BmpLength(s: string)
    requires forall k :: 0 <= k < |s| ==> s[k] as int < 0x1_0000
    ensures Length(s) == |s|
    decreases |s|
  {
    if s != [] {
      BmpLength(s[1..]);
    }
  }

  /** `s.substring(0, n)` for `n >= 0`: the longest prefix of `s` that fits
      in `n` code units, all of `s` when it fits. */
  function Prefix(s: string, n: nat): (r: string)
    ensures r <= s
    ensures Length(r) <= n
    ensures |r| < |s| ==> Length(r) + CodeUnits(s[|r|]) > n
    ensures Length(s) <= n ==> r == s
    decreases |s|
  {
    if s == [] || CodeUnits(s[0]) > n then
      []
    else
      var t := Prefix(s[1..], n - CodeUnits(s[0]));
      [s[0]] + t
  }
}

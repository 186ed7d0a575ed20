/** What the browser stores when a script assigns `location.hash`: the
    fragment state of the WHATWG URL Standard. ASCII tab and newline
    characters are removed; every character of the fragment percent-encode
    set (C0 controls, space, `"`, `<`, `>`, backtick and everything beyond
    U+007E) is replaced by the `%XX` escapes of its UTF-8 bytes, with
    upper-case hex digits; all other characters are kept. The getter hands
    the stored form back unchanged. */
module UrlFragment {

  /** A character the fragment keeps as it is: printable ASCII other than
      space, `"`, `<`, `>` and backtick. */
  predicate SafeChar(c: char) {
    '!' <= c <= '~' && c != '"' && c != '<' && c != '>' && c != '`'
  }

  predicate Safe(s: string) {
    forall k :: 0 <= k < |s| ==> SafeChar(s[k])
  }

  /** ASCII tab, line feed and carriage return: dropped by the parser. */
  predicate Dropped(c: char) {
    c == '\t' || c == '\n' || c == '\r'
  }

  /** The UTF-8 bytes of one character. */
  function Utf8(c: char): (bytes: seq<nat>)
    ensures 1 <= |bytes| <= 4
    ensures forall k :: 0 <= k < |bytes| ==> bytes[k] < 256
  {
    var n := c as int;
    if n < 0x80 then [n]
    else if n < 0x800 then [0xC0 + n / 64, 0x80 + n % 64]
    else if n < 0x1_0000 then [0xE0 + n / 4096, 0x80 + (n / 64) % 64, 0x80 + n % 64]
    else [0xF0 + n / 262144, 0x80 + (n / 4096) % 64, 0x80 + (n / 64) % 64, 0x80 + n % 64]
  }

  const HexDigits: string := "0123456789ABCDEF"

  /** `%XX` for one byte. */
  function Escape(b: nat): (r: string)
    requires b < 256
    ensures |r| == 3 && r[0] == '%' && Safe(r)
  {
    ['%', HexDigits[b / 16], HexDigits[b % 16]]
  }

  function EscapeAll(bytes: seq<nat>): (r: string)
    requires forall k :: 0 <= k < |bytes| ==> bytes[k] < 256
    ensures |r| == 3 * |bytes| && Safe(r)
  {
    if bytes == [] then [] else Escape(bytes[0]) + EscapeAll(bytes[1..])
  }

  /** What one character of the assigned value becomes in the fragment. */
  function EncodeChar(c: char): (r: string)
    ensures Safe(r)
    ensures SafeChar(c) ==> r == [c]
    ensures !SafeChar(c) && !Dropped(c) ==> |r| >= 3 && r[0] == '%'
  {
    if Dropped(c) then []
    else if SafeChar(c) then [c]
    else EscapeAll(Utf8(c))
  }

  /** The fragment the browser stores for the value `s`. */
  function Encode(s: string): string {
    if s == [] then [] else EncodeChar(s[0]) + Encode(s[1..])
  }

  /** Whatever is assigned, the stored fragment holds only safe characters. */
  lemma {:induction false} EncodeIsSafe(s: string)
    ensures Safe(Encode(s))
    decreases |s|
  {
    if s != [] {
      EncodeIsSafe(s[1..]);
      var a, b := EncodeChar(s[0]), Encode(s[1..]);
      forall k | 0 <= k < |a + b| ensures SafeChar((a + b)[k]) {
        if k >= |a| {
          assert (a + b)[k] == b[k - |a|];
        }
      }
    }
  }

  /** A value made of safe characters is stored as it is. */
  lemma {:induction false} EncodeKeepsSafe(s: string)
    requires Safe(s)
    ensures Encode(s) == s
    decreases |s|
  {
    if s != [] {
      EncodeKeepsSafe(s[1..]);
      assert s == [s[0]] + s[1..];
    }
  }

  /** The stored fragment equals the assigned value exactly when the value
      is made of safe characters; so encoding a second time changes
      nothing. */
  lemma EncodeFixedPoints(s: string)
    ensures Safe(Encode(s))
    ensures Encode(s) == s <==> Safe(s)
    ensures Encode(Encode(s)) == Encode(s)
  {
    EncodeIsSafe(s);
    if Safe(s) {
      EncodeKeepsSafe(s);
    }
    EncodeKeepsSafe(Encode(s));
  }

  /** A name with a non-ASCII letter comes back escaped: `ş` is U+015F,
      UTF-8 C5 9F. */
  lemma EncodeSample()
    ensures Encode("ileti\U{015F}im") == "ileti%C5%9Fim"
  {
    var c := '\U{015F}';
    var pre, post := "ileti", "im";
    var mid := [c] + post;
    assert Encode(mid) == "%C5%9F" + post by {
      EscapeSample();
      EncodeKeepsSafe(post);
      EncodeAppend([c], post);
      assert Encode([c]) == EncodeChar(c) + Encode([]);
    }
    assert Encode(pre + mid) == pre + Encode(mid) by {
      EncodeKeepsSafe(pre);
      EncodeAppend(pre, mid);
    }
    assert "ileti\U{015F}im" == pre + mid;
    assert pre + ("%C5%9F" + post) == "ileti%C5%9Fim";
  }

  /** A space is escaped and a tab disappears. */
  lemma EncodeSpaceAndTab()
    ensures Encode("a b") == "a%20b"
    ensures Encode("a\tb") == "ab"
  {
    assert EncodeChar(' ') == "%20" by {
      assert Utf8(' ') == [0x20];
      assert EscapeAll([0x20]) == Escape(0x20) + EscapeAll([]);
    }
    EncodeKeepsSafe("a");
    EncodeKeepsSafe("b");
    EncodeAppend("a", [' '] + "b");
    EncodeAppend([' '], "b");
    assert "a b" == "a" + ([' '] + "b");
    assert Encode([' ']) == EncodeChar(' ') + Encode([]);
    EncodeAppend("a", ['\t'] + "b");
    EncodeAppend(['\t'], "b");
    assert "a\tb" == "a" + (['\t'] + "b");
    assert Encode(['\t']) == EncodeChar('\t') + Encode([]);
  }

  /** The escapes of U+015F. */
  lemma EscapeSample()
    ensures EncodeChar('\U{015F}') == "%C5%9F"
  {
    assert Utf8('\U{015F}') == [0xC5, 0x9F];
    assert Escape(0xC5) == "%C5";
    assert Escape(0x9F) == "%9F";
    assert EscapeAll([0xC5, 0x9F]) == Escape(0xC5) + EscapeAll([0x9F]);
    assert [0xC5, 0x9F][1..] == [0x9F];
    assert EscapeAll([0x9F]) == Escape(0x9F) + EscapeAll([]);
  }

  /** Encoding works character by character. */
  lemma {:induction false} EncodeAppend(a: string, b: string)
    ensures Encode(a + b) == Encode(a) + Encode(b)
    decreases |a|
  {
    if a == [] {
      assert a + b == b;
    } else {
      assert (a + b)[0] == a[0];
      assert (a + b)[1..] == a[1..] + b;
      EncodeAppend(a[1..], b);
    }
  }
}

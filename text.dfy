/**
 * Text handling the driver relies on: bytes on the wire, ASCII encoding and
 * decoding with undecodable bytes dropped, and the behaviour of Python's
 * `str.strip()`, `str.split('\n')` and `int()` restricted to ASCII text.
 */
module Text {

  /** An octet as it travels over the TCP connection. */
  type byte = b: int | 0 <= b < 256

  predicate IsAscii(s: string) {
    forall i :: 0 <= i < |s| ==> s[i] as int < 128
  }

  /** `str.encode("ascii")` for a string that is ASCII. */
  function Encode(s: string): (b: seq<byte>)
    requires IsAscii(s)
    ensures |b| == |s|
  {
    if s == [] then [] else [s[0] as int as byte] + Encode(s[1..])
  }

  /** `bytes.decode('ascii', errors='ignore')`: every byte above 127 is dropped. */
  function Decode(b: seq<byte>): (s: string)
    ensures IsAscii(s) && |s| <= |b|
  {
    if b == [] then []
    else (if b[0] < 128 then [b[0] as char] else []) + Decode(b[1..])
  }

  lemma {:induction false} DecodeEncode(s: string)
    requires IsAscii(s)
    ensures Decode(Encode(s)) == s
  {
    if s != [] {
      assert IsAscii(s[1..]);
      DecodeEncode(s[1..]);
      assert Encode(s) == [s[0] as int as byte] + Encode(s[1..]);
      assert Encode(s)[1..] == Encode(s[1..]);
    }
  }

  /** Decoding chunk by chunk gives the same text as decoding their concatenation. */
  lemma {:induction false} DecodeAppend(a: seq<byte>, b: seq<byte>)
    ensures Decode(a + b) == Decode(a) + Decode(b)
  {
    if a == [] {
      assert a + b == b;
    } else {
      assert (a + b)[1..] == a[1..] + b;
      DecodeAppend(a[1..], b);
    }
  }

  /** `errors='ignore'`: a byte above 127 anywhere in the input leaves no trace in the text. */
  lemma HighByteDropped(a: seq<byte>, b: byte, c: seq<byte>)
    requires b >= 128
    ensures Decode(a + [b] + c) == Decode(a + c)
  {
    DecodeAppend(a + [b], c);
    DecodeAppend(a, [b]);
    DecodeAppend(a, c);
    assert Decode([b]) == [] by { assert [b][1..] == []; }
  }

  /** The concatenation of a sequence of chunks (`b''.join` / `''.join`). */
  function Flatten<T>(parts: seq<seq<T>>): (r: seq<T>)
    ensures parts == [] ==> r == []
    ensures |parts| == 1 ==> r == parts[0]
  {
    if parts == [] then []
    else
      assert |parts| == 1 ==> parts[..0] == [];
      Flatten(parts[..|parts| - 1]) + parts[|parts| - 1]
  }

  /** Joining two runs of chunks is joining each run and concatenating the results. */
  lemma {:induction false} FlattenAppend<T>(a: seq<seq<T>>, b: seq<seq<T>>)
    ensures Flatten(a + b) == Flatten(a) + Flatten(b)
    decreases |b|
  {
    if b == [] {
      assert a + b == a;
    } else {
      var n := |b| - 1;
      assert (a + b)[..|a + b| - 1] == a + b[..n];
      assert (a + b)[|a + b| - 1] == b[n];
      FlattenAppend(a, b[..n]);
    }
  }

  /** Each chunk decoded on its own, in order. */
  function DecodeEach(chunks: seq<seq<byte>>): (r: seq<string>)
    ensures |r| == |chunks|
  {
    if chunks == [] then [] else DecodeEach(chunks[..|chunks| - 1]) + [Decode(chunks[|chunks| - 1])]
  }

  lemma {:induction false} DecodeFlatten(chunks: seq<seq<byte>>)
    ensures Flatten(DecodeEach(chunks)) == Decode(Flatten(chunks))
  {
    if chunks != [] {
      var n := |chunks| - 1;
      DecodeFlatten(chunks[..n]);
      var d := DecodeEach(chunks);
      assert d[..|d| - 1] == DecodeEach(chunks[..n]);
      DecodeAppend(Flatten(chunks[..n]), chunks[n]);
    }
  }

  // ---------------------------------------------------------------- whitespace

  /** Python's `str.isspace()` on ASCII: tab, line feed, vertical tab, form feed,
      carriage return, the four separators 0x1C-0x1F and the space. */
  predicate IsSpace(c: char) {
    c == ' ' || 9 <= c as int <= 13 || 28 <= c as int <= 31
  }

  predicate AllSpace(s: string) {
    forall i :: 0 <= i < |s| ==> IsSpace(s[i])
  }

  /** `str.lstrip()`: drops the leading whitespace and nothing else. */
  function TrimStart(s: string): (r: string)
    ensures |r| <= |s| && r == s[|s| - |r|..]
    ensures AllSpace(s[..|s| - |r|])
    ensures r == [] || !IsSpace(r[0])
  {
    if s != [] && IsSpace(s[0]) then
      var r := TrimStart(s[1..]);
      assert s[..|s| - |r|] == [s[0]] + s[1..][..|s| - 1 - |r|];
      r
    else s
  }

  /** `str.rstrip()`: drops the trailing whitespace and nothing else. */
  function TrimEnd(s: string): (r: string)
    ensures |r| <= |s| && r == s[..|r|]
    ensures AllSpace(s[|r|..])
    ensures r == [] || !IsSpace(r[|r| - 1])
  {
    if s != [] && IsSpace(s[|s| - 1]) then
      var r := TrimEnd(s[..|s| - 1]);
      assert s[|r|..] == s[..|s| - 1][|r|..] + [s[|s| - 1]];
      r
    else s
  }

  /** `r` is `s` with a run of whitespace cut from either end and neither end of `r` blank. */
  ghost predicate IsStripOf(r: string, s: string) {
    && (exists i :: StripsAt(r, s, i))
    && (r == [] || (!IsSpace(r[0]) && !IsSpace(r[|r| - 1])))
  }

  /** `str.strip()`. */
  function Strip(s: string): (r: string)
    ensures IsStripOf(r, s)
  {
    var t := TrimStart(s);
    var r := TrimEnd(t);
    TrimsCompose(s, t, r);
    r
  }

  /**
   * A whitespace-led suffix `t` of `s` with a non-blank start, then a
   * whitespace-trailed prefix `r` of `t` with a non-blank end, is a strip of `s`.
   */
  lemma TrimsCompose(s: string, t: string, r: string)
    requires |t| <= |s| && t == s[|s| - |t|..] && AllSpace(s[..|s| - |t|])
    requires t == [] || !IsSpace(t[0])
    requires |r| <= |t| && r == t[..|r|] && AllSpace(t[|r|..])
    requires r == [] || !IsSpace(r[|r| - 1])
    ensures StripsAt(r, s, |s| - |t|)
    ensures r == [] || (!IsSpace(r[0]) && !IsSpace(r[|r| - 1]))
  {
    var i := |s| - |t|;
    assert r == s[i..i + |r|];
    assert s[i + |r|..] == t[|r|..];
    assert r != [] ==> r[0] == t[0];
  }

  lemma SpaceInPrefix(s: string, i: int, k: int)
    ensures 0 <= k < i <= |s| && AllSpace(s[..i]) ==> IsSpace(s[k])
  {
    if 0 <= k < i <= |s| { assert s[..i][k] == s[k]; }
  }

  lemma SpaceInSuffix(s: string, j: int, k: int)
    ensures 0 <= j <= k < |s| && AllSpace(s[j..]) ==> IsSpace(s[k])
  {
    if 0 <= j <= k < |s| { assert s[j..][k - j] == s[k]; }
  }

  /** `r` sits at offset `i` of `s`, with only whitespace around it. */
  predicate StripsAt(r: string, s: string, i: int) {
    0 <= i <= |s| - |r| && r == s[i..i + |r|] && AllSpace(s[..i]) && AllSpace(s[i + |r|..])
  }

  lemma StripAtSameStart(r1: string, r2: string, s: string, i1: int, i2: int)
    requires StripsAt(r1, s, i1) && StripsAt(r2, s, i2)
    requires r1 != [] && r2 != [] && !IsSpace(r1[0]) && !IsSpace(r2[0])
    ensures i1 == i2
  {
    assert r1[0] == s[i1] && r2[0] == s[i2];
    SpaceInPrefix(s, i2, i1);
    SpaceInPrefix(s, i1, i2);
  }

  lemma StripAtSameEnd(r1: string, r2: string, s: string, i: int)
    requires StripsAt(r1, s, i) && StripsAt(r2, s, i)
    requires r1 != [] && r2 != [] && !IsSpace(r1[|r1| - 1]) && !IsSpace(r2[|r2| - 1])
    ensures r1 == r2
  {
    var e1, e2 := i + |r1|, i + |r2|;
    assert r1[|r1| - 1] == s[e1 - 1] && r2[|r2| - 1] == s[e2 - 1];
    SpaceInSuffix(s, e1, e2 - 1);
    SpaceInSuffix(s, e2, e1 - 1);
  }

  lemma StripAtEmpty(r1: string, r2: string, s: string, i1: int, i2: int)
    requires StripsAt(r1, s, i1) && StripsAt(r2, s, i2) && r1 == []
    requires r2 == [] || !IsSpace(r2[0])
    ensures r2 == []
  {
    if r2 != [] {
      assert r2[0] == s[i2];
      SpaceInPrefix(s, i1, i2);
      SpaceInSuffix(s, i1, i2);
    }
  }

  /** The stripped text is determined by the definition: there is only one strip of a string. */
  lemma {:induction false} StripUnique(r1: string, r2: string, s: string)
    requires IsStripOf(r1, s) && IsStripOf(r2, s)
    ensures r1 == r2
  {
    var i1 :| StripsAt(r1, s, i1);
    var i2 :| StripsAt(r2, s, i2);
    if r1 == [] {
      StripAtEmpty(r1, r2, s, i1, i2);
    } else if r2 == [] {
      StripAtEmpty(r2, r1, s, i2, i1);
    } else {
      StripAtSameStart(r1, r2, s, i1, i2);
      StripAtSameEnd(r1, r2, s, i1);
    }
  }

  /** Stripping twice changes nothing more. */
  lemma StripIdempotent(s: string)
    ensures Strip(Strip(s)) == Strip(s)
  {
    var r := Strip(s);
    assert IsStripOf(r, r) by {
      assert StripsAt(r, r, 0);
    }
    StripUnique(Strip(r), r, r);
  }

  /** A string with no whitespace at either end strips to itself. */
  lemma StripTrimmed(s: string)
    requires s == [] || (!IsSpace(s[0]) && !IsSpace(s[|s| - 1]))
    ensures Strip(s) == s
  {
    assert StripsAt(s, s, 0);
    StripUnique(Strip(s), s, s);
  }

  /** Stripping ASCII text leaves ASCII text. */
  lemma StripAscii(s: string)
    requires IsAscii(s)
    ensures IsAscii(Strip(s))
  {
    var r := Strip(s);
    var i :| StripsAt(r, s, i);
    forall k | 0 <= k < |r|
      ensures r[k] as int < 128
    {
      assert r[k] == s[i + k];
    }
  }

  lemma StripChars(s: string, c: char)
    ensures c in Strip(s) ==> c in s
  {
    var r := Strip(s);
    var i :| StripsAt(r, s, i);
    if c in r {
      var k :| 0 <= k < |r| && r[k] == c;
      assert s[i + k] == c;
    }
  }

  // ---------------------------------------------------------------- lines

  /** Joins lines with '\n' between them; the inverse of `SplitLines`. */
  function JoinLines(lines: seq<string>): string
  {
    if lines == [] then []
    else if |lines| == 1 then lines[0]
    else lines[0] + "\n" + JoinLines(lines[1..])
  }

  /** `str.split('\n')`: the pieces between line feeds, always at least one. */
  function SplitLines(s: string): (lines: seq<string>)
    ensures |lines| >= 1
    ensures forall i :: 0 <= i < |lines| ==> '\n' !in lines[i]
    ensures JoinLines(lines) == s
  {
    if s == [] then [[]]
    else
      var rest := SplitLines(s[1..]);
      var lines := if s[0] == '\n' then [[]] + rest else [[s[0]] + rest[0]] + rest[1..];
      lines
  }

  /** A text without a line feed is one line. */
  lemma {:induction false} SplitLinesSingle(s: string)
    requires '\n' !in s
    ensures SplitLines(s) == [s]
  {
    if s != [] {
      assert '\n' !in s[1..] by { assert forall k :: 0 <= k < |s| - 1 ==> s[1..][k] == s[k + 1]; }
      SplitLinesSingle(s[1..]);
    }
  }

  /** Every character of every line is in the joined text. */
  lemma {:induction false} JoinLinesChars(lines: seq<string>, i: int, c: char)
    requires 0 <= i < |lines| && c in lines[i]
    ensures c in JoinLines(lines)
  {
    if i > 0 {
      JoinLinesChars(lines[1..], i - 1, c);
    }
  }

  // ---------------------------------------------------------------- numbers

  predicate IsDigit(c: char) { '0' <= c <= '9' }

  predicate AllDigits(s: string) {
    forall i :: 0 <= i < |s| ==> IsDigit(s[i])
  }

  /** `int(s)` for a string of decimal digits (leading zeros allowed). */
  function DigitsValue(s: string): nat
    requires AllDigits(s)
  {
    if s == [] then 0 else DigitsValue(s[..|s| - 1]) * 10 + (s[|s| - 1] as int - '0' as int)
  }

  function DigitChar(d: nat): (c: char)
    requires d < 10
    ensures IsDigit(c) && c as int - '0' as int == d
  {
    ('0' as int + d) as char
  }

  /** The decimal representation of `n`, without leading zeros (`str(n)`). */
  function DecimalString(n: nat): (s: string)
    ensures s != [] && AllDigits(s)
    ensures DigitsValue(s) == n
    ensures n < 10 <==> |s| == 1
  {
    if n < 10 then [DigitChar(n)]
    else
      var s := DecimalString(n / 10) + [DigitChar(n % 10)];
      assert s[..|s| - 1] == DecimalString(n / 10);
      s
  }

  /** A leading zero does not change the value `int()` reads. */
  lemma {:induction false} LeadingZero(s: string)
    requires AllDigits(s)
    ensures AllDigits("0" + s) && DigitsValue("0" + s) == DigitsValue(s)
  {
    if s != [] {
      var z := "0" + s;
      assert z[..|z| - 1] == "0" + s[..|s| - 1];
      LeadingZero(s[..|s| - 1]);
    }
  }

  /** The `{:02d}` field of `str.format` for a non-negative number: at least two
      digits, zero-padded on the left. */
  function Pad2(n: nat): (s: string)
    ensures |s| >= 2 && AllDigits(s) && DigitsValue(s) == n
    ensures n < 100 ==> |s| == 2
  {
    if n < 10 then (LeadingZero(DecimalString(n)); "0" + DecimalString(n)) else DecimalString(n)
  }
}

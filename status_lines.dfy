/**
 * The reply line the matrix sends for each output, "Output <a> Switch To In <b>!",
 * and what the status parser makes of it.
 */
module StatusLines {
  import opened Wrappers
  import opened Text
  import opened StatusParser

  /** One scanner step over a single whitespace character. */
  lemma OneBlankStep(p: seq<Token>, s: string, i: nat, caps: seq<nat>)
    requires i + 1 < |s| && p != [] && p[0] == Blanks && IsSpace(s[i]) && !IsSpace(s[i + 1])
    requires Scan(p[1..], s, i + 1) == Some(caps)
    ensures Scan(p, s, i) == Some(caps)
  {
    assert SpanSpaces(s, i + 1) == i + 1;
  }

  /** One scanner step over the numeral `d`. */
  lemma NumeralStep(p: seq<Token>, s: string, i: nat, d: string, caps: seq<nat>)
    requires i + |d| < |s| && p != [] && p[0] == Number && d != [] && AllDigits(d)
    requires s[i..i + |d|] == d && !IsDigit(s[i + |d|])
    requires Scan(p[1..], s, i + |d|) == Some(caps)
    ensures Scan(p, s, i) == Some([DigitsValue(d)] + caps)
  {
    var j := i + |d|;
    assert DigitsBetween(s, i, j) by {
      forall k | i <= k < j ensures IsDigit(s[k]) { assert s[k] == d[k - i]; }
    }
    DigitRunEnd(s, i, j, SpanDigits(s, i));
  }

  /** A numeral: a non-empty run of decimal digits. */
  predicate IsNumeral(d: string) {
    d != [] && AllDigits(d)
  }

  /** The line the matrix sends for one output: "Output <a> Switch To In <b>!". */
  function StatusLine(a: string, b: string): string {
    "Output " + a + " Switch To In " + b + "!"
  }

  /** Where the pieces of a status line sit. */
  predicate Layout(s: string, a: string, b: string) {
    && |s| == 22 + |a| + |b|
    && s[..7] == "Output "
    && s[7..7 + |a|] == a
    && s[7 + |a|..21 + |a|] == " Switch To In "
    && s[21 + |a|..21 + |a| + |b|] == b
    && s[21 + |a| + |b|] == '!'
  }

  lemma StatusLineLayout(a: string, b: string)
    ensures Layout(StatusLine(a, b), a, b)
  {
    var s := StatusLine(a, b);
    var x, q := "Output " + a, " Switch To In ";
    assert s == x + q + b + "!";
    assert s[..|x|] == x;
    assert s[..7] == x[..7];
    assert s[7..7 + |a|] == x[7..];
    assert s[|x|..|x| + |q|] == q;
    assert s[|x| + |q|..|x| + |q| + |b|] == b;
  }

  lemma SliceOfSlice(s: string, i: int, j: int, k: int, l: int)
    requires 0 <= i <= j <= |s| && 0 <= k <= l <= j - i
    ensures s[i..j][k..l] == s[i + k..i + l]
  {
    assert forall t :: 0 <= t < l - k ==> s[i..j][k..l][t] == s[i + k + t];
  }

  /** The scanner over "In", a space, the input numeral and "!". */
  lemma ScanTailIn(s: string, a: string, b: string, p8: seq<Token>, p9: seq<Token>, p10: seq<Token>, p11: seq<Token>)
    requires IsNumeral(a) && IsNumeral(b) && Layout(s, a, b)
    requires p11 == [Word("!")] && p10 == [Number] + p11 && p9 == [Blanks] + p10 && p8 == [Word("In")] + p9
    ensures Scan(p8, s, 18 + |a|) == Some([DigitsValue(b)])
  {
    var n, m := |a|, |b|;
    var q := " Switch To In ";
    assert q[11..13] == "In";
    SliceOfSlice(s, 7 + n, 21 + n, 11, 13);
    assert s[20 + n] == q[13] by {
      assert s[7 + n..21 + n][13] == s[20 + n];
    }
    assert s[21 + n] == b[0] by { assert s[21 + n..21 + n + m][0] == s[21 + n]; }
    assert s[21 + n + m..22 + n + m] == "!";
    WordStep(p11, s, 21 + n + m, "!", []);
    NumeralStep(p10, s, 21 + n, b, []);
    assert [DigitsValue(b)] + [] == [DigitsValue(b)];
    OneBlankStep(p9, s, 20 + n, [DigitsValue(b)]);
    WordStep(p8, s, 18 + n, "In", [DigitsValue(b)]);
  }

  /** The scanner over "Switch To " in front of the rest. */
  lemma ScanTailSwitchTo(s: string, a: string, b: string, p4: seq<Token>, p5: seq<Token>, p6: seq<Token>, p7: seq<Token>, p8: seq<Token>)
    requires IsNumeral(a) && IsNumeral(b) && Layout(s, a, b)
    requires p7 == [Blanks] + p8 && p6 == [Word("To")] + p7 && p5 == [Blanks] + p6 && p4 == [Word("Switch")] + p5
    requires Scan(p8, s, 18 + |a|) == Some([DigitsValue(b)])
    ensures Scan(p4, s, 8 + |a|) == Some([DigitsValue(b)])
  {
    var n := |a|;
    var q := " Switch To In ";
    assert q[1..7] == "Switch" && q[8..10] == "To";
    SliceOfSlice(s, 7 + n, 21 + n, 1, 7);
    SliceOfSlice(s, 7 + n, 21 + n, 8, 10);
    assert s[14 + n] == q[7] && s[17 + n] == q[10] && s[15 + n] == q[8] && s[18 + n] == q[11] by {
      assert s[7 + n..21 + n][7] == s[14 + n];
      assert s[7 + n..21 + n][10] == s[17 + n];
      assert s[7 + n..21 + n][8] == s[15 + n];
      assert s[7 + n..21 + n][11] == s[18 + n];
    }
    OneBlankStep(p7, s, 17 + n, [DigitsValue(b)]);
    WordStep(p6, s, 15 + n, "To", [DigitsValue(b)]);
    OneBlankStep(p5, s, 14 + n, [DigitsValue(b)]);
    WordStep(p4, s, 8 + n, "Switch", [DigitsValue(b)]);
  }

  lemma HeadFacts(s: string, a: string, b: string)
    requires IsNumeral(a) && Layout(s, a, b)
    ensures s[0..6] == "Output" && s[6] == ' ' && s[7] == a[0]
    ensures s[7..7 + |a|] == a && s[7 + |a|] == ' ' && s[8 + |a|] == 'S'
  {
    var n := |a|;
    assert s[0..6] == "Output" by { assert s[..7][..6] == s[0..6]; }
    assert s[6] == ' ' by { assert s[..7][6] == s[6]; }
    assert s[7] == a[0] by { assert s[7..7 + n][0] == s[7]; }
    assert s[7 + n] == ' ' && s[8 + n] == 'S' by {
      assert s[7 + n..21 + n][0] == s[7 + n];
      assert s[7 + n..21 + n][1] == s[8 + n];
    }
  }

  /** The scanner over "Output ", the output numeral and a space. */
  lemma ScanHead(s: string, a: string, b: string, p0: seq<Token>, p1: seq<Token>, p2: seq<Token>, p3: seq<Token>, p4: seq<Token>)
    requires IsNumeral(a) && IsNumeral(b) && Layout(s, a, b)
    requires p3 == [Blanks] + p4 && p2 == [Number] + p3 && p1 == [Blanks] + p2 && p0 == [Word("Output")] + p1
    requires Scan(p4, s, 8 + |a|) == Some([DigitsValue(b)])
    ensures Scan(p0, s, 0) == Some([DigitsValue(a), DigitsValue(b)])
  {
    var n := |a|;
    HeadFacts(s, a, b);
    OneBlankStep(p3, s, 7 + n, [DigitsValue(b)]);
    NumeralStep(p2, s, 7, a, [DigitsValue(b)]);
    assert [DigitsValue(a)] + [DigitsValue(b)] == [DigitsValue(a), DigitsValue(b)];
    OneBlankStep(p1, s, 6, [DigitsValue(a), DigitsValue(b)]);
    WordStep(p0, s, 0, "Output", [DigitsValue(a), DigitsValue(b)]);
  }

  /** The scanner reads the two numerals of a status line. */
  lemma StatusLineScan(s: string, a: string, b: string)
    requires IsNumeral(a) && IsNumeral(b) && Layout(s, a, b)
    ensures Scan(StatusPattern, s, 0) == Some([DigitsValue(a), DigitsValue(b)])
  {
    var p11 := [Word("!")];
    var p10 := [Number] + p11;
    var p9 := [Blanks] + p10;
    var p8 := [Word("In")] + p9;
    var p7 := [Blanks] + p8;
    var p6 := [Word("To")] + p7;
    var p5 := [Blanks] + p6;
    var p4 := [Word("Switch")] + p5;
    var p3 := [Blanks] + p4;
    var p2 := [Number] + p3;
    var p1 := [Blanks] + p2;
    var p0 := [Word("Output")] + p1;
    ScanTailIn(s, a, b, p8, p9, p10, p11);
    ScanTailSwitchTo(s, a, b, p4, p5, p6, p7, p8);
    ScanHead(s, a, b, p0, p1, p2, p3, p4);
    assert p0 == StatusPattern;
  }

  /** Stripping leaves a status line as it is. */
  lemma LayoutClean(s: string, a: string, b: string)
    requires IsNumeral(a) && IsNumeral(b) && Layout(s, a, b)
    ensures Strip(s) == s
  {
    assert s[0] == 'O' by { assert s[..7][0] == s[0]; }
    StripTrimmed(s);
  }

  /** A status line holds no line feed. */
  lemma LayoutNoLineFeed(s: string, a: string, b: string)
    requires IsNumeral(a) && IsNumeral(b) && Layout(s, a, b)
    ensures '\n' !in s
  {
    var n, m := |a|, |b|;
    forall k | 0 <= k < |s|
      ensures s[k] != '\n'
    {
      if k < 7 {
        assert s[..7][k] == s[k];
      } else if k < 7 + n {
        assert s[7..7 + n][k - 7] == s[k];
        assert IsDigit(a[k - 7]);
      } else if k < 21 + n {
        assert s[7 + n..21 + n][k - 7 - n] == s[k];
      } else if k < 21 + n + m {
        assert s[21 + n..21 + n + m][k - 21 - n] == s[k];
        assert IsDigit(b[k - 21 - n]);
      }
    }
  }

  lemma LayoutEntry(s: string, a: string, b: string)
    requires IsNumeral(a) && IsNumeral(b) && Layout(s, a, b)
    ensures LineEntry(s) == Some((DigitsValue(a), DigitsValue(b)))
  {
    LayoutEnds(s, a, b);
    StatusLineScan(s, a, b);
    EntryOfTrimmedLine(s, DigitsValue(a), DigitsValue(b));
  }

  lemma LayoutEnds(s: string, a: string, b: string)
    requires Layout(s, a, b)
    ensures s != [] && s[0] == 'O' && s[|s| - 1] == '!'
  {
    assert s[..7][0] == s[0];
  }

  /** A line with no whitespace at either end that matches at its start gives
      the numbers of that match. */
  lemma EntryOfTrimmedLine(line: string, x: nat, y: nat)
    requires line != [] && !IsSpace(line[0]) && !IsSpace(line[|line| - 1])
    requires Scan(StatusPattern, line, 0) == Some([x, y])
    ensures LineEntry(line) == Some((x, y))
  {
    StripTrimmed(line);
    EntryOfCleanLine(line, [x, y]);
  }

  lemma LayoutLines(s: string, a: string, b: string)
    requires IsNumeral(a) && IsNumeral(b) && Layout(s, a, b)
    ensures Lines(s) == [s]
  {
    LayoutClean(s, a, b);
    LayoutNoLineFeed(s, a, b);
    SplitLinesSingle(s);
  }

  lemma LayoutRouting(s: string, a: string, b: string)
    requires IsNumeral(a) && IsNumeral(b) && Layout(s, a, b)
    ensures Routing(s) == map[DigitsValue(a) := DigitsValue(b)]
  {
    var e := Some((DigitsValue(a), DigitsValue(b)));
    LayoutEntry(s, a, b);
    LayoutLines(s, a, b);
    assert Entries([s]) == [e];
    assert Fold([e]) == Apply(Fold([]), e);
  }

  /** A status line routes input `b` to output `a`, with the numerals read as
      decimal numbers. */
  lemma StatusLineEntry(a: string, b: string)
    requires IsNumeral(a) && IsNumeral(b)
    ensures LineEntry(StatusLine(a, b)) == Some((DigitsValue(a), DigitsValue(b)))
  {
    StatusLineLayout(a, b);
    LayoutEntry(StatusLine(a, b), a, b);
  }

  /** A reply made of one status line describes exactly that one route. */
  lemma StatusLineRouting(a: string, b: string)
    requires IsNumeral(a) && IsNumeral(b)
    ensures Routing(StatusLine(a, b)) == map[DigitsValue(a) := DigitsValue(b)]
  {
    StatusLineLayout(a, b);
    LayoutRouting(StatusLine(a, b), a, b);
  }
}

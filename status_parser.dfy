/**
 * `parse_video_status`: the reply to the video-status query, one
 * "Output N Switch To In M!" line per output, read into a map from output
 * number to input number.
 *
 * The regular expression `Output\s+(\d+)\s+Switch\s+To\s+In\s+(\d+)!` is
 * modelled as a sequence of tokens. A greedy scanner (`Scan`) matches it
 * without backtracking; `Derives` is the declarative meaning of the pattern
 * (any split of the text into the tokens), and the two are proved to agree
 * for patterns where no repeated class is followed by a token that could
 * continue it, which is the case here.
 */
module StatusParser {
  import opened Wrappers
  import opened Text

  /** A literal word, `\s+`, or a captured `(\d+)`. */
  datatype Token = Word(text: string) | Blanks | Number

  const StatusPattern: seq<Token> := [
    Word("Output"), Blanks, Number, Blanks, Word("Switch"), Blanks,
    Word("To"), Blanks, Word("In"), Blanks, Number, Word("!")
  ]

  predicate SpacesBetween(s: string, i: int, j: int)
    requires 0 <= i <= j <= |s|
  {
    forall k :: i <= k < j ==> IsSpace(s[k])
  }

  predicate DigitsBetween(s: string, i: int, j: int)
    requires 0 <= i <= j <= |s|
  {
    forall k :: i <= k < j ==> IsDigit(s[k])
  }

  /** The value of the digits `s[i..j]`, as `int()` reads them. */
  function NumberAt(s: string, i: int, j: int): nat
    requires 0 <= i <= j <= |s| && DigitsBetween(s, i, j)
  {
    assert AllDigits(s[i..j]) by {
      forall k | 0 <= k < j - i ensures IsDigit(s[i..j][k]) { assert s[i..j][k] == s[i + k]; }
    }
    DigitsValue(s[i..j])
  }

  /** The end of the longest run of whitespace starting at `i`. */
  function SpanSpaces(s: string, i: nat): (j: nat)
    requires i <= |s|
    ensures i <= j <= |s| && SpacesBetween(s, i, j)
    ensures j == |s| || !IsSpace(s[j])
    decreases |s| - i
  {
    if i < |s| && IsSpace(s[i]) then SpanSpaces(s, i + 1) else i
  }

  /** The end of the longest run of digits starting at `i`. */
  function SpanDigits(s: string, i: nat): (j: nat)
    requires i <= |s|
    ensures i <= j <= |s| && DigitsBetween(s, i, j)
    ensures j == |s| || !IsDigit(s[j])
    decreases |s| - i
  {
    if i < |s| && IsDigit(s[i]) then SpanDigits(s, i + 1) else i
  }

  /** The number of captures a pattern makes. */
  function Captures(p: seq<Token>): nat
  {
    if p == [] then 0 else (if p[0].Number? then 1 else 0) + Captures(p[1..])
  }

  /** Greedy matching of `p` against `s` from position `i`: each run takes as
      many characters as it can. Gives the captured numbers on success. */
  function Scan(p: seq<Token>, s: string, i: nat): (r: Option<seq<nat>>)
    requires i <= |s|
    ensures r.Some? ==> |r.value| == Captures(p)
    decreases |p|
  {
    if p == [] then Some([])
    else match p[0]
      case Word(w) =>
        if i + |w| <= |s| && s[i..i + |w|] == w then Scan(p[1..], s, i + |w|) else None
      case Blanks =>
        var j := SpanSpaces(s, i);
        if j == i then None else Scan(p[1..], s, j)
      case Number =>
        var j := SpanDigits(s, i);
        if j == i then None
        else match Scan(p[1..], s, j)
          case None => None
          case Some(caps) => Some([NumberAt(s, i, j)] + caps)
  }

  /** The meaning of the pattern: `s[i..]` begins with a text made of the tokens
      in order, each run at least one character long, with captures `caps`. */
  ghost predicate Derives(p: seq<Token>, s: string, i: int, caps: seq<nat>)
    decreases |p|
  {
    0 <= i <= |s| &&
    if p == [] then caps == []
    else match p[0]
      case Word(w) => i + |w| <= |s| && s[i..i + |w|] == w && Derives(p[1..], s, i + |w|, caps)
      case Blanks => exists j :: i < j <= |s| && SpacesBetween(s, i, j) && Derives(p[1..], s, j, caps)
      case Number =>
        |caps| > 0 &&
        exists j :: i < j <= |s| && DigitsBetween(s, i, j) && caps[0] == NumberAt(s, i, j) && Derives(p[1..], s, j, caps[1..])
  }

  /** Token `k` of `p` is a non-empty word, or a run followed by a token
      that cannot begin with a character of the run's own class. */
  predicate FitsAt(p: seq<Token>, k: int)
    requires 0 <= k < |p|
  {
    match p[k]
    case Word(w) => w != []
    case Blanks => k + 1 < |p| && (p[k + 1].Number? || (p[k + 1].Word? && p[k + 1].text != [] && !IsSpace(p[k + 1].text[0])))
    case Number => k + 1 < |p| && (p[k + 1].Blanks? || (p[k + 1].Word? && p[k + 1].text != [] && !IsDigit(p[k + 1].text[0])))
  }

  /** Every word is non-empty, every run is followed by a token, and that token
      cannot begin with a character of the run's own class: greedy scanning
      then never takes a character the rest of the pattern needs. */
  predicate Separated(p: seq<Token>) {
    forall k :: 0 <= k < |p| ==> FitsAt(p, k)
  }

  lemma SeparatedTail(p: seq<Token>)
    requires p != [] && Separated(p)
    ensures Separated(p[1..])
  {
    forall k | 0 <= k < |p| - 1
      ensures FitsAt(p[1..], k)
    {
      assert FitsAt(p, k + 1);
      assert p[1..][k] == p[k + 1];
      if k + 1 < |p| - 1 { assert p[1..][k + 1] == p[k + 2]; }
    }
  }

  lemma StatusPatternSeparated()
    ensures Separated(StatusPattern)
  {
  }

  /** What a derivation tells about the first character it consumes. */
  lemma DerivesFirst(p: seq<Token>, s: string, j: int, caps: seq<nat>)
    requires p != [] && Separated(p) && Derives(p, s, j, caps)
    ensures 0 <= j < |s|
    ensures p[0].Word? ==> p[0].text != [] && s[j] == p[0].text[0]
    ensures p[0].Blanks? ==> IsSpace(s[j])
    ensures p[0].Number? ==> IsDigit(s[j])
  {
    assert FitsAt(p, 0);
    match p[0]
    case Word(w) =>
      assert s[j..j + |w|][0] == s[j];
    case Blanks =>
    case Number =>
  }

  /** Two maximal runs of whitespace from the same start end at the same place. */
  lemma SpaceRunEnd(s: string, i: int, j: int, k: int)
    ensures (0 <= i <= j <= |s| && i <= k <= |s| && SpacesBetween(s, i, j) && SpacesBetween(s, i, k)
             && (j == |s| || !IsSpace(s[j])) && (k == |s| || !IsSpace(s[k]))) ==> j == k
  {
  }

  /** Two maximal runs of digits from the same start end at the same place. */
  lemma DigitRunEnd(s: string, i: int, j: int, k: int)
    ensures (0 <= i <= j <= |s| && i <= k <= |s| && DigitsBetween(s, i, j) && DigitsBetween(s, i, k)
             && (j == |s| || !IsDigit(s[j])) && (k == |s| || !IsDigit(s[k]))) ==> j == k
  {
  }

  /** Whatever the scanner finds is a match in the sense of `Derives`. */
  lemma {:induction false} ScanSound(p: seq<Token>, s: string, i: nat)
    requires i <= |s| && Scan(p, s, i).Some?
    ensures Derives(p, s, i, Scan(p, s, i).value)
    decreases |p|
  {
    if p != [] {
      match p[0]
      case Word(w) =>
        ScanSound(p[1..], s, i + |w|);
      case Blanks =>
        var j := SpanSpaces(s, i);
        ScanSound(p[1..], s, j);
      case Number =>
        var j := SpanDigits(s, i);
        ScanSound(p[1..], s, j);
        var caps := Scan(p, s, i).value;
        assert caps[1..] == Scan(p[1..], s, j).value;
    }
  }

  /** For a separated pattern, every match is the one the scanner finds. */
  lemma {:induction false} ScanComplete(p: seq<Token>, s: string, i: nat, caps: seq<nat>)
    requires i <= |s| && Separated(p) && Derives(p, s, i, caps)
    ensures Scan(p, s, i) == Some(caps)
    decreases |p|
  {
    if p != [] {
      assert FitsAt(p, 0);
      SeparatedTail(p);
      match p[0]
      case Word(w) =>
        ScanComplete(p[1..], s, i + |w|, caps);
      case Blanks =>
        var j :| i < j <= |s| && SpacesBetween(s, i, j) && Derives(p[1..], s, j, caps);
        var k := SpanSpaces(s, i);
        DerivesFirst(p[1..], s, j, caps);
        assert j == |s| || !IsSpace(s[j]);
        SpaceRunEnd(s, i, j, k);
        ScanComplete(p[1..], s, j, caps);
      case Number =>
        var j :| i < j <= |s| && DigitsBetween(s, i, j) && caps[0] == NumberAt(s, i, j) && Derives(p[1..], s, j, caps[1..]);
        var k := SpanDigits(s, i);
        DerivesFirst(p[1..], s, j, caps[1..]);
        assert j == |s| || !IsDigit(s[j]);
        DigitRunEnd(s, i, j, k);
        ScanComplete(p[1..], s, j, caps[1..]);
        assert caps == [caps[0]] + caps[1..];
    }
  }

  /** `w` occurs in `s` at position `k`. */
  predicate OccursAt(s: string, k: int, w: string) {
    0 <= k && k + |w| <= |s| && s[k..k + |w|] == w
  }

  /** Every word of a pattern the scanner matches occurs in the text. */
  lemma {:induction false} ScanFindsWord(p: seq<Token>, s: string, i: nat, w: string)
    requires i <= |s| && Scan(p, s, i).Some? && Word(w) in p
    ensures exists k :: i <= k && OccursAt(s, k, w)
    decreases |p|
  {
    if p[0] == Word(w) {
      assert OccursAt(s, i, w);
    } else {
      assert Word(w) in p[1..] by {
        var m :| 0 <= m < |p| && p[m] == Word(w);
        assert p[1..][m - 1] == Word(w);
      }
      match p[0]
      case Word(v) =>
        ScanFindsWord(p[1..], s, i + |v|, w);
      case Blanks =>
        ScanFindsWord(p[1..], s, SpanSpaces(s, i), w);
      case Number =>
        ScanFindsWord(p[1..], s, SpanDigits(s, i), w);
    }
  }

  /** For the status pattern, `Search` finds a match exactly when one exists,
      and it is the one that starts leftmost. */
  lemma StatusSearchLeftmost(t: string)
    ensures Search(StatusPattern, t).Some? ==>
      exists k :: 0 <= k <= |t| && NoMatchBefore(StatusPattern, t, k) && Derives(StatusPattern, t, k, Search(StatusPattern, t).value)
    ensures Search(StatusPattern, t).None? <==> forall k, caps :: 0 <= k <= |t| ==> !Derives(StatusPattern, t, k, caps)
  {
    StatusPatternSeparated();
    SearchLeftmost(StatusPattern, t);
  }

  /** One step of the scanner over a word. */
  lemma WordStep(p: seq<Token>, s: string, i: nat, w: string, caps: seq<nat>)
    requires i + |w| <= |s| && p != [] && p[0] == Word(w) && s[i..i + |w|] == w
    requires Scan(p[1..], s, i + |w|) == Some(caps)
    ensures Scan(p, s, i) == Some(caps)
  {
  }

  /** One step of the scanner over a run of whitespace. */
  lemma BlanksStep(p: seq<Token>, s: string, i: nat, j: nat, caps: seq<nat>)
    requires i < j <= |s| && p != [] && p[0] == Blanks && SpanSpaces(s, i) == j
    requires Scan(p[1..], s, j) == Some(caps)
    ensures Scan(p, s, i) == Some(caps)
  {
  }

  /** One step of the scanner over a number. */
  lemma NumberStep(p: seq<Token>, s: string, i: nat, j: nat, caps: seq<nat>)
    requires i < j <= |s| && p != [] && p[0] == Number && SpanDigits(s, i) == j
    requires Scan(p[1..], s, j) == Some(caps)
    ensures Scan(p, s, i) == Some([NumberAt(s, i, j)] + caps)
  {
  }

  /** No match of the pattern starts before position `i`. */
  ghost predicate NoMatchBefore(p: seq<Token>, s: string, i: int) {
    forall k, caps :: 0 <= k < i ==> !Derives(p, s, k, caps)
  }

  /** `re.search` from position `i`: the captures at the first position where
      the scanner succeeds. */
  function SearchFrom(p: seq<Token>, s: string, i: nat): (r: Option<seq<nat>>)
    requires i <= |s|
    ensures r.Some? ==> |r.value| == Captures(p)
    decreases |s| - i
  {
    var here := Scan(p, s, i);
    if here.Some? then here
    else if i == |s| then None
    else SearchFrom(p, s, i + 1)
  }

  /** `re.search(pattern, s)`. */
  function Search(p: seq<Token>, s: string): (r: Option<seq<nat>>)
    ensures r.Some? ==> |r.value| == Captures(p)
  {
    SearchFrom(p, s, 0)
  }

  lemma {:induction false} SearchFromLeftmost(p: seq<Token>, s: string, i: nat)
    requires i <= |s| && Separated(p) && NoMatchBefore(p, s, i)
    ensures SearchFrom(p, s, i).Some? ==>
      exists k :: i <= k <= |s| && NoMatchBefore(p, s, k) && Derives(p, s, k, SearchFrom(p, s, i).value)
    ensures SearchFrom(p, s, i).None? ==> NoMatchBefore(p, s, |s| + 1)
    decreases |s| - i
  {
    if Scan(p, s, i).Some? {
      ScanSound(p, s, i);
    } else {
      forall caps | Derives(p, s, i, caps) ensures false { ScanComplete(p, s, i, caps); }
      if i < |s| {
        SearchFromLeftmost(p, s, i + 1);
      }
    }
  }

  /** For a separated pattern, `Search` finds a match exactly when one exists,
      and what it finds is a match at the leftmost position where one starts. */
  lemma SearchLeftmost(p: seq<Token>, s: string)
    requires Separated(p)
    ensures Search(p, s).Some? ==>
      exists k :: 0 <= k <= |s| && NoMatchBefore(p, s, k) && Derives(p, s, k, Search(p, s).value)
    ensures Search(p, s).None? <==> forall k, caps :: 0 <= k <= |s| ==> !Derives(p, s, k, caps)
  {
    SearchFromLeftmost(p, s, 0);
  }

  // ---------------------------------------------------------------- lines to routing

  /** What one line contributes: nothing for a blank line or a line without the
      pattern, otherwise (output, input) from the first match in the line. */
  function LineEntry(line: string): (e: Option<(nat, nat)>)
    ensures Strip(line) == [] ==> e.None?
  {
    var t := Strip(line);
    if t == [] then None
    else match Search(StatusPattern, t)
      case None => None
      case Some(caps) =>
        assert Captures(StatusPattern) == 2 by { assert Captures(StatusPattern[11..]) == 0; }
        Some((caps[0], caps[1]))
  }

  /** The lines the parser walks through: the whole reply stripped, then split on line feeds. */
  function Lines(response: string): seq<string>
  {
    SplitLines(Strip(response))
  }

  /** The entry of every line, in order. */
  function Entries(lines: seq<string>): seq<Option<(nat, nat)>>
  {
    seq(|lines|, i requires 0 <= i < |lines| => LineEntry(lines[i]))
  }

  /**
   * Line `i` of the reply contributes an entry exactly when it is not blank
   * and `re.search` finds the status pattern in its stripped text, and the
   * entry is the match's two numbers (output, input).
   */
  lemma EntriesFromSearch(lines: seq<string>, i: int)
    requires 0 <= i < |lines|
    ensures var t := Strip(lines[i]);
            Entries(lines)[i].Some? <==> t != [] && Search(StatusPattern, t).Some?
    ensures var t := Strip(lines[i]);
            Entries(lines)[i].Some? ==>
              Entries(lines)[i].value == (Search(StatusPattern, t).value[0], Search(StatusPattern, t).value[1])
  {
    EntryFromSearch(lines[i]);
  }

  /** The map after writing the entries in order, later ones over earlier ones. */
  function Fold(es: seq<Option<(nat, nat)>>): map<nat, nat>
  {
    if es == [] then map[] else Apply(Fold(es[..|es| - 1]), es[|es| - 1])
  }

  /** Writes one line's entry, if any, into the map. */
  function Apply(m: map<nat, nat>, e: Option<(nat, nat)>): map<nat, nat>
  {
    if e.Some? then m[e.value.0 := e.value.1] else m
  }

  /** The routing map a reply describes. */
  function Routing(response: string): (r: map<nat, nat>)
    ensures Strip(response) == [] ==> r == map[]
  {
    BlankReply(response);
    Fold(Entries(Lines(response)))
  }

  /** A reply that is all whitespace is one empty line, which contributes nothing. */
  lemma BlankReply(response: string)
    ensures Strip(response) == [] ==> Fold(Entries(Lines(response))) == map[]
  {
    if Strip(response) == [] {
      assert Lines(response) == [[]];
      BlankLine();
    }
  }

  lemma BlankLine()
    ensures Fold(Entries([[]])) == map[]
  {
    var es := Entries([[]]);
    assert es[0] == None by { assert Strip([]) == []; }
    assert es[..0] == [];
  }

  /** `parse_video_status`. */
  method ParseVideoStatus(response: string) returns (routing: map<nat, nat>)
    ensures routing == Routing(response)
  {
    var lines := SplitLines(Strip(response));
    routing := FillRouting(lines);
  }

  /** The loop of `parse_video_status`: each line's entry, if any, written into the map in order. */
  method FillRouting(lines: seq<string>) returns (routing: map<nat, nat>)
    ensures routing == Fold(Entries(lines))
  {
    ghost var es := Entries(lines);
    routing := map[];
    var i := 0;
    assert es[..0] == [];
    while i < |lines|
      invariant 0 <= i <= |lines|
      invariant routing == Fold(es[..i])
    {
      var entry := LineEntry(lines[i]);
      assert entry == es[i];
      FoldStep(es, i);
      ghost var before := routing;
      if entry.Some? {
        routing := routing[entry.value.0 := entry.value.1];
      }
      assert routing == Apply(before, entry);
      i := i + 1;
    }
    assert es[..|lines|] == es;
  }

  lemma FoldStep(es: seq<Option<(nat, nat)>>, i: nat)
    requires i < |es|
    ensures Fold(es[..i + 1]) == Apply(Fold(es[..i]), es[i])
  {
    assert es[..i + 1][..i] == es[..i];
  }

  /** Entry `i` writes `output`. */
  predicate Names(es: seq<Option<(nat, nat)>>, i: int, output: nat)
  {
    0 <= i < |es| && es[i].Some? && es[i].value.0 == output
  }

  /** An output is in the map exactly when some entry names it. */
  lemma {:induction false} FoldKeys(es: seq<Option<(nat, nat)>>, output: nat)
    ensures output in Fold(es) <==> exists i :: Names(es, i, output)
  {
    if es != [] {
      var n := |es| - 1;
      var init := es[..n];
      FoldKeys(init, output);
      assert forall i :: Names(init, i, output) <==> 0 <= i < n && Names(es, i, output);
      if output in Fold(es) {
        if es[n].Some? && es[n].value.0 == output {
          assert Names(es, n, output);
        } else {
          var i :| Names(init, i, output);
          assert Names(es, i, output);
        }
      }
      if exists i :: Names(es, i, output) {
        var i :| Names(es, i, output);
        if i < n {
          assert Names(init, i, output);
        }
      }
    }
  }

  /** The map holds the input of the last entry that names an output. */
  lemma {:induction false} FoldLastWins(es: seq<Option<(nat, nat)>>, i: nat, output: nat)
    requires Names(es, i, output)
    requires forall k :: i < k < |es| ==> !Names(es, k, output)
    ensures output in Fold(es) && Fold(es)[output] == es[i].value.1
  {
    var n := |es| - 1;
    var init := es[..n];
    if i < n {
      assert forall k :: 0 <= k < n ==> init[k] == es[k];
      assert !Names(es, n, output);
      forall k | i < k < n
        ensures !Names(init, k, output)
      {
        assert init[k] == es[k] && !Names(es, k, output);
      }
      FoldLastWins(init, i, output);
    }
  }

  /** Line `i` of the reply matches the status pattern for `output`. */
  predicate LineNames(lines: seq<string>, i: int, output: nat)
  {
    0 <= i < |lines| && LineEntry(lines[i]).Some? && LineEntry(lines[i]).value.0 == output
  }

  /** An output is in the parsed map exactly when some line of the reply
      matches the status pattern for it. */
  lemma RoutingKeys(response: string, output: nat)
    ensures output in Routing(response) <==> exists i :: LineNames(Lines(response), i, output)
  {
    var lines := Lines(response);
    var es := Entries(lines);
    FoldKeys(es, output);
    assert forall i :: Names(es, i, output) <==> LineNames(lines, i, output);
  }

  /** The parsed map holds, for an output, the input of the last line that
      names that output: later lines override earlier ones. */
  lemma RoutingLastWins(response: string, i: nat, output: nat)
    requires LineNames(Lines(response), i, output)
    requires forall k :: i < k ==> !LineNames(Lines(response), k, output)
    ensures output in Routing(response)
    ensures Routing(response)[output] == LineEntry(Lines(response)[i]).value.1
  {
    var lines := Lines(response);
    var es := Entries(lines);
    assert Names(es, i, output);
    forall k | i < k < |es|
      ensures !Names(es, k, output)
    {
      assert !LineNames(lines, k, output);
    }
    FoldLastWins(es, i, output);
  }

  /** An empty reply gives an empty map. */
  lemma EmptyReply()
    ensures Routing("") == map[]
  {
    assert Strip("") == "";
    assert SplitLines("") == [""];
    assert LineEntry("") == None;
    assert Entries([""]) == [None];
    assert Fold([None]) == Fold([]);
  }

  /** Every word of a pattern that `Search` finds occurs in the text. */
  lemma {:induction false} SearchFromFindsWord(p: seq<Token>, s: string, i: nat, w: string)
    requires i <= |s| && SearchFrom(p, s, i).Some? && Word(w) in p
    ensures exists k :: OccursAt(s, k, w)
    decreases |s| - i
  {
    if Scan(p, s, i).Some? {
      ScanFindsWord(p, s, i, w);
    } else {
      SearchFromFindsWord(p, s, i + 1, w);
    }
  }

  /** A line's entry comes from a match of the pattern in the stripped line. */
  lemma EntryFromSearch(line: string)
    ensures LineEntry(line).Some? ==> Search(StatusPattern, Strip(line)).Some?
    ensures Strip(line) != [] && Search(StatusPattern, Strip(line)).Some? ==>
      LineEntry(line) == Some((Search(StatusPattern, Strip(line)).value[0], Search(StatusPattern, Strip(line)).value[1]))
  {
  }

  lemma StatusPatternEndsWithBang()
    ensures Word("!") in StatusPattern
  {
    assert StatusPattern[11] == Word("!");
  }

  lemma SearchNeedsBang(t: string)
    ensures Search(StatusPattern, t).Some? ==> '!' in t
  {
    if Search(StatusPattern, t).Some? {
      StatusPatternEndsWithBang();
      SearchFromFindsWord(StatusPattern, t, 0, "!");
      var m :| OccursAt(t, m, "!");
      assert t[m..m + 1][0] == t[m];
    }
  }

  /** A line yields an entry only if it has the closing '!' of the pattern. */
  lemma EntryNeedsBang(line: string)
    ensures LineEntry(line).Some? ==> '!' in line
  {
    EntryFromSearch(line);
    SearchNeedsBang(Strip(line));
    StripChars(line, '!');
  }

  lemma {:induction false} FoldNone(es: seq<Option<(nat, nat)>>)
    requires forall i :: 0 <= i < |es| ==> es[i].None?
    ensures Fold(es) == map[]
  {
    if es != [] {
      FoldNone(es[..|es| - 1]);
    }
  }

  /** A reply without any '!' describes no routing at all. */
  lemma NoBangNoRouting(response: string)
    requires '!' !in response
    ensures Routing(response) == map[]
  {
    var lines := Lines(response);
    forall i | 0 <= i < |lines|
      ensures LineEntry(lines[i]).None?
    {
      if '!' in lines[i] {
        JoinLinesChars(lines, i, '!');
        StripChars(response, '!');
      }
      EntryNeedsBang(lines[i]);
    }
    FoldNone(Entries(lines));
  }

  /** `Search` succeeds at the start when the scanner does. */
  lemma SearchFirst(p: seq<Token>, s: string)
    ensures Scan(p, s, 0).Some? ==> Search(p, s) == Scan(p, s, 0)
  {
  }

  /** A line that is already stripped and matches at its start gives the
      numbers of that match. */
  lemma EntryOfCleanLine(line: string, caps: seq<nat>)
    requires Strip(line) == line && line != [] && Scan(StatusPattern, line, 0) == Some(caps)
    ensures LineEntry(line) == Some((caps[0], caps[1]))
  {
    SearchFirst(StatusPattern, line);
    EntryFromSearch(line);
  }
}

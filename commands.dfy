/**
 * The command layer of the driver: the fixed table of device commands, the
 * `{:02d}` formatting of the parameterised ones, range validation of port
 * numbers against the fixed 4x4 matrix, and the payload builders.
 */
module Commands {
  import opened Wrappers
  import opened Text

  /** The matrix has four HDMI inputs and four HDMI outputs; both are read-only. */
  const InputCount: nat := 4
  const OutputCount: nat := 4

  /** The members of the `Commands` enumeration. */
  datatype Command =
    | PowerOn | PowerOff | Name | Type | Version
    | Status | StatusVideo | StatusPhdbt | StatusInput | StatusOutput
    | StatusHdcp | StatusDownscaling
    | RouteOutput | OutputOn | OutputOff

  /** The string value of each enumeration member; the last three are templates. */
  function Value(c: Command): (v: string)
    ensures v != [] && v[|v| - 1] == '.' && IsAscii(v)
  {
    match c
    case PowerOn => "PowerON."
    case PowerOff => "PowerOFF."
    case Name => "/*Name."
    case Type => "/*Type."
    case Version => "/^Version."
    case Status => "STA."
    case StatusVideo => "STA_VIDEO."
    case StatusPhdbt => "STA_PHDBT."
    case StatusInput => "STA_IN."
    case StatusOutput => "STA_OUT."
    case StatusHdcp => "STA_HDCP."
    case StatusDownscaling => "STA_DS."
    case RouteOutput => "OUT{:02d}:{:02d}."
    case OutputOn => "@OUT{:02d}."
    case OutputOff => "$OUT{:02d}."
  }

  // ---------------------------------------------------------------- str.format

  /** The only replacement field the templates use. */
  const Field: string := "{:02d}"

  predicate FieldAt(t: string) { |t| >= |Field| && t[..|Field|] == Field }

  /** The number of `{:02d}` fields in a template. */
  function Fields(t: string): nat
  {
    if t == [] then 0
    else if FieldAt(t) then 1 + Fields(t[|Field|..])
    else Fields(t[1..])
  }

  /** `t.format(*args)` for a template whose only fields are `{:02d}`, applied to
      non-negative numbers; arguments beyond the fields are ignored, as in Python. */
  function Format(t: string, args: seq<nat>): (r: string)
    requires Fields(t) <= |args|
    ensures IsAscii(t) ==> IsAscii(r)
    ensures Fields(t) == 0 ==> r == t
  {
    if t == [] then []
    else if FieldAt(t) then Pad2(args[0]) + Format(t[|Field|..], args[1..])
    else [t[0]] + Format(t[1..], args)
  }

  lemma FormatLiteral(c: char, t: string, args: seq<nat>)
    requires c != '{' && Fields(t) <= |args|
    ensures Fields([c] + t) == Fields(t)
    ensures Format([c] + t, args) == [c] + Format(t, args)
  {
    var s := [c] + t;
    assert s[1..] == t;
    assert !FieldAt(s) by {
      if |s| >= |Field| {
        assert s[..|Field|][0] == c != Field[0];
      }
    }
  }

  lemma FormatField(t: string, args: seq<nat>)
    requires |args| > 0 && Fields(t) <= |args| - 1
    ensures Fields(Field + t) == 1 + Fields(t)
    ensures Format(Field + t, args) == Pad2(args[0]) + Format(t, args[1..])
  {
    assert (Field + t)[..|Field|] == Field;
    assert (Field + t)[|Field|..] == t;
  }

  /** Formatting the route template one piece at a time. */
  lemma RouteSteps(v: string, t1: string, t2: string, t3: string, t4: string, output: nat, input: nat)
    requires t1 == "." && t2 == Field + t1 && t3 == ":" + t2 && t4 == Field + t3 && v == "OUT" + t4
    ensures Fields(v) == 2
    ensures Format(v, [output, input]) == "OUT" + Pad2(output) + ":" + Pad2(input) + "."
  {
    var args := [output, input];
    var p, q := Pad2(output), Pad2(input);
    FormatLiteral('.', [], []);
    assert t1 == ['.'] + [];
    assert [input][1..] == [];
    FormatField(t1, [input]);
    assert Format(t2, [input]) == q + t1;
    FormatLiteral(':', t2, [input]);
    assert Format(t3, [input]) == [':'] + (q + t1);
    FormatField(t3, args);
    assert args[1..] == [input];
    assert Format(t4, args) == p + ([':'] + (q + t1));
    PrefixSteps("OUT", t4, args);
  }

  /** The route template puts the output first and the input second. */
  lemma RouteTemplate(output: nat, input: nat)
    ensures Fields(Value(RouteOutput)) == 2
    ensures Format(Value(RouteOutput), [output, input]) == "OUT" + Pad2(output) + ":" + Pad2(input) + "."
  {
    RouteSteps(Value(RouteOutput), ".", Field + ".", ":" + Field + ".", Field + ":" + Field + ".", output, input);
  }

  /** A prefix of three literal characters is copied before the formatted rest. */
  lemma PrefixSteps(p: string, t: string, args: seq<nat>)
    requires |p| == 3 && '{' !in p && Fields(t) <= |args|
    ensures Fields(p + t) == Fields(t)
    ensures Format(p + t, args) == p + Format(t, args)
  {
    FormatLiteral(p[2], t, args);
    FormatLiteral(p[1], [p[2]] + t, args);
    FormatLiteral(p[0], [p[1]] + ([p[2]] + t), args);
    ThreeChars(p, t);
    ThreeChars(p, Format(t, args));
  }

  lemma ThreeChars(p: string, x: string)
    requires |p| == 3
    ensures p + x == [p[0]] + ([p[1]] + ([p[2]] + x))
  {
    assert p == [p[0]] + [p[1]] + [p[2]];
  }

  /** Formatting an output-switch template one piece at a time. */
  lemma SwitchSteps(v: string, p: char, t1: string, t2: string, output: nat)
    requires t1 == "." && t2 == Field + t1 && v == [p] + ("OUT" + t2) && p != '{'
    ensures Fields(v) == 1
    ensures Format(v, [output]) == [p] + "OUT" + Pad2(output) + "."
  {
    FormatLiteral('.', [], []);
    assert t1 == ['.'] + [];
    assert [output][1..] == [];
    FormatField(t1, [output]);
    PrefixSteps("OUT", t2, [output]);
    FormatLiteral(p, "OUT" + t2, [output]);
  }

  /** The output-switch templates carry one field between the prefix and the period. */
  lemma SwitchTemplate(on: bool, output: nat)
    ensures Fields(Value(if on then OutputOn else OutputOff)) == 1
    ensures Format(Value(if on then OutputOn else OutputOff), [output])
         == [if on then '@' else '$'] + "OUT" + Pad2(output) + "."
  {
    if on {
      SwitchSteps(Value(OutputOn), '@', ".", Field + ".", output);
    } else {
      SwitchSteps(Value(OutputOff), '$', ".", Field + ".", output);
    }
  }

  /** A template without an opening brace has no fields. */
  lemma {:induction false} NoBraceNoFields(t: string)
    requires '{' !in t
    ensures Fields(t) == 0
  {
    if t != [] {
      assert t[1..] <= t[1..];
      assert forall k :: 0 <= k < |t| - 1 ==> t[1..][k] == t[k + 1];
      NoBraceNoFields(t[1..]);
      assert |t| >= |Field| ==> t[..|Field|][0] == t[0];
    }
  }

  /** Whether a member is a template that needs arguments. */
  predicate Parameterised(c: Command) {
    c.RouteOutput? || c.OutputOn? || c.OutputOff?
  }

  /** The members that are not templates are sent exactly as written. */
  lemma FixedMembers(c: Command)
    ensures !Parameterised(c) <==> Fields(Value(c)) == 0
    ensures c == RouteOutput ==> Fields(Value(c)) == 2
    ensures c.OutputOn? || c.OutputOff? ==> Fields(Value(c)) == 1
  {
    if c == RouteOutput {
      RouteTemplate(0, 0);
    } else if c == OutputOn {
      SwitchTemplate(true, 0);
    } else if c == OutputOff {
      SwitchTemplate(false, 0);
    } else {
      NoBraceNoFields(Value(c));
    }
  }

  // ---------------------------------------------------------------- validation

  datatype RangeError = InputOutOfRange(count: nat) | OutputOutOfRange(count: nat)

  /** `_validate_routing_params`: the input is checked before the output. */
  function ValidateRouting(input: int, output: int): (r: Outcome<RangeError>)
    ensures r.Pass? <==> 1 <= input <= InputCount && 1 <= output <= OutputCount
    ensures r == Fail(InputOutOfRange(InputCount)) <==> !(1 <= input <= InputCount)
    ensures r == Fail(OutputOutOfRange(OutputCount)) <==> 1 <= input <= InputCount && !(1 <= output <= OutputCount)
  {
    if !(1 <= input <= InputCount) then Fail(InputOutOfRange(InputCount))
    else if !(1 <= output <= OutputCount) then Fail(OutputOutOfRange(OutputCount))
    else Pass
  }

  /** The output check that the output-on and output-off builders make. */
  function ValidateOutput(output: int): (r: Outcome<RangeError>)
    ensures r.Pass? <==> 1 <= output <= OutputCount
    ensures r.Fail? ==> r.error == OutputOutOfRange(OutputCount)
  {
    if !(1 <= output <= OutputCount) then Fail(OutputOutOfRange(OutputCount)) else Pass
  }

  // ---------------------------------------------------------------- payloads

  /** Reads a route payload back: `OUTxx:yy.` gives (input yy, output xx). */
  function DecodeRoute(p: seq<byte>): Option<(nat, nat)>
  {
    var s := Decode(p);
    if |s| == 9 && s[..3] == "OUT" && AllDigits(s[3..5]) && s[5] == ':' && AllDigits(s[6..8]) && s[8] == '.'
    then Some((DigitsValue(s[6..8]), DigitsValue(s[3..5])))
    else None
  }

  /** Reads an output-switch payload back: `@OUTxx.` is (on, xx) and `$OUTxx.` is (off, xx). */
  function DecodeSwitch(p: seq<byte>): Option<(bool, nat)>
  {
    var s := Decode(p);
    if |s| == 7 && (s[0] == '@' || s[0] == '$') && s[1..4] == "OUT" && AllDigits(s[4..6]) && s[6] == '.'
    then Some((s[0] == '@', DigitsValue(s[4..6])))
    else None
  }

  lemma DecodeRouteOf(input: nat, output: nat)
    requires input < 100 && output < 100
    ensures IsAscii("OUT" + Pad2(output) + ":" + Pad2(input) + ".")
    ensures DecodeRoute(Encode("OUT" + Pad2(output) + ":" + Pad2(input) + ".")) == Some((input, output))
  {
    var s := "OUT" + Pad2(output) + ":" + Pad2(input) + ".";
    DecodeEncode(s);
    assert s[..3] == "OUT" && s[3..5] == Pad2(output) && s[5] == ':' && s[6..8] == Pad2(input) && s[8] == '.';
  }

  lemma DecodeSwitchOf(p: char, output: nat)
    requires (p == '@' || p == '$') && output < 100
    ensures IsAscii([p] + "OUT" + Pad2(output) + ".")
    ensures DecodeSwitch(Encode([p] + "OUT" + Pad2(output) + ".")) == Some((p == '@', output))
  {
    var s := [p] + "OUT" + Pad2(output) + ".";
    DecodeEncode(s);
    assert s[0] == p && s[1..4] == "OUT" && s[4..6] == Pad2(output) && s[6] == '.';
  }

  /** `_build_route_command`: validates, then formats the route template with the
      output first and the input second. */
  function BuildRouteCommand(input: int, output: int): (r: Result<seq<byte>, RangeError>)
    ensures r.Ok? <==> 1 <= input <= InputCount && 1 <= output <= OutputCount
    ensures r.Err? ==> Fail(r.error) == ValidateRouting(input, output)
    ensures r.Ok? ==> r.value == Encode("OUT" + Pad2(output) + ":" + Pad2(input) + ".")
    ensures r.Ok? ==> DecodeRoute(r.value) == Some((input, output))
  {
    match ValidateRouting(input, output)
    case Fail(e) => Err(e)
    case Pass =>
      RouteTemplate(output, input);
      DecodeRouteOf(input, output);
      Ok(Encode(Format(Value(RouteOutput), [output, input])))
  }

  /** The builder shared by output-on (`@`) and output-off (`$`). */
  function BuildSwitchCommand(on: bool, output: int): (r: Result<seq<byte>, RangeError>)
    ensures r.Ok? <==> 1 <= output <= OutputCount
    ensures r.Err? ==> r.error == OutputOutOfRange(OutputCount)
    ensures r.Ok? ==> r.value == Encode([if on then '@' else '$'] + "OUT" + Pad2(output) + ".")
    ensures r.Ok? ==> DecodeSwitch(r.value) == Some((on, output))
  {
    match ValidateOutput(output)
    case Fail(e) => Err(e)
    case Pass =>
      SwitchTemplate(on, output);
      DecodeSwitchOf(if on then '@' else '$', output);
      Ok(Encode(Format(Value(if on then OutputOn else OutputOff), [output])))
  }

  lemma SwitchPrefix(c: char)
    ensures [c] + "OUT" == [c, 'O', 'U', 'T']
  {
  }

  /** `_build_output_on_command`. */
  function BuildOutputOnCommand(output: int): (r: Result<seq<byte>, RangeError>)
    ensures r.Ok? <==> 1 <= output <= OutputCount
    ensures r.Err? ==> r.error == OutputOutOfRange(OutputCount)
    ensures r.Ok? ==> r.value == Encode("@OUT" + Pad2(output) + ".")
    ensures r.Ok? ==> DecodeSwitch(r.value) == Some((true, output))
  {
    SwitchPrefix('@');
    BuildSwitchCommand(true, output)
  }

  /** `_build_output_off_command`. */
  function BuildOutputOffCommand(output: int): (r: Result<seq<byte>, RangeError>)
    ensures r.Ok? <==> 1 <= output <= OutputCount
    ensures r.Err? ==> r.error == OutputOutOfRange(OutputCount)
    ensures r.Ok? ==> r.value == Encode("$OUT" + Pad2(output) + ".")
    ensures r.Ok? ==> DecodeSwitch(r.value) == Some((false, output))
  {
    SwitchPrefix('$');
    BuildSwitchCommand(false, output)
  }

  /** Two accepted routing requests give the same payload only if they are the same request. */
  lemma RoutePayloadInjective(i1: int, o1: int, i2: int, o2: int)
    requires BuildRouteCommand(i1, o1).Ok? && BuildRouteCommand(i2, o2).Ok?
    requires BuildRouteCommand(i1, o1).value == BuildRouteCommand(i2, o2).value
    ensures i1 == i2 && o1 == o2
  {
  }

  /** Routing input 2 to output 3 sends `OUT03:02.`: the output comes first. */
  lemma RouteExampleOutputFirst()
    ensures BuildRouteCommand(2, 3) == Ok(Encode("OUT03:02."))
  {
    assert "OUT" + Pad2(3) + ":" + Pad2(2) + "." == "OUT03:02." by {
      assert Pad2(3) == "03" && Pad2(2) == "02";
    }
  }

  /** The lowest ports give `OUT01:01.`. */
  lemma RouteExampleLowest()
    ensures BuildRouteCommand(1, 1) == Ok(Encode("OUT01:01."))
  {
    assert "OUT" + Pad2(1) + ":" + Pad2(1) + "." == "OUT01:01." by {
      assert Pad2(1) == "01";
    }
  }

  /** With both numbers out of range the input error is the one raised. */
  lemma RouteExampleRejected()
    ensures BuildRouteCommand(0, 0) == Err(InputOutOfRange(4))
    ensures BuildRouteCommand(1, 5) == Err(OutputOutOfRange(4))
  {
  }

  /** The output-on example the test suite checks. */
  lemma OutputOnExample()
    ensures BuildOutputOnCommand(2) == Ok(Encode("@OUT02."))
  {
    assert Pad2(2) == "02";
    assert ['@'] + "OUT" + "02" + "." == "@OUT02.";
  }

  /** The output-off example the test suite checks. */
  lemma OutputOffExample()
    ensures BuildOutputOffCommand(4) == Ok(Encode("$OUT04."))
  {
    assert Pad2(4) == "04";
    assert ['$'] + "OUT" + "04" + "." == "$OUT04.";
  }

  /** The out-of-range outputs the test suite checks. */
  lemma SwitchRejected()
    ensures BuildOutputOnCommand(0).Err? && BuildOutputOnCommand(-1).Err? && BuildOutputOffCommand(5).Err?
  {
  }

  // ---------------------------------------------------------------- fixed table

  /** `_SIMPLE_COMMANDS`: each generated method name and the enumeration member it sends. */
  const SimpleCommands: seq<(string, Command)> := [
    ("get_device_name", Name),
    ("get_device_status", Status),
    ("get_device_type", Type),
    ("get_device_version", Version),
    ("get_video_status", StatusVideo),
    ("get_hdbt_power_status", StatusPhdbt),
    ("get_input_status", StatusInput),
    ("get_output_status", StatusOutput),
    ("get_hdcp_status", StatusHdcp),
    ("get_downscaling_status", StatusDownscaling),
    ("power_on", PowerOn),
    ("power_off", PowerOff)
  ]

  /** The command a generated method sends, if `name` is one of the generated methods. */
  function LookupSimple(name: string): (r: Option<Command>)
    ensures r.Some? <==> exists i :: 0 <= i < |SimpleCommands| && SimpleCommands[i].0 == name
    ensures r.Some? ==> !Parameterised(r.value)
  {
    assert forall i :: 0 <= i < |SimpleCommands| ==> !Parameterised(SimpleCommands[i].1);
    LookupIn(SimpleCommands, name)
  }

  function LookupIn(table: seq<(string, Command)>, name: string): (r: Option<Command>)
    ensures r.Some? <==> exists i :: 0 <= i < |table| && table[i].0 == name
    ensures r.Some? ==> exists i :: 0 <= i < |table| && table[i] == (name, r.value)
  {
    if table == [] then None
    else if table[0].0 == name then Some(table[0].1)
    else
      var r := LookupIn(table[1..], name);
      assert forall i :: 0 < i < |table| ==> table[i] == table[1..][i - 1];
      r
  }

  /** The payload a generated method passes to the transaction: the member's value as ASCII bytes. */
  function SimplePayload(name: string): (p: Option<seq<byte>>)
    ensures p.Some? <==> LookupSimple(name).Some?
    ensures p.Some? ==> p.value == Encode(Value(LookupSimple(name).value))
    ensures p.Some? ==> Decode(p.value) == Value(LookupSimple(name).value)
  {
    match LookupSimple(name)
    case None => None
    case Some(c) =>
      DecodeEncode(Value(c));
      Some(Encode(Value(c)))
  }

  /** No method name appears twice in the fixed table. */
  lemma SimpleNamesDistinct()
    ensures forall i, j :: 0 <= i < j < |SimpleCommands| ==> SimpleCommands[i].0 != SimpleCommands[j].0
  {
  }

  /** Each entry of the fixed table is found under its own name, and every entry
      names a member that is sent as written. */
  lemma SimpleTableWellFormed()
    ensures forall i :: 0 <= i < |SimpleCommands| ==> LookupSimple(SimpleCommands[i].0) == Some(SimpleCommands[i].1)
    ensures forall i :: 0 <= i < |SimpleCommands| ==> !Parameterised(SimpleCommands[i].1)
  {
    forall i | 0 <= i < |SimpleCommands|
      ensures LookupSimple(SimpleCommands[i].0) == Some(SimpleCommands[i].1)
    {
      var r := LookupSimple(SimpleCommands[i].0);
      var k :| 0 <= k < |SimpleCommands| && SimpleCommands[k] == (SimpleCommands[i].0, r.value);
      SimpleNamesDistinct();
    }
  }
}

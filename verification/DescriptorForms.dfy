/** The forms the descriptor parser takes: derivation suffixes, thresholds, trailing text, depth and delimiters. */
module DescriptorForms {
  import opened Text
  import opened BalancedSyntax
  import opened DescriptorSyntax

  // ---------- Derivation suffixes ----------

  /** One derivation step: an index, the wildcard, or a tuple in angle brackets. */
  predicate IsStep(s: string)
  {
    || (s != "" && forall c | c in s :: '0' <= c <= '9')
    || s == "*"
    || (|s| >= 3 && s[0] == '<' && s[|s| - 1] == '>' && forall i | 0 < i < |s| - 1 :: s[i] != '>')
  }

  /** The steps, each behind a slash. */
  function Slashed(steps: seq<string>): string
  {
    if steps == [] then "" else "/" + (steps[0] + Slashed(steps[1..]))
  }

  lemma {:induction false} DigitRunStops(a: string, rest: string)
    requires (forall c | c in a :: IsDigit(c)) && (rest == "" || !IsDigit(rest[0]))
    ensures DigitRun(a + rest) == |a|
  {
    if a == "" {
      assert a + rest == rest;
    } else {
      assert (a + rest)[1..] == a[1..] + rest && a[0] in a;
      DigitRunStops(a[1..], rest);
    }
  }

  lemma {:induction false} UntilAngleStops(a: string, rest: string)
    requires (forall i | 0 <= i < |a| :: a[i] != '>') && rest != "" && rest[0] == '>'
    ensures UntilAngle(a + rest) == |a|
  {
    if a == "" {
      assert a + rest == rest;
    } else {
      assert (a + rest)[1..] == a[1..] + rest;
      UntilAngleStops(a[1..], rest);
    }
  }

  lemma {:induction false} DigitRunIsDigits(s: string)
    ensures forall i | 0 <= i < DigitRun(s) :: '0' <= s[i] <= '9'
  {
    if s != "" && IsDigit(s[0]) {
      DigitRunIsDigits(s[1..]);
      assert forall i | 0 < i < |s| :: s[i] == s[1..][i - 1];
    }
  }

  lemma {:induction false} UntilAngleIsInside(s: string)
    ensures forall i | 0 <= i < UntilAngle(s) :: s[i] != '>'
    ensures UntilAngle(s) < |s| ==> s[UntilAngle(s)] == '>'
  {
    if s != "" && s[0] != '>' {
      UntilAngleIsInside(s[1..]);
      assert forall i | 0 < i < |s| :: s[i] == s[1..][i - 1];
    }
  }

  lemma StepLengthOfStep(step: string, rest: string)
    requires IsStep(step) && (rest == "" || rest[0] == '/')
    ensures StepLength(step + rest) == |step|
  {
    var s := step + rest;
    assert s[0] == step[0] && step[0] in step;
    if step == "*" {
    } else if step[0] == '<' {
      var inside, after := step[1..|step| - 1], ">" + rest;
      assert s[1..] == inside + after;
      UntilAngleStops(inside, after);
    } else {
      DigitRunStops(step, rest);
    }
  }

  lemma StepOfLength(s: string)
    requires StepLength(s) > 0
    ensures IsStep(s[..StepLength(s)])
  {
    if s[0] == '*' {
    } else if s[0] == '<' {
      UntilAngleIsInside(s[1..]);
      var step := s[..StepLength(s)];
      assert forall i | 0 < i < |s| :: s[i] == s[1..][i - 1];
      assert step[|step| - 1] == '>';
    } else {
      DigitRunIsDigits(s);
    }
  }

  /** A derivation suffix is one step or more, each behind a slash. */
  lemma {:induction false} StepsAreSuffix(steps: seq<string>)
    requires steps != [] && forall i | 0 <= i < |steps| :: IsStep(steps[i])
    ensures DerivationSuffix(Slashed(steps))
    decreases |steps|
  {
    hide IsStep;
    var s, rest := Slashed(steps), Slashed(steps[1..]);
    assert s[1..] == steps[0] + rest;
    StepLengthOfStep(steps[0], rest);
    assert |steps[0]| > 0 by {
      NoEmptyStep(steps[0]);
    }
    if |steps| > 1 {
      StepsAreSuffix(steps[1..]);
      assert s[1 + |steps[0]|..] == rest;
    }
  }

  lemma NoEmptyStep(step: string)
    requires IsStep(step)
    ensures step != ""
  {
  }

  lemma {:induction false} SuffixIsSteps(s: string) returns (steps: seq<string>)
    requires DerivationSuffix(s)
    ensures steps != [] && (forall i | 0 <= i < |steps| :: IsStep(steps[i])) && s == Slashed(steps)
    decreases |s|
  {
    hide IsStep;
    var n := StepLength(s[1..]);
    var step := s[1..][..n];
    StepOfLength(s[1..]);
    if 1 + n == |s| {
      steps := [step];
      assert steps[1..] == [] && s == "/" + (step + "");
    } else {
      var more := SuffixIsSteps(s[1 + n..]);
      steps := [step] + more;
      assert steps[1..] == more;
      assert s == "/" + (step + s[1 + n..]);
    }
  }

  // ---------- Text behind a call ----------

  /**
   * A call with text behind it is recognized only when it is a musig() key with derivation steps;
   * the descriptor is null for every other name and every other text.
   */
  lemma TextBehindCall(name: string, raw: seq<string>, suffix: string)
    requires AllWord(name) && name != "" && raw != [] && AllPlain(raw, true) && suffix != ""
    ensures !(name == "musig" && DerivationSuffix(suffix)) ==>
              Expression(CallText(name, Join(raw)) + suffix) == Unrecognized
    ensures name == "musig" && DerivationSuffix(suffix) ==>
              Expression(CallText(name, Join(raw)) + suffix) == Expression(CallText(name, Join(raw)))
  {
    var call, body := CallText(name, Join(raw)), CallText(name, Join(raw)) + suffix;
    if name == "musig" && DerivationSuffix(suffix) {
      MusigSuffixIsLost(raw, suffix);
    } else {
      CallHead(name, Join(raw), suffix);
      NotOneCall(name, raw, suffix);
      HeadOfPrinted("", body);
      assert WrapperText("") + body == body;
      hide ReadCall, CallText, Join, DerivationSuffix;
    }
  }

  lemma NotOneCall(name: string, raw: seq<string>, suffix: string)
    requires AllWord(name) && name != "" && raw != [] && AllPlain(raw, true) && suffix != ""
    requires !(name == "musig" && DerivationSuffix(suffix))
    ensures ReadCall(CallText(name, Join(raw)) + suffix) == NoCall
  {
    var inner, call := Join(raw), CallText(name, Join(raw));
    CallHead(name, inner, suffix);
    JoinIsClean(raw, true);
    CloseOfCall(name, inner, true);
    CloseBeforeSuffix(call, suffix, |name|, 0);
    ReadCallAt(call + suffix, |call| - 1);
    SlicesOfCall(name, inner, suffix);
    SplitOfJoin(raw, true);
    hide ReadCall, CallText, DerivationSuffix;
  }

  // ---------- First arguments ----------

  /** The first argument of a threshold or multisig stays text, even when it looks like a fragment. */
  lemma ThresholdStaysText(name: string, raw: seq<string>)
    requires name == "thresh" || name == "multi" || name == "multi_a" || name == "sortedmulti" || name == "sortedmulti_a"
    requires raw != [] && AllPlain(raw, true)
    ensures var parse := Expression(CallText(name, Join(raw)));
            parse.Parsed? ==> |parse.node.args| == |raw| && parse.node.args[0] == Leaf(raw[0])
  {
    assert AllWord(name) && NumericFirst(name);
    ParseOfCall(name, raw, 0);
    FirstOfCall(name, raw, 0);
    assert ParseArg(raw[0], true, 1) == Ok(Leaf(raw[0]));
    hide ParseCall, ParseArg, CallText, Join, AllWord, AllPlain, NumericFirst, ParseAt;
  }

  /** The first argument of any other fragment is parsed when it parses. */
  lemma FirstArgumentIsParsed(name: string, raw: seq<string>)
    requires AllWord(name) && name != ""
    requires name != "thresh" && name != "multi" && name != "multi_a" && name != "sortedmulti" && name != "sortedmulti_a"
    requires raw != [] && AllPlain(raw, true) && ParseAt(raw[0], 1).Parsed?
    ensures var parse := Expression(CallText(name, Join(raw)));
            parse.Parsed? ==> |parse.node.args| == |raw| && parse.node.args[0] == ParseAt(raw[0], 1).node
  {
    ParseOfCall(name, raw, 0);
    FirstOfCall(name, raw, 0);
    ParsedArgument(raw[0], 1);
    assert !NumericFirst(name);
    hide ParseCall, ParseArg, CallText, Join, AllWord, AllPlain, NumericFirst, ParseAt;
  }

  lemma ParsedArgument(text: string, depth: nat)
    requires ParseAt(text, depth).Parsed?
    ensures ParseArg(text, false, depth) == Ok(ParseAt(text, depth).node)
  {
    hide ParseArgs;
    assert LooksNested(text);
  }

  lemma FirstOfCall(name: string, raw: seq<string>, depth: nat)
    requires raw != [] && depth <= MAX_EXPRESSION_DEPTH
    ensures var parse := ParseCall("", CallOf(name, raw, ""), depth);
            parse.Parsed? ==>
              && |parse.node.args| == |raw|
              && ParseArg(raw[0], NumericFirst(name), depth + 1) == Ok(parse.node.args[0])
  {
    var opaqueFirst := NumericFirst(name);
    hide NumericFirst, ParseArg;
    if ParseArgs(raw, opaqueFirst, depth + 1).Ok? {
      ParsedArgsParts(raw, opaqueFirst, depth + 1);
    }
  }

  /** A call without a wrapper is parsed argument by argument. */
  lemma ParseOfCall(name: string, raw: seq<string>, depth: nat)
    requires AllWord(name) && name != "" && raw != [] && AllPlain(raw, true) && depth <= MAX_EXPRESSION_DEPTH
    ensures LooksNested(CallText(name, Join(raw)))
    ensures ParseAt(CallText(name, Join(raw)), depth) == ParseCall("", CallOf(name, raw, ""), depth)
  {
    var body := CallText(name, Join(raw));
    assert body + "" == body;
    CallHead(name, Join(raw), "");
    HeadOfPrinted("", body);
    assert WrapperText("") + body == body;
    ReadOfPrintedCall(name, raw, "");
  }

  // ---------- Depth ----------

  /** `levels` calls of `name` around a call of it that holds only text. */
  function Tower(name: string, text: string, levels: nat): (e: Expr)
    ensures e.Node?
    decreases levels
  {
    Node(name, "", [if levels == 0 then Leaf(text) else Tower(name, text, levels - 1)])
  }

  lemma PrintOfTower(name: string, text: string, levels: nat)
    requires !IsConstant(name)
    ensures Print(Tower(name, text, levels))
         == CallText(name, if levels == 0 then text else Print(Tower(name, text, levels - 1)))
  {
    var e := Tower(name, text, levels);
    assert PrintAll(e.args) == [Print(e.args[0])];
    assert "" + CallText(name, Print(e.args[0])) == CallText(name, Print(e.args[0]));
  }

  lemma CallOfPlain(name: string, inner: string)
    requires AllWord(name) && Plain(inner, true)
    ensures Plain(CallText(name, inner), true)
  {
    assert forall c | c in name :: IsWord(c);
    CallIsPlain(name, inner, true);
  }

  lemma LevelIsPlain(name: string, text: string, levels: nat)
    requires IsOrdinary(name) && AllHex(text) && |text| > 1
    requires levels > 0 ==> Plain(Print(Tower(name, text, levels - 1)), true)
    ensures Plain(Print(Tower(name, text, levels)), true)
  {
    OrdinaryName(name);
    PrintOfTower(name, text, levels);
    KeyStaysText(text, 0);
    CallOfPlain(name, if levels == 0 then text else Print(Tower(name, text, levels - 1)));
    hide *;
  }

  lemma {:induction false} TowerIsPlain(name: string, text: string, levels: nat)
    requires IsOrdinary(name) && AllHex(text) && |text| > 1
    ensures Plain(Print(Tower(name, text, levels)), true)
    decreases levels
  {
    hide *;
    if levels > 0 {
      TowerIsPlain(name, text, levels - 1);
    }
    LevelIsPlain(name, text, levels);
  }

  /** What the parser makes of a tower: the tree down to depth 128, and a refusal below. */
  lemma {:induction false} ParseOfTower(name: string, text: string, levels: nat, depth: nat)
    requires IsOrdinary(name) && AllHex(text) && |text| > 1
    ensures ParseAt(Print(Tower(name, text, levels)), depth)
         == if depth + levels <= 128 then Parsed(Tower(name, text, levels)) else Refused(TooDeep)
    ensures LooksNested(Print(Tower(name, text, levels)))
    decreases levels
  {
    hide Plain, IsOrdinary, StaysText, LooksNested, Print, CallText;
    var inner := if levels == 0 then text else Print(Tower(name, text, levels - 1));
    OrdinaryName(name);
    PrintOfTower(name, text, levels);
    KeyStaysText(text, depth + 1);
    if levels > 0 {
      TowerIsPlain(name, text, levels - 1);
      ParseOfTower(name, text, levels - 1, depth + 1);
    }
    OneArgument(name, text, inner, levels, depth);
  }

  lemma OneArgument(name: string, text: string, inner: string, levels: nat, depth: nat)
    requires IsOrdinary(name) && Plain(inner, true)
    requires levels == 0 ==> inner == text && StaysText(text, depth + 1)
    requires levels > 0 ==>
               && LooksNested(inner)
               && ParseAt(inner, depth + 1)
                  == if depth + levels <= 128 then Parsed(Tower(name, text, levels - 1)) else Refused(TooDeep)
    ensures LooksNested(CallText(name, inner))
    ensures ParseAt(CallText(name, inner), depth)
         == if depth + levels <= 128 then Parsed(Tower(name, text, levels)) else Refused(TooDeep)
  {
    assert Join([inner]) == inner;
    OrdinaryName(name);
    ParseOfCall(name, [inner], 0);
    if depth <= MAX_EXPRESSION_DEPTH {
      ParseOfCall(name, [inner], depth);
      OnlyArgument(name, inner, depth);
      assert levels > 0 ==>
               (ParseArg(inner, false, depth + 1) == if depth + levels <= 128 then Ok(Tower(name, text, levels - 1)) else Err(TooDeep));
      hide Plain, LooksNested, CallText, Join, ParseArg, ParseCall, StaysText, IsOrdinary;
    }
  }

  lemma OrdinaryName(name: string)
    requires IsOrdinary(name)
    ensures AllWord(name) && name != "" && !NumericFirst(name) && !IsConstant(name)
  {
  }

  lemma OnlyArgument(name: string, text: string, depth: nat)
    requires !NumericFirst(name) && depth <= MAX_EXPRESSION_DEPTH
    ensures ParseCall("", CallOf(name, [text], ""), depth)
         == match ParseArg(text, false, depth + 1)
            case Err(reason) => Refused(reason)
            case Ok(arg) => Parsed(Node(name, "", [arg]))
  {
    hide ParseArg, NumericFirst;
    assert [text][1..] == [];
    assert ParseArgs([], false, depth + 1) == Ok([]);
    assert forall arg: Expr :: [arg] + [] == [arg];
  }

  // ---------- Delimiters ----------

  /** A balanced text between a pair of its own is one argument; angle brackets are a pair when they count. */
  lemma PairsAreArguments(inner: string, angles: bool)
    requires Clean(inner, angles)
    ensures Plain("(" + inner + ")", angles) && Plain("[" + inner + "]", angles) && Plain("{" + inner + "}", angles)
    ensures angles ==> Plain("<" + inner + ">", angles)
    ensures !angles ==> Plain("<", angles) && Plain(">", angles)
  {
    EnclosedIsPlain('(', inner, ')', Levels(1, 0, 0, 0), angles);
    EnclosedIsPlain('[', inner, ']', Levels(0, 1, 0, 0), angles);
    EnclosedIsPlain('{', inner, '}', Levels(0, 0, 1, 0), angles);
    if angles {
      EnclosedIsPlain('<', inner, '>', Levels(0, 0, 0, 1), angles);
    } else {
      OneFolds('<', ZERO, angles);
      OneFolds('>', ZERO, angles);
    }
  }

  /** A pair that is only opened, or only closed, is refused. */
  lemma OpenPairIsRefused(inner: string, angles: bool)
    requires Clean(inner, angles)
    ensures Split("(" + inner, angles) == Split("[" + inner, angles) == Split("{" + inner, angles) == None
    ensures Split(inner + ")", angles) == Split(inner + "]", angles) == Split(inner + "}", angles) == None
    ensures angles ==> Split("<" + inner, angles) == Split(inner + ">", angles) == None
  {
    OpenedOnly('(', inner, Levels(1, 0, 0, 0), angles);
    OpenedOnly('[', inner, Levels(0, 1, 0, 0), angles);
    OpenedOnly('{', inner, Levels(0, 0, 1, 0), angles);
    ClosedOnly(inner, ')', angles);
    ClosedOnly(inner, ']', angles);
    ClosedOnly(inner, '}', angles);
    if angles {
      OpenedOnly('<', inner, Levels(0, 0, 0, 1), angles);
      ClosedOnly(inner, '>', angles);
    }
  }

  lemma OpenedOnly(opening: char, inner: string, base: Levels, angles: bool)
    requires Clean(inner, angles) && base.NonNegative() && base != ZERO && opening != ','
    requires Step(ZERO, opening, angles) == base
    ensures Split([opening] + inner, angles) == None
  {
    OneFolds(opening, ZERO, angles);
    FoldConcat([opening], inner, ZERO, angles);
    FoldShift(inner, ZERO, base, angles);
    SplitExactly([opening] + inner, angles);
  }

  lemma ClosedOnly(inner: string, closing: char, angles: bool)
    requires Clean(inner, angles) && !Step(ZERO, closing, angles).NonNegative()
    ensures Split(inner + [closing], angles) == None
  {
    assert [closing][0] == closing;
    FoldConcat(inner, [closing], ZERO, angles);
    SplitExactly(inner + [closing], angles);
  }
}

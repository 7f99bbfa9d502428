/** Descriptor expressions: the fragment catalog, the bounded parser and the printer. */
module DescriptorSyntax {
  import opened Text
  import opened BalancedSyntax

  // ---------- The fragment catalog ----------

  predicate IsScriptKey(name: string) { name == "pk" || name == "pk_k" || name == "pkh" || name == "pk_h" }

  predicate IsDescriptorKey(name: string)
  {
    IsScriptKey(name) || name == "wpkh" || name == "combo" || name == "rawtr"
  }

  predicate IsSortedMultisig(name: string) { name == "sortedmulti" || name == "sortedmulti_a" }

  predicate IsMultisig(name: string) { name == "multi" || name == "multi_a" || IsSortedMultisig(name) }

  predicate NumericFirst(name: string) { name == "thresh" || IsMultisig(name) }

  predicate IsOutputWrapper(name: string) { name == "sh" || name == "wsh" }

  predicate IsHash(name: string)
  {
    name == "sha256" || name == "hash256" || name == "ripemd160" || name == "hash160"
  }

  predicate IsAnd(name: string) { name == "and_v" || name == "and_b" || name == "and_n" }

  predicate IsOr(name: string) { name == "or_b" || name == "or_c" || name == "or_d" || name == "or_i" }

  predicate IsOpaque(name: string)
  {
    name == "raw" || name == "addr" || name == "sp" || name == "combo" || name == "tr"
  }

  /** A name whose calls are ordinary: every argument that looks nested is parsed. */
  predicate IsOrdinary(name: string)
  {
    AllWord(name) && name != "" && !NumericFirst(name) && !IsConstant(name)
  }

  /** A parsed fragment, or an argument that stays text. */
  datatype Expr = Leaf(text: string) | Node(name: string, wrappers: string, args: seq<Expr>)

  datatype Refusal = TooDeep | UnclosedPair | Unbalanced

  /** A parsed node, the null of an unrecognized form, or a refusal. */
  datatype Parse = Parsed(node: Expr) | Unrecognized | Refused(reason: Refusal)

  const MAX_EXPRESSION_DEPTH := 128

  predicate IsConstant(name: string) { name == "0" || name == "1" }

  // ---------- The parser ----------

  /** How many letters stand before a leading `letters:`; 0 when the text has no wrapper. */
  function WrapperLength(text: string): (n: nat)
    ensures n > 0 ==> n < |text| && text[n] == ':' && AllLower(text[..n])
  {
    var n := LowerRun(text);
    if n < |text| && text[n] == ':' then n else 0
  }

  function WrapperOf(text: string): string { text[..WrapperLength(text)] }

  function BodyOf(text: string): (body: string)
    ensures |body| <= |text|
    ensures text == (if WrapperOf(text) == "" then "" else WrapperOf(text) + ":") + body
  {
    var n := WrapperLength(text);
    if n == 0 then text else text[n + 1..]
  }

  /** How long the name is when `body` starts as a call `name(`; 0 when it does not. */
  function CallLength(body: string): (n: nat)
    ensures n > 0 ==> n < |body| && body[n] == '(' && AllWord(body[..n])
  {
    var n := WordRun(body);
    if n < |body| && body[n] == '(' then n else 0
  }

  /** An argument that is parsed on: a call or one of the two constants, each perhaps wrapped. */
  predicate LooksNested(text: string)
  {
    CallLength(BodyOf(text)) > 0 || IsConstant(BodyOf(text))
  }

  /** The length of one derivation step: digits, a multipath tuple, or the wildcard. */
  function StepLength(s: string): (n: nat)
    ensures n <= |s|
  {
    if s == "" then 0
    else if s[0] == '*' then 1
    else if s[0] == '<' then
      var inside := UntilAngle(s[1..]);
      if inside > 0 && 1 + inside < |s| then 2 + inside else 0
    else DigitRun(s)
  }

  function UntilAngle(s: string): (n: nat)
    ensures n <= |s|
  {
    if s == "" || s[0] == '>' then 0 else 1 + UntilAngle(s[1..])
  }

  function DigitRun(s: string): (n: nat)
    ensures n <= |s|
  {
    if s == "" || !IsDigit(s[0]) then 0 else 1 + DigitRun(s[1..])
  }

  /** The derivation suffix that a musig() key expression may carry after its close. */
  predicate DerivationSuffix(s: string)
    decreases |s|
  {
    && |s| > 1 && s[0] == '/'
    && var n := StepLength(s[1..]);
       n > 0 && (1 + n == |s| || DerivationSuffix(s[1 + n..]))
  }

  /** A text read as one call: its name, its arguments and the suffix a musig() key may carry. */
  datatype Call = NoCall | Faulty(reason: Refusal) | CallOf(name: string, raw: seq<string>, suffix: string)

  /** The call that `body` is; a text that goes on after its close is no call, except for musig(). */
  function ReadCall(body: string): (r: Call)
    ensures r.CallOf? ==> r.raw != []
  {
    var open := CallLength(body);
    if open == 0 then NoCall
    else match MatchingClose(body, open)
      case None => Faulty(UnclosedPair)
      case Some(close) => ReadClosed(body[..open], body[open + 1..close], body[close + 1..])
  }

  function ReadClosed(name: string, inner: string, suffix: string): (r: Call)
    ensures r.CallOf? ==> r.raw != []
  {
    match Split(inner, true)
    case None => Faulty(Unbalanced)
    case Some(raw) =>
      if suffix == "" || (name == "musig" && DerivationSuffix(suffix))
      then CallOf(name, raw, suffix)
      else NoCall
  }

  function Remaining(depth: nat): nat
  {
    if depth > MAX_EXPRESSION_DEPTH then 0 else MAX_EXPRESSION_DEPTH + 1 - depth
  }

  /** `expressionAtDepth`. */
  function ParseAt(text: string, depth: nat): (r: Parse)
    ensures r.Parsed? ==> r.node.Node? && depth <= MAX_EXPRESSION_DEPTH
    decreases Remaining(depth), 1
  {
    if depth > MAX_EXPRESSION_DEPTH then Refused(TooDeep)
    else if IsConstant(BodyOf(text)) then Parsed(Node(BodyOf(text), WrapperOf(text), []))
    else ParseCall(WrapperOf(text), ReadCall(BodyOf(text)), depth)
  }

  function ParseCall(wrappers: string, call: Call, depth: nat): (r: Parse)
    requires depth <= MAX_EXPRESSION_DEPTH
    ensures r.Parsed? ==> r.node.Node? && call.CallOf?
    decreases Remaining(depth), 0
  {
    match call
    case NoCall => Unrecognized
    case Faulty(reason) => Refused(reason)
    case CallOf(name, raw, _) =>
      match ParseArgs(raw, NumericFirst(name), depth + 1)
      case Err(reason) => Refused(reason)
      case Ok(args) => Parsed(Node(name, wrappers, args))
  }

  /** An argument that looks nested is parsed, unless it is `opaque`; text it stays otherwise. */
  function ParseArg(text: string, opaqueArg: bool, depth: nat): Result<Expr, Refusal>
    decreases Remaining(depth), 2
  {
    if opaqueArg || !LooksNested(text) then Ok(Leaf(text))
    else match ParseAt(text, depth)
      case Refused(reason) => Err(reason)
      case Parsed(node) => Ok(node)
      case Unrecognized => Ok(Leaf(text))
  }

  /** Parses the arguments in order; `opaqueFirst` keeps the first one as text. */
  function ParseArgs(raw: seq<string>, opaqueFirst: bool, depth: nat): (r: Result<seq<Expr>, Refusal>)
    ensures r.Ok? ==> |r.value| == |raw|
    decreases Remaining(depth), 3 + |raw|
  {
    if raw == [] then Ok([])
    else match ParseArg(raw[0], opaqueFirst, depth)
      case Err(reason) => Err(reason)
      case Ok(first) => PrependArg(first, ParseArgs(raw[1..], false, depth))
  }

  function PrependArg(first: Expr, rest: Result<seq<Expr>, Refusal>): Result<seq<Expr>, Refusal>
  {
    match rest case Err(reason) => Err(reason) case Ok(args) => Ok([first] + args)
  }

  /** `expression`. */
  function Expression(text: string): Parse { ParseAt(text, 0) }

  // ---------- The printer ----------

  function WrapperText(wrappers: string): string
  {
    if wrappers == "" then "" else wrappers + ":"
  }

  /** The text of a tree, as the materializer writes it when no key changes and nothing is sorted. */
  function Print(e: Expr): string
  {
    match e
    case Leaf(text) => text
    case Node(name, wrappers, args) =>
      WrapperText(wrappers) + if IsConstant(name) then name else CallText(name, Join(PrintAll(args)))
  }

  function CallText(name: string, inner: string): string { name + "(" + inner + ")" }

  function PrintAll(es: seq<Expr>): (texts: seq<string>)
    ensures |texts| == |es| && forall i | 0 <= i < |es| :: texts[i] == Print(es[i])
  {
    if es == [] then [] else [Print(es[0])] + PrintAll(es[1..])
  }

  // ---------- Parsing a printed tree ----------

  /** The trees that the parser can return at `depth` for a text it keeps whole. */
  predicate WellFormed(e: Expr, depth: nat)
    requires e.Node?
    decreases e, 0
  {
    && depth <= MAX_EXPRESSION_DEPTH
    && AllLower(e.wrappers)
    && e.name != "" && AllWord(e.name)
    && if IsConstant(e.name) then e.args == []
       else e.args != [] && WellFormedArgs(e.args, NumericFirst(e.name), depth + 1)
  }

  predicate WellFormedArg(arg: Expr, opaqueArg: bool, depth: nat)
    decreases arg, 1
  {
    match arg
    case Leaf(text) => Plain(text, true) && (opaqueArg || StaysText(text, depth))
    case Node(_, _, _) => !opaqueArg && WellFormed(arg, depth)
  }

  predicate WellFormedArgs(args: seq<Expr>, opaqueFirst: bool, depth: nat)
    decreases args, 0
  {
    args == [] || (WellFormedArg(args[0], opaqueFirst, depth) && WellFormedArgs(args[1..], false, depth))
  }

  /** The parser leaves this argument as text at `depth`. */
  predicate StaysText(text: string, depth: nat)
  {
    ParseArg(text, false, depth) == Ok(Leaf(text))
  }

  predicate IsDelimiter(c: char) { c in {'(', ')', '[', ']', '{', '}', '<', '>', ','} }

  /** Text without delimiters is one plain argument. */
  lemma {:induction false} BareTextFolds(text: string, levels: Levels, angles: bool)
    requires levels.NonNegative() && forall c | c in text :: !IsDelimiter(c)
    ensures Fold(text, levels, angles) == Some(levels) && NoTopComma(text, levels, angles)
  {
    if text != "" {
      assert !IsDelimiter(text[0]);
      BareTextFolds(text[1..], levels, angles);
    }
  }

  /** Text that holds no parenthesis and is not a constant, wrapped or not, stays text. */
  lemma PlainTextStays(text: string, depth: nat)
    requires '(' !in text && ':' !in text && !IsConstant(text)
    ensures StaysText(text, depth)
  {
    var wrapper := LowerRun(text);
    assert wrapper < |text| ==> text[wrapper] in text;
    var name := WordRun(text);
    assert name < |text| ==> text[name] in text;
  }

  /** A hexadecimal key stays text, and is one plain argument. */
  lemma KeyStaysText(key: string, depth: nat)
    requires AllHex(key) && |key| > 1
    ensures Plain(key, true) && StaysText(key, depth)
  {
    forall c | c in key ensures !IsDelimiter(c) && c != ':' {
      assert IsHex(c);
    }
    BareTextFolds(key, ZERO, true);
    PlainTextStays(key, depth);
  }

  lemma {:induction false} JoinIsClean(parts: seq<string>, angles: bool)
    requires AllPlain(parts, angles)
    ensures Clean(Join(parts), angles)
  {
    if |parts| >= 1 {
      assert Plain(parts[0], angles);
      if |parts| > 1 {
        JoinIsClean(parts[1..], angles);
        FoldConcat(parts[0] + ",", Join(parts[1..]), ZERO, angles);
        FoldConcat(parts[0], ",", ZERO, angles);
        assert parts[0] + "," + Join(parts[1..]) == (parts[0] + ",") + Join(parts[1..]);
      }
    }
  }

  /** A clean body between parentheses is one plain argument. */
  lemma ParenthesesArePlain(inner: string, angles: bool)
    requires Clean(inner, angles)
    ensures Plain("(" + inner + ")", angles)
  {
    EnclosedIsPlain('(', inner, ')', Levels(1, 0, 0, 0), angles);
  }

  /** A clean body between an opening and its own closing is one plain argument. */
  lemma EnclosedIsPlain(opening: char, inner: string, closing: char, base: Levels, angles: bool)
    requires Clean(inner, angles) && base.NonNegative() && base != ZERO && opening != ',' && closing != ','
    requires Step(ZERO, opening, angles) == base && Step(base, closing, angles) == ZERO
    ensures Plain([opening] + inner + [closing], angles)
  {
    hide Step, Fold, NoTopComma;
    OneFolds(opening, ZERO, angles);
    BodyBelow(inner, base, angles);
    OneFolds(closing, base, angles);
    PassesBoth([opening], inner, ZERO, base, base, angles);
    PassesBoth([opening] + inner, [closing], ZERO, base, ZERO, angles);
    PlainPasses([opening] + inner + [closing], angles);
  }

  lemma PlainConcat(a: string, b: string, angles: bool)
    requires Plain(a, angles) && Plain(b, angles)
    ensures Plain(a + b, angles)
  {
    hide Step, Fold, NoTopComma;
    PassesBoth(a, b, ZERO, ZERO, ZERO, angles);
    PlainPasses(a + b, angles);
  }

  lemma BodyBelow(inner: string, base: Levels, angles: bool)
    requires Clean(inner, angles) && base.NonNegative() && base != ZERO
    ensures Fold(inner, base, angles) == Some(base) && NoTopComma(inner, base, angles)
  {
    FoldShift(inner, ZERO, base, angles);
    NoTopCommaBelow(inner, ZERO, base, angles);
  }

  /** A call of a clean body is one plain argument. */
  lemma CallIsPlain(head: string, inner: string, angles: bool)
    requires Clean(inner, angles) && forall c | c in head :: IsWord(c) || c == ':'
    ensures Plain(head + "(" + inner + ")", angles)
  {
    var call := "(" + inner + ")";
    BareTextFolds(head, ZERO, angles);
    ParenthesesArePlain(inner, angles);
    PlainConcat(head, call, angles);
    assert head + "(" + inner + ")" == head + call;
  }

  lemma {:induction false} PrintIsPlain(arg: Expr, opaqueArg: bool, depth: nat)
    requires WellFormedArg(arg, opaqueArg, depth)
    ensures Plain(Print(arg), true)
    decreases arg
  {
    if arg.Node? {
      var head := WrapperText(arg.wrappers) + arg.name;
      if IsConstant(arg.name) {
        BareTextFolds(head, ZERO, true);
      } else {
        PrintAllIsPlain(arg.args, NumericFirst(arg.name), depth + 1);
        JoinIsClean(PrintAll(arg.args), true);
        CallIsPlain(head, Join(PrintAll(arg.args)), true);
        assert Print(arg) == head + "(" + Join(PrintAll(arg.args)) + ")";
      }
    }
  }

  lemma {:induction false} PrintAllIsPlain(args: seq<Expr>, opaqueFirst: bool, depth: nat)
    requires WellFormedArgs(args, opaqueFirst, depth)
    ensures AllPlain(PrintAll(args), true)
    decreases args
  {
    if args != [] {
      PrintIsPlain(args[0], opaqueFirst, depth);
      PrintAllIsPlain(args[1..], false, depth);
      assert forall i | 0 < i < |args| :: PrintAll(args)[i] == PrintAll(args[1..])[i - 1];
    }
  }

  /** The parser takes a printed head apart again. */
  lemma HeadOfPrinted(wrappers: string, body: string)
    requires AllLower(wrappers) && body != ""
    requires LowerRun(body) == |body| || body[LowerRun(body)] != ':'
    ensures WrapperOf(WrapperText(wrappers) + body) == wrappers
    ensures BodyOf(WrapperText(wrappers) + body) == body
  {
    if wrappers == "" {
      assert "" + body == body;
    } else {
      LowerRunStops(wrappers, ":" + body);
      assert WrapperText(wrappers) + body == wrappers + (":" + body);
    }
  }

  lemma WordThenOpen(name: string, rest: string)
    requires AllWord(name) && name != "" && rest != "" && rest[0] == '('
    ensures CallLength(name + rest) == |name|
    ensures var s := name + rest; LowerRun(s) < |s| && s[LowerRun(s)] != ':'
  {
    WordRunStops(name, rest);
    LowerRunWithin(name, rest);
    var n := LowerRun(name + rest);
    if n < |name| {
      assert name[n] in name;
    }
  }

  lemma CallHead(name: string, inner: string, suffix: string)
    requires AllWord(name) && name != ""
    ensures var s := CallText(name, inner) + suffix;
            && s != "" && !IsConstant(s) && CallLength(s) == |name|
            && LowerRun(s) < |s| && s[LowerRun(s)] != ':'
  {
    var rest := "(" + inner + ")" + suffix;
    WordThenOpen(name, rest);
    assert CallText(name, inner) + suffix == name + rest;
  }

  lemma SlicesOfCall(name: string, inner: string, suffix: string)
    ensures var body := CallText(name, inner) + suffix;
            && body[..|name|] == name
            && body[|name| + 1..|name| + 1 + |inner|] == inner
            && body[|name| + 1 + |inner| + 1..] == suffix
  {
  }

  lemma ReadCallAt(body: string, close: nat)
    requires CallLength(body) > 0 && MatchingClose(body, CallLength(body)) == Some(close)
    requires CallLength(body) < close < |body|
    ensures ReadCall(body) == ReadClosed(body[..CallLength(body)], body[CallLength(body) + 1..close], body[close + 1..])
  {
  }

  /** Reading a printed call gives its name, its arguments and what follows it. */
  lemma ReadOfPrintedCall(name: string, raw: seq<string>, suffix: string)
    requires AllWord(name) && name != "" && raw != [] && AllPlain(raw, true)
    requires suffix == "" || (name == "musig" && DerivationSuffix(suffix))
    ensures ReadCall(CallText(name, Join(raw)) + suffix) == CallOf(name, raw, suffix)
  {
    var inner := Join(raw);
    var call := CallText(name, inner);
    CallHead(name, inner, suffix);
    JoinIsClean(raw, true);
    CloseOfCall(name, inner, true);
    CloseBeforeSuffix(call, suffix, |name|, 0);
    ReadCallAt(call + suffix, |call| - 1);
    SlicesOfCall(name, inner, suffix);
    SplitOfJoin(raw, true);
  }

  /** A call that was read is its name, its joined arguments and its suffix. */
  lemma TextOfReadCall(body: string)
    requires ReadCall(body).CallOf?
    ensures ReadCall(body).name != "" && AllWord(ReadCall(body).name) && AllPlain(ReadCall(body).raw, true)
    ensures body == CallText(ReadCall(body).name, Join(ReadCall(body).raw)) + ReadCall(body).suffix
  {
    var open := CallLength(body);
    var close := MatchingClose(body, open).value;
    var inner := body[open + 1..close];
    hide Split, AllPlain, Clean, Join, AllWord, DerivationSuffix;
    SplitExactly(inner, true);
    TextAroundClose(body, open, close);
  }

  lemma TextAroundClose(body: string, open: nat, close: nat)
    requires open < close < |body| && body[open] == '(' && body[close] == ')'
    ensures body == CallText(body[..open], body[open + 1..close]) + body[close + 1..]
  {
  }

  lemma WrapperIsLower(part: string)
    ensures AllLower(WrapperOf(part))
  {
  }

  /** A parsed text that is no constant is a call whose arguments were parsed. */
  lemma ParsedParts(text: string, depth: nat)
    requires ParseAt(text, depth).Parsed? && !IsConstant(BodyOf(text))
    ensures var call := ReadCall(BodyOf(text));
            && call.CallOf? && call.raw != [] && ParseArgs(call.raw, NumericFirst(call.name), depth + 1).Ok?
            && ParseAt(text, depth).node
               == Node(call.name, WrapperOf(text), ParseArgs(call.raw, NumericFirst(call.name), depth + 1).value)
  {
    hide ReadCall, NumericFirst, BodyOf, WrapperOf;
  }

  lemma ParsedArgsParts(raw: seq<string>, opaqueFirst: bool, depth: nat)
    requires raw != [] && ParseArgs(raw, opaqueFirst, depth).Ok?
    ensures ParseArg(raw[0], opaqueFirst, depth).Ok? && ParseArgs(raw[1..], false, depth).Ok?
    ensures var args := ParseArgs(raw, opaqueFirst, depth).value;
            && args != [] && args[0] == ParseArg(raw[0], opaqueFirst, depth).value
            && args[1..] == ParseArgs(raw[1..], false, depth).value
  {
    hide ParseArg;
  }

  /** Parsing the text of a well-formed tree gives the tree back. */
  lemma {:induction false} ParseOfPrint(e: Expr, depth: nat)
    requires e.Node? && WellFormed(e, depth)
    ensures ParseAt(Print(e), depth) == Parsed(e)
    ensures LooksNested(Print(e))
    decreases e, 0
  {
    assert Print(e) == WrapperText(e.wrappers) + BodyText(e);
    if IsConstant(e.name) {
      ParseOfPrintedConstant(e.name, e.wrappers, depth);
    } else {
      ReadOfPrintedBody(e, depth);
      ParseOfPrintedArgs(e.args, NumericFirst(e.name), depth + 1);
      ParseOfRead(Print(e), e, depth);
    }
  }

  lemma ParseOfPrintedConstant(name: string, wrappers: string, depth: nat)
    requires IsConstant(name) && AllLower(wrappers) && depth <= MAX_EXPRESSION_DEPTH
    ensures ParseAt(WrapperText(wrappers) + name, depth) == Parsed(Node(name, wrappers, []))
    ensures LooksNested(WrapperText(wrappers) + name)
  {
    assert LowerRun(name) == 0;
    HeadOfPrinted(wrappers, name);
  }

  /** A text read as the call of `e` parses to `e` when the arguments do. */
  lemma ParseOfRead(text: string, e: Expr, depth: nat)
    requires e.Node? && depth <= MAX_EXPRESSION_DEPTH
    requires WrapperOf(text) == e.wrappers && !IsConstant(BodyOf(text))
    requires ReadCall(BodyOf(text)) == CallOf(e.name, PrintAll(e.args), "")
    requires ParseArgs(PrintAll(e.args), NumericFirst(e.name), depth + 1) == Ok(e.args)
    ensures ParseAt(text, depth) == Parsed(e)
  {
  }

  lemma ReadOfPrintedBody(e: Expr, depth: nat)
    requires e.Node? && WellFormed(e, depth) && !IsConstant(e.name)
    ensures var text := WrapperText(e.wrappers) + BodyText(e);
            && WrapperOf(text) == e.wrappers && BodyOf(text) == BodyText(e)
            && !IsConstant(BodyText(e)) && CallLength(BodyText(e)) > 0
            && ReadCall(BodyText(e)) == CallOf(e.name, PrintAll(e.args), "")
  {
    PrintAllIsPlain(e.args, NumericFirst(e.name), depth + 1);
    CallHead(e.name, Join(PrintAll(e.args)), "");
    assert BodyText(e) + "" == BodyText(e);
    HeadOfPrinted(e.wrappers, BodyText(e));
    ReadOfPrintedCall(e.name, PrintAll(e.args), "");
  }

  lemma {:induction false} ParseOfPrintedArg(arg: Expr, opaqueArg: bool, depth: nat)
    requires WellFormedArg(arg, opaqueArg, depth)
    ensures ParseArg(Print(arg), opaqueArg, depth) == Ok(arg)
    decreases arg, 1
  {
    if arg.Node? {
      ParseOfPrint(arg, depth);
    }
  }

  lemma {:induction false} ParseOfPrintedArgs(args: seq<Expr>, opaqueFirst: bool, depth: nat)
    requires WellFormedArgs(args, opaqueFirst, depth)
    ensures ParseArgs(PrintAll(args), opaqueFirst, depth) == Ok(args)
    decreases args, 0
  {
    hide ParseArg, WellFormedArg, Print;
    if args != [] {
      var printed := PrintAll(args);
      ParseOfPrintedArg(args[0], opaqueFirst, depth);
      ParseOfPrintedArgs(args[1..], false, depth);
      assert printed[1..] == PrintAll(args[1..]) && printed[0] == Print(args[0]);
      assert [args[0]] + args[1..] == args;
    }
  }

  // ---------- Printing a parsed text ----------

  /**
   * The parser keeps the whole text: no parsed fragment is a musig() with a derivation suffix, and
   * none is a call named `0` or `1`.
   */
  predicate Exact(text: string, depth: nat)
    decreases Remaining(depth), 1
  {
    depth <= MAX_EXPRESSION_DEPTH && ExactCall(ReadCall(BodyOf(text)), depth)
  }

  predicate ExactCall(call: Call, depth: nat)
    requires depth <= MAX_EXPRESSION_DEPTH
    decreases Remaining(depth), 0
  {
    call.CallOf? ==>
      call.suffix == "" && !IsConstant(call.name) && ExactArgs(call.raw, NumericFirst(call.name), depth + 1)
  }

  predicate ExactArgs(raw: seq<string>, opaqueFirst: bool, depth: nat)
    decreases Remaining(depth), 3 + |raw|
  {
    raw == [] || (
      && (opaqueFirst || StaysText(raw[0], depth) || Exact(raw[0], depth))
      && ExactArgs(raw[1..], false, depth))
  }

  /** `shorter` is no longer than `longer`, and equal to it when it is as long; `exact` says which. */
  predicate Shrinks(shorter: string, longer: string, exact: bool)
  {
    && |shorter| <= |longer|
    && (exact <==> |shorter| == |longer|)
    && (exact ==> shorter == longer)
  }

  lemma {:induction false} JoinShrinks(shorter: seq<string>, longer: seq<string>, first: bool, rest: bool)
    requires |shorter| == |longer| >= 1
    requires Shrinks(shorter[0], longer[0], first)
    requires if |shorter| == 1 then rest else Shrinks(Join(shorter[1..]), Join(longer[1..]), rest)
    ensures Shrinks(Join(shorter), Join(longer), first && rest)
  {
  }

  /** Printing a parsed text gives the text exactly when the parser kept all of it. */
  lemma {:induction false} PrintOfParse(text: string, depth: nat)
    requires ParseAt(text, depth).Parsed?
    ensures Shrinks(Print(ParseAt(text, depth).node), text, Exact(text, depth))
    decreases Remaining(depth), 1
  {
    var wrappers, body := WrapperOf(text), BodyOf(text);
    var call := ReadCall(body);
    assert text == WrapperText(wrappers) + body;
    if IsConstant(body) {
      assert call.NoCall?;
    } else {
      TextOfReadCall(body);
      PrintOfParsedCall(wrappers, call, depth);
      HeadShrinks(wrappers, BodyText(ParseCall(wrappers, call, depth).node), body, ExactCall(call, depth));
    }
  }

  function BodyText(e: Expr): string
    requires e.Node?
  {
    if IsConstant(e.name) then e.name else CallText(e.name, Join(PrintAll(e.args)))
  }

  lemma HeadShrinks(wrappers: string, shorter: string, longer: string, exact: bool)
    requires Shrinks(shorter, longer, exact)
    ensures Shrinks(WrapperText(wrappers) + shorter, WrapperText(wrappers) + longer, exact)
  {
  }

  lemma {:induction false} PrintOfParsedCall(wrappers: string, call: Call, depth: nat)
    requires depth <= MAX_EXPRESSION_DEPTH && ParseCall(wrappers, call, depth).Parsed?
    ensures Shrinks(BodyText(ParseCall(wrappers, call, depth).node),
                    CallText(call.name, Join(call.raw)) + call.suffix, ExactCall(call, depth))
    decreases Remaining(depth), 0
  {
    var CallOf(name, raw, suffix) := call;
    PrintOfParsedArgs(raw, NumericFirst(name), depth + 1);
    var args := ParseArgs(raw, NumericFirst(name), depth + 1).value;
    CallShrinks(name, Join(PrintAll(args)), Join(raw), suffix, ExactArgs(raw, NumericFirst(name), depth + 1));
  }

  lemma CallShrinks(name: string, printed: string, inner: string, suffix: string, exact: bool)
    requires Shrinks(printed, inner, exact)
    ensures Shrinks(if IsConstant(name) then name else CallText(name, printed), CallText(name, inner) + suffix,
                    suffix == "" && !IsConstant(name) && exact)
  {
    if suffix == "" {
      assert CallText(name, inner) + suffix == CallText(name, inner);
    }
  }

  lemma {:induction false} PrintOfParsedArg(text: string, opaqueArg: bool, depth: nat)
    requires ParseArg(text, opaqueArg, depth).Ok?
    ensures Shrinks(Print(ParseArg(text, opaqueArg, depth).value), text,
                    opaqueArg || StaysText(text, depth) || Exact(text, depth))
    decreases Remaining(depth), 2
  {
    if !opaqueArg && ParseArg(text, opaqueArg, depth).value.Node? {
      PrintOfParse(text, depth);
    }
  }

  lemma {:induction false} PrintOfParsedArgs(raw: seq<string>, opaqueFirst: bool, depth: nat)
    requires ParseArgs(raw, opaqueFirst, depth).Ok?
    ensures Shrinks(Join(PrintAll(ParseArgs(raw, opaqueFirst, depth).value)), Join(raw),
                    ExactArgs(raw, opaqueFirst, depth))
    decreases Remaining(depth), 3 + |raw|
  {
    if raw != [] {
      var printed := PrintAll(ParseArgs(raw, opaqueFirst, depth).value);
      var rest := ParseArgs(raw[1..], false, depth).value;
      PrintOfParsedArg(raw[0], opaqueFirst, depth);
      PrintOfParsedArgs(raw[1..], false, depth);
      assert printed[1..] == PrintAll(rest);
      JoinShrinks(printed, raw, opaqueFirst || StaysText(raw[0], depth) || Exact(raw[0], depth),
                  ExactArgs(raw[1..], false, depth));
    }
  }

  /** No call of the tree is named `0` or `1`. */
  predicate NoConstantCalls(e: Expr)
  {
    e.Leaf? || ((IsConstant(e.name) ==> e.args == []) && forall a | a in e.args :: NoConstantCalls(a))
  }

  /** What the parser returns is well-formed, apart from calls named `0` or `1`. */
  lemma {:induction false} ParsedIsWellFormed(text: string, depth: nat)
    requires ParseAt(text, depth).Parsed? && NoConstantCalls(ParseAt(text, depth).node)
    ensures WellFormed(ParseAt(text, depth).node, depth)
    decreases Remaining(depth), 1
  {
    if IsConstant(BodyOf(text)) {
      ConstantIsWellFormed(text, depth);
    } else {
      ParsedParts(text, depth);
      TextOfReadCall(BodyOf(text));
      WrapperIsLower(text);
      hide ParseAt, ParseArgs, ReadCall, BodyOf, WrapperOf, NumericFirst, AllPlain, AllWord, AllLower, Join, IsConstant,
           WellFormedArgs, WellFormed;
      var call := ReadCall(BodyOf(text));
      ParsedArgsAreWellFormed(call.raw, NumericFirst(call.name), depth + 1);
      NodeIsWellFormed(ParseAt(text, depth).node, depth);
    }
  }

  lemma ConstantIsWellFormed(text: string, depth: nat)
    requires ParseAt(text, depth).Parsed? && IsConstant(BodyOf(text))
    ensures WellFormed(ParseAt(text, depth).node, depth)
  {
    WrapperIsLower(text);
    hide BodyOf, WrapperOf, ReadCall, ParseArgs, AllLower;
  }

  lemma NodeIsWellFormed(e: Expr, depth: nat)
    requires e.Node? && depth <= MAX_EXPRESSION_DEPTH && NoConstantCalls(e) && e.args != []
    requires AllLower(e.wrappers) && e.name != "" && AllWord(e.name)
    requires WellFormedArgs(e.args, NumericFirst(e.name), depth + 1)
    ensures WellFormed(e, depth)
  {
    hide AllLower, AllWord, NumericFirst, WellFormedArgs;
  }

  lemma {:induction false} ParsedArgIsWellFormed(text: string, opaqueArg: bool, depth: nat)
    requires ParseArg(text, opaqueArg, depth).Ok? && Plain(text, true)
    requires NoConstantCalls(ParseArg(text, opaqueArg, depth).value)
    ensures WellFormedArg(ParseArg(text, opaqueArg, depth).value, opaqueArg, depth)
    decreases Remaining(depth), 2
  {
    hide ParseAt, WellFormed, NoConstantCalls, Plain;
    if ParseArg(text, opaqueArg, depth).value.Node? {
      ParsedIsWellFormed(text, depth);
    }
  }

  lemma {:induction false} ParsedArgsAreWellFormed(raw: seq<string>, opaqueFirst: bool, depth: nat)
    requires ParseArgs(raw, opaqueFirst, depth).Ok? && AllPlain(raw, true)
    requires forall a | a in ParseArgs(raw, opaqueFirst, depth).value :: NoConstantCalls(a)
    ensures WellFormedArgs(ParseArgs(raw, opaqueFirst, depth).value, opaqueFirst, depth)
    decreases Remaining(depth), 3 + |raw|
  {
    if raw != [] {
      ParsedArgsParts(raw, opaqueFirst, depth);
      hide ParseArg, ParseArgs, NoConstantCalls, WellFormedArg, Plain;
      var args := ParseArgs(raw, opaqueFirst, depth).value;
      assert args[0] in args && Plain(raw[0], true);
      assert forall a | a in args[1..] :: a in args;
      ParsedArgIsWellFormed(raw[0], opaqueFirst, depth);
      ParsedArgsAreWellFormed(raw[1..], false, depth);
    }
  }

  /** A text that is kept whole has no call named `0` or `1` in its tree. */
  lemma {:induction false} ExactKeepsConstants(text: string, depth: nat)
    requires ParseAt(text, depth).Parsed? && Exact(text, depth)
    ensures NoConstantCalls(ParseAt(text, depth).node)
    decreases Remaining(depth), 1
  {
    if !IsConstant(BodyOf(text)) {
      var CallOf(name, raw, _) := ReadCall(BodyOf(text));
      ExactArgsKeepConstants(raw, NumericFirst(name), depth + 1);
    }
  }

  lemma {:induction false} ExactArgsKeepConstants(raw: seq<string>, opaqueFirst: bool, depth: nat)
    requires ParseArgs(raw, opaqueFirst, depth).Ok? && ExactArgs(raw, opaqueFirst, depth)
    ensures forall a | a in ParseArgs(raw, opaqueFirst, depth).value :: NoConstantCalls(a)
    decreases Remaining(depth), 3 + |raw|
  {
    if raw != [] {
      var args := ParseArgs(raw, opaqueFirst, depth).value;
      if args[0].Node? {
        ExactKeepsConstants(raw[0], depth);
      }
      ExactArgsKeepConstants(raw[1..], false, depth);
      assert args == [args[0]] + ParseArgs(raw[1..], false, depth).value;
    }
  }

  /** Printing a parsed tree and parsing again changes nothing, whatever the first text carried. */
  lemma ReprintIsStable(text: string)
    requires Expression(text).Parsed? && NoConstantCalls(Expression(text).node)
    ensures Expression(Print(Expression(text).node)) == Expression(text)
  {
    ParsedIsWellFormed(text, 0);
    ParseOfPrint(Expression(text).node, 0);
  }

  /** The derivation suffix of a musig() key is read and then forgotten. */
  lemma MusigSuffixIsLost(raw: seq<string>, suffix: string)
    requires raw != [] && AllPlain(raw, true) && DerivationSuffix(suffix)
    ensures Expression(CallText("musig", Join(raw)) + suffix) == Expression(CallText("musig", Join(raw)))
  {
    UnwrappedCall("musig", raw, suffix);
    UnwrappedCall("musig", raw, "");
    assert CallText("musig", Join(raw)) + "" == CallText("musig", Join(raw));
  }

  lemma UnwrappedCall(name: string, raw: seq<string>, suffix: string)
    requires AllWord(name) && name != "" && raw != [] && AllPlain(raw, true)
    requires suffix == "" || (name == "musig" && DerivationSuffix(suffix))
    ensures Expression(CallText(name, Join(raw)) + suffix) == ParseCall("", CallOf(name, raw, suffix), 0)
  {
    var body := CallText(name, Join(raw)) + suffix;
    CallHead(name, Join(raw), suffix);
    HeadOfPrinted("", body);
    assert WrapperText("") + body == body;
    ReadOfPrintedCall(name, raw, suffix);
  }

  lemma ConstantNames(name: string)
    requires IsConstant(name)
    ensures AllWord(name) && name != "" && !NumericFirst(name)
  {
    assert |name| == 1;
  }

  /** The arguments of a call named `0` or `1` are read and then not printed. */
  lemma ConstantArgumentsAreLost(name: string, raw: seq<string>)
    requires IsConstant(name) && raw != [] && AllPlain(raw, true) && ParseArgs(raw, false, 1).Ok?
    ensures Expression(CallText(name, Join(raw))) == Parsed(Node(name, "", ParseArgs(raw, false, 1).value))
    ensures Print(Node(name, "", ParseArgs(raw, false, 1).value)) == name
  {
    hide NumericFirst, ReadCall, ParseAt;
    ConstantNames(name);
    UnwrappedCall(name, raw, "");
    assert CallText(name, Join(raw)) + "" == CallText(name, Join(raw));
  }
}

/** The text scan for `name(…)` fragments, and its agreement with a walk over the parsed tree. */
module FragmentScan {
  import opened Text
  import opened BalancedSyntax
  import opened DescriptorSyntax

  // ---------- The scan ----------

  /** `name(` stands at `p`. */
  predicate HeadAt(text: string, name: string, p: nat)
  {
    p + |name| < |text| && text[p..p + |name|] == name && text[p + |name|] == '('
  }

  /** `name(` stands at `p` and is not the end of a longer name. */
  predicate CallAt(text: string, name: string, p: nat)
  {
    HeadAt(text, name, p) && (p == 0 || !IsWord(text[p - 1]))
  }

  /** The bodies of the calls of `name` from `from` on, one position after the other; None is the refusal. */
  function Bodies(text: string, name: string, from: nat): Option<seq<string>>
    requires from <= |text|
    decreases |text| - from
  {
    if from == |text| then Some([])
    else if !CallAt(text, name, from) then Bodies(text, name, from + 1)
    else match MatchingClose(text, from + |name|)
      case None => None
      case Some(close) => Prepend([text[from + |name| + 1..close]], Bodies(text, name, close + 1))
  }

  /** `text.indexOf(name + "(", from)`. */
  function IndexOf(text: string, name: string, from: nat): (r: Option<nat>)
    requires from <= |text|
    ensures r.Some? ==> from <= r.value && HeadAt(text, name, r.value)
                        && forall p | from <= p < r.value :: !HeadAt(text, name, p)
    ensures r.None? ==> forall p | from <= p :: !HeadAt(text, name, p)
    decreases |text| - from
  {
    if HeadAt(text, name, from) then Some(from)
    else if from == |text| then None
    else IndexOf(text, name, from + 1)
  }

  lemma {:induction false} NoCallBetween(text: string, name: string, from: nat, to: nat)
    requires from <= to <= |text|
    requires forall p | from <= p < to :: !CallAt(text, name, p)
    ensures Bodies(text, name, from) == Bodies(text, name, to)
    decreases |text| - from
  {
    if from < to {
      NoCallBetween(text, name, from + 1, to);
    }
  }

  /** A head at `p` would need a name character, or its opening, at `q`. */
  lemma NoHeadOver(text: string, name: string, p: nat, q: nat)
    requires AllWord(name) && name != "" && p <= q < |text| && q - p <= |name|
    requires q - p < |name| ==> !IsWord(text[q])
    requires q - p == |name| ==> text[q] != '('
    ensures !HeadAt(text, name, p)
  {
    if p + |name| < |text| && q - p < |name| {
      assert text[p..p + |name|][q - p] == text[q];
      assert name[q - p] in name;
    }
  }

  lemma LongerNameIsSkipped(text: string, name: string, start: nat)
    requires AllWord(name) && name != "" && HeadAt(text, name, start) && !CallAt(text, name, start)
    ensures Bodies(text, name, start) == Bodies(text, name, start + |name|)
  {
    forall p | start < p < start + |name| ensures !CallAt(text, name, p) {
      NoHeadOver(text, name, p, start + |name|);
    }
    NoCallBetween(text, name, start, start + |name|);
  }

  /** Up to the first head there is no call. */
  lemma FirstHead(text: string, name: string, from: nat)
    requires from <= |text|
    ensures match IndexOf(text, name, from)
            case None => Bodies(text, name, from) == Some([])
            case Some(start) =>
              && start + |name| < |text| && HeadAt(text, name, start)
              && Bodies(text, name, from) == Bodies(text, name, start)
  {
    var found := IndexOf(text, name, from);
    NoCallBetween(text, name, from, if found.None? then |text| else found.value);
  }

  /** A call adds its body, and the scan goes on after its close. */
  lemma CallStep(text: string, name: string, done: seq<string>, start: nat)
    requires CallAt(text, name, start)
    ensures match MatchingClose(text, start + |name|)
            case None => Prepend(done, Bodies(text, name, start)) == None
            case Some(close) =>
              && start + |name| < close
              && Prepend(done, Bodies(text, name, start))
                 == Prepend(done + [text[start + |name| + 1..close]], Bodies(text, name, close + 1))
  {
    hide CloseFrom;
    match MatchingClose(text, start + |name|)
    case None =>
    case Some(close) =>
      PrependTwice(done, [text[start + |name| + 1..close]], Bodies(text, name, close + 1));
  }

  /** `fragmentBodies`. */
  method FragmentBodies(text: string, name: string) returns (r: Option<seq<string>>)
    requires AllWord(name) && name != ""
    ensures r == Bodies(text, name, 0)
  {
    hide CloseFrom, Closes, AllWord, IsWord, Bodies, HeadAt;
    var results: seq<string> := [];
    var from := 0;
    while from < |text|
      invariant from <= |text|
      invariant Bodies(text, name, 0) == Prepend(results, Bodies(text, name, from))
      decreases |text| - from
    {
      FirstHead(text, name, from);
      var found := IndexOf(text, name, from);
      if found.None? {
        assert results + [] == results;
        return Some(results);
      }
      var start := found.value;
      if start > 0 && IsWord(text[start - 1]) {
        LongerNameIsSkipped(text, name, start);
        from := start + |name|;
      } else {
        CallStep(text, name, results, start);
        var close := FindMatchingClose(text, start + |name|, '(', ')');
        if close.None? {
          return None;
        }
        results := results + [text[start + |name| + 1..close.value]];
        from := close.value + 1;
      }
    }
    NothingLeft(text, name);
    assert results + [] == results;
    return Some(results);
  }

  lemma NothingLeft(text: string, name: string)
    ensures Bodies(text, name, |text|) == Some([])
  {
  }

  /** A first call that no parenthesis closes refuses the scan. */
  lemma UnclosedCallIsRefused(text: string, name: string, p: nat, open: nat)
    requires CallAt(text, name, p) && forall q | 0 <= q < p :: !CallAt(text, name, q)
    requires open == p + |name| && forall close: nat :: !Closes(text, open, close, '(', ')')
    ensures Bodies(text, name, 0) == None
  {
    assert text[open..open] == "";
    CloseFromIsFirst(text, open, open, '(', ')');
    NoCallBetween(text, name, 0, p);
  }

  // ---------- The walk ----------

  /** The argument texts of the outermost nodes called `name`, in order. */
  function Outermost(e: Expr, name: string): seq<string>
  {
    match e
    case Leaf(_) => []
    case Node(own, _, args) =>
      if own == name && args != [] then [Join(PrintAll(args))] else OutermostOf(args, name)
  }

  function OutermostOf(args: seq<Expr>, name: string): seq<string>
  {
    if args == [] then [] else Outermost(args[0], name) + OutermostOf(args[1..], name)
  }

  /** The argument texts of every node called `name`, a node before the ones inside it. */
  function Every(e: Expr, name: string): seq<string>
  {
    match e
    case Leaf(_) => []
    case Node(own, _, args) =>
      (if own == name && args != [] then [Join(PrintAll(args))] else []) + EveryOf(args, name)
  }

  function EveryOf(args: seq<Expr>, name: string): seq<string>
  {
    if args == [] then [] else Every(args[0], name) + EveryOf(args[1..], name)
  }

  /** No node called `name` stands inside another one. */
  predicate NotNested(e: Expr, name: string)
  {
    match e
    case Leaf(_) => true
    case Node(own, _, args) => if own == name then EveryOf(args, name) == [] else NoneNested(args, name)
  }

  predicate NoneNested(args: seq<Expr>, name: string)
  {
    args == [] || (NotNested(args[0], name) && NoneNested(args[1..], name))
  }

  /** The text leaves hold no parenthesis. */
  predicate BareLeaves(e: Expr)
  {
    match e
    case Leaf(text) => '(' !in text
    case Node(_, _, args) => AllBareLeaves(args)
  }

  predicate AllBareLeaves(args: seq<Expr>)
  {
    args == [] || (BareLeaves(args[0]) && AllBareLeaves(args[1..]))
  }

  lemma {:induction false} OutermostIsShorter(e: Expr, name: string)
    ensures |Outermost(e, name)| <= |Every(e, name)|
    ensures Outermost(e, name) == Every(e, name) <==> NotNested(e, name)
    ensures |Outermost(e, name)| == |Every(e, name)| <==> NotNested(e, name)
    decreases e, 1
  {
    if e.Node? {
      OutermostOfIsShorter(e.args, name);
      if e.name == name && e.args == [] {
        assert EveryOf(e.args, name) == [];
      }
    }
  }

  lemma {:induction false} OutermostOfIsShorter(args: seq<Expr>, name: string)
    ensures |OutermostOf(args, name)| <= |EveryOf(args, name)|
    ensures OutermostOf(args, name) == EveryOf(args, name) <==> NoneNested(args, name)
    ensures |OutermostOf(args, name)| == |EveryOf(args, name)| <==> NoneNested(args, name)
    decreases args, 0
  {
    if args != [] {
      OutermostIsShorter(args[0], name);
      OutermostOfIsShorter(args[1..], name);
    }
  }

  // ---------- The scan finds what the walk finds ----------

  predicate At(text: string, at: nat, piece: string)
  {
    at + |piece| <= |text| && text[at..at + |piece|] == piece
  }

  /** A name can start at `at`. */
  predicate Starts(text: string, at: nat) { at <= |text| && (at == 0 || !IsWord(text[at - 1])) }

  /** Position `end` cannot continue a name, nor open a call. */
  predicate Breaks(text: string, end: nat)
    requires end <= |text|
  {
    end == |text| || (!IsWord(text[end]) && text[end] != '(')
  }

  /** A stretch without an opening parenthesis holds no call. */
  lemma QuietStretch(text: string, name: string, at: nat, piece: string)
    requires AllWord(name) && name != "" && At(text, at, piece) && '(' !in piece && Breaks(text, at + |piece|)
    ensures Bodies(text, name, at) == Bodies(text, name, at + |piece|)
  {
    var end := at + |piece|;
    forall p | at <= p < end ensures !CallAt(text, name, p) {
      if p + |name| < end {
        assert text[p + |name|] == piece[p + |name| - at];
        NoHeadOver(text, name, p, p + |name|);
      } else if end < |text| {
        NoHeadOver(text, name, p, end);
      }
    }
    NoCallBetween(text, name, at, end);
  }

  /** Over the head of another name's call there is no call of `name`. */
  lemma OtherHead(text: string, name: string, own: string, at: nat)
    requires AllWord(name) && name != "" && AllWord(own) && own != name
    requires At(text, at, own) && at + |own| < |text| && text[at + |own|] == '('
    ensures Bodies(text, name, at) == Bodies(text, name, at + |own| + 1)
  {
    var open := at + |own|;
    forall p | at <= p < open + 1 ensures !CallAt(text, name, p) {
      if p == open {
        NoHeadOver(text, name, p, open);
      } else if p > at {
        assert text[p - 1] == own[p - 1 - at] && own[p - 1 - at] in own;
      } else if |own| < |name| {
        NoHeadOver(text, name, at, open);
      } else if |own| > |name| {
        assert text[at + |name|] == own[|name|] && own[|name|] in own;
        NoHeadOver(text, name, at, at + |name|);
      }
    }
    NoCallBetween(text, name, at, open + 1);
  }

  lemma Within(text: string, at: nat, piece: string, offset: nat, part: string)
    requires At(text, at, piece) && At(piece, offset, part)
    ensures At(text, at + offset, part)
  {
    var from := at + offset;
    forall k | 0 <= k < |part| ensures text[from + k] == part[k] {
      assert text[at..at + |piece|][offset + k] == text[from + k];
      assert piece[offset..offset + |part|][k] == piece[offset + k];
    }
  }

  lemma CharOf(text: string, at: nat, piece: string, k: nat)
    requires At(text, at, piece) && k < |piece|
    ensures at + k < |text| && text[at + k] == piece[k]
  {
    assert text[at..at + |piece|][k] == text[at + k];
  }

  /** No call starts at a character that is not one of a name. */
  lemma NoCallAt(text: string, name: string, p: nat)
    requires AllWord(name) && name != "" && p < |text| && !IsWord(text[p])
    ensures Bodies(text, name, p) == Bodies(text, name, p + 1)
  {
    NoHeadOver(text, name, p, p);
  }

  /** The wrappers of a node hold no call. */
  lemma WrappersAreQuiet(text: string, name: string, at: nat, wrappers: string)
    requires AllWord(name) && name != "" && AllLower(wrappers) && At(text, at, WrapperText(wrappers))
    ensures Bodies(text, name, at) == Bodies(text, name, at + |WrapperText(wrappers)|)
    ensures wrappers != "" ==> text[at + |wrappers|] == ':'
  {
    if wrappers != "" {
      assert At(WrapperText(wrappers), 0, wrappers);
      Within(text, at, WrapperText(wrappers), 0, wrappers);
      CharOf(text, at, WrapperText(wrappers), |wrappers|);
      QuietStretch(text, name, at, wrappers);
      NoCallAt(text, name, at + |wrappers|);
    }
  }

  /** Where the parts of a call stand. */
  lemma PartsOfCall(text: string, at: nat, name: string, inner: string)
    requires At(text, at, CallText(name, inner))
    ensures At(text, at, name) && At(text, at + |name| + 1, inner)
    ensures at + |CallText(name, inner)| == at + |name| + 1 + |inner| + 1 <= |text|
    ensures text[at + |name|] == '(' && text[at + |name| + 1 + |inner|] == ')'
  {
    var call := CallText(name, inner);
    assert At(call, 0, name) && At(call, |name| + 1, inner);
    Within(text, at, call, 0, name);
    Within(text, at, call, |name| + 1, inner);
    CharOf(text, at, call, |name|);
    CharOf(text, at, call, |name| + 1 + |inner|);
  }

  /** A call of `name` is found with its body, and the scan goes on after its close. */
  lemma CallIsFound(text: string, name: string, at: nat, inner: string)
    requires AllWord(name) && name != "" && Clean(inner, true)
    requires At(text, at, CallText(name, inner)) && Starts(text, at)
    ensures Bodies(text, name, at) == Prepend([inner], Bodies(text, name, at + |CallText(name, inner)|))
  {
    hide CloseFrom, Fold, Prepend;
    PartsOfCall(text, at, name, inner);
    var from := at + |name| + 1;
    CloseAcross(text, from, from + |inner|, ZERO, true);
    CloseStarts(text, at + |name|);
    CloseEnds(text, from + |inner|);
  }

  lemma CloseStarts(text: string, open: nat)
    requires open < |text| && text[open] == '('
    ensures MatchingClose(text, open) == CloseFrom(text, open + 1, 1, '(', ')')
  {
  }

  lemma CloseEnds(text: string, close: nat)
    requires close < |text| && text[close] == ')'
    ensures CloseFrom(text, close, 1, '(', ')') == Some(close)
  {
  }

  lemma PartsOfPair(text: string, at: nat, a: string, b: string)
    requires At(text, at, a + b)
    ensures At(text, at, a) && At(text, at + |a|, b)
  {
    assert At(a + b, 0, a) && At(a + b, |a|, b);
    Within(text, at, a + b, 0, a);
    Within(text, at, a + b, |a|, b);
  }

  lemma PartsOfJoin(text: string, at: nat, first: string, rest: string)
    requires At(text, at, first + "," + rest)
    ensures At(text, at, first) && At(text, at + |first| + 1, rest)
    ensures at + |first| < |text| && text[at + |first|] == ','
  {
    var joined := first + "," + rest;
    assert At(joined, 0, first) && At(joined, |first| + 1, rest);
    Within(text, at, joined, 0, first);
    Within(text, at, joined, |first| + 1, rest);
    CharOf(text, at, joined, |first|);
  }

  // ---------- The scan over a parsed text ----------

  /** The bodies, as written, of the outermost calls of `name` that the parser makes nodes of. */
  function Written(text: string, depth: nat, name: string): seq<string>
    requires ParseAt(text, depth).Parsed?
    decreases Remaining(depth), 1
  {
    if IsConstant(BodyOf(text)) then []
    else
      ParsedParts(text, depth);
      var call := ReadCall(BodyOf(text));
      if call.name == name then [Join(call.raw)] else WrittenOf(call.raw, NumericFirst(call.name), depth + 1, name)
  }

  function WrittenOf(raw: seq<string>, opaqueFirst: bool, depth: nat, name: string): seq<string>
    requires ParseArgs(raw, opaqueFirst, depth).Ok?
    decreases Remaining(depth), 3 + |raw|
  {
    if raw == [] then []
    else
      ParsedArgsParts(raw, opaqueFirst, depth);
      WrittenArg(raw[0], opaqueFirst, depth, name) + WrittenOf(raw[1..], false, depth, name)
  }

  function WrittenArg(text: string, opaqueArg: bool, depth: nat, name: string): seq<string>
    requires ParseArg(text, opaqueArg, depth).Ok?
    decreases Remaining(depth), 2
  {
    if ParseArg(text, opaqueArg, depth).value.Node? then Written(text, depth, name) else []
  }

  /** The bodies of the outermost calls of `name` are kept whole: no dropped suffix, no call named `0` or `1`. */
  predicate BodiesKept(text: string, depth: nat, name: string)
    requires ParseAt(text, depth).Parsed?
    decreases Remaining(depth), 1
  {
    IsConstant(BodyOf(text)) || (
      ParsedParts(text, depth);
      var call := ReadCall(BodyOf(text));
      if call.name == name then ExactArgs(call.raw, NumericFirst(name), depth + 1)
      else AllBodiesKept(call.raw, NumericFirst(call.name), depth + 1, name))
  }

  predicate AllBodiesKept(raw: seq<string>, opaqueFirst: bool, depth: nat, name: string)
    requires ParseArgs(raw, opaqueFirst, depth).Ok?
    decreases Remaining(depth), 3 + |raw|
  {
    raw == [] || (
      && (ParseArg(raw[0], opaqueFirst, depth).value.Node? ==> BodiesKept(raw[0], depth, name))
      && AllBodiesKept(raw[1..], false, depth, name))
  }

  /** No suffix that the parser drops holds a parenthesis. */
  predicate BareSuffixes(text: string, depth: nat)
    requires ParseAt(text, depth).Parsed?
    decreases Remaining(depth), 1
  {
    IsConstant(BodyOf(text)) || (
      ParsedParts(text, depth);
      var call := ReadCall(BodyOf(text));
      '(' !in call.suffix && AllBareSuffixes(call.raw, NumericFirst(call.name), depth + 1))
  }

  predicate AllBareSuffixes(raw: seq<string>, opaqueFirst: bool, depth: nat)
    requires ParseArgs(raw, opaqueFirst, depth).Ok?
    decreases Remaining(depth), 3 + |raw|
  {
    raw == [] || (
      && (ParseArg(raw[0], opaqueFirst, depth).value.Node? ==> BareSuffixes(raw[0], depth))
      && AllBareSuffixes(raw[1..], false, depth))
  }

  /** Where the parts of a parsed text stand: its wrappers, its call and the suffix of the call. */
  lemma PartsOfText(text: string, at: nat, part: string)
    requires At(text, at, part) && ReadCall(BodyOf(part)).CallOf?
    ensures var call := ReadCall(BodyOf(part));
            var from := at + |WrapperText(WrapperOf(part))|;
            var inside := CallText(call.name, Join(call.raw));
            && At(text, at, WrapperText(WrapperOf(part))) && At(text, from, inside) && At(text, from + |inside|, call.suffix)
            && from + |inside| + |call.suffix| == at + |part|
  {
    hide At, CallText, Join, AllWord, AllPlain, ReadCall;
    var call := ReadCall(BodyOf(part));
    TextOfReadCall(BodyOf(part));
    var head, inside := WrapperText(WrapperOf(part)), CallText(call.name, Join(call.raw));
    WholeText(part);
    PartsOfPair(text, at, head, BodyOf(part));
    PartsOfPair(text, at + |head|, inside, call.suffix);
  }

  lemma WholeText(part: string)
    ensures part == WrapperText(WrapperOf(part)) + BodyOf(part)
  {
  }

  /** What is known of a call that was read. */
  lemma FactsOfCall(body: string)
    requires ReadCall(body).CallOf?
    ensures var call := ReadCall(body);
            && AllWord(call.name) && call.name != "" && Clean(Join(call.raw), true)
            && (call.suffix == "" || DerivationSuffix(call.suffix))
  {
    TextOfReadCall(body);
    JoinIsClean(ReadCall(body).raw, true);
  }

  /** What the scan finds over a parsed text, wherever that text stands as an argument. */
  lemma {:induction false} ScanOfText(text: string, name: string, at: nat, part: string, depth: nat)
    requires AllWord(name) && name != "" && !IsConstant(name)
    requires ParseAt(part, depth).Parsed? && BareLeaves(ParseAt(part, depth).node) && BareSuffixes(part, depth)
    requires At(text, at, part) && Breaks(text, at + |part|) && Starts(text, at)
    ensures Bodies(text, name, at) == Prepend(Written(part, depth, name), Bodies(text, name, at + |part|))
    decreases Remaining(depth), 1
  {
    if IsConstant(BodyOf(part)) {
      QuietConstant(part);
      QuietStretch(text, name, at, part);
    } else {
      ParsedParts(part, depth);
      ScanOfCall(text, name, at, part, depth);
    }
  }

  /** The text before and after the arguments of a parsed call. */
  lemma AroundCall(text: string, name: string, at: nat, part: string) returns (from: nat, end: nat)
    requires AllWord(name) && name != "" && ReadCall(BodyOf(part)).CallOf? && '(' !in ReadCall(BodyOf(part)).suffix
    requires At(text, at, part) && Breaks(text, at + |part|) && Starts(text, at)
    ensures at <= from <= end <= at + |part| <= |text| && Starts(text, from)
    ensures end == from + |Inside(part)| && At(text, from, Inside(part))
    ensures Bodies(text, name, at) == Bodies(text, name, from)
    ensures Bodies(text, name, end) == Bodies(text, name, at + |part|)
  {
    hide Bodies, AllLower, AllWord, ReadCall, BodyOf, WrapperOf, WrapperText, CallText, Join, DerivationSuffix, Breaks,
         Clean, Starts;
    var call := ReadCall(BodyOf(part));
    from := at + |WrapperText(WrapperOf(part))|;
    end := from + |Inside(part)|;
    PartsOfText(text, at, part);
    FactsOfCall(BodyOf(part));
    WrapperIsLower(part);
    WrappersAreQuiet(text, name, at, WrapperOf(part));
    AfterWrappers(text, at, WrapperOf(part));
    QuietStretch(text, name, end, call.suffix);
  }

  /** The call of a text, without its wrappers and its suffix. */
  function Inside(part: string): string
    requires ReadCall(BodyOf(part)).CallOf?
  {
    CallText(ReadCall(BodyOf(part)).name, Join(ReadCall(BodyOf(part)).raw))
  }

  lemma {:induction false} ScanOfCall(text: string, name: string, at: nat, part: string, depth: nat)
    requires AllWord(name) && name != "" && !IsConstant(name)
    requires ParseAt(part, depth).Parsed? && !IsConstant(BodyOf(part))
    requires BareLeaves(ParseAt(part, depth).node) && BareSuffixes(part, depth)
    requires At(text, at, part) && Breaks(text, at + |part|) && Starts(text, at)
    ensures Bodies(text, name, at) == Prepend(Written(part, depth, name), Bodies(text, name, at + |part|))
    decreases Remaining(depth), 0
  {
    hide At, Bodies, Prepend, AllWord, Join, CallText, Clean, Breaks, ReadCall, BodyOf, WrapperOf, WrapperText, IsWord,
         ParseAt, ParseArgs, WrittenOf, AllBareLeaves, AllBareSuffixes, NumericFirst, IsConstant, DerivationSuffix, Starts;
    ParsedParts(part, depth);
    FactsOfCall(BodyOf(part));
    var from, end := AroundCall(text, name, at, part);
    var call := ReadCall(BodyOf(part));
    if call.name == name {
      CallIsFound(text, name, from, Join(call.raw));
    } else {
      ScanAroundArgs(text, name, from, call.name, Join(call.raw));
      ScanOfRaw(text, name, from + |call.name| + 1, call.raw, NumericFirst(call.name), depth + 1);
    }
  }

  lemma QuietConstant(part: string)
    requires IsConstant(BodyOf(part))
    ensures '(' !in part
  {
    assert part == WrapperText(WrapperOf(part)) + BodyOf(part);
  }

  /** A node's name follows a colon, or what stood before its wrappers. */
  lemma AfterWrappers(text: string, at: nat, wrappers: string)
    requires At(text, at, WrapperText(wrappers)) && Starts(text, at)
    ensures Starts(text, at + |WrapperText(wrappers)|)
  {
    if wrappers != "" {
      CharOf(text, at, WrapperText(wrappers), |wrappers|);
    }
  }

  /** A call of another name: the scan goes into its arguments, and over its close. */
  lemma ScanAroundArgs(text: string, name: string, at: nat, own: string, inner: string)
    requires AllWord(name) && name != "" && own != name && AllWord(own)
    requires At(text, at, CallText(own, inner))
    ensures var from, end := at + |own| + 1, at + |CallText(own, inner)|;
            && from + |inner| + 1 == end && At(text, from, inner) && from + |inner| < |text|
            && Starts(text, from) && Breaks(text, from + |inner|)
            && Bodies(text, name, at) == Bodies(text, name, from)
            && Bodies(text, name, from + |inner|) == Bodies(text, name, end)
  {
    hide At, Bodies, CallText;
    PartsOfCall(text, at, own, inner);
    OtherHead(text, name, own, at);
    NoCallAt(text, name, at + |own| + 1 + |inner|);
  }

  /** What the scan finds over one argument of a parsed text. */
  lemma {:induction false} ScanOfArg(text: string, name: string, at: nat, part: string, opaqueArg: bool, depth: nat)
    requires AllWord(name) && name != "" && !IsConstant(name)
    requires ParseArg(part, opaqueArg, depth).Ok? && BareLeaves(ParseArg(part, opaqueArg, depth).value)
    requires ParseArg(part, opaqueArg, depth).value.Node? ==> BareSuffixes(part, depth)
    requires At(text, at, part) && Breaks(text, at + |part|) && Starts(text, at)
    ensures Bodies(text, name, at)
         == Prepend(WrittenArg(part, opaqueArg, depth, name), Bodies(text, name, at + |part|))
    decreases Remaining(depth), 2
  {
    hide At, Bodies, AllWord, Written, ParseAt, BareSuffixes;
    if ParseArg(part, opaqueArg, depth).value.Node? {
      ScanOfText(text, name, at, part, depth);
    } else {
      QuietStretch(text, name, at, part);
    }
  }

  lemma {:induction false} ScanOfRaw(text: string, name: string, at: nat, raw: seq<string>, opaqueFirst: bool, depth: nat)
    requires AllWord(name) && name != "" && !IsConstant(name)
    requires raw != [] && ParseArgs(raw, opaqueFirst, depth).Ok?
    requires AllBareLeaves(ParseArgs(raw, opaqueFirst, depth).value) && AllBareSuffixes(raw, opaqueFirst, depth)
    requires At(text, at, Join(raw)) && Breaks(text, at + |Join(raw)|)
    requires Starts(text, at)
    ensures Bodies(text, name, at)
         == Prepend(WrittenOf(raw, opaqueFirst, depth, name), Bodies(text, name, at + |Join(raw)|))
    decreases Remaining(depth), 3 + |raw|
  {
    hide At, Bodies, AllWord, WrittenArg, ParseArg, ParseArgs, BareSuffixes, Prepend, BareLeaves;
    ParsedArgsParts(raw, opaqueFirst, depth);
    var here := WrittenArg(raw[0], opaqueFirst, depth, name);
    if |raw| == 1 {
      ScanOfArg(text, name, at, raw[0], opaqueFirst, depth);
      assert WrittenOf(raw, opaqueFirst, depth, name) == here;
    } else {
      PartsOfJoin(text, at, raw[0], Join(raw[1..]));
      ScanOfArg(text, name, at, raw[0], opaqueFirst, depth);
      NoCallAt(text, name, at + |raw[0]|);
      ScanOfRaw(text, name, at + |raw[0]| + 1, raw[1..], false, depth);
      PrependTwice(here, WrittenOf(raw[1..], false, depth, name), Bodies(text, name, at + |Join(raw)|));
    }
  }

  /** The text scan of a parsed text gives the bodies of its outermost calls of a name as written, in order. */
  lemma ScanFindsOutermost(text: string, name: string)
    requires AllWord(name) && name != "" && !IsConstant(name)
    requires Expression(text).Parsed? && BareLeaves(Expression(text).node) && BareSuffixes(text, 0)
    ensures Bodies(text, name, 0) == Some(Written(text, 0, name))
  {
    assert At(text, 0, text);
    ScanOfText(text, name, 0, text, 0);
    assert Written(text, 0, name) + [] == Written(text, 0, name);
  }

  /** What is written is what the tree's nodes print, exactly when the parser kept those bodies whole. */
  lemma {:induction false} WrittenIsPrinted(text: string, depth: nat, name: string)
    requires ParseAt(text, depth).Parsed? && !IsConstant(name)
    ensures |Written(text, depth, name)| == |Outermost(ParseAt(text, depth).node, name)|
    ensures Written(text, depth, name) == Outermost(ParseAt(text, depth).node, name) <==> BodiesKept(text, depth, name)
    decreases Remaining(depth), 1
  {
    hide ParseArgs, ReadCall, BodyOf, WrapperOf, NumericFirst, ExactArgs, WrittenOf, AllBodiesKept, Join, PrintAll;
    if !IsConstant(BodyOf(text)) {
      ParsedParts(text, depth);
      hide ParseAt, OutermostOf;
      var call := ReadCall(BodyOf(text));
      var opaqueFirst := NumericFirst(call.name);
      if call.name == name {
        PrintOfParsedArgs(call.raw, opaqueFirst, depth + 1);
        SameSingle(Join(call.raw), Join(PrintAll(ParseArgs(call.raw, opaqueFirst, depth + 1).value)));
      } else {
        WrittenArgsArePrinted(call.raw, opaqueFirst, depth + 1, name);
      }
    }
  }

  lemma SameSingle(a: string, b: string)
    ensures [a] == [b] <==> a == b
  {
    assert [a][0] == a && [b][0] == b;
  }

  lemma {:induction false} WrittenArgsArePrinted(raw: seq<string>, opaqueFirst: bool, depth: nat, name: string)
    requires ParseArgs(raw, opaqueFirst, depth).Ok? && !IsConstant(name)
    ensures var args := ParseArgs(raw, opaqueFirst, depth).value;
            && |WrittenOf(raw, opaqueFirst, depth, name)| == |OutermostOf(args, name)|
            && (WrittenOf(raw, opaqueFirst, depth, name) == OutermostOf(args, name)
                <==> AllBodiesKept(raw, opaqueFirst, depth, name))
    decreases Remaining(depth), 3 + |raw|
  {
    if raw != [] {
      hide Written, Outermost, BodiesKept, ParseArgs;
      ParsedArgsParts(raw, opaqueFirst, depth);
      var args := ParseArgs(raw, opaqueFirst, depth).value;
      WrittenArgsArePrinted(raw[1..], false, depth, name);
      if args[0].Node? {
        WrittenIsPrinted(raw[0], depth, name);
      } else {
        NothingOutermost(args[0], name);
      }
      SplitEqual(WrittenArg(raw[0], opaqueFirst, depth, name), Outermost(args[0], name),
                 WrittenOf(raw[1..], false, depth, name), OutermostOf(args[1..], name));
    }
  }

  lemma NothingOutermost(e: Expr, name: string)
    requires e.Leaf?
    ensures Outermost(e, name) == []
  {
  }

  /**
   * Over a parsed text whose leaves and dropped suffixes hold no parenthesis, the scan gives the
   * argument texts of all nodes of a name, in order, exactly when no such node stands inside another
   * and the parser kept their bodies whole. It finds as many as there are nodes exactly when none is
   * nested.
   */
  lemma ScanAgreesWithWalk(text: string, name: string)
    requires AllWord(name) && name != "" && !IsConstant(name)
    requires Expression(text).Parsed? && BareLeaves(Expression(text).node) && BareSuffixes(text, 0)
    ensures Bodies(text, name, 0).Some?
    ensures Bodies(text, name, 0).value == Every(Expression(text).node, name)
       <==> NotNested(Expression(text).node, name) && BodiesKept(text, 0, name)
    ensures |Bodies(text, name, 0).value| == |Every(Expression(text).node, name)|
       <==> NotNested(Expression(text).node, name)
  {
    hide Written, Outermost, Every, NotNested, BodiesKept, Bodies, BareLeaves, BareSuffixes;
    ScanFindsOutermost(text, name);
    WrittenIsPrinted(text, 0, name);
    OutermostIsShorter(Expression(text).node, name);
  }

  // ---------- Lock values from both routes ----------

  function Numbers(texts: seq<string>): (r: seq<Option<nat>>)
    ensures |r| == |texts|
  {
    seq(|texts|, i requires 0 <= i < |texts| => Number(texts[i]))
  }

  /** `Number(value.args[0])`: a nested argument is not a number. */
  function OperandNumber(arg: Expr): Option<nat>
  {
    match arg case Leaf(text) => Number(text) case Node(_, _, _) => None
  }

  /** The operands of every lock node called `name`, as `collectLocks` reads them. */
  function WalkedLocks(e: Expr, name: string): seq<Option<nat>>
  {
    match e
    case Leaf(_) => []
    case Node(own, _, args) =>
      (if own == name && args != [] then [OperandNumber(args[0])] else []) + WalkedLocksOf(args, name)
  }

  function WalkedLocksOf(args: seq<Expr>, name: string): seq<Option<nat>>
  {
    if args == [] then [] else WalkedLocks(args[0], name) + WalkedLocksOf(args[1..], name)
  }

  /** Every node called `name` that has arguments has exactly one. */
  predicate TakesOne(e: Expr, name: string)
  {
    match e
    case Leaf(_) => true
    case Node(own, _, args) => (own == name ==> |args| <= 1) && AllTakeOne(args, name)
  }

  predicate AllTakeOne(args: seq<Expr>, name: string)
  {
    args == [] || (TakesOne(args[0], name) && AllTakeOne(args[1..], name))
  }

  predicate IsBareConstant(e: Expr) { e.Node? && e.wrappers == "" && IsConstant(e.name) }

  /** No lock called `name` has the operand `0` or `1`, which the parser turns into a node. */
  predicate OperandsStayText(e: Expr, name: string)
  {
    match e
    case Leaf(_) => true
    case Node(own, _, args) =>
      (own == name && args != [] ==> !IsBareConstant(args[0])) && AllOperandsStayText(args, name)
  }

  predicate AllOperandsStayText(args: seq<Expr>, name: string)
  {
    args == [] || (OperandsStayText(args[0], name) && AllOperandsStayText(args[1..], name))
  }

  /** The text of a node is a number only when it is an unwrapped constant. */
  lemma NumberOfNode(e: Expr)
    requires e.Node?
    ensures Number(Print(e)).Some? <==> IsBareConstant(e)
  {
    var text := Print(e);
    if IsConstant(e.name) && e.wrappers != "" {
      assert text[..|text| - 1] == e.wrappers + ":";
    }
  }

  lemma {:induction false} LocksOfNodes(e: Expr, name: string)
    requires TakesOne(e, name)
    ensures |WalkedLocks(e, name)| == |Every(e, name)|
    ensures WalkedLocks(e, name) == Numbers(Every(e, name)) <==> OperandsStayText(e, name)
    decreases e, 1
  {
    if e.Node? {
      LocksOfArgs(e.args, name);
      if e.name == name && e.args != [] {
        var own := [Join(PrintAll(e.args))];
        OperandOfNode(e.args);
        NumbersOfBoth(own, EveryOf(e.args, name));
        SplitEqual([OperandNumber(e.args[0])], Numbers(own), WalkedLocksOf(e.args, name), Numbers(EveryOf(e.args, name)));
      } else {
        assert [] + EveryOf(e.args, name) == EveryOf(e.args, name);
        assert [] + WalkedLocksOf(e.args, name) == WalkedLocksOf(e.args, name);
      }
    }
  }

  lemma NumbersOfBoth(a: seq<string>, b: seq<string>)
    ensures Numbers(a + b) == Numbers(a) + Numbers(b)
  {
  }

  /** The one operand of a lock reads the same from the tree and from the text, unless it is a constant. */
  lemma OperandOfNode(args: seq<Expr>)
    requires |args| == 1
    ensures [OperandNumber(args[0])] == Numbers([Join(PrintAll(args))]) <==> !IsBareConstant(args[0])
  {
    hide Number;
    assert Join(PrintAll(args)) == Print(args[0]);
    if args[0].Node? {
      NumberOfNode(args[0]);
    }
    assert Numbers([Join(PrintAll(args))])[0] == Number(Print(args[0]));
  }

  lemma SplitEqual<T>(a: seq<T>, b: seq<T>, c: seq<T>, d: seq<T>)
    requires |a| == |b|
    ensures a + c == b + d <==> a == b && c == d
  {
    if a + c == b + d {
      assert a == (a + c)[..|a|] && b == (b + d)[..|b|];
      assert c == (a + c)[|a|..] && d == (b + d)[|b|..];
    }
  }

  lemma {:induction false} LocksOfArgs(args: seq<Expr>, name: string)
    requires AllTakeOne(args, name)
    ensures |WalkedLocksOf(args, name)| == |EveryOf(args, name)|
    ensures WalkedLocksOf(args, name) == Numbers(EveryOf(args, name)) <==> AllOperandsStayText(args, name)
    decreases args, 0
  {
    if args != [] {
      hide Numbers, Every, WalkedLocks, TakesOne, OperandsStayText;
      LocksOfNodes(args[0], name);
      LocksOfArgs(args[1..], name);
      var here, more := Every(args[0], name), EveryOf(args[1..], name);
      NumbersOfBoth(here, more);
      SplitEqual(WalkedLocks(args[0], name), Numbers(here), WalkedLocksOf(args[1..], name), Numbers(more));
    }
  }

  /**
   * The text scan and the tree walk report the same lock values, in the same order, exactly when no
   * operand is `0` or `1`.
   */
  lemma LocksAgree(text: string, name: string)
    requires name == "older" || name == "after"
    requires Expression(text).Parsed? && BareLeaves(Expression(text).node) && BareSuffixes(text, 0)
    requires NotNested(Expression(text).node, name) && BodiesKept(text, 0, name) && TakesOne(Expression(text).node, name)
    ensures Bodies(text, name, 0).Some?
    ensures WalkedLocks(Expression(text).node, name) == Numbers(Bodies(text, name, 0).value)
       <==> OperandsStayText(Expression(text).node, name)
  {
    hide Bodies, NotNested, BodiesKept, TakesOne, BareLeaves, BareSuffixes, ParseAt, WalkedLocks, Numbers, OperandsStayText;
    ScanAgreesWithWalk(text, name);
    LocksOfNodes(Expression(text).node, name);
  }
}

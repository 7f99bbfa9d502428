/** The multisig limits of consensus, checked on the text of a script expression. */
module ConsensusLimits {
  import opened Text
  import opened BalancedSyntax
  import opened DescriptorSyntax
  import opened FragmentScan

  datatype ScriptContext = Bare | P2sh | P2wsh | Tapscript

  const MAX_BARE_MULTISIG_KEYS := 3
  const MAX_CHECK_MULTISIG_KEYS := 20
  const MAX_CHECK_SIG_ADD_KEYS := 999

  const MULTISIGS: seq<string> := ["multi", "sortedmulti", "multi_a", "sortedmulti_a"]

  predicate ForTapscript(name: string) { name == "multi_a" || name == "sortedmulti_a" }

  function MaxKeys(name: string, context: ScriptContext): nat
  {
    if ForTapscript(name) then MAX_CHECK_SIG_ADD_KEYS
    else if context == Bare then MAX_BARE_MULTISIG_KEYS
    else MAX_CHECK_MULTISIG_KEYS
  }

  /** A multisig of these arguments, threshold first, keeps to the limits of its context. */
  predicate Keeps(name: string, args: seq<string>, context: ScriptContext)
    requires args != []
  {
    var keys := |args| - 1;
    && ReadInt(args[0]).Some? && 1 <= ReadInt(args[0]).value <= keys
    && (ForTapscript(name) <==> context == Tapscript)
    && keys <= MaxKeys(name, context)
  }

  predicate BodyKeeps(name: string, body: string, context: ScriptContext)
  {
    match Split(body, false) case None => false case Some(args) => Keeps(name, args, context)
  }

  predicate NameKeeps(source: string, name: string, context: ScriptContext)
  {
    match Bodies(source, name, 0)
    case None => false
    case Some(bodies) => forall i | 0 <= i < |bodies| :: BodyKeeps(name, bodies[i], context)
  }

  lemma ByName(source: string, context: ScriptContext)
    ensures (forall i | 0 <= i < |MULTISIGS| :: NameKeeps(source, MULTISIGS[i], context)) <==>
              && NameKeeps(source, "multi", context) && NameKeeps(source, "sortedmulti", context)
              && NameKeeps(source, "multi_a", context) && NameKeeps(source, "sortedmulti_a", context)
  {
    hide NameKeeps;
    assert MULTISIGS[0] == "multi" && MULTISIGS[1] == "sortedmulti" && MULTISIGS[2] == "multi_a" && MULTISIGS[3] == "sortedmulti_a";
  }

  /** `validateMultisigConsensusLimits`: true when it returns, false when it refuses. */
  method ValidateMultisigConsensusLimits(source: string, context: ScriptContext) returns (ok: bool)
    ensures ok <==>
              && NameKeeps(source, "multi", context) && NameKeeps(source, "sortedmulti", context)
              && NameKeeps(source, "multi_a", context) && NameKeeps(source, "sortedmulti_a", context)
  {
    ByName(source, context);
    hide Bodies, Split, ReadInt;
    for n := 0 to |MULTISIGS|
      invariant forall i | 0 <= i < n :: NameKeeps(source, MULTISIGS[i], context)
    {
      var name := MULTISIGS[n];
      var bodies := FragmentBodies(source, name);
      if bodies.None? {
        return false;
      }
      for b := 0 to |bodies.value|
        invariant forall i | 0 <= i < b :: BodyKeeps(name, bodies.value[i], context)
      {
        var args := SplitTopLevelArguments(bodies.value[b], false);
        if args.None? {
          return false;
        }
        var threshold, keys := ReadInt(args.value[0]), |args.value| - 1;
        if threshold.None? || threshold.value < 1 || threshold.value > keys {
          return false;
        }
        if ForTapscript(name) && context != Tapscript {
          return false;
        }
        if !ForTapscript(name) && context == Tapscript {
          return false;
        }
        if keys > MaxKeys(name, context) {
          return false;
        }
      }
    }
    return true;
  }

  /**
   * The limits: a threshold from 1 to the number of keys; multi and sortedmulti outside Tapscript
   * with 20 keys, or 3 in a bare script; multi_a and sortedmulti_a inside Tapscript with 999.
   */
  lemma KeepsByContext(name: string, threshold: string, keys: seq<string>, context: ScriptContext)
    requires name == "multi" || name == "sortedmulti" || name == "multi_a" || name == "sortedmulti_a"
    ensures Keeps(name, [threshold] + keys, context) <==>
              && (exists k: int :: ReadInt(threshold) == Some(k) && 1 <= k <= |keys|)
              && (if name == "multi" || name == "sortedmulti"
                  then context != Tapscript && |keys| <= (if context == Bare then 3 else 20)
                  else context == Tapscript && |keys| <= 999)
  {
    hide ReadInt;
  }

  // ---------- The same limits on the tree ----------

  /** Every node called `name` keeps to the limits. */
  predicate NodesKeep(e: Expr, name: string, context: ScriptContext)
  {
    match e
    case Leaf(_) => true
    case Node(own, _, args) =>
      && (own == name && args != [] ==> Keeps(name, PrintAll(args), context))
      && AllNodesKeep(args, name, context)
  }

  predicate AllNodesKeep(args: seq<Expr>, name: string, context: ScriptContext)
  {
    args == [] || (NodesKeep(args[0], name, context) && AllNodesKeep(args[1..], name, context))
  }

  /** No text leaf holds an angle bracket. */
  predicate AngleFree(e: Expr)
  {
    match e
    case Leaf(text) => NoAngles(text)
    case Node(_, _, args) => AllAngleFree(args)
  }

  predicate AllAngleFree(args: seq<Expr>)
  {
    args == [] || (AngleFree(args[0]) && AllAngleFree(args[1..]))
  }

  predicate NoAngles(text: string) { '<' !in text && '>' !in text }

  lemma {:induction false} AnglesDoNotMatter(text: string, levels: Levels)
    requires NoAngles(text) && levels.NonNegative()
    ensures Fold(text, levels, true) == Fold(text, levels, false)
  {
    if text != "" {
      assert text[0] in text;
      var next := Step(levels, text[0], true);
      assert next == Step(levels, text[0], false);
      if next.NonNegative() {
        AnglesDoNotMatter(text[1..], next);
      }
    }
  }

  lemma {:induction false} AngleCommas(text: string, levels: Levels)
    requires NoAngles(text)
    ensures NoTopComma(text, levels, true) == NoTopComma(text, levels, false)
  {
    if text != "" {
      assert text[0] in text;
      AngleCommas(text[1..], Step(levels, text[0], true));
    }
  }

  lemma {:induction false} PrintHasNoAngles(e: Expr, opaqueArg: bool, depth: nat)
    requires WellFormedArg(e, opaqueArg, depth) && AngleFree(e)
    ensures NoAngles(Print(e))
    decreases e, 1
  {
    if e.Node? && !IsConstant(e.name) {
      AllPrintHaveNoAngles(e.args, NumericFirst(e.name), depth + 1);
      JoinHasNoAngles(PrintAll(e.args));
      assert NoAngles(e.name) && NoAngles(e.wrappers);
    }
  }

  lemma {:induction false} AllPrintHaveNoAngles(args: seq<Expr>, opaqueFirst: bool, depth: nat)
    requires WellFormedArgs(args, opaqueFirst, depth) && AllAngleFree(args)
    ensures forall i | 0 <= i < |args| :: NoAngles(PrintAll(args)[i])
    decreases args, 0
  {
    if args != [] {
      PrintHasNoAngles(args[0], opaqueFirst, depth);
      AllPrintHaveNoAngles(args[1..], false, depth);
      assert forall i | 0 < i < |args| :: PrintAll(args)[i] == PrintAll(args[1..])[i - 1];
    }
  }

  lemma {:induction false} JoinHasNoAngles(parts: seq<string>)
    requires forall i | 0 <= i < |parts| :: NoAngles(parts[i])
    ensures NoAngles(Join(parts))
  {
    if |parts| > 1 {
      JoinHasNoAngles(parts[1..]);
    }
  }

  /** The body of a node splits into the texts of its arguments. */
  lemma BodySplits(args: seq<Expr>, opaqueFirst: bool, depth: nat)
    requires args != [] && WellFormedArgs(args, opaqueFirst, depth) && AllAngleFree(args)
    ensures Split(Join(PrintAll(args)), false) == Some(PrintAll(args))
  {
    var texts := PrintAll(args);
    PrintAllIsPlain(args, opaqueFirst, depth);
    AllPrintHaveNoAngles(args, opaqueFirst, depth);
    forall i | 0 <= i < |texts| ensures Plain(texts[i], false) {
      assert Plain(texts[i], true);
      AnglesDoNotMatter(texts[i], ZERO);
      AngleCommas(texts[i], ZERO);
    }
    SplitOfJoin(texts, false);
  }

  predicate AllKeep(name: string, bodies: seq<string>, context: ScriptContext)
  {
    forall body | body in bodies :: BodyKeeps(name, body, context)
  }

  lemma {:induction false} KeptByNodes(e: Expr, name: string, context: ScriptContext, opaqueArg: bool, depth: nat)
    requires WellFormedArg(e, opaqueArg, depth) && AngleFree(e)
    ensures AllKeep(name, Every(e, name), context) <==> NodesKeep(e, name, context)
    decreases e, 1
  {
    if e.Node? && !IsConstant(e.name) {
      KeptByArgs(e.args, name, context, NumericFirst(e.name), depth + 1);
      BodySplits(e.args, NumericFirst(e.name), depth + 1);
      var body := Join(PrintAll(e.args));
      assert BodyKeeps(name, body, context) <==> Keeps(name, PrintAll(e.args), context);
      assert e.name == name ==> Every(e, name) == [body] + EveryOf(e.args, name);
      assert e.name != name ==> Every(e, name) == EveryOf(e.args, name);
    }
  }

  lemma {:induction false} KeptByArgs(args: seq<Expr>, name: string, context: ScriptContext, opaqueFirst: bool, depth: nat)
    requires WellFormedArgs(args, opaqueFirst, depth) && AllAngleFree(args)
    ensures AllKeep(name, EveryOf(args, name), context) <==> AllNodesKeep(args, name, context)
    decreases args, 0
  {
    if args != [] {
      KeptByNodes(args[0], name, context, opaqueFirst, depth);
      KeptByArgs(args[1..], name, context, false, depth);
      assert EveryOf(args, name) == Every(args[0], name) + EveryOf(args[1..], name);
    }
  }

  lemma NamesOfMultisigs(name: string)
    requires IsMultisig(name)
    ensures AllWord(name) && name != "" && !IsConstant(name)
  {
  }

  /** What the text check accepts of a name is what the tree keeps to. */
  lemma TextCheckIsTreeCheck(text: string, name: string, context: ScriptContext)
    requires IsMultisig(name)
    requires Expression(text).Parsed? && NoConstantCalls(Expression(text).node)
    requires BareLeaves(Expression(text).node) && BareSuffixes(text, 0) && AngleFree(Expression(text).node)
    requires NotNested(Expression(text).node, name) && BodiesKept(text, 0, name)
    ensures NameKeeps(text, name, context) <==> NodesKeep(Expression(text).node, name, context)
  {
    hide Bodies, Every, NotNested, AngleFree, BareLeaves, NodesKeep, BodyKeeps, ParseAt, BodiesKept, BareSuffixes;
    var e := Expression(text).node;
    NamesOfMultisigs(name);
    ScanAgreesWithWalk(text, name);
    ParsedIsWellFormed(text, 0);
    KeptByNodes(e, name, context, false, 0);
    var bodies := Every(e, name);
    assert AllKeep(name, bodies, context) <==> forall i | 0 <= i < |bodies| :: BodyKeeps(name, bodies[i], context);
  }
}

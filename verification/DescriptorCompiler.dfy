/** The materializer: a parsed descriptor written out again with concrete keys and concrete fragments. */
module DescriptorCompiler {
  import opened Text
  import opened DescriptorSyntax
  import opened KeyOrder

  /** Which text arguments of a fragment are keys. */
  predicate IsKeyIndex(name: string, index: nat)
  {
    if IsMultisig(name) then index >= 1 else IsDescriptorKey(name) && index == 0
  }

  function ConcreteName(name: string): string
  {
    if name == "sortedmulti" then "multi" else if name == "sortedmulti_a" then "multi_a" else name
  }

  /** `materializedExpression`, with `key` the key derivation of the chosen branch and index. */
  function Materialize(e: Expr, key: string -> string): string
    requires e.Node?
    decreases e, 0
  {
    var args := MaterializeArgs(e.args, e.name, 0, key);
    var ordered := if IsSortedMultisig(e.name) && args != [] then [args[0]] + Sort(args[1..]) else args;
    WrapperText(e.wrappers)
    + if IsConstant(ConcreteName(e.name)) then ConcreteName(e.name) else CallText(ConcreteName(e.name), Join(ordered))
  }

  function MaterializeArgs(args: seq<Expr>, name: string, index: nat, key: string -> string): (r: seq<string>)
    ensures |r| == |args|
    decreases args, 1
  {
    if args == [] then []
    else
      var first :=
        if args[0].Node? then Materialize(args[0], key)
        else if IsKeyIndex(name, index) then key(args[0].text)
        else args[0].text;
      [first] + MaterializeArgs(args[1..], name, index + 1, key)
  }

  /** No fragment of the tree asks for its keys to be sorted. */
  predicate NothingSorted(e: Expr)
  {
    e.Leaf? || (!IsSortedMultisig(e.name) && forall a | a in e.args :: NothingSorted(a))
  }

  /** With keys left alone and nothing to sort, the materializer is the printer. */
  lemma {:induction false} MaterializeIsPrint(e: Expr, key: string -> string)
    requires e.Node? && NothingSorted(e) && forall text :: key(text) == text
    ensures Materialize(e, key) == Print(e)
    decreases e, 0
  {
    MaterializeArgsIsPrint(e.args, e.name, 0, key);
  }

  lemma {:induction false} MaterializeArgsIsPrint(args: seq<Expr>, name: string, index: nat, key: string -> string)
    requires (forall a | a in args :: NothingSorted(a)) && forall text :: key(text) == text
    ensures MaterializeArgs(args, name, index, key) == PrintAll(args)
    decreases args, 1
  {
    if args != [] {
      assert NothingSorted(args[0]);
      if args[0].Node? {
        MaterializeIsPrint(args[0], key);
      }
      MaterializeArgsIsPrint(args[1..], name, index + 1, key);
    }
  }

  /**
   * Materializing a parsed text with unchanged keys gives the text exactly when the parser kept all
   * of it: no derivation suffix on a musig() and no call named `0` or `1`.
   */
  lemma MaterializeUndoesParsing(text: string, key: string -> string)
    requires Expression(text).Parsed? && NothingSorted(Expression(text).node)
    requires forall t :: key(t) == t
    ensures Materialize(Expression(text).node, key) == text <==> Exact(text, 0)
  {
    PrintOfParse(text, 0);
    MaterializeIsPrint(Expression(text).node, key);
  }

  // ---------- What is written, by name ----------

  /** The text arguments that are keys: all but the first of a multisig, the first of a key fragment. */
  predicate TakesKey(name: string, index: nat)
  {
    if name == "multi" || name == "sortedmulti" || name == "multi_a" || name == "sortedmulti_a" then index >= 1
    else
      && index == 0
      && (name == "pk" || name == "pk_k" || name == "pkh" || name == "pk_h" || name == "wpkh" || name == "combo"
          || name == "rawtr")
  }

  /** The written arguments, in their order. */
  function Written(e: Expr, key: string -> string): (r: seq<string>)
    requires e.Node?
    ensures |r| == |e.args|
  {
    seq(|e.args|, i requires 0 <= i < |e.args| =>
      if e.args[i].Node? then Materialize(e.args[i], key)
      else if TakesKey(e.name, i) then key(e.args[i].text)
      else e.args[i].text)
  }

  /** A sorted multisig loses its `sorted` and its keys are put in order; any other name and order stays. */
  lemma MaterializeByName(e: Expr, key: string -> string)
    requires e.Node?
    ensures var written := Written(e, key);
            var inOrder := if written == [] then [] else [written[0]] + Sort(written[1..]);
            Materialize(e, key) == WrapperText(e.wrappers) +
              if e.name == "0" || e.name == "1" then e.name
              else if e.name == "sortedmulti" then "multi(" + Join(inOrder) + ")"
              else if e.name == "sortedmulti_a" then "multi_a(" + Join(inOrder) + ")"
              else e.name + "(" + Join(written) + ")"
  {
    WrittenOneByOne(e, key);
    hide Sort, Join, Written;
    assert "multi" + "(" == "multi(" && "multi_a" + "(" == "multi_a(";
  }

  lemma WrittenOneByOne(e: Expr, key: string -> string)
    requires e.Node?
    ensures MaterializeArgs(e.args, e.name, 0, key) == Written(e, key)
  {
    forall i | 0 <= i < |e.args| ensures MaterializeArgs(e.args, e.name, 0, key)[i] == Written(e, key)[i] {
      WrittenAt(e.args, e.name, 0, key, i);
    }
  }

  lemma {:induction false} WrittenAt(args: seq<Expr>, name: string, index: nat, key: string -> string, i: nat)
    requires i < |args|
    ensures MaterializeArgs(args, name, index, key)[i]
         == if args[i].Node? then Materialize(args[i], key)
            else if TakesKey(name, index + i) then key(args[i].text)
            else args[i].text
  {
    hide Materialize;
    if i > 0 {
      WrittenAt(args[1..], name, index + 1, key, i - 1);
    }
  }
}

/** The tree of a preset's conditions: the reader finds it, lists its alternatives and gives it its meaning. */
module PolicyTree {
  import opened Text
  import opened BalancedSyntax
  import opened DescriptorSyntax
  import opened DescriptorPaths
  import opened RelativeLocks
  import opened KeyOrder
  import opened PolicyRequest

  // ---------- The tree of a shape ----------

  function KeyLeaves(keys: seq<string>): (r: seq<Expr>)
    ensures |r| == |keys| && forall i | 0 <= i < |keys| :: r[i] == Leaf(keys[i])
  {
    if keys == [] then [] else [Leaf(keys[0])] + KeyLeaves(keys[1..])
  }

  function SignatureNode(s: Signature, tapscript: bool, wrappers: string): (node: Expr)
    requires s.Good()
    ensures node.Node?
  {
    match s.form
    case Multisig => Node(MultisigName(tapscript), wrappers, [Leaf(IntText(s.required))] + KeyLeaves(s.keys))
    case SingleKey(name) => Node(name, wrappers, [Leaf(s.keys[0])])
  }

  /** How the reader sees a lock operand: `0` and `1` become constant nodes. */
  function Operand(n: nat): Expr
  {
    if n <= 1 then Node(Decimal(n), "", []) else Leaf(Decimal(n))
  }

  function LockNode(lock: PolicyLock, wrappers: string): (node: Expr)
    requires lock != Free
    ensures node.Node?
  {
    match lock
    case After(operand) => Node("after", wrappers, [Operand(operand)])
    case Older(operand) => Node("older", wrappers, [Operand(operand)])
  }

  function HashNode(hash: HashKind, digest: string): (node: Expr)
    ensures node.Node?
  {
    Node(HashName(hash), "", [Leaf(digest)])
  }

  function LockedNode(inner: Expr, lock: PolicyLock): (node: Expr)
    ensures inner.Node? ==> node.Node?
  {
    if lock == Free then inner else Node("and_v", "", [LockNode(lock, "v"), inner])
  }

  function TreeOf(shape: Shape, tapscript: bool): (tree: Expr)
    requires shape.Good()
    ensures tree.Node?
  {
    var primary := SignatureNode(shape.primary, tapscript, "");
    match shape
    case Locked(_, lock) => LockedNode(primary, lock)
    case Recovery(_, second, lock) =>
      Node("or_i", "", [primary, LockedNode(SignatureNode(second, tapscript, ""), lock)])
    case Escalating(_, second, lock, third, thirdLock) =>
      Node("or_i", "", [primary, Node("or_i", "", [
        LockedNode(SignatureNode(second, tapscript, ""), lock),
        LockedNode(SignatureNode(third, tapscript, ""), thirdLock)])])
    case Staged(_, second, lock, third, thirdLock) =>
      Node("or_d", "", [primary, Node("or_i", "", [
        Node("and_v", "", [SignatureNode(second, tapscript, "v"), LockNode(lock, "")]),
        Node("and_v", "", [SignatureNode(third, tapscript, "v"), LockNode(thirdLock, "")])])])
    case Hashlock(_, hash, digest, second, lock) =>
      Node("andor", "", [primary, HashNode(hash, digest),
                         LockedNode(SignatureNode(second, tapscript, ""), lock)])
  }

  /** The alternatives of a shape, leaf by leaf. */
  function PathsOf(shape: Shape, tapscript: bool): seq<Path>
    requires shape.Good()
  {
    var primary := SignatureNode(shape.primary, tapscript, "");
    match shape
    case Locked(_, lock) => [LockedPath(shape.primary, lock, tapscript)]
    case Recovery(_, second, lock) => [[primary], LockedPath(second, lock, tapscript)]
    case Escalating(_, second, lock, third, thirdLock) =>
      [[primary], LockedPath(second, lock, tapscript), LockedPath(third, thirdLock, tapscript)]
    case Staged(_, second, lock, third, thirdLock) =>
      [[primary],
       [SignatureNode(second, tapscript, "v"), LockNode(lock, "")],
       [SignatureNode(third, tapscript, "v"), LockNode(thirdLock, "")]]
    case Hashlock(_, hash, digest, second, lock) =>
      [[primary, HashNode(hash, digest)], LockedPath(second, lock, tapscript)]
  }

  function LockedPath(s: Signature, lock: PolicyLock, tapscript: bool): Path
    requires s.Good()
  {
    var signature := SignatureNode(s, tapscript, "");
    if lock == Free then [signature] else [LockNode(lock, "v"), signature]
  }

  // ---------- The reader takes the emitted text apart ----------

  lemma DigitsAreBare(n: int)
    ensures forall c | c in IntText(n) :: !IsDelimiter(c) && c != ':'
  {
  }

  lemma NumberIsPlain(n: int)
    ensures Plain(IntText(n), true)
  {
    DigitsAreBare(n);
    BareTextFolds(IntText(n), ZERO, true);
  }

  lemma OperandIsWellFormed(n: nat, depth: nat)
    requires depth <= MAX_EXPRESSION_DEPTH
    ensures WellFormedArg(Operand(n), false, depth)
    ensures Print(Operand(n)) == Decimal(n)
  {
    if n > 1 {
      DigitsAreBare(n);
      BareTextFolds(Decimal(n), ZERO, true);
      PlainTextStays(Decimal(n), depth);
    }
  }

  lemma {:induction false} KeyLeavesAreWellFormed(keys: seq<string>, depth: nat)
    requires GoodKeys(keys)
    ensures WellFormedArgs(KeyLeaves(keys), false, depth)
    ensures PrintAll(KeyLeaves(keys)) == keys
  {
    if keys != [] {
      hide Plain, StaysText, GoodKey, AllHex;
      FirstKeyStays(keys, depth);
      KeyLeavesAreWellFormed(keys[1..], depth);
      assert KeyLeaves(keys)[0] == Leaf(keys[0]) && KeyLeaves(keys)[1..] == KeyLeaves(keys[1..]);
      assert [keys[0]] + keys[1..] == keys;
    }
  }

  lemma FirstKeyStays(keys: seq<string>, depth: nat)
    requires keys != [] && GoodKeys(keys)
    ensures WellFormedArg(Leaf(keys[0]), false, depth) && GoodKeys(keys[1..])
  {
    assert GoodKey(keys[0]);
    KeyStaysText(keys[0], depth);
  }

  /** Wrappers used here: none, or a single `v`. */
  predicate IsWrapper(wrappers: string) { wrappers == "" || wrappers == "v" }

  /** The fragment names of the presets, other than the multisig fragments. */
  lemma PresetNamesAreOrdinary()
    ensures IsOrdinary("or_i") && IsOrdinary("or_d") && IsOrdinary("and_v") && IsOrdinary("andor")
    ensures IsOrdinary("pk") && IsOrdinary("pkh") && IsOrdinary("after") && IsOrdinary("older")
  {
  }

  lemma SignatureIsWellFormed(s: Signature, tapscript: bool, wrappers: string, depth: nat)
    requires s.Good() && IsWrapper(wrappers) && depth < MAX_EXPRESSION_DEPTH
    ensures WellFormed(SignatureNode(s, tapscript, wrappers), depth)
  {
    hide WellFormed, WellFormedArgs, KeyLeaves, IntText, Plain, StaysText, IsOrdinary;
    PresetNamesAreOrdinary();
    match s.form
    case Multisig =>
      MultisigIsWellFormed(MultisigName(tapscript), wrappers, s.required, s.keys, depth);
    case SingleKey(name) =>
      assert GoodKey(s.keys[0]);
      KeyStaysText(s.keys[0], depth + 1);
      FragmentIsWellFormed(name, wrappers, Leaf(s.keys[0]), depth);
  }

  lemma MultisigNames(name: string)
    requires name == "multi" || name == "multi_a" || name == "sortedmulti"
    ensures AllWord(name) && NumericFirst(name) && !IsConstant(name)
  {
  }

  /** A number in front of well-formed arguments is the threshold of a multisig. */
  lemma ThresholdIsWellFormed(required: int, rest: seq<Expr>, depth: nat)
    requires WellFormedArgs(rest, false, depth)
    ensures WellFormedArgs([Leaf(IntText(required))] + rest, true, depth)
  {
    hide IntText, Plain, StaysText, WellFormed;
    NumberIsPlain(required);
    assert ([Leaf(IntText(required))] + rest)[1..] == rest;
  }

  lemma MultisigIsWellFormed(name: string, wrappers: string, required: int, keys: seq<string>, depth: nat)
    requires name == "multi" || name == "multi_a"
    requires GoodKeys(keys) && IsWrapper(wrappers) && depth < MAX_EXPRESSION_DEPTH
    ensures WellFormed(Node(name, wrappers, [Leaf(IntText(required))] + KeyLeaves(keys)), depth)
  {
    hide KeyLeaves, IntText, WellFormedArgs, NumericFirst, IsConstant;
    MultisigNames(name);
    KeyLeavesAreWellFormed(keys, depth + 1);
    ThresholdIsWellFormed(required, KeyLeaves(keys), depth + 1);
  }

  lemma OneArg(arg: Expr, depth: nat)
    requires WellFormedArg(arg, false, depth)
    ensures WellFormedArgs([arg], false, depth)
  {
    assert [arg][1..] == [];
  }

  lemma TwoArgs(a: Expr, b: Expr, depth: nat)
    requires WellFormedArg(a, false, depth) && WellFormedArg(b, false, depth)
    ensures WellFormedArgs([a, b], false, depth)
  {
    assert [a, b][1..] == [b];
    OneArg(b, depth);
  }

  lemma ThreeArgs(a: Expr, b: Expr, c: Expr, depth: nat)
    requires WellFormedArg(a, false, depth) && WellFormedArg(b, false, depth) && WellFormedArg(c, false, depth)
    ensures WellFormedArgs([a, b, c], false, depth)
  {
    assert [a, b, c][1..] == [b, c];
    TwoArgs(b, c, depth);
  }

  /** A one-argument fragment whose argument is well-formed, and whose name is an ordinary one. */
  lemma FragmentIsWellFormed(name: string, wrappers: string, arg: Expr, depth: nat)
    requires IsOrdinary(name)
    requires IsWrapper(wrappers) && WellFormedArg(arg, false, depth + 1) && depth < MAX_EXPRESSION_DEPTH
    ensures WellFormed(Node(name, wrappers, [arg]), depth)
  {
    OneArg(arg, depth + 1);
  }

  lemma LockIsWellFormed(lock: PolicyLock, wrappers: string, depth: nat)
    requires lock != Free && IsWrapper(wrappers) && depth < MAX_EXPRESSION_DEPTH
    ensures WellFormed(LockNode(lock, wrappers), depth)
  {
    hide WellFormed, WellFormedArg, Operand, IsOrdinary;
    PresetNamesAreOrdinary();
    OperandIsWellFormed(lock.operand, depth + 1);
    match lock
    case After(operand) => FragmentIsWellFormed("after", wrappers, Operand(operand), depth);
    case Older(operand) => FragmentIsWellFormed("older", wrappers, Operand(operand), depth);
  }

  lemma PairIsWellFormed(name: string, a: Expr, b: Expr, depth: nat)
    requires IsOrdinary(name)
    requires a.Node? && b.Node? && WellFormed(a, depth + 1) && WellFormed(b, depth + 1)
    requires depth < MAX_EXPRESSION_DEPTH
    ensures WellFormed(Node(name, "", [a, b]), depth)
  {
    TwoArgs(a, b, depth + 1);
  }

  lemma TripleIsWellFormed(name: string, a: Expr, b: Expr, c: Expr, depth: nat)
    requires IsOrdinary(name)
    requires a.Node? && b.Node? && c.Node?
    requires WellFormed(a, depth + 1) && WellFormed(b, depth + 1) && WellFormed(c, depth + 1)
    requires depth < MAX_EXPRESSION_DEPTH
    ensures WellFormed(Node(name, "", [a, b, c]), depth)
  {
    ThreeArgs(a, b, c, depth + 1);
  }

  lemma LockedIsWellFormed(s: Signature, lock: PolicyLock, tapscript: bool, depth: nat)
    requires s.Good() && depth + 1 < MAX_EXPRESSION_DEPTH
    ensures WellFormed(LockedNode(SignatureNode(s, tapscript, ""), lock), depth)
  {
    SignatureIsWellFormed(s, tapscript, "", depth);
    if lock != Free {
      SignatureIsWellFormed(s, tapscript, "", depth + 1);
      LockIsWellFormed(lock, "v", depth + 1);
      PairIsWellFormed("and_v", LockNode(lock, "v"), SignatureNode(s, tapscript, ""), depth);
    }
  }

  lemma StageIsWellFormed(s: Signature, lock: PolicyLock, tapscript: bool, depth: nat)
    requires s.Good() && lock != Free && depth + 1 < MAX_EXPRESSION_DEPTH
    ensures WellFormed(Node("and_v", "", [SignatureNode(s, tapscript, "v"), LockNode(lock, "")]), depth)
  {
    SignatureIsWellFormed(s, tapscript, "v", depth + 1);
    LockIsWellFormed(lock, "", depth + 1);
    PairIsWellFormed("and_v", SignatureNode(s, tapscript, "v"), LockNode(lock, ""), depth);
  }

  lemma HashIsWellFormed(hash: HashKind, digest: string, depth: nat)
    requires GoodKey(digest) && depth < MAX_EXPRESSION_DEPTH
    ensures WellFormed(HashNode(hash, digest), depth)
  {
    KeyStaysText(digest, depth + 1);
    FragmentIsWellFormed(HashName(hash), "", Leaf(digest), depth);
  }

  lemma TreeIsWellFormed(shape: Shape, tapscript: bool)
    requires shape.Good()
    ensures WellFormed(TreeOf(shape, tapscript), 0)
  {
    hide WellFormed, SignatureNode, LockedNode, LockNode, HashNode, IsOrdinary;
    var primary := SignatureNode(shape.primary, tapscript, "");
    SignatureIsWellFormed(shape.primary, tapscript, "", 1);
    PresetNamesAreOrdinary();
    match shape
    case Locked(_, lock) =>
      LockedIsWellFormed(shape.primary, lock, tapscript, 0);
    case Recovery(_, second, lock) =>
      LockedIsWellFormed(second, lock, tapscript, 1);
      PairIsWellFormed("or_i", primary, LockedNode(SignatureNode(second, tapscript, ""), lock), 0);
    case Escalating(_, second, lock, third, thirdLock) =>
      LockedIsWellFormed(second, lock, tapscript, 2);
      LockedIsWellFormed(third, thirdLock, tapscript, 2);
      var a := LockedNode(SignatureNode(second, tapscript, ""), lock);
      var b := LockedNode(SignatureNode(third, tapscript, ""), thirdLock);
      PairIsWellFormed("or_i", a, b, 1);
      PairIsWellFormed("or_i", primary, Node("or_i", "", [a, b]), 0);
    case Staged(_, second, lock, third, thirdLock) =>
      StageIsWellFormed(second, lock, tapscript, 2);
      StageIsWellFormed(third, thirdLock, tapscript, 2);
      var a := Node("and_v", "", [SignatureNode(second, tapscript, "v"), LockNode(lock, "")]);
      var b := Node("and_v", "", [SignatureNode(third, tapscript, "v"), LockNode(thirdLock, "")]);
      PairIsWellFormed("or_i", a, b, 1);
      PairIsWellFormed("or_d", primary, Node("or_i", "", [a, b]), 0);
    case Hashlock(_, hash, digest, second, lock) =>
      HashIsWellFormed(hash, digest, 1);
      LockedIsWellFormed(second, lock, tapscript, 1);
      TripleIsWellFormed("andor", primary, HashNode(hash, digest), LockedNode(SignatureNode(second, tapscript, ""), lock), 0);
  }

  // ---------- The reader lists exactly the requested alternatives ----------

  lemma SignaturePaths(s: Signature, tapscript: bool, wrappers: string)
    requires s.Good()
    ensures var node := SignatureNode(s, tapscript, wrappers);
            Alternatives(node) == Enumeration([[node]], false)
  {
  }

  lemma LockPaths(lock: PolicyLock, wrappers: string)
    requires lock != Free
    ensures Alternatives(LockNode(lock, wrappers)) == Enumeration([[LockNode(lock, wrappers)]], false)
  {
  }

  /** A conjunction of two basic conditions has the one alternative that needs both. */
  lemma PairOfBasics(a: Expr, b: Expr)
    requires Alternatives(a) == Enumeration([[a]], false) && Alternatives(b) == Enumeration([[b]], false)
    ensures Alternatives(Node("and_v", "", [a, b])) == Enumeration([[a, b]], false)
  {
    var start := Enumeration([[]], false);
    var both := [a, b];
    assert both[1..] == [b] && [b][1..] == [];
    OneByOne([], [a]);
    OneByOne([a], [b]);
    assert [] + [a] == [a] && [a] + [b] == [a, b];
    assert Conjunction(start, both) == Conjunction(Combined(start, Alternatives(a)), [b]);
    assert Conjunction(Enumeration([[a]], false), [b])
        == Conjunction(Combined(Enumeration([[a]], false), Alternatives(b)), []);
  }

  lemma OneByOne(a: Path, b: Path)
    ensures Product([a], [b]) == [a + b]
  {
    assert [a][1..] == [];
    assert Extended(a, [b]) == [a + b];
  }

  /** A choice of two lists the alternatives of both. */
  lemma ChoiceOfTwo(name: string, a: Expr, b: Expr)
    requires IsOr(name)
    requires !Alternatives(a).limited && !Alternatives(b).limited
    requires |Alternatives(a).paths| + |Alternatives(b).paths| <= MAX_PATHS
    ensures Alternatives(Node(name, "", [a, b])) == Enumeration(Alternatives(a).paths + Alternatives(b).paths, false)
  {
    assert [a, b][1..] == [b] && [b][1..] == [];
    assert Union([b]) == Enumeration(Alternatives(b).paths + [], false);
    assert Alternatives(b).paths + [] == Alternatives(b).paths;
  }

  lemma LockedPaths(s: Signature, lock: PolicyLock, tapscript: bool)
    requires s.Good()
    ensures Alternatives(LockedNode(SignatureNode(s, tapscript, ""), lock))
         == Enumeration([LockedPath(s, lock, tapscript)], false)
  {
    SignaturePaths(s, tapscript, "");
    if lock != Free {
      LockPaths(lock, "v");
      PairOfBasics(LockNode(lock, "v"), SignatureNode(s, tapscript, ""));
    }
  }

  lemma StagePaths(s: Signature, lock: PolicyLock, tapscript: bool)
    requires s.Good() && lock != Free
    ensures var a, b := SignatureNode(s, tapscript, "v"), LockNode(lock, "");
            Alternatives(Node("and_v", "", [a, b])) == Enumeration([[a, b]], false)
  {
    SignaturePaths(s, tapscript, "v");
    LockPaths(lock, "");
    PairOfBasics(SignatureNode(s, tapscript, "v"), LockNode(lock, ""));
  }

  /** A conditional of basic parts lists the guarded branch and the fallback's alternatives. */
  lemma ConditionalPaths(a: Expr, b: Expr, c: Expr)
    requires Alternatives(a) == Enumeration([[a]], false) && Alternatives(b) == Enumeration([[b]], false)
    requires !Alternatives(c).limited && |Alternatives(c).paths| < MAX_PATHS
    ensures Alternatives(Node("andor", "", [a, b, c])) == Enumeration([[a, b]] + Alternatives(c).paths, false)
  {
    OneByOne([a], [b]);
    assert [a] + [b] == [a, b];
  }

  lemma HashlockPaths(shape: Shape, tapscript: bool)
    requires shape.Good() && shape.Hashlock?
    ensures Alternatives(TreeOf(shape, tapscript)) == Enumeration(PathsOf(shape, tapscript), false)
  {
    var primary, hash := SignatureNode(shape.primary, tapscript, ""), HashNode(shape.hash, shape.digest);
    assert Alternatives(hash) == Enumeration([[hash]], false);
    SignaturePaths(shape.primary, tapscript, "");
    LockedPaths(shape.second, shape.lock, tapscript);
    hide Alternatives, SignatureNode, HashNode, LockedNode, LockedPath;
    ConditionalPaths(primary, hash, LockedNode(SignatureNode(shape.second, tapscript, ""), shape.lock));
  }

  /** The reader lists the requested alternatives, in order and leaf by leaf. */
  lemma ReaderListsTheAlternatives(shape: Shape, tapscript: bool)
    requires shape.Good()
    ensures Alternatives(TreeOf(shape, tapscript)) == Enumeration(PathsOf(shape, tapscript), false)
  {
    var primary := SignatureNode(shape.primary, tapscript, "");
    SignaturePaths(shape.primary, tapscript, "");
    match shape
    case Locked(_, lock) =>
      LockedPaths(shape.primary, lock, tapscript);
    case Recovery(_, second, lock) =>
      LockedPaths(second, lock, tapscript);
      ChoiceOfTwo("or_i", primary, LockedNode(SignatureNode(second, tapscript, ""), lock));
    case Escalating(_, second, lock, third, thirdLock) =>
      LockedPaths(second, lock, tapscript);
      LockedPaths(third, thirdLock, tapscript);
      var a := LockedNode(SignatureNode(second, tapscript, ""), lock);
      var b := LockedNode(SignatureNode(third, tapscript, ""), thirdLock);
      ChoiceOfTwo("or_i", a, b);
      ChoiceOfTwo("or_i", primary, Node("or_i", "", [a, b]));
    case Staged(_, second, lock, third, thirdLock) =>
      StagePaths(second, lock, tapscript);
      StagePaths(third, thirdLock, tapscript);
      var a := Node("and_v", "", [SignatureNode(second, tapscript, "v"), LockNode(lock, "")]);
      var b := Node("and_v", "", [SignatureNode(third, tapscript, "v"), LockNode(thirdLock, "")]);
      ChoiceOfTwo("or_i", a, b);
      ChoiceOfTwo("or_d", primary, Node("or_i", "", [a, b]));
    case Hashlock(_, _, _, _, _) =>
      HashlockPaths(shape, tapscript);
  }

  // ---------- What the leaves mean ----------

  /** Who signs, what the chain looks like, and which preimages are known. */
  datatype World = World(signs: set<string>, chain: Chain, preimages: set<(string, string)>)

  /** Whether one leaf of an alternative is satisfied. */
  ghost predicate LeafMet(leaf: Expr, world: World)
  {
    leaf.Node? && leaf.args != [] &&
    if leaf.name == "multi" || leaf.name == "multi_a" then QuorumMet(leaf.args, world.signs)
    else FragmentMet(leaf.name, Print(leaf.args[0]), world)
  }

  /** `k` of the keys after it sign. */
  predicate QuorumMet(args: seq<Expr>, signs: set<string>)
    requires args != []
  {
    match ReadInt(Print(args[0]))
    case None => false
    case Some(required) => Signers(PrintAll(args[1..]), signs) >= required
  }

  /** A key signs, a preimage is known, or a lock is open; the operand is read from its text. */
  ghost predicate FragmentMet(name: string, text: string, world: World)
  {
    if name == "pk" || name == "pkh" then text in world.signs
    else if name == "after" then Number(text).Some? && AfterMet(Number(text).value, world.chain)
    else if name == "older" then Number(text).Some? && OlderMet(Number(text).value, world.chain)
    else IsHash(name) && (name, text) in world.preimages
  }

  ghost function LeavesMet(world: World): Expr -> bool { leaf => LeafMet(leaf, world) }

  ghost predicate Met(tree: Expr, world: World) { Holds(tree, LeavesMet(world)) }

  predicate Quorum(s: Signature, world: World) { Signers(s.keys, world.signs) >= s.required }

  lemma BasicMeaning(node: Expr, world: World)
    requires node.Node? && !IsOutputWrapper(node.name) && !IsConstant(node.name)
    requires !IsOr(node.name) && !IsAnd(node.name) && node.name != "andor"
    ensures Met(node, world) <==> LeafMet(node, world)
  {
  }

  lemma SignatureMeaning(s: Signature, tapscript: bool, wrappers: string, world: World)
    requires s.Good()
    ensures Met(SignatureNode(s, tapscript, wrappers), world) <==> Quorum(s, world)
  {
    var node := SignatureNode(s, tapscript, wrappers);
    BasicMeaning(node, world);
    match s.form
    case Multisig =>
      ReadOfIntText(s.required);
      KeyLeavesAreWellFormed(s.keys, 0);
      assert node.args[1..] == KeyLeaves(s.keys);
      assert QuorumMet(node.args, world.signs) <==> Quorum(s, world);
    case SingleKey(name) =>
      assert s.keys[1..] == [];
      assert FragmentMet(name, s.keys[0], world) <==> Quorum(s, world);
  }

  lemma LockMeaning(lock: PolicyLock, wrappers: string, world: World)
    requires lock != Free
    ensures Met(LockNode(lock, wrappers), world) <==> LockMet(lock, world.chain)
  {
    BasicMeaning(LockNode(lock, wrappers), world);
    LockLeafMeaning(lock, wrappers, world);
  }

  lemma LockLeafMeaning(lock: PolicyLock, wrappers: string, world: World)
    requires lock != Free
    ensures LeafMet(LockNode(lock, wrappers), world) <==> LockMet(lock, world.chain)
  {
    hide Operand, Print, Decimal, Number;
    OperandIsWellFormed(lock.operand, 0);
    NumberOfDecimal(lock.operand);
    assert FragmentMet(LockNode(lock, wrappers).name, Decimal(lock.operand), world)
      <==> LockMet(lock, world.chain);
  }

  lemma HashMeaning(hash: HashKind, digest: string, world: World)
    ensures Met(HashNode(hash, digest), world) <==> (HashName(hash), digest) in world.preimages
  {
    BasicMeaning(HashNode(hash, digest), world);
  }

  lemma PairMeaning(a: Expr, b: Expr, world: World)
    ensures Met(Node("and_v", "", [a, b]), world) <==> Met(a, world) && Met(b, world)
  {
    assert a in [a, b] && b in [a, b];
  }

  lemma ChoiceMeaning(name: string, a: Expr, b: Expr, world: World)
    requires IsOr(name)
    ensures Met(Node(name, "", [a, b]), world) <==> Met(a, world) || Met(b, world)
  {
    assert a in [a, b] && b in [a, b];
  }

  lemma LockedMeaning(s: Signature, lock: PolicyLock, tapscript: bool, world: World)
    requires s.Good()
    ensures Met(LockedNode(SignatureNode(s, tapscript, ""), lock), world)
       <==> Quorum(s, world) && LockMet(lock, world.chain)
  {
    SignatureMeaning(s, tapscript, "", world);
    if lock != Free {
      LockMeaning(lock, "v", world);
      PairMeaning(LockNode(lock, "v"), SignatureNode(s, tapscript, ""), world);
    }
  }

  lemma StageMeaning(s: Signature, lock: PolicyLock, tapscript: bool, world: World)
    requires s.Good() && lock != Free
    ensures Met(Node("and_v", "", [SignatureNode(s, tapscript, "v"), LockNode(lock, "")]), world)
       <==> Quorum(s, world) && LockMet(lock, world.chain)
  {
    SignatureMeaning(s, tapscript, "v", world);
    LockMeaning(lock, "", world);
    PairMeaning(SignatureNode(s, tapscript, "v"), LockNode(lock, ""), world);
  }

  /** The requirement of a shape, stated without its tree. */
  ghost predicate ShapeMet(shape: Shape, world: World)
  {
    match shape
    case Locked(primary, lock) => Quorum(primary, world) && LockMet(lock, world.chain)
    case Recovery(primary, second, lock) =>
      Quorum(primary, world) || (Quorum(second, world) && LockMet(lock, world.chain))
    case Escalating(primary, second, lock, third, thirdLock) =>
      || Quorum(primary, world)
      || (Quorum(second, world) && LockMet(lock, world.chain))
      || (Quorum(third, world) && LockMet(thirdLock, world.chain))
    case Staged(primary, second, lock, third, thirdLock) =>
      || Quorum(primary, world)
      || (Quorum(second, world) && LockMet(lock, world.chain))
      || (Quorum(third, world) && LockMet(thirdLock, world.chain))
    case Hashlock(primary, hash, digest, second, lock) =>
      || (Quorum(primary, world) && (HashName(hash), digest) in world.preimages)
      || (Quorum(second, world) && LockMet(lock, world.chain))
  }

  lemma TreeMeaning(shape: Shape, tapscript: bool, world: World)
    requires shape.Good()
    ensures Met(TreeOf(shape, tapscript), world) <==> ShapeMet(shape, world)
  {
    var primary := SignatureNode(shape.primary, tapscript, "");
    SignatureMeaning(shape.primary, tapscript, "", world);
    match shape
    case Locked(_, lock) =>
      LockedMeaning(shape.primary, lock, tapscript, world);
    case Recovery(_, second, lock) =>
      LockedMeaning(second, lock, tapscript, world);
      ChoiceMeaning("or_i", primary, LockedNode(SignatureNode(second, tapscript, ""), lock), world);
    case Escalating(_, second, lock, third, thirdLock) =>
      LockedMeaning(second, lock, tapscript, world);
      LockedMeaning(third, thirdLock, tapscript, world);
      var a := LockedNode(SignatureNode(second, tapscript, ""), lock);
      var b := LockedNode(SignatureNode(third, tapscript, ""), thirdLock);
      ChoiceMeaning("or_i", a, b, world);
      ChoiceMeaning("or_i", primary, Node("or_i", "", [a, b]), world);
    case Staged(_, second, lock, third, thirdLock) =>
      StageMeaning(second, lock, tapscript, world);
      StageMeaning(third, thirdLock, tapscript, world);
      var a := Node("and_v", "", [SignatureNode(second, tapscript, "v"), LockNode(lock, "")]);
      var b := Node("and_v", "", [SignatureNode(third, tapscript, "v"), LockNode(thirdLock, "")]);
      ChoiceMeaning("or_i", a, b, world);
      ChoiceMeaning("or_d", primary, Node("or_i", "", [a, b]), world);
    case Hashlock(_, hash, digest, second, lock) =>
      LockedMeaning(second, lock, tapscript, world);
      HashMeaning(hash, digest, world);
  }
}

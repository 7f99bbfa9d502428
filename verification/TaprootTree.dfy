/** Taproot script trees: reading, listing leaves, and the BIP341 root that commits to them. */
module TaprootTree {
  import opened Text
  import opened BalancedSyntax
  import opened DescriptorSyntax
  import opened KeyOrder

  datatype Tree = Tip(text: string) | Branch(left: Tree, right: Tree)

  datatype TreeRefusal = TreeTooDeep | NotTwoChildren | TreeUnbalanced | UnclosedTree | LeafRefused

  const MAX_TREE_DEPTH := 128

  predicate Opens(text: string) { text != "" && text[0] == '{' }

  predicate Braced(text: string) { |text| >= 2 && text[0] == '{' && text[|text| - 1] == '}' }

  /** The two children of a braced text, or the refusal. */
  function Children(text: string): (r: Result<(string, string), TreeRefusal>)
    requires Braced(text)
  {
    match Split(text[1..|text| - 1], true)
    case None => Err(TreeUnbalanced)
    case Some(parts) => if |parts| != 2 then Err(NotTwoChildren) else Ok((parts[0], parts[1]))
  }

  function Both<T, U>(a: Result<T, TreeRefusal>, b: Result<T, TreeRefusal>, combine: (T, T) -> U): Result<U, TreeRefusal>
  {
    if a.Err? then Err(a.error) else if b.Err? then Err(b.error) else Ok(combine(a.value, b.value))
  }

  function Left(depth: nat): nat { if depth > MAX_TREE_DEPTH then 0 else MAX_TREE_DEPTH + 1 - depth }

  // ---------- The two readers ----------

  /** `leavesAtDepth`. */
  function Leaves(text: string, depth: nat): Result<seq<string>, TreeRefusal>
    decreases Left(depth)
  {
    if depth > MAX_TREE_DEPTH then Err(TreeTooDeep)
    else if Braced(text) then
      match Children(text)
      case Err(reason) => Err(reason)
      case Ok((a, b)) =>
        Both(Leaves(a, depth + 1), Leaves(b, depth + 1), (x: seq<string>, y: seq<string>) => x + y)
    else Ok([text])
  }

  /** The hashes as hexadecimal text, and the leaf compiler: the script of a leaf, or None. */
  datatype Hashes = Hashes(compile: string -> Option<string>, leaf: string -> string, pair: (string, string) -> string)

  /** The laws of the tagged hashes: injective, and no leaf hash is a branch hash. */
  ghost predicate Lawful(h: Hashes)
  {
    && (forall a, b :: h.leaf(a) == h.leaf(b) ==> a == b)
    && (forall a, b, c, d :: h.pair(a, b) == h.pair(c, d) ==> a == c && b == d)
    && (forall s, a, b :: h.leaf(s) != h.pair(a, b))
  }

  /** `tapBranchHash`: the smaller child hash goes first. */
  function BranchHash(a: string, b: string, h: Hashes): string
  {
    if a != b && Precedes(a, b) then h.pair(a, b) else h.pair(b, a)
  }

  /** `treeHash`. */
  function TreeHash(text: string, depth: nat, h: Hashes): Result<string, TreeRefusal>
    decreases Left(depth)
  {
    if depth > MAX_TREE_DEPTH then Err(TreeTooDeep)
    else if Opens(text) then
      if !Braced(text) then Err(UnclosedTree)
      else match Children(text)
        case Err(reason) => Err(reason)
        case Ok((a, b)) =>
          Both(TreeHash(a, depth + 1, h), TreeHash(b, depth + 1, h), (x, y) => BranchHash(x, y, h))
    else match h.compile(text)
      case None => Err(LeafRefused)
      case Some(script) => Ok(h.leaf(script))
  }

  // ---------- The tree both read ----------

  function ReadTree(text: string, depth: nat): Result<Tree, TreeRefusal>
    decreases Left(depth)
  {
    if depth > MAX_TREE_DEPTH then Err(TreeTooDeep)
    else if Braced(text) then
      match Children(text)
      case Err(reason) => Err(reason)
      case Ok((a, b)) => Both(ReadTree(a, depth + 1), ReadTree(b, depth + 1), (x, y) => Branch(x, y))
    else Ok(Tip(text))
  }

  function Tips(tree: Tree): seq<string>
  {
    match tree case Tip(text) => [text] case Branch(a, b) => Tips(a) + Tips(b)
  }

  function Height(tree: Tree): nat
  {
    match tree case Tip(_) => 0 case Branch(a, b) => 1 + if Height(a) > Height(b) then Height(a) else Height(b)
  }

  /** The root hash of a tree; None when a leaf does not compile. */
  function Root(tree: Tree, h: Hashes): Option<string>
  {
    match tree
    case Tip(text) => (match h.compile(text) case None => None case Some(script) => Some(h.leaf(script)))
    case Branch(a, b) =>
      if Root(a, h).None? || Root(b, h).None? then None else Some(BranchHash(Root(a, h).value, Root(b, h).value, h))
  }

  /** The leaf reader lists the tips of the tree, left to right. */
  lemma {:induction false} LeavesAreTips(text: string, depth: nat)
    ensures Leaves(text, depth)
         == match ReadTree(text, depth) case Err(reason) => Err(reason) case Ok(tree) => Ok(Tips(tree))
    decreases Left(depth)
  {
    if depth <= MAX_TREE_DEPTH && Braced(text) && Children(text).Ok? {
      var (a, b) := Children(text).value;
      LeavesAreTips(a, depth + 1);
      LeavesAreTips(b, depth + 1);
    }
  }

  predicate Hashable(tips: seq<string>, h: Hashes)
  {
    forall tip | tip in tips :: !Opens(tip) && h.compile(tip).Some?
  }

  /**
   * The hasher works on the same tree as the leaf reader, and accepts it exactly when each leaf
   * compiles and none is an opening brace left unclosed.
   */
  lemma {:induction false} HashIsOfTheTree(text: string, depth: nat, h: Hashes)
    ensures TreeHash(text, depth, h).Ok?
       <==> ReadTree(text, depth).Ok? && Hashable(Tips(ReadTree(text, depth).value), h)
    ensures TreeHash(text, depth, h).Ok? ==>
              Root(ReadTree(text, depth).value, h) == Some(TreeHash(text, depth, h).value)
    decreases Left(depth)
  {
    if depth <= MAX_TREE_DEPTH && Braced(text) && Children(text).Ok? {
      var (a, b) := Children(text).value;
      HashIsOfTheTree(a, depth + 1, h);
      HashIsOfTheTree(b, depth + 1, h);
      if ReadTree(text, depth).Ok? {
        var tree := ReadTree(text, depth).value;
        assert Hashable(Tips(tree), h) <==> Hashable(Tips(tree.left), h) && Hashable(Tips(tree.right), h);
      }
    }
  }

  /** How deep each leaf stands. */
  function Depths(tree: Tree, depth: nat): (r: seq<nat>)
    ensures |r| == |Tips(tree)|
  {
    match tree case Tip(_) => [depth] case Branch(a, b) => Depths(a, depth + 1) + Depths(b, depth + 1)
  }

  /** No leaf that is read stands deeper than 128. */
  lemma {:induction false} LeavesAreShallow(text: string, depth: nat)
    requires ReadTree(text, depth).Ok?
    ensures forall d | d in Depths(ReadTree(text, depth).value, depth) :: d <= 128
    decreases Left(depth)
  {
    if Braced(text) {
      var (a, b) := Children(text).value;
      LeavesAreShallow(a, depth + 1);
      LeavesAreShallow(b, depth + 1);
    }
  }

  // ---------- Reading undoes writing ----------

  function TreeText(tree: Tree): string
  {
    match tree case Tip(text) => text case Branch(a, b) => "{" + (TreeText(a) + "," + TreeText(b)) + "}"
  }

  /** Trees that have a text: each leaf is one plain argument that is not itself a braced pair. */
  predicate Writable(tree: Tree)
  {
    match tree
    case Tip(text) => Plain(text, true) && !Braced(text)
    case Branch(a, b) => Writable(a) && Writable(b)
  }

  lemma BracesArePlain(inner: string)
    requires Clean(inner, true)
    ensures Plain("{" + inner + "}", true)
  {
    EnclosedIsPlain('{', inner, '}', Levels(0, 0, 1, 0), true);
  }

  lemma {:induction false} TreeTextIsPlain(tree: Tree)
    requires Writable(tree)
    ensures Plain(TreeText(tree), true)
  {
    if tree.Branch? {
      var a, b := TreeText(tree.left), TreeText(tree.right);
      TreeTextIsPlain(tree.left);
      TreeTextIsPlain(tree.right);
      JoinTwo(a, b);
      JoinIsClean([a, b], true);
      BracesArePlain(a + "," + b);
    }
  }

  lemma ChildrenOfText(a: string, b: string)
    requires Plain(a, true) && Plain(b, true)
    ensures var text := "{" + (a + "," + b) + "}";
            Braced(text) && Children(text) == Ok((a, b))
  {
    var text := "{" + (a + "," + b) + "}";
    assert text[1..|text| - 1] == a + "," + b;
    JoinTwo(a, b);
    SplitOfJoin([a, b], true);
  }

  /** Reading the text of a tree gives the tree back down to depth 128; a deeper one is refused for its depth. */
  lemma {:induction false} ReadOfWritten(tree: Tree, depth: nat)
    requires Writable(tree)
    ensures ReadTree(TreeText(tree), depth) == if depth + Height(tree) <= 128 then Ok(tree) else Err(TreeTooDeep)
  {
    if tree.Branch? {
      var a, b := TreeText(tree.left), TreeText(tree.right);
      TreeTextIsPlain(tree.left);
      TreeTextIsPlain(tree.right);
      ChildrenOfText(a, b);
      ReadOfWritten(tree.left, depth + 1);
      ReadOfWritten(tree.right, depth + 1);
    }
  }

  /** Writing the tree that was read gives the text back. */
  lemma {:induction false} WrittenOfRead(text: string, depth: nat)
    requires ReadTree(text, depth).Ok?
    ensures TreeText(ReadTree(text, depth).value) == text
    ensures Plain(text, true) ==> Writable(ReadTree(text, depth).value)
    decreases Left(depth)
  {
    if Braced(text) {
      var inner := text[1..|text| - 1];
      var (a, b) := Children(text).value;
      SplitExactly(inner, true);
      assert Split(inner, true).value == [a, b];
      JoinTwo(a, b);
      assert text == "{" + inner + "}";
      assert Plain([a, b][0], true) && Plain([a, b][1], true);
      WrittenOfRead(a, depth + 1);
      WrittenOfRead(b, depth + 1);
    }
  }

  // ---------- The root commits to the tree ----------

  /** Equal apart from the order of children, leaf by leaf the same script. */
  predicate SameUpToSwaps(a: Tree, b: Tree, h: Hashes)
  {
    match (a, b)
    case (Tip(s), Tip(t)) => h.compile(s) == h.compile(t)
    case (Branch(p, q), Branch(r, s)) =>
      || (SameUpToSwaps(p, r, h) && SameUpToSwaps(q, s, h))
      || (SameUpToSwaps(p, s, h) && SameUpToSwaps(q, r, h))
    case _ => false
  }

  /** Swapping the children of a branch keeps its hash. */
  lemma BranchHashIsSymmetric(a: string, b: string, h: Hashes)
    ensures BranchHash(a, b, h) == BranchHash(b, a, h)
  {
    PrecedesIsTotal(a, b);
    if a != b && Precedes(a, b) && Precedes(b, a) {
      PrecedesIsAntisymmetric(a, b);
    }
  }

  /** The hash that is smaller at the first difference goes first. */
  lemma SmallerHashGoesFirst(a: string, b: string, d: nat, h: Hashes)
    requires FirstDiffersBelow(a, b, d)
    ensures BranchHash(a, b, h) == BranchHash(b, a, h) == h.pair(a, b)
  {
    PrecedesByFirstDifference(a, b);
    BranchHashIsSymmetric(a, b, h);
  }

  lemma BranchHashIsOfBoth(a: string, b: string, c: string, d: string, h: Hashes)
    requires Lawful(h) && BranchHash(a, b, h) == BranchHash(c, d, h)
    ensures (a == c && b == d) || (a == d && b == c)
  {
  }

  /** Two roots are equal exactly when the trees are the same up to swaps and compiled leaf scripts. */
  lemma {:induction false} RootCommits(a: Tree, b: Tree, h: Hashes)
    requires Lawful(h) && Root(a, h).Some? && Root(b, h).Some?
    ensures Root(a, h) == Root(b, h) <==> SameUpToSwaps(a, b, h)
  {
    if a.Branch? && b.Branch? {
      RootCommits(a.left, b.left, h);
      RootCommits(a.left, b.right, h);
      RootCommits(a.right, b.left, h);
      RootCommits(a.right, b.right, h);
      var p, q, r, s := Root(a.left, h).value, Root(a.right, h).value, Root(b.left, h).value, Root(b.right, h).value;
      BranchHashIsSymmetric(p, q, h);
      if Root(a, h) == Root(b, h) {
        BranchHashIsOfBoth(p, q, r, s, h);
      }
    }
  }

  /** Two accepted tree texts have the same root exactly when they describe the same tree up to swaps. */
  lemma TextsCommit(a: string, b: string, h: Hashes)
    requires Lawful(h) && TreeHash(a, 0, h).Ok? && TreeHash(b, 0, h).Ok?
    ensures ReadTree(a, 0).Ok? && ReadTree(b, 0).Ok?
    ensures TreeHash(a, 0, h) == TreeHash(b, 0, h)
       <==> SameUpToSwaps(ReadTree(a, 0).value, ReadTree(b, 0).value, h)
  {
    HashIsOfTheTree(a, 0, h);
    HashIsOfTheTree(b, 0, h);
    RootCommits(ReadTree(a, 0).value, ReadTree(b, 0).value, h);
  }

  /** An opening brace without its closing one is a leaf to the leaf reader, and refused by the hasher. */
  lemma UnclosedTreeIsListed(text: string, h: Hashes)
    requires Opens(text) && !Braced(text)
    ensures Leaves(text, 0) == Ok([text]) && TreeHash(text, 0, h) == Err(UnclosedTree)
  {
  }
}

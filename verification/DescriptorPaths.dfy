/** Spending alternatives: the bounded enumeration of a condition tree, and what it means. */
module DescriptorPaths {
  import opened Text
  import opened DescriptorSyntax

  const MAX_PATHS := 64

  type Path = seq<Expr>

  /** A list of alternatives, or the note that there are too many of them. */
  datatype Enumeration = Enumeration(paths: seq<Path>, limited: bool)

  const LIMITED := Enumeration([], true)

  // ---------- The bounded enumeration ----------

  /** Every path of `left` followed by every path of `right`, in that order. */
  function Product(left: seq<Path>, right: seq<Path>): (r: seq<Path>)
    ensures |r| == |left| * |right|
  {
    if left == [] then []
    else
      assert |left| * |right| == |right| + |left[1..]| * |right|;
      Extended(left[0], right) + Product(left[1..], right)
  }

  function Extended(first: Path, right: seq<Path>): (r: seq<Path>)
    ensures |r| == |right| && forall i | 0 <= i < |right| :: r[i] == first + right[i]
  {
    seq(|right|, i requires 0 <= i < |right| => first + right[i])
  }

  /** `combinePaths`. */
  function Combined(left: Enumeration, right: Enumeration): (r: Enumeration)
    ensures |r.paths| <= MAX_PATHS && (r.limited ==> r == LIMITED)
  {
    if left.limited || right.limited || |left.paths| * |right.paths| > MAX_PATHS then LIMITED
    else Enumeration(Product(left.paths, right.paths), false)
  }

  /** `pathAlternatives`; a text argument has no alternative of its own. */
  function Alternatives(e: Expr): (r: Enumeration)
    ensures r.limited ==> r == LIMITED
    ensures |r.paths| <= MAX_PATHS
    decreases e, 0
  {
    if e.Leaf? then Enumeration([], false)
    else if IsOutputWrapper(e.name) && e.args != [] && e.args[0].Node? then Alternatives(e.args[0])
    else if e.name == "0" then Enumeration([], false)
    else if e.name == "1" then Enumeration([[]], false)
    else if IsOr(e.name) then
      var all := Union(e.args);
      if all.limited || |all.paths| > MAX_PATHS then LIMITED else all
    else if e.name == "andor" && |e.args| == 3 then
      var primary := Combined(Alternatives(e.args[0]), Alternatives(e.args[1]));
      var fallback := Alternatives(e.args[2]);
      if primary.limited || fallback.limited || |primary.paths| + |fallback.paths| > MAX_PATHS then LIMITED
      else Enumeration(primary.paths + fallback.paths, false)
    else if IsAnd(e.name) then Conjunction(Enumeration([[]], false), e.args)
    else Enumeration([[e]], false)
  }

  /** The alternatives of every child one after another, before their number is looked at. */
  function Union(args: seq<Expr>): (r: Enumeration)
    decreases args, 1
  {
    if args == [] then Enumeration([], false)
    else
      var first, rest := Alternatives(args[0]), Union(args[1..]);
      if first.limited || rest.limited then LIMITED
      else Enumeration(first.paths + rest.paths, false)
  }

  /** The left-to-right reduction of an and-fragment's children into `done`. */
  function Conjunction(done: Enumeration, args: seq<Expr>): (r: Enumeration)
    requires |done.paths| <= MAX_PATHS && (done.limited ==> done == LIMITED)
    ensures r.limited ==> r == LIMITED
    ensures |r.paths| <= MAX_PATHS
    decreases args, 1
  {
    if args == [] then done else Conjunction(Combined(done, Alternatives(args[0])), args[1..])
  }

  // ---------- What a condition means ----------

  /**
   * Whether a condition tree holds when `holds` says which of its basic conditions do. The fragments
   * are told apart by their names in BIP379, not by the catalog the walk looks them up in.
   */
  predicate Holds(e: Expr, holds: Expr -> bool)
  {
    match e
    case Leaf(_) => false
    case Node(name, _, args) =>
      if (name == "sh" || name == "wsh") && args != [] && args[0].Node? then Holds(args[0], holds)
      else if name == "0" then false
      else if name == "1" then true
      else if name == "or_b" || name == "or_c" || name == "or_d" || name == "or_i" then
        exists a | a in args :: Holds(a, holds)
      else if name == "andor" && |args| == 3 then
        (Holds(args[0], holds) && Holds(args[1], holds)) || Holds(args[2], holds)
      else if name == "and_v" || name == "and_b" || name == "and_n" then
        forall a | a in args :: Holds(a, holds)
      else holds(e)
  }

  predicate PathHolds(path: Path, holds: Expr -> bool)
  {
    forall leaf | leaf in path :: holds(leaf)
  }

  predicate SomePathHolds(paths: seq<Path>, holds: Expr -> bool)
  {
    exists path | path in paths :: PathHolds(path, holds)
  }

  lemma PathConcat(a: Path, b: Path, holds: Expr -> bool)
    ensures PathHolds(a + b, holds) <==> PathHolds(a, holds) && PathHolds(b, holds)
  {
    assert forall x | x in a :: x in a + b;
    assert forall x | x in b :: x in a + b;
  }

  lemma SomeConcat(a: seq<Path>, b: seq<Path>, holds: Expr -> bool)
    ensures SomePathHolds(a + b, holds) <==> SomePathHolds(a, holds) || SomePathHolds(b, holds)
  {
    assert forall p | p in a :: p in a + b;
    assert forall p | p in b :: p in a + b;
  }

  lemma SomeOne(path: Path, holds: Expr -> bool)
    ensures SomePathHolds([path], holds) <==> PathHolds(path, holds)
  {
    assert path in [path];
  }

  lemma ExtendedMeaning(first: Path, right: seq<Path>, holds: Expr -> bool)
    ensures SomePathHolds(Extended(first, right), holds)
       <==> PathHolds(first, holds) && SomePathHolds(right, holds)
  {
    var all := Extended(first, right);
    forall i | 0 <= i < |right|
      ensures PathHolds(all[i], holds) <==> PathHolds(first, holds) && PathHolds(right[i], holds)
    {
      PathConcat(first, right[i], holds);
    }
    if PathHolds(first, holds) && SomePathHolds(right, holds) {
      var p :| p in right && PathHolds(p, holds);
      var i :| 0 <= i < |right| && right[i] == p;
      assert all[i] in all;
    }
  }

  lemma {:induction false} ProductMeaning(left: seq<Path>, right: seq<Path>, holds: Expr -> bool)
    ensures SomePathHolds(Product(left, right), holds)
       <==> SomePathHolds(left, holds) && SomePathHolds(right, holds)
  {
    if left != [] {
      ExtendedMeaning(left[0], right, holds);
      ProductMeaning(left[1..], right, holds);
      SomeConcat(Extended(left[0], right), Product(left[1..], right), holds);
      SomeConcat([left[0]], left[1..], holds);
      SomeOne(left[0], holds);
      assert [left[0]] + left[1..] == left;
    }
  }

  /** A listed alternative can be met exactly when the condition can, leaf by leaf. */
  lemma {:induction false} EnumerationMeaning(e: Expr, holds: Expr -> bool)
    requires !Alternatives(e).limited
    ensures SomePathHolds(Alternatives(e).paths, holds) <==> Holds(e, holds)
    decreases e, 0
  {
    if e.Leaf? || e.name == "0" {
    } else if IsOutputWrapper(e.name) && e.args != [] && e.args[0].Node? {
      EnumerationMeaning(e.args[0], holds);
    } else if e.name == "1" {
      SomeOne([], holds);
    } else if IsOr(e.name) {
      UnionMeaning(e.args, holds);
    } else if e.name == "andor" && |e.args| == 3 {
      EnumerationMeaning(e.args[0], holds);
      EnumerationMeaning(e.args[1], holds);
      EnumerationMeaning(e.args[2], holds);
      var condition, success := Alternatives(e.args[0]).paths, Alternatives(e.args[1]).paths;
      ProductMeaning(condition, success, holds);
      SomeConcat(Product(condition, success), Alternatives(e.args[2]).paths, holds);
    } else if IsAnd(e.name) {
      ConjunctionMeaning(Enumeration([[]], false), e.args, holds);
      SomeOne([], holds);
    } else {
      SomeOne([e], holds);
      assert e in [e];
    }
  }

  lemma {:induction false} UnionMeaning(args: seq<Expr>, holds: Expr -> bool)
    requires !Union(args).limited
    ensures SomePathHolds(Union(args).paths, holds) <==> exists a | a in args :: Holds(a, holds)
    decreases args, 1
  {
    if args != [] {
      EnumerationMeaning(args[0], holds);
      UnionMeaning(args[1..], holds);
      SomeConcat(Alternatives(args[0]).paths, Union(args[1..]).paths, holds);
      assert args == [args[0]] + args[1..];
    }
  }

  lemma {:induction false} ConjunctionMeaning(done: Enumeration, args: seq<Expr>, holds: Expr -> bool)
    requires |done.paths| <= MAX_PATHS && (done.limited ==> done == LIMITED)
    requires !Conjunction(done, args).limited
    ensures !done.limited
    ensures SomePathHolds(Conjunction(done, args).paths, holds)
       <==> SomePathHolds(done.paths, holds) && forall a | a in args :: Holds(a, holds)
    decreases args, 1
  {
    if args != [] {
      var next := Combined(done, Alternatives(args[0]));
      ConjunctionMeaning(next, args[1..], holds);
      EnumerationMeaning(args[0], holds);
      ProductMeaning(done.paths, Alternatives(args[0]).paths, holds);
      assert args == [args[0]] + args[1..];
    }
  }

  // ---------- When the enumeration gives up ----------

  /** Every alternative of a condition, however many there are. */
  function AllPaths(e: Expr): seq<Path>
    decreases e, 0
  {
    if e.Leaf? then []
    else if IsOutputWrapper(e.name) && e.args != [] && e.args[0].Node? then AllPaths(e.args[0])
    else if e.name == "0" then []
    else if e.name == "1" then [[]]
    else if IsOr(e.name) then AllOfUnion(e.args)
    else if e.name == "andor" && |e.args| == 3 then
      Product(AllPaths(e.args[0]), AllPaths(e.args[1])) + AllPaths(e.args[2])
    else if IsAnd(e.name) then AllOfConjunction([[]], e.args)
    else [[e]]
  }

  function AllOfUnion(args: seq<Expr>): seq<Path>
    decreases args, 1
  {
    if args == [] then [] else AllPaths(args[0]) + AllOfUnion(args[1..])
  }

  function AllOfConjunction(done: seq<Path>, args: seq<Expr>): seq<Path>
    decreases args, 1
  {
    if args == [] then done else AllOfConjunction(Product(done, AllPaths(args[0])), args[1..])
  }

  /** Every list of alternatives that the walk of `e` builds on its way fits in the bound. */
  predicate Fits(e: Expr)
    decreases e, 0
  {
    if e.Leaf? then true
    else if IsOutputWrapper(e.name) && e.args != [] && e.args[0].Node? then Fits(e.args[0])
    else if IsConstant(e.name) then true
    else if IsOr(e.name) then AllFit(e.args) && |AllPaths(e)| <= MAX_PATHS
    else if e.name == "andor" && |e.args| == 3 then
      && Fits(e.args[0]) && Fits(e.args[1]) && Fits(e.args[2])
      && |Product(AllPaths(e.args[0]), AllPaths(e.args[1]))| <= MAX_PATHS
      && |AllPaths(e)| <= MAX_PATHS
    else if IsAnd(e.name) then AllFit(e.args) && PrefixesFit([[]], e.args)
    else true
  }

  predicate AllFit(args: seq<Expr>)
    decreases args, 1
  {
    args == [] || (Fits(args[0]) && AllFit(args[1..]))
  }

  /** Every product of a prefix of `args` with `done` fits in the bound. */
  predicate PrefixesFit(done: seq<Path>, args: seq<Expr>)
    decreases args, 1
  {
    args == [] || (
      && |Product(done, AllPaths(args[0]))| <= MAX_PATHS
      && PrefixesFit(Product(done, AllPaths(args[0])), args[1..]))
  }

  /** The enumeration gives up exactly when a list does not fit, and is complete otherwise. */
  lemma {:induction false} LimitIsExact(e: Expr)
    ensures Alternatives(e) == if Fits(e) then Enumeration(AllPaths(e), false) else LIMITED
    decreases e, 0
  {
    if e.Leaf? || IsConstant(e.name) {
    } else if IsOutputWrapper(e.name) && e.args != [] && e.args[0].Node? {
      LimitIsExact(e.args[0]);
    } else if IsOr(e.name) {
      UnionLimitIsExact(e.args);
    } else if e.name == "andor" && |e.args| == 3 {
      LimitIsExact(e.args[0]);
      LimitIsExact(e.args[1]);
      LimitIsExact(e.args[2]);
    } else if IsAnd(e.name) {
      ConjunctionLimitIsExact([[]], e.args);
    }
  }

  lemma {:induction false} UnionLimitIsExact(args: seq<Expr>)
    ensures Union(args) == if AllFit(args) then Enumeration(AllOfUnion(args), false) else LIMITED
    decreases args, 1
  {
    if args != [] {
      LimitIsExact(args[0]);
      UnionLimitIsExact(args[1..]);
    }
  }

  lemma {:induction false} ConjunctionLimitIsExact(done: seq<Path>, args: seq<Expr>)
    requires |done| <= MAX_PATHS
    ensures Conjunction(Enumeration(done, false), args)
         == if AllFit(args) && PrefixesFit(done, args)
            then Enumeration(AllOfConjunction(done, args), false) else LIMITED
    decreases args, 1
  {
    if args != [] {
      LimitIsExact(args[0]);
      if Fits(args[0]) && |Product(done, AllPaths(args[0]))| <= MAX_PATHS {
        ConjunctionLimitIsExact(Product(done, AllPaths(args[0])), args[1..]);
      } else {
        ConjunctionOfLimited(args[1..]);
      }
    }
  }

  lemma {:induction false} ConjunctionOfLimited(args: seq<Expr>)
    ensures Conjunction(LIMITED, args) == LIMITED
  {
    if args != [] {
      ConjunctionOfLimited(args[1..]);
    }
  }

  // ---------- The cards ----------

  datatype Card = TooMany | Impossible | Symbolic(path: Path) | Conditions(path: Path)

  /** A fragment whose satisfaction the cards do not summarize, at any depth. */
  predicate IsSymbolic(e: Expr)
  {
    e.Node? && (e.name == "thresh" || IsOpaque(e.name) || exists a | a in e.args :: IsSymbolic(a))
  }

  /** `DescriptorPolicy.cards`, as the alternatives it shows and how it shows them. */
  function Cards(e: Expr): (cards: seq<Card>)
    ensures 1 <= |cards| <= 64
  {
    var found := Alternatives(e);
    if found.limited then [TooMany]
    else if found.paths == [] then [Impossible]
    else seq(|found.paths|, i requires 0 <= i < |found.paths| => CardOf(found.paths[i]))
  }

  function CardOf(path: Path): Card
  {
    if exists leaf | leaf in path :: IsSymbolic(leaf) then Symbolic(path) else Conditions(path)
  }

  /** A call of `name` stands somewhere in the condition. */
  predicate Mentions(e: Expr, name: string)
  {
    e.Node? && (e.name == name || exists a | a in e.args :: Mentions(a, name))
  }

  /** The fragments no card summarizes, by name. */
  predicate MentionsUnsummarized(e: Expr)
  {
    || Mentions(e, "thresh") || Mentions(e, "raw") || Mentions(e, "addr")
    || Mentions(e, "sp") || Mentions(e, "combo") || Mentions(e, "tr")
  }

  lemma {:induction false} SymbolicByName(e: Expr)
    ensures IsSymbolic(e) <==> MentionsUnsummarized(e)
  {
    if e.Node? {
      forall a | a in e.args ensures IsSymbolic(a) <==> MentionsUnsummarized(a) {
        SymbolicByName(a);
      }
    }
  }

  /**
   * Unless the walk gave up or found nothing, there is one card for each path, in order: symbolic
   * exactly when a condition of the path mentions a fragment that no card summarizes.
   */
  lemma CardsOfPaths(e: Expr)
    requires Fits(e) && AllPaths(e) != []
    ensures |Cards(e)| == |AllPaths(e)|
    ensures forall i | 0 <= i < |Cards(e)| ::
              Cards(e)[i] == if exists leaf | leaf in AllPaths(e)[i] :: MentionsUnsummarized(leaf)
                             then Symbolic(AllPaths(e)[i]) else Conditions(AllPaths(e)[i])
  {
    LimitIsExact(e);
    hide Fits, AllPaths, Alternatives, IsSymbolic, MentionsUnsummarized;
    forall leaf: Expr ensures IsSymbolic(leaf) <==> MentionsUnsummarized(leaf) {
      SymbolicByName(leaf);
    }
  }

  /** The impossible card appears exactly for a condition nothing satisfies, unless the walk gave up. */
  lemma ImpossibleMeansUnsatisfiable(e: Expr)
    ensures Impossible in Cards(e) <==> Fits(e) && forall holds: Expr -> bool :: !Holds(e, holds)
  {
    LimitIsExact(e);
    var found := Alternatives(e);
    if !found.limited {
      if found.paths != [] {
        var all := (leaf: Expr) => true;
        assert PathHolds(found.paths[0], all);
        EnumerationMeaning(e, all);
      } else {
        forall holds: Expr -> bool ensures !Holds(e, holds) {
          EnumerationMeaning(e, holds);
        }
      }
    }
  }

  /** A condition holds exactly when all leaves of some card's path do, unless the walk gave up. */
  lemma CardsMeanTheCondition(e: Expr, holds: Expr -> bool)
    requires Fits(e)
    ensures Holds(e, holds)
       <==> exists card | card in Cards(e) ::
              (card.Symbolic? || card.Conditions?) && PathHolds(card.path, holds)
  {
    LimitIsExact(e);
    EnumerationMeaning(e, holds);
    var paths := AllPaths(e);
    if Holds(e, holds) {
      var path :| path in paths && PathHolds(path, holds);
      var i :| 0 <= i < |paths| && paths[i] == path;
      var card := Cards(e)[i];
      assert card in Cards(e) && card.path == path;
    }
  }

  /** A condition that needs `0` as well: nothing satisfies it, and the card says so exactly when the rest fits. */
  lemma ImpossibleBehind(rest: Expr)
    ensures var e := Node("and_v", "", [rest, Node("0", "", [])]);
            && (forall holds: Expr -> bool :: !Holds(e, holds))
            && Cards(e) == if Fits(rest) then [Impossible] else [TooMany]
  {
    forall holds: Expr -> bool ensures !Holds(Node("and_v", "", [rest, Node("0", "", [])]), holds) {
      NeverHolds(rest, holds);
    }
    LimitIsExact(rest);
    AlternativesWithZero(rest);
    hide Alternatives, Fits, Holds;
  }

  lemma NeverHolds(rest: Expr, holds: Expr -> bool)
    ensures !Holds(Node("and_v", "", [rest, Node("0", "", [])]), holds)
  {
    var never := Node("0", "", []);
    assert !Holds(never, holds) && never in [rest, never];
  }

  lemma ConjunctionOfTwo(done: Enumeration, a: Expr, b: Expr)
    requires |done.paths| <= MAX_PATHS && (done.limited ==> done == LIMITED)
    ensures Conjunction(done, [a, b]) == Combined(Combined(done, Alternatives(a)), Alternatives(b))
  {
    hide Alternatives, Combined;
    assert [a, b][1..] == [b] && [b][1..] == [];
    var both := Combined(done, Alternatives(a));
    assert Conjunction(Combined(both, Alternatives(b)), []) == Combined(both, Alternatives(b));
    assert Conjunction(both, [b]) == Conjunction(Combined(both, Alternatives(b)), []);
  }

  lemma AlternativesWithZero(rest: Expr)
    ensures Alternatives(Node("and_v", "", [rest, Node("0", "", [])]))
         == if Alternatives(rest).limited then LIMITED else Enumeration([], false)
  {
    var never, start := Node("0", "", []), Enumeration([[]], false);
    assert Alternatives(never) == Enumeration([], false);
    assert Alternatives(Node("and_v", "", [rest, never])) == Conjunction(start, [rest, never]);
    hide Alternatives, Conjunction;
    ConjunctionOfTwo(start, rest, never);
    NothingTimes(Combined(start, Alternatives(rest)).paths);
  }

  lemma {:induction false} NothingTimes(left: seq<Path>)
    ensures Product(left, []) == []
  {
  }

  /** A choice between keys: one, or either of two choices. */
  datatype Choice = OneKey(key: string) | Either(first: Choice, second: Choice)

  function KeysOf(c: Choice): seq<string>
  {
    match c case OneKey(key) => [key] case Either(a, b) => KeysOf(a) + KeysOf(b)
  }

  function Nesting(c: Choice): nat
  {
    match c
    case OneKey(_) => 0
    case Either(a, b) => 1 + if Nesting(a) >= Nesting(b) then Nesting(a) else Nesting(b)
  }

  function ChoiceNode(c: Choice, wrappers: string): (r: Expr)
    ensures r.Node?
  {
    match c
    case OneKey(key) => Node("pk", wrappers, [Leaf(key)])
    case Either(a, b) => Node("or_i", wrappers, [ChoiceNode(a, ""), ChoiceNode(b, "")])
  }

  lemma {:induction false} ChoicePaths(c: Choice, wrappers: string)
    ensures |AllPaths(ChoiceNode(c, wrappers))| == |KeysOf(c)|
  {
    match c
    case OneKey(key) =>
      assert AllPaths(ChoiceNode(c, wrappers)) == [[ChoiceNode(c, wrappers)]];
    case Either(a, b) =>
      ChoicePaths(a, "");
      ChoicePaths(b, "");
      PathsOfPair(ChoiceNode(a, ""), ChoiceNode(b, ""), wrappers);
  }

  /** One path for each key, in order. */
  function KeyPaths(keys: seq<string>): (r: seq<Path>)
    ensures |r| == |keys| && forall i | 0 <= i < |keys| :: r[i] == [Node("pk", "", [Leaf(keys[i])])]
  {
    seq(|keys|, i requires 0 <= i < |keys| => [Node("pk", "", [Leaf(keys[i])])])
  }

  lemma {:induction false} KeyPathsOfChoice(c: Choice)
    ensures AllPaths(ChoiceNode(c, "")) == KeyPaths(KeysOf(c))
  {
    match c
    case OneKey(key) =>
      assert AllPaths(ChoiceNode(c, "")) == [[ChoiceNode(c, "")]];
      assert KeysOf(c)[0] == key;
    case Either(a, b) =>
      KeyPathsOfChoice(a);
      KeyPathsOfChoice(b);
      PathsOfPair(ChoiceNode(a, ""), ChoiceNode(b, ""), "");
      assert KeyPaths(KeysOf(a) + KeysOf(b)) == KeyPaths(KeysOf(a)) + KeyPaths(KeysOf(b));
  }

  lemma {:induction false} ChoiceFits(c: Choice)
    ensures Fits(ChoiceNode(c, "")) <==> |KeysOf(c)| <= MAX_PATHS
  {
    match c
    case OneKey(key) =>
    case Either(a, b) =>
      ChoiceFits(a);
      ChoiceFits(b);
      KeyPathsOfChoice(c);
      PairFits(ChoiceNode(a, ""), ChoiceNode(b, ""));
  }

  lemma PairFits(a: Expr, b: Expr)
    ensures Fits(Node("or_i", "", [a, b]))
       <==> Fits(a) && Fits(b) && |AllPaths(Node("or_i", "", [a, b]))| <= MAX_PATHS
  {
    hide AllPaths;
    BothFit(a, b);
  }

  lemma BothFit(a: Expr, b: Expr)
    ensures AllFit([a, b]) <==> Fits(a) && Fits(b)
  {
    hide Fits;
    assert [a, b][1..] == [b] && [b][1..] == [];
    assert AllFit([b]) <==> Fits(b);
  }

  /** A nest of choices between keys shows a card for each key, in order, up to 64 of them. */
  lemma ChoiceCards(c: Choice)
    ensures Cards(ChoiceNode(c, "")) ==
            if |KeysOf(c)| > 64 then [TooMany]
            else seq(|KeysOf(c)|, i requires 0 <= i < |KeysOf(c)| => Conditions([Node("pk", "", [Leaf(KeysOf(c)[i])])]))
  {
    var node, keys := ChoiceNode(c, ""), KeysOf(c);
    KeyPathsOfChoice(c);
    ChoiceFits(c);
    if |keys| <= 64 {
      SomeKey(c);
      CardsOfPaths(node);
      hide Cards, AllPaths, Fits, MentionsUnsummarized, ChoiceNode, KeysOf;
      forall i | 0 <= i < |keys| ensures Cards(node)[i] == Conditions([Node("pk", "", [Leaf(keys[i])])]) {
        KeyIsSummarized(keys[i]);
        assert AllPaths(node)[i] == [Node("pk", "", [Leaf(keys[i])])];
      }
    } else {
      LimitIsExact(node);
    }
  }

  lemma KeyIsSummarized(key: string)
    ensures !MentionsUnsummarized(Node("pk", "", [Leaf(key)]))
  {
    forall name | name != "pk" ensures !Mentions(Node("pk", "", [Leaf(key)]), name) {
      assert forall a | a in [Leaf(key)] :: !Mentions(a, name);
    }
  }

  lemma {:induction false} SomeKey(c: Choice)
    ensures KeysOf(c) != []
  {
    if c.Either? {
      SomeKey(c.first);
    }
  }

  lemma PathsOfPair(a: Expr, b: Expr, wrappers: string)
    ensures AllPaths(Node("or_i", wrappers, [a, b])) == AllPaths(a) + AllPaths(b)
  {
    assert AllPaths(Node("or_i", wrappers, [a, b])) == AllOfUnion([a, b]);
    hide AllPaths;
    assert [a, b][1..] == [b] && [b][1..] == [];
    assert AllOfUnion([b]) == AllPaths(b) + [];
  }

  lemma {:induction false} ChoiceIsWellFormed(c: Choice, wrappers: string, depth: nat)
    requires depth + Nesting(c) <= MAX_EXPRESSION_DEPTH && (wrappers == "" || wrappers == "v")
    requires forall k | k in KeysOf(c) :: AllHex(k) && |k| > 1
    ensures WellFormed(ChoiceNode(c, wrappers), depth)
    decreases c
  {
    hide WellFormed, WellFormedArgs, AllHex;
    match c
    case OneKey(key) =>
      KeyIsWellFormed(key, wrappers, depth);
    case Either(a, b) =>
      ChoiceIsWellFormed(a, "", depth + 1);
      ChoiceIsWellFormed(b, "", depth + 1);
      BothWellFormed(ChoiceNode(a, ""), ChoiceNode(b, ""), depth + 1);
      PairIsWellFormed("or_i", wrappers, ChoiceNode(a, ""), ChoiceNode(b, ""), depth);
  }

  lemma KeyIsWellFormed(key: string, wrappers: string, depth: nat)
    requires AllHex(key) && |key| > 1 && depth <= MAX_EXPRESSION_DEPTH && (wrappers == "" || wrappers == "v")
    ensures WellFormed(Node("pk", wrappers, [Leaf(key)]), depth)
  {
    KeyStaysText(key, depth + 1);
    hide StaysText, AllHex, AllWord;
    var arg := Leaf(key);
    assert WellFormedArg(arg, false, depth + 1);
    assert [arg][1..] == [] && WellFormedArgs([arg][1..], false, depth + 1);
    WordsOfChoice();
  }

  lemma PairIsWellFormed(name: string, wrappers: string, a: Expr, b: Expr, depth: nat)
    requires (name == "or_i" || name == "and_v") && (wrappers == "" || wrappers == "v") && depth <= MAX_EXPRESSION_DEPTH
    requires WellFormedArgs([a, b], false, depth + 1)
    ensures WellFormed(Node(name, wrappers, [a, b]), depth)
  {
    hide WellFormedArgs;
    WordsOfChoice();
  }

  lemma BothWellFormed(a: Expr, b: Expr, depth: nat)
    requires a.Node? && b.Node? && WellFormed(a, depth) && WellFormed(b, depth)
    ensures WellFormedArgs([a, b], false, depth)
  {
    hide WellFormed;
    assert [a, b][1..] == [b] && [b][1..] == [];
    assert WellFormedArgs([], false, depth) && WellFormedArgs([b], false, depth);
  }

  lemma WordsOfChoice()
    ensures AllWord("pk") && AllWord("or_i") && AllWord("and_v") && AllLower("") && AllLower("v")
    ensures !NumericFirst("pk") && !NumericFirst("or_i") && !NumericFirst("and_v")
  {
  }

  lemma ZeroIsWellFormed(depth: nat)
    requires depth <= MAX_EXPRESSION_DEPTH
    ensures WellFormed(Node("0", "", []), depth)
  {
  }

  /** A choice between keys that also needs `0`: nothing satisfies it. */
  function Unspendable(c: Choice): (r: Expr)
    ensures r.Node?
  {
    Node("and_v", "", [ChoiceNode(c, "v"), Node("0", "", [])])
  }

  /**
   * A condition nothing satisfies may still show the too-many card: the walk gives up on a child
   * before it sees the impossible one. It happens for every nest of binary choices between more keys
   * than the bound, whatever the keys, and the parser reads the text of that policy down to its own
   * depth limit.
   */
  lemma TooManyCanHideImpossible(c: Choice)
    requires |KeysOf(c)| > 64
    ensures Cards(Unspendable(c)) == [TooMany] && forall holds: Expr -> bool :: !Holds(Unspendable(c), holds)
    ensures (forall k | k in KeysOf(c) :: AllHex(k) && |k| > 1) && Nesting(c) < 128 ==>
              Expression(Print(Unspendable(c))) == Parsed(Unspendable(c))
  {
    hide Cards, Holds, AllHex, Nesting;
    ChoicePaths(c, "v");
    ManyDoNotFit(c, "v");
    ImpossibleBehind(ChoiceNode(c, "v"));
    if (forall k | k in KeysOf(c) :: AllHex(k) && |k| > 1) && Nesting(c) < MAX_EXPRESSION_DEPTH {
      UnspendableIsWellFormed(c);
      ParseOfPrint(Unspendable(c), 0);
    }
  }

  lemma ManyDoNotFit(c: Choice, wrappers: string)
    requires |AllPaths(ChoiceNode(c, wrappers))| == |KeysOf(c)| > MAX_PATHS
    ensures !Fits(ChoiceNode(c, wrappers))
  {
    hide AllPaths, AllFit;
    assert c.Either?;
  }

  lemma UnspendableIsWellFormed(c: Choice)
    requires Nesting(c) < MAX_EXPRESSION_DEPTH && forall k | k in KeysOf(c) :: AllHex(k) && |k| > 1
    ensures WellFormed(Unspendable(c), 0)
  {
    hide WellFormed, WellFormedArgs, ChoiceNode, Nesting, AllHex, KeysOf;
    var choice, never := ChoiceNode(c, "v"), Node("0", "", []);
    ChoiceIsWellFormed(c, "v", 1);
    ZeroIsWellFormed(1);
    BothWellFormed(choice, never, 1);
    PairIsWellFormed("and_v", "", choice, never, 0);
  }
}

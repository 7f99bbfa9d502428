/** The scan of a branch: a batched loop whose target grows while it runs, and the point where it stops. */
module BranchScans {
  import opened Text
  import opened KeyOrder
  import opened AddressGap
  import opened Addresses
  import opened AddressAccounting

  // ---------- Where a scan has to stop ----------

  type Uses = nat -> bool

  /** One past the last used index below `n`; 0 when there is none. */
  function PastLastUsed(n: nat, used: Uses): (r: nat)
    ensures r <= n && (r > 0 ==> used(r - 1)) && forall i | r <= i < n :: !used(i)
  {
    if n == 0 then 0 else if used(n - 1) then n else PastLastUsed(n - 1, used)
  }

  /** How many addresses have to be scanned when the first `n` are known. */
  function Needed(n: nat, initial: nat, maximum: nat, used: Uses): nat
  {
    var last := PastLastUsed(n, used);
    if last == 0 then initial else Max(initial, Min(maximum, last + 20))
  }

  ghost predicate IsLeastFixedPoint(n: nat, initial: nat, maximum: nat, used: Uses)
  {
    Needed(n, initial, maximum, used) == n && forall m: nat | m < n :: Needed(m, initial, maximum, used) != m
  }

  /** The target after the used addresses below `n` pushed it on, one by one. */
  function Pushed(n: nat, initial: nat, maximum: nat, used: Uses): (r: nat)
    ensures initial <= r <= Max(initial, maximum)
  {
    if n == 0 then initial
    else
      var before := Pushed(n - 1, initial, maximum, used);
      if used(n - 1) then ExtendAddressTarget(before, n - 1, maximum).0 else before
  }

  lemma {:induction false} PushedIsNeeded(n: nat, initial: nat, maximum: nat, used: Uses)
    ensures Pushed(n, initial, maximum, used) == Needed(n, initial, maximum, used)
  {
    if n > 0 {
      PushedIsNeeded(n - 1, initial, maximum, used);
    }
  }

  lemma {:induction false} PushedGrows(m: nat, n: nat, initial: nat, maximum: nat, used: Uses)
    requires m <= n
    ensures Pushed(m, initial, maximum, used) <= Pushed(n, initial, maximum, used)
  {
    if m < n {
      PushedGrows(m, n - 1, initial, maximum, used);
    }
  }

  /** The first index, from `n` on, at which nothing more is needed. */
  function EndFrom(n: nat, initial: nat, maximum: nat, used: Uses): (r: nat)
    requires n <= Pushed(n, initial, maximum, used)
    ensures n <= r == Pushed(r, initial, maximum, used)
    ensures forall m | n <= m < r :: m < Pushed(m, initial, maximum, used)
    decreases Max(initial, maximum) - n
  {
    if Pushed(n, initial, maximum, used) == n then n
    else
      PushedGrows(n, n + 1, initial, maximum, used);
      EndFrom(n + 1, initial, maximum, used)
  }

  function ScanEnd(initial: nat, maximum: nat, used: Uses): nat { EndFrom(0, initial, maximum, used) }

  /** The scan ends at the least fixed point, and there is only one. */
  lemma ScanEndIsLeast(initial: nat, maximum: nat, used: Uses)
    ensures IsLeastFixedPoint(ScanEnd(initial, maximum, used), initial, maximum, used)
    ensures forall n: nat | IsLeastFixedPoint(n, initial, maximum, used) :: n == ScanEnd(initial, maximum, used)
    ensures ScanEnd(initial, maximum, used) >= initial
  {
    var end := ScanEnd(initial, maximum, used);
    forall m: nat | m <= end
      ensures Pushed(m, initial, maximum, used) == Needed(m, initial, maximum, used)
    {
      PushedIsNeeded(m, initial, maximum, used);
    }
  }

  /** Some used address below `n` is too close to the maximum for a full gap. */
  ghost predicate CutBelow(n: nat, maximum: nat, used: Uses)
  {
    exists i: nat :: i < n && used(i) && Cuts(i, maximum)
  }

  /** Unless a gap was cut short, a full gap of unused addresses follows the last used one. */
  lemma GapFollowsTheLastUsed(initial: nat, maximum: nat, used: Uses, last: nat)
    requires var end := ScanEnd(initial, maximum, used);
             last < end && used(last) && (forall i | last < i < end :: !used(i)) && !CutBelow(end, maximum, used)
    ensures last + 20 < ScanEnd(initial, maximum, used)
    ensures forall i | last < i <= last + 20 :: !used(i)
  {
    var end := ScanEnd(initial, maximum, used);
    ScanEndIsLeast(initial, maximum, used);
    assert PastLastUsed(end, used) == last + 1;
    assert !Cuts(last, maximum);
  }

  /** A scan ends at its initial count, or 21 past a used address, or at the maximum when that is nearer. */
  lemma EndIsReached(initial: nat, maximum: nat, used: Uses)
    ensures var end := ScanEnd(initial, maximum, used);
            || end == initial
            || exists last: nat :: last < end && used(last) && end == if last + 21 <= maximum then last + 21 else maximum
  {
    var end := ScanEnd(initial, maximum, used);
    ScanEndIsLeast(initial, maximum, used);
    var past := PastLastUsed(end, used);
    if end != initial {
      assert past > 0 && used(past - 1);
    }
  }

  // ---------- The scan over a book ----------

  datatype BranchScan<!State> = BranchScan(
    initial: nat,
    batchSize: nat,
    options: Options,
    derive: nat -> string,
    provider: Provider<State>,
    aborted: nat -> bool
  )

  /** The provider answers every request from one unchanging chain. */
  ghost predicate Answers<State(!new)>(provider: Provider<State>, chain: string -> State)
  {
    forall texts: seq<string> ::
      provider(texts).Some? && |provider(texts).value| == |texts|
      && forall i | 0 <= i < |texts| :: provider(texts).value[i] == chain(texts[i])
  }

  /** Texts of one key stand for one address. */
  ghost predicate Respects<State(!new)>(chain: string -> State, key: string -> string)
  {
    forall a, b :: key(a) == key(b) ==> chain(a) == chain(b)
  }

  /** What the book holds is what the chain says. */
  ghost predicate Faithful<State(!new)>(book: Book<State>, chain: string -> State, source: Source<State>)
  {
    forall text :: source.key(text) in book.states ==> book.states[source.key(text)] == chain(text)
  }

  lemma {:induction false} AbsorbedIsFaithful<State(!new)>(book: Book<State>, missing: seq<string>, replies: seq<State>,
                                                           chain: string -> State, source: Source<State>)
    requires |missing| == |replies| && Faithful(book, chain, source) && Respects(chain, source.key)
    requires forall i | 0 <= i < |missing| :: replies[i] == chain(missing[i])
    ensures Faithful(Absorbed(book, missing, replies, source), chain, source)
  {
    if missing != [] {
      var last := |missing| - 1;
      AbsorbedIsFaithful(book, missing[..last], replies[..last], chain, source);
    }
  }

  lemma LookUpIsFaithful<State(!new)>(book: Book<State>, addresses: seq<string>, provider: Provider<State>,
                                      chain: string -> State, source: Source<State>)
    requires Faithful(book, chain, source) && Respects(chain, source.key) && Answers(provider, chain)
    ensures var after := AfterLookUp(book, addresses, provider, source);
            && after.Some? && Faithful(after.value, chain, source) && Has(after.value, addresses, source)
            && forall i | 0 <= i < |addresses| :: StatesOf(after.value, addresses, source)[i] == chain(addresses[i])
  {
    var missing := Missing(book, addresses, source);
    if missing != [] {
      AbsorbedIsFaithful(book, missing, provider(missing).value, chain, source);
    }
    LookUpHas(book, addresses, provider, source);
  }

  function Used<State>(scan: BranchScan<State>, chain: string -> State, source: Source<State>): Uses
  {
    (i: nat) => source.used(chain(scan.derive(i)))
  }

  function End<State>(scan: BranchScan<State>, chain: string -> State, source: Source<State>): nat
  {
    ScanEnd(scan.initial, scan.options.maximum, Used(scan, chain, source))
  }

  function Target<State>(scan: BranchScan<State>, chain: string -> State, source: Source<State>, n: nat): nat
  {
    Pushed(n, scan.initial, scan.options.maximum, Used(scan, chain, source))
  }

  function ShownAt<State>(scan: BranchScan<State>, chain: string -> State, source: Source<State>, i: nat): seq<Shown<State>>
  {
    ShownIf(BatchAddress(scan.derive(i), i), chain(scan.derive(i)), scan.options, source)
  }

  /** What is shown of the first `n` addresses: the funded ones, and the used empty ones when asked. */
  function ShownBelow<State>(scan: BranchScan<State>, chain: string -> State, source: Source<State>, n: nat): seq<Shown<State>>
  {
    if n == 0 then []
    else
      ShownBelow(scan, chain, source, n - 1) + ShownAt(scan, chain, source, n - 1)
  }

  predicate ListsIndex<State>(shown: seq<Shown<State>>, index: nat)
  {
    exists k :: 0 <= k < |shown| && shown[k].derived.index == index
  }

  /**
   * Of the first `n` addresses, `shown` lists those with a balance, and the used ones without when they
   * are asked for: each once, in index order, with what the chain says of it.
   */
  ghost predicate ShowsExactly<State>(shown: seq<Shown<State>>, scan: BranchScan<State>, chain: string -> State,
                                      source: Source<State>, n: nat)
  {
    && (forall a, b | 0 <= a < b < |shown| :: shown[a].derived.index < shown[b].derived.index)
    && (forall k | 0 <= k < |shown| ::
          var i := shown[k].derived.index;
          i < n && shown[k] == Shown(BatchAddress(scan.derive(i), i), chain(scan.derive(i))))
    && (forall i: nat {:trigger ListsIndex(shown, i)} | i < n ::
          ListsIndex(shown, i) <==>
            source.balance(chain(scan.derive(i))) > 0
            || (source.used(chain(scan.derive(i))) && scan.options.includeUsedZeroBalance))
  }

  lemma {:induction false} ShownBelowIsExact<State>(scan: BranchScan<State>, chain: string -> State, source: Source<State>, n: nat)
    ensures ShowsExactly(ShownBelow(scan, chain, source, n), scan, chain, source, n)
  {
    if n == 0 {
      assert ShownBelow(scan, chain, source, n) == [];
    } else {
      hide ShowsExactly;
      ShownBelowIsExact(scan, chain, source, n - 1);
      ShowsOneMore(ShownBelow(scan, chain, source, n - 1), scan, chain, source, n - 1);
    }
  }

  lemma ShowsOneMore<State>(before: seq<Shown<State>>, scan: BranchScan<State>, chain: string -> State, source: Source<State>, n: nat)
    requires ShowsExactly(before, scan, chain, source, n)
    ensures ShowsExactly(before + ShownAt(scan, chain, source, n), scan, chain, source, n + 1)
  {
    var after := before + ShownAt(scan, chain, source, n);
    assert forall k | 0 <= k < |before| :: after[k] == before[k];
    if IsShown(chain(scan.derive(n)), scan.options, source) {
      assert after[|before|] == Shown(BatchAddress(scan.derive(n), n), chain(scan.derive(n)));
    }
    forall i: nat | i < n
      ensures ListsIndex(after, i) <==> ListsIndex(before, i)
    {
      if k :| 0 <= k < |before| && before[k].derived.index == i {
        assert after[k].derived.index == i;
      }
    }
  }

  /** The addresses `from` up to `end`. */
  function Chunk(derive: nat -> string, from: nat, end: nat): (r: seq<BatchAddress>)
    requires from <= end
    ensures |r| == end - from
    ensures forall i | 0 <= i < |r| :: r[i] == BatchAddress(derive(from + i), from + i)
  {
    seq(end - from, i requires 0 <= i < end - from => BatchAddress(derive(from + i), from + i))
  }

  lemma {:induction false} TargetOfChunk<State>(scan: BranchScan<State>, chain: string -> State, source: Source<State>,
                                                from: nat, end: nat, found: seq<State>)
    requires from <= end && |found| == end - from
    requires forall i | 0 <= i < |found| :: found[i] == chain(scan.derive(from + i))
    ensures Extended(Chunk(scan.derive, from, end), found, Target(scan, chain, source, from), scan.options, source)
         == Target(scan, chain, source, end)
    decreases end - from
  {
    hide ExtendAddressTarget;
    if from < end {
      var chunk, last := Chunk(scan.derive, from, end), end - from - 1;
      TargetOfChunk(scan, chain, source, from, end - 1, found[..last]);
      assert chunk[..last] == Chunk(scan.derive, from, end - 1);
      assert chunk[last] == BatchAddress(scan.derive(end - 1), end - 1) && found[last] == chain(scan.derive(end - 1));
    }
  }

  lemma {:induction false} ShownOfChunk<State>(scan: BranchScan<State>, chain: string -> State, source: Source<State>,
                                               from: nat, end: nat, found: seq<State>)
    requires from <= end && |found| == end - from
    requires forall i | 0 <= i < |found| :: found[i] == chain(scan.derive(from + i))
    ensures ShownBelow(scan, chain, source, from) + Showing(Chunk(scan.derive, from, end), found, scan.options, source)
         == ShownBelow(scan, chain, source, end)
    decreases end - from
  {
    hide ShownIf;
    var chunk := Chunk(scan.derive, from, end);
    if from == end {
      NothingExtends(0, scan.options, source);
      assert chunk == [] && found == [];
      assert ShownBelow(scan, chain, source, from) + [] == ShownBelow(scan, chain, source, from);
    } else {
      var last := end - from - 1;
      ShownOfChunk(scan, chain, source, from, end - 1, found[..last]);
      assert chunk[..last] == Chunk(scan.derive, from, end - 1);
      LastOfChunk(scan, chain, source, from, end, found);
      hide Showing;
      Regroup(ShownBelow(scan, chain, source, from), Showing(chunk[..last], found[..last], scan.options, source),
              ShownAt(scan, chain, source, end - 1));
    }
  }

  lemma LastOfChunk<State>(scan: BranchScan<State>, chain: string -> State, source: Source<State>, from: nat, end: nat,
                           found: seq<State>)
    requires from < end && |found| == end - from
    requires forall i | 0 <= i < |found| :: found[i] == chain(scan.derive(from + i))
    ensures var chunk, last := Chunk(scan.derive, from, end), end - from - 1;
            Showing(chunk, found, scan.options, source) ==
            Showing(chunk[..last], found[..last], scan.options, source) + ShownAt(scan, chain, source, end - 1)
  {
    hide ShownIf;
  }

  lemma Regroup<T>(a: seq<T>, b: seq<T>, c: seq<T>)
    ensures a + (b + c) == a + b + c
  {
  }

  lemma CutOfChunk<State>(scan: BranchScan<State>, chain: string -> State, source: Source<State>, from: nat, end: nat,
                          found: seq<State>)
    requires from <= end && |found| == end - from
    requires forall i | 0 <= i < |found| :: found[i] == chain(scan.derive(from + i))
    ensures CutBelow(end, scan.options.maximum, Used(scan, chain, source))
       <==> CutBelow(from, scan.options.maximum, Used(scan, chain, source))
            || Cut(Chunk(scan.derive, from, end), found, scan.options, source)
  {
    var chunk, used, maximum := Chunk(scan.derive, from, end), Used(scan, chain, source), scan.options.maximum;
    if CutBelow(end, maximum, used) {
      var i: nat :| i < end && used(i) && Cuts(i, maximum);
      if i >= from {
        assert source.used(found[i - from]) && Cuts(chunk[i - from].index, maximum);
      }
    }
    if Cut(chunk, found, scan.options, source) {
      var i :| 0 <= i < |chunk| && source.used(found[i]) && Cuts(chunk[i].index, maximum);
      assert used(from + i) && Cuts(from + i, maximum);
    }
  }

  function Indices(n: nat): (r: seq<nat>)
    ensures |r| == n && forall i | 0 <= i < n :: r[i] == i
  {
    seq(n, (i: nat) => i)
  }

  ghost predicate OneSpelling<State>(scan: BranchScan<State>, key: string -> string)
  {
    forall i: nat, j: nat :: key(scan.derive(i)) == key(scan.derive(j)) ==> scan.derive(i) == scan.derive(j)
  }

  // ---------- Which batches ask the provider ----------

  /** The keys of the first `n` addresses of a branch. */
  function KeysBelow<State>(scan: BranchScan<State>, key: string -> string, n: nat): set<string>
  {
    set i: nat | i < n :: key(scan.derive(i))
  }

  /** No two of the first `n` addresses of the branch share a key, and only the first one may be held already. */
  ghost predicate OwnKeys<State>(held: set<string>, scan: BranchScan<State>, key: string -> string, n: nat)
  {
    && (forall i: nat, j: nat | i < j < n :: key(scan.derive(i)) != key(scan.derive(j)))
    && (forall i: nat | 1 <= i < n :: key(scan.derive(i)) !in held)
  }

  lemma FewerOwnKeys<State>(held: set<string>, scan: BranchScan<State>, key: string -> string, m: nat, n: nat)
    requires m <= n && OwnKeys(held, scan, key, n)
    ensures OwnKeys(held, scan, key, m)
  {
  }

  /** The first batch is one address, and the book holds it already. */
  predicate WastesFirst<State>(held: set<string>, scan: BranchScan<State>, key: string -> string)
  {
    scan.initial > 0 && Min(scan.batchSize, scan.initial) == 1 && key(scan.derive(0)) in held
  }

  lemma LookUpAddsKeys<State>(book: Book<State>, addresses: seq<string>, provider: Provider<State>, source: Source<State>)
    requires AfterLookUp(book, addresses, provider, source).Some?
    ensures AfterLookUp(book, addresses, provider, source).value.states.Keys
         == book.states.Keys + set x | x in addresses :: source.key(x)
  {
    var missing := Missing(book, addresses, source);
    if missing != [] {
      AbsorbedStates(book, missing, provider(missing).value, source);
    }
    MappedKeys(missing, source.key);
  }

  lemma MappedKeys(texts: seq<string>, key: string -> string)
    ensures Members(Map(key, texts)) == set x | x in texts :: key(x)
  {
    forall x | x in texts ensures key(x) in Members(Map(key, texts)) {
      var i :| 0 <= i < |texts| && texts[i] == x;
      KeyIsMapped(texts, i, key);
    }
  }

  /** After `n` addresses: the batches looked up, and the provider calls among them. */
  ghost predicate AsksSoFar<State>(scan: BranchScan<State>, held: set<string>, key: string -> string, n: nat, lookUps: nat,
                                   requests: nat)
  {
    && requests <= lookUps <= n <= lookUps * scan.batchSize
    && (OwnKeys(held, scan, key, n) ==> requests == lookUps - if n > 0 && WastesFirst(held, scan, key) then 1 else 0)
  }

  lemma AsksAtFirst<State>(scan: BranchScan<State>, held: set<string>, key: string -> string)
    ensures AsksSoFar(scan, held, key, 0, 0, 0) && KeysBelow(scan, key, 0) == {}
  {
  }

  lemma AsksOneMore<State>(scan: BranchScan<State>, held: set<string>, key: string -> string, from: nat, end: nat,
                           lookUps: nat, requests: nat, asked: nat)
    requires AsksSoFar(scan, held, key, from, lookUps, requests) && asked <= 1
    requires from < end <= from + scan.batchSize && (from == 0 ==> end == Min(scan.batchSize, scan.initial))
    requires OwnKeys(held, scan, key, end) ==> asked == if from == 0 && end == 1 && key(scan.derive(0)) in held then 0 else 1
    ensures AsksSoFar(scan, held, key, end, lookUps + 1, requests + asked)
  {
    hide OwnKeys;
    if OwnKeys(held, scan, key, end) {
      FewerOwnKeys(held, scan, key, from, end);
    }
    assert (lookUps + 1) * scan.batchSize == lookUps * scan.batchSize + scan.batchSize;
  }

  /** What one batch adds to the keys held. */
  lemma BatchAddsKeys<State>(scan: BranchScan<State>, held: set<string>, book: Book<State>, source: Source<State>,
                             from: nat, end: nat)
    requires from < end && book.states.Keys == held + KeysBelow(scan, source.key, from)
    requires AfterLookUp(book, Texts(Chunk(scan.derive, from, end)), scan.provider, source).Some?
    ensures AfterLookUp(book, Texts(Chunk(scan.derive, from, end)), scan.provider, source).value.states.Keys
         == held + KeysBelow(scan, source.key, end)
  {
    hide AfterLookUp, KeysBelow, Texts;
    LookUpAddsKeys(book, Texts(Chunk(scan.derive, from, end)), scan.provider, source);
    KeysOfChunk(scan, source.key, from, end);
  }

  /** Whether one batch has to ask. */
  lemma BatchAsks<State>(scan: BranchScan<State>, held: set<string>, book: Book<State>, source: Source<State>,
                         from: nat, end: nat)
    requires from < end && book.states.Keys == held + KeysBelow(scan, source.key, from)
    requires OwnKeys(held, scan, source.key, end)
    ensures Requests(book, Texts(Chunk(scan.derive, from, end)), source)
         == if from == 0 && end == 1 && source.key(scan.derive(0)) in held then 0 else 1
  {
    hide Missing, Requests;
    var texts, last := Texts(Chunk(scan.derive, from, end)), scan.derive(end - 1);
    assert texts[end - 1 - from] == last;
    AsksForMissing(book, texts, source);
    if from == 0 && end == 1 && source.key(last) in held {
      assert texts == [last];
    } else {
      assert source.key(last) !in book.states by {
        LastKeyIsOwn(scan, held, source.key, from, end);
      }
    }
  }

  lemma AsksForMissing<State>(book: Book<State>, texts: seq<string>, source: Source<State>)
    ensures Requests(book, texts, source) == if exists x :: x in texts && source.key(x) !in book.states then 1 else 0
  {
    var missing := Missing(book, texts, source);
    assert missing != [] ==> missing[0] in missing;
  }

  lemma LastKeyIsOwn<State>(scan: BranchScan<State>, held: set<string>, key: string -> string, from: nat, end: nat)
    requires from < end && OwnKeys(held, scan, key, end)
    requires from > 0 || end > 1 || key(scan.derive(0)) !in held
    ensures key(scan.derive(end - 1)) !in held + KeysBelow(scan, key, from)
  {
  }

  lemma KeysOfChunk<State>(scan: BranchScan<State>, key: string -> string, from: nat, end: nat)
    requires from <= end
    ensures KeysBelow(scan, key, end)
         == KeysBelow(scan, key, from) + set x | x in Texts(Chunk(scan.derive, from, end)) :: key(x)
  {
    var texts := Texts(Chunk(scan.derive, from, end));
    forall i: nat | from <= i < end ensures scan.derive(i) in texts {
      assert texts[i - from] == scan.derive(i);
    }
  }

  // ---------- How many batches a branch takes ----------

  /** The batches from `offset` on: each is full unless the target of that moment is nearer. */
  function BatchesFrom<State>(scan: BranchScan<State>, chain: string -> State, source: Source<State>, offset: nat): nat
    requires scan.batchSize >= 1 && offset <= Target(scan, chain, source, offset)
    decreases Max(scan.initial, scan.options.maximum) - offset
  {
    var target := Target(scan, chain, source, offset);
    if offset == target then 0
    else
      var end := Min(offset + scan.batchSize, target);
      BeforeTheTarget(scan, chain, source, offset, end);
      1 + BatchesFrom(scan, chain, source, end)
  }

  /** The batches of a whole scan of a branch, as the chain decides them. */
  function Passes<State>(scan: BranchScan<State>, chain: string -> State, source: Source<State>): nat
    requires scan.batchSize >= 1
  {
    BatchesFrom(scan, chain, source, 0)
  }

  lemma OneMoreBatch<State>(scan: BranchScan<State>, chain: string -> State, source: Source<State>, from: nat, end: nat)
    requires scan.batchSize >= 1 && from < Target(scan, chain, source, from)
    requires end == Min(from + scan.batchSize, Target(scan, chain, source, from)) <= Target(scan, chain, source, end)
    ensures BatchesFrom(scan, chain, source, from) == 1 + BatchesFrom(scan, chain, source, end)
  {
  }

  /** Where the loop stands after `lookUps` batches, at `offset`. */
  ghost predicate OnTheWay<State>(scan: BranchScan<State>, chain: string -> State, source: Source<State>, offset: nat,
                                  lookUps: nat)
    requires scan.batchSize >= 1
  {
    && offset <= Target(scan, chain, source, offset)
    && (forall m | 0 <= m < offset :: m < Target(scan, chain, source, m))
    && lookUps + BatchesFrom(scan, chain, source, offset) == Passes(scan, chain, source)
  }

  lemma SetsOut<State>(scan: BranchScan<State>, chain: string -> State, source: Source<State>)
    requires scan.batchSize >= 1
    ensures OnTheWay(scan, chain, source, 0, 0)
  {
  }

  lemma GoesOn<State>(scan: BranchScan<State>, chain: string -> State, source: Source<State>, from: nat, end: nat, lookUps: nat)
    requires scan.batchSize >= 1 && OnTheWay(scan, chain, source, from, lookUps)
    requires from < end == Min(from + scan.batchSize, Target(scan, chain, source, from))
    ensures OnTheWay(scan, chain, source, end, lookUps + 1)
  {
    hide Target, Passes;
    BeforeTheTarget(scan, chain, source, from, end);
    OneMoreBatch(scan, chain, source, from, end);
  }

  lemma Arrives<State>(scan: BranchScan<State>, chain: string -> State, source: Source<State>, offset: nat, lookUps: nat)
    requires scan.batchSize >= 1 && OnTheWay(scan, chain, source, offset, lookUps)
    ensures offset < Target(scan, chain, source, offset) ==> offset < End(scan, chain, source)
    ensures offset == Target(scan, chain, source, offset) ==>
              offset == End(scan, chain, source) && lookUps == Passes(scan, chain, source)
  {
    hide Target, Passes, End, BatchesFrom;
    if offset == Target(scan, chain, source, offset) {
      NoMoreBatches(scan, chain, source, offset);
      AtTheEnd(scan, chain, source, offset);
    } else {
      StillBefore(scan, chain, source, offset);
    }
  }

  lemma NoMoreBatches<State>(scan: BranchScan<State>, chain: string -> State, source: Source<State>, from: nat)
    requires scan.batchSize >= 1 && from == Target(scan, chain, source, from)
    ensures BatchesFrom(scan, chain, source, from) == 0
  {
  }

  /** The end of a scan is still the first fixed point when some of it is done. */
  lemma {:induction false} SameEnd(from: nat, next: nat, initial: nat, maximum: nat, used: Uses)
    requires from <= next <= Pushed(from, initial, maximum, used)
    ensures next <= Pushed(next, initial, maximum, used)
    ensures EndFrom(from, initial, maximum, used) == EndFrom(next, initial, maximum, used)
    decreases next - from
  {
    PushedGrows(from, next, initial, maximum, used);
    if from < next {
      PushedGrows(from, from + 1, initial, maximum, used);
      SameEnd(from + 1, next, initial, maximum, used);
    }
  }

  /** The batches cover what is left, and each holds an address. */
  lemma {:induction false} BatchesCover<State>(scan: BranchScan<State>, chain: string -> State, source: Source<State>, offset: nat)
    requires scan.batchSize >= 1 && offset <= Target(scan, chain, source, offset)
    ensures var left := EndFrom(offset, scan.initial, scan.options.maximum, Used(scan, chain, source)) - offset;
            BatchesFrom(scan, chain, source, offset) <= left <= BatchesFrom(scan, chain, source, offset) * scan.batchSize
    decreases Max(scan.initial, scan.options.maximum) - offset
  {
    hide Used, Pushed;
    var target := Target(scan, chain, source, offset);
    if offset == target {
      NoMoreBatches(scan, chain, source, offset);
    } else {
      var end := Min(offset + scan.batchSize, target);
      BeforeTheTarget(scan, chain, source, offset, end);
      OneMoreBatch(scan, chain, source, offset, end);
      SameEnd(offset, end, scan.initial, scan.options.maximum, Used(scan, chain, source));
      hide BatchesFrom, EndFrom;
      BatchesCover(scan, chain, source, end);
      CoverOneMore(BatchesFrom(scan, chain, source, end),
                   EndFrom(end, scan.initial, scan.options.maximum, Used(scan, chain, source)) - end, end - offset, scan.batchSize);
    }
  }

  lemma CoverOneMore(batches: nat, left: nat, batch: nat, size: nat)
    requires batches <= left <= batches * size && 1 <= batch <= size
    ensures batches + 1 <= left + batch <= (batches + 1) * size
  {
  }

  /** No address of the branch is used. */
  ghost predicate Unused<State>(scan: BranchScan<State>, chain: string -> State, source: Source<State>)
  {
    forall i: nat :: !source.used(chain(scan.derive(i)))
  }

  lemma TargetOfUnused<State>(scan: BranchScan<State>, chain: string -> State, source: Source<State>, n: nat)
    requires Unused(scan, chain, source)
    ensures Target(scan, chain, source, n) == scan.initial
  {
    PushedIsNeeded(n, scan.initial, scan.options.maximum, Used(scan, chain, source));
  }

  /** Without a used address every batch but the last is full. */
  lemma {:induction false} UnusedBatches<State>(scan: BranchScan<State>, chain: string -> State, source: Source<State>, offset: nat)
    requires scan.batchSize >= 1 && Unused(scan, chain, source) && offset <= scan.initial
    ensures offset <= Target(scan, chain, source, offset)
    ensures var n := BatchesFrom(scan, chain, source, offset); n > 0 ==> (n - 1) * scan.batchSize < scan.initial - offset
    decreases scan.initial - offset
  {
    hide Target, Unused;
    TargetOfUnused(scan, chain, source, offset);
    if offset < scan.initial {
      var end := Min(offset + scan.batchSize, scan.initial);
      TargetOfUnused(scan, chain, source, end);
      OneMoreBatch(scan, chain, source, offset, end);
      UnusedBatches(scan, chain, source, end);
      var more := BatchesFrom(scan, chain, source, end);
      if more > 0 {
        assert more * scan.batchSize == (more - 1) * scan.batchSize + scan.batchSize;
      }
    }
  }

  /**
   * A scan takes at least the batches of its minimum count and at most one for each address; without
   * a used address it takes exactly the batches of its minimum count.
   */
  lemma PassesAreBounded<State>(scan: BranchScan<State>, chain: string -> State, source: Source<State>)
    requires scan.batchSize >= 1
    ensures CeilDiv(scan.initial, scan.batchSize) <= CeilDiv(End(scan, chain, source), scan.batchSize)
            <= Passes(scan, chain, source) <= End(scan, chain, source)
    ensures Unused(scan, chain, source) ==> Passes(scan, chain, source) == CeilDiv(scan.initial, scan.batchSize)
  {
    hide CeilDiv, BatchesFrom, Unused;
    var passes, size := Passes(scan, chain, source), scan.batchSize;
    BatchesCover(scan, chain, source, 0);
    EndIsEnough(scan, chain, source);
    CeilDivIsLeast(End(scan, chain, source), size, passes);
    CeilDivGrows(scan.initial, End(scan, chain, source), size);
    if Unused(scan, chain, source) {
      UnusedBatches(scan, chain, source, 0);
      var least := CeilDiv(scan.initial, size);
      if passes > least {
        TimesGrows(least, passes - 1, size);
      }
    }
  }

  /** Fewer than 20 addresses fit behind some used address below `n`. */
  ghost predicate IsCutShort<State>(n: nat, scan: BranchScan<State>, chain: string -> State, source: Source<State>)
  {
    exists i: nat :: i < n && source.used(chain(scan.derive(i))) && i + 21 > scan.options.maximum
  }

  lemma CutIsShort<State>(n: nat, scan: BranchScan<State>, chain: string -> State, source: Source<State>)
    ensures IsCutShort(n, scan, chain, source) <==> CutBelow(n, scan.options.maximum, Used(scan, chain, source))
  {
    var used, maximum := Used(scan, chain, source), scan.options.maximum;
    if IsCutShort(n, scan, chain, source) {
      var i: nat :| i < n && source.used(chain(scan.derive(i))) && i + 21 > maximum;
      assert used(i) && Cuts(i, maximum);
    }
    if CutBelow(n, maximum, used) {
      var i: nat :| i < n && used(i) && Cuts(i, maximum);
      assert source.used(chain(scan.derive(i)));
    }
  }

  /**
   * `scanBranch`: how many addresses were checked, or None when it was aborted; with what was shown,
   * which indices were derived, how many batches were looked up and how many of them asked the provider.
   */
  method ScanBranch<State(!new)>(book: AddressBook<State>, scan: BranchScan<State>, ghost chain: string -> State)
    returns (r: Option<nat>, shown: seq<Shown<State>>, derived: seq<nat>, lookUps: nat, requests: nat)
    requires scan.batchSize >= 1
    requires Faithful(book.Value(), chain, book.source) && Respects(chain, book.source.key) && Answers(scan.provider, chain)
    modifies book, book.gap
    ensures Faithful(book.Value(), chain, book.source)
    ensures derived == Indices(|derived|) && shown == ShownBelow(scan, chain, book.source, |derived|)
    ensures ShowsExactly(shown, scan, chain, book.source, |derived|)
    ensures forall j | 0 <= j < lookUps :: !scan.aborted(j)
    ensures r.Some? ==> r.value == |derived| == End(scan, chain, book.source)
    ensures r.None? ==> scan.aborted(lookUps) && |derived| < End(scan, chain, book.source)
    ensures r.Some? ==> lookUps == Passes(scan, chain, book.source)
    ensures AsksSoFar(scan, old(book.states.Keys), book.source.key, |derived|, lookUps, requests)
    ensures book.states.Keys == old(book.states.Keys) + KeysBelow(scan, book.source.key, |derived|)
    ensures book.gap.truncated
       <==> old(book.gap.truncated) || CutBelow(|derived|, scan.options.maximum, Used(scan, chain, book.source))
    ensures book.gap.truncated
       <==> old(book.gap.truncated)
            || IsCutShort(|derived|, scan, chain, book.source)
    ensures Exact(old(book.Value()), book.source) && OneSpelling(scan, book.source.key) ==> Exact(book.Value(), book.source)
  {
    hide AfterLookUp, StatesOf, Has, Extended, Showing, Cut, CutBelow, ShownBelow, Faithful, Exact, OneSpelling,
         Pushed, Answers, Respects, Texts, Cuts, ExtendAddressTarget, Used, Requests, KeysBelow, OwnKeys, AsksSoFar, WastesFirst,
         BatchesFrom, Passes, OnTheWay, End, ShowsExactly, IsCutShort;
    ghost var source, used, held := book.source, Used(scan, chain, book.source), book.states.Keys;
    AtTheStart(scan, chain, source);
    var target, offset := scan.initial, 0;
    AsksAtFirst(scan, held, source.key);
    SetsOut(scan, chain, source);
    shown, derived, lookUps, requests := [], [], 0, 0;
    while offset < target
      invariant offset <= target == Target(scan, chain, source, offset) && OnTheWay(scan, chain, source, offset, lookUps)
      invariant derived == Indices(offset) && shown == ShownBelow(scan, chain, source, offset)
      invariant Faithful(book.Value(), chain, source) && AsksSoFar(scan, held, source.key, offset, lookUps, requests)
      invariant book.states.Keys == held + KeysBelow(scan, source.key, offset)
      invariant forall j | 0 <= j < lookUps :: !scan.aborted(j)
      invariant book.gap.truncated <==> old(book.gap.truncated) || CutBelow(offset, scan.options.maximum, used)
      invariant Exact(old(book.Value()), source) && OneSpelling(scan, source.key) ==> Exact(book.Value(), source)
      decreases Max(scan.initial, scan.options.maximum) - offset
    {
      if scan.aborted(lookUps) {
        Arrives(scan, chain, source, offset, lookUps);
        ShownBelowIsExact(scan, chain, source, offset);
        CutIsShort(offset, scan, chain, source);
        return None, shown, derived, lookUps, requests;
      }
      var from := offset;
      var end := Min(from + scan.batchSize, target);
      var chunk := Chunk(scan.derive, from, end);
      ScanStep(scan, chain, source, book.Value(), from, end);
      GoesOn(scan, chain, source, from, end, lookUps);
      BatchAddsKeys(scan, held, book.Value(), source, from, end);
      if OwnKeys(held, scan, source.key, end) {
        BatchAsks(scan, held, book.Value(), source, from, end);
      }
      var batch, asked := book.Batch(chunk, target, scan.options, scan.provider);
      AsksOneMore(scan, held, source.key, from, end, lookUps, requests, asked);
      requests := requests + asked;
      target := batch.value.0;
      shown := shown + batch.value.1;
      derived := derived + seq(end - from, i requires 0 <= i < end - from => from + i);
      offset := end;
      lookUps := lookUps + 1;
    }
    Arrives(scan, chain, source, offset, lookUps);
    ShownBelowIsExact(scan, chain, source, offset);
    CutIsShort(offset, scan, chain, source);
    return Some(offset), shown, derived, lookUps, requests;
  }

  lemma AtTheStart<State>(scan: BranchScan<State>, chain: string -> State, source: Source<State>)
    ensures Target(scan, chain, source, 0) == scan.initial && ShownBelow(scan, chain, source, 0) == []
    ensures !CutBelow(0, scan.options.maximum, Used(scan, chain, source))
  {
  }

  /** What one batch of the loop does to the target, the addresses shown, the gap and the book. */
  lemma ScanStep<State(!new)>(scan: BranchScan<State>, chain: string -> State, source: Source<State>, book: Book<State>,
                              from: nat, end: nat)
    requires Faithful(book, chain, source) && Respects(chain, source.key) && Answers(scan.provider, chain)
    requires from <= end <= Target(scan, chain, source, from)
    ensures var chunk := Chunk(scan.derive, from, end);
            var after := AfterLookUp(book, Texts(chunk), scan.provider, source);
            && after.Some? && Faithful(after.value, chain, source) && Has(after.value, Texts(chunk), source)
            && (Exact(book, source) && OneSpelling(scan, source.key) ==> Exact(after.value, source))
            && var found := StatesOf(after.value, Texts(chunk), source);
               && Extended(chunk, found, Target(scan, chain, source, from), scan.options, source)
                  == Target(scan, chain, source, end)
               && ShownBelow(scan, chain, source, from) + Showing(chunk, found, scan.options, source)
                  == ShownBelow(scan, chain, source, end)
               && (CutBelow(end, scan.options.maximum, Used(scan, chain, source))
                   <==> CutBelow(from, scan.options.maximum, Used(scan, chain, source))
                        || Cut(chunk, found, scan.options, source))
    ensures (forall m | from <= m < end :: m < Target(scan, chain, source, m)) && end <= Target(scan, chain, source, end)
  {
    hide AfterLookUp, Extended, Showing, Cut, CutBelow, ShownBelow, Faithful, Exact, OneSpelling,
         Pushed, Answers, Respects, Cuts, ExtendAddressTarget, Used;
    var texts := Texts(Chunk(scan.derive, from, end));
    LookUpIsFaithful(book, texts, scan.provider, chain, source);
    LookUpKeepsExact(book, scan, from, end, source);
    var found := StatesOf(AfterLookUp(book, texts, scan.provider, source).value, texts, source);
    assert forall i | 0 <= i < |found| :: found[i] == chain(scan.derive(from + i));
    TargetOfChunk(scan, chain, source, from, end, found);
    ShownOfChunk(scan, chain, source, from, end, found);
    CutOfChunk(scan, chain, source, from, end, found);
    BeforeTheTarget(scan, chain, source, from, end);
  }

  /** Every index of a batch is below what is needed there. */
  lemma BeforeTheTarget<State>(scan: BranchScan<State>, chain: string -> State, source: Source<State>, from: nat, end: nat)
    requires from <= end <= Target(scan, chain, source, from)
    ensures forall m | from <= m < end :: m < Target(scan, chain, source, m)
    ensures end <= Target(scan, chain, source, end)
  {
    forall m | from <= m <= end ensures Target(scan, chain, source, from) <= Target(scan, chain, source, m) {
      PushedGrows(from, m, scan.initial, scan.options.maximum, Used(scan, chain, source));
    }
  }

  lemma StillBefore<State>(scan: BranchScan<State>, chain: string -> State, source: Source<State>, n: nat)
    requires forall m | 0 <= m <= n :: m < Target(scan, chain, source, m)
    ensures n < End(scan, chain, source)
  {
    var end := End(scan, chain, source);
    assert Target(scan, chain, source, end) == end;
  }

  lemma AtTheEnd<State>(scan: BranchScan<State>, chain: string -> State, source: Source<State>, n: nat)
    requires n == Target(scan, chain, source, n) && forall m | 0 <= m < n :: m < Target(scan, chain, source, m)
    ensures n == End(scan, chain, source)
  {
    var end := End(scan, chain, source);
    assert Target(scan, chain, source, end) == end;
    assert n < end ==> n < Pushed(n, scan.initial, scan.options.maximum, Used(scan, chain, source));
  }

  lemma LookUpKeepsExact<State>(book: Book<State>, scan: BranchScan<State>, from: nat, end: nat, source: Source<State>)
    requires from <= end
    requires AfterLookUp(book, Texts(Chunk(scan.derive, from, end)), scan.provider, source).Some?
    ensures Exact(book, source) && OneSpelling(scan, source.key) ==>
              Exact(AfterLookUp(book, Texts(Chunk(scan.derive, from, end)), scan.provider, source).value, source)
  {
    var texts := Texts(Chunk(scan.derive, from, end));
    if Exact(book, source) && OneSpelling(scan, source.key) {
      assert forall i | 0 <= i < |texts| :: texts[i] == scan.derive(from + i);
      MissingHaveDifferentKeys(book, texts, source);
      LookUpIsExact(book, texts, scan.provider, source);
    }
  }

  // ---------- Branch after branch ----------

  function Minimum<State>(branches: seq<BranchScan<State>>): nat
  {
    if branches == [] then 0 else Minimum(branches[..|branches| - 1]) + branches[|branches| - 1].initial
  }

  function Checked<State>(branches: seq<BranchScan<State>>, chain: string -> State, source: Source<State>): (n: nat)
  {
    if branches == [] then 0
    else Checked(branches[..|branches| - 1], chain, source) + End(branches[|branches| - 1], chain, source)
  }

  /** Rounded-up division. */
  function CeilDiv(a: nat, b: nat): (n: nat)
    requires b > 0
    ensures n * b >= a && (n > 0 ==> (n - 1) * b < a)
  {
    (a + b - 1) / b
  }

  lemma TimesGrows(x: nat, y: nat, b: nat)
    requires x <= y
    ensures x * b <= y * b
  {
  }

  lemma CeilDivIsLeast(a: nat, b: nat, n: nat)
    requires b > 0 && n * b >= a
    ensures n >= CeilDiv(a, b)
  {
    if n < CeilDiv(a, b) {
      TimesGrows(n, CeilDiv(a, b) - 1, b);
    }
  }

  lemma CeilDivGrows(a: nat, b: nat, n: nat)
    requires n > 0 && a <= b
    ensures CeilDiv(a, n) <= CeilDiv(b, n)
  {
    CeilDivIsLeast(a, n, CeilDiv(b, n));
  }

  lemma CeilDivOfSum(a: nat, b: nat, n: nat)
    requires n > 0
    ensures CeilDiv(a + b, n) <= CeilDiv(a, n) + CeilDiv(b, n)
  {
    assert (CeilDiv(a, n) + CeilDiv(b, n)) * n == CeilDiv(a, n) * n + CeilDiv(b, n) * n;
    CeilDivIsLeast(a + b, n, CeilDiv(a, n) + CeilDiv(b, n));
  }

  function Sum(xs: seq<nat>): nat
  {
    if xs == [] then 0 else Sum(xs[..|xs| - 1]) + xs[|xs| - 1]
  }

  lemma SumOfLast(xs: seq<nat>, x: nat)
    ensures Sum(xs + [x]) == Sum(xs) + x
  {
    assert (xs + [x])[..|xs|] == xs;
  }

  /** The batches that the minimum counts take, each branch rounded up on its own. */
  function LeastBatches<State>(branches: seq<BranchScan<State>>, batchSize: nat): nat
    requires batchSize > 0
  {
    if branches == [] then 0
    else LeastBatches(branches[..|branches| - 1], batchSize) + CeilDiv(branches[|branches| - 1].initial, batchSize)
  }

  lemma {:induction false} LeastBatchesCover<State>(branches: seq<BranchScan<State>>, batchSize: nat)
    requires batchSize > 0
    ensures LeastBatches(branches, batchSize) >= CeilDiv(Minimum(branches), batchSize)
  {
    if branches != [] {
      var front, last := branches[..|branches| - 1], branches[|branches| - 1];
      LeastBatchesCover(front, batchSize);
      CeilDivOfSum(Minimum(front), last.initial, batchSize);
    }
  }

  /** The keys a book holds once `branches` have been scanned. */
  function HeldAfter<State>(held: set<string>, branches: seq<BranchScan<State>>, chain: string -> State,
                            source: Source<State>): set<string>
  {
    if branches == [] then held
    else
      var last := branches[|branches| - 1];
      HeldAfter(held, branches[..|branches| - 1], chain, source) + KeysBelow(last, source.key, End(last, chain, source))
  }

  /** How often a branch was looked up and the provider asked, `held` being the keys held before. */
  ghost predicate CountsOf<State>(scan: BranchScan<State>, held: set<string>, chain: string -> State,
                                  source: Source<State>, passes: nat, asked: nat)
    requires scan.batchSize > 0
  {
    && passes == Passes(scan, chain, source)
    && CeilDiv(End(scan, chain, source), scan.batchSize) <= passes <= End(scan, chain, source)
    && asked <= passes
    && (OwnKeys(held, scan, source.key, End(scan, chain, source)) ==> asked == passes - if WastesFirst(held, scan, source.key) then 1 else 0)
  }

  lemma CountsOfScan<State>(scan: BranchScan<State>, held: set<string>, chain: string -> State, source: Source<State>,
                            passes: nat, asked: nat)
    requires scan.batchSize > 0 && AsksSoFar(scan, held, source.key, End(scan, chain, source), passes, asked)
    requires passes == Passes(scan, chain, source)
    ensures CountsOf(scan, held, chain, source, passes, asked)
  {
    hide OwnKeys, End, CeilDiv, Passes;
    CeilDivIsLeast(End(scan, chain, source), scan.batchSize, passes);
    EndIsEnough(scan, chain, source);
    if scan.initial == 0 {
      assert !WastesFirst(held, scan, source.key);
    }
  }

  /** The counts of every branch. */
  ghost predicate CountsOfAll<State>(branches: seq<BranchScan<State>>, held: set<string>, chain: string -> State,
                                     source: Source<State>, passes: seq<nat>, asked: seq<nat>)
    requires forall b | 0 <= b < |branches| :: branches[b].batchSize > 0
  {
    && |passes| == |asked| == |branches|
    && forall b | 0 <= b < |branches| ::
         CountsOf(branches[b], HeldAfter(held, branches[..b], chain, source), chain, source, passes[b], asked[b])
  }

  lemma {:induction false} PassesAreEnough<State>(branches: seq<BranchScan<State>>, held: set<string>, chain: string -> State,
                                                  source: Source<State>, passes: seq<nat>, asked: seq<nat>, batchSize: nat)
    requires batchSize > 0 && forall b | 0 <= b < |branches| :: branches[b].batchSize == batchSize
    requires CountsOfAll(branches, held, chain, source, passes, asked)
    ensures Sum(passes) >= LeastBatches(branches, batchSize)
  {
    if branches != [] {
      hide CeilDiv, End, OwnKeys, WastesFirst, HeldAfter, Passes;
      var last := |branches| - 1;
      FewerCounts(branches, held, chain, source, passes, asked, last);
      PassesAreEnough(branches[..last], held, chain, source, passes[..last], asked[..last], batchSize);
      EndIsEnough(branches[last], chain, source);
      CeilDivGrows(branches[last].initial, End(branches[last], chain, source), batchSize);
      assert CountsOf(branches[last], HeldAfter(held, branches[..last], chain, source), chain, source, passes[last], asked[last]);
    }
  }

  lemma EndIsEnough<State>(scan: BranchScan<State>, chain: string -> State, source: Source<State>)
    ensures End(scan, chain, source) >= scan.initial
  {
    ScanEndIsLeast(scan.initial, scan.options.maximum, Used(scan, chain, source));
  }

  lemma FewerCounts<State>(branches: seq<BranchScan<State>>, held: set<string>, chain: string -> State,
                           source: Source<State>, passes: seq<nat>, asked: seq<nat>, n: nat)
    requires n <= |branches| && forall b | 0 <= b < |branches| :: branches[b].batchSize > 0
    requires CountsOfAll(branches, held, chain, source, passes, asked)
    ensures CountsOfAll(branches[..n], held, chain, source, passes[..n], asked[..n])
  {
    hide CountsOf, HeldAfter;
    forall b | 0 <= b < n ensures branches[..n][..b] == branches[..b] {
    }
  }

  lemma MoreCounts<State>(branches: seq<BranchScan<State>>, held: set<string>, chain: string -> State,
                          source: Source<State>, passes: seq<nat>, asked: seq<nat>, scan: BranchScan<State>, pass: nat, ask: nat)
    requires (forall b | 0 <= b < |branches| :: branches[b].batchSize > 0) && scan.batchSize > 0
    requires CountsOfAll(branches, held, chain, source, passes, asked)
    requires CountsOf(scan, HeldAfter(held, branches, chain, source), chain, source, pass, ask)
    ensures CountsOfAll(branches + [scan], held, chain, source, passes + [pass], asked + [ask])
    ensures HeldAfter(held, branches + [scan], chain, source)
         == HeldAfter(held, branches, chain, source) + KeysBelow(scan, source.key, End(scan, chain, source))
  {
    hide CountsOf, KeysBelow, End;
    var all := branches + [scan];
    assert all[..|branches|] == branches;
    hide HeldAfter;
    forall b | 0 <= b < |branches| ensures all[..b] == branches[..b] {
    }
  }

  /**
   * `scanBranches`: how many addresses all branches checked, or None when one was aborted; with the
   * batches looked up and the provider calls made for each branch. With one batch size, the batches
   * are at least what the minimum counts take, branch by branch.
   */
  method ScanBranches<State(!new)>(book: AddressBook<State>, branches: seq<BranchScan<State>>, batchSize: nat,
                                   ghost chain: string -> State)
    returns (r: Option<nat>, passes: seq<nat>, asked: seq<nat>)
    requires batchSize >= 1
    requires forall i | 0 <= i < |branches| :: branches[i].batchSize == batchSize && Answers(branches[i].provider, chain)
    requires Faithful(book.Value(), chain, book.source) && Respects(chain, book.source.key)
    modifies book, book.gap
    ensures Faithful(book.Value(), chain, book.source)
    ensures r.None? ==> exists b, j: nat :: 0 <= b < |branches| && branches[b].aborted(j)
    ensures r.Some? ==> |passes| == |branches|
                        && forall b, j | 0 <= b < |branches| && 0 <= j < passes[b] :: !branches[b].aborted(j)
    ensures r.Some? ==> r.value == Checked(branches, chain, book.source)
    ensures r.Some? ==> CountsOfAll(branches, old(book.states.Keys), chain, book.source, passes, asked)
    ensures r.Some? ==> Sum(passes) >= LeastBatches(branches, batchSize) >= CeilDiv(Minimum(branches), batchSize)
  {
    hide Faithful, Answers, Respects, ShownBelow, CutBelow, Exact, OneSpelling, Used, End, CeilDiv, KeysBelow, OwnKeys,
         WastesFirst, CountsOf, CountsOfAll, HeldAfter, AsksSoFar, Passes;
    ghost var held, source := book.states.Keys, book.source;
    var checked := 0;
    passes, asked := [], [];
    NoCounts(held, chain, source);
    for i := 0 to |branches|
      invariant Faithful(book.Value(), chain, source)
      invariant checked == Checked(branches[..i], chain, source)
      invariant |passes| == i && forall b, j | 0 <= b < i && 0 <= j < passes[b] :: !branches[b].aborted(j)
      invariant book.states.Keys == HeldAfter(held, branches[..i], chain, source)
      invariant CountsOfAll(branches[..i], held, chain, source, passes, asked)
    {
      assert branches[..i + 1] == branches[..i] + [branches[i]] && branches[..i + 1][..i] == branches[..i];
      var one, _, _, pass, ask := ScanBranch(book, branches[i], chain);
      if one.None? {
        return None, passes, asked;
      }
      CountsOfScan(branches[i], HeldAfter(held, branches[..i], chain, source), chain, source, pass, ask);
      MoreCounts(branches[..i], held, chain, source, passes, asked, branches[i], pass, ask);
      checked := checked + one.value;
      passes, asked := passes + [pass], asked + [ask];
    }
    assert branches[..|branches|] == branches;
    PassesAreEnough(branches, held, chain, source, passes, asked, batchSize);
    LeastBatchesCover(branches, batchSize);
    return Some(checked), passes, asked;
  }

  lemma NoCounts<State>(held: set<string>, chain: string -> State, source: Source<State>)
    ensures CountsOfAll([], held, chain, source, [], []) && HeldAfter(held, [], chain, source) == held
  {
  }
}

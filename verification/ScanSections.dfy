/** One section of a seed scan: its branches on a book of its own, and the provider calls it makes. */
module ScanSections {
  import opened Text
  import opened AddressGap
  import opened Addresses
  import opened BranchScans

  // ---------- A section and its branches ----------

  /** A branch of a scan, by the number of its family and its own. */
  type Name = (nat, nat)

  /** Family numbers from here on are custom paths, which may repeat addresses of other branches. */
  const CUSTOM := 9

  datatype Profile = Profile(name: Name, minimum: nat, maximum: nat)

  /** The branches a section always has, and the custom paths after them. */
  datatype Section = Section(standard: seq<Profile>, custom: seq<Profile>)

  datatype Wallet<!State> = Wallet(
    derive: (Name, nat) -> string,
    provider: Provider<State>,
    aborted: (Name, nat) -> bool,
    includeUsedZeroBalance: bool
  )

  function BranchOf<State>(wallet: Wallet<State>, profile: Profile, batchSize: nat): BranchScan<State>
  {
    BranchScan(profile.minimum, batchSize, Options(wallet.includeUsedZeroBalance, profile.maximum),
               (i: nat) => wallet.derive(profile.name, i), wallet.provider, (j: nat) => wallet.aborted(profile.name, j))
  }

  function BranchesOf<State>(wallet: Wallet<State>, profiles: seq<Profile>, batchSize: nat): (r: seq<BranchScan<State>>)
    ensures |r| == |profiles| && forall b | 0 <= b < |r| :: r[b] == BranchOf(wallet, profiles[b], batchSize)
  {
    seq(|profiles|, b requires 0 <= b < |profiles| => BranchOf(wallet, profiles[b], batchSize))
  }

  /** Different standard paths, as far as indices go, give different addresses. */
  ghost predicate PathsDiffer<State(!new)>(wallet: Wallet<State>, key: string -> string)
  {
    forall m: Name, n: Name, i: nat, j: nat
      | m.0 < CUSTOM && n.0 < CUSTOM && i < BIP32_BRANCH_SIZE && j < BIP32_BRANCH_SIZE && (m != n || i != j) ::
      key(wallet.derive(m, i)) != key(wallet.derive(n, j))
  }

  /** Standard branches, each named apart and inside the space of indices. */
  predicate OwnNames(profiles: seq<Profile>)
  {
    && (forall b | 0 <= b < |profiles| ::
          profiles[b].name.0 < CUSTOM && profiles[b].minimum <= profiles[b].maximum <= BIP32_BRANCH_SIZE)
    && (forall b, c | 0 <= b < c < |profiles| :: profiles[b].name != profiles[c].name)
  }

  /** A key that no address scanned in the branches has is not held after them. */
  lemma {:induction false} NotHeld<State>(branches: seq<BranchScan<State>>, chain: string -> State, source: Source<State>,
                                          k: string)
    requires forall c, j: nat | 0 <= c < |branches| && j < End(branches[c], chain, source) ::
               k != source.key(branches[c].derive(j))
    ensures k !in HeldAfter({}, branches, chain, source)
  {
    if branches != [] {
      hide End;
      NotHeld(branches[..|branches| - 1], chain, source, k);
    }
  }

  /** A scan ends inside its maximum when it starts there. */
  lemma EndIsInside<State>(scan: BranchScan<State>, chain: string -> State, source: Source<State>)
    requires scan.initial <= scan.options.maximum
    ensures End(scan, chain, source) <= scan.options.maximum
  {
  }

  lemma EarlierProfile(profiles: seq<Profile>, b: nat, c: nat)
    requires c < b < |profiles| && OwnNames(profiles[..b + 1])
    ensures profiles[b].name.0 < CUSTOM && profiles[c].name.0 < CUSTOM && profiles[c].name != profiles[b].name
    ensures profiles[c].minimum <= profiles[c].maximum <= BIP32_BRANCH_SIZE
  {
    var own := profiles[..b + 1];
    assert own[b] == profiles[b] && own[c] == profiles[c];
  }

  /** No address of a standard branch is held when the branch begins. */
  lemma StandardKeyIsNew<State(!new)>(wallet: Wallet<State>, profiles: seq<Profile>, b: nat, i: nat, batchSize: nat,
                                      chain: string -> State, source: Source<State>)
    requires b < |profiles| && PathsDiffer(wallet, source.key) && OwnNames(profiles[..b + 1]) && i < BIP32_BRANCH_SIZE
    ensures source.key(wallet.derive(profiles[b].name, i))
            !in HeldAfter({}, BranchesOf(wallet, profiles, batchSize)[..b], chain, source)
  {
    hide HeldAfter, OwnNames;
    var before, k := BranchesOf(wallet, profiles, batchSize)[..b], source.key(wallet.derive(profiles[b].name, i));
    forall c, j: nat | 0 <= c < b && j < End(before[c], chain, source) ensures k != source.key(before[c].derive(j)) {
      EarlierProfile(profiles, b, c);
      EndIsInside(before[c], chain, source);
      hide End;
      assert before[c].derive(j) == wallet.derive(profiles[c].name, j);
    }
    NotHeld(before, chain, source, k);
  }

  /** A standard branch shares no key with the branches before it. */
  lemma StandardBranchIsOwn<State(!new)>(wallet: Wallet<State>, profiles: seq<Profile>, b: nat, batchSize: nat,
                                         chain: string -> State, source: Source<State>)
    requires b < |profiles| && PathsDiffer(wallet, source.key) && OwnNames(profiles[..b + 1])
    ensures var branches := BranchesOf(wallet, profiles, batchSize);
            var held := HeldAfter({}, branches[..b], chain, source);
            OwnKeys(held, branches[b], source.key, End(branches[b], chain, source))
            && !WastesFirst(held, branches[b], source.key)
  {
    assert profiles[..b + 1][b] == profiles[b];
    var branch := BranchOf(wallet, profiles[b], batchSize);
    var held := HeldAfter({}, BranchesOf(wallet, profiles, batchSize)[..b], chain, source);
    EndIsInside(branch, chain, source);
    hide HeldAfter, End, OwnNames;
    forall i: nat | i < BIP32_BRANCH_SIZE ensures source.key(branch.derive(i)) !in held {
      StandardKeyIsNew(wallet, profiles, b, i, batchSize, chain, source);
    }
    forall i: nat, j: nat | i < j < BIP32_BRANCH_SIZE ensures source.key(branch.derive(i)) != source.key(branch.derive(j)) {
      assert branch.derive(i) == wallet.derive(profiles[b].name, i) && branch.derive(j) == wallet.derive(profiles[b].name, j);
    }
  }

  lemma FewerNames(profiles: seq<Profile>, n: nat)
    requires n <= |profiles| && OwnNames(profiles)
    ensures OwnNames(profiles[..n])
  {
  }

  // ---------- What a branch of a wallet shows ----------

  /** `shown` lists, of the first `n` addresses of `name`, those with a balance, and the used ones when they are asked for. */
  ghost predicate WalletShows<State>(shown: seq<Shown<State>>, wallet: Wallet<State>, name: Name, chain: string -> State,
                                     source: Source<State>, n: nat)
  {
    forall i: nat {:trigger ListsIndex(shown, i)} | i < n ::
      ListsIndex(shown, i) <==>
        var state := chain(wallet.derive(name, i));
        source.balance(state) > 0 || (source.used(state) && wallet.includeUsedZeroBalance)
  }

  /** A scan of a branch shows what the wallet asks for. */
  lemma BranchShows<State>(wallet: Wallet<State>, profile: Profile, batchSize: nat, chain: string -> State, source: Source<State>,
                           shown: seq<Shown<State>>, n: nat)
    requires ShowsExactly(shown, BranchOf(wallet, profile, batchSize), chain, source, n)
    ensures WalletShows(shown, wallet, profile.name, chain, source, n)
  {
    hide ListsIndex;
  }

  /** Which addresses of a standard path are used. */
  function WalletUses<State>(wallet: Wallet<State>, name: Name, chain: string -> State, source: Source<State>): Uses
  {
    (i: nat) => source.used(chain(wallet.derive(name, i)))
  }

  /** A scan of a branch ends at the least fixed point for the profile's counts. */
  lemma EndOfBranch<State>(wallet: Wallet<State>, profile: Profile, batchSize: nat, chain: string -> State, source: Source<State>)
    ensures IsLeastFixedPoint(End(BranchOf(wallet, profile, batchSize), chain, source), profile.minimum, profile.maximum,
                              WalletUses(wallet, profile.name, chain, source))
  {
    var scan := BranchOf(wallet, profile, batchSize);
    var uses, used := Used(scan, chain, source), WalletUses(wallet, profile.name, chain, source);
    assert forall i: nat :: uses(i) == used(i);
    hide IsLeastFixedPoint, ScanEnd, Used, WalletUses;
    ScanEndIsLeast(profile.minimum, profile.maximum, uses);
    SameUses(End(scan, chain, source), profile.minimum, profile.maximum, uses, used);
  }

  /** A scan depends on its uses index by index. */
  lemma SameUses(n: nat, initial: nat, maximum: nat, a: Uses, b: Uses)
    requires forall i: nat :: a(i) == b(i)
    ensures IsLeastFixedPoint(n, initial, maximum, a) ==> IsLeastFixedPoint(n, initial, maximum, b)
  {
    forall m: nat ensures Needed(m, initial, maximum, a) == Needed(m, initial, maximum, b) {
      SameLastUsed(m, a, b);
    }
    hide Needed;
  }

  lemma {:induction false} SameLastUsed(n: nat, a: Uses, b: Uses)
    requires forall i: nat :: a(i) == b(i)
    ensures PastLastUsed(n, a) == PastLastUsed(n, b)
  {
    if n > 0 && !a(n - 1) {
      SameLastUsed(n - 1, a, b);
    }
  }

  // ---------- The calls of a section ----------

  /** The batches that a chain makes of some branches. */
  function PassesOf<State>(wallet: Wallet<State>, profiles: seq<Profile>, batchSize: nat, chain: string -> State,
                           source: Source<State>): nat
    requires batchSize >= 1
  {
    if profiles == [] then 0
    else
      PassesOf(wallet, profiles[..|profiles| - 1], batchSize, chain, source)
      + Passes(BranchOf(wallet, profiles[|profiles| - 1], batchSize), chain, source)
  }

  lemma PassesOfLast<State>(wallet: Wallet<State>, profiles: seq<Profile>, last: Profile, batchSize: nat,
                            chain: string -> State, source: Source<State>)
    requires batchSize >= 1
    ensures PassesOf(wallet, profiles + [last], batchSize, chain, source)
         == PassesOf(wallet, profiles, batchSize, chain, source) + Passes(BranchOf(wallet, last, batchSize), chain, source)
  {
    assert (profiles + [last])[..|profiles|] == profiles;
  }

  lemma {:induction false} SumOfPasses<State>(wallet: Wallet<State>, profiles: seq<Profile>, asked: seq<nat>, batchSize: nat,
                                              chain: string -> State, source: Source<State>)
    requires batchSize >= 1 && |asked| == |profiles|
    requires forall b | 0 <= b < |asked| :: asked[b] == Passes(BranchOf(wallet, profiles[b], batchSize), chain, source)
    ensures Sum(asked) == PassesOf(wallet, profiles, batchSize, chain, source)
  {
    hide Passes, BranchOf;
    if asked != [] {
      var last := |asked| - 1;
      SumOfPasses(wallet, profiles[..last], asked[..last], batchSize, chain, source);
    }
  }

  lemma {:induction false} SumOfPrefix(xs: seq<nat>, n: nat)
    requires n <= |xs|
    ensures Sum(xs) >= Sum(xs[..n])
  {
    if n < |xs| {
      SumOfPrefix(xs[..|xs| - 1], n);
      assert xs[..|xs| - 1][..n] == xs[..n];
    } else {
      assert xs[..n] == xs;
    }
  }

  /** Every batch of a standard branch asks, so without custom paths the calls are the batches. */
  lemma StandardAsks<State(!new)>(wallet: Wallet<State>, section: Section, batchSize: nat, chain: string -> State,
                                  source: Source<State>, passes: seq<nat>, asked: seq<nat>)
    requires batchSize > 0 && PathsDiffer(wallet, source.key) && OwnNames(section.standard)
    requires var branches := BranchesOf(wallet, section.standard + section.custom, batchSize);
             CountsOfAll(branches, {}, chain, source, passes, asked)
    ensures Sum(asked) >= PassesOf(wallet, section.standard, batchSize, chain, source)
    ensures section.custom == [] ==> Sum(asked) == PassesOf(wallet, section.standard, batchSize, chain, source)
  {
    hide PathsDiffer, OwnNames, OwnKeys, WastesFirst, HeldAfter, End, CeilDiv, Passes, PassesOf, Sum;
    var profiles, n := section.standard + section.custom, |section.standard|;
    var branches := BranchesOf(wallet, profiles, batchSize);
    forall b | 0 <= b < n
      ensures asked[..n][b] == Passes(BranchOf(wallet, section.standard[b], batchSize), chain, source)
    {
      FewerNames(section.standard, b + 1);
      assert profiles[..b + 1] == section.standard[..b + 1];
      StandardBranchIsOwn(wallet, profiles, b, batchSize, chain, source);
      assert CountsOf(branches[b], HeldAfter({}, branches[..b], chain, source), chain, source, passes[b], asked[b]);
    }
    SumOfPasses(wallet, section.standard, asked[..n], batchSize, chain, source);
    SumOfPrefix(asked, n);
    if section.custom == [] {
      assert asked[..n] == asked;
    }
  }

  ghost predicate SomeAbort<State(!new)>(wallet: Wallet<State>)
  {
    exists n: Name, j: nat :: wallet.aborted(n, j)
  }

  /** One section, with a book of its own: the provider calls it made, or None when it was aborted. */
  method ScanSection<State(!new)>(wallet: Wallet<State>, section: Section, batchSize: nat, source: Source<State>,
                                  ghost chain: string -> State)
    returns (r: Option<nat>, ghost passes: seq<nat>, ghost asked: seq<nat>)
    requires batchSize >= 1 && Answers(wallet.provider, chain) && Respects(chain, source.key)
    ensures r.None? ==> SomeAbort(wallet)
    ensures r.Some? ==>
              && CountsOfAll(BranchesOf(wallet, section.standard + section.custom, batchSize), {}, chain, source, passes, asked)
              && r.value == Sum(asked)
    ensures r.Some? && PathsDiffer(wallet, source.key) && OwnNames(section.standard) ==>
              && r.value >= PassesOf(wallet, section.standard, batchSize, chain, source) >= Batches(section.standard, batchSize)
              && (section.custom == [] ==> r.value == PassesOf(wallet, section.standard, batchSize, chain, source))
  {
    hide Answers, Respects, Faithful, PathsDiffer, OwnNames, CountsOfAll, LeastBatches, BranchesOf, Sum, PassesOf, Batches;
    var book := new AddressBook(source);
    var branches := BranchesOf(wallet, section.standard + section.custom, batchSize);
    EmptyIsFaithful(book.Value(), chain, source);
    assert book.states.Keys == {};
    assert forall i | 0 <= i < |branches| :: branches[i].batchSize == batchSize && branches[i].provider == wallet.provider;
    var checked, batches, calls := ScanBranches(book, branches, batchSize, chain);
    passes, asked := batches, calls;
    if checked.None? {
      BranchIsAborted(wallet, section.standard + section.custom, batchSize);
      return None, passes, asked;
    }
    if PathsDiffer(wallet, source.key) && OwnNames(section.standard) {
      StandardAsks(wallet, section, batchSize, chain, source, passes, asked);
      PassesAreLeast(wallet, section.standard, batchSize, chain, source);
    }
    return Some(Sum(calls)), passes, asked;
  }

  lemma BranchIsAborted<State(!new)>(wallet: Wallet<State>, profiles: seq<Profile>, batchSize: nat)
    ensures var branches := BranchesOf(wallet, profiles, batchSize);
            (exists b, j: nat :: 0 <= b < |branches| && branches[b].aborted(j)) ==> SomeAbort(wallet)
  {
    var branches := BranchesOf(wallet, profiles, batchSize);
    if b, j: nat :| 0 <= b < |branches| && branches[b].aborted(j) {
      assert wallet.aborted(profiles[b].name, j);
    }
  }

  lemma EmptyIsFaithful<State(!new)>(book: Book<State>, chain: string -> State, source: Source<State>)
    requires book.states == map[]
    ensures Faithful(book, chain, source)
  {
  }

  /** No address of the wallet is used. */
  ghost predicate NoneUsed<State(!new)>(wallet: Wallet<State>, chain: string -> State, source: Source<State>)
  {
    forall n: Name, i: nat :: !source.used(chain(wallet.derive(n, i)))
  }

  /** No chain makes fewer batches of some branches than their minimum counts take, and an unused wallet no more. */
  lemma {:induction false} PassesAreLeast<State(!new)>(wallet: Wallet<State>, profiles: seq<Profile>, batchSize: nat,
                                                       chain: string -> State, source: Source<State>)
    requires batchSize >= 1
    ensures PassesOf(wallet, profiles, batchSize, chain, source) >= Batches(profiles, batchSize)
    ensures NoneUsed(wallet, chain, source) ==> PassesOf(wallet, profiles, batchSize, chain, source) == Batches(profiles, batchSize)
  {
    if profiles != [] {
      hide CeilDiv, Passes, NoneUsed;
      var front, last := profiles[..|profiles| - 1], profiles[|profiles| - 1];
      PassesAreLeast(wallet, front, batchSize, chain, source);
      PassesAreBounded(BranchOf(wallet, last, batchSize), chain, source);
      if NoneUsed(wallet, chain, source) {
        NoneUsedInBranch(wallet, last, batchSize, chain, source);
      }
    }
  }

  lemma NoneUsedInBranch<State(!new)>(wallet: Wallet<State>, profile: Profile, batchSize: nat, chain: string -> State,
                                      source: Source<State>)
    requires NoneUsed(wallet, chain, source)
    ensures Unused(BranchOf(wallet, profile, batchSize), chain, source)
  {
  }

  /** What the minimum counts of profiles take, each rounded up on its own. */
  function Batches(profiles: seq<Profile>, batchSize: nat): nat
    requires batchSize > 0
  {
    if profiles == [] then 0
    else Batches(profiles[..|profiles| - 1], batchSize) + CeilDiv(profiles[|profiles| - 1].minimum, batchSize)
  }

  lemma BatchesOfLast(profiles: seq<Profile>, last: Profile, batchSize: nat)
    requires batchSize > 0
    ensures Batches(profiles + [last], batchSize) == Batches(profiles, batchSize) + CeilDiv(last.minimum, batchSize)
  {
    assert (profiles + [last])[..|profiles|] == profiles;
  }

  /** `filter(({ count }) => count > 0)`. */
  function Kept(profiles: seq<Profile>): (r: seq<Profile>)
    ensures forall p | p in r :: p in profiles
  {
    if profiles == [] then []
    else
      var front, last := profiles[..|profiles| - 1], profiles[|profiles| - 1];
      assert profiles == front + [last];
      if last.minimum > 0 then Kept(front) + [last] else Kept(front)
  }

  /** Leaving out empty branches takes nothing from the batches, and keeps names apart. */
  lemma {:induction false} KeptIsTheSame(profiles: seq<Profile>, batchSize: nat)
    requires batchSize > 0 && OwnNames(profiles)
    ensures Batches(Kept(profiles), batchSize) == Batches(profiles, batchSize)
    ensures OwnNames(Kept(profiles))
  {
    if profiles != [] {
      hide CeilDiv;
      var front, last := profiles[..|profiles| - 1], profiles[|profiles| - 1];
      FewerNames(profiles, |front|);
      LastNameIsNew(profiles);
      hide OwnNames;
      KeptIsTheSame(front, batchSize);
      hide Batches;
      assert Batches(profiles, batchSize) == Batches(front, batchSize) + CeilDiv(last.minimum, batchSize) by {
        assert profiles == front + [last];
        BatchesOfLast(front, last, batchSize);
      }
      if last.minimum > 0 {
        BatchesOfLast(Kept(front), last, batchSize);
        OneMoreName(Kept(front), last);
      } else {
        NoBatches(batchSize);
      }
    }
  }

  lemma NoBatches(batchSize: nat)
    requires batchSize > 0
    ensures CeilDiv(0, batchSize) == 0
  {
    CeilDivIsLeast(0, batchSize, 0);
  }

  lemma LastNameIsNew(profiles: seq<Profile>)
    requires profiles != [] && OwnNames(profiles)
    ensures var last := profiles[|profiles| - 1];
            last.name.0 < CUSTOM && last.minimum <= last.maximum <= BIP32_BRANCH_SIZE
    ensures forall p | p in profiles[..|profiles| - 1] :: p.name != profiles[|profiles| - 1].name
  {
  }

  lemma OneMoreName(profiles: seq<Profile>, last: Profile)
    requires OwnNames(profiles) && last.name.0 < CUSTOM && last.minimum <= last.maximum <= BIP32_BRANCH_SIZE
    requires forall p | p in profiles :: p.name != last.name
    ensures OwnNames(profiles + [last])
  {
  }

  lemma NoneToTake(batchSize: nat)
    requires batchSize >= 1
    ensures Batches([], batchSize) == 0
  {
  }

  /** `assertAddressCount`. */
  predicate IsCount(value: int, minimum: nat) { minimum <= value <= BIP32_BRANCH_SIZE }
}

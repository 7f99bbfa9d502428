/** The lookups of the Bitcoin and Ethereum scans of one seed phrase, against the estimates shown before them. */
module CoinScans {
  import opened Text
  import opened AddressGap
  import opened Addresses
  import opened BranchScans
  import opened ScanEstimate
  import opened ScanSections

  // ---------- Bitcoin ----------

  const BITCOIN_FAMILIES := 4

  /** A receive and a change branch for each of the first `families` address families. */
  function BitcoinProfiles(families: nat, receiveCount: nat, changeCount: nat): seq<Profile>
  {
    if families == 0 then []
    else
      BitcoinProfiles(families - 1, receiveCount, changeCount)
      + [Profile((families - 1, 0), receiveCount, BIP32_BRANCH_SIZE)]
      + [Profile((families - 1, 1), changeCount, BIP32_BRANCH_SIZE)]
  }

  lemma {:induction false} BitcoinProfilesAreOwn(families: nat, receiveCount: nat, changeCount: nat)
    requires families <= BITCOIN_FAMILIES && receiveCount <= BIP32_BRANCH_SIZE && changeCount <= BIP32_BRANCH_SIZE
    ensures var profiles := BitcoinProfiles(families, receiveCount, changeCount);
            OwnNames(profiles) && forall p | p in profiles :: p.name.0 < families
  {
    if families > 0 {
      hide OwnNames;
      var before := BitcoinProfiles(families - 1, receiveCount, changeCount);
      var receive := Profile((families - 1, 0), receiveCount, BIP32_BRANCH_SIZE);
      BitcoinProfilesAreOwn(families - 1, receiveCount, changeCount);
      OneMoreName(before, receive);
      OneMoreName(before + [receive], Profile((families - 1, 1), changeCount, BIP32_BRANCH_SIZE));
    }
  }

  lemma {:induction false} BitcoinBatches(families: nat, receiveCount: nat, changeCount: nat, batchSize: nat)
    requires batchSize > 0
    ensures Batches(BitcoinProfiles(families, receiveCount, changeCount), batchSize)
         == families * (CeilDiv(receiveCount, batchSize) + CeilDiv(changeCount, batchSize))
  {
    if families > 0 {
      hide CeilDiv;
      var before := BitcoinProfiles(families - 1, receiveCount, changeCount);
      var receive := Profile((families - 1, 0), receiveCount, BIP32_BRANCH_SIZE);
      BitcoinBatches(families - 1, receiveCount, changeCount, batchSize);
      hide Batches;
      BatchesOfLast(before, receive, batchSize);
      BatchesOfLast(before + [receive], Profile((families - 1, 1), changeCount, BIP32_BRANCH_SIZE), batchSize);
      hide BitcoinProfiles;
      Times(families, CeilDiv(receiveCount, batchSize) + CeilDiv(changeCount, batchSize));
    }
  }

  lemma Times(n: nat, x: nat)
    requires n > 0
    ensures n * x == (n - 1) * x + x
  {
  }

  /** The branches that are scanned take what is shown, when none of their addresses is used. */
  lemma BitcoinBranches(receiveCount: nat, changeCount: nat, batchSize: nat)
    requires batchSize > 0 && receiveCount <= BIP32_BRANCH_SIZE && changeCount <= BIP32_BRANCH_SIZE
    ensures var kept := Kept(BitcoinProfiles(BITCOIN_FAMILIES, receiveCount, changeCount));
            OwnNames(kept) && Batches(kept, batchSize) == BitcoinMinimumLookups(receiveCount, changeCount, batchSize)
    ensures BitcoinMinimumLookups(receiveCount, changeCount, batchSize)
         == 4 * (CeilDiv(receiveCount, batchSize) + CeilDiv(changeCount, batchSize))
  {
    hide CeilDiv, Batches, Kept, OwnNames, BitcoinProfiles;
    BitcoinProfilesAreOwn(BITCOIN_FAMILIES, receiveCount, changeCount);
    BitcoinBatches(BITCOIN_FAMILIES, receiveCount, changeCount, batchSize);
    KeptIsTheSame(BitcoinProfiles(BITCOIN_FAMILIES, receiveCount, changeCount), batchSize);
  }

  /** Both counts within the indices of a branch, and an address to scan at all. */
  predicate AreBitcoinCounts(receiveCount: int, changeCount: int)
  {
    0 <= receiveCount <= 0x8000_0000 && 0 <= changeCount <= 0x8000_0000 && (receiveCount > 0 || changeCount > 0)
  }

  /**
   * The Bitcoin scan of one seed phrase: its provider calls, at least as many as shown, and exactly as
   * many for a wallet without a used address that has no custom paths.
   */
  method ScanBitcoin<State(!new)>(receiveCount: int, changeCount: int, custom: seq<Profile>, wallet: Wallet<State>,
                                  batchSize: nat, source: Source<State>, ghost chain: string -> State)
    returns (r: Option<nat>)
    requires batchSize >= 1 && Answers(wallet.provider, chain) && Respects(chain, source.key)
    ensures r.None? ==> !AreBitcoinCounts(receiveCount, changeCount) || SomeAbort(wallet)
    ensures r.Some? ==> AreBitcoinCounts(receiveCount, changeCount)
    ensures r.Some? && PathsDiffer(wallet, source.key) ==>
              var shown := BitcoinMinimumLookups(receiveCount, changeCount, batchSize);
              && shown == 4 * (CeilDiv(receiveCount, batchSize) + CeilDiv(changeCount, batchSize))
              && r.value >= shown && (custom == [] && NoneUsed(wallet, chain, source) ==> r.value == shown)
  {
    hide Answers, Respects, PathsDiffer, OwnNames, CountsOfAll, Batches, LeastBatches, BranchesOf, CeilDiv, Kept,
         BitcoinProfiles, SomeAbort, PassesOf, NoneUsed, BitcoinMinimumLookups, Sum;
    if !IsCount(receiveCount, 0) || !IsCount(changeCount, 0) || receiveCount + changeCount < 1 {
      return None;
    }
    var profiles := BitcoinProfiles(BITCOIN_FAMILIES, receiveCount, changeCount);
    BitcoinBranches(receiveCount, changeCount, batchSize);
    PassesAreLeast(wallet, Kept(profiles), batchSize, chain, source);
    var calls, _, _ := ScanSection(wallet, Section(Kept(profiles), custom), batchSize, source, chain);
    return calls;
  }

  // ---------- Ethereum ----------

  const STANDARD: Name := (0, 0)
  const LEDGER_LIVE: Name := (1, 0)
  const LEDGER_LEGACY: Name := (2, 0)

  function EthereumProfiles(receiveCount: nat, account: nat): (r: seq<Profile>)
    requires account <= BIP32_BRANCH_SIZE
    ensures |r| == 3
  {
    [Profile(STANDARD, receiveCount, BIP32_BRANCH_SIZE), Profile(LEDGER_LIVE, receiveCount, BIP32_BRANCH_SIZE - account),
     Profile(LEDGER_LEGACY, receiveCount, BIP32_BRANCH_SIZE)]
  }

  /**
   * Each of the three profiles is scanned from the count asked for, as far as its own indices go: those
   * of Ledger Live, which are accounts, from the account on.
   */
  lemma EthereumEnds<State>(wallet: Wallet<State>, receiveCount: nat, account: nat, batchSize: nat, chain: string -> State,
                            source: Source<State>, b: nat)
    requires b < 3 && account + receiveCount <= BIP32_BRANCH_SIZE
    ensures IsLeastFixedPoint(End(BranchOf(wallet, EthereumProfiles(receiveCount, account)[b], batchSize), chain, source),
                              receiveCount, if b == 1 then 0x8000_0000 - account else 0x8000_0000,
                              WalletUses(wallet, (b, 0), chain, source))
  {
    hide IsLeastFixedPoint, End, BranchOf, WalletUses;
    EndOfBranch(wallet, EthereumProfiles(receiveCount, account)[b], batchSize, chain, source);
  }

  predicate SharedFirst(m: Name, n: Name) { (m == STANDARD && n == LEDGER_LIVE) || (m == LEDGER_LIVE && n == STANDARD) }

  /** The paths of the profiles differ, except that two of them start with the same path, whatever the account. */
  ghost predicate EthereumPathsDiffer<State(!new)>(wallet: Wallet<State>, key: string -> string)
  {
    && key(wallet.derive(STANDARD, 0)) == key(wallet.derive(LEDGER_LIVE, 0))
    && forall m: Name, n: Name, i: nat, j: nat
         | m.0 < 3 && n.0 < 3 && i < BIP32_BRANCH_SIZE && j < BIP32_BRANCH_SIZE && (m != n || i != j)
           && !(SharedFirst(m, n) && i == j == 0) ::
         key(wallet.derive(m, i)) != key(wallet.derive(n, j))
  }

  /** No address of a profile is held when the profile begins, but for the shared first one. */
  lemma EthereumKeyIsNew<State(!new)>(wallet: Wallet<State>, profiles: seq<Profile>, b: nat, i: nat, receiveCount: nat,
                                      account: nat, batchSize: nat, chain: string -> State, source: Source<State>)
    requires account + receiveCount <= BIP32_BRANCH_SIZE && b < 3 && i < BIP32_BRANCH_SIZE && (i > 0 || b != 1)
    requires EthereumProfiles(receiveCount, account) <= profiles && EthereumPathsDiffer(wallet, source.key)
    ensures source.key(wallet.derive((b, 0), i))
            !in HeldAfter({}, BranchesOf(wallet, profiles, batchSize)[..b], chain, source)
  {
    hide HeldAfter;
    var before, k := BranchesOf(wallet, profiles, batchSize)[..b], source.key(wallet.derive((b, 0), i));
    forall c, j: nat | 0 <= c < b && j < End(before[c], chain, source) ensures k != source.key(before[c].derive(j)) {
      assert profiles[c] == EthereumProfiles(receiveCount, account)[c];
      EndIsInside(before[c], chain, source);
      hide End;
      assert before[c].derive(j) == wallet.derive((c, 0), j);
    }
    NotHeld(before, chain, source, k);
  }

  /** What is held, and what is not, when each of the three profiles begins. */
  lemma EthereumHeld<State(!new)>(wallet: Wallet<State>, profiles: seq<Profile>, b: nat, receiveCount: nat, account: nat,
                                  batchSize: nat, chain: string -> State, source: Source<State>)
    requires account + receiveCount <= BIP32_BRANCH_SIZE && receiveCount >= 1 && batchSize >= 1 && b < 3
    requires EthereumProfiles(receiveCount, account) <= profiles && EthereumPathsDiffer(wallet, source.key)
    ensures var branches := BranchesOf(wallet, profiles, batchSize);
            var held := HeldAfter({}, branches[..b], chain, source);
            && OwnKeys(held, branches[b], source.key, End(branches[b], chain, source))
            && (source.key(branches[b].derive(0)) in held <==> b == 1)
  {
    assert profiles[b] == EthereumProfiles(receiveCount, account)[b] && profiles[0] == EthereumProfiles(receiveCount, account)[0];
    var branches := BranchesOf(wallet, profiles, batchSize);
    var branch, held := branches[b], HeldAfter({}, branches[..b], chain, source);
    EndIsInside(branch, chain, source);
    hide HeldAfter, End;
    forall i: nat | i < BIP32_BRANCH_SIZE && (i > 0 || b != 1) ensures source.key(branch.derive(i)) !in held {
      EthereumKeyIsNew(wallet, profiles, b, i, receiveCount, account, batchSize, chain, source);
      assert branch.derive(i) == wallet.derive((b, 0), i);
    }
    if b == 1 {
      SharedIsHeld(wallet, profiles, receiveCount, account, batchSize, chain, source);
    }
    ProfileKeysDiffer(wallet, source.key, b);
    assert forall i: nat :: branch.derive(i) == wallet.derive((b, 0), i);
    hide EthereumPathsDiffer;
  }

  lemma SharedIsHeld<State(!new)>(wallet: Wallet<State>, profiles: seq<Profile>, receiveCount: nat, account: nat,
                                  batchSize: nat, chain: string -> State, source: Source<State>)
    requires account <= BIP32_BRANCH_SIZE && receiveCount >= 1
    requires EthereumProfiles(receiveCount, account) <= profiles && EthereumPathsDiffer(wallet, source.key)
    ensures source.key(wallet.derive(LEDGER_LIVE, 0)) in HeldAfter({}, BranchesOf(wallet, profiles, batchSize)[..1], chain, source)
  {
    hide HeldAfter, End;
    var branches := BranchesOf(wallet, profiles, batchSize);
    assert profiles[0] == EthereumProfiles(receiveCount, account)[0];
    FirstIsHeld(branches[0], chain, source);
    assert branches[..1] == [branches[0]] && branches[0].derive(0) == wallet.derive(STANDARD, 0);
  }

  lemma ProfileKeysDiffer<State(!new)>(wallet: Wallet<State>, key: string -> string, b: nat)
    requires EthereumPathsDiffer(wallet, key) && b < 3
    ensures forall i: nat, j: nat | i < j < BIP32_BRANCH_SIZE :: key(wallet.derive((b, 0), i)) != key(wallet.derive((b, 0), j))
  {
  }

  lemma FirstIsHeld<State>(branch: BranchScan<State>, chain: string -> State, source: Source<State>)
    requires branch.initial >= 1
    ensures source.key(branch.derive(0)) in HeldAfter({}, [branch], chain, source)
  {
    EndIsEnough(branch, chain, source);
    hide End;
    assert [branch][..0] == [];
    assert source.key(branch.derive(0)) in KeysBelow(branch, source.key, End(branch, chain, source));
  }

  lemma SumOfThree(a: nat, b: nat, c: nat)
    ensures Sum([a, b, c]) == a + b + c
  {
    assert [a, b, c] == [] + [a] + [b] + [c];
    SumOfLast([], a);
    SumOfLast([] + [a], b);
    SumOfLast([] + [a] + [b], c);
  }

  /** Whether a first batch is one address, which the second profile does not have to ask for. */
  function EthereumWaste(receiveCount: nat, batchSize: nat): nat { if Min(batchSize, receiveCount) == 1 then 1 else 0 }

  /** The calls of an Ethereum scan without custom paths, as the chain decides them. */
  function EthereumCalls<State>(wallet: Wallet<State>, receiveCount: nat, account: nat, batchSize: nat,
                                chain: string -> State, source: Source<State>): int
    requires account + receiveCount <= BIP32_BRANCH_SIZE && batchSize >= 1
  {
    PassesOf(wallet, EthereumProfiles(receiveCount, account), batchSize, chain, source) - EthereumWaste(receiveCount, batchSize)
  }

  lemma PassesOfThree<State>(wallet: Wallet<State>, profiles: seq<Profile>, batchSize: nat, chain: string -> State,
                             source: Source<State>, passes: seq<nat>)
    requires batchSize >= 1 && |profiles| == |passes| == 3
    requires forall b: nat | b < 3 :: passes[b] == Passes(BranchOf(wallet, profiles[b], batchSize), chain, source)
    ensures PassesOf(wallet, profiles, batchSize, chain, source) == passes[0] + passes[1] + passes[2]
  {
    hide Passes, BranchOf, PassesOf, Sum;
    SumOfPasses(wallet, profiles, passes, batchSize, chain, source);
    SumOfThree(passes[0], passes[1], passes[2]);
    assert passes == [passes[0], passes[1], passes[2]];
  }

  /** What the three profiles ask together. */
  lemma EthereumAsks<State(!new)>(wallet: Wallet<State>, profiles: seq<Profile>, receiveCount: nat, account: nat,
                                  batchSize: nat, chain: string -> State, source: Source<State>, passes: seq<nat>, asked: seq<nat>)
    requires account + receiveCount <= BIP32_BRANCH_SIZE && receiveCount >= 1 && batchSize >= 1
    requires EthereumProfiles(receiveCount, account) <= profiles && EthereumPathsDiffer(wallet, source.key)
    requires CountsOfAll(BranchesOf(wallet, profiles, batchSize), {}, chain, source, passes, asked)
    ensures var calls := EthereumCalls(wallet, receiveCount, account, batchSize, chain, source);
            Sum(asked) >= calls && (|profiles| == 3 ==> Sum(asked) == calls)
  {
    hide HeldAfter, OwnKeys, CeilDiv, EthereumPathsDiffer, Sum, CountsOf, Min, PassesOf, End, Passes;
    var branches := BranchesOf(wallet, profiles, batchSize);
    forall b: nat | b < 3
      ensures passes[..3][b] == Passes(BranchOf(wallet, EthereumProfiles(receiveCount, account)[b], batchSize), chain, source)
      ensures asked[b] + (if b == 1 && Min(batchSize, receiveCount) == 1 then 1 else 0) == passes[b]
    {
      assert profiles[b] == EthereumProfiles(receiveCount, account)[b];
      EthereumHeld(wallet, profiles, b, receiveCount, account, batchSize, chain, source);
      CountsAre(branches[b], HeldAfter({}, branches[..b], chain, source), chain, source, passes[b], asked[b]);
    }
    PassesOfThree(wallet, EthereumProfiles(receiveCount, account), batchSize, chain, source, passes[..3]);
    SumOfPrefix(asked, 3);
    SumOfThree(asked[0], asked[1], asked[2]);
    assert asked[..3] == [asked[0], asked[1], asked[2]];
    if |profiles| == 3 {
      assert asked[..3] == asked;
    }
  }

  lemma CountsAre<State>(scan: BranchScan<State>, held: set<string>, chain: string -> State, source: Source<State>,
                         passes: nat, asked: nat)
    requires scan.batchSize > 0 && CountsOf(scan, held, chain, source, passes, asked)
    requires OwnKeys(held, scan, source.key, End(scan, chain, source))
    ensures passes == Passes(scan, chain, source)
    ensures asked + (if WastesFirst(held, scan, source.key) then 1 else 0) == passes
  {
  }

  /** No chain makes fewer calls than one for each batch of the minimum, less the wasted one; an unused wallet makes as many. */
  lemma EthereumIsLeast<State(!new)>(wallet: Wallet<State>, receiveCount: nat, account: nat, batchSize: nat,
                                     chain: string -> State, source: Source<State>)
    requires account + receiveCount <= BIP32_BRANCH_SIZE && batchSize >= 1
    ensures var calls := EthereumCalls(wallet, receiveCount, account, batchSize, chain, source);
            var least := EthereumMinimumLookups(receiveCount, batchSize) - EthereumWaste(receiveCount, batchSize);
            calls >= least && (NoneUsed(wallet, chain, source) ==> calls == least)
  {
    hide CeilDiv, PassesOf, NoneUsed, Batches, EthereumWaste;
    var profiles := EthereumProfiles(receiveCount, account);
    PassesAreLeast(wallet, profiles, batchSize, chain, source);
    BatchesOfLast([], profiles[0], batchSize);
    BatchesOfLast([profiles[0]], profiles[1], batchSize);
    BatchesOfLast([profiles[0], profiles[1]], profiles[2], batchSize);
    assert [] + [profiles[0]] == [profiles[0]] && [profiles[0]] + [profiles[1]] == [profiles[0], profiles[1]];
    assert [profiles[0], profiles[1]] + [profiles[2]] == profiles;
    NoneToTake(batchSize);
  }

  /**
   * Without custom paths the number shown for Ethereum is reached on every chain exactly when the first
   * batches hold more than one address; otherwise an unused wallet makes one call less.
   */
  lemma EthereumEstimate<State(!new)>(wallet: Wallet<State>, receiveCount: nat, account: nat, batchSize: nat,
                                      source: Source<State>, unused: State)
    requires account + receiveCount <= BIP32_BRANCH_SIZE && receiveCount >= 1 && batchSize >= 1 && !source.used(unused)
    ensures (forall chain: string -> State | Respects(chain, source.key) ::
               EthereumCalls(wallet, receiveCount, account, batchSize, chain, source)
               >= EthereumMinimumLookups(receiveCount, batchSize))
       <==> Min(batchSize, receiveCount) > 1
  {
    hide EthereumCalls, EthereumMinimumLookups;
    forall chain: string -> State
      ensures EthereumCalls(wallet, receiveCount, account, batchSize, chain, source)
           >= EthereumMinimumLookups(receiveCount, batchSize) - EthereumWaste(receiveCount, batchSize)
    {
      EthereumIsLeast(wallet, receiveCount, account, batchSize, chain, source);
    }
    var chain := (text: string) => unused;
    EthereumIsLeast(wallet, receiveCount, account, batchSize, chain, source);
    assert Respects(chain, source.key);
  }

  /**
   * The Ethereum scan of one seed phrase: its provider calls. Without custom paths they are what the
   * chain decides; custom paths can only add to them.
   */
  method ScanEthereum<State(!new)>(receiveCount: int, account: nat, custom: seq<Profile>, wallet: Wallet<State>,
                                   batchSize: nat, source: Source<State>, ghost chain: string -> State)
    returns (r: Option<nat>)
    requires batchSize >= 1 && Answers(wallet.provider, chain) && Respects(chain, source.key)
    ensures r.None? ==>
              receiveCount < 1 || account >= 0x8000_0000 || account + receiveCount > 0x8000_0000 || SomeAbort(wallet)
    ensures r.Some? ==> receiveCount >= 1 && account + receiveCount <= 0x8000_0000
    ensures r.Some? && EthereumPathsDiffer(wallet, source.key) ==>
              var calls := EthereumCalls(wallet, receiveCount, account, batchSize, chain, source);
              && r.value >= calls && (custom == [] ==> r.value == calls)
              && r.value >= EthereumMinimumLookups(receiveCount, batchSize) - EthereumWaste(receiveCount, batchSize)
  {
    if receiveCount < 1 || account >= BIP32_BRANCH_SIZE || receiveCount > BIP32_BRANCH_SIZE - account {
      return None;
    }
    hide Answers, Respects, EthereumPathsDiffer, CountsOfAll, LeastBatches, NoneUsed, BranchesOf, EthereumProfiles,
         EthereumMinimumLookups, EthereumCalls, SomeAbort;
    var profiles := EthereumProfiles(receiveCount, account);
    var calls, passes, asked := ScanSection(wallet, Section(profiles, custom), batchSize, source, chain);
    if calls.Some? && EthereumPathsDiffer(wallet, source.key) {
      assert profiles <= profiles + custom && |profiles| == 3;
      EthereumAsks(wallet, profiles + custom, receiveCount, account, batchSize, chain, source, passes, asked);
      EthereumIsLeast(wallet, receiveCount, account, batchSize, chain, source);
    }
    return calls;
  }
}

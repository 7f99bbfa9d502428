/** The lookups of a Dash scan of one seed phrase, against the estimate shown before it. */
module DashScans {
  import opened Text
  import opened AddressGap
  import opened Addresses
  import opened BranchScans
  import opened ScanEstimate
  import opened ScanSections

  // ---------- Dash ----------

  const CORE := 0
  const LEGACY := 1
  const COINJOIN := 2
  const COLLATERAL := 3
  const PLATFORM := 4

  function DashProfile(family: nat, branch: nat, minimum: int): Profile
  {
    Profile((family, branch), if minimum < 0 then 0 else minimum, BIP32_BRANCH_SIZE)
  }

  /** The counts the scan admits; a family besides the standard one needs the standard one. */
  predicate Admitted(s: DashSettings)
  {
    && IsCount(s.receiveCount, 0) && IsCount(s.changeCount, 0) && (s.scanCore ==> s.receiveCount + s.changeCount >= 1)
    && IsCount(s.legacyCoreCount, 0) && (s.scanLegacyCore ==> s.legacyCoreCount >= 1)
    && IsCount(s.coinJoinExternalCount, 0) && IsCount(s.coinJoinInternalCount, 0)
    && (s.scanCoinJoin ==> s.coinJoinExternalCount + s.coinJoinInternalCount >= 1)
    && IsCount(s.providerCollateralCount, 0) && (s.scanProviderCollateral ==> s.providerCollateralCount >= 1)
    && IsCount(s.platformCount, 0) && (s.scanPlatformAddresses ==> s.platformCount >= 1)
    && IsCount(s.identityGap, 1) && IsCount(s.identityLimit, 1)
    && (s.scanLegacyCore || s.scanCoinJoin || s.scanProviderCollateral ==> s.scanCore)
  }

  /** A count of addresses is an index into a branch at most. */
  predicate InBranch(count: int) { 0 <= count <= 0x8000_0000 }

  /** The scan refuses counts outside a branch, selected families without an address, and families without the standard one. */
  lemma WhatDashAdmits(s: DashSettings)
    ensures Admitted(s) <==>
              && InBranch(s.receiveCount) && InBranch(s.changeCount) && InBranch(s.legacyCoreCount)
              && InBranch(s.coinJoinExternalCount) && InBranch(s.coinJoinInternalCount)
              && InBranch(s.providerCollateralCount) && InBranch(s.platformCount)
              && 0 < s.identityGap <= 0x8000_0000 && 0 < s.identityLimit <= 0x8000_0000
              && !(s.scanCore && s.receiveCount == 0 && s.changeCount == 0)
              && !(s.scanLegacyCore && s.legacyCoreCount == 0)
              && !(s.scanCoinJoin && s.coinJoinExternalCount == 0 && s.coinJoinInternalCount == 0)
              && !(s.scanProviderCollateral && s.providerCollateralCount == 0)
              && !(s.scanPlatformAddresses && s.platformCount == 0)
              && !(!s.scanCore && (s.scanLegacyCore || s.scanCoinJoin || s.scanProviderCollateral))
  {
  }

  function CoreProfiles(s: DashSettings): seq<Profile>
  {
    [DashProfile(CORE, 0, if s.scanCore then s.receiveCount else 0),
     DashProfile(CORE, 1, if s.scanCore then s.changeCount else 0)]
  }

  function LegacyProfiles(s: DashSettings): seq<Profile>
  {
    [DashProfile(LEGACY, 0, s.legacyCoreCount), DashProfile(LEGACY, 1, s.legacyCoreCount)]
  }

  function CoinJoinProfiles(s: DashSettings): seq<Profile>
  {
    [DashProfile(COINJOIN, 0, s.coinJoinExternalCount), DashProfile(COINJOIN, 1, s.coinJoinInternalCount)]
  }

  function CollateralProfiles(s: DashSettings): seq<Profile>
  {
    [DashProfile(COLLATERAL, 0, s.providerCollateralCount)]
  }

  function CoreSection(s: DashSettings, custom: seq<Profile>): seq<Section>
  {
    if s.scanCore || custom != [] then [Section(CoreProfiles(s), custom)] else []
  }

  /** The section of one more family, without its empty branches. */
  function FamilySection(asked: bool, profiles: seq<Profile>): seq<Section>
  {
    if asked then [Section(Kept(profiles), [])] else []
  }

  /** The Core-chain sections the settings select, each with the branches it scans. */
  function DashSections(s: DashSettings, custom: seq<Profile>): seq<Section>
  {
    CoreSection(s, custom) + FamilySection(s.scanLegacyCore, LegacyProfiles(s))
    + FamilySection(s.scanCoinJoin, CoinJoinProfiles(s)) + FamilySection(s.scanProviderCollateral, CollateralProfiles(s))
  }

  /** A section of its own scans this branch, from `minimum` addresses on. */
  predicate Scans(s: DashSettings, family: nat, branch: nat, minimum: nat)
  {
    exists section | section in DashSections(s, []) ::
      Profile((family, branch), minimum, 0x8000_0000) in section.standard
  }

  /** The branches a Dash scan takes on the Core chain: those of the selected families, none of them empty but the standard ones. */
  lemma BranchesOfDash(s: DashSettings, family: nat, branch: nat, minimum: nat)
    requires Admitted(s)
    ensures Scans(s, family, branch, minimum) <==>
              || (s.scanCore && family == 0 && branch == 0 && minimum == s.receiveCount)
              || (s.scanCore && family == 0 && branch == 1 && minimum == s.changeCount)
              || (s.scanLegacyCore && family == 1 && branch < 2 && minimum == s.legacyCoreCount)
              || (s.scanCoinJoin && family == 2 && branch == 0 && minimum == s.coinJoinExternalCount > 0)
              || (s.scanCoinJoin && family == 2 && branch == 1 && minimum == s.coinJoinInternalCount > 0)
              || (s.scanProviderCollateral && family == 3 && branch == 0 && minimum == s.providerCollateralCount)
  {
    var profile := Profile((family, branch), minimum, BIP32_BRANCH_SIZE);
    KeptAreNotEmpty(LegacyProfiles(s), profile);
    KeptAreNotEmpty(CoinJoinProfiles(s), profile);
    KeptAreNotEmpty(CollateralProfiles(s), profile);
    hide Kept;
    var sections := DashSections(s, []);
    assert s.scanCore ==> Section(CoreProfiles(s), []) in sections;
    assert s.scanLegacyCore ==> Section(Kept(LegacyProfiles(s)), []) in sections;
    assert s.scanCoinJoin ==> Section(Kept(CoinJoinProfiles(s)), []) in sections;
    assert s.scanProviderCollateral ==> Section(Kept(CollateralProfiles(s)), []) in sections;
  }

  lemma {:induction false} KeptAreNotEmpty(profiles: seq<Profile>, profile: Profile)
    ensures profile in Kept(profiles) <==> profile in profiles && profile.minimum > 0
  {
    if profiles != [] {
      var front, last := profiles[..|profiles| - 1], profiles[|profiles| - 1];
      KeptAreNotEmpty(front, profile);
      assert profiles == front + [last];
    }
  }

  function SectionBatches(sections: seq<Section>, batchSize: nat): nat
    requires batchSize > 0
  {
    if sections == [] then 0
    else SectionBatches(sections[..|sections| - 1], batchSize) + Batches(sections[|sections| - 1].standard, batchSize)
  }

  lemma SectionBatchesOfLast(sections: seq<Section>, last: Section, batchSize: nat)
    requires batchSize > 0
    ensures SectionBatches(sections + [last], batchSize)
         == SectionBatches(sections, batchSize) + Batches(last.standard, batchSize)
  {
    assert (sections + [last])[..|sections|] == sections;
  }

  lemma {:induction false} SectionBatchesOfBoth(a: seq<Section>, b: seq<Section>, batchSize: nat)
    requires batchSize > 0
    ensures SectionBatches(a + b, batchSize) == SectionBatches(a, batchSize) + SectionBatches(b, batchSize)
  {
    if b == [] {
      assert a + b == a;
    } else {
      var front, last := b[..|b| - 1], b[|b| - 1];
      SectionBatchesOfBoth(a, front, batchSize);
      SectionBatchesOfLast(a + front, last, batchSize);
      assert a + b == a + front + [last];
    }
  }

  /** Two counts of one family take at least what their sum does. */
  lemma BatchesOfTwo(profiles: seq<Profile>, batchSize: nat)
    requires batchSize > 0 && 1 <= |profiles| <= 2 && OwnNames(profiles)
    ensures Batches(Kept(profiles), batchSize) == Batches(profiles, batchSize) && OwnNames(Kept(profiles))
    ensures |profiles| == 1 ==> Batches(profiles, batchSize) == CeilDiv(profiles[0].minimum, batchSize)
    ensures |profiles| == 2 ==>
              Batches(profiles, batchSize) >= CeilDiv(profiles[0].minimum + profiles[1].minimum, batchSize)
  {
    hide CeilDiv, OwnNames, Kept;
    KeptIsTheSame(profiles, batchSize);
    BatchesOfLast([], profiles[0], batchSize);
    assert [] + [profiles[0]] == [profiles[0]];
    if |profiles| == 2 {
      assert profiles == [profiles[0]] + [profiles[1]];
      BatchesOfLast([profiles[0]], profiles[1], batchSize);
      CeilDivOfSum(profiles[0].minimum, profiles[1].minimum, batchSize);
    } else {
      assert profiles == [profiles[0]];
    }
  }

  lemma EstimatedOfOne(asked: bool, a: int, minimum: nat)
    requires a >= minimum
    ensures Estimated(asked, [a], minimum) == Some(if asked then a else 0)
  {
    assert [a][1..] == [] && Estimated(asked, [], minimum) == Some(0);
  }

  lemma EstimatedOfTwo(asked: bool, a: int, b: int)
    requires a >= 0 && b >= 0
    ensures Estimated(asked, [a, b], 0) == Some(if asked then a + b else 0)
  {
    EstimatedOfOne(asked, b, 0);
    assert [a, b][1..] == [b];
  }

  ghost predicate Covers(sections: seq<Section>, total: nat, batchSize: nat)
    requires batchSize > 0
  {
    && SectionBatches(sections, batchSize) >= CeilDiv(total, batchSize)
    && forall section | section in sections :: OwnNames(section.standard)
  }

  lemma OneCovers(asked: bool, section: Section, total: nat, batchSize: nat)
    requires batchSize > 0 && Batches(section.standard, batchSize) >= CeilDiv(total, batchSize) && OwnNames(section.standard)
    ensures Covers(if asked then [section] else [], if asked then total else 0, batchSize)
  {
    hide CeilDiv, OwnNames;
    NoBatches(batchSize);
    SectionBatchesOfLast([], section, batchSize);
    assert [] + [section] == [section];
  }

  lemma BothCover(a: seq<Section>, b: seq<Section>, m: nat, n: nat, batchSize: nat)
    requires batchSize > 0 && Covers(a, m, batchSize) && Covers(b, n, batchSize)
    ensures Covers(a + b, m + n, batchSize)
  {
    hide CeilDiv, SectionBatches, OwnNames;
    SectionBatchesOfBoth(a, b, batchSize);
    CeilDivOfSum(m, n, batchSize);
  }

  lemma FamilyCovers(asked: bool, profiles: seq<Profile>, total: nat, batchSize: nat)
    requires batchSize > 0 && 1 <= |profiles| <= 2 && OwnNames(profiles)
    requires total == profiles[0].minimum + if |profiles| == 2 then profiles[1].minimum else 0
    ensures Covers(FamilySection(asked, profiles), if asked then total else 0, batchSize)
  {
    hide CeilDiv, Batches, Kept, OwnNames, Covers;
    BatchesOfTwo(profiles, batchSize);
    OneCovers(asked, Section(Kept(profiles), []), total, batchSize);
  }

  lemma CoreCovers(s: DashSettings, custom: seq<Profile>, batchSize: nat)
    requires batchSize > 0 && Admitted(s)
    ensures Covers(CoreSection(s, custom), CoreCount(s), batchSize)
  {
    hide CeilDiv, Batches, Kept, Covers;
    BatchesOfTwo(CoreProfiles(s), batchSize);
    OneCovers(s.scanCore || custom != [], Section(CoreProfiles(s), custom), CoreCount(s), batchSize);
  }

  /** The sections together take at least what the estimate shows for them, rounded up only once. */
  lemma SectionsCoverEstimate(s: DashSettings, custom: seq<Profile>, batchSize: nat)
    requires batchSize > 0 && Admitted(s)
    ensures CoreAddresses(s).Some? && Covers(DashSections(s, custom), CoreAddresses(s).value, batchSize)
  {
    hide Covers, Kept, CoreAddresses;
    CoreAddressesAre(s);
    CoreCovers(s, custom, batchSize);
    FamilyCovers(s.scanLegacyCore, LegacyProfiles(s), s.legacyCoreCount + s.legacyCoreCount, batchSize);
    FamilyCovers(s.scanCoinJoin, CoinJoinProfiles(s), s.coinJoinExternalCount + s.coinJoinInternalCount, batchSize);
    FamilyCovers(s.scanProviderCollateral, CollateralProfiles(s), s.providerCollateralCount, batchSize);
    hide FamilySection, CoreSection;
    var core, legacy := CoreSection(s, custom), FamilySection(s.scanLegacyCore, LegacyProfiles(s));
    var coinJoin := FamilySection(s.scanCoinJoin, CoinJoinProfiles(s));
    var collateral := FamilySection(s.scanProviderCollateral, CollateralProfiles(s));
    BothCover(core, legacy, CoreCount(s), LegacyCount(s), batchSize);
    BothCover(core + legacy, coinJoin, CoreCount(s) + LegacyCount(s), CoinJoinCount(s), batchSize);
    BothCover(core + legacy + coinJoin, collateral, CoreCount(s) + LegacyCount(s) + CoinJoinCount(s), CollateralCount(s),
              batchSize);
  }

  function CoreCount(s: DashSettings): nat
    requires Admitted(s)
  {
    if s.scanCore then s.receiveCount + s.changeCount else 0
  }

  function LegacyCount(s: DashSettings): nat
    requires Admitted(s)
  {
    if s.scanLegacyCore then s.legacyCoreCount + s.legacyCoreCount else 0
  }

  function CoinJoinCount(s: DashSettings): nat
    requires Admitted(s)
  {
    if s.scanCoinJoin then s.coinJoinExternalCount + s.coinJoinInternalCount else 0
  }

  function CollateralCount(s: DashSettings): nat
    requires Admitted(s)
  {
    if s.scanProviderCollateral then s.providerCollateralCount else 0
  }

  lemma CoreAddressesAre(s: DashSettings)
    requires Admitted(s)
    ensures CoreAddresses(s) == Some(CoreCount(s) + LegacyCount(s) + CoinJoinCount(s) + CollateralCount(s))
  {
    hide Estimated;
    EstimatedOfTwo(s.scanCore, s.receiveCount, s.changeCount);
    EstimatedOfTwo(s.scanCore && s.scanLegacyCore, s.legacyCoreCount, s.legacyCoreCount);
    EstimatedOfTwo(s.scanCore && s.scanCoinJoin, s.coinJoinExternalCount, s.coinJoinInternalCount);
    EstimatedOfOne(s.scanCore && s.scanProviderCollateral, s.providerCollateralCount, 0);
  }

  // ---------- Platform chains ----------

  /** None of the first `n` batches found the scan aborted. */
  predicate NoAbortBefore(aborted: nat -> bool, n: nat) { forall j: nat | j < n :: !aborted(j) }

  lemma NoAbortYet(aborted: nat -> bool)
    ensures NoAbortBefore(aborted, 0)
    ensures forall n: nat :: NoAbortBefore(aborted, n) && !aborted(n) ==> NoAbortBefore(aborted, n + 1)
  {
  }

  /** The loop over one Platform payment chain, where every batch is a request of its own. */
  method ScanPlatformChain<State(!new)>(gap: AddressGapTracker, scan: BranchScan<State>, source: Source<State>,
                                        ghost chain: string -> State)
    returns (r: Option<nat>, requests: nat)
    requires scan.batchSize >= 1 && Answers(scan.provider, chain)
    modifies gap
    ensures r.None? ==> scan.aborted(requests)
    ensures NoAbortBefore(scan.aborted, requests)
    ensures r.Some? ==> r.value == End(scan, chain, source) && requests == Passes(scan, chain, source)
    ensures r.Some? ==>
              (gap.truncated <==> old(gap.truncated) || CutBelow(r.value, scan.options.maximum, Used(scan, chain, source)))
  {
    hide Extended, Showing, Cut, CutBelow, ShownBelow, Pushed, Texts, Cuts, ExtendAddressTarget, Used, BatchesFrom, Passes,
         OnTheWay, End, NoAbortBefore;
    ghost var used := Used(scan, chain, source);
    NoAbortYet(scan.aborted);
    AtTheStart(scan, chain, source);
    SetsOut(scan, chain, source);
    var target, offset := scan.initial, 0;
    requests := 0;
    while offset < target
      invariant offset <= target == Target(scan, chain, source, offset) && OnTheWay(scan, chain, source, offset, requests)
      invariant NoAbortBefore(scan.aborted, requests)
      invariant gap.truncated <==> old(gap.truncated) || CutBelow(offset, scan.options.maximum, used)
      decreases Max(scan.initial, scan.options.maximum) - offset
    {
      if scan.aborted(requests) {
        return None, requests;
      }
      var end := Min(offset + scan.batchSize, target);
      var chunk := Chunk(scan.derive, offset, end);
      var found := scan.provider(Texts(chunk)).value;
      assert forall i | 0 <= i < |chunk| :: found[i] == chain(scan.derive(offset + i));
      PlatformBatch(scan, chain, source, offset, end, found);
      target := ExtendPast(gap, chunk, found, target, scan.options, source);
      GoesOn(scan, chain, source, offset, end, requests);
      offset, requests := end, requests + 1;
    }
    Arrives(scan, chain, source, offset, requests);
    return Some(offset), requests;
  }

  lemma PlatformBatch<State(!new)>(scan: BranchScan<State>, chain: string -> State, source: Source<State>, from: nat,
                                   end: nat, found: seq<State>)
    requires from <= end <= Target(scan, chain, source, from) && |found| == end - from
    requires forall i | 0 <= i < |found| :: found[i] == chain(scan.derive(from + i))
    ensures Extended(Chunk(scan.derive, from, end), found, Target(scan, chain, source, from), scan.options, source)
         == Target(scan, chain, source, end)
    ensures CutBelow(end, scan.options.maximum, Used(scan, chain, source))
       <==> CutBelow(from, scan.options.maximum, Used(scan, chain, source))
            || Cut(Chunk(scan.derive, from, end), found, scan.options, source)
    ensures (forall m | from <= m < end :: m < Target(scan, chain, source, m)) && end <= Target(scan, chain, source, end)
  {
    hide Extended, Cut, CutBelow, Pushed, Used;
    TargetOfChunk(scan, chain, source, from, end, found);
    CutOfChunk(scan, chain, source, from, end, found);
    BeforeTheTarget(scan, chain, source, from, end);
  }

  /** The inner loop: the target past each used address of a batch. */
  method ExtendPast<State>(gap: AddressGapTracker, chunk: seq<BatchAddress>, found: seq<State>, start: nat, options: Options,
                           source: Source<State>)
    returns (target: nat)
    requires |chunk| == |found|
    modifies gap
    ensures target == Extended(chunk, found, start, options, source)
    ensures gap.truncated <==> old(gap.truncated) || Cut(chunk, found, options, source)
  {
    hide Cut, Cuts, Showing, Extended, ExtendAddressTarget;
    NothingExtends(start, options, source);
    target := start;
    for position := 0 to |chunk|
      invariant target == Extended(chunk[..position], found[..position], start, options, source)
      invariant gap.truncated == (old(gap.truncated) || Cut(chunk[..position], found[..position], options, source))
    {
      CutOneMore(chunk, found, position, options, source);
      ShownOneMore(chunk, found, position, start, options, source);
      if source.used(found[position]) {
        target := gap.Extend(target, chunk[position].index, options.maximum);
      }
    }
    assert chunk[..|chunk|] == chunk && found[..|chunk|] == found;
  }

  // ---------- Platform identities ----------

  const IDENTITY_QUERY_CONCURRENCY := 2

  /** How many indices just below `n` hold no identity, in a row. */
  function EmptyRun(n: nat, holds: nat -> bool): (r: nat)
    ensures r <= n && forall i | n - r <= i < n :: !holds(i)
  {
    if n == 0 || holds(n - 1) then 0 else 1 + EmptyRun(n - 1, holds)
  }

  /** The first index, from `n` on, that is the limit or follows a full gap of empty ones. */
  function IdentityEndFrom(n: nat, limit: nat, gap: nat, holds: nat -> bool): (r: nat)
    requires n <= limit
    ensures n <= r <= limit && (r == limit || EmptyRun(r, holds) >= gap)
    ensures forall m | n <= m < r :: EmptyRun(m, holds) < gap
    decreases limit - n
  {
    if n == limit || EmptyRun(n, holds) >= gap then n else IdentityEndFrom(n + 1, limit, gap, holds)
  }

  function IdentityEnd(limit: nat, gap: nat, holds: nat -> bool): nat { IdentityEndFrom(0, limit, gap, holds) }

  /** One more index checked. */
  lemma OneMoreIndex(n: nat, limit: nat, gap: nat, holds: nat -> bool)
    requires n < limit && EmptyRun(n, holds) < gap
    ensures IdentityEndFrom(n, limit, gap, holds) == IdentityEndFrom(n + 1, limit, gap, holds)
    ensures EmptyRun(n + 1, holds) == if holds(n) then 0 else EmptyRun(n, holds) + 1
  {
  }

  lemma NoMoreIndices(n: nat, limit: nat, gap: nat, holds: nat -> bool)
    requires n <= limit && (n == limit || EmptyRun(n, holds) >= gap)
    ensures IdentityEndFrom(n, limit, gap, holds) == n && EmptyRun(0, holds) == 0
  {
  }

  /** `scanDashIdentities`: the proof calls, one for each index checked, or None when it was aborted. */
  method ScanIdentities(limit: nat, gap: nat, holds: nat -> bool, aborted: nat -> bool) returns (r: Option<nat>)
    ensures r.None? ==> exists k: nat :: aborted(k)
    ensures r.Some? ==> r.value == IdentityEnd(limit, gap, holds) && forall k: nat | 2 * k < r.value :: !aborted(k)
  {
    hide EmptyRun, IdentityEndFrom;
    NoMoreIndices(0, 0, gap, holds);
    var scanned, consecutiveEmpty, batches := 0, 0, 0;
    while scanned < limit && consecutiveEmpty < gap
      invariant scanned <= 2 * batches && forall k | 0 <= k < batches :: !aborted(k)
      invariant scanned <= limit && consecutiveEmpty == EmptyRun(scanned, holds) <= gap
      invariant IdentityEnd(limit, gap, holds) == IdentityEndFrom(scanned, limit, gap, holds)
      decreases limit - scanned
    {
      if aborted(batches) {
        return None;
      }
      var size := Min(IDENTITY_QUERY_CONCURRENCY, Min(limit - scanned, gap - consecutiveEmpty));
      ghost var start, before := scanned, consecutiveEmpty;
      for offset := 0 to size
        invariant scanned == start + offset && consecutiveEmpty == EmptyRun(scanned, holds) <= before + offset
        invariant IdentityEnd(limit, gap, holds) == IdentityEndFrom(scanned, limit, gap, holds)
      {
        OneMoreIndex(scanned, limit, gap, holds);
        consecutiveEmpty := if holds(scanned) then 0 else consecutiveEmpty + 1;
        scanned := scanned + 1;
      }
      batches := batches + 1;
    }
    NoMoreIndices(scanned, limit, gap, holds);
    return Some(scanned);
  }

  /**
   * The identity calls shown before a scan are reached on every chain exactly when the empty-gap limit
   * is at least the limit of attempts; otherwise a wallet without identities makes fewer.
   */
  lemma IdentityEstimate(limit: nat, gap: nat)
    ensures (forall holds: nat -> bool :: IdentityEnd(limit, gap, holds) >= limit) <==> gap >= limit
    ensures forall holds: nat -> bool :: Min(limit, gap) <= IdentityEnd(limit, gap, holds) <= limit
  {
    var none := (i: nat) => false;
    if gap < limit {
      NoneHold(gap, none);
      assert IdentityEnd(limit, gap, none) < limit;
    }
  }

  lemma {:induction false} NoneHold(n: nat, holds: nat -> bool)
    requires forall i | 0 <= i < n :: !holds(i)
    ensures EmptyRun(n, holds) == n
  {
    if n > 0 {
      NoneHold(n - 1, holds);
    }
  }

  // ---------- A whole Dash scan ----------

  function PlatformProfiles(minimum: nat): seq<Profile>
  {
    [DashProfile(PLATFORM, 0, minimum), DashProfile(PLATFORM, 1, minimum)]
  }

  /** The batches that a chain makes of some sections without custom paths. */
  function PassesOfSections<State>(wallet: Wallet<State>, sections: seq<Section>, batchSize: nat, chain: string -> State,
                                   source: Source<State>): nat
    requires batchSize >= 1
  {
    if sections == [] then 0
    else
      PassesOfSections(wallet, sections[..|sections| - 1], batchSize, chain, source)
      + PassesOf(wallet, sections[|sections| - 1].standard, batchSize, chain, source)
  }

  /** What is scanned for one seed phrase: its Core-chain and its Platform addresses. */
  datatype Phrase<!State, !Info> = Phrase(
    core: Wallet<State>, coreSource: Source<State>, platform: Wallet<Info>, platformSource: Source<Info>
  )

  /** The address lookups of a Dash scan without custom paths, as its chains decide them. */
  function DashAddressCalls<State, Info>(s: DashSettings, p: Phrase<State, Info>, coreChain: string -> State,
                                         platformChain: string -> Info, coreBatch: nat, platformBatch: nat): nat
    requires coreBatch >= 1 && platformBatch >= 1 && Admitted(s)
  {
    PassesOfSections(p.core, DashSections(s, []), coreBatch, coreChain, p.coreSource)
    + if s.scanPlatformAddresses
      then PassesOf(p.platform, PlatformProfiles(s.platformCount), platformBatch, platformChain, p.platformSource) else 0
  }

  function DashIdentityCalls(s: DashSettings, holds: nat -> bool): nat
    requires Admitted(s)
  {
    if s.scanPlatformIdentities then IdentityEnd(s.identityLimit, s.identityGap, holds) else 0
  }

  /** All lookups of a Dash scan without custom paths. */
  function DashCalls<State, Info>(s: DashSettings, p: Phrase<State, Info>, coreChain: string -> State,
                                  platformChain: string -> Info, holds: nat -> bool, coreBatch: nat, platformBatch: nat): nat
    requires coreBatch >= 1 && platformBatch >= 1 && Admitted(s)
  {
    DashAddressCalls(s, p, coreChain, platformChain, coreBatch, platformBatch) + DashIdentityCalls(s, holds)
  }

  /** What an empty wallet takes: each branch rounded up on its own, and one empty gap of identities. */
  function LeastDashCalls(s: DashSettings, coreBatch: nat, platformBatch: nat): nat
    requires coreBatch >= 1 && platformBatch >= 1 && Admitted(s)
  {
    SectionBatches(DashSections(s, []), coreBatch)
    + (if s.scanPlatformAddresses then 2 * CeilDiv(s.platformCount, platformBatch) else 0)
    + (if s.scanPlatformIdentities then Min(s.identityLimit, s.identityGap) else 0)
  }

  /**
   * The address and identity sections of `scan` for one seed phrase: a book for each Core-chain
   * section, both Platform chains, and the identities. None when the settings are refused or the scan
   * was aborted. On paths that differ, the provider is asked for addresses at least as often as shown,
   * and without custom paths exactly as often as the chains decide.
   */
  method ScanDash<State(!new), Info(!new)>(
      s: DashSettings, custom: seq<Profile>, p: Phrase<State, Info>, holds: nat -> bool, aborted: nat -> bool,
      coreBatch: nat, platformBatch: nat, ghost coreChain: string -> State, ghost platformChain: string -> Info)
    returns (r: Option<Lookups>)
    requires coreBatch >= 1 && Answers(p.core.provider, coreChain) && Respects(coreChain, p.coreSource.key)
    requires platformBatch >= 1 && Answers(p.platform.provider, platformChain)
    ensures r.None? ==> !Admitted(s) || SomeAbort(p.core) || SomeAbort(p.platform) || exists k: nat :: aborted(k)
    ensures r.Some? ==> Admitted(s) && DashMinimumLookups(s, coreBatch, platformBatch).Some?
    ensures r.Some? && PathsDiffer(p.core, p.coreSource.key) ==>
              r.value.addressBatches >= DashMinimumLookups(s, coreBatch, platformBatch).value.addressBatches
    ensures r.Some? && PathsDiffer(p.core, p.coreSource.key) && (s.scanPlatformIdentities ==> s.identityGap >= s.identityLimit) ==>
              r.value.addressBatches + r.value.identityCalls >= DashSeedLookups(s, coreBatch, platformBatch).value
    ensures r.Some? ==> r.value.identityCalls == DashIdentityCalls(s, holds)
    ensures r.Some? && PathsDiffer(p.core, p.coreSource.key) && custom == [] ==>
              r.value.addressBatches == DashAddressCalls(s, p, coreChain, platformChain, coreBatch, platformBatch)
  {
    if !Admitted(s) {
      return None;
    }
    hide Answers, Respects, PathsDiffer, OwnNames, SectionBatches, CeilDiv, DashSections, IdentityEnd, SomeAbort, PassesOf,
         PassesOfSections, PlatformProfiles, Admitted, Covers, DashMinimumLookups, DashSeedLookups, DashAddressCalls, NoneUsed,
         Estimated;
    SectionsCoverEstimate(s, custom, coreBatch);
    var coreCalls := ScanCoreSections(DashSections(s, custom), p.core, coreBatch, p.coreSource, coreChain);
    if coreCalls.None? {
      return None;
    }
    var platformCalls: Option<nat> := Some(0);
    if s.scanPlatformAddresses {
      platformCalls := ScanPlatform(s.platformCount, p.platform, platformBatch, p.platformSource, platformChain);
    }
    var identityCalls: Option<nat> := Some(0);
    if s.scanPlatformIdentities {
      identityCalls := ScanIdentities(s.identityLimit, s.identityGap, holds, aborted);
    }
    if platformCalls.None? || identityCalls.None? {
      return None;
    }
    DashAddsUp(s, custom, p, coreChain, platformChain, holds, coreBatch, platformBatch);
    return Some(Lookups(coreCalls.value + platformCalls.value, identityCalls.value));
  }

  /** The estimate, against what the parts of a scan take. */
  lemma DashAddsUp<State(!new), Info(!new)>(s: DashSettings, custom: seq<Profile>, p: Phrase<State, Info>,
                                            coreChain: string -> State, platformChain: string -> Info, holds: nat -> bool,
                                            coreBatch: nat, platformBatch: nat)
    requires coreBatch >= 1 && platformBatch >= 1 && Admitted(s)
    ensures forall section | section in DashSections(s, custom) :: OwnNames(section.standard)
    ensures forall section | section in DashSections(s, []) :: section.custom == []
    ensures var shown := DashMinimumLookups(s, coreBatch, platformBatch);
            var core := PassesOfSections(p.core, DashSections(s, custom), coreBatch, coreChain, p.coreSource);
            var platform := if s.scanPlatformAddresses
              then PassesOf(p.platform, PlatformProfiles(s.platformCount), platformBatch, platformChain, p.platformSource) else 0;
            && shown.Some? && core + platform >= shown.value.addressBatches
            && (custom == [] ==> core + platform == DashAddressCalls(s, p, coreChain, platformChain, coreBatch, platformBatch))
            && ((s.scanPlatformIdentities ==> s.identityGap >= s.identityLimit) ==>
                  DashIdentityCalls(s, holds) == shown.value.identityCalls)
  {
    SectionsCoverEstimate(s, custom, coreBatch);
    NoCustomPaths(s);
    MinimumOfDash(s, coreBatch, platformBatch);
    FullGap(s, holds);
    hide OwnNames, SectionBatches, CeilDiv, DashSections, IdentityEnd, PassesOf, PassesOfSections, PlatformProfiles, Admitted,
         DashMinimumLookups, NoneUsed, CoreAddresses;
    SectionsTakeLeast(p.core, DashSections(s, custom), coreBatch, coreChain, p.coreSource);
    PlatformTakesLeast(p.platform, s.platformCount, platformBatch, platformChain, p.platformSource);
  }

  /** When the gap is no smaller than the limit, the limit of attempts is reached. */
  lemma FullGap(s: DashSettings, holds: nat -> bool)
    requires Admitted(s)
    ensures s.scanPlatformIdentities && s.identityGap >= s.identityLimit ==> DashIdentityCalls(s, holds) == s.identityLimit
  {
    IdentityEstimate(s.identityLimit, s.identityGap);
  }

  lemma NoCustomPaths(s: DashSettings)
    ensures forall section | section in DashSections(s, []) :: section.custom == []
  {
  }

  /** Both Platform payment chains, from their common minimum. */
  method ScanPlatform<State(!new)>(minimum: nat, wallet: Wallet<State>, batchSize: nat, source: Source<State>,
                                   ghost chain: string -> State)
    returns (r: Option<nat>)
    requires batchSize >= 1 && Answers(wallet.provider, chain)
    ensures r.None? ==> SomeAbort(wallet)
    ensures r.Some? ==> r.value == PassesOf(wallet, PlatformProfiles(minimum), batchSize, chain, source)
  {
    hide Answers, End, CutBelow, Used, Passes, PassesOf;
    var gap := new AddressGapTracker();
    var profiles := PlatformProfiles(minimum);
    var total: nat := 0;
    NoPasses(wallet, batchSize, chain, source);
    for branch := 0 to 2
      invariant fresh(gap) && total == PassesOf(wallet, profiles[..branch], batchSize, chain, source)
    {
      var one, calls := ScanPlatformChain(gap, BranchOf(wallet, profiles[branch], batchSize), source, chain);
      if one.None? {
        assert wallet.aborted(profiles[branch].name, calls);
        return None;
      }
      PassesOfLast(wallet, profiles[..branch], profiles[branch], batchSize, chain, source);
      assert profiles[..branch + 1] == profiles[..branch] + [profiles[branch]];
      total := total + calls;
    }
    assert profiles[..2] == profiles;
    return Some(total);
  }

  lemma NoPasses<State>(wallet: Wallet<State>, batchSize: nat, chain: string -> State, source: Source<State>)
    requires batchSize >= 1
    ensures PassesOf(wallet, [], batchSize, chain, source) == 0
  {
  }

  /** The Core-chain sections, each with its own book: the provider calls of all of them. */
  method ScanCoreSections<State(!new)>(sections: seq<Section>, wallet: Wallet<State>, batchSize: nat, source: Source<State>,
                                       ghost chain: string -> State)
    returns (r: Option<nat>)
    requires batchSize >= 1 && Answers(wallet.provider, chain) && Respects(chain, source.key)
    ensures r.None? ==> SomeAbort(wallet)
    ensures r.Some? && PathsDiffer(wallet, source.key) && (forall section | section in sections :: OwnNames(section.standard)) ==>
              && r.value >= PassesOfSections(wallet, sections, batchSize, chain, source)
              && ((forall section | section in sections :: section.custom == []) ==>
                    r.value == PassesOfSections(wallet, sections, batchSize, chain, source))
  {
    hide Answers, Respects, PathsDiffer, OwnNames, CountsOfAll, Batches, LeastBatches, BranchesOf, PassesOf, SomeAbort;
    var total: nat := 0;
    ghost var good := PathsDiffer(wallet, source.key) && forall section | section in sections :: OwnNames(section.standard);
    ghost var plain := forall section | section in sections :: section.custom == [];
    for i := 0 to |sections|
      invariant good ==> total >= PassesOfSections(wallet, sections[..i], batchSize, chain, source)
      invariant good && plain ==> total == PassesOfSections(wallet, sections[..i], batchSize, chain, source)
    {
      var one, _, _ := ScanSection(wallet, sections[i], batchSize, source, chain);
      if one.None? {
        return None;
      }
      assert sections[..i + 1][..i] == sections[..i] && sections[i] in sections;
      total := total + one.value;
    }
    assert sections[..|sections|] == sections;
    return Some(total);
  }

  /** No chain makes fewer batches of some sections than their minimum counts take, and an unused wallet no more. */
  lemma {:induction false} SectionsTakeLeast<State(!new)>(wallet: Wallet<State>, sections: seq<Section>, batchSize: nat,
                                                          chain: string -> State, source: Source<State>)
    requires batchSize >= 1
    ensures PassesOfSections(wallet, sections, batchSize, chain, source) >= SectionBatches(sections, batchSize)
    ensures NoneUsed(wallet, chain, source) ==>
              PassesOfSections(wallet, sections, batchSize, chain, source) == SectionBatches(sections, batchSize)
  {
    if sections != [] {
      hide NoneUsed, PassesOf, Batches;
      var last := |sections| - 1;
      SectionsTakeLeast(wallet, sections[..last], batchSize, chain, source);
      PassesAreLeast(wallet, sections[last].standard, batchSize, chain, source);
    }
  }

  lemma PlatformTakesLeast<State(!new)>(wallet: Wallet<State>, minimum: nat, batchSize: nat, chain: string -> State,
                                        source: Source<State>)
    requires batchSize >= 1
    ensures PassesOf(wallet, PlatformProfiles(minimum), batchSize, chain, source) >= 2 * CeilDiv(minimum, batchSize)
    ensures NoneUsed(wallet, chain, source) ==>
              PassesOf(wallet, PlatformProfiles(minimum), batchSize, chain, source) == 2 * CeilDiv(minimum, batchSize)
  {
    hide CeilDiv, PassesOf, NoneUsed, Batches;
    var profiles := PlatformProfiles(minimum);
    PassesAreLeast(wallet, profiles, batchSize, chain, source);
    BatchesOfLast([], profiles[0], batchSize);
    BatchesOfLast([profiles[0]], profiles[1], batchSize);
    assert [] + [profiles[0]] == [profiles[0]] && [profiles[0]] + [profiles[1]] == profiles;
    NoneToTake(batchSize);
  }

  /** A scan never makes fewer lookups than an empty wallet takes. */
  lemma LeastIsLeast<State(!new), Info(!new)>(s: DashSettings, p: Phrase<State, Info>, coreChain: string -> State,
                                              platformChain: string -> Info, holds: nat -> bool, coreBatch: nat, platformBatch: nat)
    requires coreBatch >= 1 && platformBatch >= 1 && Admitted(s)
    ensures DashCalls(s, p, coreChain, platformChain, holds, coreBatch, platformBatch)
         >= LeastDashCalls(s, coreBatch, platformBatch)
    ensures NoneUsed(p.core, coreChain, p.coreSource) && NoneUsed(p.platform, platformChain, p.platformSource)
            && (forall i :: !holds(i)) ==>
              DashCalls(s, p, coreChain, platformChain, holds, coreBatch, platformBatch)
              == LeastDashCalls(s, coreBatch, platformBatch)
  {
    hide CeilDiv, PassesOf, PassesOfSections, NoneUsed, SectionBatches, DashSections, IdentityEnd, PlatformProfiles;
    SectionsTakeLeast(p.core, DashSections(s, []), coreBatch, coreChain, p.coreSource);
    PlatformTakesLeast(p.platform, s.platformCount, platformBatch, platformChain, p.platformSource);
    IdentityEstimate(s.identityLimit, s.identityGap);
    if forall i :: !holds(i) {
      NoneEnds(s.identityLimit, s.identityGap, holds);
    }
  }

  lemma NoneEnds(limit: nat, gap: nat, holds: nat -> bool)
    requires forall i :: !holds(i)
    ensures IdentityEnd(limit, gap, holds) == Min(limit, gap)
  {
    IdentityEstimate(limit, gap);
    NoneHold(gap, holds);
    assert gap < limit ==> IdentityEnd(limit, gap, holds) <= gap;
  }

  /**
   * The number shown as the least of a Dash scan is reached on every chain exactly when an empty wallet
   * reaches it, each branch being rounded up on its own and the identities stopping after one empty gap.
   */
  lemma NumberShownIsReached<State(!new), Info(!new)>(s: DashSettings, p: Phrase<State, Info>, unused: State, absent: Info,
                                                      coreBatch: nat, platformBatch: nat)
    requires coreBatch >= 1 && platformBatch >= 1 && Admitted(s)
    requires !p.coreSource.used(unused) && !p.platformSource.used(absent)
    ensures DashSeedLookups(s, coreBatch, platformBatch).Some?
    ensures (forall coreChain: string -> State, platformChain: string -> Info, holds: nat -> bool
               | Respects(coreChain, p.coreSource.key) ::
               DashCalls(s, p, coreChain, platformChain, holds, coreBatch, platformBatch)
               >= DashSeedLookups(s, coreBatch, platformBatch).value)
       <==> LeastDashCalls(s, coreBatch, platformBatch) >= DashSeedLookups(s, coreBatch, platformBatch).value
  {
    hide DashCalls, LeastDashCalls, Admitted;
    SectionsCoverEstimate(s, [], coreBatch);
    MinimumOfDash(s, coreBatch, platformBatch);
    hide DashMinimumLookups;
    forall coreChain: string -> State, platformChain: string -> Info, holds: nat -> bool
      ensures DashCalls(s, p, coreChain, platformChain, holds, coreBatch, platformBatch)
           >= LeastDashCalls(s, coreBatch, platformBatch)
    {
      LeastIsLeast(s, p, coreChain, platformChain, holds, coreBatch, platformBatch);
    }
    var coreChain := (text: string) => unused;
    var platformChain := (text: string) => absent;
    var none := (i: nat) => false;
    LeastIsLeast(s, p, coreChain, platformChain, none, coreBatch, platformBatch);
    assert Respects(coreChain, p.coreSource.key);
  }

  /** The number shown: all Core addresses rounded up together, both Platform chains, and every identity attempt. */
  lemma NumberShown(s: DashSettings, coreBatch: nat, platformBatch: nat)
    requires coreBatch > 0 && platformBatch > 0 && Admitted(s)
    ensures var core := (if s.scanCore then s.receiveCount + s.changeCount else 0)
                        + (if s.scanLegacyCore then 2 * s.legacyCoreCount else 0)
                        + (if s.scanCoinJoin then s.coinJoinExternalCount + s.coinJoinInternalCount else 0)
                        + (if s.scanProviderCollateral then s.providerCollateralCount else 0);
            DashSeedLookups(s, coreBatch, platformBatch)
            == Some(CeilDiv(core, coreBatch)
                    + (if s.scanPlatformAddresses then 2 * CeilDiv(s.platformCount, platformBatch) else 0)
                    + (if s.scanPlatformIdentities then s.identityLimit else 0))
  {
    CoreAddressesAre(s);
    MinimumOfDash(s, coreBatch, platformBatch);
    hide CeilDiv, CoreAddresses, DashMinimumLookups;
  }

  lemma MinimumOfDash(s: DashSettings, coreBatch: nat, platformBatch: nat)
    requires coreBatch > 0 && platformBatch > 0 && Admitted(s) && CoreAddresses(s).Some?
    ensures DashMinimumLookups(s, coreBatch, platformBatch).Some?
    ensures DashMinimumLookups(s, coreBatch, platformBatch).value.addressBatches
         == CeilDiv(CoreAddresses(s).value, coreBatch)
            + 2 * (if s.scanPlatformAddresses then CeilDiv(s.platformCount, platformBatch) else 0)
    ensures DashMinimumLookups(s, coreBatch, platformBatch).value.identityCalls
         == if s.scanPlatformIdentities then s.identityLimit else 0
  {
    hide CoreAddresses, CeilDiv, Estimated;
    EstimatedOfOne(s.scanPlatformAddresses, s.platformCount, 0);
    EstimatedOfOne(s.scanPlatformIdentities, s.identityLimit, 1);
    NoBatches(platformBatch);
  }
}

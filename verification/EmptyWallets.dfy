/** Scans of wallets without any used address, which fall short of the estimates. */
module EmptyWallets {
  import opened Text
  import opened AddressGap
  import opened Addresses
  import opened BranchScans
  import opened ScanEstimate
  import opened ScanSections
  import opened DashScans
  import opened CoinScans

  // ---------- Empty wallets ----------

  /** A text for each path: so many letters for each of its numbers. */
  function Spelled(n: Name, i: nat): string
  {
    seq(n.0, (k: nat) => 'f') + seq(n.1, (k: nat) => 'b') + seq(i, (k: nat) => 'i')
  }

  lemma SpellingsDiffer(m: Name, n: Name, i: nat, j: nat)
    requires m != n || i != j
    ensures Spelled(m, i) != Spelled(n, j)
  {
    var s, t := Spelled(m, i), Spelled(n, j);
    if |s| == |t| {
      if m.0 < n.0 {
        assert s[m.0] != 'f' && t[m.0] == 'f';
      } else if n.0 < m.0 {
        assert t[n.0] != 'f' && s[n.0] == 'f';
      } else if m.1 < n.1 {
        assert s[m.0 + m.1] == 'i' && t[m.0 + m.1] == 'b';
      } else {
        assert t[m.0 + n.1] == 'i' && s[m.0 + n.1] == 'b';
      }
    }
  }

  /** What an address of an empty wallet has come to: it is not used. */
  function Nothing(text: string): bool { false }

  /** A wallet none of whose addresses was ever used, on a provider that always answers. */
  function EmptyWallet(derive: (Name, nat) -> string): Wallet<bool>
  {
    Wallet(derive, (texts: seq<string>) => Some(seq(|texts|, (k: nat) => false)), (n: Name, j: nat) => false, false)
  }

  const USED: Source<bool> := Source((text: string) => text, (used: bool) => 0, (used: bool) => used)

  lemma EmptyWalletAnswers(derive: (Name, nat) -> string)
    ensures Answers(EmptyWallet(derive).provider, Nothing) && Respects(Nothing, USED.key)
    ensures NoneUsed(EmptyWallet(derive), Nothing, USED) && !SomeAbort(EmptyWallet(derive))
  {
  }

  /** The settings that the page starts with. */
  const PAGE_SETTINGS := DashSettings(true, 100, 100, false, 100, false, 100, 20, false, 100, true, 100, true, 100, 20)

  /** The page starts by showing 104 lookups, where an empty wallet takes 24. */
  lemma PageSettingsFallShort()
    ensures Admitted(PAGE_SETTINGS)
    ensures DashSeedLookups(PAGE_SETTINGS, 100, 100) == Some(104) && LeastDashCalls(PAGE_SETTINGS, 100, 100) == 24
  {
    var s := PAGE_SETTINGS;
    CoreAddressesAre(s);
    MinimumOfDash(s, 100, 100);
    var profiles := CoreProfiles(s);
    BatchesOfLast([], profiles[0], 100);
    BatchesOfLast([profiles[0]], profiles[1], 100);
    assert [] + [profiles[0]] == [profiles[0]] && [profiles[0]] + [profiles[1]] == profiles;
    NoneToTake(100);
    SectionBatchesOfLast([], Section(profiles, []), 100);
    assert DashSections(s, []) == [] + [Section(profiles, [])];
  }

  /** A Dash scan with the settings the page starts with, of an empty wallet: it makes 24 lookups of the 104 shown. */
  method EmptyDashScan() returns (r: Lookups)
    ensures r == Lookups(4, 20) && DashSeedLookups(PAGE_SETTINGS, 100, 100) == Some(104)
  {
    hide Answers, Respects, NoneUsed, SomeAbort, DashAddressCalls, LeastDashCalls, IdentityEnd, Admitted, DashSeedLookups,
         DashMinimumLookups, PathsDiffer, EmptyWallet;
    var wallet := EmptyWallet(Spelled);
    var p := Phrase(wallet, USED, wallet, USED);
    var none, never := (i: nat) => false, (k: nat) => false;
    EmptyWalletAnswers(Spelled);
    SpelledPathsDiffer();
    PageSettingsFallShort();
    NoneEnds(100, 20, none);
    LeastIsLeast(PAGE_SETTINGS, p, Nothing, Nothing, none, 100, 100);
    var lookUps := ScanDash(PAGE_SETTINGS, [], p, none, never, 100, 100, Nothing, Nothing);
    return lookUps.value;
  }

  lemma SpelledPathsDiffer()
    ensures PathsDiffer(EmptyWallet(Spelled), USED.key)
  {
    forall m: Name, n: Name, i: nat, j: nat | m != n || i != j ensures Spelled(m, i) != Spelled(n, j) {
      SpellingsDiffer(m, n, i, j);
    }
  }

  /** The same, with the first path that two Ethereum profiles share. */
  function SpelledForEthereum(n: Name, i: nat): string
  {
    if n == LEDGER_LIVE && i == 0 then Spelled(STANDARD, 0) else Spelled(n, i)
  }

  /** An Ethereum scan of one address for each profile, of an empty wallet: it makes two lookups of the three shown. */
  method EmptyEthereumScan(account: nat) returns (calls: nat)
    requires account < BIP32_BRANCH_SIZE
    ensures calls == 2 && EthereumMinimumLookups(1, 100) == 3
  {
    hide Answers, Respects, NoneUsed, SomeAbort, EthereumCalls, EthereumPathsDiffer, EmptyWallet;
    var wallet := EmptyWallet(SpelledForEthereum);
    EmptyWalletAnswers(SpelledForEthereum);
    SpelledEthereumPathsDiffer();
    EthereumIsLeast(wallet, 1, account, 100, Nothing, USED);
    var made := ScanEthereum(1, account, [], wallet, 100, USED, Nothing);
    return made.value;
  }

  lemma SpelledEthereumPathsDiffer()
    ensures EthereumPathsDiffer(EmptyWallet(SpelledForEthereum), USED.key)
  {
    forall m: Name, n: Name, i: nat, j: nat | (m != n || i != j) && !(SharedFirst(m, n) && i == j == 0)
      ensures SpelledForEthereum(m, i) != SpelledForEthereum(n, j)
    {
      var a, b := if m == LEDGER_LIVE && i == 0 then STANDARD else m, if n == LEDGER_LIVE && j == 0 then STANDARD else n;
      SpellingsDiffer(a, b, i, j);
    }
  }
}

/** The displayed estimate of provider lookups, and the count of candidate lines. */
module ScanEstimate {
  import opened Text
  import opened BranchScans

  // ---------- Minimum lookups ----------

  /** Dash scan settings; the counts are the numbers their fields hold. */
  datatype DashSettings = DashSettings(
    scanCore: bool, receiveCount: int, changeCount: int,
    scanLegacyCore: bool, legacyCoreCount: int,
    scanCoinJoin: bool, coinJoinExternalCount: int, coinJoinInternalCount: int,
    scanProviderCollateral: bool, providerCollateralCount: int,
    scanPlatformAddresses: bool, platformCount: int,
    scanPlatformIdentities: bool, identityLimit: int, identityGap: int
  )

  datatype Lookups = Lookups(addressBatches: nat, identityCalls: nat)

  /** `estimateInteger`: refuses a count below its minimum. */
  function Estimated(asked: bool, counts: seq<int>, minimum: nat): Option<nat>
  {
    if !asked || counts == [] then Some(0)
    else if counts[0] < minimum then None
    else match Estimated(asked, counts[1..], minimum)
      case None => None
      case Some(rest) => Some(counts[0] + rest)
  }

  /** The addresses of the selected Dash Core families. */
  function CoreAddresses(s: DashSettings): Option<nat>
  {
    var core := Estimated(s.scanCore, [s.receiveCount, s.changeCount], 0);
    var legacy := Estimated(s.scanCore && s.scanLegacyCore, [s.legacyCoreCount, s.legacyCoreCount], 0);
    var coinJoin := Estimated(s.scanCore && s.scanCoinJoin, [s.coinJoinExternalCount, s.coinJoinInternalCount], 0);
    var collateral := Estimated(s.scanCore && s.scanProviderCollateral, [s.providerCollateralCount], 0);
    if core.None? || legacy.None? || coinJoin.None? || collateral.None? then None
    else Some(core.value + legacy.value + coinJoin.value + collateral.value)
  }

  /** `dashMinimumLookups`; None is the refusal of a count. */
  function DashMinimumLookups(s: DashSettings, coreBatch: nat, platformBatch: nat): Option<Lookups>
    requires coreBatch > 0 && platformBatch > 0
  {
    var core, platform := CoreAddresses(s), Estimated(s.scanPlatformAddresses, [s.platformCount], 0);
    var identities := Estimated(s.scanPlatformIdentities, [s.identityLimit], 1);
    if core.None? || platform.None? || identities.None? then None
    else Some(Lookups(CeilDiv(core.value, coreBatch) + 2 * CeilDiv(platform.value, platformBatch), identities.value))
  }

  /** `dashSeedLookups`: the number shown as the least a seed phrase takes. */
  function DashSeedLookups(s: DashSettings, coreBatch: nat, platformBatch: nat): Option<nat>
    requires coreBatch > 0 && platformBatch > 0
  {
    match DashMinimumLookups(s, coreBatch, platformBatch)
    case None => None
    case Some(least) => Some(least.addressBatches + least.identityCalls)
  }

  /** The estimate is refused exactly for a negative count of something selected, or an identity limit below 1. */
  lemma EstimateRefuses(s: DashSettings, coreBatch: nat, platformBatch: nat)
    requires coreBatch > 0 && platformBatch > 0
    ensures DashSeedLookups(s, coreBatch, platformBatch).None? <==>
              || (s.scanCore && (s.receiveCount < 0 || s.changeCount < 0))
              || (s.scanCore && s.scanLegacyCore && s.legacyCoreCount < 0)
              || (s.scanCore && s.scanCoinJoin && (s.coinJoinExternalCount < 0 || s.coinJoinInternalCount < 0))
              || (s.scanCore && s.scanProviderCollateral && s.providerCollateralCount < 0)
              || (s.scanPlatformAddresses && s.platformCount < 0)
              || (s.scanPlatformIdentities && s.identityLimit < 1)
  {
    TwoAreRefused(s.scanCore, s.receiveCount, s.changeCount);
    TwoAreRefused(s.scanCore && s.scanLegacyCore, s.legacyCoreCount, s.legacyCoreCount);
    TwoAreRefused(s.scanCore && s.scanCoinJoin, s.coinJoinExternalCount, s.coinJoinInternalCount);
    OneIsRefused(s.scanCore && s.scanProviderCollateral, s.providerCollateralCount, 0);
    OneIsRefused(s.scanPlatformAddresses, s.platformCount, 0);
    OneIsRefused(s.scanPlatformIdentities, s.identityLimit, 1);
    hide Estimated;
  }

  lemma OneIsRefused(asked: bool, count: int, minimum: nat)
    ensures Estimated(asked, [count], minimum).None? <==> asked && count < minimum
  {
    assert [count][1..] == [];
  }

  lemma TwoAreRefused(asked: bool, a: int, b: int)
    ensures Estimated(asked, [a, b], 0).None? <==> asked && (a < 0 || b < 0)
  {
    OneIsRefused(asked, b, 0);
    assert [a, b][1..] == [b];
  }

  /** What each of the four standard families of Bitcoin takes, on its receive and its change branch. */
  function BitcoinMinimumLookups(receiveCount: nat, changeCount: nat, batchSize: nat): nat
    requires batchSize > 0
  {
    4 * (CeilDiv(receiveCount, batchSize) + CeilDiv(changeCount, batchSize))
  }

  /** What each of the three standard profiles of Ethereum takes. */
  function EthereumMinimumLookups(receiveCount: nat, batchSize: nat): nat
    requires batchSize > 0
  {
    3 * CeilDiv(receiveCount, batchSize)
  }

  // ---------- Candidate lines ----------

  predicate Blank(line: string) { forall c | c in line :: IsSpace(c) }

  function NonBlank(lines: seq<string>): nat
  {
    if lines == [] then 0
    else NonBlank(lines[..|lines| - 1]) + if Trim(lines[|lines| - 1]) != "" then 1 else 0
  }

  /** Trimming leaves something exactly when a character is not white space. */
  lemma {:induction false} TrimOfBlank(line: string)
    ensures Trim(line) == "" <==> Blank(line)
    decreases |line|
  {
    if line != "" {
      if IsSpace(line[0]) {
        TrimOfBlank(line[1..]);
        assert line == [line[0]] + line[1..];
      } else {
        assert line[0] in line;
        if IsSpace(line[|line| - 1]) {
          var front := line[..|line| - 1];
          TrimOfBlank(front);
          assert front[0] in front;
        }
      }
    }
  }

  lemma NonBlankOfLast(front: seq<string>, last: string)
    ensures NonBlank(front + [last]) == NonBlank(front) + if Blank(last) then 0 else 1
  {
    assert (front + [last])[..|front|] == front;
    TrimOfBlank(last);
  }

  /** `countCandidateLines`: the lines that still hold text when trimmed, counted in one pass. */
  method CountCandidateLines(text: string) returns (lines: nat)
    ensures lines == NonBlank(LinesOf(text))
  {
    var count, lineHasText := 0, false;
    NonBlankOfLast([], "");
    assert [] + [""] == [""];
    for i := 0 to |text|
      invariant var seen := LinesOf(text[..i]);
                && (lineHasText <==> !Blank(seen[|seen| - 1]))
                && NonBlank(seen) == count + if lineHasText then 1 else 0
    {
      var character := text[i];
      ghost var seen := LinesOf(text[..i]);
      OneMoreCharacter(text, i);
      if character == '\n' {
        if lineHasText {
          count := count + 1;
        }
        lineHasText := false;
      } else if !IsSpace(character) {
        lineHasText := true;
      }
    }
    assert text[..|text|] == text;
    return if lineHasText then count + 1 else count;
  }

  /** What one more character does to the last line and to the count. */
  lemma OneMoreCharacter(text: string, i: nat)
    requires i < |text|
    ensures var seen, next, c := LinesOf(text[..i]), LinesOf(text[..i + 1]), text[i];
            var open := seen[|seen| - 1];
            && (c == '\n' ==> Blank(next[|next| - 1]) && NonBlank(next) == NonBlank(seen))
            && (c != '\n' ==>
                  && (Blank(next[|next| - 1]) <==> Blank(open) && IsSpace(c))
                  && NonBlank(next) == NonBlank(seen) + if Blank(open) && !IsSpace(c) then 1 else 0)
  {
    var seen, c := LinesOf(text[..i]), text[i];
    assert text[..i + 1][..i] == text[..i];
    var front, open := seen[..|seen| - 1], seen[|seen| - 1];
    assert seen == front + [open];
    NonBlankOfLast(front, open);
    NonBlankOfLast(front, open + [c]);
    NonBlankOfLast(seen, "");
    assert Blank(open + [c]) <==> Blank(open) && IsSpace(c) by {
      assert c in open + [c] && forall d | d in open :: d in open + [c];
    }
  }
}

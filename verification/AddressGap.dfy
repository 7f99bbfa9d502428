/** The gap limit: how a used address pushes the target of its branch on. */
module AddressGap {

  const ADDRESS_DISCOVERY_GAP := 20
  const BIP32_BRANCH_SIZE := 0x8000_0000

  function Min(a: nat, b: nat): nat { if a <= b then a else b }

  function Max(a: nat, b: nat): nat { if a >= b then a else b }

  /** A full gap after `usedIndex` does not fit into `maximum` addresses. */
  predicate Cuts(usedIndex: nat, maximum: nat) { usedIndex + 1 + ADDRESS_DISCOVERY_GAP > maximum }

  /** `extendAddressTarget`: the target and whether the gap was cut short. */
  function ExtendAddressTarget(target: nat, usedIndex: nat, maximum: nat): (r: (nat, bool))
    ensures r.1 <==> usedIndex + 21 > maximum
    ensures var wanted := if r.1 then maximum else usedIndex + 21;
            r.0 >= target && r.0 >= wanted && (r.0 == target || r.0 == wanted)
  {
    var desired := usedIndex + 1 + ADDRESS_DISCOVERY_GAP;
    (Max(target, Min(maximum, desired)), desired > maximum)
  }

  class AddressGapTracker {
    var truncated: bool

    constructor ()
      ensures !truncated
    {
      truncated := false;
    }

    /** `extend`: remembers whether one gap was cut short. */
    method Extend(target: nat, usedIndex: nat, maximum: nat) returns (r: nat)
      modifies this
      ensures r == ExtendAddressTarget(target, usedIndex, maximum).0
      ensures truncated == (old(truncated) || Cuts(usedIndex, maximum))
    {
      var extension := ExtendAddressTarget(target, usedIndex, maximum);
      truncated := truncated || extension.1;
      return extension.0;
    }
  }
}

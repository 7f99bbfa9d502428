/** Preset policy requests: which ones the builder admits, and the conditions they ask for. */
module PolicyRequest {
  import opened Text
  import opened DescriptorSyntax
  import opened RelativeLocks
  import opened KeyOrder

  // ---------- Requests ----------

  datatype Coin = Bitcoin | Dash

  datatype Wrapper = P2wsh | P2sh | P2tr

  datatype Order = Supplied | Bip67

  datatype HashKind = Sha256 | Hash256 | Ripemd160 | Hash160

  datatype Mode =
    | LockedMultisig | DelayedRecovery | DelayedRecoveryMultisig | BackupCommittee
    | DecayingMultisig | ExpandingMultisig | StagedRecovery | EscalatingRecovery | HashTimeLocked

  datatype Request = Request(
    coin: Coin,
    required: int,
    publicKeys: seq<string>,
    keyOrder: Order,
    lockKind: LockKind,
    lockValue: int,
    wrapper: Wrapper,
    mode: Mode,
    recoveryPublicKey: Option<string>,
    recoveryPublicKeys: Option<seq<string>>,
    recoveryRequired: Option<int>,
    secondLockKind: Option<LockKind>,
    secondLockValue: Option<int>,
    emergencyPublicKeys: Option<seq<string>>,
    emergencyRequired: Option<int>,
    hashKind: Option<HashKind>,
    hashDigest: Option<string>
  ) {
    predicate Tapscript() { wrapper == P2tr }
  }

  function OrDefault<T>(value: Option<T>, default: T): T
  {
    match value case Some(v) => v case None => default
  }

  function Min(a: int, b: int): int { if a <= b then a else b }

  function Max(a: int, b: int): int { if a >= b then a else b }

  // ---------- Public keys ----------

  function Normal(value: string): string { Lower(Trim(value)) }

  /** Blanks, tabs and line ends around a key do not matter, nor does the case of its digits. */
  lemma NormalOfTyped(before: string, typed: string, after: string, key: string)
    requires forall c | c in before + after :: c == ' ' || c == '\t' || c == '\r' || c == '\n'
    requires |typed| == |key| && key != "" && AllHex(key)
    requires forall i | 0 <= i < |key| :: typed[i] == key[i] || ('a' <= key[i] <= 'f' && typed[i] == key[i] - 'a' + 'A')
    ensures Normal(before + typed + after) == key
  {
    forall i | 0 <= i < |key| ensures !IsSpace(typed[i]) && Lower(typed)[i] == key[i] {
      assert key[i] in key;
      assert IsHex(key[i]);
      if typed[i] != key[i] {
        assert typed[i] as int == key[i] as int - 'a' as int + 'A' as int;
      }
    }
    TrimOf(before, typed, after);
  }

  predicate IsCompressedKey(key: string)
  {
    |key| == 66 && key[0] == '0' && (key[1] == '2' || key[1] == '3') && AllHex(key)
  }

  function Normals(values: seq<string>): (r: seq<string>)
    ensures |r| == |values| && forall i | 0 <= i < |values| :: r[i] == Normal(values[i])
  {
    seq(|values|, i requires 0 <= i < |values| => Normal(values[i]))
  }

  /** What `validatePublicKeys` accepts; `isPoint` stands for the secp256k1 decoder. */
  predicate AdmittedKeys(values: seq<string>, isPoint: string -> bool)
  {
    && 1 <= |values| <= 20
    && Points(Normals(values), isPoint)
    && Distinct(Normals(values))
  }

  predicate Points(keys: seq<string>, isPoint: string -> bool)
  {
    forall i | 0 <= i < |keys| :: IsCompressedKey(keys[i]) && isPoint(keys[i])
  }

  /** `validatePublicKeys`: the normalized keys, or the refusal of the first bad one. */
  method ValidatePublicKeys(values: seq<string>, isPoint: string -> bool) returns (r: Option<seq<string>>)
    ensures r == if AdmittedKeys(values, isPoint) then Some(Normals(values)) else None
    ensures r.Some? <==>
              && 1 <= |values| <= 20
              && (forall i | 0 <= i < |values| :: IsPublicKey(Normal(values[i])) && isPoint(Normal(values[i])))
              && (forall i, j | 0 <= i < j < |values| :: Normal(values[i]) != Normal(values[j]))
    ensures r.Some? ==> |r.value| == |values| && forall i | 0 <= i < |values| :: r.value[i] == Normal(values[i])
  {
    KeyFormat(values, isPoint);
    if |values| < 1 || |values| > 20 {
      return None;
    }
    var seen: set<string> := {};
    var keys: seq<string> := [];
    ghost var all := Normals(values);
    for index := 0 to |values|
      invariant keys == all[..index]
      invariant forall key :: key in seen <==> key in keys
      invariant Distinct(keys) && Points(keys, isPoint)
    {
      var normalized := Normal(values[index]);
      assert normalized == all[index];
      if !IsCompressedKey(normalized) {
        return None;
      }
      if normalized in seen {
        ghost var first :| 0 <= first < index && keys[first] == normalized;
        assert all[first] == all[index];
        return None;
      }
      seen := seen + {normalized};
      if !isPoint(normalized) {
        return None;
      }
      DistinctAppend(keys, normalized);
      keys := keys + [normalized];
    }
    assert all[..|values|] == all;
    return Some(keys);
  }

  /** `/^(02|03)[0-9a-f]{64}$/`. */
  predicate IsPublicKey(text: string)
  {
    && |text| == 66 && ("02" <= text || "03" <= text)
    && forall i | 2 <= i < 66 :: '0' <= text[i] <= '9' || 'a' <= text[i] <= 'f'
  }

  lemma CompressedIsPublic(text: string)
    ensures IsPublicKey(text) <==> IsCompressedKey(text)
  {
    if |text| == 66 {
      assert "02" <= text <==> text[0] == '0' && text[1] == '2';
      assert "03" <= text <==> text[0] == '0' && text[1] == '3';
      if IsPublicKey(text) {
        forall c | c in text ensures IsHex(c) {
          var i :| 0 <= i < 66 && text[i] == c;
        }
      } else if AllHex(text) {
        assert forall i | 2 <= i < 66 :: text[i] in text;
      }
    }
  }

  lemma KeyFormat(values: seq<string>, isPoint: string -> bool)
    ensures AdmittedKeys(values, isPoint) <==>
              && 1 <= |values| <= 20
              && (forall i | 0 <= i < |values| :: IsPublicKey(Normal(values[i])) && isPoint(Normal(values[i])))
              && (forall i, j | 0 <= i < j < |values| :: Normal(values[i]) != Normal(values[j]))
  {
    forall text ensures IsPublicKey(text) <==> IsCompressedKey(text) {
      CompressedIsPublic(text);
    }
    hide IsPublicKey, IsCompressedKey, Normal;
  }

  lemma DistinctAppend(keys: seq<string>, key: string)
    requires Distinct(keys) && key !in keys
    ensures Distinct(keys + [key])
  {
  }

  /** The keys as scripts commit to them: x-only in Tapscript. */
  function ScriptKeys(values: seq<string>, tapscript: bool): (r: seq<string>)
    ensures |r| == |values|
  {
    seq(|values|, i requires 0 <= i < |values| => ScriptKey(Normal(values[i]), tapscript))
  }

  function ScriptKey(key: string, tapscript: bool): string
  {
    if tapscript && |key| >= 2 then key[2..] else key
  }

  /** `key` is what a script commits to of the public key `text`: the 64 digits behind its parity in Tapscript. */
  predicate CommitsTo(key: string, text: string, tapscript: bool)
  {
    if tapscript then |key| == 64 && (text == "02" + key || text == "03" + key) else key == text
  }

  lemma ScriptKeyCommits(text: string, tapscript: bool)
    requires IsCompressedKey(text)
    ensures CommitsTo(ScriptKey(text, tapscript), text, tapscript)
    ensures forall key :: CommitsTo(key, text, tapscript) ==> key == ScriptKey(text, tapscript)
  {
    assert text == text[..2] + text[2..];
    assert text[..2] == "02" || text[..2] == "03";
  }

  predicate AdmittedScriptKeys(values: seq<string>, isPoint: string -> bool, tapscript: bool)
  {
    AdmittedKeys(values, isPoint) && (tapscript ==> Distinct(ScriptKeys(values, true)))
  }

  function Arranged(keys: seq<string>, order: Order): (r: seq<string>)
    ensures multiset(r) == multiset(keys) && |r| == |keys|
  {
    if order == Bip67 then Sort(keys) else keys
  }

  /** A key text as the builder writes it. */
  predicate GoodKey(key: string) { AllHex(key) && |key| > 1 }

  predicate GoodKeys(keys: seq<string>) { forall key | key in keys :: GoodKey(key) }

  lemma ScriptKeysAreGood(values: seq<string>, isPoint: string -> bool, tapscript: bool, order: Order)
    requires AdmittedKeys(values, isPoint)
    ensures GoodKeys(ScriptKeys(values, tapscript)) && GoodKeys(Arranged(ScriptKeys(values, tapscript), order))
  {
    var keys := ScriptKeys(values, tapscript);
    forall i | 0 <= i < |keys| ensures GoodKey(keys[i]) {
      assert IsCompressedKey(Normals(values)[i]);
    }
    ArrangedIsGood(keys, order);
  }

  lemma ArrangedIsGood(keys: seq<string>, order: Order)
    requires GoodKeys(keys)
    ensures GoodKeys(Arranged(keys, order))
  {
    forall key | key in Arranged(keys, order) ensures key in keys {
      assert key in multiset(Arranged(keys, order));
    }
  }

  // ---------- The emitted Miniscript ----------

  function MultisigName(tapscript: bool): string { if tapscript then "multi_a" else "multi" }

  function MultisigMiniscript(keys: seq<string>, required: int, tapscript: bool): string
  {
    MultisigName(tapscript) + "(" + (IntText(required) + "," + Join(keys)) + ")"
  }

  function SigningMiniscript(keys: seq<string>, required: int, tapscript: bool): string
  {
    if |keys| == 1 && required == 1 then "pk" + "(" + keys[0] + ")"
    else MultisigMiniscript(keys, required, tapscript)
  }

  function Fragment(lock: PolicyLock): string
  {
    match lock
    case Free => ""
    case After(operand) => "after" + "(" + Decimal(operand) + ")"
    case Older(operand) => "older" + "(" + Decimal(operand) + ")"
  }

  function LockedMiniscript(inner: string, lock: PolicyLock): string
  {
    if lock == Free then inner else "and_v" + "(" + ("v:" + Fragment(lock) + "," + inner) + ")"
  }

  // ---------- The conditions a request asks for ----------

  /** How a set of keys signs: an m-of-n multisig, or one key in a named key fragment. */
  datatype Form = Multisig | SingleKey(name: string)

  datatype Signature = Signature(form: Form, required: int, keys: seq<string>) {
    predicate Good() {
      && GoodKeys(keys) && keys != []
      && (form.SingleKey? ==> |keys| == 1 && required == 1 && (form.name == "pk" || form.name == "pkh"))
    }
  }

  /** The alternatives of a preset, in the order the emitted policy lists them. */
  datatype Shape =
    | Locked(primary: Signature, lock: PolicyLock)
    | Recovery(primary: Signature, second: Signature, lock: PolicyLock)
    | Escalating(primary: Signature, second: Signature, lock: PolicyLock, third: Signature, thirdLock: PolicyLock)
    | Staged(primary: Signature, second: Signature, lock: PolicyLock, third: Signature, thirdLock: PolicyLock)
    | Hashlock(primary: Signature, hash: HashKind, digest: string, second: Signature, lock: PolicyLock)
  {
    predicate Good() {
      && primary.Good()
      && (!Locked? ==> second.Good() && lock != Free)
      && (Escalating? || Staged? ==> third.Good() && thirdLock != Free)
      && (Hashlock? ==> GoodKey(digest))
    }
  }

  function Multi(values: seq<string>, required: int, request: Request): Signature
  {
    Signature(Multisig, required, Arranged(ScriptKeys(values, request.Tapscript()), request.keyOrder))
  }

  function Signing(values: seq<string>, required: int, request: Request): Signature
  {
    var multi := Multi(values, required, request);
    if |values| == 1 && required == 1 then multi.(form := SingleKey("pk")) else multi
  }

  /** One key in the fragment `name`. */
  function Single(values: seq<string>, name: string, request: Request): Signature
  {
    Signature(SingleKey(name), 1, ScriptKeys(values, request.Tapscript()))
  }

  function HashName(hash: HashKind): (name: string)
    ensures IsHash(name) && IsOrdinary(name)
  {
    match hash case Sha256 => "sha256" case Hash256 => "hash256" case Ripemd160 => "ripemd160" case Hash160 => "hash160"
  }

  function DigestLength(hash: HashKind): nat
  {
    if hash == Sha256 || hash == Hash256 then 64 else 40
  }

  function RecoveryKeys(request: Request): seq<string> { OrDefault(request.recoveryPublicKeys, []) }

  function EmergencyKeys(request: Request): seq<string> { OrDefault(request.emergencyPublicKeys, []) }

  /** The recovery threshold that a request names, or the default of its mode. */
  function RecoveryRequired(request: Request): int
  {
    OrDefault(request.recoveryRequired,
       match request.mode
       case DecayingMultisig => Max(1, request.required - 1)
       case ExpandingMultisig => request.required
       case _ => Min(request.required, |RecoveryKeys(request)|))
  }

  function EmergencyRequired(request: Request): int
  {
    OrDefault(request.emergencyRequired, Min(RecoveryRequired(request), |EmergencyKeys(request)|))
  }

  /** What `buildPolicy` checks before its modes part ways. */
  predicate Common(request: Request, isPoint: string -> bool)
  {
    && (request.coin == Dash ==> request.wrapper == P2sh)
    && AdmittedScriptKeys(request.publicKeys, isPoint, request.Tapscript())
    && 1 <= request.required <= |request.publicKeys|
  }

  /** The conditions of an admitted preset request; None is the refusal of the builder's own checks. */
  function ShapeOf(request: Request, isPoint: string -> bool): Option<Shape>
  {
    if !Common(request, isPoint) then None
    else
      var tapscript, mode := request.Tapscript(), request.mode;
      var primary := Multi(request.publicKeys, request.required, request);
      var lock := MakeLock(request.lockKind, request.lockValue);
      if mode == LockedMultisig then
        if lock.Err? then None else Some(Locked(primary, lock.value))
      else if request.lockKind == NoLock || lock.Err? then None
      else match mode
        case HashTimeLocked =>
          var recovery, required := RecoveryKeys(request), RecoveryRequired(request);
          var hash, digest := OrDefault(request.hashKind, Sha256), Normal(OrDefault(request.hashDigest, ""));
          if !AdmittedScriptKeys(recovery, isPoint, tapscript) || !(1 <= required <= |recovery|)
             || !(|digest| == DigestLength(hash) && AllHex(digest)) then None
          else Some(Hashlock(Signing(request.publicKeys, request.required, request), hash, digest,
                             Signing(recovery, required, request), lock.value))
        case StagedRecovery =>
          var recovery, emergency := RecoveryKeys(request), EmergencyKeys(request);
          var second := SecondLock(request);
          if |request.publicKeys| != 1 || |recovery| != 1 || |emergency| != 1 || second.None?
             || !AdmittedScriptKeys(recovery, isPoint, tapscript) || !AdmittedScriptKeys(emergency, isPoint, tapscript)
          then None
          else
            var check := if tapscript then "pk" else "pkh";
            Some(Staged(Single(request.publicKeys, "pk", request), Single(recovery, check, request), lock.value,
                        Single(emergency, check, request), second.value))
        case EscalatingRecovery =>
          var recovery, emergency := RecoveryKeys(request), EmergencyKeys(request);
          var second := SecondLock(request);
          if second.None? || !AdmittedScriptKeys(recovery, isPoint, tapscript)
             || !AdmittedScriptKeys(emergency, isPoint, tapscript) then None
          else Some(Escalating(primary, Multi(recovery, RecoveryRequired(request), request), lock.value,
                               Multi(emergency, EmergencyRequired(request), request), second.value))
        case _ =>
          match RecoverySignature(request, isPoint)
          case None => None
          case Some(second) => Some(Recovery(primary, second, lock.value))
  }

  /** Who signs once the lock is open, in the modes with one delayed branch. */
  function RecoverySignature(request: Request, isPoint: string -> bool): Option<Signature>
  {
    var tapscript, recovery := request.Tapscript(), RecoveryKeys(request);
    match request.mode
    case DelayedRecovery =>
      var keys := OrDefault(request.recoveryPublicKeys, [OrDefault(request.recoveryPublicKey, "")]);
      if |keys| != 1 || !AdmittedScriptKeys(keys, isPoint, tapscript) then None
      else Some(Single(keys, "pk", request))
    case DecayingMultisig =>
      if RecoveryRequired(request) >= request.required then None
      else Some(Multi(request.publicKeys, RecoveryRequired(request), request))
    case ExpandingMultisig =>
      if !AdmittedScriptKeys(recovery, isPoint, tapscript) || !Disjoint(request) then None
      else Some(Multi(request.publicKeys + recovery, RecoveryRequired(request), request))
    case _ =>
      if !AdmittedScriptKeys(recovery, isPoint, tapscript) then None
      else Some(Multi(recovery, RecoveryRequired(request), request))
  }

  /** The second lock of a two-stage recovery; it must be a real one. */
  function SecondLock(request: Request): Option<PolicyLock>
  {
    if OrDefault(request.secondLockKind, NoLock) == NoLock then None
    else match MakeLock(request.secondLockKind.value, OrDefault(request.secondLockValue, 0))
      case Err(_) => None
      case Ok(lock) => Some(lock)
  }

  /** No additional key of an expanding multisig is a primary one. */
  predicate Disjoint(request: Request)
  {
    var primary := ScriptKeys(request.publicKeys, request.Tapscript());
    forall key | key in ScriptKeys(RecoveryKeys(request), request.Tapscript()) :: key !in primary
  }
}

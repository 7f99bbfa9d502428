/** What each preset admits and emits, spelled out mode by mode. */
module PresetTexts {
  import opened Text
  import opened DescriptorSyntax
  import opened KeyOrder
  import opened RelativeLocks
  import opened PolicyRequest
  import opened PolicyTree
  import opened PolicyBuilder

  // ---------- The texts ----------

  /** The keys that the script of `request` commits to for `values`; `ScriptKeysInOrder` says which they are. */
  function KeysOf(values: seq<string>, request: Request): seq<string>
  {
    Arranged(ScriptKeys(values, request.Tapscript()), request.keyOrder)
  }

  /** `required` of `keys`: multi_a in Tapscript, multi everywhere else. */
  function QuorumText(required: int, keys: seq<string>, request: Request): string
  {
    (if request.wrapper == P2tr then "multi_a(" else "multi(") + IntText(required) + "," + Join(keys) + ")"
  }

  /** As `QuorumText`, but a lone key that must sign stands in pk. */
  function SignersText(required: int, keys: seq<string>, request: Request): string
  {
    if |keys| == 1 && required == 1 then "pk(" + keys[0] + ")" else QuorumText(required, keys, request)
  }

  function LockText(kind: LockKind, value: int): string
  {
    match kind
    case NoLock => ""
    case Height => "after(" + IntText(value) + ")"
    case Time => "after(" + IntText(value) + ")"
    case RelativeBlocks => "older(" + IntText(value) + ")"
    case RelativeTime => "older(" + IntText(0x40_0000 + (value + 511) / 512) + ")"
  }

  function Behind(kind: LockKind, value: int, inner: string): string
  {
    if kind == NoLock then inner else "and_v(v:" + LockText(kind, value) + "," + inner + ")"
  }

  function FirstLocked(request: Request, inner: string): string
  {
    Behind(request.lockKind, request.lockValue, inner)
  }

  function SecondLocked(request: Request, inner: string): string
  {
    Behind(OrDefault(request.secondLockKind, NoLock), OrDefault(request.secondLockValue, 0), inner)
  }

  /** The recovery threshold when the request names none. */
  function DefaultRecovery(request: Request): int
  {
    var keys := |RecoveryKeys(request)|;
    match request.mode
    case DecayingMultisig => if request.required <= 2 then 1 else request.required - 1
    case ExpandingMultisig => request.required
    case _ => if request.required <= keys then request.required else keys
  }

  function RecoveryCount(request: Request): int
  {
    match request.recoveryRequired case Some(n) => n case None => DefaultRecovery(request)
  }

  function EmergencyCount(request: Request): int
  {
    match request.emergencyRequired
    case Some(n) => n
    case None =>
      var keys := |EmergencyKeys(request)|;
      if RecoveryCount(request) <= keys then RecoveryCount(request) else keys
  }

  function HashText(request: Request): string
  {
    (match OrDefault(request.hashKind, Sha256)
     case Sha256 => "sha256(" case Hash256 => "hash256(" case Ripemd160 => "ripemd160(" case Hash160 => "hash160(")
    + Normal(OrDefault(request.hashDigest, "")) + ")"
  }

  /** A stage of staged recovery: a key check, pk in Tapscript and pkh outside it, then its lock. */
  function StageText(request: Request, key: string, lock: string): string
  {
    "and_v(v:" + (if request.wrapper == P2tr then "pk(" else "pkh(") + key + ")," + lock + ")"
  }

  /** The only key of a delayed recovery. */
  function LoneKey(request: Request): string
  {
    match request.recoveryPublicKeys
    case Some(keys) => if keys == [] then "" else keys[0]
    case None => OrDefault(request.recoveryPublicKey, "")
  }

  function KeyOf(value: string, request: Request): string { ScriptKey(Normal(value), request.Tapscript()) }

  /** The Miniscript of a preset, spelled out. */
  function PresetText(request: Request): string
  {
    var keys, recovery := KeysOf(request.publicKeys, request), KeysOf(RecoveryKeys(request), request);
    var primary := QuorumText(request.required, keys, request);
    var second := QuorumText(RecoveryCount(request), recovery, request);
    match request.mode
    case LockedMultisig => FirstLocked(request, primary)
    case DelayedRecovery =>
      "or_i(" + primary + "," + FirstLocked(request, "pk(" + KeyOf(LoneKey(request), request) + ")") + ")"
    case DelayedRecoveryMultisig => "or_i(" + primary + "," + FirstLocked(request, second) + ")"
    case BackupCommittee => "or_i(" + primary + "," + FirstLocked(request, second) + ")"
    case DecayingMultisig =>
      "or_i(" + primary + "," + FirstLocked(request, QuorumText(RecoveryCount(request), keys, request)) + ")"
    case ExpandingMultisig =>
      var all := KeysOf(request.publicKeys + RecoveryKeys(request), request);
      "or_i(" + primary + "," + FirstLocked(request, QuorumText(RecoveryCount(request), all, request)) + ")"
    case StagedRecovery =>
      if request.publicKeys == [] || RecoveryKeys(request) == [] || EmergencyKeys(request) == [] then ""
      else
        var first := LockText(request.lockKind, request.lockValue);
        var last := LockText(OrDefault(request.secondLockKind, NoLock), OrDefault(request.secondLockValue, 0));
        "or_d(pk(" + KeyOf(request.publicKeys[0], request) + "),or_i("
        + StageText(request, KeyOf(RecoveryKeys(request)[0], request), first) + ","
        + StageText(request, KeyOf(EmergencyKeys(request)[0], request), last) + "))"
    case EscalatingRecovery =>
      var third := QuorumText(EmergencyCount(request), KeysOf(EmergencyKeys(request), request), request);
      "or_i(" + primary + ",or_i(" + FirstLocked(request, second) + "," + SecondLocked(request, third) + "))"
    case HashTimeLocked =>
      "andor(" + SignersText(request.required, keys, request) + "," + HashText(request) + ","
      + FirstLocked(request, SignersText(RecoveryCount(request), recovery, request)) + ")"
  }

  // ---------- The builder emits them ----------

  /** A written lock is the lock text of what was asked for. */
  lemma LockSpelled(kind: LockKind, value: int, inner: string)
    requires MakeLock(kind, value).Ok?
    ensures Fragment(MakeLock(kind, value).value) == LockText(kind, value)
    ensures LockedMiniscript(inner, MakeLock(kind, value).value) == Behind(kind, value, inner)
  {
    var lock := MakeLock(kind, value).value;
    LockAdmission(kind, value);
    if kind == RelativeTime {
      TimeSequence(UnitsOf(value));
    }
    hide Decimal, BitOr;
    if lock != Free {
      CallSpelled("after", IntText(lock.operand));
      CallSpelled("older", IntText(lock.operand));
      assert "after" + "(" == "after(" && "older" + "(" == "older(";
      PairSpelled("and_v", "v:" + Fragment(lock), inner);
      assert "and_v" + "(" + ("v:" + Fragment(lock)) == "and_v(v:" + Fragment(lock);
    }
  }

  lemma CallSpelled(name: string, inner: string)
    ensures name + "(" + inner + ")" == (name + "(") + inner + ")"
  {
  }

  lemma PairSpelled(name: string, a: string, b: string)
    ensures name + "(" + (a + "," + b) + ")" == (name + "(" + a) + "," + b + ")"
  {
  }

  lemma QuorumSpelled(required: int, keys: seq<string>, request: Request)
    ensures MultisigMiniscript(keys, required, request.Tapscript()) == QuorumText(required, keys, request)
    ensures SigningMiniscript(keys, required, request.Tapscript()) == SignersText(required, keys, request)
  {
    hide IntText, Join;
    PairSpelled(MultisigName(request.Tapscript()), IntText(required), Join(keys));
    assert "multi_a" + "(" == "multi_a(" && "multi" + "(" == "multi(" && "pk" + "(" == "pk(";
  }

  lemma ThresholdsSpelled(request: Request)
    ensures RecoveryRequired(request) == RecoveryCount(request) && EmergencyRequired(request) == EmergencyCount(request)
  {
  }

  lemma ChoiceSpelled(a: string, b: string)
    ensures "or_i" + "(" + (a + "," + b) + ")" == "or_i(" + a + "," + b + ")"
  {
    PairSpelled("or_i", a, b);
    assert "or_i" + "(" == "or_i(";
  }

  lemma LockedText(request: Request, isPoint: string -> bool)
    requires ShapeOf(request, isPoint).Some? && request.mode == LockedMultisig
    ensures EmittedText(request, isPoint) == PresetText(request)
  {
    hide IntText, Join, ScriptKeys, Arranged, QuorumText, MultisigMiniscript, LockedMiniscript, Behind, MakeLock, AdmittedScriptKeys;
    ShapeIsGood(request, isPoint);
    var shape, tapscript := ShapeOf(request, isPoint).value, request.Tapscript();
    var keys := KeysOf(request.publicKeys, request);
    PrintOfMultisig(keys, request.required, tapscript);
    PrintOfLocked(SignatureNode(shape.primary, tapscript, ""), shape.lock);
    QuorumSpelled(request.required, keys, request);
    LockSpelled(request.lockKind, request.lockValue, QuorumText(request.required, keys, request));
  }

  /** The text of the delayed branch before its lock. */
  function DelayedText(request: Request): string
  {
    match request.mode
    case DelayedRecovery => "pk(" + KeyOf(LoneKey(request), request) + ")"
    case DecayingMultisig => QuorumText(RecoveryCount(request), KeysOf(request.publicKeys, request), request)
    case ExpandingMultisig =>
      QuorumText(RecoveryCount(request), KeysOf(request.publicKeys + RecoveryKeys(request), request), request)
    case _ => QuorumText(RecoveryCount(request), KeysOf(RecoveryKeys(request), request), request)
  }

  lemma DelayedSpelled(request: Request, isPoint: string -> bool)
    requires HasOneRecovery(request.mode) && RecoverySignature(request, isPoint).Some?
    requires RecoverySignature(request, isPoint).value.Good()
    ensures Print(SignatureNode(RecoverySignature(request, isPoint).value, request.Tapscript(), "")) == DelayedText(request)
  {
    hide IntText, Join, Arranged, QuorumText, MultisigMiniscript, AdmittedScriptKeys, Disjoint, RecoveryRequired, ScriptKey, Normal;
    var second, tapscript := RecoverySignature(request, isPoint).value, request.Tapscript();
    ThresholdsSpelled(request);
    if request.mode == DelayedRecovery {
      var keys := OrDefault(request.recoveryPublicKeys, [OrDefault(request.recoveryPublicKey, "")]);
      assert second.keys[0] == KeyOf(keys[0], request) && keys[0] == LoneKey(request);
      PrintOfOne("pk", Leaf(second.keys[0]));
      assert "pk" + "(" == "pk(";
    } else {
      PrintOfMultisig(second.keys, second.required, tapscript);
      QuorumSpelled(second.required, second.keys, request);
    }
  }

  lemma RecoveryTexts(request: Request, isPoint: string -> bool)
    requires ShapeOf(request, isPoint).Some? && HasOneRecovery(request.mode)
    ensures EmittedText(request, isPoint) == PresetText(request)
  {
    hide IntText, Join, ScriptKeys, Arranged, QuorumText, MultisigMiniscript, LockedMiniscript, Behind, MakeLock, Common,
         EmittedText, RecoverySignature, KeyOf, LoneKey, RecoveryCount;
    ShapeIsGood(request, isPoint);
    var keys := KeysOf(request.publicKeys, request);
    DelayedSpelled(request, isPoint);
    RecoveryText(request, isPoint, DelayedText(request));
    QuorumSpelled(request.required, keys, request);
    LockSpelled(request.lockKind, request.lockValue, DelayedText(request));
    ChoiceSpelled(QuorumText(request.required, keys, request), FirstLocked(request, DelayedText(request)));
  }

  lemma StageSpelled(request: Request, key: string, lock: string)
    ensures "and_v" + "(" + ("v:" + ((if request.Tapscript() then "pk" else "pkh") + "(" + key + ")") + "," + lock) + ")"
         == StageText(request, key, lock)
  {
    var check := if request.Tapscript() then "pk" else "pkh";
    PairSpelled("and_v", "v:" + (check + "(" + key + ")"), lock);
    assert "and_v" + "(" + ("v:" + (check + "(" + key + ")")) == "and_v(v:" + (check + "(") + key + ")";
    assert "pk" + "(" == "pk(" && "pkh" + "(" == "pkh(";
  }

  lemma StagedChoice(key: string, a: string, b: string)
    ensures "or_d" + "(" + ("pk" + "(" + key + ")" + "," + ("or_i" + "(" + (a + "," + b) + ")")) + ")"
         == "or_d(pk(" + key + "),or_i(" + a + "," + b + "))"
  {
    ChoiceSpelled(a, b);
    PairSpelled("or_d", "pk" + "(" + key + ")", "or_i(" + a + "," + b + ")");
    assert "or_d" + "(" + ("pk" + "(" + key + ")") == "or_d(pk(" + key + ")";
    assert ")" + "," + "or_i(" == "),or_i(" && ")" + ")" == "))";
    var head := "or_d(pk(" + key;
    assert head + ")" + "," + ("or_i(" + a + "," + b + ")") + ")" == head + (")" + "," + "or_i(") + a + "," + b + (")" + ")");
  }

  lemma StagedSpelled(request: Request, key: string, recovery: string, first: PolicyLock, emergency: string, second: PolicyLock)
    ensures StagedMiniscript(key, if request.Tapscript() then "pk" else "pkh", recovery, first, emergency, second)
         == "or_d(pk(" + key + "),or_i(" + StageText(request, recovery, Fragment(first)) + ","
            + StageText(request, emergency, Fragment(second)) + "))"
  {
    hide Fragment, StageText;
    StageSpelled(request, recovery, Fragment(first));
    StageSpelled(request, emergency, Fragment(second));
    StagedChoice(key, StageText(request, recovery, Fragment(first)), StageText(request, emergency, Fragment(second)));
  }

  lemma StagedTexts(request: Request, isPoint: string -> bool)
    requires ShapeOf(request, isPoint).Some? && request.mode == StagedRecovery
    ensures EmittedText(request, isPoint) == PresetText(request)
  {
    StagedShape(request, isPoint);
    StagedLocks(request, isPoint);
    hide ShapeOf, EmittedText, MakeLock, Fragment, ScriptKey, Normal, SecondLock, StageText, LockText, StagedMiniscript, Multi,
         RecoveryKeys, EmergencyKeys;
    var tapscript := request.Tapscript();
    var key, recovery := KeyOf(request.publicKeys[0], request), KeyOf(RecoveryKeys(request)[0], request);
    var emergency := KeyOf(EmergencyKeys(request)[0], request);
    OneKeyAsked(request, isPoint);
    OnlyKey(request);
    assert ScriptKeys(RecoveryKeys(request), tapscript)[0] == recovery;
    assert ScriptKeys(EmergencyKeys(request), tapscript)[0] == emergency;
    StagedSpelled(request, key, recovery, MakeLock(request.lockKind, request.lockValue).value, emergency, SecondLock(request).value);
  }

  lemma OneKeyAsked(request: Request, isPoint: string -> bool)
    requires ShapeOf(request, isPoint).Some? && request.mode == StagedRecovery
    ensures |request.publicKeys| == 1
  {
    hide Common, AdmittedScriptKeys, MakeLock;
  }

  lemma StagedLocks(request: Request, isPoint: string -> bool)
    requires ShapeOf(request, isPoint).Some? && (request.mode == StagedRecovery || request.mode == EscalatingRecovery)
    ensures MakeLock(request.lockKind, request.lockValue).Ok? && SecondLock(request).Some?
    ensures Fragment(MakeLock(request.lockKind, request.lockValue).value) == LockText(request.lockKind, request.lockValue)
    ensures Fragment(SecondLock(request).value)
         == LockText(OrDefault(request.secondLockKind, NoLock), OrDefault(request.secondLockValue, 0))
  {
    hide MakeLock, LockText, Fragment, Common, AdmittedScriptKeys;
    LockSpelled(request.lockKind, request.lockValue, "");
    LockSpelled(request.secondLockKind.value, OrDefault(request.secondLockValue, 0), "");
  }

  /** Sorting one key changes nothing. */
  lemma OnlyKey(request: Request)
    requires |request.publicKeys| == 1
    ensures Multi(request.publicKeys, request.required, request).keys == [KeyOf(request.publicKeys[0], request)]
  {
    var keys := ScriptKeys(request.publicKeys, request.Tapscript());
    assert keys == [KeyOf(request.publicKeys[0], request)] && keys[1..] == [];
  }

  lemma NestedChoice(primary: string, a: string, b: string)
    ensures "or_i" + "(" + (primary + "," + ("or_i" + "(" + (a + "," + b) + ")")) + ")"
         == "or_i(" + primary + ",or_i(" + a + "," + b + "))"
  {
    ChoiceSpelled(a, b);
    ChoiceSpelled(primary, "or_i(" + a + "," + b + ")");
    assert "," + "or_i(" == ",or_i(" && ")" + ")" == "))";
    var head := "or_i(" + primary;
    assert head + "," + ("or_i(" + a + "," + b + ")") + ")" == head + ("," + "or_i(") + a + "," + b + (")" + ")");
  }

  lemma EscalatingShape(request: Request, isPoint: string -> bool)
    requires ShapeOf(request, isPoint).Some? && request.mode == EscalatingRecovery
    ensures MakeLock(request.lockKind, request.lockValue).Ok? && request.secondLockKind.Some?
    ensures MakeLock(request.secondLockKind.value, OrDefault(request.secondLockValue, 0)).Ok?
    ensures var tapscript := request.Tapscript();
            EmittedText(request, isPoint) ==
            "or_i" + "(" + (MultisigMiniscript(KeysOf(request.publicKeys, request), request.required, tapscript) + ","
            + ("or_i" + "("
               + (LockedMiniscript(MultisigMiniscript(KeysOf(RecoveryKeys(request), request), RecoveryRequired(request), tapscript),
                                   MakeLock(request.lockKind, request.lockValue).value) + ","
                  + LockedMiniscript(MultisigMiniscript(KeysOf(EmergencyKeys(request), request), EmergencyRequired(request), tapscript),
                                     MakeLock(request.secondLockKind.value, OrDefault(request.secondLockValue, 0)).value)) + ")")) + ")"
  {
    hide ScriptKeys, Arranged, MultisigMiniscript, LockedMiniscript, MakeLock, Common, AdmittedScriptKeys, RecoveryRequired,
         EmergencyRequired, TreeOf;
    ShapeIsGood(request, isPoint);
    EscalatingText(ShapeOf(request, isPoint).value, request.Tapscript());
  }

  lemma EscalatingTexts(request: Request, isPoint: string -> bool)
    requires ShapeOf(request, isPoint).Some? && request.mode == EscalatingRecovery
    ensures EmittedText(request, isPoint) == PresetText(request)
  {
    EscalatingShape(request, isPoint);
    hide ShapeOf, EmittedText, KeysOf, QuorumText, MultisigMiniscript, LockedMiniscript, Behind, MakeLock,
         RecoveryRequired, EmergencyRequired, RecoveryCount, EmergencyCount;
    ThresholdsSpelled(request);
    var keys, recovery := KeysOf(request.publicKeys, request), KeysOf(RecoveryKeys(request), request);
    var emergency := KeysOf(EmergencyKeys(request), request);
    QuorumSpelled(request.required, keys, request);
    QuorumSpelled(RecoveryCount(request), recovery, request);
    QuorumSpelled(EmergencyCount(request), emergency, request);
    var second, third := QuorumText(RecoveryCount(request), recovery, request), QuorumText(EmergencyCount(request), emergency, request);
    LockSpelled(request.lockKind, request.lockValue, second);
    LockSpelled(request.secondLockKind.value, OrDefault(request.secondLockValue, 0), third);
    NestedChoice(QuorumText(request.required, keys, request), FirstLocked(request, second), SecondLocked(request, third));
  }

  lemma HashSpelled(request: Request)
    ensures HashName(OrDefault(request.hashKind, Sha256)) + "(" + Normal(OrDefault(request.hashDigest, "")) + ")" == HashText(request)
  {
    hide Normal;
    assert "sha256" + "(" == "sha256(" && "hash256" + "(" == "hash256(";
    assert "ripemd160" + "(" == "ripemd160(" && "hash160" + "(" == "hash160(";
  }

  lemma HashTimeLockedTexts(request: Request, isPoint: string -> bool)
    requires ShapeOf(request, isPoint).Some? && request.mode == HashTimeLocked
    ensures EmittedText(request, isPoint) == PresetText(request)
  {
    HashTimeLockedText(request, isPoint);
    hide IntText, Join, ScriptKeys, Arranged, SignersText, SigningMiniscript, LockedMiniscript, Behind, MakeLock, Common,
         AdmittedScriptKeys, RecoveryRequired, RecoveryCount, EmittedText, HashText, HashName, Normal;
    ThresholdsSpelled(request);
    var keys, recovery := KeysOf(request.publicKeys, request), KeysOf(RecoveryKeys(request), request);
    QuorumSpelled(request.required, keys, request);
    QuorumSpelled(RecoveryCount(request), recovery, request);
    HashSpelled(request);
    var primary, second := SignersText(request.required, keys, request), SignersText(RecoveryCount(request), recovery, request);
    LockSpelled(request.lockKind, request.lockValue, second);
    var fallback := FirstLocked(request, second);
    TripleSpelled(primary, HashText(request), fallback);
  }

  lemma TripleSpelled(a: string, b: string, c: string)
    ensures "andor" + "(" + (a + "," + (b + "," + c)) + ")" == "andor(" + a + "," + b + "," + c + ")"
  {
    PairSpelled("andor", a, b + "," + c);
    assert "andor" + "(" == "andor(";
    assert "andor(" + a + "," + (b + "," + c) + ")" == "andor(" + a + "," + b + "," + c + ")";
  }

  /** What the builder emits for an admitted preset is the text spelled out for its mode. */
  lemma EmittedTextIsPreset(request: Request, isPoint: string -> bool)
    requires ShapeOf(request, isPoint).Some?
    ensures EmittedText(request, isPoint) == PresetText(request)
  {
    hide ShapeOf, EmittedText, PresetText;
    match request.mode
    case LockedMultisig => LockedText(request, isPoint);
    case StagedRecovery => StagedTexts(request, isPoint);
    case EscalatingRecovery => EscalatingTexts(request, isPoint);
    case HashTimeLocked => HashTimeLockedTexts(request, isPoint);
    case _ => RecoveryTexts(request, isPoint);
  }

  // ---------- Which requests are admitted ----------

  predicate IsRealLock(kind: LockKind, value: int)
  {
    match kind
    case NoLock => false
    case Height => 0 <= value < 500_000_000
    case Time => 500_000_000 <= value <= 0x7fff_ffff
    case RelativeBlocks => 0 <= value <= 0xffff
    case RelativeTime => 0 <= value <= 65535 * 512
  }

  predicate HasSecondLock(request: Request)
  {
    IsRealLock(OrDefault(request.secondLockKind, NoLock), OrDefault(request.secondLockValue, 0))
  }

  predicate IsDigest(hash: HashKind, digest: string)
  {
    && |digest| == (match hash case Sha256 => 64 case Hash256 => 64 case Ripemd160 => 40 case Hash160 => 40)
    && forall c | c in digest :: '0' <= c <= '9' || 'a' <= c <= 'f'
  }

  /** What a mode asks beside the checks that all modes share. */
  predicate ModeAdmits(request: Request, isPoint: string -> bool)
  {
    var tapscript, recovery, emergency := request.Tapscript(), RecoveryKeys(request), EmergencyKeys(request);
    match request.mode
    case LockedMultisig => true
    case DelayedRecovery =>
      && (request.recoveryPublicKeys.Some? ==> |request.recoveryPublicKeys.value| == 1)
      && AdmittedScriptKeys([LoneKey(request)], isPoint, tapscript)
    case DelayedRecoveryMultisig => AdmittedScriptKeys(recovery, isPoint, tapscript)
    case BackupCommittee => AdmittedScriptKeys(recovery, isPoint, tapscript)
    case DecayingMultisig =>
      (match request.recoveryRequired case Some(n) => n < request.required case None => request.required >= 2)
    case ExpandingMultisig =>
      && AdmittedScriptKeys(recovery, isPoint, tapscript)
      && forall i, j | 0 <= i < |request.publicKeys| && 0 <= j < |recovery| ::
           KeyOf(request.publicKeys[i], request) != KeyOf(recovery[j], request)
    case StagedRecovery =>
      && |request.publicKeys| == |recovery| == |emergency| == 1 && HasSecondLock(request)
      && AdmittedScriptKeys(recovery, isPoint, tapscript) && AdmittedScriptKeys(emergency, isPoint, tapscript)
    case EscalatingRecovery =>
      && HasSecondLock(request)
      && AdmittedScriptKeys(recovery, isPoint, tapscript) && AdmittedScriptKeys(emergency, isPoint, tapscript)
    case HashTimeLocked =>
      && AdmittedScriptKeys(recovery, isPoint, tapscript) && 1 <= RecoveryCount(request) <= |recovery|
      && IsDigest(OrDefault(request.hashKind, Sha256), Normal(OrDefault(request.hashDigest, "")))
  }

  /** The builder's own checks admit exactly these requests; the compiled policy is checked after them. */
  lemma AdmittedByMode(request: Request, isPoint: string -> bool)
    ensures ShapeOf(request, isPoint).Some? <==>
              && (request.coin == Dash ==> request.wrapper == P2sh)
              && AdmittedScriptKeys(request.publicKeys, isPoint, request.wrapper == P2tr)
              && 1 <= request.required <= |request.publicKeys|
              && (IsRealLock(request.lockKind, request.lockValue)
                  || (request.lockKind == NoLock && request.mode == LockedMultisig))
              && ModeAdmits(request, isPoint)
  {
    LockAdmission(request.lockKind, request.lockValue);
    SecondIsReal(request);
    ThresholdsSpelled(request);
    LoneKeys(request);
    DisjointKeys(request);
    DigestIsHex(Normal(OrDefault(request.hashDigest, "")));
    hide AdmittedScriptKeys, MakeLock, RecoveryRequired, Disjoint, KeyOf, Multi, Single, Signing, HashName, Normal;
    hide SecondLock, HasSecondLock;
  }

  lemma DigestIsHex(digest: string)
    ensures AllHex(digest) <==> forall c | c in digest :: '0' <= c <= '9' || 'a' <= c <= 'f'
  {
    assert forall c :: IsHex(c) <==> '0' <= c <= '9' || 'a' <= c <= 'f';
  }

  lemma SecondIsReal(request: Request)
    ensures SecondLock(request).Some? <==> HasSecondLock(request)
  {
    hide MakeLock;
    if request.secondLockKind.Some? {
      LockAdmission(request.secondLockKind.value, OrDefault(request.secondLockValue, 0));
    }
  }

  lemma LoneKeys(request: Request)
    ensures var keys := OrDefault(request.recoveryPublicKeys, [OrDefault(request.recoveryPublicKey, "")]);
            |keys| == 1 ==> keys == [LoneKey(request)]
  {
  }

  lemma DisjointKeys(request: Request)
    ensures Disjoint(request) <==>
              forall i, j | 0 <= i < |request.publicKeys| && 0 <= j < |RecoveryKeys(request)| ::
                KeyOf(request.publicKeys[i], request) != KeyOf(RecoveryKeys(request)[j], request)
  {
    hide ScriptKey, Normal;
    var primary, more := ScriptKeys(request.publicKeys, request.Tapscript()), ScriptKeys(RecoveryKeys(request), request.Tapscript());
    assert forall i | 0 <= i < |primary| :: primary[i] == KeyOf(request.publicKeys[i], request);
    assert forall j | 0 <= j < |more| :: more[j] == KeyOf(RecoveryKeys(request)[j], request) && more[j] in more;
  }
}

/** The preset policy builder: the Miniscript it emits, and that the descriptor reader agrees with it. */
module PolicyBuilder {
  import opened Text
  import opened DescriptorSyntax
  import opened DescriptorPaths
  import opened FragmentScan
  import opened RelativeLocks
  import opened KeyOrder
  import opened PolicyRequest
  import opened PolicyTree

  // ---------- The requirement, in the request's own terms ----------

  /** The key that a script commits to for this text belongs to a signer. */
  predicate SignsFor(value: string, tapscript: bool, signs: set<string>)
  {
    exists key | key in signs :: CommitsTo(key, Normal(value), tapscript)
  }

  /** How many of the keys as they were entered belong to signers. */
  function Willing(values: seq<string>, tapscript: bool, signs: set<string>): nat
  {
    if values == [] then 0
    else (if SignsFor(values[0], tapscript, signs) then 1 else 0) + Willing(values[1..], tapscript, signs)
  }

  /** At least `required` of the keys as they were entered belong to signers. */
  predicate Quorate(values: seq<string>, required: int, request: Request, world: World)
  {
    Willing(values, request.Tapscript(), world.signs) >= required
  }

  predicate FirstWait(request: Request, world: World)
  {
    Waited(request.lockKind, request.lockValue, world.chain)
  }

  predicate SecondWait(request: Request, world: World)
  {
    Waited(OrDefault(request.secondLockKind, NoLock), OrDefault(request.secondLockValue, 0), world.chain)
  }

  /** When the coin may be spent, as the request states it for each mode. */
  predicate Requirement(request: Request, world: World)
  {
    var primary := Quorate(request.publicKeys, request.required, request, world);
    var recovery := Quorate(RecoveryKeys(request), RecoveryRequired(request), request, world);
    match request.mode
    case LockedMultisig => primary && FirstWait(request, world)
    case DelayedRecovery =>
      var keys := OrDefault(request.recoveryPublicKeys, [OrDefault(request.recoveryPublicKey, "")]);
      primary || (Quorate(keys, 1, request, world) && FirstWait(request, world))
    case DelayedRecoveryMultisig => primary || (recovery && FirstWait(request, world))
    case BackupCommittee => primary || (recovery && FirstWait(request, world))
    case DecayingMultisig =>
      || primary
      || (Quorate(request.publicKeys, RecoveryRequired(request), request, world) && FirstWait(request, world))
    case ExpandingMultisig =>
      var keys := request.publicKeys + RecoveryKeys(request);
      primary || (Quorate(keys, RecoveryRequired(request), request, world) && FirstWait(request, world))
    case StagedRecovery =>
      || primary
      || (Quorate(RecoveryKeys(request), 1, request, world) && FirstWait(request, world))
      || (Quorate(EmergencyKeys(request), 1, request, world) && SecondWait(request, world))
    case EscalatingRecovery =>
      || primary
      || (recovery && FirstWait(request, world))
      || (Quorate(EmergencyKeys(request), EmergencyRequired(request), request, world) && SecondWait(request, world))
    case HashTimeLocked =>
      var commitment := (HashName(OrDefault(request.hashKind, Sha256)), Normal(OrDefault(request.hashDigest, "")));
      (primary && commitment in world.preimages) || (recovery && FirstWait(request, world))
  }

  lemma MultiIsGood(values: seq<string>, required: int, request: Request, isPoint: string -> bool)
    requires AdmittedKeys(values, isPoint)
    ensures Multi(values, required, request).Good()
  {
    ScriptKeysAreGood(values, isPoint, request.Tapscript(), request.keyOrder);
  }

  lemma ExpandedIsGood(request: Request, required: int, isPoint: string -> bool)
    requires AdmittedKeys(request.publicKeys, isPoint) && AdmittedKeys(RecoveryKeys(request), isPoint)
    ensures Multi(request.publicKeys + RecoveryKeys(request), required, request).Good()
  {
    var tapscript := request.Tapscript();
    ScriptKeysAreGood(request.publicKeys, isPoint, tapscript, Supplied);
    ScriptKeysAreGood(RecoveryKeys(request), isPoint, tapscript, Supplied);
    ScriptKeysConcat(request.publicKeys, RecoveryKeys(request), tapscript);
    ArrangedIsGood(ScriptKeys(request.publicKeys + RecoveryKeys(request), tapscript), request.keyOrder);
  }

  lemma ScriptKeysConcat(a: seq<string>, b: seq<string>, tapscript: bool)
    ensures ScriptKeys(a + b, tapscript) == ScriptKeys(a, tapscript) + ScriptKeys(b, tapscript)
  {
  }

  /** Every admitted request has a shape the tree can be built from. */
  lemma ShapeIsGood(request: Request, isPoint: string -> bool)
    requires ShapeOf(request, isPoint).Some?
    ensures ShapeOf(request, isPoint).value.Good()
  {
    hide Sort, ScriptKeys, GoodKeys, Points, Distinct, Normal, AllHex, Disjoint;
    MultiIsGood(request.publicKeys, request.required, request, isPoint);
    match request.mode
    case LockedMultisig =>
    case DelayedRecovery =>
      MultiIsGood(OrDefault(request.recoveryPublicKeys, [OrDefault(request.recoveryPublicKey, "")]), 1, request.(keyOrder := Supplied), isPoint);
    case DecayingMultisig =>
      MultiIsGood(request.publicKeys, RecoveryRequired(request), request, isPoint);
    case ExpandingMultisig =>
      ExpandedIsGood(request, RecoveryRequired(request), isPoint);
    case StagedRecovery =>
      MultiIsGood(request.publicKeys, 1, request.(keyOrder := Supplied), isPoint);
      MultiIsGood(RecoveryKeys(request), 1, request.(keyOrder := Supplied), isPoint);
      MultiIsGood(EmergencyKeys(request), 1, request.(keyOrder := Supplied), isPoint);
    case EscalatingRecovery =>
      MultiIsGood(RecoveryKeys(request), RecoveryRequired(request), request, isPoint);
      MultiIsGood(EmergencyKeys(request), EmergencyRequired(request), request, isPoint);
    case HashTimeLocked =>
      MultiIsGood(RecoveryKeys(request), RecoveryRequired(request), request, isPoint);
    case _ =>
      MultiIsGood(RecoveryKeys(request), RecoveryRequired(request), request, isPoint);
  }

  /** Every text is a compressed key once it is normalized. */
  predicate Compressed(values: seq<string>)
  {
    forall i | 0 <= i < |values| :: IsCompressedKey(Normal(values[i]))
  }

  lemma AdmittedIsCompressed(values: seq<string>, isPoint: string -> bool)
    requires AdmittedKeys(values, isPoint)
    ensures Compressed(values)
  {
    forall i | 0 <= i < |values| ensures IsCompressedKey(Normal(values[i])) {
      assert IsCompressedKey(Normals(values)[i]);
    }
  }

  /** Counting signers among the keys as entered, or among those the script commits to, is the same. */
  lemma {:induction false} WillingIsSigners(values: seq<string>, tapscript: bool, signs: set<string>)
    requires Compressed(values)
    ensures Willing(values, tapscript, signs) == Signers(ScriptKeys(values, tapscript), signs)
  {
    if values != [] {
      hide IsCompressedKey, CommitsTo, ScriptKey, Normal;
      var text := Normal(values[0]);
      assert IsCompressedKey(text);
      ScriptKeyCommits(text, tapscript);
      assert SignsFor(values[0], tapscript, signs) <==> ScriptKey(text, tapscript) in signs;
      WillingIsSigners(values[1..], tapscript, signs);
      assert ScriptKeys(values, tapscript)[1..] == ScriptKeys(values[1..], tapscript);
    }
  }

  lemma MultiQuorum(values: seq<string>, required: int, request: Request, world: World)
    requires Compressed(values)
    ensures Quorum(Multi(values, required, request), world) <==> Quorate(values, required, request, world)
    ensures Quorum(Signing(values, required, request), world) <==> Quorate(values, required, request, world)
  {
    WillingIsSigners(values, request.Tapscript(), world.signs);
    SignersOfSort(ScriptKeys(values, request.Tapscript()), world.signs);
  }

  lemma SingleQuorum(values: seq<string>, name: string, request: Request, world: World)
    requires Compressed(values)
    ensures Quorum(Single(values, name, request), world) <==> Quorate(values, 1, request, world)
  {
    WillingIsSigners(values, request.Tapscript(), world.signs);
  }

  /** Key order, Tapscript keys and lock encoding all drop out of the requirement. */
  lemma ShapeMeansRequirement(request: Request, isPoint: string -> bool, world: World)
    requires ShapeOf(request, isPoint).Some?
    ensures ShapeMet(ShapeOf(request, isPoint).value, world) <==> Requirement(request, world)
  {
    hide Compressed, AdmittedKeys, ScriptKeys, Signing, Single, Quorate, Disjoint, Quorum, LockMet, Waited, MakeLock;
    hide RecoveryRequired, EmergencyRequired, RecoveryKeys, EmergencyKeys, HashName, Normal, Multi;
    var recovery, required := RecoveryKeys(request), RecoveryRequired(request);
    AdmittedIsCompressed(request.publicKeys, isPoint);
    MultiQuorum(request.publicKeys, request.required, request, world);
    LockMeansTheWait(request.lockKind, request.lockValue, world.chain);
    match request.mode
    case LockedMultisig =>
    case DelayedRecovery =>
      var keys := OrDefault(request.recoveryPublicKeys, [OrDefault(request.recoveryPublicKey, "")]);
      AdmittedIsCompressed(keys, isPoint);
      SingleQuorum(keys, "pk", request, world);
    case DecayingMultisig =>
      MultiQuorum(request.publicKeys, required, request, world);
    case ExpandingMultisig =>
      AdmittedIsCompressed(recovery, isPoint);
      CompressedConcat(request.publicKeys, recovery);
      MultiQuorum(request.publicKeys + recovery, required, request, world);
    case StagedRecovery =>
      var check := if request.Tapscript() then "pk" else "pkh";
      AdmittedIsCompressed(recovery, isPoint);
      AdmittedIsCompressed(EmergencyKeys(request), isPoint);
      SingleQuorum(request.publicKeys, "pk", request, world);
      SingleQuorum(recovery, check, request, world);
      SingleQuorum(EmergencyKeys(request), check, request, world);
      LockMeansTheWait(request.secondLockKind.value, OrDefault(request.secondLockValue, 0), world.chain);
    case EscalatingRecovery =>
      AdmittedIsCompressed(recovery, isPoint);
      AdmittedIsCompressed(EmergencyKeys(request), isPoint);
      MultiQuorum(recovery, required, request, world);
      MultiQuorum(EmergencyKeys(request), EmergencyRequired(request), request, world);
      LockMeansTheWait(request.secondLockKind.value, OrDefault(request.secondLockValue, 0), world.chain);
    case _ =>
      AdmittedIsCompressed(recovery, isPoint);
      MultiQuorum(recovery, required, request, world);
  }

  lemma CompressedConcat(a: seq<string>, b: seq<string>)
    requires Compressed(a) && Compressed(b)
    ensures Compressed(a + b)
  {
  }

  /**
   * Builder and reader agree: the emitted text parses to the policy's tree, its enumeration lists
   * exactly the requested alternatives, and in every world the tree holds, and one of those
   * alternatives is met, exactly when the request's own requirement is.
   */
  lemma BuilderAndReaderAgree(request: Request, isPoint: string -> bool, world: World)
    requires ShapeOf(request, isPoint).Some?
    ensures var shape, tapscript := ShapeOf(request, isPoint).value, request.Tapscript();
            && shape.Good()
            && var tree := TreeOf(shape, tapscript);
               && Expression(Print(tree)) == Parsed(tree)
               && Alternatives(tree) == Enumeration(PathsOf(shape, tapscript), false)
               && (Met(tree, world) <==> Requirement(request, world))
               && (SomePathHolds(PathsOf(shape, tapscript), LeavesMet(world)) <==> Requirement(request, world))
  {
    var shape, tapscript := ShapeOf(request, isPoint).value, request.Tapscript();
    ShapeIsGood(request, isPoint);
    TreeIsWellFormed(shape, tapscript);
    ParseOfPrint(TreeOf(shape, tapscript), 0);
    ReaderListsTheAlternatives(shape, tapscript);
    TreeMeaning(shape, tapscript, world);
    ShapeMeansRequirement(request, isPoint, world);
    EnumerationMeaning(TreeOf(shape, tapscript), LeavesMet(world));
  }

  /** The lock list reads an emitted lock's own operand exactly when that operand is 2 or more. */
  lemma LockListReadsFromTwo(n: nat)
    ensures OperandNumber(Operand(n)) == Some(n) <==> n >= 2
    ensures n < 2 ==> OperandNumber(Operand(n)) == None
  {
    NumberOfDecimal(n);
  }

  // ---------- The builder ----------

  lemma PrintOfPair(name: string, a: Expr, b: Expr)
    requires !IsConstant(name)
    ensures Print(Node(name, "", [a, b])) == name + "(" + (Print(a) + "," + Print(b)) + ")"
  {
    assert [a, b][1..] == [b] && [b][1..] == [];
    assert PrintAll([a, b]) == [Print(a), Print(b)];
    JoinTwo(Print(a), Print(b));
  }

  lemma PrintOfOne(name: string, a: Expr)
    requires !IsConstant(name)
    ensures Print(Node(name, "", [a])) == name + "(" + Print(a) + ")"
  {
    assert PrintAll([a]) == [Print(a)];
  }

  lemma PrintOfWrapped(name: string, args: seq<Expr>)
    ensures Print(Node(name, "v", args)) == "v:" + Print(Node(name, "", args))
  {
  }

  lemma PrintOfMultisig(keys: seq<string>, required: int, tapscript: bool)
    requires GoodKeys(keys) && keys != []
    ensures Print(SignatureNode(Signature(Multisig, required, keys), tapscript, ""))
         == MultisigMiniscript(keys, required, tapscript)
  {
    var args := [Leaf(IntText(required))] + KeyLeaves(keys);
    KeyLeavesAreWellFormed(keys, 0);
    assert args[1..] == KeyLeaves(keys);
    assert PrintAll(args) == [IntText(required)] + keys;
    JoinCons(IntText(required), keys);
  }

  lemma PrintOfSigning(values: seq<string>, required: int, request: Request)
    requires Signing(values, required, request).Good()
    ensures Print(SignatureNode(Signing(values, required, request), request.Tapscript(), ""))
         == SigningMiniscript(Multi(values, required, request).keys, required, request.Tapscript())
  {
    var keys := Multi(values, required, request).keys;
    if |values| == 1 && required == 1 {
      PrintOfOne("pk", Leaf(keys[0]));
    } else {
      PrintOfMultisig(keys, required, request.Tapscript());
    }
  }

  lemma PrintOfLock(lock: PolicyLock)
    requires lock != Free
    ensures Print(LockNode(lock, "")) == Fragment(lock) && Print(LockNode(lock, "v")) == "v:" + Fragment(lock)
  {
    OperandIsWellFormed(lock.operand, 0);
    var name := LockNode(lock, "").name;
    PrintOfOne(name, Operand(lock.operand));
    PrintOfWrapped(name, [Operand(lock.operand)]);
  }

  lemma PrintOfLocked(inner: Expr, lock: PolicyLock)
    ensures Print(LockedNode(inner, lock)) == LockedMiniscript(Print(inner), lock)
  {
    if lock != Free {
      PrintOfLock(lock);
      PrintOfPair("and_v", LockNode(lock, "v"), inner);
    }
  }

  /** What the Miniscript library answers for a policy it accepts. */
  datatype Compiled = Compiled(sane: bool, scriptBytes: nat)

  const MAXIMUM_SCRIPT_ELEMENT_BYTES := 520

  /** The checks of a compiled policy: sanity outside P2SH, the element limit inside it. */
  predicate CompiledIsAdmitted(compiled: Option<Compiled>, request: Request)
  {
    && compiled.Some?
    && (request.coin == Bitcoin && request.wrapper != P2sh ==> compiled.value.sane)
    && (request.coin == Dash || request.wrapper == P2sh ==> compiled.value.scriptBytes <= MAXIMUM_SCRIPT_ELEMENT_BYTES)
  }

  function EmittedText(request: Request, isPoint: string -> bool): string
    requires ShapeOf(request, isPoint).Some?
  {
    ShapeIsGood(request, isPoint);
    Print(TreeOf(ShapeOf(request, isPoint).value, request.Tapscript()))
  }

  /** `keys` are what the script commits to of `values`, one for each. */
  predicate CommitsToAll(keys: seq<string>, values: seq<string>, tapscript: bool)
  {
    |keys| == |values| && forall i | 0 <= i < |values| :: CommitsTo(keys[i], Normal(values[i]), tapscript)
  }

  /** The script's keys as supplied, or with BIP67 the same keys in ascending order. */
  ghost predicate InOrder(keys: seq<string>, values: seq<string>, order: Order, tapscript: bool)
  {
    match order
    case Supplied => CommitsToAll(keys, values, tapscript)
    case Bip67 =>
      && (exists supplied: seq<string> :: multiset(supplied) == multiset(keys) && CommitsToAll(supplied, values, tapscript))
      && forall i, j | 0 <= i < j < |keys| :: keys[i] == keys[j] || exists d: nat :: FirstDiffersBelow(keys[i], keys[j], d)
  }

  /** Two of the keys differ in nothing but the parity of their point. */
  ghost predicate HasParityTwins(values: seq<string>)
  {
    exists i, j, key | 0 <= i < |values| && 0 <= j < |values| ::
      Normal(values[i]) == "02" + key && Normal(values[j]) == "03" + key
  }

  lemma ScriptKeysInOrder(values: seq<string>, order: Order, tapscript: bool, isPoint: string -> bool)
    requires AdmittedKeys(values, isPoint)
    ensures InOrder(Arranged(ScriptKeys(values, tapscript), order), values, order, tapscript)
  {
    hide IsCompressedKey, CommitsTo, ScriptKey, Normal, Sort, AdmittedKeys;
    var supplied := ScriptKeys(values, tapscript);
    var keys := Arranged(supplied, order);
    AdmittedIsCompressed(values, isPoint);
    forall i | 0 <= i < |values| ensures CommitsTo(supplied[i], Normal(values[i]), tapscript) {
      ScriptKeyCommits(Normal(values[i]), tapscript);
    }
    assert CommitsToAll(supplied, values, tapscript);
    if order == Bip67 {
      SortIsSorted(supplied);
      SameMembers(supplied, keys);
      forall i, j | 0 <= i < j < |keys|
        ensures keys[i] == keys[j] || exists d: nat :: FirstDiffersBelow(keys[i], keys[j], d)
      {
        PrecedesByFirstDifference(keys[i], keys[j]);
        SameLength(values, tapscript, keys[i], keys[j]);
      }
    }
  }

  /** All keys of a script have the same length. */
  lemma SameLength(values: seq<string>, tapscript: bool, a: string, b: string)
    requires Compressed(values) && a in ScriptKeys(values, tapscript) && b in ScriptKeys(values, tapscript)
    ensures |a| == |b|
  {
  }

  lemma DistinctScriptKeys(values: seq<string>, isPoint: string -> bool)
    requires AdmittedKeys(values, isPoint)
    ensures Distinct(ScriptKeys(values, true)) <==> !HasParityTwins(values)
  {
    AdmittedIsCompressed(values, isPoint);
    var keys := ScriptKeys(values, true);
    if i, j, key :| 0 <= i < |values| && 0 <= j < |values|
                    && Normal(values[i]) == "02" + key && Normal(values[j]) == "03" + key {
      assert ("02" + key)[2..] == key == ("03" + key)[2..];
      assert ("02" + key)[1] != ("03" + key)[1];
      assert keys[i] == keys[j] && i != j;
    }
    if i, j :| 0 <= i < j < |keys| && keys[i] == keys[j] {
      TwinsOf(Normal(values[i]), Normal(values[j]));
      assert Normals(values)[i] != Normals(values)[j];
    }
  }

  /** Different compressed keys with the same x coordinate have different parity. */
  lemma TwinsOf(a: string, b: string)
    requires IsCompressedKey(a) && IsCompressedKey(b) && ScriptKey(a, true) == ScriptKey(b, true) && a != b
    ensures var key := ScriptKey(a, true);
            (a == "02" + key && b == "03" + key) || (a == "03" + key && b == "02" + key)
  {
    assert a == a[..2] + a[2..] && b == b[..2] + b[2..];
    assert a[..2] == "02" || a[..2] == "03";
    assert b[..2] == "02" || b[..2] == "03";
  }

  /** `orderedPolicyKeys`. */
  method OrderedPolicyKeys(values: seq<string>, order: Order, tapscript: bool, isPoint: string -> bool)
    returns (r: Option<seq<string>>)
    ensures r == if AdmittedScriptKeys(values, isPoint, tapscript)
                 then Some(Arranged(ScriptKeys(values, tapscript), order)) else None
    ensures r.Some? ==> InOrder(r.value, values, order, tapscript)
    ensures r.Some? <==> AdmittedKeys(values, isPoint) && !(tapscript && HasParityTwins(values))
  {
    hide InOrder, HasParityTwins, Normal, IsCompressedKey, ScriptKey, Arranged, AdmittedKeys, Distinct, IsPublicKey;
    if AdmittedKeys(values, isPoint) {
      ScriptKeysInOrder(values, order, tapscript, isPoint);
      DistinctScriptKeys(values, isPoint);
    }
    var validated := ValidatePublicKeys(values, isPoint);
    if validated.None? {
      return None;
    }
    var keys := seq(|validated.value|, i requires 0 <= i < |validated.value| => ScriptKey(validated.value[i], tapscript));
    assert keys == ScriptKeys(values, tapscript);
    if tapscript && !Distinct(keys) {
      return None;
    }
    return Some(Arranged(keys, order));
  }

  /** The two-branch presets: the primary quorum at once, or `inner` once the lock is open. */
  lemma RecoveryText(request: Request, isPoint: string -> bool, inner: string)
    requires ShapeOf(request, isPoint).Some? && ShapeOf(request, isPoint).value.Recovery?
    requires var shape := ShapeOf(request, isPoint).value;
             && shape.primary == Multi(request.publicKeys, request.required, request)
             && shape.second.Good()
             && inner == Print(SignatureNode(shape.second, request.Tapscript(), ""))
    ensures EmittedText(request, isPoint)
         == "or_i" + "(" + (MultisigMiniscript(Multi(request.publicKeys, request.required, request).keys,
                                               request.required, request.Tapscript()) + ","
                            + LockedMiniscript(inner, ShapeOf(request, isPoint).value.lock)) + ")"
  {
    ShapeIsGood(request, isPoint);
    var shape, tapscript := ShapeOf(request, isPoint).value, request.Tapscript();
    var second := SignatureNode(shape.second, tapscript, "");
    PrintOfMultisig(shape.primary.keys, request.required, tapscript);
    PrintOfLocked(second, shape.lock);
    PrintOfPair("or_i", SignatureNode(shape.primary, tapscript, ""), LockedNode(second, shape.lock));
  }

  /** `buildPolicy`, mode `htlc`. */
  method BuildHashTimeLocked(request: Request, keys: seq<string>, isPoint: string -> bool) returns (r: Option<string>)
    requires request.mode == HashTimeLocked && Common(request, isPoint)
    requires keys == Multi(request.publicKeys, request.required, request).keys
    ensures r == if ShapeOf(request, isPoint).Some? then Some(EmittedText(request, isPoint)) else None
  {
    if request.lockKind == NoLock {
      return None;
    }
    var tapscript := request.Tapscript();
    var recovery := OrderedPolicyKeys(OrDefault(request.recoveryPublicKeys, []), request.keyOrder, tapscript, isPoint);
    if recovery.None? {
      return None;
    }
    var required := OrDefault(request.recoveryRequired, Min(request.required, |recovery.value|));
    if required < 1 || required > |recovery.value| {
      return None;
    }
    var hash := OrDefault(request.hashKind, Sha256);
    var digest := Normal(OrDefault(request.hashDigest, ""));
    if !(|digest| == DigestLength(hash) && AllHex(digest)) {
      return None;
    }
    var delayed := MakeLock(request.lockKind, request.lockValue);
    if delayed.Err? {
      return None;
    }
    var primary := SigningMiniscript(keys, request.required, tapscript);
    var fallback := LockedMiniscript(SigningMiniscript(recovery.value, required, tapscript), delayed.value);
    ShapeIsGood(request, isPoint);
    HashTimeLockedText(request, isPoint);
    return Some("andor" + "(" + (primary + "," + (HashName(hash) + "(" + digest + ")" + "," + fallback)) + ")");
  }

  lemma HashTimeLockedText(request: Request, isPoint: string -> bool)
    requires request.mode == HashTimeLocked && ShapeOf(request, isPoint).Some?
    ensures var shape, tapscript := ShapeOf(request, isPoint).value, request.Tapscript();
            var keys := Multi(request.publicKeys, request.required, request).keys;
            var recovery := Multi(RecoveryKeys(request), RecoveryRequired(request), request).keys;
            EmittedText(request, isPoint) ==
            "andor" + "(" + (SigningMiniscript(keys, request.required, tapscript) + ","
            + (HashName(shape.hash) + "(" + shape.digest + ")" + ","
               + LockedMiniscript(SigningMiniscript(recovery, RecoveryRequired(request), tapscript), shape.lock))) + ")"
  {
    ShapeIsGood(request, isPoint);
    var shape, tapscript := ShapeOf(request, isPoint).value, request.Tapscript();
    var primary, hash := SignatureNode(shape.primary, tapscript, ""), HashNode(shape.hash, shape.digest);
    var second := SignatureNode(shape.second, tapscript, "");
    PrintOfSigning(request.publicKeys, request.required, request);
    PrintOfSigning(RecoveryKeys(request), RecoveryRequired(request), request);
    PrintOfLocked(second, shape.lock);
    PrintOfOne(HashName(shape.hash), Leaf(shape.digest));
    PrintOfTriple("andor", primary, hash, LockedNode(second, shape.lock));
  }

  lemma PrintOfTriple(name: string, a: Expr, b: Expr, c: Expr)
    requires !IsConstant(name)
    ensures Print(Node(name, "", [a, b, c])) == name + "(" + (Print(a) + "," + (Print(b) + "," + Print(c))) + ")"
  {
    var args := [a, b, c];
    assert PrintAll(args) == [Print(a), Print(b), Print(c)];
    JoinTwo(Print(b), Print(c));
    assert [Print(a)] + [Print(b), Print(c)] == PrintAll(args);
    JoinCons(Print(a), [Print(b), Print(c)]);
  }

  predicate HasOneRecovery(mode: Mode)
  {
    mode in {DelayedRecovery, DelayedRecoveryMultisig, BackupCommittee, DecayingMultisig, ExpandingMultisig}
  }

  /** Who signs once the lock is open, as Miniscript, in the modes with one delayed branch. */
  method RecoveryMiniscript(request: Request, keys: seq<string>, isPoint: string -> bool) returns (r: Option<string>)
    requires HasOneRecovery(request.mode) && Common(request, isPoint)
    requires keys == Multi(request.publicKeys, request.required, request).keys
    ensures match RecoverySignature(request, isPoint)
            case None => r == None
            case Some(second) => second.Good() && r == Some(Print(SignatureNode(second, request.Tapscript(), "")))
  {
    hide MultisigMiniscript, IntText, Points, Distinct, Sort, Normal, ScriptKey;
    var tapscript := request.Tapscript();
    if request.mode == DelayedRecovery {
      var inputs := OrDefault(request.recoveryPublicKeys, [OrDefault(request.recoveryPublicKey, "")]);
      if |inputs| != 1 {
        return None;
      }
      var recovery := OrderedPolicyKeys(inputs, Supplied, tapscript, isPoint);
      if recovery.None? {
        return None;
      }
      MultiIsGood(inputs, 1, request.(keyOrder := Supplied), isPoint);
      PrintOfOne("pk", Leaf(recovery.value[0]));
      return Some("pk" + "(" + recovery.value[0] + ")");
    } else if request.mode == DecayingMultisig {
      var required := OrDefault(request.recoveryRequired, Max(1, request.required - 1));
      if required >= request.required {
        return None;
      }
      MultiIsGood(request.publicKeys, required, request, isPoint);
      PrintOfMultisig(keys, required, tapscript);
      return Some(MultisigMiniscript(keys, required, tapscript));
    }
    var recovery := OrderedPolicyKeys(OrDefault(request.recoveryPublicKeys, []), request.keyOrder, tapscript, isPoint);
    if recovery.None? {
      return None;
    }
    var required: int;
    var branch := recovery.value;
    if request.mode == ExpandingMultisig {
      DisjointArranged(request);
      if exists key | key in recovery.value :: key in keys {
        return None;
      }
      required := OrDefault(request.recoveryRequired, request.required);
      branch := Arranged(keys + recovery.value, request.keyOrder);
      ExpandedKeys(request);
      ExpandedIsGood(request, required, isPoint);
    } else {
      required := OrDefault(request.recoveryRequired, Min(request.required, |recovery.value|));
      MultiIsGood(RecoveryKeys(request), required, request, isPoint);
    }
    PrintOfMultisig(branch, required, tapscript);
    return Some(MultisigMiniscript(branch, required, tapscript));
  }

  /** `buildPolicy`, the presets with one delayed branch. */
  method BuildRecovery(request: Request, keys: seq<string>, isPoint: string -> bool) returns (r: Option<string>)
    requires HasOneRecovery(request.mode) && Common(request, isPoint)
    requires keys == Multi(request.publicKeys, request.required, request).keys
    ensures r == if ShapeOf(request, isPoint).Some? then Some(EmittedText(request, isPoint)) else None
  {
    hide MultisigMiniscript, LockedMiniscript, Multi, RecoverySignature, EmittedText, MakeLock, Common;
    if request.lockKind == NoLock {
      return None;
    }
    var inner := RecoveryMiniscript(request, keys, isPoint);
    if inner.None? {
      return None;
    }
    var delayed := MakeLock(request.lockKind, request.lockValue);
    if delayed.Err? {
      return None;
    }
    RecoveryText(request, isPoint, inner.value);
    return Some("or_i" + "(" + (MultisigMiniscript(keys, request.required, request.Tapscript()) + ","
                                + LockedMiniscript(inner.value, delayed.value)) + ")");
  }

  /** Ordering the keys does not change whether an additional one repeats a primary one. */
  lemma DisjointArranged(request: Request)
    ensures var keys := Multi(request.publicKeys, request.required, request).keys;
            var recovery := Arranged(ScriptKeys(RecoveryKeys(request), request.Tapscript()), request.keyOrder);
            Disjoint(request) <==> !exists key | key in recovery :: key in keys
  {
    var primary, more := ScriptKeys(request.publicKeys, request.Tapscript()), ScriptKeys(RecoveryKeys(request), request.Tapscript());
    SameMembers(primary, Arranged(primary, request.keyOrder));
    SameMembers(more, Arranged(more, request.keyOrder));
  }

  lemma SameMembers(a: seq<string>, b: seq<string>)
    requires multiset(a) == multiset(b)
    ensures forall key :: key in a <==> key in b
  {
    forall key ensures key in a <==> key in b {
      assert key in a <==> key in multiset(a);
      assert key in b <==> key in multiset(b);
    }
  }

  /** Ordering the joined ordered keys is ordering the joined keys. */
  lemma ExpandedKeys(request: Request)
    ensures var tapscript, order := request.Tapscript(), request.keyOrder;
            var primary, more := ScriptKeys(request.publicKeys, tapscript), ScriptKeys(RecoveryKeys(request), tapscript);
            Arranged(Arranged(primary, order) + Arranged(more, order), order) ==
            Arranged(ScriptKeys(request.publicKeys + RecoveryKeys(request), tapscript), order)
  {
    var tapscript := request.Tapscript();
    ScriptKeysConcat(request.publicKeys, RecoveryKeys(request), tapscript);
    SortOfSortedParts(ScriptKeys(request.publicKeys, tapscript), ScriptKeys(RecoveryKeys(request), tapscript));
  }

  /** `buildPolicy`, mode `staged-recovery`. */
  method BuildStaged(request: Request, keys: seq<string>, isPoint: string -> bool) returns (r: Option<string>)
    requires request.mode == StagedRecovery && Common(request, isPoint)
    requires keys == Multi(request.publicKeys, request.required, request).keys
    ensures r == if ShapeOf(request, isPoint).Some? then Some(EmittedText(request, isPoint)) else None
  {
    if |keys| != 1 || request.required != 1 {
      return None;
    }
    if request.lockKind == NoLock || OrDefault(request.secondLockKind, NoLock) == NoLock {
      return None;
    }
    var tapscript := request.Tapscript();
    var recovery := OrderedPolicyKeys(OrDefault(request.recoveryPublicKeys, []), Supplied, tapscript, isPoint);
    if recovery.None? {
      return None;
    }
    var emergency := OrderedPolicyKeys(OrDefault(request.emergencyPublicKeys, []), Supplied, tapscript, isPoint);
    if emergency.None? || |recovery.value| != 1 || |emergency.value| != 1 {
      return None;
    }
    var first := MakeLock(request.lockKind, request.lockValue);
    if first.Err? {
      return None;
    }
    var second := MakeLock(request.secondLockKind.value, OrDefault(request.secondLockValue, 0));
    if second.Err? {
      return None;
    }
    var check := if tapscript then "pk" else "pkh";
    StagedShape(request, isPoint);
    return Some(StagedMiniscript(keys[0], check, recovery.value[0], first.value, emergency.value[0], second.value));
  }

  function StagedMiniscript(primary: string, check: string, recovery: string, first: PolicyLock,
                            emergency: string, second: PolicyLock): string
  {
    var a := "and_v" + "(" + ("v:" + (check + "(" + recovery + ")") + "," + Fragment(first)) + ")";
    var b := "and_v" + "(" + ("v:" + (check + "(" + emergency + ")") + "," + Fragment(second)) + ")";
    "or_d" + "(" + ("pk" + "(" + primary + ")" + "," + ("or_i" + "(" + (a + "," + b) + ")")) + ")"
  }

  lemma StagedShape(request: Request, isPoint: string -> bool)
    requires request.mode == StagedRecovery && ShapeOf(request, isPoint).Some?
    ensures var tapscript := request.Tapscript();
            var keys := Multi(request.publicKeys, request.required, request).keys;
            && |keys| == 1 && |RecoveryKeys(request)| == 1 && |EmergencyKeys(request)| == 1
            && EmittedText(request, isPoint) ==
               StagedMiniscript(keys[0], if tapscript then "pk" else "pkh",
                 ScriptKeys(RecoveryKeys(request), tapscript)[0], MakeLock(request.lockKind, request.lockValue).value,
                 ScriptKeys(EmergencyKeys(request), tapscript)[0], SecondLock(request).value)
  {
    var shape, tapscript := ShapeOf(request, isPoint).value, request.Tapscript();
    var check := if tapscript then "pk" else "pkh";
    ShapeIsGood(request, isPoint);
    StageText(shape.second, shape.lock, check, tapscript);
    StageText(shape.third, shape.thirdLock, check, tapscript);
    StagedText(shape, tapscript);
  }

  lemma StageText(s: Signature, lock: PolicyLock, check: string, tapscript: bool)
    requires s.Good() && lock != Free && s.form == SingleKey(check)
    ensures Print(Node("and_v", "", [SignatureNode(s, tapscript, "v"), LockNode(lock, "")]))
         == "and_v" + "(" + ("v:" + (check + "(" + s.keys[0] + ")") + "," + Fragment(lock)) + ")"
  {
    PrintOfOne(check, Leaf(s.keys[0]));
    PrintOfWrapped(check, [Leaf(s.keys[0])]);
    PrintOfLock(lock);
    PrintOfPair("and_v", SignatureNode(s, tapscript, "v"), LockNode(lock, ""));
  }

  lemma StagedText(shape: Shape, tapscript: bool)
    requires shape.Good() && shape.Staged? && shape.primary.form == SingleKey("pk")
    ensures var a := Node("and_v", "", [SignatureNode(shape.second, tapscript, "v"), LockNode(shape.lock, "")]);
            var b := Node("and_v", "", [SignatureNode(shape.third, tapscript, "v"), LockNode(shape.thirdLock, "")]);
            Print(TreeOf(shape, tapscript)) ==
            "or_d" + "(" + ("pk" + "(" + shape.primary.keys[0] + ")" + ","
                            + ("or_i" + "(" + (Print(a) + "," + Print(b)) + ")")) + ")"
  {
    var a := Node("and_v", "", [SignatureNode(shape.second, tapscript, "v"), LockNode(shape.lock, "")]);
    var b := Node("and_v", "", [SignatureNode(shape.third, tapscript, "v"), LockNode(shape.thirdLock, "")]);
    PrintOfOne("pk", Leaf(shape.primary.keys[0]));
    PrintOfPair("or_i", a, b);
    PrintOfPair("or_d", SignatureNode(shape.primary, tapscript, ""), Node("or_i", "", [a, b]));
  }

  /** `buildPolicy`, mode `escalating-recovery`. */
  method BuildEscalating(request: Request, keys: seq<string>, isPoint: string -> bool) returns (r: Option<string>)
    requires request.mode == EscalatingRecovery && Common(request, isPoint)
    requires keys == Multi(request.publicKeys, request.required, request).keys
    ensures r == if ShapeOf(request, isPoint).Some? then Some(EmittedText(request, isPoint)) else None
  {
    if request.lockKind == NoLock || OrDefault(request.secondLockKind, NoLock) == NoLock {
      return None;
    }
    var tapscript := request.Tapscript();
    var recovery := OrderedPolicyKeys(OrDefault(request.recoveryPublicKeys, []), request.keyOrder, tapscript, isPoint);
    if recovery.None? {
      return None;
    }
    var required := OrDefault(request.recoveryRequired, Min(request.required, |recovery.value|));
    var emergency := OrderedPolicyKeys(OrDefault(request.emergencyPublicKeys, []), request.keyOrder, tapscript, isPoint);
    if emergency.None? {
      return None;
    }
    var emergencyRequired := OrDefault(request.emergencyRequired, Min(required, |emergency.value|));
    var first := MakeLock(request.lockKind, request.lockValue);
    if first.Err? {
      return None;
    }
    var second := MakeLock(request.secondLockKind.value, OrDefault(request.secondLockValue, 0));
    if second.Err? {
      return None;
    }
    var a := LockedMiniscript(MultisigMiniscript(recovery.value, required, tapscript), first.value);
    var b := LockedMiniscript(MultisigMiniscript(emergency.value, emergencyRequired, tapscript), second.value);
    ShapeIsGood(request, isPoint);
    EscalatingText(ShapeOf(request, isPoint).value, tapscript);
    return Some("or_i" + "(" + (MultisigMiniscript(keys, request.required, tapscript) + ","
                                + ("or_i" + "(" + (a + "," + b) + ")")) + ")");
  }

  lemma EscalatingText(shape: Shape, tapscript: bool)
    requires shape.Good() && shape.Escalating?
    requires shape.primary.form == shape.second.form == shape.third.form == Multisig
    ensures var primary, second, third := shape.primary, shape.second, shape.third;
            Print(TreeOf(shape, tapscript)) ==
            "or_i" + "(" + (MultisigMiniscript(primary.keys, primary.required, tapscript) + ","
            + ("or_i" + "(" + (LockedMiniscript(MultisigMiniscript(second.keys, second.required, tapscript), shape.lock) + ","
               + LockedMiniscript(MultisigMiniscript(third.keys, third.required, tapscript), shape.thirdLock)) + ")")) + ")"
  {
    var second, third := SignatureNode(shape.second, tapscript, ""), SignatureNode(shape.third, tapscript, "");
    PrintOfMultisig(shape.primary.keys, shape.primary.required, tapscript);
    PrintOfMultisig(shape.second.keys, shape.second.required, tapscript);
    PrintOfMultisig(shape.third.keys, shape.third.required, tapscript);
    var a, b := LockedNode(second, shape.lock), LockedNode(third, shape.thirdLock);
    PrintOfLocked(second, shape.lock);
    PrintOfLocked(third, shape.thirdLock);
    PrintOfPair("or_i", a, b);
    PrintOfPair("or_i", SignatureNode(shape.primary, tapscript, ""), Node("or_i", "", [a, b]));
  }

  /**
   * `buildPolicy` for the preset modes without MuSig2: it emits the text of the request's tree, or
   * refuses exactly when its own checks or the compiled policy do.
   */
  method BuildPolicy(request: Request, isPoint: string -> bool, library: string -> Option<Compiled>)
    returns (r: Option<string>)
    ensures r == if ShapeOf(request, isPoint).Some?
                    && CompiledIsAdmitted(library(EmittedText(request, isPoint)), request)
                 then Some(EmittedText(request, isPoint)) else None
    ensures r.Some? <==>
              && ShapeOf(request, isPoint).Some?
              && library(EmittedText(request, isPoint)).Some?
              && var compiled := library(EmittedText(request, isPoint)).value;
                 if request.wrapper == P2sh then compiled.scriptBytes <= 520 else compiled.sane
  {
    if request.coin == Dash && request.wrapper != P2sh {
      return None;
    }
    var tapscript := request.Tapscript();
    var keys := OrderedPolicyKeys(request.publicKeys, request.keyOrder, tapscript, isPoint);
    if keys.None? || request.required < 1 || request.required > |keys.value| {
      return None;
    }
    var miniscript: Option<string>;
    match request.mode {
      case HashTimeLocked => miniscript := BuildHashTimeLocked(request, keys.value, isPoint);
      case StagedRecovery => miniscript := BuildStaged(request, keys.value, isPoint);
      case EscalatingRecovery => miniscript := BuildEscalating(request, keys.value, isPoint);
      case LockedMultisig =>
        var locked := MakeLock(request.lockKind, request.lockValue);
        if locked.Err? {
          return None;
        }
        ShapeIsGood(request, isPoint);
        PrintOfMultisig(keys.value, request.required, tapscript);
        PrintOfLocked(SignatureNode(Multi(request.publicKeys, request.required, request), tapscript, ""), locked.value);
        miniscript := Some(LockedMiniscript(MultisigMiniscript(keys.value, request.required, tapscript), locked.value));
      case _ => miniscript := BuildRecovery(request, keys.value, isPoint);
    }
    if miniscript.None? || !CompiledIsAdmitted(library(miniscript.value), request) {
      return None;
    }
    return miniscript;
  }
}

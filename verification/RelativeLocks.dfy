/** Time locks: the bits of a BIP68 relative lock, and the locks a preset policy admits. */
module RelativeLocks {
  import opened Text

  const ABSOLUTE_LOCK_TIME_THRESHOLD := 500_000_000
  const SEQUENCE_MASK := 0x0000_ffff
  const TYPE_FLAG := 0x0040_0000
  const DISABLE_FLAG := 0x8000_0000
  const SECONDS_PER_UNIT := 512
  const MAXIMUM_POLICY_LOCK_VALUE := 0x7fff_ffff

  // ---------- Bitwise operators on whole numbers ----------

  function BitAnd(a: nat, b: nat): nat
  {
    if a == 0 || b == 0 then 0 else 2 * BitAnd(a / 2, b / 2) + (if a % 2 == 1 && b % 2 == 1 then 1 else 0)
  }

  function BitOr(a: nat, b: nat): nat
  {
    if a == 0 then b
    else if b == 0 then a
    else 2 * BitOr(a / 2, b / 2) + (if a % 2 == 1 || b % 2 == 1 then 1 else 0)
  }

  function Power2(k: nat): (p: nat)
    ensures p >= 1
  {
    if k == 0 then 1 else 2 * Power2(k - 1)
  }

  /** Masking with k ones keeps the value modulo the k-th power of two. */
  lemma {:induction false} AndOnes(v: nat, k: nat)
    ensures BitAnd(v, Power2(k) - 1) == v % Power2(k)
  {
    if k > 0 {
      var half := Power2(k - 1);
      AndOnes(v / 2, k - 1);
      HalvesModulo(v, half);
      assert (Power2(k) - 1) / 2 == half - 1;
    }
  }

  lemma HalvesModulo(v: nat, half: nat)
    requires half >= 1
    ensures v % (2 * half) == 2 * ((v / 2) % half) + v % 2
  {
    var h, q, r := v / 2, (v / 2) / half, (v / 2) % half;
    assert h == q * half + r;
    assert v == q * (2 * half) + (2 * r + v % 2);
    UniqueRemainder(v, 2 * half, q, 2 * r + v % 2);
  }

  lemma UniqueRemainder(v: nat, d: nat, q: nat, r: nat)
    requires d >= 1 && r < d && v == q * d + r
    ensures v % d == r && v / d == q
  {
    var q', r' := v / d, v % d;
    assert v == d * q' + r' && q * d == d * q;
    SameQuotient(d, q, r, q', r');
  }

  lemma SameQuotient(d: nat, q: nat, r: nat, q': nat, r': nat)
    requires r < d && r' < d && d * q + r == d * q' + r'
    ensures q == q' && r == r'
  {
    if q < q' {
      MoreQuotient(d, q, q');
    } else if q' < q {
      MoreQuotient(d, q', q);
    }
  }

  lemma MoreQuotient(d: nat, low: nat, high: nat)
    requires low < high
    ensures d * low + d <= d * high
  {
    var gap := high - low - 1;
    assert d * high == d * (low + 1 + gap) == d * low + d + d * gap;
  }

  /** Masking with a single bit tells whether that bit is set. */
  lemma {:induction false} AndBit(v: nat, k: nat)
    ensures BitAnd(v, Power2(k)) != 0 <==> (v / Power2(k)) % 2 == 1
  {
    if k == 0 {
      assert BitAnd(v, 1) == 2 * BitAnd(v / 2, 0) + (if v % 2 == 1 then 1 else 0) || v == 0;
    } else {
      AndBit(v / 2, k - 1);
      DivideTwice(v, Power2(k - 1));
    }
  }

  lemma DivideTwice(v: nat, half: nat)
    requires half >= 1
    ensures v / (2 * half) == (v / 2) / half
  {
    HalvesModulo(v, half);
    var q := (v / 2) / half;
    assert v / 2 == q * half + (v / 2) % half;
    assert v == q * (2 * half) + v % (2 * half);
    UniqueRemainder(v, 2 * half, q, v % (2 * half));
  }

  /** Joining a bit with a number below it adds them. */
  lemma {:induction false} OrBelow(k: nat, low: nat)
    requires low < Power2(k)
    ensures BitOr(Power2(k), low) == Power2(k) + low
  {
    if k > 0 && low > 0 {
      OrBelow(k - 1, low / 2);
    }
  }

  lemma Powers()
    ensures Power2(16) == SEQUENCE_MASK + 1 && Power2(22) == TYPE_FLAG && Power2(31) == DISABLE_FLAG
  {
    assert Power2(4) == 16;
    assert Power2(8) == 256;
    assert Power2(12) == 4096;
    assert Power2(16) == 65536;
    assert Power2(20) == 1048576;
    assert Power2(24) == 16777216;
    assert Power2(28) == 268435456;
  }

  // ---------- RelativeSequence ----------

  datatype SequenceRefusal = BadSeconds | SecondsOutOfRange

  datatype RelativeSequence = RelativeSequence(value: nat) {
    predicate Disabled() { BitAnd(value, DISABLE_FLAG) != 0 }
    predicate TimeBased() { BitAnd(value, TYPE_FLAG) != 0 }
    function Units(): nat { BitAnd(value, SEQUENCE_MASK) }
    function Seconds(): nat { Units() * SECONDS_PER_UNIT }
  }

  /** `Math.ceil(seconds / 512)` for a whole number of seconds. */
  function UnitsOf(seconds: nat): nat { (seconds + SECONDS_PER_UNIT - 1) / SECONDS_PER_UNIT }

  /** `RelativeSequence.fromSeconds`. */
  function FromSeconds(seconds: int): Result<RelativeSequence, SequenceRefusal>
  {
    if seconds < 0 then Err(BadSeconds)
    else if UnitsOf(seconds) > SEQUENCE_MASK then Err(SecondsOutOfRange)
    else Ok(RelativeSequence(BitOr(TYPE_FLAG, UnitsOf(seconds))))
  }

  /** What the bits of a lock operand say, in plain arithmetic. */
  lemma BitsOfSequence(value: nat)
    ensures var s := RelativeSequence(value);
            && s.Units() == value % 0x1_0000
            && (s.TimeBased() <==> (value / 0x40_0000) % 2 == 1)
            && (s.Disabled() <==> (value / 0x8000_0000) % 2 == 1)
  {
    Powers();
    AndOnes(value, 16);
    AndBit(value, 22);
    AndBit(value, 31);
  }

  /**
   * A requested duration is encoded as an active time lock that is never shorter and less than one
   * unit longer; it is refused exactly when it needs more than 65535 units.
   */
  lemma SecondsRoundUpTightly(seconds: int)
    ensures FromSeconds(seconds).Ok? <==> 0 <= seconds <= 65535 * 512
    ensures FromSeconds(seconds).Ok? ==>
              var s := FromSeconds(seconds).value;
              && !s.Disabled() && s.TimeBased()
              && seconds <= s.Seconds() < seconds + 512
              && 0x40_0000 <= s.value <= 0x40_ffff
  {
    hide BitAnd, BitOr;
    if seconds >= 0 {
      UnitsRoundUp(seconds);
      if UnitsOf(seconds) <= SEQUENCE_MASK {
        TimeSequence(UnitsOf(seconds));
      }
    }
  }

  lemma UnitsRoundUp(seconds: nat)
    ensures seconds <= UnitsOf(seconds) * 512 < seconds + 512
    ensures UnitsOf(seconds) <= 65535 <==> seconds <= 65535 * 512
  {
  }

  /** The encoding of a number of units, read back. */
  lemma TimeSequence(units: nat)
    requires units <= SEQUENCE_MASK
    ensures var s := RelativeSequence(BitOr(TYPE_FLAG, units));
            s.value == TYPE_FLAG + units && s.Units() == units && s.TimeBased() && !s.Disabled()
  {
    hide BitAnd, BitOr;
    Powers();
    OrBelow(22, units);
    BitsOfSequence(TYPE_FLAG + units);
  }

  /** A block delay of at most 65535 decodes to itself. */
  lemma BlocksDecodeToThemselves(blocks: nat)
    requires blocks <= SEQUENCE_MASK
    ensures var s := RelativeSequence(blocks); !s.Disabled() && !s.TimeBased() && s.Units() == blocks
  {
    BitsOfSequence(blocks);
  }

  // ---------- PolicyLock ----------

  datatype LockKind = NoLock | Height | Time | RelativeBlocks | RelativeTime

  datatype LockRefusal = BadValue | BadHeight | BadTime | TooManyBlocks | BadDuration(reason: SequenceRefusal)

  /** The Miniscript lock of a preset policy. */
  datatype PolicyLock = Free | After(operand: nat) | Older(operand: nat)

  /** The `PolicyLock` constructor. */
  function MakeLock(kind: LockKind, value: int): Result<PolicyLock, LockRefusal>
  {
    if kind == NoLock then Ok(Free)
    else if value < 0 || value > MAXIMUM_POLICY_LOCK_VALUE then Err(BadValue)
    else match kind
      case Height => if value >= ABSOLUTE_LOCK_TIME_THRESHOLD then Err(BadHeight) else Ok(After(value))
      case Time => if value < ABSOLUTE_LOCK_TIME_THRESHOLD then Err(BadTime) else Ok(After(value))
      case RelativeBlocks => if value > SEQUENCE_MASK then Err(TooManyBlocks) else Ok(Older(value))
      case _ =>
        match FromSeconds(value)
        case Err(reason) => Err(BadDuration(reason))
        case Ok(sequence) => Ok(Older(sequence.value))
  }

  /** The chain when a coin is spent: its tip, and how long ago the coin was confirmed. */
  datatype Chain = Chain(height: nat, medianTime: nat, ageBlocks: nat, ageSeconds: nat)

  const MAXIMUM_LOCK_FIELD := 0xffff_ffff

  /** BIP65: the locktime of the transaction is of the operand's kind, and not before it. */
  predicate LockTimeReaches(operand: nat, lockTime: nat)
  {
    operand <= lockTime <= MAXIMUM_LOCK_FIELD
    && (operand < ABSOLUTE_LOCK_TIME_THRESHOLD <==> lockTime < ABSOLUTE_LOCK_TIME_THRESHOLD)
  }

  /** A transaction with this locktime can go into the next block: its height, or by BIP113 its median time, is past it. */
  predicate IsFinal(lockTime: nat, chain: Chain)
  {
    lockTime == 0
    || lockTime < if lockTime < ABSOLUTE_LOCK_TIME_THRESHOLD then chain.height + 1 else chain.medianTime
  }

  /** Some spending transaction meets an absolute lock: it passes the script and can be mined next. */
  ghost predicate AfterMet(operand: nat, chain: Chain)
  {
    exists lockTime: nat :: LockTimeReaches(operand, lockTime) && IsFinal(lockTime, chain)
  }

  /** BIP112: the sequence of the input is active, of the operand's kind, and not below it. */
  predicate SequenceReaches(operand: nat, sequence: nat)
  {
    var asked, given := RelativeSequence(operand), RelativeSequence(sequence);
    sequence <= MAXIMUM_LOCK_FIELD && !given.Disabled()
    && asked.TimeBased() == given.TimeBased() && asked.Units() <= given.Units()
  }

  /** BIP68: an input with this sequence is old enough for the next block. */
  predicate IsOldEnough(sequence: nat, chain: Chain)
  {
    var given := RelativeSequence(sequence);
    if given.TimeBased() then chain.ageSeconds >= given.Seconds() else chain.ageBlocks >= given.Units()
  }

  /** Some spending transaction meets a relative lock; a disabled operand asks nothing of it. */
  ghost predicate OlderMet(operand: nat, chain: Chain)
  {
    RelativeSequence(operand).Disabled()
    || exists sequence: nat :: SequenceReaches(operand, sequence) && IsOldEnough(sequence, chain)
  }

  /** An absolute lock can be met exactly when the tip has its height, or the median time is past it. */
  lemma AfterOpens(operand: nat, chain: Chain)
    requires operand <= MAXIMUM_LOCK_FIELD
    ensures AfterMet(operand, chain)
       <==> if operand < ABSOLUTE_LOCK_TIME_THRESHOLD then chain.height >= operand else chain.medianTime > operand
  {
    if IsFinal(operand, chain) {
      assert LockTimeReaches(operand, operand);
    }
  }

  /** A relative lock that is not disabled can be met exactly when the coin is old enough for the operand itself. */
  lemma OlderOpens(operand: nat, chain: Chain)
    requires operand <= MAXIMUM_LOCK_FIELD && !RelativeSequence(operand).Disabled()
    ensures OlderMet(operand, chain) <==> IsOldEnough(operand, chain)
  {
    hide BitAnd;
    if IsOldEnough(operand, chain) {
      assert SequenceReaches(operand, operand);
    }
  }

  ghost predicate LockMet(lock: PolicyLock, chain: Chain)
  {
    match lock
    case Free => true
    case After(operand) => AfterMet(operand, chain)
    case Older(operand) => OlderMet(operand, chain)
  }

  /** What a person asked of a lock, in the units it was asked in. */
  predicate Waited(kind: LockKind, value: int, chain: Chain)
  {
    match kind
    case NoLock => true
    case Height => chain.height >= value
    case Time => chain.medianTime > value
    case RelativeBlocks => chain.ageBlocks >= value
    case RelativeTime => 0 <= value && chain.ageSeconds >= UnitsOf(value) * SECONDS_PER_UNIT
  }

  /** Some transaction meets an admitted lock exactly when the requested wait is over, durations rounded up to units. */
  lemma LockMeansTheWait(kind: LockKind, value: int, chain: Chain)
    requires MakeLock(kind, value).Ok?
    ensures LockMet(MakeLock(kind, value).value, chain) <==> Waited(kind, value, chain)
  {
    hide BitAnd, BitOr, AfterMet, OlderMet;
    if kind == Height || kind == Time {
      AfterOpens(value, chain);
    } else if kind == RelativeBlocks {
      BlocksDecodeToThemselves(value);
      OlderOpens(value, chain);
    } else if kind == RelativeTime {
      TimeSequence(UnitsOf(value));
      OlderOpens(TYPE_FLAG + UnitsOf(value), chain);
    }
  }

  /** A time lock never opens before the requested number of seconds, and is open one unit later. */
  lemma TimeLockNeverOpensEarly(seconds: int, chain: Chain)
    requires MakeLock(RelativeTime, seconds).Ok?
    ensures LockMet(MakeLock(RelativeTime, seconds).value, chain) ==> chain.ageSeconds >= seconds
    ensures chain.ageSeconds >= seconds + 511 ==> LockMet(MakeLock(RelativeTime, seconds).value, chain)
  {
    LockMeansTheWait(RelativeTime, seconds, chain);
  }

  /** Which values each kind of lock admits. */
  lemma LockAdmission(kind: LockKind, value: int)
    ensures MakeLock(kind, value).Ok? <==>
              match kind
              case NoLock => true
              case Height => 0 <= value < 500_000_000
              case Time => 500_000_000 <= value <= 0x7fff_ffff
              case RelativeBlocks => 0 <= value <= 0xffff
              case RelativeTime => 0 <= value <= 65535 * 512
  {
    SecondsRoundUpTightly(value);
  }
}

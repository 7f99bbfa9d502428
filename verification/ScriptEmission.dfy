/** Script emission: compiler tokens to bytes, and the reader that takes the bytes apart again. */
module ScriptEmission {
  import opened Text

  type Byte = b: int | 0 <= b < 256

  /** A Script operation; the empty push and the opcode 0 are one operation. */
  datatype Op = Code(opcode: Byte) | Push(data: seq<Byte>)

  // ---------- Tokens ----------

  function SpaceRun(s: string): (n: nat)
    ensures n <= |s| && (n < |s| ==> !IsSpace(s[n]))
    ensures forall i | 0 <= i < n :: IsSpace(s[i])
  {
    if s == "" || !IsSpace(s[0]) then 0 else 1 + SpaceRun(s[1..])
  }

  function InkRun(s: string): (n: nat)
    ensures n <= |s| && (n < |s| ==> IsSpace(s[n]))
    ensures forall i | 0 <= i < n :: !IsSpace(s[i])
  {
    if s == "" || IsSpace(s[0]) then 0 else 1 + InkRun(s[1..])
  }

  /** `asm.split(/\s+/u).filter(Boolean)`. */
  function Tokens(asm: string): (tokens: seq<string>)
    ensures forall t | t in tokens :: IsToken(t)
    decreases |asm|
  {
    var spaces := SpaceRun(asm);
    var rest := asm[spaces..];
    var n := InkRun(rest);
    if n == 0 then [] else [rest[..n]] + Tokens(rest[n..])
  }

  predicate IsToken(t: string) { t != "" && forall c | c in t :: !IsSpace(c) }

  /** What a Script disassembler calls an operation; "" for one the compiler does not use. */
  function OpName(opcode: Byte): string
  {
    match opcode
    case 0x00 => "OP_0"
    case 0x63 => "OP_IF"
    case 0x64 => "OP_NOTIF"
    case 0x67 => "OP_ELSE"
    case 0x68 => "OP_ENDIF"
    case 0x69 => "OP_VERIFY"
    case 0x6b => "OP_TOALTSTACK"
    case 0x6c => "OP_FROMALTSTACK"
    case 0x73 => "OP_IFDUP"
    case 0x75 => "OP_DROP"
    case 0x76 => "OP_DUP"
    case 0x7c => "OP_SWAP"
    case 0x82 => "OP_SIZE"
    case 0x87 => "OP_EQUAL"
    case 0x88 => "OP_EQUALVERIFY"
    case 0x92 => "OP_0NOTEQUAL"
    case 0x93 => "OP_ADD"
    case 0x9a => "OP_BOOLAND"
    case 0x9b => "OP_BOOLOR"
    case 0x9c => "OP_NUMEQUAL"
    case 0x9d => "OP_NUMEQUALVERIFY"
    case 0xa1 => "OP_LESSTHANOREQUAL"
    case 0xa6 => "OP_RIPEMD160"
    case 0xa8 => "OP_SHA256"
    case 0xa9 => "OP_HASH160"
    case 0xaa => "OP_HASH256"
    case 0xac => "OP_CHECKSIG"
    case 0xad => "OP_CHECKSIGVERIFY"
    case 0xae => "OP_CHECKMULTISIG"
    case 0xaf => "OP_CHECKMULTISIGVERIFY"
    case 0xb1 => "OP_CHECKLOCKTIMEVERIFY"
    case 0xb2 => "OP_CHECKSEQUENCEVERIFY"
    case 0xba => "OP_CHECKSIGADD"
    case _ => ""
  }

  /** The opcodes the compiler may name. */
  function Opcode(token: string): (r: Option<Byte>)
    ensures r.Some? ==> (r.value == 0 && token == "OP_0") || r.value > 0x4e
    ensures r.Some? ==> |token| > 3 && token[0] == 'O' && token == OpName(r.value)
  {
    match token
    case "OP_0" => Some(0x00)
    case "OP_IF" => Some(0x63)
    case "OP_NOTIF" => Some(0x64)
    case "OP_ELSE" => Some(0x67)
    case "OP_ENDIF" => Some(0x68)
    case "OP_VERIFY" => Some(0x69)
    case "OP_TOALTSTACK" => Some(0x6b)
    case "OP_FROMALTSTACK" => Some(0x6c)
    case "OP_IFDUP" => Some(0x73)
    case "OP_DROP" => Some(0x75)
    case "OP_DUP" => Some(0x76)
    case "OP_SWAP" => Some(0x7c)
    case "OP_SIZE" => Some(0x82)
    case "OP_EQUAL" => Some(0x87)
    case "OP_EQUALVERIFY" => Some(0x88)
    case "OP_0NOTEQUAL" => Some(0x92)
    case "OP_ADD" => Some(0x93)
    case "OP_BOOLAND" => Some(0x9a)
    case "OP_BOOLOR" => Some(0x9b)
    case "OP_NUMEQUAL" => Some(0x9c)
    case "OP_NUMEQUALVERIFY" => Some(0x9d)
    case "OP_LESSTHANOREQUAL" => Some(0xa1)
    case "OP_RIPEMD160" => Some(0xa6)
    case "OP_SHA256" => Some(0xa8)
    case "OP_HASH160" => Some(0xa9)
    case "OP_HASH256" => Some(0xaa)
    case "OP_CHECKSIG" => Some(0xac)
    case "OP_CHECKSIGVERIFY" => Some(0xad)
    case "OP_CHECKMULTISIG" => Some(0xae)
    case "OP_CHECKMULTISIGVERIFY" => Some(0xaf)
    case "OP_CHECKLOCKTIMEVERIFY" => Some(0xb1)
    case "OP_CHECKSEQUENCEVERIFY" => Some(0xb2)
    case "OP_CHECKSIGADD" => Some(0xba)
    case _ => None
  }

  /** `/^(?:0|[1-9]|1[0-6])$/u`: the number a token names. */
  function SmallNumber(token: string): (r: Option<nat>)
    ensures r.Some? ==> r.value <= 16
  {
    if |token| == 1 && IsDigit(token[0]) then Some(token[0] as int - '0' as int)
    else if |token| == 2 && token[0] == '1' && '0' <= token[1] <= '6' then Some(10 + token[1] as int - '0' as int)
    else None
  }

  predicate IsHexDigit(c: char) { IsDigit(c) || 'a' <= c <= 'f' || 'A' <= c <= 'F' }

  predicate AllHexDigits(s: string) { forall c | c in s :: IsHexDigit(c) }

  function Nibble(c: char): (n: nat)
    requires IsHexDigit(c)
    ensures n < 16
  {
    if IsDigit(c) then c as int - '0' as int
    else if 'a' <= c <= 'f' then 10 + c as int - 'a' as int
    else 10 + c as int - 'A' as int
  }

  /** `hexToBytes`. */
  function HexBytes(s: string): (r: seq<Byte>)
    requires AllHexDigits(s) && |s| % 2 == 0
    ensures 2 * |r| == |s|
  {
    if s == "" then [] else [16 * Nibble(s[0]) + Nibble(s[1])] + HexBytes(s[2..])
  }

  /** The text between `<` and `>` of a push token. */
  function Pushed(token: string): Option<string>
  {
    if |token| >= 2 && token[0] == '<' && token[|token| - 1] == '>' && AllHexDigits(token[1..|token| - 1])
    then Some(token[1..|token| - 1]) else None
  }

  /** The public key of a `<HASH160(key)>` token. */
  function HashedKey(token: string): (r: Option<string>)
    ensures r.Some? ==> AllHexDigits(r.value) && |r.value| % 2 == 0
  {
    var head := "<HASH160(";
    if |token| >= |head| + 2 && token[..|head|] == head && token[|token| - 2..] == ")>" then
      var key := token[|head|..|token| - 2];
      if AllHexDigits(key) && (|key| == 64 || |key| == 66 || (|key| == 130 && key[..2] == "04"))
      then Some(key) else None
    else None
  }

  // ---------- Emission ----------

  /** `pushData`; None is the refusal of an element that is too large. */
  function PushData(data: seq<Byte>): Option<seq<Byte>>
  {
    var n := |data|;
    if n <= 75 then Some([n] + data)
    else if n <= 0xff then Some([0x4c, n] + data)
    else if n <= 0xffff then Some([0x4d, n % 0x100, n / 0x100] + data)
    else None
  }

  type Hash160 = seq<Byte> -> seq<Byte>

  /** The bytes of one token; None is the refusal of the token. */
  function TokenBytes(token: string, hash160: Hash160): Option<seq<Byte>>
  {
    if Opcode(token).Some? then Some([Opcode(token).value])
    else if SmallNumber(token).Some? then
      Some([if token == "0" then 0x00 else 0x50 + SmallNumber(token).value])
    else if Pushed(token).Some? && |Pushed(token).value| % 2 == 0 then PushData(HexBytes(Pushed(token).value))
    else if HashedKey(token).Some? then PushData(hash160(HexBytes(HashedKey(token).value)))
    else None
  }

  function ScriptOf(tokens: seq<string>, hash160: Hash160): Option<seq<Byte>>
  {
    if tokens == [] then Some([])
    else
      var last := |tokens| - 1;
      match (ScriptOf(tokens[..last], hash160), TokenBytes(tokens[last], hash160))
      case (Some(bytes), Some(more)) => Some(bytes + more)
      case _ => None
  }

  /** What a token asks for; None when it is not supported. */
  function Operation(token: string, hash160: Hash160): Option<Op>
  {
    if Opcode(token).Some? then Some(if token == "OP_0" then Push([]) else Code(Opcode(token).value))
    else if SmallNumber(token).Some? then
      Some(if SmallNumber(token).value == 0 then Push([]) else Code(0x50 + SmallNumber(token).value))
    else if Pushed(token).Some? && |Pushed(token).value| % 2 == 0 then Some(Push(HexBytes(Pushed(token).value)))
    else if HashedKey(token).Some? then Some(Push(hash160(HexBytes(HashedKey(token).value))))
    else None
  }

  predicate Supported(token: string, hash160: Hash160)
  {
    match Operation(token, hash160)
    case None => false
    case Some(Code(_)) => true
    case Some(Push(data)) => |data| <= 0xffff
  }

  predicate AllSupported(tokens: seq<string>, hash160: Hash160)
  {
    forall i | 0 <= i < |tokens| :: Supported(tokens[i], hash160)
  }

  function OpOf(token: string, hash160: Hash160): Op
    requires Supported(token, hash160)
  {
    Operation(token, hash160).value
  }

  function Operations(tokens: seq<string>, hash160: Hash160): (r: seq<Op>)
    requires AllSupported(tokens, hash160)
    ensures |r| == |tokens|
  {
    seq(|tokens|, i requires 0 <= i < |tokens| => OpOf(tokens[i], hash160))
  }

  /** `scriptFromMiniscriptAsm`. */
  method ScriptFromMiniscriptAsm(asm: string, hash160: Hash160) returns (r: Option<seq<Byte>>)
    ensures r == ScriptOf(Tokens(asm), hash160)
  {
    hide Opcode, SmallNumber, HashedKey, HexBytes, PushData, Tokens, ScriptOf, IsToken;
    var tokens := Tokens(asm);
    var bytes: seq<Byte> := [];
    NoTokens(hash160);
    for i := 0 to |tokens|
      invariant ScriptOf(tokens[..i], hash160) == Some(bytes)
    {
      var token := tokens[i];
      if TokenBytes(token, hash160).Some? {
        OneMoreToken(tokens, i, hash160);
      }
      var opcode := Opcode(token);
      if opcode.Some? {
        bytes := bytes + [opcode.value];
        continue;
      }
      var small := SmallNumber(token);
      if small.Some? {
        bytes := bytes + [if token == "0" then 0x00 else 0x50 + small.value];
        continue;
      }
      var pushed, hashed := Pushed(token), HashedKey(token);
      if pushed.Some? && |pushed.value| % 2 == 0 {
        var push := PushData(HexBytes(pushed.value));
        if push.None? {
          RefusedScript(tokens, i, hash160);
          return None;
        }
        bytes := bytes + push.value;
        continue;
      }
      if hashed.Some? {
        var push := PushData(hash160(HexBytes(hashed.value)));
        if push.None? {
          RefusedScript(tokens, i, hash160);
          return None;
        }
        bytes := bytes + push.value;
        continue;
      }
      RefusedScript(tokens, i, hash160);
      return None;
    }
    assert tokens[..|tokens|] == tokens;
    return Some(bytes);
  }

  lemma NoTokens(hash160: Hash160)
    ensures ScriptOf([], hash160) == Some([])
  {
  }

  lemma OneMoreToken(tokens: seq<string>, i: nat, hash160: Hash160)
    requires i < |tokens| && ScriptOf(tokens[..i], hash160).Some? && TokenBytes(tokens[i], hash160).Some?
    ensures ScriptOf(tokens[..i + 1], hash160)
         == Some(ScriptOf(tokens[..i], hash160).value + TokenBytes(tokens[i], hash160).value)
  {
    hide TokenBytes;
    assert tokens[..i + 1][..i] == tokens[..i];
  }

  lemma {:induction false} RefusedScript(tokens: seq<string>, i: nat, hash160: Hash160)
    requires i < |tokens| && TokenBytes(tokens[i], hash160).None?
    ensures ScriptOf(tokens, hash160).None?
  {
    if i < |tokens| - 1 {
      RefusedScript(tokens[..|tokens| - 1], i, hash160);
    }
  }

  // ---------- The reader ----------

  /** `count` bytes after a header of `header` bytes, and what follows; None when bytes are missing. */
  function Take(script: seq<Byte>, header: nat, count: nat): (r: Option<(Op, seq<Byte>)>)
    ensures r.Some? <==> header + count <= |script|
    ensures r.Some? ==> r.value.1 == script[header + count..] && r.value.0 == Push(script[header..header + count])
  {
    if header + count <= |script| then Some((Push(script[header..header + count]), script[header + count..])) else None
  }

  /** A little-endian number. */
  function Little(bytes: seq<Byte>): nat
  {
    if bytes == [] then 0 else bytes[0] + 0x100 * Little(bytes[1..])
  }

  lemma LittleOfTwo(a: Byte, b: Byte)
    ensures Little([a, b]) == a + 0x100 * b
  {
    assert [a, b][1..] == [b] && [b][1..] == [];
    assert Little([b]) == b;
  }

  /** The first operation of a script and the rest, with all four push forms. */
  function ReadOp(script: seq<Byte>): (r: Option<(Op, seq<Byte>)>)
    requires script != []
    ensures r.Some? ==> |r.value.1| < |script|
  {
    var b := script[0];
    if b <= 75 then Take(script, 1, b)
    else if b == 0x4c then if |script| < 2 then None else Take(script, 2, script[1])
    else if b == 0x4d then if |script| < 3 then None else Take(script, 3, Little(script[1..3]))
    else if b == 0x4e then
      if |script| < 5 then None
      else Take(script, 5, Little(script[1..5]))
    else Some((Code(b), script[1..]))
  }

  /** A script taken apart; None when a push runs past the end. */
  function Decode(script: seq<Byte>): Option<seq<Op>>
    decreases |script|
  {
    if script == [] then Some([])
    else match ReadOp(script)
      case None => None
      case Some((op, rest)) =>
        match Decode(rest) case None => None case Some(ops) => Some([op] + ops)
  }

  // ---------- Reading undoes emitting ----------

  lemma EmptyPush()
    ensures PushData([]) == Some([0])
  {
    var empty: seq<Byte> := [];
    assert [0] + empty == [0];
  }

  /** The bytes of an operation, whatever token asked for it. */
  lemma TokenIsItsOperation(token: string, hash160: Hash160)
    ensures TokenBytes(token, hash160).Some? <==> Supported(token, hash160)
    ensures Supported(token, hash160) ==>
              match OpOf(token, hash160)
              case Code(b) => b > 0x4e && TokenBytes(token, hash160) == Some([b])
              case Push(data) => TokenBytes(token, hash160) == PushData(data)
  {
    if Opcode(token).Some? {
      EmptyPush();
    } else if SmallNumber(token).Some? {
      EmptyPush();
      assert SmallNumber(token).value == 0 <==> token == "0";
    }
  }

  lemma ReadOfPush(data: seq<Byte>, rest: seq<Byte>)
    requires PushData(data).Some?
    ensures ReadOp(PushData(data).value + rest) == Some((Push(data), rest))
  {
    var bytes := PushData(data).value;
    var header := |bytes| - |data|;
    var script := bytes + rest;
    assert script[header..header + |data|] == data && script[header + |data|..] == rest;
    if 0xff < |data| {
      var low, high := |data| % 0x100, |data| / 0x100;
      LittleOfTwo(low, high);
      assert script[1..3] == [low, high];
    }
  }

  lemma ReadOfToken(token: string, hash160: Hash160, rest: seq<Byte>)
    requires Supported(token, hash160)
    ensures TokenBytes(token, hash160).Some? && TokenBytes(token, hash160).value != []
    ensures ReadOp(TokenBytes(token, hash160).value + rest) == Some((OpOf(token, hash160), rest))
  {
    hide TokenBytes, OpOf, Supported;
    TokenIsItsOperation(token, hash160);
    match OpOf(token, hash160)
    case Code(b) =>
      assert ([b] + rest)[1..] == rest;
    case Push(data) =>
      ReadOfPush(data, rest);
  }

  /** Exactly the token lists whose every token is supported are emitted. */
  lemma {:induction false} ScriptNeedsSupport(tokens: seq<string>, hash160: Hash160)
    ensures ScriptOf(tokens, hash160).Some? <==> AllSupported(tokens, hash160)
  {
    if tokens != [] {
      hide TokenBytes, Supported, OpOf, Operation;
      var front, token := tokens[..|tokens| - 1], tokens[|tokens| - 1];
      ScriptNeedsSupport(front, hash160);
      TokenIsItsOperation(token, hash160);
      SupportOfLast(front, token, hash160);
      hide AllSupported;
      assert tokens == front + [token];
    }
  }

  lemma SupportOfLast(front: seq<string>, token: string, hash160: Hash160)
    ensures AllSupported(front + [token], hash160) <==> AllSupported(front, hash160) && Supported(token, hash160)
  {
    hide Supported;
    var all := front + [token];
    assert all[|front|] == token && forall i | 0 <= i < |front| :: all[i] == front[i];
  }

  lemma OpsOfLast(tokens: seq<string>, hash160: Hash160)
    requires tokens != [] && AllSupported(tokens, hash160)
    ensures var front, token := tokens[..|tokens| - 1], tokens[|tokens| - 1];
            && AllSupported(front, hash160) && Supported(token, hash160)
            && Operations(tokens, hash160) == Operations(front, hash160) + [OpOf(token, hash160)]
  {
    hide OpOf, Supported;
  }

  lemma DecodeOfToken(token: string, hash160: Hash160, rest: seq<Byte>, ops: seq<Op>)
    requires Supported(token, hash160) && Decode(rest) == Some(ops)
    ensures TokenBytes(token, hash160).Some?
    ensures Decode(TokenBytes(token, hash160).value + rest) == Some([OpOf(token, hash160)] + ops)
  {
    hide TokenBytes, OpOf, Supported, ReadOp;
    ReadOfToken(token, hash160, rest);
  }

  /** What is read over the bytes of some tokens, with more bytes after them. */
  lemma {:induction false} DecodeOfTokens(tokens: seq<string>, hash160: Hash160, rest: seq<Byte>, ops: seq<Op>)
    requires ScriptOf(tokens, hash160).Some? && AllSupported(tokens, hash160) && Decode(rest) == Some(ops)
    ensures Decode(ScriptOf(tokens, hash160).value + rest) == Some(Operations(tokens, hash160) + ops)
    decreases |tokens|
  {
    hide TokenBytes, OpOf, Supported, AllSupported, Operations, Decode;
    if tokens == [] {
      assert [] + rest == rest && [] + ops == ops;
      assert |Operations(tokens, hash160)| == 0;
    } else {
      var front, token := tokens[..|tokens| - 1], tokens[|tokens| - 1];
      var bytes, more := ScriptOf(front, hash160).value, TokenBytes(token, hash160).value;
      OpsOfLast(tokens, hash160);
      ScriptNeedsSupport(front, hash160);
      DecodeOfToken(token, hash160, rest, ops);
      var op := OpOf(token, hash160);
      DecodeOfTokens(front, hash160, more + rest, [op] + ops);
      assert bytes + more + rest == bytes + (more + rest);
      assert Operations(front, hash160) + [op] + ops == Operations(front, hash160) + ([op] + ops);
    }
  }

  /** A Script reader takes emitted bytes apart into the operations the tokens asked for. */
  lemma EmissionIsDecoded(asm: string, hash160: Hash160)
    requires ScriptOf(Tokens(asm), hash160).Some?
    ensures AllSupported(Tokens(asm), hash160)
    ensures Decode(ScriptOf(Tokens(asm), hash160).value) == Some(Operations(Tokens(asm), hash160))
  {
    hide ScriptOf, Operations, AllSupported, Tokens;
    var tokens := Tokens(asm);
    ScriptNeedsSupport(tokens, hash160);
    var script, ops := ScriptOf(tokens, hash160).value, Operations(tokens, hash160);
    DecodeOfTokens(tokens, hash160, [], []);
    assert script + [] == script && ops + [] == ops;
  }

  /** The bytes depend on the operations alone. */
  lemma {:induction false} SameOperationsSameBytes(a: seq<string>, b: seq<string>, hash160: Hash160)
    requires AllSupported(a, hash160) && AllSupported(b, hash160)
    requires Operations(a, hash160) == Operations(b, hash160)
    ensures ScriptOf(a, hash160) == ScriptOf(b, hash160)
    decreases |a|
  {
    hide TokenBytes, OpOf, Supported, AllSupported, Operations;
    assert |a| == |b|;
    if a != [] {
      OpsOfLast(a, hash160);
      OpsOfLast(b, hash160);
      var p, q := Operations(a[..|a| - 1], hash160), Operations(b[..|b| - 1], hash160);
      LastsAgree(p, q, OpOf(a[|a| - 1], hash160), OpOf(b[|b| - 1], hash160));
      SameOperationsSameBytes(a[..|a| - 1], b[..|b| - 1], hash160);
      TokenIsItsOperation(a[|a| - 1], hash160);
      TokenIsItsOperation(b[|b| - 1], hash160);
    }
  }

  lemma LastsAgree(p: seq<Op>, q: seq<Op>, x: Op, y: Op)
    requires p + [x] == q + [y]
    ensures p == q && x == y
  {
    assert (p + [x])[..|p|] == p && (q + [y])[..|q|] == q;
    assert (p + [x])[|p|] == x && (q + [y])[|q|] == y;
  }

  /** Two token lists give the same bytes exactly when they ask for the same operations. */
  lemma SameBytesSameOperations(a: string, b: string, hash160: Hash160)
    requires ScriptOf(Tokens(a), hash160).Some? && ScriptOf(Tokens(b), hash160).Some?
    ensures AllSupported(Tokens(a), hash160) && AllSupported(Tokens(b), hash160)
    ensures ScriptOf(Tokens(a), hash160) == ScriptOf(Tokens(b), hash160)
       <==> Operations(Tokens(a), hash160) == Operations(Tokens(b), hash160)
  {
    hide ScriptOf, Operations, AllSupported, Tokens;
    EmissionIsDecoded(a, hash160);
    EmissionIsDecoded(b, hash160);
    if Operations(Tokens(a), hash160) == Operations(Tokens(b), hash160) {
      SameOperationsSameBytes(Tokens(a), Tokens(b), hash160);
    }
  }

  /** A push takes at least the bytes of its emitted form, whichever form it has. */
  lemma ReadPushIsLong(script: seq<Byte>, data: seq<Byte>, rest: seq<Byte>)
    requires script != [] && ReadOp(script) == Some((Push(data), rest)) && |data| <= 0xffff
    ensures PushData(data).Some? && |PushData(data).value| + |rest| <= |script|
  {
    hide Little;
    if script[0] == 0x4c {
      assert |data| == script[1];
    }
  }

  /** No script that reads as one push of the data is shorter than the one emitted. */
  lemma PushIsShortest(data: seq<Byte>, script: seq<Byte>)
    requires Decode(script) == Some([Push(data)]) && |data| <= 0xffff
    ensures PushData(data).Some? && |PushData(data).value| <= |script|
  {
    hide ReadOp, PushData;
    var (op, rest) := ReadOp(script).value;
    var ops := Decode(rest).value;
    assert ([op] + ops)[0] == op;
    ReadPushIsLong(script, data, rest);
  }

  // ---------- The text that tokens and bytes stand for ----------

  /** What an opcode is called names it. */
  lemma NameHasItsOpcode(opcode: Byte)
    requires OpName(opcode) != ""
    ensures Opcode(OpName(opcode)) == Some(opcode)
  {
  }

  function HexDigit(n: nat): char
    requires n < 16
  {
    if n < 10 then '0' + n as char else 'a' + (n - 10) as char
  }

  /** Bytes in hexadecimal, two digits each. */
  function HexText(bytes: seq<Byte>): string
  {
    if bytes == [] then "" else [HexDigit(bytes[0] / 16), HexDigit(bytes[0] % 16)] + HexText(bytes[1..])
  }

  lemma NibbleIsItsDigit(c: char)
    requires IsHexDigit(c)
    ensures [HexDigit(Nibble(c))] == Lower([c])
  {
  }

  lemma LowerOfParts(a: string, b: string)
    ensures Lower(a + b) == Lower(a) + Lower(b)
  {
  }

  lemma DigitsOfByte(high: nat, low: nat)
    requires high < 16 && low < 16
    ensures HexText([16 * high + low]) == [HexDigit(high), HexDigit(low)]
  {
    var byte: Byte := 16 * high + low;
    assert byte / 16 == high && byte % 16 == low;
    hide HexDigit;
    assert [byte][1..] == [];
    assert HexText([byte]) == [HexDigit(high), HexDigit(low)] + HexText([]);
  }

  lemma TwoDigits(a: char, b: char)
    requires IsHexDigit(a) && IsHexDigit(b)
    ensures HexText([16 * Nibble(a) + Nibble(b)]) == Lower([a, b])
  {
    NibbleIsItsDigit(a);
    NibbleIsItsDigit(b);
    DigitsOfByte(Nibble(a), Nibble(b));
    hide Nibble, HexText, Lower, IsHexDigit, HexDigit;
    LowerOfParts([a], [b]);
    assert [a, b] == [a] + [b];
    assert [HexDigit(Nibble(a)), HexDigit(Nibble(b))] == [HexDigit(Nibble(a))] + [HexDigit(Nibble(b))];
  }

  lemma HexTextOfFirst(byte: Byte, rest: seq<Byte>)
    ensures HexText([byte] + rest) == HexText([byte]) + HexText(rest)
  {
    assert ([byte] + rest)[1..] == rest && [byte][1..] == [];
    hide HexDigit;
    var digits := [HexDigit(byte / 16), HexDigit(byte % 16)];
    assert HexText([byte]) == digits + HexText([]) == digits;
  }

  /** Writing the bytes of a hexadecimal text gives the text back in lower case. */
  lemma {:induction false} HexTextOfBytes(s: string)
    requires AllHexDigits(s) && |s| % 2 == 0
    ensures HexText(HexBytes(s)) == Lower(s)
    decreases |s|
  {
    if s != "" {
      assert s[0] in s && s[1] in s;
      TwoDigits(s[0], s[1]);
      assert AllHexDigits(s[2..]);
      assert HexBytes(s) == [16 * Nibble(s[0]) + Nibble(s[1])] + HexBytes(s[2..]);
      hide HexBytes, HexText, Lower, AllHexDigits, Nibble;
      HexTextOfBytes(s[2..]);
      HexTextOfFirst(16 * Nibble(s[0]) + Nibble(s[1]), HexBytes(s[2..]));
      LowerOfParts([s[0], s[1]], s[2..]);
      assert s == [s[0], s[1]] + s[2..];
    }
  }

  /** The named opcodes are asked for by name; OP_0 asks for the empty push. */
  lemma MeaningOfName(opcode: Byte, hash160: Hash160)
    requires OpName(opcode) != ""
    ensures Operation(OpName(opcode), hash160) == Some(if opcode == 0 then Push([]) else Code(opcode))
  {
    NameHasItsOpcode(opcode);
    NameHasItsOpcode(0);
    hide Opcode;
    if OpName(opcode) == "OP_0" {
      assert OpName(0) == "OP_0";
    }
  }

  /** The numbers from 0 to 16 are asked for in decimal; 0 is the empty push. */
  lemma MeaningOfNumber(n: nat, hash160: Hash160)
    requires n <= 16
    ensures Operation(Decimal(n), hash160) == Some(if n == 0 then Push([]) else Code(0x50 + n))
  {
    hide Opcode;
    assert n >= 10 ==> Decimal(n) == [Digit(1), Digit(n - 10)];
  }

  /** A text between angle brackets is a push of the bytes that its hexadecimal digits spell. */
  lemma MeaningOfPush(hex: string, hash160: Hash160) returns (data: seq<Byte>)
    requires AllHexDigits(hex) && |hex| % 2 == 0
    ensures Operation("<" + hex + ">", hash160) == Some(Push(data)) && HexText(data) == Lower(hex)
  {
    hide Opcode, HexBytes, OpName, HexText, Lower;
    var token := "<" + hex + ">";
    assert token[0] == '<' && Opcode(token).None? && SmallNumber(token).None?;
    assert token[1..|token| - 1] == hex;
    data := HexBytes(hex);
    HexTextOfBytes(hex);
  }

  /** A bracketed HASH160 of a key is a push of the hash of the key's bytes. */
  lemma MeaningOfHashedKey(hex: string, hash160: Hash160) returns (key: seq<Byte>)
    requires IsKeyText(hex)
    ensures Operation("<HASH160(" + hex + ")>", hash160) == Some(Push(hash160(key))) && HexText(key) == Lower(hex)
  {
    hide Opcode, HexBytes, OpName, HexText, Lower;
    var token := "<HASH160(" + hex + ")>";
    assert token[0] == '<' && Opcode(token).None? && SmallNumber(token).None?;
    var inside := token[1..|token| - 1];
    assert inside[0] == 'H' && inside[0] in inside;
    assert Pushed(token).None?;
    assert token[9..|token| - 2] == hex && token[|token| - 2..] == ")>" && token[..9] == "<HASH160(";
    assert HashedKey(token) == Some(hex);
    key := HexBytes(hex);
    HexTextOfBytes(hex);
  }

  lemma NumberIsDecimal(token: string)
    requires SmallNumber(token).Some?
    ensures token == Decimal(SmallNumber(token).value)
  {
    var n := SmallNumber(token).value;
    assert n >= 10 ==> Decimal(n) == [Digit(1), Digit(n - 10)];
  }

  /** No other token asks for anything. */
  lemma SupportedForms(token: string, hash160: Hash160)
    requires Operation(token, hash160).Some?
    ensures || (exists opcode: Byte :: OpName(opcode) != "" && token == OpName(opcode))
            || (exists n: nat :: n <= 16 && token == Decimal(n))
            || (exists hex :: AllHexDigits(hex) && |hex| % 2 == 0 && token == "<" + hex + ">")
            || (exists hex :: IsKeyText(hex) && token == "<HASH160(" + hex + ")>")
  {
    if Opcode(token).Some? {
    } else if SmallNumber(token).Some? {
      NumberIsDecimal(token);
    } else if Pushed(token).Some? && |Pushed(token).value| % 2 == 0 {
      var hex := Pushed(token).value;
      assert token == "<" + hex + ">" && AllHexDigits(hex);
    } else {
      var hex := HashedKey(token).value;
      assert token == token[..9] + hex + token[|token| - 2..];
      assert token == "<HASH160(" + hex + ")>";
      assert |hex| == 130 ==> "04" <= hex;
      assert IsKeyText(hex);
    }
  }

  /** The hexadecimal text of an x-only, a compressed or an uncompressed key. */
  predicate IsKeyText(hex: string)
  {
    AllHexDigits(hex) && (|hex| == 64 || |hex| == 66 || (|hex| == 130 && "04" <= hex))
  }

  // ---------- How a text is cut into tokens ----------

  /** `texts` with the white space of `gaps` around and between them. */
  function Spaced(texts: seq<string>, gaps: seq<string>): string
    requires |gaps| == |texts| + 1
  {
    if texts == [] then gaps[0] else gaps[0] + (texts[0] + Spaced(texts[1..], gaps[1..]))
  }

  /** White space only, and some of it everywhere but at the two ends. */
  predicate AreGaps(gaps: seq<string>)
  {
    && (forall i | 0 <= i < |gaps| :: AllSpace(gaps[i]))
    && (forall i | 0 < i < |gaps| - 1 :: gaps[i] != "")
  }

  predicate AllSpace(s: string) { forall c | c in s :: IsSpace(c) }

  lemma {:induction false} SpaceRunStops(a: string, rest: string)
    requires AllSpace(a) && (rest == "" || !IsSpace(rest[0]))
    ensures SpaceRun(a + rest) == |a|
  {
    if a == "" {
      assert a + rest == rest;
    } else {
      assert (a + rest)[1..] == a[1..] + rest && a[0] in a;
      SpaceRunStops(a[1..], rest);
    }
  }

  lemma {:induction false} InkRunStops(a: string, rest: string)
    requires (forall c | c in a :: !IsSpace(c)) && (rest == "" || IsSpace(rest[0]))
    ensures InkRun(a + rest) == |a|
  {
    if a == "" {
      assert a + rest == rest;
    } else {
      assert (a + rest)[1..] == a[1..] + rest && a[0] in a;
      InkRunStops(a[1..], rest);
    }
  }

  lemma FirstToken(gap: string, token: string, rest: string)
    requires AllSpace(gap) && IsToken(token) && (rest == "" || IsSpace(rest[0]))
    ensures Tokens(gap + (token + rest)) == [token] + Tokens(rest)
  {
    var asm := gap + (token + rest);
    assert token[0] in token;
    SpaceRunStops(gap, token + rest);
    InkRunStops(token, rest);
    assert asm[|gap|..] == token + rest;
    assert (token + rest)[..|token|] == token && (token + rest)[|token|..] == rest;
  }

  lemma OnlySpace(gap: string)
    requires AllSpace(gap)
    ensures Tokens(gap) == []
  {
    SpaceRunStops(gap, "");
    assert gap + "" == gap;
  }

  lemma SpaceComesNext(texts: seq<string>, gaps: seq<string>)
    requires texts != [] && |gaps| == |texts| + 1 && AreGaps(gaps)
    ensures AreGaps(gaps[1..])
    ensures var rest := Spaced(texts[1..], gaps[1..]); rest == "" || IsSpace(rest[0])
  {
    var after := gaps[1..];
    assert forall i | 0 <= i < |after| :: after[i] == gaps[i + 1];
    if after[0] != "" {
      assert after[0][0] in after[0];
    }
  }

  /** Cutting a text at its white space gives back the tokens it was spaced from. */
  lemma {:induction false} TokensOfSpaced(texts: seq<string>, gaps: seq<string>)
    requires |gaps| == |texts| + 1 && AreGaps(gaps) && forall i | 0 <= i < |texts| :: IsToken(texts[i])
    ensures Tokens(Spaced(texts, gaps)) == texts
    decreases |texts|
  {
    hide Tokens, IsToken, AllSpace;
    if texts == [] {
      OnlySpace(gaps[0]);
    } else {
      SpaceComesNext(texts, gaps);
      hide AreGaps;
      FirstToken(gaps[0], texts[0], Spaced(texts[1..], gaps[1..]));
      TokensOfSpaced(texts[1..], gaps[1..]);
      assert texts == [texts[0]] + texts[1..];
    }
  }
}

/** Ranged multisig wallets: address rows built directly, and the descriptor that must derive the same. */
module MultisigWallet {
  import opened Text
  import opened BalancedSyntax
  import opened DescriptorSyntax
  import opened DescriptorCompiler
  import opened RelativeLocks
  import opened KeyOrder
  import opened PolicyRequest
  import opened PolicyTree
  import opened PolicyBuilder

  /** An account key: its bracketed origin, if any, and its extended public key. */
  datatype Account = Account(origin: string, xpub: string)

  datatype WalletRequest = WalletRequest(
    coin: Coin,
    required: int,
    keyOrder: Order,
    wrapper: Wrapper,
    accounts: seq<Account>,
    branches: seq<nat>,
    startIndex: int,
    endIndex: int
  ) {
    /** Dash wallets use P2SH whatever was asked. */
    function ChosenWrapper(): Wrapper { if coin == Dash then P2sh else wrapper }

    function Count(): int { endIndex - startIndex + 1 }
  }

  const MAX_BIP32_INDEX := 0x7fff_ffff
  const MAX_ADDRESSES_PER_BRANCH := 200

  /** Text between delimiters: what base58 keys and the steps of a key origin are made of. */
  predicate Bare(text: string)
  {
    forall c | c in text :: !IsDelimiter(c) && c != ':'
  }

  /** An account as the parser of account lines leaves it: bracketed origin or none, base58 key. */
  predicate GoodAccount(account: Account)
  {
    && Bare(account.xpub)
    && (account.origin == "" || (
          && |account.origin| >= 2 && account.origin[0] == '[' && account.origin[|account.origin| - 1] == ']'
          && Bare(account.origin[1..|account.origin| - 1])))
  }

  /** `assertRequest`, for accounts that were parsed. */
  predicate AdmittedWallet(request: WalletRequest)
  {
    && request.wrapper != P2tr
    && 1 <= |request.accounts| <= (if request.ChosenWrapper() == P2sh then 15 else 20)
    && 1 <= request.required <= |request.accounts|
    && 1 <= |request.branches| <= 2
    && (forall branch | branch in request.branches :: branch <= 1)
    && (|request.branches| == 2 ==> request.branches[0] != request.branches[1])
    && 0 <= request.startIndex <= request.endIndex <= MAX_BIP32_INDEX
    && request.Count() <= MAX_ADDRESSES_PER_BRANCH
    && forall account | account in request.accounts :: GoodAccount(account)
  }

  // ---------- Rows ----------

  /** The public key text of an account at a branch and index; None when none is derived. */
  type Derivation = (Account, nat, nat) -> Option<string>

  predicate Derives(accounts: seq<Account>, derive: Derivation, branch: nat, index: nat)
  {
    forall i | 0 <= i < |accounts| :: derive(accounts[i], branch, index).Some?
  }

  function DerivedKeys(accounts: seq<Account>, derive: Derivation, branch: nat, index: nat): (r: seq<string>)
    ensures |r| == |accounts|
    ensures forall i | 0 <= i < |accounts| :: r[i] == OrDefault(derive(accounts[i], branch, index), "")
  {
    Map(account => OrDefault(derive(account, branch, index), ""), accounts)
  }

  datatype Row = Row(branch: nat, index: nat, publicKeys: seq<string>, miniscript: string)

  /** The policy a row is built from: an unlocked multisig of the derived keys. */
  function RowPolicy(request: WalletRequest, keys: seq<string>): Request
  {
    Request(request.coin, request.required, keys, request.keyOrder, NoLock, 0, request.ChosenWrapper(),
            LockedMultisig, None, None, None, None, None, None, None, None, None)
  }

  /** What a row needs from outside: derivation, the point decoder and the Miniscript library. */
  datatype Outside = Outside(derive: Derivation, isPoint: string -> bool, library: string -> Option<Compiled>)

  /** `deriveRow`; None when a key does not derive or the policy refuses the keys. */
  function RowOf(request: WalletRequest, outside: Outside, branch: nat, index: nat): Option<Row>
  {
    if !Derives(request.accounts, outside.derive, branch, index) then None
    else
      var keys := DerivedKeys(request.accounts, outside.derive, branch, index);
      var policy := RowPolicy(request, keys);
      if ShapeOf(policy, outside.isPoint).None?
         || !CompiledIsAdmitted(outside.library(EmittedText(policy, outside.isPoint)), policy) then None
      else Some(Row(branch, index, Arranged(keys, request.keyOrder), EmittedText(policy, outside.isPoint)))
  }

  method DeriveRow(request: WalletRequest, outside: Outside, branch: nat, index: nat) returns (r: Option<Row>)
    ensures r == RowOf(request, outside, branch, index)
  {
    if !Derives(request.accounts, outside.derive, branch, index) {
      return None;
    }
    var keys := DerivedKeys(request.accounts, outside.derive, branch, index);
    var policy := BuildPolicy(RowPolicy(request, keys), outside.isPoint, outside.library);
    if policy.None? {
      return None;
    }
    return Some(Row(branch, index, Arranged(keys, request.keyOrder), policy.value));
  }

  function RowsOf(request: WalletRequest, outside: Outside): (nat, nat) -> Option<Row>
  {
    (branch: nat, index: nat) => RowOf(request, outside, branch, index)
  }

  function Followed(first: Option<seq<Row>>, next: Option<seq<Row>>): Option<seq<Row>>
  {
    if first.None? || next.None? then None else Some(first.value + next.value)
  }

  /** The rows of a branch from `start` on, `count` of them; None when one is refused. */
  function BranchRows(row: (nat, nat) -> Option<Row>, branch: nat, start: nat, count: nat): (r: Option<seq<Row>>)
    ensures r.Some? ==> |r.value| == count
  {
    if count == 0 then Some([])
    else
      var last := row(branch, start + count - 1);
      Followed(BranchRows(row, branch, start, count - 1), if last.None? then None else Some([last.value]))
  }

  /** The rows of every branch, one branch after the other. */
  function WalletRows(row: (nat, nat) -> Option<Row>, branches: seq<nat>, start: nat, count: nat): Option<seq<Row>>
  {
    if branches == [] then Some([])
    else Followed(WalletRows(row, branches[..|branches| - 1], start, count),
                  BranchRows(row, branches[|branches| - 1], start, count))
  }

  /** The inner loop of `buildRangedWallet`: the rows of one branch. */
  method BuildBranchRows(request: WalletRequest, outside: Outside, branch: nat, start: nat, count: nat)
    returns (r: Option<seq<Row>>)
    ensures r == BranchRows(RowsOf(request, outside), branch, start, count)
  {
    hide RowOf;
    ghost var row := RowsOf(request, outside);
    var rows: seq<Row> := [];
    for i := 0 to count
      invariant BranchRows(row, branch, start, i) == Some(rows)
    {
      var next := DeriveRow(request, outside, branch, start + i);
      assert next == row(branch, start + i);
      if next.None? {
        RefusedBranch(row, branch, start, i, count);
        return None;
      }
      rows := rows + [next.value];
    }
    return Some(rows);
  }

  /** `buildRangedWallet`: the rows of each branch in order, index by index, or the refusal. */
  method BuildRangedWallet(request: WalletRequest, outside: Outside) returns (r: Option<seq<Row>>)
    ensures r == if AdmittedWallet(request)
                 then WalletRows(RowsOf(request, outside), request.branches, request.startIndex, request.Count())
                 else None
    ensures r.Some? ==> WithinLimits(request)
  {
    if !AdmittedWallet(request) {
      return None;
    }
    AdmittedWithinLimits(request);
    hide RowOf, BranchRows, RowsOf, WalletRows;
    var start, count, branches := request.startIndex, request.Count(), request.branches;
    ghost var row := RowsOf(request, outside);
    var rows: seq<Row> := [];
    NoBranch(row, start, count);
    for b := 0 to |branches|
      invariant WalletRows(row, branches[..b], start, count) == Some(rows)
    {
      OneMoreBranch(row, branches, start, count, b);
      var more := BuildBranchRows(request, outside, branches[b], start, count);
      if more.None? {
        RefusedWallet(row, branches, start, count, b);
        return None;
      }
      rows := rows + more.value;
    }
    assert branches[..|branches|] == branches;
    return Some(rows);
  }

  /** The limits of a wallet: 15 keys in P2SH and 20 outside it, receive or change or both, and 200 indices below 2^31. */
  predicate WithinLimits(request: WalletRequest)
  {
    && 1 <= |request.accounts| <= (if request.coin == Dash || request.wrapper == P2sh then 15 else 20)
    && 1 <= request.required <= |request.accounts|
    && (request.branches == [0] || request.branches == [1] || request.branches == [0, 1] || request.branches == [1, 0])
    && 0 <= request.startIndex <= request.endIndex < 0x8000_0000 && request.endIndex - request.startIndex < 200
  }

  /** A wallet of parsed accounts is admitted exactly within the limits. */
  lemma AdmittedWithinLimits(request: WalletRequest)
    ensures AdmittedWallet(request) <==>
              request.wrapper != P2tr && WithinLimits(request) && forall account | account in request.accounts :: GoodAccount(account)
  {
    hide GoodAccount;
    var branches := request.branches;
    if 1 <= |branches| <= 2 {
      assert branches[0] in branches && branches[|branches| - 1] in branches;
      assert branches == if |branches| == 1 then [branches[0]] else [branches[0], branches[1]];
    }
  }

  lemma NoBranch(row: (nat, nat) -> Option<Row>, start: nat, count: nat)
    ensures WalletRows(row, [], start, count) == Some([])
  {
  }

  lemma OneMoreBranch(row: (nat, nat) -> Option<Row>, branches: seq<nat>, start: nat, count: nat, b: nat)
    requires b < |branches|
    ensures WalletRows(row, branches[..b + 1], start, count)
         == Followed(WalletRows(row, branches[..b], start, count), BranchRows(row, branches[b], start, count))
  {
    assert branches[..b + 1][..b] == branches[..b];
  }

  lemma {:induction false} RefusedBranch(row: (nat, nat) -> Option<Row>, branch: nat, start: nat, i: nat, count: nat)
    requires i < count && row(branch, start + i).None?
    ensures BranchRows(row, branch, start, count).None?
  {
    if count > i + 1 {
      RefusedBranch(row, branch, start, i, count - 1);
    }
  }

  /** One refused row refuses the wallet. */
  lemma {:induction false} RefusedWallet(row: (nat, nat) -> Option<Row>, branches: seq<nat>, start: nat, count: nat, b: nat)
    requires b < |branches| && BranchRows(row, branches[b], start, count).None?
    ensures WalletRows(row, branches, start, count).None?
  {
    if b < |branches| - 1 {
      RefusedWallet(row, branches[..|branches| - 1], start, count, b);
    }
  }

  /** The row at each place of the wallet is the one of its branch and index. */
  lemma {:induction false} RowAtItsPlace(row: (nat, nat) -> Option<Row>, branches: seq<nat>, start: nat, count: nat,
                                         b: nat, i: nat)
    requires b < |branches| && i < count && WalletRows(row, branches, start, count).Some?
    ensures |WalletRows(row, branches, start, count).value| == |branches| * count
    ensures 0 <= b * count + i < |branches| * count
    ensures Some(WalletRows(row, branches, start, count).value[b * count + i]) == row(branches[b], start + i)
  {
    var last := |branches| - 1;
    WalletSize(row, branches[..last], start, count);
    assert |branches| * count == last * count + count;
    if b < last {
      RowAtItsPlace(row, branches[..last], start, count, b, i);
    } else {
      BranchRowAt(row, branches[b], start, count, i);
    }
  }

  lemma {:induction false} WalletSize(row: (nat, nat) -> Option<Row>, branches: seq<nat>, start: nat, count: nat)
    requires WalletRows(row, branches, start, count).Some?
    ensures |WalletRows(row, branches, start, count).value| == |branches| * count
  {
    if branches != [] {
      WalletSize(row, branches[..|branches| - 1], start, count);
      assert |branches| * count == (|branches| - 1) * count + count;
    }
  }

  lemma {:induction false} BranchRowAt(row: (nat, nat) -> Option<Row>, branch: nat, start: nat, count: nat, i: nat)
    requires i < count && BranchRows(row, branch, start, count).Some?
    ensures Some(BranchRows(row, branch, start, count).value[i]) == row(branch, start + i)
  {
    if i < count - 1 {
      BranchRowAt(row, branch, start, count - 1, i);
    }
  }

  /** Where the row of a branch's place and an index stands: branch after branch, index after index. */
  function PlaceOf(request: WalletRequest, b: nat, index: nat): int
  {
    b * (request.endIndex - request.startIndex + 1) + (index - request.startIndex)
  }

  /** An admitted wallet has one row for each branch and index of the range, branch after branch, index after index. */
  lemma WalletHoldsRow(request: WalletRequest, outside: Outside, b: nat, index: nat)
    requires AdmittedWallet(request) && b < |request.branches| && request.startIndex <= index <= request.endIndex
    requires WalletRows(RowsOf(request, outside), request.branches, request.startIndex, request.Count()).Some?
    ensures var rows := WalletRows(RowsOf(request, outside), request.branches, request.startIndex, request.Count()).value;
            && |rows| == |request.branches| * (request.endIndex - request.startIndex + 1)
            && 0 <= PlaceOf(request, b, index) < |rows|
            && Some(rows[PlaceOf(request, b, index)]) == RowOf(request, outside, request.branches[b], index)
  {
    hide RowOf, WalletRows;
    RowAtItsPlace(RowsOf(request, outside), request.branches, request.startIndex, request.Count(), b, index - request.startIndex);
  }

  /** A row lists the key of every account at its branch and index: as entered, or in ascending order. */
  lemma RowHoldsKeys(request: WalletRequest, outside: Outside, branch: nat, index: nat)
    requires RowOf(request, outside, branch, index).Some?
    requires HexKeys(DerivedKeys(request.accounts, outside.derive, branch, index))
    ensures var row := RowOf(request, outside, branch, index).value;
            var keys := DerivedKeys(request.accounts, outside.derive, branch, index);
            && row.branch == branch && row.index == index
            && (forall i | 0 <= i < |keys| :: outside.derive(request.accounts[i], branch, index) == Some(keys[i]))
            && (request.keyOrder == Supplied ==> row.publicKeys == keys)
            && (request.keyOrder == Bip67 ==>
                  && multiset(row.publicKeys) == multiset(keys)
                  && forall i, j | 0 <= i < j < |row.publicKeys| ::
                       row.publicKeys[i] <= row.publicKeys[j]
                       || exists d: nat :: FirstDiffersBelow(row.publicKeys[i], row.publicKeys[j], d))
  {
    hide ShapeOf, EmittedText, CompiledIsAdmitted, FirstDiffersBelow, Precedes, Sort;
    var row := RowOf(request, outside, branch, index).value;
    SortIsSorted(DerivedKeys(request.accounts, outside.derive, branch, index));
    forall i, j | 0 <= i < j < |row.publicKeys| && request.keyOrder == Bip67
      ensures row.publicKeys[i] <= row.publicKeys[j]
              || exists d: nat :: FirstDiffersBelow(row.publicKeys[i], row.publicKeys[j], d)
    {
      PrecedesByFirstDifference(row.publicKeys[i], row.publicKeys[j]);
    }
  }

  // ---------- The descriptor ----------

  /** The ranged key expression of an account on a branch. */
  function KeyText(account: Account, branch: nat): string
  {
    account.origin + account.xpub + "/" + Decimal(branch) + "/*"
  }

  function KeyTexts(accounts: seq<Account>, branch: nat): (r: seq<string>)
    ensures |r| == |accounts| && forall i | 0 <= i < |accounts| :: r[i] == KeyText(accounts[i], branch)
  {
    if accounts == [] then [] else [KeyText(accounts[0], branch)] + KeyTexts(accounts[1..], branch)
  }

  function DescriptorFunction(order: Order): string { if order == Bip67 then "sortedmulti" else "multi" }

  /** The script expression of a branch's descriptor. */
  function BranchExpression(request: WalletRequest, branch: nat): string
  {
    CallText(DescriptorFunction(request.keyOrder),
             IntText(request.required) + "," + Join(KeyTexts(request.accounts, branch)))
  }

  /** `branchDescriptor`, before its checksum. */
  function BranchDescriptor(request: WalletRequest, branch: nat): string
  {
    CallText(WrapperName(request), BranchExpression(request, branch))
  }

  function WrapperName(request: WalletRequest): (name: string)
    ensures AllWord(name) && name != ""
  {
    if request.ChosenWrapper() == P2wsh then "wsh" else "sh"
  }

  /** The exported descriptor, spelled out. */
  lemma DescriptorText(request: WalletRequest, branch: nat)
    ensures BranchDescriptor(request, branch)
         == (if request.coin == Bitcoin && request.wrapper == P2wsh then "wsh(" else "sh(")
            + (if request.keyOrder == Bip67 then "sortedmulti(" else "multi(")
            + IntText(request.required) + "," + Join(KeyTexts(request.accounts, branch)) + "))"
    ensures forall i | 0 <= i < |request.accounts| ::
              KeyTexts(request.accounts, branch)[i]
              == request.accounts[i].origin + request.accounts[i].xpub + "/" + Decimal(branch) + "/*"
  {
    hide IntText, Join, KeyTexts;
    assert "wsh" + "(" == "wsh(" && "sh" + "(" == "sh(" && "multi" + "(" == "multi(" && "sortedmulti" + "(" == "sortedmulti(";
    var number, texts := IntText(request.required), Join(KeyTexts(request.accounts, branch));
    Bracketed(if request.ChosenWrapper() == P2wsh then "wsh(" else "sh(", DescriptorFunction(request.keyOrder) + "(", number, texts);
  }

  lemma Bracketed(wrapper: string, name: string, number: string, texts: string)
    ensures wrapper + (name + (number + "," + texts) + ")") + ")" == wrapper + name + number + "," + texts + "))"
  {
  }

  function BranchNode(request: WalletRequest, branch: nat): Expr
  {
    Node(DescriptorFunction(request.keyOrder), "",
         [Leaf(IntText(request.required))] + KeyLeaves(KeyTexts(request.accounts, branch)))
  }

  lemma BareFolds(text: string, levels: Levels)
    requires Bare(text) && levels.NonNegative()
    ensures Fold(text, levels, true) == Some(levels) && NoTopComma(text, levels, true)
  {
    BareTextFolds(text, levels, true);
  }

  lemma OriginIsPlain(steps: string)
    requires Bare(steps)
    ensures Plain("[" + steps + "]", true) && '(' !in "[" + steps + "]" && ':' !in "[" + steps + "]"
  {
    BareFolds(steps, ZERO);
    hide Fold, NoTopComma, Plain, Bare;
    BracketsArePlain(steps);
    NotInOrigin(steps, '(');
    NotInOrigin(steps, ':');
  }

  lemma BracketsArePlain(steps: string)
    requires Clean(steps, true)
    ensures Plain("[" + steps + "]", true)
  {
    EnclosedIsPlain('[', steps, ']', Levels(0, 1, 0, 0), true);
  }

  lemma NotInOrigin(steps: string, c: char)
    requires Bare(steps) && (c == '(' || c == ':')
    ensures c !in "[" + steps + "]"
  {
  }

  /** The parser keeps a ranged key expression as one text argument. */
  lemma KeyTextStays(account: Account, branch: nat, depth: nat)
    requires GoodAccount(account)
    ensures WellFormedArg(Leaf(KeyText(account, branch)), false, depth)
  {
    var tail := account.xpub + ("/" + Decimal(branch) + "/*");
    assert Bare("/" + Decimal(branch) + "/*");
    assert Bare(tail);
    BareFolds(tail, ZERO);
    if account.origin != "" {
      var steps := account.origin[1..|account.origin| - 1];
      assert account.origin == "[" + steps + "]";
      OriginIsPlain(steps);
    }
    var text := KeyText(account, branch);
    assert text == account.origin + tail;
    PlainConcat(account.origin, tail, true);
    assert |text| > 1;
    PlainTextStays(text, depth);
  }

  lemma {:induction false} KeyTextsStay(accounts: seq<Account>, branch: nat, depth: nat)
    requires forall account | account in accounts :: GoodAccount(account)
    ensures WellFormedArgs(KeyLeaves(KeyTexts(accounts, branch)), false, depth)
    ensures PrintAll(KeyLeaves(KeyTexts(accounts, branch))) == KeyTexts(accounts, branch)
  {
    if accounts != [] {
      KeyTextStays(accounts[0], branch, depth);
      KeyTextsStay(accounts[1..], branch, depth);
      assert KeyTexts(accounts, branch)[1..] == KeyTexts(accounts[1..], branch);
      assert KeyLeaves(KeyTexts(accounts, branch))[1..] == KeyLeaves(KeyTexts(accounts[1..], branch));
    }
  }

  lemma MultisigIsRead(name: string, required: int, texts: seq<string>)
    requires name == "multi" || name == "sortedmulti"
    requires texts != [] && WellFormedArgs(KeyLeaves(texts), false, 1) && PrintAll(KeyLeaves(texts)) == texts
    ensures WellFormed(Node(name, "", [Leaf(IntText(required))] + KeyLeaves(texts)), 0)
    ensures Print(Node(name, "", [Leaf(IntText(required))] + KeyLeaves(texts)))
         == CallText(name, IntText(required) + "," + Join(texts))
  {
    hide KeyLeaves, IntText, WellFormedArgs, NumericFirst, IsConstant, CallText, Join;
    var number := Leaf(IntText(required));
    MultisigNames(name);
    ThresholdIsWellFormed(required, KeyLeaves(texts), 1);
    PrintAllCons(number, KeyLeaves(texts));
    JoinCons(IntText(required), texts);
  }

  lemma PrintAllCons(first: Expr, rest: seq<Expr>)
    ensures PrintAll([first] + rest) == [Print(first)] + PrintAll(rest)
  {
    assert ([first] + rest)[1..] == rest;
  }

  lemma BranchNodeIsWellFormed(request: WalletRequest, branch: nat)
    requires AdmittedWallet(request)
    ensures WellFormed(BranchNode(request, branch), 0)
    ensures Print(BranchNode(request, branch)) == BranchExpression(request, branch)
  {
    KeyTextsStay(request.accounts, branch, 1);
    MultisigIsRead(DescriptorFunction(request.keyOrder), request.required, KeyTexts(request.accounts, branch));
  }

  /** The descriptor's own parser finds the branch expression inside the output wrapper. */
  lemma DescriptorIsRead(request: WalletRequest, branch: nat)
    requires AdmittedWallet(request)
    ensures ReadCall(BranchDescriptor(request, branch)) == CallOf(WrapperName(request), [BranchExpression(request, branch)], "")
    ensures Expression(BranchExpression(request, branch)) == Parsed(BranchNode(request, branch))
  {
    hide BranchExpression, ReadCall, ParseAt, Print, Plain, AllLower, AllWord;
    var inner := BranchExpression(request, branch);
    BranchNodeIsWellFormed(request, branch);
    PrintIsPlain(BranchNode(request, branch), false, 0);
    ParseOfPrint(BranchNode(request, branch), 0);
    ReadOfPrintedCall(WrapperName(request), [inner], "");
    assert BranchDescriptor(request, branch) + "" == BranchDescriptor(request, branch);
  }

  // ---------- Rows refine the descriptor ----------

  /** The key materializer agrees with child derivation on the wallet's key expressions. */
  predicate Agrees(materialize: string -> string, request: WalletRequest, outside: Outside, branch: nat, index: nat)
  {
    forall i | 0 <= i < |request.accounts| ::
      var account := request.accounts[i];
      outside.derive(account, branch, index) == Some(materialize(account.origin + account.xpub + "/" + Decimal(branch) + "/*"))
  }

  lemma {:induction false} KeysMaterialize(texts: seq<string>, name: string, index: nat, key: string -> string)
    requires IsMultisig(name) && index >= 1
    ensures |MaterializeArgs(KeyLeaves(texts), name, index, key)| == |texts|
    ensures forall i | 0 <= i < |texts| :: MaterializeArgs(KeyLeaves(texts), name, index, key)[i] == key(texts[i])
  {
    if texts != [] {
      assert KeyLeaves(texts)[1..] == KeyLeaves(texts[1..]);
      KeysMaterialize(texts[1..], name, index + 1, key);
    }
  }

  /** Materializing the branch expression writes the derived keys in the chosen order. */
  lemma BranchMaterializes(request: WalletRequest, branch: nat, key: string -> string, keys: seq<string>)
    requires |keys| == |request.accounts| >= 1
    requires forall i | 0 <= i < |keys| :: key(KeyText(request.accounts[i], branch)) == keys[i]
    ensures Materialize(BranchNode(request, branch), key)
         == MultisigMiniscript(Arranged(keys, request.keyOrder), request.required, false)
  {
    var name, texts := DescriptorFunction(request.keyOrder), KeyTexts(request.accounts, branch);
    var node := BranchNode(request, branch);
    KeysMaterialize(texts, name, 1, key);
    assert node.args[1..] == KeyLeaves(texts);
    var args := MaterializeArgs(node.args, name, 0, key);
    assert args == [IntText(request.required)] + keys;
    assert args[1..] == keys;
    JoinCons(IntText(request.required), Arranged(keys, request.keyOrder));
    assert Materialize(node, key)
        == CallText("multi", Join([IntText(request.required)] + Arranged(keys, request.keyOrder)));
  }

  lemma {:induction false} NormalOfHex(key: string)
    requires AllHex(key)
    ensures Normal(key) == key
  {
    if key != "" {
      assert IsHex(key[0]) && key[0] in key;
      assert IsHex(key[|key| - 1]) && key[|key| - 1] in key;
    }
    assert Trim(key) == key;
    assert forall i | 0 <= i < |key| :: IsHex(key[i]) && !('A' <= key[i] <= 'Z') by {
      forall i | 0 <= i < |key| ensures IsHex(key[i]) {
        assert key[i] in key;
      }
    }
  }

  predicate HexKeys(keys: seq<string>) { forall i | 0 <= i < |keys| :: AllHex(keys[i]) }

  /** The policy of a row is the multisig of its keys in the chosen order. */
  lemma RowText(request: WalletRequest, keys: seq<string>, isPoint: string -> bool)
    requires request.wrapper != P2tr && HexKeys(keys) && ShapeOf(RowPolicy(request, keys), isPoint).Some?
    ensures EmittedText(RowPolicy(request, keys), isPoint)
         == MultisigMiniscript(Arranged(keys, request.keyOrder), request.required, false)
  {
    forall i | 0 <= i < |keys| ensures Normal(keys[i]) == keys[i] {
      NormalOfHex(keys[i]);
    }
    assert ScriptKeys(keys, false) == keys;
    var policy := RowPolicy(request, keys);
    ShapeIsGood(policy, isPoint);
    assert ShapeOf(policy, isPoint).value.primary == Signature(Multisig, request.required, Arranged(keys, request.keyOrder));
    PrintOfMultisig(Arranged(keys, request.keyOrder), request.required, false);
  }

  /**
   * Wallet rows refine the exported descriptor: the descriptor is read as its wrapper around the
   * branch expression, and materializing that expression at an index gives the row's multisig
   * expression, whose keys are the row's keys in order.
   */
  lemma RowRefinesDescriptor(request: WalletRequest, outside: Outside, materialize: string -> string,
                             branch: nat, index: nat)
    requires AdmittedWallet(request) && RowOf(request, outside, branch, index).Some?
    requires Agrees(materialize, request, outside, branch, index)
    requires HexKeys(DerivedKeys(request.accounts, outside.derive, branch, index))
    ensures ReadCall(BranchDescriptor(request, branch)) == CallOf(WrapperName(request), [BranchExpression(request, branch)], "")
    ensures Expression(BranchExpression(request, branch)) == Parsed(BranchNode(request, branch))
    ensures var row := RowOf(request, outside, branch, index).value;
            && Materialize(BranchNode(request, branch), materialize) == row.miniscript
            && row.miniscript == "multi(" + IntText(request.required) + "," + Join(row.publicKeys) + ")"
  {
    hide ShapeOf, EmittedText, Materialize, MultisigMiniscript, IntText, Join, ReadCall, ParseAt, CompiledIsAdmitted, Sort,
         HexKeys, BranchNode, BranchExpression, BranchDescriptor;
    var keys := DerivedKeys(request.accounts, outside.derive, branch, index);
    DescriptorIsRead(request, branch);
    BranchMaterializes(request, branch, materialize, keys);
    RowText(request, keys, outside.isPoint);
    MultiSpelled(Arranged(keys, request.keyOrder), request.required);
  }

  lemma MultiSpelled(keys: seq<string>, required: int)
    ensures MultisigMiniscript(keys, required, false) == "multi(" + IntText(required) + "," + Join(keys) + ")"
  {
    hide IntText, Join;
    assert "multi" + "(" == "multi(";
    assert "multi(" + (IntText(required) + "," + Join(keys)) + ")" == "multi(" + IntText(required) + "," + Join(keys) + ")";
  }

  lemma {:induction false} CountedOnce(keys: seq<string>, key: string)
    requires Distinct(keys)
    ensures multiset(keys)[key] <= 1
  {
    if keys != [] {
      var front, last := keys[..|keys| - 1], keys[|keys| - 1];
      assert keys == front + [last];
      CountedOnce(front, key);
      assert last !in front;
      assert multiset(front)[last] == 0;
    }
  }

  lemma DistinctOfPermutation(a: seq<string>, b: seq<string>)
    requires Distinct(a) && multiset(a) == multiset(b)
    ensures Distinct(b)
  {
    forall i, j | 0 <= i < j < |b| ensures b[i] != b[j] {
      CountedOnce(a, b[i]);
      assert b == b[..i] + [b[i]] + b[i + 1..j] + [b[j]] + b[j + 1..];
      assert multiset(b) == multiset(b[..i]) + multiset{b[i]} + multiset(b[i + 1..j]) + multiset{b[j]} + multiset(b[j + 1..]);
    }
  }

  lemma NormalsOfHex(keys: seq<string>)
    requires HexKeys(keys)
    ensures Normals(keys) == keys
  {
    forall i | 0 <= i < |keys| ensures Normal(keys[i]) == keys[i] {
      NormalOfHex(keys[i]);
    }
  }

  lemma HexOfPermutation(a: seq<string>, b: seq<string>)
    requires HexKeys(a) && multiset(a) == multiset(b)
    ensures HexKeys(b) && |a| == |b|
  {
    assert |multiset(a)| == |a| && |multiset(b)| == |b|;
    forall i | 0 <= i < |b| ensures AllHex(b[i]) {
      assert b[i] in multiset(a);
    }
  }

  /** Which keys are admitted does not depend on their order. */
  lemma AdmissionIgnoresOrder(a: seq<string>, b: seq<string>, isPoint: string -> bool)
    requires HexKeys(a) && multiset(a) == multiset(b) && AdmittedKeys(a, isPoint)
    ensures AdmittedKeys(b, isPoint)
  {
    HexOfPermutation(a, b);
    NormalsOfHex(a);
    NormalsOfHex(b);
    DistinctOfPermutation(a, b);
    forall i | 0 <= i < |b| ensures IsCompressedKey(b[i]) && isPoint(b[i]) {
      assert b[i] in multiset(a);
    }
  }

  lemma DerivesOfPermutation(a: seq<Account>, b: seq<Account>, derive: Derivation, branch: nat, index: nat)
    requires Derives(a, derive, branch, index) && multiset(a) == multiset(b)
    ensures Derives(b, derive, branch, index)
  {
    forall i | 0 <= i < |b| ensures derive(b[i], branch, index).Some? {
      assert b[i] in multiset(a);
    }
  }

  /** An admitted row stays admitted, with the same multisig, when the cosigners are permuted. */
  lemma ShapeIgnoresOrder(request: WalletRequest, accounts: seq<Account>, a: seq<string>, b: seq<string>, isPoint: string -> bool)
    requires request.wrapper != P2tr && HexKeys(a) && multiset(a) == multiset(b)
    requires ShapeOf(RowPolicy(request, a), isPoint).Some?
    ensures ShapeOf(RowPolicy(request.(accounts := accounts), b), isPoint).Some?
  {
    HexOfPermutation(a, b);
    AdmissionIgnoresOrder(a, b, isPoint);
  }

  /**
   * A BIP67 wallet does not depend on the order its cosigners were entered in: the permuted request
   * gives the very same row.
   */
  lemma SortedRowsIgnoreCosignerOrder(request: WalletRequest, accounts: seq<Account>, outside: Outside,
                                      branch: nat, index: nat)
    requires request.keyOrder == Bip67 && request.wrapper != P2tr
    requires multiset(accounts) == multiset(request.accounts)
    requires RowOf(request, outside, branch, index).Some?
    requires HexKeys(DerivedKeys(request.accounts, outside.derive, branch, index))
    ensures RowOf(request.(accounts := accounts), outside, branch, index) == RowOf(request, outside, branch, index)
  {
    hide ShapeOf, HexKeys, EmittedText, Sort;
    var derive := outside.derive;
    var a, b := DerivedKeys(request.accounts, derive, branch, index), DerivedKeys(accounts, derive, branch, index);
    DerivesOfPermutation(request.accounts, accounts, derive, branch, index);
    MapOfPermutation(account => OrDefault(derive(account, branch, index), ""), request.accounts, accounts);
    HexOfPermutation(a, b);
    SortOfPermutation(a, b);
    ShapeIgnoresOrder(request, accounts, a, b, outside.isPoint);
    RowText(request, a, outside.isPoint);
    RowText(request.(accounts := accounts), b, outside.isPoint);
    SamePolicyContext(request, accounts, a, b, outside);
  }

  lemma SamePolicyContext(request: WalletRequest, accounts: seq<Account>, a: seq<string>, b: seq<string>, outside: Outside)
    ensures forall compiled :: CompiledIsAdmitted(compiled, RowPolicy(request, a))
                           <==> CompiledIsAdmitted(compiled, RowPolicy(request.(accounts := accounts), b))
  {
  }
}

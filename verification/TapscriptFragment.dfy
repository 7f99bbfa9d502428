/** The Taproot compiler's own key expansion, and its agreement with the descriptor materializer. */
module TapscriptFragment {
  import opened Text
  import opened BalancedSyntax
  import opened DescriptorSyntax
  import opened DescriptorCompiler
  import opened KeyOrder

  datatype FragmentRefusal = UnclosedFragment | TrailingData | UnbalancedFragment | KeyArity | BadThreshold

  type Expanded = Result<string, FragmentRefusal>

  /** How long a leading `letters:` is, with its colon; the letters may be missing. */
  function PrefixLength(text: string): (n: nat)
    ensures n <= |text|
  {
    var n := LowerRun(text);
    if n < |text| && text[n] == ':' then n + 1 else 0
  }

  predicate IsScriptMultisig(name: string) { name == "multi_a" || name == "sortedmulti_a" }

  /** `/^[1-9][0-9]*$/`. */
  predicate IsThreshold(text: string)
  {
    text != "" && '1' <= text[0] <= '9' && forall c | c in text :: IsDigit(c)
  }

  predicate ThresholdHolds(args: seq<string>)
    requires args != []
  {
    IsThreshold(args[0]) && Number(args[0]).Some? && Number(args[0]).value <= |args| - 1
  }

  function Keys(args: seq<string>, key: string -> string): (r: seq<string>)
    ensures |r| == |args| && forall i | 0 <= i < |args| :: r[i] == key(args[i])
  {
    Map(key, args)
  }

  /** `fragment`: a Tapscript fragment with its keys made concrete. */
  function Expand(text: string, key: string -> string): Expanded
    decreases |text|, 1
  {
    var prefix := PrefixLength(text);
    var length := CallLength(text[prefix..]);
    if length == 0 then Ok(text)
    else match MatchingClose(text, prefix + length)
      case None => Err(UnclosedFragment)
      case Some(close) =>
        if close != |text| - 1 then Err(TrailingData)
        else ExpandCall(text[..prefix], text[prefix..prefix + length], text[prefix + length + 1..close], key)
  }

  function ExpandCall(prefix: string, name: string, inner: string, key: string -> string): Expanded
    decreases |inner|, 2
  {
    match Split(inner, true)
    case None => Err(UnbalancedFragment)
    case Some(args) =>
      if IsScriptKey(name) then
        if |args| != 1 then Err(KeyArity) else Ok(prefix + CallText(name, key(args[0])))
      else if IsScriptMultisig(name) then
        if !ThresholdHolds(args) then Err(BadThreshold)
        else
          var keys := Keys(args[1..], key);
          Ok(prefix + CallText("multi_a", Join([args[0]] + if name == "sortedmulti_a" then Sort(keys) else keys)))
      else
        PartsAreShort(inner);
        match ExpandAll(args, |inner|, key)
        case Err(reason) => Err(reason)
        case Ok(parts) => Ok(prefix + CallText(name, Join(parts)))
  }

  function ExpandAll(args: seq<string>, bound: nat, key: string -> string): (r: Result<seq<string>, FragmentRefusal>)
    requires forall i | 0 <= i < |args| :: |args[i]| <= bound
    ensures r.Ok? ==> |r.value| == |args|
    decreases bound, 2, |args|
  {
    if args == [] then Ok([])
    else match Expand(args[0], key)
      case Err(reason) => Err(reason)
      case Ok(first) =>
        match ExpandAll(args[1..], bound, key)
        case Err(reason) => Err(reason)
        case Ok(rest) => Ok([first] + rest)
  }

  lemma {:induction false} PartIsShort(parts: seq<string>, i: nat)
    requires i < |parts|
    ensures |parts[i]| <= |Join(parts)|
  {
    if |parts| > 1 && i > 0 {
      PartIsShort(parts[1..], i - 1);
    }
  }

  lemma PartsAreShort(inner: string)
    requires Split(inner, true).Some?
    ensures forall i | 0 <= i < |Split(inner, true).value| :: |Split(inner, true).value[i]| <= |inner|
  {
    SplitExactly(inner, true);
    var parts := Split(inner, true).value;
    forall i | 0 <= i < |parts| ensures |parts[i]| <= |inner| {
      PartIsShort(parts, i);
    }
  }

  // ---------- Both writers agree ----------

  /** Trees of Tapscript fragments: keys and leaves are plain text, thresholds are in range. */
  predicate IsTapscript(e: Expr)
  {
    match e
    case Leaf(text) => '(' !in text
    case Node(name, _, args) =>
      if IsConstant(name) then true
      else if IsScriptKey(name) then |args| == 1 && args[0].Leaf?
      else if IsScriptMultisig(name) then AllLeaves(args) && args != [] && ThresholdHolds(PrintAll(args))
      else !IsMultisig(name) && !IsDescriptorKey(name) && AllTapscript(args)
  }

  predicate AllLeaves(args: seq<Expr>) { forall i | 0 <= i < |args| :: args[i].Leaf? }

  predicate AllTapscript(args: seq<Expr>)
  {
    args == [] || (IsTapscript(args[0]) && AllTapscript(args[1..]))
  }

  lemma NothingToExpand(text: string, key: string -> string)
    requires '(' !in text
    ensures Expand(text, key) == Ok(text)
  {
    assert '(' !in text[PrefixLength(text)..];
  }

  /** The expander takes a printed call apart as it was put together. */
  lemma ExpandOfCall(wrappers: string, name: string, inner: string, key: string -> string)
    requires AllLower(wrappers) && AllWord(name) && name != "" && Clean(inner, true)
    ensures Expand(WrapperText(wrappers) + CallText(name, inner), key)
         == ExpandCall(WrapperText(wrappers), name, inner, key)
  {
    var body := CallText(name, inner);
    hide Expand, ExpandCall, CallLength, PrefixLength, Clean, LowerRun, WordRun;
    CallHead(name, inner, "");
    assert body + "" == body;
    PrefixOfPrinted(wrappers, body);
    ExpandBehind(WrapperText(wrappers), name, inner, key);
  }

  lemma ExpandBehind(prefix: string, name: string, inner: string, key: string -> string)
    requires AllWord(name) && name != "" && Clean(inner, true)
    requires PrefixLength(prefix + CallText(name, inner)) == |prefix|
    ensures Expand(prefix + CallText(name, inner), key) == ExpandCall(prefix, name, inner, key)
  {
    var body := CallText(name, inner);
    hide *;
    CallHead(name, inner, "");
    assert body + "" == body;
    SlicesOfPrefixed(prefix, name, inner);
    CloseOfCall(prefix + name, inner, true);
    assert |prefix + name| == |prefix| + |name|;
    ExpandAt(prefix + body, |prefix|, |name|, key);
  }

  lemma SlicesOfPrefixed(prefix: string, name: string, inner: string)
    ensures var text := prefix + CallText(name, inner);
            && text[..|prefix|] == prefix
            && text[|prefix|..] == CallText(name, inner)
            && text[|prefix|..|prefix| + |name|] == name
            && text[|prefix| + |name| + 1..|text| - 1] == inner
            && prefix + name + "(" + inner + ")" == text
  {
    SlicesOfCall(name, inner, "");
    var body := CallText(name, inner);
    assert body + "" == body;
    var text := prefix + body;
    assert text[|prefix|..|prefix| + |name|] == body[..|name|];
    assert text[|prefix| + |name| + 1..|text| - 1] == body[|name| + 1..|name| + 1 + |inner|];
  }

  lemma ExpandAt(text: string, prefix: nat, length: nat, key: string -> string)
    requires prefix == PrefixLength(text) && length > 0 && length == CallLength(text[prefix..])
    requires MatchingClose(text, prefix + length) == Some(|text| - 1) && prefix + length < |text| - 1
    ensures Expand(text, key)
         == ExpandCall(text[..prefix], text[prefix..prefix + length], text[prefix + length + 1..|text| - 1], key)
  {
    hide ExpandCall, MatchingClose, CallLength, PrefixLength;
  }

  lemma PrefixOfPrinted(wrappers: string, body: string)
    requires AllLower(wrappers) && LowerRun(body) < |body| && body[LowerRun(body)] != ':'
    ensures PrefixLength(WrapperText(wrappers) + body) == |WrapperText(wrappers)|
  {
    hide LowerRun;
    if wrappers == "" {
      assert "" + body == body;
    } else {
      LowerRunStops(wrappers, ":" + body);
      assert WrapperText(wrappers) + body == wrappers + (":" + body);
    }
  }

  /**
   * Expanding the text of a Tapscript tree gives what the materializer writes for the tree: two
   * writers, one on text and one on trees, agree on every fragment, key and key order.
   */
  lemma {:induction false} ExpandIsMaterialize(e: Expr, depth: nat, key: string -> string)
    requires e.Node? && WellFormed(e, depth) && IsTapscript(e)
    ensures Expand(Print(e), key) == Ok(Materialize(e, key))
    decreases e, 1
  {
    if IsConstant(e.name) {
      assert Print(e) == WrapperText(e.wrappers) + e.name;
      NothingToExpand(Print(e), key);
    } else {
      var texts := PrintAll(e.args);
      PrintAllIsPlain(e.args, NumericFirst(e.name), depth + 1);
      JoinIsClean(texts, true);
      SplitOfJoin(texts, true);
      ExpandOfCall(e.wrappers, e.name, Join(texts), key);
      ExpandedCall(e, depth, key);
    }
  }

  lemma {:induction false} ExpandedCall(e: Expr, depth: nat, key: string -> string)
    requires e.Node? && WellFormed(e, depth) && IsTapscript(e) && !IsConstant(e.name)
    requires Split(Join(PrintAll(e.args)), true) == Some(PrintAll(e.args))
    ensures ExpandCall(WrapperText(e.wrappers), e.name, Join(PrintAll(e.args)), key) == Ok(Materialize(e, key))
    decreases e, 0
  {
    var texts := PrintAll(e.args);
    if IsScriptKey(e.name) {
      assert Join(MaterializeArgs(e.args, e.name, 0, key)) == key(texts[0]);
    } else if IsScriptMultisig(e.name) {
      KeysOfLeaves(e.args[1..], e.name, 1, key);
      assert texts[1..] == PrintAll(e.args[1..]);
      assert MaterializeArgs(e.args, e.name, 0, key) == [texts[0]] + Keys(texts[1..], key);
    } else {
      PartsAreShort(Join(texts));
      ExpandedArgs(e.args, e.name, 0, |Join(texts)|, NumericFirst(e.name), depth + 1, key);
    }
  }

  /** The keys of a multisig are made concrete one by one. */
  lemma {:induction false} KeysOfLeaves(args: seq<Expr>, name: string, index: nat, key: string -> string)
    requires AllLeaves(args) && IsScriptMultisig(name) && index >= 1
    ensures MaterializeArgs(args, name, index, key) == Keys(PrintAll(args), key)
  {
    if args != [] {
      KeysOfLeaves(args[1..], name, index + 1, key);
      assert PrintAll(args)[1..] == PrintAll(args[1..]);
    }
  }

  lemma {:induction false} ExpandedArgs(args: seq<Expr>, name: string, index: nat, bound: nat, opaqueFirst: bool,
                                        depth: nat, key: string -> string)
    requires WellFormedArgs(args, opaqueFirst, depth) && AllTapscript(args)
    requires !IsMultisig(name) && !IsDescriptorKey(name)
    requires forall i | 0 <= i < |args| :: |PrintAll(args)[i]| <= bound
    ensures ExpandAll(PrintAll(args), bound, key) == Ok(MaterializeArgs(args, name, index, key))
    decreases args, 0
  {
    if args != [] {
      assert PrintAll(args)[1..] == PrintAll(args[1..]);
      if args[0].Node? {
        ExpandIsMaterialize(args[0], depth, key);
      } else {
        NothingToExpand(args[0].text, key);
      }
      ExpandedArgs(args[1..], name, index + 1, bound, false, depth, key);
    }
  }

  // ---------- Which fragments are refused ----------

  /** A text without leading zero is the decimal of its number. */
  lemma {:induction false} DecimalOfNumber(text: string)
    requires IsThreshold(text)
    ensures Number(text).Some? && Number(text).value >= 1 && Decimal(Number(text).value) == text
    decreases |text|
  {
    var last := |text| - 1;
    assert text[last] in text;
    if last == 0 {
      assert text == [text[0]];
    } else {
      var front := text[..last];
      assert front[0] == text[0] && forall c | c in front :: c in text;
      DecimalOfNumber(front);
      NumberOfLast(front, text[last]);
      assert text == front + [text[last]];
    }
  }

  lemma NumberOfLast(front: string, digit: char)
    requires Number(front).Some? && Number(front).value >= 1 && IsDigit(digit)
    ensures var n := Number(front + [digit]);
            n.Some? && n.value >= 1 && Decimal(n.value) == Decimal(Number(front).value) + [digit]
  {
    var text, high, low := front + [digit], Number(front).value, digit as int - '0' as int;
    assert text[..|text| - 1] == front && text[|text| - 1] == digit && front != "";
    assert Number(text) == Some(10 * high + low);
    assert Digit(low) == digit;
  }

  lemma ThresholdIsDecimal(n: nat)
    requires n >= 1
    ensures IsThreshold(Decimal(n)) && Number(Decimal(n)) == Some(n)
  {
    NumberOfDecimal(n);
    FirstDigit(n);
    assert forall c | c in Decimal(n) :: IsDigit(c);
  }

  lemma {:induction false} FirstDigit(n: nat)
    requires n >= 1
    ensures '1' <= Decimal(n)[0] <= '9'
  {
    if n >= 10 {
      FirstDigit(n / 10);
    }
  }

  lemma CallWithoutWrapper(name: string, raw: seq<string>, key: string -> string)
    requires AllWord(name) && name != "" && raw != [] && AllPlain(raw, true)
    ensures Split(Join(raw), true) == Some(raw)
    ensures Expand(CallText(name, Join(raw)), key) == ExpandCall("", name, Join(raw), key)
  {
    assert AllLower("") && WrapperText("") == "";
    hide *;
    JoinIsClean(raw, true);
    SplitOfJoin(raw, true);
    ExpandOfCall("", name, Join(raw), key);
    assert "" + CallText(name, Join(raw)) == CallText(name, Join(raw));
  }

  /** The same refusal, or what was written with `prefix` before it. */
  function Behind(prefix: string, e: Expanded): Expanded
  {
    if e.Ok? then Ok(prefix + e.value) else e
  }

  /** Letters with a colon before a call, or a colon alone, are kept in front of what the call is written as. */
  lemma PrefixIsKept(letters: string, name: string, raw: seq<string>, key: string -> string)
    requires AllLower(letters) && AllWord(name) && name != "" && raw != [] && AllPlain(raw, true)
    ensures Expand(letters + ":" + CallText(name, Join(raw)), key)
         == Behind(letters + ":", Expand(CallText(name, Join(raw)), key))
  {
    var body := CallText(name, Join(raw));
    hide *;
    JoinIsClean(raw, true);
    CallWithoutWrapper(name, raw, key);
    PrefixOfColon(letters, body);
    ExpandBehind(letters + ":", name, Join(raw), key);
    PrefixOfExpanded(letters + ":", name, Join(raw), key);
  }

  lemma PrefixOfColon(letters: string, body: string)
    requires AllLower(letters)
    ensures PrefixLength(letters + ":" + body) == |letters + ":"|
  {
    hide AllLower, LowerRun;
    LowerRunStops(letters, ":" + body);
    assert letters + ":" + body == letters + (":" + body);
  }

  lemma PrefixOfExpanded(prefix: string, name: string, inner: string, key: string -> string)
    ensures ExpandCall(prefix, name, inner, key)
         == Behind(prefix, ExpandCall("", name, inner, key))
  {
    hide Split, CallText, Join, ExpandAll, Keys, ThresholdHolds, Sort, IsScriptKey;
    assert forall written: string :: "" + written == written;
  }

  lemma MultisigWords(name: string)
    requires name == "multi_a" || name == "sortedmulti_a"
    ensures AllWord(name) && name != "" && IsScriptMultisig(name)
  {
  }

  lemma KeyWords(name: string)
    requires name == "pk" || name == "pk_k" || name == "pkh" || name == "pk_h"
    ensures AllWord(name) && name != "" && IsScriptKey(name)
  {
  }

  lemma ExpandedMultisig(prefix: string, name: string, inner: string, raw: seq<string>, key: string -> string)
    requires IsScriptMultisig(name) && raw != [] && Split(inner, true) == Some(raw)
    ensures ExpandCall(prefix, name, inner, key).Ok? <==> ThresholdHolds(raw)
  {
    hide Split, ThresholdHolds, CallText, Join;
  }

  lemma ExpandedKey(prefix: string, name: string, inner: string, raw: seq<string>, key: string -> string)
    requires IsScriptKey(name) && raw != [] && Split(inner, true) == Some(raw)
    ensures ExpandCall(prefix, name, inner, key)
         == if |raw| == 1 then Ok(prefix + CallText(name, key(raw[0]))) else Err(KeyArity)
  {
    hide Split, CallText;
  }

  /** A multisig is written only for a decimal threshold from 1 to the number of its keys. */
  lemma ThresholdIsChecked(name: string, threshold: string, keys: seq<string>, key: string -> string)
    requires (name == "multi_a" || name == "sortedmulti_a") && AllPlain([threshold] + keys, true)
    ensures Expand(CallText(name, Join([threshold] + keys)), key).Ok?
       <==> exists n: nat :: 1 <= n <= |keys| && threshold == Decimal(n)
  {
    var raw := [threshold] + keys;
    MultisigWords(name);
    hide Expand, ExpandCall, Split, Number, Decimal, CallText, AllPlain, Join, AllWord, IsScriptMultisig;
    CallWithoutWrapper(name, raw, key);
    ExpandedMultisig("", name, Join(raw), raw, key);
    if ThresholdHolds(raw) {
      DecimalOfNumber(threshold);
    }
    if n: nat :| 1 <= n <= |keys| && threshold == Decimal(n) {
      ThresholdIsDecimal(n);
    }
  }

  /** A key fragment is written for exactly one argument. */
  lemma KeyArityIsChecked(name: string, raw: seq<string>, key: string -> string)
    requires name == "pk" || name == "pk_k" || name == "pkh" || name == "pk_h"
    requires raw != [] && AllPlain(raw, true)
    ensures Expand(CallText(name, Join(raw)), key)
         == if |raw| == 1 then Ok(CallText(name, key(raw[0]))) else Err(KeyArity)
  {
    KeyWords(name);
    hide Expand, ExpandCall, Split, AllPlain, Join, AllWord, IsScriptKey;
    CallWithoutWrapper(name, raw, key);
    ExpandedKey("", name, Join(raw), raw, key);
    hide CallText;
    assert "" + CallText(name, key(raw[0])) == CallText(name, key(raw[0]));
  }

  /** Text behind a call is refused. */
  lemma TrailingTextIsRefused(name: string, raw: seq<string>, suffix: string, key: string -> string)
    requires AllWord(name) && name != "" && raw != [] && AllPlain(raw, true) && suffix != ""
    ensures Expand(CallText(name, Join(raw)) + suffix, key) == Err(TrailingData)
  {
    var call, text := CallText(name, Join(raw)), CallText(name, Join(raw)) + suffix;
    JoinIsClean(raw, true);
    CallHead(name, Join(raw), suffix);
    CloseOfCall(name, Join(raw), true);
    CloseBeforeSuffix(call, suffix, |name|, 0);
    hide CallText, Join, LowerRun, WordRun, ExpandCall;
    assert PrefixLength(text) == 0 && text[0..] == text;
  }
}

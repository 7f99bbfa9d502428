/** The balanced-delimiter scanner of descriptors: matching closes and top-level splitting. */
module BalancedSyntax {
  import opened Text

  // ---------- The matching close ----------

  /** Openings minus closings of one pair. */
  function Net(text: string, opening: char, closing: char): int
  {
    if text == "" then 0
    else Net(text[..|text| - 1], opening, closing) + Weight(text[|text| - 1], opening, closing)
  }

  function Weight(c: char, opening: char, closing: char): int
  {
    if c == opening then 1 else if c == closing then -1 else 0
  }

  /** `close` balances the text from `open`, and no closing before it does or goes below. */
  ghost predicate Closes(text: string, open: nat, close: nat, opening: char, closing: char)
  {
    && open <= close < |text|
    && text[close] == closing
    && Net(text[open..close + 1], opening, closing) == 0
    && forall k {:trigger text[k]} | open <= k < close && text[k] == closing ::
         Net(text[open..k + 1], opening, closing) > 0
  }

  /** Where `depth` open pairs are closed, reading on from `index`. */
  function CloseFrom(text: string, index: nat, depth: int, opening: char, closing: char): (r: Option<nat>)
    requires index <= |text|
    ensures r.Some? ==> index <= r.value < |text| && text[r.value] == closing
    decreases |text| - index
  {
    if index == |text| then None
    else if text[index] == opening then CloseFrom(text, index + 1, depth + 1, opening, closing)
    else if text[index] == closing then
      if depth == 1 then Some(index)
      else if depth < 1 then None
      else CloseFrom(text, index + 1, depth - 1, opening, closing)
    else CloseFrom(text, index + 1, depth, opening, closing)
  }

  /** The close of the parenthesis at `open`; None is the refusal of an unclosed pair. */
  function MatchingClose(text: string, open: nat): (r: Option<nat>)
    requires open <= |text|
    ensures r.Some? ==> open <= r.value < |text| && text[r.value] == ')'
  {
    CloseFrom(text, open, 0, '(', ')')
  }

  lemma NetExtends(text: string, open: nat, index: nat, opening: char, closing: char)
    requires open <= index < |text|
    ensures Net(text[open..index + 1], opening, closing)
         == Net(text[open..index], opening, closing) + Weight(text[index], opening, closing)
  {
    var longer := text[open..index + 1];
    assert longer[..|longer| - 1] == text[open..index];
  }

  /** The scan finds the balancing close exactly when there is one. */
  lemma {:induction false} CloseFromIsFirst(text: string, open: nat, index: nat, opening: char, closing: char)
    requires open <= index <= |text| && opening != closing
    requires forall k {:trigger text[k]} | open <= k < index && text[k] == closing ::
               Net(text[open..k + 1], opening, closing) > 0
    ensures var r := CloseFrom(text, index, Net(text[open..index], opening, closing), opening, closing);
            && (r.Some? ==> Closes(text, open, r.value, opening, closing))
            && (forall c: nat :: Closes(text, open, c, opening, closing) ==> r == Some(c))
    decreases |text| - index
  {
    if index < |text| {
      hide Net;
      NetExtends(text, open, index, opening, closing);
      var depth := Net(text[open..index], opening, closing);
      if text[index] == closing && depth <= 1 {
        assert Net(text[open..index + 1], opening, closing) == depth - 1;
        forall c: nat | Closes(text, open, c, opening, closing)
          ensures c == index && depth == 1
        {
          if c != index {
            assert false;
          }
        }
      } else {
        CloseFromIsFirst(text, open, index + 1, opening, closing);
      }
    }
  }

  /** `findMatchingClose`: the position of the balancing close, or the refusal. */
  method FindMatchingClose(text: string, open: nat, opening: char, closing: char) returns (r: Option<nat>)
    requires opening != closing
    ensures r == if open <= |text| then CloseFrom(text, open, 0, opening, closing) else None
    ensures r.Some? ==> Closes(text, open, r.value, opening, closing)
    ensures r.None? <==> forall c: nat :: !Closes(text, open, c, opening, closing)
  {
    if open <= |text| {
      assert text[open..open] == "";
      CloseFromIsFirst(text, open, open, opening, closing);
    }
    var depth := 0;
    var index := open;
    while index < |text|
      invariant open <= index && (open <= |text| ==> index <= |text|)
      invariant open <= |text| ==>
                  CloseFrom(text, open, 0, opening, closing) == CloseFrom(text, index, depth, opening, closing)
    {
      if text[index] == opening {
        depth := depth + 1;
      } else if text[index] == closing {
        depth := depth - 1;
        if depth == 0 {
          return Some(index);
        }
        if depth < 0 {
          break;
        }
      }
      index := index + 1;
    }
    return None;
  }

  // ---------- Top-level splitting ----------

  /** How many pairs of each kind are open. */
  datatype Levels = Levels(round: int, square: int, curly: int, angle: int) {
    predicate NonNegative() { round >= 0 && square >= 0 && curly >= 0 && angle >= 0 }

    function Plus(other: Levels): Levels {
      Levels(round + other.round, square + other.square, curly + other.curly, angle + other.angle)
    }
  }

  const ZERO := Levels(0, 0, 0, 0)

  function Step(levels: Levels, c: char, angles: bool): Levels
  {
    if c == '(' then levels.(round := levels.round + 1)
    else if c == ')' then levels.(round := levels.round - 1)
    else if c == '[' then levels.(square := levels.square + 1)
    else if c == ']' then levels.(square := levels.square - 1)
    else if c == '{' then levels.(curly := levels.curly + 1)
    else if c == '}' then levels.(curly := levels.curly - 1)
    else if angles && c == '<' then levels.(angle := levels.angle + 1)
    else if angles && c == '>' then levels.(angle := levels.angle - 1)
    else levels
  }

  /** Splits what is left of a text, `piece` being the argument under way; None is the refusal. */
  function SplitRest(rest: string, piece: string, levels: Levels, angles: bool): (r: Option<seq<string>>)
    ensures r.Some? ==> |r.value| >= 1
  {
    if rest == "" then if levels == ZERO then Some([piece]) else None
    else if rest[0] == ',' && levels == ZERO then
      match SplitRest(rest[1..], "", ZERO, angles)
      case None => None
      case Some(parts) => Some([piece] + parts)
    else
      var next := Step(levels, rest[0], angles);
      if next.NonNegative() then SplitRest(rest[1..], piece + [rest[0]], next, angles) else None
  }

  /** `splitTopLevelArguments`. */
  function Split(text: string, angles: bool): (r: Option<seq<string>>)
    ensures r.Some? ==> |r.value| >= 1
  {
    SplitRest(text, "", ZERO, angles)
  }

  /** The levels after `text`, from `levels`; None when one of them goes below zero. */
  function Fold(text: string, levels: Levels, angles: bool): (r: Option<Levels>)
    requires levels.NonNegative()
    ensures r.Some? ==> r.value.NonNegative()
  {
    if text == "" then Some(levels)
    else
      var next := Step(levels, text[0], angles);
      if next.NonNegative() then Fold(text[1..], next, angles) else None
  }

  /** Every delimiter of `text` is closed, and no prefix closes more than it opens. */
  predicate Clean(text: string, angles: bool) { Fold(text, ZERO, angles) == Some(ZERO) }

  /** No comma of `text` stands outside all pairs, `levels` being open before it. */
  predicate NoTopComma(text: string, levels: Levels, angles: bool)
  {
    text == "" || (
      && !(text[0] == ',' && levels == ZERO)
      && NoTopComma(text[1..], Step(levels, text[0], angles), angles))
  }

  /** A text that can stand as one argument: clean, with no top-level comma. */
  predicate Plain(text: string, angles: bool)
  {
    Clean(text, angles) && NoTopComma(text, ZERO, angles)
  }

  lemma {:induction false} FoldConcat(a: string, b: string, levels: Levels, angles: bool)
    requires levels.NonNegative()
    ensures Fold(a + b, levels, angles)
         == match Fold(a, levels, angles) case None => None case Some(l) => Fold(b, l, angles)
  {
    if a == "" {
      assert a + b == b;
    } else {
      assert (a + b)[1..] == a[1..] + b;
      var next := Step(levels, a[0], angles);
      if next.NonNegative() {
        FoldConcat(a[1..], b, next, angles);
      }
    }
  }

  /** A text that folds from `levels` folds the same way below pairs that are already open. */
  lemma {:induction false} FoldShift(text: string, levels: Levels, base: Levels, angles: bool)
    requires levels.NonNegative() && base.NonNegative() && Fold(text, levels, angles).Some?
    ensures Fold(text, levels.Plus(base), angles) == Some(Fold(text, levels, angles).value.Plus(base))
  {
    if text != "" {
      var next := Step(levels, text[0], angles);
      assert Step(levels.Plus(base), text[0], angles) == next.Plus(base);
      FoldShift(text[1..], next, base, angles);
    }
  }

  /** Below an open pair no comma is at the top. */
  lemma {:induction false} NoTopCommaBelow(text: string, levels: Levels, base: Levels, angles: bool)
    requires levels.NonNegative() && Fold(text, levels, angles).Some?
    requires base.NonNegative() && base != ZERO
    ensures NoTopComma(text, levels.Plus(base), angles)
  {
    if text != "" {
      var next := Step(levels, text[0], angles);
      assert Step(levels.Plus(base), text[0], angles) == next.Plus(base);
      NoTopCommaBelow(text[1..], next, base, angles);
    }
  }

  lemma {:induction false} NoTopCommaConcat(a: string, b: string, levels: Levels, angles: bool)
    requires levels.NonNegative() && Fold(a, levels, angles).Some?
    ensures NoTopComma(a + b, levels, angles)
       <==> NoTopComma(a, levels, angles) && NoTopComma(b, Fold(a, levels, angles).value, angles)
  {
    if a == "" {
      assert a + b == b;
    } else {
      assert (a + b)[1..] == a[1..] + b;
      NoTopCommaConcat(a[1..], b, Step(levels, a[0], angles), angles);
    }
  }

  /** Reading `text` leads from some open delimiters to others, with no comma outside all pairs. */
  predicate Passes(text: string, from: Levels, to: Levels, angles: bool)
  {
    from.NonNegative() && Fold(text, from, angles) == Some(to) && NoTopComma(text, from, angles)
  }

  lemma PassesBoth(a: string, b: string, from: Levels, mid: Levels, to: Levels, angles: bool)
    requires Passes(a, from, mid, angles) && Passes(b, mid, to, angles)
    ensures Passes(a + b, from, to, angles)
  {
    hide Step, Fold, NoTopComma;
    FoldConcat(a, b, from, angles);
    NoTopCommaConcat(a, b, from, angles);
  }

  lemma PlainPasses(text: string, angles: bool)
    ensures Plain(text, angles) <==> Passes(text, ZERO, ZERO, angles)
  {
  }

  lemma OneFolds(c: char, levels: Levels, angles: bool)
    requires levels.NonNegative() && Step(levels, c, angles).NonNegative() && c != ','
    ensures Fold([c], levels, angles) == Some(Step(levels, c, angles)) && NoTopComma([c], levels, angles)
  {
    assert [c][1..] == "";
  }

  /** A stretch without top-level commas goes into the argument under way as it stands. */
  lemma {:induction false} SplitAcross(part: string, rest: string, piece: string, levels: Levels, angles: bool)
    requires levels.NonNegative() && Fold(part, levels, angles).Some? && NoTopComma(part, levels, angles)
    ensures SplitRest(part + rest, piece, levels, angles)
         == SplitRest(rest, piece + part, Fold(part, levels, angles).value, angles)
  {
    if part == "" {
      assert part + rest == rest && piece + part == piece;
    } else {
      assert (part + rest)[1..] == part[1..] + rest;
      SplitAcross(part[1..], rest, piece + [part[0]], Step(levels, part[0], angles), angles);
      assert piece + [part[0]] + part[1..] == piece + part;
    }
  }

  ghost predicate AllPlain(parts: seq<string>, angles: bool)
  {
    forall i | 0 <= i < |parts| :: Plain(parts[i], angles)
  }

  /** Splitting undoes joining of plain arguments. */
  lemma {:induction false} SplitOfJoin(parts: seq<string>, angles: bool)
    requires |parts| >= 1 && AllPlain(parts, angles)
    ensures Split(Join(parts), angles) == Some(parts)
  {
    var first := parts[0];
    assert Plain(first, angles);
    if |parts| == 1 {
      SplitAcross(first, "", "", ZERO, angles);
      assert first + "" == first && "" + first == first;
      assert Join(parts) == first && [first] == parts;
    } else {
      var rest := "," + Join(parts[1..]);
      assert Join(parts) == first + rest;
      SplitAcross(first, rest, "", ZERO, angles);
      assert "" + first == first;
      assert rest[1..] == Join(parts[1..]);
      SplitOfJoin(parts[1..], angles);
      assert [first] + parts[1..] == parts;
    }
  }

  /** Joining undoes splitting, and every argument it gives is plain. */
  lemma {:induction false} JoinOfSplit(rest: string, piece: string, levels: Levels, angles: bool)
    requires Fold(piece, ZERO, angles) == Some(levels) && NoTopComma(piece, ZERO, angles)
    requires SplitRest(rest, piece, levels, angles).Some?
    ensures Join(SplitRest(rest, piece, levels, angles).value) == piece + rest
    ensures AllPlain(SplitRest(rest, piece, levels, angles).value, angles)
    decreases |rest|
  {
    hide Step;
    if rest == "" {
      assert piece + rest == piece;
    } else if rest[0] == ',' && levels == ZERO {
      JoinOfSplit(rest[1..], "", ZERO, angles);
      var parts := SplitRest(rest[1..], "", ZERO, angles).value;
      var all := [piece] + parts;
      assert all[1..] == parts;
      assert "" + rest[1..] == rest[1..];
      assert piece + "," + rest[1..] == piece + rest;
    } else {
      assert [rest[0]][1..] == "";
      FoldConcat(piece, [rest[0]], ZERO, angles);
      NoTopCommaConcat(piece, [rest[0]], ZERO, angles);
      JoinOfSplit(rest[1..], piece + [rest[0]], Step(levels, rest[0], angles), angles);
      assert piece + [rest[0]] + rest[1..] == piece + rest;
    }
  }

  /** Splitting refuses exactly the texts whose delimiters are not balanced. */
  lemma {:induction false} SplitRefusesUnbalanced(rest: string, piece: string, levels: Levels, angles: bool)
    requires levels.NonNegative()
    ensures SplitRest(rest, piece, levels, angles).Some? <==> Fold(rest, levels, angles) == Some(ZERO)
    decreases |rest|
  {
    if rest != "" {
      var next := Step(levels, rest[0], angles);
      if rest[0] == ',' && levels == ZERO {
        SplitRefusesUnbalanced(rest[1..], "", ZERO, angles);
      } else if next.NonNegative() {
        SplitRefusesUnbalanced(rest[1..], piece + [rest[0]], next, angles);
      }
    }
  }

  /** Split-then-join and join-then-split are both the identity, and refusal means unbalanced. */
  lemma SplitExactly(text: string, angles: bool)
    ensures Split(text, angles).Some? <==> Clean(text, angles)
    ensures Split(text, angles).Some? ==>
              Join(Split(text, angles).value) == text && AllPlain(Split(text, angles).value, angles)
  {
    SplitRefusesUnbalanced(text, "", ZERO, angles);
    if Split(text, angles).Some? {
      JoinOfSplit(text, "", ZERO, angles);
      assert "" + text == text;
    }
  }

  /** `splitTopLevelArguments` as the loop runs: the whole list of arguments, or the refusal. */
  method SplitTopLevelArguments(text: string, angles: bool) returns (r: Option<seq<string>>)
    ensures r == Split(text, angles)
    ensures r.Some? <==> Clean(text, angles)
    ensures r.Some? ==> Join(r.value) == text && AllPlain(r.value, angles)
  {
    SplitExactly(text, angles);
    assert text[0..] == text && text[0..0] == "";
    var result: seq<string> := [];
    var start := 0;
    var levels := ZERO;
    for index := 0 to |text|
      invariant 0 <= start <= index && levels.NonNegative()
      invariant Split(text, angles) == Prepend(result, SplitRest(text[index..], text[start..index], levels, angles))
    {
      var character := text[index];
      var rest := text[index..];
      assert rest[0] == character && rest[1..] == text[index + 1..];
      assert text[start..index] + [character] == text[start..index + 1];
      PrependTwice(result, [text[start..index]], SplitRest(rest[1..], "", ZERO, angles));
      if character == ',' && levels == ZERO {
        result := result + [text[start..index]];
        start := index + 1;
        assert text[start..index + 1] == "";
      } else {
        levels := Step(levels, character, angles);
        if !levels.NonNegative() {
          return None;
        }
      }
    }
    assert text[|text|..] == "" && text[start..|text|] == text[start..];
    if levels != ZERO {
      return None;
    }
    return Some(result + [text[start..]]);
  }

  function Prepend(done: seq<string>, more: Option<seq<string>>): (r: Option<seq<string>>)
    ensures done == [] ==> r == more
  {
    match more
    case None => None
    case Some(parts) =>
      assert done == [] ==> done + parts == parts;
      Some(done + parts)
  }

  lemma PrependTwice(done: seq<string>, next: seq<string>, more: Option<seq<string>>)
    ensures Prepend(done, Prepend(next, more)) == Prepend(done + next, more)
  {
    if more.Some? {
      assert done + (next + more.value) == done + next + more.value;
    }
  }

  // ---------- The close of a call ----------

  /** Inside an open call the scan for its close runs over every stretch that stays at or above it. */
  lemma {:induction false} CloseAcross(text: string, index: nat, end: nat, levels: Levels, angles: bool)
    requires index <= end <= |text| && levels.NonNegative()
    requires Fold(text[index..end], levels, angles).Some?
    ensures CloseFrom(text, index, 1 + levels.round, '(', ')')
         == CloseFrom(text, end, 1 + Fold(text[index..end], levels, angles).value.round, '(', ')')
    decreases end - index
  {
    if index < end {
      var part := text[index..end];
      assert part[0] == text[index] && part[1..] == text[index + 1..end];
      CloseAcross(text, index + 1, end, Step(levels, text[index], angles), angles);
    }
  }

  /** The close of `head(inner)` with a clean `inner` is its last character. */
  lemma CloseOfCall(name: string, inner: string, angles: bool)
    requires Clean(inner, angles)
    ensures MatchingClose(name + "(" + inner + ")", |name|) == Some(|name| + 1 + |inner|)
  {
    var text := name + "(" + inner + ")";
    var from, end := |name| + 1, |name| + 1 + |inner|;
    assert text[|name|] == '(' && text[from..end] == inner && text[end] == ')';
    CloseAcross(text, from, end, ZERO, angles);
  }

  /** What follows the close does not matter to it. */
  lemma {:induction false} CloseBeforeSuffix(text: string, suffix: string, index: nat, depth: int)
    requires index <= |text| && CloseFrom(text, index, depth, '(', ')').Some?
    ensures CloseFrom(text + suffix, index, depth, '(', ')') == CloseFrom(text, index, depth, '(', ')')
    decreases |text| - index
  {
    if index < |text| {
      var next := if text[index] == '(' then depth + 1 else if text[index] == ')' then depth - 1 else depth;
      if text[index] != ')' || depth > 1 {
        CloseBeforeSuffix(text, suffix, index + 1, next);
      }
    }
  }
}

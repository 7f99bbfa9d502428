/** The inputs of a viewer batch: the distinct lines, numbered as entered, and rows sorted by number. */
module BatchInputs {
  import KeyOrder
  import opened Text

  datatype ViewerInput = ViewerInput(id: string, line: nat, value: string)

  /** The id of the `n`-th distinct line. */
  function IdOf(n: nat): string { "query-" + Decimal(n) }

  function Digits(s: string): string
  {
    if s == "" then "" else (if IsDigit(s[0]) then [s[0]] else []) + Digits(s[1..])
  }

  /** `batchInputNumber`. */
  function NumberOf(id: string): nat { match Number(Digits(id)) case Some(n) => n case None => 0 }

  lemma {:induction false} DigitsOfDigits(digits: string)
    requires forall c | c in digits :: IsDigit(c)
    ensures Digits(digits) == digits
  {
    if digits != "" {
      DigitsOfDigits(digits[1..]);
      assert digits == [digits[0]] + digits[1..];
    }
  }

  lemma {:induction false} DigitsAfterLetters(prefix: string, digits: string)
    requires forall i | 0 <= i < |prefix| :: !IsDigit(prefix[i])
    ensures Digits(prefix + digits) == Digits(digits)
  {
    if prefix == "" {
      assert prefix + digits == digits;
    } else {
      assert (prefix + digits)[1..] == prefix[1..] + digits;
      DigitsAfterLetters(prefix[1..], digits);
      assert [] + Digits(digits) == Digits(digits);
    }
  }

  lemma NumberOfIdOf(n: nat)
    ensures NumberOf(IdOf(n)) == n
  {
    DigitsAfterLetters("query-", Decimal(n));
    DigitsOfDigits(Decimal(n));
    NumberOfDecimal(n);
  }

  // ---------- Parsing ----------

  function Values(inputs: seq<ViewerInput>): (r: seq<string>)
    ensures |r| == |inputs| && forall i | 0 <= i < |inputs| :: r[i] == inputs[i].value
  {
    seq(|inputs|, i requires 0 <= i < |inputs| => inputs[i].value)
  }

  /** The inputs of the lines: each non-empty trimmed text at its first line, numbered from 1. */
  function Entries(lines: seq<string>): seq<ViewerInput>
  {
    if lines == [] then []
    else
      var before, trimmed := Entries(lines[..|lines| - 1]), Trim(lines[|lines| - 1]);
      if trimmed == "" || trimmed in Values(before) then before
      else before + [ViewerInput(IdOf(|before| + 1), |lines|, trimmed)]
  }

  /** `parseViewerBatchInputs`; None is the refusal of a text without any value. */
  method ParseViewerBatchInputs(value: string) returns (r: Option<seq<ViewerInput>>)
    ensures r == if Entries(LinesOf(value)) == [] then None else Some(Entries(LinesOf(value)))
  {
    hide Trim, IdOf, LinesOf;
    var lines := LinesOf(value);
    var seen: set<string> := {};
    var inputs: seq<ViewerInput> := [];
    for lineIndex := 0 to |lines|
      invariant inputs == Entries(lines[..lineIndex])
      invariant forall v :: v in seen <==> v in Values(inputs)
    {
      assert lines[..lineIndex + 1][..lineIndex] == lines[..lineIndex];
      var trimmed := Trim(lines[lineIndex]);
      if |trimmed| == 0 || trimmed in seen {
        continue;
      }
      seen := seen + {trimmed};
      ghost var before := inputs;
      inputs := inputs + [ViewerInput(IdOf(|inputs| + 1), lineIndex + 1, trimmed)];
      assert Values(inputs) == Values(before) + [trimmed];
    }
    assert lines[..|lines|] == lines;
    if |inputs| == 0 {
      return None;
    }
    return Some(inputs);
  }

  /** Where an input comes from: its number, and the line it is the first to hold. */
  ghost predicate FromLine(input: ViewerInput, i: nat, lines: seq<string>)
  {
    && input.id == IdOf(i + 1) && 1 <= input.line <= |lines|
    && input.value != "" && Trim(lines[input.line - 1]) == input.value
    && forall l | 0 <= l < input.line - 1 :: Trim(lines[l]) != input.value
  }

  /** Every non-empty line is an input. */
  lemma {:induction false} EveryLineIsAnInput(lines: seq<string>, l: nat)
    requires l < |lines| && Trim(lines[l]) != ""
    ensures Trim(lines[l]) in Values(Entries(lines))
  {
    hide Trim, IdOf;
    var front, trimmed := lines[..|lines| - 1], Trim(lines[|lines| - 1]);
    var before, inputs := Entries(front), Entries(lines);
    if inputs != before {
      assert Values(inputs) == Values(before) + [trimmed];
    }
    if l < |front| {
      assert front[l] == lines[l];
      EveryLineIsAnInput(front, l);
    }
  }

  /** Every input is the first line that holds its value, and carries its number. */
  lemma {:induction false} EveryInputIsALine(lines: seq<string>, i: nat)
    requires i < |Entries(lines)|
    ensures FromLine(Entries(lines)[i], i, lines)
  {
    hide Trim, IdOf;
    var last := |lines| - 1;
    var front, trimmed := lines[..last], Trim(lines[last]);
    var before := Entries(front);
    if i < |before| {
      EveryInputIsALine(front, i);
      assert forall l | 0 <= l < last :: lines[l] == front[l];
    } else {
      forall l | 0 <= l < last ensures Trim(lines[l]) != trimmed {
        assert lines[l] == front[l];
        if Trim(lines[l]) != "" {
          EveryLineIsAnInput(front, l);
        }
      }
    }
  }

  /** No value is entered twice. */
  lemma {:induction false} ValuesDiffer(lines: seq<string>)
    ensures Distinct(Values(Entries(lines)))
  {
    if lines != [] {
      hide Trim, IdOf;
      var before, inputs := Entries(lines[..|lines| - 1]), Entries(lines);
      ValuesDiffer(lines[..|lines| - 1]);
      if inputs != before {
        assert Values(inputs) == Values(before) + [Trim(lines[|lines| - 1])];
      }
    }
  }

  lemma IdsDiffer(m: nat, n: nat)
    requires IdOf(m) == IdOf(n)
    ensures m == n
  {
    NumberOfIdOf(m);
    NumberOfIdOf(n);
  }

  // ---------- Rows of a batch ----------

  /** A result or a refusal of a batch, by the id of its input. */
  datatype Row<+T> = Row(id: string, body: T)

  function Ids<T>(rows: seq<Row<T>>): (r: seq<string>)
    ensures |r| == |rows| && forall i | 0 <= i < |rows| :: r[i] == rows[i].id
  {
    seq(|rows|, i requires 0 <= i < |rows| => rows[i].id)
  }

  function InputIds(inputs: seq<ViewerInput>): (r: seq<string>)
    ensures |r| == |inputs| && forall i | 0 <= i < |inputs| :: r[i] == inputs[i].id
  {
    seq(|inputs|, i requires 0 <= i < |inputs| => inputs[i].id)
  }

  /** `rows.sort(byInputLine)`. */
  function Insert<T>(row: Row<T>, rows: seq<Row<T>>): (r: seq<Row<T>>)
    ensures |r| == |rows| + 1
  {
    if rows == [] || NumberOf(row.id) <= NumberOf(rows[0].id) then [row] + rows else [rows[0]] + Insert(row, rows[1..])
  }

  function Sort<T>(rows: seq<Row<T>>): (r: seq<Row<T>>)
    ensures |r| == |rows|
  {
    if rows == [] then [] else Insert(rows[0], Sort(rows[1..]))
  }

  predicate InOrder<T>(rows: seq<Row<T>>)
  {
    forall i, j | 0 <= i < j < |rows| :: NumberOf(rows[i].id) <= NumberOf(rows[j].id)
  }

  lemma {:induction false} InsertKeepsIds<T>(row: Row<T>, rows: seq<Row<T>>)
    ensures multiset(Ids(Insert(row, rows))) == multiset(Ids(rows)) + multiset{row.id}
  {
    hide NumberOf;
    if rows == [] || NumberOf(row.id) <= NumberOf(rows[0].id) {
      assert Ids([row] + rows) == [row.id] + Ids(rows);
    } else {
      InsertKeepsIds(row, rows[1..]);
      var rest := Insert(row, rows[1..]);
      assert Ids([rows[0]] + rest) == [rows[0].id] + Ids(rest);
      assert Ids(rows) == [rows[0].id] + Ids(rows[1..]);
    }
  }

  lemma {:induction false} InsertKeepsMembers<T>(row: Row<T>, rows: seq<Row<T>>)
    ensures forall x | x in Insert(row, rows) :: x == row || x in rows
  {
    hide NumberOf;
    if rows != [] && NumberOf(row.id) > NumberOf(rows[0].id) {
      InsertKeepsMembers(row, rows[1..]);
      assert Insert(row, rows) == [rows[0]] + Insert(row, rows[1..]);
      assert rows == [rows[0]] + rows[1..];
    }
  }

  lemma {:induction false} InsertKeepsOrder<T>(row: Row<T>, rows: seq<Row<T>>)
    requires InOrder(rows)
    ensures InOrder(Insert(row, rows))
  {
    hide NumberOf;
    if rows != [] && NumberOf(row.id) > NumberOf(rows[0].id) {
      InsertKeepsOrder(row, rows[1..]);
      var rest := Insert(row, rows[1..]);
      forall i | 0 <= i < |rest| ensures NumberOf(rows[0].id) <= NumberOf(rest[i].id) {
        InsertKeepsMembers(row, rows[1..]);
        assert rest[i] in rest;
        if rest[i] != row {
          assert rows == [rows[0]] + rows[1..];
          AtMost(rows, rest[i]);
        }
      }
    }
  }

  lemma AtMost<T>(rows: seq<Row<T>>, x: Row<T>)
    requires InOrder(rows) && rows != [] && x in rows
    ensures NumberOf(rows[0].id) <= NumberOf(x.id)
  {
    hide NumberOf;
  }

  /** Sorting keeps the rows and their ids, and puts them in input order. */
  lemma {:induction false} SortKeepsRows<T>(rows: seq<Row<T>>)
    ensures multiset(Ids(Sort(rows))) == multiset(Ids(rows)) && InOrder(Sort(rows))
    ensures forall x | x in Sort(rows) :: x in rows
  {
    if rows != [] {
      hide Insert, NumberOf, InOrder, Ids;
      var sorted := Sort(rows[1..]);
      SortKeepsRows(rows[1..]);
      InsertKeepsIds(rows[0], sorted);
      InsertKeepsOrder(rows[0], sorted);
      InsertKeepsMembers(rows[0], sorted);
      IdsOfFirst(rows);
      assert rows == [rows[0]] + rows[1..];
    }
  }

  lemma IdsOfFirst<T>(rows: seq<Row<T>>)
    requires rows != []
    ensures multiset(Ids(rows)) == multiset(Ids(rows[1..])) + multiset{rows[0].id}
  {
    assert Ids(rows) == [rows[0].id] + Ids(rows[1..]);
  }

  // ---------- Rows of chosen inputs ----------

  /** The inputs that `p` holds of, in order. */
  function Chosen(inputs: seq<ViewerInput>, p: ViewerInput -> bool): (r: seq<ViewerInput>)
    ensures forall x :: x in r <==> x in inputs && p(x)
  {
    if inputs == [] then []
    else
      var front, last := inputs[..|inputs| - 1], inputs[|inputs| - 1];
      assert inputs == front + [last];
      Chosen(front, p) + if p(last) then [last] else []
  }

  /** Inputs in entry order, each with a higher number than the one before. */
  predicate Rising(ids: seq<string>)
  {
    forall i, j | 0 <= i < j < |ids| :: NumberOf(ids[i]) < NumberOf(ids[j])
  }

  predicate Numbered(inputs: seq<ViewerInput>)
  {
    forall i | 0 <= i < |inputs| :: inputs[i].id == IdOf(i + 1)
  }

  lemma RisingParts(ids: seq<string>, last: string)
    ensures Rising(ids + [last]) <==> Rising(ids) && forall id | id in ids :: NumberOf(id) < NumberOf(last)
  {
    hide NumberOf;
    var longer := ids + [last];
    if Rising(longer) {
      forall i, j | 0 <= i < j < |ids| ensures NumberOf(ids[i]) < NumberOf(ids[j]) {
        assert longer[i] == ids[i] && longer[j] == ids[j];
      }
      forall i | 0 <= i < |ids| ensures NumberOf(ids[i]) < NumberOf(last) {
        assert longer[i] == ids[i] && longer[|ids|] == last;
      }
    }
  }

  lemma {:induction false} ChosenRises(inputs: seq<ViewerInput>, p: ViewerInput -> bool)
    requires Rising(InputIds(inputs))
    ensures Rising(InputIds(Chosen(inputs, p)))
  {
    if inputs != [] {
      hide NumberOf, Rising, InputIds, Chosen;
      var front, last := inputs[..|inputs| - 1], inputs[|inputs| - 1];
      var before := Chosen(front, p);
      assert inputs == front + [last];
      IdsAppend(front, last);
      RisingParts(InputIds(front), last.id);
      ChosenRises(front, p);
      ChosenOfLast(front, last, p);
      ChosenIds(front, p);
      IdsAppend(before, last);
      RisingParts(InputIds(before), last.id);
      assert before + [] == before;
    }
  }

  lemma IdsAppend(inputs: seq<ViewerInput>, x: ViewerInput)
    ensures InputIds(inputs + [x]) == InputIds(inputs) + [x.id]
  {
  }

  lemma ChosenIds(inputs: seq<ViewerInput>, p: ViewerInput -> bool)
    ensures forall id | id in InputIds(Chosen(inputs, p)) :: id in InputIds(inputs)
  {
    var chosen := Chosen(inputs, p);
    hide Chosen;
    forall i | 0 <= i < |chosen| ensures chosen[i].id in InputIds(inputs) {
      assert chosen[i] in inputs;
      var k :| 0 <= k < |inputs| && inputs[k] == chosen[i];
      assert InputIds(inputs)[k] == chosen[i].id;
    }
  }

  lemma NumberedRises(inputs: seq<ViewerInput>)
    requires Numbered(inputs)
    ensures Rising(InputIds(inputs))
  {
    forall i, j | 0 <= i < j < |inputs| ensures NumberOf(inputs[i].id) < NumberOf(inputs[j].id) {
      NumberOfIdOf(i + 1);
      NumberOfIdOf(j + 1);
    }
  }

  predicate InOrderIds(ids: seq<string>)
  {
    forall i, j | 0 <= i < j < |ids| :: NumberOf(ids[i]) <= NumberOf(ids[j])
  }

  /** Rows in input order with the ids of rising inputs are one for each of them, in entry order. */
  lemma {:induction false} OrderIsEntryOrder(a: seq<string>, b: seq<string>)
    requires InOrderIds(a) && Rising(b) && multiset(a) == multiset(b)
    ensures a == b
    decreases |a|
  {
    hide NumberOf;
    if a == [] {
      assert |multiset(b)| == 0;
    } else {
      assert a[0] in multiset(b) && |multiset(b)| == |b| && |multiset(a)| == |a|;
      assert b[0] in multiset(a);
      var i :| 0 <= i < |b| && b[i] == a[0];
      var j :| 0 <= j < |a| && a[j] == b[0];
      assert NumberOf(a[0]) <= NumberOf(b[0]);
      assert i == 0;
      KeyOrder.TailsAgree(a, b);
      OrderIsEntryOrder(a[1..], b[1..]);
      assert a == [a[0]] + a[1..] && b == [b[0]] + b[1..];
    }
  }

  /** Two disjoint choices make up the choice of both. */
  lemma {:induction false} ChoicesAdd(inputs: seq<ViewerInput>, p: ViewerInput -> bool, q: ViewerInput -> bool, both: ViewerInput -> bool)
    requires forall x | x in inputs :: !(p(x) && q(x)) && (both(x) <==> p(x) || q(x))
    ensures multiset(InputIds(Chosen(inputs, p))) + multiset(InputIds(Chosen(inputs, q)))
         == multiset(InputIds(Chosen(inputs, both)))
  {
    if inputs != [] {
      var front, last := inputs[..|inputs| - 1], inputs[|inputs| - 1];
      assert inputs == front + [last];
      ChoicesAdd(front, p, q, both);
      ChosenOfLast(front, last, p);
      ChosenOfLast(front, last, q);
      ChosenOfLast(front, last, both);
    }
  }

  lemma ChosenOfLast(front: seq<ViewerInput>, last: ViewerInput, p: ViewerInput -> bool)
    ensures Chosen(front + [last], p) == Chosen(front, p) + if p(last) then [last] else []
    ensures multiset(InputIds(Chosen(front + [last], p)))
         == multiset(InputIds(Chosen(front, p))) + if p(last) then multiset{last.id} else multiset{}
  {
    assert (front + [last])[..|front|] == front;
    hide Chosen;
    var chosen := Chosen(front, p);
    assert chosen + [] == chosen;
    assert InputIds(chosen + [last]) == InputIds(chosen) + [last.id];
  }

  /** Choosing twice is choosing what both hold of. */
  lemma {:induction false} ChosenTwice(inputs: seq<ViewerInput>, p: ViewerInput -> bool, q: ViewerInput -> bool, both: ViewerInput -> bool)
    requires forall x | x in inputs :: both(x) <==> p(x) && q(x)
    ensures Chosen(Chosen(inputs, p), q) == Chosen(inputs, both)
  {
    if inputs != [] {
      var front, last := inputs[..|inputs| - 1], inputs[|inputs| - 1];
      assert inputs == front + [last];
      ChosenTwice(front, p, q, both);
      ChosenOfLast(front, last, p);
      ChosenOfLast(front, last, both);
      hide Chosen, InputIds;
      var chosen := Chosen(front, p);
      if p(last) {
        ChosenOfLast(chosen, last, q);
      } else {
        assert chosen + [] == chosen && Chosen(front, both) + [] == Chosen(front, both);
      }
    }
  }
}

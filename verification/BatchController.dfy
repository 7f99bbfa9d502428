/** The viewer's batches: every input ends as exactly one result or one refusal, in entry order. */
module BatchController {
  import opened BatchInputs
  import opened Text

  // ---------- What the batch meets ----------

  /** What the local check of an input says; private material stops the whole batch. */
  datatype Detection = Public | ViewingKey | Unusable | PrivateMaterial

  /** Why an input ends as a refusal. */
  datatype Cause = RejectedLocally | QueryFailed | KeyFailed | ScanFailed

  /**
   * The shared Orchard scan: whether it connects, which keys fail at each verified page, and whether
   * the stream ends without a failure of its own.
   */
  datatype Scan = Scan(connects: bool, pages: seq<set<string>>, ends: bool)

  /**
   * The answers of the world to one batch: the check of each input, the settled public query of each,
   * the Orchard scan with the snapshot of each key, and whether the batch was cancelled.
   */
  datatype World = World(
    detect: ViewerInput -> Detection,
    query: ViewerInput -> Option<nat>,
    scan: Scan,
    snapshot: ViewerInput -> nat,
    cancelled: bool
  )

  function FailedIn(pages: seq<set<string>>): set<string>
  {
    if pages == [] then {} else FailedIn(pages[..|pages| - 1]) + pages[|pages| - 1]
  }

  function IdSet(inputs: seq<ViewerInput>): set<string> { set x | x in inputs :: x.id }

  function InIds(ids: set<string>): ViewerInput -> bool { (x: ViewerInput) => x.id in ids }

  function Is(id: string): ViewerInput -> bool { (x: ViewerInput) => x.id == id }

  lemma {:induction false} SinglePick(inputs: seq<ViewerInput>, k: nat)
    requires k < |inputs| && Rising(InputIds(inputs))
    ensures multiset(InputIds(Chosen(inputs, Is(inputs[k].id)))) == multiset{inputs[k].id}
  {
    var front, last, p := inputs[..|inputs| - 1], inputs[|inputs| - 1], Is(inputs[k].id);
    assert inputs == front + [last];
    assert InputIds(inputs) == InputIds(front) + [last.id];
    RisingParts(InputIds(front), last.id);
    ChosenOfLast(front, last, p);
    if k < |front| {
      SinglePick(front, k);
      assert InputIds(front)[k] == front[k].id;
    } else {
      NonePicked(front, last.id);
    }
  }

  lemma {:induction false} NonePicked(inputs: seq<ViewerInput>, id: string)
    requires forall x | x in InputIds(inputs) :: NumberOf(x) < NumberOf(id)
    ensures Chosen(inputs, Is(id)) == []
  {
    if inputs != [] {
      var front, last := inputs[..|inputs| - 1], inputs[|inputs| - 1];
      assert inputs == front + [last];
      assert InputIds(inputs) == InputIds(front) + [last.id];
      assert InputIds(inputs)[|front|] == last.id && last.id in InputIds(inputs);
      assert NumberOf(last.id) < NumberOf(id);
      NonePicked(front, id);
      ChosenOfLast(front, last, Is(id));
    }
  }

  /** One more failed key is one more refusal. */
  lemma OneMoreFails(prepared: seq<ViewerInput>, failed: set<string>, k: nat)
    requires k < |prepared| && Rising(InputIds(prepared)) && prepared[k].id !in failed
    ensures multiset(InputIds(Chosen(prepared, InIds(failed + {prepared[k].id}))))
         == multiset(InputIds(Chosen(prepared, InIds(failed)))) + multiset{prepared[k].id}
  {
    hide Chosen, Rising;
    SinglePick(prepared, k);
    ChoicesAdd(prepared, InIds(failed), Is(prepared[k].id), InIds(failed + {prepared[k].id}));
  }

  lemma {:induction false} NoneFails(prepared: seq<ViewerInput>)
    ensures Chosen(prepared, InIds({})) == []
  {
    if prepared != [] {
      var front, last := prepared[..|prepared| - 1], prepared[|prepared| - 1];
      assert prepared == front + [last];
      NoneFails(front);
      ChosenOfLast(front, last, InIds({}));
    }
  }

  /** Every key was refused once. */
  predicate Refused(errors: seq<Row<Cause>>, prepared: seq<ViewerInput>, failed: set<string>)
  {
    && multiset(Ids(errors)) == multiset(InputIds(Chosen(prepared, InIds(failed))))
    && forall row | row in errors :: row.body == KeyFailed
  }

  lemma RefusedOneMore(errors: seq<Row<Cause>>, prepared: seq<ViewerInput>, failed: set<string>, k: nat)
    requires Refused(errors, prepared, failed)
    requires k < |prepared| && Rising(InputIds(prepared)) && prepared[k].id !in failed
    ensures Refused(errors + [Row(prepared[k].id, KeyFailed)], prepared, failed + {prepared[k].id})
  {
    hide Chosen, Rising;
    OneMoreFails(prepared, failed, k);
    assert Ids(errors + [Row(prepared[k].id, KeyFailed)]) == Ids(errors) + [prepared[k].id];
  }

  lemma NothingRefused(prepared: seq<ViewerInput>)
    requires prepared != []
    ensures Refused([], prepared, {}) && IdSet(prepared) != {}
  {
    NoneFails(prepared);
    assert prepared[0].id in IdSet(prepared);
    assert Ids<Cause>([]) == [];
  }

  lemma IdsOfMore(inputs: seq<ViewerInput>, i: nat)
    requires i < |inputs|
    ensures IdSet(inputs[..i + 1]) == IdSet(inputs[..i]) + {inputs[i].id}
  {
    assert inputs[..i + 1] == inputs[..i] + [inputs[i]];
  }

  lemma OnePageMore(pages: seq<set<string>>, p: nat)
    requires p < |pages|
    ensures FailedIn(pages[..p + 1]) == FailedIn(pages[..p]) + pages[p]
  {
    assert pages[..p + 1][..p] == pages[..p];
  }

  /** What fails in the first pages fails in all. */
  lemma {:induction false} MorePagesFailMore(pages: seq<set<string>>, p: nat)
    requires p <= |pages|
    ensures FailedIn(pages[..p]) <= FailedIn(pages)
  {
    if p == |pages| {
      assert pages[..p] == pages;
    } else {
      MorePagesFailMore(pages[..|pages| - 1], p);
      assert pages[..|pages| - 1][..p] == pages[..p];
    }
  }

  /** One page tried with every key that has not failed. */
  method ScanPage(prepared: seq<ViewerInput>, page: set<string>, before: set<string>, rows: seq<Row<Cause>>)
    returns (failed: set<string>, errors: seq<Row<Cause>>)
    requires Rising(InputIds(prepared)) && Refused(rows, prepared, before)
    ensures Refused(errors, prepared, failed) && failed == before + IdSet(prepared) * page
  {
    hide Rising, Refused, IdSet;
    failed, errors := before, rows;
    assert IdSet(prepared[..0]) == {} by { NoIds(); }
    for i := 0 to |prepared|
      invariant failed == before + IdSet(prepared[..i]) * page && Refused(errors, prepared, failed)
    {
      var id := prepared[i].id;
      IdsOfMore(prepared, i);
      if id in failed || id !in page {
        continue;
      }
      RefusedOneMore(errors, prepared, failed, i);
      failed := failed + {id};
      errors := errors + [Row(id, KeyFailed)];
    }
    assert prepared[..|prepared|] == prepared;
  }

  lemma NoIds()
    ensures IdSet([]) == {}
  {
  }

  /**
   * `scanOrchardTogether`: the keys that failed and their refusals; `ok` is false when it throws, as
   * it does when all keys have failed.
   */
  method ScanOrchardTogether(prepared: seq<ViewerInput>, scan: Scan)
    returns (ok: bool, failed: set<string>, errors: seq<Row<Cause>>)
    requires prepared != [] && Rising(InputIds(prepared))
    ensures Refused(errors, prepared, failed)
    ensures failed == if scan.connects then IdSet(prepared) * FailedIn(scan.pages) else {}
    ensures ok <==> scan.connects && scan.ends && failed != IdSet(prepared)
  {
    hide Rising, Chosen, Refused, IdSet, FailedIn;
    failed, errors := {}, [];
    NothingRefused(prepared);
    assert FailedIn(scan.pages[..0]) == {} by { NoPages(); }
    if !scan.connects {
      return false, failed, errors;
    }
    for p := 0 to |scan.pages|
      invariant failed == IdSet(prepared) * FailedIn(scan.pages[..p]) && failed != IdSet(prepared)
      invariant Refused(errors, prepared, failed)
    {
      failed, errors := ScanPage(prepared, scan.pages[p], failed, errors);
      OnePageMore(scan.pages, p);
      if failed == IdSet(prepared) {
        MorePagesFailMore(scan.pages, p + 1);
        return false, failed, errors;
      }
    }
    assert scan.pages[..|scan.pages|] == scan.pages;
    return scan.ends, failed, errors;
  }

  lemma NoPages()
    ensures FailedIn([]) == {}
  {
  }

  // ---------- How each input ends ----------

  function Detected(w: World, d: Detection): ViewerInput -> bool { (x: ViewerInput) => w.detect(x) == d }

  /** An input that ends as a result. */
  function Succeeds(w: World): ViewerInput -> bool
  {
    (x: ViewerInput) =>
      match w.detect(x)
      case Public => w.query(x).Some?
      case ViewingKey => w.scan.connects && w.scan.ends && x.id !in FailedIn(w.scan.pages)
      case _ => false
  }

  function Fails(w: World): ViewerInput -> bool { (x: ViewerInput) => !Succeeds(w)(x) }

  lemma KeySucceeds(w: World, x: ViewerInput)
    requires w.detect(x) == ViewingKey
    ensures Succeeds(w)(x) <==> w.scan.connects && w.scan.ends && x.id !in FailedIn(w.scan.pages)
    ensures Fails(w)(x) <==> !Succeeds(w)(x)
  {
  }

  /** What the result of an input holds. */
  function StateOf(w: World, x: ViewerInput): nat
  {
    if w.detect(x) == Public then (if w.query(x).Some? then w.query(x).value else 0) else w.snapshot(x)
  }

  /** Why the refusal of an input was made. */
  function CauseOf(w: World, x: ViewerInput): Cause
  {
    match w.detect(x)
    case Public => QueryFailed
    case ViewingKey => if w.scan.connects && x.id in FailedIn(w.scan.pages) then KeyFailed else ScanFailed
    case _ => RejectedLocally
  }

  datatype Published = Unpublished | Published(items: seq<Row<nat>>, errors: seq<Row<Cause>>)

  /** The rows so far: one result for each of `good`, one refusal for each of `bad`, with the right contents. */
  predicate Accounted(w: World, items: seq<Row<nat>>, errors: seq<Row<Cause>>, good: multiset<string>, bad: multiset<string>,
                      inputs: seq<ViewerInput>)
  {
    && multiset(Ids(items)) == good && multiset(Ids(errors)) == bad
    && (forall row, x | row in items && x in inputs && x.id == row.id :: row.body == StateOf(w, x))
    && (forall row, x | row in errors && x in inputs && x.id == row.id :: row.body == CauseOf(w, x))
  }

  function Picked(inputs: seq<ViewerInput>, p: ViewerInput -> bool): multiset<string> { multiset(InputIds(Chosen(inputs, p))) }

  predicate OneOfEach(inputs: seq<ViewerInput>)
  {
    forall x, y | x in inputs && y in inputs && x.id == y.id :: x == y
  }

  lemma NumberedAreOfEach(inputs: seq<ViewerInput>)
    requires Numbered(inputs)
    ensures OneOfEach(inputs)
  {
    forall i, j | 0 <= i < |inputs| && 0 <= j < |inputs| && inputs[i].id == inputs[j].id
      ensures inputs[i] == inputs[j]
    {
      IdsDiffer(i + 1, j + 1);
    }
  }

  lemma AccountItem(w: World, items: seq<Row<nat>>, errors: seq<Row<Cause>>, good: multiset<string>, bad: multiset<string>,
                    inputs: seq<ViewerInput>, x: ViewerInput)
    requires Accounted(w, items, errors, good, bad, inputs) && OneOfEach(inputs) && x in inputs
    ensures Accounted(w, items + [Row(x.id, StateOf(w, x))], errors, good + multiset{x.id}, bad, inputs)
  {
    assert Ids(items + [Row(x.id, StateOf(w, x))]) == Ids(items) + [x.id];
  }

  lemma AccountError(w: World, items: seq<Row<nat>>, errors: seq<Row<Cause>>, good: multiset<string>, bad: multiset<string>,
                     inputs: seq<ViewerInput>, x: ViewerInput)
    requires Accounted(w, items, errors, good, bad, inputs) && OneOfEach(inputs) && x in inputs
    ensures Accounted(w, items, errors + [Row(x.id, CauseOf(w, x))], good, bad + multiset{x.id}, inputs)
  {
    assert Ids(errors + [Row(x.id, CauseOf(w, x))]) == Ids(errors) + [x.id];
  }

  lemma PickedOfLast(inputs: seq<ViewerInput>, i: nat, p: ViewerInput -> bool)
    requires i < |inputs|
    ensures var chosen := Chosen(inputs[..i], p);
            Chosen(inputs[..i + 1], p) == if p(inputs[i]) then chosen + [inputs[i]] else chosen
    ensures var picked := Picked(inputs[..i], p);
            Picked(inputs[..i + 1], p) == if p(inputs[i]) then picked + multiset{inputs[i].id} else picked
  {
    assert inputs[..i + 1] == inputs[..i] + [inputs[i]];
    ChosenOfLast(inputs[..i], inputs[i], p);
    assert Chosen(inputs[..i], p) + [] == Chosen(inputs[..i], p);
  }

  /** Checks the inputs locally: refusals for the unusable ones, and the rest by kind. */
  method DetectAll(w: World, inputs: seq<ViewerInput>)
    returns (ok: bool, errors: seq<Row<Cause>>, public: seq<ViewerInput>, prepared: seq<ViewerInput>)
    requires OneOfEach(inputs)
    ensures ok <==> forall x | x in inputs :: w.detect(x) != PrivateMaterial
    ensures ok ==> Accounted(w, [], errors, multiset{}, Picked(inputs, Detected(w, Unusable)), inputs)
    ensures ok ==> public == Chosen(inputs, Detected(w, Public)) && prepared == Chosen(inputs, Detected(w, ViewingKey))
  {
    hide Accounted, OneOfEach, Chosen, Picked;
    errors, public, prepared := [], [], [];
    NothingAccounted(w, inputs);
    for i := 0 to |inputs|
      invariant Accounted(w, [], errors, multiset{}, Picked(inputs[..i], Detected(w, Unusable)), inputs)
      invariant public == Chosen(inputs[..i], Detected(w, Public))
      invariant prepared == Chosen(inputs[..i], Detected(w, ViewingKey))
      invariant forall j | 0 <= j < i :: w.detect(inputs[j]) != PrivateMaterial
    {
      var input := inputs[i];
      PickedOfLast(inputs, i, Detected(w, Unusable));
      PickedOfLast(inputs, i, Detected(w, Public));
      PickedOfLast(inputs, i, Detected(w, ViewingKey));
      match w.detect(input)
      case PrivateMaterial =>
        return false, errors, public, prepared;
      case Unusable =>
        AccountError(w, [], errors, multiset{}, Picked(inputs[..i], Detected(w, Unusable)), inputs, input);
        errors := errors + [Row(input.id, RejectedLocally)];
      case ViewingKey =>
        prepared := prepared + [input];
      case Public =>
        public := public + [input];
    }
    assert inputs[..|inputs|] == inputs;
    return true, errors, public, prepared;
  }

  lemma PickedStep(before: multiset<string>, inputs: seq<ViewerInput>, i: nat, p: ViewerInput -> bool)
    requires i < |inputs|
    ensures var now := before + Picked(inputs[..i], p);
            before + Picked(inputs[..i + 1], p) == if p(inputs[i]) then now + multiset{inputs[i].id} else now
  {
    hide Picked;
    PickedOfLast(inputs, i, p);
    var picked, id := Picked(inputs[..i], p), inputs[i].id;
    assert before + picked + multiset{id} == before + (picked + multiset{id});
  }

  lemma NothingAccounted(w: World, inputs: seq<ViewerInput>)
    ensures Accounted(w, [], [], multiset{}, multiset{}, inputs)
    ensures forall p :: Chosen(inputs[..0], p) == [] && Picked(inputs[..0], p) == multiset{}
  {
    assert Ids<nat>([]) == [] && Ids<Cause>([]) == [];
  }

  function Answered(w: World): ViewerInput -> bool { (x: ViewerInput) => w.query(x).Some? }

  function Unanswered(w: World): ViewerInput -> bool { (x: ViewerInput) => w.query(x).None? }

  /** Turns the settled queries of `public` into rows, in their order. */
  method AddSettled(w: World, inputs: seq<ViewerInput>, public: seq<ViewerInput>, before: seq<Row<Cause>>, ghost bad: multiset<string>)
    returns (items: seq<Row<nat>>, errors: seq<Row<Cause>>)
    requires OneOfEach(inputs) && Accounted(w, [], before, multiset{}, bad, inputs)
    requires forall x | x in public :: x in inputs && w.detect(x) == Public
    ensures Accounted(w, items, errors, Picked(public, Answered(w)), bad + Picked(public, Unanswered(w)), inputs)
  {
    hide Accounted, OneOfEach, Chosen, Picked;
    items, errors := [], before;
    NothingAccounted(w, public);
    assert bad + multiset{} == bad;
    for i := 0 to |public|
      invariant Accounted(w, items, errors, Picked(public[..i], Answered(w)),
                          bad + Picked(public[..i], Unanswered(w)), inputs)
    {
      var x := public[i];
      PickedOfLast(public, i, Answered(w));
      PickedStep(bad, public, i, Unanswered(w));
      ghost var good, worse := Picked(public[..i], Answered(w)), bad + Picked(public[..i], Unanswered(w));
      var answer := w.query(x);
      if answer.Some? {
        AccountItem(w, items, errors, good, worse, inputs, x);
        items := items + [Row(x.id, answer.value)];
      } else {
        AccountError(w, items, errors, good, worse, inputs, x);
        errors := errors + [Row(x.id, QueryFailed)];
      }
    }
    assert public[..|public|] == public;
  }

  function NotIn(ids: set<string>): ViewerInput -> bool { (x: ViewerInput) => x.id !in ids }

  /** Refusals of keys are refusals of inputs. */
  lemma AccountRefused(w: World, items: seq<Row<nat>>, errors: seq<Row<Cause>>, good: multiset<string>, bad: multiset<string>,
                       inputs: seq<ViewerInput>, prepared: seq<ViewerInput>, failed: set<string>, rows: seq<Row<Cause>>)
    requires Accounted(w, items, errors, good, bad, inputs) && Refused(rows, prepared, failed) && OneOfEach(inputs)
    requires forall x | x in prepared :: x in inputs && w.detect(x) == ViewingKey
    requires failed == if w.scan.connects then IdSet(prepared) * FailedIn(w.scan.pages) else {}
    ensures Accounted(w, items, errors + rows, good, bad + Picked(prepared, InIds(failed)), inputs)
  {
    assert Ids(errors + rows) == Ids(errors) + Ids(rows);
    forall row, x | row in rows && x in inputs && x.id == row.id ensures row.body == CauseOf(w, x) {
      RowIsOfChosen(rows, prepared, failed, row);
    }
  }

  lemma RowIsOfChosen(rows: seq<Row<Cause>>, prepared: seq<ViewerInput>, failed: set<string>, row: Row<Cause>)
    requires Refused(rows, prepared, failed) && row in rows
    ensures exists y :: y in prepared && y.id in failed && y.id == row.id
  {
    var i :| 0 <= i < |rows| && rows[i] == row;
    assert Ids(rows)[i] == row.id && row.id in multiset(Ids(rows));
    IdIsOfChosen(prepared, InIds(failed), row.id);
  }

  lemma IdIsOfChosen(inputs: seq<ViewerInput>, p: ViewerInput -> bool, id: string)
    ensures id in Picked(inputs, p) <==> exists y :: y in inputs && p(y) && y.id == id
  {
    var chosen := Chosen(inputs, p);
    if id in Picked(inputs, p) {
      assert id in InputIds(chosen);
      var k :| 0 <= k < |chosen| && InputIds(chosen)[k] == id;
      assert chosen[k] in chosen;
    }
    if y :| y in inputs && p(y) && y.id == id {
      var k :| 0 <= k < |chosen| && chosen[k] == y;
      assert InputIds(chosen)[k] == id;
    }
  }

  /** The results of the keys that scanned through, or the refusals of the keys the scan took down. */
  method AddRest(w: World, inputs: seq<ViewerInput>, prepared: seq<ViewerInput>, failed: set<string>, ok: bool,
                 before: seq<Row<nat>>, rows: seq<Row<Cause>>, ghost good: multiset<string>, ghost bad: multiset<string>)
    returns (items: seq<Row<nat>>, errors: seq<Row<Cause>>)
    requires OneOfEach(inputs) && Rising(InputIds(prepared))
    requires forall x | x in prepared :: x in inputs && w.detect(x) == ViewingKey && x.id !in bad
    requires failed == if w.scan.connects then IdSet(prepared) * FailedIn(w.scan.pages) else {}
    requires Accounted(w, before, rows, good, bad + Picked(prepared, InIds(failed)), inputs)
    ensures ok ==> Accounted(w, items, errors, good + Picked(prepared, NotIn(failed)), bad + Picked(prepared, InIds(failed)), inputs)
    ensures !ok ==> Accounted(w, items, errors, good,
                              bad + Picked(prepared, InIds(failed)) + Picked(prepared, NotIn(failed)), inputs)
  {
    hide Accounted, OneOfEach, Chosen, Picked, Rising, FailedIn;
    ghost var worse := bad + Picked(prepared, InIds(failed));
    items, errors := before, rows;
    NothingAccounted(w, prepared);
    assert good + multiset{} == good && worse + multiset{} == worse;
    for i := 0 to |prepared|
      invariant ok ==> Accounted(w, items, errors, good + Picked(prepared[..i], NotIn(failed)), worse, inputs)
      invariant !ok ==> Accounted(w, items, errors, good, worse + Picked(prepared[..i], NotIn(failed)), inputs)
    {
      var x := prepared[i];
      ghost var picked := Picked(prepared[..i], NotIn(failed));
      PickedStep(good, prepared, i, NotIn(failed));
      PickedStep(worse, prepared, i, NotIn(failed));
      if ok {
        if x.id in failed {
          continue;
        }
        AccountItem(w, items, errors, good + picked, worse, inputs, x);
        items := items + [Row(x.id, w.snapshot(x))];
      } else {
        ReportedAlready(w, items, errors, good, bad, inputs, prepared, failed, i);
        if x.id in Ids(errors) {
          continue;
        }
        NotFailedByItself(w, prepared, failed, x);
        AccountError(w, items, errors, good, worse + picked, inputs, x);
        errors := errors + [Row(x.id, ScanFailed)];
      }
    }
    assert prepared[..|prepared|] == prepared;
  }

  lemma NotFailedByItself(w: World, prepared: seq<ViewerInput>, failed: set<string>, x: ViewerInput)
    requires x in prepared && w.detect(x) == ViewingKey && x.id !in failed
    requires failed == if w.scan.connects then IdSet(prepared) * FailedIn(w.scan.pages) else {}
    ensures CauseOf(w, x) == ScanFailed
  {
  }

  /** A key is among the refusals so far exactly when it failed on its own. */
  lemma ReportedAlready(w: World, items: seq<Row<nat>>, errors: seq<Row<Cause>>, good: multiset<string>, bad: multiset<string>,
                        inputs: seq<ViewerInput>, prepared: seq<ViewerInput>, failed: set<string>, i: nat)
    requires i < |prepared| && Rising(InputIds(prepared)) && prepared[i].id !in bad
    requires Accounted(w, items, errors, good,
                       bad + Picked(prepared, InIds(failed)) + Picked(prepared[..i], NotIn(failed)), inputs)
    ensures prepared[i].id in Ids(errors) <==> prepared[i].id in failed
  {
    var id := prepared[i].id;
    hide Chosen;
    assert id in Ids(errors) <==> id in multiset(Ids(errors));
    IdIsOfChosen(prepared, InIds(failed), id);
    IdIsOfChosen(prepared[..i], NotIn(failed), id);
    forall k | 0 <= k < i ensures prepared[k].id != id {
      assert NumberOf(InputIds(prepared)[k]) < NumberOf(InputIds(prepared)[i]);
    }
  }

  // ---------- The whole batch ----------

  /** The choices of a batch without private material, put together. */
  lemma ChoicesOfBatch(w: World, inputs: seq<ViewerInput>)
    requires forall x | x in inputs :: w.detect(x) != PrivateMaterial
    ensures var public, prepared := Chosen(inputs, Detected(w, Public)), Chosen(inputs, Detected(w, ViewingKey));
            && Picked(public, Answered(w)) + Picked(prepared, Succeeds(w)) == Picked(inputs, Succeeds(w))
            && Picked(inputs, Detected(w, Unusable)) + Picked(public, Unanswered(w)) + Picked(prepared, Fails(w))
               == Picked(inputs, Fails(w))
  {
    hide Chosen, Rising;
    var answered := (x: ViewerInput) => w.detect(x) == Public && w.query(x).Some?;
    var unanswered := (x: ViewerInput) => w.detect(x) == Public && w.query(x).None?;
    var found := (x: ViewerInput) => w.detect(x) == ViewingKey && Succeeds(w)(x);
    var lost := (x: ViewerInput) => w.detect(x) == ViewingKey && Fails(w)(x);
    var refused := (x: ViewerInput) => w.detect(x) == Unusable || unanswered(x);
    ChosenTwice(inputs, Detected(w, Public), Answered(w), answered);
    ChosenTwice(inputs, Detected(w, Public), Unanswered(w), unanswered);
    ChosenTwice(inputs, Detected(w, ViewingKey), Succeeds(w), found);
    ChosenTwice(inputs, Detected(w, ViewingKey), Fails(w), lost);
    ChoicesAdd(inputs, answered, found, Succeeds(w));
    ChoicesAdd(inputs, Detected(w, Unusable), unanswered, refused);
    ChoicesAdd(inputs, refused, lost, Fails(w));
  }

  /** Which keys of a finished scan succeed. */
  lemma ChoicesOfScan(w: World, prepared: seq<ViewerInput>, failed: set<string>, ok: bool)
    requires forall x | x in prepared :: w.detect(x) == ViewingKey
    requires failed == if w.scan.connects then IdSet(prepared) * FailedIn(w.scan.pages) else {}
    requires ok <==> w.scan.connects && w.scan.ends && failed != IdSet(prepared)
    ensures ok ==> Picked(prepared, NotIn(failed)) == Picked(prepared, Succeeds(w))
                   && Picked(prepared, InIds(failed)) == Picked(prepared, Fails(w))
    ensures !ok ==> Picked(prepared, Succeeds(w)) == multiset{}
                    && Picked(prepared, InIds(failed)) + Picked(prepared, NotIn(failed)) == Picked(prepared, Fails(w))
  {
    hide Chosen, FailedIn;
    if ok {
      ChosenAlike(prepared, NotIn(failed), Succeeds(w));
      ChosenAlike(prepared, InIds(failed), Fails(w));
    } else {
      forall x | x in prepared ensures Fails(w)(x) {
        assert x.id in IdSet(prepared);
        KeySucceeds(w, x);
      }
      NoneChosen(prepared, Succeeds(w));
      ChoicesAdd(prepared, InIds(failed), NotIn(failed), Fails(w));
    }
  }

  lemma {:induction false} ChosenAlike(inputs: seq<ViewerInput>, p: ViewerInput -> bool, q: ViewerInput -> bool)
    requires forall x | x in inputs :: p(x) == q(x)
    ensures Chosen(inputs, p) == Chosen(inputs, q)
  {
    if inputs != [] {
      assert inputs == inputs[..|inputs| - 1] + [inputs[|inputs| - 1]];
      ChosenAlike(inputs[..|inputs| - 1], p, q);
    }
  }

  lemma {:induction false} NoneChosen(inputs: seq<ViewerInput>, p: ViewerInput -> bool)
    requires forall x | x in inputs :: !p(x)
    ensures Chosen(inputs, p) == []
  {
    if inputs != [] {
      assert inputs == inputs[..|inputs| - 1] + [inputs[|inputs| - 1]];
      NoneChosen(inputs[..|inputs| - 1], p);
    }
  }

  /** The rows that a published batch has to show, in entry order. */
  predicate Complete(w: World, inputs: seq<ViewerInput>, items: seq<Row<nat>>, errors: seq<Row<Cause>>)
  {
    && Ids(items) == InputIds(Chosen(inputs, Succeeds(w)))
    && Ids(errors) == InputIds(Chosen(inputs, Fails(w)))
    && (forall row, x | row in items && x in inputs && x.id == row.id :: row.body == StateOf(w, x))
    && (forall row, x | row in errors && x in inputs && x.id == row.id :: row.body == CauseOf(w, x))
  }

  /** The scan reaches the end, and the key fails on none of its pages. */
  predicate ScansThrough(w: World, x: ViewerInput)
  {
    w.scan.connects && w.scan.ends && forall p | 0 <= p < |w.scan.pages| :: x.id !in w.scan.pages[p]
  }

  lemma {:induction false} FailedOnAPage(pages: seq<set<string>>, id: string)
    ensures id in FailedIn(pages) <==> exists p :: 0 <= p < |pages| && id in pages[p]
  {
    if pages != [] {
      var last := |pages| - 1;
      FailedOnAPage(pages[..last], id);
      if p :| 0 <= p < last && id in pages[..last][p] {
        assert id in pages[p];
      }
      if p :| 0 <= p < |pages| && id in pages[p] && p < last {
        assert id in pages[..last][p];
      }
    }
  }

  /** A public input succeeds when its query is answered, a viewing key when it scans through, and nothing else does. */
  lemma WhoSucceeds(w: World, x: ViewerInput)
    ensures Succeeds(w)(x) <==> !Fails(w)(x)
    ensures Succeeds(w)(x) <==>
              || (w.detect(x) == Public && w.query(x).Some?)
              || (w.detect(x) == ViewingKey && ScansThrough(w, x))
  {
    FailedOnAPage(w.scan.pages, x.id);
  }

  predicate Holds<T(==)>(rows: seq<Row<T>>, id: string, body: T) { Row(id, body) in rows }

  /** What a complete batch shows for one input: its one result or its one refusal, with its own answer. */
  lemma CompleteForInput(w: World, inputs: seq<ViewerInput>, items: seq<Row<nat>>, errors: seq<Row<Cause>>, k: nat)
    requires Numbered(inputs) && Complete(w, inputs, items, errors) && k < |inputs|
    ensures |items| + |errors| == |inputs| && Rising(Ids(items)) && Rising(Ids(errors))
    ensures var x := inputs[k];
            match w.detect(x)
            case Public =>
              if w.query(x).Some? then Holds(items, x.id, w.query(x).value) && x.id !in Ids(errors)
              else Holds(errors, x.id, QueryFailed) && x.id !in Ids(items)
            case ViewingKey =>
              if ScansThrough(w, x) then Holds(items, x.id, w.snapshot(x)) && x.id !in Ids(errors)
              else if w.scan.connects && exists p :: 0 <= p < |w.scan.pages| && x.id in w.scan.pages[p] then
                Holds(errors, x.id, KeyFailed) && x.id !in Ids(items)
              else Holds(errors, x.id, ScanFailed) && x.id !in Ids(items)
            case _ => Holds(errors, x.id, RejectedLocally) && x.id !in Ids(items)
  {
    var x := inputs[k];
    NumberedRises(inputs);
    NumberedAreOfEach(inputs);
    ChosenRises(inputs, Succeeds(w));
    ChosenRises(inputs, Fails(w));
    SplitInTwo(w, inputs, items, errors);
    RowOfOneInput(w, inputs, items, errors, x);
    ContentsOfRow(w, x);
    hide Complete, Chosen, Rising, FailedIn, Numbered, OneOfEach, Succeeds, Fails, ScansThrough, Holds, StateOf, CauseOf, Ids,
         InputIds;
  }

  lemma SplitInTwo(w: World, inputs: seq<ViewerInput>, items: seq<Row<nat>>, errors: seq<Row<Cause>>)
    requires Complete(w, inputs, items, errors)
    ensures |items| + |errors| == |inputs|
  {
    ChosenPart(inputs, Succeeds(w), Fails(w));
    assert |Ids(items)| == |items| && |Ids(errors)| == |errors|;
    hide Chosen, Succeeds, Fails;
  }

  /** The one row of an input, with what its result holds or why it was refused. */
  lemma RowOfOneInput(w: World, inputs: seq<ViewerInput>, items: seq<Row<nat>>, errors: seq<Row<Cause>>, x: ViewerInput)
    requires OneOfEach(inputs) && Complete(w, inputs, items, errors) && x in inputs
    ensures Succeeds(w)(x) ==> Holds(items, x.id, StateOf(w, x)) && x.id !in Ids(errors)
    ensures !Succeeds(w)(x) ==> Holds(errors, x.id, CauseOf(w, x)) && x.id !in Ids(items)
  {
    WhoSucceeds(w, x);
    hide Chosen, Succeeds, Fails, StateOf, CauseOf, Ids, InputIds;
    RowOfInput(inputs, Succeeds(w), items, x);
    RowOfInput(inputs, Fails(w), errors, x);
    if Succeeds(w)(x) {
      var row :| row in items && row.id == x.id;
      assert row == Row(x.id, StateOf(w, x));
    } else {
      var row :| row in errors && row.id == x.id;
      assert row == Row(x.id, CauseOf(w, x));
    }
  }

  lemma ContentsOfRow(w: World, x: ViewerInput)
    ensures match w.detect(x)
            case Public =>
              && (Succeeds(w)(x) <==> w.query(x).Some?) && CauseOf(w, x) == QueryFailed
              && (w.query(x).Some? ==> StateOf(w, x) == w.query(x).value)
            case ViewingKey =>
              && (Succeeds(w)(x) <==> ScansThrough(w, x)) && StateOf(w, x) == w.snapshot(x)
              && CauseOf(w, x) == if w.scan.connects && exists p :: 0 <= p < |w.scan.pages| && x.id in w.scan.pages[p]
                                  then KeyFailed else ScanFailed
            case _ => !Succeeds(w)(x) && CauseOf(w, x) == RejectedLocally
  {
    FailedOnAPage(w.scan.pages, x.id);
    WhoSucceeds(w, x);
  }

  /** Every input is chosen by one of two opposite conditions. */
  lemma {:induction false} ChosenPart(inputs: seq<ViewerInput>, p: ViewerInput -> bool, q: ViewerInput -> bool)
    requires forall x :: q(x) <==> !p(x)
    ensures |Chosen(inputs, p)| + |Chosen(inputs, q)| == |inputs|
  {
    if inputs != [] {
      ChosenPart(inputs[..|inputs| - 1], p, q);
    }
  }

  /** The row of an input stands in the list that chooses it, and in no other. */
  lemma RowOfInput<T>(inputs: seq<ViewerInput>, p: ViewerInput -> bool, rows: seq<Row<T>>, x: ViewerInput)
    requires OneOfEach(inputs) && x in inputs && Ids(rows) == InputIds(Chosen(inputs, p))
    ensures |rows| == |Chosen(inputs, p)|
    ensures x.id in Ids(rows) <==> p(x)
    ensures p(x) ==> exists row :: row in rows && row.id == x.id
  {
    var chosen := Chosen(inputs, p);
    assert |Ids(rows)| == |InputIds(chosen)|;
    if x.id in Ids(rows) {
      var i :| 0 <= i < |rows| && Ids(rows)[i] == x.id;
      assert chosen[i].id == x.id && chosen[i] in chosen;
    }
    if p(x) {
      var i :| 0 <= i < |chosen| && chosen[i] == x;
      assert Ids(rows)[i] == x.id && rows[i] in rows;
    }
  }

  /** Sorted, the rows of an accounted batch are complete and in entry order. */
  lemma SortedIsComplete(w: World, inputs: seq<ViewerInput>, items: seq<Row<nat>>, errors: seq<Row<Cause>>)
    requires Numbered(inputs)
    requires Accounted(w, items, errors, Picked(inputs, Succeeds(w)), Picked(inputs, Fails(w)), inputs)
    ensures Complete(w, inputs, Sort(items), Sort(errors))
  {
    hide Chosen, NumberOf, Sort;
    NumberedRises(inputs);
    ChosenRises(inputs, Succeeds(w));
    ChosenRises(inputs, Fails(w));
    SortKeepsRows(items);
    SortKeepsRows(errors);
    IdsInOrder(Sort(items));
    IdsInOrder(Sort(errors));
    OrderIsEntryOrder(Ids(Sort(items)), InputIds(Chosen(inputs, Succeeds(w))));
    OrderIsEntryOrder(Ids(Sort(errors)), InputIds(Chosen(inputs, Fails(w))));
  }

  lemma IdsInOrder<T>(rows: seq<Row<T>>)
    requires InOrder(rows)
    ensures InOrderIds(Ids(rows))
  {
    hide NumberOf;
  }

  /** `publishBatch`: the rows in input order, or the refusal of a batch without a result. */
  method PublishBatch(w: World, inputs: seq<ViewerInput>, items: seq<Row<nat>>, errors: seq<Row<Cause>>) returns (r: Published)
    requires Numbered(inputs)
    requires Accounted(w, items, errors, Picked(inputs, Succeeds(w)), Picked(inputs, Fails(w)), inputs)
    ensures match r
            case Published(shown, refused) => shown != [] && Complete(w, inputs, shown, refused)
            case Unpublished => Chosen(inputs, Succeeds(w)) == []
  {
    hide Accounted, Chosen, Picked, Numbered, Complete, Sort;
    SortedIsComplete(w, inputs, items, errors);
    var shown, refused := Sort(items), Sort(errors);
    if shown == [] {
      NothingSucceeded(w, inputs, shown, refused);
      return Unpublished;
    }
    return Published(shown, refused);
  }

  /** The shared Orchard scan and what it makes of each key; `scanned` is false when the scan throws. */
  method SettleKeys(w: World, inputs: seq<ViewerInput>, prepared: seq<ViewerInput>, before: seq<Row<nat>>,
                    rows: seq<Row<Cause>>, ghost good: multiset<string>, ghost bad: multiset<string>)
    returns (scanned: bool, items: seq<Row<nat>>, errors: seq<Row<Cause>>)
    requires OneOfEach(inputs) && Rising(InputIds(prepared)) && Accounted(w, before, rows, good, bad, inputs)
    requires forall x | x in prepared :: x in inputs && w.detect(x) == ViewingKey && x.id !in bad
    ensures Accounted(w, items, errors, good + Picked(prepared, Succeeds(w)), bad + Picked(prepared, Fails(w)), inputs)
    ensures prepared != [] ==> (scanned <==> exists x :: x in prepared && !Fails(w)(x))
  {
    hide Accounted, OneOfEach, Chosen, Picked, Rising, FailedIn, Succeeds, Refused, IdSet;
    if prepared == [] {
      NothingPrepared(w, bad, good);
      return true, before, rows;
    }
    var ok, failed, refused := ScanOrchardTogether(prepared, w.scan);
    WholeScan(w, prepared, failed, ok);
    hide Fails;
    AccountRefused(w, before, rows, good, bad, inputs, prepared, failed, refused);
    ChoicesOfScan(w, prepared, failed, ok);
    items, errors := AddRest(w, inputs, prepared, failed, ok, before, rows + refused, good, bad);
    SameSum(bad, Picked(prepared, InIds(failed)), Picked(prepared, NotIn(failed)), good);
    scanned := ok;
  }

  /**
   * `runAutoBatch`: what is published. A batch is published unless its text has no value, an input
   * is private material, it was cancelled, or no input succeeds.
   */
  method RunAutoBatch(text: string, w: World) returns (r: Published)
    ensures r.Published? ==>
              var inputs := Entries(LinesOf(text));
              && r.items != [] && Complete(w, inputs, r.items, r.errors)
              && !w.cancelled && forall x | x in inputs :: w.detect(x) != PrivateMaterial
    ensures r.Unpublished? ==>
              var inputs := Entries(LinesOf(text));
              || inputs == [] || (exists x :: x in inputs && w.detect(x) == PrivateMaterial)
              || w.cancelled || Chosen(inputs, Succeeds(w)) == []
  {
    hide Accounted, Chosen, Picked, Rising, OneOfEach, Numbered, Complete, Sort, Entries, Succeeds, Fails, FailedIn, Refused;
    var parsed := ParseViewerBatchInputs(text);
    if parsed.None? {
      return Unpublished;
    }
    var inputs := parsed.value;
    EntriesAreNumbered(LinesOf(text));
    NumberedAreOfEach(inputs);
    var ok, errors, public, prepared := DetectAll(w, inputs);
    if !ok {
      return Unpublished;
    }
    PartsOfBatch(w, inputs);
    ghost var bad := Picked(inputs, Detected(w, Unusable)) + Picked(public, Unanswered(w));
    var items: seq<Row<nat>>;
    items, errors := AddSettled(w, inputs, public, errors, Picked(inputs, Detected(w, Unusable)));
    ChoicesOfBatch(w, inputs);
    var scanned: bool;
    scanned, items, errors := SettleKeys(w, inputs, prepared, items, errors, Picked(public, Answered(w)), bad);
    if !scanned && w.cancelled {
      return Unpublished;
    }
    if w.cancelled {
      return Unpublished;
    }
    r := PublishBatch(w, inputs, items, errors);
  }

  lemma SameSum(a: multiset<string>, b: multiset<string>, c: multiset<string>, d: multiset<string>)
    ensures a + b + c == a + (b + c) && d + multiset{} == d
  {
  }

  lemma NothingPrepared(w: World, bad: multiset<string>, good: multiset<string>)
    ensures Picked([], Succeeds(w)) == multiset{} && Picked([], Fails(w)) == multiset{}
    ensures bad + multiset{} == bad && good + multiset{} == good
  {
  }

  lemma NothingSucceeded(w: World, inputs: seq<ViewerInput>, items: seq<Row<nat>>, errors: seq<Row<Cause>>)
    requires Complete(w, inputs, items, errors) && items == []
    ensures Chosen(inputs, Succeeds(w)) == []
  {
    assert |Ids(items)| == 0;
    assert |InputIds(Chosen(inputs, Succeeds(w)))| == |Chosen(inputs, Succeeds(w))|;
  }

  lemma EntriesAreNumbered(lines: seq<string>)
    ensures Numbered(Entries(lines))
  {
    forall i | 0 <= i < |Entries(lines)| ensures Entries(lines)[i].id == IdOf(i + 1) {
      EveryInputIsALine(lines, i);
    }
  }

  /** The public and the prepared inputs of a batch, and their place among the refusals. */
  lemma PartsOfBatch(w: World, inputs: seq<ViewerInput>)
    requires Numbered(inputs)
    ensures var public, prepared := Chosen(inputs, Detected(w, Public)), Chosen(inputs, Detected(w, ViewingKey));
            && (forall x | x in public :: x in inputs && w.detect(x) == Public)
            && (forall x | x in prepared :: x in inputs && w.detect(x) == ViewingKey
                  && x.id !in Picked(inputs, Detected(w, Unusable)) + Picked(public, Unanswered(w)))
            && Rising(InputIds(prepared))
  {
    hide Rising;
    var public, prepared := Chosen(inputs, Detected(w, Public)), Chosen(inputs, Detected(w, ViewingKey));
    NumberedRises(inputs);
    NumberedAreOfEach(inputs);
    ChosenRises(inputs, Detected(w, ViewingKey));
    forall x | x in prepared
      ensures x.id !in Picked(inputs, Detected(w, Unusable)) && x.id !in Picked(public, Unanswered(w))
    {
      IdIsOfChosen(inputs, Detected(w, Unusable), x.id);
      IdIsOfChosen(public, Unanswered(w), x.id);
    }
  }

  datatype Mode = Core | Platform | Identity | Shielded

  /** What the local check of a mode can say. */
  predicate Checks(mode: Mode, w: World, inputs: seq<ViewerInput>)
  {
    forall x | x in inputs ::
      if mode == Shielded then w.detect(x) == ViewingKey || w.detect(x) == Unusable else w.detect(x) != ViewingKey
  }

  /** What keeps a batch of one mode from being published before any answer comes. */
  predicate Stopped(mode: Mode, w: World, inputs: seq<ViewerInput>, connects: bool)
  {
    || inputs == []
    || (mode == Core && exists x :: x in inputs && w.detect(x) != Public)
    || (mode == Platform && (!connects || exists x :: x in inputs && w.detect(x) != Public))
    || (mode == Identity && exists x :: x in inputs && (w.detect(x) == PrivateMaterial || (w.detect(x) == Public && !connects)))
    || (mode == Shielded && exists x :: x in inputs && w.detect(x) == ViewingKey
                                         && forall y | y in inputs && w.detect(y) == ViewingKey :: Fails(w)(y))
  }

  /**
   * `runBatch`: a batch of one mode; `connects` tells whether its source does. In a shielded batch a
   * scan that fails as a whole stops the batch.
   */
  method RunBatch(text: string, mode: Mode, connects: bool, w: World) returns (r: Published)
    requires Checks(mode, w, Entries(LinesOf(text)))
    ensures r.Published? ==>
              var inputs := Entries(LinesOf(text));
              r.items != [] && Complete(w, inputs, r.items, r.errors) && !Stopped(mode, w, inputs, connects) && !w.cancelled
    ensures r.Unpublished? ==>
              var inputs := Entries(LinesOf(text));
              Stopped(mode, w, inputs, connects) || w.cancelled || Chosen(inputs, Succeeds(w)) == []
  {
    hide Accounted, Chosen, Picked, Rising, OneOfEach, Numbered, Complete, Sort, Entries, Succeeds, FailedIn, Refused, LinesOf,
         Answered, Unanswered, CauseOf, StateOf, IdSet;
    var parsed := ParseViewerBatchInputs(text);
    if parsed.None? {
      return Unpublished;
    }
    var inputs := parsed.value;
    EntriesAreNumbered(LinesOf(text));
    NumberedAreOfEach(inputs);
    if (mode == Core || mode == Platform) && exists x :: x in inputs && w.detect(x) != Public {
      return Unpublished;
    }
    var ok, errors, public, prepared := DetectAll(w, inputs);
    if !ok {
      return Unpublished;
    }
    PartsOfBatch(w, inputs);
    if !connects && (mode == Platform || (mode == Identity && public != [])) {
      SomePublic(w, inputs);
      return Unpublished;
    }
    ghost var bad := Picked(inputs, Detected(w, Unusable)) + Picked(public, Unanswered(w));
    var items: seq<Row<nat>>;
    items, errors := AddSettled(w, inputs, public, errors, Picked(inputs, Detected(w, Unusable)));
    ChoicesOfBatch(w, inputs);
    SomePublic(w, inputs);
    var scanned: bool;
    scanned, items, errors := SettleKeys(w, inputs, prepared, items, errors, Picked(public, Answered(w)), bad);
    if prepared != [] && !scanned {
      return Unpublished;
    }
    if w.cancelled {
      return Unpublished;
    }
    r := PublishBatch(w, inputs, items, errors);
  }

  lemma SomePublic(w: World, inputs: seq<ViewerInput>)
    ensures Chosen(inputs, Detected(w, Public)) != [] <==> exists x :: x in inputs && w.detect(x) == Public
    ensures Chosen(inputs, Detected(w, ViewingKey)) != [] <==> exists x :: x in inputs && w.detect(x) == ViewingKey
  {
    var public, keys := Chosen(inputs, Detected(w, Public)), Chosen(inputs, Detected(w, ViewingKey));
    assert public != [] ==> public[0] in public;
    assert keys != [] ==> keys[0] in keys;
  }

  /** A scan throws exactly when no key succeeds. */
  lemma WholeScan(w: World, prepared: seq<ViewerInput>, failed: set<string>, ok: bool)
    requires prepared != [] && forall x | x in prepared :: w.detect(x) == ViewingKey
    requires failed == if w.scan.connects then IdSet(prepared) * FailedIn(w.scan.pages) else {}
    requires ok <==> w.scan.connects && w.scan.ends && failed != IdSet(prepared)
    ensures ok <==> exists x :: x in prepared && !Fails(w)(x)
  {
    hide FailedIn;
    if ok {
      var id :| id in IdSet(prepared) && id !in failed;
      var x :| x in prepared && x.id == id;
      KeySucceeds(w, x);
    } else {
      forall x | x in prepared ensures Fails(w)(x) {
        assert x.id in IdSet(prepared);
        KeySucceeds(w, x);
      }
    }
  }
}

/** BIP38 decryption: one run at a time, one queued request, and results only while they are current. */
module Bip38 {
  import opened Text

  datatype Fields = Fields(text: string, password: string, chain: string, network: string)

  /** A request: the literal fields it was made from, and how many keys they hold. */
  datatype Batch = Batch(id: nat, fields: Fields, count: nat)

  /** A loop over the keys of a batch, waiting for the key at `index`. */
  datatype Run = Run(batch: Batch, revision: nat, index: nat)

  datatype Queued = Queued(batch: Batch, revision: nat)

  /** One displayed row: the outcome of one key. */
  datatype Entry = Entry(batch: Batch, revision: nat, index: nat, recovered: bool)

  /**
   * The fields of the page and of its feature; `next` numbers the batches, `released` holds those
   * that were wiped, and `runs` the loops that have not ended.
   */
  datatype Feature = Feature(
    fields: Fields,
    revision: nat,
    batch: Option<Batch>,
    running: bool,
    queued: Option<Queued>,
    disposed: bool,
    next: nat,
    released: set<nat>,
    runs: seq<Run>,
    displayed: seq<Entry>
  )

  function Open(fields: Fields): Feature { Feature(fields, 0, None, false, None, false, 0, {}, [], []) }

  // ---------- One event ----------

  /** The batches that `#retire` wipes. */
  function Owned(f: Feature): set<nat>
  {
    (if f.queued.Some? then {f.queued.value.batch.id} else {}) + (if f.batch.Some? then {f.batch.value.id} else {})
  }

  function Retire(f: Feature): Feature
  {
    f.(revision := f.revision + 1, released := f.released + Owned(f), queued := None, batch := None, displayed := [])
  }

  function Clear(f: Feature): Feature
  {
    var g := Retire(f);
    g.(fields := g.fields.(text := "", password := ""))
  }

  predicate Matches(f: Feature, batch: Batch) { batch.id !in f.released && batch.fields == f.fields }

  /** `#current`: fields that changed without an event retire the batch. */
  function Current(f: Feature, batch: Batch, revision: nat): (r: (Feature, bool))
    ensures r.0.runs == f.runs && Waiting(r.0) <= Waiting(f)
  {
    if f.disposed || f.batch != Some(batch) || f.revision != revision then (f, false)
    else if Matches(f, batch) then (f, true)
    else (Retire(f), false)
  }

  function Waiting(f: Feature): nat { if f.queued.Some? then 1 else 0 }

  /** The head of the loop of run `k`, up to its next wait or its end. */
  function Proceed(f: Feature, k: nat): (r: Feature)
    requires k < |f.runs|
    ensures r.displayed == f.displayed || r.displayed == []
    decreases Waiting(f), 2
  {
    var run := f.runs[k];
    var (g, current) := Current(f, run.batch, run.revision);
    if !current then EndRun(g, k)
    else if run.index < run.batch.count then g
    else EndRun(g.(fields := g.fields.(password := "")), k)
  }

  /** The end of run `k`: its batch is wiped and a queued request may start. */
  function EndRun(f: Feature, k: nat): (r: Feature)
    requires k < |f.runs|
    ensures r.displayed == f.displayed || r.displayed == []
    decreases Waiting(f), 1
  {
    var batch := f.runs[k].batch;
    var g := f.(released := f.released + {batch.id}, batch := if f.batch == Some(batch) then None else f.batch,
                running := false, runs := f.runs[..k] + f.runs[k + 1..]);
    if g.disposed then g else LaunchQueued(g)
  }

  function LaunchQueued(f: Feature): (r: Feature)
    ensures r.displayed == f.displayed || r.displayed == []
    decreases Waiting(f), 0
  {
    match f.queued
    case None => f
    case Some(q) =>
      var g := f.(queued := None);
      if q.revision == g.revision && Matches(g, q.batch) then Launch(g, q.batch, q.revision)
      else g.(released := g.released + {q.batch.id})
  }

  function Launch(f: Feature, batch: Batch, revision: nat): (r: Feature)
    ensures r.displayed == f.displayed || r.displayed == []
    decreases Waiting(f), 3
  {
    Proceed(f.(batch := Some(batch), running := true, runs := f.runs + [Run(batch, revision, 0)]), |f.runs|)
  }

  /** A click on decrypt; `count` is how many keys the fields hold, 0 when they are refused. */
  function Click(f: Feature, count: nat): Feature
  {
    if f.disposed then f
    else
      var g := Retire(f);
      if count == 0 then g
      else
        var batch := Batch(g.next, g.fields, count);
        var h := g.(next := g.next + 1);
        if h.running then h.(queued := Some(Queued(batch, h.revision))) else Launch(h, batch, h.revision)
  }

  /** The key that run `k` waits for is decrypted, or fails. */
  function KeyDone(f: Feature, k: nat, recovered: bool): Feature
    requires k < |f.runs|
  {
    var run := f.runs[k];
    var (g, current) := Current(f, run.batch, run.revision);
    if !current then EndRun(g, k)
    else Proceed(g.(displayed := g.displayed + [Entry(run.batch, run.revision, run.index, recovered)],
                    runs := g.runs[k := run.(index := run.index + 1)]), k)
  }

  function Dispose(f: Feature): Feature { if f.disposed then f else Clear(f.(disposed := true)) }

  datatype Event =
    | Edit(fields: Fields)        // a field changes, with its event
    | SetSilently(fields: Fields) // a field changes without one
    | Decrypt(count: nat)
    | Wipe
    | Done(run: nat, recovered: bool)
    | End

  function Next(f: Feature, e: Event): Feature
  {
    match e
    case Edit(fields) => var g := f.(fields := fields); if f.disposed then g else Retire(g)
    case SetSilently(fields) => f.(fields := fields)
    case Decrypt(count) => Click(f, count)
    case Wipe => Clear(f)
    case Done(k, recovered) => if k < |f.runs| then KeyDone(f, k, recovered) else f
    case End => Dispose(f)
  }

  function After(fields: Fields, events: seq<Event>): Feature
  {
    if events == [] then Open(fields) else Next(After(fields, events[..|events| - 1]), events[|events| - 1])
  }

  // ---------- What every event keeps ----------

  /** At most one run is alive and at most one request waits for it. */
  predicate SingleFlight(f: Feature)
  {
    && |f.runs| <= 1 && (f.running <==> |f.runs| == 1)
    && (f.batch.Some? ==> f.running && f.runs[0].batch == f.batch.value && f.runs[0].revision == f.revision)
    && (f.queued.Some? ==> f.running && f.batch.None? && f.queued.value.revision == f.revision
                            && f.queued.value.batch.count > 0 && f.displayed == [])
  }

  /** Exactly the batches that are neither current nor queued have been wiped. */
  ghost predicate OwnedOrWiped(f: Feature)
  {
    && (forall id: nat :: id in f.released + Owned(f) <==> id < f.next)
    && Owned(f) !! f.released
    && (forall k | 0 <= k < |f.runs| :: f.runs[k].batch.id in f.released || f.batch == Some(f.runs[k].batch))
  }

  /**
   * The rows are those of one batch at the current revision, in key order: of the batch under way
   * up to the key it waits for, or of a finished one with nothing missing.
   */
  predicate RowsAreCurrent(f: Feature)
  {
    && (forall i | 0 <= i < |f.displayed| ::
          f.displayed[i].index == i && f.displayed[i].revision == f.revision && f.displayed[i].batch == f.displayed[0].batch)
    && (f.batch.Some? ==> f.runs != [] && |f.displayed| == f.runs[0].index < f.batch.value.count
                          && (f.displayed != [] ==> f.displayed[0].batch == f.batch.value))
    && (f.batch.None? && f.displayed != [] ==> |f.displayed| == f.displayed[0].batch.count)
  }

  predicate Quiet(f: Feature) { f.disposed ==> f.displayed == [] && f.batch.None? && f.queued.None? }

  ghost predicate Good(f: Feature)
  {
    SingleFlight(f) && OwnedOrWiped(f) && RowsAreCurrent(f) && Quiet(f)
  }

  lemma RetireKeepsGood(f: Feature)
    requires Good(f)
    ensures Good(Retire(f)) && Good(Clear(f))
  {
  }

  /** Between a run's end and the launch of a queued request: nothing runs, nothing is current. */
  ghost predicate Idle(f: Feature)
  {
    && f.runs == [] && !f.running && f.batch.None? && !f.disposed
    && (f.queued.Some? ==> f.queued.value.revision == f.revision && f.queued.value.batch.count > 0 && f.displayed == [])
    && OwnedOrWiped(f) && RowsAreCurrent(f)
  }

  /** Launching the one batch that is new and still matches starts its run at the first key. */
  lemma LaunchKeepsGood(f: Feature, batch: Batch)
    requires f.runs == [] && !f.running && f.batch.None? && f.queued.None? && !f.disposed && f.displayed == []
    requires (forall id: nat :: id in f.released + {batch.id} <==> id < f.next) && Matches(f, batch) && batch.count > 0
    ensures Good(Launch(f, batch, f.revision))
    ensures Launch(f, batch, f.revision).batch == Some(batch)
  {
    var g := f.(batch := Some(batch), running := true, runs := f.runs + [Run(batch, f.revision, 0)]);
    assert Launch(f, batch, f.revision) == Proceed(g, 0) == g;
    assert g.runs == [Run(batch, f.revision, 0)] && Owned(g) == {} + {batch.id} == {batch.id};
  }

  lemma LaunchQueuedKeepsGood(f: Feature)
    requires Idle(f)
    ensures Good(LaunchQueued(f))
  {
    if f.queued.Some? {
      var q, g := f.queued.value, f.(queued := None);
      assert Owned(f) == {q.batch.id} + {} == {q.batch.id} && Owned(g) == {};
      if Matches(g, q.batch) {
        LaunchKeepsGood(g, q.batch);
      }
    }
  }

  /** What a run leaves behind when it ends: its batch wiped, whether it was still current or not. */
  lemma EndRunKeepsGood(f: Feature)
    requires SingleFlight(f) && OwnedOrWiped(f) && Quiet(f) && f.running
    requires RowsAreCurrent(f.(batch := None))
    ensures Good(EndRun(f, 0))
  {
    var run := f.runs[0];
    var g := f.(released := f.released + {run.batch.id}, batch := if f.batch == Some(run.batch) then None else f.batch,
                running := false, runs := f.runs[..0] + f.runs[1..]);
    assert g.runs == [] && g.batch.None?;
    assert forall id: nat :: id in g.released + Owned(g) <==> id in f.released + Owned(f);
    if !g.disposed {
      LaunchQueuedKeepsGood(g);
    }
  }

  /** A run that is no longer current ends, and shows nothing. */
  lemma LateRunKeepsGood(f: Feature)
    requires Good(f) && f.running && !Current(f, f.runs[0].batch, f.runs[0].revision).1
    ensures Good(EndRun(Current(f, f.runs[0].batch, f.runs[0].revision).0, 0))
  {
    RetireKeepsGood(f);
    EndRunKeepsGood(Current(f, f.runs[0].batch, f.runs[0].revision).0);
  }

  lemma KeyDoneKeepsGood(f: Feature, recovered: bool)
    requires Good(f) && f.running
    ensures Good(KeyDone(f, 0, recovered))
  {
    var run := f.runs[0];
    if Current(f, run.batch, run.revision).1 {
      var g := f.(displayed := f.displayed + [Entry(run.batch, run.revision, run.index, recovered)],
                  runs := f.runs[0 := run.(index := run.index + 1)]);
      if run.index + 1 == run.batch.count {
        var h := g.(fields := g.fields.(password := ""));
        assert h.runs == g.runs && Owned(h) == Owned(f);
        EndRunKeepsGood(h);
      }
    } else {
      LateRunKeepsGood(f);
    }
  }

  lemma ClickKeepsGood(f: Feature, count: nat)
    requires Good(f)
    ensures Good(Click(f, count))
  {
    RetireKeepsGood(f);
    if !f.disposed && count > 0 {
      var g := Retire(f);
      var batch := Batch(g.next, g.fields, count);
      var h := g.(next := g.next + 1);
      assert Owned(g) == {} && batch.id !in g.released + Owned(g);
      assert forall id: nat :: id in h.released + {batch.id} <==> id < h.next;
      if !h.running {
        LaunchKeepsGood(h, batch);
      } else {
        assert Owned(h.(queued := Some(Queued(batch, h.revision)))) == {batch.id} + {};
      }
    }
  }

  lemma FieldsMayChange(f: Feature, fields: Fields)
    requires Good(f)
    ensures Good(f.(fields := fields))
  {
    var g := f.(fields := fields);
    assert Owned(g) == Owned(f) && g.released + Owned(g) == f.released + Owned(f);
  }

  lemma DisposeKeepsGood(f: Feature)
    requires Good(f) && !f.disposed
    ensures Good(Dispose(f))
  {
    var g, h := Clear(f), Dispose(f);
    RetireKeepsGood(f);
    assert h == g.(disposed := true);
    assert Owned(h) == Owned(g) && h.released + Owned(h) == g.released + Owned(g);
  }

  lemma OnlyRun(f: Feature)
    requires Good(f)
    ensures |f.runs| <= 1 && (f.runs != [] ==> f.running)
  {
  }

  lemma NextKeepsGood(f: Feature, e: Event)
    requires Good(f)
    ensures Good(Next(f, e))
  {
    OnlyRun(f);
    hide Good;
    match e
    case Edit(fields) =>
      FieldsMayChange(f, fields);
      RetireKeepsGood(f.(fields := fields));
    case SetSilently(fields) =>
      FieldsMayChange(f, fields);
    case Decrypt(count) => ClickKeepsGood(f, count);
    case Wipe => RetireKeepsGood(f);
    case Done(k, recovered) =>
      if k < |f.runs| {
        KeyDoneKeepsGood(f, recovered);
      }
    case End =>
      if !f.disposed {
        DisposeKeepsGood(f);
      }
  }

  /**
   * Over every sequence of edits, clicks, clears, completions and disposal: one run at most, one
   * request queued at most, every batch that is neither current nor queued wiped, only rows of the
   * current revision displayed, and nothing displayed after disposal.
   */
  lemma {:induction false} EverySequenceIsGood(fields: Fields, events: seq<Event>)
    ensures Good(After(fields, events))
  {
    if events == [] {
      assert Owned(Open(fields)) == {} + {} == {};
    } else {
      EverySequenceIsGood(fields, events[..|events| - 1]);
      NextKeepsGood(After(fields, events[..|events| - 1]), events[|events| - 1]);
    }
  }

  /**
   * A row is added only by the completion of a key, and only when the feature is not disposed and
   * the run's batch and revision are the current ones and match the fields.
   */
  lemma RowsComeFromCurrentRuns(f: Feature, e: Event)
    requires Good(f) && Next(f, e).displayed != [] && Next(f, e).displayed != f.displayed
    ensures e.Done? && e.run == 0 && f.running && !f.disposed
    ensures var run := f.runs[0];
            && f.batch == Some(run.batch) && f.revision == run.revision
            && Matches(f, run.batch)
            && Next(f, e).displayed == f.displayed + [Entry(run.batch, run.revision, run.index, e.recovered)]
  {
  }

  /** Why `decrypt` of a batch refuses an index: the batch was wiped, or the index is out of range. */
  predicate Decrypts(f: Feature, batch: Batch, index: nat)
  {
    batch.id !in f.released && index < batch.count
  }

  /** The key a current run waits for was always asked of a live batch, within its range. */
  lemma CurrentRunDecrypts(fields: Fields, events: seq<Event>)
    requires After(fields, events).batch.Some?
    ensures var f := After(fields, events);
            f.runs != [] && f.runs[0].batch == f.batch.value && Decrypts(f, f.runs[0].batch, f.runs[0].index)
  {
    EverySequenceIsGood(fields, events);
    var f := After(fields, events);
    assert f.batch.value.id in Owned(f);
  }

  /** Once disposed, nothing is ever displayed again. */
  lemma {:induction false} NothingAfterDisposal(fields: Fields, before: seq<Event>, more: seq<Event>)
    requires After(fields, before).disposed
    ensures After(fields, before + more).disposed && After(fields, before + more).displayed == []
  {
    hide Next, SingleFlight, OwnedOrWiped, RowsAreCurrent;
    EverySequenceIsGood(fields, before + more);
    if more == [] {
      assert before + more == before;
    } else {
      var events := before + more;
      assert events[..|events| - 1] == before + more[..|more| - 1];
      NothingAfterDisposal(fields, before, more[..|more| - 1]);
      StaysDisposed(After(fields, events[..|events| - 1]), events[|events| - 1]);
    }
  }

  lemma StaysDisposed(f: Feature, e: Event)
    requires f.disposed
    ensures Next(f, e).disposed
  {
  }

  // ---------- What a click leads to ----------

  lemma AfterOneMore(fields: Fields, events: seq<Event>, e: Event)
    ensures After(fields, events + [e]) == Next(After(fields, events), e)
  {
    assert (events + [e])[..|events|] == events;
  }

  lemma LaunchIs(f: Feature, batch: Batch)
    requires f.runs == [] && !f.disposed && Matches(f, batch) && batch.count > 0
    ensures Launch(f, batch, f.revision) == f.(batch := Some(batch), running := true, runs := [Run(batch, f.revision, 0)])
  {
    var g := f.(batch := Some(batch), running := true, runs := f.runs + [Run(batch, f.revision, 0)]);
    assert Launch(f, batch, f.revision) == Proceed(g, 0) == g;
    assert g.runs == [Run(batch, f.revision, 0)];
  }

  /** The batch of a click is new, and nothing else is current or queued then. */
  lemma ClickIs(f: Feature, count: nat)
    requires Good(f) && count > 0 && !f.disposed
    ensures f.next !in Retire(f).released
    ensures var g, batch := Retire(f).(next := f.next + 1), Batch(f.next, f.fields, count);
            Click(f, count) ==
            if f.runs == [] then g.(batch := Some(batch), running := true, runs := [Run(batch, g.revision, 0)])
            else g.(queued := Some(Queued(batch, g.revision)))
  {
    var g, batch := Retire(f).(next := f.next + 1), Batch(f.next, f.fields, count);
    assert f.next !in f.released + Owned(f);
    if f.runs == [] {
      LaunchIs(g, batch);
    }
  }

  /**
   * A click on admitted fields makes a new batch of them. Without a run alive it becomes the current
   * one, with one run at its first key; with a run alive it is queued behind that run.
   */
  lemma ClickDecrypts(fields: Fields, events: seq<Event>, count: nat)
    requires count > 0 && !After(fields, events).disposed
    ensures var f, g := After(fields, events), After(fields, events + [Decrypt(count)]);
            var batch := Batch(f.next, f.fields, count);
            && g.displayed == [] && g.fields == f.fields && g.revision == f.revision + 1 && batch.id !in g.released
            && if f.runs == [] then
                 g.batch == Some(batch) && g.runs == [Run(batch, g.revision, 0)] && g.queued == None
               else
                 g.batch == None && g.runs == f.runs && g.queued == Some(Queued(batch, g.revision))
  {
    var f := After(fields, events);
    AfterOneMore(fields, events, Decrypt(count));
    EverySequenceIsGood(fields, events);
    ClickIs(f, count);
    hide Good, Click, Owned;
  }

  /** A click on refused fields takes everything away and starts nothing. */
  lemma RefusedClickRetires(fields: Fields, events: seq<Event>)
    ensures var f, g := After(fields, events), After(fields, events + [Decrypt(0)]);
            g.displayed == [] && g.batch == None && g.queued == None && g.runs == f.runs
  {
    AfterOneMore(fields, events, Decrypt(0));
    EverySequenceIsGood(fields, events);
    hide OwnedOrWiped, RowsAreCurrent;
  }

  /** The keys of the one run are done, one after another, with these outcomes. */
  function Completions(outcomes: seq<bool>): (events: seq<Event>)
    ensures |events| == |outcomes| && forall i | 0 <= i < |outcomes| :: events[i] == Done(0, outcomes[i])
  {
    seq(|outcomes|, i requires 0 <= i < |outcomes| => Done(0, outcomes[i]))
  }

  /** The current batch has just been started, and the fields are still its own. */
  predicate HasStarted(f: Feature)
  {
    f.batch.Some? && f.runs == [Run(f.batch.value, f.revision, 0)] && f.batch.value.fields == f.fields
  }

  /** `g` is `f` after these outcomes of its batch: their rows, and the run at the next key, or ended. */
  predicate ShowsRows(f: Feature, outcomes: seq<bool>, g: Feature)
    requires f.batch.Some?
  {
    var batch := f.batch.value;
    && |g.displayed| == |outcomes|
    && (forall i | 0 <= i < |outcomes| :: g.displayed[i] == Entry(batch, f.revision, i, outcomes[i]))
    && g.revision == f.revision && g.queued == None
    && if |outcomes| < batch.count then
         g.batch == Some(batch) && g.runs == [Run(batch, f.revision, |outcomes|)] && g.fields == f.fields
       else
         g.batch == None && g.runs == [] && batch.id in g.released && g.fields == f.fields.(password := "")
  }

  /**
   * While nothing else happens, every completion shows its row, in order and with its outcome. The
   * last one ends the run: the batch is wiped, the password is cleared and the rows stay.
   */
  lemma {:induction false} RunShowsRows(fields: Fields, events: seq<Event>, outcomes: seq<bool>)
    requires var f := After(fields, events); HasStarted(f) && |outcomes| <= f.batch.value.count
    ensures ShowsRows(After(fields, events), outcomes, After(fields, events + Completions(outcomes)))
  {
    var f := After(fields, events);
    assert f.batch.Some?;
    hide Good, KeyDone, ShowsRows, HasStarted, After, Next, Completions;
    if outcomes == [] {
      EverySequenceIsGood(fields, events);
      NoRowsYet(f);
      assert Completions(outcomes) == [] && events + [] == events;
    } else {
      var last := |outcomes| - 1;
      var before := events + Completions(outcomes[..last]);
      RunShowsRows(fields, events, outcomes[..last]);
      CompletionsOneMore(events, outcomes);
      AfterOneMore(fields, before, Done(0, outcomes[last]));
      EverySequenceIsGood(fields, before);
      OneMoreRow(f, outcomes, After(fields, before));
    }
  }

  lemma CompletionsOneMore(events: seq<Event>, outcomes: seq<bool>)
    requires outcomes != []
    ensures var last := |outcomes| - 1;
            events + Completions(outcomes) == events + Completions(outcomes[..last]) + [Done(0, outcomes[last])]
  {
  }

  lemma NoRowsYet(f: Feature)
    requires Good(f) && HasStarted(f)
    ensures ShowsRows(f, [], f)
  {
    hide OwnedOrWiped;
  }

  lemma OneMoreRow(f: Feature, outcomes: seq<bool>, g: Feature)
    requires Good(g) && HasStarted(f) && outcomes != [] && |outcomes| <= f.batch.value.count
    requires ShowsRows(f, outcomes[..|outcomes| - 1], g)
    ensures ShowsRows(f, outcomes, Next(g, Done(0, outcomes[|outcomes| - 1])))
  {
    hide KeyDone, OwnedOrWiped;
    RowIsShown(g, outcomes[|outcomes| - 1]);
  }

  /** One completion of a current run. */
  lemma RowIsShown(f: Feature, recovered: bool)
    requires Good(f) && f.batch.Some? && f.runs[0].batch.fields == f.fields
    ensures var g, run := KeyDone(f, 0, recovered), f.runs[0];
            && g.displayed == f.displayed + [Entry(run.batch, run.revision, run.index, recovered)]
            && g.revision == f.revision && g.queued == None
            && if run.index + 1 < run.batch.count then
                 g.batch == f.batch && g.runs == [run.(index := run.index + 1)] && g.fields == f.fields
               else
                 g.batch == None && g.runs == [] && run.batch.id in g.released && g.fields == f.fields.(password := "")
  {
    var run := f.runs[0];
    assert run.batch.id in Owned(f);
    assert Current(f, run.batch, run.revision) == (f, true);
    var g := f.(displayed := f.displayed + [Entry(run.batch, run.revision, run.index, recovered)],
                runs := f.runs[0 := run.(index := run.index + 1)]);
    assert g.runs == [run.(index := run.index + 1)];
    if run.index + 1 == run.batch.count {
      EndOfCurrentRun(g.(fields := g.fields.(password := "")));
    }
  }

  lemma EndOfCurrentRun(f: Feature)
    requires |f.runs| == 1 && f.batch == Some(f.runs[0].batch) && f.queued == None
    ensures EndRun(f, 0) == f.(released := f.released + {f.runs[0].batch.id}, batch := None, running := false, runs := [])
  {
    assert f.runs[..0] + f.runs[1..] == [];
  }

  /** A run that is no longer current ends, and the queued request behind it is looked at. */
  lemma EndBeforeQueued(f: Feature)
    requires Good(f) && f.queued.Some?
    ensures var batch, last := f.queued.value.batch, f.runs[0].batch.id;
            && batch.id !in f.released + {last}
            && EndRun(f, 0) ==
               if batch.fields == f.fields then
                 f.(released := f.released + {last}, queued := None, batch := Some(batch), runs := [Run(batch, f.revision, 0)])
               else f.(released := f.released + {last} + {batch.id}, queued := None, running := false, runs := [])
  {
    var batch, last := f.queued.value.batch, f.runs[0].batch.id;
    assert batch.id in Owned(f);
    assert f.runs[..0] + f.runs[1..] == [];
    var g := f.(released := f.released + {last}, running := false, runs := []);
    assert EndRun(f, 0) == LaunchQueued(g);
    if batch.fields == f.fields {
      LaunchIs(g.(queued := None), batch);
    }
  }

  /**
   * When the run before it ends, a queued request becomes the current batch with a run at its first
   * key if the fields are still its own, and is wiped if they are not.
   */
  lemma QueuedRequestStarts(fields: Fields, events: seq<Event>, recovered: bool)
    requires After(fields, events).queued.Some?
    ensures var f, g := After(fields, events), After(fields, events + [Done(0, recovered)]);
            var batch := f.queued.value.batch;
            && g.queued == None && g.fields == f.fields && g.displayed == [] && g.revision == f.revision
            && if batch.fields == f.fields then
                 g.batch == Some(batch) && g.runs == [Run(batch, f.revision, 0)] && batch.id !in g.released
               else
                 g.batch == None && g.runs == [] && batch.id in g.released
  {
    var f := After(fields, events);
    AfterOneMore(fields, events, Done(0, recovered));
    EverySequenceIsGood(fields, events);
    EndBeforeQueued(f);
    hide OwnedOrWiped, RowsAreCurrent, EndRun;
  }

  // ---------- What takes everything away ----------

  /** `g` is `f` with every batch made so far wiped, nothing queued or current, and no row shown. */
  ghost predicate TakenAway(f: Feature, g: Feature)
  {
    && g.displayed == [] && g.batch == None && g.queued == None
    && g.runs == f.runs && g.next == f.next && g.revision == f.revision + 1
    && forall id: nat :: id in g.released <==> id < f.next
  }

  lemma RetireTakesAway(f: Feature)
    requires Good(f)
    ensures TakenAway(f, Retire(f)) && Retire(f).fields == f.fields && Retire(f).disposed == f.disposed
  {
  }

  /** A field that changes with its event takes everything away. */
  lemma EditTakesAway(fields: Fields, events: seq<Event>, typed: Fields)
    requires !After(fields, events).disposed
    ensures var f, g := After(fields, events), After(fields, events + [Edit(typed)]);
            TakenAway(f, g) && g.fields == typed && !g.disposed
  {
    var f := After(fields, events);
    AfterOneMore(fields, events, Edit(typed));
    EverySequenceIsGood(fields, events);
    FieldsMayChange(f, typed);
    RetireTakesAway(f.(fields := typed));
    hide Good, Retire, Owned;
  }

  /** Clearing the page and disposing of it also blank the key text and the password. */
  lemma WipeAndEndTakeAway(fields: Fields, events: seq<Event>, e: Event)
    requires e == Wipe || (e == End && !After(fields, events).disposed)
    ensures var f, g := After(fields, events), After(fields, events + [e]);
            && TakenAway(f, g) && (g.disposed <==> f.disposed || e == End)
            && g.fields == Fields("", "", f.fields.chain, f.fields.network)
  {
    var f := After(fields, events);
    AfterOneMore(fields, events, e);
    EverySequenceIsGood(fields, events);
    RetireTakesAway(f);
    hide Good;
  }

  /** A key that comes back to other fields than its batch was made from shows nothing and takes everything away. */
  lemma LateKeyTakesAway(fields: Fields, events: seq<Event>, recovered: bool)
    requires var f := After(fields, events); f.batch.Some? && f.batch.value.fields != f.fields
    ensures var f, g := After(fields, events), After(fields, events + [Done(0, recovered)]);
            TakenAway(f.(runs := []), g) && g.fields == f.fields
  {
    var f := After(fields, events);
    AfterOneMore(fields, events, Done(0, recovered));
    EverySequenceIsGood(fields, events);
    LateKeyEnds(f, recovered);
    RetireTakesAway(f);
    hide Good, KeyDone, Retire, Owned, After;
  }

  lemma LateKeyEnds(f: Feature, recovered: bool)
    requires Good(f) && f.batch.Some? && f.batch.value.fields != f.fields
    ensures f.runs != [] && f.runs[0].batch.id < f.next
    ensures var g := Retire(f);
            KeyDone(f, 0, recovered) == g.(released := g.released + {f.runs[0].batch.id}, running := false, runs := [])
  {
    var run, g := f.runs[0], Retire(f);
    assert run.batch.id in Owned(f);
    assert Current(f, run.batch, run.revision) == (g, false);
    assert g.runs[..0] + g.runs[1..] == [];
    var h := g.(released := g.released + {run.batch.id}, running := false, runs := []);
    assert EndRun(g, 0) == LaunchQueued(h) == h;
  }

  // ---------- The feature as it runs ----------

  class Bip38Feature {
    var fields: Fields
    var revision: nat
    var batch: Option<Batch>
    var running: bool
    var queued: Option<Queued>
    var disposed: bool
    var next: nat
    var released: set<nat>
    var runs: seq<Run>
    var displayed: seq<Entry>

    ghost function Value(): Feature
      reads this
    {
      Feature(fields, revision, batch, running, queued, disposed, next, released, runs, displayed)
    }

    constructor (fields: Fields)
      ensures Value() == Open(fields)
    {
      this.fields, revision, batch, running, queued, disposed := fields, 0, None, false, None, false;
      next, released, runs, displayed := 0, {}, [], [];
    }

    /** `#retire`: wipes what is queued and what is current, and takes the rows away. */
    method RetireAll()
      modifies this
      ensures Value() == Retire(old(Value()))
    {
      revision := revision + 1;
      if queued.Some? {
        released := released + {queued.value.batch.id};
      }
      queued := None;
      if batch.Some? {
        released := released + {batch.value.id};
      }
      batch := None;
      displayed := [];
      assert released == old(released) + Owned(old(Value()));
    }

    method ClearAll()
      modifies this
      ensures Value() == Clear(old(Value()))
    {
      RetireAll();
      fields := fields.(text := "", password := "");
    }

    /** `#current`. */
    method IsCurrent(b: Batch, r: nat) returns (current: bool)
      modifies this
      ensures (Value(), current) == Current(old(Value()), b, r)
    {
      if disposed || batch != Some(b) || revision != r {
        return false;
      }
      if b.id !in released && b.fields == fields {
        return true;
      }
      RetireAll();
      return false;
    }

    /** The loop head of `#run`. */
    method GoOn(k: nat)
      requires k < |runs|
      modifies this
      ensures Value() == Proceed(old(Value()), k)
      decreases if queued.Some? then 1 else 0, 2
    {
      var run := runs[k];
      var current := IsCurrent(run.batch, run.revision);
      if !current {
        Finish(k);
        return;
      }
      if run.index < run.batch.count {
        return;
      }
      fields := fields.(password := "");
      Finish(k);
    }

    /** The `finally` of `#run`. */
    method Finish(k: nat)
      requires k < |runs|
      modifies this
      ensures Value() == EndRun(old(Value()), k)
      decreases if queued.Some? then 1 else 0, 1
    {
      var b := runs[k].batch;
      released := released + {b.id};
      if batch == Some(b) {
        batch := None;
      }
      running := false;
      runs := runs[..k] + runs[k + 1..];
      if !disposed {
        StartQueued();
      }
    }

    /** `#launchQueued`. */
    method StartQueued()
      modifies this
      ensures Value() == LaunchQueued(old(Value()))
      decreases if queued.Some? then 1 else 0, 0
    {
      var waiting := queued;
      queued := None;
      if waiting.None? {
        return;
      }
      var q := waiting.value;
      if q.revision == revision && q.batch.id !in released && q.batch.fields == fields {
        Begin(q.batch, q.revision);
      } else {
        released := released + {q.batch.id};
      }
    }

    /** `#launch`. */
    method Begin(b: Batch, r: nat)
      modifies this
      ensures Value() == Launch(old(Value()), b, r)
      decreases if queued.Some? then 1 else 0, 3
    {
      batch := Some(b);
      running := true;
      runs := runs + [Run(b, r, 0)];
      GoOn(|runs| - 1);
    }

    /** `#start`; `count` is the number of keys admitted from the fields, 0 for a refusal. */
    method Start(count: nat)
      modifies this
      ensures Value() == Click(old(Value()), count)
    {
      if disposed {
        return;
      }
      RetireAll();
      if count == 0 {
        return;
      }
      var b := Batch(next, fields, count);
      next := next + 1;
      if running {
        queued := Some(Queued(b, revision));
        return;
      }
      Begin(b, revision);
    }

    /** What `#run` does when the key it waits for is decrypted or fails. */
    method OnKey(k: nat, recovered: bool)
      requires k < |runs|
      modifies this
      ensures Value() == KeyDone(old(Value()), k, recovered)
    {
      var run := runs[k];
      var current := IsCurrent(run.batch, run.revision);
      if !current {
        Finish(k);
        return;
      }
      displayed := displayed + [Entry(run.batch, run.revision, run.index, recovered)];
      runs := runs[k := run.(index := run.index + 1)];
      GoOn(k);
    }

    /** `dispose`. */
    method Close()
      modifies this
      ensures Value() == Dispose(old(Value()))
    {
      if disposed {
        return;
      }
      disposed := true;
      ClearAll();
    }
  }
}

/** The two worker pools: the scanner's, which stops at the first failure, and the viewer's, which never does. */
module WorkerPools {
  import opened Text

  datatype Outcome<+R> = Fulfilled(value: R) | Rejected(reason: string)

  /** What the workers of a pool share. */
  datatype Shared<+R> = Shared(
    items: nat,
    stopOnFailure: bool,
    nextIndex: nat,
    firstFailure: Option<string>,
    settled: map<nat, Outcome<R>>
  )

  /** The check before a task and the claim of an index; None ends the worker. */
  function Claim<R>(s: Shared<R>): (Shared<R>, Option<nat>)
  {
    if s.stopOnFailure && s.firstFailure.Some? then (s, None)
    else (s.(nextIndex := s.nextIndex + 1), if s.nextIndex >= s.items then None else Some(s.nextIndex))
  }

  /** A task has ended; false ends its worker. */
  function Settle<R>(s: Shared<R>, index: nat, outcome: Outcome<R>): (Shared<R>, bool)
  {
    var after := s.(settled := s.settled[index := outcome],
                    firstFailure := if outcome.Rejected? && s.firstFailure.None? then Some(outcome.reason) else s.firstFailure);
    (after, !(s.stopOnFailure && outcome.Rejected?))
  }

  class TaskPool<R> {
    const items: nat
    const stopOnFailure: bool
    var nextIndex: nat
    var firstFailure: Option<string>
    var settled: map<nat, Outcome<R>>

    ghost function Value(): Shared<R>
      reads this
    {
      Shared(items, stopOnFailure, nextIndex, firstFailure, settled)
    }

    constructor (items: nat, stopOnFailure: bool)
      ensures Value() == Shared(items, stopOnFailure, 0, None, map[])
    {
      this.items, this.stopOnFailure := items, stopOnFailure;
      nextIndex, firstFailure, settled := 0, None, map[];
    }

    /** The head of a worker's loop, up to the start of its task. */
    method Next() returns (r: Option<nat>)
      modifies this
      ensures (Value(), r) == Claim(old(Value()))
    {
      if stopOnFailure && firstFailure.Some? {
        return None;
      }
      var index := nextIndex;
      nextIndex := nextIndex + 1;
      if index >= items {
        return None;
      }
      return Some(index);
    }

    /** The tail of a worker's loop, after its task. */
    method Record(index: nat, outcome: Outcome<R>) returns (goOn: bool)
      modifies this
      ensures (Value(), goOn) == Settle(old(Value()), index, outcome)
    {
      settled := settled[index := outcome];
      if outcome.Rejected? {
        if firstFailure.None? {
          firstFailure := Some(outcome.reason);
        }
        if stopOnFailure {
          return false;
        }
      }
      return true;
    }
  }

  // ---------- All interleavings ----------

  datatype Worker = Looping | Busy(index: nat) | Ended

  /** A pool with its workers, and the settled tasks in the order they ended. */
  datatype World<+R> = World(shared: Shared<R>, workers: seq<Worker>, log: seq<(nat, Outcome<R>)>)

  datatype Event<+R> = Start(worker: nat) | End(worker: nat, outcome: Outcome<R>)

  function Begin<R>(items: nat, concurrency: nat, stopOnFailure: bool): World<R>
  {
    var count := if concurrency <= items then concurrency else items;
    World(Shared(items, stopOnFailure, 0, None, map[]), seq(count, (i: nat) => Looping), [])
  }

  /** A worker reaches its next await: it starts a task, or its task ends. */
  function Step<R>(w: World<R>, e: Event<R>): World<R>
  {
    if e.worker >= |w.workers| then w
    else match (e, w.workers[e.worker])
      case (Start(k), Looping) =>
        var (shared, index) := Claim(w.shared);
        World(shared, w.workers[k := if index.None? then Ended else Busy(index.value)], w.log)
      case (End(k, outcome), Busy(index)) =>
        var (shared, goOn) := Settle(w.shared, index, outcome);
        World(shared, w.workers[k := if goOn then Looping else Ended], w.log + [(index, outcome)])
      case _ => w
  }

  function Run<R>(items: nat, concurrency: nat, stopOnFailure: bool, events: seq<Event<R>>): World<R>
  {
    if events == [] then Begin(items, concurrency, stopOnFailure)
    else Step(Run(items, concurrency, stopOnFailure, events[..|events| - 1]), events[|events| - 1])
  }

  function FirstRejection<R>(log: seq<(nat, Outcome<R>)>): Option<string>
  {
    if log == [] then None
    else
      var before, last := FirstRejection(log[..|log| - 1]), log[|log| - 1].1;
      if before.Some? then before else if last.Rejected? then Some(last.reason) else None
  }

  ghost predicate InFlight<R>(w: World<R>, i: nat)
  {
    exists k :: 0 <= k < |w.workers| && w.workers[k] == Busy(i)
  }

  /** Each busy worker has an index that was claimed and is not settled. */
  ghost predicate BusyAreClaimed<R>(w: World<R>)
  {
    forall k | 0 <= k < |w.workers| && w.workers[k].Busy? ::
      w.workers[k].index < w.shared.nextIndex && w.workers[k].index < w.shared.items
      && w.workers[k].index !in w.shared.settled
  }

  ghost predicate BusyDiffer<R>(w: World<R>)
  {
    forall j, k | 0 <= j < k < |w.workers| && w.workers[j].Busy? && w.workers[k].Busy? ::
      w.workers[j].index != w.workers[k].index
  }

  ghost predicate NoneIsLost<R>(w: World<R>)
  {
    forall i: nat | i < w.shared.nextIndex && i < w.shared.items :: i in w.shared.settled || InFlight(w, i)
  }

  ghost predicate SettledAreClaimed<R>(w: World<R>)
  {
    forall i | i in w.shared.settled :: i < w.shared.nextIndex && i < w.shared.items
  }

  /** Claimed indices are in flight or settled, never both and never twice. */
  ghost predicate Claimed<R>(w: World<R>)
  {
    BusyAreClaimed(w) && BusyDiffer(w) && NoneIsLost(w) && SettledAreClaimed(w)
  }

  /** The failure that is kept is the first one; without it every settled task was fulfilled. */
  ghost predicate FailureIsFirst<R>(w: World<R>)
  {
    && w.shared.firstFailure == FirstRejection(w.log)
    && (w.shared.firstFailure.None? ==> forall i | i in w.shared.settled :: w.shared.settled[i].Fulfilled?)
  }

  /** A worker ends only when nothing is left to claim or a failure stops the pool. */
  ghost predicate EndsForAReason<R>(w: World<R>)
  {
    Ended in w.workers ==>
      w.shared.nextIndex >= w.shared.items || (w.shared.stopOnFailure && w.shared.firstFailure.Some?)
  }

  ghost predicate Good<R>(w: World<R>)
  {
    Claimed(w) && FailureIsFirst(w) && EndsForAReason(w)
  }

  lemma StartKeepsGood<R>(w: World<R>, k: nat)
    requires Good(w) && k < |w.workers| && w.workers[k] == Looping
    ensures Good(Step(w, Start(k)))
  {
    var after := Step(w, Start(k));
    forall i: nat | i < after.shared.nextIndex && i < after.shared.items
      ensures i in after.shared.settled || InFlight(after, i)
    {
      if i < w.shared.nextIndex {
        if i !in w.shared.settled {
          var j :| 0 <= j < |w.workers| && w.workers[j] == Busy(i);
          assert after.workers[j] == Busy(i);
        }
      } else {
        assert after.workers[k] == Busy(i);
      }
    }
  }

  /** What the end of a task does to the pool. */
  ghost predicate EndsTask<R>(w: World<R>, k: nat, outcome: Outcome<R>, after: World<R>)
    requires k < |w.workers| && w.workers[k].Busy?
  {
    var index, s, t := w.workers[k].index, w.shared, after.shared;
    && t.settled == s.settled[index := outcome]
    && t.nextIndex == s.nextIndex && t.items == s.items && t.stopOnFailure == s.stopOnFailure
    && after.workers == w.workers[k := if s.stopOnFailure && outcome.Rejected? then Ended else Looping]
    && after.log == w.log + [(index, outcome)]
    && t.firstFailure == (if outcome.Rejected? && s.firstFailure.None? then Some(outcome.reason) else s.firstFailure)
  }

  lemma EndsClaims<R>(w: World<R>, k: nat, outcome: Outcome<R>, after: World<R>)
    requires k < |w.workers| && w.workers[k].Busy? && EndsTask(w, k, outcome, after)
    requires BusyAreClaimed(w) && BusyDiffer(w) && SettledAreClaimed(w)
    ensures BusyAreClaimed(after) && BusyDiffer(after) && SettledAreClaimed(after)
  {
  }

  lemma EndLosesNone<R>(w: World<R>, k: nat, outcome: Outcome<R>, after: World<R>)
    requires k < |w.workers| && w.workers[k].Busy? && EndsTask(w, k, outcome, after) && NoneIsLost(w)
    ensures NoneIsLost(after)
  {
    forall i: nat | i < after.shared.nextIndex && i < after.shared.items
      ensures i in after.shared.settled || InFlight(after, i)
    {
      if i != w.workers[k].index && i !in w.shared.settled {
        var j :| 0 <= j < |w.workers| && w.workers[j] == Busy(i);
        assert after.workers[j] == Busy(i);
      }
    }
  }

  lemma FirstRejectionOfLast<R>(log: seq<(nat, Outcome<R>)>, last: (nat, Outcome<R>))
    ensures FirstRejection(log + [last])
         == if FirstRejection(log).None? && last.1.Rejected? then Some(last.1.reason) else FirstRejection(log)
  {
    assert (log + [last])[..|log|] == log;
  }

  lemma EndKeepsFailure<R>(w: World<R>, k: nat, outcome: Outcome<R>, after: World<R>)
    requires k < |w.workers| && w.workers[k].Busy? && EndsTask(w, k, outcome, after) && FailureIsFirst(w)
    ensures FailureIsFirst(after)
  {
    hide FirstRejection;
    FirstRejectionOfLast(w.log, (w.workers[k].index, outcome));
  }

  lemma EndKeepsReason<R>(w: World<R>, k: nat, outcome: Outcome<R>, after: World<R>)
    requires k < |w.workers| && w.workers[k].Busy? && EndsTask(w, k, outcome, after) && EndsForAReason(w)
    ensures EndsForAReason(after)
  {
    if Ended in after.workers && !(w.shared.stopOnFailure && outcome.Rejected?) {
      var j :| 0 <= j < |after.workers| && after.workers[j] == Ended;
      assert w.workers[j] == Ended;
    }
  }

  lemma StepEndsTask<R>(w: World<R>, k: nat, outcome: Outcome<R>)
    requires k < |w.workers| && w.workers[k].Busy?
    ensures EndsTask(w, k, outcome, Step(w, End(k, outcome)))
  {
  }

  lemma EndKeepsGood<R>(w: World<R>, k: nat, outcome: Outcome<R>)
    requires Good(w) && k < |w.workers| && w.workers[k].Busy?
    ensures Good(Step(w, End(k, outcome)))
  {
    hide Step, EndsTask, BusyAreClaimed, BusyDiffer, NoneIsLost, SettledAreClaimed, FailureIsFirst, EndsForAReason;
    var after := Step(w, End(k, outcome));
    StepEndsTask(w, k, outcome);
    EndsClaims(w, k, outcome, after);
    EndLosesNone(w, k, outcome, after);
    EndKeepsFailure(w, k, outcome, after);
    EndKeepsReason(w, k, outcome, after);
  }

  /**
   * In every interleaving, each index is claimed at most once, and the failure that is kept is the
   * first one to happen.
   */
  lemma {:induction false} EveryRunIsGood<R>(items: nat, concurrency: nat, stopOnFailure: bool, events: seq<Event<R>>)
    ensures var w := Run(items, concurrency, stopOnFailure, events);
            && Good(w) && |w.workers| == (if concurrency <= items then concurrency else items)
            && w.shared.items == items && w.shared.stopOnFailure == stopOnFailure
  {
    if events != [] {
      var before := Run(items, concurrency, stopOnFailure, events[..|events| - 1]);
      var e := events[|events| - 1];
      EveryRunIsGood(items, concurrency, stopOnFailure, events[..|events| - 1]);
      if e.worker < |before.workers| {
        match (e, before.workers[e.worker])
        case (Start(k), Looping) => StartKeepsGood(before, k);
        case (End(k, outcome), Busy(_)) => EndKeepsGood(before, k, outcome);
        case _ =>
      }
    }
  }

  predicate AllEnded<R>(w: World<R>) { forall k | 0 <= k < |w.workers| :: w.workers[k] == Ended }

  /** How a pool ends: it throws, or returns what each index got, in index order. */
  datatype Ending<+R> = Returns(results: seq<Option<Outcome<R>>>) | Throws(reason: string)

  function Result<R>(s: Shared<R>): Ending<R>
  {
    if s.stopOnFailure && s.firstFailure.Some? then Throws(s.firstFailure.value)
    else Returns(seq(s.items, i requires 0 <= i < s.items => if i in s.settled then Some(s.settled[i]) else None))
  }

  /** A worker at the head of its loop takes the next index, as long as there is one and no failure stops the pool. */
  lemma WorkerTakesNext<R>(items: nat, concurrency: nat, stopOnFailure: bool, events: seq<Event<R>>, k: nat)
    requires var w := Run(items, concurrency, stopOnFailure, events);
             && k < |w.workers| && w.workers[k] == Looping && w.shared.nextIndex < items
             && !(stopOnFailure && FirstRejection(w.log).Some?)
    ensures var w, after := Run(items, concurrency, stopOnFailure, events), Run(items, concurrency, stopOnFailure, events + [Start(k)]);
            after.workers == w.workers[k := Busy(w.shared.nextIndex)] && after.shared.nextIndex == w.shared.nextIndex + 1
  {
    EveryRunIsGood(items, concurrency, stopOnFailure, events);
    assert (events + [Start(k)])[..|events|] == events;
  }

  /** What is kept for an index is how its task ended. */
  lemma {:induction false} KeptIsLogged<R>(items: nat, concurrency: nat, stopOnFailure: bool, events: seq<Event<R>>, i: nat)
    requires i in Run(items, concurrency, stopOnFailure, events).shared.settled
    ensures var w := Run(items, concurrency, stopOnFailure, events); (i, w.shared.settled[i]) in w.log
  {
    if events != [] {
      var before := Run(items, concurrency, stopOnFailure, events[..|events| - 1]);
      if i in before.shared.settled {
        KeptIsLogged(items, concurrency, stopOnFailure, events[..|events| - 1], i);
      }
      StepKeepsLogged(before, events[|events| - 1], i);
    }
  }

  lemma StepKeepsLogged<R>(w: World<R>, e: Event<R>, i: nat)
    requires i in w.shared.settled ==> (i, w.shared.settled[i]) in w.log
    requires i in Step(w, e).shared.settled
    ensures (i, Step(w, e).shared.settled[i]) in Step(w, e).log
  {
    if e.worker < |w.workers| && e.End? && w.workers[e.worker].Busy? {
      var after := Step(w, e);
      assert after.log[|w.log|] == (w.workers[e.worker].index, e.outcome);
      assert forall x | x in w.log :: x in after.log;
    }
  }

  /**
   * When all workers have ended, the viewer's pool returns every index with the outcome of its task; the
   * scanner's returns a value at every index, or throws the reason of the first task that failed.
   */
  lemma WholePoolIsAnswered<R>(items: nat, concurrency: nat, stopOnFailure: bool, events: seq<Event<R>>)
    requires concurrency >= 1 && AllEnded(Run(items, concurrency, stopOnFailure, events))
    ensures var w := Run(items, concurrency, stopOnFailure, events);
            match Result(w.shared)
            case Throws(reason) => stopOnFailure && FirstRejection(w.log) == Some(reason)
            case Returns(results) =>
              && |results| == items
              && (forall i | 0 <= i < items :: results[i].Some? && (i, results[i].value) in w.log)
              && (stopOnFailure ==> forall i | 0 <= i < items :: results[i].value.Fulfilled?)
  {
    var w := Run(items, concurrency, stopOnFailure, events);
    EveryRunIsGood(items, concurrency, stopOnFailure, events);
    if items > 0 {
      assert w.workers[0] == Ended;
    }
    forall i: nat | i < items && Result(w.shared).Returns?
      ensures i in w.shared.settled && (i, w.shared.settled[i]) in w.log
    {
      assert !InFlight(w, i);
      KeptIsLogged(items, concurrency, stopOnFailure, events, i);
    }
  }

  /** Every settled task ended once, with the outcome that is kept for its index. */
  lemma {:induction false} EachTaskEndsOnce<R>(items: nat, concurrency: nat, stopOnFailure: bool, events: seq<Event<R>>)
    ensures var w := Run(items, concurrency, stopOnFailure, events);
            && (forall i, j | 0 <= i < j < |w.log| :: w.log[i].0 != w.log[j].0)
            && (forall i | 0 <= i < |w.log| :: w.log[i].0 in w.shared.settled && w.shared.settled[w.log[i].0] == w.log[i].1)
  {
    if events != [] {
      EachTaskEndsOnce(items, concurrency, stopOnFailure, events[..|events| - 1]);
      EveryRunIsGood(items, concurrency, stopOnFailure, events[..|events| - 1]);
    }
  }

  /** In the scanner's pool no task starts once one has failed. */
  lemma {:induction false} NothingStartsAfterAFailure<R>(items: nat, concurrency: nat, before: seq<Event<R>>, more: seq<Event<R>>)
    requires Run(items, concurrency, true, before).shared.firstFailure.Some?
    ensures Run(items, concurrency, true, before + more).shared.nextIndex == Run(items, concurrency, true, before).shared.nextIndex
    ensures Run(items, concurrency, true, before + more).shared.firstFailure
         == Run(items, concurrency, true, before).shared.firstFailure
  {
    if more == [] {
      assert before + more == before;
    } else {
      var events := before + more;
      assert events[..|events| - 1] == before + more[..|more| - 1];
      NothingStartsAfterAFailure(items, concurrency, before, more[..|more| - 1]);
      EveryRunIsGood(items, concurrency, true, events[..|events| - 1]);
    }
  }
}

/** The abort-aware semaphore of a recovery run: slots, a FIFO queue and hand-off on release. */
module ConcurrencyLimiter {
  import opened Tally
  import opened Text

  /** A caller waiting for a slot; callers are numbered in the order they arrive. */
  datatype Waiter = Waiter(id: nat, signal: Option<nat>)

  /** The limiter's fields. */
  datatype Gate = Gate(limit: nat, active: nat, waiting: seq<Waiter>)

  datatype Admission = Refused | Granted | Queued

  const MAX_NETWORK_CONCURRENCY := 5

  predicate Admitted(limit: int) { 1 <= limit <= MAX_NETWORK_CONCURRENCY }

  predicate Aborted(signal: Option<nat>, aborted: set<nat>)
  {
    match signal case None => false case Some(s) => s in aborted
  }

  // ---------- One operation ----------

  /** `#acquire` up to its first wait. */
  function Acquire(gate: Gate, waiter: Waiter, aborted: set<nat>): (Gate, Admission)
  {
    if Aborted(waiter.signal, aborted) then (gate, Refused)
    else if gate.active < gate.limit then (gate.(active := gate.active + 1), Granted)
    else (gate.(waiting := gate.waiting + [waiter]), Queued)
  }

  /** What a release does: the caller who gets the slot, if any, and the callers it rejects. */
  datatype Released = Released(gate: Gate, granted: Option<nat>, rejected: seq<nat>)

  /** `#release`. */
  function Release(gate: Gate, aborted: set<nat>): Released
    requires gate.active > 0
    decreases |gate.waiting|
  {
    if gate.waiting == [] then Released(gate.(active := gate.active - 1), None, [])
    else
      var first, rest := gate.waiting[0], gate.(waiting := gate.waiting[1..]);
      if Aborted(first.signal, aborted) then
        var later := Release(rest, aborted);
        later.(rejected := [first.id] + later.rejected)
      else Released(rest, Some(first.id), [])
  }

  /** Where a waiter stands in the queue; its length when it does not. */
  function IndexOf(waiting: seq<Waiter>, id: nat): (i: nat)
    ensures i <= |waiting| && (i < |waiting| ==> waiting[i].id == id)
    ensures forall j | 0 <= j < i :: waiting[j].id != id
  {
    if waiting == [] || waiting[0].id == id then 0 else 1 + IndexOf(waiting[1..], id)
  }

  /** The abort listener of a waiter: it leaves the queue. */
  function Cancel(gate: Gate, id: nat): Gate
  {
    var i := IndexOf(gate.waiting, id);
    if i < |gate.waiting| then gate.(waiting := gate.waiting[..i] + gate.waiting[i + 1..]) else gate
  }

  class RecoveryConcurrencyLimiter {
    const limit: nat
    var active: nat
    var waiting: seq<Waiter>

    ghost function Value(): Gate
      reads this
    {
      Gate(limit, active, waiting)
    }

    constructor (limit: nat)
      requires Admitted(limit)
      ensures Value() == Gate(limit, 0, [])
    {
      this.limit := limit;
      active, waiting := 0, [];
    }

    /** The constructor's check: null is the refusal of a limit outside 1 to 5. */
    static method Create(limit: int) returns (r: RecoveryConcurrencyLimiter?)
      ensures r != null <==> 1 <= limit <= 5
      ensures r != null ==> fresh(r) && r.Value() == Gate(limit, 0, [])
    {
      if !Admitted(limit) {
        return null;
      }
      r := new RecoveryConcurrencyLimiter(limit);
    }

    method TryAcquire(waiter: Waiter, aborted: set<nat>) returns (r: Admission)
      modifies this
      ensures (Value(), r) == Acquire(old(Value()), waiter, aborted)
    {
      if Aborted(waiter.signal, aborted) {
        return Refused;
      }
      if active < limit {
        active := active + 1;
        return Granted;
      }
      waiting := waiting + [waiter];
      return Queued;
    }

    method OnAbort(id: nat)
      modifies this
      ensures Value() == Cancel(old(Value()), id)
    {
      var index := IndexOf(waiting, id);
      if index < |waiting| {
        waiting := waiting[..index] + waiting[index + 1..];
      }
    }

    method GiveBack(aborted: set<nat>) returns (granted: Option<nat>, rejected: seq<nat>)
      requires active > 0
      modifies this
      ensures Released(Value(), granted, rejected) == Release(old(Value()), aborted)
    {
      rejected := [];
      while waiting != []
        invariant active == old(active)
        invariant var later := Release(Value(), aborted);
                  Release(old(Value()), aborted) == later.(rejected := rejected + later.rejected)
        decreases |waiting|
      {
        var first := waiting[0];
        ghost var later := Release(Value(), aborted);
        waiting := waiting[1..];
        if Aborted(first.signal, aborted) {
          assert rejected + later.rejected == rejected + [first.id] + Release(Value(), aborted).rejected;
          rejected := rejected + [first.id];
          continue;
        }
        assert rejected + [] == rejected;
        return Some(first.id), rejected;
      }
      assert rejected + [] == rejected;
      active := active - 1;
      return None, rejected;
    }
  }

  // ---------- All interleavings ----------

  /**
   * Every caller of `run`, by number: those who were given a slot and have not resumed yet, those
   * whose task runs, and those whose call has settled, in order. `entered` lists who got a slot, in
   * order; `signals` holds the signal each caller came with.
   */
  datatype World = World(
    gate: Gate,
    aborted: set<nat>,
    next: nat,
    signals: seq<Option<nat>>,
    granted: set<nat>,
    running: set<nat>,
    settled: seq<nat>,
    entered: seq<nat>
  )

  datatype Event =
    | Call(signal: Option<nat>)     // a caller arrives
    | Resume(id: nat)               // the wait of a granted caller ends
    | Settle(id: nat)               // the task of a running caller settles
    | Abort(source: nat)            // a signal is aborted
    | Deliver(id: nat)              // the abort listener of a waiter fires

  function Start(limit: nat): World { World(Gate(limit, 0, []), {}, 0, [], {}, {}, [], []) }

  function WaitingIds(gate: Gate): (r: seq<nat>)
    ensures |r| == |gate.waiting| && forall i | 0 <= i < |r| :: r[i] == gate.waiting[i].id
  {
    seq(|gate.waiting|, i requires 0 <= i < |gate.waiting| => gate.waiting[i].id)
  }

  /** The caller a release hands its slot to. */
  function Handed(r: Released): seq<nat> { if r.granted.Some? then [r.granted.value] else [] }

  /** The slot of `id` goes to the first live waiter, or is freed. */
  function GiveBackSlot(w: World, id: nat): World
    requires w.gate.active > 0
  {
    var r := Release(w.gate, w.aborted);
    w.(gate := r.gate,
       granted := w.granted - {id} + (if r.granted.Some? then {r.granted.value} else {}),
       running := w.running - {id},
       settled := w.settled + r.rejected + [id],
       entered := w.entered + Handed(r))
  }

  /** What an event changes; one that cannot happen changes nothing. */
  function Next(w: World, e: Event): World
  {
    match e
    case Call(signal) =>
      var (gate, admission) := Acquire(w.gate, Waiter(w.next, signal), w.aborted);
      var arrived := w.(gate := gate, next := w.next + 1, signals := w.signals + [signal]);
      (match admission
       case Refused => arrived.(settled := w.settled + [w.next])
       case Granted => arrived.(granted := w.granted + {w.next}, entered := w.entered + [w.next])
       case Queued => arrived)
    case Resume(id) =>
      if id !in w.granted || id >= |w.signals| || w.gate.active == 0 then w
      else if Aborted(w.signals[id], w.aborted) then GiveBackSlot(w, id)
      else w.(granted := w.granted - {id}, running := w.running + {id})
    case Settle(id) =>
      if id !in w.running || w.gate.active == 0 then w else GiveBackSlot(w, id)
    case Abort(source) => w.(aborted := w.aborted + {source})
    case Deliver(id) =>
      if id >= |w.signals| || !Aborted(w.signals[id], w.aborted) || id !in WaitingIds(w.gate) then w
      else w.(gate := Cancel(w.gate, id), settled := w.settled + [id])
  }

  function Run(limit: nat, events: seq<Event>): World
  {
    if events == [] then Start(limit) else Next(Run(limit, events[..|events| - 1]), events[|events| - 1])
  }

  predicate Increasing(s: seq<nat>) { forall i, j | 0 <= i < j < |s| :: s[i] < s[j] }

  predicate Below(s: seq<nat>, n: nat) { forall i | 0 <= i < |s| :: s[i] < n }

  /** The slots are accounted for. */
  predicate Safe(w: World)
  {
    && w.gate.active == |w.granted| + |w.running| <= w.gate.limit
    && (w.gate.waiting != [] ==> w.gate.active == w.gate.limit)
  }

  /** The callers who have a slot. */
  function Held(w: World): multiset<nat> { multiset(w.granted) + multiset(w.running) }

  /** Every caller so far is waiting, granted, running or settled: in one of these places, and once. */
  predicate Placed(w: World)
  {
    && |w.signals| == w.next
    && multiset(WaitingIds(w.gate)) + Held(w) + multiset(w.settled) == Upto(w.next)
  }

  /** Slots are given in arrival order, and everyone who got one came before everyone who waits. */
  predicate Ordered(w: World)
  {
    Increasing(w.entered + WaitingIds(w.gate)) && Below(w.entered + WaitingIds(w.gate), w.next)
  }

  predicate Good(w: World) { Safe(w) && Placed(w) && Ordered(w) }

  // ---------- What every step keeps ----------

  /** A release rejects the aborted waiters at the front and hands the slot to the first live one. */
  lemma {:induction false} ReleaseTakesTheFront(gate: Gate, aborted: set<nat>)
    requires gate.active > 0
    ensures var r := Release(gate, aborted);
            var k := |r.rejected|;
            && k <= |gate.waiting| && r.gate.limit == gate.limit
            && (forall i | 0 <= i < k :: gate.waiting[i].id == r.rejected[i] && Aborted(gate.waiting[i].signal, aborted))
            && (if k < |gate.waiting|
                then r.granted == Some(gate.waiting[k].id) && !Aborted(gate.waiting[k].signal, aborted)
                     && r.gate.waiting == gate.waiting[k + 1..] && r.gate.active == gate.active
                else r.granted == None && r.gate.waiting == [] && r.gate.active == gate.active - 1)
    decreases |gate.waiting|
  {
    if gate.waiting != [] && Aborted(gate.waiting[0].signal, aborted) {
      ReleaseTakesTheFront(gate.(waiting := gate.waiting[1..]), aborted);
    }
  }

  /** Where a caller is, it is nowhere else. */
  lemma OnlyThere(w: World, id: nat)
    requires Placed(w)
    ensures id in WaitingIds(w.gate) ==> id < w.next && id !in w.granted && id !in w.running && id !in w.settled
    ensures id in w.granted ==> id < w.next && id !in w.running && id !in w.settled
    ensures id in w.running ==> id < w.next && id !in w.granted && id !in w.settled
    ensures id >= w.next ==> id !in w.granted && id !in w.running
  {
    UptoOnce(w.next, id);
    var all := multiset(WaitingIds(w.gate)) + Held(w) + multiset(w.settled);
    assert all[id] == multiset(WaitingIds(w.gate))[id] + multiset(w.granted)[id] + multiset(w.running)[id]
                      + multiset(w.settled)[id];
  }

  lemma AddedToSet(s: set<nat>, x: nat)
    requires x !in s
    ensures multiset(s + {x}) == multiset(s) + multiset{x} && |s + {x}| == |s| + 1
  {
  }

  lemma TakenFromSet(s: set<nat>, x: nat)
    ensures x in s ==> multiset(s) == multiset(s - {x}) + multiset{x} && |s - {x}| == |s| - 1
    ensures x !in s ==> s - {x} == s
  {
  }

  lemma DropMiddle(a: seq<nat>, b: seq<nat>, c: seq<nat>, n: nat)
    requires Increasing(a + b + c) && Below(a + b + c, n)
    ensures Increasing(a + c) && Below(a + c, n)
  {
    var s, all := a + c, a + b + c;
    assert forall i | 0 <= i < |s| :: s[i] == all[if i < |a| then i else i + |b|];
  }

  lemma AppendNext(s: seq<nat>, n: nat)
    requires Increasing(s) && Below(s, n)
    ensures Increasing(s + [n]) && Below(s + [n], n + 1) && Below(s, n + 1)
  {
  }

  lemma IdsOfParts(a: seq<Waiter>, b: seq<Waiter>, gate: Gate)
    ensures WaitingIds(gate.(waiting := a + b)) == WaitingIds(gate.(waiting := a)) + WaitingIds(gate.(waiting := b))
  {
  }

  lemma Arrives(waiting: seq<nat>, granted: multiset<nat>, running: multiset<nat>, settled: seq<nat>, id: nat)
    ensures var all := multiset(waiting) + (granted + running) + multiset(settled) + multiset{id};
            && multiset(waiting + [id]) + (granted + running) + multiset(settled) == all
            && multiset(waiting) + (granted + multiset{id} + running) + multiset(settled) == all
            && multiset(waiting) + (granted + running) + multiset(settled + [id]) == all
  {
  }

  lemma CallKeepsGood(w: World, signal: Option<nat>)
    requires Good(w)
    ensures Good(Next(w, Call(signal)))
  {
    hide Increasing, Below, Upto;
    var after, ids := Next(w, Call(signal)), WaitingIds(w.gate);
    OnlyThere(w, w.next);
    AddedToSet(w.granted, w.next);
    AppendNext(w.entered + ids, w.next);
    UptoNext(w.next);
    Arrives(ids, multiset(w.granted), multiset(w.running), w.settled, w.next);
    if Aborted(signal, w.aborted) {
    } else if w.gate.active < w.gate.limit {
      assert ids == [];
      assert after.entered + WaitingIds(after.gate) == w.entered + ids + [w.next];
    } else {
      IdsOfParts(w.gate.waiting, [Waiter(w.next, signal)], w.gate);
      assert WaitingIds(after.gate) == ids + [w.next];
      assert after.entered + WaitingIds(after.gate) == w.entered + ids + [w.next];
    }
  }

  /** The queue is the waiters before, at and after a place. */
  lemma QueueAround(gate: Gate, i: nat)
    requires i < |gate.waiting|
    ensures var ids, id := WaitingIds(gate), gate.waiting[i].id;
            && ids == ids[..i] + [id] + ids[i + 1..]
            && WaitingIds(gate.(waiting := gate.waiting[..i] + gate.waiting[i + 1..])) == ids[..i] + ids[i + 1..]
  {
    var a, c := gate.waiting[..i], gate.waiting[i + 1..];
    IdsOfParts(a, c, gate);
  }

  /** The queue with and without a cancelled waiter. */
  lemma CancelAround(gate: Gate, id: nat) returns (a: seq<nat>, c: seq<nat>)
    requires id in WaitingIds(gate)
    ensures WaitingIds(gate) == a + [id] + c && WaitingIds(Cancel(gate, id)) == a + c
    ensures Cancel(gate, id).active == gate.active && Cancel(gate, id).limit == gate.limit
    ensures Cancel(gate, id).waiting != [] ==> gate.waiting != []
  {
    var i, ids := IndexOf(gate.waiting, id), WaitingIds(gate);
    QueueAround(gate, i);
    a, c := ids[..i], ids[i + 1..];
  }

  lemma DeliverKeepsGood(w: World, id: nat)
    requires Good(w)
    ensures Good(Next(w, Deliver(id)))
  {
    if id < |w.signals| && Aborted(w.signals[id], w.aborted) && id in WaitingIds(w.gate) {
      var a, c := CancelAround(w.gate, id);
      CancelKeepsOrder(w, id, a, c);
      hide Increasing, Below, Upto, WaitingIds, Cancel;
      SettledWaiter(a, id, c, Held(w), w.settled);
    }
  }

  lemma CancelKeepsOrder(w: World, id: nat, a: seq<nat>, c: seq<nat>)
    requires Ordered(w) && WaitingIds(w.gate) == a + [id] + c
    ensures Increasing(w.entered + (a + c)) && Below(w.entered + (a + c), w.next)
  {
    hide Increasing, Below, WaitingIds;
    assert w.entered + (a + [id] + c) == (w.entered + a) + [id] + c;
    DropMiddle(w.entered + a, [id], c, w.next);
    assert w.entered + (a + c) == (w.entered + a) + c;
  }

  lemma SettledWaiter(a: seq<nat>, id: nat, c: seq<nat>, held: multiset<nat>, settled: seq<nat>)
    ensures multiset(a + [id] + c) + held + multiset(settled) == multiset(a + c) + held + multiset(settled + [id])
  {
    assert multiset(a + [id] + c) == multiset(a) + multiset{id} + multiset(c);
  }

  lemma ResumeKeepsGood(w: World, id: nat)
    requires Good(w)
    ensures Good(Next(w, Resume(id)))
  {
    if id in w.granted && id < |w.signals| && w.gate.active > 0 {
      if Aborted(w.signals[id], w.aborted) {
        GiveBackKeepsGood(w, id);
      } else {
        OnlyThere(w, id);
        TakenFromSet(w.granted, id);
        AddedToSet(w.running, id);
      }
    }
  }

  /** The queue before a release is those it rejects, the one it serves and the queue after it. */
  lemma ReleasedIds(gate: Gate, aborted: set<nat>)
    requires gate.active > 0
    ensures var r := Release(gate, aborted);
            && WaitingIds(gate) == r.rejected + Handed(r) + WaitingIds(r.gate) && r.gate.limit == gate.limit
            && (if r.granted.Some? then r.gate.active == gate.active
                else r.gate.active == gate.active - 1 && r.gate.waiting == [])
  {
    ReleaseTakesTheFront(gate, aborted);
  }

  lemma GiveBackKeepsOrder(w: World, id: nat)
    requires Ordered(w) && w.gate.active > 0
    ensures Ordered(GiveBackSlot(w, id))
  {
    hide Increasing, Below, Release;
    var r, after := Release(w.gate, w.aborted), GiveBackSlot(w, id);
    ReleasedIds(w.gate, w.aborted);
    var rest := Handed(r) + WaitingIds(r.gate);
    assert w.entered + WaitingIds(w.gate) == w.entered + r.rejected + rest;
    DropMiddle(w.entered, r.rejected, rest, w.next);
    assert after.entered + WaitingIds(after.gate) == w.entered + rest;
  }

  lemma MovedOn(rejected: seq<nat>, handed: seq<nat>, rest: seq<nat>, held: multiset<nat>, after: multiset<nat>,
                settled: seq<nat>, id: nat)
    requires held + multiset(handed) == after + multiset{id}
    ensures multiset(rejected + handed + rest) + held + multiset(settled)
         == multiset(rest) + after + multiset(settled + rejected + [id])
  {
    assert multiset(rejected + handed + rest) + held == multiset(rejected) + multiset(rest) + (held + multiset(handed));
    assert multiset(settled + rejected + [id]) == multiset(settled) + multiset(rejected) + multiset{id};
  }

  /** The slot moves from the caller who gives it back to the one it is handed to. */
  lemma SlotMoves(w: World, id: nat, handed: seq<nat>)
    requires Placed(w) && (id in w.granted || id in w.running) && |handed| <= 1
    requires forall g | g in handed :: g in WaitingIds(w.gate)
    ensures var granted := w.granted - {id} + Members(handed);
            var running := w.running - {id};
            && Held(w) + multiset(handed) == multiset(granted) + multiset(running) + multiset{id}
            && |granted| + |running| == |w.granted| + |w.running| - 1 + |handed|
  {
    hide Placed, WaitingIds, Members;
    OnlyThere(w, id);
    LeavesOne(w.granted, w.running, id);
    if handed != [] {
      OnlyThere(w, handed[0]);
    }
    JoinsSet(w.granted - {id}, handed);
    InAnyOrder(multiset(w.granted - {id}), multiset(w.running - {id}), multiset{id}, multiset(handed));
  }

  lemma LeavesOne(a: set<nat>, b: set<nat>, x: nat)
    requires x in a <==> x !in b
    ensures multiset(a) + multiset(b) == multiset(a - {x}) + multiset(b - {x}) + multiset{x}
    ensures |a - {x}| + |b - {x}| == |a| + |b| - 1
  {
    TakenFromSet(a, x);
    TakenFromSet(b, x);
  }

  lemma JoinsSet(s: set<nat>, more: seq<nat>)
    requires |more| <= 1 && forall x | x in more :: x !in s
    ensures multiset(s + Members(more)) == multiset(s) + multiset(more) && |s + Members(more)| == |s| + |more|
  {
    if more == [] {
      assert Members(more) == {} && s + {} == s;
    } else {
      assert more == [more[0]] && Members(more) == {more[0]};
      AddedToSet(s, more[0]);
    }
  }

  lemma InAnyOrder(p: multiset<nat>, q: multiset<nat>, x: multiset<nat>, y: multiset<nat>)
    ensures p + q + x + y == p + y + q + x
  {
  }

  lemma HeldAfter(w: World, id: nat)
    requires w.gate.active > 0
    ensures var handed, after := Handed(Release(w.gate, w.aborted)), GiveBackSlot(w, id);
            && after.granted == w.granted - {id} + Members(handed)
            && Held(after) == multiset(w.granted - {id} + Members(handed)) + multiset(w.running - {id})
  {
    hide Release;
  }

  /** Where everyone is once a slot is given back. */
  lemma GiveBackMoves(w: World, id: nat)
    requires Placed(w) && w.gate.active > 0 && (id in w.granted || id in w.running)
    ensures var r, after := Release(w.gate, w.aborted), GiveBackSlot(w, id);
            && WaitingIds(w.gate) == r.rejected + Handed(r) + WaitingIds(after.gate)
            && Held(w) + multiset(Handed(r)) == Held(after) + multiset{id}
            && |after.granted| + |after.running| == |w.granted| + |w.running| - 1 + |Handed(r)|
  {
    hide Release, WaitingIds, Members, Held, Placed;
    var r := Release(w.gate, w.aborted);
    var handed := Handed(r);
    ReleasedIds(w.gate, w.aborted);
    forall g | g in handed ensures g in WaitingIds(w.gate) {
      assert WaitingIds(w.gate)[|r.rejected|] == g;
    }
    SlotMoves(w, id, handed);
    HeldAfter(w, id);
  }

  lemma GiveBackKeepsPlaces(w: World, id: nat)
    requires Placed(w) && w.gate.active > 0 && (id in w.granted || id in w.running)
    ensures Placed(GiveBackSlot(w, id))
  {
    GiveBackMoves(w, id);
    hide Release, Upto, WaitingIds, Members, Held, Handed;
    var r, after := Release(w.gate, w.aborted), GiveBackSlot(w, id);
    MovedOn(r.rejected, Handed(r), WaitingIds(after.gate), Held(w), Held(after), w.settled, id);
  }

  lemma GiveBackKeepsSafe(w: World, id: nat)
    requires Safe(w) && Placed(w) && w.gate.active > 0 && (id in w.granted || id in w.running)
    ensures Safe(GiveBackSlot(w, id))
  {
    GiveBackMoves(w, id);
    ReleasedIds(w.gate, w.aborted);
    hide Release, WaitingIds, Held, Placed;
  }

  lemma GiveBackKeepsGood(w: World, id: nat)
    requires Good(w) && w.gate.active > 0 && (id in w.granted || id in w.running)
    ensures Good(GiveBackSlot(w, id))
  {
    hide Ordered, Placed, Safe, GiveBackSlot;
    GiveBackKeepsOrder(w, id);
    GiveBackKeepsPlaces(w, id);
    GiveBackKeepsSafe(w, id);
  }

  lemma StepKeepsGood(w: World, e: Event)
    requires Good(w)
    ensures Good(Next(w, e))
  {
    match e
    case Call(signal) => CallKeepsGood(w, signal);
    case Resume(id) => ResumeKeepsGood(w, id);
    case Settle(id) =>
      if id in w.running && w.gate.active > 0 {
        GiveBackKeepsGood(w, id);
      }
    case Abort(_) =>
    case Deliver(id) => DeliverKeepsGood(w, id);
  }

  /**
   * In every interleaving of calls, resumptions, completions, aborts and abort listeners, the active
   * count is the slots held, within the limit; callers wait only when all slots are taken; each is
   * settled at most once; and slots go out in arrival order.
   */
  lemma {:induction false} EveryRunIsGood(limit: nat, events: seq<Event>)
    ensures Good(Run(limit, events)) && Run(limit, events).gate.limit == limit
  {
    if events != [] {
      var before, e := Run(limit, events[..|events| - 1]), events[|events| - 1];
      EveryRunIsGood(limit, events[..|events| - 1]);
      StepKeepsGood(before, e);
      StepKeepsLimit(before, e);
    }
  }

  lemma StepKeepsLimit(w: World, e: Event)
    ensures Next(w, e).gate.limit == w.gate.limit
  {
    if w.gate.active > 0 {
      ReleaseTakesTheFront(w.gate, w.aborted);
    }
  }

  /** When every caller has settled, no slot is taken and nobody waits. */
  lemma NoSlotIsLost(limit: nat, events: seq<Event>)
    requires multiset(Run(limit, events).settled) == Upto(Run(limit, events).next)
    ensures Run(limit, events).gate.active == 0 && Run(limit, events).gate.waiting == []
  {
    var w := Run(limit, events);
    EveryRunIsGood(limit, events);
    var ids := WaitingIds(w.gate);
    assert |multiset(ids)| + |multiset(w.granted)| + |multiset(w.running)| == 0 by {
      assert |multiset(ids) + Held(w) + multiset(w.settled)|
          == |multiset(ids)| + |multiset(w.granted)| + |multiset(w.running)| + |multiset(w.settled)|;
    }
  }

  /** While a caller has not settled, someone who is not waiting can move on: the queue cannot stall. */
  lemma SomeoneCanMove(limit: nat, events: seq<Event>)
    requires limit >= 1
    ensures var w := Run(limit, events);
            w.granted + w.running != {} || multiset(w.settled) == Upto(w.next)
  {
    var w := Run(limit, events);
    EveryRunIsGood(limit, events);
    if w.granted == {} && w.running == {} {
      assert WaitingIds(w.gate) == [];
    }
  }

  // ---------- Who is served ----------

  /** A source of aborts has fired exactly when its event has happened. */
  lemma {:induction false} AbortsHappened(limit: nat, events: seq<Event>, source: nat)
    ensures source in Run(limit, events).aborted <==> Abort(source) in events
  {
    if events != [] {
      var before, e := events[..|events| - 1], events[|events| - 1];
      AbortsHappened(limit, before, source);
      assert events == before + [e];
      AbortsOneMore(Run(limit, before), e);
    }
  }

  lemma AbortsOneMore(w: World, e: Event)
    ensures Next(w, e).aborted == if e.Abort? then w.aborted + {e.source} else w.aborted
  {
    hide Acquire, Release, Cancel;
  }

  /** The caller came with a signal that has been aborted by now. */
  predicate WasAborted(w: World, id: nat, events: seq<Event>)
  {
    id < |w.signals| && w.signals[id].Some? && Abort(w.signals[id].value) in events
  }

  /** The task of the caller has run, or runs. */
  ghost predicate HasRun(limit: nat, events: seq<Event>, id: nat)
  {
    exists k: nat :: k <= |events| && id in Run(limit, events[..k]).running
  }

  /** Every waiter stands in the queue with the signal it came with. */
  predicate OwnSignals(w: World)
  {
    forall i | 0 <= i < |w.gate.waiting| ::
      w.gate.waiting[i].id < |w.signals| && w.gate.waiting[i].signal == w.signals[w.gate.waiting[i].id]
  }

  lemma CancelKeepsSignals(w: World, id: nat)
    requires OwnSignals(w)
    ensures OwnSignals(w.(gate := Cancel(w.gate, id)))
  {
    var i, waiting := IndexOf(w.gate.waiting, id), Cancel(w.gate, id).waiting;
    if i < |w.gate.waiting| {
      assert forall j | 0 <= j < |waiting| :: waiting[j] == w.gate.waiting[if j < i then j else j + 1];
    }
  }

  lemma GiveBackKeepsSignals(w: World, id: nat)
    requires OwnSignals(w) && w.gate.active > 0
    ensures OwnSignals(GiveBackSlot(w, id)) && GiveBackSlot(w, id).signals == w.signals
  {
    ReleaseTakesTheFront(w.gate, w.aborted);
    hide Release, Handed, Aborted;
  }

  lemma CallKeepsSignals(w: World, signal: Option<nat>)
    requires |w.signals| == w.next && OwnSignals(w)
    ensures OwnSignals(Next(w, Call(signal))) && w.signals <= Next(w, Call(signal)).signals
  {
    var after := Next(w, Call(signal));
    var waiting := w.gate.waiting;
    assert after.gate.waiting == waiting || after.gate.waiting == waiting + [Waiter(w.next, signal)];
    assert forall id: nat | id < |w.signals| :: after.signals[id] == w.signals[id];
    assert after.signals[w.next] == signal;
  }

  lemma SignalForEach(w: World)
    requires Good(w)
    ensures |w.signals| == w.next
  {
  }

  lemma SameQueue(w: World, after: World)
    requires after.gate.waiting == w.gate.waiting && after.signals == w.signals
    ensures OwnSignals(w) == OwnSignals(after)
  {
  }

  lemma StepKeepsSignals(w: World, e: Event)
    requires Good(w) && OwnSignals(w)
    ensures OwnSignals(Next(w, e)) && w.signals <= Next(w, e).signals
  {
    hide Good, OwnSignals, GiveBackSlot, Aborted, Cancel, WaitingIds;
    SignalForEach(w);
    match e
    case Call(signal) => CallKeepsSignals(w, signal);
    case Resume(id) =>
      if w.gate.active > 0 {
        GiveBackKeepsSignals(w, id);
      }
      SameQueue(w, w.(granted := w.granted - {id}, running := w.running + {id}));
    case Settle(id) =>
      if w.gate.active > 0 {
        GiveBackKeepsSignals(w, id);
      }
    case Abort(source) => SameQueue(w, w.(aborted := w.aborted + {source}));
    case Deliver(id) =>
      CancelKeepsSignals(w, id);
      var cancelled := w.(gate := Cancel(w.gate, id));
      SameQueue(cancelled, cancelled.(settled := w.settled + [id]));
  }

  lemma {:induction false} EveryRunKeepsSignals(limit: nat, events: seq<Event>)
    ensures OwnSignals(Run(limit, events))
  {
    if events != [] {
      EveryRunKeepsSignals(limit, events[..|events| - 1]);
      EveryRunIsGood(limit, events[..|events| - 1]);
      StepKeepsSignals(Run(limit, events[..|events| - 1]), events[|events| - 1]);
    }
  }

  /** Who settles when a slot is given back: its holder, and waiters whose signals are aborted. */
  lemma WhoSettlesWithIt(w: World, holder: nat, id: nat)
    requires w.gate.active > 0 && OwnSignals(w) && id in GiveBackSlot(w, holder).settled && id !in w.settled
    ensures id == holder || (id < |w.signals| && Aborted(w.signals[id], w.aborted))
  {
    ReleaseTakesTheFront(w.gate, w.aborted);
    hide Release, Handed, Aborted;
    var rejected := Release(w.gate, w.aborted).rejected;
    if id in rejected {
      var i :| 0 <= i < |rejected| && rejected[i] == id;
      assert w.gate.waiting[i].id == id;
    }
  }

  /** Who settles in one step was running, or its own signal is aborted. */
  lemma WhoSettles(w: World, e: Event, id: nat)
    requires Good(w) && OwnSignals(w) && id in Next(w, e).settled && id !in w.settled
    ensures id in w.running || (id < |Next(w, e).signals| && Aborted(Next(w, e).signals[id], w.aborted))
  {
    hide Good, OwnSignals, GiveBackSlot, Cancel, WaitingIds, Aborted;
    SignalForEach(w);
    GiveBackKeepsTheRest(w, e);
    if (e.Resume? || e.Settle?) && w.gate.active > 0 && id in GiveBackSlot(w, e.id).settled {
      WhoSettlesWithIt(w, e.id, id);
    }
  }

  lemma GiveBackKeepsTheRest(w: World, e: Event)
    ensures w.gate.active > 0 && (e.Resume? || e.Settle?) ==> GiveBackSlot(w, e.id).signals == w.signals
  {
  }

  /** A caller settles only once its task has run, or because its own signal was aborted. */
  lemma {:induction false} SettledHasRun(limit: nat, events: seq<Event>, id: nat)
    requires id in Run(limit, events).settled
    ensures HasRun(limit, events, id) || WasAborted(Run(limit, events), id, events)
  {
    if events != [] {
      hide Good, OwnSignals, Aborted;
      var before, e := events[..|events| - 1], events[|events| - 1];
      var w := Run(limit, before);
      EveryRunIsGood(limit, before);
      EveryRunKeepsSignals(limit, before);
      StepKeepsSignals(w, e);
      assert forall k: nat | k <= |before| :: events[..k] == before[..k];
      if id in w.settled {
        SettledHasRun(limit, before, id);
        if WasAborted(w, id, before) {
          assert Abort(w.signals[id].value) in events;
        }
      } else {
        WhoSettles(w, e, id);
        if id in w.running {
          assert events[..|before|] == before;
        } else {
          AbortedByEvent(limit, events, id);
        }
      }
    }
  }

  lemma AbortedByEvent(limit: nat, events: seq<Event>, id: nat)
    requires events != []
    requires var w, before := Run(limit, events), Run(limit, events[..|events| - 1]);
             id < |w.signals| && Aborted(w.signals[id], before.aborted)
    ensures WasAborted(Run(limit, events), id, events)
  {
    var signal := Run(limit, events).signals[id];
    AbortsHappened(limit, events[..|events| - 1], signal.value);
    assert forall e | e in events[..|events| - 1] :: e in events;
  }

  /** Everyone who holds a slot is listed among those who got one. */
  predicate HoldersEntered(w: World)
  {
    forall id | id in w.granted + w.running :: id in w.entered
  }

  lemma StepKeepsEntered(w: World, e: Event)
    requires HoldersEntered(w)
    ensures HoldersEntered(Next(w, e)) && w.entered <= Next(w, e).entered
  {
    hide Acquire, Release, Cancel;
  }

  lemma {:induction false} RunnersEntered(limit: nat, events: seq<Event>, k: nat, id: nat)
    requires k <= |events| && id in Run(limit, events[..k]).running
    ensures id in Run(limit, events).entered
  {
    EveryHolderEntered(limit, events);
    if k == |events| {
      assert events[..k] == events;
    } else {
      hide Next, HoldersEntered;
      var before := events[..|events| - 1];
      assert events[..k] == before[..k];
      RunnersEntered(limit, before, k, id);
      EveryHolderEntered(limit, before);
      StepKeepsEntered(Run(limit, before), events[|events| - 1]);
    }
  }

  lemma {:induction false} EveryHolderEntered(limit: nat, events: seq<Event>)
    ensures HoldersEntered(Run(limit, events))
  {
    if events != [] {
      EveryHolderEntered(limit, events[..|events| - 1]);
      StepKeepsEntered(Run(limit, events[..|events| - 1]), events[|events| - 1]);
    }
  }

  /** As long as nothing is aborted, every caller that has settled got a slot and ran. */
  lemma WithoutAbortsAllRun(limit: nat, events: seq<Event>, id: nat)
    requires forall e | e in events :: !e.Abort?
    requires id in Run(limit, events).settled
    ensures HasRun(limit, events, id) && id in Run(limit, events).entered
  {
    SettledHasRun(limit, events, id);
    var k: nat :| k <= |events| && id in Run(limit, events[..k]).running;
    RunnersEntered(limit, events, k, id);
  }

  /**
   * A caller that arrives with a live signal gets a slot when fewer than `limit` are held, and stands
   * last in the queue otherwise; with an aborted one it settles at once. Nobody else moves.
   */
  lemma CallIsServed(limit: nat, events: seq<Event>, signal: Option<nat>)
    ensures var w, after := Run(limit, events), Run(limit, events + [Call(signal)]);
            && after.running == w.running && after.signals == w.signals + [signal]
            && if signal.Some? && Abort(signal.value) in events then
                 && after.settled == w.settled + [w.next]
                 && after.granted == w.granted && after.entered == w.entered && after.gate == w.gate
               else if |w.granted| + |w.running| < limit then
                 && after.granted == w.granted + {w.next} && after.entered == w.entered + [w.next]
                 && after.settled == w.settled && after.gate.waiting == w.gate.waiting
               else
                 && after.gate.waiting == w.gate.waiting + [Waiter(w.next, signal)]
                 && after.granted == w.granted && after.entered == w.entered && after.settled == w.settled
  {
    EveryRunIsGood(limit, events);
    if signal.Some? {
      AbortsHappened(limit, events, signal.value);
    }
    assert (events + [Call(signal)])[..|events|] == events;
  }

  /** A caller with a slot and a live signal runs once its wait ends. */
  lemma ResumedCallerRuns(limit: nat, events: seq<Event>, id: nat)
    requires id in Run(limit, events).granted && !WasAborted(Run(limit, events), id, events)
    ensures id in Run(limit, events + [Resume(id)]).running
  {
    var w := Run(limit, events);
    EveryRunIsGood(limit, events);
    OnlyThere(w, id);
    assert (events + [Resume(id)])[..|events|] == events;
    if w.signals[id].Some? {
      AbortsHappened(limit, events, w.signals[id].value);
    }
  }

  /** When a task settles its caller does, and its slot goes to the first waiter whose signal is live. */
  lemma SettledSlotIsServed(limit: nat, events: seq<Event>, id: nat, k: nat)
    requires var w := Run(limit, events);
             && id in w.running && k < |w.gate.waiting| && !WasAborted(w, w.gate.waiting[k].id, events)
             && forall i | 0 <= i < k :: WasAborted(w, w.gate.waiting[i].id, events)
    ensures var w, after := Run(limit, events), Run(limit, events + [Settle(id)]);
            && id in after.settled && w.gate.waiting[k].id in after.granted
            && after.gate.waiting == w.gate.waiting[k + 1..]
  {
    var w := Run(limit, events);
    EveryRunIsGood(limit, events);
    EveryRunKeepsSignals(limit, events);
    assert (events + [Settle(id)])[..|events|] == events;
    forall i | 0 <= i < |w.gate.waiting|
      ensures Aborted(w.gate.waiting[i].signal, w.aborted) <==> WasAborted(w, w.gate.waiting[i].id, events)
    {
      if w.gate.waiting[i].signal.Some? {
        AbortsHappened(limit, events, w.gate.waiting[i].signal.value);
      }
    }
    assert w.gate.active > 0;
    ReleaseTakesTheFront(w.gate, w.aborted);
    hide Release;
  }

  lemma RunOneMore(limit: nat, events: seq<Event>, e: Event)
    ensures Run(limit, events + [e]) == Next(Run(limit, events), e)
  {
    assert (events + [e])[..|events|] == events;
  }

  /** An aborted caller gives its slot back without running. */
  lemma AbortedCallerNeverRuns(limit: nat, events: seq<Event>, id: nat)
    requires id in Run(limit, events).granted && WasAborted(Run(limit, events), id, events)
    ensures var w, after := Run(limit, events), Run(limit, events + [Resume(id)]);
            after.running == w.running && id in after.settled && id !in after.granted
  {
    var w := Run(limit, events);
    hide Good, Run, Next;
    EveryRunIsGood(limit, events);
    AbortsHappened(limit, events, w.signals[id].value);
    RunOneMore(limit, events, Resume(id));
    GivesBack(w, id);
  }

  lemma GivesBack(w: World, id: nat)
    requires Good(w) && id in w.granted && id < |w.signals| && Aborted(w.signals[id], w.aborted)
    ensures var after := Next(w, Resume(id)); after.running == w.running && id in after.settled && id !in after.granted
  {
    hide Release, Ordered, Increasing, Below, Placed, Aborted;
    var after := GiveBackSlot(w, id);
    OnlyThere(w, id);
    assert id in multiset(w.granted);
    assert w.gate.active > 0;
    assert Next(w, Resume(id)) == after;
    assert after.running == w.running && id in after.settled;
    ResumeKeepsGood(w, id);
    OnlyThere(after, id);
  }

  /** An abort that reaches its waiter settles it without a slot; everybody else keeps their place. */
  lemma AbortedWaiterLeaves(limit: nat, events: seq<Event>, k: nat)
    requires var w := Run(limit, events); k < |w.gate.waiting| && WasAborted(w, w.gate.waiting[k].id, events)
    ensures var w := Run(limit, events);
            var after := Run(limit, events + [Deliver(w.gate.waiting[k].id)]);
            && after.gate.waiting == w.gate.waiting[..k] + w.gate.waiting[k + 1..]
            && after.settled == w.settled + [w.gate.waiting[k].id]
            && after.granted == w.granted && after.running == w.running && after.entered == w.entered
  {
    var w := Run(limit, events);
    hide Good, Run, Next;
    EveryRunIsGood(limit, events);
    AbortsHappened(limit, events, w.signals[w.gate.waiting[k].id].value);
    RunOneMore(limit, events, Deliver(w.gate.waiting[k].id));
    LeavesQueue(w, k);
  }

  lemma LeavesQueue(w: World, k: nat)
    requires Good(w) && k < |w.gate.waiting|
    requires var id := w.gate.waiting[k].id; id < |w.signals| && Aborted(w.signals[id], w.aborted)
    ensures var id := w.gate.waiting[k].id;
            Next(w, Deliver(id)) == w.(gate := w.gate.(waiting := w.gate.waiting[..k] + w.gate.waiting[k + 1..]),
                                       settled := w.settled + [id])
  {
    PlaceInQueue(w, k);
    hide Good, IndexOf, WaitingIds, Aborted;
  }

  /** No two waiters have the same number, so a waiter is found where it stands. */
  lemma PlaceInQueue(w: World, k: nat)
    requires Ordered(w) && k < |w.gate.waiting|
    ensures w.gate.waiting[k].id in WaitingIds(w.gate) && IndexOf(w.gate.waiting, w.gate.waiting[k].id) == k
  {
    var ids, i := WaitingIds(w.gate), IndexOf(w.gate.waiting, w.gate.waiting[k].id);
    var all := w.entered + ids;
    assert ids[k] == w.gate.waiting[k].id && all[|w.entered| + k] == ids[k];
    assert i <= k && all[|w.entered| + i] == ids[i];
  }
}

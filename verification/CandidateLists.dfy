/** Candidate-list import: a list is kept only by the open that is still current, and freed exactly once. */
module CandidateLists {
  import opened Tally
  import opened Text

  /** Where an open waits: for the head of the file or for its whole body. */
  datatype Stage = Inspecting | Reading

  /** An open that has not ended: its number, the generation it saw, and its form. */
  datatype Opening = Opening(id: nat, generation: nat, encrypted: bool, stage: Stage)

  /** How an open ends: undefined when it was superseded, a refusal, or the list it keeps. */
  datatype Outcome = Dropped | Failed | Opened(list: nat)

  /** What reading the whole file comes to. */
  datatype Reply = ReadFailed | Changed | NotDecrypted | NotAList | Candidates

  /**
   * The import's fields with what it owns: lists and page keys are numbered as they are made, and
   * the freed ones are recorded in order; so are the byte buffers, and which of them were wiped.
   */
  datatype Import = Import(
    generation: nat,
    list: Option<nat>,
    session: Option<nat>,
    lists: nat,
    freed: seq<nat>,
    sessions: nat,
    freedSessions: seq<nat>,
    buffers: nat,
    wiped: set<nat>,
    opens: nat,
    pending: seq<Opening>,
    ended: seq<(nat, Outcome)>
  )

  const CLOSED := Import(0, None, None, 0, [], 0, [], 0, {}, 0, [], [])

  function Held(x: Option<nat>): seq<nat> { if x.Some? then [x.value] else [] }

  // ---------- One event ----------

  function Clear(m: Import): Import
  {
    m.(generation := m.generation + 1, freed := m.freed + Held(m.list), list := None)
  }

  function EndAll(m: Import): Import
  {
    var c := Clear(m);
    c.(freedSessions := c.freedSessions + Held(c.session), session := None)
  }

  /** `recipient`: the page's key, made when there is none. */
  function Recipient(m: Import): Import
  {
    if m.session.Some? then m else m.(session := Some(m.sessions), sessions := m.sessions + 1)
  }

  predicate IsDropped(m: Import, o: Opening) { o.generation != m.generation }

  /** `#open` up to its first wait; `sizeRefused` is the refusal of a plaintext file's size. */
  function Begin(m: Import, encrypted: bool, sizeRefused: bool): Import
  {
    var c := Clear(m);
    var started := c.(opens := c.opens + 1);
    if !encrypted && sizeRefused then started.(ended := started.ended + [(c.opens, Failed)])
    else started.(pending := started.pending
                    + [Opening(c.opens, c.generation, encrypted, if encrypted then Inspecting else Reading)])
  }

  function Without(pending: seq<Opening>, k: nat): seq<Opening>
    requires k < |pending|
  {
    pending[..k] + pending[k + 1..]
  }

  /** An open ends: undefined when it was superseded, whatever it came to. */
  function Ends(m: Import, k: nat, outcome: Outcome): Import
    requires k < |m.pending|
  {
    var o := m.pending[k];
    m.(pending := Without(m.pending, k), ended := m.ended + [(o.id, if IsDropped(m, o) then Dropped else outcome)])
  }

  /** Buffers made and wiped within one step. */
  function WithBuffers(m: Import, count: nat): Import
    decreases count
  {
    if count == 0 then m else WithBuffers(m.(buffers := m.buffers + 1, wiped := m.wiped + {m.buffers}), count - 1)
  }

  /** The head of the file has been read, or could not be; `accepted` tells whether its lock is known. */
  function AfterInspect(m: Import, k: nat, read: bool, accepted: bool): Import
    requires k < |m.pending|
  {
    var n := if read then WithBuffers(m, 1) else m;
    if !read || !accepted then Ends(n, k, Failed)
    else if IsDropped(n, n.pending[k]) then Ends(n, k, Dropped)
    else n.(pending := n.pending[k := n.pending[k].(stage := Reading)])
  }

  /** The whole file has been read, or could not be; from here on nothing waits. */
  function AfterRead(m: Import, k: nat, reply: Reply): Import
    requires k < |m.pending|
  {
    var o := m.pending[k];
    if reply == ReadFailed then Ends(m, k, Failed)
    else if IsDropped(m, o) then Ends(WithBuffers(m, 1), k, Dropped)
    else if reply == Changed || reply == NotDecrypted then Ends(WithBuffers(m, 1), k, Failed)
    else
      // A decrypted list is a buffer of its own; a plaintext one is the file's.
      var n := WithBuffers(m, if o.encrypted then 2 else 1);
      if reply == NotAList then Ends(n, k, Failed)
      else Ends(n.(list := Some(n.lists), lists := n.lists + 1), k, Opened(n.lists))
  }

  datatype Event =
    | Open(encrypted: bool, sizeRefused: bool)
    | Inspected(k: nat, read: bool, accepted: bool)
    | Read(k: nat, reply: Reply)
    | Remove
    | Finish
    | ShowKey

  function Next(m: Import, e: Event): Import
  {
    match e
    case Open(encrypted, sizeRefused) => Begin(m, encrypted, sizeRefused)
    case Inspected(k, read, accepted) =>
      if k < |m.pending| && m.pending[k].stage == Inspecting then AfterInspect(m, k, read, accepted) else m
    case Read(k, reply) =>
      if k < |m.pending| && m.pending[k].stage == Reading then AfterRead(m, k, reply) else m
    case Remove => Clear(m)
    case Finish => EndAll(m)
    case ShowKey => Recipient(m)
  }

  function After(events: seq<Event>): Import
  {
    if events == [] then CLOSED else Next(After(events[..|events| - 1]), events[|events| - 1])
  }

  // ---------- What every event keeps ----------

  /** Every list and every page key is held or was freed: one of the two, and once. */
  predicate FreedOnce(m: Import)
  {
    && multiset(m.freed) + multiset(Held(m.list)) == Upto(m.lists)
    && multiset(m.freedSessions) + multiset(Held(m.session)) == Upto(m.sessions)
  }

  /** Every buffer was wiped. */
  predicate AllWiped(m: Import) { m.wiped == Numbers(m.buffers) }

  function Numbers(n: nat): set<nat> { if n == 0 then {} else Numbers(n - 1) + {n - 1} }

  function Ids(pending: seq<Opening>): (r: seq<nat>)
    ensures |r| == |pending| && forall i | 0 <= i < |r| :: r[i] == pending[i].id
  {
    seq(|pending|, i requires 0 <= i < |pending| => pending[i].id)
  }

  function EndedIds(ended: seq<(nat, Outcome)>): (r: seq<nat>)
    ensures |r| == |ended| && forall i | 0 <= i < |r| :: r[i] == ended[i].0
  {
    seq(|ended|, i requires 0 <= i < |ended| => ended[i].0)
  }

  /** Every open is pending or has ended: one of the two, and once. */
  predicate AnsweredOnce(m: Import)
  {
    multiset(EndedIds(m.ended)) + multiset(Ids(m.pending)) == Upto(m.opens)
  }

  /** At most one pending open is current, and while one is, no list is held. */
  predicate OneCurrent(m: Import)
  {
    && (forall i | 0 <= i < |m.pending| :: m.pending[i].generation <= m.generation)
    && (forall i, j | 0 <= i < j < |m.pending| :: m.pending[i].generation != m.pending[j].generation)
    && ((exists i :: 0 <= i < |m.pending| && m.pending[i].generation == m.generation) ==> m.list == None)
  }

  predicate Good(m: Import) { FreedOnce(m) && AllWiped(m) && AnsweredOnce(m) && OneCurrent(m) }

  lemma ClearKeepsGood(m: Import)
    requires Good(m)
    ensures Good(Clear(m)) && Good(EndAll(m)) && forall o | o in m.pending :: IsDropped(Clear(m), o)
  {
  }

  lemma OneMore(ids: seq<nat>, others: multiset<nat>, id: nat)
    ensures multiset(ids + [id]) + others == multiset(ids) + others + multiset{id}
    ensures others + multiset(ids + [id]) == others + multiset(ids) + multiset{id}
  {
  }

  lemma EndsAtOnce(c: Import)
    requires AnsweredOnce(c)
    ensures AnsweredOnce(c.(opens := c.opens + 1, ended := c.ended + [(c.opens, Failed)]))
  {
    hide Upto;
    UptoNext(c.opens);
    assert EndedIds(c.ended + [(c.opens, Failed)]) == EndedIds(c.ended) + [c.opens];
    OneMore(EndedIds(c.ended), multiset(Ids(c.pending)), c.opens);
  }

  lemma StartsToWait(c: Import, o: Opening)
    requires AnsweredOnce(c) && o.id == c.opens
    ensures AnsweredOnce(c.(opens := c.opens + 1, pending := c.pending + [o]))
  {
    hide Upto;
    UptoNext(c.opens);
    assert Ids(c.pending + [o]) == Ids(c.pending) + [o.id];
    OneMore(Ids(c.pending), multiset(EndedIds(c.ended)), c.opens);
  }

  lemma BeginKeepsGood(m: Import, encrypted: bool, sizeRefused: bool)
    requires Good(m)
    ensures Good(Begin(m, encrypted, sizeRefused))
  {
    hide AnsweredOnce, OneCurrent, FreedOnce, AllWiped;
    var c, b := Clear(m), Begin(m, encrypted, sizeRefused);
    ClearKeepsGood(m);
    SameParts(c, b);
    if !encrypted && sizeRefused {
      EndsAtOnce(c);
      SameOpens(c, b);
    } else {
      StartsToWait(c, b.pending[|c.pending|]);
      NewestIsCurrent(m, b);
    }
  }

  lemma SameParts(a: Import, b: Import)
    requires a.freed == b.freed && a.list == b.list && a.lists == b.lists && a.wiped == b.wiped && a.buffers == b.buffers
    requires a.freedSessions == b.freedSessions && a.session == b.session && a.sessions == b.sessions
    ensures FreedOnce(a) == FreedOnce(b) && AllWiped(a) == AllWiped(b)
  {
  }

  lemma SameOpens(a: Import, b: Import)
    requires a.pending == b.pending && a.generation == b.generation && a.list == b.list
    ensures OneCurrent(a) == OneCurrent(b)
  {
  }

  lemma NewestIsCurrent(m: Import, b: Import)
    requires OneCurrent(m) && b.generation == m.generation + 1 && b.list == None
    requires |b.pending| == |m.pending| + 1 && b.pending[..|m.pending|] == m.pending
    requires b.pending[|m.pending|].generation == b.generation
    ensures OneCurrent(b)
  {
    assert forall i | 0 <= i < |m.pending| :: b.pending[i] == b.pending[..|m.pending|][i];
  }

  lemma {:induction false} BuffersAreWiped(m: Import, count: nat)
    requires AllWiped(m)
    ensures AllWiped(WithBuffers(m, count))
    ensures WithBuffers(m, count) == m.(buffers := m.buffers + count, wiped := WithBuffers(m, count).wiped)
    decreases count
  {
    if count > 0 {
      BuffersAreWiped(m.(buffers := m.buffers + 1, wiped := m.wiped + {m.buffers}), count - 1);
    }
  }

  lemma MovesToEnded(ended: seq<nat>, a: seq<nat>, id: nat, c: seq<nat>)
    ensures multiset(ended + [id]) + multiset(a + c) == multiset(ended) + multiset(a + [id] + c)
  {
    assert multiset(a + [id] + c) == multiset(a) + multiset{id} + multiset(c);
  }

  lemma EndsKeepsAnswers(m: Import, k: nat, outcome: Outcome)
    requires AnsweredOnce(m) && k < |m.pending|
    ensures AnsweredOnce(Ends(m, k, outcome))
  {
    hide Upto;
    var e, ids, id := Ends(m, k, outcome), Ids(m.pending), m.pending[k].id;
    assert ids == ids[..k] + [id] + ids[k + 1..];
    assert Ids(e.pending) == ids[..k] + ids[k + 1..];
    assert EndedIds(e.ended) == EndedIds(m.ended) + [id];
    MovesToEnded(EndedIds(m.ended), ids[..k], id, ids[k + 1..]);
  }

  lemma EndsKeepsOthers(m: Import, k: nat, outcome: Outcome)
    requires OneCurrent(m) && k < |m.pending|
    ensures OneCurrent(Ends(m, k, outcome))
    ensures m.pending[k].generation == m.generation ==>
              forall i | 0 <= i < |m.pending| - 1 :: Without(m.pending, k)[i].generation != m.generation
  {
    assert forall i | 0 <= i < |m.pending| - 1 :: Without(m.pending, k)[i] == m.pending[if i < k then i else i + 1];
  }

  lemma EndsKeepsGood(m: Import, k: nat, outcome: Outcome)
    requires Good(m) && k < |m.pending|
    ensures Good(Ends(m, k, outcome))
  {
    hide AnsweredOnce, OneCurrent;
    EndsKeepsAnswers(m, k, outcome);
    EndsKeepsOthers(m, k, outcome);
  }

  lemma InspectKeepsGood(m: Import, k: nat, read: bool, accepted: bool)
    requires Good(m) && k < |m.pending|
    ensures Good(AfterInspect(m, k, read, accepted))
  {
    hide FreedOnce, AllWiped, AnsweredOnce, OneCurrent, WithBuffers, Ends;
    GoodWithBuffers(m, 1);
    var n := if read then WithBuffers(m, 1) else m;
    EndsKeepsGood(n, k, Failed);
    EndsKeepsGood(n, k, Dropped);
    ReadsOn(n, k);
  }

  lemma ReadsOn(m: Import, k: nat)
    requires Good(m) && k < |m.pending|
    ensures Good(m.(pending := m.pending[k := m.pending[k].(stage := Reading)]))
  {
    var n := m.(pending := m.pending[k := m.pending[k].(stage := Reading)]);
    assert Ids(n.pending) == Ids(m.pending);
    assert forall i | 0 <= i < |m.pending| :: n.pending[i].generation == m.pending[i].generation;
  }

  /** A current open that reads a list keeps it; nothing was held, so nothing is lost. */
  lemma KeepsGood(m: Import, k: nat)
    requires Good(m) && k < |m.pending| && !IsDropped(m, m.pending[k])
    ensures m.list == None
    ensures Good(Ends(m.(list := Some(m.lists), lists := m.lists + 1), k, Opened(m.lists)))
  {
    hide Upto, Numbers;
    var n := m.(list := Some(m.lists), lists := m.lists + 1);
    UptoNext(m.lists);
    assert m.pending[k].generation == m.generation;
    EndsKeepsOthers(m, k, Opened(m.lists));
    EndsKeepsAnswers(n, k, Opened(m.lists));
    assert multiset(m.freed) + multiset([]) == multiset(m.freed);
  }

  lemma ReadKeepsGood(m: Import, k: nat, reply: Reply)
    requires Good(m) && k < |m.pending|
    ensures Good(AfterRead(m, k, reply))
  {
    hide FreedOnce, AnsweredOnce, OneCurrent, AllWiped;
    var o := m.pending[k];
    GoodWithBuffers(m, 1);
    GoodWithBuffers(m, 2);
    EndsKeepsGood(m, k, Failed);
    EndsKeepsGood(WithBuffers(m, 1), k, Dropped);
    EndsKeepsGood(WithBuffers(m, 1), k, Failed);
    var n := WithBuffers(m, if o.encrypted then 2 else 1);
    EndsKeepsGood(n, k, Failed);
    if !IsDropped(m, o) {
      KeepsGood(n, k);
    }
  }

  lemma GoodWithBuffers(m: Import, count: nat)
    requires Good(m)
    ensures Good(WithBuffers(m, count)) && WithBuffers(m, count).pending == m.pending
    ensures WithBuffers(m, count).generation == m.generation
  {
    BuffersAreWiped(m, count);
  }

  /**
   * In every interleaving of opens, removals and the end of the page: at most one list is held, every
   * list and key is held or freed exactly once, every buffer is wiped, every open is answered once.
   */
  lemma {:induction false} EveryRunIsGood(events: seq<Event>)
    ensures Good(After(events))
  {
    if events != [] {
      var m, e := After(events[..|events| - 1]), events[|events| - 1];
      EveryRunIsGood(events[..|events| - 1]);
      NextKeepsGood(m, e);
    }
  }

  lemma NextKeepsGood(m: Import, e: Event)
    requires Good(m)
    ensures Good(Next(m, e))
  {
    hide Good;
    match e
    case Open(encrypted, sizeRefused) => BeginKeepsGood(m, encrypted, sizeRefused);
    case Inspected(k, read, accepted) =>
      if k < |m.pending| && m.pending[k].stage == Inspecting {
        InspectKeepsGood(m, k, read, accepted);
      }
    case Read(k, reply) =>
      if k < |m.pending| && m.pending[k].stage == Reading {
        ReadKeepsGood(m, k, reply);
      }
    case Remove => ClearKeepsGood(m);
    case Finish => ClearKeepsGood(m);
    case ShowKey => RecipientKeepsGood(m);
  }

  lemma RecipientKeepsGood(m: Import)
    requires Good(m)
    ensures Good(Recipient(m))
  {
    hide Upto, Numbers;
    UptoNext(m.sessions);
    assert multiset(m.freedSessions) + multiset([]) == multiset(m.freedSessions);
  }

  /** A superseded open keeps nothing and reports nothing, whatever its file turns out to be. */
  lemma SupersededOpenKeepsNothing(m: Import, e: Event)
    requires (e.Inspected? || e.Read?) && e.k < |m.pending| && IsDropped(m, m.pending[e.k])
    ensures var n := Next(m, e);
            && n.list == m.list && n.lists == m.lists && n.freed == m.freed && n.generation == m.generation
            && (|n.ended| > |m.ended| ==> n.ended == m.ended + [(m.pending[e.k].id, Dropped)])
  {
    BuffersAreIrrelevant(m);
  }

  lemma BuffersAreIrrelevant(m: Import)
    ensures forall n: nat :: n <= 2 ==>
              var w := WithBuffers(m, n);
              w.list == m.list && w.lists == m.lists && w.freed == m.freed && w.generation == m.generation
              && w.pending == m.pending && w.ended == m.ended
  {
    var one := WithBuffers(m, 1);
    assert WithBuffers(m, 2) == WithBuffers(m.(buffers := m.buffers + 1, wiped := m.wiped + {m.buffers}), 1);
  }

  lemma OthersDoNotOpen(m: Import, e: Event)
    requires !e.Read? && |Next(m, e).ended| > |m.ended|
    ensures !Next(m, e).ended[|m.ended|].1.Opened?
  {
    hide WithBuffers;
    BuffersAreIrrelevant(m);
  }

  lemma ReadsOpen(m: Import, k: nat, reply: Reply)
    requires k < |m.pending|
    ensures var n := AfterRead(m, k, reply);
            && |n.ended| == |m.ended| + 1
            && (n.ended[|m.ended|].1.Opened? ==>
                  !IsDropped(m, m.pending[k]) && n.ended[|m.ended|].1 == Opened(m.lists) && n.list == Some(m.lists))
  {
    hide WithBuffers;
    BuffersAreIrrelevant(m);
  }

  /** An open that reports a list was current, found no list held, and holds that list now. */
  lemma OpenedListIsHeld(m: Import, e: Event, list: nat)
    requires Good(m) && |Next(m, e).ended| > |m.ended| && Next(m, e).ended[|m.ended|].1 == Opened(list)
    ensures e.Read? && e.k < |m.pending| && !IsDropped(m, m.pending[e.k])
    ensures m.list == None && list == m.lists && Next(m, e).list == Some(list)
  {
    hide FreedOnce, AllWiped, AnsweredOnce, AfterRead, AfterInspect, Begin;
    if e.Read? {
      ReadsOpen(m, e.k, e.reply);
      assert m.pending[e.k].generation == m.generation;
    } else {
      OthersDoNotOpen(m, e);
    }
  }

  /** Which step takes an open on, and how it ends: the current one goes on or is refused, a superseded one is dropped. */
  lemma HeadDecides(m: Import, k: nat, read: bool, accepted: bool)
    requires k < |m.pending| && m.pending[k].stage == Inspecting
    ensures var n, o := Next(m, Inspected(k, read, accepted)), m.pending[k];
            && n.list == m.list && n.lists == m.lists && n.freed == m.freed && n.generation == m.generation
            && if o.generation == m.generation && read && accepted then
                 n.pending == m.pending[k := o.(stage := Reading)] && n.ended == m.ended
               else
                 && n.pending == m.pending[..k] + m.pending[k + 1..]
                 && n.ended == m.ended + [(o.id, if o.generation == m.generation then Failed else Dropped)]
  {
    BuffersAreIrrelevant(m);
    hide WithBuffers;
  }

  /** A read body ends its open: a current one that holds candidates keeps that list, any other current one is refused. */
  lemma BodyDecides(m: Import, k: nat, reply: Reply)
    requires k < |m.pending| && m.pending[k].stage == Reading
    ensures var n, o := Next(m, Read(k, reply)), m.pending[k];
            && n.pending == m.pending[..k] + m.pending[k + 1..] && n.generation == m.generation && n.freed == m.freed
            && if o.generation == m.generation && reply == Candidates then
                 n.list == Some(m.lists) && n.lists == m.lists + 1 && n.ended == m.ended + [(o.id, Opened(m.lists))]
               else
                 && n.list == m.list && n.lists == m.lists
                 && n.ended == m.ended + [(o.id, if o.generation == m.generation then Failed else Dropped)]
  {
    BuffersAreIrrelevant(m);
    hide WithBuffers;
  }

  /** The events of an open that nothing disturbs. */
  function Undisturbed(k: nat, encrypted: bool, reply: Reply): seq<Event>
  {
    [Open(encrypted, false)] + (if encrypted then [Inspected(k, true, true)] else []) + [Read(k, reply)]
  }

  /**
   * An open that nothing disturbs frees the list before it, and then holds the list of a good file
   * or, when the file is not one, none.
   */
  lemma UndisturbedOpen(events: seq<Event>, encrypted: bool, reply: Reply)
    ensures var m := After(events);
            var n := After(events + Undisturbed(|m.pending|, encrypted, reply));
            && n.freed == m.freed + Held(m.list) && n.pending == m.pending
            && if reply == Candidates then
                 n.list == Some(m.lists) && n.ended == m.ended + [(m.opens, Opened(m.lists))]
               else
                 n.list == None && n.ended == m.ended + [(m.opens, Failed)]
  {
    var m := After(events);
    var k := |m.pending|;
    AfterOneMore(events, Open(encrypted, false));
    var started := events + [Open(encrypted, false)];
    Starts(m, encrypted);
    hide AfterInspect, AfterRead, Begin;
    if encrypted {
      HeadDecides(After(started), k, true, true);
      AfterOneMore(started, Inspected(k, true, true));
      var inspected := started + [Inspected(k, true, true)];
      BodyDecides(After(inspected), k, reply);
      AfterOneMore(inspected, Read(k, reply));
      assert events + Undisturbed(k, encrypted, reply) == inspected + [Read(k, reply)];
    } else {
      BodyDecides(After(started), k, reply);
      AfterOneMore(started, Read(k, reply));
      assert events + Undisturbed(k, encrypted, reply) == started + [Read(k, reply)];
    }
  }

  lemma AfterOneMore(events: seq<Event>, e: Event)
    ensures After(events + [e]) == Next(After(events), e)
  {
    assert (events + [e])[..|events|] == events;
  }

  lemma Starts(m: Import, encrypted: bool)
    ensures var n := Next(m, Open(encrypted, false));
            && n.pending == m.pending + [Opening(m.opens, n.generation, encrypted, if encrypted then Inspecting else Reading)]
            && n.list == None && n.freed == m.freed + Held(m.list) && n.lists == m.lists && n.ended == m.ended
  {
  }

  /**
   * Removing the list, leaving the page and opening another file free the list that was held and
   * supersede every open under way; leaving the page also frees its key.
   */
  lemma ListIsFreed(events: seq<Event>, e: Event)
    requires e.Remove? || e.Finish? || e.Open?
    ensures var m, n := After(events), After(events + [e]);
            && n.list == None && n.freed == (if m.list.Some? then m.freed + [m.list.value] else m.freed)
            && m.pending <= n.pending && (forall o | o in m.pending :: o.generation != n.generation)
            && if e.Finish? && m.session.Some? then n.session == None && n.freedSessions == m.freedSessions + [m.session.value]
               else n.session == m.session && n.freedSessions == m.freedSessions
  {
    hide Good, After, Next;
    AfterOneMore(events, e);
    EveryRunIsGood(events);
    FreesList(After(events), e);
  }

  lemma FreesList(m: Import, e: Event)
    requires Good(m) && (e.Remove? || e.Finish? || e.Open?)
    ensures var n := Next(m, e);
            && n.list == None && n.freed == (if m.list.Some? then m.freed + [m.list.value] else m.freed)
            && m.pending <= n.pending && (forall o | o in m.pending :: o.generation != n.generation)
            && if e.Finish? && m.session.Some? then n.session == None && n.freedSessions == m.freedSessions + [m.session.value]
               else n.session == m.session && n.freedSessions == m.freedSessions
  {
    ClearSupersedes(m);
    FreesHeld(m);
    hide Good, AfterInspect, AfterRead, Clear, EndAll, Held;
    if e.Open? {
      BeginIs(m, e.encrypted, e.sizeRefused);
      hide Begin;
    }
  }

  lemma FreesHeld(m: Import)
    ensures Clear(m) == m.(generation := m.generation + 1, list := None,
                           freed := if m.list.Some? then m.freed + [m.list.value] else m.freed)
    ensures EndAll(m) == Clear(m).(session := None, freedSessions := if m.session.Some? then m.freedSessions + [m.session.value]
                                                                     else m.freedSessions)
  {
  }

  lemma BeginIs(m: Import, encrypted: bool, sizeRefused: bool)
    ensures var b, c := Begin(m, encrypted, sizeRefused), Clear(m);
            c.pending <= b.pending && b == c.(opens := b.opens, ended := b.ended, pending := b.pending)
  {
    hide Clear;
  }

  lemma ClearSupersedes(m: Import)
    requires Good(m)
    ensures forall o | o in m.pending :: o.generation != m.generation + 1
  {
    hide FreedOnce, AllWiped, AnsweredOnce;
  }

  /** The page's key is made once and then kept. */
  lemma PageKeyIsKept(events: seq<Event>)
    ensures var m, n := After(events), After(events + [ShowKey]);
            && n == m.(session := n.session, sessions := n.sessions)
            && if m.session.Some? then n == m else n.session == Some(m.sessions) && n.sessions == m.sessions + 1
  {
    AfterOneMore(events, ShowKey);
  }

  // ---------- The import as it runs ----------

  class CandidateListImport {
    var generation: nat
    var list: Option<nat>
    var session: Option<nat>
    var lists: nat
    var freed: seq<nat>
    var sessions: nat
    var freedSessions: seq<nat>
    var buffers: nat
    var wiped: set<nat>
    var opens: nat
    var pending: seq<Opening>
    var ended: seq<(nat, Outcome)>

    ghost function Value(): Import
      reads this
    {
      Import(generation, list, session, lists, freed, sessions, freedSessions, buffers, wiped, opens, pending, ended)
    }

    constructor ()
      ensures Value() == CLOSED
    {
      generation, list, session, lists, freed, sessions := 0, None, None, 0, [], 0;
      freedSessions, buffers, wiped, opens, pending, ended := [], 0, {}, 0, [], [];
    }

    /** `clear`. */
    method RemoveList()
      modifies this
      ensures Value() == Clear(old(Value()))
    {
      generation := generation + 1;
      if list.Some? {
        freed := freed + [list.value];
      }
      list := None;
      assert freed == old(freed) + Held(old(list));
    }

    /** `end`. */
    method EndPage()
      modifies this
      ensures Value() == EndAll(old(Value()))
    {
      RemoveList();
      if session.Some? {
        freedSessions := freedSessions + [session.value];
      }
      session := None;
      assert freedSessions == old(freedSessions) + Held(old(session));
    }

    /** `recipient`. */
    method PageKey() returns (key: nat)
      modifies this
      ensures Value() == Recipient(old(Value())) && session == Some(key)
    {
      if session.None? {
        session := Some(sessions);
        sessions := sessions + 1;
      }
      return session.value;
    }

    method Wiped(count: nat)
      modifies this
      ensures Value() == WithBuffers(old(Value()), count)
      decreases count
    {
      if count > 0 {
        wiped := wiped + {buffers};
        buffers := buffers + 1;
        Wiped(count - 1);
      }
    }

    method Return(k: nat, outcome: Outcome)
      requires k < |pending|
      modifies this
      ensures Value() == Ends(old(Value()), k, outcome)
    {
      var o := pending[k];
      ended := ended + [(o.id, if o.generation != generation then Dropped else outcome)];
      pending := pending[..k] + pending[k + 1..];
    }

    /** `#open`, up to its first wait. */
    method StartOpen(encrypted: bool, sizeRefused: bool)
      modifies this
      ensures Value() == Begin(old(Value()), encrypted, sizeRefused)
    {
      RemoveList();
      var id := opens;
      opens := opens + 1;
      if !encrypted && sizeRefused {
        ended := ended + [(id, Failed)];
        return;
      }
      pending := pending + [Opening(id, generation, encrypted, if encrypted then Inspecting else Reading)];
    }

    /** `#open`, from the head of the file to the read of its body. */
    method OnHead(k: nat, read: bool, accepted: bool)
      requires k < |pending|
      modifies this
      ensures Value() == AfterInspect(old(Value()), k, read, accepted)
    {
      BuffersAreIrrelevant(Value());
      if read {
        Wiped(1);
      }
      if !read || !accepted {
        Return(k, Failed);
        return;
      }
      if pending[k].generation != generation {
        Return(k, Dropped);
        return;
      }
      pending := pending[k := pending[k].(stage := Reading)];
    }

    /** `#open`, from the body of the file to its end. */
    method OnBody(k: nat, reply: Reply)
      requires k < |pending|
      modifies this
      ensures Value() == AfterRead(old(Value()), k, reply)
    {
      BuffersAreIrrelevant(Value());
      var o := pending[k];
      if reply == ReadFailed {
        Return(k, Failed);
        return;
      }
      if o.generation != generation {
        Wiped(1);
        Return(k, Dropped);
        return;
      }
      if reply == Changed || reply == NotDecrypted {
        Wiped(1);
        Return(k, Failed);
        return;
      }
      Wiped(if o.encrypted then 2 else 1);
      if reply == NotAList {
        Return(k, Failed);
        return;
      }
      list := Some(lists);
      lists := lists + 1;
      Return(k, Opened(list.value));
    }
  }
}

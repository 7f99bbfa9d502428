/** The addresses one scan section has asked about: each asked once, counted once, kept by key. */
module Addresses {
  import opened Text
  import opened AddressGap
  import opened KeyOrder

  /** The coin's side of a book. */
  datatype Source<!State> = Source(key: string -> string, balance: State -> int, used: State -> bool)

  datatype Totals = Totals(balance: int, used: nat, funded: nat)

  /** What a book holds: the texts asked, in order, the states by key, and the running totals. */
  datatype Book<+State> = Book(asked: seq<string>, states: map<string, State>, totals: Totals)

  // ---------- One lookup ----------

  /** The members of a list, each at its first place. */
  function Firsts(xs: seq<string>): (r: seq<string>)
    ensures forall x :: x in r <==> x in xs
  {
    if xs == [] then []
    else
      var front, last := xs[..|xs| - 1], xs[|xs| - 1];
      assert xs == front + [last];
      if last in front then Firsts(front) else Firsts(front) + [last]
  }

  /** Those of `texts` whose key has no state yet. */
  function Unasked<State>(texts: seq<string>, states: map<string, State>, key: string -> string): (r: seq<string>)
    ensures forall x :: x in r <==> x in texts && key(x) !in states
  {
    if texts == [] then []
    else
      var front, last := texts[..|texts| - 1], texts[|texts| - 1];
      assert texts == front + [last];
      Unasked(front, states, key) + if key(last) in states then [] else [last]
  }

  function Missing<State>(book: Book<State>, addresses: seq<string>, source: Source<State>): (r: seq<string>)
    ensures forall x :: x in r <==> x in addresses && source.key(x) !in book.states
  {
    Unasked(Firsts(addresses), book.states, source.key)
  }

  function Plus<State>(totals: Totals, state: State, source: Source<State>): Totals
  {
    Totals(totals.balance + source.balance(state),
           totals.used + (if source.used(state) then 1 else 0),
           totals.funded + (if source.balance(state) > 0 then 1 else 0))
  }

  /** The book after one reply for one text. */
  function Counted<State>(book: Book<State>, address: string, state: State, source: Source<State>): Book<State>
  {
    Book(book.asked + [address], book.states[source.key(address) := state], Plus(book.totals, state, source))
  }

  /** The book after the replies for `missing`, in order. */
  function Absorbed<State>(book: Book<State>, missing: seq<string>, replies: seq<State>, source: Source<State>): Book<State>
    requires |missing| == |replies|
  {
    if missing == [] then book
    else
      var last := |missing| - 1;
      Counted(Absorbed(book, missing[..last], replies[..last], source), missing[last], replies[last], source)
  }

  lemma AbsorbedNone<State>(book: Book<State>, source: Source<State>)
    ensures Absorbed(book, [], [], source) == book
  {
  }

  lemma AbsorbedOneMore<State>(book: Book<State>, missing: seq<string>, replies: seq<State>, position: nat, source: Source<State>)
    requires position < |missing| == |replies|
    ensures Absorbed(book, missing[..position + 1], replies[..position + 1], source)
         == Counted(Absorbed(book, missing[..position], replies[..position], source), missing[position], replies[position], source)
  {
    assert missing[..position + 1][..position] == missing[..position];
    assert replies[..position + 1][..position] == replies[..position];
  }

  /** What a provider answers to a request; None is a failed request. */
  type Provider<!State> = seq<string> -> Option<seq<State>>

  /** `#lookUp`: the book after it, or None when it throws. */
  function AfterLookUp<State>(book: Book<State>, addresses: seq<string>, provider: Provider<State>,
                              source: Source<State>): Option<Book<State>>
  {
    var missing := Missing(book, addresses, source);
    if missing == [] then Some(book)
    else match provider(missing)
      case None => None
      case Some(replies) => if |replies| != |missing| then None else Some(Absorbed(book, missing, replies, source))
  }

  /** How often `#lookUp` calls the provider for `addresses`: once, or not at all when nothing is missing. */
  function Requests<State>(book: Book<State>, addresses: seq<string>, source: Source<State>): (n: nat)
    ensures n <= 1
  {
    if Missing(book, addresses, source) == [] then 0 else 1
  }

  predicate Has<State>(book: Book<State>, addresses: seq<string>, source: Source<State>)
  {
    forall i | 0 <= i < |addresses| :: source.key(addresses[i]) in book.states
  }

  /** The states of `addresses`, in their order. */
  function StatesOf<State>(book: Book<State>, addresses: seq<string>, source: Source<State>): (r: seq<State>)
    requires Has(book, addresses, source)
    ensures |r| == |addresses|
  {
    seq(|addresses|, i requires 0 <= i < |addresses| => book.states[source.key(addresses[i])])
  }

  lemma MapOfLast(key: string -> string, texts: seq<string>, last: string)
    ensures Map(key, texts + [last]) == Map(key, texts) + [key(last)]
    ensures Members(Map(key, texts + [last])) == Members(Map(key, texts)) + {key(last)}
  {
  }

  /** The texts asked and the keys held after the replies. */
  lemma {:induction false} AbsorbedStates<State>(book: Book<State>, missing: seq<string>, replies: seq<State>, source: Source<State>)
    requires |missing| == |replies|
    ensures var b := Absorbed(book, missing, replies, source);
            && b.asked == book.asked + missing
            && b.states.Keys == book.states.Keys + Members(Map(source.key, missing))
  {
    hide Map, Members;
    if missing == [] {
      NothingMapped(source.key);
      assert book.asked + missing == book.asked;
    } else {
      var last := |missing| - 1;
      AbsorbedStates(book, missing[..last], replies[..last], source);
      assert missing == missing[..last] + [missing[last]];
      MapOfLast(source.key, missing[..last], missing[last]);
    }
  }

  lemma NothingMapped(key: string -> string)
    ensures Members(Map(key, [])) == {}
  {
  }

  lemma KeyIsMapped(texts: seq<string>, i: nat, key: string -> string)
    requires i < |texts|
    ensures key(texts[i]) in Members(Map(key, texts))
  {
    assert Map(key, texts)[i] == key(texts[i]);
  }

  /** After a lookup every requested address has a state: the omission refusal cannot be reached. */
  lemma LookUpHas<State>(book: Book<State>, addresses: seq<string>, provider: Provider<State>, source: Source<State>)
    requires AfterLookUp(book, addresses, provider, source).Some?
    ensures Has(AfterLookUp(book, addresses, provider, source).value, addresses, source)
  {
    hide Map, Members;
    var missing := Missing(book, addresses, source);
    if missing != [] {
      var replies := provider(missing).value;
      AbsorbedStates(book, missing, replies, source);
      forall i | 0 <= i < |addresses|
        ensures source.key(addresses[i]) in AfterLookUp(book, addresses, provider, source).value.states
      {
        if source.key(addresses[i]) !in book.states {
          assert addresses[i] in missing;
          var k :| 0 <= k < |missing| && missing[k] == addresses[i];
          KeyIsMapped(missing, k, source.key);
        }
      }
    }
  }

  // ---------- Batches ----------

  datatype BatchAddress = BatchAddress(address: string, index: nat)

  datatype Options = Options(includeUsedZeroBalance: bool, maximum: nat)

  datatype Shown<+State> = Shown(derived: BatchAddress, state: State)

  function Texts(chunk: seq<BatchAddress>): (r: seq<string>)
    ensures |r| == |chunk| && forall i | 0 <= i < |chunk| :: r[i] == chunk[i].address
  {
    seq(|chunk|, i requires 0 <= i < |chunk| => chunk[i].address)
  }

  /** The target, extended past each used address of the chunk. */
  function Extended<State>(chunk: seq<BatchAddress>, states: seq<State>, target: nat, options: Options, source: Source<State>): nat
    requires |chunk| == |states|
  {
    if chunk == [] then target
    else
      var last := |chunk| - 1;
      var before := Extended(chunk[..last], states[..last], target, options, source);
      if source.used(states[last]) then ExtendAddressTarget(before, chunk[last].index, options.maximum).0 else before
  }

  /** Whether extending cut a gap short. */
  predicate Cut<State>(chunk: seq<BatchAddress>, states: seq<State>, options: Options, source: Source<State>)
    requires |chunk| == |states|
  {
    exists i | 0 <= i < |chunk| :: source.used(states[i]) && Cuts(chunk[i].index, options.maximum)
  }

  predicate IsShown<State>(state: State, options: Options, source: Source<State>)
  {
    source.balance(state) > 0 || (source.used(state) && options.includeUsedZeroBalance)
  }

  function ShownIf<State>(derived: BatchAddress, state: State, options: Options, source: Source<State>): seq<Shown<State>>
  {
    if IsShown(state, options, source) then [Shown(derived, state)] else []
  }

  /** The addresses to show: the funded ones, and the used empty ones when asked. */
  function Showing<State>(chunk: seq<BatchAddress>, states: seq<State>, options: Options, source: Source<State>): seq<Shown<State>>
    requires |chunk| == |states|
  {
    if chunk == [] then []
    else
      var last := |chunk| - 1;
      Showing(chunk[..last], states[..last], options, source) + ShownIf(chunk[last], states[last], options, source)
  }

  /**
   * `shown` is, in order, what has a balance, and what is used without one when that is asked for:
   * `places[i]` says how many of the first `i` states are shown.
   */
  ghost predicate Lists<State>(places: seq<nat>, shown: seq<Shown<State>>, chunk: seq<BatchAddress>, states: seq<State>,
                               options: Options, source: Source<State>)
    requires |chunk| == |states|
  {
    && |places| == |chunk| + 1 && places[0] == 0 && places[|chunk|] == |shown|
    && forall i {:trigger states[i]} | 0 <= i < |chunk| ::
         if source.balance(states[i]) > 0 || (source.used(states[i]) && options.includeUsedZeroBalance) then
           places[i + 1] == places[i] + 1 && places[i] < |shown| && shown[places[i]] == Shown(chunk[i], states[i])
         else places[i + 1] == places[i]
  }

  lemma {:induction false} ShowingLists<State>(chunk: seq<BatchAddress>, states: seq<State>, options: Options, source: Source<State>)
    returns (places: seq<nat>)
    requires |chunk| == |states|
    ensures Lists(places, Showing(chunk, states, options, source), chunk, states, options, source)
  {
    if chunk == [] {
      places := [0];
    } else {
      hide Lists;
      var last := |chunk| - 1;
      var before := ShowingLists(chunk[..last], states[..last], options, source);
      ListsOneMore(before, Showing(chunk[..last], states[..last], options, source), chunk, states, options, source);
      places := before + [before[last] + |ShownIf(chunk[last], states[last], options, source)|];
    }
  }

  lemma ListsOneMore<State>(before: seq<nat>, shown: seq<Shown<State>>, chunk: seq<BatchAddress>, states: seq<State>,
                            options: Options, source: Source<State>)
    requires chunk != [] && |chunk| == |states|
    requires var last := |chunk| - 1; Lists(before, shown, chunk[..last], states[..last], options, source)
    ensures var last := |chunk| - 1;
            && |before| == |chunk|
            && var one := ShownIf(chunk[last], states[last], options, source);
               Lists(before + [before[last] + |one|], shown + one, chunk, states, options, source)
  {
    var last := |chunk| - 1;
    assert forall i | 0 <= i < last :: chunk[..last][i] == chunk[i] && states[..last][i] == states[i];
  }

  lemma NothingExtends<State>(target: nat, options: Options, source: Source<State>)
    ensures Extended([], [], target, options, source) == target
    ensures Showing([], [], options, source) == [] && !Cut([], [], options, source)
  {
  }

  lemma ShownOneMore<State>(chunk: seq<BatchAddress>, states: seq<State>, position: nat, target: nat, options: Options,
                            source: Source<State>)
    requires position < |chunk| == |states|
    ensures Extended(chunk[..position + 1], states[..position + 1], target, options, source)
         == var before := Extended(chunk[..position], states[..position], target, options, source);
            if source.used(states[position]) then ExtendAddressTarget(before, chunk[position].index, options.maximum).0
            else before
    ensures Showing(chunk[..position + 1], states[..position + 1], options, source)
         == Showing(chunk[..position], states[..position], options, source)
            + ShownIf(chunk[position], states[position], options, source)
  {
    assert chunk[..position + 1][..position] == chunk[..position];
    assert states[..position + 1][..position] == states[..position];
  }

  class AddressBook<State> {
    const source: Source<State>
    const gap: AddressGapTracker
    var states: map<string, State>
    var balance: int
    var used: nat
    var funded: nat
    ghost var asked: seq<string>

    ghost function Value(): Book<State>
      reads this
    {
      Book(asked, states, Totals(balance, used, funded))
    }

    constructor (source: Source<State>)
      ensures this.source == source && fresh(gap) && !gap.truncated
      ensures Value() == Book([], map[], Totals(0, 0, 0))
    {
      this.source := source;
      gap := new AddressGapTracker();
      states, balance, used, funded, asked := map[], 0, 0, 0, [];
    }

    /** `#lookUp`; false when it throws, which leaves the book as it was. `requests` counts provider calls. */
    method LookUp(addresses: seq<string>, provider: Provider<State>) returns (ok: bool, requests: nat)
      modifies this
      ensures requests == Requests(old(Value()), addresses, source)
      ensures var after := AfterLookUp(old(Value()), addresses, provider, source);
              ok == after.Some? && Value() == if ok then after.value else old(Value())
    {
      hide Absorbed, Unasked, Firsts;
      var missing := Unasked(Firsts(addresses), states, source.key);
      AbsorbedNone(old(Value()), source);
      if missing == [] {
        return true, 0;
      }
      var reply := provider(missing);
      requests := 1;
      if reply.None? || |reply.value| != |missing| {
        return false, requests;
      }
      var replies := reply.value;
      for position := 0 to |replies|
        invariant Value() == Absorbed(old(Value()), missing[..position], replies[..position], source)
      {
        AbsorbedOneMore(old(Value()), missing, replies, position, source);
        states := states[source.key(missing[position]) := replies[position]];
        asked := asked + [missing[position]];
        var amount := source.balance(replies[position]);
        balance := balance + amount;
        if source.used(replies[position]) {
          used := used + 1;
        }
        if amount > 0 {
          funded := funded + 1;
        }
      }
      assert missing[..|missing|] == missing && replies[..|missing|] == replies;
      return true, requests;
    }

    /** `states`: the states of `addresses` in their order, only the new ones being asked. */
    method States(addresses: seq<string>, provider: Provider<State>) returns (r: Option<seq<State>>, requests: nat)
      modifies this
      ensures requests == Requests(old(Value()), addresses, source)
      ensures var after := AfterLookUp(old(Value()), addresses, provider, source);
              && r.Some? == after.Some?
              && Value() == (if r.Some? then after.value else old(Value()))
              && (r.Some? ==> Has(after.value, addresses, source) && r.value == StatesOf(after.value, addresses, source))
    {
      var ok, asked := LookUp(addresses, provider);
      requests := asked;
      if !ok {
        return None, requests;
      }
      LookUpHas(old(Value()), addresses, provider, source);
      assert forall i | 0 <= i < |addresses| :: source.key(addresses[i]) in Value().states;
      var found := seq(|addresses|, i requires 0 <= i < |addresses| && source.key(addresses[i]) in states reads this
                                    => states[source.key(addresses[i])]);
      return Some(found), requests;
    }

    /** `batch`: the new target and the addresses to show, or None when the lookup throws. */
    method Batch(chunk: seq<BatchAddress>, start: nat, options: Options, provider: Provider<State>)
      returns (r: Option<(nat, seq<Shown<State>>)>, requests: nat)
      modifies this, gap
      ensures requests == Requests(old(Value()), Texts(chunk), source)
      ensures var after := AfterLookUp(old(Value()), Texts(chunk), provider, source);
              && r.Some? == after.Some?
              && Value() == (if r.Some? then after.value else old(Value()))
              && (r.None? ==> gap.truncated == old(gap.truncated))
              && (r.Some? ==>
                    && Has(after.value, Texts(chunk), source)
                    && var found := StatesOf(after.value, Texts(chunk), source);
                       && r.value == (Extended(chunk, found, start, options, source), Showing(chunk, found, options, source))
                       && (exists places :: Lists(places, r.value.1, chunk, found, options, source))
                       && gap.truncated == (old(gap.truncated) || Cut(chunk, found, options, source)))
    {
      hide AfterLookUp, Requests, Cut, Cuts, StatesOf, Has, Showing, Extended, ExtendAddressTarget, Lists;
      NothingExtends(start, options, source);
      var states, asked := States(Texts(chunk), provider);
      requests := asked;
      if states.None? {
        return None, requests;
      }
      var found, target, shown := states.value, start, [];
      for position := 0 to |chunk|
        invariant Value() == AfterLookUp(old(Value()), Texts(chunk), provider, source).value
        invariant target == Extended(chunk[..position], found[..position], start, options, source)
        invariant shown == Showing(chunk[..position], found[..position], options, source)
        invariant gap.truncated == (old(gap.truncated) || Cut(chunk[..position], found[..position], options, source))
      {
        CutOneMore(chunk, found, position, options, source);
        ShownOneMore(chunk, found, position, start, options, source);
        var state := found[position];
        if source.used(state) {
          target := gap.Extend(target, chunk[position].index, options.maximum);
        }
        if source.balance(state) > 0 || (source.used(state) && options.includeUsedZeroBalance) {
          shown := shown + [Shown(chunk[position], state)];
        }
      }
      assert chunk[..|chunk|] == chunk && found[..|chunk|] == found;
      ghost var places := ShowingLists(chunk, found, options, source);
      assert Lists(places, shown, chunk, found, options, source);
      return Some((target, shown)), requests;
    }
  }

  lemma CutOneMore<State>(chunk: seq<BatchAddress>, states: seq<State>, position: nat, options: Options, source: Source<State>)
    requires position < |chunk| == |states|
    ensures Cut(chunk[..position + 1], states[..position + 1], options, source)
       <==> Cut(chunk[..position], states[..position], options, source)
            || (source.used(states[position]) && Cuts(chunk[position].index, options.maximum))
  {
    var a, s := chunk[..position + 1], states[..position + 1];
    forall i | 0 <= i < position
      ensures a[i] == chunk[..position][i] && s[i] == states[..position][i]
    {
    }
    if source.used(states[position]) && Cuts(chunk[position].index, options.maximum) {
      assert source.used(s[position]) && Cuts(a[position].index, options.maximum);
    }
    if Cut(chunk[..position], states[..position], options, source) {
      var i :| 0 <= i < position && source.used(states[..position][i]) && Cuts(chunk[..position][i].index, options.maximum);
      assert source.used(s[i]) && Cuts(a[i].index, options.maximum);
    }
    if Cut(a, s, options, source) {
      var i :| 0 <= i < |a| && source.used(s[i]) && Cuts(a[i].index, options.maximum);
      if i < position {
        assert source.used(states[..position][i]) && Cuts(chunk[..position][i].index, options.maximum);
      }
    }
  }
}

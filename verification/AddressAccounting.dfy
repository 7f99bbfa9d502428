/** The totals of an address book stay exact over every run of lookups. */
module AddressAccounting {
  import opened Text
  import opened KeyOrder
  import opened Addresses

  /** The sum of the balances under `keys`. */
  function BalanceOf<State>(keys: seq<string>, states: map<string, State>, source: Source<State>): int
    requires Members(keys) <= states.Keys
  {
    if keys == [] then 0
    else BalanceOf(keys[..|keys| - 1], states, source) + source.balance(states[keys[|keys| - 1]])
  }

  /** The keys whose state has a property. */
  function KeysWith<State>(states: map<string, State>, p: State -> bool): set<string>
  {
    set k | k in states && p(states[k])
  }

  function Funded<State>(source: Source<State>): State -> bool { (s: State) => source.balance(s) > 0 }

  /**
   * Each distinct key was asked once, the cache holds exactly those keys, the balance is the sum over
   * them, and the counts are how many of the cached states were used and hold funds.
   */
  predicate Exact<State>(book: Book<State>, source: Source<State>)
  {
    var keys := Map(source.key, book.asked);
    && Distinct(keys)
    && book.states.Keys == Members(keys)
    && book.totals.balance == BalanceOf(keys, book.states, source)
    && book.totals.used == |KeysWith(book.states, source.used)|
    && book.totals.funded == |KeysWith(book.states, Funded(source))|
  }

  lemma {:induction false} BalanceIgnoresOthers<State>(keys: seq<string>, states: map<string, State>, k: string, s: State,
                                                       source: Source<State>)
    requires Members(keys) <= states.Keys && k !in keys
    ensures Members(keys) <= states[k := s].Keys
    ensures BalanceOf(keys, states[k := s], source) == BalanceOf(keys, states, source)
  {
    if keys != [] {
      BalanceIgnoresOthers(keys[..|keys| - 1], states, k, s, source);
    }
  }

  /** A new key is counted exactly when its state has the property. */
  lemma CountOfOneMore<State>(states: map<string, State>, k: string, s: State, p: State -> bool)
    requires k !in states
    ensures |KeysWith(states[k := s], p)| == |KeysWith(states, p)| + (if p(s) then 1 else 0)
  {
    var before, after := KeysWith(states, p), KeysWith(states[k := s], p);
    if p(s) {
      assert after == before + {k};
    } else {
      assert after == before;
    }
  }

  lemma OneMoreKey(keys: seq<string>, k: string)
    requires Distinct(keys) && k !in keys
    ensures Distinct(keys + [k]) && Members(keys + [k]) == Members(keys) + {k}
  {
  }

  lemma BalanceOfLast<State>(keys: seq<string>, k: string, states: map<string, State>, source: Source<State>)
    requires Members(keys) <= states.Keys && Members(keys + [k]) <= states.Keys && k in states
    ensures BalanceOf(keys + [k], states, source) == BalanceOf(keys, states, source) + source.balance(states[k])
  {
    assert (keys + [k])[..|keys|] == keys;
  }

  /** One reply for a new key keeps the book exact. */
  lemma CountedIsExact<State>(book: Book<State>, address: string, state: State, source: Source<State>)
    requires Exact(book, source) && source.key(address) !in book.states
    ensures Exact(Counted(book, address, state, source), source)
  {
    hide Distinct, BalanceOf, KeysWith;
    var keys, k := Map(source.key, book.asked), source.key(address);
    MapOfLast(source.key, book.asked, address);
    OneMoreKey(keys, k);
    var states := book.states[k := state];
    assert states.Keys == Members(keys + [k]);
    BalanceIgnoresOthers(keys, book.states, k, state, source);
    BalanceOfLast(keys, k, states, source);
    CountOfOneMore(book.states, k, state, source.used);
    CountOfOneMore(book.states, k, state, Funded(source));
  }

  lemma FrontIsDistinct(keys: seq<string>, k: string)
    requires Distinct(keys + [k])
    ensures Distinct(keys) && k !in keys
  {
    var longer := keys + [k];
    forall i, j | 0 <= i < j < |keys| ensures keys[i] != keys[j] {
      assert longer[i] != longer[j];
    }
    forall i | 0 <= i < |keys| ensures keys[i] != k {
      assert longer[i] != longer[|keys|];
    }
  }

  lemma LastKeyIsNew(front: seq<string>, text: string, key: string -> string)
    requires Distinct(Map(key, front + [text]))
    ensures Distinct(Map(key, front)) && key(text) !in Members(Map(key, front))
  {
    MapOfLast(key, front, text);
    FrontIsDistinct(Map(key, front), key(text));
  }

  /** Absorbing replies for texts with new and different keys keeps the book exact. */
  lemma {:induction false} AbsorbedIsExact<State>(book: Book<State>, missing: seq<string>, replies: seq<State>,
                                                  source: Source<State>)
    requires |missing| == |replies| && Exact(book, source)
    requires Distinct(Map(source.key, missing)) && Members(Map(source.key, missing)) !! book.states.Keys
    ensures Exact(Absorbed(book, missing, replies, source), source)
  {
    if missing != [] {
      hide Exact, Distinct, Map;
      var last := |missing| - 1;
      var front, text := missing[..last], missing[last];
      assert missing == front + [text];
      LastKeyIsNew(front, text, source.key);
      MapOfLast(source.key, front, text);
      hide Members;
      AbsorbedIsExact(book, front, replies[..last], source);
      AbsorbedStates(book, front, replies[..last], source);
      CountedIsExact(Absorbed(book, front, replies[..last], source), text, replies[last], source);
    }
  }

  /** Texts asked with equal keys were asked twice for one key. */
  lemma EqualKeysAreNotExact<State>(book: Book<State>, missing: seq<string>, replies: seq<State>, source: Source<State>)
    requires |missing| == |replies| && !Distinct(Map(source.key, missing))
    ensures !Exact(Absorbed(book, missing, replies, source), source)
  {
    hide Map, Distinct, BalanceOf, KeysWith;
    AbsorbedStates(book, missing, replies, source);
    MapOfBoth(source.key, book.asked, missing);
    RepeatInTail(Map(source.key, book.asked), Map(source.key, missing));
  }

  lemma MapOfBoth(key: string -> string, a: seq<string>, b: seq<string>)
    ensures Map(key, a + b) == Map(key, a) + Map(key, b)
  {
  }

  lemma RepeatInTail(a: seq<string>, b: seq<string>)
    requires !Distinct(b)
    ensures !Distinct(a + b)
  {
    var i, j :| 0 <= i < j < |b| && b[i] == b[j];
    assert (a + b)[|a| + i] == (a + b)[|a| + j];
  }

  lemma NewKeys<State>(book: Book<State>, addresses: seq<string>, source: Source<State>)
    ensures Members(Map(source.key, Missing(book, addresses, source))) !! book.states.Keys
  {
    var missing := Missing(book, addresses, source);
    forall k | k in Members(Map(source.key, missing)) ensures k !in book.states {
      var i :| 0 <= i < |missing| && Map(source.key, missing)[i] == k;
      assert missing[i] in missing;
    }
  }

  /** A lookup keeps the totals exact exactly when the texts it has to ask have different keys. */
  lemma LookUpIsExact<State>(book: Book<State>, addresses: seq<string>, provider: Provider<State>, source: Source<State>)
    requires Exact(book, source) && AfterLookUp(book, addresses, provider, source).Some?
    ensures Exact(AfterLookUp(book, addresses, provider, source).value, source)
       <==> Distinct(Map(source.key, Missing(book, addresses, source)))
  {
    var missing := Missing(book, addresses, source);
    if missing != [] {
      var replies := provider(missing).value;
      NewKeys(book, addresses, source);
      if Distinct(Map(source.key, missing)) {
        AbsorbedIsExact(book, missing, replies, source);
      } else {
        EqualKeysAreNotExact(book, missing, replies, source);
      }
    }
  }

  /** Within one request, equal keys mean equal text. */
  predicate OneTextPerKey(addresses: seq<string>, key: string -> string)
  {
    forall i, j | 0 <= i < |addresses| && 0 <= j < |addresses| ::
      key(addresses[i]) == key(addresses[j]) ==> addresses[i] == addresses[j]
  }

  lemma {:induction false} FirstsAreDistinct(xs: seq<string>)
    ensures Distinct(Firsts(xs))
  {
    if xs != [] {
      FirstsAreDistinct(xs[..|xs| - 1]);
    }
  }

  lemma {:induction false} UnaskedAreDistinct<State>(texts: seq<string>, states: map<string, State>, key: string -> string)
    requires Distinct(texts)
    ensures Distinct(Unasked(texts, states, key))
  {
    if texts != [] {
      var front, last := texts[..|texts| - 1], texts[|texts| - 1];
      UnaskedAreDistinct(front, states, key);
      assert last !in front;
    }
  }

  lemma MissingHaveDifferentKeys<State>(book: Book<State>, addresses: seq<string>, source: Source<State>)
    requires OneTextPerKey(addresses, source.key)
    ensures Distinct(Map(source.key, Missing(book, addresses, source)))
  {
    FirstsAreDistinct(addresses);
    UnaskedAreDistinct(Firsts(addresses), book.states, source.key);
    var missing := Missing(book, addresses, source);
    forall i, j | 0 <= i < j < |missing|
      ensures source.key(missing[i]) != source.key(missing[j])
    {
      assert missing[i] in addresses && missing[j] in addresses;
    }
  }

  // ---------- Whole runs ----------

  datatype Call<!State> = Call(addresses: seq<string>, provider: Provider<State>)

  /** The book after a run of lookups; one that throws leaves it as it was. */
  function Run<State>(book: Book<State>, calls: seq<Call<State>>, source: Source<State>): Book<State>
  {
    if calls == [] then book
    else
      var last := calls[|calls| - 1];
      var before := Run(book, calls[..|calls| - 1], source);
      match AfterLookUp(before, last.addresses, last.provider, source)
      case None => before
      case Some(after) => after
  }

  /**
   * Over every run in which each request spells an address in one way, whatever the provider
   * replies, every distinct key is asked once and the totals are the sums over the distinct keys.
   */
  lemma {:induction false} EveryRunIsExact<State>(calls: seq<Call<State>>, source: Source<State>)
    requires forall i | 0 <= i < |calls| :: OneTextPerKey(calls[i].addresses, source.key)
    ensures Exact(Run(Book([], map[], Totals(0, 0, 0)), calls, source), source)
  {
    if calls != [] {
      var front, last := calls[..|calls| - 1], calls[|calls| - 1];
      EveryRunIsExact(front, source);
      var before := Run(Book([], map[], Totals(0, 0, 0)), front, source);
      if AfterLookUp(before, last.addresses, last.provider, source).Some? {
        MissingHaveDifferentKeys(before, last.addresses, source);
        LookUpIsExact(before, last.addresses, last.provider, source);
      }
    }
  }

  /** Texts whose keys agree but whose spelling does not are both asked and both counted. */
  lemma TwoSpellingsCountTwice(source: Source<int>)
    requires source.key("0xA") == source.key("0xa") == "0xa" && source.balance(5) == 5
    ensures var provider: Provider<int> := (texts: seq<string>) => Some(seq(|texts|, (i: nat) => 5));
            var book := AfterLookUp(Book([], map[], Totals(0, 0, 0)), ["0xA", "0xa"], provider, source);
            book.Some? && book.value.totals.balance == 10 && book.value.states == map["0xa" := 5]
  {
    var empty: Book<int> := Book([], map[], Totals(0, 0, 0));
    var both := ["0xA", "0xa"];
    assert both[..1] == ["0xA"] && ["0xA"][..0] == [];
    assert Firsts(["0xA"]) == ["0xA"];
    assert Firsts(both) == both;
    assert Unasked(["0xA"], empty.states, source.key) == ["0xA"];
    assert Missing(empty, both, source) == both;
    var replies := seq(2, (i: nat) => 5);
    assert replies[..1][..0] == [];
    assert Absorbed(empty, both[..1], replies[..1], source)
        == Counted(Absorbed(empty, both[..1][..0], replies[..1][..0], source), "0xA", 5, source);
  }
}

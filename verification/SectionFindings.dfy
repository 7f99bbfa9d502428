/** The findings of one scan section: one per address, gaining a path when a second one reaches it. */
module SectionFindings {
  import opened Addresses

  /** A finding as shown: the address key it was made for and its field values. */
  datatype Finding = Finding(key: string, fields: seq<string>)

  /** An address to show: its key, the path that reached it and the fields of a first finding. */
  datatype Sighting = Sighting(key: string, path: string, fields: seq<string>)

  function KeysOf(list: seq<Finding>): (r: seq<string>)
    ensures |r| == |list| && forall i | 0 <= i < |list| :: r[i] == list[i].key
  {
    seq(|list|, i requires 0 <= i < |list| => list[i].key)
  }

  /** The first place of `key` in the list; its length when there is none. */
  function Place(list: seq<Finding>, key: string): (i: nat)
    ensures i <= |list| && (i < |list| ==> list[i].key == key)
    ensures forall j | 0 <= j < i :: list[j].key != key
  {
    if list == [] || list[0].key == key then 0 else 1 + Place(list[1..], key)
  }

  /** The list after `show`. */
  function AfterShow(list: seq<Finding>, s: Sighting): seq<Finding>
  {
    var i := Place(list, s.key);
    if i == |list| then list + [Finding(s.key, s.fields)]
    else if s.path in list[i].fields then list
    else list[i := Finding(s.key, list[i].fields + [s.path])]
  }

  /** The map finds each listed address at its place. */
  ghost predicate Indexes(byKey: map<string, nat>, list: seq<Finding>)
  {
    && (forall k :: k in byKey <==> Place(list, k) < |list|)
    && (forall k | k in byKey :: byKey[k] == Place(list, k))
  }

  lemma IndexStays(byKey: map<string, nat>, list: seq<Finding>, i: nat, fields: seq<string>)
    requires i < |list| && Indexes(byKey, list)
    ensures Indexes(byKey, list[i := Finding(list[i].key, fields)])
    ensures KeysOf(list[i := Finding(list[i].key, fields)]) == KeysOf(list)
  {
    hide Place, KeysOf;
    KeepsPlaces(list, i, fields);
  }

  lemma IndexGrows(byKey: map<string, nat>, list: seq<Finding>, added: Finding)
    requires Indexes(byKey, list) && added.key !in byKey
    ensures Indexes(byKey[added.key := |list|], list + [added])
    ensures KeysOf(list + [added]) == KeysOf(list) + [added.key]
  {
    hide Place, KeysOf;
    AddsPlace(list, added);
  }

  class AddressFindings {
    var list: seq<Finding>
    var byKey: map<string, nat>
    var reported: seq<string>

    ghost predicate Valid()
      reads this
    {
      Indexes(byKey, list) && reported == KeysOf(list)
    }

    constructor ()
      ensures Valid() && list == []
    {
      list, byKey, reported := [], map[], [];
    }

    /** `show`: a new finding is listed and reported; one shown already gains the path instead. */
    method Show(s: Sighting)
      requires Valid()
      modifies this
      ensures Valid() && list == AfterShow(old(list), s)
    {
      hide Place, KeysOf;
      assert s.key in byKey ==> byKey[s.key] == Place(list, s.key) < |list|;
      assert s.key !in byKey ==> Place(list, s.key) == |list|;
      hide Indexes;
      if s.key in byKey {
        var i := byKey[s.key];
        if s.path !in list[i].fields {
          IndexStays(byKey, list, i, list[i].fields + [s.path]);
          list := list[i := Finding(s.key, list[i].fields + [s.path])];
        }
        return;
      }
      var finding := Finding(s.key, s.fields);
      IndexGrows(byKey, list, finding);
      byKey := byKey[s.key := |list|];
      list := list + [finding];
      reported := reported + [s.key];
    }
  }

  lemma {:induction false} PlaceIs(list: seq<Finding>, key: string, i: nat)
    requires i <= |list| && (i < |list| ==> list[i].key == key)
    requires forall j | 0 <= j < i :: list[j].key != key
    ensures Place(list, key) == i
  {
    if list != [] && list[0].key != key {
      PlaceIs(list[1..], key, i - 1);
    }
  }

  lemma KeepsPlaces(list: seq<Finding>, i: nat, fields: seq<string>)
    requires i < |list|
    ensures forall k :: Place(list[i := Finding(list[i].key, fields)], k) == Place(list, k)
    ensures KeysOf(list[i := Finding(list[i].key, fields)]) == KeysOf(list)
  {
    forall k ensures Place(list[i := Finding(list[i].key, fields)], k) == Place(list, k) {
      PlaceIs(list[i := Finding(list[i].key, fields)], k, Place(list, k));
    }
  }

  lemma AddsPlace(list: seq<Finding>, added: Finding)
    requires Place(list, added.key) == |list|
    ensures forall k :: Place(list + [added], k)
                     == if k == added.key then |list| else if Place(list, k) == |list| then |list| + 1 else Place(list, k)
    ensures KeysOf(list + [added]) == KeysOf(list) + [added.key]
  {
    forall k
      ensures Place(list + [added], k)
           == if k == added.key then |list| else if Place(list, k) == |list| then |list| + 1 else Place(list, k)
    {
      hide Place;
      PlaceWith(list, added, k);
    }
  }

  lemma PlaceWith(list: seq<Finding>, added: Finding, k: string)
    requires Place(list, added.key) == |list|
    ensures Place(list + [added], k)
         == if k == added.key then |list| else if Place(list, k) == |list| then |list| + 1 else Place(list, k)
  {
    hide Place;
    var more, p := list + [added], Place(list, k);
    if p < |list| {
      assert more[p] == list[p] && forall j | 0 <= j < p :: more[j] == list[j];
      PlaceIs(more, k, p);
    } else {
      assert forall j | 0 <= j < |list| :: more[j] == list[j];
      PlaceIs(more, k, if k == added.key then |list| else |more|);
    }
  }

  // ---------- Whole runs ----------

  function After(sightings: seq<Sighting>): seq<Finding>
  {
    if sightings == [] then []
    else AfterShow(After(sightings[..|sightings| - 1]), sightings[|sightings| - 1])
  }

  function SeenKeys(sightings: seq<Sighting>): (r: seq<string>)
    ensures |r| == |sightings| && forall i | 0 <= i < |sightings| :: r[i] == sightings[i].key
  {
    seq(|sightings|, i requires 0 <= i < |sightings| => sightings[i].key)
  }

  /** After every run there is one finding per address seen, in the order of first sight. */
  lemma {:induction false} OneFindingPerAddress(sightings: seq<Sighting>)
    ensures KeysOf(After(sightings)) == Firsts(SeenKeys(sightings))
  {
    if sightings != [] {
      var front, s := sightings[..|sightings| - 1], sightings[|sightings| - 1];
      var before := After(front);
      OneFindingPerAddress(front);
      assert SeenKeys(sightings) == SeenKeys(front) + [s.key];
      assert SeenKeys(sightings)[..|sightings| - 1] == SeenKeys(front);
      var i := Place(before, s.key);
      if i == |before| {
        AddsPlace(before, Finding(s.key, s.fields));
        assert s.key !in KeysOf(before);
      } else {
        assert KeysOf(before)[i] == s.key;
        KeepsPlaces(before, i, before[i].fields + [s.path]);
      }
    }
  }

  /** Each later path to an address is among the fields of its finding. */
  lemma {:induction false} LaterPathsAreKept(sightings: seq<Sighting>, first: nat, later: nat)
    requires first < later < |sightings| && sightings[first].key == sightings[later].key
    ensures var list, key := After(sightings), sightings[later].key;
            var i := Place(list, key);
            i < |list| && sightings[later].path in list[i].fields
  {
    hide Place, KeysOf;
    var front, s := sightings[..|sightings| - 1], sightings[|sightings| - 1];
    var key := sightings[later].key;
    SeenIsListed(front, first);
    var before := After(front);
    var at := Place(before, s.key);
    if later < |front| {
      LaterPathsAreKept(front, first, later);
    }
    if at == |before| {
      AddsPlace(before, Finding(s.key, s.fields));
    } else {
      KeepsPlaces(before, at, before[at].fields + [s.path]);
    }
  }

  /** The field was not there before, and is the path of a later sighting of the key. */
  ghost predicate IsLaterPath(fields: seq<string>, j: nat, sightings: seq<Sighting>, first: nat)
    requires j < |fields| && first < |sightings|
  {
    && fields[j] !in fields[..j]
    && exists later :: first < later < |sightings| && sightings[later].key == sightings[first].key
                       && sightings[later].path == fields[j]
  }

  /** The fields are those of the first sighting, and after them each new path of a later one, once. */
  ghost predicate AreFieldsOf(fields: seq<string>, sightings: seq<Sighting>, first: nat)
    requires first < |sightings|
  {
    && sightings[first].fields <= fields
    && forall j | |sightings[first].fields| <= j < |fields| :: IsLaterPath(fields, j, sightings, first)
  }

  /** The finding of an address has the fields of its first sighting, and after them the later paths it lacked. */
  lemma {:induction false} FieldsOfFinding(sightings: seq<Sighting>, first: nat)
    requires first < |sightings| && forall i | 0 <= i < first :: sightings[i].key != sightings[first].key
    ensures var list := After(sightings);
            var at := Place(list, sightings[first].key);
            at < |list| && AreFieldsOf(list[at].fields, sightings, first)
  {
    hide Place, KeysOf;
    var front, s := sightings[..|sightings| - 1], sightings[|sightings| - 1];
    var before := After(front);
    var at := Place(before, s.key);
    if at == |before| {
      AddsPlace(before, Finding(s.key, s.fields));
    } else {
      KeepsPlaces(before, at, before[at].fields + [s.path]);
    }
    if first < |front| {
      FieldsOfFinding(front, first);
      FieldsStay(before[Place(before, sightings[first].key)].fields, sightings, first);
      if s.key == sightings[first].key && s.path !in before[at].fields {
        FieldsGain(before[at].fields, sightings, first);
      }
    } else {
      NotSeenYet(front, s.key);
    }
  }

  lemma FieldsStay(fields: seq<string>, sightings: seq<Sighting>, first: nat)
    requires first < |sightings| - 1 && AreFieldsOf(fields, sightings[..|sightings| - 1], first)
    ensures AreFieldsOf(fields, sightings, first)
  {
    var front := sightings[..|sightings| - 1];
    forall j | |sightings[first].fields| <= j < |fields| ensures IsLaterPath(fields, j, sightings, first) {
      assert IsLaterPath(fields, j, front, first);
      var later :| first < later < |front| && front[later].key == front[first].key && front[later].path == fields[j];
      assert sightings[later] == front[later];
    }
  }

  lemma FieldsGain(fields: seq<string>, sightings: seq<Sighting>, first: nat)
    requires first < |sightings| - 1 && AreFieldsOf(fields, sightings, first)
    requires var s := sightings[|sightings| - 1]; s.key == sightings[first].key && s.path !in fields
    ensures AreFieldsOf(fields + [sightings[|sightings| - 1].path], sightings, first)
  {
    var more := fields + [sightings[|sightings| - 1].path];
    forall j | |sightings[first].fields| <= j < |more| ensures IsLaterPath(more, j, sightings, first) {
      if j < |fields| {
        assert IsLaterPath(fields, j, sightings, first);
        assert more[..j] == fields[..j];
      } else {
        assert more[..j] == fields;
      }
    }
  }

  lemma NotSeenYet(sightings: seq<Sighting>, key: string)
    requires forall i | 0 <= i < |sightings| :: sightings[i].key != key
    ensures Place(After(sightings), key) == |After(sightings)|
  {
    OneFindingPerAddress(sightings);
    var list := After(sightings);
    assert key !in SeenKeys(sightings);
    forall i | 0 <= i < |list| ensures list[i].key != key {
      assert KeysOf(list)[i] in KeysOf(list);
    }
  }

  lemma {:induction false} SeenIsListed(sightings: seq<Sighting>, i: nat)
    requires i < |sightings|
    ensures Place(After(sightings), sightings[i].key) < |After(sightings)|
  {
    OneFindingPerAddress(sightings);
    assert SeenKeys(sightings)[i] == sightings[i].key;
    var list := After(sightings);
    assert sightings[i].key in KeysOf(list);
    var j :| 0 <= j < |list| && KeysOf(list)[j] == sightings[i].key;
    assert list[j].key == sightings[i].key;
  }
}

/** BIP67 key order: sorting hexadecimal keys, and what sorting does not change. */
module KeyOrder {

  /** Lexicographic order by character code. */
  predicate Precedes(a: string, b: string)
  {
    a == "" || (b != "" && (a[0] < b[0] || (a[0] == b[0] && Precedes(a[1..], b[1..]))))
  }

  lemma {:induction false} PrecedesIsTotal(a: string, b: string)
    ensures Precedes(a, b) || Precedes(b, a)
  {
    if a != "" && b != "" && a[0] == b[0] {
      PrecedesIsTotal(a[1..], b[1..]);
    }
  }

  lemma {:induction false} PrecedesIsAntisymmetric(a: string, b: string)
    requires Precedes(a, b) && Precedes(b, a)
    ensures a == b
  {
    if a != "" && b != "" {
      PrecedesIsAntisymmetric(a[1..], b[1..]);
      assert a == [a[0]] + a[1..] && b == [b[0]] + b[1..];
    }
  }

  lemma {:induction false} PrecedesIsTransitive(a: string, b: string, c: string)
    requires Precedes(a, b) && Precedes(b, c)
    ensures Precedes(a, c)
  {
    if a != "" && b != "" && c != "" && a[0] == b[0] == c[0] {
      PrecedesIsTransitive(a[1..], b[1..], c[1..]);
    }
  }

  /** The texts agree below `d`, and there the first has the smaller character. */
  predicate FirstDiffersBelow(a: string, b: string, d: nat)
  {
    d < |a| && d < |b| && a[..d] == b[..d] && a[d] < b[d]
  }

  /** The order of BIP67: the smaller character at the first difference decides; a prefix comes first. */
  lemma {:induction false} PrecedesByFirstDifference(a: string, b: string)
    ensures Precedes(a, b) <==> a <= b || exists d: nat :: FirstDiffersBelow(a, b, d)
  {
    if a != "" && b != "" {
      if a[0] < b[0] {
        assert FirstDiffersBelow(a, b, 0);
      } else if a[0] == b[0] {
        PrecedesByFirstDifference(a[1..], b[1..]);
        DifferenceBehindFirst(a, b);
        assert a == [a[0]] + a[1..] && b == [b[0]] + b[1..];
      }
    }
  }

  lemma DifferenceBehindFirst(a: string, b: string)
    requires a != "" && b != "" && a[0] == b[0]
    ensures (exists d: nat :: FirstDiffersBelow(a, b, d)) <==> exists d: nat :: FirstDiffersBelow(a[1..], b[1..], d)
  {
    if d: nat :| FirstDiffersBelow(a[1..], b[1..], d) {
      assert a[..d + 1] == [a[0]] + a[1..][..d] && b[..d + 1] == [b[0]] + b[1..][..d];
      assert FirstDiffersBelow(a, b, d + 1);
    }
    if d: nat :| FirstDiffersBelow(a, b, d) {
      assert a[1..][..d - 1] == a[..d][1..] && b[1..][..d - 1] == b[..d][1..];
      assert FirstDiffersBelow(a[1..], b[1..], d - 1);
    }
  }

  ghost predicate Sorted(keys: seq<string>)
  {
    forall i, j | 0 <= i < j < |keys| :: Precedes(keys[i], keys[j])
  }

  function Insert(key: string, keys: seq<string>): (r: seq<string>)
    ensures multiset(r) == multiset(keys) + multiset{key} && |r| == |keys| + 1
  {
    if keys == [] then [key]
    else if Precedes(key, keys[0]) then [key] + keys
    else
      assert keys == [keys[0]] + keys[1..];
      [keys[0]] + Insert(key, keys[1..])
  }

  /** `keys.sort()`. */
  function Sort(keys: seq<string>): (r: seq<string>)
    ensures multiset(r) == multiset(keys) && |r| == |keys|
  {
    if keys == [] then []
    else
      assert keys == [keys[0]] + keys[1..];
      Insert(keys[0], Sort(keys[1..]))
  }

  lemma {:induction false} InsertIsSorted(key: string, keys: seq<string>)
    requires Sorted(keys)
    ensures Sorted(Insert(key, keys))
  {
    if keys != [] {
      var rest := keys[1..];
      if Precedes(key, keys[0]) {
        forall j | 0 < j < |keys| ensures Precedes(key, keys[j]) {
          PrecedesIsTransitive(key, keys[0], keys[j]);
        }
      } else {
        PrecedesIsTotal(key, keys[0]);
        InsertIsSorted(key, rest);
        forall x | x in Insert(key, rest) ensures Precedes(keys[0], x) {
          assert x in multiset(Insert(key, rest));
          assert x == key || x in rest;
        }
      }
    }
  }

  lemma {:induction false} SortIsSorted(keys: seq<string>)
    ensures Sorted(Sort(keys))
  {
    if keys != [] {
      SortIsSorted(keys[1..]);
      InsertIsSorted(keys[0], Sort(keys[1..]));
    }
  }

  lemma FirstIsLeast(keys: seq<string>, key: string)
    requires Sorted(keys) && key in multiset(keys)
    ensures keys != [] && Precedes(keys[0], key)
  {
    assert key in keys;
    var i :| 0 <= i < |keys| && keys[i] == key;
    PrecedesIsTotal(key, key);
  }

  lemma TailsAgree(a: seq<string>, b: seq<string>)
    requires a != [] && b != [] && a[0] == b[0] && multiset(a) == multiset(b)
    ensures multiset(a[1..]) == multiset(b[1..])
  {
    assert a == [a[0]] + a[1..] && b == [b[0]] + b[1..];
    assert multiset(a[1..]) == multiset(a) - multiset{a[0]};
    assert multiset(b[1..]) == multiset(b) - multiset{b[0]};
  }

  /** Two sorted lists of the same keys are the same list. */
  lemma {:induction false} SortedIsUnique(a: seq<string>, b: seq<string>)
    requires Sorted(a) && Sorted(b) && multiset(a) == multiset(b)
    ensures a == b
    decreases |a|
  {
    if a == [] {
      assert |multiset(b)| == 0;
    } else {
      assert a[0] in multiset(b);
      FirstIsLeast(b, a[0]);
      assert b[0] in multiset(a);
      FirstIsLeast(a, b[0]);
      PrecedesIsAntisymmetric(a[0], b[0]);
      TailsAgree(a, b);
      SortedIsUnique(a[1..], b[1..]);
      assert a == [a[0]] + a[1..] && b == [b[0]] + b[1..];
    }
  }

  /** Sorting forgets the order the keys came in. */
  lemma SortOfPermutation(a: seq<string>, b: seq<string>)
    requires multiset(a) == multiset(b)
    ensures Sort(a) == Sort(b)
  {
    SortIsSorted(a);
    SortIsSorted(b);
    SortedIsUnique(Sort(a), Sort(b));
  }

  /** Sorting joined lists needs no look at how each was sorted before. */
  lemma SortOfSortedParts(a: seq<string>, b: seq<string>)
    ensures Sort(Sort(a) + Sort(b)) == Sort(a + b)
  {
    SortOfPermutation(Sort(a) + Sort(b), a + b);
  }

  // ---------- Mapping lists of the same members ----------

  function Map<A>(f: A -> string, xs: seq<A>): (r: seq<string>)
    ensures |r| == |xs| && forall i | 0 <= i < |xs| :: r[i] == f(xs[i])
  {
    if xs == [] then [] else [f(xs[0])] + Map(f, xs[1..])
  }

  function Without<A>(xs: seq<A>, j: nat): (r: seq<A>)
    requires j < |xs|
    ensures |r| == |xs| - 1 && forall i | 0 <= i < |r| :: r[i] == xs[if i < j then i else i + 1]
    ensures multiset(r) == multiset(xs) - multiset{xs[j]}
  {
    assert xs == xs[..j] + [xs[j]] + xs[j + 1..];
    xs[..j] + xs[j + 1..]
  }

  lemma MapWithout<A>(f: A -> string, xs: seq<A>, j: nat)
    requires j < |xs|
    ensures Map(f, Without(xs, j)) == Without(Map(f, xs), j)
  {
  }

  lemma PutBack<A>(xs: seq<A>, j: nat)
    requires j < |xs|
    ensures multiset(xs) == multiset(Without(xs, j)) + multiset{xs[j]}
  {
    assert xs[j] in multiset(xs);
  }

  /** Mapped lists of the same members have the same members. */
  lemma {:induction false} MapOfPermutation<A>(f: A -> string, a: seq<A>, b: seq<A>)
    requires multiset(a) == multiset(b)
    ensures multiset(Map(f, a)) == multiset(Map(f, b))
    decreases |a|
  {
    if a == [] {
      assert |b| == |multiset(b)| == 0;
    } else {
      assert a[0] in multiset(b);
      var j :| 0 <= j < |b| && b[j] == a[0];
      MapWithout(f, a, 0);
      MapWithout(f, b, j);
      MapOfPermutation(f, Without(a, 0), Without(b, j));
      PutBack(Map(f, a), 0);
      PutBack(Map(f, b), j);
    }
  }

  // ---------- Counting signers ----------

  /** How many of `keys` belong to someone who signs. */
  function Signers(keys: seq<string>, signs: set<string>): (n: nat)
    ensures n <= |keys|
  {
    if keys == [] then 0 else (if keys[0] in signs then 1 else 0) + Signers(keys[1..], signs)
  }

  lemma {:induction false} SignersOfInsert(key: string, keys: seq<string>, signs: set<string>)
    ensures Signers(Insert(key, keys), signs) == (if key in signs then 1 else 0) + Signers(keys, signs)
  {
    if keys != [] {
      if Precedes(key, keys[0]) {
        assert ([key] + keys)[1..] == keys;
      } else {
        SignersOfInsert(key, keys[1..], signs);
        assert Insert(key, keys)[1..] == Insert(key, keys[1..]);
      }
    } else {
      assert [key][1..] == [];
    }
  }

  /** Who can sign does not depend on the key order. */
  lemma {:induction false} SignersOfSort(keys: seq<string>, signs: set<string>)
    ensures Signers(Sort(keys), signs) == Signers(keys, signs)
  {
    if keys != [] {
      SignersOfSort(keys[1..], signs);
      SignersOfInsert(keys[0], Sort(keys[1..]), signs);
    }
  }
}

/** The orders the panels show records in: `lastSeen` newest first (the 7.x
    and 8.x drafts) and price highest first (the 5.0 and 6.x drafts), each a
    stable `Array.prototype.sort` with a descending comparator. */
module Ordering {
  import opened Text
  import opened Records

  datatype SortKey = ByLastSeen | ByPrice

  /** A missing price compares as 0. */
  function PriceOf(r: Record): int {
    match r.price case Some(p) => p case None => 0
  }

  /** `a` belongs strictly before `b`: its key is larger. Timestamps are ISO
      strings, compared as strings. */
  predicate Above(key: SortKey, a: Record, b: Record) {
    match key
    case ByLastSeen => StrLt(b.lastSeen, a.lastSeen)
    case ByPrice => PriceOf(a) > PriceOf(b)
  }

  lemma AboveIrreflexive(key: SortKey, a: Record)
    ensures !Above(key, a, a)
  {
    if key.ByLastSeen? { StrLtIrreflexive(a.lastSeen); }
  }

  /** Not being above is transitive: the keys are totally ordered. */
  lemma NotAboveTransitive(key: SortKey, a: Record, b: Record, c: Record)
    requires !Above(key, a, b) && !Above(key, b, c)
    ensures !Above(key, a, c)
  {
    if key.ByLastSeen? {
      StrLtTotal(a.lastSeen, b.lastSeen);
      StrLtTotal(b.lastSeen, c.lastSeen);
      if StrLt(c.lastSeen, a.lastSeen) {
        if a.lastSeen == b.lastSeen {
        } else if b.lastSeen == c.lastSeen {
        } else {
          StrLtTransitive(a.lastSeen, b.lastSeen, c.lastSeen);
          StrLtAsymmetric(a.lastSeen, c.lastSeen);
        }
      }
    }
  }

  /** Descending order: no record is above one that precedes it. */
  predicate Sorted(key: SortKey, s: seq<Record>) {
    forall i, j :: 0 <= i < j < |s| ==> !Above(key, s[j], s[i])
  }

  /** Place `x` after every record it is not above, so that equal keys keep
      their arrival order. */
  function Insert(key: SortKey, x: Record, s: seq<Record>): (r: seq<Record>)
    ensures multiset(r) == multiset(s) + multiset{x}
    ensures |r| == |s| + 1
  {
    if s == [] then [x]
    else if Above(key, x, s[0]) then [x] + s
    else
      assert s == [s[0]] + s[1..];
      [s[0]] + Insert(key, x, s[1..])
  }

  /** A stable insertion sort: records are taken in order and each inserted
      after the earlier ones with a key at least as large. */
  function Sort(key: SortKey, s: seq<Record>): (r: seq<Record>)
    decreases |s|
  {
    if s == [] then [] else Insert(key, s[|s| - 1], Sort(key, s[..|s| - 1]))
  }

  lemma {:induction false} InsertSorted(key: SortKey, x: Record, s: seq<Record>)
    requires Sorted(key, s)
    ensures Sorted(key, Insert(key, x, s))
    decreases |s|
  {
    if s != [] && !Above(key, x, s[0]) {
      SortedTail(key, s);
      InsertSorted(key, x, s[1..]);
      InsertAfterHead(key, x, s);
    } else if s != [] {
      InsertAtHead(key, x, s);
    }
  }

  lemma SortedTail(key: SortKey, s: seq<Record>)
    requires s != [] && Sorted(key, s)
    ensures Sorted(key, s[1..])
  {
    forall i, j | 0 <= i < j < |s[1..]| ensures !Above(key, s[1..][j], s[1..][i]) {
      assert s[1..][i] == s[i + 1] && s[1..][j] == s[j + 1];
    }
  }

  /** An element of `r` is `x` or an element of `s`. */
  lemma FromUnion<T>(r: seq<T>, s: seq<T>, x: T, y: T)
    requires multiset(r) == multiset(s) + multiset{x}
    requires y in r
    ensures y == x || y in s
  {
    assert y in multiset(r);
  }

  /** `x` goes after the head it is not above. */
  lemma InsertAfterHead(key: SortKey, x: Record, s: seq<Record>)
    requires s != [] && !Above(key, x, s[0]) && Sorted(key, s)
    requires Sorted(key, Insert(key, x, s[1..]))
    ensures Sorted(key, Insert(key, x, s))
  {
    var t := Insert(key, x, s[1..]);
    forall j | 0 <= j < |t| ensures !Above(key, t[j], s[0]) {
      FromUnion(t, s[1..], x, t[j]);
      if t[j] != x {
        HeadNotBelow(key, s, t[j]);
      }
    }
    ConsSorted(key, s[0], t);
  }

  lemma HeadNotBelow(key: SortKey, s: seq<Record>, y: Record)
    requires s != [] && Sorted(key, s) && y in s[1..]
    ensures !Above(key, y, s[0])
  {
    var k :| 0 <= k < |s[1..]| && s[1..][k] == y;
    assert s[k + 1] == y;
  }

  lemma ConsSorted(key: SortKey, h: Record, t: seq<Record>)
    requires Sorted(key, t) && forall j :: 0 <= j < |t| ==> !Above(key, t[j], h)
    ensures Sorted(key, [h] + t)
  {
    var r := [h] + t;
    forall i, j | 0 <= i < j < |r| ensures !Above(key, r[j], r[i]) {
      assert r[j] == t[j - 1];
      if i > 0 { assert r[i] == t[i - 1]; }
    }
  }

  /** `x` goes first when it is above the head. */
  lemma InsertAtHead(key: SortKey, x: Record, s: seq<Record>)
    requires s != [] && Above(key, x, s[0]) && Sorted(key, s)
    ensures Sorted(key, Insert(key, x, s))
  {
    assert Insert(key, x, s) == [x] + s;
    forall j | 0 <= j < |s| ensures !Above(key, s[j], x) {
      NotAboveHead(key, s, j);
      AboveNotBelow(key, x, s[0], s[j]);
    }
    ConsSorted(key, x, s);
  }

  /** No record of a sorted list is above its head. */
  lemma NotAboveHead(key: SortKey, s: seq<Record>, j: nat)
    requires j < |s| && Sorted(key, s)
    ensures !Above(key, s[j], s[0])
  {
    if j == 0 {
      AboveIrreflexive(key, s[0]);
    }
  }

  /** If `x` is above `y` and `z` is not above `y`, then `z` is not above `x`. */
  lemma AboveNotBelow(key: SortKey, x: Record, y: Record, z: Record)
    requires Above(key, x, y) && !Above(key, z, y)
    ensures !Above(key, z, x)
  {
    if Above(key, z, x) {
      if key.ByLastSeen? {
        StrLtTransitive(y.lastSeen, x.lastSeen, z.lastSeen);
      }
    }
  }

  /** The sort orders its input and keeps exactly its records. */
  lemma SortCorrect(key: SortKey, s: seq<Record>)
    ensures Sorted(key, Sort(key, s))
    ensures multiset(Sort(key, s)) == multiset(s)
  {
    SortSorted(key, s);
    SortPermutes(key, s);
  }

  lemma {:induction false} SortSorted(key: SortKey, s: seq<Record>)
    ensures Sorted(key, Sort(key, s))
    decreases |s|
  {
    if s != [] {
      var init := s[..|s| - 1];
      SortSorted(key, init);
      InsertSorted(key, s[|s| - 1], Sort(key, init));
    }
  }

  lemma {:induction false} SortPermutes(key: SortKey, s: seq<Record>)
    ensures multiset(Sort(key, s)) == multiset(s)
    decreases |s|
  {
    if s != [] {
      var init, x := s[..|s| - 1], s[|s| - 1];
      SortPermutes(key, init);
      assert Sort(key, s) == Insert(key, x, Sort(key, init));
      MultisetOfLast(s);
    }
  }

  lemma MultisetOfLast<T>(s: seq<T>)
    requires s != []
    ensures multiset(s) == multiset(s[..|s| - 1]) + multiset{s[|s| - 1]}
  {
    assert s == s[..|s| - 1] + [s[|s| - 1]];
  }

  /** Two maps with the same keys and the same value at every key are equal. */
  lemma SameMap<K, V>(a: map<K, V>, b: map<K, V>)
    requires a.Keys == b.Keys && forall x :: x in a ==> a[x] == b[x]
    ensures a == b
  {
  }

  /** Two sequences with the same multiset have the same members. */
  lemma SameMembers<T>(s: seq<T>, t: seq<T>)
    requires multiset(s) == multiset(t)
    ensures forall x :: x in s <==> x in t
  {
    forall x ensures x in s <==> x in t {
      assert x in s <==> x in multiset(s);
      assert x in t <==> x in multiset(t);
    }
  }

  /** No element occurs twice. */
  predicate Distinct(s: seq<string>) {
    forall i, j :: 0 <= i < j < |s| ==> s[i] != s[j]
  }

  /** The records of `p` at `ids`, in that order. */
  function At(p: Partition, ids: seq<string>): (r: seq<Record>)
    requires forall id :: id in ids ==> id in p
    ensures |r| == |ids|
    ensures forall j :: 0 <= j < |ids| ==> r[j] == p[ids[j]]
  {
    if ids == [] then [] else At(p, ids[..|ids| - 1]) + [p[ids[|ids| - 1]]]
  }

  lemma AtSnoc(p: Partition, ids: seq<string>, id: string)
    requires forall x :: x in ids ==> x in p
    requires id in p
    ensures At(p, ids + [id]) == At(p, ids) + [p[id]]
  {
    assert (ids + [id])[..|ids|] == ids;
  }

  /** `values` holds the records of `p` at the ids of `ids`, each once per
      id: some listing of those ids without repeats has the same multiset of
      records. */
  ghost predicate ListsOnce(values: seq<Record>, p: Partition, ids: set<string>) {
    ids <= p.Keys &&
    exists ks: seq<string> {:trigger Distinct(ks)} ::
      Distinct(ks) && (forall id :: id in ks <==> id in ids) && multiset(values) == multiset(At(p, ks))
  }

  /** A list of each record once per id has one entry per id, and holds
      exactly the records at those ids. */
  lemma ListsOnceCount(values: seq<Record>, p: Partition, ids: set<string>)
    requires ListsOnce(values, p, ids)
    ensures |values| == |ids|
    ensures forall r :: r in values <==> exists id :: id in ids && p[id] == r
  {
    var ks: seq<string> :| Distinct(ks) && (forall id :: id in ks <==> id in ids) &&
      multiset(values) == multiset(At(p, ks));
    DistinctCard(ks, ids);
    assert |values| == |multiset(values)| == |At(p, ks)|;
    SameMembers(values, At(p, ks));
    AtMembers(p, ks, ids);
  }

  lemma AtMembers(p: Partition, ks: seq<string>, ids: set<string>)
    requires ids <= p.Keys && forall id :: id in ks <==> id in ids
    ensures forall r :: r in At(p, ks) <==> exists id :: id in ids && p[id] == r
  {
    var a := At(p, ks);
    forall r ensures r in a <==> exists id :: id in ids && p[id] == r {
      if r in a {
        var j :| 0 <= j < |ks| && a[j] == r;
        assert ks[j] in ids;
      }
      if exists id :: id in ids && p[id] == r {
        var id :| id in ids && p[id] == r;
        var j :| 0 <= j < |ks| && ks[j] == id;
        assert a[j] == r;
      }
    }
  }

  /** A list without repeats is as long as the set of its elements. */
  lemma {:induction false} DistinctCard(ks: seq<string>, ids: set<string>)
    requires Distinct(ks) && forall id :: id in ks <==> id in ids
    ensures |ks| == |ids|
    decreases |ks|
  {
    if ks != [] {
      var x := ks[|ks| - 1];
      var init := ks[..|ks| - 1];
      assert x !in init by {
        forall j | 0 <= j < |init| ensures init[j] != x { assert init[j] == ks[j]; }
      }
      forall id ensures id in init <==> id in ids - {x} {
        if id in ks && id != x {
          var j :| 0 <= j < |ks| && ks[j] == id;
          assert j < |init| && init[j] == id;
        }
      }
      DistinctCard(init, ids - {x});
    }
  }

  /** `Object.values(p).filter(keep)`: the records of the partition that
      pass the filter, each record once per id holding it. `kept` lists those
      ids in the order the values come in. */
  method Filter(p: Partition, keep: Record -> bool) returns (values: seq<Record>, ghost kept: seq<string>)
    ensures Distinct(kept) && forall id :: id in kept <==> id in p && keep(p[id])
    ensures values == At(p, kept)
    ensures forall r :: r in values <==> r in p.Values && keep(r)
  {
    var ids := Enumerate(p);
    values, kept := [], [];
    var i := 0;
    while i < |ids|
      invariant i <= |ids|
      invariant Distinct(kept)
      invariant forall id :: id in kept <==> id in ids[..i] && keep(p[id])
      invariant values == At(p, kept)
    {
      var id := ids[i];
      if keep(p[id]) {
        NotYetKept(ids, i);
        AtSnoc(p, kept, id);
        values, kept := values + [p[id]], kept + [id];
      }
      assert ids[..i + 1] == ids[..i] + [id];
      i := i + 1;
    }
    assert ids[..i] == ids;
    KeptMembers(p, keep, kept);
  }

  lemma NotYetKept(ids: seq<string>, i: nat)
    requires i < |ids| && Distinct(ids)
    ensures ids[i] !in ids[..i]
  {
  }

  /** The records at the kept ids are the partition's records that pass. */
  lemma KeptMembers(p: Partition, keep: Record -> bool, kept: seq<string>)
    requires forall id :: id in kept <==> id in p && keep(p[id])
    ensures forall r :: r in At(p, kept) <==> r in p.Values && keep(r)
  {
    var values := At(p, kept);
    forall r ensures r in values <==> r in p.Values && keep(r) {
      if r in values {
        var j :| 0 <= j < |values| && values[j] == r;
        assert r == p[kept[j]];
      }
      if r in p.Values && keep(r) {
        var id :| id in p && p[id] == r;
        var j :| 0 <= j < |kept| && kept[j] == id;
        assert values[j] == r;
      }
    }
  }

  /** The panel's list: the records of `p` that pass `keep`, each once per
      id holding it, sorted by `key`. */
  ghost predicate View(key: SortKey, display: seq<Record>, p: Partition, keep: Record -> bool) {
    Sorted(key, display) &&
    (forall id :: id in p && keep(p[id]) ==> p[id] in display) &&
    (forall i :: 0 <= i < |display| ==> keep(display[i]) && exists id :: id in p && p[id] == display[i]) &&
    ListsOnce(display, p, set id | id in p && keep(p[id]))
  }

  /** Sorting what `Filter` returns gives the panel's list. */
  lemma ViewOf(key: SortKey, values: seq<Record>, kept: seq<string>, p: Partition, keep: Record -> bool)
    requires Distinct(kept) && forall id :: id in kept <==> id in p && keep(p[id])
    requires values == At(p, kept)
    ensures View(key, Sort(key, values), p, keep)
  {
    var display := Sort(key, values);
    SortCorrect(key, values);
    SortedMembers(key, values, kept, p, keep);
    SortListsOnce(key, values, p, kept, set id | id in p && keep(p[id]));
  }

  lemma SortedMembers(key: SortKey, values: seq<Record>, kept: seq<string>, p: Partition, keep: Record -> bool)
    requires forall id :: id in kept <==> id in p && keep(p[id])
    requires values == At(p, kept)
    ensures forall id :: id in p && keep(p[id]) ==> p[id] in Sort(key, values)
    ensures forall i :: 0 <= i < |Sort(key, values)| ==>
      keep(Sort(key, values)[i]) && exists id :: id in p && p[id] == Sort(key, values)[i]
  {
    var display := Sort(key, values);
    SortPermutes(key, values);
    SameMembers(values, display);
    KeptMembers(p, keep, kept);
    EveryKeptShown(display, p, keep);
    OnlyKeptShown(display, p, keep);
  }

  lemma EveryKeptShown(display: seq<Record>, p: Partition, keep: Record -> bool)
    requires forall r :: r in display <==> r in p.Values && keep(r)
    ensures forall id :: id in p && keep(p[id]) ==> p[id] in display
  {
    forall id | id in p && keep(p[id]) ensures p[id] in display {
      assert p[id] in p.Values;
    }
  }

  lemma OnlyKeptShown(display: seq<Record>, p: Partition, keep: Record -> bool)
    requires forall r :: r in display <==> r in p.Values && keep(r)
    ensures forall i :: 0 <= i < |display| ==> keep(display[i]) && exists id :: id in p && p[id] == display[i]
  {
    forall j | 0 <= j < |display| ensures keep(display[j]) && exists id :: id in p && p[id] == display[j] {
      assert display[j] in display;
    }
  }

  /** Sorting the filtered values keeps each record once per kept id. */
  lemma SortListsOnce(key: SortKey, values: seq<Record>, p: Partition, kept: seq<string>, ids: set<string>)
    requires forall id :: id in kept ==> id in p
    requires Distinct(kept) && (forall id :: id in kept <==> id in ids) && values == At(p, kept)
    ensures ListsOnce(Sort(key, values), p, ids)
  {
    SortPermutes(key, values);
    assert Distinct(kept);
  }

  /** `Object.keys`: the ids of a partition, each once, in some order. */
  method Enumerate(p: Partition) returns (ids: seq<string>)
    ensures Distinct(ids)
    ensures forall id :: id in ids <==> id in p
  {
    ids := [];
    var rest := p.Keys;
    while rest != {}
      invariant rest <= p.Keys
      invariant forall id :: id in ids <==> id in p && id !in rest
      invariant Distinct(ids)
      decreases |rest|
    {
      var id :| id in rest;
      ids := ids + [id];
      rest := rest - {id};
    }
  }
}

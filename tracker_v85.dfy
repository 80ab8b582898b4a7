/** The current draft keeps every tracker partition in an in-memory cache,
    loaded once at start-up and written back to storage when the page is
    left. A pass merges the page's cards into the search's cached partition,
    adopting the oldest record another search holds for a new id; for a
    search by location it probes each missing record and spreads the
    verdict, with the latest time the record was seen, to every partition
    that holds it. */
module TrackerV85 {
  import opened Text
  import opened Records
  import opened Url
  import Ordering
  import ContextV85

  const Prefix := ContextV85.Prefix

  /** `allDataCache[key]`: a parsed partition, or the `null` a stored `null`
      parses to. */
  datatype Entry = Loaded(p: Partition) | NullEntry

  type Cache = map<string, Entry>

  /** `JSON.parse` at start-up; text that does not parse has no entry (it
      throws). */
  function EntryOf(s: Stored): Entry
    requires !s.Malformed?
  {
    if s.Doc? then Loaded(s.p) else NullEntry
  }

  /** The tracker keys among `keys`, in order. */
  function TrackerKeys(keys: seq<string>): (r: seq<string>)
    ensures forall k :: k in r <==> k in keys && StartsWith(k, Prefix)
    ensures (forall i, j :: 0 <= i < j < |keys| ==> keys[i] != keys[j]) ==>
      forall i, j :: 0 <= i < j < |r| ==> r[i] != r[j]
    decreases |keys|
  {
    if keys == [] then []
    else
      var init := TrackerKeys(keys[..|keys| - 1]);
      var k := keys[|keys| - 1];
      assert forall x :: x in keys <==> x in keys[..|keys| - 1] || x == k by {
        assert keys == keys[..|keys| - 1] + [k];
      }
      if StartsWith(k, Prefix) then init + [k] else init
  }

  /** The cache `loadAllData` builds from the listed keys. */
  function CacheOf(store: Store, keys: seq<string>): Cache
    requires forall k :: k in keys && k in store && StartsWith(k, Prefix) ==> !store[k].Malformed?
  {
    map k | k in keys && k in store && StartsWith(k, Prefix) :: EntryOf(store[k])
  }

  /** `loadData`'s read: `JSON.parse(text) || {}`, and `{}` when parsing
      throws. */
  function ReadPartition(s: Stored): (p: Partition)
    ensures s.Doc? ==> p == s.p
    ensures !s.Doc? ==> p == map[]
  {
    if s.Doc? then s.p else map[]
  }

  /** The partition cached under `k` holds `id`. */
  predicate Holds(cache: Cache, k: string, id: string) {
    k in cache && cache[k].Loaded? && id in cache[k].p
  }

  /** `Object.values(allDataCache).flatMap(c => c[id] || [])`, once no entry
      is `null`. */
  function Candidates(cache: Cache, order: seq<string>, id: string): (rs: seq<Record>)
    ensures rs == [] <==> forall k :: k in order ==> !Holds(cache, k, id)
    ensures forall i :: 0 <= i < |rs| ==> exists k :: k in order && Holds(cache, k, id) && cache[k].p[id] == rs[i]
    decreases |order|
  {
    if order == [] then []
    else
      var init := order[..|order| - 1];
      var k := order[|order| - 1];
      assert order == init + [k];
      var rs := Candidates(cache, init, id);
      if Holds(cache, k, id) then rs + [cache[k].p[id]] else rs
  }

  /** `new Date(a) < new Date(b)`: ISO timestamps compare as strings, and a
      missing date (`""`) is `Invalid Date`, which compares false. */
  predicate DateBefore(a: string, b: string) {
    a != "" && b != "" && StrLt(a, b)
  }

  /** The index the `reduce` of `findOldestPropertyRecord` settles on: the
      first record is taken, and a later one replaces the current pick only
      when it is strictly earlier. */
  function OldestAt(rs: seq<Record>): (j: nat)
    requires rs != []
    ensures j < |rs|
    decreases |rs|
  {
    if |rs| == 1 then 0
    else
      var j := OldestAt(rs[..|rs| - 1]);
      if DateBefore(rs[|rs| - 1].firstSeen, rs[j].firstSeen) then |rs| - 1 else j
  }

  /** A first record without a valid date is never replaced. */
  lemma {:induction false} OldestKeepsInvalidFirst(rs: seq<Record>)
    requires rs != [] && rs[0].firstSeen == ""
    ensures OldestAt(rs) == 0
    decreases |rs|
  {
    if |rs| > 1 {
      OldestKeepsInvalidFirst(rs[..|rs| - 1]);
    }
  }

  /** With a valid first date the pick is the earliest record, the first
      among equals: nothing is earlier, and everything before it is later or
      undated. */
  lemma {:induction false} OldestIsEarliest(rs: seq<Record>)
    requires rs != [] && rs[0].firstSeen != ""
    ensures var j := OldestAt(rs);
      rs[j].firstSeen != "" &&
      (forall i :: 0 <= i < |rs| ==> !DateBefore(rs[i].firstSeen, rs[j].firstSeen)) &&
      (forall i :: 0 <= i < j ==> rs[i].firstSeen == "" || StrLt(rs[j].firstSeen, rs[i].firstSeen))
    decreases |rs|
  {
    if |rs| > 1 {
      var init := rs[..|rs| - 1];
      OldestIsEarliest(init);
      var j := OldestAt(init);
      var x := rs[|rs| - 1].firstSeen;
      if DateBefore(x, rs[j].firstSeen) {
        forall i | 0 <= i < |rs| ensures !DateBefore(rs[i].firstSeen, x) {
          if i < |rs| - 1 {
            assert !DateBefore(init[i].firstSeen, rs[j].firstSeen);
            if DateBefore(rs[i].firstSeen, x) {
              StrLtTransitive(rs[i].firstSeen, x, rs[j].firstSeen);
            }
          } else {
            StrLtIrreflexive(x);
          }
        }
        forall i | 0 <= i < |rs| - 1 ensures rs[i].firstSeen == "" || StrLt(x, rs[i].firstSeen) {
          assert !DateBefore(init[i].firstSeen, rs[j].firstSeen);
          if rs[i].firstSeen != "" {
            StrLtTotal(rs[i].firstSeen, rs[j].firstSeen);
            if rs[i].firstSeen != rs[j].firstSeen {
              StrLtTransitive(x, rs[j].firstSeen, rs[i].firstSeen);
            }
          }
        }
      } else {
        forall i | 0 <= i < j ensures rs[i].firstSeen == "" || StrLt(rs[j].firstSeen, rs[i].firstSeen) {
          assert rs[i] == init[i];
        }
      }
    } else {
      StrLtIrreflexive(rs[0].firstSeen);
    }
  }

  datatype Lookup = Crash | NoRecord | Found(r: Record)

  predicate HasNull(cache: Cache) {
    exists k :: k in cache && cache[k].NullEntry?
  }

  /** `findOldestPropertyRecord(id)`: a `null` entry anywhere makes
      `context[id]` throw. */
  function FindOldest(cache: Cache, order: seq<string>, id: string): (r: Lookup)
    ensures r.Crash? <==> HasNull(cache)
    ensures r.NoRecord? <==> !HasNull(cache) && forall k :: k in order ==> !Holds(cache, k, id)
    ensures r.Found? ==> r.r in Candidates(cache, order, id)
  {
    if HasNull(cache) then Crash
    else
      var rs := Candidates(cache, order, id);
      if rs == [] then NoRecord else Found(rs[OldestAt(rs)])
  }

  /** The record a card leaves behind: `{...base, ...prop, lastSeen: now,
      isActive: true, status: 'listed'}`, where a `prop` new to the partition
      carries the search's location unless the search is by area. */
  function Settle(base: Record, ctx: Context, s: Snapshot, now: string, isNew: bool): (r: Record)
    ensures r.lastSeen == now && r.isActive == Active && r.status == Listed
    ensures r.price == Some(s.price) && r.url == s.url && r.id == s.id
    ensures r.firstSeen == base.firstSeen && r.initialPrice == base.initialPrice && r.history == base.history
    ensures isNew && !ctx.isAreaSearch ==> r.location == ctx.location && r.subLocation == ctx.subLocation
    ensures !(isNew && !ctx.isAreaSearch) ==> r.location == base.location && r.subLocation == base.subLocation
  {
    var r := Overlay(base, s).(lastSeen := now, isActive := Active, status := Listed);
    if isNew && !ctx.isAreaSearch then r.(location := ctx.location, subLocation := ctx.subLocation) else r
  }

  /** The search's partition after some cards, the count of ids no search
      knew, and whether a lookup threw. */
  datatype Merged = Merged(p: Partition, newCount: nat, crashed: bool)

  /** One card of the loop: a card that could not be read is skipped, and
      after a throw nothing changes any more. */
  function Step(cache: Cache, order: seq<string>, ctx: Context, m: Merged, c: Option<Snapshot>, now: string): Merged {
    if m.crashed || c.None? then m
    else
      var s := c.value;
      if s.id in m.p then Merged(m.p[s.id := Settle(m.p[s.id], ctx, s, now, false)], m.newCount, false)
      else
        match FindOldest(cache, order, s.id)
        case Crash => Merged(m.p, m.newCount, true)
        case NoRecord =>
          Merged(m.p[s.id := Settle(Blank.(firstSeen := now, initialPrice := Some(s.price)), ctx, s, now, true)],
                 m.newCount + 1, false)
        case Found(o) => Merged(m.p[s.id := Settle(o, ctx, s, now, true)], m.newCount, false)
  }

  /** The card loop of `createUI` over the partition cached under `key`. */
  function MergeAll(cache: Cache, order: seq<string>, key: string, ctx: Context, cards: seq<Option<Snapshot>>, now: string): Merged
    requires key in cache && cache[key].Loaded?
    decreases |cards|
  {
    if cards == [] then Merged(cache[key].p, 0, false)
    else Step(cache, order, ctx, MergeAll(cache, order, key, ctx, cards[..|cards| - 1], now), cards[|cards| - 1], now)
  }

  /** One card of the loop, written into the cached partition: the record
      is refreshed, or a new one is made from the oldest record any search
      holds for the id; a lookup that throws leaves the cache as it was. */
  method MergeCard(cache: Cache, order: seq<string>, key: string, ctx: Context, c: Option<Snapshot>, now: string, newCount: nat)
    returns (cache': Cache, newCount': nat, crashed: bool)
    requires key in cache && cache[key].Loaded?
    ensures var m := Step(cache, order, ctx, Merged(cache[key].p, newCount, false), c, now);
      cache' == cache[key := Loaded(m.p)] && newCount' == m.newCount && crashed == m.crashed
  {
    cache', newCount', crashed := cache, newCount, false;
    if c.Some? {
      var s := c.value;
      var data := cache[key].p;
      if s.id in data {
        cache' := cache[key := Loaded(data[s.id := Settle(data[s.id], ctx, s, now, false)])];
      } else {
        match FindOldest(cache, order, s.id)
        case Crash =>
          crashed := true;
        case NoRecord =>
          newCount' := newCount + 1;
          cache' := cache[key := Loaded(data[s.id := Settle(Blank.(firstSeen := now, initialPrice := Some(s.price)), ctx, s, now, true)])];
        case Found(o) =>
          cache' := cache[key := Loaded(data[s.id := Settle(o, ctx, s, now, true)])];
      }
    }
  }

  /** Merging into the cached copy of the partition finds what merging into
      the loaded cache would: the ids the lookup is asked for are not in the
      search's partition at all. */
  lemma StepFrame(cache0: Cache, cache: Cache, order: seq<string>, key: string, ctx: Context, m: Merged, c: Option<Snapshot>, now: string)
    requires key in cache0 && cache0[key].Loaded? && cache0[key].p.Keys <= m.p.Keys && !m.crashed
    requires cache == cache0[key := Loaded(m.p)]
    ensures Step(cache, order, ctx, Merged(cache[key].p, m.newCount, false), c, now) == Step(cache0, order, ctx, m, c, now)
  {
    if c.Some? && c.value.id !in m.p {
      OldestFrame(cache0, cache, order, key, m.p, c.value.id);
    }
  }

  /** The card loop itself, on a copy of the cache: the partition cached
      under `key` takes every card until a lookup throws. */
  method MergeLoop(cache: Cache, order: seq<string>, key: string, ctx: Context, cards: seq<Option<Snapshot>>, now: string)
    returns (cc: Cache, newCount: nat, crashed: bool)
    requires key in cache && cache[key].Loaded?
    ensures var m := MergeAll(cache, order, key, ctx, cards, now);
      cc == cache[key := Loaded(m.p)] && newCount == m.newCount && crashed == m.crashed
  {
    ghost var m := Merged(cache[key].p, 0, false);
    cc := cache;
    newCount := 0;
    var i := 0;
    while i < |cards|
      invariant i <= |cards|
      invariant m == MergeAll(cache, order, key, ctx, cards[..i], now) && !m.crashed
      invariant cc == cache[key := Loaded(m.p)] && newCount == m.newCount
    {
      MergeStep(cache, order, key, ctx, cards, now, i);
      MergeDomain(cache, order, key, ctx, cards[..i], now);
      StepFrame(cache, cc, order, key, ctx, m, cards[i], now);
      var crash;
      cc, newCount, crash := MergeCard(cc, order, key, ctx, cards[i], now, newCount);
      m := Step(cache, order, ctx, m, cards[i], now);
      if crash {
        CrashStays(cache, order, key, ctx, cards, now, i + 1);
        return cc, newCount, true;
      }
      i := i + 1;
    }
    assert cards[..i] == cards;
    crashed := false;
  }

  /** Once a lookup has thrown, later cards change nothing. */
  lemma {:induction false} CrashStays(cache: Cache, order: seq<string>, key: string, ctx: Context, cards: seq<Option<Snapshot>>, now: string, i: nat)
    requires key in cache && cache[key].Loaded? && i <= |cards|
    requires MergeAll(cache, order, key, ctx, cards[..i], now).crashed
    ensures MergeAll(cache, order, key, ctx, cards, now) == MergeAll(cache, order, key, ctx, cards[..i], now)
    decreases |cards|
  {
    if i < |cards| {
      var init := cards[..|cards| - 1];
      assert init[..i] == cards[..i];
      CrashStays(cache, order, key, ctx, init, now, i);
    } else {
      assert cards[..i] == cards;
    }
  }

  lemma MergeStep(cache: Cache, order: seq<string>, key: string, ctx: Context, cards: seq<Option<Snapshot>>, now: string, i: nat)
    requires key in cache && cache[key].Loaded? && i < |cards|
    ensures MergeAll(cache, order, key, ctx, cards[..i + 1], now) ==
      Step(cache, order, ctx, MergeAll(cache, order, key, ctx, cards[..i], now), cards[i], now)
  {
    assert cards[..i + 1][..i] == cards[..i];
  }

  /** The partition holds what it held and the ids of the cards merged. */
  lemma {:induction false} MergeDomain(cache: Cache, order: seq<string>, key: string, ctx: Context, cards: seq<Option<Snapshot>>, now: string)
    requires key in cache && cache[key].Loaded?
    ensures var m := MergeAll(cache, order, key, ctx, cards, now);
      cache[key].p.Keys <= m.p.Keys <= cache[key].p.Keys + CardIds(cards) &&
      (!m.crashed ==> m.p.Keys == cache[key].p.Keys + CardIds(cards))
    decreases |cards|
  {
    if cards != [] {
      var init := cards[..|cards| - 1];
      MergeDomain(cache, order, key, ctx, init, now);
      assert cards == init + [cards[|cards| - 1]];
      CardIdsStep(init, cards[|cards| - 1]);
    }
  }

  /** A lookup throws exactly when some entry is `null` and some card's id
      is new to the partition. */
  lemma {:induction false} MergeCrashes(cache: Cache, order: seq<string>, key: string, ctx: Context, cards: seq<Option<Snapshot>>, now: string)
    requires key in cache && cache[key].Loaded?
    ensures MergeAll(cache, order, key, ctx, cards, now).crashed <==> HasNull(cache) && !(CardIds(cards) <= cache[key].p.Keys)
    decreases |cards|
  {
    if cards != [] {
      var init := cards[..|cards| - 1];
      var c := cards[|cards| - 1];
      MergeCrashes(cache, order, key, ctx, init, now);
      MergeDomain(cache, order, key, ctx, init, now);
      assert cards == init + [c];
      CardIdsStep(init, c);
    }
  }

  /** Every card on the page ends listed, active and seen now, unless a
      lookup threw. */
  lemma {:induction false} MergeOnPage(cache: Cache, order: seq<string>, key: string, ctx: Context, cards: seq<Option<Snapshot>>, now: string, i: nat)
    requires key in cache && cache[key].Loaded?
    requires i < |cards| && cards[i].Some?
    requires forall j :: i < j < |cards| && cards[j].Some? ==> cards[j].value.id != cards[i].value.id
    requires !MergeAll(cache, order, key, ctx, cards, now).crashed
    ensures var m := MergeAll(cache, order, key, ctx, cards, now);
      var s := cards[i].value;
      s.id in m.p && m.p[s.id].lastSeen == now && m.p[s.id].isActive == Active && m.p[s.id].status == Listed &&
      m.p[s.id].price == Some(s.price) && m.p[s.id].url == s.url
    decreases |cards|
  {
    var init := cards[..|cards| - 1];
    var m0 := MergeAll(cache, order, key, ctx, init, now);
    var c := cards[|cards| - 1];
    StepUncrashed(cache, order, ctx, m0, c, now);
    if i < |cards| - 1 {
      assert forall j :: i < j < |init| ==> init[j] == cards[j];
      MergeOnPage(cache, order, key, ctx, init, now, i);
      StepOther(cache, order, ctx, m0, c, now, cards[i].value.id);
    } else {
      StepCard(cache, order, ctx, m0, cards[i].value, now);
    }
  }

  lemma StepUncrashed(cache: Cache, order: seq<string>, ctx: Context, m: Merged, c: Option<Snapshot>, now: string)
    requires !Step(cache, order, ctx, m, c, now).crashed
    ensures !m.crashed
  {
  }

  /** A card leaves the records of other ids as they were. */
  lemma StepOther(cache: Cache, order: seq<string>, ctx: Context, m: Merged, c: Option<Snapshot>, now: string, id: string)
    requires id in m.p && (c.Some? ==> c.value.id != id)
    ensures var p := Step(cache, order, ctx, m, c, now).p;
      id in p && p[id] == m.p[id]
  {
  }

  /** A card merged without a throw is listed, active, seen now, at its
      price and address. */
  lemma StepCard(cache: Cache, order: seq<string>, ctx: Context, m: Merged, s: Snapshot, now: string)
    requires !Step(cache, order, ctx, m, Some(s), now).crashed
    ensures var p := Step(cache, order, ctx, m, Some(s), now).p;
      s.id in p && p[s.id].lastSeen == now && p[s.id].isActive == Active && p[s.id].status == Listed &&
      p[s.id].price == Some(s.price) && p[s.id].url == s.url
  {
  }

  /** A record the partition already held keeps its first sighting, initial
      price, history and location. */
  lemma {:induction false} MergeKeepsHeld(cache: Cache, order: seq<string>, key: string, ctx: Context, cards: seq<Option<Snapshot>>, now: string, id: string)
    requires key in cache && cache[key].Loaded? && id in cache[key].p
    ensures var m := MergeAll(cache, order, key, ctx, cards, now);
      var r := cache[key].p[id];
      id in m.p && m.p[id].firstSeen == r.firstSeen && m.p[id].initialPrice == r.initialPrice &&
      m.p[id].history == r.history && m.p[id].location == r.location && m.p[id].subLocation == r.subLocation
    decreases |cards|
  {
    MergeDomain(cache, order, key, ctx, cards, now);
    if cards != [] {
      MergeKeepsHeld(cache, order, key, ctx, cards[..|cards| - 1], now, id);
    }
  }

  /** An id new to the partition takes over the first sighting, initial
      price and history of the oldest record any search holds for it. */
  lemma {:induction false} MergeAdoptsOldest(cache: Cache, order: seq<string>, key: string, ctx: Context, cards: seq<Option<Snapshot>>, now: string, id: string)
    requires key in cache && cache[key].Loaded? && id !in cache[key].p && id in CardIds(cards)
    requires FindOldest(cache, order, id).Found?
    ensures var m := MergeAll(cache, order, key, ctx, cards, now);
      var o := FindOldest(cache, order, id).r;
      id in m.p && m.p[id].firstSeen == o.firstSeen && m.p[id].initialPrice == o.initialPrice &&
      m.p[id].history == o.history
    decreases |cards|
  {
    var init := cards[..|cards| - 1];
    var c := cards[|cards| - 1];
    assert cards == init + [c];
    CardIdsStep(init, c);
    MergeDomain(cache, order, key, ctx, init, now);
    MergeCrashes(cache, order, key, ctx, init, now);
    var m := MergeAll(cache, order, key, ctx, init, now);
    if id in CardIds(init) {
      MergeAdoptsOldest(cache, order, key, ctx, init, now, id);
      AdoptKept(cache, order, ctx, m, c, now, id);
    } else {
      AdoptTaken(cache, order, ctx, m, c, now, id);
    }
  }

  /** An id no cached partition holds, the search's own included, is new:
      when it is merged it is first seen now, at the price of its first
      card, with no history, and with the search's location unless the
      search is by area. It is merged unless a lookup threw. */
  lemma {:induction false} MergeNewRecord(cache: Cache, order: seq<string>, key: string, ctx: Context, cards: seq<Option<Snapshot>>, now: string, id: string)
    requires key in cache && cache[key].Loaded? && id !in cache[key].p && id in CardIds(cards)
    requires FindOldest(cache, order, id).NoRecord?
    ensures var m := MergeAll(cache, order, key, ctx, cards, now);
      (!m.crashed ==> id in m.p) &&
      (id in m.p ==>
         m.p[id].firstSeen == now && m.p[id].initialPrice == Some(FirstCardPrice(cards, id)) &&
         m.p[id].history == [] &&
         m.p[id].location == (if ctx.isAreaSearch then "" else ctx.location) &&
         m.p[id].subLocation == (if ctx.isAreaSearch then "" else ctx.subLocation))
    decreases |cards|
  {
    MergeDomain(cache, order, key, ctx, cards, now);
    var init := cards[..|cards| - 1];
    var c := cards[|cards| - 1];
    assert cards == init + [c];
    CardIdsStep(init, c);
    FirstCardStep(init, c, id);
    MergeDomain(cache, order, key, ctx, init, now);
    var m0 := MergeAll(cache, order, key, ctx, init, now);
    if id in m0.p {
      MergeNewRecord(cache, order, key, ctx, init, now, id);
      AdoptKept(cache, order, ctx, m0, c, now, id);
      NewKeepsPlace(cache, order, ctx, m0, c, now, id);
    } else if !m0.crashed && c.Some? && c.value.id == id {
      NewTaken(cache, order, ctx, m0, c.value, now);
    }
  }

  lemma NewKeepsPlace(cache: Cache, order: seq<string>, ctx: Context, m: Merged, c: Option<Snapshot>, now: string, id: string)
    requires id in m.p
    ensures var n := Step(cache, order, ctx, m, c, now);
      id in n.p && n.p[id].location == m.p[id].location && n.p[id].subLocation == m.p[id].subLocation
  {
  }

  lemma NewTaken(cache: Cache, order: seq<string>, ctx: Context, m: Merged, s: Snapshot, now: string)
    requires !m.crashed && s.id !in m.p && FindOldest(cache, order, s.id).NoRecord?
    ensures var n := Step(cache, order, ctx, m, Some(s), now);
      s.id in n.p && n.p[s.id].firstSeen == now && n.p[s.id].initialPrice == Some(s.price) &&
      n.p[s.id].history == [] &&
      n.p[s.id].location == (if ctx.isAreaSearch then "" else ctx.location) &&
      n.p[s.id].subLocation == (if ctx.isAreaSearch then "" else ctx.subLocation)
  {
  }

  lemma AdoptKept(cache: Cache, order: seq<string>, ctx: Context, m: Merged, c: Option<Snapshot>, now: string, id: string)
    requires id in m.p
    ensures var n := Step(cache, order, ctx, m, c, now);
      id in n.p && n.p[id].firstSeen == m.p[id].firstSeen && n.p[id].initialPrice == m.p[id].initialPrice &&
      n.p[id].history == m.p[id].history
  {
  }

  lemma AdoptTaken(cache: Cache, order: seq<string>, ctx: Context, m: Merged, c: Option<Snapshot>, now: string, id: string)
    requires !m.crashed && id !in m.p && c.Some? && c.value.id == id && FindOldest(cache, order, id).Found?
    ensures var n := Step(cache, order, ctx, m, c, now);
      var o := FindOldest(cache, order, id).r;
      id in n.p && n.p[id].firstSeen == o.firstSeen && n.p[id].initialPrice == o.initialPrice &&
      n.p[id].history == o.history
  {
  }

  /** The ids on the page that no search knew: the pass counts exactly
      these. */
  function Unseen(cache: Cache, order: seq<string>, key: string, cards: seq<Option<Snapshot>>): set<string>
    requires key in cache && cache[key].Loaded?
  {
    set id | id in CardIds(cards) && id !in cache[key].p && forall k :: k in order ==> !Holds(cache, k, id)
  }

  lemma {:induction false} MergeCounts(cache: Cache, order: seq<string>, key: string, ctx: Context, cards: seq<Option<Snapshot>>, now: string)
    requires key in cache && cache[key].Loaded? && !HasNull(cache)
    ensures MergeAll(cache, order, key, ctx, cards, now).newCount == |Unseen(cache, order, key, cards)|
    decreases |cards|
  {
    if cards == [] {
      assert Unseen(cache, order, key, cards) == {};
    } else {
      var init := cards[..|cards| - 1];
      var c := cards[|cards| - 1];
      MergeCounts(cache, order, key, ctx, init, now);
      MergeDomain(cache, order, key, ctx, init, now);
      MergeCrashes(cache, order, key, ctx, init, now);
      var m := MergeAll(cache, order, key, ctx, init, now);
      UnseenStep(cache, order, key, init, c, m.p.Keys);
      assert cards == init + [c];
    }
  }

  lemma UnseenStep(cache: Cache, order: seq<string>, key: string, init: seq<Option<Snapshot>>, c: Option<Snapshot>, held: set<string>)
    requires key in cache && cache[key].Loaded? && !HasNull(cache)
    requires held == cache[key].p.Keys + CardIds(init)
    ensures |Unseen(cache, order, key, init + [c])| == |Unseen(cache, order, key, init)| +
      (if c.Some? && c.value.id !in held && FindOldest(cache, order, c.value.id).NoRecord? then 1 else 0)
  {
    CardIdsStep(init, c);
    var before := Unseen(cache, order, key, init);
    var after := Unseen(cache, order, key, init + [c]);
    if c.Some? && c.value.id !in held && FindOldest(cache, order, c.value.id).NoRecord? {
      assert after == before + {c.value.id};
    } else {
      assert after == before;
    }
  }

  /** Whether two caches agree on every record of `id`. */
  ghost predicate SameRecords(c1: Cache, c2: Cache, id: string) {
    (forall k :: Holds(c1, k, id) <==> Holds(c2, k, id)) &&
    (forall k :: Holds(c1, k, id) ==> c1[k].p[id] == c2[k].p[id])
  }

  lemma {:induction false} CandidatesFrame(c1: Cache, c2: Cache, order: seq<string>, id: string)
    requires SameRecords(c1, c2, id)
    ensures Candidates(c1, order, id) == Candidates(c2, order, id)
    decreases |order|
  {
    if order != [] {
      CandidatesFrame(c1, c2, order[..|order| - 1], id);
    }
  }

  lemma Rewrite(cache0: Cache, cache: Cache, key: string, p: Partition, q: Partition)
    requires cache == cache0[key := Loaded(p)]
    ensures cache[key := Loaded(q)] == cache0[key := Loaded(q)]
  {
  }

  /** Writing the search's own partition while it lacks `id` does not change
      what the lookup for `id` finds. */
  lemma OldestFrame(cache0: Cache, cache: Cache, order: seq<string>, key: string, p: Partition, id: string)
    requires key in cache0 && cache0[key].Loaded? && id !in cache0[key].p && id !in p
    requires cache == cache0[key := Loaded(p)]
    ensures FindOldest(cache, order, id) == FindOldest(cache0, order, id)
  {
    assert HasNull(cache) <==> HasNull(cache0) by {
      if HasNull(cache) {
        var k :| k in cache && cache[k].NullEntry?;
        assert k in cache0 && cache0[k].NullEntry?;
      }
      if HasNull(cache0) {
        var k :| k in cache0 && cache0[k].NullEntry?;
        assert k in cache && cache[k].NullEntry?;
      }
    }
    CandidatesFrame(cache, cache0, order, id);
  }

  /** The `reduce` of `updatePropertyStatus` over the partitions holding
      `id`: the greatest non-empty `lastSeen`, or `""`. */
  function MaxLastSeen(cache: Cache, order: seq<string>, id: string): string
    decreases |order|
  {
    if order == [] then ""
    else
      var m := MaxLastSeen(cache, order[..|order| - 1], id);
      var k := order[|order| - 1];
      if Holds(cache, k, id) && cache[k].p[id].lastSeen != "" && StrLt(m, cache[k].p[id].lastSeen)
      then cache[k].p[id].lastSeen
      else m
  }

  /** The result is one of the times recorded for `id`, or `""` when none
      is, and no recorded time is later. */
  lemma {:induction false} MaxLastSeenIsMax(cache: Cache, order: seq<string>, id: string)
    ensures var m := MaxLastSeen(cache, order, id);
      (m == "" || exists k :: k in order && Holds(cache, k, id) && cache[k].p[id].lastSeen == m) &&
      (forall k :: k in order && Holds(cache, k, id) ==> !StrLt(m, cache[k].p[id].lastSeen))
    decreases |order|
  {
    if order != [] {
      var init := order[..|order| - 1];
      var k := order[|order| - 1];
      assert order == init + [k];
      MaxLastSeenIsMax(cache, init, id);
      var m := MaxLastSeen(cache, init, id);
      if Holds(cache, k, id) && cache[k].p[id].lastSeen != "" && StrLt(m, cache[k].p[id].lastSeen) {
        var e := cache[k].p[id].lastSeen;
        forall k' | k' in order && Holds(cache, k', id) ensures !StrLt(e, cache[k'].p[id].lastSeen) {
          if k' in init && StrLt(e, cache[k'].p[id].lastSeen) {
            StrLtTransitive(m, e, cache[k'].p[id].lastSeen);
          }
          if k' == k { StrLtIrreflexive(e); }
        }
      } else if Holds(cache, k, id) && cache[k].p[id].lastSeen != "" {
      } else if Holds(cache, k, id) {
        assert !StrLt(m, cache[k].p[id].lastSeen);
      }
    }
  }

  lemma {:induction false} MaxLastSeenFrame(c1: Cache, c2: Cache, order: seq<string>, id: string)
    requires forall k :: Holds(c1, k, id) <==> Holds(c2, k, id)
    requires forall k :: Holds(c1, k, id) && Holds(c2, k, id) ==> c1[k].p[id].lastSeen == c2[k].p[id].lastSeen
    ensures MaxLastSeen(c1, order, id) == MaxLastSeen(c2, order, id)
    decreases |order|
  {
    if order != [] {
      MaxLastSeenFrame(c1, c2, order[..|order| - 1], id);
    }
  }

  /** `mostRecentLastSeen || getCurrentISODate()`. */
  function Latest(cache: Cache, order: seq<string>, id: string, now: string): string {
    var m := MaxLastSeen(cache, order, id);
    if m == "" then now else m
  }

  /** Every record of `id` takes the given time, activity and status. */
  function Touch(cache: Cache, id: string, seen: string, act: Activity, st: Status): Cache {
    map k | k in cache :: if Holds(cache, k, id) then Stamp(cache[k], id, seen, act, st) else cache[k]
  }

  /** The partition with the record of `id` given its time, activity and
      status. */
  function Stamp(e: Entry, id: string, seen: string, act: Activity, st: Status): Entry
    requires e.Loaded? && id in e.p
  {
    Loaded(e.p[id := e.p[id].(lastSeen := seen, isActive := act, status := st)])
  }

  /** The outcome of the `HEAD` request for a record missing from the page. */
  datatype Probe = NotFound | Answered | Failed

  /** 404: removed and inactive; any other answer: still listed elsewhere and
      active; a failed request: unknown activity and an error status. */
  function Verdict(r: Probe): (Activity, Status) {
    match r
    case NotFound => (Inactive, Removed)
    case Answered => (Active, NotListed)
    case Failed => (Unknown, ProbeError)
  }

  /** The record of `id` once its probe is answered and the answer spread:
      the latest time any partition saw it, and the verdict. */
  function Settled(cache0: Cache, order: seq<string>, key: string, probe: string -> Probe, now: string, id: string, r: Record): Record
    requires key in cache0 && cache0[key].Loaded? && id in cache0[key].p
  {
    var v := Verdict(probe(cache0[key].p[id].url));
    r.(lastSeen := Latest(cache0, order, id, now), isActive := v.0, status := v.1)
  }

  /** The cache once the ids of `ids`, all held by the search's partition,
      have been probed and spread. */
  function AbsentOn(cache0: Cache, order: seq<string>, key: string, probe: string -> Probe, now: string, ids: set<string>): Cache
    requires key in cache0 && cache0[key].Loaded? && ids <= cache0[key].p.Keys
  {
    map k | k in cache0 ::
      if cache0[k].Loaded? then
        Loaded(map id | id in cache0[k].p ::
                 if id in ids then Settled(cache0, order, key, probe, now, id, cache0[k].p[id]) else cache0[k].p[id])
      else cache0[k]
  }

  /** After the probes, every partition holding an absent id agrees on it:
      the verdict of the search's own probe and the latest time any
      partition had seen it, never earlier than any of those times. Other
      ids and the partitions' key sets are untouched. */
  lemma AbsentAgrees(cache0: Cache, order: seq<string>, key: string, probe: string -> Probe, now: string,
                     ids: set<string>, k: string, id: string)
    requires key in cache0 && cache0[key].Loaded? && ids <= cache0[key].p.Keys
    requires Holds(cache0, k, id)
    ensures var after := AbsentOn(cache0, order, key, probe, now, ids);
      Holds(after, k, id) && after[k].p.Keys == cache0[k].p.Keys &&
      (id !in ids ==> after[k].p[id] == cache0[k].p[id]) &&
      (id in ids ==>
        var v := Verdict(probe(cache0[key].p[id].url));
        after[k].p[id] == cache0[k].p[id].(lastSeen := after[key].p[id].lastSeen, isActive := v.0, status := v.1) &&
        (forall j :: j in order && Holds(cache0, j, id) ==> !StrLt(after[k].p[id].lastSeen, cache0[j].p[id].lastSeen)))
  {
    MaxLastSeenIsMax(cache0, order, id);
    var m := MaxLastSeen(cache0, order, id);
    if m == "" {
      forall j | j in order && Holds(cache0, j, id) ensures !StrLt(now, cache0[j].p[id].lastSeen) {
        assert !StrLt(m, cache0[j].p[id].lastSeen);
        assert cache0[j].p[id].lastSeen == "";
      }
    }
  }

  /** One id of the walk: the ids probed so far grow by the id when it is
      missing from the page. */
  lemma DoneStep<T>(done: set<T>, ids: seq<T>, i: nat, onPage: set<T>)
    requires i < |ids| && (forall x :: x in done <==> x in ids[..i] && x !in onPage)
    ensures var d := if ids[i] in onPage then done else done + {ids[i]};
      forall x :: x in d <==> x in ids[..i + 1] && x !in onPage
  {
    assert ids[..i + 1] == ids[..i] + [ids[i]];
  }

  /** One more id probed: the search's record takes the verdict, then
      `updatePropertyStatus` spreads it with the latest time, which the
      earlier ids did not change. */
  lemma AbsentStep(cache0: Cache, order: seq<string>, key: string, probe: string -> Probe, now: string,
                   done: set<string>, id: string, c: Cache)
    requires key in cache0 && cache0[key].Loaded? && done <= cache0[key].p.Keys
    requires id in cache0[key].p && id !in done
    requires c == AbsentOn(cache0, order, key, probe, now, done)
    ensures key in c && c[key].Loaded? && id in c[key].p
    ensures var data := c[key].p;
      var v := Verdict(probe(data[id].url));
      var c1 := c[key := Loaded(data[id := data[id].(isActive := v.0, status := v.1)])];
      c1.Keys == c.Keys &&
      Touch(c1, id, Latest(c1, order, id, now), v.0, v.1) == AbsentOn(cache0, order, key, probe, now, done + {id})
  {
    var data := c[key].p;
    var v := Verdict(probe(data[id].url));
    var c1 := c[key := Loaded(data[id := data[id].(isActive := v.0, status := v.1)])];
    AbsentUntouched(cache0, order, key, probe, now, done, id, c, c1);
    MaxLastSeenFrame(c1, cache0, order, id);
    var after := AbsentOn(cache0, order, key, probe, now, done + {id});
    var t := Touch(c1, id, Latest(c1, order, id, now), v.0, v.1);
    forall k | k in cache0 ensures t[k] == after[k] {
      if cache0[k].Loaded? {
        assert t[k].p.Keys == after[k].p.Keys;
        forall x | x in t[k].p ensures t[k].p[x] == after[k].p[x] {
          if x == id {
            assert t[k].p[x].lastSeen == after[k].p[x].lastSeen;
          }
        }
      }
    }
  }

  lemma AbsentNone(cache0: Cache, order: seq<string>, key: string, probe: string -> Probe, now: string)
    requires key in cache0 && cache0[key].Loaded?
    ensures AbsentOn(cache0, order, key, probe, now, {}) == cache0
  {
    var a := AbsentOn(cache0, order, key, probe, now, {});
    forall k | k in cache0 ensures a[k] == cache0[k] {
      if cache0[k].Loaded? {
        assert a[k].p == cache0[k].p;
      }
    }
  }

  /** Before its turn, `id` is as loaded everywhere, up to the verdict just
      written into the search's own record. */
  lemma AbsentUntouched(cache0: Cache, order: seq<string>, key: string, probe: string -> Probe, now: string,
                        done: set<string>, id: string, c: Cache, c1: Cache)
    requires key in cache0 && cache0[key].Loaded? && done <= cache0[key].p.Keys
    requires id in cache0[key].p && id !in done
    requires c == AbsentOn(cache0, order, key, probe, now, done)
    requires var data := c[key].p; var v := Verdict(probe(data[id].url));
      c1 == c[key := Loaded(data[id := data[id].(isActive := v.0, status := v.1)])]
    ensures c1.Keys == cache0.Keys
    ensures forall k :: Holds(c1, k, id) <==> Holds(cache0, k, id)
    ensures forall k :: Holds(c1, k, id) && Holds(cache0, k, id) ==> c1[k].p[id].lastSeen == cache0[k].p[id].lastSeen
    ensures c[key].p[id].url == cache0[key].p[id].url
  {
  }

  /** The panel leaves out records whose probe failed or that are listed
      under another search. */
  predicate Visible(r: Record) {
    r.status != ProbeError && r.status != NotListed
  }

  /** The panel's list: the visible records, newest `lastSeen` first, each
      once per id. */
  ghost predicate Shows(display: seq<Record>, p: Partition) {
    Ordering.View(Ordering.ByLastSeen, display, p, Visible)
  }

  /** `Object.values(data).filter(...).sort(...)`. */
  method Display(p: Partition) returns (display: seq<Record>)
    ensures Shows(display, p)
  {
    var values;
    ghost var kept;
    values, kept := Ordering.Filter(p, Visible);
    display := Ordering.Sort(Ordering.ByLastSeen, values);
    Ordering.ViewOf(Ordering.ByLastSeen, values, kept, p, Visible);
  }

  /** `JSON.stringify` of a cache entry. */
  function Stringify(e: Entry): (s: Stored)
    ensures !s.Malformed? && EntryOf(s) == e
  {
    match e
    case Loaded(p) => Doc(p)
    case NullEntry => Null
  }

  /** The store after `saveAllData` has written the entries of the keys in
      `ks`. */
  function Persist(store: Store, cache: Cache, ks: seq<string>): Store {
    map k | k in store.Keys + (cache.Keys * set x | x in ks) :: if k in ks && k in cache then Stringify(cache[k]) else store[k]
  }

  /** `order` without `key`. */
  function Without(order: seq<string>, key: string): (r: seq<string>)
    ensures forall k :: k in r <==> k in order && k != key
    ensures (forall i, j :: 0 <= i < j < |order| ==> order[i] != order[j]) ==>
      forall i, j :: 0 <= i < j < |r| ==> r[i] != r[j]
    decreases |order|
  {
    if order == [] then []
    else
      var init := Without(order[..|order| - 1], key);
      var k := order[|order| - 1];
      assert forall x :: x in order <==> x in order[..|order| - 1] || x == k by {
        assert order == order[..|order| - 1] + [k];
      }
      if k == key then init
      else
        assert (forall i, j :: 0 <= i < j < |order| ==> order[i] != order[j]) ==> k !in init by {
          if forall i, j :: 0 <= i < j < |order| ==> order[i] != order[j] {
            assert k !in order[..|order| - 1];
          }
        }
        init + [k]
  }

  /** Deleting the search's key and then leaving the page writes the cached
      partition back: the clear is undone. */
  lemma ClearUndone(store: Store, cache: Cache, order: seq<string>, key: string)
    requires key in cache && cache[key].Loaded? && key in order
    ensures var after := Persist(store - {key}, cache, order);
      key in after && after[key] == Doc(cache[key].p)
  {
  }

  /** Dropping the key from the cache as well keeps it deleted, and every
      other key is written back as before. */
  lemma ClearStays(store: Store, cache: Cache, order: seq<string>, key: string)
    ensures var after := Persist(store - {key}, cache - {key}, Without(order, key));
      key !in after &&
      forall k :: k != key ==>
        (k in after <==> k in Persist(store, cache, order)) && (k in after ==> after[k] == Persist(store, cache, order)[k])
  {
  }

  /** What `saveAllData` writes, `loadAllData` reads back. */
  lemma SaveLoadRoundTrip(store: Store, cache: Cache, order: seq<string>, keys: seq<string>)
    requires forall k :: k in cache ==> k in order && StartsWith(k, Prefix)
    requires forall k :: k in store && StartsWith(k, Prefix) ==> !store[k].Malformed?
    requires forall k :: k in Persist(store, cache, order) <==> k in keys
    ensures var saved := Persist(store, cache, order);
      forall k :: k in cache ==> k in CacheOf(saved, keys) && CacheOf(saved, keys)[k] == cache[k]
  {
  }

  lemma LoadStep(store: Store, keys: seq<string>, i: nat)
    requires Lists(store, keys) && i < |keys|
    ensures var k := keys[i];
      k in store && keys[..i + 1] == keys[..i] + [k] &&
      TrackerKeys(keys[..i + 1]) == (if StartsWith(k, Prefix) then TrackerKeys(keys[..i]) + [k] else TrackerKeys(keys[..i]))
    ensures var k := keys[i];
      (forall x :: x in keys[..i + 1] && StartsWith(x, Prefix) ==> !store[x].Malformed?) ==>
        CacheOf(store, keys[..i + 1]) ==
          if StartsWith(k, Prefix) then CacheOf(store, keys[..i])[k := EntryOf(store[k])] else CacheOf(store, keys[..i])
  {
    assert keys[..i + 1][..i] == keys[..i];
    assert keys[..i + 1] == keys[..i] + [keys[i]];
  }

  lemma LoadDone(store: Store, keys: seq<string>)
    requires Lists(store, keys)
    requires forall k :: k in keys && StartsWith(k, Prefix) ==> !store[k].Malformed?
    ensures forall k :: k in CacheOf(store, keys) <==> k in TrackerKeys(keys)
  {
  }

  /** The cache after `loadData` for `key`: an entry that is missing or
      `null` is read from storage. */
  function AfterLoad(cache: Cache, store: Store, key: string): (c: Cache)
    ensures key in c && c[key].Loaded?
  {
    if key in cache && cache[key].Loaded? then cache else cache[key := Loaded(ReadPartition(Fetch(store, key)))]
  }

  function OrderAfterLoad(cache: Cache, order: seq<string>, key: string): seq<string> {
    if key in cache then order else order + [key]
  }

  /** The cache at the end of a pass that did not throw: merged, then, for a
      search by location, the missing records probed and spread. */
  function AfterPass(cache: Cache, order: seq<string>, key: string, ctx: Context, cards: seq<Option<Snapshot>>,
                     probe: string -> Probe, now: string): Cache
    requires key in cache && cache[key].Loaded?
  {
    var m := MergeAll(cache, order, key, ctx, cards, now);
    var merged := cache[key := Loaded(m.p)];
    if ctx.isAreaSearch then merged
    else AbsentOn(merged, order, key, probe, now, m.p.Keys - CardIds(cards))
  }

  /** `Touch` restricted to the keys of `ks`: the forEach of
      `updatePropertyStatus` part way through. */
  function TouchOn(cache: Cache, ks: seq<string>, id: string, seen: string, act: Activity, st: Status): Cache {
    map k | k in cache ::
      if k in ks && Holds(cache, k, id) then Stamp(cache[k], id, seen, act, st) else cache[k]
  }

  /** The `forEach` of `updatePropertyStatus` over the keys in order, on a
      copy of the cache. */
  method StampLoop(cache: Cache, order: seq<string>, id: string, seen: string, act: Activity, st: Status)
    returns (c: Cache)
    requires forall k :: k in cache ==> k in order
    requires forall a, b :: 0 <= a < b < |order| ==> order[a] != order[b]
    ensures c == Touch(cache, id, seen, act, st) && c.Keys == cache.Keys
  {
    c := cache;
    var i := 0;
    while i < |order|
      invariant i <= |order|
      invariant c == TouchOn(cache, order[..i], id, seen, act, st)
    {
      TouchOnStep(cache, order, i, id, seen, act, st);
      var k := order[i];
      if Holds(c, k, id) {
        c := c[k := Stamp(c[k], id, seen, act, st)];
      }
      i := i + 1;
    }
    assert order[..i] == order;
    TouchOnAll(cache, order, id, seen, act, st);
  }

  lemma TouchOnStep(cache: Cache, order: seq<string>, i: nat, id: string, seen: string, act: Activity, st: Status)
    requires i < |order| && forall a, b :: 0 <= a < b < |order| ==> order[a] != order[b]
    ensures var c := TouchOn(cache, order[..i], id, seen, act, st);
      var k := order[i];
      (Holds(c, k, id) <==> Holds(cache, k, id)) &&
      TouchOn(cache, order[..i + 1], id, seen, act, st) ==
        if Holds(c, k, id) then c[k := Stamp(c[k], id, seen, act, st)] else c
  {
    var k := order[i];
    assert k !in order[..i];
    var c := TouchOn(cache, order[..i], id, seen, act, st);
    var c1 := TouchOn(cache, order[..i + 1], id, seen, act, st);
    if k in cache {
      assert c[k] == cache[k];
    }
    var q := if Holds(c, k, id) then c[k := Stamp(c[k], id, seen, act, st)] else c;
    forall x | x in c1 ensures c1[x] == q[x] {
      TouchOnAt(cache, order, i, id, seen, act, st, x);
    }
    Ordering.SameMap(c1, q);
  }

  /** One more key walked changes the entry under that key only. */
  lemma TouchOnAt(cache: Cache, order: seq<string>, i: nat, id: string, seen: string, act: Activity, st: Status, x: string)
    requires i < |order| && x in cache
    ensures var k := order[i];
      TouchOn(cache, order[..i + 1], id, seen, act, st)[x] ==
        if x == k && Holds(cache, k, id) then Stamp(cache[k], id, seen, act, st)
        else TouchOn(cache, order[..i], id, seen, act, st)[x]
  {
    assert order[..i + 1] == order[..i] + [order[i]];
    assert x in order[..i + 1] <==> x in order[..i] || x == order[i];
  }

  lemma TouchOnAll(cache: Cache, order: seq<string>, id: string, seen: string, act: Activity, st: Status)
    requires forall k :: k in cache ==> k in order
    ensures TouchOn(cache, order, id, seen, act, st) == Touch(cache, id, seen, act, st)
  {
  }

  lemma MaxLastSeenStep(cache: Cache, order: seq<string>, i: nat, id: string)
    requires i < |order|
    ensures MaxLastSeen(cache, order[..i + 1], id) ==
      var m := MaxLastSeen(cache, order[..i], id);
      var k := order[i];
      if Holds(cache, k, id) && cache[k].p[id].lastSeen != "" && StrLt(m, cache[k].p[id].lastSeen)
      then cache[k].p[id].lastSeen
      else m
  {
    assert order[..i + 1][..i] == order[..i];
  }

  lemma PersistStep(store: Store, cache: Cache, order: seq<string>, i: nat)
    requires i < |order| && order[i] in cache
    ensures Persist(store, cache, order[..i + 1]) == Persist(store, cache, order[..i])[order[i] := Stringify(cache[order[i]])]
  {
    assert order[..i + 1] == order[..i] + [order[i]];
  }

  /** The running script: the cache of every tracker partition, the order
      its keys were added in (`Object.keys`), and the userscript storage. */
  class Tracker {
    var cache: Cache
    var order: seq<string>
    var store: Store

    ghost predicate Valid()
      reads this
    {
      (forall k :: k in cache <==> k in order) &&
      (forall i, j :: 0 <= i < j < |order| ==> order[i] != order[j]) &&
      (forall k :: k in cache ==> StartsWith(k, Prefix))
    }

    constructor (saved: Store)
      ensures cache == map[] && order == [] && store == saved
      ensures Valid()
    {
      cache := map[];
      order := [];
      store := saved;
    }

    /** `loadAllData`: every listed tracker key is parsed into the cache;
        text that does not parse throws, and the script stops. */
    method LoadAll(keys: seq<string>) returns (ok: bool)
      requires cache == map[] && order == [] && Lists(store, keys)
      modifies this
      ensures store == old(store)
      ensures ok <==> forall k :: k in store && StartsWith(k, Prefix) ==> !store[k].Malformed?
      ensures ok ==> Valid() && order == TrackerKeys(keys) && cache == CacheOf(store, keys)
    {
      var i := 0;
      while i < |keys|
        invariant i <= |keys| && store == old(store)
        invariant forall k :: k in keys[..i] && StartsWith(k, Prefix) ==> !store[k].Malformed?
        invariant order == TrackerKeys(keys[..i]) && cache == CacheOf(store, keys[..i])
      {
        var bad := LoadKey(keys, i);
        if bad {
          return false;
        }
        i := i + 1;
      }
      assert keys[..i] == keys;
      LoadDone(store, keys);
      ok := true;
    }

    /** One listed key of `loadAllData`: a tracker key is parsed into the
        cache, and `bad` reports text that does not parse. */
    method LoadKey(keys: seq<string>, i: nat) returns (bad: bool)
      requires Lists(store, keys) && i < |keys|
      requires forall k :: k in keys[..i] && StartsWith(k, Prefix) ==> !store[k].Malformed?
      requires order == TrackerKeys(keys[..i]) && cache == CacheOf(store, keys[..i])
      modifies this
      ensures store == old(store)
      ensures bad <==> StartsWith(keys[i], Prefix) && store[keys[i]].Malformed?
      ensures !bad ==> (forall k :: k in keys[..i + 1] && StartsWith(k, Prefix) ==> !store[k].Malformed?)
      ensures !bad ==> order == TrackerKeys(keys[..i + 1]) && cache == CacheOf(store, keys[..i + 1])
    {
      var k := keys[i];
      LoadStep(store, keys, i);
      bad := false;
      if StartsWith(k, Prefix) {
        if store[k].Malformed? {
          return true;
        }
        cache := cache[k := EntryOf(store[k])];
        order := order + [k];
      }
    }

    /** `loadData(ctx)`: the search's key, its partition cached. */
    method LoadData(ctx: Context) returns (key: string)
      requires Valid()
      modifies this
      ensures Valid() && store == old(store)
      ensures key == ContextV85.StorageKey(ctx)
      ensures cache == AfterLoad(old(cache), store, key) && order == OrderAfterLoad(old(cache), old(order), key)
    {
      key := ContextV85.StorageKey(ctx);
      assert StartsWith(key, Prefix);
      if !(key in cache && cache[key].Loaded?) {
        if key !in cache {
          order := order + [key];
        }
        cache := cache[key := Loaded(ReadPartition(Fetch(store, key)))];
      }
    }

    /** The card loop of `createUI`, writing into the cached partition. */
    method MergeCards(key: string, ctx: Context, cards: seq<Option<Snapshot>>, now: string)
      returns (newCount: nat, crashed: bool)
      requires Valid() && key in cache && cache[key].Loaded?
      modifies this
      ensures Valid() && order == old(order) && store == old(store)
      ensures var m := MergeAll(old(cache), order, key, ctx, cards, now);
        cache == old(cache)[key := Loaded(m.p)] && newCount == m.newCount && crashed == m.crashed
    {
      var cc;
      cc, newCount, crashed := MergeLoop(cache, order, key, ctx, cards, now);
      cache := cc;
    }

    /** The `reduce` of `updatePropertyStatus`: the latest non-empty
        `lastSeen` of `id`, no later one recorded, or `""`. */
    method MostRecentLastSeen(id: string) returns (latest: string)
      ensures latest == MaxLastSeen(cache, order, id)
    {
      latest := "";
      var i := 0;
      while i < |order|
        invariant i <= |order|
        invariant latest == MaxLastSeen(cache, order[..i], id)
      {
        MaxLastSeenStep(cache, order, i, id);
        var k := order[i];
        if k in cache && cache[k].Loaded? && id in cache[k].p {
          var e := cache[k].p[id].lastSeen;
          if e != "" && StrLt(latest, e) {
            latest := e;
          }
        }
        i := i + 1;
      }
      assert order[..i] == order;
    }

    /** `updatePropertyStatus(id, isActive, status)`: the latest `lastSeen`
        of `id` over every cached partition, then that time (or `now` when
        there is none), the activity and the status written into each. */
    method UpdatePropertyStatus(id: string, act: Activity, st: Status, now: string)
      requires Valid()
      modifies this
      ensures Valid() && order == old(order) && store == old(store)
      ensures cache == Touch(old(cache), id, Latest(old(cache), order, id, now), act, st)
    {
      var latest := MostRecentLastSeen(id);
      var seen := if latest == "" then now else latest;
      assert seen == Latest(cache, order, id, now);
      StampAll(id, seen, act, st);
    }

    /** The second pass of `updatePropertyStatus`: every partition holding
        `id` gives its record the time, the activity and the status. */
    method StampAll(id: string, seen: string, act: Activity, st: Status)
      requires Valid()
      modifies this
      ensures Valid() && order == old(order) && store == old(store)
      ensures cache == Touch(old(cache), id, seen, act, st)
    {
      var c := StampLoop(cache, order, id, seen, act, st);
      cache := c;
    }

    /** The absence check of `createUI`: every id of the search's partition
        missing from the page is probed, its record takes the verdict, and
        `updatePropertyStatus` spreads it. */
    method ProbeAbsent(key: string, onPage: set<string>, probe: string -> Probe, now: string)
      requires Valid() && key in cache && cache[key].Loaded?
      modifies this
      ensures Valid() && order == old(order) && store == old(store)
      ensures cache == AbsentOn(old(cache), order, key, probe, now, old(cache)[key].p.Keys - onPage)
    {
      ghost var cache0 := cache;
      var ids := Ordering.Enumerate(cache[key].p);
      ghost var done: set<string> := {};
      AbsentNone(cache0, order, key, probe, now);
      var i := 0;
      while i < |ids|
        invariant i <= |ids| && order == old(order) && store == old(store) && Valid()
        invariant forall x :: x in done <==> x in ids[..i] && x !in onPage
        invariant done <= cache0[key].p.Keys
        invariant cache == AbsentOn(cache0, order, key, probe, now, done)
      {
        var id := ids[i];
        DoneStep(done, ids, i, onPage);
        if id !in onPage {
          assert id !in ids[..i];
          AbsentStep(cache0, order, key, probe, now, done, id, cache);
          ProbeOne(key, id, probe, now);
          done := done + {id};
        }
        i := i + 1;
      }
      assert ids[..i] == ids;
      assert done == cache0[key].p.Keys - onPage;
    }

    /** One missing record: the probe's verdict is written into the
        search's partition, then `updatePropertyStatus` spreads it. */
    method ProbeOne(key: string, id: string, probe: string -> Probe, now: string)
      requires Valid() && key in cache && cache[key].Loaded? && id in cache[key].p
      modifies this
      ensures Valid() && order == old(order) && store == old(store)
      ensures var data := old(cache)[key].p;
        var v := Verdict(probe(data[id].url));
        var c1 := old(cache)[key := Loaded(data[id := data[id].(isActive := v.0, status := v.1)])];
        cache == Touch(c1, id, Latest(c1, order, id, now), v.0, v.1)
    {
      var data := cache[key].p;
      var v := Verdict(probe(data[id].url));
      cache := cache[key := Loaded(data[id := data[id].(isActive := v.0, status := v.1)])];
      UpdatePropertyStatus(id, v.0, v.1, now);
    }

    /** `createUI` on a page: the context, the partition loaded, the cards
        merged, the missing records probed for a search by location, and
        the records shown. A lookup that throws ends the pass. */
    method CreateUI(path: string, q: Query, cards: seq<Option<Snapshot>>, probe: string -> Probe, now: string)
      returns (out: Outcome)
      requires Valid()
      modifies this
      ensures Valid() && store == old(store)
      ensures var ctx := ContextV85.GetPageContext(path, q);
        ctx.transactionType == "" ==> out == Skipped && cache == old(cache) && order == old(order)
      ensures var ctx := ContextV85.GetPageContext(path, q);
        var key := ContextV85.StorageKey(ctx);
        var c := AfterLoad(old(cache), store, key);
        var m := MergeAll(c, order, key, ctx, cards, now);
        ctx.transactionType != "" ==>
          order == OrderAfterLoad(old(cache), old(order), key) &&
          (m.crashed ==> out == Crashed && cache == c[key := Loaded(m.p)]) &&
          (!m.crashed ==> out.Shown? && out.newCount == m.newCount &&
                          cache == AfterPass(c, order, key, ctx, cards, probe, now) &&
                          key in cache && cache[key].Loaded? && Shows(out.display, cache[key].p))
    {
      var ctx := ContextV85.GetPageContext(path, q);
      if ctx.transactionType == "" {
        return Skipped;
      }
      var key := LoadData(ctx);
      var newCount, crashed := MergeCards(key, ctx, cards, now);
      if crashed {
        return Crashed;
      }
      if !ctx.isAreaSearch {
        MergeDomain(old(cache)[key := Loaded(ReadPartition(Fetch(store, key)))], order, key, ctx, cards, now);
        ProbeAbsent(key, CardIds(cards), probe, now);
      }
      var display := Display(cache[key].p);
      out := Shown(newCount, display);
    }

    /** `saveAllData`, run when the page unloads: every cached entry is
        written back under its key. */
    method SaveAll()
      requires Valid()
      modifies this
      ensures cache == old(cache) && order == old(order) && Valid()
      ensures store == Persist(old(store), cache, order)
    {
      var i := 0;
      while i < |order|
        invariant i <= |order| && cache == old(cache) && order == old(order)
        invariant store == Persist(old(store), cache, order[..i])
      {
        PersistStep(old(store), cache, order, i);
        store := store[order[i] := Stringify(cache[order[i]])];
        i := i + 1;
      }
      assert order[..i] == order;
    }

    /** The clear button as written: the stored partition is deleted, the
        cached one stays. */
    method ClearContext(ctx: Context)
      requires Valid()
      modifies this
      ensures cache == old(cache) && order == old(order) && Valid()
      ensures store == old(store) - {ContextV85.StorageKey(ctx)}
    {
      store := store - {ContextV85.StorageKey(ctx)};
    }

    /** The clear button as intended: the partition leaves the cache too, so
        the write-back on unload does not restore it. */
    method ClearContextFixed(ctx: Context)
      requires Valid()
      modifies this
      ensures Valid()
      ensures var key := ContextV85.StorageKey(ctx);
        store == old(store) - {key} && cache == old(cache) - {key} && order == Without(old(order), key)
    {
      var key := ContextV85.StorageKey(ctx);
      store := store - {key};
      cache := cache - {key};
      order := Without(order, key);
    }
  }
}

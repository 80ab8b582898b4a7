/** One pass of drafts 7.2, 7.7, 8.0 and 8.1 over a search page: the cards
    are merged into the search's partition, and for a search by location
    every stored id missing from the page is marked inactive, in memory and
    in every stored partition that holds it. */
module ReconcileV7 {
  import opened Text
  import opened Records
  import Ordering
  import opened Url
  import ContextSplit
  import ContextV72

  /** The record a card leaves behind: `{...(data[id] || {}), ...prop,
      lastSeen: now, isActive: true}`, where a new `prop` first gains
      `firstSeen`, `initialPrice` and, outside area searches, the location. */
  function MergeCard(data: Partition, ctx: Context, s: Snapshot, now: string): Partition {
    var base :=
      if s.id in data then data[s.id]
      else Blank.(firstSeen := now, initialPrice := Some(s.price),
                  location := if ctx.isAreaSearch then "" else ctx.location,
                  subLocation := if ctx.isAreaSearch then "" else ctx.subLocation);
    data[s.id := Overlay(base, s).(lastSeen := now, isActive := Active)]
  }

  /** The partition after the cards, merged in page order; a card the
      extractor could not read is skipped. */
  function MergeAll(data: Partition, ctx: Context, cards: seq<Option<Snapshot>>, now: string): Partition
    decreases |cards|
  {
    if cards == [] then data
    else
      var d := MergeAll(data, ctx, cards[..|cards| - 1], now);
      match cards[|cards| - 1]
      case None => d
      case Some(s) => MergeCard(d, ctx, s, now)
  }

  /** The number of cards whose id the partition does not hold yet when
      the card is merged. */
  function NewIds(data: Partition, ctx: Context, cards: seq<Option<Snapshot>>, now: string): nat
    decreases |cards|
  {
    if cards == [] then 0
    else
      var init := cards[..|cards| - 1];
      var c := cards[|cards| - 1];
      NewIds(data, ctx, init, now) + (if c.Some? && c.value.id !in MergeAll(data, ctx, init, now) then 1 else 0)
  }

  /** The card loop of `createUI`, counting the ids new to the partition. */
  method Merge(data: Partition, ctx: Context, cards: seq<Option<Snapshot>>, now: string)
    returns (merged: Partition, newCount: nat)
    ensures merged == MergeAll(data, ctx, cards, now)
    ensures newCount == |CardIds(cards) - data.Keys|
  {
    merged := data;
    newCount := 0;
    var i := 0;
    while i < |cards|
      invariant 0 <= i <= |cards|
      invariant merged == MergeAll(data, ctx, cards[..i], now)
      invariant newCount == NewIds(data, ctx, cards[..i], now)
    {
      MergeStep(data, ctx, cards, now, i);
      merged, newCount := MergeOne(merged, newCount, ctx, cards[i], now);
      i := i + 1;
    }
    assert cards[..i] == cards;
    NewIdsCount(data, ctx, cards, now);
  }

  /** The body of the card loop: a card read from the page is merged, and
      counted when its id is new. */
  method MergeOne(merged: Partition, newCount: nat, ctx: Context, c: Option<Snapshot>, now: string)
    returns (merged': Partition, newCount': nat)
    ensures merged' == (if c.Some? then MergeCard(merged, ctx, c.value, now) else merged)
    ensures newCount' == newCount + (if c.Some? && c.value.id !in merged then 1 else 0)
  {
    merged', newCount' := merged, newCount;
    if c.Some? {
      if c.value.id !in merged {
        newCount' := newCount + 1;
      }
      merged' := MergeCard(merged, ctx, c.value, now);
    }
  }

  /** One card more is one merge step. */
  lemma MergeStep(data: Partition, ctx: Context, cards: seq<Option<Snapshot>>, now: string, i: nat)
    requires i < |cards|
    ensures var c := cards[i];
      var d := MergeAll(data, ctx, cards[..i], now);
      MergeAll(data, ctx, cards[..i + 1], now) == (if c.Some? then MergeCard(d, ctx, c.value, now) else d) &&
      NewIds(data, ctx, cards[..i + 1], now) ==
        NewIds(data, ctx, cards[..i], now) + (if c.Some? && c.value.id !in d then 1 else 0)
  {
    assert cards[..i + 1][..i] == cards[..i];
  }

  /** The count is the number of distinct card ids the partition did not
      hold before the page. */
  lemma {:induction false} NewIdsCount(data: Partition, ctx: Context, cards: seq<Option<Snapshot>>, now: string)
    ensures NewIds(data, ctx, cards, now) == |CardIds(cards) - data.Keys|
    decreases |cards|
  {
    if cards != [] {
      var init, c := cards[..|cards| - 1], cards[|cards| - 1];
      NewIdsCount(data, ctx, init, now);
      MergeDomain(data, ctx, init, now);
      CardIdsLast(cards);
      NewCountStep(data.Keys, CardIds(init), c, MergeAll(data, ctx, init, now).Keys);
    }
  }

  /** The count of new ids grows exactly when the card's id is not yet
      held. */
  lemma NewCountStep(held: set<string>, ids: set<string>, c: Option<Snapshot>, now_held: set<string>)
    requires now_held == held + ids
    ensures |(ids + (if c.Some? then {c.value.id} else {})) - held| ==
      |ids - held| + (if c.Some? && c.value.id !in now_held then 1 else 0)
  {
    var before := ids - held;
    if c.Some? {
      var id := c.value.id;
      if id !in now_held {
        assert (ids + {id}) - held == before + {id};
      } else {
        assert (ids + {id}) - held == before;
      }
    } else {
      assert ids + {} == ids;
    }
  }

  lemma CardIdsLast(cards: seq<Option<Snapshot>>)
    requires cards != []
    ensures var c := cards[|cards| - 1];
      CardIds(cards) == CardIds(cards[..|cards| - 1]) + (if c.Some? then {c.value.id} else {})
  {
    var init, c := cards[..|cards| - 1], cards[|cards| - 1];
    assert init + [c] == cards;
    CardIdsStep(init, c);
  }

  /** The partition holds what it held and every card read. */
  lemma {:induction false} MergeDomain(data: Partition, ctx: Context, cards: seq<Option<Snapshot>>, now: string)
    ensures MergeAll(data, ctx, cards, now).Keys == data.Keys + CardIds(cards)
    decreases |cards|
  {
    if cards != [] {
      var init := cards[..|cards| - 1];
      MergeDomain(data, ctx, init, now);
      assert cards == init + [cards[|cards| - 1]];
      CardIdsStep(init, cards[|cards| - 1]);
    }
  }

  /** A record already in the partition keeps its write-once fields, its
      location, its status and its history. */
  lemma {:induction false} MergeKeepsWriteOnce(data: Partition, ctx: Context, cards: seq<Option<Snapshot>>, now: string, id: string)
    requires id in data
    ensures id in MergeAll(data, ctx, cards, now)
    ensures var r := MergeAll(data, ctx, cards, now)[id];
      r.firstSeen == data[id].firstSeen && r.initialPrice == data[id].initialPrice &&
      r.location == data[id].location && r.subLocation == data[id].subLocation &&
      r.status == data[id].status && r.history == data[id].history
    decreases |cards|
  {
    MergeDomain(data, ctx, cards, now);
    if cards != [] {
      MergeKeepsWriteOnce(data, ctx, cards[..|cards| - 1], now, id);
    }
  }

  /** An id new to the partition is first seen now, at the price of its
      first card, and takes the search's location unless the search is by
      area. */
  lemma {:induction false} MergeNewRecord(data: Partition, ctx: Context, cards: seq<Option<Snapshot>>, now: string, id: string)
    requires id in CardIds(cards) && id !in data
    ensures id in MergeAll(data, ctx, cards, now)
    ensures var r := MergeAll(data, ctx, cards, now)[id];
      r.firstSeen == now && r.initialPrice == Some(FirstCardPrice(cards, id)) && r.history == [] &&
      r.status == Unset &&
      r.location == (if ctx.isAreaSearch then "" else ctx.location) &&
      r.subLocation == (if ctx.isAreaSearch then "" else ctx.subLocation)
    decreases |cards|
  {
    MergeDomain(data, ctx, cards, now);
    var init := cards[..|cards| - 1];
    MergeDomain(data, ctx, init, now);
    assert cards == init + [cards[|cards| - 1]];
    CardIdsStep(init, cards[|cards| - 1]);
    FirstCardStep(init, cards[|cards| - 1], id);
    if id in CardIds(init) {
      MergeNewRecord(data, ctx, init, now, id);
    }
  }

  /** Every id on the page ends seen now and active, with the fields of its
      last card. */
  lemma {:induction false} MergeOnPage(data: Partition, ctx: Context, cards: seq<Option<Snapshot>>, now: string, i: nat)
    requires i < |cards| && cards[i].Some?
    requires forall j :: i < j < |cards| && cards[j].Some? ==> cards[j].value.id != cards[i].value.id
    ensures var s := cards[i].value;
      s.id in MergeAll(data, ctx, cards, now) &&
      var r := MergeAll(data, ctx, cards, now)[s.id];
      r.lastSeen == now && r.isActive == Active &&
      r.url == s.url && r.price == Some(s.price) && r.typology == s.typology && r.area == s.area &&
      r.hasGarage == s.hasGarage
    decreases |cards|
  {
    var init := cards[..|cards| - 1];
    if i < |cards| - 1 {
      assert forall j :: i < j < |init| ==> init[j] == cards[j];
      MergeOnPage(data, ctx, init, now, i);
    }
  }

  /** Records whose id is not on the page are left exactly as they were. */
  lemma {:induction false} MergeLeavesOthers(data: Partition, ctx: Context, cards: seq<Option<Snapshot>>, now: string, id: string)
    requires id in data && id !in CardIds(cards)
    ensures id in MergeAll(data, ctx, cards, now) && MergeAll(data, ctx, cards, now)[id] == data[id]
    decreases |cards|
  {
    MergeDomain(data, ctx, cards, now);
    if cards != [] {
      var init := cards[..|cards| - 1];
      assert cards == init + [cards[|cards| - 1]];
      CardIdsStep(init, cards[|cards| - 1]);
      MergeLeavesOthers(data, ctx, init, now, id);
    }
  }

  /** Records whose id is in `ids` are marked inactive; nothing else moves. */
  function Deactivate(p: Partition, ids: set<string>): (r: Partition)
    ensures r.Keys == p.Keys
    ensures forall id :: id in p && id in ids ==> r[id] == p[id].(isActive := Inactive)
    ensures forall id :: id in p && id !in ids ==> r[id] == p[id]
  {
    map id | id in p :: if id in ids then p[id].(isActive := Inactive) else p[id]
  }

  /** The drafts that run this pass. */
  datatype Draft = D81 | D80 | D77 | D72

  /** Drafts 7.2 and 7.7 keep a stored `null` as `null` and update the stored
      partitions one after the other, stopping at the first they cannot
      parse; 8.0 and 8.1 read `null` as `{}` and update the partitions
      independently. */
  predicate Draft7(d: Draft) {
    d.D77? || d.D72?
  }

  const Prefix := ContextSplit.Prefix

  /** A tracker key whose stored text `JSON.parse` does not turn into an
      object: `data[id]` on it throws. */
  predicate Unreadable(store: Store, k: string) {
    StartsWith(k, Prefix) && k in store && !store[k].Doc?
  }

  /** The index of the first unreadable tracker key, or the number of keys. */
  function FirstUnreadable(store: Store, keys: seq<string>): (c: nat)
    ensures c <= |keys|
    ensures forall j :: 0 <= j < c ==> !Unreadable(store, keys[j])
    ensures c < |keys| ==> Unreadable(store, keys[c])
  {
    if keys == [] then 0
    else if Unreadable(store, keys[0]) then 0
    else
      var c := 1 + FirstUnreadable(store, keys[1..]);
      assert forall j :: 1 <= j < c ==> keys[j] == keys[1..][j - 1];
      c
  }

  /** How many listed keys the status update gets through. */
  function Cutoff(store: Store, keys: seq<string>, d: Draft): nat {
    if Draft7(d) then FirstUnreadable(store, keys) else |keys|
  }

  /** The status update rewrites the partition stored under `k`. */
  predicate Reached(store: Store, keys: seq<string>, d: Draft, k: string) {
    k in store && store[k].Doc? && StartsWith(k, Prefix) && k in keys[..Cutoff(store, keys, d)]
  }

  /** Every record of `p` whose id is in `ids` is seen `now` with activity
      `act`. */
  function Touch(p: Partition, ids: set<string>, act: Activity, now: string): Partition {
    map id | id in p :: if id in ids then p[id].(lastSeen := now, isActive := act) else p[id]
  }

  /** The store after `updatePropertyStatus` for every id of `ids`. */
  function Propagate(store: Store, keys: seq<string>, d: Draft, ids: set<string>, act: Activity, now: string): Store {
    map k | k in store :: if Reached(store, keys, d, k) then Doc(Touch(store[k].p, ids, act, now)) else store[k]
  }

  /** The store once the status update has gone through the first `i`
      listed keys. */
  function Partial(store: Store, keys: seq<string>, d: Draft, ids: set<string>, act: Activity, now: string, i: nat): Store
    requires i <= |keys|
  {
    map k | k in store ::
      if Reached(store, keys, d, k) && k in keys[..i] then Doc(Touch(store[k].p, ids, act, now)) else store[k]
  }

  lemma PartialStep(store: Store, keys: seq<string>, d: Draft, ids: set<string>, act: Activity, now: string, i: nat)
    requires Lists(store, keys) && i < |keys| && i < Cutoff(store, keys, d)
    ensures var k := keys[i];
      Partial(store, keys, d, ids, act, now, i + 1) ==
        if Reached(store, keys, d, k) then Partial(store, keys, d, ids, act, now, i)[k := Doc(Touch(store[k].p, ids, act, now))]
        else Partial(store, keys, d, ids, act, now, i)
  {
    var k := keys[i];
    var p1 := Partial(store, keys, d, ids, act, now, i + 1);
    var p0 := Partial(store, keys, d, ids, act, now, i);
    var q := if Reached(store, keys, d, k) then p0[k := Doc(Touch(store[k].p, ids, act, now))] else p0;
    forall x | x in p1 ensures p1[x] == q[x] {
      PartialAt(store, keys, d, ids, act, now, i, x);
    }
    Ordering.SameMap(p1, q);
  }

  /** One more key walked changes the entry under that key only. */
  lemma PartialAt(store: Store, keys: seq<string>, d: Draft, ids: set<string>, act: Activity, now: string, i: nat, x: string)
    requires i < |keys| && x in store
    ensures var k := keys[i]; var p0 := Partial(store, keys, d, ids, act, now, i);
      Partial(store, keys, d, ids, act, now, i + 1)[x] ==
        if x == k && Reached(store, keys, d, k) then Doc(Touch(store[k].p, ids, act, now)) else p0[x]
  {
    assert keys[..i + 1] == keys[..i] + [keys[i]];
    assert x in keys[..i + 1] <==> x in keys[..i] || x == keys[i];
  }

  lemma PartialAll(store: Store, keys: seq<string>, d: Draft, ids: set<string>, act: Activity, now: string, i: nat)
    requires Lists(store, keys) && i <= Cutoff(store, keys, d) && (i == |keys| || i == Cutoff(store, keys, d))
    ensures Partial(store, keys, d, ids, act, now, i) == Propagate(store, keys, d, ids, act, now)
  {
    assert keys[..i] == keys[..Cutoff(store, keys, d)];
  }

  lemma TouchOne(p: Partition, id: string, act: Activity, now: string)
    ensures id in p ==> Touch(p, {id}, act, now) == p[id := p[id].(lastSeen := now, isActive := act)]
    ensures id !in p ==> Touch(p, {id}, act, now) == p
  {
  }

  /** The key under the cursor still holds what the store held. */
  lemma StepUnvisited(store: Store, keys: seq<string>, d: Draft, id: string, act: Activity, now: string, i: nat, updated: Store)
    requires Lists(store, keys) && i < |keys| && updated == Partial(store, keys, d, {id}, act, now, i)
    ensures keys[i] in updated && updated[keys[i]] == store[keys[i]]
  {
    assert keys[i] !in keys[..i];
  }

  /** A readable partition holding the id is rewritten. */
  lemma StepWrite(store: Store, keys: seq<string>, d: Draft, id: string, act: Activity, now: string, i: nat, updated: Store)
    requires Lists(store, keys) && i < |keys| && i <= Cutoff(store, keys, d)
    requires updated == Partial(store, keys, d, {id}, act, now, i)
    requires StartsWith(keys[i], Prefix) && updated[keys[i]].Doc? && id in updated[keys[i]].p
    ensures var p := updated[keys[i]].p;
      i < Cutoff(store, keys, d) &&
      updated[keys[i] := Doc(p[id := p[id].(lastSeen := now, isActive := act)])] == Partial(store, keys, d, {id}, act, now, i + 1)
  {
    StepUnvisited(store, keys, d, id, act, now, i, updated);
    PartialStep(store, keys, d, {id}, act, now, i);
    TouchOne(updated[keys[i]].p, id, act, now);
  }

  /** A key that is not a tracker partition, or one without the id, or an
      unreadable one when the updates are independent, is passed over. */
  lemma StepSkip(store: Store, keys: seq<string>, d: Draft, id: string, act: Activity, now: string, i: nat, updated: Store)
    requires Lists(store, keys) && i < |keys| && i <= Cutoff(store, keys, d)
    requires updated == Partial(store, keys, d, {id}, act, now, i)
    requires !StartsWith(keys[i], Prefix) || (updated[keys[i]].Doc? && id !in updated[keys[i]].p) ||
      (!updated[keys[i]].Doc? && !Draft7(d))
    ensures i < Cutoff(store, keys, d) && updated == Partial(store, keys, d, {id}, act, now, i + 1)
  {
    StepUnvisited(store, keys, d, id, act, now, i, updated);
    PartialStep(store, keys, d, {id}, act, now, i);
    if StartsWith(keys[i], Prefix) && updated[keys[i]].Doc? {
      TouchOne(updated[keys[i]].p, id, act, now);
      assert updated[keys[i] := Doc(updated[keys[i]].p)] == updated;
    }
  }

  /** 7.2 and 7.7 stop at the first unreadable tracker partition. */
  lemma StepStop(store: Store, keys: seq<string>, d: Draft, id: string, act: Activity, now: string, i: nat, updated: Store)
    requires Lists(store, keys) && i < |keys| && i <= Cutoff(store, keys, d)
    requires updated == Partial(store, keys, d, {id}, act, now, i)
    requires StartsWith(keys[i], Prefix) && !updated[keys[i]].Doc? && Draft7(d)
    ensures updated == Propagate(store, keys, d, {id}, act, now)
  {
    StepUnvisited(store, keys, d, id, act, now, i, updated);
    PartialAll(store, keys, d, {id}, act, now, i);
  }

  /** `updatePropertyStatus(id, act)`: every tracker partition holding `id`
      records it as seen now with the given activity. */
  method UpdatePropertyStatus(store: Store, keys: seq<string>, d: Draft, id: string, act: Activity, now: string)
    returns (updated: Store)
    requires Lists(store, keys)
    ensures updated == Propagate(store, keys, d, {id}, act, now)
  {
    updated := store;
    var i := 0;
    while i < |keys|
      invariant i <= |keys| && i <= Cutoff(store, keys, d)
      invariant updated == Partial(store, keys, d, {id}, act, now, i)
    {
      var stop;
      updated, stop := StatusAt(store, keys, d, id, act, now, i, updated);
      if stop {
        return;
      }
      i := i + 1;
    }
    PartialAll(store, keys, d, {id}, act, now, i);
  }

  /** One key of the status update: a readable partition holding the id
      is rewritten, an unreadable tracker partition stops 7.2 and 7.7, and
      any other key is passed over. */
  method StatusAt(store: Store, keys: seq<string>, d: Draft, id: string, act: Activity, now: string, i: nat, updated: Store)
    returns (next: Store, stop: bool)
    requires Lists(store, keys) && i < |keys| && i <= Cutoff(store, keys, d)
    requires updated == Partial(store, keys, d, {id}, act, now, i)
    ensures stop ==> next == Propagate(store, keys, d, {id}, act, now)
    ensures !stop ==> i < Cutoff(store, keys, d) && next == Partial(store, keys, d, {id}, act, now, i + 1)
  {
    var key := keys[i];
    next, stop := updated, false;
    StepUnvisited(store, keys, d, id, act, now, i, updated);
    if StartsWith(key, Prefix) && updated[key].Doc? {
      var p := updated[key].p;
      if id in p {
        StepWrite(store, keys, d, id, act, now, i, updated);
        next := updated[key := Doc(p[id := p[id].(lastSeen := now, isActive := act)])];
      } else {
        StepSkip(store, keys, d, id, act, now, i, updated);
      }
    } else if StartsWith(key, Prefix) && Draft7(d) {
      StepStop(store, keys, d, id, act, now, i, updated);
      stop := true;
    } else {
      StepSkip(store, keys, d, id, act, now, i, updated);
    }
  }

  /** Rewriting records changes neither the keys nor which of them parse, so
      a second update reaches the partitions the first one reached. */
  lemma {:induction false} FirstUnreadableSame(s1: Store, s2: Store, keys: seq<string>)
    requires forall k :: k in s1 <==> k in s2
    requires forall k :: k in s1 ==> (s1[k].Doc? <==> s2[k].Doc?)
    ensures FirstUnreadable(s1, keys) == FirstUnreadable(s2, keys)
    decreases |keys|
  {
    if keys != [] {
      FirstUnreadableSame(s1, s2, keys[1..]);
    }
  }

  lemma PropagateShape(store: Store, keys: seq<string>, d: Draft, ids: set<string>, act: Activity, now: string)
    ensures var s := Propagate(store, keys, d, ids, act, now);
      (forall k :: k in s <==> k in store) && (forall k :: k in store ==> (s[k].Doc? <==> store[k].Doc?)) &&
      (Lists(store, keys) ==> Lists(s, keys)) &&
      Cutoff(s, keys, d) == Cutoff(store, keys, d) &&
      (forall k :: Reached(s, keys, d, k) <==> Reached(store, keys, d, k))
  {
    FirstUnreadableSame(store, Propagate(store, keys, d, ids, act, now), keys);
  }

  /** Two status updates with the same activity and time are one update for
      both sets of ids. */
  lemma PropagateTwice(store: Store, keys: seq<string>, d: Draft, a: set<string>, b: set<string>, act: Activity, now: string)
    ensures Propagate(Propagate(store, keys, d, a, act, now), keys, d, b, act, now) == Propagate(store, keys, d, a + b, act, now)
  {
    var s1 := Propagate(store, keys, d, a, act, now);
    PropagateShape(store, keys, d, a, act, now);
    forall k | k in store
      ensures Propagate(s1, keys, d, b, act, now)[k] == Propagate(store, keys, d, a + b, act, now)[k]
    {
      if Reached(store, keys, d, k) {
        assert Touch(Touch(store[k].p, a, act, now), b, act, now) == Touch(store[k].p, a + b, act, now);
      }
    }
  }

  /** An update for no id changes nothing. */
  lemma PropagateNone(store: Store, keys: seq<string>, d: Draft, act: Activity, now: string)
    ensures Propagate(store, keys, d, {}, act, now) == store
  {
    forall k | Reached(store, keys, d, k) ensures Touch(store[k].p, {}, act, now) == store[k].p {
    }
  }

  /** In 8.0 and 8.1 every readable tracker partition is reached, whatever
      else is stored. */
  lemma IndependentReachesAll(store: Store, keys: seq<string>, d: Draft, k: string)
    requires Lists(store, keys) && !Draft7(d)
    ensures Reached(store, keys, d, k) <==> k in store && store[k].Doc? && StartsWith(k, Prefix)
  {
    assert keys[..|keys|] == keys;
  }

  /** In 7.2 and 7.7 a partition listed after an unreadable tracker key is
      left as it was. */
  lemma SequentialStops(store: Store, keys: seq<string>, d: Draft, j: nat, k: string, ids: set<string>, act: Activity, now: string)
    requires Lists(store, keys) && Draft7(d)
    requires j < |keys| && Unreadable(store, keys[j])
    requires k in keys[j + 1..]
    ensures !Reached(store, keys, d, k)
    ensures Propagate(store, keys, d, ids, act, now)[k] == store[k]
  {
    var c := Cutoff(store, keys, d);
    assert c <= j;
  }

  /** Taking `id` out of what is left adds it to what is gone when it is
      missing from the page. */
  lemma GoneStep<T>(all: set<T>, rest: set<T>, onPage: set<T>, id: T)
    requires id in rest && rest <= all
    ensures rest - {id} <= all && |rest - {id}| < |rest|
    ensures (all - (rest - {id})) - onPage == ((all - rest) - onPage) + (if id in onPage then {} else {id})
  {
    assert rest == (rest - {id}) + {id};
    var l := (all - (rest - {id})) - onPage;
    var r := ((all - rest) - onPage) + (if id in onPage then {} else {id});
    forall x ensures x in l <==> x in r {
      if x == id {} else {}
    }
  }

  lemma DeactivateStep(data: Partition, gone: set<string>, id: string, marked: Partition)
    requires id in data && marked == Deactivate(data, gone)
    ensures Deactivate(data, gone + {id}) == marked[id := marked[id].(isActive := Inactive)]
  {
  }

  lemma AbsentStep(store: Store, keys: seq<string>, d: Draft, gone: set<string>, id: string, now: string, updated: Store)
    requires Lists(store, keys) && updated == Propagate(store, keys, d, gone, Inactive, now)
    ensures Lists(updated, keys)
    ensures Propagate(updated, keys, d, {id}, Inactive, now) == Propagate(store, keys, d, gone + {id}, Inactive, now)
  {
    PropagateShape(store, keys, d, gone, Inactive, now);
    PropagateTwice(store, keys, d, gone, {id}, Inactive, now);
  }

  /** The absence loop of a search by location: every stored id missing
      from the page is marked inactive in memory and, through
      `updatePropertyStatus`, in every stored partition that holds it. */
  method MarkAbsent(data: Partition, onPage: set<string>, store: Store, keys: seq<string>, d: Draft, now: string)
    returns (marked: Partition, updated: Store)
    requires Lists(store, keys)
    ensures marked == Deactivate(data, data.Keys - onPage)
    ensures updated == Propagate(store, keys, d, data.Keys - onPage, Inactive, now)
  {
    marked := data;
    updated := store;
    var rest := data.Keys;
    ghost var gone: set<string> := {};
    PropagateNone(store, keys, d, Inactive, now);
    while rest != {}
      invariant rest <= data.Keys
      invariant gone == (data.Keys - rest) - onPage
      invariant marked == Deactivate(data, gone)
      invariant updated == Propagate(store, keys, d, gone, Inactive, now)
      decreases |rest|
    {
      var id :| id in rest;
      GoneStep(data.Keys, rest, onPage, id);
      if id !in onPage {
        DeactivateStep(data, gone, id, marked);
        marked := marked[id := marked[id].(isActive := Inactive)];
        AbsentStep(store, keys, d, gone, id, now, updated);
        updated := UpdatePropertyStatus(updated, keys, d, id, Inactive, now);
        gone := gone + {id};
      }
      rest := rest - {id};
    }
    assert gone == data.Keys - onPage;
  }

  /** The search context: 7.2 throws reading the first segment of an area
      search with an empty path. */
  function ContextOf(d: Draft, path: string, q: Query): Option<Context> {
    if d.D72? then ContextV72.GetPageContext(path, q) else Some(ContextSplit.GetPageContext(path, q))
  }

  function KeyOf(d: Draft, ctx: Context): string {
    if d.D72? then ContextV72.StorageKey(ctx) else ContextSplit.StorageKey(ctx)
  }

  /** `loadData`: text that does not parse reads as `{}`; so does `null` in
      8.0 and 8.1 (`|| {}`), while 7.2 and 7.7 keep it and then fail on it. */
  function Load(d: Draft, s: Stored): (r: Option<Partition>)
    ensures r.None? <==> s.Null? && Draft7(d)
    ensures s.Doc? ==> r == Some(s.p)
    ensures s.Malformed? ==> r == Some(map[])
  {
    match s
    case Doc(p) => Some(p)
    case Malformed => Some(map[])
    case Null => if Draft7(d) then None else Some(map[])
  }

  /** The ids a pass marks absent: none for an area search. */
  function Gone(ctx: Context, merged: Partition, cards: seq<Option<Snapshot>>): set<string> {
    if ctx.isAreaSearch then {} else merged.Keys - CardIds(cards)
  }

  /** The partition the pass keeps in memory and saves: the merged records,
      the absent ones marked inactive. */
  function Marked(ctx: Context, data: Partition, cards: seq<Option<Snapshot>>, now: string): Partition {
    var merged := MergeAll(data, ctx, cards, now);
    Deactivate(merged, Gone(ctx, merged, cards))
  }

  /** The store just after `saveData`, before any status update has
      written. */
  function Saved(d: Draft, ctx: Context, data: Partition, store: Store, cards: seq<Option<Snapshot>>, now: string): Store {
    store[KeyOf(d, ctx) := Doc(Marked(ctx, data, cards, now))]
  }

  /** The store after 7.2's pass, which awaits each status update before
      the next one and before the save: the absent ids are propagated to
      every partition reached, then the search's own partition is written
      over with the records in memory. */
  function AfterPass(d: Draft, ctx: Context, data: Partition, store: Store, keys: seq<string>,
                     cards: seq<Option<Snapshot>>, now: string): Store
  {
    var merged := MergeAll(data, ctx, cards, now);
    Propagate(store, keys, d, Gone(ctx, merged, cards), Inactive, now)[KeyOf(d, ctx) := Doc(Marked(ctx, data, cards, now))]
  }

  /** What a partition may hold once the status updates for the ids
      `gone`, running together, have all written it back. Each update reads
      the whole partition, marks its own id and writes the whole partition
      back, so the last write carries the marks of some of the ids the
      partition holds, and at least its own. */
  ghost predicate Lands(before: Partition, gone: set<string>, now: string, after: Partition) {
    exists s: set<string> :: s <= gone && after == Touch(before, s, Inactive, now) &&
      (s * before.Keys == {} ==> gone * before.Keys == {})
  }

  /** The value under `k` once the updates have landed: a partition they
      reach holds one of the outcomes `Lands` allows, any other value is
      as it was. */
  ghost predicate LandedAt(base: Store, keys: seq<string>, d: Draft, gone: set<string>, now: string, after: Store, k: string) {
    k in base && k in after &&
    if Reached(base, keys, d, k) then after[k].Doc? && Lands(base[k].p, gone, now, after[k].p)
    else after[k] == base[k]
  }

  /** The stores the concurrent status updates for `gone` may leave, in
      whatever order their reads and writes interleave. */
  ghost predicate Landed(base: Store, keys: seq<string>, d: Draft, gone: set<string>, now: string, after: Store) {
    (forall k :: k in after <==> k in base) && forall k | k in base :: LandedAt(base, keys, d, gone, now, after, k)
  }

  /** The update for `id` when it read the store before any update wrote:
      every partition it reaches that holds `id` is written back as read,
      with `id` marked. */
  function WriteBack(read: Store, into: Store, keys: seq<string>, d: Draft, id: string, now: string): Store {
    map k | k in into ::
      if k in read && Reached(read, keys, d, k) && id in read[k].p then Doc(Touch(read[k].p, {id}, Inactive, now))
      else into[k]
  }

  /** The updates for `order` when every read comes before every write and
      the writes land in that order. */
  function ReadsFirst(store: Store, keys: seq<string>, d: Draft, order: seq<string>, now: string): Store
    decreases |order|
  {
    if order == [] then store
    else WriteBack(store, ReadsFirst(store, keys, d, order[..|order| - 1], now), keys, d, order[|order| - 1], now)
  }

  /** Under that schedule a reached partition ends with exactly one of the
      ids it holds marked: the one written last. */
  lemma {:induction false} ReadsFirstAt(store: Store, keys: seq<string>, d: Draft, order: seq<string>, now: string, k: string)
    requires k in store
    ensures var r := ReadsFirst(store, keys, d, order, now);
      k in r &&
      if Reached(store, keys, d, k) && exists i :: 0 <= i < |order| && order[i] in store[k].p then
        exists i :: 0 <= i < |order| && order[i] in store[k].p && r[k] == Doc(Touch(store[k].p, {order[i]}, Inactive, now))
      else r[k] == store[k]
    decreases |order|
  {
    if order != [] {
      var init := order[..|order| - 1];
      ReadsFirstAt(store, keys, d, init, now, k);
      var last := order[|order| - 1];
      if !(Reached(store, keys, d, k) && last in store[k].p) {
        if Reached(store, keys, d, k) && exists i :: 0 <= i < |init| && init[i] in store[k].p {
          var i :| 0 <= i < |init| && init[i] in store[k].p &&
            ReadsFirst(store, keys, d, init, now)[k] == Doc(Touch(store[k].p, {init[i]}, Inactive, now));
          assert order[i] == init[i];
        } else {
          assert forall i :: 0 <= i < |order| - 1 ==> order[i] == init[i];
        }
      } else {
        assert order[|order| - 1] == last;
      }
    }
  }

  /** An update that marks nothing leaves the partition as it was. */
  lemma TouchNone(p: Partition, now: string)
    ensures Touch(p, {}, Inactive, now) == p
  {
  }

  /** The reads-first schedule is one of the interleavings `Landed`
      allows. */
  lemma ReadsFirstLands(store: Store, keys: seq<string>, d: Draft, order: seq<string>, gone: set<string>, now: string)
    requires forall id :: id in order <==> id in gone
    ensures Landed(store, keys, d, gone, now, ReadsFirst(store, keys, d, order, now))
  {
    forall k | k in store
      ensures LandedAt(store, keys, d, gone, now, ReadsFirst(store, keys, d, order, now), k)
    {
      ReadsFirstLandsAt(store, keys, d, order, gone, now, k);
    }
    ReadsFirstKeys(store, keys, d, order, now);
  }

  lemma ReadsFirstLandsAt(store: Store, keys: seq<string>, d: Draft, order: seq<string>, gone: set<string>, now: string, k: string)
    requires forall id :: id in order <==> id in gone
    requires k in store
    ensures LandedAt(store, keys, d, gone, now, ReadsFirst(store, keys, d, order, now), k)
  {
    var r := ReadsFirst(store, keys, d, order, now);
    ReadsFirstAt(store, keys, d, order, now, k);
    if Reached(store, keys, d, k) {
      var p := store[k].p;
      if exists i :: 0 <= i < |order| && order[i] in p {
        var i :| 0 <= i < |order| && order[i] in p && r[k] == Doc(Touch(p, {order[i]}, Inactive, now));
        LandsOne(p, gone, order[i], now);
      } else {
        forall id | id in gone ensures id !in p {
          var i :| 0 <= i < |order| && order[i] == id;
        }
        LandsUntouched(p, gone, now);
      }
    }
  }

  /** Marking one of the ids the partition holds is a possible outcome. */
  lemma LandsOne(p: Partition, gone: set<string>, w: string, now: string)
    requires w in gone && w in p
    ensures Lands(p, gone, now, Touch(p, {w}, Inactive, now))
  {
    assert w in {w} * p.Keys;
  }

  /** A partition holding none of the ids stays as it is. */
  lemma LandsUntouched(p: Partition, gone: set<string>, now: string)
    requires forall id :: id in gone ==> id !in p
    ensures Lands(p, gone, now, p)
  {
    TouchNone(p, now);
    assert gone * p.Keys == {};
  }

  lemma {:induction false} ReadsFirstKeys(store: Store, keys: seq<string>, d: Draft, order: seq<string>, now: string)
    ensures forall x :: x in ReadsFirst(store, keys, d, order, now) <==> x in store
    decreases |order|
  {
    if order != [] {
      ReadsFirstKeys(store, keys, d, order[..|order| - 1], now);
    }
  }

  /** No update at all is one of the outcomes. */
  lemma LandedNone(store: Store, keys: seq<string>, d: Draft, now: string)
    ensures Landed(store, keys, d, {}, now, store)
  {
    forall k | k in store && Reached(store, keys, d, k)
      ensures Lands(store[k].p, {}, now, store[k].p)
    {
      TouchNone(store[k].p, now);
    }
  }

  /** With no id to mark, every outcome is the partition as it was. */
  lemma LandsNone(before: Partition, now: string, after: Partition)
    requires Lands(before, {}, now, after)
    ensures after == before
  {
    var s :| s <= {} && after == Touch(before, s, Inactive, now) &&
      (s * before.Keys == {} ==> {} * before.Keys == {});
    assert s == {};
    TouchNone(before, now);
  }

  /** The status updates of 8.1, 8.0 and 7.7, started together: here
      every update reads the partitions before any of them writes, and the
      writes land in the order the updates were started. */
  method UpdateTogether(store: Store, keys: seq<string>, d: Draft, gone: set<string>, now: string)
    returns (updated: Store)
    ensures Landed(store, keys, d, gone, now, updated)
  {
    updated := store;
    var rest := gone;
    ghost var order: seq<string> := [];
    while rest != {}
      invariant rest <= gone
      invariant forall id :: id in order <==> id in gone && id !in rest
      invariant updated == ReadsFirst(store, keys, d, order, now)
      decreases |rest|
    {
      var id :| id in rest;
      assert (order + [id])[..|order|] == order;
      updated := WriteBack(store, updated, keys, d, id, now);
      order := order + [id];
      rest := rest - {id};
    }
    ReadsFirstLands(store, keys, d, order, gone, now);
  }

  /** The stores a pass that loaded `data` may leave. 7.2 awaits each
      status update before the next and before the save. 8.1 runs them
      together and awaits them all before the save. 8.0 and 7.7 start them
      without waiting: each begins by listing the keys, so the save is
      issued before any of them reads a partition, and they run on the
      saved store. */
  ghost predicate PassLeaves(d: Draft, ctx: Context, data: Partition, store: Store, keys: seq<string>,
                             cards: seq<Option<Snapshot>>, now: string, result: Store) {
    var own := KeyOf(d, ctx);
    var gone := Gone(ctx, MergeAll(data, ctx, cards, now), cards);
    match d
    case D72 => result == AfterPass(d, ctx, data, store, keys, cards, now)
    case D81 =>
      own in result && result[own] == Doc(Marked(ctx, data, cards, now)) &&
      (forall k :: k in result <==> k in store || k == own) &&
      forall k | k in store && k != own :: LandedAt(store, keys, d, gone, now, result, k)
    case _ => Landed(Saved(d, ctx, data, store, cards, now), keys, d, gone, now, result)
  }

  /** Every record is on the panel. */
  predicate Any(r: Record) { true }

  /** The panel shows the partition's records, newest `lastSeen` first, each
      once per id. */
  ghost predicate Shows(display: seq<Record>, p: Partition) {
    Ordering.View(Ordering.ByLastSeen, display, p, Any)
  }

  /** `Object.values(data).sort(...)`. */
  method Display(p: Partition) returns (display: seq<Record>)
    ensures Shows(display, p)
  {
    var values;
    ghost var kept;
    values, kept := Ordering.Filter(p, Any);
    display := Ordering.Sort(Ordering.ByLastSeen, values);
    Ordering.ViewOf(Ordering.ByLastSeen, values, kept, p, Any);
  }

  /** The pass once the partition is loaded: the panel shows the records in
      memory. */
  method Reconcile(d: Draft, ctx: Context, data: Partition, store: Store, keys: seq<string>,
                   cards: seq<Option<Snapshot>>, now: string)
    returns (result: Store, newCount: nat, display: seq<Record>)
    requires Lists(store, keys)
    ensures PassLeaves(d, ctx, data, store, keys, cards, now, result)
    ensures newCount == |CardIds(cards) - data.Keys|
    ensures Shows(display, Marked(ctx, data, cards, now))
  {
    var merged, marked;
    merged, newCount := Merge(data, ctx, cards, now);
    marked, result := Absence(ctx, merged, cards, store, keys, d, now);
    result := result[KeyOf(d, ctx) := Doc(marked)];
    if d.D80? || d.D77? {
      result := UpdateTogether(result, keys, d, Gone(ctx, merged, cards), now);
    }
    display := Display(marked);
  }

  /** `if (!ctx.isAreaSearch) { ... }`: the absent ids are marked inactive
      in memory. 7.2 awaits their status updates one after the other, 8.1
      awaits them all together, and 8.0 and 7.7 have not written anything
      yet when the loop ends. */
  method Absence(ctx: Context, merged: Partition, cards: seq<Option<Snapshot>>, store: Store, keys: seq<string>,
                 d: Draft, now: string)
    returns (marked: Partition, updated: Store)
    requires Lists(store, keys)
    ensures marked == Deactivate(merged, Gone(ctx, merged, cards))
    ensures d.D72? ==> updated == Propagate(store, keys, d, Gone(ctx, merged, cards), Inactive, now)
    ensures d.D81? ==> Landed(store, keys, d, Gone(ctx, merged, cards), now, updated)
    ensures d.D80? || d.D77? ==> updated == store
  {
    if ctx.isAreaSearch {
      PropagateNone(store, keys, d, Inactive, now);
      LandedNone(store, keys, d, now);
      assert Deactivate(merged, {}) == merged;
      marked, updated := merged, store;
    } else if d.D72? {
      marked, updated := MarkAbsent(merged, CardIds(cards), store, keys, d, now);
    } else {
      marked := Deactivate(merged, Gone(ctx, merged, cards));
      updated := store;
      if d.D81? {
        updated := UpdateTogether(store, keys, d, Gone(ctx, merged, cards), now);
      }
    }
  }

  /** `createUI` up to the panel: the context, the load, the merge, the
      absence loop for a search by location, the save and the sorted
      display. A failure leaves the store as it was. */
  method Pass(d: Draft, path: string, q: Query, store: Store, keys: seq<string>, cards: seq<Option<Snapshot>>, now: string)
    returns (result: Store, out: Outcome)
    requires Lists(store, keys)
    ensures ContextOf(d, path, q).None? ==> out == Crashed && result == store
    ensures ContextOf(d, path, q).Some? && ContextOf(d, path, q).value.transactionType == "" ==>
      out == Skipped && result == store
    ensures ContextOf(d, path, q).Some? && ContextOf(d, path, q).value.transactionType != "" ==>
      var ctx := ContextOf(d, path, q).value;
      var loaded := Load(d, Fetch(store, KeyOf(d, ctx)));
      (loaded.None? ==> out == Crashed && result == store) &&
      (loaded.Some? ==>
        PassLeaves(d, ctx, loaded.value, store, keys, cards, now, result) &&
        out.Shown? && out.newCount == |CardIds(cards) - loaded.value.Keys| &&
        Shows(out.display, Marked(ctx, loaded.value, cards, now)))
  {
    var c := ContextOf(d, path, q);
    if c.None? {
      return store, Crashed;
    }
    var ctx := c.value;
    if ctx.transactionType == "" {
      return store, Skipped;
    }
    var key := KeyOf(d, ctx);
    var loaded := Load(d, Fetch(store, key));
    if loaded.None? {
      return store, Crashed;
    }
    var newCount, display;
    result, newCount, display := Reconcile(d, ctx, loaded.value, store, keys, cards, now);
    out := Shown(newCount, display);
  }

  /** An absent id is marked inactive in memory and in the saved partition. */
  lemma MarkedAbsent(ctx: Context, data: Partition, cards: seq<Option<Snapshot>>, now: string, id: string)
    requires !ctx.isAreaSearch && id in data && id !in CardIds(cards)
    ensures var m := Marked(ctx, data, cards, now);
      id in m && m[id] == data[id].(isActive := Inactive) &&
      id in Gone(ctx, MergeAll(data, ctx, cards, now), cards)
  {
    MergeLeavesOthers(data, ctx, cards, now, id);
  }

  /** A record that left the page is inactive in the search's own partition
      afterwards. 7.2 and 8.1 save last, from memory, so the partition keeps
      the time the record was last on the page; in 8.0 and 7.7 a status
      update that lands after the save may stamp it seen now. */
  lemma AbsentLastSeen(d: Draft, ctx: Context, data: Partition, store: Store, keys: seq<string>,
                       cards: seq<Option<Snapshot>>, now: string, result: Store, id: string)
    requires PassLeaves(d, ctx, data, store, keys, cards, now, result)
    requires !ctx.isAreaSearch && id in data && id !in CardIds(cards)
    ensures var own := KeyOf(d, ctx);
      own in result && result[own].Doc? && id in result[own].p &&
      (d.D72? || d.D81? ==> result[own].p[id] == data[id].(isActive := Inactive)) &&
      (d.D80? || d.D77? ==>
        result[own].p[id] == data[id].(isActive := Inactive) ||
        result[own].p[id] == data[id].(lastSeen := now, isActive := Inactive))
  {
    MarkedAbsent(ctx, data, cards, now, id);
    var own := KeyOf(d, ctx);
    if d.D80? || d.D77? {
      var base := Saved(d, ctx, data, store, cards, now);
      assert LandedAt(base, keys, d, Gone(ctx, MergeAll(data, ctx, cards, now), cards), now, result, own);
    }
  }

  /** Every other partition the status updates reach that holds the absent
      record keeps it, inactive or as stored. When the updates run one
      after the other (7.2) it is inactive and seen now; when they run
      together, a lost write can leave it as stored. */
  lemma AbsentElsewhere(d: Draft, ctx: Context, data: Partition, store: Store, keys: seq<string>,
                        cards: seq<Option<Snapshot>>, now: string, result: Store, id: string, k: string)
    requires PassLeaves(d, ctx, data, store, keys, cards, now, result)
    requires !ctx.isAreaSearch && id in data && id !in CardIds(cards)
    requires k != KeyOf(d, ctx) && k in store && store[k].Doc? && id in store[k].p
    requires Reached(if d.D80? || d.D77? then Saved(d, ctx, data, store, cards, now) else store, keys, d, k)
    ensures k in result && result[k].Doc? && id in result[k].p
    ensures d.D72? ==> result[k].p[id] == store[k].p[id].(lastSeen := now, isActive := Inactive)
    ensures result[k].p[id] == store[k].p[id] ||
      result[k].p[id] == store[k].p[id].(lastSeen := now, isActive := Inactive)
  {
    MarkedAbsent(ctx, data, cards, now, id);
    var gone := Gone(ctx, MergeAll(data, ctx, cards, now), cards);
    if !d.D72? {
      var base := if d.D80? || d.D77? then Saved(d, ctx, data, store, cards, now) else store;
      assert base[k] == store[k];
      assert LandedAt(base, keys, d, gone, now, result, k);
      var s :| s <= gone && result[k].p == Touch(store[k].p, s, Inactive, now) &&
        (s * store[k].p.Keys == {} ==> gone * store[k].p.Keys == {});
    }
  }

  /** Two absent records held by one partition: when both updates read it
      before either writes, the write landing last drops the other's mark,
      and the first record stays active with its old `lastSeen` there.
      Updating one after the other marks both. */
  lemma LostUpdate(store: Store, keys: seq<string>, d: Draft, k: string, x: string, y: string, now: string)
    requires !d.D72? && Reached(store, keys, d, k)
    requires x != y && x in store[k].p && y in store[k].p && store[k].p[x].isActive == Active
    ensures var r := ReadsFirst(store, keys, d, [x, y], now);
      Landed(store, keys, d, {x, y}, now, r) &&
      k in r && r[k].Doc? && x in r[k].p && r[k].p[x] == store[k].p[x] && r[k].p[x].isActive == Active
    ensures var s := Propagate(store, keys, d, {x, y}, Inactive, now);
      k in s && s[k].Doc? && x in s[k].p && s[k].p[x].isActive == Inactive
  {
    ReadsFirstLands(store, keys, d, [x, y], {x, y}, now);
    assert [x, y][..1] == [x];
    assert [x][..0] == [];
  }

  /** 8.0 and 7.7 save before the status updates write: when one record
      left the page and the updates reach the search's own partition, the
      record there is stamped seen now although it is no longer listed. */
  lemma SeenAfterSave(d: Draft, ctx: Context, data: Partition, store: Store, keys: seq<string>,
                      cards: seq<Option<Snapshot>>, now: string, result: Store, id: string)
    requires d.D80? || d.D77?
    requires PassLeaves(d, ctx, data, store, keys, cards, now, result)
    requires !ctx.isAreaSearch && id in data && data.Keys - CardIds(cards) == {id}
    requires Reached(Saved(d, ctx, data, store, cards, now), keys, d, KeyOf(d, ctx))
    ensures var own := KeyOf(d, ctx);
      own in result && result[own].Doc? && id in result[own].p &&
      result[own].p[id] == data[id].(lastSeen := now, isActive := Inactive)
  {
    MarkedAbsent(ctx, data, cards, now, id);
    var own := KeyOf(d, ctx);
    var merged := MergeAll(data, ctx, cards, now);
    MergeDomain(data, ctx, cards, now);
    var gone := Gone(ctx, merged, cards);
    assert gone == {id};
    var base := Saved(d, ctx, data, store, cards, now);
    var m := Marked(ctx, data, cards, now);
    assert LandedAt(base, keys, d, gone, now, result, own);
    var s :| s <= gone && result[own].p == Touch(m, s, Inactive, now) &&
      (s * m.Keys == {} ==> gone * m.Keys == {});
    assert id in gone * m.Keys;
    assert s == {id};
  }

  /** A search by area marks nothing absent: every other stored key keeps
      its value. */
  lemma AreaPassLeavesOthers(d: Draft, ctx: Context, data: Partition, store: Store, keys: seq<string>,
                             cards: seq<Option<Snapshot>>, now: string, result: Store, k: string)
    requires PassLeaves(d, ctx, data, store, keys, cards, now, result)
    requires ctx.isAreaSearch && k in store && k != KeyOf(d, ctx)
    ensures k in result && result[k] == store[k]
  {
    PropagateNone(store, keys, d, Inactive, now);
    if !d.D72? {
      var base := if d.D80? || d.D77? then Saved(d, ctx, data, store, cards, now) else store;
      assert base[k] == store[k];
      assert LandedAt(base, keys, d, {}, now, result, k);
      if Reached(base, keys, d, k) {
        LandsNone(store[k].p, now, result[k].p);
      }
    }
  }
}

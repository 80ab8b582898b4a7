/** The merge of drafts 5.0, 6.0, 6.1 and 6.2: one partition per search (one
    key for everything in 5.0), a record is new while it lacks `firstSeen`,
    and a known record whose price moved gets one price-history entry. The
    panel lists the records seen today, dearest first. */
module HistoryV6 {
  import opened Text
  import opened Records
  import Ordering
  import ContextV6

  datatype Draft = D62 | D61 | D60 | D50

  /** 5.0, 6.1 and 6.2 log a change only when the stored price is defined;
      6.0 compares with `undefined` as well. */
  predicate Guarded(d: Draft) {
    d != D60
  }

  /** `{date, oldPrice, newPrice, change: newPrice - oldPrice}`; with an
      undefined old price the difference is `NaN`. */
  function Entry(today: string, before: Option<int>, price: int): PriceChange {
    PriceChange(today, before, price, match before case Some(o) => Some(price - o) case None => None)
  }

  /** A known record whose price differs from the card's, as the draft
      tests it. */
  predicate Changed(d: Draft, existing: Record, price: int) {
    existing.firstSeen != "" && (Guarded(d) ==> existing.price.Some?) && existing.price != Some(price)
  }

  /** `allData[id] || {}`. */
  function Existing(p: Partition, id: string): Record {
    if id in p then p[id] else Blank
  }

  /** `{...existing, ...propInfo, lastSeen: TODAY, history: existing.history
      || []}`, stamped when new, with an entry pushed when the price moved. */
  function MergeCard(d: Draft, existing: Record, s: Snapshot, today: string): (r: Record)
    ensures r.id == s.id && r.url == s.url && r.price == Some(s.price) && r.lastSeen == today
    ensures r.location == existing.location && r.subLocation == existing.subLocation
    ensures existing.firstSeen == "" ==>
      r.firstSeen == today && r.initialPrice == Some(s.price) && r.history == existing.history
    ensures existing.firstSeen != "" ==>
      r.firstSeen == existing.firstSeen && r.initialPrice == existing.initialPrice
    ensures |existing.history| <= |r.history| <= |existing.history| + 1
    ensures r.history[..|existing.history|] == existing.history
  {
    var r := Overlay(existing, s).(lastSeen := today);
    if existing.firstSeen == "" then r.(firstSeen := today, initialPrice := Some(s.price))
    else if Changed(d, existing, s.price) then r.(history := existing.history + [Entry(today, existing.price, s.price)])
    else r
  }

  datatype Merged = Merged(p: Partition, newCount: nat)

  /** One card of the loop; a card the extractor could not read is
      skipped. */
  function Step(d: Draft, today: string, m: Merged, c: Option<Snapshot>): Merged {
    if c.None? then m
    else
      var s := c.value;
      var e := Existing(m.p, s.id);
      Merged(m.p[s.id := MergeCard(d, e, s, today)], if e.firstSeen == "" then m.newCount + 1 else m.newCount)
  }

  /** The card loop over the loaded partition `p0`. */
  function MergeAll(d: Draft, p0: Partition, cards: seq<Option<Snapshot>>, today: string): Merged
    decreases |cards|
  {
    if cards == [] then Merged(p0, 0)
    else Step(d, today, MergeAll(d, p0, cards[..|cards| - 1], today), cards[|cards| - 1])
  }

  lemma MergeStep(d: Draft, p0: Partition, cards: seq<Option<Snapshot>>, today: string, i: nat)
    requires i < |cards|
    ensures MergeAll(d, p0, cards[..i + 1], today) == Step(d, today, MergeAll(d, p0, cards[..i], today), cards[i])
  {
    assert cards[..i + 1][..i] == cards[..i];
  }

  /** The loop of `createUI` (`processProperties` in 5.0 and 6.0), writing
      into the loaded partition and counting the new records. */
  method Process(d: Draft, p0: Partition, cards: seq<Option<Snapshot>>, today: string)
    returns (p: Partition, newCount: nat)
    ensures Merged(p, newCount) == MergeAll(d, p0, cards, today)
  {
    p := p0;
    newCount := 0;
    var i := 0;
    while i < |cards|
      invariant i <= |cards|
      invariant Merged(p, newCount) == MergeAll(d, p0, cards[..i], today)
    {
      MergeStep(d, p0, cards, today, i);
      if cards[i].Some? {
        var s := cards[i].value;
        var existing := if s.id in p then p[s.id] else Blank;
        var updated := Overlay(existing, s).(lastSeen := today);
        if existing.firstSeen == "" {
          updated := updated.(firstSeen := today, initialPrice := Some(s.price));
          newCount := newCount + 1;
        } else if (d != D60 ==> existing.price.Some?) && existing.price != Some(s.price) {
          updated := updated.(history := existing.history + [Entry(today, existing.price, s.price)]);
        }
        p := p[s.id := updated];
      }
      i := i + 1;
    }
    assert cards[..i] == cards;
  }

  /** A card on a known record: the first sighting and initial price stay,
      and the history grows by exactly one entry, from the stored price to
      the card's, when the draft sees a change, and by none otherwise. */
  lemma MergeCardKnown(d: Draft, existing: Record, s: Snapshot, today: string)
    requires existing.firstSeen != ""
    ensures var r := MergeCard(d, existing, s, today);
      r.firstSeen == existing.firstSeen && r.initialPrice == existing.initialPrice &&
      r.price == Some(s.price) && r.lastSeen == today &&
      (Changed(d, existing, s.price) ==>
         |r.history| == |existing.history| + 1 && r.history[..|existing.history|] == existing.history &&
         var e := r.history[|existing.history|];
         e.date == today && e.oldPrice == existing.price && e.newPrice == s.price &&
         (existing.price.Some? ==> e.change == Some(s.price - existing.price.value))) &&
      (!Changed(d, existing, s.price) ==> r.history == existing.history)
  {
  }

  /** The partition holds what it held and the ids of the cards. */
  lemma {:induction false} MergeDomain(d: Draft, p0: Partition, cards: seq<Option<Snapshot>>, today: string)
    ensures MergeAll(d, p0, cards, today).p.Keys == p0.Keys + CardIds(cards)
    decreases |cards|
  {
    if cards != [] {
      var init := cards[..|cards| - 1];
      MergeDomain(d, p0, init, today);
      assert cards == init + [cards[|cards| - 1]];
      CardIdsStep(init, cards[|cards| - 1]);
    }
  }

  /** Every record a card names is seen today and carries the card's id. */
  lemma {:induction false} MergeSeenToday(d: Draft, p0: Partition, cards: seq<Option<Snapshot>>, today: string, id: string)
    requires id in CardIds(cards)
    ensures var p := MergeAll(d, p0, cards, today).p;
      id in p && p[id].lastSeen == today && p[id].id == id
    decreases |cards|
  {
    var init := cards[..|cards| - 1];
    var c := cards[|cards| - 1];
    assert cards == init + [c];
    CardIdsStep(init, c);
    var q := MergeAll(d, p0, init, today);
    assert MergeAll(d, p0, cards, today) == Step(d, today, q, c);
    if c.Some? && c.value.id == id {
      MergeCardSeen(d, Existing(q.p, id), c.value, today);
    } else {
      MergeSeenToday(d, p0, init, today, id);
    }
  }

  /** A merged card is seen today under the card's id. */
  lemma MergeCardSeen(d: Draft, existing: Record, s: Snapshot, today: string)
    ensures MergeCard(d, existing, s, today).lastSeen == today && MergeCard(d, existing, s, today).id == s.id
  {
  }

  /** A record no card names is left as stored. */
  lemma {:induction false} MergeLeavesOthers(d: Draft, p0: Partition, cards: seq<Option<Snapshot>>, today: string, id: string)
    requires id in p0 && id !in CardIds(cards)
    ensures var p := MergeAll(d, p0, cards, today).p;
      id in p && p[id] == p0[id]
    decreases |cards|
  {
    if cards != [] {
      var init := cards[..|cards| - 1];
      assert cards == init + [cards[|cards| - 1]];
      CardIdsStep(init, cards[|cards| - 1]);
      MergeLeavesOthers(d, p0, init, today, id);
    }
  }

  /** Once a record has a first sighting, it and the initial price never
      change, and its history only grows at the end. */
  lemma {:induction false} MergeKeepsWriteOnce(d: Draft, p0: Partition, cards: seq<Option<Snapshot>>, today: string, id: string)
    requires id in p0 && p0[id].firstSeen != ""
    ensures var p := MergeAll(d, p0, cards, today).p;
      id in p && p[id].firstSeen == p0[id].firstSeen && p[id].initialPrice == p0[id].initialPrice &&
      |p0[id].history| <= |p[id].history| && p[id].history[..|p0[id].history|] == p0[id].history
    decreases |cards|
  {
    if cards != [] {
      var init := cards[..|cards| - 1];
      MergeKeepsWriteOnce(d, p0, init, today, id);
      var q := MergeAll(d, p0, init, today).p;
      var c := cards[|cards| - 1];
      if c.Some? && c.value.id == id && Changed(d, q[id], c.value.price) {
        var h := q[id].history + [Entry(today, q[id].price, c.value.price)];
        assert h[..|p0[id].history|] == q[id].history[..|p0[id].history|];
      }
    }
  }

  /** Every card with id `id` shows the same price. */
  predicate OnePrice(cards: seq<Option<Snapshot>>, id: string)
    requires id in CardIds(cards)
  {
    forall i :: 0 <= i < |cards| && cards[i].Some? && cards[i].value.id == id ==>
      cards[i].value.price == FirstCardPrice(cards, id)
  }

  /** A record first met in this pass is stamped with today, and (today
      being a formatted, non-empty date) its initial price is the price on
      its first card. Its history is the one it was stored with (none for a
      new id) when all its cards show one price; a second card at another
      price logs a change, see `RepeatedCardLogsChange`. */
  lemma {:induction false} MergeStampsNew(d: Draft, p0: Partition, cards: seq<Option<Snapshot>>, today: string, id: string)
    requires id in CardIds(cards) && Existing(p0, id).firstSeen == ""
    ensures var p := MergeAll(d, p0, cards, today).p;
      id in p && p[id].firstSeen == today && p[id].initialPrice.Some? &&
      (today != "" ==> p[id].initialPrice == Some(FirstCardPrice(cards, id))) &&
      (OnePrice(cards, id) ==> p[id].price == Some(FirstCardPrice(cards, id)) && p[id].history == Existing(p0, id).history) &&
      (id !in p0 && OnePrice(cards, id) ==> p[id].history == [])
    decreases |cards|
  {
    var init := cards[..|cards| - 1];
    var c := cards[|cards| - 1];
    assert cards == init + [c];
    CardIdsStep(init, c);
    FirstCardStep(init, c, id);
    var q := MergeAll(d, p0, init, today);
    assert MergeAll(d, p0, cards, today) == Step(d, today, q, c);
    if id in CardIds(init) {
      if OnePrice(cards, id) {
        forall i | 0 <= i < |init| && init[i].Some? && init[i].value.id == id
          ensures init[i].value.price == FirstCardPrice(init, id)
        {
          assert init[i] == cards[i];
        }
      }
      MergeStampsNew(d, p0, init, today, id);
      if c.Some? && c.value.id == id {
        assert OnePrice(cards, id) ==> c.value.price == FirstCardPrice(cards, id) by {
          assert cards[|cards| - 1] == c;
        }
        RestampOrKeep(d, q.p[id], c.value, today);
      }
    } else {
      if id in p0 {
        MergeLeavesOthers(d, p0, init, today, id);
      } else {
        MergeDomain(d, p0, init, today);
      }
      assert Existing(q.p, id) == Existing(p0, id);
    }
  }

  /** A second card for a record stamped in this pass: with a non-empty
      date the stamp stays, and a card at the same price adds no entry. */
  lemma RestampOrKeep(d: Draft, e: Record, s: Snapshot, today: string)
    requires e.firstSeen == today && e.initialPrice.Some?
    ensures var r := MergeCard(d, e, s, today);
      r.firstSeen == today && r.initialPrice.Some? && r.price == Some(s.price) &&
      (today != "" ==> r.initialPrice == e.initialPrice) &&
      (e.price == Some(s.price) ==> r.history == e.history)
  {
  }

  /** A new id whose two cards show different prices ends the pass with a
      logged change, from the first card's price to the second's. */
  lemma RepeatedCardLogsChange(d: Draft, today: string)
    requires today != ""
    ensures var a := Snapshot("1", "u", 100, "T1", "50 m²", false);
      var b := Snapshot("1", "u", 90, "T1", "50 m²", false);
      var r := MergeAll(d, map[], [Some(a), Some(b)], today).p["1"];
      r.initialPrice == Some(100) && r.history == [Entry(today, Some(100), 90)]
  {
    var a := Snapshot("1", "u", 100, "T1", "50 m²", false);
    var b := Snapshot("1", "u", 90, "T1", "50 m²", false);
    var cards := [Some(a), Some(b)];
    assert cards[..|cards| - 1] == [Some(a)] && [Some(a)][..0] == [];
    var q0 := MergeAll(d, map[], [], today);
    assert q0 == Merged(map[], 0);
    var q := MergeAll(d, map[], [Some(a)], today);
    assert q == Step(d, today, q0, Some(a));
    assert q.p["1"] == MergeCard(d, Blank, a, today);
  }

  /** The ids of the cards whose record has no first sighting yet. */
  function Unseen(p0: Partition, cards: seq<Option<Snapshot>>): set<string> {
    set id | id in CardIds(cards) && Existing(p0, id).firstSeen == ""
  }

  lemma UnseenStep(d: Draft, p0: Partition, init: seq<Option<Snapshot>>, c: Option<Snapshot>, today: string)
    requires c.Some? && today != ""
    ensures var q := MergeAll(d, p0, init, today).p;
      Unseen(p0, init + [c]) ==
        Unseen(p0, init) + (if Existing(q, c.value.id).firstSeen == "" then {c.value.id} else {})
    ensures var q := MergeAll(d, p0, init, today).p;
      Existing(q, c.value.id).firstSeen == "" ==> c.value.id !in Unseen(p0, init)
  {
    var id := c.value.id;
    CardIdsStep(init, c);
    var q := MergeAll(d, p0, init, today).p;
    if id in CardIds(init) {
      MergeSeenToday(d, p0, init, today, id);
      if Existing(p0, id).firstSeen == "" {
        MergeStampsNew(d, p0, init, today, id);
      } else {
        MergeKeepsWriteOnce(d, p0, init, today, id);
      }
    } else if id in p0 {
      MergeLeavesOthers(d, p0, init, today, id);
    } else {
      MergeDomain(d, p0, init, today);
    }
  }

  /** `newCount` is the number of distinct card ids whose record had no
      first sighting: a repeated card counts once, since `TODAY` is never
      empty. */
  lemma {:induction false} MergeCounts(d: Draft, p0: Partition, cards: seq<Option<Snapshot>>, today: string)
    requires today != ""
    ensures MergeAll(d, p0, cards, today).newCount == |Unseen(p0, cards)|
    decreases |cards|
  {
    if cards == [] {
      assert Unseen(p0, cards) == {};
    } else {
      var init := cards[..|cards| - 1];
      var c := cards[|cards| - 1];
      assert cards == init + [c];
      MergeCounts(d, p0, init, today);
      if c.Some? {
        UnseenStep(d, p0, init, c, today);
      } else {
        CardIdsStep(init, c);
        assert Unseen(p0, cards) == Unseen(p0, init);
      }
    }
  }

  /** A history entry as the guarded drafts write it: a defined old price,
      a different new one, and their difference. */
  predicate Sound(e: PriceChange) {
    e.oldPrice.Some? && e.oldPrice.value != e.newPrice && e.change == Some(e.newPrice - e.oldPrice.value)
  }

  predicate AllSound(p: Partition) {
    forall id :: id in p ==> forall j :: 0 <= j < |p[id].history| ==> Sound(p[id].history[j])
  }

  /** The guarded drafts only ever log real changes: sound histories stay
      sound. */
  lemma {:induction false} GuardedKeepsSound(d: Draft, p0: Partition, cards: seq<Option<Snapshot>>, today: string)
    requires Guarded(d) && AllSound(p0)
    ensures AllSound(MergeAll(d, p0, cards, today).p)
    decreases |cards|
  {
    if cards != [] {
      var init := cards[..|cards| - 1];
      GuardedKeepsSound(d, p0, init, today);
      var q := MergeAll(d, p0, init, today).p;
      var c := cards[|cards| - 1];
      if c.Some? {
        SoundStep(d, q, c.value, today);
      }
    }
  }

  lemma SoundStep(d: Draft, q: Partition, s: Snapshot, today: string)
    requires Guarded(d) && AllSound(q)
    ensures AllSound(q[s.id := MergeCard(d, Existing(q, s.id), s, today)])
  {
    var e := Existing(q, s.id);
    var r := MergeCard(d, e, s, today);
    assert forall j :: 0 <= j < |e.history| ==> Sound(e.history[j]);
    if e.firstSeen != "" && Changed(d, e, s.price) {
      assert r.history == e.history + [Entry(today, e.price, s.price)];
    } else {
      assert r.history == e.history;
    }
    assert forall j :: 0 <= j < |r.history| ==> Sound(r.history[j]);
  }

  /** 6.0 logs a change against a stored record without a price: the entry
      has an undefined old price and a `NaN` change, where 6.1 logs
      nothing. */
  lemma UnguardedLogsUndefined(today: string)
    ensures var known := Blank.(id := "1", firstSeen := "01/01/2024");
      var s := Snapshot("1", "u", 100, "T1", "50 m²", false);
      MergeCard(D60, known, s, today).history == [PriceChange(today, None, 100, None)] &&
      !Sound(MergeCard(D60, known, s, today).history[0]) &&
      MergeCard(D61, known, s, today).history == []
  {
  }

  /** The filter of the panel: seen today. */
  function SeenOn(today: string): Record -> bool {
    (r: Record) => r.lastSeen == today
  }

  /** The panel's list: the records seen today, dearest first, each once per
      id. */
  ghost predicate ShowsToday(display: seq<Record>, p: Partition, today: string) {
    Ordering.View(Ordering.ByPrice, display, p, SeenOn(today))
  }

  /** `Object.values(allData).filter(p => p.lastSeen === TODAY).sort(...)`. */
  method TodayView(p: Partition, today: string) returns (display: seq<Record>)
    ensures ShowsToday(display, p, today)
  {
    var values;
    ghost var kept;
    values, kept := Ordering.Filter(p, SeenOn(today));
    display := Ordering.Sort(Ordering.ByPrice, values);
    Ordering.ViewOf(Ordering.ByPrice, values, kept, p, SeenOn(today));
  }

  /** Every card read from the page is on the panel. */
  lemma PageIsShown(d: Draft, p0: Partition, cards: seq<Option<Snapshot>>, today: string, display: seq<Record>, id: string)
    requires ShowsToday(display, MergeAll(d, p0, cards, today).p, today) && id in CardIds(cards)
    ensures exists i :: 0 <= i < |display| && display[i].id == id
  {
    var p := MergeAll(d, p0, cards, today).p;
    MergeSeenToday(d, p0, cards, today, id);
    assert p[id] in display;
  }

  /** 5.0's `newToday`: the listed records first seen today. */
  function CountFirstSeen(s: seq<Record>, today: string): nat
    decreases |s|
  {
    if s == [] then 0
    else CountFirstSeen(s[..|s| - 1], today) + (if s[|s| - 1].firstSeen == today then 1 else 0)
  }

  method NewToday(display: seq<Record>, today: string) returns (n: nat)
    ensures n == CountFirstSeen(display, today)
  {
    n := 0;
    var i := 0;
    while i < |display|
      invariant i <= |display| && n == CountFirstSeen(display[..i], today)
    {
      assert display[..i + 1][..i] == display[..i];
      if display[i].firstSeen == today {
        n := n + 1;
      }
      i := i + 1;
    }
    assert display[..i] == display;
  }

  /** A list holding distinct records first seen today counts each. */
  lemma {:induction false} CountAtLeast(s: seq<Record>, today: string, rs: set<Record>)
    requires forall r :: r in rs ==> r in s && r.firstSeen == today
    ensures CountFirstSeen(s, today) >= |rs|
    decreases |s|
  {
    if s != [] {
      var last := s[|s| - 1];
      var init := s[..|s| - 1];
      assert s == init + [last];
      var rest := rs - {last};
      forall r | r in rest ensures r in init && r.firstSeen == today {
        assert r in s && r != last;
      }
      CountAtLeast(init, today, rest);
    } else {
      assert rs == {};
    }
  }

  /** The records of distinct ids that carry those ids are distinct. */
  lemma {:induction false} RecordsOfIds(p: Partition, ids: set<string>)
    requires forall id :: id in ids ==> id in p && p[id].id == id
    ensures |set id | id in ids :: p[id]| == |ids|
    decreases |ids|
  {
    if ids != {} {
      var x :| x in ids;
      var rest := ids - {x};
      RecordsOfIds(p, rest);
      var all := set id | id in ids :: p[id];
      var part := set id | id in rest :: p[id];
      assert p[x] !in part;
      assert all == part + {p[x]};
    } else {
      assert (set id | id in ids :: p[id]) == {};
    }
  }

  /** 5.0's `newToday` is never below the records this pass found new. */
  lemma NewTodayCountsNew(p0: Partition, cards: seq<Option<Snapshot>>, today: string, display: seq<Record>)
    requires today != ""
    requires ShowsToday(display, MergeAll(D50, p0, cards, today).p, today)
    ensures CountFirstSeen(display, today) >= MergeAll(D50, p0, cards, today).newCount
  {
    var p := MergeAll(D50, p0, cards, today).p;
    var ids := Unseen(p0, cards);
    MergeCounts(D50, p0, cards, today);
    forall id | id in ids ensures id in p && p[id].id == id && p[id].lastSeen == today && p[id].firstSeen == today {
      MergeSeenToday(D50, p0, cards, today, id);
      MergeStampsNew(D50, p0, cards, today, id);
    }
    RecordsOfIds(p, ids);
    CountAtLeast(display, today, set id | id in ids :: p[id]);
  }

  /** The key a pass reads and writes. */
  function KeyOf(d: Draft, path: string): string {
    match d
    case D50 => ContextV6.Key50
    case D60 => ContextV6.StorageKey(Context(false, ContextV6.Transaction(path, "-"), ContextV6.PropertyType60(path), "", "", "", ""))
    case _ => ContextV6.StorageKey(Context(false, ContextV6.Transaction(path, ""), ContextV6.FirstType(Lower(path), 0), "", "", "", ""))
  }

  /** The pass returns before loading: not a listing page (5.0), no known
      context, or no cards at all (5.0 and 6.0). */
  predicate Skips(d: Draft, path: string, cards: seq<Option<Snapshot>>) {
    match d
    case D50 => !ContextV6.IsListingPage50(path) || cards == []
    case D60 => !ContextV6.Tracks60(path) || cards == []
    case _ => ContextV6.Transaction(path, "") == ""
  }

  /** `JSON.parse` of the stored text; text that does not parse is caught
      and read as `{}`. `null` is handled by the caller. */
  function Load(s: Stored): Partition {
    if s.Doc? then s.p else map[]
  }

  /** One page load. A stored `null` makes the first record lookup, or
      else `Object.values`, throw after the unchanged value is written
      back. Otherwise the merged partition is saved and today's records
      shown; 5.0 reports the records first seen today, the 6.x drafts the
      records new in this pass. */
  method Pass(d: Draft, path: string, store: Store, cards: seq<Option<Snapshot>>, today: string)
    returns (result: Store, out: Outcome)
    ensures Skips(d, path, cards) ==> result == store && out == Skipped
    ensures !Skips(d, path, cards) && Fetch(store, KeyOf(d, path)).Null? ==> result == store && out == Crashed
    ensures var key := KeyOf(d, path);
      var m := MergeAll(d, Load(Fetch(store, key)), cards, today);
      !Skips(d, path, cards) && !Fetch(store, key).Null? ==>
        result == store[key := Doc(m.p)] && out.Shown? && ShowsToday(out.display, m.p, today) &&
        out.newCount == (if d == D50 then CountFirstSeen(out.display, today) else m.newCount)
  {
    var key: string;
    match d {
      case D50 =>
        if !ContextV6.IsListingPage50(path) || cards == [] {
          return store, Skipped;
        }
        key := ContextV6.Key50;
      case D60 =>
        if !ContextV6.Tracks60(path) || cards == [] {
          return store, Skipped;
        }
        key := ContextV6.StorageKey(Context(false, ContextV6.Transaction(path, "-"), ContextV6.PropertyType60(path), "", "", "", ""));
      case _ =>
        var ctx := ContextV6.GetPageContext(path);
        if ctx.transactionType == "" {
          return store, Skipped;
        }
        key := ContextV6.StorageKey(ctx);
    }
    var stored := Fetch(store, key);
    if stored.Null? {
      return store, Crashed;
    }
    var p0 := if stored.Doc? then stored.p else map[];
    var p, newCount := Process(d, p0, cards, today);
    result := store[key := Doc(p)];
    var display := TodayView(p, today);
    if d == D50 {
      var n := NewToday(display, today);
      out := Shown(n, display);
    } else {
      out := Shown(newCount, display);
    }
  }

  /** Text that does not parse is overwritten by the merged partition. */
  lemma MalformedIsReplaced(d: Draft, path: string, store: Store, cards: seq<Option<Snapshot>>, today: string)
    requires !Skips(d, path, cards) && Fetch(store, KeyOf(d, path)).Malformed?
    ensures MergeAll(d, Load(Fetch(store, KeyOf(d, path))), cards, today).p.Keys == CardIds(cards)
  {
    MergeDomain(d, map[], cards, today);
  }
}

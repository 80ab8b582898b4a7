/** The values the tracker drafts keep: a property record, the snapshot the
    extractor reads from one listing card, a partition (id to record) and the
    userscript storage they are serialised to. */
module Records {

  datatype Option<T> = None | Some(value: T)

  /** `isActive`: true, false, or null / absent. */
  datatype Activity = Active | Inactive | Unknown

  /** `status`: absent, 'listed', 'notlisted', 'removed' or 'error'. */
  datatype Status = Unset | Listed | NotListed | Removed | ProbeError

  /** One price-history entry `{date, oldPrice, newPrice, change}`. `None`
      stands for an undefined old price and for a change that is `NaN`. */
  datatype PriceChange = PriceChange(date: string, oldPrice: Option<int>, newPrice: int, change: Option<int>)

  /** A stored property record. A JavaScript field that is absent is `""` for
      strings (both are falsy), `None` for numbers, `Unknown` / `Unset` for the
      two status fields and `[]` for the history. */
  datatype Record = Record(
    id: string,
    url: string,
    price: Option<int>,
    typology: string,
    area: string,
    hasGarage: bool,
    firstSeen: string,
    initialPrice: Option<int>,
    lastSeen: string,
    isActive: Activity,
    status: Status,
    location: string,
    subLocation: string,
    history: seq<PriceChange>)

  /** The object `{}`. */
  const Blank := Record("", "", None, "", "", false, "", None, "", Unknown, Unset, "", "", [])

  /** What the extractor returns for one card. */
  datatype Snapshot = Snapshot(id: string, url: string, price: int, typology: string, area: string, hasGarage: bool)

  /** `{...base, ...snapshot}`: the scraped fields overwrite the base's. */
  function Overlay(base: Record, s: Snapshot): (r: Record)
    ensures r.id == s.id && r.url == s.url && r.price == Some(s.price)
    ensures r.typology == s.typology && r.area == s.area && r.hasGarage == s.hasGarage
    ensures r.firstSeen == base.firstSeen && r.initialPrice == base.initialPrice
    ensures r.lastSeen == base.lastSeen && r.isActive == base.isActive && r.status == base.status
    ensures r.location == base.location && r.subLocation == base.subLocation
    ensures r.history == base.history
  {
    base.(id := s.id, url := s.url, price := Some(s.price), typology := s.typology, area := s.area,
          hasGarage := s.hasGarage)
  }

  /** A search partition: property id to record. */
  type Partition = map<string, Record>

  /** The JSON text stored under one key: a partition, the literal `null`, or
      text `JSON.parse` rejects. */
  datatype Stored = Doc(p: Partition) | Null | Malformed

  /** The userscript key/value storage. */
  type Store = map<string, Stored>

  /** `GM.getValue(key, '{}')`: a missing key reads as the empty object. */
  function Fetch(store: Store, key: string): Stored {
    if key in store then store[key] else Doc(map[])
  }

  /** Ids of the snapshots in a card list; a `None` card is one the extractor
      could not read. */
  function CardIds(cards: seq<Option<Snapshot>>): set<string> {
    set i | 0 <= i < |cards| && cards[i].Some? :: cards[i].value.id
  }

  lemma CardIdsStep(cards: seq<Option<Snapshot>>, c: Option<Snapshot>)
    ensures CardIds(cards + [c]) == CardIds(cards) + (if c.Some? then {c.value.id} else {})
  {
    var all := cards + [c];
    forall x | x in CardIds(all) ensures x in CardIds(cards) + (if c.Some? then {c.value.id} else {}) {
      var i :| 0 <= i < |all| && all[i].Some? && all[i].value.id == x;
      if i < |cards| { assert cards[i] == all[i]; }
    }
    forall x | x in CardIds(cards) ensures x in CardIds(all) {
      var i :| 0 <= i < |cards| && cards[i].Some? && cards[i].value.id == x;
      assert all[i] == cards[i];
    }
    if c.Some? { assert all[|cards|] == c; }
  }

  /** The position of the first readable card with id `id`. */
  function FirstCard(cards: seq<Option<Snapshot>>, id: string): (i: nat)
    requires id in CardIds(cards)
    ensures i < |cards| && cards[i].Some? && cards[i].value.id == id
    ensures forall j :: 0 <= j < i ==> !(cards[j].Some? && cards[j].value.id == id)
    decreases |cards|
  {
    var init := cards[..|cards| - 1];
    assert cards == init + [cards[|cards| - 1]];
    CardIdsStep(init, cards[|cards| - 1]);
    if id in CardIds(init) then
      var i := FirstCard(init, id);
      assert cards[i] == init[i];
      i
    else
      assert forall j :: 0 <= j < |init| ==> init[j] == cards[j];
      |cards| - 1
  }

  /** The price on the first readable card with id `id`. */
  function FirstCardPrice(cards: seq<Option<Snapshot>>, id: string): int
    requires id in CardIds(cards)
  {
    cards[FirstCard(cards, id)].value.price
  }

  /** Adding a card at the end changes the first card of an id only when the
      id was not on the page before. */
  lemma FirstCardStep(cards: seq<Option<Snapshot>>, c: Option<Snapshot>, id: string)
    requires id in CardIds(cards + [c])
    ensures id in CardIds(cards) ==> FirstCardPrice(cards + [c], id) == FirstCardPrice(cards, id)
    ensures id !in CardIds(cards) ==> c.Some? && c.value.id == id && FirstCardPrice(cards + [c], id) == c.value.price
  {
    var all := cards + [c];
    assert all[..|all| - 1] == cards;
    CardIdsStep(cards, c);
  }

  /** The search context every draft computes from the page URL; drafts that
      lack a field leave it `""`. */
  datatype Context = Context(
    isAreaSearch: bool,
    transactionType: string,
    propertyType: string,
    location: string,
    subLocation: string,
    restri: string,
    ordem: string)

  /** `GM.listValues()`: every stored key, each once. */
  ghost predicate Lists(store: Store, keys: seq<string>) {
    (forall k :: k in store <==> k in keys) &&
    (forall i, j :: 0 <= i < j < |keys| ==> keys[i] != keys[j])
  }

  /** What a pass of `createUI` ends in: nothing to do (no transaction in
      the URL), a thrown error, or a panel listing the records. */
  datatype Outcome = Skipped | Crashed | Shown(newCount: nat, display: seq<Record>)
}

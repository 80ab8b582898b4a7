# idealista.pt listing tracker — a Dafny model

The userscript runs on idealista.pt search pages. It reads the property cards
on the page and keeps a record per property in the userscript storage. Records
are grouped into partitions, one per search context (transaction, property
type, location, sort order, area search), and each partition is stored under
a key built from that context. This project models the drafts of the script
that keep such records:

- the current draft `idealista.js` (version 8.5);
- the drafts 8.1, 8.0, 7.7 and 7.2;
- the drafts 6.2, 6.1, 6.0 and 5.0.

It covers:

- the context classifier (`getPageContext`) and `isListingPage`;
- the partition key (`getStorageKey`);
- the merge of the page's cards into a partition;
- marking records absent from the page, and copying that status to every
  other partition holding the same property;
- the 5.0/6.x price history;
- the panel's list of records;
- the "clear" actions;
- the CSV export;
- the price and area readers.

Modules:

- `Text`: string helpers.
- `Records`: the record, the card snapshot, partitions and the store.
- `Url`: the query string.
- `Ordering`: the panel's sort order.
- `ContextV85`: the 8.5 classifier and key.
- `ContextSplit`: the 7.7/8.0/8.1 classifier and key.
- `ContextV72`: the 7.2 classifier and key.
- `ContextV6`: the 5.0/6.x classifier and key, and `clearAllData`.
- `Parsing`: the price and area readers.
- `TrackerV85`: the 8.5 in-memory cache. It is a class whose methods update
  the cache, the key order and the store in place.
- `ReconcileV7`: one page pass of 7.2, 7.7, 8.0 and 8.1.
- `HistoryV6`: one page pass of 5.0, 6.0, 6.1 and 6.2.
- `Export`: the CSV export.

How the model represents the script's environment:

- Storage is a map from keys to stored values. A stored value is a parsed
  partition, text that does not parse, or `null`.
- The key listing that `GM.listValues` returns is a parameter.
- The cards arrive as a sequence. A card the extractor cannot read is `None`.
- The current time (`now`) and today's date (`today`) are parameters.
- The HEAD request of 8.5 is a function from a URL to its outcome:
  not found, answered, or failed.
- Timestamps are strings. Where the script compares `new Date(...)` values
  (the oldest `firstSeen`, the panel's sort by `lastSeen`), the model compares
  the strings. The two orders agree for ISO timestamps of one format; see
  "## Left out".

## Model

| member | source | states |
|---|---|---|
| Url.Get | idealista.js:94 | `URLSearchParams.get`: none exactly when the name is absent, otherwise the value of the first pair with that name |
| Url.Ordem | idealista.js:111 | the sort order is the `ordem` parameter when present and non-empty, `default` otherwise; never empty |
| ContextV85.TransSplit | idealista.js:89 | a segment matches the `trans-type` part of the path expression only as `arrendar`/`comprar` (any case), a dash and a non-empty run of word characters and dashes |
| ContextV85.PlaceRunEnd | idealista.js:89 | the location/sub-location run of the expression stops at the first `com-` segment or at the end |
| ContextV85.LastMatchIs | idealista.js:89 | the greedy prefix makes the expression match at the last segment where it can: a segment that qualifies with no later one that does gives that segment's groups |
| ContextV85.LastMatchNone | idealista.js:89 | there is no match exactly when no segment qualifies |
| ContextV85.GetPageContext | idealista.js:83-112 | `isAreaSearch` iff `shape` is present; `ordem` defaults to `default`; no match gives every field empty; otherwise rent iff `arrendar`, sale iff `comprar` (case-insensitive), the type is the table lookup of the type token (never empty), and the location, sub-location and restriction are the match's groups |
| ContextV85.MatchOfPath | idealista.js:89 | for a path of segments, a transaction segment, places and an optional `com-` restriction, the groups are the transaction, the type, the first place, the last of several places and the restriction |
| ContextV85.MatchesAtTrans | idealista.js:89 | the expression matches at a transaction segment followed by places and a valid tail, with those groups |
| ContextV85.NoLaterMatch | idealista.js:89 | no later segment of such a path can start another match, so the match found is the last one |
| ContextV85.ComIsNotTrans | idealista.js:89 | a `com-` segment is never a transaction segment |
| ContextV85.TransactionEmptyIffNoMatch | idealista.js:98 | the transaction is empty exactly when the path does not match, and otherwise it is `rent` or `sale` |
| ContextV85.PropertyType | idealista.js:99-107 | a token whose lower-cased form is in the table gives that entry (`casas` houses, `apartamentos` apartments, `quarto` and `quartos` rooms, `escritorios` offices, `garagens` parking, `terrenos` lands); any other token is returned unchanged, in its own case; a non-empty token never gives an empty type |
| ContextV85.KeyMarksArea | idealista.js:115-117 | the key starts with the prefix and `area_` iff the context is an area search |
| ContextV85.StorageKey | idealista.js:115-117 | the key starts with the prefix, the area mark, the transaction and the type, each followed by `_`; the rest has no doubled and no trailing `_`, and its other characters are those of the location, sub-location, order and restriction, in that order |
| ContextV85.KeyOfWellFormed | idealista.js:115-117 | for fields without `_`, the key is the prefix, the area mark and the non-empty tail fields joined by one `_`, with the `_` after the type kept |
| ContextV85.KeyTailCollapse | idealista.js:116-117 | the replace shrinks every run of `_` in `location_subLocation_ordem_restri` to one and drops the trailing ones |
| ContextV85.KeyInjective | idealista.js:115-117 | two well-formed contexts with the same key are equal |
| ContextV85.KeyCollision | idealista.js:115-117 | a search with a location, no sub-location, an order and a restriction, none of them holding `_`, and the same search whose sub-location is that order, whose order is that restriction and which has no restriction, are different contexts with the same key |
| ContextV85.KeyWithoutLocation | idealista.js:115-117 | with no location the key keeps a double underscore: `…_type__ordem` |
| ContextV85.AreaSeparatesKeys | idealista.js:115-117 | an area search and the same search without `shape` never share a partition |
| ContextV85.PaginationIsNotListing | idealista.js:77-81 | a path ending in `pagina-<digits>` is not a listing page |
| ContextV85.MapIsNotListing | idealista.js:77-81 | a path ending in `mapa` is not a listing page |
| ContextV85.IsListingPage | idealista.js:77-81 | the lower-cased path of a listing page contains `/comprar-` or `/arrendar-` |
| ContextSplit.TransactionType | idealista.8.1.js:90 | `arrendar` gives rent, `comprar` and `venda` give sale, anything else gives the empty string; the lookup is case-sensitive |
| ContextSplit.PropertyType | idealista.8.1.js:91-94 | the six table entries give their values (`casas` houses, `apartamentos` apartments, `quartos` rooms, `escritorios` offices, `garagens` parking, `terrenos` lands); every other token gives `other`; the type is never empty |
| ContextSplit.GetPageContext | idealista.8.1.js:83-99 | `isAreaSearch` iff `shape` is present, `ordem` as in the query, no restriction, a transaction in {rent, sale, ""}, a non-empty type, and slash-free location and sub-location |
| ContextSplit.ContextOfPath | idealista.8.1.js:83-99 | `/trans-type/loc/sub/…` gives exactly that transaction, type, location and sub-location |
| ContextSplit.ContextWithoutLocation | idealista.8.1.js:83-99 | `/trans-type` gives empty location and sub-location |
| ContextSplit.TransactionIsCaseSensitive | idealista.8.1.js:90 | `Arrendar` is not classified by the split drafts, while 8.5 reads it as rent |
| ContextSplit.UnknownTypeIsOther | idealista.8.1.js:91-94 | `moradias` gives `other` in the split drafts and `moradias` in 8.5 |
| ContextSplit.OutsideTables | idealista.8.1.js:91-94 | a token starting with `m` is `other` in the split drafts and, when already lower-case, itself in 8.5 |
| ContextSplit.IsListingPage80 | idealista.8.0.js:61-65 | every path 8.0/8.1 accept as a listing page, 7.7 accepts too (7.7 excludes `mapa` and `pagina-N` only at the end) |
| ContextSplit.IsListingPage77 | idealista.7.7.js:42-46 | every path 7.7 accepts, 8.5 accepts too |
| ContextSplit.MapInsidePath | idealista.8.0.js:61-65 | a path with `mapa` followed by more segments is refused by 8.0/8.1 but not excluded by the end-anchored test |
| ContextSplit.KeyOfFullContext | idealista.8.1.js:101-103 | with every field set, the key is the fields joined by `_` and equals the 8.5 key |
| ContextSplit.StorageKey | idealista.8.1.js:101-103 | after the type and its `_`, the key is `location_subLocation_ordem` with only trailing underscores removed, and it does not end in `_` |
| ContextSplit.KeyWithoutLocation | idealista.8.1.js:101-103 | only trailing underscores go: without a location the key has `___` before the order, unlike 8.5 |
| ContextV72.NonEmpty | idealista.7.2.js:58 | `filter(Boolean)` keeps only non-empty segments of the path, and all of them when none is empty |
| ContextV72.GetPageContext | idealista.7.2.js:56-101 | an area search with no segment throws (none); the area branch gives rent iff the first segment contains `arrendar`, houses, apartments or other by the substrings `casas` and `apartamentos`, and no location; a first segment with a dash gives the table values of its two halves, the second segment as location and the third (or "") as sub-location; `/geo/…` with three segments reads the second and third; any other path gives no transaction, type other and no location |
| ContextV72.ContextOfDistrictPath | idealista.7.2.js:78-83 | `/trans-type/loc/` gives that transaction, type and location, and an empty sub-location |
| ContextV72.ContextOfPath | idealista.7.2.js:78-83 | `/trans-type/loc/sub/` gives that transaction, type, location and sub-location |
| ContextV72.ContextOfGeoPath | idealista.7.2.js:84-88 | `/geo/trans-type/loc/` reads the transaction from the second segment and the location from the third |
| ContextV72.StorageKey | idealista.7.2.js:104-109 | an area key starts with the prefix and `area_` and ends with the type; any other key is the full key with only its trailing underscores removed, and does not end in `_` |
| ContextV72.IsListingPage | idealista.7.2.js:22-40 | the lower-cased path of a listing page contains `/comprar-` or `/arrendar-` and has a slash after its first character, so a bare search such as `/comprar-casas` is not one |
| ContextV72.AreaKeyIgnoresPlace | idealista.7.2.js:104-109 | area searches of the same transaction and type share one key, which carries no location |
| ContextV72.KeyBeforeOrder | idealista.7.2.js:104-109 | the 7.2 key has no sort order: the later drafts' key is the 7.2 key followed by `_ordem` |
| ContextV6.Transaction | idealista.6.2.js:31-34 | rent iff the lower-cased path contains `/arrendar` followed by the suffix; sale iff it does not and contains `/venda` or `/comprar` followed by the suffix; empty otherwise. 6.1 and 6.2 use no suffix, 6.0 a dash (idealista.6.0.js:31-33) |
| ContextV6.FirstType | idealista.6.2.js:37-56 | `other` iff no table entry matches; otherwise the first entry, in declaration order, whose key or dashed variant occurs in the path |
| ContextV6.GetPageContext | idealista.6.2.js:28-59 | the context is the transaction and the first matching type, with nothing else set |
| ContextV6.StorageKey | idealista.6.2.js:62-64 | the key is the prefix, the transaction, `_` and the type: when the transaction has no `_`, cutting the key at its first `_` after the prefix gives the transaction and the type back |
| ContextV6.WalkTypeTable | idealista.6.2.js:37-56 | the walk over the table stops at the first matching entry and returns its type, or `other` when none matches |
| ContextV6.HousesComeFirst | idealista.6.2.js:51-56 | a path containing `casas` is always houses, because that entry comes first |
| ContextV6.SingularMatches | idealista.6.2.js:51-56 | the dashed singular `-apartamento` is classified as apartments |
| ContextV6.KeyInjective | idealista.6.2.js:62-64 | two contexts with the same key have the same transaction and type |
| ContextV6.ClearAllData | idealista.6.2.js:265-279 | the store after the clear keeps exactly the keys that do not start with `idealista_tracker_`, with their values |
| ContextV6.ClearReachesLaterDrafts | idealista.6.2.js:268 | the clear also deletes the partitions of drafts 7.2 to 8.5, whose prefix extends the 6.x one |
| ContextV6.ClearSpares50 | idealista.5.0.js:22 | the single 5.0 key survives the clear |
| ContextV6.PropertyType60 | idealista.6.0.js:36-40 | checked in order: houses iff `-casas` or `/casas/` occurs; apartments iff not and `-apartamentos` or `/apartamentos/` occurs; offices likewise for `escritorios`; villages iff none of those and `-moradias` occurs; empty otherwise |
| ContextV6.Rent60StaysRent | idealista.6.0.js:31-33 | what 6.0 calls rent, 6.1 calls rent too |
| ContextV6.Sale60StaysClassified | idealista.6.0.js:31-33 | what 6.0 calls sale, 6.1 classifies too |
| ContextV6.Houses60StaysHouses | idealista.6.0.js:36 | what 6.0 calls houses, 6.1 calls houses too |
| ContextV6.AreasPatternsRedundant | idealista.5.0.js:29-37 | the two `/areas/` patterns of 5.0 add nothing to the list |
| ContextV6.IsListingPage50 | idealista.5.0.js:27-49 | the lower-cased path of a listing page contains one of the seven patterns other than the two `/areas/` ones |
| Parsing.ParsePrice | idealista.js:73 | the price is 0 exactly when the text has no digit other than `0`: a text without digits and a zero price both read as 0 |
| Parsing.ParsePriceIgnoresSeparators | idealista.js:73 | removing one non-digit character does not change the price |
| Parsing.ParsePriceRoundTrip | idealista.js:73 | a price printed in decimal among digit-free text reads back as itself |
| Parsing.ParsePrice50StopsAtSecondComma | idealista.5.0.js:76-80 | with two thousands commas, 5.0 reads only the digits before the second comma, while the later drafts read every digit |
| Parsing.ParsePrice50Example | idealista.5.0.js:76-80 | `1,200,000 €` reads as 1200 in 5.0 and as 1200000 in the later drafts |
| Parsing.ParsePrice50 | idealista.5.0.js:76-80 | the 5.0 reader never reads more than the later drafts' reader on the same text: its digits are a prefix of all the digits |
| Parsing.ParseAreaDraftsAgree | idealista.8.0.js:58 | the area string of 8.0/7.7 is a digit string whose value is the number 8.5 returns |
| Parsing.ParseAreaRoundTrip | idealista.js:74 | an area printed as `<n> m²` after digit-free text reads back as n |
| Parsing.ParseArea | idealista.js:74 | a non-zero area comes only from a text that contains `m²` |
| Records.Overlay | idealista.js:384-390 | the spread of a card over a record takes id, url, price, typology, area and garage from the card and keeps every other field |
| Ordering.Insert | idealista.js:427-431 | inserting into the sorted list adds exactly the new record |
| Ordering.SortCorrect | idealista.js:429-431 | the panel's list is sorted by the order's key and is a permutation of the records |
| Ordering.NotAboveTransitive | idealista.js:429-431 | the comparator's "not before" relation is transitive, so the sort is well defined |
| Ordering.Enumerate | idealista.js:427 | `Object.values` visits every id of the partition exactly once |
| Ordering.Filter | idealista.js:427-428 | the values are the records of a list of distinct ids, in that order, and those ids are exactly the ones whose record passes the filter: each passing record once per id holding it |
| Ordering.ViewOf | idealista.js:427-431 | sorting the filtered values gives a list in the order's key order holding each passing record once per id |
| Ordering.ListsOnceCount | idealista.js:427-431 | such a list has one entry per passing id, so `displayData.length` is the number of passing records |
| Ordering.SortSorted | idealista.js:429-431 | the sorted list is in the order's key order |
| Ordering.SortPermutes | idealista.js:429-431 | the sorted list holds the same records, each as often as before |
| TrackerV85.TrackerKeys | idealista.js:125 | the listed keys are kept iff they start with the prefix; no key is listed twice |
| TrackerV85.ReadPartition | idealista.js:144-150 | `loadData` on a miss: the stored partition, or `{}` when it is null or does not parse |
| TrackerV85.Candidates | idealista.js:185-187 | the cached records for the id, one per partition holding it, in key order |
| TrackerV85.OldestIsEarliest | idealista.js:188-192 | the reduce returns a record with a valid `firstSeen` no later than any other, and the first such in case of a tie |
| TrackerV85.OldestKeepsInvalidFirst | idealista.js:188-192 | when the first record's date is invalid, the strict comparison never replaces it |
| TrackerV85.FindOldest | idealista.js:185-192 | the lookup crashes iff a cached entry is null, finds nothing iff no partition holds the id, and otherwise returns one of the candidates |
| TrackerV85.Settle | idealista.js:376-390 | a card's record is seen now, active and listed, with the card's price, url and id; it keeps `firstSeen`, `initialPrice` and history; the context location is taken only when the id is new and the search is not by area |
| TrackerV85.MergeCard | idealista.js:357-390 | one card, written into a copy of the cache, gives the partition, count and crash flag of one merge step |
| TrackerV85.MergeLoop | idealista.js:356-391 | the card loop over a copy of the cache yields the merge of all cards: the partition, its new count and the crash flag |
| TrackerV85.StepFrame | idealista.js:360-363 | looking up the oldest record in the partially merged cache finds what the loaded cache would, because the ids looked up are new to the partition |
| TrackerV85.StepCard | idealista.js:384-390 | a card merged without a throw is seen now, active, listed, at its price and url |
| TrackerV85.StepOther | idealista.js:384-390 | a card leaves the records of other ids as they were |
| TrackerV85.MergeStep | idealista.js:356-391 | the merge of the first i+1 cards is one step after the merge of the first i |
| TrackerV85.CrashStays | idealista.js:356-391 | once a lookup crashes, later cards change nothing: the partial merge is what stays in the cache |
| TrackerV85.MergeDomain | idealista.js:356-391 | the merge keeps every stored id and adds only page ids, all of them unless it crashes |
| TrackerV85.MergeCrashes | idealista.js:360-363 | the merge crashes iff some cached entry is null and some page id is not in the partition |
| TrackerV85.MergeOnPage | idealista.js:384-390 | every page id ends seen now, active, listed, with its last card's price and url |
| TrackerV85.MergeKeepsHeld | idealista.js:384-390 | an id already in the partition keeps `firstSeen`, `initialPrice`, history and location |
| TrackerV85.MergeAdoptsOldest | idealista.js:360-366 | a new id found in another partition adopts the oldest record's `firstSeen`, `initialPrice` and history |
| TrackerV85.MergeNewRecord | idealista.js:360-390 | a new id held by no cached partition is in the partition unless the merge crashes, with `firstSeen` now, the price of its first readable card as initial price, no history, and the context location only outside area searches |
| TrackerV85.MergeCounts | idealista.js:367-372 | the new count is the number of page ids that are in no cached partition |
| TrackerV85.MaxLastSeenIsMax | idealista.js:172-175 | the reduce yields "" or one holder's `lastSeen`, and no holder's `lastSeen` is greater |
| TrackerV85.AbsentAgrees | idealista.js:393-420 | after the absence pass every partition holding an absent id carries the probe's verdict and one common `lastSeen` no earlier than any copy had; other ids and other keys are unchanged |
| TrackerV85.AbsentUntouched | idealista.js:404-416 | setting the verdict in the search's own partition changes neither which partitions hold the id nor their `lastSeen` |
| TrackerV85.Display | idealista.js:427-431 | the panel lists the records not marked error or not-listed, newest `lastSeen` first, each once per id holding it |
| TrackerV85.Stringify | idealista.js:136 | what is written reads back as the cached entry |
| TrackerV85.SaveLoadRoundTrip | idealista.js:124-138 | saving the cache and loading it again gives back every cached entry |
| TrackerV85.ClearUndone | idealista.js:499-503 | as written, after the clear the unload save writes the cleared partition back |
| TrackerV85.ClearStays | idealista.js:499-503 | when the clear also drops the cache entry, the key stays deleted after the save and nothing else changes |
| TrackerV85.Without | idealista.js:499-503 | the key order without the cleared key keeps every other key, each once |
| TrackerV85.Tracker.constructor | idealista.js:121 | the cache starts empty over the given store |
| TrackerV85.Tracker.LoadAll | idealista.js:124-131 | fails iff some tracker key holds text that does not parse; otherwise caches every tracker key, in listing order |
| TrackerV85.Tracker.LoadKey | idealista.js:128-130 | one listed key: a tracker key whose text parses is cached and appended to the order; `bad` exactly when its text does not parse |
| TrackerV85.Tracker.LoadData | idealista.js:140-155 | returns the context's key; on a miss it caches the stored partition (or `{}`); a hit changes nothing |
| TrackerV85.Tracker.MergeCards | idealista.js:356-391 | the cached partition becomes the merge of the cards into it, with its new count and crash flag; no other key changes |
| TrackerV85.Tracker.MostRecentLastSeen | idealista.js:172-175 | the reduce over the holders of the id, in key order |
| TrackerV85.Tracker.UpdatePropertyStatus | idealista.js:165-183 | every partition holding the id gets the activity and status, and `lastSeen` set to the latest copy's (or now); nothing else changes |
| TrackerV85.Tracker.StampAll | idealista.js:177-182 | every partition holding the id gets the given time, activity and status; nothing else changes |
| TrackerV85.StampLoop | idealista.js:177-182 | the `forEach` over the keys in order stamps every partition holding the id with the given time, activity and status, and keeps the set of keys |
| TrackerV85.Tracker.ProbeOne | idealista.js:404-419 | the search's record takes the probe's verdict, then the verdict and the latest `lastSeen` reach every partition holding the id |
| TrackerV85.Tracker.ProbeAbsent | idealista.js:393-423 | each stored id missing from the page gets the probe's verdict, copied to every partition holding it |
| TrackerV85.Tracker.CreateUI | idealista.js:337-431 | no transaction: nothing changes; a crash keeps the partial merge; otherwise the cache is merged, probed and propagated, the new count reported and the display shows the search's partition |
| TrackerV85.Tracker.SaveAll | idealista.js:134-138 | the store receives every cached entry; the cache is unchanged |
| TrackerV85.Tracker.ClearContext | idealista.js:499-503 | the store loses the context's key; the cache keeps it |
| TrackerV85.Tracker.ClearContextFixed | idealista.js:499-503 | the store, the cache and the key order all lose the context's key |
| ReconcileV7.Merge | idealista.8.1.js:370-390 | the partition after the card loop, and a new count equal to the page ids missing from the loaded partition |
| ReconcileV7.NewIdsCount | idealista.8.1.js:370-390 | the loop's count of cards whose id is not yet in the partition is the number of page ids missing from the loaded partition |
| ReconcileV7.MergeDomain | idealista.8.1.js:370-390 | the merge keeps every stored id and adds exactly the page ids |
| ReconcileV7.MergeKeepsWriteOnce | idealista.8.1.js:384-389 | a stored id keeps `firstSeen`, `initialPrice`, location, status and history |
| ReconcileV7.MergeNewRecord | idealista.8.1.js:374-382 | a new id gets `firstSeen` now, the price of its first readable card as initial price, no history, and the context location only outside area searches |
| ReconcileV7.MergeOnPage | idealista.8.1.js:384-389 | every page id ends seen now and active, with its last card's fields |
| ReconcileV7.MergeLeavesOthers | idealista.8.1.js:370-390 | ids not on the page are untouched by the merge |
| ReconcileV7.Deactivate | idealista.8.1.js:393-398 | the absent ids are marked inactive in memory, and nothing else changes |
| ReconcileV7.FirstUnreadable | idealista.7.7.js:84-93 | the sequential loop gets through the keys before the first tracker key whose value it cannot read |
| ReconcileV7.UpdatePropertyStatus | idealista.8.1.js:124-138 | every reached stored partition holding the id gets `lastSeen` now and the activity; 7.2/7.7 stop at the first unreadable partition |
| ReconcileV7.PropagateShape | idealista.7.7.js:82-94 | the status update keeps the same keys and which values parse |
| ReconcileV7.PropagateTwice | idealista.7.7.js:82-94 | updating two id sets one after the other equals updating their union |
| ReconcileV7.PropagateNone | idealista.7.7.js:82-94 | updating no id changes nothing |
| ReconcileV7.IndependentReachesAll | idealista.8.1.js:126-136 | 8.0/8.1 reach every tracker partition that parses |
| ReconcileV7.SequentialStops | idealista.7.7.js:84-93 | in 7.2/7.7 a partition after an unreadable one is never updated |
| ReconcileV7.MarkAbsent | idealista.7.2.js:391-398 | the absent ids are inactive in memory and propagated to the store |
| ReconcileV7.Load | idealista.8.1.js:106-114 | text that does not parse reads as `{}`; `null` reads as `{}` in 8.x and fails in 7.x |
| ReconcileV7.Display | idealista.8.1.js:403-405 | the panel lists every record of the partition, once per id, newest `lastSeen` first |
| ReconcileV7.Reconcile | idealista.8.1.js:370-405 | the store is one the draft's schedule can leave (`PassLeaves`); the new count is the page ids missing from the loaded partition; the panel shows the records in memory, each once, newest first |
| ReconcileV7.Absence | idealista.8.1.js:392-399 | area searches mark nothing; otherwise the absent ids are inactive in memory; 7.2 has propagated them one after the other, 8.1 has let its concurrent updates land, and 8.0/7.7 have not written yet |
| ReconcileV7.UpdateTogether | idealista.8.1.js:124-134 | the concurrent status updates leave one of the stores `Landed` allows: each reached partition holding absent ids has some of them, and at least one, seen now and inactive; nothing else changes |
| ReconcileV7.ReadsFirstAt | idealista.8.1.js:127-133 | when every read comes before every write, a reached partition ends with exactly one of its absent ids marked, and is otherwise as stored |
| ReconcileV7.ReadsFirstLands | idealista.8.1.js:127-133 | the reads-first schedule is one of the outcomes `Landed` allows |
| ReconcileV7.Pass | idealista.8.1.js:351-405 | 7.2 fails on an area search with an empty path; no transaction skips; a `null` partition fails in 7.x; otherwise the store is one the draft's schedule can leave: 7.2 updates one id after another then saves, 8.1 updates together then saves, 8.0 and 7.7 save then update together; with the count and the display of the records in memory |
| ReconcileV7.AbsentLastSeen | idealista.8.1.js:392-401 | an absent id ends inactive in its own partition; 7.2 and 8.1 keep the time it was last on the page, while in 8.0 and 7.7 it may be stamped seen now |
| ReconcileV7.AbsentElsewhere | idealista.8.1.js:392-399 | every other reached partition holding an absent id keeps it, as stored or seen now and inactive; with 7.2's sequential updates always seen now and inactive |
| ReconcileV7.LostUpdate | idealista.8.1.js:393-398 | two absent ids in one partition: the reads-first schedule leaves the first one active there, while sequential updates mark both |
| ReconcileV7.SeenAfterSave | idealista.8.0.js:303-311 | with one absent id and the own partition reached, 8.0 and 7.7 stamp it seen now in its own partition |
| ReconcileV7.AreaPassLeavesOthers | idealista.8.1.js:392 | whatever the schedule, an area search leaves every other partition as stored |
| HistoryV6.Process | idealista.6.2.js:290-319 | the partition and new count after the card loop |
| HistoryV6.MergeStep | idealista.6.2.js:290-319 | the loop over i+1 cards is one step after the loop over i |
| HistoryV6.MergeCard | idealista.6.2.js:294-316 | one card: the record takes the card's id, url and price and today as `lastSeen`, keeps its location; a record without `firstSeen` gets today and the card's price as initial price; a known one keeps both; the old history is a prefix of the new, which is at most one entry longer |
| HistoryV6.MergeCardKnown | idealista.6.2.js:294-316 | a known record keeps `firstSeen` and `initialPrice`, takes the card's price and today; if the price moved it gains exactly one entry (date, old, new, new − old) and otherwise its history is unchanged |
| HistoryV6.MergeDomain | idealista.6.2.js:290-319 | the loop keeps every stored id and adds exactly the page ids |
| HistoryV6.MergeSeenToday | idealista.6.2.js:300 | every page id ends seen today |
| HistoryV6.MergeLeavesOthers | idealista.6.2.js:290-319 | ids not on the page are untouched |
| HistoryV6.MergeKeepsWriteOnce | idealista.6.2.js:301-316 | a known record keeps `firstSeen` and `initialPrice`, and its old history is a prefix of the new one |
| HistoryV6.MergeStampsNew | idealista.6.2.js:304-307 | a record without `firstSeen` gets today and, for a non-empty date, the price of its first readable card as initial price; when all its cards show one price, it has that price and no new history entry (none at all for a new id) |
| HistoryV6.RepeatedCardLogsChange | idealista.6.2.js:301-316 | a new id shown twice on one page at 100 then 90 keeps 100 as initial price and gains one history entry from 100 to 90 |
| HistoryV6.MergeCounts | idealista.6.2.js:295-307 | the new count is the number of distinct page ids whose stored record lacks `firstSeen` |
| HistoryV6.GuardedKeepsSound | idealista.6.2.js:308 | in 5.0, 6.1 and 6.2 every history entry has a defined old price and `change` = new − old |
| HistoryV6.UnguardedLogsUndefined | idealista.6.0.js:116-123 | 6.0 logs an entry with an undefined old price and a NaN change, where 6.1 logs nothing |
| HistoryV6.TodayView | idealista.6.2.js:323-325 | the display is the records seen today, dearest first, each once per id holding it |
| HistoryV6.PageIsShown | idealista.6.2.js:323-325 | every page id is in the display |
| HistoryV6.NewToday | idealista.5.0.js:324 | the count of displayed records first seen today |
| HistoryV6.NewTodayCountsNew | idealista.5.0.js:324 | 5.0's "new today" is at least the number of records new in this pass |
| HistoryV6.Pass | idealista.6.2.js:282-325 | a page that is not tracked changes nothing; a `null` partition fails with the store unchanged; otherwise the merged partition is saved under the context's key and today's records shown, with 5.0 reporting its "new today" count |
| HistoryV6.MalformedIsReplaced | idealista.6.2.js:66-74 | a stored value that does not parse is overwritten by the page's records alone |
| Export.Row | idealista.js:476-489 | a row exists iff both prices are defined; it has twelve fields, the id first and the url last |
| Export.Rows | idealista.js:476 | when the export gets through, there is one row per record, in panel order, each that record's row |
| Export.RowsDefined | idealista.js:476-489 | when every record has both prices, the export gets through |
| Export.CsvRoundTrip | idealista.js:491-493 | the quoted text reads back as exactly its rows, whatever `;`, quotes or newlines the fields contain |
| Export.CsvInjective | idealista.js:491-493 | two different tables never give the same text |
| Export.ExportRoundTrip | idealista.js:476-493 | the export of records with prices reads back as the header row and one row per record, in panel order, each starting with its id |
| Export.UndefinedPrice | idealista.js:479-492 | a record without a price stops the quoted export, while 8.0 writes an empty field |
| Export.PlainCsvAmbiguous | idealista.8.0.js:353 | without quoting, two different rows give the same text, and the quoted export tells them apart |

## Left out

- Reading the cards (`extractPropertyInfo`) and collecting `currentIds` from
  the page: the cards are an input, and the ids on the page are the ids of
  the readable cards.
- The panel HTML, styles, dragging, click-to-sort tables, `renderPriceTrend`
  and `translateContext`.
- In 5.0, 6.0, 6.1 and 6.2 an empty display draws no panel. The model
  returns `Shown` with an empty list. The other drafts always draw it.
- The HEAD request: its outcome is an input.
- `GM` storage and JSON: storage is a map. A value is a partition, text that
  does not parse, or `null`.
- Concurrency:
  - The `Promise.all` probes of 8.5 run one id after another in key order.
  - The status updates of 8.1, 8.0 and 7.7 run together. The model states
    every outcome their interleavings can leave (`ReconcileV7.Landed`) and
    computes one of them, where every read comes before every write.
    In 8.0 and 7.7 the updates run on the saved store.
  - The un-awaited status updates of 8.0 and 7.7 may still be running when
    the next pass starts. The model ends the pass when they have landed.
  - The `isScriptUpdatingUI` flag, the debounce timer and the mutation
    observer are not modelled.
- One `now` per pass. 8.1 and 8.5 call the clock at each use.
- Dates are compared as strings. `new Date` of a value that is not a date
  (an invalid date) is modelled as the empty `firstSeen`. 7.2 and 8.0 write
  Luxon `toISO()` times with a local offset (`…T10:30:00.000+01:00`), while
  7.7, 8.1 and 8.5 write `toISOString()` times in UTC (`…T10:00:00.000Z`), all
  under the same key prefix. For such a mix the string order can differ from
  the date order: `2024-05-01T10:30:00.000+01:00` is the earlier date but the
  later string. So `TrackerV85.FindOldest`, `TrackerV85.OldestIsEarliest` and
  the panel's `Ordering.ByLastSeen` sort follow the string order, which can
  disagree with the script for records written by different drafts.
- ContextV85.PropertyType, ContextSplit.TransactionType, ContextSplit.PropertyType:
  the lookups treat a token that is not a table key as absent. The script's
  object-literal lookups also find the names every object inherits
  (`constructor`, `toString`, `__proto__`, …). For `/comprar-constructor/lisboa/`
  the script's type is the `Object` function, which is truthy, so its
  `function Object() { [native code] }` text ends up in the key. The model gives
  `constructor` (8.5) or `other` (7.2, 7.7, 8.0, 8.1) instead. ContextV72
  uses the same two lookups.
- `Object.keys` order: the model uses one order chosen by `Ordering.Enumerate`.
- The `updatedCount` of 5.0/6.x and all console logging.
- The price comparator of 5.0/6.x sorts a record without a price as price 0.
  The comparator itself returns NaN in that case.
- Fields the script leaves `undefined` are the empty string in the model,
  except prices, which are optional.
- TrackerV85.Tracker.LoadAll: models `loadAllData` at start-up on an empty
  cache. A value that does not parse makes the real call throw part-way;
  the model reports the failure and leaves the cache unspecified.
- TrackerV85.Tracker.MostRecentLastSeen: its contract ties it to
  `MaxLastSeen`. The maximum property is stated separately in
  `TrackerV85.MaxLastSeenIsMax`.
- HistoryV6.Pass: reports the new count for every draft, but 6.0 only logs
  it (idealista.6.0.js:130) and its panel never shows it.
- HistoryV6.MergeStampsNew: states the price and the history of a new record
  only when all its cards on the page show one price. A repeated card at
  another price logs an entry, see `HistoryV6.RepeatedCardLogsChange`.
- HistoryV6.MergeCounts: requires a non-empty `today`, which the formatted
  date always is.
- HistoryV6.NewTodayCountsNew: requires a non-empty `today`, for the same
  reason.
- Export: the header row is a parameter of `ExportText`.
- Export.Row: the `toString()` of a number is modelled as its decimal
  digits. For an integer price this is exact.
- The 5.0 "clear" button, which writes `{}` under its single key.
- Drafts 8.2, 3.0, 2.5 and 2.4 are not part of this model. 8.2 does not
  parse, and 3.0, 2.5 and 2.4 keep no records.

## Findings

| source | as written | input that shows it | evidently intended | confidence | as-written member | corrected member |
|---|---|---|---|---|---|---|
| idealista.js:499-503 | "clear" deletes the stored key but leaves the cached partition, and `saveAllData` on unload (idealista.js:134-138, 590) writes it back | clear any context, then leave the page: the partition is stored again | the cleared partition stays deleted | not executed | TrackerV85.ClearUndone | TrackerV85.ClearStays |
| idealista.8.1.js:393-398 | the status updates for the absent ids run together, and each writes back a whole partition it read before the others wrote | a partition holding two active ids that both left the page: both updates read it first, the second write drops the first id's mark, and it stays active with its old `lastSeen` there | every partition holding an absent id has each of them inactive and seen now, as 7.2's sequential updates leave it | not executed | ReconcileV7.LostUpdate | ReconcileV7.PropagateTwice |
| idealista.8.0.js:303-311 | `updatePropertyStatus` is not awaited and first lists the keys, so `saveData` writes first and the update then stamps the search's own partition | a search whose only absent id is stored in its own partition: that record is saved, then stamped seen now though it left the page | the own partition keeps the time the record was last on the page, as 7.2 and 8.1 do | not executed | ReconcileV7.SeenAfterSave | ReconcileV7.AbsentLastSeen |
| idealista.5.0.js:76-80 | `replace(',', '')` removes only the first comma, and `parseInt` stops at the second | `"1,200,000 €"` reads as 1200 | every digit counts: 1200000 | not executed | Parsing.ParsePrice50Example | Parsing.ParsePriceRoundTrip |

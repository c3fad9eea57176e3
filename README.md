# l2book-rs: a verified model of the level-2 order book

The library keeps an aggregated (level-2) order book. Each `Ladder` holds one
side. Its `PriceLevel`s are stored worst first: bids ascend by price and asks
descend, so the best level (the touch) is the last one. Updates come in
batches opened by `begin` and closed by `end`. Levels that are added,
updated or removed are reported to a `LadderEventListener`, with two
exceptions: `clear` discards every level without a report, and a full fill
three or more levels below the touch drops the second-best level without a
report (`Updates.ApplyTradeDeep`). A `Book` pairs a
bids ladder with an asks ladder, and both report to one listener.

The model has these parts:

- `Common` holds `Side` and `Decimal64`. `Decimal64` is an `i64` subset of
  `int`; its 1e-8 scale is a naming convention only.
- `Util` holds the two comparators and their ordering laws.
- `Levels` holds:
  - the level record and the listener events;
  - the ladder invariant `Sorted` (each level strictly worse than every later one);
  - the binary search `Find`, with its specification `Locates`;
  - lemmas about sorted sequences. One of them, `SortedDetermined`, shows that a sorted ladder is fixed by the set of levels it holds.
- `Updates` gives each of the three mutations (`add_or_update`,
  `remove_levels_before`, `apply_trade`) as a function. The function maps the
  old levels to the new levels plus the events, in the order they are
  reported. Lemmas then state, case by case, what each mutation keeps, drops,
  rewrites and reports.
- `Ladders` holds the `Listener`, `Ladder` and `Book` classes:
  - The listener is a ghost log of events.
  - The ladder's methods change `levels` step by step, as the Rust code does.
  - Each ladder method is proved to end in the state and the event log that the `Updates` function gives, and to keep the ladder sorted.
  - Linear search is a second method, `FindLinear`. It is proved to return exactly the result of the binary search.
- `Scenarios` restates the crate's three unit tests as methods whose results are proved.

### Where the code differs from what its names suggest

The model follows the code. It states the code's behaviour as lemmas:

- **`apply_trade`, at a level three or more places below the touch.** The
  crossed levels start at offset `max(pos + 1, len - 1)`, so only the best
  level is reported as crossed. A full fill then lowers the offset by one
  and truncates there. The matched level is therefore reported removed but
  kept, and the second-best level is dropped with no report. A partial fill
  keeps the levels between the matched level and the second-best.
  `Updates.ApplyTradeDeep` states both cases. At the touch or one level
  below it, the code does remove exactly the better levels
  (`Updates.ApplyTradeNearTouch`).
- **A partial fill assigns the traded quantity.** It does not subtract it
  from the level's quantity.
- **`remove_levels_before(p)` keeps the levels strictly worse than `p`.** It
  removes the level at `p` and every better level. It does not remove the
  worse side (`Updates.RemoveLevelsBeforeKeepsWorse`).
- **`add_or_update` only deletes on a quantity of exactly zero.** A negative
  quantity overwrites an existing level. The same call on an absent price is
  ignored. `Updates.AddOrUpdateKeepsPositive` needs `qty >= 0` only for this reason.

## Model

| member | source | states |
|---|---|---|
| Util.BidsComparator | src/util/mod.rs:3-11 | Greater exactly when lhs > rhs, Less exactly when lhs < rhs, Equal exactly when they are equal |
| Util.AsksComparator | src/util/mod.rs:13-21 | the reversed order: Less exactly when lhs > rhs, Greater exactly when lhs < rhs, Equal on equality |
| Util.Compare | src/ladder/mod.rs:213-225 | the comparator a ladder of that side is built with: Equal exactly on equal prices, Less exactly for a lower bid or a higher ask (the level further from the touch), Greater for the opposite |
| Util.AsksReversesBids | src/util/mod.rs:3-21 | the asks comparator is the bids comparator with its arguments swapped |
| Util.CompareAntisymmetric | src/util/mod.rs:3-21 | on either side, swapping the arguments reverses the ordering |
| Util.CompareTransitive | src/util/mod.rs:3-21 | on either side, Less and Greater are transitive |
| Util.CompareTotal | src/util/mod.rs:3-21 | Equal only for equal prices; of two distinct prices exactly one is worse |
| Levels.Search | src/ladder/mod.rs:92-96 | binary search over a bracketed range returns Found at an index holding the price, or Absent at the index where every level before is worse and every level after is better |
| Levels.Find | src/ladder/mod.rs:91-96 | the binary search policy over the whole sorted ladder meets the same specification |
| Levels.LocatesUnique | src/ladder/mod.rs:91-116 | on a sorted ladder there is only one result meeting that specification, so the two search policies cannot disagree |
| Levels.FindFound | src/ladder/mod.rs:92-96 | the search returns Found(i) exactly when level i carries the price |
| Levels.FindAbsent | src/ladder/mod.rs:92-96 | the search returns Absent exactly when no level carries the price |
| Levels.FindSplits | src/ladder/mod.rs:158-161 | the result's position, found or not, splits the ladder into the levels worse than the price and the rest |
| Levels.Removals | src/ladder/mod.rs:162-164 | one Remove event per level, in index order, for the whole range |
| Levels.RemovalsSnoc | src/ladder/mod.rs:162-164 | reporting one more level extends the report at its end |
| Levels.Reversed | src/ladder/mod.rs:44-46 | same length, element i is the level i places from the end |
| Levels.SortedRemoveAt | src/ladder/mod.rs:127 | removing a level keeps the ladder sorted and drops exactly that level |
| Levels.SortedInsertAt | src/ladder/mod.rs:145 | inserting at the search's split point keeps the ladder sorted and adds exactly the new level |
| Levels.PrefixIsWorse | src/ladder/mod.rs:165 | truncating at a split point keeps exactly the levels worse than the price |
| Levels.LastIsBest | src/ladder/mod.rs:52-57 | every other level of a sorted ladder is worse than its last |
| Levels.DropBest | src/ladder/mod.rs:201 | dropping the last level keeps the ladder sorted and drops exactly that level |
| Levels.SortedDetermined | src/ladder/mod.rs:145 | two sorted ladders holding the same levels are equal |
| Updates.AddOrUpdate | src/ladder/mod.rs:118-150 | the update keeps the ladder sorted |
| Updates.AddOrUpdateExisting | src/ladder/mod.rs:122-137 | for a held price: zero removes exactly that level with one Remove; a different quantity rewrites quantity and orders in place with one Update; the same quantity changes nothing and reports nothing |
| Updates.AddOrUpdateAbsent | src/ladder/mod.rs:138-148 | for a new price: a positive quantity adds exactly the new level with one Add; any other quantity changes nothing and reports nothing |
| Updates.AddOrUpdateInsertsInOrder | src/ladder/mod.rs:138-148 | the inserted level lands where the ordering demands: the result is the unique sorted ladder holding the old levels and the new one |
| Updates.AddOrUpdateNewBest | src/ladder/mod.rs:138-148 | a price better than every level becomes the new last (best) level |
| Updates.AddOrUpdateKeepsPositive | src/ladder/mod.rs:118-150 | with a non-negative quantity no stored level ends with a non-positive quantity |
| Updates.RemoveLevelsBefore | src/ladder/mod.rs:156-166 | the result is a sorted prefix of the old ladder |
| Updates.RemoveLevelsBeforeKeepsWorse | src/ladder/mod.rs:156-166 | the survivors are exactly the levels strictly worse than the price, and every dropped level is reported once, in index order |
| Updates.ApplyTrade | src/ladder/mod.rs:168-202 | the result is sorted, no longer than before, and each survivor is the old level or the old level carrying the traded quantity |
| Updates.ApplyTradeAbsent | src/ladder/mod.rs:193-201 | a trade at a price not held keeps exactly the levels worse than it and reports each dropped level |
| Updates.ApplyTradeNearTouch | src/ladder/mod.rs:177-192 | at the best or second-best level: the better level is dropped and reported, then the matched level is removed on a full fill or takes the traded quantity on a partial one |
| Updates.ApplyTradeDeep | src/ladder/mod.rs:177-201 | three or more levels below the touch: a full fill reports the matched level removed but keeps it and silently drops the second-best; a partial fill keeps strictly better levels |
| Updates.ApplyTradeKeepsPositive | src/ladder/mod.rs:168-202 | with a positive traded quantity every survivor keeps a positive quantity |
| Ladders.Listener.constructor | src/ladder/mod.rs:8-14 | a new listener has recorded nothing |
| Ladders.Listener.OnAdd | src/ladder/mod.rs:9 | appends one Add event |
| Ladders.Listener.OnUpdate | src/ladder/mod.rs:11 | appends one Update event with the old and new level |
| Ladders.Listener.OnRemove | src/ladder/mod.rs:13 | appends one Remove event |
| Ladders.Ladder.constructor | src/ladder/mod.rs:213-225 | a new ladder is empty, outside a batch, with the given side and listener |
| Ladders.Ladder.Iter | src/ladder/mod.rs:44-46 | yields the levels in reverse storage order, from best to worst |
| Ladders.Ladder.Count | src/ladder/mod.rs:48-50 | the number of levels iterated, zero exactly when there is no best level |
| Ladders.Ladder.Best | src/ladder/mod.rs:52-57 | none exactly on an empty ladder; otherwise a stored level that every other level is worse than |
| Ladders.Ladder.Worst | src/ladder/mod.rs:59-64 | none exactly on an empty ladder; otherwise a stored level worse than every other level |
| Ladders.Ladder.Get | src/ladder/mod.rs:66-69 | the level idx places from the best; get(0) is best() and get(count-1) is worst() |
| Ladders.Ladder.Begin | src/ladder/mod.rs:77-82 | opens a batch, which must not already be open |
| Ladders.Ladder.End | src/ladder/mod.rs:84-89 | closes a batch, which must be open |
| Ladders.Ladder.FindLinear | src/ladder/mod.rs:98-116 | the linear search from the touch returns exactly the binary search's result |
| Ladders.Ladder.NotifyRemovals | src/ladder/mod.rs:162-164 | reports every level from the given index to the touch as removed, in order |
| Ladders.Ladder.AddOrUpdate | src/ladder/mod.rs:118-150 | inside a batch, ends sorted, with the levels and the reported events of Updates.AddOrUpdate |
| Ladders.Ladder.Clear | src/ladder/mod.rs:152-154 | empties the ladder and reports nothing |
| Ladders.Ladder.RemoveLevelsBefore | src/ladder/mod.rs:156-166 | inside a batch, ends sorted, with the levels and the reported events of Updates.RemoveLevelsBefore |
| Ladders.Ladder.ApplyTrade | src/ladder/mod.rs:168-202 | inside a batch, ends sorted, with the levels and the reported events of Updates.ApplyTrade |
| Ladders.Book.constructor | src/ladder/mod.rs:211-228 | two fresh, distinct, empty ladders, bids and asks, outside a batch, sharing the listener |
| Ladders.Book.Begin | src/ladder/mod.rs:230-233 | opens a batch on both ladders |
| Ladders.Book.End | src/ladder/mod.rs:235-238 | closes the batch on both ladders |
| Ladders.Book.Clear | src/ladder/mod.rs:240-243 | empties both ladders |
| Ladders.Book.RemoveLevelsBeforeAsk | src/ladder/mod.rs:245-247 | applies Updates.RemoveLevelsBefore to the asks, leaves the bids unchanged |
| Ladders.Book.RemoveLevelsBeforeBid | src/ladder/mod.rs:249-251 | applies Updates.RemoveLevelsBefore to the bids, leaves the asks unchanged |
| Ladders.Book.UpdateAsk | src/ladder/mod.rs:253-255 | applies Updates.AddOrUpdate to the asks, leaves the bids unchanged |
| Ladders.Book.UpdateBid | src/ladder/mod.rs:257-259 | applies Updates.AddOrUpdate to the bids, leaves the asks unchanged |
| Ladders.Book.ApplyTrade | src/ladder/mod.rs:261-267 | applies Updates.ApplyTrade to the bids when the buyer was the maker, otherwise to the asks; the other ladder is unchanged |
| Scenarios.BidsBuilt | src/ladder/mod.rs:307-312 | the bids ladder after each of the four insertions |
| Scenarios.BidsDeleted | src/ladder/mod.rs:329 | a zero quantity at price 7 deletes that bid and keeps the other three |
| Scenarios.BidsRaised | src/ladder/mod.rs:330 | a new quantity for the best bid overwrites it |
| Scenarios.AsksBuilt | src/ladder/mod.rs:342-347 | the asks ladder after each of the four insertions |
| Scenarios.AsksDeleted | src/ladder/mod.rs:364 | a zero quantity at price 12 deletes that ask and keeps the other three |
| Scenarios.AsksRaised | src/ladder/mod.rs:365 | a new quantity for the best ask overwrites it |
| Scenarios.InitializeBook | src/ladder/mod.rs:291-301 | a new book has zero levels and no best or worst level on either side |
| Scenarios.AddBids | src/ladder/mod.rs:303-336 | four bids give count 4, best 9/101, worst 6/98 and order 9, 8, 7, 6; after the second batch, count 3 and best 9/200 |
| Scenarios.AddAsks | src/ladder/mod.rs:338-371 | four asks give count 4, best 10/101, worst 13/99 and order 10, 11, 12, 13; after the second batch, count 3 and best 10/200 |

## Left out

- `DefaultBookEventListener` (src/ladder/mod.rs:270-284) only writes log lines; logging is I/O, so the listener is the ghost event log alone.
- The listener is a trait object borrowed for a lifetime. The model has one `Listener` object that the ladders share, with no lifetimes.
- The comparator is held as a function reference. The model has no such field; `Util.Compare` selects the comparator from the ladder's side, which is the pairing `Book::new` sets up.
- Search policy: the choice between the two `find`s is made at compile time. Both are modelled: `Levels.Find` and `Ladders.Ladder.FindLinear`.
- Levels.Search: the probe order of the standard library's `binary_search_by` is not modelled. The modelled search is a midpoint search with the same contract; on a sorted ladder that contract allows only one answer (`Levels.LocatesUnique`).
- Ladders.Ladder.FindLinear: the index is an unbounded integer, so the `i32` cast that would wrap on a ladder of more than 2^31 levels is not modelled.
- Ladders.Ladder.Get: requires `idx < count`. The source's `len - 1 - idx` underflows `usize` for larger indexes. That panics in a debug build and yields `None` in a release build.
- The panics of `begin`, `end` and `ensure_in_batch` are preconditions on the batch flag. A panicking call is not modelled.
- Ladders.Ladder.ApplyTrade: `len - 1` is reached only when the search found the price, so the ladder is not empty and the `usize` subtraction cannot underflow.
- `PriceLevel`'s hand-written equality compares all three fields. That is the datatype's own equality.
- The benchmarks (benches/) are drivers, not behaviour.
- No quantity is checked by the source, and none is required here. Positivity of the stored levels is conditional (`Updates.AddOrUpdateKeepsPositive`, `Updates.ApplyTradeKeepsPositive`).

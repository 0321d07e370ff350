# tally-share: the tally store and its handlers, in Dafny

tally-share lets people share a list of items and count votes on them. Each
participant is an anonymous session id. The server keeps three tables:

- lists: id, title, created_at;
- items: id, list_id, name, total_count, created_at;
- vote rows: id, item_id, user_session_id, signed count, created_at, updated_at.

This project models the six server handlers that read and change those tables:
`voteOnItem`, `removeTallyItem`, `createTallyItem`, `createTallyList`,
`getTallyList` and `getUserVotes`.

Layout:

- `schema.dfy` (modules `Results` and `Schema`): the rows, the store value `Db`, and the store's integrity predicates.
  - `WellFormed`: unique primary keys, valid foreign keys, and timestamps that never exceed the store's clock.
  - `OneRowPerVoter`: at most one vote row per (item, session) pair.
  - `NonNegativeCounts`: no vote row holds a negative count.
- `tables.dfy` (`Tables`): the SQL queries the handlers issue, written as functions on sequences, with their lemmas. These are the lookups by key, `SUM(count) ... WHERE item_id = …`, the `UPDATE … WHERE id = …` writes and the `DELETE … WHERE …` writes.
- One module per handler gives the handler's effect as a function from the store before the call to its result and the store after it, and proves lemmas about that function:
  - `voting.dfy` (`Voting`);
  - `removal.dfy` (`Removal`);
  - `create_item.dfy` (`ItemCreation`);
  - `create_list.dfy` (`ListCreation`);
  - `list_query.dfy` (`ListQuery`);
  - `vote_query.dfy` (`VoteQuery`).
- `store.dfy` (`TallyServer`): class `TallyStore` holds the three tables and a clock as fields.
  - The four writing handlers are methods on it, written step by step like the handler code.
  - Each method is proved to produce exactly the result and the new state that its handler's function gives, and to keep `WellFormed`.
  - The two read handlers only read the store, so they remain functions of the store value; that they change nothing holds by construction.

Fresh ids (`crypto.randomUUID()`) are a parameter of each handler function. The methods choose any id not already in use. The `FreshIdExists` lemma shows such an id always exists. Wall-clock time is an abstract counter: every insert or update is stamped with `clock + 1`, and the clock advances to it. A removal only deletes rows, so it leaves the clock as it was.

Three choices follow the handler code closely:

- `total_count` is recomputed from the vote rows only for the item being voted on (`server/src/handlers/vote_on_item.ts:62-76`). The removal gate reads the stored value and does not recompute it (`server/src/handlers/remove_tally_item.ts:22`). So "every stored total equals the sum of its rows" (`TotalsAgree`) is not part of `WellFormed`. Instead it is proved to be preserved by every handler. `Removal.GateReadsStoredTotal` shows the gate acting on a stored total that disagrees with the rows.
- The retraction guard is `delta === -1 && userVoteCount <= 0` (`server/src/handlers/vote_on_item.ts:34`). A session without a row counts as 0, so it is refused. A session whose row holds 0 or less is refused too.
- The handler code applies no range check to `delta`; only `-1` is guarded. The model accepts any integer `delta`. The lemma that counts stay non-negative therefore assumes `delta` is `1` or `-1`, which are the only values the client sends.

## Model

| member | source | states |
|---|---|---|
| Voting.Vote | server/src/handlers/vote_on_item.ts:6-84 | A failed vote leaves the store as it was. A successful vote returns the item it voted on, as the store holds it after the write: looking the id up again gives exactly the returned item, name, list and created_at included. Its `total_count` equals the sum of that item's vote rows after the write, and every stored item with that id holds the same total. |
| Voting.VoteErrors | server/src/handlers/vote_on_item.ts:14-36 | Both directions: the vote fails with `ItemNotFound` exactly when no item has the id. It fails with `CannotDecrement` exactly when the item exists, `delta` is -1 and the caller's count is at most 0. A failed vote writes nothing. |
| Voting.FirstRetractionFails | server/src/handlers/vote_on_item.ts:27-36 | A -1 from a session with no row on the item fails and creates no row. |
| Voting.VoteSetsCallerRow | server/src/handlers/vote_on_item.ts:38-60 | After success, the caller's row holds the previous count plus `delta`. An existing row keeps its id and created_at, and gets a strictly later updated_at. Without one, exactly one row is appended, with the generated id and created_at == updated_at. |
| Voting.VoteShiftsSum | server/src/handlers/vote_on_item.ts:41-68 | For any item, the sum of its rows after a successful vote is the sum before plus `delta` if it is the voted item, and unchanged otherwise. |
| Voting.VoteShiftsTotal | server/src/handlers/vote_on_item.ts:62-76 | If the stored total matched the rows before a successful vote, the new total is the old total plus `delta`. |
| Voting.VoteRecomputesFromRows | server/src/handlers/vote_on_item.ts:62-76 | Concrete case: the stored total is 0, the rows hold 3 and 0, and a new participant votes +1. The new total is 4 (3 + 0 + 1), not the old total plus one. |
| Voting.VoteFrame | server/src/handlers/vote_on_item.ts:43-49 | A successful vote changes only the caller's row (keyed by its id) and this item's total. Lists, other items and the rows of other items and other sessions keep their positions and values. Every row whose id differs from the caller's row found by the lookup stays unchanged, even a second row of the same (item, session). |
| Voting.VotePreservesWellFormed | server/src/handlers/vote_on_item.ts:41-76 | With a fresh row id, a vote keeps keys unique, foreign keys valid and timestamps behind the clock. |
| Voting.VotePreservesTotalsAgree | server/src/handlers/vote_on_item.ts:62-76 | If every stored total equals its rows' sum before a vote, every total still does after it. |
| Voting.VotePreservesOneRowPerVoter | server/src/handlers/vote_on_item.ts:41-60 | A vote never creates a second row for an (item, session) pair. A row is inserted only when none exists. |
| Voting.VotePreservesNonNegative | server/src/handlers/vote_on_item.ts:34-38 | With `delta` equal to 1 or -1, counts that are all ≥ 0 stay ≥ 0. |
| Voting.VoteThenRetract | server/src/handlers/vote_on_item.ts:27-76 | Suppose the caller's count is ≥ 0. A +1 followed by a -1 from the same session both succeed. Afterwards the caller's count and the item's row sum are back to their starting values, and the returned total equals the starting row sum. If the stored total agreed with the rows before, the returned total also equals the starting stored total. |
| Voting.VoteOnceUp | server/src/handlers/vote_on_item.ts:27-76 | A +1 on an existing item always succeeds. It keeps the store well formed, raises the caller's count by one and raises the item's row sum by one. |
| Removal.Remove | server/src/handlers/remove_tally_item.ts:6-35 | On `false` the store is unchanged. On `true` the item existed, and afterwards it is gone and no vote row references it. |
| Removal.RemoveGate | server/src/handlers/remove_tally_item.ts:9-24 | Both directions: the removal succeeds exactly when an item with the id exists and its stored total is 0. Otherwise nothing changes, negative totals included. |
| Removal.RemoveDeletesExactly | server/src/handlers/remove_tally_item.ts:26-33 | A successful removal deletes exactly the item and its vote rows. Other items (including zero-total ones), other rows, the lists and the clock remain. |
| Removal.GateReadsStoredTotal | server/src/handlers/remove_tally_item.ts:19-24 | Two concrete cases. An item stored with total 0 is removed although its rows sum to 3. An item stored with total 2 is kept although its rows sum to 0. |
| Removal.RemovePreservesWellFormed | server/src/handlers/remove_tally_item.ts:27-33 | Removal keeps the store well formed. The item and every row that references it go together, so no remaining row points at the removed item. |
| Removal.RemovePreservesTotalsAgree | server/src/handlers/remove_tally_item.ts:27-33 | Removal keeps every remaining total equal to the sum of its remaining rows. |
| Removal.RemovePreservesOneRowPerVoter | server/src/handlers/remove_tally_item.ts:27-29 | Removal keeps at most one row per (item, session). |
| ItemCreation.CreateItem | server/src/handlers/create_tally_item.ts:6-32 | Creation fails with `ListNotFound` exactly when no list has the id, and then writes nothing. Otherwise the new item has the generated id, the given list_id and name, and total 0. It is appended, and every previous row is kept. |
| ItemCreation.CreateItemFresh | server/src/handlers/create_tally_item.ts:19-30 | A fresh id differs from every stored item id, and afterwards exactly one item carries it. |
| ItemCreation.CreateItemTwice | server/src/handlers/create_tally_item.ts:19-30 | Two creations with the same input give two items with distinct ids. Both are stored after the previous items. |
| ItemCreation.CreateItemPreservesWellFormed | server/src/handlers/create_tally_item.ts:9-30 | Creating an item keeps the store well formed. The new item references an existing list. |
| ItemCreation.CreateItemPreservesTotalsAgree | server/src/handlers/create_tally_item.ts:27 | In a well-formed store no row references the fresh id, so a new item with total 0 keeps every total equal to its row sum. |
| ListCreation.CreateList | server/src/handlers/create_tally_list.ts:5-22 | The returned list has the generated id and the given title verbatim, and a creation time later than the store's clock. It is appended to the lists; items and votes are unchanged. |
| ListCreation.CreateListExactlyOne | server/src/handlers/create_tally_list.ts:7-16 | With a fresh id, exactly one stored list has the returned id afterwards. Looking it up returns the list with the given title. |
| ListCreation.CreateListTwice | server/src/handlers/create_tally_list.ts:7-16 | Two creations with the same title give two distinct stored lists with that title. |
| ListCreation.CreateListPreservesWellFormed | server/src/handlers/create_tally_list.ts:10-16 | Inserting a list under a fresh id keeps the store well formed. |
| ListQuery.GetTallyList | server/src/handlers/get_tally_list.ts:6-32 | Both directions: the result is `None` (the handler's `null`) exactly when no list has the id. Otherwise it carries that id and the fields of a stored list. Its items are exactly the stored items whose list_id matches. |
| ListQuery.GetTallyListFields | server/src/handlers/get_tally_list.ts:18-31 | With unique list ids, the title and created_at returned are the stored list's own. Every item of the list is returned as stored, total included. With unique item ids, no item is returned twice. |
| ListQuery.GetTallyListEmpty | server/src/handlers/get_tally_list.ts:21-31 | A list that no item references is returned with an empty items sequence. |
| VoteQuery.GetUserVotes | server/src/handlers/get_user_votes.ts:6-27 | An entry is in the result exactly when some vote row of this session is on an item of this list and the entry carries that row's item id and count. |
| VoteQuery.UserVotes | server/src/handlers/get_user_votes.ts:10-22 | The join over the vote table, row by row, satisfies the same membership condition. |
| VoteQuery.JoinRow | server/src/handlers/get_user_votes.ts:14-18 | Joining one vote row with the items gives copies of that row's (item_id, count) only. The result is non-empty exactly when an item with that id belongs to the list. |
| VoteQuery.GetUserVotesPerRow | server/src/handlers/get_user_votes.ts:10-27 | With unique item ids, the result has one entry per selected row, in table order. Each entry is the row's item id and its stored count, unchanged (0 and negative counts included). |
| VoteQuery.GetUserVotesEmpty | server/src/handlers/get_user_votes.ts:10-27 | A session with no row on any item of the list gets an empty result. |
| TallyServer.TallyStore.CreateTallyList | server/src/handlers/create_tally_list.ts:5-22 | Inserts under an id not in use. The returned list and the new tables are those of `ListCreation.CreateList`. The store stays well formed. |
| TallyServer.TallyStore.CreateTallyItem | server/src/handlers/create_tally_item.ts:6-32 | Checks the list and inserts under an id not in use. The result and the new tables are those of `ItemCreation.CreateItem`. The store stays well formed. |
| TallyServer.TallyStore.VoteOnItem | server/src/handlers/vote_on_item.ts:6-84 | Checks the item, reads the caller's row and applies the guard. For some id not in use, the result and the new tables are those of `Voting.Vote`. The store stays well formed. |
| TallyServer.TallyStore.WriteVote | server/src/handlers/vote_on_item.ts:38-84 | Updates the caller's row found by `VoteOnItem`'s single lookup, or inserts one, then stores the row sum as the item's total and returns the stored item. The effect equals `Voting.Vote`'s success case. |
| TallyServer.TallyStore.RemoveTallyItem | server/src/handlers/remove_tally_item.ts:6-35 | Checks the item and its stored total, then deletes the rows and then the item. The result and the new tables are those of `Removal.Remove`. The store stays well formed. |
| Tables.FindItem | server/src/handlers/vote_on_item.ts:9-16 | The item lookup by id is `None` exactly when no item has the id. Otherwise it returns a stored item with that id. The same query opens `removeTallyItem` (`remove_tally_item.ts:9-17`). |
| Tables.FindList | server/src/handlers/get_tally_list.ts:9-16 | The list lookup by id is `None` exactly when no list has the id. Otherwise it returns a stored list with that id. The same query opens `createTallyItem` (`create_tally_item.ts:9-16`). |
| Tables.ItemsOfList | server/src/handlers/get_tally_list.ts:21-24 | An item is selected exactly when it is stored with this list_id. |
| Tables.ItemsOfListKeepsKeys | server/src/handlers/get_tally_list.ts:21-24 | With unique item ids the selection repeats no item. |
| Tables.DropVotesOf | server/src/handlers/remove_tally_item.ts:27-29 | The surviving vote rows are exactly those that do not reference the item. |
| Tables.DropItem | server/src/handlers/remove_tally_item.ts:31-33 | The surviving items are exactly those with another id. |
| Tables.SumFor | server/src/handlers/vote_on_item.ts:63-70 | Definition: the sum of `count` over the rows of one item. It has no contract of its own; its properties are `SumForUnreferenced`, `SumForAppend` and `SumForUpdate`. |
| Tables.SumForUnreferenced | server/src/handlers/vote_on_item.ts:63-70 | An item that no row references sums to 0, which is what `COALESCE(…, 0)` returns. |
| Tables.SumForAppend | server/src/handlers/vote_on_item.ts:52-68 | Appending a row adds its count to its own item's sum and to no other. |
| Tables.UpdateVote | server/src/handlers/vote_on_item.ts:43-49 | Definition: the row with the given id gets the new count and update time, and every other row is unchanged. It has no contract of its own; `FindVoteAfterUpdate`, `SumForUpdate` and `UpdateVoteKeepsKeys` state its properties. |
| Tables.SetTotal | server/src/handlers/vote_on_item.ts:73-76 | Definition: the item with the given id gets the new total, and every other item is unchanged. It has no contract of its own; `SetTotalKeepsKeys` and `FindItemAfterSetTotal` state its properties. |
| Tables.FindItemAfterSetTotal | server/src/handlers/vote_on_item.ts:73-84 | After the total is set, re-selecting the item returns the stored item with the new total. |
| Voting.Upsert | server/src/handlers/vote_on_item.ts:41-60 | Definition: update the caller's row by its id, or insert a new row under the generated id when none matches. It has no contract of its own; `VoteSetsCallerRow` and `VotePreservesOneRowPerVoter` state its effect. |
| VoteQuery.SelectedRows | server/src/handlers/get_user_votes.ts:14-21 | A vote row is selected exactly when it belongs to this session and an item of this list has its item id. It is the independent reference that `GetUserVotesPerRow` compares the result against. |
| Tables.CurrentCount | server/src/handlers/vote_on_item.ts:27-31 | Definition: the count of the caller's row on the item, or 0 when there is none (`userVoteCount`). It has no contract of its own; `Voting.Vote` uses it for the guard, and `VoteErrors`, `VoteSetsCallerRow` and `VoteThenRetract` state their results in terms of it. |
| Tables.FindVote | server/src/handlers/vote_on_item.ts:19-31 | The lookup of the caller's row is `None` exactly when no row has this item and session. Otherwise it returns such a row. |
| Tables.SumForUpdate | server/src/handlers/vote_on_item.ts:43-68 | Giving one row a new count changes its own item's sum by the difference, and no other item's sum. |
| Schema.FreshIdExists | server/src/handlers/create_tally_list.ts:7 | An id not in any finite set of used ids always exists. Generating a fresh id relies on this. |

## Left out

- Concurrency: each handler runs as one atomic step. The code issues separate queries outside a transaction, so check-then-act races between requests are not modelled.
- Ids and time: ids are any unused strings, not UUIDs. `new Date()` and the database's `defaultNow()` are replaced by a counter that every insert or update advances; a removal leaves it unchanged.
- Integer width: counts and totals are unbounded integers. PostgreSQL's 32-bit `integer` overflow and the `Number(...)` conversion of the `SUM` result are not modelled.
- Row order: tables are sequences in insertion order. SQL leaves the order of unordered `SELECT`s unspecified, and the model fixes one.
- Errors raised by the database itself (connection failures, driver exceptions) and the `console.error` logging in every handler are not modelled.
- Input validation: the handlers' input schema (`VoteInput`, `CreateTallyItemInput`, `CreateTallyListInput`) is not part of this model, because `server/src/schema.ts` defines a different variant of the API. The model accepts any integer `delta`, as the handler code does; the client only ever sends `1` or `-1`. Titles and names are any strings.
- Uniqueness of (item_id, user_session_id): no database constraint enforcing it is visible. It is the predicate `OneRowPerVoter`, proved to be preserved by every write but not assumed.
- Voting.VotePreservesNonNegative: requires `delta` to be 1 or -1, which the handler itself does not check.
- The stub handlers (`increment_item.ts`, `decrement_item.ts`, `remove_item.ts`, `get_list.ts`), the HTTP routing in `server/src/index.ts` and the client code are not part of this model.
- Cascading deletion of a list's items: no handler deletes lists, so it is not modelled.

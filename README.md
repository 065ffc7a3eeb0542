# Vote and lottery canisters: a verified Dafny model

This project models two small Internet Computer canisters. Both are built the same way.
A durable `u64` counter hands out ids. A stable B-tree map takes each id to a record.
Update calls change the counter and the map. Query calls scan the map.

- **Voting system** (`VotingSystem`, `voting_system.dfy`). It stores `Vote {id, candidate, voter, timestamp}`.
  Votes can be added, updated, deleted and cleared. The queries list all votes and count them. They filter by
  candidate, by voter and by an inclusive time range. They also give the latest timestamp, the distinct
  candidates, the votes per candidate, the most and least voted candidate, and the votes sorted by timestamp.
- **Lottery** (`Lottery`, `lottery.dfy`). Tickets and draws each have their own counter and map. Buying a ticket
  and holding a draw both check the numbers: there must be exactly six, each in 1..=49. A ticket can be looked
  up by id. A ticket's owner can join a draw. The two "get all" queries fail with `NotFound` on an empty store.
- `KeyOrder` (`key_order.dfy`) gives the B-tree's iteration order: the values in ascending key order.
  `Outcomes` (`outcomes.dfy`) holds `Option` and `Result`.

Each canister's global state is a class (`VoteStore`, `LotteryStore`). The counters and maps are fields.
`Valid()` is each class's invariant: every record is stored under its own id, and every id is below its
family's counter. The update methods keep it. The queries are functions over the fields.

How the model reads the code:

- **Ids start at 0.** `Cell::set` returns the value it replaces. So a new record's id is the counter *before*
  the call, and the counter ends one higher (`NextId`, `NextTicketId`, `NextDrawId`).
- **Listings are in ascending id order.** Every key is below the counter, so a listing is the stored values for
  keys `0 .. counter-1` in that order (`KeyOrder.ValuesBelow`).
- **The host clock is an input.** `time()` becomes a parameter `now: nat`. Nothing assumes it grows from one
  call to the next.
- **HashMap order is not modelled.** `get_candidates` and the most/least queries depend on `HashMap` iteration
  order. The model picks keys with `:|`, so any order is allowed. Ties are won by any candidate with the
  extreme count.
- **The sort is stable.** The listing's ids ascend. So a stable sort by timestamp is exactly the order by
  (timestamp, id). `SortByTimestamp` is an insertion sort that moves a vote left only past strictly later
  ones. Its contract says the result is that order and a permutation of the listing.

What the code does that a reader might not expect:

- Ids start at 0.
- A second vote for the same (candidate, voter) pair is accepted.
- Lottery numbers may repeat (six 1s pass).
- `update_vote` overwrites the single `timestamp` with `now`. No creation time is kept, and the new timestamp
  need not be larger than the old one.
- Tickets are never updated, so `updated_at` is always `None`.

## Model

| member | source | states |
|---|---|---|
| `Outcomes.Option.UnwrapOr` | src/votitng_system/src/lib.rs:171-172 | `Some(v)` gives `v`; `None` gives the default |
| `KeyOrder.KeysBelow` | src/votitng_system/src/lib.rs:128 | the keys below the bound, strictly ascending, and exactly the map's keys below the bound |
| `KeyOrder.ValuesBelow` | src/votitng_system/src/lib.rs:128 | the i-th value listed is the value stored under the i-th key in ascending order |
| `KeyOrder.KeysBelowComplete` | src/votitng_system/src/lib.rs:128 | when every key is below the bound, the listing has one key per map entry |
| `KeyOrder.ValuesBelowComplete` | src/votitng_system/src/lib.rs:128 | when every key is below the bound, the listing has one value per entry, and its value set is exactly the map's values |
| `VotingSystem.Select` | src/votitng_system/src/lib.rs:141-146 | `filter`: keeps exactly the listed votes that satisfy the predicate, in order, so ascending ids stay ascending |
| `VotingSystem.SelectSnoc` | src/votitng_system/src/lib.rs:141-146 | filtering a listing with one more vote at the end adds that vote at the end when it matches |
| `VotingSystem.SelectNone` | src/votitng_system/src/lib.rs:208 | filtering with a predicate no vote meets gives the empty listing |
| `VotingSystem.CountSnoc` | src/votitng_system/src/lib.rs:194-195 | one more vote adds one to its own candidate's count and nothing to any other |
| `VotingSystem.TallyStep` | src/votitng_system/src/lib.rs:193-196 | `entry(c).or_insert(0)` then `+= 1` on a correct tally gives the correct tally of the longer listing |
| `VotingSystem.CountPositive` | src/votitng_system/src/lib.rs:193-196 | a candidate's count is positive exactly when the listing has a vote for it |
| `VotingSystem.SumCountsCoversAll` | src/votitng_system/src/lib.rs:190-198 | summing the counts over a duplicate-free list that covers every candidate gives the number of votes |
| `VotingSystem.MaxTimestamp` | src/votitng_system/src/lib.rs:167-171 | `max` of the timestamps: `None` exactly on an empty listing, otherwise a timestamp some vote has and none exceeds |
| `VotingSystem.SortByTimestamp` | src/votitng_system/src/lib.rs:253 | sorts the array in place into (timestamp, id) order, keeping the same multiset of votes (needs ascending ids on entry) |
| `VotingSystem.InsertLeft` | src/votitng_system/src/lib.rs:253 | one insertion step: the first i+1 votes end in (timestamp, id) order, the same multiset, and later positions keep their ascending ids |
| `VotingSystem.Swap` | src/votitng_system/src/lib.rs:253 | exchanges two positions, leaves every other position alone, and keeps the multiset |
| `VotingSystem.Ids` | src/votitng_system/src/lib.rs:117 | the ids collected from the listing: the i-th id is the i-th vote's id |
| `VotingSystem.VoteStore.constructor` | src/votitng_system/src/lib.rs:29-36 | the counter starts at 0, the map starts empty, and the invariant holds |
| `VotingSystem.VoteStore.NextId` | src/votitng_system/src/lib.rs:69-74 | returns the counter's old value and advances the counter by exactly 1 |
| `VotingSystem.VoteStore.Insert` | src/votitng_system/src/lib.rs:260-262 | stores the vote under its own id; no other entry changes |
| `VotingSystem.VoteStore.AddVote` | src/votitng_system/src/lib.rs:68-83 | returns `Ok({id = old counter, candidate, voter, timestamp = now})`; counter + 1; stores that vote under that id; nothing else changes; the id is above every stored id; keeps the invariant |
| `VotingSystem.VoteStore.UpdateVote` | src/votitng_system/src/lib.rs:87-97 | absent id: `VoteNotFoundError`, store unchanged; present id: same id, new candidate, voter and timestamp = now, stored under the id and returned; counter and other entries unchanged |
| `VotingSystem.VoteStore.DeleteVote` | src/votitng_system/src/lib.rs:101-110 | present id: returns the stored vote and removes exactly that entry; absent id: `VoteNotFoundError`, store unchanged; counter unchanged |
| `VotingSystem.VoteStore.ClearVotes` | src/votitng_system/src/lib.rs:114-123 | always `Ok(())`; the store ends empty (total 0); the counter is untouched |
| `VotingSystem.VoteStore.RemoveEach` | src/votitng_system/src/lib.rs:118-120 | removes exactly the listed keys; the remaining entries are unchanged |
| `VotingSystem.VoteStore.StoredIdsListed` | src/votitng_system/src/lib.rs:117 | the ids taken from the stored votes include every key of the map, which holds because each vote's id is its key |
| `VotingSystem.VoteStore.Votes` | src/votitng_system/src/lib.rs:127-129 | every stored vote exactly once (length = number of entries), in ascending id order |
| `VotingSystem.VoteStore.TotalVotes` | src/votitng_system/src/lib.rs:133-135 | the number of entries is the length of the full listing |
| `VotingSystem.VoteStore.VotesByCandidate` | src/votitng_system/src/lib.rs:139-148 | exactly the stored votes for that candidate, in ascending id order (possibly none) |
| `VotingSystem.VoteStore.VotesByVoter` | src/votitng_system/src/lib.rs:152-161 | exactly the stored votes by that voter, in ascending id order (possibly none) |
| `VotingSystem.VoteStore.VotesInTimeRange` | src/votitng_system/src/lib.rs:203-212 | exactly the stored votes with `start <= timestamp <= end`, in ascending id order |
| `VotingSystem.VoteStore.EmptyTimeRange` | src/votitng_system/src/lib.rs:208 | with `start > end` the result is empty, not an error |
| `VotingSystem.VoteStore.LatestVoteTimestamp` | src/votitng_system/src/lib.rs:165-174 | 0 on an empty store; otherwise a stored vote's timestamp that no stored timestamp exceeds |
| `VotingSystem.VoteStore.Candidates` | src/votitng_system/src/lib.rs:178-186 | every candidate with a stored vote, each exactly once, in no fixed order |
| `VotingSystem.VoteStore.ListingCandidates` | src/votitng_system/src/lib.rs:181-182 | a candidate occurs in the listing exactly when the store holds a vote for it |
| `VotingSystem.VoteStore.CandidateVotes` | src/votitng_system/src/lib.rs:190-199 | keys are exactly the stored candidates (the set `Candidates` lists); each count equals the number of that candidate's votes and is at least 1 |
| `VotingSystem.VoteStore.CandidateCountsSum` | src/votitng_system/src/lib.rs:190-199 | the per-candidate counts add up to `total_votes` |
| `VotingSystem.VoteStore.MostVotedCandidate` | src/votitng_system/src/lib.rs:216-229 | `Err(InsertFailed)` exactly when the store is empty; otherwise a stored candidate with no fewer votes than any other |
| `VotingSystem.VoteStore.LeastVotedCandidate` | src/votitng_system/src/lib.rs:233-246 | `Err(InsertFailed)` exactly when the store is empty; otherwise a stored candidate with no more votes than any other |
| `VotingSystem.VoteStore.EmptyStoreNoCandidates` | src/votitng_system/src/lib.rs:223-227 | the store is empty exactly when there is no candidate, which is when `max_by_key`/`min_by_key` yield `None` |
| `VotingSystem.VoteStore.VotesSortedByTimestamp` | src/votitng_system/src/lib.rs:250-256 | a permutation of all stored votes with non-decreasing timestamps; equal timestamps keep ascending id order (stable) |
| `VotingSystem.MarkCandidates` | src/votitng_system/src/lib.rs:180-183 | the marked keys are exactly the candidates of the listing |
| `VotingSystem.Tally` | src/votitng_system/src/lib.rs:192-196 | after the loop, the map has exactly the candidates of the listing, each with its number of votes |
| `VotingSystem.KeysOf` | src/votitng_system/src/lib.rs:184 | `keys().collect()`: every key exactly once |
| `VotingSystem.MaxByCount` | src/votitng_system/src/lib.rs:223-226 | `None` exactly for an empty map; otherwise a key whose count no other exceeds |
| `VotingSystem.MinByCount` | src/votitng_system/src/lib.rs:240-243 | `None` exactly for an empty map; otherwise a key whose count is no larger than any other |
| `VotingSystem.FreshIdsAcrossClear` | src/votitng_system/src/lib.rs:68-123 | a vote added after a delete and a clear still gets a larger id than the one before |
| `Lottery.ValidNumbers` | src/icp_rust_boilerplate_backend/src/lib.rs:95 | accepts exactly the lists of length 6 whose every number is in 1..=49 |
| `Lottery.NumbersExamples` | src/icp_rust_boilerplate_backend/src/lib.rs:95 | `[1..6]` and six 1s pass; a 0, a 50 or only five numbers fail |
| `Lottery.DecimalString` | src/icp_rust_boilerplate_backend/src/lib.rs:126 | the `{}` rendering of an id: non-empty decimal digits that denote the id, with no leading zero |
| `Lottery.LotteryStore.constructor` | src/icp_rust_boilerplate_backend/src/lib.rs:72-88 | both counters start at 0, both maps start empty, and the invariant holds |
| `Lottery.LotteryStore.NextTicketId` | src/icp_rust_boilerplate_backend/src/lib.rs:99-104 | returns the old ticket counter and advances it by exactly 1 |
| `Lottery.LotteryStore.NextDrawId` | src/icp_rust_boilerplate_backend/src/lib.rs:139-144 | returns the old draw counter and advances it by exactly 1 |
| `Lottery.LotteryStore.BuyLotteryTicket` | src/icp_rust_boilerplate_backend/src/lib.rs:93-116 | invalid numbers: `InvalidNumbers("Invalid lottery numbers")`, no change; otherwise stores `{id = old ticket counter, owner, numbers, created_at = now, updated_at = None}` under that id and bumps the ticket counter; draw state unchanged |
| `Lottery.LotteryStore.CheckLotteryTicket` | src/icp_rust_boilerplate_backend/src/lib.rs:120-129 | the stored ticket, with that id, exactly when the id is present; otherwise `NotFound("Lottery ticket with id=<id> not found")`; reads only |
| `Lottery.LotteryStore.LookupDraw` | src/icp_rust_boilerplate_backend/src/lib.rs:169-176 | the stored draw exactly when the id is present; otherwise `NotFound("Lottery draw with id=<id> not found")` |
| `Lottery.LotteryStore.ConductLotteryDraw` | src/icp_rust_boilerplate_backend/src/lib.rs:133-155 | invalid numbers: `InvalidNumbers("Invalid winning numbers")`, no change; otherwise stores `{id = old draw counter, winning_numbers, draw_time = now, participants = []}` and bumps only the draw counter; ticket state unchanged |
| `Lottery.LotteryStore.ParticipateInLotteryDraw` | src/icp_rust_boilerplate_backend/src/lib.rs:159-183 | ticket absent (checked first) or draw absent: `NotFound`, nothing changes; otherwise participants become old participants ++ [ticket owner], with no duplicate check; the draw's other fields, the tickets and both counters are unchanged |
| `Lottery.LotteryStore.AllLotteryTickets` | src/icp_rust_boilerplate_backend/src/lib.rs:187-193 | `NotFound("No lottery tickets found")` exactly when there is no ticket; otherwise every ticket once, in ascending id order |
| `Lottery.LotteryStore.AllLotteryDraws` | src/icp_rust_boilerplate_backend/src/lib.rs:197-203 | `NotFound("No lottery draws found")` exactly when there is no draw; otherwise every draw once, in ascending id order |
| `Lottery.BuyThenJoin` | src/icp_rust_boilerplate_backend/src/lib.rs:93-183 | a ticket just bought is found by its id; a new draw joined by that ticket lists exactly its owner |

## Left out

- The candid `Encode!`/`Decode!` codec for `Storable` and the `MAX_SIZE = 1024` bound (`BoundedStorable`). The model stores records as values and has no size limit.
- `thread_local!`, `RefCell`, `MemoryManager` and the `MemoryId` regions. They become the fields of one object per canister.
- `ic_cdk::api::time()`, the host clock. Each update method takes it as the parameter `now`.
- The `#[ic_cdk::update]`/`#[ic_cdk::query]` attributes and `export_candid!`. They only export the interface.
- The `expect` panics when a counter cannot be stored, and the `u64` overflow of `current_value + 1`. Counters, ids, timestamps and counts are unbounded naturals, so ids never wrap.
- `HashMap` iteration order. `Candidates` returns the candidates in an unspecified order. `MostVotedCandidate` and `LeastVotedCandidate` may return any candidate with the extreme count. The model does not reproduce which tied candidate Rust's `max_by_key` (last maximum) or `min_by_key` (first minimum) picks in a given hash order.
- The standard library's sort algorithm. `SortByTimestamp` is an insertion sort. Only its result is specified, and that result is the same for every stable sort.

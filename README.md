# Tekken stats backend — a Dafny model of ingestion and aggregation

This project models the two sequential cores of the tekken-stats backend.

- **Batch ingestion (`ReplayService`).** A batch of ranked battles is processed in six steps:
  1. The battle and player ids are collected.
  2. A Bloom-filter vote decides whether the batch is "mostly seen" (at least half of its ids are filter-positive). Only then are its ids looked up among the 250000 most recent stored battles.
  3. Each battle whose id was not found is dated and queued for insert. Two fresh players are built from it, one per side. Each gets per-character win/loss counters, pending increments, a recency-gated dan rank and latest battle, and a duplicate-free name history.
  4. The players are upserted.
  5. The character stats are flushed. One upsert row is built per (player, character), and the pending increments are zeroed at once. The rows are sorted by (player_id, character_id) and sent in chunks of 1000. On a deadlock (SQL state 40P01) the whole chunk sequence is resent from chunk 0, at most four attempts in all.
  6. The battles are inserted, ignoring ids already stored.
- **Aggregation (`StatisticsService`).** The job runs for each game version in turn. For every player it picks the main character: the first of its rows with the most wins + losses. It also groups all of a player's characters. Both feed buckets keyed by (game version, character, dan rank, category), with category `standard` or `overall`. A bucket that is already stored is reset on its first visit in the run and then summed. A bucket that is not stored gets a new object on every visit. totalPlayers counts the distinct players that visited the bucket. The buckets are then saved.

The three SQL upserts are pure functions over tables modelled as maps:
- battles: insert or ignore;
- players: overwrite tekken_power and latest_battle only;
- character_stats: add wins and losses, overwrite dan_rank and latest_battle.

Loops of the source are methods. Each is proved equal to a specification function, and the properties are lemmas about those functions. The iteration order of a Java `HashSet` or `HashMap` is unspecified, so it is an input sequence that enumerates the set. Where the order cannot matter, the loop picks elements with `:|`. Storage answers (write ok or failed; per chunk and attempt: ok, deadlock or other error) and the Bloom filter are parameters. So are the date formatter and `Player.updateTekkenPower` / `Player.setLatestBattle`, whose classes are not part of this model.

Modules: `Common` (option type, enumerations, `String.valueOf(int)`, `String.compareTo`), `Battles`, `Players`, `Ingest`, `StatsFlush`, `Pipeline`, `Aggregation`, `Statistics`.

### Behaviour as written

The model follows the code as written. In particular:
- The retry loop runs while `retryCount <= 3`. That is four attempts, not three. It sleeps 200, 400, 800 and 1600 ms, including after the last failure.
- Pending increments are zeroed while the rows are built, before any statement is sent. They are not zeroed after each successful chunk. A failed flush therefore loses them.
- A retry resends from chunk 0, and every chunk commits on its own. With more than 1000 rows, a deadlock after chunk 0 committed adds chunk 0's increments twice (`RetryResendsCommittedChunks`). "Exactly one application after retries" holds only for a single chunk (`SingleChunkAppliesOnce`).
- The existing-battles map comes only from storage. A battle id repeated inside one batch is queued twice and yields four player records (`RepeatInBatchCountedTwice`).
- A bucket that is not yet stored keeps only the last visit's totals, while totalPlayers counts every visitor. So the first run and the next run over the same rows disagree (`SecondRunDiffers`).
- One `try` encloses the loop over game versions. An exception in one version skips every later version of that run (`ComputeKeepsUnattempted`).
- The battle insert binds player 1's name to the player2_name column.
- The tekken power passed to `updateTekkenPower` is player 1's whenever the player's character id is "1", and player 2's otherwise.

## Model

| member | source | states |
|---|---|---|
| Common.DecimalString | src/main/java/org/tekkenstats/services/ReplayService.java:574-576 | the character key is the decimal text of the id: non-empty, a leading '-' exactly for negatives |
| Common.DecimalStringIsOne | src/main/java/org/tekkenstats/services/ReplayService.java:526 | the key equals "1" exactly when the character id is 1 |
| Common.DecimalStringInjective | src/main/java/org/tekkenstats/services/ReplayService.java:574-576 | distinct character ids give distinct keys: equal decimal texts come from equal ints |
| Battles.StoredRow | src/main/java/org/tekkenstats/services/ReplayService.java:266-297 | the stored row keeps the battle id and every column of the battle except player2_name, which holds player 1's name |
| Battles.NewRowsRepeatPlayer1Name | src/main/java/org/tekkenstats/services/ReplayService.java:285 | every row a batch adds has player2_name equal to player1_name |
| Battles.InsertOrIgnore | src/main/java/org/tekkenstats/services/ReplayService.java:256-264 | ON CONFLICT (battle_id) DO NOTHING: a stored id keeps its row, and a new id gets the stored form of the battle |
| Battles.InsertAll | src/main/java/org/tekkenstats/services/ReplayService.java:256-299 | after the batch the table holds the old ids plus the batch's ids, and no stored row changes |
| Battles.InsertAllKeepsFirst | src/main/java/org/tekkenstats/services/ReplayService.java:264 | a new row is the stored form of the first battle in the batch with that id |
| Battles.InsertAllOfStoredIdsIsIdentity | src/main/java/org/tekkenstats/services/ReplayService.java:264 | a batch whose ids are all stored leaves the table unchanged |
| Battles.InsertAllIdempotent | src/main/java/org/tekkenstats/services/ReplayService.java:264 | inserting the same batch twice equals inserting it once |
| Battles.ExecuteBattleBatchWrite | src/main/java/org/tekkenstats/services/ReplayService.java:246-307 | an empty set or a failed batch (caught and logged) leaves the table unchanged; otherwise the table is InsertAll of the set |
| Ingest.ExtractBattleAndPlayerIds | src/main/java/org/tekkenstats/services/ReplayService.java:93-100 | the loop yields exactly the batch's battle ids and both sides' user ids |
| Ingest.CountPositiveIsPositives | src/main/java/org/tekkenstats/services/ReplayService.java:119-132 | counting filter positives over an enumeration of the id set gives the number of positive ids |
| Ingest.CountPositivePrefix | src/main/java/org/tekkenstats/services/ReplayService.java:119-132 | a count stopped early never exceeds the full count, which is why the break cannot change the decision |
| Ingest.RecentMatches | src/main/java/org/tekkenstats/services/ReplayService.java:142-150 | the ids found are exactly the batch ids among the recent window, each mapped to its stored battle |
| Ingest.ScanRecent | src/main/java/org/tekkenstats/services/ReplayService.java:146-165 | filtering the window by the batch's ids and collecting by id yields RecentMatches, so each key is a batch id in the window and maps to that stored battle |
| Ingest.ExistingBattles | src/main/java/org/tekkenstats/services/ReplayService.java:109-165 | empty for an empty batch or below threshold (2·positives < size); otherwise the keys are the batch ids in the recent window; always a subset of the batch ids |
| Ingest.FetchExistingBattles | src/main/java/org/tekkenstats/services/ReplayService.java:103-166 | the counting loop with early break and the window lookup compute ExistingBattles; an empty batch consults the filter zero times, and no more than once per id otherwise |
| Ingest.StoredBatchIsRecognised | src/main/java/org/tekkenstats/services/ReplayService.java:139-150 | with a filter that has no false negatives, a batch wholly inside the window is recognised entirely |
| Ingest.OutOfWindowBattleLooksNew | src/main/java/org/tekkenstats/services/ReplayService.java:142-150 | a stored battle outside the 250000-row window is never reported as existing |
| Ingest.NewBattles | src/main/java/org/tekkenstats/services/ReplayService.java:213-236 | a battle is queued (dated) exactly when its id is not a key of the existing map, and every queued battle is the dated copy of such a batch battle |
| Ingest.NewPlusDuplicates | src/main/java/org/tekkenstats/services/ReplayService.java:211-236 | queued battles plus duplicates equal the batch size |
| Ingest.PlayersOf | src/main/java/org/tekkenstats/services/ReplayService.java:219-228 | two players per queued battle |
| Ingest.PlayersOfAt | src/main/java/org/tekkenstats/services/ReplayService.java:219-228 | the players of queued battle j are its side-1 and side-2 seeded players, in that order |
| Ingest.ProcessBattlesAndPlayers | src/main/java/org/tekkenstats/services/ReplayService.java:203-243 | the loop produces NewBattles, PlayersOf of them and the duplicate count, which together account for every battle |
| Ingest.RepeatInBatchCountedTwice | src/main/java/org/tekkenstats/services/ReplayService.java:213-236 | a new id appearing twice in a batch is queued twice and yields four players |
| Players.AddPlayerNameIfNew | src/main/java/org/tekkenstats/services/ReplayService.java:554-561 | the name is in the history afterwards; an existing name leaves the player unchanged, a new one is appended; nothing else changes |
| Players.AddPlayerNameKeepsNoDuplicates | src/main/java/org/tekkenstats/services/ReplayService.java:554-561 | a duplicate-free history stays duplicate-free |
| Players.AddPlayerNameIdempotent | src/main/java/org/tekkenstats/services/ReplayService.java:554-561 | adding the same name twice equals adding it once |
| Players.SeedStats | src/main/java/org/tekkenstats/services/ReplayService.java:540-542 | a seeded entry has the side's dan rank, latest battle = battleAt and zero counters |
| Players.UpdateNewPlayerDetails | src/main/java/org/tekkenstats/services/ReplayService.java:532-551 | identity, name, polaris id and power come from the battle's side; the character entry is seeded; latest battle comes from the opaque setter; the name is recorded |
| Players.UpdatePlayerWithBattle | src/main/java/org/tekkenstats/services/ReplayService.java:495-529 | only the battle's character entry changes; it gains exactly one of (wins, winsIncrement) or (losses, lossIncrement), the win pair iff winner == playerNumber; rank, latest battle and power change only when battleAt > the entry's latest battle |
| Players.UpdateCountsOneBattle | src/main/java/org/tekkenstats/services/ReplayService.java:510-519 | wins + losses and winsIncrement + lossIncrement each grow by exactly one |
| Players.PowerSourceFollowsCharacterId | src/main/java/org/tekkenstats/services/ReplayService.java:526 | the power source is player 1's power iff the character id is 1 |
| Players.SeededPlayerShape | src/main/java/org/tekkenstats/services/ReplayService.java:219-225 | for a fresh player the recency gate never fires: one entry, rank and latest battle from the battle, one win or one loss, name history of one name |
| Players.UpsertPlayer | src/main/java/org/tekkenstats/services/ReplayService.java:320-324 | a new id is inserted whole; a stored id keeps its name and polaris id and takes the new power and latest battle |
| Players.UpsertPlayersKeepsStoredIdentity | src/main/java/org/tekkenstats/services/ReplayService.java:320-324 | no batch changes a stored player's name or polaris id |
| Players.UpsertPlayersLastWins | src/main/java/org/tekkenstats/services/ReplayService.java:320-342 | power and latest battle are those of the last record with that id in the batch |
| Players.UpsertPlayersKeepsOthers | src/main/java/org/tekkenstats/services/ReplayService.java:320-342 | a stored player whose id no record of the batch carries keeps its whole row |
| Players.UpsertPlayersFirstInsertsIdentity | src/main/java/org/tekkenstats/services/ReplayService.java:320-342 | a new id is inserted with the name and polaris id of the first record in the batch with that id; later records do not change them |
| Players.ExecutePlayerBulkOperations | src/main/java/org/tekkenstats/services/ReplayService.java:310-347 | an empty set does nothing and succeeds; otherwise the table is the upsert of every player if the batch succeeds, and unchanged with failure reported if not |
| StatsFlush.ZeroIncrements | src/main/java/org/tekkenstats/services/ReplayService.java:393-395 | only the increments of every entry become zero |
| StatsFlush.AppendPlayerRows | src/main/java/org/tekkenstats/services/ReplayService.java:373-396 | the inner loop appends one row per character entry of the player and returns the player with increments zeroed |
| StatsFlush.BuildRows | src/main/java/org/tekkenstats/services/ReplayService.java:369-397 | the rows are, as a multiset, one per (player, character) entry carrying its rank, latest battle and increments; every player comes back with zeroed increments |
| StatsFlush.RowsOfAllCount | src/main/java/org/tekkenstats/services/ReplayService.java:369-397 | the number of rows equals the number of character entries |
| StatsFlush.RowLeTotal | src/main/java/org/tekkenstats/services/ReplayService.java:399-401 | the comparator orders any two rows |
| StatsFlush.RowLeTransitive | src/main/java/org/tekkenstats/services/ReplayService.java:399-401 | the comparator is transitive |
| StatsFlush.SortRows | src/main/java/org/tekkenstats/services/ReplayService.java:399-401 | in place, the array ends sorted by (player_id, character_id), is a permutation of its old contents, and is stable: the rows of each key keep their relative order, as List.sort promises |
| StatsFlush.SwapKeepsRowsWithKey | src/main/java/org/tekkenstats/services/ReplayService.java:399-401 | exchanging two adjacent rows of different keys keeps, for every key, the sequence of its rows |
| StatsFlush.PlayerRowsForLast | src/main/java/org/tekkenstats/services/ReplayService.java:369-397 | the last row built for a (player, character) key comes from the last player object in iteration order that has that key |
| StatsFlush.ChunkCount | src/main/java/org/tekkenstats/services/ReplayService.java:409-410 | ceil(n/1000): enough chunks for n rows, none to spare, zero exactly for n = 0 |
| StatsFlush.Chunk | src/main/java/org/tekkenstats/services/ReplayService.java:414-418 | every chunk holds between 1 and 1000 rows |
| StatsFlush.ChunksArePrefix | src/main/java/org/tekkenstats/services/ReplayService.java:412-418 | the first c chunks are exactly the first min(1000·c, n) rows |
| StatsFlush.ChunksCoverRows | src/main/java/org/tekkenstats/services/ReplayService.java:412-421 | all chunks laid end to end are the whole row list |
| StatsFlush.Upsert | src/main/java/org/tekkenstats/services/ReplayService.java:360-366 | the key is added if new; stored wins and losses become old + increment; dan_rank and latest_battle are overwritten; other keys unchanged |
| StatsFlush.ApplyRowsConcat | src/main/java/org/tekkenstats/services/ReplayService.java:360-366 | sending rows in two parts equals sending them at once |
| StatsFlush.ApplyRowsTotals | src/main/java/org/tekkenstats/services/ReplayService.java:360-366 | after any sequence of rows, stored wins and losses are the previous values (0 if new) plus the sum of the increments for that key, in any order |
| StatsFlush.ApplyRowsLastWins | src/main/java/org/tekkenstats/services/ReplayService.java:360-366 | rank and latest battle are those of the last row sent for the key |
| StatsFlush.ApplyRowsKeepsOthers | src/main/java/org/tekkenstats/services/ReplayService.java:360-366 | a stored key that no row carries keeps its whole row |
| StatsFlush.ApplyRowsLastOfKey | src/main/java/org/tekkenstats/services/ReplayService.java:360-366 | rank and latest battle of a key are those of the last row with that key |
| StatsFlush.SendAttempt | src/main/java/org/tekkenstats/services/ReplayService.java:412-422 | one attempt sends chunks in order until all are sent or one fails, as RunChunks states |
| StatsFlush.SendChunksWithRetry | src/main/java/org/tekkenstats/services/ReplayService.java:403-460 | the retry loop computes Flush: a non-deadlock error is rethrown on the spot; a deadlock sleeps and restarts from chunk 0 while retryCount <= 3 |
| StatsFlush.FlushBounds | src/main/java/org/tekkenstats/services/ReplayService.java:403-460 | at most four attempts; the k-th backoff is 2^k·100 ms; retries are exhausted exactly when four backoffs were slept |
| StatsFlush.NoDeadlockNoRetry | src/main/java/org/tekkenstats/services/ReplayService.java:425-453 | without deadlocks there is exactly one attempt and no sleep |
| StatsFlush.CompletedAttemptAppliesAll | src/main/java/org/tekkenstats/services/ReplayService.java:412-422 | an attempt that completes applies every remaining row once, in order |
| StatsFlush.SingleChunkAppliesOnce | src/main/java/org/tekkenstats/services/ReplayService.java:403-460 | with at most 1000 rows a successful flush applies the rows exactly once, however many deadlocks came before |
| StatsFlush.FlushedLastRowWins | src/main/java/org/tekkenstats/services/ReplayService.java:403-460 | after a successful flush, whatever deadlocks came before, rank and latest battle of each key are those of its last row |
| StatsFlush.RetryResendsCommittedChunks | src/main/java/org/tekkenstats/services/ReplayService.java:407-443 | with two chunks, a deadlock on chunk 1 then a clean retry applies chunk 0 twice |
| StatsFlush.ExecuteCharacterStatsBulkOperations | src/main/java/org/tekkenstats/services/ReplayService.java:350-465 | empty set: nothing; otherwise every player's increments are zero whatever follows, the rows are the entries sorted by key, each key's rows in player order, and the result, table and backoffs are those of Flush |
| Pipeline.WriteBatch | src/main/java/org/tekkenstats/services/ReplayService.java:85-90 | players, then character_stats, then battles; a players failure writes nothing further; a successful flush leaves each (player, character) key with the rank and latest battle of the last player object with that key; a flush that does not succeed leaves battles unwritten; a battles failure is swallowed |
| Pipeline.FlushFollowsLastPlayer | src/main/java/org/tekkenstats/services/ReplayService.java:369-460 | after a successful flush each (player, character) key holds the rank and latest battle of the last player object with that key in iteration order |
| Pipeline.ProcessBattlesAsync | src/main/java/org/tekkenstats/services/ReplayService.java:68-91 | one batch end to end: the queued battles and the players built from them are written as WriteBatch states, each set in its HashSet iteration order (any permutation of the order they were added in; one order for both player writes, so the players row and the character_stats rows of a key follow the same last player object) |
| Pipeline.OrderKeepsStoredKeys | src/main/java/org/tekkenstats/services/ReplayService.java:79-90 | whatever the HashSet orders, the stored player ids and battle ids afterwards are the old ones plus those of the built players and queued battles |
| Pipeline.RedeliveredBatchQueuesNothing | src/main/java/org/tekkenstats/services/ReplayService.java:103-166 | a redelivered batch inside the window, with a filter that has no false negatives, queues no battle and no player |
| Pipeline.RedeliveredBatchLeavesStore | src/main/java/org/tekkenstats/services/ReplayService.java:68-166 | so a redelivered batch leaves players, character_stats and battles exactly as they were, with no row sent and the flush complete |
| Aggregation.IdentifyPlayerMainCharacters | src/main/java/org/tekkenstats/services/StatisticsService.java:74-90 | the loop computes MainCharacters of the rows |
| Aggregation.MainCharactersKeys | src/main/java/org/tekkenstats/services/StatisticsService.java:74-90 | one entry per distinct player of the rows |
| Aggregation.MainCharacterIsFirstMaximum | src/main/java/org/tekkenstats/services/StatisticsService.java:84-87 | a player's entry is the data of its first row with the most wins + losses: none has more, none earlier has as many |
| Aggregation.GetAllPlayerCharacters | src/main/java/org/tekkenstats/services/StatisticsService.java:92-107 | the loop computes Groups of the rows |
| Aggregation.GroupsArePerPlayerRows | src/main/java/org/tekkenstats/services/StatisticsService.java:92-107 | one list per distinct player, holding the data of that player's rows in scan order |
| Aggregation.GroupsCoverRows | src/main/java/org/tekkenstats/services/StatisticsService.java:92-107 | the list lengths over all players sum to the number of rows |
| Aggregation.MainContributions | src/main/java/org/tekkenstats/services/StatisticsService.java:119-124 | one visit per player in map order, keyed by (version, main character, rank, category) |
| Aggregation.AccumulateKeys | src/main/java/org/tekkenstats/services/StatisticsService.java:116-152 | after the first loop the buckets are exactly the ones visited |
| Aggregation.AccumulateAt | src/main/java/org/tekkenstats/services/StatisticsService.java:125-151 | per bucket: the distinct visitors; the sums over all visits if stored, the last visit if not |
| Aggregation.AccumulateThenFinish | src/main/java/org/tekkenstats/services/StatisticsService.java:116-162 | the two loops together give Aggregate: exactly the visited buckets, with totalPlayers = number of distinct visitors |
| Aggregation.ReplaysAreWinsPlusLosses | src/main/java/org/tekkenstats/services/StatisticsService.java:144-146 | totalReplays = totalWins + totalLosses in every bucket when each visit's plays are its wins + losses |
| Aggregation.StandardReplaysAreWinsPlusLosses | src/main/java/org/tekkenstats/services/StatisticsService.java:82-146 | every bucket built from the main characters has totalReplays = totalWins + totalLosses |
| Aggregation.OverallReplaysAreWinsPlusLosses | src/main/java/org/tekkenstats/services/StatisticsService.java:95-146 | every bucket built from all characters has totalReplays = totalWins + totalLosses |
| Aggregation.NewBucketKeepsLastVisitOnly | src/main/java/org/tekkenstats/services/StatisticsService.java:126-130 | an unstored bucket visited by two players holds the second player's totals and totalPlayers 2 |
| Aggregation.StoredBucketSumsVisits | src/main/java/org/tekkenstats/services/StatisticsService.java:131-146 | a stored bucket visited by two players holds the sums of both, the old values discarded |
| Aggregation.SecondRunDiffers | src/main/java/org/tekkenstats/services/StatisticsService.java:125-146 | over the same visits, the run that creates a bucket and the run that finds it stored give different results |
| Aggregation.StandardCountsEachPlayerOnce | src/main/java/org/tekkenstats/services/StatisticsService.java:119-160 | in the standard category a player is among the visitors of exactly one bucket, that of its main character and rank |
| Aggregation.SetTotalPlayers | src/main/java/org/tekkenstats/services/StatisticsService.java:154-160 | the second loop sets totalPlayers of every bucket to the size of its player set and changes nothing else |
| Aggregation.AggregateStatistics | src/main/java/org/tekkenstats/services/StatisticsService.java:109-163 | the result is Aggregate of the main-character visits against the stored bucket ids |
| Aggregation.VisitCharacters | src/main/java/org/tekkenstats/services/StatisticsService.java:177-203 | the inner loop visits one player's characters in list order |
| Aggregation.AggregateOverallStatistics | src/main/java/org/tekkenstats/services/StatisticsService.java:165-215 | the result is Aggregate of all character visits against the stored bucket ids |
| Statistics.SaveAll | src/main/java/org/tekkenstats/services/StatisticsService.java:217-219 | every saved statistic is written by id; stored statistics not in the collection keep their values |
| Statistics.StoredFor | src/main/java/org/tekkenstats/services/StatisticsService.java:56-58 | the stored statistics of exactly one version and category |
| Statistics.ProcessGameVersionStatistics | src/main/java/org/tekkenstats/services/StatisticsService.java:51-72 | standard buckets are computed and saved, then overall ones against the table as it now is; a failure stops at the point where it happens |
| Statistics.ProcessVersionScope | src/main/java/org/tekkenstats/services/StatisticsService.java:51-72 | a version's run adds only that version's standard and overall buckets; no stored bucket is removed; buckets of other versions and unvisited buckets keep their values |
| Statistics.Attempted | src/main/java/org/tekkenstats/services/StatisticsService.java:31-44 | the versions that start form a prefix of the list; all but the last of them complete; a shorter prefix ends in a failure |
| Statistics.ComputeKeepsUnattempted | src/main/java/org/tekkenstats/services/StatisticsService.java:31-44 | buckets of versions after the first failure are left as they were |
| Statistics.ComputeStatistics | src/main/java/org/tekkenstats/services/StatisticsService.java:30-45 | no version list: nothing; otherwise the versions in order, stopping at the first failure |

## Left out

- Message transport and parsing (`receiveMessage`, RabbitMQ, Jackson) are left out: the model starts from a list of battles.
- The Bloom filter's internals are left out. `mightContain` is a parameter, and "no false negatives" is a lemma hypothesis.
- Database execution is left out. Tables are maps, and each statement batch's answer is a parameter: ok or failed, or per chunk and attempt ok, deadlock or other error. A batch is taken as atomic. Partial failure inside one JDBC batch is not modelled.
- The recent-battles query is an input sequence of at most 250000 battles with distinct ids. Its ordering by battle_at is not modelled.
- Queries whose SQL is not part of this model (`findAllGameVersions`, `findAllStatsByGameVersion`) are inputs.
- The effect of `@Transactional` is not modelled. The methods are called on the same object, so each chunk commits on its own.
- Concurrency is left out: the listener's four consumers and the 60-second schedule.
- `Thread.sleep` and the interruption path are left out. Only the backoff values are computed.
- Clock reads, timing and logging are left out. The statistics' computedAt is not modelled.
- `getReadableDateInUTC`, `Player.updateTekkenPower` and `Player.setLatestBattle` are opaque functions supplied by the caller, because the Player class and java.time are not part of this model.
- Dead code is left out: `fetchExistingPlayers`, `getOrCreatePlayer`, `updateExistingPlayer`, `createNewPlayer` and `calculatePlayerRating` are never reached from the pipeline. Main.java is bootstrap only.
- Floating point is replaced by integers. The threshold test is 2·positives ≥ size, and Math.ceil(n/1000) is (n + 999)/1000.
- Java `int`/`long` overflow is not modelled. Counters, increments and wins + losses are unbounded integers.
- Equality of Player and Battle objects in the HashSets is not modelled, because their classes are not part of this model. Every object the loop creates is a distinct object, so each set holds all of them; its iteration order is an input permutation of the order they were added in.
- Null checks are not modelled: the character-stats map is never null, and nullable rating columns are plain values.
- String.compareTo compares UTF-16 code units. The model compares characters, which agrees for text in the Basic Multilingual Plane.
- Aggregation.StandardCountsEachPlayerOnce: states that each player lies in exactly one bucket's player set, rather than summing totalPlayers over all buckets.
- Statistics.ProcessGameVersionStatistics: failures are modelled at two points only, before the standard save and between the two saves. Each save is atomic.

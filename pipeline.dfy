/**
 * ReplayService.processBattlesAsync: one batch through the whole pipeline —
 * ids, duplicate check, accumulation, then the players, character_stats and
 * battles writes, in that order. An exception from the players or
 * character_stats write ends the batch; the battles write catches its own.
 */
module Pipeline {
  import opened Common
  import opened Battles
  import opened Players
  import opened Ingest
  import opened StatsFlush

  /** The three tables the pipeline writes. */
  datatype Store = Store(battles: BattleTable, players: PlayerTable, stats: StatsTable)

  /** Everything else the batch depends on: the iteration orders of the
      batch's id set and of the updatedPlayers and battleSet HashSets, the
      Bloom filter, the recent-battles window, the opaque player and date
      helpers, and what storage answers to each write. */
  datatype Environment = Environment(
    idOrder: seq<string>,
    playerOrder: seq<Player>,
    battleOrder: seq<Battle>,
    mightContain: string -> bool,
    recent: seq<Battle>,
    hooks: Hooks,
    playerWrite: WriteOutcome,
    chunkOutcome: (nat, nat) -> ChunkOutcome,
    battleWrite: WriteOutcome)

  /** The battles the batch queues for insert. */
  function Queued(battles: seq<Battle>, env: Environment): seq<Battle>
    requires DistinctIds(env.recent)
  {
    NewBattles(battles, ExistingBattles(BattleIds(battles), env.mightContain, env.recent), env.hooks)
  }

  /** Every object added to updatedPlayers and battleSet is a distinct
      object, so each HashSet holds all of them and yields them in some
      order: a permutation of the order they were added in. The players
      write and the character_stats write iterate the same, unchanged
      updatedPlayers, so they see the same order. */
  ghost predicate ValidEnvironment(battles: seq<Battle>, env: Environment)
  {
    && Enumerates(env.idOrder, BattleIds(battles))
    && |env.recent| <= RecentWindow
    && DistinctIds(env.recent)
    && multiset(env.battleOrder) == multiset(Queued(battles, env))
    && multiset(env.playerOrder) == multiset(PlayersOf(Queued(battles, env), env.hooks))
  }

  /** The three writes of a batch, given the battles it queued and the
      players it built: what each table becomes and whether the batch ends
      normally. */
  ghost predicate Written(store: Store, store': Store, rows: seq<Row>, completed: bool,
                         queued: seq<Battle>, players: seq<Player>, env: Environment)
  {
    && (players == [] ==> store' == store && rows == [] && completed)
    && (players != [] && env.playerWrite == WriteFailed ==> store' == store && rows == [] && !completed)
    && (players != [] && env.playerWrite == WriteOk ==>
          && store'.players == UpsertPlayers(store.players, players)
          && multiset(rows) == RowsOfAll(players) && Sorted(rows)
          && var (result, stats, _) := Flush(rows, store.stats, env.chunkOutcome, 0);
             && store'.stats == stats
             && (!result.Flushed? ==> store'.battles == store.battles && !completed)
             && (result.Flushed? ==>
                   && completed
                   && LastPlayerDecidesStats(players, store'.stats)
                   && store'.battles == if env.battleWrite == WriteOk then InsertAll(store.battles, queued) else store.battles))
  }

  /** For every (player, character) key, the stored dan_rank and
      latest_battle are those of the last player object, in the order the
      players were written, that has the key. */
  ghost predicate LastPlayerDecidesStats(players: seq<Player>, stats: StatsTable)
  {
    forall k :: PlayerRowsFor(players, k) != [] ==>
      var last := PlayerRowsFor(players, k)[|PlayerRowsFor(players, k)| - 1];
      k in stats && stats[k].danRank == last.danRank && stats[k].latestBattle == last.latestBattle
  }

  /** The rows carry, per key, the players' rows in player order, so a
      successful flush stores for each key the rank and latest battle of the
      last player object with that key. */
  lemma FlushFollowsLastPlayer(players: seq<Player>, rows: seq<Row>, stats: StatsTable, outcome: (nat, nat) -> ChunkOutcome)
    requires forall k :: RowsWithKey(rows, k) == PlayerRowsFor(players, k)
    requires Flush(rows, stats, outcome, 0).0.Flushed?
    ensures LastPlayerDecidesStats(players, Flush(rows, stats, outcome, 0).1)
  {
    var t := Flush(rows, stats, outcome, 0).1;
    forall k | PlayerRowsFor(players, k) != []
      ensures k in t
      ensures t[k].danRank == PlayerRowsFor(players, k)[|PlayerRowsFor(players, k)| - 1].danRank
      ensures t[k].latestBattle == PlayerRowsFor(players, k)[|PlayerRowsFor(players, k)| - 1].latestBattle
    {
      assert RowsWithKey(rows, k) == PlayerRowsFor(players, k);
      FlushedLastRowWins(rows, stats, outcome, 0, k);
    }
  }

  /** The writes: players, then character_stats, then battles. */
  method WriteBatch(store: Store, queued: seq<Battle>, players: seq<Player>, env: Environment)
    returns (store': Store, rows: seq<Row>, completed: bool)
    requires players == [] <==> queued == []
    ensures Written(store, store', rows, completed, queued, players, env)
  {
    var playersTable, playersOk := ExecutePlayerBulkOperations(store.players, players, env.playerWrite);
    if !playersOk {
      return store, [], false;
    }
    var zeroed, flushResult, statsTable, backoffs;
    zeroed, rows, flushResult, statsTable, backoffs :=
      ExecuteCharacterStatsBulkOperations(players, store.stats, env.chunkOutcome);
    if !flushResult.Flushed? {
      return Store(store.battles, playersTable, statsTable), rows, false;
    }
    FlushFollowsLastPlayer(players, rows, store.stats, env.chunkOutcome);
    var battlesTable := ExecuteBattleBatchWrite(store.battles, queued, env.battleWrite);
    store', completed := Store(battlesTable, playersTable, statsTable), true;
  }

  /** One batch, end to end. */
  method ProcessBattlesAsync(store: Store, battles: seq<Battle>, env: Environment)
    returns (store': Store, rows: seq<Row>, completed: bool)
    requires ValidEnvironment(battles, env)
    ensures Written(store, store', rows, completed, env.battleOrder, env.playerOrder, env)
  {
    var battleIds, playerIds := ExtractBattleAndPlayerIds(battles);
    var existing, probes := FetchExistingBattles(battleIds, env.idOrder, env.mightContain, env.recent);
    var updatedPlayers, battleSet, duplicates := ProcessBattlesAndPlayers(battles, existing, env.hooks);
    assert |env.playerOrder| == |updatedPlayers| && |env.battleOrder| == |battleSet| by {
      assert |multiset(env.playerOrder)| == |multiset(updatedPlayers)|;
      assert |multiset(env.battleOrder)| == |multiset(battleSet)|;
    }
    store', rows, completed := WriteBatch(store, env.battleOrder, env.playerOrder, env);
  }

  /** The iteration orders decide which copy of a player's record or of a
      repeated battle id is written, but not which players and battles end
      up stored. */
  lemma OrderKeepsStoredKeys(store: Store, battles: seq<Battle>, env: Environment)
    requires ValidEnvironment(battles, env)
    ensures UpsertPlayers(store.players, env.playerOrder).Keys
         == store.players.Keys + PlayerIdsOf(PlayersOf(Queued(battles, env), env.hooks))
    ensures InsertAll(store.battles, env.battleOrder).Keys
         == store.battles.Keys + BattleIds(Queued(battles, env))
  {
    var queued := Queued(battles, env);
    SameElementsSameIds(env.playerOrder, PlayersOf(queued, env.hooks));
    SameElementsSameBattleIds(env.battleOrder, queued);
  }

  lemma SameElementsSameIds(a: seq<Player>, b: seq<Player>)
    requires multiset(a) == multiset(b)
    ensures PlayerIdsOf(a) == PlayerIdsOf(b)
  {
    forall id | id in PlayerIdsOf(a) ensures id in PlayerIdsOf(b) {
      var i :| 0 <= i < |a| && a[i].playerId == id;
      assert a[i] in multiset(b);
      var j :| 0 <= j < |b| && b[j] == a[i];
    }
    forall id | id in PlayerIdsOf(b) ensures id in PlayerIdsOf(a) {
      var j :| 0 <= j < |b| && b[j].playerId == id;
      assert b[j] in multiset(a);
      var i :| 0 <= i < |a| && a[i] == b[j];
    }
  }

  lemma SameElementsSameBattleIds(a: seq<Battle>, b: seq<Battle>)
    requires multiset(a) == multiset(b)
    ensures BattleIds(a) == BattleIds(b)
  {
    forall id | id in BattleIds(a) ensures id in BattleIds(b) {
      var i :| 0 <= i < |a| && a[i].battleId == id;
      assert a[i] in multiset(b);
      var j :| 0 <= j < |b| && b[j] == a[i];
    }
    forall id | id in BattleIds(b) ensures id in BattleIds(a) {
      var j :| 0 <= j < |b| && b[j].battleId == id;
      assert b[j] in multiset(a);
      var i :| 0 <= i < |a| && a[i] == b[j];
    }
  }

  lemma {:induction false} AllDuplicates(battles: seq<Battle>, existing: map<string, Battle>)
    requires forall i :: 0 <= i < |battles| ==> battles[i].battleId in existing
    ensures DuplicateCount(battles, existing) == |battles|
    decreases |battles|
  {
    if battles != [] {
      AllDuplicates(battles[..|battles| - 1], existing);
    }
  }

  /** Redelivery of a batch whose battles are all stored and inside the
      recent window (with a filter that has no false negatives) queues
      nothing (RedeliveredBatchLeavesStore: so every table stays as it was). */
  lemma RedeliveredBatchQueuesNothing(battles: seq<Battle>, env: Environment, stored: set<string>)
    requires DistinctIds(env.recent)
    requires BattleIds(env.recent) <= stored
    requires forall id :: id in stored ==> env.mightContain(id)
    requires BattleIds(battles) <= BattleIds(env.recent)
    ensures Queued(battles, env) == []
    ensures PlayersOf(Queued(battles, env), env.hooks) == []
  {
    var ids := BattleIds(battles);
    StoredBatchIsRecognised(ids, env.mightContain, env.recent, stored);
    var existing := ExistingBattles(ids, env.mightContain, env.recent);
    AllDuplicates(battles, existing);
    NewPlusDuplicates(battles, existing, env.hooks);
  }

  /** So redelivering such a batch leaves every table as it was. */
  lemma RedeliveredBatchLeavesStore(store: Store, store': Store, rows: seq<Row>, completed: bool,
                                    battles: seq<Battle>, env: Environment, stored: set<string>)
    requires ValidEnvironment(battles, env)
    requires BattleIds(env.recent) <= stored
    requires forall id :: id in stored ==> env.mightContain(id)
    requires BattleIds(battles) <= BattleIds(env.recent)
    requires Written(store, store', rows, completed, env.battleOrder, env.playerOrder, env)
    ensures store' == store && rows == [] && completed
  {
    RedeliveredBatchQueuesNothing(battles, env, stored);
    assert |multiset(env.playerOrder)| == 0;
  }
}

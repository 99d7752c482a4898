/**
 * The Battle record (one finished match between two players), its per-side
 * accessors, and the `battles` table with its insert-or-ignore write
 * (ReplayService.executeBattleBatchWrite).
 */
module Battles {
  import opened Common

  /** One match as delivered by the queue. `date` is filled in by the
      pipeline from `battleAt` (epoch seconds). Rating fields are nullable
      Integers in the source; here they are plain ints. */
  datatype Battle = Battle(
    battleId: string,
    date: string,
    battleAt: int,
    battleType: int,
    gameVersion: int,
    player1CharacterId: int,
    player1Name: string,
    player1PolarisId: string,
    player1TekkenPower: int,
    player1DanRank: int,
    player1RatingBefore: int,
    player1RatingChange: int,
    player1RoundsWon: int,
    player1UserId: string,
    player2CharacterId: int,
    player2Name: string,
    player2PolarisId: string,
    player2TekkenPower: int,
    player2DanRank: int,
    player2RatingBefore: int,
    player2RatingChange: int,
    player2RoundsWon: int,
    player2UserId: string,
    stageId: int,
    winner: int)

  // Per-side accessors: side 1 when playerNumber == 1, side 2 for any other number.

  function UserId(b: Battle, playerNumber: int): string
  {
    if playerNumber == 1 then b.player1UserId else b.player2UserId
  }

  function Name(b: Battle, playerNumber: int): string
  {
    if playerNumber == 1 then b.player1Name else b.player2Name
  }

  function PolarisId(b: Battle, playerNumber: int): string
  {
    if playerNumber == 1 then b.player1PolarisId else b.player2PolarisId
  }

  function TekkenPower(b: Battle, playerNumber: int): int
  {
    if playerNumber == 1 then b.player1TekkenPower else b.player2TekkenPower
  }

  function DanRank(b: Battle, playerNumber: int): int
  {
    if playerNumber == 1 then b.player1DanRank else b.player2DanRank
  }

  /** The character-stats key of a side: the character id as decimal text. */
  function CharacterKey(b: Battle, playerNumber: int): string
  {
    DecimalString(if playerNumber == 1 then b.player1CharacterId else b.player2CharacterId)
  }

  /** The ids of a list of battles. */
  function BattleIds(battles: seq<Battle>): (ids: set<string>)
    ensures forall i :: 0 <= i < |battles| ==> battles[i].battleId in ids
  {
    set i | 0 <= i < |battles| :: battles[i].battleId
  }

  // ---------------------------------------------------------------------
  // The battles table: INSERT ... ON CONFLICT (battle_id) DO NOTHING

  type BattleTable = map<string, Battle>

  /** The row the insert statement stores for a battle. Its player2_name
      column is bound to player 1's name, as the statement's arguments are
      written. */
  function StoredRow(b: Battle): (row: Battle)
    ensures row.battleId == b.battleId
    ensures row.player2Name == b.player1Name
    ensures row.(player2Name := b.player2Name) == b  // every other column is the battle's own
  {
    b.(player2Name := b.player1Name)
  }

  /** One insert-or-ignore: a battle whose id is already stored changes nothing. */
  function InsertOrIgnore(table: BattleTable, b: Battle): (r: BattleTable)
    ensures b.battleId in table ==> r == table
    ensures b.battleId !in table ==> r == table[b.battleId := StoredRow(b)]
  {
    if b.battleId in table then table else table[b.battleId := StoredRow(b)]
  }

  /** Index of the first battle with the given id. */
  function FirstIndex(battles: seq<Battle>, id: string): (i: nat)
    requires id in BattleIds(battles)
    ensures i < |battles| && battles[i].battleId == id
    ensures forall j :: 0 <= j < i ==> battles[j].battleId != id
  {
    if battles[0].battleId == id then 0
    else
      assert id in BattleIds(battles[1..]) by {
        var k :| 0 <= k < |battles| && battles[k].battleId == id;
        assert battles[1..][k - 1] == battles[k];
      }
      1 + FirstIndex(battles[1..], id)
  }

  /** The batch of inserts, in the order the statement batch sends them. */
  function InsertAll(table: BattleTable, battles: seq<Battle>): (r: BattleTable)
    ensures r.Keys == table.Keys + BattleIds(battles)
    ensures forall id :: id in table ==> r[id] == table[id]
    decreases |battles|
  {
    if battles == [] then table
    else
      var init := battles[..|battles| - 1];
      var last := battles[|battles| - 1];
      assert battles == init + [last];
      assert BattleIds(battles) == BattleIds(init) + {last.battleId};
      InsertOrIgnore(InsertAll(table, init), last)
  }

  /** A row the batch adds is the stored form of the FIRST battle in the
      batch with that id; later ones with the same id are ignored. */
  lemma {:induction false} InsertAllKeepsFirst(table: BattleTable, battles: seq<Battle>, id: string)
    requires id in BattleIds(battles) && id !in table
    ensures InsertAll(table, battles)[id] == StoredRow(battles[FirstIndex(battles, id)])
    decreases |battles|
  {
    var init := battles[..|battles| - 1];
    var last := battles[|battles| - 1];
    assert battles == init + [last];
    assert BattleIds(battles) == BattleIds(init) + {last.battleId};
    var before := InsertAll(table, init);
    assert InsertAll(table, battles) == InsertOrIgnore(before, last);
    var j := FirstIndex(battles, id);
    if id in BattleIds(init) {
      InsertAllKeepsFirst(table, init, id);
      assert id in before;
      assert InsertAll(table, battles)[id] == before[id];
      var i := FirstIndex(init, id);
      assert battles[i] == init[i];
      assert i == j;
    } else {
      assert last.battleId == id;
      assert id !in before;
      assert j == |battles| - 1;
    }
  }

  /** Inserting battles whose ids are all stored already leaves the table as it is. */
  lemma {:induction false} InsertAllOfStoredIdsIsIdentity(table: BattleTable, battles: seq<Battle>)
    requires BattleIds(battles) <= table.Keys
    ensures InsertAll(table, battles) == table
    decreases |battles|
  {
    if battles != [] {
      var init := battles[..|battles| - 1];
      assert battles == init + [battles[|battles| - 1]];
      assert BattleIds(init) <= BattleIds(battles);
      InsertAllOfStoredIdsIsIdentity(table, init);
    }
  }

  /** Writing the same battles twice stores the same rows as writing them once. */
  lemma InsertAllIdempotent(table: BattleTable, battles: seq<Battle>)
    ensures InsertAll(InsertAll(table, battles), battles) == InsertAll(table, battles)
  {
    InsertAllOfStoredIdsIsIdentity(InsertAll(table, battles), battles);
  }

  /** Every row the batch adds carries player 1's name in its player2_name column. */
  lemma NewRowsRepeatPlayer1Name(table: BattleTable, battles: seq<Battle>, id: string)
    requires id in InsertAll(table, battles) && id !in table
    ensures InsertAll(table, battles)[id].player2Name == InsertAll(table, battles)[id].player1Name
  {
  }

  /** Outcome of the battle batch statement, which the method does not control. */
  datatype WriteOutcome = WriteOk | WriteFailed

  /** executeBattleBatchWrite: an empty set writes nothing; otherwise one
      statement batch of insert-or-ignore rows in the set's iteration order.
      A failure is caught and logged, never rethrown: the table keeps its
      previous rows and the caller is not told. */
  method ExecuteBattleBatchWrite(table: BattleTable, battleSet: seq<Battle>, outcome: WriteOutcome)
    returns (table': BattleTable)
    ensures battleSet == [] || outcome == WriteFailed ==> table' == table
    ensures battleSet != [] && outcome == WriteOk ==> table' == InsertAll(table, battleSet)
  {
    if battleSet == [] {
      return table;
    }
    var written := SendInserts(table, battleSet);
    table' := if outcome == WriteOk then written else table;
  }

  /** The batch's statements, one per battle in iteration order, as the
      database executes them. */
  method SendInserts(table: BattleTable, battleSet: seq<Battle>) returns (written: BattleTable)
    ensures written == InsertAll(table, battleSet)
  {
    written := table;
    var i := 0;
    while i < |battleSet|
      invariant 0 <= i <= |battleSet|
      invariant written == InsertAll(table, battleSet[..i])
    {
      assert InsertAll(table, battleSet[..i + 1]) == InsertOrIgnore(written, battleSet[i]) by {
        assert battleSet[..i + 1][..i] == battleSet[..i];
      }
      written := InsertOrIgnore(written, battleSet[i]);
      i := i + 1;
    }
    assert battleSet[..i] == battleSet;
  }
}

/**
 * Player and CharacterStats records and the per-battle accumulation of
 * ReplayService: updateNewPlayerDetails, updatePlayerWithBattle and
 * addPlayerNameIfNew, plus the `players` table and its upsert
 * (executePlayerBulkOperations).
 */
module Players {
  import opened Common
  import opened Battles

  /** Cumulative wins/losses of one player on one character, the rank and
      time of the latest battle absorbed, and the pending increments that
      carry this batch's contribution to the additive upsert. */
  datatype CharacterStats = CharacterStats(
    danRank: int,
    latestBattle: int,
    wins: int,
    losses: int,
    winsIncrement: int,
    lossIncrement: int)

  /** `new CharacterStats()`: every field at Java's default 0. */
  const NewCharacterStats := CharacterStats(0, 0, 0, 0, 0, 0)

  /** A player with its character stats keyed by character id (as text) and
      its name history (PastPlayerNames reduced to the name). */
  datatype Player = Player(
    playerId: string,
    name: string,
    polarisId: string,
    tekkenPower: int,
    latestBattle: int,
    characterStats: map<string, CharacterStats>,
    playerNames: seq<string>)

  /** `new Player()`: empty stats map and name history, default fields. */
  const NewPlayer := Player("", "", "", 0, 0, map[], [])

  /** Collaborators whose code is not part of this model:
      - updateTekkenPower: Player.updateTekkenPower(power, battleAt), as the
        tekkenPower it leaves on the player it is called on;
      - latestBattleOf: Player.setLatestBattle(), as the latestBattle it
        leaves on the player it is called on;
      - readableDate: getReadableDateInUTC, a function of battleAt. */
  datatype Hooks = Hooks(
    updateTekkenPower: (Player, int, int) -> int,
    latestBattleOf: Player -> int,
    readableDate: int -> string)

  predicate NoDuplicates(names: seq<string>)
  {
    forall i, j :: 0 <= i < j < |names| ==> names[i] != names[j]
  }

  // ---------------------------------------------------------------------
  // addPlayerNameIfNew

  /** Appends `name` to the history unless an entry with that name exists. */
  function AddPlayerNameIfNew(p: Player, name: string): (r: Player)
    ensures name in r.playerNames
    ensures name in p.playerNames ==> r == p
    ensures name !in p.playerNames ==> r.playerNames == p.playerNames + [name]
    ensures r.(playerNames := p.playerNames) == p
  {
    if name in p.playerNames then p else p.(playerNames := p.playerNames + [name])
  }

  /** The history never holds the same name twice. */
  lemma AddPlayerNameKeepsNoDuplicates(p: Player, name: string)
    requires NoDuplicates(p.playerNames)
    ensures NoDuplicates(AddPlayerNameIfNew(p, name).playerNames)
  {
    var r := AddPlayerNameIfNew(p, name);
    if name !in p.playerNames {
      forall i, j | 0 <= i < j < |r.playerNames| ensures r.playerNames[i] != r.playerNames[j] {
        if j == |p.playerNames| {
          assert r.playerNames[i] == p.playerNames[i];
        }
      }
    }
  }

  /** Adding the same name twice is the same as adding it once. */
  lemma AddPlayerNameIdempotent(p: Player, name: string)
    ensures AddPlayerNameIfNew(AddPlayerNameIfNew(p, name), name) == AddPlayerNameIfNew(p, name)
  {
  }

  // ---------------------------------------------------------------------
  // updateNewPlayerDetails

  /** The character stats a new player starts with for the character of
      its side: that side's rank and the battle's time, zero counters. */
  function SeedStats(b: Battle, playerNumber: int): (s: CharacterStats)
    ensures s.danRank == DanRank(b, playerNumber) && s.latestBattle == b.battleAt
    ensures s.wins == 0 && s.losses == 0 && s.winsIncrement == 0 && s.lossIncrement == 0
  {
    NewCharacterStats.(danRank := DanRank(b, playerNumber), latestBattle := b.battleAt)
  }

  /** The player after the identity fields of one side are copied onto it and
      that side's seeded stats are put under its character key (the state
      setLatestBattle() is called on). */
  function WithSideDetails(p: Player, b: Battle, playerNumber: int): Player
  {
    p.(playerId := UserId(b, playerNumber),
       name := Name(b, playerNumber),
       polarisId := PolarisId(b, playerNumber),
       tekkenPower := TekkenPower(b, playerNumber),
       characterStats := p.characterStats[CharacterKey(b, playerNumber) := SeedStats(b, playerNumber)])
  }

  /** updateNewPlayerDetails: copy one side's identity and power onto the
      player, seed the stats of that side's character (replacing any stats
      already under that key), set the latest battle, record the name. */
  function UpdateNewPlayerDetails(p: Player, b: Battle, playerNumber: int, hooks: Hooks): (r: Player)
    ensures r.playerId == UserId(b, playerNumber) && r.name == Name(b, playerNumber)
    ensures r.polarisId == PolarisId(b, playerNumber) && r.tekkenPower == TekkenPower(b, playerNumber)
    ensures r.characterStats == p.characterStats[CharacterKey(b, playerNumber) := SeedStats(b, playerNumber)]
    ensures r.latestBattle == hooks.latestBattleOf(WithSideDetails(p, b, playerNumber))
    ensures Name(b, playerNumber) in r.playerNames
    ensures r.playerNames == if Name(b, playerNumber) in p.playerNames then p.playerNames
                             else p.playerNames + [Name(b, playerNumber)]
  {
    var q := WithSideDetails(p, b, playerNumber);
    var q' := q.(latestBattle := hooks.latestBattleOf(q));
    AddPlayerNameIfNew(q', q'.name)
  }

  // ---------------------------------------------------------------------
  // updatePlayerWithBattle

  /** The stats object the update works on: the one under the side's
      character key, or a fresh one carrying the side's rank. */
  function StatsBefore(p: Player, b: Battle, playerNumber: int): CharacterStats
  {
    var k := CharacterKey(b, playerNumber);
    if k in p.characterStats then p.characterStats[k] else NewCharacterStats.(danRank := DanRank(b, playerNumber))
  }

  /** The power handed to updateTekkenPower: player 1's power when the
      character id of THIS side is "1", player 2's otherwise, whichever side
      is being updated. */
  function PowerSource(b: Battle, playerNumber: int): int
  {
    if CharacterKey(b, playerNumber) == "1" then b.player1TekkenPower else b.player2TekkenPower
  }

  /** The power source depends on the character id, not on the side: side 2
      playing character 1 gets player 1's power, and side 1 playing any other
      character gets player 2's. */
  lemma PowerSourceFollowsCharacterId(b: Battle, playerNumber: int)
    ensures PowerSource(b, playerNumber) ==
      if (if playerNumber == 1 then b.player1CharacterId else b.player2CharacterId) == 1
      then b.player1TekkenPower else b.player2TekkenPower
  {
    DecimalStringIsOne(if playerNumber == 1 then b.player1CharacterId else b.player2CharacterId);
  }

  function WithStats(p: Player, k: string, s: CharacterStats): Player
  {
    p.(characterStats := p.characterStats[k := s])
  }

  /** The stats with the battle's outcome counted: side `playerNumber` won
      exactly when the winner field equals it. */
  function Counted(s: CharacterStats, b: Battle, playerNumber: int): CharacterStats
  {
    if b.winner == playerNumber
    then s.(winsIncrement := s.winsIncrement + 1, wins := s.wins + 1)
    else s.(lossIncrement := s.lossIncrement + 1, losses := s.losses + 1)
  }

  /** updatePlayerWithBattle: count the result on the side's character
      stats (creating them if missing), and only when the battle is newer
      than the stats' latest battle move latestBattle, the player's latest
      battle, its power and the rank forward. */
  function UpdatePlayerWithBattle(p: Player, b: Battle, playerNumber: int, hooks: Hooks): (r: Player)
    ensures var k := CharacterKey(b, playerNumber);
      && r.characterStats.Keys == p.characterStats.Keys + {k}
      && (forall c :: c in p.characterStats && c != k ==> r.characterStats[c] == p.characterStats[c])
    ensures var s, t := StatsBefore(p, b, playerNumber), r.characterStats[CharacterKey(b, playerNumber)];
      if b.winner == playerNumber
      then t.wins == s.wins + 1 && t.winsIncrement == s.winsIncrement + 1
           && t.losses == s.losses && t.lossIncrement == s.lossIncrement
      else t.losses == s.losses + 1 && t.lossIncrement == s.lossIncrement + 1
           && t.wins == s.wins && t.winsIncrement == s.winsIncrement
    ensures var s, t := StatsBefore(p, b, playerNumber), r.characterStats[CharacterKey(b, playerNumber)];
      b.battleAt <= s.latestBattle ==>
        && t.latestBattle == s.latestBattle && t.danRank == s.danRank
        && r.tekkenPower == p.tekkenPower && r.latestBattle == p.latestBattle
    ensures var s, t := StatsBefore(p, b, playerNumber), r.characterStats[CharacterKey(b, playerNumber)];
      b.battleAt > s.latestBattle ==>
        && t.latestBattle == b.battleAt && t.danRank == DanRank(b, playerNumber)
        && var q := WithStats(p, CharacterKey(b, playerNumber), t.(danRank := s.danRank));
           && r.latestBattle == hooks.latestBattleOf(q)
           && r.tekkenPower == hooks.updateTekkenPower(q.(latestBattle := r.latestBattle), PowerSource(b, playerNumber), b.battleAt)
    ensures r.playerId == p.playerId && r.name == p.name && r.polarisId == p.polarisId
    ensures r.playerNames == p.playerNames
  {
    var k := CharacterKey(b, playerNumber);
    var counted := Counted(StatsBefore(p, b, playerNumber), b, playerNumber);
    if b.battleAt > counted.latestBattle then
      var moved := counted.(latestBattle := b.battleAt);
      var q := WithStats(p, k, moved);
      var q' := q.(latestBattle := hooks.latestBattleOf(q));
      var q'' := q'.(tekkenPower := hooks.updateTekkenPower(q', PowerSource(b, playerNumber), b.battleAt));
      WithStats(q'', k, moved.(danRank := DanRank(b, playerNumber)))
    else
      WithStats(p, k, counted)
  }

  /** Each update adds exactly one battle to the side's character: wins plus
      losses grow by one, and so do the pending increments. */
  lemma UpdateCountsOneBattle(p: Player, b: Battle, playerNumber: int, hooks: Hooks)
    ensures var s, t := StatsBefore(p, b, playerNumber),
                        UpdatePlayerWithBattle(p, b, playerNumber, hooks).characterStats[CharacterKey(b, playerNumber)];
      && t.wins + t.losses == s.wins + s.losses + 1
      && t.winsIncrement + t.lossIncrement == s.winsIncrement + s.lossIncrement + 1
  {
  }

  /** The player a new battle yields for one side: a fresh Player given that
      side's details, then updated with the battle. */
  function SeededPlayer(b: Battle, playerNumber: int, hooks: Hooks): Player
  {
    UpdatePlayerWithBattle(UpdateNewPlayerDetails(NewPlayer, b, playerNumber, hooks), b, playerNumber, hooks)
  }

  /** For a fresh player the recency gate never fires (its seeded stats
      already carry the battle's time): it keeps its own side's power, has a
      single character entry with one win or one loss (and the same pending
      increment), the side's rank, and a one-name history. */
  lemma SeededPlayerShape(b: Battle, playerNumber: int, hooks: Hooks)
    ensures var r, k := SeededPlayer(b, playerNumber, hooks), CharacterKey(b, playerNumber);
      && r.playerId == UserId(b, playerNumber)
      && r.tekkenPower == TekkenPower(b, playerNumber)
      && r.playerNames == [Name(b, playerNumber)]
      && r.characterStats.Keys == {k}
      && r.characterStats[k] == CharacterStats(
           DanRank(b, playerNumber), b.battleAt,
           if b.winner == playerNumber then 1 else 0, if b.winner == playerNumber then 0 else 1,
           if b.winner == playerNumber then 1 else 0, if b.winner == playerNumber then 0 else 1)
  {
    var d := UpdateNewPlayerDetails(NewPlayer, b, playerNumber, hooks);
    assert StatsBefore(d, b, playerNumber) == SeedStats(b, playerNumber);
  }

  // ---------------------------------------------------------------------
  // The players table:
  // INSERT ... ON CONFLICT (user_id) DO UPDATE SET tekken_power, latest_battle

  datatype PlayerRow = PlayerRow(name: string, polarisId: string, tekkenPower: int, latestBattle: int)

  type PlayerTable = map<string, PlayerRow>

  /** One upsert: a new user id is inserted with all columns; a stored one
      gets only its power and latest battle overwritten. */
  function UpsertPlayer(table: PlayerTable, p: Player): (r: PlayerTable)
    ensures r.Keys == table.Keys + {p.playerId}
    ensures forall id :: id in table && id != p.playerId ==> r[id] == table[id]
    ensures p.playerId !in table ==> r[p.playerId] == PlayerRow(p.name, p.polarisId, p.tekkenPower, p.latestBattle)
    ensures p.playerId in table ==>
      r[p.playerId] == table[p.playerId].(tekkenPower := p.tekkenPower, latestBattle := p.latestBattle)
  {
    if p.playerId in table
    then table[p.playerId := table[p.playerId].(tekkenPower := p.tekkenPower, latestBattle := p.latestBattle)]
    else table[p.playerId := PlayerRow(p.name, p.polarisId, p.tekkenPower, p.latestBattle)]
  }

  /** The ids of a list of players. */
  function PlayerIdsOf(players: seq<Player>): (ids: set<string>)
    ensures forall i :: 0 <= i < |players| ==> players[i].playerId in ids
  {
    set i | 0 <= i < |players| :: players[i].playerId
  }

  function UpsertPlayers(table: PlayerTable, players: seq<Player>): (r: PlayerTable)
    ensures r.Keys == table.Keys + PlayerIdsOf(players)
    decreases |players|
  {
    if players == [] then table
    else
      PlayerIdsOfSnoc(players);
      UpsertPlayer(UpsertPlayers(table, players[..|players| - 1]), players[|players| - 1])
  }

  lemma PlayerIdsOfSnoc(players: seq<Player>)
    requires players != []
    ensures PlayerIdsOf(players) == PlayerIdsOf(players[..|players| - 1]) + {players[|players| - 1].playerId}
  {
    var init := players[..|players| - 1];
    forall id | id in PlayerIdsOf(players) ensures id in PlayerIdsOf(init) + {players[|players| - 1].playerId} {
      var i :| 0 <= i < |players| && players[i].playerId == id;
      if i < |init| {
        assert init[i] == players[i];
      }
    }
  }

  /** The batch never rewrites the name or polaris id of a stored player. */
  lemma {:induction false} UpsertPlayersKeepsStoredIdentity(table: PlayerTable, players: seq<Player>, id: string)
    requires id in table
    ensures id in UpsertPlayers(table, players)
    ensures UpsertPlayers(table, players)[id].name == table[id].name
    ensures UpsertPlayers(table, players)[id].polarisId == table[id].polarisId
    decreases |players|
  {
    if players != [] {
      UpsertPlayersKeepsStoredIdentity(table, players[..|players| - 1], id);
    }
  }

  /** Power and latest battle of a player in the batch are those of the LAST
      player object in iteration order with that id. */
  lemma {:induction false} UpsertPlayersLastWins(table: PlayerTable, players: seq<Player>, i: nat)
    requires i < |players|
    requires forall j :: i < j < |players| ==> players[j].playerId != players[i].playerId
    ensures players[i].playerId in UpsertPlayers(table, players)
    ensures UpsertPlayers(table, players)[players[i].playerId].tekkenPower == players[i].tekkenPower
    ensures UpsertPlayers(table, players)[players[i].playerId].latestBattle == players[i].latestBattle
    decreases |players|
  {
    if i < |players| - 1 {
      var init := players[..|players| - 1];
      assert init[i] == players[i];
      UpsertPlayersLastWins(table, init, i);
    }
  }

  /** A stored player whose id is not in the batch keeps its whole row. */
  lemma {:induction false} UpsertPlayersKeepsOthers(table: PlayerTable, players: seq<Player>, id: string)
    requires id in table && id !in PlayerIdsOf(players)
    ensures id in UpsertPlayers(table, players)
    ensures UpsertPlayers(table, players)[id] == table[id]
    decreases |players|
  {
    if players != [] {
      PlayerIdsOfSnoc(players);
      UpsertPlayersKeepsOthers(table, players[..|players| - 1], id);
    }
  }

  /** A new id is inserted with the name and polaris id of the FIRST player
      object in iteration order with that id; later ones only overwrite the
      power and latest battle. */
  lemma {:induction false} UpsertPlayersFirstInsertsIdentity(table: PlayerTable, players: seq<Player>, i: nat)
    requires i < |players| && players[i].playerId !in table
    requires forall j :: 0 <= j < i ==> players[j].playerId != players[i].playerId
    ensures players[i].playerId in UpsertPlayers(table, players)
    ensures UpsertPlayers(table, players)[players[i].playerId].name == players[i].name
    ensures UpsertPlayers(table, players)[players[i].playerId].polarisId == players[i].polarisId
    decreases |players|
  {
    var init, last := players[..|players| - 1], players[|players| - 1];
    if i < |players| - 1 {
      assert init[i] == players[i];
      assert forall j :: 0 <= j < i ==> init[j] == players[j];
      UpsertPlayersFirstInsertsIdentity(table, init, i);
      UpsertPlayerKeepsIdentity(UpsertPlayers(table, init), last, players[i].playerId);
    } else {
      NotAmongEarlier(players, i);
    }
  }

  lemma UpsertPlayerKeepsIdentity(table: PlayerTable, p: Player, id: string)
    requires id in table
    ensures id in UpsertPlayer(table, p)
    ensures UpsertPlayer(table, p)[id].name == table[id].name
    ensures UpsertPlayer(table, p)[id].polarisId == table[id].polarisId
  {
  }

  lemma NotAmongEarlier(players: seq<Player>, i: nat)
    requires i == |players| - 1
    requires forall j :: 0 <= j < i ==> players[j].playerId != players[i].playerId
    ensures players[i].playerId !in PlayerIdsOf(players[..i])
  {
    var init := players[..i];
    forall j | 0 <= j < |init|
      ensures init[j].playerId != players[i].playerId
    {
      assert init[j] == players[j];
    }
  }

  /** executePlayerBulkOperations: one statement batch of upserts over the
      players in the set's iteration order. A failure of the batch is not
      caught here: it is reported to the caller and the table is unchanged. */
  method ExecutePlayerBulkOperations(table: PlayerTable, players: seq<Player>, outcome: WriteOutcome)
    returns (table': PlayerTable, ok: bool)
    ensures ok == (players == [] || outcome == WriteOk)
    ensures table' == if players != [] && outcome == WriteOk then UpsertPlayers(table, players) else table
  {
    if players == [] {
      return table, true;
    }
    var written := SendUpserts(table, players);
    ok := outcome == WriteOk;
    table' := if ok then written else table;
  }

  /** The batch's statements, one per player in iteration order, as the
      database executes them. */
  method SendUpserts(table: PlayerTable, players: seq<Player>) returns (written: PlayerTable)
    ensures written == UpsertPlayers(table, players)
  {
    written := table;
    var i := 0;
    while i < |players|
      invariant 0 <= i <= |players|
      invariant written == UpsertPlayers(table, players[..i])
    {
      assert UpsertPlayers(table, players[..i + 1]) == UpsertPlayer(written, players[i]) by {
        assert players[..i + 1][..i] == players[..i];
      }
      written := UpsertPlayer(written, players[i]);
      i := i + 1;
    }
    assert players[..i] == players;
  }
}

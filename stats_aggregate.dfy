/**
 * StatisticsService: from the character_stats rows of one game version, the
 * "standard" statistics (one main character per player) and the "overall"
 * statistics (every character of every player), bucketed by (game version,
 * character, dan rank, category), merged with the stored buckets and saved.
 */
module Aggregation {
  import opened Common

  // ---------------------------------------------------------------------
  // Rows and per-player data

  /** One row of the per-version statistics query: player_id, character_id,
      dan_rank, wins, losses. */
  datatype StatsRow = StatsRow(playerId: string, characterId: string, danRank: int, wins: int, losses: int)

  datatype PlayerCharacterData = PlayerCharacterData(characterId: string, danRank: int, wins: int, losses: int, totalPlays: int)

  function Plays(r: StatsRow): int
  {
    r.wins + r.losses
  }

  function DataOf(r: StatsRow): PlayerCharacterData
  {
    PlayerCharacterData(r.characterId, r.danRank, r.wins, r.losses, Plays(r))
  }

  function PlayerIdsOf(rows: seq<StatsRow>): set<string>
  {
    set r | r in rows :: r.playerId
  }

  lemma PlayerIdsOfSnoc(rows: seq<StatsRow>)
    requires rows != []
    ensures PlayerIdsOf(rows) == PlayerIdsOf(rows[..|rows| - 1]) + {rows[|rows| - 1].playerId}
  {
    var init := rows[..|rows| - 1];
    assert rows == init + [rows[|rows| - 1]];
    forall p | p in PlayerIdsOf(rows)
      ensures p in PlayerIdsOf(init) + {rows[|rows| - 1].playerId}
    {
      var r :| r in rows && r.playerId == p;
      if r != rows[|rows| - 1] {
        assert r in init;
      }
    }
    forall p | p in PlayerIdsOf(init)
      ensures p in PlayerIdsOf(rows)
    {
      var r :| r in init && r.playerId == p;
      assert r in rows;
    }
  }

  // ---------------------------------------------------------------------
  // identifyPlayerMainCharacters

  /** One row of the scan: it replaces the player's current main only when
      it has strictly more plays, so on a tie the earlier row stays. */
  function MainStep(mains: map<string, PlayerCharacterData>, r: StatsRow): map<string, PlayerCharacterData>
  {
    if r.playerId !in mains || Plays(r) > mains[r.playerId].totalPlays
    then mains[r.playerId := DataOf(r)]
    else mains
  }

  function MainCharacters(rows: seq<StatsRow>): map<string, PlayerCharacterData>
    decreases |rows|
  {
    if rows == [] then map[] else MainStep(MainCharacters(rows[..|rows| - 1]), rows[|rows| - 1])
  }

  /** Every player of the rows has a main character, and no one else. */
  lemma {:induction false} MainCharactersKeys(rows: seq<StatsRow>)
    ensures MainCharacters(rows).Keys == PlayerIdsOf(rows)
    decreases |rows|
  {
    if rows != [] {
      MainCharactersKeys(rows[..|rows| - 1]);
      PlayerIdsOfSnoc(rows);
    }
  }

  /** A player's main character is the data of the FIRST of its rows with the
      most plays (wins + losses). */
  lemma MainCharacterIsFirstMaximum(rows: seq<StatsRow>, pid: string) returns (j: nat)
    requires pid in PlayerIdsOf(rows)
    ensures j < |rows| && rows[j].playerId == pid
    ensures pid in MainCharacters(rows) && MainCharacters(rows)[pid] == DataOf(rows[j])
    ensures forall k :: 0 <= k < |rows| && rows[k].playerId == pid ==> Plays(rows[k]) <= Plays(rows[j])
    ensures forall k :: 0 <= k < j && rows[k].playerId == pid ==> Plays(rows[k]) < Plays(rows[j])
  {
    assert rows[..|rows|] == rows;
    j := FirstMaximumOfPrefix(rows, |rows|, pid);
  }

  /** The same, for the scan of the first n rows. */
  lemma {:induction false} FirstMaximumOfPrefix(rows: seq<StatsRow>, n: nat, pid: string) returns (j: nat)
    requires n <= |rows|
    requires pid in PlayerIdsOf(rows[..n])
    ensures j < n && rows[j].playerId == pid
    ensures pid in MainCharacters(rows[..n]) && MainCharacters(rows[..n])[pid] == DataOf(rows[j])
    ensures forall k :: 0 <= k < n && rows[k].playerId == pid ==> Plays(rows[k]) <= Plays(rows[j])
    ensures forall k :: 0 <= k < j && rows[k].playerId == pid ==> Plays(rows[k]) < Plays(rows[j])
    decreases n
  {
    var before := rows[..n - 1];
    var m, r := MainCharacters(before), rows[n - 1];
    assert rows[..n][..n - 1] == before;
    assert MainCharacters(rows[..n]) == MainStep(m, r);
    MainCharactersKeys(before);
    PlayerIdsOfSnoc(rows[..n]);
    if r.playerId == pid && (pid !in m || Plays(r) > m[pid].totalPlays) {
      j := n - 1;
      if pid in m {
        var j0 := FirstMaximumOfPrefix(rows, n - 1, pid);
        assert Plays(rows[j0]) < Plays(r);
      } else {
        forall k | 0 <= k < j
          ensures rows[k].playerId != pid
        {
          assert before[k] == rows[k] && before[k] in before;
        }
      }
      LastRowIsNewMaximum(rows, n, pid);
    } else {
      j := FirstMaximumOfPrefix(rows, n - 1, pid);
      assert MainCharacters(rows[..n])[pid] == m[pid];
      KeptMaximum(rows, n, pid, j);
    }
  }

  /** Row n-1 has strictly more plays than every earlier row of the player. */
  lemma LastRowIsNewMaximum(rows: seq<StatsRow>, n: nat, pid: string)
    requires 0 < n <= |rows|
    requires forall k :: 0 <= k < n - 1 && rows[k].playerId == pid ==> Plays(rows[k]) < Plays(rows[n - 1])
    ensures forall k :: 0 <= k < n && rows[k].playerId == pid ==> Plays(rows[k]) <= Plays(rows[n - 1])
  {
  }

  /** Row n-1 does not beat row j, which was the maximum of the first n-1. */
  lemma KeptMaximum(rows: seq<StatsRow>, n: nat, pid: string, j: nat)
    requires 0 < n <= |rows| && j < n - 1
    requires forall k :: 0 <= k < n - 1 && rows[k].playerId == pid ==> Plays(rows[k]) <= Plays(rows[j])
    requires rows[n - 1].playerId == pid ==> Plays(rows[n - 1]) <= Plays(rows[j])
    ensures forall k :: 0 <= k < n && rows[k].playerId == pid ==> Plays(rows[k]) <= Plays(rows[j])
  {
  }

  /** The loop over the rows. */
  method IdentifyPlayerMainCharacters(rows: seq<StatsRow>) returns (mains: map<string, PlayerCharacterData>)
    ensures mains == MainCharacters(rows)
  {
    mains := map[];
    var i := 0;
    while i < |rows|
      invariant 0 <= i <= |rows|
      invariant mains == MainCharacters(rows[..i])
    {
      var r := rows[i];
      var current := if r.playerId in mains then Some(mains[r.playerId]) else None;
      if current.None? || Plays(r) > current.value.totalPlays {
        mains := mains[r.playerId := DataOf(r)];
      }
      assert rows[..i + 1][..i] == rows[..i];
      i := i + 1;
    }
    assert rows[..i] == rows;
  }

  // ---------------------------------------------------------------------
  // getAllPlayerCharacters

  function GroupStep(groups: map<string, seq<PlayerCharacterData>>, r: StatsRow): map<string, seq<PlayerCharacterData>>
  {
    groups[r.playerId := (if r.playerId in groups then groups[r.playerId] else []) + [DataOf(r)]]
  }

  function Groups(rows: seq<StatsRow>): map<string, seq<PlayerCharacterData>>
    decreases |rows|
  {
    if rows == [] then map[] else GroupStep(Groups(rows[..|rows| - 1]), rows[|rows| - 1])
  }

  /** The data of a player's rows, in row order. */
  function RowsOf(rows: seq<StatsRow>, pid: string): seq<PlayerCharacterData>
    decreases |rows|
  {
    if rows == [] then []
    else RowsOf(rows[..|rows| - 1], pid) + (if rows[|rows| - 1].playerId == pid then [DataOf(rows[|rows| - 1])] else [])
  }

  /** Each player is mapped to the data of all of its rows, in row order. */
  lemma {:induction false} GroupsArePerPlayerRows(rows: seq<StatsRow>)
    ensures Groups(rows).Keys == PlayerIdsOf(rows)
    ensures forall pid :: pid in Groups(rows) ==> Groups(rows)[pid] == RowsOf(rows, pid)
    decreases |rows|
  {
    if rows != [] {
      var init := rows[..|rows| - 1];
      GroupsArePerPlayerRows(init);
      PlayerIdsOfSnoc(rows);
      forall pid | pid in Groups(rows)
        ensures Groups(rows)[pid] == RowsOf(rows, pid)
      {
        if pid !in Groups(init) {
          EmptyRowsOf(init, pid);
        }
      }
    }
  }

  lemma {:induction false} EmptyRowsOf(rows: seq<StatsRow>, pid: string)
    requires pid !in PlayerIdsOf(rows)
    ensures RowsOf(rows, pid) == []
    decreases |rows|
  {
    if rows != [] {
      PlayerIdsOfSnoc(rows);
      EmptyRowsOf(rows[..|rows| - 1], pid);
    }
  }

  /** Summed length of the lists of the players in `order`. */
  function GroupLengths(groups: map<string, seq<PlayerCharacterData>>, order: seq<string>): nat
    requires forall i :: 0 <= i < |order| ==> order[i] in groups
    decreases |order|
  {
    if order == [] then 0 else GroupLengths(groups, order[..|order| - 1]) + |groups[order[|order| - 1]]|
  }

  /** Summed number of rows of the players in `order`. */
  function RowCount(rows: seq<StatsRow>, order: seq<string>): nat
    decreases |order|
  {
    if order == [] then 0 else RowCount(rows, order[..|order| - 1]) + |RowsOf(rows, order[|order| - 1])|
  }

  function Occurrences(order: seq<string>, x: string): nat
    decreases |order|
  {
    if order == [] then 0 else Occurrences(order[..|order| - 1], x) + (if order[|order| - 1] == x then 1 else 0)
  }

  lemma {:induction false} OccursOnce(order: seq<string>, x: string)
    requires forall i, j :: 0 <= i < j < |order| ==> order[i] != order[j]
    ensures x in order ==> Occurrences(order, x) == 1
    ensures x !in order ==> Occurrences(order, x) == 0
    decreases |order|
  {
    if order != [] {
      var init := order[..|order| - 1];
      assert order == init + [order[|order| - 1]];
      OccursOnce(init, x);
      if order[|order| - 1] == x {
        assert x !in init by {
          forall k | 0 <= k < |init| ensures init[k] != x {
            assert init[k] == order[k];
          }
        }
      }
    }
  }

  lemma {:induction false} RowCountSnoc(rows: seq<StatsRow>, r: StatsRow, order: seq<string>)
    ensures RowCount(rows + [r], order) == RowCount(rows, order) + Occurrences(order, r.playerId)
    decreases |order|
  {
    assert (rows + [r])[..|rows|] == rows;
    if order != [] {
      RowCountSnoc(rows, r, order[..|order| - 1]);
    }
  }

  lemma {:induction false} RowCountCoversRows(rows: seq<StatsRow>, order: seq<string>)
    requires forall i, j :: 0 <= i < j < |order| ==> order[i] != order[j]
    requires forall p :: p in PlayerIdsOf(rows) ==> p in order
    ensures RowCount(rows, order) == |rows|
    decreases |rows|
  {
    if rows == [] {
      RowCountOfNoRows(order);
    } else {
      var init, r := rows[..|rows| - 1], rows[|rows| - 1];
      PlayerIdsOfSnoc(rows);
      RowCountCoversRows(init, order);
      assert init + [r] == rows;
      RowCountSnoc(init, r, order);
      OccursOnce(order, r.playerId);
    }
  }

  lemma {:induction false} RowCountOfNoRows(order: seq<string>)
    ensures RowCount([], order) == 0
    decreases |order|
  {
    if order != [] {
      RowCountOfNoRows(order[..|order| - 1]);
    }
  }

  lemma {:induction false} GroupLengthsAreRowCounts(rows: seq<StatsRow>, order: seq<string>)
    requires forall i :: 0 <= i < |order| ==> order[i] in Groups(rows)
    ensures GroupLengths(Groups(rows), order) == RowCount(rows, order)
    decreases |order|
  {
    if order != [] {
      GroupsArePerPlayerRows(rows);
      GroupLengthsAreRowCounts(rows, order[..|order| - 1]);
    }
  }

  /** Every row lands in exactly one list: the list lengths, over all players
      of the map, sum to the number of rows. */
  lemma GroupsCoverRows(rows: seq<StatsRow>, order: seq<string>)
    requires Enumerates(order, Groups(rows).Keys)
    ensures GroupLengths(Groups(rows), order) == |rows|
  {
    GroupsArePerPlayerRows(rows);
    GroupLengthsAreRowCounts(rows, order);
    RowCountCoversRows(rows, order);
  }

  /** The loop over the rows (computeIfAbsent, then add). */
  method GetAllPlayerCharacters(rows: seq<StatsRow>) returns (groups: map<string, seq<PlayerCharacterData>>)
    ensures groups == Groups(rows)
  {
    groups := map[];
    var i := 0;
    while i < |rows|
      invariant 0 <= i <= |rows|
      invariant groups == Groups(rows[..i])
    {
      var r := rows[i];
      if r.playerId !in groups {
        groups := groups[r.playerId := []];
      }
      groups := groups[r.playerId := groups[r.playerId] + [DataOf(r)]];
      assert rows[..i + 1][..i] == rows[..i];
      i := i + 1;
    }
    assert rows[..i] == rows;
  }

  // ---------------------------------------------------------------------
  // Buckets

  datatype AggKey = AggKey(gameVersion: int, characterId: string, danRank: int, category: string)

  /** The counters of an aggregated statistic (its id is the map key; the
      computation time is not modelled). A new statistic starts at zero. */
  datatype AggStat = AggStat(totalWins: int, totalLosses: int, totalPlayers: int, totalReplays: int)

  const ZeroStat := AggStat(0, 0, 0, 0)

  const Standard := "standard"
  const Overall := "overall"

  /** One visit of the aggregation loops: a player's data for one bucket. */
  datatype Contribution = Contribution(playerId: string, key: AggKey, wins: int, losses: int, plays: int)

  function ContributionOf(pid: string, d: PlayerCharacterData, gameVersion: int, category: string): Contribution
  {
    Contribution(pid, AggKey(gameVersion, d.characterId, d.danRank, category), d.wins, d.losses, d.totalPlays)
  }

  /** The visits of aggregateStatistics: one per player, in the map's order. */
  function MainContributions(mains: map<string, PlayerCharacterData>, order: seq<string>, gameVersion: int, category: string)
    : (cs: seq<Contribution>)
    requires forall i :: 0 <= i < |order| ==> order[i] in mains
    ensures |cs| == |order|
    ensures forall i :: 0 <= i < |order| ==> cs[i] == ContributionOf(order[i], mains[order[i]], gameVersion, category)
    decreases |order|
  {
    if order == [] then []
    else
      var last := order[|order| - 1];
      MainContributions(mains, order[..|order| - 1], gameVersion, category) + [ContributionOf(last, mains[last], gameVersion, category)]
  }

  /** The visits for one player's characters, in list order. */
  function PlayerContributions(pid: string, ds: seq<PlayerCharacterData>, gameVersion: int): seq<Contribution>
    decreases |ds|
  {
    if ds == [] then []
    else PlayerContributions(pid, ds[..|ds| - 1], gameVersion) + [ContributionOf(pid, ds[|ds| - 1], gameVersion, Overall)]
  }

  /** The visits of aggregateOverallStatistics: players in the map's order,
      each player's characters in list order. */
  function OverallContributions(groups: map<string, seq<PlayerCharacterData>>, order: seq<string>, gameVersion: int)
    : seq<Contribution>
    requires forall i :: 0 <= i < |order| ==> order[i] in groups
    decreases |order|
  {
    if order == [] then []
    else
      var last := order[|order| - 1];
      OverallContributions(groups, order[..|order| - 1], gameVersion) + PlayerContributions(last, groups[last], gameVersion)
  }

  // ---------------------------------------------------------------------
  // The aggregation loops, step by step

  /** The two maps of the first loop: the statistic per bucket, and the set of
      players seen per bucket. */
  datatype Tally = Tally(stats: map<AggKey, AggStat>, players: map<AggKey, set<string>>)

  /** One visit. The statistic is the stored one if the bucket was stored
      (reset to zero on its first visit in this run, accumulated after) and
      a NEW zero statistic otherwise, even when the bucket was already
      visited in this run. */
  function Step(t: Tally, stored: set<AggKey>, c: Contribution): Tally
  {
    var base := if c.key in stored && c.key in t.stats then t.stats[c.key] else ZeroStat;
    var stat := AggStat(base.totalWins + c.wins, base.totalLosses + c.losses, base.totalPlayers, base.totalReplays + c.plays);
    var seen := if c.key in t.players then t.players[c.key] else {};
    Tally(t.stats[c.key := stat], t.players[c.key := seen + {c.playerId}])
  }

  function Accumulate(cs: seq<Contribution>, stored: set<AggKey>): Tally
    decreases |cs|
  {
    if cs == [] then Tally(map[], map[]) else Step(Accumulate(cs[..|cs| - 1], stored), stored, cs[|cs| - 1])
  }

  /** The second loop: totalPlayers := number of distinct players seen. */
  function Finish(t: Tally): map<AggKey, AggStat>
    requires t.stats.Keys <= t.players.Keys
  {
    map k | k in t.stats :: t.stats[k].(totalPlayers := |t.players[k]|)
  }

  // ---------------------------------------------------------------------
  // What the aggregation computes, stated per bucket

  function Touched(cs: seq<Contribution>): set<AggKey>
  {
    set c | c in cs :: c.key
  }

  function Contributors(cs: seq<Contribution>, k: AggKey): set<string>
  {
    set c | c in cs && c.key == k :: c.playerId
  }

  function SumWins(cs: seq<Contribution>, k: AggKey): int
    decreases |cs|
  {
    if cs == [] then 0 else SumWins(cs[..|cs| - 1], k) + (if cs[|cs| - 1].key == k then cs[|cs| - 1].wins else 0)
  }

  function SumLosses(cs: seq<Contribution>, k: AggKey): int
    decreases |cs|
  {
    if cs == [] then 0 else SumLosses(cs[..|cs| - 1], k) + (if cs[|cs| - 1].key == k then cs[|cs| - 1].losses else 0)
  }

  function SumPlays(cs: seq<Contribution>, k: AggKey): int
    decreases |cs|
  {
    if cs == [] then 0 else SumPlays(cs[..|cs| - 1], k) + (if cs[|cs| - 1].key == k then cs[|cs| - 1].plays else 0)
  }

  /** The last visit of a bucket. */
  function LastFor(cs: seq<Contribution>, k: AggKey): (c: Contribution)
    requires k in Touched(cs)
    ensures c in cs && c.key == k
    decreases |cs|
  {
    if cs[|cs| - 1].key == k then cs[|cs| - 1]
    else
      assert k in Touched(cs[..|cs| - 1]) by {
        var c :| c in cs && c.key == k;
        assert c in cs[..|cs| - 1];
      }
      LastFor(cs[..|cs| - 1], k)
  }

  /** The statistic of a visited bucket: the sums over all its visits if it
      was stored, the last visit alone if it was not; totalPlayers is the
      number of distinct players either way. */
  function Expected(cs: seq<Contribution>, stored: set<AggKey>, k: AggKey): AggStat
    requires k in Touched(cs)
  {
    if k in stored
    then AggStat(SumWins(cs, k), SumLosses(cs, k), |Contributors(cs, k)|, SumPlays(cs, k))
    else
      var c := LastFor(cs, k);
      AggStat(c.wins, c.losses, |Contributors(cs, k)|, c.plays)
  }

  /** The whole result: exactly the visited buckets. */
  function Aggregate(cs: seq<Contribution>, stored: set<AggKey>): map<AggKey, AggStat>
  {
    map k | k in Touched(cs) :: Expected(cs, stored, k)
  }

  lemma TouchedSnoc(cs: seq<Contribution>)
    requires cs != []
    ensures Touched(cs) == Touched(cs[..|cs| - 1]) + {cs[|cs| - 1].key}
    ensures forall k :: (Contributors(cs, k)
      == Contributors(cs[..|cs| - 1], k) + (if cs[|cs| - 1].key == k then {cs[|cs| - 1].playerId} else {}))
  {
    var init := cs[..|cs| - 1];
    assert cs == init + [cs[|cs| - 1]];
    assert forall c :: c in cs <==> c in init || c == cs[|cs| - 1];
  }

  /** The loops step by step visit exactly the buckets of the visits. */
  lemma {:induction false} AccumulateKeys(cs: seq<Contribution>, stored: set<AggKey>)
    ensures Accumulate(cs, stored).stats.Keys == Touched(cs)
    ensures Accumulate(cs, stored).players.Keys == Touched(cs)
    decreases |cs|
  {
    if cs != [] {
      AccumulateKeys(cs[..|cs| - 1], stored);
      TouchedSnoc(cs);
    }
  }

  /** The loops step by step compute the per-bucket statement (before the
      second loop sets totalPlayers). */
  lemma {:induction false} AccumulateAt(cs: seq<Contribution>, stored: set<AggKey>, k: AggKey)
    requires k in Touched(cs)
    ensures k in Accumulate(cs, stored).stats && k in Accumulate(cs, stored).players
    ensures Accumulate(cs, stored).players[k] == Contributors(cs, k)
    ensures Accumulate(cs, stored).stats[k] == Expected(cs, stored, k).(totalPlayers := 0)
    decreases |cs|
  {
    var init := cs[..|cs| - 1];
    AccumulateKeys(init, stored);
    TouchedSnoc(cs);
    if k in Touched(init) {
      AccumulateAt(init, stored, k);
    }
    if cs[|cs| - 1].key == k {
      StepAtVisited(cs, Accumulate(init, stored), stored, k);
    } else {
      StepAtOther(cs, Accumulate(init, stored), stored, k);
    }
  }

  /** The last visit is to another bucket: bucket k is as before. */
  lemma StepAtOther(cs: seq<Contribution>, t: Tally, stored: set<AggKey>, k: AggKey)
    requires cs != [] && cs[|cs| - 1].key != k
    requires k in Touched(cs[..|cs| - 1]) && k in t.stats && k in t.players
    requires t.players[k] == Contributors(cs[..|cs| - 1], k)
    requires t.stats[k] == Expected(cs[..|cs| - 1], stored, k).(totalPlayers := 0)
    ensures k in Touched(cs)
    ensures Step(t, stored, cs[|cs| - 1]).players[k] == Contributors(cs, k)
    ensures Step(t, stored, cs[|cs| - 1]).stats[k] == Expected(cs, stored, k).(totalPlayers := 0)
  {
    var init := cs[..|cs| - 1];
    TouchedSnoc(cs);
    assert SumWins(cs, k) == SumWins(init, k);
    assert SumLosses(cs, k) == SumLosses(init, k);
    assert SumPlays(cs, k) == SumPlays(init, k);
    assert LastFor(cs, k) == LastFor(init, k);
  }

  /** The last visit is to bucket k: it is reset to zero or kept (if stored
      and already visited), then the visit is added. */
  lemma StepAtVisited(cs: seq<Contribution>, t: Tally, stored: set<AggKey>, k: AggKey)
    requires cs != [] && cs[|cs| - 1].key == k
    requires t.stats.Keys == Touched(cs[..|cs| - 1]) && t.players.Keys == Touched(cs[..|cs| - 1])
    requires k in t.stats ==> t.players[k] == Contributors(cs[..|cs| - 1], k)
    requires k in t.stats ==> t.stats[k] == Expected(cs[..|cs| - 1], stored, k).(totalPlayers := 0)
    ensures k in Touched(cs)
    ensures Step(t, stored, cs[|cs| - 1]).players[k] == Contributors(cs, k)
    ensures Step(t, stored, cs[|cs| - 1]).stats[k] == Expected(cs, stored, k).(totalPlayers := 0)
  {
    var init, c := cs[..|cs| - 1], cs[|cs| - 1];
    TouchedSnoc(cs);
    if k !in t.stats {
      SumsOfUntouched(init, k);
      assert Contributors(init, k) == {};
    }
    if k !in stored {
      assert LastFor(cs, k) == c;
    }
  }

  lemma {:induction false} SumsOfUntouched(cs: seq<Contribution>, k: AggKey)
    requires k !in Touched(cs)
    ensures SumWins(cs, k) == 0 && SumLosses(cs, k) == 0 && SumPlays(cs, k) == 0
    decreases |cs|
  {
    if cs != [] {
      TouchedSnoc(cs);
      SumsOfUntouched(cs[..|cs| - 1], k);
    }
  }

  lemma AccumulateThenFinish(cs: seq<Contribution>, stored: set<AggKey>)
    ensures Accumulate(cs, stored).stats.Keys <= Accumulate(cs, stored).players.Keys
    ensures Finish(Accumulate(cs, stored)) == Aggregate(cs, stored)
  {
    AccumulateKeys(cs, stored);
    forall k | k in Touched(cs)
      ensures Finish(Accumulate(cs, stored))[k] == Aggregate(cs, stored)[k]
    {
      AccumulateAt(cs, stored, k);
    }
  }

  /** Replays are wins plus losses in every bucket, when every visit's plays
      are its wins plus losses. */
  lemma ReplaysAreWinsPlusLosses(cs: seq<Contribution>, stored: set<AggKey>, k: AggKey)
    requires forall i :: 0 <= i < |cs| ==> cs[i].plays == cs[i].wins + cs[i].losses
    requires k in Touched(cs)
    ensures Aggregate(cs, stored)[k].totalReplays == Aggregate(cs, stored)[k].totalWins + Aggregate(cs, stored)[k].totalLosses
  {
    SumPlaysIsWinsPlusLosses(cs, k);
  }

  /** The data built from a row has totalPlays = wins + losses. */
  predicate Consistent(d: PlayerCharacterData)
  {
    d.totalPlays == d.wins + d.losses
  }

  predicate ConsistentVisits(cs: seq<Contribution>)
  {
    forall i :: 0 <= i < |cs| ==> cs[i].plays == cs[i].wins + cs[i].losses
  }

  lemma {:induction false} MainCharactersConsistent(rows: seq<StatsRow>)
    ensures forall pid :: pid in MainCharacters(rows) ==> Consistent(MainCharacters(rows)[pid])
    decreases |rows|
  {
    if rows != [] {
      MainCharactersConsistent(rows[..|rows| - 1]);
    }
  }

  lemma {:induction false} GroupsConsistent(rows: seq<StatsRow>)
    ensures forall pid :: pid in Groups(rows) ==> forall i :: 0 <= i < |Groups(rows)[pid]| ==> Consistent(Groups(rows)[pid][i])
    decreases |rows|
  {
    if rows != [] {
      var g := Groups(rows[..|rows| - 1]);
      GroupsConsistent(rows[..|rows| - 1]);
      var r := rows[|rows| - 1];
      var before := if r.playerId in g then g[r.playerId] else [];
      var after := before + [DataOf(r)];
      assert forall i :: 0 <= i < |after| ==> Consistent(after[i]) by {
        forall i | 0 <= i < |after| ensures Consistent(after[i]) {
          if i < |before| {
            assert after[i] == before[i];
          }
        }
      }
    }
  }

  lemma ConsistentVisitsConcat(a: seq<Contribution>, b: seq<Contribution>)
    requires ConsistentVisits(a) && ConsistentVisits(b)
    ensures ConsistentVisits(a + b)
  {
    forall i | 0 <= i < |a + b| ensures (a + b)[i].plays == (a + b)[i].wins + (a + b)[i].losses {
      if i >= |a| {
        assert (a + b)[i] == b[i - |a|];
      }
    }
  }

  lemma {:induction false} PlayerContributionsConsistent(pid: string, ds: seq<PlayerCharacterData>, gameVersion: int)
    requires forall i :: 0 <= i < |ds| ==> Consistent(ds[i])
    ensures ConsistentVisits(PlayerContributions(pid, ds, gameVersion))
    decreases |ds|
  {
    if ds != [] {
      PlayerContributionsConsistent(pid, ds[..|ds| - 1], gameVersion);
      ConsistentVisitsConcat(PlayerContributions(pid, ds[..|ds| - 1], gameVersion),
                             [ContributionOf(pid, ds[|ds| - 1], gameVersion, Overall)]);
    }
  }

  lemma {:induction false} OverallContributionsConsistent(groups: map<string, seq<PlayerCharacterData>>, order: seq<string>, gameVersion: int)
    requires forall pid :: pid in groups ==> forall i :: 0 <= i < |groups[pid]| ==> Consistent(groups[pid][i])
    requires forall i :: 0 <= i < |order| ==> order[i] in groups
    ensures ConsistentVisits(OverallContributions(groups, order, gameVersion))
    decreases |order|
  {
    if order != [] {
      var last := order[|order| - 1];
      OverallContributionsConsistent(groups, order[..|order| - 1], gameVersion);
      PlayerContributionsConsistent(last, groups[last], gameVersion);
      ConsistentVisitsConcat(OverallContributions(groups, order[..|order| - 1], gameVersion),
                             PlayerContributions(last, groups[last], gameVersion));
    }
  }

  /** In every bucket aggregateStatistics builds from the main characters,
      totalReplays = totalWins + totalLosses. */
  lemma StandardReplaysAreWinsPlusLosses(rows: seq<StatsRow>, order: seq<string>, gameVersion: int, category: string,
                                         stored: set<AggKey>)
    requires Enumerates(order, MainCharacters(rows).Keys)
    ensures var agg := Aggregate(MainContributions(MainCharacters(rows), order, gameVersion, category), stored);
      forall k :: k in agg ==> agg[k].totalReplays == agg[k].totalWins + agg[k].totalLosses
  {
    var cs := MainContributions(MainCharacters(rows), order, gameVersion, category);
    MainCharactersConsistent(rows);
    assert ConsistentVisits(cs);
    forall k | k in Touched(cs)
      ensures Aggregate(cs, stored)[k].totalReplays == Aggregate(cs, stored)[k].totalWins + Aggregate(cs, stored)[k].totalLosses
    {
      ReplaysAreWinsPlusLosses(cs, stored, k);
    }
  }

  /** In every bucket aggregateOverallStatistics builds from all characters,
      totalReplays = totalWins + totalLosses. */
  lemma OverallReplaysAreWinsPlusLosses(rows: seq<StatsRow>, order: seq<string>, gameVersion: int, stored: set<AggKey>)
    requires Enumerates(order, Groups(rows).Keys)
    ensures var agg := Aggregate(OverallContributions(Groups(rows), order, gameVersion), stored);
      forall k :: k in agg ==> agg[k].totalReplays == agg[k].totalWins + agg[k].totalLosses
  {
    var cs := OverallContributions(Groups(rows), order, gameVersion);
    GroupsConsistent(rows);
    OverallContributionsConsistent(Groups(rows), order, gameVersion);
    forall k | k in Touched(cs)
      ensures Aggregate(cs, stored)[k].totalReplays == Aggregate(cs, stored)[k].totalWins + Aggregate(cs, stored)[k].totalLosses
    {
      ReplaysAreWinsPlusLosses(cs, stored, k);
    }
  }

  lemma {:induction false} SumPlaysIsWinsPlusLosses(cs: seq<Contribution>, k: AggKey)
    requires forall i :: 0 <= i < |cs| ==> cs[i].plays == cs[i].wins + cs[i].losses
    ensures SumPlays(cs, k) == SumWins(cs, k) + SumLosses(cs, k)
    decreases |cs|
  {
    if cs != [] {
      SumPlaysIsWinsPlusLosses(cs[..|cs| - 1], k);
    }
  }

  /** On a bucket that was not stored, every visit replaces the statistic by
      a new one: two players with the same main character and rank give
      totals of the second player only, while totalPlayers counts both. */
  lemma NewBucketKeepsLastVisitOnly(c1: Contribution, c2: Contribution, stored: set<AggKey>)
    requires c1.key == c2.key && c1.key !in stored && c1.playerId != c2.playerId
    ensures Aggregate([c1, c2], stored)[c1.key] == AggStat(c2.wins, c2.losses, 2, c2.plays)
  {
    var cs := [c1, c2];
    assert cs[..1] == [c1];
    assert Touched(cs) == {c1.key};
    assert Contributors(cs, c1.key) == {c1.playerId, c2.playerId};
  }

  /** On a stored bucket the visits are summed. */
  lemma StoredBucketSumsVisits(c1: Contribution, c2: Contribution, stored: set<AggKey>)
    requires c1.key == c2.key && c1.key in stored && c1.playerId != c2.playerId
    ensures Aggregate([c1, c2], stored)[c1.key]
         == AggStat(c1.wins + c2.wins, c1.losses + c2.losses, 2, c1.plays + c2.plays)
  {
    var cs := [c1, c2];
    assert cs[..1] == [c1];
    assert [c1][..0] == [];
    assert Touched(cs) == {c1.key};
    assert Contributors(cs, c1.key) == {c1.playerId, c2.playerId};
    assert SumWins(cs, c1.key) == SumWins([c1], c1.key) + c2.wins == c1.wins + c2.wins;
    assert SumLosses(cs, c1.key) == SumLosses([c1], c1.key) + c2.losses == c1.losses + c2.losses;
    assert SumPlays(cs, c1.key) == SumPlays([c1], c1.key) + c2.plays == c1.plays + c2.plays;
  }

  /** Hence two consecutive runs over the same rows disagree: the first
      creates the bucket with the last visit's totals, the second finds it
      stored and sums every visit. */
  lemma SecondRunDiffers(c1: Contribution, c2: Contribution)
    requires c1.key == c2.key && c1.playerId != c2.playerId && c1.wins != 0
    ensures Aggregate([c1, c2], {}) != Aggregate([c1, c2], Touched([c1, c2]))
  {
    assert c1 in [c1, c2];
    NewBucketKeepsLastVisitOnly(c1, c2, {});
    StoredBucketSumsVisits(c1, c2, Touched([c1, c2]));
  }

  /** In the standard category each player is counted in exactly one bucket:
      the one of its main character and rank. */
  lemma StandardCountsEachPlayerOnce(mains: map<string, PlayerCharacterData>, order: seq<string>, gameVersion: int, pid: string, k: AggKey)
    requires Enumerates(order, mains.Keys)
    requires pid in mains
    ensures var cs := MainContributions(mains, order, gameVersion, Standard);
      pid in Contributors(cs, k) <==> k == AggKey(gameVersion, mains[pid].characterId, mains[pid].danRank, Standard)
  {
    var cs := MainContributions(mains, order, gameVersion, Standard);
    var i :| 0 <= i < |order| && order[i] == pid;
    if k == AggKey(gameVersion, mains[pid].characterId, mains[pid].danRank, Standard) {
      assert cs[i] in cs;
    }
  }

  // ---------------------------------------------------------------------
  // The two aggregation methods

  /** The second loop, over the buckets in the map's (unspecified) order. */
  method SetTotalPlayers(t: Tally) returns (stats: map<AggKey, AggStat>)
    requires t.stats.Keys <= t.players.Keys
    ensures stats == Finish(t)
  {
    stats := t.stats;
    var remaining := t.stats.Keys;
    while remaining != {}
      invariant remaining <= t.stats.Keys && stats.Keys == t.stats.Keys
      invariant forall k :: k in stats ==>
        stats[k] == if k in remaining then t.stats[k] else t.stats[k].(totalPlayers := |t.players[k]|)
      decreases remaining
    {
      var k :| k in remaining;
      stats := stats[k := stats[k].(totalPlayers := |t.players[k]|)];
      remaining := remaining - {k};
    }
  }

  /** aggregateStatistics: one visit per player of the main-character map,
      in its iteration order `order`. */
  method AggregateStatistics(mains: map<string, PlayerCharacterData>, order: seq<string>, category: string,
                             gameVersion: int, existing: map<AggKey, AggStat>)
    returns (aggregated: map<AggKey, AggStat>)
    requires Enumerates(order, mains.Keys)
    ensures aggregated == Aggregate(MainContributions(mains, order, gameVersion, category), existing.Keys)
  {
    ghost var cs := MainContributions(mains, order, gameVersion, category);
    var t := Tally(map[], map[]);
    var i := 0;
    while i < |order|
      invariant 0 <= i <= |order|
      invariant t == Accumulate(cs[..i], existing.Keys)
    {
      var playerId := order[i];
      var data := mains[playerId];
      t := Step(t, existing.Keys, ContributionOf(playerId, data, gameVersion, category));
      assert cs[..i + 1][..i] == cs[..i];
      i := i + 1;
    }
    assert cs[..i] == cs;
    AccumulateThenFinish(cs, existing.Keys);
    aggregated := SetTotalPlayers(t);
  }

  lemma AccumulateSnoc(cs: seq<Contribution>, c: Contribution, stored: set<AggKey>)
    ensures Accumulate(cs + [c], stored) == Step(Accumulate(cs, stored), stored, c)
  {
    assert (cs + [c])[..|cs|] == cs;
  }

  lemma VisitStep(done: seq<Contribution>, playerId: string, characters: seq<PlayerCharacterData>, j: nat,
                  gameVersion: int, stored: set<AggKey>)
    requires j < |characters|
    ensures Accumulate(done + PlayerContributions(playerId, characters[..j + 1], gameVersion), stored)
         == Step(Accumulate(done + PlayerContributions(playerId, characters[..j], gameVersion), stored), stored,
                 ContributionOf(playerId, characters[j], gameVersion, Overall))
  {
    var c := ContributionOf(playerId, characters[j], gameVersion, Overall);
    var before := PlayerContributions(playerId, characters[..j], gameVersion);
    assert characters[..j + 1][..j] == characters[..j];
    assert PlayerContributions(playerId, characters[..j + 1], gameVersion) == before + [c];
    assert done + (before + [c]) == (done + before) + [c];
    AccumulateSnoc(done + before, c, stored);
  }

  /** The inner loop of aggregateOverallStatistics: one player's characters
      in list order, after the visits `done`. */
  method VisitCharacters(t: Tally, playerId: string, characters: seq<PlayerCharacterData>, gameVersion: int,
                         stored: set<AggKey>, ghost done: seq<Contribution>)
    returns (t': Tally)
    requires t == Accumulate(done, stored)
    ensures t' == Accumulate(done + PlayerContributions(playerId, characters, gameVersion), stored)
  {
    t' := t;
    var j := 0;
    assert done + PlayerContributions(playerId, characters[..0], gameVersion) == done;
    while j < |characters|
      invariant 0 <= j <= |characters|
      invariant t' == Accumulate(done + PlayerContributions(playerId, characters[..j], gameVersion), stored)
    {
      VisitStep(done, playerId, characters, j, gameVersion, stored);
      t' := Step(t', stored, ContributionOf(playerId, characters[j], gameVersion, Overall));
      j := j + 1;
    }
    assert characters[..j] == characters;
  }

  /** One more player of the iteration order adds that player's visits. */
  lemma OverallStep(groups: map<string, seq<PlayerCharacterData>>, order: seq<string>, i: nat, gameVersion: int)
    requires forall k :: 0 <= k < |order| ==> order[k] in groups
    requires i < |order|
    ensures OverallContributions(groups, order[..i + 1], gameVersion)
         == OverallContributions(groups, order[..i], gameVersion) + PlayerContributions(order[i], groups[order[i]], gameVersion)
  {
    assert order[..i + 1][..i] == order[..i];
  }

  /** aggregateOverallStatistics: players in the map's iteration order
      `order`, each player's characters in list order. */
  method AggregateOverallStatistics(groups: map<string, seq<PlayerCharacterData>>, order: seq<string>,
                                    gameVersion: int, existing: map<AggKey, AggStat>)
    returns (aggregated: map<AggKey, AggStat>)
    requires Enumerates(order, groups.Keys)
    ensures aggregated == Aggregate(OverallContributions(groups, order, gameVersion), existing.Keys)
  {
    assert forall k :: 0 <= k < |order| ==> order[k] in groups;
    var t := Tally(map[], map[]);
    var i := 0;
    while i < |order|
      invariant 0 <= i <= |order|
      invariant t == Accumulate(OverallContributions(groups, order[..i], gameVersion), existing.Keys)
    {
      var playerId := order[i];
      t := VisitCharacters(t, playerId, groups[playerId], gameVersion, existing.Keys,
                           OverallContributions(groups, order[..i], gameVersion));
      OverallStep(groups, order, i, gameVersion);
      i := i + 1;
    }
    assert order[..i] == order;
    AccumulateThenFinish(OverallContributions(groups, order, gameVersion), existing.Keys);
    aggregated := SetTotalPlayers(t);
  }
}

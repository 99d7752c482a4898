/**
 * ReplayService.executeCharacterStatsBulkOperations: one upsert row per
 * (player, character) entry carrying the pending increments, which are
 * zeroed as the rows are built; the rows sorted by (player_id,
 * character_id); sent in chunks of 1000; the whole sequence of chunks
 * retried from the first chunk on a deadlock, for at most four attempts.
 * Also the semantics of the character_stats upsert statement.
 */
module StatsFlush {
  import opened Common
  import opened Players

  // ---------------------------------------------------------------------
  // Upsert rows and their order

  /** The arguments of one upsert: player_id, character_id, dan_rank,
      latest_battle, and the pending increments as wins and losses. */
  datatype Row = Row(playerId: string, characterId: string, danRank: int, latestBattle: int, wins: int, losses: int)

  function RowFor(playerId: string, characterId: string, s: CharacterStats): Row
  {
    Row(playerId, characterId, s.danRank, s.latestBattle, s.winsIncrement, s.lossIncrement)
  }

  /** The rows a player contributes for a set of its character keys. */
  ghost function RowsOfKeys(p: Player, keys: set<string>): set<Row>
  {
    set k | k in keys && k in p.characterStats :: RowFor(p.playerId, k, p.characterStats[k])
  }

  /** One row per character entry of the player. */
  ghost function RowsOfPlayer(p: Player): set<Row>
  {
    RowsOfKeys(p, p.characterStats.Keys)
  }

  /** All rows of a sequence of players, as a multiset. */
  ghost function RowsOfAll(players: seq<Player>): multiset<Row>
    decreases |players|
  {
    if players == [] then multiset{}
    else RowsOfAll(players[..|players| - 1]) + multiset(RowsOfPlayer(players[|players| - 1]))
  }

  /** Number of character entries over a sequence of players. */
  function EntryCount(players: seq<Player>): nat
    decreases |players|
  {
    if players == [] then 0 else EntryCount(players[..|players| - 1]) + |players[|players| - 1].characterStats|
  }

  /** Distinct keys give distinct rows: a player contributes exactly as many
      rows as it has character entries. */
  lemma {:induction false} RowsOfKeysCount(p: Player, keys: set<string>)
    requires keys <= p.characterStats.Keys
    ensures |RowsOfKeys(p, keys)| == |keys|
    decreases |keys|
  {
    if keys != {} {
      var k :| k in keys;
      RowsOfKeysCount(p, keys - {k});
      var row := RowFor(p.playerId, k, p.characterStats[k]);
      assert RowsOfKeys(p, keys) == RowsOfKeys(p, keys - {k}) + {row};
      assert row !in RowsOfKeys(p, keys - {k});
    } else {
      assert RowsOfKeys(p, keys) == {};
    }
  }

  /** The flush builds exactly one row per (player, character) entry. */
  lemma {:induction false} RowsOfAllCount(players: seq<Player>)
    ensures |RowsOfAll(players)| == EntryCount(players)
    decreases |players|
  {
    if players != [] {
      var last := players[|players| - 1];
      RowsOfAllCount(players[..|players| - 1]);
      RowsOfKeysCount(last, last.characterStats.Keys);
    }
  }

  /** The stats with both pending increments reset. */
  function ZeroIncrements(p: Player): (r: Player)
    ensures r.characterStats.Keys == p.characterStats.Keys
    ensures forall k :: k in r.characterStats ==>
      r.characterStats[k] == p.characterStats[k].(winsIncrement := 0, lossIncrement := 0)
    ensures r.(characterStats := p.characterStats) == p
  {
    p.(characterStats := map k | k in p.characterStats :: p.characterStats[k].(winsIncrement := 0, lossIncrement := 0))
  }

  /** The comparator: player_id, then character_id, both String.compareTo. */
  predicate RowLe(x: Row, y: Row)
  {
    StrLt(x.playerId, y.playerId) || (x.playerId == y.playerId && StrLe(x.characterId, y.characterId))
  }

  predicate Sorted(rows: seq<Row>)
  {
    forall i, j :: 0 <= i < j < |rows| ==> RowLe(rows[i], rows[j])
  }

  lemma RowLeTotal(x: Row, y: Row)
    ensures RowLe(x, y) || RowLe(y, x)
  {
    StrLeTotal(x.playerId, y.playerId);
    StrLeTotal(x.characterId, y.characterId);
  }

  lemma RowLeTransitive(x: Row, y: Row, z: Row)
    requires RowLe(x, y) && RowLe(y, z)
    ensures RowLe(x, z)
  {
    if x.playerId == y.playerId && y.playerId == z.playerId {
      StrLeTransitive(x.characterId, y.characterId, z.characterId);
    } else {
      StrLeReflexive(x.playerId);
      StrLeReflexive(y.playerId);
      StrLeTransitive(x.playerId, y.playerId, z.playerId);
      if x.playerId == z.playerId {
        StrLeAntisymmetric(x.playerId, y.playerId);
      }
    }
  }

  // ---------------------------------------------------------------------
  // Building the rows

  lemma RowsOfKeysAdd(p: Player, keys: set<string>, k: string)
    requires k in p.characterStats && k !in keys
    ensures RowsOfKeys(p, keys + {k}) == RowsOfKeys(p, keys) + {RowFor(p.playerId, k, p.characterStats[k])}
    ensures RowFor(p.playerId, k, p.characterStats[k]) !in RowsOfKeys(p, keys)
  {
  }

  /** The inner row-building loop, for one player: for each character entry,
      in the map's (unspecified) iteration order, append its row to the
      batch and reset the entry's increments. */
  method AppendPlayerRows(p: Player, batch: seq<Row>) returns (rows: seq<Row>, zeroed: Player)
    ensures multiset(rows) == multiset(batch) + multiset(RowsOfPlayer(p))
    ensures forall k :: RowsWithKey(rows, k) == RowsWithKey(batch, k) + PlayerRowFor(p, k)
    ensures zeroed == ZeroIncrements(p)
  {
    rows := batch;
    var stats := p.characterStats;
    var remaining := stats.Keys;
    while remaining != {}
      invariant remaining <= p.characterStats.Keys
      invariant stats.Keys == p.characterStats.Keys
      invariant forall k :: k in stats ==>
        stats[k] == if k in remaining then p.characterStats[k]
                    else p.characterStats[k].(winsIncrement := 0, lossIncrement := 0)
      invariant multiset(rows) == multiset(batch) + multiset(RowsOfKeys(p, p.characterStats.Keys - remaining))
      invariant KeyedSoFar(p, batch, rows, remaining)
      decreases remaining
    {
      var k :| k in remaining;
      var s := stats[k];
      RowsOfKeysAdd(p, p.characterStats.Keys - remaining, k);
      AppendRowStep(p, batch, rows, remaining, k);
      assert p.characterStats.Keys - (remaining - {k}) == (p.characterStats.Keys - remaining) + {k};
      rows := rows + [RowFor(p.playerId, k, s)];
      stats := stats[k := s.(winsIncrement := 0, lossIncrement := 0)];
      remaining := remaining - {k};
    }
    assert p.characterStats.Keys - remaining == p.characterStats.Keys;
    zeroed := p.(characterStats := stats);
  }

  /** Whether the player has an entry for the character of key k. */
  predicate HasKey(p: Player, k: StatsKey)
  {
    p.playerId == k.0 && k.1 in p.characterStats
  }

  /** The row a player contributes for key k: one if it has that entry. */
  function PlayerRowFor(p: Player, k: StatsKey): seq<Row>
  {
    if HasKey(p, k) then [RowFor(p.playerId, k.1, p.characterStats[k.1])] else []
  }

  /** The rows the players contribute for key k, in player order. */
  function PlayerRowsFor(players: seq<Player>, k: StatsKey): seq<Row>
    decreases |players|
  {
    if players == [] then []
    else PlayerRowsFor(players[..|players| - 1], k) + PlayerRowFor(players[|players| - 1], k)
  }

  /** The last row for a key comes from the last player that has the key. */
  lemma {:induction false} PlayerRowsForLast(players: seq<Player>, k: StatsKey, i: nat)
    requires i < |players| && HasKey(players[i], k)
    requires forall j :: i < j < |players| ==> !HasKey(players[j], k)
    ensures PlayerRowsFor(players, k) != []
    ensures PlayerRowsFor(players, k)[|PlayerRowsFor(players, k)| - 1]
         == RowFor(players[i].playerId, k.1, players[i].characterStats[k.1])
    decreases |players|
  {
    if i < |players| - 1 {
      var init := players[..|players| - 1];
      assert init[i] == players[i];
      PlayerRowsForLast(init, k, i);
    }
  }

  /** While the entries in `remaining` are still to be visited: for every
      key, the rows so far are the batch's plus the player's row if its
      entry was visited. */
  ghost predicate KeyedSoFar(p: Player, batch: seq<Row>, rows: seq<Row>, remaining: set<string>)
  {
    forall key :: RowsWithKey(rows, key)
      == RowsWithKey(batch, key) + (if key.1 in remaining then [] else PlayerRowFor(p, key))
  }

  lemma AppendRowStep(p: Player, batch: seq<Row>, rows: seq<Row>, remaining: set<string>, c: string)
    requires c in remaining && c in p.characterStats
    requires KeyedSoFar(p, batch, rows, remaining)
    ensures KeyedSoFar(p, batch, rows + [RowFor(p.playerId, c, p.characterStats[c])], remaining - {c})
  {
    var r := RowFor(p.playerId, c, p.characterStats[c]);
    forall key
      ensures RowsWithKey(rows + [r], key)
           == RowsWithKey(batch, key) + (if key.1 in remaining - {c} then [] else PlayerRowFor(p, key))
    {
      RowsWithKeySnoc(rows, r, key);
    }
  }

  /** The outer row-building loop, over the players in the set's iteration
      order. */
  method BuildRows(players: seq<Player>) returns (rows: seq<Row>, zeroed: seq<Player>)
    ensures multiset(rows) == RowsOfAll(players)
    ensures forall k :: RowsWithKey(rows, k) == PlayerRowsFor(players, k)
    ensures |zeroed| == |players|
    ensures forall i :: 0 <= i < |players| ==> zeroed[i] == ZeroIncrements(players[i])
  {
    rows, zeroed := [], [];
    var i := 0;
    while i < |players|
      invariant 0 <= i <= |players|
      invariant multiset(rows) == RowsOfAll(players[..i])
      invariant forall k :: RowsWithKey(rows, k) == PlayerRowsFor(players[..i], k)
      invariant |zeroed| == i
      invariant forall j :: 0 <= j < i ==> zeroed[j] == ZeroIncrements(players[j])
    {
      var z;
      rows, z := AppendPlayerRows(players[i], rows);
      assert players[..i + 1][..i] == players[..i];
      zeroed := zeroed + [z];
      i := i + 1;
    }
    assert players[..i] == players;
  }

  // ---------------------------------------------------------------------
  // Sorting in place (List.sort with the comparator)

  /** Rows with the same key are in order either way round. */
  lemma SameKeyRowLe(x: Row, y: Row)
    requires KeyOf(x) == KeyOf(y)
    ensures RowLe(x, y)
  {
    StrLeReflexive(x.characterId);
  }

  /** Two row lists that agree on the rows with key k up to position m and
      are equal from there on agree on all their rows with key k. */
  lemma {:induction false} SameRowsWithKeyFrom(s: seq<Row>, t: seq<Row>, m: nat, k: StatsKey)
    requires |s| == |t| && m <= |s|
    requires RowsWithKey(s[..m], k) == RowsWithKey(t[..m], k)
    requires forall i :: m <= i < |s| ==> s[i] == t[i]
    ensures RowsWithKey(s, k) == RowsWithKey(t, k)
    decreases |s| - m
  {
    if m == |s| {
      assert s[..m] == s && t[..m] == t;
    } else {
      assert s[..m + 1][..m] == s[..m] && t[..m + 1][..m] == t[..m];
      SameRowsWithKeyFrom(s, t, m + 1, k);
    }
  }

  /** The rows with key k among the first j+1, from those among the first j-1. */
  lemma TwoMore(s: seq<Row>, j: nat, k: StatsKey)
    requires 0 < j < |s|
    ensures RowsWithKey(s[..j + 1], k) == RowsWithKey(s[..j - 1], k) + Keep(s[j - 1], k) + Keep(s[j], k)
  {
    assert s[..j + 1][..j] == s[..j];
    assert s[..j][..j - 1] == s[..j - 1];
  }

  /** Swapping two adjacent rows of different keys keeps, for every key, the
      order of its rows. */
  lemma SwapKeepsRowsWithKey(s: seq<Row>, j: nat, k: StatsKey)
    requires 0 < j < |s| && KeyOf(s[j - 1]) != KeyOf(s[j])
    ensures RowsWithKey(s[j - 1 := s[j]][j := s[j - 1]], k) == RowsWithKey(s, k)
  {
    var t := s[j - 1 := s[j]][j := s[j - 1]];
    assert RowsWithKey(t[..j + 1], k) == RowsWithKey(s[..j + 1], k) by {
      TwoMore(s, j, k);
      TwoMore(t, j, k);
      assert t[..j - 1] == s[..j - 1];
    }
    SameRowsWithKeyFrom(s, t, j + 1, k);
  }

  /** One swap of the insertion sort: two adjacent rows of different keys
      change places. */
  method SwapAdjacent(a: array<Row>, j: int)
    requires 0 < j < a.Length && KeyOf(a[j - 1]) != KeyOf(a[j])
    modifies a
    ensures a[j - 1] == old(a[j]) && a[j] == old(a[j - 1])
    ensures forall p :: 0 <= p < a.Length && p != j - 1 && p != j ==> a[p] == old(a[p])
    ensures multiset(a[..]) == old(multiset(a[..]))
    ensures forall k :: RowsWithKey(a[..], k) == RowsWithKey(old(a[..]), k)
  {
    ghost var before := a[..];
    a[j - 1], a[j] := a[j], a[j - 1];
    assert a[..] == before[j - 1 := before[j]][j := before[j - 1]];
    SwapKeepsAllKeys(before, before, a[..], j);
  }

  /** One swap of the insertion sort keeps every key's rows in order. */
  lemma SwapKeepsAllKeys(orig: seq<Row>, before: seq<Row>, after: seq<Row>, j: nat)
    requires 0 < j < |before| && KeyOf(before[j - 1]) != KeyOf(before[j])
    requires after == before[j - 1 := before[j]][j := before[j - 1]]
    requires forall k :: RowsWithKey(before, k) == RowsWithKey(orig, k)
    ensures forall k :: RowsWithKey(after, k) == RowsWithKey(orig, k)
  {
    forall k ensures RowsWithKey(after, k) == RowsWithKey(orig, k) {
      SwapKeepsRowsWithKey(before, j, k);
    }
  }

  /** Insertion sort by swaps; it moves an element left only past strictly
      greater ones, so it is stable like List.sort: for every key, its rows
      keep their order. */
  method SortRows(a: array<Row>)
    modifies a
    ensures Sorted(a[..])
    ensures multiset(a[..]) == old(multiset(a[..]))
    ensures forall k :: RowsWithKey(a[..], k) == RowsWithKey(old(a[..]), k)
  {
    var i := 0;
    while i < a.Length
      invariant 0 <= i <= a.Length
      invariant forall p, q :: 0 <= p < q < i ==> RowLe(a[p], a[q])
      invariant multiset(a[..]) == old(multiset(a[..]))
      invariant forall k :: RowsWithKey(a[..], k) == RowsWithKey(old(a[..]), k)
    {
      InsertLeft(a, i);
      i := i + 1;
    }
  }

  /** One pass of the insertion sort: a[i] moves left past the strictly
      greater rows before it. */
  method InsertLeft(a: array<Row>, i: int)
    requires 0 <= i < a.Length
    requires forall p, q :: 0 <= p < q < i ==> RowLe(a[p], a[q])
    modifies a
    ensures forall p, q :: 0 <= p < q <= i ==> RowLe(a[p], a[q])
    ensures multiset(a[..]) == old(multiset(a[..]))
    ensures forall k :: RowsWithKey(a[..], k) == RowsWithKey(old(a[..]), k)
  {
    var j := i;
    while j > 0 && !RowLe(a[j - 1], a[j])
      invariant 0 <= j <= i
      invariant forall p, q :: 0 <= p < q <= i && p != j && q != j ==> RowLe(a[p], a[q])
      invariant forall q :: j < q <= i ==> RowLe(a[j], a[q])
      invariant multiset(a[..]) == old(multiset(a[..]))
      invariant forall k :: RowsWithKey(a[..], k) == RowsWithKey(old(a[..]), k)
    {
      RowLeTotal(a[j - 1], a[j]);
      if KeyOf(a[j - 1]) == KeyOf(a[j]) {
        SameKeyRowLe(a[j - 1], a[j]);
      }
      SwapAdjacent(a, j);
      j := j - 1;
    }
    forall p | 0 <= p < j - 1
      ensures RowLe(a[p], a[j])
    {
      RowLeTransitive(a[p], a[j - 1], a[j]);
    }
  }

  // ---------------------------------------------------------------------
  // Chunks

  const ChunkSize := 1000

  /** ceil(n / 1000) as int division. */
  function ChunkCount(n: nat): (c: nat)
    ensures c * ChunkSize >= n
    ensures n > 0 ==> (c - 1) * ChunkSize < n
    ensures n == 0 <==> c == 0
  {
    (n + ChunkSize - 1) / ChunkSize
  }

  function Min(x: int, y: int): int { if x <= y then x else y }

  /** Chunk i: rows [i*1000, min(i*1000 + 1000, n)). */
  function Chunk(rows: seq<Row>, i: nat): (chunk: seq<Row>)
    requires i < ChunkCount(|rows|)
    ensures 0 < |chunk| <= ChunkSize
  {
    rows[i * ChunkSize .. Min(i * ChunkSize + ChunkSize, |rows|)]
  }

  /** The first c chunks laid end to end. */
  function Chunks(rows: seq<Row>, c: nat): seq<Row>
    requires c <= ChunkCount(|rows|)
  {
    if c == 0 then [] else Chunks(rows, c - 1) + Chunk(rows, c - 1)
  }

  /** The first c chunks are exactly the first min(c*1000, n) rows. */
  lemma {:induction false} ChunksArePrefix(rows: seq<Row>, c: nat)
    requires c <= ChunkCount(|rows|)
    ensures Chunks(rows, c) == rows[..Min(c * ChunkSize, |rows|)]
  {
    if c > 0 {
      ChunksArePrefix(rows, c - 1);
      assert rows[..Min(c * ChunkSize, |rows|)]
          == rows[..(c - 1) * ChunkSize] + rows[(c - 1) * ChunkSize .. Min(c * ChunkSize, |rows|)];
    }
  }

  /** All the chunks, in order, are the whole list. */
  lemma ChunksCoverRows(rows: seq<Row>)
    ensures Chunks(rows, ChunkCount(|rows|)) == rows
  {
    ChunksArePrefix(rows, ChunkCount(|rows|));
    assert rows[..|rows|] == rows;
  }

  // ---------------------------------------------------------------------
  // The character_stats table:
  // INSERT ... ON CONFLICT (player_id, character_id) DO UPDATE SET
  //   dan_rank = new, latest_battle = new, wins = old + new, losses = old + new

  datatype StoredStats = StoredStats(danRank: int, latestBattle: int, wins: int, losses: int)

  type StatsKey = (string, string)

  type StatsTable = map<StatsKey, StoredStats>

  function KeyOf(r: Row): StatsKey
  {
    (r.playerId, r.characterId)
  }

  /** One upsert. */
  function Upsert(table: StatsTable, r: Row): (t: StatsTable)
    ensures t.Keys == table.Keys + {KeyOf(r)}
    ensures forall k :: k in table && k != KeyOf(r) ==> t[k] == table[k]
    ensures t[KeyOf(r)].danRank == r.danRank && t[KeyOf(r)].latestBattle == r.latestBattle
    ensures KeyOf(r) in table ==>
      t[KeyOf(r)].wins == table[KeyOf(r)].wins + r.wins && t[KeyOf(r)].losses == table[KeyOf(r)].losses + r.losses
    ensures KeyOf(r) !in table ==> t[KeyOf(r)].wins == r.wins && t[KeyOf(r)].losses == r.losses
  {
    var k := KeyOf(r);
    if k in table
    then table[k := StoredStats(r.danRank, r.latestBattle, table[k].wins + r.wins, table[k].losses + r.losses)]
    else table[k := StoredStats(r.danRank, r.latestBattle, r.wins, r.losses)]
  }

  /** The upserts of a list of rows, executed in order. */
  function ApplyRows(table: StatsTable, rows: seq<Row>): StatsTable
    decreases |rows|
  {
    if rows == [] then table else Upsert(ApplyRows(table, rows[..|rows| - 1]), rows[|rows| - 1])
  }

  lemma {:induction false} ApplyRowsConcat(table: StatsTable, xs: seq<Row>, ys: seq<Row>)
    ensures ApplyRows(table, xs + ys) == ApplyRows(ApplyRows(table, xs), ys)
    decreases |ys|
  {
    if ys == [] {
      assert xs + ys == xs;
    } else {
      assert (xs + ys)[..|xs + ys| - 1] == xs + ys[..|ys| - 1];
      ApplyRowsConcat(table, xs, ys[..|ys| - 1]);
    }
  }

  /** Sum of the wins (losses) increments of the rows with a key. */
  function SumWins(rows: seq<Row>, k: StatsKey): int
    decreases |rows|
  {
    if rows == [] then 0
    else SumWins(rows[..|rows| - 1], k) + (if KeyOf(rows[|rows| - 1]) == k then rows[|rows| - 1].wins else 0)
  }

  function SumLosses(rows: seq<Row>, k: StatsKey): int
    decreases |rows|
  {
    if rows == [] then 0
    else SumLosses(rows[..|rows| - 1], k) + (if KeyOf(rows[|rows| - 1]) == k then rows[|rows| - 1].losses else 0)
  }

  function Keys(rows: seq<Row>): set<StatsKey>
  {
    set r | r in rows :: KeyOf(r)
  }

  /** Additive columns: stored wins and losses become the previous value (0
      for a new row) plus the sum of the increments sent for that key,
      whatever the order of the rows. */
  lemma {:induction false} ApplyRowsTotals(table: StatsTable, rows: seq<Row>, k: StatsKey)
    ensures ApplyRows(table, rows).Keys == table.Keys + Keys(rows)
    ensures k in table ==>
      && ApplyRows(table, rows)[k].wins == table[k].wins + SumWins(rows, k)
      && ApplyRows(table, rows)[k].losses == table[k].losses + SumLosses(rows, k)
    ensures k !in table && k in Keys(rows) ==>
      && ApplyRows(table, rows)[k].wins == SumWins(rows, k)
      && ApplyRows(table, rows)[k].losses == SumLosses(rows, k)
    decreases |rows|
  {
    if rows != [] {
      var init, r := rows[..|rows| - 1], rows[|rows| - 1];
      assert rows == init + [r];
      assert Keys(rows) == Keys(init) + {KeyOf(r)};
      ApplyRowsTotals(table, init, k);
      if k !in table && k !in Keys(init) {
        assert SumWins(init, k) == 0 && SumLosses(init, k) == 0 by { SumsOfAbsentKey(init, k); }
      }
    }
  }

  lemma {:induction false} SumsOfAbsentKey(rows: seq<Row>, k: StatsKey)
    requires k !in Keys(rows)
    ensures SumWins(rows, k) == 0 && SumLosses(rows, k) == 0
    decreases |rows|
  {
    if rows != [] {
      var init := rows[..|rows| - 1];
      assert Keys(init) <= Keys(rows) by {
        forall x | x in Keys(init) ensures x in Keys(rows) {
          var r :| r in init && KeyOf(r) == x;
          assert r in rows;
        }
      }
      SumsOfAbsentKey(init, k);
    }
  }

  /** Overwritten columns: rank and latest battle are those of the LAST row
      sent for the key. */
  lemma {:induction false} ApplyRowsLastWins(table: StatsTable, rows: seq<Row>, i: nat)
    requires i < |rows|
    requires forall j :: i < j < |rows| ==> KeyOf(rows[j]) != KeyOf(rows[i])
    ensures KeyOf(rows[i]) in ApplyRows(table, rows)
    ensures ApplyRows(table, rows)[KeyOf(rows[i])].danRank == rows[i].danRank
    ensures ApplyRows(table, rows)[KeyOf(rows[i])].latestBattle == rows[i].latestBattle
    decreases |rows|
  {
    if i < |rows| - 1 {
      var init := rows[..|rows| - 1];
      assert init[i] == rows[i];
      ApplyRowsLastWins(table, init, i);
    }
  }

  /** A stored key that no row touches keeps its whole row. */
  lemma {:induction false} ApplyRowsKeepsOthers(table: StatsTable, rows: seq<Row>, k: StatsKey)
    requires k in table && k !in Keys(rows)
    ensures k in ApplyRows(table, rows) && ApplyRows(table, rows)[k] == table[k]
    decreases |rows|
  {
    if rows != [] {
      var init := rows[..|rows| - 1];
      assert k !in Keys(init) by {
        forall r | r in init ensures KeyOf(r) != k {
          assert r in rows;
        }
      }
      ApplyRowsKeepsOthers(table, init, k);
    }
  }

  /** The rows with key k, in their order. */
  function RowsWithKey(rows: seq<Row>, k: StatsKey): seq<Row>
    decreases |rows|
  {
    if rows == [] then [] else RowsWithKey(rows[..|rows| - 1], k) + Keep(rows[|rows| - 1], k)
  }

  /** The row itself if it has key k, nothing otherwise. */
  function Keep(r: Row, k: StatsKey): seq<Row>
  {
    if KeyOf(r) == k then [r] else []
  }

  lemma RowsWithKeySnoc(rows: seq<Row>, r: Row, k: StatsKey)
    ensures RowsWithKey(rows + [r], k) == RowsWithKey(rows, k) + Keep(r, k)
  {
    assert (rows + [r])[..|rows|] == rows;
  }

  /** The last row sent for a key decides its rank and latest battle. */
  lemma {:induction false} ApplyRowsLastOfKey(table: StatsTable, rows: seq<Row>, k: StatsKey)
    requires RowsWithKey(rows, k) != []
    ensures k in ApplyRows(table, rows)
    ensures var last := RowsWithKey(rows, k)[|RowsWithKey(rows, k)| - 1];
      ApplyRows(table, rows)[k].danRank == last.danRank && ApplyRows(table, rows)[k].latestBattle == last.latestBattle
    decreases |rows|
  {
    var init := rows[..|rows| - 1];
    if KeyOf(rows[|rows| - 1]) != k {
      ApplyRowsLastOfKey(table, init, k);
    }
  }

  // ---------------------------------------------------------------------
  // Sending the chunks, with retry on deadlock

  /** maxRetries: a deadlock is retried while retryCount <= 3, so there are
      at most four attempts. */
  const MaxRetries := 3

  /** What storage answers to one chunk's statement batch: success, a
      deadlock (SQL state 40P01), or any other error. Each chunk commits on
      its own and is atomic. */
  datatype ChunkOutcome = ChunkOk | Deadlock | OtherError

  /** How one attempt over the chunks ended. */
  datatype AttemptStatus = Completed | DeadlockAt(chunk: nat) | ErrorAt(chunk: nat)

  /** How the flush ended: all chunks sent on attempt `attempts`; another
      error rethrown on attempt `attempts`; or the RuntimeException after
      the retries are used up. */
  datatype FlushResult = Flushed(attempts: nat) | Rethrown(attempts: nat) | RetriesExhausted

  function Pow2(k: nat): nat
  {
    if k == 0 then 1 else 2 * Pow2(k - 1)
  }

  /** The sleep before the next attempt, once retryCount has been raised to k. */
  function Backoff(k: nat): nat
  {
    Pow2(k) * 100
  }

  /** Attempt `attempt` from chunk i on: each chunk either commits and the
      next is sent, or the attempt stops at it. */
  function RunChunks(rows: seq<Row>, table: StatsTable, outcome: (nat, nat) -> ChunkOutcome, attempt: nat, i: nat)
    : (AttemptStatus, StatsTable)
    requires i <= ChunkCount(|rows|)
    decreases ChunkCount(|rows|) - i
  {
    if i == ChunkCount(|rows|) then (Completed, table)
    else match outcome(attempt, i)
      case ChunkOk => RunChunks(rows, ApplyRows(table, Chunk(rows, i)), outcome, attempt, i + 1)
      case Deadlock => (DeadlockAt(i), table)
      case OtherError => (ErrorAt(i), table)
  }

  /** The retry loop from retryCount on: the result, the table, and the
      backoffs slept. */
  function Flush(rows: seq<Row>, table: StatsTable, outcome: (nat, nat) -> ChunkOutcome, retryCount: nat)
    : (FlushResult, StatsTable, seq<nat>)
    requires retryCount <= MaxRetries
    decreases MaxRetries - retryCount
  {
    var (status, t) := RunChunks(rows, table, outcome, retryCount, 0);
    match status
    case Completed => (Flushed(retryCount + 1), t, [])
    case ErrorAt(_) => (Rethrown(retryCount + 1), t, [])
    case DeadlockAt(_) =>
      if retryCount + 1 > MaxRetries then (RetriesExhausted, t, [Backoff(retryCount + 1)])
      else
        var (r, t', backoffs) := Flush(rows, t, outcome, retryCount + 1);
        (r, t', [Backoff(retryCount + 1)] + backoffs)
  }

  /** At most four attempts; the k-th backoff is 2^k * 100 ms; the retries
      are exhausted exactly when four backoffs were slept. */
  lemma FlushBounds(rows: seq<Row>, table: StatsTable, outcome: (nat, nat) -> ChunkOutcome, retryCount: nat)
    requires retryCount <= MaxRetries
    ensures var f := Flush(rows, table, outcome, retryCount);
      && retryCount + |f.2| <= MaxRetries + 1
      && (forall j :: 0 <= j < |f.2| ==> f.2[j] == Backoff(retryCount + j + 1))
      && (f.0.RetriesExhausted? <==> retryCount + |f.2| == MaxRetries + 1)
      && (f.0.Flushed? || f.0.Rethrown? ==> f.0.attempts == retryCount + |f.2| + 1)
  {
    FlushAttemptCounts(rows, table, outcome, retryCount);
    FlushBackoffValues(rows, table, outcome, retryCount);
  }

  /** The attempt count and the number of backoffs slept. */
  lemma {:induction false} FlushAttemptCounts(rows: seq<Row>, table: StatsTable, outcome: (nat, nat) -> ChunkOutcome, retryCount: nat)
    requires retryCount <= MaxRetries
    ensures var f := Flush(rows, table, outcome, retryCount);
      && retryCount + |f.2| <= MaxRetries + 1
      && (f.0.RetriesExhausted? <==> retryCount + |f.2| == MaxRetries + 1)
      && (f.0.Flushed? || f.0.Rethrown? ==> f.0.attempts == retryCount + |f.2| + 1)
    decreases MaxRetries - retryCount
  {
    var run := RunChunks(rows, table, outcome, retryCount, 0);
    if !run.0.DeadlockAt? {
      assert Flush(rows, table, outcome, retryCount).2 == [];
    } else if retryCount + 1 > MaxRetries {
      assert Flush(rows, table, outcome, retryCount) == (RetriesExhausted, run.1, [Backoff(retryCount + 1)]);
    } else {
      var rest := Flush(rows, run.1, outcome, retryCount + 1);
      assert Flush(rows, table, outcome, retryCount) == (rest.0, rest.1, [Backoff(retryCount + 1)] + rest.2);
      FlushAttemptCounts(rows, run.1, outcome, retryCount + 1);
    }
  }

  /** The k-th backoff slept is Backoff(k), counting from the first retry. */
  lemma {:induction false} FlushBackoffValues(rows: seq<Row>, table: StatsTable, outcome: (nat, nat) -> ChunkOutcome, retryCount: nat)
    requires retryCount <= MaxRetries
    ensures var b := Flush(rows, table, outcome, retryCount).2;
      forall j :: 0 <= j < |b| ==> b[j] == Backoff(retryCount + j + 1)
    decreases MaxRetries - retryCount
  {
    var run := RunChunks(rows, table, outcome, retryCount, 0);
    if !run.0.DeadlockAt? {
      assert Flush(rows, table, outcome, retryCount).2 == [];
    } else if retryCount + 1 > MaxRetries {
      assert Flush(rows, table, outcome, retryCount).2 == [Backoff(retryCount + 1)];
    } else {
      var rest := Flush(rows, run.1, outcome, retryCount + 1);
      assert Flush(rows, table, outcome, retryCount).2 == [Backoff(retryCount + 1)] + rest.2;
      FlushBackoffValues(rows, run.1, outcome, retryCount + 1);
      BackoffsShift(rest.2, retryCount);
    }
  }

  /** One more backoff in front of the later attempts' backoffs keeps them
      numbered by retry count. */
  lemma BackoffsShift(rest: seq<nat>, retryCount: nat)
    requires forall j :: 0 <= j < |rest| ==> rest[j] == Backoff(retryCount + 1 + j + 1)
    ensures var backoffs := [Backoff(retryCount + 1)] + rest;
      forall j :: 0 <= j < |backoffs| ==> backoffs[j] == Backoff(retryCount + j + 1)
  {
    var backoffs := [Backoff(retryCount + 1)] + rest;
    forall j | 0 <= j < |backoffs| ensures backoffs[j] == Backoff(retryCount + j + 1) {
      if j > 0 {
        assert backoffs[j] == rest[j - 1];
        assert (retryCount + 1) + (j - 1) + 1 == retryCount + j + 1;
      }
    }
  }

  /** With no deadlock ever reported there is exactly one attempt, and no sleep. */
  lemma NoDeadlockNoRetry(rows: seq<Row>, table: StatsTable, outcome: (nat, nat) -> ChunkOutcome)
    requires forall a: nat, c: nat :: outcome(a, c) != Deadlock
    ensures var (r, _, backoffs) := Flush(rows, table, outcome, 0);
      backoffs == [] && (r == Flushed(1) || r == Rethrown(1))
  {
    NoDeadlockAttempt(rows, table, outcome, 0, 0);
  }

  lemma {:induction false} NoDeadlockAttempt(rows: seq<Row>, table: StatsTable, outcome: (nat, nat) -> ChunkOutcome, attempt: nat, i: nat)
    requires i <= ChunkCount(|rows|)
    requires forall a: nat, c: nat :: outcome(a, c) != Deadlock
    ensures !RunChunks(rows, table, outcome, attempt, i).0.DeadlockAt?
    decreases ChunkCount(|rows|) - i
  {
    if i < ChunkCount(|rows|) && outcome(attempt, i) == ChunkOk {
      NoDeadlockAttempt(rows, ApplyRows(table, Chunk(rows, i)), outcome, attempt, i + 1);
    }
  }

  /** A suffix is a middle slice followed by the rest. */
  lemma SplitSuffix(rows: seq<Row>, lo: nat, hi: nat)
    requires lo <= hi <= |rows|
    ensures rows[lo..] == rows[lo..hi] + rows[hi..]
  {
    var left, right := rows[lo..hi], rows[hi..];
    assert |rows[lo..]| == |left + right|;
    forall k | 0 <= k < |rows[lo..]| ensures rows[lo..][k] == (left + right)[k] {
      if k < |left| {
        assert rows[lo..][k] == rows[lo + k] == left[k];
      } else {
        assert rows[lo..][k] == rows[lo + k] == right[k - |left|];
      }
    }
  }

  /** The rows from chunk i on are chunk i followed by the rows from chunk i + 1 on. */
  lemma ChunkThenRest(rows: seq<Row>, i: nat)
    requires i < ChunkCount(|rows|)
    ensures rows[Min(i * ChunkSize, |rows|)..] == Chunk(rows, i) + rows[Min((i + 1) * ChunkSize, |rows|)..]
  {
    var lo := i * ChunkSize;
    var hi := Min(lo + ChunkSize, |rows|);
    assert Min(lo, |rows|) == lo;
    assert Min((i + 1) * ChunkSize, |rows|) == hi;
    SplitSuffix(rows, lo, hi);
  }

  /** Applying a list split in two parts, one part after the other. */
  lemma AppliedInTwoParts(table: StatsTable, first: seq<Row>, rest: seq<Row>, whole: seq<Row>, t: StatsTable)
    requires whole == first + rest
    requires t == ApplyRows(ApplyRows(table, first), rest)
    ensures t == ApplyRows(table, whole)
  {
    ApplyRowsConcat(table, first, rest);
  }

  /** An attempt that completes has sent every chunk once, in order: the
      table gets all rows applied once. */
  lemma {:induction false} CompletedAttemptAppliesAll(rows: seq<Row>, table: StatsTable, outcome: (nat, nat) -> ChunkOutcome, attempt: nat, i: nat)
    requires i <= ChunkCount(|rows|)
    ensures RunChunks(rows, table, outcome, attempt, i).0.Completed? ==>
      RunChunks(rows, table, outcome, attempt, i).1 == ApplyRows(table, rows[Min(i * ChunkSize, |rows|)..])
    decreases ChunkCount(|rows|) - i
  {
    var suffix := rows[Min(i * ChunkSize, |rows|)..];
    if i == ChunkCount(|rows|) {
      assert RunChunks(rows, table, outcome, attempt, i) == (Completed, table);
      assert ApplyRows(table, suffix) == table by {
        assert Min(i * ChunkSize, |rows|) == |rows|;
        assert suffix == [];
      }
    } else if outcome(attempt, i) == ChunkOk {
      var rest := rows[Min((i + 1) * ChunkSize, |rows|)..];
      var next := ApplyRows(table, Chunk(rows, i));
      var r := RunChunks(rows, next, outcome, attempt, i + 1);
      assert RunChunks(rows, table, outcome, attempt, i) == r;
      CompletedAttemptAppliesAll(rows, next, outcome, attempt, i + 1);
      ChunkThenRest(rows, i);
      if r.0.Completed? {
        AppliedInTwoParts(table, Chunk(rows, i), rest, suffix, r.1);
      }
    } else {
      assert !RunChunks(rows, table, outcome, attempt, i).0.Completed?;
    }
  }

  /** With a single chunk (at most 1000 rows) a deadlock commits nothing, so a
      flush that ends successfully, after any number of deadlocks, has
      applied the rows exactly once. */
  lemma {:induction false} SingleChunkAppliesOnce(rows: seq<Row>, table: StatsTable, outcome: (nat, nat) -> ChunkOutcome, retryCount: nat)
    requires |rows| <= ChunkSize
    requires retryCount <= MaxRetries
    ensures var (r, t, _) := Flush(rows, table, outcome, retryCount);
      r.Flushed? ==> t == ApplyRows(table, rows)
    decreases MaxRetries - retryCount
  {
    var (status, t) := RunChunks(rows, table, outcome, retryCount, 0);
    CompletedAttemptAppliesAll(rows, table, outcome, retryCount, 0);
    assert rows[Min(0 * ChunkSize, |rows|)..] == rows;
    if status.DeadlockAt? {
      SingleChunkDeadlockKeepsTable(rows, table, outcome, retryCount);
      if retryCount + 1 <= MaxRetries {
        SingleChunkAppliesOnce(rows, table, outcome, retryCount + 1);
      }
    }
  }

  /** With a single chunk, an attempt that deadlocks has committed nothing. */
  lemma SingleChunkDeadlockKeepsTable(rows: seq<Row>, table: StatsTable, outcome: (nat, nat) -> ChunkOutcome, attempt: nat)
    requires |rows| <= ChunkSize
    ensures RunChunks(rows, table, outcome, attempt, 0).0.DeadlockAt? ==> RunChunks(rows, table, outcome, attempt, 0).1 == table
  {
    if |rows| > 0 {
      assert ChunkCount(|rows|) == 1;
      if outcome(attempt, 0) == ChunkOk {
        assert RunChunks(rows, ApplyRows(table, Chunk(rows, 0)), outcome, attempt, 1).0 == Completed;
      }
    }
  }

  /** A successful flush ends with an attempt that sent every row in order,
      on top of whatever the earlier attempts committed. */
  lemma {:induction false} FlushedFinalAttempt(rows: seq<Row>, table: StatsTable, outcome: (nat, nat) -> ChunkOutcome, retryCount: nat)
    returns (t: StatsTable)
    requires retryCount <= MaxRetries
    ensures Flush(rows, table, outcome, retryCount).0.Flushed? ==> Flush(rows, table, outcome, retryCount).1 == ApplyRows(t, rows)
    decreases MaxRetries - retryCount
  {
    var run := RunChunks(rows, table, outcome, retryCount, 0);
    t := table;
    if run.0.Completed? {
      CompletedAttemptAppliesAll(rows, table, outcome, retryCount, 0);
      assert rows[Min(0 * ChunkSize, |rows|)..] == rows;
      assert Flush(rows, table, outcome, retryCount).1 == run.1;
    } else if run.0.DeadlockAt? && retryCount + 1 <= MaxRetries {
      var rest := Flush(rows, run.1, outcome, retryCount + 1);
      assert Flush(rows, table, outcome, retryCount).0 == rest.0 && Flush(rows, table, outcome, retryCount).1 == rest.1;
      t := FlushedFinalAttempt(rows, run.1, outcome, retryCount + 1);
    }
  }

  /** So, after a successful flush, the last row sent for a key decides its
      rank and latest battle, whatever deadlocks came before. */
  lemma FlushedLastRowWins(rows: seq<Row>, table: StatsTable, outcome: (nat, nat) -> ChunkOutcome, retryCount: nat, k: StatsKey)
    requires retryCount <= MaxRetries
    requires RowsWithKey(rows, k) != []
    ensures var f, last := Flush(rows, table, outcome, retryCount), RowsWithKey(rows, k)[|RowsWithKey(rows, k)| - 1];
      f.0.Flushed? ==> k in f.1 && f.1[k].danRank == last.danRank && f.1[k].latestBattle == last.latestBattle
  {
    var t := FlushedFinalAttempt(rows, table, outcome, retryCount);
    ApplyRowsLastOfKey(t, rows, k);
  }

  /** With several chunks, a deadlock on chunk 1 after chunk 0 committed makes
      the retry send chunk 0 again: its increments are added twice. */
  lemma RetryResendsCommittedChunks(rows: seq<Row>, table: StatsTable, outcome: (nat, nat) -> ChunkOutcome)
    requires ChunkSize < |rows| <= 2 * ChunkSize
    requires outcome(0, 0) == ChunkOk && outcome(0, 1) == Deadlock
    requires outcome(1, 0) == ChunkOk && outcome(1, 1) == ChunkOk
    ensures Flush(rows, table, outcome, 0) ==
      (Flushed(2), ApplyRows(ApplyRows(table, Chunk(rows, 0)), rows), [Backoff(1)])
  {
    var afterFirst := ApplyRows(table, Chunk(rows, 0));
    assert ChunkCount(|rows|) == 2;
    assert RunChunks(rows, table, outcome, 0, 0) == (DeadlockAt(1), afterFirst);
    CompletedAttemptAppliesAll(rows, afterFirst, outcome, 1, 0);
    assert rows[Min(0 * ChunkSize, |rows|)..] == rows;
    var second := ApplyRows(afterFirst, Chunk(rows, 0));
    assert RunChunks(rows, second, outcome, 1, 1).0 == RunChunks(rows, ApplyRows(second, Chunk(rows, 1)), outcome, 1, 2).0;
    assert RunChunks(rows, afterFirst, outcome, 1, 0) == (Completed, ApplyRows(afterFirst, rows));
    assert Flush(rows, afterFirst, outcome, 1) == (Flushed(2), ApplyRows(afterFirst, rows), []);
    assert [Backoff(1)] + [] == [Backoff(1)];
  }

  /** A flush outcome with backoffs slept earlier put in front. */
  function AfterBackoffs(earlier: seq<nat>, f: (FlushResult, StatsTable, seq<nat>)): (FlushResult, StatsTable, seq<nat>)
  {
    (f.0, f.1, earlier + f.2)
  }

  /** One attempt: the chunks in order, each executed and committed, until
      all are sent or one fails. */
  method SendAttempt(rows: seq<Row>, table: StatsTable, outcome: (nat, nat) -> ChunkOutcome, attempt: nat)
    returns (status: AttemptStatus, table': StatsTable)
    ensures (status, table') == RunChunks(rows, table, outcome, attempt, 0)
  {
    var totalBatches := ChunkCount(|rows|);
    table' := table;
    var i := 0;
    while i < totalBatches
      invariant 0 <= i <= totalBatches
      invariant RunChunks(rows, table, outcome, attempt, 0) == RunChunks(rows, table', outcome, attempt, i)
    {
      var o := outcome(attempt, i);
      if o == OtherError {
        return ErrorAt(i), table';
      } else if o == Deadlock {
        return DeadlockAt(i), table';
      }
      table' := ApplyRows(table', Chunk(rows, i));
      i := i + 1;
    }
    status := Completed;
  }

  /** The retry loop of the flush. A non-deadlock error is rethrown at once;
      after a deadlock it sleeps and starts again from chunk 0, while
      retryCount <= 3. */
  method SendChunksWithRetry(rows: seq<Row>, table: StatsTable, outcome: (nat, nat) -> ChunkOutcome)
    returns (result: FlushResult, table': StatsTable, backoffs: seq<nat>)
    ensures (result, table', backoffs) == Flush(rows, table, outcome, 0)
  {
    var retryCount := 0;
    var success := false;
    table', backoffs := table, [];
    ghost var whole := Flush(rows, table, outcome, 0);
    assert [] + whole.2 == whole.2;
    while !success && retryCount <= MaxRetries
      invariant 0 <= retryCount <= MaxRetries + 1
      invariant success ==> retryCount <= MaxRetries
      invariant success ==> whole == (Flushed(retryCount + 1), table', backoffs)
      invariant !success && retryCount <= MaxRetries ==>
        whole == AfterBackoffs(backoffs, Flush(rows, table', outcome, retryCount))
      invariant !success && retryCount == MaxRetries + 1 ==> whole == (RetriesExhausted, table', backoffs)
      decreases MaxRetries + 1 - retryCount, if success then 0 else 1
    {
      ghost var earlier := backoffs;
      ghost var rest := Flush(rows, table', outcome, retryCount);
      var status;
      status, table' := SendAttempt(rows, table', outcome, retryCount);
      assert backoffs + [] == backoffs;
      if status.ErrorAt? {
        return Rethrown(retryCount + 1), table', backoffs;
      } else if status.Completed? {
        success := true;
      } else {
        retryCount := retryCount + 1;
        backoffs := backoffs + [Backoff(retryCount)];
        if retryCount <= MaxRetries {
          assert rest == AfterBackoffs([Backoff(retryCount)], Flush(rows, table', outcome, retryCount));
          assert forall xs: seq<nat> :: earlier + ([Backoff(retryCount)] + xs) == backoffs + xs;
        }
      }
    }
    if success {
      result := Flushed(retryCount + 1);
    } else {
      result := RetriesExhausted;
    }
  }

  // ---------------------------------------------------------------------
  // executeCharacterStatsBulkOperations

  /** The whole flush. An empty player set returns at once. Otherwise the
      increments of every entry are zero once the rows are built, before any
      statement is sent, whatever happens to the statements afterwards. */
  method ExecuteCharacterStatsBulkOperations(players: seq<Player>, table: StatsTable, outcome: (nat, nat) -> ChunkOutcome)
    returns (zeroed: seq<Player>, rows: seq<Row>, result: FlushResult, table': StatsTable, backoffs: seq<nat>)
    ensures players == [] ==> zeroed == [] && rows == [] && result == Flushed(0) && table' == table && backoffs == []
    ensures players != [] ==>
      && |zeroed| == |players|
      && (forall i :: 0 <= i < |players| ==> zeroed[i] == ZeroIncrements(players[i]))
      && multiset(rows) == RowsOfAll(players)
      && Sorted(rows)
      && (forall k :: RowsWithKey(rows, k) == PlayerRowsFor(players, k))
      && (result, table', backoffs) == Flush(rows, table, outcome, 0)
  {
    if players == [] {
      return [], [], Flushed(0), table, [];
    }
    var built;
    built, zeroed := BuildRows(players);
    var batchArgs := new Row[|built|](k requires 0 <= k < |built| => built[k]);
    assert batchArgs[..] == built;
    SortRows(batchArgs);
    rows := batchArgs[..];
    result, table', backoffs := SendChunksWithRetry(rows, table, outcome);
  }
}

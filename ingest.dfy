/**
 * The first half of ReplayService.processBattlesAsync: collecting the ids of
 * a batch, deciding which battles are already stored (a Bloom-filter
 * pre-check gating a lookup in a bounded window of recent battles), and
 * folding the new battles into fresh Player objects.
 */
module Ingest {
  import opened Common
  import opened Battles
  import opened Players

  /** LIMIT of the recent-battles query. */
  const RecentWindow := 250000

  // ---------------------------------------------------------------------
  // extractBattleAndPlayerIDs

  /** The user ids of both sides of every battle. */
  function PlayerIds(battles: seq<Battle>): (ids: set<string>)
    ensures forall i :: 0 <= i < |battles| ==> battles[i].player1UserId in ids && battles[i].player2UserId in ids
    decreases |battles|
  {
    if battles == [] then {}
    else
      var last := battles[|battles| - 1];
      PlayerIds(battles[..|battles| - 1]) + {last.player1UserId, last.player2UserId}
  }

  /** Scanning one more battle adds its id ... */
  lemma BattleIdsSnoc(battles: seq<Battle>, i: nat)
    requires i < |battles|
    ensures BattleIds(battles[..i + 1]) == BattleIds(battles[..i]) + {battles[i].battleId}
  {
    var before, after := battles[..i], battles[..i + 1];
    forall id | id in BattleIds(after) ensures id in BattleIds(before) + {battles[i].battleId} {
      var k :| 0 <= k < |after| && after[k].battleId == id;
      if k < i { assert before[k] == after[k]; }
    }
    forall id | id in BattleIds(before) ensures id in BattleIds(after) {
      var k :| 0 <= k < |before| && before[k].battleId == id;
      assert after[k] == before[k];
    }
    assert after[i] == battles[i];
  }

  /** ... and both of its user ids. */
  lemma PlayerIdsSnoc(battles: seq<Battle>, i: nat)
    requires i < |battles|
    ensures PlayerIds(battles[..i + 1]) == PlayerIds(battles[..i]) + {battles[i].player1UserId, battles[i].player2UserId}
  {
    assert battles[..i + 1][..i] == battles[..i];
  }

  /** extractBattleAndPlayerIDs: fills the two (initially empty) sets. */
  method ExtractBattleAndPlayerIds(battles: seq<Battle>) returns (battleIds: set<string>, playerIds: set<string>)
    ensures battleIds == BattleIds(battles)
    ensures playerIds == PlayerIds(battles)
  {
    battleIds, playerIds := {}, {};
    var i := 0;
    while i < |battles|
      invariant 0 <= i <= |battles|
      invariant battleIds == BattleIds(battles[..i])
      invariant playerIds == PlayerIds(battles[..i])
    {
      BattleIdsSnoc(battles, i);
      PlayerIdsSnoc(battles, i);
      battleIds := battleIds + {battles[i].battleId};
      playerIds := playerIds + {battles[i].player1UserId} + {battles[i].player2UserId};
      i := i + 1;
    }
    assert battles[..i] == battles;
  }

  // ---------------------------------------------------------------------
  // fetchExistingBattles

  /** The ids of the batch the filter reports as possibly stored. */
  function Positives(ids: set<string>, mightContain: string -> bool): (p: set<string>)
    ensures p <= ids
  {
    set id | id in ids && mightContain(id)
  }

  /** The decision to query storage: the batch is non-empty and at least half
      of its ids are filter positives. (double)positives / size >= 0.5 is
      exactly 2 * positives >= size for int counts. */
  predicate LookupNeeded(ids: set<string>, mightContain: string -> bool)
  {
    ids != {} && 2 * |Positives(ids, mightContain)| >= |ids|
  }

  /** Filter positives among the first ids of an iteration order. */
  function CountPositive(order: seq<string>, mightContain: string -> bool): nat
    decreases |order|
  {
    if order == [] then 0
    else CountPositive(order[..|order| - 1], mightContain) + (if mightContain(order[|order| - 1]) then 1 else 0)
  }

  /** Over a whole enumeration of the set, the count is the number of positives. */
  lemma {:induction false} CountPositiveIsPositives(order: seq<string>, ids: set<string>, mightContain: string -> bool)
    requires Enumerates(order, ids)
    ensures CountPositive(order, mightContain) == |Positives(ids, mightContain)|
    decreases |order|
  {
    if order == [] {
      assert ids == {};
    } else {
      var init, x := order[..|order| - 1], order[|order| - 1];
      EnumeratesInit(order, ids);
      CountPositiveIsPositives(init, ids - {x}, mightContain);
      if mightContain(x) {
        assert Positives(ids, mightContain) == Positives(ids - {x}, mightContain) + {x};
      } else {
        assert Positives(ids, mightContain) == Positives(ids - {x}, mightContain);
      }
    }
  }

  /** Counting a prefix never finds more positives than counting the whole. */
  lemma {:induction false} CountPositivePrefix(order: seq<string>, k: nat, mightContain: string -> bool)
    requires k <= |order|
    ensures CountPositive(order[..k], mightContain) <= CountPositive(order, mightContain)
    decreases |order|
  {
    if k < |order| {
      var init := order[..|order| - 1];
      assert init[..k] == order[..k];
      CountPositivePrefix(init, k, mightContain);
    } else {
      assert order[..k] == order;
    }
  }

  /** Stored battle ids are unique (battle_id is the primary key). */
  predicate DistinctIds(battles: seq<Battle>)
  {
    forall i, j :: 0 <= i < j < |battles| ==> battles[i].battleId != battles[j].battleId
  }

  /** The recent battles whose id belongs to the batch, keyed by id. */
  function RecentMatches(recent: seq<Battle>, ids: set<string>): (m: map<string, Battle>)
    requires DistinctIds(recent)
    ensures m.Keys == ids * BattleIds(recent)
    ensures forall i :: 0 <= i < |recent| && recent[i].battleId in ids ==> m[recent[i].battleId] == recent[i]
    decreases |recent|
  {
    if recent == [] then map[]
    else
      var init, b := recent[..|recent| - 1], recent[|recent| - 1];
      assert recent == init + [b];
      assert BattleIds(recent) == BattleIds(init) + {b.battleId};
      var m := RecentMatches(init, ids);
      if b.battleId in ids then m[b.battleId := b] else m
  }

  /** What fetchExistingBattles returns: the matching recent battles when the
      filter check calls for the lookup, an empty map otherwise. */
  function ExistingBattles(ids: set<string>, mightContain: string -> bool, recent: seq<Battle>): (m: map<string, Battle>)
    requires DistinctIds(recent)
    ensures m.Keys <= ids
    ensures !LookupNeeded(ids, mightContain) ==> m == map[]
    ensures LookupNeeded(ids, mightContain) ==> m.Keys == ids * BattleIds(recent)
    ensures forall id :: id in m ==> m[id].battleId == id && m[id] in recent
  {
    if LookupNeeded(ids, mightContain) then RecentMatches(recent, ids) else map[]
  }

  /** With a filter that has no false negatives, a batch stored entirely
      within the recent window is recognised in full. */
  lemma StoredBatchIsRecognised(ids: set<string>, mightContain: string -> bool, recent: seq<Battle>, stored: set<string>)
    requires DistinctIds(recent)
    requires BattleIds(recent) <= stored
    requires forall id :: id in stored ==> mightContain(id)
    requires ids <= BattleIds(recent)
    ensures ExistingBattles(ids, mightContain, recent).Keys == ids
  {
    assert Positives(ids, mightContain) == ids;
  }

  /** A stored battle older than the recent window is never recognised, even
      when the filter reports every id of the batch. */
  lemma OutOfWindowBattleLooksNew(ids: set<string>, mightContain: string -> bool, recent: seq<Battle>, id: string)
    requires DistinctIds(recent)
    requires id in ids && id !in BattleIds(recent)
    ensures id !in ExistingBattles(ids, mightContain, recent)
  {
  }

  /** fetchExistingBattles. `order` is the iteration order of the id set; the
      loop counts filter positives and stops as soon as half the batch is
      positive. `recent` is the result of the recent-battles query (at most
      RecentWindow rows), read only when the threshold is met. The ghost
      `probes` counts the filter queries made. */
  method FetchExistingBattles(ids: set<string>, order: seq<string>, mightContain: string -> bool, recent: seq<Battle>)
    returns (existing: map<string, Battle>, ghost probes: nat)
    requires Enumerates(order, ids)
    requires |recent| <= RecentWindow && DistinctIds(recent)
    ensures existing == ExistingBattles(ids, mightContain, recent)
    ensures probes <= |ids|
    ensures ids == {} ==> probes == 0
  {
    EnumerationLength(order, ids);
    var n := |ids|;
    if n == 0 {
      return map[], 0;
    }
    var positiveCount := 0;
    var i := 0;
    var stopped := false;
    while i < |order|
      invariant 0 <= i <= |order|
      invariant positiveCount == CountPositive(order[..i], mightContain)
      invariant 2 * positiveCount >= n ==> i > 0 && stopped
      invariant stopped ==> i > 0
    {
      assert order[..i + 1][..i] == order[..i];
      if mightContain(order[i]) {
        positiveCount := positiveCount + 1;
        if 2 * positiveCount >= n {
          i := i + 1;
          stopped := true;
          break;
        }
      }
      i := i + 1;
    }
    probes := i;
    assert (2 * positiveCount >= n) == LookupNeeded(ids, mightContain) by {
      CountPositivePrefix(order, i, mightContain);
      CountPositiveIsPositives(order, ids, mightContain);
      if i == |order| {
        assert order[..i] == order;
      }
    }
    if 2 * positiveCount >= n {
      existing := ScanRecent(recent, ids);
    } else {
      existing := map[];
    }
  }

  /** The scan of the recent-battles query result, keeping the battles whose
      id belongs to the batch. */
  method ScanRecent(recent: seq<Battle>, ids: set<string>) returns (found: map<string, Battle>)
    requires DistinctIds(recent)
    ensures found == RecentMatches(recent, ids)
  {
    found := map[];
    var j := 0;
    while j < |recent|
      invariant 0 <= j <= |recent|
      invariant found == RecentMatches(recent[..j], ids)
    {
      assert recent[..j + 1][..j] == recent[..j];
      if recent[j].battleId in ids {
        found := found[recent[j].battleId := recent[j]];
      }
      j := j + 1;
    }
    assert recent[..j] == recent;
  }

  // ---------------------------------------------------------------------
  // processBattlesAndPlayers

  /** The battle with its readable date filled in. */
  function Dated(b: Battle, hooks: Hooks): Battle
  {
    b.(date := hooks.readableDate(b.battleAt))
  }

  /** The battles queued for insert: those whose id is not a key of the
      existing-battles map, dated, in batch order. */
  function NewBattles(battles: seq<Battle>, existing: map<string, Battle>, hooks: Hooks): (r: seq<Battle>)
    ensures |r| <= |battles|
    ensures forall b :: b in r ==> b.battleId !in existing
    ensures forall i :: 0 <= i < |battles| && battles[i].battleId !in existing ==> Dated(battles[i], hooks) in r
    ensures forall b :: b in r ==>
      exists i :: 0 <= i < |battles| && battles[i].battleId !in existing && b == Dated(battles[i], hooks)
    decreases |battles|
  {
    if battles == [] then []
    else
      var init, b := battles[..|battles| - 1], battles[|battles| - 1];
      var r := NewBattles(init, existing, hooks);
      assert forall i :: 0 <= i < |init| ==> init[i] == battles[i];
      if b.battleId in existing then r else r + [Dated(b, hooks)]
  }

  /** The battles of the batch whose id is already stored. */
  function DuplicateCount(battles: seq<Battle>, existing: map<string, Battle>): nat
    decreases |battles|
  {
    if battles == [] then 0
    else DuplicateCount(battles[..|battles| - 1], existing) + (if battles[|battles| - 1].battleId in existing then 1 else 0)
  }

  /** Every battle is either queued or counted as a duplicate, never both. */
  lemma {:induction false} NewPlusDuplicates(battles: seq<Battle>, existing: map<string, Battle>, hooks: Hooks)
    ensures |NewBattles(battles, existing, hooks)| + DuplicateCount(battles, existing) == |battles|
    decreases |battles|
  {
    if battles != [] {
      NewPlusDuplicates(battles[..|battles| - 1], existing, hooks);
    }
  }

  /** Two values per element, in order: `first` of it, then `second` of it. */
  function Pairs<T, U>(xs: seq<T>, first: T -> U, second: T -> U): (r: seq<U>)
    ensures |r| == 2 * |xs|
    decreases |xs|
  {
    if xs == [] then []
    else
      var x := xs[|xs| - 1];
      Pairs(xs[..|xs| - 1], first, second) + [first(x), second(x)]
  }

  /** Positions 2j and 2j+1 hold the pair of element j. */
  lemma {:induction false} PairsAt<T, U>(xs: seq<T>, first: T -> U, second: T -> U, j: nat)
    requires j < |xs|
    ensures Pairs(xs, first, second)[2 * j] == first(xs[j])
    ensures Pairs(xs, first, second)[2 * j + 1] == second(xs[j])
    decreases |xs|
  {
    var init := xs[..|xs| - 1];
    if j < |init| {
      PairsAt(init, first, second, j);
      assert init[j] == xs[j];
    }
  }

  /** The player a queued battle yields for side 1 or side 2. */
  function SidePlayer(playerNumber: int, hooks: Hooks): Battle -> Player
  {
    b => SeededPlayer(b, playerNumber, hooks)
  }

  /** The two players each queued battle yields, side 1 then side 2. */
  function PlayersOf(queued: seq<Battle>, hooks: Hooks): (r: seq<Player>)
    ensures |r| == 2 * |queued|
  {
    Pairs(queued, SidePlayer(1, hooks), SidePlayer(2, hooks))
  }

  /** Positions 2j and 2j+1 hold the players of the j-th queued battle. */
  lemma PlayersOfAt(queued: seq<Battle>, hooks: Hooks, j: nat)
    requires j < |queued|
    ensures PlayersOf(queued, hooks)[2 * j] == SeededPlayer(queued[j], 1, hooks)
    ensures PlayersOf(queued, hooks)[2 * j + 1] == SeededPlayer(queued[j], 2, hooks)
  {
    PairsAt(queued, SidePlayer(1, hooks), SidePlayer(2, hooks), j);
  }

  /** One more battle of the batch extends the queue, the players and the
      duplicate count by what that battle contributes. */
  lemma ProcessStep(battles: seq<Battle>, i: nat, existing: map<string, Battle>, hooks: Hooks)
    requires i < |battles|
    ensures var b, queued := battles[i], NewBattles(battles[..i], existing, hooks);
      && NewBattles(battles[..i + 1], existing, hooks) ==
           (if b.battleId in existing then queued else queued + [Dated(b, hooks)])
      && DuplicateCount(battles[..i + 1], existing) ==
           DuplicateCount(battles[..i], existing) + (if b.battleId in existing then 1 else 0)
      && PlayersOf(queued + [Dated(b, hooks)], hooks) ==
           PlayersOf(queued, hooks) + [SeededPlayer(Dated(b, hooks), 1, hooks), SeededPlayer(Dated(b, hooks), 2, hooks)]
  {
    NewBattlesStep(battles, i, existing, hooks);
    PlayersOfSnoc(NewBattles(battles[..i], existing, hooks), Dated(battles[i], hooks), hooks);
  }

  lemma NewBattlesStep(battles: seq<Battle>, i: nat, existing: map<string, Battle>, hooks: Hooks)
    requires i < |battles|
    ensures NewBattles(battles[..i + 1], existing, hooks) ==
      (if battles[i].battleId in existing then NewBattles(battles[..i], existing, hooks)
       else NewBattles(battles[..i], existing, hooks) + [Dated(battles[i], hooks)])
    ensures DuplicateCount(battles[..i + 1], existing) ==
      DuplicateCount(battles[..i], existing) + (if battles[i].battleId in existing then 1 else 0)
  {
    assert battles[..i + 1][..i] == battles[..i];
  }

  lemma PlayersOfSnoc(queued: seq<Battle>, b: Battle, hooks: Hooks)
    ensures PlayersOf(queued + [b], hooks) ==
      PlayersOf(queued, hooks) + [SeededPlayer(b, 1, hooks), SeededPlayer(b, 2, hooks)]
  {
    assert (queued + [b])[..|queued|] == queued;
  }

  /** processBattlesAndPlayers: for each battle of the batch in order, a
      battle whose id is not in `existing` is dated, yields two fresh players
      (one per side) updated with it, and is queued for insert; any other
      battle only raises the duplicate count. */
  method ProcessBattlesAndPlayers(battles: seq<Battle>, existing: map<string, Battle>, hooks: Hooks)
    returns (updatedPlayers: seq<Player>, battleSet: seq<Battle>, duplicates: nat)
    ensures battleSet == NewBattles(battles, existing, hooks)
    ensures updatedPlayers == PlayersOf(battleSet, hooks)
    ensures duplicates == DuplicateCount(battles, existing)
    ensures |battleSet| + duplicates == |battles|
  {
    updatedPlayers, battleSet, duplicates := [], [], 0;
    var i := 0;
    while i < |battles|
      invariant 0 <= i <= |battles|
      invariant battleSet == NewBattles(battles[..i], existing, hooks)
      invariant updatedPlayers == PlayersOf(battleSet, hooks)
      invariant duplicates == DuplicateCount(battles[..i], existing)
    {
      var battle := battles[i];
      ProcessStep(battles, i, existing, hooks);
      if battle.battleId !in existing {
        battle := Dated(battle, hooks);
        var player1 := UpdateNewPlayerDetails(NewPlayer, battle, 1, hooks);
        var player2 := UpdateNewPlayerDetails(NewPlayer, battle, 2, hooks);
        player1 := UpdatePlayerWithBattle(player1, battle, 1, hooks);
        player2 := UpdatePlayerWithBattle(player2, battle, 2, hooks);
        updatedPlayers := updatedPlayers + [player1, player2];
        battleSet := battleSet + [battle];
      } else {
        duplicates := duplicates + 1;
      }
      i := i + 1;
    }
    assert battles[..i] == battles;
    NewPlusDuplicates(battles, existing, hooks);
  }

  /** A battle sent twice in one batch is not caught by the duplicate check
      (the existing map holds stored battles only): both copies are queued and
      both yield players, so their wins and losses are counted twice. */
  lemma RepeatInBatchCountedTwice(b: Battle, existing: map<string, Battle>, hooks: Hooks)
    requires b.battleId !in existing
    ensures NewBattles([b, b], existing, hooks) == [Dated(b, hooks), Dated(b, hooks)]
    ensures |PlayersOf(NewBattles([b, b], existing, hooks), hooks)| == 4
  {
    assert [b, b][..1] == [b];
    assert [b][..0] == [];
  }
}

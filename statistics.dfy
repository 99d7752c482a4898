/**
 * StatisticsService.computeStatistics and processGameVersionStatistics:
 * for each game version in turn, compute and save the standard buckets,
 * then the overall buckets, against the aggregated_statistics table.
 */
module Statistics {
  import opened Common
  import opened Aggregation

  /** aggregated_statistics, by id. */
  type AggTable = map<AggKey, AggStat>

  /** saveAll: every statistic of the collection is inserted or overwritten by
      its id; stored statistics not in it keep their values. */
  function SaveAll(table: AggTable, stats: AggTable): (t: AggTable)
    ensures t.Keys == table.Keys + stats.Keys
    ensures forall k :: k in stats ==> t[k] == stats[k]
    ensures forall k :: k in table && k !in stats ==> t[k] == table[k]
  {
    table + stats
  }

  /** findByIdGameVersionAndIdCategory, collected into a map by id. */
  function StoredFor(table: AggTable, gameVersion: int, category: string): (m: AggTable)
    ensures forall k :: k in m <==> k in table && k.gameVersion == gameVersion && k.category == category
  {
    map k | k in table && k.gameVersion == gameVersion && k.category == category :: table[k]
  }

  /** Where the processing of one version throws, if it does. The statement
      batches of a save are taken to be atomic. */
  datatype VersionRun = Completes | FailsBeforeStandardSave | FailsBeforeOverallSave

  /** What one version's processing reads besides the table: the
      character-stats rows of the version, the iteration orders of the two
      per-player maps built from them, and where it fails. */
  datatype VersionInput = VersionInput(rows: seq<StatsRow>, mainOrder: seq<string>, groupOrder: seq<string>, run: VersionRun)

  ghost predicate WellOrdered(input: VersionInput)
  {
    && Enumerates(input.mainOrder, MainCharacters(input.rows).Keys)
    && Enumerates(input.groupOrder, Groups(input.rows).Keys)
  }

  function StandardVisits(gameVersion: int, input: VersionInput): seq<Contribution>
    requires WellOrdered(input)
  {
    MainContributions(MainCharacters(input.rows), input.mainOrder, gameVersion, Standard)
  }

  function OverallVisits(gameVersion: int, input: VersionInput): seq<Contribution>
    requires WellOrdered(input)
  {
    OverallContributions(Groups(input.rows), input.groupOrder, gameVersion)
  }

  /** processGameVersionStatistics: the table afterwards, and whether it
      returned normally. */
  function ProcessVersion(table: AggTable, gameVersion: int, input: VersionInput): (AggTable, bool)
    requires WellOrdered(input)
  {
    if input.run == FailsBeforeStandardSave then (table, false)
    else
      var standard := Aggregate(StandardVisits(gameVersion, input), StoredFor(table, gameVersion, Standard).Keys);
      var t := SaveAll(table, standard);
      if input.run == FailsBeforeOverallSave then (t, false)
      else (SaveAll(t, Aggregate(OverallVisits(gameVersion, input), StoredFor(t, gameVersion, Overall).Keys)), true)
  }

  method ProcessGameVersionStatistics(table: AggTable, gameVersion: int, input: VersionInput)
    returns (table': AggTable, ok: bool)
    requires WellOrdered(input)
    ensures (table', ok) == ProcessVersion(table, gameVersion, input)
  {
    if input.run == FailsBeforeStandardSave {
      return table, false;
    }
    var existingStandard := StoredFor(table, gameVersion, Standard);
    var mains := IdentifyPlayerMainCharacters(input.rows);
    var mainData := AggregateStatistics(mains, input.mainOrder, Standard, gameVersion, existingStandard);
    table' := SaveAll(table, mainData);
    if input.run == FailsBeforeOverallSave {
      return table', false;
    }
    var existingOverall := StoredFor(table', gameVersion, Overall);
    var groups := GetAllPlayerCharacters(input.rows);
    var overallData := AggregateOverallStatistics(groups, input.groupOrder, gameVersion, existingOverall);
    table' := SaveAll(table', overallData);
    ok := true;
  }

  // ---------------------------------------------------------------------
  // Which buckets a version's processing writes

  lemma MainContributionsKeys(mains: map<string, PlayerCharacterData>, order: seq<string>, gameVersion: int, category: string)
    requires forall i :: 0 <= i < |order| ==> order[i] in mains
    ensures forall k :: k in Touched(MainContributions(mains, order, gameVersion, category)) ==>
      k.gameVersion == gameVersion && k.category == category
  {
    var cs := MainContributions(mains, order, gameVersion, category);
    forall k | k in Touched(cs)
      ensures k.gameVersion == gameVersion && k.category == category
    {
      var c :| c in cs && c.key == k;
      var i :| 0 <= i < |cs| && cs[i] == c;
    }
  }

  lemma {:induction false} PlayerContributionsKeys(pid: string, ds: seq<PlayerCharacterData>, gameVersion: int)
    ensures forall c :: c in PlayerContributions(pid, ds, gameVersion) ==>
      c.key.gameVersion == gameVersion && c.key.category == Overall
    decreases |ds|
  {
    if ds != [] {
      PlayerContributionsKeys(pid, ds[..|ds| - 1], gameVersion);
    }
  }

  lemma {:induction false} OverallContributionsKeys(groups: map<string, seq<PlayerCharacterData>>, order: seq<string>, gameVersion: int)
    requires forall i :: 0 <= i < |order| ==> order[i] in groups
    ensures forall k :: k in Touched(OverallContributions(groups, order, gameVersion)) ==>
      k.gameVersion == gameVersion && k.category == Overall
    decreases |order|
  {
    if order != [] {
      var last := order[|order| - 1];
      OverallContributionsKeys(groups, order[..|order| - 1], gameVersion);
      PlayerContributionsKeys(last, groups[last], gameVersion);
      var cs := OverallContributions(groups, order, gameVersion);
      forall k | k in Touched(cs)
        ensures k.gameVersion == gameVersion && k.category == Overall
      {
        var c :| c in cs && c.key == k;
        if c !in OverallContributions(groups, order[..|order| - 1], gameVersion) {
          assert c in PlayerContributions(last, groups[last], gameVersion);
        }
      }
    }
  }

  /** A version's processing writes only standard and overall buckets of that
      version; every stored bucket stays, and a stored bucket that no visit
      reaches keeps its old counters. */
  lemma ProcessVersionScope(table: AggTable, gameVersion: int, input: VersionInput)
    requires WellOrdered(input)
    ensures var (t, _) := ProcessVersion(table, gameVersion, input);
      && table.Keys <= t.Keys
      && (forall k :: k in t && k !in table ==>
            k.gameVersion == gameVersion && (k.category == Standard || k.category == Overall))
      && (forall k :: k in table && (k.gameVersion != gameVersion || (k.category != Standard && k.category != Overall))
            ==> t[k] == table[k])
      && (forall k :: (k in table && k !in Touched(StandardVisits(gameVersion, input))
                       && k !in Touched(OverallVisits(gameVersion, input))) ==> t[k] == table[k])
  {
    MainContributionsKeys(MainCharacters(input.rows), input.mainOrder, gameVersion, Standard);
    OverallContributionsKeys(Groups(input.rows), input.groupOrder, gameVersion);
  }

  // ---------------------------------------------------------------------
  // computeStatistics

  /** The versions whose processing starts: up to and including the first
      that throws, since one try encloses the whole loop. */
  function Attempted(versions: seq<int>, inputOf: int -> VersionInput): (a: seq<int>)
    ensures |a| <= |versions| && a == versions[..|a|]
    ensures forall i :: 0 <= i < |a| - 1 ==> inputOf(a[i]).run == Completes
    ensures |a| < |versions| ==> a != [] && inputOf(a[|a| - 1]).run != Completes
    decreases |versions|
  {
    if versions == [] then []
    else if inputOf(versions[0]).run == Completes then [versions[0]] + Attempted(versions[1..], inputOf)
    else [versions[0]]
  }

  function ComputeFrom(table: AggTable, versions: seq<int>, inputOf: int -> VersionInput): AggTable
    requires forall i :: 0 <= i < |versions| ==> WellOrdered(inputOf(versions[i]))
    decreases |versions|
  {
    if versions == [] then table
    else
      var (t, ok) := ProcessVersion(table, versions[0], inputOf(versions[0]));
      if ok then ComputeFrom(t, versions[1..], inputOf) else t
  }

  /** The scheduled run: nothing when the version query is empty; otherwise
      the versions in order, abandoning the rest at the first failure. */
  function ComputeAll(table: AggTable, versions: Option<seq<int>>, inputOf: int -> VersionInput): AggTable
    requires versions.Some? ==> forall i :: 0 <= i < |versions.value| ==> WellOrdered(inputOf(versions.value[i]))
  {
    match versions
    case None => table
    case Some(vs) => ComputeFrom(table, vs, inputOf)
  }

  /** Stored buckets of versions that were not attempted are left as they
      were, and no stored bucket disappears. */
  lemma {:induction false} ComputeKeepsUnattempted(table: AggTable, versions: seq<int>, inputOf: int -> VersionInput)
    requires forall i :: 0 <= i < |versions| ==> WellOrdered(inputOf(versions[i]))
    ensures table.Keys <= ComputeFrom(table, versions, inputOf).Keys
    ensures forall k :: k in table && k.gameVersion !in Attempted(versions, inputOf) ==>
      ComputeFrom(table, versions, inputOf)[k] == table[k]
    decreases |versions|
  {
    if versions != [] {
      var v := versions[0];
      ProcessVersionScope(table, v, inputOf(v));
      var (t, ok) := ProcessVersion(table, v, inputOf(v));
      if ok {
        ComputeKeepsUnattempted(t, versions[1..], inputOf);
        assert Attempted(versions, inputOf) == [v] + Attempted(versions[1..], inputOf);
      }
    }
  }

  lemma ComputeFromStep(table: AggTable, versions: seq<int>, i: nat, inputOf: int -> VersionInput, t: AggTable, ok: bool)
    requires forall j :: 0 <= j < |versions| ==> WellOrdered(inputOf(versions[j]))
    requires i < |versions|
    requires (t, ok) == ProcessVersion(table, versions[i], inputOf(versions[i]))
    ensures ComputeFrom(table, versions[i..], inputOf) == if ok then ComputeFrom(t, versions[i + 1..], inputOf) else t
  {
    assert versions[i..][0] == versions[i] && versions[i..][1..] == versions[i + 1..];
  }

  method ComputeStatistics(table: AggTable, versions: Option<seq<int>>, inputOf: int -> VersionInput)
    returns (table': AggTable)
    requires versions.Some? ==> forall i :: 0 <= i < |versions.value| ==> WellOrdered(inputOf(versions.value[i]))
    ensures table' == ComputeAll(table, versions, inputOf)
  {
    table' := table;
    if versions.None? {
      return;
    }
    var vs := versions.value;
    var i := 0;
    while i < |vs|
      invariant 0 <= i <= |vs|
      invariant ComputeFrom(table, vs, inputOf) == ComputeFrom(table', vs[i..], inputOf)
    {
      var ok;
      ghost var before := table';
      table', ok := ProcessGameVersionStatistics(table', vs[i], inputOf(vs[i]));
      ComputeFromStep(before, vs, i, inputOf, table', ok);
      if !ok {
        return;
      }
      i := i + 1;
    }
  }
}

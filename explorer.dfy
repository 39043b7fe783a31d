/**
 * The stateful DOP2 tree explorer (`DOP2Explorer`, asyncmiele/dop2/explorer.py): per-device
 * success and failure caches keyed by (unit, attribute), the unit sweep and the device
 * walk. The leaf reader is an oracle; each gathered batch is run in order.
 */
module TreeExplorer {
  import opened Wrappers
  import opened BinaryPrimitives
  import opened Dop2Models
  import opened LeafParser
  import opened ExplorerSpec

  /** The arguments of one `read_leaf` call. */
  datatype ReadRequest = ReadRequest(deviceId: string, unit: int, attribute: int, idx1: int, idx2: int)

  /** The RuntimeError of an explorer built without a client. */
  datatype ExploreError = NoClient

  /** The part of `_exploration_stats` that is not a clock reading. */
  datatype ExplorationStats = ExplorationStats(leavesExplored: int, leavesFound: int, finished: bool)

  /** The injected client: the device answers the n-th read with bytes, or fails with None. */
  class LeafReader {
    const answer: (nat, ReadRequest) -> Option<Bytes>
    var requests: seq<ReadRequest>

    constructor(answer: (nat, ReadRequest) -> Option<Bytes>)
      ensures this.answer == answer && requests == []
    {
      this.answer := answer;
      requests := [];
    }

    method ReadLeaf(req: ReadRequest) returns (r: Option<Bytes>)
      modifies this
      ensures requests == old(requests) + [req]
      ensures r == answer(|old(requests)|, req)
    {
      r := answer(|requests|, req);
      requests := requests + [req];
    }
  }

  /** What `explore_leaf` makes of a read: the parsed leaf, or None if the read or the parse raised. */
  function ProbeOutcome(unit: int, attribute: int, answer: Option<Bytes>): (r: Option<LeafValue>)
    ensures r.Some? <==> answer.Some? && ParseLeaf(unit, attribute, answer.value).Ok?
    ensures r.Some? ==> r.value == ParseLeaf(unit, attribute, answer.value).value
  {
    match answer
    case None => None
    case Some(payload) =>
      match ParseLeaf(unit, attribute, payload)
      case Ok(v) => Some(v)
      case Err(_) => None
  }

  type LeafCache = map<string, map<(int, int), LeafValue>>
  type FailureCache = map<string, set<(int, int)>>

  function LeavesOf(explored: LeafCache, deviceId: string): map<(int, int), LeafValue> {
    if deviceId in explored then explored[deviceId] else map[]
  }

  function FailuresOf(failed: FailureCache, deviceId: string): set<(int, int)> {
    if deviceId in failed then failed[deviceId] else {}
  }

  predicate CachedSuccess(explored: LeafCache, deviceId: string, key: (int, int)) {
    deviceId in explored && key in explored[deviceId]
  }

  predicate CachedFailure(failed: FailureCache, deviceId: string, key: (int, int)) {
    deviceId in failed && key in failed[deviceId]
  }

  class Explorer {
    const reader: LeafReader?
    var explored: LeafCache
    var failed: FailureCache
    var stats: map<string, ExplorationStats>
    var cacheEnabled: bool
    /** Every `explore_leaf` call that returned, in order. */
    ghost var probes: seq<Probe>
    /** Every `explore_unit` call that returned, in order. */
    ghost var visits: seq<UnitVisit>

    /** Both caches know the same devices, and no key is both a success and a failure. */
    predicate Valid()
      reads this
    {
      && explored.Keys == failed.Keys
      && forall d | d in explored :: explored[d].Keys !! failed[d]
    }

    constructor(reader: LeafReader?)
      ensures this.reader == reader
      ensures explored == map[] && failed == map[] && stats == map[] && cacheEnabled
      ensures probes == [] && visits == []
      ensures Valid()
    {
      this.reader := reader;
      explored := map[];
      failed := map[];
      stats := map[];
      cacheEnabled := true;
      probes := [];
      visits := [];
    }

    /** `clear_cache`: one device when given a non-empty id, otherwise every device. */
    method ClearCache(deviceId: Option<string>)
      requires Valid()
      modifies this
      ensures Valid()
      ensures deviceId.Some? && deviceId.value != "" ==>
        explored == old(explored) - {deviceId.value} && failed == old(failed) - {deviceId.value}
        && stats == old(stats) - {deviceId.value}
      ensures deviceId.None? || deviceId.value == "" ==> explored == map[] && failed == map[] && stats == map[]
      ensures cacheEnabled == old(cacheEnabled) && probes == old(probes) && visits == old(visits)
    {
      if deviceId.Some? && deviceId.value != "" {
        explored := explored - {deviceId.value};
        failed := failed - {deviceId.value};
        stats := stats - {deviceId.value};
      } else {
        explored := map[];
        failed := map[];
        stats := map[];
      }
    }

    method DisableCache()
      modifies this
      ensures !cacheEnabled
      ensures explored == old(explored) && failed == old(failed) && stats == old(stats)
      ensures probes == old(probes) && visits == old(visits)
    {
      cacheEnabled := false;
    }

    method EnableCache()
      modifies this
      ensures cacheEnabled
      ensures explored == old(explored) && failed == old(failed) && stats == old(stats)
      ensures probes == old(probes) && visits == old(visits)
    {
      cacheEnabled := true;
    }

    /**
     * `explore_leaf`. With caching on, a cached success or failure is answered without a
     * read; otherwise one read is issued and its outcome cached if caching is on. The
     * indices are passed to the read but are not part of the cache key.
     */
    method ExploreLeaf(deviceId: string, unit: int, attribute: int, idx1: int, idx2: int)
      returns (r: Result<Option<LeafValue>, ExploreError>)
      requires Valid()
      modifies this, reader
      ensures Valid()
      ensures cacheEnabled == old(cacheEnabled) && stats == old(stats) && visits == old(visits)
      ensures reader == null ==>
        r == Err(NoClient) && explored == old(explored) && failed == old(failed) && probes == old(probes)
      ensures reader != null ==> r.Ok? && probes == old(probes) + [Probe(deviceId, unit, attribute, r.value)]
      ensures reader != null && cacheEnabled && CachedSuccess(old(explored), deviceId, (unit, attribute)) ==>
        && r.value == Some(old(explored)[deviceId][(unit, attribute)])
        && reader.requests == old(reader.requests)
        && explored == old(explored) && failed == old(failed)
      ensures reader != null && cacheEnabled && !CachedSuccess(old(explored), deviceId, (unit, attribute))
              && CachedFailure(old(failed), deviceId, (unit, attribute)) ==>
        && r.value == None
        && reader.requests == old(reader.requests)
        && explored == old(explored) && failed == old(failed)
      ensures reader != null && !(cacheEnabled && (CachedSuccess(old(explored), deviceId, (unit, attribute))
                                                   || CachedFailure(old(failed), deviceId, (unit, attribute)))) ==>
        var req := ReadRequest(deviceId, unit, attribute, idx1, idx2);
        && reader.requests == old(reader.requests) + [req]
        && r.value == ProbeOutcome(unit, attribute, reader.answer(|old(reader.requests)|, req))
        && explored == old(explored)[deviceId :=
             if cacheEnabled && r.value.Some?
             then LeavesOf(old(explored), deviceId)[(unit, attribute) := r.value.value]
             else LeavesOf(old(explored), deviceId)]
        && failed == old(failed)[deviceId :=
             if cacheEnabled && r.value.None?
             then FailuresOf(old(failed), deviceId) + {(unit, attribute)}
             else FailuresOf(old(failed), deviceId)]
    {
      if reader == null {
        return Err(NoClient);
      }
      var key := (unit, attribute);
      if cacheEnabled && deviceId in explored && key in explored[deviceId] {
        r := Ok(Some(explored[deviceId][key]));
        probes := probes + [Probe(deviceId, unit, attribute, r.value)];
        return;
      }
      if cacheEnabled && deviceId in failed && key in failed[deviceId] {
        r := Ok(None);
        probes := probes + [Probe(deviceId, unit, attribute, r.value)];
        return;
      }
      r := ReadAndCache(deviceId, unit, attribute, idx1, idx2);
    }

    /** The `try` block of `explore_leaf`: initialise the device's caches, read, parse, cache. */
    method ReadAndCache(deviceId: string, unit: int, attribute: int, idx1: int, idx2: int)
      returns (r: Result<Option<LeafValue>, ExploreError>)
      requires Valid() && reader != null
      requires cacheEnabled ==> !CachedSuccess(explored, deviceId, (unit, attribute))
      requires cacheEnabled ==> !CachedFailure(failed, deviceId, (unit, attribute))
      modifies this, reader
      ensures Valid()
      ensures cacheEnabled == old(cacheEnabled) && stats == old(stats) && visits == old(visits)
      ensures r.Ok? && probes == old(probes) + [Probe(deviceId, unit, attribute, r.value)]
      ensures
        var req := ReadRequest(deviceId, unit, attribute, idx1, idx2);
        && reader.requests == old(reader.requests) + [req]
        && r.value == ProbeOutcome(unit, attribute, reader.answer(|old(reader.requests)|, req))
        && explored == old(explored)[deviceId :=
             if cacheEnabled && r.value.Some?
             then LeavesOf(old(explored), deviceId)[(unit, attribute) := r.value.value]
             else LeavesOf(old(explored), deviceId)]
        && failed == old(failed)[deviceId :=
             if cacheEnabled && r.value.None?
             then FailuresOf(old(failed), deviceId) + {(unit, attribute)}
             else FailuresOf(old(failed), deviceId)]
    {
      var key := (unit, attribute);
      var leaves := LeavesOf(explored, deviceId);
      var failures := FailuresOf(failed, deviceId);
      var raw := reader.ReadLeaf(ReadRequest(deviceId, unit, attribute, idx1, idx2));
      var outcome := ProbeOutcome(unit, attribute, raw);
      if outcome.Some? && cacheEnabled {
        leaves := leaves[key := outcome.value];
      } else if outcome.None? && cacheEnabled {
        failures := failures + {key};
      }
      explored := explored[deviceId := leaves];
      failed := failed[deviceId := failures];
      r := Ok(outcome);
      probes := probes + [Probe(deviceId, unit, attribute, outcome)];
    }

    /** One gathered batch: `explore_leaf` on each attribute of `attrs`, in order. */
    method ProbeAll(deviceId: string, unit: int, attrs: seq<int>)
      returns (r: Result<seq<Option<LeafValue>>, ExploreError>)
      requires Valid()
      modifies this, reader
      ensures Valid()
      ensures cacheEnabled == old(cacheEnabled) && stats == old(stats) && visits == old(visits)
      ensures reader == null ==>
        && (r.Err? <==> |attrs| > 0) && (r.Ok? ==> r.value == [])
        && explored == old(explored) && failed == old(failed) && probes == old(probes)
      ensures reader != null ==>
        r.Ok? && |r.value| == |attrs| && probes == old(probes) + Batch(deviceId, unit, attrs, r.value)
    {
      var results: seq<Option<LeafValue>> := [];
      var i := 0;
      while i < |attrs|
        invariant 0 <= i <= |attrs| && |results| == i
        invariant Valid()
        invariant cacheEnabled == old(cacheEnabled) && stats == old(stats) && visits == old(visits)
        invariant reader == null ==>
          i == 0 && explored == old(explored) && failed == old(failed) && probes == old(probes)
        invariant reader != null ==> probes == old(probes) + Batch(deviceId, unit, attrs[..i], results)
      {
        var res := ExploreLeaf(deviceId, unit, attrs[i], 0, 0);
        if res.Err? {
          return Err(res.error);
        }
        BatchStep(deviceId, unit, attrs, results, res.value);
        ConcatAssoc(old(probes), Batch(deviceId, unit, attrs[..i], results), [Probe(deviceId, unit, attrs[i], res.value)]);
        results := results + [res.value];
        i := i + 1;
      }
      assert attrs[..i] == attrs;
      return Ok(results);
    }

    /**
     * `explore_unit`: probe the known attributes, then (unless `knownOnly`) sweep
     * attributes 1, 2, ... in batches until `maxAttribute` or an empty streak of 50.
     */
    method ExploreUnit(deviceId: string, unit: int, maxAttribute: int, knownOnly: bool, concurrency: int)
      returns (r: Result<map<int, LeafValue>, ExploreError>)
      requires Valid() && 1 <= concurrency
      modifies this, reader
      ensures Valid()
      ensures cacheEnabled == old(cacheEnabled) && stats == old(stats)
      ensures old(probes) <= probes
      ensures reader == null ==>
        && (r.Err? <==> |KnownLeaves(unit)| > 0 || (!knownOnly && 1 <= maxAttribute))
        && (r.Ok? ==> r.value == map[])
        && explored == old(explored) && failed == old(failed) && probes == old(probes)
      ensures r.Ok? ==> visits == old(visits) + [UnitVisit(deviceId, unit, r.value)]
      ensures r.Err? ==> visits == old(visits)
      ensures reader != null ==>
        && r.Ok?
        && UnitRun(probes[|old(probes)|..], deviceId, unit, maxAttribute, knownOnly, concurrency)
        && r.value == Collect(probes[|old(probes)|..])
    {
      var known;
      ghost var run;
      known, run := KnownPhase(deviceId, unit);
      if known.Err? {
        return Err(known.error);
      }
      r := FinishUnit(deviceId, unit, maxAttribute, knownOnly, concurrency, known.value, run, old(probes));
    }

    /** `explore_unit` after the known-leaf phase: stop there, or sweep, and record the visit. */
    method FinishUnit(deviceId: string, unit: int, maxAttribute: int, knownOnly: bool, concurrency: int,
                      known: map<int, LeafValue>, ghost run: seq<Probe>, ghost base: seq<Probe>)
      returns (r: Result<map<int, LeafValue>, ExploreError>)
      requires Valid() && 1 <= concurrency && known == Collect(run)
      requires reader == null ==> known == map[] && |KnownLeaves(unit)| == 0
      requires reader != null ==> probes == base + run && KnownRun(run, deviceId, unit)
      modifies this, reader
      ensures Valid()
      ensures cacheEnabled == old(cacheEnabled) && stats == old(stats)
      ensures old(probes) <= probes
      ensures reader == null ==>
        && (r.Err? <==> !knownOnly && 1 <= maxAttribute)
        && (r.Ok? ==> r.value == map[])
        && explored == old(explored) && failed == old(failed) && probes == old(probes)
      ensures r.Ok? ==> visits == old(visits) + [UnitVisit(deviceId, unit, r.value)]
      ensures r.Err? ==> visits == old(visits)
      ensures reader != null ==>
        && r.Ok? && base <= probes
        && UnitRun(probes[|base|..], deviceId, unit, maxAttribute, knownOnly, concurrency)
        && r.value == Collect(probes[|base|..])
    {
      if knownOnly {
        if reader != null {
          KnownOnlyRun(base, run, deviceId, unit, maxAttribute, concurrency);
        }
        visits := visits + [UnitVisit(deviceId, unit, known)];
        return Ok(known);
      }
      ghost var sweep;
      r, sweep := Sweep(deviceId, unit, maxAttribute, concurrency, known, run);
      if r.Ok? {
        if reader != null {
          UnitRunOfParts(base, run, sweep, deviceId, unit, maxAttribute, concurrency);
        }
        visits := visits + [UnitVisit(deviceId, unit, r.value)];
      }
    }

    /** The known-leaf phase of `explore_unit`: one batch over `KnownLeaves(unit)`, hits stored. */
    method KnownPhase(deviceId: string, unit: int) returns (r: Result<map<int, LeafValue>, ExploreError>, ghost run: seq<Probe>)
      requires Valid()
      modifies this, reader
      ensures Valid()
      ensures cacheEnabled == old(cacheEnabled) && stats == old(stats) && visits == old(visits)
      ensures reader == null ==>
        && (r.Err? <==> |KnownLeaves(unit)| > 0) && (r.Ok? ==> r.value == map[])
        && explored == old(explored) && failed == old(failed) && probes == old(probes) && run == []
      ensures reader != null ==>
        && r.Ok? && probes == old(probes) + run && r.value == Collect(run)
        && |run| == |KnownLeaves(unit)|
        && forall i | 0 <= i < |run| ::
             run[i].attribute == KnownLeaves(unit)[i] && run[i].deviceId == deviceId && run[i].unit == unit
    {
      var known := KnownLeaves(unit);
      run := [];
      if |known| == 0 {
        return Ok(map[]), run;
      }
      var res := ProbeAll(deviceId, unit, known);
      if res.Err? {
        return Err(res.error), run;
      }
      run := Batch(deviceId, unit, known, res.value);
      var leaves, allEmpty := StoreHits([], map[], deviceId, unit, known, res.value);
      assert [] + run == run;
      r := Ok(leaves);
    }

    /**
     * The sweep of `explore_unit`: batches of `min(concurrency, maxAttribute - attr + 1)`
     * attributes from 1 upward, while `attr <= maxAttribute` and the empty streak is
     * below 50; a hit resets the streak, an all-empty batch grows it by its size.
     */
    method Sweep(deviceId: string, unit: int, maxAttribute: int, concurrency: int,
                 leaves0: map<int, LeafValue>, ghost run: seq<Probe>)
      returns (r: Result<map<int, LeafValue>, ExploreError>, ghost sweep: seq<Probe>)
      requires Valid() && 1 <= concurrency && leaves0 == Collect(run)
      requires reader == null ==> leaves0 == map[]
      modifies this, reader
      ensures Valid()
      ensures cacheEnabled == old(cacheEnabled) && stats == old(stats) && visits == old(visits)
      ensures reader == null ==>
        && (r.Err? <==> 1 <= maxAttribute) && (r.Ok? ==> r.value == map[])
        && explored == old(explored) && failed == old(failed) && probes == old(probes)
      ensures reader != null ==>
        && r.Ok?
        && probes == old(probes) + sweep
        && (forall i | 0 <= i < |sweep| ::
              sweep[i].attribute == i + 1 && sweep[i].deviceId == deviceId && sweep[i].unit == unit)
        && SweepEnds(Hits(sweep), concurrency, maxAttribute)
        && r.value == Collect(run + sweep)
    {
      var leaves := leaves0;
      var emptyCount := 0;
      var attr := 1;
      sweep := [];
      assert run + sweep == run;
      assert Hits(sweep) == [];
      while attr <= maxAttribute && emptyCount < MaxEmptyLeaves
        invariant Valid() && cacheEnabled == old(cacheEnabled) && stats == old(stats) && visits == old(visits)
        invariant SweepState(sweep, deviceId, unit, attr, emptyCount, concurrency, maxAttribute)
        invariant reader != null ==> probes == old(probes) + sweep && leaves == Collect(run + sweep)
        invariant reader == null ==>
          && attr == 1 && emptyCount == 0 && leaves == map[]
          && explored == old(explored) && failed == old(failed) && probes == old(probes)
        decreases maxAttribute - attr
      {
        ghost var mid := |probes|;
        var step := SweepBatch(deviceId, unit, maxAttribute, concurrency, attr, emptyCount, leaves, run + sweep);
        if step.Err? {
          r := Err(step.error);
          return;
        }
        ghost var batch := probes[mid..];
        SweepStep(sweep, batch, deviceId, unit, attr, emptyCount, forall j | 0 <= j < |batch| :: batch[j].result.None?,
                  step.value.0, step.value.1, concurrency, maxAttribute);
        ConcatAssoc(run, sweep, batch);
        ConcatAssoc(old(probes), sweep, batch);
        assert probes == old(probes) + sweep + batch;
        sweep := sweep + batch;
        attr, emptyCount, leaves := step.value.0, step.value.1, step.value.2;
      }
      r := Ok(leaves);
    }

    /**
     * One iteration of the sweep loop: gather a batch of `min(concurrency,
     * maxAttribute - attr + 1)` consecutive attributes, store the hits, and update the
     * empty streak. Returns the next attribute, the new streak and the new leaf map.
     */
    method SweepBatch(deviceId: string, unit: int, maxAttribute: int, concurrency: int, attr: int,
                      emptyCount: int, leaves: map<int, LeafValue>, ghost prefix: seq<Probe>)
      returns (r: Result<(int, int, map<int, LeafValue>), ExploreError>)
      requires Valid() && 1 <= concurrency && Continues(attr, emptyCount, maxAttribute)
      requires leaves == Collect(prefix)
      modifies this, reader
      ensures Valid()
      ensures cacheEnabled == old(cacheEnabled) && stats == old(stats) && visits == old(visits)
      ensures old(probes) <= probes
      ensures reader == null ==>
        r.Err? && explored == old(explored) && failed == old(failed) && probes == old(probes)
      ensures reader != null ==>
        var batch := probes[|old(probes)|..];
        && r.Ok?
        && |batch| == BatchSize(attr, concurrency, maxAttribute)
        && (forall j | 0 <= j < |batch| ::
              batch[j].attribute == attr + j && batch[j].deviceId == deviceId && batch[j].unit == unit)
        && r.value.0 == attr + |batch|
        && r.value.1 == (if forall j | 0 <= j < |batch| :: batch[j].result.None? then emptyCount + |batch| else 0)
        && r.value.2 == Collect(prefix + batch)
    {
      var batchSize := Min(concurrency, maxAttribute - attr + 1);
      var attrs := seq(batchSize, i => attr + i);
      var res := ProbeAll(deviceId, unit, attrs);
      if res.Err? {
        return Err(res.error);
      }
      var results := res.value;
      ghost var batch := Batch(deviceId, unit, attrs, results);
      assert probes[|old(probes)|..] == batch;
      var newLeaves, allEmpty := StoreHits(prefix, leaves, deviceId, unit, attrs, results);
      var newEmpty := emptyCount;
      if allEmpty {
        newEmpty := newEmpty + batchSize;
      } else {
        newEmpty := 0;
      }
      return Ok((attr + batchSize, newEmpty, newLeaves));
    }

    /**
     * `explore_device`: reset the device's statistics, walk the common units up to
     * `maxUnit`, then every other unit 1..maxUnit, keep a node per unit with leaves, and
     * record the leaf total. The generation is the detector's answer, passed in.
     */
    method ExploreDevice(deviceId: string, maxUnit: int, maxAttribute: int, knownOnly: bool, concurrency: int,
                         generation: Generation)
      returns (r: Result<Tree, ExploreError>, ghost runs: seq<seq<Probe>>)
      requires Valid() && 1 <= concurrency
      modifies this, reader
      ensures Valid()
      ensures cacheEnabled == old(cacheEnabled)
      ensures reader == null ==>
        && r == Err(NoClient) && stats == old(stats)[deviceId := ExplorationStats(0, 0, false)] && runs == []
        && explored == old(explored) && failed == old(failed) && probes == old(probes) && visits == old(visits)
      ensures reader != null ==>
        && |old(visits)| <= |visits|
        && var walk := visits[|old(visits)|..];
        && DeviceWalk(walk, runs, old(probes), probes, deviceId, maxUnit, maxAttribute, knownOnly, concurrency)
        && r == Ok(Tree(deviceId, generation, NodesOf(walk)))
        && stats == old(stats)[deviceId := ExplorationStats(0, WalkLeaves(walk), true)]
    {
      stats := stats[deviceId := ExplorationStats(0, 0, false)];
      runs := [];
      if reader == null {
        return Err(NoClient), runs;
      }
      var nodes: map<int, Node>;
      ghost var walk: seq<UnitVisit>;
      nodes, walk, runs := WalkUnits(deviceId, maxUnit, maxAttribute, knownOnly, concurrency);
      DeviceLeafTotal(walk, maxUnit);
      var found := CountLeaves(nodes);
      stats := stats[deviceId := ExplorationStats(0, found, true)];
      return Ok(Tree(deviceId, generation, nodes)), runs;
    }

    /** Both loops of `explore_device`: the common units, then the others. */
    method WalkUnits(deviceId: string, maxUnit: int, maxAttribute: int, knownOnly: bool, concurrency: int)
      returns (nodes: map<int, Node>, ghost walk: seq<UnitVisit>, ghost runs: seq<seq<Probe>>)
      requires Valid() && 1 <= concurrency && reader != null
      modifies this, reader
      ensures Valid() && cacheEnabled == old(cacheEnabled) && stats == old(stats)
      ensures visits == old(visits) + walk && visits[|old(visits)|..] == walk
      ensures DeviceWalk(walk, runs, old(probes), probes, deviceId, maxUnit, maxAttribute, knownOnly, concurrency)
      ensures nodes == NodesOf(walk)
    {
      ghost var common: seq<UnitVisit>;
      ghost var commonRuns: seq<seq<Probe>>;
      nodes, common, commonRuns := WalkCommonUnits(deviceId, maxUnit, maxAttribute, knownOnly, concurrency);
      nodes, walk, runs := WalkOtherUnits(deviceId, maxUnit, maxAttribute, knownOnly, concurrency, nodes,
                                          common, commonRuns, old(visits), old(probes));
      assert visits[|old(visits)|..] == walk;
    }

    /** The first loop of `explore_device`: each common unit up to `maxUnit`, in list order. */
    method WalkCommonUnits(deviceId: string, maxUnit: int, maxAttribute: int, knownOnly: bool, concurrency: int)
      returns (nodes: map<int, Node>, ghost walk: seq<UnitVisit>, ghost runs: seq<seq<Probe>>)
      requires Valid() && 1 <= concurrency && reader != null
      modifies this, reader
      ensures Valid() && cacheEnabled == old(cacheEnabled) && stats == old(stats)
      ensures visits == old(visits) + walk
      ensures CommonWalk(walk, nodes, deviceId, maxUnit, |CommonUnits|)
      ensures probes == old(probes) + Flatten(runs) && WalkRuns(walk, runs, maxAttribute, knownOnly, concurrency)
    {
      nodes := map[];
      walk, runs := [], [];
      var k := 0;
      while k < |CommonUnits|
        invariant Valid() && cacheEnabled == old(cacheEnabled) && stats == old(stats)
        invariant visits == old(visits) + walk
        invariant 0 <= k <= |CommonUnits| && CommonWalk(walk, nodes, deviceId, maxUnit, k)
        invariant probes == old(probes) + Flatten(runs) && WalkRuns(walk, runs, maxAttribute, knownOnly, concurrency)
      {
        nodes, walk, runs := CommonUnitStep(deviceId, maxUnit, maxAttribute, knownOnly, concurrency, k, nodes,
                                            walk, runs, old(visits), old(probes));
        k := k + 1;
      }
    }

    /** One iteration of the first loop. */
    method CommonUnitStep(deviceId: string, maxUnit: int, maxAttribute: int, knownOnly: bool, concurrency: int,
                          k: int, nodes0: map<int, Node>, ghost walk0: seq<UnitVisit>,
                          ghost runs0: seq<seq<Probe>>, ghost base: seq<UnitVisit>, ghost probeBase: seq<Probe>)
      returns (nodes: map<int, Node>, ghost walk: seq<UnitVisit>, ghost runs: seq<seq<Probe>>)
      requires Valid() && 1 <= concurrency && reader != null
      requires 0 <= k < |CommonUnits| && CommonWalk(walk0, nodes0, deviceId, maxUnit, k)
      requires visits == base + walk0
      requires probes == probeBase + Flatten(runs0) && WalkRuns(walk0, runs0, maxAttribute, knownOnly, concurrency)
      modifies this, reader
      ensures Valid() && cacheEnabled == old(cacheEnabled) && stats == old(stats)
      ensures visits == base + walk
      ensures CommonWalk(walk, nodes, deviceId, maxUnit, k + 1)
      ensures probes == probeBase + Flatten(runs) && WalkRuns(walk, runs, maxAttribute, knownOnly, concurrency)
    {
      var unit := CommonUnits[k];
      nodes, walk, runs := nodes0, walk0, runs0;
      if unit <= maxUnit {
        ghost var v, run;
        nodes, v, run := VisitUnit(deviceId, unit, maxAttribute, knownOnly, concurrency, nodes, walk);
        ConcatAssoc(base, walk0, [v]);
        ConcatAssoc(probeBase, Flatten(runs0), run);
        WalkRunsStep(walk0, runs0, v, run, maxAttribute, knownOnly, concurrency);
        walk, runs := walk + [v], runs + [run];
        CommonWalkStep(walk0, nodes0, v, nodes, deviceId, maxUnit, k);
      } else {
        assert CommonUnits[..k + 1][..k] == CommonUnits[..k];
      }
    }

    /**
     * The second loop of `explore_device`: units 1..maxUnit that are neither already a
     * node nor a common unit, ascending.
     */
    method WalkOtherUnits(deviceId: string, maxUnit: int, maxAttribute: int, knownOnly: bool, concurrency: int,
                          nodes0: map<int, Node>, ghost common: seq<UnitVisit>, ghost commonRuns: seq<seq<Probe>>,
                          ghost base: seq<UnitVisit>, ghost probeBase: seq<Probe>)
      returns (nodes: map<int, Node>, ghost walk: seq<UnitVisit>, ghost runs: seq<seq<Probe>>)
      requires Valid() && 1 <= concurrency && reader != null
      requires CommonWalk(common, nodes0, deviceId, maxUnit, |CommonUnits|)
      requires visits == base + common
      requires probes == probeBase + Flatten(commonRuns)
      requires WalkRuns(common, commonRuns, maxAttribute, knownOnly, concurrency)
      modifies this, reader
      ensures Valid() && cacheEnabled == old(cacheEnabled) && stats == old(stats)
      ensures visits == base + walk
      ensures UnitsOf(walk) == UnitOrder(maxUnit)
      ensures forall i | 0 <= i < |walk| :: walk[i].deviceId == deviceId
      ensures nodes == NodesOf(walk)
      ensures probes == probeBase + Flatten(runs) && WalkRuns(walk, runs, maxAttribute, knownOnly, concurrency)
    {
      assert CommonUnits[..|CommonUnits|] == CommonUnits;
      nodes := nodes0;
      walk, runs := common, commonRuns;
      var unit := 1;
      while unit <= maxUnit
        invariant 1 <= unit && (unit == 1 || unit <= maxUnit + 1)
        invariant Valid() && cacheEnabled == old(cacheEnabled) && stats == old(stats)
        invariant visits == base + walk
        invariant OthersWalk(walk, nodes, deviceId, maxUnit, unit)
        invariant probes == probeBase + Flatten(runs) && WalkRuns(walk, runs, maxAttribute, knownOnly, concurrency)
        decreases maxUnit - unit
      {
        nodes, walk, runs := OtherUnitStep(deviceId, maxUnit, maxAttribute, knownOnly, concurrency, unit, nodes,
                                           walk, runs, base, probeBase);
        unit := unit + 1;
      }
      assert OthersUpTo(unit - 1) == OthersUpTo(maxUnit);
    }

    /** One iteration of the second loop. */
    method OtherUnitStep(deviceId: string, maxUnit: int, maxAttribute: int, knownOnly: bool, concurrency: int,
                         unit: int, nodes0: map<int, Node>, ghost walk0: seq<UnitVisit>,
                         ghost runs0: seq<seq<Probe>>, ghost base: seq<UnitVisit>, ghost probeBase: seq<Probe>)
      returns (nodes: map<int, Node>, ghost walk: seq<UnitVisit>, ghost runs: seq<seq<Probe>>)
      requires Valid() && 1 <= concurrency && reader != null
      requires 1 <= unit && OthersWalk(walk0, nodes0, deviceId, maxUnit, unit)
      requires visits == base + walk0
      requires probes == probeBase + Flatten(runs0) && WalkRuns(walk0, runs0, maxAttribute, knownOnly, concurrency)
      modifies this, reader
      ensures Valid() && cacheEnabled == old(cacheEnabled) && stats == old(stats)
      ensures visits == base + walk
      ensures OthersWalk(walk, nodes, deviceId, maxUnit, unit + 1)
      ensures probes == probeBase + Flatten(runs) && WalkRuns(walk, runs, maxAttribute, knownOnly, concurrency)
    {
      nodes, walk, runs := nodes0, walk0, runs0;
      if unit in nodes || unit in CommonUnits {
      } else {
        ghost var v, run;
        nodes, v, run := VisitUnit(deviceId, unit, maxAttribute, knownOnly, concurrency, nodes, walk);
        ConcatAssoc(base, walk0, [v]);
        ConcatAssoc(probeBase, Flatten(runs0), run);
        WalkRunsStep(walk0, runs0, v, run, maxAttribute, knownOnly, concurrency);
        walk, runs := walk + [v], runs + [run];
      }
      OthersStep(UpTo(CommonUnits, maxUnit), unit);
    }

    /** One unit of either loop of `explore_device`: explore it and keep a node if it has leaves. */
    method VisitUnit(deviceId: string, unit: int, maxAttribute: int, knownOnly: bool, concurrency: int,
                     nodes0: map<int, Node>, ghost walk: seq<UnitVisit>)
      returns (nodes: map<int, Node>, ghost v: UnitVisit, ghost run: seq<Probe>)
      requires Valid() && 1 <= concurrency && reader != null
      requires nodes0 == NodesOf(walk)
      modifies this, reader
      ensures Valid() && cacheEnabled == old(cacheEnabled) && stats == old(stats)
      ensures visits == old(visits) + [v]
      ensures v.deviceId == deviceId && v.unit == unit
      ensures probes == old(probes) + run
      ensures UnitRun(run, deviceId, unit, maxAttribute, knownOnly, concurrency) && v.leaves == Collect(run)
      ensures nodes == NodesOf(walk + [v])
      ensures UnitsOf(walk + [v]) == UnitsOf(walk) + [unit]
      ensures nodes.Keys <= nodes0.Keys + {unit}
    {
      var res := ExploreUnit(deviceId, unit, maxAttribute, knownOnly, concurrency);
      var leaves := res.value;
      nodes := nodes0;
      if |leaves| > 0 {
        nodes := nodes[unit := Node(unit, leaves)];
      }
      v := UnitVisit(deviceId, unit, leaves);
      run := probes[|old(probes)|..];
      VisitStep(walk, v);
    }
  }

  /** The first loop of `explore_device` after `k` common units. */
  ghost predicate CommonWalk(walk: seq<UnitVisit>, nodes: map<int, Node>, deviceId: string, maxUnit: int, k: int)
    requires 0 <= k <= |CommonUnits|
  {
    && UnitsOf(walk) == UpTo(CommonUnits[..k], maxUnit)
    && (forall i | 0 <= i < |walk| :: walk[i].deviceId == deviceId)
    && nodes == NodesOf(walk)
    && (forall u | u in nodes :: u in CommonUnits)
  }

  /**
   * A finished device walk: the units explored are `UnitOrder(maxUnit)` in that order, all
   * for `deviceId`; each visit is a complete unit run whose hits are its leaf map; and the
   * runs, one after another, are exactly the probes the walk made.
   */
  ghost predicate DeviceWalk(walk: seq<UnitVisit>, runs: seq<seq<Probe>>, before: seq<Probe>, after: seq<Probe>,
                             deviceId: string, maxUnit: int, maxAttribute: int, knownOnly: bool, concurrency: int)
    requires 1 <= concurrency
  {
    && UnitsOf(walk) == UnitOrder(maxUnit)
    && (forall i | 0 <= i < |walk| :: walk[i].deviceId == deviceId)
    && after == before + Flatten(runs)
    && WalkRuns(walk, runs, maxAttribute, knownOnly, concurrency)
  }

  /** One common unit visited by the first loop. */
  lemma CommonWalkStep(walk0: seq<UnitVisit>, nodes0: map<int, Node>, v: UnitVisit, nodes: map<int, Node>,
                       deviceId: string, maxUnit: int, k: int)
    requires 0 <= k < |CommonUnits| && CommonWalk(walk0, nodes0, deviceId, maxUnit, k)
    requires v.deviceId == deviceId && v.unit == CommonUnits[k] <= maxUnit
    requires nodes == NodesOf(walk0 + [v]) && nodes.Keys <= nodes0.Keys + {v.unit}
    ensures CommonWalk(walk0 + [v], nodes, deviceId, maxUnit, k + 1)
  {
    assert CommonUnits[..k + 1][..k] == CommonUnits[..k];
    VisitStep(walk0, v);
  }

  /** The second loop of `explore_device` before `unit`. */
  ghost predicate OthersWalk(walk: seq<UnitVisit>, nodes: map<int, Node>, deviceId: string, maxUnit: int, unit: int) {
    && UnitsOf(walk) == UpTo(CommonUnits, maxUnit) + OthersUpTo(unit - 1)
    && (forall i | 0 <= i < |walk| :: walk[i].deviceId == deviceId)
    && nodes == NodesOf(walk)
    && (forall u | u in nodes :: u in CommonUnits || u < unit)
  }

  /**
   * The result loop of a gathered batch: store every hit under its attribute and
   * report whether the whole batch was empty.
   */
  method StoreHits(ghost prefix: seq<Probe>, leaves: map<int, LeafValue>, deviceId: string, unit: int,
                   attrs: seq<int>, results: seq<Option<LeafValue>>)
    returns (out: map<int, LeafValue>, allEmpty: bool)
    requires |attrs| == |results| && leaves == Collect(prefix)
    ensures out == Collect(prefix + Batch(deviceId, unit, attrs, results))
    ensures allEmpty <==> forall j | 0 <= j < |results| :: results[j].None?
  {
    ghost var batch := Batch(deviceId, unit, attrs, results);
    out := leaves;
    allEmpty := true;
    var i := 0;
    assert prefix + batch[..0] == prefix;
    while i < |results|
      invariant 0 <= i <= |results|
      invariant allEmpty <==> forall j | 0 <= j < i :: results[j].None?
      invariant out == Collect(prefix + batch[..i])
    {
      CollectStep(prefix, batch, i);
      if results[i].Some? {
        out := out[attrs[i] := results[i].value];
        allEmpty := false;
      }
      i := i + 1;
    }
    assert batch[..|results|] == batch;
  }

  /** One more result of a gathered batch. */
  lemma BatchStep(deviceId: string, unit: int, attrs: seq<int>, results: seq<Option<LeafValue>>,
                  result: Option<LeafValue>)
    requires |results| < |attrs|
    ensures Batch(deviceId, unit, attrs[..|results| + 1], results + [result])
      == Batch(deviceId, unit, attrs[..|results|], results) + [Probe(deviceId, unit, attrs[|results|], result)]
  {
    var i := |results|;
    assert attrs[..i + 1][..i] == attrs[..i];
    assert (results + [result])[..i] == results;
  }

  /** One more probe of a batch added to the leaf map. */
  lemma CollectStep(prefix: seq<Probe>, batch: seq<Probe>, i: int)
    requires 0 <= i < |batch|
    ensures Collect(prefix + batch[..i + 1]) ==
      if batch[i].result.Some? then Collect(prefix + batch[..i])[batch[i].attribute := batch[i].result.value]
      else Collect(prefix + batch[..i])
  {
    assert (prefix + batch[..i + 1])[..|prefix| + i] == prefix + batch[..i];
  }

  /** The probes of the known-leaf phase: one per known attribute of the unit, in order. */
  ghost predicate KnownRun(run: seq<Probe>, deviceId: string, unit: int) {
    && |run| == |KnownLeaves(unit)|
    && forall i | 0 <= i < |run| ::
         run[i].attribute == KnownLeaves(unit)[i] && run[i].deviceId == deviceId && run[i].unit == unit
  }

  /** The probes of a `known_only` call: exactly the known batch. */
  lemma KnownOnlyRun(before: seq<Probe>, run: seq<Probe>, deviceId: string, unit: int,
                     maxAttribute: int, concurrency: int)
    requires 1 <= concurrency
    requires KnownRun(run, deviceId, unit)
    ensures (before + run)[|before|..] == run
    ensures UnitRun(run, deviceId, unit, maxAttribute, true, concurrency)
  {
  }

  /** One more visit appended to a walk. */
  lemma VisitStep(walk: seq<UnitVisit>, v: UnitVisit)
    ensures UnitsOf(walk + [v]) == UnitsOf(walk) + [v.unit]
    ensures (walk + [v])[..|walk|] == walk
  {
  }

  /** The leaf total of `explore_device`'s statistics, one node at a time. */
  method CountLeaves(nodes: map<int, Node>) returns (n: nat)
    ensures n == TotalLeaves(nodes)
  {
    var rest := nodes;
    n := 0;
    while rest.Keys != {}
      invariant n + TotalLeaves(rest) == TotalLeaves(nodes)
      decreases |rest.Keys|
    {
      HasSomeUnit(rest);
      var u :| u in rest.Keys;
      TotalLeavesRemove(rest, u);
      n := n + |rest[u].leaves|;
      assert (rest - {u}).Keys == rest.Keys - {u};
      rest := rest - {u};
    }
  }

  /**
   * Two `explore_leaf` calls for the same leaf on a fresh explorer with caching on:
   * the reader is asked once and both calls give the same answer, whatever it returns.
   */
  method RepeatedLeafReadsOnce(answer: (nat, ReadRequest) -> Option<Bytes>, deviceId: string, unit: int,
                               attribute: int)
    returns (readCount: nat, first: Option<LeafValue>, second: Option<LeafValue>)
    ensures readCount == 1
    ensures second == first
    ensures first == ProbeOutcome(unit, attribute, answer(0, ReadRequest(deviceId, unit, attribute, 0, 0)))
  {
    var reader := new LeafReader(answer);
    var explorer := new Explorer(reader);
    var r1 := explorer.ExploreLeaf(deviceId, unit, attribute, 0, 0);
    var r2 := explorer.ExploreLeaf(deviceId, unit, attribute, 0, 0);
    readCount := |reader.requests|;
    first, second := r1.value, r2.value;
  }

  /** The units walked by `explore_device`'s second loop, one unit further. */
  lemma OthersStep(prefix: seq<int>, unit: int)
    requires 1 <= unit
    ensures unit in CommonUnits ==> prefix + OthersUpTo(unit - 1) == prefix + OthersUpTo(unit)
    ensures unit !in CommonUnits ==> prefix + OthersUpTo(unit - 1) + [unit] == prefix + OthersUpTo(unit)
  {
  }

  lemma ConcatAssoc<T>(a: seq<T>, b: seq<T>, c: seq<T>)
    ensures a + b + c == a + (b + c)
  {
  }

  /** The probes of a sweeping `explore_unit` call: the known batch followed by a finished sweep. */
  lemma UnitRunOfParts(before: seq<Probe>, run: seq<Probe>, sweep: seq<Probe>, deviceId: string, unit: int,
                       maxAttribute: int, concurrency: int)
    requires 1 <= concurrency
    requires KnownRun(run, deviceId, unit)
    requires forall i | 0 <= i < |sweep| ::
      sweep[i].attribute == i + 1 && sweep[i].deviceId == deviceId && sweep[i].unit == unit
    requires SweepEnds(Hits(sweep), concurrency, maxAttribute)
    ensures (before + run + sweep)[|before|..] == run + sweep
    ensures UnitRun(run + sweep, deviceId, unit, maxAttribute, false, concurrency)
  {
    ConcatAssoc(before, run, sweep);
    assert (run + sweep)[|run|..] == sweep;
    forall i | 0 <= i < |run + sweep|
      ensures (run + sweep)[i].deviceId == deviceId && (run + sweep)[i].unit == unit
    {
      if i >= |run| {
        assert (run + sweep)[i] == sweep[i - |run|];
      }
    }
  }
}

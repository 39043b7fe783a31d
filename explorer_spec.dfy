/**
 * The pure side of the DOP2 tree explorer (asyncmiele/dop2/explorer.py): the tree
 * records, the batched sweep with its empty-streak stop rule, the unit order of a
 * device walk, and the tree diff.
 */
module ExplorerSpec {
  import opened Wrappers
  import opened Dop2Models
  import opened LeafParser

  /** Units walked first, in this order. */
  const CommonUnits: seq<int> := [1, 2, 3, 14]

  /** Largest attribute a sweep tries by default. */
  const MaxAttributeId: int := 10000

  /** Number of consecutive empty attributes after which a sweep gives up. */
  const MaxEmptyLeaves: int := 50

  /** Attributes probed before the sweep, per unit. */
  function KnownLeaves(unit: int): seq<int> {
    if unit == 1 then [2, 3, 4]
    else if unit == 2 then [105, 119, 138, 256, 286, 293, 1584, 6195]
    else if unit == 3 then [1000]
    else if unit == 14 then [1570, 1571, 2570]
    else []
  }

  /** `DOP2Node`: the leaves found under one unit. */
  datatype Node = Node(unit: int, leaves: map<int, LeafValue>)

  /** `DOP2Tree`. */
  datatype Tree = Tree(deviceId: string, generation: Generation, nodes: map<int, Node>)

  /** One `explore_leaf` call and what it returned. */
  datatype Probe = Probe(deviceId: string, unit: int, attribute: int, result: Option<LeafValue>)

  /** One `explore_unit` call that returned, with the leaf map it returned. */
  datatype UnitVisit = UnitVisit(deviceId: string, unit: int, leaves: map<int, LeafValue>)

  // ---------------------------------------------------------------------------
  // Probes and the leaves they yield
  // ---------------------------------------------------------------------------

  /** The probes of one gathered batch over `attrs`. */
  function Batch(deviceId: string, unit: int, attrs: seq<int>, results: seq<Option<LeafValue>>): (ps: seq<Probe>)
    requires |attrs| == |results|
    ensures |ps| == |attrs|
    ensures forall i | 0 <= i < |ps| :: ps[i] == Probe(deviceId, unit, attrs[i], results[i])
  {
    if attrs == [] then []
    else Batch(deviceId, unit, attrs[..|attrs| - 1], results[..|results| - 1])
         + [Probe(deviceId, unit, attrs[|attrs| - 1], results[|results| - 1])]
  }

  /** The leaf map built from probes: each hit stores its value, a miss changes nothing. */
  function Collect(ps: seq<Probe>): map<int, LeafValue> {
    if ps == [] then map[]
    else
      var m := Collect(ps[..|ps| - 1]);
      var last := ps[|ps| - 1];
      if last.result.Some? then m[last.attribute := last.result.value] else m
  }

  /** An attribute is in the leaf map exactly when some probe of it hit, and then holds a hit's value. */
  lemma {:induction false} CollectKeys(ps: seq<Probe>)
    ensures forall k :: k in Collect(ps) <==>
      exists i | 0 <= i < |ps| :: ps[i].attribute == k && ps[i].result.Some?
    ensures forall k | k in Collect(ps) ::
      exists i | 0 <= i < |ps| :: ps[i].attribute == k && ps[i].result == Some(Collect(ps)[k])
  {
    if ps != [] {
      var init := ps[..|ps| - 1];
      CollectKeys(init);
      forall k | k in Collect(ps)
        ensures exists i | 0 <= i < |ps| :: ps[i].attribute == k && ps[i].result == Some(Collect(ps)[k])
      {
        var last := ps[|ps| - 1];
        if last.result.Some? && last.attribute == k {
        } else {
          assert k in Collect(init) && Collect(ps)[k] == Collect(init)[k];
          var i :| 0 <= i < |init| && init[i].attribute == k && init[i].result == Some(Collect(init)[k]);
          assert ps[i] == init[i];
        }
      }
      forall k | exists i | 0 <= i < |ps| :: ps[i].attribute == k && ps[i].result.Some?
        ensures k in Collect(ps)
      {
        var i :| 0 <= i < |ps| && ps[i].attribute == k && ps[i].result.Some?;
        if i < |init| {
          assert init[i] == ps[i];
        }
      }
    }
  }

  // ---------------------------------------------------------------------------
  // The sweep
  // ---------------------------------------------------------------------------

  function Min(a: int, b: int): int {
    if a <= b then a else b
  }

  /** `min(concurrency, max_attribute - attr + 1)`. */
  function BatchSize(attr: int, concurrency: int, maxAttribute: int): int {
    Min(concurrency, maxAttribute - attr + 1)
  }

  /** The loop condition of the sweep. */
  predicate Continues(attr: int, emptyCount: int, maxAttribute: int) {
    attr <= maxAttribute && emptyCount < MaxEmptyLeaves
  }

  /** The empty streak after a batch: zero after any hit, else grown by the batch size. */
  function NextEmpty(hits: seq<bool>, emptyCount: int): int {
    if forall i | 0 <= i < |hits| :: !hits[i] then emptyCount + |hits| else 0
  }

  /**
   * The sweep state (next attribute, empty streak) after it has seen `hits`, the hit
   * flags of its probes in order, starting from (attr, emptyCount); None when `hits`
   * is not a whole number of batches the loop would have run.
   */
  function SweepAfter(hits: seq<bool>, attr: int, emptyCount: int, concurrency: int, maxAttribute: int)
    : Option<(int, int)>
    requires 1 <= concurrency
    decreases |hits|
  {
    if hits == [] then Some((attr, emptyCount))
    else if !Continues(attr, emptyCount, maxAttribute) then None
    else
      var b := BatchSize(attr, concurrency, maxAttribute);
      if |hits| < b then None
      else SweepAfter(hits[b..], attr + b, NextEmpty(hits[..b], emptyCount), concurrency, maxAttribute)
  }

  /** A finished sweep from attribute 1: whole batches, ending where the loop condition fails. */
  predicate SweepEnds(hits: seq<bool>, concurrency: int, maxAttribute: int)
    requires 1 <= concurrency
  {
    var s := SweepAfter(hits, 1, 0, concurrency, maxAttribute);
    s.Some? && !Continues(s.value.0, s.value.1, maxAttribute)
  }

  function Hits(ps: seq<Probe>): (hits: seq<bool>)
    ensures |hits| == |ps|
    ensures forall i | 0 <= i < |ps| :: hits[i] == ps[i].result.Some?
  {
    seq(|ps|, i requires 0 <= i < |ps| => ps[i].result.Some?)
  }

  /** One more whole batch extends a sweep run by one loop iteration. */
  lemma {:induction false} SweepAfterBatch(hits: seq<bool>, batch: seq<bool>, attr0: int, empty0: int,
                                           concurrency: int, maxAttribute: int, attr: int, emptyCount: int)
    requires 1 <= concurrency
    requires SweepAfter(hits, attr0, empty0, concurrency, maxAttribute) == Some((attr, emptyCount))
    requires Continues(attr, emptyCount, maxAttribute)
    requires |batch| == BatchSize(attr, concurrency, maxAttribute)
    ensures SweepAfter(hits + batch, attr0, empty0, concurrency, maxAttribute)
            == Some((attr + |batch|, NextEmpty(batch, emptyCount)))
    decreases |hits|
  {
    if hits == [] {
      assert hits + batch == batch;
      assert batch[|batch|..] == [] && batch[..|batch|] == batch;
    } else {
      var b := BatchSize(attr0, concurrency, maxAttribute);
      var attr1, empty1 := attr0 + b, NextEmpty(hits[..b], empty0);
      assert Continues(attr0, empty0, maxAttribute) && b <= |hits|;
      assert SweepAfter(hits[b..], attr1, empty1, concurrency, maxAttribute) == Some((attr, emptyCount));
      SweepAfterBatch(hits[b..], batch, attr1, empty1, concurrency, maxAttribute, attr, emptyCount);
      var whole := hits + batch;
      assert whole[b..] == hits[b..] + batch && whole[..b] == hits[..b];
      assert SweepAfter(whole, attr0, empty0, concurrency, maxAttribute)
          == SweepAfter(hits[b..] + batch, attr1, empty1, concurrency, maxAttribute);
    }
  }

  /** The sweep loop's state: `sweep` probed attributes 1..attr-1 of one unit and left the streak at `emptyCount`. */
  predicate SweepState(sweep: seq<Probe>, deviceId: string, unit: int, attr: int, emptyCount: int,
                       concurrency: int, maxAttribute: int)
    requires 1 <= concurrency
  {
    && |sweep| == attr - 1
    && (forall i | 0 <= i < |sweep| ::
          sweep[i].attribute == i + 1 && sweep[i].deviceId == deviceId && sweep[i].unit == unit)
    && SweepAfter(Hits(sweep), 1, 0, concurrency, maxAttribute) == Some((attr, emptyCount))
  }

  /** One loop iteration of the sweep: a whole batch of consecutive attributes. */
  lemma SweepStep(sweep: seq<Probe>, batch: seq<Probe>, deviceId: string, unit: int, attr: int,
                  emptyCount: int, allEmpty: bool, nextAttr: int, nextEmpty: int,
                  concurrency: int, maxAttribute: int)
    requires 1 <= concurrency
    requires SweepState(sweep, deviceId, unit, attr, emptyCount, concurrency, maxAttribute)
    requires Continues(attr, emptyCount, maxAttribute)
    requires |batch| == BatchSize(attr, concurrency, maxAttribute)
    requires forall j | 0 <= j < |batch| ::
      batch[j].attribute == attr + j && batch[j].deviceId == deviceId && batch[j].unit == unit
    requires allEmpty <==> forall j | 0 <= j < |batch| :: batch[j].result.None?
    requires nextAttr == attr + |batch|
    requires nextEmpty == if allEmpty then emptyCount + |batch| else 0
    ensures SweepState(sweep + batch, deviceId, unit, nextAttr, nextEmpty, concurrency, maxAttribute)
  {
    var next := sweep + batch;
    forall i | 0 <= i < |next|
      ensures next[i].attribute == i + 1 && next[i].deviceId == deviceId && next[i].unit == unit
    {
      if i >= |sweep| {
        assert next[i] == batch[i - |sweep|];
      }
    }
    var hits := Hits(batch);
    assert allEmpty <==> forall j | 0 <= j < |hits| :: !hits[j];
    assert Hits(next) == Hits(sweep) + hits;
    SweepAfterBatch(Hits(sweep), hits, 1, 0, concurrency, maxAttribute, attr, emptyCount);
  }

  /** A run advances the attribute by the number of probes and never past `maxAttribute + 1`. */
  lemma {:induction false} SweepAfterShape(hits: seq<bool>, attr0: int, empty0: int,
                                           concurrency: int, maxAttribute: int, attr: int, emptyCount: int)
    requires 1 <= concurrency
    requires SweepAfter(hits, attr0, empty0, concurrency, maxAttribute) == Some((attr, emptyCount))
    ensures attr == attr0 + |hits|
    ensures attr0 <= maxAttribute + 1 ==> attr <= maxAttribute + 1
    ensures hits != [] ==> attr0 <= maxAttribute
    decreases |hits|
  {
    if hits != [] {
      var b := BatchSize(attr0, concurrency, maxAttribute);
      SweepAfterShape(hits[b..], attr0 + b, NextEmpty(hits[..b], empty0), concurrency, maxAttribute,
                      attr, emptyCount);
    }
  }

  /** With no hit at all, the streak counts every probe and stays below 50 plus one batch. */
  lemma {:induction false} EmptySweepStreak(hits: seq<bool>, attr0: int, empty0: int,
                                            concurrency: int, maxAttribute: int, attr: int, emptyCount: int)
    requires 1 <= concurrency
    requires forall i | 0 <= i < |hits| :: !hits[i]
    requires empty0 <= MaxEmptyLeaves - 1 + concurrency
    requires SweepAfter(hits, attr0, empty0, concurrency, maxAttribute) == Some((attr, emptyCount))
    ensures emptyCount == empty0 + |hits|
    ensures emptyCount <= MaxEmptyLeaves - 1 + concurrency
    decreases |hits|
  {
    if hits != [] {
      var b := BatchSize(attr0, concurrency, maxAttribute);
      assert NextEmpty(hits[..b], empty0) == empty0 + b;
      EmptySweepStreak(hits[b..], attr0 + b, empty0 + b, concurrency, maxAttribute, attr, emptyCount);
    }
  }

  /** A finished sweep never probes past `maxAttribute`. */
  lemma SweepWithinMax(hits: seq<bool>, concurrency: int, maxAttribute: int)
    requires 1 <= concurrency
    requires SweepEnds(hits, concurrency, maxAttribute)
    ensures hits != [] ==> |hits| <= maxAttribute
  {
    var s := SweepAfter(hits, 1, 0, concurrency, maxAttribute).value;
    SweepAfterShape(hits, 1, 0, concurrency, maxAttribute, s.0, s.1);
  }

  /**
   * A finished sweep in which every probe failed stops after at most
   * `MAX_EMPTY_LEAVES + concurrency - 1` probes, and not before 50 probes unless it
   * reached `maxAttribute`.
   */
  lemma EmptySweepBound(hits: seq<bool>, concurrency: int, maxAttribute: int)
    requires 1 <= concurrency
    requires SweepEnds(hits, concurrency, maxAttribute)
    requires forall i | 0 <= i < |hits| :: !hits[i]
    ensures |hits| <= MaxEmptyLeaves - 1 + concurrency
    ensures |hits| >= MaxEmptyLeaves || |hits| >= maxAttribute
  {
    var s := SweepAfter(hits, 1, 0, concurrency, maxAttribute).value;
    SweepAfterShape(hits, 1, 0, concurrency, maxAttribute, s.0, s.1);
    EmptySweepStreak(hits, 1, 0, concurrency, maxAttribute, s.0, s.1);
  }

  /** The probes of one `explore_unit` call: known attributes first, then the sweep. */
  predicate UnitRun(ps: seq<Probe>, deviceId: string, unit: int, maxAttribute: int, knownOnly: bool,
                    concurrency: int)
    requires 1 <= concurrency
  {
    var known := KnownLeaves(unit);
    && |known| <= |ps|
    && (forall i | 0 <= i < |ps| :: ps[i].deviceId == deviceId && ps[i].unit == unit)
    && (forall i | 0 <= i < |known| :: ps[i].attribute == known[i])
    && (if knownOnly then |ps| == |known|
        else
          var sweep := ps[|known|..];
          && (forall i | 0 <= i < |sweep| :: sweep[i].attribute == i + 1)
          && SweepEnds(Hits(sweep), concurrency, maxAttribute))
  }

  /** With `known_only`, the leaves are exactly the known attributes whose probe hit. */
  lemma KnownOnlyLeaves(ps: seq<Probe>, deviceId: string, unit: int, maxAttribute: int, concurrency: int)
    requires 1 <= concurrency
    requires UnitRun(ps, deviceId, unit, maxAttribute, true, concurrency)
    ensures forall k :: k in Collect(ps) <==>
      exists i | 0 <= i < |KnownLeaves(unit)| :: KnownLeaves(unit)[i] == k && ps[i].result.Some?
  {
    CollectKeys(ps);
  }

  /** Every attribute the sweep probes lies in [1, maxAttribute]. */
  lemma SweepProbesWithinMax(ps: seq<Probe>, deviceId: string, unit: int, maxAttribute: int,
                             concurrency: int)
    requires 1 <= concurrency
    requires UnitRun(ps, deviceId, unit, maxAttribute, false, concurrency)
    ensures forall i | |KnownLeaves(unit)| <= i < |ps| :: 1 <= ps[i].attribute <= maxAttribute
  {
    var sweep := ps[|KnownLeaves(unit)|..];
    SweepWithinMax(Hits(sweep), concurrency, maxAttribute);
    forall i | |KnownLeaves(unit)| <= i < |ps|
      ensures 1 <= ps[i].attribute <= maxAttribute
    {
      assert ps[i] == sweep[i - |KnownLeaves(unit)|];
    }
  }

  // ---------------------------------------------------------------------------
  // The unit order of a device walk
  // ---------------------------------------------------------------------------

  /** The units of `us` that are at most `maxUnit`, in order. */
  function UpTo(us: seq<int>, maxUnit: int): (r: seq<int>)
    ensures forall u :: u in r <==> u in us && u <= maxUnit
  {
    if us == [] then []
    else UpTo(us[..|us| - 1], maxUnit) + (if us[|us| - 1] <= maxUnit then [us[|us| - 1]] else [])
  }

  /** The units 1..n that are not common units, ascending. */
  function OthersUpTo(n: int): (r: seq<int>)
    ensures forall u :: u in r <==> 1 <= u <= n && u !in CommonUnits
    decreases n
  {
    if n < 1 then []
    else OthersUpTo(n - 1) + (if n in CommonUnits then [] else [n])
  }

  /** The order in which `explore_device` walks units. */
  function UnitOrder(maxUnit: int): seq<int> {
    UpTo(CommonUnits, maxUnit) + OthersUpTo(maxUnit)
  }

  predicate Distinct(us: seq<int>) {
    forall i, j | 0 <= i < j < |us| :: us[i] != us[j]
  }

  lemma {:induction false} OthersDistinct(n: int)
    ensures Distinct(OthersUpTo(n))
    ensures forall u | u in OthersUpTo(n) :: u <= n
    decreases n
  {
    if n >= 1 {
      OthersDistinct(n - 1);
    }
  }

  lemma {:induction false} UpToDistinct(us: seq<int>, maxUnit: int)
    requires Distinct(us)
    ensures Distinct(UpTo(us, maxUnit))
  {
    if us != [] {
      var init := us[..|us| - 1];
      assert Distinct(init);
      UpToDistinct(init, maxUnit);
      assert us[|us| - 1] !in init;
    }
  }

  /**
   * A device walk explores every unit of [1, maxUnit] exactly once, common units
   * first.
   */
  lemma UnitOrderVisitsEachOnce(maxUnit: int)
    ensures Distinct(UnitOrder(maxUnit))
    ensures forall u :: u in UnitOrder(maxUnit) <==> 1 <= u <= maxUnit
    ensures forall i | 0 <= i < |UpTo(CommonUnits, maxUnit)| :: UnitOrder(maxUnit)[i] in CommonUnits
  {
    OthersDistinct(maxUnit);
    var c := UpTo(CommonUnits, maxUnit);
    var o := OthersUpTo(maxUnit);
    UpToDistinct(CommonUnits, maxUnit);
    forall i, j | 0 <= i < j < |c + o|
      ensures (c + o)[i] != (c + o)[j]
    {
      if i < |c| && j >= |c| {
        assert (c + o)[i] in c && (c + o)[j] in o;
      }
    }
  }

  // ---------------------------------------------------------------------------
  // Device walk results
  // ---------------------------------------------------------------------------

  function UnitsOf(visits: seq<UnitVisit>): (us: seq<int>)
    ensures |us| == |visits|
    ensures forall i | 0 <= i < |visits| :: us[i] == visits[i].unit
  {
    seq(|visits|, i requires 0 <= i < |visits| => visits[i].unit)
  }

  /** The tree nodes of a walk: one per unit whose leaf map is non-empty. */
  function NodesOf(visits: seq<UnitVisit>): map<int, Node> {
    if visits == [] then map[]
    else
      var m := NodesOf(visits[..|visits| - 1]);
      var last := visits[|visits| - 1];
      if |last.leaves| > 0 then m[last.unit := Node(last.unit, last.leaves)] else m
  }

  /** A node exists exactly for the units whose leaves were found, keyed by its own unit. */
  lemma {:induction false} NodesOfShape(visits: seq<UnitVisit>)
    ensures forall u :: u in NodesOf(visits) <==>
      exists i | 0 <= i < |visits| :: visits[i].unit == u && |visits[i].leaves| > 0
    ensures forall u | u in NodesOf(visits) :: NodesOf(visits)[u].unit == u && |NodesOf(visits)[u].leaves| > 0
  {
    if visits != [] {
      var init := visits[..|visits| - 1];
      NodesOfShape(init);
      forall u | exists i | 0 <= i < |visits| :: visits[i].unit == u && |visits[i].leaves| > 0
        ensures u in NodesOf(visits)
      {
        var i :| 0 <= i < |visits| && visits[i].unit == u && |visits[i].leaves| > 0;
        if i < |init| {
          assert init[i] == visits[i];
        }
      }
      forall u | u in NodesOf(visits)
        ensures exists i | 0 <= i < |visits| :: visits[i].unit == u && |visits[i].leaves| > 0
      {
        var last := visits[|visits| - 1];
        if !(|last.leaves| > 0 && last.unit == u) {
          assert u in NodesOf(init);
          var i :| 0 <= i < |init| && init[i].unit == u && |init[i].leaves| > 0;
          assert visits[i] == init[i];
        }
      }
    }
  }

  /** Total number of leaves over all nodes (`leaves_found`). */
  ghost function TotalLeaves(nodes: map<int, Node>): nat
    decreases |nodes.Keys|
  {
    if nodes.Keys == {} then 0
    else
      HasSomeUnit(nodes);
      var u :| u in nodes.Keys;
      |nodes[u].leaves| + TotalLeaves(nodes - {u})
  }

  lemma HasSomeUnit(nodes: map<int, Node>)
    requires nodes.Keys != {}
    ensures exists u :: u in nodes.Keys
  {
    if forall u :: u !in nodes.Keys {
      assert false;
    }
  }

  /** The total does not depend on which node is counted first. */
  lemma {:induction false} TotalLeavesRemove(nodes: map<int, Node>, u: int)
    requires u in nodes
    ensures TotalLeaves(nodes) == |nodes[u].leaves| + TotalLeaves(nodes - {u})
    decreases |nodes.Keys|
  {
    var v :| v in nodes && TotalLeaves(nodes) == |nodes[v].leaves| + TotalLeaves(nodes - {v});
    if v != u {
      assert (nodes - {v}).Keys == nodes.Keys - {v};
      assert (nodes - {u}).Keys == nodes.Keys - {u};
      TotalLeavesRemove(nodes - {v}, u);
      TotalLeavesRemove(nodes - {u}, v);
      assert nodes - {v} - {u} == nodes - {u} - {v};
    }
  }

  /** Adding a node for a new unit adds its leaves to the total. */
  lemma TotalLeavesAdd(nodes: map<int, Node>, u: int, n: Node)
    requires u !in nodes
    ensures TotalLeaves(nodes[u := n]) == |n.leaves| + TotalLeaves(nodes)
  {
    TotalLeavesRemove(nodes[u := n], u);
    assert nodes[u := n] - {u} == nodes;
  }

  /** The leaves found over a walk, unit by unit. */
  function WalkLeaves(walk: seq<UnitVisit>): nat {
    if walk == [] then 0 else WalkLeaves(walk[..|walk| - 1]) + |walk[|walk| - 1].leaves|
  }

  /**
   * When no unit is visited twice, the leaf total of the tree counts every leaf found
   * during the walk exactly once.
   */
  lemma {:induction false} FoundLeavesOfWalk(walk: seq<UnitVisit>)
    requires Distinct(UnitsOf(walk))
    ensures TotalLeaves(NodesOf(walk)) == WalkLeaves(walk)
  {
    if walk != [] {
      var init := walk[..|walk| - 1];
      var last := walk[|walk| - 1];
      assert Distinct(UnitsOf(init)) by {
        forall i, j | 0 <= i < j < |init| ensures UnitsOf(init)[i] != UnitsOf(init)[j] {
          assert UnitsOf(walk)[i] != UnitsOf(walk)[j];
        }
      }
      FoundLeavesOfWalk(init);
      if |last.leaves| > 0 {
        NodesOfShape(init);
        TotalLeavesAdd(NodesOf(init), last.unit, Node(last.unit, last.leaves));
      }
    }
  }

  /** The leaf total of `explore_device` is the sum of the leaves found unit by unit. */
  lemma DeviceLeafTotal(walk: seq<UnitVisit>, maxUnit: int)
    requires UnitsOf(walk) == UnitOrder(maxUnit)
    ensures TotalLeaves(NodesOf(walk)) == WalkLeaves(walk)
  {
    UnitOrderVisitsEachOnce(maxUnit);
    FoundLeavesOfWalk(walk);
  }

  /** The probes of a walk's unit runs, one run after another. */
  function Flatten(runs: seq<seq<Probe>>): seq<Probe> {
    if runs == [] then [] else Flatten(runs[..|runs| - 1]) + runs[|runs| - 1]
  }

  /**
   * Each visit of a walk is one complete `explore_unit` run over its own probes, and its
   * leaf map is exactly the hits among them.
   */
  predicate WalkRuns(walk: seq<UnitVisit>, runs: seq<seq<Probe>>, maxAttribute: int, knownOnly: bool,
                     concurrency: int)
    requires 1 <= concurrency
  {
    && |walk| == |runs|
    && forall i | 0 <= i < |walk| ::
         && UnitRun(runs[i], walk[i].deviceId, walk[i].unit, maxAttribute, knownOnly, concurrency)
         && walk[i].leaves == Collect(runs[i])
  }

  /** One more visit, justified by its own run. */
  lemma WalkRunsStep(walk: seq<UnitVisit>, runs: seq<seq<Probe>>, v: UnitVisit, run: seq<Probe>,
                     maxAttribute: int, knownOnly: bool, concurrency: int)
    requires 1 <= concurrency
    requires WalkRuns(walk, runs, maxAttribute, knownOnly, concurrency)
    requires UnitRun(run, v.deviceId, v.unit, maxAttribute, knownOnly, concurrency) && v.leaves == Collect(run)
    ensures WalkRuns(walk + [v], runs + [run], maxAttribute, knownOnly, concurrency)
    ensures Flatten(runs + [run]) == Flatten(runs) + run
  {
    assert (runs + [run])[..|runs|] == runs;
  }

  /** Each node of a walk holds the leaf map of some visit to its unit. */
  lemma {:induction false} NodeOfVisit(visits: seq<UnitVisit>)
    ensures forall u | u in NodesOf(visits) ::
      exists i | 0 <= i < |visits| :: visits[i].unit == u && visits[i].leaves == NodesOf(visits)[u].leaves
  {
    if visits != [] {
      var init := visits[..|visits| - 1];
      var last := visits[|visits| - 1];
      NodeOfVisit(init);
      forall u | u in NodesOf(visits)
        ensures exists i | 0 <= i < |visits| :: visits[i].unit == u && visits[i].leaves == NodesOf(visits)[u].leaves
      {
        if |last.leaves| > 0 && last.unit == u {
          assert visits[|visits| - 1].unit == u;
        } else {
          assert u in NodesOf(init) && NodesOf(visits)[u] == NodesOf(init)[u];
          var i :| 0 <= i < |init| && init[i].unit == u && init[i].leaves == NodesOf(init)[u].leaves;
          assert visits[i] == init[i];
        }
      }
    }
  }

  /**
   * Every leaf of the device tree is the value some probe of that unit and attribute
   * returned during the walk.
   */
  lemma TreeLeavesProbed(walk: seq<UnitVisit>, runs: seq<seq<Probe>>, maxAttribute: int, knownOnly: bool,
                         concurrency: int)
    requires 1 <= concurrency
    requires WalkRuns(walk, runs, maxAttribute, knownOnly, concurrency)
    ensures forall u, a | u in NodesOf(walk) && a in NodesOf(walk)[u].leaves ::
      exists i, j | 0 <= i < |runs| && 0 <= j < |runs[i]| ::
        runs[i][j] == Probe(walk[i].deviceId, u, a, Some(NodesOf(walk)[u].leaves[a]))
  {
    NodeOfVisit(walk);
    forall u, a | u in NodesOf(walk) && a in NodesOf(walk)[u].leaves
      ensures exists i, j | 0 <= i < |runs| && 0 <= j < |runs[i]| ::
        runs[i][j] == Probe(walk[i].deviceId, u, a, Some(NodesOf(walk)[u].leaves[a]))
    {
      var i :| 0 <= i < |walk| && walk[i].unit == u && walk[i].leaves == NodesOf(walk)[u].leaves;
      CollectKeys(runs[i]);
      var j :| 0 <= j < |runs[i]| && runs[i][j].attribute == a && runs[i][j].result == Some(Collect(runs[i])[a]);
      assert runs[i][j].deviceId == walk[i].deviceId && runs[i][j].unit == walk[i].unit;
    }
  }

  // ---------------------------------------------------------------------------
  // Tree comparison
  // ---------------------------------------------------------------------------

  /** The result of `compare_trees`; each Python list becomes a set. */
  datatype TreeDiff = TreeDiff(
    deviceIds: (string, string),
    generations: (Generation, Generation),
    unitsOnlyIn1: set<int>,
    unitsOnlyIn2: set<int>,
    commonUnits: set<int>,
    leavesOnlyIn1: map<int, set<int>>,
    leavesOnlyIn2: map<int, set<int>>,
    commonLeaves: map<int, set<int>>,
    differentValues: map<int, set<int>>)

  function LeafKeys(t: Tree, u: int): set<int>
    requires u in t.nodes
  {
    t.nodes[u].leaves.Keys
  }

  /** Units of `t1` that `t2` lacks. */
  function OnlyUnits(t1: Tree, t2: Tree): set<int> {
    set u | u in t1.nodes && u !in t2.nodes
  }

  function SharedUnits(t1: Tree, t2: Tree): set<int> {
    set u | u in t1.nodes && u in t2.nodes
  }

  /** Per shared unit, the attributes only `t1` has; units with none are omitted. */
  function OnlyLeaves(t1: Tree, t2: Tree): map<int, set<int>> {
    map u | u in SharedUnits(t1, t2) && LeafKeys(t1, u) - LeafKeys(t2, u) != {} :: LeafKeys(t1, u) - LeafKeys(t2, u)
  }

  /** Per shared unit, the attributes both have; units with none are omitted. */
  function SharedLeaves(t1: Tree, t2: Tree): map<int, set<int>> {
    map u | u in SharedUnits(t1, t2) && LeafKeys(t1, u) * LeafKeys(t2, u) != {} :: LeafKeys(t1, u) * LeafKeys(t2, u)
  }

  function ChangedLeaves(t1: Tree, t2: Tree, u: int): set<int>
    requires u in t1.nodes && u in t2.nodes
  {
    set a | a in LeafKeys(t1, u) && a in LeafKeys(t2, u) && t1.nodes[u].leaves[a] != t2.nodes[u].leaves[a]
  }

  /** Per shared unit, the shared attributes whose values differ; units with none are omitted. */
  function ChangedByUnit(t1: Tree, t2: Tree): map<int, set<int>> {
    map u | u in SharedUnits(t1, t2) && ChangedLeaves(t1, t2, u) != {} :: ChangedLeaves(t1, t2, u)
  }

  /** `compare_trees`. */
  function CompareTrees(t1: Tree, t2: Tree): (d: TreeDiff)
    ensures d.unitsOnlyIn1 + d.commonUnits == t1.nodes.Keys && d.unitsOnlyIn1 !! d.commonUnits
    ensures d.unitsOnlyIn2 + d.commonUnits == t2.nodes.Keys && d.unitsOnlyIn2 !! d.commonUnits
    ensures d.unitsOnlyIn1 !! t2.nodes.Keys && d.unitsOnlyIn2 !! t1.nodes.Keys
  {
    TreeDiff((t1.deviceId, t2.deviceId), (t1.generation, t2.generation),
             OnlyUnits(t1, t2), OnlyUnits(t2, t1), SharedUnits(t1, t2),
             OnlyLeaves(t1, t2), OnlyLeaves(t2, t1), SharedLeaves(t1, t2), ChangedByUnit(t1, t2))
  }

  /** Within a shared unit, the attributes split into only-left, only-right and common. */
  lemma CompareTreesLeaves(t1: Tree, t2: Tree, u: int)
    requires u in CompareTrees(t1, t2).commonUnits
    ensures var d := CompareTrees(t1, t2);
      && (u in d.leavesOnlyIn1 <==> LeafKeys(t1, u) - LeafKeys(t2, u) != {})
      && (u in d.leavesOnlyIn1 ==> d.leavesOnlyIn1[u] == LeafKeys(t1, u) - LeafKeys(t2, u))
      && (u in d.leavesOnlyIn2 <==> LeafKeys(t2, u) - LeafKeys(t1, u) != {})
      && (u in d.leavesOnlyIn2 ==> d.leavesOnlyIn2[u] == LeafKeys(t2, u) - LeafKeys(t1, u))
      && (u in d.commonLeaves <==> LeafKeys(t1, u) * LeafKeys(t2, u) != {})
      && (u in d.commonLeaves ==> d.commonLeaves[u] == LeafKeys(t1, u) * LeafKeys(t2, u))
  {
  }

  /** `different_values` lists exactly the common attributes with unequal values, and omits empty lists. */
  lemma CompareTreesValues(t1: Tree, t2: Tree, u: int)
    requires u in CompareTrees(t1, t2).commonUnits
    ensures var d := CompareTrees(t1, t2);
      && (u in d.differentValues ==> d.differentValues[u] != {} && d.differentValues[u] <= LeafKeys(t1, u) * LeafKeys(t2, u))
      && forall a | a in LeafKeys(t1, u) * LeafKeys(t2, u) ::
           (u in d.differentValues && a in d.differentValues[u]) <==> t1.nodes[u].leaves[a] != t2.nodes[u].leaves[a]
  {
    var c := ChangedLeaves(t1, t2, u);
    forall a | a in LeafKeys(t1, u) * LeafKeys(t2, u)
      ensures (u in ChangedByUnit(t1, t2) && a in ChangedByUnit(t1, t2)[u])
              <==> t1.nodes[u].leaves[a] != t2.nodes[u].leaves[a]
    {
      if t1.nodes[u].leaves[a] != t2.nodes[u].leaves[a] {
        assert a in c;
      }
    }
  }

  /** A tree compared with itself shows no unit or leaf on one side only and no changed value. */
  lemma CompareWithSelf(t: Tree)
    ensures var d := CompareTrees(t, t);
      d.unitsOnlyIn1 == {} && d.unitsOnlyIn2 == {} && d.commonUnits == t.nodes.Keys
      && d.leavesOnlyIn1 == map[] && d.leavesOnlyIn2 == map[] && d.differentValues == map[]
  {
    var d := CompareTrees(t, t);
    assert d.unitsOnlyIn1 == {};
    assert d.unitsOnlyIn2 == {};
  }

  /** Swapping the trees swaps the one-sided parts and keeps the shared parts. */
  lemma CompareSymmetric(t1: Tree, t2: Tree)
    ensures var d := CompareTrees(t1, t2); var e := CompareTrees(t2, t1);
      && e.unitsOnlyIn1 == d.unitsOnlyIn2 && e.unitsOnlyIn2 == d.unitsOnlyIn1
      && e.commonUnits == d.commonUnits
      && e.leavesOnlyIn1 == d.leavesOnlyIn2 && e.leavesOnlyIn2 == d.leavesOnlyIn1
      && e.commonLeaves == d.commonLeaves && e.differentValues == d.differentValues
  {
    assert SharedUnits(t2, t1) == SharedUnits(t1, t2);
    forall u | u in SharedUnits(t1, t2)
      ensures LeafKeys(t2, u) * LeafKeys(t1, u) == LeafKeys(t1, u) * LeafKeys(t2, u)
    {
    }
    assert SharedLeaves(t2, t1) == SharedLeaves(t1, t2);
    forall u | u in SharedUnits(t1, t2)
      ensures ChangedLeaves(t2, t1, u) == ChangedLeaves(t1, t2, u)
    {
    }
    assert ChangedByUnit(t2, t1) == ChangedByUnit(t1, t2);
  }
}

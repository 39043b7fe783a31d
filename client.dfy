/**
 * `DOP2Client` (asyncmiele/dop2/client.py): leaf reads and writes over the appliance's
 * HTTP transport, the SF-value write payload, settings with their range guard, generation
 * detection by probing, consumption statistics and the start of the primary program
 * catalog.
 *
 * The transport (`MieleClient._get_raw` / `_put_request`) and the generation detector
 * (asyncmiele/dop2/generation.py, which is not part of this model) are collaborators: the
 * transport answers from oracles indexed by the position of the request in its log, and
 * the detector keeps the set of registered (device, unit, attribute) triples and turns a
 * device's leaves into a generation with a function it is given.
 */
module Dop2Client {
  import opened Wrappers
  import opened BinaryPrimitives
  import opened Dop2Models
  import opened LeafParser
  import opened LeafPath

  /** A request handed to the transport. */
  datatype Request = Get(path: string) | Put(path: string, payload: Bytes)

  class Transport {
    /** Every request sent, in order. */
    var log: seq<Request>
    /** The bytes `_get_raw` returns for the n-th request, or `None` where it raises. */
    const getAnswer: (nat, string) -> Option<Bytes>
    /** Whether `_put_request` returns normally for the n-th request. */
    const putAccepted: (nat, string, Bytes) -> bool

    constructor(getAnswer: (nat, string) -> Option<Bytes>, putAccepted: (nat, string, Bytes) -> bool)
      ensures log == [] && this.getAnswer == getAnswer && this.putAccepted == putAccepted
    {
      log := [];
      this.getAnswer := getAnswer;
      this.putAccepted := putAccepted;
    }

    /** The answer the next GET of `path` will receive. */
    function NextAnswer(path: string): Option<Bytes>
      reads this
    {
      getAnswer(|log|, path)
    }

    method GetRaw(path: string) returns (r: Option<Bytes>)
      modifies this
      ensures log == old(log) + [Get(path)]
      ensures r == old(NextAnswer(path))
    {
      r := getAnswer(|log|, path);
      log := log + [Get(path)];
    }

    method PutRequest(path: string, payload: Bytes) returns (ok: bool)
      modifies this
      ensures log == old(log) + [Put(path, payload)]
      ensures ok == putAccepted(|old(log)|, path, payload)
    {
      ok := putAccepted(|log|, path, payload);
      log := log + [Put(path, payload)];
    }
  }

  class GenerationDetector {
    /** `register_leaf` calls so far. */
    var registered: set<(string, int, int)>
    /** How the detector decides a generation from a device's leaves. */
    const classify: set<(int, int)> -> Generation

    constructor(classify: set<(int, int)> -> Generation)
      ensures registered == {} && this.classify == classify
    {
      registered := {};
      this.classify := classify;
    }

    method RegisterLeaf(deviceId: string, unit: int, attribute: int)
      modifies this
      ensures registered == old(registered) + {(deviceId, unit, attribute)}
    {
      registered := registered + {(deviceId, unit, attribute)};
    }

    /** `get_available_leaves`: the (unit, attribute) pairs registered for the device. */
    function AvailableLeaves(deviceId: string): (r: set<(int, int)>)
      reads this
      ensures forall u: int, a: int :: (u, a) in r <==> (deviceId, u, a) in registered
    {
      set t | t in registered && t.0 == deviceId :: (t.1, t.2)
    }

    /** `detect_generation`. */
    function DetectGeneration(deviceId: string): Generation
      reads this
    {
      classify(AvailableLeaves(deviceId))
    }
  }

  /** The exceptions of the client, one per raise site. */
  datatype ClientError =
    | RequestFailed
    | ParseFailed(parseError: ParseError)
    | NotSFValue
    | OutOfRange(value: int, range: (int, int))
    | NotU16(value: int)
    | InvalidFormat

  // Leaves the client addresses.
  const LeafCombinedState := (2, 256)
  const LeafSfValue := (2, 105)
  const LeafProgramList := (2, 1584)
  const LeafHoursOfOperation := (2, 119)
  const LeafCycleCounter := (2, 138)
  const LeafConsumptionStats := (2, 6195)
  const LeafSemiproConfig := (3, 1000)
  const LeafLegacyProgramList := (14, 1570)

  /** The leaves `detect_generation` probes, in order. */
  const GenerationProbes: seq<(int, int)> := [LeafCombinedState, LeafLegacyProgramList, LeafSemiproConfig]

  function LeafPathOf(deviceId: string, leaf: (int, int), idx1: int): string {
    BuildLeafPath(deviceId, leaf.0, leaf.1, idx1, 0)
  }

  /** `get_parsed` for a given transport answer. */
  function ReadOutcome(unit: int, attribute: int, answer: Option<Bytes>): (r: Result<LeafValue, ClientError>)
    ensures r.Ok? <==> answer.Some? && ParseLeaf(unit, attribute, answer.value).Ok?
    ensures r.Ok? ==> r.value == ParseLeaf(unit, attribute, answer.value).value
    ensures answer.None? ==> r == Err(RequestFailed)
  {
    match answer
    case None => Err(RequestFailed)
    case Some(payload) =>
      match ParseLeaf(unit, attribute, payload)
      case Ok(v) => Ok(v)
      case Err(e) => Err(ParseFailed(e))
  }

  /** `get_setting` after its read: only an SF value is accepted. */
  function SettingOf(parsed: Result<LeafValue, ClientError>): (r: Result<SFValue, ClientError>)
    ensures r.Ok? <==> parsed.Ok? && parsed.value.Setting?
    ensures r.Ok? ==> r.value == parsed.value.sf
    ensures parsed.Err? ==> r == Err(parsed.error)
  {
    match parsed
    case Err(e) => Err(e)
    case Ok(v) => if v.Setting? then Ok(v.sf) else Err(NotSFValue)
  }

  /**
   * A setting read succeeds exactly when the transport answers with at least ten bytes,
   * and then carries the five big-endian fields; the "not an SFValue" error cannot
   * arise, since leaf 2/105 always decodes to one.
   */
  lemma SettingReadIff(answer: Option<Bytes>)
    ensures var r := SettingOf(ReadOutcome(2, 105, answer));
      && (r.Ok? <==> answer.Some? && |answer.value| >= 10)
      && (r.Ok? ==> r.value == SFValue(
            U16(answer.value[0], answer.value[1]), U16(answer.value[2], answer.value[3]),
            U16(answer.value[4], answer.value[5]), U16(answer.value[6], answer.value[7]),
            U16(answer.value[8], answer.value[9])))
      && r != Err(NotSFValue)
  {
  }

  /** `build_sf_value_payload`: `write_u16(sf_id) + write_u16(value)`. */
  function SfValuePayload(sfId: int, value: int): (r: Result<Bytes, ClientError>)
    ensures r.Ok? <==> IsU16(sfId) && IsU16(value)
    ensures r.Ok? ==>
      |r.value| == 4 && U16(r.value[0], r.value[1]) == sfId && U16(r.value[2], r.value[3]) == value
    ensures !IsU16(sfId) ==> r == Err(NotU16(sfId))
    ensures IsU16(sfId) && !IsU16(value) ==> r == Err(NotU16(value))
  {
    if !IsU16(sfId) then Err(NotU16(sfId))
    else if !IsU16(value) then Err(NotU16(value))
    else
      U16OfBe16(sfId);
      U16OfBe16(value);
      Ok(Be16(sfId) + Be16(value))
  }

  /** SF id 100 with value 15 is `00 64 00 0F`. */
  lemma SfValuePayloadExample()
    ensures SfValuePayload(100, 15) == Ok([0x00, 0x64, 0x00, 0x0F])
  {
    assert Be16(100) == [0x00, 0x64] && Be16(15) == [0x00, 0x0F];
    assert SfValuePayload(100, 15).value == [0x00, 0x64] + [0x00, 0x0F] == [0x00, 0x64, 0x00, 0x0F];
  }

  /** The triples a run of probes registers: those whose read was answered. */
  function ProbeHits(deviceId: string, start: nat, getAnswer: (nat, string) -> Option<Bytes>): set<(string, int, int)> {
    HitsFrom(deviceId, start, GenerationProbes, getAnswer)
  }

  /** The leaves among `probes` that answered, the first probe being request number `start`. */
  function HitsFrom(deviceId: string, start: nat, probes: seq<(int, int)>, getAnswer: (nat, string) -> Option<Bytes>)
    : set<(string, int, int)>
    decreases |probes|
  {
    if probes == [] then {}
    else
      (if getAnswer(start, LeafPathOf(deviceId, probes[0], 0)).Some? then {(deviceId, probes[0].0, probes[0].1)} else {})
      + HitsFrom(deviceId, start + 1, probes[1..], getAnswer)
  }

  /**
   * `get_consumption_stats` as written keeps a reading only when it is an instance of
   * the record classes HoursOfOperation, CycleCounter or ProcessData. `parse_leaf`
   * builds none of them (it returns a bare integer for 2/119 and 2/138 and a dict for
   * 2/6195), so no parsed leaf passes the test.
   */
  datatype StatsRecord =
    | HoursOfOperation(totalHours: int)
    | CycleCounter(totalCycles: int)
    | ProcessData(energyWh: int, waterL: int)

  /** What the `isinstance` tests see of a parsed leaf: never one of the records. */
  function RecordOf(v: LeafValue): Option<StatsRecord> {
    match v
    case CombinedState(_) => None
    case Setting(_) => None
    case Counter(_) => None
    case ProcessTotals(_, _) => None
    case Raw(_) => None
  }

  function RecordOfRead(parsed: Result<LeafValue, ClientError>): Option<StatsRecord> {
    if parsed.Ok? then RecordOf(parsed.value) else None
  }

  /** The statistics `get_consumption_stats` returns, as written. */
  function ConsumptionAsWritten(hours: Result<LeafValue, ClientError>, cycles: Result<LeafValue, ClientError>,
                                process: Result<LeafValue, ClientError>): ConsumptionStats
  {
    ConsumptionStats(
      match RecordOfRead(hours) case Some(HoursOfOperation(h)) => Some(h) case _ => None,
      match RecordOfRead(cycles) case Some(CycleCounter(c)) => Some(c) case _ => None,
      match RecordOfRead(process) case Some(ProcessData(e, _)) => Some(e) case _ => None,
      match RecordOfRead(process) case Some(ProcessData(_, w)) => Some(w) case _ => None)
  }

  /** The statistics the method evidently means: each field from its own decoded leaf. */
  function ConsumptionFromLeaves(hours: Result<LeafValue, ClientError>, cycles: Result<LeafValue, ClientError>,
                                 process: Result<LeafValue, ClientError>): ConsumptionStats
  {
    ConsumptionStats(
      match hours case Ok(Counter(h)) => Some(h) case _ => None,
      match cycles case Ok(Counter(c)) => Some(c) case _ => None,
      match process case Ok(ProcessTotals(e, _)) => Some(e) case _ => None,
      match process case Ok(ProcessTotals(_, w)) => Some(w) case _ => None)
  }

  /** As written, every field is None whatever the appliance answers. */
  lemma ConsumptionAsWrittenIsEmpty(hours: Result<LeafValue, ClientError>, cycles: Result<LeafValue, ClientError>,
                                    process: Result<LeafValue, ClientError>)
    ensures ConsumptionAsWritten(hours, cycles, process) == ConsumptionStats(None, None, None, None)
  {
  }

  /**
   * The counterexample: the leaf 2/119 answers `00 00 03 E8` and decodes to 1000 hours,
   * yet the written method reports no hours; the corrected reading reports 1000.
   */
  lemma ConsumptionDropsHours(cycles: Result<LeafValue, ClientError>, process: Result<LeafValue, ClientError>)
    ensures ReadOutcome(2, 119, Some([0x00, 0x00, 0x03, 0xE8])) == Ok(Counter(1000))
    ensures ConsumptionAsWritten(ReadOutcome(2, 119, Some([0x00, 0x00, 0x03, 0xE8])), cycles, process).hoursOfOperation == None
    ensures ConsumptionFromLeaves(ReadOutcome(2, 119, Some([0x00, 0x00, 0x03, 0xE8])), cycles, process).hoursOfOperation == Some(1000)
  {
  }

  /**
   * Corrected statistics: a field is present exactly when its own read is answered with
   * enough bytes, it carries the big-endian value, and it does not depend on the other
   * reads.
   */
  lemma ConsumptionPerField(h: Option<Bytes>, c: Option<Bytes>, p: Option<Bytes>)
    ensures var s := ConsumptionFromLeaves(ReadOutcome(2, 119, h), ReadOutcome(2, 138, c), ReadOutcome(2, 6195, p));
      && (s.hoursOfOperation.Some? <==> h.Some? && |h.value| >= 4)
      && (s.hoursOfOperation.Some? ==> s.hoursOfOperation.value == U32(h.value[0], h.value[1], h.value[2], h.value[3]))
      && (s.cyclesCompleted.Some? <==> c.Some? && |c.value| >= 4)
      && (s.cyclesCompleted.Some? ==> s.cyclesCompleted.value == U32(c.value[0], c.value[1], c.value[2], c.value[3]))
      && (s.energyWhTotal.Some? <==> p.Some? && |p.value| >= 8)
      && (s.waterLTotal.Some? <==> p.Some? && |p.value| >= 8)
      && (s.energyWhTotal.Some? ==>
            s.energyWhTotal.value == U32(p.value[0], p.value[1], p.value[2], p.value[3])
            && s.waterLTotal.value == U32(p.value[4], p.value[5], p.value[6], p.value[7]))
  {
  }

  /** What `_get_program_catalog_primary` can find in the parsed 2/1584 leaf. */
  datatype ProgramListing =
    | NotAMapping
    /** A dict; `None` when it has no "programIds" key. */
    | Mapping(programIds: Option<seq<int>>)

  /** `parse_leaf` has no decoder for 2/1584: the leaf comes back as raw bytes, not a dict. */
  function ListingOf(v: LeafValue): ProgramListing {
    NotAMapping
  }

  /** How the primary catalog goes on: an empty catalog, or per-program reads. */
  datatype CatalogStart =
    /** `{"device_type": "unknown", "programs": []}` */
    | EmptyCatalog
    | ReadPrograms(programIds: seq<int>)

  /** The checks at the head of `_get_program_catalog_primary`. */
  function PrimaryCatalogStart(listing: ProgramListing): (r: Result<CatalogStart, ClientError>)
    ensures r == Err(InvalidFormat) <==> listing.NotAMapping? || listing.programIds.None?
    ensures r == Ok(EmptyCatalog) <==> listing.Mapping? && listing.programIds == Some([])
    ensures r.Ok? && r.value.ReadPrograms? ==> listing == Mapping(Some(r.value.programIds)) && r.value.programIds != []
  {
    match listing
    case NotAMapping => Err(InvalidFormat)
    case Mapping(None) => Err(InvalidFormat)
    case Mapping(Some(ids)) => if ids == [] then Ok(EmptyCatalog) else Ok(ReadPrograms(ids))
  }

  class Dop2Client {
    const transport: Transport
    const detector: GenerationDetector

    constructor(transport: Transport, detector: GenerationDetector)
      ensures this.transport == transport && this.detector == detector
    {
      this.transport := transport;
      this.detector := detector;
    }

    /**
     * `read_leaf`: one GET of the leaf path; the leaf is registered with the detector
     * only when the read returned.
     */
    method ReadLeaf(deviceId: string, unit: int, attribute: int, idx1: int, idx2: int) returns (r: Option<Bytes>)
      modifies transport, detector
      ensures transport.log == old(transport.log) + [Get(BuildLeafPath(deviceId, unit, attribute, idx1, idx2))]
      ensures r == old(transport.NextAnswer(BuildLeafPath(deviceId, unit, attribute, idx1, idx2)))
      ensures detector.registered ==
        if r.Some? then old(detector.registered) + {(deviceId, unit, attribute)} else old(detector.registered)
    {
      var path := BuildLeafPath(deviceId, unit, attribute, idx1, idx2);
      r := transport.GetRaw(path);
      if r.Some? {
        detector.RegisterLeaf(deviceId, unit, attribute);
      }
    }

    /** `write_leaf`: one PUT; registered only when the request returned. */
    method WriteLeaf(deviceId: string, unit: int, attribute: int, payload: Bytes, idx1: int, idx2: int)
      returns (ok: bool)
      modifies transport, detector
      ensures transport.log == old(transport.log) + [Put(BuildLeafPath(deviceId, unit, attribute, idx1, idx2), payload)]
      ensures ok == transport.putAccepted(|old(transport.log)|, BuildLeafPath(deviceId, unit, attribute, idx1, idx2), payload)
      ensures detector.registered ==
        if ok then old(detector.registered) + {(deviceId, unit, attribute)} else old(detector.registered)
    {
      var path := BuildLeafPath(deviceId, unit, attribute, idx1, idx2);
      ok := transport.PutRequest(path, payload);
      if ok {
        detector.RegisterLeaf(deviceId, unit, attribute);
      }
    }

    /** `get_parsed`: read, then decode with `parse_leaf`. */
    method GetParsed(deviceId: string, unit: int, attribute: int, idx1: int, idx2: int)
      returns (r: Result<LeafValue, ClientError>)
      modifies transport, detector
      ensures transport.log == old(transport.log) + [Get(BuildLeafPath(deviceId, unit, attribute, idx1, idx2))]
      ensures r == ReadOutcome(unit, attribute, old(transport.NextAnswer(BuildLeafPath(deviceId, unit, attribute, idx1, idx2))))
      ensures detector.registered ==
        if old(transport.NextAnswer(BuildLeafPath(deviceId, unit, attribute, idx1, idx2))).Some?
        then old(detector.registered) + {(deviceId, unit, attribute)} else old(detector.registered)
    {
      var raw := ReadLeaf(deviceId, unit, attribute, idx1, idx2);
      r := ReadOutcome(unit, attribute, raw);
    }

    /** `get_setting`: the leaf 2/105 with the SF id as first index. */
    method GetSetting(deviceId: string, sfId: int) returns (r: Result<SFValue, ClientError>)
      modifies transport, detector
      ensures transport.log == old(transport.log) + [Get(LeafPathOf(deviceId, LeafSfValue, sfId))]
      ensures r == SettingOf(ReadOutcome(2, 105, old(transport.NextAnswer(LeafPathOf(deviceId, LeafSfValue, sfId)))))
      ensures detector.registered ==
        if old(transport.NextAnswer(LeafPathOf(deviceId, LeafSfValue, sfId))).Some?
        then old(detector.registered) + {(deviceId, 2, 105)} else old(detector.registered)
    {
      var parsed := GetParsed(deviceId, 2, 105, sfId, 0);
      r := SettingOf(parsed);
    }

    /**
     * `set_setting`: read the setting, refuse a value outside [minimum, maximum] without
     * writing, otherwise PUT the SF-value payload to 2/105 with the SF id as first index.
     */
    method SetSetting(deviceId: string, sfId: int, newValue: int) returns (r: Result<(), ClientError>)
      modifies transport, detector
      ensures var path := LeafPathOf(deviceId, LeafSfValue, sfId);
        var setting := SettingOf(ReadOutcome(2, 105, old(transport.NextAnswer(path))));
        var payload := SfValuePayload(sfId, newValue);
        && (setting.Err? ==> r == Err(setting.error) && transport.log == old(transport.log) + [Get(path)])
        && (setting.Ok? && !(setting.value.minimum <= newValue <= setting.value.maximum) ==>
              r == Err(OutOfRange(newValue, setting.value.Range())) && transport.log == old(transport.log) + [Get(path)])
        && (setting.Ok? && setting.value.minimum <= newValue <= setting.value.maximum && payload.Err? ==>
              r == Err(payload.error) && transport.log == old(transport.log) + [Get(path)])
        && (setting.Ok? && setting.value.minimum <= newValue <= setting.value.maximum && payload.Ok? ==>
              transport.log == old(transport.log) + [Get(path), Put(path, payload.value)]
              && (r.Ok? <==> transport.putAccepted(|old(transport.log)| + 1, path, payload.value)))
      ensures detector.registered ==
        if old(transport.NextAnswer(LeafPathOf(deviceId, LeafSfValue, sfId))).Some?
        then old(detector.registered) + {(deviceId, 2, 105)} else old(detector.registered)
    {
      var sf := GetSetting(deviceId, sfId);
      if sf.Err? {
        return Err(sf.error);
      }
      if !(sf.value.minimum <= newValue <= sf.value.maximum) {
        return Err(OutOfRange(newValue, sf.value.Range()));
      }
      var payload := SfValuePayload(sfId, newValue);
      if payload.Err? {
        return Err(payload.error);
      }
      var ok := WriteLeaf(deviceId, 2, 105, payload.value, sfId, 0);
      r := if ok then Ok(()) else Err(RequestFailed);
    }

    /** The three probes of `detect_generation`, each failure swallowed. */
    method ProbeGenerationLeaves(deviceId: string)
      modifies transport, detector
      ensures transport.log == old(transport.log) + [
        Get(LeafPathOf(deviceId, GenerationProbes[0], 0)),
        Get(LeafPathOf(deviceId, GenerationProbes[1], 0)),
        Get(LeafPathOf(deviceId, GenerationProbes[2], 0))]
      ensures detector.registered == old(detector.registered) + ProbeHits(deviceId, |old(transport.log)|, transport.getAnswer)
    {
      ghost var start := |transport.log|;
      var _ := ReadLeaf(deviceId, 2, 256, 0, 0);
      var _ := ReadLeaf(deviceId, 14, 1570, 0, 0);
      var _ := ReadLeaf(deviceId, 3, 1000, 0, 0);
      ProbeHitsAt(deviceId, start, transport.getAnswer);
    }

    /**
     * `detect_generation`: with leaves already registered for the device, no request is
     * made; otherwise exactly the three probes, in order, and the detector decides on
     * what they registered, which are only probed leaves.
     */
    method DetectGeneration(deviceId: string) returns (g: Generation)
      modifies transport, detector
      ensures old(detector.AvailableLeaves(deviceId)) != {} ==>
        transport.log == old(transport.log) && detector.registered == old(detector.registered)
        && g == detector.classify(old(detector.AvailableLeaves(deviceId)))
      ensures old(detector.AvailableLeaves(deviceId)) == {} ==>
        transport.log == old(transport.log) + [
          Get(LeafPathOf(deviceId, LeafCombinedState, 0)),
          Get(LeafPathOf(deviceId, LeafLegacyProgramList, 0)),
          Get(LeafPathOf(deviceId, LeafSemiproConfig, 0))]
        && detector.registered == old(detector.registered) + ProbeHits(deviceId, |old(transport.log)|, transport.getAnswer)
        && detector.AvailableLeaves(deviceId) <= {LeafCombinedState, LeafLegacyProgramList, LeafSemiproConfig}
        && g == detector.classify(detector.AvailableLeaves(deviceId))
    {
      if detector.AvailableLeaves(deviceId) != {} {
        g := detector.DetectGeneration(deviceId);
        return;
      }
      ghost var before := detector.registered;
      ghost var start := |transport.log|;
      ProbeGenerationLeaves(deviceId);
      ProbeHitsAt(deviceId, start, transport.getAnswer);
      ProbedLeavesOnly(deviceId, before, detector.registered - before, detector.AvailableLeaves(deviceId));
      g := detector.DetectGeneration(deviceId);
    }

    /**
     * `get_consumption_stats`: the three reads, each failure swallowed, and the
     * statistics as written (see `ConsumptionAsWritten`).
     */
    method GetConsumptionStats(deviceId: string) returns (stats: ConsumptionStats)
      modifies transport, detector
      ensures transport.log == old(transport.log) + [
        Get(LeafPathOf(deviceId, LeafHoursOfOperation, 0)),
        Get(LeafPathOf(deviceId, LeafCycleCounter, 0)),
        Get(LeafPathOf(deviceId, LeafConsumptionStats, 0))]
      ensures var n := |old(transport.log)|;
        stats == ConsumptionAsWritten(
          ReadOutcome(2, 119, transport.getAnswer(n, LeafPathOf(deviceId, LeafHoursOfOperation, 0))),
          ReadOutcome(2, 138, transport.getAnswer(n + 1, LeafPathOf(deviceId, LeafCycleCounter, 0))),
          ReadOutcome(2, 6195, transport.getAnswer(n + 2, LeafPathOf(deviceId, LeafConsumptionStats, 0))))
      ensures detector.registered == old(detector.registered) + HitsFrom(deviceId, |old(transport.log)|,
        [LeafHoursOfOperation, LeafCycleCounter, LeafConsumptionStats], transport.getAnswer)
    {
      ghost var start := |transport.log|;
      var hours := GetParsed(deviceId, 2, 119, 0, 0);
      var cycles := GetParsed(deviceId, 2, 138, 0, 0);
      var process := GetParsed(deviceId, 2, 6195, 0, 0);
      stats := ConsumptionAsWritten(hours, cycles, process);
      HitsOfThree(deviceId, start, LeafHoursOfOperation, LeafCycleCounter, LeafConsumptionStats, transport.getAnswer);
    }

    /**
     * The head of `_get_program_catalog_primary`: the 2/1584 read, then the checks. The
     * leaf never decodes to a dict, so this path always raises and `get_program_catalog`
     * always falls back to the legacy leaves.
     */
    method ProgramCatalogPrimary(deviceId: string) returns (r: Result<CatalogStart, ClientError>)
      modifies transport, detector
      ensures transport.log == old(transport.log) + [Get(LeafPathOf(deviceId, LeafProgramList, 0))]
      ensures r.Err?
      ensures old(transport.NextAnswer(LeafPathOf(deviceId, LeafProgramList, 0))).Some? ==> r == Err(InvalidFormat)
      ensures old(transport.NextAnswer(LeafPathOf(deviceId, LeafProgramList, 0))).None? ==> r == Err(RequestFailed)
      ensures detector.registered ==
        if old(transport.NextAnswer(LeafPathOf(deviceId, LeafProgramList, 0))).Some?
        then old(detector.registered) + {(deviceId, 2, 1584)} else old(detector.registered)
    {
      var parsed := GetParsed(deviceId, 2, 1584, 0, 0);
      if parsed.Err? {
        return Err(parsed.error);
      }
      r := PrimaryCatalogStart(ListingOf(parsed.value));
    }
  }

  /** `ProbeHits` written out probe by probe. */
  lemma ProbeHitsAt(deviceId: string, start: nat, getAnswer: (nat, string) -> Option<Bytes>)
    ensures ProbeHits(deviceId, start, getAnswer) ==
      (if getAnswer(start, LeafPathOf(deviceId, LeafCombinedState, 0)).Some? then {(deviceId, 2, 256)} else {})
      + (if getAnswer(start + 1, LeafPathOf(deviceId, LeafLegacyProgramList, 0)).Some? then {(deviceId, 14, 1570)} else {})
      + (if getAnswer(start + 2, LeafPathOf(deviceId, LeafSemiproConfig, 0)).Some? then {(deviceId, 3, 1000)} else {})
  {
    HitsOfThree(deviceId, start, LeafCombinedState, LeafLegacyProgramList, LeafSemiproConfig, getAnswer);
  }

  /** The hits of three consecutive reads whose failures are swallowed, one read at a time. */
  lemma HitsOfThree(deviceId: string, start: nat, p0: (int, int), p1: (int, int), p2: (int, int),
                    getAnswer: (nat, string) -> Option<Bytes>)
    ensures HitsFrom(deviceId, start, [p0, p1, p2], getAnswer) ==
      (if getAnswer(start, LeafPathOf(deviceId, p0, 0)).Some? then {(deviceId, p0.0, p0.1)} else {})
      + (if getAnswer(start + 1, LeafPathOf(deviceId, p1, 0)).Some? then {(deviceId, p1.0, p1.1)} else {})
      + (if getAnswer(start + 2, LeafPathOf(deviceId, p2, 0)).Some? then {(deviceId, p2.0, p2.1)} else {})
  {
    assert [p0, p1, p2][1..] == [p1, p2] && [p1, p2][1..] == [p2] && [p2][1..] == [];
    assert HitsFrom(deviceId, start + 3, [], getAnswer) == {};
    var last := HitsFrom(deviceId, start + 2, [p2], getAnswer);
    assert last == if getAnswer(start + 2, LeafPathOf(deviceId, p2, 0)).Some? then {(deviceId, p2.0, p2.1)} else {};
    assert HitsFrom(deviceId, start + 1, [p1, p2], getAnswer) ==
      (if getAnswer(start + 1, LeafPathOf(deviceId, p1, 0)).Some? then {(deviceId, p1.0, p1.1)} else {}) + last;
  }

  /**
   * A device with no registered leaves that gains only probe hits has only probed
   * leaves afterwards.
   */
  lemma ProbedLeavesOnly(deviceId: string, before: set<(string, int, int)>, hits: set<(string, int, int)>,
                         available: set<(int, int)>)
    requires forall u: int, a: int :: (deviceId, u, a) !in before
    requires hits <= {(deviceId, 2, 256), (deviceId, 14, 1570), (deviceId, 3, 1000)}
    requires forall u: int, a: int :: (u, a) in available <==> (deviceId, u, a) in before + hits
    ensures available <= {LeafCombinedState, LeafLegacyProgramList, LeafSemiproConfig}
  {
    forall leaf | leaf in available
      ensures leaf in {LeafCombinedState, LeafLegacyProgramList, LeafSemiproConfig}
    {
      var (u, a) := leaf;
      assert (u, a) in available;
      assert (deviceId, u, a) in hits;
    }
  }
}

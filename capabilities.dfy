/**
 * The capability ledger of asyncmiele/capabilities.py: the `DeviceCapability` flags, the
 * per-type defaults and `DeviceCapabilityDetector`, which keeps, per device, the set of
 * capabilities found to work and the set whose test failed.
 */
module Capabilities {

  /** The atomic members of the `DeviceCapability` flag enum (NONE is the empty flag). */
  datatype Capability =
    | StateReporting
    | ProgramReporting
    | WakeUp
    | RemoteStart
    | RemoteControl
    | ProgramCatalog
    | ProgramSelection
    | ParameterSelection
    | Dop2Basic
    | Dop2Advanced
    | ConsumptionStats

  /** Codes of the `DeviceType` enum that have their own default capability set. */
  const NoUse := 0
  const WashingMachine := 1
  const TumbleDryer := 2
  const Dishwasher := 7
  const Oven := 12

  /** The defaults shared by the four appliance types. */
  const ApplianceDefaults: set<Capability> :=
    {StateReporting, ProgramReporting, WakeUp, RemoteStart, ProgramCatalog, Dop2Basic}

  predicate HasOwnDefaults(deviceType: int) {
    deviceType in {WashingMachine, TumbleDryer, Dishwasher, Oven}
  }

  /**
   * `get_initial_capabilities`: the `DEFAULT_CAPABILITIES` entry of the type, or the
   * NoUse entry for a type without one.
   */
  function InitialCapabilities(deviceType: int): (r: set<Capability>)
    ensures StateReporting in r
    ensures HasOwnDefaults(deviceType) ==> r == ApplianceDefaults
    ensures !HasOwnDefaults(deviceType) ==> r == {StateReporting}
    ensures r <= ApplianceDefaults
  {
    if HasOwnDefaults(deviceType) then ApplianceDefaults else {StateReporting}
  }

  /** The set a per-device map holds for a device, empty when it has none. */
  function SetOf(m: map<string, set<Capability>>, deviceId: string): set<Capability> {
    if deviceId in m then m[deviceId] else {}
  }

  /** A non-empty intersection has a witness. */
  lemma SharedMember(a: set<Capability>, b: set<Capability>)
    ensures a * b != {} <==> exists c | c in b :: c in a
  {
    if a * b != {} {
      var c :| c in a * b;
      assert c in b && c in a;
    } else {
      forall c | c in b ensures c !in a {
        assert c !in a * b;
      }
    }
  }

  class CapabilityDetector {
    /** `_detected_capabilities`: device id to its supported capabilities. */
    var detected: map<string, set<Capability>>
    /** `_failed_tests`: device id to the capabilities whose test failed. */
    var failedTests: map<string, set<Capability>>

    /**
     * Every device with failed tests is also in the supported map, and no capability is
     * both supported and failed for a device.
     */
    predicate Valid()
      reads this
    {
      forall d | d in failedTests :: d in detected && detected[d] !! failedTests[d]
    }

    constructor()
      ensures detected == map[] && failedTests == map[]
      ensures Valid()
    {
      detected := map[];
      failedTests := map[];
    }

    /**
     * `get_capabilities`: seed an unseen device from its type's defaults, never re-seed
     * a known one, and hand back its supported set.
     */
    method GetCapabilities(deviceId: string, deviceType: int) returns (caps: set<Capability>)
      requires Valid()
      modifies this
      ensures Valid()
      ensures failedTests == old(failedTests)
      ensures deviceId in old(detected) ==> detected == old(detected) && caps == old(detected)[deviceId]
      ensures deviceId !in old(detected) ==>
        detected == old(detected)[deviceId := InitialCapabilities(deviceType)]
        && caps == InitialCapabilities(deviceType)
    {
      if deviceId !in detected {
        detected := detected[deviceId := InitialCapabilities(deviceType)];
      }
      caps := detected[deviceId];
    }

    /**
     * `record_capability_test`: a device first seen here starts from empty sets; a
     * success moves the capability to the supported set, a failure to the failed set.
     */
    method RecordCapabilityTest(deviceId: string, capability: Capability, success: bool)
      requires Valid()
      modifies this
      ensures Valid()
      ensures detected == old(detected)[deviceId :=
        if success then SetOf(old(detected), deviceId) + {capability}
        else SetOf(old(detected), deviceId) - {capability}]
      ensures failedTests == old(failedTests)[deviceId :=
        if success then SetOf(old(failedTests), deviceId) - {capability}
        else SetOf(old(failedTests), deviceId) + {capability}]
      ensures HasCapability(deviceId, capability) == success
      ensures capability in FailedTests(deviceId) <==> !success
      ensures forall c | c != capability ::
        HasCapability(deviceId, c) == old(HasCapability(deviceId, c))
        && (c in FailedTests(deviceId) <==> c in old(FailedTests(deviceId)))
    {
      var supported := SetOf(detected, deviceId);
      var failures := SetOf(failedTests, deviceId);
      if success {
        supported := supported + {capability};
        failures := failures - {capability};
      } else {
        failures := failures + {capability};
        supported := supported - {capability};
      }
      detected := detected[deviceId := supported];
      failedTests := failedTests[deviceId := failures];
    }

    /** `has_capability`: False for an unknown device, otherwise membership. */
    function HasCapability(deviceId: string, capability: Capability): (r: bool)
      reads this
      ensures r ==> deviceId in detected
      ensures deviceId in detected ==> (r <==> capability in detected[deviceId])
    {
      deviceId in detected && capability in detected[deviceId]
    }

    /** `has_any_capability`: False for an unknown device, otherwise a shared member. */
    function HasAnyCapability(deviceId: string, capabilities: set<Capability>): (r: bool)
      reads this
      ensures r ==> deviceId in detected
      ensures r <==> exists c | c in capabilities :: HasCapability(deviceId, c)
    {
      if deviceId in detected then
        (SharedMember(detected[deviceId], capabilities); detected[deviceId] * capabilities != {})
      else false
    }

    /** `has_all_capabilities`: False for an unknown device, even with no capabilities asked. */
    function HasAllCapabilities(deviceId: string, capabilities: set<Capability>): (r: bool)
      reads this
      ensures r ==> deviceId in detected
      ensures deviceId in detected ==> (r <==> forall c | c in capabilities :: HasCapability(deviceId, c))
    {
      deviceId in detected && capabilities <= detected[deviceId]
    }

    /** `reset_capabilities`: forget both sets of the device. */
    method ResetCapabilities(deviceId: string)
      requires Valid()
      modifies this
      ensures Valid()
      ensures detected == old(detected) - {deviceId} && failedTests == old(failedTests) - {deviceId}
      ensures forall c :: !HasCapability(deviceId, c)
      ensures FailedTests(deviceId) == {}
    {
      detected := detected - {deviceId};
      failedTests := failedTests - {deviceId};
    }

    /** `get_failed_tests`: the failed set, empty for an unknown device. */
    function FailedTests(deviceId: string): (r: set<Capability>)
      reads this
      ensures deviceId in failedTests ==> r == failedTests[deviceId]
      ensures deviceId !in failedTests ==> r == {}
    {
      SetOf(failedTests, deviceId)
    }

    /** In a valid ledger a capability is never both supported and failed. */
    lemma NeverBoth(deviceId: string, capability: Capability)
      requires Valid()
      ensures !(HasCapability(deviceId, capability) && capability in FailedTests(deviceId))
    {
    }
  }
}

/**
 * The capability and cache part of `DeviceProfile` (asyncmiele/models/device_profile.py).
 * `capabilities` is a `DeviceCapability` flag value, i.e. a bitmask, modelled as the set
 * of atomic capabilities whose bits are set; `failed_capabilities` is a set of flag values.
 */
module DeviceProfiles {
  import opened Capabilities

  /** A `DeviceCapability` value: the atoms whose bits are set (NONE is the empty flag). */
  type Flag = set<Capability>

  class DeviceProfile<V> {
    var capabilities: Flag
    var failedCapabilities: set<Flag>
    var cachedInfo: map<string, V>

    constructor()
      ensures capabilities == {} && failedCapabilities == {} && cachedInfo == map[]
      ensures AtomicLedger()
    {
      capabilities := {};
      failedCapabilities := {};
      cachedInfo := map[];
    }

    /**
     * Every failed entry is a single capability and none of them is also supported.
     * Marking single capabilities keeps this; marking combined flags need not.
     */
    predicate AtomicLedger()
      reads this
    {
      forall f | f in failedCapabilities :: |f| == 1 && f !! capabilities
    }

    /** `has_capability`: the supported bits and the flag share a bit; NONE never does. */
    function HasCapability(flag: Flag): (r: bool)
      reads this
      ensures r <==> exists c | c in flag :: c in capabilities
      ensures flag == {} ==> !r
    {
      SharedMember(capabilities, flag);
      capabilities * flag != {}
    }

    /**
     * `mark_capability`: a success sets the flag's bits and drops the flag from the failed
     * set; a failure adds the flag to the failed set and clears its bits.
     */
    method MarkCapability(flag: Flag, success: bool)
      modifies this
      ensures success ==> capabilities == old(capabilities) + flag && failedCapabilities == old(failedCapabilities) - {flag}
      ensures !success ==> capabilities == old(capabilities) - flag && failedCapabilities == old(failedCapabilities) + {flag}
      ensures cachedInfo == old(cachedInfo)
      ensures HasCapability(flag) == (success && flag != {})
      ensures forall c | c !in flag :: c in capabilities <==> c in old(capabilities)
      ensures forall f | f != flag :: f in failedCapabilities <==> f in old(failedCapabilities)
      ensures old(AtomicLedger()) && |flag| == 1 ==> AtomicLedger()
    {
      if success {
        capabilities := capabilities + flag;
        if flag in failedCapabilities {
          failedCapabilities := failedCapabilities - {flag};
        }
      } else {
        failedCapabilities := failedCapabilities + {flag};
        capabilities := capabilities - flag;
      }
      if flag != {} {
        var c :| c in flag;
        assert success ==> c in capabilities;
      }
      if old(AtomicLedger()) && |flag| == 1 {
        forall f | f in failedCapabilities ensures |f| == 1 && f !! capabilities {
          if f != flag {
            SingletonsDisjoint(f, flag);
          }
        }
      }
    }

    /** `cache_value`. */
    method CacheValue(key: string, value: V)
      modifies this
      ensures cachedInfo == old(cachedInfo)[key := value]
      ensures GetCachedValue(key, value) == value
      ensures capabilities == old(capabilities) && failedCapabilities == old(failedCapabilities)
    {
      cachedInfo := cachedInfo[key := value];
    }

    /** `get_cached_value`: the cached value, or the caller's default when the key is absent. */
    function GetCachedValue(key: string, default: V): (r: V)
      reads this
      ensures key in cachedInfo ==> r == cachedInfo[key]
      ensures key !in cachedInfo ==> r == default
    {
      if key in cachedInfo then cachedInfo[key] else default
    }

    /** `clear_cache`: every lookup afterwards answers its default. */
    method ClearCache()
      modifies this
      ensures cachedInfo == map[]
      ensures forall key, default :: GetCachedValue(key, default) == default
      ensures capabilities == old(capabilities) && failedCapabilities == old(failedCapabilities)
    {
      cachedInfo := map[];
    }
  }

  /** Two different single-capability flags share no bit. */
  lemma SingletonsDisjoint(f: Flag, g: Flag)
    requires |f| == 1 && |g| == 1 && f != g
    ensures f !! g
  {
    var a :| a in f;
    var b :| b in g;
    assert |f - {a}| == 0 && |g - {b}| == 0;
    assert f == {a} && g == {b};
  }

  /**
   * A combined flag breaks the separation of supported and failed entries: fail WAKE_UP,
   * then succeed WAKE_UP|REMOTE_START. The failed entry {WAKE_UP} is not removed (it is
   * not the flag marked) and now shares its bit with the supported flags.
   */
  method CombinedFlagOverlap() returns (overlap: bool)
    ensures overlap
  {
    var profile := new DeviceProfile<int>();
    profile.MarkCapability({WakeUp}, false);
    profile.MarkCapability({WakeUp, RemoteStart}, true);
    overlap := {WakeUp} in profile.failedCapabilities && profile.HasCapability({WakeUp});
  }
}

/**
 * Records of the leaf protocol (asyncmiele/dop2/models.py) and the value types the
 * client and the explorer exchange.
 */
module Dop2Models {
  import opened Wrappers

  /** Leaf 2/256: appliance, operation and process state. */
  datatype DeviceCombinedState = DeviceCombinedState(
    applianceState: int,
    operationState: int,
    processState: int)

  /** Leaf 2/105: a bounded setting ("SF value"). */
  datatype SFValue = SFValue(
    sfId: int,
    currentValue: int,
    minimum: int,
    maximum: int,
    default: int)
  {
    /** The `range` property: the allowed interval as a pair. */
    function Range(): (int, int) { (minimum, maximum) }
  }

  /** The protocol dialect a device speaks. */
  datatype Generation = Legacy | Dop2 | SemiPro | Unknown

  /** Consumption statistics; every field may be absent. */
  datatype ConsumptionStats = ConsumptionStats(
    hoursOfOperation: Option<int>,
    cyclesCompleted: Option<int>,
    energyWhTotal: Option<int>,
    waterLTotal: Option<int>)
}

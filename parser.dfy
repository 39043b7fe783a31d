/**
 * The leaf decoder (asyncmiele/dop2/parser.py): fixed-offset big-endian layouts for
 * five known (unit, attribute) pairs and the raw payload for every other pair.
 */
module LeafParser {
  import opened Wrappers
  import opened BinaryPrimitives
  import opened Dop2Models

  /** What `parse_leaf` returns. */
  datatype LeafValue =
    | CombinedState(state: DeviceCombinedState)
    /** leaf 2/105 */
    | Setting(sf: SFValue)
    /** the bare integer returned for leaves 2/119 and 2/138 */
    | Counter(count: int)
    /** the dict returned for leaf 2/6195 */
    | ProcessTotals(energyWhTotal: int, waterLTotal: int)
    /** the fallback: the payload itself */
    | Raw(payload: Bytes)

  /** The ValueError raised for a payload shorter than its record. */
  datatype ParseError = PayloadTooShort(record: string)

  /** `_u16`: the big-endian value of two bytes. */
  function U16(b1: byte, b2: byte): (r: int)
    ensures 0 <= r < U16Limit
    ensures Be16(r) == [b1, b2]
  {
    b1 * 0x100 + b2
  }

  /** `_u32`: the big-endian value of four bytes. */
  function U32(b0: byte, b1: byte, b2: byte, b3: byte): (r: int)
    ensures 0 <= r < U32Limit
    ensures Be32(r) == [b0, b1, b2, b3]
  {
    var r := b0 * 0x100_0000 + b1 * 0x1_0000 + b2 * 0x100 + b3;
    DivModByConstant(b0, b1 * 0x1_0000 + b2 * 0x100 + b3, 0x100_0000);
    DivModByConstant(b0 * 0x100 + b1, b2 * 0x100 + b3, 0x1_0000);
    DivModByConstant(b0, b1, 0x100);
    DivModByConstant(b0 * 0x1_0000 + b1 * 0x100 + b2, b3, 0x100);
    DivModByConstant(b0 * 0x100 + b1, b2, 0x100);
    r
  }

  lemma U16OfBe16(v: int)
    requires 0 <= v < U16Limit
    ensures U16(Be16(v)[0], Be16(v)[1]) == v
  {
  }

  lemma U32OfBe32(v: int)
    requires 0 <= v < U32Limit
    ensures U32(Be32(v)[0], Be32(v)[1], Be32(v)[2], Be32(v)[3]) == v
  {
    var a, b3 := v / 0x100, v % 0x100;
    var c, b2 := a / 0x100, a % 0x100;
    var e, b1 := c / 0x100, c % 0x100;
    assert v == a * 0x100 + b3 && a == c * 0x100 + b2 && c == e * 0x100 + b1;
    assert v == c * 0x1_0000 + (b2 * 0x100 + b3);
    DivModByConstant(c, b2 * 0x100 + b3, 0x1_0000);
    assert v == e * 0x100_0000 + (b1 * 0x1_0000 + b2 * 0x100 + b3);
    DivModByConstant(e, b1 * 0x1_0000 + b2 * 0x100 + b3, 0x100_0000);
    assert Be32(v) == [e, b1, b2, b3];
  }

  /** The (unit, attribute) pairs that have a fixed-layout decoder. */
  predicate HasDecoder(unit: int, attribute: int) {
    unit == 2 && (attribute == 256 || attribute == 105 || attribute == 119
                  || attribute == 138 || attribute == 6195)
  }

  /** Shortest payload each decoder accepts; 0 for the raw fallback. */
  function MinPayloadLength(unit: int, attribute: int): nat {
    if unit != 2 then 0
    else if attribute == 256 then 6
    else if attribute == 105 then 10
    else if attribute == 119 || attribute == 138 then 4
    else if attribute == 6195 then 8
    else 0
  }

  function ParseLeaf(unit: int, attribute: int, payload: Bytes): (r: Result<LeafValue, ParseError>)
    ensures r.Err? <==> HasDecoder(unit, attribute) && |payload| < MinPayloadLength(unit, attribute)
  {
    if unit == 2 && attribute == 256 then
      if |payload| < 6 then Err(PayloadTooShort("DeviceCombinedState"))
      else Ok(CombinedState(DeviceCombinedState(
             U16(payload[0], payload[1]), U16(payload[2], payload[3]), U16(payload[4], payload[5]))))
    else if unit == 2 && attribute == 105 then
      if |payload| < 10 then Err(PayloadTooShort("SF_Value"))
      else Ok(Setting(SFValue(
             U16(payload[0], payload[1]), U16(payload[2], payload[3]), U16(payload[4], payload[5]),
             U16(payload[6], payload[7]), U16(payload[8], payload[9]))))
    else if unit == 2 && attribute == 119 then
      if |payload| < 4 then Err(PayloadTooShort("HoursOfOperation"))
      else Ok(Counter(U32(payload[0], payload[1], payload[2], payload[3])))
    else if unit == 2 && attribute == 138 then
      if |payload| < 4 then Err(PayloadTooShort("CycleCounter"))
      else Ok(Counter(U32(payload[0], payload[1], payload[2], payload[3])))
    else if unit == 2 && attribute == 6195 then
      if |payload| < 8 then Err(PayloadTooShort("ProcessData"))
      else Ok(ProcessTotals(U32(payload[0], payload[1], payload[2], payload[3]),
                            U32(payload[4], payload[5], payload[6], payload[7])))
    else Ok(Raw(payload))
  }

  // ---------------------------------------------------------------------------
  // Reference encoder: the wire layout each decoder reads, written the other way.
  // ---------------------------------------------------------------------------

  predicate IsU16(v: int) { 0 <= v < U16Limit }

  predicate IsU32(v: int) { 0 <= v < U32Limit }

  /** The variant and field widths that a leaf of this address decodes to. */
  predicate Fits(unit: int, attribute: int, v: LeafValue) {
    if unit == 2 && attribute == 256 then
      v.CombinedState? && IsU16(v.state.applianceState) && IsU16(v.state.operationState)
      && IsU16(v.state.processState)
    else if unit == 2 && attribute == 105 then
      v.Setting? && IsU16(v.sf.sfId) && IsU16(v.sf.currentValue) && IsU16(v.sf.minimum)
      && IsU16(v.sf.maximum) && IsU16(v.sf.default)
    else if unit == 2 && (attribute == 119 || attribute == 138) then
      v.Counter? && IsU32(v.count)
    else if unit == 2 && attribute == 6195 then
      v.ProcessTotals? && IsU32(v.energyWhTotal) && IsU32(v.waterLTotal)
    else
      v.Raw?
  }

  function EncodeLeaf(unit: int, attribute: int, v: LeafValue): (r: Bytes)
    requires Fits(unit, attribute, v)
    ensures HasDecoder(unit, attribute) ==> |r| == MinPayloadLength(unit, attribute)
  {
    match v
    case CombinedState(s) => Be16(s.applianceState) + Be16(s.operationState) + Be16(s.processState)
    case Setting(sf) =>
      Be16(sf.sfId) + Be16(sf.currentValue) + Be16(sf.minimum) + Be16(sf.maximum) + Be16(sf.default)
    case Counter(n) => Be32(n)
    case ProcessTotals(e, w) => Be32(e) + Be32(w)
    case Raw(p) => p
  }

  /**
   * Decoding the wire layout of a value gives the value back, whatever trails it
   * (nothing may trail a raw payload, which is returned whole).
   */
  lemma ParseEncoded(unit: int, attribute: int, v: LeafValue, extra: Bytes)
    requires Fits(unit, attribute, v)
    requires HasDecoder(unit, attribute) || extra == []
    ensures ParseLeaf(unit, attribute, EncodeLeaf(unit, attribute, v) + extra) == Ok(v)
  {
    var p := EncodeLeaf(unit, attribute, v) + extra;
    match v
    case CombinedState(s) =>
      U16OfBe16(s.applianceState); U16OfBe16(s.operationState); U16OfBe16(s.processState);
    case Setting(sf) =>
      U16OfBe16(sf.sfId); U16OfBe16(sf.currentValue); U16OfBe16(sf.minimum);
      U16OfBe16(sf.maximum); U16OfBe16(sf.default);
    case Counter(n) =>
      U32OfBe32(n);
    case ProcessTotals(e, w) =>
      U32OfBe32(e); U32OfBe32(w);
    case Raw(q) =>
      assert p == q;
  }

  /**
   * Conversely a successful decode has the variant and widths of its address and
   * re-encodes to exactly the bytes it was read from: the first
   * MinPayloadLength bytes for a decoder, the whole payload for the fallback.
   */
  lemma EncodeParsed(unit: int, attribute: int, payload: Bytes)
    requires ParseLeaf(unit, attribute, payload).Ok?
    ensures Fits(unit, attribute, ParseLeaf(unit, attribute, payload).value)
    ensures HasDecoder(unit, attribute) ==>
      EncodeLeaf(unit, attribute, ParseLeaf(unit, attribute, payload).value)
        == payload[..MinPayloadLength(unit, attribute)]
    ensures !HasDecoder(unit, attribute) ==>
      ParseLeaf(unit, attribute, payload) == Ok(Raw(payload))
  {
    if HasDecoder(unit, attribute) {
      var v := ParseLeaf(unit, attribute, payload).value;
      var n := MinPayloadLength(unit, attribute);
      assert EncodeLeaf(unit, attribute, v) == payload[..n];
    }
  }

  /** Bytes past a decoder's record never change what it decodes. */
  lemma TrailingBytesIgnored(unit: int, attribute: int, payload: Bytes, extra: Bytes)
    requires HasDecoder(unit, attribute) && MinPayloadLength(unit, attribute) <= |payload|
    ensures ParseLeaf(unit, attribute, payload + extra) == ParseLeaf(unit, attribute, payload)
  {
    var p := payload + extra;
    assert forall i | 0 <= i < |payload| :: p[i] == payload[i];
  }

  /** A (unit, attribute) without a decoder returns the payload unchanged and never fails. */
  lemma UnknownLeafIsRaw(unit: int, attribute: int, payload: Bytes)
    requires !HasDecoder(unit, attribute)
    ensures ParseLeaf(unit, attribute, payload) == Ok(Raw(payload))
  {
  }

  /** `00 01 00 02 00 03` at 2/256 is the combined state (1, 2, 3). */
  lemma CombinedStateExample()
    ensures ParseLeaf(2, 256, [0x00, 0x01, 0x00, 0x02, 0x00, 0x03])
         == Ok(CombinedState(DeviceCombinedState(1, 2, 3)))
  {
  }

  /** `00 0A 00 14 00 01 00 64 00 32` at 2/105 is the setting (10, 20, 1, 100, 50). */
  lemma SettingExample()
    ensures ParseLeaf(2, 105, [0x00, 0x0A, 0x00, 0x14, 0x00, 0x01, 0x00, 0x64, 0x00, 0x32])
         == Ok(Setting(SFValue(10, 20, 1, 100, 50)))
  {
  }
}

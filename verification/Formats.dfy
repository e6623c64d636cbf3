/** Wire-format constants of the VITA-49.2 subset. */
module Formats {
  import opened Bytes

  const PACKET_TYPE_IF_DATA := 1
  const PACKET_TYPE_IF_CONTEXT := 4

  const WORD0_SIZE := 4
  const STREAM_ID_SIZE := 4
  const CLASS_ID_SIZE := 8
  const INT_TS_SIZE := 4
  const FRAC_TS_SIZE := 8
  const TRAILER_SIZE := 4

  const CONTEXT_FIELD_CHANGE_BIT := 31
  const CIF_BANDWIDTH := 29
  const CIF_RF_REF_FREQ := 27
  const CIF_GAIN := 23
  const CIF_SAMPLE_RATE := 21
  const CIF_DATA_PAYLOAD_FORMAT := 15

  const RC_TYPE_REAL := 0
  const RC_TYPE_COMPLEX_CARTESIAN := 1

  predicate HasStreamId(packetType: int) {
    packetType == 1 || packetType == 3 || packetType == 4 || packetType == 5
  }

  function HeaderLength(hasStreamId: bool, hasClassId: bool, tsi: nat, tsf: nat): nat {
    WORD0_SIZE
    + (if hasStreamId then STREAM_ID_SIZE else 0)
    + (if hasClassId then CLASS_ID_SIZE else 0)
    + (if tsi != 0 then INT_TS_SIZE else 0)
    + (if tsf != 0 then FRAC_TS_SIZE else 0)
  }

  /** Byte size of a fixed-size CIF0 field; None for the bits the table does not list. */
  function FieldSize(bit: int): Option<nat> {
    match bit
    case 30 | 24 | 23 | 22 | 19 | 18 | 16 | 10 => Some(4)
    case 29 | 28 | 27 | 26 | 25 | 21 | 20 | 17 | 15 => Some(8)
    case 14 | 13 => Some(44)
    case 12 | 11 => Some(52)
    case _ => None
  }

  datatype ComponentKind = SignedFixed | UnsignedFixed | IeeeFloat

  /** A sample component type. `Foreign` stands for any text that numpy cannot
      turn into an integer or float type. */
  datatype DType = Component(kind: ComponentKind, size: nat) | Foreign(text: string)

  const ITEM_FORMAT_SIGNED_FIXED := 0
  const ITEM_FORMAT_UNSIGNED_FIXED := 16
  const ITEM_FORMAT_IEEE_FLOAT32 := 14
  const ITEM_FORMAT_IEEE_FLOAT64 := 15

  /** The (item format, item bits) table; a pair outside it has no component type. */
  function ItemFormatDType(itemFormat: nat, itemBits: nat): Option<DType> {
    if itemFormat == ITEM_FORMAT_SIGNED_FIXED && FixedPointBits(itemBits) then Some(Component(SignedFixed, itemBits / 8))
    else if itemFormat == ITEM_FORMAT_UNSIGNED_FIXED && FixedPointBits(itemBits) then Some(Component(UnsignedFixed, itemBits / 8))
    else if itemFormat == ITEM_FORMAT_IEEE_FLOAT32 && itemBits == 32 then Some(Component(IeeeFloat, 4))
    else if itemFormat == ITEM_FORMAT_IEEE_FLOAT64 && itemBits == 64 then Some(Component(IeeeFloat, 8))
    else None
  }

  predicate FixedPointBits(itemBits: nat) {
    itemBits == 8 || itemBits == 16 || itemBits == 32
  }
}

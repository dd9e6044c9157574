/** The frame record every component passes around (CanFrame.h). */
module CanFrames {

  newtype byte = b: int | 0 <= b < 256

  const MAX_DATA_LENGTH: nat := 8
  const MAX_EXTENDED_ID: bv32 := 0x1FFFFFFF
  const MAX_STANDARD_ID: bv32 := 0x7FF

  datatype Direction = Rx | Tx

  /** `data` is the fixed 8-byte array, of which the first `dlc` bytes are the payload. */
  datatype CanFrame = CanFrame(
    sequence: nat, timestampNs: nat, id: bv32,
    data: seq<byte>, dlc: nat, isExtended: bool, direction: Direction)
  {
    predicate Valid() {
      && |data| == MAX_DATA_LENGTH && dlc <= MAX_DATA_LENGTH
      && id <= (if isExtended then MAX_EXTENDED_ID else MAX_STANDARD_ID)
    }

    function Payload(): seq<byte>
      requires Valid()
    {
      data[..dlc]
    }
  }
}

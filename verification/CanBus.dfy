/** Kernel frames: what CanSender.sendRaw writes, what the receive loop decodes, and the checks of
    CanRuntime.sendFrame. */
module CanBus {
  import opened Wrappers
  import opened CanFrames
  import opened FrameCodec
  import opened CodecRoundTrip

  const CAN_EFF_FLAG: bv32 := 0x80000000
  const CAN_RTR_FLAG: bv32 := 0x40000000
  const CAN_ERR_FLAG: bv32 := 0x20000000
  const CAN_EFF_MASK: bv32 := 0x1FFFFFFF
  const CAN_SFF_MASK: bv32 := 0x7FF
  const CAN_MTU: int := 16

  /** struct can_frame; `data` is the 8-byte array. */
  datatype KernelFrame = KernelFrame(canId: bv32, dlc: nat, data: seq<byte>)

  datatype SendError = IdOutOfRange | LengthOutOfRange | NotOpen | NullData | WriteFailed | PartialWrite
  datatype SendResult = Sent(frame: KernelFrame) | Refused(error: SendError)

  function Padded(data: seq<byte>): seq<byte>
    requires |data| <= MAX_DATA_LENGTH
  {
    data + seq(MAX_DATA_LENGTH - |data|, _ => 0 as byte)
  }

  predicate IdInRange(id: bv32, isExtended: bool) {
    id <= (if isExtended then MAX_EXTENDED_ID else MAX_STANDARD_ID)
  }

  /** The identifier word sendRaw builds. */
  function CanIdOf(id: bv32, isExtended: bool): bv32 {
    if isExtended then CAN_EFF_FLAG | (id & CAN_EFF_MASK) else id & CAN_SFF_MASK
  }

  predicate IsExtendedId(canId: bv32) {
    canId & CAN_EFF_FLAG != 0
  }

  /** Error and remote frames carry no data and are skipped. */
  predicate IsSkipped(canId: bv32) {
    canId & (CAN_ERR_FLAG | CAN_RTR_FLAG) != 0
  }

  function MaskedId(canId: bv32): (id: bv32)
    ensures IdInRange(id, IsExtendedId(canId))
  {
    canId & (if canId & CAN_EFF_FLAG != 0 then CAN_EFF_MASK else CAN_SFF_MASK)
  }

  /** The kernel frame sendRaw fills in. */
  function Encode(id: bv32, isExtended: bool, data: seq<byte>): (k: KernelFrame)
    requires |data| <= MAX_DATA_LENGTH
    ensures |k.data| == MAX_DATA_LENGTH
  {
    KernelFrame(CanIdOf(id, isExtended), |data|, Padded(data))
  }

  /** The receive loop between read and recordReceived; None for frames it discards. */
  function Decode(k: KernelFrame, timestampNs: nat): (r: Option<CanFrame>)
    requires |k.data| == MAX_DATA_LENGTH
    ensures r.Some? ==> r.value.Valid()
  {
    if IsSkipped(k.canId) || k.dlc > MAX_DATA_LENGTH then None
    else
      Some(CanFrame(0, timestampNs, MaskedId(k.canId), Padded(k.data[..k.dlc]), k.dlc, IsExtendedId(k.canId), Rx))
  }

  /** The same part of the receive loop as it assigns the fields of the frame one by one. */
  method DecodeFrame(kernelFrame: KernelFrame, timestampNs: nat) returns (r: Option<CanFrame>)
    requires |kernelFrame.data| == MAX_DATA_LENGTH
    ensures r == Decode(kernelFrame, timestampNs)
  {
    hide IsSkipped, MaskedId, IsExtendedId;
    if IsSkipped(kernelFrame.canId) { return None; }
    if kernelFrame.dlc > MAX_DATA_LENGTH { return None; }
    var id := MaskedId(kernelFrame.canId);
    var isExtended := IsExtendedId(kernelFrame.canId);
    var data := new byte[MAX_DATA_LENGTH](_ => 0);
    forall i | 0 <= i < kernelFrame.dlc {
      data[i] := kernelFrame.data[i];
    }
    assert data[..] == Padded(kernelFrame.data[..kernelFrame.dlc]);
    return Some(CanFrame(0, timestampNs, id, data[..], kernelFrame.dlc, isExtended, Rx));
  }

  /** CanSender: the socket and the frames handed to the kernel. */
  class CanSender {
    var socketFd: int
    var written: seq<KernelFrame>

    constructor ()
      ensures socketFd == -1 && written == []
    {
      socketFd, written := -1, [];
    }

    /** sendRaw; `data` is the byte pointer (None for nullptr), `result` the return value of write. */
    method SendRaw(id: bv32, isExtended: bool, data: Option<seq<byte>>, dlc: nat, result: int) returns (r: SendResult)
      requires data.Some? ==> dlc <= |data.value| || dlc > MAX_DATA_LENGTH
      modifies this`written
      ensures r.Sent? <==>
        socketFd >= 0 && dlc <= MAX_DATA_LENGTH && (dlc > 0 ==> data.Some?) && result == CAN_MTU
      ensures r.Sent? ==> r.frame == Encode(id, isExtended, if dlc > 0 then data.value[..dlc] else [])
      ensures r.Sent? ==> written == old(written) + [r.frame]
      ensures r.Refused? ==> written == old(written)
      ensures r.Refused? ==> r.error == if socketFd < 0 then NotOpen
        else if dlc > MAX_DATA_LENGTH then LengthOutOfRange
        else if dlc > 0 && data.None? then NullData
        else if result < 0 then WriteFailed else PartialWrite
    {
      if socketFd < 0 { return Refused(NotOpen); }
      if dlc > MAX_DATA_LENGTH { return Refused(LengthOutOfRange); }
      if dlc > 0 && data.None? { return Refused(NullData); }
      var canId: bv32;
      if isExtended {
        canId := CAN_EFF_FLAG | (id & CAN_EFF_MASK);
      } else {
        canId := id & CAN_SFF_MASK;
      }
      var buffer := new byte[MAX_DATA_LENGTH](_ => 0);
      if dlc > 0 {
        forall i | 0 <= i < dlc {
          buffer[i] := data.value[i];
        }
      }
      ghost var payload := if dlc > 0 then data.value[..dlc] else [];
      assert buffer[..] == Padded(payload);
      var frame := KernelFrame(canId, dlc, buffer[..]);
      if result < 0 { return Refused(WriteFailed); }
      if result != CAN_MTU { return Refused(PartialWrite); }
      written := written + [frame];
      return Sent(frame);
    }

    /** CanRuntime.sendFrame: range checks in the order of the source, then sendRaw. */
    method SendFrame(id: bv32, isExtended: bool, data: seq<byte>, result: int) returns (r: SendResult)
      modifies this`written
      ensures r.Sent? <==>
        IdInRange(id, isExtended) && |data| <= MAX_DATA_LENGTH && socketFd >= 0 && result == CAN_MTU
      ensures r.Sent? ==> r.frame == Encode(id, isExtended, data) && written == old(written) + [r.frame]
      ensures r.Refused? ==> written == old(written)
      ensures r.Refused? ==> r.error == if !IdInRange(id, isExtended) then IdOutOfRange
        else if |data| > MAX_DATA_LENGTH then LengthOutOfRange
        else if socketFd < 0 then NotOpen else if result < 0 then WriteFailed else PartialWrite
    {
      var maximumId := if isExtended then MAX_EXTENDED_ID else MAX_STANDARD_ID;
      if id > maximumId { return Refused(IdOutOfRange); }
      if |data| > MAX_DATA_LENGTH { return Refused(LengthOutOfRange); }
      if socketFd < 0 { return Refused(NotOpen); }
      assert data[..|data|] == data;
      r := SendRaw(id, isExtended, if data == [] then None else Some(data), |data|, result);
    }
  }

  lemma {:induction false} IdBits(id: bv32, isExtended: bool)
    requires IdInRange(id, isExtended)
    ensures !IsSkipped(CanIdOf(id, isExtended))
    ensures IsExtendedId(CanIdOf(id, isExtended)) == isExtended
    ensures MaskedId(CanIdOf(id, isExtended)) == id
  {
  }

  /** The identifier word on the wire: bit 31 marks the extended format, bits 30 and 29 stay clear, and the id
      is in the low bits as it is. */
  lemma {:induction false} WordOnWire(id: bv32, isExtended: bool)
    requires IdInRange(id, isExtended)
    ensures CanIdOf(id, isExtended) == if isExtended then 0x80000000 + id else id
    ensures CanIdOf(id, isExtended) & 0x60000000 == 0 && CanIdOf(id, isExtended) & 0x1FFFFFFF == id
    ensures IdInRange(id, isExtended) == (id <= if isExtended then 0x1FFFFFFF else 0x7FF)
  {
  }

  /** Discarded are error frames, remote frames and lengths over 8, and nothing else. */
  lemma {:induction false} DiscardedIff(k: KernelFrame, timestampNs: nat)
    requires |k.data| == 8
    ensures Decode(k, timestampNs) == None <==> k.canId & 0x20000000 != 0 || k.canId & 0x40000000 != 0 || k.dlc > 8
  {
    EitherBit(k.canId);
    hide MaskedId, IsExtendedId;
  }

  lemma {:induction false} EitherBit(canId: bv32)
    ensures IsSkipped(canId) == (canId & 0x20000000 != 0 || canId & 0x40000000 != 0)
  {
  }

  /** The kernel frame holds the payload, and zeros behind it. */
  lemma {:induction false} EncodedBytes(id: bv32, isExtended: bool, data: seq<byte>)
    requires |data| <= 8
    ensures var k := Encode(id, isExtended, data);
      k.dlc == |data| && |k.data| == 8 && forall i :: 0 <= i < 8 ==> k.data[i] == if i < |data| then data[i] else 0
  {
    hide CanIdOf;
  }

  lemma {:induction false} FlagAndIdBits(canId: bv32)
    requires canId & 0x60000000 == 0
    ensures canId & 0x80000000 != 0 ==> 0x80000000 | ((canId & 0x1FFFFFFF) & 0x1FFFFFFF) == canId
    ensures (canId & 0x7FF) & 0x7FF == canId & 0x7FF
  {
  }

  lemma {:induction false} SkippedBits(canId: bv32)
    ensures IsSkipped(canId) == (canId & 0x60000000 != 0)
  {
    assert CAN_ERR_FLAG | CAN_RTR_FLAG == 0x60000000;
  }

  lemma {:induction false} MaskedIdIs(canId: bv32)
    ensures IsExtendedId(canId) ==> MaskedId(canId) == canId & CAN_EFF_MASK
    ensures !IsExtendedId(canId) ==> MaskedId(canId) == canId & CAN_SFF_MASK
  {
  }

  lemma {:induction false} ExtendedWord(canId: bv32)
    requires IsExtendedId(canId) && !IsSkipped(canId)
    ensures CanIdOf(canId & CAN_EFF_MASK, true) == canId
  {
    SkippedBits(canId);
    FlagAndIdBits(canId);
  }

  lemma {:induction false} StandardWord(canId: bv32)
    ensures CanIdOf(canId & CAN_SFF_MASK, false) == canId & CAN_SFF_MASK
  {
  }

  lemma {:induction false} MaskBits(canId: bv32)
    requires !IsSkipped(canId)
    ensures CanIdOf(MaskedId(canId), IsExtendedId(canId)) ==
      if IsExtendedId(canId) then canId else canId & CAN_SFF_MASK
  {
    hide MaskedId, IsSkipped, CanIdOf;
    MaskedIdIs(canId);
    if IsExtendedId(canId) {
      ExtendedWord(canId);
    } else {
      StandardWord(canId);
    }
  }

  /** Every frame sendFrame accepts is decoded unchanged by the receive loop. */
  lemma {:induction false} DecodeEncode(id: bv32, isExtended: bool, data: seq<byte>, timestampNs: nat)
    requires IdInRange(id, isExtended) && |data| <= MAX_DATA_LENGTH
    ensures Decode(Encode(id, isExtended, data), timestampNs) ==
      Some(CanFrame(0, timestampNs, id, Padded(data), |data|, isExtended, Rx))
  {
    hide IsSkipped, IsExtendedId, MaskedId, CanIdOf;
    IdBits(id, isExtended);
    assert Padded(data)[..|data|] == data;
  }

  /** The decoder's image: sending a decoded frame again puts the same payload and length on the bus,
      with the identifier masked to its format. */
  lemma {:induction false} EncodeDecode(k: KernelFrame, timestampNs: nat)
    requires |k.data| == MAX_DATA_LENGTH && Decode(k, timestampNs).Some?
    ensures var f := Decode(k, timestampNs).value;
      Encode(f.id, f.isExtended, f.Payload()) == KernelFrame(
        if f.isExtended then k.canId else k.canId & CAN_SFF_MASK, k.dlc, Padded(k.data[..k.dlc]))
  {
    hide IsSkipped, IsExtendedId, MaskedId, CanIdOf;
    MaskBits(k.canId);
    assert Padded(k.data[..k.dlc])[..k.dlc] == k.data[..k.dlc];
  }

  /** A frame shown to a client, posted back as it was printed, is parsed, accepted, encoded and received
      as the same id, format, length and payload. */
  lemma {:induction false} EndToEnd(f: CanFrame, timestampNs: nat)
    requires f.Valid()
    ensures var body := ReadSendBody(FrameJson(f));
      body.Some? && IdInRange(body.value.id, body.value.isExtended) &&
      var received := Decode(Encode(body.value.id, body.value.isExtended, body.value.data), timestampNs);
      received.Some? && received.value.Valid() &&
      received.value.id == f.id && received.value.isExtended == f.isExtended &&
      received.value.dlc == f.dlc && received.value.Payload() == f.Payload()
  {
    hide FrameJson, ReadSendBody, Decode, Encode;
    PrintedFrameParses(f);
    DecodeEncode(f.id, f.isExtended, f.Payload(), timestampNs);
    assert Padded(f.Payload())[..f.dlc] == f.Payload();
  }
}

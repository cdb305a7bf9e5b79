/** Message typing and the one fully visible message class: the command-byte
    to MessageType lookup and the fields every message carries
    (NibeHeatPumpBaseMessage.java), and the write-response message with its
    fixed seven-byte frame (ModbusWriteResponseMessage.java). */
module Messages {
  import opened Common
  import opened Protocol
  import opened Text

  // ------------------------------------------------------------ MessageType

  datatype MessageType =
    | DataReadOut     // MODBUS_DATA_READ_OUT_MSG
    | ReadRequest     // MODBUS_READ_REQUEST_MSG
    | ReadResponse    // MODBUS_READ_RESPONSE_MSG
    | WriteRequest    // MODBUS_WRITE_REQUEST_MSG
    | WriteResponse   // MODBUS_WRITE_RESPONSE_MSG
    | Unknown         // UNKNOWN

  /** MessageType.values(), in declaration order. */
  const MessageTypes: seq<MessageType> :=
    [DataReadOut, ReadRequest, ReadResponse, WriteRequest, WriteResponse, Unknown]

  /** The position of a type in declaration order. */
  function Ordinal(t: MessageType): (k: nat)
    ensures k < |MessageTypes| && MessageTypes[k] == t
  {
    match t
    case DataReadOut => 0
    case ReadRequest => 1
    case ReadResponse => 2
    case WriteRequest => 3
    case WriteResponse => 4
    case Unknown => 5
  }

  /** The int each enum value stores: its command byte widened with sign
      extension (the byte constructor), and -1 for UNKNOWN. */
  function Code(t: MessageType): int
  {
    match t
    case DataReadOut => Signed(CmdModbusDataMsg)
    case ReadRequest => Signed(CmdModbusReadReq)
    case ReadResponse => Signed(CmdModbusReadResp)
    case WriteRequest => Signed(CmdModbusWriteReq)
    case WriteResponse => Signed(CmdModbusWriteResp)
    case Unknown => -1
  }

  /** The byte MessageType.toByte() gives for each type (see
      ToByteIsNarrowedCode): the five message kinds give back their command
      bytes; UNKNOWN gives 0xFF. */
  function ToByte(t: MessageType): byte
  {
    match t
    case DataReadOut => CmdModbusDataMsg
    case ReadRequest => CmdModbusReadReq
    case ReadResponse => CmdModbusReadResp
    case WriteRequest => CmdModbusWriteReq
    case WriteResponse => CmdModbusWriteResp
    case Unknown => 0xFF
  }

  /** MessageType.toByte() narrows the stored int back to a byte: the
      sign-extended command byte narrows back to that byte, and UNKNOWN's -1
      to 0xFF. */
  lemma ToByteIsNarrowedCode(t: MessageType)
    ensures ToByte(t) == IntToByte(Code(t))
  {
  }

  /** getMessageType(b) (and the search loop of encodeMessage): the first
      type in declaration order whose toByte() equals b; UNKNOWN when no
      message kind matches. */
  function TypeOf(b: byte): (t: MessageType)
    ensures t == Unknown || ToByte(t) == b
    ensures forall k :: 0 <= k < Ordinal(t) ==> ToByte(MessageTypes[k]) != b
  {
    if ToByte(DataReadOut) == b then DataReadOut
    else if ToByte(ReadRequest) == b then ReadRequest
    else if ToByte(ReadResponse) == b then ReadResponse
    else if ToByte(WriteRequest) == b then WriteRequest
    else if ToByte(WriteResponse) == b then WriteResponse
    else Unknown
  }

  /** The search loop over MessageType.values() (encodeMessage, and
      getMessageType in the factory): it stops at the first value whose
      toByte() is b. */
  method FindType(b: byte) returns (t: MessageType)
    ensures t == TypeOf(b)
  {
    t := Unknown;
    var i := 0;
    while i < |MessageTypes|
      invariant 0 <= i <= |MessageTypes|
      invariant forall k :: 0 <= k < i ==> ToByte(MessageTypes[k]) != b
    {
      if ToByte(MessageTypes[i]) == b {
        t := MessageTypes[i];
        FirstMatchIsTypeOf(b, i);
        return;
      }
      i := i + 1;
    }
    FirstMatchIsTypeOf(b, 5);
  }

  /** The value at position i is TypeOf(b) when it is the first to match b
      (or, at UNKNOWN's position, when nothing before it matches). */
  lemma FirstMatchIsTypeOf(b: byte, i: nat)
    requires i < |MessageTypes|
    requires i < 5 ==> ToByte(MessageTypes[i]) == b
    requires forall k :: 0 <= k < i ==> ToByte(MessageTypes[k]) != b
    ensures TypeOf(b) == MessageTypes[i]
  {
  }

  /** The five command bytes are pairwise different and none is 0xFF. */
  predicate CommandsDistinct()
  {
    forall t, u :: t != u ==> ToByte(t) != ToByte(u)
  }

  /** When the command bytes are distinct, the lookup inverts toByte. */
  lemma TypeOfToByte(t: MessageType)
    requires CommandsDistinct()
    ensures TypeOf(ToByte(t)) == t
  {
  }

  /** A byte that is no command byte is typed UNKNOWN. */
  lemma TypeOfOtherByte(b: byte)
    requires b != CmdModbusDataMsg && b != CmdModbusReadReq && b != CmdModbusReadResp
    requires b != CmdModbusWriteReq && b != CmdModbusWriteResp
    ensures TypeOf(b) == Unknown
  {
  }

  // ------------------------------------------------- NibeHeatPumpBaseMessage

  /** What encodeMessage(data) of the base message throws, if anything: the
      checksum helper's own exception, or an index beyond the cleaned frame
      when reading the id (byte 1) or the command byte. */
  function BaseEncodeFault(data: seq<byte>): (e: Option<Error>)
    ensures e == None <==>
      CheckMessageChecksumAndRemoveDoubles(data).Some? &&
      2 <= |CheckMessageChecksumAndRemoveDoubles(data).value| &&
      OffsetCmd < |CheckMessageChecksumAndRemoveDoubles(data).value|
  {
    match CheckMessageChecksumAndRemoveDoubles(data)
    case None => Some(HelperFailure)
    case Some(c) => if |c| < 2 || OffsetCmd >= |c| then Some(IndexOutOfBounds) else None
  }

  /** The fields shared by every message. */
  class BaseMessage {
    var rawMessage: Option<seq<byte>>
    var msgType: MessageType
    var msgId: byte

    /** The no-argument constructor: no frame, UNKNOWN type, id 0. */
    constructor ()
      ensures rawMessage == None && msgType == Unknown && msgId == 0
    {
      rawMessage := None;
      msgType := Unknown;
      msgId := 0;
    }

    /** encodeMessage(data): clean the frame with the checksum helper, keep
        it as the raw message, take the id from byte 1 and the type from the
        command byte. The fields are assigned in that order, so a frame too
        short for the id or the command byte leaves the earlier ones set. */
    method EncodeMessage(data: seq<byte>) returns (err: Option<Error>)
      modifies this
      ensures err == BaseEncodeFault(data)
      ensures CheckMessageChecksumAndRemoveDoubles(data).None? ==>
        rawMessage == old(rawMessage) && msgType == old(msgType) && msgId == old(msgId)
      ensures CheckMessageChecksumAndRemoveDoubles(data).Some? ==>
        var c := CheckMessageChecksumAndRemoveDoubles(data).value;
        rawMessage == Some(c) &&
        msgId == (if |c| < 2 then old(msgId) else c[1]) &&
        msgType == (if |c| < 2 || OffsetCmd >= |c| then Unknown else TypeOf(c[OffsetCmd]))
    {
      var checked := CheckMessageChecksumAndRemoveDoubles(data);
      if checked.None? {
        return Some(HelperFailure);
      }
      var c := checked.value;
      rawMessage := Some(c);
      msgType := Unknown;
      if |c| < 2 {
        return Some(IndexOutOfBounds);
      }
      msgId := c[1];
      if OffsetCmd >= |c| {
        return Some(IndexOutOfBounds);
      }
      msgType := FindType(c[OffsetCmd]);
      return None;
    }

    /** toHexString(): no text when there is no raw frame, else the frame in
        hexadecimal, which reads back to the frame. */
    function ToHexString(): (s: Option<string>)
      reads this
      ensures s.None? <==> rawMessage.None?
      ensures s.Some? ==> |s.value| == 2 * |rawMessage.value| && Unhex(s.value) == rawMessage.value
    {
      match rawMessage
      case None => None
      case Some(raw) => HexRoundTrip(raw); Some(Hex(raw))
    }
  }

  // ---------------------------------------------- ModbusWriteResponseMessage

  /** createModbusWriteResponsePdu(result): a frame from the pump, address
      MODBUS40, command write-response, one data byte holding the result,
      then the checksum of bytes 2..5 computed while byte 6 is still zero. */
  function WriteResponsePdu(result: bool): (pdu: seq<byte>)
    ensures |pdu| == 7
    ensures pdu[0] == FrameStartFromNibe && pdu[1] == 0x00
    ensures pdu[2] == AdrModbus40 && pdu[3] == CmdModbusWriteResp && pdu[4] == 0x01
    ensures pdu[5] == 0x01 <==> result
    ensures pdu[5] == 0x00 <==> !result
    ensures pdu[6] == CalculateChecksum(pdu[..6] + [0x00], 2, 6)
  {
    var head: seq<byte> := [FrameStartFromNibe, 0x00, AdrModbus40, CmdModbusWriteResp, 0x01, if result then 0x01 else 0x00];
    assert (head + [0x00])[..6] == head;
    head + [CalculateChecksum(head + [0x00], 2, 6)]
  }

  /** modbus40WriteSuccess(data), as far as its result goes: frames the PDU
      predicate rejects raise "Not Write Response message"; otherwise the
      base fields are encoded (which may throw) and the result is whether
      the data byte equals 1. */
  function WriteSuccess(data: seq<byte>): (r: Result<bool, Error>)
    ensures !IsModbus40WriteResponsePdu(data) ==> r == Err(NibeError("Not Write Response message"))
    ensures r == Ok(true) <==>
      IsModbus40WriteResponsePdu(data) && BaseEncodeFault(data) == None &&
      OffsetData < |data| && data[OffsetData] == 0x01
    ensures r.Ok? ==> BaseEncodeFault(data) == None && OffsetData < |data|
  {
    if !IsModbus40WriteResponsePdu(data) then Err(NibeError("Not Write Response message"))
    else match BaseEncodeFault(data)
      case Some(e) => Err(e)
      case None => if OffsetData < |data| then Ok(data[OffsetData] == 0x01) else Err(IndexOutOfBounds)
  }

  /** Any data byte other than 1 reports a failed write. */
  lemma WriteSuccessOnlyForOne(data: seq<byte>)
    requires WriteSuccess(data).Ok?
    ensures WriteSuccess(data).value <==> data[OffsetData] == 0x01
  {
  }

  /** Round trip: when the frame layout puts the data at byte 5 and the
      helpers accept the frame built for `result`, reading that frame back
      gives the same result. */
  lemma WriteResponseRoundTrip(result: bool)
    requires OffsetData == 5
    requires IsModbus40WriteResponsePdu(WriteResponsePdu(result))
    requires BaseEncodeFault(WriteResponsePdu(result)) == None
    ensures WriteSuccess(WriteResponsePdu(result)) == Ok(result)
  {
  }

  class ModbusWriteResponseMessage {
    /** The inherited fields. */
    const base: BaseMessage
    var result: bool

    /** The builder's constructor: a fresh base message typed as a write
        response, with no raw frame, holding the builder's result. */
    constructor FromBuilder(builder: MessageBuilder)
      ensures fresh(base)
      ensures base.msgType == WriteResponse && base.rawMessage == None && base.msgId == 0
      ensures result == builder.result
    {
      var b := new BaseMessage();
      b.msgType := WriteResponse;
      base := b;
      result := builder.result;
    }

    /** encodeMessage(data) = result := modbus40WriteSuccess(data). On a
        rejected frame nothing changes; after the PDU check the base fields
        are encoded, and `result` is only assigned when no exception is
        raised. */
    method EncodeMessage(data: seq<byte>) returns (err: Option<Error>)
      modifies this, base
      ensures WriteSuccess(data).Ok? ==> err == None && result == WriteSuccess(data).value
      ensures WriteSuccess(data).Ok? ==> base.rawMessage == CheckMessageChecksumAndRemoveDoubles(data)
      ensures WriteSuccess(data).Ok? ==> var c := CheckMessageChecksumAndRemoveDoubles(data).value;
        base.msgId == c[1] && base.msgType == TypeOf(c[OffsetCmd])
      ensures IsModbus40WriteResponsePdu(data) && CheckMessageChecksumAndRemoveDoubles(data).None? ==>
        base.rawMessage == old(base.rawMessage) && base.msgType == old(base.msgType) && base.msgId == old(base.msgId)
      ensures IsModbus40WriteResponsePdu(data) && CheckMessageChecksumAndRemoveDoubles(data).Some? ==>
        var c := CheckMessageChecksumAndRemoveDoubles(data).value;
        base.rawMessage == Some(c) &&
        base.msgId == (if |c| < 2 then old(base.msgId) else c[1]) &&
        base.msgType == (if |c| < 2 || OffsetCmd >= |c| then Unknown else TypeOf(c[OffsetCmd]))
      ensures WriteSuccess(data).Err? ==> err == Some(WriteSuccess(data).error) && result == old(result)
      ensures !IsModbus40WriteResponsePdu(data) ==>
        base.rawMessage == old(base.rawMessage) && base.msgType == old(base.msgType) && base.msgId == old(base.msgId)
    {
      if !IsModbus40WriteResponsePdu(data) {
        return Some(NibeError("Not Write Response message"));
      }
      err := base.EncodeMessage(data);
      if err.Some? {
        return;
      }
      if OffsetData >= |data| {
        return Some(IndexOutOfBounds);
      }
      result := data[OffsetData] == 0x01;
    }

    /** The constructor from bytes: a fresh message whose encodeMessage has
        run on the data; the exception, if any, escapes and no message is
        returned. */
    static method FromBytes(data: seq<byte>) returns (r: Result<ModbusWriteResponseMessage, Error>)
      ensures WriteSuccess(data).Err? <==> r.Err?
      ensures r.Err? ==> r.error == WriteSuccess(data).error
      ensures r.Ok? ==> fresh(r.value) && r.value.result == WriteSuccess(data).value
      ensures r.Ok? ==> r.value.base.rawMessage == CheckMessageChecksumAndRemoveDoubles(data)
      ensures r.Ok? ==> var c := CheckMessageChecksumAndRemoveDoubles(data).value;
        r.value.base.msgId == c[1] && r.value.base.msgType == TypeOf(c[OffsetCmd])
    {
      var b := new MessageBuilder();
      var m := new ModbusWriteResponseMessage.FromBuilder(b);
      m.base.msgType := Unknown;
      var err := m.EncodeMessage(data);
      if err.Some? {
        return Err(err.value);
      }
      return Ok(m);
    }

    function IsSuccessfull(): bool
      reads this
    {
      result
    }

    /** decodeMessage(): the frame for the current result. */
    function DecodeMessage(): (pdu: seq<byte>)
      reads this
      ensures |pdu| == 7 && (pdu[5] == 0x01 <==> result)
    {
      WriteResponsePdu(result)
    }
  }

  /** MessageBuilder: collects the result, then builds the message. */
  class MessageBuilder {
    var result: bool

    constructor ()
      ensures !result
    {
      result := false;
    }

    /** result(r): sets the flag and returns the same builder. */
    method SetResult(r: bool) returns (self: MessageBuilder)
      modifies this
      ensures self == this && result == r
    {
      result := r;
      return this;
    }

    /** build(): a fresh write-response message holding this builder's result. */
    method Build() returns (m: ModbusWriteResponseMessage)
      ensures fresh(m) && fresh(m.base)
      ensures m.result == result
      ensures m.base.msgType == WriteResponse && m.base.rawMessage == None
    {
      m := new ModbusWriteResponseMessage.FromBuilder(this);
    }
  }

  /** Building a message for r and parsing its decoded frame reports r again
      (under the same layout assumptions as WriteResponseRoundTrip). */
  method BuildDecodeParse(r: bool) returns (ok: bool)
    requires OffsetData == 5
    requires IsModbus40WriteResponsePdu(WriteResponsePdu(r))
    requires BaseEncodeFault(WriteResponsePdu(r)) == None
    ensures ok == r
  {
    var b := new MessageBuilder();
    b := b.SetResult(r);
    var m := b.Build();
    var frame := m.DecodeMessage();
    WriteResponseRoundTrip(r);
    var parsed := ModbusWriteResponseMessage.FromBytes(frame);
    ok := parsed.value.IsSuccessfull();
  }
}

/** Turning a received frame into a typed message (MessageFactory.java).
    Only the write-response message is visible; the decoders of the other
    four message classes are not part of this model and are declared
    without a definition. */
module MessageFactory {
  import opened Common
  import opened Protocol
  import opened Messages

  /** One register value carried by a data read-out or a read response. */
  datatype ModbusValue = ModbusValue(coilAddress: int, value: int)

  /** The messages the factory can produce. */
  datatype Message =
    | DataReadOutMsg(values: seq<ModbusValue>)
    | ReadRequestMsg(coilAddress: int)
    | ReadResponseMsg(reading: ModbusValue)
    | WriteRequestMsg(coilAddress: int, value: int)
    | WriteResponseMsg(successful: bool)

  // The constructors of the four message classes that are not part of this
  // model: the fields they decode, or the exception they raise.
  const DecodeDataReadOut: seq<byte> -> Result<seq<ModbusValue>, Error>
  const DecodeReadRequest: seq<byte> -> Result<int, Error>
  const DecodeReadResponse: seq<byte> -> Result<ModbusValue, Error>
  const DecodeWriteRequest: seq<byte> -> Result<(int, int), Error>
  /** decodeMessage() of the read- and write-request classes: the frame a
      request is sent as. */
  const RequestFrame: Message -> seq<byte>

  /** The MessageType a message object has. */
  function KindOf(m: Message): (t: MessageType)
    ensures t != Unknown
  {
    match m
    case DataReadOutMsg(_) => DataReadOut
    case ReadRequestMsg(_) => ReadRequest
    case ReadResponseMsg(_) => ReadResponse
    case WriteRequestMsg(_, _) => WriteRequest
    case WriteResponseMsg(_) => WriteResponse
  }

  /** The byte the factory reads the type from: the command byte of a frame
      from the pump, byte 1 of a frame to the pump; any other start byte is
      not implemented. A frame too short for either index throws. */
  function TypeByte(frame: seq<byte>): (r: Result<byte, Error>)
    ensures r.Ok? ==> OffsetStart < |frame|
    ensures r.Ok? && frame[OffsetStart] == FrameStartFromNibe ==> OffsetCmd < |frame| && r.value == frame[OffsetCmd]
    ensures r.Ok? && frame[OffsetStart] != FrameStartFromNibe ==>
      frame[OffsetStart] == FrameStartToNibe && 1 < |frame| && r.value == frame[1]
    ensures OffsetStart < |frame| && frame[OffsetStart] != FrameStartFromNibe && frame[OffsetStart] != FrameStartToNibe ==>
      r == Err(NibeError("Message not implemented"))
  {
    if OffsetStart >= |frame| then Err(IndexOutOfBounds)
    else if frame[OffsetStart] == FrameStartFromNibe then
      if OffsetCmd < |frame| then Ok(frame[OffsetCmd]) else Err(IndexOutOfBounds)
    else if frame[OffsetStart] == FrameStartToNibe then
      if 1 < |frame| then Ok(frame[1]) else Err(IndexOutOfBounds)
    else Err(NibeError("Message not implemented"))
  }

  /** The constructor the switch calls for a known type. */
  function Construct(t: MessageType, frame: seq<byte>): (r: Result<Message, Error>)
    requires t != Unknown
    ensures r.Ok? ==> KindOf(r.value) == t
  {
    match t
    case DataReadOut =>
      (match DecodeDataReadOut(frame) case Ok(v) => Ok(DataReadOutMsg(v)) case Err(e) => Err(e))
    case ReadRequest =>
      (match DecodeReadRequest(frame) case Ok(c) => Ok(ReadRequestMsg(c)) case Err(e) => Err(e))
    case ReadResponse =>
      (match DecodeReadResponse(frame) case Ok(v) => Ok(ReadResponseMsg(v)) case Err(e) => Err(e))
    case WriteRequest =>
      (match DecodeWriteRequest(frame) case Ok(p) => Ok(WriteRequestMsg(p.0, p.1)) case Err(e) => Err(e))
    case WriteResponse =>
      (match WriteSuccess(frame) case Ok(b) => Ok(WriteResponseMsg(b)) case Err(e) => Err(e))
  }

  /** getMessage(message): null is illegal; otherwise the type byte picks
      the message class, an UNKNOWN type is not implemented, and a known
      type yields a message of exactly that type (or its constructor's
      exception). */
  function GetMessage(message: Option<seq<byte>>): (r: Result<Message, Error>)
    ensures message.None? ==> r == Err(NibeError("Illegal message (null)"))
    ensures message.Some? && TypeByte(message.value).Err? ==> r == Err(TypeByte(message.value).error)
    ensures message.Some? && TypeByte(message.value).Ok? && TypeOf(TypeByte(message.value).value) == Unknown ==>
      r == Err(NibeError("Message not implemented"))
    ensures r.Ok? ==> message.Some? && TypeByte(message.value).Ok?
    ensures r.Ok? ==> KindOf(r.value) == TypeOf(TypeByte(message.value).value)
  {
    match message
    case None => Err(NibeError("Illegal message (null)"))
    case Some(frame) =>
      match TypeByte(frame)
      case Err(e) => Err(e)
      case Ok(b) =>
        var t := TypeOf(b);
        if t == Unknown then Err(NibeError("Message not implemented"))
        else Construct(t, frame)
  }

  /** A frame from the pump whose command byte is that of a message kind,
      and whose constructor succeeds, yields a message of exactly that kind
      (when the command bytes are distinct). */
  lemma GetMessageFromNibe(frame: seq<byte>, t: MessageType)
    requires CommandsDistinct() && t != Unknown
    requires OffsetStart < |frame| && OffsetCmd < |frame|
    requires frame[OffsetStart] == FrameStartFromNibe && frame[OffsetCmd] == ToByte(t)
    requires Construct(t, frame).Ok?
    ensures GetMessage(Some(frame)).Ok? && KindOf(GetMessage(Some(frame)).value) == t
  {
    TypeOfToByte(t);
  }

  /** A frame to the pump is typed by its byte 1 instead of its command
      byte. */
  lemma GetMessageToNibe(frame: seq<byte>, t: MessageType)
    requires CommandsDistinct() && t != Unknown
    requires FrameStartToNibe != FrameStartFromNibe
    requires OffsetStart < |frame| && 1 < |frame|
    requires frame[OffsetStart] == FrameStartToNibe && frame[1] == ToByte(t)
    requires Construct(t, frame).Ok?
    ensures GetMessage(Some(frame)).Ok? && KindOf(GetMessage(Some(frame)).value) == t
  {
    TypeOfToByte(t);
  }

  /** The write response built for r is read back by the factory as a
      write response reporting r (layout and helpers as in
      WriteResponseRoundTrip). */
  lemma GetMessageOfWriteResponse(r: bool)
    requires CommandsDistinct() && OffsetStart == 0 && OffsetCmd == 3 && OffsetData == 5
    requires IsModbus40WriteResponsePdu(WriteResponsePdu(r))
    requires BaseEncodeFault(WriteResponsePdu(r)) == None
    ensures GetMessage(Some(WriteResponsePdu(r))) == Ok(WriteResponseMsg(r))
  {
    TypeOfToByte(WriteResponse);
    WriteResponseRoundTrip(r);
  }
}

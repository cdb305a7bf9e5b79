/** The MODBUS40 accessory protocol constants and helper predicates the
    connectors and messages rely on. NibeHeatPumpProtocol is not part of this
    model: its constants and predicates are declared here WITHOUT values, so
    every result below holds whatever the vendor's values are. Where a lemma
    needs a concrete layout it says so in its `requires`. */
module Protocol {
  import opened Common

  // Frame start markers (byte 0 of a frame).
  const FrameStartFromNibe: byte
  const FrameStartToNibe: byte

  // Field offsets inside a frame.
  const OffsetStart: nat
  const OffsetAdr: nat
  const OffsetCmd: nat
  const OffsetLen: nat
  const OffsetData: nat

  // Accessory addresses.
  const AdrModbus40: byte
  const AdrSms40: byte
  const AdrRmu40: byte

  // Command bytes.
  const CmdModbusDataMsg: byte
  const CmdModbusReadReq: byte
  const CmdModbusReadResp: byte
  const CmdModbusWriteReq: byte
  const CmdModbusWriteResp: byte

  // Frame predicates and checksum helpers of NibeHeatPumpProtocol.
  const IsModbus40ReadTokenPdu: seq<byte> -> bool
  const IsModbus40WriteTokenPdu: seq<byte> -> bool
  const IsModbus40WriteResponsePdu: seq<byte> -> bool
  /** calculateChecksum(data, from, to); */
  const CalculateChecksum: (seq<byte>, int, int) -> byte
  /** checkMessageChecksumAndRemoveDoubles(data): the cleaned frame, or None when it throws. */
  const CheckMessageChecksumAndRemoveDoubles: seq<byte> -> Option<seq<byte>>

  /** The acknowledgement byte written to the pump. */
  const Ack: byte := 0x06

  /** The configuration fields the modelled code reads (NibeHeatPumpConfiguration). */
  datatype Configuration = Configuration(
    refreshInterval: int,
    enableReadCommands: bool,
    enableWriteCommands: bool,
    sendAckToMODBUS40: bool,
    sendAckToRMU40: bool,
    sendAckToSMS40: bool)

  /** The bytes sendAckToNibe(address) writes to the port: the
      acknowledgement when the address is one of the three accessory
      addresses and that accessory's flag is set, nothing otherwise. */
  function AckBytes(conf: Configuration, address: byte): (w: seq<byte>)
    ensures w == [] || w == [Ack]
    ensures w == [Ack] <==>
      (address == AdrModbus40 && conf.sendAckToMODBUS40)
      || (address == AdrSms40 && conf.sendAckToSMS40)
      || (address == AdrRmu40 && conf.sendAckToRMU40)
  {
    if address == AdrModbus40 && conf.sendAckToMODBUS40 then [Ack]
    else if address == AdrSms40 && conf.sendAckToSMS40 then [Ack]
    else if address == AdrRmu40 && conf.sendAckToRMU40 then [Ack]
    else []
  }
}

# Nibe heat pump binding, modelled in Dafny

This project models the core of the openHAB binding for Nibe heat pumps
(F1145, F1245):

- **The serial link.** A reader assembles frames byte by byte in a
  100-byte buffer. It checks each frame's XOR checksum and hands complete
  frames to the registered listeners. It answers the pump's read and write
  tokens with a queued request or an acknowledgement.
- **The messages.** The model covers message typing, the write-response
  message and its encoding.
- **The thing handler.** The handler caches every coil value it has seen.
  It polls the coils linked to channels once their refresh interval has
  passed. It turns channel commands into write requests.

Modules follow the Java packages:

| module | file | Java source |
|---|---|---|
| `Common`, `Lists`, `Text` | `common.dfy`, `lists.dfy`, `text.dfy` | Java semantics: signed bytes, `int` wrap-around, exceptions as values, `List.remove`, `Integer.parseInt`, `String.split`, hex printing |
| `Protocol` | `protocol.dfy` | the protocol constants and the configuration; the constants are declared without a value |
| `PumpModels` | `pump_model.dfy` | `PumpModel` |
| `Messages`, `MessageFactory` | `messages.dfy`, `message_factory.dfy` | `NibeHeatPumpBaseMessage`, `ModbusWriteResponseMessage`, `MessageFactory` |
| `Connectors` | `base_connector.dfy` | `NibeHeatPumpBaseConnector` |
| `FrameCheck`, `SerialConnection` | `frame_check.dfy`, `serial_connector.dfy` | `SerialConnector`, with its reader thread and `checkNibeMessage` |
| `Arbitration`, `SerialConnection2` | `arbitration.dfy`, `serial_connector2.dfy` | `SerialConnector2` and the token answers of its protocol context |
| `Handler` | `handler.dfy` | `NibeHeatPumpHandler` |

How the Java is represented:

- **Objects.** Objects whose fields the Java updates in place are Dafny
  classes with the same fields. This covers the connectors, the handler,
  the messages and the builder. Inheritance becomes a `base` field.
- **The reader thread.** The thread of `SerialConnector` is a pure step
  function `NextBy` over a `Reader` value. That value holds the
  `ByteBuffer`'s content, position and limit, the state and the frames
  handed on. A flag `fixed` selects the reader: false is the code as
  written; true is the corrected reader, which clears the buffer when a new
  frame starts and applies the intended checksum test (see "## Findings").
  The class methods `Step`, `StepWaitStart`, `StepWaitData` and `Process`
  take the same flag and are proved to follow `NextBy` and `RunBy` in
  either mode.
- **Exceptions.** Java runtime exceptions are `Error` values:
  `IndexOutOfBounds`, `BufferOverflow`, `NumberFormat`,
  `IllegalArgument` and `NibeError`. An exception that escapes the reader
  thread ends the thread, giving the state `Halted(reason)`.
- **Unseen code.** Some code is not part of this model:
  - `NibeHeatPumpProtocol` (frame constants, checksum, PDU predicates);
  - `VariableInformation` (the per-model coil table);
  - the four other message classes.

  Their values and functions are declared without a definition. Every
  property is proved for all their possible values.
- **Outside inputs.** Bytes from the serial port are an input sequence.
  Bytes written to it are appended to an `out` field. The clock is a
  parameter. The reply the handler waits for is an `answer` function
  parameter. Which listeners throw is a `throwing` set.

Where the written description and the code differ, the model follows the
code:

- **Queue bounds.** `SerialConnector` caps each request queue at one entry
  and drops later requests. `SerialConnector2`, the connector the handler
  creates, queues without a bound. Each connector is modelled as written.
- **Token handling.** `SerialConnector2` answers the write token from the
  read queue.
- **Channel unlinking.** `channelUnlinked` removes by index.
- **The 0x5C/0xC5 checksum rule.** The description says a checksum byte
  0x5C may arrive as 0xC5. The code's test of that rule can never fail.
- **Unreachable token state.** `SerialConnector`'s reader never enters its
  READ_TOKEN state. Its token branch for that state is still modelled.

See "## Findings".

## Model

| member | source | states |
|---|---|---|
| Common.Signed | addons/binding/org.openhab.binding.nibeheatpump/src/main/java/org/openhab/binding/nibeheatpump/internal/connection/SerialConnector.java:366-367 | Java's byte-to-int widening: the value lies in -128..127, is non-negative exactly when the bit pattern is below 0x80, and agrees with the pattern modulo 256 |
| Common.Wrap32 | addons/binding/org.openhab.binding.nibeheatpump/src/main/java/org/openhab/binding/nibeheatpump/handler/NibeHeatPumpHandler.java:125-126 | 32-bit int multiplication wraps: the result lies in the int range, is congruent to the exact product modulo 2^32 and equals it when it fits |
| Lists.RemoveFirst | addons/binding/org.openhab.binding.nibeheatpump/src/main/java/org/openhab/binding/nibeheatpump/internal/connection/NibeHeatPumpBaseConnector.java:34-37 | List.remove(Object): an absent element leaves the list unchanged; a present one makes it one shorter; no element is invented; every other element stays |
| Lists.RemoveFirstCutsFirst | addons/binding/org.openhab.binding.nibeheatpump/src/main/java/org/openhab/binding/nibeheatpump/internal/connection/NibeHeatPumpBaseConnector.java:34-37 | removal cuts out exactly the first occurrence and keeps every other element in order |
| Lists.RemoveFirstRemoves | addons/binding/org.openhab.binding.nibeheatpump/src/main/java/org/openhab/binding/nibeheatpump/internal/connection/NibeHeatPumpBaseConnector.java:27-37 | on a duplicate-free listener list the removed listener is gone and the list stays duplicate-free |
| Lists.RemoveFirstMultiset | addons/binding/org.openhab.binding.nibeheatpump/src/main/java/org/openhab/binding/nibeheatpump/internal/connection/NibeHeatPumpBaseConnector.java:34-37 | as a multiset, removal takes away exactly one copy of the element |
| Lists.RemoveFirstAppendAbsent | addons/binding/org.openhab.binding.nibeheatpump/src/main/java/org/openhab/binding/nibeheatpump/handler/NibeHeatPumpHandler.java:179-193 | removing an element that was appended to a list not holding it gives back the original list |
| Lists.RemoveAt | addons/binding/org.openhab.binding.nibeheatpump/src/main/java/org/openhab/binding/nibeheatpump/handler/NibeHeatPumpHandler.java:191-193 | List.remove(int): succeeds exactly for an index inside the list, and then drops that position and keeps the rest; otherwise IndexOutOfBounds |
| Protocol.AckBytes | addons/binding/org.openhab.binding.nibeheatpump/src/main/java/org/openhab/binding/nibeheatpump/internal/connection/SerialConnector.java:409-423 | the bytes sendAckToNibe writes: nothing or a single 0x06, and 0x06 exactly when the address is that of MODBUS40, SMS40 or RMU40 and the configuration enables acknowledging that accessory |
| Text.ToUpper | addons/binding/org.openhab.binding.nibeheatpump/src/main/java/org/openhab/binding/nibeheatpump/internal/models/PumpModel.java:34 | upper-casing moves exactly the letters a-z to A-Z and leaves every other character alone |
| Text.ToLower | addons/binding/org.openhab.binding.nibeheatpump/src/main/java/org/openhab/binding/nibeheatpump/internal/models/PumpModel.java:34 | lower-casing moves exactly the letters A-Z to a-z and leaves every other character alone |
| Text.IgnoreCaseCharsAgree | addons/binding/org.openhab.binding.nibeheatpump/src/main/java/org/openhab/binding/nibeheatpump/internal/models/PumpModel.java:34 | characters equal under String.equalsIgnoreCase's three tests have the same upper case |
| Text.Digits | addons/binding/org.openhab.binding.nibeheatpump/src/main/java/org/openhab/binding/nibeheatpump/handler/NibeHeatPumpHandler.java:196-203 | the decimal digits of a natural number: non-empty, only digits, no leading zero |
| Text.DigitsRoundTrip | addons/binding/org.openhab.binding.nibeheatpump/src/main/java/org/openhab/binding/nibeheatpump/handler/NibeHeatPumpHandler.java:196-203 | reading back the digits printed for n gives n |
| Text.IntToString | addons/binding/org.openhab.binding.nibeheatpump/src/main/java/org/openhab/binding/nibeheatpump/handler/NibeHeatPumpHandler.java:196-203 | the decimal text of an int is never empty |
| Text.ParseInt | addons/binding/org.openhab.binding.nibeheatpump/src/main/java/org/openhab/binding/nibeheatpump/handler/NibeHeatPumpHandler.java:199-201 | Integer.parseInt: any result lies in the int range; every failure is NumberFormat; a digit string whose value fits is read as that value |
| Text.ParseIntOfIntToString | addons/binding/org.openhab.binding.nibeheatpump/src/main/java/org/openhab/binding/nibeheatpump/handler/NibeHeatPumpHandler.java:199-201 | parsing the decimal text of any int gives back that int, negative values included |
| Text.SplitAll | addons/binding/org.openhab.binding.nibeheatpump/src/main/java/org/openhab/binding/nibeheatpump/handler/NibeHeatPumpHandler.java:198 | splitting yields at least one piece and no piece contains the separator |
| Text.IndexOf | addons/binding/org.openhab.binding.nibeheatpump/src/main/java/org/openhab/binding/nibeheatpump/handler/NibeHeatPumpHandler.java:198 | the index found holds the separator and is its first occurrence |
| Text.DropTrailingEmpty | addons/binding/org.openhab.binding.nibeheatpump/src/main/java/org/openhab/binding/nibeheatpump/handler/NibeHeatPumpHandler.java:198 | String.split's trimming: a prefix of the pieces, ending in a non-empty piece or empty, with only empty pieces dropped |
| Text.Split | addons/binding/org.openhab.binding.nibeheatpump/src/main/java/org/openhab/binding/nibeheatpump/handler/NibeHeatPumpHandler.java:198 | String.split: a string without the separator, the empty string included, is returned whole; otherwise the pieces between separators with the trailing empty pieces dropped, none containing the separator |
| Text.SplitLast | addons/binding/org.openhab.binding.nibeheatpump/src/main/java/org/openhab/binding/nibeheatpump/handler/NibeHeatPumpHandler.java:197-199 | the last piece of "prefix#last" is last whenever last is non-empty and free of '#' |
| Text.SplitAllLast | addons/binding/org.openhab.binding.nibeheatpump/src/main/java/org/openhab/binding/nibeheatpump/handler/NibeHeatPumpHandler.java:197-199 | before trimming, the last piece is whatever follows the final separator |
| Text.Hex | addons/binding/org.openhab.binding.nibeheatpump/src/main/java/org/openhab/binding/nibeheatpump/internal/message/NibeHeatPumpBaseMessage.java:70-77 | printing bytes gives two hexadecimal digits per byte and nothing else |
| Text.HexByte | addons/binding/org.openhab.binding.nibeheatpump/src/main/java/org/openhab/binding/nibeheatpump/internal/message/NibeHeatPumpBaseMessage.java:74-75 | one byte prints as exactly two hexadecimal digits |
| Text.HexValue | addons/binding/org.openhab.binding.nibeheatpump/src/main/java/org/openhab/binding/nibeheatpump/internal/message/NibeHeatPumpBaseMessage.java:74-75 | a hexadecimal digit's value is below 16 |
| Text.HexDigitNibble | addons/binding/org.openhab.binding.nibeheatpump/src/main/java/org/openhab/binding/nibeheatpump/internal/message/NibeHeatPumpBaseMessage.java:74-75 | the digit printed for each four-bit value reads back as that value |
| Text.HexByteRoundTrip | addons/binding/org.openhab.binding.nibeheatpump/src/main/java/org/openhab/binding/nibeheatpump/internal/message/NibeHeatPumpBaseMessage.java:74-75 | the two digits printed for a byte read back as that byte |
| Text.HexRoundTrip | addons/binding/org.openhab.binding.nibeheatpump/src/main/java/org/openhab/binding/nibeheatpump/internal/message/NibeHeatPumpBaseMessage.java:70-77 | the hex text of a byte sequence reads back as the same sequence |
| PumpModels.Name | addons/binding/org.openhab.binding.nibeheatpump/src/main/java/org/openhab/binding/nibeheatpump/internal/models/PumpModel.java:17-29 | each model's name is five characters starting with F |
| PumpModels.FirstMatch | addons/binding/org.openhab.binding.nibeheatpump/src/main/java/org/openhab/binding/nibeheatpump/internal/models/PumpModel.java:32-37 | the search over values() returns a listed model whose name matches ignoring case, or reports that no listed model matches |
| PumpModels.GetPumpModel | addons/binding/org.openhab.binding.nibeheatpump/src/main/java/org/openhab/binding/nibeheatpump/internal/models/PumpModel.java:31-40 | a found model's name matches ignoring case; the only error is IllegalArgument("Not valid pump model"), raised exactly when no model matches |
| PumpModels.NamesDistinctIgnoringCase | addons/binding/org.openhab.binding.nibeheatpump/src/main/java/org/openhab/binding/nibeheatpump/internal/models/PumpModel.java:17-18 | no text matches both model names ignoring case, so the search order cannot matter |
| PumpModels.GetPumpModelMatches | addons/binding/org.openhab.binding.nibeheatpump/src/main/java/org/openhab/binding/nibeheatpump/internal/models/PumpModel.java:31-40 | getPumpModel returns a model exactly when that model's name matches ignoring case |
| PumpModels.GetPumpModelOfName | addons/binding/org.openhab.binding.nibeheatpump/src/main/java/org/openhab/binding/nibeheatpump/internal/models/PumpModel.java:26-40 | getPumpModel(toString()) gives back the model |
| PumpModels.GetPumpModelExamples | addons/binding/org.openhab.binding.nibeheatpump.test/src/test/java/org/openhab/binding/nibeheatpump/internal/models/PumpModelTest.java:22-46 | the unit test's cases: "F1245", "F1145", lower-case "f1245" and an unknown name |
| Messages.Ordinal | addons/binding/org.openhab.binding.nibeheatpump/src/main/java/org/openhab/binding/nibeheatpump/internal/message/NibeHeatPumpBaseMessage.java:14-22 | each message type has its position in the declaration order |
| Messages.ToByteIsNarrowedCode | addons/binding/org.openhab.binding.nibeheatpump/src/main/java/org/openhab/binding/nibeheatpump/internal/message/NibeHeatPumpBaseMessage.java:14-31 | toByte() narrows the int stored in the enum back to a byte: each message type yields its Modbus command byte, and UNKNOWN(-1) yields 0xFF |
| Messages.TypeOf | addons/binding/org.openhab.binding.nibeheatpump/src/main/java/org/openhab/binding/nibeheatpump/internal/message/MessageFactory.java:54-61 | the lookup returns UNKNOWN or a type whose byte is the one given, and no earlier type has that byte |
| Messages.FindType | addons/binding/org.openhab.binding.nibeheatpump/src/main/java/org/openhab/binding/nibeheatpump/internal/message/NibeHeatPumpBaseMessage.java:55-60 | the loop over values() in encodeMessage finds exactly the type the lookup defines |
| Messages.FirstMatchIsTypeOf | addons/binding/org.openhab.binding.nibeheatpump/src/main/java/org/openhab/binding/nibeheatpump/internal/message/MessageFactory.java:54-61 | the first type in declaration order with the given byte is the lookup's result |
| Messages.TypeOfToByte | addons/binding/org.openhab.binding.nibeheatpump/src/main/java/org/openhab/binding/nibeheatpump/internal/message/MessageFactory.java:33-43 | with distinct command bytes, looking up a type's own byte gives back that type |
| Messages.TypeOfOtherByte | addons/binding/org.openhab.binding.nibeheatpump/src/main/java/org/openhab/binding/nibeheatpump/internal/message/MessageFactory.java:44-48 | a byte that is no command byte is typed UNKNOWN |
| Messages.BaseEncodeFault | addons/binding/org.openhab.binding.nibeheatpump/src/main/java/org/openhab/binding/nibeheatpump/internal/message/NibeHeatPumpBaseMessage.java:47-61 | encodeMessage raises nothing exactly when the checksum helper accepts the frame and the frame is long enough for its type and id bytes |
| Messages.BaseMessage.constructor | addons/binding/org.openhab.binding.nibeheatpump/src/main/java/org/openhab/binding/nibeheatpump/internal/message/NibeHeatPumpBaseMessage.java:35-41 | a new message has no raw bytes, type UNKNOWN and id 0 |
| Messages.BaseMessage.EncodeMessage | addons/binding/org.openhab.binding.nibeheatpump/src/main/java/org/openhab/binding/nibeheatpump/internal/message/NibeHeatPumpBaseMessage.java:47-61 | raises exactly the fault defined above; otherwise it stores the unescaped frame and reads msgType and msgId from it |
| Messages.BaseMessage.ToHexString | addons/binding/org.openhab.binding.nibeheatpump/src/main/java/org/openhab/binding/nibeheatpump/internal/message/NibeHeatPumpBaseMessage.java:70-77 | null exactly when there are no raw bytes; otherwise two digits per byte that read back as the raw bytes |
| Messages.WriteResponsePdu | addons/binding/org.openhab.binding.nibeheatpump/src/main/java/org/openhab/binding/nibeheatpump/internal/message/ModbusWriteResponseMessage.java:33-45 | createPdu's layout: 7 bytes of start, 0x00, MODBUS40 address, write-response command, length 1, the result as 0x01 or 0x00, and the checksum of bytes 2..5 |
| Messages.WriteSuccess | addons/binding/org.openhab.binding.nibeheatpump/src/main/java/org/openhab/binding/nibeheatpump/internal/message/ModbusWriteResponseMessage.java:57-68 | a frame the PDU predicate rejects raises "Not Write Response message"; the result is true exactly for a valid frame whose data byte is 0x01 |
| Messages.WriteSuccessOnlyForOne | addons/binding/org.openhab.binding.nibeheatpump/src/main/java/org/openhab/binding/nibeheatpump/internal/message/ModbusWriteResponseMessage.java:60-67 | a decoded write response reports success exactly when its data byte is 0x01 |
| Messages.WriteResponseRoundTrip | addons/binding/org.openhab.binding.nibeheatpump/src/main/java/org/openhab/binding/nibeheatpump/internal/message/ModbusWriteResponseMessage.java:28-68 | decoding the PDU built for a result gives back that result |
| Messages.ModbusWriteResponseMessage.FromBuilder | addons/binding/org.openhab.binding.nibeheatpump/src/main/java/org/openhab/binding/nibeheatpump/internal/message/ModbusWriteResponseMessage.java:10-13 | the builder constructor makes a write response that carries the builder's result |
| Messages.ModbusWriteResponseMessage.EncodeMessage | addons/binding/org.openhab.binding.nibeheatpump/src/main/java/org/openhab/binding/nibeheatpump/internal/message/ModbusWriteResponseMessage.java:19-68 | on a write-response frame it runs the base encoding (raw frame, id from byte 1, type from the command byte, with its faults) and, on success, stores the success flag; otherwise it raises the decoder's error and keeps the old result and base fields |
| Messages.ModbusWriteResponseMessage.FromBytes | addons/binding/org.openhab.binding.nibeheatpump/src/main/java/org/openhab/binding/nibeheatpump/internal/message/ModbusWriteResponseMessage.java:15-68 | the byte constructor fails exactly when decoding fails, with that error; otherwise the new message holds the decoded result, the unescaped frame, the id from byte 1 and the type of the command byte |
| Messages.ModbusWriteResponseMessage.DecodeMessage | addons/binding/org.openhab.binding.nibeheatpump/src/main/java/org/openhab/binding/nibeheatpump/internal/message/ModbusWriteResponseMessage.java:28-31 | decodeMessage gives a 7-byte PDU whose data byte is 0x01 exactly when the message reports success |
| Messages.MessageBuilder.constructor | addons/binding/org.openhab.binding.nibeheatpump/src/main/java/org/openhab/binding/nibeheatpump/internal/message/ModbusWriteResponseMessage.java:70-71 | a new builder's result is false |
| Messages.MessageBuilder.SetResult | addons/binding/org.openhab.binding.nibeheatpump/src/main/java/org/openhab/binding/nibeheatpump/internal/message/ModbusWriteResponseMessage.java:73-76 | result(r) stores r and returns the same builder |
| Messages.MessageBuilder.Build | addons/binding/org.openhab.binding.nibeheatpump/src/main/java/org/openhab/binding/nibeheatpump/internal/message/ModbusWriteResponseMessage.java:78-80 | build() returns a new write response with the builder's result |
| Messages.BuildDecodeParse | addons/binding/org.openhab.binding.nibeheatpump/src/main/java/org/openhab/binding/nibeheatpump/internal/message/ModbusWriteResponseMessage.java:10-31 | building, decoding to bytes and parsing those bytes gives back the result the builder was given |
| MessageFactory.KindOf | addons/binding/org.openhab.binding.nibeheatpump/src/main/java/org/openhab/binding/nibeheatpump/internal/message/MessageFactory.java:33-46 | every message object has a known type |
| MessageFactory.TypeByte | addons/binding/org.openhab.binding.nibeheatpump/src/main/java/org/openhab/binding/nibeheatpump/internal/message/MessageFactory.java:23-29 | the type byte is the command byte of a frame from the pump or byte 1 of a frame to the pump; any other start byte is "Message not implemented" |
| MessageFactory.Construct | addons/binding/org.openhab.binding.nibeheatpump/src/main/java/org/openhab/binding/nibeheatpump/internal/message/MessageFactory.java:33-46 | the constructor chosen by the switch yields a message of exactly the type switched on |
| MessageFactory.GetMessage | addons/binding/org.openhab.binding.nibeheatpump/src/main/java/org/openhab/binding/nibeheatpump/internal/message/MessageFactory.java:17-52 | null raises "Illegal message (null)"; index faults propagate; an UNKNOWN type raises "Message not implemented"; a returned message has exactly the type its type byte names |
| MessageFactory.GetMessageFromNibe | addons/binding/org.openhab.binding.nibeheatpump/src/main/java/org/openhab/binding/nibeheatpump/internal/message/MessageFactory.java:23-43 | a frame from the pump carrying a type's command byte is decoded as that type |
| MessageFactory.GetMessageToNibe | addons/binding/org.openhab.binding.nibeheatpump/src/main/java/org/openhab/binding/nibeheatpump/internal/message/MessageFactory.java:25-43 | a frame to the pump is typed by its byte 1 |
| MessageFactory.GetMessageOfWriteResponse | addons/binding/org.openhab.binding.nibeheatpump/src/main/java/org/openhab/binding/nibeheatpump/internal/message/MessageFactory.java:42-43 | the factory reads the PDU built for a write result back as a write response with that result |
| Connectors.WithListener | addons/binding/org.openhab.binding.nibeheatpump/src/main/java/org/openhab/binding/nibeheatpump/internal/connection/NibeHeatPumpBaseConnector.java:27-32 | adding a listener appends it only when absent; membership grows by exactly that listener and the list stays duplicate-free |
| Connectors.Deliveries | addons/binding/org.openhab.binding.nibeheatpump/src/main/java/org/openhab/binding/nibeheatpump/internal/connection/NibeHeatPumpBaseConnector.java:53-62 | listeners receive the event in list order; only the last one served may have thrown, and a short delivery ends at a throwing listener |
| Connectors.DeliveriesUnfold | addons/binding/org.openhab.binding.nibeheatpump/src/main/java/org/openhab/binding/nibeheatpump/internal/connection/NibeHeatPumpBaseConnector.java:55-58 | one loop step serves the first listener and continues unless it throws |
| Connectors.DeliveriesReachAll | addons/binding/org.openhab.binding.nibeheatpump/src/main/java/org/openhab/binding/nibeheatpump/internal/connection/NibeHeatPumpBaseConnector.java:55-58 | when no listener throws, every listener receives the event |
| Connectors.DeliveriesStopAtThrow | addons/binding/org.openhab.binding.nibeheatpump/src/main/java/org/openhab/binding/nibeheatpump/internal/connection/NibeHeatPumpBaseConnector.java:53-62 | a throwing listener ends the delivery loop, so no listener after it is served |
| Connectors.BaseConnector.constructor | addons/binding/org.openhab.binding.nibeheatpump/src/main/java/org/openhab/binding/nibeheatpump/internal/connection/NibeHeatPumpBaseConnector.java:24-25 | a new connector has no listeners and is not connected |
| Connectors.BaseConnector.AddEventListener | addons/binding/org.openhab.binding.nibeheatpump/src/main/java/org/openhab/binding/nibeheatpump/internal/connection/NibeHeatPumpBaseConnector.java:27-32 | addEventListener adds a listener not already present and keeps the list duplicate-free |
| Connectors.BaseConnector.RemoveEventListener | addons/binding/org.openhab.binding.nibeheatpump/src/main/java/org/openhab/binding/nibeheatpump/internal/connection/NibeHeatPumpBaseConnector.java:34-37 | removeEventListener removes the first occurrence; on a duplicate-free list the listener is gone afterwards |
| Connectors.BaseConnector.Dispatch | addons/binding/org.openhab.binding.nibeheatpump/src/main/java/org/openhab/binding/nibeheatpump/internal/connection/NibeHeatPumpBaseConnector.java:53-73 | the delivery loop hands the event to the listeners as Deliveries defines, without changing the listener list |
| Connectors.BaseConnector.SendMsgToListeners | addons/binding/org.openhab.binding.nibeheatpump/src/main/java/org/openhab/binding/nibeheatpump/internal/connection/NibeHeatPumpBaseConnector.java:53-62 | a message is delivered to the listeners in order, stopping at a listener that throws |
| Connectors.BaseConnector.SendErrorToListeners | addons/binding/org.openhab.binding.nibeheatpump/src/main/java/org/openhab/binding/nibeheatpump/internal/connection/NibeHeatPumpBaseConnector.java:64-73 | an error text is delivered to the listeners in order, stopping at a listener that throws |
| Connectors.BaseConnector.SendDataToListeners | addons/binding/org.openhab.binding.nibeheatpump/src/main/java/org/openhab/binding/nibeheatpump/internal/connection/NibeHeatPumpBaseConnector.java:44-51 | raw bytes are typed by the factory; a typed message is delivered; a factory failure delivers nothing and escapes only when it is not a NibeHeatPumpException |
| Connectors.DispatchFault | addons/binding/org.openhab.binding.nibeheatpump/src/main/java/org/openhab/binding/nibeheatpump/internal/connection/NibeHeatPumpBaseConnector.java:44-51 | only a factory failure that is not caught escapes sendMsgToListeners(byte[]); a caught one is swallowed |
| FrameCheck.XorRangeOfPrefix | addons/binding/org.openhab.binding.nibeheatpump/src/main/java/org/openhab/binding/nibeheatpump/internal/connection/SerialConnector.java:375-378 | the XOR over a span depends only on the bytes inside it |
| FrameCheck.ChecksumAsWrittenAcceptsAnyAfter5C | addons/binding/org.openhab.binding.nibeheatpump/src/main/java/org/openhab/binding/nibeheatpump/internal/connection/SerialConnector.java:380-390 | as written, a frame is accepted when the checksums agree or whenever the computed checksum is 0x5C, whatever the trailing byte |
| FrameCheck.ChecksumAcceptedOnlySubstitution | addons/binding/org.openhab.binding.nibeheatpump/src/main/java/org/openhab/binding/nibeheatpump/internal/connection/SerialConnector.java:382-390 | corrected, the only mismatch accepted is a computed 0x5C arriving as 0xC5 |
| FrameCheck.ClassifyAsWritten | addons/binding/org.openhab.binding.nibeheatpump/src/main/java/org/openhab/binding/nibeheatpump/internal/connection/SerialConnector.java:351-397 | checkNibeMessage as written: a wrong start byte is Invalid, and whatever it accepts is either Valid or a checksum failure under the corrected rule |
| FrameCheck.Classify | addons/binding/org.openhab.binding.nibeheatpump/src/main/java/org/openhab/binding/nibeheatpump/internal/connection/SerialConnector.java:351-397 | the corrected check accepts only frames the written one accepts |
| FrameCheck.WellFormedPrefixes | addons/binding/org.openhab.binding.nibeheatpump/src/main/java/org/openhab/binding/nibeheatpump/internal/connection/SerialConnector.java:355-392 | every proper prefix of a well-formed frame is not ready yet, and the whole frame is valid |
| FrameCheck.ClassifyComplete | addons/binding/org.openhab.binding.nibeheatpump/src/main/java/org/openhab/binding/nibeheatpump/internal/connection/SerialConnector.java:366-392 | a complete frame is valid exactly when its checksum is accepted, and is a checksum failure otherwise |
| FrameCheck.QuirkAcceptsAnyTrailer | addons/binding/org.openhab.binding.nibeheatpump/src/main/java/org/openhab/binding/nibeheatpump/internal/connection/SerialConnector.java:380-390 | with computed checksum 0x5C the written check accepts any trailing byte, where the corrected one rejects all but 0x5C and 0xC5 |
| FrameCheck.ClassifyHeader | addons/binding/org.openhab.binding.nibeheatpump/src/main/java/org/openhab/binding/nibeheatpump/internal/connection/SerialConnector.java:355-372 | a wrong start or second byte is Invalid; a correct header shorter than six bytes is not ready |
| FrameCheck.CheckNibeMessage | addons/binding/org.openhab.binding.nibeheatpump/src/main/java/org/openhab/binding/nibeheatpump/internal/connection/SerialConnector.java:351-397 | the loop over the buffer's first len bytes classifies them exactly as ClassifyBy does, with the checksum test as written or corrected |
| Arbitration.AnswerToken | addons/binding/org.openhab.binding.nibeheatpump/src/main/java/org/openhab/binding/nibeheatpump/internal/connection/SerialConnector.java:290-318 | a token sends and removes the queue's head; on an empty queue it acknowledges the frame's address, failing with IndexOutOfBounds when the frame is too short |
| Arbitration.AnswerTokensFifo | addons/binding/org.openhab.binding.nibeheatpump/src/main/java/org/openhab/binding/nibeheatpump/internal/connection/SerialConnector2.java:222-234 | n tokens send the first n queued frames in the order they were queued |
| Arbitration.EnqueueBounded | addons/binding/org.openhab.binding.nibeheatpump/src/main/java/org/openhab/binding/nibeheatpump/internal/connection/SerialConnector.java:157-179 | a request is appended when the queue holds fewer than the bound and dropped otherwise |
| Arbitration.QueueBoundKept | addons/binding/org.openhab.binding.nibeheatpump/src/main/java/org/openhab/binding/nibeheatpump/internal/connection/SerialConnector.java:50-179 | neither enqueueing nor answering a token takes a queue above MAX_QUEUED_MSGS |
| SerialConnection.Put | addons/binding/org.openhab.binding.nibeheatpump/src/main/java/org/openhab/binding/nibeheatpump/internal/connection/SerialConnector.java:224-225 | ByteBuffer.put stores the byte and advances the position when there is room, and raises BufferOverflowException otherwise |
| SerialConnection.NextBy | addons/binding/org.openhab.binding.nibeheatpump/src/main/java/org/openhab/binding/nibeheatpump/internal/connection/SerialConnector.java:216-319 | one pass of the reader loop keeps the buffer consistent; the states that read no byte lead towards one that does; a halted reader stays halted; READ_TOKEN is entered only from itself |
| SerialConnection.NextWaitStart | addons/binding/org.openhab.binding.nibeheatpump/src/main/java/org/openhab/binding/nibeheatpump/internal/connection/SerialConnector.java:220-229 | WAIT_START keeps its state on any other byte, and on a start byte either collects data or (buffer full) ends the reader; the buffer stays consistent |
| SerialConnection.NextWaitData | addons/binding/org.openhab.binding.nibeheatpump/src/main/java/org/openhab/binding/nibeheatpump/internal/connection/SerialConnector.java:231-256 | WAIT_DATA never leads to READ_TOKEN; the buffer stays consistent |
| SerialConnection.NextOk | addons/binding/org.openhab.binding.nibeheatpump/src/main/java/org/openhab/binding/nibeheatpump/internal/connection/SerialConnector.java:268-288 | a received frame leads only to WRITE_TOKEN, back to WAIT_START, or to the end of the reader; READ_TOKEN is never entered |
| SerialConnection.NextToken | addons/binding/org.openhab.binding.nibeheatpump/src/main/java/org/openhab/binding/nibeheatpump/internal/connection/SerialConnector.java:290-318 | answering a token always returns to WAIT_START unless the reader ends |
| SerialConnection.RunBy | addons/binding/org.openhab.binding.nibeheatpump/src/main/java/org/openhab/binding/nibeheatpump/internal/connection/SerialConnector.java:216-327 | after any input the reader waits for a byte or has halted, and its buffer is consistent |
| SerialConnection.NextAsWritten | addons/binding/org.openhab.binding.nibeheatpump/src/main/java/org/openhab/binding/nibeheatpump/internal/connection/SerialConnector.java:216-319 | the reader loop as written never enters READ_TOKEN from another state |
| SerialConnection.Next | addons/binding/org.openhab.binding.nibeheatpump/src/main/java/org/openhab/binding/nibeheatpump/internal/connection/SerialConnector.java:216-319 | the corrected reader loop never enters READ_TOKEN from another state |
| SerialConnection.RunAppend | addons/binding/org.openhab.binding.nibeheatpump/src/main/java/org/openhab/binding/nibeheatpump/internal/connection/SerialConnector.java:216-327 | reading a+b is reading a and then b, so the reader is chunk-invariant |
| SerialConnection.ReadTokenUnreachable | addons/binding/org.openhab.binding.nibeheatpump/src/main/java/org/openhab/binding/nibeheatpump/internal/connection/SerialConnector.java:268-303 | no input ever brings the reader to its READ_TOKEN state |
| SerialConnection.PrefixStatus | addons/binding/org.openhab.binding.nibeheatpump/src/main/java/org/openhab/binding/nibeheatpump/internal/connection/SerialConnector.java:351-397 | both checks see a well-formed frame's proper prefixes as not ready and the whole frame as valid |
| SerialConnection.StepStart | addons/binding/org.openhab.binding.nibeheatpump/src/main/java/org/openhab/binding/nibeheatpump/internal/connection/SerialConnector.java:220-229 | a start byte is put into the buffer and starts data collection |
| SerialConnection.StepData | addons/binding/org.openhab.binding.nibeheatpump/src/main/java/org/openhab/binding/nibeheatpump/internal/connection/SerialConnector.java:231-256 | in WAIT_DATA a byte is stored and the buffer is checked |
| SerialConnection.StepOk | addons/binding/org.openhab.binding.nibeheatpump/src/main/java/org/openhab/binding/nibeheatpump/internal/connection/SerialConnector.java:268-288 | a valid frame is acknowledged, handed on, and the reader waits for a start byte again |
| SerialConnection.FeedFirst | addons/binding/org.openhab.binding.nibeheatpump/src/main/java/org/openhab/binding/nibeheatpump/internal/connection/SerialConnector.java:220-229 | the first byte of a frame begins its collection |
| SerialConnection.FeedByte | addons/binding/org.openhab.binding.nibeheatpump/src/main/java/org/openhab/binding/nibeheatpump/internal/connection/SerialConnector.java:231-288 | each further byte extends the collected prefix; the last one completes and hands on the frame |
| SerialConnection.FeedPrefix | addons/binding/org.openhab.binding.nibeheatpump/src/main/java/org/openhab/binding/nibeheatpump/internal/connection/SerialConnector.java:231-256 | after any proper prefix of a frame the reader holds exactly that prefix |
| SerialConnection.FeedFrame | addons/binding/org.openhab.binding.nibeheatpump/src/main/java/org/openhab/binding/nibeheatpump/internal/connection/SerialConnector.java:216-288 | a whole frame is handed on once, acknowledged as configured, and the reader waits for the next start byte |
| SerialConnection.BufferNeverResetAsWritten | addons/binding/org.openhab.binding.nibeheatpump/src/main/java/org/openhab/binding/nibeheatpump/internal/connection/SerialConnector.java:211-327 | as written, the start byte of the second frame overflows the never-cleared buffer and ends the reader thread |
| SerialConnection.FirstFrameDelivered | addons/binding/org.openhab.binding.nibeheatpump/src/main/java/org/openhab/binding/nibeheatpump/internal/connection/SerialConnector.java:216-288 | the corrected reader hands on the first frame of a stream |
| SerialConnection.FramesDeliveredInOrder | addons/binding/org.openhab.binding.nibeheatpump/src/main/java/org/openhab/binding/nibeheatpump/internal/connection/SerialConnector.java:216-327 | the corrected reader hands on every frame of a stream, in order, and ends waiting for a start byte |
| SerialConnection.SerialConnector.constructor | addons/binding/org.openhab.binding.nibeheatpump/src/main/java/org/openhab/binding/nibeheatpump/internal/connection/SerialConnector.java:56-77 | a new connector has empty queues, no listeners, no connection and nothing delivered; its reader is clean (WAIT_START, position 0, limit 100), as `run()` would start it |
| SerialConnection.SerialConnector.Connect | addons/binding/org.openhab.binding.nibeheatpump/src/main/java/org/openhab/binding/nibeheatpump/internal/connection/SerialConnector.java:83-122 | connecting again is a no-op that keeps the reader state, buffer and deliveries; otherwise the configuration is stored; a port failure is raised and leaves the reader untouched; on success both queues are cleared and the connector is connected |
| SerialConnection.SerialConnector.Disconnect | addons/binding/org.openhab.binding.nibeheatpump/src/main/java/org/openhab/binding/nibeheatpump/internal/connection/SerialConnector.java:125-154 | afterwards the connector is not connected and keeps its listeners and its deliveries |
| SerialConnection.SerialConnector.SendDatagram | addons/binding/org.openhab.binding.nibeheatpump/src/main/java/org/openhab/binding/nibeheatpump/internal/connection/SerialConnector.java:157-179 | a read or write request is queued in its own queue up to MAX_QUEUED_MSGS and dropped beyond it; other messages change nothing |
| SerialConnection.SerialConnector.SendAckToNibe | addons/binding/org.openhab.binding.nibeheatpump/src/main/java/org/openhab/binding/nibeheatpump/internal/connection/SerialConnector.java:409-423 | writes exactly the acknowledgement bytes the address calls for |
| SerialConnection.SerialConnector.SendNakToNibe | addons/binding/org.openhab.binding.nibeheatpump/src/main/java/org/openhab/binding/nibeheatpump/internal/connection/SerialConnector.java:399-407 | sendNakToNibe has its write commented out, so it writes nothing |
| SerialConnection.SerialConnector.Step | addons/binding/org.openhab.binding.nibeheatpump/src/main/java/org/openhab/binding/nibeheatpump/internal/connection/SerialConnector.java:216-319 | one pass of the reader loop, as written or corrected as `fixed` selects, changes the buffer, state and output exactly as NextBy does in that mode; at most one frame is handed on per pass; the listeners are called exactly when one is, and receive its events as DeliveriesFor gives them (through any `deliver` that `Delivers` ties to DeliveriesFor) |
| SerialConnection.SerialConnector.StepWaitStart | addons/binding/org.openhab.binding.nibeheatpump/src/main/java/org/openhab/binding/nibeheatpump/internal/connection/SerialConnector.java:220-229 | the WAIT_START branch follows NextWaitStart in the selected mode: as written the start byte is put after the previous frame, corrected the buffer is cleared first; a full buffer ends the reader |
| SerialConnection.SerialConnector.StepWaitData | addons/binding/org.openhab.binding.nibeheatpump/src/main/java/org/openhab/binding/nibeheatpump/internal/connection/SerialConnector.java:231-256 | the WAIT_DATA branch follows NextWaitData in the selected mode, with checkNibeMessage's checksum test as written or corrected |
| SerialConnection.SerialConnector.PutByte | addons/binding/org.openhab.binding.nibeheatpump/src/main/java/org/openhab/binding/nibeheatpump/internal/connection/SerialConnector.java:225-226 | ByteBuffer.put on the reader's buffer: the byte is stored at the position and the state moves on, or a full buffer ends the reader, exactly as Put |
| SerialConnection.SerialConnector.StepOk | addons/binding/org.openhab.binding.nibeheatpump/src/main/java/org/openhab/binding/nibeheatpump/internal/connection/SerialConnector.java:268-288 | the OK branch follows the step function and delivers the handed-on frame's events to the listeners, and nothing when no frame is handed on |
| SerialConnection.SerialConnector.Dispatch | addons/binding/org.openhab.binding.nibeheatpump/src/main/java/org/openhab/binding/nibeheatpump/internal/connection/SerialConnector.java:285 | the frame is recorded as handed on, and the listeners receive it as the factory types it, in order until one throws; an uncaught factory failure is returned |
| SerialConnection.SerialConnector.StepToken | addons/binding/org.openhab.binding.nibeheatpump/src/main/java/org/openhab/binding/nibeheatpump/internal/connection/SerialConnector.java:290-318 | the READ_TOKEN and WRITE_TOKEN branches follow the step function |
| SerialConnection.SerialConnector.Process | addons/binding/org.openhab.binding.nibeheatpump/src/main/java/org/openhab/binding/nibeheatpump/internal/connection/SerialConnector.java:197-327 | the reader loop over an input sequence ends in exactly the state RunBy defines for the selected mode, so BufferNeverResetAsWritten holds of it as written and FramesDeliveredInOrder corrected; the frames handed on extend the earlier ones, and the listeners receive exactly AllDeliveries of those new frames, frame by frame in order |
| SerialConnection.DeliveriesByAll | addons/binding/org.openhab.binding.nibeheatpump/src/main/java/org/openhab/binding/nibeheatpump/internal/connection/SerialConnector.java:285 | summing any per-frame event function that agrees with DeliveriesFor over a run of handed-on frames gives AllDeliveries, the events sendMsgToListeners produces for each frame in order |
| SerialConnection2.SerialConnector2.constructor | addons/binding/org.openhab.binding.nibeheatpump/src/main/java/org/openhab/binding/nibeheatpump/internal/connection/SerialConnector2.java:58-64 | a new connector has empty queues, no configuration and no connection |
| SerialConnection2.SerialConnector2.Connect | addons/binding/org.openhab.binding.nibeheatpump/src/main/java/org/openhab/binding/nibeheatpump/internal/connection/SerialConnector2.java:67-105 | connecting again is a no-op; otherwise the configuration is stored; a port failure is raised; on success both queues are cleared and the connector is connected |
| SerialConnection2.SerialConnector2.Disconnect | addons/binding/org.openhab.binding.nibeheatpump/src/main/java/org/openhab/binding/nibeheatpump/internal/connection/SerialConnector2.java:108-137 | afterwards the connector is not connected and keeps its listeners |
| SerialConnection2.SerialConnector2.SendDatagram | addons/binding/org.openhab.binding.nibeheatpump/src/main/java/org/openhab/binding/nibeheatpump/internal/connection/SerialConnector2.java:140-154 | a read or write request is appended to its own queue without bound; other messages change nothing |
| SerialConnection2.SerialConnector2.SendAckToNibe | addons/binding/org.openhab.binding.nibeheatpump/src/main/java/org/openhab/binding/nibeheatpump/internal/connection/SerialConnector2.java:320-337 | writes exactly the acknowledgement bytes the address calls for |
| SerialConnection2.SerialConnector2.SendAck | addons/binding/org.openhab.binding.nibeheatpump/src/main/java/org/openhab/binding/nibeheatpump/internal/connection/SerialConnector2.java:187-194 | acknowledges the frame's address byte; a frame too short for it raises IndexOutOfBounds and writes nothing |
| SerialConnection2.SerialConnector2.SendNak | addons/binding/org.openhab.binding.nibeheatpump/src/main/java/org/openhab/binding/nibeheatpump/internal/connection/SerialConnector2.java:197-199 | sendNak writes nothing |
| SerialConnection2.SerialConnector2.MsgReceived | addons/binding/org.openhab.binding.nibeheatpump/src/main/java/org/openhab/binding/nibeheatpump/internal/connection/SerialConnector2.java:202-204 | a received frame is typed and delivered to the listeners, or dropped when typing fails |
| SerialConnection2.SerialConnector2.AnswerFrom | addons/binding/org.openhab.binding.nibeheatpump/src/main/java/org/openhab/binding/nibeheatpump/internal/connection/SerialConnector2.java:222-234 | answering a token from a queue writes and removes its head, or acknowledges when it is empty, as AnswerToken defines |
| SerialConnection2.SerialConnector2.SendWriteMsgAsWritten | addons/binding/org.openhab.binding.nibeheatpump/src/main/java/org/openhab/binding/nibeheatpump/internal/connection/SerialConnector2.java:207-219 | as written, the write token is answered from the read queue and the write queue is left untouched |
| SerialConnection2.SerialConnector2.SendWriteMsg | addons/binding/org.openhab.binding.nibeheatpump/src/main/java/org/openhab/binding/nibeheatpump/internal/connection/SerialConnector2.java:207-219 | corrected, the write token is answered from the write queue and the read queue is left untouched |
| SerialConnection2.SerialConnector2.SendReadMsg | addons/binding/org.openhab.binding.nibeheatpump/src/main/java/org/openhab/binding/nibeheatpump/internal/connection/SerialConnector2.java:222-234 | the read token is answered from the read queue and the write queue is left untouched |
| SerialConnection2.WriteRequestStrandedAsWritten | addons/binding/org.openhab.binding.nibeheatpump/src/main/java/org/openhab/binding/nibeheatpump/internal/connection/SerialConnector2.java:140-219 | as written, a queued write request is never sent: the write token is only acknowledged and the request stays queued |
| SerialConnection2.WriteRequestSent | addons/binding/org.openhab.binding.nibeheatpump/src/main/java/org/openhab/binding/nibeheatpump/internal/connection/SerialConnector2.java:140-219 | corrected, the write token sends exactly the queued write request and empties the queue |
| SerialConnection2.ReadRequestsInOrder | addons/binding/org.openhab.binding.nibeheatpump/src/main/java/org/openhab/binding/nibeheatpump/internal/connection/SerialConnector2.java:140-234 | two queued read requests are sent by two read tokens in the order they were queued |
| Handler.Get | addons/binding/org.openhab.binding.nibeheatpump/src/main/java/org/openhab/binding/nibeheatpump/handler/NibeHeatPumpHandler.java:318 | Map.get: null for an absent coil and the stored entry otherwise |
| Handler.VariableUpdate | addons/binding/org.openhab.binding.nibeheatpump/src/main/java/org/openhab/binding/nibeheatpump/handler/NibeHeatPumpHandler.java:464-494 | at most one channel update; without an update the cache is unchanged; with one, the coil's cache entry holds the published value and the current time |
| Handler.UnknownCoilChangesNothing | addons/binding/org.openhab.binding.nibeheatpump/src/main/java/org/openhab/binding/nibeheatpump/handler/NibeHeatPumpHandler.java:468-472 | a value for a coil the pump model does not know changes neither the cache nor any channel |
| Handler.KnownCoilCached | addons/binding/org.openhab.binding.nibeheatpump/src/main/java/org/openhab/binding/nibeheatpump/handler/NibeHeatPumpHandler.java:474-492 | a known coil ends up caching its value divided by the coil's factor, and no other coil's entry changes |
| Handler.RepeatedUpdateIgnored | addons/binding/org.openhab.binding.nibeheatpump/src/main/java/org/openhab/binding/nibeheatpump/handler/NibeHeatPumpHandler.java:478-483 | the same value delivered twice publishes at most once: the second delivery changes nothing unless the value is NaN |
| Handler.OutdoorTemperatureUpdate | addons/binding/org.openhab.binding.nibeheatpump.test/src/test/java/org/openhab/binding/nibeheatpump/internal/models/VariableInformationTest.java:15-21 | the F1245 outdoor sensor 40004 (factor 10) with raw value 123 publishes 12.3 on its channel |
| Handler.ApplyAll | addons/binding/org.openhab.binding.nibeheatpump/src/main/java/org/openhab/binding/nibeheatpump/handler/NibeHeatPumpHandler.java:452-462 | a read-out publishes at most one update per value |
| Handler.ApplyAllStep | addons/binding/org.openhab.binding.nibeheatpump/src/main/java/org/openhab/binding/nibeheatpump/handler/NibeHeatPumpHandler.java:455-460 | the read-out applies the values one after another |
| Handler.ReadOutOfUnknownCoils | addons/binding/org.openhab.binding.nibeheatpump/src/main/java/org/openhab/binding/nibeheatpump/handler/NibeHeatPumpHandler.java:452-472 | a read-out of unknown coils changes nothing |
| Handler.ApplyAllCaches | addons/binding/org.openhab.binding.nibeheatpump/src/main/java/org/openhab/binding/nibeheatpump/handler/NibeHeatPumpHandler.java:452-492 | after a read-out of distinct coils every known coil caches its scaled value, and every coil not in the read-out keeps its entry |
| Handler.KnownOrUnknownKeepsOthers | addons/binding/org.openhab.binding.nibeheatpump/src/main/java/org/openhab/binding/nibeheatpump/handler/NibeHeatPumpHandler.java:464-494 | one update never touches another coil's cache entry |
| Handler.ApplyAllUnchanged | addons/binding/org.openhab.binding.nibeheatpump/src/main/java/org/openhab/binding/nibeheatpump/handler/NibeHeatPumpHandler.java:478-483 | a read-out whose known coils already cache the same values changes nothing |
| Handler.ReadOutRepeatedIgnored | addons/binding/org.openhab.binding.nibeheatpump/src/main/java/org/openhab/binding/nibeheatpump/handler/NibeHeatPumpHandler.java:452-494 | receiving the same read-out twice publishes nothing the second time (values not NaN, coils distinct) |
| Handler.PollOne | addons/binding/org.openhab.binding.nibeheatpump/src/main/java/org/openhab/binding/nibeheatpump/handler/NibeHeatPumpHandler.java:316-335 | a coil is queried exactly when the connector is connected and its cache entry is missing or older than the refresh interval; otherwise nothing changes |
| Handler.PollItems | addons/binding/org.openhab.binding.nibeheatpump/src/main/java/org/openhab/binding/nibeheatpump/handler/NibeHeatPumpHandler.java:315-355 | a tick queries at most one request per polled coil and nothing at all when disconnected |
| Handler.PollProgressStep | addons/binding/org.openhab.binding.nibeheatpump/src/main/java/org/openhab/binding/nibeheatpump/handler/NibeHeatPumpHandler.java:315-355 | each coil polled extends the tick's progress by that coil's outcome |
| Handler.PollProgressDone | addons/binding/org.openhab.binding.nibeheatpump/src/main/java/org/openhab/binding/nibeheatpump/handler/NibeHeatPumpHandler.java:315-355 | progress over every coil is the outcome of the whole tick |
| Handler.PollStep | addons/binding/org.openhab.binding.nibeheatpump/src/main/java/org/openhab/binding/nibeheatpump/handler/NibeHeatPumpHandler.java:315-355 | a tick is the first coil's outcome followed by the rest of the tick |
| Handler.PollQueriesOnlyItems | addons/binding/org.openhab.binding.nibeheatpump/src/main/java/org/openhab/binding/nibeheatpump/handler/NibeHeatPumpHandler.java:310-316 | only coils in the polling list are ever queried |
| Handler.PollNothingWhenFresh | addons/binding/org.openhab.binding.nibeheatpump/src/main/java/org/openhab/binding/nibeheatpump/handler/NibeHeatPumpHandler.java:318-321 | when every polled coil is fresh, a tick sends nothing and changes nothing |
| Handler.PollEverythingWhenEmpty | addons/binding/org.openhab.binding.nibeheatpump/src/main/java/org/openhab/binding/nibeheatpump/handler/NibeHeatPumpHandler.java:315-330 | with an empty cache and no replies, a connected tick queries every polled coil, in order |
| Handler.ReadRequests | addons/binding/org.openhab.binding.nibeheatpump/src/main/java/org/openhab/binding/nibeheatpump/handler/NibeHeatPumpHandler.java:326-328 | one read-request frame per queried coil |
| Handler.ReadRequestsAppend | addons/binding/org.openhab.binding.nibeheatpump/src/main/java/org/openhab/binding/nibeheatpump/handler/NibeHeatPumpHandler.java:326-328 | the frames for two lists of coils are the frames of each, concatenated |
| Handler.NoHashInNumber | addons/binding/org.openhab.binding.nibeheatpump/src/main/java/org/openhab/binding/nibeheatpump/handler/NibeHeatPumpHandler.java:197 | the decimal text of a number never contains '#' |
| Handler.ParseCoilAddress | addons/binding/org.openhab.binding.nibeheatpump/src/main/java/org/openhab/binding/nibeheatpump/handler/NibeHeatPumpHandler.java:196-203 | a parsed coil address is a 32-bit int |
| Handler.ParseChannelId | addons/binding/org.openhab.binding.nibeheatpump/src/main/java/org/openhab/binding/nibeheatpump/handler/NibeHeatPumpHandler.java:196-203 | a "type#coil" channel id parses back to its coil |
| Handler.ParsePlainId | addons/binding/org.openhab.binding.nibeheatpump/src/main/java/org/openhab/binding/nibeheatpump/handler/NibeHeatPumpHandler.java:200-202 | an id without '#' is read as a whole number |
| Handler.ParseSeparatorOnly | addons/binding/org.openhab.binding.nibeheatpump/src/main/java/org/openhab/binding/nibeheatpump/handler/NibeHeatPumpHandler.java:197-199 | the id "#" splits into no pieces and raises an index fault |
| Handler.ConvertStateToNibeValue | addons/binding/org.openhab.binding.nibeheatpump/src/main/java/org/openhab/binding/nibeheatpump/handler/NibeHeatPumpHandler.java:359-369 | a converted command is a 32-bit int |
| Handler.ConvertStates | addons/binding/org.openhab.binding.nibeheatpump/src/main/java/org/openhab/binding/nibeheatpump/handler/NibeHeatPumpHandler.java:359-369 | ON is 1, OFF is 0, and a decimal command text gives its number |
| Handler.CommandEffect | addons/binding/org.openhab.binding.nibeheatpump/src/main/java/org/openhab/binding/nibeheatpump/handler/NibeHeatPumpHandler.java:101-171 | an unparsable id fails; REFRESH clears the coil's cache; with writes disabled a command is ignored; a write happens only when writes are enabled, a connector exists and the coil is a setting, with the value scaled by the coil's factor and wrapped to 32 bits |
| Handler.NibeHeatPumpHandler.constructor | addons/binding/org.openhab.binding.nibeheatpump/src/main/java/org/openhab/binding/nibeheatpump/handler/NibeHeatPumpHandler.java:69-99 | a new handler polls nothing, caches nothing and has no pending results |
| Handler.NibeHeatPumpHandler.ClearCache | addons/binding/org.openhab.binding.nibeheatpump/src/main/java/org/openhab/binding/nibeheatpump/handler/NibeHeatPumpHandler.java:399-401 | clearing empties the whole cache and leaves every other field alone |
| Handler.NibeHeatPumpHandler.ClearCacheOf | addons/binding/org.openhab.binding.nibeheatpump/src/main/java/org/openhab/binding/nibeheatpump/handler/NibeHeatPumpHandler.java:403-405 | after clearing a coil it needs a query on the next tick; no other coil's entry changes |
| Handler.NibeHeatPumpHandler.ChannelLinked | addons/binding/org.openhab.binding.nibeheatpump/src/main/java/org/openhab/binding/nibeheatpump/handler/NibeHeatPumpHandler.java:174-183 | linking appends the coil to the polling list and clears its cache entry; an unparsable id raises and changes nothing |
| Handler.NibeHeatPumpHandler.ChannelUnlinkedAsWritten | addons/binding/org.openhab.binding.nibeheatpump/src/main/java/org/openhab/binding/nibeheatpump/handler/NibeHeatPumpHandler.java:186-194 | as written, unlinking removes the polling entry at the index equal to the coil address, failing when that index is out of range |
| Handler.NibeHeatPumpHandler.ChannelUnlinked | addons/binding/org.openhab.binding.nibeheatpump/src/main/java/org/openhab/binding/nibeheatpump/handler/NibeHeatPumpHandler.java:186-194 | corrected, unlinking removes the first occurrence of the coil from the polling list |
| Handler.NibeHeatPumpHandler.HandleVariableUpdate | addons/binding/org.openhab.binding.nibeheatpump/src/main/java/org/openhab/binding/nibeheatpump/handler/NibeHeatPumpHandler.java:464-494 | the cache and the published updates change exactly as VariableUpdate defines; no other field changes, and no reconnection is requested |
| Handler.NibeHeatPumpHandler.HandleDataReadOut | addons/binding/org.openhab.binding.nibeheatpump/src/main/java/org/openhab/binding/nibeheatpump/handler/NibeHeatPumpHandler.java:452-462 | the loop over a read-out changes the cache and updates exactly as ApplyAll defines; no other field changes, and no reconnection is requested |
| Handler.NibeHeatPumpHandler.HandleReadResponse | addons/binding/org.openhab.binding.nibeheatpump/src/main/java/org/openhab/binding/nibeheatpump/handler/NibeHeatPumpHandler.java:438-443 | a read response completes the pending read result, if there is one, and changes nothing else |
| Handler.NibeHeatPumpHandler.HandleWriteResponse | addons/binding/org.openhab.binding.nibeheatpump/src/main/java/org/openhab/binding/nibeheatpump/handler/NibeHeatPumpHandler.java:445-450 | a write response completes the pending write result, if there is one, and changes nothing else |
| Handler.NibeHeatPumpHandler.MsgReceived | addons/binding/org.openhab.binding.nibeheatpump/src/main/java/org/openhab/binding/nibeheatpump/handler/NibeHeatPumpHandler.java:413-429 | data read-outs update the cache, read and write responses complete their pending results, and other messages change nothing; the model, configuration and reconnection flag are never touched |
| Handler.NibeHeatPumpHandler.ErrorOccured | addons/binding/org.openhab.binding.nibeheatpump/src/main/java/org/openhab/binding/nibeheatpump/handler/NibeHeatPumpHandler.java:431-436 | an error requests a reconnection and changes no other field |
| Handler.NibeHeatPumpHandler.HandleCommand | addons/binding/org.openhab.binding.nibeheatpump/src/main/java/org/openhab/binding/nibeheatpump/handler/NibeHeatPumpHandler.java:101-171 | the command has exactly the effect CommandEffect defines: a write queues one write request and clears the coil's cache, REFRESH clears it, and anything else leaves the pending write result alone; it never requests a reconnection and keeps the connector's output and configuration |
| Handler.NibeHeatPumpHandler.PollItem | addons/binding/org.openhab.binding.nibeheatpump/src/main/java/org/openhab/binding/nibeheatpump/handler/NibeHeatPumpHandler.java:316-350 | polling one coil queues its read request and applies its reply exactly as PollOne defines; the pending read result is null afterwards whenever a request was sent; it never requests a reconnection and keeps the connector's output and configuration |
| Handler.NibeHeatPumpHandler.PollAll | addons/binding/org.openhab.binding.nibeheatpump/src/main/java/org/openhab/binding/nibeheatpump/handler/NibeHeatPumpHandler.java:315-355 | the loop over a copy of the polling list queues the read requests, and changes the cache and updates, exactly as PollItems defines, never requesting a reconnection and keeping the connector's output and configuration |
| Handler.NibeHeatPumpHandler.PollTick | addons/binding/org.openhab.binding.nibeheatpump/src/main/java/org/openhab/binding/nibeheatpump/handler/NibeHeatPumpHandler.java:301-357 | with reads disabled a tick does nothing; otherwise it queues read requests for exactly the stale coils as PollItems defines, leaves the write queue alone and leaves the pending read result null once it has sent anything; it never requests a reconnection and keeps the connector's output and configuration |
| Handler.UnlinkRemovesByIndexAsWritten | addons/binding/org.openhab.binding.nibeheatpump/src/main/java/org/openhab/binding/nibeheatpump/handler/NibeHeatPumpHandler.java:186-194 | as written, after linking coils 1 and 0, unlinking coil 0 removes index 0, which holds coil 1, and coil 0 stays polled |
| Handler.UnlinkThrowsAsWritten | addons/binding/org.openhab.binding.nibeheatpump/src/main/java/org/openhab/binding/nibeheatpump/handler/NibeHeatPumpHandler.java:186-194 | as written, unlinking coil 40004 from [40004] raises IndexOutOfBounds and keeps polling it |
| Handler.LinkedCoilPolled | addons/binding/org.openhab.binding.nibeheatpump/src/main/java/org/openhab/binding/nibeheatpump/handler/NibeHeatPumpHandler.java:174-335 | after a channel is linked on a connected handler, the next tick sends exactly one read request for its coil |
| Handler.LinkThenUnlinkRestores | addons/binding/org.openhab.binding.nibeheatpump/src/main/java/org/openhab/binding/nibeheatpump/handler/NibeHeatPumpHandler.java:174-194 | corrected, linking then unlinking a coil restores the polling list as a multiset |
| Handler.UnlinkStopsPolling | addons/binding/org.openhab.binding.nibeheatpump/src/main/java/org/openhab/binding/nibeheatpump/handler/NibeHeatPumpHandler.java:174-194 | corrected, linking then unlinking a coil that was not polled gives back the original list, without that coil |

## Left out

- Serial port I/O, the RXTX port setup, `getAllAvailableBytes`, threads, `synchronized` and thread interrupts are not modelled. Input bytes are a sequence, output bytes an appended log, and each operation runs atomically.
- IOException paths of writes to the port are not modelled, so port writes never fail.
- `NibeHeatPumpProtocol`, `VariableInformation` and the decoders of the data read-out, read request, read response and write request messages are not part of this model. Their constants and functions are declared without a definition.
- `NibeHeatPumpProtocolState` and `NibeHeatPumpProtocolDefaultContext` are not part of this model. The callbacks of `SerialConnector2` take the frame the state machine holds as a parameter.
- The UDP and simulator connectors, `NibeHeatPumpHandlerFactory` and the framework's `initialize`, `connect`, `dispose`, `closeConnection`, `updateStatus` and `updateState` are not modelled. A published state is an entry in `updates`.
- Handler.NibeHeatPumpHandler.constructor: takes the connector that `initialize` would create, or null; the pump model is F1245 until initialisation, which is not modelled.
- Handler.NibeHeatPumpHandler.PollTick: `NibeHeatPumpCommandResult.get` with its timeout is replaced by the `answer` parameter. The timeout, interruption and execution exceptions and their status updates are not modelled.
- Handler.NibeHeatPumpHandler.PollTick: the clock is read once per tick rather than once per polled coil. A clock that moves during a tick is not modelled.
- Handler.NeedsQuery: `lastUpdateTime + refreshInterval` is unbounded, so long overflow is not modelled.
- Handler.VariableUpdate: the division by the factor is exact; double rounding is not modelled. Only `NaN`'s inequality to itself and the infinities of a zero factor are kept. `convertNibeValueToState` is not modelled. The exception raised when the thing has no channel for a coil is not modelled.
- Handler.NibeHeatPumpHandler.HandleCommand: the reply to the write request is not awaited and `isSuccessfull` is not inspected. Both only affect logging.
- Messages.ModbusWriteResponseMessage.IsSuccessfull and Connectors.BaseConnector.IsConnected read a field and carry no contract.
- Text.EqualsIgnoreCase: folds case for ASCII letters only. This is enough for the ASCII pump-model names, but other scripts are not modelled.
- Text.ParseInt: reads ASCII digits with an optional sign. Java's acceptance of other Unicode digits is not modelled.
- Logging and `toString` are left out.

## Findings

| source | as written | input that shows it | evidently intended | confidence | as-written member | corrected member |
|---|---|---|---|---|---|---|
| addons/binding/org.openhab.binding.nibeheatpump/src/main/java/org/openhab/binding/nibeheatpump/internal/connection/SerialConnector.java:211-288 | the reader's ByteBuffer is never cleared; after a frame, flip and get leave position at limit | any valid frame followed by another start byte | clear the buffer when a new frame starts, so every frame in the stream is handed on | high, not executed | SerialConnection.BufferNeverResetAsWritten | SerialConnection.FramesDeliveredInOrder |
| addons/binding/org.openhab.binding.nibeheatpump/src/main/java/org/openhab/binding/nibeheatpump/internal/connection/SerialConnector.java:382-390 | `msg_checksum != 0xC5` compares a signed byte with 197 and is always true, so a computed 0x5C accepts any trailing byte | a frame whose XOR is 0x5C with trailing byte 0x00 | accept 0x5C arriving as 0xC5 and no other mismatch | high, not executed | FrameCheck.ChecksumAsWrittenAcceptsAnyAfter5C | FrameCheck.ChecksumAcceptedOnlySubstitution |
| addons/binding/org.openhab.binding.nibeheatpump/src/main/java/org/openhab/binding/nibeheatpump/internal/connection/SerialConnector2.java:207-219 | sendWriteMsg answers the write token from the read queue | one queued write request, then a write token | send the queued write request | high, not executed | SerialConnection2.WriteRequestStrandedAsWritten | SerialConnection2.WriteRequestSent |
| addons/binding/org.openhab.binding.nibeheatpump/src/main/java/org/openhab/binding/nibeheatpump/handler/NibeHeatPumpHandler.java:191-193 | `itemsToPoll.remove(coilAddress)` with an int removes by index | unlink coil 40004 while polling [40004] | remove the coil itself | high, not executed | Handler.UnlinkThrowsAsWritten | Handler.UnlinkStopsPolling |

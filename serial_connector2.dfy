/** The second serial connector (SerialConnector2.java), the one the handler
    uses: unbounded request queues and the callbacks through which the
    protocol state machine (not part of this model) answers tokens. The
    frame the state machine currently holds is passed to each callback as
    `token`; bytes written to the port are appended to `out`. */
module SerialConnection2 {
  import opened Common
  import opened Protocol
  import opened MessageFactory
  import opened Connectors
  import opened Arbitration

  class SerialConnector2 {
    const base: BaseConnector
    var conf: Option<Configuration>
    var readQueue: seq<seq<byte>>
    var writeQueue: seq<seq<byte>>
    /** Bytes written to the serial port. */
    var out: seq<byte>

    /** new SerialConnector2(): no configuration, empty queues, not
        connected. */
    constructor ()
      ensures fresh(base) && !base.connected && base.listeners == [] && base.delivered == []
      ensures conf == None && readQueue == [] && writeQueue == [] && out == []
    {
      base := new BaseConnector();
      conf := None;
      readQueue := [];
      writeQueue := [];
      out := [];
    }

    /** connect(configuration): nothing when already connected; otherwise
        the configuration is stored, the port opened (its failure, passed in,
        is thrown), both queues cleared and the connector connected. */
    method Connect(configuration: Configuration, portFailure: Option<Error>) returns (err: Option<Error>)
      modifies this, base
      ensures old(base.connected) ==> err == None && conf == old(conf) && base.connected
      ensures old(base.connected) ==> readQueue == old(readQueue) && writeQueue == old(writeQueue)
      ensures !old(base.connected) ==> conf == Some(configuration) && err == portFailure
      ensures !old(base.connected) && portFailure.None? ==> readQueue == [] && writeQueue == [] && base.connected
      ensures !old(base.connected) && portFailure.Some? ==>
        !base.connected && readQueue == old(readQueue) && writeQueue == old(writeQueue)
      ensures out == old(out) && base.listeners == old(base.listeners) && base.delivered == old(base.delivered)
    {
      if base.connected {
        return None;
      }
      conf := Some(configuration);
      if portFailure.Some? {
        return portFailure;
      }
      readQueue := [];
      writeQueue := [];
      base.connected := true;
      return None;
    }

    /** disconnect(): the connector is no longer connected; the queues are
        kept. */
    method Disconnect()
      modifies base
      ensures !base.connected && base.listeners == old(base.listeners) && base.delivered == old(base.delivered)
    {
      base.connected := false;
    }

    /** sendDatagram(msg): a write request is appended to the write queue, a
        read request to the read queue, with no bound; other messages are
        ignored. */
    method SendDatagram(m: Message)
      modifies this
      ensures m.WriteRequestMsg? ==> writeQueue == old(writeQueue) + [RequestFrame(m)]
      ensures !m.WriteRequestMsg? ==> writeQueue == old(writeQueue)
      ensures m.ReadRequestMsg? ==> readQueue == old(readQueue) + [RequestFrame(m)]
      ensures !m.ReadRequestMsg? ==> readQueue == old(readQueue)
      ensures conf == old(conf) && out == old(out)
    {
      if m.WriteRequestMsg? {
        writeQueue := writeQueue + [RequestFrame(m)];
      } else if m.ReadRequestMsg? {
        readQueue := readQueue + [RequestFrame(m)];
      }
    }

    /** sendAckToNibe(address): write 0x06 when the address is an accessory
        whose acknowledgement is enabled. */
    method SendAckToNibe(address: byte)
      requires conf.Some?
      modifies this
      ensures conf == old(conf) && out == old(out) + AckBytes(conf.value, address)
      ensures readQueue == old(readQueue) && writeQueue == old(writeQueue)
    {
      out := out + AckBytes(conf.value, address);
    }

    /** The context's sendAck(): acknowledge the address byte of the frame
        held; a frame too short for it throws. */
    method SendAck(token: seq<byte>) returns (fault: Option<Error>)
      requires conf.Some?
      modifies this
      ensures conf == old(conf) && readQueue == old(readQueue) && writeQueue == old(writeQueue)
      ensures OffsetAdr < |token| ==> fault == None && out == old(out) + AckBytes(conf.value, token[OffsetAdr])
      ensures OffsetAdr >= |token| ==> fault == Some(IndexOutOfBounds) && out == old(out)
    {
      if OffsetAdr >= |token| {
        return Some(IndexOutOfBounds);
      }
      SendAckToNibe(token[OffsetAdr]);
      return None;
    }

    /** The context's sendNak(): does nothing. */
    method SendNak()
      ensures out == old(out)
    {
    }

    /** The context's msgReceived(data): hand the frame to the listeners. */
    method MsgReceived(data: seq<byte>, throwing: set<ListenerId>) returns (fault: Option<Error>)
      modifies base
      ensures fault == DispatchFault(data)
      ensures GetMessage(Some(data)).Err? ==> base.delivered == old(base.delivered)
      ensures GetMessage(Some(data)).Ok? ==>
        base.delivered == old(base.delivered) + Deliveries(base.listeners, MessageEvent(GetMessage(Some(data)).value), throwing)
      ensures base.listeners == old(base.listeners) && base.connected == old(base.connected)
    {
      fault := base.SendDataToListeners(data, throwing);
    }

    /** Answer a token from one queue: send and remove its head, or, when it
        is empty, acknowledge the frame's address. */
    method AnswerFrom(fromWriteQueue: bool, token: seq<byte>) returns (fault: Option<Error>)
      requires conf.Some?
      modifies this
      ensures conf == old(conf)
      ensures var a := AnswerToken(if fromWriteQueue then old(writeQueue) else old(readQueue), token, conf.value);
        fault == a.fault && out == old(out) + a.written &&
        (if fromWriteQueue then writeQueue == a.queue && readQueue == old(readQueue)
         else readQueue == a.queue && writeQueue == old(writeQueue))
    {
      var queue := if fromWriteQueue then writeQueue else readQueue;
      if queue != [] {
        out := out + queue[0];
        if fromWriteQueue {
          writeQueue := queue[1..];
        } else {
          readQueue := queue[1..];
        }
        return None;
      }
      fault := SendAck(token);
    }

    /** The context's sendWriteMsg() as written: it answers the write token
        from the read queue, so the write queue is never drained. */
    method SendWriteMsgAsWritten(token: seq<byte>) returns (fault: Option<Error>)
      requires conf.Some?
      modifies this
      ensures conf == old(conf) && writeQueue == old(writeQueue)
      ensures var a := AnswerToken(old(readQueue), token, conf.value);
        fault == a.fault && out == old(out) + a.written && readQueue == a.queue
    {
      fault := AnswerFrom(false, token);
    }

    /** The context's sendWriteMsg() corrected: the write token is answered
        from the write queue. */
    method SendWriteMsg(token: seq<byte>) returns (fault: Option<Error>)
      requires conf.Some?
      modifies this
      ensures conf == old(conf) && readQueue == old(readQueue)
      ensures var a := AnswerToken(old(writeQueue), token, conf.value);
        fault == a.fault && out == old(out) + a.written && writeQueue == a.queue
    {
      fault := AnswerFrom(true, token);
    }

    /** The context's sendReadMsg(): the read token is answered from the read
        queue. */
    method SendReadMsg(token: seq<byte>) returns (fault: Option<Error>)
      requires conf.Some?
      modifies this
      ensures conf == old(conf) && writeQueue == old(writeQueue)
      ensures var a := AnswerToken(old(readQueue), token, conf.value);
        fault == a.fault && out == old(out) + a.written && readQueue == a.queue
    {
      fault := AnswerFrom(false, token);
    }
  }

  /** As written, a write request queued on a freshly connected connector is
      not sent in answer to the write token: the token is only acknowledged
      and the request stays queued. */
  method WriteRequestStrandedAsWritten(configuration: Configuration, m: Message, token: seq<byte>)
    returns (written: seq<byte>, pending: seq<seq<byte>>)
    requires m.WriteRequestMsg? && OffsetAdr < |token|
    ensures written == AckBytes(configuration, token[OffsetAdr])
    ensures pending == [RequestFrame(m)]
  {
    var c := new SerialConnector2();
    var err := c.Connect(configuration, None);
    c.SendDatagram(m);
    var fault := c.SendWriteMsgAsWritten(token);
    written, pending := c.out, c.writeQueue;
  }

  /** Corrected, the write token sends the queued write request and empties
      the write queue. */
  method WriteRequestSent(configuration: Configuration, m: Message, token: seq<byte>)
    returns (written: seq<byte>, pending: seq<seq<byte>>)
    requires m.WriteRequestMsg?
    ensures written == RequestFrame(m)
    ensures pending == []
  {
    var c := new SerialConnector2();
    var err := c.Connect(configuration, None);
    c.SendDatagram(m);
    var fault := c.SendWriteMsg(token);
    written, pending := c.out, c.writeQueue;
  }

  /** Requests are answered first in, first out: after two read requests,
      two read tokens send their frames in the order they were queued. */
  method ReadRequestsInOrder(configuration: Configuration, m1: Message, m2: Message, token: seq<byte>)
    returns (written: seq<byte>, pending: seq<seq<byte>>)
    requires m1.ReadRequestMsg? && m2.ReadRequestMsg?
    ensures written == RequestFrame(m1) + RequestFrame(m2)
    ensures pending == []
  {
    var c := new SerialConnector2();
    var err := c.Connect(configuration, None);
    c.SendDatagram(m1);
    c.SendDatagram(m2);
    var f1 := c.SendReadMsg(token);
    var f2 := c.SendReadMsg(token);
    written, pending := c.out, c.readQueue;
  }
}

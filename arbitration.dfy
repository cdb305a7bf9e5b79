/** How both serial connectors use the bus token the pump hands out: a
    queued request frame is written in answer to the token, or else the
    token frame is acknowledged (the token states of SerialConnector.java,
    the sendWriteMsg/sendReadMsg callbacks of SerialConnector2.java), and
    how requests are queued for it (sendDatagram). */
module Arbitration {
  import opened Common
  import opened Protocol

  /** The queue after answering a token, the bytes written to the port,
      and the runtime exception raised, if any. */
  datatype Answer = Answer(queue: seq<seq<byte>>, written: seq<byte>, fault: Option<Error>)

  /** Answer a token: a non-empty queue loses its head, which is written;
      an empty queue stays empty and the address byte of the token frame
      decides the acknowledgement (an absolute get() beyond the frame
      throws instead). */
  function AnswerToken(queue: seq<seq<byte>>, token: seq<byte>, conf: Configuration): (a: Answer)
    ensures queue != [] ==> a.fault == None && a.written == queue[0] && [queue[0]] + a.queue == queue
    ensures queue == [] ==> a.queue == [] && (a.fault.None? <==> OffsetAdr < |token|)
    ensures queue == [] && a.fault.None? ==> a.written == AckBytes(conf, token[OffsetAdr])
    ensures a.fault.Some? ==> a.fault == Some(IndexOutOfBounds) && a.written == []
  {
    if queue != [] then Answer(queue[1..], queue[0], None)
    else if OffsetAdr < |token| then Answer([], AckBytes(conf, token[OffsetAdr]), None)
    else Answer([], [], Some(IndexOutOfBounds))
  }

  /** The frames of a queue written back to back. */
  function Concat(frames: seq<seq<byte>>): (bytes: seq<byte>)
  {
    if frames == [] then [] else frames[0] + Concat(frames[1..])
  }

  /** The effect of answering n tokens in a row with no new requests. */
  function AnswerTokens(queue: seq<seq<byte>>, token: seq<byte>, conf: Configuration, n: nat): (a: Answer)
  {
    if n == 0 then Answer(queue, [], None)
    else
      var first := AnswerToken(queue, token, conf);
      if first.fault.Some? then first
      else
        var rest := AnswerTokens(first.queue, token, conf, n - 1);
        Answer(rest.queue, first.written + rest.written, rest.fault)
  }

  /** First in, first out: n tokens answered against a queue of at least n
      frames write exactly the first n frames in queue order, one per
      token, and leave the others queued. */
  lemma {:induction false} AnswerTokensFifo(queue: seq<seq<byte>>, token: seq<byte>, conf: Configuration, n: nat)
    requires n <= |queue|
    ensures AnswerTokens(queue, token, conf, n) == Answer(queue[n..], Concat(queue[..n]), None)
  {
    if n > 0 {
      AnswerTokensFifo(queue[1..], token, conf, n - 1);
      assert queue[1..][n - 1..] == queue[n..];
      assert queue[..n] == [queue[0]] + queue[1..][..n - 1];
    }
  }

  /** sendDatagram of the first connector: a request joins its queue only
      while the queue holds fewer than `max` frames, else it is dropped. */
  function EnqueueBounded(queue: seq<seq<byte>>, frame: seq<byte>, max: nat): (q: seq<seq<byte>>)
    ensures |queue| < max ==> q == queue + [frame]
    ensures |queue| >= max ==> q == queue
  {
    if |queue| >= max then queue else queue + [frame]
  }

  /** The bound on a queue survives any mix of enqueued requests and
      answered tokens. */
  lemma QueueBoundKept(queue: seq<seq<byte>>, frame: seq<byte>, token: seq<byte>, conf: Configuration, max: nat)
    requires |queue| <= max
    ensures |EnqueueBounded(queue, frame, max)| <= max
    ensures |AnswerToken(queue, token, conf).queue| <= max
  {
  }
}

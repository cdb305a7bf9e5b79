/** The first serial connector (SerialConnector.java): a reader that steps
    a six-state machine once per loop iteration over a 100-byte ByteBuffer,
    bounded request queues, and the acknowledgement policy. The serial port
    itself is not modelled: bytes read are an input sequence and bytes
    written are appended to `out`. */
module SerialConnection {
  import opened Common
  import opened Protocol
  import opened FrameCheck
  import opened MessageFactory
  import opened Connectors
  import opened Arbitration

  /** MAX_QUEUED_MSGS: a request is dropped while its queue holds this many. */
  const MaxQueuedMsgs: nat := 1
  /** dataBufferMaxLen: the capacity of the reader's ByteBuffer. */
  const DataBufferMaxLen: nat := 100

  /** StateMachine, plus the end of the reader thread by an exception the
      loop does not catch. */
  datatype ReaderState =
    | WaitStart
    | WaitData
    | OkMessageReceived
    | WriteTokenReceived
    | ReadTokenReceived
    | CrcFailure
    | Halted(reason: Error)

  /** Everything the reader loop reads or changes: its state, the ByteBuffer
      (content, position, limit), both queues, the bytes written to the
      port and the frames handed to sendMsgToListeners. */
  datatype Reader = Reader(
    state: ReaderState,
    buf: seq<byte>,
    position: nat,
    limit: nat,
    readQueue: seq<seq<byte>>,
    writeQueue: seq<seq<byte>>,
    out: seq<byte>,
    dispatched: seq<seq<byte>>)

  /** The ByteBuffer invariant: position <= limit <= capacity. */
  predicate BufferOk(r: Reader)
  {
    |r.buf| == DataBufferMaxLen && r.position <= r.limit <= DataBufferMaxLen
  }

  /** A reader as the thread starts it: WAIT_START over a fresh buffer. */
  predicate Clean(r: Reader)
  {
    BufferOk(r) && r.state == WaitStart && r.position == 0 && r.limit == DataBufferMaxLen
  }

  /** The states that read a byte in their loop iteration. */
  predicate Reads(s: ReaderState)
  {
    s == WaitStart || s == WaitData
  }

  /** How many iterations a state needs before it reads again. */
  function Rank(s: ReaderState): nat
  {
    match s
    case OkMessageReceived => 2
    case WriteTokenReceived => 1
    case ReadTokenReceived => 1
    case CrcFailure => 1
    case _ => 0
  }

  /** in.read() returns an int in 0..255, compared with the start byte
      widened with sign extension. */
  predicate IsStartByte(b: byte)
  {
    b as int == Signed(FrameStartFromNibe)
  }

  /** ByteBuffer.put(b) followed by the move to `next`; a full buffer throws
      BufferOverflowException, which ends the reader thread. */
  function Put(r: Reader, b: byte, next: ReaderState): (r': Reader)
    requires BufferOk(r)
    ensures BufferOk(r')
    ensures r.position < r.limit ==>
      r' == r.(buf := r.buf[r.position := b], position := r.position + 1, state := next)
    ensures r.position >= r.limit ==> r' == r.(state := Halted(BufferOverflow))
  {
    if r.position >= r.limit then r.(state := Halted(BufferOverflow))
    else r.(buf := r.buf[r.position := b], position := r.position + 1, state := next)
  }

  /** The state WAIT_DATA moves to for each outcome of checkNibeMessage;
      only the checksum exception is caught. */
  function AfterCheck(s: Status): ReaderState
  {
    match s
    case Invalid => WaitStart
    case Valid => OkMessageReceived
    case NotReady => WaitData
    case ChecksumFailure => CrcFailure
    case Fault(e) => Halted(e)
  }

  /** WAIT_START: a start byte is put into the buffer (the corrected reader
      first clears it) and data collection begins; other bytes are
      skipped. */
  function NextWaitStart(r: Reader, b: byte, fixed: bool): (r': Reader)
    requires BufferOk(r)
    ensures BufferOk(r')
    ensures r'.state == r.state || r'.state == WaitData || r'.state.Halted?
    ensures r'.dispatched == r.dispatched
  {
    if !IsStartByte(b) then r
    else Put(Restart(r, fixed), b, WaitData)
  }

  /** The buffer a new frame is put into: cleared by the corrected reader,
      left as it is by the reader as written. */
  function Restart(r: Reader, fixed: bool): (r': Reader)
    requires BufferOk(r)
    ensures BufferOk(r')
  {
    if fixed then r.(position := 0, limit := DataBufferMaxLen) else r
  }

  /** On a start byte, WAIT_START puts it into the restarted buffer. */
  lemma NextWaitStartPuts(r: Reader, b: byte, fixed: bool)
    requires BufferOk(r) && IsStartByte(b)
    ensures NextWaitStart(r, b, fixed) == Put(Restart(r, fixed), b, WaitData)
  {
  }

  /** WAIT_DATA: a full buffer starts over; otherwise the byte is put and the
      buffered bytes are checked. */
  function NextWaitData(r: Reader, b: byte, fixed: bool): (r': Reader)
    requires BufferOk(r)
    ensures BufferOk(r')
    ensures r'.state != ReadTokenReceived
    ensures r'.dispatched == r.dispatched
  {
    if r.position >= DataBufferMaxLen then r.(state := WaitStart)
    else if r.position >= r.limit then r.(state := Halted(BufferOverflow))
    else
      var r1 := r.(buf := r.buf[r.position := b], position := r.position + 1);
      r1.(state := AfterCheck(ClassifyBy(r1.buf[..r1.position], fixed)))
  }

  /** OK_MESSAGE_RECEIVED: a write token moves to WRITE_TOKEN_RECEIVED;
      any other frame is acknowledged and handed to the listeners. */
  function NextOk(r: Reader, conf: Configuration): (r': Reader)
    requires BufferOk(r)
    ensures BufferOk(r')
    ensures r'.state == WriteTokenReceived || r'.state == WaitStart || r'.state.Halted?
  {
    var data := r.buf[..r.position];
    // flip() sets the limit to the position; get(data) moves the position back to it.
    var r1 := r.(limit := r.position);
    // The read-token test sets READ_TOKEN_RECEIVED, but the if/else that
    // follows assigns the state on both branches.
    if IsModbus40WriteTokenPdu(data) then r1.(state := WriteTokenReceived)
    else if OffsetAdr >= r1.limit then r1.(state := Halted(IndexOutOfBounds))
    else
      var r2 := r1.(out := r1.out + AckBytes(conf, r1.buf[OffsetAdr]), dispatched := r1.dispatched + [data]);
      r2.(state := if DispatchFault(data).Some? then Halted(DispatchFault(data).value) else WaitStart)
  }

  /** A token state: answer the token from the read queue (readToken) or the
      write queue, taking the flipped buffer up to its limit as the token
      frame, and return to WAIT_START. */
  function NextToken(r: Reader, conf: Configuration, readToken: bool): (r': Reader)
    requires BufferOk(r)
    ensures BufferOk(r')
    ensures r'.state == WaitStart || r'.state.Halted?
    ensures r'.dispatched == r.dispatched
  {
    var a := AnswerToken(if readToken then r.readQueue else r.writeQueue, r.buf[..r.limit], conf);
    var r1 := if readToken then r.(readQueue := a.queue) else r.(writeQueue := a.queue);
    r1.(out := r.out + a.written, state := if a.fault.Some? then Halted(a.fault.value) else WaitStart)
  }

  /** One iteration of the reader loop. States that read consume b; the
      others ignore it. `fixed` selects the corrected reader (the buffer is
      cleared when a new frame starts, and checkNibeMessage uses the
      intended checksum test); false is the code as written. */
  function NextBy(r: Reader, b: byte, conf: Configuration, fixed: bool): (r': Reader)
    requires BufferOk(r)
    ensures BufferOk(r')
    ensures !Reads(r.state) && !r.state.Halted? ==> Rank(r'.state) < Rank(r.state)
    ensures r.state.Halted? ==> r' == r
    ensures r'.state == ReadTokenReceived ==> r.state == ReadTokenReceived
  {
    match r.state
    case WaitStart => NextWaitStart(r, b, fixed)
    case WaitData => NextWaitData(r, b, fixed)
    case CrcFailure => r.(state := WaitStart)
    case OkMessageReceived => NextOk(r, conf)
    case ReadTokenReceived => NextToken(r, conf, true)
    case WriteTokenReceived => NextToken(r, conf, false)
    case Halted(_) => r
  }

  /** The reader loop over an input: iterate until the input is used up in
      a state that needs a byte, or the thread has ended. */
  function RunBy(r: Reader, input: seq<byte>, conf: Configuration, fixed: bool): (r': Reader)
    requires BufferOk(r)
    ensures BufferOk(r')
    ensures r'.state.Halted? || Reads(r'.state)
    decreases |input|, Rank(r.state)
  {
    if r.state.Halted? then r
    else if Reads(r.state) then
      if input == [] then r else RunBy(NextBy(r, input[0], conf, fixed), input[1..], conf, fixed)
    else RunBy(NextBy(r, 0, conf, fixed), input, conf, fixed)
  }

  /** The reader as written. */
  function NextAsWritten(r: Reader, b: byte, conf: Configuration): (r': Reader)
    requires BufferOk(r)
    ensures BufferOk(r')
    ensures r'.state != ReadTokenReceived || r.state == ReadTokenReceived
  {
    NextBy(r, b, conf, false)
  }

  /** The corrected reader. */
  function Next(r: Reader, b: byte, conf: Configuration): (r': Reader)
    requires BufferOk(r)
    ensures BufferOk(r')
    ensures r'.state != ReadTokenReceived || r.state == ReadTokenReceived
  {
    NextBy(r, b, conf, true)
  }

  /** Feeding two inputs one after the other is feeding their
      concatenation. */
  lemma {:induction false} RunAppend(r: Reader, a: seq<byte>, b: seq<byte>, conf: Configuration, fixed: bool)
    requires BufferOk(r)
    ensures RunBy(r, a + b, conf, fixed) == RunBy(RunBy(r, a, conf, fixed), b, conf, fixed)
    decreases |a|, Rank(r.state)
  {
    if r.state.Halted? {
    } else if Reads(r.state) {
      if a != [] {
        assert (a + b)[0] == a[0] && (a + b)[1..] == a[1..] + b;
        RunAppend(NextBy(r, a[0], conf, fixed), a[1..], b, conf, fixed);
      } else {
        assert a + b == b;
      }
    } else {
      RunAppend(NextBy(r, 0, conf, fixed), a, b, conf, fixed);
    }
  }

  /** READ_TOKEN_RECEIVED is never entered: no input takes a reader that is
      not already there into it. */
  lemma {:induction false} ReadTokenUnreachable(r: Reader, input: seq<byte>, conf: Configuration, fixed: bool)
    requires BufferOk(r) && r.state != ReadTokenReceived
    ensures RunBy(r, input, conf, fixed).state != ReadTokenReceived
    decreases |input|, Rank(r.state)
  {
    if r.state.Halted? {
    } else if Reads(r.state) {
      if input != [] {
        ReadTokenUnreachable(NextBy(r, input[0], conf, fixed), input[1..], conf, fixed);
      }
    } else {
      ReadTokenUnreachable(NextBy(r, 0, conf, fixed), input, conf, fixed);
    }
  }

  /** A frame the reader handles completely: well formed, short enough for
      the buffer, a start byte that in.read() can match, not a write token,
      long enough for its address byte, and one the factory decodes without
      a runtime exception. */
  predicate Deliverable(frame: seq<byte>)
  {
    WellFormed(frame) && |frame| <= DataBufferMaxLen && IsStartByte(frame[0]) &&
    !IsModbus40WriteTokenPdu(frame) && OffsetAdr < |frame| && DispatchFault(frame) == None
  }

  /** checkNibeMessage, as written or corrected, sees each proper prefix of
      a well-formed frame as not ready and the whole frame as valid. */
  lemma PrefixStatus(frame: seq<byte>, k: nat, fixed: bool)
    requires WellFormed(frame) && 1 <= k <= |frame|
    ensures k < |frame| ==> ClassifyBy(frame[..k], fixed) == NotReady
    ensures k == |frame| ==> ClassifyBy(frame[..k], fixed) == Valid
  {
    WellFormedPrefixes(frame, k);
  }

  /** A start byte opens a frame: it is stored at the front of the buffer. */
  lemma StepStart(r: Reader, b: byte, conf: Configuration, fixed: bool)
    requires BufferOk(r) && r.state == WaitStart && (fixed || Clean(r)) && IsStartByte(b)
    ensures NextBy(r, b, conf, fixed) ==
      r.(state := WaitData, buf := r.buf[0 := b], position := 1, limit := DataBufferMaxLen)
  {
  }

  /** A byte in WAIT_DATA with room left is stored and the buffer checked. */
  lemma StepData(r: Reader, b: byte, conf: Configuration, fixed: bool)
    requires BufferOk(r) && r.state == WaitData && r.position < DataBufferMaxLen == r.limit
    ensures var buf := r.buf[r.position := b];
      NextBy(r, b, conf, fixed) ==
      r.(buf := buf, position := r.position + 1, state := AfterCheck(ClassifyBy(buf[..r.position + 1], fixed)))
  {
  }

  /** A complete frame that is not a write token is acknowledged and handed
      on. */
  lemma StepOk(r: Reader, conf: Configuration, fixed: bool)
    requires BufferOk(r) && r.state == OkMessageReceived
    requires Deliverable(r.buf[..r.position])
    ensures var data := r.buf[..r.position];
      NextBy(r, 0, conf, fixed) ==
      r.(limit := r.position, out := r.out + AckBytes(conf, data[OffsetAdr]), dispatched := r.dispatched + [data],
         state := WaitStart)
  {
  }

  /** One byte fed to a reader that needs one. */
  lemma RunOne(r: Reader, b: byte, conf: Configuration, fixed: bool)
    requires BufferOk(r) && Reads(r.state)
    ensures RunBy(r, [b], conf, fixed) == RunBy(NextBy(r, b, conf, fixed), [], conf, fixed)
  {
    assert [b][0] == b && [b][1..] == [];
  }

  /** The reader waiting for data with the first k bytes of a frame at the
      front of its buffer, the rest of its state as in r. */
  predicate Receiving(s: Reader, r: Reader, frame: seq<byte>, k: nat)
    requires k <= |frame|
  {
    BufferOk(s) && s.state == WaitData && s.position == k && s.limit == DataBufferMaxLen &&
    s.buf[..k] == frame[..k] &&
    s.readQueue == r.readQueue && s.writeQueue == r.writeQueue && s.out == r.out && s.dispatched == r.dispatched
  }

  /** The start byte of a deliverable frame opens it. */
  lemma FeedFirst(r: Reader, frame: seq<byte>, conf: Configuration, fixed: bool)
    requires BufferOk(r) && r.state == WaitStart && (fixed || Clean(r))
    requires Deliverable(frame)
    ensures Receiving(RunBy(r, frame[..1], conf, fixed), r, frame, 1)
  {
    assert frame[..1] == [frame[0]];
    RunOne(r, frame[0], conf, fixed);
    StepStart(r, frame[0], conf, fixed);
    assert r.buf[0 := frame[0]][..1] == [frame[0]];
  }

  /** Byte k - 1 of a deliverable frame, fed to a reader holding the bytes
      before it, is stored; the frame is then complete exactly when k is its
      length. */
  lemma FeedByte(s: Reader, r: Reader, frame: seq<byte>, k: nat, conf: Configuration, fixed: bool)
    requires Deliverable(frame) && 2 <= k <= |frame|
    requires Receiving(s, r, frame, k - 1)
    ensures k < |frame| ==> Receiving(NextBy(s, frame[k - 1], conf, fixed), r, frame, k)
    ensures k == |frame| ==> var s1 := NextBy(s, frame[k - 1], conf, fixed);
      s1.state == OkMessageReceived && s1.position == k && s1.buf[..k] == frame &&
      s1.readQueue == r.readQueue && s1.writeQueue == r.writeQueue && s1.out == r.out && s1.dispatched == r.dispatched
  {
    StepData(s, frame[k - 1], conf, fixed);
    var buf := s.buf[k - 1 := frame[k - 1]];
    assert buf[..k] == frame[..k] by {
      assert buf[..k] == s.buf[..k - 1] + [frame[k - 1]];
      assert frame[..k] == frame[..k - 1] + [frame[k - 1]];
    }
    PrefixStatus(frame, k, fixed);
  }

  /** While a deliverable frame comes in, the reader waits for data with
      the frame's first k bytes at the front of its buffer. */
  lemma {:induction false} FeedPrefix(r: Reader, frame: seq<byte>, k: nat, conf: Configuration, fixed: bool)
    requires BufferOk(r) && r.state == WaitStart && (fixed || Clean(r))
    requires Deliverable(frame) && 1 <= k < |frame|
    ensures Receiving(RunBy(r, frame[..k], conf, fixed), r, frame, k)
  {
    if k == 1 {
      FeedFirst(r, frame, conf, fixed);
    } else {
      FeedPrefix(r, frame, k - 1, conf, fixed);
      var s := RunBy(r, frame[..k - 1], conf, fixed);
      PrefixSnoc(frame, k);
      RunAppend(r, frame[..k - 1], [frame[k - 1]], conf, fixed);
      RunOne(s, frame[k - 1], conf, fixed);
      FeedByte(s, r, frame, k, conf, fixed);
    }
  }

  /** A whole deliverable frame is acknowledged, handed to the listeners
      once, and leaves the reader waiting for the next start byte with the
      buffer's position and limit both at the frame's length. */
  lemma FeedFrame(r: Reader, frame: seq<byte>, conf: Configuration, fixed: bool)
    requires BufferOk(r) && r.state == WaitStart && (fixed || Clean(r))
    requires Deliverable(frame)
    ensures var s := RunBy(r, frame, conf, fixed);
      s.state == WaitStart && s.position == |frame| && s.limit == |frame| &&
      s.readQueue == r.readQueue && s.writeQueue == r.writeQueue &&
      s.out == r.out + AckBytes(conf, frame[OffsetAdr]) && s.dispatched == r.dispatched + [frame]
  {
    var n := |frame|;
    FeedPrefix(r, frame, n - 1, conf, fixed);
    var s := RunBy(r, frame[..n - 1], conf, fixed);
    PrefixSnoc(frame, n);
    assert frame[..n] == frame;
    RunAppend(r, frame[..n - 1], [frame[n - 1]], conf, fixed);
    RunOne(s, frame[n - 1], conf, fixed);
    FeedByte(s, r, frame, n, conf, fixed);
    var s1 := NextBy(s, frame[n - 1], conf, fixed);
    StepOk(s1, conf, fixed);
    var s2 := NextBy(s1, 0, conf, fixed);
    RunInternal(s1, [], conf, fixed);
    RunDone(s2, conf, fixed);
  }

  /** A state that does not read steps on without using the input. */
  lemma RunInternal(r: Reader, input: seq<byte>, conf: Configuration, fixed: bool)
    requires BufferOk(r) && !r.state.Halted? && !Reads(r.state)
    ensures RunBy(r, input, conf, fixed) == RunBy(NextBy(r, 0, conf, fixed), input, conf, fixed)
  {
  }

  /** A reading state takes the next byte of the input. */
  lemma RunConsume(r: Reader, input: seq<byte>, i: nat, conf: Configuration, fixed: bool)
    requires BufferOk(r) && Reads(r.state) && i < |input|
    ensures RunBy(r, input[i..], conf, fixed) == RunBy(NextBy(r, input[i], conf, fixed), input[i + 1..], conf, fixed)
  {
    assert input[i..][0] == input[i] && input[i..][1..] == input[i + 1..];
  }

  /** With the input used up, a reading state is where the loop stops. */
  lemma RunDone(r: Reader, conf: Configuration, fixed: bool)
    requires BufferOk(r) && Reads(r.state)
    ensures RunBy(r, [], conf, fixed) == r
  {
  }

  /** A prefix is the shorter prefix and one more element. */
  lemma PrefixSnoc<T>(s: seq<T>, k: nat)
    requires 1 <= k <= |s|
    ensures s[..k] == s[..k - 1] + [s[k - 1]]
  {
  }

  /** As written, the buffer is never cleared: after one deliverable frame,
      the next start byte overflows the buffer and ends the reader thread,
      so no later frame is ever delivered. */
  lemma BufferNeverResetAsWritten(r: Reader, frame: seq<byte>, rest: seq<byte>, conf: Configuration)
    requires Clean(r) && Deliverable(frame)
    requires rest != [] && IsStartByte(rest[0])
    ensures RunBy(r, frame + rest, conf, false).state == Halted(BufferOverflow)
    ensures RunBy(r, frame + rest, conf, false).dispatched == r.dispatched + [frame]
  {
    FeedFrame(r, frame, conf, false);
    RunAppend(r, frame, rest, conf, false);
    var s := RunBy(r, frame, conf, false);
    var s1 := NextBy(s, rest[0], conf, false);
    assert s1.state == Halted(BufferOverflow);
  }

  /** The frames of a list sent back to back. */
  function Stream(frames: seq<seq<byte>>): seq<byte>
  {
    if frames == [] then [] else frames[0] + Stream(frames[1..])
  }

  /** The first frame of a stream of deliverable frames is delivered and
      leaves the corrected reader ready for the rest. */
  lemma FirstFrameDelivered(r: Reader, frames: seq<seq<byte>>, conf: Configuration)
    requires BufferOk(r) && r.state == WaitStart && frames != [] && Deliverable(frames[0])
    ensures var s := RunBy(r, frames[0], conf, true);
      BufferOk(s) && s.state == WaitStart && s.dispatched == r.dispatched + [frames[0]] &&
      RunBy(r, Stream(frames), conf, true) == RunBy(s, Stream(frames[1..]), conf, true)
  {
    assert Stream(frames) == frames[0] + Stream(frames[1..]);
    FeedFrame(r, frames[0], conf, true);
    RunAppend(r, frames[0], Stream(frames[1..]), conf, true);
  }

  /** The corrected reader delivers every deliverable frame of a stream, in
      order, and ends waiting for the next start byte. */
  lemma {:induction false} FramesDeliveredInOrder(r: Reader, frames: seq<seq<byte>>, conf: Configuration)
    requires BufferOk(r) && r.state == WaitStart
    requires forall k :: 0 <= k < |frames| ==> Deliverable(frames[k])
    ensures RunBy(r, Stream(frames), conf, true).state == WaitStart
    ensures RunBy(r, Stream(frames), conf, true).dispatched == r.dispatched + frames
    decreases |frames|
  {
    if frames == [] {
      assert Stream(frames) == [];
    } else {
      FirstFrameDelivered(r, frames, conf);
      var s := RunBy(r, frames[0], conf, true);
      var rest := frames[1..];
      assert forall k :: 0 <= k < |rest| ==> rest[k] == frames[k + 1];
      FramesDeliveredInOrder(s, rest, conf);
      AppendFirst(r.dispatched, frames);
    }
  }

  /** Appending a list's head and then its tail appends the list. */
  lemma AppendFirst<T>(done: seq<T>, items: seq<T>)
    requires items != []
    ensures (done + [items[0]]) + items[1..] == done + items
  {
    assert items == [items[0]] + items[1..];
  }

  /** The events listeners receive for a dispatched frame. */
  function DeliveriesFor(data: seq<byte>, ls: seq<ListenerId>, throwing: set<ListenerId>): seq<Delivery>
  {
    match GetMessage(Some(data))
    case Ok(m) => Deliveries(ls, MessageEvent(m), throwing)
    case Err(_) => []
  }

  /** The events listeners receive for a run of dispatched frames, frame by
      frame in dispatch order. */
  function AllDeliveries(frames: seq<seq<byte>>, ls: seq<ListenerId>, throwing: set<ListenerId>): seq<Delivery>
  {
    if frames == [] then []
    else AllDeliveries(frames[..|frames| - 1], ls, throwing) + DeliveriesFor(frames[|frames| - 1], ls, throwing)
  }

  /** The events for a run of frames, each frame's events given by
      deliver. */
  function DeliveriesBy(frames: seq<seq<byte>>, deliver: seq<byte> -> seq<Delivery>): seq<Delivery>
  {
    if frames == [] then []
    else DeliveriesBy(frames[..|frames| - 1], deliver) + deliver(frames[|frames| - 1])
  }

  /** deliver gives exactly the events a dispatched frame produces. */
  ghost predicate Delivers(deliver: seq<byte> -> seq<Delivery>, ls: seq<ListenerId>, throwing: set<ListenerId>)
  {
    forall data {:trigger DeliveriesFor(data, ls, throwing)} :: deliver(data) == DeliveriesFor(data, ls, throwing)
  }

  /** DeliveriesFor itself is such a function. */
  lemma DeliversExists(ls: seq<ListenerId>, throwing: set<ListenerId>) returns (deliver: seq<byte> -> seq<Delivery>)
    ensures Delivers(deliver, ls, throwing)
  {
    deliver := data => DeliveriesFor(data, ls, throwing);
  }

  /** Through such a function, the events of a run are AllDeliveries. */
  lemma {:induction false} DeliveriesByAll(frames: seq<seq<byte>>, deliver: seq<byte> -> seq<Delivery>,
                                           ls: seq<ListenerId>, throwing: set<ListenerId>)
    requires Delivers(deliver, ls, throwing)
    ensures DeliveriesBy(frames, deliver) == AllDeliveries(frames, ls, throwing)
  {
    if frames != [] {
      DeliveriesByAll(frames[..|frames| - 1], deliver, ls, throwing);
      assert deliver(frames[|frames| - 1]) == DeliveriesFor(frames[|frames| - 1], ls, throwing);
    }
  }

  /** Dispatching one more frame adds that frame's events at the end. */
  lemma DeliveriesBySnoc(frames: seq<seq<byte>>, f: seq<byte>, deliver: seq<byte> -> seq<Delivery>)
    ensures DeliveriesBy(frames + [f], deliver) == DeliveriesBy(frames, deliver) + deliver(f)
  {
    assert (frames + [f])[..|frames + [f]| - 1] == frames;
  }

  /** One step of the reader keeps the events equal to those of the frames
      dispatched since the start of a run. */
  lemma DeliveredStep(start: seq<seq<byte>>, d: seq<seq<byte>>, d': seq<seq<byte>>,
                      base0: seq<Delivery>, del: seq<Delivery>, del': seq<Delivery>,
                      deliver: seq<byte> -> seq<Delivery>)
    requires start <= d <= d' && |d'| <= |d| + 1
    requires del == base0 + DeliveriesBy(d[|start|..], deliver)
    requires d' == d ==> del' == del
    requires d' != d ==> del' == del + deliver(d'[|d'| - 1])
    ensures start <= d'
    ensures del' == base0 + DeliveriesBy(d'[|start|..], deliver)
  {
    if d' != d {
      var f := d'[|d'| - 1];
      SuffixSnoc(start, d, d');
      DeliveriesBySnoc(d[|start|..], f, deliver);
      AppendAssoc(base0, DeliveriesBy(d[|start|..], deliver), deliver(f));
    }
  }

  /** A sequence that grew by one element grows by it past any prefix. */
  lemma SuffixSnoc<T>(start: seq<T>, d: seq<T>, d': seq<T>)
    requires start <= d <= d' && |d'| == |d| + 1
    ensures d'[|start|..] == d[|start|..] + [d'[|d'| - 1]]
  {
    assert d' == d + [d'[|d'| - 1]];
  }

  class SerialConnector {
    const base: BaseConnector
    var conf: Option<Configuration>
    var readQueue: seq<seq<byte>>
    var writeQueue: seq<seq<byte>>
    /** Bytes written to the serial port. */
    var out: seq<byte>
    /** Frames handed to sendMsgToListeners(byte[]). */
    var dispatched: seq<seq<byte>>
    // The reader thread's state and ByteBuffer.
    var state: ReaderState
    var msg: array<byte>
    var position: nat
    var limit: nat

    predicate Valid()
      reads this, msg
    {
      msg.Length == DataBufferMaxLen && position <= limit <= DataBufferMaxLen
    }

    function View(): (r: Reader)
      reads this, msg
      requires Valid()
      ensures BufferOk(r)
    {
      Reader(state, msg[..], position, limit, readQueue, writeQueue, out, dispatched)
    }

    /** new SerialConnector(): no configuration, empty queues, not
        connected; the reader has not started. */
    constructor ()
      ensures Valid() && fresh(base) && fresh(msg)
      ensures conf == None && readQueue == [] && writeQueue == [] && out == [] && dispatched == []
      ensures !base.connected && base.listeners == [] && base.delivered == []
      ensures Clean(View())
    {
      base := new BaseConnector();
      conf := None;
      readQueue := [];
      writeQueue := [];
      out := [];
      dispatched := [];
      state := WaitStart;
      msg := new byte[DataBufferMaxLen](_ => 0);
      position := 0;
      limit := DataBufferMaxLen;
    }

    /** connect(configuration): nothing when already connected; otherwise
        the configuration is stored, then the port is opened (its failure,
        passed in, is thrown), the queues are cleared, a fresh reader starts
        and the connector is connected. */
    method Connect(configuration: Configuration, portFailure: Option<Error>) returns (err: Option<Error>)
      modifies this, base
      ensures old(base.connected) ==> err == None && conf == old(conf) && base.connected
      ensures old(base.connected) ==> readQueue == old(readQueue) && writeQueue == old(writeQueue)
      ensures !old(base.connected) ==> conf == Some(configuration) && err == portFailure
      ensures !old(base.connected) && portFailure.None? ==>
        readQueue == [] && writeQueue == [] && base.connected && Valid() && Clean(View()) && fresh(msg)
      ensures !old(base.connected) && portFailure.Some? ==>
        !base.connected && readQueue == old(readQueue) && writeQueue == old(writeQueue)
      ensures old(base.connected) || portFailure.Some? ==>
        state == old(state) && msg == old(msg) && position == old(position) && limit == old(limit)
      ensures base.listeners == old(base.listeners) && out == old(out) && dispatched == old(dispatched)
      ensures base.delivered == old(base.delivered)
      ensures old(Valid()) ==> Valid()
    {
      if base.connected {
        return None;
      }
      conf := Some(configuration);
      if portFailure.Some? {
        return portFailure;
      }
      readQueue := [];
      writeQueue := [];
      msg := new byte[DataBufferMaxLen](_ => 0);
      position := 0;
      limit := DataBufferMaxLen;
      state := WaitStart;
      base.connected := true;
      return None;
    }

    /** disconnect(): the connector is no longer connected. */
    method Disconnect()
      modifies base
      ensures !base.connected && base.listeners == old(base.listeners) && base.delivered == old(base.delivered)
    {
      base.connected := false;
    }

    /** sendDatagram(msg): a write request joins the write queue and a read
        request the read queue, each only while the queue holds fewer than
        MAX_QUEUED_MSGS frames; other messages are ignored. */
    method SendDatagram(m: Message)
      modifies this
      ensures m.WriteRequestMsg? ==> writeQueue == EnqueueBounded(old(writeQueue), RequestFrame(m), MaxQueuedMsgs)
      ensures !m.WriteRequestMsg? ==> writeQueue == old(writeQueue)
      ensures m.ReadRequestMsg? ==> readQueue == EnqueueBounded(old(readQueue), RequestFrame(m), MaxQueuedMsgs)
      ensures !m.ReadRequestMsg? ==> readQueue == old(readQueue)
      ensures |old(readQueue)| <= MaxQueuedMsgs ==> |readQueue| <= MaxQueuedMsgs
      ensures |old(writeQueue)| <= MaxQueuedMsgs ==> |writeQueue| <= MaxQueuedMsgs
      ensures conf == old(conf) && out == old(out) && dispatched == old(dispatched)
      ensures state == old(state) && msg == old(msg) && position == old(position) && limit == old(limit)
    {
      if m.WriteRequestMsg? {
        if |writeQueue| < MaxQueuedMsgs {
          writeQueue := writeQueue + [RequestFrame(m)];
        }
      } else if m.ReadRequestMsg? {
        if |readQueue| < MaxQueuedMsgs {
          readQueue := readQueue + [RequestFrame(m)];
        }
      }
    }

    /** sendAckToNibe(address): write 0x06 when the address is an accessory
        whose acknowledgement is enabled. */
    method SendAckToNibe(address: byte)
      requires conf.Some?
      modifies this
      ensures conf == old(conf) && out == old(out) + AckBytes(conf.value, address)
      ensures readQueue == old(readQueue) && writeQueue == old(writeQueue)
      ensures dispatched == old(dispatched) && state == old(state) && msg == old(msg)
      ensures position == old(position) && limit == old(limit)
    {
      out := out + AckBytes(conf.value, address);
    }

    /** sendNakToNibe(): writes nothing. */
    method SendNakToNibe()
      ensures out == old(out)
    {
    }

    /** One iteration of the reader loop, as written (fixed false) or
        corrected. A frame handed on reaches the listeners through the base
        connector. */
    method Step(b: byte, fixed: bool, throwing: set<ListenerId>, ghost deliver: seq<byte> -> seq<Delivery>)
      requires Valid() && conf.Some?
      requires Delivers(deliver, base.listeners, throwing)
      modifies this, msg, base
      ensures Valid() && msg == old(msg) && conf == old(conf)
      ensures View() == NextBy(old(View()), b, conf.value, fixed)
      ensures old(dispatched) <= dispatched && |dispatched| <= |old(dispatched)| + 1
      ensures dispatched == old(dispatched) ==> base.delivered == old(base.delivered)
      ensures dispatched != old(dispatched) ==> base.delivered == old(base.delivered) + deliver(dispatched[|dispatched| - 1])
      ensures base.listeners == old(base.listeners) && base.connected == old(base.connected)
    {
      match state
      case WaitStart => StepWaitStart(b, fixed);
      case WaitData => StepWaitData(b, fixed);
      case CrcFailure => SendNakToNibe(); state := WaitStart;
      case OkMessageReceived => StepOk(throwing, deliver);
      case ReadTokenReceived => StepToken(true);
      case WriteTokenReceived => StepToken(false);
      case Halted(_) =>
    }

    method StepWaitStart(b: byte, fixed: bool)
      requires Valid() && conf.Some? && state == WaitStart
      modifies this, msg
      ensures Valid() && msg == old(msg) && conf == old(conf)
      ensures View() == NextWaitStart(old(View()), b, fixed)
    {
      ghost var r0 := View();
      if !IsStartByte(b) {
        return;
      }
      if fixed {
        // The corrected reader clears the buffer before a new frame starts.
        ClearBuffer();
      }
      ghost var r1 := View();
      assert r1 == Restart(r0, fixed);
      PutByte(b, WaitData);
      NextWaitStartPuts(r0, b, fixed);
    }

    /** msg.clear(): position 0, limit at the capacity. */
    method ClearBuffer()
      requires Valid()
      modifies this`position, this`limit
      ensures Valid() && View() == old(View()).(position := 0, limit := DataBufferMaxLen)
    {
      position := 0;
      limit := DataBufferMaxLen;
    }

    /** msg.put(b), then the move to `next`; a full buffer ends the reader
        thread. */
    method PutByte(b: byte, next: ReaderState)
      requires Valid()
      modifies this`position, this`state, msg
      ensures Valid() && msg == old(msg)
      ensures View() == Put(old(View()), b, next)
    {
      if position >= limit {
        state := Halted(BufferOverflow);
        return;
      }
      msg[position] := b;
      position := position + 1;
      state := next;
    }

    method StepWaitData(b: byte, fixed: bool)
      requires Valid() && conf.Some? && state == WaitData
      modifies this, msg
      ensures Valid() && msg == old(msg) && conf == old(conf)
      ensures View() == NextWaitData(old(View()), b, fixed)
    {
      if position >= DataBufferMaxLen {
        state := WaitStart;
        return;
      }
      if position >= limit {
        state := Halted(BufferOverflow);
        return;
      }
      msg[position] := b;
      position := position + 1;
      var status := CheckNibeMessage(msg, position, fixed);
      state := AfterCheck(status);
    }

    method StepOk(throwing: set<ListenerId>, ghost deliver: seq<byte> -> seq<Delivery>)
      requires Valid() && conf.Some? && state == OkMessageReceived
      requires Delivers(deliver, base.listeners, throwing)
      modifies this, base
      ensures old(dispatched) <= dispatched && |dispatched| <= |old(dispatched)| + 1
      ensures dispatched == old(dispatched) ==> base.delivered == old(base.delivered)
      ensures dispatched != old(dispatched) ==> base.delivered == old(base.delivered) + deliver(dispatched[|dispatched| - 1])
      ensures Valid() && msg == old(msg) && conf == old(conf)
      ensures View() == NextOk(old(View()), conf.value)
      ensures base.listeners == old(base.listeners) && base.connected == old(base.connected)
    {
      var data := msg[..position];
      limit := position;
      if IsModbus40WriteTokenPdu(data) {
        state := WriteTokenReceived;
        return;
      }
      if OffsetAdr >= limit {
        state := Halted(IndexOutOfBounds);
        return;
      }
      SendAckToNibe(msg[OffsetAdr]);
      var fault := Dispatch(data, throwing, deliver);
      state := if fault.Some? then Halted(fault.value) else WaitStart;
    }

    /** sendMsgToListeners(data): record the frame and hand it to the
        listeners. */
    method Dispatch(data: seq<byte>, throwing: set<ListenerId>, ghost deliver: seq<byte> -> seq<Delivery>) returns (fault: Option<Error>)
      requires Delivers(deliver, base.listeners, throwing)
      modifies this`dispatched, base
      ensures dispatched == old(dispatched) + [data] && fault == DispatchFault(data)
      ensures base.delivered == old(base.delivered) + deliver(data)
      ensures base.listeners == old(base.listeners) && base.connected == old(base.connected)
    {
      dispatched := dispatched + [data];
      fault := base.SendDataToListeners(data, throwing);
      assert deliver(data) == DeliveriesFor(data, base.listeners, throwing);
    }

    /** READ_TOKEN_RECEIVED (readToken) and WRITE_TOKEN_RECEIVED: send the
        head of the queue, or acknowledge the token. */
    method StepToken(readToken: bool)
      requires Valid() && conf.Some?
      requires state == (if readToken then ReadTokenReceived else WriteTokenReceived)
      modifies this
      ensures Valid() && msg == old(msg) && conf == old(conf)
      ensures View() == NextToken(old(View()), conf.value, readToken)
    {
      var a := AnswerToken(if readToken then readQueue else writeQueue, msg[..limit], conf.value);
      if readToken {
        readQueue := a.queue;
      } else {
        writeQueue := a.queue;
      }
      out := out + a.written;
      state := if a.fault.Some? then Halted(a.fault.value) else WaitStart;
    }

    /** The reader loop over the bytes the port delivers: it ends when the
        input is used up in a state that needs a byte, or when the thread
        has ended. */
    method Process(input: seq<byte>, fixed: bool, throwing: set<ListenerId>)
      requires Valid() && conf.Some?
      modifies this, msg, base
      ensures Valid() && msg == old(msg) && conf == old(conf)
      ensures View() == RunBy(old(View()), input, conf.value, fixed)
      ensures base.listeners == old(base.listeners) && base.connected == old(base.connected)
      ensures old(dispatched) <= dispatched
      ensures base.delivered == old(base.delivered) + AllDeliveries(dispatched[|old(dispatched)|..], base.listeners, throwing)
    {
      var i := 0;
      ghost var deliver := DeliversExists(base.listeners, throwing);
      assert dispatched[|old(dispatched)|..] == [];
      while !state.Halted? && !(Reads(state) && i == |input|)
        invariant Valid() && msg == old(msg) && conf == old(conf) && i <= |input|
        invariant RunBy(View(), input[i..], conf.value, fixed) == RunBy(old(View()), input, conf.value, fixed)
        invariant base.listeners == old(base.listeners) && base.connected == old(base.connected)
        invariant old(dispatched) <= dispatched
        invariant base.delivered == old(base.delivered) + DeliveriesBy(dispatched[|old(dispatched)|..], deliver)
        decreases |input| - i, Rank(state)
      {
        ghost var d, del := dispatched, base.delivered;
        if Reads(state) {
          ghost var v := View();
          RunConsume(v, input, i, conf.value, fixed);
          Step(input[i], fixed, throwing, deliver);
          i := i + 1;
        } else {
          ghost var v := View();
          RunInternal(v, input[i..], conf.value, fixed);
          Step(0, fixed, throwing, deliver);
        }
        DeliveredStep(old(dispatched), d, dispatched, old(base.delivered), del, base.delivered, deliver);
      }
      DeliveriesByAll(dispatched[|old(dispatched)|..], deliver, base.listeners, throwing);
    }
  }
}

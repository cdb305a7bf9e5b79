/** Classification of the bytes received so far (checkNibeMessage in
    SerialConnector.java): a frame starts with the pump's start byte and a
    zero byte, byte OFFSET_LEN holds the signed data length `datalen`, and a
    complete frame of datalen + 6 bytes ends with the XOR of bytes
    2 .. datalen + 4. */
module FrameCheck {
  import opened Common
  import opened Protocol

  datatype Status =
    | Valid             // VALID
    | NotReady          // VALID_BUT_NOT_READY
    | Invalid           // INVALID
    | ChecksumFailure   // the NibeHeatPumpException "Checksum failure"
    | Fault(e: Error)   // a runtime exception from an absolute get() out of range

  /** XOR of frame[lo..hi); 0 for an empty range. */
  function XorRange(frame: seq<byte>, lo: int, hi: int): (x: byte)
    requires 0 <= lo && hi <= |frame|
    decreases hi - lo
  {
    if hi <= lo then 0 else XorRange(frame, lo, hi - 1) ^ frame[hi - 1]
  }

  /** The XOR of a range depends only on the bytes inside it. */
  lemma {:induction false} XorRangeOfPrefix(frame: seq<byte>, n: nat, lo: int, hi: int)
    requires n <= |frame| && 0 <= lo && hi <= n
    ensures XorRange(frame[..n], lo, hi) == XorRange(frame, lo, hi)
    decreases hi - lo
  {
    if lo < hi {
      XorRangeOfPrefix(frame, n, lo, hi - 1);
    }
  }

  /** The test at lines 382-390 as written: a mismatch throws unless the
      computed checksum is 0x5C or the received one is 0xC5 -- but the
      received byte is widened with sign extension first, so it never
      equals 0xC5 and the second escape is dead. */
  predicate ChecksumAcceptedAsWritten(computed: byte, given: byte)
  {
    !(computed != given && Signed(computed) != 0x5C && Signed(given) != 0xC5)
  }

  /** The evidently intended test: the checksums agree, or the pump sent
      0xC5 in place of the computed 0x5C. */
  predicate ChecksumAccepted(computed: byte, given: byte)
  {
    computed == given || (computed == 0x5C && given == 0xC5)
  }

  /** As written, the test accepts every trailer once the computed checksum
      is 0x5C, and otherwise only the exact checksum. */
  lemma ChecksumAsWrittenAcceptsAnyAfter5C(computed: byte, given: byte)
    ensures ChecksumAcceptedAsWritten(computed, given) <==> computed == given || computed == 0x5C
    ensures ChecksumAcceptedAsWritten(0x5C, 0x00) && !ChecksumAccepted(0x5C, 0x00)
  {
    assert Signed(given) != 0xC5;
  }

  /** The intended test accepts the exact checksum and the one substitution
      the pump is known to make, and nothing else. */
  lemma ChecksumAcceptedOnlySubstitution(computed: byte, given: byte)
    requires ChecksumAccepted(computed, given) && computed != given
    ensures computed == 0x5C && given == 0xC5
  {
  }

  /** checkNibeMessage on the first |frame| buffered bytes, with the
      checksum test given by `quirkFixed` (false: as written). */
  function ClassifyBy(frame: seq<byte>, quirkFixed: bool): (s: Status)
  {
    var len := |frame|;
    if len >= 1 && frame[0] != FrameStartFromNibe then Invalid
    else if len >= 2 && frame[1] != 0x00 then Invalid
    else if len < 6 then NotReady
    else if OffsetLen >= len then Fault(IndexOutOfBounds)
    else
      var datalen := Signed(frame[OffsetLen]);
      if len < datalen + 6 then NotReady
      else if datalen + 5 < 0 then Fault(IndexOutOfBounds)
      else
        var computed := XorRange(frame, 2, datalen + 5);
        var given := frame[datalen + 5];
        if (if quirkFixed then ChecksumAccepted(computed, given) else ChecksumAcceptedAsWritten(computed, given))
        then Valid else ChecksumFailure
  }

  /** checkNibeMessage exactly as written. */
  function ClassifyAsWritten(frame: seq<byte>): (s: Status)
    ensures |frame| >= 1 && frame[0] != FrameStartFromNibe ==> s == Invalid
    ensures s == Valid ==> ClassifyBy(frame, true) in {Valid, ChecksumFailure}
  {
    ClassifyBy(frame, false)
  }

  /** checkNibeMessage with the checksum test corrected. */
  function Classify(frame: seq<byte>): (s: Status)
    ensures s == Valid ==> ClassifyAsWritten(frame) == Valid
  {
    ClassifyBy(frame, true)
  }

  /** A complete frame: start byte, zero byte, a non-negative length, all
      datalen + 6 bytes present, and a checksum the intended test accepts.
      The length byte must lie in the six-byte header. */
  predicate WellFormed(frame: seq<byte>)
  {
    OffsetLen < 6 && 6 <= |frame| &&
    frame[0] == FrameStartFromNibe && frame[1] == 0x00 &&
    |frame| == Signed(frame[OffsetLen]) + 6 &&
    ChecksumAccepted(XorRange(frame, 2, |frame| - 1), frame[|frame| - 1])
  }

  /** What checkNibeMessage reports as the bytes of any frame come in:
      every proper non-empty prefix is "not ready yet" and the whole frame
      is valid. */
  lemma WellFormedPrefixes(frame: seq<byte>, k: nat)
    requires WellFormed(frame) && 1 <= k <= |frame|
    ensures k < |frame| ==> Classify(frame[..k]) == NotReady
    ensures k == |frame| ==> Classify(frame[..k]) == Valid
  {
    assert frame[..k][0] == frame[0];
    if k >= 2 {
      assert frame[..k][1] == frame[1];
    }
    if k == |frame| {
      assert frame[..k] == frame;
    } else if k >= 6 {
      assert frame[..k][OffsetLen] == frame[OffsetLen];
    }
  }

  /** Classification of complete frames: the first byte and the zero byte
      decide INVALID; with the length byte in the header and every byte
      present, VALID exactly when the intended checksum test passes. */
  lemma ClassifyComplete(frame: seq<byte>)
    requires OffsetLen < 6 && 6 <= |frame| && frame[0] == FrameStartFromNibe && frame[1] == 0x00
    requires |frame| == Signed(frame[OffsetLen]) + 6
    ensures Classify(frame) == Valid <==> ChecksumAccepted(XorRange(frame, 2, |frame| - 1), frame[|frame| - 1])
    ensures Classify(frame) != Valid ==> Classify(frame) == ChecksumFailure
  {
  }

  /** The quirk as written: a complete frame whose computed checksum is
      0x5C passes whatever its last byte, while the intended test fails it
      unless that byte is 0x5C or 0xC5. */
  lemma QuirkAcceptsAnyTrailer(frame: seq<byte>)
    requires OffsetLen < 6 && 6 <= |frame| && frame[0] == FrameStartFromNibe && frame[1] == 0x00
    requires |frame| == Signed(frame[OffsetLen]) + 6
    requires XorRange(frame, 2, |frame| - 1) == 0x5C
    ensures ClassifyAsWritten(frame) == Valid
    ensures frame[|frame| - 1] != 0x5C && frame[|frame| - 1] != 0xC5 ==> Classify(frame) == ChecksumFailure
  {
    ChecksumAsWrittenAcceptsAnyAfter5C(0x5C, frame[|frame| - 1]);
  }

  /** The first two checks: a wrong start byte, or a non-zero second byte,
      make any buffer INVALID. */
  lemma ClassifyHeader(frame: seq<byte>)
    ensures |frame| >= 1 && frame[0] != FrameStartFromNibe ==> Classify(frame) == Invalid
    ensures |frame| >= 2 && frame[0] == FrameStartFromNibe && frame[1] != 0x00 ==> Classify(frame) == Invalid
    ensures 1 <= |frame| < 6 && frame[0] == FrameStartFromNibe && (|frame| >= 2 ==> frame[1] == 0x00) ==>
      Classify(frame) == NotReady
  {
  }

  /** checkNibeMessage over the first `len` bytes of the reader's buffer,
      with the checksum accumulated byte by byte and tested as written
      (quirkFixed false) or as intended. */
  method CheckNibeMessage(buf: array<byte>, len: nat, quirkFixed: bool) returns (s: Status)
    requires len <= buf.Length
    ensures s == ClassifyBy(buf[..len], quirkFixed)
  {
    ghost var frame := buf[..len];
    if len >= 1 && buf[0] != FrameStartFromNibe {
      return Invalid;
    }
    if len >= 2 && buf[1] != 0x00 {
      return Invalid;
    }
    if len < 6 {
      return NotReady;
    }
    if OffsetLen >= len {
      return Fault(IndexOutOfBounds);
    }
    var datalen := Signed(buf[OffsetLen]);
    if len < datalen + 6 {
      return NotReady;
    }
    if datalen + 5 < 0 {
      return Fault(IndexOutOfBounds);
    }
    var computed: byte := 0;
    var i := 2;
    while i < datalen + 5
      invariant 2 <= i && (i <= datalen + 5 || i == 2)
      invariant computed == XorRange(frame, 2, i)
    {
      computed := computed ^ buf[i];
      i := i + 1;
    }
    var given := buf[datalen + 5];
    if quirkFixed && ChecksumAccepted(computed, given) {
      s := Valid;
    } else if !quirkFixed && ChecksumAcceptedAsWritten(computed, given) {
      s := Valid;
    } else {
      s := ChecksumFailure;
    }
  }
}

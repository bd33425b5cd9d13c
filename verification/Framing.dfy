/**
 * Length-prefixed frames: the TypeScript codec, the guest's Go codec, the incremental
 * reader of the local-tool server, and the one-frame accumulator of the broker server.
 */
module Framing {
  import opened Basics
  import opened Bits
  import Runs

  type Bytes = seq<Byte>

  /** 16 * 1024 * 1024 on both sides of the socket. */
  const FRAME_MAX_BYTES: nat := 0x100_0000

  // ---- the wire format ----

  /** Four bytes, most significant first. */
  function Header(n: nat): Bytes
    requires n < 0x1_0000_0000
  {
    var n1 := n / 0x100;
    var n2 := n1 / 0x100;
    [n2 / 0x100, n2 % 0x100, n1 % 0x100, n % 0x100]
  }

  function ReadUint32(header: Bytes): nat
    requires |header| == 4
  {
    var a: nat, b: nat, c: nat, d: nat := header[0], header[1], header[2], header[3];
    0x100_0000 * a + 0x1_0000 * b + 0x100 * c + d
  }

  predicate Fits(payload: Bytes) {
    |payload| <= FRAME_MAX_BYTES
  }

  predicate AllFit(payloads: seq<Bytes>) {
    forall i :: 0 <= i < |payloads| ==> Fits(payloads[i])
  }

  function Frame(payload: Bytes): Bytes
    requires Fits(payload)
  {
    Header(|payload|) + payload
  }

  /** Frames written one after the other. */
  function Stream(payloads: seq<Bytes>): Bytes
    requires AllFit(payloads)
  {
    if payloads == [] then [] else Frame(payloads[0]) + Stream(payloads[1..])
  }

  lemma HeaderRoundTrip(n: nat, header: Bytes)
    requires n < 0x1_0000_0000 && |header| == 4
    ensures ReadUint32(Header(n)) == n
    ensures ReadUint32(header) < 0x1_0000_0000 && Header(ReadUint32(header)) == header
  {
    var a: nat, b: nat, c: nat, d: nat := header[0], header[1], header[2], header[3];
    var m := ReadUint32(header);
    assert m == 0x100 * (0x100 * (0x100 * a + b) + c) + d;
    assert m / 0x100 == 0x100 * (0x100 * a + b) + c && m % 0x100 == d;
    assert m / 0x100 / 0x100 == 0x100 * a + b && m / 0x100 % 0x100 == c;
  }

  // ---- packages/protocol/src/framing.ts ----

  /** The encoder fills a buffer of exactly the frame's size; None when it throws. */
  method EncodeBrokerFrame(bytes: Bytes) returns (frame: Option<array<Byte>>)
    ensures frame.Some? <==> Fits(bytes)
    ensures frame.Some? ==> fresh(frame.value) && frame.value[..] == Frame(bytes)
  {
    if |bytes| > FRAME_MAX_BYTES {
      return None;
    }
    var buffer := new Byte[4 + |bytes|];
    var length := |bytes|;
    buffer[3] := length % 0x100;
    length := length / 0x100;
    buffer[2] := length % 0x100;
    length := length / 0x100;
    buffer[1] := length % 0x100;
    buffer[0] := length / 0x100;
    for i := 0 to |bytes|
      invariant buffer[..4] == Header(|bytes|)
      invariant forall j :: 0 <= j < i ==> buffer[4 + j] == bytes[j]
    {
      buffer[4 + i] := bytes[i];
    }
    assert buffer[..] == buffer[..4] + buffer[4..];
    assert buffer[4..] == bytes;
    frame := Some(buffer);
  }

  /** None when it throws. */
  function DecodeLength(prefix: Bytes): Option<nat> {
    if |prefix| != 4 then None
    else if ReadUint32(prefix) > FRAME_MAX_BYTES then None
    else Some(ReadUint32(prefix))
  }

  /** A prefix decodes to n exactly when it is the header of an n-byte frame. */
  lemma DecodesExactlyHeaders(prefix: Bytes, n: nat)
    ensures DecodeLength(prefix) == Some(n) <==> n <= FRAME_MAX_BYTES && prefix == Header(n)
  {
    if |prefix| == 4 {
      HeaderRoundTrip(ReadUint32(prefix), prefix);
    }
    if n <= FRAME_MAX_BYTES {
      HeaderRoundTrip(n, Header(n));
    }
  }

  // ---- guest/runtime/agent-socket_linux.go ----

  function GoWriteFrame(payload: Bytes): Option<Bytes> {
    var length := |payload|;
    if length > FRAME_MAX_BYTES then None
    else Some([ShiftRight(length, 24) % 0x100, ShiftRight(length, 16) % 0x100,
               ShiftRight(length, 8) % 0x100, length % 0x100] + payload)
  }

  function GoLength(header: Bytes): nat
    requires |header| == 4
  {
    Or(Or(Or(ShiftLeft(header[0], 24), ShiftLeft(header[1], 16)), ShiftLeft(header[2], 8)), header[3])
  }

  /** The payload and what is left in the stream; None when a read or the length fails. */
  function GoReadFrame(stream: Bytes): Option<(Bytes, Bytes)> {
    if |stream| < 4 then None
    else
      var length := GoLength(stream[..4]);
      if length > FRAME_MAX_BYTES || |stream| < 4 + length then None
      else Some((stream[4..4 + length], stream[4 + length..]))
  }

  lemma ByteShifts(a: nat)
    ensures ShiftLeft(a, 8) == 0x100 * a && ShiftLeft(a, 16) == 0x1_0000 * a && ShiftLeft(a, 24) == 0x100_0000 * a
  {
    ShiftByEight(a);
    ShiftBySixteen(a);
    ShiftByEight(0x1_0000 * a);
    ShiftOfShift(a, 16, 8);
  }

  lemma BytePowers()
    ensures Pow2(8) == 0x100 && Pow2(16) == 0x1_0000 && Pow2(24) == 0x100_0000
  {
    ByteShifts(1);
    Pow2IsShift(8);
    Pow2IsShift(16);
    Pow2IsShift(24);
  }

  /** Or-ing the shifted header bytes is the positional value. */
  lemma GoLengthIsPositional(header: Bytes)
    requires |header| == 4
    ensures GoLength(header) == ReadUint32(header)
  {
    var a: nat, b: nat, c: nat, d: nat := header[0], header[1], header[2], header[3];
    OrOfBytes(a, b, c, d);
  }

  lemma OrOfBytes(a: nat, b: nat, c: nat, d: nat)
    requires a < 0x100 && b < 0x100 && c < 0x100 && d < 0x100
    ensures Or(Or(Or(ShiftLeft(a, 24), ShiftLeft(b, 16)), ShiftLeft(c, 8)), d)
         == 0x100_0000 * a + 0x1_0000 * b + 0x100 * c + d
  {
    var ab := 0x100 * a + b;
    var abc := 0x100 * ab + c;
    UpperBytes(a, b);
    ThirdByte(ab, c);
    OrAtByte(abc, d, 8, 0x100);
  }

  lemma UpperBytes(a: nat, b: nat)
    requires b < 0x100
    ensures Or(ShiftLeft(a, 24), ShiftLeft(b, 16)) == 0x1_0000 * (0x100 * a + b)
  {
    var x, y := ShiftLeft(a, 24), ShiftLeft(b, 16);
    assert x == 0x100_0000 * a by { ByteShifts(a); }
    assert y == 0x1_0000 * b by { ByteShifts(b); }
    OrAtByte(a, 0x1_0000 * b, 24, 0x100_0000);
  }

  lemma ThirdByte(ab: nat, c: nat)
    requires c < 0x100
    ensures Or(0x1_0000 * ab, ShiftLeft(c, 8)) == 0x100 * (0x100 * ab + c)
  {
    var y := ShiftLeft(c, 8);
    assert y == 0x100 * c by { ByteShifts(c); }
    OrAtByte(ab, 0x100 * c, 16, 0x1_0000);
  }

  lemma OrAtByte(q: nat, low: nat, k: nat, p: nat)
    requires (k == 8 && p == 0x100) || (k == 16 && p == 0x1_0000) || (k == 24 && p == 0x100_0000)
    requires low < p
    ensures Or(p * q, low) == p * q + low
  {
    BytePowers();
    ByteShifts(q);
    OrIsSum(q, low, k);
  }

  lemma GoHeaderIsHeader(n: nat)
    requires n < 0x1_0000_0000
    ensures [ShiftRight(n, 24) % 0x100, ShiftRight(n, 16) % 0x100, ShiftRight(n, 8) % 0x100, n % 0x100] == Header(n)
  {
    GoShiftsRight(n);
    var n1 := n / 0x100;
    var n2 := n1 / 0x100;
    assert n2 / 0x100 < 0x100;
  }

  lemma GoShiftsRight(n: nat)
    ensures var n1 := n / 0x100; var n2 := n1 / 0x100;
      ShiftRight(n, 8) == n1 && ShiftRight(n, 16) == n2 && ShiftRight(n, 24) == n2 / 0x100
  {
    var n1 := n / 0x100;
    var n2 := n1 / 0x100;
    ByteShiftRight(n);
    ShiftRightOfShift(n, 8, 8);
    ByteShiftRight(n1);
    ShiftRightOfShift(n, 16, 8);
    ByteShiftRight(n2);
  }

  lemma ByteShiftRight(n: nat)
    ensures ShiftRight(n, 8) == n / 0x100
  {
    BytePowers();
    ShiftByEight(n / 0x100);
    ShiftRightIs(n, n / 0x100, n % 0x100, 8);
  }

  /** Both writers produce the same frame, and refuse the same payloads. */
  lemma GoWritesFrames(payload: Bytes)
    ensures GoWriteFrame(payload) == if Fits(payload) then Some(Frame(payload)) else None
  {
    if Fits(payload) {
      GoHeaderIsHeader(|payload|);
    }
  }

  /** The guest reads a payload exactly when the stream starts with its frame. */
  lemma GoReadsExactlyFrames(stream: Bytes, payload: Bytes, rest: Bytes)
    ensures GoReadFrame(stream) == Some((payload, rest)) <==> Fits(payload) && stream == Frame(payload) + rest
  {
    if |stream| >= 4 {
      GoLengthIsPositional(stream[..4]);
      DecodesExactlyHeaders(stream[..4], GoLength(stream[..4]));
      DecodesExactlyHeaders(stream[..4], |payload|);
    }
    if GoReadFrame(stream) == Some((payload, rest)) {
      assert stream == stream[..4] + payload + rest;
    }
    if Fits(payload) && stream == Frame(payload) + rest {
      FrameParts(stream, payload, rest);
    }
  }

  lemma FrameParts(stream: Bytes, payload: Bytes, rest: Bytes)
    requires Fits(payload) && stream == Frame(payload) + rest
    ensures stream[..4] == Header(|payload|)
    ensures stream[4..4 + |payload|] == payload && stream[4 + |payload|..] == rest
  {
  }

  // ---- streams of frames ----

  lemma FramesAgree(p: Bytes, q: Bytes, s: Bytes, t: Bytes)
    requires Fits(p) && Fits(q) && Frame(p) + s <= Frame(q) + t
    ensures p == q && s <= t
  {
    var left, right := Frame(p) + s, Frame(q) + t;
    FrameParts(right, q, t);
    FrameParts(left, p, s);
    assert left[..4] == right[..4];
    HeaderRoundTrip(|p|, Header(|p|));
    HeaderRoundTrip(|q|, Header(|q|));
    assert left[4..4 + |p|] == right[4..4 + |p|];
    assert left[4 + |p|..] <= right[4 + |p|..];
  }

  /** Bytes that open one stream of frames and continue another split the same way. */
  lemma {:induction false} StreamsAgree(sent: seq<Bytes>, got: seq<Bytes>, buffer: Bytes)
    requires AllFit(sent) && AllFit(got) && Stream(got) + buffer <= Stream(sent)
    ensures got <= sent && buffer <= Stream(sent[|got|..])
    decreases |got|
  {
    if got == [] {
      assert Stream(got) + buffer == buffer && sent[0..] == sent;
    } else {
      var p, q := got[0], if sent == [] then [] else sent[0];
      assert |Stream(got)| >= 4;
      assert Stream(got) + buffer == Frame(p) + (Stream(got[1..]) + buffer);
      FramesAgree(p, q, Stream(got[1..]) + buffer, Stream(sent[1..]));
      StreamsAgree(sent[1..], got[1..], buffer);
      assert sent == [q] + sent[1..] && got == [p] + got[1..];
      assert sent[1..][|got| - 1..] == sent[|got|..];
    }
  }

  lemma {:induction false} StreamSnoc(payloads: seq<Bytes>, last: Bytes)
    requires AllFit(payloads) && Fits(last)
    ensures AllFit(payloads + [last]) && Stream(payloads + [last]) == Stream(payloads) + Frame(last)
    decreases |payloads|
  {
    var all := payloads + [last];
    if payloads == [] {
      assert all[1..] == [] && Frame(last) + [] == Frame(last);
    } else {
      assert all[0] == payloads[0] && all[1..] == payloads[1..] + [last];
      StreamSnoc(payloads[1..], last);
    }
  }

  // ---- the incremental reader, as a value ----

  datatype ReadError = TimedOut | Closed | Malformed

  /** The reader's fields, with what came in and how its reads ended. */
  datatype Reader = Reader(
    buffer: Bytes, waiting: bool, closed: Option<ReadError>,
    received: Bytes, delivered: seq<Bytes>, rejected: seq<ReadError>, asked: nat)

  datatype Event = Data(chunk: Bytes) | Read | Elapse | Shutdown

  const INITIAL: Reader := Reader([], false, None, [], [], [], 0)

  function Shut(r: Reader, error: ReadError): Reader {
    if r.closed.Some? then r
    else r.(closed := Some(error), waiting := false, rejected := if r.waiting then r.rejected + [error] else r.rejected)
  }

  function Pumped(r: Reader): Reader {
    if !r.waiting || |r.buffer| < 4 then r
    else
      match DecodeLength(r.buffer[..4])
      case None => Shut(r, Malformed)
      case Some(n) =>
        if |r.buffer| < 4 + n then r
        else r.(buffer := r.buffer[4 + n..], waiting := false, delivered := r.delivered + [r.buffer[4..4 + n]])
  }

  function Fed(r: Reader, chunk: Bytes): Reader {
    r.(buffer := r.buffer + chunk, received := r.received + chunk)
  }

  /** A second read while one waits throws and changes nothing. */
  function Step(r: Reader, e: Event): Reader {
    match e
    case Data(chunk) => Pumped(Fed(r, chunk))
    case Read =>
      if r.waiting then r
      else if r.closed.Some? then r.(asked := r.asked + 1, rejected := r.rejected + [r.closed.value])
      else Pumped(r.(waiting := true, asked := r.asked + 1))
    case Elapse =>
      if r.waiting then r.(waiting := false, rejected := r.rejected + [TimedOut]) else r
    case Shutdown => Shut(r, Closed)
  }

  /** No whole frame can be taken from the buffer, and its length prefix is sound so far. */
  predicate Incomplete(buffer: Bytes) {
    |buffer| < 4 || (DecodeLength(buffer[..4]).Some? && |buffer| < 4 + DecodeLength(buffer[..4]).value)
  }

  ghost predicate Accounted(r: Reader) {
    && AllFit(r.delivered) && r.received == Stream(r.delivered) + r.buffer
    && r.asked == |r.delivered| + |r.rejected| + (if r.waiting then 1 else 0)
    && (r.waiting ==> r.closed.None?) && r.closed != Some(TimedOut)
    && (r.closed == Some(Malformed) ==> |r.buffer| >= 4 && DecodeLength(r.buffer[..4]).None?)
  }

  ghost predicate ReaderInv(r: Reader) {
    Accounted(r) && (r.waiting ==> Incomplete(r.buffer))
  }

  lemma PumpKeeps(r: Reader)
    requires Accounted(r)
    ensures ReaderInv(Pumped(r))
  {
    if r.waiting && |r.buffer| >= 4 {
      var length := DecodeLength(r.buffer[..4]);
      if length.Some? && |r.buffer| >= 4 + length.value {
        var n := length.value;
        var payload := r.buffer[4..4 + n];
        DecodesExactlyHeaders(r.buffer[..4], n);
        StreamSnoc(r.delivered, payload);
        assert r.buffer == Frame(payload) + r.buffer[4 + n..];
      }
    }
  }

  lemma StepKeeps(r: Reader, e: Event)
    requires ReaderInv(r)
    ensures ReaderInv(Step(r, e))
  {
    match e
    case Data(chunk) =>
      var fed := Fed(r, chunk);
      assert |r.buffer| >= 4 ==> fed.buffer[..4] == r.buffer[..4];
      assert fed.received == Stream(r.delivered) + fed.buffer;
      PumpKeeps(fed);
    case Read =>
      if !r.waiting && r.closed.None? {
        PumpKeeps(r.(waiting := true, asked := r.asked + 1));
      }
    case Elapse =>
    case Shutdown =>
  }

  function After(events: seq<Event>): Reader {
    Runs.Exec(Step, INITIAL, events)
  }

  function BytesOf(events: seq<Event>): Bytes {
    if events == [] then []
    else (if events[0].Data? then events[0].chunk else []) + BytesOf(events[1..])
  }

  /**
   * Whatever arrives, however it is cut into chunks, and however reads, timeouts and
   * closes fall between: the bytes received are the frames handed out, encoded again,
   * followed by the buffer; no read waits beside a whole or a malformed frame; every
   * read begun has ended once or is the one that waits.
   */
  lemma ReaderAccountsForEveryByte(events: seq<Event>)
    ensures ReaderInv(After(events)) && After(events).received == BytesOf(events)
  {
    Runs.InvariantHolds(Step, r => ReaderInv(r), INITIAL, events) by {
      forall r: Reader, e: Event | ReaderInv(r)
        ensures ReaderInv(Step(r, e))
      {
        StepKeeps(r, e);
      }
    }
    ReceivedFrom(INITIAL, events);
    assert [] + BytesOf(events) == BytesOf(events);
  }

  lemma {:induction false} ReceivedFrom(r: Reader, events: seq<Event>)
    ensures Runs.Exec(Step, r, events).received == r.received + BytesOf(events)
    decreases |events|
  {
    if events != [] {
      ReceivedFrom(Step(r, events[0]), events[1..]);
      var chunk := if events[0].Data? then events[0].chunk else [];
      assert Step(r, events[0]).received == r.received + chunk;
    }
  }

  lemma IncompleteOpensNoFrame(buffer: Bytes, payloads: seq<Bytes>)
    requires Incomplete(buffer) && AllFit(payloads) && buffer == Stream(payloads)
    ensures payloads == []
  {
    if payloads != [] {
      FrameParts(buffer, payloads[0], Stream(payloads[1..]));
      HeaderRoundTrip(|payloads[0]|, Header(|payloads[0]|));
    }
  }

  /** An honest sender's payloads come out in order, none invented, none taken for malformed. */
  lemma DeliversSentPrefix(events: seq<Event>, sent: seq<Bytes>)
    requires AllFit(sent) && BytesOf(events) <= Stream(sent)
    ensures After(events).delivered <= sent
    ensures After(events).closed != Some(Malformed)
  {
    var r := After(events);
    ReaderAccountsForEveryByte(events);
    StreamsAgree(sent, r.delivered, r.buffer);
    if |r.buffer| >= 4 {
      SentPrefixDecodes(r.buffer, sent[|r.delivered|..]);
    }
  }

  lemma SentPrefixDecodes(buffer: Bytes, sent: seq<Bytes>)
    requires AllFit(sent) && 4 <= |buffer| && buffer <= Stream(sent)
    ensures sent != [] && DecodeLength(buffer[..4]) == Some(|sent[0]|)
  {
    FrameParts(Stream(sent), sent[0], Stream(sent[1..]));
    assert buffer[..4] == Stream(sent)[..4];
    DecodesExactlyHeaders(buffer[..4], |sent[0]|);
  }

  /** Once all of a sender's bytes are in, a read still waiting means every payload came out. */
  lemma WaitingMeansCaughtUp(events: seq<Event>, sent: seq<Bytes>)
    requires AllFit(sent) && BytesOf(events) == Stream(sent) && After(events).waiting
    ensures After(events).delivered == sent
  {
    var r := After(events);
    ReaderAccountsForEveryByte(events);
    StreamsAgree(sent, r.delivered, r.buffer);
    var rest := sent[|r.delivered|..];
    assert sent == r.delivered + rest;
    StreamSplits(r.delivered, rest);
    assert r.buffer == Stream(rest);
    IncompleteOpensNoFrame(r.buffer, rest);
  }

  lemma {:induction false} StreamSplits(a: seq<Bytes>, b: seq<Bytes>)
    requires AllFit(a) && AllFit(b)
    ensures AllFit(a + b) && Stream(a + b) == Stream(a) + Stream(b)
    decreases |a|
  {
    var all := a + b;
    if a == [] {
      assert all == b;
      assert Stream(a) + Stream(b) == Stream(b);
    } else {
      var p, tail := a[0], a[1..];
      assert all[0] == p && all[1..] == tail + b;
      StreamSplits(tail, b);
      assert Stream(all) == Frame(p) + (Stream(tail) + Stream(b));
    }
  }

  // ---- what each event does to the reader ----

  /** The waiting read, if there is one, ends with the error, and nothing waits any more; what came in is untouched. */
  ghost predicate EndsWaiting(r: Reader, t: Reader, error: ReadError) {
    && !t.waiting && t.rejected == r.rejected + (if r.waiting then [error] else [])
    && t.buffer == r.buffer && t.received == r.received && t.delivered == r.delivered && t.asked == r.asked
  }

  /** The buffer starts with the frame of a payload. */
  predicate StartsWith(buffer: Bytes, payload: Bytes) {
    Fits(payload) && Frame(payload) <= buffer
  }

  /** The buffer starts with four bytes that are the header of no frame. */
  ghost predicate StartsMalformed(buffer: Bytes) {
    |buffer| >= 4 && forall n: nat :: n <= FRAME_MAX_BYTES ==> Header(n) != buffer[..4]
  }

  /** What a waiting read makes of the buffer: the frame at its head, an error if there can be none, or it waits on. */
  ghost predicate Serves(r: Reader, t: Reader) {
    && (forall payload :: StartsWith(r.buffer, payload) ==>
          t == r.(waiting := false, delivered := r.delivered + [payload], buffer := r.buffer[4 + |payload|..]))
    && (StartsMalformed(r.buffer) ==>
          t == r.(waiting := false, closed := Some(Malformed), rejected := r.rejected + [Malformed]))
    && ((forall payload :: !StartsWith(r.buffer, payload)) && !StartsMalformed(r.buffer) ==> t == r)
  }

  /** The payload whose frame is at the head of the buffer is found at its length prefix. */
  lemma FrameAtHead(buffer: Bytes, payload: Bytes)
    requires StartsWith(buffer, payload)
    ensures |buffer| >= 4 + |payload| && DecodeLength(buffer[..4]) == Some(|payload|) && buffer[4..4 + |payload|] == payload
  {
    assert buffer[..4] == Frame(payload)[..4] == Header(|payload|);
    assert buffer[4..4 + |payload|] == Frame(payload)[4..];
    DecodesExactlyHeaders(buffer[..4], |payload|);
  }

  lemma HeadIsFrame(buffer: Bytes, n: nat)
    requires |buffer| >= 4 + n && DecodeLength(buffer[..4]) == Some(n)
    ensures StartsWith(buffer, buffer[4..4 + n])
  {
    DecodesExactlyHeaders(buffer[..4], n);
    assert buffer == Frame(buffer[4..4 + n]) + buffer[4 + n..];
  }

  lemma MalformedAtHead(buffer: Bytes)
    requires |buffer| >= 4
    ensures StartsMalformed(buffer) <==> DecodeLength(buffer[..4]).None?
  {
    var length := DecodeLength(buffer[..4]);
    if length.Some? {
      DecodesExactlyHeaders(buffer[..4], length.value);
    }
    forall n: nat | n <= FRAME_MAX_BYTES && Header(n) == buffer[..4] ensures length == Some(n) {
      DecodesExactlyHeaders(buffer[..4], n);
    }
  }

  lemma PumpDelivers(r: Reader, payload: Bytes)
    requires r.waiting && StartsWith(r.buffer, payload)
    ensures Pumped(r) == r.(waiting := false, delivered := r.delivered + [payload], buffer := r.buffer[4 + |payload|..])
  {
    FrameAtHead(r.buffer, payload);
  }

  lemma PumpRejects(r: Reader)
    requires r.waiting && r.closed.None? && StartsMalformed(r.buffer)
    ensures Pumped(r) == r.(waiting := false, closed := Some(Malformed), rejected := r.rejected + [Malformed])
  {
    MalformedAtHead(r.buffer);
  }

  lemma PumpWaits(r: Reader)
    requires !StartsMalformed(r.buffer) && forall payload :: !StartsWith(r.buffer, payload)
    ensures Pumped(r) == r
  {
    if |r.buffer| >= 4 {
      MalformedAtHead(r.buffer);
      var n := DecodeLength(r.buffer[..4]).value;
      if |r.buffer| >= 4 + n {
        HeadIsFrame(r.buffer, n);
      }
    }
  }

  lemma PumpServes(r: Reader)
    requires r.waiting && r.closed.None?
    ensures Serves(r, Pumped(r))
  {
    forall payload | StartsWith(r.buffer, payload)
      ensures Pumped(r) == r.(waiting := false, delivered := r.delivered + [payload], buffer := r.buffer[4 + |payload|..])
    {
      PumpDelivers(r, payload);
    }
    if StartsMalformed(r.buffer) {
      PumpRejects(r);
    } else if forall payload :: !StartsWith(r.buffer, payload) {
      PumpWaits(r);
    }
  }

  /**
   A timeout ends the waiting read with that error and leaves the reader open; a close does
   and closes it, once; a read of a closed reader ends with the error that closed it, and
   any other one is served from the buffer; a chunk is appended and serves the waiting read.
   */
  lemma StepDoes(r: Reader, e: Event)
    requires ReaderInv(r)
    ensures var t := Step(r, e);
      match e
      case Elapse => EndsWaiting(r, t, TimedOut) && t.closed == r.closed
      case Shutdown => EndsWaiting(r, t, Closed) && t.closed == if r.closed.Some? then r.closed else Some(Closed)
      case Read =>
        if r.waiting then t == r
        else if r.closed.Some? then t == r.(asked := r.asked + 1, rejected := r.rejected + [r.closed.value])
        else Serves(r.(waiting := true, asked := r.asked + 1), t)
      case Data(chunk) =>
        var fed := r.(buffer := r.buffer + chunk, received := r.received + chunk);
        if r.waiting then Serves(fed, t) else t == fed
  {
    match e
    case Read => ReadDoes(r);
    case Data(chunk) => DataDoes(r, chunk);
    case _ =>
  }

  lemma ReadDoes(r: Reader)
    ensures !r.waiting && r.closed.None? ==> Serves(r.(waiting := true, asked := r.asked + 1), Step(r, Read))
  {
    if !r.waiting && r.closed.None? {
      PumpServes(r.(waiting := true, asked := r.asked + 1));
    }
  }

  lemma DataDoes(r: Reader, chunk: Bytes)
    requires ReaderInv(r)
    ensures var fed := r.(buffer := r.buffer + chunk, received := r.received + chunk);
      if r.waiting then Serves(fed, Step(r, Data(chunk))) else Step(r, Data(chunk)) == fed
  {
    if r.waiting {
      PumpServes(Fed(r, chunk));
    }
  }

  lemma StepSnoc(init: seq<Event>, e: Event)
    ensures After(init + [e]) == Step(After(init), e) && ReaderInv(After(init))
  {
    Runs.ExecSnoc(Step, INITIAL, init, e);
    ReaderAccountsForEveryByte(init);
  }

  /** As many reads time out as timers fire on a waiting read, and the reader is closed by the first close on an open one. */
  lemma TimeoutsAndCloses(events: seq<Event>)
    ensures multiset(After(events).rejected)[TimedOut]
         == Runs.Times(After, events, (r: Reader, e: Event) => e.Elapse? && r.waiting)
    ensures After(events).closed == Some(Closed)
       <==> Runs.Occurs(After, events, (r: Reader, e: Event) => e.Shutdown? && r.closed.None?)
  {
    var number: Reader -> nat := (r: Reader) => multiset(r.rejected)[TimedOut];
    var fires := (r: Reader, e: Event) => e.Elapse? && r.waiting;
    var shut, shuts := (r: Reader) => r.closed == Some(Closed), (r: Reader, e: Event) => e.Shutdown? && r.closed.None?;
    forall init: seq<Event>, e: Event
      ensures Runs.Counts(After, number, fires, init, e)
      ensures Runs.Arises(After, shut, shuts, init, e)
    {
      StepSnoc(init, e);
      TimeoutStep(After(init), e);
    }
    Runs.NumberIsTimes(After, number, fires, events);
    Runs.FactIsHistory(After, shut, shuts, events);
  }

  lemma TimeoutStep(r: Reader, e: Event)
    requires ReaderInv(r)
    ensures var t := Step(r, e);
      && multiset(t.rejected)[TimedOut] == multiset(r.rejected)[TimedOut] + (if e.Elapse? && r.waiting then 1 else 0)
      && (t.closed == Some(Closed) <==> r.closed == Some(Closed) || (e.Shutdown? && r.closed.None?))
  {
  }

  // ---- apps/broker/src/local-tool-server.ts ----

  datatype ReadStart = AlreadyWaiting | Refused(error: ReadError) | Begun

  class FrameReader {
    var buffer: Bytes
    var pending: bool
    var closed: Option<ReadError>
    ghost var received: Bytes
    ghost var delivered: seq<Bytes>
    ghost var rejected: seq<ReadError>
    ghost var asked: nat

    ghost function State(): Reader
      reads this
    {
      Reader(buffer, pending, closed, received, delivered, rejected, asked)
    }

    ghost predicate Valid()
      reads this
    {
      ReaderInv(State())
    }

    constructor ()
      ensures Valid() && State() == INITIAL
    {
      buffer, pending, closed := [], false, None;
      received, delivered, rejected, asked := [], [], [], 0;
    }

    /** A chunk from the socket. */
    method OnData(chunk: Bytes)
      requires Valid()
      modifies this
      ensures Valid() && State() == Step(old(State()), Data(chunk))
    {
      StepKeeps(State(), Data(chunk));
      buffer := buffer + chunk;
      received := received + chunk;
      Pump();
    }

    /** `next`: at most one read at a time; a closed reader refuses at once. */
    method Next() returns (start: ReadStart)
      requires Valid()
      modifies this
      ensures Valid() && State() == Step(old(State()), Read)
      ensures start == if old(pending) then AlreadyWaiting
                       else if old(closed).Some? then Refused(old(closed).value)
                       else Begun
    {
      StepKeeps(State(), Read);
      if pending {
        return AlreadyWaiting;
      }
      asked := asked + 1;
      if closed.Some? {
        rejected := rejected + [closed.value];
        return Refused(closed.value);
      }
      pending := true;
      Pump();
      start := Begun;
    }

    method OnTimeout()
      requires Valid()
      modifies this
      ensures Valid() && State() == Step(old(State()), Elapse)
      ensures EndsWaiting(old(State()), State(), TimedOut)
    {
      StepKeeps(State(), Elapse);
      if pending {
        pending := false;
        rejected := rejected + [TimedOut];
      }
    }

    /** The socket's error, end and close events. */
    method OnClosed()
      requires Valid()
      modifies this
      ensures Valid() && State() == Step(old(State()), Shutdown)
      ensures EndsWaiting(old(State()), State(), Closed) && closed.Some?
    {
      StepKeeps(State(), Shutdown);
      Close(Closed);
    }

    method Pump()
      modifies this
      ensures State() == Pumped(old(State()))
    {
      if !pending || |buffer| < 4 {
        return;
      }
      var size := DecodeLength(buffer[..4]);
      if size.None? {
        Close(Malformed);
        return;
      }
      if |buffer| < 4 + size.value {
        return;
      }
      var frame := buffer[4..4 + size.value];
      buffer := buffer[4 + size.value..];
      pending := false;
      delivered := delivered + [frame];
    }

    method Close(error: ReadError)
      modifies this
      ensures State() == Shut(old(State()), error)
    {
      if closed.Some? {
        return;
      }
      closed := Some(error);
      rejected := if pending then rejected + [error] else rejected;
      pending := false;
    }
  }

  // ---- apps/broker/src/framed-broker-server.ts: one frame per connection ----

  /** A connection's variables; `dispatched` is the payload handed to the broker. */
  datatype Connection = Connection(
    received: Bytes, declared: Option<nat>, handled: bool, destroyed: bool, dispatched: Option<Bytes>)

  const OPENED: Connection := Connection([], None, false, false, None)

  /** One chunk; a destroyed socket delivers no more of them. */
  function Accumulated(c: Connection, chunk: Bytes): Connection {
    if c.destroyed || c.handled then c
    else
      var received := c.received + chunk;
      var c1 := c.(received := received);
      if c.declared.None? && |received| >= 4 && DecodeLength(received[..4]).None? then c1.(destroyed := true)
      else
        var declared := if c.declared.None? && |received| >= 4 then DecodeLength(received[..4]) else c.declared;
        var c2 := c1.(declared := declared);
        if declared.None? || |received| < 4 + declared.value then c2
        else if |received| != 4 + declared.value then c2.(destroyed := true)
        else c2.(handled := true, dispatched := Some(received[4..]))
  }

  /** The end and timeout events: only an unanswered connection is dropped. */
  function Abandoned(c: Connection): Connection {
    if c.handled then c else c.(destroyed := true)
  }

  function Received(chunks: seq<Bytes>): Connection {
    Runs.Exec(Accumulated, OPENED, chunks)
  }

  function Concat(chunks: seq<Bytes>): Bytes {
    if chunks == [] then [] else Concat(chunks[..|chunks| - 1]) + chunks[|chunks| - 1]
  }

  /** The bytes cannot be, or become, one frame. */
  predicate Broken(bytes: Bytes) {
    |bytes| >= 4 && (DecodeLength(bytes[..4]).None? || |bytes| > 4 + DecodeLength(bytes[..4]).value)
  }

  predicate Whole(bytes: Bytes) {
    |bytes| >= 4 && DecodeLength(bytes[..4]) == Some(|bytes| - 4)
  }

  lemma WholeIsFrame(bytes: Bytes, payload: Bytes)
    ensures Whole(bytes) && bytes[4..] == payload <==> Fits(payload) && bytes == Frame(payload)
  {
    if Whole(bytes) && bytes[4..] == payload {
      DecodesExactlyHeaders(bytes[..4], |payload|);
      assert bytes == bytes[..4] + payload;
    }
    if Fits(payload) && bytes == Frame(payload) {
      assert bytes + [] == bytes;
      FrameParts(bytes, payload, []);
      DecodesExactlyHeaders(bytes[..4], |payload|);
    }
  }

  /** Bytes are exactly one of incomplete, a whole frame, or broken, and more bytes never heal them. */
  lemma MoreBytes(bytes: Bytes, more: Bytes)
    requires bytes <= more
    ensures Incomplete(bytes) == (!Whole(bytes) && !Broken(bytes)) && !(Whole(bytes) && Broken(bytes))
    ensures Broken(bytes) ==> Broken(more)
    ensures Whole(bytes) ==> bytes == more || Broken(more)
  {
    assert |bytes| >= 4 ==> bytes[..4] == more[..4];
    assert |bytes| == |more| ==> bytes == more;
  }

  lemma {:induction false} ConcatGrows(chunks: seq<Bytes>, k: nat)
    requires k <= |chunks|
    ensures Concat(chunks[..k]) <= Concat(chunks)
    decreases |chunks|
  {
    if k < |chunks| {
      ConcatGrows(chunks[..|chunks| - 1], k);
      assert chunks[..|chunks| - 1][..k] == chunks[..k];
    } else {
      assert chunks[..k] == chunks;
    }
  }

  /** The first k chunks are exactly the frame of `payload`. */
  ghost predicate CutAt(chunks: seq<Bytes>, k: nat, payload: Bytes) {
    k <= |chunks| && Fits(payload) && Concat(chunks[..k]) == Frame(payload)
  }

  function Expected(bytes: Bytes): Connection {
    Connection(bytes, if |bytes| < 4 then None else DecodeLength(bytes[..4]), false, false, None)
  }

  ghost predicate Answered(c: Connection, chunks: seq<Bytes>) {
    c.handled && !c.destroyed && c.dispatched.Some? && exists k: nat :: CutAt(chunks, k, c.dispatched.value)
  }

  ghost predicate Dropped(c: Connection, chunks: seq<Bytes>) {
    && c.destroyed && !c.handled && c.dispatched.None?
    && Broken(Concat(chunks)) && forall k: nat, p: Bytes :: !CutAt(chunks, k, p)
  }

  ghost predicate Reflects(c: Connection, chunks: seq<Bytes>) {
    if Incomplete(Concat(chunks)) then c == Expected(Concat(chunks)) else Answered(c, chunks) || Dropped(c, chunks)
  }

  lemma CutIsWhole(chunks: seq<Bytes>, k: nat, payload: Bytes)
    requires CutAt(chunks, k, payload)
    ensures !Incomplete(Concat(chunks)) && (Whole(Concat(chunks)) ==> Concat(chunks) == Frame(payload))
  {
    WholeIsFrame(Frame(payload), payload);
    ConcatGrows(chunks, k);
    assert Frame(payload)[4..] == payload;
    MoreBytes(Frame(payload), Concat(chunks));
    MoreBytes(Concat(chunks), Concat(chunks));
  }

  /** Earlier cuts stay cuts; a later chunk adds at most the cut at the new end. */
  lemma CutsAfter(chunks: seq<Bytes>, chunk: Bytes, k: nat, payload: Bytes)
    ensures var more := chunks + [chunk];
      && (CutAt(chunks, k, payload) ==> CutAt(more, k, payload))
      && (CutAt(more, k, payload) ==> CutAt(chunks, k, payload) || Concat(more) == Frame(payload))
  {
    var more := chunks + [chunk];
    if k <= |chunks| {
      assert more[..k] == chunks[..k];
    } else if k == |more| {
      assert more[..k] == more;
    }
  }

  lemma ConcatSnoc(chunks: seq<Bytes>, chunk: Bytes)
    ensures Concat(chunks + [chunk]) == Concat(chunks) + chunk
  {
    assert (chunks + [chunk])[..|chunks|] == chunks;
  }

  lemma ChunkOutcome(before: Bytes, chunk: Bytes)
    requires Incomplete(before)
    ensures var c, bytes := Accumulated(Expected(before), chunk), before + chunk;
      && (Incomplete(bytes) ==> c == Expected(bytes))
      && (Whole(bytes) ==> c.handled && !c.destroyed && c.dispatched == Some(bytes[4..]))
      && (Broken(bytes) ==> c.destroyed && !c.handled && c.dispatched.None?)
  {
    var bytes := before + chunk;
    assert |before| >= 4 ==> bytes[..4] == before[..4];
    MoreBytes(bytes, bytes);
  }

  /** The first chunk that completes or breaks the frame decides. */
  lemma ChunkDecides(chunks: seq<Bytes>, chunk: Bytes)
    requires Incomplete(Concat(chunks))
    ensures Reflects(Accumulated(Expected(Concat(chunks)), chunk), chunks + [chunk])
  {
    var more := chunks + [chunk];
    var bytes := Concat(more);
    ConcatSnoc(chunks, chunk);
    ChunkOutcome(Concat(chunks), chunk);
    MoreBytes(bytes, bytes);
    if Whole(bytes) {
      WholeIsFrame(bytes, bytes[4..]);
      assert more[..|more|] == more;
      assert CutAt(more, |more|, bytes[4..]);
    } else if Broken(bytes) {
      forall k: nat, p: Bytes
        ensures !CutAt(more, k, p)
      {
        NoCutWhileIncomplete(chunks, k, p);
        NoCutWhenBroken(chunks, chunk, k, p);
      }
    }
  }

  lemma NoCutWhileIncomplete(chunks: seq<Bytes>, k: nat, p: Bytes)
    requires Incomplete(Concat(chunks))
    ensures !CutAt(chunks, k, p)
  {
    if CutAt(chunks, k, p) {
      CutIsWhole(chunks, k, p);
    }
  }

  lemma NoCutWhenBroken(chunks: seq<Bytes>, chunk: Bytes, k: nat, p: Bytes)
    requires !CutAt(chunks, k, p) && Broken(Concat(chunks + [chunk]))
    ensures !CutAt(chunks + [chunk], k, p)
  {
    CutsAfter(chunks, chunk, k, p);
    if Fits(p) {
      assert Frame(p)[4..] == p;
      WholeIsFrame(Frame(p), p);
      MoreBytes(Frame(p), Frame(p));
    }
  }

  lemma ChunkKeeps(c: Connection, chunks: seq<Bytes>, chunk: Bytes)
    requires Reflects(c, chunks)
    ensures Reflects(Accumulated(c, chunk), chunks + [chunk])
  {
    var more := chunks + [chunk];
    if Incomplete(Concat(chunks)) {
      ChunkDecides(chunks, chunk);
    } else {
      ConcatSnoc(chunks, chunk);
      MoreBytes(Concat(chunks), Concat(more));
      MoreBytes(Concat(more), Concat(more));
      assert !Incomplete(Concat(more));
      if Answered(c, chunks) {
        var k: nat :| CutAt(chunks, k, c.dispatched.value);
        CutsAfter(chunks, chunk, k, c.dispatched.value);
      } else {
        forall k: nat, p: Bytes
          ensures !CutAt(more, k, p)
        {
          NoCutWhenBroken(chunks, chunk, k, p);
        }
      }
    }
  }

  lemma {:induction false} ReceivedReflects(chunks: seq<Bytes>)
    ensures Reflects(Received(chunks), chunks)
    decreases |chunks|
  {
    if chunks != [] {
      var init, last := chunks[..|chunks| - 1], chunks[|chunks| - 1];
      ReceivedReflects(init);
      ChunkKeeps(Received(init), init, last);
      Runs.ExecSnoc(Accumulated, OPENED, init, last);
      assert chunks == init + [last];
    }
  }

  /**
   * A payload reaches the broker exactly when some chunk boundary falls at the end of its
   * frame and the frame is the first thing sent.
   */
  lemma DispatchesExactlyAtABoundary(chunks: seq<Bytes>, payload: Bytes)
    ensures Received(chunks).dispatched == Some(payload) <==> exists k: nat :: CutAt(chunks, k, payload)
  {
    ReceivedReflects(chunks);
    var c := Received(chunks);
    if k: nat :| CutAt(chunks, k, payload) {
      CutIsWhole(chunks, k, payload);
      assert Answered(c, chunks);
      var j: nat :| CutAt(chunks, j, c.dispatched.value);
      OneFrameOpens(chunks, k, payload, j, c.dispatched.value);
    }
  }

  lemma OneFrameOpens(chunks: seq<Bytes>, k: nat, p: Bytes, j: nat, q: Bytes)
    requires CutAt(chunks, k, p) && CutAt(chunks, j, q)
    ensures p == q
  {
    ConcatGrows(chunks, k);
    ConcatGrows(chunks, j);
    var all := Concat(chunks);
    assert all == Frame(p) + all[4 + |p|..] && all == Frame(q) + all[4 + |q|..];
    FramesAgree(p, q, all[4 + |p|..], all[4 + |q|..]);
  }

  /** Otherwise the connection is dropped exactly when the bytes can no longer be one frame. */
  lemma DropsExactlyBrokenInput(chunks: seq<Bytes>)
    ensures Received(chunks).destroyed <==>
            Broken(Concat(chunks)) && forall k: nat, p: Bytes :: !CutAt(chunks, k, p)
  {
    ReceivedReflects(chunks);
    MoreBytes(Concat(chunks), Concat(chunks));
  }

  /** However the network cuts one frame up, its payload is dispatched. */
  lemma ChunkingOfOneFrameIsIrrelevant(chunks: seq<Bytes>, payload: Bytes)
    requires Fits(payload) && Concat(chunks) == Frame(payload)
    ensures Received(chunks).dispatched == Some(payload) && !Received(chunks).destroyed
  {
    assert chunks[..|chunks|] == chunks;
    assert CutAt(chunks, |chunks|, payload);
    DispatchesExactlyAtABoundary(chunks, payload);
    ReceivedReflects(chunks);
    CutIsWhole(chunks, |chunks|, payload);
  }

  /** With bytes after the frame the cuts do matter: one chunk is refused, two are served. */
  lemma TrailingBytesDependOnChunking(payload: Bytes, extra: Bytes)
    requires Fits(payload) && extra != []
    ensures Received([Frame(payload) + extra]).destroyed && Received([Frame(payload) + extra]).dispatched.None?
    ensures Received([Frame(payload), extra]).dispatched == Some(payload)
  {
    Overshoots(payload, extra);
    var two := [Frame(payload), extra];
    ConcatSnoc([], Frame(payload));
    assert two[..1] == [] + [Frame(payload)];
    assert CutAt(two, 1, payload);
    DispatchesExactlyAtABoundary(two, payload);
  }

  lemma Overshoots(payload: Bytes, extra: Bytes)
    requires Fits(payload) && extra != []
    ensures Received([Frame(payload) + extra]).destroyed && Received([Frame(payload) + extra]).dispatched.None?
  {
    var bytes := Frame(payload) + extra;
    FrameParts(bytes, payload, extra);
    DecodesExactlyHeaders(bytes[..4], |payload|);
    assert Broken(bytes);
    assert Expected([]) == OPENED && Incomplete([]);
    ChunkOutcome([], bytes);
    assert [] + bytes == bytes;
    Runs.ExecSnoc(Accumulated, OPENED, [], bytes);
    assert [] + [bytes] == [bytes];
  }

  /** When the peer ends or the read timer fires, exactly the connections that dispatched nothing are gone. */
  lemma EndDropsExactlyUnanswered(chunks: seq<Bytes>)
    ensures var c := Abandoned(Received(chunks));
      && c.dispatched == Received(chunks).dispatched
      && (c.destroyed <==> forall k: nat, p: Bytes :: !CutAt(chunks, k, p))
  {
    ReceivedReflects(chunks);
    forall k: nat, p: Bytes | CutAt(chunks, k, p)
      ensures Received(chunks).dispatched == Some(p)
    {
      DispatchesExactlyAtABoundary(chunks, p);
    }
  }

  class FramedConnection {
    var received: Bytes
    var declared: Option<nat>
    var handled: bool
    var destroyed: bool
    var dispatched: Option<Bytes>

    ghost function State(): Connection
      reads this
    {
      Connection(received, declared, handled, destroyed, dispatched)
    }

    constructor ()
      ensures State() == OPENED
    {
      received, declared, handled, destroyed, dispatched := [], None, false, false, None;
    }

    /** The data event; a destroyed socket emits none. */
    method OnData(chunk: Bytes)
      modifies this
      ensures State() == Accumulated(old(State()), chunk)
    {
      if destroyed || handled {
        return;
      }
      received := received + chunk;
      if declared.None? && |received| >= 4 {
        declared := DecodeLength(received[..4]);
        if declared.None? {
          destroyed := true;
          return;
        }
      }
      if declared.None? || |received| < 4 + declared.value {
        return;
      }
      if |received| != 4 + declared.value {
        destroyed := true;
        return;
      }
      handled := true;
      dispatched := Some(received[4..]);
    }

    /** The end event and the read timeout. */
    method OnEnd()
      modifies this
      ensures State() == Abandoned(old(State()))
    {
      if !handled {
        destroyed := true;
      }
    }
  }
}

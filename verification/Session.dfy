/** src/session.rs: the AgentX frame reader. */
module Session {
  import opened Framing
  import opened Numbers
  import opened Wrappers

  const HEADER_BYTES: nat := 20
  const MAX_PAYLOAD: nat := 1024 * 1024

  // ---------- the byte stream ----------

  /** What one read call on the socket does, and how long it takes. */
  datatype Arrival =
    | Data(count: nat, elapsed: nat)
    | Interruption(elapsed: nat)
    | Timeout(elapsed: nat)
    | Breakage(elapsed: nat)

  datatype StreamError = UnexpectedEof | FrameDeadline | InvalidFrame | SocketError

  /** A Unix stream: the bytes the peer still sends, and how the reads will go. */
  class Stream {
    var bytes: seq<Byte>
    var arrivals: seq<Arrival>
    var clock: nat
    var readTimeout: Option<nat>

    constructor (bytes: seq<Byte>, arrivals: seq<Arrival>)
      ensures this.bytes == bytes && this.arrivals == arrivals && clock == 0 && readTimeout == None
    {
      this.bytes, this.arrivals, clock, readTimeout := bytes, arrivals, 0, None;
    }

    /** One read of at most `limit` bytes; with no arrival left, the peer stays silent until a timeout. */
    method Read(limit: nat) returns (arrival: Arrival, got: seq<Byte>)
      requires limit > 0
      modifies `bytes, `arrivals, `clock
      ensures old(bytes) == got + bytes && |got| <= limit
      ensures arrival.Data? ==> (got == [] <==> old(bytes) == [])
      ensures !arrival.Data? ==> got == []
      ensures clock == old(clock) + arrival.elapsed
      ensures if old(arrivals) == [] then arrival == Timeout(0) && arrivals == []
              else arrival == old(arrivals)[0] && arrivals == old(arrivals)[1..]
    {
      if arrivals == [] {
        return Timeout(0), [];
      }
      arrival := arrivals[0];
      arrivals := arrivals[1..];
      clock := clock + arrival.elapsed;
      if !arrival.Data? {
        return arrival, [];
      }
      var most := if arrival.count == 0 then 1 else arrival.count;
      var size := Min(Min(most, limit), |bytes|);
      got := bytes[..size];
      bytes := bytes[size..];
    }
  }

  /** The socket never fails by itself: data and interruptions only. */
  predicate Calm(arrivals: seq<Arrival>) {
    forall a :: a in arrivals ==> a.Data? || a.Interruption?
  }

  /** How many reads still bring data. */
  function Supply(arrivals: seq<Arrival>): nat {
    if arrivals == [] then 0 else (if arrivals[0].Data? then 1 else 0) + Supply(arrivals[1..])
  }

  /** Every read that brings data counts once, wherever it stands. */
  lemma {:induction false} SupplyCounts(a: seq<Arrival>, x: Arrival, b: seq<Arrival>)
    ensures Supply([]) == 0
    ensures Supply(a + [x] + b) == Supply(a + b) + if x.Data? then 1 else 0
  {
    if a == [] {
      assert a + [x] + b == [x] + b && a + b == b && ([x] + b)[1..] == b;
    } else {
      assert (a + [x] + b)[1..] == a[1..] + [x] + b && (a + b)[1..] == a[1..] + b;
      SupplyCounts(a[1..], x, b);
    }
  }

  /** Time only passes, a calm socket stays calm, and every data read brings something until the peer is done. */
  twostate predicate Progressed(stream: Stream)
    reads stream
  {
    && old(stream.clock) <= stream.clock
    && |stream.bytes| <= |old(stream.bytes)|
    && (Calm(old(stream.arrivals)) ==> Calm(stream.arrivals))
    && (stream.bytes != [] ==>
          Supply(stream.arrivals) + |old(stream.bytes)| >= Supply(old(stream.arrivals)) + |stream.bytes|)
  }

  /** A calm socket gives up only when the peer has gone silent or the time is over. */
  twostate predicate Excused(stream: Stream, error: StreamError, deadline: nat)
    reads stream
  {
    !Calm(old(stream.arrivals)) || stream.arrivals == [] || (error.FrameDeadline? && stream.clock >= deadline)
  }

  /** read_before: exactly `length` bytes before the deadline. */
  method ReadBefore(stream: Stream, length: nat, deadline: nat) returns (r: Result<seq<Byte>, StreamError>)
    modifies stream
    ensures Progressed(stream)
    ensures r.Ok? ==> |r.value| == length && old(stream.bytes) == r.value + stream.bytes
    ensures r.Err? ==> |old(stream.bytes)| - |stream.bytes| < length
    ensures r.Err? && |old(stream.bytes)| >= length ==>
              (r.error.FrameDeadline? || r.error.SocketError?) && Excused(stream, r.error, deadline)
    ensures r != Err(InvalidFrame)
  {
    var filled: seq<Byte> := [];
    while |filled| < length
      invariant |filled| <= length && old(stream.bytes) == filled + stream.bytes
      invariant Progressed(stream)
      decreases |stream.arrivals|, length - |filled|
    {
      if stream.clock >= deadline {
        return Err(FrameDeadline);
      }
      stream.readTimeout := Some(deadline - stream.clock);
      var arrival, got := stream.Read(length - |filled|);
      match arrival {
        case Data(_, _) =>
          if got == [] {
            return Err(UnexpectedEof);
          }
          filled := filled + got;
        case Interruption(_) =>
        case Timeout(_) => return Err(FrameDeadline);
        case Breakage(_) => return Err(SocketError);
      }
    }
    return Ok(filled);
  }

  /** read_exact on the first byte, under the idle timeout. */
  method ReadFirst(stream: Stream) returns (r: Result<seq<Byte>, StreamError>)
    modifies stream`bytes, stream`arrivals, stream`clock
    ensures Progressed(stream)
    ensures r.Ok? ==> |r.value| == 1 && old(stream.bytes) == r.value + stream.bytes
    ensures r.Err? ==> stream.bytes == old(stream.bytes)
    ensures r.Err? && old(stream.bytes) != [] ==>
              r.error.SocketError? && (!Calm(old(stream.arrivals)) || stream.arrivals == [])
    ensures r != Err(InvalidFrame)
  {
    while true
      invariant stream.bytes == old(stream.bytes)
      invariant Progressed(stream)
      decreases |stream.arrivals|
    {
      var arrival, got := stream.Read(1);
      match arrival {
        case Data(_, _) =>
          if got == [] {
            return Err(UnexpectedEof);
          }
          return Ok(got);
        case Interruption(_) =>
        case _ => return Err(SocketError);
      }
    }
  }

  // ---------- frames ----------

  datatype Header = Header(version: nat, payloadLength: nat)

  /** Header::from_bytes on the first twenty bytes. */
  type HeaderParser = seq<Byte> -> Option<Header>

  predicate Acceptable(h: Header) {
    h.version == 1 && h.payloadLength <= MAX_PAYLOAD && h.payloadLength % 4 == 0
  }

  /** A whole PDU: twenty header bytes and the payload they announce (section 6.1 of RFC 2741). */
  predicate IsPdu(parse: HeaderParser, frame: seq<Byte>) {
    && |frame| >= HEADER_BYTES
    && parse(frame[..HEADER_BYTES]).Some?
    && Acceptable(parse(frame[..HEADER_BYTES]).value)
    && |frame| == HEADER_BYTES + parse(frame[..HEADER_BYTES]).value.payloadLength
  }

  /**
   * receive: one frame, whatever the chunks it arrives in. `began` is when its first byte was in; `next` is the
   * frame the peer is sending, if it is sending one.
   */
  method Receive(parse: HeaderParser, stream: Stream, frameBudget: nat, ghost next: seq<Byte>)
    returns (r: Result<seq<Byte>, StreamError>, ghost began: nat)
    modifies stream
    ensures Progressed(stream)
    ensures r.Ok? ==> IsPdu(parse, r.value) && old(stream.bytes) == r.value + stream.bytes
    ensures r.Ok? ==> stream.readTimeout == old(stream.readTimeout)
    ensures r.Ok? ==>
              && |r.value| >= 20 && parse(r.value[..20]).Some?
              && var header := parse(r.value[..20]).value;
                 && header.version == 1 && header.payloadLength <= 1024 * 1024 && header.payloadLength % 4 == 0
                 && |r.value| == 20 + header.payloadLength
    ensures r == Err(InvalidFrame) ==>
              && |old(stream.bytes)| >= 20
              && var header := parse(old(stream.bytes)[..20]);
                 || header.None?
                 || header.value.version != 1
                 || header.value.payloadLength > 1024 * 1024 || header.value.payloadLength % 4 != 0
    ensures IsPdu(parse, next) && next <= old(stream.bytes) ==>
              if r.Ok? then r.value == next
              else |old(stream.bytes)| - |stream.bytes| < |next| && Excused(stream, r.error, began + frameBudget)
    ensures old(stream.clock) <= began
  {
    ghost var all := stream.bytes;
    began := stream.clock;
    var idleTimeout := stream.readTimeout;
    var first := ReadFirst(stream);
    if first.Err? {
      return Err(first.error), began;
    }
    began := stream.clock;
    var deadline := stream.clock + frameBudget;
    var head := ReadBefore(stream, HEADER_BYTES - 1, deadline);
    if head.Err? {
      return Err(head.error), began;
    }
    var bytes := first.value + head.value;
    assert all == bytes + stream.bytes && all[..HEADER_BYTES] == bytes;
    var header := parse(bytes);
    Announced(parse, next, all, bytes);
    if header.None? || !Acceptable(header.value) {
      return Err(InvalidFrame), began;
    }
    var payload := ReadBefore(stream, header.value.payloadLength, deadline);
    if payload.Err? {
      return Err(payload.error), began;
    }
    Completed(parse, next, all, bytes, payload.value, stream.bytes);
    stream.readTimeout := idleTimeout;
    return Ok(bytes + payload.value), began;
  }

  /** The frame being sent is the one the header announces. */
  lemma Announced(parse: HeaderParser, next: seq<Byte>, all: seq<Byte>, head: seq<Byte>)
    requires |all| >= HEADER_BYTES && head == all[..HEADER_BYTES]
    ensures IsPdu(parse, next) && next <= all ==>
              parse(head).Some? && Acceptable(parse(head).value) &&
              |next| == HEADER_BYTES + parse(head).value.payloadLength
  {
    assert IsPdu(parse, next) && next <= all ==> next[..HEADER_BYTES] == head;
  }

  lemma Completed(parse: HeaderParser, next: seq<Byte>, all: seq<Byte>, head: seq<Byte>, payload: seq<Byte>,
                  tail: seq<Byte>)
    requires |head| == HEADER_BYTES && parse(head).Some? && Acceptable(parse(head).value)
    requires |payload| == parse(head).value.payloadLength && all == head + (payload + tail)
    ensures IsPdu(parse, head + payload) && all == head + payload + tail
    ensures IsPdu(parse, next) && next <= all ==> next == head + payload
  {
    assert (head + payload)[..HEADER_BYTES] == head && all[..HEADER_BYTES] == head;
    assert all[..|head + payload|] == head + payload;
    Announced(parse, next, all, head);
  }

  function Concat(frames: seq<seq<Byte>>): seq<Byte> {
    if frames == [] then [] else Concat(frames[..|frames| - 1]) + frames[|frames| - 1]
  }

  /** A byte stream begins with one sequence of frames only, so what is received cannot depend on the chunking. */
  lemma {:induction false} FramesUnique(parse: HeaderParser, a: seq<seq<Byte>>, b: seq<seq<Byte>>, x: seq<Byte>,
                                        y: seq<Byte>)
    requires |a| == |b| && Concat(a) + x == Concat(b) + y
    requires forall f :: f in a ==> IsPdu(parse, f)
    requires forall f :: f in b ==> IsPdu(parse, f)
    ensures a == b && x == y
  {
    if a != [] {
      var frontA, lastA, frontB, lastB := a[..|a| - 1], a[|a| - 1], b[..|b| - 1], b[|b| - 1];
      assert Concat(a) + x == Concat(frontA) + (lastA + x) && Concat(b) + y == Concat(frontB) + (lastB + y);
      FramesUnique(parse, frontA, frontB, lastA + x, lastB + y);
      assert lastA in a && lastB in b;
      assert (lastA + x)[..HEADER_BYTES] == lastA[..HEADER_BYTES]
          && (lastB + y)[..HEADER_BYTES] == lastB[..HEADER_BYTES];
      assert (lastA + x)[..|lastA|] == lastA && (lastB + y)[..|lastB|] == lastB;
      assert (lastA + x)[|lastA|..] == x && (lastB + y)[|lastB|..] == y;
      assert a == frontA + [lastA] && b == frontB + [lastB];
    } else {
      assert Concat(a) + x == x && Concat(b) + y == y;
    }
  }

  /**
   * Repeated receive, as the session loop does it, against a peer that sends `sent` and then `rest`. Whatever
   * the chunking and the interruptions, the frames come back in order; if a calm socket brings enough data, the
   * only way to fail is a frame that really overran its budget.
   */
  method ReceiveFrames(parse: HeaderParser, stream: Stream, frameBudget: nat, ghost sent: seq<seq<Byte>>,
                       ghost rest: seq<Byte>, count: nat)
    returns (frames: seq<seq<Byte>>, error: Option<StreamError>, ghost began: nat)
    requires stream.bytes == Concat(sent) + rest && count == |sent|
    requires forall f :: f in sent ==> IsPdu(parse, f)
    modifies stream
    ensures error.None? ==> frames == sent && stream.bytes == rest && stream.readTimeout == old(stream.readTimeout)
    ensures error.Some? ==> |frames| < |sent| && frames == sent[..|frames|]
    ensures (forall a :: a in old(stream.arrivals) ==> a.Data? || a.Interruption?) &&
            Supply(old(stream.arrivals)) >= |Concat(sent)| && error.Some? ==>
              error == Some(FrameDeadline) && old(stream.clock) <= began && stream.clock >= began + frameBudget
  {
    frames := [];
    began := stream.clock;
    assert sent[0..] == sent && sent[..|sent|] == sent && sent[|sent|..] == [];
    while |frames| < count
      invariant |frames| <= count && frames == sent[..|frames|]
      invariant stream.bytes == Concat(sent[|frames|..]) + rest
      invariant stream.readTimeout == old(stream.readTimeout)
      invariant Progressed(stream)
    {
      ghost var before, next := stream.bytes, sent[|frames|];
      NextFrame(sent, rest, |frames|);
      assert next in sent;
      var frame;
      frame, began := Receive(parse, stream, frameBudget, next);
      if frame.Err? {
        assert |before| - |stream.bytes| < |next|;
        return frames, Some(frame.error), began;
      }
      SameTail(next, stream.bytes, Concat(sent[|frames| + 1..]) + rest);
      assert sent[..|frames| + 1] == frames + [next];
      frames := frames + [frame.value];
    }
    return frames, None, began;
  }

  /** What the peer still sends begins with the next frame. */
  lemma NextFrame(sent: seq<seq<Byte>>, rest: seq<Byte>, n: nat)
    requires n < |sent|
    ensures Concat(sent[n..]) + rest == sent[n] + (Concat(sent[n + 1..]) + rest)
  {
    ConcatSplits(sent[n..], 0);
    assert sent[n..][1..] == sent[n + 1..] && sent[n..][..0] == [];
  }

  lemma SameTail(front: seq<Byte>, a: seq<Byte>, b: seq<Byte>)
    requires front + a == front + b
    ensures a == b
  {
    assert (front + a)[|front|..] == a && (front + b)[|front|..] == b;
  }

  lemma {:induction false} ConcatSplits(frames: seq<seq<Byte>>, i: nat)
    requires i < |frames|
    ensures Concat(frames) == Concat(frames[..i]) + frames[i] + Concat(frames[i + 1..])
  {
    var front := frames[..|frames| - 1];
    if i == |frames| - 1 {
      assert frames[i + 1..] == [] && frames[..i] == front;
    } else {
      ConcatSplits(front, i);
      assert front[..i] == frames[..i] && front[i] == frames[i];
      assert frames[i + 1..][..|frames[i + 1..]| - 1] == front[i + 1..];
    }
  }
}

/** src/netlink.rs: the netlink message framing of one datagram (section 2.3.2 of RFC 3549). */
module Framing {
  import opened Wrappers

  type Byte = b: int | 0 <= b < 256

  datatype ByteOrder = LittleEndian | BigEndian

  // NETLINK_HEADER_LENGTH
  const HEADER_LENGTH: nat := 16

  datatype FramingError = InvalidData

  /** u32::from_ne_bytes on a host of the given byte order. */
  function U32(order: ByteOrder, b: seq<Byte>): nat
    requires |b| == 4
  {
    match order
    case LittleEndian => Compose(b[0], b[1], b[2], b[3])
    case BigEndian => Compose(b[3], b[2], b[1], b[0])
  }

  /** Which value four bytes stand for. */
  lemma U32Means(a: seq<Byte>)
    requires |a| == 4
    ensures U32(LittleEndian, a) == a[0] as int + 256 * a[1] as int + 65536 * a[2] as int + 16777216 * a[3] as int
    ensures U32(BigEndian, a) == a[3] as int + 256 * a[2] as int + 65536 * a[1] as int + 16777216 * a[0] as int
  {
  }

  /** The value determines the bytes. */
  lemma U32Injective(order: ByteOrder, a: seq<Byte>, b: seq<Byte>)
    requires |a| == |b| == 4 && U32(order, a) == U32(order, b)
    ensures a == b
  {
    match order {
      case LittleEndian => ComposeInjective(a[0], a[1], a[2], a[3], b[0], b[1], b[2], b[3]);
      case BigEndian => ComposeInjective(a[3], a[2], a[1], a[0], b[3], b[2], b[1], b[0]);
    }
  }

  lemma ComposeInjective(b0: Byte, b1: Byte, b2: Byte, b3: Byte, c0: Byte, c1: Byte, c2: Byte, c3: Byte)
    requires Compose(b0, b1, b2, b3) == Compose(c0, c1, c2, c3)
    ensures (b0, b1, b2, b3) == (c0, c1, c2, c3)
  {
    LowestByte(b0, b1 as int + 256 * (b2 as int + 256 * b3 as int),
               c0, c1 as int + 256 * (c2 as int + 256 * c3 as int));
    LowestByte(b1, b2 as int + 256 * b3 as int, c1, c2 as int + 256 * c3 as int);
    LowestByte(b2, b3, c2, c3);
  }

  lemma LowestByte(b: Byte, x: int, c: Byte, y: int)
    requires b as int + 256 * x == c as int + 256 * y
    ensures b == c && x == y
  {
  }

  /** Least significant byte first. */
  function Compose(b0: nat, b1: nat, b2: nat, b3: nat): nat {
    b0 + 0x100 * b1 + 0x1_0000 * b2 + 0x100_0000 * b3
  }

  /** (n + 3) & !3. */
  function Aligned(n: nat): (r: nat)
    ensures n <= r < n + 4 && r % 4 == 0
  {
    (n + 3) / 4 * 4
  }

  /** A frame carries its own size. */
  predicate IsFrame(order: ByteOrder, f: seq<Byte>) {
    |f| >= HEADER_LENGTH && U32(order, f[..4]) == |f|
  }

  // ---------- the printer ----------

  /** Padding of any content up to four-byte alignment; the last frame's may be left out. */
  ghost predicate Fits(frames: seq<seq<Byte>>, pads: seq<seq<Byte>>) {
    && |pads| == |frames|
    && forall i :: 0 <= i < |frames| ==>
         |pads[i]| == Aligned(|frames[i]|) - |frames[i]| || (i == |frames| - 1 && pads[i] == [])
  }

  function Print(frames: seq<seq<Byte>>, pads: seq<seq<Byte>>): seq<Byte>
    requires |pads| == |frames|
  {
    if frames == [] then [] else frames[0] + pads[0] + Print(frames[1..], pads[1..])
  }

  // ---------- the parser ----------

  /** The frames of a datagram, if it is laid out as frames. */
  function Split(order: ByteOrder, bytes: seq<Byte>): Option<seq<seq<Byte>>> {
    if bytes == [] then Some([])
    else if |bytes| < HEADER_LENGTH then None
    else
      var length := U32(order, bytes[..4]);
      if length < HEADER_LENGTH || length > |bytes| then None
      else if Aligned(length) > |bytes| then
        if length == |bytes| then Some([bytes]) else None
      else
        match Split(order, bytes[Aligned(length)..])
        case None => None
        case Some(rest) => Some([bytes[..length]] + rest)
  }

  /** Printed frames are read back, whatever the padding. */
  lemma {:induction false} SplitPrint(order: ByteOrder, frames: seq<seq<Byte>>, pads: seq<seq<Byte>>)
    requires Fits(frames, pads) && forall f :: f in frames ==> IsFrame(order, f)
    ensures Split(order, Print(frames, pads)) == Some(frames)
  {
    if frames != [] {
      var f, pad, rest := frames[0], pads[0], Print(frames[1..], pads[1..]);
      var bytes := f + pad + rest;
      assert f in frames;
      assert bytes[..4] == f[..4] && bytes[..|f|] == f;
      assert Fits(frames[1..], pads[1..]) by {
        forall i | 0 <= i < |frames[1..]|
          ensures |pads[1..][i]| == Aligned(|frames[1..][i]|) - |frames[1..][i]|
           || (i == |frames[1..]| - 1 && pads[1..][i] == [])
        {
          assert frames[1..][i] == frames[i + 1] && pads[1..][i] == pads[i + 1];
        }
      }
      SplitPrint(order, frames[1..], pads[1..]);
      assert frames == [f] + frames[1..];
      if |frames| == 1 {
        assert frames[1..] == [] && rest == [];
      }
      if Aligned(|f|) > |bytes| {
        assert bytes == f && frames == [f];
      } else {
        assert bytes[Aligned(|f|)..] == rest;
      }
    }
  }

  /** Whatever is read was laid out as those frames with some padding. */
  lemma {:induction false} SplitOnlyPrinted(order: ByteOrder, bytes: seq<Byte>) returns (pads: seq<seq<Byte>>)
    requires Split(order, bytes).Some?
    ensures var frames := Split(order, bytes).value;
            && (forall f :: f in frames ==> IsFrame(order, f))
            && Fits(frames, pads)
            && bytes == Print(frames, pads)
  {
    if bytes == [] {
      return [];
    }
    var length := U32(order, bytes[..4]);
    assert bytes[..length][..4] == bytes[..4];
    if Aligned(length) > |bytes| {
      assert bytes[..length] == bytes;
      assert Print([bytes], [[]]) == bytes + [] + Print([bytes][1..], [[]][1..]) == bytes;
      return [[]];
    }
    var rest := SplitOnlyPrinted(order, bytes[Aligned(length)..]);
    pads := [bytes[length..Aligned(length)]] + rest;
    var frames := Split(order, bytes).value;
    assert frames[1..] == Split(order, bytes[Aligned(length)..]).value && pads[1..] == rest;
    assert bytes == bytes[..length] + bytes[length..Aligned(length)] + bytes[Aligned(length)..];
    if frames[1..] == [] {
      assert bytes[Aligned(length)..] == [];
    }
    forall i | 0 <= i < |frames|
      ensures |pads[i]| == Aligned(|frames[i]|) - |frames[i]| || (i == |frames| - 1 && pads[i] == [])
    {
      if i > 0 {
        assert frames[i] == frames[1..][i - 1] && pads[i] == rest[i - 1];
      }
    }
  }

  // ---------- decoding a datagram ----------

  /** The host's byte order, and NetlinkMessage::deserialize on the bytes of one frame. */
  datatype Codec<M> = Codec(order: ByteOrder, deserialize: seq<Byte> -> Option<M>)

  /** All frames decoded, or nothing. */
  function DecodeAll<M>(codec: Codec<M>, frames: seq<seq<Byte>>): Option<seq<M>> {
    if frames == [] then Some([])
    else
      var first, rest := codec.deserialize(frames[0]), DecodeAll(codec, frames[1..]);
      if first.Some? && rest.Some? then Some([first.value] + rest.value) else None
  }

  function Decoded<M>(codec: Codec<M>, bytes: seq<Byte>): Option<seq<M>> {
    match Split(codec.order, bytes)
    case None => None
    case Some(frames) => DecodeAll(codec, frames)
  }

  lemma {:induction false} DecodeAllPointwise<M>(codec: Codec<M>, frames: seq<seq<Byte>>)
    ensures DecodeAll(codec, frames).Some? <==> AllDecode(codec, frames)
    ensures DecodeAll(codec, frames).Some? ==> DecodesTo(codec, frames, DecodeAll(codec, frames).value)
  {
    if frames != [] {
      DecodeAllPointwise(codec, frames[1..]);
      assert forall i :: 1 <= i < |frames| ==> frames[i] == frames[1..][i - 1];
      if DecodeAll(codec, frames[1..]).None? {
        var i :| 0 <= i < |frames[1..]| && codec.deserialize(frames[1..][i]).None?;
        assert codec.deserialize(frames[i + 1]).None?;
      }
    }
  }

  /** Every frame decodes. */
  predicate AllDecode<M>(codec: Codec<M>, frames: seq<seq<Byte>>) {
    forall i :: 0 <= i < |frames| ==> codec.deserialize(frames[i]).Some?
  }

  /** The messages are those of the frames, in order. */
  ghost predicate DecodesTo<M>(codec: Codec<M>, frames: seq<seq<Byte>>, messages: seq<M>) {
    |messages| == |frames| && forall i :: 0 <= i < |frames| ==> codec.deserialize(frames[i]) == Some(messages[i])
  }

  lemma DecodedMeans<M>(codec: Codec<M>, bytes: seq<Byte>)
    ensures Decoded(codec, bytes).Some? <==>
              Split(codec.order, bytes).Some? && AllDecode(codec, Split(codec.order, bytes).value)
    ensures Decoded(codec, bytes).Some? ==>
              DecodesTo(codec, Split(codec.order, bytes).value, Decoded(codec, bytes).value)
  {
    if Split(codec.order, bytes).Some? {
      DecodeAllPointwise(codec, Split(codec.order, bytes).value);
    }
  }

  /** `front` followed by whatever the rest decodes to. */
  function Prepend<M>(front: seq<M>, rest: Option<seq<M>>): Option<seq<M>> {
    if rest.None? then None else Some(front + rest.value)
  }

  lemma PrependLaws<M>(front: seq<M>, middle: seq<M>, rest: Option<seq<M>>)
    ensures Prepend([], rest) == rest
    ensures Prepend(front, Some([])) == Some(front)
    ensures Prepend(front, Prepend(middle, rest)) == Prepend(front + middle, rest)
  {
    if rest.Some? {
      assert [] + rest.value == rest.value;
      assert front + (middle + rest.value) == (front + middle) + rest.value;
    }
    assert front + [] == front;
  }

  /** decode_datagram. */
  method DecodeDatagram<M>(codec: Codec<M>, bytes: seq<Byte>) returns (r: Result<seq<M>, FramingError>)
    ensures r.Ok? <==> Decoded(codec, bytes).Some?
    ensures r.Ok? ==> Decoded(codec, bytes) == Some(r.value)
    ensures r.Ok? <==> Split(codec.order, bytes).Some? && AllDecode(codec, Split(codec.order, bytes).value)
    ensures r.Ok? ==> DecodesTo(codec, Split(codec.order, bytes).value, r.value)
  {
    DecodedMeans(codec, bytes);
    var messages: seq<M> := [];
    var offset := 0;
    assert bytes[0..] == bytes;
    PrependLaws(messages, messages, Decoded(codec, bytes));
    while offset < |bytes|
      invariant 0 <= offset <= |bytes|
      invariant Decoded(codec, bytes) == Prepend(messages, Decoded(codec, bytes[offset..]))
      decreases |bytes| - offset
    {
      var remaining := bytes[offset..];
      if |remaining| < HEADER_LENGTH {
        return Err(InvalidData);
      }
      var length := U32(codec.order, remaining[..4]);
      if length < HEADER_LENGTH || length > |remaining| {
        return Err(InvalidData);
      }
      MessageDecoded(codec, bytes, offset, length, messages);
      var message := codec.deserialize(remaining[..length]);
      if message.None? {
        return Err(InvalidData);
      }
      messages := messages + [message.value];
      if Aligned(length) > |remaining| {
        if length == |remaining| {
          offset := |bytes|;
        } else {
          return Err(InvalidData);
        }
      } else {
        offset := offset + Aligned(length);
      }
    }
    PrependLaws(messages, messages, None);
    return Ok(messages);
  }

  /** One turn of the parser's loop, `offset` bytes into the datagram. */
  lemma MessageDecoded<M>(codec: Codec<M>, bytes: seq<Byte>, offset: nat, length: nat, messages: seq<M>)
    requires offset + HEADER_LENGTH <= |bytes| && length == U32(codec.order, bytes[offset..][..4])
    requires HEADER_LENGTH <= length <= |bytes| - offset
    ensures var first := codec.deserialize(bytes[offset..][..length]);
            var overhangs := Aligned(length) > |bytes| - offset;
            var next := offset + if overhangs then length else Aligned(length);
            Prepend(messages, Decoded(codec, bytes[offset..])) ==
              if first.None? || (overhangs && length != |bytes| - offset) then None
              else Prepend(messages + [first.value], Decoded(codec, bytes[next..]))
  {
    var remaining := bytes[offset..];
    DecodedStep(codec, remaining, length);
    var next := if Aligned(length) > |remaining| then length else Aligned(length);
    assert remaining[next..] == bytes[offset + next..];
    if codec.deserialize(remaining[..length]).Some? {
      PrependLaws(messages, [codec.deserialize(remaining[..length]).value], Decoded(codec, remaining[next..]));
    }
  }

  /** The frame at the front of a datagram decodes first. */
  lemma DecodedStep<M>(codec: Codec<M>, bytes: seq<Byte>, length: nat)
    requires |bytes| >= HEADER_LENGTH && length == U32(codec.order, bytes[..4])
    requires HEADER_LENGTH <= length <= |bytes|
    ensures var first := codec.deserialize(bytes[..length]);
            var next := if Aligned(length) > |bytes| then length else Aligned(length);
            Decoded(codec, bytes) ==
              if first.None? || (Aligned(length) > |bytes| && length != |bytes|) then None
              else Prepend([first.value], Decoded(codec, bytes[next..]))
  {
    if Aligned(length) > |bytes| {
      assert [bytes][1..] == [];
      assert length == |bytes| ==> bytes[..length] == bytes && bytes[length..] == [];
    } else if Split(codec.order, bytes[Aligned(length)..]).Some? {
      var rest := Split(codec.order, bytes[Aligned(length)..]).value;
      assert ([bytes[..length]] + rest)[1..] == rest;
    }
  }
}

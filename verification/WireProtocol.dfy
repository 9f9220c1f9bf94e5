/** The camera's packet framing: headers, and the reassembly of packets from a byte stream. */
module WireProtocol {
  import opened Bytes
  import opened WireStream

  const WIRE_MAGIC: nat := 0x0abcdef0
  const MODERN_CLASS: nat := 0x6414
  const RECEIVE_CHUNK: nat := 64 * 1024

  datatype WireHeader = WireHeader(messageId: nat, bodyLength: nat, channel: byte, stream: byte, messageNumber: nat,
                                   responseCode: nat, messageClass: nat, payloadOffset: nat, hasPayloadOffset: bool)

  datatype WireError = IncompleteHeader | InvalidMagic | IncompleteModernHeader | InvalidBodyLength

  datatype Decoded = Header(header: WireHeader) | Malformed(error: WireError)

  predicate Representable(h: WireHeader) {
    && h.messageId < U32_LIMIT && h.bodyLength < U32_LIMIT && h.payloadOffset < U32_LIMIT
    && h.messageNumber < U16_LIMIT && h.responseCode < U16_LIMIT && h.messageClass < U16_LIMIT
  }

  predicate IsModern(messageClass: nat) {
    messageClass == MODERN_CLASS || messageClass == 0
  }

  function Fixed(h: WireHeader): (b: seq<byte>)
    requires Representable(h)
    ensures |b| == 20
  {
    U32(WIRE_MAGIC) + U32(h.messageId) + U32(h.bodyLength) + [h.channel, h.stream]
    + U16(h.messageNumber) + U16(h.responseCode) + U16(h.messageClass)
  }

  function HeaderBytes(h: WireHeader): (b: seq<byte>)
    requires Representable(h)
    ensures |b| == if h.hasPayloadOffset then 24 else 20
  {
    Fixed(h) + if h.hasPayloadOffset then U32(h.payloadOffset) else []
  }

  method EncodeHeader(h: WireHeader) returns (bytes: seq<byte>)
    requires Representable(h)
    ensures bytes == HeaderBytes(h)
  {
    hide U16, U32;
    bytes := U32(WIRE_MAGIC);
    bytes := bytes + U32(h.messageId);
    bytes := bytes + U32(h.bodyLength);
    bytes := bytes + [h.channel];
    bytes := bytes + [h.stream];
    assert bytes == U32(WIRE_MAGIC) + U32(h.messageId) + U32(h.bodyLength) + [h.channel, h.stream];
    bytes := bytes + U16(h.messageNumber);
    bytes := bytes + U16(h.responseCode);
    bytes := bytes + U16(h.messageClass);
    assert bytes == Fixed(h);
    if h.hasPayloadOffset {
      bytes := bytes + U32(h.payloadOffset);
    }
  }

  function DecodeHeader(b: seq<byte>): (d: Decoded)
    ensures d.Header? ==> Representable(d.header)
  {
    if |b| < 20 then Malformed(IncompleteHeader)
    else if ReadU32(b, 0) != WIRE_MAGIC then Malformed(InvalidMagic)
    else
      var modern := IsModern(ReadU16(b, 18));
      if modern && |b| < 24 then Malformed(IncompleteModernHeader)
      else
        var offset := if modern then ReadU32(b, 20) else 0;
        if ReadU32(b, 8) > MAXIMUM_WIRE_BODY || offset > ReadU32(b, 8) then Malformed(InvalidBodyLength)
        else Header(WireHeader(ReadU32(b, 4), ReadU32(b, 8), b[12], b[13], ReadU16(b, 14), ReadU16(b, 16),
                               ReadU16(b, 18), offset, modern))
  }

  /** The headers the decoder gives back: what a sender must respect. */
  predicate Canonical(h: WireHeader) {
    && Representable(h)
    && (h.hasPayloadOffset <==> IsModern(h.messageClass))
    && h.bodyLength <= MAXIMUM_WIRE_BODY && h.payloadOffset <= h.bodyLength
    && (!h.hasPayloadOffset ==> h.payloadOffset == 0)
  }

  lemma FixedFields(h: WireHeader, b: seq<byte>)
    requires Representable(h) && |b| >= 20 && b[..20] == Fixed(h)
    ensures ReadU32(b, 0) == WIRE_MAGIC && ReadU32(b, 4) == h.messageId && ReadU32(b, 8) == h.bodyLength
    ensures b[12] == h.channel && b[13] == h.stream
    ensures ReadU16(b, 14) == h.messageNumber && ReadU16(b, 16) == h.responseCode && ReadU16(b, 18) == h.messageClass
  {
    hide U16, U32, ReadU16, ReadU32;
    var f := Fixed(h);
    FixedSlices(h, f);
    hide Fixed;
    assert forall i :: 0 <= i < 20 ==> b[i] == f[i];
    Field32(b, 0, WIRE_MAGIC);
    Field32(b, 4, h.messageId);
    Field32(b, 8, h.bodyLength);
    Field16(b, 14, h.messageNumber);
    Field16(b, 16, h.responseCode);
    Field16(b, 18, h.messageClass);
  }

  lemma FixedSlices(h: WireHeader, f: seq<byte>)
    requires Representable(h) && f == Fixed(h)
    ensures f[0..4] == U32(WIRE_MAGIC) && f[4..8] == U32(h.messageId) && f[8..12] == U32(h.bodyLength)
    ensures f[12] == h.channel && f[13] == h.stream
    ensures f[14..16] == U16(h.messageNumber) && f[16..18] == U16(h.responseCode) && f[18..20] == U16(h.messageClass)
  {
    hide U16, U32;
  }

  /** Where every octet of a header stands on the wire; the fields are little-endian. */
  lemma HeaderLayout(h: WireHeader, k: nat)
    requires Representable(h)
    ensures var b := HeaderBytes(h);
            && b[..4] == [0xf0, 0xde, 0xbc, 0x0a]
            && (k < 4 ==> b[4 + k] == h.messageId / Power256(k) % 256 && b[8 + k] == h.bodyLength / Power256(k) % 256)
            && b[12] == h.channel && b[13] == h.stream
            && (k < 2 ==> b[14 + k] == h.messageNumber / Power256(k) % 256
                          && b[16 + k] == h.responseCode / Power256(k) % 256
                          && b[18 + k] == h.messageClass / Power256(k) % 256)
            && (h.hasPayloadOffset && k < 4 ==> b[20 + k] == h.payloadOffset / Power256(k) % 256)
  {
    MagicOctets();
    FixedSlices(h, Fixed(h));
    LittleEndian(h.messageId, k);
    LittleEndian(h.bodyLength, k);
    LittleEndian(h.messageNumber, k);
    LittleEndian(h.responseCode, k);
    LittleEndian(h.messageClass, k);
    LittleEndian(h.payloadOffset, k);
    hide Fixed, U16, U32, Power256;
    LayoutOf(h, Fixed(h), k);
  }

  lemma MagicOctets()
    ensures U32(WIRE_MAGIC) == [0xf0, 0xde, 0xbc, 0x0a]
  {
  }

  lemma LayoutOf(h: WireHeader, f: seq<byte>, k: nat)
    requires Representable(h) && |f| == 20
    requires f[0..4] == U32(WIRE_MAGIC) && f[4..8] == U32(h.messageId) && f[8..12] == U32(h.bodyLength)
    requires f[14..16] == U16(h.messageNumber) && f[16..18] == U16(h.responseCode) && f[18..20] == U16(h.messageClass)
    ensures f[..4] == U32(WIRE_MAGIC)
    ensures k < 4 ==> f[4 + k] == U32(h.messageId)[k] && f[8 + k] == U32(h.bodyLength)[k]
    ensures k < 2 ==> f[14 + k] == U16(h.messageNumber)[k] && f[16 + k] == U16(h.responseCode)[k]
    ensures k < 2 ==> f[18 + k] == U16(h.messageClass)[k]
  {
    hide U16, U32;
    assert k < 4 ==> f[4..8][k] == f[4 + k] && f[8..12][k] == f[8 + k];
    assert k < 2 ==> f[14..16][k] == f[14 + k] && f[16..18][k] == f[16 + k] && f[18..20][k] == f[18 + k];
  }

  /** A header survives encoding and decoding exactly when it is canonical. */
  lemma HeaderRoundTrip(h: WireHeader, rest: seq<byte>)
    requires Representable(h)
    ensures DecodeHeader(HeaderBytes(h) + rest) == Header(h) <==> Canonical(h)
  {
    var b := HeaderBytes(h) + rest;
    assert b[..20] == Fixed(h);
    FixedFields(h, b);
    if h.hasPayloadOffset {
      assert b[20..24] == U32(h.payloadOffset);
      Field32(b, 20, h.payloadOffset);
    }
    hide ReadU16, ReadU32, U16, U32, Fixed;
  }

  /** Whatever decodes is the encoding of what it decoded to, followed by the rest. */
  lemma DecodedHeaderIsEncoding(b: seq<byte>)
    requires DecodeHeader(b).Header?
    ensures var h := DecodeHeader(b).header;
            Canonical(h) && |HeaderBytes(h)| <= |b| && b[..|HeaderBytes(h)|] == HeaderBytes(h)
  {
    hide U16, U32, ReadU16, ReadU32;
    U32Canonical(b, 0);
    U32Canonical(b, 4);
    U32Canonical(b, 8);
    U16Canonical(b, 14);
    U16Canonical(b, 16);
    U16Canonical(b, 18);
    var h := DecodeHeader(b).header;
    assert b[..20] == b[0..4] + b[4..8] + b[8..12] + [b[12], b[13]] + b[14..16] + b[16..18] + b[18..20];
    if h.hasPayloadOffset {
      U32Canonical(b, 20);
      assert b[..24] == b[..20] + b[20..24];
    }
  }

  lemma MagicRead(b: seq<byte>)
    requires |b| >= 20
    ensures ReadU32(b, 0) == WIRE_MAGIC <==> b[..4] == [0xf0, 0xde, 0xbc, 0x0a]
  {
    U32Canonical(b, 0);
    MagicOctets();
    hide U32;
    assert b[..4] == b[0..4];
    assert b[..4] == [0xf0, 0xde, 0xbc, 0x0a] ==> b[0] == 0xf0 && b[1] == 0xde && b[2] == 0xbc && b[3] == 0x0a;
  }

  lemma ClassRead(b: seq<byte>)
    requires |b| >= 20
    ensures IsModern(ReadU16(b, 18)) <==> b[18..20] == [0x14, 0x64] || b[18..20] == [0, 0]
  {
    assert b[18..20] == [b[18], b[19]];
  }

  /** Which octets begin with a header, and why others do not. */
  lemma DecodesExactly(b: seq<byte>)
    ensures DecodeHeader(b) == Malformed(IncompleteHeader) <==> |b| < 20
    ensures |b| >= 20 ==> (DecodeHeader(b) == Malformed(InvalidMagic) <==> b[..4] != [0xf0, 0xde, 0xbc, 0x0a])
    ensures |b| >= 20 && b[..4] == [0xf0, 0xde, 0xbc, 0x0a] ==>
              var modern := b[18..20] == [0x14, 0x64] || b[18..20] == [0, 0];
              if modern && |b| < 24 then DecodeHeader(b) == Malformed(IncompleteModernHeader)
              else if ReadU32(b, 8) > 32 * 1024 * 1024 || (modern && ReadU32(b, 20) > ReadU32(b, 8)) then
                DecodeHeader(b) == Malformed(InvalidBodyLength)
              else DecodeHeader(b).Header? && DecodeHeader(b).header.hasPayloadOffset == modern
  {
    if |b| >= 20 {
      MagicRead(b);
      ClassRead(b);
    }
    hide ReadU16, ReadU32, IsModern;
  }

  // ---- Reassembly ----

  datatype Packet = Packet(header: WireHeader, body: seq<byte>)

  datatype Reception = Incomplete | Bad(error: WireError) | Complete(packet: Packet, size: nat)

  /** The header length guessed from the class field before the header is decoded. */
  function TentativeHeader(b: seq<byte>): nat
    requires |b| >= 20
  {
    if IsModern(ReadU16(b, 18)) then 24 else 20
  }

  /** What the receive buffer holds at its front. */
  function Examine(b: seq<byte>): (r: Reception)
    ensures r.Complete? ==> 20 <= r.size <= |b|
  {
    if |b| < 20 || |b| < TentativeHeader(b) then Incomplete
    else
      match DecodeHeader(b[..TentativeHeader(b)])
      case Malformed(error) => Bad(error)
      case Header(header) =>
        var total := TentativeHeader(b) + header.bodyLength;
        if |b| < total then Incomplete else Complete(Packet(header, b[TentativeHeader(b)..total]), total)
  }

  datatype Outcome = Outcome(packets: seq<Packet>, rest: seq<byte>, failed: bool)

  function Drain(b: seq<byte>): Outcome
    decreases |b|
  {
    match Examine(b)
    case Incomplete => Outcome([], b, false)
    case Bad(_) => Outcome([], b, true)
    case Complete(packet, size) => var o := Drain(b[size..]); o.(packets := [packet] + o.packets)
  }

  lemma ExamineStable(b: seq<byte>, t: seq<byte>)
    requires !Examine(b).Incomplete?
    ensures Examine(b + t) == Examine(b)
  {
    assert ReadU16(b + t, 18) == ReadU16(b, 18);
    hide ReadU16, DecodeHeader;
    var n := TentativeHeader(b);
    assert (b + t)[..n] == b[..n];
    if Examine(b).Complete? {
      assert (b + t)[n..Examine(b).size] == b[n..Examine(b).size];
    }
  }

  lemma {:induction false} DrainSplit(b: seq<byte>, t: seq<byte>)
    ensures var o, whole := Drain(b), Drain(b + t);
            if o.failed then whole.packets == o.packets && whole.failed
            else
              var next := Drain(o.rest + t);
              whole == Outcome(o.packets + next.packets, next.rest, next.failed)
    decreases |b|
  {
    hide Examine;
    var e := Examine(b);
    if !e.Incomplete? {
      ExamineStable(b, t);
    }
    if e.Complete? {
      DrainSplit(b[e.size..], t);
      DrainSplitStep(b, t);
    } else if e.Incomplete? {
      assert [] + Drain(b + t).packets == Drain(b + t).packets;
    }
  }

  lemma DrainSplitStep(b: seq<byte>, t: seq<byte>)
    requires Examine(b).Complete? && Examine(b + t) == Examine(b)
    ensures var e := Examine(b);
            var o, whole := Drain(b[e.size..]), Drain(b[e.size..] + t);
            && Drain(b) == Outcome([e.packet] + o.packets, o.rest, o.failed)
            && Drain(b + t) == Outcome([e.packet] + whole.packets, whole.rest, whole.failed)
            && forall more :: [e.packet] + (o.packets + more) == [e.packet] + o.packets + more
  {
    hide Examine;
    assert (b + t)[Examine(b).size..] == b[Examine(b).size..] + t;
  }

  lemma {:induction false} RestIsIncomplete(b: seq<byte>)
    ensures !Drain(b).failed ==> Examine(Drain(b).rest).Incomplete?
    decreases |b|
  {
    hide Examine;
    if Examine(b).Complete? {
      RestIsIncomplete(b[Examine(b).size..]);
    }
  }

  /** The receive buffer after the chunks so far overflows with the next one. */
  predicate Overflows(rest: seq<byte>, chunk: seq<byte>) {
    |rest| + |chunk| > MAXIMUM_WIRE_BODY + 24
  }

  /** Receiving chunk by chunk, taking every complete packet before the next `recv`. */
  function Feed(rest: seq<byte>, chunks: seq<seq<byte>>): Outcome
    decreases |chunks|
  {
    if chunks == [] then Outcome([], rest, false)
    else if Overflows(rest, chunks[0]) then Outcome([], rest + chunks[0], true)
    else
      var o := Drain(rest + chunks[0]);
      if o.failed then o
      else var next := Feed(o.rest, chunks[1..]); next.(packets := o.packets + next.packets)
  }

  /** No chunk ever meets a full buffer. */
  predicate NeverOverflows(rest: seq<byte>, chunks: seq<seq<byte>>)
    decreases |chunks|
  {
    chunks == [] || (!Overflows(rest, chunks[0]) &&
                     (Drain(rest + chunks[0]).failed || NeverOverflows(Drain(rest + chunks[0]).rest, chunks[1..])))
  }

  /** Without an overflow the packets do not depend on how the stream was cut. */
  lemma {:induction false} ReassemblyIsChunkIndependent(rest: seq<byte>, chunks: seq<seq<byte>>)
    requires Examine(rest).Incomplete? && NeverOverflows(rest, chunks)
    ensures var f, whole := Feed(rest, chunks), Drain(rest + Concat(chunks));
            f.packets == whole.packets && f.failed == whole.failed && (!f.failed ==> f.rest == whole.rest)
    decreases |chunks|
  {
    hide Examine;
    if chunks == [] {
      assert rest + Concat(chunks) == rest;
    } else {
      var b, t := rest + chunks[0], Concat(chunks[1..]);
      assert rest + Concat(chunks) == b + t;
      DrainSplit(b, t);
      RestIsIncomplete(b);
      hide Drain;
      if !Drain(b).failed {
        ReassemblyIsChunkIndependent(Drain(b).rest, chunks[1..]);
      }
    }
  }

  /** Short of an overflow nothing makes a stream fail that would drain whole. */
  lemma {:induction false} RefusedExactlyOnOverflow(rest: seq<byte>, chunks: seq<seq<byte>>)
    requires Examine(rest).Incomplete? && !Drain(rest + Concat(chunks)).failed
    ensures Feed(rest, chunks).failed <==> !NeverOverflows(rest, chunks)
    decreases |chunks|
  {
    hide Examine;
    if chunks != [] && !Overflows(rest, chunks[0]) {
      var b, t := rest + chunks[0], Concat(chunks[1..]);
      assert rest + Concat(chunks) == b + t;
      DrainSplit(b, t);
      RestIsIncomplete(b);
      hide Drain;
      RefusedExactlyOnOverflow(Drain(b).rest, chunks[1..]);
    }
  }

  /** A canonical header in front of any bytes frames exactly the body it announces. */
  lemma FramedByHeader(h: WireHeader, tail: seq<byte>)
    requires Canonical(h)
    ensures var b := HeaderBytes(h) + tail;
            if |tail| < h.bodyLength then Examine(b).Incomplete?
            else Examine(b) == Complete(Packet(h, tail[..h.bodyLength]), |HeaderBytes(h)| + h.bodyLength)
  {
    var head := HeaderBytes(h);
    var b := head + tail;
    assert b[..20] == Fixed(h);
    FixedFields(h, b);
    HeaderRoundTrip(h, []);
    assert head + [] == head && b[..|head|] == head;
    hide ReadU16, ReadU32, HeaderBytes, DecodeHeader, Fixed;
    assert TentativeHeader(b) == |head|;
    if |tail| >= h.bodyLength {
      assert b[|head|..|head| + h.bodyLength] == tail[..h.bodyLength];
    }
  }

  // ---- Sending and receiving whole packets ----

  predicate Sendable(p: Packet) {
    Canonical(p.header) && p.header.bodyLength == |p.body|
  }

  function PacketBytes(p: Packet): seq<byte>
    requires Sendable(p)
  {
    HeaderBytes(p.header) + p.body
  }

  function StreamBytes(packets: seq<Packet>): seq<byte>
    requires forall i :: 0 <= i < |packets| ==> Sendable(packets[i])
  {
    if packets == [] then [] else PacketBytes(packets[0]) + StreamBytes(packets[1..])
  }

  /** Whatever is sent is received: the same packets, in order, with nothing left over. */
  lemma {:induction false} SentIsReceived(packets: seq<Packet>)
    requires forall i :: 0 <= i < |packets| ==> Sendable(packets[i])
    ensures Drain(StreamBytes(packets)) == Outcome(packets, [], false)
  {
    hide Examine, Canonical, HeaderBytes;
    if packets != [] {
      assert Canonical(packets[0].header) && Representable(packets[0].header) by {
        assert Sendable(packets[0]);
        IsRepresentable(packets[0].header);
      }
      var p, rest := packets[0], StreamBytes(packets[1..]);
      var b := StreamBytes(packets);
      assert b == HeaderBytes(p.header) + (p.body + rest);
      FramedByHeader(p.header, p.body + rest);
      assert (p.body + rest)[..|p.body|] == p.body;
      assert b[|HeaderBytes(p.header)| + |p.body|..] == rest;
      SentIsReceived(packets[1..]);
      assert packets == [p] + packets[1..];
    } else {
      assert Examine([]).Incomplete? by { NothingIsIncomplete(); }
    }
  }

  lemma IsRepresentable(h: WireHeader)
    requires Canonical(h)
    ensures Representable(h)
  {
  }

  lemma NothingIsIncomplete()
    ensures Examine([]).Incomplete?
  {
  }

  lemma {:induction false} StreamBytesSplit(packets: seq<Packet>, more: seq<Packet>)
    requires forall i :: 0 <= i < |packets| ==> Sendable(packets[i])
    requires forall i :: 0 <= i < |more| ==> Sendable(more[i])
    ensures forall i :: 0 <= i < |packets + more| ==> Sendable((packets + more)[i])
    ensures StreamBytes(packets + more) == StreamBytes(packets) + StreamBytes(more)
  {
    hide Sendable, PacketBytes;
    if packets == [] {
      assert packets + more == more;
    } else {
      StreamBytesSplit(packets[1..], more);
      assert (packets + more)[1..] == packets[1..] + more;
    }
  }

  lemma CompleteWasSent(b: seq<byte>)
    requires Examine(b).Complete?
    ensures var e := Examine(b);
            Sendable(e.packet) && e.size == |PacketBytes(e.packet)| && b == PacketBytes(e.packet) + b[e.size..]
  {
    var n := TentativeHeader(b);
    DecodedHeaderIsEncoding(b[..n]);
    assert b[..n][18] == b[18] && b[..n][19] == b[19];
    hide DecodeHeader, HeaderBytes, ReadU16;
    var h := DecodeHeader(b[..n]).header;
    assert |HeaderBytes(h)| == n by { HeaderIsTentative(b[..n]); }
    assert b[..n] == HeaderBytes(h);
  }

  lemma HeaderIsTentative(b: seq<byte>)
    requires DecodeHeader(b).Header?
    ensures |HeaderBytes(DecodeHeader(b).header)| == TentativeHeader(b)
  {
    hide ReadU16, ReadU32, Fixed, U32;
  }

  /** Nothing is received that was not sent: the bytes taken from the buffer encode the packets. */
  lemma {:induction false} ReceivedWasSent(b: seq<byte>)
    ensures var o := Drain(b);
            && (forall i :: 0 <= i < |o.packets| ==> Sendable(o.packets[i]))
            && b == StreamBytes(o.packets) + o.rest
    decreases |b|
  {
    hide Examine, Sendable, PacketBytes;
    var e := Examine(b);
    if e.Complete? {
      CompleteWasSent(b);
      ReceivedWasSent(b[e.size..]);
      var o := Drain(b[e.size..]);
      assert ([e.packet] + o.packets)[1..] == o.packets;
    } else {
      assert b == [] + b;
    }
  }

  /** A buffer that was cut anywhere in a stream of packets still holds the rest of that stream. */
  lemma RemainingStream(b: seq<byte>, t: seq<byte>, packets: seq<Packet>) returns (k: nat)
    requires forall i :: 0 <= i < |packets| ==> Sendable(packets[i])
    requires b + t == StreamBytes(packets) && !Drain(b).failed
    ensures k <= |packets| && Drain(b).rest + t == StreamBytes(packets[k..])
  {
    hide Sendable, PacketBytes, Drain, StreamBytes;
    SentIsReceived(packets);
    DrainSplit(b, t);
    ReceivedWasSent(b);
    var o := Drain(b);
    k := |o.packets|;
    assert packets == o.packets + packets[k..];
    StreamBytesSplit(o.packets, packets[k..]);
    var sent := StreamBytes(o.packets);
    assert sent + (o.rest + t) == b + t == sent + StreamBytes(packets[k..]);
    Cancel(sent, o.rest + t, StreamBytes(packets[k..]));
  }

  lemma Cancel(a: seq<byte>, x: seq<byte>, y: seq<byte>)
    requires a + x == a + y
    ensures x == y
  {
    assert x == (a + x)[|a|..] && y == (a + y)[|a|..];
  }
}

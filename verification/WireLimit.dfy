/** Which streams of packets the receive buffer's limit lets through, however reads cut them. */
module WireLimit {
  import opened Bytes
  import opened Prelude
  import opened WireStream
  import opened WireProtocol

  /** How full the buffer can get while packet `i` lacks its last byte and one more read arrives. */
  function Crowding(packets: seq<Packet>, i: nat): int
    requires forall k :: 0 <= k < |packets| ==> Sendable(packets[k])
    requires i < |packets|
  {
    |PacketBytes(packets[i])| - 1 + Min(RECEIVE_CHUNK, 1 + |StreamBytes(packets[i + 1..])|)
  }

  predicate Roomy(packets: seq<Packet>)
    requires forall k :: 0 <= k < |packets| ==> Sendable(packets[k])
  {
    forall i :: 0 <= i < |packets| ==> Crowding(packets, i) <= MAXIMUM_WIRE_BODY + 24
  }

  /** What `recv` can return with a buffer of 64 KiB. */
  predicate Reads(chunks: seq<seq<byte>>) {
    Sized(chunks, RECEIVE_CHUNK)
  }

  ghost predicate AlwaysArrives(packets: seq<Packet>)
    requires forall k :: 0 <= k < |packets| ==> Sendable(packets[k])
  {
    forall chunks :: Reads(chunks) && Concat(chunks) == StreamBytes(packets) ==>
      Feed([], chunks) == Outcome(packets, [], false)
  }

  // ---- With room enough every cut arrives ----

  /** The unfinished front of a stream of packets is a proper part of its first packet. */
  lemma UnfinishedFrontIsShort(rest: seq<byte>, t: seq<byte>, packets: seq<Packet>)
    requires Examine(rest).Incomplete?
    requires forall i :: 0 <= i < |packets| ==> Sendable(packets[i])
    requires rest + t == StreamBytes(packets)
    ensures if packets == [] then rest == [] else |rest| < |PacketBytes(packets[0])|
  {
    hide Examine, Canonical, HeaderBytes;
    if packets != [] {
      var p := packets[0];
      IsRepresentable(p.header);
      var one := HeaderBytes(p.header) + p.body;
      if |rest| >= |one| {
        assert rest == (rest + t)[..|rest|];
        assert rest[..|one|] == (rest + t)[..|one|] == one;
        assert rest == HeaderBytes(p.header) + (p.body + rest[|one|..]);
        FramedByHeader(p.header, p.body + rest[|one|..]);
        assert false;
      }
    }
  }

  lemma LaterPacketsAreRoomy(packets: seq<Packet>, k: nat)
    requires forall i :: 0 <= i < |packets| ==> Sendable(packets[i])
    requires k <= |packets| && Roomy(packets)
    ensures Roomy(packets[k..])
  {
    hide Sendable, PacketBytes, StreamBytes;
    forall i | 0 <= i < |packets[k..]| ensures Crowding(packets[k..], i) <= MAXIMUM_WIRE_BODY + 24 {
      assert packets[k..][i + 1..] == packets[k + i + 1..];
      assert Crowding(packets[k..], i) == Crowding(packets, k + i);
    }
  }

  lemma FirstReadFits(rest: seq<byte>, chunk: seq<byte>, t: seq<byte>, packets: seq<Packet>)
    requires Examine(rest).Incomplete? && |chunk| <= RECEIVE_CHUNK
    requires forall i :: 0 <= i < |packets| ==> Sendable(packets[i])
    requires Roomy(packets) && rest + (chunk + t) == StreamBytes(packets)
    ensures !Overflows(rest, chunk)
  {
    UnfinishedFrontIsShort(rest, chunk + t, packets);
    assert |StreamBytes(packets)| == |rest| + |chunk| + |t|;
    hide Examine, Sendable, PacketBytes;
    if packets != [] {
      assert Crowding(packets, 0) <= MAXIMUM_WIRE_BODY + 24;
    }
  }

  lemma {:induction false} NothingOverflows(rest: seq<byte>, chunks: seq<seq<byte>>, packets: seq<Packet>)
    requires Examine(rest).Incomplete?
    requires forall i :: 0 <= i < |packets| ==> Sendable(packets[i])
    requires forall i :: 0 <= i < |chunks| ==> |chunks[i]| <= RECEIVE_CHUNK
    requires Roomy(packets) && rest + Concat(chunks) == StreamBytes(packets)
    ensures NeverOverflows(rest, chunks)
    decreases |chunks|
  {
    hide Examine, Sendable, PacketBytes, Drain, StreamBytes, Roomy, Overflows;
    if chunks != [] {
      var b, t := rest + chunks[0], Concat(chunks[1..]);
      assert rest + Concat(chunks) == b + t;
      FirstReadFits(rest, chunks[0], t, packets);
      if !Drain(b).failed {
        var k := RemainingStream(b, t, packets);
        RestIsIncomplete(b);
        LaterPacketsAreRoomy(packets, k);
        NothingOverflows(Drain(b).rest, chunks[1..], packets[k..]);
      }
    }
  }

  lemma RoomyPacketsArrive(rest: seq<byte>, chunks: seq<seq<byte>>, packets: seq<Packet>)
    requires Examine(rest).Incomplete?
    requires forall i :: 0 <= i < |packets| ==> Sendable(packets[i])
    requires forall i :: 0 <= i < |chunks| ==> |chunks[i]| <= RECEIVE_CHUNK
    requires Roomy(packets) && rest + Concat(chunks) == StreamBytes(packets)
    ensures Feed(rest, chunks) == Outcome(packets, [], false)
  {
    hide Examine, Sendable, PacketBytes, Drain, StreamBytes, Feed, NeverOverflows, Roomy;
    NothingOverflows(rest, chunks, packets);
    ReassemblyIsChunkIndependent(rest, chunks);
    SentIsReceived(packets);
  }

  // ---- Without it some cut is refused ----

  /** A failure among the first chunks, or on what they leave with the others, is a failure of them all. */
  lemma {:induction false} FeedFails(rest: seq<byte>, a: seq<seq<byte>>, b: seq<seq<byte>>)
    requires Feed(rest, a).failed || Feed(Feed(rest, a).rest, b).failed
    ensures Feed(rest, a + b).failed
    decreases |a|
  {
    hide Drain, Overflows;
    if a == [] {
      assert a + b == b;
    } else {
      assert (a + b)[0] == a[0] && (a + b)[1..] == a[1..] + b;
      if !Overflows(rest, a[0]) && !Drain(rest + a[0]).failed {
        FeedFails(Drain(rest + a[0]).rest, a[1..], b);
      }
    }
  }

  /** A stream cut one byte before the end of packet `i` drains to the packets before it. */
  lemma CutBeforeEnd(packets: seq<Packet>, i: nat) returns (cut: nat)
    requires forall k :: 0 <= k < |packets| ==> Sendable(packets[k])
    requires i < |packets|
    ensures var s := StreamBytes(packets);
            && cut < |s| && |s| - cut == 1 + |StreamBytes(packets[i + 1..])|
            && !Drain(s[..cut]).failed && |Drain(s[..cut]).rest| == |PacketBytes(packets[i])| - 1
  {
    hide Examine, Sendable, PacketBytes, Drain;
    var before, p, after := packets[..i], packets[i], packets[i + 1..];
    var s, sent, one := StreamBytes(packets), StreamBytes(before), PacketBytes(p);
    assert packets == before + packets[i..] && packets[i..][1..] == after;
    StreamBytesSplit(before, packets[i..]);
    assert s == sent + (one + StreamBytes(after));
    PacketIsLong(p);
    var front := one[..|one| - 1];
    cut := |sent| + |front|;
    assert s[..cut] == sent + front;
    DrainSplit(sent, front);
    SentIsReceived(before);
    assert [] + front == front;
    FrontIsIncomplete(p);
    DrainOfIncomplete(front);
  }

  lemma PacketIsLong(p: Packet)
    requires Sendable(p)
    ensures |PacketBytes(p)| >= 20
  {
  }

  lemma DrainOfIncomplete(b: seq<byte>)
    requires Examine(b).Incomplete?
    ensures Drain(b) == Outcome([], b, false)
  {
  }

  lemma FrontIsIncomplete(p: Packet)
    requires Sendable(p)
    ensures |PacketBytes(p)| > 0 && Examine(PacketBytes(p)[..|PacketBytes(p)| - 1]).Incomplete?
  {
    var one := PacketBytes(p);
    var n := |HeaderBytes(p.header)|;
    if p.body == [] {
      HeaderFrontIsIncomplete(p.header);
      assert one[..|one| - 1] == HeaderBytes(p.header)[..n - 1];
    } else {
      hide Examine, HeaderBytes;
      FramedByHeader(p.header, p.body[..|p.body| - 1]);
      assert one[..|one| - 1] == HeaderBytes(p.header) + p.body[..|p.body| - 1];
    }
  }

  lemma HeaderFrontIsIncomplete(h: WireHeader)
    requires Canonical(h)
    ensures Examine(HeaderBytes(h)[..|HeaderBytes(h)| - 1]).Incomplete?
  {
    if h.hasPayloadOffset {
      var b := HeaderBytes(h)[..23];
      assert b[..20] == Fixed(h);
      FixedFields(h, b);
      hide ReadU16, ReadU32, Fixed;
    }
  }

  /** Byte by byte, a prefix that drains without failure leaves the same rest, unless it is refused. */
  lemma FeedBytewise(prefix: seq<byte>)
    requires !Drain(prefix).failed
    ensures var f := Feed([], Bytewise(prefix)); f.failed || f.rest == Drain(prefix).rest
  {
    BytewiseSized(prefix, RECEIVE_CHUNK);
    NothingIsIncomplete();
    hide Examine, Drain, Feed, Bytewise, Concat;
    assert [] + prefix == prefix;
    if !Feed([], Bytewise(prefix)).failed {
      RefusedExactlyOnOverflow([], Bytewise(prefix));
      ReassemblyIsChunkIndependent([], Bytewise(prefix));
    }
  }

  /** One wide read between two stretches that come byte by byte. */
  function CutWith(s: seq<byte>, cut: nat, width: nat): seq<seq<byte>>
    requires cut + width <= |s|
  {
    Bytewise(s[..cut]) + ([s[cut..cut + width]] + Bytewise(s[cut + width..]))
  }

  lemma CutReads(s: seq<byte>, cut: nat, width: nat)
    requires cut + width <= |s| && 1 <= width <= RECEIVE_CHUNK
    ensures Reads(CutWith(s, cut, width)) && Concat(CutWith(s, cut, width)) == s
  {
    var first, big, last := s[..cut], s[cut..cut + width], s[cut + width..];
    BytewiseSized(first, RECEIVE_CHUNK);
    BytewiseSized(last, RECEIVE_CHUNK);
    SizedJoin([big], Bytewise(last), RECEIVE_CHUNK);
    SizedJoin(Bytewise(first), [big] + Bytewise(last), RECEIVE_CHUNK);
    hide Bytewise, Concat, Sized;
    ConcatSplit(Bytewise(first), [big] + Bytewise(last));
    ConcatSplit([big], Bytewise(last));
    ConcatOne(big);
    assert s == first + (big + last);
  }

  lemma WideReadIsRefused(s: seq<byte>, cut: nat, width: nat)
    requires cut + width <= |s| && !Drain(s[..cut]).failed
    requires |Drain(s[..cut]).rest| + width > MAXIMUM_WIRE_BODY + 24
    ensures Feed([], CutWith(s, cut, width)).failed
  {
    FeedBytewise(s[..cut]);
    hide Drain, Feed, Bytewise;
    var first, big, last := Bytewise(s[..cut]), s[cut..cut + width], Bytewise(s[cut + width..]);
    if !Feed([], first).failed {
      OverflowFails(Feed([], first).rest, big, last);
    }
    FeedFails([], first, [big] + last);
  }

  /** The cut that brings the most bytes behind the unfinished packet `i` is refused. */
  lemma CrowdedCutIsRefused(packets: seq<Packet>, i: nat) returns (chunks: seq<seq<byte>>)
    requires forall k :: 0 <= k < |packets| ==> Sendable(packets[k])
    requires i < |packets| && Crowding(packets, i) > MAXIMUM_WIRE_BODY + 24
    ensures Reads(chunks) && Concat(chunks) == StreamBytes(packets) && Feed([], chunks).failed
  {
    var cut := CutBeforeEnd(packets, i);
    hide Sendable, PacketBytes, Drain, StreamBytes, Feed, Concat, Reads, CutWith;
    var s := StreamBytes(packets);
    var width := Min(RECEIVE_CHUNK, |s| - cut);
    chunks := CutWith(s, cut, width);
    CutReads(s, cut, width);
    WideReadIsRefused(s, cut, width);
  }

  lemma OverflowFails(rest: seq<byte>, chunk: seq<byte>, more: seq<seq<byte>>)
    requires Overflows(rest, chunk)
    ensures Feed(rest, [chunk] + more).failed
  {
  }

  // ---- Main results ----

  /**
   The packets of a sendable stream arrive complete and in order under every cut into reads exactly
   when no packet, short of its last byte, leaves too little room for the read that completes it.
   */
  lemma ArrivesExactlyWhenRoomy(packets: seq<Packet>)
    requires forall k :: 0 <= k < |packets| ==> Sendable(packets[k])
    ensures AlwaysArrives(packets) <==> Roomy(packets)
  {
    hide Sendable, StreamBytes, Feed, Concat, Crowding;
    if Roomy(packets) {
      NothingIsIncomplete();
      forall chunks | Reads(chunks) && Concat(chunks) == StreamBytes(packets)
        ensures Feed([], chunks) == Outcome(packets, [], false) {
        assert [] + Concat(chunks) == Concat(chunks);
        RoomyPacketsArrive([], chunks, packets);
      }
    } else {
      var i :| 0 <= i < |packets| && Crowding(packets, i) > MAXIMUM_WIRE_BODY + 24;
      var chunks := CrowdedCutIsRefused(packets, i);
      assert !AlwaysArrives(packets);
    }
  }

  /**
   Packets whose bodies leave room for one read arrive complete and in order, with nothing added,
   whatever reads of at most 64 KiB deliver the stream.
   */
  lemma PacketsArrive(rest: seq<byte>, chunks: seq<seq<byte>>, packets: seq<Packet>)
    requires Examine(rest).Incomplete?
    requires forall i :: 0 <= i < |packets| ==> Sendable(packets[i])
    requires forall i :: 0 <= i < |packets| ==> |packets[i].body| <= MAXIMUM_WIRE_BODY - RECEIVE_CHUNK
    requires forall i :: 0 <= i < |chunks| ==> |chunks[i]| <= RECEIVE_CHUNK
    requires rest + Concat(chunks) == StreamBytes(packets)
    ensures Feed(rest, chunks) == Outcome(packets, [], false)
  {
    hide Examine, Drain, StreamBytes, Feed, Concat;
    forall i | 0 <= i < |packets| ensures Crowding(packets, i) <= MAXIMUM_WIRE_BODY + 24 {
      PacketLength(packets[i]);
    }
    RoomyPacketsArrive(rest, chunks, packets);
  }

  lemma PacketLength(p: Packet)
    requires Sendable(p)
    ensures |PacketBytes(p)| <= 24 + |p.body|
  {
  }

  /** A largest packet with any other packet behind it is a legal stream that some cut has refused. */
  lemma PacketBehindLargestIsRefused(p: Packet, q: Packet) returns (chunks: seq<seq<byte>>)
    requires Sendable(p) && Sendable(q) && p.header.hasPayloadOffset && |p.body| == MAXIMUM_WIRE_BODY
    ensures Reads(chunks) && Concat(chunks) == StreamBytes([p, q]) && Feed([], chunks).failed
  {
    var packets := [p, q];
    assert forall k :: 0 <= k < |packets| ==> Sendable(packets[k]);
    SecondPacketCrowds(p, q);
    hide Sendable, StreamBytes, Feed, Concat, Crowding;
    chunks := CrowdedCutIsRefused(packets, 0);
  }

  /** A modern packet whose body is `n` zeros. */
  function Plain(n: nat): (p: Packet)
    requires n <= MAXIMUM_WIRE_BODY
    ensures Sendable(p) && |p.body| == n && p.header.hasPayloadOffset
  {
    Packet(WireHeader(3, n, 0, 0, 1, 200, MODERN_CLASS, 0, true), seq(n, i requires 0 <= i < n => 0))
  }

  /** A concrete one: a packet of 32 MiB and an empty one. */
  lemma LargestPacketCanBeRefused() returns (chunks: seq<seq<byte>>)
    ensures Reads(chunks) && Concat(chunks) == StreamBytes([Plain(MAXIMUM_WIRE_BODY), Plain(0)])
    ensures Feed([], chunks).failed
  {
    hide Plain, Sendable, StreamBytes, Feed, Concat;
    chunks := PacketBehindLargestIsRefused(Plain(MAXIMUM_WIRE_BODY), Plain(0));
  }

  lemma SecondPacketCrowds(p: Packet, q: Packet)
    requires Sendable(p) && Sendable(q) && p.header.hasPayloadOffset && |p.body| == MAXIMUM_WIRE_BODY
    ensures Crowding([p, q], 0) > MAXIMUM_WIRE_BODY + 24
  {
    PacketIsLong(q);
    hide HeaderBytes;
    assert [p, q][1..] == [q] && [q][1..] == [];
    assert StreamBytes([q]) == PacketBytes(q) + StreamBytes([]);
  }
}

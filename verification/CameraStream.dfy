/** The whole way from the camera's socket to its media records: reads, packets, payloads and records. */
module CameraStream {
  import opened Bytes
  import opened WireStream
  import opened MediaFormat
  import P = WireProtocol
  import L = WireLimit
  import M = MediaLimit
  import R = MediaRoundTrip

  /**
   What decoding makes of the packets received so far: the payloads handed to the media parser, in
   order. Decryption and its state are an arbitrary function of the packets.
   */
  type Decoding = seq<P.Packet> -> seq<seq<byte>>

  /** What the media parser makes of a connection that delivers `chunks`. */
  function Watch(decode: Decoding, chunks: seq<seq<byte>>): M.Reception {
    M.FeedWithin(0, [], decode(P.Feed([], chunks).packets))
  }

  /** How TCP cuts the connection makes no difference to the records, as long as every packet finds room. */
  lemma RecordsIgnoreReads(decode: Decoding, packets: seq<P.Packet>, chunks: seq<seq<byte>>)
    requires forall k :: 0 <= k < |packets| ==> P.Sendable(packets[k])
    requires L.Roomy(packets) && L.Reads(chunks) && Concat(chunks) == P.StreamBytes(packets)
    ensures Watch(decode, chunks) == M.FeedWithin(0, [], decode(packets))
    ensures var r, whole := Watch(decode, chunks), Drain(Concat(decode(packets)));
            !r.refused ==> r.records == whole.records && r.failure == whole.failure
  {
    hide P.Sendable, P.StreamBytes, P.Feed, L.Roomy, L.Reads, M.FeedWithin, Feed, Drain, Concat;
    L.ArrivesExactlyWhenRoomy(packets);
    var payloads := decode(packets);
    M.WithinIsFeed(0, [], payloads);
    M.NothingDrains();
    ChunkIndependence([], payloads);
    assert [] + Concat(payloads) == Concat(payloads);
  }

  /**
   End to end: when both buffers find room, a camera's records all come back in order with every
   field intact, however they are spread over packets and however reads cut the packets.
   */
  lemma RecordsArrive(decode: Decoding, packets: seq<P.Packet>, chunks: seq<seq<byte>>, items: seq<R.Item>)
    requires forall k :: 0 <= k < |packets| ==> P.Sendable(packets[k])
    requires L.Roomy(packets) && L.Reads(chunks) && Concat(chunks) == P.StreamBytes(packets)
    requires forall k :: 0 <= k < |items| ==> R.WellFormed(items[k])
    requires M.Roomy(items, MAXIMUM_WIRE_BODY) && Sized(decode(packets), MAXIMUM_WIRE_BODY)
    requires Concat(decode(packets)) == M.ItemStream(items)
    ensures M.Whole(items, Watch(decode, chunks))
  {
    hide P.Sendable, P.StreamBytes, P.Feed, L.Roomy, L.Reads, M.FeedWithin, M.Roomy, M.Whole, Sized;
    hide R.WellFormed, Drain, Concat;
    RecordsIgnoreReads(decode, packets, chunks);
    M.RoomyStreamIsTaken(items, MAXIMUM_WIRE_BODY, decode(packets));
  }
}

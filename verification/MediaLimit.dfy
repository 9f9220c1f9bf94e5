/** Which streams of media records the parser's buffer limit lets through, however packets cut them. */
module MediaLimit {
  import opened Bytes
  import opened Prelude
  import opened WireStream
  import opened MediaFormat
  import opened MediaParser
  import opened MediaRoundTrip

  // ---- Receiving payload by payload ----

  datatype Reception = Reception(records: seq<Record>, offset: nat, rest: seq<byte>,
                                 failure: Option<Failure>, refused: bool)

  /** Appending the payloads one by one, taking every complete record before the next, within the limit. */
  function FeedWithin(offset: nat, rest: seq<byte>, payloads: seq<seq<byte>>): Reception
    decreases |payloads|
  {
    if payloads == [] then Reception([], offset, rest, None, false)
    else if Exceeds(offset, rest, payloads[0]) then Reception([], offset, rest, None, true)
    else
      var b := rest + payloads[0];
      var o, offset' := Drain(b), OffsetAfter(offset, b);
      if o.failure.Some? then Reception(o.records, offset', o.rest, o.failure, false)
      else var next := FeedWithin(offset', o.rest, payloads[1..]); next.(records := o.records + next.records)
  }

  /** Short of a refusal it is `Feed`, to which the results on chunks apply. */
  lemma {:induction false} WithinIsFeed(offset: nat, rest: seq<byte>, payloads: seq<seq<byte>>)
    ensures var r := FeedWithin(offset, rest, payloads);
            !r.refused ==> Outcome(r.records, r.rest, r.failure) == Feed(rest, payloads)
    decreases |payloads|
  {
    hide Drain, OffsetAfter, Exceeds;
    if payloads != [] && !Exceeds(offset, rest, payloads[0]) {
      var b := rest + payloads[0];
      if Drain(b).failure.None? {
        WithinIsFeed(OffsetAfter(offset, b), Drain(b).rest, payloads[1..]);
      }
    }
  }

  datatype Session = Session(records: seq<Record>, ending: MediaResult, offset: nat, unread: seq<byte>)

  /** Waiting again and again until a wait does not bring a record. */
  function Waits(offset: nat, s: seq<byte>, payloads: seq<seq<byte>>): Session
    decreases |payloads|, |s|
  {
    var w := Await(offset, s, payloads);
    if w.result.Media? then
      var more := Waits(w.offset, w.unread, payloads[w.used..]);
      more.(records := [w.result.record] + more.records)
    else Session([], w.result, w.offset, w.unread)
  }

  function EndOf(r: Reception): MediaResult {
    if r.refused then TooMuch else if r.failure.Some? then Broken(r.failure.value) else NoPacket
  }

  /** Repeated waits are `FeedWithin`: the same records, the same ending and the same buffer. */
  lemma {:induction false} WaitsAmountToFeed(offset: nat, s: seq<byte>, payloads: seq<seq<byte>>)
    ensures var w, d, offset' := Waits(offset, s, payloads), Drain(s), OffsetAfter(offset, s);
            if d.failure.Some? then w == Session(d.records, Broken(d.failure.value), offset', d.rest)
            else
              var f := FeedWithin(offset', d.rest, payloads);
              w == Session(d.records + f.records, EndOf(f), f.offset, f.rest)
    decreases |payloads|, |s|
  {
    hide NextOf, Drain, OffsetAfter, Exceeds;
    NextDrains(offset, s);
    var n := NextOf(offset, s);
    match n.result {
      case Got(record) =>
        assert payloads[0..] == payloads;
        WaitsAmountToFeed(n.offset, n.unread, payloads);
        var d := Drain(n.unread);
        assert forall more :: [record] + (d.records + more) == [record] + d.records + more;
      case Failed(f) =>
      case Nothing =>
        if payloads != [] && !Exceeds(n.offset, n.unread, payloads[0]) {
          TakenBefore(offset, s, payloads);
          WaitsAmountToFeed(n.offset, n.unread + payloads[0], payloads[1..]);
        }
    }
  }

  /** A payload that is appended may as well be there before the waits begin. */
  lemma TakenBefore(offset: nat, s: seq<byte>, payloads: seq<seq<byte>>)
    requires NextOf(offset, s).result.Nothing? && payloads != []
    requires var n := NextOf(offset, s); !Exceeds(n.offset, n.unread, payloads[0])
    ensures var n := NextOf(offset, s);
            Waits(offset, s, payloads) == Waits(n.offset, n.unread + payloads[0], payloads[1..])
  {
    hide NextOf, Exceeds;
    var n := NextOf(offset, s);
    var w := Await(n.offset, n.unread + payloads[0], payloads[1..]);
    assert Await(offset, s, payloads) == w.(used := w.used + 1);
    hide Await;
    assert payloads[w.used + 1..] == payloads[1..][w.used..];
  }

  // ---- Streams of records ----

  function ItemStream(items: seq<Item>): seq<byte>
    requires forall k :: 0 <= k < |items| ==> WellFormed(items[k])
  {
    if items == [] then [] else ItemBytes(items[0]) + ItemStream(items[1..])
  }

  function ItemRecords(items: seq<Item>): seq<Record> {
    if items == [] then [] else RecordsOf(items[0]) + ItemRecords(items[1..])
  }

  /** The bytes from item `j` up to item `i`. */
  function Span(items: seq<Item>, j: nat, i: nat): nat
    requires j <= i <= |items| && forall k :: 0 <= k < |items| ==> WellFormed(items[k])
  {
    |ItemStream(items[j..i])|
  }

  lemma {:induction false} StreamSplit(a: seq<Item>, b: seq<Item>)
    requires forall k :: 0 <= k < |a| ==> WellFormed(a[k])
    requires forall k :: 0 <= k < |b| ==> WellFormed(b[k])
    ensures forall k :: 0 <= k < |a + b| ==> WellFormed((a + b)[k])
    ensures ItemStream(a + b) == ItemStream(a) + ItemStream(b)
    decreases |a|
  {
    hide WellFormed, ItemBytes;
    if a == [] {
      assert a + b == b;
    } else {
      assert (a + b)[1..] == a[1..] + b;
      StreamSplit(a[1..], b);
    }
  }

  lemma StreamFirst(items: seq<Item>, i: nat)
    requires i < |items| && forall k :: 0 <= k < |items| ==> WellFormed(items[k])
    ensures ItemStream(items[i..]) == ItemBytes(items[i]) + ItemStream(items[i + 1..])
  {
    assert items[i..][1..] == items[i + 1..];
  }

  lemma SpanGrows(items: seq<Item>, j: nat, i: nat)
    requires j <= i < |items| && forall k :: 0 <= k < |items| ==> WellFormed(items[k])
    ensures Span(items, j, i + 1) == Span(items, j, i) + |ItemBytes(items[i])|
  {
    assert items[j..i + 1] == items[j..i] + [items[i]] && [items[i]][1..] == [];
    StreamSplit(items[j..i], [items[i]]);
  }

  /** A proper front of a record is never mistaken for anything. */
  lemma FrontNeedsMore(item: Item, n: nat)
    requires WellFormed(item) && n < |ItemBytes(item)|
    ensures Look(ItemBytes(item)[..n]).NeedMore?
  {
    var b := ItemBytes(item);
    assert b[..n] + b[n..] == b == b + [];
    ItemLooks(item, []);
    hide Look, ItemBytes;
    if !Look(b[..n]).NeedMore? {
      LookStable(b[..n], b[n..]);
    }
  }

  lemma {:induction false} ItemsDrain(items: seq<Item>)
    requires forall k :: 0 <= k < |items| ==> WellFormed(items[k])
    ensures Drain(ItemStream(items)) == Outcome(ItemRecords(items), [], None)
  {
    hide Drain, WellFormed, ItemBytes, RecordsOf;
    if items == [] {
      NothingDrains();
    } else {
      ItemDrains(items[0], ItemStream(items[1..]));
      ItemsDrain(items[1..]);
    }
  }

  lemma NothingDrains()
    ensures Drain([]) == Outcome([], [], None) && Look([]).NeedMore?
  {
  }

  // ---- How far the read offset gets ----

  lemma OffsetPast(offset: nat, s: seq<byte>, n: nat)
    requires n > 1 && (Look(s) == Skip(n) || (Look(s).Emit? && Look(s).count == n))
    ensures n <= |s| && OffsetAfter(offset, s) == OffsetAfter(Compacted(offset + n, |s| - n), s[n..])
  {
    hide Look, Compacted;
  }

  /** Taking a whole record at the front moves the offset past it and then compacts. */
  lemma OffsetPastItem(offset: nat, item: Item, rest: seq<byte>)
    requires WellFormed(item)
    ensures OffsetAfter(offset, ItemBytes(item) + rest)
            == OffsetAfter(Compacted(offset + |ItemBytes(item)|, |rest|), rest)
  {
    var b := ItemBytes(item);
    ItemLooks(item, rest);
    hide Look, ItemBytes, WellFormed, Compacted, OffsetAfter;
    OffsetPast(offset, b + rest, |b|);
    assert (b + rest)[|b|..] == rest && |b + rest| - |b| == |rest|;
  }

  lemma OffsetInFront(offset: nat, s: seq<byte>)
    requires Look(s).NeedMore?
    ensures OffsetAfter(offset, s) == Compacted(offset, |s|) && Drain(s) == Outcome([], s, None)
  {
    hide Look;
  }

  /**
   The offset is always what a stretch of records took that ends where the unread bytes begin, and
   that stretch is shorter than the compaction threshold.
   */
  lemma {:induction false} OffsetIsSpan(items: seq<Item>, j: nat, i: nat, b: seq<byte>, t: seq<byte>)
    returns (j': nat, i': nat)
    requires j <= i <= |items| && forall k :: 0 <= k < |items| ==> WellFormed(items[k])
    requires Span(items, j, i) < COMPACTION_THRESHOLD && b + t == ItemStream(items[i..])
    ensures j' <= i' <= |items| && Span(items, j', i') < COMPACTION_THRESHOLD
    ensures OffsetAfter(Span(items, j, i), b) == Span(items, j', i')
    ensures Drain(b).failure.None? && Drain(b).rest + t == ItemStream(items[i'..])
    ensures if i' < |items| then |Drain(b).rest| < |ItemBytes(items[i'])| else Drain(b).rest == []
    decreases |items| - i
  {
    hide Look, WellFormed, ItemBytes, Drain, OffsetAfter, Span;
    if i == |items| {
      assert b == [];
      NothingDrains();
      OffsetInFront(Span(items, j, i), b);
      NoSpan(items, i);
      j', i' := i, i;
    } else {
      var item := ItemBytes(items[i]);
      StreamFirst(items, i);
      NoSpan(items, i);
      if |b| < |item| {
        assert b == (b + t)[..|b|] == item[..|b|];
        FrontNeedsMore(items[i], |b|);
        OffsetInFront(Span(items, j, i), b);
        j', i' := if b == [] then i else j, i;
      } else {
        var rest := b[|item|..];
        assert b[..|item|] == (b + t)[..|item|] == item;
        assert b == item + rest;
        assert rest + t == (b + t)[|item|..] == ItemStream(items[i + 1..]);
        OffsetPastItem(Span(items, j, i), items[i], rest);
        ItemDrains(items[i], rest);
        SpanGrows(items, j, i);
        NoSpan(items, i + 1);
        var j1 := if Compacted(Span(items, j, i + 1), |rest|) == 0 then i + 1 else j;
        j', i' := OffsetIsSpan(items, j1, i + 1, rest, t);
      }
    }
  }

  lemma NoSpan(items: seq<Item>, i: nat)
    requires i <= |items| && forall k :: 0 <= k < |items| ==> WellFormed(items[k])
    ensures Span(items, i, i) == 0
  {
    assert items[i..i] == [];
  }

  // ---- With room enough every cut is taken ----

  /**
   How full the buffer can get while item `i` lacks its last byte, the records from `j` on still
   stand in front of it and one more payload of at most `limit` bytes arrives.
   */
  function Crowding(items: seq<Item>, limit: nat, j: nat, i: nat): int
    requires j <= i < |items| && forall k :: 0 <= k < |items| ==> WellFormed(items[k])
  {
    Span(items, j, i) + |ItemBytes(items[i])| - 1 + Min(limit, 1 + |ItemStream(items[i + 1..])|)
  }

  /** Consumed records stay in the buffer up to the compaction threshold; with them every payload fits. */
  ghost predicate Roomy(items: seq<Item>, limit: nat)
    requires forall k :: 0 <= k < |items| ==> WellFormed(items[k])
  {
    forall j, i :: 0 <= j <= i < |items| && Span(items, j, i) < COMPACTION_THRESHOLD ==>
      Crowding(items, limit, j, i) <= MAXIMUM_MEDIA_BUFFER
  }

  lemma PayloadFits(items: seq<Item>, limit: nat, j: nat, i: nat, rest: seq<byte>, chunk: seq<byte>, t: seq<byte>)
    requires j <= i <= |items| && forall k :: 0 <= k < |items| ==> WellFormed(items[k])
    requires Span(items, j, i) < COMPACTION_THRESHOLD && Roomy(items, limit)
    requires rest + (chunk + t) == ItemStream(items[i..]) && |chunk| <= limit
    requires i < |items| ==> |rest| < |ItemBytes(items[i])|
    ensures !Exceeds(Span(items, j, i), rest, chunk)
  {
    hide WellFormed, ItemBytes, Span;
    assert |rest| + |chunk| <= |ItemStream(items[i..])|;
    if i < |items| {
      StreamFirst(items, i);
      assert Crowding(items, limit, j, i) <= MAXIMUM_MEDIA_BUFFER;
    }
  }

  lemma {:induction false} RoomyIsTaken(items: seq<Item>, limit: nat, j: nat, i: nat,
                                        rest: seq<byte>, payloads: seq<seq<byte>>)
    requires j <= i <= |items| && forall k :: 0 <= k < |items| ==> WellFormed(items[k])
    requires Span(items, j, i) < COMPACTION_THRESHOLD && Roomy(items, limit)
    requires forall k :: 0 <= k < |payloads| ==> |payloads[k]| <= limit
    requires rest + Concat(payloads) == ItemStream(items[i..])
    requires i < |items| ==> |rest| < |ItemBytes(items[i])|
    ensures !FeedWithin(Span(items, j, i), rest, payloads).refused
    decreases |payloads|
  {
    hide WellFormed, ItemBytes, Span, Roomy, ItemStream, Exceeds, Drain, OffsetAfter;
    if payloads != [] {
      var b, t := rest + payloads[0], Concat(payloads[1..]);
      assert rest + Concat(payloads) == b + t && rest + (payloads[0] + t) == b + t;
      PayloadFits(items, limit, j, i, rest, payloads[0], t);
      var j', i' := OffsetIsSpan(items, j, i, b, t);
      RoomyIsTaken(items, limit, j', i', Drain(b).rest, payloads[1..]);
    }
  }

  /** Every record of the stream came back, in order, with nothing left over. */
  predicate Whole(items: seq<Item>, r: Reception) {
    r.records == ItemRecords(items) && r.rest == [] && r.failure == None && !r.refused
  }

  /** A reception that is not refused is whole. */
  lemma TakenIsWhole(items: seq<Item>, payloads: seq<seq<byte>>)
    requires forall k :: 0 <= k < |items| ==> WellFormed(items[k])
    requires Concat(payloads) == ItemStream(items) && !FeedWithin(0, [], payloads).refused
    ensures Whole(items, FeedWithin(0, [], payloads))
  {
    hide WellFormed, Feed, FeedWithin, ItemStream, ItemRecords, Drain, Look;
    WithinIsFeed(0, [], payloads);
    NothingDrains();
    ChunkIndependence([], payloads);
    assert [] + Concat(payloads) == Concat(payloads);
    ItemsDrain(items);
  }

  ghost predicate AlwaysTaken(items: seq<Item>, limit: nat)
    requires forall k :: 0 <= k < |items| ==> WellFormed(items[k])
  {
    forall payloads :: Sized(payloads, limit) && Concat(payloads) == ItemStream(items) ==>
      Whole(items, FeedWithin(0, [], payloads))
  }

  // ---- Without it some cut is refused ----

  /** Receiving some payloads and then others is receiving them all. */
  lemma {:induction false} JoinReceptions(offset: nat, rest: seq<byte>, a: seq<seq<byte>>, b: seq<seq<byte>>)
    ensures var r, all := FeedWithin(offset, rest, a), FeedWithin(offset, rest, a + b);
            if r.refused || r.failure.Some? then all.refused == r.refused && all.failure == r.failure
            else
              var next := FeedWithin(r.offset, r.rest, b);
              && all.refused == next.refused && all.failure == next.failure
              && all.offset == next.offset && all.rest == next.rest
    decreases |a|
  {
    hide Drain, OffsetAfter, Exceeds;
    if a == [] {
      assert a + b == b;
    } else {
      assert (a + b)[0] == a[0] && (a + b)[1..] == a[1..] + b;
      if !Exceeds(offset, rest, a[0]) && Drain(rest + a[0]).failure.None? {
        JoinReceptions(OffsetAfter(offset, rest + a[0]), Drain(rest + a[0]).rest, a[1..], b);
      }
    }
  }

  /** Once everything has been consumed the offset is zero. */
  lemma {:induction false} EmptyMeansZero(offset: nat, s: seq<byte>)
    requires Drain(s).failure.None? && Drain(s).rest == []
    ensures OffsetAfter(offset, s) == 0
    decreases |s|
  {
    hide Look;
    var v := Look(s);
    if v.Skip? {
      EmptyMeansZero(Advanced(offset, |s|, v.count), s[v.count..]);
    } else if v.Emit? {
      EmptyMeansZero(Compacted(offset + v.count, |s| - v.count), s[v.count..]);
    }
  }

  lemma {:induction false} EmptyReceptionIsZero(offset: nat, rest: seq<byte>, payloads: seq<seq<byte>>)
    requires var r := FeedWithin(offset, rest, payloads); !r.refused && r.failure.None? && r.rest == []
    requires payloads == [] ==> offset == 0
    ensures FeedWithin(offset, rest, payloads).offset == 0
    decreases |payloads|
  {
    hide Drain, OffsetAfter, Exceeds;
    if payloads != [] {
      var b := rest + payloads[0];
      if payloads[1..] == [] {
        EmptyMeansZero(offset, b);
      } else {
        EmptyReceptionIsZero(OffsetAfter(offset, b), Drain(b).rest, payloads[1..]);
      }
    }
  }

  /** Byte by byte whole records are refused or leave nothing, and the offset at zero. */
  lemma BytewiseLeavesNothing(items: seq<Item>)
    requires forall k :: 0 <= k < |items| ==> WellFormed(items[k])
    ensures var r := FeedWithin(0, [], Bytewise(ItemStream(items)));
            r.refused || (r.offset == 0 && r.rest == [] && r.failure.None?)
  {
    hide WellFormed, ItemStream, Bytewise, FeedWithin, Concat;
    BytewiseSized(ItemStream(items), 1);
    if !FeedWithin(0, [], Bytewise(ItemStream(items))).refused {
      TakenIsWhole(items, Bytewise(ItemStream(items)));
      EmptyReceptionIsZero(0, [], Bytewise(ItemStream(items)));
    }
  }

  /** Records in one piece with the first byte of the next leave the offset behind them all. */
  lemma {:induction false} OffsetBehindItems(items: seq<Item>, j: nat, k: nat, i: nat)
    requires j <= k <= i < |items| && forall k :: 0 <= k < |items| ==> WellFormed(items[k])
    requires Span(items, j, i) < COMPACTION_THRESHOLD
    ensures var front := ItemBytes(items[i])[..1]; var b := ItemStream(items[k..i]) + front;
            OffsetAfter(Span(items, j, k), b) == Span(items, j, i) && Drain(b).failure.None? && Drain(b).rest == front
    decreases i - k
  {
    hide Look, WellFormed, ItemBytes, Drain, OffsetAfter, Span;
    var front := ItemBytes(items[i])[..1];
    if k == i {
      assert items[k..i] == [] && [] + front == front;
      FrontNeedsMore(items[i], 1);
      OffsetInFront(Span(items, j, i), front);
    } else {
      var rest := ItemStream(items[k + 1..i]) + front;
      assert items[k..i][1..] == items[k + 1..i];
      assert ItemStream(items[k..i]) + front == ItemBytes(items[k]) + rest;
      SpanGrows(items, j, k);
      SpanMonotone(items, j, k + 1, i);
      OffsetPastItem(Span(items, j, k), items[k], rest);
      ItemDrains(items[k], rest);
      OffsetBehindItems(items, j, k + 1, i);
    }
  }

  lemma SpanMonotone(items: seq<Item>, j: nat, k: nat, i: nat)
    requires j <= k <= i <= |items| && forall k :: 0 <= k < |items| ==> WellFormed(items[k])
    ensures Span(items, j, k) <= Span(items, j, i)
  {
    hide WellFormed;
    assert items[j..i] == items[j..k] + items[k..i];
    StreamSplit(items[j..k], items[k..i]);
  }

  /** Byte by byte the front of a record grows in the buffer and the offset stays. */
  lemma {:induction false} FrontGrows(offset: nat, item: Item, n: nat, m: nat)
    requires WellFormed(item) && offset < COMPACTION_THRESHOLD && 1 <= n <= m < |ItemBytes(item)|
    ensures var b := ItemBytes(item); var r := FeedWithin(offset, b[..n], Bytewise(b[n..m]));
            r.refused || r == Reception([], offset, b[..m], None, false)
    decreases m - n
  {
    hide Look, WellFormed, ItemBytes, Drain, OffsetAfter;
    var b := ItemBytes(item);
    if n < m {
      var chunk := b[n..m][..1];
      assert b[n..m][1..] == b[n + 1..m];
      assert b[..n] + chunk == b[..n + 1];
      FrontNeedsMore(item, n + 1);
      OffsetInFront(offset, b[..n + 1]);
      FrontGrows(offset, item, n + 1, m);
      assert Bytewise(b[n..m]) == [chunk] + Bytewise(b[n + 1..m]);
      assert ([chunk] + Bytewise(b[n + 1..m]))[1..] == Bytewise(b[n + 1..m]);
      hide Bytewise;
    }
  }

  /** Up to the last byte of item `i`, with the records from `j` on still in the buffer. */
  function CrowdingCut(items: seq<Item>, j: nat, i: nat): seq<seq<byte>>
    requires j <= i < |items| && forall k :: 0 <= k < |items| ==> WellFormed(items[k])
  {
    var b := ItemBytes(items[i]);
    Bytewise(ItemStream(items[..j])) + ([ItemStream(items[j..i]) + b[..1]] + Bytewise(b[1..|b| - 1]))
  }

  lemma CutCrowds(items: seq<Item>, j: nat, i: nat)
    requires j <= i < |items| && forall k :: 0 <= k < |items| ==> WellFormed(items[k])
    requires Span(items, j, i) < COMPACTION_THRESHOLD
    ensures var b := ItemBytes(items[i]); var r := FeedWithin(0, [], CrowdingCut(items, j, i));
            r.refused || (r.failure.None? && r.offset == Span(items, j, i) && r.rest == b[..|b| - 1])
  {
    hide WellFormed, ItemBytes, ItemStream, Bytewise, FeedWithin;
    var b := ItemBytes(items[i]);
    var first, second := Bytewise(ItemStream(items[..j])), [ItemStream(items[j..i]) + b[..1]] + Bytewise(b[1..|b| - 1]);
    BytewiseLeavesNothing(items[..j]);
    PieceCrowds(items, j, i);
    JoinReceptions(0, [], first, second);
  }

  lemma PieceCrowds(items: seq<Item>, j: nat, i: nat)
    requires j <= i < |items| && forall k :: 0 <= k < |items| ==> WellFormed(items[k])
    requires Span(items, j, i) < COMPACTION_THRESHOLD
    ensures var b := ItemBytes(items[i]);
            var r := FeedWithin(0, [], [ItemStream(items[j..i]) + b[..1]] + Bytewise(b[1..|b| - 1]));
            r.refused || (r.failure.None? && r.offset == Span(items, j, i) && r.rest == b[..|b| - 1])
  {
    hide WellFormed, ItemBytes, ItemStream, Bytewise, Span, Drain, OffsetAfter;
    var b := ItemBytes(items[i]);
    var piece, more := ItemStream(items[j..i]) + b[..1], Bytewise(b[1..|b| - 1]);
    NoSpan(items, j);
    OffsetBehindItems(items, j, j, i);
    FrontGrows(Span(items, j, i), items[i], 1, |b| - 1);
    assert [] + piece == piece && ([piece] + more)[1..] == more;
  }

  lemma CutIsSized(items: seq<Item>, limit: nat, j: nat, i: nat)
    requires j <= i < |items| && forall k :: 0 <= k < |items| ==> WellFormed(items[k])
    requires Span(items, j, i) < COMPACTION_THRESHOLD <= limit
    ensures var b := ItemBytes(items[i]);
            && Sized(CrowdingCut(items, j, i), limit)
            && Concat(CrowdingCut(items, j, i)) == ItemStream(items[..i]) + b[..|b| - 1]
  {
    var b := ItemBytes(items[i]);
    var before, piece, last := ItemStream(items[..j]), ItemStream(items[j..i]) + b[..1], b[1..|b| - 1];
    assert |piece| == Span(items, j, i) + 1;
    hide WellFormed, ItemBytes, ItemStream, Bytewise, Sized, Concat, Span;
    BytewiseSized(before, limit);
    CutWithSized(Bytewise(before), piece, last, limit);
    CutConcats(Bytewise(before), piece, last);
    PieceJoins(items, j, i);
  }

  lemma PieceJoins(items: seq<Item>, j: nat, i: nat)
    requires j <= i < |items| && forall k :: 0 <= k < |items| ==> WellFormed(items[k])
    ensures var b := ItemBytes(items[i]);
            ItemStream(items[..j]) + (ItemStream(items[j..i]) + b[..1] + b[1..|b| - 1])
            == ItemStream(items[..i]) + b[..|b| - 1]
  {
    hide WellFormed, ItemBytes, ItemStream;
    var b, before, middle := ItemBytes(items[i]), ItemStream(items[..j]), ItemStream(items[j..i]);
    assert items[..i] == items[..j] + items[j..i];
    StreamSplit(items[..j], items[j..i]);
    assert b[..1] + b[1..|b| - 1] == b[..|b| - 1];
    assert middle + b[..1] + b[1..|b| - 1] == middle + b[..|b| - 1];
  }

  lemma OneSized(chunk: seq<byte>, limit: nat)
    requires 1 <= |chunk| <= limit
    ensures Sized([chunk], limit)
  {
  }

  lemma CutConcats(a: seq<seq<byte>>, big: seq<byte>, last: seq<byte>)
    ensures Concat(a + ([big] + Bytewise(last))) == Concat(a) + (big + last)
  {
    hide Concat, Bytewise;
    BytewiseSized(last, 1);
    ConcatOne(big);
    ConcatSplit([big], Bytewise(last));
    ConcatSplit(a, [big] + Bytewise(last));
  }

  lemma CutIsWhole(items: seq<Item>, i: nat, n: nat, width: nat)
    requires i < |items| && forall k :: 0 <= k < |items| ==> WellFormed(items[k])
    requires n <= |ItemBytes(items[i])|
    requires width <= |ItemBytes(items[i])[n..] + ItemStream(items[i + 1..])|
    ensures var b := ItemBytes(items[i]); var tail := b[n..] + ItemStream(items[i + 1..]);
            ItemStream(items[..i]) + b[..n] + (tail[..width] + tail[width..]) == ItemStream(items)
  {
    hide WellFormed, ItemBytes, ItemStream;
    var b, after, before := ItemBytes(items[i]), ItemStream(items[i + 1..]), ItemStream(items[..i]);
    var tail := b[n..] + after;
    StreamFirst(items, i);
    assert items == items[..i] + items[i..];
    StreamSplit(items[..i], items[i..]);
    assert tail[..width] + tail[width..] == tail;
    assert before + b[..n] + tail == before + (b + after);
  }

  lemma CutWithSized(cut: seq<seq<byte>>, big: seq<byte>, last: seq<byte>, limit: nat)
    requires Sized(cut, limit) && 1 <= |big| <= limit
    ensures Sized(cut + ([big] + Bytewise(last)), limit)
  {
    hide Bytewise, Sized;
    OneSized(big, limit);
    BytewiseSized(last, limit);
    SizedJoin([big], Bytewise(last), limit);
    SizedJoin(cut, [big] + Bytewise(last), limit);
  }

  /** The cut that brings the most bytes on top of the fullest buffer is refused. */
  lemma CrowdedCutIsRefused(items: seq<Item>, limit: nat, j: nat, i: nat) returns (payloads: seq<seq<byte>>)
    requires j <= i < |items| && forall k :: 0 <= k < |items| ==> WellFormed(items[k])
    requires Span(items, j, i) < COMPACTION_THRESHOLD <= limit
    requires Crowding(items, limit, j, i) > MAXIMUM_MEDIA_BUFFER
    ensures Sized(payloads, limit) && Concat(payloads) == ItemStream(items)
    ensures FeedWithin(0, [], payloads).refused
  {
    hide WellFormed, ItemBytes, ItemStream, Bytewise, Sized, Concat, CrowdingCut, Span, FeedWithin;
    var b, after, cut := ItemBytes(items[i]), ItemStream(items[i + 1..]), CrowdingCut(items, j, i);
    var n := |b| - 1;
    var tail := b[n..] + after;
    var width := Min(limit, |tail|);
    var big, last := tail[..width], tail[width..];
    payloads := cut + ([big] + Bytewise(last));
    CutIsSized(items, limit, j, i);
    CutWithSized(cut, big, last, limit);
    CutConcats(cut, big, last);
    CutIsWhole(items, i, n, width);
    CutCrowds(items, j, i);
    TooMuchIsRefused(Span(items, j, i), b[..n], big, Bytewise(last));
    JoinReceptions(0, [], cut, [big] + Bytewise(last));
  }

  lemma TooMuchIsRefused(offset: nat, rest: seq<byte>, big: seq<byte>, more: seq<seq<byte>>)
    ensures Exceeds(offset, rest, big) ==> FeedWithin(offset, rest, [big] + more).refused
  {
  }

  // ---- Main results ----

  /**
   The exact condition that a sender can check on the lengths of its records. Payloads of at most
   32 MiB, as packets carry them, are taken however they cut a stream of well-formed records exactly
   when no record, short of its last byte, leaves too little room for the payload that completes it,
   counting the consumed records in front of it up to the compaction threshold.
   */
  lemma TakenExactlyWhenRoomy(items: seq<Item>)
    requires forall k :: 0 <= k < |items| ==> WellFormed(items[k])
    ensures AlwaysTaken(items, MAXIMUM_WIRE_BODY) <==> Roomy(items, MAXIMUM_WIRE_BODY)
  {
    hide WellFormed, ItemStream, ItemBytes, FeedWithin, Concat, Span, Crowding, Sized, ItemRecords;
    var limit := MAXIMUM_WIRE_BODY;
    if Roomy(items, limit) {
      forall payloads | Sized(payloads, limit) && Concat(payloads) == ItemStream(items)
        ensures Whole(items, FeedWithin(0, [], payloads)) {
        RoomyStreamIsTaken(items, limit, payloads);
      }
    } else {
      var j, i :| 0 <= j <= i < |items| && Span(items, j, i) < COMPACTION_THRESHOLD
                  && Crowding(items, limit, j, i) > MAXIMUM_MEDIA_BUFFER;
      var payloads := CrowdedCutIsRefused(items, limit, j, i);
      assert !AlwaysTaken(items, limit);
    }
  }

  lemma RoomyStreamIsTaken(items: seq<Item>, limit: nat, payloads: seq<seq<byte>>)
    requires forall k :: 0 <= k < |items| ==> WellFormed(items[k])
    requires Roomy(items, limit) && Sized(payloads, limit) && Concat(payloads) == ItemStream(items)
    ensures Whole(items, FeedWithin(0, [], payloads))
  {
    hide WellFormed, ItemStream, FeedWithin, Concat, Span, Roomy, Whole;
    NoSpan(items, 0);
    assert items[0..] == items && [] + Concat(payloads) == Concat(payloads);
    RoomyIsTaken(items, limit, 0, 0, [], payloads);
    TakenIsWhole(items, payloads);
  }

  /** Payloads of up to 31 MiB - 8 KiB are always taken. */
  lemma ModestPayloadsAreTaken(items: seq<Item>, payloads: seq<seq<byte>>)
    requires forall k :: 0 <= k < |items| ==> WellFormed(items[k])
    requires Sized(payloads, MAXIMUM_WIRE_BODY - 1024 * 1024 - 8192) && Concat(payloads) == ItemStream(items)
    ensures Whole(items, FeedWithin(0, [], payloads))
  {
    hide ItemStream, FeedWithin, Concat, Span, Whole;
    var limit := MAXIMUM_WIRE_BODY - 1024 * 1024 - 8192;
    forall j, i | 0 <= j <= i < |items| && Span(items, j, i) < COMPACTION_THRESHOLD
      ensures Crowding(items, limit, j, i) <= MAXIMUM_MEDIA_BUFFER {
      LongestRecord(items[i]);
    }
    hide WellFormed;
    RoomyStreamIsTaken(items, limit, payloads);
  }

  lemma LongestRecord(item: Item)
    requires WellFormed(item)
    ensures |ItemBytes(item)| <= MAXIMUM_RECORD
  {
  }

  /** A keyframe whose payload is `n` zeros. */
  function Plain(n: nat): (item: Item)
    requires n <= MAXIMUM_WIRE_BODY && n % 8 == 0
    ensures WellFormed(item) && |ItemBytes(item)| == 24 + n
  {
    VideoItem(true, 0, false, 0, [0, 0, 0, 0], [], seq(n, i requires 0 <= i < n => 0), [])
  }

  /** A concrete one that is not roomy: two keyframes of 32 MiB, as two packets can cut them. */
  lemma LargestRecordCanBeRefused() returns (payloads: seq<seq<byte>>)
    ensures var frame := Plain(MAXIMUM_WIRE_BODY);
            && Sized(payloads, MAXIMUM_WIRE_BODY) && Concat(payloads) == ItemStream([frame, frame])
            && FeedWithin(0, [], payloads).refused
  {
    var frame := Plain(MAXIMUM_WIRE_BODY);
    var items := [frame, frame];
    hide Plain, WellFormed, ItemBytes, FeedWithin, Concat;
    assert items[1..] == [frame] && [frame][1..] == [];
    NoSpan(items, 0);
    hide ItemStream, Span;
    payloads := CrowdedCutIsRefused(items, MAXIMUM_WIRE_BODY, 0, 0);
  }
}

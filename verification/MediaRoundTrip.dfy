/** Well-formed media records, and the proof that a stream of them parses back through noise. */
module MediaRoundTrip {
  import opened Bytes
  import opened Prelude
  import opened WireStream
  import opened MediaFormat

  /** What a camera sends: the fields the parser reads and those it ignores. */
  datatype Item =
    | InformationItem(second: bool, width: nat, height: nat, before: byte, fps: byte, after: seq<byte>)
    | VideoItem(keyframe: bool, channel: nat, hevc: bool, timestamp: nat, reserved: seq<byte>,
                additional: seq<byte>, payload: seq<byte>, padding: seq<byte>)
    | AudioItem(second: bool, reserved: seq<byte>, payload: seq<byte>, padding: seq<byte>)

  predicate WellFormed(item: Item) {
    match item
    case InformationItem(_, width, height, _, _, after) =>
      width < U32_LIMIT && height < U32_LIMIT && |after| == 18
    case VideoItem(_, channel, _, timestamp, reserved, additional, payload, padding) =>
      && channel < 10 && timestamp < U32_LIMIT && |reserved| == 4
      && |additional| <= MAXIMUM_ADDITIONAL && |payload| <= MAXIMUM_WIRE_BODY && |padding| == Padding(|payload|)
    case AudioItem(_, reserved, payload, padding) =>
      |reserved| == 2 && |payload| < U16_LIMIT && |padding| == Padding(|payload|)
  }

  function InformationBytes(item: Item): (b: seq<byte>)
    requires item.InformationItem? && WellFormed(item)
    ensures |b| == 36
  {
    U32(if item.second then 0x32303031 else 0x31303031) + U32(32) + U32(item.width) + U32(item.height)
    + [item.before, item.fps] + item.after
  }

  function VideoHeader(item: Item): (b: seq<byte>)
    requires item.VideoItem? && WellFormed(item)
    ensures |b| == 24
  {
    U32((if item.keyframe then 0x63643030 else 0x63643130) + item.channel) + (if item.hevc then H265 else H264)
    + U32(|item.payload|) + U32(|item.additional|) + U32(item.timestamp) + item.reserved
  }

  function VideoBytes(item: Item): (b: seq<byte>)
    requires item.VideoItem? && WellFormed(item)
    ensures |b| == 24 + |item.additional| + |item.payload| + |item.padding|
  {
    VideoHeader(item) + item.additional + item.payload + item.padding
  }

  function AudioBytes(item: Item): (b: seq<byte>)
    requires item.AudioItem? && WellFormed(item)
    ensures |b| == 8 + |item.payload| + |item.padding|
  {
    U32(if item.second then 0x62773130 else 0x62773530) + U16(|item.payload|) + item.reserved
    + item.payload + item.padding
  }

  function ItemBytes(item: Item): (b: seq<byte>)
    requires WellFormed(item)
    ensures |b| >= 8
  {
    match item
    case InformationItem(_, _, _, _, _, _) => InformationBytes(item)
    case VideoItem(_, _, _, _, _, _, _, _) => VideoBytes(item)
    case AudioItem(_, _, _, _) => AudioBytes(item)
  }

  /** The record an item must come back as; audio is consumed without one. */
  function RecordsOf(item: Item): seq<Record> {
    match item
    case InformationItem(_, width, height, _, fps, _) => [Information(AsInt32(width), AsInt32(height), fps)]
    case VideoItem(keyframe, _, hevc, timestamp, _, _, payload, _) => [Video(hevc, keyframe, timestamp, payload)]
    case AudioItem(_, _, _, _) => []
  }

  // ---- Reading the fields back ----

  lemma InformationParses(item: Item, rest: seq<byte>)
    requires item.InformationItem? && WellFormed(item)
    ensures Look(InformationBytes(item) + rest) == Emit(RecordsOf(item)[0], 36)
  {
    hide U32, ReadU32;
    var s := InformationBytes(item) + rest;
    var magic := if item.second then 0x32303031 else 0x31303031;
    assert s[0..4] == U32(magic) && s[4..8] == U32(32) && s[8..12] == U32(item.width) && s[12..16] == U32(item.height);
    assert s[17] == item.fps;
    hide InformationBytes;
    Field32(s, 0, magic);
    Field32(s, 4, 32);
    Field32(s, 8, item.width);
    Field32(s, 12, item.height);
  }

  lemma VideoHeaderFields(item: Item, s: seq<byte>)
    requires item.VideoItem? && WellFormed(item) && |s| >= 24 && s[..24] == VideoHeader(item)
    ensures ReadU32(s, 0) == (if item.keyframe then 0x63643030 else 0x63643130) + item.channel
    ensures s[4..8] == if item.hevc then H265 else H264
    ensures ReadU32(s, 8) == |item.payload| && ReadU32(s, 12) == |item.additional| && ReadU32(s, 16) == item.timestamp
  {
    hide U32, ReadU32;
    var h := VideoHeader(item);
    var magic := (if item.keyframe then 0x63643030 else 0x63643130) + item.channel;
    assert h[0..4] == U32(magic) && h[8..12] == U32(|item.payload|);
    assert h[12..16] == U32(|item.additional|) && h[16..20] == U32(item.timestamp);
    assert h[4..8] == if item.hevc then H265 else H264;
    hide VideoHeader;
    HeadSlices(s, h);
    Field32(s, 0, magic);
    Field32(s, 8, |item.payload|);
    Field32(s, 12, |item.additional|);
    Field32(s, 16, item.timestamp);
  }

  lemma HeadSlices(s: seq<byte>, h: seq<byte>)
    requires |s| >= |h| == 24 && s[..24] == h
    ensures s[0..4] == h[0..4] && s[4..8] == h[4..8] && s[8..12] == h[8..12]
    ensures s[12..16] == h[12..16] && s[16..20] == h[16..20]
  {
    assert forall i :: 0 <= i < 24 ==> s[i] == h[i];
  }

  lemma VideoParses(item: Item, rest: seq<byte>)
    requires item.VideoItem? && WellFormed(item)
    ensures Look(VideoBytes(item) + rest) == Emit(RecordsOf(item)[0], |VideoBytes(item)|)
  {
    hide U32, ReadU32, Padding;
    var s := VideoBytes(item) + rest;
    assert s[..24] == VideoHeader(item);
    var begin := 24 + |item.additional|;
    assert s[begin..begin + |item.payload|] == item.payload;
    hide VideoHeader;
    VideoHeaderFields(item, s);
    hide VideoBytes;
    assert H264 != H265 by { assert H264[3] != H265[3]; }
    MagicIsVideo(ReadU32(s, 0), item.keyframe, item.channel);
  }

  lemma MagicIsVideo(magic: nat, keyframe: bool, channel: nat)
    requires channel < 10 && magic == (if keyframe then 0x63643030 else 0x63643130) + channel
    ensures IsMediaMagic(magic) && IsVideo(magic) && !IsInformation(magic) && (IsKeyframe(magic) <==> keyframe)
  {
  }

  lemma AudioParses(item: Item, rest: seq<byte>)
    requires item.AudioItem? && WellFormed(item)
    ensures Look(AudioBytes(item) + rest) == Skip(|AudioBytes(item)|)
  {
    hide U32, U16, ReadU32, ReadU16, Padding;
    var s := AudioBytes(item) + rest;
    var magic := if item.second then 0x62773130 else 0x62773530;
    assert s[0..4] == U32(magic) && s[4..6] == U16(|item.payload|);
    Field32(s, 0, magic);
    Field16(s, 4, |item.payload|);
  }

  /** A well-formed item in front of anything is seen whole. */
  lemma ItemLooks(item: Item, rest: seq<byte>)
    requires WellFormed(item)
    ensures var v, n := Look(ItemBytes(item) + rest), |ItemBytes(item)|;
            v == if item.AudioItem? then Skip(n) else Emit(RecordsOf(item)[0], n)
  {
    hide Look;
    match item {
      case InformationItem(_, _, _, _, _, _) => InformationParses(item, rest);
      case VideoItem(_, _, _, _, _, _, _, _) => VideoParses(item, rest);
      case AudioItem(_, _, _, _) => AudioParses(item, rest);
    }
    hide InformationBytes, VideoBytes, AudioBytes;
  }

  /** It is consumed whole and yields its own record. */
  lemma ItemDrains(item: Item, rest: seq<byte>)
    requires WellFormed(item)
    ensures Drain(ItemBytes(item) + rest) == Drain(rest).(records := RecordsOf(item) + Drain(rest).records)
  {
    var b := ItemBytes(item);
    ItemLooks(item, rest);
    hide Look, ItemBytes, WellFormed;
    assert (b + rest)[|b|..] == rest;
    assert [] + Drain(rest).records == Drain(rest).records;
  }

  // ---- Whatever is seen whole was an item ----

  predicate Stands(item: Item, s: seq<byte>) {
    WellFormed(item) && |ItemBytes(item)| <= |s| && s[..|ItemBytes(item)|] == ItemBytes(item)
  }

  /** What the parser makes of an item that stands at the front. */
  function Seen(item: Item): Verdict
    requires WellFormed(item)
  {
    if item.AudioItem? then Skip(|ItemBytes(item)|) else Emit(RecordsOf(item)[0], |ItemBytes(item)|)
  }

  lemma InformationStands(s: seq<byte>) returns (item: Item)
    requires |s| >= 36 && IsInformation(ReadU32(s, 0)) && ReadU32(s, 4) == 32
    ensures Stands(item, s) && Seen(item) == LookInformation(s)
  {
    item := InformationItem(ReadU32(s, 0) == 0x32303031, ReadU32(s, 8), ReadU32(s, 12), s[16], s[17], s[18..36]);
    U32Canonical(s, 0);
    U32Canonical(s, 4);
    U32Canonical(s, 8);
    U32Canonical(s, 12);
    hide U32, ReadU32;
    assert s[..36] == s[0..4] + s[4..8] + s[8..12] + s[12..16] + [s[16], s[17]] + s[18..36];
  }

  lemma VideoHeaderStands(s: seq<byte>, item: Item)
    requires |s| >= 24 && IsVideo(ReadU32(s, 0)) && item.VideoItem? && WellFormed(item)
    requires item.keyframe == IsKeyframe(ReadU32(s, 0)) && s[4..8] == (if item.hevc then H265 else H264)
    requires item.channel == ReadU32(s, 0) - (if item.keyframe then 0x63643030 else 0x63643130)
    requires |item.payload| == ReadU32(s, 8) && |item.additional| == ReadU32(s, 12)
    requires item.timestamp == ReadU32(s, 16) && item.reserved == s[20..24]
    ensures VideoHeader(item) == s[..24]
  {
    U32Canonical(s, 0);
    U32Canonical(s, 8);
    U32Canonical(s, 12);
    U32Canonical(s, 16);
    hide U32, ReadU32;
    assert s[..24] == s[0..4] + s[4..8] + s[8..12] + s[12..16] + s[16..20] + s[20..24];
  }

  lemma VideoStands(s: seq<byte>) returns (item: Item)
    requires |s| >= 24 && IsVideo(ReadU32(s, 0)) && LookVideo(s).Emit?
    ensures Stands(item, s) && Seen(item) == LookVideo(s)
  {
    var key, size, extra := IsKeyframe(ReadU32(s, 0)), ReadU32(s, 8), ReadU32(s, 12);
    var begin, end := 24 + extra, 24 + extra + size;
    item := VideoItem(key, ReadU32(s, 0) - (if key then 0x63643030 else 0x63643130), s[4..8] == H265,
                      ReadU32(s, 16), s[20..24], s[24..begin], s[begin..end], s[end..VideoLength(s)]);
    VideoHeaderStands(s, item);
    hide ReadU32, VideoHeader, IsVideo, IsKeyframe, Padding;
    assert s[..VideoLength(s)] == s[..24] + s[24..begin] + s[begin..end] + s[end..VideoLength(s)];
  }

  lemma AudioStands(s: seq<byte>) returns (item: Item)
    requires |s| >= 8 && IsAudio(ReadU32(s, 0)) && LookAudio(s).Skip?
    ensures Stands(item, s) && Seen(item) == LookAudio(s)
  {
    var size := ReadU16(s, 4);
    item := AudioItem(ReadU32(s, 0) == 0x62773130, s[6..8], s[8..8 + size], s[8 + size..AudioLength(s)]);
    U32Canonical(s, 0);
    U16Canonical(s, 4);
    hide U32, ReadU32, U16, ReadU16, Padding;
    assert s[..AudioLength(s)] == s[0..4] + s[4..6] + s[6..8] + s[8..8 + size] + s[8 + size..AudioLength(s)];
  }

  /** The bytes at the front cannot begin a record, as soon as that can be told. */
  predicate NoRecord(s: seq<byte>) {
    |s| >= 4 &&
    if IsInformation(ReadU32(s, 0)) then |s| >= 36 && ReadU32(s, 4) != 32
    else if IsVideo(ReadU32(s, 0)) then |s| >= 24 && s[4..8] != H264 && s[4..8] != H265
    else !IsAudio(ReadU32(s, 0))
  }

  /** A video record announces more than a camera may send. */
  predicate TooLarge(s: seq<byte>) {
    && |s| >= 24 && IsVideo(ReadU32(s, 0)) && (s[4..8] == H264 || s[4..8] == H265)
    && (ReadU32(s, 8) > 0x200_0000 || ReadU32(s, 12) > 4096)
  }

  /**
   The parser sees a record exactly where a well-formed one stands whole at the front, and then that
   one; it steps over one byte exactly where none can begin, and fails exactly on a frame that is too large.
   */
  lemma SeesExactly(s: seq<byte>)
    ensures forall item :: Stands(item, s) ==> Look(s) == Seen(item)
    ensures Look(s).Emit? || (Look(s).Skip? && Look(s).count > 1) ==> exists item :: Stands(item, s)
    ensures Look(s) == Skip(1) <==> NoRecord(s)
    ensures Look(s).Invalid? <==> TooLarge(s)
    ensures Look(s).Invalid? ==> Look(s).failure == InvalidFrameSize
  {
    forall item | Stands(item, s) ensures Look(s) == Seen(item) {
      StandingIsSeen(item, s);
    }
    VerdictsAre(s);
    hide LookInformation, LookVideo, LookAudio, IsMediaMagic;
    if |s| >= 4 && IsInformation(ReadU32(s, 0)) && LookInformation(s).Emit? {
      var item := InformationStands(s);
    } else if |s| >= 4 && IsVideo(ReadU32(s, 0)) && LookVideo(s).Emit? {
      var item := VideoStands(s);
    } else if |s| >= 4 && IsAudio(ReadU32(s, 0)) && LookAudio(s).Skip? {
      var item := AudioStands(s);
    }
    hide Stands, Seen, ReadU32;
  }

  lemma StandingIsSeen(item: Item, s: seq<byte>)
    requires Stands(item, s)
    ensures Look(s) == Seen(item)
  {
    hide Look;
    var n := |ItemBytes(item)|;
    ItemLooks(item, s[n..]);
    hide ItemBytes, WellFormed;
    assert s == ItemBytes(item) + s[n..];
  }

  lemma VerdictsAre(s: seq<byte>)
    ensures Look(s) == Skip(1) <==> NoRecord(s)
    ensures Look(s).Invalid? <==> TooLarge(s)
    ensures Look(s).Invalid? ==> Look(s).failure == InvalidFrameSize
    ensures |s| >= 4 && IsInformation(ReadU32(s, 0)) ==>
              Look(s) == LookInformation(s) && !LookInformation(s).Invalid?
              && (LookInformation(s).Emit? ==> |s| >= 36 && ReadU32(s, 4) == 32)
              && (LookInformation(s).Skip? ==> LookInformation(s).count == 1)
    ensures |s| >= 4 && IsVideo(ReadU32(s, 0)) ==>
              Look(s) == LookVideo(s) && (LookVideo(s).Emit? ==> |s| >= 24)
              && (LookVideo(s).Skip? ==> LookVideo(s).count == 1)
    ensures |s| >= 4 && IsAudio(ReadU32(s, 0)) ==>
              Look(s) == LookAudio(s) && !LookAudio(s).Emit? && (LookAudio(s).Skip? ==> |s| >= 8)
    ensures |s| < 4 || !IsMediaMagic(ReadU32(s, 0)) ==> Look(s) == if |s| < 4 then NeedMore else Skip(1)
  {
    hide ReadU32, ReadU16;
  }

  // ---- Noise between records ----

  /** No four bytes starting inside `noise` look like a media magic. */
  predicate Quiet(noise: seq<byte>, next: seq<byte>) {
    forall i :: 0 <= i < |noise| && i + 4 <= |noise + next| ==> !IsMediaMagic(ReadU32(noise + next, i))
  }

  lemma {:induction false} NoiseIsSkipped(noise: seq<byte>, next: seq<byte>)
    requires Quiet(noise, next) && |next| >= 4
    ensures Drain(noise + next) == Drain(next)
    decreases |noise|
  {
    hide IsMediaMagic, ReadU32;
    var s := noise + next;
    if noise == [] {
      assert s == next;
    } else {
      var noise' := noise[1..];
      assert s[1..] == noise' + next;
      forall i | 0 <= i < |noise'| && i + 4 <= |noise' + next| ensures !IsMediaMagic(ReadU32(noise' + next, i)) {
        ReadShift(s, i);
      }
      assert !IsMediaMagic(ReadU32(s, 0));
      NoiseIsSkipped(noise', next);
    }
  }

  lemma ReadShift(s: seq<byte>, i: nat)
    requires i + 5 <= |s|
    ensures ReadU32(s[1..], i) == ReadU32(s, i + 1)
  {
  }

  lemma {:induction false} TrailingNoise(noise: seq<byte>)
    requires Quiet(noise, [])
    ensures Drain(noise).records == [] && Drain(noise).failure == None && |Drain(noise).rest| < 4
    decreases |noise|
  {
    hide IsMediaMagic, ReadU32;
    assert noise + [] == noise;
    if |noise| >= 4 {
      var noise' := noise[1..];
      assert noise' + [] == noise';
      forall i | 0 <= i < |noise'| && i + 4 <= |noise' + []| ensures !IsMediaMagic(ReadU32(noise' + [], i)) {
        ReadShift(noise, i);
      }
      assert !IsMediaMagic(ReadU32(noise, 0));
      TrailingNoise(noise');
    }
  }

  /** A stream: noise and then an item, over and over, and noise at the end. */
  datatype Part = Part(noise: seq<byte>, item: Item)

  function StreamBytes(parts: seq<Part>, tail: seq<byte>): seq<byte>
    requires forall i :: 0 <= i < |parts| ==> WellFormed(parts[i].item)
  {
    if parts == [] then tail
    else parts[0].noise + (ItemBytes(parts[0].item) + StreamBytes(parts[1..], tail))
  }

  function StreamRecords(parts: seq<Part>): seq<Record> {
    if parts == [] then [] else RecordsOf(parts[0].item) + StreamRecords(parts[1..])
  }

  predicate QuietStream(parts: seq<Part>, tail: seq<byte>) {
    && (forall i :: 0 <= i < |parts| ==> WellFormed(parts[i].item) && Quiet(parts[i].noise, ItemBytes(parts[i].item)))
    && Quiet(tail, [])
  }

  lemma QuietBefore(noise: seq<byte>, item: seq<byte>, rest: seq<byte>)
    requires Quiet(noise, item) && |item| >= 4
    ensures Quiet(noise, item + rest)
  {
    hide IsMediaMagic, ReadU32;
    forall i | 0 <= i < |noise| ensures !IsMediaMagic(ReadU32(noise + (item + rest), i)) {
      assert noise + (item + rest) == (noise + item) + rest;
      ReadPrefix(noise + item, rest, i);
    }
  }

  /**
   Round trip with resynchronisation: the information and video records come back in order with
   every field intact, through any noise that shows no media magic before the next record.
   */
  lemma {:induction false} StreamParsesBack(parts: seq<Part>, tail: seq<byte>)
    requires QuietStream(parts, tail)
    ensures var o := Drain(StreamBytes(parts, tail));
            o.records == StreamRecords(parts) && o.failure == None && |o.rest| < 4
  {
    hide Quiet, WellFormed, ItemBytes, Drain, RecordsOf;
    if parts == [] {
      TrailingNoise(tail);
    } else {
      var item, rest := ItemBytes(parts[0].item), StreamBytes(parts[1..], tail);
      QuietBefore(parts[0].noise, item, rest);
      NoiseIsSkipped(parts[0].noise, item + rest);
      ItemDrains(parts[0].item, rest);
      StreamParsesBack(parts[1..], tail);
    }
  }

  /** The same holds however the transport cuts the stream into chunks. */
  lemma ChunkedStreamParsesBack(parts: seq<Part>, tail: seq<byte>, chunks: seq<seq<byte>>)
    requires QuietStream(parts, tail) && Concat(chunks) == StreamBytes(parts, tail)
    ensures var f := Feed([], chunks); f.records == StreamRecords(parts) && f.failure == None
  {
    hide Feed, QuietStream, StreamBytes;
    StreamParsesBack(parts, tail);
    assert Drain([]) == Outcome([], [], None);
    hide Drain;
    ChunkIndependence([], chunks);
    assert [] + Concat(chunks) == Concat(chunks);
  }
}

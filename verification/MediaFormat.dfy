/** What the camera's media stream says at a given place, and how a whole stream drains. */
module MediaFormat {
  import opened Bytes
  import opened Prelude
  import opened WireStream

  const MAXIMUM_MEDIA_BUFFER: nat := 64 * 1024 * 1024
  const MAXIMUM_ADDITIONAL: nat := 4096

  const H264: seq<byte> := [0x48, 0x32, 0x36, 0x34]
  const H265: seq<byte> := [0x48, 0x32, 0x36, 0x35]

  datatype Record =
    | Information(width: int, height: int, fps: nat)
    | Video(hevc: bool, keyframe: bool, timestamp: nat, payload: seq<byte>)

  datatype Failure = InvalidFrameSize | InvalidVideoLength | InvalidAudioLength

  /** What the parser does with the unread bytes. */
  datatype Verdict = NeedMore | Skip(count: nat) | Emit(record: Record, count: nat) | Invalid(failure: Failure)

  predicate IsInformation(magic: nat) {
    magic == 0x31303031 || magic == 0x32303031
  }

  predicate IsKeyframe(magic: nat) {
    0x63643030 <= magic <= 0x63643039
  }

  predicate IsVideo(magic: nat) {
    IsKeyframe(magic) || 0x63643130 <= magic <= 0x63643139
  }

  predicate IsAudio(magic: nat) {
    magic == 0x62773530 || magic == 0x62773130
  }

  predicate IsMediaMagic(magic: nat) {
    IsInformation(magic) || IsVideo(magic) || IsAudio(magic)
  }

  /** A 32-bit field stored into a signed 32-bit integer. */
  function AsInt32(v: nat): (i: int)
    ensures v < U32_LIMIT ==> -0x8000_0000 <= i < 0x8000_0000 && i % U32_LIMIT == v
  {
    if v < 0x8000_0000 then v else v - U32_LIMIT
  }

  function Padding(size: nat): (p: nat)
    ensures p < 8 && (size + p) % 8 == 0
  {
    (8 - size % 8) % 8
  }

  function LookInformation(s: seq<byte>): (v: Verdict)
    ensures v.Skip? || v.Emit? ==> 1 <= v.count <= |s|
  {
    if |s| < 36 then NeedMore
    else if ReadU32(s, 4) != 32 then Skip(1)
    else Emit(Information(AsInt32(ReadU32(s, 8)), AsInt32(ReadU32(s, 12)), s[17]), 36)
  }

  /** The length of the video record whose 24-byte header starts `s`. */
  function VideoLength(s: seq<byte>): nat
    requires |s| >= 24
  {
    24 + ReadU32(s, 12) + ReadU32(s, 8) + Padding(ReadU32(s, 8))
  }

  function LookVideo(s: seq<byte>): (v: Verdict)
    requires |s| >= 4
    ensures v.Skip? || v.Emit? ==> 1 <= v.count <= |s|
  {
    if |s| < 24 then NeedMore
    else if s[4..8] != H264 && s[4..8] != H265 then Skip(1)
    else if ReadU32(s, 8) > MAXIMUM_WIRE_BODY || ReadU32(s, 12) > MAXIMUM_ADDITIONAL then Invalid(InvalidFrameSize)
    else if VideoLength(s) > MAXIMUM_MEDIA_BUFFER then Invalid(InvalidVideoLength)
    else if |s| < VideoLength(s) then NeedMore
    else
      var begin := 24 + ReadU32(s, 12);
      Emit(Video(s[4..8] == H265, IsKeyframe(ReadU32(s, 0)), ReadU32(s, 16), s[begin..begin + ReadU32(s, 8)]),
           VideoLength(s))
  }

  function AudioLength(s: seq<byte>): nat
    requires |s| >= 8
  {
    8 + ReadU16(s, 4) + Padding(ReadU16(s, 4))
  }

  function LookAudio(s: seq<byte>): (v: Verdict)
    ensures v.Skip? || v.Emit? ==> 1 <= v.count <= |s|
  {
    if |s| < 8 then NeedMore
    else if AudioLength(s) > MAXIMUM_MEDIA_BUFFER then Invalid(InvalidAudioLength)
    else if |s| < AudioLength(s) then NeedMore
    else Skip(AudioLength(s))
  }

  /** One look at the unread bytes; whatever is consumed is at least one byte and no more than there are. */
  function Look(s: seq<byte>): (v: Verdict)
    ensures v.Skip? || v.Emit? ==> 1 <= v.count <= |s|
  {
    if |s| < 4 then NeedMore
    else if !IsMediaMagic(ReadU32(s, 0)) then Skip(1)
    else if IsInformation(ReadU32(s, 0)) then LookInformation(s)
    else if IsVideo(ReadU32(s, 0)) then LookVideo(s)
    else LookAudio(s)
  }

  /** Everything a parser fed with `s` produces, and where it stops. */
  datatype Outcome = Outcome(records: seq<Record>, rest: seq<byte>, failure: Option<Failure>)

  function Drain(s: seq<byte>): Outcome
    decreases |s|
  {
    match Look(s)
    case NeedMore => Outcome([], s, None)
    case Skip(n) => Drain(s[n..])
    case Emit(r, n) => var o := Drain(s[n..]); o.(records := [r] + o.records)
    case Invalid(f) => Outcome([], s, Some(f))
  }

  // ---- A decision once taken does not depend on later bytes ----

  lemma ReadPrefix(s: seq<byte>, t: seq<byte>, at: nat)
    ensures at + 4 <= |s| ==> ReadU32(s + t, at) == ReadU32(s, at)
    ensures at + 2 <= |s| ==> ReadU16(s + t, at) == ReadU16(s, at)
  {
  }

  lemma InformationStable(s: seq<byte>, t: seq<byte>)
    requires !LookInformation(s).NeedMore?
    ensures LookInformation(s + t) == LookInformation(s)
  {
    ReadPrefix(s, t, 4);
    ReadPrefix(s, t, 8);
    ReadPrefix(s, t, 12);
    hide ReadU32;
  }

  lemma VideoStable(s: seq<byte>, t: seq<byte>)
    requires |s| >= 4 && !LookVideo(s).NeedMore?
    ensures LookVideo(s + t) == LookVideo(s)
  {
    ReadPrefix(s, t, 0);
    ReadPrefix(s, t, 8);
    ReadPrefix(s, t, 12);
    ReadPrefix(s, t, 16);
    hide ReadU32, Padding;
    assert (s + t)[4..8] == s[4..8];
    var begin := 24 + ReadU32(s, 12);
    if |s| >= VideoLength(s) {
      assert (s + t)[begin..begin + ReadU32(s, 8)] == s[begin..begin + ReadU32(s, 8)];
    }
  }

  lemma AudioStable(s: seq<byte>, t: seq<byte>)
    requires !LookAudio(s).NeedMore?
    ensures LookAudio(s + t) == LookAudio(s)
  {
    ReadPrefix(s, t, 4);
    hide ReadU16, Padding;
  }

  lemma LookStable(s: seq<byte>, t: seq<byte>)
    requires !Look(s).NeedMore?
    ensures Look(s + t) == Look(s)
  {
    ReadPrefix(s, t, 0);
    hide ReadU32, IsMediaMagic, IsInformation, IsVideo, LookInformation, LookVideo, LookAudio;
    if IsInformation(ReadU32(s, 0)) && !LookInformation(s).NeedMore? {
      InformationStable(s, t);
    }
    if IsVideo(ReadU32(s, 0)) && !LookVideo(s).NeedMore? {
      VideoStable(s, t);
    }
    if !LookAudio(s).NeedMore? {
      AudioStable(s, t);
    }
  }

  /** Draining `s` and then the rest with `t` gives what draining `s + t` at once gives. */
  lemma {:induction false} DrainSplit(s: seq<byte>, t: seq<byte>)
    ensures var o, whole := Drain(s), Drain(s + t);
            if o.failure.Some? then whole.records == o.records && whole.failure == o.failure
            else
              var next := Drain(o.rest + t);
              whole == Outcome(o.records + next.records, next.rest, next.failure)
    decreases |s|
  {
    hide Look;
    var v := Look(s);
    if !v.NeedMore? {
      LookStable(s, t);
    }
    match v
    case NeedMore => assert [] + Drain(s + t).records == Drain(s + t).records;
    case Skip(n) =>
      assert (s + t)[n..] == s[n..] + t;
      DrainSplit(s[n..], t);
    case Emit(record, n) =>
      DrainSplit(s[n..], t);
      DrainSplitEmit(s, t);
    case Invalid(_) =>
  }

  lemma DrainSplitEmit(s: seq<byte>, t: seq<byte>)
    requires Look(s).Emit? && Look(s + t) == Look(s)
    ensures var v := Look(s);
            var o, whole := Drain(s[v.count..]), Drain(s[v.count..] + t);
            && Drain(s) == Outcome([v.record] + o.records, o.rest, o.failure)
            && Drain(s + t) == Outcome([v.record] + whole.records, whole.rest, whole.failure)
            && forall more :: [v.record] + (o.records + more) == [v.record] + o.records + more
  {
    hide Look;
    assert (s + t)[Look(s).count..] == s[Look(s).count..] + t;
  }

  /** Appending the chunks one by one, draining after each, until a failure. */
  function Feed(rest: seq<byte>, chunks: seq<seq<byte>>): Outcome
    decreases |chunks|
  {
    if chunks == [] then Outcome([], rest, None)
    else
      var o := Drain(rest + chunks[0]);
      if o.failure.Some? then o
      else var next := Feed(o.rest, chunks[1..]); next.(records := o.records + next.records)
  }

  /** A rest left by draining holds no complete record. */
  lemma {:induction false} RestNeedsMore(s: seq<byte>)
    ensures var rest := Drain(s).rest;
            Drain(s).failure.None? ==> Look(rest).NeedMore? && Drain(rest) == Outcome([], rest, None)
    decreases |s|
  {
    hide Look;
    var v := Look(s);
    if v.Skip? || v.Emit? {
      RestNeedsMore(s[v.count..]);
    }
  }

  /**
   Chunk independence: for every stream and every way of cutting it, the records and the failure
   are those of a single append; without a failure the unread rest is the same too.
   */
  lemma {:induction false} ChunkIndependence(rest: seq<byte>, chunks: seq<seq<byte>>)
    requires Drain(rest) == Outcome([], rest, None)
    ensures var f, whole := Feed(rest, chunks), Drain(rest + Concat(chunks));
            f.records == whole.records && f.failure == whole.failure && (f.failure.None? ==> f.rest == whole.rest)
    decreases |chunks|
  {
    hide Drain;
    if chunks == [] {
      assert rest + Concat(chunks) == rest;
    } else {
      var s, t := rest + chunks[0], Concat(chunks[1..]);
      assert rest + Concat(chunks) == s + t;
      DrainSplit(s, t);
      RestNeedsMore(s);
      if Drain(s).failure.None? {
        ChunkIndependence(Drain(s).rest, chunks[1..]);
      }
    }
  }

  /** The length checks against the buffer limit can never fail: no record is that long. */
  lemma LengthsAlwaysFit(s: seq<byte>)
    ensures !(Look(s).Invalid? && (Look(s).failure.InvalidVideoLength? || Look(s).failure.InvalidAudioLength?))
  {
    hide ReadU32, ReadU16, IsMediaMagic, IsInformation, IsVideo;
  }

  const MAXIMUM_RECORD: nat := 24 + MAXIMUM_ADDITIONAL + MAXIMUM_WIRE_BODY + 8

  /** The parser never waits for more than one longest record. */
  lemma WaitIsBounded(s: seq<byte>)
    requires Look(s).NeedMore?
    ensures |s| < MAXIMUM_RECORD
  {
    hide ReadU32, ReadU16, IsMediaMagic, IsInformation, IsVideo;
  }
}

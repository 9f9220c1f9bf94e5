/** The supervisor's decoding loop, and why it is the exact inverse of the executor's encoding. */
module HookDecoding {
  import opened Bytes
  import opened HookCodec

  lemma {:induction false} ParseBodyRoundTrip(argv: seq<Argument>)
    requires Encodable(argv)
    ensures ParseBody(BodyBytes(argv), |argv|) == LaunchRequest(0, argv)
  {
    if argv != [] {
      var body, n := BodyBytes(argv), |argv[0]|;
      U32RoundTrip(n);
      assert body[0..4] == U32(n);
      ReadAt(body, 0, U32(n));
      assert body[4..4 + n] == argv[0];
      assert body[4 + n..] == BodyBytes(argv[1..]);
      ParseBodyRoundTrip(argv[1..]);
      assert argv == [argv[0]] + argv[1..];
    }
  }

  lemma EncodableCons(first: Argument, rest: seq<Argument>)
    requires Encodable(rest) && |rest| + 1 < U32_LIMIT && |first| < U32_LIMIT
    ensures Encodable([first] + rest)
    ensures BodyBytes([first] + rest) == U32(|first|) + first + BodyBytes(rest)
  {
    hide U32;
    var argv := [first] + rest;
    assert argv[0] == first && argv[1..] == rest;
    forall i | 0 <= i < |argv| ensures |argv[i]| < U32_LIMIT {
      assert i > 0 ==> argv[i] == rest[i - 1];
    }
  }

  lemma Reassemble(body: seq<byte>, first: Argument, rest: seq<Argument>)
    requires 4 <= |body| && ReadU32(body, 0) <= |body| - 4
    requires first == body[4..4 + ReadU32(body, 0)]
    requires Encodable(rest) && |rest| + 1 < U32_LIMIT && body[4 + ReadU32(body, 0)..] == BodyBytes(rest)
    ensures Encodable([first] + rest) && body == BodyBytes([first] + rest)
  {
    hide U32, ReadU32, BodyBytes, Encodable;
    EncodableCons(first, rest);
    U32Canonical(body, 0);
    var end := 4 + |first|;
    assert body == body[0..4] + body[4..end] + body[end..];
  }

  lemma {:induction false} ParseBodyCanonical(body: seq<byte>, count: nat)
    requires count < U32_LIMIT && ParseBody(body, count).LaunchRequest?
    ensures var argv := ParseBody(body, count).argv;
            |argv| == count && Encodable(argv) && body == BodyBytes(argv)
  {
    hide BodyBytes;
    if count > 0 {
      var end := 4 + ReadU32(body, 0);
      ParseBodyCanonical(body[end..], count - 1);
      Reassemble(body, body[4..end], ParseBody(body[end..], count - 1).argv);
    } else {
      NoArguments([]);
    }
  }

  lemma EncodingDecodes(id: nat, argv: seq<Argument>)
    requires argv != [] && argv[0] != [] && id < U64_LIMIT && Encodable(argv)
    ensures Decode(LaunchBytes(id, argv)) == LaunchRequest(id, argv)
  {
    hide BodyBytes, ParseBody, ReadU32, ReadU64, HeaderBytes;
    var packet := LaunchBytes(id, argv);
    HeaderFields(REQUEST_LAUNCH, |argv|, id, BodyBytes(argv));
    assert packet[HEADER_SIZE..] == BodyBytes(argv);
    ParseBodyRoundTrip(argv);
  }

  lemma DecodedIsEncoding(packet: seq<byte>)
    requires Decode(packet).LaunchRequest?
    ensures var r := Decode(packet);
            r.argv != [] && r.argv[0] != [] && r.jobId < U64_LIMIT && Encodable(r.argv) &&
            packet == LaunchBytes(r.jobId, r.argv)
  {
    hide BodyBytes, ParseBody, ReadU32, ReadU64, U32, U64;
    var body := packet[HEADER_SIZE..];
    ParseBodyCanonical(body, ReadU32(packet, 4));
    U32Canonical(packet, 0);
    U32Canonical(packet, 4);
    U64Canonical(packet, 8);
    assert packet == packet[0..4] + packet[4..8] + packet[8..16] + body;
  }

  /**
   The codec is a two-sided inverse: a packet decodes to a launch of `argv` exactly when
   it is the encoding of that launch and `argv` names a program.
   */
  lemma CodecInverse(packet: seq<byte>, id: nat, argv: seq<Argument>)
    ensures Decode(packet) == LaunchRequest(id, argv) <==>
            argv != [] && argv[0] != [] && id < U64_LIMIT && Encodable(argv) && packet == LaunchBytes(id, argv)
  {
    hide BodyBytes, Decode, LaunchBytes;
    if Decode(packet) == LaunchRequest(id, argv) {
      DecodedIsEncoding(packet);
    } else if argv != [] && argv[0] != [] && id < U64_LIMIT && Encodable(argv) && packet == LaunchBytes(id, argv) {
      EncodingDecodes(id, argv);
    }
  }

  lemma StopDecodes()
    ensures Decode(StopBytes()) == StopRequest
  {
    HeaderFields(REQUEST_STOP, 0, 0, []);
    assert StopBytes() + [] == StopBytes();
  }

  lemma {:induction false} TooManyArguments(body: seq<byte>, count: nat)
    ensures count * 4 > |body| ==> !ParseBody(body, count).LaunchRequest?
  {
    if count > 0 && |body| >= 4 && ReadU32(body, 0) <= |body| - 4 {
      TooManyArguments(body[4 + ReadU32(body, 0)..], count - 1);
    }
  }

  /** Having taken `taken` from the front of a body, what remains to be parsed decides the rest. */
  ghost predicate Continues(whole: Request, taken: seq<Argument>, rest: Request) {
    && (whole.LaunchRequest? <==> rest.LaunchRequest?)
    && (rest.LaunchRequest? ==> whole.argv == taken + rest.argv)
  }

  lemma ContinueWithOne(whole: Request, taken: seq<Argument>, packet: seq<byte>, offset: nat, count: nat)
    requires offset <= |packet| && count > 0
    requires Continues(whole, taken, ParseBody(packet[offset..], count))
    ensures offset + 4 > |packet| ==> !whole.LaunchRequest?
    ensures offset + 4 <= |packet| ==>
              var end := offset + 4 + ReadU32(packet, offset);
              if end > |packet| then !whole.LaunchRequest?
              else Continues(whole, taken + [packet[offset + 4..end]], ParseBody(packet[end..], count - 1))
  {
    var rest := packet[offset..];
    if offset + 4 <= |packet| {
      SameLength(packet, offset);
      hide ReadU32;
      var length := ReadU32(packet, offset);
      if offset + 4 + length <= |packet| {
        ContinueInside(whole, taken, rest, count);
        hide ParseBody, Continues;
        assert rest[4..4 + length] == packet[offset + 4..offset + 4 + length];
        assert rest[4 + length..] == packet[offset + 4 + length..];
      }
    }
  }

  lemma ContinueInside(whole: Request, taken: seq<Argument>, body: seq<byte>, count: nat)
    requires count > 0 && |body| >= 4 && ReadU32(body, 0) <= |body| - 4
    requires Continues(whole, taken, ParseBody(body, count))
    ensures var end := 4 + ReadU32(body, 0);
            Continues(whole, taken + [body[4..end]], ParseBody(body[end..], count - 1))
  {
    ParseBodyStep(body, count);
    hide ParseBody, ReadU32;
    var end := 4 + ReadU32(body, 0);
    var parsed := ParseBody(body[end..], count - 1);
    if parsed.LaunchRequest? {
      assert taken + ([body[4..end]] + parsed.argv) == (taken + [body[4..end]]) + parsed.argv;
    }
  }

  lemma SameLength(packet: seq<byte>, offset: nat)
    requires offset + 4 <= |packet|
    ensures ReadU32(packet[offset..], 0) == ReadU32(packet, offset)
  {
    var rest := packet[offset..];
    assert rest[0..4] == packet[offset..offset + 4];
    ReadAt(packet, offset, rest[0..4]);
    ReadAt(rest, 0, rest[0..4]);
  }

  lemma ParseBodyStep(body: seq<byte>, count: nat)
    requires count > 0 && |body| >= 4 && ReadU32(body, 0) <= |body| - 4
    ensures var end := 4 + ReadU32(body, 0);
            var parsed := ParseBody(body[end..], count - 1);
            && (ParseBody(body, count).LaunchRequest? <==> parsed.LaunchRequest?)
            && (parsed.LaunchRequest? ==> ParseBody(body, count).argv == [body[4..end]] + parsed.argv)
  {
    hide ReadU32;
  }

  /** The supervisor's decoding loop, with its early rejection of an impossible argument count. */
  method DecodeArguments(packet: seq<byte>, count: nat) returns (valid: bool, arguments: seq<Argument>)
    requires HEADER_SIZE <= |packet|
    ensures valid ==> count > 0 && ParseBody(packet[HEADER_SIZE..], count) == LaunchRequest(0, arguments)
    ensures valid ==> |arguments| == count
    ensures !valid && count > 0 ==> !ParseBody(packet[HEADER_SIZE..], count).LaunchRequest?
    ensures count == 0 ==> !valid
  {
    hide ParseBody;
    ghost var whole := ParseBody(packet[HEADER_SIZE..], count);
    var offset, index := HEADER_SIZE, 0;
    arguments := [];
    valid := count > 0 && count <= (|packet| - HEADER_SIZE) / 4;
    TooManyArguments(packet[HEADER_SIZE..], count);
    if !valid {
      return;
    }
    ParsedCount(packet[HEADER_SIZE..], count);
    while index < count
      invariant 0 <= index == |arguments| <= count && HEADER_SIZE <= offset <= |packet|
      invariant Continues(whole, arguments, ParseBody(packet[offset..], count - index))
    {
      ContinueWithOne(whole, arguments, packet, offset, count - index);
      if offset + 4 > |packet| {
        return false, arguments;
      }
      var length := ReadU32(packet, offset);
      offset := offset + 4;
      if offset + length > |packet| {
        return false, arguments;
      }
      arguments := arguments + [packet[offset..offset + length]];
      offset := offset + length;
      index := index + 1;
    }
    NothingLeft(packet[offset..]);
    valid := offset == |packet|;
  }

  lemma NothingLeft(body: seq<byte>)
    ensures ParseBody(body, 0).LaunchRequest? <==> body == []
    ensures ParseBody([], 0) == LaunchRequest(0, [])
  {
  }

  lemma {:induction false} ParsedCount(body: seq<byte>, count: nat)
    ensures ParseBody(body, count).LaunchRequest? ==>
              ParseBody(body, count).jobId == 0 && |ParseBody(body, count).argv| == count
  {
    if count > 0 && |body| >= 4 && ReadU32(body, 0) <= |body| - 4 {
      ParsedCount(body[4 + ReadU32(body, 0)..], count - 1);
    }
  }

  /** One message as the supervisor's loop reads it. */
  method DecodeRequest(packet: seq<byte>) returns (request: Request)
    ensures request == Decode(packet)
  {
    if |packet| < HEADER_SIZE {
      return Ignored;
    }
    var kind, count, id := ReadU32(packet, 0), ReadU32(packet, 4), ReadU64(packet, 8);
    if kind == REQUEST_STOP {
      return StopRequest;
    }
    if kind != REQUEST_LAUNCH {
      return Ignored;
    }
    var valid, arguments := DecodeArguments(packet, count);
    valid := valid && arguments[0] != [];
    if !valid {
      return Malformed(id);
    }
    return LaunchRequest(id, arguments);
  }

  // ---- The octets on the socket ----

  lemma {:induction false} BodyHolds(argv: seq<Argument>, i: nat)
    requires Encodable(argv) && i < |argv|
    ensures var at, b := BodySize(argv[..i]), BodyBytes(argv);
            && at + 4 + |argv[i]| <= |b| && b[at..at + 4] == U32(|argv[i]|)
            && b[at + 4..at + 4 + |argv[i]|] == argv[i]
  {
    hide U32;
    var front, rest := U32(|argv[0]|) + argv[0], argv[1..];
    assert BodyBytes(argv) == front + BodyBytes(rest);
    if i == 0 {
      assert argv[..0] == [];
    } else {
      assert argv[..i][1..] == rest[..i - 1];
      BodyHolds(rest, i - 1);
      var at := BodySize(rest[..i - 1]);
      hide BodyBytes, BodySize;
      ShiftedSlices(front, BodyBytes(rest), at, at + 4, at + 4 + |argv[i]|);
    }
  }

  lemma ShiftedSlices(front: seq<byte>, back: seq<byte>, a: nat, b: nat, c: nat)
    requires a <= b <= c <= |back|
    ensures var n, all := |front|, front + back; all[n + a..n + b] == back[a..b] && all[n + b..n + c] == back[b..c]
  {
  }

  lemma HeaderStands(count: nat, id: nat, k: nat)
    requires count < U32_LIMIT && id < U64_LIMIT
    ensures var b := HeaderBytes(REQUEST_LAUNCH, count, id);
            && b[..4] == [1, 0, 0, 0] && (k < 4 ==> b[4 + k] == count / Power256(k) % 256)
            && (k < 8 ==> b[8 + k] == id / Power256(k) % 256)
  {
    LittleEndian(count, k);
    if k < 8 {
      LittleEndian64(id, k);
    }
    assert U32(REQUEST_LAUNCH) == [1, 0, 0, 0];
    hide U32, U64, Power256;
    assert HeaderBytes(REQUEST_LAUNCH, count, id)[..4] == U32(REQUEST_LAUNCH);
  }

  /** Where every octet of a launch request stands; the counts and the id are little-endian. */
  lemma RequestLayout(id: nat, argv: seq<Argument>, i: nat, k: nat)
    requires id < U64_LIMIT && Encodable(argv)
    ensures var b := LaunchBytes(id, argv);
            && |b| == 16 + BodySize(argv) && b[..4] == [1, 0, 0, 0]
            && (k < 4 ==> b[4 + k] == |argv| / Power256(k) % 256)
            && (k < 8 ==> b[8 + k] == id / Power256(k) % 256)
            && (i < |argv| ==>
                  var at := 16 + BodySize(argv[..i]);
                  && at + 4 + |argv[i]| <= |b| && (k < 4 ==> b[at + k] == |argv[i]| / Power256(k) % 256)
                  && b[at + 4..at + 4 + |argv[i]|] == argv[i])
  {
    HeaderStands(|argv|, id, k);
    hide U32, U64, Power256, BodySize, BodyBytes, HeaderBytes;
    var header, body := HeaderBytes(REQUEST_LAUNCH, |argv|, id), BodyBytes(argv);
    assert (header + body)[..4] == header[..4];
    if i < |argv| {
      ArgumentStands(header, argv, i, k);
    }
  }

  lemma ArgumentStands(header: seq<byte>, argv: seq<Argument>, i: nat, k: nat)
    requires Encodable(argv) && i < |argv|
    ensures var at, b := |header| + BodySize(argv[..i]), header + BodyBytes(argv);
            && at + 4 + |argv[i]| <= |b| && (k < 4 ==> b[at + k] == |argv[i]| / Power256(k) % 256)
            && b[at + 4..at + 4 + |argv[i]|] == argv[i]
  {
    var at, body := BodySize(argv[..i]), BodyBytes(argv);
    BodyHolds(argv, i);
    LittleEndian(|argv[i]|, k);
    hide U32, Power256, BodySize, BodyBytes;
    ShiftedSlices(header, body, at, at + 4, at + 4 + |argv[i]|);
    assert k < 4 ==> body[at..at + 4][k] == (header + body)[|header| + at + k];
  }
}

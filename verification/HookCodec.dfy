/** The launch request: a 16-byte header (type, argument count, job id), then length-prefixed arguments. */
module HookCodec {
  import opened Bytes

  const REQUEST_LAUNCH: nat := 1
  const REQUEST_STOP: nat := 2
  const HEADER_SIZE: nat := 16
  const MAXIMUM_REQUEST_SIZE: nat := 65536

  type Argument = seq<byte>

  /** What the supervisor makes of one received message. */
  datatype Request =
    | Ignored
    | StopRequest
    | Malformed(id: nat)
    | LaunchRequest(jobId: nat, argv: seq<Argument>)

  predicate Encodable(argv: seq<Argument>) {
    |argv| < U32_LIMIT && forall i :: 0 <= i < |argv| ==> |argv[i]| < U32_LIMIT
  }

  function BodySize(argv: seq<Argument>): nat {
    if argv == [] then 0 else 4 + |argv[0]| + BodySize(argv[1..])
  }

  function RequestSize(argv: seq<Argument>): nat {
    HEADER_SIZE + BodySize(argv)
  }

  predicate Fits(argv: seq<Argument>) {
    RequestSize(argv) <= MAXIMUM_REQUEST_SIZE
  }

  function BodyBytes(argv: seq<Argument>): (b: seq<byte>)
    requires Encodable(argv)
    ensures |b| == BodySize(argv)
  {
    if argv == [] then [] else U32(|argv[0]|) + argv[0] + BodyBytes(argv[1..])
  }

  function HeaderBytes(kind: nat, count: nat, id: nat): (b: seq<byte>)
    requires kind < U32_LIMIT && count < U32_LIMIT && id < U64_LIMIT
    ensures |b| == HEADER_SIZE
  {
    U32(kind) + U32(count) + U64(id)
  }

  function LaunchBytes(id: nat, argv: seq<Argument>): (b: seq<byte>)
    requires id < U64_LIMIT && Encodable(argv)
    ensures |b| == RequestSize(argv)
  {
    HeaderBytes(REQUEST_LAUNCH, |argv|, id) + BodyBytes(argv)
  }

  function StopBytes(): seq<byte> {
    HeaderBytes(REQUEST_STOP, 0, 0)
  }

  lemma HeaderFields(kind: nat, count: nat, id: nat, body: seq<byte>)
    requires kind < U32_LIMIT && count < U32_LIMIT && id < U64_LIMIT
    ensures var p := HeaderBytes(kind, count, id) + body;
            ReadU32(p, 0) == kind && ReadU32(p, 4) == count && ReadU64(p, 8) == id
  {
    var p := HeaderBytes(kind, count, id) + body;
    U32RoundTrip(kind);
    U32RoundTrip(count);
    U64RoundTrip(id);
    assert p[0..4] == U32(kind) && p[4..8] == U32(count) && p[8..16] == U64(id);
    ReadAt(p, 0, U32(kind));
    ReadAt(p, 4, U32(count));
    ReadAt(p, 8, U64(id));
  }

  /** A request within the size bound has fewer than 2^32 arguments, each shorter than 2^32. */
  lemma {:induction false} FittingIsEncodable(argv: seq<Argument>)
    ensures BodySize(argv) >= 4 * |argv|
    ensures BodySize(argv) < U32_LIMIT ==> Encodable(argv)
  {
    if argv != [] {
      FittingIsEncodable(argv[1..]);
      assert forall i :: 1 <= i < |argv| ==> argv[i] == argv[1..][i - 1];
    }
  }

  lemma {:induction false} BodySizeAppend(argv: seq<Argument>, last: Argument)
    ensures BodySize(argv + [last]) == BodySize(argv) + 4 + |last|
  {
    if argv == [] {
      assert argv + [last] == [last];
    } else {
      assert (argv + [last])[1..] == argv[1..] + [last];
      BodySizeAppend(argv[1..], last);
    }
  }

  lemma {:induction false} BodySizeMonotone(argv: seq<Argument>, n: nat)
    requires n <= |argv|
    ensures BodySize(argv[..n]) <= BodySize(argv)
  {
    if n > 0 {
      assert argv[..n][1..] == argv[1..][..n - 1];
      BodySizeMonotone(argv[1..], n - 1);
    }
  }

  lemma {:induction false} BodyBytesAppend(argv: seq<Argument>, last: Argument)
    requires Encodable(argv + [last])
    ensures Encodable(argv) && |last| < U32_LIMIT
    ensures BodyBytes(argv + [last]) == BodyBytes(argv) + U32(|last|) + last
  {
    var all := argv + [last];
    assert forall i :: 0 <= i < |argv| ==> all[i] == argv[i];
    assert all[|argv|] == last;
    if argv == [] {
      assert all == [last] && all[1..] == [];
    } else {
      assert all[1..] == argv[1..] + [last];
      assert Encodable(argv[1..] + [last]) by {
        assert forall i :: 0 <= i < |all[1..]| ==> all[1..][i] == all[i + 1];
      }
      BodyBytesAppend(argv[1..], last);
    }
  }

  /**
   The size computation of `launch`. The running total never exceeds the bound, so the
   subtractions in the guard stay non-negative, and the verdict is about the true length.
   */
  method MeasureRequest(argv: seq<Argument>) returns (size: nat, tooLarge: bool)
    ensures tooLarge <==> !Fits(argv)
    ensures tooLarge <==> 16 + BodySize(argv) > 64 * 1024
    ensures !tooLarge ==> size == RequestSize(argv)
  {
    size, tooLarge := HEADER_SIZE, false;
    var i := 0;
    while i < |argv|
      invariant 0 <= i <= |argv|
      invariant size == RequestSize(argv[..i]) && size <= MAXIMUM_REQUEST_SIZE
    {
      var argument := argv[i];
      assert argv[..i + 1] == argv[..i] + [argument];
      BodySizeAppend(argv[..i], argument);
      if size > MAXIMUM_REQUEST_SIZE - 4 || |argument| > MAXIMUM_REQUEST_SIZE - size - 4 {
        BodySizeMonotone(argv, i + 1);
        tooLarge := true;
        return;
      }
      size := size + 4 + |argument|;
      i := i + 1;
    }
    assert argv[..i] == argv;
  }

  method CopyInto(target: array<byte>, at: nat, field: seq<byte>)
    requires at + |field| <= target.Length
    modifies target
    ensures target[..at + |field|] == old(target[..at]) + field
  {
    for k := 0 to |field|
      invariant target[..at] == old(target[..at])
      invariant target[at..at + k] == field[..k]
    {
      target[at + k] := field[k];
      assert target[at..at + k + 1] == target[at..at + k] + [field[k]];
    }
    assert target[..at + |field|] == target[..at] + target[at..at + |field|];
  }

  lemma PrefixStep(argv: seq<Argument>, i: nat)
    requires i < |argv| && Encodable(argv)
    ensures Encodable(argv[..i]) && Encodable(argv[..i + 1])
    ensures BodyBytes(argv[..i + 1]) == BodyBytes(argv[..i]) + U32(|argv[i]|) + argv[i]
    ensures BodySize(argv[..i + 1]) == BodySize(argv[..i]) + 4 + |argv[i]| <= BodySize(argv)
  {
    assert argv[..i + 1] == argv[..i] + [argv[i]];
    BodySizeAppend(argv[..i], argv[i]);
    BodyBytesAppend(argv[..i], argv[i]);
    BodySizeMonotone(argv, i + 1);
  }

  lemma NoArguments(argv: seq<Argument>)
    ensures argv[..0] == [] && BodySize([]) == 0 && Encodable([]) && BodyBytes([]) == []
  {
  }

  method AppendArgument(request: array<byte>, at: nat, argument: Argument)
    requires |argument| < U32_LIMIT && at + 4 + |argument| <= request.Length
    modifies request
    ensures request[..at + 4 + |argument|] == old(request[..at]) + U32(|argument|) + argument
  {
    CopyInto(request, at, U32(|argument|));
    CopyInto(request, at + 4, argument);
  }

  /** The buffer filled by `launch`: sized first, then written field by field at a moving offset. */
  method EncodeLaunch(jobId: nat, argv: seq<Argument>) returns (request: array<byte>)
    requires jobId < U64_LIMIT && Fits(argv)
    ensures fresh(request)
    ensures Encodable(argv) && request[..] == LaunchBytes(jobId, argv)
  {
    hide BodyBytes, BodySize, HeaderBytes, U32;
    FittingIsEncodable(argv);
    NoArguments(argv);
    ghost var header := HeaderBytes(REQUEST_LAUNCH, |argv|, jobId);
    request := new byte[RequestSize(argv)];
    CopyInto(request, 0, HeaderBytes(REQUEST_LAUNCH, |argv|, jobId));
    var offset := HEADER_SIZE;
    var i := 0;
    while i < |argv|
      invariant 0 <= i <= |argv| && Encodable(argv[..i])
      invariant offset == RequestSize(argv[..i]) <= request.Length == RequestSize(argv)
      invariant request[..offset] == header + BodyBytes(argv[..i])
    {
      PrefixStep(argv, i);
      Associate(header, BodyBytes(argv[..i]), U32(|argv[i]|), argv[i]);
      AppendArgument(request, offset, argv[i]);
      offset := offset + 4 + |argv[i]|;
      i := i + 1;
    }
    assert argv[..i] == argv;
    assert request[..offset] == request[..];
  }

  lemma Associate(a: seq<byte>, b: seq<byte>, c: seq<byte>, d: seq<byte>)
    ensures a + b + c + d == a + (b + c + d)
  {
  }

  /** The arguments held by `body` when exactly `count` of them fill it. */
  function ParseBody(body: seq<byte>, count: nat): Request {
    if count == 0 then
      if body == [] then LaunchRequest(0, []) else Ignored
    else if |body| < 4 || ReadU32(body, 0) > |body| - 4 then Ignored
    else
      var end := 4 + ReadU32(body, 0);
      match ParseBody(body[end..], count - 1)
      case LaunchRequest(_, rest) => LaunchRequest(0, [body[4..end]] + rest)
      case other => other
  }

  /** The supervisor's reading of one message. */
  function Decode(packet: seq<byte>): Request {
    if |packet| < HEADER_SIZE then Ignored
    else if ReadU32(packet, 0) == REQUEST_STOP then StopRequest
    else if ReadU32(packet, 0) != REQUEST_LAUNCH then Ignored
    else
      var id := ReadU64(packet, 8);
      match ParseBody(packet[HEADER_SIZE..], ReadU32(packet, 4))
      case LaunchRequest(_, argv) => if argv != [] && argv[0] != [] then LaunchRequest(id, argv) else Malformed(id)
      case _ => Malformed(id)
  }
}

/** Waiting for one packet on the camera's connection, and what repeated waits amount to. */
module WireReceiver {
  import opened Bytes
  import opened WireStream
  import opened WireProtocol

  /** One `recv`. */
  datatype Incoming = Chunk(bytes: seq<byte>) | Retry | Closed

  datatype ReceiveResult =
    | Received(packet: Packet)
    | HeaderFailure(error: WireError)
    | BufferOverflow
    | Disconnected
    | TimedOut

  datatype Receipt = Receipt(result: ReceiveResult, used: nat, buffer: seq<byte>)

  /** What a wait that starts with `buffer` makes of the socket's deliveries before the deadline. */
  function Receive(buffer: seq<byte>, inbox: seq<Incoming>): (r: Receipt)
    ensures r.used <= |inbox|
    ensures r.result.Received? && r.used == 0 ==> |r.buffer| < |buffer|
    decreases |inbox|
  {
    match Examine(buffer)
    case Bad(error) => Receipt(HeaderFailure(error), 0, buffer)
    case Complete(packet, size) => Receipt(Received(packet), 0, buffer[size..])
    case Incomplete =>
      if inbox == [] then Receipt(TimedOut, 0, buffer)
      else match inbox[0]
        case Closed => Receipt(Disconnected, 1, buffer)
        case Retry => Later(Receive(buffer, inbox[1..]))
        case Chunk(bytes) =>
          if Overflows(buffer, bytes) then Receipt(BufferOverflow, 1, buffer + bytes)
          else Later(Receive(buffer + bytes, inbox[1..]))
  }

  function Later(r: Receipt): Receipt {
    r.(used := r.used + 1)
  }

  class Receiver {
    var buffer: seq<byte>

    constructor ()
      ensures buffer == []
    {
      buffer := [];
    }

    /** Waits for one packet; `inbox` is what the socket delivers before the deadline. */
    method ReceivePacket(inbox: seq<Incoming>) returns (r: ReceiveResult, used: nat)
      modifies this
      ensures Receipt(r, used, buffer) == Receive(old(buffer), inbox)
    {
      hide Examine;
      used := 0;
      assert inbox[0..] == inbox;
      while true
        invariant used <= |inbox|
        invariant var rest := Receive(buffer, inbox[used..]);
                  Receive(old(buffer), inbox) == rest.(used := used + rest.used)
        decreases |inbox| - used
      {
        match Examine(buffer) {
          case Bad(error) =>
            return HeaderFailure(error), used;
          case Complete(packet, size) =>
            buffer := buffer[size..];
            return Received(packet), used;
          case Incomplete =>
        }
        if used == |inbox| {
          return TimedOut, used;
        }
        assert inbox[used..][1..] == inbox[used + 1..];
        used := used + 1;
        match inbox[used - 1] {
          case Closed =>
            return Disconnected, used;
          case Retry =>
          case Chunk(bytes) =>
            buffer := buffer + bytes;
            if |buffer| > MAXIMUM_WIRE_BODY + 24 {
              return BufferOverflow, used;
            }
        }
      }
    }
  }

  // ---- What a receipt means ----

  function Arrived(inbox: seq<Incoming>): seq<byte> {
    if inbox == [] then [] else (if inbox[0].Chunk? then inbox[0].bytes else []) + Arrived(inbox[1..])
  }

  /** Before the wait ends nothing it has is decided, nobody hangs up and no chunk meets a full buffer. */
  predicate Waiting(buffer: seq<byte>, inbox: seq<Incoming>, u: nat)
    requires u < |inbox|
  {
    var have := buffer + Arrived(inbox[..u]);
    Examine(have).Incomplete? && !inbox[u].Closed? && !(inbox[u].Chunk? && Overflows(have, inbox[u].bytes))
  }

  /** The wait ends at the first decision: the front of what arrived, a hang-up, an overflow, or the deadline. */
  predicate EndsWith(buffer: seq<byte>, inbox: seq<Incoming>, r: Receipt)
    requires r.used <= |inbox|
  {
    var all := buffer + Arrived(inbox[..r.used]);
    match r.result
    case Received(packet) =>
      && |r.buffer| <= |all| && r.buffer == all[|all| - |r.buffer|..]
      && Examine(all) == Complete(packet, |all| - |r.buffer|)
    case HeaderFailure(error) => Examine(all) == Bad(error) && r.buffer == all
    case TimedOut => r.used == |inbox| && Examine(all).Incomplete? && r.buffer == all
    case Disconnected =>
      && r.used > 0 && inbox[r.used - 1].Closed? && r.buffer == all
      && Examine(buffer + Arrived(inbox[..r.used - 1])).Incomplete?
    case BufferOverflow =>
      && r.used > 0 && inbox[r.used - 1].Chunk? && r.buffer == all
      && Overflows(buffer + Arrived(inbox[..r.used - 1]), inbox[r.used - 1].bytes)
      && Examine(buffer + Arrived(inbox[..r.used - 1])).Incomplete?
  }

  /** How many deliveries the wait takes before the one, if any, that ends it. */
  function Passed(r: Receipt): nat {
    if (r.result.Disconnected? || r.result.BufferOverflow?) && r.used > 0 then r.used - 1 else r.used
  }

  lemma ArrivedFirst(buffer: seq<byte>, inbox: seq<Incoming>, u: nat)
    requires 0 < u <= |inbox|
    ensures var first := if inbox[0].Chunk? then inbox[0].bytes else [];
            buffer + Arrived(inbox[..u]) == (buffer + first) + Arrived(inbox[1..][..u - 1])
  {
    assert inbox[..u][1..] == inbox[1..][..u - 1];
  }

  /** A receipt is the first decision on what has arrived, and nothing before it was one. */
  lemma {:induction false} ReceiptIsFirstDecision(buffer: seq<byte>, inbox: seq<Incoming>)
    ensures var r := Receive(buffer, inbox);
            EndsWith(buffer, inbox, r) && forall u :: 0 <= u < Passed(r) ==> Waiting(buffer, inbox, u)
    decreases |inbox|
  {
    hide Examine, Overflows;
    assert inbox[..0] == [] && buffer + [] == buffer;
    if Examine(buffer).Incomplete? && inbox != [] {
      var first := if inbox[0].Chunk? then inbox[0].bytes else [];
      ArrivedFirst(buffer, inbox, 1);
      assert inbox[1..][..0] == [] && buffer + first + [] == buffer + first;
      if inbox[0].Retry? || (inbox[0].Chunk? && !Overflows(buffer, inbox[0].bytes)) {
        ReceiptIsFirstDecision(buffer + first, inbox[1..]);
        assert inbox[0].Retry? ==> buffer + first == buffer;
        LaterEnds(buffer, first, inbox, Receive(buffer + first, inbox[1..]));
      }
    }
  }

  lemma LaterEnds(buffer: seq<byte>, first: seq<byte>, inbox: seq<Incoming>, r: Receipt)
    requires inbox != [] && first == (if inbox[0].Chunk? then inbox[0].bytes else [])
    requires Examine(buffer).Incomplete? && !inbox[0].Closed?
    requires inbox[0].Chunk? ==> !Overflows(buffer, inbox[0].bytes)
    requires r.used <= |inbox[1..]| && EndsWith(buffer + first, inbox[1..], r)
    requires forall u :: 0 <= u < Passed(r) ==> Waiting(buffer + first, inbox[1..], u)
    ensures EndsWith(buffer, inbox, Later(r)) && forall u :: 0 <= u < Passed(Later(r)) ==> Waiting(buffer, inbox, u)
  {
    hide Examine, Overflows, Arrived;
    ArrivedFirst(buffer, inbox, r.used + 1);
    if r.used > 0 {
      ArrivedFirst(buffer, inbox, r.used);
    }
    forall u | 0 <= u < Passed(Later(r)) ensures Waiting(buffer, inbox, u) {
      if u == 0 {
        NothingArrived(buffer, inbox);
      } else {
        ArrivedFirst(buffer, inbox, u);
        assert Waiting(buffer + first, inbox[1..], u - 1);
      }
    }
  }

  lemma NothingArrived(buffer: seq<byte>, inbox: seq<Incoming>)
    ensures buffer + Arrived(inbox[..0]) == buffer
  {
    assert inbox[..0] == [];
  }

  // ---- Repeated waits ----

  datatype Session = Session(packets: seq<Packet>, ending: ReceiveResult, buffer: seq<byte>)

  /** Waiting again and again until a wait does not bring a packet. */
  function Receptions(buffer: seq<byte>, inbox: seq<Incoming>): Session
    decreases |inbox|, |buffer|
  {
    var r := Receive(buffer, inbox);
    if r.result.Received? then
      var s := Receptions(r.buffer, inbox[r.used..]);
      s.(packets := [r.result.packet] + s.packets)
    else Session([], r.result, r.buffer)
  }

  function Chunks(inbox: seq<Incoming>): seq<seq<byte>> {
    if inbox == [] then [] else (if inbox[0].Chunk? then [inbox[0].bytes] else []) + Chunks(inbox[1..])
  }

  /** A delivery that decides nothing may as well be taken before the waits begin. */
  lemma TakenBefore(buffer: seq<byte>, inbox: seq<Incoming>)
    requires Examine(buffer).Incomplete? && inbox != [] && !inbox[0].Closed?
    requires inbox[0].Chunk? ==> !Overflows(buffer, inbox[0].bytes)
    ensures var b := if inbox[0].Chunk? then buffer + inbox[0].bytes else buffer;
            Receptions(buffer, inbox) == Receptions(b, inbox[1..])
  {
    hide Examine, Overflows;
    var b := if inbox[0].Chunk? then buffer + inbox[0].bytes else buffer;
    var r := Receive(b, inbox[1..]);
    assert Receive(buffer, inbox) == Later(r);
    hide Receive;
    assert inbox[r.used + 1..] == inbox[1..][r.used..];
  }

  /** Repeated waits are `Feed`: the same packets, the same rest, and a failure when and only when it fails. */
  lemma {:induction false} WaitsAmountToFeed(buffer: seq<byte>, inbox: seq<Incoming>)
    requires forall i :: 0 <= i < |inbox| ==> !inbox[i].Closed?
    ensures var s, d := Receptions(buffer, inbox), Drain(buffer);
            if d.failed then s.packets == d.packets && s.ending.HeaderFailure?
            else
              var f := Feed(d.rest, Chunks(inbox));
              && s.packets == d.packets + f.packets
              && (if f.failed then s.ending.HeaderFailure? || s.ending.BufferOverflow?
                  else s.ending == TimedOut && s.buffer == f.rest)
    decreases |inbox|, |buffer|
  {
    hide Examine, Overflows;
    var e := Examine(buffer);
    if e.Complete? {
      WaitsAmountToFeed(buffer[e.size..], inbox);
      AfterPacket(buffer, inbox);
    } else if e.Incomplete? && inbox != [] {
      if inbox[0].Retry? {
        TakenBefore(buffer, inbox);
        WaitsAmountToFeed(buffer, inbox[1..]);
        assert [] + Chunks(inbox[1..]) == Chunks(inbox[1..]);
      } else if !Overflows(buffer, inbox[0].bytes) {
        TakenBefore(buffer, inbox);
        WaitsAmountToFeed(buffer + inbox[0].bytes, inbox[1..]);
        FirstChunk(buffer, inbox);
      } else {
        FirstChunk(buffer, inbox);
      }
    }
  }

  lemma AfterPacket(buffer: seq<byte>, inbox: seq<Incoming>)
    requires Examine(buffer).Complete?
    ensures var e := Examine(buffer);
            var s, d := Receptions(buffer[e.size..], inbox), Drain(buffer[e.size..]);
            && Receptions(buffer, inbox) == s.(packets := [e.packet] + s.packets)
            && Drain(buffer) == d.(packets := [e.packet] + d.packets)
            && forall more :: [e.packet] + (d.packets + more) == [e.packet] + d.packets + more
  {
    hide Examine;
    assert Receive(buffer, inbox) == Receipt(Received(Examine(buffer).packet), 0, buffer[Examine(buffer).size..]);
    assert inbox[0..] == inbox;
    hide Receive;
  }

  lemma FirstChunk(buffer: seq<byte>, inbox: seq<Incoming>)
    requires inbox != [] && inbox[0].Chunk?
    ensures var bytes, later := inbox[0].bytes, Chunks(inbox[1..]);
            var f, d := Feed(buffer, Chunks(inbox)), Drain(buffer + bytes);
            if Overflows(buffer, bytes) then f == Outcome([], buffer + bytes, true)
            else if d.failed then f == d
            else f == Feed(d.rest, later).(packets := d.packets + Feed(d.rest, later).packets)
  {
    hide Drain, Overflows;
    var bytes, later := inbox[0].bytes, Chunks(inbox[1..]);
    assert Chunks(inbox) == [bytes] + later && ([bytes] + later)[1..] == later;
  }
}

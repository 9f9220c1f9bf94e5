/** The incremental media parser: a byte buffer with a read offset, compacted as it drains. */
module MediaParser {
  import opened Bytes
  import opened Prelude
  import opened WireStream
  import opened MediaFormat

  const COMPACTION_THRESHOLD: nat := 1024 * 1024

  datatype NextResult = Nothing | Got(record: Record) | Failed(failure: Failure)

  /** The read offset that compaction leaves in front of `unread` bytes. */
  function Compacted(offset: nat, unread: nat): nat {
    if unread == 0 || offset >= COMPACTION_THRESHOLD then 0 else offset
  }

  /** The read offset after `n` bytes of `unread`: only a whole record is followed by compaction, not a skipped byte. */
  function Advanced(offset: nat, unread: nat, n: nat): nat
    requires n <= unread
  {
    if n > 1 then Compacted(offset + n, unread - n) else offset + n
  }

  datatype Call = Call(result: NextResult, offset: nat, unread: seq<byte>)

  /** One call of `next` with `offset` consumed bytes still in front of the unread ones. */
  function NextOf(offset: nat, s: seq<byte>): (r: Call)
    ensures |r.unread| <= |s|
    ensures r.result.Got? ==> |r.unread| < |s|
    decreases |s|
  {
    match Look(s)
    case NeedMore => Call(Nothing, Compacted(offset, |s|), s)
    case Skip(n) => NextOf(Advanced(offset, |s|, n), s[n..])
    case Emit(record, n) => Call(Got(record), Compacted(offset + n, |s| - n), s[n..])
    case Invalid(f) => Call(Failed(f), offset, s)
  }

  /** The read offset once `next` has been called until it had nothing more or failed. */
  function OffsetAfter(offset: nat, s: seq<byte>): nat
    decreases |s|
  {
    match Look(s)
    case NeedMore => Compacted(offset, |s|)
    case Skip(n) => OffsetAfter(Advanced(offset, |s|, n), s[n..])
    case Emit(_, n) => OffsetAfter(Compacted(offset + n, |s| - n), s[n..])
    case Invalid(_) => offset
  }

  /** Calling `next` until it returns nothing drains the buffer: the caller's loop and `Drain` agree. */
  lemma {:induction false} NextDrains(offset: nat, s: seq<byte>)
    ensures var r := NextOf(offset, s);
            Drain(s) == match r.result
                        case Nothing => Outcome([], r.unread, None)
                        case Got(record) => Drain(r.unread).(records := [record] + Drain(r.unread).records)
                        case Failed(f) => Outcome([], r.unread, Some(f))
    ensures var r := NextOf(offset, s);
            OffsetAfter(offset, s) == if r.result.Got? then OffsetAfter(r.offset, r.unread) else r.offset
    decreases |s|
  {
    hide Look, Compacted;
    if Look(s).Skip? {
      NextDrains(Advanced(offset, |s|, Look(s).count), s[Look(s).count..]);
    }
  }

  // ---- Waiting for a record ----

  /** The buffer would grow beyond its safety limit. */
  predicate Exceeds(offset: nat, unread: seq<byte>, bytes: seq<byte>) {
    offset + |unread| + |bytes| > MAXIMUM_MEDIA_BUFFER
  }

  datatype MediaResult = Media(record: Record) | NoPacket | Broken(failure: Failure) | TooMuch

  datatype Wait = Wait(result: MediaResult, used: nat, offset: nat, unread: seq<byte>)

  /** What a wait for one record makes of the media payloads that arrive before its end. */
  function Await(offset: nat, s: seq<byte>, payloads: seq<seq<byte>>): (w: Wait)
    ensures w.used <= |payloads|
    ensures w.result.Media? && w.used == 0 ==> |w.unread| < |s|
    decreases |payloads|
  {
    var n := NextOf(offset, s);
    match n.result
    case Got(record) => Wait(Media(record), 0, n.offset, n.unread)
    case Failed(f) => Wait(Broken(f), 0, n.offset, n.unread)
    case Nothing =>
      if payloads == [] then Wait(NoPacket, 0, n.offset, n.unread)
      else if Exceeds(n.offset, n.unread, payloads[0]) then Wait(TooMuch, 1, n.offset, n.unread)
      else
        var w := Await(n.offset, n.unread + payloads[0], payloads[1..]);
        w.(used := w.used + 1)
  }

  class Parser {
    var buffer: seq<byte>
    var offset: nat

    ghost predicate Valid()
      reads this
    {
      offset <= |buffer| && (offset == |buffer| ==> offset == 0) && offset < COMPACTION_THRESHOLD
    }

    ghost function Unread(): seq<byte>
      requires offset <= |buffer|
      reads this
    {
      buffer[offset..]
    }

    constructor ()
      ensures Valid() && offset == 0 && Unread() == []
    {
      buffer, offset := [], 0;
    }

    /** Refuses, without a change, exactly when the buffer would grow beyond its safety limit. */
    method Append(bytes: seq<byte>) returns (ok: bool)
      requires offset <= |buffer|
      modifies this`buffer
      ensures ok <==> !Exceeds(offset, old(Unread()), bytes)
      ensures offset <= |buffer| && Unread() == if ok then old(Unread()) + bytes else old(Unread())
      ensures old(Valid()) ==> Valid()
    {
      if |bytes| > MAXIMUM_MEDIA_BUFFER || |buffer| > MAXIMUM_MEDIA_BUFFER - |bytes| {
        return false;
      }
      assert buffer[offset..] + bytes == (buffer + bytes)[offset..];
      buffer := buffer + bytes;
      return true;
    }

    /** Drops consumed bytes from the buffer; what is unread stays the same. */
    method Compact()
      requires offset <= |buffer|
      modifies this
      ensures Valid() && Unread() == old(Unread()) && offset == Compacted(old(offset), |old(Unread())|)
    {
      if offset == 0 {
        return;
      }
      if offset == |buffer| || offset >= COMPACTION_THRESHOLD {
        buffer := buffer[offset..];
        offset := 0;
      }
    }

    /**
     The next record. When there is none, what stays buffered is less than one longest record plus
     the compaction threshold, so a chunk of up to 31 MiB - 8 KiB can always be appended.
     */
    method Next() returns (r: NextResult)
      requires Valid()
      modifies this
      ensures !r.Failed? ==> Valid()
      ensures offset <= |buffer| && Call(r, offset, Unread()) == NextOf(old(offset), old(Unread()))
      ensures r.Nothing? ==> |buffer| < MAXIMUM_RECORD + COMPACTION_THRESHOLD
    {
      hide Look, Compacted;
      while true
        invariant offset <= |buffer| && NextOf(offset, Unread()) == NextOf(old(offset), old(Unread()))
        decreases |buffer| - offset
      {
        var remaining := buffer[offset..];
        match Look(remaining) {
          case NeedMore =>
            WaitIsBounded(remaining);
            Compact();
            return Nothing;
          case Skip(n) =>
            assert buffer[offset + n..] == remaining[n..];
            offset := offset + n;
            if n > 1 {
              Compact();
            }
          case Emit(record, n) =>
            assert buffer[offset + n..] == remaining[n..];
            offset := offset + n;
            Compact();
            return Got(record);
          case Invalid(f) =>
            return Failed(f);
        }
      }
    }

    /** Waits for one record; `payloads` are the media payloads of the packets that arrive before the wait ends. */
    method ReceiveMedia(payloads: seq<seq<byte>>) returns (r: MediaResult, used: nat)
      requires Valid()
      modifies this
      ensures !r.Broken? ==> Valid()
      ensures offset <= |buffer| && Wait(r, used, offset, Unread()) == Await(old(offset), old(Unread()), payloads)
    {
      hide NextOf;
      used := 0;
      assert payloads[0..] == payloads;
      while true
        invariant Valid() && used <= |payloads|
        invariant var rest := Await(offset, Unread(), payloads[used..]);
                  Await(old(offset), old(Unread()), payloads) == rest.(used := used + rest.used)
        decreases |payloads| - used
      {
        var next := Next();
        match next {
          case Got(record) =>
            return Media(record), used;
          case Failed(f) =>
            return Broken(f), used;
          case Nothing =>
        }
        if used == |payloads| {
          return NoPacket, used;
        }
        assert payloads[used..][1..] == payloads[used + 1..];
        used := used + 1;
        var ok := Append(payloads[used - 1]);
        if !ok {
          return TooMuch, used;
        }
      }
    }
  }
}

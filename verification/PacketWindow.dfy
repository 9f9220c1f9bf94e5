/** The packets of one camera and stream kind that the HTTP server keeps for its viewers. */
module PacketWindow {

  const MAXIMUM_PACKETS: nat := 4096
  const MAXIMUM_AGE: int := 10_000_000_000

  /** Time is in nanoseconds on the steady clock. */
  datatype Packet = Packet(id: int, keyframe: bool, receivedAt: int)
  datatype Published = Published(packet: Packet, version: nat)

  predicate WindowOverrun(delivered: nat, oldestRetained: nat) {
    oldestRetained > delivered && oldestRetained - delivered > 1
  }

  // ---- Publishing ----

  function NextVersion(packets: seq<Published>): nat {
    if packets == [] then 1 else packets[|packets| - 1].version + 1
  }

  predicate TooOld(packets: seq<Published>, newest: int)
    requires packets != []
  {
    |packets| > MAXIMUM_PACKETS || newest - packets[0].packet.receivedAt > MAXIMUM_AGE
  }

  function Trim(packets: seq<Published>, newest: int): seq<Published> {
    if packets != [] && TooOld(packets, newest) then Trim(packets[1..], newest) else packets
  }

  function Push(packets: seq<Published>, p: Packet): seq<Published> {
    Trim(packets + [Published(p, NextVersion(packets))], p.receivedAt)
  }

  /** `s` is the stretch of the history `h` that begins at index `from`, numbered from 1. */
  predicate Stretch(s: seq<Published>, h: seq<Packet>, from: nat) {
    from + |s| <= |h| && forall i :: 0 <= i < |s| ==> s[i] == Published(h[from + i], from + i + 1)
  }

  /** The window is the newest part of the history, and empty only before the first packet. */
  predicate IsWindow(packets: seq<Published>, h: seq<Packet>) {
    |packets| <= |h| && Stretch(packets, h, |h| - |packets|) && (h != [] ==> packets != [])
  }

  lemma {:induction false} TrimKeepsNewest(packets: seq<Published>, newest: int)
    requires packets != [] && packets[|packets| - 1].packet.receivedAt == newest
    ensures var t := Trim(packets, newest);
            0 < |t| <= |packets| && t == packets[|packets| - |t|..] && !TooOld(t, newest)
  {
    if TooOld(packets, newest) {
      TrimKeepsNewest(packets[1..], newest);
      var t := Trim(packets[1..], newest);
      assert packets[1..][|packets| - 1 - |t|..] == packets[|packets| - |t|..];
    }
  }

  /** Publishing numbers the packet by its position in the whole history: versions never restart. */
  lemma PushKeepsWindow(packets: seq<Published>, h: seq<Packet>, p: Packet)
    requires IsWindow(packets, h)
    ensures NextVersion(packets) == |h| + 1
    ensures IsWindow(Push(packets, p), h + [p])
  {
    var all := packets + [Published(p, NextVersion(packets))];
    assert Stretch(all, h + [p], |h| - |packets|);
    TrimKeepsNewest(all, p.receivedAt);
  }

  class Window {
    var packets: seq<Published>
    ghost var history: seq<Packet>

    ghost predicate Valid()
      reads this
    {
      IsWindow(packets, history)
    }

    constructor ()
      ensures Valid() && history == [] && packets == []
    {
      packets, history := [], [];
    }

    method Publish(p: Packet)
      requires Valid()
      modifies this
      ensures Valid() && history == old(history) + [p] && packets == Push(old(packets), p)
      ensures packets != [] && packets[|packets| - 1] == Published(p, |history|)
    {
      PushKeepsWindow(packets, history, p);
      ghost var before := packets;
      packets := packets + [Published(p, NextVersion(packets))];
      history := history + [p];
      while packets != [] && (|packets| > MAXIMUM_PACKETS || p.receivedAt - packets[0].packet.receivedAt > MAXIMUM_AGE)
        invariant Trim(packets, p.receivedAt) == Push(before, p)
        invariant history == old(history) + [p]
        decreases |packets|
      {
        packets := packets[1..];
      }
    }
  }

  // ---- What the window holds, computed from the whole history ----

  predicate Sorted(h: seq<Packet>) {
    forall i, k :: 0 <= i < k < |h| ==> h[i].receivedAt <= h[k].receivedAt
  }

  function PushAll(h: seq<Packet>): seq<Published> {
    if h == [] then [] else Push(PushAll(h[..|h| - 1]), h[|h| - 1])
  }

  /** Among the newest 4096 and no more than ten seconds older than the newest. */
  predicate Recent(h: seq<Packet>, i: nat)
    requires i < |h|
  {
    |h| - i <= 4096 && h[|h| - 1].receivedAt - h[i].receivedAt <= 10_000_000_000
  }

  lemma {:induction false} TrimDropsOnlyStale(packets: seq<Published>, newest: int, i: nat)
    requires packets != [] && packets[|packets| - 1].packet.receivedAt == newest
    requires forall a, b :: 0 <= a < b < |packets| ==> packets[a].packet.receivedAt <= packets[b].packet.receivedAt
    requires i < |packets|
    ensures i < |packets| - |Trim(packets, newest)| <==>
              (|packets| - i > MAXIMUM_PACKETS || newest - packets[i].packet.receivedAt > MAXIMUM_AGE)
  {
    if TooOld(packets, newest) && i > 0 {
      TrimDropsOnlyStale(packets[1..], newest, i - 1);
    } else if TooOld(packets, newest) {
      TrimKeepsNewest(packets[1..], newest);
    }
  }

  lemma {:induction false} PushAllIsWindow(h: seq<Packet>)
    ensures IsWindow(PushAll(h), h)
  {
    if h != [] {
      PushAllIsWindow(h[..|h| - 1]);
      PushKeepsWindow(PushAll(h[..|h| - 1]), h[..|h| - 1], h[|h| - 1]);
      assert h == h[..|h| - 1] + [h[|h| - 1]];
    }
  }

  /** One push drops, of the packets it finds, exactly those that have become stale. */
  lemma PushDropsOnlyStale(packets: seq<Published>, h: seq<Packet>, i: nat)
    requires h != [] && Sorted(h) && IsWindow(packets, h[..|h| - 1])
    requires |h| - 1 - |packets| <= i < |h|
    ensures |h| - |Push(packets, h[|h| - 1])| <= i <==> Recent(h, i)
  {
    var p := h[|h| - 1];
    var all := packets + [Published(p, NextVersion(packets))];
    var s := |h| - |all|;
    hide Trim;
    assert all[i - s].packet == h[i];
    assert forall a :: 0 <= a < |all| ==> all[a].packet == h[s + a];
    TrimDropsOnlyStale(all, p.receivedAt, i - s);
  }

  /**
   With nondecreasing arrival times the window is exactly the packets that are both among the
   newest 4096 and at most ten seconds older than the newest.
   */
  lemma {:induction false} WindowIsRecentHistory(h: seq<Packet>, i: nat)
    requires Sorted(h) && i < |h|
    ensures |h| - |PushAll(h)| <= i <==> Recent(h, i)
  {
    var earlier, p := h[..|h| - 1], h[|h| - 1];
    var packets := PushAll(earlier);
    PushAllIsWindow(earlier);
    PushAllIsWindow(h);
    if |earlier| - |packets| <= i {
      PushDropsOnlyStale(packets, h, i);
    } else {
      WindowIsRecentHistory(earlier, i);
      PushShrinks(packets, p);
      assert earlier[i] == h[i] && h[|earlier| - 1].receivedAt <= p.receivedAt;
    }
  }

  lemma PushShrinks(packets: seq<Published>, p: Packet)
    ensures |Push(packets, p)| <= |packets| + 1
  {
    TrimKeepsNewest(packets + [Published(p, NextVersion(packets))], p.receivedAt);
  }
}

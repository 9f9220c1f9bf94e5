/** The viewers that drain a packet window while the publisher evicts from it. */
module PacketViewers {
  import opened PacketWindow

  // ---- Viewers ----

  datatype Kind = Video | Timelapse
  datatype Phase = Streaming | Overrun | WriteFailed | Stopped

  /** `joined` counts the packets published before the viewer's first look, `written` what its muxer got. */
  datatype Viewer = Viewer(kind: Kind, joined: nat, pending: seq<Published>, delivered: nat, started: bool,
                           written: seq<Published>, phase: Phase)

  function NewestKeyframe(packets: seq<Published>): (k: int)
    ensures -1 <= k < |packets|
    ensures forall i :: 0 <= i < |packets| && k < i ==> !packets[i].packet.keyframe
    ensures k >= 0 ==> packets[k].packet.keyframe
  {
    if packets == [] then -1
    else
      var n := |packets| - 1;
      if packets[n].packet.keyframe then n else NewestKeyframe(packets[..n])
  }

  function Undelivered(packets: seq<Published>, delivered: nat): seq<Published> {
    if packets == [] then []
    else (if packets[0].version > delivered then [packets[0]] else []) + Undelivered(packets[1..], delivered)
  }

  predicate MayJoin(kind: Kind, packets: seq<Published>) {
    if kind.Video? then NewestKeyframe(packets) >= 0 else packets != []
  }

  function Join(kind: Kind, packets: seq<Published>): Viewer
    requires MayJoin(kind, packets)
  {
    var last := packets[|packets| - 1].version;
    match kind
    case Video => Viewer(Video, last, packets[NewestKeyframe(packets)..], 0, true, [], Streaming)
    case Timelapse => Viewer(Timelapse, last, [], last, false, [], Streaming)
  }

  predicate MayFetch(v: Viewer, packets: seq<Published>) {
    && v.phase.Streaming? && v.pending == []
    && packets != [] && packets[|packets| - 1].version > v.delivered
  }

  /** One pass through the locked region once the wait for a newer packet is over. */
  function Fetch(v: Viewer, packets: seq<Published>): Viewer
    requires MayFetch(v, packets)
  {
    if WindowOverrun(v.delivered, packets[0].version) then v.(phase := Overrun)
    else
      var newer := Undelivered(packets, v.delivered);
      if v.kind.Video? then v.(pending := if newer == [] then [] else [newer[0]]) else v.(pending := newer)
  }

  predicate MayWrite(v: Viewer) {
    v.phase.Streaming? && v.pending != []
  }

  /** The next pending packet goes to the muxer, unless a timelapse viewer still waits for a keyframe. */
  function Write(v: Viewer, ok: bool): Viewer
    requires MayWrite(v)
  {
    var p := v.pending[0];
    if !v.started && !p.packet.keyframe then v.(delivered := p.version, pending := v.pending[1..])
    else if ok then v.(delivered := p.version, pending := v.pending[1..], started := true, written := v.written + [p])
    else v.(delivered := if v.kind.Video? then v.delivered else p.version, pending := [], phase := WriteFailed)
  }

  function Halt(v: Viewer): Viewer {
    if v.phase.Streaming? && v.pending == [] then v.(phase := Stopped) else v
  }

  /** A viewer's delivery loop, one pass at a time. */
  class Delivery {
    const kind: Kind
    const joined: nat
    var pending: seq<Published>
    var delivered: nat
    var started: bool
    var written: seq<Published>
    var phase: Phase

    function View(): Viewer
      reads this
    {
      Viewer(kind, joined, pending, delivered, started, written, phase)
    }

    constructor (k: Kind, packets: seq<Published>)
      requires MayJoin(k, packets)
      ensures View() == Join(k, packets)
    {
      var last := packets[|packets| - 1].version;
      kind, joined, written, phase := k, last, [], Streaming;
      started := k.Video?;
      if k.Video? {
        var begin := |packets|;
        var found := false;
        while begin > 0 && !found
          invariant 0 <= begin <= |packets|
          invariant found ==> begin < |packets| && packets[begin].packet.keyframe && begin == NewestKeyframe(packets)
          invariant !found ==> NewestKeyframe(packets) == NewestKeyframe(packets[..begin])
          decreases begin, !found
        {
          begin := begin - 1;
          assert packets[..begin + 1][..begin] == packets[..begin];
          found := packets[begin].packet.keyframe;
        }
        pending, delivered := packets[begin..], 0;
      } else {
        pending, delivered := [], last;
      }
    }

    method FetchNext(packets: seq<Published>)
      requires MayFetch(View(), packets)
      modifies this
      ensures View() == Fetch(old(View()), packets)
    {
      if WindowOverrun(delivered, packets[0].version) {
        phase := Overrun;
        return;
      }
      var newer := [];
      for i := 0 to |packets|
        invariant newer + Undelivered(packets[i..], delivered) == Undelivered(packets, delivered)
      {
        assert packets[i..][1..] == packets[i + 1..];
        if packets[i].version > delivered {
          newer := newer + [packets[i]];
        }
      }
      if kind.Video? {
        pending := if newer == [] then [] else [newer[0]];
      } else {
        pending := newer;
      }
    }

    method WriteNext(ok: bool)
      requires MayWrite(View())
      modifies this
      ensures View() == Write(old(View()), ok)
    {
      var p := pending[0];
      if kind.Timelapse? {
        delivered := p.version;
      }
      if !started && !p.packet.keyframe {
        delivered, pending := p.version, pending[1..];
        return;
      }
      if !ok {
        pending, phase := [], WriteFailed;
        return;
      }
      started := true;
      delivered, pending, written := p.version, pending[1..], written + [p];
    }
  }

  // ---- The server ----

  datatype World = World(history: seq<Packet>, packets: seq<Published>, viewers: map<nat, Viewer>)

  datatype Step =
    | PublishStep(packet: Packet)
    | JoinStep(id: nat, kind: Kind)
    | FetchStep(id: nat)
    | WriteStep(id: nat, ok: bool)
    | HaltStep(id: nat)

  const EMPTY: World := World([], [], map[])

  /** A step that is not possible changes nothing. */
  function Next(w: World, step: Step): World {
    match step
    case PublishStep(p) => w.(history := w.history + [p], packets := Push(w.packets, p))
    case JoinStep(id, kind) =>
      if id !in w.viewers && MayJoin(kind, w.packets) then w.(viewers := w.viewers[id := Join(kind, w.packets)]) else w
    case FetchStep(id) =>
      if id in w.viewers && MayFetch(w.viewers[id], w.packets)
      then w.(viewers := w.viewers[id := Fetch(w.viewers[id], w.packets)]) else w
    case WriteStep(id, ok) =>
      if id in w.viewers && MayWrite(w.viewers[id]) then w.(viewers := w.viewers[id := Write(w.viewers[id], ok)]) else w
    case HaltStep(id) =>
      if id in w.viewers then w.(viewers := w.viewers[id := Halt(w.viewers[id])]) else w
  }

  function Execute(steps: seq<Step>): World {
    if steps == [] then EMPTY else Next(Execute(steps[..|steps| - 1]), steps[|steps| - 1])
  }

  // ---- Where a viewer's stream begins ----

  function FirstKeyframeFrom(h: seq<Packet>, from: nat): (k: nat)
    requires from <= |h|
    ensures from <= k <= |h|
    ensures forall i :: from <= i < k ==> !h[i].keyframe
    ensures k < |h| ==> h[k].keyframe
    decreases |h| - from
  {
    if from == |h| || h[from].keyframe then from else FirstKeyframeFrom(h, from + 1)
  }

  function LastKeyframeBefore(h: seq<Packet>, end: nat): (k: int)
    requires end <= |h|
    ensures -1 <= k < end
    ensures forall i :: 0 <= i < end && k < i ==> !h[i].keyframe
    ensures k >= 0 ==> h[k].keyframe
  {
    if end == 0 then -1 else if h[end - 1].keyframe then end - 1 else LastKeyframeBefore(h, end - 1)
  }

  /** A live viewer begins at the newest keyframe it finds, a timelapse viewer at the first one it waits for. */
  function Beginning(v: Viewer, h: seq<Packet>): (k: nat)
    requires v.joined <= |h|
    ensures k <= |h|
  {
    if v.kind.Timelapse? then FirstKeyframeFrom(h, v.joined)
    else if LastKeyframeBefore(h, v.joined) >= 0 then LastKeyframeBefore(h, v.joined)
    else |h|
  }

  /** The keyframe at which the stream begins exists and precedes everything delivered. */
  predicate Begun(v: Viewer, h: seq<Packet>)
    requires v.joined <= |h|
  {
    Beginning(v, h) < |h| && Stretch(v.written, h, Beginning(v, h))
  }

  predicate VideoInv(v: Viewer, h: seq<Packet>)
    requires v.joined <= |h|
  {
    && v.started && Begun(v, h)
    && Beginning(v, h) < v.joined
    && Stretch(v.pending, h, Beginning(v, h) + |v.written|)
    && (v.written != [] ==> v.delivered == Beginning(v, h) + |v.written|)
    && (v.written == [] ==> v.pending != [])
  }

  predicate TimelapseInv(v: Viewer, h: seq<Packet>)
    requires v.joined <= |h|
  {
    && v.joined <= v.delivered <= |h|
    && Stretch(v.pending, h, v.delivered)
    && (if v.started then Begun(v, h) && v.delivered == Beginning(v, h) + |v.written| && v.written != []
        else v.written == [] && v.delivered <= Beginning(v, h))
  }

  predicate ViewerInv(v: Viewer, h: seq<Packet>) {
    && 1 <= v.joined <= |h|
    && (v.written != [] ==> Begun(v, h))
    && (v.phase.Streaming? ==> if v.kind.Video? then VideoInv(v, h) else TimelapseInv(v, h))
  }

  predicate Inv(w: World) {
    IsWindow(w.packets, w.history) && forall id :: id in w.viewers ==> ViewerInv(w.viewers[id], w.history)
  }

  // ---- Publishing leaves every viewer's account intact ----

  lemma FirstKeyframeStable(h: seq<Packet>, p: Packet, from: nat)
    requires from <= |h|
    ensures FirstKeyframeFrom(h, from) <= FirstKeyframeFrom(h + [p], from)
    ensures FirstKeyframeFrom(h, from) < |h| ==> FirstKeyframeFrom(h + [p], from) == FirstKeyframeFrom(h, from)
    decreases |h| - from
  {
    if from < |h| && !h[from].keyframe {
      FirstKeyframeStable(h, p, from + 1);
    }
  }

  lemma LastKeyframeStable(h: seq<Packet>, p: Packet, end: nat)
    requires end <= |h|
    ensures LastKeyframeBefore(h + [p], end) == LastKeyframeBefore(h, end)
  {
  }

  lemma BeginningStable(v: Viewer, h: seq<Packet>, p: Packet)
    requires v.joined <= |h|
    ensures Beginning(v, h) < |h| ==> Beginning(v, h + [p]) == Beginning(v, h)
    ensures v.kind.Timelapse? ==> Beginning(v, h) <= Beginning(v, h + [p])
  {
    FirstKeyframeStable(h, p, v.joined);
    LastKeyframeStable(h, p, v.joined);
  }

  lemma PublishKeepsViewer(v: Viewer, h: seq<Packet>, p: Packet)
    requires ViewerInv(v, h)
    ensures ViewerInv(v, h + [p])
  {
    BeginningStable(v, h, p);
    hide Beginning;
  }

  // ---- Viewer steps ----

  lemma {:induction false} NewestKeyframeInHistory(packets: seq<Published>, h: seq<Packet>, from: nat)
    requires Stretch(packets, h, from) && NewestKeyframe(packets) >= 0
    ensures LastKeyframeBefore(h, from + |packets|) == from + NewestKeyframe(packets)
  {
    var n := |packets| - 1;
    assert packets[n].packet == h[from + n];
    if !packets[n].packet.keyframe {
      NewestKeyframeInHistory(packets[..n], h, from);
    }
  }

  lemma JoinKeeps(kind: Kind, packets: seq<Published>, h: seq<Packet>)
    requires IsWindow(packets, h) && MayJoin(kind, packets)
    ensures ViewerInv(Join(kind, packets), h)
  {
    var v := Join(kind, packets);
    assert packets[|packets| - 1].version == |h|;
    if kind.Video? {
      NewestKeyframeInHistory(packets, h, |h| - |packets|);
    }
  }

  lemma {:induction false} UndeliveredIsSuffix(packets: seq<Published>, h: seq<Packet>, from: nat, delivered: nat)
    requires Stretch(packets, h, from) && delivered <= from + |packets|
    ensures Undelivered(packets, delivered) == packets[if delivered <= from then 0 else delivered - from..]
  {
    if packets != [] {
      assert packets[0].version == from + 1;
      assert Stretch(packets[1..], h, from + 1);
      UndeliveredIsSuffix(packets[1..], h, from + 1, if delivered <= from + 1 then from + 1 else delivered);
      if delivered <= from {
        UndeliveredBelow(packets[1..], h, from + 1, delivered);
      }
    }
  }

  lemma {:induction false} UndeliveredBelow(packets: seq<Published>, h: seq<Packet>, from: nat, delivered: nat)
    requires Stretch(packets, h, from) && delivered <= from
    ensures Undelivered(packets, delivered) == packets
  {
    if packets != [] {
      assert packets[0].version == from + 1;
      assert Stretch(packets[1..], h, from + 1);
      UndeliveredBelow(packets[1..], h, from + 1, delivered);
    }
  }

  /** The overrun test is exact: it fires just when the next undelivered packet has left the window. */
  lemma RetainedWhen(packets: seq<Published>, h: seq<Packet>, delivered: nat)
    requires IsWindow(packets, h) && packets != [] && delivered < |h|
    ensures packets[0].version == |h| - |packets| + 1
    ensures Published(h[delivered], delivered + 1) in packets <==> delivered >= |h| - |packets|
  {
    var from := |h| - |packets|;
    if delivered >= from {
      assert packets[delivered - from] == Published(h[delivered], delivered + 1);
    }
  }

  lemma OverrunIsExact(v: Viewer, packets: seq<Published>, h: seq<Packet>)
    requires IsWindow(packets, h) && MayFetch(v, packets)
    ensures v.delivered < |h|
    ensures var next := Published(h[v.delivered], v.delivered + 1);
            && (Fetch(v, packets).phase.Overrun? <==> next !in packets)
            && (next in packets ==> Stretch(Fetch(v, packets).pending, h, v.delivered)
                                    && Fetch(v, packets).pending != [] && Fetch(v, packets).pending[0] == next)
  {
    assert packets[|packets| - 1].version == |h|;
    RetainedWhen(packets, h, v.delivered);
    if v.delivered >= |h| - |packets| {
      FetchTakes(v, packets, h);
    }
    hide Undelivered, IsWindow;
  }

  lemma SuffixIsStretch(packets: seq<Published>, h: seq<Packet>, delivered: nat)
    requires IsWindow(packets, h) && |h| - |packets| <= delivered < |h|
    ensures var newer := packets[delivered - (|h| - |packets|)..];
            |newer| == |h| - delivered && Stretch(newer, h, delivered) && Stretch([newer[0]], h, delivered)
  {
  }

  lemma NewerAre(packets: seq<Published>, h: seq<Packet>, delivered: nat)
    requires IsWindow(packets, h) && |h| - |packets| <= delivered < |h|
    ensures var newer := Undelivered(packets, delivered);
            |newer| == |h| - delivered && Stretch(newer, h, delivered) && Stretch([newer[0]], h, delivered)
  {
    var from := |h| - |packets|;
    UndeliveredIsSuffix(packets, h, from, delivered);
    SuffixIsStretch(packets, h, delivered);
    hide Undelivered, Stretch;
  }

  lemma FetchTakes(v: Viewer, packets: seq<Published>, h: seq<Packet>)
    requires IsWindow(packets, h) && MayFetch(v, packets) && |h| - |packets| <= v.delivered
    ensures !Fetch(v, packets).phase.Overrun? && v.delivered < |h|
    ensures Stretch(Fetch(v, packets).pending, h, v.delivered)
    ensures |Fetch(v, packets).pending| == if v.kind.Video? then 1 else |h| - v.delivered
  {
    assert packets[|packets| - 1].version == |h|;
    RetainedWhen(packets, h, v.delivered);
    NewerAre(packets, h, v.delivered);
    hide Undelivered, Stretch, IsWindow;
  }

  lemma FetchKeeps(v: Viewer, packets: seq<Published>, h: seq<Packet>)
    requires IsWindow(packets, h) && MayFetch(v, packets) && ViewerInv(v, h)
    ensures ViewerInv(Fetch(v, packets), h)
  {
    OverrunIsExact(v, packets, h);
    assert Beginning(Fetch(v, packets), h) == Beginning(v, h);
    hide Beginning, Undelivered;
  }

  lemma WriteKeeps(v: Viewer, h: seq<Packet>, ok: bool)
    requires MayWrite(v) && ViewerInv(v, h)
    ensures ViewerInv(Write(v, ok), h)
  {
    if v.kind.Video? {
      VideoWriteKeeps(v, h, ok);
    } else {
      TimelapseWriteKeeps(v, h, ok);
    }
  }

  lemma VideoWriteKeeps(v: Viewer, h: seq<Packet>, ok: bool)
    requires MayWrite(v) && ViewerInv(v, h) && v.kind.Video?
    ensures ViewerInv(Write(v, ok), h)
  {
    assert Beginning(Write(v, ok), h) == Beginning(v, h);
    hide Beginning, TimelapseInv;
  }

  lemma TimelapseWriteKeeps(v: Viewer, h: seq<Packet>, ok: bool)
    requires MayWrite(v) && ViewerInv(v, h) && v.kind.Timelapse?
    ensures ViewerInv(Write(v, ok), h)
  {
    assert Beginning(Write(v, ok), h) == Beginning(v, h);
    if !v.started {
      FirstWrite(v, h);
    }
    hide Beginning, VideoInv;
  }

  /** A waiting timelapse viewer meets its first keyframe exactly where its stream begins. */
  lemma FirstWrite(v: Viewer, h: seq<Packet>)
    requires v.kind.Timelapse? && v.joined <= |h| && TimelapseInv(v, h) && !v.started && v.pending != []
    ensures v.pending[0].packet.keyframe <==> Beginning(v, h) == v.delivered
    ensures v.pending[0].version == v.delivered + 1 && v.delivered < |h|
  {
    assert v.pending[0] == Published(h[v.delivered], v.delivered + 1);
  }

  lemma NextKeeps(w: World, step: Step)
    requires Inv(w)
    ensures Inv(Next(w, step))
  {
    hide ViewerInv, IsWindow, Push, MayJoin, MayFetch, MayWrite, Join, Fetch, Write;
    match step
    case PublishStep(p) =>
      PushKeepsWindow(w.packets, w.history, p);
      forall id | id in w.viewers ensures ViewerInv(w.viewers[id], w.history + [p]) {
        PublishKeepsViewer(w.viewers[id], w.history, p);
      }
    case JoinStep(id, kind) =>
      if MayJoin(kind, w.packets) {
        JoinKeeps(kind, w.packets, w.history);
      }
    case FetchStep(id) =>
      if id in w.viewers && MayFetch(w.viewers[id], w.packets) {
        FetchKeeps(w.viewers[id], w.packets, w.history);
      }
    case WriteStep(id, ok) =>
      if id in w.viewers && MayWrite(w.viewers[id]) {
        WriteKeeps(w.viewers[id], w.history, ok);
      }
    case HaltStep(id) =>
      if id in w.viewers {
        HaltKeeps(w.viewers[id], w.history);
      }
  }

  lemma HaltKeeps(v: Viewer, h: seq<Packet>)
    requires ViewerInv(v, h)
    ensures ViewerInv(Halt(v), h)
  {
    assert v.joined <= |h| && Beginning(Halt(v), h) == Beginning(v, h);
    hide Beginning;
  }

  lemma {:induction false} RunKeeps(steps: seq<Step>)
    ensures Inv(Execute(steps))
  {
    if steps != [] {
      RunKeeps(steps[..|steps| - 1]);
      NextKeeps(Execute(steps[..|steps| - 1]), steps[|steps| - 1]);
    }
  }

  // ---- Main results ----

  lemma BeginsAtKeyframe(v: Viewer, h: seq<Packet>)
    requires v.joined <= |h| && v.written != [] && Begun(v, h)
    ensures var b := v.written[0].version - 1;
            && 0 <= b < |h| && h[b].keyframe && Stretch(v.written, h, b)
            && (if v.kind.Video? then b < v.joined && forall i :: b < i < v.joined ==> !h[i].keyframe
                else b >= v.joined && forall i :: v.joined <= i < b ==> !h[i].keyframe)
  {
    assert v.written[0] == Published(h[Beginning(v, h)], Beginning(v, h) + 1);
    hide FirstKeyframeFrom, LastKeyframeBefore;
  }

  /**
   In every run, what a viewer was sent is a gapless stretch of the published history that begins
   at a keyframe: the newest one a live viewer found, the first one a timelapse viewer met.
   */
  lemma NoSilentGap(steps: seq<Step>, id: nat)
    ensures var w := Execute(steps);
            id in w.viewers && w.viewers[id].written != [] ==>
              (var v := w.viewers[id]; var b := v.written[0].version - 1;
               && 0 <= b < |w.history| && w.history[b].keyframe
               && Stretch(v.written, w.history, b)
               && v.joined <= |w.history|
               && (if v.kind.Video? then b < v.joined && forall i :: b < i < v.joined ==> !w.history[i].keyframe
                   else b >= v.joined && forall i :: v.joined <= i < b ==> !w.history[i].keyframe))
  {
    RunKeeps(steps);
    var w := Execute(steps);
    hide Execute, IsWindow;
    if id in w.viewers && w.viewers[id].written != [] {
      var v := w.viewers[id];
      assert ViewerInv(v, w.history);
      hide VideoInv, TimelapseInv;
      BeginsAtKeyframe(v, w.history);
      hide ViewerInv;
    }
  }

  /** In every run the overrun error is raised exactly when the next undelivered packet is gone. */
  lemma OverrunMeansLoss(steps: seq<Step>, id: nat)
    ensures var w := Execute(steps);
            id in w.viewers && MayFetch(w.viewers[id], w.packets) ==>
              (var v, after := w.viewers[id], Next(w, FetchStep(id)).viewers[id];
               && v.delivered < |w.history|
               && (after.phase.Overrun? <==> Published(w.history[v.delivered], v.delivered + 1) !in w.packets)
               && (!after.phase.Overrun? ==>
                     (after.pending != [] && after.pending[0] == Published(w.history[v.delivered], v.delivered + 1))))
  {
    RunKeeps(steps);
    hide ViewerInv, Fetch, Execute, IsWindow;
    var w := Execute(steps);
    if id in w.viewers && MayFetch(w.viewers[id], w.packets) {
      OverrunIsExact(w.viewers[id], w.packets, w.history);
    }
  }

  lemma CaughtUpIsComplete(v: Viewer, packets: seq<Published>, h: seq<Packet>)
    requires IsWindow(packets, h) && ViewerInv(v, h)
    requires v.phase.Streaming? && v.pending == [] && !MayFetch(v, packets)
    ensures Stretch(v.written, h, Beginning(v, h)) && Beginning(v, h) + |v.written| == |h|
  {
    assert packets[|packets| - 1].version == |h|;
    hide FirstKeyframeFrom, LastKeyframeBefore;
  }

  /** A viewer that has nothing left to fetch has been sent everything since its stream began. */
  lemma CaughtUpMeansComplete(steps: seq<Step>, id: nat)
    ensures var w := Execute(steps);
            id in w.viewers && w.viewers[id].phase.Streaming? && w.viewers[id].pending == []
            && !MayFetch(w.viewers[id], w.packets) ==>
              (var v := w.viewers[id];
               && v.joined <= |w.history|
               && Stretch(v.written, w.history, Beginning(v, w.history))
               && Beginning(v, w.history) + |v.written| == |w.history|)
  {
    RunKeeps(steps);
    var w := Execute(steps);
    hide Execute, IsWindow, Beginning, MayFetch;
    if id in w.viewers && w.viewers[id].phase.Streaming? && w.viewers[id].pending == [] {
      var v := w.viewers[id];
      assert ViewerInv(v, w.history);
      if !MayFetch(v, w.packets) {
        CaughtUpIsComplete(v, w.packets, w.history);
      }
    }
  }

  /**
   In every run a viewer joins exactly when the window has what its stream begins with: a keyframe for
   live video, any packet for timelapse. A live viewer takes everything from the newest keyframe on, a
   timelapse viewer nothing of what was there before.
   */
  lemma JoinsExactly(steps: seq<Step>, id: nat, kind: Kind)
    requires id !in Execute(steps).viewers
    ensures var w := Execute(steps);
            id in Next(w, JoinStep(id, kind)).viewers <==>
            if kind.Video? then exists i :: 0 <= i < |w.packets| && w.packets[i].packet.keyframe else w.packets != []
    ensures var w, viewers := Execute(steps), Next(Execute(steps), JoinStep(id, kind)).viewers;
            id in viewers ==>
              (var v := viewers[id];
               && v.kind == kind && v.phase.Streaming? && v.written == []
               && (if kind.Timelapse? then v.pending == [] && v.delivered == |w.history|
                   else
                     && v.pending != [] && v.pending == w.packets[|w.packets| - |v.pending|..]
                     && v.pending[0].packet.keyframe
                     && forall i :: 0 < i < |v.pending| ==> !v.pending[i].packet.keyframe))
  {
    RunKeeps(steps);
    var packets := Execute(steps).packets;
    assert NewestKeyframe(packets) >= 0 ==> packets[NewestKeyframe(packets)].packet.keyframe;
    if MayJoin(kind, packets) {
      JoinTakes(kind, packets, Execute(steps).history);
    }
    hide Execute, Join, NewestKeyframe, ViewerInv, IsWindow;
  }

  lemma JoinTakes(kind: Kind, packets: seq<Published>, h: seq<Packet>)
    requires MayJoin(kind, packets) && IsWindow(packets, h)
    ensures var v := Join(kind, packets);
            && v.kind == kind && v.phase.Streaming? && v.written == []
            && (if kind.Timelapse? then v.pending == [] && v.delivered == |h|
                else
                  && v.pending != [] && v.pending == packets[|packets| - |v.pending|..]
                  && v.pending[0].packet.keyframe
                  && forall i :: 0 < i < |v.pending| ==> !v.pending[i].packet.keyframe)
  {
    assert packets[|packets| - 1].version == |h|;
  }

  /**
   In every run a viewer with nothing pending fetches exactly when something newer than its last packet
   has been published. Unless that packet's successor is gone, a live viewer takes the successor alone
   and a timelapse viewer everything up to the newest.
   */
  lemma FetchesExactly(steps: seq<Step>, id: nat)
    ensures var w := Execute(steps);
            id in w.viewers && w.viewers[id].phase.Streaming? && w.viewers[id].pending == [] ==>
              (var v, v' := w.viewers[id], Next(w, FetchStep(id)).viewers[id];
               var d := v.delivered;
               if d >= |w.history| then v' == v
               else if Published(w.history[d], d + 1) !in w.packets then v' == v.(phase := Overrun)
               else
                 && v' == v.(pending := v'.pending) && Stretch(v'.pending, w.history, d)
                 && |v'.pending| == if v.kind.Video? then 1 else |w.history| - d)
  {
    RunKeeps(steps);
    var w := Execute(steps);
    hide Execute, IsWindow, ViewerInv, Undelivered;
    if id in w.viewers && w.viewers[id].phase.Streaming? && w.viewers[id].pending == [] {
      var v := w.viewers[id];
      assert ViewerInv(v, w.history);
      MayFetchWhen(v, w.packets, w.history);
      if MayFetch(v, w.packets) {
        OverrunIsExact(v, w.packets, w.history);
        RetainedWhen(w.packets, w.history, v.delivered);
        if v.delivered >= |w.history| - |w.packets| {
          FetchTakes(v, w.packets, w.history);
        }
      }
      hide MayFetch;
    }
  }

  lemma MayFetchWhen(v: Viewer, packets: seq<Published>, h: seq<Packet>)
    requires IsWindow(packets, h) && v.phase.Streaming? && v.pending == []
    ensures MayFetch(v, packets) <==> v.delivered < |h|
  {
    if h != [] {
      assert packets[|packets| - 1].version == |h|;
    }
  }

  /** In every run a stop ends exactly the viewers that wait, and they have been sent all they had taken. */
  lemma StopsExactly(steps: seq<Step>, id: nat)
    requires id in Execute(steps).viewers && Execute(steps).viewers[id].phase.Streaming?
    ensures var v, v' := Execute(steps).viewers[id], Next(Execute(steps), HaltStep(id)).viewers[id];
            && (v'.phase.Stopped? <==> v.pending == []) && v'.written == v.written
            && (v'.phase.Stopped? && v.written != [] ==> v.written[|v.written| - 1].version == v.delivered)
  {
    RunKeeps(steps);
    var w := Execute(steps);
    hide Execute, IsWindow;
    assert ViewerInv(w.viewers[id], w.history);
    hide Beginning;
  }

  /**
   In every run the packet that a viewer writes next is the one after its last, and a write that
   succeeds sends exactly that packet, or passes over it while a timelapse viewer awaits a keyframe; a
   write that fails sends nothing and ends the stream.
   */
  lemma WritesNextExactly(steps: seq<Step>, id: nat, ok: bool)
    ensures var w := Execute(steps);
            id in w.viewers && w.viewers[id].phase.Streaming? && w.viewers[id].pending != [] ==>
              (var v, v' := w.viewers[id], Next(w, WriteStep(id, ok)).viewers[id];
               var p := v.pending[0];
               && (v.written != [] ==> p.version == v.written[|v.written| - 1].version + 1)
               && (if v.kind.Timelapse? && v.written == [] && !p.packet.keyframe then
                     && v'.phase.Streaming? && v'.written == []
                     && v'.pending == v.pending[1..] && v'.delivered == p.version
                   else if ok then
                     v'.phase.Streaming? && v'.written == v.written + [p] && v'.pending == v.pending[1..]
                     && v'.delivered == p.version
                   else v'.phase.WriteFailed? && v'.written == v.written))
  {
    RunKeeps(steps);
    var w := Execute(steps);
    hide Execute, IsWindow;
    if id in w.viewers && w.viewers[id].phase.Streaming? && w.viewers[id].pending != [] {
      var v := w.viewers[id];
      assert ViewerInv(v, w.history);
      NextIsNext(v, w.history);
      hide ViewerInv;
    }
  }

  lemma NextIsNext(v: Viewer, h: seq<Packet>)
    requires ViewerInv(v, h) && v.phase.Streaming? && v.pending != []
    ensures v.written != [] ==> v.pending[0].version == v.written[|v.written| - 1].version + 1
    ensures v.started <==> v.kind.Video? || v.written != []
  {
    hide Beginning;
    if v.written != [] {
      assert v.written[|v.written| - 1].version == Beginning(v, h) + |v.written|;
    }
  }

  /** Versions never restart: a packet published once keeps its number in every later window that holds it. */
  lemma {:induction false} VersionsNeverRestart(steps: seq<Step>, more: seq<Step>)
    ensures Execute(steps).history <= Execute(steps + more).history
    ensures Execute(steps).history != [] ==> Execute(steps + more).packets != []
    ensures NextVersion(Execute(steps + more).packets) == |Execute(steps + more).history| + 1
    decreases |more|
  {
    hide IsWindow, ViewerInv, Push, Join, Fetch, Write, Halt;
    var all := steps + more;
    RunKeeps(all);
    WindowVersions(Execute(all));
    if more == [] {
      assert all == steps;
    } else {
      var n := |more| - 1;
      assert all[..|all| - 1] == steps + more[..n];
      VersionsNeverRestart(steps, more[..n]);
    }
  }

  lemma WindowVersions(w: World)
    requires Inv(w)
    ensures NextVersion(w.packets) == |w.history| + 1
    ensures w.packets == [] <==> w.history == []
  {
    hide ViewerInv;
    if w.history != [] {
      assert w.packets[|w.packets| - 1].version == |w.history|;
    }
  }
}

/** The pre-roll ring: an incremental trim that must agree with one computed from scratch. */
module PacketRing {

  /** Time is in nanoseconds on the steady clock. */
  const MILLISECOND: int := 1_000_000
  const SECOND: int := 1_000_000_000

  datatype Packet = Packet(id: int, valid: bool, keyframe: bool)
  datatype Entry = Entry(packet: Packet, at: int)

  predicate Key(e: Entry) {
    e.packet.keyframe
  }

  /** The first keyframe at or after `from`, or the length. */
  function FirstKey(s: seq<Entry>, from: nat): (k: nat)
    requires from <= |s|
    ensures from <= k <= |s|
    ensures forall i :: from <= i < k ==> !Key(s[i])
    ensures k < |s| ==> Key(s[k])
    decreases |s| - from
  {
    if from == |s| || Key(s[from]) then from else FirstKey(s, from + 1)
  }

  /** The last keyframe before `end`, or -1. */
  function LastKey(s: seq<Entry>, end: nat): (k: int)
    requires end <= |s|
    ensures -1 <= k < end
    ensures forall i :: 0 <= i < end && k < i ==> !Key(s[i])
    ensures k >= 0 ==> Key(s[k])
  {
    if end == 0 then -1 else if Key(s[end - 1]) then end - 1 else LastKey(s, end - 1)
  }

  /** How many packets at the front are no newer than `cutoff`. */
  function OldCount(s: seq<Entry>, cutoff: int, from: nat): (n: nat)
    requires from <= |s|
    ensures from <= n <= |s|
    ensures forall i :: from <= i < n ==> s[i].at <= cutoff
    ensures n < |s| ==> s[n].at > cutoff
    decreases |s| - from
  {
    if from == |s| || s[from].at > cutoff then from else OldCount(s, cutoff, from + 1)
  }

  // ---- What one push does ----

  function AlignStep(s: seq<Entry>, cutoff: int): (a: nat)
    ensures a <= |s|
  {
    var k := LastKey(s, OldCount(s, cutoff, 0));
    if k >= 0 then k else if FirstKey(s, 0) < |s| then FirstKey(s, 0) else 0
  }

  function CapStep(s: seq<Entry>, maximum: nat): (c: nat)
    ensures c <= |s|
  {
    if |s| <= maximum then 0
    else if FirstKey(s, |s| - maximum) < |s| then FirstKey(s, |s| - maximum) else |s| - maximum
  }

  function PushStep(ring: seq<Entry>, e: Entry, preroll: int, maximum: nat): seq<Entry> {
    var s := ring + [e];
    var t := s[AlignStep(s, e.at - preroll)..];
    t[CapStep(t, maximum)..]
  }

  // ---- The window computed from the whole history ----

  predicate Sorted(h: seq<Entry>) {
    forall i, k :: 0 <= i < k < |h| ==> h[i].at <= h[k].at
  }

  /** The newest keyframe no newer than `cutoff`, wherever it stands, or -1. */
  function NewestKey(h: seq<Entry>, cutoff: int): (k: int)
    ensures -1 <= k < |h|
    ensures forall i :: 0 <= i < |h| && k < i ==> !(Key(h[i]) && h[i].at <= cutoff)
    ensures k >= 0 ==> Key(h[k]) && h[k].at <= cutoff
  {
    if h == [] then -1
    else
      var n := |h| - 1;
      if Key(h[n]) && h[n].at <= cutoff then n else NewestKey(h[..n], cutoff)
  }

  function AlignedStart(h: seq<Entry>, cutoff: int): (a: nat)
    ensures a <= |h|
  {
    if NewestKey(h, cutoff) >= 0 then NewestKey(h, cutoff)
    else if FirstKey(h, 0) < |h| then FirstKey(h, 0) else 0
  }

  function WindowStart(h: seq<Entry>, preroll: int, maximum: nat): (w: nat)
    requires h != []
    ensures w <= |h|
  {
    var a := AlignedStart(h, h[|h| - 1].at - preroll);
    if |h| - a <= maximum then a
    else if FirstKey(h, |h| - maximum) < |h| then FirstKey(h, |h| - maximum) else |h| - maximum
  }

  /** What the ring promises to hold after the whole history `h` has been pushed. */
  function Window(h: seq<Entry>, preroll: int, maximum: nat): seq<Entry> {
    if h == [] then [] else h[WindowStart(h, preroll, maximum)..]
  }

  // ---- Keyframes of a suffix ----

  lemma SuffixFirstKey(h: seq<Entry>, s: nat, from: nat)
    requires s <= from <= |h|
    ensures FirstKey(h[s..], from - s) == FirstKey(h, from) - s
    decreases |h| - from
  {
    if from < |h| && !Key(h[from]) {
      SuffixFirstKey(h, s, from + 1);
    }
  }

  /** In a sorted history the scan of a suffix finds the newest old keyframe if the suffix still has it. */
  lemma SuffixNewest(h: seq<Entry>, s: nat, cutoff: int)
    requires Sorted(h) && s <= |h|
    ensures var k := LastKey(h[s..], OldCount(h[s..], cutoff, 0)); var n := NewestKey(h, cutoff);
            if n >= s then k == n - s else k == -1
  {
    var t := h[s..];
    var c := OldCount(t, cutoff, 0);
    var k, n := LastKey(t, c), NewestKey(h, cutoff);
    hide Key;
    OldPart(h, s, cutoff);
    if n >= s {
      assert t[n - s] == h[n];
    }
    if k >= 0 {
      assert t[k] == h[s + k];
    }
  }

  lemma OldPart(h: seq<Entry>, s: nat, cutoff: int)
    requires Sorted(h) && s <= |h|
    ensures forall i :: s <= i < |h| ==> (i - s < OldCount(h[s..], cutoff, 0) <==> h[i].at <= cutoff)
  {
    var t := h[s..];
    var c := OldCount(t, cutoff, 0);
    hide OldCount;
    forall i | s <= i < |h| ensures i - s < c <==> h[i].at <= cutoff {
      assert t[i - s] == h[i];
      if c < |t| {
        assert t[c] == h[s + c];
      }
    }
  }

  lemma NewestGrows(h: seq<Entry>, e: Entry, cutoff: int, cutoff': int)
    requires cutoff <= cutoff'
    ensures NewestKey(h, cutoff) <= NewestKey(h + [e], cutoff')
  {
    var n := NewestKey(h, cutoff);
    if n >= 0 {
      assert (h + [e])[n] == h[n];
    }
  }

  lemma FirstKeySkips(h: seq<Entry>, from: nat, s: nat)
    requires from <= s <= |h| && s <= FirstKey(h, from)
    ensures FirstKey(h, s) == FirstKey(h, from)
    decreases s - from
  {
    if from < s {
      FirstKeySkips(h, from + 1, s);
    }
  }

  /** The start of a window over `h`, cut by the hard cap to the first keyframe of the last `maximum`. */
  function CapOf(h: seq<Entry>, maximum: nat): (c: nat)
    requires |h| >= maximum
    ensures |h| - maximum <= c <= |h|
  {
    if FirstKey(h, |h| - maximum) < |h| then FirstKey(h, |h| - maximum) else |h| - maximum
  }

  lemma CapStepSuffix(h: seq<Entry>, a: nat, maximum: nat)
    requires a <= |h|
    ensures var c := CapStep(h[a..], maximum);
            if |h| - a <= maximum then c == 0 else c == CapOf(h, maximum) - a
  {
    if |h| - a > maximum {
      SuffixFirstKey(h, a, |h| - maximum);
    }
  }

  lemma DropDrop(h: seq<Entry>, a: nat, b: nat)
    requires a <= |h| && b <= |h| - a
    ensures h[a..][b..] == h[a + b..]
  {
  }

  lemma FirstKeyIs(h: seq<Entry>, from: nat, k: nat)
    requires from <= k <= |h| && (forall i :: from <= i < k ==> !Key(h[i])) && (k < |h| ==> Key(h[k]))
    ensures FirstKey(h, from) == k
  {
  }

  /** What one push leaves of a suffix, by the place where its alignment lands in the history. */
  lemma PushOnSuffix(h: seq<Entry>, e: Entry, s: nat, preroll: int, maximum: nat)
    requires s <= |h|
    ensures var h' := h + [e]; var a := s + AlignStep(h'[s..], e.at - preroll);
            a <= |h'| &&
            PushStep(h[s..], e, preroll, maximum) ==
              h'[if |h'| - a <= maximum then a else CapOf(h', maximum)..]
  {
    hide AlignStep, CapStep, CapOf, FirstKey, LastKey, OldCount;
    var h' := h + [e];
    SuffixOfLonger(h, e, s);
    var a := s + AlignStep(h'[s..], e.at - preroll);
    DropDrop(h', s, a - s);
    CapStepSuffix(h', a, maximum);
    DropDrop(h', a, CapStep(h'[a..], maximum));
  }

  lemma SuffixOfLonger(h: seq<Entry>, e: Entry, s: nat)
    requires s <= |h|
    ensures h[s..] + [e] == (h + [e])[s..]
  {
  }

  lemma AlignOfSuffix(h: seq<Entry>, s: nat, cutoff: int)
    requires Sorted(h) && s <= |h|
    ensures var n, f := NewestKey(h, cutoff), FirstKey(h, s);
            s + AlignStep(h[s..], cutoff) == if n >= s then n else if f < |h| then f else s
  {
    SuffixNewest(h, s, cutoff);
    SuffixFirstKey(h, s, s);
    hide FirstKey, NewestKey, LastKey, OldCount;
  }

  /** No keyframe at all: the ring keeps the newest `maximum` packets. */
  lemma PushWithoutKeys(h: seq<Entry>, e: Entry, preroll: int, maximum: nat)
    requires Sorted(h + [e]) && FirstKey(h + [e], 0) == |h + [e]| && maximum > 0
    ensures PushStep(Window(h, preroll, maximum), e, preroll, maximum) == Window(h + [e], preroll, maximum)
  {
    hide Window, PushStep, AlignStep, FirstKey, NewestKey, Sorted;
    var h', s := h + [e], if |h| <= maximum then 0 else |h| - maximum;
    assert forall i :: 0 <= i < |h'| ==> !Key(h'[i]);
    assert forall i :: 0 <= i < |h| ==> h[i] == h'[i];
    WindowWithoutKeys(h, preroll, maximum);
    WindowWithoutKeys(h', preroll, maximum);
    AlignOfSuffix(h', s, e.at - preroll);
    PushOnSuffix(h, e, s, preroll, maximum);
    FirstKeyIs(h', s, |h'|);
    if |h'| > maximum {
      FirstKeyIs(h', |h'| - maximum, |h'|);
    }
  }

  lemma WindowWithoutKeys(h: seq<Entry>, preroll: int, maximum: nat)
    requires forall i :: 0 <= i < |h| ==> !Key(h[i])
    ensures Window(h, preroll, maximum) == h[if |h| <= maximum then 0 else |h| - maximum..]
  {
    FirstKeyIs(h, 0, |h|);
    if |h| > maximum {
      FirstKeyIs(h, |h| - maximum, |h|);
    }
  }

  /** The ring still holds the packet that the longer history aligns to. */
  lemma PushKept(h: seq<Entry>, e: Entry, s: nat, preroll: int, maximum: nat)
    requires s <= |h| && Sorted(h + [e]) && FirstKey(h + [e], 0) < |h + [e]|
    requires AlignedStart(h + [e], e.at - preroll) >= s
    ensures PushStep(h[s..], e, preroll, maximum) == Window(h + [e], preroll, maximum)
  {
    hide PushStep, AlignStep, FirstKey, AlignedStart, Sorted, Window;
    var h' := h + [e];
    assert h'[|h'| - 1] == e;
    AlignIsKept(h', s, e.at - preroll);
    WindowForm(h', preroll, maximum);
    PushOnSuffix(h, e, s, preroll, maximum);
  }

  lemma AlignIsKept(h: seq<Entry>, s: nat, cutoff: int)
    requires s <= |h| && Sorted(h) && FirstKey(h, 0) < |h| && AlignedStart(h, cutoff) >= s
    ensures s + AlignStep(h[s..], cutoff) == AlignedStart(h, cutoff)
  {
    AlignOfSuffix(h, s, cutoff);
    if FirstKey(h, 0) >= s {
      FirstKeySkips(h, 0, s);
    }
    hide AlignStep, FirstKey, NewestKey, Sorted;
  }

  lemma WindowForm(h: seq<Entry>, preroll: int, maximum: nat)
    requires h != []
    ensures var a := AlignedStart(h, h[|h| - 1].at - preroll);
            Window(h, preroll, maximum) == h[if |h| - a <= maximum then a else CapOf(h, maximum)..]
  {
    hide FirstKey, AlignedStart;
  }

  /** The hard cap has already dropped the packet that the longer history would align to. */
  lemma PushCapped(h: seq<Entry>, e: Entry, preroll: int, maximum: nat)
    requires Sorted(h + [e]) && FirstKey(h + [e], 0) < |h + [e]| && |h| > maximum > 0
    requires AlignedStart(h + [e], e.at - preroll) < CapOf(h, maximum)
    ensures PushStep(h[CapOf(h, maximum)..], e, preroll, maximum) == Window(h + [e], preroll, maximum)
  {
    hide PushStep, AlignStep, FirstKey, NewestKey, Sorted;
    var h', s := h + [e], CapOf(h, maximum);
    var a := AlignedStart(h', e.at - preroll);
    LostIsOld(h, e, a, maximum);
    assert h'[|h'| - 1] == e;
    assert Window(h', preroll, maximum) == h'[CapOf(h', maximum)..];
    hide Window, CapOf;
    AlignOfSuffix(h', s, e.at - preroll);
    PushOnSuffix(h, e, s, preroll, maximum);
    AfterCap(h, e, maximum);
  }

  /** A keyframe before the capped start lies outside the newest `maximum` packets. */
  lemma LostIsOld(h: seq<Entry>, e: Entry, a: nat, maximum: nat)
    requires |h| > maximum > 0 && a < CapOf(h, maximum) && Key((h + [e])[a])
    ensures a < |h| - maximum
  {
    assert (h + [e])[a] == h[a];
  }

  /** The first keyframe kept by the cap stays the first one kept after one more packet. */
  lemma AfterCap(h: seq<Entry>, e: Entry, maximum: nat)
    requires |h| > maximum > 0
    ensures var h' := h + [e]; var s := CapOf(h, maximum); var f := FirstKey(h', s);
            var a := if f < |h'| then f else s;
            |h'| - a <= maximum ==> a == CapOf(h', maximum)
  {
    var h', s := h + [e], CapOf(h, maximum);
    var f := FirstKey(h', s);
    assert forall i :: 0 <= i < |h| ==> h'[i] == h[i];
    if f < |h'| && |h'| - f <= maximum {
      assert forall i :: |h| - maximum <= i < f ==> !Key(h'[i]);
      FirstKeyIs(h', |h'| - maximum, f);
    }
  }

  lemma PushExtendsWindow(h: seq<Entry>, e: Entry, preroll: int, maximum: nat)
    requires Sorted(h + [e]) && maximum > 0
    ensures PushStep(Window(h, preroll, maximum), e, preroll, maximum) == Window(h + [e], preroll, maximum)
  {
    var h' := h + [e];
    if FirstKey(h', 0) == |h'| {
      PushWithoutKeys(h, e, preroll, maximum);
    } else if h == [] {
      assert h[0..] == [];
      PushKept(h, e, 0, preroll, maximum);
    } else {
      var a, a' := AlignedStart(h, h[|h| - 1].at - preroll), AlignedStart(h', e.at - preroll);
      AlignedGrows(h, e, preroll);
      hide AlignedStart, PushStep;
      if |h| - a <= maximum {
        PushKept(h, e, a, preroll, maximum);
      } else if a' >= CapOf(h, maximum) {
        PushKept(h, e, CapOf(h, maximum), preroll, maximum);
      } else {
        PushCapped(h, e, preroll, maximum);
      }
    }
  }

  lemma AlignedGrows(h: seq<Entry>, e: Entry, preroll: int)
    requires h != [] && Sorted(h + [e]) && FirstKey(h + [e], 0) < |h + [e]|
    ensures AlignedStart(h, h[|h| - 1].at - preroll) <= AlignedStart(h + [e], e.at - preroll)
  {
    var h' := h + [e];
    assert h'[|h| - 1] == h[|h| - 1] && h'[|h|] == e;
    NewestGrows(h, e, h[|h| - 1].at - preroll, e.at - preroll);
    var f, f', n' := FirstKey(h, 0), FirstKey(h', 0), NewestKey(h', e.at - preroll);
    assert forall i :: 0 <= i < |h| ==> h'[i] == h[i];
    if f < |h| {
      FirstKeyIs(h', 0, f);
      if n' >= 0 {
        assert n' >= f;
      }
    }
  }

  // ---- Whole histories ----

  /** The ring after pushing a history packet by packet. */
  function Replay(h: seq<Entry>, preroll: int, maximum: nat): seq<Entry> {
    if h == [] then []
    else PushStep(Replay(h[..|h| - 1], preroll, maximum), h[|h| - 1], preroll, maximum)
  }

  /** The incremental ring equals the trim of the whole history, for every history in time order. */
  lemma {:induction false} IncrementalEqualsFromScratch(h: seq<Entry>, preroll: int, maximum: nat)
    requires Sorted(h) && maximum > 0
    ensures Replay(h, preroll, maximum) == Window(h, preroll, maximum)
  {
    if h != [] {
      var front, e := h[..|h| - 1], h[|h| - 1];
      assert front + [e] == h;
      IncrementalEqualsFromScratch(front, preroll, maximum);
      hide Window, PushStep;
      PushExtendsWindow(front, e, preroll, maximum);
    }
  }

  // ---- The default capacity ----

  const FRAME_RATE: nat := 240
  const GROUP: nat := 8192

  function DefaultCapacity(prerollMs: nat): (c: nat)
    ensures c > GROUP || prerollMs == 0
  {
    GROUP + (prerollMs * FRAME_RATE + 999) / 1000
  }

  /** Consecutive packets are at least 1/240 s apart. */
  predicate Spaced(h: seq<Entry>) {
    forall i :: 0 <= i < |h| - 1 ==> FRAME_RATE * (h[i + 1].at - h[i].at) >= SECOND
  }

  /** Every 8192 consecutive packets include a keyframe. */
  ghost predicate KeyDense(h: seq<Entry>) {
    forall i :: 0 <= i <= |h| - GROUP ==> HasKey(h, i)
  }

  ghost predicate HasKey(h: seq<Entry>, from: int) {
    exists k :: 0 <= k < |h| && from <= k < from + GROUP && Key(h[k])
  }

  lemma {:induction false} SpacedApart(h: seq<Entry>, i: nat, k: nat)
    requires Spaced(h) && i <= k < |h|
    ensures FRAME_RATE * (h[k].at - h[i].at) >= (k - i) * SECOND
    decreases k - i
  {
    if i < k {
      SpacedApart(h, i, k - 1);
    }
  }

  lemma SpacedIsSorted(h: seq<Entry>)
    requires Spaced(h)
    ensures Sorted(h)
  {
    forall i, k | 0 <= i < k < |h| ensures h[i].at <= h[k].at {
      SpacedApart(h, i, k);
    }
  }

  /** At most `ceil(240 * preroll)` packets are newer than the cutoff. */
  lemma FewAreNew(h: seq<Entry>, prerollMs: nat, i: nat)
    requires Spaced(h) && i < |h| && h[i].at > h[|h| - 1].at - prerollMs * MILLISECOND
    ensures |h| - i <= (prerollMs * FRAME_RATE + 999) / 1000
  {
    SpacedApart(h, i, |h| - 1);
    assert (|h| - 1 - i) * 1000 < prerollMs * FRAME_RATE;
  }

  /** With the default capacity the time-aligned window always fits: the hard cap never applies. */
  lemma DefaultCapacitySuffices(h: seq<Entry>, prerollMs: nat)
    requires h != [] && Spaced(h) && KeyDense(h)
    ensures var a := AlignedStart(h, h[|h| - 1].at - prerollMs * MILLISECOND);
            && |h| - a <= DefaultCapacity(prerollMs)
            && Replay(h, prerollMs * MILLISECOND, DefaultCapacity(prerollMs)) == h[a..]
  {
    SpacedIsSorted(h);
    var cutoff := h[|h| - 1].at - prerollMs * MILLISECOND;
    AlignedIsNear(h, prerollMs);
    IncrementalEqualsFromScratch(h, prerollMs * MILLISECOND, DefaultCapacity(prerollMs));
    WindowForm(h, prerollMs * MILLISECOND, DefaultCapacity(prerollMs));
    hide Window, Replay, AlignedStart;
  }

  lemma AlignedIsNear(h: seq<Entry>, prerollMs: nat)
    requires h != [] && Spaced(h) && Sorted(h) && KeyDense(h)
    ensures |h| - AlignedStart(h, h[|h| - 1].at - prerollMs * MILLISECOND) <= DefaultCapacity(prerollMs)
  {
    var cutoff := h[|h| - 1].at - prerollMs * MILLISECOND;
    var c := OldCount(h, cutoff, 0);
    hide OldCount;
    if c < |h| {
      FewAreNew(h, prerollMs, c);
    }
    if c >= GROUP {
      assert HasKey(h, c - GROUP);
      var k :| 0 <= k < |h| && c - GROUP <= k < c && Key(h[k]);
      assert h[k].at <= cutoff;
      assert NewestKey(h, cutoff) >= k;
      hide NewestKey, FirstKey;
    }
  }

  /** The hard-cap branch of a push is not taken. */
  lemma HardCapNeverFires(h: seq<Entry>, e: Entry, prerollMs: nat)
    requires Spaced(h + [e]) && KeyDense(h + [e])
    ensures var s := Replay(h, prerollMs * MILLISECOND, DefaultCapacity(prerollMs)) + [e];
            |s| - AlignStep(s, e.at - prerollMs * MILLISECOND) <= DefaultCapacity(prerollMs)
  {
    hide AlignStep, AlignedStart, Spaced, KeyDense, Sorted;
    if h == [] {
      FirstPushIsKept(e, prerollMs);
    } else {
      hide Replay, DefaultCapacity;
      SpacedIsSorted(h + [e]);
      PrefixIsDense(h, e);
      assert (h + [e])[|h|] == e;
      AlignedIsNear(h + [e], prerollMs);
      DefaultCapacitySuffices(h, prerollMs);
      var a := AlignedStart(h, h[|h| - 1].at - prerollMs * MILLISECOND);
      SuffixOfLonger(h, e, a);
      StepStaysNear(h, e, a, prerollMs);
    }
  }

  lemma FirstPushIsKept(e: Entry, prerollMs: nat)
    ensures |Replay([], prerollMs * MILLISECOND, DefaultCapacity(prerollMs)) + [e]| == 1 <= DefaultCapacity(prerollMs)
  {
  }

  lemma PrefixIsDense(h: seq<Entry>, e: Entry)
    requires Spaced(h + [e]) && KeyDense(h + [e])
    ensures Spaced(h) && KeyDense(h)
  {
    var h' := h + [e];
    assert forall i :: 0 <= i < |h| ==> h'[i] == h[i];
    forall i | 0 <= i <= |h| - GROUP ensures HasKey(h, i) {
      assert HasKey(h', i);
      var k :| 0 <= k < |h'| && i <= k < i + GROUP && Key(h'[k]);
      assert Key(h[k]);
    }
  }

  lemma StepStaysNear(h: seq<Entry>, e: Entry, a: nat, prerollMs: nat)
    requires h != [] && Sorted(h + [e]) && a == AlignedStart(h, h[|h| - 1].at - prerollMs * MILLISECOND)
    requires |h| - a <= DefaultCapacity(prerollMs)
    requires |h + [e]| - AlignedStart(h + [e], e.at - prerollMs * MILLISECOND) <= DefaultCapacity(prerollMs)
    ensures var t := (h + [e])[a..];
            |t| - AlignStep(t, e.at - prerollMs * MILLISECOND) <= DefaultCapacity(prerollMs)
  {
    hide AlignStep, Sorted, FirstKey, AlignedStart, DefaultCapacity;
    var h', cutoff := h + [e], e.at - prerollMs * MILLISECOND;
    if FirstKey(h', 0) < |h'| {
      AlignedGrows(h, e, prerollMs * MILLISECOND);
      AlignIsKept(h', a, cutoff);
    } else {
      NoKeysStart(h, e, h[|h| - 1].at - prerollMs * MILLISECOND, cutoff);
    }
  }

  lemma NoKeysStart(h: seq<Entry>, e: Entry, cutoff: int, cutoff': int)
    requires FirstKey(h + [e], 0) == |h + [e]|
    ensures AlignedStart(h, cutoff) == 0 && AlignedStart(h + [e], cutoff') == 0
  {
    var h' := h + [e];
    assert forall i :: 0 <= i < |h'| ==> !Key(h'[i]);
    assert forall i :: 0 <= i < |h| ==> h[i] == h'[i];
    FirstKeyIs(h, 0, |h|);
    hide FirstKey, NewestKey;
  }

  // ---- The class ----

  datatype RingResult = InvalidLimits | Created(ring: Ring)

  class Ring {
    const preroll: int
    const maximum: nat
    var packets: seq<Entry>

    constructor (prerollMs: nat, maximumPackets: nat)
      requires prerollMs <= 60_000
      ensures preroll == prerollMs * MILLISECOND && packets == []
      ensures maximum == (if maximumPackets == 0 then DefaultCapacity(prerollMs) else maximumPackets) > 0
    {
      preroll := prerollMs * MILLISECOND;
      maximum := if maximumPackets == 0 then DefaultCapacity(prerollMs) else maximumPackets;
      packets := [];
    }

    /** The checked construction: limits outside 0 to 60 s are refused. */
    static method Create(prerollMs: int, maximumPackets: nat) returns (r: RingResult)
      ensures r.Created? <==> 0 <= prerollMs <= 60_000
      ensures r.Created? ==> fresh(r.ring) && r.ring.preroll == prerollMs * MILLISECOND && r.ring.packets == []
      ensures r.Created? ==>
                r.ring.maximum == if maximumPackets == 0 then DefaultCapacity(prerollMs) else maximumPackets
    {
      if prerollMs < 0 || prerollMs > 60_000 {
        return InvalidLimits;
      }
      var ring := new Ring(prerollMs, maximumPackets);
      return Created(ring);
    }

    static method FindKey(s: seq<Entry>, from: nat) returns (k: nat)
      requires from <= |s|
      ensures k == FirstKey(s, from)
    {
      k := from;
      while k < |s| && !s[k].packet.keyframe
        invariant from <= k <= |s|
        invariant forall i :: from <= i < k ==> !Key(s[i])
      {
        k := k + 1;
      }
      FirstKeyIs(s, from, k);
    }

    /** The scan over the packets no newer than `cutoff`, remembering the last keyframe seen. */
    static method ScanOld(s: seq<Entry>, cutoff: int) returns (aligned: nat)
      ensures aligned == if LastKey(s, OldCount(s, cutoff, 0)) >= 0 then LastKey(s, OldCount(s, cutoff, 0)) else |s|
    {
      aligned := |s|;
      var i := 0;
      while i < |s| && s[i].at <= cutoff
        invariant 0 <= i <= |s|
        invariant forall k :: 0 <= k < i ==> s[k].at <= cutoff
        invariant aligned == if LastKey(s, i) >= 0 then LastKey(s, i) else |s|
      {
        if s[i].packet.keyframe {
          aligned := i;
        }
        i := i + 1;
      }
      OldCountIs(s, cutoff, 0, i);
    }

    /** The time and keyframe trim. */
    method Align(cutoff: int)
      modifies this
      ensures packets == old(packets)[AlignStep(old(packets), cutoff)..]
    {
      hide FirstKey, LastKey, OldCount;
      var aligned := ScanOld(packets, cutoff);
      if aligned == |packets| {
        aligned := FindKey(packets, 0);
      }
      if aligned < |packets| {
        packets := packets[aligned..];
      }
    }

    /** The hard cap. */
    method Cap()
      modifies this
      ensures packets == old(packets)[CapStep(old(packets), maximum)..]
    {
      hide FirstKey;
      if |packets| > maximum {
        var hardBegin := |packets| - maximum;
        var keyframe := FindKey(packets, hardBegin);
        packets := packets[if keyframe < |packets| then keyframe else hardBegin..];
      }
    }

    method Push(packet: Packet, receivedAt: int)
      modifies this
      ensures packets == if packet.valid then PushStep(old(packets), Entry(packet, receivedAt), preroll, maximum)
                         else old(packets)
    {
      hide AlignStep, CapStep;
      if !packet.valid {
        return;
      }
      packets := packets + [Entry(packet, receivedAt)];
      Align(receivedAt - preroll);
      Cap();
    }

    method Clear()
      modifies this
      ensures packets == []
    {
      packets := [];
    }

    /** The packets from the first keyframe on: what is written ahead of a new event. */
    method Snapshot() returns (result: seq<Packet>)
      ensures |result| == |packets| - FirstKey(packets, 0)
      ensures forall i :: 0 <= i < |result| ==> result[i] == packets[i + FirstKey(packets, 0)].packet
      ensures result != [] ==> result[0].keyframe
    {
      var begin := FindKey(packets, 0);
      var kept := packets[begin..];
      result := seq(|kept|, i requires 0 <= i < |kept| => kept[i].packet);
    }
  }

  lemma OldCountIs(s: seq<Entry>, cutoff: int, from: nat, n: nat)
    requires from <= n <= |s| && (forall i :: from <= i < n ==> s[i].at <= cutoff) && (n < |s| ==> s[n].at > cutoff)
    ensures OldCount(s, cutoff, from) == n
  {
  }
}

/** Counting, boxing and centring the changed pixels of a frame, with isolated specks left out. */
module MotionScan {
  import opened Prelude

  datatype Settings = Settings(despeckle: bool, lightswitchPercent: int)

  datatype Region = Region(minX: int, minY: int, maxX: int, maxY: int, centerX: int, centerY: int)

  datatype Detection = Detection(changedPixels: nat, lightswitchSuppressed: bool, region: Region)

  const NOWHERE: Region := Region(0, 0, 0, 0, 0, 0)

  /** A change map: one flag a pixel, row by row. */
  datatype Image = Image(width: nat, height: nat, changed: seq<bool>)

  predicate ValidImage(m: Image) {
    |m.changed| == m.width * m.height
  }

  type Pixel = (nat, nat)

  predicate Inside(m: Image, x: int, y: int) {
    0 <= x < m.width && 0 <= y < m.height
  }

  lemma InRange(m: Image, x: nat, y: nat)
    requires Inside(m, x, y)
    ensures 0 <= y * m.width + x < m.width * m.height
  {
    assert y * m.width + x < y * m.width + m.width == (y + 1) * m.width;
    assert (y + 1) * m.width <= m.height * m.width;
  }

  predicate Changed(m: Image, x: nat, y: nat)
    requires ValidImage(m) && Inside(m, x, y)
  {
    InRange(m, x, y);
    m.changed[y * m.width + x]
  }

  // ---- Which pixels count ----

  function Neighbours(m: Image, x: nat, y: nat): set<Pixel>
    requires ValidImage(m)
  {
    set px: nat, py: nat | x - 1 <= px <= x + 1 && y - 1 <= py <= y + 1 && (px, py) != (x, y)
                           && Inside(m, px, py) && Changed(m, px, py) :: (px, py)
  }

  predicate Interior(m: Image, x: nat, y: nat) {
    0 < x < m.width - 1 && 0 < y < m.height - 1
  }

  predicate Kept(m: Image, despeckle: bool, x: nat, y: nat)
    requires ValidImage(m) && Inside(m, x, y)
  {
    Changed(m, x, y) &&
    (despeckle && m.width >= 3 && m.height >= 3 && Interior(m, x, y) ==> |Neighbours(m, x, y)| >= 2)
  }

  /** The pixels that a row-by-row scan has kept before it reaches (x, y). */
  function KeptBefore(m: Image, despeckle: bool, x: nat, y: nat): set<Pixel>
    requires ValidImage(m)
  {
    set px: nat, py: nat | px < m.width && py < m.height && Kept(m, despeckle, px, py)
                           && (py < y || (py == y && px < x)) :: (px, py)
  }

  /** Every pixel that counts. */
  function KeptPixels(m: Image, despeckle: bool): set<Pixel>
    requires ValidImage(m)
  {
    set px: nat, py: nat | px < m.width && py < m.height && Kept(m, despeckle, px, py) :: (px, py)
  }

  // ---- What is said about a set of pixels ----

  ghost function SumX(s: set<Pixel>): nat
    decreases |s|
  {
    if s == {} then 0 else var p :| p in s; p.0 + SumX(s - {p})
  }

  ghost function SumY(s: set<Pixel>): nat
    decreases |s|
  {
    if s == {} then 0 else var p :| p in s; p.1 + SumY(s - {p})
  }

  lemma {:induction false} SumXInsert(s: set<Pixel>, p: Pixel)
    requires p !in s
    ensures SumX(s + {p}) == SumX(s) + p.0
    decreases |s|
  {
    var all := s + {p};
    var q :| q in all && SumX(all) == q.0 + SumX(all - {q});
    if q == p {
      assert all - {q} == s;
    } else {
      assert all - {q} == (s - {q}) + {p};
      SumXInsert(s - {q}, p);
      SumXInsert(s - {q}, q);
      assert s - {q} + {q} == s;
    }
  }

  lemma {:induction false} SumYInsert(s: set<Pixel>, p: Pixel)
    requires p !in s
    ensures SumY(s + {p}) == SumY(s) + p.1
    decreases |s|
  {
    var all := s + {p};
    var q :| q in all && SumY(all) == q.1 + SumY(all - {q});
    if q == p {
      assert all - {q} == s;
    } else {
      assert all - {q} == (s - {q}) + {p};
      SumYInsert(s - {q}, p);
      SumYInsert(s - {q}, q);
      assert s - {q} + {q} == s;
    }
  }

  /** The smallest box around the pixels. */
  predicate BoxOf(s: set<Pixel>, minX: int, minY: int, maxX: int, maxY: int) {
    && (forall p :: p in s ==> minX <= p.0 <= maxX && minY <= p.1 <= maxY)
    && (exists p :: p in s && p.0 == minX) && (exists p :: p in s && p.0 == maxX)
    && (exists p :: p in s && p.1 == minY) && (exists p :: p in s && p.1 == maxY)
  }

  // ---- The running tally ----

  datatype Tally = Tally(count: nat, sumX: nat, sumY: nat, minX: int, minY: int, maxX: int, maxY: int)

  function Add(t: Tally, x: nat, y: nat): Tally {
    Tally(t.count + 1, t.sumX + x, t.sumY + y, Min(t.minX, x), Min(t.minY, y), Max(t.maxX, x), Max(t.maxY, y))
  }

  ghost predicate Describes(m: Image, t: Tally, s: set<Pixel>) {
    && t.count == |s| && t.sumX == SumX(s) && t.sumY == SumY(s)
    && (forall p :: p in s ==> Inside(m, p.0, p.1))
    && (if s == {} then t.minX == m.width && t.minY == m.height && t.maxX == -1 && t.maxY == -1
        else BoxOf(s, t.minX, t.minY, t.maxX, t.maxY))
  }

  lemma AddBox(m: Image, t: Tally, s: set<Pixel>, x: nat, y: nat)
    requires Describes(m, t, s) && Inside(m, x, y)
    ensures var t' := Add(t, x, y); BoxOf(s + {(x, y)}, t'.minX, t'.minY, t'.maxX, t'.maxY)
  {
    hide SumX, SumY;
    var s', t' := s + {(x, y)}, Add(t, x, y);
    assert (x, y) in s';
    assert forall p :: p in s ==> p in s';
    if s != {} {
      assert exists p :: p in s' && p.0 == t'.minX by { assert exists p :: p in s && p.0 == t.minX; }
      assert exists p :: p in s' && p.0 == t'.maxX by { assert exists p :: p in s && p.0 == t.maxX; }
      assert exists p :: p in s' && p.1 == t'.minY by { assert exists p :: p in s && p.1 == t.minY; }
      assert exists p :: p in s' && p.1 == t'.maxY by { assert exists p :: p in s && p.1 == t.maxY; }
    }
  }

  lemma AddDescribes(m: Image, t: Tally, s: set<Pixel>, x: nat, y: nat)
    requires Describes(m, t, s) && Inside(m, x, y) && (x, y) !in s
    ensures Describes(m, Add(t, x, y), s + {(x, y)})
  {
    SumXInsert(s, (x, y));
    SumYInsert(s, (x, y));
    AddBox(m, t, s, x, y);
    hide SumX, SumY, BoxOf;
  }

  lemma KeptStep(m: Image, despeckle: bool, x: nat, y: nat)
    requires ValidImage(m) && Inside(m, x, y)
    ensures (x, y) !in KeptBefore(m, despeckle, x, y)
    ensures KeptBefore(m, despeckle, x + 1, y) ==
            KeptBefore(m, despeckle, x, y) + (if Kept(m, despeckle, x, y) then {(x, y)} else {})
  {
    hide Kept;
  }

  lemma KeptRow(m: Image, despeckle: bool, y: nat)
    requires ValidImage(m)
    ensures KeptBefore(m, despeckle, m.width, y) == KeptBefore(m, despeckle, 0, y + 1)
  {
    hide Kept;
  }

  /** Visiting one pixel keeps the tally a description of what the scan has kept. */
  lemma Visit(m: Image, despeckle: bool, t: Tally, x: nat, y: nat)
    requires ValidImage(m) && Inside(m, x, y) && Describes(m, t, KeptBefore(m, despeckle, x, y))
    ensures Describes(m, if Kept(m, despeckle, x, y) then Add(t, x, y) else t, KeptBefore(m, despeckle, x + 1, y))
  {
    KeptStep(m, despeckle, x, y);
    hide KeptBefore, Kept, Describes;
    if Kept(m, despeckle, x, y) {
      AddDescribes(m, t, KeptBefore(m, despeckle, x, y), x, y);
    }
  }

  // ---- Neighbours ----

  function Bit(b: bool): nat { if b then 1 else 0 }

  /** Those of three pixels whose flags are set. */
  function Triple(p: Pixel, a: bool, q: Pixel, b: bool, r: Pixel, c: bool): set<Pixel> {
    (if a then {p} else {}) + (if b then {q} else {}) + (if c then {r} else {})
  }

  lemma TripleSize(p: Pixel, a: bool, q: Pixel, b: bool, r: Pixel, c: bool)
    requires p != q && q != r && p != r
    ensures |Triple(p, a, q, b, r, c)| == Bit(a) + Bit(b) + Bit(c)
  {
    var first := if a then {p} else {};
    var second := if b then {q} else {};
    var third := if c then {r} else {};
    assert |first + second| == Bit(a) + Bit(b) by { assert first !! second; }
    assert first + second !! third;
  }

  /** The changed pixels among columns x - 1 to x + 1 of one row, the middle one on request. */
  function RowOf(m: Image, x: nat, y: nat, middle: bool): set<Pixel>
    requires ValidImage(m) && 0 < x < m.width - 1 && y < m.height
  {
    Triple((x - 1, y), Changed(m, x - 1, y), (x, y), middle && Changed(m, x, y), (x + 1, y), Changed(m, x + 1, y))
  }

  lemma InRow(m: Image, x: nat, y: nat, middle: bool, p: Pixel)
    requires ValidImage(m) && 0 < x < m.width - 1 && y < m.height
    ensures p in RowOf(m, x, y, middle) <==>
            p.1 == y && x - 1 <= p.0 <= x + 1 && (middle || p.0 != x) && Changed(m, p.0, p.1)
  {
    hide Changed;
    assert x - 1 <= p.0 <= x + 1 ==> p.0 == x - 1 || p.0 == x || p.0 == x + 1;
  }

  lemma InNeighbours(m: Image, x: nat, y: nat, p: Pixel)
    requires ValidImage(m) && Interior(m, x, y)
    ensures p in Neighbours(m, x, y) <==>
            x - 1 <= p.0 <= x + 1 && y - 1 <= p.1 <= y + 1 && p != (x, y) && Changed(m, p.0, p.1)
  {
    hide Changed;
    assert p == (p.0, p.1);
  }

  /** The eight flags around an interior pixel count its changed neighbours. */
  lemma NeighbourCount(m: Image, x: nat, y: nat)
    requires ValidImage(m) && Interior(m, x, y)
    ensures Bit(Changed(m, x - 1, y - 1)) + Bit(Changed(m, x, y - 1)) + Bit(Changed(m, x + 1, y - 1))
            + Bit(Changed(m, x - 1, y)) + Bit(Changed(m, x + 1, y))
            + Bit(Changed(m, x - 1, y + 1)) + Bit(Changed(m, x, y + 1)) + Bit(Changed(m, x + 1, y + 1))
            == |Neighbours(m, x, y)|
  {
    hide Changed, Triple, Neighbours;
    var above, level, below := RowOf(m, x, y - 1, true), RowOf(m, x, y, false), RowOf(m, x, y + 1, true);
    TripleSize((x - 1, y - 1), Changed(m, x - 1, y - 1), (x, y - 1), Changed(m, x, y - 1),
               (x + 1, y - 1), Changed(m, x + 1, y - 1));
    TripleSize((x - 1, y), Changed(m, x - 1, y), (x, y), false, (x + 1, y), Changed(m, x + 1, y));
    TripleSize((x - 1, y + 1), Changed(m, x - 1, y + 1), (x, y + 1), Changed(m, x, y + 1),
               (x + 1, y + 1), Changed(m, x + 1, y + 1));
    RowsAreNeighbours(m, x, y);
  }

  lemma RowsAreNeighbours(m: Image, x: nat, y: nat)
    requires ValidImage(m) && Interior(m, x, y)
    ensures var above, level, below := RowOf(m, x, y - 1, true), RowOf(m, x, y, false), RowOf(m, x, y + 1, true);
            Neighbours(m, x, y) == above + level + below && |Neighbours(m, x, y)| == |above| + |level| + |below|
  {
    hide Changed, RowOf, Neighbours;
    var above, level, below := RowOf(m, x, y - 1, true), RowOf(m, x, y, false), RowOf(m, x, y + 1, true);
    forall p: Pixel
      ensures p in above + level + below <==> p in Neighbours(m, x, y)
      ensures p in above ==> p.1 == y - 1
      ensures p in level ==> p.1 == y
      ensures p in below ==> p.1 == y + 1
    {
      InRow(m, x, y - 1, true, p);
      InRow(m, x, y, false, p);
      InRow(m, x, y + 1, true, p);
      InNeighbours(m, x, y, p);
    }
    assert above !! level && above + level !! below;
  }

  // ---- The scan ----

  predicate Filters(m: Image, despeckle: bool) {
    despeckle && m.width >= 3 && m.height >= 3
  }

  /** A row in which every changed pixel counts: any row without the filter, else the first and last. */
  method ScanWholeRow(m: Image, despeckle: bool, y: nat, before: Tally) returns (t: Tally)
    requires ValidImage(m) && y < m.height && Describes(m, before, KeptBefore(m, despeckle, 0, y))
    requires !Filters(m, despeckle) || y == 0 || y == m.height - 1
    ensures Describes(m, t, KeptBefore(m, despeckle, 0, y + 1))
  {
    hide Describes, KeptBefore, Neighbours;
    t := before;
    for x := 0 to m.width
      invariant Describes(m, t, KeptBefore(m, despeckle, x, y))
    {
      Visit(m, despeckle, t, x, y);
      InRange(m, x, y);
      if m.changed[y * m.width + x] {
        t := Add(t, x, y);
      }
    }
    KeptRow(m, despeckle, y);
  }

  method CountNeighbours(m: Image, x: nat, y: nat) returns (n: nat)
    requires ValidImage(m) && Interior(m, x, y)
    ensures n == |Neighbours(m, x, y)|
  {
    hide Neighbours, Changed;
    NeighbourCount(m, x, y);
    n := Bit(Changed(m, x - 1, y - 1)) + Bit(Changed(m, x, y - 1)) + Bit(Changed(m, x + 1, y - 1))
    + Bit(Changed(m, x - 1, y)) + Bit(Changed(m, x + 1, y))
    + Bit(Changed(m, x - 1, y + 1)) + Bit(Changed(m, x, y + 1)) + Bit(Changed(m, x + 1, y + 1));
  }

  /** A row with a border pixel at either end and filtered pixels between. */
  method ScanFilteredRow(m: Image, despeckle: bool, y: nat, before: Tally) returns (t: Tally)
    requires ValidImage(m) && Filters(m, despeckle) && 0 < y < m.height - 1
    requires Describes(m, before, KeptBefore(m, despeckle, 0, y))
    ensures Describes(m, t, KeptBefore(m, despeckle, 0, y + 1))
  {
    hide Describes, KeptBefore, Neighbours, Changed;
    t := before;
    Visit(m, despeckle, t, 0, y);
    if Changed(m, 0, y) {
      t := Add(t, 0, y);
    }
    for x := 1 to m.width - 1
      invariant Describes(m, t, KeptBefore(m, despeckle, x, y))
    {
      Visit(m, despeckle, t, x, y);
      if !Changed(m, x, y) {
        continue;
      }
      var neighbours := CountNeighbours(m, x, y);
      if neighbours >= 2 {
        t := Add(t, x, y);
      }
    }
    Visit(m, despeckle, t, m.width - 1, y);
    if Changed(m, m.width - 1, y) {
      t := Add(t, m.width - 1, y);
    }
    KeptRow(m, despeckle, y);
  }

  method ScanImage(m: Image, despeckle: bool) returns (t: Tally)
    requires ValidImage(m)
    ensures Describes(m, t, KeptPixels(m, despeckle))
  {
    t := Tally(0, 0, 0, m.width, m.height, -1, -1);
    assert KeptBefore(m, despeckle, 0, 0) == {};
    assert KeptBefore(m, despeckle, 0, m.height) == KeptPixels(m, despeckle) by { hide Kept; }
    hide KeptBefore, Kept, KeptPixels;
    assert Describes(m, t, KeptBefore(m, despeckle, 0, 0));
    hide Describes;
    for y := 0 to m.height
      invariant Describes(m, t, KeptBefore(m, despeckle, 0, y))
    {
      if Filters(m, despeckle) && 0 < y < m.height - 1 {
        t := ScanFilteredRow(m, despeckle, y, t);
      } else {
        t := ScanWholeRow(m, despeckle, y, t);
      }
    }
  }

  /**
   The detector's verdict on a change map; `activePixels` are those its mask leaves enabled. When at
   least the given percentage of them changed, the light was switched rather than something moved.
   */
  method Detect(m: Image, settings: Settings, activePixels: nat) returns (r: Detection)
    requires ValidImage(m)
    ensures var kept := KeptPixels(m, settings.despeckle);
            if settings.lightswitchPercent > 0 && activePixels > 0
               && |kept| * 100 >= activePixels * settings.lightswitchPercent
            then r == Detection(0, true, NOWHERE)
            else
              && r.changedPixels == |kept| && !r.lightswitchSuppressed
              && (if kept == {} then r.region == NOWHERE
                  else
                    && BoxOf(kept, r.region.minX, r.region.minY, r.region.maxX, r.region.maxY)
                    && r.region.centerX == SumX(kept) / |kept| && r.region.centerY == SumY(kept) / |kept|)
  {
    var t := ScanImage(m, settings.despeckle);
    hide KeptPixels, SumX, SumY, BoxOf;
    r := Detection(t.count, false, NOWHERE);
    if settings.lightswitchPercent > 0 && activePixels > 0
       && t.count * 100 >= activePixels * settings.lightswitchPercent {
      r := r.(lightswitchSuppressed := true, changedPixels := 0);
    } else if t.count > 0 {
      r := r.(region := Region(t.minX, t.minY, t.maxX, t.maxY, t.sumX / t.count, t.sumY / t.count));
    }
  }

  // ---- The centroid ----

  lemma {:induction false} SumsWithinBox(s: set<Pixel>, minX: int, minY: int, maxX: int, maxY: int)
    requires forall p :: p in s ==> minX <= p.0 <= maxX && minY <= p.1 <= maxY
    ensures minX * |s| <= SumX(s) <= maxX * |s| && minY * |s| <= SumY(s) <= maxY * |s|
    decreases |s|
  {
    if s != {} {
      var p :| p in s;
      SumsWithinBox(s - {p}, minX, minY, maxX, maxY);
      SumXInsert(s - {p}, p);
      SumYInsert(s - {p}, p);
      assert s - {p} + {p} == s;
      OneMore(|s| - 1, minX, maxX, SumX(s - {p}), p.0);
      OneMore(|s| - 1, minY, maxY, SumY(s - {p}), p.1);
    }
  }

  lemma OneMore(n: nat, low: int, high: int, sum: int, v: int)
    requires low * n <= sum <= high * n && low <= v <= high
    ensures low * (n + 1) <= sum + v <= high * (n + 1)
  {
  }

  /** The centroid of a reported region lies inside its box. */
  lemma CentroidInsideBox(s: set<Pixel>, minX: int, minY: int, maxX: int, maxY: int)
    requires s != {} && BoxOf(s, minX, minY, maxX, maxY)
    ensures minX <= SumX(s) / |s| <= maxX && minY <= SumY(s) / |s| <= maxY
  {
    SumsWithinBox(s, minX, minY, maxX, maxY);
    hide SumX, SumY, BoxOf;
    Between(SumX(s), |s|, minX, maxX);
    Between(SumY(s), |s|, minY, maxY);
  }

  lemma Between(sum: int, n: nat, low: int, high: int)
    requires n > 0 && low * n <= sum <= high * n
    ensures low <= sum / n <= high
  {
    var q := sum / n;
    assert q * n <= sum < (q + 1) * n by {
      assert sum == q * n + sum % n && (q + 1) * n == q * n + n;
    }
    Cancel(low, q + 1, n);
    assert (high + 1) * n == high * n + n;
    Cancel(q, high + 1, n);
  }

  lemma Cancel(a: int, b: int, n: nat)
    requires a * n < b * n
    ensures a < b
  {
    Scaled(b, a, n);
  }

  lemma Scaled(a: int, b: int, n: nat)
    ensures a <= b ==> a * n <= b * n
  {
  }
}

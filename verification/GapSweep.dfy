// The widest empty band of a page on one axis, which is where the XY-cut
// splits it.
//
// The sweep that finds the band is a loop over sorted projections.  It is
// proved equal to a function, and the function is proved to find a band that
// is empty, as wide as any, and present exactly when some point of the span
// is touched by no region.
module GapSweep {
  import opened Basics
  import opened Regions
  import opened Sorting

  // ------------------------------------------------------------ the sweep

  datatype Interval = Interval(lo: int, hi: int)

  // An empty band: how wide it is and where its middle lies.  Positions that can
  // fall between two pixels are counted in half pixels, so they stay whole.
  datatype Gap = Gap(width: int, cut2: int)

  predicate LexLe(a: Interval, b: Interval) {
    a.lo < b.lo || (a.lo == b.lo && a.hi <= b.hi)
  }

  function Project(axis: Axis): Region -> Interval {
    (r: Region) => Interval(Lo(r, axis), Hi(r, axis))
  }

  function Projections(rs: seq<Region>, axis: Axis): seq<Interval> {
    Sort(Map(rs, Project(axis)), LexLe)
  }

  // How far the first k intervals reach.
  function Reach(iv: seq<Interval>, k: nat): int
    requires 1 <= k <= |iv|
  {
    if k == 1 then iv[0].hi
    else
      var before := Reach(iv, k - 1);
      if before < iv[k - 1].hi then iv[k - 1].hi else before
  }

  // The gap in front of position i of the sorted projections.
  function GapBefore(iv: seq<Interval>, i: nat): int
    requires 1 <= i < |iv|
  {
    iv[i].lo - Reach(iv, i)
  }

  // The widest gap in front of one of iv[1], ..., iv[k - 1]; the first wins a tie.
  function WidestBefore(iv: seq<Interval>, k: nat): Option<Gap>
    requires 1 <= k <= |iv|
  {
    if k == 1 then None
    else
      var best, width := WidestBefore(iv, k - 1), GapBefore(iv, k - 1);
      if width > 0 && (best.None? || width > best.value.width)
      then Some(Gap(width, Reach(iv, k - 1) + iv[k - 1].lo))
      else best
  }

  function WidestGap(rs: seq<Region>, axis: Axis): Option<Gap>
    requires rs != []
  {
    ProjectionsSize(rs, axis);
    WidestBefore(Projections(rs, axis), |rs|)
  }

  lemma ProjectionsSize(rs: seq<Region>, axis: Axis)
    ensures |Projections(rs, axis)| == |rs|
  {
    SortIsPermutation(Map(rs, Project(axis)), LexLe);
  }

  method SweepWidestGap(rs: seq<Region>, axis: Axis) returns (best: Option<Gap>)
    requires rs != []
    ensures best == WidestGap(rs, axis)
  {
    ProjectionsSize(rs, axis);
    var iv := Projections(rs, axis);
    best := None;
    var reach := iv[0].hi;
    for i := 1 to |iv|
      invariant reach == Reach(iv, i)
      invariant best == WidestBefore(iv, i)
    {
      var start, end := iv[i].lo, iv[i].hi;
      if start > reach {
        var width := start - reach;
        if best.None? || width > best.value.width {
          best := Some(Gap(width, reach + start));
        }
      }
      reach := if end > reach then end else reach;
    }
  }

  // ------------------------------------------ what the sweep finds, meant

  ghost predicate Proper(rs: seq<Region>) {
    forall r :: r in rs ==> r.x0 <= r.x1 && r.y0 <= r.y1
  }

  // No region reaches into (a, b), and there are regions on both sides.
  ghost predicate EmptyBand(rs: seq<Region>, axis: Axis, a: int, b: int) {
    && a < b
    && (forall r :: r in rs ==> Hi(r, axis) <= a || b <= Lo(r, axis))
    && (exists r :: r in rs && Hi(r, axis) <= a)
    && (exists r :: r in rs && b <= Lo(r, axis))
  }

  // A point of the span, in half pixels, that no region touches.
  ghost predicate Uncovered(rs: seq<Region>, axis: Axis, p2: int) {
    && (forall r :: r in rs ==> 2 * Hi(r, axis) < p2 || p2 < 2 * Lo(r, axis))
    && (exists r :: r in rs && 2 * Hi(r, axis) < p2)
    && (exists r :: r in rs && p2 < 2 * Lo(r, axis))
  }

  lemma LexLeIsOrder()
    ensures TotalPreorder(LexLe)
  {
  }

  lemma ProjectionsSorted(rs: seq<Region>, axis: Axis)
    ensures var iv := Projections(rs, axis);
            |iv| == |rs| && forall i, j :: 0 <= i < j < |iv| ==> iv[i].lo <= iv[j].lo
  {
    LexLeIsOrder();
    SortSorts(Map(rs, Project(axis)), LexLe);
    ProjectionsSize(rs, axis);
  }

  // Which region an interval of the sorted projections came from, and back.
  lemma RegionOf(rs: seq<Region>, axis: Axis, i: nat) returns (r: Region)
    requires i < |Projections(rs, axis)|
    ensures r in rs && Projections(rs, axis)[i] == Interval(Lo(r, axis), Hi(r, axis))
  {
    var m := Map(rs, Project(axis));
    SortIsPermutation(m, LexLe);
    SameElements(m, Projections(rs, axis));
    assert Projections(rs, axis)[i] in m;
    var j :| 0 <= j < |m| && m[j] == Projections(rs, axis)[i];
    r := rs[j];
  }

  lemma IntervalOf(rs: seq<Region>, axis: Axis, r: Region) returns (i: nat)
    requires r in rs
    ensures i < |Projections(rs, axis)|
    ensures Projections(rs, axis)[i] == Interval(Lo(r, axis), Hi(r, axis))
  {
    var m := Map(rs, Project(axis));
    SortIsPermutation(m, LexLe);
    SameElements(m, Projections(rs, axis));
    var j :| 0 <= j < |rs| && rs[j] == r;
    assert m[j] in Projections(rs, axis);
    i :| 0 <= i < |Projections(rs, axis)| && Projections(rs, axis)[i] == m[j];
  }

  lemma {:induction false} ReachBounds(iv: seq<Interval>, k: nat) returns (top: nat)
    requires 1 <= k <= |iv|
    ensures forall i :: 0 <= i < k ==> iv[i].hi <= Reach(iv, k)
    ensures top < k && iv[top].hi == Reach(iv, k)
  {
    top := 0;
    if k > 1 {
      top := ReachBounds(iv, k - 1);
      if Reach(iv, k - 1) < iv[k - 1].hi { top := k - 1; }
    }
  }

  lemma {:induction false} WidestBeforeIsMaximum(iv: seq<Interval>, k: nat)
    requires 1 <= k <= |iv|
    ensures WidestBefore(iv, k).None? ==> forall i :: 1 <= i < k ==> GapBefore(iv, i) <= 0
    ensures var best := WidestBefore(iv, k);
            best.Some? ==>
              && best.value.width > 0
              && (forall i :: 1 <= i < k ==> GapBefore(iv, i) <= best.value.width)
              && (exists i :: 1 <= i < k && GapBefore(iv, i) == best.value.width
                              && best.value.cut2 == Reach(iv, i) + iv[i].lo
                              && forall j :: 1 <= j < i ==> GapBefore(iv, j) < best.value.width)
  {
    if k > 1 {
      WidestBeforeIsMaximum(iv, k - 1);
    }
  }

  // In sorted projections, a stretch nobody enters shows up as a gap at the
  // first interval that starts behind it.  Everything ends by a or starts at b.
  lemma BandShowsAsGap(iv: seq<Interval>, a: int, b: int) returns (i: nat)
    requires forall i, j :: 0 <= i < j < |iv| ==> iv[i].lo <= iv[j].lo
    requires a < b
    requires forall i :: 0 <= i < |iv| ==> iv[i].hi <= a || b <= iv[i].lo
    requires exists i :: 0 <= i < |iv| && iv[i].lo < b
    requires exists i :: 0 <= i < |iv| && b <= iv[i].lo
    ensures 1 <= i < |iv| && Reach(iv, i) <= a && b <= iv[i].lo
  {
    i := 0;
    while iv[i].lo < b
      invariant i < |iv|
      invariant forall j :: 0 <= j < i ==> iv[j].lo < b
      decreases |iv| - i
    {
      i := i + 1;
    }
    assert i > 0;
    var top := ReachBounds(iv, i);
  }

  lemma NoWiderBand(rs: seq<Region>, axis: Axis, a: int, b: int) returns (i: nat)
    requires rs != [] && Proper(rs) && EmptyBand(rs, axis, a, b)
    ensures |Projections(rs, axis)| == |rs| && 1 <= i < |rs|
    ensures Reach(Projections(rs, axis), i) <= a && b <= Projections(rs, axis)[i].lo
    ensures b - a <= GapBefore(Projections(rs, axis), i)
  {
    var iv := Projections(rs, axis);
    ProjectionsSorted(rs, axis);
    var near :| near in rs && Hi(near, axis) <= a;
    var far :| far in rs && b <= Lo(far, axis);
    var n := IntervalOf(rs, axis, near);
    var f := IntervalOf(rs, axis, far);
    forall k | 0 <= k < |iv| ensures iv[k].hi <= a || b <= iv[k].lo {
      var r := RegionOf(rs, axis, k);
    }
    i := BandShowsAsGap(iv, a, b);
  }

  // An uncovered half-pixel point sits inside an empty band.
  lemma UncoveredIsInBand(rs: seq<Region>, axis: Axis, p2: int)
    requires Uncovered(rs, axis, p2)
    ensures EmptyBand(rs, axis, if p2 % 2 == 0 then p2 / 2 - 1 else p2 / 2, p2 / 2 + 1)
  {
    var near :| near in rs && 2 * Hi(near, axis) < p2;
    var far :| far in rs && p2 < 2 * Lo(far, axis);
  }

  lemma BandMiddleUncovered(rs: seq<Region>, axis: Axis, a: int, b: int)
    requires EmptyBand(rs, axis, a, b)
    ensures Uncovered(rs, axis, a + b)
  {
    var near :| near in rs && Hi(near, axis) <= a;
    var far :| far in rs && b <= Lo(far, axis);
  }

  lemma OutsideGap(rs: seq<Region>, axis: Axis, i: nat, r: Region)
    requires |Projections(rs, axis)| == |rs| && 1 <= i < |rs| && r in rs
    ensures Hi(r, axis) <= Reach(Projections(rs, axis), i) || Projections(rs, axis)[i].lo <= Lo(r, axis)
  {
    ProjectionsSorted(rs, axis);
    var j := IntervalOf(rs, axis, r);
    if j < i { var top := ReachBounds(Projections(rs, axis), i); }
  }

  lemma BandAtGap(rs: seq<Region>, axis: Axis, i: nat)
    requires |Projections(rs, axis)| == |rs| && 1 <= i < |rs|
    requires GapBefore(Projections(rs, axis), i) > 0
    ensures EmptyBand(rs, axis, Reach(Projections(rs, axis), i), Projections(rs, axis)[i].lo)
  {
    var a, b := Reach(Projections(rs, axis), i), Projections(rs, axis)[i].lo;
    forall r | r in rs ensures Hi(r, axis) <= a || b <= Lo(r, axis) {
      OutsideGap(rs, axis, i, r);
    }
    var top := ReachBounds(Projections(rs, axis), i);
    var near := RegionOf(rs, axis, top);
    var far := RegionOf(rs, axis, i);
  }

  lemma {:induction false} ReachGrows(iv: seq<Interval>, i: nat, j: nat)
    requires 1 <= i <= j <= |iv|
    ensures Reach(iv, i) <= Reach(iv, j)
  {
    if i < j { ReachGrows(iv, i, j - 1); }
  }

  // What the sweep returns is an empty band of the span, as wide as any other and
  // the first of those, with nothing touching its middle.
  lemma WidestGapIsWidest(rs: seq<Region>, axis: Axis) returns (a: int, b: int)
    requires rs != [] && Proper(rs) && WidestGap(rs, axis).Some?
    ensures var g := WidestGap(rs, axis).value;
            && g.width == b - a > 0 && g.cut2 == a + b
            && EmptyBand(rs, axis, a, b) && Uncovered(rs, axis, g.cut2)
            && (forall c, d :: EmptyBand(rs, axis, c, d) ==> d - c < g.width || (d - c == g.width && a <= c))
  {
    var iv := Projections(rs, axis);
    var g := WidestGap(rs, axis).value;
    ProjectionsSize(rs, axis);
    WidestBeforeIsMaximum(iv, |iv|);
    var i :| 1 <= i < |iv| && GapBefore(iv, i) == g.width && g.cut2 == Reach(iv, i) + iv[i].lo
             && forall j :: 1 <= j < i ==> GapBefore(iv, j) < g.width;
    a, b := Reach(iv, i), iv[i].lo;
    BandAtGap(rs, axis, i);
    BandMiddleUncovered(rs, axis, a, b);
    forall c, d | EmptyBand(rs, axis, c, d) ensures d - c < g.width || (d - c == g.width && a <= c) {
      var j := NoWiderBand(rs, axis, c, d);
      if d - c >= g.width {
        assert GapBefore(iv, j) == g.width;
        ReachGrows(iv, i, j);
      }
    }
  }

  // It returns nothing exactly when the projections cover the whole span.
  lemma NoGapIffCovered(rs: seq<Region>, axis: Axis)
    requires rs != [] && Proper(rs)
    ensures WidestGap(rs, axis).None? <==> forall p2 :: !Uncovered(rs, axis, p2)
  {
    if WidestGap(rs, axis).Some? {
      var a, b := WidestGapIsWidest(rs, axis);
    } else {
      ProjectionsSize(rs, axis);
      WidestBeforeIsMaximum(Projections(rs, axis), |rs|);
      forall p2 ensures !Uncovered(rs, axis, p2) {
        if Uncovered(rs, axis, p2) {
          UncoveredIsInBand(rs, axis, p2);
          var j := NoWiderBand(rs, axis, if p2 % 2 == 0 then p2 / 2 - 1 else p2 / 2, p2 / 2 + 1);
        }
      }
    }
  }
}

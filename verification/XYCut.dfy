// Reading order by recursive XY-cut: split on the widest empty band, vertical
// or horizontal, read the near side before the far side, and sort what cannot
// be split by (y0, x0).
module XYCut {
  import opened Basics
  import opened Regions
  import opened Sorting
  import opened GapSweep

  const MaxDepth: nat := 16

  predicate KeyLe(a: Region, b: Region) {
    a.y0 < b.y0 || (a.y0 == b.y0 && a.x0 <= b.x0)
  }

  datatype Cut = Cut(gap: Gap, axis: Axis)

  // The wider of the two gaps that reach minGap; a tie goes to the vertical one.
  function ChooseCut(rs: seq<Region>, minGap: real): Option<Cut>
    requires rs != []
  {
    var v, h := WidestGap(rs, X), WidestGap(rs, Y);
    var vWide := v.Some? && v.value.width as real >= minGap;
    var hWide := h.Some? && h.value.width as real >= minGap;
    if vWide && (!hWide || v.value.width >= h.value.width) then Some(Cut(v.value, X))
    else if hWide then Some(Cut(h.value, Y))
    else None
  }

  // The side of the cut the centre of a region lies on.
  function NearSide(c: Cut): Region -> bool {
    (r: Region) => Lo(r, c.axis) + Hi(r, c.axis) < c.gap.cut2
  }

  function FarSide(c: Cut): Region -> bool {
    (r: Region) => Lo(r, c.axis) + Hi(r, c.axis) >= c.gap.cut2
  }

  // Where to split, unless there is nothing to split, the recursion is deep
  // enough, no band is wide enough, or one side would stay empty.
  function SplitOf(rs: seq<Region>, minGap: real, depth: nat): (c: Option<Cut>)
    ensures c.Some? ==> rs != [] && depth < MaxDepth && ChooseCut(rs, minGap) == c
  {
    if |rs| <= 1 || depth >= MaxDepth then None
    else
      var c := ChooseCut(rs, minGap);
      if c.None? then None
      else if Filter(rs, NearSide(c.value)) == [] || Filter(rs, FarSide(c.value)) == [] then None
      else c
  }

  function Order(rs: seq<Region>, minGap: real, depth: nat): seq<Region>
    decreases MaxDepth - depth
  {
    match SplitOf(rs, minGap, depth)
    case None => Sort(rs, KeyLe)
    case Some(c) =>
      Order(Filter(rs, NearSide(c)), minGap, depth + 1) + Order(Filter(rs, FarSide(c)), minGap, depth + 1)
  }

  function MinGap(pageWidth: int): real {
    var share := pageWidth as real / 100.0;
    if share > 8.0 then share else 8.0
  }

  lemma KeyLeIsOrder()
    ensures TotalPreorder(KeyLe)
  {
  }

  // -------------------------------------------------- nothing lost or added

  lemma SidesPartition(rs: seq<Region>, c: Cut)
    ensures multiset(Filter(rs, NearSide(c))) + multiset(Filter(rs, FarSide(c))) == multiset(rs)
  {
    FilterPartition(rs, NearSide(c), FarSide(c));
  }

  // The two halves of a split, as elements: together they are all of rs.
  lemma HalvesElements(rs: seq<Region>, near: seq<Region>, far: seq<Region>, c: Cut)
    requires multiset(near) == multiset(Filter(rs, NearSide(c)))
    requires multiset(far) == multiset(Filter(rs, FarSide(c)))
    ensures multiset(near + far) == multiset(rs)
  {
    hide Filter;
    SidesPartition(rs, c);
  }

  lemma {:induction false} OrderIsPermutation(rs: seq<Region>, minGap: real, depth: nat)
    ensures multiset(Order(rs, minGap, depth)) == multiset(rs)
    decreases MaxDepth - depth
  {
    hide SplitOf, Filter, Sort;
    match SplitOf(rs, minGap, depth)
    case None =>
      SortIsPermutation(rs, KeyLe);
    case Some(c) =>
      var near := Order(Filter(rs, NearSide(c)), minGap, depth + 1);
      var far := Order(Filter(rs, FarSide(c)), minGap, depth + 1);
      OrderIsPermutation(Filter(rs, NearSide(c)), minGap, depth + 1);
      OrderIsPermutation(Filter(rs, FarSide(c)), minGap, depth + 1);
      HalvesElements(rs, near, far, c);
      assert Order(rs, minGap, depth) == near + far;
  }

  // ------------------------------------------------------ canonical order

  lemma GapOfPermutation(a: seq<Region>, b: seq<Region>, axis: Axis)
    requires a != [] && b != [] && multiset(a) == multiset(b)
    ensures WidestGap(a, axis) == WidestGap(b, axis)
  {
    MapOfPermutation(a, b, Project(axis));
    LexLeIsOrder();
    SortOfPermutation(Map(a, Project(axis)), Map(b, Project(axis)), LexLe);
    SameElements(a, b);
  }

  lemma SplitOfPermutation(a: seq<Region>, b: seq<Region>, minGap: real, depth: nat)
    requires multiset(a) == multiset(b)
    ensures SplitOf(a, minGap, depth) == SplitOf(b, minGap, depth)
  {
    hide Filter, WidestGap;
    SameElements(a, b);
    if |a| > 1 {
      GapOfPermutation(a, b, X);
      GapOfPermutation(a, b, Y);
      var c := ChooseCut(a, minGap);
      if c.Some? {
        FilterOfPermutation(a, b, NearSide(c.value));
        FilterOfPermutation(a, b, FarSide(c.value));
        SameElements(Filter(a, NearSide(c.value)), Filter(b, NearSide(c.value)));
        SameElements(Filter(a, FarSide(c.value)), Filter(b, FarSide(c.value)));
      }
    }
  }

  lemma FilterKeepsDistinctKeys(rs: seq<Region>, keep: Region -> bool)
    requires DistinctKeys(rs, KeyLe)
    ensures DistinctKeys(Filter(rs, keep), KeyLe)
  {
    FilterMembers(rs, keep);
  }

  // Regions with pairwise distinct (y0, x0) come out in one order, however the
  // detector happened to list them.
  lemma {:induction false} OrderIsCanonical(a: seq<Region>, b: seq<Region>, minGap: real, depth: nat)
    requires multiset(a) == multiset(b) && DistinctKeys(a, KeyLe)
    ensures Order(a, minGap, depth) == Order(b, minGap, depth)
    decreases MaxDepth - depth
  {
    hide SplitOf, Filter, Sort, DistinctKeys;
    SplitOfPermutation(a, b, minGap, depth);
    match SplitOf(a, minGap, depth)
    case None =>
      KeyLeIsOrder();
      SortOfPermutation(a, b, KeyLe);
    case Some(c) =>
      FilterOfPermutation(a, b, NearSide(c));
      FilterOfPermutation(a, b, FarSide(c));
      FilterKeepsDistinctKeys(a, NearSide(c));
      FilterKeepsDistinctKeys(a, FarSide(c));
      OrderIsCanonical(Filter(a, NearSide(c)), Filter(b, NearSide(c)), minGap, depth + 1);
      OrderIsCanonical(Filter(a, FarSide(c)), Filter(b, FarSide(c)), minGap, depth + 1);
  }

  // Ordering an already ordered list changes nothing, with or without ties.
  lemma {:induction false} OrderIsIdempotent(rs: seq<Region>, minGap: real, depth: nat)
    ensures Order(Order(rs, minGap, depth), minGap, depth) == Order(rs, minGap, depth)
    decreases MaxDepth - depth
  {
    hide SplitOf, Filter, Sort;
    OrderIsPermutation(rs, minGap, depth);
    SplitOfPermutation(rs, Order(rs, minGap, depth), minGap, depth);
    match SplitOf(rs, minGap, depth)
    case None =>
      KeyLeIsOrder();
      SortSorts(rs, KeyLe);
      SortOfSorted(Sort(rs, KeyLe), KeyLe);
    case Some(c) =>
      SplitAgain(rs, c, minGap, depth);
      OrderIsIdempotent(Filter(rs, NearSide(c)), minGap, depth + 1);
      OrderIsIdempotent(Filter(rs, FarSide(c)), minGap, depth + 1);
  }

  // Everything in the ordering of one side lies on that side.
  lemma OrderStaysOnSide(rs: seq<Region>, side: Region -> bool, minGap: real, depth: nat)
    ensures forall r :: r in Order(Filter(rs, side), minGap, depth) <==> r in rs && side(r)
  {
    hide *;
    OrderIsPermutation(Filter(rs, side), minGap, depth);
    SameElements(Order(Filter(rs, side), minGap, depth), Filter(rs, side));
    FilterMembers(rs, side);
  }

  // Cutting near + far at the same place gives back near and far.
  lemma SplitAgain(rs: seq<Region>, c: Cut, minGap: real, depth: nat)
    ensures var near := Order(Filter(rs, NearSide(c)), minGap, depth + 1);
            var far := Order(Filter(rs, FarSide(c)), minGap, depth + 1);
            Filter(near + far, NearSide(c)) == near && Filter(near + far, FarSide(c)) == far
  {
    hide Filter, Order;
    var near := Order(Filter(rs, NearSide(c)), minGap, depth + 1);
    var far := Order(Filter(rs, FarSide(c)), minGap, depth + 1);
    OrderStaysOnSide(rs, NearSide(c), minGap, depth + 1);
    OrderStaysOnSide(rs, FarSide(c), minGap, depth + 1);
    FilterAppend(near, far, NearSide(c));
    FilterAppend(near, far, FarSide(c));
    FilterAll(near, NearSide(c));
    FilterNone(far, NearSide(c));
    FilterNone(near, FarSide(c));
    FilterAll(far, FarSide(c));
  }

  // ------------------------------------ renumbering does not disturb it

  ghost predicate SameBoxes(s: seq<Region>, t: seq<Region>) {
    |s| == |t| && forall i :: 0 <= i < |s| ==>
      s[i].x0 == t[i].x0 && s[i].y0 == t[i].y0 && s[i].x1 == t[i].x1 && s[i].y1 == t[i].y1
  }

  lemma {:induction false} SameBoxesFilter(s: seq<Region>, t: seq<Region>, c: Cut)
    requires SameBoxes(s, t)
    ensures SameBoxes(Filter(s, NearSide(c)), Filter(t, NearSide(c)))
    ensures SameBoxes(Filter(s, FarSide(c)), Filter(t, FarSide(c)))
  {
    if s != [] { SameBoxesFilter(s[1..], t[1..], c); }
  }

  lemma SameBoxesGap(s: seq<Region>, t: seq<Region>, axis: Axis)
    requires SameBoxes(s, t) && s != []
    ensures WidestGap(s, axis) == WidestGap(t, axis)
  {
    hide Sort;
    assert Map(s, Project(axis)) == Map(t, Project(axis));
  }

  lemma SameBoxesSplit(s: seq<Region>, t: seq<Region>, minGap: real, depth: nat)
    requires SameBoxes(s, t)
    ensures SplitOf(s, minGap, depth) == SplitOf(t, minGap, depth)
  {
    hide WidestGap, Filter;
    if |s| > 1 {
      SameBoxesGap(s, t, X);
      SameBoxesGap(s, t, Y);
      var c := ChooseCut(s, minGap);
      if c.Some? { SameBoxesFilter(s, t, c.value); }
    }
  }

  lemma {:induction false} SameBoxesHalves(near: seq<Region>, far: seq<Region>, t: seq<Region>, c: Cut)
    requires SameBoxes(near + far, t)
    requires forall r :: r in near ==> NearSide(c)(r)
    requires forall r :: r in far ==> FarSide(c)(r)
    ensures Filter(t, NearSide(c)) == t[..|near|] && Filter(t, FarSide(c)) == t[|near|..]
  {
    var a, b := t[..|near|], t[|near|..];
    assert t == a + b;
    forall i | 0 <= i < |near| ensures NearSide(c)(a[i]) { assert near[i] in near; }
    forall i | 0 <= i < |far| ensures FarSide(c)(b[i]) { assert far[i] in far; }
    FilterAppend(a, b, NearSide(c));
    FilterAppend(a, b, FarSide(c));
    FilterAll(a, NearSide(c));
    FilterNone(b, NearSide(c));
    FilterNone(a, FarSide(c));
    FilterAll(b, FarSide(c));
  }

  // Whether a list is in reading order depends on its boxes alone.
  lemma {:induction false} OrderedByBoxes(rs: seq<Region>, t: seq<Region>, minGap: real, depth: nat)
    requires SameBoxes(Order(rs, minGap, depth), t)
    ensures Order(t, minGap, depth) == t
    decreases MaxDepth - depth
  {
    hide SplitOf, Filter, Sort, SameBoxes;
    OrderIsPermutation(rs, minGap, depth);
    SplitOfPermutation(rs, Order(rs, minGap, depth), minGap, depth);
    SameBoxesSplit(Order(rs, minGap, depth), t, minGap, depth);
    match SplitOf(rs, minGap, depth)
    case None =>
      SameBoxesSorted(rs, t);
    case Some(c) =>
      var near := Order(Filter(rs, NearSide(c)), minGap, depth + 1);
      var far := Order(Filter(rs, FarSide(c)), minGap, depth + 1);
      OrderStaysOnSide(rs, NearSide(c), minGap, depth + 1);
      OrderStaysOnSide(rs, FarSide(c), minGap, depth + 1);
      SameBoxesHalves(near, far, t, c);
      SameBoxesParts(near, far, t);
      OrderedByBoxes(Filter(rs, NearSide(c)), t[..|near|], minGap, depth + 1);
      OrderedByBoxes(Filter(rs, FarSide(c)), t[|near|..], minGap, depth + 1);
      HalvesJoin(t, |near|);
  }

  lemma SameBoxesParts(near: seq<Region>, far: seq<Region>, t: seq<Region>)
    requires SameBoxes(near + far, t)
    ensures |near| <= |t| && SameBoxes(near, t[..|near|]) && SameBoxes(far, t[|near|..])
  {
    forall i | 0 <= i < |far| ensures (near + far)[|near| + i] == far[i] && t[|near|..][i] == t[|near| + i] {
    }
    forall i | 0 <= i < |near| ensures (near + far)[i] == near[i] {
    }
  }

  lemma SameBoxesSorted(rs: seq<Region>, t: seq<Region>)
    requires SameBoxes(Sort(rs, KeyLe), t)
    ensures Sort(t, KeyLe) == t
  {
    KeyLeIsOrder();
    SortSorts(rs, KeyLe);
    SortOfSorted(t, KeyLe);
  }

  // Assigning the reading order a second time changes neither places nor numbers.
  lemma AssignTwice(rs: seq<Region>, pageWidth: int)
    ensures var once := Numbered(Order(rs, MinGap(pageWidth), 0));
            Numbered(Order(once, MinGap(pageWidth), 0)) == once
  {
    hide Order;
    OrderedByBoxes(rs, Numbered(Order(rs, MinGap(pageWidth), 0)), MinGap(pageWidth), 0);
  }

  // ------------------------------------------- the order and the geometry

  // Why a may be read before b: b starts at least minGap past a's end on x or
  // on y, or a's top left corner is not after b's.
  ghost predicate MayPrecede(a: Region, b: Region, minGap: real) {
    || (b.x0 - a.x1) as real >= minGap
    || (b.y0 - a.y1) as real >= minGap
    || KeyLe(a, b)
  }

  // A chosen cut separates the regions: both sides are inhabited, so the guard
  // against a degenerate split never fires, and everything far starts at least
  // minGap past the end of everything near.
  lemma CutSeparates(rs: seq<Region>, minGap: real)
    requires rs != [] && Proper(rs) && ChooseCut(rs, minGap).Some?
    ensures var c := ChooseCut(rs, minGap).value;
            && Filter(rs, NearSide(c)) != [] && Filter(rs, FarSide(c)) != []
            && forall a, b :: a in rs && NearSide(c)(a) && b in rs && FarSide(c)(b)
                              ==> (Lo(b, c.axis) - Hi(a, c.axis)) as real >= minGap
  {
    hide Filter, WidestGap;
    var c := ChooseCut(rs, minGap).value;
    var lo, hi := WidestGapIsWidest(rs, c.axis);
    FilterMembers(rs, NearSide(c));
    FilterMembers(rs, FarSide(c));
    var near :| near in rs && Hi(near, c.axis) <= lo;
    var far :| far in rs && hi <= Lo(far, c.axis);
    assert near in Filter(rs, NearSide(c)) && far in Filter(rs, FarSide(c));
    forall a, b | a in rs && NearSide(c)(a) && b in rs && FarSide(c)(b)
      ensures (Lo(b, c.axis) - Hi(a, c.axis)) as real >= minGap
    {
      assert Hi(a, c.axis) <= lo && hi <= Lo(b, c.axis);
    }
  }

  lemma SeparatedMayPrecede(a: Region, b: Region, axis: Axis, minGap: real)
    requires (Lo(b, axis) - Hi(a, axis)) as real >= minGap
    ensures MayPrecede(a, b, minGap)
  {
  }

  ghost predicate Legible(s: seq<Region>, minGap: real) {
    forall i, j :: 0 <= i < j < |s| ==> MayPrecede(s[i], s[j], minGap)
  }

  lemma SortedIsLegible(rs: seq<Region>, minGap: real)
    ensures Legible(Sort(rs, KeyLe), minGap)
  {
    KeyLeIsOrder();
    SortSorts(rs, KeyLe);
  }

  lemma ConcatIsLegible(a: seq<Region>, b: seq<Region>, minGap: real)
    requires Legible(a, minGap) && Legible(b, minGap)
    requires forall x, y :: x in a && y in b ==> MayPrecede(x, y, minGap)
    ensures Legible(a + b, minGap)
  {
  }

  lemma FilterKeepsProper(rs: seq<Region>, keep: Region -> bool)
    requires Proper(rs)
    ensures Proper(Filter(rs, keep))
  {
    FilterMembers(rs, keep);
  }

  lemma {:induction false} OrderFollowsGeometry(rs: seq<Region>, minGap: real, depth: nat)
    requires Proper(rs)
    ensures Legible(Order(rs, minGap, depth), minGap)
    decreases MaxDepth - depth
  {
    hide SplitOf, Filter, Sort, Legible, MayPrecede, Proper;
    match SplitOf(rs, minGap, depth)
    case None =>
      SortedIsLegible(rs, minGap);
    case Some(c) =>
      FilterKeepsProper(rs, NearSide(c));
      FilterKeepsProper(rs, FarSide(c));
      OrderFollowsGeometry(Filter(rs, NearSide(c)), minGap, depth + 1);
      OrderFollowsGeometry(Filter(rs, FarSide(c)), minGap, depth + 1);
      NearMayPrecedeFar(rs, c, minGap, depth);
      ConcatIsLegible(Order(Filter(rs, NearSide(c)), minGap, depth + 1),
                      Order(Filter(rs, FarSide(c)), minGap, depth + 1), minGap);
  }

  lemma NearMayPrecedeFar(rs: seq<Region>, c: Cut, minGap: real, depth: nat)
    requires rs != [] && Proper(rs) && ChooseCut(rs, minGap) == Some(c)
    ensures forall a, b :: a in Order(Filter(rs, NearSide(c)), minGap, depth + 1)
                           && b in Order(Filter(rs, FarSide(c)), minGap, depth + 1)
                           ==> MayPrecede(a, b, minGap)
  {
    hide Order, Filter, ChooseCut, MayPrecede, Proper;
    CutSeparates(rs, minGap);
    OrderStaysOnSide(rs, NearSide(c), minGap, depth + 1);
    OrderStaysOnSide(rs, FarSide(c), minGap, depth + 1);
    forall a, b | a in Order(Filter(rs, NearSide(c)), minGap, depth + 1)
                  && b in Order(Filter(rs, FarSide(c)), minGap, depth + 1)
      ensures MayPrecede(a, b, minGap)
    {
      SeparatedMayPrecede(a, b, c.axis, minGap);
    }
  }

  // -------------------------------------- which band is cut, in its own terms

  // The widest band of all that reach minGap: a vertical one on a tie, and the
  // first of its axis.
  ghost predicate WidestBand(rs: seq<Region>, minGap: real, axis: Axis, a: int, b: int) {
    && EmptyBand(rs, axis, a, b) && (b - a) as real >= minGap
    && forall other, c, d :: EmptyBand(rs, other, c, d) ==>
         d - c < b - a || (d - c == b - a && if other == axis then a <= c else axis == X)
  }

  lemma ChooseCutIsWidest(rs: seq<Region>, minGap: real) returns (a: int, b: int)
    requires rs != [] && Proper(rs)
    ensures ChooseCut(rs, minGap).None? <==> forall axis, c, d :: EmptyBand(rs, axis, c, d) ==> (d - c) as real < minGap
    ensures ChooseCut(rs, minGap).Some? ==>
              var c := ChooseCut(rs, minGap).value;
              WidestBand(rs, minGap, c.axis, a, b) && c.gap == Gap(b - a, a + b)
  {
    var va, vb := WidestOn(rs, X);
    var ha, hb := WidestOn(rs, Y);
    hide WidestGap, EmptyBand, Proper;
    var c := ChooseCut(rs, minGap);
    a, b := va, vb;
    if c.Some? && c.value.axis == Y { a, b := ha, hb; }
    if c.Some? {
      forall other, d, e | EmptyBand(rs, other, d, e)
        ensures e - d < b - a || (e - d == b - a && if other == c.value.axis then a <= d else c.value.axis == X)
      {
        assert other == X || other == Y;
      }
    } else {
      forall axis, d, e | EmptyBand(rs, axis, d, e) ensures (e - d) as real < minGap {
        assert axis == X || axis == Y;
      }
    }
  }

  // The widest band of one axis, if there is any.
  lemma WidestOn(rs: seq<Region>, axis: Axis) returns (a: int, b: int)
    requires rs != [] && Proper(rs)
    ensures WidestGap(rs, axis).None? ==> forall c, d :: !EmptyBand(rs, axis, c, d)
    ensures WidestGap(rs, axis).Some? ==>
              && WidestGap(rs, axis).value == Gap(b - a, a + b) && EmptyBand(rs, axis, a, b)
              && forall c, d :: EmptyBand(rs, axis, c, d) ==> d - c < b - a || (d - c == b - a && a <= c)
  {
    a, b := 0, 0;
    if WidestGap(rs, axis).Some? { a, b := WidestGapIsWidest(rs, axis); } else { NoBand(rs, axis); }
    hide WidestGap, EmptyBand, Proper;
  }

  lemma NoBand(rs: seq<Region>, axis: Axis)
    requires rs != [] && Proper(rs) && WidestGap(rs, axis).None?
    ensures forall c, d :: !EmptyBand(rs, axis, c, d)
  {
    NoGapIffCovered(rs, axis);
    forall c, d ensures !EmptyBand(rs, axis, c, d) {
      if EmptyBand(rs, axis, c, d) { BandMiddleUncovered(rs, axis, c, d); }
    }
  }

  function Before(axis: Axis, a: int): Region -> bool { (r: Region) => Hi(r, axis) <= a }

  function Behind(axis: Axis, b: int): Region -> bool { (r: Region) => b <= Lo(r, axis) }

  // The same regions by (y0, x0), those with equal corners as they were.
  ghost predicate ByCorners(rs: seq<Region>, out: seq<Region>) {
    && multiset(out) == multiset(rs)
    && (forall i, j :: 0 <= i < j < |out| ==>
          out[i].y0 < out[j].y0 || (out[i].y0 == out[j].y0 && out[i].x0 <= out[j].x0))
    && forall r :: Filter(out, AsLarge(r, KeyLe)) == Filter(rs, AsLarge(r, KeyLe))
  }

  // The reading order in terms of the bands of the page: while a band reaches
  // minGap, and at most 16 deep, what lies before the widest one, read this way,
  // and then what lies behind it; otherwise by corners.
  ghost predicate ByBands(rs: seq<Region>, out: seq<Region>, minGap: real, depth: nat)
    decreases 16 - depth, 1
  {
    if depth < 16 && exists axis, a, b :: WidestBand(rs, minGap, axis, a, b)
    then exists axis, a, b, k :: WidestBand(rs, minGap, axis, a, b) && SplitByBand(rs, out, minGap, depth, axis, a, b, k)
    else ByCorners(rs, out)
  }

  ghost predicate SplitByBand(rs: seq<Region>, out: seq<Region>, minGap: real, depth: nat, axis: Axis, a: int, b: int, k: int)
    requires depth < 16
    decreases 16 - depth, 0
  {
    && 0 <= k <= |out|
    && ByBands(Filter(rs, Before(axis, a)), out[..k], minGap, depth + 1)
    && ByBands(Filter(rs, Behind(axis, b)), out[k..], minGap, depth + 1)
  }

  lemma SortIsByCorners(rs: seq<Region>)
    ensures ByCorners(rs, Sort(rs, KeyLe))
  {
    KeyLeIsOrder();
    SortIsPermutation(rs, KeyLe);
    SortSorts(rs, KeyLe);
    forall r ensures Filter(Sort(rs, KeyLe), AsLarge(r, KeyLe)) == Filter(rs, AsLarge(r, KeyLe)) {
      SortIsStable(rs, KeyLe, r);
    }
  }

  // A region lies on the near side of the cut exactly if it ends before the band,
  // and on the far side exactly if it starts behind it.
  lemma SidesOfBand(rs: seq<Region>, c: Cut, a: int, b: int)
    requires Proper(rs) && EmptyBand(rs, c.axis, a, b) && c.gap.cut2 == a + b
    ensures Filter(rs, NearSide(c)) == Filter(rs, Before(c.axis, a))
    ensures Filter(rs, FarSide(c)) == Filter(rs, Behind(c.axis, b))
  {
    FilterSame(rs, NearSide(c), Before(c.axis, a));
    FilterSame(rs, FarSide(c), Behind(c.axis, b));
  }

  // A single region has no band beside it.
  lemma NoBandAlone(rs: seq<Region>, axis: Axis, a: int, b: int)
    requires Proper(rs) && EmptyBand(rs, axis, a, b)
    ensures |rs| > 1
  {
    var near :| near in rs && Hi(near, axis) <= a;
    var far :| far in rs && b <= Lo(far, axis);
    assert near != far;
  }

  lemma BandIsEmpty(rs: seq<Region>, minGap: real, axis: Axis, a: int, b: int)
    requires WidestBand(rs, minGap, axis, a, b)
    ensures EmptyBand(rs, axis, a, b)
  {
  }

  // Where the recursion splits: exactly where there is a widest band.
  lemma SplitOfIsWidest(rs: seq<Region>, minGap: real, depth: nat) returns (a: int, b: int)
    requires Proper(rs)
    ensures SplitOf(rs, minGap, depth).None? ==>
              depth >= 16 || forall axis, c, d :: !WidestBand(rs, minGap, axis, c, d)
    ensures SplitOf(rs, minGap, depth).Some? ==>
              var c := SplitOf(rs, minGap, depth).value;
              depth < 16 && WidestBand(rs, minGap, c.axis, a, b) && c.gap.cut2 == a + b
  {
    a, b := 0, 0;
    if rs != [] { a, b := ChooseCutIsWidest(rs, minGap); }
    forall axis, c, d | WidestBand(rs, minGap, axis, c, d) ensures |rs| > 1 { NoBandAlone(rs, axis, c, d); }
    hide ChooseCut, Filter, Proper;
    if rs != [] && ChooseCut(rs, minGap).Some? { CutSeparates(rs, minGap); }
  }

  lemma {:induction false} OrderIsByBands(rs: seq<Region>, minGap: real, depth: nat)
    requires Proper(rs)
    ensures ByBands(rs, Order(rs, minGap, depth), minGap, depth)
    decreases MaxDepth - depth
  {
    var a, b := SplitOfIsWidest(rs, minGap, depth);
    hide SplitOf, Filter, Sort, Proper, WidestBand, ByCorners;
    match SplitOf(rs, minGap, depth)
    case None =>
      SortIsByCorners(rs);
    case Some(c) =>
      var near, far := Filter(rs, NearSide(c)), Filter(rs, FarSide(c));
      FilterKeepsProper(rs, NearSide(c));
      FilterKeepsProper(rs, FarSide(c));
      OrderIsByBands(near, minGap, depth + 1);
      OrderIsByBands(far, minGap, depth + 1);
      assert near == Filter(rs, Before(c.axis, a)) && far == Filter(rs, Behind(c.axis, b)) by {
        BandIsEmpty(rs, minGap, c.axis, a, b);
        SidesOfBand(rs, c, a, b);
      }
      var out, k := Order(rs, minGap, depth), |Order(near, minGap, depth + 1)|;
      assert out == Order(near, minGap, depth + 1) + Order(far, minGap, depth + 1);
      assert out[..k] == Order(near, minGap, depth + 1) && out[k..] == Order(far, minGap, depth + 1);
      assert SplitByBand(rs, out, minGap, depth, c.axis, a, b, k);
  }

  lemma ByCornersIsUnique(rs: seq<Region>, s: seq<Region>, t: seq<Region>)
    requires ByCorners(rs, s) && ByCorners(rs, t)
    ensures s == t
  {
    KeyLeIsOrder();
    forall k ensures Filter(s, AsLarge(k, KeyLe)) == Filter(t, AsLarge(k, KeyLe)) {
      assert Filter(s, AsLarge(k, KeyLe)) == Filter(rs, AsLarge(k, KeyLe));
    }
    StableIsUnique(s, t, KeyLe);
  }

  lemma WidestBandIsUnique(rs: seq<Region>, minGap: real, axis: Axis, a: int, b: int, axis': Axis, a': int, b': int)
    requires WidestBand(rs, minGap, axis, a, b) && WidestBand(rs, minGap, axis', a', b')
    ensures axis == axis' && a == a' && b == b'
  {
    hide EmptyBand;
  }

  // A list read by bands has as many regions as there are.
  lemma {:induction false} ByBandsSize(rs: seq<Region>, s: seq<Region>, minGap: real, depth: nat)
    requires Proper(rs) && ByBands(rs, s, minGap, depth)
    ensures |s| == |rs|
    decreases 16 - depth
  {
    hide WidestBand, Filter, SortedBy, Proper;
    if depth < 16 && exists axis, a, b :: WidestBand(rs, minGap, axis, a, b) {
      var axis, a, b, k :| WidestBand(rs, minGap, axis, a, b) && SplitByBand(rs, s, minGap, depth, axis, a, b, k);
      FilterKeepsProper(rs, Before(axis, a));
      FilterKeepsProper(rs, Behind(axis, b));
      ByBandsSize(Filter(rs, Before(axis, a)), s[..k], minGap, depth + 1);
      ByBandsSize(Filter(rs, Behind(axis, b)), s[k..], minGap, depth + 1);
      BandParts(rs, minGap, axis, a, b);
    } else {
      SameElements(s, rs);
    }
  }

  lemma BandParts(rs: seq<Region>, minGap: real, axis: Axis, a: int, b: int)
    requires Proper(rs) && WidestBand(rs, minGap, axis, a, b)
    ensures |Filter(rs, Before(axis, a))| + |Filter(rs, Behind(axis, b))| == |rs|
  {
    var c := Cut(Gap(b - a, a + b), axis);
    SidesOfBand(rs, c, a, b);
    SidesPartition(rs, c);
    hide *;
    var near, far := Filter(rs, NearSide(c)), Filter(rs, FarSide(c));
    assert multiset(near + far) == multiset(rs);
    SameElements(near + far, rs);
  }

  // There is one such order for every list of regions.
  lemma {:induction false} ByBandsIsUnique(rs: seq<Region>, s: seq<Region>, t: seq<Region>, minGap: real, depth: nat)
    requires Proper(rs) && ByBands(rs, s, minGap, depth) && ByBands(rs, t, minGap, depth)
    ensures s == t
    decreases 16 - depth
  {
    hide WidestBand, Filter, ByCorners, Proper;
    if depth < 16 && exists axis, a, b :: WidestBand(rs, minGap, axis, a, b) {
      var axis, a, b, k :| WidestBand(rs, minGap, axis, a, b) && SplitByBand(rs, s, minGap, depth, axis, a, b, k);
      var axis', a', b', k' :| WidestBand(rs, minGap, axis', a', b') && SplitByBand(rs, t, minGap, depth, axis', a', b', k');
      WidestBandIsUnique(rs, minGap, axis, a, b, axis', a', b');
      var near, far := Filter(rs, Before(axis, a)), Filter(rs, Behind(axis, b));
      FilterKeepsProper(rs, Before(axis, a));
      FilterKeepsProper(rs, Behind(axis, b));
      ByBandsSize(near, s[..k], minGap, depth + 1);
      ByBandsSize(near, t[..k'], minGap, depth + 1);
      ByBandsIsUnique(near, s[..k], t[..k'], minGap, depth + 1);
      ByBandsIsUnique(far, s[k..], t[k'..], minGap, depth + 1);
      HalvesJoin(s, k);
      HalvesJoin(t, k');
    } else {
      ByCornersIsUnique(rs, s, t);
    }
  }

  // So what lies before the widest band of a page is read before all that lies
  // behind it.
  lemma WidestBandIsReadAcross(rs: seq<Region>, minGap: real, depth: nat, axis: Axis, a: int, b: int, i: nat, j: nat)
    requires Proper(rs) && depth < 16 && WidestBand(rs, minGap, axis, a, b)
    requires var out := Order(rs, minGap, depth);
             i < |out| && j < |out| && Hi(out[i], axis) <= a && b <= Lo(out[j], axis)
    ensures i < j
  {
    hide SplitOf, Filter, Sort;
    var a', b' := SplitOfIsWidest(rs, minGap, depth);
    BandIsEmpty(rs, minGap, axis, a, b);
    var c := SplitOf(rs, minGap, depth).value;
    BandIsEmpty(rs, minGap, c.axis, a', b');
    assert axis == c.axis && a == a' && b == b' by { hide Proper; }
    hide WidestBand;
    SidesOfBand(rs, c, a, b);
    var near := Order(Filter(rs, Before(axis, a)), minGap, depth + 1);
    var far := Order(Filter(rs, Behind(axis, b)), minGap, depth + 1);
    OrderStaysOnSide(rs, Before(axis, a), minGap, depth + 1);
    OrderStaysOnSide(rs, Behind(axis, b), minGap, depth + 1);
    assert Order(rs, minGap, depth) == near + far;
    hide Order, EmptyBand;
    NearThenFar(near, far, axis, a, b, i, j);
  }

  lemma NearThenFar(near: seq<Region>, far: seq<Region>, axis: Axis, a: int, b: int, i: nat, j: nat)
    requires a < b && forall r :: r in near ==> Lo(r, axis) <= Hi(r, axis) <= a
    requires forall r :: r in far ==> b <= Lo(r, axis) <= Hi(r, axis)
    requires var out := near + far; i < |out| && j < |out| && Hi(out[i], axis) <= a && b <= Lo(out[j], axis)
    ensures i < j
  {
    var out := near + far;
    forall k | 0 <= k < |out| ensures out[k] in if k < |near| then near else far {
      if k >= |near| { assert out[k] == far[k - |near|]; }
    }
  }

  // A box wholly above and to the left of another is always read first.
  lemma AboveLeftIsReadFirst(rs: seq<Region>, pageWidth: int, i: nat, j: nat)
    requires forall r :: r in rs ==> r.x0 <= r.x1 && r.y0 < r.y1
    requires var out := Order(rs, MinGap(pageWidth), 0);
             i < |out| && j < |out| && out[i].x1 <= out[j].x0 && out[i].y1 <= out[j].y0
    ensures i < j
  {
    hide Order;
    var out := Order(rs, MinGap(pageWidth), 0);
    OrderIsPermutation(rs, MinGap(pageWidth), 0);
    SameElements(rs, out);
    assert out[i] in rs && out[j] in rs;
    OrderFollowsGeometry(rs, MinGap(pageWidth), 0);
    assert !MayPrecede(out[j], out[i], MinGap(pageWidth));
  }

  // -------------------------------------------------- assigning the order

  // A region but for its place.
  function Unplaced(): Region -> Region { (r: Region) => r.(order := 0) }

  lemma NumberedUnplaced(rs: seq<Region>)
    ensures Map(Numbered(rs), Unplaced()) == Map(rs, Unplaced())
  {
  }

  lemma OrderedElements(rs: seq<Region>, minGap: real)
    ensures multiset(Map(Numbered(Order(rs, minGap, 0)), Unplaced())) == multiset(Map(rs, Unplaced()))
  {
    OrderIsPermutation(rs, minGap, 0);
    MapOfPermutation(Order(rs, minGap, 0), rs, Unplaced());
    NumberedUnplaced(Order(rs, minGap, 0));
  }

  lemma NumberedIsLegible(rs: seq<Region>, minGap: real)
    requires Legible(rs, minGap)
    ensures Legible(Numbered(rs), minGap)
  {
    var out := Numbered(rs);
    forall i, j | 0 <= i < j < |out| ensures MayPrecede(out[i], out[j], minGap) {
      assert MayPrecede(rs[i], rs[j], minGap);
    }
  }

  // The same regions, numbered from 0 in their new places, each preceding only
  // what it may precede; the places are those the bands of the page give.
  method AssignReadingOrder(rs: seq<Region>, pageWidth: int) returns (ordered: seq<Region>)
    ensures |ordered| == |rs| && forall i :: 0 <= i < |ordered| ==> ordered[i].order == i
    ensures multiset(Map(ordered, Unplaced())) == multiset(Map(rs, Unplaced()))
    ensures Proper(rs) ==> Legible(ordered, MinGap(pageWidth))
    ensures Proper(rs) ==>
              exists s :: ordered == Numbered(s) && ByBands(rs, s, MaxR(pageWidth as real / 100.0, 8.0), 0)
    ensures ordered == Numbered(Order(rs, MinGap(pageWidth), 0))
  {
    OrderIsPermutation(rs, MinGap(pageWidth), 0);
    SameElements(rs, Order(rs, MinGap(pageWidth), 0));
    OrderedElements(rs, MinGap(pageWidth));
    if Proper(rs) {
      OrderFollowsGeometry(rs, MinGap(pageWidth), 0);
      NumberedIsLegible(Order(rs, MinGap(pageWidth), 0), MinGap(pageWidth));
      OrderIsByBands(rs, MinGap(pageWidth), 0);
    }
    hide Order, Proper, Legible, Map, ByBands;
    if rs == [] {
      NothingToOrder(MinGap(pageWidth));
      return rs;
    }
    ordered := Number(Order(rs, MinGap(pageWidth), 0));
  }

  lemma NothingToOrder(minGap: real)
    ensures Order([], minGap, 0) == [] && Numbered([]) == []
  {
    assert SplitOf([], minGap, 0).None?;
    assert Sort([], KeyLe) == [];
  }
}

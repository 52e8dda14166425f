// From a raw detector tensor to regions of the page: the letterbox and its
// inversion, the two export layouts, thresholding, and the crop that later
// cuts a region out of the page.  Coordinates are exact reals here.
module Detection {
  import opened Basics
  import opened Regions
  import opened GapSweep
  import opened XYCut
  import Sorting

  // round() of the source language: to the nearest, ties to the even neighbour.
  function Round(x: real): int {
    var f := x.Floor;
    var d := x - f as real;
    if d < 0.5 || (d == 0.5 && f % 2 == 0) then f else f + 1
  }

  // ------------------------------------------------------------ letterbox

  datatype Letterbox = Letterbox(scale: real, left: int, top: int, width: int, height: int)

  function Scale(h: int, w: int, size: int): real
    requires h > 0 && w > 0
  {
    MinR(size as real / h as real, size as real / w as real)
  }

  function ScaledSide(side: int, scale: real): int {
    Round(side as real * scale)
  }

  // How a page of h rows and w columns is placed on a square canvas.
  function FitPage(h: int, w: int, size: int): Letterbox
    requires h > 0 && w > 0
  {
    var scale := Scale(h, w, size);
    var nh, nw := ScaledSide(h, scale), ScaledSide(w, scale);
    Letterbox(scale, (size - nw) / 2, (size - nh) / 2, nw, nh)
  }

  lemma RoundWithin(x: real, n: int)
    requires 0.0 <= x <= n as real
    ensures 0 <= Round(x) <= n
    ensures x == n as real ==> Round(x) == n
  {
  }

  lemma ScaledSideFits(side: int, scale: real, size: int)
    requires side > 0 && 0.0 < scale <= size as real / side as real
    ensures 0 <= ScaledSide(side, scale) <= size
    ensures scale == size as real / side as real ==> ScaledSide(side, scale) == size
  {
    hide Round;
    assert 0.0 < side as real * scale <= size as real;
    RoundWithin(side as real * scale, size);
  }

  lemma Centred(n: int, size: int)
    requires 0 <= n <= size
    ensures 0 <= (size - n) / 2 && (size - n) / 2 + n <= size
  {
  }

  // n is the whole number next to the scaled side, the even one if there are two.
  predicate Nearest(n: int, side: int, scale: real) {
    var off := n as real - side as real * scale;
    -0.5 <= off <= 0.5 && (off == -0.5 || off == 0.5 ==> n % 2 == 0)
  }

  lemma ScaledIsNearest(side: int, scale: real)
    ensures Nearest(ScaledSide(side, scale), side, scale)
  {
  }

  lemma HalvesEven(n: int)
    ensures 0 <= n - n / 2 - n / 2 <= 1
  {
  }

  // It has the proportions of the page as near as whole pixels go, and is centred.
  lemma PageIsCentred(h: int, w: int, size: int)
    requires h > 0 && w > 0
    ensures var b := FitPage(h, w, size);
            && 0 <= (size - b.width - b.left) - b.left <= 1 && 0 <= (size - b.height - b.top) - b.top <= 1
            && Nearest(b.width, w, b.scale) && Nearest(b.height, h, b.scale)
  {
    hide Nearest, ScaledSide, Scale;
    var b := FitPage(h, w, size);
    ScaledIsNearest(w, b.scale);
    ScaledIsNearest(h, b.scale);
    HalvesEven(size - b.width);
    HalvesEven(size - b.height);
  }

  // The resized page fits the canvas it is pasted into and fills it one way.
  lemma PageFitsCanvas(h: int, w: int, size: int)
    requires h > 0 && w > 0 && size > 0
    ensures var b := FitPage(h, w, size);
            && b.scale > 0.0
            && 0 <= b.left && 0 <= b.width && b.left + b.width <= size
            && 0 <= b.top && 0 <= b.height && b.top + b.height <= size
            && (b.width == size || b.height == size)
  {
    hide ScaledSide;
    var scale := Scale(h, w, size);
    assert size as real / h as real > 0.0 && size as real / w as real > 0.0;
    ScaledSideFits(h, scale, size);
    ScaledSideFits(w, scale, size);
    Centred(ScaledSide(h, scale), size);
    Centred(ScaledSide(w, scale), size);
  }

  // ------------------------------------------------------------ one box

  datatype Box = Box(x0: real, y0: real, x1: real, y1: real)

  const MinRegionPx: int := 16

  // A canvas coordinate taken back to the page.
  function Back(v: real, pad: int, scale: real): real
    requires scale != 0.0
  {
    (v - pad as real) / scale
  }

  // Floor the near corner, ceil the far one, and clamp both to the page.
  function ToPage(b: Box, lb: Letterbox, width: int, height: int, cls: string, score: real): Region
    requires lb.scale != 0.0
  {
    Region(Max(Floor(Back(b.x0, lb.left, lb.scale)), 0),
           Max(Floor(Back(b.y0, lb.top, lb.scale)), 0),
           Min(Ceil(Back(b.x1, lb.left, lb.scale)), width),
           Min(Ceil(Back(b.y1, lb.top, lb.scale)), height),
           cls, 0, score)
  }

  predicate Kept(r: Region) {
    r.x1 - r.x0 >= MinRegionPx && r.y1 - r.y0 >= MinRegionPx
  }

  ghost predicate InPage(r: Region, width: int, height: int) {
    0 <= r.x0 < r.x1 <= width && 0 <= r.y0 < r.y1 <= height
  }

  // A kept box lies in the page, contains the back-projected box clamped to the
  // page, and exceeds it by less than a pixel on each side.
  lemma KeptBoxIsTight(b: Box, lb: Letterbox, width: int, height: int, cls: string, score: real)
    requires lb.scale != 0.0 && Kept(ToPage(b, lb, width, height, cls, score))
    ensures var r := ToPage(b, lb, width, height, cls, score);
            && InPage(r, width, height)
            && r.x0 as real <= MaxR(Back(b.x0, lb.left, lb.scale), 0.0) < r.x0 as real + 1.0
            && r.y0 as real <= MaxR(Back(b.y0, lb.top, lb.scale), 0.0) < r.y0 as real + 1.0
            && r.x1 as real - 1.0 < MinR(Back(b.x1, lb.left, lb.scale), width as real) <= r.x1 as real
            && r.y1 as real - 1.0 < MinR(Back(b.y1, lb.top, lb.scale), height as real) <= r.y1 as real
  {
    Rounded(Back(b.x0, lb.left, lb.scale), width);
    Rounded(Back(b.y0, lb.top, lb.scale), height);
    Rounded(Back(b.x1, lb.left, lb.scale), width);
    Rounded(Back(b.y1, lb.top, lb.scale), height);
  }

  lemma Rounded(x: real, bound: int)
    ensures var near, far := Max(Floor(x), 0), Min(Ceil(x), bound);
            && near as real <= MaxR(x, 0.0) < near as real + 1.0
            && far as real - 1.0 < MinR(x, bound as real) <= far as real
  {
  }

  // A page coordinate taken to the canvas.
  function Forth(v: int, pad: int, scale: real): real {
    v as real * scale + pad as real
  }

  // A page box as the detector would report it on the canvas.
  function ToCanvas(r: Region, lb: Letterbox): Box {
    Box(Forth(r.x0, lb.left, lb.scale), Forth(r.y0, lb.top, lb.scale),
        Forth(r.x1, lb.left, lb.scale), Forth(r.y1, lb.top, lb.scale))
  }

  lemma WholeIsExact(v: int)
    ensures Floor(v as real) == v && Ceil(v as real) == v
  {
    assert -(v as real) == (-v) as real;
  }

  lemma ForthAndBack(v: int, pad: int, scale: real)
    requires scale > 0.0
    ensures Floor(Back(Forth(v, pad, scale), pad, scale)) == v
    ensures Ceil(Back(Forth(v, pad, scale), pad, scale)) == v
  {
    assert v as real * scale + pad as real - pad as real == v as real * scale;
    assert (v as real * scale) / scale == v as real;
    WholeIsExact(v);
  }

  // A box of whole page pixels survives the trip to the canvas and back.
  lemma LetterboxRoundTrip(r: Region, h: int, w: int, size: int)
    requires h > 0 && w > 0 && size > 0 && r.order == 0
    requires InPage(r, w, h) && r.x1 - r.x0 >= 16 && r.y1 - r.y0 >= 16
    ensures FitPage(h, w, size).scale > 0.0
    ensures var lb := FitPage(h, w, size);
            ToPage(ToCanvas(r, lb), lb, w, h, r.cls, r.score) == r
  {
    hide Floor, Ceil, Back, Forth, FitPage;
    PageFitsCanvas(h, w, size);
    var lb := FitPage(h, w, size);
    ForthAndBack(r.x0, lb.left, lb.scale);
    ForthAndBack(r.y0, lb.top, lb.scale);
    ForthAndBack(r.x1, lb.left, lb.scale);
    ForthAndBack(r.y1, lb.top, lb.scale);
  }

  // ------------------------------------------------------------ cropping

  datatype Crop = WholeImage | Window(x0: int, y0: int, x1: int, y1: int)

  function CropWindow(r: Region, width: int, height: int, pad: int): Crop {
    var x0, y0 := Max(r.x0 - pad, 0), Max(r.y0 - pad, 0);
    var x1, y1 := Min(r.x1 + pad, width), Min(r.y1 + pad, height);
    if x1 <= x0 || y1 <= y0 then WholeImage else Window(x0, y0, x1, y1)
  }

  // A region that lies in the page is cut out with its margin, never replaced
  // by the whole image; on each side the window goes beyond it by the margin, or to
  // the edge of the page.
  lemma CropOfPageRegion(r: Region, width: int, height: int, pad: int)
    requires InPage(r, width, height) && pad >= 0
    ensures var c := CropWindow(r, width, height, pad);
            && c.Window?
            && 0 <= c.x0 <= r.x0 && r.x1 <= c.x1 <= width && 0 <= c.y0 <= r.y0 && r.y1 <= c.y1 <= height
            && (r.x0 - c.x0 == pad || c.x0 == 0 > r.x0 - pad) && (c.x1 - r.x1 == pad || c.x1 == width < r.x1 + pad)
            && (r.y0 - c.y0 == pad || c.y0 == 0 > r.y0 - pad) && (c.y1 - r.y1 == pad || c.y1 == height < r.y1 + pad)
  {
  }

  // A place of the page that the region covers on one axis, margin and all.
  ghost predicate Covers(r: Region, axis: Axis, pad: int, x: int, bound: int) {
    0 <= x < bound && Lo(r, axis) - pad <= x < Hi(r, axis) + pad
  }

  // Any other region is replaced by the whole image exactly when, margin and all, no
  // pixel of it lies in the page.
  lemma CropFallsBackIff(r: Region, width: int, height: int, pad: int)
    ensures CropWindow(r, width, height, pad).WholeImage?
            <==> (forall x :: !Covers(r, X, pad, x, width)) || (forall y :: !Covers(r, Y, pad, y, height))
  {
    if CropWindow(r, width, height, pad).Window? {
      assert Covers(r, X, pad, Max(r.x0 - pad, 0), width);
      assert Covers(r, Y, pad, Max(r.y0 - pad, 0), height);
    }
  }

  // ------------------------------------------------------------ the tensor

  const ClassNames: seq<string> := [
    "title", "text", "abandon", "figure", "figure_caption",
    "table", "table_caption", "table_footnote", "formula", "formula_caption"]

  const SkipClasses: set<string> := {"abandon", "figure"}

  datatype Tensor = Tensor(rows: nat, cols: nat, at: (int, int) -> real)

  datatype Detected = Detected(box: Box, score: real, cls: int)

  // int() of the source language: towards zero.
  function Truncate(x: real): int { if x >= 0.0 then x.Floor else -(-x).Floor }

  lemma TruncateIs(x: real)
    ensures var n := Truncate(x);
            if x >= 0.0 then n as real <= x < n as real + 1.0 else n as real - 1.0 < x <= n as real
  {
  }

  predicate ReadAsCorners(rows: nat, cols: nat) {
    cols == 6 && rows != 4 + |ClassNames|
  }

  // The index of the first largest of the score columns from first on.
  function ArgMax(row: int -> real, first: int, end: int): (k: int)
    requires first < end
    ensures first <= k < end
    ensures forall j :: first <= j < end ==> row(j) <= row(k)
    ensures forall j :: first <= j < k ==> row(j) < row(k)
    decreases end - first
  {
    if first + 1 == end then first
    else
      var rest := ArgMax(row, first + 1, end);
      if row(first) >= row(rest) then first else rest
  }

  function FromCorners(row: int -> real): Detected {
    Detected(Box(row(0), row(1), row(2), row(3)), row(4), Truncate(row(5)))
  }

  function FromCentre(row: int -> real, features: int): Detected
    requires features > 4
  {
    var k := ArgMax(row, 4, features);
    Detected(Box(row(0) - row(2) / 2.0, row(1) - row(3) / 2.0, row(0) + row(2) / 2.0, row(1) + row(3) / 2.0),
             row(k), k - 4)
  }

  // Whether the centre layout is read with its axes swapped.
  predicate Transposed(t: Tensor) {
    t.rows == 4 + |ClassNames| || t.rows < t.cols
  }

  // There is a score to take the largest of.
  predicate HasScores(t: Tensor) {
    ReadAsCorners(t.rows, t.cols) || (if Transposed(t) then t.rows else t.cols) > 4
  }

  function Detections(t: Tensor): seq<Detected>
    requires HasScores(t)
  {
    if ReadAsCorners(t.rows, t.cols) then seq(t.rows, i => FromCorners(j => t.at(i, j)))
    else if Transposed(t) then seq(t.cols, i => FromCentre(j => t.at(j, i), t.rows))
    else seq(t.rows, i => FromCentre(j => t.at(i, j), t.cols))
  }

  // The same detections written in either export layout.
  function Corners(ds: seq<Detected>): Tensor {
    Tensor(|ds|, 6, (i: int, j: int) =>
      if !(0 <= i < |ds|) then 0.0
      else if j == 0 then ds[i].box.x0 else if j == 1 then ds[i].box.y0
      else if j == 2 then ds[i].box.x1 else if j == 3 then ds[i].box.y1
      else if j == 4 then ds[i].score else ds[i].cls as real)
  }

  function Centres(ds: seq<Detected>): Tensor {
    Tensor(4 + |ClassNames|, |ds|, (j: int, i: int) =>
      if !(0 <= i < |ds|) then 0.0
      else if j == 0 then (ds[i].box.x0 + ds[i].box.x1) / 2.0
      else if j == 1 then (ds[i].box.y0 + ds[i].box.y1) / 2.0
      else if j == 2 then ds[i].box.x1 - ds[i].box.x0
      else if j == 3 then ds[i].box.y1 - ds[i].box.y0
      else if j == 4 + ds[i].cls then ds[i].score else 0.0)
  }

  ghost predicate Plausible(ds: seq<Detected>) {
    forall i :: 0 <= i < |ds| ==> 0 <= ds[i].cls < |ClassNames| && ds[i].score > 0.0
  }

  lemma CentreRowDecodes(ds: seq<Detected>, i: nat)
    requires Plausible(ds) && i < |ds|
    ensures FromCentre(j => Centres(ds).at(j, i), 4 + |ClassNames|) == ds[i]
  {
    var row := j => Centres(ds).at(j, i);
    var k := ArgMax(row, 4, 4 + |ClassNames|);
    assert Centres(ds).at(4 + ds[i].cls, i) == ds[i].score;
    assert row(4 + ds[i].cls) == ds[i].score;
    assert row(k) >= row(4 + ds[i].cls);
  }

  lemma CentresDecode(ds: seq<Detected>)
    requires Plausible(ds)
    ensures Detections(Centres(ds)) == ds
  {
    forall i | 0 <= i < |ds| ensures Detections(Centres(ds))[i] == ds[i] {
      CentreRowDecodes(ds, i);
    }
  }

  lemma CornersDecode(ds: seq<Detected>)
    requires Plausible(ds) && |ds| != 4 + |ClassNames|
    ensures Detections(Corners(ds)) == ds
  {
    forall i | 0 <= i < |ds| ensures Detections(Corners(ds))[i] == ds[i] {
      assert (ds[i].cls as real).Floor == ds[i].cls;
    }
  }

  // The detector hands over one image's output, and axes of length one are
  // squeezed out of it; what is not a matrix then is refused, and so is one
  // without a score for any class.
  function ReadOutput(t: Tensor): Option<seq<Detected>> {
    if t.rows == 1 || t.cols == 1 || !HasScores(t) then None else Some(Detections(t))
  }

  // The centre layout is read back unless there is one detection alone.
  lemma CentresAreReadIff(ds: seq<Detected>)
    requires Plausible(ds)
    ensures ReadOutput(Centres(ds)) == Some(ds) <==> |ds| != 1
    ensures |ds| == 1 ==> ReadOutput(Centres(ds)) == None
  {
    CentresDecode(ds);
    hide Detections;
  }

  // The corner layout is read back unless there is one detection alone, or there
  // are exactly as many as the centre layout has features: then it is taken for
  // the centre layout.
  lemma CornersAreReadIff(ds: seq<Detected>)
    requires Plausible(ds)
    ensures ReadOutput(Corners(ds)) == Some(ds) <==> |ds| != 1 && |ds| != 4 + |ClassNames|
    ensures |ds| == 1 ==> ReadOutput(Corners(ds)) == None
    ensures |ds| == 4 + |ClassNames| ==> ReadOutput(Corners(ds)).Some? && |ReadOutput(Corners(ds)).value| == 6
  {
    if |ds| != 4 + |ClassNames| { CornersDecode(ds); }
  }

  // ------------------------------------------------------------ decoding

  function ClassName(id: int): string {
    if 0 <= id < |ClassNames| then ClassNames[id] else "text"
  }

  // Two of the classes carry no text; a class the model does not know does.
  lemma SkippedIff(id: int)
    ensures ClassName(id) in SkipClasses <==> id == 2 || id == 3
    ensures 0 <= id < |ClassNames| ==> forall other :: 0 <= other < |ClassNames| && ClassName(other) == ClassName(id) ==> other == id
    ensures !(0 <= id < |ClassNames|) ==> ClassName(id) == ClassNames[1]
  {
  }

  function Reaches(threshold: real): Detected -> bool { (d: Detected) => d.score >= threshold }

  function AboveThreshold(ds: seq<Detected>, threshold: real): seq<Detected> {
    Sorting.Filter(ds, Reaches(threshold))
  }

  // The regions of the first n detections.
  ghost function RegionsOf(ds: seq<Detected>, n: nat, lb: Letterbox, width: int, height: int): seq<Region>
    requires n <= |ds| && lb.scale != 0.0
  {
    if n == 0 then []
    else
      var d := ds[n - 1];
      var name := ClassName(d.cls);
      var r := ToPage(d.box, lb, width, height, name, d.score);
      RegionsOf(ds, n - 1, lb, width, height) + (if name !in SkipClasses && Kept(r) then [r] else [])
  }

  method DecodeBoxes(ds: seq<Detected>, lb: Letterbox, width: int, height: int) returns (regions: seq<Region>)
    requires lb.scale != 0.0
    ensures regions == RegionsOf(ds, |ds|, lb, width, height)
  {
    regions := [];
    for i := 0 to |ds|
      invariant regions == RegionsOf(ds, i, lb, width, height)
    {
      var name := ClassName(ds[i].cls);
      if name !in SkipClasses {
        var r := ToPage(ds[i].box, lb, width, height, name, ds[i].score);
        if Kept(r) {
          regions := regions + [r];
        }
      }
    }
  }

  // Every region handed on lies in the page and carries text, and cropping it
  // never falls back to the whole page.
  lemma {:induction false} DecodedRegionsAreUsable(ds: seq<Detected>, n: nat, lb: Letterbox, width: int, height: int, pad: int)
    requires n <= |ds| && lb.scale != 0.0 && pad >= 0
    ensures forall r :: r in RegionsOf(ds, n, lb, width, height) ==>
              InPage(r, width, height) && r.cls !in SkipClasses && CropWindow(r, width, height, pad).Window?
  {
    if n > 0 {
      DecodedRegionsAreUsable(ds, n - 1, lb, width, height, pad);
      var d := ds[n - 1];
      var r := ToPage(d.box, lb, width, height, ClassName(d.cls), d.score);
      if Kept(r) {
        KeptBoxIsTight(d.box, lb, width, height, ClassName(d.cls), d.score);
        CropOfPageRegion(r, width, height, pad);
      }
    }
  }

  // ------------------------------------------------------------ the whole decode

  // Suppression of overlapping boxes is foreign code: given the boxes it returns
  // the indices of those to keep.
  ghost predicate Selects(nms: seq<Detected> -> seq<nat>) {
    forall ds, k :: k in nms(ds) ==> k < |ds|
  }

  function Pick(ds: seq<Detected>, sel: seq<nat>): seq<Detected>
    requires forall k :: k in sel ==> k < |ds|
  {
    seq(|sel|, i requires 0 <= i < |sel| => assert sel[i] in sel; ds[sel[i]])
  }

  // The boxes that reach the decoding loop: only the centre layout is suppressed.
  ghost function Candidates(t: Tensor, threshold: real, nms: seq<Detected> -> seq<nat>): seq<Detected>
    requires HasScores(t) && Selects(nms)
  {
    var ds := AboveThreshold(Detections(t), threshold);
    if ds == [] || ReadAsCorners(t.rows, t.cols) then ds else Pick(ds, nms(ds))
  }

  // A region made of a detection that is good enough, of a class with text, and at
  // least 16 pixels wide and high.
  ghost predicate MadeOf(r: Region, d: Detected, lb: Letterbox, width: int, height: int, threshold: real)
    requires lb.scale != 0.0
  {
    && d.score >= threshold && ClassName(d.cls) !in SkipClasses
    && r == ToPage(d.box, lb, width, height, ClassName(d.cls), d.score) && r.x1 - r.x0 >= 16 && r.y1 - r.y0 >= 16
  }

  lemma AboveThresholdMembers(ds: seq<Detected>, threshold: real, d: Detected)
    ensures d in AboveThreshold(ds, threshold) <==> d in ds && d.score >= threshold
  {
    Sorting.FilterMembers(ds, Reaches(threshold));
  }

  lemma {:induction false} RegionIsMade(ds: seq<Detected>, n: nat, lb: Letterbox, width: int, height: int, r: Region)
    returns (d: Detected)
    requires n <= |ds| && lb.scale != 0.0 && r in RegionsOf(ds, n, lb, width, height)
    ensures d in ds && MadeOf(r, d, lb, width, height, d.score)
  {
    d := ds[n - 1];
    if r in RegionsOf(ds, n - 1, lb, width, height) { d := RegionIsMade(ds, n - 1, lb, width, height, r); }
  }

  lemma {:induction false} DetectionIsUsed(ds: seq<Detected>, n: nat, lb: Letterbox, width: int, height: int, i: nat, r: Region)
    requires i < n <= |ds| && lb.scale != 0.0 && MadeOf(r, ds[i], lb, width, height, ds[i].score)
    ensures r in RegionsOf(ds, n, lb, width, height)
  {
    hide ToPage, ClassName;
    if i < n - 1 {
      DetectionIsUsed(ds, n - 1, lb, width, height, i, r);
      assert RegionsOf(ds, n - 1, lb, width, height) <= RegionsOf(ds, n, lb, width, height);
    }
  }

  lemma CandidateIsDetected(t: Tensor, threshold: real, nms: seq<Detected> -> seq<nat>, d: Detected)
    requires HasScores(t) && Selects(nms) && d in Candidates(t, threshold, nms)
    ensures d in Detections(t) && d.score >= threshold
  {
    var ds, cs := AboveThreshold(Detections(t), threshold), Candidates(t, threshold, nms);
    AboveThresholdMembers(Detections(t), threshold, d);
    hide Detections, AboveThreshold;
    if cs != ds {
      var i :| 0 <= i < |cs| && cs[i] == d;
      assert nms(ds)[i] in nms(ds) && d == ds[nms(ds)[i]];
    }
  }

  ghost predicate Usable(r: Region, width: int, height: int) {
    && InPage(r, width, height) && r.cls !in SkipClasses
    && forall pad: nat :: CropWindow(r, width, height, pad).Window?
  }

  lemma CandidateRegions(t: Tensor, lb: Letterbox, width: int, height: int, threshold: real, nms: seq<Detected> -> seq<nat>, r: Region)
    requires HasScores(t) && Selects(nms) && lb.scale != 0.0
    requires var ds := Candidates(t, threshold, nms); r in RegionsOf(ds, |ds|, lb, width, height)
    ensures Usable(r, width, height)
    ensures exists d :: d in Detections(t) && MadeOf(r, d, lb, width, height, threshold)
  {
    var ds := Candidates(t, threshold, nms);
    var d := RegionIsMade(ds, |ds|, lb, width, height, r);
    CandidateIsDetected(t, threshold, nms, d);
    forall pad: nat ensures CropWindow(r, width, height, pad).Window? {
      DecodedRegionsAreUsable(ds, |ds|, lb, width, height, pad);
    }
    DecodedRegionsAreUsable(ds, |ds|, lb, width, height, 0);
    hide Candidates, Detections, RegionsOf, ToPage;
    assert MadeOf(r, d, lb, width, height, threshold);
  }

  // With the corner layout nothing is suppressed.
  lemma CornersAllUsed(t: Tensor, lb: Letterbox, width: int, height: int, threshold: real, nms: seq<Detected> -> seq<nat>, d: Detected, r: Region)
    requires HasScores(t) && Selects(nms) && lb.scale != 0.0 && ReadAsCorners(t.rows, t.cols)
    requires d in Detections(t) && MadeOf(r, d, lb, width, height, threshold)
    ensures var ds := Candidates(t, threshold, nms); r in RegionsOf(ds, |ds|, lb, width, height)
  {
    var ds := Candidates(t, threshold, nms);
    AboveThresholdMembers(Detections(t), threshold, d);
    var i :| 0 <= i < |ds| && ds[i] == d;
    DetectionIsUsed(ds, |ds|, lb, width, height, i, r);
  }

  // With the centre layout suppression has the last word: what it keeps is used and
  // nothing else.
  lemma SuppressedIsGone(t: Tensor, lb: Letterbox, width: int, height: int, threshold: real, nms: seq<Detected> -> seq<nat>, r: Region)
    requires HasScores(t) && Selects(nms) && lb.scale != 0.0 && !ReadAsCorners(t.rows, t.cols)
    ensures var good, cs := AboveThreshold(Detections(t), threshold), Candidates(t, threshold, nms);
            good != [] ==>
              (r in RegionsOf(cs, |cs|, lb, width, height)
               <==> exists i :: i in nms(good) && MadeOf(r, good[i], lb, width, height, threshold))
  {
    var good := AboveThreshold(Detections(t), threshold);
    forall i | 0 <= i < |good| ensures good[i].score >= threshold { GoodEnough(good, Detections(t), threshold, i); }
    hide Detections, AboveThreshold;
    if good != [] { PickedRegions(good, nms(good), lb, width, height, threshold, r); }
  }

  lemma PickedRegions(good: seq<Detected>, sel: seq<nat>, lb: Letterbox, width: int, height: int, threshold: real, r: Region)
    requires lb.scale != 0.0 && forall k :: k in sel ==> k < |good|
    requires forall i :: 0 <= i < |good| ==> good[i].score >= threshold
    ensures var cs := Pick(good, sel);
            r in RegionsOf(cs, |cs|, lb, width, height)
            <==> exists i :: i in sel && MadeOf(r, good[i], lb, width, height, threshold)
  {
    var cs := Pick(good, sel);
    hide ToPage, Kept, ClassName;
    if r in RegionsOf(cs, |cs|, lb, width, height) {
      var d := RegionIsMade(cs, |cs|, lb, width, height, r);
      var k :| 0 <= k < |cs| && cs[k] == d;
      hide RegionsOf;
      assert sel[k] in sel && MadeOf(r, good[sel[k]], lb, width, height, threshold);
    } else if i :| i in sel && MadeOf(r, good[i], lb, width, height, threshold) {
      var k :| 0 <= k < |sel| && sel[k] == i;
      hide RegionsOf;
      assert MadeOf(r, cs[k], lb, width, height, cs[k].score);
      DetectionIsUsed(cs, |cs|, lb, width, height, k, r);
    }
  }

  lemma GoodEnough(good: seq<Detected>, ds: seq<Detected>, threshold: real, i: nat)
    requires good == AboveThreshold(ds, threshold) && i < |good|
    ensures good[i].score >= threshold
  {
    assert good[i] in good;
    AboveThresholdMembers(ds, threshold, good[i]);
  }

  // Which detections yield a region, and which region.
  function Yields(lb: Letterbox, width: int, height: int): Detected -> bool
    requires lb.scale != 0.0
  {
    (d: Detected) => ClassName(d.cls) !in SkipClasses && Kept(ToPage(d.box, lb, width, height, ClassName(d.cls), d.score))
  }

  function Yield(lb: Letterbox, width: int, height: int): Detected -> Region
    requires lb.scale != 0.0
  {
    (d: Detected) => ToPage(d.box, lb, width, height, ClassName(d.cls), d.score)
  }

  lemma {:induction false} RegionsAreYielded(ds: seq<Detected>, n: nat, lb: Letterbox, width: int, height: int)
    requires n <= |ds| && lb.scale != 0.0
    ensures RegionsOf(ds, n, lb, width, height)
            == Sorting.Map(Sorting.Filter(ds[..n], Yields(lb, width, height)), Yield(lb, width, height))
  {
    hide *;
    if n == 0 {
      NothingYielded(ds, lb, width, height);
    } else {
      RegionsAreYielded(ds, n - 1, lb, width, height);
      OneYieldMore(ds, n, lb, width, height);
      Sorting.FilterMapSnoc(ds, n, Yields(lb, width, height), Yield(lb, width, height));
    }
  }

  lemma NothingYielded(ds: seq<Detected>, lb: Letterbox, width: int, height: int)
    requires lb.scale != 0.0
    ensures RegionsOf(ds, 0, lb, width, height) == [] == Sorting.Map(Sorting.Filter(ds[..0], Yields(lb, width, height)), Yield(lb, width, height))
  {
    hide ToPage, Kept, ClassName;
  }

  lemma OneYieldMore(ds: seq<Detected>, n: nat, lb: Letterbox, width: int, height: int)
    requires 0 < n <= |ds| && lb.scale != 0.0
    ensures RegionsOf(ds, n, lb, width, height)
            == RegionsOf(ds, n - 1, lb, width, height)
               + Sorting.Map(Sorting.Filter([ds[n - 1]], Yields(lb, width, height)), Yield(lb, width, height))
  {
    OneYield(ds[n - 1], lb, width, height);
    hide ToPage, Kept, ClassName, Yields, Yield, Sorting.Filter;
  }

  lemma OneYield(d: Detected, lb: Letterbox, width: int, height: int)
    requires lb.scale != 0.0
    ensures var name := ClassName(d.cls);
            var r := ToPage(d.box, lb, width, height, name, d.score);
            Sorting.Map(Sorting.Filter([d], Yields(lb, width, height)), Yield(lb, width, height))
            == if name !in SkipClasses && Kept(r) then [r] else []
  {
    hide ToPage, Kept, ClassName;
    assert [d][1..] == [];
  }

  // The regions come in the order of the detections they are made of, one for each
  // that has text and is large enough.
  lemma RegionsInOrder(ds: seq<Detected>, lb: Letterbox, width: int, height: int) returns (at: seq<nat>)
    requires lb.scale != 0.0
    ensures Sorting.Places(ds, Yields(lb, width, height), at)
    ensures var rs := RegionsOf(ds, |ds|, lb, width, height);
            |rs| == |at| && forall k :: 0 <= k < |at| ==> MadeOf(rs[k], ds[at[k]], lb, width, height, ds[at[k]].score)
  {
    RegionsAreYielded(ds, |ds|, lb, width, height);
    assert ds[..|ds|] == ds;
    at := Sorting.FilterPlaces(ds, Yields(lb, width, height));
    hide ToPage, Kept, RegionsOf;
  }

  // Refuses exactly what is not read.  Otherwise every region lies in the page,
  // carries text, is cropped without fallback and is made of a detection that
  // reaches the threshold; with the corner layout every such detection is used,
  // with the centre layout those that suppression leaves.
  method DecodeDetections(t: Tensor, lb: Letterbox, width: int, height: int, threshold: real,
                          nms: seq<Detected> -> seq<nat>) returns (found: Option<seq<Region>>)
    requires Selects(nms) && lb.scale != 0.0
    ensures found.None? <==> ReadOutput(t).None?
    ensures found.Some? ==>
              && (forall r :: r in found.value ==>
                    Usable(r, width, height)
                    && exists d :: d in ReadOutput(t).value && MadeOf(r, d, lb, width, height, threshold))
              && (ReadAsCorners(t.rows, t.cols) ==>
                    forall d, r :: d in ReadOutput(t).value && MadeOf(r, d, lb, width, height, threshold) ==> r in found.value)
              && (var good := AboveThreshold(ReadOutput(t).value, threshold);
                  !ReadAsCorners(t.rows, t.cols) && good != [] ==>
                    forall r :: r in found.value
                                <==> exists i :: i in nms(good) && MadeOf(r, good[i], lb, width, height, threshold))
              && (var ds := Candidates(t, threshold, nms); found.value == RegionsOf(ds, |ds|, lb, width, height))
  {
    if t.rows == 1 || t.cols == 1 || !HasScores(t) {
      return None;
    }
    ghost var cs := Candidates(t, threshold, nms);
    forall r | r in RegionsOf(cs, |cs|, lb, width, height)
      ensures Usable(r, width, height) && exists d :: d in Detections(t) && MadeOf(r, d, lb, width, height, threshold)
    {
      CandidateRegions(t, lb, width, height, threshold, nms, r);
    }
    if ReadAsCorners(t.rows, t.cols) {
      forall d, r | d in Detections(t) && MadeOf(r, d, lb, width, height, threshold)
        ensures r in RegionsOf(cs, |cs|, lb, width, height)
      {
        CornersAllUsed(t, lb, width, height, threshold, nms, d, r);
      }
    } else {
      forall r { SuppressedIsGone(t, lb, width, height, threshold, nms, r); }
    }
    hide Detections, MadeOf, Usable, ToPage;
    var ds := AboveThreshold(Detections(t), threshold);
    if ds == [] {
      return Some([]);
    }
    if !ReadAsCorners(t.rows, t.cols) {
      ds := Pick(ds, nms(ds));
    }
    var regions := DecodeBoxes(ds, lb, width, height);
    found := Some(regions);
  }

  // One set of detections gives the same regions from either export, provided
  // suppression keeps all of them in place and their number is not 14.
  lemma LayoutsAgree(ds: seq<Detected>, threshold: real, nms: seq<Detected> -> seq<nat>)
    requires Plausible(ds) && |ds| != 4 + |ClassNames| && Selects(nms)
    requires var kept := AboveThreshold(ds, threshold); Pick(kept, nms(kept)) == kept
    ensures Candidates(Centres(ds), threshold, nms) == Candidates(Corners(ds), threshold, nms)
  {
    CentresDecode(ds);
    CornersDecode(ds);
  }

  // ------------------------------------------------------------ detection

  // Whatever the detector puts out, or if it fails, the page is covered by at
  // least one region; what is found lies in the page and is in reading order.
  method Detect(output: Option<Tensor>, lb: Letterbox, width: int, height: int, threshold: real,
                nms: seq<Detected> -> seq<nat>) returns (regions: seq<Region>)
    requires Selects(nms) && lb.scale != 0.0 && width > 0 && height > 0
    ensures regions != [] && forall i :: 0 <= i < |regions| ==> regions[i].order == i && InPage(regions[i], width, height)
    ensures Legible(regions, MinGap(width))
    ensures (output.None? || ReadOutput(output.value).None?) ==> regions == [Region(0, 0, width, height, "page", 0, 1.0)]
  {
    var found: Option<seq<Region>> := None;
    if output.Some? {
      found := DecodeDetections(output.value, lb, width, height, threshold, nms);
    }
    if found.None? || found.value == [] {
      return [Region(0, 0, width, height, "page", 0, 1.0)];
    }
    ghost var rs := found.value;
    forall r | r in rs ensures InPage(r, width, height) { assert Usable(r, width, height); }
    regions := AssignReadingOrder(found.value, width);
    PlacedInPage(rs, width, height);
  }

  lemma PlacedInPage(rs: seq<Region>, width: int, height: int)
    requires forall r :: r in rs ==> InPage(r, width, height)
    ensures var out := Numbered(Order(rs, MinGap(width), 0)); forall i :: 0 <= i < |out| ==> InPage(out[i], width, height)
    ensures Proper(rs)
  {
    OrderIsPermutation(rs, MinGap(width), 0);
    Sorting.SameElements(rs, Order(rs, MinGap(width), 0));
    hide Order;
    var out, ordered := Numbered(Order(rs, MinGap(width), 0)), Order(rs, MinGap(width), 0);
    forall i | 0 <= i < |out| ensures InPage(out[i], width, height) { assert ordered[i] in rs; }
  }
}

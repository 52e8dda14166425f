// Tiling: regions taller than the encoder budget are cut into horizontal
// strips that overlap, so that no line of text falls on a cut.
module Tiling {
  import opened Basics
  import opened Regions

  function Height(r: Region): int { r.y1 - r.y0 }

  function Step(maxHeight: int, overlap: int): int {
    Max(maxHeight - overlap, maxHeight / 2)
  }

  function Strip(r: Region, top: int, maxHeight: int): Region {
    r.(y0 := top, y1 := Min(top + maxHeight, r.y1))
  }

  // ------------------------------------------- one region, one loop

  // The strips of r from row top on.
  function StripsFrom(r: Region, top: int, maxHeight: int, step: int): seq<Region>
    requires step >= 1
    decreases r.y1 - top
  {
    if top >= r.y1 then []
    else if top + maxHeight >= r.y1 then [Strip(r, top, maxHeight)]
    else [Strip(r, top, maxHeight)] + StripsFrom(r, top + step, maxHeight, step)
  }

  predicate Fits(r: Region, maxHeight: int) {
    maxHeight <= 0 || Height(r) <= maxHeight
  }

  // The loop over r gets to its end: it is skipped or it advances.
  predicate Advances(r: Region, maxHeight: int, overlap: int) {
    Fits(r, maxHeight) || Step(maxHeight, overlap) >= 1
  }

  function Tiles(r: Region, maxHeight: int, overlap: int): seq<Region>
    requires Advances(r, maxHeight, overlap)
  {
    if Fits(r, maxHeight) then [r]
    else StripsFrom(r, r.y0, maxHeight, Step(maxHeight, overlap))
  }

  ghost predicate AllAdvance(rs: seq<Region>, maxHeight: int, overlap: int) {
    forall i :: 0 <= i < |rs| ==> Advances(rs[i], maxHeight, overlap)
  }

  // The tiles of the first n regions, in order.
  ghost function TilesOf(rs: seq<Region>, n: nat, maxHeight: int, overlap: int): seq<Region>
    requires n <= |rs| && AllAdvance(rs, maxHeight, overlap)
  {
    if n == 0 then [] else TilesOf(rs, n - 1, maxHeight, overlap) + Tiles(rs[n - 1], maxHeight, overlap)
  }

  ghost function Tiling(rs: seq<Region>, maxHeight: int, overlap: int): seq<Region>
    requires AllAdvance(rs, maxHeight, overlap)
  {
    Numbered(TilesOf(rs, |rs|, maxHeight, overlap))
  }

  // ------------------------------------------- when the loop never ends

  // The row the loop stands at after n rounds, unless it has left by then.
  function TopAfter(r: Region, maxHeight: int, overlap: int, n: nat): Option<int> {
    if n == 0 then Some(r.y0)
    else
      match TopAfter(r, maxHeight, overlap, n - 1)
      case None => None
      case Some(top) =>
        if top >= r.y1 || top + maxHeight >= r.y1 then None
        else Some(top + Step(maxHeight, overlap))
  }

  lemma {:induction false} StallsAtTop(r: Region, maxHeight: int, overlap: int, n: nat)
    requires !Fits(r, maxHeight) && Step(maxHeight, overlap) == 0
    ensures TopAfter(r, maxHeight, overlap, n) == Some(r.y0)
  {
    if n > 0 { StallsAtTop(r, maxHeight, overlap, n - 1); }
  }

  lemma {:induction false} ClimbsByAtLeastOne(r: Region, maxHeight: int, overlap: int, n: nat)
    requires Step(maxHeight, overlap) >= 1
    ensures var top := TopAfter(r, maxHeight, overlap, n); top.Some? ==> top.value >= r.y0 + n
  {
    if n > 0 { ClimbsByAtLeastOne(r, maxHeight, overlap, n - 1); }
  }

  ghost predicate RunsForever(r: Region, maxHeight: int, overlap: int) {
    forall n: nat :: TopAfter(r, maxHeight, overlap, n).Some?
  }

  lemma LeavesInTime(r: Region, maxHeight: int, overlap: int)
    requires !Fits(r, maxHeight) && Step(maxHeight, overlap) >= 1
    ensures !RunsForever(r, maxHeight, overlap)
  {
    var n := if Height(r) > 0 then Height(r) else 0;
    ClimbsByAtLeastOne(r, maxHeight, overlap, n);
    hide Step;
    assert TopAfter(r, maxHeight, overlap, n + 1).None?;
  }

  // The tiling loop runs forever on exactly the over-tall regions cut into
  // one-row strips with an overlap.
  lemma TilingDivergesIff(r: Region, maxHeight: int, overlap: int)
    requires !Fits(r, maxHeight)
    ensures RunsForever(r, maxHeight, overlap) <==> maxHeight == 1 && overlap >= 1
    ensures Advances(r, maxHeight, overlap) <==> !(maxHeight == 1 && overlap >= 1)
  {
    hide TopAfter;
    if maxHeight == 1 && overlap >= 1 {
      forall n: nat ensures TopAfter(r, maxHeight, overlap, n).Some? {
        StallsAtTop(r, maxHeight, overlap, n);
      }
    } else {
      LeavesInTime(r, maxHeight, overlap);
    }
  }

  // ------------------------------------------- the loops

  // The loop over r is skipped or has come to its end after so many rounds.
  predicate EndsWithin(r: Region, maxHeight: int, overlap: int, rounds: nat) {
    Fits(r, maxHeight) || TopAfter(r, maxHeight, overlap, rounds).None?
  }

  lemma {:induction false} GoneStaysGone(r: Region, maxHeight: int, overlap: int, n: nat, m: nat)
    requires TopAfter(r, maxHeight, overlap, n).None? && n <= m
    ensures TopAfter(r, maxHeight, overlap, m).None?
  {
    if n < m { GoneStaysGone(r, maxHeight, overlap, n, m - 1); }
  }

  // A loop that ends at all ends before it has run once for every row.
  lemma EndsWithinHeight(r: Region, maxHeight: int, overlap: int, rounds: nat)
    requires Advances(r, maxHeight, overlap) && rounds > Height(r)
    ensures EndsWithin(r, maxHeight, overlap, rounds)
  {
    if !Fits(r, maxHeight) {
      var n := rounds - 1;
      ClimbsByAtLeastOne(r, maxHeight, overlap, n);
      hide Step;
    }
  }

  // The loop over one region, watched for so many rounds.
  method TileRegion(r: Region, maxHeight: int, overlap: int, rounds: nat) returns (tiles: Option<seq<Region>>)
    ensures tiles.Some? <==> EndsWithin(r, maxHeight, overlap, rounds)
    ensures tiles.Some? ==> Advances(r, maxHeight, overlap) && tiles.value == Tiles(r, maxHeight, overlap)
  {
    if Fits(r, maxHeight) {
      return Some([r]);
    }
    hide Step;
    var step := Step(maxHeight, overlap);
    var top, out := r.y0, [];
    for n := 0 to rounds
      invariant TopAfter(r, maxHeight, overlap, n) == Some(top)
      invariant step >= 1 ==> out + StripsFrom(r, top, maxHeight, step) == StripsFrom(r, r.y0, maxHeight, step)
      invariant step < 1 ==> top == r.y0
    {
      if top >= r.y1 {
        GoneStaysGone(r, maxHeight, overlap, n + 1, rounds);
        return Some(out);
      }
      var bottom := Min(top + maxHeight, r.y1);
      ghost var before := out;
      out := out + [r.(y0 := top, y1 := bottom)];
      if step >= 1 && bottom < r.y1 { StripAdded(before, r, top, maxHeight, step); }
      if bottom >= r.y1 {
        GoneStaysGone(r, maxHeight, overlap, n + 1, rounds);
        return Some(out);
      }
      top := top + step;
    }
    return None;
  }

  lemma StripAdded(out: seq<Region>, r: Region, top: int, maxHeight: int, step: int)
    requires step >= 1 && top + maxHeight < r.y1 && top < r.y1
    ensures out + StripsFrom(r, top, maxHeight, step)
            == (out + [Strip(r, top, maxHeight)]) + StripsFrom(r, top + step, maxHeight, step)
  {
    Associates(out, [Strip(r, top, maxHeight)], StripsFrom(r, top + step, maxHeight, step));
  }

  // All regions, watched for so many rounds each: the tiles, unless some loop has
  // not ended by then.
  method Tile(rs: seq<Region>, maxHeight: int, overlap: int, rounds: nat) returns (out: Option<seq<Region>>)
    ensures out.Some? <==> forall i :: 0 <= i < |rs| ==> EndsWithin(rs[i], maxHeight, overlap, rounds)
    ensures out.Some? ==> AllAdvance(rs, maxHeight, overlap) && out.value == Tiling(rs, maxHeight, overlap)
    ensures AllAdvance(rs, maxHeight, overlap) && (forall i :: 0 <= i < |rs| ==> rounds > Height(rs[i])) ==> out.Some?
  {
    forall i | 0 <= i < |rs| && Advances(rs[i], maxHeight, overlap) && rounds > Height(rs[i])
      ensures EndsWithin(rs[i], maxHeight, overlap, rounds)
    {
      EndsWithinHeight(rs[i], maxHeight, overlap, rounds);
    }
    hide EndsWithin, Advances;
    var all := [];
    for i := 0 to |rs|
      invariant forall k :: 0 <= k < i ==> EndsWithin(rs[k], maxHeight, overlap, rounds) && Advances(rs[k], maxHeight, overlap)
      invariant AllAdvance(rs[..i], maxHeight, overlap) && all == TilesOf(rs[..i], i, maxHeight, overlap)
    {
      var tiles := TileRegion(rs[i], maxHeight, overlap, rounds);
      if tiles.None? {
        return None;
      }
      TilesOfNext(rs, i, maxHeight, overlap);
      all := all + tiles.value;
    }
    assert rs[..|rs|] == rs;
    all := Number(all);
    out := Some(all);
  }

  lemma TilesOfNext(rs: seq<Region>, i: nat, maxHeight: int, overlap: int)
    requires i < |rs| && AllAdvance(rs[..i], maxHeight, overlap) && Advances(rs[i], maxHeight, overlap)
    ensures AllAdvance(rs[..i + 1], maxHeight, overlap)
    ensures TilesOf(rs[..i + 1], i + 1, maxHeight, overlap)
            == TilesOf(rs[..i], i, maxHeight, overlap) + Tiles(rs[i], maxHeight, overlap)
  {
    assert forall k :: 0 <= k < i ==> rs[..i + 1][k] == rs[..i][k];
    SameFirst(rs[..i + 1], rs[..i], i, maxHeight, overlap);
  }

  lemma {:induction false} SameFirst(a: seq<Region>, b: seq<Region>, n: nat, maxHeight: int, overlap: int)
    requires n <= |a| && n <= |b| && AllAdvance(a, maxHeight, overlap) && AllAdvance(b, maxHeight, overlap)
    requires forall k :: 0 <= k < n ==> a[k] == b[k]
    ensures TilesOf(a, n, maxHeight, overlap) == TilesOf(b, n, maxHeight, overlap)
  {
    if n > 0 { SameFirst(a, b, n - 1, maxHeight, overlap); }
  }

  // ------------------------------------------- what the strips look like

  // Strips that follow the budget: the settings the tiler is meant for.
  predicate Sound(maxHeight: int, overlap: int) {
    overlap >= 0 && (maxHeight >= 2 || (maxHeight == 1 && overlap == 0))
  }

  lemma SoundStep(maxHeight: int, overlap: int)
    requires Sound(maxHeight, overlap)
    ensures 1 <= Step(maxHeight, overlap) <= maxHeight
    ensures maxHeight - Step(maxHeight, overlap) == Min(overlap, maxHeight - maxHeight / 2)
  {
  }

  // The k-th strip starts k steps down and is as tall as the budget allows.
  lemma {:induction false} StripShape(r: Region, top: int, maxHeight: int, step: int, k: nat)
    requires 1 <= step <= maxHeight && top < r.y1
    requires k < |StripsFrom(r, top, maxHeight, step)|
    ensures StripsFrom(r, top, maxHeight, step)[k] == Strip(r, top + k * step, maxHeight)
    ensures top + k * step < r.y1
    ensures k + 1 < |StripsFrom(r, top, maxHeight, step)| <==> top + k * step + maxHeight < r.y1
    decreases r.y1 - top
  {
    if k > 0 {
      StripShape(r, top + step, maxHeight, step, k - 1);
      assert top + step + (k - 1) * step == top + k * step;
    }
  }

  // Every row of the region lies in some strip.
  lemma {:induction false} RowIsCovered(r: Region, top: int, maxHeight: int, step: int, y: int) returns (k: nat)
    requires 1 <= step <= maxHeight && top <= y < r.y1
    ensures k < |StripsFrom(r, top, maxHeight, step)|
    ensures StripsFrom(r, top, maxHeight, step)[k].y0 <= y < StripsFrom(r, top, maxHeight, step)[k].y1
    decreases r.y1 - top
  {
    if y < top + maxHeight {
      k := 0;
    } else {
      var j := RowIsCovered(r, top + step, maxHeight, step, y);
      k := j + 1;
    }
  }

  ghost predicate StripOf(t: Region, r: Region, maxHeight: int) {
    && r.y0 <= t.y0 < t.y1 <= r.y1
    && Height(t) <= maxHeight
    && t == r.(y0 := t.y0, y1 := t.y1)
  }

  ghost predicate RowIn(y: int, t: Region) { t.y0 <= y < t.y1 }

  // An over-tall region becomes n strips within the budget, where n - 1 is
  // (h - maxHeight) / step rounded up.
  lemma TallRegionCount(r: Region, maxHeight: int, overlap: int)
    requires Sound(maxHeight, overlap) && Height(r) > maxHeight
    ensures Advances(r, maxHeight, overlap)
    ensures var n, step := |Tiles(r, maxHeight, overlap)|, Step(maxHeight, overlap);
            n >= 2 && (n - 2) * step < Height(r) - maxHeight <= (n - 1) * step
  {
    SoundStep(maxHeight, overlap);
    var ts := Tiles(r, maxHeight, overlap);
    StripShape(r, r.y0, maxHeight, Step(maxHeight, overlap), |ts| - 1);
    StripShape(r, r.y0, maxHeight, Step(maxHeight, overlap), |ts| - 2);
  }

  lemma TallRegionStrip(r: Region, maxHeight: int, overlap: int, k: nat)
    requires Sound(maxHeight, overlap) && Height(r) > maxHeight
    requires Advances(r, maxHeight, overlap) && k < |Tiles(r, maxHeight, overlap)|
    ensures StripOf(Tiles(r, maxHeight, overlap)[k], r, maxHeight)
  {
    SoundStep(maxHeight, overlap);
    StripShape(r, r.y0, maxHeight, Step(maxHeight, overlap), k);
    assert k * Step(maxHeight, overlap) >= 0;
  }

  // Neighbouring strips share exactly the overlap, at most half the budget, and
  // each strip adds rows to the ones before it.
  lemma TallRegionOverlap(r: Region, maxHeight: int, overlap: int, k: nat)
    requires Sound(maxHeight, overlap) && Height(r) > maxHeight
    requires Advances(r, maxHeight, overlap) && k + 1 < |Tiles(r, maxHeight, overlap)|
    ensures var ts := Tiles(r, maxHeight, overlap);
            && ts[k].y1 - ts[k + 1].y0 == Min(overlap, maxHeight - maxHeight / 2)
            && ts[k].y1 < ts[k + 1].y1
  {
    SoundStep(maxHeight, overlap);
    var step := Step(maxHeight, overlap);
    StripShape(r, r.y0, maxHeight, step, k);
    StripShape(r, r.y0, maxHeight, step, k + 1);
    assert (k + 1) * step == k * step + step;
  }

  // Together the strips cover every row.
  lemma TallRegionCovered(r: Region, maxHeight: int, overlap: int, y: int)
    requires Sound(maxHeight, overlap) && Height(r) > maxHeight && r.y0 <= y < r.y1
    requires Advances(r, maxHeight, overlap)
    ensures exists t :: t in Tiles(r, maxHeight, overlap) && RowIn(y, t)
  {
    SoundStep(maxHeight, overlap);
    var k := RowIsCovered(r, r.y0, maxHeight, Step(maxHeight, overlap), y);
    assert RowIn(y, Tiles(r, maxHeight, overlap)[k]);
  }

  // ------------------------------------------- the whole list

  // The settings under which tiling ends and leaves no gap between strips.
  predicate Usable(maxHeight: int, overlap: int) {
    maxHeight <= 0 || Sound(maxHeight, overlap)
  }

  lemma UsableAdvances(rs: seq<Region>, maxHeight: int, overlap: int)
    requires Usable(maxHeight, overlap)
    ensures AllAdvance(rs, maxHeight, overlap)
  {
    if maxHeight > 0 { SoundStep(maxHeight, overlap); }
  }

  lemma TilesAreNeverNone(r: Region, maxHeight: int, overlap: int)
    requires Usable(maxHeight, overlap) && Advances(r, maxHeight, overlap)
    ensures Tiles(r, maxHeight, overlap) != []
    ensures forall t :: t in Tiles(r, maxHeight, overlap) ==> Fits(t, maxHeight)
  {
    if !Fits(r, maxHeight) {
      TallRegionCount(r, maxHeight, overlap);
      forall t | t in Tiles(r, maxHeight, overlap) ensures Fits(t, maxHeight) {
        var k :| 0 <= k < |Tiles(r, maxHeight, overlap)| && Tiles(r, maxHeight, overlap)[k] == t;
        TallRegionStrip(r, maxHeight, overlap, k);
      }
    }
  }

  // The region each tile came from.
  ghost function Owners(rs: seq<Region>, n: nat, maxHeight: int, overlap: int): seq<nat>
    requires n <= |rs| && AllAdvance(rs, maxHeight, overlap)
  {
    if n == 0 then []
    else Owners(rs, n - 1, maxHeight, overlap) + seq(|Tiles(rs[n - 1], maxHeight, overlap)|, _ => n - 1)
  }

  // Tiles keep the order of the regions they came from, every region has some,
  // and every tile fits the budget.
  lemma {:induction false} TilingKeepsOrder(rs: seq<Region>, n: nat, maxHeight: int, overlap: int)
    requires Usable(maxHeight, overlap) && n <= |rs| && AllAdvance(rs, maxHeight, overlap)
    ensures var out, owner := TilesOf(rs, n, maxHeight, overlap), Owners(rs, n, maxHeight, overlap);
            && |owner| == |out|
            && (forall k :: 0 <= k < |out| ==>
                  owner[k] < n && out[k] in Tiles(rs[owner[k]], maxHeight, overlap) && Fits(out[k], maxHeight))
            && (forall j, k :: 0 <= j <= k < |out| ==> owner[j] <= owner[k])
            && (forall i :: 0 <= i < n ==> i in owner)
  {
    hide Tiles, Usable, Fits;
    if n > 0 {
      TilingKeepsOrder(rs, n - 1, maxHeight, overlap);
      TilesAreNeverNone(rs[n - 1], maxHeight, overlap);
      var owner := Owners(rs, n, maxHeight, overlap);
      assert owner[|owner| - 1] == n - 1;
      forall i | 0 <= i < n ensures i in owner {
        if i < n - 1 { assert i in Owners(rs, n - 1, maxHeight, overlap); }
      }
    }
  }

  lemma {:induction false} TilesOfFitting(rs: seq<Region>, n: nat, maxHeight: int, overlap: int)
    requires n <= |rs| && AllAdvance(rs, maxHeight, overlap)
    requires forall i :: 0 <= i < n ==> Fits(rs[i], maxHeight)
    ensures TilesOf(rs, n, maxHeight, overlap) == rs[..n]
  {
    if n > 0 {
      TilesOfFitting(rs, n - 1, maxHeight, overlap);
      assert rs[..n] == rs[..n - 1] + [rs[n - 1]];
    }
  }

  // Tiling the tiles again changes nothing, numbers included.
  lemma TileTwice(rs: seq<Region>, maxHeight: int, overlap: int)
    requires Usable(maxHeight, overlap)
    ensures AllAdvance(rs, maxHeight, overlap)
    ensures var once := Tiling(rs, maxHeight, overlap);
            AllAdvance(once, maxHeight, overlap) && Tiling(once, maxHeight, overlap) == once
  {
    UsableAdvances(rs, maxHeight, overlap);
    TilingKeepsOrder(rs, |rs|, maxHeight, overlap);
    var once := Tiling(rs, maxHeight, overlap);
    UsableAdvances(once, maxHeight, overlap);
    TilesOfFitting(once, |once|, maxHeight, overlap);
    assert once[..|once|] == once && Numbered(once) == once;
  }
}

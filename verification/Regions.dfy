// The unit of work of the page pipeline: a rectangle of page pixels with its
// class, its place in the reading order and the detector's score.
module Regions {

  datatype Region = Region(x0: int, y0: int, x1: int, y1: int, cls: string, order: int, score: real)

  datatype Axis = X | Y

  function Lo(r: Region, axis: Axis): int {
    if axis == X then r.x0 else r.y0
  }

  function Hi(r: Region, axis: Axis): int {
    if axis == X then r.x1 else r.y1
  }

  // Numbers a list 0, 1, 2, ... as the reading order does.
  function Numbered(rs: seq<Region>): (r: seq<Region>)
    ensures |r| == |rs|
    ensures forall i :: 0 <= i < |rs| ==> r[i] == rs[i].(order := i)
  {
    seq(|rs|, i requires 0 <= i < |rs| => rs[i].(order := i))
  }

  // The numbering loop, which overwrites the order of each region in turn.
  method Number(rs: seq<Region>) returns (out: seq<Region>)
    ensures out == Numbered(rs)
  {
    out := rs;
    for i := 0 to |rs|
      invariant |out| == |rs|
      invariant forall k :: 0 <= k < i ==> out[k] == rs[k].(order := k)
      invariant forall k :: i <= k < |rs| ==> out[k] == rs[k]
    {
      out := out[i := out[i].(order := i)];
    }
  }
}

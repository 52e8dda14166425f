// Stitching: the texts of a page's regions are joined in reading order, and
// text that consecutive tiles repeat is dropped once.
module Stitching {
  import opened Basics
  import opened Text
  import Sorting

  const MaxCheck: nat := 400
  const MinOverlap: nat := 21

  predicate Overlaps(a: string, b: string, n: nat) {
    n <= |a| && n <= |b| && a[|a| - n..] == b[..n]
  }

  // The search tries the sizes from the largest down and gives up below 21.
  function LongestFrom(a: string, b: string, size: nat): (n: nat)
    ensures n == 0 || Overlaps(a, b, n)
  {
    if size < MinOverlap then 0
    else if Overlaps(a, b, size) then size
    else LongestFrom(a, b, size - 1)
  }

  function Limit(a: string, b: string): nat {
    var tail := if |a| < MaxCheck then |a| else MaxCheck;
    if |b| < tail then |b| else tail
  }

  function OverlapLen(a: string, b: string): (n: nat)
    ensures n <= |b|
  {
    var tail := if |a| <= MaxCheck then a else a[|a| - MaxCheck..];
    LongestFrom(tail, b, if |b| < |tail| then |b| else |tail|)
  }

  lemma {:induction false} LongestFromIsLargest(a: string, b: string, size: nat)
    ensures var n := LongestFrom(a, b, size);
            && (n == 0 || (MinOverlap <= n <= size && Overlaps(a, b, n)))
            && (forall m :: MinOverlap <= m <= size && Overlaps(a, b, m) ==> m <= n)
  {
    if size >= MinOverlap && !Overlaps(a, b, size) { LongestFromIsLargest(a, b, size - 1); }
  }

  // The overlap is the largest suffix of a, of 21 to 400 characters, that is a
  // prefix of b; 0 says that there is none.
  lemma OverlapIsLongest(a: string, b: string)
    ensures var n := OverlapLen(a, b);
            && (n == 0 || (21 <= n <= 400 && Overlaps(a, b, n)))
            && (forall m :: 21 <= m <= 400 && Overlaps(a, b, m) ==> m <= n)
  {
    var tail := if |a| <= MaxCheck then a else a[|a| - MaxCheck..];
    LongestFromIsLargest(tail, b, Limit(a, b));
    forall m: nat | m <= Limit(a, b) ensures Overlaps(tail, b, m) <==> Overlaps(a, b, m) {
      assert tail[|tail| - m..] == a[|a| - m..];
    }
  }

  // ------------------------------------------------------------ the fold

  const Gap: string := "\n\n"

  function Attach(acc: string, part: string, dedupe: bool): string {
    var overlap := if dedupe then OverlapLen(acc, part) else 0;
    if overlap != 0 then acc + Gap + LStrip(part[overlap..]) else acc + Gap + part
  }

  function Joined(parts: seq<string>, n: nat, dedupe: bool): string
    requires 1 <= n <= |parts|
  {
    if n == 1 then parts[0] else Attach(Joined(parts, n - 1, dedupe), parts[n - 1], dedupe)
  }

  // The normalised texts of the regions that have any.
  function Parts(texts: seq<string>, norm: string -> string): seq<string> {
    Sorting.Map(Sorting.Filter(texts, HasText()), norm)
  }

  // They are the texts at the places where there is any text, first to last.
  lemma PartsInOrder(texts: seq<string>, norm: string -> string) returns (at: seq<nat>)
    ensures Sorting.Places(texts, HasText(), at) && |Parts(texts, norm)| == |at|
    ensures forall k :: 0 <= k < |at| ==> Parts(texts, norm)[k] == norm(texts[at[k]])
  {
    at := Sorting.FilterPlaces(texts, HasText());
  }

  function Stitched(texts: seq<string>, norm: string -> string, dedupe: bool): string {
    var parts := Parts(texts, norm);
    if parts == [] then "" else Strip(Joined(parts, |parts|, dedupe))
  }

  method StitchRegions(texts: seq<string>, norm: string -> string, dedupe: bool) returns (result: string)
    ensures result == Stitched(texts, norm, dedupe)
  {
    var parts := Parts(texts, norm);
    if parts == [] {
      return "";
    }
    var acc := parts[0];
    for i := 1 to |parts|
      invariant acc == Joined(parts, i, dedupe)
    {
      var part := parts[i];
      var overlap := if dedupe then OverlapLen(acc, part) else 0;
      if overlap != 0 {
        acc := acc + Gap + LStrip(part[overlap..]);
      } else {
        acc := acc + Gap + part;
      }
    }
    result := Strip(acc);
  }

  // ------------------------------------------------------------ nothing is lost

  // What is dropped from the front of a part because acc already ends in it.
  function Shared(acc: string, part: string, dedupe: bool): string {
    if dedupe then part[..OverlapLen(acc, part)] else ""
  }

  lemma SharedIsSuffix(acc: string, part: string, dedupe: bool)
    ensures var n := |Shared(acc, part, dedupe)|;
            && n <= |acc| && n <= |part|
            && acc[|acc| - n..] == Shared(acc, part, dedupe) == part[..n]
  {
    OverlapIsLongest(acc, part);
  }

  // Erasing keeps suffixes.
  lemma ErasedSuffix(acc: string, n: nat)
    requires n <= |acc|
    ensures |Erase(acc[|acc| - n..])| <= |Erase(acc)|
    ensures Erase(acc)[|Erase(acc)| - |Erase(acc[|acc| - n..])|..] == Erase(acc[|acc| - n..])
  {
    assert acc == acc[..|acc| - n] + acc[|acc| - n..];
    EraseAppend(acc[..|acc| - n], acc[|acc| - n..]);
  }

  lemma SharedErased(acc: string, part: string, dedupe: bool)
    ensures |Erase(Shared(acc, part, dedupe))| <= |Erase(acc)|
    ensures Erase(acc)[|Erase(acc)| - |Erase(Shared(acc, part, dedupe))|..] == Erase(Shared(acc, part, dedupe))
  {
    hide *;
    SharedIsSuffix(acc, part, dedupe);
    ErasedSuffix(acc, |Shared(acc, part, dedupe)|);
  }

  // Where each part begins in the joined text, white space aside.
  ghost function Places(parts: seq<string>, n: nat, dedupe: bool): seq<nat>
    requires 1 <= n <= |parts|
  {
    if n == 1 then [0]
    else
      var acc, part := Joined(parts, n - 1, dedupe), parts[n - 1];
      SharedErased(acc, part, dedupe);
      Places(parts, n - 1, dedupe) + [|Erase(acc)| - |Erase(Shared(acc, part, dedupe))|]
  }

  ghost predicate FoundAt(text: string, part: string, at: nat) {
    at + |part| <= |text| && text[at..at + |part|] == part
  }

  // The parts, white space erased, lie in the text one after another: each is
  // found whole, none starts beyond the end of those before it, none ends
  // before them, and the last one ends the text, so nothing else is in it.
  ghost predicate Laid(parts: seq<string>, n: nat, at: seq<nat>, text: string)
    requires 1 <= n <= |parts|
  {
    && |at| == n && at[0] == 0
    && (forall k :: 0 <= k < n ==> FoundAt(text, Erase(parts[k]), at[k]))
    && (forall k :: 1 <= k < n ==>
          at[k] <= at[k - 1] + |Erase(parts[k - 1])| <= at[k] + |Erase(parts[k])|)
    && at[n - 1] + |Erase(parts[n - 1])| == |text|
  }

  // Attaching a part erases to the old text followed by what the part adds.
  lemma AttachErased(acc: string, part: string, dedupe: bool)
    ensures var n := |Shared(acc, part, dedupe)|;
            && n <= |part|
            && Erase(part) == Erase(Shared(acc, part, dedupe)) + Erase(part[n..])
            && Erase(Attach(acc, part, dedupe)) == Erase(acc) + Erase(part[n..])
  {
    hide Erase, LStrip, OverlapLen;
    SharedIsSuffix(acc, part, dedupe);
    var n := |Shared(acc, part, dedupe)|;
    assert part == part[..n] + part[n..];
    EraseAppend(part[..n], part[n..]);
    var rest := if n != 0 then LStrip(part[n..]) else part;
    assert n == 0 ==> part[n..] == part;
    assert Attach(acc, part, dedupe) == acc + Gap + rest;
    EraseLStrip(part[n..]);
    EraseAppend(acc + Gap, rest);
    EraseAppend(acc, Gap);
    EraseBlank(Gap);
  }

  // A part whose beginning ends the old text is found there once it is added.
  lemma FoundAtEnd(before: string, shared: string, added: string)
    requires |shared| <= |before| && before[|before| - |shared|..] == shared
    ensures FoundAt(before + added, shared + added, |before| - |shared|)
  {
    assert before + added == before[..|before| - |shared|] + (shared + added);
  }

  lemma FoundInLonger(text: string, more: string, part: string, at: nat)
    requires FoundAt(text, part, at)
    ensures FoundAt(text + more, part, at)
  {
    assert (text + more)[at..at + |part|] == text[at..at + |part|];
  }

  lemma {:induction false} JoinedLaysParts(parts: seq<string>, n: nat, dedupe: bool)
    requires 1 <= n <= |parts|
    ensures Laid(parts, n, Places(parts, n, dedupe), Erase(Joined(parts, n, dedupe)))
  {
    hide OverlapLen, Erase, Attach, Shared, Laid;
    if n == 1 {
      LayFirst(parts);
    } else {
      JoinedLaysParts(parts, n - 1, dedupe);
      var acc, part := Joined(parts, n - 1, dedupe), parts[n - 1];
      AttachErased(acc, part, dedupe);
      SharedErased(acc, part, dedupe);
      LayNext(parts, n, Places(parts, n - 1, dedupe), Erase(acc), Erase(Shared(acc, part, dedupe)),
              Erase(part[|Shared(acc, part, dedupe)|..]));
    }
  }

  lemma LayFirst(parts: seq<string>)
    requires parts != []
    ensures Laid(parts, 1, [0], Erase(parts[0]))
  {
    var text := Erase(parts[0]);
    assert text[0..|text|] == text;
  }

  lemma LayNext(parts: seq<string>, n: nat, at: seq<nat>, before: string, shared: string, added: string)
    requires 2 <= n <= |parts| && Laid(parts, n - 1, at, before)
    requires |shared| <= |before| && before[|before| - |shared|..] == shared
    requires Erase(parts[n - 1]) == shared + added
    ensures Laid(parts, n, at + [|before| - |shared|], before + added)
  {
    hide Erase, FoundAt;
    var text, at' := before + added, at + [|before| - |shared|];
    forall k | 0 <= k < n ensures FoundAt(text, Erase(parts[k]), at'[k]) {
      if k < n - 1 {
        FoundInLonger(before, added, Erase(parts[k]), at[k]);
      } else {
        FoundAtEnd(before, shared, added);
      }
    }
  }

  // Attaching a part leaves what is there, opens with a blank line and adds the part
  // short of its overlap, if there is one, and of the white space behind that.
  lemma AttachKeeps(acc: string, part: string, dedupe: bool) returns (drop: nat)
    ensures drop <= |part| && Attach(acc, part, dedupe) == acc + "\n\n" + part[drop..]
    ensures var n := if dedupe then OverlapLen(acc, part) else 0;
            && n <= drop && (n == 0 ==> drop == 0) && (forall c :: c in part[n..drop] ==> IsSpace(c))
            && (n > 0 && drop < |part| ==> !IsSpace(part[drop]))
  {
    hide IsSpace, LStrip;
    var n := if dedupe then OverlapLen(acc, part) else 0;
    drop := 0;
    if n > 0 {
      var blank := LStripSplits(part[n..]);
      drop := n + |blank|;
      assert part[n..][..|blank|] == blank && part[n..][|blank|..] == LStrip(part[n..]);
      assert part[n..drop] == blank && part[drop..] == LStrip(part[n..]);
    } else {
      assert part[0..] == part && part[0..0] == [];
    }
  }

  // Stitching loses no text and invents none.
  lemma StitchLosesNothing(texts: seq<string>, norm: string -> string, dedupe: bool)
    requires Parts(texts, norm) != []
    ensures var parts := Parts(texts, norm);
            Laid(parts, |parts|, Places(parts, |parts|, dedupe), Erase(Stitched(texts, norm, dedupe)))
  {
    hide OverlapLen, Erase, Laid, Places;
    var parts := Parts(texts, norm);
    JoinedLaysParts(parts, |parts|, dedupe);
    EraseStrip(Joined(parts, |parts|, dedupe));
  }

  // The text neither begins nor ends with white space, even if a part normalises to
  // nothing.
  lemma StitchedIsStripped(texts: seq<string>, norm: string -> string, dedupe: bool)
    ensures Stripped(Stitched(texts, norm, dedupe))
  {
    var parts := Parts(texts, norm);
    if parts != [] { StripIsStripped(Joined(parts, |parts|, dedupe)); }
    hide Joined, Strip, Parts;
  }

  function Concat(parts: seq<string>, n: nat): string
    requires n <= |parts|
  {
    if n == 0 then [] else Concat(parts, n - 1) + Erase(parts[n - 1])
  }

  // Without overlap removal the text is the parts, end to end.
  lemma {:induction false} PlainJoinIsConcat(parts: seq<string>, n: nat)
    requires 1 <= n <= |parts|
    ensures Erase(Joined(parts, n, false)) == Concat(parts, n)
  {
    if n > 1 {
      PlainJoinIsConcat(parts, n - 1);
      AttachErased(Joined(parts, n - 1, false), parts[n - 1], false);
    }
  }
}

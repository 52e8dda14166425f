// The degeneration filter: a generation that keeps repeating its lines is cut
// off at the first repetition.
module LoopFilter {
  import opened Basics
  import opened Text
  import Sorting

  // ------------------------------------------------------------ lines

  predicate IsBreak(c: char) {
    var k := c as int;
    10 <= k <= 13 || 28 <= k <= 30 || k == 0x85 || k == 0x2028 || k == 0x2029
  }

  // The position of the first line break, or the end.
  function BreakAt(s: string): (n: nat)
    ensures n <= |s|
    ensures n < |s| ==> IsBreak(s[n])
    ensures forall i :: 0 <= i < n ==> !IsBreak(s[i])
  {
    if s == [] || IsBreak(s[0]) then 0 else 1 + BreakAt(s[1..])
  }

  // What follows the first line; a carriage return takes its line feed along.
  function AfterBreak(s: string): (rest: string)
    requires BreakAt(s) < |s|
    ensures |rest| < |s|
  {
    var n := BreakAt(s);
    if s[n] as int == 13 && n + 1 < |s| && s[n + 1] as int == 10 then s[n + 2..] else s[n + 1..]
  }

  function SplitLines(s: string): seq<string>
    decreases |s|
  {
    if s == [] then []
    else if BreakAt(s) == |s| then [s]
    else [s[..BreakAt(s)]] + SplitLines(AfterBreak(s))
  }

  function JoinLines(lines: seq<string>): string {
    if lines == [] then ""
    else if |lines| == 1 then lines[0]
    else lines[0] + "\n" + JoinLines(lines[1..])
  }

  // The lines worth comparing: stripped, and longer than three characters.
  function KeyOf(line: string): seq<string> {
    if |Strip(line)| > 3 then [Strip(line)] else []
  }

  function Keys(lines: seq<string>): seq<string> {
    if lines == [] then [] else KeyOf(lines[0]) + Keys(lines[1..])
  }

  // ------------------------------------------------------------ the ratio

  // Line i repeats one of the window lines before it.
  predicate Repeats(keys: seq<string>, i: nat, window: int)
    requires i < |keys|
  {
    exists j :: 0 <= j < i && i - j <= window && keys[j] == keys[i]
  }

  function RepeatCount(keys: seq<string>, n: nat, window: int): nat
    requires n <= |keys|
  {
    if n == 0 then 0 else RepeatCount(keys, n - 1, window) + (if Repeats(keys, n - 1, window) then 1 else 0)
  }

  function Ratio(keys: seq<string>, window: int): real {
    if |keys| < 6 then 0.0 else RepeatCount(keys, |keys|, window) as real / |keys| as real
  }

  // seen maps each line to its latest place among the first i.
  ghost predicate Latest(keys: seq<string>, i: nat, seen: map<string, nat>)
    requires i <= |keys|
  {
    && (forall k :: k in seen ==> seen[k] < i && keys[seen[k]] == k)
    && (forall j :: 0 <= j < i ==> keys[j] in seen && j <= seen[keys[j]])
  }

  lemma LatestAnswers(keys: seq<string>, i: nat, seen: map<string, nat>, window: int)
    requires i < |keys| && Latest(keys, i, seen)
    ensures keys[i] in seen && i - seen[keys[i]] <= window <==> Repeats(keys, i, window)
    ensures Latest(keys, i + 1, seen[keys[i] := i])
  {
  }

  // One dictionary look-up per line finds what comparing it with every earlier
  // line of the window would.
  method RepetitionRatio(text: string, window: int) returns (ratio: real)
    ensures ratio == Ratio(Keys(SplitLines(text)), window)
  {
    hide Keys, SplitLines, Latest, Repeats;
    var keys := Keys(SplitLines(text));
    if |keys| < 6 {
      return 0.0;
    }
    var seen: map<string, nat> := map[];
    var repeats: nat := 0;
    EmptyIsLatest(keys);
    for i := 0 to |keys|
      invariant Latest(keys, i, seen)
      invariant repeats == RepeatCount(keys, i, window)
    {
      var line := keys[i];
      LatestAnswers(keys, i, seen, window);
      if line in seen && i - seen[line] <= window {
        repeats := repeats + 1;
      }
      seen := seen[line := i];
    }
    ratio := repeats as real / |keys| as real;
  }

  lemma EmptyIsLatest(keys: seq<string>)
    ensures Latest(keys, 0, map[])
  {
  }

  // ------------------------------------------------------------ the filter

  const Window: int := 30

  // Line n starts over: stripped, it is longer than three characters and equal
  // to an earlier line.
  predicate StartsOver(lines: seq<string>, n: nat)
    requires n < |lines|
  {
    |Strip(lines[n])| > 3 && exists j :: 0 <= j < n && Strip(lines[j]) == Strip(lines[n])
  }

  // How many lines come before the first that starts over, from line n on.
  function GoodLines(lines: seq<string>, n: nat): (k: nat)
    requires n <= |lines|
    ensures n <= k <= |lines|
    ensures forall i :: n <= i < k ==> !StartsOver(lines, i)
    ensures k < |lines| ==> StartsOver(lines, k)
    decreases |lines| - n
  {
    if n == |lines| || StartsOver(lines, n) then n else GoodLines(lines, n + 1)
  }

  function Filtered(text: string, threshold: real): (string, bool) {
    var lines := SplitLines(text);
    if Ratio(Keys(lines), Window) < threshold then (text, false)
    else (Strip(JoinLines(lines[..GoodLines(lines, 0)])), true)
  }

  // seen holds the stripped, non-empty lines among the first i.
  ghost predicate Seen(lines: seq<string>, i: nat, seen: set<string>)
    requires i <= |lines|
  {
    && (forall k :: k in seen ==> k != [] && exists j :: 0 <= j < i && Strip(lines[j]) == k)
    && (forall j :: 0 <= j < i && Strip(lines[j]) != [] ==> Strip(lines[j]) in seen)
  }

  lemma SeenAnswers(lines: seq<string>, i: nat, seen: set<string>)
    requires i < |lines| && Seen(lines, i, seen)
    ensures var key := Strip(lines[i]);
            && (key != [] && key in seen && |key| > 3 <==> StartsOver(lines, i))
            && Seen(lines, i + 1, if key != [] then seen + {key} else seen)
  {
    hide Strip;
    var key := Strip(lines[i]);
    if |key| > 3 && exists j :: 0 <= j < i && Strip(lines[j]) == key {
      var j :| 0 <= j < i && Strip(lines[j]) == key;
    }
    var more := if key != [] then seen + {key} else seen;
    forall k | k in more ensures k != [] && exists j :: 0 <= j < i + 1 && Strip(lines[j]) == k {
      if k in seen { var j :| 0 <= j < i && Strip(lines[j]) == k; }
    }
  }

  method FilterDegenerate(text: string, threshold: real) returns (result: string, flagged: bool)
    ensures (result, flagged) == Filtered(text, threshold)
  {
    hide Keys, SplitLines, Strip, JoinLines, Seen, StartsOver, Ratio;
    var ratio := RepetitionRatio(text, Window);
    if ratio < threshold {
      return text, false;
    }
    var lines := SplitLines(text);
    var seen: set<string> := {};
    var kept: seq<string> := [];
    var i := 0;
    NothingSeen(lines);
    while i < |lines|
      invariant 0 <= i <= |lines| && kept == lines[..i]
      invariant Seen(lines, i, seen)
      invariant GoodLines(lines, 0) == GoodLines(lines, i)
    {
      var line := lines[i];
      var key := Strip(line);
      SeenAnswers(lines, i, seen);
      if key != [] && key in seen && |key| > 3 {
        break;
      }
      if key != [] {
        seen := seen + {key};
      }
      kept := kept + [line];
      i := i + 1;
    }
    result, flagged := Strip(JoinLines(kept)), true;
  }

  lemma NothingSeen(lines: seq<string>)
    ensures Seen(lines, 0, {})
  {
  }

  // --------------------------------------------- what is flagged, and only that

  // A line counts if there are more than three characters to it, white space aside.
  function Long(): string -> bool { (line: string) => |Strip(line)| > 3 }

  function StripLine(): string -> string { (line: string) => Strip(line) }

  lemma {:induction false} KeysAreLong(lines: seq<string>)
    ensures Keys(lines) == Sorting.Map(Sorting.Filter(lines, Long()), StripLine())
  {
    hide Strip;
    if lines != [] { KeysAreLong(lines[1..]); }
  }

  // Of the lines that count, at the places at, the k-th equals one of the thirty
  // before it.
  ghost predicate Again(lines: seq<string>, at: seq<nat>, k: nat) {
    && k < |at| && at[k] < |lines|
    && exists j :: 0 <= j < k && k - j <= 30 && at[j] < |lines| && Strip(lines[at[j]]) == Strip(lines[at[k]])
  }

  ghost function AgainSet(lines: seq<string>, at: seq<nat>, n: nat): set<nat> { set k: nat | k < n && Again(lines, at, k) }

  // keys are the stripped lines at these places.
  ghost predicate KeysAt(lines: seq<string>, at: seq<nat>, keys: seq<string>) {
    |keys| == |at| && forall k :: 0 <= k < |at| ==> at[k] < |lines| && keys[k] == Strip(lines[at[k]])
  }

  lemma AgainIsRepeats(lines: seq<string>, at: seq<nat>, keys: seq<string>, k: nat)
    requires KeysAt(lines, at, keys) && k < |at|
    ensures Repeats(keys, k, Window) <==> Again(lines, at, k)
  {
    hide Strip;
    if Repeats(keys, k, Window) {
      var j :| 0 <= j < k && k - j <= Window && keys[j] == keys[k];
      assert Strip(lines[at[j]]) == Strip(lines[at[k]]);
    }
    if Again(lines, at, k) {
      var j :| 0 <= j < k && k - j <= 30 && Strip(lines[at[j]]) == Strip(lines[at[k]]);
      assert keys[j] == keys[k];
    }
  }

  lemma AgainNext(lines: seq<string>, at: seq<nat>, n: nat)
    ensures |AgainSet(lines, at, 0)| == 0
    ensures |AgainSet(lines, at, n + 1)| == |AgainSet(lines, at, n)| + if Again(lines, at, n) then 1 else 0
  {
    var more := if Again(lines, at, n) then {n} else {};
    hide Again;
    assert AgainSet(lines, at, 0) == {};
    assert AgainSet(lines, at, n + 1) == AgainSet(lines, at, n) + more;
  }

  lemma {:induction false} CountAgain(lines: seq<string>, at: seq<nat>, keys: seq<string>, n: nat)
    requires |keys| == |at| && KeysAt(lines, at, keys) && n <= |at|
    ensures RepeatCount(keys, n, Window) == |AgainSet(lines, at, n)|
  {
    hide KeysAt, Repeats, Again, AgainSet;
    if n > 0 {
      CountAgain(lines, at, keys, n - 1);
      AgainIsRepeats(lines, at, keys, n - 1);
      AgainNext(lines, at, n - 1);
    } else {
      AgainNext(lines, at, 0);
    }
  }

  lemma ShareIff(repeats: nat, n: nat, threshold: real)
    requires n > 0
    ensures repeats as real / n as real >= threshold <==> repeats as real >= threshold * n as real
  {
    var share := repeats as real / n as real;
    assert share * n as real == repeats as real;
  }

  lemma KeysPlaced(lines: seq<string>) returns (at: seq<nat>)
    ensures Sorting.Places(lines, Long(), at) && |at| == |Keys(lines)| && KeysAt(lines, at, Keys(lines))
  {
    hide Strip, Keys;
    at := Sorting.FilterPlaces(lines, Long());
    KeysAreLong(lines);
  }

  lemma FlaggedByRatio(text: string, threshold: real)
    ensures Filtered(text, threshold).1 <==> Ratio(Keys(SplitLines(text)), Window) >= threshold
  {
    hide Ratio, Keys, SplitLines;
  }

  lemma RatioIs(keys: seq<string>, threshold: real)
    ensures Ratio(keys, Window) >= threshold
            <==> if |keys| < 6 then threshold <= 0.0 else RepeatCount(keys, |keys|, Window) as real >= threshold * |keys| as real
  {
    hide RepeatCount;
    if |keys| >= 6 { ShareIff(RepeatCount(keys, |keys|, Window), |keys|, threshold); }
  }

  // A text is flagged if and only if, of the lines that count, at least the share
  // given by the threshold repeats one of the thirty before it; with fewer than six
  // such lines only if the threshold asks for nothing.
  lemma FlaggedIff(text: string, threshold: real) returns (at: seq<nat>)
    ensures Sorting.Places(SplitLines(text), Long(), at)
    ensures Filtered(text, threshold).1
            <==> if |at| < 6 then threshold <= 0.0
                 else |AgainSet(SplitLines(text), at, |at|)| as real >= threshold * |at| as real
  {
    hide *;
    var keys := Keys(SplitLines(text));
    at := KeysPlaced(SplitLines(text));
    FlaggedByRatio(text, threshold);
    CountAgain(SplitLines(text), at, keys, |at|);
    RatioIs(keys, threshold);
  }

  // --------------------------------------------- what is cut, and only that

  lemma {:induction false} NoRepeatsMeansZero(keys: seq<string>, n: nat, window: int)
    requires n <= |keys|
    requires forall i :: 0 <= i < n ==> !Repeats(keys, i, window)
    ensures RepeatCount(keys, n, window) == 0
  {
    if n > 0 { NoRepeatsMeansZero(keys, n - 1, window); }
  }

  ghost predicate Distinct(keys: seq<string>) {
    forall i, j :: 0 <= i < j < |keys| ==> keys[i] != keys[j]
  }

  lemma DistinctHasRatioZero(keys: seq<string>, window: int)
    requires Distinct(keys)
    ensures Ratio(keys, window) == 0.0
  {
    NoRepeatsMeansZero(keys, |keys|, window);
  }

  lemma {:induction false} KeysAppend(a: seq<string>, b: seq<string>)
    ensures Keys(a + b) == Keys(a) + Keys(b)
  {
    if a == [] {
      assert a + b == b;
    } else {
      hide KeyOf;
      KeysAppend(a[1..], b);
      TailOfConcat(a, b);
    }
  }

  lemma {:induction false} KeysComeFromLines(lines: seq<string>, i: nat) returns (j: nat)
    requires i < |Keys(lines)|
    ensures j < |lines| && Strip(lines[j]) == Keys(lines)[i] && |Strip(lines[j])| > 3
  {
    if i < |KeyOf(lines[0])| {
      j := 0;
    } else {
      var k := KeysComeFromLines(lines[1..], i - |KeyOf(lines[0])|);
      j := k + 1;
    }
  }

  // A prefix in which no line starts over has pairwise distinct keys.
  lemma {:induction false} GoodPrefixIsDistinct(lines: seq<string>, n: nat)
    requires n <= |lines| && forall i :: 0 <= i < n ==> !StartsOver(lines, i)
    ensures Distinct(Keys(lines[..n]))
  {
    if n > 0 {
      GoodPrefixIsDistinct(lines, n - 1);
      var init, last := lines[..n - 1], lines[n - 1];
      assert lines[..n] == init + [last];
      KeysAppend(init, [last]);
      assert Keys([last]) == KeyOf(last);
      forall i | 0 <= i < |Keys(init)| && |Strip(last)| > 3 ensures Keys(init)[i] != Strip(last) {
        var j := KeysComeFromLines(init, i);
        assert !StartsOver(lines, n - 1);
      }
    }
  }

  // A text flagged at a positive threshold is cut to a strict prefix of its
  // lines: the longest whose long lines are pairwise distinct when stripped,
  // since the next line repeats one of them.
  lemma FlaggedIsCutAtFirstRepeat(text: string, threshold: real)
    requires threshold > 0.0 && Filtered(text, threshold).1
    ensures var lines := SplitLines(text);
            var n := GoodLines(lines, 0);
            && n < |lines|
            && Filtered(text, threshold).0 == Strip(JoinLines(lines[..n]))
            && Distinct(Keys(lines[..n])) && !Distinct(Keys(lines[..n + 1]))
  {
    var lines := SplitLines(text);
    var n := GoodLines(lines, 0);
    GoodPrefixIsDistinct(lines, n);
    if n == |lines| {
      assert lines[..n] == lines;
      DistinctHasRatioZero(Keys(lines), Window);
    } else {
      NextRepeats(lines, n);
    }
  }

  lemma NextRepeats(lines: seq<string>, n: nat)
    requires n < |lines| && StartsOver(lines, n)
    ensures !Distinct(Keys(lines[..n + 1]))
  {
    hide Strip;
    var init, last := lines[..n], lines[n];
    var j :| 0 <= j < n && Strip(lines[j]) == Strip(last);
    assert lines[..n + 1] == init + [last] && init[j] == lines[j];
    KeysAppend(init, [last]);
    assert Keys([last]) == [Strip(last)];
    KeyIsThere(init, j);
    hide Keys;
    var k :| 0 <= k < |Keys(init)| && Keys(init)[k] == Strip(last);
    var keys := Keys(init) + [Strip(last)];
    assert keys[k] == keys[|Keys(init)|];
  }

  lemma {:induction false} KeyIsThere(lines: seq<string>, j: nat)
    requires j < |lines| && |Strip(lines[j])| > 3
    ensures Strip(lines[j]) in Keys(lines)
  {
    hide Strip;
    if j > 0 { KeyIsThere(lines[1..], j - 1); }
  }

  // --------------------------------------------- filtering again

  ghost predicate Unbroken(line: string) { forall i :: 0 <= i < |line| ==> !IsBreak(line[i]) }

  lemma {:induction false} LinesAreUnbroken(s: string)
    ensures forall i :: 0 <= i < |SplitLines(s)| ==> Unbroken(SplitLines(s)[i])
    decreases |s|
  {
    if s != [] && BreakAt(s) < |s| { LinesAreUnbroken(AfterBreak(s)); }
  }

  lemma FirstBreak(line: string, rest: string)
    requires Unbroken(line)
    ensures BreakAt(line + "\n" + rest) == |line|
    ensures AfterBreak(line + "\n" + rest) == rest
  {
    var s := line + "\n" + rest;
    assert s[|line|] == '\n';
    assert BreakAt(s) == |line|;
  }

  lemma {:induction false} KeysOfJoined(lines: seq<string>)
    requires forall i :: 0 <= i < |lines| ==> Unbroken(lines[i])
    ensures Keys(SplitLines(JoinLines(lines))) == Keys(lines)
  {
    if |lines| == 1 {
      assert lines[0] != [] ==> BreakAt(lines[0]) == |lines[0]|;
      assert lines == [lines[0]];
    } else if |lines| > 1 {
      KeysOfJoined(lines[1..]);
      var rest := JoinLines(lines[1..]);
      FirstBreak(lines[0], rest);
      var s := lines[0] + "\n" + rest;
      assert s[..|lines[0]|] == lines[0];
    }
  }

  // The keys of a text are those of its first line and of what follows it.
  lemma KeysOfFirst(s: string)
    ensures Keys(SplitLines(s))
            == KeyOf(s[..BreakAt(s)]) + (if BreakAt(s) < |s| then Keys(SplitLines(AfterBreak(s))) else [])
  {
    hide AfterBreak;
    if BreakAt(s) == |s| {
      assert s[..|s|] == s;
      assert s != [] ==> SplitLines(s) == [s] && Keys([s]) == KeyOf(s) + Keys([]);
    } else {
      var line, rest := s[..BreakAt(s)], SplitLines(AfterBreak(s));
      assert SplitLines(s) == [line] + rest;
      KeysAppend([line], rest);
      assert Keys([line]) == KeyOf(line) + Keys([]);
    }
  }

  // White space around a text adds no long lines.
  lemma {:induction false} KeysOfPadded(blank: string, s: string)
    requires forall c :: c in blank ==> IsSpace(c)
    ensures Keys(SplitLines(blank + s)) == Keys(SplitLines(s))
    decreases |blank|
  {
    hide Keys, SplitLines, IsSpace;
    if blank == [] {
      assert blank + s == s;
    } else {
      KeysOfPadded(blank[1..], s);
      assert blank + s == [blank[0]] + (blank[1..] + s);
      KeysOfOnePad(blank[0], blank[1..] + s);
    }
  }

  lemma KeyOfPadded(c: char, line: string)
    requires IsSpace(c)
    ensures KeyOf([c] + line) == KeyOf(line)
  {
    assert ([c] + line)[1..] == line;
    assert LStrip([c] + line) == LStrip(line);
  }

  lemma KeysOfOnePad(c: char, s: string)
    requires IsSpace(c)
    ensures Keys(SplitLines([c] + s)) == Keys(SplitLines(s))
  {
    hide Keys, SplitLines, KeyOf, IsSpace;
    var t := [c] + s;
    assert t[1..] == s;
    KeysOfFirst(t);
    if IsBreak(c) {
      KeyOfPadded(c, []);
      KeyOfNothing();
      assert BreakAt(t) == 0 && t[..0] == [];
      if AfterBreak(t) != s {
        assert AfterBreak(t) == s[1..] && BreakAt(s) == 0 && s[..0] == [];
        assert AfterBreak(s) == s[1..];
        KeysOfFirst(s);
      }
    } else {
      KeysOfFirst(s);
      assert BreakAt(t) == 1 + BreakAt(s);
      KeyOfPadded(c, s[..BreakAt(s)]);
      assert t[..BreakAt(t)] == [c] + s[..BreakAt(s)];
      if BreakAt(s) < |s| { assert AfterBreak(t) == AfterBreak(s); }
    }
  }

  lemma KeyOfNothing()
    ensures KeyOf([]) == []
  {
  }

  lemma {:induction false} RStripPadded(line: string, blank: string)
    requires forall c :: c in blank ==> IsSpace(c)
    ensures RStrip(line + blank) == RStrip(line)
    decreases |blank|
  {
    if blank == [] {
      assert line + blank == line;
    } else {
      var init := blank[..|blank| - 1];
      assert (line + blank)[..|line + blank| - 1] == line + init;
      assert blank[|blank| - 1] in blank;
      RStripPadded(line, init);
    }
  }

  lemma {:induction false} LStripBlank(blank: string)
    requires forall c :: c in blank ==> IsSpace(c)
    ensures LStrip(blank) == []
  {
    if blank != [] { LStripBlank(blank[1..]); }
  }

  lemma {:induction false} KeyOfTrailing(line: string, blank: string)
    requires forall c :: c in blank ==> IsSpace(c)
    ensures KeyOf(line + blank) == KeyOf(line)
  {
    if line != [] && IsSpace(line[0]) {
      KeyOfTrailing(line[1..], blank);
      assert (line + blank)[1..] == line[1..] + blank;
    } else if line == [] {
      assert line + blank == blank;
      LStripBlank(blank);
    } else {
      assert LStrip(line + blank) == line + blank;
      RStripPadded(line, blank);
    }
  }

  lemma BlankHasNoKeys(blank: string)
    requires forall c :: c in blank ==> IsSpace(c)
    ensures Keys(SplitLines(blank)) == []
  {
    KeysOfPadded(blank, []);
    assert blank + [] == blank;
  }

  lemma {:induction false} KeysOfTrailing(s: string, blank: string)
    requires forall c :: c in blank ==> IsSpace(c)
    ensures Keys(SplitLines(s + blank)) == Keys(SplitLines(s))
    decreases |s|
  {
    var t := s + blank;
    if s == [] {
      assert t == blank;
      BlankHasNoKeys(blank);
    } else if BreakAt(s) < |s| {
      BreakOfPrefix(s, blank);
      assert t[..BreakAt(t)] == s[..BreakAt(s)];
      if AfterBreak(t) == AfterBreak(s) + blank {
        KeysOfTrailing(AfterBreak(s), blank);
      } else {
        assert AfterBreak(s) == [] && AfterBreak(t) == blank[1..];
        BlankHasNoKeys(blank[1..]);
      }
    } else {
      KeysOfLastLine(s, blank);
    }
  }

  lemma BreakOfPrefix(s: string, blank: string)
    requires BreakAt(s) < |s|
    ensures BreakAt(s + blank) == BreakAt(s)
    ensures AfterBreak(s + blank) == AfterBreak(s) + blank
            || (AfterBreak(s) == [] && blank != [] && AfterBreak(s + blank) == blank[1..])
  {
    hide IsBreak;
    var n, t := BreakAt(s), s + blank;
    assert t[n] == s[n];
    assert forall i :: 0 <= i < n ==> t[i] == s[i];
    SameBreak(s, t);
    DropWithin(s, blank, n + 1);
    if n + 2 <= |s| { DropWithin(s, blank, n + 2); }
    hide BreakAt;
    if n + 2 > |s| && |t| > n + 1 { DropsFirst(s, blank); }
  }

  lemma SameBreak(s: string, t: string)
    requires BreakAt(s) < |s| <= |t| && forall i :: 0 <= i <= BreakAt(s) ==> t[i] == s[i]
    ensures BreakAt(t) == BreakAt(s)
  {
  }

  lemma DropsFirst(s: string, blank: string)
    requires blank != []
    ensures (s + blank)[|s| + 1..] == blank[1..] && (s + blank)[|s|] == blank[0]
  {
    DropWithin(s, blank, |s|);
    assert (s + blank)[|s| + 1..] == (s + blank)[|s|..][1..];
  }

  lemma {:induction false} BreakOfConcat(s: string, more: string)
    requires BreakAt(s) == |s|
    ensures BreakAt(s + more) == |s| + BreakAt(more)
  {
    if s == [] {
      assert s + more == more;
    } else {
      assert (s + more)[1..] == s[1..] + more;
      BreakOfConcat(s[1..], more);
    }
  }

  // The last line of s takes up whatever of the white space stays on its line.
  lemma KeysOfLastLine(s: string, blank: string)
    requires s != [] && BreakAt(s) == |s| && forall c :: c in blank ==> IsSpace(c)
    ensures Keys(SplitLines(s + blank)) == Keys(SplitLines(s))
  {
    hide Keys, SplitLines, KeyOf, IsSpace, IsBreak;
    var t, m := s + blank, BreakAt(blank);
    KeysOfFirst(s);
    KeysOfFirst(t);
    assert s[..|s|] == s;
    KeyOfTrailing(s, blank[..m]);
    BreakOfConcat(s, blank);
    assert t[..BreakAt(t)] == s + blank[..m];
    if m < |blank| {
      assert forall c :: c in AfterBreak(t) ==> c in blank;
      BlankHasNoKeys(AfterBreak(t));
    }
  }

  lemma KeysOfStripped(s: string)
    ensures Keys(SplitLines(Strip(s))) == Keys(SplitLines(s))
  {
    var before, after := StripSplits(s);
    KeysOfTrailing(before + Strip(s), after);
    KeysOfPadded(before, Strip(s));
  }

  // At a positive threshold a filtered text is never flagged again.
  lemma FilteringIsFinal(text: string, threshold: real)
    requires threshold > 0.0
    ensures var once := Filtered(text, threshold).0;
            Filtered(once, threshold) == (once, false)
  {
    if Filtered(text, threshold).1 {
      var kept := SplitLines(text)[..GoodLines(SplitLines(text), 0)];
      FlaggedIsCutAtFirstRepeat(text, threshold);
      LinesAreUnbroken(text);
      KeysOfJoined(kept);
      KeysOfStripped(JoinLines(kept));
      DistinctHasRatioZero(Keys(kept), Window);
    }
  }
}

// Strings as the post-processing sees them: white space, stripping, and the
// text that remains when white space is erased.
module Text {
  import opened Basics

  // White space as the source language's strip() understands it.
  predicate IsSpace(c: char) {
    var k := c as int;
    9 <= k <= 13 || 28 <= k <= 32 || k == 0x85 || k == 0xA0 || k == 0x1680 || 0x2000 <= k <= 0x200A
    || k == 0x2028 || k == 0x2029 || k == 0x202F || k == 0x205F || k == 0x3000
  }

  function LStrip(s: string): string {
    if s != [] && IsSpace(s[0]) then LStrip(s[1..]) else s
  }

  function RStrip(s: string): string {
    if s != [] && IsSpace(s[|s| - 1]) then RStrip(s[..|s| - 1]) else s
  }

  function Strip(s: string): string {
    RStrip(LStrip(s))
  }

  // The text without its white space.
  function Erase(s: string): string {
    if s == [] then []
    else if IsSpace(s[0]) then Erase(s[1..])
    else [s[0]] + Erase(s[1..])
  }

  predicate Stripped(s: string) {
    s == [] || (!IsSpace(s[0]) && !IsSpace(s[|s| - 1]))
  }

  lemma {:induction false} EraseAppend(a: string, b: string)
    ensures Erase(a + b) == Erase(a) + Erase(b)
  {
    if a == [] {
      assert a + b == b;
    } else {
      EraseAppend(a[1..], b);
      TailOfConcat(a, b);
    }
  }

  lemma {:induction false} EraseBlank(s: string)
    requires forall c :: c in s ==> IsSpace(c)
    ensures Erase(s) == []
  {
    if s != [] { EraseBlank(s[1..]); }
  }

  lemma {:induction false} LStripSplits(s: string) returns (blank: string)
    ensures s == blank + LStrip(s) && forall c :: c in blank ==> IsSpace(c)
    ensures LStrip(s) != [] ==> !IsSpace(LStrip(s)[0])
  {
    blank := [];
    if s != [] && IsSpace(s[0]) {
      var rest := LStripSplits(s[1..]);
      blank := [s[0]] + rest;
      assert s == [s[0]] + s[1..];
    }
  }

  lemma {:induction false} RStripSplits(s: string) returns (blank: string)
    ensures s == RStrip(s) + blank && forall c :: c in blank ==> IsSpace(c)
    ensures RStrip(s) != [] ==> !IsSpace(RStrip(s)[|RStrip(s)| - 1])
  {
    blank := [];
    if s != [] && IsSpace(s[|s| - 1]) {
      var rest := RStripSplits(s[..|s| - 1]);
      blank := rest + [s[|s| - 1]];
      assert s == s[..|s| - 1] + [s[|s| - 1]];
    }
  }

  lemma StripSplits(s: string) returns (before: string, after: string)
    ensures s == before + Strip(s) + after && Stripped(Strip(s))
    ensures forall c :: c in before + after ==> IsSpace(c)
  {
    before := LStripSplits(s);
    after := RStripSplits(LStrip(s));
    assert s == before + (RStrip(LStrip(s)) + after);
    if Strip(s) != [] { assert LStrip(s)[0] == Strip(s)[0]; }
  }

  lemma StripIsStripped(s: string)
    ensures Stripped(Strip(s))
  {
    var before, after := StripSplits(s);
  }

  lemma EraseLStrip(s: string)
    ensures Erase(LStrip(s)) == Erase(s)
  {
    var blank := LStripSplits(s);
    EraseAppend(blank, LStrip(s));
    EraseBlank(blank);
  }

  lemma EraseStrip(s: string)
    ensures Erase(Strip(s)) == Erase(s)
  {
    var before, after := StripSplits(s);
    EraseAppend(before + Strip(s), after);
    EraseAppend(before, Strip(s));
    EraseBlank(before);
    EraseBlank(after);
  }

  lemma StripOfStripped(s: string)
    requires Stripped(s)
    ensures Strip(s) == s
  {
  }

  // There is more to a text than white space.
  function HasText(): string -> bool { (t: string) => Strip(t) != [] }
}

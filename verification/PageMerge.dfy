// Merging the texts of pages, repairing words hyphenated across a page break.
// What counts as a letter is a parameter.
module PageMerge {
  import opened Basics
  import opened Text
  import Sorting

  function StripEach(): string -> string { (t: string) => Strip(t) }

  // The stripped texts of the pages that have any.
  function Kept(texts: seq<string>): (kept: seq<string>) {
    Sorting.Map(Sorting.Filter(texts, HasText()), StripEach())
  }

  // They are the texts at the places where there is any text, first to last.
  lemma KeptInOrder(texts: seq<string>) returns (at: seq<nat>)
    ensures Sorting.Places(texts, HasText(), at) && |Kept(texts)| == |at|
    ensures forall k :: 0 <= k < |at| ==> Kept(texts)[k] == Strip(texts[at[k]])
    ensures NonBlank(Kept(texts))
  {
    at := Sorting.FilterPlaces(texts, HasText());
    forall k | 0 <= k < |at| ensures Stripped(Kept(texts)[k]) && Kept(texts)[k] != [] {
      StripIsStripped(texts[at[k]]);
    }
  }

  predicate EndsInHyphen(s: string) { s != [] && s[|s| - 1] == '-' }

  predicate StartsWithLetter(s: string, alpha: char -> bool) { s != [] && alpha(s[0]) }

  // One round of the accumulating loop.
  function Append(merged: string, text: string, separator: string, alpha: char -> bool): string {
    if EndsInHyphen(merged) && StartsWithLetter(text, alpha)
    then merged[..|merged| - 1] + text
    else merged + separator + text
  }

  function Accumulated(kept: seq<string>, n: nat, separator: string, alpha: char -> bool): string
    requires 1 <= n <= |kept|
  {
    if n == 1 then kept[0] else Append(Accumulated(kept, n - 1, separator, alpha), kept[n - 1], separator, alpha)
  }

  method MergePages(texts: seq<string>, separator: string, alpha: char -> bool) returns (result: string)
    ensures var kept := Kept(texts);
            result == if kept == [] then "" else Strip(Accumulated(kept, |kept|, separator, alpha))
  {
    hide Kept, Strip;
    var kept := Kept(texts);
    if kept == [] {
      return "";
    }
    var merged := kept[0];
    for i := 1 to |kept|
      invariant merged == Accumulated(kept, i, separator, alpha)
    {
      var text := kept[i];
      if EndsInHyphen(merged) && StartsWithLetter(text, alpha) {
        merged := merged[..|merged| - 1] + text;
      } else {
        merged := merged + separator + text;
      }
    }
    result := Strip(merged);
  }

  // ------------------------------------------------------------ a local view

  // A word is split across the break after page i: a property of two pages.
  predicate SplitWord(kept: seq<string>, i: nat, alpha: char -> bool) {
    && i + 1 < |kept| && kept[i] != [] && kept[i][|kept[i]| - 1] == '-'
    && kept[i + 1] != [] && alpha(kept[i + 1][0])
  }

  // What page i contributes: itself, and either the separator or, where a word
  // is split, the loss of its hyphen.
  function Contribution(kept: seq<string>, i: nat, separator: string, alpha: char -> bool): string
    requires i < |kept|
  {
    if SplitWord(kept, i, alpha) then kept[i][..|kept[i]| - 1]
    else if i + 1 < |kept| then kept[i] + separator
    else kept[i]
  }

  function Contributions(kept: seq<string>, n: nat, separator: string, alpha: char -> bool): string
    requires n <= |kept|
  {
    if n == 0 then [] else Contributions(kept, n - 1, separator, alpha) + Contribution(kept, n - 1, separator, alpha)
  }

  ghost predicate NonBlank(kept: seq<string>) {
    forall i :: 0 <= i < |kept| ==> kept[i] != [] && Stripped(kept[i])
  }

  // The accumulator, which sees only its own last character, does exactly what
  // looking at each pair of neighbouring pages prescribes.
  lemma {:induction false} AccumulatorIsLocal(kept: seq<string>, n: nat, separator: string, alpha: char -> bool)
    requires NonBlank(kept) && 1 <= n <= |kept|
    ensures Accumulated(kept, n, separator, alpha)
            == Contributions(kept, n - 1, separator, alpha) + kept[n - 1]
  {
    hide Stripped, Append, Contribution, Contributions, Accumulated;
    if n > 1 {
      AccumulatorIsLocal(kept, n - 1, separator, alpha);
      NextPage(kept, n, separator, alpha);
      AppendIsLocal(Contributions(kept, n - 2, separator, alpha), kept[n - 2], kept[n - 1], separator, alpha);
    } else {
      FirstPage(kept, separator, alpha);
    }
  }

  lemma FirstPage(kept: seq<string>, separator: string, alpha: char -> bool)
    requires 1 <= |kept|
    ensures Accumulated(kept, 1, separator, alpha) == Contributions(kept, 0, separator, alpha) + kept[0]
  {
    hide Append;
    assert Contributions(kept, 0, separator, alpha) == [];
  }

  // What the accumulator and the contributions do on the next page.
  lemma NextPage(kept: seq<string>, n: nat, separator: string, alpha: char -> bool)
    requires 2 <= n <= |kept|
    ensures Accumulated(kept, n, separator, alpha) == Append(Accumulated(kept, n - 1, separator, alpha), kept[n - 1], separator, alpha)
    ensures Contributions(kept, n - 1, separator, alpha)
            == Contributions(kept, n - 2, separator, alpha)
               + (if EndsInHyphen(kept[n - 2]) && StartsWithLetter(kept[n - 1], alpha)
                  then kept[n - 2][..|kept[n - 2]| - 1] else kept[n - 2] + separator)
  {
    hide Append;
  }

  lemma AppendIsLocal(before: string, last: string, text: string, separator: string, alpha: char -> bool)
    requires last != []
    ensures Append(before + last, text, separator, alpha)
            == before + (if EndsInHyphen(last) && StartsWithLetter(text, alpha)
                         then last[..|last| - 1] else last + separator) + text
  {
    var merged := before + last;
    assert merged[|merged| - 1] == last[|last| - 1];
    TakeBeyond(before, last, |last| - 1);
    Associates(before, last, separator);
  }

  lemma {:induction false} StartsSolid(kept: seq<string>, n: nat, separator: string, alpha: char -> bool)
    requires NonBlank(kept) && 1 <= n <= |kept|
    ensures var s := Accumulated(kept, n, separator, alpha);
            s != [] && !IsSpace(s[0]) && s[|s| - 1] == kept[n - 1][|kept[n - 1]| - 1]
  {
    if n > 1 { StartsSolid(kept, n - 1, separator, alpha); }
  }

  // The merged text is the contributions of the pages, end to end; the final
  // strip never finds anything to remove.
  lemma MergeIsLocal(texts: seq<string>, separator: string, alpha: char -> bool)
    requires Kept(texts) != []
    ensures var kept := Kept(texts);
            Strip(Accumulated(kept, |kept|, separator, alpha)) == Contributions(kept, |kept|, separator, alpha)
  {
    var kept := Kept(texts);
    var at := KeptInOrder(texts);
    AccumulatorIsLocal(kept, |kept|, separator, alpha);
    StartsSolid(kept, |kept|, separator, alpha);
    StripOfStripped(Accumulated(kept, |kept|, separator, alpha));
  }

  // The same with white space erased: every page whole, in order, short of
  // exactly one hyphen at each split word and of nothing else.
  function ErasedPages(kept: seq<string>, n: nat, alpha: char -> bool): string
    requires n <= |kept|
  {
    if n == 0 then []
    else
      var page := Erase(kept[n - 1]);
      ErasedPages(kept, n - 1, alpha)
      + (if SplitWord(kept, n - 1, alpha) && page != [] then page[..|page| - 1] else page)
  }

  lemma EraseHyphen()
    ensures Erase(['-']) == ['-']
  {
    assert ['-'][1..] == [];
    assert Erase([]) == [];
  }

  lemma EraseDropsHyphen(s: string)
    requires EndsInHyphen(s)
    ensures Erase(s) == Erase(s[..|s| - 1]) + ['-']
  {
    hide Erase;
    EraseAppend(s[..|s| - 1], ['-']);
    EraseHyphen();
    SplitLast(s);
  }

  lemma {:induction false} MergeErased(kept: seq<string>, n: nat, separator: string, alpha: char -> bool)
    requires NonBlank(kept) && n <= |kept| && Erase(separator) == []
    ensures Erase(Contributions(kept, n, separator, alpha)) == ErasedPages(kept, n, alpha)
  {
    hide Erase;
    if n > 0 {
      MergeErased(kept, n - 1, separator, alpha);
      var page := kept[n - 1];
      EraseAppend(Contributions(kept, n - 1, separator, alpha), Contribution(kept, n - 1, separator, alpha));
      EraseAppend(page, separator);
      if SplitWord(kept, n - 1, alpha) { EraseDropsHyphen(page); }
    } else {
      EraseBlank([]);
    }
  }
}

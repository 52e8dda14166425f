// The two library operations the layout code leans on: a stable sort by a
// total preorder, and an order-preserving filter.  Both are described by what
// they do to the multiset of elements.
module Sorting {

  ghost predicate TotalPreorder<T(!new)>(le: (T, T) -> bool) {
    && (forall a, b :: le(a, b) || le(b, a))
    && (forall a, b, c :: le(a, b) && le(b, c) ==> le(a, c))
  }

  // Equal keys mean equal elements, as far as the elements of s are concerned.
  ghost predicate DistinctKeys<T(!new)>(s: seq<T>, le: (T, T) -> bool) {
    forall a, b :: a in s && b in s && le(a, b) && le(b, a) ==> a == b
  }

  ghost predicate SortedBy<T(!new)>(s: seq<T>, le: (T, T) -> bool) {
    forall i, j :: 0 <= i < j < |s| ==> le(s[i], s[j])
  }

  // x goes in front of the first element that is not smaller, so an element
  // inserted later lands before its equals: folding from the right is stable.
  function Insert<T>(x: T, s: seq<T>, le: (T, T) -> bool): seq<T> {
    if s == [] || le(x, s[0]) then [x] + s else [s[0]] + Insert(x, s[1..], le)
  }

  function Sort<T>(s: seq<T>, le: (T, T) -> bool): seq<T> {
    if s == [] then [] else Insert(s[0], Sort(s[1..], le), le)
  }

  function Filter<T>(s: seq<T>, keep: T -> bool): seq<T> {
    if s == [] then []
    else if keep(s[0]) then [s[0]] + Filter(s[1..], keep)
    else Filter(s[1..], keep)
  }

  function Map<T, U>(s: seq<T>, f: T -> U): (r: seq<U>)
    ensures |r| == |s|
    ensures forall i :: 0 <= i < |s| ==> r[i] == f(s[i])
  {
    if s == [] then [] else [f(s[0])] + Map(s[1..], f)
  }

  // ------------------------------------------------------------- multisets

  lemma SameCounts<T>(a: multiset<T>, b: multiset<T>)
    requires forall x :: a[x] == b[x]
    ensures a == b
  {
  }

  lemma SplitFirst<T>(s: seq<T>)
    requires s != []
    ensures multiset(s) == multiset{s[0]} + multiset(s[1..])
  {
    assert s == [s[0]] + s[1..];
  }

  lemma SameElements<T>(a: seq<T>, b: seq<T>)
    requires multiset(a) == multiset(b)
    ensures |a| == |b|
    ensures forall x :: x in a <==> x in b
  {
    assert |multiset(a)| == |multiset(b)|;
    forall x ensures x in a <==> x in b {
      assert x in a <==> x in multiset(a);
      assert x in b <==> x in multiset(b);
    }
  }

  lemma {:induction false} InsertIsPermutation<T>(x: T, s: seq<T>, le: (T, T) -> bool)
    ensures multiset(Insert(x, s, le)) == multiset{x} + multiset(s)
  {
    if s != [] && !le(x, s[0]) {
      InsertIsPermutation(x, s[1..], le);
      SplitFirst(s);
    }
  }

  lemma {:induction false} SortIsPermutation<T>(s: seq<T>, le: (T, T) -> bool)
    ensures multiset(Sort(s, le)) == multiset(s)
    ensures |Sort(s, le)| == |s|
  {
    if s != [] {
      SortIsPermutation(s[1..], le);
      InsertIsPermutation(s[0], Sort(s[1..], le), le);
      SplitFirst(s);
    }
    SameElements(Sort(s, le), s);
  }

  lemma {:induction false} InsertKeepsSorted<T(!new)>(x: T, s: seq<T>, le: (T, T) -> bool)
    requires TotalPreorder(le) && SortedBy(s, le)
    ensures SortedBy(Insert(x, s, le), le)
  {
    if s != [] && !le(x, s[0]) {
      InsertKeepsSorted(x, s[1..], le);
      var t := Insert(x, s[1..], le);
      InsertIsPermutation(x, s[1..], le);
      forall j | 0 <= j < |t| ensures le(s[0], t[j]) {
        assert t[j] in multiset(t);
        assert t[j] == x || t[j] in s[1..];
      }
    }
  }

  lemma {:induction false} SortSorts<T(!new)>(s: seq<T>, le: (T, T) -> bool)
    requires TotalPreorder(le)
    ensures SortedBy(Sort(s, le), le)
  {
    if s != [] {
      SortSorts(s[1..], le);
      InsertKeepsSorted(s[0], Sort(s[1..], le), le);
    }
  }

  lemma {:induction false} SortOfSorted<T(!new)>(s: seq<T>, le: (T, T) -> bool)
    requires SortedBy(s, le)
    ensures Sort(s, le) == s
  {
    if s != [] {
      SortOfSorted(s[1..], le);
      if |s| > 1 { assert le(s[0], s[1]); }
    }
  }

  // The elements as large as x.
  function AsLarge<T>(x: T, le: (T, T) -> bool): T -> bool {
    (y: T) => le(x, y) && le(y, x)
  }

  // Inserting keeps the order of those that are equally large.
  lemma {:induction false} InsertIsStable<T(!new)>(x: T, s: seq<T>, le: (T, T) -> bool, k: T)
    requires TotalPreorder(le)
    ensures Filter(Insert(x, s, le), AsLarge(k, le)) == Filter([x] + s, AsLarge(k, le))
  {
    if s != [] && !le(x, s[0]) {
      InsertIsStable(x, s[1..], le, k);
      assert ([x] + s)[1..] == s && ([x] + s[1..])[1..] == s[1..];
      assert !(AsLarge(k, le)(x) && AsLarge(k, le)(s[0]));
    }
  }

  lemma {:induction false} SortIsStable<T(!new)>(s: seq<T>, le: (T, T) -> bool, k: T)
    requires TotalPreorder(le)
    ensures Filter(Sort(s, le), AsLarge(k, le)) == Filter(s, AsLarge(k, le))
  {
    if s != [] {
      SortIsStable(s[1..], le, k);
      InsertIsStable(s[0], Sort(s[1..], le), le, k);
      var t := Sort(s[1..], le);
      assert ([s[0]] + t)[1..] == t;
    }
  }

  // A sorted arrangement that keeps the order of equally large elements is unique.
  lemma {:induction false} StableIsUnique<T(!new)>(a: seq<T>, b: seq<T>, le: (T, T) -> bool)
    requires TotalPreorder(le) && SortedBy(a, le) && SortedBy(b, le) && multiset(a) == multiset(b)
    requires forall k :: Filter(a, AsLarge(k, le)) == Filter(b, AsLarge(k, le))
    ensures a == b
  {
    SameElements(a, b);
    if a != [] {
      StableFirst(a, b, le);
      SameRest(a, b);
      SortedRestOnly(a, le);
      SortedRestOnly(b, le);
      forall k ensures Filter(a[1..], AsLarge(k, le)) == Filter(b[1..], AsLarge(k, le)) {
        assert Filter(a, AsLarge(k, le)) == Filter(b, AsLarge(k, le));
        FilterRest(a, b, AsLarge(k, le));
      }
      hide SortedBy, TotalPreorder, Filter, AsLarge;
      StableIsUnique(a[1..], b[1..], le);
      FirstAndRest(a, b);
    }
  }

  lemma FilterRest<T>(a: seq<T>, b: seq<T>, keep: T -> bool)
    requires a != [] && b != [] && a[0] == b[0] && Filter(a, keep) == Filter(b, keep)
    ensures Filter(a[1..], keep) == Filter(b[1..], keep)
  {
    if keep(a[0]) { assert Filter(a, keep)[1..] == Filter(a[1..], keep) && Filter(b, keep)[1..] == Filter(b[1..], keep); }
  }

  lemma StableFirst<T(!new)>(a: seq<T>, b: seq<T>, le: (T, T) -> bool)
    requires TotalPreorder(le) && SortedBy(a, le) && SortedBy(b, le)
    requires a != [] && b != [] && forall x :: x in a <==> x in b
    requires Filter(a, AsLarge(a[0], le)) == Filter(b, AsLarge(a[0], le))
    ensures a[0] == b[0]
  {
    assert a[0] in b && b[0] in a;
    assert le(a[0], a[0]) && le(b[0], b[0]);
    assert AsLarge(a[0], le)(a[0]) && AsLarge(a[0], le)(b[0]);
    assert Filter(a, AsLarge(a[0], le))[0] == a[0] && Filter(b, AsLarge(a[0], le))[0] == b[0];
  }

  lemma {:induction false} FilterSame<T>(s: seq<T>, p: T -> bool, q: T -> bool)
    requires forall x :: x in s ==> (p(x) <==> q(x))
    ensures Filter(s, p) == Filter(s, q)
  {
    if s != [] { FilterSame(s[1..], p, q); }
  }

  // A sorted arrangement of a multiset whose keys are distinct is unique.
  lemma SameFirst<T(!new)>(a: seq<T>, b: seq<T>, le: (T, T) -> bool)
    requires TotalPreorder(le) && SortedBy(a, le) && SortedBy(b, le) && DistinctKeys(a, le)
    requires a != [] && b != [] && a[0] in b && b[0] in a && forall x :: x in b ==> x in a
    ensures a[0] == b[0]
  {
    assert le(a[0], a[0]) && le(b[0], b[0]);
  }

  // Without equal first elements the same elements are left.
  lemma SameRest<T>(a: seq<T>, b: seq<T>)
    requires a != [] && b != [] && a[0] == b[0] && multiset(a) == multiset(b)
    ensures multiset(a[1..]) == multiset(b[1..])
  {
    SplitFirst(a);
    SplitFirst(b);
    assert multiset(a[1..]) == multiset(a) - multiset{a[0]};
    assert multiset(b[1..]) == multiset(b) - multiset{b[0]};
  }

  lemma FirstAndRest<T>(a: seq<T>, b: seq<T>)
    requires a != [] && b != [] && a[0] == b[0] && a[1..] == b[1..]
    ensures a == b
  {
    assert a == [a[0]] + a[1..] && b == [b[0]] + b[1..];
  }

  lemma SortedRest<T(!new)>(a: seq<T>, le: (T, T) -> bool)
    requires a != [] && SortedBy(a, le) && DistinctKeys(a, le)
    ensures SortedBy(a[1..], le) && DistinctKeys(a[1..], le)
  {
  }

  lemma SortedRestOnly<T(!new)>(a: seq<T>, le: (T, T) -> bool)
    requires a != [] && SortedBy(a, le)
    ensures SortedBy(a[1..], le)
  {
  }

  lemma {:induction false} SortedIsUnique<T(!new)>(a: seq<T>, b: seq<T>, le: (T, T) -> bool)
    requires TotalPreorder(le)
    requires SortedBy(a, le) && SortedBy(b, le)
    requires multiset(a) == multiset(b) && DistinctKeys(a, le)
    ensures a == b
  {
    SameElements(a, b);
    if a != [] {
      SameFirst(a, b, le);
      SameRest(a, b);
      SortedRest(a, le);
      SortedRestOnly(b, le);
      hide SortedBy, DistinctKeys, TotalPreorder;
      SortedIsUnique(a[1..], b[1..], le);
      FirstAndRest(a, b);
    }
  }

  lemma SortOfPermutation<T(!new)>(a: seq<T>, b: seq<T>, le: (T, T) -> bool)
    requires TotalPreorder(le)
    requires multiset(a) == multiset(b) && DistinctKeys(a, le)
    ensures Sort(a, le) == Sort(b, le)
  {
    SortIsPermutation(a, le);
    SortIsPermutation(b, le);
    SortSorts(a, le);
    SortSorts(b, le);
    SameElements(a, Sort(a, le));
    SortedIsUnique(Sort(a, le), Sort(b, le), le);
  }

  lemma {:induction false} FilterCount<T>(s: seq<T>, keep: T -> bool, x: T)
    ensures multiset(Filter(s, keep))[x] == if keep(x) then multiset(s)[x] else 0
  {
    if s != [] {
      FilterCount(s[1..], keep, x);
      SplitFirst(s);
    }
  }

  lemma FilterMembers<T>(s: seq<T>, keep: T -> bool)
    ensures forall x :: x in Filter(s, keep) <==> x in s && keep(x)
    ensures |Filter(s, keep)| <= |s|
  {
    forall x ensures x in Filter(s, keep) <==> x in s && keep(x) {
      FilterCount(s, keep, x);
      assert x in Filter(s, keep) <==> multiset(Filter(s, keep))[x] > 0;
      assert x in s <==> multiset(s)[x] > 0;
    }
  }

  lemma FilterOfPermutation<T>(a: seq<T>, b: seq<T>, keep: T -> bool)
    requires multiset(a) == multiset(b)
    ensures multiset(Filter(a, keep)) == multiset(Filter(b, keep))
  {
    var fa, fb := multiset(Filter(a, keep)), multiset(Filter(b, keep));
    forall x ensures fa[x] == fb[x] {
      FilterCount(a, keep, x);
      FilterCount(b, keep, x);
    }
    SameCounts(fa, fb);
  }

  lemma {:induction false} FilterAppend<T>(a: seq<T>, b: seq<T>, keep: T -> bool)
    ensures Filter(a + b, keep) == Filter(a, keep) + Filter(b, keep)
  {
    if a == [] {
      assert a + b == b;
    } else {
      FilterAppend(a[1..], b, keep);
      assert (a + b)[1..] == a[1..] + b;
    }
  }

  lemma MapAppend<T, U>(a: seq<T>, b: seq<T>, f: T -> U)
    ensures Map(a + b, f) == Map(a, f) + Map(b, f)
  {
    hide Map;
    var whole, parts := Map(a + b, f), Map(a, f) + Map(b, f);
    forall k | 0 <= k < |whole| ensures whole[k] == parts[k] {
      assert (a + b)[k] == if k < |a| then a[k] else b[k - |a|];
    }
  }

  // Filtering and mapping one element more.
  lemma FilterMapSnoc<T, U>(s: seq<T>, n: nat, keep: T -> bool, f: T -> U)
    requires 0 < n <= |s|
    ensures Map(Filter(s[..n], keep), f)
            == Map(Filter(s[..n - 1], keep), f) + Map(Filter([s[n - 1]], keep), f)
  {
    hide Filter, Map;
    assert s[..n] == s[..n - 1] + [s[n - 1]];
    FilterAppend(s[..n - 1], [s[n - 1]], keep);
    MapAppend(Filter(s[..n - 1], keep), Filter([s[n - 1]], keep), f);
  }

  lemma {:induction false} FilterAll<T>(s: seq<T>, keep: T -> bool)
    requires forall x :: x in s ==> keep(x)
    ensures Filter(s, keep) == s
  {
    if s != [] { FilterAll(s[1..], keep); }
  }

  lemma {:induction false} FilterNone<T>(s: seq<T>, keep: T -> bool)
    requires forall x :: x in s ==> !keep(x)
    ensures Filter(s, keep) == []
  {
    if s != [] { FilterNone(s[1..], keep); }
  }

  // The places of the elements to keep, first to last.
  ghost predicate Places<T>(s: seq<T>, keep: T -> bool, at: seq<nat>) {
    && (forall k, l :: 0 <= k < l < |at| ==> at[k] < at[l])
    && (forall k :: 0 <= k < |at| ==> at[k] < |s| && keep(s[at[k]]))
    && (forall i :: 0 <= i < |s| && keep(s[i]) ==> i in at)
  }

  function Shift(at: seq<nat>): (r: seq<nat>)
    ensures |r| == |at| && forall k :: 0 <= k < |at| ==> r[k] == at[k] + 1
  {
    seq(|at|, k requires 0 <= k < |at| => at[k] + 1)
  }

  lemma ShiftedMembers(at: seq<nat>)
    ensures forall i :: i in Shift(at) <==> i > 0 && i - 1 in at
  {
    forall i | i > 0 && i - 1 in at ensures i in Shift(at) {
      var k :| 0 <= k < |at| && at[k] == i - 1;
      assert Shift(at)[k] == i;
    }
  }

  lemma PlacesSkip<T>(s: seq<T>, keep: T -> bool, rest: seq<nat>)
    requires s != [] && !keep(s[0]) && Places(s[1..], keep, rest)
    ensures Places(s, keep, Shift(rest))
  {
    ShiftedMembers(rest);
    hide Shift;
    forall i | 0 <= i < |s| && keep(s[i]) ensures i in Shift(rest) { assert s[1..][i - 1] == s[i]; }
  }

  lemma PlacesTake<T>(s: seq<T>, keep: T -> bool, rest: seq<nat>)
    requires s != [] && keep(s[0]) && Places(s[1..], keep, rest)
    ensures Places(s, keep, [0] + Shift(rest))
  {
    ShiftedMembers(rest);
    hide Shift;
    var at := [0] + Shift(rest);
    forall i | 0 <= i < |s| && keep(s[i]) ensures i in at {
      if i > 0 {
        assert s[1..][i - 1] == s[i];
        assert i in Shift(rest);
      }
    }
    forall k | 0 <= k < |at| ensures at[k] < |s| && keep(s[at[k]]) {
      if k > 0 { assert s[1..][rest[k - 1]] == s[at[k]]; }
    }
  }

  ghost predicate ReadAt<T>(r: seq<T>, s: seq<T>, at: seq<nat>) {
    |r| == |at| && forall k :: 0 <= k < |at| ==> at[k] < |s| && r[k] == s[at[k]]
  }

  lemma ReadShifted<T>(r: seq<T>, s: seq<T>, rest: seq<nat>)
    requires s != [] && ReadAt(r, s[1..], rest)
    ensures ReadAt(r, s, Shift(rest))
    ensures ReadAt([s[0]] + r, s, [0] + Shift(rest))
  {
    forall k | 0 <= k < |rest| ensures r[k] == s[Shift(rest)[k]] { assert r[k] == s[1..][rest[k]]; }
  }

  // Filtering keeps exactly those elements, in their order.
  lemma {:induction false} FilterPlaces<T>(s: seq<T>, keep: T -> bool) returns (at: seq<nat>)
    ensures Places(s, keep, at) && |Filter(s, keep)| == |at|
    ensures forall k :: 0 <= k < |at| ==> Filter(s, keep)[k] == s[at[k]]
  {
    if s == [] {
      at := [];
    } else {
      var rest := FilterPlaces(s[1..], keep);
      ReadShifted(Filter(s[1..], keep), s, rest);
      if keep(s[0]) { PlacesTake(s, keep, rest); } else { PlacesSkip(s, keep, rest); }
      hide Places, Shift;
      at := if keep(s[0]) then [0] + Shift(rest) else Shift(rest);
      assert ReadAt(Filter(s, keep), s, at);
    }
  }

  // Two complementary filters split the elements without loss.
  lemma FilterPartition<T>(s: seq<T>, p: T -> bool, q: T -> bool)
    requires forall x :: x in s ==> (p(x) <==> !q(x))
    ensures multiset(Filter(s, p)) + multiset(Filter(s, q)) == multiset(s)
  {
    var parts, whole := multiset(Filter(s, p)) + multiset(Filter(s, q)), multiset(s);
    forall x ensures parts[x] == whole[x] {
      FilterCount(s, p, x);
      FilterCount(s, q, x);
      assert x in s <==> whole[x] > 0;
    }
    SameCounts(parts, whole);
  }

  lemma {:induction false} MapCount<T, U>(s: seq<T>, f: T -> U, y: U, hits: T -> bool)
    requires forall x :: hits(x) <==> f(x) == y
    ensures multiset(Map(s, f))[y] == |Filter(s, hits)|
  {
    if s != [] {
      MapCount(s[1..], f, y, hits);
      SplitFirst(Map(s, f));
      assert Map(s, f)[1..] == Map(s[1..], f);
    }
  }

  lemma MapOfPermutation<T(!new), U>(a: seq<T>, b: seq<T>, f: T -> U)
    requires multiset(a) == multiset(b)
    ensures multiset(Map(a, f)) == multiset(Map(b, f))
  {
    var ma, mb := multiset(Map(a, f)), multiset(Map(b, f));
    forall y ensures ma[y] == mb[y] {
      ghost var hits: T -> bool := x => f(x) == y;
      MapCount(a, f, y, hits);
      MapCount(b, f, y, hits);
      FilterOfPermutation(a, b, hits);
      SameElements(Filter(a, hits), Filter(b, hits));
    }
    SameCounts(ma, mb);
  }
}

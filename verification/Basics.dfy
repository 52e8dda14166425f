// Notions every part of the model uses.
module Basics {

  datatype Option<+T> = None | Some(value: T)

  function Min(a: int, b: int): int { if a <= b then a else b }

  function Max(a: int, b: int): int { if a >= b then a else b }

  function MinR(a: real, b: real): real { if a <= b then a else b }

  function MaxR(a: real, b: real): real { if a >= b then a else b }

  function Floor(x: real): int { x.Floor }

  function Ceil(x: real): int { -(-x).Floor }

  // ------------------------------------------------------------ sequences

  lemma TailOfConcat<T>(a: seq<T>, b: seq<T>)
    requires a != []
    ensures (a + b)[0] == a[0] && (a + b)[1..] == a[1..] + b
  {
  }

  lemma SplitLast<T>(s: seq<T>)
    requires s != []
    ensures s == s[..|s| - 1] + [s[|s| - 1]]
  {
  }

  lemma HalvesJoin<T>(s: seq<T>, i: nat)
    requires i <= |s|
    ensures s == s[..i] + s[i..]
  {
  }

  lemma SlicesJoin<T>(s: seq<T>, i: nat, j: nat, k: nat)
    requires i <= j <= k <= |s|
    ensures s[i..j] + s[j..k] == s[i..k]
  {
  }

  lemma SliceOfSlice<T>(s: seq<T>, lo: nat, hi: nat, i: nat, j: nat)
    requires lo <= hi <= |s| && i <= j <= hi - lo
    ensures s[lo..hi][i..j] == s[lo + i..lo + j]
  {
    var a, b := s[lo..hi][i..j], s[lo + i..lo + j];
    forall k | 0 <= k < |a| ensures a[k] == b[k] {
      assert a[k] == s[lo..hi][i + k] == s[lo + (i + k)];
    }
  }

  lemma DropWithin<T>(a: seq<T>, b: seq<T>, i: nat)
    requires i <= |a|
    ensures (a + b)[i..] == a[i..] + b
  {
    var c, d := (a + b)[i..], a[i..] + b;
    forall k | 0 <= k < |c| ensures c[k] == d[k] {
      assert c[k] == (a + b)[i + k];
    }
  }

  lemma TakeBeyond<T>(a: seq<T>, b: seq<T>, i: nat)
    requires i <= |b|
    ensures (a + b)[..|a| + i] == a + b[..i]
  {
    var c, d := (a + b)[..|a| + i], a + b[..i];
    forall k | 0 <= k < |c| ensures c[k] == d[k] {
      assert c[k] == (a + b)[k];
    }
  }

  lemma Associates<T>(a: seq<T>, b: seq<T>, c: seq<T>)
    ensures (a + b) + c == a + (b + c)
  {
  }

  // There is a place that holds on, with none of off behind it.
  ghost predicate Since<T>(steps: seq<T>, on: T, off: set<T>) {
    exists i :: 0 <= i < |steps| && steps[i] == on && forall k :: i < k < |steps| ==> steps[k] !in off
  }

  ghost predicate Avoids<T>(steps: seq<T>, off: set<T>) {
    forall k :: 0 <= k < |steps| ==> steps[k] !in off
  }

  lemma SinceNext<T>(step: T, rest: seq<T>, on: T, off: set<T>)
    ensures Since([step] + rest, on, off) <==> Since(rest, on, off) || (step == on && Avoids(rest, off))
  {
    var all := [step] + rest;
    assert all[0] == step && forall i :: 0 <= i < |rest| ==> all[i + 1] == rest[i];
    if Since(rest, on, off) {
      var i :| 0 <= i < |rest| && rest[i] == on && forall k :: i < k < |rest| ==> rest[k] !in off;
      forall k | i + 1 < k < |all| ensures all[k] !in off { assert all[k] == rest[k - 1]; }
      assert all[i + 1] == on;
    }
    if Since(all, on, off) {
      var i :| 0 <= i < |all| && all[i] == on && forall k :: i < k < |all| ==> all[k] !in off;
      forall k | i <= k < |rest| ensures rest[k] !in off { assert all[k + 1] == rest[k]; }
      if i > 0 { assert rest[i - 1] == on; }
    }
    if step == on && Avoids(rest, off) {
      forall k | 0 < k < |all| ensures all[k] !in off { assert all[k] == rest[k - 1]; }
      assert all[0] == on;
    }
  }
}

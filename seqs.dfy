/**
 * Sequence operations behind the source's array idioms: `[...new Set(xs)]`,
 * `new Map(xs.map((x, i) => [x, i]))` and `Array.prototype.sort` with a
 * numeric key.
 */
module Seqs {
  import opened Wrappers

  predicate NoDups<T(==)>(s: seq<T>) {
    forall i, j :: 0 <= i < j < |s| ==> s[i] != s[j]
  }

  /** The index a `Map` built from `xs.map((x, i) => [x, i])` keeps for `x`:
      later entries overwrite earlier ones, so it is the last occurrence. */
  function LastIndexOf<T(==)>(s: seq<T>, x: T): (k: nat)
    requires x in s
    ensures k < |s| && s[k] == x
    ensures forall j :: k < j < |s| ==> s[j] != x
  {
    if s[|s| - 1] == x then |s| - 1 else LastIndexOf(s[..|s| - 1], x)
  }

  /** `[...new Set(s)]`: each element once, in order of first occurrence. */
  function Dedupe<T(==)>(s: seq<T>): (r: seq<T>)
    ensures NoDups(r)
    ensures forall i :: 0 <= i < |r| ==> r[i] in s
    ensures forall i :: 0 <= i < |s| ==> s[i] in r
    ensures |r| <= |s|
  {
    if s == [] then []
    else
      var r := Dedupe(s[..|s| - 1]);
      if s[|s| - 1] in r then r else r + [s[|s| - 1]]
  }

  /** A sequence without repeats is already deduplicated. */
  lemma {:induction false} DedupeNoDups<T>(s: seq<T>)
    requires NoDups(s)
    ensures Dedupe(s) == s
  {
    if s != [] {
      DedupeNoDups(s[..|s| - 1]);
    }
  }

  /** Deduplication keeps the order of first occurrences: an element that first
      appears earlier in `s` comes earlier in the result. */
  lemma {:induction false} DedupeKeepsFirstOrder<T>(s: seq<T>, i: nat, j: nat)
    requires i < j < |s|
    requires s[i] !in s[..i] && s[j] !in s[..j]
    ensures exists a, b :: 0 <= a < b < |Dedupe(s)| && Dedupe(s)[a] == s[i] && Dedupe(s)[b] == s[j]
  {
    var init := s[..|s| - 1];
    if j < |s| - 1 {
      assert init[..i] == s[..i] && init[..j] == s[..j];
      DedupeKeepsFirstOrder(init, i, j);
      var a, b :| 0 <= a < b < |Dedupe(init)| && Dedupe(init)[a] == s[i] && Dedupe(init)[b] == s[j];
      assert Dedupe(s)[a] == s[i] && Dedupe(s)[b] == s[j];
    } else {
      assert s[j] !in init by { assert init == s[..j]; }
      var r := Dedupe(init);
      assert s[i] in init;
      var a :| 0 <= a < |r| && r[a] == s[i];
      assert Dedupe(s) == r + [s[j]];
      assert Dedupe(s)[a] == s[i] && Dedupe(s)[|r|] == s[j];
    }
  }

  predicate SortedBy<T>(s: seq<T>, key: T -> int) {
    forall i, j :: 0 <= i < j < |s| ==> key(s[i]) <= key(s[j])
  }

  /** Places `x` after every element whose key is at most `key(x)`. */
  function InsertBy<T>(x: T, s: seq<T>, key: T -> int): (r: seq<T>)
    requires SortedBy(s, key)
    ensures SortedBy(r, key)
    ensures multiset(r) == multiset(s) + multiset{x}
    ensures forall i :: 0 <= i < |r| ==> r[i] == x || r[i] in s
  {
    if s == [] || key(s[|s| - 1]) <= key(x) then s + [x]
    else
      var init, last := s[..|s| - 1], s[|s| - 1];
      var r := InsertBy(x, init, key);
      assert s == init + [last];
      AppendLargest(r, x, init, last, key);
      r + [last]
  }

  /** Appending an element whose key bounds every other keeps the order. */
  lemma AppendLargest<T>(r: seq<T>, x: T, init: seq<T>, last: T, key: T -> int)
    requires SortedBy(init + [last], key) && SortedBy(r, key) && key(x) <= key(last)
    requires forall i :: 0 <= i < |r| ==> r[i] == x || r[i] in init
    ensures SortedBy(r + [last], key)
  {
    var s := init + [last];
    forall i | 0 <= i < |r| ensures key(r[i]) <= key(last) {
      if r[i] != x {
        var k :| 0 <= k < |init| && init[k] == r[i];
        assert s[k] == r[i] && s[|init|] == last;
      }
    }
  }

  /** `[...s].sort((a, b) => key(a) - key(b))`, an insertion sort that keeps
      equal keys in their original order. */
  function SortBy<T>(s: seq<T>, key: T -> int): (r: seq<T>)
    ensures SortedBy(r, key)
    ensures multiset(r) == multiset(s)
  {
    if s == [] then []
    else
      assert s == s[..|s| - 1] + [s[|s| - 1]];
      InsertBy(s[|s| - 1], SortBy(s[..|s| - 1], key), key)
  }

  /** `s.filter(p)`: the elements satisfying `p`, in order. */
  function Filter<T(==)>(s: seq<T>, p: T -> bool): (r: seq<T>)
    ensures |r| <= |s|
    ensures forall i :: 0 <= i < |r| ==> p(r[i]) && r[i] in s
    ensures forall i :: 0 <= i < |s| && p(s[i]) ==> s[i] in r
  {
    if s == [] then [] else (if p(s[0]) then [s[0]] else []) + Filter(s[1..], p)
  }

  /** Filtering distributes over concatenation. */
  lemma {:induction false} FilterAppend<T>(a: seq<T>, b: seq<T>, p: T -> bool)
    ensures Filter(a + b, p) == Filter(a, p) + Filter(b, p)
  {
    if a != [] {
      assert (a + b)[1..] == a[1..] + b;
      FilterAppend(a[1..], b, p);
    } else {
      assert a + b == b;
    }
  }

  /** A filter that keeps nothing gives the empty sequence. */
  lemma FilterNone<T>(s: seq<T>, p: T -> bool)
    requires forall i :: 0 <= i < |s| ==> !p(s[i])
    ensures Filter(s, p) == []
  {
  }

  /** A database `.single()`: the matching row when exactly one row matches,
      nothing when none or several do. */
  function Single<T(==)>(rows: seq<T>, p: T -> bool): (r: Option<T>)
    ensures r.Some? <==> |Filter(rows, p)| == 1
    ensures r.Some? ==> r.value in rows && p(r.value)
  {
    var m := Filter(rows, p);
    if |m| == 1 then Some(m[0]) else None
  }
}

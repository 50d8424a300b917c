/** Sequence helpers that stand in for the JavaScript array idioms the shop
    uses: `filter`, `[...new Set(xs)]`, and counting occurrences. */
module Lists {

  /** `s.filter(keep)`: the elements that pass `keep`, in their original order. */
  function Filter<T>(s: seq<T>, keep: T -> bool): (r: seq<T>)
    ensures |r| <= |s|
    ensures forall i :: 0 <= i < |r| ==> r[i] in s && keep(r[i])
    ensures forall i :: 0 <= i < |s| && keep(s[i]) ==> s[i] in r
  {
    if |s| == 0 then [] else (if keep(s[0]) then [s[0]] else []) + Filter(s[1..], keep)
  }

  /** Filtering distributes over concatenation, which is what "order is kept"
      means: whatever survives from `a` still precedes whatever survives from `b`. */
  lemma {:induction false} FilterConcat<T>(a: seq<T>, b: seq<T>, keep: T -> bool)
    ensures Filter(a + b, keep) == Filter(a, keep) + Filter(b, keep)
  {
    if |a| == 0 {
      assert a + b == b;
    } else {
      assert (a + b)[0] == a[0];
      assert (a + b)[1..] == a[1..] + b;
      FilterConcat(a[1..], b, keep);
    }
  }

  /** A filter that rejects nothing returns its input unchanged. */
  lemma {:induction false} FilterKeepsAll<T>(s: seq<T>, keep: T -> bool)
    requires forall i :: 0 <= i < |s| ==> keep(s[i])
    ensures Filter(s, keep) == s
  {
    if |s| > 0 {
      FilterKeepsAll(s[1..], keep);
    }
  }

  /** Filtering twice by the same test is filtering once. */
  lemma FilterIdempotent<T>(s: seq<T>, keep: T -> bool)
    ensures Filter(Filter(s, keep), keep) == Filter(s, keep)
  {
    var r := Filter(s, keep);
    FilterKeepsAll(r, keep);
  }

  /** The number of occurrences of `x` in `s`. */
  function CountOf<T(==)>(s: seq<T>, x: T): (n: nat)
    ensures n <= |s|
    ensures n > 0 <==> x in s
  {
    if |s| == 0 then 0
    else CountOf(s[..|s| - 1], x) + (if s[|s| - 1] == x then 1 else 0)
  }

  /** No element occurs twice. */
  predicate Distinct<T(==)>(s: seq<T>) {
    forall i, j :: 0 <= i < j < |s| ==> s[i] != s[j]
  }

  /** The position of the first occurrence of `x` in `s`. */
  function FirstIndex<T(==)>(s: seq<T>, x: T): (k: nat)
    requires x in s
    ensures k < |s| && s[k] == x && x !in s[..k]
  {
    if s[0] == x then 0 else 1 + FirstIndex(s[1..], x)
  }

  /** Appending an element moves no first occurrence of what was already there. */
  lemma {:induction false} FirstIndexAppend<T>(p: seq<T>, x: T, y: T)
    requires y in p
    ensures FirstIndex(p + [x], y) == FirstIndex(p, y)
  {
    if p[0] != y {
      assert (p + [x])[1..] == p[1..] + [x];
      FirstIndexAppend(p[1..], x, y);
    }
  }

  /** `[...new Set(s)]`: every distinct element of `s` once, in the order of its
      first occurrence (JavaScript sets iterate in insertion order). */
  function Dedup<T(==)>(s: seq<T>): (r: seq<T>)
    ensures Distinct(r)
    ensures forall i :: 0 <= i < |r| ==> r[i] in s
    ensures forall i :: 0 <= i < |s| ==> s[i] in r
    ensures forall i, j :: 0 <= i < j < |r| ==> FirstIndex(s, r[i]) < FirstIndex(s, r[j])
  {
    if |s| == 0 then []
    else
      var p, x := s[..|s| - 1], s[|s| - 1];
      assert s == p + [x];
      var d := Dedup(p);
      DedupAppend(p, x, d);
      if x in d then d else d + [x]
  }

  /** `r` lists the distinct elements of `s` once each, by first occurrence. */
  predicate IsDedupOf<T(==)>(r: seq<T>, s: seq<T>) {
    && Distinct(r)
    && (forall i :: 0 <= i < |r| ==> r[i] in s)
    && (forall i :: 0 <= i < |s| ==> s[i] in r)
    && (forall i, j :: 0 <= i < j < |r| ==> FirstIndex(s, r[i]) < FirstIndex(s, r[j]))
  }

  /** Helper for `Dedup`: one more element keeps the deduplication, whether it
      is new or was already listed. */
  lemma DedupAppend<T>(p: seq<T>, x: T, d: seq<T>)
    requires IsDedupOf(d, p)
    ensures IsDedupOf(if x in d then d else d + [x], p + [x])
  {
    FirstIndexesKept(p, x, d);
    if x in d {
      DedupAppendSeen(p, x, d);
    } else {
      DedupAppendNew(p, x, d);
    }
  }

  lemma DedupAppendSeen<T>(p: seq<T>, x: T, d: seq<T>)
    requires IsDedupOf(d, p) && x in d
    requires forall i :: 0 <= i < |d| ==> FirstIndex(p + [x], d[i]) == FirstIndex(p, d[i])
    ensures IsDedupOf(d, p + [x])
  {
    var s := p + [x];
    forall i | 0 <= i < |s|
      ensures s[i] in d
    {
      if i < |p| {
        assert s[i] == p[i];
      }
    }
  }

  lemma DedupAppendNew<T>(p: seq<T>, x: T, d: seq<T>)
    requires IsDedupOf(d, p) && x !in d
    requires forall i :: 0 <= i < |d| ==> FirstIndex(p + [x], d[i]) == FirstIndex(p, d[i])
    requires x !in p ==> forall i :: 0 <= i < |d| ==> FirstIndex(p + [x], d[i]) < FirstIndex(p + [x], x)
    ensures IsDedupOf(d + [x], p + [x])
  {
    assert x !in p;
    DistinctAppend(d, x);
    CoversAppend(p, x, d);
    DedupAppendNewOrder(p, x, d);
  }

  lemma DistinctAppend<T>(d: seq<T>, x: T)
    requires Distinct(d) && x !in d
    ensures Distinct(d + [x])
  {
  }

  lemma CoversAppend<T>(p: seq<T>, x: T, d: seq<T>)
    requires forall i :: 0 <= i < |p| ==> p[i] in d
    ensures forall i :: 0 <= i < |p + [x]| ==> (p + [x])[i] in d + [x]
  {
    var s := p + [x];
    forall i | 0 <= i < |s|
      ensures s[i] in d + [x]
    {
      if i < |p| {
        assert s[i] == p[i];
      }
    }
  }

  lemma DedupAppendNewOrder<T>(p: seq<T>, x: T, d: seq<T>)
    requires forall i :: 0 <= i < |d| ==> d[i] in p
    requires forall i, j :: 0 <= i < j < |d| ==> FirstIndex(p, d[i]) < FirstIndex(p, d[j])
    requires forall i :: 0 <= i < |d| ==> FirstIndex(p + [x], d[i]) == FirstIndex(p, d[i])
    requires forall i :: 0 <= i < |d| ==> FirstIndex(p + [x], d[i]) < FirstIndex(p + [x], x)
    ensures forall i, j :: 0 <= i < j < |d + [x]| ==>
      FirstIndex(p + [x], (d + [x])[i]) < FirstIndex(p + [x], (d + [x])[j])
  {
    var s, r := p + [x], d + [x];
    forall i, j | 0 <= i < j < |r|
      ensures FirstIndex(s, r[i]) < FirstIndex(s, r[j])
    {
      assert r[i] == d[i];
      if j < |d| {
        assert r[j] == d[j];
      }
    }
  }

  /** Helper for `Dedup`: first occurrences in the prefix survive appending. */
  lemma FirstIndexesKept<T>(p: seq<T>, x: T, d: seq<T>)
    requires forall i :: 0 <= i < |d| ==> d[i] in p
    ensures forall i :: 0 <= i < |d| ==> FirstIndex(p + [x], d[i]) == FirstIndex(p, d[i])
    ensures x !in p ==> forall i :: 0 <= i < |d| ==> FirstIndex(p + [x], d[i]) < FirstIndex(p + [x], x)
  {
    forall i | 0 <= i < |d|
      ensures FirstIndex(p + [x], d[i]) == FirstIndex(p, d[i])
    {
      FirstIndexAppend(p, x, d[i]);
    }
    if x !in p {
      assert (p + [x])[..|p|] == p;
      assert FirstIndex(p + [x], x) == |p|;
    }
  }

  /** Sum over the elements `c` of `d` of the number of occurrences of `c` in `s`. */
  function SumCounts<T(==)>(d: seq<T>, s: seq<T>): nat
  {
    if |d| == 0 then 0 else CountOf(s, d[0]) + SumCounts(d[1..], s)
  }

  lemma {:induction false} SumCountsAppendItem<T>(d: seq<T>, p: seq<T>, x: T)
    requires Distinct(d)
    ensures SumCounts(d, p + [x]) == SumCounts(d, p) + (if x in d then 1 else 0)
  {
    if |d| > 0 {
      assert (p + [x])[..|p + [x]| - 1] == p;
      SumCountsAppendItem(d[1..], p, x);
      assert x in d <==> x == d[0] || x in d[1..];
      assert x == d[0] ==> x !in d[1..];
    }
  }

  lemma {:induction false} SumCountsAppendKey<T>(d: seq<T>, y: T, s: seq<T>)
    ensures SumCounts(d + [y], s) == SumCounts(d, s) + CountOf(s, y)
  {
    if |d| == 0 {
      assert SumCounts([y], s) == CountOf(s, y) + SumCounts([y][1..], s);
    } else {
      assert (d + [y])[1..] == d[1..] + [y];
      SumCountsAppendKey(d[1..], y, s);
    }
  }

  /** Counting every distinct element of `s` accounts for each position of `s`
      exactly once. */
  lemma {:induction false} SumCountsOfDedup<T>(s: seq<T>)
    ensures SumCounts(Dedup(s), s) == |s|
  {
    if |s| > 0 {
      var p, x := s[..|s| - 1], s[|s| - 1];
      assert s == p + [x];
      var d := Dedup(p);
      SumCountsOfDedup(p);
      SumCountsAppendItem(d, p, x);
      if x !in d {
        assert Dedup(s) == d + [x];
        SumCountsAppendKey(d, x, s);
        assert CountOf(s, x) == CountOf(p, x) + 1;
      }
    }
  }

  /** Where a JavaScript `slice` bound lands: negative bounds count from the
      end, and both are clamped to the sequence. */
  function SliceBound(k: int, len: nat): (b: nat)
    ensures b <= len
    ensures 0 <= k <= len ==> b == k
  {
    if k < 0 then (if len + k < 0 then 0 else len + k)
    else if k > len then len
    else k
  }

  /** `s.slice(from, to)`. */
  function Slice<T>(s: seq<T>, from: int, to: int): (r: seq<T>)
    ensures |r| <= |s|
    ensures 0 <= from <= to <= |s| ==> r == s[from..to]
    ensures 0 <= to <= from ==> r == []
  {
    var i, j := SliceBound(from, |s|), SliceBound(to, |s|);
    if i < j then s[i..j] else []
  }
}

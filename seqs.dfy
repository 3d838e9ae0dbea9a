/**
  Sequence operations that the route handlers delegate to the database (a `where`
  filter, an `orderBy` on the creation stamp, a lookup by key) and that the
  frontend performs with `Array.prototype.filter`.
  Predicates are passed as arrows; the route modules build them with small
  functions that return a lambda, so one filter is always the same term.
*/
module Seqs {
  import opened Wrappers

  /** The elements of `s` that satisfy `p`, in their original order. */
  function Filter<T>(s: seq<T>, p: T -> bool): (r: seq<T>)
    ensures |r| <= |s|
    ensures forall x :: x in r ==> x in s && p(x)
    decreases |s|
  {
    if s == [] then [] else Filter(s[..|s| - 1], p) + (if p(s[|s| - 1]) then [s[|s| - 1]] else [])
  }

  /** `s` read back to front: the newest-first order of a table kept in insertion order. */
  function Reverse<T>(s: seq<T>): (r: seq<T>)
    ensures |r| == |s|
    ensures forall i :: 0 <= i < |s| ==> r[i] == s[|s| - 1 - i]
    decreases |s|
  {
    if s == [] then [] else [s[|s| - 1]] + Reverse(s[..|s| - 1])
  }

  /** The position of the first element that satisfies `p` (`findUnique`, `Map.has`). */
  function Find<T>(s: seq<T>, p: T -> bool): (r: Option<nat>)
    ensures r.Some? ==> r.value < |s| && p(s[r.value])
    ensures r.Some? ==> forall j :: 0 <= j < r.value ==> !p(s[j])
    ensures r.None? ==> forall j :: 0 <= j < |s| ==> !p(s[j])
    decreases |s|
  {
    if s == [] then None
    else if p(s[0]) then Some(0)
    else match Find(s[1..], p)
      case None => None
      case Some(k) => Some(k + 1)
  }

  /** `skip`/`take` of a query: at most `take` elements starting at position `skip`. */
  function Window<T>(s: seq<T>, skip: nat, take: nat): (r: seq<T>)
    ensures |r| <= take
    ensures skip <= |s| ==> |r| == if skip + take <= |s| then take else |s| - skip
    ensures skip >= |s| ==> r == []
    ensures forall k :: 0 <= k < |r| ==> skip + k < |s| && r[k] == s[skip + k]
  {
    if skip >= |s| then [] else if skip + take <= |s| then s[skip..skip + take] else s[skip..]
  }

  /** `stamp` grows strictly along `s`. */
  ghost predicate Ascending<T>(s: seq<T>, stamp: T -> int)
  {
    forall i, j :: 0 <= i < j < |s| ==> stamp(s[i]) < stamp(s[j])
  }

  /** `stamp` falls strictly along `s`. */
  ghost predicate Descending<T>(s: seq<T>, stamp: T -> int)
  {
    forall i, j :: 0 <= i < j < |s| ==> stamp(s[i]) > stamp(s[j])
  }

  /** `idx` lists, in increasing order, positions of `s` whose elements make up `r`. */
  ghost predicate Embeds<T>(idx: seq<nat>, r: seq<T>, s: seq<T>)
  {
    && |idx| == |r|
    && (forall k :: 0 <= k < |idx| ==> idx[k] < |s| && r[k] == s[idx[k]])
    && (forall a, b :: 0 <= a < b < |idx| ==> idx[a] < idx[b])
  }

  /** `r` is `s` with some elements left out and the rest kept in order. */
  ghost predicate Subsequence<T>(r: seq<T>, s: seq<T>)
  {
    exists idx :: Embeds(idx, r, s)
  }

  /** Filter keeps exactly the positions of `s` whose element satisfies `p`, in order. */
  lemma {:induction false} FilterPositions<T>(s: seq<T>, p: T -> bool) returns (idx: seq<nat>)
    ensures Embeds(idx, Filter(s, p), s)
    ensures forall i :: 0 <= i < |s| && p(s[i]) ==> i in idx
    decreases |s|
  {
    if s == [] {
      idx := [];
    } else {
      var n := |s| - 1;
      var front := s[..n];
      var prev := FilterPositions(front, p);
      if p(s[n]) {
        idx := prev + [n];
      } else {
        idx := prev;
      }
      forall i | 0 <= i < |s| && p(s[i]) ensures i in idx {
        if i < n {
          assert front[i] == s[i];
        }
      }
    }
  }

  lemma FilterIsSubsequence<T>(s: seq<T>, p: T -> bool)
    ensures Subsequence(Filter(s, p), s)
  {
    var idx := FilterPositions(s, p);
  }

  /** Every element of `s` that satisfies `p` survives the filter. */
  lemma {:induction false} FilterKeeps<T>(s: seq<T>, p: T -> bool, x: T)
    requires x in s && p(x)
    ensures x in Filter(s, p)
    decreases |s|
  {
    var n := |s| - 1;
    if s[n] != x {
      assert x in s[..n] by {
        var i :| 0 <= i < |s| && s[i] == x;
        assert i < n && s[..n][i] == x;
      }
      FilterKeeps(s[..n], p, x);
    }
  }

  /** A filter that keeps everything is the identity. */
  lemma {:induction false} FilterAll<T>(s: seq<T>, p: T -> bool)
    requires forall x :: x in s ==> p(x)
    ensures Filter(s, p) == s
    decreases |s|
  {
    if s != [] {
      var n := |s| - 1;
      assert s == s[..n] + [s[n]];
      FilterAll(s[..n], p);
    }
  }

  /** Filtering distributes over concatenation. */
  lemma {:induction false} FilterAppend<T>(a: seq<T>, b: seq<T>, p: T -> bool)
    ensures Filter(a + b, p) == Filter(a, p) + Filter(b, p)
    decreases |b|
  {
    if b == [] {
      assert a + b == a;
    } else {
      var n := |b| - 1;
      var ab := a + b;
      var kept := if p(b[n]) then [b[n]] else [];
      assert ab[..|ab| - 1] == a + b[..n];
      assert ab[|ab| - 1] == b[n];
      calc {
        Filter(ab, p);
        Filter(a + b[..n], p) + kept;
        { FilterAppend(a, b[..n], p); }
        Filter(a, p) + Filter(b[..n], p) + kept;
        Filter(a, p) + (Filter(b[..n], p) + kept);
      }
    }
  }

  /** Filtering a filtered sequence by a stronger predicate is filtering once. */
  lemma {:induction false} FilterNarrow<T>(s: seq<T>, p: T -> bool, q: T -> bool)
    requires forall x :: q(x) ==> p(x)
    ensures Filter(Filter(s, p), q) == Filter(s, q)
    decreases |s|
  {
    if s != [] {
      var n := |s| - 1;
      FilterNarrow(s[..n], p, q);
      var tail := if p(s[n]) then [s[n]] else [];
      FilterAppend(Filter(s[..n], p), tail, q);
      if p(s[n]) {
        assert Filter(tail, q) == if q(s[n]) then [s[n]] else [] by {
          assert tail[..0] == [];
        }
      }
    }
  }

  /** Reversal distributes over concatenation, swapping the parts. */
  lemma ReverseAppend<T>(a: seq<T>, b: seq<T>)
    ensures Reverse(a + b) == Reverse(b) + Reverse(a)
  {
    var l, r := Reverse(a + b), Reverse(b) + Reverse(a);
    assert |l| == |r|;
    forall i | 0 <= i < |l| ensures l[i] == r[i] {
      if i < |b| {
        assert r[i] == Reverse(b)[i];
      } else {
        assert r[i] == Reverse(a)[i - |b|];
      }
    }
  }

  /** Filtering the reversed sequence gives the reversed filter. */
  lemma {:induction false} FilterReverse<T>(s: seq<T>, p: T -> bool)
    ensures Filter(Reverse(s), p) == Reverse(Filter(s, p))
    decreases |s|
  {
    if s != [] {
      var n := |s| - 1;
      var last := [s[n]];
      assert Reverse(s) == last + Reverse(s[..n]);
      FilterAppend(last, Reverse(s[..n]), p);
      FilterReverse(s[..n], p);
      assert last[..0] == [];
      var kept := if p(s[n]) then [s[n]] else [];
      assert Filter(last, p) == kept;
      ReverseAppend(Filter(s[..n], p), kept);
      assert Reverse(kept) == kept;
    }
  }

  /** Membership is the same in a sequence and in its reversal. */
  lemma ReverseMembers<T>(s: seq<T>, x: T)
    ensures x in Reverse(s) <==> x in s
  {
    var r := Reverse(s);
    if x in s {
      var i :| 0 <= i < |s| && s[i] == x;
      assert r[|s| - 1 - i] == x;
    }
    if x in r {
      var i :| 0 <= i < |r| && r[i] == x;
      assert s[|s| - 1 - i] == x;
    }
  }

  /** A filter keeps the order of its input: an ascending table stays ascending. */
  lemma FilterAscending<T>(s: seq<T>, p: T -> bool, stamp: T -> int)
    requires Ascending(s, stamp)
    ensures Ascending(Filter(s, p), stamp)
  {
    var idx := FilterPositions(s, p);
    var r := Filter(s, p);
    forall i, j | 0 <= i < j < |r| ensures stamp(r[i]) < stamp(r[j]) {
      assert r[i] == s[idx[i]] && r[j] == s[idx[j]] && idx[i] < idx[j];
    }
  }

  /** The reversal of an ascending sequence is descending. */
  lemma ReverseDescending<T>(s: seq<T>, stamp: T -> int)
    requires Ascending(s, stamp)
    ensures Descending(Reverse(s), stamp)
  {
    var r := Reverse(s);
    forall i, j | 0 <= i < j < |r| ensures stamp(r[i]) > stamp(r[j]) {
      assert r[i] == s[|s| - 1 - i] && r[j] == s[|s| - 1 - j];
    }
  }

  /** A window of a descending sequence is descending. */
  lemma WindowDescending<T>(s: seq<T>, skip: nat, take: nat, stamp: T -> int)
    requires Descending(s, stamp)
    ensures Descending(Window(s, skip, take), stamp)
  {
    var w := Window(s, skip, take);
    forall i, j | 0 <= i < j < |w| ensures stamp(w[i]) > stamp(w[j]) {
      assert w[i] == s[skip + i] && w[j] == s[skip + j];
    }
  }

  /** A filter is empty exactly when no element satisfies the predicate. */
  lemma FilterEmpty<T>(s: seq<T>, p: T -> bool)
    ensures |Filter(s, p)| == 0 <==> forall x :: x in s ==> !p(x)
  {
    if exists x :: x in s && p(x) {
      var x :| x in s && p(x);
      FilterKeeps(s, p, x);
    }
  }

  /** No position satisfies the predicate, so the filter is empty. */
  lemma FilterNone<T>(s: seq<T>, p: T -> bool)
    requires forall j :: 0 <= j < |s| ==> !p(s[j])
    ensures Filter(s, p) == []
  {
    FilterEmpty(s, p);
  }

  /** The first position satisfying the predicate is what `Find` returns. */
  lemma FindFirst<T>(s: seq<T>, p: T -> bool, n: nat)
    requires n < |s| && p(s[n])
    requires forall j :: 0 <= j < n ==> !p(s[j])
    ensures Find(s, p) == Some(n)
  {
  }

  /** The filtered sequence holds exactly the elements of `s` that satisfy `p`. */
  lemma FilterMembers<T>(s: seq<T>, p: T -> bool)
    ensures forall x :: x in Filter(s, p) <==> x in s && p(x)
  {
    forall x | x in s && p(x) ensures x in Filter(s, p) {
      FilterKeeps(s, p, x);
    }
  }

  /** Filters with predicates that agree on every element give the same result. */
  lemma {:induction false} FilterSame<T>(s: seq<T>, p: T -> bool, q: T -> bool)
    requires forall x :: x in s ==> p(x) == q(x)
    ensures Filter(s, p) == Filter(s, q)
    decreases |s|
  {
    if s != [] {
      FilterSame(s[..|s| - 1], p, q);
    }
  }
}

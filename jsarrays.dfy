/** The JavaScript array built-ins the console relies on (`filter`, `find`, `slice`,
    `new Set(array)`), with the facts about them the rest of the model uses. */
module JsArrays {
  import opened Wrappers

  /** `s.filter(p)` */
  function Filter<T>(s: seq<T>, p: T -> bool): (r: seq<T>)
    ensures |r| <= |s|
    ensures forall x :: x in r ==> x in s && p(x)
  {
    if s == [] then []
    else if p(s[0]) then [s[0]] + Filter(s[1..], p)
    else Filter(s[1..], p)
  }

  /** `a` is `b` with some elements taken out: order-preserving subsequence. */
  predicate IsSubsequence<T(==)>(a: seq<T>, b: seq<T>)
    decreases |b|
  {
    if a == [] then true
    else if b == [] then false
    else if a[0] == b[0] then IsSubsequence(a[1..], b[1..])
    else IsSubsequence(a, b[1..])
  }

  /** An element is kept exactly when it passes the predicate; how often it occurs is
      then how often it occurs in the input. */
  lemma {:induction false} FilterCounts<T>(s: seq<T>, p: T -> bool, x: T)
    ensures multiset(Filter(s, p))[x] == if p(x) then multiset(s)[x] else 0
  {
    if s != [] {
      FilterCounts(s[1..], p, x);
      assert s == [s[0]] + s[1..];
    }
  }

  lemma FilterMembership<T>(s: seq<T>, p: T -> bool, x: T)
    ensures x in Filter(s, p) <==> x in s && p(x)
  {
  }

  lemma {:induction false} FilterIsSubsequence<T>(s: seq<T>, p: T -> bool)
    ensures IsSubsequence(Filter(s, p), s)
  {
    if s != [] {
      FilterIsSubsequence(s[1..], p);
      if !p(s[0]) {
        SubsequenceDropHead(Filter(s[1..], p), s);
      }
    }
  }

  lemma {:induction false} SubsequenceDropHead<T>(a: seq<T>, b: seq<T>)
    requires b != [] && IsSubsequence(a, b[1..])
    ensures IsSubsequence(a, b)
    decreases |b|, |a|
  {
    if a != [] && a[0] == b[0] {
      SubsequenceTail(a, b[1..]);
    }
  }

  lemma {:induction false} SubsequenceTail<T>(a: seq<T>, b: seq<T>)
    requires a != [] && IsSubsequence(a, b)
    ensures IsSubsequence(a[1..], b)
    decreases |b|, |a|
  {
    if a[0] == b[0] {
      SubsequenceDropHead(a[1..], b);
    } else {
      SubsequenceTail(a, b[1..]);
      SubsequenceDropHead(a[1..], b);
    }
  }

  /** Filtering twice keeps what passes both tests, in the same order: the two filters
      combine with AND. */
  lemma {:induction false} FilterFilter<T>(s: seq<T>, p: T -> bool, q: T -> bool, both: T -> bool)
    requires forall x :: both(x) == (p(x) && q(x))
    ensures Filter(Filter(s, p), q) == Filter(s, both)
  {
    if s != [] {
      FilterFilter(s[1..], p, q, both);
    }
  }

  /** Two predicates that agree on the input give the same result. */
  lemma {:induction false} FilterCongruent<T>(s: seq<T>, p: T -> bool, q: T -> bool)
    requires forall i :: 0 <= i < |s| ==> p(s[i]) == q(s[i])
    ensures Filter(s, p) == Filter(s, q)
  {
    if s != [] {
      FilterCongruent(s[1..], p, q);
    }
  }

  /** `s.find(p)`: the first element passing `p`, if any. */
  function Find<T>(s: seq<T>, p: T -> bool): (r: Option<T>)
    ensures r.Some? ==> r.value in s && p(r.value)
  {
    if s == [] then None
    else if p(s[0]) then Some(s[0])
    else Find(s[1..], p)
  }

  lemma {:induction false} FindFirst<T>(s: seq<T>, p: T -> bool)
    ensures Find(s, p).None? <==> forall i :: 0 <= i < |s| ==> !p(s[i])
    ensures Find(s, p).Some? ==>
      exists i :: 0 <= i < |s| && s[i] == Find(s, p).value && forall j :: 0 <= j < i ==> !p(s[j])
  {
    if s != [] && !p(s[0]) {
      FindFirst(s[1..], p);
      if Find(s[1..], p).Some? {
        var i :| 0 <= i < |s[1..]| && s[1..][i] == Find(s[1..], p).value
                 && forall j :: 0 <= j < i ==> !p(s[1..][j]);
        assert s[i + 1] == Find(s, p).value;
        assert forall j :: 0 <= j < i + 1 ==> !p(s[j]) by {
          forall j | 0 <= j < i + 1 ensures !p(s[j]) {
            if j > 0 { assert s[j] == s[1..][j - 1]; }
          }
        }
      } else {
        assert forall i :: 0 <= i < |s| ==> !p(s[i]) by {
          forall i | 0 <= i < |s| ensures !p(s[i]) {
            if i > 0 { assert s[i] == s[1..][i - 1]; }
          }
        }
      }
    }
  }

  /** Where `s.slice(begin, end)` starts or stops: a negative index counts from the end,
      and both are clamped to `[0, |s|]`. */
  function SliceIndex(rel: int, len: nat): (k: nat)
    ensures k <= len
  {
    if rel < 0 then (if len + rel < 0 then 0 else len + rel)
    else if rel > len then len
    else rel
  }

  /** `s.slice(begin, end)` */
  function Slice<T>(s: seq<T>, begin: int, end: int): seq<T> {
    var from, to := SliceIndex(begin, |s|), SliceIndex(end, |s|);
    if from < to then s[from..to] else []
  }

  /** For non-negative bounds the slice is the window `[begin, end)` cut to the length. */
  lemma SliceWindow<T>(s: seq<T>, begin: int, end: int)
    requires 0 <= begin <= end
    ensures var lo := if begin < |s| then begin else |s|;
            var hi := if end < |s| then end else |s|;
            Slice(s, begin, end) == s[lo..hi] && |Slice(s, begin, end)| <= end - begin
  {
  }

  predicate Distinct<T(==)>(s: seq<T>) {
    forall i, j :: 0 <= i < j < |s| ==> s[i] != s[j]
  }

  /** `Array.from(new Set(s))`: every element once, in the order of its first occurrence.
      The contract states no repeats and the same elements; `DedupKeepsOrder` that the
      order is the array's. */
  function Dedup<T(==,!new)>(s: seq<T>): (r: seq<T>)
    ensures Distinct(r)
    ensures forall x :: x in r <==> x in s
  {
    DedupAfter([], s)
  }

  /** Adds the elements of `s` not yet in `acc` to the end of `acc`, one at a time. */
  function DedupAfter<T(==,!new)>(acc: seq<T>, s: seq<T>): (r: seq<T>)
    requires Distinct(acc)
    ensures Distinct(r)
    ensures forall x :: x in r <==> x in acc || x in s
    ensures |acc| <= |r| && r[..|acc|] == acc
    decreases |s|
  {
    if s == [] then acc
    else if s[0] in acc then DedupAfter(acc, s[1..])
    else DedupAfter(acc + [s[0]], s[1..])
  }

  /** The elements of a `Set` built from an array come in the array's order. */
  lemma DedupKeepsOrder<T(!new)>(s: seq<T>)
    ensures IsSubsequence(Dedup(s), s)
  {
    DedupAfterKeepsOrder([], s);
    assert Dedup(s)[0..] == Dedup(s);
  }

  lemma {:induction false} DedupAfterKeepsOrder<T(!new)>(acc: seq<T>, s: seq<T>)
    requires Distinct(acc)
    ensures IsSubsequence(DedupAfter(acc, s)[|acc|..], s)
    decreases |s|
  {
    if s != [] {
      var r := DedupAfter(acc, s);
      if s[0] in acc {
        DedupAfterKeepsOrder(acc, s[1..]);
        SubsequenceDropHead(r[|acc|..], s);
      } else {
        var acc' := acc + [s[0]];
        DedupAfterKeepsOrder(acc', s[1..]);
        assert r[..|acc'|] == acc';
        assert r[|acc|..][0] == s[0];
        assert r[|acc|..][1..] == r[|acc'|..];
      }
    }
  }

  /** A sequence without repetitions has as many elements as its set. */
  lemma {:induction false} DistinctCard<T>(s: seq<T>)
    requires Distinct(s)
    ensures |set x | x in s| == |s|
  {
    if s != [] {
      DistinctCard(s[1..]);
      assert (set x | x in s) == {s[0]} + (set x | x in s[1..]);
      assert s[0] !in s[1..] by {
        forall j | 0 <= j < |s[1..]| ensures s[1..][j] != s[0] {
          assert s[1..][j] == s[j + 1];
        }
      }
    }
  }

  /** Without repetitions, all of `s` inside distinct `b` and as many elements as `b`
      means the same elements as `b`. */
  lemma SameSizeSubset<T>(a: seq<T>, b: seq<T>)
    requires Distinct(a) && Distinct(b)
    requires forall x :: x in a ==> x in b
    ensures |a| == |b| <==> (forall x :: x in b ==> x in a)
  {
    DistinctCard(a);
    DistinctCard(b);
    var sa, sb := set x | x in a, set x | x in b;
    if exists y :: y in b && y !in a {
      var y :| y in b && y !in a;
      SubsetCard(sa, sb - {y});
    } else {
      assert sa == sb;
    }
  }

  lemma SubsetCard<T>(a: set<T>, b: set<T>)
    requires a <= b
    ensures |a| <= |b|
  {
    assert b == a + (b - a);
    assert a * (b - a) == {};
  }
}

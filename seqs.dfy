/** Generic sequence transforms behind JavaScript's `Array.prototype.filter`,
    `slice` and `[...new Set(xs)]`. */
module Seqs {

  /** `r` is an order-preserving subsequence of `s`. */
  ghost predicate IsSubseq<T>(r: seq<T>, s: seq<T>)
    decreases |s|
  {
    r == [] || (s != [] && ((r[0] == s[0] && IsSubseq(r[1..], s[1..])) || IsSubseq(r, s[1..])))
  }

  /** No element occurs twice. */
  predicate NoDuplicates<T(==)>(s: seq<T>) {
    forall i, j :: 0 <= i < j < |s| ==> s[i] != s[j]
  }

  /** `s.filter(p)`: the elements of `s` that satisfy `p`, in their order. */
  function Filter<T(!new)>(s: seq<T>, p: T -> bool): (r: seq<T>)
    ensures |r| <= |s|
    ensures forall x :: x in r <==> x in s && p(x)
    ensures IsSubseq(r, s)
    ensures (forall x | x in s :: p(x)) <==> r == s
    ensures |r| == |s| ==> r == s
  {
    if s == [] then []
    else if p(s[0]) then [s[0]] + Filter(s[1..], p)
    else Filter(s[1..], p)
  }

  /** `filter` keeps every copy of a passing element and no copy of a
      failing one. */
  lemma {:induction false} FilterMultiplicity<T(!new)>(s: seq<T>, p: T -> bool)
    ensures forall x :: multiset(Filter(s, p))[x] == if p(x) then multiset(s)[x] else 0
    decreases |s|
  {
    if s != [] {
      assert s == [s[0]] + s[1..];
      FilterMultiplicity(s[1..], p);
    }
  }

  /** Filtering a list with one more element at the end: the element is kept
      at the end exactly when it passes. */
  lemma {:induction false} FilterAppend<T(!new)>(s: seq<T>, x: T, p: T -> bool)
    ensures Filter(s + [x], p) == Filter(s, p) + (if p(x) then [x] else [])
    decreases |s|
  {
    if s == [] {
      assert [] + [x] == [x];
    } else {
      assert (s + [x])[0] == s[0];
      assert (s + [x])[1..] == s[1..] + [x];
      FilterAppend(s[1..], x, p);
    }
  }

  /** Two tests that no element passes together select at most |s|
      elements between them. */
  lemma {:induction false} FilterDisjointCounts<T(!new)>(s: seq<T>, p: T -> bool, q: T -> bool)
    requires forall x | x in s :: !(p(x) && q(x))
    ensures |Filter(s, p)| + |Filter(s, q)| <= |s|
  {
    if s != [] {
      assert forall x | x in s[1..] :: x in s;
      FilterDisjointCounts(s[1..], p, q);
    }
  }

  /** `xs.slice(0, n)`. */
  function Take<T>(s: seq<T>, n: nat): (r: seq<T>)
    ensures |r| == if |s| < n then |s| else n
    ensures r <= s
  {
    if |s| < n then s else s[..n]
  }

  /** The position of the first occurrence of `x` in `s` (`s.indexOf(x)`). */
  function FirstIndex<T(==)>(s: seq<T>, x: T): (k: nat)
    requires x in s
    ensures k < |s| && s[k] == x
    ensures forall j :: 0 <= j < k ==> s[j] != x
  {
    if s[0] == x then 0 else 1 + FirstIndex(s[1..], x)
  }

  /** The elements of `s` not in `seen`, each once, in order of first
      occurrence: inserting `s` into a JavaScript `Set` that already holds `seen`. */
  function DedupFrom<T(==,!new)>(s: seq<T>, seen: set<T>): (r: seq<T>)
    ensures |r| <= |s|
    ensures forall x :: x in r <==> x in s && x !in seen
    ensures NoDuplicates(r)
  {
    if s == [] then []
    else if s[0] in seen then DedupFrom(s[1..], seen)
    else [s[0]] + DedupFrom(s[1..], seen + {s[0]})
  }

  /** Inserting one more value into the set: it is added at the end exactly
      when it was seen neither before nor earlier in `s`. */
  lemma {:induction false} DedupFromAppend<T(!new)>(s: seq<T>, x: T, seen: set<T>)
    ensures DedupFrom(s + [x], seen) == DedupFrom(s, seen) + (if x in s || x in seen then [] else [x])
    decreases |s|
  {
    if s == [] {
      assert [] + [x] == [x];
    } else {
      var t := s + [x];
      assert t[0] == s[0];
      assert t[1..] == s[1..] + [x];
      assert x in s <==> x == s[0] || x in s[1..];
      if s[0] in seen {
        DedupFromAppend(s[1..], x, seen);
        assert DedupFrom(t, seen) == DedupFrom(s[1..] + [x], seen);
        assert DedupFrom(s, seen) == DedupFrom(s[1..], seen);
      } else {
        var seen' := seen + {s[0]};
        DedupFromAppend(s[1..], x, seen');
        assert DedupFrom(t, seen) == [s[0]] + DedupFrom(s[1..] + [x], seen');
        assert DedupFrom(s, seen) == [s[0]] + DedupFrom(s[1..], seen');
      }
    }
  }

  /** `[...new Set(s)]`. */
  function Dedup<T(==,!new)>(s: seq<T>): (r: seq<T>)
    ensures |r| <= |s|
    ensures forall x :: x in r <==> x in s
    ensures NoDuplicates(r)
    ensures r == [] <==> s == []
  {
    DedupFrom(s, {})
  }

  /** The elements of `DedupFrom(s, seen)` appear in the order of their first
      occurrence in `s`. */
  lemma {:induction false} DedupFromKeepsFirstOccurrenceOrder<T(!new)>(s: seq<T>, seen: set<T>)
    ensures forall i, j :: 0 <= i < j < |DedupFrom(s, seen)| ==>
      FirstIndex(s, DedupFrom(s, seen)[i]) < FirstIndex(s, DedupFrom(s, seen)[j])
  {
    if s != [] {
      var r := DedupFrom(s, seen);
      if s[0] in seen {
        DedupFromKeepsFirstOccurrenceOrder(s[1..], seen);
        forall i, j | 0 <= i < j < |r|
          ensures FirstIndex(s, r[i]) < FirstIndex(s, r[j])
        {
          assert r[i] in r && r[j] in r;
          assert FirstIndex(s, r[i]) == 1 + FirstIndex(s[1..], r[i]);
          assert FirstIndex(s, r[j]) == 1 + FirstIndex(s[1..], r[j]);
        }
      } else {
        var t := DedupFrom(s[1..], seen + {s[0]});
        DedupFromKeepsFirstOccurrenceOrder(s[1..], seen + {s[0]});
        assert r == [s[0]] + t;
        forall i, j | 0 <= i < j < |r|
          ensures FirstIndex(s, r[i]) < FirstIndex(s, r[j])
        {
          assert r[j] == t[j - 1] && r[j] in t;
          assert FirstIndex(s, r[j]) == 1 + FirstIndex(s[1..], r[j]);
          if i > 0 {
            assert r[i] == t[i - 1] && r[i] in t;
            assert FirstIndex(s, r[i]) == 1 + FirstIndex(s[1..], r[i]);
          }
        }
      }
    }
  }

  /** The distinct values of `Dedup(s)` are listed in first-appearance order. */
  lemma DedupKeepsFirstOccurrenceOrder<T(!new)>(s: seq<T>)
    ensures forall i, j :: 0 <= i < j < |Dedup(s)| ==>
      FirstIndex(s, Dedup(s)[i]) < FirstIndex(s, Dedup(s)[j])
  {
    DedupFromKeepsFirstOccurrenceOrder(s, {});
  }
}

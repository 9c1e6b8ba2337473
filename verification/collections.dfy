/**
  Sequence helpers behind the pages' array idioms: `Array.prototype.filter`,
  `Array.from(new Set(xs))` (insertion-ordered de-duplication), and the
  optional values JavaScript writes as `null` / `undefined`.
 */
module Collections {

  datatype Option<T> = None | Some(value: T)

  /** No element occurs twice. */
  predicate NoDup<T(==)>(s: seq<T>) {
    forall i, j :: 0 <= i < j < |s| ==> s[i] != s[j]
  }

  /** `a` can be obtained from `b` by deleting elements (order is kept). */
  predicate IsSubseq<T(==)>(a: seq<T>, b: seq<T>)
    decreases |b|
  {
    |a| == 0 || (|b| > 0 && if a[0] == b[0] then IsSubseq(a[1..], b[1..]) else IsSubseq(a, b[1..]))
  }

  // ---------------------------------------------------------------------------
  // Filter
  // ---------------------------------------------------------------------------

  /** The elements satisfying `p`, in their original order.
      The multiset clause says each element is kept exactly as often as it
      occurs when it satisfies `p`, and dropped otherwise. */
  function Filter<T(==,!new)>(s: seq<T>, p: T -> bool): (r: seq<T>)
    ensures |r| <= |s|
    ensures forall x :: multiset(r)[x] == if p(x) then multiset(s)[x] else 0
    ensures IsSubseq(r, s)
  {
    if |s| == 0 then []
    else
      var rest := Filter(s[1..], p);
      assert s == [s[0]] + s[1..];
      if p(s[0]) then [s[0]] + rest
      else
        assert |rest| > 0 ==> rest[0] in multiset(rest);
        rest
  }

  lemma FilterMembership<T(!new)>(s: seq<T>, p: T -> bool, x: T)
    ensures x in Filter(s, p) <==> x in s && p(x)
  {
    var r := Filter(s, p);
    assert x in r <==> x in multiset(r);
    assert x in s <==> x in multiset(s);
  }

  /** Filtering twice with the same predicate is filtering once. */
  lemma {:induction false} FilterIdempotent<T(!new)>(s: seq<T>, p: T -> bool)
    ensures Filter(Filter(s, p), p) == Filter(s, p)
  {
    if |s| > 0 {
      FilterIdempotent(s[1..], p);
      if p(s[0]) {
        var r := Filter(s, p);
        assert r[0] == s[0] && r[1..] == Filter(s[1..], p);
      }
    }
  }

  /** A predicate every element satisfies keeps the whole sequence. */
  lemma {:induction false} FilterAll<T(!new)>(s: seq<T>, p: T -> bool)
    requires forall i :: 0 <= i < |s| ==> p(s[i])
    ensures Filter(s, p) == s
  {
    if |s| > 0 {
      FilterAll(s[1..], p);
    }
  }

  /** A stronger predicate selects a subsequence of what a weaker one selects. */
  lemma {:induction false} FilterStronger<T(!new)>(s: seq<T>, p: T -> bool, q: T -> bool)
    requires forall x :: q(x) ==> p(x)
    ensures Filter(s, q) == Filter(Filter(s, p), q)
    ensures IsSubseq(Filter(s, q), Filter(s, p))
  {
    if |s| > 0 {
      FilterStronger(s[1..], p, q);
      if p(s[0]) {
        var fp := Filter(s, p);
        assert fp[0] == s[0] && fp[1..] == Filter(s[1..], p);
      }
    }
  }

  /** Filters that agree on every element of `s` select the same elements. */
  lemma {:induction false} FilterCongruent<T(!new)>(s: seq<T>, p: T -> bool, q: T -> bool)
    requires forall i :: 0 <= i < |s| ==> p(s[i]) == q(s[i])
    ensures Filter(s, p) == Filter(s, q)
  {
    if |s| > 0 {
      FilterCongruent(s[1..], p, q);
    }
  }

  // ---------------------------------------------------------------------------
  // Insertion-ordered de-duplication
  // ---------------------------------------------------------------------------

  /** Adds the elements of `rest` to the set-in-insertion-order `seen`, one at
      a time, skipping those already present (what `new Set(xs)` does). */
  function DedupInto<T(==,!new)>(seen: seq<T>, rest: seq<T>): (r: seq<T>)
    requires NoDup(seen)
    ensures NoDup(r)
    ensures forall x :: x in r <==> x in seen || x in rest
    ensures |seen| <= |r| <= |seen| + |rest|
    ensures r[..|seen|] == seen
    decreases |rest|
  {
    if |rest| == 0 then seen
    else if rest[0] in seen then DedupInto(seen, rest[1..])
    else
      var r := DedupInto(seen + [rest[0]], rest[1..]);
      assert r[..|seen|] == r[..|seen| + 1][..|seen|];
      r
  }

  /** The distinct elements of `s` in order of first occurrence, as a `Set`
      built from `s` iterates them. */
  function Dedup<T(==,!new)>(s: seq<T>): (r: seq<T>)
    ensures NoDup(r)
    ensures forall x :: x in r <==> x in s
    ensures |r| <= |s|
  {
    DedupInto([], s)
  }

  /** Appending an element adds it at the end exactly when it is new: the
      insertion-order law of a JavaScript `Set`. */
  lemma {:induction false} DedupIntoSnoc<T(!new)>(seen: seq<T>, rest: seq<T>, x: T)
    requires NoDup(seen)
    ensures DedupInto(seen, rest + [x])
         == if x in seen || x in rest then DedupInto(seen, rest) else DedupInto(seen, rest) + [x]
    decreases |rest|
  {
    if |rest| == 0 {
      assert rest + [x] == [x];
      assert ([x])[1..] == [];
    } else {
      assert (rest + [x])[0] == rest[0];
      assert (rest + [x])[1..] == rest[1..] + [x];
      if rest[0] in seen {
        DedupIntoSnoc(seen, rest[1..], x);
      } else {
        DedupIntoSnoc(seen + [rest[0]], rest[1..], x);
      }
    }
  }

  lemma DedupSnoc<T(!new)>(s: seq<T>, x: T)
    ensures Dedup(s + [x]) == if x in s then Dedup(s) else Dedup(s) + [x]
  {
    DedupIntoSnoc([], s, x);
  }

  // ---------------------------------------------------------------------------
  // No-duplicate facts
  // ---------------------------------------------------------------------------

  lemma {:induction false} NoDupCounts<T(!new)>(s: seq<T>)
    ensures NoDup(s) <==> forall x :: multiset(s)[x] <= 1
  {
    if |s| > 0 {
      NoDupCounts(s[1..]);
      assert s == [s[0]] + s[1..];
      if NoDup(s) {
        assert NoDup(s[1..]);
        assert s[0] !in s[1..];
      }
      if forall x :: multiset(s)[x] <= 1 {
        assert multiset(s) == multiset{s[0]} + multiset(s[1..]);
        assert multiset(s)[s[0]] == 1 + multiset(s[1..])[s[0]];
        assert forall x :: multiset(s[1..])[x] <= multiset(s)[x];
        forall i, j | 0 <= i < j < |s|
          ensures s[i] != s[j]
        {
          if i == 0 {
            assert s[j] in s[1..];
          } else {
            assert s[1..][i - 1] == s[i] && s[1..][j - 1] == s[j];
          }
        }
      }
    }
  }

  /** A permutation of a duplicate-free sequence is duplicate-free. */
  lemma PermutationNoDup<T(!new)>(a: seq<T>, b: seq<T>)
    requires multiset(a) == multiset(b) && NoDup(a)
    ensures NoDup(b)
  {
    NoDupCounts(a);
    NoDupCounts(b);
  }

  lemma PrefixNoDup<T(!new)>(s: seq<T>, n: nat)
    requires n <= |s| && NoDup(s)
    ensures NoDup(s[..n])
  {
  }

  lemma ConcatNoDup<T(!new)>(a: seq<T>, b: seq<T>)
    requires NoDup(a) && NoDup(b)
    requires forall x :: x in a ==> x !in b
    ensures NoDup(a + b)
  {
    forall i, j | 0 <= i < j < |a + b|
      ensures (a + b)[i] != (a + b)[j]
    {
      if i < |a| && j >= |a| {
        assert (a + b)[j] in b;
      }
    }
  }

  /** Filtering a duplicate-free sequence leaves it duplicate-free. */
  lemma FilterNoDup<T(!new)>(s: seq<T>, p: T -> bool)
    requires NoDup(s)
    ensures NoDup(Filter(s, p))
  {
    NoDupCounts(s);
    NoDupCounts(Filter(s, p));
  }

  /** The set of elements of a sequence. */
  function Elems<T>(s: seq<T>): set<T> {
    set x | x in s
  }

  /** A duplicate-free sequence has as many distinct elements as positions. */
  lemma {:induction false} NoDupElems<T>(s: seq<T>)
    requires NoDup(s)
    ensures |Elems(s)| == |s|
  {
    if |s| > 0 {
      NoDupElems(s[1..]);
      assert Elems(s) == {s[0]} + Elems(s[1..]);
      assert s[0] !in Elems(s[1..]);
    }
  }

  /** Two duplicate-free sequences of the same length, the first of whose
      elements all occur in the second, are permutations of each other. */
  lemma SameSizeCover<T(!new)>(a: seq<T>, b: seq<T>)
    requires NoDup(a) && NoDup(b) && |a| == |b|
    requires forall i :: 0 <= i < |a| ==> a[i] in b
    ensures multiset(a) == multiset(b)
  {
    NoDupElems(a);
    NoDupElems(b);
    assert Elems(a) <= Elems(b) by {
      forall x | x in Elems(a) ensures x in Elems(b) {
        var i :| 0 <= i < |a| && a[i] == x;
      }
    }
    assert Elems(b) == Elems(a) + (Elems(b) - Elems(a));
    assert Elems(a) == Elems(b);
    NoDupCounts(a);
    NoDupCounts(b);
    forall x ensures multiset(a)[x] == multiset(b)[x] {
      assert x in a <==> x in Elems(a);
      assert x in b <==> x in Elems(b);
    }
  }

  /** Appending an element not yet present keeps a sequence duplicate-free. */
  lemma AppendNoDup<T(!new)>(s: seq<T>, x: T)
    requires x !in s
    ensures NoDup(s) ==> NoDup(s + [x])
  {
    if NoDup(s) {
      ConcatNoDup(s, [x]);
    }
  }
}

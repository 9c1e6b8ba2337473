/**
  `Math.random()` as an explicit oracle, and the Fisher–Yates `shuffle` that
  the ingredient-matching and image-guessing pages each define.

  An oracle `Rng` maps a draw number to the value `Math.random()` returned for
  that draw; every value lies in [0, 1). `Draw(r, n)` is the page idiom
  `Math.floor(r * n)`, which picks an index below `n`.
 */
module Random {

  type Rng = nat -> real

  /** Every value the oracle produces is one `Math.random()` can return. */
  ghost predicate Uniform(rng: Rng) {
    forall i: nat :: 0.0 <= rng(i) < 1.0
  }

  /** `Math.floor(r * n)` for a random `r` in [0, 1). */
  function Draw(r: real, n: nat): (j: nat)
    requires 0.0 <= r < 1.0
    requires n > 0
    ensures j < n
  {
    var x := r * n as real;
    assert 0.0 <= x;
    assert x < n as real by {
      assert (1.0 - r) * n as real > 0.0;
    }
    x.Floor
  }

  function Swap<T>(s: seq<T>, i: nat, j: nat): (r: seq<T>)
    requires i < |s| && j < |s|
    ensures |r| == |s|
    ensures multiset(r) == multiset(s)
    ensures r[i] == s[j] && r[j] == s[i]
    ensures forall k :: 0 <= k < |s| && k != i && k != j ==> r[k] == s[k]
  {
    s[i := s[j]][j := s[i]]
  }

  /** The loop of `shuffle` from index `i` down to 1: swap position `i` with
      a random position at or below it, then continue with `i - 1`. */
  function FisherYates<T>(copy: seq<T>, i: nat, rng: Rng): (r: seq<T>)
    requires i < |copy|
    requires Uniform(rng)
    ensures |r| == |copy|
    ensures multiset(r) == multiset(copy)
    decreases i
  {
    if i == 0 then copy
    else
      var j := Draw(rng(i), i + 1);
      FisherYates(Swap(copy, i, j), i - 1, rng)
  }

  /** `shuffle(items)`: a permutation of `items` chosen by the oracle. */
  function Shuffle<T>(items: seq<T>, rng: Rng): (r: seq<T>)
    requires Uniform(rng)
    ensures |r| == |items|
    ensures multiset(r) == multiset(items)
  {
    if |items| == 0 then items else FisherYates(items, |items| - 1, rng)
  }

  /** Shuffling keeps exactly the same members. */
  lemma ShuffleMembers<T>(items: seq<T>, rng: Rng, x: T)
    requires Uniform(rng)
    ensures x in Shuffle(items, rng) <==> x in items
  {
    var r := Shuffle(items, rng);
    assert x in r <==> x in multiset(r);
    assert x in items <==> x in multiset(items);
  }
}

/**
 * `shuffle` (app.js:55): Fisher-Yates on a copy of the argument. The loop
 * runs `i` from the last index down to 1 and swaps `x[i]` with `x[j]`,
 * `j = Math.floor(Math.random() * (i + 1))`. The random source is an oracle
 * `rand`; `Pick` brings its answer into `0..i`, so every draw the source can
 * make is one the oracle can make.
 */
module Shuffling {

  /** `[x[i], x[j]] = [x[j], x[i]]` on a sequence. */
  function Swap<T>(s: seq<T>, i: nat, j: nat): (r: seq<T>)
    requires i < |s| && j < |s|
    ensures |r| == |s|
  {
    s[i := s[j]][j := s[i]]
  }

  /** The index drawn for position `i`. */
  function Pick(rand: nat -> nat, i: nat): (j: nat)
    ensures j <= i
  {
    rand(i) % (i + 1)
  }

  /** The sequence once the loop has handled positions `n - 1` down to 1. */
  function Descend<T>(s: seq<T>, rand: nat -> nat, n: nat): (r: seq<T>)
    requires n <= |s|
    ensures |r| == |s|
    decreases n
  {
    if n <= 1 then s else Descend(Swap(s, n - 1, Pick(rand, n - 1)), rand, n - 1)
  }

  /** What `shuffle(a)` returns when the random draws are `rand`. */
  function Shuffled<T>(a: seq<T>, rand: nat -> nat): (r: seq<T>)
    ensures |r| == |a|
  {
    Descend(a, rand, |a|)
  }

  lemma SwapPermutes<T>(s: seq<T>, i: nat, j: nat)
    requires i < |s| && j < |s|
    ensures multiset(Swap(s, i, j)) == multiset(s)
  {
    var t := s[i := s[j]];
    assert multiset(t) == multiset(s) - multiset{s[i]} + multiset{s[j]};
    assert multiset(t[j := s[i]]) == multiset(t) - multiset{t[j]} + multiset{s[i]};
  }

  lemma {:induction false} DescendPermutes<T>(s: seq<T>, rand: nat -> nat, n: nat)
    requires n <= |s|
    ensures multiset(Descend(s, rand, n)) == multiset(s)
    decreases n
  {
    if n > 1 {
      var t := Swap(s, n - 1, Pick(rand, n - 1));
      SwapPermutes(s, n - 1, Pick(rand, n - 1));
      DescendPermutes(t, rand, n - 1);
    }
  }

  /** `shuffle` returns a permutation of its argument. */
  lemma ShuffledPermutes<T>(a: seq<T>, rand: nat -> nat)
    ensures |Shuffled(a, rand)| == |a|
    ensures multiset(Shuffled(a, rand)) == multiset(a)
  {
    DescendPermutes(a, rand, |a|);
  }

  /** Draws that always pick the position itself leave the order alone. */
  lemma {:induction false} DescendStays<T>(s: seq<T>, rand: nat -> nat, n: nat)
    requires n <= |s|
    requires forall i :: 0 < i < n ==> Pick(rand, i) == i
    ensures Descend(s, rand, n) == s
    decreases n
  {
    if n > 1 {
      assert Pick(rand, n - 1) == n - 1;
      assert Swap(s, n - 1, n - 1) == s;
      DescendStays(s, rand, n - 1);
    }
  }

  function MapSeq<T, U>(f: T -> U, s: seq<T>): (r: seq<U>)
    ensures |r| == |s|
    ensures forall i :: 0 <= i < |s| ==> r[i] == f(s[i])
  {
    seq(|s|, i requires 0 <= i < |s| => f(s[i]))
  }

  lemma MapSwap<T, U>(f: T -> U, s: seq<T>, i: nat, j: nat)
    requires i < |s| && j < |s|
    ensures MapSeq(f, Swap(s, i, j)) == Swap(MapSeq(f, s), i, j)
  {
  }

  /** Shuffling and then mapping is mapping and then shuffling with the same draws. */
  lemma {:induction false} MapDescend<T, U>(f: T -> U, s: seq<T>, rand: nat -> nat, n: nat)
    requires n <= |s|
    ensures MapSeq(f, Descend(s, rand, n)) == Descend(MapSeq(f, s), rand, n)
    decreases n
  {
    if n > 1 {
      MapSwap(f, s, n - 1, Pick(rand, n - 1));
      MapDescend(f, Swap(s, n - 1, Pick(rand, n - 1)), rand, n - 1);
    }
  }

  /** Whatever a shuffle does to the elements, it does not change the multiset of any view of them. */
  lemma MapShuffled<T, U>(f: T -> U, a: seq<T>, rand: nat -> nat)
    ensures multiset(MapSeq(f, Shuffled(a, rand))) == multiset(MapSeq(f, a))
  {
    MapDescend(f, a, rand, |a|);
    DescendPermutes(MapSeq(f, a), rand, |a|);
  }

  /** `shuffle(a)`: a copy of `a` in an array, swapped in place from the back. */
  method Shuffle<T>(a: seq<T>, rand: nat -> nat) returns (r: seq<T>)
    ensures r == Shuffled(a, rand)
    ensures multiset(r) == multiset(a)
  {
    var x := new T[|a|](i requires 0 <= i < |a| => a[i]);
    assert x[..] == a;
    var n: nat := |a|;
    while n > 1
      invariant n <= x.Length == |a|
      invariant Descend(x[..], rand, n) == Shuffled(a, rand)
    {
      var i := n - 1;
      var j := Pick(rand, i);
      ghost var before := x[..];
      x[i], x[j] := x[j], x[i];
      assert x[..] == Swap(before, i, j);
      n := i;
    }
    r := x[..];
    ShuffledPermutes(a, rand);
  }
}

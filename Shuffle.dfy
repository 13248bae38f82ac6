/**
 * The Fisher-Yates shuffles the games use to order options, tiles and cards.
 *
 * Each source copy works on a fresh copy of its input and, for i from the last
 * index down, swaps element i with a randomly drawn index j in [0, i].  The
 * random draws are an input here: draws[i] is the index drawn at step i.  Two
 * loop shapes occur: a down-counting `for` loop that stops before i = 0, and a
 * `while` loop that also performs the (trivial) step i = 0.  Both compute
 * FisherYates(input, draws), which is a permutation of the input.
 */
module Shuffle {

  /** draws[i] is a legal draw for step i: an index in [0, i]. */
  predicate ValidDraws(draws: seq<nat>, n: nat)
  {
    |draws| == n && forall i :: 0 <= i < n ==> draws[i] <= i
  }

  function Swap<T>(s: seq<T>, i: nat, j: nat): (r: seq<T>)
    requires i < |s| && j < |s|
    ensures |r| == |s|
    ensures r[i] == s[j] && r[j] == s[i]
    ensures forall k :: 0 <= k < |s| && k != i && k != j ==> r[k] == s[k]
  {
    s[i := s[j]][j := s[i]]
  }

  lemma SwapPermutes<T>(s: seq<T>, i: nat, j: nat)
    requires i < |s| && j < |s|
    ensures multiset(Swap(s, i, j)) == multiset(s)
  {
    var t := s[i := s[j]];
    assert multiset(t) == multiset(s) - multiset{s[i]} + multiset{s[j]};
    assert multiset(t[j := s[i]]) == multiset(t) - multiset{t[j]} + multiset{s[i]};
  }

  /** The result of performing steps k-1, k-2, ..., 0 on s. */
  function Shuffled<T>(s: seq<T>, draws: seq<nat>, k: nat): (r: seq<T>)
    requires ValidDraws(draws, |s|) && k <= |s|
    ensures |r| == |s|
    decreases k
  {
    if k == 0 then s else Shuffled(Swap(s, k - 1, draws[k - 1]), draws, k - 1)
  }

  lemma {:induction false} ShuffledPermutes<T>(s: seq<T>, draws: seq<nat>, k: nat)
    requires ValidDraws(draws, |s|) && k <= |s|
    ensures multiset(Shuffled(s, draws, k)) == multiset(s)
    decreases k
  {
    if k > 0 {
      SwapPermutes(s, k - 1, draws[k - 1]);
      ShuffledPermutes(Swap(s, k - 1, draws[k - 1]), draws, k - 1);
    }
  }

  /** Shuffling a sequence all of whose elements are equal gives it back unchanged. */
  lemma {:induction false} ShuffledConstant<T>(s: seq<T>, draws: seq<nat>, k: nat, c: T)
    requires ValidDraws(draws, |s|) && k <= |s|
    requires forall i :: 0 <= i < |s| ==> s[i] == c
    ensures Shuffled(s, draws, k) == s
    decreases k
  {
    if k > 0 {
      var t := Swap(s, k - 1, draws[k - 1]);
      assert t == s;
      ShuffledConstant(t, draws, k - 1, c);
    }
  }

  /** Steps in [m, k) that draw their own index leave the sequence as it is. */
  lemma {:induction false} ShuffledSkip<T>(s: seq<T>, draws: seq<nat>, k: nat, m: nat)
    requires ValidDraws(draws, |s|) && m <= k <= |s|
    requires forall i :: m <= i < k ==> draws[i] == i
    ensures Shuffled(s, draws, k) == Shuffled(s, draws, m)
    decreases k
  {
    if k > m {
      assert Swap(s, k - 1, draws[k - 1]) == s;
      ShuffledSkip(s, draws, k - 1, m);
    }
  }

  /** The full shuffle of s under the given draws. */
  function FisherYates<T>(s: seq<T>, draws: seq<nat>): (r: seq<T>)
    requires ValidDraws(draws, |s|)
    ensures |r| == |s|
    ensures multiset(r) == multiset(s)
  {
    ShuffledPermutes(s, draws, |s|);
    Shuffled(s, draws, |s|)
  }

  /**
   * The down-counting `for` shape: `for (let i = a.length - 1; i > 0; i--)`
   * swapping the copy's elements i and draws[i].
   */
  method ShuffleFor<T>(s: seq<T>, draws: seq<nat>) returns (r: seq<T>)
    requires ValidDraws(draws, |s|)
    ensures r == FisherYates(s, draws)
    ensures multiset(r) == multiset(s)
  {
    var n := |s|;
    var a := new T[n](k requires 0 <= k < n => s[k]);
    assert a[..] == s;
    if n > 0 {
      for i := n downto 1
        invariant Shuffled(a[..], draws, i) == FisherYates(s, draws)
      {
        ghost var before := a[..];
        a[i], a[draws[i]] := a[draws[i]], a[i];
        assert a[..] == Swap(before, i, draws[i]);
      }
      // the step i = 0 the loop skips can only swap element 0 with itself
      assert Swap(a[..], 0, draws[0]) == a[..];
    }
    r := a[..];
  }

  /**
   * The `while (currentIndex !== 0)` shape: draw an index below currentIndex,
   * decrement currentIndex, then swap the copy's elements at the two indices.
   */
  method ShuffleWhile<T>(s: seq<T>, draws: seq<nat>) returns (r: seq<T>)
    requires ValidDraws(draws, |s|)
    ensures r == FisherYates(s, draws)
    ensures multiset(r) == multiset(s)
  {
    var n := |s|;
    var a := new T[n](k requires 0 <= k < n => s[k]);
    assert a[..] == s;
    var currentIndex := n;
    while currentIndex != 0
      invariant 0 <= currentIndex <= n
      invariant Shuffled(a[..], draws, currentIndex) == FisherYates(s, draws)
    {
      var randomIndex := draws[currentIndex - 1];
      currentIndex := currentIndex - 1;
      ghost var before := a[..];
      a[currentIndex], a[randomIndex] := a[randomIndex], a[currentIndex];
      assert a[..] == Swap(before, currentIndex, randomIndex);
    }
    r := a[..];
  }
}

/**
 * Sequences of records keyed by a numeric id: ordering by the key, as
 * `sort((a, b) => a.id - b.id)` does for the dialogue lines and the letter
 * tiles, and removal by key, as `filter(x => x.id !== id)` does.
 * Array.prototype.sort is a library routine; it is modelled by an insertion
 * sort, which is specified here by what a comparator sort promises: a
 * permutation ordered by the key.
 */
module Sorting {

  predicate SortedBy<T>(s: seq<T>, key: T -> int)
  {
    forall i, j :: 0 <= i < j < |s| ==> key(s[i]) <= key(s[j])
  }

  /** s with x placed before the first element whose key is larger than x's. */
  function Insert<T>(x: T, s: seq<T>, key: T -> int): (r: seq<T>)
    ensures |r| == |s| + 1
    ensures multiset(r) == multiset(s) + multiset{x}
  {
    if s == [] then [x]
    else if key(x) <= key(s[0]) then [x] + s
    else
      assert s == [s[0]] + s[1..];
      [s[0]] + Insert(x, s[1..], key)
  }

  /** Every key in the insertion is a key of s or x's key. */
  lemma InsertBound<T>(x: T, s: seq<T>, key: T -> int, b: int)
    requires key(x) >= b && forall i :: 0 <= i < |s| ==> key(s[i]) >= b
    ensures forall i :: 0 <= i < |s| + 1 ==> key(Insert(x, s, key)[i]) >= b
  {
    var r := Insert(x, s, key);
    forall i | 0 <= i < |r| ensures key(r[i]) >= b {
      assert r[i] in multiset(s) + multiset{x};
    }
  }

  lemma {:induction false} InsertSorted<T>(x: T, s: seq<T>, key: T -> int)
    requires SortedBy(s, key)
    ensures SortedBy(Insert(x, s, key), key)
  {
    if s != [] && key(x) > key(s[0]) {
      InsertSorted(x, s[1..], key);
      InsertBound(x, s[1..], key, key(s[0]));
    }
  }

  /** The elements of s ordered by key. */
  function SortBy<T>(s: seq<T>, key: T -> int): (r: seq<T>)
    ensures |r| == |s|
    ensures multiset(r) == multiset(s)
    ensures SortedBy(r, key)
  {
    if s == [] then []
    else
      assert s == [s[0]] + s[1..];
      var t := SortBy(s[1..], key);
      InsertSorted(s[0], t, key);
      Insert(s[0], t, key)
  }

  predicate DistinctKeys<T>(s: seq<T>, key: T -> int)
  {
    forall i, j :: 0 <= i < j < |s| ==> key(s[i]) != key(s[j])
  }

  /** Two key-ordered arrangements of the same elements begin with the same (least) element. */
  lemma SortedHeads<T>(a: seq<T>, b: seq<T>, key: T -> int)
    requires SortedBy(a, key) && SortedBy(b, key) && DistinctKeys(a, key)
    requires multiset(a) == multiset(b) && a != []
    ensures b != [] && a[0] == b[0]
  {
    assert a[0] in multiset(b);
    var j :| 0 <= j < |b| && b[j] == a[0];
    assert b[0] in multiset(a);
    var i :| 0 <= i < |a| && a[i] == b[0];
    assert key(a[0]) <= key(a[i]) == key(b[0]) <= key(b[j]) == key(a[0]);
  }

  lemma TailsPermute<T>(a: seq<T>, b: seq<T>)
    requires a != [] && b != [] && a[0] == b[0] && multiset(a) == multiset(b)
    ensures multiset(a[1..]) == multiset(b[1..])
  {
    assert a == [a[0]] + a[1..];
    assert b == [b[0]] + b[1..];
    assert multiset(a) == multiset{a[0]} + multiset(a[1..]);
    assert multiset(b) == multiset{a[0]} + multiset(b[1..]);
    forall x ensures multiset(a[1..])[x] == multiset(b[1..])[x] {
      assert multiset(a)[x] == multiset{a[0]}[x] + multiset(a[1..])[x];
      assert multiset(b)[x] == multiset{a[0]}[x] + multiset(b[1..])[x];
    }
  }

  /**
   * With distinct keys the ordered arrangement is unique: two sequences with
   * the same elements, both ordered by the key, are equal.
   */
  lemma {:induction false} SortedUnique<T>(a: seq<T>, b: seq<T>, key: T -> int)
    requires SortedBy(a, key) && SortedBy(b, key) && DistinctKeys(a, key)
    requires multiset(a) == multiset(b)
    ensures a == b
  {
    if a == [] {
      assert |b| == |multiset(b)| == 0;
    } else {
      SortedHeads(a, b, key);
      TailsPermute(a, b);
      SortedUnique(a[1..], b[1..], key);
      assert a == [a[0]] + a[1..] && b == [b[0]] + b[1..];
    }
  }

  /** `filter(x => x.id !== k)`: the elements whose key is not k, in order. */
  function RemoveKey<T(!new)>(s: seq<T>, key: T -> int, k: int): (r: seq<T>)
    ensures |r| <= |s|
    ensures forall x :: x in s && key(x) == k ==> |r| < |s|
    ensures forall x :: x in r <==> x in s && key(x) != k
  {
    if s == [] then []
    else (if key(s[0]) == k then [] else [s[0]]) + RemoveKey(s[1..], key, k)
  }

  /** Filtering a single element keeps it exactly when its key is not k. */
  lemma RemoveKeySingle<T(!new)>(x: T, key: T -> int, k: int)
    ensures RemoveKey([x], key, k) == if key(x) == k then [] else [x]
  {
    assert [x][1..] == [];
  }

  /**
   * Filtering distributes over concatenation; with RemoveKeySingle this
   * fixes the result element by element, order and multiplicity included.
   */
  lemma {:induction false} RemoveKeyConcat<T(!new)>(a: seq<T>, b: seq<T>, key: T -> int, k: int)
    ensures RemoveKey(a + b, key, k) == RemoveKey(a, key, k) + RemoveKey(b, key, k)
  {
    if a == [] {
      assert a + b == b;
    } else {
      assert (a + b)[1..] == a[1..] + b;
      RemoveKeyConcat(a[1..], b, key, k);
    }
  }

  lemma {:induction false} RemoveKeyDistinct<T(!new)>(s: seq<T>, key: T -> int, k: int)
    requires DistinctKeys(s, key)
    ensures DistinctKeys(RemoveKey(s, key, k), key)
  {
    if s != [] {
      RemoveKeyDistinct(s[1..], key, k);
    }
  }

  lemma {:induction false} NoKeyKept<T(!new)>(s: seq<T>, key: T -> int, k: int)
    requires forall x :: x in s ==> key(x) != k
    ensures RemoveKey(s, key, k) == s
  {
    if s != [] {
      NoKeyKept(s[1..], key, k);
      assert s == [s[0]] + s[1..];
    }
  }

  /** With distinct keys, removing an element's key removes exactly that element. */
  lemma {:induction false} RemoveKeyRemovesOne<T(!new)>(s: seq<T>, key: T -> int, x: T)
    requires DistinctKeys(s, key) && x in s
    ensures multiset(RemoveKey(s, key, key(x))) == multiset(s) - multiset{x}
  {
    assert s == [s[0]] + s[1..];
    if s[0] == x {
      assert x !in s[1..];
      NoKeyKept(s[1..], key, key(x));
    } else {
      RemoveKeyRemovesOne(s[1..], key, x);
    }
  }

  /** A head whose key differs from every key of a tail with distinct keys keeps the keys distinct. */
  lemma DistinctKeysCons<T>(b: seq<T>, key: T -> int)
    requires b != [] && DistinctKeys(b[1..], key)
    requires forall y :: y in b[1..] ==> key(y) != key(b[0])
    ensures DistinctKeys(b, key)
  {
    forall i, j | 0 <= i < j < |b| ensures key(b[i]) != key(b[j]) {
      assert b[j] == b[1..][j - 1];
      if i > 0 {
        assert b[i] == b[1..][i - 1];
      }
    }
  }

  /** Distinct keys survive any rearrangement. */
  lemma {:induction false} DistinctKeysPermutation<T(!new)>(a: seq<T>, b: seq<T>, key: T -> int)
    requires DistinctKeys(a, key) && multiset(a) == multiset(b)
    ensures DistinctKeys(b, key)
    decreases |b|
  {
    if b != [] {
      var x := b[0];
      assert x in multiset(a);
      var rest := RemoveKey(a, key, key(x));
      RemoveKeyRemovesOne(a, key, x);
      RemoveKeyDistinct(a, key, key(x));
      assert b == [x] + b[1..];
      assert multiset(rest) == multiset(b[1..]);
      DistinctKeysPermutation(rest, b[1..], key);
      forall y | y in b[1..] ensures key(y) != key(x) {
        assert y in multiset(rest);
      }
      DistinctKeysCons(b, key);
    }
  }
}

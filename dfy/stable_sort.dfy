/**
 * `Array.prototype.sort` with a comparator `(a, b) => key(b) - key(a)`:
 * a stable sort into non-increasing key order. It is modelled by insertion
 * sort, and the lemmas show that the result is sorted, is a permutation,
 * keeps elements of equal key in their input order, and is the only
 * sequence with those properties, so any stable sort gives the same result.
 */
module StableSort {

  /** Non-increasing by key. */
  predicate SortedDesc<T>(s: seq<T>, key: T -> real) {
    forall i, j :: 0 <= i < j < |s| ==> key(s[i]) >= key(s[j])
  }

  /** The elements of s whose key is k, in their order in s. */
  function WithKey<T>(s: seq<T>, key: T -> real, k: real): seq<T> {
    if s == [] then [] else (if key(s[0]) == k then [s[0]] else []) + WithKey(s[1..], key, k)
  }

  /** Places x after every element whose key is at least key(x). */
  function Insert<T>(t: seq<T>, x: T, key: T -> real): seq<T> {
    if t == [] then [x]
    else if key(t[0]) >= key(x) then [t[0]] + Insert(t[1..], x, key)
    else [x] + t
  }

  /** Insertion sort by non-increasing key. */
  function Sort<T>(s: seq<T>, key: T -> real): seq<T> {
    if s == [] then [] else Insert(Sort(s[..|s| - 1], key), s[|s| - 1], key)
  }

  lemma {:induction false} WithKeyAppend<T>(s: seq<T>, t: seq<T>, key: T -> real, k: real)
    ensures WithKey(s + t, key, k) == WithKey(s, key, k) + WithKey(t, key, k)
  {
    if s != [] {
      assert (s + t)[0] == s[0] && (s + t)[1..] == s[1..] + t;
      WithKeyAppend(s[1..], t, key, k);
    } else {
      assert s + t == t;
    }
  }

  lemma {:induction false} WithKeyNone<T>(s: seq<T>, key: T -> real, k: real)
    requires forall i :: 0 <= i < |s| ==> key(s[i]) != k
    ensures WithKey(s, key, k) == []
  {
    if s != [] {
      WithKeyNone(s[1..], key, k);
    }
  }

  lemma {:induction false} InsertMultiset<T>(t: seq<T>, x: T, key: T -> real)
    ensures multiset(Insert(t, x, key)) == multiset(t) + multiset{x}
  {
    if t != [] && key(t[0]) >= key(x) {
      InsertMultiset(t[1..], x, key);
      assert t == [t[0]] + t[1..];
    }
  }

  /** Inserting into a sorted sequence keeps it sorted. */
  lemma {:induction false} InsertSorted<T>(t: seq<T>, x: T, key: T -> real)
    requires SortedDesc(t, key)
    ensures SortedDesc(Insert(t, x, key), key)
  {
    if t != [] && key(t[0]) >= key(x) {
      var rest := Insert(t[1..], x, key);
      InsertSorted(t[1..], x, key);
      InsertMultiset(t[1..], x, key);
      forall i | 0 <= i < |rest|
        ensures key(rest[i]) <= key(t[0])
      {
        assert rest[i] in multiset(rest);
        assert rest[i] in multiset(t[1..]) + multiset{x};
      }
      assert Insert(t, x, key) == [t[0]] + rest;
    }
  }

  /** x lands after every element of its own key. */
  lemma {:induction false} InsertWithKey<T>(t: seq<T>, x: T, key: T -> real, k: real)
    requires SortedDesc(t, key)
    ensures WithKey(Insert(t, x, key), key, k) == WithKey(t, key, k) + WithKey([x], key, k)
  {
    if t == [] {
    } else if key(t[0]) >= key(x) {
      InsertWithKey(t[1..], x, key, k);
      WithKeyAppend([t[0]], Insert(t[1..], x, key), key, k);
      WithKeyAppend([t[0]], t[1..], key, k);
      assert t == [t[0]] + t[1..];
    } else {
      WithKeyAppend([x], t, key, k);
      if key(x) == k {
        WithKeyNone(t, key, k);
      }
    }
  }

  /** Sort is a stable sort: sorted, a permutation, and the elements of each key keep their input order. */
  lemma {:induction false} SortIsStableSort<T>(s: seq<T>, key: T -> real)
    ensures SortedDesc(Sort(s, key), key)
    ensures multiset(Sort(s, key)) == multiset(s)
    ensures |Sort(s, key)| == |s|
    ensures forall k :: WithKey(Sort(s, key), key, k) == WithKey(s, key, k)
  {
    if s != [] {
      var p, x := s[..|s| - 1], s[|s| - 1];
      assert s == p + [x];
      SortIsStableSort(p, key);
      InsertSorted(Sort(p, key), x, key);
      InsertMultiset(Sort(p, key), x, key);
      forall k
        ensures WithKey(Sort(s, key), key, k) == WithKey(s, key, k)
      {
        InsertWithKey(Sort(p, key), x, key, k);
        WithKeyAppend(p, [x], key, k);
      }
      assert |multiset(Sort(s, key))| == |multiset(s)|;
    }
  }

  lemma {:induction false} WithKeyHead<T>(s: seq<T>, key: T -> real)
    requires s != [] && SortedDesc(s, key)
    ensures WithKey(s, key, key(s[0])) != [] && WithKey(s, key, key(s[0]))[0] == s[0]
    ensures forall k :: k != key(s[0]) ==> WithKey(s[1..], key, k) == WithKey(s, key, k)
    ensures forall k :: k == key(s[0]) ==> WithKey(s[1..], key, k) == WithKey(s, key, k)[1..]
  {
  }

  /** Every element's key occurs in WithKey of that key; nothing above the first key does. */
  lemma {:induction false} WithKeyAbove<T>(s: seq<T>, key: T -> real, k: real)
    requires SortedDesc(s, key) && s != [] && k > key(s[0])
    ensures WithKey(s, key, k) == []
  {
    WithKeyNone(s, key, k);
  }

  /** Two sorted sequences with the same per-key subsequences start with the same element. */
  lemma SameKeysSameHead<T>(a: seq<T>, b: seq<T>, key: T -> real)
    requires SortedDesc(a, key) && SortedDesc(b, key) && a != []
    requires forall k :: WithKey(a, key, k) == WithKey(b, key, k)
    ensures b != [] && a[0] == b[0]
  {
    var ka := key(a[0]);
    WithKeyHead(a, key);
    assert WithKey(b, key, ka) == WithKey(a, key, ka);
    assert b != [];
    var kb := key(b[0]);
    WithKeyHead(b, key);
    assert WithKey(a, key, kb) == WithKey(b, key, kb);
    if ka > kb {
      WithKeyAbove(b, key, ka);
    } else if kb > ka {
      WithKeyAbove(a, key, kb);
    }
  }

  /** A sorted sequence is determined by its per-key subsequences: any two stable sorts of the same input agree. */
  lemma {:induction false} StableSortIsUnique<T>(a: seq<T>, b: seq<T>, key: T -> real)
    requires SortedDesc(a, key) && SortedDesc(b, key)
    requires forall k :: WithKey(a, key, k) == WithKey(b, key, k)
    ensures a == b
  {
    if a != [] {
      SameKeysSameHead(a, b, key);
      WithKeyHead(a, key);
      WithKeyHead(b, key);
      StableSortIsUnique(a[1..], b[1..], key);
      assert a == [a[0]] + a[1..] && b == [b[0]] + b[1..];
    } else if b != [] {
      SameKeysSameHead(b, a, key);
    }
  }

  /** Inserting where the scan from the right stops splits the sorted sequence at j. */
  lemma {:induction false} InsertAt<T>(t: seq<T>, x: T, key: T -> real, j: nat)
    requires j <= |t|
    requires forall i :: 0 <= i < j ==> key(t[i]) >= key(x)
    requires forall i :: j <= i < |t| ==> key(t[i]) < key(x)
    ensures Insert(t, x, key) == t[..j] + [x] + t[j..]
  {
    if j > 0 {
      InsertAt(t[1..], x, key, j - 1);
      assert t[..j] == [t[0]] + t[1..][..j - 1];
      assert t[j..] == t[1..][j - 1..];
    }
  }

  /** The array prefix left by one pass: t up to j, then x, then the rest of t shifted one place right. */
  lemma ShiftedPrefix<T>(b: seq<T>, t: seq<T>, x: T, j: nat)
    requires j <= |t| && |b| == |t| + 1
    requires forall m :: 0 <= m < j ==> b[m] == t[m]
    requires b[j] == x
    requires forall m :: j < m < |b| ==> b[m] == t[m - 1]
    ensures b == t[..j] + [x] + t[j..]
  {
  }

  /** One pass of the in-place insertion sort: a[i] moves left past every element of smaller key. */
  method InsertInPlace<T>(a: array<T>, i: nat, key: T -> real)
    requires i < a.Length && SortedDesc(a[..i], key)
    modifies a
    ensures a[..i + 1] == Insert(old(a[..i]), old(a[i]), key)
    ensures a[i + 1..] == old(a[i + 1..])
  {
    ghost var t := a[..i];
    var x := a[i];
    var j := i;
    while j > 0 && key(a[j - 1]) < key(x)
      invariant 0 <= j <= i
      invariant forall m :: 0 <= m < j ==> a[m] == t[m]
      invariant forall m :: j < m <= i ==> a[m] == t[m - 1]
      invariant forall m :: j <= m < i ==> key(t[m]) < key(x)
      invariant forall m :: i < m < a.Length ==> a[m] == old(a[m])
    {
      a[j] := a[j - 1];
      j := j - 1;
    }
    a[j] := x;
    ShiftedPrefix(a[..i + 1], t, x, j);
    InsertAt(t, x, key, j);
  }

  /** The in-place sort: insertion sort over the array. */
  method SortInPlace<T>(a: array<T>, key: T -> real)
    modifies a
    ensures a[..] == Sort(old(a[..]), key)
  {
    ghost var input := a[..];
    for i := 0 to a.Length
      invariant a[..i] == Sort(input[..i], key)
      invariant a[i..] == input[i..]
    {
      SortIsStableSort(input[..i], key);
      InsertInPlace(a, i, key);
      assert input[..i + 1] == input[..i] + [input[i]];
    }
    assert input[..a.Length] == input;
  }
}

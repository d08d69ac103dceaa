/** String order and stable sorting by a string key. */
module Sorting {
  import opened Lists

  /** Code-point order, which is the byte order of the UTF-8 encodings. */
  predicate LexLe(a: string, b: string) {
    a == "" || (b != "" && (a[0] < b[0] || (a[0] == b[0] && LexLe(a[1..], b[1..]))))
  }

  predicate LexLt(a: string, b: string) {
    LexLe(a, b) && a != b
  }

  lemma {:induction false} LexReflexive(a: string)
    ensures LexLe(a, a)
  {
    if a != "" {
      LexReflexive(a[1..]);
    }
  }

  lemma {:induction false} LexTotal(a: string, b: string)
    ensures LexLe(a, b) || LexLe(b, a)
  {
    if a != "" && b != "" && a[0] == b[0] {
      LexTotal(a[1..], b[1..]);
    }
  }

  lemma {:induction false} LexAntisymmetric(a: string, b: string)
    requires LexLe(a, b) && LexLe(b, a)
    ensures a == b
  {
    if a != "" {
      LexAntisymmetric(a[1..], b[1..]);
      assert a == [a[0]] + a[1..] && b == [b[0]] + b[1..];
    }
  }

  lemma {:induction false} LexTransitive(a: string, b: string, c: string)
    requires LexLe(a, b) && LexLe(b, c)
    ensures LexLe(a, c)
  {
    if a != "" && a[0] == b[0] && b[0] == c[0] {
      LexTransitive(a[1..], b[1..], c[1..]);
    }
  }

  /** The order is lexicographic: at the first difference, or when the first string ends. */
  lemma {:induction false} LexLeIff(a: string, b: string)
    ensures LexLe(a, b) <==>
            a <= b || exists k :: 0 <= k < |a| && k < |b| && a[..k] == b[..k] && a[k] < b[k]
  {
    if a != "" && b != "" {
      if a[0] != b[0] {
        assert a[..0] == b[..0];
        forall k | 0 < k < |a| && k < |b| ensures a[..k] != b[..k] {
          assert a[..k][0] != b[..k][0];
        }
      } else {
        LexLeIff(a[1..], b[1..]);
        TailsDiffer(a, b);
      }
    }
  }

  /** Strings with the same head compare as their tails do. */
  lemma TailsDiffer(a: string, b: string)
    requires a != "" && b != "" && a[0] == b[0]
    ensures a[1..] <= b[1..] <==> a <= b
    ensures (exists k :: 0 <= k < |a| && k < |b| && a[..k] == b[..k] && a[k] < b[k]) <==>
            exists k :: 0 <= k < |a[1..]| && k < |b[1..]| && a[1..][..k] == b[1..][..k] && a[1..][k] < b[1..][k]
  {
    if k :| 0 <= k < |a| && k < |b| && a[..k] == b[..k] && a[k] < b[k] {
      assert a[1..][..k - 1] == a[..k][1..] && b[1..][..k - 1] == b[..k][1..];
      assert a[1..][k - 1] == a[k] && b[1..][k - 1] == b[k];
    }
    if k :| 0 <= k < |a[1..]| && k < |b[1..]| && a[1..][..k] == b[1..][..k] && a[1..][k] < b[1..][k] {
      assert a[..k + 1] == [a[0]] + a[1..][..k] && b[..k + 1] == [b[0]] + b[1..][..k];
      assert a[k + 1] == a[1..][k] && b[k + 1] == b[1..][k];
    }
  }

  predicate Sorted<T>(s: seq<T>, key: T -> string) {
    forall i, j :: 0 <= i < j < |s| ==> LexLe(key(s[i]), key(s[j]))
  }

  /** `x` behind every element that is not greater. */
  function Insert<T>(s: seq<T>, x: T, key: T -> string): (r: seq<T>)
    ensures |r| == |s| + 1
  {
    if s == [] || LexLe(key(s[|s| - 1]), key(x)) then s + [x]
    else Insert(s[..|s| - 1], x, key) + [s[|s| - 1]]
  }

  function StableSort<T>(s: seq<T>, key: T -> string): (r: seq<T>)
    ensures |r| == |s|
  {
    if s == [] then [] else Insert(StableSort(s[..|s| - 1], key), s[|s| - 1], key)
  }

  /** The elements with a given key, in order. */
  function WithKey<T>(s: seq<T>, key: T -> string, k: string): (r: seq<T>)
    ensures |r| <= |s|
  {
    if s == [] then []
    else
      var last := s[|s| - 1];
      WithKey(s[..|s| - 1], key, k) + (if key(last) == k then [last] else [])
  }

  lemma {:induction false} InsertElements<T>(s: seq<T>, x: T, key: T -> string)
    ensures multiset(Insert(s, x, key)) == multiset(s) + multiset{x}
    decreases |s|
  {
    if !(s == [] || LexLe(key(s[|s| - 1]), key(x))) {
      InsertElements(s[..|s| - 1], x, key);
      assert s == s[..|s| - 1] + [s[|s| - 1]];
    }
  }

  lemma {:induction false} InsertSorted<T>(s: seq<T>, x: T, key: T -> string)
    requires Sorted(s, key)
    ensures Sorted(Insert(s, x, key), key)
    decreases |s|
  {
    if s != [] {
      var n := |s| - 1;
      LexTotal(key(s[n]), key(x));
      if LexLe(key(s[n]), key(x)) {
        forall i | 0 <= i < |s| ensures LexLe(key(s[i]), key(x)) {
          if i < n {
            LexTransitive(key(s[i]), key(s[n]), key(x));
          }
        }
      } else {
        InsertSorted(s[..n], x, key);
        InsertElements(s[..n], x, key);
        var r := Insert(s[..n], x, key);
        forall i | 0 <= i < |r| ensures LexLe(key(r[i]), key(s[n])) {
          assert r[i] in multiset(s[..n]) + multiset{x};
        }
      }
    }
  }

  lemma {:induction false} StableSortIsSorted<T>(s: seq<T>, key: T -> string)
    ensures Sorted(StableSort(s, key), key)
    decreases |s|
  {
    if s != [] {
      StableSortIsSorted(s[..|s| - 1], key);
      InsertSorted(StableSort(s[..|s| - 1], key), s[|s| - 1], key);
    }
  }

  lemma {:induction false} StableSortElements<T>(s: seq<T>, key: T -> string)
    ensures multiset(StableSort(s, key)) == multiset(s)
    decreases |s|
  {
    if s != [] {
      StableSortElements(s[..|s| - 1], key);
      InsertElements(StableSort(s[..|s| - 1], key), s[|s| - 1], key);
      assert s == s[..|s| - 1] + [s[|s| - 1]];
    }
  }

  lemma WithKeySnoc<T>(s: seq<T>, x: T, key: T -> string, k: string)
    ensures WithKey(s + [x], key, k) == WithKey(s, key, k) + (if key(x) == k then [x] else [])
  {
    assert (s + [x])[..|s|] == s;
  }

  lemma {:induction false} InsertIsStable<T>(s: seq<T>, x: T, key: T -> string, k: string)
    requires Sorted(s, key)
    ensures WithKey(Insert(s, x, key), key, k) == WithKey(s, key, k) + (if key(x) == k then [x] else [])
    decreases |s|
  {
    if s == [] || LexLe(key(s[|s| - 1]), key(x)) {
      WithKeySnoc(s, x, key, k);
    } else {
      var n := |s| - 1;
      InsertIsStable(s[..n], x, key, k);
      WithKeySnoc(Insert(s[..n], x, key), s[n], key, k);
      LexReflexive(key(x));
    }
  }

  /** Equal keys keep their order. */
  lemma {:induction false} StableSortIsStable<T>(s: seq<T>, key: T -> string, k: string)
    ensures WithKey(StableSort(s, key), key, k) == WithKey(s, key, k)
    decreases |s|
  {
    if s != [] {
      var n := |s| - 1;
      StableSortIsStable(s[..n], key, k);
      StableSortIsSorted(s[..n], key);
      InsertIsStable(StableSort(s[..n], key), s[n], key, k);
    }
  }

  lemma {:induction false} WithKeyPresent<T>(s: seq<T>, key: T -> string, k: string)
    ensures WithKey(s, key, k) != [] ==> exists i :: 0 <= i < |s| && key(s[i]) == k
    decreases |s|
  {
    if s != [] && key(s[|s| - 1]) != k {
      WithKeyPresent(s[..|s| - 1], key, k);
    }
  }

  lemma WithKeyLast<T>(s: seq<T>, key: T -> string)
    requires s != []
    ensures var w := WithKey(s, key, key(s[|s| - 1])); w != [] && w[|w| - 1] == s[|s| - 1]
  {
  }

  /** The last key of a sorted list is the greatest. */
  lemma KeyBelowLast<T>(s: seq<T>, key: T -> string, k: string)
    requires s != [] && Sorted(s, key) && WithKey(s, key, k) != []
    ensures LexLe(k, key(s[|s| - 1]))
  {
    WithKeyPresent(s, key, k);
    LexReflexive(k);
  }

  /** Two sorted lists with the same elements in the same order under every key have the same last element. */
  lemma SameLast<T>(a: seq<T>, b: seq<T>, key: T -> string)
    requires a != [] && b != [] && Sorted(a, key) && Sorted(b, key)
    requires forall k :: WithKey(a, key, k) == WithKey(b, key, k)
    ensures a[|a| - 1] == b[|b| - 1]
  {
    WithKeyLast(a, key);
    WithKeyLast(b, key);
    KeyBelowLast(b, key, key(a[|a| - 1]));
    KeyBelowLast(a, key, key(b[|b| - 1]));
    LexAntisymmetric(key(a[|a| - 1]), key(b[|b| - 1]));
  }

  lemma BothEmpty<T>(a: seq<T>, b: seq<T>, key: T -> string)
    requires forall k :: WithKey(a, key, k) == WithKey(b, key, k)
    ensures a == [] <==> b == []
  {
    if a != [] {
      WithKeyLast(a, key);
    }
    if b != [] {
      WithKeyLast(b, key);
    }
  }

  /** Every stable sort gives this result: a sorted list that keeps the order of equal keys is determined. */
  lemma {:induction false} SortedIsUnique<T>(a: seq<T>, b: seq<T>, key: T -> string)
    requires Sorted(a, key) && Sorted(b, key)
    requires forall k :: WithKey(a, key, k) == WithKey(b, key, k)
    ensures a == b
    decreases |a|
  {
    BothEmpty(a, b, key);
    if a != [] {
      SameLast(a, b, key);
      var m, n := |a| - 1, |b| - 1;
      forall k ensures WithKey(a[..m], key, k) == WithKey(b[..n], key, k) {
        var tail := if key(a[m]) == k then [a[m]] else [];
        assert WithKey(a, key, k) == WithKey(b, key, k);
        assert WithKey(a[..m], key, k) + tail == WithKey(b[..n], key, k) + tail;
        SameTail(WithKey(a[..m], key, k), WithKey(b[..n], key, k), tail);
      }
      SortedIsUnique(a[..m], b[..n], key);
      assert a == a[..m] + [a[m]] && b == b[..n] + [b[n]];
    }
  }

  lemma SameTail<T>(a: seq<T>, b: seq<T>, tail: seq<T>)
    requires a + tail == b + tail
    ensures a == b
  {
    assert |a| == |b|;
    assert a == (a + tail)[..|a|];
    assert b == (b + tail)[..|b|];
  }

  lemma {:induction false} WithKeyOfDistinct<T>(s: seq<T>, key: T -> string, x: T)
    requires DistinctKeys(s, key) && x in s
    ensures WithKey(s, key, key(x)) == [x]
    decreases |s|
  {
    var n := |s| - 1;
    if s[n] == x {
      WithKeyPresent(s[..n], key, key(x));
    } else {
      assert x in s[..n];
      WithKeyOfDistinct(s[..n], key, x);
      var i :| 0 <= i < n && s[i] == x;
    }
  }

  /** With distinct keys the sorted order depends only on which elements there are. */
  lemma SortOfDistinct<T>(s: seq<T>, t: seq<T>, key: T -> string)
    requires DistinctKeys(s, key) && DistinctKeys(t, key)
    requires forall x :: x in s <==> x in t
    ensures StableSort(s, key) == StableSort(t, key)
  {
    forall k ensures WithKey(StableSort(s, key), key, k) == WithKey(StableSort(t, key), key, k) {
      StableSortIsStable(s, key, k);
      StableSortIsStable(t, key, k);
      WithKeyPresent(s, key, k);
      WithKeyPresent(t, key, k);
      if i :| 0 <= i < |s| && key(s[i]) == k {
        WithKeyOfDistinct(s, key, s[i]);
        WithKeyOfDistinct(t, key, s[i]);
      } else if j :| 0 <= j < |t| && key(t[j]) == k {
        assert t[j] in s;
      }
    }
    StableSortIsSorted(s, key);
    StableSortIsSorted(t, key);
    SortedIsUnique(StableSort(s, key), StableSort(t, key), key);
  }
}

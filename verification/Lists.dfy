/** Lists whose elements carry a string key: which keys occur, and the first occurrence of each. */
module Lists {

  predicate DistinctKeys<T>(s: seq<T>, key: T -> string) {
    forall i, j :: 0 <= i < j < |s| ==> key(s[i]) != key(s[j])
  }

  predicate HasKey<T>(s: seq<T>, key: T -> string, k: string) {
    exists i :: 0 <= i < |s| && key(s[i]) == k
  }

  /** The elements whose key did not occur before, in order. */
  function FirstOf<T>(s: seq<T>, key: T -> string): seq<T> {
    if s == [] then []
    else
      var last := s[|s| - 1];
      FirstOf(s[..|s| - 1], key) + (if HasKey(s[..|s| - 1], key, key(last)) then [] else [last])
  }

  lemma {:induction false} FirstOfKeys<T>(s: seq<T>, key: T -> string, k: string)
    ensures HasKey(FirstOf(s, key), key, k) <==> HasKey(s, key, k)
  {
    if s != [] {
      var n := |s| - 1;
      var init, rest := s[..n], FirstOf(s[..n], key);
      FirstOfKeys(init, key, k);
      if i :| 0 <= i < |rest| && key(rest[i]) == k {
        assert FirstOf(s, key)[i] == rest[i];
      }
      if i :| 0 <= i < |init| && key(init[i]) == k {
        assert s[i] == init[i];
      }
      if key(s[n]) == k && !HasKey(init, key, k) {
        assert FirstOf(s, key)[|rest|] == s[n];
      }
    }
  }

  lemma {:induction false} FirstOfDistinct<T>(s: seq<T>, key: T -> string)
    ensures DistinctKeys(FirstOf(s, key), key)
  {
    if s != [] {
      var n := |s| - 1;
      FirstOfDistinct(s[..n], key);
      FirstOfKeys(s[..n], key, key(s[n]));
    }
  }

  lemma {:induction false} FirstOfPrefix<T>(a: seq<T>, b: seq<T>, key: T -> string)
    ensures FirstOf(a, key) <= FirstOf(a + b, key)
    decreases |b|
  {
    if b == [] {
      assert a + b == a;
    } else {
      FirstOfPrefix(a, b[..|b| - 1], key);
      assert (a + b)[..|a + b| - 1] == a + b[..|b| - 1];
    }
  }

  function Itself(h: string): string {
    h
  }

  lemma FirstOfSnoc<T>(s: seq<T>, x: T, key: T -> string)
    ensures forall k :: HasKey(s + [x], key, k) <==> HasKey(s, key, k) || k == key(x)
    ensures FirstOf(s + [x], key) == FirstOf(s, key) + (if HasKey(s, key, key(x)) then [] else [x])
  {
    HasKeySnoc(s, x, key);
    assert (s + [x])[..|s|] == s;
  }

  lemma HasKeySnoc<T>(s: seq<T>, x: T, key: T -> string)
    ensures forall k :: HasKey(s + [x], key, k) <==> HasKey(s, key, k) || k == key(x)
  {
    forall k ensures HasKey(s + [x], key, k) <==> HasKey(s, key, k) || k == key(x) {
      if i :| 0 <= i < |s| && key(s[i]) == k {
        assert (s + [x])[i] == s[i];
      }
      assert (s + [x])[|s|] == x;
    }
  }
}

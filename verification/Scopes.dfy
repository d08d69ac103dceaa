/**
 Rule-group scopes: normalisation, matching, and the label walk that looks a host up.

 `=host` covers that host only; a bare domain covers itself and everything below it. Whether
 a bare domain is registrable is a question for the public-suffix list, here a parameter.
 */
module Scopes {
  import opened Wrappers
  import opened Text

  type Registrable = string -> bool

  predicate HostChar(c: char) {
    'a' <= c <= 'z' || '0' <= c <= '9' || c == '.' || c == '-'
  }

  predicate GoodLabel(l: string) {
    l != "" && |l| <= 63 && l[0] != '-' && l[|l| - 1] != '-'
  }

  predicate GoodHost(host: string) {
    && host != "" && |host| <= 253 && !Contains(host, "..")
    && (forall i :: 0 <= i < |host| ==> HostChar(host[i]))
    && (forall i :: 0 <= i < |Split(host, '.')| ==> GoodLabel(Split(host, '.')[i]))
  }

  function NormalizeDomain(input: string, psl: Registrable): Option<string> {
    Checked(StripDot(Lower(Trim(input))), psl)
  }

  /** A cleaned-up text as a scope, if it is one. */
  function Checked(raw: string, psl: Registrable): Option<string> {
    var exact := HasPrefix(raw, "=");
    var host := if exact then raw[1..] else raw;
    if !GoodHost(host) then None
    else if !exact && !psl(host) then None
    else Some(if exact then "=" + host else host)
  }

  predicate IsExact(scope: string) {
    HasPrefix(scope, "=")
  }

  /** The host part of a scope. */
  function ScopeHost(scope: string): string {
    if IsExact(scope) then scope[1..] else scope
  }

  /** Lower case, without a trailing dot. */
  function Key(host: string): string {
    StripDot(Lower(host))
  }

  /** Equality, or a proper subdomain. */
  predicate Under(key: string, value: string) {
    key == value || HasSuffix(key, "." + value)
  }

  /** A normalised scope covers a host key. */
  predicate Covers(scope: string, key: string) {
    if IsExact(scope) then key == ScopeHost(scope) else Under(key, scope)
  }

  predicate MatchesDomain(host: string, domain: string, psl: Registrable) {
    var n := NormalizeDomain(domain, psl);
    n.Some? && Covers(n.value, Key(host))
  }

  // ---- normalisation is idempotent

  lemma {:induction false} LowerOfHost(s: string)
    requires forall i :: 0 <= i < |s| ==> HostChar(s[i]) || s[i] == '='
    ensures Lower(s) == s
  {
    if s != "" {
      LowerOfHost(s[1..]);
    }
  }

  /** Text ending in the separator has an empty last piece. */
  lemma {:induction false} SplitEndsEmpty(s: string, c: char)
    requires s != "" && s[|s| - 1] == c
    ensures Split(s, c)[|Split(s, c)| - 1] == ""
  {
    if |s| > 1 {
      SplitEndsEmpty(s[1..], c);
    } else {
      assert s[1..] == "";
    }
  }

  lemma GoodHostNoTrailingDot(host: string)
    requires GoodHost(host)
    ensures host[|host| - 1] != '.'
  {
    assert GoodLabel(Split(host, '.')[|Split(host, '.')| - 1]);
    if host[|host| - 1] == '.' {
      SplitEndsEmpty(host, '.');
    }
  }

  /** Cleaning up text that is already a scope changes nothing. */
  lemma CleanScope(scope: string)
    requires GoodHost(ScopeHost(scope))
    ensures StripDot(Lower(Trim(scope))) == scope
  {
    GoodHostNoTrailingDot(ScopeHost(scope));
    ScopeChars(scope);
    LowerOfHost(scope);
    TrimIdentity(scope);
  }

  lemma ScopeChars(scope: string)
    requires GoodHost(ScopeHost(scope))
    ensures forall i :: 0 <= i < |scope| ==> HostChar(scope[i]) || scope[i] == '='
    ensures scope != "" && !IsSpace(scope[0]) && !IsSpace(scope[|scope| - 1])
    ensures scope[|scope| - 1] == ScopeHost(scope)[|ScopeHost(scope)| - 1]
  {
    var host := ScopeHost(scope);
    assert HostChar(host[|host| - 1]) && HostChar(host[0]);
    assert forall i :: 0 <= i < |scope| ==> scope[i] == '=' || scope[i] in host;
  }

  lemma NormalizeIdempotent(input: string, psl: Registrable)
    requires NormalizeDomain(input, psl).Some?
    ensures NormalizeDomain(NormalizeDomain(input, psl).value, psl) == NormalizeDomain(input, psl)
  {
    var raw := StripDot(Lower(Trim(input)));
    assert NormalizeDomain(input, psl).value == raw;
    CleanScope(raw);
  }

  /** Only `=` scopes start with `=`, and a scope's host is well formed. */
  lemma NormalizedShape(input: string, psl: Registrable)
    requires NormalizeDomain(input, psl).Some?
    ensures GoodHost(ScopeHost(NormalizeDomain(input, psl).value))
    ensures !IsExact(ScopeHost(NormalizeDomain(input, psl).value))
  {
    var scope := NormalizeDomain(input, psl).value;
    var raw := StripDot(Lower(Trim(input)));
    assert scope == raw;
    assert GoodHost(ScopeHost(scope));
    assert HostChar(ScopeHost(scope)[0]);
  }

  // ---- the label walk

  /** The key from its i-th label on. */
  function Tail(key: string, i: nat): string
    requires i < |Split(key, '.')|
  {
    Join(Split(key, '.')[i..], '.')
  }

  /** Prepending a character to the pieces of a text. */
  function Prepend(x: char, pieces: seq<string>, c: char): seq<string>
    requires pieces != []
  {
    if x == c then [""] + pieces else [[x] + pieces[0]] + pieces[1..]
  }

  lemma SplitUnfold(s: string, c: char)
    requires s != ""
    ensures Split(s, c) == Prepend(s[0], Split(s[1..], c), c)
  {
  }

  lemma PrependConcat(x: char, xs: seq<string>, ys: seq<string>, c: char)
    requires xs != []
    ensures Prepend(x, xs + ys, c) == Prepend(x, xs, c) + ys
  {
  }

  lemma {:induction false} SplitConcat(a: string, b: string, c: char)
    ensures Split(a + [c] + b, c) == Split(a, c) + Split(b, c)
    decreases |a|
  {
    var s := a + [c] + b;
    SplitUnfold(s, c);
    if a == "" {
      assert s[1..] == b;
    } else {
      assert s[1..] == a[1..] + [c] + b && s[0] == a[0];
      SplitConcat(a[1..], b, c);
      SplitUnfold(a, c);
      PrependConcat(a[0], Split(a[1..], c), Split(b, c), c);
    }
  }

  lemma {:induction false} JoinConcat(xs: seq<string>, ys: seq<string>, c: char)
    requires xs != [] && ys != []
    ensures Join(xs + ys, c) == Join(xs, c) + [c] + Join(ys, c)
  {
    if |xs| == 1 {
      assert (xs + ys)[1..] == ys;
    } else {
      JoinConcat(xs[1..], ys, c);
      assert (xs + ys)[1..] == xs[1..] + ys;
    }
  }

  /** The tails of a key are exactly the values it is equal to or under. */
  lemma UnderIffTail(key: string, value: string)
    ensures Under(key, value) <==> exists i :: 0 <= i < |Split(key, '.')| && Tail(key, i) == value
  {
    var labels := Split(key, '.');
    if key == value {
      JoinSplit(key, '.');
      assert labels[0..] == labels;
      assert Tail(key, 0) == value;
    } else if HasSuffix(key, "." + value) {
      var pre := key[..|key| - |value| - 1];
      assert key == pre + ['.'] + value;
      SplitConcat(pre, value, '.');
      var i := |Split(pre, '.')|;
      assert labels[i..] == Split(value, '.');
      JoinSplit(value, '.');
      assert Tail(key, i) == value;
    }
    if i :| 0 <= i < |labels| && Tail(key, i) == value {
      TailUnder(key, i);
    }
  }

  lemma TailUnder(key: string, i: nat)
    requires i < |Split(key, '.')|
    ensures Under(key, Tail(key, i))
  {
    var labels := Split(key, '.');
    JoinSplit(key, '.');
    if i == 0 {
      assert labels[0..] == labels;
    } else {
      assert labels[..i] + labels[i..] == labels;
      TailBehind(key, labels[..i], labels[i..]);
    }
  }

  lemma TailBehind(key: string, front: seq<string>, back: seq<string>)
    requires front != [] && back != [] && key == Join(front + back, '.')
    ensures HasSuffix(key, "." + Join(back, '.'))
  {
    JoinConcat(front, back, '.');
    assert key == Join(front, '.') + ("." + Join(back, '.'));
  }

  /** Later tails are strictly shorter, so the first hit of the walk is the longest. */
  lemma TailsShrink(key: string, i: nat, j: nat)
    requires i < j < |Split(key, '.')|
    ensures |Tail(key, j)| < |Tail(key, i)|
  {
    var labels := Split(key, '.');
    JoinConcat(labels[i..j], labels[j..], '.');
    assert labels[i..j] + labels[j..] == labels[i..];
  }

  /** Two values a key lies under are equal when they are equally long. */
  lemma UnderSameLength(key: string, a: string, b: string)
    requires Under(key, a) && Under(key, b) && |a| == |b|
    ensures a == b
  {
    assert forall v :: Under(key, v) ==> |v| <= |key| && key[|key| - |v|..] == v by {
      forall v | Under(key, v)
        ensures |v| <= |key| && key[|key| - |v|..] == v
      {
        if HasSuffix(key, "." + v) {
          assert key[|key| - |v| - 1..][1..] == v;
        }
      }
    }
  }
}

/**
 Which texts are scopes: hosts as labels between dots, the forms a scope may be typed in, and what each
 scope covers.
 */
module ScopeText {
  import opened Wrappers
  import opened Text
  import opened Scopes

  /** One to 63 letters, digits and hyphens, with no hyphen at either end. */
  predicate IsLabel(l: string) {
    && 1 <= |l| <= 63 && l[0] != '-' && l[|l| - 1] != '-'
    && forall i :: 0 <= i < |l| ==> 'a' <= l[i] <= 'z' || '0' <= l[i] <= '9' || l[i] == '-'
  }

  /** At most 253 characters: labels between dots. */
  predicate IsHost(host: string, labels: seq<string>) {
    && labels != [] && host == Join(labels, '.') && |host| <= 253
    && forall i :: 0 <= i < |labels| ==> IsLabel(labels[i])
  }

  lemma {:induction false} SplitChars(s: string, c: char)
    ensures forall i, j :: 0 <= i < |Split(s, c)| && 0 <= j < |Split(s, c)[i]| ==> Split(s, c)[i][j] in s
  {
    if s != "" {
      SplitChars(s[1..], c);
    }
  }

  lemma {:induction false} JoinChars(labels: seq<string>)
    requires forall i :: 0 <= i < |labels| ==> IsLabel(labels[i])
    ensures forall j :: 0 <= j < |Join(labels, '.')| ==> HostChar(Join(labels, '.')[j])
  {
    if |labels| > 1 {
      JoinChars(labels[1..]);
      CharsOf(labels[0], Join(labels[1..], '.'));
    }
  }

  lemma CharsOf(front: string, rest: string)
    requires IsLabel(front) && forall j :: 0 <= j < |rest| ==> HostChar(rest[j])
    ensures forall j :: 0 <= j < |front + ['.'] + rest| ==> HostChar((front + ['.'] + rest)[j])
  {
  }

  /** Two dots in a row make an empty piece. */
  lemma TwoDots(s: string, i: nat)
    requires i + 1 < |s| && s[i] == '.' && s[i + 1] == '.'
    ensures "" in Split(s, '.')
  {
    var a, b := s[..i], s[i + 1..];
    assert s == a + ['.'] + b;
    SplitConcat(a, b, '.');
    EmptyHead(b);
    assert Split(b, '.')[0] in Split(a, '.') + Split(b, '.');
  }

  lemma EmptyHead(b: string)
    requires b != "" && b[0] == '.'
    ensures Split(b, '.')[0] == ""
  {
  }

  lemma HostIsGood(host: string, labels: seq<string>)
    requires IsHost(host, labels)
    ensures GoodHost(host) && host[0] != '='
  {
    SplitJoin(labels, '.');
    JoinChars(labels);
    assert IsLabel(labels[0]);
    JoinNotEmpty(labels);
    if i :| 0 <= i <= |host| - 2 && OccursAt(host, "..", i) {
      assert host[i..i + 2][0] == '.' && host[i..i + 2][1] == '.';
      TwoDots(host, i);
      assert false;
    }
  }

  lemma JoinNotEmpty(labels: seq<string>)
    requires labels != [] && labels[0] != ""
    ensures Join(labels, '.') != "" && Join(labels, '.')[0] == labels[0][0]
  {
  }

  /** Main result: exactly which hosts are well formed. */
  lemma GoodHostIff(host: string)
    ensures GoodHost(host) <==> exists labels :: IsHost(host, labels)
  {
    if GoodHost(host) {
      var labels := Split(host, '.');
      JoinSplit(host, '.');
      SplitChars(host, '.');
      forall i | 0 <= i < |labels| ensures IsLabel(labels[i]) {
        assert GoodLabel(labels[i]);
        forall j | 0 <= j < |labels[i]| ensures labels[i][j] != '.' && HostChar(labels[i][j]) {
          assert labels[i][j] in host;
        }
      }
      assert IsHost(host, labels);
    }
    if labels :| IsHost(host, labels) {
      HostIsGood(host, labels);
    }
  }

  // ---- typed forms

  /** White space, the host in any case with `=` before it or not and a dot after it or not, white space. */
  predicate Typed(input: string, a: string, text: string, b: string, sign: string, host: string, dot: string) {
    && AllIn(a, White) && AllIn(b, White) && input == a + text + b && Lower(text) == sign + host + dot
    && (sign == "" || sign == "=") && (dot == "" || dot == ".")
  }

  /** Main result: exactly which inputs are accepted, and what they become: the bare host if it is registrable, and with
      `=` any host. */
  lemma NormalizeIff(input: string, psl: Registrable, scope: string)
    ensures NormalizeDomain(input, psl) == Some(scope) <==>
            exists a, text, b, sign, host, dot ::
              Typed(input, a, text, b, sign, host, dot) && Accepted(sign, host, scope, psl)
  {
    if NormalizeDomain(input, psl) == Some(scope) {
      var sign, host := AcceptedForm(Cleaned(input), psl, scope);
      var a, text, b, dot := CleanedFrom(input);
      assert Lower(text) == sign + host + dot;
      assert Typed(input, a, text, b, sign, host, dot);
    }
    forall a, text, b, sign, host, dot | Typed(input, a, text, b, sign, host, dot) && Accepted(sign, host, scope, psl)
      ensures NormalizeDomain(input, psl) == Some(scope)
    {
      AcceptedChecks(sign, host, scope, psl);
      CleanedTo(input, a, text, b, scope, dot);
    }
  }

  predicate Accepted(sign: string, host: string, scope: string, psl: Registrable) {
    (sign == "" || sign == "=") && GoodHost(host) && scope == sign + host && (sign == "=" || psl(host))
  }

  function Cleaned(input: string): string {
    StripDot(Lower(Trim(input)))
  }

  lemma AcceptedForm(raw: string, psl: Registrable, scope: string) returns (sign: string, host: string)
    requires Checked(raw, psl) == Some(scope)
    ensures raw == scope && Accepted(sign, host, scope, psl)
  {
    sign, host := if "=" <= raw then "=" else "", if "=" <= raw then raw[1..] else raw;
    assert raw == sign + host;
  }

  lemma AcceptedChecks(sign: string, host: string, scope: string, psl: Registrable)
    requires Accepted(sign, host, scope, psl)
    ensures Checked(scope, psl) == Some(scope)
    ensures scope != "" && scope[0] !in White && scope[|scope| - 1] !in White && scope[|scope| - 1] != '.'
  {
    GoodEnds(host);
    WhiteIs();
    if sign == "=" {
      assert scope[1..] == host;
    } else {
      assert scope == host;
    }
  }

  lemma CleanedFrom(input: string) returns (a: string, text: string, b: string, dot: string)
    ensures AllIn(a, White) && AllIn(b, White) && input == a + text + b
    ensures Lower(text) == Cleaned(input) + dot && (dot == "" || dot == ".")
  {
    text := Trim(input);
    a, b := Margins(input);
    dot := Stripped(Lower(text));
  }

  lemma Stripped(s: string) returns (dot: string)
    ensures s == StripDot(s) + dot && (dot == "" || dot == ".")
  {
    dot := if s != "" && s[|s| - 1] == '.' then "." else "";
  }

  lemma CleanedTo(input: string, a: string, text: string, b: string, scope: string, dot: string)
    requires AllIn(a, White) && AllIn(b, White) && input == a + text + b
    requires Lower(text) == scope + dot && (dot == "" || dot == ".")
    requires scope != "" && scope[0] !in White && scope[|scope| - 1] !in White && scope[|scope| - 1] != '.'
    ensures Cleaned(input) == scope
  {
    DotStrips(scope, dot);
    LowerEnds(text, scope + dot);
    TrimStrips(a, text, b);
  }

  lemma DotStrips(scope: string, dot: string)
    requires (dot == "" || dot == ".")
    requires scope != "" && scope[0] !in White && scope[|scope| - 1] !in White && scope[|scope| - 1] != '.'
    ensures StripDot(scope + dot) == scope
    ensures (scope + dot)[0] !in White && (scope + dot)[|scope + dot| - 1] !in White
  {
    assert dot == "" ==> scope + dot == scope;
    assert (scope + ".")[..|scope|] == scope;
  }

  lemma GoodEnds(host: string)
    requires GoodHost(host)
    ensures host != "" && host[0] !in White && host[0] != '=' && host[|host| - 1] !in White && host[|host| - 1] != '.'
  {
    GoodHostNoTrailingDot(host);
    assert HostChar(host[0]) && HostChar(host[|host| - 1]);
    WhiteIs();
  }

  lemma LowerEnds(text: string, lower: string)
    requires lower == Lower(text) && lower != "" && lower[0] !in White && lower[|lower| - 1] !in White
    ensures text != "" && text[0] !in White && text[|text| - 1] !in White
  {
    EndsAlike(text, lower);
  }

  lemma EndsAlike(text: string, lower: string)
    requires text != "" && |lower| == |text| && forall i :: 0 <= i < |text| ==> lower[i] == LowerChar(text[i])
    requires lower[0] !in White && lower[|lower| - 1] !in White
    ensures text[0] !in White && text[|text| - 1] !in White
  {
    LowerWhite(text[0]);
    LowerWhite(text[|text| - 1]);
  }

  lemma LowerWhite(c: char)
    ensures LowerChar(c) in White <==> c in White
  {
    WhiteIs();
  }

  // ---- what scopes cover

  /** Main result: `=host` covers that host alone, a bare scope itself and whatever ends in a dot and it. */
  lemma CoversIff(scope: string, key: string)
    ensures Covers(scope, key) <==>
            || scope == "=" + key
            || (!("=" <= scope) && (key == scope || exists x :: key == x + "." + scope))
  {
    if HasSuffix(key, "." + scope) {
      assert key == key[..|key| - |scope| - 1] + "." + scope;
    }
    if x :| key == x + "." + scope {
      assert key == x + ("." + scope);
    }
    assert "=" <= scope ==> scope == "=" + scope[1..];
    assert ("=" + key)[1..] == key;
  }

  /** A host is looked up in lower case and without a trailing dot. */
  lemma KeyIff(host: string, key: string)
    ensures Key(host) == key <==> Lower(host) == key + "." || (Lower(host) == key && !HasSuffix(key, "."))
  {
    var s := Lower(host);
    if s != "" && s[|s| - 1] == '.' {
      assert s == s[..|s| - 1] + ".";
      assert key + "." == s ==> key == s[..|s| - 1];
    }
    if s == key + "." {
      assert s[|s| - 1] == '.' && s[..|s| - 1] == key;
    }
  }
}

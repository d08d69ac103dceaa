/** String operations of the source languages, on ASCII text. */
module Text {

  predicate IsSpace(c: char) {
    c == ' ' || c == '\t' || c == '\n' || c == '\r' || c == '\U{000B}' || c == '\U{000C}'
  }

  function LowerChar(c: char): char {
    if 'A' <= c <= 'Z' then (c as int + 32) as char else c
  }

  function Lower(s: string): (r: string)
    ensures |r| == |s| && forall i :: 0 <= i < |s| ==> r[i] == LowerChar(s[i])
  {
    if s == "" then "" else [LowerChar(s[0])] + Lower(s[1..])
  }

  function TrimLeft(s: string): (r: string)
    ensures |r| <= |s|
    ensures r != "" ==> !IsSpace(r[0])
  {
    if s != "" && IsSpace(s[0]) then TrimLeft(s[1..]) else s
  }

  function TrimRight(s: string): (r: string)
    ensures r <= s
    ensures r != "" ==> !IsSpace(r[|r| - 1])
  {
    if s != "" && IsSpace(s[|s| - 1]) then TrimRight(s[..|s| - 1]) else s
  }

  function Trim(s: string): (r: string)
    ensures r != "" ==> !IsSpace(r[0]) && !IsSpace(r[|r| - 1])
  {
    TrimRight(TrimLeft(s))
  }

  lemma TrimIdentity(s: string)
    requires s != "" ==> !IsSpace(s[0]) && !IsSpace(s[|s| - 1])
    ensures Trim(s) == s
  {
  }

  lemma TrimIdempotent(s: string)
    ensures Trim(Trim(s)) == Trim(s)
  {
    TrimIdentity(Trim(s));
  }

  /** The white space of the source languages. */
  const White := " \t\n\r\U{000B}\U{000C}"

  predicate AllIn(s: string, chars: string) {
    forall i :: 0 <= i < |s| ==> s[i] in chars
  }

  lemma WhiteIs()
    ensures forall c: char :: c in White <==> IsSpace(c)
  {
  }

  lemma SpaceIff(s: string)
    ensures AllIn(s, White) <==> forall i :: 0 <= i < |s| ==> IsSpace(s[i])
  {
    WhiteIs();
  }

  /** Trimming takes the white space off both ends and nothing else. */
  lemma TrimIff(s: string, r: string)
    ensures Trim(s) == r <==>
            && (r != "" ==> r[0] !in White && r[|r| - 1] !in White)
            && exists a, b :: AllIn(a, White) && AllIn(b, White) && s == a + r + b
  {
    var a, b := Margins(s);
    forall a, b | AllIn(a, White) && AllIn(b, White) && s == a + r + b &&
                  (r != "" ==> r[0] !in White && r[|r| - 1] !in White)
      ensures Trim(s) == r
    {
      TrimStrips(a, r, b);
    }
  }

  lemma Margins(s: string) returns (a: string, b: string)
    ensures AllIn(a, White) && AllIn(b, White) && s == a + Trim(s) + b
  {
    a := LeftMargin(s);
    b := RightMargin(TrimLeft(s));
  }

  lemma {:induction false} LeftMargin(s: string) returns (a: string)
    ensures AllIn(a, White) && s == a + TrimLeft(s)
  {
    a := "";
    if s != "" && IsSpace(s[0]) {
      var rest := LeftMargin(s[1..]);
      a := [s[0]] + rest;
    }
  }

  lemma {:induction false} RightMargin(s: string) returns (b: string)
    ensures AllIn(b, White) && s == TrimRight(s) + b
  {
    b := "";
    if s != "" && IsSpace(s[|s| - 1]) {
      var rest := RightMargin(s[..|s| - 1]);
      b := rest + [s[|s| - 1]];
      assert s == s[..|s| - 1] + [s[|s| - 1]];
    }
  }

  lemma {:induction false} TrimStrips(a: string, r: string, b: string)
    requires AllIn(a, White) && AllIn(b, White)
    requires r != "" ==> r[0] !in White && r[|r| - 1] !in White
    ensures Trim(a + r + b) == r
    decreases |a| + |b|
  {
    var s := a + r + b;
    if a != "" {
      TrimStrips(a[1..], r, b);
      assert s[0] == a[0] && s[1..] == a[1..] + r + b;
    } else if r == "" {
      SpaceIff(b);
      if b != "" {
        TrimStrips(b[1..], r, "");
        assert s[1..] == b[1..] + r + "";
      }
    } else {
      assert s == r + b && s[0] == r[0];
      WhiteIs();
      StripRight(r, b);
    }
  }

  lemma {:induction false} StripRight(r: string, b: string)
    requires AllIn(b, White) && r != "" && r[|r| - 1] !in White
    ensures TrimRight(r + b) == r
  {
    if b == "" {
      assert r + b == r;
    } else {
      assert (r + b)[|r + b| - 1] == b[|b| - 1] && (r + b)[..|r + b| - 1] == r + b[..|b| - 1];
      StripRight(r, b[..|b| - 1]);
    }
  }

  /** Lower-casing changes the 26 capital letters and no other. */
  lemma LowerIs(s: string, i: nat)
    requires i < |s|
    ensures if 'A' <= s[i] <= 'Z' then 'a' <= Lower(s)[i] <= 'z' &&
            Lower(s)[i] as int - 'a' as int == s[i] as int - 'A' as int
            else Lower(s)[i] == s[i]
  {
  }

  lemma {:induction false} BeforeIff(s: string, c: char, r: string)
    ensures Before(s, c) == r <==> r <= s && c !in r && (|r| < |s| ==> s[|r|] == c)
  {
    if s != "" && s[0] != c {
      if r != "" && r[0] == s[0] {
        BeforeIff(s[1..], c, r[1..]);
        assert r == [r[0]] + r[1..];
        assert r <= s <==> r[1..] <= s[1..];
      }
    }
  }

  /** Everything before the first `c`. */
  function Before(s: string, c: char): string {
    if s == "" || s[0] == c then "" else [s[0]] + Before(s[1..], c)
  }

  /** The maximal runs of non-space characters. */
  function Fields(s: string): seq<string>
    decreases |s|
  {
    var t := TrimLeft(s);
    if t == "" then []
    else
      var n := WordLength(t);
      [t[..n]] + Fields(t[n..])
  }

  function WordLength(s: string): (n: nat)
    ensures n <= |s|
    ensures forall i :: 0 <= i < n ==> !IsSpace(s[i])
    ensures n < |s| ==> IsSpace(s[n])
    ensures s != "" && !IsSpace(s[0]) ==> n > 0
  {
    if s == "" || IsSpace(s[0]) then 0 else 1 + WordLength(s[1..])
  }

  /** The words of a text, in order: what lies between stretches of white space. */
  ghost predicate Spaced(s: string, words: seq<string>, white: string)
    decreases |words|
  {
    if words == [] then AllIn(s, white)
    else exists gap, rest :: Spacing(s, gap, words[0], rest, white) && Spaced(rest, words[1..], white)
  }

  /** White space, a word, and then the end or more white space. */
  ghost predicate Spacing(s: string, gap: string, word: string, rest: string, white: string) {
    && s == gap + word + rest && AllIn(gap, white)
    && word != "" && (forall i :: 0 <= i < |word| ==> word[i] !in white)
    && (rest != "" ==> rest[0] in white)
  }

  lemma SpacingIsOne(s: string, white: string, g: string, w: string, r: string, g1: string, w1: string, r1: string)
    requires Spacing(s, g, w, r, white) && Spacing(s, g1, w1, r1, white)
    ensures w == w1 && r == r1
  {
    NotShorter(s, white, g, w, r, g1, w1, r1);
    NotShorter(s, white, g1, w1, r1, g, w, r);
    assert w == s[|g|..|g| + |w|] && w1 == s[|g1|..|g1| + |w1|];
    assert r == s[|g| + |w|..] && r1 == s[|g1| + |w1|..];
  }

  lemma NotShorter(s: string, white: string, g: string, w: string, r: string, g1: string, w1: string, r1: string)
    requires Spacing(s, g, w, r, white) && Spacing(s, g1, w1, r1, white)
    ensures |g| >= |g1|
    ensures |g| == |g1| ==> |w| >= |w1|
  {
    assert s[|g|] == w[0] && forall i :: 0 <= i < |g1| ==> s[i] == g1[i];
    assert forall i :: 0 <= i < |w1| ==> s[|g1| + i] == w1[i];
    assert r != "" ==> s[|g| + |w|] == r[0];
  }

  /** A text has one list of words. */
  lemma {:induction false} SpacedIsOne(s: string, a: seq<string>, b: seq<string>, white: string)
    requires Spaced(s, a, white) && Spaced(s, b, white)
    ensures a == b
    decreases |a|
  {
    if a == [] || b == [] {
      NoWords(s, a, white);
      NoWords(s, b, white);
    } else {
      var g, r :| Spacing(s, g, a[0], r, white) && Spaced(r, a[1..], white);
      var g1, r1 :| Spacing(s, g1, b[0], r1, white) && Spaced(r1, b[1..], white);
      SpacingIsOne(s, white, g, a[0], r, g1, b[0], r1);
      SpacedIsOne(r, a[1..], b[1..], white);
      assert a == [a[0]] + a[1..] && b == [b[0]] + b[1..];
    }
  }

  lemma NoWords(s: string, a: seq<string>, white: string)
    requires Spaced(s, a, white)
    ensures AllIn(s, white) <==> a == []
  {
    if a != [] {
      var g, r :| Spacing(s, g, a[0], r, white) && Spaced(r, a[1..], white);
      assert s[|g|] == a[0][0];
    }
  }

  lemma {:induction false} FieldsSpaced(s: string)
    ensures Spaced(s, Fields(s), White)
    decreases |s|
  {
    var t := TrimLeft(s);
    var gap := LeftMargin(s);
    if t != "" {
      var n := WordLength(t);
      FieldsSpaced(t[n..]);
      FirstWord(s, gap, t);
      MoreWords(s, gap, t[..n], t[n..], Fields(t[n..]), White);
    }
  }

  lemma FirstWord(s: string, gap: string, t: string)
    requires t != "" && !IsSpace(t[0]) && AllIn(gap, White) && s == gap + t
    ensures Spacing(s, gap, t[..WordLength(t)], t[WordLength(t)..], White)
  {
    var n := WordLength(t);
    assert t == t[..n] + t[n..];
    WhiteIs();
  }

  lemma MoreWords(s: string, gap: string, word: string, rest: string, words: seq<string>, white: string)
    requires Spacing(s, gap, word, rest, white) && Spaced(rest, words, white)
    ensures Spaced(s, [word] + words, white)
  {
    var all := [word] + words;
    assert all[1..] == words;
    assert Spacing(s, gap, all[0], rest, white) && Spaced(rest, all[1..], white);
  }

  lemma FieldsIff(s: string, words: seq<string>)
    ensures Fields(s) == words <==> Spaced(s, words, White)
  {
    FieldsSpaced(s);
    if Spaced(s, words, White) {
      SpacedIsOne(s, words, Fields(s), White);
    }
  }

  /** White space around a text makes no words. */
  lemma {:induction false} SpacedPadded(a: string, s: string, b: string, words: seq<string>, white: string)
    requires Spaced(s, words, white) && AllIn(a, white) && AllIn(b, white)
    ensures Spaced(a + s + b, words, white)
    decreases |words|
  {
    if words == [] {
      BlankPadded(a, s, b, white);
    } else {
      var g, r :| Spacing(s, g, words[0], r, white) && Spaced(r, words[1..], white);
      SpacedPadded("", r, b, words[1..], white);
      assert "" + r + b == r + b;
      WiderSpacing(a, s, b, g, words[0], r, white);
      MoreWords(a + s + b, a + g, words[0], r + b, words[1..], white);
      assert [words[0]] + words[1..] == words;
    }
  }

  lemma BlankPadded(a: string, s: string, b: string, white: string)
    requires AllIn(a, white) && AllIn(s, white) && AllIn(b, white)
    ensures AllIn(a + s + b, white)
  {
  }

  lemma WiderSpacing(a: string, s: string, b: string, gap: string, word: string, rest: string, white: string)
    requires Spacing(s, gap, word, rest, white) && AllIn(a, white) && AllIn(b, white)
    ensures Spacing(a + s + b, a + gap, word, rest + b, white)
  {
    assert a + s + b == (a + gap) + word + (rest + b);
  }

  predicate HasPrefix(s: string, p: string) {
    p <= s
  }

  predicate HasSuffix(s: string, p: string) {
    |p| <= |s| && s[|s| - |p|..] == p
  }

  predicate OccursAt(s: string, p: string, i: int) {
    0 <= i <= |s| - |p| && s[i..i + |p|] == p
  }

  predicate Contains(s: string, p: string) {
    exists i :: 0 <= i <= |s| - |p| && OccursAt(s, p, i)
  }

  /** strings.TrimSuffix(s, ".") */
  function StripDot(s: string): string {
    if s != "" && s[|s| - 1] == '.' then s[..|s| - 1] else s
  }

  /** The pieces between separators; never empty. */
  function Split(s: string, c: char): (r: seq<string>)
    ensures |r| > 0
    ensures forall i :: 0 <= i < |r| ==> c !in r[i]
  {
    if s == "" then [""]
    else if s[0] == c then [""] + Split(s[1..], c)
    else
      var rest := Split(s[1..], c);
      [[s[0]] + rest[0]] + rest[1..]
  }

  function Join(parts: seq<string>, c: char): string {
    if parts == [] then ""
    else if |parts| == 1 then parts[0]
    else parts[0] + [c] + Join(parts[1..], c)
  }

  lemma {:induction false} JoinSplit(s: string, c: char)
    ensures Join(Split(s, c), c) == s
  {
    if s != "" {
      JoinSplit(s[1..], c);
      if s[0] == c {
        JoinEmptyHead(Split(s[1..], c), c);
      } else {
        JoinLongerHead(s[0], Split(s[1..], c), c);
      }
    }
  }

  lemma JoinEmptyHead(rest: seq<string>, c: char)
    requires rest != []
    ensures Join([""] + rest, c) == [c] + Join(rest, c)
  {
    assert ([""] + rest)[1..] == rest;
  }

  lemma JoinLongerHead(x: char, rest: seq<string>, c: char)
    requires rest != []
    ensures Join([[x] + rest[0]] + rest[1..], c) == [x] + Join(rest, c)
  {
    var all := [[x] + rest[0]] + rest[1..];
    assert all[0] == [x] + rest[0] && all[1..] == rest[1..];
    if |rest| > 1 {
      assert Join(all, c) == [x] + rest[0] + [c] + Join(rest[1..], c);
    }
  }

  lemma {:induction false} SplitJoin(parts: seq<string>, c: char)
    requires parts != [] && forall i :: 0 <= i < |parts| ==> c !in parts[i]
    ensures Split(Join(parts, c), c) == parts
  {
    if |parts| == 1 {
      SplitPlain(parts[0], c);
    } else {
      SplitJoin(parts[1..], c);
      SplitHead(parts[0], Join(parts[1..], c), c);
    }
  }

  lemma {:induction false} SplitPlain(s: string, c: char)
    requires c !in s
    ensures Split(s, c) == [s]
  {
    if s != "" {
      assert s[0] in s;
      SplitPlain(s[1..], c);
      assert [s[0]] + s[1..] == s;
    }
  }

  /** A separator-free head is the first piece. */
  lemma {:induction false} SplitHead(head: string, rest: string, c: char)
    requires c !in head
    ensures Split(head + [c] + rest, c) == [head] + Split(rest, c)
  {
    if head == "" {
      assert (head + [c] + rest)[1..] == rest;
    } else {
      assert head[0] in head;
      SplitHead(head[1..], rest, c);
      assert (head + [c] + rest)[1..] == head[1..] + [c] + rest;
      assert [head[0]] + head[1..] == head;
      assert ([head[1..]] + Split(rest, c))[1..] == Split(rest, c);
    }
  }

  /** strings.IndexByte */
  function IndexOf(s: string, c: char): (r: int)
    ensures -1 <= r < |s|
    ensures r >= 0 ==> s[r] == c && forall j :: 0 <= j < r ==> s[j] != c
    ensures r < 0 ==> c !in s
  {
    if s == "" then -1
    else if s[0] == c then 0
    else
      var r := IndexOf(s[1..], c);
      if r < 0 then -1 else r + 1
  }

  /** The first separator after a separator-free head is right behind it. */
  lemma IndexAfter(head: string, c: char, tail: string)
    requires c !in head
    ensures IndexOf(head + [c] + tail, c) == |head|
  {
    var s := head + [c] + tail;
    assert s[|head|] == c;
    assert forall j :: 0 <= j < |head| ==> s[j] == head[j] && head[j] in head;
  }

  /** Decimal digits of a number, without sign or leading zeros. */
  function Decimal(n: nat): (r: string)
    ensures r != "" && forall i :: 0 <= i < |r| ==> '0' <= r[i] <= '9'
  {
    if n < 10 then [Digit(n)] else Decimal(n / 10) + [Digit(n % 10)]
  }

  function Digit(d: nat): (c: char)
    requires d < 10
    ensures '0' <= c <= '9' && c as int == '0' as int + d
  {
    ('0' as int + d) as char
  }

  predicate AllDigits(s: string) {
    forall i :: 0 <= i < |s| ==> '0' <= s[i] <= '9'
  }

  function DigitsValue(s: string): nat
    requires AllDigits(s)
  {
    if s == "" then 0 else 10 * DigitsValue(s[..|s| - 1]) + (s[|s| - 1] as int - '0' as int)
  }

  lemma {:induction false} DecimalValue(n: nat)
    ensures DigitsValue(Decimal(n)) == n
  {
    if n < 10 {
      assert Decimal(n)[..0] == "";
    } else {
      DecimalValue(n / 10);
      assert Decimal(n)[..|Decimal(n)| - 1] == Decimal(n / 10);
    }
  }

  /** The digits have this value, and no needless zero stands before them. */
  predicate IsDecimal(s: string, n: nat) {
    s != "" && AllDigits(s) && DigitsValue(s) == n && (s[0] == '0' ==> |s| == 1)
  }

  lemma DecimalIff(s: string, n: nat)
    ensures s == Decimal(n) <==> IsDecimal(s, n)
  {
    DecimalValue(n);
    DecimalHead(n);
    if n < 10 {
      assert |Decimal(n)| == 1;
    }
    if IsDecimal(s, n) {
      DecimalOf(s, n);
    }
  }

  lemma {:induction false} DecimalOf(s: string, n: nat)
    requires IsDecimal(s, n)
    ensures s == Decimal(n)
  {
    var k := |s| - 1;
    assert s == s[..k] + [s[k]];
    if k > 0 {
      var v := DigitsValue(s[..k]);
      HeadPositive(s[..k]);
      DecimalOf(s[..k], v);
      DecimalSnoc(v, s[k]);
    } else {
      assert s[..0] == "" && n == s[0] as int - '0' as int;
    }
  }

  lemma DecimalSnoc(v: nat, c: char)
    requires v > 0 && '0' <= c <= '9'
    ensures Decimal(10 * v + (c as int - '0' as int)) == Decimal(v) + [c]
  {
    var d := c as int - '0' as int;
    assert (10 * v + d) / 10 == v && (10 * v + d) % 10 == d;
  }

  lemma {:induction false} DecimalHead(n: nat)
    ensures Decimal(n)[0] == '0' ==> n == 0
  {
    if n >= 10 {
      DecimalHead(n / 10);
    }
  }

  lemma {:induction false} HeadPositive(s: string)
    requires s != "" && AllDigits(s) && s[0] != '0'
    ensures DigitsValue(s) > 0
  {
    if |s| > 1 {
      HeadPositive(s[..|s| - 1]);
    } else {
      assert s[..0] == "";
    }
  }

  /** Leading zeros do not count. */
  lemma {:induction false} ZerosBefore(zeros: string, s: string)
    requires AllIn(zeros, "0") && AllDigits(s)
    ensures AllDigits(zeros + s) && DigitsValue(zeros + s) == DigitsValue(s)
    decreases |zeros| + |s|
  {
    var all := zeros + s;
    if s != "" {
      ZerosBefore(zeros, s[..|s| - 1]);
      assert all[..|all| - 1] == zeros + s[..|s| - 1];
    } else if zeros != "" {
      ZerosBefore(zeros[..|zeros| - 1], "");
      assert all == zeros && zeros[..|zeros| - 1] + "" == all[..|all| - 1];
    }
  }

  /** Any digits are zeros and then the decimal form of their value. */
  lemma {:induction false} Leading(s: string) returns (zeros: string, number: string)
    requires s != "" && AllDigits(s)
    ensures AllIn(zeros, "0") && s == zeros + number && number == Decimal(DigitsValue(s))
  {
    var n := |s| - 1;
    if n > 0 {
      var before, decimal := Leading(s[..n]);
      zeros, number := OneMore(before, decimal, DigitsValue(s[..n]), s[n]);
      assert s == s[..n] + [s[n]];
    } else {
      zeros, number := "", s;
      OneDigit(s);
    }
  }

  lemma OneDigit(s: string)
    requires |s| == 1 && AllDigits(s)
    ensures s == Decimal(DigitsValue(s))
  {
    assert s[..0] == "" && DigitsValue(s) == s[0] as int - '0' as int;
  }

  lemma OneMore(before: string, decimal: string, v: nat, c: char) returns (zeros: string, number: string)
    requires AllIn(before, "0") && '0' <= c <= '9' && decimal == Decimal(v)
    ensures AllIn(zeros, "0") && before + decimal + [c] == zeros + number
    ensures number == Decimal(10 * v + (c as int - '0' as int))
  {
    var d := c as int - '0' as int;
    if v == 0 {
      zeros, number := before + "0", [c];
      assert Decimal(0) == "0" && Decimal(d) == [c];
    } else {
      zeros, number := before, decimal + [c];
      DecimalSnoc(v, c);
    }
  }
}

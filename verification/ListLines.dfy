/**
 What one line of a domain list says, in the terms of its text: how it is cut into words, which of them
 are tags, and what the first word makes of the line. This is proved of the reading of lines that the expansion uses.
 */
module ListLines {
  import opened Text
  import opened ListExpansion

  // ---- from a line to its words

  /** The white space of Python. */
  const PyWhite := " \t\n\r\U{000B}\U{000C}\U{001C}\U{001D}\U{001E}\U{001F}"

  function LowerAll(words: seq<string>): (r: seq<string>)
    ensures |r| == |words| && forall i :: 0 <= i < |r| ==> r[i] == Lower(words[i])
  {
    seq(|words|, i requires 0 <= i < |words| => Lower(words[i]))
  }

  /** The lower-cased words of the line in front of its first `#`. */
  ghost predicate AreWords(line: string, parts: seq<string>) {
    exists body, words :: Uncommented(line, body) && Spaced(body, words, PyWhite) && parts == LowerAll(words)
  }

  predicate Uncommented(line: string, body: string) {
    body <= line && '#' !in body && (|body| < |line| ==> line[|body|] == '#')
  }

  /** A line has one list of words. */
  lemma WordsAreOne(line: string, a: seq<string>, b: seq<string>)
    requires AreWords(line, a) && AreWords(line, b)
    ensures a == b
  {
    var body, words :| Uncommented(line, body) && Spaced(body, words, PyWhite) && a == LowerAll(words);
    var body1, words1 :| Uncommented(line, body1) && Spaced(body1, words1, PyWhite) && b == LowerAll(words1);
    BeforeIff(line, '#', body);
    BeforeIff(line, '#', body1);
    SpacedIsOne(body, words, words1, PyWhite);
  }

  lemma PlainIn(s: string)
    ensures Plainly(s, PlainSpace(s))
  {
    WhiteIs();
    assert forall c :: c in PyWhite <==> c in White || '\U{001C}' <= c <= '\U{001F}';
  }

  lemma {:induction false} PlainSpaced(s: string, words: seq<string>)
    requires Spaced(PlainSpace(s), words, White)
    ensures Spaced(s, words, PyWhite)
    decreases |words|
  {
    PlainIn(s);
    if words != [] {
      var g, r :| Spacing(PlainSpace(s), g, words[0], r, White) && Spaced(r, words[1..], White);
      var rest := s[|g| + |words[0]|..];
      PlainSpacing(s, g, words[0], r);
      PlainSpaced(rest, words[1..]);
      MoreWords(s, s[..|g|], words[0], rest, words[1..], PyWhite);
      assert [words[0]] + words[1..] == words;
    }
  }

  lemma PlainSpacing(s: string, g: string, word: string, r: string)
    requires Spacing(PlainSpace(s), g, word, r, White)
    ensures Spacing(s, s[..|g|], word, s[|g| + |word|..], PyWhite)
    ensures PlainSpace(s[|g| + |word|..]) == r
  {
    PlainIn(s);
    SpacingBack(s, PlainSpace(s), g, word, r);
    var m := |g| + |word|;
    assert PlainSpace(s)[m..] == r;
    PlainRest(s, m);
  }

  lemma PlainRest(s: string, m: nat)
    requires m <= |s|
    ensures PlainSpace(s[m..]) == PlainSpace(s)[m..]
  {
  }

  /** White space where the other text has it, and equal to it elsewhere. */
  predicate Plainly(s: string, plain: string) {
    && |s| == |plain|
    && forall i :: 0 <= i < |s| ==> (plain[i] in White <==> s[i] in PyWhite) && (s[i] in PyWhite || plain[i] == s[i])
  }

  lemma SpacingBack(s: string, plain: string, g: string, word: string, r: string)
    requires Plainly(s, plain) && Spacing(plain, g, word, r, White)
    ensures Spacing(s, s[..|g|], word, s[|g| + |word|..], PyWhite)
  {
    var n, m := |g|, |g| + |word|;
    assert plain[..n] == g && plain[n..m] == word && plain[m..] == r;
    PartsBack(s[..n], s[n..m], s[m..], g, word, r);
    assert s == s[..n] + s[n..m] + s[m..];
  }

  lemma PartsBack(a: string, b: string, c: string, g: string, word: string, r: string)
    requires Plainly(a, g) && Plainly(b, word) && Plainly(c, r) && Spacing(g + word + r, g, word, r, White)
    ensures b == word && Spacing(a + b + c, a, word, c, PyWhite)
  {
  }

  lemma LowerIn(s: string)
    ensures Alike(s, Lower(s))
  {
    WhiteIs();
  }

  lemma {:induction false} LowerSpaced(s: string, words: seq<string>)
    requires Spaced(s, words, White)
    ensures Spaced(Lower(s), LowerAll(words), White)
    decreases |words|
  {
    if words == [] {
      LowerIn(s);
    } else {
      var g, r :| Spacing(s, g, words[0], r, White) && Spaced(r, words[1..], White);
      LowerSpacing(s, g, words[0], r);
      LowerSpaced(r, words[1..]);
      MoreWords(Lower(s), Lower(g), Lower(words[0]), Lower(r), LowerAll(words[1..]), White);
      assert [Lower(words[0])] + LowerAll(words[1..]) == LowerAll(words);
    }
  }

  lemma LowerSpacing(s: string, g: string, word: string, r: string)
    requires Spacing(s, g, word, r, White)
    ensures Spacing(Lower(s), Lower(g), Lower(word), Lower(r), White)
  {
    LowerConcat(g, word);
    LowerConcat(g + word, r);
    LowerIn(g);
    LowerIn(word);
    LowerIn(r);
    SpacingAlike(s, g, word, r, Lower(g), Lower(word), Lower(r));
  }

  /** White space in the same places. */
  predicate Alike(a: string, b: string) {
    |a| == |b| && forall i :: 0 <= i < |a| ==> (a[i] in White <==> b[i] in White)
  }

  lemma SpacingAlike(s: string, g: string, word: string, r: string, g1: string, word1: string, r1: string)
    requires Spacing(s, g, word, r, White) && Alike(g, g1) && Alike(word, word1) && Alike(r, r1)
    ensures Spacing(g1 + word1 + r1, g1, word1, r1, White)
  {
  }

  lemma LowerConcat(a: string, b: string)
    ensures Lower(a + b) == Lower(a) + Lower(b)
  {
  }

  /** Main result: the tokens are the words of the line. */
  lemma TokensIff(line: string, parts: seq<string>)
    ensures Tokens(line) == parts <==> AreWords(line, parts)
  {
    var body := Before(line, '#');
    var plain := PlainSpace(body);
    var words := Fields(Trim(plain));
    BeforeIff(line, '#', body);
    FieldsSpaced(Trim(plain));
    var a, b := Margins(plain);
    SpacedPadded(a, Trim(plain), b, words, White);
    PlainSpaced(body, words);
    LowerSpaced(Trim(plain), words);
    FieldsIff(Lower(Trim(plain)), LowerAll(words));
    assert AreWords(line, Tokens(line));
    if AreWords(line, parts) {
      WordsAreOne(line, parts, Tokens(line));
    }
  }

  // ---- from words to what the line says

  /** A word after the first is this tag. */
  predicate Tagged(parts: seq<string>, tag: string) {
    exists k :: 1 <= k < |parts| && parts[k] == "@" + tag
  }

  lemma {:induction false} TagsOfIff(parts: seq<string>, tag: string)
    ensures tag in TagsOf(parts) <==> Tagged(parts, tag)
  {
    if |parts| > 1 {
      var n := |parts| - 1;
      TagsOfIff(parts[..n], tag);
      assert parts[n] == "@" + tag <==> HasPrefix(parts[n], "@") && parts[n][1..] == tag;
      if k :| 1 <= k < |parts[..n]| && parts[..n][k] == "@" + tag {
        assert parts[k] == "@" + tag;
      }
      if k :| 1 <= k < |parts| && parts[k] == "@" + tag {
        assert k < n ==> parts[..n][k] == "@" + tag;
      }
    }
  }

  /** There is something on the line, and it is not an advertising line to be left out. */
  predicate Heard(parts: seq<string>, ads: bool) {
    parts != [] && (ads || !Tagged(parts, "ads"))
  }

  ghost predicate Carries(parts: seq<string>, required: set<string>) {
    forall tag :: tag in required ==> Tagged(parts, tag)
  }

  /** Letters, digits, dots and hyphens, with a dot and without two in a row. */
  predicate HostText(h: string) {
    && '.' in h
    && (forall i :: 0 <= i < |h| ==> 'a' <= h[i] <= 'z' || '0' <= h[i] <= '9' || h[i] == '.' || h[i] == '-')
    && forall i :: 0 <= i < |h| - 1 ==> !(h[i] == '.' && h[i + 1] == '.')
  }

  /** What of the first word is taken for a host. */
  predicate HostPart(token: string, h: string) {
    token == "full:" + h || token == "domain:" + h || (token == h && !("full:" <= h) && !("domain:" <= h))
  }

  lemma HostTextIff(h: string)
    ensures HostText(h) <==> '.' in h && ValidHost(h) && !Contains(h, "..")
    ensures HostText(h) ==> ':' !in h
  {
    if i :| 0 <= i <= |h| - 2 && OccursAt(h, "..", i) {
      assert h[i..i + 2][0] == '.' && h[i..i + 2][1] == '.';
    }
    if i :| 0 <= i < |h| - 1 && h[i] == '.' && h[i + 1] == '.' {
      assert OccursAt(h, "..", i);
    }
  }

  lemma HostPartIs(token: string, h: string)
    ensures HostPart(token, h) <==> h == HostOf(token)
  {
    assert token == "full:" + h <==> "full:" <= token && token[5..] == h;
    assert token == "domain:" + h <==> "domain:" <= token && token[7..] == h;
    assert "full:"[0] != "domain:"[0];
  }

  /** What the tags of a line say about it. */
  lemma TagsSay(parts: seq<string>, required: set<string>, ads: bool)
    ensures parts != [] ==> (Heard(parts, ads) <==> !("ads" in TagsOf(parts) && !ads))
    ensures Carries(parts, required) <==> required <= TagsOf(parts)
  {
    forall tag ensures tag in TagsOf(parts) <==> Tagged(parts, tag) {
      TagsOfIff(parts, tag);
    }
  }

  /** Main result: exactly which lines contribute a scope, and which one. */
  lemma ScopeIff(parts: seq<string>, required: set<string>, ads: bool, scope: string)
    ensures Classify(parts, required, ads) == Scope(scope) <==>
            Heard(parts, ads) && Carries(parts, required) && exists h :: Contributes(parts[0], h, scope)
  {
    TagsSay(parts, required, ads);
    if parts != [] {
      HostTextIff(HostOf(parts[0]));
      ScopeOfToken(parts[0], scope);
    }
  }

  /** `full:h` contributes `=h`; `domain:h` and the bare `h` contribute `h`. */
  predicate Contributes(token: string, h: string, scope: string) {
    HostText(h) && ((token == "full:" + h && scope == "=" + h) ||
                    ((token == h || token == "domain:" + h) && scope == h))
  }

  lemma ScopeOfToken(token: string, scope: string)
    ensures (exists h :: Contributes(token, h, scope)) <==>
            HostText(HostOf(token)) && scope == if "full:" <= token then "=" + HostOf(token) else HostOf(token)
    ensures (exists h :: Contributes(token, h, scope)) ==> !("include:" <= token)
    ensures HostText(HostOf(token)) ==> !("regexp:" <= HostOf(token)) && !("keyword:" <= HostOf(token))
  {
    var host := HostOf(token);
    HostTextIff(host);
    HostPartIs(token, host);
    assert "include:"[7] == ':' && "regexp:"[6] == ':' && "keyword:"[7] == ':' && "full:"[4] == ':' &&
           "domain:"[6] == ':';
    forall h | Contributes(token, h, scope)
      ensures h == host && scope == (if "full:" <= token then "=" + h else h) && !("include:" <= token)
    {
      HostTextIff(h);
      HostPartIs(token, h);
    }
    if HostText(host) && scope == (if "full:" <= token then "=" + host else host) {
      assert Contributes(token, host, scope);
    }
  }

  /** Main result: exactly which lines are includes, of which list and with which tags. */
  lemma IncludeIff(parts: seq<string>, required: set<string>, ads: bool, name: string, tags: set<string>)
    ensures Classify(parts, required, ads) == Include(name, tags) <==>
            && Heard(parts, ads) && parts[0] == "include:" + name
            && forall tag :: tag in tags <==> Tagged(parts, tag)
  {
    TagsSay(parts, required, ads);
    if parts != [] {
      assert parts[0] == "include:" + name <==> "include:" <= parts[0] && parts[0][8..] == name;
    }
    forall tag ensures tag in TagsOf(parts) <==> Tagged(parts, tag) {
      TagsOfIff(parts, tag);
    }
    assert (forall tag :: tag in tags <==> Tagged(parts, tag)) <==> tags == TagsOf(parts);
  }

  /** Main result: exactly which lines are counted as unsupported: what is left of the first word has a colon. */
  lemma UnsupportedIff(parts: seq<string>, required: set<string>, ads: bool)
    ensures Classify(parts, required, ads) == Unsupported <==>
            && Heard(parts, ads) && Carries(parts, required) && !("include:" <= parts[0])
            && exists h :: HostPart(parts[0], h) && ':' in h
  {
    TagsSay(parts, required, ads);
    if parts != [] {
      HostIs(parts[0]);
    }
  }

  /** Main result: and exactly which as invalid: there is no colon, and it is no host. */
  lemma InvalidIff(parts: seq<string>, required: set<string>, ads: bool)
    ensures Classify(parts, required, ads) == Invalid <==>
            && Heard(parts, ads) && Carries(parts, required) && !("include:" <= parts[0])
            && exists h :: HostPart(parts[0], h) && ':' !in h && !HostText(h)
  {
    TagsSay(parts, required, ads);
    if parts != [] {
      HostIs(parts[0]);
      HostTextIff(HostOf(parts[0]));
    }
  }

  lemma HostIs(token: string)
    ensures forall h :: HostPart(token, h) <==> h == HostOf(token)
    ensures "regexp:" <= HostOf(token) || "keyword:" <= HostOf(token) ==> ':' in HostOf(token)
  {
    forall h ensures HostPart(token, h) <==> h == HostOf(token) {
      HostPartIs(token, h);
    }
    assert "regexp:"[6] == ':' && "keyword:"[7] == ':';
  }

  // ---- whole lists

  /** The line contributes this scope to a visit with these required tags. */
  ghost predicate GivesScope(line: string, required: set<string>, ads: bool, scope: string) {
    exists parts :: AreWords(line, parts) && Heard(parts, ads) && Carries(parts, required) &&
                    exists h :: Contributes(parts[0], h, scope)
  }

  /** Main result: a list contributes a scope exactly when one of its lines does. */
  lemma DirectIff(files: Files, ads: bool, v: Visit, scope: string)
    ensures Direct(files, Script(ads), v, scope) <==>
            v.name in files &&
            exists i :: 0 <= i < |files[v.name]| && GivesScope(files[v.name][i], v.required, ads, scope)
  {
    if v.name in files {
      forall i | 0 <= i < |files[v.name]|
        ensures Script(ads).kind(files[v.name][i], v.required) == Scope(scope) <==>
                GivesScope(files[v.name][i], v.required, ads, scope)
      {
        LineGivesScope(files[v.name][i], v.required, ads, scope);
      }
    }
  }

  lemma LineGivesScope(line: string, required: set<string>, ads: bool, scope: string)
    ensures Script(ads).kind(line, required) == Scope(scope) <==> GivesScope(line, required, ads, scope)
  {
    TokensAre(line);
    ScopeIff(Tokens(line), required, ads, scope);
  }

  lemma TokensAre(line: string)
    ensures forall parts :: AreWords(line, parts) <==> parts == Tokens(line)
  {
    forall parts ensures AreWords(line, parts) <==> parts == Tokens(line) {
      TokensIff(line, parts);
    }
  }

  /** The line includes the list `name` and requires all of `required` of it, which are the tags required so far and its
      own. */
  ghost predicate GivesInclude(line: string, before: set<string>, ads: bool, w: Visit) {
    exists parts :: AreWords(line, parts) && Heard(parts, ads) && parts[0] == "include:" + w.name &&
                    forall tag :: tag in w.required <==> tag in before || Tagged(parts, tag)
  }

  /** Main result: one visit leads to another exactly when a line of its list includes it. */
  lemma EdgeIff(files: Files, ads: bool, v: Visit, w: Visit)
    ensures Edge(files, Script(ads), v, w) <==>
            v.name in files &&
            exists i :: 0 <= i < |files[v.name]| && GivesInclude(files[v.name][i], v.required, ads, w)
  {
    if v.name in files {
      forall i | 0 <= i < |files[v.name]|
        ensures Leads(files[v.name][i], Script(ads), v, w) <==> GivesInclude(files[v.name][i], v.required, ads, w)
      {
        LineGivesInclude(files[v.name][i], v, ads, w);
      }
    }
  }

  lemma LineGivesInclude(line: string, v: Visit, ads: bool, w: Visit)
    ensures Leads(line, Script(ads), v, w) <==> GivesInclude(line, v.required, ads, w)
  {
    TokensAre(line);
    WordsLead(Tokens(line), v, ads, w);
  }

  lemma WordsLead(parts: seq<string>, v: Visit, ads: bool, w: Visit)
    ensures var item := Classify(parts, v.required, ads);
            item.Include? && w == Visit(item.name, v.required + item.tags) <==>
            && Heard(parts, ads) && parts[0] == "include:" + w.name
            && forall tag :: tag in w.required <==> tag in v.required || Tagged(parts, tag)
  {
    var tags := TagsOf(parts);
    forall tag ensures tag in tags <==> Tagged(parts, tag) {
      TagsOfIff(parts, tag);
    }
    IncludeIff(parts, v.required, ads, w.name, tags);
    IncludeHasLineTags(parts, v.required, ads);
    assert w.required == v.required + tags <==>
           forall tag :: tag in w.required <==> tag in v.required || tag in tags;
  }

  /** The line is left out because what it names has a colon, or else because it is no host. */
  ghost predicate IsUnsupported(line: string, required: set<string>, ads: bool) {
    exists parts, h :: AreWords(line, parts) && Heard(parts, ads) && Carries(parts, required) &&
                       !("include:" <= parts[0]) && HostPart(parts[0], h) && ':' in h
  }

  ghost predicate IsInvalid(line: string, required: set<string>, ads: bool) {
    exists parts, h :: AreWords(line, parts) && Heard(parts, ads) && Carries(parts, required) &&
                       !("include:" <= parts[0]) && HostPart(parts[0], h) && ':' !in h && !HostText(h)
  }

  /** Main result: exactly which lines are counted as unsupported and as invalid. */
  lemma SkippedIff(line: string, required: set<string>, ads: bool)
    ensures Script(ads).kind(line, required) == Unsupported <==> IsUnsupported(line, required, ads)
    ensures Script(ads).kind(line, required) == Invalid <==> IsInvalid(line, required, ads)
  {
    TokensAre(line);
    UnsupportedIff(Tokens(line), required, ads);
    InvalidIff(Tokens(line), required, ads);
  }
}

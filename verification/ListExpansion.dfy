/**
 Expansion of domain lists that include one another, possibly in cycles.

 The expansion walks the include graph depth-first over pairs of a list and the tags required
 of its lines, and a pair already seen contributes nothing further. The result is compared
 with plain reachability in that graph.
 */
module ListExpansion {
  import opened Wrappers
  import opened Text

  type Files = map<string, seq<string>>

  /** A list together with the tags its lines must carry. */
  datatype Visit = Visit(name: string, required: set<string>)

  // ---- one line

  /** Python counts four separators more as white space. */
  function PlainSpace(s: string): (r: string)
    ensures |r| == |s|
    ensures forall i :: 0 <= i < |s| ==> r[i] == if '\U{001C}' <= s[i] <= '\U{001F}' then ' ' else s[i]
  {
    if s == "" then ""
    else [if '\U{001C}' <= s[0] <= '\U{001F}' then ' ' else s[0]] + PlainSpace(s[1..])
  }

  function Tokens(line: string): seq<string> {
    Fields(Lower(Trim(PlainSpace(Before(line, '#')))))
  }

  function TagsOf(parts: seq<string>): set<string> {
    if |parts| <= 1 then {}
    else
      var last := parts[|parts| - 1];
      TagsOf(parts[..|parts| - 1]) + (if HasPrefix(last, "@") then {last[1..]} else {})
  }

  predicate ValidHost(host: string) {
    host != "" && forall i :: 0 <= i < |host| ==>
      'a' <= host[i] <= 'z' || '0' <= host[i] <= '9' || host[i] == '.' || host[i] == '-'
  }

  function HostOf(token: string): string {
    if HasPrefix(token, "full:") then token[5..]
    else if HasPrefix(token, "domain:") then token[7..]
    else token
  }

  datatype Item = Nothing | Include(name: string, tags: set<string>) | Scope(scope: string) | Unsupported | Invalid

  /** What a line of these tokens contributes when its list is expanded with the given required tags. */
  function Classify(parts: seq<string>, required: set<string>, ads: bool): Item {
    if parts == [] then Nothing
    else
      var token := parts[0];
      var tags := TagsOf(parts);
      if "ads" in tags && !ads then Nothing
      else if HasPrefix(token, "include:") then Include(token[8..], tags)
      else if !(required <= tags) then Nothing
      else
        var exact, host := HasPrefix(token, "full:"), HostOf(token);
        if HasPrefix(host, "regexp:") || HasPrefix(host, "keyword:") || ':' in host then Unsupported
        else if '.' !in host || !ValidHost(host) || Contains(host, "..") then Invalid
        else Scope(if exact then "=" + host else host)
  }

  /** How lines are read: what one contributes, and the tags it carries. */
  datatype Reading = Reading(kind: (string, set<string>) -> Item, tags: string -> set<string>)

  /** An include passes on no other tags than its own. */
  ghost predicate Sound(read: Reading) {
    forall line, required ::
      read.kind(line, required).Include? ==> read.kind(line, required).tags <= read.tags(line)
  }

  /** Cutting lines into tokens and classifying these. */
  function ReadingOf(tokens: string -> seq<string>, ads: bool): Reading {
    Reading((line, required) => Classify(tokens(line), required, ads), line => TagsOf(tokens(line)))
  }

  /** The script's way to read lines. */
  function Script(ads: bool): Reading {
    ReadingOf(Tokens, ads)
  }

  lemma IncludeHasLineTags(parts: seq<string>, required: set<string>, ads: bool)
    ensures Classify(parts, required, ads).Include? ==> Classify(parts, required, ads).tags == TagsOf(parts)
  {
  }

  lemma ReadingIsSound(tokens: string -> seq<string>, ads: bool)
    ensures Sound(ReadingOf(tokens, ads))
  {
    forall line, required
      ensures var item := ReadingOf(tokens, ads).kind(line, required);
              item.Include? ==> item.tags <= ReadingOf(tokens, ads).tags(line)
    {
      IncludeHasLineTags(tokens(line), required, ads);
    }
  }

  lemma ScriptIsSound(ads: bool)
    ensures Sound(Script(ads))
  {
    ReadingIsSound(Tokens, ads);
  }

  // ---- the include graph

  ghost predicate Edge(files: Files, read: Reading, v: Visit, w: Visit) {
    v.name in files && exists i :: 0 <= i < |files[v.name]| && Leads(files[v.name][i], read, v, w)
  }

  ghost predicate Leads(line: string, read: Reading, v: Visit, w: Visit) {
    var item := read.kind(line, v.required);
    item.Include? && w == Visit(item.name, v.required + item.tags)
  }

  ghost predicate Path(files: Files, read: Reading, p: seq<Visit>) {
    |p| > 0 && forall i :: 0 <= i < |p| - 1 ==> Edge(files, read, p[i], p[i + 1])
  }

  ghost predicate PathFromTo(files: Files, read: Reading, p: seq<Visit>, v: Visit, w: Visit) {
    Path(files, read, p) && p[0] == v && p[|p| - 1] == w
  }

  /** `w` can be reached from `v` by following includes. */
  ghost predicate Reaches(files: Files, read: Reading, v: Visit, w: Visit) {
    exists p :: PathFromTo(files, read, p, v, w)
  }

  /** The scopes a visit's own lines contribute. */
  ghost predicate Direct(files: Files, read: Reading, v: Visit, scope: string) {
    v.name in files && exists i :: 0 <= i < |files[v.name]| &&
                         read.kind(files[v.name][i], v.required) == Scope(scope)
  }

  lemma ReachesSelf(files: Files, read: Reading, v: Visit)
    ensures Reaches(files, read, v, v)
  {
    assert PathFromTo(files, read, [v], v, v);
  }

  lemma ReachesStep(files: Files, read: Reading, u: Visit, v: Visit, w: Visit)
    requires Edge(files, read, u, v) && Reaches(files, read, v, w)
    ensures Reaches(files, read, u, w)
  {
    var p :| PathFromTo(files, read, p, v, w);
    var q := [u] + p;
    forall i | 0 <= i < |q| - 1
      ensures Edge(files, read, q[i], q[i + 1])
    {
      if i > 0 {
        assert q[i] == p[i - 1] && q[i + 1] == p[i];
      }
    }
    assert PathFromTo(files, read, q, u, w);
  }

  /** A set closed under includes contains everything reachable from its members. */
  lemma {:induction false} ClosedContains(files: Files, read: Reading, s: set<Visit>, p: seq<Visit>)
    requires Path(files, read, p) && p[0] in s
    requires forall u, w :: u in s && Edge(files, read, u, w) ==> w in s
    ensures p[|p| - 1] in s
  {
    if |p| > 1 {
      assert Edge(files, read, p[0], p[1]);
      ClosedContains(files, read, s, p[1..]);
    }
  }

  // ---- termination: only finitely many visits can ever be made

  ghost function AllTags(files: Files, read: Reading): set<string> {
    set n, i, x | n in files && 0 <= i < |files[n]| && x in read.tags(files[n][i]) :: x
  }

  ghost function Universe(files: Files, read: Reading): set<Visit> {
    set n, t | n in files.Keys && t <= AllTags(files, read) :: Visit(n, t)
  }

  lemma IncludeStaysInUniverse(files: Files, read: Reading, v: Visit, i: nat)
    requires Sound(read) && v.name in files && i < |files[v.name]| && v.required <= AllTags(files, read)
    requires read.kind(files[v.name][i], v.required).Include?
    ensures v.required + read.kind(files[v.name][i], v.required).tags <= AllTags(files, read)
  {
    forall x | x in read.kind(files[v.name][i], v.required).tags
      ensures x in AllTags(files, read)
    {
      assert x in read.tags(files[v.name][i]);
    }
  }

  // ---- counting the lines that are skipped

  /** How many of a list's first `n` lines classify as `item` for this visit. */
  function CountUpTo(lines: seq<string>, n: nat, required: set<string>, read: Reading, item: Item): nat
    requires n <= |lines|
  {
    if n == 0 then 0
    else CountUpTo(lines, n - 1, required, read, item) + (if read.kind(lines[n - 1], required) == item then 1 else 0)
  }

  /** The lines counted in finished visits and among the first `n` lines of `v`. */
  function Tally(files: Files, read: Reading, v: Visit, n: nat, finished: seq<Visit>, item: Item): nat
    requires v.name in files && n <= |files[v.name]|
  {
    Total(files, read, finished, item) + CountUpTo(files[v.name], n, v.required, read, item)
  }

  function CountOf(files: Files, read: Reading, v: Visit, item: Item): nat {
    if v.name in files then CountUpTo(files[v.name], |files[v.name]|, v.required, read, item) else 0
  }

  function Total(files: Files, read: Reading, visits: seq<Visit>, item: Item): nat {
    if visits == [] then 0
    else Total(files, read, visits[..|visits| - 1], item) + CountOf(files, read, visits[|visits| - 1], item)
  }

  lemma {:induction false} TotalAppend(files: Files, read: Reading, a: seq<Visit>, b: seq<Visit>, item: Item)
    ensures Total(files, read, a + b, item) == Total(files, read, a, item) + Total(files, read, b, item)
  {
    if b == [] {
      assert a + b == a;
    } else {
      var n := |b| - 1;
      TotalAppend(files, read, a, b[..n], item);
      assert (a + b)[..|a + b| - 1] == a + b[..n];
    }
  }

  // ---- what an expansion has explored

  /** Everything in `now` but not in `before` is an existing list reachable from `v`; except for the
      visits in `open`, all its includes are in `now` too. */
  ghost predicate Explored(files: Files, read: Reading, before: set<Visit>, now: set<Visit>, v: Visit,
                           open: set<Visit>) {
    && before <= now
    && (forall u :: u in now && u !in before ==> u.name in files && Reaches(files, read, v, u))
    && (forall u, w :: u in now && u !in before && u !in open && Edge(files, read, u, w) ==> w in now)
  }

  /** The includes among a visit's first `n` lines are in `now`. */
  ghost predicate Followed(files: Files, read: Reading, now: set<Visit>, v: Visit, n: nat) {
    v.name in files && n <= |files[v.name]| &&
    forall j, w :: 0 <= j < n && Leads(files[v.name][j], read, v, w) ==> w in now
  }

  ghost predicate DirectOfSome(files: Files, read: Reading, visits: set<Visit>, d: string) {
    exists u :: u in visits && Direct(files, read, u, d)
  }

  /** Some of the first `n` lines contributes `d`. */
  ghost predicate DirectSoFar(files: Files, read: Reading, v: Visit, n: nat, d: string) {
    v.name in files && n <= |files[v.name]| &&
    exists j :: 0 <= j < n && read.kind(files[v.name][j], v.required) == Scope(d)
  }

  /** `domains` is what the finished visits and the first `n` lines of `v` contribute. */
  ghost predicate Collected(files: Files, read: Reading, domains: set<string>, finished: set<Visit>, v: Visit,
                            n: nat) {
    forall d :: d in domains <==> DirectOfSome(files, read, finished, d) || DirectSoFar(files, read, v, n, d)
  }

  /** `visits` lists the members of `s`, each once. */
  ghost predicate Lists(visits: seq<Visit>, s: set<Visit>) {
    && (forall u :: u in visits <==> u in s)
    && (forall i, j :: 0 <= i < j < |visits| ==> visits[i] != visits[j])
  }

  lemma ListsAppend(a: seq<Visit>, s: set<Visit>, b: seq<Visit>, t: set<Visit>)
    requires Lists(a, s) && Lists(b, t) && s !! t
    ensures Lists(a + b, s + t)
  {
    forall i, j | 0 <= i < j < |a + b|
      ensures (a + b)[i] != (a + b)[j]
    {
      if i < |a| <= j {
        assert a[i] in s && b[j - |a|] in t;
      }
    }
  }

  /** A nested expansion extends what is explored. */
  lemma ExploredThrough(files: Files, read: Reading, before: set<Visit>, mid: set<Visit>, now: set<Visit>,
                        v: Visit, w: Visit)
    requires Explored(files, read, before, mid, v, {v}) && Explored(files, read, mid, now, w, {})
    requires v in mid && Edge(files, read, v, w)
    ensures Explored(files, read, before, now, v, {v})
  {
    forall u | u in now && u !in before
      ensures u.name in files && Reaches(files, read, v, u)
    {
      if u !in mid {
        ReachesStep(files, read, v, w, u);
      }
    }
  }

  /** When every line of `v` has been followed, nothing is open any more. */
  lemma ExploredClosed(files: Files, read: Reading, before: set<Visit>, now: set<Visit>, v: Visit)
    requires Explored(files, read, before, now, v, {v})
    requires v.name in files && Followed(files, read, now, v, |files[v.name]|)
    ensures Explored(files, read, before, now, v, {})
  {
  }

  lemma CollectedThrough(files: Files, read: Reading, domains: set<string>, inner: set<string>, s: set<Visit>,
                         t: set<Visit>, v: Visit, n: nat)
    requires Collected(files, read, domains, s, v, n)
    requires forall d :: d in inner <==> DirectOfSome(files, read, t, d)
    ensures Collected(files, read, domains + inner, s + t, v, n)
  {
    forall d
      ensures DirectOfSome(files, read, s + t, d) <==>
              DirectOfSome(files, read, s, d) || DirectOfSome(files, read, t, d)
    {
      if u :| u in s + t && Direct(files, read, u, d) {
      }
    }
  }

  /** One more line. */
  lemma CollectedLine(files: Files, read: Reading, domains: set<string>, s: set<Visit>, v: Visit, n: nat)
    requires Collected(files, read, domains, s, v, n) && v.name in files && n < |files[v.name]|
    ensures var item := read.kind(files[v.name][n], v.required);
            Collected(files, read, if item.Scope? then domains + {item.scope} else domains, s, v, n + 1)
  {
    var item := read.kind(files[v.name][n], v.required);
    forall d
      ensures DirectSoFar(files, read, v, n + 1, d) <==> DirectSoFar(files, read, v, n, d) || item == Scope(d)
    {
      OneLineMore(files, read, v, n, d);
    }
  }

  lemma OneLineMore(files: Files, read: Reading, v: Visit, n: nat, d: string)
    requires v.name in files && n < |files[v.name]|
    ensures DirectSoFar(files, read, v, n + 1, d) <==>
            DirectSoFar(files, read, v, n, d) || read.kind(files[v.name][n], v.required) == Scope(d)
  {
  }

  lemma CollectedAll(files: Files, read: Reading, domains: set<string>, s: set<Visit>, v: Visit)
    requires v.name in files && Collected(files, read, domains, s, v, |files[v.name]|)
    ensures forall d :: d in domains <==> DirectOfSome(files, read, s + {v}, d)
  {
    forall d
      ensures DirectOfSome(files, read, s + {v}, d) <==>
              DirectOfSome(files, read, s, d) || DirectSoFar(files, read, v, |files[v.name]|, d)
    {
      if u :| u in s + {v} && Direct(files, read, u, d) {
      }
      if DirectSoFar(files, read, v, |files[v.name]|, d) {
        assert Direct(files, read, v, d);
      }
    }
  }

  /** `expand` on `v` after `i` lines: what was collected, which visits are finished, what is seen. */
  ghost predicate Progress(files: Files, read: Reading, before: set<Visit>, now: set<Visit>, v: Visit, i: nat,
                           domains: set<string>, finished: seq<Visit>) {
    && v.name in files && i <= |files[v.name]|
    && v in now && v !in before
    && Explored(files, read, before, now, v, {v}) && Followed(files, read, now, v, i)
    && Collected(files, read, domains, now - before - {v}, v, i)
    && Lists(finished, now - before - {v})
  }

  /** What a completed `expand` of `v` has done. */
  ghost predicate Expanded(files: Files, read: Reading, before: set<Visit>, now: set<Visit>, v: Visit,
                           domains: set<string>, finished: seq<Visit>) {
    && v in now
    && Explored(files, read, before, now, v, {})
    && (forall d :: d in domains <==> DirectOfSome(files, read, now - before, d))
    && Lists(finished, now - before)
  }

  lemma ProgressStart(files: Files, read: Reading, before: set<Visit>, v: Visit)
    requires v.name in files && v !in before
    ensures Progress(files, read, before, before + {v}, v, 0, {}, [])
  {
    ReachesSelf(files, read, v);
    assert before + {v} - before - {v} == {};
  }

  lemma ProgressLine(files: Files, read: Reading, before: set<Visit>, now: set<Visit>, v: Visit, i: nat,
                     domains: set<string>, finished: seq<Visit>)
    requires Progress(files, read, before, now, v, i, domains, finished) && i < |files[v.name]|
    requires !read.kind(files[v.name][i], v.required).Include?
    ensures var item := read.kind(files[v.name][i], v.required);
            Progress(files, read, before, now, v, i + 1, if item.Scope? then domains + {item.scope} else domains,
                     finished)
  {
    CollectedLine(files, read, domains, now - before - {v}, v, i);
  }

  lemma IncludeCollected(files: Files, read: Reading, before: set<Visit>, mid: set<Visit>, now: set<Visit>,
                         v: Visit, i: nat, domains: set<string>, inner: set<string>)
    requires v.name in files && i < |files[v.name]| && read.kind(files[v.name][i], v.required).Include?
    requires before + {v} <= mid <= now
    requires Collected(files, read, domains, mid - before - {v}, v, i)
    requires forall d :: d in inner <==> DirectOfSome(files, read, now - mid, d)
    ensures Collected(files, read, domains + inner, now - before - {v}, v, i + 1)
  {
    CollectedLine(files, read, domains, mid - before - {v}, v, i);
    CollectedThrough(files, read, domains, inner, mid - before - {v}, now - mid, v, i + 1);
    assert (mid - before - {v}) + (now - mid) == now - before - {v};
  }

  lemma IncludeListed(before: set<Visit>, mid: set<Visit>, now: set<Visit>, v: Visit, finished: seq<Visit>,
                      inner: seq<Visit>)
    requires before + {v} <= mid <= now
    requires Lists(finished, mid - before - {v}) && Lists(inner, now - mid)
    ensures Lists(finished + inner, now - before - {v})
  {
    ListsAppend(finished, mid - before - {v}, inner, now - mid);
    assert (mid - before - {v}) + (now - mid) == now - before - {v};
  }

  lemma IncludeFollowed(files: Files, read: Reading, mid: set<Visit>, now: set<Visit>, v: Visit, i: nat, w: Visit)
    requires Followed(files, read, mid, v, i) && i < |files[v.name]| && mid <= now
    requires Leads(files[v.name][i], read, v, w) && w in now
    ensures Followed(files, read, now, v, i + 1)
  {
  }

  lemma ProgressInclude(files: Files, read: Reading, before: set<Visit>, mid: set<Visit>, now: set<Visit>,
                        v: Visit, i: nat, domains: set<string>, finished: seq<Visit>, w: Visit,
                        inner: set<string>, innerFinished: seq<Visit>)
    requires Progress(files, read, before, mid, v, i, domains, finished) && i < |files[v.name]|
    requires Leads(files[v.name][i], read, v, w)
    requires Expanded(files, read, mid, now, w, inner, innerFinished)
    ensures Progress(files, read, before, now, v, i + 1, domains + inner, finished + innerFinished)
  {
    assert Edge(files, read, v, w);
    ExploredThrough(files, read, before, mid, now, v, w);
    IncludeCollected(files, read, before, mid, now, v, i, domains, inner);
    IncludeListed(before, mid, now, v, finished, innerFinished);
    IncludeFollowed(files, read, mid, now, v, i, w);
  }

  lemma ProgressEnd(files: Files, read: Reading, before: set<Visit>, now: set<Visit>, v: Visit,
                    domains: set<string>, finished: seq<Visit>)
    requires v.name in files && Progress(files, read, before, now, v, |files[v.name]|, domains, finished)
    ensures Expanded(files, read, before, now, v, domains, finished + [v])
  {
    ExploredClosed(files, read, before, now, v);
    CollectedAll(files, read, domains, now - before - {v}, v);
    ListsAppend(finished, now - before - {v}, [v], {v});
    assert (now - before - {v}) + {v} == now - before;
  }

  /** The list named by an error is missing and reachable. */
  ghost predicate MissingFrom(files: Files, read: Reading, v: Visit, name: string) {
    exists w :: Reaches(files, read, v, w) && w.name !in files && w.name == name
  }

  lemma MissingThrough(files: Files, read: Reading, v: Visit, w: Visit, name: string)
    requires Edge(files, read, v, w) && MissingFrom(files, read, w, name)
    ensures MissingFrom(files, read, v, name)
  {
    var m :| Reaches(files, read, w, m) && m.name !in files && m.name == name;
    ReachesStep(files, read, v, w, m);
  }

  // ---- the expansion

  /** One run of `expand`, with the `seen` set and the `skipped` counters it shares down the recursion. */
  class Expander {
    const files: Files
    const read: Reading
    var seen: set<Visit>
    var unsupported: nat
    var invalid: nat

    constructor (files: Files, read: Reading)
      ensures this.files == files && this.read == read
      ensures seen == {} && unsupported == 0 && invalid == 0
    {
      this.files, this.read := files, read;
      seen, unsupported, invalid := {}, 0, 0;
    }

    method Expand(name: string, required: set<string>)
      returns (r: Result<set<string>, string>, ghost finished: seq<Visit>)
      requires Sound(read) && required <= AllTags(files, read)
      modifies this
      ensures old(seen) <= seen
      ensures r.Success? ==> Expanded(files, read, old(seen), seen, Visit(name, required), r.value, finished)
      ensures r.Success? ==> unsupported == old(unsupported) + Total(files, read, finished, Unsupported)
      ensures r.Success? ==> invalid == old(invalid) + Total(files, read, finished, Invalid)
      ensures r.Failure? ==> MissingFrom(files, read, Visit(name, required), r.error)
      decreases Universe(files, read) - seen, 0
    {
      var v := Visit(name, required);
      if v in seen {
        assert seen - old(seen) == {};
        return Success({}), [];
      }
      if name !in files {
        ReachesSelf(files, read, v);
        return Failure(name), [];
      }
      assert v in Universe(files, read);
      ghost var before := seen;
      seen := seen + {v};
      ProgressStart(files, read, before, v);
      r, finished := ExpandLines(before, v);
      if r.Success? {
        ProgressEnd(files, read, before, seen, v, r.value, finished);
        TotalMore(files, read, finished, v, Unsupported);
        TotalMore(files, read, finished, v, Invalid);
        finished := finished + [v];
      }
    }

    /** The loop over a list's lines. */
    method ExpandLines(ghost before: set<Visit>, v: Visit)
      returns (r: Result<set<string>, string>, ghost finished: seq<Visit>)
      requires Sound(read) && v.required <= AllTags(files, read)
      requires Progress(files, read, before, seen, v, 0, {}, [])
      modifies this
      ensures old(seen) <= seen
      ensures r.Success? ==> Progress(files, read, before, seen, v, |files[v.name]|, r.value, finished)
      ensures r.Success? ==>
                unsupported == old(unsupported) + Tally(files, read, v, |files[v.name]|, finished, Unsupported)
      ensures r.Success? ==> invalid == old(invalid) + Tally(files, read, v, |files[v.name]|, finished, Invalid)
      ensures r.Failure? ==> MissingFrom(files, read, v, r.error)
      decreases Universe(files, read) - seen, 2
    {
      finished := [];
      NothingTallied(files, read, v, Unsupported);
      NothingTallied(files, read, v, Invalid);
      var domains: set<string> := {};
      var lines := files[v.name];
      for i := 0 to |lines|
        invariant old(seen) <= seen
        invariant Progress(files, read, before, seen, v, i, domains, finished)
        invariant unsupported == old(unsupported) + Tally(files, read, v, i, finished, Unsupported)
        invariant invalid == old(invalid) + Tally(files, read, v, i, finished, Invalid)
      {
        var line;
        line, finished := ExpandLine(before, v, i, domains, finished);
        if line.Failure? {
          return line, finished;
        }
        domains := line.value;
      }
      return Success(domains), finished;
    }

    /** The body of the loop over a list's lines: returns the domains collected so far. */
    method ExpandLine(ghost before: set<Visit>, v: Visit, i: nat, domains: set<string>, ghost done: seq<Visit>)
      returns (r: Result<set<string>, string>, ghost finished: seq<Visit>)
      requires Sound(read) && v.required <= AllTags(files, read)
      requires Progress(files, read, before, seen, v, i, domains, done) && i < |files[v.name]|
      modifies this
      ensures old(seen) <= seen
      ensures r.Success? ==> Progress(files, read, before, seen, v, i + 1, r.value, finished)
      ensures r.Success? ==> unsupported - old(unsupported) ==
                             Tally(files, read, v, i + 1, finished, Unsupported) -
                             Tally(files, read, v, i, done, Unsupported)
      ensures r.Success? ==> invalid - old(invalid) ==
                             Tally(files, read, v, i + 1, finished, Invalid) - Tally(files, read, v, i, done, Invalid)
      ensures r.Failure? ==> MissingFrom(files, read, v, r.error)
      decreases Universe(files, read) - seen, 1
    {
      finished := done;
      var item := read.kind(files[v.name][i], v.required);
      if !item.Include? {
        ProgressLine(files, read, before, seen, v, i, domains, done);
      }
      match item {
        case Include(target, tags) =>
          IncludeStaysInUniverse(files, read, v, i);
          ghost var mid := seen;
          ghost var w := Visit(target, v.required + tags);
          assert Leads(files[v.name][i], read, v, w) && Edge(files, read, v, w);
          var inner, innerFinished := Expand(target, v.required + tags);
          if inner.Failure? {
            MissingThrough(files, read, v, w, inner.error);
            return inner, finished;
          }
          ProgressInclude(files, read, before, mid, seen, v, i, domains, done, w, inner.value, innerFinished);
          TotalAppend(files, read, done, innerFinished, Unsupported);
          TotalAppend(files, read, done, innerFinished, Invalid);
          return Success(domains + inner.value), done + innerFinished;
        case Scope(scope) =>
          return Success(domains + {scope}), done;
        case Unsupported =>
          unsupported := unsupported + 1;
          return Success(domains), done;
        case Invalid =>
          invalid := invalid + 1;
          return Success(domains), done;
        case Nothing =>
          return Success(domains), done;
      }
    }
  }

  lemma TotalOne(files: Files, read: Reading, v: Visit, item: Item)
    ensures Total(files, read, [v], item) == CountOf(files, read, v, item)
  {
    assert [v][..0] == [];
  }

  lemma NothingTallied(files: Files, read: Reading, v: Visit, item: Item)
    requires v.name in files
    ensures Tally(files, read, v, 0, [], item) == 0
  {
  }

  /** When all lines of `v` are done, it counts as finished. */
  lemma TotalMore(files: Files, read: Reading, visits: seq<Visit>, v: Visit, item: Item)
    requires v.name in files
    ensures Total(files, read, visits + [v], item) == Tally(files, read, v, |files[v.name]|, visits, item)
  {
    TotalAppend(files, read, visits, [v], item);
    TotalOne(files, read, v, item);
  }

  // ---- main results

  /** Main result: from an empty `seen`, the expansion of `key` succeeds exactly when no reachable visit
      names a missing list, and then returns exactly the scopes of the reachable visits; every reachable
      visit is made exactly once, and its skipped lines are counted exactly once. */
  method ExpandReading(files: Files, key: string, read: Reading)
    returns (r: Result<set<string>, string>, unsupported: nat, invalid: nat, ghost visits: seq<Visit>)
    requires Sound(read)
    ensures r.Failure? <==> exists w :: Reaches(files, read, Visit(key, {}), w) && w.name !in files
    ensures r.Failure? ==> MissingFrom(files, read, Visit(key, {}), r.error)
    ensures r.Success? ==>
              forall d :: d in r.value <==>
              exists u :: Reaches(files, read, Visit(key, {}), u) && Direct(files, read, u, d)
    ensures r.Success? ==>
              && (forall u :: u in visits <==> Reaches(files, read, Visit(key, {}), u))
              && (forall i, j :: 0 <= i < j < |visits| ==> visits[i] != visits[j])
              && unsupported == Total(files, read, visits, Unsupported)
              && invalid == Total(files, read, visits, Invalid)
  {
    var e := new Expander(files, read);
    r, visits := e.Expand(key, {});
    unsupported, invalid := e.unsupported, e.invalid;
    ghost var root := Visit(key, {});
    if r.Success? {
      assert e.seen - {} == e.seen;
      forall u
        ensures u in e.seen <==> Reaches(files, read, root, u)
      {
        if Reaches(files, read, root, u) {
          var p :| PathFromTo(files, read, p, root, u);
          ClosedContains(files, read, e.seen, p);
        }
      }
    }
  }

  /** The same for the script: its way to read lines is one of these. */
  method ExpandService(files: Files, key: string, ads: bool)
    returns (r: Result<set<string>, string>, unsupported: nat, invalid: nat, ghost visits: seq<Visit>,
             ghost read: Reading)
    ensures read == Script(ads)
    ensures r.Failure? <==> exists w :: Reaches(files, read, Visit(key, {}), w) && w.name !in files
    ensures r.Failure? ==> MissingFrom(files, read, Visit(key, {}), r.error)
    ensures r.Success? ==>
              forall d :: d in r.value <==>
              exists u :: Reaches(files, read, Visit(key, {}), u) && Direct(files, read, u, d)
    ensures r.Success? ==>
              && (forall u :: u in visits <==> Reaches(files, read, Visit(key, {}), u))
              && (forall i, j :: 0 <= i < j < |visits| ==> visits[i] != visits[j])
              && unsupported == Total(files, read, visits, Unsupported)
              && invalid == Total(files, read, visits, Invalid)
  {
    read := Script(ads);
    ScriptIsSound(ads);
    r, unsupported, invalid, visits := ExpandReading(files, key, Script(ads));
  }

  /** The order of a list's lines does not matter to what can be reached or contributed, although the
      walk depends on it. */
  ghost predicate SameLines(f: Files, g: Files) {
    f.Keys == g.Keys && forall n, line :: n in f ==> (line in f[n] <==> line in g[n])
  }

  lemma SameLinesEdge(f: Files, g: Files, read: Reading, v: Visit, w: Visit)
    requires SameLines(f, g) && Edge(f, read, v, w)
    ensures Edge(g, read, v, w)
  {
    var i :| 0 <= i < |f[v.name]| && Leads(f[v.name][i], read, v, w);
    assert f[v.name][i] in g[v.name];
    var j :| 0 <= j < |g[v.name]| && g[v.name][j] == f[v.name][i];
  }

  lemma SameLinesReach(f: Files, g: Files, read: Reading, p: seq<Visit>)
    requires SameLines(f, g) && Path(f, read, p)
    ensures Path(g, read, p)
  {
    forall i | 0 <= i < |p| - 1
      ensures Edge(g, read, p[i], p[i + 1])
    {
      SameLinesEdge(f, g, read, p[i], p[i + 1]);
    }
  }

  lemma SameLinesResult(f: Files, g: Files, read: Reading, v: Visit, u: Visit, d: string)
    requires SameLines(f, g)
    ensures Reaches(f, read, v, u) ==> Reaches(g, read, v, u)
    ensures Direct(f, read, u, d) ==> Direct(g, read, u, d)
  {
    if Reaches(f, read, v, u) {
      var p :| PathFromTo(f, read, p, v, u);
      SameLinesReach(f, g, read, p);
      assert PathFromTo(g, read, p, v, u);
    }
    if Direct(f, read, u, d) {
      var i :| 0 <= i < |f[u.name]| && read.kind(f[u.name][i], u.required) == Scope(d);
      assert f[u.name][i] in g[u.name];
      var j :| 0 <= j < |g[u.name]| && g[u.name][j] == f[u.name][i];
    }
  }
}

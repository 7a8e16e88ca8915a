/** Packing a build context (internal/service/context.go): the walk over a
    directory tree, the .dockerignore rules and the size limit. Shell pattern
    matching of one name (path.Match) is a parameter; unless the disk is reliable
    reading can fail anywhere. */
module BuildContext {
  import opened Text
  import opened Paths

  // The rules.

  datatype Pattern = Pattern(text: string, negated: bool)

  /** `glob(pattern, name)`: path.Match succeeds and says yes. */
  datatype Rules = Rules(patterns: seq<Pattern>, glob: (string, string) -> bool)

  predicate HasSuffix(s: string, suffix: string) {
    |suffix| <= |s| && s[|s| - |suffix|..] == suffix
  }

  /** path.Base of a clean relative name. */
  function Base(name: string): string {
    var parts := Split(name);
    parts[|parts| - 1]
  }

  predicate AnyDepth(glob: (string, string) -> bool, pattern: string, name: string) {
    "**/" <= pattern && (glob(pattern[3..], Base(name)) || HasSuffix(name, "/" + pattern[3..]))
  }

  predicate IgnoreMatches(glob: (string, string) -> bool, pattern: string, name: string, isDir: bool) {
    || glob(pattern, name)
    || pattern + "/" <= name
    || AnyDepth(glob, pattern, name)
    || (isDir && HasSuffix(pattern, "/") && glob(pattern[..|pattern| - 1], name))
  }

  // What a pattern covers, element by element.

  /** A text that can be cut at a slash is a path that can. */
  lemma CutsAt(p: seq<string>, before: string, after: string)
    requires p != [] && Slashless(p) && Join(p) == before + "/" + after
    ensures p == Split(before) + Split(after)
  {
    SplitJoin(p);
    SplitAppend(before, after);
  }

  lemma PrefixCuts(a: string, s: string)
    requires a + "/" <= s
    ensures s == a + "/" + s[|a| + 1..]
  {
  }

  lemma Starts(a: string, b: string)
    ensures a + "/" <= a + "/" + b && (a + "/" + b)[|a| + 1..] == b
  {
  }

  lemma PrefixIsAbove(q: seq<string>, p: seq<string>, a: string, s: string)
    requires q != [] && p != [] && Slashless(q) && Slashless(p) && a == Join(q) && s == Join(p)
    requires a + "/" <= s
    ensures |q| < |p| && q <= p
  {
    PrefixCuts(a, s);
    CutsAt(p, a, s[|a| + 1..]);
    SplitJoin(q);
  }

  lemma AboveIsPrefix(q: seq<string>, p: seq<string>, a: string, s: string)
    requires q != [] && p != [] && a == Join(q) && s == Join(p)
    requires |q| < |p| && q <= p
    ensures a + "/" <= s
  {
    var rest := p[|q|..];
    Continues(q, p);
    JoinAppend(q, rest);
    Starts(a, Join(rest));
  }

  lemma Continues(q: seq<string>, p: seq<string>)
    requires q <= p
    ensures q + p[|q|..] == p
  {
  }

  lemma PrefixIff(q: seq<string>, p: seq<string>)
    requires q != [] && p != [] && Slashless(q) && Slashless(p)
    ensures Join(q) + "/" <= Join(p) <==> |q| < |p| && q <= p
  {
    if Join(q) + "/" <= Join(p) { PrefixIsAbove(q, p, Join(q), Join(p)); }
    if |q| < |p| && q <= p { AboveIsPrefix(q, p, Join(q), Join(p)); }
  }

  predicate EndsWith(p: seq<string>, r: seq<string>) {
    |r| < |p| && p[|p| - |r|..] == r
  }

  lemma SuffixIsEnd(r: seq<string>, p: seq<string>, b: string, s: string)
    requires r != [] && p != [] && Slashless(r) && Slashless(p) && b == Join(r) && s == Join(p)
    requires HasSuffix(s, "/" + b)
    ensures EndsWith(p, r)
  {
    var before := s[..|s| - |b| - 1];
    assert s == before + ("/" + b) == before + "/" + b;
    CutsAt(p, before, b);
    SplitJoin(r);
  }

  lemma EndIsSuffix(r: seq<string>, p: seq<string>, b: string, s: string)
    requires r != [] && p != [] && b == Join(r) && s == Join(p) && EndsWith(p, r)
    ensures HasSuffix(s, "/" + b)
  {
    var before := p[..|p| - |r|];
    assert p == before + r;
    JoinAppend(before, r);
    assert s == Join(before) + ("/" + b);
  }

  lemma SuffixIff(r: seq<string>, p: seq<string>)
    requires r != [] && p != [] && Slashless(r) && Slashless(p)
    ensures HasSuffix(Join(p), "/" + Join(r)) <==> EndsWith(p, r)
  {
    if HasSuffix(Join(p), "/" + Join(r)) { SuffixIsEnd(r, p, Join(r), Join(p)); }
    if EndsWith(p, r) { EndIsSuffix(r, p, Join(r), Join(p)); }
  }

  lemma StarsIff(q: seq<string>)
    requires q != [] && Slashless(q)
    ensures "**/" <= Join(q) <==> q[0] == "**" && |q| > 1
    ensures q[0] == "**" && |q| > 1 ==> Join(q)[3..] == Join(q[1..])
  {
    var s := Join(q);
    if "**/" <= s {
      assert "**" + "/" == "**/";
      PrefixCuts("**", s);
      CutsAt(q, "**", s[3..]);
      SplitWord("**", "");
    }
    if q[0] == "**" && |q| > 1 {
      Starts("**", Join(q[1..]));
    }
  }

  /** A relative pattern, cleaned, covers a path if it matches the whole of it; if it
      names a directory above it; or if it starts with `**` and the rest matches the
      last element, or is what the path ends with. */
  ghost predicate Covers(glob: (string, string) -> bool, q: seq<string>, p: seq<string>)
    requires q != [] && p != []
  {
    || glob(Join(q), Join(p))
    || (|q| < |p| && q <= p)
    || (q[0] == "**" && |q| > 1 && (glob(Join(q[1..]), p[|p| - 1]) || EndsWith(p, q[1..])))
  }

  lemma BaseIsLast(p: seq<string>)
    requires p != [] && Slashless(p)
    ensures Base(Join(p)) == p[|p| - 1]
  {
    SplitJoin(p);
  }

  lemma AnyDepthOf(glob: (string, string) -> bool, pattern: string, name: string, rest: string, base: string)
    requires "**/" <= pattern && pattern[3..] == rest && Base(name) == base
    ensures AnyDepth(glob, pattern, name) <==> glob(rest, base) || HasSuffix(name, "/" + rest)
  {
  }

  lemma AnyDepthIff(glob: (string, string) -> bool, q: seq<string>, p: seq<string>)
    requires q != [] && p != [] && Slashless(q) && Slashless(p)
    ensures AnyDepth(glob, Join(q), Join(p)) <==>
              q[0] == "**" && |q| > 1 && (glob(Join(q[1..]), p[|p| - 1]) || EndsWith(p, q[1..]))
  {
    StarsIff(q);
    if q[0] == "**" && |q| > 1 {
      SuffixIff(q[1..], p);
      BaseIsLast(p);
      AnyDepthOf(glob, Join(q), Join(p), Join(q[1..]), p[|p| - 1]);
    }
  }

  /** What a relative pattern is once it is cleaned. */
  lemma PatternSteps(text: string)
    requires !IsAbs(text) && Clean(text) != "."
    ensures var q := Steps(Clean(text));
            q != [] && Slashless(q) && Clean(text) == Join(q) && !HasSuffix(Join(q), "/")
  {
    SplitIsSlashless(text);
    WalkIsTidy(false, [], Split(text));
    StepsOfShown(Walk(false, [], Split(text)));
    CleanHasNoTrailingSlash(text);
    CleanKeepsAbs(text);
  }

  lemma MatchMeans(glob: (string, string) -> bool, text: string, p: seq<string>, isDir: bool)
    requires !IsAbs(text) && Clean(text) != "." && Real(p) && p != []
    ensures Steps(Clean(text)) != []
    ensures IgnoreMatches(glob, Clean(text), Join(p), isDir) <==> Covers(glob, Steps(Clean(text)), p)
  {
    PatternSteps(text);
    PrefixIff(Steps(Clean(text)), p);
    AnyDepthIff(glob, Steps(Clean(text)), p);
  }

  predicate Hits(rules: Rules, i: nat, name: string, isDir: bool)
    requires i < |rules.patterns|
  {
    IgnoreMatches(rules.glob, rules.patterns[i].text, name, isDir)
  }

  /** The last pattern that matches decides. */
  predicate Ignored(rules: Rules, name: string, isDir: bool) {
    exists i | 0 <= i < |rules.patterns| ::
      && Hits(rules, i, name, isDir) && !rules.patterns[i].negated
      && forall k | i < k < |rules.patterns| :: !Hits(rules, k, name, isDir)
  }

  method MatchesDockerignore(rules: Rules, name: string, isDir: bool) returns (excluded: bool)
    ensures excluded <==> Ignored(rules, name, isDir)
  {
    excluded := false;
    ghost var last := -1;
    for i := 0 to |rules.patterns|
      invariant -1 <= last < i && (excluded <==> last >= 0 && !rules.patterns[last].negated)
      invariant last >= 0 ==> Hits(rules, last, name, isDir)
      invariant forall k | last < k < i :: !Hits(rules, k, name, isDir)
    {
      if Hits(rules, i, name, isDir) {
        excluded := !rules.patterns[i].negated;
        last := i;
      }
    }
  }

  /** One line of .dockerignore. */
  function ParseLine(text: string): Option<Pattern> {
    var line := TrimSpace(text);
    if line == "" || line[0] == '#' then None
    else if line[0] == '!' then
      var rest := TrimSpace(line[1..]);
      if rest == "" then None else Some(Pattern(Clean(rest), true))
    else Some(Pattern(Clean(line), false))
  }

  /** What a line says, whatever white space it has around it: a comment and an empty
      line nothing, a line with a `!` takes back what its pattern covers, any other
      excludes it. */
  lemma LineMeans(a: string, w: string, b: string, c: string)
    requires Blank(a) && Blank(b) && Blank(c)
    requires w != "" && !IsSpace(w[0]) && !IsSpace(w[|w| - 1])
    ensures ParseLine(a) == None && ParseLine(a + "!" + b) == None
    ensures w[0] == '#' ==> ParseLine(a + w + c) == None
    ensures w[0] != '#' && w[0] != '!' ==> ParseLine(a + w + c) == Some(Pattern(Clean(w), false))
    ensures ParseLine(a + ("!" + b + w) + c) == Some(Pattern(Clean(w), true))
  {
    TrimAround(a, "", "");
    assert a + "" + "" == a;
    TrimAround(a, w, c);
    TrimAround(a, "!", b);
    assert "!"[1..] == "" && TrimSpace("") == "";
    var taken := "!" + b + w;
    TrimAround(a, taken, c);
    assert taken[1..] == b + w + "";
    TrimAround(b, w, "");
  }

  function Collect(read: string -> Option<Pattern>, lines: seq<string>): seq<Pattern>
    decreases |lines|
  {
    if lines == [] then []
    else
      var n := |lines| - 1;
      var p := read(lines[n]);
      Collect(read, lines[..n]) + if p.Some? then [p.value] else []
  }

  function Parse(lines: seq<string>): seq<Pattern> {
    Collect(ParseLine, lines)
  }

  /** Patterns come in the order of their lines. */
  lemma ParseAppend(a: seq<string>, b: seq<string>)
    ensures Parse(a + b) == Parse(a) + Parse(b)
  {
    CollectAppend(ParseLine, a, b);
  }

  lemma {:induction false} CollectAppend(read: string -> Option<Pattern>, a: seq<string>, b: seq<string>)
    ensures Collect(read, a + b) == Collect(read, a) + Collect(read, b)
    decreases |b|
  {
    if b == [] {
      assert a + b == a;
    } else {
      var n, s := |b| - 1, a + b;
      CollectAppend(read, a, b[..n]);
      assert s[..|s| - 1] == a + b[..n] && s[|s| - 1] == b[n];
    }
  }

  method ReadDockerignore(lines: seq<string>) returns (patterns: seq<Pattern>)
    ensures patterns == Parse(lines)
  {
    patterns := [];
    for i := 0 to |lines|
      invariant patterns == Parse(lines[..i])
    {
      assert lines[..i + 1][..i] == lines[..i];
      var line := TrimSpace(lines[i]);
      if line == "" || line[0] == '#' { continue; }
      var negated := line[0] == '!';
      if negated {
        line := TrimSpace(line[1..]);
        if line == "" { continue; }
      }
      patterns := patterns + [Pattern(Clean(line), negated)];
    }
    assert lines[..|lines|] == lines;
  }

  lemma {:induction false} JoinEnds(parts: seq<string>)
    requires parts != []
    ensures |parts[|parts| - 1]| <= |Join(parts)|
    ensures HasSuffix(Join(parts), parts[|parts| - 1])
  {
    if |parts| > 1 { JoinEnds(parts[1..]); }
  }

  /** A cleaned pattern ends in a slash only if it is the root, so the branch of
      ignoreMatches for a trailing slash decides nothing about a name in the tree. */
  lemma CleanHasNoTrailingSlash(text: string)
    ensures HasSuffix(Clean(text), "/") <==> Clean(text) == "/"
  {
    var out := Walk(IsAbs(text), [], Split(text));
    SplitIsSlashless(text);
    WalkIsTidy(IsAbs(text), [], Split(text));
    if out != [] {
      JoinEnds(out);
      var last := out[|out| - 1];
      assert TidyPart(IsAbs(text), last);
      assert last[|last| - 1] in last;
      assert Clean(text)[|Clean(text)| - 1] == last[|last| - 1];
    }
  }

  // The tree.

  /** A directory's entries, in the order they are walked. */
  datatype Listing = End | Item(name: string, node: Node, rest: Listing)

  /** A file's size and the running total are 64 bits wide. */
  type Size = n: nat | n <= MAX_INT

  type Int64 = x: int | -(MAX_INT + 1) <= x <= MAX_INT

  datatype Node = Dir(inside: Listing) | File(size: Size) | Link | Special

  datatype Found = Found(path: seq<string>, node: Node)

  /** Everything in a tree, each entry before what it holds. */
  function All(prefix: seq<string>, l: Listing): seq<Found>
    decreases l
  {
    match l
    case End => []
    case Item(name, node, rest) =>
      [Found(prefix + [name], node)]
      + (if node.Dir? then All(prefix + [name], node.inside) else [])
      + All(prefix, rest)
  }

  /** The tree holds this node at this path. */
  predicate Has(l: Listing, path: seq<string>, node: Node)
    decreases l
  {
    l.Item? &&
    (|| Has(l.rest, path, node)
     || (&& path != [] && path[0] == l.name
         && (path == [l.name] ==> l.node == node)
         && (path != [l.name] ==> l.node.Dir? && Has(l.node.inside, path[1..], node))))
  }

  lemma {:induction false} AllBelow(prefix: seq<string>, l: Listing, f: Found)
    requires f in All(prefix, l)
    ensures prefix <= f.path && |prefix| < |f.path|
    decreases l
  {
    var here := prefix + [l.name];
    if l.node.Dir? && f in All(here, l.node.inside) {
      AllBelow(here, l.node.inside, f);
      assert here[..|prefix|] == prefix;
    } else if f in All(prefix, l.rest) {
      AllBelow(prefix, l.rest, f);
    }
  }

  lemma Apart(prefix: seq<string>, name: string, path: seq<string>)
    requires path == [] || path[0] != name
    ensures !(prefix + [name] <= prefix + path)
  {
    if path != [] { assert (prefix + path)[|prefix|] != (prefix + [name])[|prefix|]; }
  }

  /** The walk comes past everything in the tree and nothing else. */
  lemma {:induction false} AllAre(prefix: seq<string>, l: Listing, path: seq<string>, node: Node)
    ensures Found(prefix + path, node) in All(prefix, l) <==> Has(l, path, node)
    decreases l
  {
    if l.Item? {
      var f, here := Found(prefix + path, node), prefix + [l.name];
      AllAre(prefix, l.rest, path, node);
      if path != [] && path[0] == l.name {
        assert prefix + path == here + path[1..];
        assert path == [l.name] <==> f.path == here;
        if l.node.Dir? {
          AllAre(here, l.node.inside, path[1..], node);
          if f in All(here, l.node.inside) { AllBelow(here, l.node.inside, f); }
        }
      } else {
        Apart(prefix, l.name, path);
        if l.node.Dir? && f in All(here, l.node.inside) { AllBelow(here, l.node.inside, f); }
      }
    }
  }

  /** Which paths are excluded, told whether they are directories. */
  type Test = (seq<string>, bool) -> bool

  /** No directory of this chain is excluded. */
  predicate Open(ex: Test, dirs: seq<string>) {
    forall k | 0 < k <= |dirs| :: !ex(dirs[..k], true)
  }

  /** What belongs in the context: a directory, regular file or link such that
      neither it nor any directory above it is excluded. */
  predicate Belongs(ex: Test, f: Found) {
    && f.path != [] && Open(ex, f.path[..|f.path| - 1])
    && !ex(f.path, f.node.Dir?) && !f.node.Special?
  }

  /** Excluded by its own name, with nothing above it excluded. */
  predicate KeptOut(ex: Test, f: Found) {
    f.path != [] && Open(ex, f.path[..|f.path| - 1]) && ex(f.path, f.node.Dir?)
  }

  function Select(p: Found -> bool, s: seq<Found>): seq<Found> {
    if s == [] then [] else (if p(s[0]) then [s[0]] else []) + Select(p, s[1..])
  }

  function Chosen(ex: Test, all: seq<Found>): seq<Found> {
    Select(f => Belongs(ex, f), all)
  }

  function CountOut(ex: Test, all: seq<Found>): nat {
    |Select(f => KeptOut(ex, f), all)|
  }

  function FileCount(fs: seq<Found>): nat {
    if fs == [] then 0 else (if fs[0].node.File? then 1 else 0) + FileCount(fs[1..])
  }

  function SizeOf(f: Found): Size {
    if f.node.File? then f.node.size else 0
  }

  function TotalSize(fs: seq<Found>): nat {
    if fs == [] then 0 else SizeOf(fs[0]) + TotalSize(fs[1..])
  }

  lemma {:induction false} SelectAppend(p: Found -> bool, a: seq<Found>, b: seq<Found>)
    ensures Select(p, a + b) == Select(p, a) + Select(p, b)
  {
    if a == [] {
      assert a + b == b;
    } else {
      SelectAppend(p, a[1..], b);
      assert (a + b)[1..] == a[1..] + b && (a + b)[0] == a[0];
    }
  }

  /** What the entries of a listing select: the first, what it holds, the rest. */
  lemma SelectItem(p: Found -> bool, f: Found, within: seq<Found>, rest: seq<Found>)
    ensures Select(p, [f] + within + rest) == (if p(f) then [f] else []) + Select(p, within) + Select(p, rest)
  {
    SelectAppend(p, [f] + within, rest);
    SelectAppend(p, [f], within);
    assert Select(p, [f]) == if p(f) then [f] else [];
  }

  /** What is counted as a file is one. */
  lemma {:induction false} CountsFiles(fs: seq<Found>)
    ensures FileCount(fs) == |Select((f: Found) => f.node.File?, fs)|
  {
    if fs != [] { CountsFiles(fs[1..]); }
  }

  lemma {:induction false} CountAppend(a: seq<Found>, b: seq<Found>)
    ensures FileCount(a + b) == FileCount(a) + FileCount(b)
  {
    if a == [] {
      assert a + b == b;
    } else {
      CountAppend(a[1..], b);
      assert (a + b)[1..] == a[1..] + b && (a + b)[0] == a[0];
    }
  }

  /** Nothing below an excluded directory belongs, whatever its own rules say. */
  lemma {:induction false} NothingBelow(ex: Test, prefix: seq<string>, l: Listing)
    requires !Open(ex, prefix)
    ensures Chosen(ex, All(prefix, l)) == [] && CountOut(ex, All(prefix, l)) == 0
    decreases l
  {
    match l
    case End =>
    case Item(name, node, rest) =>
      var here := prefix + [name];
      var f := Found(here, node);
      assert here[..|here| - 1] == prefix;
      NothingBelow(ex, prefix, rest);
      var within := if node.Dir? then All(here, node.inside) else [];
      if node.Dir? {
        ClosedStaysClosed(ex, prefix, name);
        NothingBelow(ex, here, node.inside);
      }
      SelectItem(f => Belongs(ex, f), f, within, All(prefix, rest));
      SelectItem(f => KeptOut(ex, f), f, within, All(prefix, rest));
  }

  lemma ClosedStaysClosed(ex: Test, prefix: seq<string>, name: string)
    ensures Open(ex, prefix + [name]) <==> Open(ex, prefix) && !ex(prefix + [name], true)
  {
    var here := prefix + [name];
    assert here[..|here|] == here;
    assert forall k | 0 < k <= |prefix| :: here[..k] == prefix[..k];
  }

  /** What one entry of an open directory brings, with everything in it. */
  function Brings(ex: Test, here: seq<string>, node: Node): seq<Found> {
    if ex(here, node.Dir?) || node.Special? then []
    else [Found(here, node)] + if node.Dir? then Chosen(ex, All(here, node.inside)) else []
  }

  function LeavesOut(ex: Test, here: seq<string>, node: Node): nat {
    if ex(here, node.Dir?) then 1
    else if node.Dir? then CountOut(ex, All(here, node.inside))
    else 0
  }

  lemma ItemAdds(ex: Test, prefix: seq<string>, l: Listing)
    requires l.Item? && Open(ex, prefix)
    ensures var here := prefix + [l.name];
            && Chosen(ex, All(prefix, l)) == Brings(ex, here, l.node) + Chosen(ex, All(prefix, l.rest))
            && CountOut(ex, All(prefix, l)) == LeavesOut(ex, here, l.node) + CountOut(ex, All(prefix, l.rest))
  {
    var here := prefix + [l.name];
    var f := Found(here, l.node);
    assert here[..|here| - 1] == prefix;
    var within := if l.node.Dir? then All(here, l.node.inside) else [];
    SelectItem(f => Belongs(ex, f), f, within, All(prefix, l.rest));
    SelectItem(f => KeptOut(ex, f), f, within, All(prefix, l.rest));
    if l.node.Dir? && ex(here, true) {
      ClosedStaysClosed(ex, prefix, l.name);
      NothingBelow(ex, here, l.node.inside);
    }
  }

  // The walk.

  datatype Outcome = Packed | TooLarge | ReadError

  /** Go's 64-bit addition. */
  function Add64(a: Int64, b: Size): Int64 {
    if a + b <= MAX_INT then a + b else a + b - 2 * (MAX_INT + 1)
  }

  /** The byte counter after packing some entries. */
  function Running(bytes: Int64, fs: seq<Found>): Int64
    decreases |fs|
  {
    if fs == [] then bytes else Running(Add64(bytes, SizeOf(fs[0])), fs[1..])
  }

  /** How many entries are written before the size check stops the walk. */
  function Stops(limit: Size, bytes: Int64, fs: seq<Found>): (n: nat)
    ensures n <= |fs|
    decreases |fs|
  {
    if fs == [] || (fs[0].node.File? && Add64(bytes, SizeOf(fs[0])) > limit) then 0
    else 1 + Stops(limit, Add64(bytes, SizeOf(fs[0])), fs[1..])
  }

  lemma {:induction false} StopsAppend(limit: Size, bytes: Int64, a: seq<Found>, b: seq<Found>)
    ensures Running(bytes, a + b) == Running(Running(bytes, a), b)
    ensures Stops(limit, bytes, a + b) ==
              if Stops(limit, bytes, a) < |a| then Stops(limit, bytes, a)
              else |a| + Stops(limit, Running(bytes, a), b)
    decreases |a|
  {
    if a == [] {
      assert a + b == b;
    } else {
      StopsAppend(limit, Add64(bytes, SizeOf(a[0])), a[1..], b);
      assert (a + b)[1..] == a[1..] + b && (a + b)[0] == a[0];
    }
  }

  datatype Stats = Stats(files: nat, bytes: Int64, excluded: nat)

  /** A stretch of the walk: what it wrote, counted. */
  ghost predicate Grew(entries: seq<Found>, stats: Stats, entries': seq<Found>, stats': Stats,
                       more: seq<Found>, out: nat)
  {
    && entries' == entries + more
    && stats' == Stats(stats.files + FileCount(more), Running(stats.bytes, more), stats.excluded + out)
  }

  /** How a stretch of the walk over `more` ends: all of it written and counted, or
      just what comes before the entry that the size check refuses. */
  ghost predicate Ends(limit: Size, entries: seq<Found>, stats: Stats, entries': seq<Found>, stats': Stats,
                       more: seq<Found>, out: nat, r: Outcome)
  {
    var n := Stops(limit, stats.bytes, more);
    && (r.Packed? ==> n == |more| && Grew(entries, stats, entries', stats', more, out))
    && (r.TooLarge? ==> n < |more| && entries' == entries + more[..n])
    && (r.ReadError? ==> entries' <= entries + more)
  }

  /** Two stretches one after the other. */
  lemma EndsTwice(limit: Size, e0: seq<Found>, s0: Stats, e1: seq<Found>, s1: Stats, e2: seq<Found>, s2: Stats,
                  a: seq<Found>, b: seq<Found>, m: nat, n: nat, r: Outcome)
    requires Ends(limit, e0, s0, e1, s1, a, m, Packed) && Ends(limit, e1, s1, e2, s2, b, n, r)
    ensures Ends(limit, e0, s0, e2, s2, a + b, m + n, r)
  {
    StopsAppend(limit, s0.bytes, a, b);
    CountAppend(a, b);
    assert e0 + a + b == e0 + (a + b);
    if r.TooLarge? {
      var k := Stops(limit, s1.bytes, b);
      assert (a + b)[..|a| + k] == a + b[..k];
      assert e0 + a + b[..k] == e0 + (a + b[..k]);
    }
  }

  /** A first stretch that ends early ends the whole. */
  lemma EndsEarly(limit: Size, e0: seq<Found>, s0: Stats, e1: seq<Found>, s1: Stats, a: seq<Found>, b: seq<Found>,
                  m: nat, n: nat, r: Outcome)
    requires Ends(limit, e0, s0, e1, s1, a, m, r) && !r.Packed?
    ensures Ends(limit, e0, s0, e1, s1, a + b, n, r)
  {
    StopsAppend(limit, s0.bytes, a, b);
    var k := Stops(limit, s0.bytes, a);
    if k < |a| { assert (a + b)[..k] == a[..k]; }
    assert e0 + a + b == e0 + (a + b);
  }

  function ByRules(rules: Rules): Test {
    (path: seq<string>, isDir: bool) => Ignored(rules, Join(path), isDir)
  }

  /** The tar stream and the counters of one run. */
  class Packer {
    const reliable: bool
    const rules: Rules
    const ex: Test
    const limit: Size
    var entries: seq<Found>
    var stats: Stats

    constructor (rules: Rules, limit: Size, reliable: bool)
      ensures ex == ByRules(rules) && this.rules == rules && this.limit == limit && this.reliable == reliable
      ensures entries == [] && stats == Stats(0, 0, 0)
    {
      this.rules, ex, this.limit, this.reliable := rules, ByRules(rules), limit, reliable;
      entries, stats := [], Stats(0, 0, 0);
    }

    method Matches(path: seq<string>, isDir: bool) returns (out: bool)
      requires ex == ByRules(rules)
      ensures out == ex(path, isDir)
    {
      out := MatchesDockerignore(rules, Join(path), isDir);
    }

    /** Writes one entry, unless it is a file that does not fit. */
    method WriteEntry(f: Found) returns (r: Outcome)
      requires !f.node.Special?
      modifies this
      ensures Ends(limit, old(entries), old(stats), entries, stats, [f], 0, r)
      ensures reliable ==> !r.ReadError?
    {
      assert [f][..0] == [] && [f][1..] == [];
      if f.node.File? && Add64(stats.bytes, f.node.size) > limit { return TooLarge; }
      if !reliable { if * { return ReadError; } }
      if f.node.File? {
        stats := stats.(files := stats.files + 1, bytes := Add64(stats.bytes, f.node.size));
      }
      entries := entries + [f];
      r := Packed;
    }

    /** One entry of a directory that was itself packed, with everything in it. */
    method PackItem(prefix: seq<string>, name: string, node: Node) returns (r: Outcome)
      requires ex == ByRules(rules) && Open(ex, prefix)
      modifies this
      ensures Ends(limit, old(entries), old(stats), entries, stats,
                   Brings(ex, prefix + [name], node), LeavesOut(ex, prefix + [name], node), r)
      ensures reliable ==> !r.ReadError?
      decreases node
    {
      var here := prefix + [name];
      var out := Matches(here, node.Dir?);
      if out {
        stats := stats.(excluded := stats.excluded + 1);
        return Packed;
      }
      if node.Special? { return Packed; }
      var f := Found(here, node);
      r := WriteEntry(f);
      assert [f] + [] == [f];
      if !node.Dir? { return; }
      ghost var e1, s1, inside := entries, stats, Chosen(ex, All(here, node.inside));
      ghost var below := CountOut(ex, All(here, node.inside));
      if !r.Packed? {
        EndsEarly(limit, old(entries), old(stats), e1, s1, [f], inside, 0, below, r);
        return;
      }
      ClosedStaysClosed(ex, prefix, name);
      r := Pack(here, node.inside);
      EndsTwice(limit, old(entries), old(stats), e1, s1, entries, stats, [f], inside, 0, below, r);
    }

    /** The rest of a directory that was itself packed. */
    method Pack(prefix: seq<string>, l: Listing) returns (r: Outcome)
      requires ex == ByRules(rules) && Open(ex, prefix)
      modifies this
      ensures Ends(limit, old(entries), old(stats), entries, stats,
                   Chosen(ex, All(prefix, l)), CountOut(ex, All(prefix, l)), r)
      ensures reliable ==> !r.ReadError?
      decreases l
    {
      if !reliable { if * { return ReadError; } }
      if l.End? { return Packed; }
      ItemAdds(ex, prefix, l);
      ghost var here := prefix + [l.name];
      ghost var first, rest := Brings(ex, here, l.node), Chosen(ex, All(prefix, l.rest));
      ghost var m, n := LeavesOut(ex, here, l.node), CountOut(ex, All(prefix, l.rest));
      r := PackItem(prefix, l.name, l.node);
      ghost var e1, s1 := entries, stats;
      if !r.Packed? {
        EndsEarly(limit, old(entries), old(stats), e1, s1, first, rest, m, m + n, r);
        return;
      }
      r := Pack(prefix, l.rest);
      EndsTwice(limit, old(entries), old(stats), e1, s1, entries, stats, first, rest, m, n, r);
    }
  }

  // The size limit.

  /** The entry that takes the real total past the limit, or the end. */
  function First(limit: Size, total: nat, fs: seq<Found>): (n: nat)
    ensures n <= |fs|
    decreases |fs|
  {
    if fs == [] || total + SizeOf(fs[0]) > limit then 0 else 1 + First(limit, total + SizeOf(fs[0]), fs[1..])
  }

  lemma {:induction false} FirstIs(limit: Size, total: nat, fs: seq<Found>)
    requires total <= limit
    ensures var n := First(limit, total, fs);
            && total + TotalSize(fs[..n]) <= limit
            && (n < |fs| ==> limit < total + TotalSize(fs[..n + 1]) && limit < total + TotalSize(fs))
            && (n == |fs| ==> total + TotalSize(fs) <= limit)
    decreases |fs|
  {
    var n := First(limit, total, fs);
    if n > 0 {
      FirstIs(limit, total + SizeOf(fs[0]), fs[1..]);
      assert fs[..n][1..] == fs[1..][..n - 1];
      if n < |fs| { assert fs[..n + 1][1..] == fs[1..][..n]; }
    } else if fs != [] {
      assert fs[..1][1..] == [];
    }
  }

  /** The entry that breaks the limit does not break 64 bits with it. */
  predicate Countable(limit: Size, total: nat, fs: seq<Found>) {
    var n := First(limit, total, fs);
    n < |fs| ==> total + TotalSize(fs[..n + 1]) <= MAX_INT
  }

  lemma {:induction false} StopsAtFirst(limit: Size, total: nat, fs: seq<Found>)
    requires total <= limit
    ensures Countable(limit, total, fs) ==> Stops(limit, total, fs) == First(limit, total, fs)
    ensures !Countable(limit, total, fs) ==> Stops(limit, total, fs) > First(limit, total, fs)
    decreases |fs|
  {
    FirstIs(limit, total, fs);
    if fs != [] {
      var n := First(limit, total, fs);
      if n > 0 {
        StopsAtFirst(limit, total + SizeOf(fs[0]), fs[1..]);
        if n < |fs| { assert fs[..n + 1][1..] == fs[1..][..n]; }
      } else {
        assert fs[..1][1..] == [];
        assert TotalSize(fs[..1]) == SizeOf(fs[0]);
      }
    }
  }

  lemma {:induction false} TotalOfPrefix(fs: seq<Found>, m: nat, n: nat)
    requires m <= n <= |fs|
    ensures TotalSize(fs[..m]) <= TotalSize(fs[..n])
  {
    if m > 0 {
      TotalOfPrefix(fs[1..], m - 1, n - 1);
      assert fs[..m][1..] == fs[1..][..m - 1] && fs[..n][1..] == fs[1..][..n - 1];
    }
  }

  /** The size limit holds exactly when it can be counted: nothing past the limit
      is ever written if and only if the total that first exceeds it fits in 64
      bits. Then the walk stops right there, and not before. */
  lemma LimitHoldsIff(limit: Size, fs: seq<Found>)
    ensures TotalSize(fs[..Stops(limit, 0, fs)]) <= limit <==> Countable(limit, 0, fs)
    ensures Countable(limit, 0, fs) ==> (Stops(limit, 0, fs) == |fs| <==> TotalSize(fs) <= limit)
  {
    StopsAtFirst(limit, 0, fs);
    FirstIs(limit, 0, fs);
    var n := First(limit, 0, fs);
    if !Countable(limit, 0, fs) { TotalOfPrefix(fs, n + 1, Stops(limit, 0, fs)); }
  }

  lemma {:induction false} RunningIsTotal(bytes: nat, fs: seq<Found>)
    requires bytes + TotalSize(fs) <= MAX_INT
    ensures Running(bytes, fs) == bytes + TotalSize(fs)
    decreases |fs|
  {
    if fs != [] { RunningIsTotal(bytes + SizeOf(fs[0]), fs[1..]); }
  }

  lemma TwoFiles(limit: Size, a: Found, b: Found)
    requires limit >= 1 && a.node == File(1) && b.node == File(MAX_INT)
    ensures TotalSize([a, b]) > limit && !Countable(limit, 0, [a, b])
    ensures Stops(limit, 0, [a, b]) == 2 && Running(0, [a, b]) == -(MAX_INT + 1)
  {
    var fs := [a, b];
    assert fs[1..] == [b] && [b][1..] == [] && fs[..2] == fs;
    assert Running(1, [b]) == Running(Add64(1, MAX_INT), []);
    assert TotalSize(fs) == 1 + TotalSize([b]) && TotalSize([b]) == MAX_INT + TotalSize([]);
    assert First(limit, 0, fs) == 1 + First(limit, 1, [b]);
  }

  /** A tree that slips through any limit: one byte, then as much as a file can
      have. The counter ends up negative. */
  lemma OverflowSlipsThrough(limit: Size, ex: Test)
    requires limit >= 1 && !ex(["a"], false) && !ex(["b"], false)
    ensures var tree := Item("a", File(1), Item("b", File(MAX_INT), End));
            var fs := Chosen(ex, All([], tree));
            && |fs| == 2 && TotalSize(fs) > limit && !Countable(limit, 0, fs)
            && Stops(limit, 0, fs) == |fs| && Running(0, fs) == -(MAX_INT + 1)
  {
    var last := Item("b", File(MAX_INT), End);
    var tree := Item("a", File(1), last);
    ItemAdds(ex, [], tree);
    ItemAdds(ex, [], last);
    var a, b := Found(["a"], File(1)), Found(["b"], File(MAX_INT));
    assert Chosen(ex, All([], tree)) == [a, b];
    TwoFiles(limit, a, b);
  }

  // The whole operation.

  const DEFAULT_MAX_CONTEXT_BYTES: Size := 536870912

  predicate Contains(s: string, sub: string) {
    sub <= s || (s != "" && Contains(s[1..], sub))
  }

  /** The text has the other somewhere in it. */
  ghost predicate Mentions(s: string, sub: string) {
    exists i | 0 <= i <= |s| :: sub <= s[i..]
  }

  lemma {:induction false} ContainsIff(s: string, sub: string)
    ensures Contains(s, sub) <==> Mentions(s, sub)
  {
    assert s[0..] == s;
    if s != "" {
      ContainsIff(s[1..], sub);
      if i :| 0 <= i <= |s[1..]| && sub <= s[1..][i..] { assert s[1..][i..] == s[i + 1..]; }
      if i :| 0 < i <= |s| && sub <= s[i..] { assert s[i..] == s[1..][i - 1..]; }
    }
  }

  /** The name the source takes for one that climbs out of the context. */
  predicate Refused(dockerfile: string) {
    IsAbs(dockerfile) || Contains(dockerfile, "../")
  }

  datatype Reply = Refuse | NoDockerfile | Done(outcome: Outcome)

  /** The answer by real sizes: packed within the limit and counted right, or
      refused with the total past it and nothing past it written. */
  ghost predicate Honest(limit: Size, chosen: seq<Found>, r: Outcome, entries: seq<Found>, stats: Stats) {
    && (r.Packed? ==> TotalSize(chosen) <= limit && stats.bytes == TotalSize(chosen))
    && (r.TooLarge? ==> TotalSize(chosen) > limit && TotalSize(entries) <= limit)
  }

  lemma CountableIsHonest(limit: Size, chosen: seq<Found>, r: Outcome, entries: seq<Found>, stats: Stats)
    requires Countable(limit, 0, chosen)
    requires var n := Stops(limit, 0, chosen);
             && (r.Packed? ==> n == |chosen| && stats.bytes == Running(0, chosen))
             && (r.TooLarge? ==> n < |chosen| && entries == chosen[..n])
    ensures Honest(limit, chosen, r, entries, stats)
  {
    LimitHoldsIff(limit, chosen);
    if TotalSize(chosen) <= limit { RunningIsTotal(0, chosen); }
  }

  /** What packing a tree by the rules yields. */
  ghost predicate PackedBy(rules: Rules, limit: Size, tree: Listing, r: Outcome, entries: seq<Found>, stats: Stats) {
    var all := All([], tree);
    var chosen := Chosen(ByRules(rules), all);
    var n := Stops(limit, 0, chosen);
    && (r.Packed? ==>
          && n == |chosen| && entries == chosen
          && stats == Stats(FileCount(chosen), Running(0, chosen), CountOut(ByRules(rules), all)))
    && (r.TooLarge? ==> n < |chosen| && entries == chosen[..n])
    && (r.ReadError? ==> entries <= chosen)
    && (Countable(limit, 0, chosen) ==> Honest(limit, chosen, r, entries, stats))
  }

  /** The walk, from the root of the context. */
  method PackTree(tree: Listing, rules: Rules, limit: Size, reliable: bool)
    returns (r: Outcome, entries: seq<Found>, stats: Stats)
    ensures PackedBy(rules, limit, tree, r, entries, stats)
    ensures reliable ==> !r.ReadError?
  {
    var p := new Packer(rules, limit, reliable);
    r := p.Pack([], tree);
    entries, stats := p.entries, p.stats;
    ghost var chosen := Chosen(p.ex, All([], tree));
    if Countable(limit, 0, chosen) { CountableIsHonest(limit, chosen, r, entries, stats); }
  }

  /** WriteBuildContext. `present` tells whether the build file can be found. */
  method WriteBuildContext(tree: Listing, lines: seq<string>, glob: (string, string) -> bool,
                           dockerfile: string, maxBytes: Int64, present: string -> bool, reliable: bool)
    returns (r: Reply, entries: seq<Found>, stats: Stats)
    ensures var name := if TrimSpace(dockerfile) == "" then "Dockerfile" else TrimSpace(dockerfile);
            && (r.Refuse? <==> IsAbs(name) || Mentions(name, "../"))
            && (r.NoDockerfile? ==> !present(name))
            && (r.Done? ==> present(name))
    ensures !r.Done? ==> entries == [] && stats == Stats(0, 0, 0)
    ensures r.Done? ==>
              var limit := if maxBytes <= 0 then 512 * 1024 * 1024 else maxBytes;
              PackedBy(Rules(Parse(lines), glob), limit, tree, r.outcome, entries, stats)
    ensures reliable ==> r != Done(ReadError)
  {
    var name, limit := TrimSpace(dockerfile), maxBytes;
    if limit <= 0 { limit := DEFAULT_MAX_CONTEXT_BYTES; }
    if name == "" { name := "Dockerfile"; }
    ContainsIff(name, "../");
    entries, stats := [], Stats(0, 0, 0);
    if Refused(name) { return Refuse, entries, stats; }
    if !present(name) { return NoDockerfile, entries, stats; }
    if !reliable { if * { return Done(ReadError), entries, stats; } }
    var patterns := ReadDockerignore(lines);
    var outcome;
    outcome, entries, stats := PackTree(tree, Rules(patterns, glob), limit, reliable);
    r := Done(outcome);
  }

  lemma {:induction false} SelectedAre(p: Found -> bool, s: seq<Found>, f: Found)
    ensures f in Select(p, s) <==> f in s && p(f)
  {
    if s != [] { SelectedAre(p, s[1..], f); }
  }

  /** What is packed, entry by entry: what the tree holds and what belongs. */
  lemma ChosenAre(ex: Test, tree: Listing, f: Found)
    ensures f in Chosen(ex, All([], tree)) <==> Has(tree, f.path, f.node) && Belongs(ex, f)
  {
    SelectedAre(f => Belongs(ex, f), All([], tree), f);
    AllAre([], tree, f.path, f.node);
    assert [] + f.path == f.path;
  }

  // The Dockerfile's name.

  lemma {:induction false} ContainsAfter(before: string, s: string, sub: string)
    requires Contains(s, sub)
    ensures Contains(before + s, sub)
  {
    if before == "" {
      assert before + s == s;
    } else {
      ContainsAfter(before[1..], s, sub);
      assert (before + s)[1..] == before[1..] + s;
    }
  }

  lemma {:induction false} InnerDotsShow(parts: seq<string>, k: nat)
    requires k < |parts| - 1 && parts[k] == ".."
    ensures Contains(Join(parts), "../")
  {
    var rest := Join(parts[1..]);
    if k == 0 {
      assert "../" <= ".." + "/" + rest;
    } else {
      InnerDotsShow(parts[1..], k - 1);
      ContainsAfter(parts[0] + "/", rest, "../");
    }
  }

  lemma {:induction false} WalkWithoutDots(out: seq<string>, parts: seq<string>)
    requires forall i | 0 <= i < |out| :: out[i] != ".."
    requires forall i | 0 <= i < |parts| :: parts[i] != ".."
    ensures forall i | 0 <= i < |Walk(false, out, parts)| :: Walk(false, out, parts)[i] != ".."
    decreases |parts|
  {
    if parts != [] { WalkWithoutDots(Take(false, out, parts[0]), parts[1..]); }
  }

  lemma NoInnerDots(dockerfile: string)
    requires !Contains(dockerfile, "../")
    ensures forall k | 0 <= k < |Split(dockerfile)| - 1 :: Split(dockerfile)[k] != ".."
  {
    var parts := Split(dockerfile);
    JoinSplit(dockerfile);
    forall k | 0 <= k < |parts| - 1 ensures parts[k] != ".." {
      if parts[k] == ".." { InnerDotsShow(parts, k); }
    }
  }

  /** A name that is not refused leaves the context exactly when it cleans to `..`. */
  lemma AcceptedNameClimbs(dockerfile: string)
    requires !Refused(dockerfile)
    ensures var out := Walk(false, [], Split(dockerfile));
            (out != [] && out[0] == "..") <==> Clean(dockerfile) == ".."
  {
    var parts := Split(dockerfile);
    var n := |parts| - 1;
    NoInnerDots(dockerfile);
    WalkWithoutDots([], parts[..n]);
    WalkAppend(false, [], parts[..n], parts[n]);
    assert parts == parts[..n] + [parts[n]];
    var out := Walk(false, [], parts);
    SplitIsSlashless(dockerfile);
    WalkIsTidy(false, [], parts);
    if out != [] { JoinIsDots(out); }
  }

  lemma JoinIsDots(parts: seq<string>)
    requires parts != [] && Slashless(parts)
    ensures Join(parts) == ".." <==> parts == [".."]
  {
    SplitJoin(parts);
    SplitWord("..", "");
  }

  /** `..` itself is let through, and a harmless name can be refused. */
  lemma ClimbCheckMisses()
    ensures !Refused("..") && Clean("..") == ".."
    ensures Refused("a../b") && Clean("a../b") == "a../b"
  {
    DotsAreLetThrough();
    SplitWord("a..", "b");
    SplitWord("b", "");
    assert "a.." + "/" + "b" == "a../b" && Split("a../b") == ["a..", "b"];
    assert "a../b"[1..] == "../b" && "../" <= "../b" && Contains("../b", "../");
    WalkKeepsReal(false, [], ["a..", "b"]);
    assert ["a..", "b"][1..] == ["b"] && Join(["a..", "b"]) == "a../b";
  }

  lemma DotsAreLetThrough()
    ensures !Refused("..") && Clean("..") == ".."
  {
    SplitWord("..", "");
    assert Split("..") == [".."] && [".."][1..] == [];
    assert Walk(false, [], [".."]) == Walk(false, [".."], []) == [".."];
    assert ".."[1..] == "." && "."[1..] == "";
    assert !Contains("", "../") && !Contains(".", "../");
  }
}

/** What the whitelist's answer is worth for a path that does not exist yet: the
    engine creates a missing bind source, and links on the way to it are followed
    (internal/service/paths.go). */
module Links {
  import opened Text
  import opened Paths

  /** What exists, by its elements, with all links on the way resolved. */
  type FileSystem = seq<string> -> Option<seq<string>>

  ghost predicate Sane(fs: FileSystem) {
    fs([]) == Some([]) && forall p | Real(p) && fs(p).Some? :: Real(fs(p).value)
  }

  /** filepath.EvalSymlinks on a clean absolute path: it fails on what does not exist. */
  function EvalSymlinks(fs: FileSystem): string -> Option<string> {
    (path: string) =>
      if fs(Elements(path)).Some? then Some("/" + Join(fs(Elements(path)).value)) else None
  }

  lemma EvalResolves(fs: FileSystem)
    requires Sane(fs)
    ensures Resolver(EvalSymlinks(fs))
  {
    forall p | CleanAbs(p) && EvalSymlinks(fs)(p).Some? ensures CleanAbs(EvalSymlinks(fs)(p).value) {
      CleanAbsolute(p);
      ElementsOfShown(fs(Elements(p)).value);
    }
  }

  /** The deepest ancestor that exists. */
  function Anchor(fs: FileSystem, p: seq<string>): (a: seq<string>)
    ensures a <= p
  {
    if fs(p).Some? || p == [] then p else Anchor(fs, p[..|p| - 1])
  }

  lemma {:induction false} AnchorIs(fs: FileSystem, p: seq<string>, k: nat)
    requires Sane(fs) && k <= |p|
    ensures fs(Anchor(fs, p)).Some? && (fs(p[..k]).Some? ==> k <= |Anchor(fs, p)|)
    decreases |p|
  {
    if fs(p).None? {
      assert p != [];
      var n := |p| - 1;
      AnchorIs(fs, p[..n], if k <= n then k else n);
      if k <= n { assert p[..n][..k] == p[..k]; } else { assert p[..k] == p; }
    }
  }

  /** Where the engine puts a bind source: beneath what the deepest existing ancestor
      resolves to, it creates what is missing. */
  function Placed(fs: FileSystem, p: seq<string>): seq<string> {
    var a := Anchor(fs, p);
    if fs(a).Some? then fs(a).value + p[|a|..] else p
  }

  lemma PlacedIsReal(fs: FileSystem, p: seq<string>)
    requires Sane(fs) && Real(p)
    ensures Real(Placed(fs, p))
  {
    AnchorIs(fs, p, 0);
    assert Real(Anchor(fs, p));
  }

  /** A text that means these elements, whatever white space they end in. */
  function Written(p: seq<string>): string {
    "/" + Join(p + ["."])
  }

  lemma WrittenMeans(p: seq<string>)
    requires Real(p)
    ensures TrimSpace(Written(p)) == Written(p) && IsAbs(Written(p)) && Clean(Written(p)) == "/" + Join(p)
  {
    var q := p + ["."];
    assert Slashless(q);
    SplitJoin(q);
    JoinCons("", q);
    assert Written(p)[1..] == Join(q) && Split(Written(p)) == [""] + q;
    assert ([""] + q)[1..] == q;
    WalkAppend(true, [], p, ".");
    WalkKeepsReal(true, [], p);
    assert [] + p == p;
    EndsInDot(p);
  }

  lemma {:induction false} EndsInDot(p: seq<string>)
    ensures Join(p + ["."]) != "" && Join(p + ["."])[|Join(p + ["."])| - 1] == '.'
  {
    if p != [] {
      EndsInDot(p[1..]);
      assert (p + ["."])[1..] == p[1..] + ["."];
    }
  }

  /** The answer of the whitelist is about the place the path will have. */
  ghost predicate Honest(allowed: seq<string>, fs: FileSystem, path: string) {
    Permitted(allowed, EvalSymlinks(fs), path) <==>
      Covered(allowed, "/" + Join(Placed(fs, Elements(Clean(TrimSpace(path))))))
  }

  /** A list of one directory covers what lies beneath it. */
  lemma OneRoot(root: seq<string>, p: seq<string>)
    requires Real(root) && Real(p)
    ensures Covered([Written(root)], "/" + Join(p)) <==> root <= p
  {
    WrittenMeans(root);
    ElementsOfShown(root);
    ElementsOfShown(p);
    assert Covers(Written(root), "/" + Join(p)) <==> root <= p;
  }

  /** What the whitelist tests: the resolved path, or the path as written where it
      does not exist. */
  function Tested(fs: FileSystem, p: seq<string>): seq<string> {
    if fs(p).Some? then fs(p).value else p
  }

  lemma PermittedTests(allowed: seq<string>, fs: FileSystem, path: string)
    requires IsAbs(TrimSpace(path))
    ensures var p := Elements(Clean(TrimSpace(path)));
            Permitted(allowed, EvalSymlinks(fs), path) <==> Covered(allowed, "/" + Join(Tested(fs, p)))
  {
    CleanAbsolute(TrimSpace(path));
  }

  /** The path exists, or no link is on the way to its deepest ancestor that does. */
  predicate NoLinkAhead(fs: FileSystem, p: seq<string>) {
    fs(p).Some? || fs(Anchor(fs, p)) == Some(Anchor(fs, p))
  }

  /** Then the place is what is tested. */
  lemma PlacedIsTested(fs: FileSystem, p: seq<string>)
    requires NoLinkAhead(fs, p)
    ensures Placed(fs, p) == Tested(fs, p)
  {
    var a := Anchor(fs, p);
    if fs(p).Some? {
      assert a == p && p[|p|..] == [] && fs(p).value + [] == fs(p).value;
    } else {
      assert a + p[|a|..] == p;
    }
  }

  lemma PlainIsHonest(allowed: seq<string>, fs: FileSystem, path: string)
    requires IsAbs(TrimSpace(path)) && NoLinkAhead(fs, Elements(Clean(TrimSpace(path))))
    ensures Honest(allowed, fs, path)
  {
    PlacedIsTested(fs, Elements(Clean(TrimSpace(path))));
    PermittedTests(allowed, fs, path);
  }

  /** The exact condition: the whitelist answers about the place, whatever directories
      it lists, if and only if no link is on the way to what is missing. */
  lemma HonestIff(fs: FileSystem, path: string)
    requires Sane(fs) && IsAbs(TrimSpace(path))
    ensures (forall allowed :: Honest(allowed, fs, path)) <==> NoLinkAhead(fs, Elements(Clean(TrimSpace(path))))
  {
    if NoLinkAhead(fs, Elements(Clean(TrimSpace(path)))) {
      forall allowed ensures Honest(allowed, fs, path) { PlainIsHonest(allowed, fs, path); }
    } else {
      LinkShows(fs, path);
    }
  }

  lemma LinkShows(fs: FileSystem, path: string)
    requires Sane(fs) && IsAbs(TrimSpace(path))
    requires !NoLinkAhead(fs, Elements(Clean(TrimSpace(path))))
    ensures exists allowed :: !Honest(allowed, fs, path)
  {
    var p := Elements(Clean(TrimSpace(path)));
    CleanAbsolute(TrimSpace(path));
    AnchorIs(fs, p, 0);
    PlacedIsReal(fs, p);
    var q := Placed(fs, p);
    PermittedTests([Written(p)], fs, path);
    PermittedTests([Written(q)], fs, path);
    OneRoot(p, p);
    OneRoot(p, q);
    OneRoot(q, p);
    OneRoot(q, q);
    PlacedMoves(fs, p);
    assert !(p <= q && q <= p);
    assert !Honest([Written(p)], fs, path) || !Honest([Written(q)], fs, path);
  }

  /** A link on the way moves the place. */
  lemma PlacedMoves(fs: FileSystem, p: seq<string>)
    requires fs(Anchor(fs, p)).Some? && fs(Anchor(fs, p)) != Some(Anchor(fs, p))
    ensures Placed(fs, p) != p
  {
    var a := Anchor(fs, p);
    var to, tail := fs(a).value, p[|a|..];
    assert p == a + tail;
    assert to == (to + tail)[..|to|] && a == (a + tail)[..|a|];
  }

  /** A directory with one link in it. */
  function OneLink(root: seq<string>, link: string, to: seq<string>): FileSystem {
    (p: seq<string>) => if p == root + [link] then Some(to) else if p <= root then Some(p) else None
  }

  lemma OneLinkIs(root: seq<string>, link: string, to: seq<string>, name: string)
    requires Real(to)
    ensures var fs := OneLink(root, link, to);
            && Sane(fs) && fs(root + [link, name]).None?
            && Placed(fs, root + [link, name]) == to + [name]
  {
    var fs, p := OneLink(root, link, to), root + [link, name];
    assert p[..|p| - 1] == root + [link] && p[|root| + 1..] == [name];
    assert Anchor(fs, root + [link]) == root + [link];
  }

  /** How it shows: beneath a link out of the root, a path that does not exist yet is
      accepted, and lies outside. */
  lemma MissingPathEscapes(root: seq<string>, link: string, to: seq<string>, name: string)
    requires Real(root + [link, name]) && Real(root) && Real(to + [name]) && Real(to) && !(root <= to + [name])
    ensures var fs, path := OneLink(root, link, to), Written(root + [link, name]);
            && Sane(fs) && Permitted([Written(root)], EvalSymlinks(fs), path)
            && Placed(fs, root + [link, name]) == to + [name]
            && !Covered([Written(root)], "/" + Join(to + [name]))
  {
    var fs, p := OneLink(root, link, to), root + [link, name];
    OneLinkIs(root, link, to, name);
    WrittenMeans(p);
    ElementsOfShown(p);
    PermittedTests([Written(root)], fs, Written(p));
    OneRoot(root, p);
    OneRoot(root, to + [name]);
  }

  /** Check over a file system: where no link is on the way to the deepest existing
      ancestor, or the path exists, it accepts exactly the paths whose place is or
      lies beneath a configured directory. */
  method CheckPlace(g: PathGuard, ghost allowed: seq<string>, fs: FileSystem, path: string) returns (ok: bool)
    requires g.allowed == Roots(allowed) && Sane(fs)
    ensures ok ==> IsAbs(TrimSpace(path))
    ensures ok <==> Permitted(allowed, EvalSymlinks(fs), path)
    ensures var p := Elements(Clean(TrimSpace(path)));
            IsAbs(TrimSpace(path)) && NoLinkAhead(fs, p) ==> (ok <==> Covered(allowed, "/" + Join(Placed(fs, p))))
  {
    EvalResolves(fs);
    ok := Check(g, allowed, EvalSymlinks(fs), path);
    if IsAbs(TrimSpace(path)) && NoLinkAhead(fs, Elements(Clean(TrimSpace(path)))) {
      PlainIsHonest(allowed, fs, path);
    }
  }
}

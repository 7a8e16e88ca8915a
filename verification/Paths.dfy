/** The bind-mount whitelist (internal/service/paths.go) on path text, with the
    parts of Go's strings and path/filepath packages it relies on, for a slash
    separated file system. Symbolic links are resolved by a parameter. */
module Paths {
  import opened Text

  // Text.

  function Split(s: string): (parts: seq<string>)
    ensures parts != []
  {
    if s == "" then [""]
    else if s[0] == '/' then [""] + Split(s[1..])
    else var rest := Split(s[1..]); [[s[0]] + rest[0]] + rest[1..]
  }

  function Join(parts: seq<string>): string {
    if parts == [] then ""
    else if |parts| == 1 then parts[0]
    else parts[0] + "/" + Join(parts[1..])
  }

  predicate Slashless(parts: seq<string>) {
    forall i | 0 <= i < |parts| :: '/' !in parts[i]
  }

  lemma {:induction false} SplitIsSlashless(s: string)
    ensures Slashless(Split(s))
  {
    if s != "" { SplitIsSlashless(s[1..]); }
  }

  lemma {:induction false} SplitWord(w: string, rest: string)
    requires '/' !in w
    ensures Split(w) == [w]
    ensures Split(w + "/" + rest) == [w] + Split(rest)
  {
    if w == "" {
      assert ("/" + rest)[1..] == rest && w + "/" + rest == "/" + rest;
    } else {
      SplitWord(w[1..], rest);
      assert (w + "/" + rest)[1..] == w[1..] + "/" + rest;
      assert w == [w[0]] + w[1..];
    }
  }

  lemma {:induction false} SplitJoin(parts: seq<string>)
    requires parts != [] && Slashless(parts)
    ensures Split(Join(parts)) == parts
  {
    if |parts| == 1 {
      SplitWord(parts[0], "");
    } else {
      SplitJoin(parts[1..]);
      SplitWord(parts[0], Join(parts[1..]));
      assert parts == [parts[0]] + parts[1..];
    }
  }

  lemma JoinCons(word: string, parts: seq<string>)
    requires parts != []
    ensures Join([word] + parts) == word + "/" + Join(parts)
  {
  }

  lemma JoinFirst(c: char, parts: seq<string>)
    requires parts != []
    ensures Join([[c] + parts[0]] + parts[1..]) == [c] + Join(parts)
  {
    if |parts| > 1 {
      JoinCons([c] + parts[0], parts[1..]);
      JoinCons(parts[0], parts[1..]);
      assert parts == [parts[0]] + parts[1..];
      Shift(c, parts[0], Join(parts[1..]));
    } else {
      assert [[c] + parts[0]] + parts[1..] == [[c] + parts[0]];
    }
  }

  lemma Shift(c: char, a: string, b: string)
    ensures [c] + a + "/" + b == [c] + (a + "/" + b)
  {
  }

  lemma {:induction false} JoinSplit(s: string)
    ensures Join(Split(s)) == s
  {
    if s != "" {
      JoinSplit(s[1..]);
      JoinFirst(s[0], Split(s[1..]));
      JoinCons("", Split(s[1..]));
      assert s == [s[0]] + s[1..];
    }
  }

  // filepath.Clean and filepath.Rel.

  predicate IsAbs(path: string) {
    path != "" && path[0] == '/'
  }

  /** Clean's treatment of one path element. */
  function Take(rooted: bool, out: seq<string>, part: string): seq<string> {
    if part == "" || part == "." then out
    else if part != ".." then out + [part]
    else if out != [] && out[|out| - 1] != ".." then out[..|out| - 1]
    else if rooted then out
    else out + [".."]
  }

  function Walk(rooted: bool, out: seq<string>, parts: seq<string>): seq<string>
    decreases |parts|
  {
    if parts == [] then out else Walk(rooted, Take(rooted, out, parts[0]), parts[1..])
  }

  function Clean(path: string): string {
    var out := Walk(IsAbs(path), [], Split(path));
    if IsAbs(path) then "/" + Join(out)
    else if out == [] then "."
    else Join(out)
  }

  /** The elements of a clean absolute path. */
  function Elements(path: string): seq<string> {
    if |path| <= 1 then [] else Split(path[1..])
  }

  function Ups(n: nat): seq<string> {
    if n == 0 then [] else [".."] + Ups(n - 1)
  }

  /** Past the common elements, up from the base and down to the target. */
  function RelParts(base: seq<string>, target: seq<string>): seq<string> {
    if base != [] && target != [] && base[0] == target[0] then RelParts(base[1..], target[1..])
    else Ups(|base|) + target
  }

  /** Rel for an absolute target: it fails from a relative base. */
  function Rel(base: string, target: string): Option<string>
    requires IsAbs(target)
  {
    if Clean(base) == Clean(target) then Some(".")
    else if !IsAbs(Clean(base)) then None
    else Some(Join(RelParts(Elements(Clean(base)), Elements(Clean(target)))))
  }

  /** What a clean path is made of; `..` only remains in a relative one. */
  predicate TidyPart(rooted: bool, p: string) {
    p != "" && p != "." && '/' !in p && (rooted ==> p != "..")
  }

  predicate Tidy(rooted: bool, parts: seq<string>) {
    forall i | 0 <= i < |parts| :: TidyPart(rooted, parts[i])
  }

  /** Elements that name something: what a clean absolute path is made of. */
  predicate Real(parts: seq<string>) {
    Tidy(true, parts)
  }

  lemma {:induction false} WalkIsTidy(rooted: bool, out: seq<string>, parts: seq<string>)
    requires Tidy(rooted, out) && Slashless(parts)
    ensures Tidy(rooted, Walk(rooted, out, parts))
    decreases |parts|
  {
    if parts != [] { WalkIsTidy(rooted, Take(rooted, out, parts[0]), parts[1..]); }
  }

  lemma {:induction false} WalkKeepsReal(rooted: bool, out: seq<string>, parts: seq<string>)
    requires Real(parts)
    ensures Walk(rooted, out, parts) == out + parts
    decreases |parts|
  {
    if parts != [] {
      WalkKeepsReal(rooted, out + [parts[0]], parts[1..]);
      assert out + [parts[0]] + parts[1..] == out + parts;
    }
  }

  lemma {:induction false} WalkAppend(rooted: bool, out: seq<string>, parts: seq<string>, last: string)
    ensures Walk(rooted, out, parts + [last]) == Take(rooted, Walk(rooted, out, parts), last)
    decreases |parts|
  {
    if parts == [] {
      assert parts + [last] == [last];
    } else {
      WalkAppend(rooted, Take(rooted, out, parts[0]), parts[1..], last);
      assert (parts + [last])[1..] == parts[1..] + [last];
    }
  }

  lemma ElementsOfShown(parts: seq<string>)
    requires Real(parts)
    ensures Elements("/" + Join(parts)) == parts
    ensures Clean("/" + Join(parts)) == "/" + Join(parts)
  {
    var path := "/" + Join(parts);
    assert path[1..] == Join(parts);
    if parts == [] {
      assert Split("/") == ["", ""];
      assert Walk(true, [], ["", ""]) == Walk(true, [], [""]) == [];
    } else {
      SplitJoin(parts);
      assert Split(path) == [""] + parts;
      WalkKeepsReal(true, [], parts);
      assert ([""] + parts)[1..] == parts && [] + parts == parts;
    }
  }

  /** A cleaned absolute path is its elements, none of them special, and is not
      changed by cleaning it again. */
  lemma CleanAbsolute(path: string)
    requires IsAbs(path)
    ensures Real(Elements(Clean(path))) && Clean(path) == "/" + Join(Elements(Clean(path)))
    ensures Clean(Clean(path)) == Clean(path)
  {
    SplitIsSlashless(path);
    WalkIsTidy(true, [], Split(path));
    ElementsOfShown(Walk(true, [], Split(path)));
  }

  lemma CleanKeepsAbs(path: string)
    ensures IsAbs(Clean(path)) <==> IsAbs(path)
  {
    if !IsAbs(path) {
      SplitIsSlashless(path);
      WalkIsTidy(false, [], Split(path));
      var out := Walk(false, [], Split(path));
      if out != [] {
        assert Join(out)[0] == out[0][0];
        assert out[0][0] in out[0];
      }
    }
  }

  // What cleaning means, one element after another. These facts, from the root and
  // from single words on, determine what every path is cleaned to.

  lemma LongerFirst(c: char, a: seq<string>, b: seq<string>)
    requires a != []
    ensures [""] + (a + b) == [""] + a + b
    ensures [[c] + (a + b)[0]] + (a + b)[1..] == [[c] + a[0]] + a[1..] + b
  {
    assert (a + b)[0] == a[0] && (a + b)[1..] == a[1..] + b;
  }

  lemma {:induction false} SplitAppend(p: string, w: string)
    ensures Split(p + "/" + w) == Split(p) + Split(w)
  {
    var s := p + "/" + w;
    if p == "" {
      assert s == "/" + w && s[1..] == w;
    } else {
      SplitAppend(p[1..], w);
      assert s[0] == p[0] && s[1..] == p[1..] + "/" + w;
      LongerFirst(p[0], Split(p[1..]), Split(w));
    }
  }

  /** Going on from where a path leads. */
  predicate Goes(rooted: bool, a: seq<string>, w: string, b: seq<string>) {
    && (w == "" || w == "." ==> b == a)
    && (w == ".." && a != [] && a[|a| - 1] != ".." ==> b == a[..|a| - 1])
    && (w == ".." && (a == [] || a[|a| - 1] == "..") ==> b == if rooted then a else a + [".."])
    && (w != "" && w != "." && w != ".." ==> b == a + [w])
  }

  /** An absolute path followed by a name leads there, followed by `..` it leads to the
      parent directory, the root being its own, and a dot or a second slash does
      nothing. */
  lemma CleanStep(p: string, w: string)
    requires (p == "" || IsAbs(p)) && '/' !in w
    ensures Goes(true, Elements(Clean(p)), w, Elements(Clean(p + "/" + w)))
  {
    var path := p + "/" + w;
    assert IsAbs(path);
    SplitAppend(p, w);
    SplitWord(w, "");
    WalkAppend(true, [], Split(p), w);
    SplitIsSlashless(path);
    WalkIsTidy(true, [], Split(path));
    ElementsOfShown(Walk(true, [], Split(path)));
    if p == "" {
      assert Split(p) == [""] && Walk(true, [], [""]) == [] == Elements(Clean(p));
    } else {
      SplitIsSlashless(p);
      WalkIsTidy(true, [], Split(p));
      ElementsOfShown(Walk(true, [], Split(p)));
    }
  }

  /** The elements of a clean relative path. */
  function Steps(path: string): seq<string> {
    if path == "." then [] else Split(path)
  }

  lemma StepsOfShown(parts: seq<string>)
    requires Tidy(false, parts)
    ensures Steps(if parts == [] then "." else Join(parts)) == parts
  {
    if parts != [] {
      SplitJoin(parts);
      if Join(parts) == "." { SplitWord(".", ""); }
    }
  }

  /** The same for a relative path, which may climb above where it starts. */
  lemma CleanRelativeStep(p: string, w: string)
    requires p != "" && !IsAbs(p) && '/' !in w
    ensures Goes(false, Steps(Clean(p)), w, Steps(Clean(p + "/" + w)))
  {
    var path := p + "/" + w;
    assert path[0] == p[0];
    SplitAppend(p, w);
    SplitWord(w, "");
    WalkAppend(false, [], Split(p), w);
    SplitIsSlashless(path);
    WalkIsTidy(false, [], Split(path));
    StepsOfShown(Walk(false, [], Split(path)));
    SplitIsSlashless(p);
    WalkIsTidy(false, [], Split(p));
    StepsOfShown(Walk(false, [], Split(p)));
  }

  /** A single word is clean as it is. */
  lemma CleanWord(w: string)
    requires '/' !in w
    ensures Clean(w) == if w == "" then "." else w
  {
    SplitWord(w, "");
    assert Walk(false, [], [w]) == Take(false, [], w);
  }

  lemma {:induction false} JoinAppend(a: seq<string>, b: seq<string>)
    requires a != [] && b != []
    ensures Join(a + b) == Join(a) + "/" + Join(b)
  {
    if |a| > 1 {
      JoinAppend(a[1..], b);
      assert (a + b)[1..] == a[1..] + b;
      Regroup(a[0], Join(a[1..]), Join(b));
    } else {
      assert (a + b)[1..] == b;
    }
  }

  lemma Regroup(a: string, b: string, c: string)
    ensures a + "/" + (b + "/" + c) == a + "/" + b + "/" + c
  {
  }

  // withinRoot.

  /** The test on text: rel == ".." or rel begins with "../". */
  predicate ClimbsOut(rel: string) {
    rel == ".." || "../" <= rel
  }

  predicate WithinRoot(path: string, root: string)
    requires IsAbs(path)
  {
    path == root || var rel := Rel(root, path); rel.Some? && !ClimbsOut(rel.value)
  }

  /** The text test sees exactly the first element: `..foo` is not a climb. */
  lemma ClimbsIffFirst(parts: seq<string>)
    requires parts != [] && Slashless(parts)
    ensures ClimbsOut(Join(parts)) <==> parts[0] == ".."
  {
    SplitJoin(parts);
    var rel := Join(parts);
    if "../" <= rel {
      assert rel == ".." + "/" + rel[3..];
      SplitWord("..", rel[3..]);
    }
    if rel == ".." { SplitWord("..", ""); }
    if parts[0] == ".." && |parts| > 1 {
      assert rel == "../" + Join(parts[1..]);
    }
  }

  lemma {:induction false} RelPartsFirst(base: seq<string>, target: seq<string>)
    requires Real(base) && Real(target) && base != target
    ensures RelParts(base, target) != [] && Slashless(RelParts(base, target))
    ensures RelParts(base, target)[0] == ".." <==> !(base <= target)
  {
    if base != [] && target != [] && base[0] == target[0] {
      assert base == [base[0]] + base[1..] && target == [target[0]] + target[1..];
      RelPartsFirst(base[1..], target[1..]);
    } else {
      UpsSlashless(|base|);
    }
  }

  lemma {:induction false} UpsSlashless(n: nat)
    ensures |Ups(n)| == n && forall i | 0 <= i < n :: Ups(n)[i] == ".."
  {
    if n > 0 { UpsSlashless(n - 1); }
  }

  /** The path `path` is the directory `root` or lies beneath it. */
  predicate Under(path: string, root: string) {
    IsAbs(root) && Elements(root) <= Elements(path)
  }

  predicate CleanAbs(path: string) {
    IsAbs(path) && Clean(path) == path
  }

  /** The text test refines the component test. */
  lemma WithinIffUnder(path: string, root: string)
    requires CleanAbs(path) && Clean(root) == root
    ensures WithinRoot(path, root) <==> Under(path, root)
  {
    CleanAbsolute(path);
    if IsAbs(root) {
      CleanAbsolute(root);
      var b, t := Elements(root), Elements(path);
      if b == t {
        assert root == path;
      } else {
        RelPartsFirst(b, t);
        ClimbsIffFirst(RelParts(b, t));
      }
    }
  }

  // The guard.

  datatype PathGuard = PathGuard(allowed: seq<string>)

  /** The configured roots that count, cleaned, in order. */
  function Roots(allowed: seq<string>): seq<string> {
    if allowed == [] then []
    else
      var n := |allowed| - 1;
      Roots(allowed[..n]) + if TrimSpace(allowed[n]) == "" then [] else [Clean(TrimSpace(allowed[n]))]
  }

  method NewPathGuard(allowed: seq<string>) returns (g: PathGuard)
    ensures g.allowed == Roots(allowed)
  {
    var cleaned: seq<string> := [];
    for i := 0 to |allowed|
      invariant cleaned == Roots(allowed[..i])
    {
      assert allowed[..i + 1][..i] == allowed[..i];
      var root := TrimSpace(allowed[i]);
      if root != "" { cleaned := cleaned + [Clean(root)]; }
    }
    assert allowed[..|allowed|] == allowed;
    g := PathGuard(cleaned);
  }

  predicate Counts(r: string, root: string) {
    TrimSpace(r) != "" && root == Clean(TrimSpace(r))
  }

  lemma {:induction false} RootsAre(allowed: seq<string>, root: string)
    ensures root in Roots(allowed) <==> exists r | r in allowed :: Counts(r, root)
  {
    if allowed != [] {
      var n := |allowed| - 1;
      RootsAre(allowed[..n], root);
      assert allowed == allowed[..n] + [allowed[n]];
      if root in Roots(allowed) && root !in Roots(allowed[..n]) { assert Counts(allowed[n], root); }
    }
  }

  /** Resolving links in a clean absolute path gives one, or fails. */
  ghost predicate Resolver(resolve: string -> Option<string>) {
    forall p | CleanAbs(p) && resolve(p).Some? :: CleanAbs(resolve(p).value)
  }

  function Resolved(resolve: string -> Option<string>, path: string): string {
    var c := Clean(TrimSpace(path));
    if resolve(c).Some? then resolve(c).value else c
  }

  /** A relative root covers nothing. */
  lemma RootCovers(path: string, r: string)
    requires CleanAbs(path)
    ensures WithinRoot(path, Clean(r)) <==> IsAbs(r) && Under(path, Clean(r))
  {
    CleanKeepsAbs(r);
    if IsAbs(r) {
      CleanAbsolute(r);
      WithinIffUnder(path, Clean(r));
    } else {
      CleanKeepsAbs(Clean(r));
      CleanKeepsAbs(path);
    }
  }

  /** A configured directory covers the path. */
  predicate Covers(r: string, path: string) {
    IsAbs(TrimSpace(r)) && Under(path, Clean(TrimSpace(r)))
  }

  predicate Covered(allowed: seq<string>, path: string) {
    exists r | r in allowed :: Covers(r, path)
  }

  /** What the whitelist means: the path, its links resolved, is or lies beneath
      one of the configured directories. */
  predicate Permitted(allowed: seq<string>, resolve: string -> Option<string>, path: string) {
    IsAbs(TrimSpace(path)) && Covered(allowed, Resolved(resolve, path))
  }

  lemma RootIsCover(allowed: seq<string>, root: string, path: string)
    requires CleanAbs(path) && root in Roots(allowed) && WithinRoot(path, root)
    ensures Covered(allowed, path)
  {
    RootsAre(allowed, root);
    var r :| r in allowed && Counts(r, root);
    RootCovers(path, TrimSpace(r));
    assert Covers(r, path);
  }

  lemma CoverIsRoot(allowed: seq<string>, path: string) returns (root: string)
    requires CleanAbs(path) && Covered(allowed, path)
    ensures root in Roots(allowed) && WithinRoot(path, root)
  {
    var r :| r in allowed && Covers(r, path);
    root := Clean(TrimSpace(r));
    assert Counts(r, root);
    RootsAre(allowed, root);
    RootCovers(path, TrimSpace(r));
  }

  /** The loop over a list of names: the first that passes. */
  method FirstPassing(passes: string -> bool, names: seq<string>) returns (found: bool, ghost at: nat)
    ensures found ==> at < |names| && passes(names[at])
    ensures !found ==> forall k | 0 <= k < |names| :: !passes(names[k])
  {
    at := 0;
    for i := 0 to |names|
      invariant forall k | 0 <= k < i :: !passes(names[k])
    {
      if passes(names[i]) { return true, i; }
    }
    found := false;
  }

  /** Check, on a guard over the configured list: it accepts exactly the permitted
      paths. */
  method Check(g: PathGuard, ghost allowed: seq<string>, resolve: string -> Option<string>, path: string)
    returns (ok: bool)
    requires g.allowed == Roots(allowed) && Resolver(resolve)
    ensures ok <==> Permitted(allowed, resolve, path)
  {
    var trimmed := TrimSpace(path);
    if trimmed == "" || !IsAbs(trimmed) { return false; }
    CleanAbsolute(trimmed);
    CleanKeepsAbs(trimmed);
    var candidate := Clean(trimmed);
    assert CleanAbs(candidate);
    var resolved := resolve(candidate);
    if resolved.Some? { candidate := resolved.value; }
    ghost var at;
    ok, at := FirstPassing(root => IsAbs(candidate) && WithinRoot(candidate, root), g.allowed);
    if ok {
      RootIsCover(allowed, g.allowed[at], candidate);
    } else if Covered(allowed, candidate) {
      var root := CoverIsRoot(allowed, candidate);
    }
  }

  function FirstRefused(allowed: seq<string>, resolve: string -> Option<string>, paths: seq<string>): Option<string> {
    if paths == [] then None
    else if !Permitted(allowed, resolve, paths[0]) then Some(paths[0])
    else FirstRefused(allowed, resolve, paths[1..])
  }

  /** A list passes exactly when every path in it is permitted; otherwise the
      refusal names one that is not. */
  lemma {:induction false} RefusedIff(allowed: seq<string>, resolve: string -> Option<string>, paths: seq<string>)
    ensures FirstRefused(allowed, resolve, paths).None? <==> forall p | p in paths :: Permitted(allowed, resolve, p)
    ensures var refused := FirstRefused(allowed, resolve, paths);
            refused.Some? ==> refused.value in paths && !Permitted(allowed, resolve, refused.value)
  {
    if paths != [] {
      assert paths[0] in paths && paths == [paths[0]] + paths[1..];
      RefusedIff(allowed, resolve, paths[1..]);
    }
  }

  /** CheckAll: the first path that is refused, if any. */
  method CheckAll(g: PathGuard, ghost allowed: seq<string>, resolve: string -> Option<string>, paths: seq<string>)
    returns (refused: Option<string>)
    requires g.allowed == Roots(allowed) && Resolver(resolve)
    ensures refused == FirstRefused(allowed, resolve, paths)
  {
    for i := 0 to |paths|
      invariant FirstRefused(allowed, resolve, paths) == FirstRefused(allowed, resolve, paths[i..])
    {
      var ok := Check(g, allowed, resolve, paths[i]);
      if !ok { return Some(paths[i]); }
      assert paths[i..][1..] == paths[i + 1..];
    }
    refused := None;
  }

  /** No configured directory, no mount. */
  lemma EmptyListRefuses(allowed: seq<string>, resolve: string -> Option<string>, path: string)
    requires forall r | r in allowed :: TrimSpace(r) == ""
    ensures Roots(allowed) == [] && !Permitted(allowed, resolve, path)
  {
  }

  /** Where a path that climbs out of a directory leads: to that directory's sibling. */
  lemma ClimbLeads(dir: seq<string>, last: string, name: string)
    requires Real(dir + [last]) && Real(dir + [name])
    ensures Clean("/" + Join(dir + [last, "..", name])) == "/" + Join(dir + [name])
  {
    var at := dir + [last];
    var p := "/" + Join(at);
    JoinAppend(at, [".."]);
    JoinAppend(at + [".."], [name]);
    assert at + [".."] + [name] == dir + [last, "..", name];
    assert "/" + Join(dir + [last, "..", name]) == p + "/" + ".." + "/" + name;
    ElementsOfShown(at);
    assert at[|dir|] == last && at[..|dir|] == dir;
    CleanStep(p, "..");
    assert (dir + [name])[|dir|] == name;
    CleanStep(p + "/" + "..", name);
    CleanAbsolute(p + "/" + ".." + "/" + name);
  }

  /** So it is refused under that directory, unless what it leads to resolves to
      something beneath it. */
  lemma ClimbIsRefused(allowed: seq<string>, resolve: string -> Option<string>, dir: seq<string>, last: string,
                       name: string, path: string)
    requires Real(dir + [last]) && Real(dir + [name]) && name != last
    requires path == "/" + Join(dir + [last, "..", name]) && TrimSpace(path) == path
    requires forall r | r in allowed && IsAbs(TrimSpace(r)) :: Elements(Clean(TrimSpace(r))) == dir + [last]
    ensures Permitted(allowed, resolve, path) ==>
              var to := resolve("/" + Join(dir + [name]));
              to.Some? && dir + [last] <= Elements(to.value)
  {
    ClimbLeads(dir, last, name);
    ElementsOfShown(dir + [name]);
    assert (dir + [name])[|dir|] == name && (dir + [last])[|dir|] == last;
  }

  /** A name that merely shares a prefix with a root is not under it. */
  lemma SharedPrefixIsOutside(dir: seq<string>, name: string, extra: string)
    requires Real(dir + [name]) && Real(dir + [name + extra]) && extra != ""
    ensures !WithinRoot("/" + Join(dir + [name + extra]), "/" + Join(dir + [name]))
  {
    var a, b := dir + [name], dir + [name + extra];
    ElementsOfShown(a);
    ElementsOfShown(b);
    WithinIffUnder("/" + Join(b), "/" + Join(a));
    assert a[|dir|] == name && b[|dir|] == name + extra;
  }

  /** A name that merely looks like a climb is under its directory. */
  lemma DottedNameIsInside(dir: seq<string>, name: string)
    requires Real(dir + [".." + name]) && name != ""
    ensures WithinRoot("/" + Join(dir + [".." + name]), "/" + Join(dir))
  {
    var c := dir + [".." + name];
    assert forall i | 0 <= i < |dir| :: dir[i] == c[i];
    ElementsOfShown(c);
    ElementsOfShown(dir);
    WithinIffUnder("/" + Join(c), "/" + Join(dir));
  }
}

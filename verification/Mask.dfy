/** Masking of audit details (internal/audit/mask.go). Which keys look secret is a
    parameter: the source asks a regular expression. */
module Mask {
  import opened Text

  /** A decoded detail. The constructors with Nil are Go's nil maps and slices;
      every value that is neither text, map nor slice is Scalar. */
  datatype Value =
    | Null
    | Str(text: string)
    | Scalar(number: int)
    | Obj(fields: map<string, Value>)
    | NilObj
    | StrMap(entries: map<string, string>)
    | NilStrMap
    | Env(lines: seq<string>)
    | NilEnv
    | List(items: seq<Value>)
    | NilList

  type Secret = string -> bool

  const MASKED := "***"

  function MaskValue(value: string): string {
    if value == "" then "" else MASKED
  }

  // Flat maps and environments.

  function MaskedMap(secret: Secret, m: map<string, string>): map<string, string> {
    map k | k in m :: if secret(k) then MaskValue(m[k]) else m[k]
  }

  method MaskMap(secret: Secret, m: map<string, string>) returns (out: map<string, string>)
    ensures out == MaskedMap(secret, m)
    ensures out.Keys == m.Keys
    ensures forall k | k in m :: out[k] == if !secret(k) || m[k] == "" then m[k] else "***"
  {
    out := map[];
    var todo := m.Keys;
    while todo != {}
      invariant todo <= m.Keys && out.Keys == m.Keys - todo
      invariant forall k | k in out :: out[k] == MaskedMap(secret, m)[k]
      decreases todo
    {
      var k :| k in todo;
      todo := todo - {k};
      if secret(k) {
        out := out[k := MaskValue(m[k])];
      } else {
        out := out[k := m[k]];
      }
    }
  }

  /** The position of the first equals sign, or the length. */
  function Equals(line: string): (i: nat)
    ensures i <= |line| && (i < |line| ==> line[i] == '=') && forall k | 0 <= k < i :: line[k] != '='
  {
    if line == "" || line[0] == '=' then 0
    else
      var i := Equals(line[1..]);
      assert forall k | 0 < k <= i :: line[k] == line[1..][k - 1];
      i + 1
  }

  function MaskedLine(secret: Secret, line: string): string {
    var i := Equals(line);
    if i < |line| && secret(line[..i]) then line[..i] + "=" + MaskValue(line[i + 1..]) else line
  }

  /** An entry keeps its key, and its value unless the key looks secret. */
  lemma LineMeans(secret: Secret, key: string, value: string)
    requires '=' !in key
    ensures MaskedLine(secret, key) == key
    ensures MaskedLine(secret, key + "=" + value) ==
              key + "=" + if !secret(key) || value == "" then value else "***"
  {
    FirstEquals(key, value);
    assert (key + "=" + value)[..|key|] == key && (key + "=" + value)[|key| + 1..] == value;
  }

  function MaskedEnv(secret: Secret, lines: seq<string>): seq<string> {
    seq(|lines|, i requires 0 <= i < |lines| => MaskedLine(secret, lines[i]))
  }

  method MaskEnv(secret: Secret, env: seq<string>) returns (out: seq<string>)
    ensures out == MaskedEnv(secret, env)
  {
    out := [];
    for i := 0 to |env|
      invariant |out| == i && forall k | 0 <= k < i :: out[k] == MaskedLine(secret, env[k])
    {
      var entry := env[i];
      var at := Equals(entry);
      if at == |entry| {
        out := out + [entry];
      } else if secret(entry[..at]) {
        out := out + [entry[..at] + "=" + MaskValue(entry[at + 1..])];
      } else {
        out := out + [entry];
      }
    }
  }

  // Details of any depth.

  predicate IsObj(v: Value) {
    v.Obj? || v.NilObj?
  }

  function Fields(v: Value): map<string, Value>
    requires IsObj(v)
  {
    if v.Obj? then v.fields else map[]
  }

  predicate IsList(v: Value) {
    v.List? || v.NilList?
  }

  function Items(v: Value): seq<Value>
    requires IsList(v)
  {
    if v.List? then v.items else []
  }

  function MaskedLeaf(v: Value): Value {
    if v.Str? then Str(MaskValue(v.text))
    else if v.Null? then Null
    else if IsList(v) then List(seq(|Items(v)|, _ => Str(MASKED)))
    else Str(MASKED)
  }

  function Masked(secret: Secret, v: Value): Value
    decreases v, 1
  {
    match v
    case NilObj => Obj(map[])
    case Obj(m) => Obj(map k | k in m :: MaskedField(secret, k, m[k]))
    case StrMap(m) => StrMap(MaskedMap(secret, m))
    case Env(lines) => Env(MaskedEnv(secret, lines))
    case NilList => List([])
    case List(l) => List(seq(|l|, i requires 0 <= i < |l| => Masked(secret, l[i])))
    case _ => v
  }

  function MaskedField(secret: Secret, k: string, v: Value): Value
    decreases v, 2
  {
    if secret(k) then MaskedLeaf(v) else Masked(secret, v)
  }

  method MaskLeaf(v: Value) returns (r: Value)
    ensures r == MaskedLeaf(v)
  {
    if IsList(v) {
      var out: seq<Value> := [];
      for i := 0 to |Items(v)|
        invariant out == seq(i, _ => Str(MASKED))
      {
        out := out + [Str(MASKED)];
      }
      return List(out);
    }
    r := if v.Str? then Str(MaskValue(v.text)) else if v.Null? then Null else Str(MASKED);
  }

  method MaskAny(secret: Secret, v: Value) returns (r: Value)
    ensures r == Masked(secret, v)
    decreases v, 1
  {
    if IsObj(v) {
      var out := MaskFields(secret, v);
      r := Obj(out);
    } else if IsList(v) {
      var out := MaskItems(secret, v);
      r := List(out);
    } else if v.StrMap? {
      var out := MaskMap(secret, v.entries);
      r := StrMap(out);
    } else if v.Env? {
      var out := MaskEnv(secret, v.lines);
      r := Env(out);
    } else {
      // MaskMap and MaskEnv return nil for nil.
      r := v;
    }
  }

  method MaskFields(secret: Secret, v: Value) returns (out: map<string, Value>)
    requires IsObj(v)
    ensures Obj(out) == Masked(secret, v)
    decreases v, 0
  {
    out := map[];
    var m := Fields(v);
    var todo := m.Keys;
    while todo != {}
      invariant todo <= m.Keys && out.Keys == m.Keys - todo
      invariant forall k | k in out :: out[k] == MaskedField(secret, k, m[k])
      decreases todo
    {
      var k :| k in todo;
      todo := todo - {k};
      var item;
      if secret(k) {
        item := MaskLeaf(m[k]);
      } else {
        item := MaskAny(secret, m[k]);
      }
      out := out[k := item];
    }
    assert out == Masked(secret, v).fields;
  }

  method MaskItems(secret: Secret, v: Value) returns (out: seq<Value>)
    requires IsList(v)
    ensures List(out) == Masked(secret, v)
    decreases v, 0
  {
    out := [];
    var l := Items(v);
    for i := 0 to |l|
      invariant |out| == i && forall k | 0 <= k < i :: out[k] == Masked(secret, l[k])
    {
      var item := MaskAny(secret, l[i]);
      out := out + [item];
    }
    assert out == Masked(secret, v).items;
  }

  // What a record still tells.

  /** All that remains of a value under a secret-looking key. */
  datatype Trace = Unset | Blank | Present | Many(count: nat)

  function TraceOf(v: Value): Trace {
    if v.Null? then Unset
    else if v == Str("") then Blank
    else if IsList(v) then Many(|Items(v)|)
    else Present
  }

  predicate AlikeLine(secret: Secret, a: string, b: string) {
    || a == b
    || (var i := Equals(a);
        && i == Equals(b) && i < |a| && i < |b| && a[..i] == b[..i] && secret(a[..i])
        && (a[i + 1..] == "" <==> b[i + 1..] == ""))
  }

  predicate AlikeText(secret: Secret, k: string, a: string, b: string) {
    if secret(k) then a == "" <==> b == "" else a == b
  }

  /** Two details that differ only in values under secret-looking keys, and agree
      there on what is unset, empty, or a list of a given length. A nil map or
      list counts as an empty one. */
  predicate Alike(secret: Secret, v: Value, w: Value)
    decreases v, 1
  {
    if IsObj(v) && IsObj(w) then
      && Fields(v).Keys == Fields(w).Keys
      && forall k | k in Fields(v) :: AlikeField(secret, k, Fields(v)[k], Fields(w)[k])
    else if IsList(v) && IsList(w) then
      && |Items(v)| == |Items(w)|
      && forall i | 0 <= i < |Items(v)| :: Alike(secret, Items(v)[i], Items(w)[i])
    else if v.StrMap? && w.StrMap? then
      && v.entries.Keys == w.entries.Keys
      && forall k | k in v.entries :: AlikeText(secret, k, v.entries[k], w.entries[k])
    else if v.Env? && w.Env? then
      && |v.lines| == |w.lines|
      && forall i | 0 <= i < |v.lines| :: AlikeLine(secret, v.lines[i], w.lines[i])
    else v == w
  }

  predicate AlikeField(secret: Secret, k: string, v: Value, w: Value)
    decreases v, 2
  {
    if secret(k) then TraceOf(v) == TraceOf(w) else Alike(secret, v, w)
  }

  lemma LeafShowsTrace(v: Value, w: Value)
    ensures MaskedLeaf(v) == MaskedLeaf(w) <==> TraceOf(v) == TraceOf(w)
  {
    if IsList(v) && IsList(w) && MaskedLeaf(v) == MaskedLeaf(w) {
      assert |MaskedLeaf(v).items| == |MaskedLeaf(w).items|;
    }
  }

  lemma LineShows(secret: Secret, a: string, b: string)
    ensures MaskedLine(secret, a) == MaskedLine(secret, b) <==> AlikeLine(secret, a, b)
  {
    MaskedLineParts(secret, a);
    MaskedLineParts(secret, b);
  }

  /** Masking a line keeps where its key ends. */
  lemma MaskedLineParts(secret: Secret, line: string)
    ensures var i, m := Equals(line), MaskedLine(secret, line);
            && Equals(m) == i && i <= |m| && m[..i] == line[..i] && (i < |m| <==> i < |line|)
            && (i < |line| ==> m[i + 1..] == if secret(line[..i]) then MaskValue(line[i + 1..]) else line[i + 1..])
  {
    var i := Equals(line);
    if i < |line| && secret(line[..i]) {
      var key, value := line[..i], MaskValue(line[i + 1..]);
      FirstEquals(key, value);
      assert (key + "=" + value)[..i] == key && (key + "=" + value)[i + 1..] == value;
    }
  }

  lemma FirstEquals(key: string, value: string)
    requires forall k | 0 <= k < |key| :: key[k] != '='
    ensures Equals(key + "=" + value) == |key|
  {
    assert (key + "=" + value)[|key|] == '=';
  }

  lemma MapShows(secret: Secret, m: map<string, string>, n: map<string, string>)
    ensures MaskedMap(secret, m) == MaskedMap(secret, n) <==>
              m.Keys == n.Keys && forall k | k in m :: AlikeText(secret, k, m[k], n[k])
  {
    var a, b := MaskedMap(secret, m), MaskedMap(secret, n);
    assert a.Keys == m.Keys && b.Keys == n.Keys;
    if a == b {
      forall k | k in m ensures AlikeText(secret, k, m[k], n[k]) { assert a[k] == b[k]; }
    }
  }

  lemma EnvShows(secret: Secret, a: seq<string>, b: seq<string>)
    ensures MaskedEnv(secret, a) == MaskedEnv(secret, b) <==>
              |a| == |b| && forall i | 0 <= i < |a| :: AlikeLine(secret, a[i], b[i])
  {
    var x, y := MaskedEnv(secret, a), MaskedEnv(secret, b);
    if |a| == |b| {
      forall i | 0 <= i < |a| ensures x[i] == y[i] <==> AlikeLine(secret, a[i], b[i]) { LineShows(secret, a[i], b[i]); }
    }
  }

  /** Two details give the same record exactly when they are alike: a record
      tells nothing more of what is under a secret-looking key, at any depth. */
  lemma {:induction false} MaskHides(secret: Secret, v: Value, w: Value)
    ensures Masked(secret, v) == Masked(secret, w) <==> Alike(secret, v, w)
    decreases v, 1
  {
    if IsObj(v) && IsObj(w) {
      ObjHides(secret, v, w);
    } else if IsList(v) && IsList(w) {
      ListHides(secret, v, w);
    } else if v.StrMap? && w.StrMap? {
      MapShows(secret, v.entries, w.entries);
    } else if v.Env? && w.Env? {
      EnvShows(secret, v.lines, w.lines);
    }
  }

  lemma FieldHides(secret: Secret, k: string, v: Value, w: Value)
    ensures MaskedField(secret, k, v) == MaskedField(secret, k, w) <==> AlikeField(secret, k, v, w)
    decreases v, 2
  {
    if secret(k) { LeafShowsTrace(v, w); } else { MaskHides(secret, v, w); }
  }

  lemma {:induction false} ObjHides(secret: Secret, v: Value, w: Value)
    requires IsObj(v) && IsObj(w)
    ensures Masked(secret, v) == Masked(secret, w) <==> Alike(secret, v, w)
    decreases v, 0
  {
    var a, b := Masked(secret, v).fields, Masked(secret, w).fields;
    var m, n := Fields(v), Fields(w);
    assert a.Keys == m.Keys && b.Keys == n.Keys;
    forall k | k in m && k in n ensures a[k] == b[k] <==> AlikeField(secret, k, m[k], n[k]) {
      FieldHides(secret, k, m[k], n[k]);
    }
    if a.Keys == b.Keys {
      assert a == b <==> forall k | k in a :: a[k] == b[k];
    }
  }

  lemma {:induction false} ListHides(secret: Secret, v: Value, w: Value)
    requires IsList(v) && IsList(w)
    ensures Masked(secret, v) == Masked(secret, w) <==> Alike(secret, v, w)
    decreases v, 0
  {
    var a, b := Masked(secret, v).items, Masked(secret, w).items;
    var l, m := Items(v), Items(w);
    assert |a| == |l| && |b| == |m|;
    forall i | 0 <= i < |l| && i < |m| ensures a[i] == b[i] <==> Alike(secret, l[i], m[i]) {
      MaskHides(secret, l[i], m[i]);
    }
  }

  /** Masking a record again changes nothing. */
  lemma MaskTwice(secret: Secret, v: Value)
    ensures Masked(secret, Masked(secret, v)) == Masked(secret, v)
  {
    AlikeItsRecord(secret, v);
    MaskHides(secret, Masked(secret, v), v);
  }

  lemma {:induction false} AlikeItsRecord(secret: Secret, v: Value)
    ensures Alike(secret, Masked(secret, v), v)
    decreases v
  {
    if IsObj(v) {
      var m, r := Fields(v), Masked(secret, v);
      forall k | k in m ensures AlikeField(secret, k, r.fields[k], m[k]) {
        if !secret(k) { AlikeItsRecord(secret, m[k]); }
      }
    } else if IsList(v) {
      forall i | 0 <= i < |Items(v)| ensures Alike(secret, Masked(secret, v).items[i], Items(v)[i]) {
        AlikeItsRecord(secret, Items(v)[i]);
      }
    } else if v.Env? {
      forall i | 0 <= i < |v.lines| ensures AlikeLine(secret, MaskedLine(secret, v.lines[i]), v.lines[i]) {
        MaskedLineParts(secret, v.lines[i]);
      }
    }
  }

  // Everything else is kept.

  datatype Hop = Key(name: string) | Index(i: nat)

  /** The value at the end of a path into a detail. */
  function At(v: Value, path: seq<Hop>): Option<Value> {
    if path == [] then Some(v)
    else
      match path[0]
      case Key(name) => if v.Obj? && name in v.fields then At(v.fields[name], path[1..]) else None
      case Index(i) => if v.List? && i < |v.items| then At(v.items[i], path[1..]) else None
  }

  predicate Open(secret: Secret, path: seq<Hop>) {
    forall i | 0 <= i < |path| :: path[i].Key? ==> !secret(path[i].name)
  }

  predicate PlainLine(secret: Secret, line: string) {
    Equals(line) == |line| || !secret(line[..Equals(line)])
  }

  /** Nothing in the detail is under a secret-looking key, and no map or list is nil. */
  predicate Plain(secret: Secret, v: Value) {
    match v
    case Obj(m) => forall k | k in m :: !secret(k) && Plain(secret, m[k])
    case List(l) => forall i | 0 <= i < |l| :: Plain(secret, l[i])
    case StrMap(m) => forall k | k in m :: !secret(k)
    case Env(lines) => forall i | 0 <= i < |lines| :: PlainLine(secret, lines[i])
    case NilObj => false
    case NilList => false
    case _ => true
  }

  /** Then the record is the detail. */
  lemma {:induction false} PlainIsKept(secret: Secret, v: Value)
    requires Plain(secret, v)
    ensures Masked(secret, v) == v
    decreases v
  {
    match v
    case Obj(m) =>
      forall k | k in m ensures Masked(secret, v).fields[k] == m[k] { PlainIsKept(secret, m[k]); }
      assert Masked(secret, v).fields == m;
    case List(l) =>
      forall i | 0 <= i < |l| ensures Masked(secret, v).items[i] == l[i] { PlainIsKept(secret, l[i]); }
      assert Masked(secret, v).items == l;
    case StrMap(m) => assert MaskedMap(secret, m) == m;
    case Env(lines) => assert MaskedEnv(secret, lines) == lines;
    case _ =>
  }

  /** Along a path without secret-looking keys masking changes nothing but the
      value at its end: the same keys and indices exist. */
  lemma {:induction false} MaskKeepsPaths(secret: Secret, v: Value, path: seq<Hop>)
    requires Open(secret, path)
    ensures At(Masked(secret, v), path) == match At(v, path) case None => None case Some(x) => Some(Masked(secret, x))
    decreases |path|
  {
    if path != [] {
      assert path[0].Key? ==> !secret(path[0].name);
      match path[0]
      case Key(name) =>
        if v.Obj? && name in v.fields { MaskKeepsPaths(secret, v.fields[name], path[1..]); }
      case Index(i) =>
        if v.List? && i < |v.items| { MaskKeepsPaths(secret, v.items[i], path[1..]); }
    }
  }

  /** What a record holds for a value under a secret-looking key. */
  predicate Hidden(x: Value, y: Value) {
    && (x == Null || x == Str("") ==> y == x)
    && (IsList(x) ==> y.List? && |y.items| == |Items(x)| && forall i | 0 <= i < |y.items| :: y.items[i] == Str("***"))
    && (x != Null && x != Str("") && !IsList(x) ==> y == Str("***"))
  }

  lemma LeafIsHidden(x: Value)
    ensures Hidden(x, MaskedLeaf(x))
  {
  }

  /** At the first secret-looking key of a path, a record holds the trace only. */
  lemma SecretAtAnyDepth(secret: Secret, v: Value, path: seq<Hop>, k: string)
    requires Open(secret, path) && secret(k)
    ensures var x, y := At(v, path + [Key(k)]), At(Masked(secret, v), path + [Key(k)]);
            if x.None? then y.None? else y.Some? && Hidden(x.value, y.value)
  {
    if At(v, path + [Key(k)]).Some? { LeafIsHidden(At(v, path + [Key(k)]).value); }
    MaskKeepsPaths(secret, v, path);
    AtAppend(v, path, Key(k));
    AtAppend(Masked(secret, v), path, Key(k));
  }

  lemma {:induction false} AtAppend(v: Value, path: seq<Hop>, hop: Hop)
    ensures At(v, path + [hop]) == match At(v, path) case None => None case Some(x) => At(x, [hop])
    decreases |path|
  {
    if path == [] {
      assert path + [hop] == [hop];
    } else {
      assert (path + [hop])[1..] == path[1..] + [hop] && (path + [hop])[0] == path[0];
      match path[0]
      case Key(name) => if v.Obj? && name in v.fields { AtAppend(v.fields[name], path[1..], hop); }
      case Index(i) => if v.List? && i < |v.items| { AtAppend(v.items[i], path[1..], hop); }
    }
  }
}

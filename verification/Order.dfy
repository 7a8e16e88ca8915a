/** Acting on a stack's containers in dependency order (orderContainers and act in
    internal/service/stackup.go). */
module Order {
  import opened Text
  import opened Engine
  import opened Compose
  import opened Stack
  import opened Sorting

  /** The position of each service in the plan; a repeated name counts last. */
  function RankMap(plans: seq<ServicePlan>): map<string, nat> {
    if plans == [] then map[]
    else RankMap(plans[..|plans| - 1])[plans[|plans| - 1].name := |plans| - 1]
  }

  /** The comparison orderContainers sorts by. */
  predicate Before(rank: map<string, nat>, reverse: bool, a: Listed, b: Listed) {
    if Service(a.container) !in rank && Service(b.container) !in rank then Less(a.container.name, b.container.name)
    else if Service(a.container) !in rank then false
    else if Service(b.container) !in rank then true
    else if rank[Service(a.container)] == rank[Service(b.container)] then Less(a.container.name, b.container.name)
    else if reverse then rank[Service(a.container)] > rank[Service(b.container)]
    else rank[Service(a.container)] < rank[Service(b.container)]
  }

  function Comparison(rank: map<string, nat>, reverse: bool): (Listed, Listed) -> bool {
    (a, b) => Before(rank, reverse, a, b)
  }

  /** The containers in order; without a plan, as they came. */
  function Ordered(plan: Option<seq<ServicePlan>>, containers: seq<Listed>, reverse: bool): seq<Listed> {
    if plan.None? then containers else SortBy(Comparison(RankMap(plan.value), reverse), containers)
  }

  method OrderContainers(plan: Option<seq<ServicePlan>>, containers: seq<Listed>, reverse: bool)
    returns (ordered: seq<Listed>)
    ensures ordered == Ordered(plan, containers, reverse)
  {
    if plan.None? { return containers; }
    var rank: map<string, nat> := map[];
    for i := 0 to |plan.value|
      invariant rank == RankMap(plan.value[..i])
    {
      assert plan.value[..i + 1][..i] == plan.value[..i];
      rank := rank[plan.value[i].name := i];
    }
    assert plan.value[..|plan.value|] == plan.value;
    ordered := SortBy(Comparison(rank, reverse), containers);
  }

  // The comparison is an order.

  lemma ComparisonIsWeak(rank: map<string, nat>, reverse: bool)
    ensures StrictWeak(Comparison(rank, reverse))
  {
    var less := Comparison(rank, reverse);
    forall a, b ensures less(a, b) ==> !less(b, a) {
      LessWeak(a.container.name, b.container.name, a.container.name);
    }
    forall a, b, c ensures less(a, c) ==> less(a, b) || less(b, c) {
      LessWeak(a.container.name, b.container.name, c.container.name);
    }
  }

  /** Containers of different names are never tied. */
  lemma ComparisonIsTotal(rank: map<string, nat>, reverse: bool, a: Listed, b: Listed)
    requires a.container.name != b.container.name
    ensures Before(rank, reverse, a, b) || Before(rank, reverse, b, a)
  {
    LessTotal(a.container.name, b.container.name);
  }

  lemma OrderPermutes(plan: Option<seq<ServicePlan>>, containers: seq<Listed>, reverse: bool)
    ensures multiset(Ordered(plan, containers, reverse)) == multiset(containers)
  {
    if plan.Some? {
      ComparisonIsWeak(RankMap(plan.value), reverse);
      SortSorts(Comparison(RankMap(plan.value), reverse), containers);
    }
  }

  // The result does not depend on the order of the listing.

  lemma ListingsPermute(l: seq<Listed>, m: seq<Listed>, t: Table, key: string, value: string)
    requires IsListing(l, t, key, value) && IsListing(m, t, key, value)
    ensures multiset(l) == multiset(m)
  {
    forall x ensures multiset(l)[x] == multiset(m)[x] {
      Once(l, x);
      Once(m, x);
      if x in l { assert Listed(x.id, t[x.id]) == x; }
      if x in m { assert Listed(x.id, t[x.id]) == x; }
    }
  }

  /** However the engine lists the stack, the order is the same. */
  lemma OrderIgnoresListing(plans: seq<ServicePlan>, reverse: bool, l: seq<Listed>, m: seq<Listed>,
                            t: Table, key: string, value: string)
    requires Unique(t) && IsListing(l, t, key, value) && IsListing(m, t, key, value)
    ensures Ordered(Some(plans), l, reverse) == Ordered(Some(plans), m, reverse)
  {
    var less := Comparison(RankMap(plans), reverse);
    ListingsPermute(l, m, t, key, value);
    ComparisonIsWeak(RankMap(plans), reverse);
    SortSorts(less, l);
    SortSorts(less, m);
    var s := SortBy(less, l);
    SameElements(s, l);
    forall a, b | a in s && b in s && a != b ensures less(a, b) || less(b, a) {
      assert a in l && b in l;
      assert a == Listed(a.id, t[a.id]) && b == Listed(b.id, t[b.id]);
      ComparisonIsTotal(RankMap(plans), reverse, a, b);
    }
    SortedIsUnique(less, s, SortBy(less, m));
  }

  // Dependencies.

  predicate Planned(plans: seq<ServicePlan>, service: string) {
    exists i | 0 <= i < |plans| :: plans[i].name == service
  }

  lemma {:induction false} RankedIsPlanned(plans: seq<ServicePlan>, k: string)
    ensures k in RankMap(plans) <==> Planned(plans, k)
  {
    if plans != [] {
      var n := |plans| - 1;
      RankedIsPlanned(plans[..n], k);
      if Planned(plans, k) && k != plans[n].name {
        var i :| 0 <= i < |plans| && plans[i].name == k;
        assert plans[..n][i].name == k;
      }
    }
  }

  lemma {:induction false} RankIsIndex(plans: seq<ServicePlan>, i: nat)
    requires DistinctNames(plans) && i < |plans|
    ensures plans[i].name in RankMap(plans) && RankMap(plans)[plans[i].name] == i
  {
    var n := |plans| - 1;
    if i < n { RankIsIndex(plans[..n], i); }
  }

  /** A chain of planned services, each a dependency of the next. */
  predicate Chain(plans: seq<ServicePlan>, path: seq<nat>) {
    && (forall k | 0 <= k < |path| :: path[k] < |plans|)
    && (forall k | 0 < k < |path| :: plans[path[k - 1]].name in plans[path[k]].dependsOn)
  }

  lemma {:induction false} ChainClimbs(plans: seq<ServicePlan>, path: seq<nat>)
    requires PlannedInOrder(plans) && Chain(plans, path) && |path| >= 2
    ensures path[0] < path[|path| - 1]
  {
    var n := |path| - 1;
    assert path[n - 1] < path[n];
    if n > 1 { ChainClimbs(plans, path[..n]); }
  }

  ghost predicate Behind(plans: seq<ServicePlan>, dependency: string, dependent: string) {
    exists path: seq<nat> | |path| >= 2 && Chain(plans, path) ::
      plans[path[0]].name == dependency && plans[path[|path| - 1]].name == dependent
  }

  /** Neither a plan position nor its absence tells the two apart. */
  predicate SameRank(plans: seq<ServicePlan>, a: string, b: string) {
    a == b || (!Planned(plans, a) && !Planned(plans, b))
  }

  /** Where containers x at i and y at j stand in the order: by the plan, forwards on
      start and backwards otherwise, with what is not planned last, and by name where
      the plan does not tell. */
  lemma PlanOrder(plans: seq<ServicePlan>, containers: seq<Listed>, reverse: bool, i: nat, j: nat)
    requires DistinctNames(plans)
    requires i < |containers| && j < |containers|
    ensures var r := Ordered(Some(plans), containers, reverse);
            && |r| == |containers|
            && var x, y := Service(r[i].container), Service(r[j].container);
               && (forall a, b | 0 <= a < b < |plans| && plans[a].name == x && plans[b].name == y ::
                     if reverse then j < i else i < j)
               && (Planned(plans, x) && !Planned(plans, y) ==> i < j)
               && (SameRank(plans, x, y) && Less(r[i].container.name, r[j].container.name) ==> i < j)
  {
    var rank := RankMap(plans);
    var less := Comparison(rank, reverse);
    ComparisonIsWeak(rank, reverse);
    SortSorts(less, containers);
    var r := SortBy(less, containers);
    SameElements(r, containers);
    var x, y := Service(r[i].container), Service(r[j].container);
    RankedIsPlanned(plans, x);
    RankedIsPlanned(plans, y);
    forall a, b | 0 <= a < b < |plans| && plans[a].name == x && plans[b].name == y
      ensures if reverse then j < i else i < j
    {
      RankIsIndex(plans, a);
      RankIsIndex(plans, b);
      assert if reverse then less(r[j], r[i]) else less(r[i], r[j]);
      assert i != j;
    }
    if SameRank(plans, x, y) && Less(r[i].container.name, r[j].container.name) {
      assert less(r[i], r[j]);
      LessTotal(r[i].container.name, r[j].container.name);
      assert i != j;
    }
    if Planned(plans, x) && !Planned(plans, y) {
      assert less(r[i], r[j]);
    }
  }

  /** So when y's service depends on x's, however indirectly, x comes first on start
      and last otherwise. */
  lemma DependenciesInOrder(plans: seq<ServicePlan>, containers: seq<Listed>, reverse: bool, i: nat, j: nat)
    requires DistinctNames(plans) && PlannedInOrder(plans)
    requires i < |containers| && j < |containers|
    ensures var r := Ordered(Some(plans), containers, reverse);
            && |r| == |containers|
            && (Behind(plans, Service(r[i].container), Service(r[j].container)) ==> if reverse then j < i else i < j)
  {
    var r := Ordered(Some(plans), containers, reverse);
    PlanOrder(plans, containers, reverse, i, j);
    if Behind(plans, Service(r[i].container), Service(r[j].container)) {
      var path :| |path| >= 2 && Chain(plans, path) &&
        plans[path[0]].name == Service(r[i].container) && plans[path[|path| - 1]].name == Service(r[j].container);
      ChainClimbs(plans, path);
      assert path[0] < path[|path| - 1] < |plans|;
    }
  }

  // Acting on the stack.

  datatype Action = Start | Stop | Restart | Unknown

  /** How one call ends: without effect, with the container stopped on the way to a
      restart, or as asked. */
  datatype Call = Refused | Halted | Worked

  function PhaseOf(action: Action): Phase {
    if action == Stop then Exited else Running
  }

  /** What a call does to its container. */
  function After(t: Table, id: Id, action: Action, call: Call): Table {
    if id !in t || call.Refused? then t
    else t[id := t[id].(phase := if call.Halted? then Exited else PhaseOf(action))]
  }

  /** The names of those that did, or did not, succeed, in order. */
  function Where(ordered: seq<Listed>, calls: seq<Call>, worked: bool): seq<string>
    requires |calls| <= |ordered|
  {
    if calls == [] then []
    else
      var n := |calls| - 1;
      Where(ordered, calls[..n], worked) + if calls[n].Worked? == worked then [ordered[n].container.name] else []
  }

  /** The table after the first calls. */
  function Acted(t: Table, ordered: seq<Listed>, calls: seq<Call>, action: Action): Table
    requires |calls| <= |ordered|
  {
    if calls == [] then t
    else
      var n := |calls| - 1;
      After(Acted(t, ordered, calls[..n], action), ordered[n].id, action, calls[n])
  }

  predicate DistinctIds(l: seq<Listed>) {
    forall i, j | 0 <= i < j < |l| :: l[i].id != l[j].id
  }

  /** A container is what its own call made of it, whatever the others did. */
  lemma {:induction false} ActedAt(t: Table, ordered: seq<Listed>, calls: seq<Call>, action: Action, k: nat)
    requires |calls| <= |ordered| && DistinctIds(ordered) && k < |ordered| && ordered[k].id in t
    ensures var id := ordered[k].id;
            && id in Acted(t, ordered, calls, action)
            && Acted(t, ordered, calls, action)[id] ==
                 if k < |calls| then After(t, id, action, calls[k])[id] else t[id]
  {
    if calls != [] { ActedAt(t, ordered, calls[..|calls| - 1], action, k); }
  }

  /** Containers nobody called are as they were. */
  lemma {:induction false} ActedElsewhere(t: Table, ordered: seq<Listed>, calls: seq<Call>, action: Action, id: Id)
    requires |calls| <= |ordered| && forall k | 0 <= k < |calls| :: ordered[k].id != id
    ensures id in Acted(t, ordered, calls, action) <==> id in t
    ensures id in t ==> Acted(t, ordered, calls, action)[id] == t[id]
  {
    if calls != [] { ActedElsewhere(t, ordered, calls[..|calls| - 1], action, id); }
  }

  /** What a call leaves: started or restarted its container runs, stopped it does not,
      a refused call changes nothing and a restart that halts leaves it stopped. Nothing
      else about it changes, and no other container. */
  ghost predicate Leaves(t: Table, u: Table, id: Id, action: Action, call: Call) {
    && u.Keys == t.Keys && (forall other | other in t && other != id :: u[other] == t[other])
    && (id in t ==> LeftAs(t[id], u[id], action, call))
  }

  predicate LeftAs(before: Container, after: Container, action: Action, call: Call) {
    match call
    case Refused => after == before
    case Halted => action == Restart && after == before.(phase := Exited)
    case Worked =>
      && (action == Start || action == Restart ==> after == before.(phase := Running))
      && (action == Stop ==> after == before.(phase := Exited))
  }

  /** What act leaves: each container of the stack as its own call left it, and every
      other container as it was. */
  ghost predicate AllLeftAs(stack: string, t: Table, u: Table, ordered: seq<Listed>, calls: seq<Call>, action: Action)
    requires |calls| == |ordered|
  {
    && u.Keys == t.Keys
    && (forall k | 0 <= k < |ordered| ::
          ordered[k].id in t && LeftAs(t[ordered[k].id], u[ordered[k].id], action, calls[k]))
    && (forall id | id in t && !InStack(stack, t[id]) :: u[id] == t[id])
  }

  /** What act tells: the name of every container once, by how its call ended. */
  ghost predicate Told(ordered: seq<Listed>, calls: seq<Call>, done: seq<string>, failed: seq<string>)
    requires |calls| == |ordered|
  {
    && |done| + |failed| == |ordered|
    && (forall k | 0 <= k < |ordered| ::
          && (ordered[k].container.name in done <==> calls[k].Worked?)
          && (ordered[k].container.name in failed <==> !calls[k].Worked?))
  }

  lemma {:induction false} WhereHas(ordered: seq<Listed>, calls: seq<Call>, worked: bool, name: string)
    requires |calls| <= |ordered|
    ensures name in Where(ordered, calls, worked) <==>
              exists k | 0 <= k < |calls| :: ordered[k].container.name == name && calls[k].Worked? == worked
    ensures |Where(ordered, calls, true)| + |Where(ordered, calls, false)| == |calls|
  {
    if calls != [] {
      var n := |calls| - 1;
      WhereHas(ordered, calls[..n], worked, name);
      if k :| 0 <= k < n && ordered[k].container.name == name && calls[..n][k].Worked? == worked {
        assert calls[k].Worked? == worked;
      }
      if k :| 0 <= k < n && ordered[k].container.name == name && calls[k].Worked? == worked {
        assert calls[..n][k].Worked? == worked;
      }
    }
  }

  /** Names are unique, so a name tells which container it is about. */
  lemma TellsAll(t: Table, stack: string, ordered: seq<Listed>, calls: seq<Call>)
    requires Unique(t) && IsListing(ordered, t, LABEL_PROJECT, stack) && |calls| == |ordered|
    ensures Told(ordered, calls, Where(ordered, calls, true), Where(ordered, calls, false))
  {
    WhereHas(ordered, calls, true, "");
    forall k | 0 <= k < |ordered|
      ensures ordered[k].container.name in Where(ordered, calls, true) <==> calls[k].Worked?
      ensures ordered[k].container.name in Where(ordered, calls, false) <==> !calls[k].Worked?
    {
      WhereHas(ordered, calls, true, ordered[k].container.name);
      WhereHas(ordered, calls, false, ordered[k].container.name);
      assert forall j | 0 <= j < |ordered| && ordered[j].container.name == ordered[k].container.name :: j == k;
    }
  }

  lemma ActedLeaves(t: Table, stack: string, ordered: seq<Listed>, calls: seq<Call>, action: Action)
    requires IsListing(ordered, t, LABEL_PROJECT, stack) && |calls| == |ordered|
    requires action != Unknown && (action != Restart ==> Halted !in calls)
    ensures AllLeftAs(stack, t, Acted(t, ordered, calls, action), ordered, calls, action)
  {
    var u := Acted(t, ordered, calls, action);
    forall k | 0 <= k < |ordered|
      ensures ordered[k].id in t && ordered[k].id in u && LeftAs(t[ordered[k].id], u[ordered[k].id], action, calls[k])
    {
      ActedAt(t, ordered, calls, action, k);
      assert calls[k] in calls;
    }
    forall id | !(exists k | 0 <= k < |ordered| :: ordered[k].id == id)
      ensures id in u <==> id in t
      ensures id in t ==> u[id] == t[id]
    {
      ActedElsewhere(t, ordered, calls, action, id);
    }
    assert forall id | id in t && !InStack(stack, t[id]) :: forall k | 0 <= k < |ordered| :: ordered[k].id != id;
    assert forall id :: id in u <==> id in t;
  }

  /** The states a call passes through: a restart stops the container first. */
  function Passes(trail: Trail, w: World, t: Table, id: Id, action: Action, call: Call): Trail {
    match call
    case Refused => trail
    case Halted => Step(trail, w.(containers := After(t, id, action, Halted)))
    case Worked =>
      var stopped :=
        if action == Restart then Step(trail, w.(containers := After(t, id, action, Halted))) else trail;
      Step(stopped, w.(containers := After(t, id, action, Worked)))
  }

  /** The states passed through, in the order of the calls. */
  function Trailed(trail: Trail, w: World, ordered: seq<Listed>, calls: seq<Call>, action: Action): Trail
    requires |calls| <= |ordered|
  {
    if calls == [] then trail
    else
      var n := |calls| - 1;
      Passes(Trailed(trail, w, ordered, calls[..n], action), w,
             Acted(w.containers, ordered, calls[..n], action), ordered[n].id, action, calls[n])
  }

  /** In some state since `from` the container is not what it was in `t`. */
  ghost predicate Moved(trail: Trail, from: Trail, t: Table, id: Id) {
    && trail != from && trail.Step?
    && (Differs(trail.now.containers, t, id) || Moved(trail.before, from, t, id))
  }

  predicate Differs(now: Table, t: Table, id: Id) {
    id in t && (id !in now || now[id] != t[id])
  }

  predicate Final(now: Table, end: Table, id: Id) {
    id in now && id in end && now[id] == end[id]
  }

  /** From the first state on in which `second` is not what it was in `t`, `first` is
      what it is at the end: it was dealt with before, and nothing was done to it
      since. */
  ghost predicate InTurn(trail: Trail, from: Trail, t: Table, end: Table, first: Id, second: Id) {
    || trail == from
    || (&& trail.Step? && InTurn(trail.before, from, t, end, first, second)
        && (Moved(trail, from, t, second) ==> Final(trail.now.containers, end, first)))
  }

  lemma TurnStep(before: Trail, now: World, from: Trail, t: Table, end: Table, first: Id, second: Id)
    requires InTurn(before, from, t, end, first, second)
    requires Differs(now.containers, t, second) || Moved(before, from, t, second) ==> Final(now.containers, end, first)
    ensures InTurn(Step(before, now), from, t, end, first, second)
  {
  }

  /** A call on some other container than `second`, or once `first` is final. */
  lemma CallInTurn(before: Trail, w: World, t: Table, id: Id, action: Action, call: Call, from: Trail, start: Table,
                   end: Table, first: Id, second: Id)
    requires InTurn(before, from, start, end, first, second)
    requires || (id != first && Final(t, end, first))
             || (id != second && !Moved(before, from, start, second) && !Differs(t, start, second))
    ensures InTurn(Passes(before, w, t, id, action, call), from, start, end, first, second)
    ensures !Moved(before, from, start, second) && !Differs(t, start, second) && id != second ==>
              !Moved(Passes(before, w, t, id, action, call), from, start, second)
  {
    var halted := w.(containers := After(t, id, action, Halted));
    var worked := w.(containers := After(t, id, action, Worked));
    match call
    case Refused =>
    case Halted => TurnStep(before, halted, from, start, end, first, second);
    case Worked =>
      TurnStep(before, worked, from, start, end, first, second);
      TurnStep(before, halted, from, start, end, first, second);
      TurnStep(Step(before, halted), worked, from, start, end, first, second);
  }

  /** An earlier container of the list is dealt with before a later one. */
  lemma {:induction false} WalkInTurn(trail: Trail, w: World, ordered: seq<Listed>, calls: seq<Call>, action: Action,
                                      i: nat, j: nat, n: nat)
    requires DistinctIds(ordered) && |calls| == |ordered| && i < j < |ordered| && n <= |calls|
    requires ordered[i].id in w.containers && ordered[j].id in w.containers
    ensures var now := Trailed(trail, w, ordered, calls[..n], action);
            && InTurn(now, trail, w.containers, Acted(w.containers, ordered, calls, action),
                      ordered[i].id, ordered[j].id)
            && (n <= j ==> !Moved(now, trail, w.containers, ordered[j].id))
    decreases n
  {
    if n > 0 {
      var t, first, second := w.containers, ordered[i].id, ordered[j].id;
      var end := Acted(t, ordered, calls, action);
      WalkInTurn(trail, w, ordered, calls, action, i, j, n - 1);
      assert calls[..n][..n - 1] == calls[..n - 1];
      ActedAt(t, ordered, calls[..n - 1], action, i);
      ActedAt(t, ordered, calls[..n - 1], action, j);
      ActedAt(t, ordered, calls, action, i);
      CallInTurn(Trailed(trail, w, ordered, calls[..n - 1], action), w, Acted(t, ordered, calls[..n - 1], action),
                 ordered[n - 1].id, action, calls[n - 1], trail, t, end, first, second);
    }
  }

  function Depth(trail: Trail): nat {
    if trail.Birth? then 0 else Depth(trail.before) + 1
  }

  lemma {:induction false} TrailGrows(trail: Trail, w: World, ordered: seq<Listed>, calls: seq<Call>, action: Action)
    requires |calls| <= |ordered|
    ensures Depth(Trailed(trail, w, ordered, calls, action)) >= Depth(trail)
  {
    if calls != [] { TrailGrows(trail, w, ordered, calls[..|calls| - 1], action); }
  }

  /** A restart that worked shows, whatever phase the container was in. */
  lemma {:induction false} RestartMoves(trail: Trail, w: World, ordered: seq<Listed>, calls: seq<Call>, i: nat, n: nat)
    requires DistinctIds(ordered) && |calls| == |ordered| && i < n <= |calls| && calls[i].Worked?
    requires ordered[i].id in w.containers
    ensures Moved(Trailed(trail, w, ordered, calls[..n], Restart), trail, w.containers, ordered[i].id)
    decreases n
  {
    var before := Trailed(trail, w, ordered, calls[..n - 1], Restart);
    assert calls[..n][..n - 1] == calls[..n - 1];
    TrailGrows(trail, w, ordered, calls[..n - 1], Restart);
    ActedAt(w.containers, ordered, calls[..n - 1], Restart, i);
    if i < n - 1 { RestartMoves(trail, w, ordered, calls, i, n - 1); }
  }

  /** Order shows on a restart: of two containers that were restarted, the later one
      in the list was not dealt with before the earlier one. */
  lemma {:induction false} OutOfTurn(trail: Trail, w: World, ordered: seq<Listed>, calls: seq<Call>,
                                     i: nat, j: nat, n: nat)
    requires DistinctIds(ordered) && |calls| == |ordered| && i < j < n <= |calls|
    requires calls[i].Worked? && calls[j].Worked?
    requires ordered[i].id in w.containers && ordered[j].id in w.containers
    ensures !InTurn(Trailed(trail, w, ordered, calls[..n], Restart), trail, w.containers,
                    Acted(w.containers, ordered, calls, Restart), ordered[j].id, ordered[i].id)
    decreases n
  {
    assert calls[..n][..n - 1] == calls[..n - 1];
    TrailGrows(trail, w, ordered, calls[..n - 1], Restart);
    if j < n - 1 {
      OutOfTurn(trail, w, ordered, calls, i, j, n - 1);
    } else {
      RestartMoves(trail, w, ordered, calls, i, n - 1);
      ActedAt(w.containers, ordered, calls[..n - 1], Restart, j);
      ActedAt(w.containers, ordered, calls, Restart, j);
    }
  }

  /** The loop of act for a known action: one call per container, in order. */
  method ActOn(e: Engine, ordered: seq<Listed>, action: Action)
    returns (done: seq<string>, failed: seq<string>, ghost calls: seq<Call>)
    requires e.Valid() && action != Unknown
    modifies e
    ensures e.Valid() && |calls| == |ordered|
    ensures done == Where(ordered, calls, true) && failed == Where(ordered, calls, false)
    ensures e.world == old(e.world).(containers := Acted(old(e.world.containers), ordered, calls, action))
    ensures e.trail == Trailed(old(e.trail), old(e.world), ordered, calls, action)
    ensures action != Restart ==> Halted !in calls
    ensures e.reliable && (forall x | x in ordered :: x.id in old(e.world.containers)) ==> failed == []
  {
    done, failed, calls := [], [], [];
    for i := 0 to |ordered|
      invariant e.Valid() && |calls| == i
      invariant done == Where(ordered, calls, true) && failed == Where(ordered, calls, false)
      invariant e.world == old(e.world).(containers := Acted(old(e.world.containers), ordered, calls, action))
      invariant e.trail == Trailed(old(e.trail), old(e.world), ordered, calls, action)
      invariant action != Restart ==> Halted !in calls
      invariant old(e.world.containers).Keys == e.world.containers.Keys
      invariant e.reliable && (forall x | x in ordered :: x.id in old(e.world.containers)) ==> failed == []
    {
      ghost var call;
      var ok;
      ok, call := CallOne(e, ordered[i].id, action, old(e.world));
      ghost var before := calls;
      calls := calls + [call];
      assert calls[..i] == before;
      if ok {
        done := done + [ordered[i].container.name];
      } else {
        failed := failed + [ordered[i].container.name];
      }
    }
  }

  /** One call of act. */
  method CallOne(e: Engine, id: Id, action: Action, ghost w: World) returns (ok: bool, ghost call: Call)
    requires e.Valid() && action != Unknown && e.world == w.(containers := e.world.containers)
    modifies e
    ensures e.Valid() && ok == call.Worked? && (action != Restart ==> !call.Halted?)
    ensures Leaves(old(e.world.containers), e.world.containers, id, action, call)
    ensures e.world == w.(containers := After(old(e.world.containers), id, action, call))
    ensures e.trail == Passes(old(e.trail), w, old(e.world.containers), id, action, call)
    ensures old(e.world.containers).Keys == e.world.containers.Keys
    ensures e.reliable && id in old(e.world.containers) ==> ok
  {
    var err;
    if action == Restart {
      ghost var halted;
      err, halted := e.Restart(ById(id));
      call := if err.None? then Worked else if halted then Halted else Refused;
    } else {
      if action == Start { err := e.Start(ById(id)); } else { err := e.Stop(ById(id)); }
      call := if err.None? then Worked else Refused;
    }
    ok := err.None?;
  }

  /** Ordering a listing keeps it one: the same entries, each once. */
  lemma OrderedIsListing(plan: Option<seq<ServicePlan>>, reverse: bool, l: seq<Listed>, t: Table, stack: string)
    requires IsListing(l, t, LABEL_PROJECT, stack)
    ensures IsListing(Ordered(plan, l, reverse), t, LABEL_PROJECT, stack)
  {
    var r := Ordered(plan, l, reverse);
    OrderPermutes(plan, l, reverse);
    SameElements(r, l);
    forall k | 0 <= k < |r| ensures r[k] in l {
      assert r[k] in r;
    }
    forall i, j | 0 <= i < j < |r| ensures r[i].id != r[j].id {
      if r[i].id == r[j].id {
        assert r[i] in l && r[j] in l;
        Twice(r, i, j);
        Once(l, r[i]);
      }
    }
  }

  ghost predicate PairInTurn(start: bool, t: Table, end: Table, trail: Trail, from: Trail, a: Id, b: Id) {
    if start then InTurn(trail, from, t, end, a, b) else InTurn(trail, from, t, end, b, a)
  }

  lemma PairActsInOrder(start: bool, ordered: seq<Listed>, calls: seq<Call>, action: Action, w: World, from: Trail,
                        i: nat, j: nat)
    requires DistinctIds(ordered) && |calls| == |ordered| && i < |ordered| && j < |ordered|
    requires ordered[i].id in w.containers && ordered[j].id in w.containers && if start then i < j else j < i
    ensures PairInTurn(start, w.containers, Acted(w.containers, ordered, calls, action),
                       Trailed(from, w, ordered, calls, action), from, ordered[i].id, ordered[j].id)
  {
    assert calls[..|calls|] == calls;
    if start {
      WalkInTurn(from, w, ordered, calls, action, i, j, |calls|);
    } else {
      WalkInTurn(from, w, ordered, calls, action, j, i, |calls|);
    }
  }

  /** Two containers of the stack, the second's service depending on the first's. */
  ghost predicate DependsInStack(plans: seq<ServicePlan>, stack: string, t: Table, a: Id, b: Id) {
    && a in t && b in t && Label(t[a], LABEL_PROJECT) == stack && Label(t[b], LABEL_PROJECT) == stack
    && Behind(plans, Label(t[a], LABEL_SERVICE), Label(t[b], LABEL_SERVICE))
  }

  /** Where such a pair stands in the order. */
  lemma PairAt(plans: seq<ServicePlan>, stack: string, start: bool, l: seq<Listed>, t: Table, a: Id, b: Id)
    returns (i: nat, j: nat)
    requires DistinctNames(plans) && PlannedInOrder(plans) && IsListing(l, t, LABEL_PROJECT, stack)
    requires DependsInStack(plans, stack, t, a, b)
    ensures var ordered := Ordered(Some(plans), l, !start);
            && i < |ordered| && j < |ordered| && ordered[i].id == a && ordered[j].id == b
            && if start then i < j else j < i
  {
    var ordered := Ordered(Some(plans), l, !start);
    OrderPermutes(Some(plans), l, !start);
    SameElements(ordered, l);
    assert Listed(a, t[a]) in ordered && Listed(b, t[b]) in ordered;
    i :| 0 <= i < |ordered| && ordered[i] == Listed(a, t[a]);
    j :| 0 <= j < |ordered| && ordered[j] == Listed(b, t[b]);
    DependenciesInOrder(plans, l, !start, i, j);
  }

  /** The calls reach dependencies before their dependents on start and after them
      otherwise. */
  ghost predicate DependencyOrder(plans: seq<ServicePlan>, stack: string, start: bool, t: Table, end: Table,
                                  trail: Trail, from: Trail)
  {
    forall a, b | DependsInStack(plans, stack, t, a, b) :: PairInTurn(start, t, end, trail, from, a, b)
  }

  lemma ActsInOrder(plans: seq<ServicePlan>, stack: string, start: bool, l: seq<Listed>, calls: seq<Call>,
                    action: Action, w: World, from: Trail)
    requires DistinctNames(plans) && PlannedInOrder(plans) && IsListing(l, w.containers, LABEL_PROJECT, stack)
    requires |calls| == |Ordered(Some(plans), l, !start)|
    ensures var ordered := Ordered(Some(plans), l, !start);
            DependencyOrder(plans, stack, start, w.containers, Acted(w.containers, ordered, calls, action),
                            Trailed(from, w, ordered, calls, action), from)
  {
    var t, ordered := w.containers, Ordered(Some(plans), l, !start);
    OrderedIsListing(Some(plans), !start, l, t, stack);
    OrderPermutes(Some(plans), l, !start);
    SameElements(ordered, l);
    forall a, b | DependsInStack(plans, stack, t, a, b)
      ensures PairInTurn(start, t, Acted(t, ordered, calls, action),
                         Trailed(from, w, ordered, calls, action), from, a, b)
    {
      var i, j := PairAt(plans, stack, start, l, t, a, b);
      PairActsInOrder(start, ordered, calls, action, w, from, i, j);
    }
  }

  /** act: dependencies first on start and last otherwise; a failed call is
      reported and the rest still happen. `calls` tells how each call ended. An
      unknown action is noticed at the first container. */
  method Act(e: Engine, plan: Option<seq<ServicePlan>>, stack: string, action: Action)
    returns (error: bool, done: seq<string>, failed: seq<string>, ghost l: seq<Listed>, ghost calls: seq<Call>)
    requires e.Valid()
    modifies e
    ensures e.Valid()
    ensures error ==> e.world == old(e.world) && done == failed == []
    ensures e.reliable && action != Unknown ==> !error && failed == []
    ensures !error ==>
              var ordered := Ordered(plan, l, action != Start);
              && IsListing(l, old(e.world.containers), LABEL_PROJECT, stack) && (action == Unknown ==> l == [])
              && |calls| == |l| == |ordered|
              && IsListing(ordered, old(e.world.containers), LABEL_PROJECT, stack)
              && AllLeftAs(stack, old(e.world.containers), e.world.containers, ordered, calls, action)
              && Told(ordered, calls, done, failed)
              && e.world == old(e.world).(containers := Acted(old(e.world.containers), ordered, calls, action))
              && e.trail == Trailed(old(e.trail), old(e.world), ordered, calls, action)
    ensures !error && plan.Some? && DistinctNames(plan.value) && PlannedInOrder(plan.value) ==>
              DependencyOrder(plan.value, stack, action == Start, old(e.world.containers), e.world.containers,
                              e.trail, old(e.trail))
  {
    var listed := e.List(LABEL_PROJECT, stack);
    if listed.None? { return true, [], [], [], []; }
    l := listed.value;
    var ordered := OrderContainers(plan, listed.value, action != Start);
    OrderPermutes(plan, listed.value, action != Start);
    SameElements(ordered, listed.value);
    OrderedIsListing(plan, action != Start, l, e.world.containers, stack);
    if action == Unknown && ordered != [] { return true, [], [], l, []; }
    error := false;
    calls := [];
    done, failed := [], [];
    if action != Unknown {
      done, failed, calls := ActOn(e, ordered, action);
      TellsAll(old(e.world.containers), stack, ordered, calls);
      ActedLeaves(old(e.world.containers), stack, ordered, calls, action);
    }
    if plan.Some? && DistinctNames(plan.value) && PlannedInOrder(plan.value) {
      ActsInOrder(plan.value, stack, action == Start, l, calls, action, old(e.world), old(e.trail));
    }
  }
}

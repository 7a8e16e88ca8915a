/** Deploying a whole stack and scaling one service: `up` and `scale`
    (internal/service/stackup.go). */
module Deploy {
  import opened Text
  import opened Engine
  import opened Compose
  import opened Stack
  import opened Reconcile
  import opened Fleet
  import opened Naming
  import opened Status
  import opened Upkeep

  datatype ResourceKind = Network | Volume

  datatype ResourcePlan = ResourcePlan(name: string, external: bool)

  datatype Conversion =
    Conversion(services: seq<ServicePlan>, networks: seq<ResourcePlan>, volumes: seq<ResourcePlan>)

  /** How a deploy ends: all done, not even recorded as begun, refused before
      anything was touched, failed before the first service, or stopped with `done` services finished and
      `begun` of them touched. */
  datatype UpResult = Done | Unrecorded | Refused | NotReady | Stopped(done: nat, begun: nat)

  function Present(kind: ResourceKind, w: World): set<string> {
    match kind
    case Network => w.networks
    case Volume => w.volumes
  }

  /** Nothing is removed, and what is new is a resource of the plan that is not
      declared external. */
  ghost predicate Grown(plans: seq<ResourcePlan>, before: set<string>, after: set<string>) {
    before <= after && forall name | name in after - before :: ResourcePlan(name, false) in plans
  }

  /** What is declared external is there. */
  predicate Supplied(plans: seq<ResourcePlan>, present: set<string>) {
    forall p | p in plans && p.external :: p.name in present
  }

  /** ensureNetworks and ensureVolumes, which differ in the kind only. */
  method Ensure(e: Engine, kind: ResourceKind, plans: seq<ResourcePlan>) returns (err: Option<Fault>)
    requires e.Valid()
    modifies e
    ensures e.Valid() && e.world.containers == old(e.world.containers)
    ensures Grown(plans, Present(kind, old(e.world)), Present(kind, e.world))
    ensures forall other | other != kind :: Present(other, e.world) == Present(other, old(e.world))
    ensures err.None? ==> forall p | p in plans :: p.name in Present(kind, e.world)
    ensures (forall p | p in plans :: p.name in Present(kind, old(e.world))) ==> e.Kept()
    ensures e.reliable && Supplied(plans, Present(kind, old(e.world))) ==> err.None?
  {
    if plans == [] { return None; }
    if !e.reliable { if * { return Some(Other); } }
    var present := Present(kind, e.world);
    for k := 0 to |plans|
      invariant e.Valid() && e.world.containers == old(e.world.containers)
      invariant forall other | other != kind :: Present(other, e.world) == Present(other, old(e.world))
      invariant present <= Present(kind, e.world)
      invariant forall name | name in Present(kind, e.world) - present :: ResourcePlan(name, false) in plans
      invariant forall p | p in plans[..k] :: p.name in Present(kind, e.world)
      invariant (forall p | p in plans :: p.name in present) ==> e.Kept()
    {
      if plans[k].name !in present {
        assert plans[k] in plans;
        if plans[k].external { return Some(Other); }
        assert plans[k] == ResourcePlan(plans[k].name, false);
        match kind {
          case Network => err := e.CreateNetwork(plans[k].name);
          case Volume => err := e.CreateVolume(plans[k].name);
        }
        if err.Some? { return; }
      }
    }
    err := None;
  }

  /** The plans that are asked for by name, in deployment order. */
  function Chosen(plans: seq<ServicePlan>, names: set<string>): seq<ServicePlan> {
    if plans == [] then []
    else
      var n := |plans| - 1;
      Chosen(plans[..n], names) + if plans[n].name in names then [plans[n]] else []
  }

  predicate Offers(plans: seq<ServicePlan>, name: string) {
    exists p | p in plans :: p.name == name
  }

  lemma OffersNext(plans: seq<ServicePlan>, k: nat)
    requires k < |plans|
    ensures forall name :: Offers(plans[..k + 1], name) <==> Offers(plans[..k], name) || plans[k].name == name
  {
  }

  lemma ChosenNext(plans: seq<ServicePlan>, k: nat, names: set<string>)
    requires k < |plans|
    ensures Chosen(plans[..k + 1], names)
         == Chosen(plans[..k], names) + if plans[k].name in names then [plans[k]] else []
  {
    assert plans[..k + 1][..k] == plans[..k];
  }

  lemma NotOffered(plans: seq<ServicePlan>, k: nat)
    requires DistinctNames(plans) && k < |plans|
    ensures !Offers(plans[..k], plans[k].name)
  {
  }

  /** selectServices: refuses when some name is not a service of the plan. */
  method SelectServices(plans: seq<ServicePlan>, names: seq<string>) returns (r: Option<seq<ServicePlan>>)
    requires DistinctNames(plans)
    ensures r.Some? <==> forall name | name in names :: Offers(plans, name)
    ensures r.Some? ==> r.value == Chosen(plans, Elements(names))
  {
    var wanted := Elements(names);
    var out := [];
    for k := 0 to |plans|
      invariant out == Chosen(plans[..k], Elements(names))
      invariant forall name :: name in wanted <==> name in names && !Offers(plans[..k], name)
    {
      OffersNext(plans, k);
      ChosenNext(plans, k, Elements(names));
      NotOffered(plans, k);
      if plans[k].name in wanted {
        out := out + [plans[k]];
        wanted := wanted - {plans[k].name};
      }
    }
    assert plans[..|plans|] == plans;
    if wanted == {} { r := Some(out); } else { r := None; }
  }

  lemma {:induction false} ChosenHas(plans: seq<ServicePlan>, names: set<string>, p: ServicePlan)
    ensures p in Chosen(plans, names) <==> p in plans && p.name in names
    decreases |plans|
  {
    if plans != [] {
      var n := |plans| - 1;
      ChosenHas(plans[..n], names, p);
      assert plans == plans[..n] + [plans[n]];
    }
  }

  lemma {:induction false} ChosenDistinct(plans: seq<ServicePlan>, names: set<string>)
    requires DistinctNames(plans)
    ensures DistinctNames(Chosen(plans, names))
    decreases |plans|
  {
    if plans != [] {
      var n := |plans| - 1;
      ChosenDistinct(plans[..n], names);
      var before := Chosen(plans[..n], names);
      forall k | 0 <= k < |before| ensures before[k].name != plans[n].name {
        ChosenHas(plans[..n], names, before[k]);
        var i :| 0 <= i < n && plans[..n][i] == before[k];
        assert plans[i] == before[k];
      }
    }
  }

  lemma ChosenIs(plans: seq<ServicePlan>, names: set<string>)
    requires DistinctNames(plans)
    ensures forall p :: p in Chosen(plans, names) <==> p in plans && p.name in names
    ensures DistinctNames(Chosen(plans, names))
  {
    forall p ensures p in Chosen(plans, names) <==> p in plans && p.name in names { ChosenHas(plans, names, p); }
    ChosenDistinct(plans, names);
  }

  /** Picking keeps the order: dependencies stay first. */
  lemma {:induction false} ChosenInOrder(plans: seq<ServicePlan>, names: set<string>)
    requires PlannedInOrder(plans)
    ensures PlannedInOrder(Chosen(plans, names))
    decreases |plans|
  {
    if plans != [] {
      var n := |plans| - 1;
      ChosenInOrder(plans[..n], names);
      var before := Chosen(plans[..n], names);
      forall k | 0 <= k < |before| ensures plans[n].name !in before[k].dependsOn {
        ChosenHas(plans[..n], names, before[k]);
        var i :| 0 <= i < n && plans[..n][i] == before[k];
        assert plans[i] == before[k];
      }
      assert plans[n].name !in plans[n].dependsOn;
    }
  }

  function Selection(plans: seq<ServicePlan>, names: seq<string>): seq<ServicePlan> {
    if names == [] then plans else Chosen(plans, Elements(names))
  }

  /** Where a deploy stands: `done` selected services are settled, the services
      past `begun` and the unselected ones see what they saw at the start. */
  ghost predicate Reached(digest: Spec -> string, stack: string, plans: seq<ServicePlan>,
                          selected: seq<ServicePlan>, done: nat, begun: nat, start: Table, cs: Table)
  {
    && done <= begun <= |selected|
    && Sound(digest, stack, plans, cs)
    && (WellNamed(digest, stack, plans, start) ==> WellNamed(digest, stack, plans, cs))
    && AllSettled(digest, stack, selected[..done], cs)
    && AllSeen(digest, stack, plans, selected[..begun], start, cs)
  }

  ghost predicate AllSettled(digest: Spec -> string, stack: string, ps: seq<ServicePlan>, cs: Table) {
    forall p | p in ps :: Settled(TargetOf(digest, stack, p), cs)
  }

  /** Every service but the touched ones sees what it saw at the start. */
  ghost predicate AllSeen(digest: Spec -> string, stack: string, plans: seq<ServicePlan>, touched: seq<ServicePlan>,
                          start: Table, cs: Table)
  {
    forall q | q in plans && q !in touched :: Accurate(TargetOf(digest, stack, q), start, cs)
  }

  /** Nothing outside what the selected services claim has changed, and what is
      new or changed was stamped for one of them. */
  ghost predicate Confined(digest: Spec -> string, stack: string, selected: seq<ServicePlan>, start: Table, cs: Table) {
    && (forall id | id in start && !ClaimedByAny(digest, stack, selected, start[id]) ::
          id in cs && cs[id] == start[id])
    && (forall id | id in cs :: (id in start && cs[id] == start[id]) || MineForAny(digest, stack, selected, cs[id]))
  }

  ghost predicate ClaimedByAny(digest: Spec -> string, stack: string, selected: seq<ServicePlan>, c: Container) {
    exists p | p in selected :: Claimed(TargetOf(digest, stack, p), c)
  }

  ghost predicate MineForAny(digest: Spec -> string, stack: string, selected: seq<ServicePlan>, c: Container) {
    exists p | p in selected :: Mine(TargetOf(digest, stack, p), c)
  }

  lemma ServiceApart(digest: Spec -> string, stack: string, plans: seq<ServicePlan>, p: ServicePlan,
                     q: ServicePlan, start: Table, cs: Table, after: Table)
    requires Deployable(stack, plans) && Sound(digest, stack, plans, cs) && p in plans && q in plans && p != q
    requires OnlyClaimed(TargetOf(digest, stack, p), cs, after)
    ensures Accurate(TargetOf(digest, stack, q), start, cs) ==> Accurate(TargetOf(digest, stack, q), start, after)
    ensures Settled(TargetOf(digest, stack, q), cs) ==> Settled(TargetOf(digest, stack, q), after)
  {
    var t := TargetOf(digest, stack, q);
    if q.name == p.name { SameName(stack, plans, p, q); }
    OthersUnmoved(digest, stack, plans, cs, after, p, TargetOf(digest, stack, p), q);
    if Accurate(t, start, cs) { AccurateAcross(t, start, cs, after); }
    if Settled(t, cs) { StaysSettled(t, cs, after); }
  }

  lemma StaySettled(digest: Spec -> string, stack: string, plans: seq<ServicePlan>, ps: seq<ServicePlan>,
                    p: ServicePlan, cs: Table, after: Table)
    requires Deployable(stack, plans) && Sound(digest, stack, plans, cs) && p in plans && p !in ps
    requires forall q | q in ps :: q in plans
    requires OnlyClaimed(TargetOf(digest, stack, p), cs, after) && AllSettled(digest, stack, ps, cs)
    ensures AllSettled(digest, stack, ps, after)
  {
    forall q | q in ps ensures Settled(TargetOf(digest, stack, q), after) {
      ServiceApart(digest, stack, plans, p, q, cs, cs, after);
    }
  }

  lemma StaySeen(digest: Spec -> string, stack: string, plans: seq<ServicePlan>, touched: seq<ServicePlan>,
                 p: ServicePlan, start: Table, cs: Table, after: Table)
    requires Deployable(stack, plans) && Sound(digest, stack, plans, cs) && p in plans
    requires OnlyClaimed(TargetOf(digest, stack, p), cs, after)
    requires AllSeen(digest, stack, plans, touched, start, cs)
    ensures AllSeen(digest, stack, plans, touched + [p], start, after)
  {
    forall q | q in plans && q !in touched + [p] ensures Accurate(TargetOf(digest, stack, q), start, after) {
      ServiceApart(digest, stack, plans, p, q, start, cs, after);
    }
  }

  lemma NextService(digest: Spec -> string, stack: string, plans: seq<ServicePlan>, selected: seq<ServicePlan>,
                    k: nat, start: Table, cs: Table, after: Table)
    requires Deployable(stack, plans) && k < |selected| && (forall p | p in selected :: p in plans)
    requires DistinctNames(selected) && Reached(digest, stack, plans, selected, k, k, start, cs)
    requires OnlyClaimed(TargetOf(digest, stack, selected[k]), cs, after)
    ensures Reached(digest, stack, plans, selected, k, k + 1, start, after)
    ensures Settled(TargetOf(digest, stack, selected[k]), after) ==>
              Reached(digest, stack, plans, selected, k + 1, k + 1, start, after)
  {
    var p := selected[k];
    StaysSound(digest, stack, plans, cs, after, p, TargetOf(digest, stack, p));
    assert selected[..k + 1] == selected[..k] + [p];
    NotBefore(selected, k);
    StaySettled(digest, stack, plans, selected[..k], p, cs, after);
    StaySeen(digest, stack, plans, selected[..k], p, start, cs, after);
    if Settled(TargetOf(digest, stack, p), after) {
      OneMoreSettled(digest, stack, selected[..k], p, after);
    }
  }

  lemma NotBefore(ps: seq<ServicePlan>, k: nat)
    requires DistinctNames(ps) && k < |ps|
    ensures ps[k] !in ps[..k]
  {
  }

  lemma OneMoreSettled(digest: Spec -> string, stack: string, ps: seq<ServicePlan>, p: ServicePlan, cs: Table)
    requires AllSettled(digest, stack, ps, cs) && Settled(TargetOf(digest, stack, p), cs)
    ensures AllSettled(digest, stack, ps + [p], cs)
  {
  }

  lemma StaysConfined(digest: Spec -> string, stack: string, selected: seq<ServicePlan>, p: ServicePlan,
                      start: Table, cs: Table, after: Table)
    requires p in selected && Confined(digest, stack, selected, start, cs)
    requires OnlyClaimed(TargetOf(digest, stack, p), cs, after)
    ensures Confined(digest, stack, selected, start, after)
  {
  }

  ghost predicate AllClear(digest: Spec -> string, stack: string, ps: seq<ServicePlan>, cs: Table) {
    forall p | p in ps :: Clear(TargetOf(digest, stack, p), cs)
  }

  lemma StaysClear(digest: Spec -> string, stack: string, ps: seq<ServicePlan>, p: ServicePlan, cs: Table, after: Table)
    requires AllClear(digest, stack, ps, cs) && OnlyClaimed(TargetOf(digest, stack, p), cs, after)
    ensures AllClear(digest, stack, ps, after)
  {
  }

  /** Every network and volume of the plan is there. */
  ghost predicate Provisioned(c: Conversion, w: World) {
    && (forall p | p in c.networks :: p.name in w.networks)
    && (forall p | p in c.volumes :: p.name in w.volumes)
  }

  /** What became of the containers found: whatever ran up to date is untouched in
      every selected service, and in the first `done` of them the deploy is
      complete. Ids given out meanwhile are new. */
  ghost predicate Upkept(digest: Spec -> string, stack: string, selected: seq<ServicePlan>, done: nat, recreate: bool,
                         reliable: bool, start: Table, cs: Table)
    requires done <= |selected|
  {
    && AllSpared(digest, stack, selected, recreate, start, cs)
    && AllCompleted(digest, stack, selected[..done], recreate, reliable, start, cs)
  }

  ghost predicate AllSpared(digest: Spec -> string, stack: string, ps: seq<ServicePlan>, recreate: bool,
                            start: Table, cs: Table)
  {
    forall p | p in ps :: Spared(TargetOf(digest, stack, p), recreate, start, cs)
  }

  ghost predicate AllCompleted(digest: Spec -> string, stack: string, ps: seq<ServicePlan>, recreate: bool,
                               reliable: bool, start: Table, cs: Table)
  {
    forall p | p in ps :: Completed(TargetOf(digest, stack, p), recreate, reliable, start, cs)
  }

  /** Every container was there before `next` or got an id from there on. */
  ghost predicate Numbered(start: Table, cs: Table, next: Id) {
    (forall id | id in start :: id < next) && forall id | id in cs && id !in start :: id >= next
  }

  lemma NextUpkeep(digest: Spec -> string, stack: string, plans: seq<ServicePlan>, selected: seq<ServicePlan>, k: nat,
                   recreate: bool, reliable: bool, start: Table, cs: Table, after: Table, ok: bool)
    requires Deployable(stack, plans) && k < |selected| && (forall p | p in selected :: p in plans)
    requires DistinctNames(selected) && Sound(digest, stack, plans, cs)
    requires Upkept(digest, stack, selected, k, recreate, reliable, start, cs)
    requires OnlyClaimed(TargetOf(digest, stack, selected[k]), cs, after) && SameMake(cs, after)
    requires NoReturn(start, cs, after)
    requires Accurate(TargetOf(digest, stack, selected[k]), start, cs)
    requires Spared(TargetOf(digest, stack, selected[k]), recreate, cs, after)
    requires ok ==> Completed(TargetOf(digest, stack, selected[k]), recreate, reliable, cs, after)
    ensures Upkept(digest, stack, selected, if ok then k + 1 else k, recreate, reliable, start, after)
  {
    var p := selected[k];
    FromStart(TargetOf(digest, stack, p), recreate, reliable, start, cs, after);
    NotBefore(selected, k);
    forall q | q in selected && q != p
      ensures Spared(TargetOf(digest, stack, q), recreate, start, after)
      ensures Completed(TargetOf(digest, stack, q), recreate, reliable, start, cs) ==>
                Completed(TargetOf(digest, stack, q), recreate, reliable, start, after)
    {
      if q.name == p.name { SameName(stack, plans, p, q); }
      OthersUnmoved(digest, stack, plans, cs, after, p, TargetOf(digest, stack, p), q);
      ToEnd(TargetOf(digest, stack, q), recreate, reliable, start, cs, after);
    }
    assert selected[..k + 1] == selected[..k] + [p];
  }

  /** One selected service, between the table the loop started from and now. */
  method UpNext(e: Engine, digest: Spec -> string, stack: string, recreate: bool, existing: seq<Listed>,
                selected: seq<ServicePlan>, k: nat, ghost plans: seq<ServicePlan>, ghost start: Table,
                ghost next: Id)
    returns (err: Option<Fault>)
    requires e.Valid() && Deployable(stack, plans) && k < |selected| && Unique(start)
    requires (forall p | p in selected :: p in plans)
    requires DistinctNames(selected) && IsListing(existing, start, LABEL_PROJECT, stack)
    requires Standing(digest, stack, plans, selected, k, k, recreate, e.reliable, start, e.world.containers)
    requires Numbered(start, e.world.containers, next) && next <= e.nextId
    modifies e
    ensures e.Valid() && e.world == old(e.world).(containers := e.world.containers)
    ensures Standing(digest, stack, plans, selected, if err.None? then k + 1 else k, k + 1, recreate, e.reliable,
                     start, e.world.containers)
    ensures Numbered(start, e.world.containers, next) && next <= e.nextId
    ensures !recreate && Settled(TargetOf(digest, stack, selected[k]), old(e.world.containers)) ==> e.Kept()
    ensures AllClear(digest, stack, selected, old(e.world.containers)) ==>
              AllClear(digest, stack, selected, e.world.containers) && (e.reliable ==> err.None?)
  {
    ghost var cs := e.world.containers;
    var t := TargetOf(digest, stack, selected[k]);
    SoundIsTrusted(digest, stack, plans, cs, selected[k], t);
    NotBefore(selected, k);
    err := UpService(e, t, recreate, existing, start);
    NextService(digest, stack, plans, selected, k, start, cs, e.world.containers);
    NextUpkeep(digest, stack, plans, selected, k, recreate, e.reliable, start, cs, e.world.containers, err.None?);
    StaysConfined(digest, stack, selected, selected[k], start, cs, e.world.containers);
    if AllClear(digest, stack, selected, cs) {
      StaysClear(digest, stack, selected, selected[k], cs, e.world.containers);
    }
  }

  /** Where the loop stands with k services done, `begun` of them touched. */
  ghost predicate Standing(digest: Spec -> string, stack: string, plans: seq<ServicePlan>, selected: seq<ServicePlan>,
                           k: nat, begun: nat, recreate: bool, reliable: bool, start: Table, cs: Table)
  {
    && Reached(digest, stack, plans, selected, k, begun, start, cs)
    && Confined(digest, stack, selected, start, cs)
    && Upkept(digest, stack, selected, k, recreate, reliable, start, cs)
  }

  lemma Initially(digest: Spec -> string, stack: string, plans: seq<ServicePlan>, selected: seq<ServicePlan>,
                  recreate: bool, reliable: bool, start: Table)
    requires Sound(digest, stack, plans, start)
    ensures Standing(digest, stack, plans, selected, 0, 0, recreate, reliable, start, start)
  {
  }

  /** The loop over the selected services, from the listing of the table it finds. */
  method UpServices(e: Engine, digest: Spec -> string, stack: string, recreate: bool,
                    existing: seq<Listed>, selected: seq<ServicePlan>, ghost plans: seq<ServicePlan>)
    returns (r: UpResult)
    requires e.Valid() && Deployable(stack, plans) && Sound(digest, stack, plans, e.world.containers)
    requires (forall p | p in selected :: p in plans)
    requires DistinctNames(selected)
    requires IsListing(existing, e.world.containers, LABEL_PROJECT, stack)
    modifies e
    ensures e.Valid() && e.world == old(e.world).(containers := e.world.containers)
    ensures r.Done? || r.Stopped?
    ensures var done, begun := if r.Done? then |selected| else r.done, if r.Done? then |selected| else r.begun;
            && begun <= done + 1
            && Standing(digest, stack, plans, selected, done, begun, recreate, e.reliable,
                        old(e.world.containers), e.world.containers)
    ensures !recreate && AllSettled(digest, stack, selected, old(e.world.containers)) ==> e.Kept()
    ensures e.reliable && AllClear(digest, stack, selected, old(e.world.containers)) ==> r.Done?
  {
    ghost var start := e.world.containers;
    ghost var clear := AllClear(digest, stack, selected, start);
    ghost var quiet := !recreate && AllSettled(digest, stack, selected, start);
    Initially(digest, stack, plans, selected, recreate, e.reliable, start);
    var k := 0;
    while k < |selected|
      invariant k <= |selected| && e.Valid()
      invariant e.world == old(e.world).(containers := e.world.containers)
      invariant Standing(digest, stack, plans, selected, k, k, recreate, e.reliable, start, e.world.containers)
      invariant Numbered(start, e.world.containers, old(e.nextId)) && old(e.nextId) <= e.nextId
      invariant quiet ==> e.Kept()
      invariant clear ==> AllClear(digest, stack, selected, e.world.containers)
    {
      // The context may have been cancelled.
      if !e.reliable { if * { return Stopped(k, k); } }
      var err := UpNext(e, digest, stack, recreate, existing, selected, k, plans, start, old(e.nextId));
      if err.Some? { return Stopped(k, k + 1); }
      k := k + 1;
    }
    r := Done;
  }

  /** Everything that can be refused is refused here, before the engine is touched. */
  method Admit(conversion: Option<Conversion>, names: seq<string>, refuse: ServicePlan -> bool)
    returns (selected: Option<seq<ServicePlan>>)
    requires conversion.Some? ==> DistinctNames(conversion.value.services)
    ensures selected.Some? <==> Admissible(conversion, names, refuse)
    ensures selected.Some? ==>
              && selected.value == Selection(conversion.value.services, names)
              && (forall p | p in selected.value :: p in conversion.value.services)
              && DistinctNames(selected.value)
  {
    if conversion.None? { return None; }
    var plans := conversion.value.services;
    var chosen := plans;
    if names != [] {
      var r := SelectServices(plans, names);
      if r.None? { return None; }
      chosen := r.value;
      ChosenIs(plans, Elements(names));
    }
    if exists p | p in chosen :: refuse(p) { return None; }
    selected := Some(chosen);
  }

  predicate Admissible(conversion: Option<Conversion>, names: seq<string>, refuse: ServicePlan -> bool) {
    && conversion.Some?
    && (forall name | name in names :: Offers(conversion.value.services, name))
    && (forall p | p in Selection(conversion.value.services, names) :: !refuse(p))
  }

  ghost predicate ResourcesGrown(c: Conversion, before: World, after: World) {
    Grown(c.networks, before.networks, after.networks) && Grown(c.volumes, before.volumes, after.volumes)
  }

  predicate ExternalsThere(c: Conversion, w: World) {
    Supplied(c.networks, w.networks) && Supplied(c.volumes, w.volumes)
  }

  method Provision(e: Engine, c: Conversion) returns (err: Option<Fault>)
    requires e.Valid()
    modifies e
    ensures e.Valid() && e.world.containers == old(e.world.containers)
    ensures ResourcesGrown(c, old(e.world), e.world)
    ensures err.None? ==> Provisioned(c, e.world)
    ensures Provisioned(c, old(e.world)) ==> e.Kept()
    ensures e.reliable && ExternalsThere(c, old(e.world)) ==> err.None?
  {
    err := Ensure(e, Network, c.networks);
    ghost var w := e.world;
    assert Present(Volume, w) == Present(Volume, old(e.world));
    assert Grown(c.networks, Present(Network, old(e.world)), Present(Network, w));
    if err.Some? { return; }
    assert forall p | p in c.networks :: p.name in Present(Network, w);
    err := Ensure(e, Volume, c.volumes);
    assert Present(Network, e.world) == Present(Network, w);
    assert Grown(c.volumes, Present(Volume, w), Present(Volume, e.world));
    assert err.None? ==> forall p | p in c.volumes :: p.name in Present(Volume, e.world);
  }

  /** The stack already is what the plan asks for. */
  ghost predicate UpAlready(digest: Spec -> string, stack: string, c: Conversion, names: seq<string>, w: World) {
    && Provisioned(c, w)
    && AllSettled(digest, stack, Selection(c.services, names), w.containers)
  }

  /** The plan is admissible, external resources are there, and nobody outside the
      stack holds one of its names. */
  ghost predicate Workable(digest: Spec -> string, stack: string, c: Option<Conversion>, names: seq<string>,
                           refuse: ServicePlan -> bool, w: World)
  {
    && Admissible(c, names, refuse) && ExternalsThere(c.value, w)
    && AllClear(digest, stack, Selection(c.value.services, names), w.containers)
  }

  /** How far a deploy got, by its result. In every case what ran up to date is
      untouched and nothing but the selected services changed; a complete deploy
      leaves each service on its networks exactly as far as it found it there. */
  ghost predicate Boundary(digest: Spec -> string, stack: string, c: Conversion, names: seq<string>, recreate: bool,
                           reliable: bool, r: UpResult, start: Table, cs: Table)
  {
    var selected := Selection(c.services, names);
    && (r.Done? ==>
          && Reached(digest, stack, c.services, selected, |selected|, |selected|, start, cs)
          && AllCompleted(digest, stack, selected, recreate, reliable, start, cs)
          && AllJoinedIff(digest, stack, selected, recreate, reliable, start, cs)
          && AllRunPlan(digest, stack, selected, cs)
          && (Injective(digest) && Honest(digest, stack, start) ==>
                AllKeptIfSame(digest, stack, selected, recreate, start, cs)))
    && (r.Stopped? ==>
          && r.begun <= r.done + 1
          && Reached(digest, stack, c.services, selected, r.done, r.begun, start, cs)
          && AllCompleted(digest, stack, selected[..r.done], recreate, reliable, start, cs))
    && AllSpared(digest, stack, selected, recreate, start, cs)
    && Confined(digest, stack, selected, start, cs)
    && (Honest(digest, stack, start) ==> Honest(digest, stack, cs))
  }

  ghost predicate AllJoinedIff(digest: Spec -> string, stack: string, ps: seq<ServicePlan>, recreate: bool,
                               reliable: bool, start: Table, cs: Table)
  {
    forall p | p in ps :: JoinedIff(TargetOf(digest, stack, p), recreate, reliable, start, cs)
  }

  /** No service is touched before the selected services it depends on are up, wherever
      the deploy stops. */
  lemma DependenciesAreUp(digest: Spec -> string, stack: string, plans: seq<ServicePlan>, names: seq<string>,
                          done: nat, begun: nat, start: Table, cs: Table, dependency: ServicePlan, p: ServicePlan)
    requires DistinctNames(plans) && PlannedInOrder(plans) && begun <= done + 1
    requires Reached(digest, stack, plans, Selection(plans, names), done, begun, start, cs)
    requires dependency in Selection(plans, names) && p in Selection(plans, names) && dependency.name in p.dependsOn
    ensures Settled(TargetOf(digest, stack, dependency), cs) || Accurate(TargetOf(digest, stack, p), start, cs)
  {
    var selected := Selection(plans, names);
    ChosenInOrder(plans, Elements(names));
    ChosenIs(plans, Elements(names));
    var i :| 0 <= i < |selected| && selected[i] == dependency;
    var j :| 0 <= j < |selected| && selected[j] == p;
    assert i < j;
    if j < begun {
      assert selected[..done][i] == dependency;
    } else {
      assert p in plans && p !in selected[..begun];
    }
  }

  /** Every service runs as the file defines it. */
  ghost predicate AllRunPlan(digest: Spec -> string, stack: string, ps: seq<ServicePlan>, cs: Table) {
    forall p | p in ps :: RunsPlan(TargetOf(digest, stack, p), cs)
  }

  ghost predicate AllKeptIfSame(digest: Spec -> string, stack: string, ps: seq<ServicePlan>, recreate: bool,
                                start: Table, cs: Table)
  {
    forall p | p in ps :: KeptIfSame(TargetOf(digest, stack, p), recreate, start, cs)
  }

  lemma AllComplete(digest: Spec -> string, stack: string, ps: seq<ServicePlan>, recreate: bool, reliable: bool,
                    start: Table, cs: Table)
    requires AllCompleted(digest, stack, ps, recreate, reliable, start, cs)
    requires AllSettled(digest, stack, ps, cs) && Unique(cs)
    ensures AllJoinedIff(digest, stack, ps, recreate, reliable, start, cs) && AllRunPlan(digest, stack, ps, cs)
    ensures Injective(digest) && Honest(digest, stack, start) ==>
              AllKeptIfSame(digest, stack, ps, recreate, start, cs)
  {
    forall p | p in ps
      ensures JoinedIff(TargetOf(digest, stack, p), recreate, reliable, start, cs)
      ensures RunsPlan(TargetOf(digest, stack, p), cs)
      ensures Injective(digest) && Honest(digest, stack, start) ==>
                KeptIfSame(TargetOf(digest, stack, p), recreate, start, cs)
    {
      CompletedJoins(TargetOf(digest, stack, p), recreate, reliable, start, cs);
      CompletedRunsPlan(digest, stack, p, TargetOf(digest, stack, p), recreate, reliable, start, cs);
    }
  }

  /** Honest hashes survive a deploy, however it ends. */
  lemma ConfinedKeepsHonest(digest: Spec -> string, stack: string, selected: seq<ServicePlan>, start: Table, cs: Table)
    requires Confined(digest, stack, selected, start, cs) && Honest(digest, stack, start)
    ensures Honest(digest, stack, cs)
  {
    forall id | id in cs && InStack(stack, cs[id]) ensures HashOf(cs[id]) == ConfigHash(digest, SpecOf(cs[id])) {
      if !(id in start && cs[id] == start[id]) {
        var p :| p in selected && Mine(TargetOf(digest, stack, p), cs[id]);
        MineIsHonest(digest, stack, p, TargetOf(digest, stack, p), cs[id]);
      }
    }
  }

  lemma StandsAtBoundary(digest: Spec -> string, stack: string, c: Conversion, names: seq<string>, recreate: bool,
                         reliable: bool, r: UpResult, start: Table, cs: Table)
    requires Unique(cs) && (r.Done? || r.Stopped?)
    requires var selected := Selection(c.services, names);
             var done, begun := if r.Done? then |selected| else r.done, if r.Done? then |selected| else r.begun;
             && begun <= done + 1
             && Standing(digest, stack, c.services, selected, done, begun, recreate, reliable, start, cs)
    ensures Boundary(digest, stack, c, names, recreate, reliable, r, start, cs)
  {
    var selected := Selection(c.services, names);
    if r.Done? {
      assert selected[..|selected|] == selected;
      AllComplete(digest, stack, selected, recreate, reliable, start, cs);
    }
    if Honest(digest, stack, start) { ConfinedKeepsHonest(digest, stack, selected, start, cs); }
  }

  /** The naming rule survives a deploy, however it ends. */
  lemma ConfinedKeepsRule(digest: Spec -> string, stack: string, plans: seq<ServicePlan>, selected: seq<ServicePlan>,
                          start: Table, cs: Table)
    requires Deployable(stack, plans) && PlainPins(stack, plans) && (forall p | p in selected :: p in plans)
    requires Confined(digest, stack, selected, start, cs) && Ruled(stack, start)
    ensures Ruled(stack, cs)
  {
    forall id | id in cs && InStack(stack, cs[id]) ensures ByRule(stack, cs[id]) || OnItsOwn(stack, cs[id]) {
      if !(id in start && cs[id] == start[id]) {
        var p :| p in selected && Mine(TargetOf(digest, stack, p), cs[id]);
        MineIsRuled(digest, stack, p, TargetOf(digest, stack, p), cs[id]);
      }
    }
  }

  lemma StaysHonest(digest: Spec -> string, stack: string, cs: Table, after: Table, p: ServicePlan, t: Target)
    requires Honest(digest, stack, cs) && Fleet.At(digest, stack, p, t) && OnlyClaimed(t, cs, after)
    ensures Honest(digest, stack, after)
  {
    forall id | id in after && InStack(stack, after[id])
      ensures HashOf(after[id]) == ConfigHash(digest, SpecOf(after[id]))
    {
      if Mine(t, after[id]) { MineIsHonest(digest, stack, p, t, after[id]); }
    }
  }

  /** And so does the ownership of pinned names. */
  lemma ConfinedKeepsOwners(digest: Spec -> string, stack: string, owner: string -> string, plans: seq<ServicePlan>,
                            selected: seq<ServicePlan>, start: Table, cs: Table)
    requires Deployable(stack, plans) && Respects(stack, owner, plans) && (forall p | p in selected :: p in plans)
    requires Confined(digest, stack, selected, start, cs) && RuledBy(stack, owner, start)
    ensures RuledBy(stack, owner, cs)
  {
    ConfinedKeepsRule(digest, stack, plans, selected, start, cs);
    forall id | id in cs && InStack(stack, cs[id]) && !ByRule(stack, cs[id])
      ensures Service(cs[id]) == owner(cs[id].name)
    {
      if !(id in start && cs[id] == start[id]) {
        var p :| p in selected && Mine(TargetOf(digest, stack, p), cs[id]);
        MineIsRuledBy(digest, stack, owner, p, TargetOf(digest, stack, p), cs[id]);
      }
    }
  }

  /** Deploys a stack. `conversion` is None when the stored file does not parse or
      convert, and `refuse` tells which plans have a problem (a path outside the
      whitelist, an option the caller may not set, an invalid definition). */
  method Up(e: Engine, digest: Spec -> string, stack: string, conversion: Option<Conversion>,
            names: seq<string>, recreate: bool, refuse: ServicePlan -> bool)
    returns (r: UpResult)
    requires e.Valid()
    requires conversion.Some? ==> Deployable(stack, conversion.value.services)
    requires conversion.Some? ==> Sound(digest, stack, conversion.value.services, e.world.containers)
    modifies e
    ensures e.Valid()
    // A deploy is refused exactly when it cannot work, and then nothing changes.
    ensures r.Unrecorded? || (r.Refused? <==> !Admissible(conversion, names, refuse))
    ensures r.Refused? || r.Unrecorded? ==> e.Kept()
    // A failure before the first service leaves every container alone, and a
    // later one stops at a boundary between services.
    ensures r.NotReady? ==> e.world.containers == old(e.world.containers)
    ensures !r.Refused? && !r.Unrecorded? ==>
              && Boundary(digest, stack, conversion.value, names, recreate, e.reliable, r,
                          old(e.world.containers), e.world.containers)
              && ResourcesGrown(conversion.value, old(e.world), e.world)
    ensures OutsideKept(stack, old(e.world.containers), e.world.containers)
    ensures r.Done? ==> Provisioned(conversion.value, e.world)
    // The naming rule, which does not depend on the plan, is kept.
    ensures conversion.Some? && PlainPins(stack, conversion.value.services) && Ruled(stack, old(e.world.containers)) ==>
              Ruled(stack, e.world.containers)
    // Deploying what is deployed does nothing, whatever fails meanwhile.
    ensures conversion.Some? && !recreate && UpAlready(digest, stack, conversion.value, names, old(e.world)) ==>
              e.Kept()
    // Nothing but a failing engine keeps a deploy from succeeding.
    ensures e.reliable && Workable(digest, stack, conversion, names, refuse, old(e.world)) ==> r.Done?
  {
    // Recording the new status may fail.
    if !e.reliable { if * { return Unrecorded; } }
    var selected := Admit(conversion, names, refuse);
    if selected.None? { return Refused; }
    var err := Provision(e, conversion.value);
    if err.Some? { return NotReady; }
    var existing := e.List(LABEL_PROJECT, stack);
    if existing.None? { return NotReady; }
    r := UpServices(e, digest, stack, recreate, existing.value, selected.value, conversion.value.services);
    StandsAtBoundary(digest, stack, conversion.value, names, recreate, e.reliable, r, old(e.world.containers),
                     e.world.containers);
    if PlainPins(stack, conversion.value.services) && Ruled(stack, old(e.world.containers)) {
      ConfinedKeepsRule(digest, stack, conversion.value.services, selected.value, old(e.world.containers),
                        e.world.containers);
    }
  }

  /** A second deploy of the same plan makes no change of any kind. */
  method UpTwice(e: Engine, digest: Spec -> string, stack: string, c: Conversion, names: seq<string>,
                 recreate: bool, refuse: ServicePlan -> bool)
    returns (first: UpResult, second: UpResult, ghost between: World, ghost trail: Trail)
    requires e.Valid() && Deployable(stack, c.services) && Sound(digest, stack, c.services, e.world.containers)
    modifies e
    ensures e.Valid() && Sound(digest, stack, c.services, e.world.containers)
    ensures first.Done? ==> e.world == between && e.trail == trail
    ensures e.reliable && Workable(digest, stack, Some(c), names, refuse, old(e.world)) ==> first.Done?
  {
    first := Up(e, digest, stack, Some(c), names, recreate, refuse);
    between, trail := e.world, e.trail;
    ghost var selected := Selection(c.services, names);
    assert first.Done? ==> AllSettled(digest, stack, selected, between.containers) by {
      assert selected[..|selected|] == selected;
    }
    second := Up(e, digest, stack, Some(c), names, false, refuse);
  }

  /** A version of the file, with the services asked for and whether to recreate. */
  datatype Version = Version(file: Conversion, names: seq<string>, recreate: bool)

  /** Deploying one version of the file after another, whole or in part: over a ruled
      stack each can be deployed on whatever the one before left, finished or not. */
  method UpEach(e: Engine, digest: Spec -> string, stack: string, ghost owner: string -> string,
                versions: seq<Version>, refuse: ServicePlan -> bool)
    returns (results: seq<UpResult>)
    requires e.Valid() && RuledBy(stack, owner, e.world.containers)
    requires Injective(digest) && Honest(digest, stack, e.world.containers)
    requires forall v | v in versions :: Deployable(stack, v.file.services) && Respects(stack, owner, v.file.services)
    modifies e
    ensures e.Valid() && RuledBy(stack, owner, e.world.containers) && |results| == |versions|
    ensures OutsideKept(stack, old(e.world.containers), e.world.containers) && Honest(digest, stack, e.world.containers)
    ensures versions != [] && results[|versions| - 1].Done? ==>
              var last := versions[|versions| - 1];
              var selected := Selection(last.file.services, last.names);
              AllSettled(digest, stack, selected, e.world.containers) &&
              AllRunPlan(digest, stack, selected, e.world.containers)
  {
    results := [];
    for i := 0 to |versions|
      invariant e.Valid() && RuledBy(stack, owner, e.world.containers) && |results| == i
      invariant Honest(digest, stack, e.world.containers)
      invariant OutsideKept(stack, old(e.world.containers), e.world.containers)
      invariant i > 0 && results[i - 1].Done? ==>
          var last := Selection(versions[i - 1].file.services, versions[i - 1].names);
          AllSettled(digest, stack, last, e.world.containers) && AllRunPlan(digest, stack, last, e.world.containers)
    {
      var v := versions[i];
      ghost var plans, start, selected := v.file.services, e.world.containers, Selection(v.file.services, v.names);
      RuledIsSound(digest, stack, owner, plans, start);
      var r := Up(e, digest, stack, Some(v.file), v.names, v.recreate, refuse);
      if !r.Refused? && !r.Unrecorded? {
        ChosenIs(plans, Elements(v.names));
        ConfinedKeepsOwners(digest, stack, owner, plans, selected, start, e.world.containers);
      }
      assert selected[..|selected|] == selected;
      results := results + [r];
    }
  }

  /** The members a deploy leaves aside are the ones it found aside. */
  lemma StraysStay(digest: Spec -> string, stack: string, plans: seq<ServicePlan>, selected: seq<ServicePlan>,
                   start: Table, cs: Table, p: ServicePlan)
    requires Deployable(stack, plans) && Sound(digest, stack, plans, start) && p in selected
    requires forall q | q in selected :: q in plans
    requires Confined(digest, stack, selected, start, cs)
    requires Settled(TargetOf(digest, stack, p), cs)
    ensures Strays(TargetOf(digest, stack, p), cs) == Strays(TargetOf(digest, stack, p), start)
  {
    var t := TargetOf(digest, stack, p);
    forall id | id in Strays(t, start) ensures id in Strays(t, cs) {
      forall q | q in selected ensures !Claimed(TargetOf(digest, stack, q), start[id]) {
        if q.name == p.name {
          SameName(stack, plans, p, q);
        } else if Claimed(TargetOf(digest, stack, q), start[id]) {
          ClaimedElsewhere(digest, stack, plans, start, id, q, TargetOf(digest, stack, q), p);
        }
      }
      assert !ClaimedByAny(digest, stack, selected, start[id]);
    }
    forall id | id in Strays(t, cs) ensures id in Strays(t, start) {
      forall q | q in selected ensures !Mine(TargetOf(digest, stack, q), cs[id]) {
        if q.name == p.name { SameName(stack, plans, p, q); }
      }
    }
  }

  /** Well-named containers are used or removed, never set aside. */
  lemma WellNamedHasNoStrays(digest: Spec -> string, stack: string, plans: seq<ServicePlan>, cs: Table, p: ServicePlan)
    requires WellNamed(digest, stack, plans, cs) && p in plans
    ensures Strays(TargetOf(digest, stack, p), cs) == {}
  {
  }

  /** After a complete deploy the panel reports a selected service clean exactly
      when no stray was there to begin with; a well-named stack has none. */
  lemma DeployedIsClean(digest: Spec -> string, stack: string, plans: seq<ServicePlan>, selected: seq<ServicePlan>,
                        start: Table, cs: Table, p: ServicePlan, l: seq<Listed>, s: ServiceStatus)
    requires Deployable(stack, plans) && Sound(digest, stack, plans, start) && p in selected
    requires forall q | q in selected :: q in plans
    requires Reached(digest, stack, plans, selected, |selected|, |selected|, start, cs)
    requires Confined(digest, stack, selected, start, cs)
    requires Unique(cs) && IsListing(l, cs, LABEL_PROJECT, stack) && Reports(s, TargetOf(digest, stack, p), l)
    ensures s.Healthy() <==> Strays(TargetOf(digest, stack, p), start) == {}
    ensures WellNamed(digest, stack, plans, start) ==> s.Healthy()
  {
    assert selected[..|selected|] == selected;
    StraysStay(digest, stack, plans, selected, start, cs, p);
    CleanIffNoStrays(TargetOf(digest, stack, p), cs, l, s);
    if WellNamed(digest, stack, plans, start) { WellNamedHasNoStrays(digest, stack, plans, start, p); }
  }

  /** A service's report is clean exactly when no stray was there at the start; a
      well-named stack has none. */
  ghost predicate CleanUnlessStrays(digest: Spec -> string, stack: string, plans: seq<ServicePlan>, p: ServicePlan,
                                    start: Table, s: ServiceStatus)
  {
    && (s.Healthy() <==> Strays(TargetOf(digest, stack, p), start) == {})
    && (WellNamed(digest, stack, plans, start) ==> s.Healthy())
  }

  /** Deploying and asking for the status: every selected service is reported
      clean, unless a stray was there before the deploy. */
  method UpThenReport(e: Engine, digest: Spec -> string, stack: string, c: Conversion, names: seq<string>,
                      recreate: bool, refuse: ServicePlan -> bool)
    returns (r: UpResult, report: Option<seq<ServiceStatus>>)
    requires e.Valid() && Deployable(stack, c.services) && Sound(digest, stack, c.services, e.world.containers)
    modifies e
    ensures e.Valid() && (report.Some? ==> |report.value| == |c.services| && InNameOrder(report.value))
    ensures report.Some? ==> forall p | p in c.services :: HasReport(report.value, p.name)
    ensures r.Done? && report.Some? ==>
              forall p, s | p in Selection(c.services, names) && s in report.value && s.name == p.name ::
                CleanUnlessStrays(digest, stack, c.services, p, old(e.world.containers), s)
    ensures e.reliable && Workable(digest, stack, Some(c), names, refuse, old(e.world)) ==> r.Done? && report.Some?
  {
    ghost var start := e.world.containers;
    r := Up(e, digest, stack, Some(c), names, recreate, refuse);
    var l := e.List(LABEL_PROJECT, stack);
    if l.None? { return r, None; }
    var out := StatusFor(digest, stack, c.services, l.value);
    report := Some(out);
    if r.Done? {
      ghost var selected := Selection(c.services, names);
      ChosenIs(c.services, Elements(names));
      forall p, s | p in selected && s in out && s.name == p.name
        ensures CleanUnlessStrays(digest, stack, c.services, p, start, s)
      {
        ReportIsOf(s, digest, stack, c.services, l.value, p);
        DeployedIsClean(digest, stack, c.services, selected, start, e.world.containers, p, l.value, s);
      }
    }
  }

  /** Naming a service that already runs leaves its first container a stray: it
      answers to the old name, and no deploy will ever use or remove it. */
  lemma PinningLeavesStray(digest: Spec -> string, stack: string, p: ServicePlan, pinned: string, id: Id)
    requires Labelled(stack, p) && !Pinned(p) && 1 <= p.replicas <= MAX_INT
    requires pinned != "" && pinned != ContainerName(stack, p.name, 1)
    ensures var was := TargetOf(digest, stack, p);
            var c := Made(ReplicaSpec(was, was.Name(1), 1), []);
            Strays(TargetOf(digest, stack, p.(spec := p.spec.(name := pinned))), map[id := c]) == {id}
  {
    var was, now := TargetOf(digest, stack, p), TargetOf(digest, stack, p.(spec := p.spec.(name := pinned)));
    var c := Made(ReplicaSpec(was, was.Name(1), 1), []);
    StampedIsMine(was, 1, c);
    AtoiItoa(1);
    var cs: Table := map[id := c];
    assert Number(c) == Some(1) by {
      assert |LABEL_REPLICA| != |LABEL_HASH| && |LABEL_REPLICA| != |LABEL_NUMBER|;
    }
    assert id in Members(now, cs);
  }

  ghost predicate ScaleClear(digest: Spec -> string, stack: string, p: ServicePlan, replicas: int, cs: Table) {
    Clear(TargetOf(digest, stack, p).(plan := p.(replicas := replicas)), cs)
  }

  /** Scales one service without editing the file. */
  method Scale(e: Engine, digest: Spec -> string, stack: string, conversion: Option<Conversion>,
               service: string, replicas: int, recreate: bool, refuse: ServicePlan -> bool)
    returns (r: UpResult, ghost p: ServicePlan)
    requires e.Valid() && replicas <= MAX_INT
    requires conversion.Some? ==> Deployable(stack, conversion.value.services)
    requires conversion.Some? ==> Sound(digest, stack, conversion.value.services, e.world.containers)
    modifies e
    ensures e.Valid() && (r.Refused? || r.NotReady? ==> e.Kept())
    ensures OutsideKept(stack, old(e.world.containers), e.world.containers)
    ensures e.reliable && !r.Refused? && ScaleClear(digest, stack, p, replicas, old(e.world.containers)) ==> r.Done?
    ensures replicas < 0 || conversion.None? ==> r.Refused?
    ensures conversion.Some? && !Offers(conversion.value.services, service) ==> r.Refused?
    ensures !r.Refused? && !r.NotReady? ==>
              var t := TargetOf(digest, stack, p).(plan := p.(replicas := replicas));
              && p in conversion.value.services && p.name == service
              && !refuse(p)
              && (r.Done? ==>
                    && Settled(t, e.world.containers)
                    && Completed(t, recreate, e.reliable, old(e.world.containers), e.world.containers)
                    && JoinedIff(t, recreate, e.reliable, old(e.world.containers), e.world.containers)
                    && RunsPlan(t, e.world.containers)
                    && (Injective(digest) && Honest(digest, stack, old(e.world.containers)) ==>
                          KeptIfSame(t, recreate, old(e.world.containers), e.world.containers)))
              && (Honest(digest, stack, old(e.world.containers)) ==> Honest(digest, stack, e.world.containers))
              && Spared(t, recreate, old(e.world.containers), e.world.containers)
              && OnlyClaimed(t, old(e.world.containers), e.world.containers)
              && (forall q | q in conversion.value.services && q != p ::
                    Accurate(TargetOf(digest, stack, q), old(e.world.containers), e.world.containers))
              && (!Pinned(p) || replicas <= 1 ==>
                    && Sound(digest, stack, conversion.value.services, e.world.containers)
                    && (PlainPins(stack, conversion.value.services) && Ruled(stack, old(e.world.containers)) ==>
                          Ruled(stack, e.world.containers)))
  {
    p := ServicePlan("", 0, Spec("", "", map[], ""), [], {});
    if replicas < 0 || conversion.None? { return Refused, p; }
    var plans := conversion.value.services;
    var target: Option<ServicePlan> := None;
    for k := 0 to |plans|
      invariant target.Some? <==> Offers(plans[..k], service)
      invariant target.Some? ==> target.value in plans && target.value.name == service
    {
      assert plans[..k + 1] == plans[..k] + [plans[k]];
      if plans[k].name == service { target := Some(plans[k]); }
    }
    assert plans[..|plans|] == plans;
    if target.None? { return Refused, p; }
    p := target.value;
    if refuse(target.value) { return Refused, p; }
    var existing := e.List(LABEL_PROJECT, stack);
    if existing.None? { return NotReady, p; }
    var t := TargetOf(digest, stack, target.value).(plan := target.value.(replicas := replicas));
    ghost var start := e.world.containers;
    SoundIsTrusted(digest, stack, plans, start, p, t);
    var err := UpService(e, t, recreate, existing.value, start);
    forall q | q in plans && q != p ensures Accurate(TargetOf(digest, stack, q), start, e.world.containers) {
      if q.name == p.name { SameName(stack, plans, p, q); }
      OthersUnmoved(digest, stack, plans, start, e.world.containers, p, t, q);
    }
    if !Pinned(p) || replicas <= 1 {
      StaysSound(digest, stack, plans, start, e.world.containers, p, t);
      if PlainPins(stack, plans) && Ruled(stack, start) {
        StaysRuled(digest, stack, start, e.world.containers, p, t);
      }
    }
    if err.None? {
      CompletedJoins(t, recreate, e.reliable, start, e.world.containers);
      CompletedRunsPlan(digest, stack, p, t, recreate, e.reliable, start, e.world.containers);
    }
    if Honest(digest, stack, start) { StaysHonest(digest, stack, start, e.world.containers, p, t); }
    r := if err.None? then Done else Stopped(0, 1);
  }

  /** What the panel reports after a scale. It reports by the file, which a scale does
      not change: a service without a pinned name is clean exactly at the scale the
      file asks for, and a pinned one at every scale but zero, since it runs once. */
  lemma ScaledReport(digest: Spec -> string, stack: string, p: ServicePlan, replicas: int, cs: Table, l: seq<Listed>,
                     s: ServiceStatus)
    requires p.replicas >= 1 && (Pinned(p) ==> p.replicas == 1)
    requires var t := TargetOf(digest, stack, p).(plan := p.(replicas := replicas));
             t.Ok() && Settled(t, cs) && Strays(t, cs) == {}
    requires Unique(cs) && IsListing(l, cs, LABEL_PROJECT, stack) && Reports(s, TargetOf(digest, stack, p), l)
    ensures |s.containers| == if Pinned(p) && replicas >= 1 then 1 else replicas
    ensures s.Healthy() <==> if Pinned(p) then replicas >= 1 else replicas == p.replicas
  {
    var t := TargetOf(digest, stack, p).(plan := p.(replicas := replicas));
    SettledCounts(t, cs, l);
    MembersServe(t, cs, l);
    AllRunning(s.containers);
  }

  /** A scale of a well-named stack leaves no stray, however it ends. */
  lemma ScaledHasNoStrays(digest: Spec -> string, stack: string, plans: seq<ServicePlan>, p: ServicePlan, t: Target,
                          start: Table, cs: Table)
    requires WellNamed(digest, stack, plans, start) && p in plans && Fleet.At(digest, stack, p, t)
    requires OnlyClaimed(t, start, cs)
    ensures Strays(t, cs) == {}
  {
    forall id | id in Members(t, cs) ensures id !in Strays(t, cs) {
      if id in start && cs[id] == start[id] {
        assert Rightful(TargetOf(digest, stack, p), cs[id]);
        var i: nat :| i >= 1 && cs[id].name == TargetOf(digest, stack, p).Name(i) && Number(cs[id]) == Some(i);
        assert cs[id].name == t.Name(i);
      } else {
        assert Mine(t, cs[id]);
      }
    }
  }

  /** Scaling and asking for the status, from a well-named stack. */
  method ScaleThenReport(e: Engine, digest: Spec -> string, stack: string, c: Conversion, service: string,
                         replicas: int, recreate: bool, refuse: ServicePlan -> bool)
    returns (r: UpResult, report: Option<seq<ServiceStatus>>, ghost p: ServicePlan)
    requires e.Valid() && replicas <= MAX_INT && Deployable(stack, c.services)
    requires Sound(digest, stack, c.services, e.world.containers)
    requires WellNamed(digest, stack, c.services, e.world.containers)
    modifies e
    ensures e.Valid() && (r.Done? ==> p in c.services && p.name == service)
    ensures report.Some? ==> |report.value| == |c.services|
    ensures report.Some? ==> forall q | q in c.services :: HasReport(report.value, q.name)
    ensures r.Done? && report.Some? ==>
              forall s | s in report.value && s.name == service ::
                && s.replicas == p.replicas
                && |s.containers| == (if Pinned(p) && replicas >= 1 then 1 else replicas)
                && (s.Healthy() <==> if Pinned(p) then replicas >= 1 else replicas == p.replicas)
  {
    ghost var start := e.world.containers;
    r, p := Scale(e, digest, stack, Some(c), service, replicas, recreate, refuse);
    var l := e.List(LABEL_PROJECT, stack);
    if l.None? { return r, None, p; }
    var out := StatusFor(digest, stack, c.services, l.value);
    report := Some(out);
    if r.Done? {
      ghost var t := TargetOf(digest, stack, p).(plan := p.(replicas := replicas));
      ScaledHasNoStrays(digest, stack, c.services, p, t, start, e.world.containers);
      forall s | s in out && s.name == service
        ensures s.replicas == p.replicas && |s.containers| == (if Pinned(p) && replicas >= 1 then 1 else replicas)
        ensures s.Healthy() <==> if Pinned(p) then replicas >= 1 else replicas == p.replicas
      {
        ReportIsOf(s, digest, stack, c.services, l.value, p);
        ScaledReport(digest, stack, p, replicas, e.world.containers, l.value, s);
      }
    }
  }
}

/** What the panel reports about a service (statusFor in
    internal/service/stack.go), and when a deploy makes that report clean. */
module Status {
  import opened Text
  import opened Engine
  import opened Compose
  import opened Stack
  import opened Fleet
  import opened Sorting

  datatype ServiceStatus =
    ServiceStatus(name: string, replicas: int, running: nat, containers: seq<Container>, drifted: bool)
  {
    predicate Healthy() {
      !drifted && running == replicas
    }
  }

  function OfService(l: seq<Listed>, name: string): seq<Container> {
    if l == [] then []
    else
      var n := |l| - 1;
      OfService(l[..n], name) + if Service(l[n].container) == name then [l[n].container] else []
  }

  function CountRunning(s: seq<Container>): nat {
    if s == [] then 0
    else CountRunning(s[..|s| - 1]) + if s[|s| - 1].phase == Running then 1 else 0
  }

  /** What is reported for one service. */
  ghost predicate Reports(s: ServiceStatus, t: Target, l: seq<Listed>) {
    && s.name == t.plan.name && s.replicas == t.plan.replicas
    && s.containers == OfService(l, t.plan.name)
    && s.running == CountRunning(s.containers)
    && (s.drifted <==> |s.containers| != t.plan.replicas || SomeDiffer(s.containers, t.hash))
  }

  lemma OfServiceNext(l: seq<Listed>, k: nat, name: string)
    requires k < |l|
    ensures OfService(l[..k + 1], name)
         == OfService(l[..k], name) + if Service(l[k].container) == name then [l[k].container] else []
  {
    assert l[..k + 1][..k] == l[..k];
  }

  function Group(groups: map<string, seq<Container>>, name: string): seq<Container> {
    if name in groups then groups[name] else []
  }

  /** Grouping one more container, as one service sees it. */
  lemma GroupNext(groups: map<string, seq<Container>>, l: seq<Listed>, k: nat, name: string)
    requires k < |l| && Group(groups, name) == OfService(l[..k], name)
    ensures var service := Service(l[k].container);
            Group(groups[service := Group(groups, service) + [l[k].container]], name) == OfService(l[..k + 1], name)
  {
    OfServiceNext(l, k, name);
  }

  /** Every service's containers are grouped. */
  ghost predicate Grouped(groups: map<string, seq<Container>>, l: seq<Listed>) {
    forall name :: Group(groups, name) == OfService(l, name)
  }

  method GroupByService(l: seq<Listed>) returns (groups: map<string, seq<Container>>)
    ensures Grouped(groups, l)
  {
    groups := map[];
    for k := 0 to |l|
      invariant Grouped(groups, l[..k])
    {
      ghost var before := groups;
      var service := Service(l[k].container);
      groups := groups[service := Group(groups, service) + [l[k].container]];
      forall name ensures Group(groups, name) == OfService(l[..k + 1], name) {
        assert Group(before, name) == OfService(l[..k], name);
        GroupNext(before, l, k, name);
      }
    }
    assert l[..|l|] == l;
  }

  predicate SomeDiffer(s: seq<Container>, hash: string) {
    exists c | c in s :: HashOf(c) != hash
  }

  method StatusOf(t: Target, containers: seq<Container>) returns (s: ServiceStatus)
    ensures s == ServiceStatus(t.plan.name, t.plan.replicas, CountRunning(containers), containers,
                               SomeDiffer(containers, t.hash) || |containers| != t.plan.replicas)
  {
    var running, drifted := 0, false;
    for k := 0 to |containers|
      invariant running == CountRunning(containers[..k])
      invariant drifted == SomeDiffer(containers[..k], t.hash)
    {
      assert containers[..k + 1] == containers[..k] + [containers[k]];
      if containers[k].phase == Running { running := running + 1; }
      if HashOf(containers[k]) != t.hash { drifted := true; }
    }
    assert containers[..|containers|] == containers;
    if |containers| != t.plan.replicas { drifted := true; }
    s := ServiceStatus(t.plan.name, t.plan.replicas, running, containers, drifted);
  }

  function NameOrder(): (ServiceStatus, ServiceStatus) -> bool {
    (a: ServiceStatus, b: ServiceStatus) => Less(a.name, b.name)
  }

  predicate InNameOrder(out: seq<ServiceStatus>) {
    forall i, j | 0 <= i < j < |out| :: !Less(out[j].name, out[i].name)
  }

  lemma NameOrderIsWeak()
    ensures StrictWeak(NameOrder())
  {
    forall a: ServiceStatus, b: ServiceStatus ensures NameOrder()(a, b) ==> !NameOrder()(b, a) {
      LessWeak(a.name, b.name, a.name);
    }
    forall a: ServiceStatus, b: ServiceStatus, c: ServiceStatus
      ensures NameOrder()(a, c) ==> NameOrder()(a, b) || NameOrder()(b, c)
    {
      LessWeak(a.name, b.name, c.name);
    }
  }

  /** The reports of a stack: as many as services, every service has one, and each
      tells about the service it names. */
  ghost predicate ReportsAll(out: seq<ServiceStatus>, digest: Spec -> string, stack: string, plans: seq<ServicePlan>,
                             l: seq<Listed>)
  {
    && |out| == |plans|
    && (forall p | p in plans :: HasReport(out, p.name))
    && (forall s | s in out :: ReportsSome(s, digest, stack, plans, l))
  }

  predicate HasReport(out: seq<ServiceStatus>, name: string) {
    exists s | s in out :: s.name == name
  }

  ghost predicate ReportsSome(s: ServiceStatus, digest: Spec -> string, stack: string, plans: seq<ServicePlan>,
                              l: seq<Listed>)
  {
    exists p | p in plans :: Reports(s, TargetOf(digest, stack, p), l)
  }

  lemma ReportIsOf(s: ServiceStatus, digest: Spec -> string, stack: string, plans: seq<ServicePlan>, l: seq<Listed>,
                   p: ServicePlan)
    requires ReportsSome(s, digest, stack, plans, l) && DistinctNames(plans)
    requires p in plans && s.name == p.name
    ensures Reports(s, TargetOf(digest, stack, p), l)
  {
    var q :| q in plans && Reports(s, TargetOf(digest, stack, q), l);
    var i :| 0 <= i < |plans| && plans[i] == p;
    var j :| 0 <= j < |plans| && plans[j] == q;
    assert i == j;
  }

  /** The reports in plan order, then sorted by service name. */
  method StatusFor(digest: Spec -> string, stack: string, plans: seq<ServicePlan>, l: seq<Listed>)
    returns (out: seq<ServiceStatus>)
    ensures ReportsAll(out, digest, stack, plans, l) && InNameOrder(out)
  {
    var groups := GroupByService(l);
    var reports: seq<ServiceStatus> := [];
    for i := 0 to |plans|
      invariant |reports| == i
      invariant forall j | 0 <= j < i :: Reports(reports[j], TargetOf(digest, stack, plans[j]), l)
    {
      var s := StatusOf(TargetOf(digest, stack, plans[i]), Group(groups, plans[i].name));
      reports := reports + [s];
    }
    out := SortBy(NameOrder(), reports);
    NameOrderIsWeak();
    SortSorts(NameOrder(), reports);
    SameElements(out, reports);
    forall p | p in plans ensures HasReport(out, p.name) {
      var i :| 0 <= i < |plans| && plans[i] == p;
      assert reports[i] in out;
    }
    forall s | s in out ensures ReportsSome(s, digest, stack, plans, l) {
      assert s in reports;
      var i :| 0 <= i < |reports| && reports[i] == s;
      assert plans[i] in plans;
    }
  }

  /** The stack's containers labelled with the service. */
  ghost function Members(t: Target, cs: Table): set<Id> {
    set id | id in cs && InStack(t.stack, cs[id]) && Service(cs[id]) == t.plan.name
  }

  /** Members a deploy neither uses nor removes: their name is not a replica name
      and their number is no larger than asked for, or no number at all. */
  ghost function Strays(t: Target, cs: Table): set<Id> {
    set id | id in Members(t, cs) && !Named(t, cs[id].name) && !Surplus(t.plan, cs[id])
  }

  function IdsOf(l: seq<Listed>, name: string): set<Id> {
    set x | x in l && Service(x.container) == name :: x.id
  }

  lemma IdsOfNext(l: seq<Listed>, name: string)
    requires l != []
    ensures var n := |l| - 1;
            IdsOf(l, name) == IdsOf(l[..n], name) + if Service(l[n].container) == name then {l[n].id} else {}
  {
    assert l == l[..|l| - 1] + [l[|l| - 1]];
  }

  lemma {:induction false} OfServiceCounts(l: seq<Listed>, name: string)
    requires forall i, j | 0 <= i < j < |l| :: l[i].id != l[j].id
    ensures |OfService(l, name)| == |IdsOf(l, name)|
    decreases |l|
  {
    if l != [] {
      var n := |l| - 1;
      OfServiceCounts(l[..n], name);
      IdsOfNext(l, name);
      assert l[n].id !in IdsOf(l[..n], name);
    }
  }

  predicate RunsFor(x: Listed, name: string) {
    Service(x.container) == name && x.container.phase == Running
  }

  /** The listed containers of a service that are running. */
  function RunningOf(l: seq<Listed>, name: string): set<Id> {
    set x | x in l && RunsFor(x, name) :: x.id
  }

  lemma RunningOfNext(l: seq<Listed>, name: string)
    requires l != []
    ensures var n := |l| - 1;
            RunningOf(l, name) == RunningOf(l[..n], name) + if RunsFor(l[n], name) then {l[n].id} else {}
  {
    assert l == l[..|l| - 1] + [l[|l| - 1]];
  }

  lemma CountNext(l: seq<Listed>, name: string)
    requires l != []
    ensures var n := |l| - 1;
            CountRunning(OfService(l, name)) ==
              CountRunning(OfService(l[..n], name)) + if RunsFor(l[n], name) then 1 else 0
  {
    var n := |l| - 1;
    var before := OfService(l[..n], name);
    var own := if Service(l[n].container) == name then [l[n].container] else [];
    assert (before + own)[..|before|] == before && OfService(l, name) == before + own;
    assert own == [] ==> before + own == before;
  }

  lemma {:induction false} RunningCounts(l: seq<Listed>, name: string)
    requires forall i, j | 0 <= i < j < |l| :: l[i].id != l[j].id
    ensures CountRunning(OfService(l, name)) == |RunningOf(l, name)|
    decreases |l|
  {
    if l != [] {
      var n := |l| - 1;
      RunningCounts(l[..n], name);
      RunningOfNext(l, name);
      CountNext(l, name);
      assert l[n].id !in RunningOf(l[..n], name);
    }
  }

  lemma {:induction false} OfServiceHas(l: seq<Listed>, name: string, x: Listed)
    requires x in l && Service(x.container) == name
    ensures x.container in OfService(l, name)
    decreases |l|
  {
    var n := |l| - 1;
    assert l == l[..n] + [l[n]];
    if x in l[..n] { OfServiceHas(l[..n], name, x); }
  }

  lemma {:induction false} OfServiceFrom(l: seq<Listed>, name: string, c: Container)
    requires c in OfService(l, name)
    ensures exists x | x in l :: x.container == c && Service(c) == name
    decreases |l|
  {
    var n := |l| - 1;
    if c in OfService(l[..n], name) {
      OfServiceFrom(l[..n], name, c);
    } else {
      assert l[n] in l;
    }
  }

  lemma ListedMembers(t: Target, cs: Table, l: seq<Listed>)
    requires IsListing(l, cs, LABEL_PROJECT, t.stack)
    ensures IdsOf(l, t.plan.name) == Members(t, cs)
  {
  }

  lemma AllOrFewer(some: set<Id>, all: set<Id>)
    requires some <= all
    ensures |some| <= |all| && (|some| == |all| <==> some == all)
  {
    assert all == some + (all - some);
  }

  ghost function RunningMembers(t: Target, cs: Table): set<Id> {
    set id | id in Members(t, cs) && cs[id].phase == Running
  }

  lemma CountsMean(t: Target, cs: Table, l: seq<Listed>, s: ServiceStatus)
    requires IsListing(l, cs, LABEL_PROJECT, t.stack) && Reports(s, t, l)
    ensures |s.containers| == |Members(t, cs)| && s.running == |RunningMembers(t, cs)|
    ensures s.running == |s.containers| <==> forall id | id in Members(t, cs) :: cs[id].phase == Running
  {
    ListedMembers(t, cs, l);
    OfServiceCounts(l, t.plan.name);
    RunningCounts(l, t.plan.name);
    assert RunningOf(l, t.plan.name) == RunningMembers(t, cs);
    AllOrFewer(RunningMembers(t, cs), Members(t, cs));
  }

  /** Every member was made from the plan's definition. */
  ghost predicate AllAsPlanned(t: Target, cs: Table) {
    forall id | id in Members(t, cs) :: SameDefinition(SpecOf(cs[id]), t.plan.spec)
  }

  lemma DriftMeans(digest: Spec -> string, stack: string, p: ServicePlan, cs: Table, l: seq<Listed>)
    requires Injective(digest) && Honest(digest, stack, cs) && IsListing(l, cs, LABEL_PROJECT, stack)
    ensures SomeDiffer(OfService(l, p.name), ConfigHash(digest, p.spec)) <==>
              !AllAsPlanned(TargetOf(digest, stack, p), cs)
  {
    var t := TargetOf(digest, stack, p);
    if SomeDiffer(OfService(l, p.name), t.hash) {
      var c :| c in OfService(l, p.name) && HashOf(c) != t.hash;
      OfServiceFrom(l, p.name, c);
      var x :| x in l && x.container == c && Service(c) == p.name;
      HonestIff(digest, stack, cs, x.id, p.spec);
      assert x.id in Members(t, cs);
    }
    forall id | id in Members(t, cs) && !SameDefinition(SpecOf(cs[id]), p.spec)
      ensures SomeDiffer(OfService(l, p.name), t.hash)
    {
      HonestIff(digest, stack, cs, id, p.spec);
      OfServiceHas(l, p.name, Listed(id, cs[id]));
    }
  }

  /** What a report means, over honest hashes: so many containers carry the service's
      labels, so many of them run, and the service has drifted exactly when there are
      not as many as asked for or one was made from another definition. */
  lemma ReportMeans(digest: Spec -> string, stack: string, p: ServicePlan, cs: Table, l: seq<Listed>, s: ServiceStatus)
    requires Injective(digest) && Honest(digest, stack, cs)
    requires IsListing(l, cs, LABEL_PROJECT, stack) && Reports(s, TargetOf(digest, stack, p), l)
    ensures var t := TargetOf(digest, stack, p);
            var members := Members(t, cs);
            && |s.containers| == |members| && s.running == |RunningMembers(t, cs)|
            && (s.drifted <==> |members| != p.replicas || !AllAsPlanned(t, cs))
            && (s.Healthy() <==>
                  && |members| == p.replicas && AllAsPlanned(t, cs)
                  && forall id | id in members :: cs[id].phase == Running)
  {
    CountsMean(TargetOf(digest, stack, p), cs, l, s);
    DriftMeans(digest, stack, p, cs, l);
  }

  lemma {:induction false} AllRunning(s: seq<Container>)
    requires forall c | c in s :: c.phase == Running
    ensures CountRunning(s) == |s|
  {
    if s != [] {
      assert s[|s| - 1] in s;
      AllRunning(s[..|s| - 1]);
    }
  }

  ghost predicate Held(t: Target, cs: Table, ids: set<Id>, i: nat) {
    exists id | id in ids :: id in cs && cs[id].name == t.Name(i)
  }

  ghost predicate Holder(t: Target, cs: Table, id: Id, n: int) {
    id in cs && exists i: nat | 1 <= i <= n :: cs[id].name == t.Name(i)
  }

  /** The ids that hold the first n replica names number n. */
  lemma {:induction false} HoldersCount(t: Target, cs: Table, ids: set<Id>, n: nat)
    requires Unique(cs) && (Pinned(t.plan) ==> n <= 1)
    requires forall id | id in ids :: Holder(t, cs, id, n)
    requires forall i: nat | 1 <= i <= n :: Held(t, cs, ids, i)
    ensures |ids| == n
  {
    if n == 0 {
      assert ids == {};
    } else {
      assert Held(t, cs, ids, n);
      var last :| last in ids && last in cs && cs[last].name == t.Name(n);
      var rest := ids - {last};
      forall id | id in rest ensures Holder(t, cs, id, n - 1) {
        HoldsLess(t, cs, id, last, n);
      }
      forall i: nat | 1 <= i <= n - 1 ensures Held(t, cs, rest, i) {
        StillHeld(t, cs, ids, last, i, n);
      }
      HoldersCount(t, cs, rest, n - 1);
    }
  }

  lemma HoldsLess(t: Target, cs: Table, id: Id, last: Id, n: nat)
    requires Unique(cs) && Holder(t, cs, id, n) && last in cs && cs[last].name == t.Name(n) && id != last && n > 0
    ensures Holder(t, cs, id, n - 1)
  {
  }

  lemma StillHeld(t: Target, cs: Table, ids: set<Id>, last: Id, i: nat, n: nat)
    requires Held(t, cs, ids, i) && last in cs && cs[last].name == t.Name(n)
    requires 1 <= i < n && (Pinned(t.plan) ==> n <= 1)
    ensures Held(t, cs, ids - {last}, i)
  {
    var id :| id in ids && id in cs && cs[id].name == t.Name(i);
    if id == last { ContainerNameInjective(t.stack, t.plan.name, i, t.plan.name, n); }
  }

  /** A settled member that is no stray serves some replica. */
  lemma HolderServes(t: Target, cs: Table, id: Id)
    requires Settled(t, cs) && Unique(cs) && id in cs && Named(t, cs[id].name)
    ensures cs[id].phase == Running && Mine(t, cs[id])
  {
    var i: nat :| 1 <= i <= t.plan.replicas && cs[id].name == t.Name(i);
    assert Served(t, cs, i);
  }

  lemma HoldersOfSettled(t: Target, cs: Table)
    requires t.Ok() && Settled(t, cs) && Unique(cs) && (Pinned(t.plan) ==> t.plan.replicas <= 1)
    ensures |Members(t, cs)| == t.plan.replicas + |Strays(t, cs)|
  {
    var strays := Strays(t, cs);
    var holders := Members(t, cs) - strays;
    forall i: nat | 1 <= i <= t.plan.replicas ensures Held(t, cs, holders, i) {
      assert Served(t, cs, i);
      var id :| id in cs && cs[id].name == t.Name(i) && cs[id].phase == Running && Mine(t, cs[id]);
      assert id in holders;
    }
    forall id | id in holders ensures Holder(t, cs, id, t.plan.replicas) {
      assert Named(t, cs[id].name);
    }
    HoldersCount(t, cs, holders, t.plan.replicas);
    assert Members(t, cs) == strays + holders;
  }

  lemma MembersServe(t: Target, cs: Table, l: seq<Listed>)
    requires Settled(t, cs) && Unique(cs) && IsListing(l, cs, LABEL_PROJECT, t.stack) && Strays(t, cs) == {}
    ensures forall c | c in OfService(l, t.plan.name) :: c.phase == Running && HashOf(c) == t.hash
  {
    forall c | c in OfService(l, t.plan.name) ensures c.phase == Running && HashOf(c) == t.hash {
      OfServiceFrom(l, t.plan.name, c);
      var x :| x in l && x.container == c && Service(c) == t.plan.name;
      assert x.id in Members(t, cs) && x.id !in Strays(t, cs);
      HolderServes(t, cs, x.id);
    }
  }

  /** The report is clean after a deploy exactly when the deploy left no stray,
      provided the service can run that many containers under their own names. */
  lemma CleanIffNoStrays(t: Target, cs: Table, l: seq<Listed>, s: ServiceStatus)
    requires t.Ok() && Settled(t, cs) && Unique(cs) && IsListing(l, cs, LABEL_PROJECT, t.stack)
    requires Reports(s, t, l) && (Pinned(t.plan) ==> t.plan.replicas <= 1)
    ensures s.Healthy() <==> Strays(t, cs) == {}
    ensures |s.containers| == t.plan.replicas + |Strays(t, cs)|
  {
    OfServiceCounts(l, t.plan.name);
    ListedMembers(t, cs, l);
    HoldersOfSettled(t, cs);
    if Strays(t, cs) == {} {
      MembersServe(t, cs, l);
      AllRunning(s.containers);
    }
  }

  /** However far a service with a pinned name is scaled up, the one container there
      can be is all there is, strays aside. */
  lemma PinnedCannotScale(t: Target, cs: Table, l: seq<Listed>)
    requires t.Ok() && Settled(t, cs) && Unique(cs) && IsListing(l, cs, LABEL_PROJECT, t.stack)
    requires Pinned(t.plan) && t.plan.replicas >= 1 && Strays(t, cs) == {}
    ensures |OfService(l, t.plan.name)| == 1
  {
    OfServiceCounts(l, t.plan.name);
    ListedMembers(t, cs, l);
    assert Served(t, cs, 1);
    var id :| id in cs && cs[id].name == t.Name(1) && cs[id].phase == Running && Mine(t, cs[id]);
    forall x | x in Members(t, cs) ensures x == id {
      assert x !in Strays(t, cs);
    }
    assert Members(t, cs) == {id};
  }

  /** How many containers a service settled at a scale has, strays aside. */
  lemma SettledCounts(t: Target, cs: Table, l: seq<Listed>)
    requires t.Ok() && Settled(t, cs) && Unique(cs) && IsListing(l, cs, LABEL_PROJECT, t.stack)
    requires Strays(t, cs) == {}
    ensures |OfService(l, t.plan.name)| == if Pinned(t.plan) && t.plan.replicas >= 1 then 1 else t.plan.replicas
  {
    if Pinned(t.plan) && t.plan.replicas >= 1 {
      PinnedCannotScale(t, cs, l);
    } else {
      OfServiceCounts(l, t.plan.name);
      ListedMembers(t, cs, l);
      HoldersOfSettled(t, cs);
    }
  }
}

/** The stack reconciler (internal/service/stackup.go): bringing the containers
    of a stack to what its plan asks for, from one listing taken beforehand. */
module Stack {
  import opened Text
  import opened Engine
  import opened Compose

  /** One service to bring up: the stack, its plan and the plan's hash. */
  datatype Target = Target(stack: string, plan: ServicePlan, hash: string) {
    function Name(replica: nat): string {
      ReplicaName(stack, plan, replica)
    }

    predicate Ok() {
      Labelled(stack, plan) && 0 <= plan.replicas <= MAX_INT
    }
  }

  predicate InStack(stack: string, c: Container) {
    Label(c, LABEL_PROJECT) == stack
  }

  function Service(c: Container): string {
    Label(c, LABEL_SERVICE)
  }

  function Number(c: Container): Option<int> {
    Atoi(Label(c, LABEL_REPLICA))
  }

  function HashOf(c: Container): string {
    Label(c, LABEL_HASH)
  }

  /** A container the service was scaled down from. */
  predicate Surplus(p: ServicePlan, c: Container) {
    Service(c) == p.name && Number(c).Some? && Number(c).value > p.replicas
  }

  /** The name of one of the replicas asked for. */
  ghost predicate Named(t: Target, name: string) {
    exists i: nat | 1 <= i <= t.plan.replicas :: name == t.Name(i)
  }

  /** The definition a container was created from. */
  function SpecOf(c: Container): Spec {
    Spec(c.name, c.image, c.labels, c.body)
  }

  /** A container as createReplica makes it for this target: from the plan's
      definition, and stamped. */
  ghost predicate Mine(t: Target, c: Container) {
    && SameDefinition(SpecOf(c), t.plan.spec)
    && InStack(t.stack, c) && Service(c) == t.plan.name && HashOf(c) == t.hash
    && exists i: nat | 1 <= i <= t.plan.replicas :: c.name == t.Name(i) && Number(c) == Some(i)
  }

  ghost predicate Served(t: Target, cs: Table, i: nat) {
    exists id | id in cs :: cs[id].name == t.Name(i) && cs[id].phase == Running && Mine(t, cs[id])
  }

  /** What a successful deploy of the service leaves: every replica up under the
      plan's hash, and nothing left over from a larger scale. */
  ghost predicate Settled(t: Target, cs: Table) {
    && (forall i: nat | 1 <= i <= t.plan.replicas :: Served(t, cs, i))
    && (forall id | id in cs && InStack(t.stack, cs[id]) :: !Surplus(t.plan, cs[id]))
  }

  /** What deploying the service may touch at all. */
  ghost predicate Claimed(t: Target, c: Container) {
    InStack(t.stack, c) && (Named(t, c.name) || Surplus(t.plan, c))
  }

  /** Containers that are not of the stack are as they were. */
  ghost predicate OutsideKept(stack: string, before: Table, after: Table) {
    forall id | id in before && !InStack(stack, before[id]) :: id in after && after[id] == before[id]
  }

  /** Only claimed containers changed, and what is new or changed is ours. */
  ghost predicate OnlyClaimed(t: Target, before: Table, after: Table) {
    && (forall id | id in before && !Claimed(t, before[id]) :: id in after && after[id] == before[id])
    && (forall id | id in after :: (id in before && after[id] == before[id]) || Mine(t, after[id]))
  }

  /** A container of the stack under one of our names and our hash is one we made. */
  ghost predicate Trusted(t: Target, cs: Table) {
    forall id | id in cs && InStack(t.stack, cs[id]) && Named(t, cs[id].name) && HashOf(cs[id]) == t.hash ::
      Mine(t, cs[id])
  }

  /** The name belongs to the service at some scale. */
  ghost predicate Bears(t: Target, name: string) {
    exists i: nat | i >= 1 :: name == t.Name(i)
  }

  ghost predicate Relevant(t: Target, c: Container) {
    InStack(t.stack, c) && (Service(c) == t.plan.name || Bears(t, c.name))
  }

  /** As far as this service is concerned, the table still is what the listing saw. */
  ghost predicate Accurate(t: Target, seen: Table, cs: Table) {
    && (forall id | id in seen && Relevant(t, seen[id]) :: id in cs && cs[id] == seen[id])
    && (forall id | id in cs && Relevant(t, cs[id]) :: id in seen && cs[id] == seen[id])
  }

  /** The names asked for are free or held by the stack itself, and there are as
      many names as replicas: nothing but a failing engine is in the way. */
  ghost predicate Clear(t: Target, cs: Table) {
    && (Pinned(t.plan) ==> t.plan.replicas <= 1)
    && forall id | id in cs && Named(t, cs[id].name) :: InStack(t.stack, cs[id])
  }

  function Stamp(t: Target, replica: nat): map<string, string> {
    ReplicaLabels(t.plan.spec.labels, replica, t.hash)
  }

  /** What createReplica hands to the engine. */
  function ReplicaSpec(t: Target, name: string, replica: nat): Spec {
    t.plan.spec.(name := name, labels := Stamp(t, replica))
  }

  function Elements(s: seq<string>): set<string> {
    set x | x in s
  }

  lemma StampedIsMine(t: Target, replica: nat, c: Container)
    requires t.Ok() && 1 <= replica <= t.plan.replicas
    requires SpecOf(c) == ReplicaSpec(t, t.Name(replica), replica)
    ensures Mine(t, c)
  {
    AtoiItoa(replica);
    assert LABEL_REPLICA[11] != LABEL_SERVICE[11];
    assert LABEL_REPLICA[4] != LABEL_PROJECT[4];
    assert |LABEL_SERVICE| != |LABEL_HASH| && |LABEL_SERVICE| != |LABEL_NUMBER| && |LABEL_REPLICA| != |LABEL_HASH|;
    assert |LABEL_PROJECT| != |LABEL_HASH| && |LABEL_PROJECT| != |LABEL_NUMBER| && |LABEL_REPLICA| != |LABEL_NUMBER|;
  }

  method RemoveContainer(e: Engine, id: Id) returns (err: Option<Fault>)
    requires e.Valid()
    modifies e
    ensures e.Valid() && e.nextId == old(e.nextId)
    ensures e.world == old(e.world).(containers := e.world.containers)
    ensures err.None? ==> e.world.containers == old(e.world.containers) - {id}
    ensures err.Some? ==> e.Kept() && !e.reliable
  {
    err := e.Remove(ById(id));
    if err == Some(NotFound) {
      assert e.world.containers == old(e.world.containers) - {id};
      err := None;
    }
  }

  predicate HalfMade(spec: Spec, nets: seq<string>, c: Container) {
    SpecOf(c) == spec && c.phase == Created && c.networks <= Elements(nets)
  }

  /** The container a definition makes, once it runs and is on its networks. */
  function Made(spec: Spec, nets: seq<string>): Container {
    Container(spec.name, spec.image, spec.labels, spec.body, Running, Elements(nets))
  }

  /** Creates, attaches and starts one container. A failure leaves at most the new
      container behind, labelled and not running. */
  method CreateAndStart(e: Engine, spec: Spec, nets: seq<string>) returns (err: Option<Fault>)
    requires e.Valid() && spec.name != ""
    modifies e
    ensures e.Valid() && e.nextId >= old(e.nextId)
    ensures e.world == old(e.world).(containers := e.world.containers)
    ensures e.reliable && !Taken(old(e.world.containers), spec.name) ==> err.None?
    ensures err.Some? ==>
              || e.Kept()
              || (&& old(e.nextId) in e.world.containers
                  && HalfMade(spec, nets, e.world.containers[old(e.nextId)])
                  && e.world.containers ==
                       old(e.world.containers)[old(e.nextId) := e.world.containers[old(e.nextId)]])
    ensures err.None? ==> e.world.containers == old(e.world.containers)[old(e.nextId) := Made(spec, nets)]
  {
    var id;
    var first := Elements(nets[..if nets == [] then 0 else 1]);
    id, err := e.Create(spec.name, spec.image, spec.labels, spec.body, first);
    if err.Some? { return; }
    err := Attach(e, id, nets);
    if err.Some? { return; }
    err := e.Start(ById(id));
  }

  /** One replica of a service, stamped with its number and the plan's hash. */
  method CreateReplica(e: Engine, t: Target, name: string, replica: nat) returns (err: Option<Fault>)
    requires e.Valid() && name != ""
    modifies e
    ensures e.Valid() && e.nextId >= old(e.nextId)
    ensures e.world == old(e.world).(containers := e.world.containers)
    ensures e.reliable && !Taken(old(e.world.containers), name) ==> err.None?
    ensures err.Some? ==>
              || e.Kept()
              || (&& old(e.nextId) in e.world.containers
                  && HalfMade(ReplicaSpec(t, name, replica), t.plan.networks, e.world.containers[old(e.nextId)])
                  && e.world.containers ==
                       old(e.world.containers)[old(e.nextId) := e.world.containers[old(e.nextId)]])
    ensures err.None? ==>
              e.world.containers == old(e.world.containers)[old(e.nextId) :=
                Made(ReplicaSpec(t, name, replica), t.plan.networks)]
  {
    // Preparing the definition may fail.
    if !e.reliable { if * { return Some(Other); } }
    err := CreateAndStart(e, ReplicaSpec(t, name, replica), t.plan.networks);
  }

  /** A container is created on its first network and joins the rest one by one. */
  method Attach(e: Engine, id: Id, nets: seq<string>) returns (err: Option<Fault>)
    requires e.Valid() && id in e.world.containers
    requires e.world.containers[id].networks == Elements(nets[..if nets == [] then 0 else 1])
    modifies e
    ensures e.Valid() && e.nextId == old(e.nextId) && id in e.world.containers
    ensures e.world.containers[id].networks <= Elements(nets)
    ensures e.world == old(e.world).(containers := old(e.world.containers)[id :=
              old(e.world.containers)[id].(networks := e.world.containers[id].networks)])
    ensures err.None? ==> e.world.containers[id].networks == Elements(nets)
    ensures e.reliable ==> err.None?
  {
    err := None;
    var k := if nets == [] then 0 else 1;
    while k < |nets|
      invariant k <= |nets| && e.Valid() && e.nextId == old(e.nextId) && err.None?
      invariant e.world == old(e.world).(containers := old(e.world.containers)[id :=
                  old(e.world.containers)[id].(networks := Elements(nets[..k]))])
    {
      err := e.Connect(nets[k], id);
      if err.Some? { return; }
      assert Elements(nets[..k + 1]) == Elements(nets[..k]) + {nets[k]};
      k := k + 1;
    }
    assert nets[..|nets|] == nets;
  }
}

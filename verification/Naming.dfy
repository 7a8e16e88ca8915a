/** The naming rule of a stack, whatever plan is deployed next: what holds of its
    containers from one version of the compose file to another
    (internal/service/stackup.go). */
module Naming {
  import opened Text
  import opened Engine
  import opened Compose
  import opened Stack
  import opened Fleet

  /** The name is of the form replicas get in this stack. */
  ghost predicate Looks(stack: string, name: string) {
    exists s: string, i: nat :: name == ContainerName(stack, s, i)
  }

  /** Named by the rule for its own service and replica labels. */
  ghost predicate ByRule(stack: string, c: Container) {
    exists i: nat | i >= 1 :: Number(c) == Some(i) && c.name == ContainerName(stack, Service(c), i)
  }

  /** The only replica of its service, under a name that is not of that form. */
  ghost predicate OnItsOwn(stack: string, c: Container) {
    Number(c) == Some(1) && !Looks(stack, c.name)
  }

  /** Every container of the stack is named by the rule for its own labels, or is
      the one replica of a service that pins its name. */
  ghost predicate Ruled(stack: string, cs: Table) {
    forall id | id in cs && InStack(stack, cs[id]) :: ByRule(stack, cs[id]) || OnItsOwn(stack, cs[id])
  }

  /** No pinned name is of the form replicas get. */
  ghost predicate PlainPins(stack: string, plans: seq<ServicePlan>) {
    forall p | p in plans && Pinned(p) :: !Looks(stack, p.spec.name)
  }

  lemma MineIsRuled(digest: Spec -> string, stack: string, p: ServicePlan, t: Target, c: Container)
    requires At(digest, stack, p, t) && Mine(t, c)
    requires Pinned(p) ==> t.plan.replicas <= 1 && !Looks(stack, p.spec.name)
    ensures ByRule(stack, c) || OnItsOwn(stack, c)
  {
    var i: nat :| 1 <= i <= t.plan.replicas && c.name == t.Name(i) && Number(c) == Some(i);
  }

  /** Deploying one service keeps the rule, complete or not. */
  lemma StaysRuled(digest: Spec -> string, stack: string, cs: Table, after: Table, p: ServicePlan, t: Target)
    requires Ruled(stack, cs) && At(digest, stack, p, t) && OnlyClaimed(t, cs, after)
    requires Pinned(p) ==> t.plan.replicas <= 1 && !Looks(stack, p.spec.name)
    ensures Ruled(stack, after)
  {
    forall id | id in after && InStack(stack, after[id])
      ensures ByRule(stack, after[id]) || OnItsOwn(stack, after[id])
    {
      if Mine(t, after[id]) { MineIsRuled(digest, stack, p, t, after[id]); }
    }
  }

  /** Whoever bears a pinned name of the plan is labelled with no other service of
      the plan, and with that very service if it carries its hash. */
  ghost predicate PinsMatch(digest: Spec -> string, stack: string, plans: seq<ServicePlan>, cs: Table) {
    forall id, p | id in cs && p in plans && InStack(stack, cs[id]) && Pinned(p) && cs[id].name == p.spec.name ::
      PinMatches(digest, plans, p, cs[id])
  }

  ghost predicate PinMatches(digest: Spec -> string, plans: seq<ServicePlan>, p: ServicePlan, c: Container) {
    NotAnothers(plans, p, c) && (HashOf(c) == ConfigHash(digest, p.spec) ==> Service(c) == p.name)
  }

  lemma UnpinnedIsRightful(digest: Spec -> string, stack: string, p: ServicePlan, c: Container)
    requires ByRule(stack, c) || OnItsOwn(stack, c)
    requires !Pinned(p) && Bears(TargetOf(digest, stack, p), c.name)
    ensures Rightful(TargetOf(digest, stack, p), c)
  {
    var t := TargetOf(digest, stack, p);
    var j: nat :| j >= 1 && c.name == t.Name(j);
    assert Looks(stack, c.name);
    var i: nat :| i >= 1 && Number(c) == Some(i) && c.name == ContainerName(stack, Service(c), i);
    ContainerNameInjective(stack, Service(c), i, p.name, j);
  }

  lemma PinnedIsOwn(digest: Spec -> string, stack: string, p: ServicePlan, c: Container)
    requires ByRule(stack, c) || OnItsOwn(stack, c)
    requires Pinned(p) && !Looks(stack, p.spec.name) && c.name == p.spec.name
    ensures Number(c) == Some(1) && (Service(c) == p.name <==> Rightful(TargetOf(digest, stack, p), c))
  {
    assert c.name == TargetOf(digest, stack, p).Name(1);
  }

  /** The precondition of a deploy holds for any plan over a ruled stack with honest
      hashes, but for its pinned names, and those need exactly that they match. A plan
      that pins no name needs nothing. */
  lemma RuledIsSoundIff(digest: Spec -> string, stack: string, plans: seq<ServicePlan>, cs: Table)
    requires Deployable(stack, plans) && PlainPins(stack, plans) && Ruled(stack, cs)
    requires Injective(digest) && Honest(digest, stack, cs)
    ensures Sound(digest, stack, plans, cs) <==> PinsMatch(digest, stack, plans, cs)
  {
    forall id, p | id in cs && p in plans && InStack(stack, cs[id])
      ensures Bears(TargetOf(digest, stack, p), cs[id].name) && !Pinned(p) ==>
                NotAnothers(plans, p, cs[id]) && Rightful(TargetOf(digest, stack, p), cs[id])
      ensures Pinned(p) ==> (Bears(TargetOf(digest, stack, p), cs[id].name) <==> cs[id].name == p.spec.name)
      ensures Pinned(p) && cs[id].name == p.spec.name ==>
                (Service(cs[id]) == p.name <==> Rightful(TargetOf(digest, stack, p), cs[id]))
      ensures HashOf(cs[id]) == ConfigHash(digest, p.spec) ==> SameDefinition(SpecOf(cs[id]), p.spec)
    {
      HonestIff(digest, stack, cs, id, p.spec);
      var t := TargetOf(digest, stack, p);
      if Pinned(p) {
        assert t.Name(1) == p.spec.name;
        if cs[id].name == p.spec.name { PinnedIsOwn(digest, stack, p, cs[id]); }
      } else if Bears(t, cs[id].name) {
        UnpinnedIsRightful(digest, stack, p, cs[id]);
      }
    }
  }

  /** No service of the plan changed the way it is named: it pins the name its
      container has, or pins none and its containers follow the rule. */
  ghost predicate NoneRenamed(stack: string, plans: seq<ServicePlan>, cs: Table) {
    forall id, p | id in cs && p in plans && InStack(stack, cs[id]) && Service(cs[id]) == p.name ::
      KeepsName(stack, p, cs[id])
  }

  ghost predicate KeepsName(stack: string, p: ServicePlan, c: Container) {
    if Pinned(p) then c.name == p.spec.name else ByRule(stack, c)
  }

  /** And a ruled stack is well named for exactly the plans that rename nothing. */
  lemma RuledIsWellNamedIff(digest: Spec -> string, stack: string, plans: seq<ServicePlan>, cs: Table)
    requires PlainPins(stack, plans) && Ruled(stack, cs)
    ensures WellNamed(digest, stack, plans, cs) <==> NoneRenamed(stack, plans, cs)
  {
    forall id, p | id in cs && p in plans && InStack(stack, cs[id]) && Service(cs[id]) == p.name
      ensures Rightful(TargetOf(digest, stack, p), cs[id]) <==> KeepsName(stack, p, cs[id])
    {
      RightfulIff(digest, stack, p, cs[id]);
    }
  }

  lemma RightfulIff(digest: Spec -> string, stack: string, p: ServicePlan, c: Container)
    requires ByRule(stack, c) || OnItsOwn(stack, c)
    requires Pinned(p) ==> !Looks(stack, p.spec.name)
    requires Service(c) == p.name
    ensures Rightful(TargetOf(digest, stack, p), c) <==> KeepsName(stack, p, c)
  {
    var t := TargetOf(digest, stack, p);
    if Pinned(p) {
      assert t.Name(1) == p.spec.name;
      if c.name == p.spec.name { PinnedIsOwn(digest, stack, p, c); }
    } else if ByRule(stack, c) {
      var i: nat :| i >= 1 && Number(c) == Some(i) && c.name == ContainerName(stack, Service(c), i);
      assert c.name == t.Name(i);
    }
  }

  // Pinned names that keep their owner.

  /** Every pinned name belongs to one service for good. */
  ghost predicate Respects(stack: string, owner: string -> string, plans: seq<ServicePlan>) {
    PlainPins(stack, plans) && forall p | p in plans && Pinned(p) :: owner(p.spec.name) == p.name
  }

  /** The rule, and whoever stands on its own belongs to its name's owner. */
  ghost predicate RuledBy(stack: string, owner: string -> string, cs: Table) {
    && Ruled(stack, cs)
    && forall id | id in cs && InStack(stack, cs[id]) && !ByRule(stack, cs[id]) :: Service(cs[id]) == owner(cs[id].name)
  }

  /** Then every version of the file can be deployed on what the last one left. */
  lemma RuledIsSound(digest: Spec -> string, stack: string, owner: string -> string, plans: seq<ServicePlan>, cs: Table)
    requires Deployable(stack, plans) && Respects(stack, owner, plans) && RuledBy(stack, owner, cs)
    requires Injective(digest) && Honest(digest, stack, cs)
    ensures Sound(digest, stack, plans, cs)
  {
    forall id, p | id in cs && p in plans && InStack(stack, cs[id]) && Pinned(p) && cs[id].name == p.spec.name
      ensures PinMatches(digest, plans, p, cs[id])
    {
      assert !Looks(stack, cs[id].name);
      assert !ByRule(stack, cs[id]);
    }
    RuledIsSoundIff(digest, stack, plans, cs);
  }

  lemma MineIsRuledBy(digest: Spec -> string, stack: string, owner: string -> string, p: ServicePlan, t: Target,
                      c: Container)
    requires At(digest, stack, p, t) && Mine(t, c)
    requires Pinned(p) ==> t.plan.replicas <= 1 && !Looks(stack, p.spec.name) && owner(p.spec.name) == p.name
    ensures ByRule(stack, c) || (OnItsOwn(stack, c) && Service(c) == owner(c.name))
  {
    var i: nat :| 1 <= i <= t.plan.replicas && c.name == t.Name(i) && Number(c) == Some(i);
  }

  /** Why pinned names must not look like a replica's: pinned to the name of its own
      second replica, a service finds that container up to date, since the hash
      leaves the name out, and then removes it as surplus. */
  lemma PinnedToReplica(digest: Spec -> string, stack: string, p: ServicePlan)
    requires Labelled(stack, p) && !Pinned(p) && 2 <= p.replicas <= MAX_INT
    ensures var was := TargetOf(digest, stack, p);
            var c := Made(ReplicaSpec(was, was.Name(2), 2), p.networks);
            var now := TargetOf(digest, stack, p.(replicas := 1, spec := p.spec.(name := was.Name(2))));
            && Mine(was, c) && c.name == now.Name(1) && HashOf(c) == now.hash && Surplus(now.plan, c)
  {
    var was := TargetOf(digest, stack, p);
    var c := Made(ReplicaSpec(was, was.Name(2), 2), p.networks);
    StampedIsMine(was, 2, c);
    var i: nat :| 1 <= i <= p.replicas && c.name == was.Name(i) && Number(c) == Some(i);
    ContainerNameInjective(stack, p.name, i, p.name, 2);
  }
}

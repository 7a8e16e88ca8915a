/** What the containers of a whole stack satisfy before, during and after a
    deploy, and why deploying one service leaves the others alone. */
module Fleet {
  import opened Text
  import opened Engine
  import opened Compose
  import opened Stack

  function TargetOf(digest: Spec -> string, stack: string, p: ServicePlan): Target {
    Target(stack, p, ConfigHash(digest, p.spec))
  }

  /** Every container of the stack carries the hash of what it was created from. */
  ghost predicate Honest(digest: Spec -> string, stack: string, cs: Table) {
    forall id | id in cs && InStack(stack, cs[id]) :: HashOf(cs[id]) == ConfigHash(digest, SpecOf(cs[id]))
  }

  /** Then the test by which a deploy leaves a container alone tells whether the
      container was made from the definition the plan asks for. */
  lemma HonestIff(digest: Spec -> string, stack: string, cs: Table, id: Id, spec: Spec)
    requires Injective(digest) && Honest(digest, stack, cs) && id in cs && InStack(stack, cs[id])
    ensures HashOf(cs[id]) == ConfigHash(digest, spec) <==> SameDefinition(SpecOf(cs[id]), spec)
  {
    HashSees(digest, SpecOf(cs[id]), spec);
  }

  /** A plan `up` can run: converted, with sane replica counts. */
  ghost predicate Deployable(stack: string, plans: seq<ServicePlan>) {
    && PlanOk(stack, plans)
    && forall p | p in plans :: 1 <= p.replicas <= MAX_INT && (Pinned(p) ==> p.replicas == 1)
  }

  /** Named by the rule for its own service and replica labels. */
  ghost predicate Rightful(t: Target, c: Container) {
    && Service(c) == t.plan.name
    && exists i: nat | i >= 1 :: c.name == t.Name(i) && Number(c) == Some(i) && (Pinned(t.plan) ==> i == 1)
  }

  /** No container carries one service's name and another's label, and the plan's
      hash is only found on containers this plan could have stamped. */
  ghost predicate Sound(digest: Spec -> string, stack: string, plans: seq<ServicePlan>, cs: Table) {
    forall id, p | id in cs && p in plans && InStack(stack, cs[id])
                   && Bears(TargetOf(digest, stack, p), cs[id].name) ::
      && NotAnothers(plans, p, cs[id])
      && (HashOf(cs[id]) == ConfigHash(digest, p.spec) ==>
            Rightful(TargetOf(digest, stack, p), cs[id]) && SameDefinition(SpecOf(cs[id]), p.spec))
  }

  ghost predicate NotAnothers(plans: seq<ServicePlan>, p: ServicePlan, c: Container) {
    forall q | q in plans && q.name != p.name :: Service(c) != q.name
  }

  /** Every container labelled with a service of the plan is named by the rule. */
  ghost predicate WellNamed(digest: Spec -> string, stack: string, plans: seq<ServicePlan>, cs: Table) {
    forall id, p | id in cs && p in plans && InStack(stack, cs[id]) && Service(cs[id]) == p.name ::
      Rightful(TargetOf(digest, stack, p), cs[id])
  }

  lemma BearsApart(digest: Spec -> string, stack: string, plans: seq<ServicePlan>, p: ServicePlan, q: ServicePlan,
                   name: string)
    requires Deployable(stack, plans) && p in plans && q in plans && p.name != q.name
    requires Bears(TargetOf(digest, stack, p), name)
    ensures !Bears(TargetOf(digest, stack, q), name)
  {
    var i: nat :| i >= 1 && name == TargetOf(digest, stack, p).Name(i);
    forall j: nat | j >= 1 ensures name != TargetOf(digest, stack, q).Name(j) {
      NamesApart(stack, plans, p, q, i, j);
    }
  }

  /** The plan's target, at whatever scale is asked for. */
  ghost predicate At(digest: Spec -> string, stack: string, p: ServicePlan, t: Target) {
    t == TargetOf(digest, stack, p).(plan := p.(replicas := t.plan.replicas))
  }

  lemma BearsAtAnyScale(digest: Spec -> string, stack: string, p: ServicePlan, t: Target, name: string)
    requires At(digest, stack, p, t)
    ensures Bears(t, name) <==> Bears(TargetOf(digest, stack, p), name)
    ensures Named(t, name) ==> Bears(t, name)
  {
    assert forall i: nat :: t.Name(i) == TargetOf(digest, stack, p).Name(i);
  }

  /** What createReplica made carries the hash of what it was made from, taken by
      itself: the number and the hash it was stamped with do not enter. */
  lemma MineIsHonest(digest: Spec -> string, stack: string, p: ServicePlan, t: Target, c: Container)
    requires At(digest, stack, p, t) && Mine(t, c)
    ensures HashOf(c) == ConfigHash(digest, SpecOf(c))
  {
    HashSees(digest, SpecOf(c), p.spec);
  }

  lemma MineIsRightful(digest: Spec -> string, stack: string, p: ServicePlan, t: Target, c: Container)
    requires At(digest, stack, p, t) && Mine(t, c) && (Pinned(p) ==> t.plan.replicas <= 1)
    ensures Rightful(TargetOf(digest, stack, p), c)
  {
  }

  /** Plan-named containers under the plan's hash are recognised for what they are. */
  lemma SoundIsTrusted(digest: Spec -> string, stack: string, plans: seq<ServicePlan>, cs: Table,
                       p: ServicePlan, t: Target)
    requires Sound(digest, stack, plans, cs) && p in plans && At(digest, stack, p, t)
    ensures Trusted(t, cs)
  {
    forall id | id in cs && InStack(stack, cs[id]) && Named(t, cs[id].name) && HashOf(cs[id]) == t.hash
      ensures Mine(t, cs[id])
    {
      var c := cs[id];
      BearsAtAnyScale(digest, stack, p, t, c.name);
      var j: nat :| 1 <= j <= t.plan.replicas && c.name == t.Name(j);
      assert Rightful(TargetOf(digest, stack, p), c);
      var i: nat :| i >= 1 && c.name == TargetOf(digest, stack, p).Name(i) && Number(c) == Some(i)
                    && (Pinned(p) ==> i == 1);
      if !Pinned(p) { ContainerNameInjective(stack, p.name, i, p.name, j); }
      assert c.name == t.Name(i);
    }
  }

  /** A container that deploying p may touch is of no concern to another service. */
  lemma ClaimedElsewhere(digest: Spec -> string, stack: string, plans: seq<ServicePlan>, cs: Table, id: Id,
                         p: ServicePlan, t: Target, q: ServicePlan)
    requires Deployable(stack, plans) && Sound(digest, stack, plans, cs)
    requires p in plans && q in plans && p.name != q.name && At(digest, stack, p, t)
    requires id in cs && Claimed(t, cs[id])
    ensures !Relevant(TargetOf(digest, stack, q), cs[id])
  {
    var tq, c := TargetOf(digest, stack, q), cs[id];
    if InStack(stack, c) {
      assert Bears(tq, c.name) ==> NotAnothers(plans, q, c);
      if Named(t, c.name) {
        BearsAtAnyScale(digest, stack, p, t, c.name);
        BearsApart(digest, stack, plans, p, q, c.name);
        assert NotAnothers(plans, p, c);
      }
    }
  }

  lemma MineElsewhere(digest: Spec -> string, stack: string, plans: seq<ServicePlan>, c: Container,
                      p: ServicePlan, t: Target, q: ServicePlan)
    requires Deployable(stack, plans) && p in plans && q in plans && p.name != q.name && At(digest, stack, p, t)
    requires Mine(t, c)
    ensures !Relevant(TargetOf(digest, stack, q), c)
  {
    assert Named(t, c.name);
    BearsAtAnyScale(digest, stack, p, t, c.name);
    BearsApart(digest, stack, plans, p, q, c.name);
  }

  /** Deploying p leaves what q sees of the table as it was. */
  lemma OthersUnmoved(digest: Spec -> string, stack: string, plans: seq<ServicePlan>, cs: Table, after: Table,
                      p: ServicePlan, t: Target, q: ServicePlan)
    requires Deployable(stack, plans) && Sound(digest, stack, plans, cs)
    requires p in plans && q in plans && p.name != q.name && At(digest, stack, p, t)
    requires OnlyClaimed(t, cs, after)
    ensures Accurate(TargetOf(digest, stack, q), cs, after)
  {
    var tq := TargetOf(digest, stack, q);
    forall id | id in cs && Relevant(tq, cs[id]) ensures id in after && after[id] == cs[id] {
      if Claimed(t, cs[id]) { ClaimedElsewhere(digest, stack, plans, cs, id, p, t, q); }
    }
    forall id | id in after && Relevant(tq, after[id]) ensures id in cs && after[id] == cs[id] {
      if Mine(t, after[id]) { MineElsewhere(digest, stack, plans, after[id], p, t, q); }
    }
  }

  /** Both stack-wide conditions survive a deploy of one service, complete or not. */
  lemma StaysSound(digest: Spec -> string, stack: string, plans: seq<ServicePlan>, cs: Table, after: Table,
                   p: ServicePlan, t: Target)
    requires Deployable(stack, plans) && p in plans && Sound(digest, stack, plans, cs)
    requires At(digest, stack, p, t) && OnlyClaimed(t, cs, after) && (Pinned(p) ==> t.plan.replicas <= 1)
    ensures Sound(digest, stack, plans, after)
    ensures WellNamed(digest, stack, plans, cs) ==> WellNamed(digest, stack, plans, after)
  {
    forall id, q | id in after && q in plans && Mine(t, after[id])
      ensures Bears(TargetOf(digest, stack, q), after[id].name) || Service(after[id]) == q.name ==> q == p
      ensures Rightful(TargetOf(digest, stack, p), after[id])
    {
      MineIsRightful(digest, stack, p, t, after[id]);
      if q.name != p.name {
        MineElsewhere(digest, stack, plans, after[id], p, t, q);
      } else {
        SameName(stack, plans, p, q);
      }
    }
  }

  lemma SameName(stack: string, plans: seq<ServicePlan>, p: ServicePlan, q: ServicePlan)
    requires PlanOk(stack, plans) && p in plans && q in plans && p.name == q.name
    ensures p == q
  {
  }

  /** What is settled for a service depends on what it sees only. */
  lemma StaysSettled(t: Target, cs: Table, after: Table)
    requires Accurate(t, cs, after) && Settled(t, cs)
    ensures Settled(t, after)
  {
    forall i: nat | 1 <= i <= t.plan.replicas ensures Served(t, after, i) {
      assert Served(t, cs, i);
      var id :| id in cs && cs[id].name == t.Name(i) && cs[id].phase == Running && Mine(t, cs[id]);
      assert Relevant(t, cs[id]);
    }
    forall id | id in after && InStack(t.stack, after[id]) ensures !Surplus(t.plan, after[id]) {
      if Surplus(t.plan, after[id]) { assert Relevant(t, after[id]); }
    }
  }

  lemma AccurateAcross(t: Target, a: Table, b: Table, c: Table)
    requires Accurate(t, a, b) && Accurate(t, b, c)
    ensures Accurate(t, a, c)
  {
  }
}

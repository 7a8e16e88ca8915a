/** What a deploy does to the containers it finds: which ones it leaves alone, which
    it replaces, and on which networks they end up
    (internal/service/stackup.go). */
module Upkeep {
  import opened Text
  import opened Engine
  import opened Stack
  import opened Reconcile
  import opened Compose
  import opened Fleet
  import opened Status

  /** What is gone stays gone: ids are not reused. */
  ghost predicate NoReturn(start: Table, cs: Table, after: Table) {
    forall id | id in start && id !in cs :: id !in after
  }

  /** A completed deploy of one service, on an engine of either kind. */
  ghost predicate Completed(t: Target, recreate: bool, reliable: bool, start: Table, cs: Table) {
    Treated(t, recreate, start, cs) && (reliable ==> Retained(t, recreate, start, cs))
  }

  /** What is true from the table a service found is true from the first one. */
  lemma FromStart(t: Target, recreate: bool, reliable: bool, start: Table, cs: Table, after: Table)
    requires Accurate(t, start, cs) && SameMake(cs, after) && NoReturn(start, cs, after)
    ensures Spared(t, recreate, cs, after) ==> Spared(t, recreate, start, after)
    ensures Completed(t, recreate, reliable, cs, after) ==> Completed(t, recreate, reliable, start, after)
  {
    assert forall id | id in start && Holds(t, start[id]) :: Relevant(t, start[id]) && id in cs && cs[id] == start[id];
    assert forall id | id in cs && Holds(t, cs[id]) :: Relevant(t, cs[id]) && id in start && cs[id] == start[id];
  }

  /** And stays true while other services are deployed. */
  lemma ToEnd(t: Target, recreate: bool, reliable: bool, start: Table, cs: Table, after: Table)
    requires Accurate(t, cs, after) && NoReturn(start, cs, after)
    ensures Spared(t, recreate, start, cs) ==> Spared(t, recreate, start, after)
    ensures Completed(t, recreate, reliable, start, cs) ==> Completed(t, recreate, reliable, start, after)
  {
    assert forall id | id in cs && Holds(t, cs[id]) :: Relevant(t, cs[id]) && id in after && after[id] == cs[id];
    assert forall id | id in after && Holds(t, after[id]) :: Relevant(t, after[id]) && id in cs && after[id] == cs[id];
  }

  // Definitions.

  /** Whoever holds a name of the service runs, and was made from the plan. */
  ghost predicate RunsPlan(t: Target, cs: Table) {
    forall id | id in cs && Holds(t, cs[id]) :: cs[id].phase == Running && SameDefinition(SpecOf(cs[id]), t.plan.spec)
  }

  /** What was made from another definition than the plan's is gone, and so is
      everything if asked for; what was made from this one and ran is untouched. */
  ghost predicate KeptIfSame(t: Target, recreate: bool, start: Table, cs: Table) {
    forall id | id in start && Holds(t, start[id]) ::
      && (recreate || !SameDefinition(SpecOf(start[id]), t.plan.spec) ==> id !in cs)
      && (!recreate && SameDefinition(SpecOf(start[id]), t.plan.spec) && start[id].phase == Running ==>
            id in cs && cs[id] == start[id])
  }

  lemma CompletedRunsPlan(digest: Spec -> string, stack: string, p: ServicePlan, t: Target, recreate: bool,
                          reliable: bool, start: Table, cs: Table)
    requires Fleet.At(digest, stack, p, t) && Completed(t, recreate, reliable, start, cs)
    requires Settled(t, cs) && Unique(cs)
    ensures RunsPlan(t, cs)
    ensures Injective(digest) && Honest(digest, stack, start) ==> KeptIfSame(t, recreate, start, cs)
  {
    forall id | id in cs && Holds(t, cs[id])
      ensures cs[id].phase == Running && SameDefinition(SpecOf(cs[id]), t.plan.spec)
    {
      HolderServes(t, cs, id);
    }
    if Injective(digest) && Honest(digest, stack, start) {
      forall id | id in start && Holds(t, start[id])
        ensures HashOf(start[id]) == t.hash <==> SameDefinition(SpecOf(start[id]), t.plan.spec)
      {
        HonestIff(digest, stack, start, id, t.plan.spec);
      }
    }
  }

  // Networks.

  predicate Joined(t: Target, c: Container) {
    Elements(t.plan.networks) <= c.networks
  }

  /** Every container under a name of the service is on all its networks. */
  ghost predicate AllJoined(t: Target, cs: Table) {
    forall id | id in cs && Holds(t, cs[id]) :: Joined(t, cs[id])
  }

  /** So was every container that is still there. */
  ghost predicate KeptJoined(t: Target, start: Table, cs: Table) {
    forall id | id in start && id in cs && Holds(t, start[id]) :: Joined(t, start[id])
  }

  /** So was every container that counts as up to date. */
  ghost predicate FoundJoined(t: Target, recreate: bool, start: Table) {
    forall id | id in start && Holds(t, start[id]) && UpToDate(t, recreate, start[id]) :: Joined(t, start[id])
  }

  /** A deploy repairs no attachment: afterwards the service is on its networks
      exactly when the containers it kept were. On a reliable engine those are the
      ones that carried the plan's hash; recreating keeps none. */
  ghost predicate JoinedIff(t: Target, recreate: bool, reliable: bool, start: Table, cs: Table) {
    && (AllJoined(t, cs) <==> KeptJoined(t, start, cs))
    && (reliable ==> (AllJoined(t, cs) <==> FoundJoined(t, recreate, start)))
    && (recreate ==> AllJoined(t, cs))
  }

  lemma CompletedJoins(t: Target, recreate: bool, reliable: bool, start: Table, cs: Table)
    requires Completed(t, recreate, reliable, start, cs)
    ensures JoinedIff(t, recreate, reliable, start, cs)
  {
    forall id | id in start && id in cs && Holds(t, start[id])
      ensures Holds(t, cs[id]) && cs[id].networks == start[id].networks && UpToDate(t, recreate, start[id])
    {
    }
    forall id | id in cs && Holds(t, cs[id])
      ensures if id in start then Holds(t, start[id]) && cs[id].networks == start[id].networks else Joined(t, cs[id])
    {
    }
  }

  /** How a service comes to stay off a network: a replica whose second attachment
      failed is half made, and once it is started it is settled as it is. */
  lemma HalfJoinedIsSettled(t: Target, a: string, b: string, id: Id)
    requires t.Ok() && t.plan.replicas == 1 && t.plan.networks == [a, b] && a != b
    ensures var running := Made(ReplicaSpec(t, t.Name(1), 1), [a]);
            var c := running.(phase := Created);
            && HalfMade(ReplicaSpec(t, t.Name(1), 1), t.plan.networks, c) && UpToDate(t, false, c)
            && Settled(t, map[id := running]) && !AllJoined(t, map[id := running])
  {
    var c := Made(ReplicaSpec(t, t.Name(1), 1), [a]);
    var cs: Table := map[id := c];
    StampedIsMine(t, 1, c);
    MineIsNotSurplus(t, c);
    assert cs[id].name == t.Name(1) && Served(t, cs, 1);
    assert Named(t, c.name) && Holds(t, c);
    assert b in Elements(t.plan.networks);
  }

  /** A network added to a service after its first one changes nothing either: the
      definition that is hashed holds the first network only. */
  lemma AddedNetworkIsUnseen(t: Target, extra: string, cs: Table, id: Id)
    requires t.plan.networks != [] && Settled(t, cs) && id in cs && Holds(t, cs[id]) && extra !in cs[id].networks
    ensures var edited := t.(plan := t.plan.(networks := t.plan.networks + [extra]));
            Settled(edited, cs) && !AllJoined(edited, cs)
  {
    var edited := t.(plan := t.plan.(networks := t.plan.networks + [extra]));
    assert forall i: nat :: edited.Name(i) == t.Name(i);
    forall c | Mine(t, c) ensures Mine(edited, c) {
      var i: nat :| 1 <= i <= t.plan.replicas && c.name == t.Name(i) && Number(c) == Some(i);
      assert c.name == edited.Name(i);
    }
    forall i: nat | 1 <= i <= t.plan.replicas ensures Served(edited, cs, i) {
      assert Served(t, cs, i);
      var x :| x in cs && cs[x].name == t.Name(i) && cs[x].phase == Running && Mine(t, cs[x]);
      assert cs[x].name == edited.Name(i);
    }
    var n: nat :| 1 <= n <= t.plan.replicas && cs[id].name == t.Name(n);
    assert cs[id].name == edited.Name(n) && Holds(edited, cs[id]);
    assert extra in Elements(edited.plan.networks);
  }
}

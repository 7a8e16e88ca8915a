/** Bringing one service to the state its plan asks for: upService and
    removeSurplus (internal/service/stackup.go). */
module Reconcile {
  import opened Text
  import opened Engine
  import opened Compose
  import opened Stack

  /** The test by which a deploy leaves an existing container alone. */
  predicate UpToDate(t: Target, recreate: bool, c: Container) {
    !recreate && HashOf(c) == t.hash
  }

  /** A container keeps its identity: only its phase changes once it exists. */
  ghost predicate SameMake(before: Table, after: Table) {
    forall id | id in before && id in after :: after[id] == before[id].(phase := after[id].phase)
  }

  /** A step that concerns one name of a stack leaves every other container alone,
      also one outside the stack that bears the name. */
  ghost predicate OnlyName(stack: string, name: string, before: Table, after: Table) {
    && (forall id | id in before && !(InStack(stack, before[id]) && before[id].name == name) ::
          id in after && after[id] == before[id])
    && (forall id | id in after && id !in before :: after[id].name == name)
    && SameMake(before, after)
  }

  /** What is new is stamped for this target. */
  ghost predicate NewIsMine(t: Target, before: Table, after: Table) {
    forall id | id in after && !(id in before && after[id] == before[id]) :: Mine(t, after[id])
  }

  /** A listed container that bears the name is still what the listing said,
      unless an earlier step of this deploy dealt with it. */
  ghost predicate Sighted(t: Target, recreate: bool, l: Listed, replica: nat, cs: Table) {
    && l.container.name == t.Name(replica) && InStack(t.stack, l.container)
    && (l.id in cs ==> cs[l.id] == l.container.(phase := cs[l.id].phase))
    && (UpToDate(t, recreate, l.container) ==> Mine(t, l.container))
    && (UpToDate(t, recreate, l.container) && l.container.phase == Running ==>
          l.id in cs && cs[l.id] == l.container)
  }

  lemma AfterStart(t: Target, replica: nat, before: Table, id: Id, after: Table)
    requires id in before && before[id].name == t.Name(replica) && Mine(t, before[id])
    requires after == before[id := before[id].(phase := Running)]
    ensures OnlyName(t.stack, t.Name(replica), before, after) && NewIsMine(t, before, after)
    ensures Served(t, after, replica)
  {
    assert Mine(t, after[id]);
  }

  lemma AfterCreate(t: Target, replica: nat, before: Table, gone: set<Id>, id: Id, c: Container, after: Table)
    requires t.Ok() && 1 <= replica <= t.plan.replicas
    requires forall x | x in gone && x in before :: before[x].name == t.Name(replica) && InStack(t.stack, before[x])
    requires id !in before && id !in gone
    requires SpecOf(c) == ReplicaSpec(t, t.Name(replica), replica)
    requires after == (before - gone)[id := c]
    ensures OnlyName(t.stack, t.Name(replica), before, after) && NewIsMine(t, before, after)
    ensures c.phase == Running ==> Served(t, after, replica)
    ensures gone !! after.Keys
  {
    StampedIsMine(t, replica, c);
    assert after[id] == c;
  }

  /** Nobody but the container to be replaced holds the name. */
  ghost predicate Yields(cs: Table, current: Option<Id>, name: string) {
    forall id | id in cs && cs[id].name == name :: current == Some(id)
  }

  function IdOf(l: Option<Listed>): Option<Id> {
    if l.Some? then Some(l.value.id) else None
  }

  /** Removes the container in the way, if any, and creates the replica. */
  method Replace(e: Engine, t: Target, current: Option<Id>, replica: nat) returns (err: Option<Fault>)
    requires e.Valid() && t.Ok() && 1 <= replica <= t.plan.replicas
    requires current.Some? ==> current.value < e.nextId
    requires current.Some? && current.value in e.world.containers ==>
               var c := e.world.containers[current.value];
               c.name == t.Name(replica) && InStack(t.stack, c)
    modifies e
    ensures e.Valid() && e.nextId >= old(e.nextId)
    ensures e.world == old(e.world).(containers := e.world.containers)
    ensures OnlyName(t.stack, t.Name(replica), old(e.world.containers), e.world.containers)
    ensures NewIsMine(t, old(e.world.containers), e.world.containers)
    ensures e.reliable && Yields(old(e.world.containers), current, t.Name(replica)) ==> err.None?
    ensures err.None? ==> Served(t, e.world.containers, replica)
    ensures err.None? && current.Some? ==> current.value !in e.world.containers
    ensures err.None? ==> forall id | id in e.world.containers && id !in old(e.world.containers) ::
              e.world.containers[id].networks == Elements(t.plan.networks)
    ensures forall id | id in e.world.containers && id !in old(e.world.containers) :: id >= old(e.nextId)
  {
    var name := t.Name(replica);
    assert name != "";
    ghost var before, id := e.world.containers, e.nextId;
    ghost var gone: set<Id> := {};
    if current.Some? {
      err := RemoveContainer(e, current.value);
      if err.Some? { return; }
      gone := {current.value};
    }
    assert e.world.containers == before - gone;
    err := CreateReplica(e, t, name, replica);
    if id in e.world.containers {
      AfterCreate(t, replica, before, gone, id, e.world.containers[id], e.world.containers);
    }
  }

  /** The round's container is there and up to date. */
  predicate KeepsUp(t: Target, recreate: bool, current: Option<Listed>, cs: Table) {
    current.Some? && UpToDate(t, recreate, current.value.container) && current.value.id in cs
  }

  predicate SeenUpToDate(t: Target, recreate: bool, l: Listed) {
    UpToDate(t, recreate, l.container) && l.container.phase == Running
  }

  /** A replica this deploy created has joined every network of its plan. */
  ghost predicate NewJoined(t: Target, before: Table, after: Table) {
    forall id | id in after && id !in before :: after[id].networks == Elements(t.plan.networks)
  }

  /** What a round does to the table: it touches the replica's name only, leaves an
      up-to-date running container alone, and when it succeeds the replica is
      served, an outdated holder gone and what is new on every network. */
  ghost predicate Handled(t: Target, recreate: bool, current: Option<Listed>, r: nat, cs: Table, after: Table,
                          ok: bool, reliable: bool)
  {
    && OnlyName(t.stack, t.Name(r), cs, after) && NewIsMine(t, cs, after)
    && (ok ==> Served(t, after, r) && NewJoined(t, cs, after))
    && (ok && current.Some? && !UpToDate(t, recreate, current.value.container) ==> current.value.id !in after)
    && (current.Some? && SeenUpToDate(t, recreate, current.value) ==> ok && after == cs)
    && (reliable && KeepsUp(t, recreate, current, cs) ==> current.value.id in after)
  }

  /** One round of upService's loop. */
  method UpReplica(e: Engine, t: Target, recreate: bool, current: Option<Listed>, replica: nat)
    returns (err: Option<Fault>)
    requires e.Valid() && t.Ok() && 1 <= replica <= t.plan.replicas
    requires current.Some? ==>
               current.value.id < e.nextId && Sighted(t, recreate, current.value, replica, e.world.containers)
    modifies e
    ensures e.Valid() && e.nextId >= old(e.nextId)
    ensures e.world == old(e.world).(containers := e.world.containers)
    ensures Handled(t, recreate, current, replica, old(e.world.containers), e.world.containers, err.None?, e.reliable)
    ensures e.reliable && Yields(old(e.world.containers), IdOf(current), t.Name(replica)) ==> err.None?
    ensures forall id | id in e.world.containers && id !in old(e.world.containers) :: id >= old(e.nextId)
    ensures current.Some? && SeenUpToDate(t, recreate, current.value) ==> e.Kept()
  {
    if current.Some? && UpToDate(t, recreate, current.value.container) {
      if current.value.container.phase == Running { return None; }
      ghost var before := e.world.containers;
      err := e.Start(ById(current.value.id));
      if err.None? {
        AfterStart(t, replica, before, current.value.id, e.world.containers);
        return;
      }
    }
    err := Replace(e, t, IdOf(current), replica);
  }

  /** Names are unique, so a listing is a map from names. */
  method IndexByName(existing: seq<Listed>) returns (index: map<string, Listed>)
    requires forall i, j | 0 <= i < j < |existing| :: existing[i].container.name != existing[j].container.name
    ensures forall l | l in existing :: l.container.name in index && index[l.container.name] == l
    ensures forall name | name in index :: index[name] in existing && index[name].container.name == name
  {
    index := map[];
    for k := 0 to |existing|
      invariant forall l | l in existing[..k] :: l.container.name in index && index[l.container.name] == l
      invariant forall name | name in index :: index[name] in existing[..k] && index[name].container.name == name
    {
      index := index[existing[k].container.name := existing[k]];
    }
  }

  /** What a deploy of the service may assume about the listing it works from. */
  ghost predicate Index(t: Target, start: Table, index: map<string, Listed>) {
    && (forall id | id in start && Relevant(t, start[id]) ::
          start[id].name in index && index[start[id].name] == Listed(id, start[id]))
    && (forall name | name in index && Relevant(t, index[name].container) ::
          index[name].id in start && start[index[name].id] == index[name].container)
    && (forall name | name in index :: index[name].container.name == name && InStack(t.stack, index[name].container))
  }

  lemma ListingIndexes(t: Target, seen: Table, start: Table, l: seq<Listed>, index: map<string, Listed>)
    requires IsListing(l, seen, LABEL_PROJECT, t.stack) && Accurate(t, seen, start)
    requires forall x | x in l :: x.container.name in index && index[x.container.name] == x
    requires forall name | name in index :: index[name] in l && index[name].container.name == name
    ensures Index(t, start, index)
  {
  }

  function SurplusIds(p: ServicePlan, index: map<string, Listed>): set<Id> {
    set name | name in index && Surplus(p, index[name].container) :: index[name].id
  }

  /** Deletes the containers a scaled-down service left behind; `gone` is how far
      it got. */
  method RemoveSurplus(e: Engine, t: Target, index: map<string, Listed>)
    returns (err: Option<Fault>, ghost gone: set<Id>)
    requires e.Valid()
    modifies e
    ensures e.Valid() && e.nextId == old(e.nextId) && e.world == old(e.world).(containers := e.world.containers)
    ensures gone <= SurplusIds(t.plan, index) && e.world.containers == old(e.world.containers) - gone
    ensures err.None? ==> gone == SurplusIds(t.plan, index)
    ensures e.reliable ==> err.None?
    ensures SurplusIds(t.plan, index) == {} ==> e.Kept()
  {
    var todo := index.Keys;
    gone := {};
    while todo != {}
      invariant e.Valid() && e.nextId == old(e.nextId)
      invariant e.world == old(e.world).(containers := old(e.world.containers) - gone)
      invariant todo <= index.Keys && gone <= SurplusIds(t.plan, index)
      invariant forall name | name in index && name !in todo && Surplus(t.plan, index[name].container) ::
          index[name].id in gone
      invariant SurplusIds(t.plan, index) == {} ==> e.Kept()
      decreases todo
    {
      var name :| name in todo;
      todo := todo - {name};
      if Surplus(t.plan, index[name].container) {
        assert index[name].id in SurplusIds(t.plan, index);
        err := RemoveContainer(e, index[name].id);
        if err.Some? { return; }
        assert old(e.world.containers) - gone - {index[name].id} == old(e.world.containers) - (gone + {index[name].id});
        gone := gone + {index[name].id};
      }
    }
    err := None;
  }

  /** The replicas below r are done. */
  ghost predicate Below(t: Target, r: nat, name: string) {
    exists i: nat | 1 <= i < r :: name == t.Name(i)
  }

  /** upService's loop invariant, between the table it started from and now. */
  ghost predicate Rounds(t: Target, recreate: bool, start: Table, cs: Table, r: nat) {
    && (forall id | id in start && !(InStack(t.stack, start[id]) && Below(t, r, start[id].name)) ::
          id in cs && cs[id] == start[id])
    && SameMake(start, cs)
    && NewIsMine(t, start, cs)
    && (forall i: nat | 1 <= i < r :: Served(t, cs, i))
    && (forall id | id in start && InStack(t.stack, start[id]) && Below(t, r, start[id].name) ::
          !UpToDate(t, recreate, start[id]) ==> id !in cs)
    && (forall id | id in start && InStack(t.stack, start[id]) && Named(t, start[id].name) ::
          UpToDate(t, recreate, start[id]) && start[id].phase == Running ==> id in cs && cs[id] == start[id])
  }

  function At(index: map<string, Listed>, name: string): Option<Listed> {
    if name in index then Some(index[name]) else None
  }

  /** A container of the stack under one of the names asked for. */
  ghost predicate Holds(t: Target, c: Container) {
    InStack(t.stack, c) && Named(t, c.name)
  }

  /** What is up to date and running is left alone. */
  ghost predicate Spared(t: Target, recreate: bool, start: Table, cs: Table) {
    forall id | id in start && Holds(t, start[id]) && UpToDate(t, recreate, start[id]) && start[id].phase == Running ::
      id in cs && cs[id] == start[id]
  }

  /** What is up to date stays, started if need be. */
  ghost predicate Retained(t: Target, recreate: bool, start: Table, cs: Table) {
    forall id | id in start && Holds(t, start[id]) && UpToDate(t, recreate, start[id]) :: id in cs
  }

  /** What a completed deploy did to the containers it found: running up-to-date
      ones are untouched, outdated ones gone, whatever was kept is the same but for
      its phase, and whatever is new is on every network of the plan. */
  ghost predicate Treated(t: Target, recreate: bool, start: Table, cs: Table) {
    && Spared(t, recreate, start, cs)
    && (forall id | id in start && Holds(t, start[id]) && !UpToDate(t, recreate, start[id]) :: id !in cs)
    && (forall id | id in start && id in cs && (Holds(t, start[id]) || Holds(t, cs[id])) ::
          cs[id] == start[id].(phase := cs[id].phase))
    && (forall id | id in cs && id !in start && Holds(t, cs[id]) :: cs[id].networks == Elements(t.plan.networks))
  }

  lemma FirstRound(t: Target, recreate: bool, start: Table)
    ensures Rounds(t, recreate, start, start, 1)
  {
  }

  lemma BelowNext(t: Target, r: nat, name: string)
    requires r >= 1
    ensures Below(t, r + 1, name) <==> Below(t, r, name) || name == t.Name(r)
  {
  }

  lemma StillServed(t: Target, cs: Table, after: Table, r: nat, i: nat)
    requires OnlyName(t.stack, t.Name(r), cs, after) && Served(t, after, r) && Served(t, cs, i)
    ensures Served(t, after, i)
  {
  }

  lemma StillMine(t: Target, start: Table, cs: Table, after: Table)
    requires NewIsMine(t, start, cs) && NewIsMine(t, cs, after)
    requires SameMake(start, cs) && SameMake(cs, after)
    requires forall id | id in after && id !in cs :: id !in start
    ensures NewIsMine(t, start, after) && SameMake(start, after)
  {
  }

  /** What round r learnt about the container that bore its name at the start. */
  ghost predicate Dealt(t: Target, recreate: bool, index: map<string, Listed>, cs: Table, after: Table, r: nat) {
    t.Name(r) in index ==>
      var l := index[t.Name(r)];
      if UpToDate(t, recreate, l.container) then l.container.phase == Running ==> after == cs
      else l.id !in after
  }

  lemma NextRound(t: Target, recreate: bool, start: Table, index: map<string, Listed>, cs: Table, after: Table, r: nat)
    requires 1 <= r <= t.plan.replicas && Index(t, start, index) && Rounds(t, recreate, start, cs, r)
    requires OnlyName(t.stack, t.Name(r), cs, after) && NewIsMine(t, cs, after) && Served(t, after, r)
    requires forall id | id in after && id !in cs :: id !in start
    requires Dealt(t, recreate, index, cs, after, r)
    ensures Rounds(t, recreate, start, after, r + 1)
  {
    StillMine(t, start, cs, after);
    forall i: nat | 1 <= i < r + 1 ensures Served(t, after, i) {
      if i < r { StillServed(t, cs, after, r, i); }
    }
    forall id | id in start
      ensures !(InStack(t.stack, start[id]) && Below(t, r + 1, start[id].name)) ==>
                id in after && after[id] == start[id]
      ensures InStack(t.stack, start[id]) && Below(t, r + 1, start[id].name) && !UpToDate(t, recreate, start[id]) ==>
                id !in after
      ensures InStack(t.stack, start[id]) && Named(t, start[id].name) ==>
                UpToDate(t, recreate, start[id]) && start[id].phase == Running ==>
                  id in after && after[id] == start[id]
    {
      BelowNext(t, r, start[id].name);
      if InStack(t.stack, start[id]) && start[id].name == t.Name(r) {
        assert Relevant(t, start[id]);
      }
    }
  }

  lemma InterruptedRound(t: Target, recreate: bool, start: Table, index: map<string, Listed>, cs: Table, after: Table,
                         r: nat)
    requires 1 <= r <= t.plan.replicas && Index(t, start, index) && Rounds(t, recreate, start, cs, r)
    requires OnlyName(t.stack, t.Name(r), cs, after) && NewIsMine(t, cs, after)
    requires forall id | id in after && id !in cs :: id !in start
    requires t.Name(r) in index ==> !SeenUpToDate(t, recreate, index[t.Name(r)])
    ensures OnlyClaimed(t, start, after) && SameMake(start, after) && Spared(t, recreate, start, after)
  {
    StillMine(t, start, cs, after);
    forall id | id in start && Holds(t, start[id]) && UpToDate(t, recreate, start[id]) && start[id].phase == Running
      ensures id in after && after[id] == start[id]
    {
      assert Relevant(t, start[id]);
      assert id in cs && cs[id] == start[id];
    }
  }

  lemma RetainedNext(t: Target, recreate: bool, start: Table, index: map<string, Listed>, cs: Table, after: Table,
                     r: nat)
    requires 1 <= r <= t.plan.replicas && Index(t, start, index) && SameMake(start, cs)
    requires Retained(t, recreate, start, cs) && OnlyName(t.stack, t.Name(r), cs, after)
    requires KeepsUp(t, recreate, At(index, t.Name(r)), cs) ==> index[t.Name(r)].id in after
    ensures Retained(t, recreate, start, after)
  {
    forall id | id in start && Holds(t, start[id]) && UpToDate(t, recreate, start[id]) ensures id in after {
      assert Relevant(t, start[id]);
      assert id in cs && cs[id].name == start[id].name;
    }
  }

  lemma SightedAt(t: Target, recreate: bool, start: Table, index: map<string, Listed>, cs: Table, r: nat)
    requires 1 <= r <= t.plan.replicas && Index(t, start, index) && Trusted(t, start)
    requires Rounds(t, recreate, start, cs, r) && t.Name(r) in index
    ensures index[t.Name(r)].id in start && Sighted(t, recreate, index[t.Name(r)], r, cs)
  {
    var l := index[t.Name(r)];
    assert Relevant(t, l.container) && Named(t, l.container.name);
  }

  lemma SurplusIsListed(t: Target, start: Table, index: map<string, Listed>, id: Id)
    requires Index(t, start, index)
    ensures id in SurplusIds(t.plan, index) <==>
              id in start && InStack(t.stack, start[id]) && Surplus(t.plan, start[id])
  {
  }

  lemma MineIsNotSurplus(t: Target, c: Container)
    requires Mine(t, c)
    ensures !Surplus(t.plan, c)
  {
  }

  lemma ServedWithout(t: Target, cs: Table, gone: set<Id>, i: nat)
    requires Served(t, cs, i) && forall id | id in gone && id in cs :: !Mine(t, cs[id])
    ensures Served(t, cs - gone, i)
  {
    var id :| id in cs && cs[id].name == t.Name(i) && cs[id].phase == Running && Mine(t, cs[id]);
    assert id !in gone && (cs - gone)[id] == cs[id];
  }

  lemma Finished(t: Target, recreate: bool, start: Table, index: map<string, Listed>, cs: Table, gone: set<Id>)
    requires t.Ok() && Index(t, start, index) && gone <= SurplusIds(t.plan, index)
    requires Rounds(t, recreate, start, cs, t.plan.replicas + 1)
    ensures OnlyClaimed(t, start, cs - gone)
    ensures gone == SurplusIds(t.plan, index) ==> Settled(t, cs - gone)
  {
    forall id ensures id in SurplusIds(t.plan, index) <==>
                        id in start && InStack(t.stack, start[id]) && Surplus(t.plan, start[id])
    {
      SurplusIsListed(t, start, index, id);
    }
    assert forall id | id in gone && id in cs :: !Mine(t, cs[id]);
    forall i: nat | 1 <= i <= t.plan.replicas ensures Served(t, cs - gone, i) {
      assert Served(t, cs, i);
      ServedWithout(t, cs, gone, i);
    }
    forall id | id in cs && id !in start ensures !Surplus(t.plan, cs[id]) {
      MineIsNotSurplus(t, cs[id]);
    }
  }

  /** And it treated what it found as it should. */
  lemma FinishedTreats(t: Target, recreate: bool, start: Table, index: map<string, Listed>, cs: Table, gone: set<Id>)
    requires t.Ok() && Index(t, start, index) && Trusted(t, start) && gone <= SurplusIds(t.plan, index)
    requires Rounds(t, recreate, start, cs, t.plan.replicas + 1) && NewJoined(t, start, cs)
    ensures Spared(t, recreate, start, cs - gone)
    ensures Treated(t, recreate, start, cs - gone)
    ensures Retained(t, recreate, start, cs) ==> Retained(t, recreate, start, cs - gone)
  {
    forall id | id in start && Holds(t, start[id]) && UpToDate(t, recreate, start[id]) ensures id !in gone {
      SurplusIsListed(t, start, index, id);
      MineIsNotSurplus(t, start[id]);
    }
  }

  /** A settled service is seen as settled. */
  lemma SettledSeen(t: Target, start: Table, index: map<string, Listed>)
    requires Index(t, start, index) && Settled(t, start)
    ensures SurplusIds(t.plan, index) == {}
    ensures forall i: nat | 1 <= i <= t.plan.replicas :: SeenUp(t, index, i)
  {
    forall id ensures id !in SurplusIds(t.plan, index) { SurplusIsListed(t, start, index, id); }
    forall i: nat | 1 <= i <= t.plan.replicas ensures SeenUp(t, index, i) {
      assert Served(t, start, i);
      var id :| id in start && start[id].name == t.Name(i) && start[id].phase == Running && Mine(t, start[id]);
      assert Relevant(t, start[id]);
    }
  }

  lemma JoinedNext(t: Target, start: Table, cs: Table, after: Table)
    requires NewJoined(t, start, cs) && NewJoined(t, cs, after) && SameMake(cs, after)
    ensures NewJoined(t, start, after)
  {
  }

  /** What the rounds created bears the names they dealt with. */
  ghost predicate NewBelow(t: Target, start: Table, cs: Table, r: nat) {
    forall id | id in cs && id !in start :: Below(t, r, cs[id].name)
  }

  lemma NewBelowNext(t: Target, start: Table, cs: Table, after: Table, r: nat)
    requires r >= 1 && NewBelow(t, start, cs, r) && OnlyName(t.stack, t.Name(r), cs, after)
    ensures NewBelow(t, start, after, r + 1)
  {
  }

  /** On a clear table each round finds its name free or held by the container the
      listing shows for it. */
  lemma RoundYields(t: Target, start: Table, index: map<string, Listed>, cs: Table, r: nat)
    requires 1 <= r <= t.plan.replicas && Index(t, start, index) && Clear(t, start)
    requires SameMake(start, cs) && NewBelow(t, start, cs, r)
    ensures Yields(cs, IdOf(At(index, t.Name(r))), t.Name(r))
  {
    forall id | id in cs && cs[id].name == t.Name(r) ensures IdOf(At(index, t.Name(r))) == Some(id) {
      if id in start {
        assert start[id].name == t.Name(r) && Named(t, start[id].name);
        assert Relevant(t, start[id]);
      } else {
        var i: nat :| 1 <= i < r && cs[id].name == t.Name(i);
        ContainerNameInjective(t.stack, t.plan.name, i, t.plan.name, r);
      }
    }
  }

  /** A replica the listing shows up to date and running. */
  predicate SeenUp(t: Target, index: map<string, Listed>, replica: nat) {
    t.Name(replica) in index && SeenUpToDate(t, false, index[t.Name(replica)])
  }

  /** The loop invariant, whole. */
  ghost predicate Along(t: Target, recreate: bool, start: Table, cs: Table, r: nat) {
    Rounds(t, recreate, start, cs, r) && NewBelow(t, start, cs, r) && NewJoined(t, start, cs)
  }

  lemma Advance(t: Target, recreate: bool, start: Table, index: map<string, Listed>, cs: Table, after: Table, r: nat)
    requires 1 <= r <= t.plan.replicas && Index(t, start, index) && Along(t, recreate, start, cs, r)
    requires OnlyName(t.stack, t.Name(r), cs, after) && NewIsMine(t, cs, after) && Served(t, after, r)
    requires forall id | id in after && id !in cs :: id !in start
    requires Dealt(t, recreate, index, cs, after, r) && NewJoined(t, cs, after)
    ensures Along(t, recreate, start, after, r + 1)
  {
    NextRound(t, recreate, start, index, cs, after, r);
    NewBelowNext(t, start, cs, after, r);
    JoinedNext(t, start, cs, after);
  }

  /** What holds after a round, by how it ended. */
  ghost predicate RoundLeaves(t: Target, recreate: bool, start: Table, after: Table, r: nat, ok: bool) {
    && SameMake(start, after)
    && (if ok then Along(t, recreate, start, after, r + 1)
        else OnlyClaimed(t, start, after) && Spared(t, recreate, start, after))
  }

  lemma RoundOutcome(t: Target, recreate: bool, start: Table, index: map<string, Listed>, cs: Table, after: Table,
                     r: nat, ok: bool, reliable: bool)
    requires 1 <= r <= t.plan.replicas && Index(t, start, index) && Along(t, recreate, start, cs, r)
    requires Handled(t, recreate, At(index, t.Name(r)), r, cs, after, ok, reliable)
    requires forall id | id in after && id !in cs :: id !in start
    ensures RoundLeaves(t, recreate, start, after, r, ok)
    ensures reliable && Retained(t, recreate, start, cs) ==> Retained(t, recreate, start, after)
  {
    if reliable && Retained(t, recreate, start, cs) { RetainedNext(t, recreate, start, index, cs, after, r); }
    if ok {
      Advance(t, recreate, start, index, cs, after, r);
    } else {
      InterruptedRound(t, recreate, start, index, cs, after, r);
    }
  }

  /** One round, between the table the loop started from and now. */
  method Round(e: Engine, t: Target, recreate: bool, index: map<string, Listed>, replica: nat, ghost start: Table)
    returns (err: Option<Fault>)
    requires e.Valid() && t.Ok() && 1 <= replica <= t.plan.replicas
    requires Index(t, start, index) && Trusted(t, start) && forall id | id in start :: id < e.nextId
    requires Along(t, recreate, start, e.world.containers, replica)
    modifies e
    ensures e.Valid() && e.nextId >= old(e.nextId) && e.world == old(e.world).(containers := e.world.containers)
    ensures RoundLeaves(t, recreate, start, e.world.containers, replica, err.None?)
    ensures e.reliable && Retained(t, recreate, start, old(e.world.containers)) ==>
              Retained(t, recreate, start, e.world.containers)
    ensures forall id | id in e.world.containers && id !in old(e.world.containers) :: id >= old(e.nextId)
    ensures e.reliable && Clear(t, start) ==> err.None?
    ensures !recreate && SeenUp(t, index, replica) ==> err.None? && e.Kept()
  {
    ghost var cs := e.world.containers;
    if t.Name(replica) in index { SightedAt(t, recreate, start, index, cs, replica); }
    if Clear(t, start) { RoundYields(t, start, index, cs, replica); }
    err := UpReplica(e, t, recreate, At(index, t.Name(replica)), replica);
    RoundOutcome(t, recreate, start, index, cs, e.world.containers, replica, err.None?, e.reliable);
  }

  /** upService's loop over the replicas. */
  method UpReplicas(e: Engine, t: Target, recreate: bool, index: map<string, Listed>) returns (err: Option<Fault>)
    requires e.Valid() && t.Ok() && Index(t, e.world.containers, index) && Trusted(t, e.world.containers)
    modifies e
    ensures e.Valid() && e.world == old(e.world).(containers := e.world.containers)
    ensures SameMake(old(e.world.containers), e.world.containers)
    ensures err.Some? ==>
              && OnlyClaimed(t, old(e.world.containers), e.world.containers)
              && Spared(t, recreate, old(e.world.containers), e.world.containers)
    ensures err.None? ==> Rounds(t, recreate, old(e.world.containers), e.world.containers, t.plan.replicas + 1)
    ensures e.reliable ==> Retained(t, recreate, old(e.world.containers), e.world.containers)
    ensures e.nextId >= old(e.nextId)
    ensures forall id | id in e.world.containers && id !in old(e.world.containers) :: id >= old(e.nextId)
    ensures err.None? ==> NewJoined(t, old(e.world.containers), e.world.containers)
    ensures e.reliable && Clear(t, old(e.world.containers)) ==> err.None?
    ensures !recreate && Settled(t, old(e.world.containers)) ==> err.None? && e.Kept()
  {
    ghost var start := e.world.containers;
    ghost var quiet := !recreate && Settled(t, start);
    if quiet { SettledSeen(t, start, index); }
    FirstRound(t, recreate, start);
    var replica := 1;
    while replica <= t.plan.replicas
      invariant 1 <= replica <= t.plan.replicas + 1
      invariant e.Valid() && e.nextId >= old(e.nextId)
      invariant e.world == old(e.world).(containers := e.world.containers)
      invariant Along(t, recreate, start, e.world.containers, replica)
      invariant e.reliable ==> Retained(t, recreate, start, e.world.containers)
      invariant forall id | id in e.world.containers && id !in start :: id >= old(e.nextId)
      invariant quiet ==> e.Kept()
    {
      err := Round(e, t, recreate, index, replica, start);
      if err.Some? { return; }
      replica := replica + 1;
    }
    err := None;
  }

  /** Brings one service up, working from the listing `existing` of table `seen`. */
  method UpService(e: Engine, t: Target, recreate: bool, existing: seq<Listed>, ghost seen: Table)
    returns (err: Option<Fault>)
    requires e.Valid() && t.Ok() && Unique(seen) && IsListing(existing, seen, LABEL_PROJECT, t.stack)
    requires Accurate(t, seen, e.world.containers) && Trusted(t, e.world.containers)
    modifies e
    ensures e.Valid() && e.world == old(e.world).(containers := e.world.containers)
    ensures OnlyClaimed(t, old(e.world.containers), e.world.containers)
    ensures OutsideKept(t.stack, old(e.world.containers), e.world.containers)
    ensures SameMake(old(e.world.containers), e.world.containers)
    ensures err.None? ==> Settled(t, e.world.containers)
    ensures Spared(t, recreate, old(e.world.containers), e.world.containers)
    ensures err.None? ==> Treated(t, recreate, old(e.world.containers), e.world.containers)
    ensures err.None? && e.reliable ==> Retained(t, recreate, old(e.world.containers), e.world.containers)
    ensures e.nextId >= old(e.nextId)
    ensures forall id | id in e.world.containers && id !in old(e.world.containers) :: id >= old(e.nextId)
    ensures e.reliable && Clear(t, old(e.world.containers)) ==> err.None?
    ensures !recreate && Settled(t, old(e.world.containers)) ==> e.Kept()
  {
    // Pulling or building the image.
    if !e.reliable { if * { return Some(Other); } }
    ghost var start := e.world.containers;
    var index := IndexByName(existing);
    ListingIndexes(t, seen, start, existing, index);
    if !recreate && Settled(t, start) { SettledSeen(t, start, index); }
    err := UpReplicas(e, t, recreate, index);
    if err.Some? { return; }
    ghost var cs, gone := e.world.containers, {};
    err, gone := RemoveSurplus(e, t, index);
    Finished(t, recreate, start, index, cs, gone);
    FinishedTreats(t, recreate, start, index, cs, gone);
  }
}

/** Redeploying one container: stop, park under another name, recreate, start,
    then drop the parked original, with a rollback on the way
    (internal/service/stream.go). */
module Redeploy {
  import opened Text
  import opened Engine

  datatype Result = Result(newId: Option<Id>, rolledBack: bool)

  predicate RunsAs(t: Table, id: Id, name: string) {
    id in t && t[id].name == name && t[id].phase == Running
  }

  /** The promise kept at every step: the original is still there, or a running
      container has taken over its name. */
  predicate Covered(t: Table, original: Id, name: string) {
    original in t || exists id | id in t :: RunsAs(t, id, name)
  }

  /** Every state passed through since `from` is covered. */
  ghost predicate CoveredSince(trail: Trail, from: Trail, original: Id, name: string) {
    || trail == from
    || (&& trail.Step?
        && Covered(trail.now.containers, original, name)
        && CoveredSince(trail.before, from, original, name))
  }

  lemma {:induction false} CoveredAcross(a: Trail, b: Trail, c: Trail, original: Id, name: string)
    requires CoveredSince(b, a, original, name) && CoveredSince(c, b, original, name)
    ensures CoveredSince(c, a, original, name)
  {
    if c != b { CoveredAcross(a, b, c.before, original, name); }
  }

  ghost predicate SameExcept(t: Table, u: Table, touched: Id) {
    && t.Keys == u.Keys
    && (forall id | id in t && id != touched :: t[id] == u[id])
  }

  /** The original keeps its definition whatever happens to its name and phase. */
  predicate Intact(before: Table, after: Table, id: Id) {
    && id in before && id in after
    && after[id] == before[id].(name := after[id].name, phase := after[id].phase)
  }

  function Parked(name: string, stamp: string): string {
    name + "_old_" + stamp
  }

  method Rollback(e: Engine, ref: Ref, name: string, ghost original: Id) returns (restored: bool)
    requires e.Valid() && name != "" && original in e.world.containers
    requires ref == ById(original) || ref == ByName(name)
    modifies e
    ensures e.Valid() && e.nextId == old(e.nextId)
    ensures ref.ByName? || Taken(old(e.world.containers), name) ==> !restored && e.Kept()
    ensures ref.ById? && !Taken(old(e.world.containers), name) && !restored ==> e.faults > old(e.faults)
    ensures e.faults >= old(e.faults)
    ensures SameExcept(old(e.world.containers), e.world.containers, original)
    ensures Intact(old(e.world.containers), e.world.containers, original)
    ensures restored ==> RunsAs(e.world.containers, original, name)
    ensures !restored ==> e.world.containers[original].phase == old(e.world.containers)[original].phase
    ensures CoveredSince(e.trail, old(e.trail), original, name)
  {
    var renamed := e.Rename(ref, name);
    if renamed.Some? { return false; }
    var started := e.Start(ref);
    restored := started.None?;
  }

  /** Nobody but the original serves the name. */
  ghost predicate NoOtherServes(u: Table, original: Id, name: string) {
    forall id | id in u && RunsAs(u, id, name) :: id == original
  }

  /** What a failure leaves. The original's definition is in place and nobody else
      has taken over its name. It serves that name exactly when it was rolled back,
      or was running, was never stopped and has its name: a stop that worked before
      a rename that did not leaves nothing working. A rollback never works for a
      reference by name. */
  ghost predicate Failure(t: Table, u: Table, ref: Ref, original: Id, name: string, r: Result, stopped: bool) {
    && Intact(t, u, original) && r.newId.None? && NoOtherServes(u, original, name)
    && (RunsAs(u, original, name) <==>
          r.rolledBack || (!stopped && t[original].phase == Running && u[original].name == name))
    && (ref.ByName? ==> !r.rolledBack)
  }

  /** So that is when a failure leaves a working container at all. */
  lemma FailureWorksIff(t: Table, u: Table, ref: Ref, original: Id, name: string, r: Result, stopped: bool)
    requires original in t && Failure(t, u, ref, original, name, r, stopped)
    ensures (exists id | id in u :: RunsAs(u, id, name)) <==>
              r.rolledBack || (!stopped && t[original].phase == Running && u[original].name == name)
  {
    if id :| id in u && RunsAs(u, id, name) { assert id == original; }
  }

  /** What a success leaves: a new container that is running and otherwise what the
      original was as it was read, name, labels and networks. It is there exactly when
      the caller referred to the original by id, or the last removal failed. */
  ghost predicate Success(t: Table, u: Table, ref: Ref, original: Id, was: Container, r: Result,
                          cleanup: Option<Fault>)
  {
    && r.newId.Some? && r.newId.value !in t && !r.rolledBack
    && (r.newId.value in u <==> ref.ById? || cleanup.Some?)
    && (r.newId.value in u ==> u[r.newId.value] == was.(phase := Running))
    && (cleanup.None? ==> (original in u <==> ref.ByName?))
  }

  /** What one run may leave behind, for a caller who started from table `t`; `was` is
      the original as it was read and `stopped` tells whether it was stopped on the
      way. */
  ghost predicate Outcome(t: Table, u: Table, ref: Ref, original: Id, was: Container,
                          r: Result, err: Option<Fault>, cleanup: Option<Fault>, stopped: bool)
    requires original in t
  {
    && (if err.Some? then Failure(t, u, ref, original, was.name, r, stopped)
        else Success(t, u, ref, original, was, r, cleanup))
    // Nobody else is touched.
    && (forall id | id in t && id != original :: id in u && u[id] == t[id])
  }

  /** Giving up: the half-built replacement goes, if there is one and it can be
      removed, and the original is restored if it can be. */
  method GiveUp(e: Engine, ref: Ref, name: string, half: Option<Id>, ghost original: Id, ghost parked: Table)
    returns (restored: bool)
    requires e.Valid() && name != "" && original in parked && !Taken(parked, name)
    requires ref == ById(original) || ref == ByName(name)
    requires half.None? ==> e.world.containers == parked
    requires half.Some? ==> HalfBuilt(parked, e.world.containers, half.value, name)
    modifies e
    ensures e.Valid()
    ensures Failure(parked, e.world.containers, ref, original, name, Result(None, restored),
                    parked[original].phase != Running)
    ensures forall id | id in parked && id != original ::
              id in e.world.containers && e.world.containers[id] == parked[id]
    ensures CoveredSince(e.trail, old(e.trail), original, name)
    // By id only another fault is in the way.
    ensures ref.ById? && !restored ==> e.faults > old(e.faults)
    ensures e.faults >= old(e.faults)
  {
    if half.Some? {
      var removed := e.Remove(ById(half.value));
      assert removed.None? ==> e.world.containers == parked;
      assert removed.Some? ==> Taken(e.world.containers, name);
    }
    ghost var cleared, cs := e.trail, e.world.containers;
    assert CoveredSince(cleared, old(e.trail), original, name);
    restored := Rollback(e, ref, name, original);
    CoveredAcross(old(e.trail), cleared, e.trail, original, name);
    if !restored { NobodyServes(parked, cs, e.world.containers, half, original, name); }
  }

  /** The replacement is there and not running. */
  ghost predicate HalfBuilt(parked: Table, cs: Table, id: Id, name: string) {
    id !in parked && id in cs && cs == parked[id := cs[id]] && cs[id].name == name && cs[id].phase != Running
  }

  lemma NobodyServes(parked: Table, cs: Table, u: Table, half: Option<Id>, original: Id, name: string)
    requires original in parked && !Taken(parked, name)
    requires cs == parked || (half.Some? && HalfBuilt(parked, cs, half.value, name))
    requires SameExcept(cs, u, original)
    ensures NoOtherServes(u, original, name)
  {
  }

  /** The last removal, with the replacement up. */
  method Discard(e: Engine, ref: Ref, name: string, newId: Id, ghost original: Id) returns (cleanup: Option<Fault>)
    requires e.Valid() && original in e.world.containers && RunsAs(e.world.containers, newId, name)
    requires ref == ById(original) || ref == ByName(name)
    requires newId != original
    modifies e
    ensures e.Valid()
    ensures e.world.containers == old(e.world.containers) -
              if cleanup.Some? then {} else {if ref.ById? then original else newId}
    ensures CoveredSince(e.trail, old(e.trail), original, name)
    ensures e.reliable ==> cleanup.None?
  {
    assert Resolve(e.world.containers, ref) == Some(if ref.ById? then original else newId);
    cleanup := e.Remove(ref);
    assert ref.ById? ==> RunsAs(e.world.containers, newId, name);
  }

  /** Starting the replacement, then dropping it or the original. */
  method Launch(e: Engine, ref: Ref, was: Container, newId: Id, ghost original: Id, ghost parked: Table,
                ghost stopped: bool)
    returns (r: Result, err: Option<Fault>, cleanup: Option<Fault>)
    requires e.Valid() && was.name != "" && original in parked && !Taken(parked, was.name)
    requires ref == ById(original) || ref == ByName(was.name)
    requires newId !in parked && e.world.containers == parked[newId := was.(phase := Created)]
    requires stopped ==> parked[original].phase != Running
    modifies e
    ensures e.Valid()
    ensures Outcome(parked, e.world.containers, ref, original, was, r, err, cleanup, stopped)
    ensures CoveredSince(e.trail, old(e.trail), original, was.name)
    ensures e.reliable ==> err.None? && cleanup.None?
    ensures ref.ById? && err.Some? && !r.rolledBack ==> e.faults > old(e.faults) + 1
  {
    r, cleanup := Result(None, false), None;
    err := e.Start(ById(newId));
    if err.Some? {
      var restored := GiveUp(e, ref, was.name, Some(newId), original, parked);
      r := r.(rolledBack := restored);
      return;
    }
    r := r.(newId := Some(newId));
    ghost var started := e.trail;
    assert RunsAs(e.world.containers, newId, was.name);
    cleanup := Discard(e, ref, was.name, newId, original);
    CoveredAcross(old(e.trail), started, e.trail, original, was.name);
  }

  /** Redeploy from the moment the original is parked and its name is free; `spec`
      is what it was before. */
  method Replace(e: Engine, ref: Ref, spec: Container, ghost original: Id, ghost stopped: bool)
    returns (r: Result, err: Option<Fault>, cleanup: Option<Fault>)
    requires e.Valid() && spec.name != "" && original in e.world.containers
    requires ref == ById(original) || ref == ByName(spec.name)
    requires !Taken(e.world.containers, spec.name)
    requires e.world.containers[original].phase == (if stopped then Exited else spec.phase)
    modifies e
    ensures e.Valid()
    ensures Outcome(old(e.world.containers), e.world.containers, ref, original, spec, r, err, cleanup, stopped)
    ensures CoveredSince(e.trail, old(e.trail), original, spec.name)
    ensures e.reliable ==> err.None? && cleanup.None?
    ensures ref.ById? && err.Some? && !r.rolledBack ==> e.faults > old(e.faults) + 1
  {
    ghost var t := e.world.containers;
    var newId, createErr := e.Create(spec.name, spec.image, spec.labels, spec.body, spec.networks);
    if createErr.Some? {
      var restored := GiveUp(e, ref, spec.name, None, original, t);
      return Result(None, restored), createErr, None;
    }
    ghost var created := e.trail;
    r, err, cleanup := Launch(e, ref, spec, newId, original, t, stopped);
    CoveredAcross(old(e.trail), created, e.trail, original, spec.name);
  }

  /** Stops the original and frees its name; a container that is already stopped
      is no obstacle. */
  method Park(e: Engine, ref: Ref, stamp: string, original: Id) returns (err: Option<Fault>, ghost stopped: bool)
    requires e.Valid() && Resolve(e.world.containers, ref) == Some(original)
    modifies e
    ensures e.Valid()
    ensures SameExcept(old(e.world.containers), e.world.containers, original)
    ensures Intact(old(e.world.containers), e.world.containers, original)
    ensures err.None? ==>
              var name := old(e.world.containers)[original].name;
              !Taken(e.world.containers, name) && e.world.containers[original].name == name + "_old_" + stamp
    ensures e.reliable ==> stopped
    ensures err.Some? ==> e.world.containers[original].name == old(e.world.containers)[original].name
    ensures e.world.containers[original].phase ==
              if stopped then Exited else old(e.world.containers)[original].phase
    ensures CoveredSince(e.trail, old(e.trail), original, old(e.world.containers)[original].name)
    ensures e.reliable && !Taken(old(e.world.containers), Parked(old(e.world.containers)[original].name, stamp)) ==>
              err.None?
    ensures e.faults >= old(e.faults)
  {
    ghost var t := e.world.containers;
    var name := e.world.containers[original].name;
    err := e.Stop(ref);
    stopped := err.None?;
    if err.Some? && err.value != Conflict { return; }
    Stays(t, e.world.containers, ref, original);
    err := e.Rename(ref, Parked(name, stamp));
    if err.None? { NameFreed(t, e.world.containers, original); }
  }

  /** `cleanup` is the fault of the last removal, which the service only logs.
      The reference is resolved afresh by every engine call, so a reference by
      name stops meaning the original as soon as that is parked. */
  method Redeploy(e: Engine, ref: Ref, stamp: string)
    returns (r: Result, err: Option<Fault>, cleanup: Option<Fault>, ghost stopped: bool)
    requires e.Valid()
    modifies e
    ensures e.Valid()
    ensures Resolve(old(e.world.containers), ref).None? ==> err.Some? && e.Kept()
    ensures Resolve(old(e.world.containers), ref).Some? ==>
              var t := old(e.world.containers);
              var original := Resolve(t, ref).value;
              && Outcome(t, e.world.containers, ref, original, t[original], r, err, cleanup, stopped)
              && CoveredSince(e.trail, old(e.trail), original, t[original].name)
              && (e.reliable ==> stopped)
              // One fault is survived: referred to by id, the original is restored, unless
              // it was refused its new name, or a stop, in the first place.
              && (ref.ById? && err.Some? && e.faults <= old(e.faults) + 1 ==>
                    r.rolledBack || e.world.containers[original].name == t[original].name)
              && (e.reliable && !Taken(t, Parked(t[original].name, stamp)) ==> err.None? && cleanup.None?)
  {
    r, err, cleanup, stopped := Result(None, false), None, None, false;
    var target := Resolve(e.world.containers, ref);
    if target.None? { err := Some(NotFound); return; }
    if !e.reliable { if * { err := Some(Other); return; } }
    var spec := e.world.containers[target.value];
    err, stopped := Park(e, ref, stamp, target.value);
    if err.Some? { return; }
    ghost var parked := e.trail;
    r, err, cleanup := Replace(e, ref, spec, target.value, stopped);
    CoveredAcross(old(e.trail), parked, e.trail, target.value, spec.name);
  }

  lemma Stays(t: Table, u: Table, ref: Ref, id: Id)
    requires Unique(t) && Unique(u) && Resolve(t, ref) == Some(id)
    requires id in u && u[id].name == t[id].name
    ensures Resolve(u, ref) == Some(id)
  {
  }

  lemma NameFreed(t: Table, u: Table, id: Id)
    requires Unique(t) && id in t && id in u && u[id].name != t[id].name
    requires forall other | other in u && other != id :: other in t && t[other].name == u[other].name
    ensures !Taken(u, t[id].name)
  {
  }
}

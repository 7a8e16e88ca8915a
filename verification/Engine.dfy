/** The container engine as the services see it: a table of containers with
    unique names, plus networks and volumes. Unless the engine is reliable every
    call may fail without effect; a reliable one only refuses what cannot be
    done. `trail` records the state after each call that changed something, and
    `faults` counts the calls that failed although they could be done. */
module Engine {
  import opened Text

  type Id = nat

  datatype Phase = Created | Running | Exited

  /** `body` stands for the fields of a definition that deploying does not read. */
  datatype Container =
    Container(name: string, image: string, labels: map<string, string>, body: string, phase: Phase,
              networks: set<string>)

  type Table = map<Id, Container>

  datatype World = World(containers: Table, networks: set<string>, volumes: set<string>)

  /** The states passed through, latest first. */
  datatype Trail = Birth | Step(before: Trail, now: World)

  datatype Fault = NotFound | Conflict | Other

  /** What a caller passes where the engine expects a container: an id or a name. */
  datatype Ref = ById(id: Id) | ByName(name: string)

  datatype Listed = Listed(id: Id, container: Container)

  predicate Unique(t: Table) {
    forall a, b | a in t && b in t && t[a].name == t[b].name :: a == b
  }

  predicate Taken(t: Table, name: string) {
    exists id | id in t :: t[id].name == name
  }

  /** Go's map lookup: a missing label reads as the empty string. */
  function Label(c: Container, key: string): string {
    if key in c.labels then c.labels[key] else ""
  }

  function Resolve(t: Table, ref: Ref): Option<Id>
    requires Unique(t)
  {
    match ref
    case ById(id) => if id in t then Some(id) else None
    case ByName(name) =>
      if Taken(t, name) then
        var id :| id in t && t[id].name == name;
        Some(id)
      else None
  }

  class Engine {
    const reliable: bool
    var world: World
    var nextId: Id
    ghost var trail: Trail
    ghost var faults: nat

    ghost predicate Valid()
      reads this
    {
      && Unique(world.containers)
      && forall id | id in world.containers :: id < nextId && world.containers[id].name != ""
    }

    twostate predicate Kept()
      reads this
    {
      world == old(world) && nextId == old(nextId) && trail == old(trail)
    }

    twostate predicate Became(containers: Table)
      reads this
    {
      && world == old(world).(containers := containers)
      && nextId == old(nextId)
      && trail == Step(old(trail), world)
    }

    method Start(ref: Ref) returns (err: Option<Fault>)
      requires Valid()
      modifies this
      ensures Valid()
      ensures reliable && Resolve(old(world.containers), ref).Some? ==> err.None?
      ensures faults == old(faults) + if err.Some? && Resolve(old(world.containers), ref).Some? then 1 else 0
      ensures err.Some? ==> Kept()
      ensures err.None? ==>
                var t := old(world.containers);
                var target := Resolve(t, ref);
                target.Some? && Became(t[target.value := t[target.value].(phase := Running)])
    {
      err := SetPhase(ref, Running);
    }

    method Stop(ref: Ref) returns (err: Option<Fault>)
      requires Valid()
      modifies this
      ensures Valid()
      ensures reliable && Resolve(old(world.containers), ref).Some? ==> err.None?
      ensures faults == old(faults) + if err.Some? && Resolve(old(world.containers), ref).Some? then 1 else 0
      ensures err.Some? ==> Kept()
      ensures err.None? ==>
                var t := old(world.containers);
                var target := Resolve(t, ref);
                target.Some? && Became(t[target.value := t[target.value].(phase := Exited)])
    {
      err := SetPhase(ref, Exited);
    }

    method SetPhase(ref: Ref, phase: Phase) returns (err: Option<Fault>)
      requires Valid()
      modifies this
      ensures Valid()
      ensures reliable && Resolve(old(world.containers), ref).Some? ==> err.None?
      ensures faults == old(faults) + if err.Some? && Resolve(old(world.containers), ref).Some? then 1 else 0
      ensures err.Some? ==> Kept()
      ensures err.None? ==>
                var t := old(world.containers);
                var target := Resolve(t, ref);
                target.Some? && Became(t[target.value := t[target.value].(phase := phase)])
    {
      var t := world.containers;
      var target := Resolve(t, ref);
      if target.None? { return Some(NotFound); }
      if !reliable {
        if * {
          faults := faults + 1;
          if * { return Some(Conflict); } else { return Some(Other); }
        }
      }
      world := world.(containers := t[target.value := t[target.value].(phase := phase)]);
      trail := Step(trail, world);
      err := None;
    }

    /** Stops, then starts. A failure has no effect, or halts: it leaves the container
        stopped. */
    method Restart(ref: Ref) returns (err: Option<Fault>, ghost halted: bool)
      requires Valid()
      modifies this
      ensures Valid() && nextId == old(nextId)
      ensures reliable && Resolve(old(world.containers), ref).Some? ==> err.None?
      ensures err.Some? && !halted ==> Kept()
      ensures halted ==> err.Some?
      ensures err.None? || halted ==>
                var t := old(world.containers);
                var target := Resolve(t, ref);
                && target.Some?
                && var id := target.value;
                   var stopped := old(world).(containers := t[id := t[id].(phase := Exited)]);
                   && (halted ==> world == stopped && trail == Step(old(trail), stopped))
                   && (err.None? ==>
                         && world == old(world).(containers := t[id := t[id].(phase := Running)])
                         && trail == Step(Step(old(trail), stopped), world))
    {
      halted := false;
      var target := Resolve(world.containers, ref);
      if target.None? { return Some(NotFound), false; }
      err := SetPhase(ById(target.value), Exited);
      if err.Some? { return; }
      err := SetPhase(ById(target.value), Running);
      halted := err.Some?;
    }

    method Rename(ref: Ref, name: string) returns (err: Option<Fault>)
      requires Valid() && name != ""
      modifies this
      ensures Valid()
      ensures reliable && Resolve(old(world.containers), ref).Some? && !Taken(old(world.containers), name) ==> err.None?
      ensures faults == old(faults) +
                if err.Some? && Resolve(old(world.containers), ref).Some? && !Taken(old(world.containers), name)
                then 1 else 0
      ensures err.Some? ==> Kept()
      ensures err.None? ==>
                var t := old(world.containers);
                var target := Resolve(t, ref);
                && target.Some?
                && !Taken(t, name)
                && Became(t[target.value := t[target.value].(name := name)])
    {
      var t := world.containers;
      var target := Resolve(t, ref);
      if target.None? { return Some(NotFound); }
      if Taken(t, name) { return Some(Conflict); }
      if !reliable {
        if * {
          faults := faults + 1;
          return Some(Other);
        }
      }
      world := world.(containers := t[target.value := t[target.value].(name := name)]);
      trail := Step(trail, world);
      err := None;
    }

    /** Creates a stopped container; a name that is in use is refused. */
    method Create(name: string, image: string, labels: map<string, string>, body: string, networks: set<string>)
      returns (id: Id, err: Option<Fault>)
      requires Valid() && name != ""
      modifies this
      ensures Valid()
      ensures reliable && !Taken(old(world.containers), name) ==> err.None?
      ensures faults == old(faults) + if err.Some? && !Taken(old(world.containers), name) then 1 else 0
      ensures err.Some? ==> Kept()
      ensures Taken(old(world.containers), name) ==> err.Some?
      ensures err.None? ==>
                && id == old(nextId) && nextId == id + 1
                && world == old(world).(containers :=
                     old(world.containers)[id := Container(name, image, labels, body, Created, networks)])
                && trail == Step(old(trail), world)
    {
      id := nextId;
      if Taken(world.containers, name) { return id, Some(Conflict); }
      if !reliable {
        if * {
          faults := faults + 1;
          return id, Some(Other);
        }
      }
      nextId := nextId + 1;
      world := world.(containers :=
        world.containers[id := Container(name, image, labels, body, Created, networks)]);
      trail := Step(trail, world);
      err := None;
    }

    method Connect(network: string, id: Id) returns (err: Option<Fault>)
      requires Valid()
      modifies this
      ensures Valid()
      ensures reliable && id in old(world.containers) ==> err.None?
      ensures err.Some? ==> Kept()
      ensures err.None? ==>
                var t := old(world.containers);
                id in t && Became(t[id := t[id].(networks := t[id].networks + {network})])
    {
      var t := world.containers;
      if id !in t { return Some(NotFound); }
      if !reliable { if * { return Some(Other); } }
      world := world.(containers := t[id := t[id].(networks := t[id].networks + {network})]);
      trail := Step(trail, world);
      err := None;
    }

    /** Forced removal. */
    method Remove(ref: Ref) returns (err: Option<Fault>)
      requires Valid()
      modifies this
      ensures Valid()
      ensures reliable && Resolve(old(world.containers), ref).Some? ==> err.None?
      ensures faults == old(faults) + if err.Some? && Resolve(old(world.containers), ref).Some? then 1 else 0
      ensures err.Some? ==> Kept()
      ensures err == Some(NotFound) <==> Resolve(old(world.containers), ref).None?
      ensures err.None? ==> Became(old(world.containers) - {Resolve(old(world.containers), ref).value})
    {
      var target := Resolve(world.containers, ref);
      if target.None? { return Some(NotFound); }
      if !reliable {
        if * {
          faults := faults + 1;
          return Some(Other);
        }
      }
      world := world.(containers := world.containers - {target.value});
      trail := Step(trail, world);
      err := None;
    }

    method CreateNetwork(name: string) returns (err: Option<Fault>)
      requires Valid()
      modifies this
      ensures Valid()
      ensures reliable ==> err.None?
      ensures err.Some? ==> Kept()
      ensures err.None? ==>
                && world == old(world).(networks := old(world.networks) + {name})
                && nextId == old(nextId) && trail == Step(old(trail), world)
    {
      if !reliable { if * { return Some(Other); } }
      world := world.(networks := world.networks + {name});
      trail := Step(trail, world);
      err := None;
    }

    method CreateVolume(name: string) returns (err: Option<Fault>)
      requires Valid()
      modifies this
      ensures Valid()
      ensures reliable ==> err.None?
      ensures err.Some? ==> Kept()
      ensures err.None? ==>
                && world == old(world).(volumes := old(world.volumes) + {name})
                && nextId == old(nextId) && trail == Step(old(trail), world)
    {
      if !reliable { if * { return Some(Other); } }
      world := world.(volumes := world.volumes + {name});
      trail := Step(trail, world);
      err := None;
    }

    /** Every container carrying a label value, in whatever order the engine likes. */
    method List(key: string, value: string) returns (r: Option<seq<Listed>>)
      requires Valid()
      ensures r.Some? ==> IsListing(r.value, world.containers, key, value)
      ensures reliable ==> r.Some?
    {
      if !reliable { if * { return None; } }
      var t := world.containers;
      var todo := set id | id in t && Label(t[id], key) == value;
      var out: seq<Listed> := [];
      while todo != {}
        invariant forall id | id in todo :: id in t && Label(t[id], key) == value
        invariant forall x | x in out ::
            x.id !in todo && x.id in t && x.container == t[x.id] && Label(x.container, key) == value
        invariant forall i, j | 0 <= i < j < |out| :: out[i].id != out[j].id
        invariant forall id | id in t && Label(t[id], key) == value :: id in todo || Listed(id, t[id]) in out
        decreases todo
      {
        var id :| id in todo;
        todo := todo - {id};
        out := out + [Listed(id, t[id])];
      }
      r := Some(out);
    }
  }

  /** A listing holds exactly the matching containers, each once. */
  ghost predicate IsListing(l: seq<Listed>, t: Table, key: string, value: string) {
    && (forall i, j | 0 <= i < j < |l| :: l[i].id != l[j].id)
    && (forall i | 0 <= i < |l| ::
          && l[i].id in t && l[i].container == t[l[i].id]
          && Label(l[i].container, key) == value)
    && (forall id | id in t && Label(t[id], key) == value :: Listed(id, t[id]) in l)
  }
}

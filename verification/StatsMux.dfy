/** The fan-in of container statistics (internal/service/statsall.go): one owner,
    one follower per running container, a wait group and a channel they share. */
module StatsMux {
  /** Where a follower is: reading its stream, sending a sample, about to call
      forget, returned from follow, or counted out of the wait group. */
  datatype Place = Reading | Sending | Forgetting | Returned | Gone

  /** `cancelled` is the follower's own context; the caller's context ends it too. */
  datatype Follower = Follower(id: string, cancelled: bool, at: Place)

  /** What the lock guards, plus the wait group. */
  datatype Shared =
    Shared(watching: map<string, nat>, followers: map<nat, Follower>, nextF: nat, waitGroup: int)

  datatype Owner = Scanning(first: bool) | Ticking | Stopping | Waiting | Closed

  /** `closes` counts how often the channel was closed; a send on a closed
      channel would panic. */
  datatype World = World(owner: Owner, shared: Shared, callerDone: bool, closes: nat, panicked: bool)

  datatype Step =
    | CallerLeaves
    | ScanWorks(live: set<string>) | ScanFails | Tick | Leave | StopAll | CloseOut
    | Sample(f: nat) | Send(f: nat) | Quit(f: nat) | StreamEnds(f: nat) | Forget(f: nat) | CountOut(f: nat)

  function Moved(s: Shared, f: nat, at: Place): Shared
    requires f in s.followers
  {
    s.(followers := s.followers[f := s.followers[f].(at := at)])
  }

  /** rescan's locked part: streams of containers that are gone are cancelled and
      dropped, one is started per container that appeared. */
  ghost predicate Rescanned(s: Shared, live: set<string>, s': Shared) {
    && s'.watching.Keys == live
    && (forall id | id in live && id in s.watching :: s'.watching[id] == s.watching[id])
    && (forall f | f in s.followers :: f in s'.followers && s'.followers[f] ==
          if Dropped(s, live, f) then s.followers[f].(cancelled := true) else s.followers[f])
    && (forall f | f in s'.followers && f !in s.followers :: Joined(s, live, s', f))
    && (forall id | id in live && id !in s.watching ::
          s'.watching[id] in s'.followers && s'.watching[id] !in s.followers && s'.followers[s'.watching[id]].id == id)
    && s.nextF <= s'.nextF && s'.waitGroup == s.waitGroup + (s'.nextF - s.nextF)
    && (forall f | s.nextF <= f < s'.nextF :: f in s'.followers)
  }

  ghost predicate Dropped(s: Shared, live: set<string>, f: nat) {
    exists id | id in s.watching :: id !in live && s.watching[id] == f
  }

  ghost predicate Joined(s: Shared, live: set<string>, s': Shared, f: nat)
    requires f in s'.followers && s'.watching.Keys == live
  {
    var follower := s'.followers[f];
    && s.nextF <= f < s'.nextF && follower.at == Reading && !follower.cancelled
    && follower.id in live && follower.id !in s.watching && s'.watching[follower.id] == f
  }

  /** forget: drops whatever stream the container has now. */
  function Forgotten(s: Shared, id: string): Shared {
    if id in s.watching && s.watching[id] in s.followers then
      var f := s.watching[id];
      s.(watching := s.watching - {id}, followers := s.followers[f := s.followers[f].(cancelled := true)])
    else s
  }

  /** stopAll: cancels and drops every stream. */
  ghost predicate Emptied(s: Shared, s': Shared) {
    && s'.watching == map[] && s'.nextF == s.nextF && s'.waitGroup == s.waitGroup
    && s'.followers.Keys == s.followers.Keys
    && forall f | f in s.followers :: s'.followers[f] ==
         if Dropped(s, {}, f) then s.followers[f].(cancelled := true) else s.followers[f]
  }

  predicate ContextDone(w: World, f: nat)
    requires f in w.shared.followers
  {
    w.shared.followers[f].cancelled || w.callerDone
  }

  predicate Is(w: World, f: nat, at: Place) {
    f in w.shared.followers && w.shared.followers[f].at == at
  }

  /** Every interleaving of the owner, the followers and the caller. */
  ghost predicate Moves(w: World, step: Step, w': World) {
    match step
    case CallerLeaves => w' == w.(callerDone := true)
    case ScanWorks(live) =>
      && w.owner.Scanning? && Rescanned(w.shared, live, w'.shared)
      && w' == w.(owner := Ticking, shared := w'.shared)
    case ScanFails => w.owner.Scanning? && w' == w.(owner := if w.owner.first then Stopping else Ticking)
    case Tick => w.owner.Ticking? && w' == w.(owner := Scanning(false))
    case Leave => w.owner.Ticking? && w.callerDone && w' == w.(owner := Stopping)
    case StopAll =>
      && w.owner.Stopping? && Emptied(w.shared, w'.shared)
      && w' == w.(owner := Waiting, shared := w'.shared)
    case CloseOut =>
      w.owner.Waiting? && w.shared.waitGroup == 0 && w' == w.(owner := Closed, closes := w.closes + 1)
    case Sample(f) => Is(w, f, Reading) && w' == w.(shared := Moved(w.shared, f, Sending))
    case Send(f) =>
      Is(w, f, Sending)
      && w' == w.(shared := Moved(w.shared, f, Reading), panicked := w.panicked || w.closes > 0)
    case Quit(f) =>
      (Is(w, f, Reading) || Is(w, f, Sending)) && ContextDone(w, f)
      && w' == w.(shared := Moved(w.shared, f, Returned))
    case StreamEnds(f) => Is(w, f, Reading) && w' == w.(shared := Moved(w.shared, f, Forgetting))
    case Forget(f) =>
      Is(w, f, Forgetting)
      && w' == w.(shared := Moved(Forgotten(w.shared, w.shared.followers[f].id), f, Returned))
    case CountOut(f) =>
      Is(w, f, Returned)
      && w' == w.(shared := Moved(w.shared, f, Gone).(waitGroup := w.shared.waitGroup - 1))
  }

  function Active(s: Shared): set<nat> {
    set f | f in s.followers && s.followers[f].at != Gone
  }

  /** The lock's invariant: the watched followers are exactly the uncancelled
      ones, and the wait group counts those not counted out. */
  ghost predicate Consistent(s: Shared) {
    && (forall id | id in s.watching :: Watched(s, id))
    && (forall f | f in s.followers :: f < s.nextF && (!s.followers[f].cancelled ==> IsWatched(s, f)))
    && s.waitGroup == |Active(s)|
  }

  predicate Watched(s: Shared, id: string)
    requires id in s.watching
  {
    var f := s.watching[id];
    f in s.followers && s.followers[f].id == id && !s.followers[f].cancelled
  }

  predicate IsWatched(s: Shared, f: nat)
    requires f in s.followers
  {
    s.followers[f].id in s.watching && s.watching[s.followers[f].id] == f
  }

  /** Until it is cancelled a follower is at its stream, or about to give it up. */
  predicate Attends(follower: Follower) {
    !follower.cancelled ==> follower.at == Reading || follower.at == Sending || follower.at == Forgetting
  }

  ghost predicate Inv(w: World) {
    && Consistent(w.shared)
    && (w.owner.Waiting? || w.owner.Closed? ==> w.shared.watching == map[])
    && w.closes == (if w.owner.Closed? then 1 else 0)
    && (w.owner.Closed? ==> w.shared.waitGroup == 0)
    && !w.panicked
    && (!w.callerDone ==> forall f | f in w.shared.followers :: Attends(w.shared.followers[f]))
  }

  lemma RescanAttends(s: Shared, live: set<string>, s': Shared)
    requires Rescanned(s, live, s') && forall f | f in s.followers :: Attends(s.followers[f])
    ensures forall f | f in s'.followers :: Attends(s'.followers[f])
  {
    forall f | f in s'.followers ensures Attends(s'.followers[f]) {
      if f !in s.followers { assert Joined(s, live, s', f); }
    }
  }

  /** Whoever forgets is cancelled, by itself or before. */
  lemma ForgetCancels(s: Shared, f: nat)
    requires Consistent(s) && f in s.followers
    ensures f in Forgotten(s, s.followers[f].id).followers
    ensures Forgotten(s, s.followers[f].id).followers[f].cancelled
    ensures forall g | g in s.followers && !Forgotten(s, s.followers[f].id).followers[g].cancelled ::
              Forgotten(s, s.followers[f].id).followers[g] == s.followers[g]
  {
    assert !s.followers[f].cancelled ==> IsWatched(s, f);
  }

  lemma RescanWatches(s: Shared, live: set<string>, s': Shared, id: string)
    requires Consistent(s) && Rescanned(s, live, s') && id in live
    ensures Watched(s', id)
  {
    if id in s.watching {
      forall other | other in s.watching && s.watching[other] == s.watching[id] ensures other == id {
        assert Watched(s, other) && Watched(s, id);
      }
      assert Watched(s, id) && !Dropped(s, live, s.watching[id]);
    } else {
      assert Joined(s, live, s', s'.watching[id]);
    }
  }

  lemma RescanTracks(s: Shared, live: set<string>, s': Shared, f: nat)
    requires Consistent(s) && Rescanned(s, live, s') && f in s'.followers
    ensures f < s'.nextF && (!s'.followers[f].cancelled ==> IsWatched(s', f))
  {
    if f !in s.followers {
      assert Joined(s, live, s', f);
    } else if !s'.followers[f].cancelled {
      assert IsWatched(s, f);
    }
  }

  lemma RescanConsistent(s: Shared, live: set<string>, s': Shared)
    requires Consistent(s) && Rescanned(s, live, s')
    ensures Consistent(s')
  {
    forall id | id in s'.watching ensures Watched(s', id) { RescanWatches(s, live, s', id); }
    forall f | f in s'.followers ensures f < s'.nextF && (!s'.followers[f].cancelled ==> IsWatched(s', f)) {
      RescanTracks(s, live, s', f);
    }
    RescanCounts(s, live, s');
  }

  lemma RescanCounts(s: Shared, live: set<string>, s': Shared)
    requires Consistent(s) && Rescanned(s, live, s')
    ensures |Active(s')| == |Active(s)| + (s'.nextF - s.nextF)
  {
    forall f | f in s'.followers && f !in s.followers ensures s'.followers[f].at == Reading && s.nextF <= f < s'.nextF {
      assert Joined(s, live, s', f);
    }
    MoreActive(s, s');
  }

  lemma MoreActive(s: Shared, s': Shared)
    requires s.nextF <= s'.nextF && forall f | f in s.followers :: f < s.nextF
    requires forall f | f in s.followers :: f in s'.followers && s'.followers[f].at == s.followers[f].at
    requires forall f | f in s'.followers && f !in s.followers :: s'.followers[f].at != Gone && s.nextF <= f < s'.nextF
    requires forall f | s.nextF <= f < s'.nextF :: f in s'.followers
    ensures |Active(s')| == |Active(s)| + (s'.nextF - s.nextF)
  {
    var joined := Interval(s.nextF, s'.nextF);
    forall f ensures f in Active(s') <==> f in Active(s) || f in joined {}
    assert Active(s') == Active(s) + joined;
  }

  ghost function Interval(a: nat, b: nat): (r: set<nat>)
    requires a <= b
    ensures forall f :: f in r <==> a <= f < b
    ensures |r| == b - a
    decreases b
  {
    if a == b then {} else Interval(a, b - 1) + {b - 1}
  }

  lemma EmptiedConsistent(s: Shared, s': Shared)
    requires Consistent(s) && Emptied(s, s')
    ensures Consistent(s')
  {
    forall f | f in s'.followers ensures s'.followers[f].cancelled {
      if !s.followers[f].cancelled { assert IsWatched(s, f); }
    }
    assert Active(s') == Active(s);
  }

  lemma ForgottenConsistent(s: Shared, id: string)
    requires Consistent(s)
    ensures Consistent(Forgotten(s, id)) && Forgotten(s, id).followers.Keys == s.followers.Keys
    ensures forall f | f in s.followers :: Forgotten(s, id).followers[f].at == s.followers[f].at
  {
    var s' := Forgotten(s, id);
    forall x | x in s'.watching ensures Watched(s', x) { assert Watched(s, x); }
    forall f | f in s'.followers && !s'.followers[f].cancelled ensures IsWatched(s', f) {
      assert IsWatched(s, f);
      assert id in s.watching ==> Watched(s, id);
    }
    assert Active(s') == Active(s);
  }

  lemma MovedConsistent(s: Shared, f: nat, at: Place)
    requires Consistent(s) && f in s.followers && s.followers[f].at != Gone
    ensures at != Gone ==> Consistent(Moved(s, f, at))
    ensures at == Gone ==> Consistent(Moved(s, f, at).(waitGroup := s.waitGroup - 1))
  {
    var s' := Moved(s, f, at);
    forall x | x in s'.watching ensures Watched(s', x) { assert Watched(s, x); }
    forall g | g in s'.followers && !s'.followers[g].cancelled ensures IsWatched(s', g) {
      assert IsWatched(s, g);
    }
    if at == Gone {
      assert Active(s') == Active(s) - {f};
    } else {
      assert Active(s') == Active(s);
    }
  }

  lemma NoneActive(s: Shared, f: nat)
    requires Consistent(s) && s.waitGroup == 0 && f in s.followers
    ensures s.followers[f].at == Gone
  {
    assert f !in Active(s);
  }

  lemma StepKeepsInv(w: World, step: Step, w': World)
    requires Inv(w) && Moves(w, step, w')
    ensures Inv(w')
  {
    match step
    case ScanWorks(live) =>
      RescanConsistent(w.shared, live, w'.shared);
      if !w.callerDone { RescanAttends(w.shared, live, w'.shared); }
    case StopAll => EmptiedConsistent(w.shared, w'.shared);
    case Sample(f) => MovedConsistent(w.shared, f, Sending);
    case Send(f) =>
      MovedConsistent(w.shared, f, Reading);
      if w.closes > 0 { NoneActive(w.shared, f); }
    case Quit(f) => MovedConsistent(w.shared, f, Returned);
    case StreamEnds(f) => MovedConsistent(w.shared, f, Forgetting);
    case Forget(f) =>
      ForgottenConsistent(w.shared, w.shared.followers[f].id);
      ForgetCancels(w.shared, f);
      MovedConsistent(Forgotten(w.shared, w.shared.followers[f].id), f, Returned);
    case CountOut(f) =>
      MovedConsistent(w.shared, f, Gone);
      if w.owner.Closed? { NoneActive(w.shared, f); }
    case _ =>
  }

  function Begin(): World {
    World(Scanning(true), Shared(map[], map[], 0, 0), false, 0, false)
  }

  ghost predicate IsRun(states: seq<World>, steps: seq<Step>) {
    && |states| == |steps| + 1 && states[0] == Begin()
    && forall i | 0 <= i < |steps| :: Moves(states[i], steps[i], states[i + 1])
  }

  lemma {:induction false} RunKeepsInv(states: seq<World>, steps: seq<Step>, i: nat)
    requires IsRun(states, steps) && i < |states|
    ensures Inv(states[i])
  {
    if i > 0 {
      RunKeepsInv(states, steps, i - 1);
      StepKeepsInv(states[i - 1], steps[i - 1], states[i]);
    } else {
      assert Active(Begin().shared) == {};
    }
  }

  /** In every interleaving: no send after the close, one close at most and only
      once every follower is counted out, and one uncancelled follower per
      container at most. */
  lemma FanInIsSafe(states: seq<World>, steps: seq<Step>, i: nat)
    requires IsRun(states, steps) && i < |states|
    ensures !states[i].panicked && states[i].closes <= 1
    ensures states[i].closes > 0 ==>
              forall f | f in states[i].shared.followers :: states[i].shared.followers[f].at == Gone
    ensures var fs := states[i].shared.followers;
            forall f, g | f in fs && g in fs && !fs[f].cancelled && !fs[g].cancelled && fs[f].id == fs[g].id :: f == g
  {
    RunKeepsInv(states, steps, i);
    var s := states[i].shared;
    if states[i].closes > 0 {
      forall f | f in s.followers ensures s.followers[f].at == Gone { NoneActive(s, f); }
    }
    assert forall f | f in s.followers && !s.followers[f].cancelled :: IsWatched(s, f);
  }

  predicate Streams(s: Shared, id: string) {
    && id in s.watching && s.watching[id] in s.followers
    && s.followers[s.watching[id]].at in {Reading, Sending, Forgetting}
  }

  /** Right after a scan, the watched containers are exactly the running ones, and
      each is watched by its own uncancelled follower, whatever late forgets did
      before. As long as the caller is there, that follower is at its stream: one whose
      stream ended was replaced, unless it has yet to say so. */
  lemma ScanWatchesTheRunning(states: seq<World>, steps: seq<Step>, i: nat)
    requires IsRun(states, steps) && i < |steps| && steps[i].ScanWorks?
    ensures states[i + 1].shared.watching.Keys == steps[i].live
    ensures forall id | id in steps[i].live :: Watched(states[i + 1].shared, id)
    ensures !states[i].callerDone ==> forall id | id in steps[i].live :: Streams(states[i + 1].shared, id)
  {
    RunKeepsInv(states, steps, i + 1);
    assert Moves(states[i], steps[i], states[i + 1]);
  }

  ghost predicate Reaches(w: World, end: World, n: nat)
    decreases n
  {
    if n == 0 then w == end else exists step, mid :: Moves(w, step, mid) && Reaches(mid, end, n - 1)
  }

  /** The step by which a cancelled follower leaves. */
  lemma LeavesOnce(w: World, f: nat) returns (step: Step, mid: World)
    requires Inv(w) && w.owner.Waiting? && f in Active(w.shared) && w.shared.followers[f].at != Returned
    ensures Moves(w, step, mid) && Inv(mid) && mid.owner.Waiting? && Is(mid, f, Returned)
    ensures mid.shared.waitGroup == w.shared.waitGroup
  {
    if w.shared.followers[f].at == Forgetting {
      step, mid := Forget(f), w.(shared := Moved(Forgotten(w.shared, w.shared.followers[f].id), f, Returned));
    } else {
      step, mid := Quit(f), w.(shared := Moved(w.shared, f, Returned));
    }
    StepKeepsInv(w, step, mid);
  }

  /** The owner's wait always has an end in reach: stopping cancelled every
      follower that is left, so each can leave, and then the channel is closed. */
  lemma {:induction false} WaitCanEnd(w: World) returns (n: nat, end: World)
    requires Inv(w) && w.owner.Waiting?
    ensures Reaches(w, end, n) && end.owner.Closed?
    decreases w.shared.waitGroup, 1
  {
    if w.shared.waitGroup == 0 {
      n, end := 1, w.(owner := Closed, closes := w.closes + 1);
      assert Moves(w, CloseOut, end) && Reaches(end, end, 0);
    } else {
      var f :| f in Active(w.shared);
      if w.shared.followers[f].at == Returned {
        n, end := CountsOut(w, f);
      } else {
        var step, mid := LeavesOnce(w, f);
        n, end := CountsOut(mid, f);
        n := n + 1;
      }
    }
  }

  lemma {:induction false} CountsOut(w: World, f: nat) returns (n: nat, end: World)
    requires Inv(w) && w.owner.Waiting? && Is(w, f, Returned)
    ensures Reaches(w, end, n) && end.owner.Closed?
    decreases w.shared.waitGroup, 0
  {
    var out := w.(shared := Moved(w.shared, f, Gone).(waitGroup := w.shared.waitGroup - 1));
    assert Moves(w, CountOut(f), out);
    StepKeepsInv(w, CountOut(f), out);
    assert f in Active(w.shared);
    n, end := WaitCanEnd(out);
    n := n + 1;
  }

  ghost predicate DroppedBut(s: Shared, live: set<string>, todo: set<string>, f: nat) {
    exists id | id in s.watching :: id !in live && id !in todo && s.watching[id] == f
  }

  /** Half way through dropping: `todo` is still to be looked at. */
  ghost predicate Dropping(s: Shared, live: set<string>, todo: set<string>, t: Shared) {
    && t.nextF == s.nextF && t.waitGroup == s.waitGroup && t.followers.Keys == s.followers.Keys
    && (forall id | id in t.watching :: id in s.watching && t.watching[id] == s.watching[id])
    && (forall id | id in s.watching :: id in t.watching <==> id in live || id in todo)
    && (forall f | f in s.followers :: t.followers[f] ==
          if DroppedBut(s, live, todo, f) then s.followers[f].(cancelled := true) else s.followers[f])
  }

  function Cancelled(s: Shared, id: string): Shared
    requires id in s.watching && s.watching[id] in s.followers
  {
    var f := s.watching[id];
    s.(watching := s.watching - {id}, followers := s.followers[f := s.followers[f].(cancelled := true)])
  }

  lemma DropNext(s: Shared, live: set<string>, todo: set<string>, t: Shared, id: string)
    requires Consistent(s) && Dropping(s, live, todo, t) && id in todo && id in s.watching
    ensures id in live ==> Dropping(s, live, todo - {id}, t)
    ensures id !in live ==> id in t.watching && t.watching[id] in t.followers
                            && Dropping(s, live, todo - {id}, Cancelled(t, id))
  {
    assert Watched(s, id);
    forall f ensures DroppedBut(s, live, todo - {id}, f) <==>
                       DroppedBut(s, live, todo, f) || (id !in live && s.watching[id] == f) {}
  }

  /** Cancels and drops the streams of containers that are not live. */
  method DropDead(s: Shared, live: set<string>) returns (t: Shared)
    requires Consistent(s)
    ensures Dropping(s, live, {}, t)
  {
    t := s;
    var todo := s.watching.Keys;
    while todo != {}
      invariant todo <= s.watching.Keys && Dropping(s, live, todo, t)
      decreases todo
    {
      var id :| id in todo;
      DropNext(s, live, todo, t, id);
      todo := todo - {id};
      if id !in live { t := Cancelled(t, id); }
    }
  }

  /** Half way through starting the streams of containers that appeared. */
  ghost predicate Starting(kept: Shared, live: set<string>, todo: set<string>, t: Shared) {
    && kept.nextF <= t.nextF && t.watching.Keys <= live
    && (forall id | id in live && id !in todo :: id in t.watching)
    && (forall id | id in t.watching :: Assigned(kept, t, id))
    && (forall id | id in kept.watching :: id in t.watching)
    && Grown(kept, t)
  }

  ghost predicate Grown(kept: Shared, t: Shared) {
    && (forall f | f in kept.followers :: f in t.followers && t.followers[f] == kept.followers[f])
    && (forall f | f in t.followers && f !in kept.followers :: Started(kept, t, f))
    && t.waitGroup == kept.waitGroup + (t.nextF - kept.nextF)
    && (forall f | kept.nextF <= f < t.nextF :: f in t.followers)
  }

  ghost predicate Assigned(kept: Shared, t: Shared, id: string)
    requires id in t.watching
  {
    var f := t.watching[id];
    if id in kept.watching then f == kept.watching[id]
    else f in t.followers && f !in kept.followers && t.followers[f].id == id
  }

  ghost predicate Started(kept: Shared, t: Shared, f: nat)
    requires f in t.followers
  {
    var follower := t.followers[f];
    && kept.nextF <= f < t.nextF && follower.at == Reading && !follower.cancelled
    && follower.id in t.watching && follower.id !in kept.watching && t.watching[follower.id] == f
  }

  function Following(t: Shared, id: string): Shared {
    Shared(t.watching[id := t.nextF], t.followers[t.nextF := Follower(id, false, Reading)],
           t.nextF + 1, t.waitGroup + 1)
  }

  lemma GrowNext(kept: Shared, t: Shared, id: string)
    requires Grown(kept, t) && kept.nextF <= t.nextF && id !in t.watching && id !in kept.watching
    requires forall f | f in kept.followers :: f < kept.nextF
    ensures Grown(kept, Following(t, id)) && t.nextF !in t.followers && t.nextF !in kept.followers
  {
    var u := Following(t, id);
    forall f | f in u.followers && f !in kept.followers ensures Started(kept, u, f) {
      if f != t.nextF { assert Started(kept, t, f); }
    }
  }

  lemma StartNext(kept: Shared, live: set<string>, todo: set<string>, t: Shared, id: string)
    requires Starting(kept, live, todo, t) && id in todo && id in live && id !in t.watching
    requires forall f | f in kept.followers :: f < kept.nextF
    ensures Starting(kept, live, todo - {id}, Following(t, id))
  {
    var u := Following(t, id);
    GrowNext(kept, t, id);
    forall x | x in u.watching ensures Assigned(kept, u, x) {
      if x != id { assert Assigned(kept, t, x); }
    }
  }

  lemma RescanDone(s: Shared, kept: Shared, live: set<string>, t: Shared)
    requires Dropping(s, live, {}, kept) && Starting(kept, live, {}, t)
    requires forall f | f in s.followers :: f < s.nextF
    ensures Rescanned(s, live, t)
  {
    forall f ensures DroppedBut(s, live, {}, f) <==> Dropped(s, live, f) {}
    forall f | f in t.followers && f !in s.followers ensures Joined(s, live, t, f) {
      assert Started(kept, t, f);
    }
    forall id | id in live ensures id in t.watching && Assigned(kept, t, id) {}
  }

  /** The object: rescan, forget and stopAll as the source runs them. */
  class Mux {
    var shared: Shared

    constructor ()
      ensures shared == Begin().shared
    {
      shared := Shared(map[], map[], 0, 0);
    }

    method Forget(id: string)
      requires Consistent(shared)
      modifies this
      ensures shared == Forgotten(old(shared), id) && Consistent(shared)
      ensures shared.watching == old(shared.watching) - {id}
      ensures forall f | f in old(shared.followers) :: f in shared.followers && shared.followers[f] ==
                if id in old(shared.watching) && old(shared.watching)[id] == f
                then old(shared.followers)[f].(cancelled := true) else old(shared.followers)[f]
    {
      ForgottenConsistent(shared, id);
      if id in shared.watching {
        assert Watched(shared, id);
        shared := Cancelled(shared, id);
      }
    }

    method StopAll()
      requires Consistent(shared)
      modifies this
      ensures Emptied(old(shared), shared) && Consistent(shared)
    {
      shared := DropDead(shared, {});
      forall f ensures DroppedBut(old(shared), {}, {}, f) <==> Dropped(old(shared), {}, f) {}
      EmptiedConsistent(old(shared), shared);
    }

    /** The locked part of rescan, given what the engine listed. */
    method Rescan(live: set<string>)
      requires Consistent(shared)
      modifies this
      ensures Rescanned(old(shared), live, shared) && Consistent(shared)
    {
      ghost var s := shared;
      shared := DropDead(shared, live);
      ghost var kept := shared;
      var todo := live;
      while todo != {}
        invariant todo <= live && Starting(kept, live, todo, shared)
        decreases todo
      {
        var id :| id in todo;
        if id !in shared.watching {
          StartNext(kept, live, todo, shared, id);
          shared := Following(shared, id);
        }
        todo := todo - {id};
      }
      RescanDone(s, kept, live, shared);
      RescanConsistent(s, live, shared);
    }
  }
}

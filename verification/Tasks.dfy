/** The registry of long-running operations (internal/service/tasks.go). Every
    method runs under one lock, so a run is a sequence of whole steps. */
module Tasks {
  import opened Sorting

  datatype TaskState = Running | Succeeded | Failed | Canceled

  predicate Terminal(s: TaskState) {
    s != Running
  }

  /** `ctx` names the context handed out at the start, which `cancel` ends. */
  datatype Task =
    Task(id: string, kind: string, target: string, state: TaskState, progress: int, message: string,
         error: string, username: string, startedAt: int, finishedAt: int, cancelable: bool, ctx: nat)

  type Tracked = map<string, Task>

  datatype Registry = Registry(tasks: Tracked, cancelled: set<nat>, nextCtx: nat)

  /** How the work ended, as Finish is told. */
  datatype Ending = Fine | Interrupted | Broken(message: string)

  datatype Action =
    | Start(id: string, kind: string, target: string, username: string)
    | Progress(id: string, percent: int, message: string)
    | Finish(id: string, ending: Ending)
    | Cancel(id: string)
    | List

  const TASK_RETENTION: int := 10 * 60 * 1_000_000_000
  const MAX_TASKS: int := 200

  /** The contract of evictLocked: only finished tasks go, oldest first, and no
      more of them than the cap asks for. */
  ghost predicate Evicted(before: Tracked, after: Tracked) {
    && (forall id | id in after :: id in before && after[id] == before[id])
    && (forall id | id in before && id !in after :: Terminal(before[id].state))
    && (|after| <= MAX_TASKS || forall id | id in after :: !Terminal(after[id].state))
    && (after == before || |after| >= MAX_TASKS)
    && (forall gone, kept | gone in before && gone !in after && kept in after && Terminal(after[kept].state) ::
          before[gone].finishedAt <= after[kept].finishedAt)
  }

  function Swept(tasks: Tracked, now: int): Tracked {
    map id | id in tasks && !(Terminal(tasks[id].state) && now - tasks[id].finishedAt > TASK_RETENTION) :: tasks[id]
  }

  function Fresh(a: Action, now: int, ctx: nat): Task
    requires a.Start?
  {
    Task(a.id, a.kind, a.target, Running, -1, "", "", a.username, now, 0, true, ctx)
  }

  function Ended(t: Task, ending: Ending, now: int): Task {
    var done := t.(finishedAt := now, cancelable := false);
    match ending
    case Fine => done.(state := Succeeded, progress := 100)
    case Interrupted => done.(state := Canceled)
    case Broken(message) => done.(state := Failed, error := message)
  }

  predicate Live(s: Registry, id: string) {
    id in s.tasks && !Terminal(s.tasks[id].state)
  }

  /** One locked step of the registry at time `now`. */
  ghost predicate Next(s: Registry, a: Action, now: int, s': Registry) {
    match a
    case Start(id, _, _, _) =>
      && s'.cancelled == s.cancelled && s'.nextCtx == s.nextCtx + 1
      && Evicted(s.tasks[id := Fresh(a, now, s.nextCtx)], s'.tasks)
    case Progress(id, percent, message) =>
      s' == if Live(s, id)
            then s.(tasks := s.tasks[id := s.tasks[id].(progress := percent, message := message)]) else s
    case Finish(id, ending) =>
      s' == if Live(s, id)
            then s.(tasks := s.tasks[id := Ended(s.tasks[id], ending, now)],
                    cancelled := s.cancelled + {s.tasks[id].ctx}) else s
    case Cancel(id) =>
      s' == if Live(s, id)
            then s.(tasks := s.tasks[id := s.tasks[id].(state := Canceled, finishedAt := now, cancelable := false)],
                    cancelled := s.cancelled + {s.tasks[id].ctx}) else s
    case List => s' == s.(tasks := Swept(s.tasks, now))
  }

  /** Finished, not cancelable and context ended go together, and no two tracked
      tasks share a context. */
  ghost predicate Inv(s: Registry) {
    && (forall id | id in s.tasks :: Sane(s, id))
    && (forall a, b | a in s.tasks && b in s.tasks && a != b :: s.tasks[a].ctx != s.tasks[b].ctx)
    && (forall ctx | ctx in s.cancelled :: ctx < s.nextCtx)
  }

  ghost predicate Sane(s: Registry, id: string)
    requires id in s.tasks
  {
    var t := s.tasks[id];
    && t.id == id && t.ctx < s.nextCtx
    && (Terminal(t.state) <==> !t.cancelable)
    && (Terminal(t.state) <==> t.ctx in s.cancelled)
  }

  lemma NextKeepsInv(s: Registry, a: Action, now: int, s': Registry)
    requires Inv(s) && Next(s, a, now, s')
    ensures Inv(s')
  {
    forall id | id in s'.tasks ensures Sane(s', id) {
      assert id in s.tasks ==> Sane(s, id);
    }
    forall x, y | x in s'.tasks && y in s'.tasks && x != y ensures s'.tasks[x].ctx != s'.tasks[y].ctx {
      assert x in s.tasks ==> Sane(s, x);
      assert y in s.tasks ==> Sane(s, y);
    }
  }

  datatype Event = Event(action: Action, now: int)

  ghost predicate IsRun(states: seq<Registry>, events: seq<Event>) {
    && |states| == |events| + 1
    && states[0] == Registry(map[], {}, 0)
    && forall i | 0 <= i < |events| :: Next(states[i], events[i].action, events[i].now, states[i + 1])
  }

  /** The invariant holds after every step of every run. */
  lemma {:induction false} RunKeepsInv(states: seq<Registry>, events: seq<Event>, i: nat)
    requires IsRun(states, events) && i < |states|
    ensures Inv(states[i])
  {
    if i > 0 {
      RunKeepsInv(states, events, i - 1);
      NextKeepsInv(states[i - 1], events[i - 1].action, events[i - 1].now, states[i]);
    }
  }

  predicate Starts(a: Action, id: string) {
    a.Start? && a.id == id
  }

  lemma StepKeepsFinished(s: Registry, a: Action, now: int, s': Registry, id: string)
    requires Next(s, a, now, s') && !Starts(a, id) && !Live(s, id)
    ensures id in s'.tasks ==> id in s.tasks && s'.tasks[id] == s.tasks[id]
  {
  }

  /** Until its id is started again, a finished task never changes, and one that
      was dropped does not come back. */
  lemma {:induction false} FinishedIsFinal(states: seq<Registry>, events: seq<Event>, id: string, i: nat, j: nat)
    requires IsRun(states, events) && i <= j < |states| && !Live(states[i], id)
    requires forall k | i <= k < j :: !Starts(events[k].action, id)
    ensures id in states[j].tasks ==> id in states[i].tasks && states[j].tasks[id] == states[i].tasks[id]
    decreases j
  {
    if i < j {
      FinishedIsFinal(states, events, id, i, j - 1);
      StepKeepsFinished(states[j - 1], events[j - 1].action, events[j - 1].now, states[j], id);
    }
  }

  predicate Touches(a: Action, id: string) {
    (a.Start? || a.Finish? || a.Cancel?) && a.id == id
  }

  lemma StepKeepsLive(s: Registry, a: Action, now: int, s': Registry, id: string)
    requires Next(s, a, now, s') && !Touches(a, id) && Live(s, id)
    ensures Live(s', id) && s'.tasks[id].ctx == s.tasks[id].ctx
  {
  }

  /** Neither the sweep nor the cap ever drops a running task: it stays, with its
      own context, until it is finished, cancelled or its id started again. */
  lemma {:induction false} RunningStays(states: seq<Registry>, events: seq<Event>, id: string, i: nat, j: nat)
    requires IsRun(states, events) && i <= j < |states| && Live(states[i], id)
    requires forall k | i <= k < j :: !Touches(events[k].action, id)
    ensures Live(states[j], id) && states[j].tasks[id].ctx == states[i].tasks[id].ctx
    decreases j
  {
    if i < j {
      RunningStays(states, events, id, i, j - 1);
      StepKeepsLive(states[j - 1], events[j - 1].action, events[j - 1].now, states[j], id);
    }
  }

  // What a task shows.

  datatype News = News(progress: int, message: string)

  /** The last progress told about a task by the events from one on to another. */
  function Latest(events: seq<Event>, id: string, first: nat, last: nat): News
    requires first <= last <= |events|
    decreases last
  {
    if last == first then News(-1, "")
    else
      var a := events[last - 1].action;
      if a.Progress? && a.id == id then News(a.percent, a.message) else Latest(events, id, first, last - 1)
  }

  /** While it runs, a task shows what it was started with and the latest progress. */
  lemma {:induction false} RunningShows(states: seq<Registry>, events: seq<Event>, id: string, i: nat, j: nat)
    requires IsRun(states, events) && i < j < |states| && Starts(events[i].action, id)
    requires forall k | i < k < j :: !Touches(events[k].action, id)
    ensures id in states[j].tasks
    ensures var start, news := events[i].action, Latest(events, id, i + 1, j);
            states[j].tasks[id] == Task(id, start.kind, start.target, Running, news.progress, news.message, "",
                                        start.username, events[i].now, 0, true, states[i].nextCtx)
    decreases j
  {
    var event := events[j - 1];
    assert Next(states[j - 1], event.action, event.now, states[j]);
    if j > i + 1 { RunningShows(states, events, id, i, j - 1); }
  }

  predicate Closes(a: Action, id: string) {
    (a.Finish? || a.Cancel?) && a.id == id
  }

  /** How it shows that a task was closed: with success, as cancelled, or as failed with
      the error it ended with. */
  predicate ClosedBy(before: Task, after: Task, a: Action, now: int) {
    && after == before.(state := after.state, progress := after.progress, error := after.error, finishedAt := now,
                        cancelable := false)
    && (a.Finish? && a.ending == Fine ==>
          after.state == Succeeded && after.progress == 100 && after.error == before.error)
    && (a.Cancel? || (a.Finish? && a.ending == Interrupted) ==>
          after.state == Canceled && after.progress == before.progress && after.error == before.error)
    && (a.Finish? && a.ending.Broken? ==>
          after.state == Failed && after.progress == before.progress && after.error == a.ending.message)
  }

  /** And from then on it shows how it was closed, for as long as it is kept. */
  lemma {:induction false} ClosedShows(states: seq<Registry>, events: seq<Event>, id: string, i: nat, j: nat, k: nat)
    requires IsRun(states, events) && i < j < k < |states|
    requires Starts(events[i].action, id) && Closes(events[j].action, id)
    requires forall m | i < m < j :: !Touches(events[m].action, id)
    requires forall m | j < m < k :: !Starts(events[m].action, id)
    ensures id in states[j].tasks && id in states[j + 1].tasks
    ensures id in states[k].tasks ==>
              ClosedBy(states[j].tasks[id], states[k].tasks[id], events[j].action, events[j].now)
  {
    RunningShows(states, events, id, i, j);
    assert Next(states[j], events[j].action, events[j].now, states[j + 1]);
    FinishedIsFinal(states, events, id, j + 1, k);
  }

  const finishedBefore := (a: Task, b: Task) => a.finishedAt < b.finishedAt

  /** `finished` lists exactly the finished tasks. */
  ghost predicate ListsFinished(finished: seq<Task>, tasks: Tracked) {
    && (forall t | t in finished :: t.id in tasks && tasks[t.id] == t && Terminal(t.state))
    && (forall id | id in tasks && Terminal(tasks[id].state) :: tasks[id] in finished)
  }

  ghost predicate Among(s: seq<Task>, k: nat, id: string) {
    exists i | 0 <= i < k && i < |s| :: s[i].id == id
  }

  /** The first k tasks of the list are gone, and nothing else is. */
  ghost predicate Dropped(before: Tracked, after: Tracked, s: seq<Task>, k: nat) {
    && (forall id | id in after :: id in before && after[id] == before[id] && !Among(s, k, id))
    && (forall id | id in before && id !in after :: Among(s, k, id))
  }

  lemma DropNext(before: Tracked, after: Tracked, s: seq<Task>, k: nat)
    requires Dropped(before, after, s, k) && k < |s|
    ensures Dropped(before, after - {s[k].id}, s, k + 1)
    ensures |after - {s[k].id}| >= |after| - 1
  {
    forall id ensures Among(s, k + 1, id) <==> Among(s, k, id) || id == s[k].id {}
    Removed(after, s[k].id);
  }

  lemma DroppedInOrder(before: Tracked, after: Tracked, s: seq<Task>, k: nat, gone: string, kept: string)
    requires k <= |s| && ListsFinished(s, before) && Sorted(finishedBefore, s) && Dropped(before, after, s, k)
    requires forall id | id in before :: before[id].id == id
    requires gone in before && gone !in after && kept in after && Terminal(after[kept].state)
    ensures Terminal(before[gone].state) && before[gone].finishedAt <= after[kept].finishedAt && k < |s|
  {
  }

  lemma EvictionStops(before: Tracked, after: Tracked, s: seq<Task>, k: nat)
    requires k <= |s| && ListsFinished(s, before) && Sorted(finishedBefore, s) && Dropped(before, after, s, k)
    requires forall id | id in before :: before[id].id == id
    requires (|after| <= MAX_TASKS || k == |s|) && |after| >= MAX_TASKS
    ensures Evicted(before, after)
  {
    forall gone, kept | gone in before && gone !in after && kept in after && Terminal(after[kept].state)
      ensures before[gone].finishedAt <= after[kept].finishedAt
    {
      DroppedInOrder(before, after, s, k, gone, kept);
    }
    if k == |s| {
      forall id | id in before && Terminal(before[id].state) ensures Among(s, k, id) {
        var j :| 0 <= j < |s| && s[j] == before[id];
      }
    }
  }

  /** The finished tasks, oldest first. */
  method OldestFirst(tasks: Tracked) returns (sorted: seq<Task>)
    requires forall id | id in tasks :: tasks[id].id == id
    ensures ListsFinished(sorted, tasks) && Sorted(finishedBefore, sorted)
  {
    var finished := Finished(tasks);
    sorted := SortBy(finishedBefore, finished);
    SortSorts(finishedBefore, finished);
    SameElements(finished, sorted);
  }

  /** Drops tasks from the front of the list until the cap is met. */
  method DropOldest(before: Tracked, sorted: seq<Task>) returns (after: Tracked)
    requires |before| > MAX_TASKS && ListsFinished(sorted, before) && Sorted(finishedBefore, sorted)
    requires forall id | id in before :: before[id].id == id
    ensures Evicted(before, after)
  {
    after := before;
    var k := 0;
    while k < |sorted|
      invariant k <= |sorted| && Dropped(before, after, sorted, k) && |after| >= MAX_TASKS
    {
      if |after| <= MAX_TASKS { break; }
      DropNext(before, after, sorted, k);
      after := after - {sorted[k].id};
      k := k + 1;
    }
    EvictionStops(before, after, sorted, k);
  }

  class TaskRegistry {
    var tasks: Tracked
    var cancelled: set<nat>
    var nextCtx: nat

    ghost function State(): Registry
      reads this
    {
      Registry(tasks, cancelled, nextCtx)
    }

    constructor ()
      ensures State() == Registry(map[], {}, 0)
    {
      tasks, cancelled, nextCtx := map[], {}, 0;
    }

    method StartWithID(id: string, kind: string, target: string, username: string, now: int) returns (ctx: nat)
      requires Inv(State())
      modifies this
      ensures Next(old(State()), Start(id, kind, target, username), now, State()) && Inv(State())
      ensures ctx == old(nextCtx)
    {
      ctx := nextCtx;
      tasks := tasks[id := Fresh(Start(id, kind, target, username), now, ctx)];
      nextCtx := nextCtx + 1;
      assert forall x | x in old(tasks) :: Sane(old(State()), x);
      EvictLocked();
      NextKeepsInv(old(State()), Start(id, kind, target, username), now, State());
    }

    method EvictLocked()
      requires forall id | id in tasks :: tasks[id].id == id
      modifies this`tasks
      ensures Evicted(old(tasks), tasks)
    {
      if |tasks| <= MAX_TASKS { return; }
      var sorted := OldestFirst(tasks);
      tasks := DropOldest(tasks, sorted);
    }

    method Progress(id: string, percent: int, message: string, now: int)
      requires Inv(State())
      modifies this`tasks
      ensures Next(old(State()), Action.Progress(id, percent, message), now, State()) && Inv(State())
    {
      if id in tasks && !Terminal(tasks[id].state) {
        tasks := tasks[id := tasks[id].(progress := percent, message := message)];
      }
      NextKeepsInv(old(State()), Action.Progress(id, percent, message), now, State());
    }

    method Finish(id: string, ending: Ending, now: int)
      requires Inv(State())
      modifies this
      ensures Next(old(State()), Action.Finish(id, ending), now, State()) && Inv(State())
    {
      if id in tasks && !Terminal(tasks[id].state) {
        var tracked := tasks[id].(finishedAt := now, cancelable := false);
        match ending {
          case Fine => tracked := tracked.(state := Succeeded, progress := 100);
          case Interrupted => tracked := tracked.(state := Canceled);
          case Broken(message) => tracked := tracked.(state := Failed, error := message);
        }
        tasks := tasks[id := tracked];
        cancelled := cancelled + {tracked.ctx};
      }
      NextKeepsInv(old(State()), Action.Finish(id, ending), now, State());
    }

    /** Whether the id is tracked, and whether it was running and is stopped now. */
    method Cancel(id: string, now: int) returns (found: bool, stopped: bool)
      requires Inv(State())
      modifies this
      ensures Next(old(State()), Action.Cancel(id), now, State()) && Inv(State())
      ensures found <==> id in old(tasks)
      ensures stopped <==> Live(old(State()), id)
    {
      found, stopped := id in tasks, id in tasks && !Terminal(tasks[id].state);
      if stopped {
        cancelled := cancelled + {tasks[id].ctx};
        tasks := tasks[id := tasks[id].(state := Canceled, finishedAt := now, cancelable := false)];
      }
      NextKeepsInv(old(State()), Action.Cancel(id), now, State());
    }

    method SweepLocked(now: int)
      requires Inv(State())
      modifies this`tasks
      ensures Next(old(State()), List, now, State()) && Inv(State())
      ensures forall id :: id in tasks <==>
                && id in old(tasks)
                && (old(tasks)[id].state == Running || now - old(tasks)[id].finishedAt <= 600_000_000_000)
    {
      tasks := DropStale(tasks, now);
      NextKeepsInv(old(State()), List, now, State());
    }
  }

  /** The sweep's loop over the map. */
  method DropStale(before: Tracked, now: int) returns (after: Tracked)
    ensures after == Swept(before, now)
  {
    after := before;
    var todo := before.Keys;
    while todo != {}
      invariant forall id | id in after :: id in before && after[id] == before[id]
      invariant forall id | id in before && id in todo :: id in after
      invariant forall id | id in before && id !in todo :: id in after <==> id in Swept(before, now)
      decreases todo
    {
      var id :| id in todo;
      todo := todo - {id};
      if Terminal(before[id].state) && now - before[id].finishedAt > TASK_RETENTION {
        after := after - {id};
      }
    }
  }

  lemma Removed(m: Tracked, id: string)
    ensures id in m ==> |m - {id}| == |m| - 1
    ensures id !in m ==> m - {id} == m
  {
  }

  method Finished(tasks: Tracked) returns (finished: seq<Task>)
    requires forall id | id in tasks :: tasks[id].id == id
    ensures ListsFinished(finished, tasks)
  {
    finished := [];
    var todo := tasks.Keys;
    while todo != {}
      invariant todo <= tasks.Keys
      invariant forall t | t in finished :: t.id in tasks && tasks[t.id] == t && Terminal(t.state)
      invariant forall id | id in tasks && id !in todo && Terminal(tasks[id].state) :: tasks[id] in finished
      decreases todo
    {
      var id :| id in todo;
      todo := todo - {id};
      if Terminal(tasks[id].state) { finished := finished + [tasks[id]]; }
    }
  }
}

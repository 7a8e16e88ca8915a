/** The busy guard of a stack: `claim` and the `done` it hands out
    (internal/service/stackup.go), over the registry of operations. */
module Guard {
  import opened Tasks

  /** An operation at work on a stack under the context it was given. */
  datatype Op = Op(stack: string, ctx: nat)

  /** `looked` holds the operations that found the stack free and have not
      registered yet; `live` those that are at work. */
  datatype World = World(reg: Registry, looked: map<nat, string>, live: map<nat, Op>)

  datatype Step =
    | Claim(op: nat, stack: string, kind: string, username: string) // look and register in one step
    | Look(op: nat, stack: string)
    | Register(op: nat, kind: string, username: string)
    | Done(op: nat)
    | CancelStack(stack: string)
    | Elsewhere(action: Action) // any other user of the registry

  ghost predicate Registered(w: World, op: nat, stack: string, kind: string, username: string, now: int, w': World) {
    && Next(w.reg, Start(stack, kind, stack, username), now, w'.reg)
    && w'.live == w.live[op := Op(stack, w.reg.nextCtx)]
  }

  /** One step at time `now`. Stack ids are nobody else's task ids. */
  ghost predicate Moves(stacks: set<string>, w: World, step: Step, now: int, w': World) {
    match step
    case Claim(op, stack, kind, username) =>
      && stack in stacks && op !in w.live && op !in w.looked && w'.looked == w.looked
      && (if Live(w.reg, stack) then w' == w else Registered(w, op, stack, kind, username, now, w'))
    case Look(op, stack) =>
      && stack in stacks && op !in w.live && op !in w.looked
      && w' == if Live(w.reg, stack) then w else w.(looked := w.looked[op := stack])
    case Register(op, kind, username) =>
      && op in w.looked && w'.looked == w.looked - {op}
      && Registered(w, op, w.looked[op], kind, username, now, w')
    case Done(op) =>
      && op in w.live && w'.looked == w.looked && w'.live == w.live - {op}
      && Next(w.reg, Finish(w.live[op].stack, Fine), now, w'.reg)
    case CancelStack(stack) =>
      && stack in stacks && w'.looked == w.looked && w'.live == w.live
      && Next(w.reg, Cancel(stack), now, w'.reg)
    case Elsewhere(action) =>
      && (action.List? || action.Progress? || action.id !in stacks)
      && w'.looked == w.looked && w'.live == w.live
      && Next(w.reg, action, now, w'.reg)
  }

  /** The two conditions the guard depends on: a claim is one step, and no
      running stack task is cancelled. */
  predicate Orderly(w: World, step: Step) {
    match step
    case Look(_, _) => false
    case Register(_, _, _) => false
    case CancelStack(stack) => !Live(w.reg, stack)
    case _ => true
  }

  /** Every live operation holds its stack's running task. */
  ghost predicate Guarded(stacks: set<string>, w: World) {
    && Inv(w.reg)
    && (forall op | op in w.live :: Holds(stacks, w, op))
    && (forall a, b | a in w.live && b in w.live && a != b :: w.live[a].ctx != w.live[b].ctx)
  }

  ghost predicate Holds(stacks: set<string>, w: World, op: nat)
    requires op in w.live
  {
    var o := w.live[op];
    o.stack in stacks && Live(w.reg, o.stack) && w.reg.tasks[o.stack].ctx == o.ctx
  }

  /** Two operations at work on one stack. */
  ghost predicate Clash(w: World) {
    exists a, b | a in w.live && b in w.live && a != b :: w.live[a].stack == w.live[b].stack
  }

  lemma NoClash(stacks: set<string>, w: World)
    requires Guarded(stacks, w)
    ensures !Clash(w)
  {
  }

  lemma ClaimKeepsGuard(stacks: set<string>, w: World, op: nat, stack: string, kind: string, username: string,
                        now: int, w': World)
    requires Guarded(stacks, w) && stack in stacks && op !in w.live && !Live(w.reg, stack)
    requires Registered(w, op, stack, kind, username, now, w')
    ensures Guarded(stacks, w')
  {
    var start := Start(stack, kind, stack, username);
    NextKeepsInv(w.reg, start, now, w'.reg);
    forall x | x in w'.live ensures Holds(stacks, w', x) && (x != op ==> w'.live[x].ctx < w.reg.nextCtx) {
      if x != op {
        assert Holds(stacks, w, x) && Sane(w.reg, w.live[x].stack);
        StepKeepsLive(w.reg, start, now, w'.reg, w.live[x].stack);
      }
    }
  }

  lemma DoneKeepsGuard(stacks: set<string>, w: World, op: nat, now: int, w': World)
    requires Guarded(stacks, w) && Moves(stacks, w, Done(op), now, w')
    ensures Guarded(stacks, w')
    ensures w'.reg.tasks[w.live[op].stack] == Ended(w.reg.tasks[w.live[op].stack], Fine, now)
    ensures w.reg.tasks[w.live[op].stack].ctx == w.live[op].ctx && w.live[op].ctx in w'.reg.cancelled
  {
    var finish := Finish(w.live[op].stack, Fine);
    NextKeepsInv(w.reg, finish, now, w'.reg);
    assert Holds(stacks, w, op);
    forall x | x in w'.live ensures Holds(stacks, w', x) {
      assert Holds(stacks, w, x);
      StepKeepsLive(w.reg, finish, now, w'.reg, w.live[x].stack);
    }
  }

  lemma StepKeepsGuard(stacks: set<string>, w: World, step: Step, now: int, w': World)
    requires Guarded(stacks, w) && Moves(stacks, w, step, now, w') && Orderly(w, step)
    ensures Guarded(stacks, w')
  {
    match step
    case Claim(op, stack, kind, username) =>
      if !Live(w.reg, stack) { ClaimKeepsGuard(stacks, w, op, stack, kind, username, now, w'); }
    case Done(op) => DoneKeepsGuard(stacks, w, op, now, w');
    case CancelStack(stack) => NextKeepsInv(w.reg, Cancel(stack), now, w'.reg);
    case Elsewhere(action) =>
      NextKeepsInv(w.reg, action, now, w'.reg);
      forall x | x in w'.live ensures Holds(stacks, w', x) {
        assert Holds(stacks, w, x);
        StepKeepsLive(w.reg, action, now, w'.reg, w.live[x].stack);
      }
  }

  datatype Timed = Timed(step: Step, now: int)

  ghost predicate IsRun(stacks: set<string>, states: seq<World>, steps: seq<Timed>) {
    && |states| == |steps| + 1
    && states[0] == World(Registry(map[], {}, 0), map[], map[])
    && forall i | 0 <= i < |steps| :: Moves(stacks, states[i], steps[i].step, steps[i].now, states[i + 1])
  }

  /** In every orderly run at most one operation is live per stack, always. */
  lemma {:induction false} OnePerStack(stacks: set<string>, states: seq<World>, steps: seq<Timed>, i: nat)
    requires IsRun(stacks, states, steps) && i < |states|
    requires forall k | 0 <= k < i :: Orderly(states[k], steps[k].step)
    ensures Guarded(stacks, states[i]) && !Clash(states[i])
  {
    if i > 0 {
      OnePerStack(stacks, states, steps, i - 1);
      StepKeepsGuard(stacks, states[i - 1], steps[i - 1].step, steps[i - 1].now, states[i]);
    }
    NoClash(stacks, states[i]);
  }

  /** And each `done` finishes the entry of the operation that calls it. */
  lemma DoneEndsItsOwn(stacks: set<string>, states: seq<World>, steps: seq<Timed>, i: nat)
    requires IsRun(stacks, states, steps) && i < |steps| && steps[i].step.Done?
    requires forall k | 0 <= k < i :: Orderly(states[k], steps[k].step)
    ensures steps[i].step.op in states[i].live
    ensures var o := states[i].live[steps[i].step.op];
            && Live(states[i].reg, o.stack) && states[i].reg.tasks[o.stack].ctx == o.ctx
            && states[i + 1].reg.tasks[o.stack].state == Succeeded && o.ctx in states[i + 1].reg.cancelled
  {
    OnePerStack(stacks, states, steps, i);
    assert Moves(stacks, states[i], steps[i].step, steps[i].now, states[i + 1]);
    DoneKeepsGuard(stacks, states[i], steps[i].step.op, steps[i].now, states[i + 1]);
    assert Holds(stacks, states[i], steps[i].step.op);
  }

  function Job(stack: string, ctx: nat): Task {
    Fresh(Start(stack, "stack.up", stack, "admin"), 0, ctx)
  }

  /** Registering on an otherwise empty registry. */
  lemma RegistersAlone(w: World, op: nat, stack: string, w': World)
    requires w.reg.tasks.Keys <= {stack}
    requires w'.reg == Registry(map[stack := Job(stack, w.reg.nextCtx)], w.reg.cancelled, w.reg.nextCtx + 1)
    requires w'.live == w.live[op := Op(stack, w.reg.nextCtx)]
    ensures Registered(w, op, stack, "stack.up", "admin", 0, w')
  {
    var t := Job(stack, w.reg.nextCtx);
    assert w.reg.tasks[stack := t] == map[stack := t];
    assert |map[stack := t]| == 1;
  }

  lemma FourSteps(stacks: set<string>, ws: seq<World>, steps: seq<Timed>)
    requires |ws| == 5 && |steps| == 4 && ws[0] == World(Registry(map[], {}, 0), map[], map[])
    requires Moves(stacks, ws[0], steps[0].step, steps[0].now, ws[1])
    requires Moves(stacks, ws[1], steps[1].step, steps[1].now, ws[2])
    requires Moves(stacks, ws[2], steps[2].step, steps[2].now, ws[3])
    requires Moves(stacks, ws[3], steps[3].step, steps[3].now, ws[4])
    ensures IsRun(stacks, ws, steps)
  {
  }

  function Idle(): World {
    World(Registry(map[], {}, 0), map[], map[])
  }

  /** Looking and registering apart lets two operations through. */
  lemma TwoStepClaimClashes(stack: string) returns (states: seq<World>, steps: seq<Timed>)
    ensures IsRun({stack}, states, steps) && Clash(states[|steps|])
    ensures forall k | 0 <= k < |steps| :: !steps[k].step.CancelStack?
  {
    var w1 := Idle().(looked := map[1 := stack]);
    var w2 := Idle().(looked := map[1 := stack][2 := stack]);
    var w3 := World(Registry(map[stack := Job(stack, 0)], {}, 1), map[2 := stack], map[1 := Op(stack, 0)]);
    var w4 := World(Registry(map[stack := Job(stack, 1)], {}, 2), map[], w3.live[2 := Op(stack, 1)]);
    RegistersAlone(w2, 1, stack, w3);
    RegistersAlone(w3, 2, stack, w4);
    assert w2.looked - {1} == w3.looked && w3.looked - {2} == w4.looked;
    steps := [Timed(Look(1, stack), 0), Timed(Look(2, stack), 0),
              Timed(Register(1, "stack.up", "admin"), 0), Timed(Register(2, "stack.up", "admin"), 0)];
    states := [Idle(), w1, w2, w3, w4];
    FourSteps({stack}, states, steps);
    assert w4.live[1].stack == w4.live[2].stack;
  }

  /** The cancel run: the first operation is cancelled, the second gets in. */
  function Stopped(stack: string): World {
    World(Registry(map[stack := Job(stack, 0).(state := Canceled, finishedAt := 0, cancelable := false)], {0}, 1),
          map[], map[1 := Op(stack, 0)])
  }

  lemma CancelFrees(stack: string, w: World)
    requires w == World(Registry(map[stack := Job(stack, 0)], {}, 1), map[], map[1 := Op(stack, 0)])
    ensures Moves({stack}, w, CancelStack(stack), 0, Stopped(stack))
  {
  }

  lemma DoneHitsAnother(stack: string, w: World, w': World)
    requires w == World(Registry(map[stack := Job(stack, 1)], {0}, 2), map[], map[1 := Op(stack, 0)][2 := Op(stack, 1)])
    requires w' == World(Registry(map[stack := Ended(Job(stack, 1), Fine, 0)], {0, 1}, 2), map[],
                         map[2 := Op(stack, 1)])
    ensures Moves({stack}, w, Done(1), 0, w')
  {
    assert w'.reg.tasks == w.reg.tasks[stack := Ended(Job(stack, 1), Fine, 0)];
    assert w'.live == w.live - {1};
  }

  /** Cancelling frees the id while the first operation is still unwinding: a
      second one gets in, and the first one's `done` then ends the second's task. */
  lemma CancelClashes(stack: string) returns (states: seq<World>, steps: seq<Timed>)
    ensures IsRun({stack}, states, steps) && |steps| == 4 && Clash(states[3])
    ensures forall k | 0 <= k < |steps| :: !steps[k].step.Look? && !steps[k].step.Register?
    ensures steps[3].step == Done(1)
    ensures 2 in states[4].live && states[4].live[2].ctx in states[4].reg.cancelled
  {
    var w1 := World(Registry(map[stack := Job(stack, 0)], {}, 1), map[], map[1 := Op(stack, 0)]);
    var w3 := World(Registry(map[stack := Job(stack, 1)], {0}, 2), map[], map[1 := Op(stack, 0)][2 := Op(stack, 1)]);
    var w4 := World(Registry(map[stack := Ended(Job(stack, 1), Fine, 0)], {0, 1}, 2), map[], map[2 := Op(stack, 1)]);
    RegistersAlone(Idle(), 1, stack, w1);
    CancelFrees(stack, w1);
    RegistersAlone(Stopped(stack), 2, stack, w3);
    DoneHitsAnother(stack, w3, w4);
    steps := [Timed(Claim(1, stack, "stack.up", "admin"), 0), Timed(CancelStack(stack), 0),
              Timed(Claim(2, stack, "stack.up", "admin"), 0), Timed(Done(1), 0)];
    states := [Idle(), w1, Stopped(stack), w3, w4];
    FourSteps({stack}, states, steps);
    assert w3.live[1].stack == w3.live[2].stack;
  }
}

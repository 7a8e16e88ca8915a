/** Sweeping expired and revoked sessions (DeleteExpired in
    internal/store/sessions.go) goes unnoticed by every operation. */
module Sweeping {
  import opened Text
  import opened Records

  /** Two tables that differ in sessions nobody can refresh from now on. */
  ghost predicate Alike(swept: Tables, full: Tables, now: int) {
    && swept.users == full.users
    && (forall h | h in swept.sessions :: h in full.sessions && full.sessions[h] == swept.sessions[h])
    && (forall h | h in full.sessions && h !in swept.sessions ::
          full.sessions[h].revoked || full.sessions[h].expiresAt <= now)
  }

  lemma AlikeStep(swept: Tables, full: Tables, w: Write, at: int)
    requires Alike(swept, full, at) && (w.InsertSession? ==> w.hash !in full.sessions) && !w.DeleteExpired?
    ensures Possible(swept, w) <==> Possible(full, w)
    ensures Possible(full, w) ==> Alike(Apply(swept, w), Apply(full, w), at)
  {
  }

  lemma AlikeSweep(swept: Tables, full: Tables, cutoff: int, at: int)
    requires Alike(swept, full, at) && cutoff <= at
    ensures Alike(Apply(swept, DeleteExpired(cutoff)), full, at)
  {
  }

  /** Operations as the store sees them. Administration and signing in read accounts
      only, so what they write is a function of those; a refresh and a logout look up
      one session; `done` is how many of its writes an operation gets to make. */
  datatype Event =
    | Administer(plan: map<string, User> -> seq<Write>, done: nat)
    | Refresh(hash: nat, token: nat, ttl: int, done: nat)
    | Logout(hash: nat, done: nat)
    | Sweep(cutoff: int)

  /** What an operation sets out to write. */
  function Plan(t: Tables, e: Event, at: int): seq<Write>
    requires !e.Sweep?
  {
    match e
    case Administer(plan, _) => plan(t.users)
    case Refresh(hash, token, ttl, _) =>
      (match RefreshAnswer(t, hash, at)
       case Invalid => []
       case Disabled => [RevokeAll(t.sessions[hash].user, at)]
       case Good(user) => [Revoke(hash, at), InsertSession(token, Session(user, at + ttl, false, 0))])
    case Logout(hash, _) => if hash in t.sessions then [Revoke(hash, at)] else []
  }

  function Cut(ws: seq<Write>, n: nat): seq<Write> {
    if n < |ws| then ws[..n] else ws
  }

  /** The writes one after another, up to one the schema refuses. */
  function ApplyAll(t: Tables, ws: seq<Write>): Tables
    decreases |ws|
  {
    if ws == [] || !Possible(t, ws[0]) then t else ApplyAll(Apply(t, ws[0]), ws[1..])
  }

  /** How many of them the schema lets through. */
  function Passed(t: Tables, ws: seq<Write>): nat
    decreases |ws|
  {
    if ws == [] || !Possible(t, ws[0]) then 0 else 1 + Passed(Apply(t, ws[0]), ws[1..])
  }

  /** The tables after an operation that gets to make so many of its writes. */
  function After(t: Tables, e: Event, at: int): Tables
    requires !e.Sweep?
  {
    ApplyAll(t, Attempted(t, e, at))
  }

  /** Operations at their times, latest outermost. */
  datatype Timed = Start | Next(before: Timed, event: Event, at: int)

  predicate InOrder(h: Timed) {
    h.Next? ==>
      && InOrder(h.before) && (h.before.Next? ==> h.before.at <= h.at)
      && (h.event.Sweep? ==> h.event.cutoff <= h.at)
  }

  function Attempted(t: Tables, e: Event, at: int): seq<Write>
    requires !e.Sweep?
  {
    Cut(Plan(t, e, at), e.done)
  }

  /** The tables after a history; without `sweep` the sweeps do nothing. */
  function TimedTables(h: Timed, sweep: bool): Tables {
    match h
    case Start => Tables(map[], map[])
    case Next(before, e, at) =>
      var t := TimedTables(before, sweep);
      if !e.Sweep? then After(t, e, at)
      else if sweep then Apply(t, DeleteExpired(e.cutoff))
      else t
  }

  /** What the caller of an operation learns: what a refresh found, and how far the
      writes got. A logout of an unknown session is no different from any other. */
  datatype Seen = Seen(answer: Option<Answer>, passed: nat)

  function See(t: Tables, e: Event, at: int): Seen {
    match e
    case Administer(_, _) => Seen(None, Passed(t, Attempted(t, e, at)))
    case Refresh(hash, _, _, _) => Seen(Some(RefreshAnswer(t, hash, at)), Passed(t, Attempted(t, e, at)))
    case Logout(_, _) => Seen(None, 0)
    case Sweep(_) => Seen(None, 0)
  }

  /** What the callers of a whole history learn. */
  function SeenAlong(h: Timed, sweep: bool): seq<Seen> {
    match h
    case Start => []
    case Next(before, e, at) => SeenAlong(before, sweep) + [See(TimedTables(before, sweep), e, at)]
  }

  /** No write is a sweep, and no session is inserted under a token in the table. */
  predicate Proper(t: Tables, ws: seq<Write>)
    decreases |ws|
  {
    ws != [] ==>
      && !ws[0].DeleteExpired? && (ws[0].InsertSession? ==> ws[0].hash !in t.sessions)
      && (Possible(t, ws[0]) ==> Proper(Apply(t, ws[0]), ws[1..]))
  }

  /** Refresh tokens are random: none is drawn twice. */
  predicate TokensFresh(h: Timed) {
    h.Next? ==>
      && TokensFresh(h.before)
      && var t := TimedTables(h.before, false);
         h.event.Sweep? || Proper(t, Attempted(t, h.event, h.at))
  }

  lemma {:induction false} AlikeAll(swept: Tables, full: Tables, ws: seq<Write>, at: int)
    requires Alike(swept, full, at) && Proper(full, ws)
    ensures Alike(ApplyAll(swept, ws), ApplyAll(full, ws), at) && Passed(swept, ws) == Passed(full, ws)
    decreases |ws|
  {
    if ws != [] {
      AlikeStep(swept, full, ws[0], at);
      if Possible(full, ws[0]) { AlikeAll(Apply(swept, ws[0]), Apply(full, ws[0]), ws[1..], at); }
    }
  }

  /** A refresh, written out. */
  lemma RefreshSteps(t: Tables, hash: nat, token: nat, ttl: int, at: int)
    ensures var e := (n: nat) => Refresh(hash, token, ttl, n);
            match RefreshAnswer(t, hash, at)
            case Invalid => After(t, e(0), at) == t
            case Disabled =>
              && After(t, e(0), at) == t
              && After(t, e(1), at) == Apply(t, RevokeAll(t.sessions[hash].user, at))
            case Good(user) =>
              var revoked, w := Apply(t, Revoke(hash, at)), InsertSession(token, Session(user, at + ttl, false, 0));
              && After(t, e(0), at) == t && After(t, e(1), at) == revoked
              && (Possible(revoked, w) ==> After(t, e(2), at) == Apply(revoked, w))
  {
    var answer := RefreshAnswer(t, hash, at);
    if answer.Disabled? {
      ApplyOne(t, RevokeAll(t.sessions[hash].user, at));
    } else if answer.Good? {
      var first, second := Revoke(hash, at), InsertSession(token, Session(answer.user, at + ttl, false, 0));
      ApplyOne(t, first);
      ApplyOne(Apply(t, first), second);
      assert [first, second][1..] == [second] && [first, second][..1] == [first];
    }
  }

  lemma ApplyOne(t: Tables, w: Write)
    ensures [w][..0] == [] && ApplyAll(t, [w]) == if Possible(t, w) then Apply(t, w) else t
  {
    assert [w][1..] == [];
    assert Possible(t, w) ==> ApplyAll(Apply(t, w), []) == Apply(t, w);
  }

  /** Both tables answer a refresh alike, so it sets out to do the same. */
  lemma AlikePlans(swept: Tables, full: Tables, e: Event, at: int)
    requires Alike(swept, full, at) && !e.Sweep? && !e.Logout?
    ensures e.Refresh? ==> RefreshAnswer(swept, e.hash, at) == RefreshAnswer(full, e.hash, at)
    ensures Attempted(swept, e, at) == Attempted(full, e, at)
  {
  }

  /** A logout of a session that was swept changes nothing anybody can see. */
  lemma AlikeLogout(swept: Tables, full: Tables, e: Event, at: int)
    requires Alike(swept, full, at) && e.Logout?
    ensures Alike(ApplyAll(swept, Attempted(swept, e, at)), ApplyAll(full, Attempted(full, e, at)), at)
  {
    var w := Revoke(e.hash, at);
    AlikeStep(swept, full, w, at);
    assert forall t: Tables :: ApplyAll(t, []) == t;
    ApplyOne(full, w);
    ApplyOne(swept, w);
  }

  lemma AlikeNext(swept: Tables, full: Tables, e: Event, at: int)
    requires Alike(swept, full, at) && !e.Sweep? && Proper(full, Attempted(full, e, at))
    ensures See(swept, e, at) == See(full, e, at)
    ensures Alike(ApplyAll(swept, Attempted(swept, e, at)), ApplyAll(full, Attempted(full, e, at)), at)
  {
    if e.Logout? {
      AlikeLogout(swept, full, e, at);
    } else {
      AlikePlans(swept, full, e, at);
      AlikeAll(swept, full, Attempted(full, e, at), at);
    }
  }

  lemma AlikeLater(swept: Tables, full: Tables, at: int, now: int)
    requires Alike(swept, full, at) && at <= now
    ensures Alike(swept, full, now)
  {
  }

  /** Sweeping sessions is invisible: in every history of operations, each of them
      doing what it finds in the tables, every caller learns the same as if nothing
      had ever been swept. */
  lemma {:induction false} SweepingIsInvisible(h: Timed, now: int)
    requires InOrder(h) && TokensFresh(h) && (h.Next? ==> h.at <= now)
    ensures SeenAlong(h, true) == SeenAlong(h, false)
    ensures Alike(TimedTables(h, true), TimedTables(h, false), now)
  {
    if h.Next? {
      SweepingIsInvisible(h.before, h.at);
      var swept, full := TimedTables(h.before, true), TimedTables(h.before, false);
      if h.event.Sweep? {
        AlikeSweep(swept, full, h.event.cutoff, h.at);
      } else {
        AlikeNext(swept, full, h.event, h.at);
      }
      AlikeLater(TimedTables(h, true), TimedTables(h, false), h.at, now);
    }
  }
}

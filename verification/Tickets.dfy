/** Single-use tickets for streaming connections (internal/auth/ticket.go). */
module Tickets {
  import opened Text
  import opened Durations

  /** `holder` stands for the identity a ticket carries. */
  datatype Ticket = Ticket(holder: string, expiresAt: int)

  datatype Event = Issue(value: string, holder: string, at: int) | Redeem(value: string, at: int)

  /** A history of locked steps, latest outermost. */
  datatype History = Nothing | Then(before: History, event: Event)

  predicate InOrder(h: History) {
    h.Then? ==> InOrder(h.before) && (h.before.Then? ==> h.before.event.at <= h.event.at)
  }

  /** A zero ttl takes the default. */
  function NewTicketStore(ttl: int): (r: int)
    ensures r > 0 && (ttl > 0 ==> r == ttl) && (ttl <= 0 ==> r == 60_000_000_000)
  {
    if ttl <= 0 then 60 * SECOND else ttl
  }

  predicate Expired(t: Ticket, now: int) {
    now > t.expiresAt
  }

  /** What the store holds under a value; without `sweep` issuing does not prune. */
  function Held(ttl: int, h: History, value: string, sweep: bool): Option<Ticket> {
    match h
    case Nothing => None
    case Then(before, Issue(v, holder, at)) =>
      var t := if v == value then Some(Ticket(holder, at + ttl)) else Held(ttl, before, value, sweep);
      if sweep && t.Some? && Expired(t.value, at) then None else t
    case Then(before, Redeem(v, at)) =>
      if v == value && v != "" then None else Held(ttl, before, value, sweep)
  }

  /** What redeeming a value after a history yields. */
  function Redeemed(ttl: int, h: History, value: string, at: int, sweep: bool): Option<Ticket> {
    var t := Held(ttl, h, value, sweep);
    if value == "" || t.None? || Expired(t.value, at) then None else t
  }

  function Issues(h: History, value: string): nat {
    if h.Nothing? then 0 else Issues(h.before, value) + if h.event.Issue? && h.event.value == value then 1 else 0
  }

  function Redemptions(ttl: int, h: History, value: string, sweep: bool): nat {
    match h
    case Nothing => 0
    case Then(before, e) =>
      Redemptions(ttl, before, value, sweep)
      + if e.Redeem? && e.value == value && Redeemed(ttl, before, value, e.at, sweep).Some? then 1 else 0
  }

  /** Single use: a value is redeemed no more often than it was issued. */
  lemma {:induction false} SingleUse(ttl: int, h: History, value: string)
    ensures Redemptions(ttl, h, value, true) + (if Held(ttl, h, value, true).Some? then 1 else 0) <= Issues(h, value)
  {
    if h.Then? { SingleUse(ttl, h.before, value); }
  }

  /** The last step that concerned a value was to issue it to `holder` at `at`. */
  predicate Outstanding(h: History, value: string, holder: string, at: int) {
    h.Then? &&
    if h.event.value == value then h.event == Issue(value, holder, at)
    else Outstanding(h.before, value, holder, at)
  }

  /** Redeeming works exactly for a value that was issued, not tried since, and
      not longer ago than the ttl; it yields who it was issued to. */
  lemma {:induction false} RedeemIff(ttl: int, h: History, value: string, now: int, t: Ticket)
    requires ttl > 0 && InOrder(h) && (h.Then? ==> h.event.at <= now)
    ensures Redeemed(ttl, h, value, now, true) == Some(t) <==>
              value != "" && now <= t.expiresAt && Outstanding(h, value, t.holder, t.expiresAt - ttl)
  {
    if h.Then? {
      var e := h.event;
      if e.value != value {
        RedeemIff(ttl, h.before, value, e.at, t);
        RedeemIff(ttl, h.before, value, now, t);
        if Held(ttl, h.before, value, true).Some? {
          RedeemIff(ttl, h.before, value, now, Held(ttl, h.before, value, true).value);
        }
      }
    }
  }

  /** Pruning is invisible: redeeming gives the same with and without it. */
  lemma {:induction false} PruningIsInvisible(ttl: int, h: History, value: string, now: int)
    requires ttl > 0 && InOrder(h) && (h.Then? ==> h.event.at <= now)
    ensures Redeemed(ttl, h, value, now, true) == Redeemed(ttl, h, value, now, false)
    ensures Held(ttl, h, value, true).Some? ==> Held(ttl, h, value, true) == Held(ttl, h, value, false)
  {
    if h.Then? { PruningIsInvisible(ttl, h.before, value, now); }
  }

  function Get(tickets: map<string, Ticket>, value: string): Option<Ticket> {
    if value in tickets then Some(tickets[value]) else None
  }

  /** The store over its map. */
  class TicketStore {
    const ttl: int
    var tickets: map<string, Ticket>

    /** The map holds what the history says it should. */
    ghost predicate Follows(h: History)
      reads this
    {
      forall value :: Get(tickets, value) == Held(ttl, h, value, true)
    }

    constructor (ttl: int)
      ensures this.ttl == NewTicketStore(ttl) && Follows(Nothing)
    {
      this.ttl, tickets := NewTicketStore(ttl), map[];
    }

    /** `value` is the random token drawn for the ticket. */
    method Issue(value: string, holder: string, now: int, ghost h: History)
      requires Follows(h)
      modifies this
      ensures Follows(Then(h, Event.Issue(value, holder, now)))
    {
      tickets := tickets[value := Ticket(holder, now + ttl)];
      ghost var before := tickets;
      var todo := tickets.Keys;
      while todo != {}
        invariant todo <= before.Keys
        invariant forall v | v in tickets :: v in before && tickets[v] == before[v]
        invariant forall v | v in before :: v in tickets <==> v in todo || !Expired(before[v], now)
        decreases todo
      {
        var v :| v in todo;
        todo := todo - {v};
        if Expired(tickets[v], now) { tickets := tickets - {v}; }
      }
      forall v ensures Get(tickets, v) == Held(ttl, Then(h, Event.Issue(value, holder, now)), v, true) {
        assert Get(old(tickets), v) == Held(ttl, h, v, true);
      }
    }

    method Redeem(value: string, now: int, ghost h: History) returns (t: Option<Ticket>)
      requires Follows(h)
      modifies this
      ensures Follows(Then(h, Event.Redeem(value, now)))
      ensures t == Redeemed(ttl, h, value, now, true)
    {
      assert Get(tickets, value) == Held(ttl, h, value, true);
      if value == "" || value !in tickets { return None; }
      var found := tickets[value];
      tickets := tickets - {value};
      if Expired(found, now) { return None; }
      t := Some(found);
    }
  }
}

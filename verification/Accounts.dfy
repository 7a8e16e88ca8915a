/** Sign-in and account administration (internal/service/auth.go and users.go),
    one operation at a time: the source checks and writes in separate statements.
    Unless the store is reliable any read or write may fail and end the operation
    where it stands. */
module Accounts {
  import opened Text
  import opened Records
  import Sweeping

  datatype Reply = Ok | NotFound | Forbidden | BadInput | Taken | LastAdmin | Denied | Failed

  /** Every account was created with its own name lower-cased. */
  predicate Spelled(lower: string -> string, h: History) {
    h.Then? ==>
      Spelled(lower, h.before) && (h.write.CreateUser? ==> h.write.user.lowered == lower(h.write.user.username))
  }

  lemma {:induction false} SpelledIsLowered(lower: string -> string, h: History, id: string)
    requires Spelled(lower, h) && id in TablesOf(h).users
    ensures TablesOf(h).users[id].lowered == lower(TablesOf(h).users[id].username)
  {
    if id in TablesOf(h.before).users { SpelledIsLowered(lower, h.before, id); }
  }

  class Store {
    const reliable: bool
    /** strings.ToLower. */
    const lower: string -> string
    var t: Tables
    var nextToken: nat
    ghost var h: History

    /** Drawing a refresh token never repeats one. */
    ghost predicate Valid()
      reads this
    {
      t == TablesOf(h) && FreshTokens(h) && Spelled(lower, h) && forall x | x in Used(h) :: x < nextToken
    }

    constructor (reliable: bool, lower: string -> string)
      ensures Valid() && h == Nothing && this.reliable == reliable && this.lower == lower
    {
      this.reliable, this.lower, t, h, nextToken := reliable, lower, Tables(map[], map[]), Nothing, 0;
    }

    /** One statement: it takes effect whole, or fails without effect. */
    method Do(w: Write) returns (ok: bool)
      requires Valid() && !w.InsertSession?
      requires w.CreateUser? ==> w.user.lowered == lower(w.user.username)
      modifies this
      ensures Valid() && nextToken == old(nextToken)
      ensures ok ==> Possible(old(t), w) && t == Apply(old(t), w) && h == Then(old(h), w)
      ensures !ok ==> t == old(t) && h == old(h)
      ensures reliable && Possible(old(t), w) ==> ok
    {
      ok := false;
      if !reliable { if * { return; } }
      if Possible(t, w) {
        t, h, ok := Apply(t, w), Then(h, w), true;
      }
    }

    /** issuePair: a session under a new token. */
    method IssuePair(user: string, now: int, ttl: int) returns (ok: bool, hash: nat)
      requires Valid()
      modifies this
      ensures Valid() && hash == old(nextToken) && hash !in Used(old(h))
      ensures var w := InsertSession(hash, Session(user, now + ttl, false, 0));
              && (ok ==> Possible(old(t), w) && t == Apply(old(t), w) && h == Then(old(h), w))
              && (!ok ==> t == old(t) && h == old(h))
      ensures reliable && user in old(t.users) ==> ok
    {
      StoredIsUsed(h);
      hash, ok := nextToken, false;
      nextToken := nextToken + 1;
      if !reliable { if * { return; } }
      var w := InsertSession(hash, Session(user, now + ttl, false, 0));
      if Possible(t, w) {
        t, h, ok := Apply(t, w), Then(h, w), true;
      }
    }
  }

  /** A disabled account has no session that could be refreshed. */
  predicate DisabledClean(t: Tables) {
    forall hash | hash in t.sessions && t.sessions[hash].user in t.users ::
      t.users[t.sessions[hash].user].disabled ==> t.sessions[hash].revoked
  }

  predicate HoldsLive(t: Tables, id: string) {
    exists hash | hash in t.sessions :: t.sessions[hash].user == id && !t.sessions[hash].revoked
  }

  /** The last write disabled the account, and it holds a session that is not
      revoked: what comes after the disabling never happened. */
  predicate CutOff(h: History, id: string) {
    && h.Then? && h.write == SetDisabled(id, true)
    && id in TablesOf(h).users && HoldsLive(TablesOf(h), id)
  }

  /** With nobody exposed, no account can be cut off. */
  lemma CleanIsNotCutOff(h: History, id: string)
    requires DisabledClean(TablesOf(h))
    ensures !CutOff(h, id)
  {
  }

  // Administrators.

  lemma SafeWrite(t: Tables, w: Write, id: string)
    requires Possible(t, w) && HasAdmin(t)
    requires forall other | other != id :: !Demotes(w, other)
    requires !Demotes(w, id) || !IsAdmin(t, id) || OtherAdmin(t, id)
    ensures HasAdmin(Apply(t, w))
  {
    var admin :| admin in t.users && IsAdmin(t, admin);
    if Demotes(w, admin) { admin :| admin in t.users && admin != id && IsAdmin(t, admin); }
    AdminSurvives(t, w, admin);
  }

  lemma {:induction false} AdminAcross(a: History, b: History, c: History)
    requires AdminAlong(b, a) && AdminAlong(c, b)
    ensures AdminAlong(c, a)
  {
    if c != b { AdminAcross(a, b, c.before); }
  }

  /** refuseIfLastAdmin: passes exactly when somebody else can administer. */
  method RefuseIfLastAdmin(s: Store, id: string) returns (pass: bool, failed: bool)
    ensures pass ==> OtherAdmin(s.t, id)
    ensures !failed && !pass ==> !OtherAdmin(s.t, id)
    ensures s.reliable ==> !failed
  {
    if !s.reliable { if * { return false, true; } }
    pass, failed := false, false;
    var todo := s.t.users.Keys;
    while todo != {}
      invariant todo <= s.t.users.Keys && !failed && !pass
      invariant forall other | other in s.t.users && other !in todo :: other == id || !IsAdmin(s.t, other)
      decreases todo
    {
      var other :| other in todo;
      todo := todo - {other};
      if other != id && IsAdmin(s.t, other) { return true, false; }
    }
  }

  // Update, in the three stages the source runs in order.

  /** A role as the request spells it. */
  datatype RoleInput = Known(role: Role) | Unknown

  datatype PasswordInput = PasswordInput(acceptable: bool, hash: string)

  datatype UpdateInput =
    UpdateInput(role: Option<RoleInput>, disabled: Option<bool>, password: Option<PasswordInput>)

  /** Every open session of the account is ended at a time; all others, and those ended
      before, are as they were. */
  ghost predicate Ended(before: map<nat, Session>, after: map<nat, Session>, id: string, at: int) {
    && after.Keys == before.Keys
    && forall hash | hash in before ::
         after[hash] == if before[hash].user == id && !before[hash].revoked
                        then before[hash].(revoked := true, revokedAt := at) else before[hash]
  }

  /** Whether a change ends the account's sessions. */
  predicate Ending(user: User, in': UpdateInput) {
    in'.password.Some? || (in'.disabled == Some(true) && !user.disabled)
  }

  /** The account has what was asked for and otherwise what it had, every other account
      is as it was, and sessions are ended exactly where a password was set or the
      account newly disabled. */
  ghost predicate Edited(t: Tables, u: Tables, id: string, in': UpdateInput, now: int) {
    && id in t.users && id in u.users && u.users == t.users[id := u.users[id]]
    && EditedUser(t.users[id], u.users[id], in')
    && (if Ending(t.users[id], in') then Ended(t.sessions, u.sessions, id, now) else u.sessions == t.sessions)
  }

  ghost predicate EditedUser(a: User, b: User, in': UpdateInput) {
    && b.username == a.username && b.lowered == a.lowered
    && b.totpSecret == a.totpSecret && b.totpEnabled == a.totpEnabled
    && (if in'.role.Some? then in'.role == Some(Known(b.role)) else b.role == a.role)
    && (if in'.disabled.Some? then in'.disabled == Some(b.disabled) else b.disabled == a.disabled)
    && (if in'.password.Some? then in'.password == Some(PasswordInput(true, b.passwordHash))
        else b.passwordHash == a.passwordHash)
  }

  lemma EndedTwice(a: map<nat, Session>, b: map<nat, Session>, c: map<nat, Session>, id: string, at: int)
    requires Ended(a, b, id, at) && Ended(b, c, id, at)
    ensures Ended(a, c, id, at)
  {
  }

  lemma UserInTurn(a: User, b: User, c: User, d: User, in': UpdateInput)
    requires EditedUser(a, b, UpdateInput(in'.role, None, None))
    requires EditedUser(b, c, UpdateInput(None, in'.disabled, None))
    requires EditedUser(c, d, UpdateInput(None, None, in'.password))
    ensures EditedUser(a, d, in')
  {
  }

  /** The three stages one after another. */
  lemma EditedInTurn(t: Tables, u: Tables, v: Tables, w: Tables, id: string, in': UpdateInput, now: int)
    requires Edited(t, u, id, UpdateInput(in'.role, None, None), now)
    requires Edited(u, v, id, UpdateInput(None, in'.disabled, None), now)
    requires Edited(v, w, id, UpdateInput(None, None, in'.password), now)
    ensures Edited(t, w, id, in', now)
  {
    UserInTurn(t.users[id], u.users[id], v.users[id], w.users[id], in');
    assert w.users == t.users[id := w.users[id]];
    if Ended(u.sessions, v.sessions, id, now) && Ended(v.sessions, w.sessions, id, now) {
      EndedTwice(u.sessions, v.sessions, w.sessions, id, now);
    }
  }

  lemma DisablingEdits(t: Tables, id: string, disabled: bool, now: int)
    requires id in t.users && disabled != t.users[id].disabled
    ensures var u := Apply(t, SetDisabled(id, disabled));
            Edited(t, if disabled then Apply(u, RevokeAll(id, now)) else u, id,
                   UpdateInput(None, Some(disabled), None), now)
  {
  }

  /** Disabling an account exposes it exactly if it holds a session that is not revoked. */
  lemma DisablingCuts(h: History, id: string, disabled: bool)
    requires DisabledClean(TablesOf(h)) && id in TablesOf(h).users
    ensures var w := Then(h, SetDisabled(id, disabled));
            DisabledClean(TablesOf(w)) <==> !CutOff(w, id)
  {
  }

  lemma RevokingCleans(t: Tables, id: string, now: int)
    requires id in t.users && DisabledClean(t)
    ensures DisabledClean(Apply(Apply(t, SetDisabled(id, true)), RevokeAll(id, now)))
  {
  }

  method ChangeRole(s: Store, id: string, role: Option<RoleInput>) returns (r: Reply)
    requires s.Valid() && id in s.t.users
    modifies s
    ensures s.Valid() && Extends(s.h, old(s.h)) && id in s.t.users
    ensures s.reliable ==> !r.Failed?
    ensures r.Ok? ==> forall now :: Edited(old(s.t), s.t, id, UpdateInput(role, None, None), now)
    ensures !r.Ok? ==> s.t == old(s.t) && s.h == old(s.h)
    ensures r.Ok? || r.Failed? || (r.BadInput? && role == Some(Unknown))
            || (r.LastAdmin? && s.t.users[id].role == Admin && !OtherAdmin(s.t, id))
    ensures HasAdmin(old(s.t)) ==> AdminAlong(s.h, old(s.h))
    ensures DisabledClean(old(s.t)) ==> DisabledClean(s.t)
  {
    if role.None? || role.value == Known(s.t.users[id].role) { return Ok; }
    if role.value.Unknown? { return BadInput; }
    if s.t.users[id].role == Admin {
      var pass, failed := RefuseIfLastAdmin(s, id);
      if !pass { return if failed then Failed else LastAdmin; }
    }
    var w := UpdateRole(id, role.value.role);
    if HasAdmin(s.t) { SafeWrite(s.t, w, id); }
    var ok := s.Do(w);
    r := if ok then Ok else Failed;
  }

  method ChangeDisabled(s: Store, id: string, disabled: Option<bool>, now: int) returns (r: Reply)
    requires s.Valid() && id in s.t.users
    modifies s
    ensures s.Valid() && Extends(s.h, old(s.h)) && id in s.t.users
    ensures s.reliable ==> !r.Failed?
    ensures r.Ok? ==> Edited(old(s.t), s.t, id, UpdateInput(None, disabled, None), now)
    ensures r.Ok? || r.Failed?
            || (r.LastAdmin? && s.t == old(s.t) && disabled == Some(true)
                && s.t.users[id].role == Admin && !OtherAdmin(s.t, id))
    ensures HasAdmin(old(s.t)) ==> AdminAlong(s.h, old(s.h))
    ensures DisabledClean(old(s.t)) ==> (DisabledClean(s.t) <==> !CutOff(s.h, id))
    ensures s.reliable && DisabledClean(old(s.t)) ==> DisabledClean(s.t)
  {
    if disabled.None? || disabled.value == s.t.users[id].disabled { return Ok; }
    if disabled.value && s.t.users[id].role == Admin {
      var pass, failed := RefuseIfLastAdmin(s, id);
      if !pass { return if failed then Failed else LastAdmin; }
    }
    DisablingEdits(s.t, id, disabled.value, now);
    if DisabledClean(s.t) {
      DisablingCuts(s.h, id, disabled.value);
      RevokingCleans(s.t, id, now);
    }
    var w := SetDisabled(id, disabled.value);
    if HasAdmin(s.t) { SafeWrite(s.t, w, id); }
    var ok := s.Do(w);
    if !ok { return Failed; }
    if disabled.value {
      if HasAdmin(s.t) { SafeWrite(s.t, RevokeAll(id, now), id); }
      ok := s.Do(RevokeAll(id, now));
      if !ok { return Failed; }
    }
    r := Ok;
  }

  method ChangePassword(s: Store, id: string, password: Option<PasswordInput>, now: int) returns (r: Reply)
    requires s.Valid() && id in s.t.users
    modifies s
    ensures s.Valid() && Extends(s.h, old(s.h)) && id in s.t.users
    ensures s.reliable ==> !r.Failed?
    ensures r.Ok? ==> Edited(old(s.t), s.t, id, UpdateInput(None, None, password), now)
    ensures r.Ok? || r.Failed? || (r.BadInput? && s.t == old(s.t) && password.Some? && !password.value.acceptable)
    ensures HasAdmin(old(s.t)) ==> AdminAlong(s.h, old(s.h))
    ensures DisabledClean(old(s.t)) ==> DisabledClean(s.t) && !CutOff(s.h, id)
  {
    if password.None? { return Ok; }
    if !password.value.acceptable { return BadInput; }
    var w := UpdatePassword(id, password.value.hash);
    if HasAdmin(s.t) { SafeWrite(s.t, w, id); }
    var ok := s.Do(w);
    if !ok { return Failed; }
    if HasAdmin(s.t) { SafeWrite(s.t, RevokeAll(id, now), id); }
    ok := s.Do(RevokeAll(id, now));
    r := if ok then Ok else Failed;
  }

  /** The first two stages; `u` is what lies between them. */
  method ChangeAccess(s: Store, id: string, role: Option<RoleInput>, disabled: Option<bool>, now: int)
    returns (r: Reply, ghost u: Tables)
    requires s.Valid() && id in s.t.users
    modifies s
    ensures s.Valid() && Extends(s.h, old(s.h)) && id in s.t.users
    ensures s.reliable ==> !r.Failed?
    ensures r.Ok? || r.Failed? || (r.BadInput? && role == Some(Unknown))
            || (r.LastAdmin? && s.t.users[id].role == Admin && !OtherAdmin(s.t, id))
    ensures r.Ok? ==>
              && Edited(old(s.t), u, id, UpdateInput(role, None, None), now)
              && Edited(u, s.t, id, UpdateInput(None, disabled, None), now)
    ensures HasAdmin(old(s.t)) ==> AdminAlong(s.h, old(s.h))
    ensures DisabledClean(old(s.t)) ==> (DisabledClean(s.t) <==> !CutOff(s.h, id))
    ensures s.reliable && DisabledClean(old(s.t)) ==> DisabledClean(s.t)
  {
    ghost var from := s.h;
    r := ChangeRole(s, id, role);
    u := s.t;
    if !r.Ok? {
      if DisabledClean(s.t) { CleanIsNotCutOff(s.h, id); }
      return;
    }
    ghost var mid := s.h;
    r := ChangeDisabled(s, id, disabled, now);
    ExtendsAcross(from, mid, s.h);
    if HasAdmin(old(s.t)) { AdminAcross(from, mid, s.h); }
  }

  /** Update. A reply other than Ok can leave earlier stages done. */
  method Update(s: Store, id: string, in': UpdateInput, now: int) returns (r: Reply)
    requires s.Valid()
    modifies s
    ensures s.Valid() && Extends(s.h, old(s.h))
    ensures s.reliable ==> !r.Failed?
    ensures id !in old(s.t.users) ==> (r.NotFound? || r.Failed?) && s.t == old(s.t) && s.h == old(s.h)
    ensures r.Ok? || r.Failed? || (r.NotFound? && id !in old(s.t.users))
            || (r.BadInput? && (in'.role == Some(Unknown) || (in'.password.Some? && !in'.password.value.acceptable)))
            || (r.LastAdmin? && id in s.t.users && s.t.users[id].role == Admin && !OtherAdmin(s.t, id))
    ensures r.Ok? ==> Edited(old(s.t), s.t, id, in', now)
    ensures HasAdmin(old(s.t)) ==> AdminAlong(s.h, old(s.h))
    ensures DisabledClean(old(s.t)) ==> (DisabledClean(s.t) <==> !CutOff(s.h, id))
    ensures s.reliable && DisabledClean(old(s.t)) ==> DisabledClean(s.t)
  {
    if !s.reliable { if * { return Failed; } }
    if id !in s.t.users { return NotFound; }
    ghost var from, u := s.h, s.t;
    r, u := ChangeAccess(s, id, in'.role, in'.disabled, now);
    if !r.Ok? { return; }
    ghost var mid, v := s.h, s.t;
    r := ChangePassword(s, id, in'.password, now);
    ExtendsAcross(from, mid, s.h);
    if HasAdmin(old(s.t)) { AdminAcross(from, mid, s.h); }
    if r.Ok? { EditedInTurn(old(s.t), u, v, s.t, id, in', now); }
  }

  /** The account's sessions are gone, all others as they were. */
  ghost predicate GoneWith(before: map<nat, Session>, after: map<nat, Session>, id: string) {
    && (forall hash :: hash in after <==> hash in before && before[hash].user != id)
    && (forall hash | hash in after && hash in before :: after[hash] == before[hash])
  }

  method Delete(s: Store, id: string, actor: string, now: int) returns (r: Reply)
    requires s.Valid()
    modifies s
    ensures s.Valid() && Extends(s.h, old(s.h))
    ensures s.reliable ==> !r.Failed?
    ensures id == actor ==> !r.Ok? && s.h == old(s.h)
    ensures r.Ok? ==>
              && id in old(s.t.users) && s.t == Apply(Apply(old(s.t), RevokeAll(id, now)), DeleteUser(id))
              && s.t.users == old(s.t.users) - {id} && GoneWith(old(s.t.sessions), s.t.sessions, id)
    ensures r.Ok? || r.Failed? || (r.NotFound? && id !in s.t.users) || (r.Forbidden? && id == actor)
            || (r.LastAdmin? && id in s.t.users && s.t.users[id].role == Admin && !OtherAdmin(s.t, id))
    ensures HasAdmin(old(s.t)) ==> AdminAlong(s.h, old(s.h))
    ensures DisabledClean(old(s.t)) ==> DisabledClean(s.t)
  {
    if !s.reliable { if * { return Failed; } }
    if id !in s.t.users { return NotFound; }
    if id == actor { return Forbidden; }
    if s.t.users[id].role == Admin {
      var pass, failed := RefuseIfLastAdmin(s, id);
      if !pass { return if failed then Failed else LastAdmin; }
    }
    if HasAdmin(s.t) { SafeWrite(s.t, RevokeAll(id, now), id); }
    var ok := s.Do(RevokeAll(id, now));
    if !ok { return Failed; }
    if HasAdmin(s.t) {
      if OtherAdmin(old(s.t), id) { OthersKeep(old(s.t), id, now); }
      SafeWrite(s.t, DeleteUser(id), id);
    }
    ok := s.Do(DeleteUser(id));
    r := if ok then Ok else Failed;
  }

  lemma OthersKeep(t: Tables, id: string, now: int)
    requires OtherAdmin(t, id)
    ensures OtherAdmin(Apply(t, RevokeAll(id, now)), id)
  {
  }

  method ResetTOTP(s: Store, id: string, actor: string, now: int) returns (r: Reply)
    requires s.Valid()
    modifies s
    ensures s.Valid() && Extends(s.h, old(s.h))
    ensures s.reliable ==> !r.Failed?
    ensures id == actor ==> !r.Ok? && s.h == old(s.h)
    ensures r.Ok? ==>
              && id in old(s.t.users)
              && s.t == Apply(Apply(old(s.t), SetTOTP(id, "", false)), RevokeAll(id, now))
              && s.t.users == old(s.t.users)[id := old(s.t.users)[id].(totpSecret := "", totpEnabled := false)]
              && Ended(old(s.t.sessions), s.t.sessions, id, now)
    ensures r.Ok? || r.Failed? || (r.NotFound? && id !in s.t.users) || (r.Forbidden? && id == actor)
    ensures HasAdmin(old(s.t)) ==> AdminAlong(s.h, old(s.h))
    ensures DisabledClean(old(s.t)) ==> DisabledClean(s.t)
  {
    if !s.reliable { if * { return Failed; } }
    if id !in s.t.users { return NotFound; }
    if id == actor { return Forbidden; }
    if HasAdmin(s.t) { SafeWrite(s.t, SetTOTP(id, "", false), id); }
    var ok := s.Do(SetTOTP(id, "", false));
    if !ok { return Failed; }
    if HasAdmin(s.t) { SafeWrite(s.t, RevokeAll(id, now), id); }
    ok := s.Do(RevokeAll(id, now));
    r := if ok then Ok else Failed;
  }

  /** The id or the name, whatever its case, belongs to somebody. */
  predicate InUse(t: Tables, id: string, lowered: string) {
    id in t.users || exists other | other in t.users :: t.users[other].lowered == lowered
  }

  /** The account a request asks for, under the trimmed name. */
  function Asked(lower: string -> string, username: string, role: Role, password: PasswordInput): User {
    var name := TrimSpace(username);
    User(name, lower(name), role, false, password.hash, "", false)
  }

  /** Create, also the first half of Bootstrap. */
  method Create(s: Store, id: string, username: string, role: RoleInput, password: PasswordInput) returns (r: Reply)
    requires s.Valid()
    modifies s
    ensures s.Valid() && Extends(s.h, old(s.h))
    ensures s.reliable ==> !r.Failed?
    ensures !r.Ok? ==> s.t == old(s.t) && s.h == old(s.h)
    ensures s.nextToken == old(s.nextToken)
    ensures r.BadInput? <==> TrimSpace(username) == "" || role.Unknown? || !password.acceptable
    ensures r.Taken? ==> InUse(s.t, id, s.lower(TrimSpace(username)))
    ensures r.Ok? || r.Failed? || r.BadInput? || r.Taken?
    ensures r.Ok? ==>
              && !InUse(old(s.t), id, s.lower(TrimSpace(username)))
              && (var w := CreateUser(id, Asked(s.lower, username, role.role, password));
                  Possible(old(s.t), w) && s.t == Apply(old(s.t), w) && s.h == Then(old(s.h), w))
              && var name := TrimSpace(username);
                 s.t == old(s.t).(users := old(s.t.users)[id :=
                   User(name, s.lower(name), role.role, false, password.hash, "", false)])
    ensures HasAdmin(old(s.t)) ==> AdminAlong(s.h, old(s.h))
    ensures DisabledClean(old(s.t)) ==> DisabledClean(s.t)
  {
    if TrimSpace(username) == "" || role.Unknown? || !password.acceptable { return BadInput; }
    if !s.reliable { if * { return Failed; } }
    var w := CreateUser(id, Asked(s.lower, username, role.role, password));
    if !Possible(s.t, w) { return Taken; }
    var ok := s.Do(w);
    if ok && HasAdmin(old(s.t)) { SafeWrite(old(s.t), w, id); }
    r := if ok then Ok else Failed;
  }

  /** Bootstrap: the first account is an administrator, and there is one first
      account only. */
  method Bootstrap(s: Store, id: string, username: string, password: PasswordInput, now: int, ttl: int)
    returns (r: Reply)
    requires s.Valid()
    modifies s
    ensures s.Valid() && Extends(s.h, old(s.h))
    ensures s.reliable ==> !r.Failed?
    ensures old(s.t.users) != map[] ==> !r.Ok? && s.t == old(s.t) && s.h == old(s.h)
    ensures r.Ok? ==>
              && IsAdmin(s.t, id)
              && s.t.sessions == old(s.t.sessions)[old(s.nextToken) := Session(id, now + ttl, false, 0)]
              && var name := TrimSpace(username);
                 s.t.users == map[id := User(name, s.lower(name), Admin, false, password.hash, "", false)]
    ensures r.Ok? || r.Failed? || (r.BadInput? && (TrimSpace(username) == "" || !password.acceptable))
            || (r.Forbidden? && old(s.t.users) != map[])
    ensures AdminAlong(s.h, old(s.h))
    ensures DisabledClean(old(s.t)) ==> DisabledClean(s.t)
  {
    if !s.reliable { if * { return Failed; } }
    if s.t.users != map[] { return Forbidden; }
    r := Create(s, id, username, Known(Admin), password);
    if !r.Ok? { return; }
    assert IsAdmin(s.t, id);
    var ok, _ := s.IssuePair(id, now, ttl);
    assert IsAdmin(s.t, id);
    if !ok { return Failed; }
  }

  /** The account a name, whatever its case, refers to. */
  predicate Named(t: Tables, id: string, lowered: string) {
    id in t.users && t.users[id].lowered == lowered
  }

  predicate UniqueNames(t: Tables) {
    forall a, b | a in t.users && b in t.users && t.users[a].lowered == t.users[b].lowered :: a == b
  }

  lemma UniqueStep(t: Tables, w: Write)
    requires UniqueNames(t) && Possible(t, w)
    ensures UniqueNames(Apply(t, w))
  {
  }

  lemma {:induction false} NamesAreUnique(h: History)
    ensures UniqueNames(TablesOf(h))
  {
    if h.Then? {
      NamesAreUnique(h.before);
      if Possible(TablesOf(h.before), h.write) { UniqueStep(TablesOf(h.before), h.write); }
    }
  }

  /** Login past the limiter. `proven` tells whether the password, and the second
      factor where there is one, were right for the account found. */
  method Login(s: Store, username: string, proven: bool, now: int, ttl: int) returns (r: Reply, hash: nat)
    requires s.Valid()
    modifies s
    ensures s.Valid() && Extends(s.h, old(s.h)) && s.t.users == old(s.t.users)
    ensures s.reliable ==> !r.Failed?
    ensures !r.Ok? ==> s.t == old(s.t) && s.h == old(s.h)
    ensures r.Ok? ==>
              && proven && hash !in Used(old(s.h)) && hash in s.t.sessions && !Dead(s.t, hash)
              && s.t.sessions == old(s.t.sessions)[hash := Session(s.t.sessions[hash].user, now + ttl, false, 0)]
              && Named(old(s.t), s.t.sessions[hash].user, s.lower(TrimSpace(username)))
              && s.lower(s.t.users[s.t.sessions[hash].user].username) == s.lower(TrimSpace(username))
              && !s.t.users[s.t.sessions[hash].user].disabled
    ensures r.Ok? || r.Failed? || r.Denied?
    ensures r.Denied? && proven ==> forall id | Named(s.t, id, s.lower(TrimSpace(username))) :: s.t.users[id].disabled
    ensures HasAdmin(old(s.t)) ==> AdminAlong(s.h, old(s.h))
    ensures DisabledClean(old(s.t)) ==> DisabledClean(s.t)
  {
    hash := 0;
    if !s.reliable { if * { return Failed, 0; } }
    var lowered := s.lower(TrimSpace(username));
    if !exists id | id in s.t.users :: Named(s.t, id, lowered) { return Denied, 0; }
    var id :| id in s.t.users && Named(s.t, id, lowered);
    NamesAreUnique(s.h);
    SpelledIsLowered(s.lower, s.h, id);
    if !proven || s.t.users[id].disabled { return Denied, 0; }
    var ok;
    ok, hash := s.IssuePair(id, now, ttl);
    if ok && HasAdmin(old(s.t)) {
      SafeWrite(old(s.t), InsertSession(hash, Session(id, now + ttl, false, 0)), id);
    }
    r := if ok then Ok else Failed;
  }

  /** The tables between before an exchange and after it. */
  ghost predicate Exchanging(t: Tables, u: Tables, hash: nat, user: string, token: nat, now: int, ttl: int) {
    var revoked, w := Apply(t, Revoke(hash, now)), InsertSession(token, Session(user, now + ttl, false, 0));
    u == t || u == revoked || (Possible(revoked, w) && u == Apply(revoked, w))
  }

  /** A session of somebody who may use it. */
  predicate Usable(t: Tables, hash: nat, now: int) {
    && hash in t.sessions && !t.sessions[hash].revoked && now < t.sessions[hash].expiresAt
    && t.sessions[hash].user in t.users && !t.users[t.sessions[hash].user].disabled
  }

  /** A session that would be, but for the account being disabled. */
  predicate Barred(t: Tables, hash: nat, now: int) {
    && hash in t.sessions && !t.sessions[hash].revoked && now < t.sessions[hash].expiresAt
    && t.sessions[hash].user in t.users && t.users[t.sessions[hash].user].disabled
  }

  lemma AnswerMeans(t: Tables, hash: nat, now: int)
    ensures RefreshAnswer(t, hash, now).Good? <==> Usable(t, hash, now)
    ensures RefreshAnswer(t, hash, now).Disabled? <==> Barred(t, hash, now)
    ensures Usable(t, hash, now) ==> RefreshAnswer(t, hash, now).user == t.sessions[hash].user
  {
  }

  /** One session is ended, a new one of the same account is there, and all others are as
      they were. */
  ghost predicate Exchanged(before: map<nat, Session>, after: map<nat, Session>, hash: nat, issued: nat, now: int,
                            ttl: int)
  {
    && hash in before && issued !in before
    && after == before[hash := before[hash].(revoked := true, revokedAt := now)]
                      [issued := Session(before[hash].user, now + ttl, false, 0)]
  }

  /** The exchange: the old token is revoked before anything else. */
  method Exchange(s: Store, hash: nat, now: int, ttl: int) returns (ok: bool, issued: nat)
    requires s.Valid() && RefreshAnswer(s.t, hash, now).Good?
    modifies s
    ensures s.Valid() && Extends(s.h, old(s.h)) && s.t.users == old(s.t.users)
    ensures s.reliable ==> ok
    ensures Exchanging(old(s.t), s.t, hash, old(s.t.sessions[hash].user), old(s.nextToken), now, ttl)
    ensures ok ==> issued !in Used(old(s.h)) && Exchanged(old(s.t.sessions), s.t.sessions, hash, issued, now, ttl)
    ensures ok || s.h != old(s.h) ==> Dead(s.t, hash)
    ensures HasAdmin(old(s.t)) ==> AdminAlong(s.h, old(s.h))
    ensures DisabledClean(old(s.t)) ==> DisabledClean(s.t)
  {
    var user := s.t.sessions[hash].user;
    if HasAdmin(s.t) { SafeWrite(s.t, Revoke(hash, now), user); }
    StoredIsUsed(s.h);
    ok := s.Do(Revoke(hash, now));
    if !ok { return false, 0; }
    ghost var mid := s.t;
    ok, issued := s.IssuePair(user, now, ttl);
    if ok && HasAdmin(mid) { SafeWrite(mid, InsertSession(issued, Session(user, now + ttl, false, 0)), user); }
  }

  /** The tables are those after the operation, with some of its writes made. */
  ghost predicate Follows(t: Tables, u: Tables, hash: nat, token: nat, now: int, ttl: int) {
    exists n: nat | n <= 2 :: u == Sweeping.After(t, Sweeping.Refresh(hash, token, ttl, n), now)
  }

  /** Refresh: exchanges a live token. */
  method Refresh(s: Store, hash: nat, now: int, ttl: int) returns (r: Reply, issued: nat)
    requires s.Valid()
    modifies s
    ensures s.Valid() && Extends(s.h, old(s.h)) && s.t.users == old(s.t.users)
    ensures s.reliable ==> !r.Failed?
    ensures r.Ok? || r.Failed? || r.Denied? || r.Forbidden?
    ensures r.Ok? ==>
              && Usable(old(s.t), hash, now) && Dead(s.t, hash) && issued !in Used(old(s.h))
              && Exchanged(old(s.t.sessions), s.t.sessions, hash, issued, now, ttl)
    ensures r.Denied? ==> !Usable(old(s.t), hash, now) && !Barred(old(s.t), hash, now)
    // Trying a token of a disabled account ends all its sessions.
    ensures r.Forbidden? ==> Barred(old(s.t), hash, now)
    ensures r.Forbidden? && s.reliable ==>
              Ended(old(s.t.sessions), s.t.sessions, old(s.t.sessions)[hash].user, now)
    ensures !Usable(old(s.t), hash, now) && !Barred(old(s.t), hash, now) ==> s.t == old(s.t) && s.h == old(s.h)
    ensures Usable(old(s.t), hash, now) && s.h != old(s.h) ==> Dead(s.t, hash)
    ensures Follows(old(s.t), s.t, hash, old(s.nextToken), now, ttl)
    ensures HasAdmin(old(s.t)) ==> AdminAlong(s.h, old(s.h))
    ensures DisabledClean(old(s.t)) ==> DisabledClean(s.t)
  {
    Sweeping.RefreshSteps(s.t, hash, s.nextToken, ttl, now);
    AnswerMeans(s.t, hash, now);
    if !s.reliable { if * { return Failed, 0; } }
    var answer := RefreshAnswer(s.t, hash, now);
    if answer.Invalid? { return Denied, 0; }
    if answer.Disabled? {
      var user := s.t.sessions[hash].user;
      if HasAdmin(s.t) { SafeWrite(s.t, RevokeAll(user, now), user); }
      var _ := s.Do(RevokeAll(user, now));
      return Forbidden, 0;
    }
    var ok;
    ok, issued := Exchange(s, hash, now, ttl);
    r := if ok then Ok else Failed;
  }

  method Logout(s: Store, hash: nat, now: int) returns (r: Reply)
    requires s.Valid()
    modifies s
    ensures s.Valid() && Extends(s.h, old(s.h))
    ensures r.Ok? || r.Failed?
    ensures s.reliable ==> !r.Failed?
    ensures r.Ok? ==>
              && Dead(s.t, hash) && s.t == Apply(old(s.t), Revoke(hash, now))
              && (Dead(old(s.t), hash) ==> s.t == old(s.t))
              && (!Dead(old(s.t), hash) ==>
                    s.t.sessions[hash] == old(s.t.sessions)[hash].(revoked := true, revokedAt := now))
    ensures !r.Ok? ==> s.t == old(s.t) && s.h == old(s.h)
    ensures OthersStay(old(s.t), s.t, hash)
    ensures HasAdmin(old(s.t)) ==> AdminAlong(s.h, old(s.h))
    ensures DisabledClean(old(s.t)) ==> DisabledClean(s.t)
  {
    if !s.reliable { if * { return Failed; } }
    if hash !in s.t.sessions { return Ok; }
    if HasAdmin(s.t) { SafeWrite(s.t, Revoke(hash, now), ""); }
    var ok := s.Do(Revoke(hash, now));
    r := if ok then Ok else Failed;
  }

  /** Accounts and all sessions but one are as they were. */
  ghost predicate OthersStay(before: Tables, after: Tables, hash: nat) {
    && after.users == before.users && after.sessions.Keys == before.sessions.Keys
    && forall x | x in before.sessions && x != hash :: after.sessions[x] == before.sessions[x]
  }

  /** Sessions that expired, or were ended, before the cutoff are gone and nothing else. */
  ghost predicate Pruned(before: Tables, after: Tables, cutoff: int) {
    && after.users == before.users
    && (forall hash :: hash in after.sessions <==>
          && hash in before.sessions && before.sessions[hash].expiresAt >= cutoff
          && (before.sessions[hash].revoked ==> before.sessions[hash].revokedAt >= cutoff))
    && (forall hash | hash in after.sessions && hash in before.sessions ::
          after.sessions[hash] == before.sessions[hash])
  }

  /** The housekeeping sweep. */
  method Sweep(s: Store, cutoff: int)
    requires s.Valid()
    modifies s
    ensures s.Valid() && Extends(s.h, old(s.h))
    ensures s.t == old(s.t) || Pruned(old(s.t), s.t, cutoff)
    ensures s.reliable ==> Pruned(old(s.t), s.t, cutoff)
    ensures HasAdmin(old(s.t)) ==> AdminAlong(s.h, old(s.h))
    ensures DisabledClean(old(s.t)) ==> DisabledClean(s.t)
  {
    if HasAdmin(s.t) { SafeWrite(s.t, DeleteExpired(cutoff), ""); }
    var _ := s.Do(DeleteExpired(cutoff));
  }

  // What ends a session.

  /** The sessions of an account. */
  function SessionsOf(t: Tables, id: string): set<nat> {
    set hash | hash in t.sessions && t.sessions[hash].user == id
  }

  ghost predicate AllDead(t: Tables, hashes: set<nat>) {
    forall hash | hash in hashes :: Dead(t, hash)
  }

  /** A password reset that succeeds ends every session of the account. */
  lemma ResetEndsSessions(t: Tables, u: Tables, id: string, in': UpdateInput, now: int)
    requires Edited(t, u, id, in', now) && in'.password.Some?
    ensures AllDead(u, SessionsOf(t, id))
  {
  }

  /** Disabling an account succeeds without ending its sessions when the account
      is already disabled: what the sessions are worth then depends on how it got
      disabled. */
  lemma DisableEndsSessionsIff(t: Tables, u: Tables, id: string, in': UpdateInput, now: int)
    requires Edited(t, u, id, in', now) && in'.disabled == Some(true) && in'.password.None?
    ensures AllDead(u, SessionsOf(t, id)) <==> !t.users[id].disabled || AllDead(t, SessionsOf(t, id))
  {
    if t.users[id].disabled {
      assert forall hash | hash in SessionsOf(t, id) :: Dead(u, hash) <==> Dead(t, hash);
    }
  }

  /** How that comes about: a disable whose last write fails, the same request
      again, then enabling the account. The old session can be refreshed. */
  lemma RetriedDisableKeepsSession(t: Tables, u: Tables, v: Tables, id: string, hash: nat, now: int)
    requires Usable(t, hash, now) && t.sessions[hash].user == id
    requires Edited(Apply(t, SetDisabled(id, true)), u, id, UpdateInput(None, Some(true), None), now)
    requires Edited(u, v, id, UpdateInput(None, Some(false), None), now)
    ensures Usable(v, hash, now)
  {
  }

  lemma DeleteEndsSessions(t: Tables, id: string, now: int)
    requires id in t.users
    ensures AllDead(Apply(Apply(t, RevokeAll(id, now)), DeleteUser(id)), SessionsOf(t, id))
    ensures AllDead(Apply(Apply(t, SetTOTP(id, "", false)), RevokeAll(id, now)), SessionsOf(t, id))
  {
  }

  /** Checked and written apart, two demotions can pass the check together and
      leave nobody: the rule holds for operations taken one at a time. */
  lemma InterleavedDemotions(a: string, b: string, x: User, y: User)
    requires a != b && x.role == Admin && y.role == Admin && !x.disabled && !y.disabled
    ensures var t := Tables(map[a := x, b := y], map[]);
            && OtherAdmin(t, a) && OtherAdmin(t, b)
            && !HasAdmin(Apply(Apply(t, SetDisabled(a, true)), SetDisabled(b, true)))
  {
    var t := Tables(map[a := x, b := y], map[]);
    assert IsAdmin(t, a) && IsAdmin(t, b);
  }

  // Whole runs.

  datatype Op =
    | DoBootstrap(id: string, username: string, password: PasswordInput)
    | DoLogin(username: string, proven: bool)
    | DoRefresh(hash: nat)
    | DoLogout(hash: nat)
    | DoCreate(id: string, username: string, role: RoleInput, password: PasswordInput)
    | DoUpdate(id: string, change: UpdateInput)
    | DoDelete(actor: string, id: string)
    | DoResetTOTP(actor: string, id: string)
    | DoSweep(cutoff: int)

  /** A run: each operation with its reply and the writes up to its end, latest
      outermost. */
  datatype Run = Begin | Did(before: Run, op: Op, reply: Reply, to: History)

  /** The writes of a run. */
  function Writes(run: Run): History {
    if run.Begin? then Nothing else run.to
  }

  /** The sessions an operation ends when it succeeds. */
  function Ends(op: Op, reply: Reply, t: Tables): set<nat> {
    if !reply.Ok? then {} else
    match op
    case DoRefresh(hash) => {hash} * t.sessions.Keys
    case DoLogout(hash) => {hash} * t.sessions.Keys
    case DoUpdate(id, change) =>
      if change.password.Some? || (change.disabled == Some(true) && id in t.users && !t.users[id].disabled)
      then SessionsOf(t, id) else {}
    case DoDelete(_, id) => SessionsOf(t, id)
    case DoResetTOTP(_, id) => SessionsOf(t, id)
    case _ => {}
  }

  function Spent(run: Run): set<nat> {
    match run
    case Begin => {}
    case Did(before, op, reply, _) => Spent(before) + Ends(op, reply, TablesOf(Writes(before)))
  }

  /** No token is exchanged after it was exchanged or its session ended. */
  predicate Clean(run: Run) {
    match run
    case Begin => true
    case Did(before, op, reply, _) => Clean(before) && (op.DoRefresh? && reply.Ok? ==> op.hash !in Spent(before))
  }

  function Boots(run: Run): nat {
    match run
    case Begin => 0
    case Did(before, op, reply, _) => Boots(before) + if op.DoBootstrap? && reply.Ok? then 1 else 0
  }

  function OpsOf(run: Run): seq<Op> {
    if run.Begin? then [] else OpsOf(run.before) + [run.op]
  }

  function RepliesOf(run: Run): seq<Reply> {
    if run.Begin? then [] else RepliesOf(run.before) + [run.reply]
  }

  /** Each operation goes on from the writes before it. */
  predicate Chained(run: Run) {
    run.Did? ==> Chained(run.before) && Extends(run.to, Writes(run.before))
  }

  /** After every operation no disabled account holds a session that is not revoked. */
  predicate NeverExposed(run: Run) {
    run.Did? ==> NeverExposed(run.before) && DisabledClean(TablesOf(run.to))
  }

  /** No update stopped between disabling an account that holds such a session and
      revoking it. */
  predicate NeverCutOff(run: Run) {
    run.Did? ==> NeverCutOff(run.before) && !(run.op.DoUpdate? && CutOff(run.to, run.op.id))
  }

  /** Once there is an account there is always an enabled administrator, after
      every single write, and never again no account. */
  ghost predicate Administered(h: History) {
    h.Then? ==>
      && Administered(h.before)
      && (TablesOf(h).users == map[] || HasAdmin(TablesOf(h)))
      && (TablesOf(h.before).users != map[] ==> TablesOf(h).users != map[])
  }

  lemma {:induction false} StaysAdministered(h: History, from: History)
    requires Administered(from) && AdminAlong(h, from)
    ensures Administered(h)
  {
    if h != from {
      StaysAdministered(h.before, from);
      var admin :| admin in TablesOf(h).users && IsAdmin(TablesOf(h), admin);
    }
  }

  lemma AdminEnd(h: History, from: History)
    requires AdminAlong(h, from) && HasAdmin(TablesOf(from))
    ensures HasAdmin(TablesOf(h)) && TablesOf(h).users != map[]
  {
    var admin :| admin in TablesOf(h).users && IsAdmin(TablesOf(h), admin);
  }

  ghost predicate SpentIsDead(h: History, run: Run) {
    forall x | x in Spent(run) :: x in Used(h) && Dead(TablesOf(h), x)
  }

  /** What every step keeps of a run. */
  ghost predicate RunInv(run: Run) {
    var h := Writes(run);
    && Administered(h) && FreshTokens(h) && Chained(run) && Clean(run) && SpentIsDead(h, run)
    && (TablesOf(h).users == map[] || HasAdmin(TablesOf(h))) && (NeverExposed(run) <==> NeverCutOff(run))
    && Boots(run) <= (if TablesOf(h).users == map[] then 0 else 1)
  }

  lemma SpentStaysDead(h: History, run: Run, op: Op, reply: Reply)
    requires Extends(h, Writes(run)) && FreshTokens(h) && SpentIsDead(Writes(run), run)
    requires AllDead(TablesOf(h), Ends(op, reply, TablesOf(Writes(run))))
    ensures SpentIsDead(h, Did(run, op, reply, h))
  {
    var from := Writes(run);
    UsedGrows(h, from);
    StoredIsUsed(from);
    forall x | x in Spent(run) ensures x in Used(h) && Dead(TablesOf(h), x) { DeadForever(h, from, x); }
  }

  /** What an operation does to exposure: only an update can expose an account, and
      exactly by being cut off. */
  ghost predicate ExposesIff(op: Op, from: History, h: History) {
    DisabledClean(TablesOf(from)) ==> (DisabledClean(TablesOf(h)) <==> !(op.DoUpdate? && CutOff(h, op.id)))
  }

  lemma {:induction false} ExposedIff(run: Run, op: Op, reply: Reply, h: History)
    requires NeverExposed(run) <==> NeverCutOff(run)
    requires ExposesIff(op, Writes(run), h)
    ensures NeverExposed(Did(run, op, reply, h)) <==> NeverCutOff(Did(run, op, reply, h))
  {
    if NeverExposed(run) {
      assert DisabledClean(TablesOf(Writes(run)));
    }
  }

  /** An operation on accounts in place keeps the invariant. */
  lemma StepKeeps(h: History, run: Run, op: Op, reply: Reply)
    requires RunInv(run) && HasAdmin(TablesOf(Writes(run))) && !op.DoBootstrap?
    requires Extends(h, Writes(run)) && FreshTokens(h) && AdminAlong(h, Writes(run))
    requires AllDead(TablesOf(h), Ends(op, reply, TablesOf(Writes(run))))
    requires op.DoRefresh? && reply.Ok? ==> !Dead(TablesOf(Writes(run)), op.hash)
    requires ExposesIff(op, Writes(run), h)
    ensures RunInv(Did(run, op, reply, h))
  {
    StaysAdministered(h, Writes(run));
    AdminEnd(h, Writes(run));
    SpentStaysDead(h, run, op, reply);
    ExposedIff(run, op, reply, h);
  }

  method Administer(s: Store, op: Op, now: int) returns (r: Reply)
    requires s.Valid() && (op.DoCreate? || op.DoUpdate? || op.DoDelete? || op.DoResetTOTP?)
    modifies s
    ensures s.Valid() && Extends(s.h, old(s.h))
    ensures HasAdmin(old(s.t)) ==> AdminAlong(s.h, old(s.h))
    ensures s.reliable && DisabledClean(old(s.t)) ==> DisabledClean(s.t)
    ensures AllDead(s.t, Ends(op, r, old(s.t)))
    ensures ExposesIff(op, old(s.h), s.h)
  {
    match op {
      case DoCreate(id, username, role, password) => r := Create(s, id, username, role, password);
      case DoUpdate(id, change) =>
        r := Update(s, id, change, now);
      case DoDelete(actor, id) =>
        r := Delete(s, id, actor, now);
        if r.Ok? { DeleteEndsSessions(old(s.t), id, now); }
      case DoResetTOTP(actor, id) =>
        r := ResetTOTP(s, id, actor, now);
        if r.Ok? { DeleteEndsSessions(old(s.t), id, now); }
    }
  }

  /** An operation other than Bootstrap. Who may ask for it is not decided here. */
  method Serve(s: Store, op: Op, now: int, ttl: int) returns (r: Reply)
    requires s.Valid() && HasAdmin(s.t) && !op.DoBootstrap?
    modifies s
    ensures s.Valid() && Extends(s.h, old(s.h)) && AdminAlong(s.h, old(s.h))
    ensures s.reliable && DisabledClean(old(s.t)) ==> DisabledClean(s.t)
    ensures AllDead(s.t, Ends(op, r, old(s.t)))
    ensures ExposesIff(op, old(s.h), s.h)
    ensures op.DoRefresh? && r.Ok? ==> !Dead(old(s.t), op.hash)
  {
    if op.DoLogin? {
      var reply, _ := Login(s, op.username, op.proven, now, ttl);
      r := reply;
    } else if op.DoRefresh? {
      var reply, _ := Refresh(s, op.hash, now, ttl);
      r := reply;
    } else if op.DoLogout? {
      r := Logout(s, op.hash, now);
    } else if op.DoSweep? {
      Sweep(s, op.cutoff);
      r := Ok;
    } else {
      r := Administer(s, op, now);
    }
  }

  /** One operation of a run. Without an account nobody can sign in, so everything
      but Bootstrap is turned away. */
  method Step(s: Store, op: Op, now: int, ttl: int, ghost run: Run) returns (r: Reply, ghost run': Run)
    requires s.Valid() && RunInv(run) && s.h == Writes(run)
    modifies s
    ensures s.Valid() && RunInv(run') && run' == Did(run, op, r, s.h)
    ensures s.reliable && NeverExposed(run) ==> NeverExposed(run')
  {
    ghost var from := s.h;
    if op.DoBootstrap? {
      r := Bootstrap(s, op.id, op.username, op.password, now, ttl);
      StaysAdministered(s.h, from);
      SpentStaysDead(s.h, run, op, r);
      ExposedIff(run, op, r, s.h);
      if HasAdmin(TablesOf(from)) { AdminEnd(s.h, from); }
    } else if s.t.users == map[] {
      r := Denied;
      SpentStaysDead(s.h, run, op, r);
      if DisabledClean(TablesOf(from)) && op.DoUpdate? { CleanIsNotCutOff(s.h, op.id); }
      ExposedIff(run, op, r, s.h);
    } else {
      r := Serve(s, op, now, ttl);
      StepKeeps(s.h, run, op, r);
    }
    run' := Did(run, op, r, s.h);
  }

  /** Every run of operations, each of them failing wherever it likes: each
      refresh token is exchanged at most once and never after its session was
      ended, somebody can administer after every write, Bootstrap succeeds at
      most once, and no disabled account ever holds a session that is not revoked
      if and only if no update was cut off between disabling and revoking. */
  method RunAll(s: Store, ops: seq<Op>, times: seq<int>, ttl: int) returns (replies: seq<Reply>, ghost run: Run)
    requires s.Valid() && s.h == Nothing && |times| == |ops|
    modifies s
    ensures OpsOf(run) == ops && RepliesOf(run) == replies && Chained(run) && Writes(run) == s.h
    ensures s.Valid() && Clean(run) && Administered(s.h) && Boots(run) <= 1
    ensures NeverExposed(run) <==> NeverCutOff(run)
    ensures s.reliable ==> NeverExposed(run)
  {
    replies, run := [], Begin;
    for i := 0 to |ops|
      invariant s.Valid() && RunInv(run) && s.h == Writes(run) && (s.reliable ==> NeverExposed(run))
      invariant OpsOf(run) == ops[..i] && RepliesOf(run) == replies
    {
      var r;
      r, run := Step(s, ops[i], times[i], ttl, run);
      replies := replies + [r];
      assert ops[..i + 1] == ops[..i] + [ops[i]];
    }
  }
}

/** The account and session tables (internal/store/users.go and sessions.go), one
    write at a time. A session is identified by the hash of its refresh token,
    a number drawn afresh each time; times are integers. An account carries the
    lower-cased form of its name beside the name. */
module Records {
  datatype Role = Admin | Operator | Viewer

  datatype User =
    User(username: string, lowered: string, role: Role, disabled: bool, passwordHash: string, totpSecret: string,
         totpEnabled: bool)

  datatype Session = Session(user: string, expiresAt: int, revoked: bool, revokedAt: int) {
    predicate Active(now: int) {
      !revoked && now < expiresAt
    }
  }

  datatype Tables = Tables(users: map<string, User>, sessions: map<nat, Session>)

  datatype Write =
    | CreateUser(id: string, user: User)
    | UpdateRole(id: string, role: Role)
    | SetDisabled(id: string, disabled: bool)
    | UpdatePassword(id: string, password: string)
    | SetTOTP(id: string, secret: string, enabled: bool)
    | DeleteUser(id: string)
    | InsertSession(hash: nat, session: Session)
    | Revoke(hash: nat, at: int)
    | RevokeAll(id: string, at: int)
    | DeleteExpired(cutoff: int)

  /** What the schema lets through: ids, lower-cased names and hashes are unique, a
      session belongs to an account, and an account write needs its account. */
  predicate Possible(t: Tables, w: Write) {
    match w
    case CreateUser(id, user) =>
      id !in t.users && forall other | other in t.users :: t.users[other].lowered != user.lowered
    case InsertSession(hash, session) => hash !in t.sessions && session.user in t.users
    case UpdateRole(id, _) => id in t.users
    case SetDisabled(id, _) => id in t.users
    case UpdatePassword(id, _) => id in t.users
    case SetTOTP(id, _, _) => id in t.users
    case DeleteUser(id) => id in t.users
    case Revoke(_, _) => true
    case RevokeAll(_, _) => true
    case DeleteExpired(_) => true
  }

  function Revoked(s: Session, at: int): Session {
    if s.revoked then s else s.(revoked := true, revokedAt := at)
  }

  predicate Stale(s: Session, cutoff: int) {
    s.expiresAt < cutoff || (s.revoked && s.revokedAt < cutoff)
  }

  function Apply(t: Tables, w: Write): Tables
    requires Possible(t, w)
  {
    match w
    case CreateUser(id, user) => t.(users := t.users[id := user])
    case UpdateRole(id, role) => t.(users := t.users[id := t.users[id].(role := role)])
    case SetDisabled(id, disabled) => t.(users := t.users[id := t.users[id].(disabled := disabled)])
    case UpdatePassword(id, password) => t.(users := t.users[id := t.users[id].(passwordHash := password)])
    case SetTOTP(id, secret, enabled) =>
      t.(users := t.users[id := t.users[id].(totpSecret := secret, totpEnabled := enabled)])
    case DeleteUser(id) =>
      // Sessions go with their account.
      Tables(t.users - {id}, map h | h in t.sessions && t.sessions[h].user != id :: t.sessions[h])
    case InsertSession(hash, session) => t.(sessions := t.sessions[hash := session])
    case Revoke(hash, at) =>
      if hash in t.sessions then t.(sessions := t.sessions[hash := Revoked(t.sessions[hash], at)]) else t
    case RevokeAll(id, at) =>
      t.(sessions := map h | h in t.sessions ::
           if t.sessions[h].user == id then Revoked(t.sessions[h], at) else t.sessions[h])
    case DeleteExpired(cutoff) =>
      t.(sessions := map h | h in t.sessions && !Stale(t.sessions[h], cutoff) :: t.sessions[h])
  }

  /** The writes so far, latest outermost; an impossible one has no effect. */
  datatype History = Nothing | Then(before: History, write: Write)

  function TablesOf(h: History): Tables {
    match h
    case Nothing => Tables(map[], map[])
    case Then(before, w) =>
      var t := TablesOf(before);
      if Possible(t, w) then Apply(t, w) else t
  }

  // Someone can always administer.

  predicate IsAdmin(t: Tables, id: string) {
    id in t.users && t.users[id].role == Admin && !t.users[id].disabled
  }

  ghost predicate HasAdmin(t: Tables) {
    exists id | id in t.users :: IsAdmin(t, id)
  }

  /** An enabled admin other than this account. */
  ghost predicate OtherAdmin(t: Tables, id: string) {
    exists other | other in t.users :: other != id && IsAdmin(t, other)
  }

  /** Every state from `from` on has an enabled admin. */
  ghost predicate AdminAlong(h: History, from: History) {
    h == from || (h.Then? && HasAdmin(TablesOf(h)) && AdminAlong(h.before, from))
  }

  /** The accounts a write can cost their admin rights. */
  predicate Demotes(w: Write, id: string) {
    match w
    case UpdateRole(x, role) => x == id && role != Admin
    case SetDisabled(x, disabled) => x == id && disabled
    case DeleteUser(x) => x == id
    case _ => false
  }

  lemma AdminSurvives(t: Tables, w: Write, id: string)
    requires Possible(t, w) && IsAdmin(t, id) && !Demotes(w, id)
    ensures IsAdmin(Apply(t, w), id)
  {
  }

  // Sessions.

  /** No refresh can use the session any more. */
  predicate Dead(t: Tables, hash: nat) {
    hash in t.sessions ==> t.sessions[hash].revoked
  }

  function Used(h: History): set<nat> {
    if h.Nothing? then {}
    else Used(h.before) + if h.write.InsertSession? then {h.write.hash} else {}
  }

  /** Refresh tokens are random: no hash is ever inserted twice. */
  predicate FreshTokens(h: History) {
    h.Then? ==>
      FreshTokens(h.before) && (h.write.InsertSession? ==> h.write.hash !in Used(h.before))
  }

  predicate Extends(h: History, from: History) {
    h == from || (h.Then? && Extends(h.before, from))
  }

  lemma {:induction false} UsedGrows(h: History, from: History)
    requires Extends(h, from)
    ensures Used(from) <= Used(h)
  {
    if h != from { UsedGrows(h.before, from); }
  }

  lemma {:induction false} ExtendsAcross(a: History, b: History, c: History)
    requires Extends(b, a) && Extends(c, b)
    ensures Extends(c, a)
  {
    if c != b { ExtendsAcross(a, b, c.before); }
  }

  /** A session that is revoked or gone never comes back, whatever is written. */
  lemma {:induction false} DeadForever(h: History, from: History, hash: nat)
    requires Extends(h, from) && FreshTokens(h) && hash in Used(from) && Dead(TablesOf(from), hash)
    ensures Dead(TablesOf(h), hash)
  {
    if h != from {
      DeadForever(h.before, from, hash);
      UsedGrows(h.before, from);
    }
  }

  /** Every session in the table was inserted at some point. */
  lemma {:induction false} StoredIsUsed(h: History)
    ensures forall hash | hash in TablesOf(h).sessions :: hash in Used(h)
  {
    if h.Then? { StoredIsUsed(h.before); }
  }

  // Refreshing.

  datatype Answer = Invalid | Disabled | Good(user: string)

  /** What a refresh finds before it changes anything. */
  function RefreshAnswer(t: Tables, hash: nat, now: int): Answer {
    if hash !in t.sessions || !t.sessions[hash].Active(now) || t.sessions[hash].user !in t.users then Invalid
    else if t.users[t.sessions[hash].user].disabled then Disabled
    else Good(t.sessions[hash].user)
  }
}

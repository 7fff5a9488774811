/**
  The auth tables of one tenant and the SQL statements that touch them, one atomic step each:
  `src/auth/z-sessions.ts`, `src/tenant/store.ts` and the functions of `drizzle/0423`.

  A refresh token is named by its hash; hashing is taken as injective.
 */
module AuthStatements {
  import opened Wrappers

  type UserId = nat
  type Sid = nat
  type Token = nat

  /** A stored password hash: the secret it accepts, and what makes it different from other hashes of it. */
  datatype Hash = Hash(secret: nat, salt: nat)

  datatype User = User(active: bool, passwordHash: Option<Hash>, email: Option<nat>)

  datatype Session = Session(user: UserId, revoked: bool)

  datatype RefreshToken = RefreshToken(user: UserId, expires: int, revoked: bool)

  datatype Db = Db(users: map<UserId, User>, allowed: bool, sessions: map<Sid, Session>,
                   tokens: map<Token, RefreshToken>, links: map<Token, Sid>, now: int)

  /** Thirty days. */
  const LIFETIME := 30 * 86_400

  predicate Accepts(h: Hash, secret: nat) {
    h.secret == secret
  }

  predicate CredentialsCurrent(db: Db, u: UserId, hash: Hash, email: Option<nat>) {
    u in db.users && db.users[u].active && db.users[u].passwordHash == Some(hash) && db.users[u].email == email
  }

  /** `createPasswordAuthSession`: the proof is checked again and the session made in one locked step. */
  function CreateSession(db: Db, u: UserId, hash: Hash, email: Option<nat>, fresh_: Sid): (Db, Option<Sid>) {
    if CredentialsCurrent(db, u, hash, email)
    then (db.(sessions := db.sessions[fresh_ := Session(u, false)]), Some(fresh_))
    else (db, None)
  }

  /** `saveRefresh`: token and link in one statement. */
  function SaveRefresh(db: Db, u: UserId, sid: Sid, t: Token): Db {
    db.(tokens := db.tokens[t := RefreshToken(u, db.now + LIFETIME, false)], links := db.links[t := sid])
  }

  /** The token is unspent and unexpired, and linked to a live session of its own user. */
  predicate Usable(db: Db, t: Token) {
    && t in db.tokens && t in db.links && db.links[t] in db.sessions
    && !db.tokens[t].revoked && db.tokens[t].expires > db.now
    && db.sessions[db.links[t]].user == db.tokens[t].user && !db.sessions[db.links[t]].revoked
  }

  function Revoked(db: Db, t: Token): Db
    requires t in db.tokens
  {
    db.(tokens := db.tokens[t := db.tokens[t].(revoked := true)])
  }

  /** `consumeActiveRefresh`: the token is spent in the statement that reads it. */
  function ConsumeRefresh(db: Db, t: Token): (Db, Option<(UserId, Sid)>) {
    if Usable(db, t) then (Revoked(db, t), Some((db.tokens[t].user, db.links[t]))) else (db, None)
  }

  function RevokeWhere(sessions: map<Sid, Session>, sids: set<Sid>): map<Sid, Session> {
    map s | s in sessions :: if s in sids then sessions[s].(revoked := true) else sessions[s]
  }

  /** `revokeSessionByRefresh`: whatever became of the token, its session ends. */
  function RevokeByRefresh(db: Db, t: Token): Db {
    if t in db.links then db.(sessions := RevokeWhere(db.sessions, {db.links[t]})) else db
  }

  /** `revokeRefresh`. */
  function RevokeRefresh(db: Db, t: Token): Db {
    if t in db.tokens then Revoked(db, t) else db
  }

  function SessionsOf(db: Db, u: UserId): set<Sid> {
    set s | s in db.sessions && db.sessions[s].user == u
  }

  /** `revokeAllAuthSessions`. */
  function RevokeAll(db: Db, u: UserId): Db {
    db.(sessions := RevokeWhere(db.sessions, SessionsOf(db, u)))
  }

  /** `replacePasswordAndRevoke`: new credentials and the end of every session and token, in one step. */
  function ReplacePassword(db: Db, u: UserId, hash: Hash, email: Option<nat>, expected: Option<Hash>): (Db, bool) {
    if u !in db.users || !db.users[u].active || (expected.Some? && db.users[u].passwordHash != expected)
    then (db, false)
    else
      var user := db.users[u].(passwordHash := Some(hash), email := if email.Some? then email else db.users[u].email);
      var tokens := map t | t in db.tokens ::
        if db.tokens[t].user == u then db.tokens[t].(revoked := true) else db.tokens[t];
      (RevokeAll(db, u).(users := db.users[u := user], tokens := tokens), true)
  }

  /** Every token of the user is revoked, and no session: the older sign-in's `revokeAllForUser`. */
  function RevokeTokensOf(db: Db, u: UserId): Db {
    db.(tokens := map t | t in db.tokens ::
      if db.tokens[t].user == u then db.tokens[t].(revoked := true) else db.tokens[t])
  }

  /** The older sign-in's token, which has no session. */
  function SaveUnlinked(db: Db, u: UserId, t: Token): Db {
    db.(tokens := db.tokens[t := RefreshToken(u, db.now + LIFETIME, false)])
  }

  /** The older sign-in's change of password, which has no guard on the hash and ends no session. */
  function SetPassword(db: Db, u: UserId, hash: Hash): Db {
    if u in db.users then db.(users := db.users[u := db.users[u].(passwordHash := Some(hash))]) else db
  }

  /** A week. */
  const KEPT := 7 * 86_400

  /** Of these tokens, the spent ones and those long expired; when a token was spent is not kept here. */
  function Sweepable(db: Db, dead: set<Token>): set<Token> {
    set t | t in dead && t in db.tokens && (db.tokens[t].revoked || db.tokens[t].expires < db.now - KEPT)
  }

  /** The older sign-in's sweep: tokens go, and by cascade their links. */
  function Sweep(db: Db, dead: set<Token>): Db {
    db.(tokens := db.tokens - Sweepable(db, dead), links := db.links - Sweepable(db, dead))
  }

  /** The first statement of `activeUser`. */
  predicate UserActive(db: Db, u: UserId) {
    u in db.users && db.users[u].active
  }

  /** `accessSessionActive`. */
  predicate SessionActive(db: Db, u: UserId, sid: Sid) {
    sid in db.sessions && db.sessions[sid].user == u && !db.sessions[sid].revoked
  }

  /** Spending a token: it succeeds once only, and no other row changes. */
  lemma ConsumeSpends(db: Db, t: Token)
    ensures var (db', r) := ConsumeRefresh(db, t);
            && (r.Some? <==> Usable(db, t))
            && (r.Some? ==> !Usable(db', t) && db'.tokens[t].revoked && r.value == (db.tokens[t].user, db.links[t]))
            && ConsumeRefresh(db', t).1 == None
            && (forall o :: o != t ==>
                (o in db'.tokens <==> o in db.tokens) && (o in db.tokens ==> db'.tokens[o] == db.tokens[o]))
            && db'.sessions == db.sessions && db'.links == db.links && db'.users == db.users
  {
  }

  /** Signing out by a token ends exactly the session it was issued under, spent or expired as the token may be. */
  lemma RevokeByRefreshEnds(db: Db, t: Token)
    ensures var db' := RevokeByRefresh(db, t);
            && db'.sessions.Keys == db.sessions.Keys
            && (forall s | s in db.sessions :: db'.sessions[s].user == db.sessions[s].user)
            && (forall s | s in db.sessions ::
                db'.sessions[s].revoked <==> db.sessions[s].revoked || (t in db.links && db.links[t] == s))
  {
  }

  /** Replacing credentials leaves the user no live session and no unspent token, and touches nobody else. */
  lemma ReplaceEndsEverything(db: Db, u: UserId, hash: Hash, email: Option<nat>, expected: Option<Hash>)
    ensures var (db', done) := ReplacePassword(db, u, hash, email, expected);
            && (done <==> UserActive(db, u) && (expected.None? || db.users[u].passwordHash == expected))
            && (if done then Replaced(db, db', u, hash, email) else db' == db)
  {
  }

  ghost predicate Replaced(db: Db, db': Db, u: UserId, hash: Hash, email: Option<nat>) {
    && u in db.users && db'.users.Keys == db.users.Keys
    && db'.sessions.Keys == db.sessions.Keys && db'.tokens.Keys == db.tokens.Keys
    && db'.users[u] == User(true, Some(hash), if email.Some? then email else db.users[u].email)
    && (forall o | o in db.users && o != u :: db'.users[o] == db.users[o])
    && (forall s | s in db.sessions ::
        db'.sessions[s] == Session(db.sessions[s].user, db.sessions[s].revoked || db.sessions[s].user == u))
    && (forall t | t in db.tokens ::
          db'.tokens[t] == db.tokens[t].(revoked := db.tokens[t].revoked || db.tokens[t].user == u))
  }
}

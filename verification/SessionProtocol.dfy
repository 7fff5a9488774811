/**
  Sign-in, refresh, identity check and sign-out as requests in flight: `src/tenant/service.ts`.

  A request is where it stands between two statements. An event starts a request, lets one request
  execute its next statement, or is a change from outside; any sequence of events is a run, so any
  number of requests interleave in every way. An event that is not possible changes nothing.

  The changes from outside are those of every writer of these tables: besides the credential replacement
  and the revocations of `src/auth/z-sessions.ts`, the statements of the older `src/auth/sign-in.ts`.
 */
module SessionProtocol {
  import opened Wrappers
  import opened AuthStatements

  type Rid = nat

  datatype Reply = Refused | Issued(sid: Sid, token: Token) | Identified(user: UserId, sid: Sid) | SignedOut

  datatype Request =
    | SignInUser(user: UserId, hash: Hash, email: Option<nat>)
    | SignInAccount(user: UserId, hash: Hash, email: Option<nat>)
    | SignInCreate(user: UserId, hash: Hash, email: Option<nat>)
    | RefreshConsume(presented: Token)
    | RefreshUser(user: UserId, sid: Sid, from: Token)
    | RefreshAccount(user: UserId, sid: Sid, from: Token)
    | RefreshSession(user: UserId, sid: Sid, from: Token)
    | Issuing(user: UserId, sid: Sid, after: Option<Token>)
    | IdentitySession(user: UserId, sid: Sid)
    | IdentityUser(user: UserId, sid: Sid)
    | IdentityAccount(user: UserId, sid: Sid)
    | SignOutSession(presented: Token)
    | SignOutToken(presented: Token)
    | Done(reply: Reply)

  datatype Event =
    | Start(r: Rid, first: Request)
    | Step(r: Rid, fresh_: nat)
    | Replace(user: UserId, hash: Hash, email: Option<nat>, expected: Option<Hash>)
    | RevokeUser(user: UserId)
    | SetPasswordOnly(user: UserId, hash: Hash)
    | SaveOther(user: UserId, t: Token)
    | RevokeOne(t: Token)
    | RevokeTokens(user: UserId)
    | SweepTokens(dead: set<Token>)
    | SetActive(user: UserId, active: bool)
    | SetAllowed(allowed: bool)
    | Tick(seconds: nat)

  /**
    The tables and the requests, with what happened so far: the tokens saved under each session in
    order, the token each was issued for, the tokens spent by a refresh in order, the password hash each
    session was opened with, and every token there ever was and every one swept away.
   */
  datatype State = State(db: Db, reqs: map<Rid, Request>, chain: map<Sid, seq<Token>>,
                         parent: map<Token, Option<Token>>, spent: seq<Token>, proof: map<Sid, Hash>, ever: set<Token>,
                             swept: set<Token>)

  /** What a new request can be. */
  predicate IsFirst(q: Request) {
    q.SignInUser? || q.RefreshConsume? || q.IdentitySession? || q.SignOutSession?
  }

  /** One more token saved under the session. */
  function Save(s: State, u: UserId, sid: Sid, after: Option<Token>, t: Token): State {
    s.(db := SaveRefresh(s.db, u, sid, t), parent := s.parent[t := after], ever := s.ever + {t},
       chain := s.chain[sid := (if sid in s.chain then s.chain[sid] else []) + [t]])
  }

  function At(s: State, r: Rid, q: Request): State {
    s.(reqs := s.reqs[r := q])
  }

  /** Where a request goes from its next statement, by what the statement finds. */
  function Next(db: Db, q: Request, fresh_: nat): Request {
    match q
    case SignInUser(u, h, e) =>
      // the row is read again and compared with the one the password was checked against
      if CredentialsCurrent(db, u, h, e) then SignInAccount(u, h, e) else Done(Refused)
    case SignInAccount(u, h, e) => if db.allowed then SignInCreate(u, h, e) else Done(Refused)
    case SignInCreate(u, h, e) =>
      if fresh_ in db.sessions then q
      else if CreateSession(db, u, h, e, fresh_).1.Some? then Issuing(u, fresh_, None) else Done(Refused)
    case RefreshConsume(t) =>
      var got := ConsumeRefresh(db, t).1;
      if got.Some? then RefreshUser(got.value.0, got.value.1, t) else Done(Refused)
    case RefreshUser(u, sid, t) => if UserActive(db, u) then RefreshAccount(u, sid, t) else Done(Refused)
    case RefreshAccount(u, sid, t) => if db.allowed then RefreshSession(u, sid, t) else Done(Refused)
    case RefreshSession(u, sid, t) => if SessionActive(db, u, sid) then Issuing(u, sid, Some(t)) else Done(Refused)
    case Issuing(u, sid, after) => if fresh_ in db.tokens then q else Done(Issued(sid, fresh_))
    case IdentitySession(u, sid) => if SessionActive(db, u, sid) then IdentityUser(u, sid) else Done(Refused)
    case IdentityUser(u, sid) => if UserActive(db, u) then IdentityAccount(u, sid) else Done(Refused)
    case IdentityAccount(u, sid) => if db.allowed then Done(Identified(u, sid)) else Done(Refused)
    case SignOutSession(t) => SignOutToken(t)
    case SignOutToken(t) => Done(SignedOut)
    case Done(_) => q
  }

  /** What the next statement of a request does to the tables and the history. */
  function Effect(s: State, q: Request, fresh_: nat): State {
    match q
    case SignInCreate(u, h, e) =>
      if fresh_ in s.db.sessions || CreateSession(s.db, u, h, e, fresh_).1.None? then s
      else s.(db := CreateSession(s.db, u, h, e, fresh_).0,
              chain := s.chain[fresh_ := []], proof := s.proof[fresh_ := h])
    case RefreshConsume(t) =>
      var (db, got) := ConsumeRefresh(s.db, t);
      if got.Some? then s.(db := db, spent := s.spent + [t]) else s
    case Issuing(u, sid, after) => if fresh_ in s.db.tokens then s else Save(s, u, sid, after, fresh_)
    case SignOutSession(t) => s.(db := RevokeByRefresh(s.db, t))
    case SignOutToken(t) => s.(db := RevokeRefresh(s.db, t))
    case _ => s
  }

  /** A request executes its next statement. A fresh id already taken makes it draw again. */
  function Execute(s: State, r: Rid, q: Request, fresh_: nat): State {
    At(Effect(s, q, fresh_), r, Next(s.db, q, fresh_))
  }

  /** A token is never drawn twice. */
  predicate IsFresh(s: State, q: Request, fresh_: nat) {
    q.Issuing? ==> fresh_ !in s.ever
  }

  function Apply(s: State, e: Event): State {
    match e
    case Start(r, q) => if r in s.reqs || !IsFirst(q) then s else At(s, r, q)
    case Step(r, fresh_) => if r in s.reqs && IsFresh(s, s.reqs[r], fresh_) then Execute(s, r, s.reqs[r], fresh_) else s
    case Replace(u, h, e, expected) => s.(db := ReplacePassword(s.db, u, h, e, expected).0)
    case RevokeUser(u) => s.(db := RevokeAll(s.db, u))
    case SetPasswordOnly(u, h) => s.(db := SetPassword(s.db, u, h))
    case SaveOther(u, t) => if t in s.ever then s else s.(db := SaveUnlinked(s.db, u, t), ever := s.ever + {t})
    case RevokeOne(t) => s.(db := RevokeRefresh(s.db, t))
    case RevokeTokens(u) => s.(db := RevokeTokensOf(s.db, u))
    case SweepTokens(dead) => s.(db := Sweep(s.db, dead), swept := s.swept + Sweepable(s.db, dead))
    case SetActive(u, active) =>
      if u in s.db.users then s.(db := s.db.(users := s.db.users[u := s.db.users[u].(active := active)])) else s
    case SetAllowed(allowed) => s.(db := s.db.(allowed := allowed))
    case Tick(n) => s.(db := s.db.(now := s.db.now + n))
  }

  function Run(s: State, es: seq<Event>): State {
    if es == [] then s else Apply(Run(s, es[..|es| - 1]), es[|es| - 1])
  }

  /** Users and an account, but no session, token or request yet. */
  predicate Initial(s: State) {
    && s.db.sessions == map[] && s.db.tokens == map[] && s.db.links == map[]
    && s.reqs == map[] && s.chain == map[] && s.parent == map[] && s.spent == [] && s.proof == map[]
    && s.ever == {} && s.swept == {}
  }

  /** The request holds the right to save the session's next token. */
  predicate Pending(q: Request, sid: Sid) {
    (q.RefreshUser? || q.RefreshAccount? || q.RefreshSession? || q.Issuing?) && q.sid == sid
  }

  function Predecessor(q: Request): Option<Token>
    requires q.RefreshUser? || q.RefreshAccount? || q.RefreshSession? || q.Issuing?
  {
    if q.Issuing? then q.after else Some(q.from)
  }

  function LastOf(ts: seq<Token>): Option<Token> {
    if ts == [] then None else Some(ts[|ts| - 1])
  }
}

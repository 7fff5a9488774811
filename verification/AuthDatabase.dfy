/**
  The tenant session code as it runs: the tables as fields, a method for each statement, and the four
  operations of `src/tenant/service.ts` as sequences of them. Each operation run alone is shown to do
  what its request does in the protocol when it executes all its statements with nobody in between.
 */
module AuthDatabase {
  import opened Wrappers
  import opened AuthStatements
  import opened SessionProtocol
  import opened SessionSafety

  /** The tables after the next statement of a request, without the history. */
  function After(db: Db, q: Request, fresh_: nat): Db {
    match q
    case SignInCreate(u, h, e) => if fresh_ in db.sessions then db else CreateSession(db, u, h, e, fresh_).0
    case RefreshConsume(t) => ConsumeRefresh(db, t).0
    case Issuing(u, sid, _) => if fresh_ in db.tokens then db else SaveRefresh(db, u, sid, fresh_)
    case SignOutSession(t) => RevokeByRefresh(db, t)
    case SignOutToken(t) => RevokeRefresh(db, t)
    case _ => db
  }

  /** How many statements are left at most. */
  function Left(q: Request): nat {
    match q
    case SignInUser(_, _, _) => 4
    case SignInAccount(_, _, _) => 3
    case SignInCreate(_, _, _) => 2
    case RefreshConsume(_) => 5
    case RefreshUser(_, _, _) => 4
    case RefreshAccount(_, _, _) => 3
    case RefreshSession(_, _, _) => 2
    case Issuing(_, _, _) => 1
    case IdentitySession(_, _) => 3
    case IdentityUser(_, _) => 2
    case IdentityAccount(_, _) => 1
    case SignOutSession(_) => 2
    case SignOutToken(_) => 1
    case Done(_) => 0
  }

  /** The id a statement is given: a session id where it makes a session, else a token. */
  function Drawn(q: Request, sid: Sid, t: Token): nat {
    if q.SignInCreate? then sid else t
  }

  /** Identity checks and sign-outs draw no token. */
  predicate DrawsToken(q: Request) {
    !(q.IdentitySession? || q.IdentityUser? || q.IdentityAccount? || q.SignOutSession? || q.SignOutToken? || q.Done?)
  }

  /** The ids a request will still draw are not taken. */
  predicate Undrawn(db: Db, q: Request, sid: Sid, t: Token) {
    && (q.SignInUser? || q.SignInAccount? || q.SignInCreate? ==> sid !in db.sessions)
    && (DrawsToken(q) ==> t !in db.tokens)
  }

  lemma StillUndrawn(db: Db, q: Request, sid: Sid, t: Token)
    requires Undrawn(db, q, sid, t) && !q.Done?
    ensures var fresh_ := Drawn(q, sid, t);
            && Undrawn(After(db, q, fresh_), Next(db, q, fresh_), sid, t) && Left(Next(db, q, fresh_)) < Left(q)
            && (DrawsToken(Next(db, q, fresh_)) ==> DrawsToken(q) && !q.Issuing?)
  {
    hide RevokeByRefresh, RevokeRefresh, CredentialsCurrent, UserActive, SessionActive;
  }

  /** A request executing everything it has left, alone. */
  function Alone(db: Db, q: Request, sid: Sid, t: Token): (Db, Reply)
    requires Undrawn(db, q, sid, t)
    decreases Left(q)
  {
    match q
    case Done(reply) => (db, reply)
    case _ =>
      StillUndrawn(db, q, sid, t);
      Alone(After(db, q, Drawn(q, sid, t)), Next(db, q, Drawn(q, sid, t)), sid, t)
  }

  lemma EffectIsAfter(s: State, q: Request, fresh_: nat)
    ensures Effect(s, q, fresh_).db == After(s.db, q, fresh_)
  {
    hide RevokeByRefresh, RevokeRefresh, SaveRefresh, CredentialsCurrent;
  }

  /** The statements a request executes alone, as events of the protocol. */
  function StepsAlone(db: Db, r: Rid, q: Request, sid: Sid, t: Token): seq<Event>
    requires Undrawn(db, q, sid, t)
    decreases Left(q)
  {
    match q
    case Done(_) => []
    case _ =>
      StillUndrawn(db, q, sid, t);
      [Step(r, Drawn(q, sid, t))] + StepsAlone(After(db, q, Drawn(q, sid, t)), r, Next(db, q, Drawn(q, sid, t)), sid, t)
  }

  /** A request alone is one run of the protocol. */
  lemma {:induction false} AloneIsARun(s: State, r: Rid, q: Request, sid: Sid, t: Token)
    requires r in s.reqs && s.reqs[r] == q && Undrawn(s.db, q, sid, t) && (DrawsToken(q) ==> t !in s.ever)
    ensures var now := Run(s, StepsAlone(s.db, r, q, sid, t));
            && now.db == Alone(s.db, q, sid, t).0
            && r in now.reqs && now.reqs[r] == Done(Alone(s.db, q, sid, t).1)
    decreases Left(q)
  {
    if !q.Done? {
      var fresh_ := Drawn(q, sid, t);
      StillUndrawn(s.db, q, sid, t);
      EffectIsAfter(s, q, fresh_);
      EffectIsFresh(s, q, fresh_);
      hide After, Next, Effect;
      var s' := Apply(s, Step(r, fresh_));
      AloneIsARun(s', r, Next(s.db, q, fresh_), sid, t);
      RunConcat(s, [Step(r, fresh_)], StepsAlone(s'.db, r, Next(s.db, q, fresh_), sid, t));
      assert [Step(r, fresh_)][..0] == [] && Run(s, []) == s;
    }
  }

  lemma EffectIsFresh(s: State, q: Request, fresh_: nat)
    ensures !q.Issuing? ==> Effect(s, q, fresh_).ever == s.ever
  {
  }

  /** One statement of a request alone. */
  lemma OneStatement(db: Db, q: Request, sid: Sid, t: Token)
    requires Undrawn(db, q, sid, t) && !q.Done?
    ensures var db', q' := After(db, q, Drawn(q, sid, t)), Next(db, q, Drawn(q, sid, t));
            Undrawn(db', q', sid, t) && Alone(db, q, sid, t) == Alone(db', q', sid, t)
  {
    hide After, Next;
    StillUndrawn(db, q, sid, t);
  }

  lemma RefreshAlone(db: Db, presented: Token, fresh_: Token)
    requires fresh_ !in db.tokens
    ensures var (db', got) := ConsumeRefresh(db, presented);
            && fresh_ !in db'.tokens
            && Alone(db, RefreshConsume(presented), 0, fresh_)
               == if got.None? then (db, Refused)
                  else Alone(db', RefreshUser(got.value.0, got.value.1, presented), 0, fresh_)
  {
    OneStatement(db, RefreshConsume(presented), 0, fresh_);
  }

  lemma IssueAlone(db: Db, u: UserId, sid: Sid, presented: Token, fresh_: Token)
    requires fresh_ !in db.tokens
    ensures Alone(db, RefreshUser(u, sid, presented), 0, fresh_)
            == if UserActive(db, u) && db.allowed && SessionActive(db, u, sid)
               then (SaveRefresh(db, u, sid, fresh_), Issued(sid, fresh_)) else (db, Refused)
  {
    hide UserActive, SessionActive, SaveRefresh;
    OneStatement(db, RefreshUser(u, sid, presented), 0, fresh_);
    if UserActive(db, u) {
      OneStatement(db, RefreshAccount(u, sid, presented), 0, fresh_);
      if db.allowed {
        OneStatement(db, RefreshSession(u, sid, presented), 0, fresh_);
        if SessionActive(db, u, sid) {
          OneStatement(db, Issuing(u, sid, Some(presented)), 0, fresh_);
        }
      }
    }
  }

  lemma IdentityAlone(db: Db, u: UserId, sid: Sid)
    ensures Alone(db, IdentitySession(u, sid), 0, 0)
         == (db, if SessionActive(db, u, sid) && UserActive(db, u) && db.allowed then Identified(u, sid) else Refused)
  {
    hide UserActive, SessionActive;
    OneStatement(db, IdentitySession(u, sid), 0, 0);
    if SessionActive(db, u, sid) {
      OneStatement(db, IdentityUser(u, sid), 0, 0);
      if UserActive(db, u) {
        OneStatement(db, IdentityAccount(u, sid), 0, 0);
      }
    }
  }

  /** A candidate row whose stored hash accepts the password. */
  predicate Matches(c: (UserId, User), secret: nat) {
    c.1.active && c.1.passwordHash.Some? && Accepts(c.1.passwordHash.value, secret)
  }

  /** The only candidate the password fits. */
  predicate TheMatch(candidates: seq<(UserId, User)>, secret: nat, i: nat) {
    && i < |candidates| && Matches(candidates[i], secret)
    && forall j | 0 <= j < |candidates| && j != i :: !Matches(candidates[j], secret)
  }

  class AuthDatabase {
    var users: map<UserId, User>
    var allowed: bool
    var sessions: map<Sid, Session>
    var tokens: map<Token, RefreshToken>
    var links: map<Token, Sid>
    var now: int

    ghost function Tables(): Db
      reads this
    {
      Db(users, allowed, sessions, tokens, links, now)
    }

    method CreatePasswordAuthSession(u: UserId, hash: Hash, email: Option<nat>, fresh_: Sid) returns (made: Option<Sid>)
      modifies `sessions
      ensures (Tables(), made) == CreateSession(old(Tables()), u, hash, email, fresh_)
    {
      if u in users && users[u].active && users[u].passwordHash == Some(hash) && users[u].email == email {
        sessions := sessions[fresh_ := Session(u, false)];
        return Some(fresh_);
      }
      return None;
    }

    method SaveRefreshToken(u: UserId, sid: Sid, t: Token)
      modifies `tokens, `links
      ensures Tables() == SaveRefresh(old(Tables()), u, sid, t)
    {
      tokens := tokens[t := RefreshToken(u, now + LIFETIME, false)];
      links := links[t := sid];
    }

    method ConsumeActiveRefresh(t: Token) returns (row: Option<(UserId, Sid)>)
      modifies `tokens
      ensures (Tables(), row) == ConsumeRefresh(old(Tables()), t)
    {
      if t in tokens && t in links && links[t] in sessions {
        var r, s := tokens[t], sessions[links[t]];
        if !r.revoked && r.expires > now && s.user == r.user && !s.revoked {
          tokens := tokens[t := r.(revoked := true)];
          return Some((r.user, links[t]));
        }
      }
      return None;
    }

    method RevokeSessionByRefresh(t: Token)
      modifies `sessions
      ensures Tables() == RevokeByRefresh(old(Tables()), t)
    {
      if t in links && links[t] in sessions && !sessions[links[t]].revoked {
        sessions := sessions[links[t] := sessions[links[t]].(revoked := true)];
      }
      if t in links {
        assert sessions == RevokeWhere(old(sessions), {links[t]});
      }
    }

    method RevokeRefreshToken(t: Token)
      modifies `tokens
      ensures Tables() == RevokeRefresh(old(Tables()), t)
    {
      if t in tokens && !tokens[t].revoked {
        tokens := tokens[t := tokens[t].(revoked := true)];
      }
      if t in tokens {
        assert tokens == Revoked(old(Tables()), t).tokens;
      }
    }

    /** Every live session of the user ends. */
    method RevokeAllAuthSessions(u: UserId)
      modifies `sessions
      ensures Tables() == RevokeAll(old(Tables()), u)
      ensures forall s | s in sessions && sessions[s].user == u :: sessions[s].revoked
    {
      sessions := map s | s in sessions ::
        if sessions[s].user == u && !sessions[s].revoked then sessions[s].(revoked := true) else sessions[s];
      assert sessions == RevokeWhere(old(sessions), SessionsOf(old(Tables()), u));
    }

    /** Credentials, sessions and tokens in one step. */
    method ReplacePasswordAndRevoke(u: UserId, hash: Hash, email: Option<nat>, expected: Option<Hash>)
      returns (changed: bool)
      modifies `users, `sessions, `tokens
      ensures (Tables(), changed) == ReplacePassword(old(Tables()), u, hash, email, expected)
    {
      if u !in users || !users[u].active || (expected.Some? && users[u].passwordHash != expected) {
        return false;
      }
      var mail := if email.Some? then email else users[u].email;
      users := users[u := users[u].(passwordHash := Some(hash), email := mail)];
      RevokeAllAuthSessions(u);
      tokens := map t | t in tokens ::
        if tokens[t].user == u && !tokens[t].revoked then tokens[t].(revoked := true) else tokens[t];
      assert tokens == map t | t in old(tokens) ::
        if old(tokens)[t].user == u then old(tokens)[t].(revoked := true) else old(tokens)[t];
      return true;
    }

    /** The user row, if it is active and the account is allowed. */
    method ActiveUser(u: UserId) returns (user: Option<User>)
      ensures user == if UserActive(Tables(), u) && allowed then Some(users[u]) else None
    {
      if u in users && users[u].active && allowed {
        return Some(users[u]);
      }
      return None;
    }

    method AccessSessionActive(u: UserId, sid: Sid) returns (active: bool)
      ensures active == SessionActive(Tables(), u, sid)
    {
      active := sid in sessions && sessions[sid].user == u && !sessions[sid].revoked;
    }

    method RefreshSession(presented: Token, fresh_: Token) returns (reply: Reply)
      requires fresh_ !in tokens
      modifies `tokens, `links
      ensures (Tables(), reply) == Alone(old(Tables()), RefreshConsume(presented), 0, fresh_)
    {
      RefreshAlone(Tables(), presented, fresh_);
      var consumed := ConsumeActiveRefresh(presented);
      hide Alone, Usable, Revoked;
      if consumed.None? {
        return Refused;
      }
      var u, sid := consumed.value.0, consumed.value.1;
      IssueAlone(Tables(), u, sid, presented, fresh_);
      var user := ActiveUser(u);
      var active := AccessSessionActive(u, sid);
      if user.None? || !active {
        return Refused;
      }
      SaveRefreshToken(u, sid, fresh_);
      return Issued(sid, fresh_);
    }

    method SignOut(presented: Token)
      modifies `sessions, `tokens
      ensures (Tables(), SignedOut) == Alone(old(Tables()), SignOutSession(presented), 0, 0)
    {
      OneStatement(Tables(), SignOutSession(presented), 0, 0);
      RevokeSessionByRefresh(presented);
      OneStatement(Tables(), SignOutToken(presented), 0, 0);
      RevokeRefreshToken(presented);
    }

    /** The claims of a verified access token are checked against the tables. */
    method CurrentIdentity(u: UserId, sid: Sid) returns (reply: Reply)
      ensures (Tables(), reply) == Alone(Tables(), IdentitySession(u, sid), 0, 0)
    {
      IdentityAlone(Tables(), u, sid);
      var active := AccessSessionActive(u, sid);
      if !active {
        return Refused;
      }
      var user := ActiveUser(u);
      if user.None? {
        return Refused;
      }
      return Identified(u, sid);
    }

    /**
      The candidates are the rows read by e-mail before any password was checked. With exactly one
      match the sign-in goes on from that row; with none or several it is refused and nothing changes.
     */
    method PasswordSignIn(candidates: seq<(UserId, User)>, secret: nat, freshSid: Sid, freshToken: Token)
      returns (reply: Reply)
      requires freshSid !in sessions && freshToken !in tokens
      modifies `sessions, `tokens, `links
      ensures forall i: nat | i < |candidates| && TheMatch(candidates, secret, i) ::
                (Tables(), reply) == Alone(old(Tables()), SignInOf(candidates[i]), freshSid, freshToken)
      ensures (forall i: nat | i < |candidates| :: !TheMatch(candidates, secret, i)) ==>
        reply == Refused && Tables() == old(Tables())
    {
      var matches: seq<(UserId, User)> := [];
      ghost var found: seq<nat> := [];
      for k := 0 to |candidates|
        invariant |found| == |matches|
        invariant forall i | 0 <= i < |found| ::
          found[i] < k && Matches(candidates[found[i]], secret) && matches[i] == candidates[found[i]]
        invariant forall j | 0 <= j < k && Matches(candidates[j], secret) :: j in found
        invariant forall i, j | 0 <= i < j < |found| :: found[i] < found[j]
      {
        var user := candidates[k].1;
        if user.passwordHash.None? || !user.active {
          continue;
        }
        if Accepts(user.passwordHash.value, secret) {
          matches := matches + [candidates[k]];
          found := found + [k];
        }
      }
      if |matches| != 1 {
        NoSingleMatch(candidates, secret, found);
        return Refused;
      }
      assert TheMatch(candidates, secret, found[0]);
      var (u, row) := matches[0];
      reply := SignInMatched(u, row, freshSid, freshToken);
    }

    method SignInMatched(u: UserId, row: User, freshSid: Sid, freshToken: Token) returns (reply: Reply)
      requires row.passwordHash.Some? && freshSid !in sessions && freshToken !in tokens
      modifies `sessions, `tokens, `links
      ensures (Tables(), reply) == Alone(old(Tables()), SignInOf((u, row)), freshSid, freshToken)
    {
      var h, e := row.passwordHash.value, row.email;
      ghost var db := Tables();
      OneStatement(db, SignInUser(u, h, e), freshSid, freshToken);
      if CredentialsCurrent(db, u, h, e) {
        OneStatement(db, SignInAccount(u, h, e), freshSid, freshToken);
        if allowed {
          OneStatement(db, SignInCreate(u, h, e), freshSid, freshToken);
        }
      }
      var current := ActiveUser(u);
      if current.None? || current.value.passwordHash != Some(h) || current.value.email != e {
        return Refused;
      }
      var sid := CreatePasswordAuthSession(u, h, e, freshSid);
      if sid.None? {
        return Refused;
      }
      OneStatement(Tables(), Issuing(u, sid.value, None), freshSid, freshToken);
      SaveRefreshToken(u, sid.value, freshToken);
      return Issued(sid.value, freshToken);
    }
  }

  function SignInOf(c: (UserId, User)): Request
    requires c.1.passwordHash.Some?
  {
    SignInUser(c.0, c.1.passwordHash.value, c.1.email)
  }

  lemma NoSingleMatch(candidates: seq<(UserId, User)>, secret: nat, found: seq<nat>)
    requires |found| != 1 && forall i, j | 0 <= i < j < |found| :: found[i] < found[j]
    requires forall i | 0 <= i < |found| :: found[i] < |candidates| && Matches(candidates[found[i]], secret)
    requires forall j | 0 <= j < |candidates| && Matches(candidates[j], secret) :: j in found
    ensures forall i: nat | i < |candidates| :: !TheMatch(candidates, secret, i)
  {
    if |found| > 1 {
      assert found[0] < found[1];
      assert Matches(candidates[found[0]], secret) && Matches(candidates[found[1]], secret);
    }
  }
}

/**
  What the tables say of a request's answer, in their own terms: how long a refresh token lasts in every run,
  and the answer of each request of `src/tenant/service.ts` that nobody interrupts.
 */
module SessionRules {
  import opened Wrappers
  import opened AuthStatements
  import opened SessionProtocol
  import opened SessionSafety
  import opened AuthDatabase

  /** The seconds that pass during some events. */
  function Seconds(es: seq<Event>): nat {
    if es == [] then 0
    else Seconds(es[..|es| - 1]) + if es[|es| - 1].Tick? then es[|es| - 1].seconds else 0
  }

  /** What stays so of a token once it was saved: while its row is there, its user, expiry and session are the same. */
  ghost predicate Followed(s: State, t: Token, u: UserId, sid: Sid, expires: int) {
    && t in s.ever && sid in s.db.sessions && s.db.sessions[sid].user == u
    && (t in s.db.tokens ==>
          s.db.tokens[t].user == u && s.db.tokens[t].expires == expires && t in s.db.links && s.db.links[t] == sid)
  }

  lemma FollowedByStep(s: State, r: Rid, fresh_: nat, t: Token, u: UserId, sid: Sid, expires: int)
    requires Followed(s, t, u, sid, expires) && r in s.reqs && IsFresh(s, s.reqs[r], fresh_)
    ensures Followed(Execute(s, r, s.reqs[r], fresh_), t, u, sid, expires)
  {
    FollowedByEffect(s, s.reqs[r], fresh_, t, u, sid, expires);
    hide Next, Effect;
  }

  lemma FollowedByEffect(s: State, q: Request, fresh_: nat, t: Token, u: UserId, sid: Sid, expires: int)
    requires Followed(s, t, u, sid, expires) && IsFresh(s, q, fresh_)
    ensures Followed(Effect(s, q, fresh_), t, u, sid, expires)
  {
    hide CredentialsCurrent;
    match q
    case SignOutSession(presented) =>
      RevokeByRefreshEnds(s.db, presented);
      var ended := RevokeByRefresh(s.db, presented);
      assert ended.tokens == s.db.tokens && ended.links == s.db.links;
      hide RevokeByRefresh;
    case _ =>
  }

  lemma FollowedByOther(s: State, e: Event, t: Token, u: UserId, sid: Sid, expires: int)
    requires Followed(s, t, u, sid, expires) && !e.Step?
    ensures Followed(Apply(s, e), t, u, sid, expires)
  {
  }

  lemma ClockStands(s: State, q: Request, fresh_: nat)
    ensures Effect(s, q, fresh_).db.now == s.db.now
  {
    hide CredentialsCurrent, Usable, RevokeWhere;
  }

  lemma ClockMoves(s: State, e: Event)
    ensures Apply(s, e).db.now == s.db.now + if e.Tick? then e.seconds else 0
  {
    if e.Step? && e.r in s.reqs {
      ClockStands(s, s.reqs[e.r], e.fresh_);
    }
    hide Next, Effect;
  }

  lemma {:induction false} FollowedThrough(s: State, es: seq<Event>, t: Token, u: UserId, sid: Sid, expires: int)
    requires Followed(s, t, u, sid, expires)
    ensures Followed(Run(s, es), t, u, sid, expires) && Run(s, es).db.now == s.db.now + Seconds(es)
  {
    if es != [] {
      var before, e := Run(s, es[..|es| - 1]), es[|es| - 1];
      FollowedThrough(s, es[..|es| - 1], t, u, sid, expires);
      hide Followed, Execute;
      ClockMoves(before, e);
      if !e.Step? {
        FollowedByOther(before, e, t, u, sid, expires);
        hide Apply;
      } else if e.r in before.reqs && IsFresh(before, before.reqs[e.r], e.fresh_) {
        FollowedByStep(before, e.r, e.fresh_, t, u, sid, expires);
      }
    }
  }

  lemma SavedIsFollowed(s: State, r: Rid, t: Token)
    requires Inv(s) && r in s.reqs && s.reqs[r].Issuing? && t !in s.ever
    ensures Followed(Apply(s, Step(r, t)), t, s.reqs[r].user, s.reqs[r].sid, s.db.now + 30 * 86_400)
    ensures Apply(s, Step(r, t)).db.now == s.db.now
  {
    hide Chains, Lineage, SpentInOrder;
    var q := s.reqs[r];
    assert Pending(q, q.sid) && ContinuesChain(s, q, q.sid);
    assert t !in s.db.tokens;
  }

  /** The token's row and its session are there and neither has been revoked. */
  predicate Untouched(db: Db, t: Token, sid: Sid) {
    t in db.tokens && !db.tokens[t].revoked && sid in db.sessions && !db.sessions[sid].revoked
  }

  lemma ConsumedExactly(s: State, x: Rid, t: Token, u: UserId, sid: Sid, expires: int, any: nat)
    requires Followed(s, t, u, sid, expires) && x in s.reqs && s.reqs[x] == RefreshConsume(t)
    ensures Apply(s, Step(x, any)).reqs[x]
         == if Untouched(s.db, t, sid) && s.db.now < expires then RefreshUser(u, sid, t) else Done(Refused)
  {
  }

  /**
    A refresh token lasts thirty days to the second: in every run, whatever happens between its save and a refresh
    presenting it, the refresh goes on if and only if neither the token nor its session was revoked, the token was
    not swept away, and less than thirty days have passed.
   */
  lemma RefreshLastsThirtyDays(s: State, past: seq<Event>, r: Rid, t: Token, es: seq<Event>, x: Rid, any: nat)
    requires Initial(s)
    requires var before := Run(s, past); r in before.reqs && before.reqs[r].Issuing? && t !in before.ever
    requires var now := Run(s, past + [Step(r, t)] + es); x in now.reqs && now.reqs[x] == RefreshConsume(t)
    ensures var q, now := Run(s, past).reqs[r], Run(s, past + [Step(r, t)] + es);
            Apply(now, Step(x, any)).reqs[x]
            == if Untouched(now.db, t, q.sid) && Seconds(es) < 30 * 86_400 then RefreshUser(q.user, q.sid, t)
               else Done(Refused)
  {
    InitialInv(s);
    RunKeeps(s, past);
    var before := Run(s, past);
    var q, saved := before.reqs[r], Apply(before, Step(r, t));
    SavedIsFollowed(before, r, t);
    hide Inv, Initial, Apply, Followed;
    assert (past + [Step(r, t)])[..|past|] == past;
    assert Run(s, past + [Step(r, t)]) == saved;
    RunConcat(s, past + [Step(r, t)], es);
    FollowedThrough(saved, es, t, q.user, q.sid, before.db.now + 30 * 86_400);
    hide Run;
    ConsumedExactly(Run(saved, es), x, t, q.user, q.sid, before.db.now + 30 * 86_400, any);
  }

  /** A sign-in that has checked its password succeeds exactly when the row is as it was and the account allowed. */
  lemma SignInAnswers(db: Db, u: UserId, h: Hash, m: Option<nat>, sid: Sid, t: Token)
    requires sid !in db.sessions && t !in db.tokens
    ensures Alone(db, SignInUser(u, h, m), sid, t)
         == if u in db.users && db.users[u] == User(true, Some(h), m) && db.allowed
            then (db.(sessions := db.sessions[sid := Session(u, false)], links := db.links[t := sid],
                      tokens := db.tokens[t := RefreshToken(u, db.now + 30 * 86_400, false)]), Issued(sid, t))
            else (db, Refused)
  {
    OneStatement(db, SignInUser(u, h, m), sid, t);
    if CredentialsCurrent(db, u, h, m) {
      OneStatement(db, SignInAccount(u, h, m), sid, t);
      if db.allowed {
        OneStatement(db, SignInCreate(u, h, m), sid, t);
        var made := db.(sessions := db.sessions[sid := Session(u, false)]);
        OneStatement(made, Issuing(u, sid, None), sid, t);
      }
    }
  }

  /** An active row whose stored hash was made of this password. */
  predicate Fits(user: User, secret: nat) {
    user.active && user.passwordHash.Some? && user.passwordHash.value.secret == secret
  }

  /**
    A password signs in exactly when one row alone of those read fits it, that row is still as it was read, and
    the account is allowed.
   */
  lemma PasswordAnswers(db: Db, candidates: seq<(UserId, User)>, secret: nat, i: nat, sid: Sid, t: Token)
    requires sid !in db.sessions && t !in db.tokens && i < |candidates|
    ensures TheMatch(candidates, secret, i)
       <==> forall j | 0 <= j < |candidates| :: Fits(candidates[j].1, secret) <==> j == i
    ensures TheMatch(candidates, secret, i) ==>
      var (u, row) := candidates[i];
      Alone(db, SignInOf(candidates[i]), sid, t).1
      == if u in db.users && db.users[u] == row && db.allowed then Issued(sid, t) else Refused
  {
    if TheMatch(candidates, secret, i) {
      var (u, row) := candidates[i];
      SignInAnswers(db, u, row.passwordHash.value, row.email, sid, t);
    }
    hide Alone;
  }

  /** The presented token is unspent, unexpired and linked to a live session of its own user. */
  predicate Presentable(db: Db, t: Token) {
    && t in db.links && Untouched(db, t, db.links[t]) && db.now < db.tokens[t].expires
    && db.sessions[db.links[t]].user == db.tokens[t].user
  }

  /**
    A refresh spends a presentable token in any case, and gives a new one of the same session exactly when
    its user is active and the account allowed.
   */
  lemma RefreshAnswers(db: Db, presented: Token, t: Token)
    requires t !in db.tokens
    ensures Alone(db, RefreshConsume(presented), 0, t)
         == if !Presentable(db, presented) then (db, Refused)
            else
              var row, sid := db.tokens[presented], db.links[presented];
              var spent := db.tokens[presented := row.(revoked := true)];
              if row.user in db.users && db.users[row.user].active && db.allowed
              then (db.(tokens := spent[t := RefreshToken(row.user, db.now + 30 * 86_400, false)],
                        links := db.links[t := sid]), Issued(sid, t))
              else (db.(tokens := spent), Refused)
  {
    RefreshAlone(db, presented, t);
    if Presentable(db, presented) {
      var spent := db.(tokens := db.tokens[presented := db.tokens[presented].(revoked := true)]);
      IssueAlone(spent, db.tokens[presented].user, db.links[presented], presented, t);
    }
  }

  /** An identity is given exactly for a live session of an active user of an allowed account. */
  lemma IdentityAnswers(db: Db, u: UserId, sid: Sid)
    ensures Alone(db, IdentitySession(u, sid), 0, 0)
         == (db, if sid in db.sessions && db.sessions[sid] == Session(u, false)
                    && u in db.users && db.users[u].active && db.allowed then Identified(u, sid) else Refused)
  {
    IdentityAlone(db, u, sid);
  }

  lemma SignOutAlone(db: Db, t: Token)
    ensures Alone(db, SignOutSession(t), 0, 0) == (RevokeRefresh(RevokeByRefresh(db, t), t), SignedOut)
  {
    hide RevokeRefresh, RevokeByRefresh;
    OneStatement(db, SignOutSession(t), 0, 0);
    OneStatement(RevokeByRefresh(db, t), SignOutToken(t), 0, 0);
  }

  /** Signing out revokes the token and the session it is linked to, each if it is there, and nothing else. */
  lemma SignOutAnswers(db: Db, t: Token)
    ensures var (after, reply) := Alone(db, SignOutSession(t), 0, 0);
            && reply == SignedOut && after.users == db.users && after.links == db.links
            && after.tokens == (if t in db.tokens then db.tokens[t := db.tokens[t].(revoked := true)] else db.tokens)
            && after.sessions == (if t in db.links && db.links[t] in db.sessions
                                  then db.sessions[db.links[t] := db.sessions[db.links[t]].(revoked := true)]
                                  else db.sessions)
  {
    SignOutAlone(db, t);
    hide Alone;
  }

  /** The statements of others come as events, each whole; none of them touches a request. */
  lemma OthersWrite(s: State, u: UserId, h: Hash, m: Option<nat>, expected: Option<Hash>, t: Token, dead: set<Token>)
    ensures Apply(s, Replace(u, h, m, expected)) == s.(db := ReplacePassword(s.db, u, h, m, expected).0)
    ensures Apply(s, RevokeUser(u)) == s.(db := RevokeAll(s.db, u))
    ensures Apply(s, SetPasswordOnly(u, h)) == s.(db := SetPassword(s.db, u, h))
    ensures Apply(s, RevokeOne(t)) == s.(db := RevokeRefresh(s.db, t))
    ensures Apply(s, RevokeTokens(u)) == s.(db := RevokeTokensOf(s.db, u))
    ensures Apply(s, SweepTokens(dead)).db == Sweep(s.db, dead)
    ensures t !in s.ever ==> Apply(s, SaveOther(u, t)).db == SaveUnlinked(s.db, u, t)
    ensures Apply(s, SetAllowed(true)) == s.(db := s.db.(allowed := true))
    ensures Apply(s, SetAllowed(false)) == s.(db := s.db.(allowed := false))
  {
    hide ReplacePassword, RevokeAll, SetPassword, RevokeRefresh, RevokeTokensOf, Sweep, SaveUnlinked, Sweepable,
         Execute;
  }

  /** Switching a user on or off does that, and nothing else. */
  lemma SwitchOfUser(s: State, u: UserId, on: bool)
    ensures var after := Apply(s, SetActive(u, on));
            if u in s.db.users then after == s.(db := s.db.(users := s.db.users[u := s.db.users[u].(active := on)]))
            else after == s
  {
  }

  /** What the older sign-in's statements leave, row by row; a token is swept a week after it expired, or once spent. */
  lemma OlderSignInWrites(db: Db, u: UserId, hash: Hash, t: Token, dead: set<Token>)
    ensures var after := SetPassword(db, u, hash).users;
            && after.Keys == db.users.Keys
            && forall o | o in db.users ::
                 after[o] == if o == u then db.users[o].(passwordHash := Some(hash)) else db.users[o]
    ensures var after := RevokeTokensOf(db, u).tokens;
            && after.Keys == db.tokens.Keys
            && forall o | o in db.tokens ::
                 after[o] == db.tokens[o].(revoked := db.tokens[o].revoked || db.tokens[o].user == u)
    ensures t in Sweep(db, dead).tokens
       <==> t in db.tokens && (t in dead ==> !db.tokens[t].revoked && db.tokens[t].expires >= db.now - 7 * 86_400)
    ensures SaveUnlinked(db, u, t) == db.(tokens := db.tokens[t := RefreshToken(u, db.now + 30 * 86_400, false)])
    ensures t in Sweep(db, dead).tokens ==> Sweep(db, dead).tokens[t] == db.tokens[t]
    ensures t in Sweep(db, dead).links <==> t in db.links && (t in db.tokens ==> t in Sweep(db, dead).tokens)
  {
  }
}

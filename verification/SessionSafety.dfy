/** What every run of the session protocol keeps. */
module SessionSafety {
  import opened Wrappers
  import opened AuthStatements
  import opened SessionProtocol

  /** Tokens, links, sessions and their history name one another. */
  ghost predicate Tables(s: State) {
    && s.db.links.Keys <= s.db.tokens.Keys <= s.ever && s.swept <= s.ever && s.swept !! s.db.tokens.Keys
    && s.parent.Keys <= s.ever && (forall t | t in s.spent :: t in s.ever)
    && s.chain.Keys == s.db.sessions.Keys == s.proof.Keys
    && (forall t | t in s.db.links ::
          s.db.links[t] in s.db.sessions && s.db.tokens[t].user == s.db.sessions[s.db.links[t]].user)
  }

  /** The token is linked to the session, or was before it was swept away. */
  predicate LinkedOnce(links: map<Token, Sid>, swept: set<Token>, t: Token, sid: Sid) {
    t in swept || (t in links && links[t] == sid)
  }

  /** The chain of a session lists its tokens, each once. */
  ghost predicate Chains(s: State) {
    && (forall sid, i | sid in s.chain && 0 <= i < |s.chain[sid]| ::
        LinkedOnce(s.db.links, s.swept, s.chain[sid][i], sid))
    && (forall t | t in s.db.links :: s.db.links[t] in s.chain && t in s.chain[s.db.links[t]])
    && (forall sid | sid in s.chain :: Distinct(s.chain[sid]))
  }

  /** The token before position `i`, if any. */
  function Previous(ts: seq<Token>, i: nat): Option<Token>
    requires i < |ts|
  {
    if i == 0 then None else Some(ts[i - 1])
  }

  ghost predicate IssuedInOrder(ts: seq<Token>, parent: map<Token, Option<Token>>) {
    forall i | 0 <= i < |ts| :: ts[i] in parent && parent[ts[i]] == Previous(ts, i)
  }

  ghost predicate AllInOrder(chain: map<Sid, seq<Token>>, parent: map<Token, Option<Token>>) {
    forall sid | sid in chain :: IssuedInOrder(chain[sid], parent)
  }

  /** Each token was issued for spending the one before it in its chain; the first, for a password. */
  ghost predicate Lineage(s: State) {
    AllInOrder(s.chain, s.parent)
  }

  ghost predicate Distinct(ts: seq<Token>) {
    forall i, j | 0 <= i < j < |ts| :: ts[i] != ts[j]
  }

  ghost predicate AllBefore(ts: seq<Token>, spent: seq<Token>) {
    forall i | 0 <= i && i + 1 < |ts| :: ts[i] in spent
  }

  ghost predicate AllRevoked(spent: seq<Token>, tokens: map<Token, RefreshToken>) {
    forall t | t in spent && t in tokens :: tokens[t].revoked
  }

  /** No token is spent twice, and every token of a chain but the last has been spent by a refresh. */
  ghost predicate SpentInOrder(s: State) {
    AllRevoked(s.spent, s.db.tokens) && Distinct(s.spent)
      && (forall sid | sid in s.chain :: AllBefore(s.chain[sid], s.spent))
  }

  /** The request may add to the chain of its session: it has spent the last token there, or there is none. */
  ghost predicate ContinuesChain(s: State, q: Request, sid: Sid)
    requires Pending(q, sid)
  {
    && sid in s.db.sessions && s.db.sessions[sid].user == q.user && sid in s.chain
    && Predecessor(q) == LastOf(s.chain[sid])
    && (s.chain[sid] != [] ==> s.chain[sid][|s.chain[sid]| - 1] in s.spent)
  }

  /** Every pending issuer continues its session's chain, and no session has two. */
  ghost predicate Slots(s: State) {
    && (forall r, sid | r in s.reqs && Pending(s.reqs[r], sid) :: ContinuesChain(s, s.reqs[r], sid))
    && (forall r, q, sid | r in s.reqs && q in s.reqs && Pending(s.reqs[r], sid) && Pending(s.reqs[q], sid) :: r == q)
  }

  ghost predicate Inv(s: State) {
    Tables(s) && Chains(s) && Lineage(s) && SpentInOrder(s) && Slots(s)
  }

  /** Neither the chains nor the parents change. */
  lemma SameLineage(s: State, s': State)
    requires Lineage(s) && s'.chain == s.chain && s'.parent == s.parent
    ensures Lineage(s')
  {
  }

  /** Moving a request on without touching the tables: it may keep the right to issue, not gain it. */
  lemma MoveKeeps(s: State, r: Rid, q: Request)
    requires Inv(s)
    requires forall sid :: Pending(q, sid) ==>
      r in s.reqs && Pending(s.reqs[r], sid) && q.user == s.reqs[r].user && Predecessor(q) == Predecessor(s.reqs[r])
    ensures Inv(At(s, r, q))
  {
    hide Lineage;
    var s' := At(s, r, q);
    SameLineage(s, s');
    forall x, sid | x in s'.reqs && Pending(s'.reqs[x], sid)
      ensures x in s.reqs && Pending(s.reqs[x], sid)
    {
    }
  }

  /** A new session: no token yet, one pending issuer. */
  function Created(s: State, r: Rid, u: UserId, h: Hash, sid: Sid): State {
    At(s.(db := s.db.(sessions := s.db.sessions[sid := Session(u, false)]),
          chain := s.chain[sid := []], proof := s.proof[sid := h]), r, Issuing(u, sid, None))
  }

  lemma CreatedTables(s: State, r: Rid, u: UserId, h: Hash, sid: Sid)
    requires Inv(s) && r in s.reqs && sid !in s.db.sessions
    ensures Tables(Created(s, r, u, h, sid)) && SpentInOrder(Created(s, r, u, h, sid))
  {
    hide Slots, Chains, Lineage;
  }

  lemma CreatedChains(s: State, r: Rid, u: UserId, h: Hash, sid: Sid)
    requires Inv(s) && r in s.reqs && sid !in s.db.sessions
    ensures Chains(Created(s, r, u, h, sid))
  {
    hide Slots, SpentInOrder, Lineage;
    var s' := Created(s, r, u, h, sid);
    assert forall t | t in s.db.links :: s.db.links[t] != sid;
    assert forall x | x in s.chain :: x != sid && s'.chain[x] == s.chain[x];
  }

  lemma CreatedLineage(s: State, r: Rid, u: UserId, h: Hash, sid: Sid)
    requires Inv(s) && r in s.reqs && sid !in s.db.sessions
    ensures Lineage(Created(s, r, u, h, sid))
  {
    hide Slots, Chains, SpentInOrder;
    var s' := Created(s, r, u, h, sid);
    forall x | x in s'.chain
      ensures IssuedInOrder(s'.chain[x], s'.parent)
    {
    }
  }

  lemma CreatedSlots(s: State, r: Rid, u: UserId, h: Hash, sid: Sid)
    requires Inv(s) && r in s.reqs && s.reqs[r].SignInCreate? && sid !in s.db.sessions
    ensures Slots(Created(s, r, u, h, sid))
  {
    hide Chains, Lineage, SpentInOrder;
    var s' := Created(s, r, u, h, sid);
    forall x, y | x in s'.reqs && Pending(s'.reqs[x], y)
      ensures (x == r && y == sid) || (x in s.reqs && Pending(s.reqs[x], y) && y != sid)
    {
    }
  }

  lemma CreateKeeps(s: State, r: Rid, fresh_: Sid)
    requires Inv(s) && r in s.reqs && s.reqs[r].SignInCreate? && fresh_ !in s.db.sessions
    ensures Inv(Execute(s, r, s.reqs[r], fresh_))
  {
    var q := s.reqs[r];
    if CredentialsCurrent(s.db, q.user, q.hash, q.email) {
      var s' := Created(s, r, q.user, q.hash, fresh_);
      CreatedTables(s, r, q.user, q.hash, fresh_);
      CreatedChains(s, r, q.user, q.hash, fresh_);
      CreatedLineage(s, r, q.user, q.hash, fresh_);
      CreatedSlots(s, r, q.user, q.hash, fresh_);
      hide Tables, Chains, Lineage, SpentInOrder, Slots;
      assert Execute(s, r, q, fresh_) == s';
    } else {
      hide Tables, Chains, Lineage, SpentInOrder, Slots;
      MoveKeeps(s, r, Done(Refused));
    }
  }

  lemma LastUnspent(s: State, t: Token)
    requires Inv(s) && Usable(s.db, t)
    ensures var sid := s.db.links[t];
            && sid in s.chain && s.chain[sid] != [] && t == s.chain[sid][|s.chain[sid]| - 1] && t !in s.spent
            && (forall r | r in s.reqs :: !Pending(s.reqs[r], sid))
  {
    hide Lineage;
    var sid := s.db.links[t];
    assert t in s.chain[sid];
    var i :| 0 <= i < |s.chain[sid]| && s.chain[sid][i] == t;
    assert i + 1 == |s.chain[sid]|;
  }

  function Consumed(s: State, r: Rid, t: Token): State
    requires Usable(s.db, t)
  {
    At(s.(db := Revoked(s.db, t), spent := s.spent + [t]), r, RefreshUser(s.db.tokens[t].user, s.db.links[t], t))
  }

  lemma ConsumedTables(s: State, r: Rid, t: Token)
    requires Inv(s) && r in s.reqs && Usable(s.db, t)
    ensures Tables(Consumed(s, r, t)) && Lineage(Consumed(s, r, t)) && Chains(Consumed(s, r, t))
  {
    hide Slots, SpentInOrder, Lineage;
    assert Revoked(s.db, t).tokens.Keys == s.db.tokens.Keys;
    SameLineage(s, Consumed(s, r, t));
  }

  /** One more token spent. */
  lemma SpendOne(spent: seq<Token>, tokens: map<Token, RefreshToken>, t: Token)
    requires AllRevoked(spent, tokens) && Distinct(spent) && t in tokens && t !in spent
    ensures AllRevoked(spent + [t], tokens[t := tokens[t].(revoked := true)]) && Distinct(spent + [t])
  {
  }

  lemma SpendKeepsBefore(ts: seq<Token>, spent: seq<Token>, t: Token)
    requires AllBefore(ts, spent)
    ensures AllBefore(ts, spent + [t])
  {
  }

  lemma ConsumedSpent(s: State, r: Rid, t: Token)
    requires Inv(s) && r in s.reqs && Usable(s.db, t)
    ensures SpentInOrder(Consumed(s, r, t))
  {
    LastUnspent(s, t);
    hide Slots, Chains, Lineage, Tables, AllRevoked, Distinct, AllBefore;
    SpendOne(s.spent, s.db.tokens, t);
    forall sid | sid in s.chain
      ensures AllBefore(s.chain[sid], s.spent + [t])
    {
      SpendKeepsBefore(s.chain[sid], s.spent, t);
    }
  }

  lemma ConsumedPending(s: State, r: Rid, t: Token, x: Rid, y: Sid)
    requires Inv(s) && r in s.reqs && s.reqs[r].RefreshConsume? && Usable(s.db, t)
    requires x in s.reqs && Pending(Consumed(s, r, t).reqs[x], y)
    ensures (x == r && y == s.db.links[t]) || (x != r && Pending(s.reqs[x], y) && y != s.db.links[t])
  {
    LastUnspent(s, t);
    hide Inv;
  }

  lemma OthersContinue(s: State, r: Rid, t: Token, q: Request, y: Sid)
    requires Usable(s.db, t) && Pending(q, y) && ContinuesChain(s, q, y)
    ensures ContinuesChain(Consumed(s, r, t), q, y)
  {
    hide Usable;
  }

  lemma ConsumerContinues(s: State, r: Rid, t: Token)
    requires Usable(s.db, t) && s.db.links[t] in s.chain && LastOf(s.chain[s.db.links[t]]) == Some(t)
    ensures ContinuesChain(Consumed(s, r, t), RefreshUser(s.db.tokens[t].user, s.db.links[t], t), s.db.links[t])
  {
    assert t in s.spent + [t];
  }

  lemma ConsumedContinues(s: State, r: Rid, t: Token, x: Rid, y: Sid)
    requires Inv(s) && r in s.reqs && s.reqs[r].RefreshConsume? && Usable(s.db, t)
    requires x in s.reqs && Pending(Consumed(s, r, t).reqs[x], y)
    ensures ContinuesChain(Consumed(s, r, t), Consumed(s, r, t).reqs[x], y)
  {
    ConsumedPending(s, r, t, x, y);
    LastUnspent(s, t);
    hide Tables, Chains, Lineage, SpentInOrder, ContinuesChain;
    if x == r {
      ConsumerContinues(s, r, t);
    } else {
      OthersContinue(s, r, t, s.reqs[x], y);
    }
  }

  lemma ConsumedSlots(s: State, r: Rid, t: Token)
    requires Inv(s) && r in s.reqs && s.reqs[r].RefreshConsume? && Usable(s.db, t)
    ensures Slots(Consumed(s, r, t))
  {
    var s' := Consumed(s, r, t);
    forall x, y | x in s'.reqs && Pending(s'.reqs[x], y)
      ensures ContinuesChain(s', s'.reqs[x], y)
      ensures (x == r && y == s.db.links[t]) || (x in s.reqs && x != r && Pending(s.reqs[x], y) && y != s.db.links[t])
    {
      ConsumedPending(s, r, t, x, y);
      ConsumedContinues(s, r, t, x, y);
    }
    hide Tables, Chains, Lineage, SpentInOrder, Consumed, Usable, ContinuesChain;
  }

  lemma ConsumeKeeps(s: State, r: Rid)
    requires Inv(s) && r in s.reqs && s.reqs[r].RefreshConsume?
    ensures Inv(Execute(s, r, s.reqs[r], 0))
  {
    hide Tables, Chains, Lineage, SpentInOrder, Slots;
    var t := s.reqs[r].presented;
    if Usable(s.db, t) {
      ConsumedTables(s, r, t);
      ConsumedSpent(s, r, t);
      ConsumedSlots(s, r, t);
      assert Execute(s, r, s.reqs[r], 0) == Consumed(s, r, t);
    } else {
      MoveKeeps(s, r, Done(Refused));
    }
  }

  function Saved(s: State, r: Rid, u: UserId, sid: Sid, t: Token): State
    requires r in s.reqs && s.reqs[r].Issuing?
  {
    At(Save(s, u, sid, s.reqs[r].after, t), r, Done(Issued(sid, t)))
  }

  lemma SavedTables(s: State, r: Rid, t: Token)
    requires Inv(s) && r in s.reqs && s.reqs[r].Issuing? && t !in s.ever
    ensures Tables(Saved(s, r, s.reqs[r].user, s.reqs[r].sid, t))
  {
    hide Chains, Lineage, SpentInOrder;
    assert Pending(s.reqs[r], s.reqs[r].sid);
  }

  lemma OneMoreDistinct(ts: seq<Token>, t: Token)
    requires Distinct(ts) && t !in ts
    ensures Distinct(ts + [t])
  {
  }

  lemma SavedLinks(s: State, r: Rid, sid: Sid, u: UserId, t: Token)
    requires Tables(s) && Chains(s) && r in s.reqs && s.reqs[r].Issuing? && sid in s.chain && t !in s.ever
    ensures var s' := Saved(s, r, u, sid, t);
            forall x | x in s'.db.links :: s'.db.links[x] in s'.chain && x in s'.chain[s'.db.links[x]]
  {
    var s' := Saved(s, r, u, sid, t);
    var before, now := s.chain[sid], s'.chain[sid];
    assert now == before + [t];
    forall x | x in s'.db.links
      ensures s'.db.links[x] in s'.chain && x in s'.chain[s'.db.links[x]]
    {
      if x == t {
        assert now[|before|] == x;
      } else if s.db.links[x] == sid {
        var i :| 0 <= i < |before| && before[i] == x;
        assert now[i] == x;
      }
    }
  }

  lemma SavedChains(s: State, r: Rid, sid: Sid, u: UserId, t: Token)
    requires Tables(s) && Chains(s) && r in s.reqs && s.reqs[r].Issuing? && sid in s.chain && t !in s.ever
    ensures Chains(Saved(s, r, u, sid, t))
  {
    SavedLinks(s, r, sid, u, t);
    var s' := Saved(s, r, u, sid, t);
    forall x | x in s'.chain
      ensures Distinct(s'.chain[x])
      ensures forall i | 0 <= i < |s'.chain[x]| :: LinkedOnce(s'.db.links, s'.swept, s'.chain[x][i], x)
    {
      assert forall i | 0 <= i < |s.chain[x]| ::
        LinkedOnce(s.db.links, s.swept, s.chain[x][i], x) && s.chain[x][i] != t;
      if x == sid {
        OneMoreDistinct(s.chain[x], t);
      }
    }
    hide Distinct, LinkedOnce;
  }

  /** A chain issued in order, and one more token issued for the last of it. */
  lemma ExtendOrder(ts: seq<Token>, parent: map<Token, Option<Token>>, t: Token)
    requires IssuedInOrder(ts, parent) && t !in parent
    ensures IssuedInOrder(ts + [t], parent[t := LastOf(ts)])
  {
    var now := ts + [t];
    forall i | 0 <= i < |now|
      ensures now[i] in parent[t := LastOf(ts)] && parent[t := LastOf(ts)][now[i]] == Previous(now, i)
    {
      if i < |ts| {
        assert now[i] == ts[i] && Previous(now, i) == Previous(ts, i);
      }
    }
  }

  lemma OthersStayInOrder(ts: seq<Token>, parent: map<Token, Option<Token>>, t: Token, before: Option<Token>)
    requires IssuedInOrder(ts, parent) && t !in parent
    ensures IssuedInOrder(ts, parent[t := before])
  {
  }

  lemma ExtendOne(chain: map<Sid, seq<Token>>, parent: map<Token, Option<Token>>, sid: Sid, t: Token)
    requires AllInOrder(chain, parent) && sid in chain && t !in parent
    ensures AllInOrder(chain[sid := chain[sid] + [t]], parent[t := LastOf(chain[sid])])
  {
    hide IssuedInOrder;
    forall x | x in chain
      ensures IssuedInOrder(chain[sid := chain[sid] + [t]][x], parent[t := LastOf(chain[sid])])
    {
      if x == sid {
        ExtendOrder(chain[x], parent, t);
      } else {
        OthersStayInOrder(chain[x], parent, t, LastOf(chain[sid]));
      }
    }
  }

  lemma SavedLineage(s: State, r: Rid, t: Token)
    requires Inv(s) && r in s.reqs && s.reqs[r].Issuing? && t !in s.ever
    ensures Lineage(Saved(s, r, s.reqs[r].user, s.reqs[r].sid, t))
  {
    var sid := s.reqs[r].sid;
    assert Pending(s.reqs[r], sid);
    assert sid in s.chain && s.reqs[r].after == LastOf(s.chain[sid]);
    hide Tables, Chains, Slots, SpentInOrder, AllInOrder, LastOf;
    ExtendOne(s.chain, s.parent, sid, t);
  }

  lemma SavedSpent(s: State, r: Rid, t: Token)
    requires Inv(s) && r in s.reqs && s.reqs[r].Issuing? && t !in s.ever
    ensures SpentInOrder(Saved(s, r, s.reqs[r].user, s.reqs[r].sid, t))
  {
    hide Chains, Lineage;
    assert Pending(s.reqs[r], s.reqs[r].sid);
  }

  lemma SavedSlots(s: State, r: Rid, t: Token)
    requires Inv(s) && r in s.reqs && s.reqs[r].Issuing? && t !in s.ever
    ensures Slots(Saved(s, r, s.reqs[r].user, s.reqs[r].sid, t))
  {
    hide Chains, Lineage, SpentInOrder;
    var sid := s.reqs[r].sid;
    var s' := Saved(s, r, s.reqs[r].user, sid, t);
    assert Pending(s.reqs[r], sid);
    forall x, y | x in s'.reqs && Pending(s'.reqs[x], y)
      ensures x in s.reqs && x != r && Pending(s.reqs[x], y) && y != sid
    {
    }
  }

  lemma SaveKeeps(s: State, r: Rid, fresh_: Token)
    requires Inv(s) && r in s.reqs && s.reqs[r].Issuing? && fresh_ !in s.ever
    ensures Inv(Execute(s, r, s.reqs[r], fresh_))
  {
    var q := s.reqs[r];
    assert Pending(q, q.sid);
    SavedTables(s, r, fresh_);
    SavedChains(s, r, q.sid, q.user, fresh_);
    SavedLineage(s, r, fresh_);
    SavedSpent(s, r, fresh_);
    SavedSlots(s, r, fresh_);
    hide Tables, Chains, Lineage, SpentInOrder, Slots;
  }

  /** The requests, chains and spent tokens are as before, and sessions keep their users. */
  lemma SameSlots(s: State, s': State)
    requires Inv(s)
    requires s'.reqs == s.reqs && s'.chain == s.chain && s'.spent == s.spent
    requires forall sid | sid in s.db.sessions ::
      sid in s'.db.sessions && s'.db.sessions[sid].user == s.db.sessions[sid].user
    ensures Slots(s')
  {
    hide Tables, Chains, Lineage, SpentInOrder;
  }

  /** Only the revoked marks of sessions and tokens change, and only forwards; users, the account and the clock may. */
  ghost predicate RevokesOnly(a: Db, b: Db) {
    && b.links == a.links && b.sessions.Keys == a.sessions.Keys && b.tokens.Keys == a.tokens.Keys
    && (forall sid | sid in a.sessions :: b.sessions[sid].user == a.sessions[sid].user)
    && (forall t | t in a.tokens ::
        b.tokens[t].user == a.tokens[t].user && (a.tokens[t].revoked ==> b.tokens[t].revoked))
  }

  lemma RevokesTables(s: State, db: Db)
    requires Tables(s) && RevokesOnly(s.db, db)
    ensures Tables(s.(db := db))
  {
  }

  lemma RevokesChains(s: State, db: Db)
    requires Chains(s) && RevokesOnly(s.db, db)
    ensures Chains(s.(db := db))
  {
    hide Distinct;
  }

  lemma RevokesSpent(s: State, db: Db)
    requires SpentInOrder(s) && RevokesOnly(s.db, db)
    ensures SpentInOrder(s.(db := db))
  {
    hide Distinct, AllBefore;
  }

  /** Revoking whatever, by whatever statement, keeps everything. */
  lemma RevokesKeep(s: State, db: Db)
    requires Inv(s) && RevokesOnly(s.db, db)
    ensures Inv(s.(db := db))
  {
    hide Tables, Chains, Lineage, SpentInOrder, Slots;
    RevokesTables(s, db);
    RevokesChains(s, db);
    RevokesSpent(s, db);
    SameSlots(s, s.(db := db));
    SameLineage(s, s.(db := db));
  }

  /** A token that belongs to no session. */
  lemma SaveOtherKeeps(s: State, u: UserId, t: Token)
    requires Inv(s) && t !in s.ever
    ensures Inv(s.(db := SaveUnlinked(s.db, u, t), ever := s.ever + {t}))
  {
    var s' := s.(db := SaveUnlinked(s.db, u, t), ever := s.ever + {t});
    SameSlots(s, s');
    SameLineage(s, s');
    assert SpentInOrder(s') by {
      hide Chains, Lineage, Slots, Distinct, AllBefore;
    }
    assert Chains(s') by {
      hide Tables, Lineage, Slots, SpentInOrder, Distinct;
    }
    hide Chains, Lineage, Slots, SpentInOrder;
  }

  lemma SweepChains(s: State, gone: set<Token>)
    requires Chains(s)
    ensures Chains(s.(db := s.db.(tokens := s.db.tokens - gone, links := s.db.links - gone), swept := s.swept + gone))
  {
    hide Distinct;
    var s' := s.(db := s.db.(tokens := s.db.tokens - gone, links := s.db.links - gone), swept := s.swept + gone);
    forall sid, i | sid in s'.chain && 0 <= i < |s'.chain[sid]|
      ensures LinkedOnce(s'.db.links, s'.swept, s'.chain[sid][i], sid)
    {
      assert LinkedOnce(s.db.links, s.swept, s.chain[sid][i], sid);
    }
  }

  /** Tokens swept away, with their links. */
  lemma SweepKeeps(s: State, gone: set<Token>)
    requires Inv(s) && gone <= s.db.tokens.Keys
    ensures Inv(s.(db := s.db.(tokens := s.db.tokens - gone, links := s.db.links - gone), swept := s.swept + gone))
  {
    var s' := s.(db := s.db.(tokens := s.db.tokens - gone, links := s.db.links - gone), swept := s.swept + gone);
    SameSlots(s, s');
    SameLineage(s, s');
    SweepChains(s, gone);
    assert SpentInOrder(s') by {
      hide Tables, Chains, Lineage, Slots, Distinct, AllBefore;
    }
    hide Chains, Lineage, Slots, SpentInOrder;
  }

  /** A statement that changes nothing gives no new right to issue. */
  lemma ReadGainsNothing(s: State, q: Request, fresh_: nat, sid: Sid)
    requires Effect(s, q, fresh_) == s && Pending(Next(s.db, q, fresh_), sid)
    ensures var q' := Next(s.db, q, fresh_);
            Pending(q, sid) && q'.user == q.user && Predecessor(q') == Predecessor(q)
  {
    hide Usable, CredentialsCurrent, SaveRefresh, RevokeByRefresh, RevokeRefresh, Revoked, SessionActive, UserActive;
    match q
    case SignInCreate(_, _, _) => SilentCreate(s, q, fresh_);
    case RefreshConsume(_) => SilentConsume(s, q, fresh_);
    case _ =>
  }

  lemma SilentCreate(s: State, q: Request, fresh_: nat)
    requires q.SignInCreate? && Effect(s, q, fresh_) == s
    ensures Next(s.db, q, fresh_).SignInCreate? || Next(s.db, q, fresh_).Done?
  {
    hide CredentialsCurrent;
    assert fresh_ in Effect(s, q, fresh_).db.sessions || Effect(s, q, fresh_) == s;
  }

  lemma SilentConsume(s: State, q: Request, fresh_: nat)
    requires q.RefreshConsume? && Effect(s, q, fresh_) == s
    ensures Next(s.db, q, fresh_).Done?
  {
    hide ConsumeRefresh;
    assert s.spent != s.spent + [q.presented];
  }

  lemma ReadKeeps(s: State, r: Rid, fresh_: nat)
    requires Inv(s) && r in s.reqs && Effect(s, s.reqs[r], fresh_) == s
    ensures Inv(Execute(s, r, s.reqs[r], fresh_))
  {
    hide Inv, Next, Effect;
    forall sid | Pending(Next(s.db, s.reqs[r], fresh_), sid)
      ensures var q, q' := s.reqs[r], Next(s.db, s.reqs[r], fresh_);
              Pending(q, sid) && q'.user == q.user && Predecessor(q') == Predecessor(q)
    {
      ReadGainsNothing(s, s.reqs[r], fresh_, sid);
    }
    MoveKeeps(s, r, Next(s.db, s.reqs[r], fresh_));
  }

  lemma SignOutRevokesOnly(db: Db, t: Token)
    ensures RevokesOnly(db, RevokeByRefresh(db, t)) && RevokesOnly(db, RevokeRefresh(db, t))
  {
  }

  lemma ExecuteKeeps(s: State, r: Rid, fresh_: nat)
    requires Inv(s) && r in s.reqs && IsFresh(s, s.reqs[r], fresh_)
    ensures Inv(Execute(s, r, s.reqs[r], fresh_))
  {
    hide Tables, Chains, Lineage, SpentInOrder, Slots, CreateSession, RevokeWhere, RevokesOnly, RevokeByRefresh,
         RevokeRefresh;
    var q := s.reqs[r];
    if Effect(s, q, fresh_) == s {
      ReadKeeps(s, r, fresh_);
    } else {
      match q
      case SignInCreate(_, _, _) => CreateKeeps(s, r, fresh_);
      case RefreshConsume(_) => ConsumeKeeps(s, r);
      case Issuing(_, _, _) => SaveKeeps(s, r, fresh_);
      case SignOutSession(t) =>
        SignOutRevokesOnly(s.db, t);
        RevokesKeep(s, RevokeByRefresh(s.db, t));
        MoveKeeps(s.(db := RevokeByRefresh(s.db, t)), r, SignOutToken(t));
      case SignOutToken(t) =>
        SignOutRevokesOnly(s.db, t);
        RevokesKeep(s, RevokeRefresh(s.db, t));
        MoveKeeps(s.(db := RevokeRefresh(s.db, t)), r, Done(SignedOut));
    }
  }

  /** The events that only revoke, or change a user, the account or the clock. */
  predicate OnlyRevokes(e: Event) {
    || e.Replace? || e.RevokeUser? || e.SetPasswordOnly? || e.RevokeOne? || e.RevokeTokens?
    || e.SetActive? || e.SetAllowed? || e.Tick?
  }

  lemma OutsideRevokesOnly(s: State, e: Event)
    requires OnlyRevokes(e)
    ensures Apply(s, e) == s.(db := Apply(s, e).db) && RevokesOnly(s.db, Apply(s, e).db)
  {
    match e
    case Replace(u, h, m, expected) =>
      ReplaceEndsEverything(s.db, u, h, m, expected);
      assert ReplacePassword(s.db, u, h, m, expected).0.links == s.db.links;
      hide ReplacePassword;
    case RevokeUser(_) =>
    case SetPasswordOnly(_, _) =>
    case RevokeOne(t) => SignOutRevokesOnly(s.db, t);
    case RevokeTokens(_) =>
    case SetActive(_, _) =>
    case SetAllowed(_) =>
    case Tick(_) =>
  }

  lemma StepKeeps(s: State, e: Event)
    requires Inv(s) && !OnlyRevokes(e)
    ensures Inv(Apply(s, e))
  {
    hide Inv, Execute;
    match e
    case Start(r, q) =>
      if r !in s.reqs && IsFirst(q) {
        MoveKeeps(s, r, q);
      }
    case Step(r, fresh_) =>
      if r in s.reqs && IsFresh(s, s.reqs[r], fresh_) {
        ExecuteKeeps(s, r, fresh_);
      }
    case SaveOther(u, t) =>
      if t !in s.ever {
        SaveOtherKeeps(s, u, t);
      }
    case SweepTokens(dead) => SweepKeeps(s, Sweepable(s.db, dead));
  }

  lemma ApplyKeeps(s: State, e: Event)
    requires Inv(s)
    ensures Inv(Apply(s, e))
  {
    hide Inv, Apply, RevokesOnly;
    if OnlyRevokes(e) {
      OutsideRevokesOnly(s, e);
      RevokesKeep(s, Apply(s, e).db);
    } else {
      StepKeeps(s, e);
    }
  }

  lemma {:induction false} RunKeeps(s: State, es: seq<Event>)
    requires Inv(s)
    ensures Inv(Run(s, es))
  {
    if es != [] {
      hide Inv, Apply;
      RunKeeps(s, es[..|es| - 1]);
      ApplyKeeps(Run(s, es[..|es| - 1]), es[|es| - 1]);
    }
  }

  lemma InitialInv(s: State)
    requires Initial(s)
    ensures Inv(s)
  {
  }

  /** Who may bring about a session's next token: an unspent token, or the request that issues it. */
  datatype Holder = TokenHolder(t: Token) | RequestHolder(r: Rid)

  predicate Holds(s: State, sid: Sid, h: Holder) {
    match h
    case TokenHolder(t) => t in s.db.links && s.db.links[t] == sid && t in s.db.tokens && !s.db.tokens[t].revoked
    case RequestHolder(r) => r in s.reqs && Pending(s.reqs[r], sid)
  }

  /** In every run, a session never has two holders. */
  lemma OneHolder(s: State, es: seq<Event>, sid: Sid, a: Holder, b: Holder)
    requires Initial(s) && Holds(Run(s, es), sid, a) && Holds(Run(s, es), sid, b)
    ensures a == b
  {
    InitialInv(s);
    RunKeeps(s, es);
    hide Run;
    HoldersMeet(Run(s, es), sid, a, b);
  }

  lemma HolderIsLast(s: State, sid: Sid, t: Token)
    requires Inv(s) && Holds(s, sid, TokenHolder(t))
    ensures sid in s.chain && LastOf(s.chain[sid]) == Some(t) && t !in s.spent
  {
    hide Lineage, Slots;
    assert t in s.chain[sid];
    var i :| 0 <= i < |s.chain[sid]| && s.chain[sid][i] == t;
    assert i + 1 == |s.chain[sid]|;
  }

  lemma HoldersMeet(s: State, sid: Sid, a: Holder, b: Holder)
    requires Inv(s) && Holds(s, sid, a) && Holds(s, sid, b)
    ensures a == b
  {
    hide Lineage, Chains, Tables, SpentInOrder;
    if a.TokenHolder? {
      HolderIsLast(s, sid, a.t);
    }
    if b.TokenHolder? {
      HolderIsLast(s, sid, b.t);
    }
  }

  /**
    In every run the tokens of a session form one chain: it lists exactly the tokens linked to the session
    and those swept away, each issued for the one before; all but the last are spent, and none is spent twice.
   */
  lemma OneChain(s: State, es: seq<Event>, sid: Sid)
    requires Initial(s) && sid in Run(s, es).db.sessions
    ensures var now := Run(s, es);
            && sid in now.chain
            && (forall t :: t in now.db.links && now.db.links[t] == sid <==> t in now.chain[sid] && t !in now.swept)
            && Distinct(now.chain[sid]) && IssuedInOrder(now.chain[sid], now.parent)
            && AllBefore(now.chain[sid], now.spent) && Distinct(now.spent)
  {
    InitialInv(s);
    RunKeeps(s, es);
    hide Run, Slots, IssuedInOrder;
    var now := Run(s, es);
    forall t
      ensures t in now.db.links && now.db.links[t] == sid <==> t in now.chain[sid] && t !in now.swept
    {
      if t in now.chain[sid] {
        var i :| 0 <= i < |now.chain[sid]| && now.chain[sid][i] == t;
        assert LinkedOnce(now.db.links, now.swept, now.chain[sid][i], sid);
      }
    }
  }

  /** A live session was opened with the password hash its user has now. */
  ghost predicate ProofCurrent(s: State, sid: Sid) {
    && sid in s.db.sessions && sid in s.proof && s.db.sessions[sid].user in s.db.users
    && s.db.users[s.db.sessions[sid].user].passwordHash == Some(s.proof[sid])
  }

  ghost predicate ProofsCurrent(s: State) {
    forall sid | sid in s.db.sessions && !s.db.sessions[sid].revoked :: ProofCurrent(s, sid)
  }

  predicate HasLiveSession(db: Db, u: UserId) {
    exists sid :: sid in db.sessions && db.sessions[sid].user == u && !db.sessions[sid].revoked
  }

  /** The older sign-in writes another hash while the user has a live session. */
  predicate Outdates(s: State, e: Event) {
    e.SetPasswordOnly? && e.user in s.db.users && s.db.users[e.user].passwordHash != Some(e.hash)
      && HasLiveSession(s.db, e.user)
  }

  /** No live session is there that was not, or has another proof, and users keep their hashes. */
  ghost predicate ProofsKept(s: State, s': State) {
    && (forall sid | sid in s'.db.sessions && !s'.db.sessions[sid].revoked ::
          && sid in s.db.sessions && !s.db.sessions[sid].revoked && s'.db.sessions[sid].user == s.db.sessions[sid].user
          && (sid in s.proof ==> sid in s'.proof && s'.proof[sid] == s.proof[sid]))
    && (forall u | u in s.db.users :: u in s'.db.users && s'.db.users[u].passwordHash == s.db.users[u].passwordHash)
  }

  lemma KeptProofs(s: State, s': State)
    requires ProofsCurrent(s) && ProofsKept(s, s')
    ensures ProofsCurrent(s')
  {
  }

  lemma CreateProofs(s: State, r: Rid, fresh_: nat)
    requires ProofsCurrent(s) && Tables(s) && r in s.reqs && s.reqs[r].SignInCreate?
    ensures ProofsCurrent(Execute(s, r, s.reqs[r], fresh_))
  {
    hide Next;
  }

  lemma ExecuteKeepsProofs(s: State, r: Rid, fresh_: nat)
    requires r in s.reqs && !s.reqs[r].SignInCreate?
    ensures ProofsKept(s, Execute(s, r, s.reqs[r], fresh_))
  {
    hide Next;
    var q := s.reqs[r];
    if q.SignOutSession? {
      RevokeByRefreshEnds(s.db, q.presented);
      assert RevokeByRefresh(s.db, q.presented).users == s.db.users;
      hide RevokeByRefresh;
    } else {
      LeavesSessions(s, q, fresh_);
      hide Effect;
    }
  }

  lemma LeavesSessions(s: State, q: Request, fresh_: nat)
    requires !q.SignInCreate? && !q.SignOutSession?
    ensures var s' := Effect(s, q, fresh_);
            s'.db.sessions == s.db.sessions && s'.db.users == s.db.users && s'.proof == s.proof
  {
  }

  lemma ReplaceProofs(s: State, u: UserId, h: Hash, e: Option<nat>, expected: Option<Hash>)
    requires ProofsCurrent(s)
    ensures ProofsCurrent(s.(db := ReplacePassword(s.db, u, h, e, expected).0))
  {
  }

  lemma SetPasswordProofs(s: State, u: UserId, h: Hash)
    requires ProofsCurrent(s)
    ensures ProofsCurrent(Apply(s, SetPasswordOnly(u, h))) <==> !Outdates(s, SetPasswordOnly(u, h))
  {
    var s' := Apply(s, SetPasswordOnly(u, h));
    if Outdates(s, SetPasswordOnly(u, h)) {
      var sid :| sid in s.db.sessions && s.db.sessions[sid].user == u && !s.db.sessions[sid].revoked;
      assert ProofCurrent(s, sid) && !ProofCurrent(s', sid);
    } else {
      forall sid | sid in s'.db.sessions && !s'.db.sessions[sid].revoked
        ensures ProofCurrent(s', sid)
      {
        assert ProofCurrent(s, sid);
      }
    }
  }

  lemma OthersKeepProofs(s: State, e: Event)
    requires !e.SetPasswordOnly? && !e.Replace? && !(e.Step? && e.r in s.reqs)
    ensures ProofsKept(s, Apply(s, e))
  {
  }

  lemma ProofsExactly(s: State, e: Event)
    requires Inv(s) && ProofsCurrent(s)
    ensures ProofsCurrent(Apply(s, e)) <==> !Outdates(s, e)
  {
    if e.SetPasswordOnly? {
      SetPasswordProofs(s, e.user, e.hash);
    } else if e.Replace? {
      ReplaceProofs(s, e.user, e.hash, e.email, e.expected);
    } else if e.Step? && e.r in s.reqs {
      if s.reqs[e.r].SignInCreate? {
        CreateProofs(s, e.r, e.fresh_);
      } else {
        ExecuteKeepsProofs(s, e.r, e.fresh_);
        KeptProofs(s, Execute(s, e.r, s.reqs[e.r], e.fresh_));
      }
      hide Execute, ProofsCurrent, ProofsKept;
    } else {
      OthersKeepProofs(s, e);
      KeptProofs(s, Apply(s, e));
      hide ProofsCurrent, ProofsKept, Apply;
    }
  }

  ghost predicate ProofsThroughout(s: State, es: seq<Event>) {
    ProofsCurrent(Run(s, es)) && (es != [] ==> ProofsThroughout(s, es[..|es| - 1]))
  }

  ghost predicate NothingOutdated(s: State, es: seq<Event>) {
    es != [] ==> NothingOutdated(s, es[..|es| - 1]) && !Outdates(Run(s, es[..|es| - 1]), es[|es| - 1])
  }

  /**
    At every moment of a run each live session was opened with the password hash its user has then, if and
    only if the older sign-in never writes another hash for a user with a live session. The locked
    replacement of credentials never breaks it, however sign-ins race it.
   */
  lemma {:induction false} NoSessionOutlivesItsPassword(s: State, es: seq<Event>)
    requires Initial(s)
    ensures ProofsThroughout(s, es) <==> NothingOutdated(s, es)
  {
    if es != [] {
      hide Apply, ProofsCurrent, Outdates, Inv, Initial;
      NoSessionOutlivesItsPassword(s, es[..|es| - 1]);
      assert Inv(s) by {
        InitialInv(s);
      }
      RunKeeps(s, es[..|es| - 1]);
      if ProofsThroughout(s, es[..|es| - 1]) {
        ProofsExactly(Run(s, es[..|es| - 1]), es[|es| - 1]);
      }
    } else {
      assert ProofsCurrent(s);
    }
  }

  ghost predicate Dead(s: State, sid: Sid) {
    sid in s.db.sessions && s.db.sessions[sid].revoked
  }

  lemma SignOutStep(s: State, r: Rid, sid: Sid, t: Token, fresh_: nat)
    requires r in s.reqs && s.reqs[r] == SignOutSession(t) && sid in s.db.sessions
    ensures Dead(Apply(s, Step(r, fresh_)), sid) <==> Dead(s, sid) || (t in s.db.links && s.db.links[t] == sid)
  {
    RevokeByRefreshEnds(s.db, t);
    hide RevokeByRefresh;
  }

  /**
    The first statement of a sign-out with a token of a session's chain, spent or not, leaves the session
    dead if and only if it was dead already or the token has not been swept away.
   */
  lemma SignOutKills(s: State, es: seq<Event>, r: Rid, sid: Sid, t: Token, fresh_: nat)
    requires Initial(s)
    requires var now := Run(s, es);
             sid in now.chain && t in now.chain[sid] && r in now.reqs && now.reqs[r] == SignOutSession(t)
    ensures Dead(Run(s, es + [Step(r, fresh_)]), sid) <==> Dead(Run(s, es), sid) || t !in Run(s, es).swept
  {
    InitialInv(s);
    RunKeeps(s, es);
    assert sid in Run(s, es).db.sessions by {
      assert Tables(Run(s, es));
    }
    OneChain(s, es, sid);
    hide Inv, Initial, Apply, Dead;
    assert (es + [Step(r, fresh_)])[..|es|] == es;
    SignOutStep(Run(s, es), r, sid, t, fresh_);
  }

  ghost predicate HasPending(s: State, sid: Sid) {
    exists r :: r in s.reqs && Pending(s.reqs[r], sid)
  }

  /** The request can no longer, or could never, get anything out of this session. */
  predicate Harmless(q: Request, sid: Sid) {
    && !Pending(q, sid)
    && !((q.IdentityUser? || q.IdentityAccount?) && q.sid == sid)
    && !(q.Done? && (q.reply.Issued? || q.reply.Identified?) && q.reply.sid == sid)
  }

  /** What a dead session allows: nothing to anybody but `known`, and at most the one token in flight. */
  ghost predicate StaysDead(s: State, known: set<Rid>, sid: Sid, length: nat, owed: bool) {
    && Dead(s, sid) && sid in s.chain
    && (forall r | r in s.reqs && r !in known :: Harmless(s.reqs[r], sid))
    && |s.chain[sid]| <= length + (if owed then 1 else 0)
    && (HasPending(s, sid) ==> owed && |s.chain[sid]| <= length)
  }

  lemma DeadStep(s: State, e: Event, known: set<Rid>, sid: Sid, length: nat, owed: bool)
    requires Inv(s) && StaysDead(s, known, sid, length, owed) && known <= s.reqs.Keys
    ensures StaysDead(Apply(s, e), known, sid, length, owed) && known <= Apply(s, e).reqs.Keys
  {
    if e.Step? && e.r in s.reqs {
      DeadExecute(s, e.r, e.fresh_, known, sid, length, owed);
      hide Execute, StaysDead;
    } else {
      OthersLeaveRequests(s, e);
      DeadStaysDead(s, e, sid);
      hide Apply, Dead, Inv, Pending;
      var s' := Apply(s, e);
      assert forall r | r in s'.reqs && r !in s.reqs :: Harmless(s'.reqs[r], sid) && !Pending(s'.reqs[r], sid) by {
        NewRequestsAreHarmless(s, e, sid);
      }
      if HasPending(s', sid) {
        var r :| r in s'.reqs && Pending(s'.reqs[r], sid);
        assert r in s.reqs && Pending(s.reqs[r], sid);
      }
    }
  }

  /** No other event touches a request that is there, or a chain. */
  lemma OthersLeaveRequests(s: State, e: Event)
    requires !(e.Step? && e.r in s.reqs)
    ensures s.reqs.Keys <= Apply(s, e).reqs.Keys && Apply(s, e).chain == s.chain
    ensures forall r | r in s.reqs :: Apply(s, e).reqs[r] == s.reqs[r]
  {
  }

  lemma NewRequestsAreHarmless(s: State, e: Event, sid: Sid)
    requires !(e.Step? && e.r in s.reqs)
    ensures var s' := Apply(s, e);
            forall r | r in s'.reqs && r !in s.reqs :: Harmless(s'.reqs[r], sid) && !Pending(s'.reqs[r], sid)
  {
  }

  lemma DeadStaysDead(s: State, e: Event, sid: Sid)
    requires !(e.Step? && e.r in s.reqs) && Dead(s, sid)
    ensures Dead(Apply(s, e), sid)
  {
    if e.Replace? {
      ReplaceEndsEverything(s.db, e.user, e.hash, e.email, e.expected);
      hide ReplacePassword;
    }
  }

  lemma ExecuteChangesOne(s: State, r: Rid, fresh_: nat)
    requires r in s.reqs
    ensures var s' := Execute(s, r, s.reqs[r], fresh_);
            && s'.reqs.Keys == s.reqs.Keys && s'.reqs[r] == Next(s.db, s.reqs[r], fresh_)
            && (forall x | x in s.reqs && x != r :: s'.reqs[x] == s.reqs[x])
  {
    hide Next;
    assert Effect(s, s.reqs[r], fresh_).reqs == s.reqs by {
      hide RevokeByRefresh, RevokeRefresh, ConsumeRefresh, CreateSession, SaveRefresh;
    }
    hide Effect;
  }

  lemma ExecuteRevokesOnly(s: State, r: Rid, fresh_: nat)
    requires r in s.reqs
    ensures var s' := Execute(s, r, s.reqs[r], fresh_);
            forall sid | sid in s.db.sessions ::
              sid in s'.db.sessions && (s.db.sessions[sid].revoked ==> s'.db.sessions[sid].revoked)
  {
    var q := s.reqs[r];
    hide Next, CredentialsCurrent;
    if q.SignOutSession? {
      RevokeByRefreshEnds(s.db, q.presented);
      hide RevokeByRefresh;
    } else if !q.SignInCreate? {
      assert Effect(s, q, fresh_).db.sessions == s.db.sessions;
    }
  }

  lemma ChainGrowsByIssuing(s: State, r: Rid, fresh_: nat, sid: Sid)
    requires r in s.reqs && sid in s.chain && sid in s.db.sessions
    ensures var q, s' := s.reqs[r], Execute(s, r, s.reqs[r], fresh_);
            && sid in s'.chain
            && (s'.chain[sid] == s.chain[sid]
                || (q.Issuing? && q.sid == sid && |s'.chain[sid]| == |s.chain[sid]| + 1 && !Pending(s'.reqs[r], sid)))
  {
  }

  /** A request on a dead session, whichever statement it executes: it never gains anything. */
  lemma DeadRequest(db: Db, q: Request, fresh_: nat, sid: Sid)
    requires sid in db.sessions && db.sessions[sid].revoked
    ensures Harmless(q, sid) ==> Harmless(Next(db, q, fresh_), sid)
    ensures Pending(Next(db, q, fresh_), sid) ==> Pending(q, sid)
  {
    hide Revoked, CredentialsCurrent;
  }

  lemma DeadExecute(s: State, r: Rid, fresh_: nat, known: set<Rid>, sid: Sid, length: nat, owed: bool)
    requires Inv(s) && r in s.reqs && StaysDead(s, known, sid, length, owed) && known <= s.reqs.Keys
    ensures StaysDead(Execute(s, r, s.reqs[r], fresh_), known, sid, length, owed)
    ensures known <= Execute(s, r, s.reqs[r], fresh_).reqs.Keys
  {
    hide SpentInOrder, Lineage, Chains, Execute, Harmless, Next;
    var s' := Execute(s, r, s.reqs[r], fresh_);
    ExecuteChangesOne(s, r, fresh_);
    ExecuteRevokesOnly(s, r, fresh_);
    ChainGrowsByIssuing(s, r, fresh_, sid);
    DeadRequest(s.db, s.reqs[r], fresh_, sid);
    if HasPending(s', sid) {
      var x :| x in s'.reqs && Pending(s'.reqs[x], sid);
      assert Pending(s.reqs[x], sid);
    }
    if s'.chain[sid] != s.chain[sid] {
      assert Pending(s.reqs[r], sid);
    }
  }

  /**
    Once a session is revoked it stays revoked in every continuation: none of its tokens, even one
    saved later by a refresh in flight, can be spent; no check of it succeeds; no request gets a token or
    an identity from it, save one that at the revocation had already spent a token of it, had already
    found it active, or already had its answer; and at most one more token is ever saved.
   */
  lemma RevokedForGood(start: State, past: seq<Event>, es: seq<Event>, sid: Sid)
    requires Initial(start) && Dead(Run(start, past), sid)
    ensures var then_, now := Run(start, past), Run(Run(start, past), es);
            && Dead(now, sid)
            && (forall t | t in now.db.links && now.db.links[t] == sid :: ConsumeRefresh(now.db, t) == (now.db, None))
            && (forall u :: !SessionActive(now.db, u, sid))
            && (forall r | r in now.reqs && !Harmless(now.reqs[r], sid) ::
                  r in then_.reqs && !Harmless(then_.reqs[r], sid))
            && sid in now.chain && sid in then_.chain
            && |now.chain[sid]| <= |then_.chain[sid]| + (if HasPending(then_, sid) then 1 else 0)
  {
    InitialInv(start);
    RunKeeps(start, past);
    var s := Run(start, past);
    assert sid in s.chain by {
      assert Tables(s);
    }
    var known := set r | r in s.reqs && !Harmless(s.reqs[r], sid);
    DeadRun(s, es, known, sid, |s.chain[sid]|, HasPending(s, sid));
    hide Run, Inv, HasPending, Initial, Harmless;
  }

  lemma RevokeOnly(s: State, u: UserId, sid: Sid)
    requires sid in s.db.sessions && s.db.sessions[sid].user == u
    ensures var s' := Apply(s, RevokeUser(u));
            Dead(s', sid) && s'.reqs == s.reqs && s'.db.users == s.db.users && s'.db.allowed == s.db.allowed
  {
  }

  lemma UserCheckGoesOn(s: State, r: Rid, u: UserId, sid: Sid)
    requires r in s.reqs && s.reqs[r] == IdentityUser(u, sid) && UserActive(s.db, u)
    ensures Apply(s, Step(r, 0)) == At(s, r, IdentityAccount(u, sid))
  {
  }

  lemma AccountCheckAnswers(s: State, r: Rid, u: UserId, sid: Sid)
    requires r in s.reqs && s.reqs[r] == IdentityAccount(u, sid) && s.db.allowed
    ensures Apply(s, Step(r, 0)) == At(s, r, Done(Identified(u, sid)))
  {
  }

  /** Revocation does not reach a check that has already read its session: it still answers. */
  lemma CheckInFlightAnswers(s: State, r: Rid, u: UserId, sid: Sid)
    requires r in s.reqs && s.reqs[r] == IdentityUser(u, sid) && UserActive(s.db, u) && s.db.allowed
    requires sid in s.db.sessions && s.db.sessions[sid].user == u
    ensures var now := Run(s, [RevokeUser(u), Step(r, 0), Step(r, 0)]);
            Dead(now, sid) && r in now.reqs && now.reqs[r] == Done(Identified(u, sid))
  {
    RunOfThree(s, RevokeUser(u), Step(r, 0), Step(r, 0));
    RevokeOnly(s, u, sid);
    hide Apply, Run;
    var s1 := Apply(s, RevokeUser(u));
    UserCheckGoesOn(s1, r, u, sid);
    AccountCheckAnswers(Apply(s1, Step(r, 0)), r, u, sid);
  }

  /** Nor one about to save: its caller is given a token, which nothing will ever accept. */
  lemma RefreshInFlightSavesADeadToken(s: State, r: Rid, u: UserId, sid: Sid, after: Option<Token>, t: Token)
    requires r in s.reqs && s.reqs[r] == Issuing(u, sid, after) && t !in s.db.tokens && t !in s.ever
    requires sid in s.db.sessions && s.db.sessions[sid].user == u
    ensures var now := Apply(Apply(s, RevokeUser(u)), Step(r, t));
            && now.reqs[r] == Done(Issued(sid, t)) && t in now.db.tokens && !now.db.tokens[t].revoked
            && Dead(now, sid) && !Usable(now.db, t)
  {
  }

  lemma RunOfThree(s: State, a: Event, b: Event, c: Event)
    ensures Run(s, [a, b, c]) == Apply(Apply(Apply(s, a), b), c)
  {
    hide Apply;
    assert [a, b, c][..2] == [a, b] && [a, b][..1] == [a] && [a][..0] == [];
    assert Run(s, []) == s;
    assert Run(s, [a]) == Apply(s, a);
    assert Run(s, [a, b]) == Apply(Run(s, [a]), b);
  }

  lemma {:induction false} RunConcat(s: State, a: seq<Event>, b: seq<Event>)
    ensures Run(s, a + b) == Run(Run(s, a), b)
  {
    hide Apply;
    if b == [] {
      assert a + b == a;
    } else {
      assert (a + b)[..|a + b| - 1] == a + b[..|b| - 1];
      RunConcat(s, a, b[..|b| - 1]);
    }
  }

  /** A sign-in from its first statement to its last. */
  function SigningIn(r: Rid, u: UserId, h: Hash, m: Option<nat>, sid: Sid, t: Token): seq<Event> {
    [Start(r, SignInUser(u, h, m)), Step(r, 0), Step(r, 0)] + [Step(r, sid), Step(r, t), Tick(0)]
  }

  /** A session that was just opened for the user, with its first token. */
  ghost predicate JustOpened(s: State, u: UserId, h: Hash, sid: Sid, t: Token) {
    && s.db.sessions == map[sid := Session(u, false)] && s.proof == map[sid := h] && s.chain == map[sid := [t]]
    && s.db.tokens == map[t := RefreshToken(u, s.db.now + LIFETIME, false)] && s.db.links == map[t := sid]
    && u in s.db.users && s.db.users[u].passwordHash == Some(h) && s.swept == {}
  }

  lemma SignInReads(s: State, r: Rid, u: UserId, h: Hash, m: Option<nat>)
    requires s.reqs == map[] && CredentialsCurrent(s.db, u, h, m) && s.db.allowed
    ensures Apply(Apply(Apply(s, Start(r, SignInUser(u, h, m))), Step(r, 0)), Step(r, 0))
        == s.(reqs := map[r := SignInCreate(u, h, m)])
  {
    hide CredentialsCurrent;
    var s1 := Apply(s, Start(r, SignInUser(u, h, m)));
    assert s1 == s.(reqs := map[r := SignInUser(u, h, m)]);
    var s2 := Apply(s1, Step(r, 0));
    assert s2 == s.(reqs := map[r := SignInAccount(u, h, m)]);
    assert Apply(s2, Step(r, 0)) == s.(reqs := map[r := SignInCreate(u, h, m)]);
  }

  lemma SignInCreates(s: State, r: Rid, u: UserId, h: Hash, m: Option<nat>, sid: Sid)
    requires Initial(s.(reqs := map[])) && CredentialsCurrent(s.db, u, h, m)
    requires s.reqs == map[r := SignInCreate(u, h, m)]
    ensures Apply(s, Step(r, sid))
         == s.(db := s.db.(sessions := map[sid := Session(u, false)]), chain := map[sid := []], proof := map[sid := h],
               reqs := map[r := Issuing(u, sid, None)])
  {
    hide CredentialsCurrent;
    assert Apply(s, Step(r, sid)) == Created(s, r, u, h, sid);
  }

  lemma SignInSaves(s: State, r: Rid, u: UserId, h: Hash, m: Option<nat>, sid: Sid, t: Token)
    requires s.db.tokens == map[] && s.db.links == map[] && s.ever == {} && s.swept == {}
    requires s.db.sessions == map[sid := Session(u, false)] && s.proof == map[sid := h] && s.chain == map[sid := []]
    requires s.reqs == map[r := Issuing(u, sid, None)] && CredentialsCurrent(s.db, u, h, m)
    ensures var now := Apply(Apply(s, Step(r, t)), Tick(0));
            JustOpened(now, u, h, sid, t) && now.reqs == map[r := Done(Issued(sid, t))]
  {
    var s1 := Apply(s, Step(r, t));
    assert s1 == Saved(s, r, u, sid, t);
    assert s1.chain == map[sid := [] + [t]] && [] + [t] == [t];
    assert s1.reqs == map[r := Done(Issued(sid, t))];
    assert Apply(s1, Tick(0)) == s1.(db := s1.db.(now := s1.db.now + 0));
  }

  lemma SignedIn(s: State, r: Rid, u: UserId, h: Hash, m: Option<nat>, sid: Sid, t: Token)
    requires Initial(s) && CredentialsCurrent(s.db, u, h, m) && s.db.allowed
    ensures var now := Run(s, SigningIn(r, u, h, m, sid, t));
            JustOpened(now, u, h, sid, t) && now.reqs == map[r := Done(Issued(sid, t))]
  {
    RunConcat(s, [Start(r, SignInUser(u, h, m)), Step(r, 0), Step(r, 0)], [Step(r, sid), Step(r, t), Tick(0)]);
    RunOfThree(s, Start(r, SignInUser(u, h, m)), Step(r, 0), Step(r, 0));
    SignInReads(s, r, u, h, m);
    var s1 := s.(reqs := map[r := SignInCreate(u, h, m)]);
    RunOfThree(s1, Step(r, sid), Step(r, t), Tick(0));
    assert s1.(reqs := map[]) == s;
    SignInCreates(s1, r, u, h, m, sid);
    hide Run, Apply;
    SignInSaves(Apply(s1, Step(r, sid)), r, u, h, m, sid, t);
  }

  /** From the first sign-in on: the older change of password leaves the session opened with the old one live. */
  lemma OlderPasswordChangeEndsNothing(s: State, r: Rid, u: UserId, h: Hash, m: Option<nat>, sid: Sid, t: Token,
                                       other: Hash)
    requires Initial(s) && CredentialsCurrent(s.db, u, h, m) && s.db.allowed && other != h
    ensures var now := Run(s, SigningIn(r, u, h, m, sid, t) + [SetPasswordOnly(u, other), RevokeTokens(u), Tick(0)]);
            SessionActive(now.db, u, sid) && !ProofCurrent(now, sid)
  {
    SignedIn(s, r, u, h, m, sid, t);
    var now := Run(s, SigningIn(r, u, h, m, sid, t));
    RunConcat(s, SigningIn(r, u, h, m, sid, t), [SetPasswordOnly(u, other), RevokeTokens(u), Tick(0)]);
    hide SigningIn, Initial, CredentialsCurrent, Run;
    RunOfThree(now, SetPasswordOnly(u, other), RevokeTokens(u), Tick(0));
  }

  /** And a token that was spent and swept away signs nobody out: its session goes on. */
  lemma SweptTokenSignsNobodyOut(s: State, r: Rid, u: UserId, h: Hash, m: Option<nat>, sid: Sid, t: Token, x: Rid)
    requires Initial(s) && CredentialsCurrent(s.db, u, h, m) && s.db.allowed && x != r
    ensures var sweep := [RevokeOne(t), SweepTokens({t}), Start(x, SignOutSession(t))];
            var now := Run(s, SigningIn(r, u, h, m, sid, t) + sweep + [Step(x, 0), Step(x, 0), Tick(0)]);
            x in now.reqs && now.reqs[x] == Done(SignedOut) && SessionActive(now.db, u, sid)
  {
    SignedIn(s, r, u, h, m, sid, t);
    var signedIn := Run(s, SigningIn(r, u, h, m, sid, t));
    var sweep, out := [RevokeOne(t), SweepTokens({t}), Start(x, SignOutSession(t))], [Step(x, 0), Step(x, 0), Tick(0)];
    RunConcat(s, SigningIn(r, u, h, m, sid, t), sweep);
    RunConcat(s, SigningIn(r, u, h, m, sid, t) + sweep, out);
    hide SigningIn, Initial, CredentialsCurrent, Run;
    RunOfThree(signedIn, RevokeOne(t), SweepTokens({t}), Start(x, SignOutSession(t)));
    SweptAway(signedIn, r, u, h, sid, t, x);
    var ready := Run(signedIn, sweep);
    RunOfThree(ready, Step(x, 0), Step(x, 0), Tick(0));
    SignOutOfNothing(ready, x, u, sid, t);
  }

  lemma SweptAway(s: State, r: Rid, u: UserId, h: Hash, sid: Sid, t: Token, x: Rid)
    requires JustOpened(s, u, h, sid, t) && x !in s.reqs
    ensures var now := Apply(Apply(Apply(s, RevokeOne(t)), SweepTokens({t})), Start(x, SignOutSession(t)));
            && t !in now.db.links && t !in now.db.tokens && x in now.reqs && now.reqs[x] == SignOutSession(t)
            && SessionActive(now.db, u, sid)
  {
  }

  lemma SignOutOfNothing(s: State, x: Rid, u: UserId, sid: Sid, t: Token)
    requires x in s.reqs && s.reqs[x] == SignOutSession(t) && t !in s.db.links && t !in s.db.tokens
    requires SessionActive(s.db, u, sid)
    ensures var now := Apply(Apply(Apply(s, Step(x, 0)), Step(x, 0)), Tick(0));
            x in now.reqs && now.reqs[x] == Done(SignedOut) && SessionActive(now.db, u, sid)
  {
    var s1 := Apply(s, Step(x, 0));
    assert s1 == At(s, x, SignOutToken(t));
    assert Apply(s1, Step(x, 0)) == At(s, x, Done(SignedOut));
  }

  lemma {:induction false} DeadRun(s: State, es: seq<Event>, known: set<Rid>, sid: Sid, length: nat, owed: bool)
    requires Inv(s) && StaysDead(s, known, sid, length, owed) && known <= s.reqs.Keys
    ensures StaysDead(Run(s, es), known, sid, length, owed) && known <= Run(s, es).reqs.Keys
  {
    if es != [] {
      hide Inv, StaysDead, Apply;
      DeadRun(s, es[..|es| - 1], known, sid, length, owed);
      RunKeeps(s, es[..|es| - 1]);
      DeadStep(Run(s, es[..|es| - 1]), es[|es| - 1], known, sid, length, owed);
    }
  }
}

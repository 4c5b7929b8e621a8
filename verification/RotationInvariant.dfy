/** What every reachable state satisfies, and the proof that every step keeps it. */
module RotationInvariant {
  import opened Identifiers
  import opened Options
  import opened RefreshTokens
  import opened RotationTables
  import opened RotationMachine

  // ---- One transaction against the committed table ----

  ghost predicate PresentedOk(env: Env, db: Table, tx: Tx) {
    tx.presented.Some? ==>
      var p := tx.presented.value;
      && tx.op.Rotation?
      && Matches(db, p.id, env.hash(tx.op.secret), tx.scope)
      && Ages(p.token, db[p.id])
  }

  ghost predicate HoldsKey(env: Env, tx: Tx) {
    tx.presented.Some? && tx.held == Some(env.key(tx.presented.value.token.family))
  }

  ghost predicate Nothing(tx: Tx) {
    tx.writes == map[] && tx.draw == None
  }

  /** Holding the lock with a token that was neither revoked nor expired when it was read. */
  ghost predicate MaySpend(env: Env, tx: Tx) {
    && HoldsKey(env, tx)
    && !tx.presented.value.token.revoked
    && !Expired(tx.presented.value.token, tx.op.now)
  }

  ghost predicate MayBurn(env: Env, tx: Tx) {
    HoldsKey(env, tx) && tx.presented.value.token.revoked && tx.draw == None
  }

  /** The rows already revoked by the statement and those it still has to visit are exactly `rows`. */
  ghost predicate Revoking(db: Table, tx: Tx, rows: set<Uuid>, left: set<Uuid>) {
    && left !! tx.writes.Keys
    && left + tx.writes.Keys == rows
    && forall i | i in tx.writes :: i in db && tx.writes[i] == Revoke(db[i])
  }

  ghost function Presentable(db: Table, tx: Tx): set<Uuid>
    requires tx.presented.Some?
  {
    var id := tx.presented.value.id;
    if id in db && !db[id].revoked then {id} else {}
  }

  ghost predicate Spent(db: Table, tx: Tx) {
    && tx.presented.Some?
    && var id := tx.presented.value.id;
       && id in db && !db[id].revoked
       && tx.writes == map[id := Revoke(db[id])]
  }

  /** The presented token is spent and its successor written; `linked` tells whether the back-pointer is set. */
  ghost predicate Minted(env: Env, db: Table, tx: Tx, linked: bool) {
    && tx.presented.Some? && tx.draw.Some?
    && var id, d := tx.presented.value.id, tx.draw.value;
       && id in db && !db[id].revoked && d.id !in db
       && d.family == tx.presented.value.token.family
       && tx.writes == map[id := Revoke(db[id]).(replacedBy := if linked then Some(d.id) else db[id].replacedBy),
                           d.id := NewToken(env, tx, d)]
  }

  ghost predicate LoggedIn(env: Env, db: Table, tx: Tx) {
    && tx.op.Login? && tx.draw.Some? && tx.presented == None && tx.held == None
    && tx.op.user == tx.scope
    && tx.draw.value.id !in db
    && tx.writes == map[tx.draw.value.id := NewToken(env, tx, tx.draw.value)]
  }

  ghost predicate GrantedCookie(tx: Tx, outcome: Outcome) {
    tx.draw.Some? && outcome == Granted(Cookie(tx.scope, tx.draw.value.secret))
  }

  ghost predicate ReturnedOk(env: Env, db: Table, tx: Tx, outcome: Outcome) {
    match outcome
    case Granted(_) =>
      && GrantedCookie(tx, outcome)
      && (LoggedIn(env, db, tx) || (MaySpend(env, tx) && Minted(env, db, tx, true)))
    case Refused(Reused) =>
      && MayBurn(env, tx)
      && Revoking(db, tx, LiveOf(db, tx.presented.value.token.family), {})
    case Refused(Invalid) =>
      && tx.op.Rotation? && Nothing(tx)
      && (tx.presented.Some? ==>
            && HoldsKey(env, tx)
            && !tx.presented.value.token.revoked && Expired(tx.presented.value.token, tx.op.now))
  }

  /** What a commit leaves behind for ever. */
  ghost predicate CommittedOk(env: Env, db: Table, tx: Tx, outcome: Outcome) {
    match outcome
    case Granted(_) =>
      && GrantedCookie(tx, outcome)
      && var d := tx.draw.value;
         && d.id in db && db[d.id].user == tx.scope && db[d.id].family == d.family
         && db[d.id].hash == env.hash(d.secret)
         && (tx.op.Rotation? ==>
               && tx.presented.Some?
               && !tx.presented.value.token.revoked
               && d.family == tx.presented.value.token.family
               && tx.presented.value.id in db && db[tx.presented.value.id].replacedBy == Some(d.id))
         && (tx.op.Login? ==> tx.op.user == tx.scope)
    case Refused(Reused) =>
      && tx.presented.Some? && tx.presented.value.token.revoked
      && Dead(db, tx.presented.value.token.family)
    case Refused(Invalid) =>
      && tx.op.Rotation?
      && (tx.presented.Some? ==>
            !tx.presented.value.token.revoked && Expired(tx.presented.value.token, tx.op.now))
  }

  ghost predicate PhaseOk(env: Env, db: Table, tx: Tx) {
    match tx.pc
    case Reading => tx.op.Rotation? && tx.presented == None && tx.held == None && Nothing(tx)
    case Locking => tx.presented.Some? && tx.held == None && Nothing(tx)
    case Scanning(RevokeFamily) => MayBurn(env, tx) && Nothing(tx)
    case Touching(RevokeFamily, left, _) =>
      MayBurn(env, tx) && Revoking(db, tx, LiveOf(db, tx.presented.value.token.family), left)
    case Scanning(RevokeIfLive) => MaySpend(env, tx) && Nothing(tx)
    case Touching(RevokeIfLive, left, affected) =>
      && MaySpend(env, tx) && tx.draw == None
      && Revoking(db, tx, Presentable(db, tx), left)
      && affected == (if tx.presented.value.id in tx.writes then 1 else 0)
    case Inserting =>
      if tx.op.Login? then tx.presented == None && tx.held == None && Nothing(tx)
      else MaySpend(env, tx) && tx.draw == None && Spent(db, tx)
    case Scanning(SetReplacedBy) => MaySpend(env, tx) && Minted(env, db, tx, false)
    case Touching(SetReplacedBy, left, _) =>
      && MaySpend(env, tx)
      && ((left == {tx.presented.value.id} && Minted(env, db, tx, false)) || (left == {} && Minted(env, db, tx, true)))
    case Returned(outcome) => ReturnedOk(env, db, tx, outcome)
    case Failing => true
    case Committed(outcome) => CommittedOk(env, db, tx, outcome)
    case RolledBack => true
  }

  /** Only the rows of a family whose lock it holds, or the row it drew itself, carry uncommitted versions. */
  ghost predicate WritesOk(env: Env, db: Table, tx: Tx) {
    && (forall i | i in tx.writes && i in db ::
          && tx.held == Some(env.key(db[i].family))
          && db[i].user == tx.scope && tx.writes[i].hash == db[i].hash && tx.writes[i].family == db[i].family)
    && (forall i | i in tx.writes && i !in db ::
          && tx.draw.Some? && tx.draw.value.id == i
          && tx.writes[i].hash == env.hash(tx.draw.value.secret) && tx.writes[i].family == tx.draw.value.family)
    && (Active(tx) && tx.draw.Some? ==>
          && tx.draw.value.id in tx.writes
          && (tx.op.Rotation? ==> HoldsKey(env, tx) && tx.draw.value.family == tx.presented.value.token.family))
    && (tx.held.Some? ==> HoldsKey(env, tx))
    && (!Active(tx) ==> tx.writes == map[] && tx.held == None)
  }

  /** What an unfinished transaction has written, also once it has failed: revocations, or a newcomer with them. */
  ghost predicate WrittenOk(env: Env, db: Table, tx: Tx) {
    Active(tx) ==>
      if tx.draw == None then
        forall i | i in tx.writes ::
          && i in db && tx.writes[i] == Revoke(db[i])
          && tx.presented.Some? && db[i].family == tx.presented.value.token.family
      else LoggedIn(env, db, tx) || Minted(env, db, tx, true) || Minted(env, db, tx, false)
  }

  ghost predicate TxOk(env: Env, db: Table, tx: Tx) {
    && tx.scope != NIL_UUID
    && PresentedOk(env, db, tx) && PhaseOk(env, db, tx) && WritesOk(env, db, tx) && WrittenOk(env, db, tx)
  }

  // ---- Two transactions against each other ----

  ghost predicate DrawNew(env: Env, db: Table, tx: Tx) {
    Active(tx) && tx.draw.Some? ==>
      && Unused(db, tx.draw.value, env.hash(tx.draw.value.secret))
      && (tx.op.Login? ==> FamilyUnused(db, tx.draw.value.family))
  }

  ghost predicate DrawsApart(env: Env, a: Tx, b: Tx) {
    Active(a) && Active(b) && a.draw.Some? && b.draw.Some? ==>
      && a.draw.value.id != b.draw.value.id
      && env.hash(a.draw.value.secret) != env.hash(b.draw.value.secret)
      && (a.op.Login? || b.op.Login? ==> a.draw.value.family != b.draw.value.family)
  }

  ghost predicate Apart(env: Env, a: Tx, b: Tx) {
    && (a.held.Some? && b.held.Some? ==> a.held != b.held)
    && DrawsApart(env, a, b)
  }

  ghost predicate Inv(env: Env, s: State) {
    && env.locking
    && TableOk(s.db)
    && (forall t | t in s.txs :: TxOk(env, s.db, s.txs[t]) && DrawNew(env, s.db, s.txs[t]))
    && (forall t, u | t in s.txs && u in s.txs && t != u :: Apart(env, s.txs[t], s.txs[u]))
  }

  // ---- Steps that leave the table alone ----

  /** The row policy hides nothing of a family from the owner of one of its tokens. */
  lemma LiveOfScope(env: Env, s: State, tx: Tx)
    requires TableOk(s.db) && PresentedOk(env, s.db, tx) && tx.presented.Some? && tx.writes == map[]
    ensures Candidates(s, tx, RevokeFamily) == LiveOf(s.db, tx.presented.value.token.family)
    ensures Candidates(s, tx, RevokeIfLive) == Presentable(s.db, tx)
  {
    assert View(s, tx) == s.db;
  }

  lemma ScanStep(env: Env, s: State, t: TxId)
    requires Inv(env, s) && Enabled(env, s, Scan(t))
    ensures TxOk(env, s.db, Local(env, s, Scan(t)))
  {
    var tx := s.txs[t];
    assert TxOk(env, s.db, tx);
    match tx.pc.stmt
    case RevokeFamily => LiveOfScope(env, s, tx);
    case RevokeIfLive => LiveOfScope(env, s, tx);
    case SetReplacedBy =>
      assert Candidates(s, tx, SetReplacedBy) == {tx.presented.value.id};
  }

  /** A revoking UPDATE visits a row that is still exactly as its scan saw it. */
  lemma TouchRevokes(env: Env, s: State, tx: Tx, id: Uuid, rows: set<Uuid>)
    requires tx.pc.Touching? && tx.pc.stmt != SetReplacedBy
    requires OneOwnerPerFamily(s.db) && PresentedOk(env, s.db, tx) && HoldsKey(env, tx)
    requires Revoking(s.db, tx, rows, tx.pc.candidates) && id in tx.pc.candidates
    requires id in s.db && !s.db[id].revoked && s.db[id].family == tx.presented.value.token.family
    requires tx.pc.stmt == RevokeIfLive ==> id == tx.presented.value.id
    ensures id in View(s, tx)
    ensures var after := TouchRow(s, tx, id);
            && Revoking(s.db, after, rows, after.pc.candidates)
            && after.writes == tx.writes[id := Revoke(s.db[id])]
            && after.pc == Touching(tx.pc.stmt, tx.pc.candidates - {id}, tx.pc.affected + 1)
  {
    assert View(s, tx)[id] == s.db[id];
    assert s.db[id].user == tx.scope;
    assert Where(tx.pc.stmt, tx, id, s.db[id]);
    var after := TouchRow(s, tx, id);
    assert after.writes.Keys == tx.writes.Keys + {id};
  }

  lemma TouchLinks(env: Env, s: State, tx: Tx, id: Uuid)
    requires tx.pc.Touching? && tx.pc.stmt == SetReplacedBy && tx.pc.candidates == {id}
    requires TxOk(env, s.db, tx)
    ensures id in View(s, tx)
    ensures TxOk(env, s.db, TouchRow(s, tx, id))
  {
    assert Minted(env, s.db, tx, false);
    var after := TouchRow(s, tx, id);
    assert View(s, tx)[id] == Revoke(s.db[id]);
    assert after.writes == tx.writes[id := Revoke(s.db[id]).(replacedBy := Some(tx.draw.value.id))];
    assert Minted(env, s.db, after, true);
  }

  lemma TouchStep(env: Env, s: State, t: TxId, id: Uuid)
    requires TableOk(s.db) && t in s.txs && TxOk(env, s.db, s.txs[t]) && Enabled(env, s, Touch(t, id))
    ensures TxOk(env, s.db, Local(env, s, Touch(t, id)))
  {
    var tx := s.txs[t];
    match tx.pc.stmt
    case RevokeFamily =>
      TouchRevokes(env, s, tx, id, LiveOf(s.db, tx.presented.value.token.family));
    case RevokeIfLive =>
      TouchRevokes(env, s, tx, id, Presentable(s.db, tx));
    case SetReplacedBy =>
      TouchLinks(env, s, tx, id);
  }

  lemma FinishSpends(env: Env, s: State, t: TxId)
    requires TableOk(s.db) && Enabled(env, s, Finish(t)) && TxOk(env, s.db, s.txs[t])
    requires s.txs[t].pc.stmt == RevokeIfLive
    ensures TxOk(env, s.db, Local(env, s, Finish(t)))
  {
    var tx := s.txs[t];
    if tx.pc.affected > 0 {
      assert tx.writes.Keys == {tx.presented.value.id};
      assert Spent(s.db, tx);
    }
  }

  lemma FinishReturns(env: Env, s: State, t: TxId)
    requires TableOk(s.db) && Enabled(env, s, Finish(t)) && TxOk(env, s.db, s.txs[t])
    requires s.txs[t].pc.stmt != RevokeIfLive
    ensures TxOk(env, s.db, Local(env, s, Finish(t)))
  {
    match s.txs[t].pc.stmt
    case RevokeFamily =>
    case SetReplacedBy =>
  }

  lemma FinishStep(env: Env, s: State, t: TxId)
    requires TableOk(s.db) && Enabled(env, s, Finish(t)) && TxOk(env, s.db, s.txs[t])
    ensures TxOk(env, s.db, Local(env, s, Finish(t)))
  {
    if s.txs[t].pc.stmt == RevokeIfLive {
      FinishSpends(env, s, t);
    } else {
      FinishReturns(env, s, t);
    }
  }

  lemma InsertStep(env: Env, s: State, t: TxId, draw: Draw)
    requires Inv(env, s) && Enabled(env, s, Insert(t, draw))
    ensures TxOk(env, s.db, Local(env, s, Insert(t, draw)))
    ensures DrawNew(env, s.db, Local(env, s, Insert(t, draw)))
    ensures forall u | u in s.txs && u != t :: Apart(env, Local(env, s, Insert(t, draw)), s.txs[u])
  {
    var tx := s.txs[t];
    assert TxOk(env, s.db, tx);
    var after := Local(env, s, Insert(t, draw));
    if NewOwner(tx) == tx.scope {
      if tx.op.Rotation? {
        var id: Uuid := tx.presented.value.id;
        assert after.writes == map[id := Revoke(s.db[id]), draw.id := NewToken(env, after, draw)];
        assert Minted(env, s.db, after, false);
      } else {
        assert after.writes == map[draw.id := NewToken(env, after, draw)];
        assert LoggedIn(env, s.db, after);
      }
    }
    forall u | u in s.txs && u != t ensures Apart(env, after, s.txs[u]) {
      assert Apart(env, tx, s.txs[u]);
      assert TxOk(env, s.db, s.txs[u]) && DrawNew(env, s.db, s.txs[u]);
    }
  }

  lemma OtherStep(env: Env, s: State, a: Action)
    requires Inv(env, s) && Enabled(env, s, a)
    requires a.Begin? || a.Read? || a.Lock? || a.Fault? || a.Rollback?
    ensures TxOk(env, s.db, Local(env, s, a))
  {
    if !a.Begin? {
      assert TxOk(env, s.db, s.txs[a.tx]);
    }
  }

  /** Steps that draw nothing keep draws and locks apart. */
  lemma StaysApart(env: Env, s: State, a: Action, u: TxId)
    requires env.locking && Enabled(env, s, a) && !a.Commit? && !a.Begin? && !a.Insert?
    requires u in s.txs && u != a.tx && Apart(env, s.txs[a.tx], s.txs[u])
    ensures Apart(env, Local(env, s, a), s.txs[u])
  {
  }

  lemma LocalStep(env: Env, s: State, a: Action)
    requires Inv(env, s) && Enabled(env, s, a) && !a.Commit?
    ensures TxOk(env, s.db, Local(env, s, a))
  {
    match a
    case Scan(t) => ScanStep(env, s, t);
    case Touch(t, id) => TouchStep(env, s, t, id);
    case Finish(t) =>
      assert TxOk(env, s.db, s.txs[t]);
      FinishStep(env, s, t);
    case Insert(t, draw) => InsertStep(env, s, t, draw);
    case _ => OtherStep(env, s, a);
  }

  lemma LocalStaysApart(env: Env, s: State, a: Action)
    requires Inv(env, s) && Enabled(env, s, a) && !a.Commit?
    ensures DrawNew(env, s.db, Local(env, s, a))
    ensures forall u | u in s.txs && u != a.tx :: Apart(env, Local(env, s, a), s.txs[u])
  {
    if a.Insert? {
      InsertStep(env, s, a.tx, a.draw);
    } else if !a.Begin? {
      assert DrawNew(env, s.db, s.txs[a.tx]);
      forall u | u in s.txs && u != a.tx ensures Apart(env, Local(env, s, a), s.txs[u]) {
        StaysApart(env, s, a, u);
      }
    }
  }

  lemma LocalKeepsInv(env: Env, s: State, a: Action)
    requires Inv(env, s) && Enabled(env, s, a) && !a.Commit?
    ensures Inv(env, Next(env, s, a))
  {
    LocalStep(env, s, a);
    LocalStaysApart(env, s, a);
    var after := Next(env, s, a);
    forall t, u | t in after.txs && u in after.txs && t != u ensures Apart(env, after.txs[t], after.txs[u]) {
      if t != a.tx && u != a.tx {
        assert Apart(env, s.txs[t], s.txs[u]);
      }
    }
  }

  // ---- Commits ----

  lemma LoginTable(env: Env, s: State, tx: Tx)
    requires TableOk(s.db) && TxOk(env, s.db, tx) && DrawNew(env, s.db, tx)
    requires tx.pc.Returned? && tx.pc.outcome.Granted? && tx.op.Login?
    ensures s.db + tx.writes == s.db[tx.draw.value.id := NewToken(env, tx, tx.draw.value)]
    ensures LoginCase(s.db, tx.draw.value.id, NewToken(env, tx, tx.draw.value))
  {
  }

  lemma SucceedTable(env: Env, s: State, tx: Tx)
    requires TableOk(s.db) && TxOk(env, s.db, tx) && DrawNew(env, s.db, tx)
    requires tx.pc.Returned? && tx.pc.outcome.Granted? && tx.op.Rotation?
    ensures var d := tx.draw.value;
            && s.db + tx.writes == Succeed(s.db, tx.presented.value.id, d.id, NewToken(env, tx, d))
            && SucceedCase(s.db, tx.presented.value.id, d.id, NewToken(env, tx, d))
  {
    assert Minted(env, s.db, tx, true);
  }

  lemma RefusedTable(env: Env, s: State, tx: Tx)
    requires TableOk(s.db) && TxOk(env, s.db, tx) && tx.pc.Returned? && tx.pc.outcome.Refused?
    ensures s.db + tx.writes ==
            if tx.pc.outcome == Refused(Reused) then BurnFamily(s.db, tx.presented.value.token.family) else s.db
  {
    if tx.pc.outcome == Refused(Reused) {
      assert tx.writes.Keys == LiveOf(s.db, tx.presented.value.token.family);
    }
  }

  /** What a commit makes of the table, told by the transaction's outcome. */
  lemma CommittedTable(env: Env, s: State, t: TxId)
    requires Inv(env, s) && Enabled(env, s, Commit(t))
    ensures var tx, after := s.txs[t], Next(env, s, Commit(t)).db;
            match tx.pc.outcome
            case Granted(_) =>
              var d := tx.draw.value;
              if tx.op.Login? then
                && after == s.db[d.id := NewToken(env, tx, d)]
                && LoginCase(s.db, d.id, NewToken(env, tx, d))
              else
                && after == Succeed(s.db, tx.presented.value.id, d.id, NewToken(env, tx, d))
                && SucceedCase(s.db, tx.presented.value.id, d.id, NewToken(env, tx, d))
            case Refused(Reused) => after == BurnFamily(s.db, tx.presented.value.token.family)
            case Refused(Invalid) => after == s.db
  {
    var tx := s.txs[t];
    assert TxOk(env, s.db, tx) && DrawNew(env, s.db, tx);
    if tx.pc.outcome.Refused? {
      RefusedTable(env, s, tx);
    } else if tx.op.Login? {
      LoginTable(env, s, tx);
    } else {
      SucceedTable(env, s, tx);
    }
  }

  ghost predicate LoginCase(db: Table, newId: Uuid, first: Token) {
    NewcomerOk(db, newId, first) && forall i | i in db :: db[i].family != first.family
  }

  ghost predicate SucceedCase(db: Table, id: Uuid, newId: Uuid, successor: Token) {
    && id in db && !db[id].revoked
    && NewcomerOk(db, newId, successor)
    && successor.family == db[id].family && successor.user == db[id].user
  }

  lemma CommitKeepsTable(env: Env, s: State, t: TxId)
    requires Inv(env, s) && Enabled(env, s, Commit(t))
    ensures TableOk(Next(env, s, Commit(t)).db)
    ensures Evolves(s.db, Next(env, s, Commit(t)).db)
  {
    var tx := s.txs[t];
    CommittedTable(env, s, t);
    assert TxOk(env, s.db, tx);
    match tx.pc.outcome
    case Granted(_) =>
      var d := tx.draw.value;
      if tx.op.Login? {
        LoginKeepsTable(s.db, d.id, NewToken(env, tx, d));
      } else {
        SucceedKeepsTable(s.db, tx.presented.value.id, d.id, NewToken(env, tx, d));
        LiveIsUnreplaced(s.db, tx.presented.value.id);
      }
    case Refused(Reused) => BurnKeepsTable(s.db, tx.presented.value.token.family);
    case Refused(Invalid) =>
  }

  /** Nobody else's commit touches a family while its lock is held. */
  lemma FamilyUntouched(env: Env, s: State, t: TxId, u: TxId, id: Uuid)
    requires Inv(env, s) && Enabled(env, s, Commit(t)) && u in s.txs && u != t
    requires HoldsKey(env, s.txs[u]) && TxOk(env, s.db, s.txs[u])
    requires id in Next(env, s, Commit(t)).db
    requires Next(env, s, Commit(t)).db[id].family == s.txs[u].presented.value.token.family
    ensures id in s.db && Next(env, s, Commit(t)).db[id] == s.db[id]
  {
    assert TxOk(env, s.db, s.txs[t]) && DrawNew(env, s.db, s.txs[t]);
    assert Apart(env, s.txs[t], s.txs[u]);
  }

  ghost predicate SameFamilyRows(db: Table, after: Table, family: Uuid) {
    && (forall i | i in after && after[i].family == family :: i in db && after[i] == db[i])
    && (forall i | i in db && db[i].family == family :: i in after && after[i] == db[i])
  }

  lemma LockedFamilyKept(env: Env, s: State, t: TxId, u: TxId)
    requires Inv(env, s) && Enabled(env, s, Commit(t)) && u in s.txs && u != t
    requires HoldsKey(env, s.txs[u])
    ensures SameFamilyRows(s.db, Next(env, s, Commit(t)).db, s.txs[u].presented.value.token.family)
  {
    var after := Next(env, s, Commit(t)).db;
    assert TxOk(env, s.db, s.txs[u]);
    CommitKeepsTable(env, s, t);
    forall i | i in after && after[i].family == s.txs[u].presented.value.token.family
      ensures i in s.db && after[i] == s.db[i]
    {
      FamilyUntouched(env, s, t, u, i);
    }
    forall i | i in s.db && s.db[i].family == s.txs[u].presented.value.token.family
      ensures i in after && after[i] == s.db[i]
    {
      FamilyUntouched(env, s, t, u, i);
    }
  }

  /** Rows written by one transaction use up nothing that another has drawn. */
  lemma DrawMeetsNoWrites(env: Env, db: Table, tx: Tx, other: Tx)
    requires TxOk(env, db, tx) && DrawNew(env, db, tx) && Active(tx)
    requires DrawNew(env, db, other) && WritesOk(env, db, other) && Apart(env, tx, other)
    ensures DrawNew(env, db + tx.writes, other)
  {
  }

  /** The draws of others stay new after a commit. */
  lemma DrawStaysNew(env: Env, s: State, t: TxId, u: TxId)
    requires Inv(env, s) && Enabled(env, s, Commit(t)) && u in s.txs && u != t
    ensures DrawNew(env, Next(env, s, Commit(t)).db, s.txs[u])
  {
    assert TxOk(env, s.db, s.txs[t]) && DrawNew(env, s.db, s.txs[t]) && DrawNew(env, s.db, s.txs[u]);
    assert Apart(env, s.txs[t], s.txs[u]) && TxOk(env, s.db, s.txs[u]);
    DrawMeetsNoWrites(env, s.db, s.txs[t], s.txs[u]);
  }

  /** A transaction with the lock finds its family as it was, so its phase still fits the table. */
  lemma PhaseKept(env: Env, db: Table, after: Table, tx: Tx)
    requires TxOk(env, db, tx) && Evolves(db, after) && DrawNew(env, after, tx)
    requires HoldsKey(env, tx) && SameFamilyRows(db, after, tx.presented.value.token.family)
    ensures TxOk(env, after, tx)
  {
    var family := tx.presented.value.token.family;
    assert LiveOf(after, family) == LiveOf(db, family);
    assert Active(tx);
  }

  /** A dead family stays dead: only a live row of the family lets anything be added to it. */
  lemma DeadStaysDead(env: Env, s: State, t: TxId, family: Uuid)
    requires Inv(env, s) && Enabled(env, s, Commit(t))
    requires Dead(s.db, family) && InUse(s.db, family)
    ensures Dead(Next(env, s, Commit(t)).db, family)
  {
    CommittedTable(env, s, t);
    var i :| i in s.db && s.db[i].family == family;
  }

  /** A transaction without a lock has written nothing but rows of its own drawing. */
  lemma UnlockedPhaseKept(env: Env, db: Table, after: Table, tx: Tx)
    requires TxOk(env, db, tx) && Evolves(db, after) && DrawNew(env, after, tx) && tx.held == None
    requires tx.pc == Committed(Refused(Reused)) ==> Dead(after, tx.presented.value.token.family)
    ensures TxOk(env, after, tx)
  {
  }

  lemma UnlockedKept(env: Env, s: State, t: TxId, u: TxId)
    requires Inv(env, s) && Enabled(env, s, Commit(t)) && u in s.txs && u != t
    requires s.txs[u].held == None
    ensures TxOk(env, Next(env, s, Commit(t)).db, s.txs[u])
  {
    var tx := s.txs[u];
    assert TxOk(env, s.db, tx);
    CommitKeepsTable(env, s, t);
    DrawStaysNew(env, s, t, u);
    if tx.pc == Committed(Refused(Reused)) {
      assert s.db[tx.presented.value.id].family == tx.presented.value.token.family;
      DeadStaysDead(env, s, t, tx.presented.value.token.family);
    }
    UnlockedPhaseKept(env, s.db, Next(env, s, Commit(t)).db, tx);
  }

  lemma OthersKept(env: Env, s: State, t: TxId, u: TxId)
    requires Inv(env, s) && Enabled(env, s, Commit(t)) && u in s.txs && u != t
    ensures TxOk(env, Next(env, s, Commit(t)).db, s.txs[u])
  {
    assert TxOk(env, s.db, s.txs[u]);
    if s.txs[u].held == None {
      UnlockedKept(env, s, t, u);
    } else {
      CommitKeepsTable(env, s, t);
      DrawStaysNew(env, s, t, u);
      LockedFamilyKept(env, s, t, u);
      PhaseKept(env, s.db, Next(env, s, Commit(t)).db, s.txs[u]);
    }
  }

  lemma GrantCommitted(env: Env, db: Table, after: Table, tx: Tx)
    requires TxOk(env, db, tx) && tx.pc.Returned? && tx.pc.outcome.Granted?
    requires after == db + tx.writes && Evolves(db, after)
    ensures TxOk(env, after, tx.(pc := Committed(tx.pc.outcome), writes := map[], held := None))
  {
  }

  lemma RefusalCommitted(env: Env, db: Table, after: Table, tx: Tx)
    requires TxOk(env, db, tx) && tx.pc.Returned? && tx.pc.outcome.Refused? && Evolves(db, after)
    requires tx.pc.outcome == Refused(Reused) ==> Dead(after, tx.presented.value.token.family)
    ensures TxOk(env, after, tx.(pc := Committed(tx.pc.outcome), writes := map[], held := None))
  {
  }

  lemma SelfCommitted(env: Env, s: State, t: TxId)
    requires Inv(env, s) && Enabled(env, s, Commit(t))
    ensures TxOk(env, Next(env, s, Commit(t)).db, Next(env, s, Commit(t)).txs[t])
  {
    var tx, after := s.txs[t], Next(env, s, Commit(t)).db;
    assert TxOk(env, s.db, tx);
    CommitKeepsTable(env, s, t);
    if tx.pc.outcome.Granted? {
      GrantCommitted(env, s.db, after, tx);
    } else {
      CommittedTable(env, s, t);
      if tx.pc.outcome == Refused(Reused) {
        BurnKeepsTable(s.db, tx.presented.value.token.family);
      }
      RefusalCommitted(env, s.db, after, tx);
    }
  }

  lemma CommitKeepsInv(env: Env, s: State, t: TxId)
    requires Inv(env, s) && Enabled(env, s, Commit(t))
    ensures Inv(env, Next(env, s, Commit(t)))
  {
    var after := Next(env, s, Commit(t));
    CommitKeepsTable(env, s, t);
    forall u | u in after.txs ensures TxOk(env, after.db, after.txs[u]) && DrawNew(env, after.db, after.txs[u]) {
      if u == t {
        SelfCommitted(env, s, t);
      } else {
        OthersKept(env, s, t, u);
        DrawStaysNew(env, s, t, u);
      }
    }
    forall u, v | u in after.txs && v in after.txs && u != v ensures Apart(env, after.txs[u], after.txs[v]) {
      assert Apart(env, s.txs[u], s.txs[v]);
    }
  }

  /** Every state of every run satisfies the invariant. */
  lemma {:induction false} RunKeepsInv(env: Env, run: seq<Action>)
    requires env.locking && Runnable(env, run)
    ensures Inv(env, Exec(env, run))
  {
    if |run| > 0 {
      var before := run[..|run| - 1];
      RunKeepsInv(env, before);
      var a := run[|run| - 1];
      if a.Commit? {
        CommitKeepsInv(env, Exec(env, before), a.tx);
      } else {
        LocalKeepsInv(env, Exec(env, before), a);
      }
    }
  }
}

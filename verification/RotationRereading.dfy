/**
 RotateRefreshToken decides on the row it read before it had the lock. When that is the decision a second look under
 the lock would have led to, and the two ways in which it is not.
 */
module RotationRereading {
  import opened Identifiers
  import opened Options
  import opened RefreshTokens
  import opened RotationInvariant
  import opened RotationMachine
  import opened RotationRuns
  import opened RotationWithoutLock

  /** The branch taken after the lock, had the row been read again under it. */
  ghost function Reread(db: Table, tx: Tx): Tx
    requires tx.presented.Some? && tx.presented.value.id in db
  {
    tx.(presented := Some(Presented(tx.presented.value.id, db[tx.presented.value.id])))
  }

  /**
   The decision is the one that reading again would lead to if and only if the token's revocation has not changed
   while the transaction waited for the lock.
   */
  lemma RereadingAgrees(env: Env, run: seq<Action>, k: nat, t: TxId)
    requires env.locking && Runnable(env, run) && k < |run| && run[k] == Lock(t)
    ensures t in StateAt(env, run, k).txs && StateAt(env, run, k).txs[t].presented.Some?
    ensures var s := StateAt(env, run, k);
            var p := s.txs[t].presented.value;
            && p.id in s.db
            && (AfterLock(s.txs[t]) == AfterLock(Reread(s.db, s.txs[t])) <==> p.token.revoked == s.db[p.id].revoked)
  {
    StepAt(env, run, k);
    InvAt(env, run, k);
    assert TxOk(env, StateAt(env, run, k).db, StateAt(env, run, k).txs[t]);
  }

  // ---- Both ways of disagreeing happen ----

  /** Transaction u has looked the token up and waits for the lock; meanwhile it has been spent. */
  ghost predicate Overtaken(s: State, u: TxId, scope: Uuid, secret: Secret, now: int, id: Uuid, token: Token) {
    && Quiet(s) && u in s.txs
    && s.txs[u] == Tx(scope, Rotation(secret, now), Locking, Some(Presented(id, token)), None, map[], None)
    && !token.revoked && token.user == scope
    && id in s.db && s.db[id].revoked && s.db[id].user == scope && s.db[id].hash == token.hash
    && s.db[id].family == token.family
  }

  /** Look the token up, and wait. */
  lemma LookUp(env: Env, run: seq<Action>, u: TxId, scope: Uuid, secret: Secret, now: int, id: Uuid)
    returns (longer: seq<Action>, tx: Tx)
    requires Runnable(env, run) && Quiet(Exec(env, run)) && u !in Exec(env, run).txs && scope != NIL_UUID
    requires Matches(Exec(env, run).db, id, env.hash(secret), scope)
    ensures tx ==
            Tx(scope, Rotation(secret, now), Locking, Some(Presented(id, Exec(env, run).db[id])), None, map[], None)
    ensures Runnable(env, longer)
    ensures Exec(env, longer) == State(Exec(env, run).db, Exec(env, run).txs[u := tx])
  {
    var s := Exec(env, run);
    var tx0 := Tx(scope, Rotation(secret, now), Reading, None, None, map[], None);
    longer := Advance(env, run, Begin(u, scope, Rotation(secret, now)), tx0);
    tx := tx0.(pc := Locking, presented := Some(Presented(id, s.db[id])));
    longer := Advance(env, longer, Read(u, Some(id)), tx);
    assert s.txs[u := tx0][u := tx] == s.txs[u := tx];
  }

  /** Between the lookup and the lock of u, transaction v rotates the same token. */
  lemma BeOvertaken(env: Env, run: seq<Action>, u: TxId, v: TxId, scope: Uuid, secret: Secret, now: int, earlier: int,
                    id: Uuid, draw: Draw)
    returns (longer: seq<Action>)
    requires Runnable(env, run) && Quiet(Exec(env, run)) && scope != NIL_UUID
    requires u !in Exec(env, run).txs && v !in Exec(env, run).txs && u != v
    requires Matches(Exec(env, run).db, id, env.hash(secret), scope)
    requires !Exec(env, run).db[id].revoked && !Expired(Exec(env, run).db[id], earlier)
    requires Fresh(env, Exec(env, run), draw, false) && draw.family == Exec(env, run).db[id].family
    ensures Runnable(env, longer)
    ensures Overtaken(Exec(env, longer), u, scope, secret, now, id, Exec(env, run).db[id])
    ensures var db := Exec(env, longer).db;
            draw.id in db && db[draw.id].family == draw.family && !db[draw.id].revoked
  {
    var s := Exec(env, run);
    var waiting, done;
    longer, waiting := LookUp(env, run, u, scope, secret, now, id);
    FreshStays(env, s, u, waiting, draw);
    longer, done := RotationCanSucceed(env, longer, v, scope, secret, earlier, id, draw);
  }

  /** The lock is free by then. */
  lemma LockLate(env: Env, run: seq<Action>, u: TxId, scope: Uuid, secret: Secret, now: int, id: Uuid, token: Token)
    returns (longer: seq<Action>, tx: Tx)
    requires env.locking && Runnable(env, run) && Overtaken(Exec(env, run), u, scope, secret, now, id, token)
    ensures longer == run + [Lock(u)] && Runnable(env, longer)
    ensures tx == Exec(env, run).txs[u].(pc := AfterLock(Exec(env, run).txs[u]), held := Some(env.key(token.family)))
    ensures Exec(env, longer) == State(Exec(env, run).db, Exec(env, run).txs[u := tx])
  {
    var s := Exec(env, run);
    tx := s.txs[u].(pc := AfterLock(s.txs[u]), held := Some(env.key(token.family)));
    longer := Extend(env, run, Lock(u));
  }

  /**
   The first way: every live token can be read unrevoked and unexpired by one rotation and be spent by another before
   the first one gets the lock. OutrunNeverCommits says what then becomes of it.
   */
  lemma CanBeOutrun(env: Env, run: seq<Action>, u: TxId, v: TxId, scope: Uuid, secret: Secret, now: int, id: Uuid,
                    draw: Draw)
    returns (longer: seq<Action>)
    requires env.locking && Runnable(env, run) && Quiet(Exec(env, run)) && scope != NIL_UUID
    requires u !in Exec(env, run).txs && v !in Exec(env, run).txs && u != v
    requires Matches(Exec(env, run).db, id, env.hash(secret), scope)
    requires !Exec(env, run).db[id].revoked && !Expired(Exec(env, run).db[id], now)
    requires Fresh(env, Exec(env, run), draw, false) && draw.family == Exec(env, run).db[id].family
    ensures Runnable(env, longer) && |longer| > 0 && LockedTooLate(env, longer, |longer| - 1, u)
  {
    var token := Exec(env, run).db[id];
    var before := BeOvertaken(env, run, u, v, scope, secret, now, now, id, draw);
    var tx;
    longer, tx := LockLate(env, before, u, scope, secret, now, id, token);
    assert longer[..|longer| - 1] == before;
  }

  /** What an undisturbed rotation would answer to a spent token, whatever it draws. */
  lemma SpentIsReuse(env: Env, s: State, scope: Uuid, secret: Secret, now: int, id: Uuid, draw: Draw)
    requires UniqueHashes(s.db) && Matches(s.db, id, env.hash(secret), scope) && s.db[id].revoked
    ensures Rotate(s.db, env.hash(secret), scope, now, draw, env.hash(draw.secret))
            == (Refused(Reused), BurnFamily(s.db, s.db[id].family))
  {
    FindIsUnique(s.db, id, env.hash(secret), scope);
  }

  /**
   The second way: the token was read unrevoked and expired, and is spent before the lock. That rotation commits the
   refusal as invalid and leaves the successor live, where an undisturbed rotation on the table it locked would have
   answered reuse and burnt the family.
   */
  lemma ExpiredIsNotReuse(env: Env, run: seq<Action>, u: TxId, v: TxId, scope: Uuid, secret: Secret, now: int,
                          earlier: int, id: Uuid, draw: Draw)
    returns (longer: seq<Action>)
    requires env.locking && Runnable(env, run) && Quiet(Exec(env, run)) && scope != NIL_UUID
    requires u !in Exec(env, run).txs && v !in Exec(env, run).txs && u != v
    requires Matches(Exec(env, run).db, id, env.hash(secret), scope)
    requires !Exec(env, run).db[id].revoked
    requires !Expired(Exec(env, run).db[id], earlier) && Expired(Exec(env, run).db[id], now)
    requires Fresh(env, Exec(env, run), draw, false) && draw.family == Exec(env, run).db[id].family
    ensures Runnable(env, longer) && |longer| > 1
    ensures longer[|longer| - 2] == Lock(u) && longer[|longer| - 1] == Commit(u)
    ensures u in Exec(env, longer).txs && Exec(env, longer).txs[u].pc == Committed(Refused(Invalid))
    ensures Exec(env, longer).txs[u].op == Rotation(secret, now) && Exec(env, longer).txs[u].scope == scope
    ensures var db := StateAt(env, longer, |longer| - 2).db;
            && Exec(env, longer).db == db
            && draw.id in db && db[draw.id].family == draw.family && !db[draw.id].revoked
            && forall d: Draw :: Rotate(db, env.hash(secret), scope, now, d, env.hash(d.secret))
                                 == (Refused(Reused), BurnFamily(db, draw.family))
  {
    var token := Exec(env, run).db[id];
    var before := BeOvertaken(env, run, u, v, scope, secret, now, earlier, id, draw);
    var locked, tx := LockLate(env, before, u, scope, secret, now, id, token);
    assert tx.pc == Returned(Refused(Invalid));
    longer := Extend(env, locked, Commit(u));
    assert longer[..|longer| - 2] == before;
    CommitsNothing(Exec(env, locked).db, tx);
    RunKeepsInv(env, before);
    forall d: Draw
      ensures Rotate(Exec(env, before).db, env.hash(secret), scope, now, d, env.hash(d.secret))
              == (Refused(Reused), BurnFamily(Exec(env, before).db, draw.family))
    {
      SpentIsReuse(env, Exec(env, before), scope, secret, now, id, d);
    }
  }

  lemma CommitsNothing(db: Table, tx: Tx)
    requires tx.writes == map[]
    ensures db + tx.writes == db
  {
  }

  /** There are such runs: one login, and the two rotations. */
  lemma BothHappen() returns (outrun: seq<Action>, expired: seq<Action>)
    ensures Runnable(Simple(true), outrun) && |outrun| > 0 && LockedTooLate(Simple(true), outrun, |outrun| - 1, 1)
    ensures Runnable(Simple(true), expired) && 1 in Exec(Simple(true), expired).txs
    ensures Exec(Simple(true), expired).txs[1].pc == Committed(Refused(Invalid))
    ensures 2 in Exec(Simple(true), expired).db && !Exec(Simple(true), expired).db[2].revoked
  {
    var env := Simple(true);
    var run, tx := OneToken(env);
    outrun := CanBeOutrun(env, run, 1, 2, OWNER, 1, 0, 1, Draw(2, 2, FAMILY));
    expired := ExpiredIsNotReuse(env, run, 1, 2, OWNER, 1, REFRESH_TOKEN_LIFETIME, 0, 1, Draw(2, 2, FAMILY));
  }
}

/**
 Why the family lock is there: without it a successor survives the revocation of its own family, and every
 constraint on the table holds all the same. Also: an undisturbed rotation of a live token does succeed.
 */
module RotationWithoutLock {
  import opened Identifiers
  import opened Options
  import opened RefreshTokens
  import opened RotationMachine

  lemma Extend(env: Env, run: seq<Action>, a: Action) returns (longer: seq<Action>)
    requires Runnable(env, run) && Enabled(env, Exec(env, run), a)
    ensures longer == run + [a] && Runnable(env, longer) && Exec(env, longer) == Next(env, Exec(env, run), a)
  {
    longer := run + [a];
    assert longer[..|longer| - 1] == run;
  }

  /** Nobody else holds anything: others may be between statements, but have written nothing and locked nothing. */
  ghost predicate Quiet(s: State) {
    forall u | u in s.txs :: s.txs[u].writes == map[] && s.txs[u].held == None
  }

  /** One step of a transaction that does not commit, told by the transaction it leaves. */
  lemma Advance(env: Env, run: seq<Action>, a: Action, tx: Tx) returns (longer: seq<Action>)
    requires Runnable(env, run) && Enabled(env, Exec(env, run), a) && !a.Commit?
    requires Local(env, Exec(env, run), a) == tx
    ensures Runnable(env, longer)
    ensures Exec(env, longer) == State(Exec(env, run).db, Exec(env, run).txs[a.tx := tx])
  {
    longer := Extend(env, run, a);
  }

  ghost predicate OthersQuiet(s: State, t: TxId) {
    forall u | u in s.txs && u != t :: s.txs[u].writes == map[] && s.txs[u].held == None
  }

  /** Look up and lock. */
  lemma Approach(env: Env, run: seq<Action>, t: TxId, scope: Uuid, secret: Secret, now: int, id: Uuid)
    returns (longer: seq<Action>, tx: Tx)
    requires Runnable(env, run) && Quiet(Exec(env, run)) && t !in Exec(env, run).txs && scope != NIL_UUID
    requires Matches(Exec(env, run).db, id, env.hash(secret), scope)
    requires !Exec(env, run).db[id].revoked && !Expired(Exec(env, run).db[id], now)
    ensures tx == Tx(scope, Rotation(secret, now), Scanning(RevokeIfLive), Some(Presented(id, Exec(env, run).db[id])),
                     None, map[], if env.locking then Some(env.key(Exec(env, run).db[id].family)) else None)
    ensures Runnable(env, longer)
    ensures Exec(env, longer) == State(Exec(env, run).db, Exec(env, run).txs[t := tx])
  {
    var s := Exec(env, run);
    var tx0 := Tx(scope, Rotation(secret, now), Reading, None, None, map[], None);
    longer := Advance(env, run, Begin(t, scope, Rotation(secret, now)), tx0);
    var tx1 := tx0.(presented := Some(Presented(id, s.db[id])), pc := Locking);
    longer := Advance(env, longer, Read(t, Some(id)), tx1);
    tx := tx1.(pc := Scanning(RevokeIfLive), held := if env.locking then Some(env.key(s.db[id].family)) else None);
    longer := Advance(env, longer, Lock(t), tx);
  }

  /** Revoke the presented token. */
  lemma Spend(env: Env, run: seq<Action>, t: TxId, id: Uuid) returns (longer: seq<Action>, tx: Tx)
    requires Runnable(env, run) && t in Exec(env, run).txs && OthersQuiet(Exec(env, run), t)
    requires var s := Exec(env, run);
             var tx := s.txs[t];
             && tx.pc == Scanning(RevokeIfLive) && tx.writes == map[]
             && id in s.db && !s.db[id].revoked && s.db[id].user == tx.scope
             && tx.presented == Some(Presented(id, s.db[id]))
    ensures tx == Exec(env, run).txs[t].(pc := Inserting, writes := map[id := Revoke(Exec(env, run).db[id])])
    ensures Runnable(env, longer)
    ensures Exec(env, longer) == State(Exec(env, run).db, Exec(env, run).txs[t := tx])
  {
    var s := Exec(env, run);
    var tx0 := s.txs[t];
    assert View(s, tx0) == s.db;
    assert Candidates(s, tx0, RevokeIfLive) == {id};
    var tx1 := tx0.(pc := Touching(RevokeIfLive, {id}, 0));
    longer := Advance(env, run, Scan(t), tx1);
    var tx2 := tx1.(pc := Touching(RevokeIfLive, {}, 1), writes := map[id := Revoke(s.db[id])]);
    assert {id} - {id} == {};
    longer := Advance(env, longer, Touch(t, id), tx2);
    tx := tx2.(pc := Inserting);
    longer := Advance(env, longer, Finish(t), tx);
  }

  lemma InsertsSuccessor(env: Env, s: State, t: TxId, id: Uuid, draw: Draw)
    requires t in s.txs && s.txs[t].pc == Inserting && s.txs[t].op.Rotation?
    requires id in s.db && s.db[id].user == s.txs[t].scope && draw.family == s.db[id].family
    requires s.txs[t].presented == Some(Presented(id, s.db[id])) && Fresh(env, s, draw, false)
    ensures Enabled(env, s, Insert(t, draw))
    ensures Local(env, s, Insert(t, draw)) ==
            s.txs[t].(pc := Scanning(SetReplacedBy), draw := Some(draw),
            writes := s.txs[t].writes[draw.id :=
                                        Mint(s.txs[t].scope, env.hash(draw.secret), draw.family, s.txs[t].op.now)])
  {
  }

  lemma ScansPresented(env: Env, s: State, t: TxId, id: Uuid)
    requires t in s.txs && s.txs[t].pc == Scanning(SetReplacedBy)
    requires s.txs[t].presented.Some? && s.txs[t].presented.value.id == id
    requires id in s.txs[t].writes && s.txs[t].writes[id].user == s.txs[t].scope
    ensures Enabled(env, s, Scan(t))
    ensures Local(env, s, Scan(t)) == s.txs[t].(pc := Touching(SetReplacedBy, {id}, 0))
  {
    assert Candidates(s, s.txs[t], SetReplacedBy) == {id};
  }

  lemma TouchesPresented(env: Env, s: State, t: TxId, id: Uuid, draw: Draw)
    requires t in s.txs && s.txs[t].pc == Touching(SetReplacedBy, {id}, 0) && OthersQuiet(s, t)
    requires s.txs[t].presented.Some? && s.txs[t].presented.value.id == id && s.txs[t].draw == Some(draw)
    requires id in s.txs[t].writes && s.txs[t].writes[id].user == s.txs[t].scope
    ensures Enabled(env, s, Touch(t, id))
    ensures Local(env, s, Touch(t, id)) ==
            s.txs[t].(pc := Touching(SetReplacedBy, {}, 1),
            writes := s.txs[t].writes[id := s.txs[t].writes[id].(replacedBy := Some(draw.id))])
  {
    assert {id} - {id} == {};
  }

  /** The completed back-pointer is all that was missing: commit. */
  lemma Conclude(env: Env, run: seq<Action>, t: TxId, draw: Draw) returns (longer: seq<Action>, tx: Tx)
    requires Runnable(env, run) && t in Exec(env, run).txs
    requires var tx := Exec(env, run).txs[t];
             && tx.pc == Touching(SetReplacedBy, {}, 1) && tx.op.Rotation? && tx.draw == Some(draw)
             && tx.presented.Some? && tx.presented.value.token.user == tx.scope
    ensures tx == Exec(env, run).txs[t].(pc := Committed(Granted(Cookie(Exec(env, run).txs[t].scope, draw.secret))),
                  writes := map[], held := None)
    ensures Runnable(env, longer)
    ensures Exec(env, longer) == State(Exec(env, run).db + Exec(env, run).txs[t].writes, Exec(env, run).txs[t := tx])
  {
    var s := Exec(env, run);
    var cookie := Granted(Cookie(s.txs[t].scope, draw.secret));
    longer := Advance(env, run, Finish(t), s.txs[t].(pc := Returned(cookie)));
    tx := s.txs[t].(pc := Committed(cookie), writes := map[], held := None);
    longer := Extend(env, longer, Commit(t));
  }

  /** Set the back-pointer and commit. */
  lemma Point(env: Env, run: seq<Action>, t: TxId, id: Uuid, draw: Draw) returns (longer: seq<Action>, tx: Tx)
    requires Runnable(env, run) && t in Exec(env, run).txs && OthersQuiet(Exec(env, run), t)
    requires var tx := Exec(env, run).txs[t];
             && tx.pc == Scanning(SetReplacedBy) && tx.op.Rotation? && tx.draw == Some(draw)
             && tx.presented.Some? && tx.presented.value.id == id && tx.presented.value.token.user == tx.scope
             && id in tx.writes && tx.writes[id].user == tx.scope
    ensures var before := Exec(env, run).txs[t];
            var linked := before.writes[id := before.writes[id].(replacedBy := Some(draw.id))];
            && tx.pc == Committed(Granted(Cookie(before.scope, draw.secret))) && tx.writes == map[] && tx.held == None
            && tx.op == before.op && tx.scope == before.scope
            && Runnable(env, longer)
            && Exec(env, longer) == State(Exec(env, run).db + linked, Exec(env, run).txs[t := tx])
  {
    var s := Exec(env, run);
    ScansPresented(env, s, t, id);
    longer := Advance(env, run, Scan(t), s.txs[t].(pc := Touching(SetReplacedBy, {id}, 0)));
    TouchesPresented(env, Exec(env, longer), t, id, draw);
    longer := Advance(env, longer, Touch(t, id), Local(env, Exec(env, longer), Touch(t, id)));
    longer, tx := Conclude(env, longer, t, draw);
  }

  /** Insert the successor, set the back-pointer, commit. */
  lemma Replace(env: Env, run: seq<Action>, t: TxId, id: Uuid, draw: Draw) returns (longer: seq<Action>, tx: Tx)
    requires Runnable(env, run) && t in Exec(env, run).txs && OthersQuiet(Exec(env, run), t)
    requires var s := Exec(env, run);
             var tx := s.txs[t];
             && tx.pc == Inserting && tx.op.Rotation?
             && id in s.db && s.db[id].user == tx.scope && draw.family == s.db[id].family
             && tx.presented == Some(Presented(id, s.db[id]))
             && tx.writes == map[id := Revoke(s.db[id])]
    requires Fresh(env, Exec(env, run), draw, false)
    ensures tx.pc == Committed(Granted(Cookie(Exec(env, run).txs[t].scope, draw.secret)))
            && tx.writes == map[] && tx.held == None
    ensures tx.op == Exec(env, run).txs[t].op && tx.scope == Exec(env, run).txs[t].scope
    ensures Runnable(env, longer)
    ensures Exec(env, longer) ==
            State(Succeed(Exec(env, run).db, id, draw.id,
                          Mint(Exec(env, run).txs[t].scope, env.hash(draw.secret), draw.family,
                               Exec(env, run).txs[t].op.now)),
                  Exec(env, run).txs[t := tx])
  {
    var s := Exec(env, run);
    InsertsSuccessor(env, s, t, id, draw);
    var tx1 := Local(env, s, Insert(t, draw));
    longer := Advance(env, run, Insert(t, draw), tx1);
    longer, tx := Point(env, longer, t, id, draw);
    var successor := Mint(s.txs[t].scope, env.hash(draw.secret), draw.family, s.txs[t].op.now);
    assert draw.id != id;
    LinkedIsSucceed(s.db, id, draw.id, successor);
    assert tx1.writes == map[id := Revoke(s.db[id]), draw.id := successor];
  }

  lemma LinkedIsSucceed(db: Table, id: Uuid, newId: Uuid, successor: Token)
    requires id in db && newId != id
    ensures db + map[id := Revoke(db[id]), newId := successor][id := Revoke(db[id]).(replacedBy := Some(newId))]
            == Succeed(db, id, newId, successor)
  {
  }

  /** A draw that is new stays new when a transaction writes nothing that meets it. */
  lemma FreshStays(env: Env, s: State, t: TxId, tx: Tx, draw: Draw)
    requires Fresh(env, s, draw, false) && Unused(tx.writes, draw, env.hash(draw.secret))
    ensures Fresh(env, s.(txs := s.txs[t := tx]), draw, false)
  {
  }

  /** Look up, lock and revoke. */
  lemma ApproachAndSpend(
      env: Env, run: seq<Action>, t: TxId, scope: Uuid, secret: Secret, now: int, id: Uuid)
    returns (longer: seq<Action>, tx: Tx)
    requires Runnable(env, run) && Quiet(Exec(env, run)) && t !in Exec(env, run).txs && scope != NIL_UUID
    requires Matches(Exec(env, run).db, id, env.hash(secret), scope)
    requires !Exec(env, run).db[id].revoked && !Expired(Exec(env, run).db[id], now)
    ensures tx == Tx(scope, Rotation(secret, now), Inserting, Some(Presented(id, Exec(env, run).db[id])), None,
                     map[id := Revoke(Exec(env, run).db[id])],
                     if env.locking then Some(env.key(Exec(env, run).db[id].family)) else None)
    ensures Runnable(env, longer)
    ensures Exec(env, longer) == State(Exec(env, run).db, Exec(env, run).txs[t := tx])
  {
    var s := Exec(env, run);
    var tx1;
    longer, tx1 := Approach(env, run, t, scope, secret, now, id);
    longer, tx := Spend(env, longer, t, id);
    assert s.txs[t := tx1][t := tx] == s.txs[t := tx];
  }

  /** A live, unexpired token can always be rotated when nobody else is in the middle of something. */
  lemma RotationCanSucceed(
      env: Env, run: seq<Action>, t: TxId, scope: Uuid, secret: Secret, now: int, id: Uuid, draw: Draw)
    returns (longer: seq<Action>, tx: Tx)
    requires Runnable(env, run) && Quiet(Exec(env, run)) && t !in Exec(env, run).txs && scope != NIL_UUID
    requires Matches(Exec(env, run).db, id, env.hash(secret), scope)
    requires !Exec(env, run).db[id].revoked && !Expired(Exec(env, run).db[id], now)
    requires Fresh(env, Exec(env, run), draw, false) && draw.family == Exec(env, run).db[id].family
    ensures Runnable(env, longer)
    ensures tx.pc == Committed(Granted(Cookie(scope, draw.secret))) && tx.writes == map[] && tx.held == None
    ensures tx.op == Rotation(secret, now) && tx.scope == scope
    ensures Exec(env, longer) ==
            State(Succeed(Exec(env, run).db, id, draw.id, Mint(scope, env.hash(draw.secret), draw.family, now)),
                  Exec(env, run).txs[t := tx])
  {
    var s := Exec(env, run);
    var spent;
    longer, spent := ApproachAndSpend(env, run, t, scope, secret, now, id);
    FreshStays(env, s, t, spent, draw);
    longer, tx := Replace(env, longer, t, id, draw);
    assert s.txs[t := spent][t := tx] == s.txs[t := tx];
  }

  const OWNER: Uuid := 1
  const FAMILY: Uuid := 1

  /** Digests that cannot collide, and families that all share one lock key, if rotations take the lock at all. */
  ghost function Simple(locking: bool): Env {
    Env(secret => secret, family => 0, locking)
  }

  /** The protocol minus its lock. */
  ghost function Unlocked(): Env {
    Simple(false)
  }

  /** A login: token 1 is live. */
  lemma OneToken(env: Env) returns (run: seq<Action>, tx: Tx)
    requires env == Simple(env.locking)
    ensures Runnable(env, run) && tx.writes == map[] && tx.held == None
    ensures Exec(env, run) ==
            State(map[1 := Token(OWNER, 1, FAMILY, REFRESH_TOKEN_LIFETIME, false, None)], map[0 := tx])
  {
    var draw := Draw(1, 1, FAMILY);
    var first := Mint(OWNER, 1, FAMILY, 0);
    tx := Tx(OWNER, Login(OWNER, 0), Inserting, None, None, map[], None);
    run := Advance(env, [], Begin(0, OWNER, Login(OWNER, 0)), tx);
    var cookie := Granted(Cookie(OWNER, 1));
    tx := tx.(pc := Returned(cookie), draw := Some(draw), writes := map[1 := first]);
    run := Advance(env, run, Insert(0, draw), tx);
    tx := tx.(pc := Committed(cookie), writes := map[]);
    run := Extend(env, run, Commit(0));
  }

  /** Login, then one rotation: token 1 is spent, token 2 is live. */
  lemma TwoTokens(env: Env) returns (run: seq<Action>)
    requires env == Unlocked()
    ensures Runnable(env, run) && Quiet(Exec(env, run))
    ensures Exec(env, run).txs.Keys == {0, 1}
    ensures Exec(env, run).db ==
            map[1 := Token(OWNER, 1, FAMILY, REFRESH_TOKEN_LIFETIME, true, Some(2)),
                2 := Token(OWNER, 2, FAMILY, REFRESH_TOKEN_LIFETIME, false, None)]
  {
    var tx;
    run, tx := OneToken(env);
    run, tx := RotationCanSucceed(env, run, 1, OWNER, 1, 0, 1, Draw(2, 2, FAMILY));
  }

  /** Transaction 2 presents the spent token 1. */
  lemma PresentSpent(env: Env, run: seq<Action>) returns (longer: seq<Action>, tx: Tx)
    requires env == Unlocked() && Runnable(env, run) && Quiet(Exec(env, run)) && 2 !in Exec(env, run).txs
    requires Exec(env, run).db ==
             map[1 := Token(OWNER, 1, FAMILY, REFRESH_TOKEN_LIFETIME, true, Some(2)),
                 2 := Token(OWNER, 2, FAMILY, REFRESH_TOKEN_LIFETIME, false, None)]
    ensures Runnable(env, longer)
    ensures Exec(env, longer) == State(Exec(env, run).db, Exec(env, run).txs[2 := tx])
    ensures tx == Tx(OWNER, Rotation(1, 0), Locking, Some(Presented(1, Exec(env, run).db[1])), None, map[], None)
  {
    var s := Exec(env, run);
    tx := Tx(OWNER, Rotation(1, 0), Reading, None, None, map[], None);
    longer := Advance(env, run, Begin(2, OWNER, Rotation(1, 0)), tx);
    tx := tx.(pc := Locking, presented := Some(Presented(1, s.db[1])));
    longer := Advance(env, longer, Read(2, Some(1)), tx);
  }

  /** It takes the candidates of its family revocation, and pauses. */
  lemma PauseRevocation(env: Env, run: seq<Action>) returns (longer: seq<Action>, tx: Tx)
    requires env == Unlocked() && Runnable(env, run) && Quiet(Exec(env, run)) && 2 !in Exec(env, run).txs
    requires Exec(env, run).db ==
             map[1 := Token(OWNER, 1, FAMILY, REFRESH_TOKEN_LIFETIME, true, Some(2)),
                 2 := Token(OWNER, 2, FAMILY, REFRESH_TOKEN_LIFETIME, false, None)]
    ensures Runnable(env, longer)
    ensures Exec(env, longer) == State(Exec(env, run).db, Exec(env, run).txs[2 := tx])
    ensures tx.pc == Touching(RevokeFamily, {2}, 0) && tx.writes == map[] && tx.held == None
    ensures tx.presented.Some? && tx.presented.value.token.family == FAMILY
  {
    var s := Exec(env, run);
    longer, tx := PresentSpent(env, run);
    tx := tx.(pc := Scanning(RevokeFamily));
    longer := Advance(env, longer, Lock(2), tx);
    OneToRevoke(s.(txs := s.txs[2 := tx]), tx);
    tx := tx.(pc := Touching(RevokeFamily, {2}, 0));
    longer := Advance(env, longer, Scan(2), tx);
  }

  lemma OneToRevoke(s: State, tx: Tx)
    requires tx.writes == map[] && tx.scope == OWNER && tx.presented.Some?
    requires tx.presented.value.token.family == FAMILY
    requires s.db == map[1 := Token(OWNER, 1, FAMILY, REFRESH_TOKEN_LIFETIME, true, Some(2)),
                         2 := Token(OWNER, 2, FAMILY, REFRESH_TOKEN_LIFETIME, false, None)]
    ensures Candidates(s, tx, RevokeFamily) == {2}
  {
    assert View(s, tx) == s.db;
  }

  /** Reuse was detected and contained, and yet token 3 of that family is live; no constraint is violated. */
  ghost predicate Survived(env: Env, run: seq<Action>) {
    && Runnable(env, run)
    && var s := Exec(env, run);
       && 2 in s.txs && s.txs[2].pc == Committed(Refused(Reused))
       && s.txs[2].presented.Some? && s.txs[2].presented.value.token.family == FAMILY
       && 3 in s.db && s.db[3].family == FAMILY && !s.db[3].revoked
       && OneLivePerFamily(s.db)
  }

  /** Transaction 3 rotates token 2. */
  lemma Overtake(env: Env, run: seq<Action>, paused: Tx) returns (longer: seq<Action>)
    requires env == Unlocked() && Runnable(env, run) && Quiet(Exec(env, run)) && 3 !in Exec(env, run).txs
    requires Exec(env, run).db ==
             map[1 := Token(OWNER, 1, FAMILY, REFRESH_TOKEN_LIFETIME, true, Some(2)),
                 2 := Token(OWNER, 2, FAMILY, REFRESH_TOKEN_LIFETIME, false, None)]
    requires 2 in Exec(env, run).txs && Exec(env, run).txs[2] == paused
    ensures Runnable(env, longer) && Quiet(Exec(env, longer))
    ensures 2 in Exec(env, longer).txs && Exec(env, longer).txs[2] == paused
    ensures var db := Exec(env, longer).db;
            && db.Keys == {1, 2, 3} && db[1].revoked && db[2].revoked && !db[3].revoked && db[3].family == FAMILY
  {
    var tx;
    longer, tx := RotationCanSucceed(env, run, 3, OWNER, 2, 0, 2, Draw(3, 3, FAMILY));
  }

  lemma ResumeRevocation(env: Env, run: seq<Action>, paused: Tx) returns (longer: seq<Action>)
    requires Runnable(env, run) && Quiet(Exec(env, run))
    requires 2 in Exec(env, run).txs && Exec(env, run).txs[2] == paused
    requires paused.pc == Touching(RevokeFamily, {2}, 0) && paused.presented.Some?
    requires 2 in Exec(env, run).db && Exec(env, run).db[2].revoked
    ensures Runnable(env, longer) && Exec(env, longer).db == Exec(env, run).db
    ensures 2 in Exec(env, longer).txs && Exec(env, longer).txs[2].pc == Committed(Refused(Reused))
    ensures Exec(env, longer).txs[2].presented == paused.presented
  {
    longer := Extend(env, run, Touch(2, 2));
    longer := Extend(env, longer, Finish(2));
    longer := Extend(env, longer, Commit(2));
  }

  /** The rotation of token 2 overtakes the paused revocation, which then finds its one candidate revoked. */
  lemma OvertakeAndResume(env: Env, run: seq<Action>, paused: Tx) returns (longer: seq<Action>)
    requires env == Unlocked() && Runnable(env, run) && Quiet(Exec(env, run)) && 3 !in Exec(env, run).txs
    requires Exec(env, run).db ==
             map[1 := Token(OWNER, 1, FAMILY, REFRESH_TOKEN_LIFETIME, true, Some(2)),
                 2 := Token(OWNER, 2, FAMILY, REFRESH_TOKEN_LIFETIME, false, None)]
    requires 2 in Exec(env, run).txs && Exec(env, run).txs[2] == paused
    requires paused.pc == Touching(RevokeFamily, {2}, 0)
    requires paused.presented.Some? && paused.presented.value.token.family == FAMILY
    ensures Survived(env, longer)
  {
    longer := Overtake(env, run, paused);
    longer := ResumeRevocation(env, longer, paused);
  }

  /**
   Transaction 2 has taken its one candidate and paused. Transaction 3 rotates token 2 meanwhile. The revocation
   then finds its candidate revoked, and commits: token 3 lives on in a family whose reuse was detected and contained.
   */
  lemma SuccessorSurvivesReuse() returns (run: seq<Action>)
    ensures Survived(Unlocked(), run)
  {
    var env := Unlocked();
    run := TwoTokens(env);
    var paused;
    run, paused := PauseRevocation(env, run);
    run := OvertakeAndResume(env, run, paused);
  }
}

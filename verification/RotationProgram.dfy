/**
 The code itself: WithAuthUser, RotateRefreshToken and the generated statements as methods on a shared database,
 with other connections free to run between any two statements. `Weather` says what they run, and which
 statements fail; nothing is assumed about it.
 */
module RotationProgram {
  import opened Identifiers
  import opened Options
  import opened RefreshTokens
  import opened RotationMachine
  import opened RotationInvariant
  import opened RotationRuns
  import opened RotationProgress

  datatype Weather = Weather(others: seq<Action>, fault: bool)

  datatype Answer = Ok(outcome: Outcome) | Err

  const CALM := Weather([], false)

  function At(weather: seq<Weather>, k: nat): Weather {
    if k < |weather| then weather[k] else CALM
  }

  /** Nobody else runs and nothing fails. */
  predicate Calm(weather: seq<Weather>) {
    forall k | 0 <= k < |weather| :: weather[k] == CALM
  }

  class AuthDatabase {
    const env: Env
    var state: State
    ghost var log: seq<Action>

    ghost predicate Valid()
      reads this
    {
      env.locking && Runnable(env, log) && state == Exec(env, log)
    }

    /** The transaction is open and as described. */
    ghost predicate Is(t: TxId, tx: Tx)
      reads this
    {
      Valid() && t in state.txs && state.txs[t] == tx
    }

    ghost predicate Grew(before: seq<Action>)
      reads this
    {
      before <= log
    }

    /** Since then only this transaction has moved, and it has not committed. */
    ghost predicate Alone(t: TxId, before: State)
      reads this
    {
      state.db == before.db && t in state.txs && state.txs == before.txs[t := state.txs[t]]
    }

    constructor (env: Env)
      requires env.locking
      ensures Valid() && this.env == env && log == [] && state == START
    {
      this.env := env;
      state := START;
      log := [];
    }

    method Perform(a: Action)
      requires Valid() && Enabled(env, state, a)
      modifies this
      ensures Valid() && log == old(log) + [a] && state == Next(env, old(state), a)
    {
      state := Next(env, state, a);
      log := log + [a];
      assert log[..|log| - 1] == old(log);
    }

    /** Everybody else: the steps of `others` that are possible and are not transaction t's. */
    method Interfere(t: TxId, others: seq<Action>)
      requires Valid()
      modifies this
      ensures Valid() && Grew(old(log))
      ensures t in state.txs <==> t in old(state.txs)
      ensures t in state.txs ==> state.txs[t] == old(state).txs[t]
      ensures others == [] ==> state == old(state)
    {
      for k := 0 to |others|
        invariant others == [] ==> state == old(state)
        invariant Valid() && Grew(old(log))
        invariant t in state.txs <==> t in old(state.txs)
        invariant t in state.txs ==> state.txs[t] == old(state).txs[t]
      {
        if others[k].tx != t && Enabled(env, state, others[k]) {
          Perform(others[k]);
        }
      }
    }

    // ---- Statements ----

    method Fail(t: TxId, ghost tx: Tx)
      requires Is(t, tx) && Active(tx)
      modifies this
      ensures Is(t, tx.(pc := Failing)) && Grew(old(log)) && Alone(t, old(state))
    {
      if state.txs[t].pc != Failing {
        Perform(Fault(t));
      }
    }

    method GetRefreshTokenByHash(t: TxId, digest: Digest, w: Weather) returns (found: Option<Presented>, err: bool)
      requires Valid() && t in state.txs && state.txs[t].pc == Reading
      requires state.txs[t].op.Rotation? && digest == env.hash(state.txs[t].op.secret)
      modifies this
      ensures Grew(old(log))
      ensures var tx := old(state).txs[t];
              if err then Is(t, tx.(pc := Failing))
              else if found.None? then Is(t, tx.(pc := Returned(Refused(Invalid))))
              else Is(t, tx.(pc := Locking, presented := found))
      ensures !err && found.Some? ==> found.value.id in state.db && state.db[found.value.id] == found.value.token
      ensures err <==> w.fault
      ensures w == CALM ==> Alone(t, old(state))
    {
      ghost var tx := state.txs[t];
      found, err := None, false;
      Interfere(t, w.others);
      if w.fault {
        Fail(t, tx);
        err := true;
      } else if exists id :: id in state.db && Matches(state.db, id, digest, state.txs[t].scope) {
        var id :| id in state.db && Matches(state.db, id, digest, state.txs[t].scope);
        found := Some(Presented(id, state.db[id]));
        Perform(Read(t, Some(id)));
      } else {
        Perform(Read(t, None));
      }
    }

    /** Waits while the others run. A wait that the end of their steps finds still waiting has been cut short. */
    method LockRefreshTokenFamily(t: TxId, family: Uuid, w: Weather) returns (err: bool)
      requires Valid() && t in state.txs && state.txs[t].pc == Locking
      requires state.txs[t].presented.Some? && family == state.txs[t].presented.value.token.family
      modifies this
      ensures Grew(old(log))
      ensures var tx := old(state).txs[t];
              if err then Is(t, tx.(pc := Failing))
              else Is(t, tx.(pc := AfterLock(tx), held := Some(env.key(family))))
      ensures err <==> w.fault || !KeyFree(state, t, env.key(family))
      ensures w == CALM && KeyFree(old(state), t, env.key(family)) ==> !err && Alone(t, old(state))
    {
      ghost var tx := state.txs[t];
      Interfere(t, w.others);
      err := w.fault || !KeyFree(state, t, env.key(family));
      ghost var waited := state;
      if err {
        Fail(t, tx);
      } else {
        Perform(Lock(t));
      }
      OthersDecideKey(waited, state, t, env.key(family));
    }

    /** The transaction is as `before` but for its phase and its uncommitted rows. */
    ghost predicate Inside(t: TxId, before: Tx)
      reads this
    {
      && Valid() && t in state.txs
      && state.txs[t] == before.(pc := state.txs[t].pc, writes := state.txs[t].writes)
    }

    /** Visits one candidate. Nobody else ever holds it, so this never waits, whatever the others do. */
    method VisitCandidate(t: TxId, w: Weather) returns (err: bool)
      requires Valid() && t in state.txs && state.txs[t].pc.Touching? && state.txs[t].pc.candidates != {}
      modifies this
      ensures Inside(t, old(state).txs[t]) && Grew(old(log))
      ensures err ==> state.txs[t].pc == Failing
      ensures !err ==>
                && state.txs[t].pc.Touching? && state.txs[t].pc.stmt == old(state).txs[t].pc.stmt
                && |state.txs[t].pc.candidates| < |old(state).txs[t].pc.candidates|
      ensures err <==> w.fault
      ensures w == CALM ==> Alone(t, old(state))
    {
      ghost var before := state.txs[t];
      Interfere(t, w.others);
      err := w.fault;
      if err {
        Fail(t, before);
        return;
      }
      var id :| id in state.txs[t].pc.candidates;
      RunKeepsInv(env, log);
      CandidateIsUnlocked(env, state, t, id);
      VisitLowersRank(state, before, id);
      Perform(Touch(t, id));
    }

    /** The row the transaction looked up is committed and unrevoked. */
    ghost predicate PresentedIsLive(t: TxId)
      requires t in state.txs && state.txs[t].presented.Some?
      reads this
    {
      var id := state.txs[t].presented.value.id;
      id in state.db && !state.db[id].revoked
    }

    /** The row count of a finished UPDATE, and what follows from it. */
    method CompleteUpdate(t: TxId, stmt: Stmt) returns (affected: nat)
      requires Valid() && t in state.txs && state.txs[t].pc.Touching? && state.txs[t].pc.candidates == {}
      requires state.txs[t].pc.stmt == stmt && state.txs[t].presented.Some?
      modifies this
      ensures Is(t, old(state).txs[t].(pc := AfterUpdate(old(state).txs[t], stmt, affected)))
      ensures Grew(old(log)) && Alone(t, old(state))
      ensures stmt == RevokeIfLive ==> (affected > 0 <==> PresentedIsLive(t))
    {
      RunKeepsInv(env, log);
      if stmt == RevokeIfLive {
        RowCount(env, state.db, state.txs[t]);
      }
      affected := state.txs[t].pc.affected;
      Perform(Finish(t));
    }

    /** The snapshot of an UPDATE: its candidates. */
    method TakeSnapshot(t: TxId, stmt: Stmt, w: Weather) returns (err: bool)
      requires Valid() && t in state.txs && state.txs[t].pc == Scanning(stmt) && state.txs[t].presented.Some?
      modifies this
      ensures Inside(t, old(state).txs[t]) && Grew(old(log))
      ensures if err then state.txs[t].pc == Failing else state.txs[t].pc.Touching? && state.txs[t].pc.stmt == stmt
      ensures err <==> w.fault
      ensures w == CALM ==> Alone(t, old(state))
    {
      ghost var before := state.txs[t];
      Interfere(t, w.others);
      err := w.fault;
      if err {
        Fail(t, before);
      } else {
        Perform(Scan(t));
      }
    }

    /** One UPDATE: the candidates of its snapshot, then row by row. */
    method ExecUpdate(t: TxId, stmt: Stmt, weather: seq<Weather>) returns (affected: nat, err: bool)
      requires Valid() && t in state.txs && state.txs[t].pc == Scanning(stmt) && state.txs[t].presented.Some?
      modifies this
      ensures Inside(t, old(state).txs[t]) && Grew(old(log))
      ensures state.txs[t].pc == if err then Failing else AfterUpdate(old(state).txs[t], stmt, affected)
      ensures !err && stmt == RevokeIfLive ==> (affected > 0 <==> PresentedIsLive(t))
      ensures err ==> exists k | 0 <= k < |weather| :: weather[k].fault
      ensures Calm(weather) ==> !err && Alone(t, old(state))
    {
      ghost var before := state.txs[t];
      ghost var calm := Calm(weather);
      err := TakeSnapshot(t, stmt, At(weather, 0));
      affected := 0;
      var visited := 0;
      while !err && state.txs[t].pc.candidates != {}
        invariant Inside(t, before) && Grew(old(log))
        invariant err ==> exists k | 0 <= k < |weather| :: weather[k].fault
        invariant calm ==> !err && Alone(t, old(state))
        invariant if err then state.txs[t].pc == Failing else state.txs[t].pc.Touching? && state.txs[t].pc.stmt == stmt
        decreases !err, if err then 0 else |state.txs[t].pc.candidates|
      {
        visited := visited + 1;
        err := VisitCandidate(t, At(weather, visited));
      }
      if !err {
        affected := CompleteUpdate(t, stmt);
      }
    }

    /** The UNIQUE constraints refuse a draw that is not new, and WITH CHECK a row that is not the scope's. */
    method InsertRefreshToken(t: TxId, draw: Draw, w: Weather) returns (err: bool)
      requires Valid() && t in state.txs && state.txs[t].pc == Inserting
      requires state.txs[t].op.Rotation? ==>
                 state.txs[t].presented.Some? && draw.family == state.txs[t].presented.value.token.family
      modifies this
      ensures Grew(old(log))
      ensures var tx := old(state).txs[t];
              if err then Is(t, tx.(pc := Failing))
              else NewOwner(tx) == tx.scope
                   && Is(t, tx.(pc := AfterInsert(tx, draw), draw := Some(draw),
                            writes := tx.writes[draw.id := NewToken(env, tx, draw)]))
      ensures w.fault ==> err
      ensures var tx := old(state).txs[t];
              err ==> w.fault || !Fresh(env, state, draw, tx.op.Login?) || NewOwner(tx) != tx.scope
      ensures var tx := old(state).txs[t];
              w == CALM && Fresh(env, old(state), draw, tx.op.Login?) && NewOwner(tx) == tx.scope ==>
                !err && Alone(t, old(state))
    {
      ghost var tx := state.txs[t];
      Interfere(t, w.others);
      if w.fault || !Fresh(env, state, draw, state.txs[t].op.Login?) {
        ghost var interfered := state;
        Fail(t, tx);
        err := true;
        FreshForAll(env, interfered, state, t, draw, tx.op.Login?);
      } else {
        err := NewOwner(state.txs[t]) != state.txs[t].scope;
        Perform(Insert(t, draw));
      }
    }

    // ---- session.go ----

    /** What the callback hands to WithAuthUser: an outcome to commit, or an error to roll back. */
    ghost predicate Decided(t: TxId, answer: Answer)
      reads this
    {
      && Valid() && t in state.txs
      && state.txs[t].pc == (match answer case Ok(outcome) => Returned(outcome) case Err => Failing)
    }

    /** The last three statements of a rotation: revoke, insert the successor, point at it. */
    method ReplaceToken(t: TxId, token: Token, draw: Draw, weather: seq<Weather>) returns (answer: Answer)
      requires Valid() && t in state.txs && state.txs[t].pc == Scanning(RevokeIfLive)
      requires state.txs[t].op.Rotation? && state.txs[t].presented.Some? && state.txs[t].presented.value.token == token
      modifies this
      ensures Decided(t, answer) && Grew(old(log))
      ensures state.txs[t].op == old(state).txs[t].op && state.txs[t].scope == old(state).txs[t].scope
      ensures Calm(weather) && Fresh(env, old(state), draw, false) && old(PresentedIsLive(t)) ==> answer.Ok?
    {
      ghost var before := state.txs[t];
      var affected, failed := ExecUpdate(t, RevokeIfLive, weather);
      if failed || affected == 0 {
        return Err;
      }
      assert Inside(t, before) && state.txs[t].pc == Inserting;
      ReadyToInsert(env, log, old(state), t, draw, token.family);
      failed := InsertRefreshToken(t, draw.(family := token.family), At(weather, 2));
      if failed {
        return Err;
      }
      ghost var minted := state.txs[t];
      affected, failed := ExecUpdate(t, SetReplacedBy, if |weather| > 3 then weather[3..] else []);
      assert Inside(t, minted);
      return if failed then Err else Ok(Granted(Cookie(token.user, draw.secret)));
    }

    method RotateRefreshToken(t: TxId, secret: Secret, now: int, draw: Draw, weather: seq<Weather>)
      returns (answer: Answer)
      requires Valid() && t in state.txs && state.txs[t].pc == Reading && state.txs[t].op == Rotation(secret, now)
      modifies this
      ensures Decided(t, answer) && Grew(old(log))
      ensures state.txs[t].op == old(state).txs[t].op && state.txs[t].scope == old(state).txs[t].scope
      ensures Calm(weather) && Undisturbed(env, old(state), t, draw) ==> answer.Ok?
    {
      var presented, failed := GetRefreshTokenByHash(t, env.hash(secret), At(weather, 0));
      if failed {
        return Err;
      }
      if presented.None? {
        return Ok(Refused(Invalid));
      }
      var token := presented.value.token;
      failed := LockRefreshTokenFamily(t, token.family, At(weather, 1));
      if failed {
        return Err;
      }
      var rest := if |weather| > 2 then weather[2..] else [];
      if token.revoked {
        var revoked;
        revoked, failed := ExecUpdate(t, RevokeFamily, rest);
        return if failed then Err else Ok(Refused(Reused));
      }
      if Expired(token, now) {
        return Ok(Refused(Invalid));
      }
      answer := ReplaceToken(t, token, draw, rest);
    }

    method IssueRefreshToken(t: TxId, draw: Draw, w: Weather) returns (answer: Answer)
      requires Valid() && t in state.txs && state.txs[t].pc == Inserting && state.txs[t].op.Login?
      modifies this
      ensures Decided(t, answer) && Grew(old(log))
      ensures state.txs[t].op == old(state).txs[t].op && state.txs[t].scope == old(state).txs[t].scope
      ensures answer.Ok? ==>
                && state.txs[t].draw == Some(draw)
                && answer.outcome == Granted(Cookie(old(state).txs[t].op.user, draw.secret))
      ensures var tx := old(state).txs[t];
              w == CALM && Fresh(env, old(state), draw, true) && tx.op.user == tx.scope ==> answer.Ok?
    {
      var user := state.txs[t].op.user;
      var failed := InsertRefreshToken(t, draw, w);
      return if failed then Err else Ok(Granted(Cookie(user, draw.secret)));
    }

    // ---- auth.go ----

    /** The start of WithAuthUser: the nil user is refused at once; then BEGIN and the scope, each of which may fail. */
    method Open(t: TxId, scope: Uuid, op: Op, w: Weather) returns (ok: bool)
      requires Valid() && t !in state.txs
      modifies this
      ensures Valid() && Grew(old(log)) && (scope == NIL_UUID ==> log == old(log))
      ensures ok <==> scope != NIL_UUID && !w.fault
      ensures !ok ==> t !in state.txs
      ensures ok ==> Is(t, Tx(scope, op, if op.Login? then Inserting else Reading, None, None, map[], None))
      ensures ok && w.others == [] ==> state == State(old(state).db, old(state).txs[t := state.txs[t]])
    {
      if scope == NIL_UUID {
        return false;
      }
      Interfere(t, w.others);
      if w.fault {
        return false;
      }
      Perform(Begin(t, scope, op));
      return true;
    }

    /** The end of WithAuthUser: commit on nil, and roll back on an error, of the callback or of the commit. */
    method Conclude(t: TxId, decided: Answer, w: Weather) returns (answer: Answer)
      requires Decided(t, decided)
      modifies this
      ensures Valid() && Grew(old(log)) && t in state.txs
      ensures answer.Ok? ==> answer == decided && |log| > |old(log)| && log[|log| - 1] == Commit(t)
      ensures state.txs[t].pc == (match answer case Ok(outcome) => Committed(outcome) case Err => RolledBack)
      ensures state.txs[t].op == old(state).txs[t].op && state.txs[t].scope == old(state).txs[t].scope
      ensures state.txs[t].draw == old(state).txs[t].draw
      ensures answer.Ok? <==> decided.Ok? && !w.fault
    {
      ghost var tx := state.txs[t];
      Interfere(t, w.others);
      if decided.Ok? && !w.fault {
        Perform(Commit(t));
        return decided;
      }
      Fail(t, tx);
      Perform(Rollback(t));
      return Err;
    }

    /** WithAuthUser around a rotation, from the open transaction on; `before` is the run before it was opened. */
    method RotateAndConclude(t: TxId, secret: Secret, now: int, draw: Draw, weather: seq<Weather>, atCommit: Weather,
                             ghost before: seq<Action>)
      returns (answer: Answer)
      requires Valid() && t in state.txs && state.txs[t].pc == Reading && state.txs[t].op == Rotation(secret, now)
      requires before <= log && Runnable(env, before) && t !in Exec(env, before).txs
      modifies this
      ensures Valid() && Grew(old(log)) && t in state.txs
      ensures state.txs[t].op == old(state).txs[t].op && state.txs[t].scope == old(state).txs[t].scope
      ensures answer.Err? ==> state.txs[t].pc == RolledBack
      ensures answer.Err? ==> forall k | 0 <= k < |log| && log[k].tx == t :: !log[k].Commit?
      ensures answer.Ok? ==> TookEffect(env, before, log, t, answer.outcome)
      ensures atCommit.fault ==> answer.Err?
      ensures Calm(weather) && Undisturbed(env, old(state), t, draw) ==> (answer.Ok? <==> !atCommit.fault)
    {
      var decided := RotateRefreshToken(t, secret, now, draw, weather);
      answer := Conclude(t, decided, atCommit);
      HowItEnded(env, before, log, t, answer);
    }

    /**
     A refresh request from the outside. Success is one undisturbed rotation at a moment between call and return;
     failure, of whatever kind, has changed nothing. With nobody else at work and nothing failing up to the commit, it
     is the commit alone that decides.
     */
    method Refresh(t: TxId, scope: Uuid, secret: Secret, now: int, draw: Draw,
                   atBegin: Weather, weather: seq<Weather>, atCommit: Weather)
      returns (answer: Answer)
      requires Valid() && t !in state.txs
      modifies this
      ensures Valid() && Grew(old(log))
      ensures scope == NIL_UUID ==> answer == Err && log == old(log)
      ensures answer.Err? ==> t !in state.txs || state.txs[t].pc == RolledBack
      ensures answer.Err? ==> forall k | 0 <= k < |log| && log[k].tx == t :: !log[k].Commit?
      ensures answer.Ok? ==> t in state.txs && state.txs[t].op == Rotation(secret, now) && state.txs[t].scope == scope
      ensures answer.Ok? ==> TookEffect(env, old(log), log, t, answer.outcome)
      ensures atCommit.fault ==> answer.Err?
      ensures scope != NIL_UUID && atBegin == CALM && Calm(weather) && Undisturbed(env, old(state), t, draw) ==>
                (answer.Ok? <==> !atCommit.fault)
    {
      var ok := Open(t, scope, Rotation(secret, now), atBegin);
      if !ok {
        NeverBegan(env, log, t);
        return Err;
      }
      if atBegin == CALM && Undisturbed(env, old(state), t, draw) {
        StillUndisturbed(env, old(state), t, state.txs[t], draw);
      }
      answer := RotateAndConclude(t, secret, now, draw, weather, atCommit, old(log));
    }

    /**
     A login. Success adds one live token in a new family, of the scope's user, at the commit, and returns its cookie;
     failure has changed nothing. With a new draw and nothing failing up to the commit, the commit alone decides.
     */
    method LogIn(t: TxId, scope: Uuid, user: Uuid, now: int, draw: Draw,
                 atBegin: Weather, atInsert: Weather, atCommit: Weather)
      returns (answer: Answer)
      requires Valid() && t !in state.txs
      modifies this
      ensures Valid() && Grew(old(log))
      ensures answer.Ok? ==> user == scope && answer.outcome == Granted(Cookie(user, draw.secret))
      ensures answer.Ok? ==> AddedByLastStep(env, log, user, now, draw)
      ensures answer.Err? ==> forall k | 0 <= k < |log| && log[k].tx == t :: !log[k].Commit?
      ensures atCommit.fault ==> answer.Err?
      ensures scope != NIL_UUID && user == scope && atBegin == CALM && atInsert == CALM
              && Fresh(env, old(state), draw, true) ==>
                (answer.Ok? <==> !atCommit.fault)
    {
      var ok := Open(t, scope, Login(user, now), atBegin);
      if !ok {
        NeverBegan(env, log, t);
        return Err;
      }
      if atBegin == CALM && Fresh(env, old(state), draw, true) {
        FreshAfterBegin(env, old(state), t, state.txs[t], draw);
      }
      var decided := IssueRefreshToken(t, draw, atInsert);
      answer := Conclude(t, decided, atCommit);
      LoginEnded(env, log, t, draw, answer);
    }
  }

  lemma FreshAfterBegin(env: Env, s: State, t: TxId, tx: Tx, draw: Draw)
    requires Fresh(env, s, draw, true) && tx.writes == map[]
    ensures Fresh(env, State(s.db, s.txs[t := tx]), draw, true)
  {
  }

  /** The last step added this token, the first of its family, and nothing else. */
  ghost predicate AddedByLastStep(env: Env, log: seq<Action>, user: Uuid, now: int, draw: Draw) {
    && Runnable(env, log) && |log| > 0
    && var before, after := StateAt(env, log, |log| - 1).db, Exec(env, log).db;
       && draw.id !in before && !InUse(before, draw.family)
       && after == before[draw.id := Mint(user, env.hash(draw.secret), draw.family, now)]
  }

  lemma LoginEnded(env: Env, log: seq<Action>, t: TxId, draw: Draw, answer: Answer)
    requires env.locking && Runnable(env, log) && |log| > 0 && t in Exec(env, log).txs
    requires Exec(env, log).txs[t].op.Login?
    requires Exec(env, log).txs[t].pc == (match answer case Ok(outcome) => Committed(outcome) case Err => RolledBack)
    requires answer.Ok? ==> log[|log| - 1] == Commit(t) && Exec(env, log).txs[t].draw == Some(draw)
    ensures var tx := Exec(env, log).txs[t];
            answer.Ok? ==> tx.scope == tx.op.user && AddedByLastStep(env, log, tx.scope, tx.op.now, draw)
    ensures answer.Err? ==> forall k | 0 <= k < |log| && log[k].tx == t :: !log[k].Commit?
  {
    if answer.Ok? {
      LoginAdded(env, log, t, draw);
    } else {
      NeverCommitted(env, log, t);
    }
  }

  lemma LoginAdded(env: Env, log: seq<Action>, t: TxId, draw: Draw)
    requires env.locking && Runnable(env, log) && |log| > 0 && log[|log| - 1] == Commit(t)
    requires t in Exec(env, log).txs && Exec(env, log).txs[t].op.Login? && Exec(env, log).txs[t].draw == Some(draw)
    ensures Exec(env, log).txs[t].scope == Exec(env, log).txs[t].op.user
    ensures AddedByLastStep(env, log, Exec(env, log).txs[t].scope, Exec(env, log).txs[t].op.now, draw)
  {
    WholeRun(env, log);
    LoginAddsFamily(env, log, |log| - 1, t);
  }

  lemma FreshForAll(env: Env, before: State, after: State, t: TxId, draw: Draw, newFamily: bool)
    requires t in before.txs && t in after.txs && after.db == before.db
    requires after.txs == before.txs[t := after.txs[t]] && after.txs[t].writes == before.txs[t].writes
    ensures Fresh(env, after, draw, newFamily) <==> Fresh(env, before, draw, newFamily)
  {
    assert forall u | u in before.txs :: after.txs[u].writes == before.txs[u].writes;
    assert forall u | u in after.txs :: before.txs[u].writes == after.txs[u].writes;
  }

  lemma OthersDecideKey(before: State, after: State, t: TxId, key: int)
    requires t in before.txs && t in after.txs && after.txs == before.txs[t := after.txs[t]]
    ensures KeyFree(after, t, key) <==> KeyFree(before, t, key)
  {
    assert forall u | u in before.txs && u != t :: after.txs[u] == before.txs[u];
    assert forall u | u in after.txs && u != t :: before.txs[u] == after.txs[u];
  }

  /** No other transaction holds a lock, and the draw is new. */
  ghost predicate Undisturbed(env: Env, s: State, t: TxId, draw: Draw) {
    (forall u | u in s.txs && u != t :: s.txs[u].held == None) && Fresh(env, s, draw, false)
  }

  /** The guarded UPDATE affects a row exactly when the presented token is still live. */
  lemma RowCount(env: Env, db: Table, tx: Tx)
    requires TxOk(env, db, tx) && tx.pc.Touching? && tx.pc.candidates == {} && tx.pc.stmt == RevokeIfLive
    ensures tx.presented.Some?
    ensures tx.pc.affected > 0 <==> tx.presented.value.id in db && !db[tx.presented.value.id].revoked
  {
  }

  /**
   A rotation inserts for the owner of the row it looked up, which the policy lets it see only as its scope's; and
   revoking the presented token has used up no id and no digest.
   */
  lemma ReadyToInsert(env: Env, log: seq<Action>, before: State, t: TxId, draw: Draw, family: Uuid)
    requires env.locking && Runnable(env, log) && t in Exec(env, log).txs
    requires Exec(env, log).txs[t].pc == Inserting && Exec(env, log).txs[t].op.Rotation?
    ensures NewOwner(Exec(env, log).txs[t]) == Exec(env, log).txs[t].scope
    ensures var after := Exec(env, log);
            before.db == after.db && after.txs == before.txs[t := after.txs[t]] && Fresh(env, before, draw, false) ==>
              Fresh(env, after, draw.(family := family), false)
  {
    RunKeepsInv(env, log);
    var after := Exec(env, log);
    assert TxOk(env, after.db, after.txs[t]);
    if before.db == after.db && after.txs == before.txs[t := after.txs[t]] && Fresh(env, before, draw, false) {
      FreshStaysFor(env, before, t, after.txs[t], draw, family);
      assert after == State(before.db, before.txs[t := after.txs[t]]);
    }
  }

  lemma FreshStaysFor(env: Env, s: State, t: TxId, tx: Tx, draw: Draw, family: Uuid)
    requires Fresh(env, s, draw, false)
    requires forall i | i in tx.writes :: i in s.db && tx.writes[i].hash == s.db[i].hash
    ensures Fresh(env, State(s.db, s.txs[t := tx]), draw.(family := family), false)
  {
  }

  /** Beginning disturbs nobody. */
  lemma StillUndisturbed(env: Env, s: State, t: TxId, tx: Tx, draw: Draw)
    requires Undisturbed(env, s, t, draw) && tx.writes == map[]
    ensures Undisturbed(env, State(s.db, s.txs[t := tx]), t, draw)
  {
  }

  /** Somewhere after `before`, one step of t was a whole undisturbed rotation with this outcome. */
  ghost predicate TookEffect(env: Env, before: seq<Action>, log: seq<Action>, t: TxId, outcome: Outcome) {
    && env.locking && Runnable(env, log)
    && t in Exec(env, log).txs
    && exists j: nat :: EffectAt(env, before, log, t, outcome, j)
  }

  ghost predicate EffectAt(env: Env, before: seq<Action>, log: seq<Action>, t: TxId, outcome: Outcome, j: nat)
    requires Runnable(env, log) && t in Exec(env, log).txs
  {
    && |before| <= j < |log| && log[j].tx == t
    && ActsAsRotate(env, Exec(env, log).txs[t], outcome, StateAt(env, log, j).db, StateAt(env, log, j + 1).db)
  }

  lemma BeganLater(before: seq<Action>, log: seq<Action>, t: TxId, b: nat)
    requires before <= log && b < |log| && log[b].tx == t
    requires forall k | 0 <= k < |before| :: before[k].tx != t
    ensures |before| <= b
  {
    assert forall k | 0 <= k < |before| :: before[k] == log[k];
  }

  /** A committed rotation took effect since `before`; one that was rolled back never committed. */
  lemma HowItEnded(env: Env, before: seq<Action>, log: seq<Action>, t: TxId, answer: Answer)
    requires env.locking && Runnable(env, before) && t !in Exec(env, before).txs
    requires Runnable(env, log) && before <= log && t in Exec(env, log).txs && Exec(env, log).txs[t].op.Rotation?
    requires Exec(env, log).txs[t].pc == (match answer case Ok(outcome) => Committed(outcome) case Err => RolledBack)
    requires answer.Ok? ==> |log| > 0 && log[|log| - 1] == Commit(t)
    ensures answer.Ok? ==> TookEffect(env, before, log, t, answer.outcome)
    ensures answer.Err? ==> forall k | 0 <= k < |log| && log[k].tx == t :: !log[k].Commit?
  {
    if answer.Ok? {
      EffectInside(env, before, log, t, answer.outcome);
    } else {
      NeverCommitted(env, log, t);
    }
  }

  lemma EffectInside(env: Env, before: seq<Action>, log: seq<Action>, t: TxId, outcome: Outcome)
    requires env.locking && Runnable(env, log) && before <= log && |log| > 0 && log[|log| - 1] == Commit(t)
    requires Runnable(env, before) && t !in Exec(env, before).txs
    requires t in Exec(env, log).txs && Exec(env, log).txs[t].op.Rotation?
    requires Exec(env, log).txs[t].pc == Committed(outcome)
    ensures TookEffect(env, before, log, t, outcome)
  {
    WholeRun(env, log);
    var b, j := Linearizable(env, log, |log| - 1, t);
    NeverBegan(env, before, t);
    BeganLater(before, log, t, b);
    assert EffectAt(env, before, log, t, outcome, j);
  }
}

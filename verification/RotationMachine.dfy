/**
 Concurrent logins and rotations as transactions under READ COMMITTED, one SQL statement (or one row of an
 UPDATE) per step. An UPDATE first takes its candidate rows from the snapshot its own statement sees, then
 visits them one by one: a row another transaction has written but not committed makes it wait, and the WHERE
 clause is evaluated again on the newest version before the row is written.
 */
module RotationMachine {
  import opened Identifiers
  import opened Options
  import opened RefreshTokens

  type TxId = nat

  /**
   The hash stored in token_hash, the advisory lock key of a family (any function: families may collide), and
   whether rotations take that lock at all. The protocol always does; module RotationWithoutLock shows why.
   */
  datatype Env = Env(hash: Secret -> Digest, key: Uuid -> int, locking: bool)

  datatype Op =
    | Login(user: Uuid, now: int)
    | Rotation(secret: Secret, now: int)

  datatype Stmt = RevokeFamily | RevokeIfLive | SetReplacedBy

  // The row as the lookup returned it, before the lock was taken.
  datatype Presented = Presented(id: Uuid, token: Token)

  datatype Pc =
    | Reading
    | Locking
    | Scanning(stmt: Stmt)
    | Touching(stmt: Stmt, candidates: set<Uuid>, affected: nat)
    | Inserting
    | Returned(outcome: Outcome)   // the callback returned nil, so WithAuthUser commits
    | Failing                      // some error: WithAuthUser rolls back
    | Committed(outcome: Outcome)
    | RolledBack

  datatype Tx = Tx(
    scope: Uuid,
    op: Op,
    pc: Pc,
    presented: Option<Presented>,
    draw: Option<Draw>,
    writes: Table,                 // the row versions this transaction wrote and has not committed
    held: Option<int>)             // the advisory lock it holds

  datatype State = State(db: Table, txs: map<TxId, Tx>)

  datatype Action =
    | Begin(tx: TxId, scope: Uuid, op: Op)
    | Read(tx: TxId, found: Option<Uuid>)
    | Lock(tx: TxId)
    | Scan(tx: TxId)
    | Touch(tx: TxId, id: Uuid)
    | Finish(tx: TxId)
    | Insert(tx: TxId, draw: Draw)
    | Fault(tx: TxId)              // a statement, the commit or the random source fails
    | Commit(tx: TxId)
    | Rollback(tx: TxId)

  predicate Active(tx: Tx) {
    !tx.pc.Committed? && !tx.pc.RolledBack?
  }

  function View(s: State, tx: Tx): Table {
    s.db + tx.writes
  }

  // ---- The statements of auth.sql ----

  /** The WHERE clause together with the row policy. */
  predicate Where(stmt: Stmt, tx: Tx, id: Uuid, row: Token)
    requires tx.presented.Some?
  {
    && row.user == tx.scope
    && match stmt
       case RevokeFamily => row.family == tx.presented.value.token.family && !row.revoked
       case RevokeIfLive => id == tx.presented.value.id && !row.revoked
       case SetReplacedBy => id == tx.presented.value.id
  }

  function Set(stmt: Stmt, tx: Tx, row: Token): Token {
    match stmt
    case RevokeFamily => Revoke(row)
    case RevokeIfLive => Revoke(row)
    case SetReplacedBy => row.(replacedBy := if tx.draw.Some? then Some(tx.draw.value.id) else None)
  }

  function Candidates(s: State, tx: Tx, stmt: Stmt): set<Uuid>
    requires tx.presented.Some?
  {
    set i | i in View(s, tx) && Where(stmt, tx, i, View(s, tx)[i])
  }

  /** The user and family of the row that issueInFamilyReturningID inserts. */
  function NewOwner(tx: Tx): Uuid {
    match tx.op
    case Login(user, _) => user
    case Rotation(_, _) => if tx.presented.Some? then tx.presented.value.token.user else NIL_UUID
  }

  function NewToken(env: Env, tx: Tx, draw: Draw): Token {
    Mint(NewOwner(tx), env.hash(draw.secret), draw.family, tx.op.now)
  }

  predicate RowUnlocked(s: State, t: TxId, id: Uuid) {
    forall u | u in s.txs && u != t :: id !in s.txs[u].writes
  }

  predicate KeyFree(s: State, t: TxId, key: int) {
    forall u | u in s.txs && u != t :: s.txs[u].held != Some(key)
  }

  predicate Unused(table: Table, draw: Draw, digest: Digest) {
    draw.id !in table && forall i | i in table :: table[i].hash != digest
  }

  predicate FamilyUnused(table: Table, family: Uuid) {
    forall i | i in table :: table[i].family != family
  }

  /** Random ids, secrets and family ids have not been drawn before; digests of drawn secrets do not collide. */
  predicate Fresh(env: Env, s: State, draw: Draw, newFamily: bool) {
    && Unused(s.db, draw, env.hash(draw.secret))
    && (forall u | u in s.txs :: Unused(s.txs[u].writes, draw, env.hash(draw.secret)))
    && (newFamily ==>
          && FamilyUnused(s.db, draw.family)
          && forall u | u in s.txs :: FamilyUnused(s.txs[u].writes, draw.family))
  }

  // ---- The control flow of RotateRefreshToken, IssueRefreshToken and WithAuthUser ----

  /** What the branches after the lock decide, on the row read before it. */
  function AfterLock(tx: Tx): Pc
    requires tx.presented.Some?
  {
    if tx.presented.value.token.revoked then Scanning(RevokeFamily)
    else if Expired(tx.presented.value.token, tx.op.now) then Returned(Refused(Invalid))
    else Scanning(RevokeIfLive)
  }

  /** What follows a completed UPDATE, given how many rows it affected. */
  function AfterUpdate(tx: Tx, stmt: Stmt, affected: nat): Pc {
    match stmt
    case RevokeFamily => Returned(Refused(Reused))
    case RevokeIfLive => if affected == 0 then Failing else Inserting
    case SetReplacedBy => Returned(Granted(Cookie(NewOwner(tx), if tx.draw.Some? then tx.draw.value.secret else 0)))
  }

  /** What follows the INSERT: a login is done, a rotation sets the back-pointer. */
  function AfterInsert(tx: Tx, draw: Draw): Pc {
    match tx.op
    case Login(user, _) => Returned(Granted(Cookie(user, draw.secret)))
    case Rotation(_, _) => Scanning(SetReplacedBy)
  }

  predicate Enabled(env: Env, s: State, a: Action) {
    match a
    case Begin(t, scope, _) => t !in s.txs && scope != NIL_UUID
    case Read(t, found) =>
      && t in s.txs && s.txs[t].pc == Reading && s.txs[t].op.Rotation?
      && var digest := env.hash(s.txs[t].op.secret);
         match found {
           case None => forall i | i in s.db :: !Matches(s.db, i, digest, s.txs[t].scope)
           case Some(id) => Matches(s.db, id, digest, s.txs[t].scope)
         }
    case Lock(t) =>
      && t in s.txs && s.txs[t].pc == Locking && s.txs[t].presented.Some?
      && (env.locking ==> KeyFree(s, t, env.key(s.txs[t].presented.value.token.family)))
    case Scan(t) =>
      t in s.txs && s.txs[t].pc.Scanning? && s.txs[t].presented.Some?
    case Touch(t, id) =>
      && t in s.txs && s.txs[t].pc.Touching? && s.txs[t].presented.Some?
      && id in s.txs[t].pc.candidates && id in View(s, s.txs[t]) && RowUnlocked(s, t, id)
    case Finish(t) =>
      t in s.txs && s.txs[t].pc.Touching? && s.txs[t].pc.candidates == {}
    case Insert(t, draw) =>
      && t in s.txs && s.txs[t].pc == Inserting
      && Fresh(env, s, draw, s.txs[t].op.Login?)
      && (s.txs[t].op.Rotation? ==>
            s.txs[t].presented.Some? && draw.family == s.txs[t].presented.value.token.family)
    case Fault(t) => t in s.txs && Active(s.txs[t]) && s.txs[t].pc != Failing
    case Commit(t) => t in s.txs && s.txs[t].pc.Returned?
    case Rollback(t) => t in s.txs && s.txs[t].pc == Failing
  }

  function TouchRow(s: State, tx: Tx, id: Uuid): Tx
    requires tx.pc.Touching? && tx.presented.Some? && id in View(s, tx)
  {
    var newest := View(s, tx)[id];
    var rest := tx.pc.candidates - {id};
    if Where(tx.pc.stmt, tx, id, newest) then
      tx.(writes := tx.writes[id := Set(tx.pc.stmt, tx, newest)],
      pc := Touching(tx.pc.stmt, rest, tx.pc.affected + 1))
    else
      tx.(pc := Touching(tx.pc.stmt, rest, tx.pc.affected))
  }

  /** The policy's WITH CHECK refuses a row that does not belong to the scope, and the statement fails. */
  function InsertRow(env: Env, tx: Tx, draw: Draw): Tx {
    if NewOwner(tx) != tx.scope then
      tx.(pc := Failing)
    else
      tx.(writes := tx.writes[draw.id := NewToken(env, tx, draw)], draw := Some(draw), pc := AfterInsert(tx, draw))
  }

  /** The step of a transaction that changes nothing but itself. */
  function Local(env: Env, s: State, a: Action): Tx
    requires Enabled(env, s, a) && !a.Commit?
  {
    match a
    case Begin(_, scope, op) =>
      Tx(scope, op, if op.Login? then Inserting else Reading, None, None, map[], None)
    case Read(t, found) =>
      (match found
       case None => s.txs[t].(pc := Returned(Refused(Invalid)))
       case Some(id) => s.txs[t].(presented := Some(Presented(id, s.db[id])), pc := Locking))
    case Lock(t) =>
      s.txs[t].(pc := AfterLock(s.txs[t]),
      held := if env.locking then Some(env.key(s.txs[t].presented.value.token.family)) else None)
    case Scan(t) =>
      s.txs[t].(pc := Touching(s.txs[t].pc.stmt, Candidates(s, s.txs[t], s.txs[t].pc.stmt), 0))
    case Touch(t, id) => TouchRow(s, s.txs[t], id)
    case Finish(t) => s.txs[t].(pc := AfterUpdate(s.txs[t], s.txs[t].pc.stmt, s.txs[t].pc.affected))
    case Insert(t, draw) => InsertRow(env, s.txs[t], draw)
    case Fault(t) => s.txs[t].(pc := Failing)
    case Rollback(t) => s.txs[t].(pc := RolledBack, writes := map[], held := None)
  }

  function Next(env: Env, s: State, a: Action): State
    requires Enabled(env, s, a)
  {
    match a
    case Commit(t) =>
      State(s.db + s.txs[t].writes,
            s.txs[t := s.txs[t].(pc := Committed(s.txs[t].pc.outcome), writes := map[], held := None)])
    case _ =>
      s.(txs := s.txs[a.tx := Local(env, s, a)])
  }

  // ---- Runs ----

  const START := State(map[], map[])

  ghost predicate Runnable(env: Env, run: seq<Action>)
    decreases |run|, 0
  {
    |run| == 0 ||
    (var before := run[..|run| - 1];
     Runnable(env, before) && Enabled(env, Exec(env, before), run[|run| - 1]))
  }

  /** The state a run leads to from the empty table. */
  ghost function Exec(env: Env, run: seq<Action>): State
    requires Runnable(env, run)
    decreases |run|, 1
  {
    if |run| == 0 then START
    else Next(env, Exec(env, run[..|run| - 1]), run[|run| - 1])
  }
}

/**
 Recovery codes under READ COMMITTED: redemption is one guarded UPDATE, regeneration a DELETE and some INSERTs.
 Statements run as in module RotationMachine: snapshot first, then row by row with the condition re-evaluated on
 the newest version, waiting for any row another transaction has written and not committed.
 */
module RecoveryCodes {
  import opened Identifiers

  type Digest = nat
  type TxId = nat

  datatype Code = Code(user: Uuid, hash: Digest, used: bool)

  type Table = map<Uuid, Code>

  datatype Op =
    | Redeem(hash: Digest)
    | Regenerate(user: Uuid, codes: seq<Digest>)

  datatype Pc =
    | Scanning
    | Touching(candidates: set<Uuid>, affected: nat)
    | Inserting(next: nat)
    | Returned
    | Failing
    | Committed
    | RolledBack

  /** The uncommitted work of a transaction: the versions it wrote and the rows it deleted. */
  datatype Tx = Tx(scope: Uuid, op: Op, pc: Pc, puts: Table, dels: set<Uuid>)

  // `drawn` are the row ids drawn so far: ids are never drawn twice.
  datatype State = State(db: Table, txs: map<TxId, Tx>, drawn: set<Uuid>)

  const START := State(map[], map[], {})

  datatype Action =
    | Begin(tx: TxId, scope: Uuid, op: Op)
    | Scan(tx: TxId)
    | Touch(tx: TxId, id: Uuid)
    | Finish(tx: TxId)
    | Insert(tx: TxId, id: Uuid, hash: Digest)
    | Fault(tx: TxId)
    | Commit(tx: TxId)
    | Rollback(tx: TxId)

  predicate Active(tx: Tx) {
    tx.pc != Committed && tx.pc != RolledBack
  }

  predicate Accepts(tx: Tx) {
    tx.pc == Committed && tx.op.Redeem?
  }

  /** The WHERE clause of the redemption or of the deletion, through the row policy. */
  predicate Where(tx: Tx, row: Code) {
    && row.user == tx.scope
    && match tx.op
       case Redeem(hash) => row.hash == hash && !row.used
       case Regenerate(user, _) => row.user == user
  }

  function View(db: Table, tx: Tx): Table {
    (db - tx.dels) + tx.puts
  }

  function Candidates(db: Table, tx: Tx): set<Uuid> {
    set i | i in db && Where(tx, db[i])
  }

  predicate Holds(tx: Tx, id: Uuid) {
    id in tx.puts || id in tx.dels
  }

  predicate RowUnlocked(s: State, t: TxId, id: Uuid) {
    forall u | u in s.txs && u != t :: !Holds(s.txs[u], id)
  }

  /** Ids are new, and UNIQUE (code_hash) holds against every row this transaction has not deleted itself. */
  predicate MayInsert(s: State, t: TxId, id: Uuid, hash: Digest)
    requires t in s.txs
  {
    && id !in s.drawn
    && (forall i | i in s.db && i !in s.txs[t].dels :: s.db[i].hash != hash)
    && (forall u | u in s.txs :: forall i | i in s.txs[u].puts :: s.txs[u].puts[i].hash != hash)
  }

  predicate Enabled(s: State, a: Action) {
    if a.Begin? then a.tx !in s.txs
    else
      && a.tx in s.txs
      && var tx := s.txs[a.tx];
         match a
         case Scan(_) => tx.pc == Scanning
         case Touch(_, id) => tx.pc.Touching? && id in tx.pc.candidates && RowUnlocked(s, a.tx, id)
         case Finish(_) => tx.pc.Touching? && tx.pc.candidates == {}
         case Insert(_, id, hash) =>
           && tx.pc.Inserting? && tx.op.Regenerate? && tx.pc.next < |tx.op.codes| && tx.op.codes[tx.pc.next] == hash
           && MayInsert(s, a.tx, id, hash)
         case Fault(_) => Active(tx) && tx.pc != Failing
         case Commit(_) => tx.pc == Returned
         case Rollback(_) => tx.pc == Failing
  }

  function TouchRow(db: Table, tx: Tx, id: Uuid): Tx
    requires tx.pc.Touching?
  {
    var rest := tx.pc.candidates - {id};
    // The newest version is the committed one: an UPDATE or DELETE visits each row once.
    if id in db && !Holds(tx, id) && Where(tx, db[id]) then
      if tx.op.Redeem? then
        tx.(puts := tx.puts[id := db[id].(used := true)], pc := Touching(rest, tx.pc.affected + 1))
      else
        tx.(dels := tx.dels + {id}, pc := Touching(rest, tx.pc.affected + 1))
    else
      tx.(pc := Touching(rest, tx.pc.affected))
  }

  function Local(s: State, a: Action): Tx
    requires Enabled(s, a) && !a.Commit?
  {
    match a
    case Begin(_, scope, op) =>
      // An empty set is refused before any statement is issued.
      Tx(scope, op, if op.Regenerate? && |op.codes| == 0 then Failing else Scanning, map[], {})
    case Scan(t) => s.txs[t].(pc := Touching(Candidates(s.db, s.txs[t]), 0))
    case Touch(t, id) => TouchRow(s.db, s.txs[t], id)
    case Finish(t) =>
      s.txs[t].(pc :=
        if s.txs[t].op.Regenerate? then Inserting(0)
        else if s.txs[t].pc.affected == 0 then Failing
        else Returned)
    case Insert(t, id, hash) =>
      var tx := s.txs[t];
      // WITH CHECK refuses a row of another user than the scope's.
      if tx.op.user != tx.scope then tx.(pc := Failing)
      else tx.(puts := tx.puts[id := Code(tx.op.user, hash, false)],
               pc := if tx.pc.next + 1 == |tx.op.codes| then Returned else Inserting(tx.pc.next + 1))
    case Fault(t) => s.txs[t].(pc := Failing)
    case Rollback(t) => s.txs[t].(pc := RolledBack, puts := map[], dels := {})
  }

  function Next(s: State, a: Action): State
    requires Enabled(s, a)
  {
    match a
    case Commit(t) =>
      s.(db := View(s.db, s.txs[t]), txs := s.txs[t := s.txs[t].(pc := Committed, puts := map[], dels := {})])
    case Insert(t, id, _) =>
      s.(txs := s.txs[t := Local(s, a)], drawn := s.drawn + {id})
    case _ => s.(txs := s.txs[a.tx := Local(s, a)])
  }

  ghost predicate Runnable(run: seq<Action>)
    decreases |run|, 0
  {
    |run| == 0 ||
    (var before := run[..|run| - 1];
     Runnable(before) && Enabled(Exec(before), run[|run| - 1]))
  }

  ghost function Exec(run: seq<Action>): State
    requires Runnable(run)
    decreases |run|, 1
  {
    if |run| == 0 then START else Next(Exec(run[..|run| - 1]), run[|run| - 1])
  }

  // ---- What every reachable state satisfies ----

  ghost predicate UniqueHashes(db: Table) {
    forall i, j | i in db && j in db && db[i].hash == db[j].hash :: i == j
  }

  /** A redemption holds only rows that carry its code, are its scope's and are still unused. */
  ghost predicate RedeemOk(db: Table, tx: Tx) {
    && tx.dels == {}
    && (forall i | i in tx.puts :: i in db && Where(tx, db[i]) && tx.puts[i] == db[i].(used := true))
    && (tx.pc.Touching? ==> (tx.pc.affected > 0 ==> tx.puts != map[]))
    && (tx.pc == Returned ==> tx.puts != map[])
    && !tx.pc.Inserting?
  }

  ghost predicate Written(tx: Tx, upTo: nat)
    requires tx.op.Regenerate? && upTo <= |tx.op.codes|
  {
    && (forall i | i in tx.puts :: tx.puts[i].hash in tx.op.codes[..upTo])
    && (forall k | 0 <= k < upTo :: exists i :: i in tx.puts && tx.puts[i].hash == tx.op.codes[k])
  }

  /** A regeneration deletes only its scope's rows, and writes only new rows, its codes in order. */
  ghost predicate RegenerateOk(db: Table, tx: Tx)
    requires tx.op.Regenerate?
  {
    && (forall i | i in tx.dels :: i in db && Where(tx, db[i]))
    && (forall i | i in tx.puts :: i !in db && tx.puts[i].user == tx.scope == tx.op.user && !tx.puts[i].used)
    && (tx.pc == Scanning || tx.pc.Touching? ==> tx.puts == map[])
    && (tx.pc == Scanning ==> tx.dels == {})
    && (tx.pc != Failing && tx.pc != RolledBack ==> |tx.op.codes| > 0)
    && (tx.pc.Inserting? ==> tx.pc.next < |tx.op.codes| && Written(tx, tx.pc.next))
    && (tx.pc == Returned ==> tx.op.user == tx.scope && Written(tx, |tx.op.codes|))
    && (tx.pc == Committed ==> tx.op.user == tx.scope)
  }

  ghost predicate TxOk(db: Table, tx: Tx) {
    && (match tx.op case Redeem(_) => RedeemOk(db, tx) case Regenerate(_, _) => RegenerateOk(db, tx))
    && (tx.pc == Scanning ==> tx.puts == map[])
    && (!Active(tx) ==> tx.puts == map[] && tx.dels == {})
  }

  /** Rows about to be inserted clash with no row that will still be there. */
  ghost predicate PutsUnique(db: Table, tx: Tx) {
    && (forall i, j | i in tx.puts && j in db && i !in db && j !in tx.dels :: tx.puts[i].hash != db[j].hash)
    && (forall i, j | i in tx.puts && j in tx.puts && i !in db && tx.puts[i].hash == tx.puts[j].hash :: i == j)
  }

  ghost predicate Apart(db: Table, a: Tx, b: Tx) {
    && (forall i | Holds(a, i) :: !Holds(b, i))
    && (forall i, j | i in a.puts && j in b.puts && i !in db && j !in db :: a.puts[i].hash != b.puts[j].hash)
  }

  ghost predicate AllDrawn(s: State) {
    && s.db.Keys <= s.drawn
    && forall t | t in s.txs :: s.txs[t].puts.Keys <= s.drawn
  }

  ghost predicate Inv(s: State) {
    && UniqueHashes(s.db)
    && AllDrawn(s)
    && (forall t | t in s.txs :: TxOk(s.db, s.txs[t]) && PutsUnique(s.db, s.txs[t]))
    && (forall t, u | t in s.txs && u in s.txs && t != u :: Apart(s.db, s.txs[t], s.txs[u]))
  }

  // ---- Steps that leave the table alone ----

  lemma WrittenGrows(tx: Tx, n: nat, id: Uuid, row: Code, pc: Pc)
    requires tx.op.Regenerate? && n < |tx.op.codes| && Written(tx, n) && id !in tx.puts && row.hash == tx.op.codes[n]
    ensures Written(tx.(puts := tx.puts[id := row], pc := pc), n + 1)
  {
    var after := tx.(puts := tx.puts[id := row], pc := pc);
    var codes := tx.op.codes;
    assert codes[..n + 1] == codes[..n] + [row.hash];
    forall k | 0 <= k < n + 1 ensures exists i :: i in after.puts && after.puts[i].hash == codes[k] {
      if k < n {
        assert tx.op.codes[k] == codes[k];
        var i :| i in tx.puts && tx.puts[i].hash == tx.op.codes[k];
        assert i in after.puts && after.puts[i].hash == codes[k];
      } else {
        assert id in after.puts && after.puts[id].hash == codes[k];
      }
    }
  }

  lemma InsertStep(s: State, t: TxId, id: Uuid, hash: Digest)
    requires AllDrawn(s) && Enabled(s, Insert(t, id, hash)) && TxOk(s.db, s.txs[t])
    ensures TxOk(s.db, Local(s, Insert(t, id, hash)))
  {
    var tx := s.txs[t];
    if tx.op.user == tx.scope {
      WrittenGrows(tx, tx.pc.next, id, Code(tx.op.user, hash, false), Local(s, Insert(t, id, hash)).pc);
    }
  }

  lemma LocalStep(s: State, a: Action)
    requires Inv(s) && Enabled(s, a) && !a.Commit?
    ensures TxOk(s.db, Local(s, a))
  {
    if a.Insert? {
      InsertStep(s, a.tx, a.id, a.hash);
    } else if !a.Begin? {
      assert TxOk(s.db, s.txs[a.tx]);
    }
  }

  lemma StepAllDrawn(s: State, a: Action)
    requires Inv(s) && Enabled(s, a)
    ensures AllDrawn(Next(s, a))
  {
    if a.tx in s.txs {
      assert TxOk(s.db, s.txs[a.tx]);
    }
  }

  lemma LocalApart(s: State, a: Action)
    requires Inv(s) && Enabled(s, a) && !a.Commit?
    ensures PutsUnique(s.db, Local(s, a))
    ensures forall u | u in s.txs && u != a.tx ::
              Apart(s.db, Local(s, a), s.txs[u]) && Apart(s.db, s.txs[u], Local(s, a))
  {
    if !a.Begin? {
      assert TxOk(s.db, s.txs[a.tx]) && PutsUnique(s.db, s.txs[a.tx]);
      forall u | u in s.txs && u != a.tx
        ensures Apart(s.db, Local(s, a), s.txs[u]) && Apart(s.db, s.txs[u], Local(s, a))
      {
        assert Apart(s.db, s.txs[a.tx], s.txs[u]) && Apart(s.db, s.txs[u], s.txs[a.tx]);
        assert TxOk(s.db, s.txs[u]);
      }
    }
  }

  lemma LocalKeepsInv(s: State, a: Action)
    requires Inv(s) && Enabled(s, a) && !a.Commit?
    ensures Inv(Next(s, a))
  {
    LocalStep(s, a);
    LocalApart(s, a);
    StepAllDrawn(s, a);
    var after := Next(s, a);
    forall t, u | t in after.txs && u in after.txs && t != u ensures Apart(after.db, after.txs[t], after.txs[u]) {
      if t != a.tx && u != a.tx {
        assert Apart(s.db, s.txs[t], s.txs[u]);
      }
    }
  }

  // ---- Commits ----

  lemma CommitKeepsTable(s: State, t: TxId)
    requires Inv(s) && Enabled(s, Commit(t))
    ensures UniqueHashes(Next(s, Commit(t)).db)
  {
    var tx := s.txs[t];
    assert TxOk(s.db, tx) && PutsUnique(s.db, tx);
  }

  /** Rows held by somebody else are as they were. */
  lemma HeldRowsKept(s: State, t: TxId, u: TxId, id: Uuid)
    requires Inv(s) && Enabled(s, Commit(t)) && u in s.txs && u != t && Holds(s.txs[u], id)
    ensures id in Next(s, Commit(t)).db <==> id in s.db
    ensures id in s.db ==> Next(s, Commit(t)).db[id] == s.db[id]
  {
    assert Apart(s.db, s.txs[u], s.txs[t]);
  }

  lemma OtherKept(s: State, t: TxId, u: TxId)
    requires Inv(s) && Enabled(s, Commit(t)) && u in s.txs && u != t
    ensures TxOk(Next(s, Commit(t)).db, s.txs[u])
  {
    assert TxOk(s.db, s.txs[u]);
    forall id | Holds(s.txs[u], id)
      ensures id in Next(s, Commit(t)).db <==> id in s.db
      ensures id in s.db ==> Next(s, Commit(t)).db[id] == s.db[id]
    {
      HeldRowsKept(s, t, u, id);
    }
  }

  lemma OtherPutsUnique(s: State, t: TxId, u: TxId)
    requires Inv(s) && Enabled(s, Commit(t)) && u in s.txs && u != t
    ensures PutsUnique(Next(s, Commit(t)).db, s.txs[u])
  {
    var after := Next(s, Commit(t)).db;
    assert TxOk(s.db, s.txs[t]) && TxOk(s.db, s.txs[u]) && PutsUnique(s.db, s.txs[u]);
    assert Apart(s.db, s.txs[u], s.txs[t]);
    forall i | i in s.txs[u].puts ensures i in after <==> i in s.db {
      HeldRowsKept(s, t, u, i);
    }
    forall i, j | i in s.txs[u].puts && j in after && i !in after && j !in s.txs[u].dels
      ensures s.txs[u].puts[i].hash != after[j].hash
    {
      if j in s.db {
        assert after[j].hash == s.db[j].hash;
      }
    }
  }

  lemma OthersApart(s: State, t: TxId, u: TxId, v: TxId)
    requires Inv(s) && Enabled(s, Commit(t)) && u in s.txs && v in s.txs && u != v && u != t && v != t
    ensures Apart(Next(s, Commit(t)).db, s.txs[u], s.txs[v])
  {
    assert Apart(s.db, s.txs[u], s.txs[v]);
    forall i | i in s.txs[u].puts ensures i in Next(s, Commit(t)).db <==> i in s.db {
      HeldRowsKept(s, t, u, i);
    }
    forall i | i in s.txs[v].puts ensures i in Next(s, Commit(t)).db <==> i in s.db {
      HeldRowsKept(s, t, v, i);
    }
  }

  lemma StayApart(s: State, t: TxId, u: TxId, v: TxId)
    requires Inv(s) && Enabled(s, Commit(t)) && u in s.txs && v in s.txs && u != v
    ensures Apart(Next(s, Commit(t)).db, Next(s, Commit(t)).txs[u], Next(s, Commit(t)).txs[v])
  {
    if u != t && v != t {
      OthersApart(s, t, u, v);
    }
  }

  lemma CommitKeepsInv(s: State, t: TxId)
    requires Inv(s) && Enabled(s, Commit(t))
    ensures Inv(Next(s, Commit(t)))
  {
    var after := Next(s, Commit(t));
    CommitKeepsTable(s, t);
    StepAllDrawn(s, Commit(t));
    assert TxOk(s.db, s.txs[t]);
    forall u | u in after.txs ensures TxOk(after.db, after.txs[u]) && PutsUnique(after.db, after.txs[u]) {
      if u != t {
        OtherKept(s, t, u);
        OtherPutsUnique(s, t, u);
      }
    }
    forall u, v | u in after.txs && v in after.txs && u != v ensures Apart(after.db, after.txs[u], after.txs[v]) {
      StayApart(s, t, u, v);
    }
  }

  lemma {:induction false} RunKeepsInv(run: seq<Action>)
    requires Runnable(run)
    ensures Inv(Exec(run))
  {
    if |run| > 0 {
      var before := run[..|run| - 1];
      RunKeepsInv(before);
      if run[|run| - 1].Commit? {
        CommitKeepsInv(Exec(before), run[|run| - 1].tx);
      } else {
        LocalKeepsInv(Exec(before), run[|run| - 1]);
      }
    }
  }
}

/** Whatever function derives lock keys from families, nobody deadlocks and every transaction ends. */
module RotationProgress {
  import opened Identifiers
  import opened Options
  import opened RefreshTokens
  import opened RotationMachine
  import opened RotationInvariant

  // ---- A bound on the number of steps ----

  /** An upper bound on the steps a transaction still has before it. */
  function Rank(tx: Tx): nat {
    match tx.pc
    case Reading => 11
    case Locking => 10
    case Scanning(stmt) => if stmt.RevokeIfLive? then 9 else 5
    case Touching(stmt, candidates, _) => (if stmt.RevokeIfLive? then 7 else 3) + |candidates|
    case Inserting => 6
    case Returned(_) => 2
    case Failing => 1
    case Committed(_) => 0
    case RolledBack => 0
  }

  const MAX_STEPS := 12

  lemma OneCandidate(env: Env, s: State, tx: Tx, stmt: Stmt)
    requires TableOk(s.db) && TxOk(env, s.db, tx) && tx.pc == Scanning(stmt)
    ensures |Candidates(s, tx, stmt)| <= 1
  {
    var candidates := Candidates(s, tx, stmt);
    forall i, j | i in candidates && j in candidates ensures i == j {
      if !stmt.SetReplacedBy? {
        assert View(s, tx) == s.db;
      }
    }
    if candidates != {} {
      var i :| i in candidates;
      assert candidates == {i};
    }
  }

  lemma VisitLowersRank(s: State, tx: Tx, id: Uuid)
    requires tx.pc.Touching? && tx.presented.Some? && id in tx.pc.candidates && id in View(s, tx)
    ensures Rank(TouchRow(s, tx, id)) < Rank(tx)
  {
    assert |tx.pc.candidates - {id}| == |tx.pc.candidates| - 1;
  }

  lemma FinishLowersRank(env: Env, s: State, t: TxId)
    requires Enabled(env, s, Finish(t))
    ensures Rank(Local(env, s, Finish(t))) < Rank(s.txs[t])
  {
    match s.txs[t].pc.stmt
    case RevokeFamily =>
    case RevokeIfLive =>
    case SetReplacedBy =>
  }

  /** The steps without an UPDATE. */
  lemma PlainStepLowersRank(env: Env, s: State, a: Action)
    requires Enabled(env, s, a)
    requires a.Read? || a.Lock? || a.Insert? || a.Fault? || a.Rollback?
    ensures Rank(Local(env, s, a)) < Rank(s.txs[a.tx])
  {
  }

  lemma LocalLowersRank(env: Env, s: State, a: Action)
    requires TableOk(s.db) && Enabled(env, s, a) && !a.Begin? && !a.Commit? && TxOk(env, s.db, s.txs[a.tx])
    ensures Rank(Local(env, s, a)) < Rank(s.txs[a.tx])
  {
    match a
    case Scan(t) => OneCandidate(env, s, s.txs[t], s.txs[t].pc.stmt);
    case Touch(t, id) => VisitLowersRank(s, s.txs[t], id);
    case Finish(t) => FinishLowersRank(env, s, t);
    case _ => PlainStepLowersRank(env, s, a);
  }

  lemma StepLowersRank(env: Env, s: State, a: Action)
    requires TableOk(s.db) && Enabled(env, s, a) && !a.Begin? && TxOk(env, s.db, s.txs[a.tx])
    ensures Rank(Next(env, s, a).txs[a.tx]) < Rank(s.txs[a.tx])
  {
    if !a.Commit? {
      LocalLowersRank(env, s, a);
    }
  }

  ghost function Potential(txs: map<TxId, Tx>): nat {
    if txs == map[] then 0
    else
      var t :| t in txs;
      Rank(txs[t]) + Potential(txs - {t})
  }

  lemma {:induction false} PotentialSplits(txs: map<TxId, Tx>, t: TxId)
    requires t in txs
    ensures Potential(txs) == Rank(txs[t]) + Potential(txs - {t})
    decreases |txs|
  {
    var u :| u in txs && Potential(txs) == Rank(txs[u]) + Potential(txs - {u});
    if u != t {
      PotentialSplits(txs - {u}, t);
      PotentialSplits(txs - {t}, u);
      assert txs - {u} - {t} == txs - {t} - {u};
    }
  }

  function Begins(run: seq<Action>): nat {
    if |run| == 0 then 0
    else Begins(run[..|run| - 1]) + (if run[|run| - 1].Begin? then 1 else 0)
  }

  lemma UpdateThenRemove<K, V>(m: map<K, V>, k: K, v: V)
    ensures m[k := v] - {k} == m - {k}
    ensures k !in m ==> m - {k} == m
    ensures |m[k := v]| == |m| + (if k in m then 0 else 1)
  {
    assert m[k := v].Keys == m.Keys + {k};
    if k in m {
      assert m[k := v].Keys == m.Keys;
    }
  }

  lemma PotentialUpdates(txs: map<TxId, Tx>, t: TxId, tx: Tx)
    ensures Potential(txs[t := tx]) == Potential(txs) - (if t in txs then Rank(txs[t]) else 0) + Rank(tx)
    ensures |txs[t := tx]| == |txs| + (if t in txs then 0 else 1)
  {
    UpdateThenRemove(txs, t, tx);
    PotentialSplits(txs[t := tx], t);
    if t in txs {
      PotentialSplits(txs, t);
    }
  }

  lemma PotentialStep(env: Env, s: State, a: Action)
    requires Inv(env, s) && Enabled(env, s, a)
    ensures var after := Next(env, s, a);
            if a.Begin? then
              |after.txs| == |s.txs| + 1 && Potential(after.txs) < Potential(s.txs) + MAX_STEPS
            else
              |after.txs| == |s.txs| && Potential(after.txs) < Potential(s.txs)
  {
    PotentialUpdates(s.txs, a.tx, Next(env, s, a).txs[a.tx]);
    if !a.Begin? {
      StepLowersRank(env, s, a);
    }
  }

  lemma {:induction false} PotentialAccount(env: Env, run: seq<Action>)
    requires env.locking && Runnable(env, run)
    ensures |Exec(env, run).txs| == Begins(run)
    ensures |run| + Potential(Exec(env, run).txs) <= MAX_STEPS * Begins(run)
  {
    if |run| > 0 {
      var before := run[..|run| - 1];
      PotentialAccount(env, before);
      RunKeepsInv(env, before);
      PotentialStep(env, Exec(env, before), run[|run| - 1]);
    }
  }

  /** No run takes more than twelve steps for each transaction it starts. */
  lemma StepsAreBounded(env: Env, run: seq<Action>)
    requires env.locking && Runnable(env, run)
    ensures |run| <= MAX_STEPS * Begins(run)
  {
    PotentialAccount(env, run);
  }

  // ---- Nobody waits for ever ----

  /** A step that is neither a new transaction nor a failure. */
  predicate Progress(env: Env, s: State, a: Action) {
    Enabled(env, s, a) && !a.Begin? && !a.Fault?
  }

  /** No row of a candidate set is ever held by somebody else: its family's lock sees to that. */
  lemma CandidateIsUnlocked(env: Env, s: State, t: TxId, id: Uuid)
    requires Inv(env, s) && t in s.txs && s.txs[t].pc.Touching? && id in s.txs[t].pc.candidates
    ensures Enabled(env, s, Touch(t, id))
  {
    assert TxOk(env, s.db, s.txs[t]);
    assert id in s.db && s.db[id].family == s.txs[t].presented.value.token.family;
    forall u | u in s.txs && u != t ensures id !in s.txs[u].writes {
      assert Apart(env, s.txs[t], s.txs[u]) && TxOk(env, s.db, s.txs[u]);
    }
  }

  lemma OwnStep(env: Env, s: State, t: TxId, draw: Draw) returns (a: Action)
    requires Inv(env, s) && t in s.txs && Active(s.txs[t]) && s.txs[t].pc != Locking
    requires Fresh(env, s, draw, true)
    ensures Progress(env, s, a) && a.tx == t
  {
    var tx := s.txs[t];
    assert TxOk(env, s.db, tx);
    match tx.pc
    case Reading =>
      var digest := env.hash(tx.op.secret);
      if id :| Matches(s.db, id, digest, tx.scope) {
        a := Read(t, Some(id));
      } else {
        a := Read(t, None);
      }
    case Scanning(_) => a := Scan(t);
    case Touching(_, candidates, _) =>
      if id :| id in candidates {
        CandidateIsUnlocked(env, s, t, id);
        a := Touch(t, id);
      } else {
        a := Finish(t);
      }
    case Inserting =>
      a := Insert(t, if tx.op.Login? then draw else draw.(family := tx.presented.value.token.family));
    case Returned(_) => a := Commit(t);
    case Failing => a := Rollback(t);
  }

  /**
   No deadlock: as long as some transaction is unfinished and the random source still yields new values, some
   transaction can take a step that is not a failure.
   */
  lemma SomebodyCanStep(env: Env, run: seq<Action>, t: TxId, draw: Draw) returns (a: Action)
    requires env.locking && Runnable(env, run)
    requires t in Exec(env, run).txs && Active(Exec(env, run).txs[t])
    requires Fresh(env, Exec(env, run), draw, true)
    ensures Progress(env, Exec(env, run), a)
  {
    RunKeepsInv(env, run);
    var s := Exec(env, run);
    assert TxOk(env, s.db, s.txs[t]);
    if s.txs[t].pc != Locking {
      a := OwnStep(env, s, t, draw);
    } else if u :| u in s.txs && u != t && s.txs[u].held == Some(env.key(s.txs[t].presented.value.token.family)) {
      // The holder is past its own lock, so it is not waiting for anybody.
      assert TxOk(env, s.db, s.txs[u]);
      a := OwnStep(env, s, u, draw);
    } else {
      a := Lock(t);
    }
  }
}

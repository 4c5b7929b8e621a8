/** What holds over whole runs: every interleaving behaves like atomic rotations, and reuse is final. */
module RotationRuns {
  import opened Identifiers
  import opened Options
  import opened RefreshTokens
  import opened RotationMachine
  import opened RotationInvariant

  // ---- Indexing a run ----

  lemma {:induction false} PrefixRunnable(env: Env, run: seq<Action>, k: nat)
    requires Runnable(env, run) && k <= |run|
    ensures Runnable(env, run[..k])
  {
    if k == |run| {
      assert run[..k] == run;
    } else {
      var before := run[..|run| - 1];
      PrefixRunnable(env, before, k);
      assert before[..k] == run[..k];
    }
  }

  /** The state after the first k steps. */
  ghost function StateAt(env: Env, run: seq<Action>, k: nat): State
    requires Runnable(env, run) && k <= |run|
  {
    PrefixRunnable(env, run, k);
    Exec(env, run[..k])
  }

  lemma StepAt(env: Env, run: seq<Action>, k: nat)
    requires Runnable(env, run) && k < |run|
    ensures Enabled(env, StateAt(env, run, k), run[k])
    ensures StateAt(env, run, k + 1) == Next(env, StateAt(env, run, k), run[k])
  {
    PrefixRunnable(env, run, k + 1);
    var prefix := run[..k + 1];
    assert prefix[..|prefix| - 1] == run[..k];
  }

  lemma InvAt(env: Env, run: seq<Action>, k: nat)
    requires env.locking && Runnable(env, run) && k <= |run|
    ensures Inv(env, StateAt(env, run, k))
  {
    PrefixRunnable(env, run, k);
    RunKeepsInv(env, run[..k]);
  }

  /** Operation, scope and, once known, the presented token and the draw of a transaction never change. */
  ghost predicate SameTx(before: Tx, after: Tx) {
    && before.op == after.op && before.scope == after.scope
    && (before.presented.Some? ==> after.presented == before.presented)
    && (before.draw.Some? ==> after.draw == before.draw)
    && (!Active(before) ==> after == before)
  }

  lemma StepKeepsTx(env: Env, s: State, a: Action, t: TxId)
    requires Inv(env, s) && Enabled(env, s, a) && t in s.txs
    ensures t in Next(env, s, a).txs && SameTx(s.txs[t], Next(env, s, a).txs[t])
  {
    assert TxOk(env, s.db, s.txs[t]);
  }

  lemma StepKeepsTxAt(env: Env, run: seq<Action>, k: nat, t: TxId)
    requires env.locking && Runnable(env, run) && k < |run| && t in StateAt(env, run, k).txs
    ensures t in StateAt(env, run, k + 1).txs
    ensures SameTx(StateAt(env, run, k).txs[t], StateAt(env, run, k + 1).txs[t])
  {
    StepAt(env, run, k);
    InvAt(env, run, k);
    StepKeepsTx(env, StateAt(env, run, k), run[k], t);
  }

  lemma {:induction false} TxKept(env: Env, run: seq<Action>, k: nat, m: nat, t: TxId)
    requires env.locking && Runnable(env, run) && k <= m <= |run| && t in StateAt(env, run, k).txs
    ensures t in StateAt(env, run, m).txs && SameTx(StateAt(env, run, k).txs[t], StateAt(env, run, m).txs[t])
  {
    if k < m {
      TxKept(env, run, k, m - 1, t);
      StepKeepsTxAt(env, run, m - 1, t);
    }
  }

  // ---- Linearizability ----

  ghost function DrawOf(tx: Tx): Draw {
    if tx.draw.Some? then tx.draw.value else Draw(0, 0, 0)
  }

  /** Going from `before` to `after` is one undisturbed rotation by this transaction, with this outcome. */
  ghost predicate ActsAsRotate(env: Env, tx: Tx, outcome: Outcome, before: Table, after: Table) {
    && tx.op.Rotation?
    && Rotate(before, env.hash(tx.op.secret), tx.scope, tx.op.now, DrawOf(tx), env.hash(DrawOf(tx).secret))
       == (outcome, after)
  }

  lemma FindIsUnique(db: Table, id: Uuid, digest: Digest, scope: Uuid)
    requires UniqueHashes(db) && Matches(db, id, digest, scope)
    ensures Find(db, digest, scope) == Some(id)
  {
  }

  /** A rotation that writes takes effect, whole, at its commit. */
  lemma CommitIsRotate(env: Env, s: State, t: TxId)
    requires Inv(env, s) && Enabled(env, s, Commit(t)) && s.txs[t].op.Rotation?
    requires s.txs[t].pc.outcome != Refused(Invalid)
    ensures ActsAsRotate(env, s.txs[t], s.txs[t].pc.outcome, s.db, Next(env, s, Commit(t)).db)
  {
    var tx := s.txs[t];
    assert TxOk(env, s.db, tx);
    CommittedTable(env, s, t);
    FindIsUnique(s.db, tx.presented.value.id, env.hash(tx.op.secret), tx.scope);
  }

  /** A refusal that writes nothing is decided by the lookup, and is what a rotation at that moment answers. */
  lemma ReadIsRefusal(env: Env, s: State, a: Action, tx: Tx)
    requires Inv(env, s) && Enabled(env, s, a) && a.Read?
    requires ReadBy(a, s.db, a.tx, tx) && tx.op == s.txs[a.tx].op && tx.scope == s.txs[a.tx].scope
    requires tx.presented.Some? ==> !tx.presented.value.token.revoked && Expired(tx.presented.value.token, tx.op.now)
    ensures ActsAsRotate(env, tx, Refused(Invalid), s.db, Next(env, s, a).db)
  {
    if a.found.Some? {
      FindIsUnique(s.db, a.found.value, env.hash(tx.op.secret), tx.scope);
    }
  }

  /** What its lookup left in a transaction. */
  ghost predicate ReadBy(a: Action, db: Table, t: TxId, tx: Tx) {
    && a.Read? && a.tx == t
    && (a.found.None? <==> tx.presented.None?)
    && (a.found.Some? ==> a.found.value in db && tx.presented == Some(Presented(a.found.value, db[a.found.value])))
  }

  ghost predicate PastRead(tx: Tx) {
    tx.op.Rotation? && tx.pc != Reading && tx.pc != Failing && tx.pc != RolledBack
  }

  lemma ReadStep(env: Env, s: State, a: Action, t: TxId)
    requires Inv(env, s) && Enabled(env, s, a)
    requires t in Next(env, s, a).txs && PastRead(Next(env, s, a).txs[t])
    ensures t in s.txs
    ensures || ReadBy(a, s.db, t, Next(env, s, a).txs[t])
            || (PastRead(s.txs[t]) && s.txs[t].presented == Next(env, s, a).txs[t].presented)
  {
    if a.Read? && a.tx == t {
      assert TxOk(env, s.db, s.txs[t]);
    }
  }

  lemma ReadStepAt(env: Env, run: seq<Action>, m: nat, t: TxId)
    requires env.locking && Runnable(env, run) && m < |run|
    requires t in StateAt(env, run, m + 1).txs && PastRead(StateAt(env, run, m + 1).txs[t])
    ensures t in StateAt(env, run, m).txs
    ensures || ReadBy(run[m], StateAt(env, run, m).db, t, StateAt(env, run, m + 1).txs[t])
            || (PastRead(StateAt(env, run, m).txs[t])
                && StateAt(env, run, m).txs[t].presented == StateAt(env, run, m + 1).txs[t].presented)
  {
    StepAt(env, run, m);
    InvAt(env, run, m);
    ReadStep(env, StateAt(env, run, m), run[m], t);
  }

  lemma NobodyAtStart(env: Env, run: seq<Action>, t: TxId)
    requires Runnable(env, run)
    ensures t !in StateAt(env, run, 0).txs
  {
  }

  /** Where a transaction began and where it looked its token up. */
  lemma {:induction false} ReadPoint(env: Env, run: seq<Action>, m: nat, t: TxId) returns (b: nat, j: nat)
    requires env.locking && Runnable(env, run) && m <= |run|
    requires t in StateAt(env, run, m).txs && PastRead(StateAt(env, run, m).txs[t])
    ensures b < j < m && run[b].Begin? && run[b].tx == t
    ensures ReadBy(run[j], StateAt(env, run, j).db, t, StateAt(env, run, m).txs[t])
  {
    NobodyAtStart(env, run, t);
    ReadStepAt(env, run, m - 1, t);
    if ReadBy(run[m - 1], StateAt(env, run, m - 1).db, t, StateAt(env, run, m).txs[t]) {
      b := BeginPoint(env, run, m - 1, t);
      j := m - 1;
    } else {
      b, j := ReadPoint(env, run, m - 1, t);
    }
  }

  lemma {:induction false} BeginPoint(env: Env, run: seq<Action>, m: nat, t: TxId) returns (b: nat)
    requires Runnable(env, run) && m <= |run| && t in StateAt(env, run, m).txs
    ensures b < m && run[b].Begin? && run[b].tx == t
  {
    assert m > 0;
    StepAt(env, run, m - 1);
    if t in StateAt(env, run, m - 1).txs {
      b := BeginPoint(env, run, m - 1, t);
    } else {
      b := m - 1;
    }
  }

  /** Nothing but a commit changes the committed rows; in particular a transaction that rolls back never does. */
  lemma OnlyCommitsWrite(env: Env, run: seq<Action>, k: nat)
    requires env.locking && Runnable(env, run) && k < |run| && !run[k].Commit?
    ensures StateAt(env, run, k + 1).db == StateAt(env, run, k).db
  {
    StepAt(env, run, k);
  }

  lemma WholeRun(env: Env, run: seq<Action>)
    requires Runnable(env, run)
    ensures StateAt(env, run, |run|) == Exec(env, run)
  {
    assert run[..|run|] == run;
  }

  /** A transaction that is not there has taken no step. */
  lemma NeverBegan(env: Env, run: seq<Action>, t: TxId)
    requires env.locking && Runnable(env, run) && t !in Exec(env, run).txs
    ensures forall k | 0 <= k < |run| :: run[k].tx != t
  {
    WholeRun(env, run);
    forall k | 0 <= k < |run| ensures run[k].tx != t {
      StepAt(env, run, k);
      if run[k].tx == t {
        TxKept(env, run, k + 1, |run|, t);
      }
    }
  }

  /** A transaction that was rolled back never committed. */
  lemma NeverCommitted(env: Env, run: seq<Action>, t: TxId)
    requires env.locking && Runnable(env, run) && t in Exec(env, run).txs && Exec(env, run).txs[t].pc == RolledBack
    ensures forall k | 0 <= k < |run| && run[k].tx == t :: !run[k].Commit?
  {
    WholeRun(env, run);
    forall k | 0 <= k < |run| && run[k].tx == t ensures !run[k].Commit? {
      if run[k].Commit? {
        CommittedAfter(env, run, k, |run|, t);
      }
    }
  }

  /** Whatever an aborted transaction did, none of its steps changed a committed row. */
  lemma AbortedChangesNothing(env: Env, run: seq<Action>, t: TxId, k: nat)
    requires env.locking && Runnable(env, run) && t in Exec(env, run).txs && Exec(env, run).txs[t].pc == RolledBack
    requires k < |run| && run[k].tx == t
    ensures StateAt(env, run, k + 1).db == StateAt(env, run, k).db
  {
    NeverCommitted(env, run, t);
    OnlyCommitsWrite(env, run, k);
  }

  /** The commit at step k leaves the outcome and the effect of an undisturbed rotation at step j. */
  ghost predicate CommitsAsRotate(env: Env, run: seq<Action>, k: nat, t: TxId, j: nat)
    requires Runnable(env, run)
  {
    && j <= k < |run| && t in StateAt(env, run, k + 1).txs
    && var tx := StateAt(env, run, k + 1).txs[t];
       && tx.pc.Committed?
       && ActsAsRotate(env, tx, tx.pc.outcome, StateAt(env, run, j).db, StateAt(env, run, j + 1).db)
       && (j < k ==> run[j].Read? && tx.pc.outcome == Refused(Invalid)
                     && StateAt(env, run, k + 1).db == StateAt(env, run, k).db)
  }

  lemma CommitAt(env: Env, run: seq<Action>, k: nat, t: TxId)
    requires Runnable(env, run) && k < |run| && run[k] == Commit(t)
    ensures t in StateAt(env, run, k).txs && StateAt(env, run, k).txs[t].pc.Returned?
    ensures t in StateAt(env, run, k + 1).txs
    ensures var tx := StateAt(env, run, k).txs[t];
            StateAt(env, run, k + 1).txs[t] == tx.(pc := Committed(tx.pc.outcome), writes := map[], held := None)
  {
    StepAt(env, run, k);
  }

  /**
   In every interleaving a committed rotation has, at one step of its own between its begin and its commit,
   exactly the outcome and the effect of an undisturbed rotation on the table of that moment.
   */
  lemma Linearizable(env: Env, run: seq<Action>, k: nat, t: TxId) returns (b: nat, j: nat)
    requires env.locking && Runnable(env, run) && k < |run| && run[k] == Commit(t)
    requires t in StateAt(env, run, k + 1).txs && StateAt(env, run, k + 1).txs[t].op.Rotation?
    ensures b < j <= k && run[b].Begin? && run[b].tx == t && run[j].tx == t
    ensures CommitsAsRotate(env, run, k, t, j)
  {
    CommitAt(env, run, k, t);
    b, j := ReadPoint(env, run, k, t);
    if StateAt(env, run, k).txs[t].pc.outcome == Refused(Invalid) {
      RefusalPoint(env, run, k, t, j);
    } else {
      j := k;
      WritePoint(env, run, k, t);
    }
  }

  lemma WritePoint(env: Env, run: seq<Action>, k: nat, t: TxId)
    requires env.locking && Runnable(env, run) && k < |run| && run[k] == Commit(t)
    requires t in StateAt(env, run, k).txs && StateAt(env, run, k).txs[t].op.Rotation?
    requires StateAt(env, run, k).txs[t].pc.Returned?
    requires StateAt(env, run, k).txs[t].pc.outcome != Refused(Invalid)
    ensures CommitsAsRotate(env, run, k, t, k)
  {
    StepAt(env, run, k);
    InvAt(env, run, k);
    CommitIsRotate(env, StateAt(env, run, k), t);
  }

  /** Refused as invalid: nothing to write, and whatever was presented was unrevoked and expired. */
  ghost predicate RefusedInvalid(tx: Tx) {
    && tx.pc == Committed(Refused(Invalid))
    && (tx.presented.Some? ==> !tx.presented.value.token.revoked && Expired(tx.presented.value.token, tx.op.now))
  }

  lemma RefusalCommits(env: Env, run: seq<Action>, k: nat, t: TxId)
    requires env.locking && Runnable(env, run) && k < |run| && run[k] == Commit(t)
    requires t in StateAt(env, run, k).txs && StateAt(env, run, k).txs[t].pc == Returned(Refused(Invalid))
    ensures t in StateAt(env, run, k + 1).txs && RefusedInvalid(StateAt(env, run, k + 1).txs[t])
    ensures StateAt(env, run, k + 1).txs[t].presented == StateAt(env, run, k).txs[t].presented
    ensures StateAt(env, run, k + 1).db == StateAt(env, run, k).db
  {
    InvAt(env, run, k);
    StepAt(env, run, k);
    assert TxOk(env, StateAt(env, run, k).db, StateAt(env, run, k).txs[t]);
    CommittedTable(env, StateAt(env, run, k), t);
  }

  lemma RefusedAtRead(env: Env, run: seq<Action>, j: nat, m: nat, t: TxId)
    requires env.locking && Runnable(env, run) && j < m <= |run|
    requires t in StateAt(env, run, m).txs && RefusedInvalid(StateAt(env, run, m).txs[t])
    requires ReadBy(run[j], StateAt(env, run, j).db, t, StateAt(env, run, m).txs[t])
    ensures ActsAsRotate(env, StateAt(env, run, m).txs[t], Refused(Invalid),
                         StateAt(env, run, j).db, StateAt(env, run, j + 1).db)
  {
    StepAt(env, run, j);
    InvAt(env, run, j);
    StepKeepsTxAt(env, run, j, t);
    TxKept(env, run, j + 1, m, t);
    ReadIsRefusal(env, StateAt(env, run, j), run[j], StateAt(env, run, m).txs[t]);
  }

  lemma RefusalPoint(env: Env, run: seq<Action>, k: nat, t: TxId, j: nat)
    requires env.locking && Runnable(env, run) && j < k < |run| && run[k] == Commit(t)
    requires t in StateAt(env, run, k).txs && StateAt(env, run, k).txs[t].pc == Returned(Refused(Invalid))
    requires ReadBy(run[j], StateAt(env, run, j).db, t, StateAt(env, run, k).txs[t])
    ensures CommitsAsRotate(env, run, k, t, j)
  {
    RefusalCommits(env, run, k, t);
    RefusedAtRead(env, run, j, k + 1, t);
  }

  /** A committed login adds the first token of a new family, for its own scope and thirty days, and nothing else. */
  lemma LoginAddsFamily(env: Env, run: seq<Action>, k: nat, t: TxId)
    requires env.locking && Runnable(env, run) && k < |run| && run[k] == Commit(t)
    requires StateAt(env, run, k + 1).txs[t].op.Login?
    ensures var tx, before := StateAt(env, run, k + 1).txs[t], StateAt(env, run, k).db;
            && tx.draw.Some? && tx.draw.value.id !in before && !InUse(before, tx.draw.value.family)
            && tx.op.user == tx.scope
            && tx.pc == Committed(Granted(Cookie(tx.scope, tx.draw.value.secret)))
            && StateAt(env, run, k + 1).db ==
               before[tx.draw.value.id :=
                        Token(tx.scope, env.hash(tx.draw.value.secret), tx.draw.value.family,
                              tx.op.now + 2_592_000, false, None)]
  {
    StepAt(env, run, k);
    InvAt(env, run, k);
    var s := StateAt(env, run, k);
    assert TxOk(env, s.db, s.txs[t]);
    CommittedTable(env, s, t);
  }

  // ---- Reuse is final ----

  /** Once a refusal for reuse has committed, its family never again holds an unrevoked token. */
  lemma ReuseIsFinal(env: Env, run: seq<Action>, k: nat, m: nat, t: TxId)
    requires env.locking && Runnable(env, run) && k <= m <= |run|
    requires t in StateAt(env, run, k).txs && StateAt(env, run, k).txs[t].pc == Committed(Refused(Reused))
    ensures StateAt(env, run, k).txs[t].presented.Some?
    ensures Dead(StateAt(env, run, m).db, StateAt(env, run, k).txs[t].presented.value.token.family)
  {
    TxKept(env, run, k, m, t);
    InvAt(env, run, k);
    InvAt(env, run, m);
    assert TxOk(env, StateAt(env, run, m).db, StateAt(env, run, m).txs[t]);
  }

  /** With a revoked token in hand, a transaction can commit nothing but the refusal for reuse. */
  lemma RevokedCommitsReuse(env: Env, db: Table, tx: Tx)
    requires TxOk(env, db, tx) && tx.pc.Committed?
    requires tx.presented.Some? && tx.presented.value.token.revoked
    ensures tx.pc == Committed(Refused(Reused))
  {
  }

  /** A rotation that looks up a token already revoked and commits is refused as reuse, and its family is dead. */
  lemma RevokedTokenIsReuse(env: Env, run: seq<Action>, j: nat, k: nat, m: nat)
    requires env.locking && Runnable(env, run) && j < k < m <= |run|
    requires run[j].Read? && run[k] == Commit(run[j].tx)
    requires run[j].found.Some? && run[j].found.value in StateAt(env, run, j).db
    requires StateAt(env, run, j).db[run[j].found.value].revoked
    ensures run[j].tx in StateAt(env, run, m).txs
    ensures StateAt(env, run, m).txs[run[j].tx].pc == Committed(Refused(Reused))
    ensures Dead(StateAt(env, run, m).db, StateAt(env, run, j).db[run[j].found.value].family)
  {
    var t := run[j].tx;
    StepAt(env, run, j);
    var p := Presented(run[j].found.value, StateAt(env, run, j).db[run[j].found.value]);
    assert StateAt(env, run, j + 1).txs[t].presented == Some(p);
    CommittedAfter(env, run, k, m, t);
    TxKept(env, run, j + 1, m, t);
    InvAt(env, run, m);
    RevokedCommitsReuse(env, StateAt(env, run, m).db, StateAt(env, run, m).txs[t]);
    ReuseIsFinal(env, run, m, m, t);
  }

  lemma CommittedAfter(env: Env, run: seq<Action>, k: nat, m: nat, t: TxId)
    requires env.locking && Runnable(env, run) && k < m <= |run| && run[k] == Commit(t)
    ensures t in StateAt(env, run, m).txs && StateAt(env, run, m).txs[t].pc.Committed?
  {
    StepAt(env, run, k);
    TxKept(env, run, k + 1, m, t);
  }

  /** A secret presented in the scope of another user than its owner is refused as invalid, never as reuse. */
  lemma WrongScopeIsInvalid(env: Env, run: seq<Action>, j: nat, k: nat, id: Uuid)
    requires env.locking && Runnable(env, run) && j < k < |run|
    requires run[j].Read? && run[k] == Commit(run[j].tx)
    requires id in StateAt(env, run, j).db && run[j].tx in StateAt(env, run, j).txs
    requires StateAt(env, run, j).txs[run[j].tx].op.Rotation?
    requires StateAt(env, run, j).db[id].hash == env.hash(StateAt(env, run, j).txs[run[j].tx].op.secret)
    requires StateAt(env, run, j).db[id].user != StateAt(env, run, j).txs[run[j].tx].scope
    ensures run[j].tx in StateAt(env, run, k + 1).txs
    ensures StateAt(env, run, k + 1).txs[run[j].tx].pc == Committed(Refused(Invalid))
    ensures StateAt(env, run, k + 1).db == StateAt(env, run, k).db
  {
    var t := run[j].tx;
    StepAt(env, run, j);
    InvAt(env, run, j);
    assert run[j].found == None;
    InvisibleTokenIsInvalid(env, run, j + 1, k, t);
    StepAt(env, run, k);
    InvAt(env, run, k);
    CommittedTable(env, StateAt(env, run, k), t);
  }

  ghost predicate NotFound(tx: Tx) {
    || tx.pc == Returned(Refused(Invalid)) || tx.pc == Committed(Refused(Invalid))
    || tx.pc == Failing || tx.pc == RolledBack
  }

  lemma {:induction false} InvisibleTokenIsInvalid(env: Env, run: seq<Action>, k: nat, m: nat, t: TxId)
    requires Runnable(env, run) && k <= m <= |run|
    requires t in StateAt(env, run, k).txs && NotFound(StateAt(env, run, k).txs[t])
    ensures t in StateAt(env, run, m).txs && NotFound(StateAt(env, run, m).txs[t])
  {
    if k < m {
      InvisibleTokenIsInvalid(env, run, k, m - 1, t);
      StepAt(env, run, m - 1);
    }
  }

  // ---- Acting on the row read before the lock ----

  /** Read live, but spent or burnt by somebody else before the lock was granted. */
  ghost predicate Outrun(s: State, tx: Tx) {
    && tx.presented.Some? && !tx.presented.value.token.revoked && tx.draw == None
    && tx.presented.value.id in s.db && s.db[tx.presented.value.id].revoked
    && (|| tx.pc == Scanning(RevokeIfLive) || tx.pc == Touching(RevokeIfLive, {}, 0)
        || tx.pc == Failing || tx.pc == RolledBack)
  }

  lemma OutrunStep(env: Env, s: State, a: Action, t: TxId)
    requires Inv(env, s) && Enabled(env, s, a) && t in s.txs && Outrun(s, s.txs[t])
    ensures t in Next(env, s, a).txs && Outrun(Next(env, s, a), Next(env, s, a).txs[t])
  {
    assert TxOk(env, s.db, s.txs[t]);
    if a.Commit? {
      CommitKeepsTable(env, s, a.tx);
    } else if a == Scan(t) {
      LiveOfScope(env, s, s.txs[t]);
    }
  }

  lemma OutrunStepAt(env: Env, run: seq<Action>, k: nat, t: TxId)
    requires env.locking && Runnable(env, run) && k < |run| && t in StateAt(env, run, k).txs
    requires Outrun(StateAt(env, run, k), StateAt(env, run, k).txs[t])
    ensures t in StateAt(env, run, k + 1).txs
    ensures Outrun(StateAt(env, run, k + 1), StateAt(env, run, k + 1).txs[t])
  {
    StepAt(env, run, k);
    InvAt(env, run, k);
    OutrunStep(env, StateAt(env, run, k), run[k], t);
  }

  /** The lock is granted although the token, live when it was read, has been revoked meanwhile. */
  ghost predicate LockedTooLate(env: Env, run: seq<Action>, k: nat, t: TxId)
    requires Runnable(env, run)
  {
    && k < |run| && run[k] == Lock(t)
    && var s := StateAt(env, run, k);
       && t in s.txs && s.txs[t].presented.Some?
       && var p := s.txs[t].presented.value;
          && !p.token.revoked && !Expired(p.token, s.txs[t].op.now)
          && p.id in s.db && s.db[p.id].revoked
  }

  lemma LockedTooLateIsOutrun(env: Env, run: seq<Action>, k: nat, t: TxId)
    requires env.locking && Runnable(env, run) && LockedTooLate(env, run, k, t)
    ensures t in StateAt(env, run, k + 1).txs
    ensures Outrun(StateAt(env, run, k + 1), StateAt(env, run, k + 1).txs[t])
  {
    StepAt(env, run, k);
    InvAt(env, run, k);
    assert TxOk(env, StateAt(env, run, k).db, StateAt(env, run, k).txs[t]);
  }

  /**
   A rotation whose token was live when it read it but revoked when it got the lock never commits, whoever won:
   it is refused by its rollback, so it neither mints a token nor burns the family.
   */
  lemma {:induction false} OutrunNeverCommits(env: Env, run: seq<Action>, k: nat, m: nat, t: TxId)
    requires env.locking && Runnable(env, run) && k < m <= |run| && LockedTooLate(env, run, k, t)
    ensures t in StateAt(env, run, m).txs
    ensures Outrun(StateAt(env, run, m), StateAt(env, run, m).txs[t])
    ensures !StateAt(env, run, m).txs[t].pc.Committed? && !StateAt(env, run, m).txs[t].pc.Returned?
  {
    if k + 1 < m {
      OutrunNeverCommits(env, run, k, m - 1, t);
      OutrunStepAt(env, run, m - 1, t);
    } else {
      LockedTooLateIsOutrun(env, run, k, t);
    }
  }
}

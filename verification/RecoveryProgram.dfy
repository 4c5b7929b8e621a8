/**
 The code: NewRecoveryCodes, RegenerateRecoveryCodes and RedeemRecoveryCode inside WithAuthUser, as methods on a
 shared database with other connections free to run between any two steps.
 */
module RecoveryProgram {
  import opened Identifiers
  import opened Options
  import opened RecoveryCodes
  import opened RecoveryHistory

  const RECOVERY_CODE_COUNT := 10

  datatype RecoveryCode = RecoveryCode(plaintext: string, hash: Digest)

  /**
   Draws a whole set or fails. `source` is what the random source yields for each draw, None for a failure;
   `encode` and `hash` stand for base32 and for SHA-256.
   */
  method NewRecoveryCodes(source: seq<Option<seq<int>>>, encode: seq<int> -> string, hash: string -> Digest)
    returns (codes: Option<seq<RecoveryCode>>)
    requires |source| >= 10
    ensures codes.Some? <==> forall k | 0 <= k < 10 :: source[k].Some?
    ensures codes.Some? ==>
              && |codes.value| == 10
              && forall k | 0 <= k < 10 ::
                   && codes.value[k].plaintext == encode(source[k].value)
                   && codes.value[k].hash == hash(codes.value[k].plaintext)
  {
    var drawn: seq<RecoveryCode> := [];
    for i := 0 to RECOVERY_CODE_COUNT
      invariant |drawn| == i
      invariant forall k | 0 <= k < i ::
                  && source[k].Some?
                  && drawn[k].plaintext == encode(source[k].value)
                  && drawn[k].hash == hash(drawn[k].plaintext)
    {
      if source[i].None? {
        return None;
      }
      var plaintext := encode(source[i].value);
      drawn := drawn + [RecoveryCode(plaintext, hash(plaintext))];
    }
    return Some(drawn);
  }

  datatype Weather = Weather(others: seq<Action>, id: Uuid, fault: bool)

  const CALM := Weather([], 0, false)

  function At(weather: seq<Weather>, k: nat): Weather {
    if k < |weather| then weather[k] else CALM
  }

  /** Nobody else runs and nothing fails. */
  predicate Still(w: Weather) {
    w.others == [] && !w.fault
  }

  predicate Calm(weather: seq<Weather>) {
    forall k | 0 <= k < |weather| :: Still(weather[k])
  }

  /** No other transaction holds a row. */
  ghost predicate Unheld(s: State, t: TxId) {
    forall u | u in s.txs && u != t :: s.txs[u].puts == map[] && s.txs[u].dels == {}
  }

  class RecoveryDatabase {
    var state: State
    ghost var log: seq<Action>

    ghost predicate Valid()
      reads this
    {
      Runnable(log) && state == Exec(log)
    }

    constructor ()
      ensures Valid() && log == [] && state == START
    {
      state := START;
      log := [];
    }

    /** The transaction is `before` except for its phase and its uncommitted work. */
    ghost predicate Inside(t: TxId, before: Tx)
      reads this
    {
      && Valid() && t in state.txs
      && state.txs[t].op == before.op && state.txs[t].scope == before.scope
    }

    /** Since then only this transaction has moved, and it has not committed. */
    ghost predicate Alone(t: TxId, before: State)
      reads this
    {
      state.db == before.db && t in state.txs && state.txs == before.txs[t := state.txs[t]]
    }

    method Perform(a: Action)
      requires Valid() && Enabled(state, a)
      modifies this
      ensures Valid() && log == old(log) + [a] && state == Next(old(state), a)
    {
      state := Next(state, a);
      log := log + [a];
      assert log[..|log| - 1] == old(log);
    }

    method Interfere(t: TxId, others: seq<Action>)
      requires Valid()
      modifies this
      ensures Valid() && old(log) <= log
      ensures t in state.txs <==> t in old(state.txs)
      ensures t in state.txs ==> state.txs[t] == old(state).txs[t]
      ensures others == [] ==> state == old(state)
    {
      for k := 0 to |others|
        invariant others == [] ==> state == old(state)
        invariant Valid() && old(log) <= log
        invariant t in state.txs <==> t in old(state.txs)
        invariant t in state.txs ==> state.txs[t] == old(state).txs[t]
      {
        if others[k].tx != t && Enabled(state, others[k]) {
          Perform(others[k]);
        }
      }
    }

    method Fail(t: TxId)
      requires Valid() && t in state.txs && Active(state.txs[t])
      modifies this
      ensures Inside(t, old(state).txs[t]) && state.txs[t].pc == Failing && old(log) <= log
      ensures Alone(t, old(state)) && state.drawn == old(state).drawn
      ensures state.txs[t] == old(state).txs[t].(pc := Failing)
    {
      if state.txs[t].pc != Failing {
        Perform(Fault(t));
      }
    }

    /** A statement begun in `started` is being carried out with nobody else at work. */
    ghost predicate InStep(t: TxId, started: State)
      reads this
    {
      && t in started.txs && Alone(t, started) && Unheld(state, t) && state.drawn == started.drawn
      && state.txs[t].pc.Touching?
      && Handled(started.db, started.txs[t], state.txs[t])
    }

    /** The snapshot of a statement: its candidate rows. */
    method ScanRows(t: TxId)
      requires Valid() && t in state.txs && state.txs[t].pc == Scanning
      modifies this
      ensures Inside(t, old(state).txs[t]) && old(log) <= log && state.txs[t].pc.Touching?
      ensures Unheld(old(state), t) ==> InStep(t, old(state))
    {
      NothingHeldYet(log, t);
      Perform(Scan(t));
    }

    method TakeRow(t: TxId, id: Uuid, ghost started: State)
      requires Valid() && Enabled(state, Touch(t, id))
      modifies this
      ensures Inside(t, old(state).txs[t]) && old(log) <= log
      ensures state.txs[t].pc.Touching? && state.txs[t].pc.candidates == old(state).txs[t].pc.candidates - {id}
      ensures old(InStep(t, started)) ==> InStep(t, started)
    {
      if InStep(t, started) {
        OneMoreHandled(started.db, started.txs[t], state.txs[t], id);
      }
      Perform(Touch(t, id));
    }

    /** Visits one candidate row, or gives up on it. */
    method VisitRow(t: TxId, w: Weather, ghost started: State) returns (err: bool)
      requires Valid() && t in state.txs && state.txs[t].pc.Touching? && state.txs[t].pc.candidates != {}
      modifies this
      ensures Inside(t, old(state).txs[t]) && old(log) <= log
      ensures err ==> state.txs[t].pc == Failing
      ensures !err ==> state.txs[t].pc.Touching?
                       && |state.txs[t].pc.candidates| < |old(state).txs[t].pc.candidates|
      ensures w.fault ==> err
      ensures err && !w.fault ==> exists id | id in old(state).txs[t].pc.candidates :: !RowUnlocked(state, t, id)
      ensures Still(w) && old(InStep(t, started)) ==> !err && InStep(t, started)
    {
      Interfere(t, w.others);
      var id :| id in state.txs[t].pc.candidates;
      err := w.fault || !RowUnlocked(state, t, id);
      if err {
        ghost var interfered := state;
        Fail(t);
        HeldByAnother(interfered, state, t, id);
      } else {
        TakeRow(t, id, started);
      }
    }

    method CompleteStatement(t: TxId, ghost started: State) returns (affected: nat)
      requires Valid() && t in state.txs && state.txs[t].pc.Touching? && state.txs[t].pc.candidates == {}
      modifies this
      ensures Inside(t, old(state).txs[t]) && old(log) <= log
      ensures state.txs[t].pc ==
              (if state.txs[t].op.Regenerate? then Inserting(0)
               else if affected == 0 then Failing
               else Returned)
      ensures old(InStep(t, started)) ==> AllTaken(t, started, affected)
    {
      affected := state.txs[t].pc.affected;
      Perform(Finish(t));
    }

    /** A statement begun in `started` is done, with nobody else at work: it took every row its WHERE clause names. */
    ghost predicate AllTaken(t: TxId, started: State, affected: nat)
      reads this
    {
      && t in started.txs && Alone(t, started) && Unheld(state, t) && state.drawn == started.drawn
      && (affected == 0 <==> Candidates(started.db, started.txs[t]) == {})
      && (state.txs[t].op.Regenerate? ==> state.txs[t].dels == Candidates(started.db, started.txs[t]))
    }

    /** The UPDATE of a redemption or the DELETE of a regeneration; a wait for a row may be cut short. */
    method ExecStatement(t: TxId, weather: seq<Weather>) returns (affected: nat, err: bool)
      requires Valid() && t in state.txs && state.txs[t].pc == Scanning
      modifies this
      ensures Inside(t, old(state).txs[t]) && old(log) <= log
      ensures err ==> state.txs[t].pc == Failing
      ensures !err ==> state.txs[t].pc ==
                       (if state.txs[t].op.Regenerate? then Inserting(0)
                        else if affected == 0 then Failing
                        else Returned)
      ensures Calm(weather) && Unheld(old(state), t) ==> !err && AllTaken(t, old(state), affected)
    {
      ghost var started := state;
      ghost var calm := Calm(weather) && Unheld(state, t);
      affected, err := 0, At(weather, 0).fault;
      Interfere(t, At(weather, 0).others);
      if err {
        Fail(t);
        return;
      }
      ScanRows(t);
      var visited := 0;
      while !err && state.txs[t].pc.candidates != {}
        invariant Inside(t, started.txs[t]) && old(log) <= log
        invariant if err then state.txs[t].pc == Failing else state.txs[t].pc.Touching?
        invariant calm ==> !err && InStep(t, started)
        decreases !err, if err then 0 else |state.txs[t].pc.candidates|
      {
        visited := visited + 1;
        err := VisitRow(t, At(weather, visited), started);
      }
      if !err {
        affected := CompleteStatement(t, started);
      }
    }

    method RedeemRecoveryCode(t: TxId, weather: seq<Weather>) returns (err: bool)
      requires Valid() && t in state.txs && state.txs[t].pc == Scanning && state.txs[t].op.Redeem?
      modifies this
      ensures Inside(t, old(state).txs[t]) && old(log) <= log
      ensures state.txs[t].pc == if err then Failing else Returned
      ensures Calm(weather) && Unheld(old(state), t) ==>
                (err <==> Candidates(old(state).db, old(state).txs[t]) == {})
    {
      var affected;
      affected, err := ExecStatement(t, weather);
      if !err && affected == 0 {
        err := true;
      }
    }

    method InsertRecoveryCode(t: TxId, hash: Digest, w: Weather) returns (err: bool)
      requires Valid() && t in state.txs && state.txs[t].pc.Inserting? && state.txs[t].op.Regenerate?
      requires state.txs[t].pc.next < |state.txs[t].op.codes| && state.txs[t].op.codes[state.txs[t].pc.next] == hash
      modifies this
      ensures Inside(t, old(state).txs[t]) && old(log) <= log
      ensures err ==> state.txs[t].pc == Failing
      ensures !err ==>
                var next := old(state).txs[t].pc.next + 1;
                state.txs[t].pc == if next == |state.txs[t].op.codes| then Returned else Inserting(next)
      ensures w.fault ==> err
      ensures err ==> w.fault || !MayInsert(state, t, w.id, hash)
                      || old(state).txs[t].op.user != old(state).txs[t].scope
      ensures w.others == [] ==>
                (err <==> w.fault || !MayInsert(old(state), t, w.id, hash)
                          || old(state).txs[t].op.user != old(state).txs[t].scope)
      ensures w.others == [] && !err ==>
                && Alone(t, old(state)) && state.drawn == old(state).drawn + {w.id}
                && state.txs[t].dels == old(state).txs[t].dels
    {
      Interfere(t, w.others);
      if w.fault || !MayInsert(state, t, w.id, hash) {
        ghost var interfered := state;
        Fail(t);
        InsertableForAll(interfered, state, t, w.id, hash);
        return true;
      }
      err := state.txs[t].op.user != state.txs[t].scope;
      Perform(Insert(t, w.id, hash));
    }

    method RegenerateRecoveryCodes(t: TxId, codes: seq<Digest>, deleting: seq<Weather>, inserting: seq<Weather>)
      returns (err: bool)
      requires Valid() && t in state.txs && state.txs[t].op.Regenerate? && state.txs[t].op.codes == codes
      requires state.txs[t].pc == if |codes| == 0 then Failing else Scanning
      modifies this
      ensures Inside(t, old(state).txs[t]) && old(log) <= log
      ensures state.txs[t].pc == if err then Failing else Returned
      ensures |codes| == 0 ==> err && log == old(log)
      ensures |codes| > 0 && Calm(deleting) && Calm(inserting)
              && old(state.txs[t].op.user == state.txs[t].scope && Storable(state, t, codes, inserting)) ==>
                !err && state.db == old(state).db && state.txs[t].dels == IdsOf(state.db, state.txs[t].op.user)
    {
      if |codes| == 0 {
        return true;
      }
      var deleted, failed := ExecStatement(t, deleting);
      if failed {
        return true;
      }
      ghost var calm := Calm(deleting) && old(Storable(state, t, codes, inserting))
                        && state.txs[t].op.user == state.txs[t].scope;
      if calm {
        UnderwayAfterDelete(old(state), state, t, codes, inserting);
      }
      err := InsertAll(t, codes, inserting);
    }

    method InsertAll(t: TxId, codes: seq<Digest>, inserting: seq<Weather>) returns (err: bool)
      requires Valid() && t in state.txs && state.txs[t].op.Regenerate? && state.txs[t].op.codes == codes
      requires |codes| > 0 && state.txs[t].pc == Inserting(0)
      modifies this
      ensures Inside(t, old(state).txs[t]) && old(log) <= log
      ensures state.txs[t].pc == if err then Failing else Returned
      ensures Calm(inserting) && old(state.txs[t].op.user == state.txs[t].scope)
              && Underway(old(state), t, codes, inserting, 0) ==>
                !err && state.db == old(state).db && state.txs[t].dels == IdsOf(state.db, state.txs[t].op.user)
    {
      ghost var before := state.txs[t];
      ghost var calm := Calm(inserting) && before.op.user == before.scope && Underway(state, t, codes, inserting, 0);
      for k := 0 to |codes|
        invariant Inside(t, before) && old(log) <= log
        invariant state.txs[t].pc == if k == |codes| then Returned else Inserting(k)
        invariant calm ==> state.db == old(state).db && Underway(state, t, codes, inserting, k)
      {
        if calm {
          MayInsertNext(log, t, codes, inserting, k);
        }
        var failed := InsertRecoveryCode(t, codes[k], At(inserting, k));
        if failed {
          return true;
        }
      }
      return false;
    }

    /** The start of WithAuthUser: the nil user is refused at once; then BEGIN and the scope, each of which may fail. */
    method Open(t: TxId, scope: Uuid, op: Op, w: Weather) returns (ok: bool)
      requires Valid() && t !in state.txs
      modifies this
      ensures Valid() && old(log) <= log && (scope == NIL_UUID ==> log == old(log))
      ensures ok <==> scope != NIL_UUID && !w.fault
      ensures !ok ==> t !in state.txs
      ensures ok ==>
                && t in state.txs
                && state.txs[t]
                   == Tx(scope, op, if op.Regenerate? && |op.codes| == 0 then Failing else Scanning, map[], {})
      ensures ok && w.others == [] ==>
                state == State(old(state).db, old(state).txs[t := state.txs[t]], old(state).drawn)
    {
      if scope == NIL_UUID {
        return false;
      }
      Interfere(t, w.others);
      if w.fault {
        return false;
      }
      Perform(Begin(t, scope, op));
      return true;
    }

    /** The end of WithAuthUser: commit on nil, roll back on an error of the callback or of the commit. */
    method Conclude(t: TxId, failed: bool, w: Weather) returns (err: bool)
      requires Valid() && t in state.txs && state.txs[t].pc == if failed then Failing else Returned
      modifies this
      ensures Inside(t, old(state).txs[t]) && old(log) <= log
      ensures state.txs[t].pc == if err then RolledBack else Committed
      ensures !err ==> !failed && |log| > |old(log)| && log[|log| - 1] == Commit(t)
      ensures err <==> failed || w.fault
      ensures w.others == [] && !err ==> ReplacedIfCleared(old(state), t, state.db)
    {
      Interfere(t, w.others);
      err := failed || w.fault;
      if err {
        Fail(t);
        Perform(Rollback(t));
      } else {
        ReplacesWhenAllDeleted(log, t);
        Perform(Commit(t));
      }
    }

    /** WithAuthUser around either operation: commit on nil, roll back on an error of the callback or of the commit. */
    method WithAuthUser(t: TxId, scope: Uuid, op: Op, atBegin: Weather, deleting: seq<Weather>,
                        inserting: seq<Weather>, atCommit: Weather)
      returns (err: bool)
      requires Valid() && t !in state.txs
      modifies this
      ensures Valid() && old(log) <= log
      ensures scope == NIL_UUID ==> err && log == old(log)
      ensures !err ==> t in state.txs && state.txs[t].op == op && state.txs[t].scope == scope
      ensures !err ==> |log| > |old(log)| && log[|log| - 1] == Commit(t) && state.txs[t].pc == Committed
      ensures err ==> t !in state.txs || state.txs[t].pc == RolledBack
      ensures err ==> ChangedNothing(log, t)
      ensures atBegin.fault || atCommit.fault || (op.Regenerate? && |op.codes| == 0) ==> err
      ensures op.Redeem? && scope != NIL_UUID && Still(atBegin) && Calm(deleting) && Unheld(old(state), t) ==>
                (err <==> atCommit.fault
                          || forall i | i in old(state).db :: old(state).db[i] != Code(scope, op.hash, false))
      ensures op.Regenerate? && op.user == scope && scope != NIL_UUID && |op.codes| > 0 && Still(atBegin)
              && Calm(deleting) && Calm(inserting) && Storable(old(state), t, op.codes, inserting) ==>
                && (err <==> atCommit.fault)
                && (Still(atCommit) ==> HoldsExactly(state.db, op.user, op.codes))
    {
      var ok := Open(t, scope, op, atBegin);
      if !ok {
        AbortedChangesNothing(log, t);
        return true;
      }
      var failed;
      if op.Redeem? {
        NothingToSpend(state.db, state.txs[t]);
        failed := RedeemRecoveryCode(t, deleting);
      } else {
        if Still(atBegin) {
          StorableAfterBegin(old(state), state, t, op.codes, inserting);
        }
        failed := RegenerateRecoveryCodes(t, op.codes, deleting, inserting);
      }
      err := Conclude(t, failed, atCommit);
      if err {
        AbortedChangesNothing(log, t);
      }
    }

    /**
     An accepted code was stored unused for this user at one moment during the call, and was spent at that moment.
     With nobody else at work and nothing failing up to the commit, every stored unused code is accepted if it commits.
     */
    method Redeem(t: TxId, scope: Uuid, hash: Digest, atBegin: Weather, weather: seq<Weather>, atCommit: Weather)
      returns (accepted: bool)
      requires Valid() && t !in state.txs
      modifies this
      ensures Valid() && old(log) <= log
      ensures accepted ==> |log| > |old(log)| && SpentAtLastStep(log, scope, hash)
      ensures !accepted ==> ChangedNothing(log, t) && (t !in state.txs || state.txs[t].pc == RolledBack)
      ensures scope != NIL_UUID && Still(atBegin) && Calm(weather) && Unheld(old(state), t) ==>
                (accepted <==> !atCommit.fault
                               && exists i :: i in old(state).db && old(state).db[i] == Code(scope, hash, false))
    {
      var err := WithAuthUser(t, scope, RecoveryCodes.Op.Redeem(hash), atBegin, weather, [], atCommit);
      accepted := !err;
      if accepted {
        SpentWhenCommitted(log, t);
      }
    }
  }

  lemma HeldByAnother(before: State, after: State, t: TxId, id: Uuid)
    requires t in before.txs && t in after.txs && after.txs == before.txs[t := after.txs[t]]
    ensures RowUnlocked(after, t, id) <==> RowUnlocked(before, t, id)
  {
    assert forall u | u in before.txs && u != t :: after.txs[u] == before.txs[u];
    assert forall u | u in after.txs && u != t :: before.txs[u] == after.txs[u];
  }

  lemma InsertableForAll(before: State, after: State, t: TxId, id: Uuid, hash: Digest)
    requires t in before.txs && t in after.txs && after.db == before.db && after.drawn == before.drawn
    requires after.txs == before.txs[t := after.txs[t]]
    requires after.txs[t].puts == before.txs[t].puts && after.txs[t].dels == before.txs[t].dels
    ensures MayInsert(after, t, id, hash) <==> MayInsert(before, t, id, hash)
  {
    assert forall u | u in before.txs :: after.txs[u].puts == before.txs[u].puts;
    assert forall u | u in after.txs :: before.txs[u].puts == after.txs[u].puts;
  }

  /** The statement holds exactly the rows its scan found and it has visited; the rest are ahead of it. */
  ghost predicate Handled(db: Table, scanned: Tx, tx: Tx)
    requires tx.pc.Touching?
  {
    && scanned.op == tx.op && scanned.scope == tx.scope
    && tx.pc.candidates <= Candidates(db, scanned)
    && (if tx.op.Redeem? then tx.dels == {} else tx.puts == map[])
    && tx.puts.Keys + tx.dels == Candidates(db, scanned) - tx.pc.candidates
    && (tx.pc.affected > 0 <==> Candidates(db, scanned) - tx.pc.candidates != {})
  }

  lemma OneMoreHandled(db: Table, scanned: Tx, tx: Tx, id: Uuid)
    requires tx.pc.Touching? && Handled(db, scanned, tx) && id in tx.pc.candidates
    ensures Handled(db, scanned, TouchRow(db, tx, id))
  {
    var after := TouchRow(db, tx, id);
    assert !Holds(tx, id);
    assert after.puts.Keys + after.dels == tx.puts.Keys + tx.dels + {id};
    assert id in Candidates(db, scanned) - after.pc.candidates;
  }

  /** New ids and new codes for every insert, none of them twice, and nobody else holds a row. */
  ghost predicate Storable(s: State, t: TxId, codes: seq<Digest>, inserting: seq<Weather>) {
    && Unheld(s, t)
    && |codes| <= |inserting|
    && (forall j, k | 0 <= j < k < |codes| :: codes[j] != codes[k] && inserting[j].id != inserting[k].id)
    && (forall j | 0 <= j < |codes| :: inserting[j].id !in s.drawn)
    && forall i | i in s.db :: s.db[i].hash !in codes
  }

  /** The user's old rows are deleted and the first `k` codes inserted. */
  ghost predicate Underway(s: State, t: TxId, codes: seq<Digest>, inserting: seq<Weather>, k: nat) {
    && t in s.txs && s.txs[t].op.Regenerate? && s.txs[t].dels == IdsOf(s.db, s.txs[t].op.user)
    && Unheld(s, t)
    && k <= |codes| <= |inserting|
    && (forall j, l | 0 <= j < l < |codes| :: codes[j] != codes[l] && inserting[j].id != inserting[l].id)
    && (forall j | k <= j < |codes| :: inserting[j].id !in s.drawn)
    && forall i | i in s.db :: s.db[i].hash !in codes
  }

  lemma StorableAfterBegin(before: State, after: State, t: TxId, codes: seq<Digest>, inserting: seq<Weather>)
    requires after.db == before.db && after.drawn == before.drawn
    requires t in after.txs && after.txs == before.txs[t := after.txs[t]]
    ensures Storable(before, t, codes, inserting) ==> Storable(after, t, codes, inserting)
  {
  }

  lemma UnderwayAfterDelete(before: State, after: State, t: TxId, codes: seq<Digest>, inserting: seq<Weather>)
    requires t in before.txs && before.txs[t].op.Regenerate? && before.txs[t].op.user == before.txs[t].scope
    requires Storable(before, t, codes, inserting)
    requires after.db == before.db && after.drawn == before.drawn && Unheld(after, t) && t in after.txs
    requires after.txs[t].op == before.txs[t].op && after.txs[t].dels == Candidates(before.db, before.txs[t])
    ensures Underway(after, t, codes, inserting, 0)
  {
    assert Candidates(before.db, before.txs[t]) == IdsOf(before.db, before.txs[t].op.user);
  }

  lemma MayInsertNext(log: seq<Action>, t: TxId, codes: seq<Digest>, inserting: seq<Weather>, k: nat)
    requires Runnable(log) && Underway(Exec(log), t, codes, inserting, k) && k < |codes|
    requires Exec(log).txs[t].op.codes == codes && Exec(log).txs[t].pc == Inserting(k)
    ensures MayInsert(Exec(log), t, inserting[k].id, codes[k])
  {
    RunKeepsInv(log);
    InsertIsPossible(Exec(log), t, codes, inserting, k);
  }

  lemma InsertIsPossible(s: State, t: TxId, codes: seq<Digest>, inserting: seq<Weather>, k: nat)
    requires Underway(s, t, codes, inserting, k) && k < |codes|
    requires s.txs[t].op.codes == codes && s.txs[t].pc == Inserting(k) && TxOk(s.db, s.txs[t])
    ensures MayInsert(s, t, inserting[k].id, codes[k])
  {
    CodeNotYetWritten(s.db, s.txs[t], k);
  }

  lemma CodeNotYetWritten(db: Table, tx: Tx, k: nat)
    requires TxOk(db, tx) && tx.op.Regenerate? && tx.pc == Inserting(k) && k < |tx.op.codes|
    requires forall j | 0 <= j < k :: tx.op.codes[j] != tx.op.codes[k]
    ensures forall i | i in tx.puts :: tx.puts[i].hash != tx.op.codes[k]
  {
    forall i | i in tx.puts ensures tx.puts[i].hash != tx.op.codes[k] {
      assert tx.puts[i].hash in tx.op.codes[..k];
    }
  }

  /** If t is a regeneration that has deleted every row of its user, `after` holds exactly its codes, unused. */
  ghost predicate ReplacedIfCleared(s: State, t: TxId, after: Table)
    requires t in s.txs
  {
    s.txs[t].op.Regenerate? && s.txs[t].dels == IdsOf(s.db, s.txs[t].op.user) ==>
      HoldsExactly(after, s.txs[t].op.user, s.txs[t].op.codes)
  }

  lemma ReplacesWhenAllDeleted(log: seq<Action>, t: TxId)
    requires Runnable(log) && Enabled(Exec(log), Commit(t))
    ensures ReplacedIfCleared(Exec(log), t, Next(Exec(log), Commit(t)).db)
  {
    RunKeepsInv(log);
    if Exec(log).txs[t].op.Regenerate? {
      ExactWhenAllDeleted(Exec(log), t);
      UnusedWhenAllDeleted(Exec(log), t);
    }
  }

  lemma NothingHeldYet(log: seq<Action>, t: TxId)
    requires Runnable(log) && t in Exec(log).txs && Exec(log).txs[t].pc == Scanning
    ensures Exec(log).txs[t].puts == map[] && Exec(log).txs[t].dels == {}
  {
    RunKeepsInv(log);
    assert TxOk(Exec(log).db, Exec(log).txs[t]);
  }

  lemma NothingToSpend(db: Table, tx: Tx)
    requires tx.op.Redeem?
    ensures Candidates(db, tx) == {} <==> forall i | i in db :: db[i] != Code(tx.scope, tx.op.hash, false)
  {
    if Candidates(db, tx) == {} {
      forall i | i in db ensures db[i] != Code(tx.scope, tx.op.hash, false) {
        assert i !in Candidates(db, tx);
      }
    }
  }

  ghost predicate SpendsRow(before: Table, after: Table, scope: Uuid, hash: Digest, i: Uuid) {
    && i in before && before[i] == Code(scope, hash, false)
    && after == before[i := Code(scope, hash, true)]
  }

  ghost predicate Spends(before: Table, after: Table, scope: Uuid, hash: Digest) {
    exists i :: SpendsRow(before, after, scope, hash, i)
  }

  lemma SpentWhenCommitted(log: seq<Action>, t: TxId)
    requires Runnable(log) && |log| > 0 && log[|log| - 1] == Commit(t)
    requires t in Exec(log).txs && Exec(log).txs[t].op.Redeem?
    ensures SpentAtLastStep(log, Exec(log).txs[t].scope, Exec(log).txs[t].op.hash)
  {
    var last := |log| - 1;
    assert log[..|log|] == log;
    StepAt(log, last);
    InvAt(log, last);
    var i := RedeemedRow(StateAt(log, last), t);
    assert SpendsRow(StateAt(log, last).db, Exec(log).db, Exec(log).txs[t].scope, Exec(log).txs[t].op.hash, i);
  }

  ghost predicate SpentAtLastStep(log: seq<Action>, scope: Uuid, hash: Digest) {
    && Runnable(log) && |log| > 0
    && Spends(StateAt(log, |log| - 1).db, Exec(log).db, scope, hash)
  }
}

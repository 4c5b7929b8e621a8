/** Single use, and what a regeneration leaves behind, over whole runs. */
module RecoveryHistory {
  import opened Identifiers
  import opened Options
  import opened RecoveryCodes

  // ---- Indexing a run ----

  lemma {:induction false} PrefixRunnable(run: seq<Action>, k: nat)
    requires Runnable(run) && k <= |run|
    ensures Runnable(run[..k])
  {
    if k == |run| {
      assert run[..k] == run;
    } else {
      var before := run[..|run| - 1];
      PrefixRunnable(before, k);
      assert before[..k] == run[..k];
    }
  }

  ghost function StateAt(run: seq<Action>, k: nat): State
    requires Runnable(run) && k <= |run|
  {
    PrefixRunnable(run, k);
    Exec(run[..k])
  }

  lemma StepAt(run: seq<Action>, k: nat)
    requires Runnable(run) && k < |run|
    ensures Enabled(StateAt(run, k), run[k]) && StateAt(run, k + 1) == Next(StateAt(run, k), run[k])
  {
    PrefixRunnable(run, k + 1);
    var prefix := run[..k + 1];
    assert prefix[..|prefix| - 1] == run[..k];
  }

  lemma InvAt(run: seq<Action>, k: nat)
    requires Runnable(run) && k <= |run|
    ensures Inv(StateAt(run, k))
  {
    PrefixRunnable(run, k);
    RunKeepsInv(run[..k]);
  }

  // ---- Single use ----

  ghost function Issued(run: seq<Action>): set<Digest> {
    set k | 0 <= k < |run| && run[k].Insert? :: run[k].hash
  }

  /** Codes are drawn fresh: no code is ever inserted a second time. */
  ghost predicate NeverReissued(run: seq<Action>) {
    forall j, k | 0 <= j < k < |run| && run[j].Insert? && run[k].Insert? :: run[j].hash != run[k].hash
  }

  ghost predicate AllIssued(issued: set<Digest>, s: State) {
    && (forall i | i in s.db :: s.db[i].hash in issued)
    && (forall t, i | t in s.txs && i in s.txs[t].puts :: s.txs[t].puts[i].hash in issued)
  }

  /** A code whose redemption has committed is stored, if at all, as used, and nobody is about to store it again. */
  ghost predicate SpentFor(issued: set<Digest>, s: State, hash: Digest) {
    && hash in issued
    && (forall i | i in s.db && s.db[i].hash == hash :: s.db[i].used)
    && (forall u, i | u in s.txs && i in s.txs[u].puts && i !in s.db :: s.txs[u].puts[i].hash != hash)
  }

  ghost predicate SpentOk(issued: set<Digest>, s: State) {
    && AllIssued(issued, s)
    && (forall t | t in s.txs && Accepts(s.txs[t]) :: SpentFor(issued, s, s.txs[t].op.hash))
    && (forall t, u | t in s.txs && u in s.txs && t != u && Accepts(s.txs[t]) && Accepts(s.txs[u]) ::
          s.txs[t].op.hash != s.txs[u].op.hash)
  }

  function IssuedNow(issued: set<Digest>, a: Action): set<Digest> {
    if a.Insert? then issued + {a.hash} else issued
  }

  lemma StepIssued(issued: set<Digest>, s: State, a: Action)
    requires Inv(s) && Enabled(s, a) && AllIssued(issued, s)
    ensures AllIssued(IssuedNow(issued, a), Next(s, a))
  {
    var after := Next(s, a);
    if a.tx in s.txs {
      assert TxOk(s.db, s.txs[a.tx]);
    }
    forall t, i | t in after.txs && i in after.txs[t].puts ensures after.txs[t].puts[i].hash in IssuedNow(issued, a) {
      if t in s.txs && i in s.txs[t].puts {
        assert s.txs[t].puts[i].hash in issued;
      }
    }
  }

  /** The redemption that commits found its code unused and leaves it used, whatever else is going on. */
  lemma RedeemedRow(s: State, t: TxId) returns (i: Uuid)
    requires Inv(s) && Enabled(s, Commit(t)) && s.txs[t].op.Redeem?
    ensures i in s.txs[t].puts && i in s.db
    ensures s.db[i].hash == s.txs[t].op.hash && !s.db[i].used && s.db[i].user == s.txs[t].scope
    ensures Next(s, Commit(t)).db == s.db[i := s.db[i].(used := true)]
  {
    var tx := s.txs[t];
    assert TxOk(s.db, tx);
    i :| i in tx.puts;
    forall j | j in tx.puts ensures j == i {
      assert s.db[j].hash == s.db[i].hash;
    }
  }

  /** Nobody is about to insert a code again while a redemption of it holds its row. */
  lemma HeldCodeNotReinserted(s: State, t: TxId, i: Uuid, u: TxId, j: Uuid)
    requires Inv(s) && t in s.txs && u in s.txs && t != u && i in s.txs[t].puts && i in s.db
    requires j in s.txs[u].puts && j !in s.db
    ensures s.txs[u].puts[j].hash != s.db[i].hash
  {
    assert Apart(s.db, s.txs[t], s.txs[u]) && PutsUnique(s.db, s.txs[u]);
    assert Holds(s.txs[t], i);
  }

  lemma SpentByCommit(issued: set<Digest>, s: State, t: TxId)
    requires Inv(s) && Enabled(s, Commit(t)) && s.txs[t].op.Redeem? && AllIssued(issued, s)
    ensures SpentFor(issued, Next(s, Commit(t)), s.txs[t].op.hash)
  {
    var after := Next(s, Commit(t));
    var hash := s.txs[t].op.hash;
    var i := RedeemedRow(s, t);
    forall u, j | u in after.txs && j in after.txs[u].puts && j !in after.db
      ensures after.txs[u].puts[j].hash != hash
    {
      HeldCodeNotReinserted(s, t, i, u, j);
    }
  }

  lemma NewcomersKept(s: State, a: Action, u: TxId, i: Uuid)
    requires Inv(s) && Enabled(s, a)
    requires u in Next(s, a).txs && i in Next(s, a).txs[u].puts && i !in Next(s, a).db
    ensures u in s.txs
    ensures i !in s.db
    ensures || (i in s.txs[u].puts && s.txs[u].puts[i].hash == Next(s, a).txs[u].puts[i].hash)
            || (a.Insert? && a.tx == u && a.id == i && a.hash == Next(s, a).txs[u].puts[i].hash)
  {
    assert u in s.txs && TxOk(s.db, s.txs[u]);
    if a.Commit? && u != a.tx {
      HeldRowsKept(s, a.tx, u, i);
    }
  }

  lemma SpentRowsKept(issued: set<Digest>, s: State, a: Action, hash: Digest, i: Uuid)
    requires Inv(s) && Enabled(s, a) && SpentFor(issued, s, hash)
    requires i in Next(s, a).db && Next(s, a).db[i].hash == hash
    ensures Next(s, a).db[i].used
  {
    if a.Commit? {
      assert TxOk(s.db, s.txs[a.tx]);
    }
  }

  lemma SpentKept(issued: set<Digest>, s: State, a: Action, hash: Digest)
    requires Inv(s) && Enabled(s, a) && SpentFor(issued, s, hash)
    requires a.Insert? ==> a.hash !in issued
    ensures SpentFor(IssuedNow(issued, a), Next(s, a), hash)
  {
    var after := Next(s, a);
    forall i | i in after.db && after.db[i].hash == hash ensures after.db[i].used {
      SpentRowsKept(issued, s, a, hash, i);
    }
    forall u, i | u in after.txs && i in after.txs[u].puts && i !in after.db ensures after.txs[u].puts[i].hash != hash {
      NewcomersKept(s, a, u, i);
    }
  }

  lemma AcceptedStaySpent(issued: set<Digest>, s: State, a: Action, t: TxId)
    requires Inv(s) && Enabled(s, a) && SpentOk(issued, s)
    requires a.Insert? ==> a.hash !in issued
    requires t in Next(s, a).txs && Accepts(Next(s, a).txs[t])
    ensures SpentFor(IssuedNow(issued, a), Next(s, a), Next(s, a).txs[t].op.hash)
  {
    if a == Commit(t) {
      SpentByCommit(issued, s, t);
    } else {
      SpentKept(issued, s, a, Next(s, a).txs[t].op.hash);
    }
  }

  /** An acceptance that does not commit now had committed before. */
  lemma AcceptedBefore(s: State, a: Action, u: TxId)
    requires Enabled(s, a) && a != Commit(u) && u in Next(s, a).txs && Accepts(Next(s, a).txs[u])
    ensures u in s.txs && Accepts(s.txs[u]) && s.txs[u].op == Next(s, a).txs[u].op
  {
  }

  /** A code that is being accepted has never been accepted before. */
  lemma NewlyAccepted(issued: set<Digest>, s: State, t: TxId, u: TxId)
    requires Inv(s) && Enabled(s, Commit(t)) && SpentOk(issued, s) && s.txs[t].op.Redeem?
    requires u in s.txs && Accepts(s.txs[u])
    ensures s.txs[t].op.hash != s.txs[u].op.hash
  {
    var i := RedeemedRow(s, t);
  }

  lemma AcceptedPairApart(issued: set<Digest>, s: State, a: Action, t: TxId, u: TxId)
    requires Inv(s) && Enabled(s, a) && SpentOk(issued, s) && t != u && a != Commit(u)
    requires t in Next(s, a).txs && Accepts(Next(s, a).txs[t])
    requires u in Next(s, a).txs && Accepts(Next(s, a).txs[u])
    ensures Next(s, a).txs[t].op.hash != Next(s, a).txs[u].op.hash
  {
    AcceptedBefore(s, a, u);
    if a == Commit(t) {
      NewlyAccepted(issued, s, t, u);
    } else {
      AcceptedBefore(s, a, t);
    }
  }

  lemma AcceptedStayApart(issued: set<Digest>, s: State, a: Action)
    requires Inv(s) && Enabled(s, a) && SpentOk(issued, s)
    ensures var after := Next(s, a);
            forall t, u | t in after.txs && u in after.txs && t != u ::
              Accepts(after.txs[t]) && Accepts(after.txs[u]) ==> after.txs[t].op.hash != after.txs[u].op.hash
  {
    var after := Next(s, a);
    forall t, u | t in after.txs && u in after.txs && t != u && Accepts(after.txs[t]) && Accepts(after.txs[u])
      ensures after.txs[t].op.hash != after.txs[u].op.hash
    {
      if a == Commit(u) {
        AcceptedPairApart(issued, s, a, u, t);
      } else {
        AcceptedPairApart(issued, s, a, t, u);
      }
    }
  }

  lemma StepKeepsSpent(issued: set<Digest>, s: State, a: Action)
    requires Inv(s) && Enabled(s, a) && SpentOk(issued, s)
    requires a.Insert? ==> a.hash !in issued
    ensures SpentOk(IssuedNow(issued, a), Next(s, a))
  {
    StepIssued(issued, s, a);
    AcceptedStayApart(issued, s, a);
    forall t | t in Next(s, a).txs && Accepts(Next(s, a).txs[t])
      ensures SpentFor(IssuedNow(issued, a), Next(s, a), Next(s, a).txs[t].op.hash)
    {
      AcceptedStaySpent(issued, s, a, t);
    }
  }

  lemma IssuedSoFar(run: seq<Action>)
    requires |run| > 0
    ensures Issued(run) == IssuedNow(Issued(run[..|run| - 1]), run[|run| - 1])
    ensures NeverReissued(run) ==> NeverReissued(run[..|run| - 1])
    ensures NeverReissued(run) && run[|run| - 1].Insert? ==> run[|run| - 1].hash !in Issued(run[..|run| - 1])
  {
    var before, a := run[..|run| - 1], run[|run| - 1];
    assert forall k | 0 <= k < |before| :: before[k] == run[k];
    forall h | h in IssuedNow(Issued(before), a) ensures h in Issued(run) {
      if a.Insert? && h == a.hash {
        assert run[|run| - 1].hash == h;
      } else {
        var k :| 0 <= k < |before| && before[k].Insert? && before[k].hash == h;
        assert run[k].hash == h;
      }
    }
  }

  lemma {:induction false} RunKeepsSpent(run: seq<Action>)
    requires Runnable(run) && NeverReissued(run)
    ensures SpentOk(Issued(run), Exec(run))
  {
    if |run| > 0 {
      var before := run[..|run| - 1];
      var a := run[|run| - 1];
      IssuedSoFar(run);
      RunKeepsSpent(before);
      RunKeepsInv(before);
      StepKeepsSpent(Issued(before), Exec(before), a);
    }
  }

  /** Whatever interleaves, two committed redemptions never accept the same code. */
  lemma CodesAreSingleUse(run: seq<Action>, t: TxId, u: TxId)
    requires Runnable(run) && NeverReissued(run)
    requires t in Exec(run).txs && u in Exec(run).txs && Accepts(Exec(run).txs[t]) && Accepts(Exec(run).txs[u])
    requires Exec(run).txs[t].op == Exec(run).txs[u].op
    ensures t == u
  {
    RunKeepsSpent(run);
  }

  // ---- What a regeneration leaves ----

  function IdsOf(db: Table, user: Uuid): set<Uuid> {
    set i | i in db && db[i].user == user
  }

  function CodesOf(db: Table, user: Uuid): set<Digest> {
    set i | i in db && db[i].user == user :: db[i].hash
  }

  predicate Regenerates(tx: Tx, user: Uuid) {
    tx.op.Regenerate? && tx.op.user == user
  }

  /** Step m commits a regeneration for this user. */
  ghost predicate RegeneratedAt(run: seq<Action>, m: nat, user: Uuid)
    requires Runnable(run) && m < |run|
  {
    run[m].Commit? && run[m].tx in StateAt(run, m).txs && Regenerates(StateAt(run, m).txs[run[m].tx], user)
  }

  /** Only its own regenerations change which codes a user has. */
  lemma QuietStep(s: State, a: Action, user: Uuid)
    requires Inv(s) && Enabled(s, a)
    requires a.Commit? ==> !Regenerates(s.txs[a.tx], user)
    ensures IdsOf(Next(s, a).db, user) == IdsOf(s.db, user)
    ensures CodesOf(Next(s, a).db, user) == CodesOf(s.db, user)
  {
    if a.Commit? {
      var tx := s.txs[a.tx];
      assert TxOk(s.db, tx);
      var after := Next(s, a).db;
      forall i ensures i in after && after[i].user == user <==> i in s.db && s.db[i].user == user {
      }
      forall i | i in s.db && s.db[i].user == user ensures after[i].hash == s.db[i].hash {
      }
      SameCodes(s.db, after, user);
    }
  }

  lemma SameCodes(before: Table, after: Table, user: Uuid)
    requires IdsOf(before, user) == IdsOf(after, user)
    requires forall i | i in IdsOf(before, user) :: after[i].hash == before[i].hash
    ensures CodesOf(before, user) == CodesOf(after, user)
  {
    forall h ensures h in CodesOf(before, user) <==> h in CodesOf(after, user) {
      if h in CodesOf(before, user) {
        var i :| i in before && before[i].user == user && before[i].hash == h;
        assert i in IdsOf(before, user);
        assert after[i].hash == h;
      }
      if h in CodesOf(after, user) {
        var i :| i in after && after[i].user == user && after[i].hash == h;
        assert i in IdsOf(after, user);
        assert before[i].hash == h;
      }
    }
  }

  /** What a regeneration is about to commit: exactly its codes in new rows, and the deletion of old ones. */
  lemma RegenerationWrites(s: State, t: TxId)
    requires Inv(s) && Enabled(s, Commit(t)) && s.txs[t].op.Regenerate?
    ensures s.txs[t].op.user == s.txs[t].scope && |s.txs[t].op.codes| > 0
    ensures forall h :: h in s.txs[t].op.codes <==> exists i :: i in s.txs[t].puts && s.txs[t].puts[i].hash == h
    ensures s.txs[t].dels <= IdsOf(s.db, s.txs[t].op.user)
    ensures forall i | i in s.txs[t].puts ::
              i !in s.db && s.txs[t].puts[i].user == s.txs[t].op.user && !s.txs[t].puts[i].used
  {
    var tx := s.txs[t];
    assert TxOk(s.db, tx);
    var n := |tx.op.codes|;
    assert tx.op.codes[..n] == tx.op.codes;
    forall h ensures h in tx.op.codes <==> exists i :: i in tx.puts && tx.puts[i].hash == h {
      if h in tx.op.codes {
        var k :| 0 <= k < n && tx.op.codes[k] == h;
        var i :| i in tx.puts && tx.puts[i].hash == tx.op.codes[k];
        assert i in tx.puts && tx.puts[i].hash == h;
      }
    }
  }

  /** At its commit a regeneration leaves exactly its codes if and only if it deletes every row the user has. */
  lemma ExactWhenAllDeleted(s: State, t: TxId)
    requires Inv(s) && Enabled(s, Commit(t)) && s.txs[t].op.Regenerate?
    ensures (forall h :: h in CodesOf(Next(s, Commit(t)).db, s.txs[t].op.user) <==> h in s.txs[t].op.codes)
            <==> IdsOf(s.db, s.txs[t].op.user) <= s.txs[t].dels
  {
    var tx := s.txs[t];
    var user: Uuid := tx.op.user;
    var after := Next(s, Commit(t)).db;
    RegenerationWrites(s, t);
    assert PutsUnique(s.db, tx);
    forall h | h in tx.op.codes ensures h in CodesOf(after, user) {
      var i :| i in tx.puts && tx.puts[i].hash == h;
      assert i in after && after[i].user == user && after[i].hash == h;
    }
    forall i | i in after && after[i].user == user ensures i in tx.puts || i in IdsOf(s.db, user) - tx.dels {
    }
    if IdsOf(s.db, user) <= tx.dels {
      forall h | h in CodesOf(after, user) ensures h in tx.op.codes {
        var i :| i in after && after[i].user == user && after[i].hash == h;
        assert i in tx.puts;
      }
    } else {
      var i :| i in IdsOf(s.db, user) && i !in tx.dels;
      assert i in after && after[i].user == user && after[i].hash in CodesOf(after, user);
      forall j | j in tx.puts ensures tx.puts[j].hash != after[i].hash {
      }
      assert after[i].hash !in tx.op.codes;
    }
  }

  /** The user's stored codes are these, and none of them is used. */
  ghost predicate HoldsExactly(db: Table, user: Uuid, codes: seq<Digest>) {
    && (forall h :: h in CodesOf(db, user) <==> h in codes)
    && (forall i | i in IdsOf(db, user) :: !db[i].used)
  }

  lemma UnusedWhenAllDeleted(s: State, t: TxId)
    requires Inv(s) && Enabled(s, Commit(t)) && s.txs[t].op.Regenerate?
    ensures IdsOf(s.db, s.txs[t].op.user) <= s.txs[t].dels ==>
              forall i | i in IdsOf(Next(s, Commit(t)).db, s.txs[t].op.user) :: !Next(s, Commit(t)).db[i].used
  {
    RegenerationWrites(s, t);
    var user: Uuid := s.txs[t].op.user;
    var after := Next(s, Commit(t)).db;
    forall i | i in IdsOf(after, user) ensures i in s.txs[t].puts || i in IdsOf(s.db, user) - s.txs[t].dels {
    }
    if IdsOf(s.db, user) <= s.txs[t].dels {
      assert IdsOf(s.db, user) - s.txs[t].dels == {};
    }
  }

  /** At its commit a regeneration leaves exactly its codes, unused, if and only if it deletes all the user's rows. */
  lemma HoldsExactlyWhenAllDeleted(s: State, t: TxId)
    requires Inv(s) && Enabled(s, Commit(t)) && s.txs[t].op.Regenerate?
    ensures var user, after := s.txs[t].op.user, Next(s, Commit(t)).db;
            && (HoldsExactly(after, user, s.txs[t].op.codes) <==> IdsOf(s.db, user) <= s.txs[t].dels)
            && ((forall h :: h in CodesOf(after, user) <==> h in s.txs[t].op.codes)
                <==> IdsOf(s.db, user) <= s.txs[t].dels)
  {
    ExactWhenAllDeleted(s, t);
    UnusedWhenAllDeleted(s, t);
  }

  /**
   A regeneration that scanned when the user had the rows `base`: it deletes no others, it deletes or will delete
   all of them that are still there, and every row not yet committed is new to `base`.
   */
  ghost predicate Clearing(s: State, t: TxId, base: set<Uuid>) {
    && t in s.txs
    && var tx := s.txs[t];
       var ahead := if tx.pc.Touching? then tx.pc.candidates else {};
       && tx.op.Regenerate? && tx.op.user == tx.scope
       && tx.pc != Scanning
       && base <= s.drawn
       && tx.dels + ahead <= base
       && (tx.pc.Touching? || tx.pc.Inserting? || tx.pc == Returned ==>
             IdsOf(s.db, tx.op.user) * base <= tx.dels + ahead)
       && forall u, i | u in s.txs && i in s.txs[u].puts && i !in s.db :: i !in base
  }

  lemma ClearingStarts(s: State, t: TxId)
    requires Inv(s) && Enabled(s, Scan(t)) && s.txs[t].op.Regenerate? && s.txs[t].op.user == s.txs[t].scope
    ensures Clearing(Next(s, Scan(t)), t, IdsOf(s.db, s.txs[t].op.user))
  {
    assert TxOk(s.db, s.txs[t]);
    assert Candidates(s.db, s.txs[t]) == IdsOf(s.db, s.txs[t].op.user);
  }

  lemma ClearingNewcomers(s: State, a: Action, t: TxId, base: set<Uuid>)
    requires Inv(s) && Enabled(s, a) && Clearing(s, t, base)
    ensures forall u, i | u in Next(s, a).txs && i in Next(s, a).txs[u].puts && i !in Next(s, a).db :: i !in base
  {
    var after := Next(s, a);
    forall u, i | u in after.txs && i in after.txs[u].puts && i !in after.db ensures i !in base {
      NewcomersKept(s, a, u, i);
    }
  }

  /** No commit brings a row of `base` back. */
  lemma BaseOnlyShrinks(s: State, a: Action, t: TxId, base: set<Uuid>, user: Uuid)
    requires Inv(s) && Enabled(s, a) && Clearing(s, t, base)
    ensures IdsOf(Next(s, a).db, user) * base <= IdsOf(s.db, user) * base
  {
    if a.Commit? {
      assert TxOk(s.db, s.txs[a.tx]);
    }
  }

  lemma ClearingOwnStep(s: State, a: Action, base: set<Uuid>)
    requires Inv(s) && Enabled(s, a) && Clearing(s, a.tx, base) && !a.Commit?
    ensures Clearing(Next(s, a), a.tx, base)
  {
    var tx := s.txs[a.tx];
    assert TxOk(s.db, tx);
    ClearingNewcomers(s, a, a.tx, base);
  }

  lemma ClearingStep(s: State, a: Action, t: TxId, base: set<Uuid>)
    requires Inv(s) && Enabled(s, a) && Clearing(s, t, base) && a != Commit(t)
    ensures Clearing(Next(s, a), t, base)
  {
    if a.tx == t {
      ClearingOwnStep(s, a, base);
    } else {
      ClearingNewcomers(s, a, t, base);
      BaseOnlyShrinks(s, a, t, base, s.txs[t].op.user);
    }
  }

  /** The user has a row that was not there at the scan. */
  ghost predicate HasForeign(db: Table, user: Uuid, base: set<Uuid>) {
    exists i :: i in IdsOf(db, user) && i !in base
  }

  lemma RegenerationIsForeign(s: State, a: Action, t: TxId, base: set<Uuid>, user: Uuid)
    requires Inv(s) && Enabled(s, a) && Clearing(s, t, base)
    requires a.Commit? && Regenerates(s.txs[a.tx], user)
    ensures HasForeign(Next(s, a).db, user, base)
  {
    var i := WritesSomething(s, a.tx);
    assert i in IdsOf(Next(s, a).db, user);
  }

  lemma WritesSomething(s: State, t: TxId) returns (i: Uuid)
    requires Inv(s) && Enabled(s, Commit(t)) && s.txs[t].op.Regenerate?
    ensures i in s.txs[t].puts && i !in s.db
    ensures i in IdsOf(Next(s, Commit(t)).db, s.txs[t].op.user)
  {
    RegenerationWrites(s, t);
    var tx := s.txs[t];
    var h := tx.op.codes[0];
    assert h in tx.op.codes;
    i :| i in tx.puts && tx.puts[i].hash == h;
  }

  /** Some regeneration of this user commits strictly between the two steps. */
  ghost predicate RegeneratedBetween(run: seq<Action>, i: nat, m: nat, user: Uuid)
    requires Runnable(run) && m <= |run|
  {
    exists k :: i < k < m && RegeneratedAt(run, k, user)
  }

  lemma OneStepFurther(run: seq<Action>, i: nat, m: nat, user: Uuid)
    requires Runnable(run) && i < m < |run|
    ensures RegeneratedBetween(run, i, m + 1, user)
            <==> RegeneratedBetween(run, i, m, user) || RegeneratedAt(run, m, user)
  {
    if RegeneratedBetween(run, i, m + 1, user) {
      var k :| i < k < m + 1 && RegeneratedAt(run, k, user);
      assert k < m ==> RegeneratedBetween(run, i, m, user);
    }
    if RegeneratedBetween(run, i, m, user) {
      var k :| i < k < m && RegeneratedAt(run, k, user);
      assert i < k < m + 1;
    }
  }

  /** The user's rows are those of the scan, unless another regeneration has committed since. */
  ghost predicate Window(s: State, t: TxId, user: Uuid, base: set<Uuid>, overlapped: bool) {
    && Clearing(s, t, base) && s.txs[t].op.user == user
    && if overlapped then HasForeign(s.db, user, base) else IdsOf(s.db, user) == base
  }

  lemma WindowStep(s: State, a: Action, t: TxId, user: Uuid, base: set<Uuid>, overlapped: bool)
    requires Inv(s) && Enabled(s, a) && Window(s, t, user, base, overlapped) && a != Commit(t)
    ensures Window(Next(s, a), t, user, base, overlapped || (a.Commit? && Regenerates(s.txs[a.tx], user)))
  {
    ClearingStep(s, a, t, base);
    if a.Commit? && Regenerates(s.txs[a.tx], user) {
      RegenerationIsForeign(s, a, t, base, user);
    } else {
      QuietStep(s, a, user);
    }
  }

  lemma WindowOpens(run: seq<Action>, i: nat, t: TxId, user: Uuid)
    requires Runnable(run) && i < |run| && run[i] == Scan(t) && t in StateAt(run, i).txs
    requires Regenerates(StateAt(run, i).txs[t], user) && StateAt(run, i).txs[t].scope == user
    ensures Window(StateAt(run, i + 1), t, user, IdsOf(StateAt(run, i).db, user), false)
  {
    StepAt(run, i);
    InvAt(run, i);
    ClearingStarts(StateAt(run, i), t);
  }

  lemma WindowExtends(run: seq<Action>, m: nat, t: TxId, user: Uuid, base: set<Uuid>, before: bool, after: bool)
    requires Runnable(run) && m < |run| && run[m] != Commit(t)
    requires Window(StateAt(run, m), t, user, base, before)
    requires after <==> before || RegeneratedAt(run, m, user)
    ensures Window(StateAt(run, m + 1), t, user, base, after)
  {
    StepAt(run, m);
    InvAt(run, m);
    WindowStep(StateAt(run, m), run[m], t, user, base, before);
  }

  lemma {:induction false} WindowKept(run: seq<Action>, i: nat, m: nat, t: TxId, user: Uuid, base: set<Uuid>)
    requires Runnable(run) && i < m <= |run| && Window(StateAt(run, i + 1), t, user, base, false)
    requires forall k | i < k < m :: run[k] != Commit(t)
    ensures Window(StateAt(run, m), t, user, base, RegeneratedBetween(run, i, m, user))
  {
    if i + 1 < m {
      WindowKept(run, i, m - 1, t, user, base);
      OneStepFurther(run, i, m - 1, user);
      WindowExtends(run, m - 1, t, user, base,
                    RegeneratedBetween(run, i, m - 1, user), RegeneratedBetween(run, i, m, user));
    }
  }

  lemma CoveredIffNotOverlapped(s: State, t: TxId, user: Uuid, base: set<Uuid>, overlapped: bool)
    requires Window(s, t, user, base, overlapped) && s.txs[t].pc == Returned
    ensures IdsOf(s.db, user) <= s.txs[t].dels <==> !overlapped
  {
    if overlapped {
      var x :| x in IdsOf(s.db, user) && x !in base;
      assert x !in s.txs[t].dels;
    } else {
      assert IdsOf(s.db, user) * base == base;
    }
  }

  lemma WindowAtCommit(run: seq<Action>, i: nat, k: nat, t: TxId, user: Uuid)
    requires Runnable(run) && i < k < |run| && run[i] == Scan(t) && run[k] == Commit(t)
    requires t in StateAt(run, i).txs && Regenerates(StateAt(run, i).txs[t], user)
    ensures Window(StateAt(run, k), t, user, IdsOf(StateAt(run, i).db, user), RegeneratedBetween(run, i, k, user))
  {
    InvAt(run, k);
    StepAt(run, k);
    CommitsOnce(run, i, k, t);
    RegenerationWrites(StateAt(run, k), t);
    WindowOpens(run, i, t, user);
    WindowKept(run, i, k, t, user, IdsOf(StateAt(run, i).db, user));
  }

  /**
   A committed regeneration leaves the user exactly its codes, all of them unused, if and only if no other
   regeneration of that user committed between its DELETE taking its rows and its own commit. Otherwise the user has
   further codes.
   */
  lemma StoredSetIsTheLast(run: seq<Action>, i: nat, k: nat, t: TxId)
    requires Runnable(run) && i < k < |run| && run[i] == Scan(t) && run[k] == Commit(t)
    requires t in StateAt(run, i).txs && StateAt(run, i).txs[t].op.Regenerate?
    ensures var op := StateAt(run, i).txs[t].op;
            && (HoldsExactly(StateAt(run, k + 1).db, op.user, op.codes) <==> !RegeneratedBetween(run, i, k, op.user))
            && ((forall h :: h in CodesOf(StateAt(run, k + 1).db, op.user) <==> h in op.codes)
                <==> !RegeneratedBetween(run, i, k, op.user))
  {
    InvAt(run, k);
    StepAt(run, k);
    CommitsOnce(run, i, k, t);
    var s := StateAt(run, k);
    var user: Uuid := s.txs[t].op.user;
    var base := IdsOf(StateAt(run, i).db, user);
    WindowAtCommit(run, i, k, t, user);
    HoldsExactlyWhenAllDeleted(s, t);
    CoveredIffNotOverlapped(s, t, user, base, RegeneratedBetween(run, i, k, user));
  }

  lemma {:induction false} TxKept(run: seq<Action>, k: nat, m: nat, t: TxId)
    requires Runnable(run) && k <= m <= |run| && t in StateAt(run, k).txs
    ensures t in StateAt(run, m).txs
    ensures StateAt(run, m).txs[t].op == StateAt(run, k).txs[t].op
    ensures StateAt(run, m).txs[t].scope == StateAt(run, k).txs[t].scope
    ensures !Active(StateAt(run, k).txs[t]) ==> StateAt(run, m).txs[t] == StateAt(run, k).txs[t]
  {
    if k < m {
      TxKept(run, k, m - 1, t);
      StepAt(run, m - 1);
    }
  }

  /** A transaction that was rolled back, or that never began, has committed nothing. */
  lemma NeverCommitted(run: seq<Action>, t: TxId)
    requires Runnable(run) && (t in Exec(run).txs ==> Exec(run).txs[t].pc == RolledBack)
    ensures forall k | 0 <= k < |run| && run[k].tx == t :: !run[k].Commit?
  {
    assert run[..|run|] == run;
    forall k | 0 <= k < |run| && run[k].tx == t ensures !run[k].Commit? {
      StepAt(run, k);
      if run[k].Commit? {
        TxKept(run, k + 1, |run|, t);
      }
    }
  }

  /** No step of this transaction changed a committed row. */
  ghost predicate ChangedNothing(run: seq<Action>, t: TxId) {
    && Runnable(run)
    && forall k | 0 <= k < |run| && run[k].tx == t :: StateAt(run, k + 1).db == StateAt(run, k).db
  }

  lemma AbortedChangesNothing(run: seq<Action>, t: TxId)
    requires Runnable(run) && (t in Exec(run).txs ==> Exec(run).txs[t].pc == RolledBack)
    ensures ChangedNothing(run, t)
  {
    NeverCommitted(run, t);
    forall k | 0 <= k < |run| && run[k].tx == t ensures StateAt(run, k + 1).db == StateAt(run, k).db {
      StepAt(run, k);
    }
  }

  lemma NotYetCommitted(run: seq<Action>, m: nat, k: nat, t: TxId)
    requires Runnable(run) && m < k < |run| && run[k] == Commit(t)
    ensures run[m] != Commit(t)
  {
    StepAt(run, m);
    StepAt(run, k);
    if run[m] == Commit(t) {
      TxKept(run, m + 1, k, t);
    }
  }

  lemma CommitsOnce(run: seq<Action>, i: nat, k: nat, t: TxId)
    requires Runnable(run) && i < k < |run| && run[k] == Commit(t) && t in StateAt(run, i).txs
    ensures forall m | i < m < k :: run[m] != Commit(t)
    ensures t in StateAt(run, k).txs && StateAt(run, k).txs[t].op == StateAt(run, i).txs[t].op
    ensures StateAt(run, k).txs[t].scope == StateAt(run, i).txs[t].scope
  {
    TxKept(run, i, k, t);
    forall m | i < m < k ensures run[m] != Commit(t) {
      NotYetCommitted(run, m, k, t);
    }
  }

  /** Between regenerations a user's stored codes stay the same: redemptions use codes, they do not remove them. */
  lemma {:induction false} StoredSetStays(run: seq<Action>, k: nat, m: nat, user: Uuid)
    requires Runnable(run) && k <= m <= |run|
    requires forall j: nat | k <= j < m :: !RegeneratedAt(run, j, user)
    ensures CodesOf(StateAt(run, m).db, user) == CodesOf(StateAt(run, k).db, user)
  {
    if k < m {
      StoredSetStays(run, k, m - 1, user);
      StepAt(run, m - 1);
      InvAt(run, m - 1);
      assert !RegeneratedAt(run, m - 1, user);
      QuietStep(StateAt(run, m - 1), run[m - 1], user);
    }
  }

  // ---- The stored set over a whole run ----

  predicate PastScan(tx: Tx) {
    tx.op.Regenerate? && (tx.pc.Touching? || tx.pc.Inserting? || tx.pc == Returned)
  }

  /** Where the DELETE of a regeneration took its rows. */
  lemma {:induction false} ScanPoint(run: seq<Action>, m: nat, t: TxId) returns (i: nat)
    requires Runnable(run) && m <= |run| && t in StateAt(run, m).txs && PastScan(StateAt(run, m).txs[t])
    ensures i < m && run[i] == Scan(t)
  {
    assert StateAt(run, 0) == START;
    StepAt(run, m - 1);
    if run[m - 1] == Scan(t) {
      i := m - 1;
    } else {
      i := ScanPoint(run, m - 1, t);
    }
  }

  /** The regeneration that commits at step k was overtaken by another one of the same user. */
  ghost predicate Overlapped(run: seq<Action>, k: nat, user: Uuid)
    requires Runnable(run) && k < |run|
  {
    exists i: nat :: i < k && run[i] == Scan(run[k].tx) && RegeneratedBetween(run, i, k, user)
  }

  /** The user's codes at step m are those that the regeneration committed at step k was given. */
  ghost predicate HasCodesOf(run: seq<Action>, m: nat, k: nat, user: Uuid)
    requires Runnable(run) && m <= |run| && k < |run| && RegeneratedAt(run, k, user)
  {
    forall h :: h in CodesOf(StateAt(run, m).db, user) <==> h in StateAt(run, k).txs[run[k].tx].op.codes
  }

  lemma WindowDecides(run: seq<Action>, i: nat, k: nat, user: Uuid)
    requires Runnable(run) && i < k < |run| && RegeneratedAt(run, k, user) && run[i] == Scan(run[k].tx)
    ensures HasCodesOf(run, k + 1, k, user) <==> !RegeneratedBetween(run, i, k, user)
  {
    StepAt(run, i);
    TxKept(run, i, k, run[k].tx);
    StoredSetIsTheLast(run, i, k, run[k].tx);
  }

  lemma CommittedScanned(run: seq<Action>, k: nat, user: Uuid) returns (i: nat)
    requires Runnable(run) && k < |run| && RegeneratedAt(run, k, user)
    ensures i < k && run[i] == Scan(run[k].tx)
  {
    StepAt(run, k);
    i := ScanPoint(run, k, run[k].tx);
  }

  lemma OverlapDecides(run: seq<Action>, k: nat, user: Uuid)
    requires Runnable(run) && k < |run| && RegeneratedAt(run, k, user)
    ensures HasCodesOf(run, k + 1, k, user) <==> !Overlapped(run, k, user)
  {
    if Overlapped(run, k, user) {
      var i: nat :| i < k && run[i] == Scan(run[k].tx) && RegeneratedBetween(run, i, k, user);
      WindowDecides(run, i, k, user);
    } else {
      var i := CommittedScanned(run, k, user);
      WindowDecides(run, i, k, user);
    }
  }

  /** Step k commits the last regeneration of this user before step m. */
  ghost predicate IsLast(run: seq<Action>, m: nat, k: nat, user: Uuid)
    requires Runnable(run) && m <= |run|
  {
    k < m && RegeneratedAt(run, k, user) && forall j | k < j < m :: !RegeneratedAt(run, j, user)
  }

  lemma {:induction false} LastRegeneration(run: seq<Action>, m: nat, user: Uuid) returns (last: Option<nat>)
    requires Runnable(run) && m <= |run|
    ensures last.None? ==> forall j | 0 <= j < m :: !RegeneratedAt(run, j, user)
    ensures last.Some? ==> IsLast(run, m, last.value, user)
  {
    if m == 0 {
      last := None;
    } else if RegeneratedAt(run, m - 1, user) {
      last := Some(m - 1);
    } else {
      last := LastRegeneration(run, m - 1, user);
    }
  }

  /**
   In a run in which no regeneration of a user overlaps another, what is stored for that user is at every step exactly
   the set of the last committed regeneration, and nothing before the first.
   */
  lemma StoredSetOverRun(run: seq<Action>, m: nat, user: Uuid) returns (last: Option<nat>)
    requires Runnable(run) && m <= |run|
    requires forall k: nat | k < m && RegeneratedAt(run, k, user) :: !Overlapped(run, k, user)
    ensures match last
            case None =>
              && (forall j | 0 <= j < m :: !RegeneratedAt(run, j, user))
              && CodesOf(StateAt(run, m).db, user) == {}
            case Some(k) => IsLast(run, m, k, user) && HasCodesOf(run, m, k, user)
  {
    last := LastRegeneration(run, m, user);
    match last
    case None =>
      StoredSetStays(run, 0, m, user);
    case Some(k) =>
      OverlapDecides(run, k, user);
      StoredSetStays(run, k + 1, m, user);
  }

  /** A regeneration with an empty set never reaches a statement, let alone a commit. */
  lemma {:induction false} EmptySetChangesNothing(run: seq<Action>, t: TxId)
    requires Runnable(run) && t in Exec(run).txs
    requires Exec(run).txs[t].op.Regenerate? && |Exec(run).txs[t].op.codes| == 0
    ensures Exec(run).txs[t].pc == Failing || Exec(run).txs[t].pc == RolledBack
    ensures Exec(run).txs[t].puts == map[] && Exec(run).txs[t].dels == {}
  {
    var before := run[..|run| - 1];
    if t in Exec(before).txs {
      EmptySetChangesNothing(before, t);
    }
  }

  /** Redemptions and regenerations reach no row of another user. */
  lemma ScopeIsolation(run: seq<Action>, t: TxId)
    requires Runnable(run) && Enabled(Exec(run), Commit(t))
    ensures var before, after, scope := Exec(run).db, Next(Exec(run), Commit(t)).db, Exec(run).txs[t].scope;
            && (forall i | i in before && before[i].user != scope :: i in after && after[i] == before[i])
            && (forall i | i in after && i !in before :: after[i].user == scope)
  {
    RunKeepsInv(run);
    assert TxOk(Exec(run).db, Exec(run).txs[t]);
  }

  // ---- The other side of StoredSetIsTheLast ----

  lemma Extend(run: seq<Action>, a: Action) returns (longer: seq<Action>)
    requires Runnable(run) && Enabled(Exec(run), a)
    ensures longer == run + [a] && Runnable(longer) && Exec(longer) == Next(Exec(run), a)
  {
    longer := run + [a];
    assert longer[..|longer| - 1] == run;
  }

  /** A regeneration of one code that finds nothing to delete, up to its insert. */
  lemma Prepare(run: seq<Action>, t: TxId, user: Uuid, code: Digest) returns (longer: seq<Action>)
    requires Runnable(run) && t !in Exec(run).txs && IdsOf(Exec(run).db, user) == {}
    ensures Runnable(longer)
    ensures Exec(longer) == Exec(run).(txs := Exec(run).txs[t :=
                              Tx(user, Regenerate(user, [code]), Inserting(0), map[], {})])
  {
    var s := Exec(run);
    var tx := Tx(user, Regenerate(user, [code]), Scanning, map[], {});
    longer := Extend(run, Begin(t, user, Regenerate(user, [code])));
    assert Candidates(s.db, tx) == {} by {
      assert Candidates(s.db, tx) <= IdsOf(s.db, user);
    }
    longer := Extend(longer, Scan(t));
    longer := Extend(longer, Finish(t));
  }

  lemma Store(run: seq<Action>, t: TxId, user: Uuid, code: Digest, id: Uuid) returns (longer: seq<Action>)
    requires Runnable(run) && t in Exec(run).txs && id !in Exec(run).drawn
    requires Exec(run).txs[t] == Tx(user, Regenerate(user, [code]), Inserting(0), map[], {})
    requires forall i | i in Exec(run).db :: Exec(run).db[i].hash != code
    requires forall u | u in Exec(run).txs :: Exec(run).txs[u].puts == map[]
    ensures Runnable(longer)
    ensures Exec(longer) == State(Exec(run).db[id := Code(user, code, false)],
                                  Exec(run).txs[t := Tx(user, Regenerate(user, [code]), Committed, map[], {})],
                                  Exec(run).drawn + {id})
  {
    longer := Extend(run, Insert(t, id, code));
    longer := Extend(longer, Commit(t));
    assert (Exec(run).db - {}) + map[id := Code(user, code, false)] == Exec(run).db[id := Code(user, code, false)];
  }

  /** Two regenerations of one user that overlap leave both sets: user 1 ends with the codes 10 and 20. */
  lemma OverlapLeavesBothSets() returns (run: seq<Action>)
    ensures Runnable(run)
    ensures 0 in Exec(run).txs && Exec(run).txs[0].pc == Committed && Exec(run).txs[0].op == Regenerate(1, [10])
    ensures 1 in Exec(run).txs && Exec(run).txs[1].pc == Committed && Exec(run).txs[1].op == Regenerate(1, [20])
    ensures 10 in CodesOf(Exec(run).db, 1) && 20 in CodesOf(Exec(run).db, 1)
  {
    run := Prepare([], 0, 1, 10);
    run := Prepare(run, 1, 1, 20);
    run := Store(run, 0, 1, 10, 100);
    run := Store(run, 1, 1, 20, 101);
    assert Exec(run).db[100].hash == 10 && Exec(run).db[101].hash == 20;
  }
}

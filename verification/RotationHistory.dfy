/** Who minted what: tokens, families and the transactions that committed them, over whole runs. */
module RotationHistory {
  import opened Identifiers
  import opened Options
  import opened RefreshTokens
  import opened RotationMachine
  import opened RotationInvariant

  /** A committed transaction that handed out a cookie. */
  predicate Grants(tx: Tx) {
    tx.pc.Committed? && tx.pc.outcome.Granted? && tx.draw.Some?
  }

  function Rows(s: State, family: Uuid): set<Uuid> {
    set i | i in s.db && s.db[i].family == family
  }

  function Minters(s: State, family: Uuid): set<TxId> {
    set t | t in s.txs && Grants(s.txs[t]) && s.txs[t].draw.value.family == family
  }

  function Logins(s: State, family: Uuid): set<TxId> {
    set t | t in Minters(s, family) && s.txs[t].op.Login?
  }

  function Rotations(s: State, family: Uuid): set<TxId> {
    set t | t in Minters(s, family) && s.txs[t].op.Rotation?
  }

  ghost predicate MintedBySome(s: State, id: Uuid) {
    exists t :: t in s.txs && Grants(s.txs[t]) && s.txs[t].draw.value.id == id
  }

  ghost predicate DistinctDraws(s: State) {
    forall t, u | t in s.txs && u in s.txs && t != u && Grants(s.txs[t]) && Grants(s.txs[u]) ::
      s.txs[t].draw.value.id != s.txs[u].draw.value.id
  }

  ghost predicate Counted(s: State, family: Uuid) {
    && |Rows(s, family)| == |Minters(s, family)|
    && |Logins(s, family)| == (if InUse(s.db, family) then 1 else 0)
  }

  ghost predicate HistoryOk(s: State) {
    && DistinctDraws(s)
    && (forall i | i in s.db :: MintedBySome(s, i))
    && (forall family :: Counted(s, family))
  }

  lemma GrantIsCommit(env: Env, s: State, a: Action, t: TxId)
    requires Inv(env, s) && Enabled(env, s, a)
    requires t in Next(env, s, a).txs && Grants(Next(env, s, a).txs[t])
    requires a != Commit(t)
    ensures t in s.txs && s.txs[t] == Next(env, s, a).txs[t]
  {
  }

  lemma GrantKept(env: Env, s: State, a: Action, t: TxId)
    requires Inv(env, s) && Enabled(env, s, a) && t in s.txs && Grants(s.txs[t])
    ensures t in Next(env, s, a).txs && Next(env, s, a).txs[t] == s.txs[t]
  {
  }

  /** Who minted in a family changes only when a grant in that family commits. */
  lemma MintersKept(env: Env, s: State, a: Action, family: Uuid)
    requires Inv(env, s) && Enabled(env, s, a)
    requires a.Commit? && s.txs[a.tx].pc.outcome.Granted? && s.txs[a.tx].draw.Some? ==>
               s.txs[a.tx].draw.value.family != family
    ensures Minters(Next(env, s, a), family) == Minters(s, family)
    ensures Logins(Next(env, s, a), family) == Logins(s, family)
  {
    var after := Next(env, s, a);
    forall t ensures t in Minters(after, family) <==> t in Minters(s, family) {
      if t in Minters(s, family) {
        GrantKept(env, s, a, t);
      } else if t in Minters(after, family) && a != Commit(t) {
        GrantIsCommit(env, s, a, t);
      }
    }
    forall t ensures t in Logins(after, family) <==> t in Logins(s, family) {
      if t in Minters(s, family) {
        GrantKept(env, s, a, t);
      }
    }
  }

  lemma InUseIsRows(s: State, family: Uuid)
    ensures InUse(s.db, family) <==> Rows(s, family) != {}
  {
    if InUse(s.db, family) {
      var i :| i in s.db && s.db[i].family == family;
      assert i in Rows(s, family);
    }
  }

  /** Steps that hand out nothing leave the sets as they are. */
  lemma QuietCounts(env: Env, s: State, a: Action, family: Uuid)
    requires Inv(env, s) && Enabled(env, s, a) && Counted(s, family)
    requires a.Commit? ==> !s.txs[a.tx].pc.outcome.Granted?
    ensures Counted(Next(env, s, a), family)
  {
    MintersKept(env, s, a, family);
    QuietTable(env, s, a);
    assert Rows(Next(env, s, a), family) == Rows(s, family);
    InUseIsRows(s, family);
    InUseIsRows(Next(env, s, a), family);
  }

  lemma QuietTable(env: Env, s: State, a: Action)
    requires Inv(env, s) && Enabled(env, s, a)
    requires a.Commit? ==> !s.txs[a.tx].pc.outcome.Granted?
    ensures Next(env, s, a).db.Keys == s.db.Keys
    ensures forall i | i in s.db :: Next(env, s, a).db[i].family == s.db[i].family
  {
    if a.Commit? {
      CommittedTable(env, s, a.tx);
    }
  }

  lemma GrantTable(env: Env, s: State, t: TxId)
    requires Inv(env, s) && Enabled(env, s, Commit(t)) && s.txs[t].pc.outcome.Granted?
    ensures s.txs[t].draw.Some? && s.txs[t].draw.value.id !in s.db
    ensures var d, after := s.txs[t].draw.value, Next(env, s, Commit(t)).db;
            && after.Keys == s.db.Keys + {d.id} && after[d.id].family == d.family
            && (forall i | i in s.db :: after[i].family == s.db[i].family)
            && (s.txs[t].op.Login? <==> !InUse(s.db, d.family))
  {
    assert TxOk(env, s.db, s.txs[t]) && DrawNew(env, s.db, s.txs[t]);
    CommittedTable(env, s, t);
    if s.txs[t].op.Rotation? {
      assert s.db[s.txs[t].presented.value.id].family == s.txs[t].draw.value.family;
    }
  }

  lemma GrantMinters(env: Env, s: State, t: TxId)
    requires Inv(env, s) && Enabled(env, s, Commit(t)) && s.txs[t].pc.outcome.Granted? && s.txs[t].draw.Some?
    ensures var family := s.txs[t].draw.value.family;
            && t !in Minters(s, family)
            && Minters(Next(env, s, Commit(t)), family) == Minters(s, family) + {t}
            && Logins(Next(env, s, Commit(t)), family) ==
               Logins(s, family) + (if s.txs[t].op.Login? then {t} else {})
  {
    var after := Next(env, s, Commit(t));
    var family: Uuid := s.txs[t].draw.value.family;
    forall u ensures u in Minters(after, family) <==> u in Minters(s, family) || u == t {
    }
    forall u ensures u in Logins(after, family) <==> u in Logins(s, family) || (u == t && s.txs[t].op.Login?) {
    }
  }

  lemma GrantRows(env: Env, s: State, t: TxId, family: Uuid)
    requires Inv(env, s) && Enabled(env, s, Commit(t)) && s.txs[t].pc.outcome.Granted?
    ensures s.txs[t].draw.Some?
    ensures var d := s.txs[t].draw.value;
            && d.id !in Rows(s, family)
            && Rows(Next(env, s, Commit(t)), family) == Rows(s, family) + (if d.family == family then {d.id} else {})
            && (d.family == family ==> (s.txs[t].op.Login? <==> Rows(s, family) == {}))
  {
    GrantTable(env, s, t);
    InUseIsRows(s, family);
  }

  lemma CountOneMore<A, B>(a: set<A>, x: A, b: set<B>, y: B)
    requires x !in a && y !in b && |a| == |b|
    ensures |a + {x}| == |b + {y}|
  {
  }

  lemma GrantCounts(env: Env, s: State, t: TxId, family: Uuid)
    requires Inv(env, s) && Enabled(env, s, Commit(t)) && s.txs[t].pc.outcome.Granted?
    requires Counted(s, family)
    ensures Counted(Next(env, s, Commit(t)), family)
  {
    GrantRows(env, s, t, family);
    InUseIsRows(s, family);
    InUseIsRows(Next(env, s, Commit(t)), family);
    if family == s.txs[t].draw.value.family {
      GrantMinters(env, s, t);
      CountOneMore(Rows(s, family), s.txs[t].draw.value.id, Minters(s, family), t);
    } else {
      MintersKept(env, s, Commit(t), family);
    }
  }

  /** The token minted by a commit is not one that some earlier grant minted. */
  lemma NewDrawIsDistinct(env: Env, s: State, t: TxId, u: TxId)
    requires Inv(env, s) && Enabled(env, s, Commit(t)) && s.txs[t].pc.outcome.Granted?
    requires u in s.txs && Grants(s.txs[u])
    ensures s.txs[t].draw.Some? && s.txs[t].draw.value.id != s.txs[u].draw.value.id
  {
    GrantTable(env, s, t);
    assert TxOk(env, s.db, s.txs[u]);
  }

  lemma PairStaysDistinct(env: Env, s: State, a: Action, t: TxId, u: TxId)
    requires Inv(env, s) && Enabled(env, s, a) && DistinctDraws(s) && t != u && a != Commit(u)
    requires t in Next(env, s, a).txs && Grants(Next(env, s, a).txs[t])
    requires u in Next(env, s, a).txs && Grants(Next(env, s, a).txs[u])
    ensures Next(env, s, a).txs[t].draw.value.id != Next(env, s, a).txs[u].draw.value.id
  {
    GrantIsCommit(env, s, a, u);
    if a == Commit(t) {
      NewDrawIsDistinct(env, s, t, u);
    } else {
      GrantIsCommit(env, s, a, t);
    }
  }

  lemma DrawsStayDistinct(env: Env, s: State, a: Action)
    requires Inv(env, s) && Enabled(env, s, a) && DistinctDraws(s)
    ensures DistinctDraws(Next(env, s, a))
  {
    var after := Next(env, s, a);
    forall t, u | t in after.txs && u in after.txs && t != u && Grants(after.txs[t]) && Grants(after.txs[u])
      ensures after.txs[t].draw.value.id != after.txs[u].draw.value.id
    {
      if a == Commit(u) {
        PairStaysDistinct(env, s, a, u, t);
      } else {
        PairStaysDistinct(env, s, a, t, u);
      }
    }
  }

  lemma RowsStayMinted(env: Env, s: State, a: Action, id: Uuid)
    requires Inv(env, s) && Enabled(env, s, a) && id in Next(env, s, a).db
    requires id in s.db ==> MintedBySome(s, id)
    ensures MintedBySome(Next(env, s, a), id)
  {
    if id in s.db {
      var t :| t in s.txs && Grants(s.txs[t]) && s.txs[t].draw.value.id == id;
      GrantKept(env, s, a, t);
    } else {
      assert a.Commit? && TxOk(env, s.db, s.txs[a.tx]);
      if s.txs[a.tx].pc.outcome.Granted? {
        GrantTable(env, s, a.tx);
        assert Grants(Next(env, s, a).txs[a.tx]);
      } else {
        QuietTable(env, s, a);
      }
    }
  }

  lemma {:induction false} RunKeepsHistory(env: Env, run: seq<Action>)
    requires env.locking && Runnable(env, run)
    ensures Inv(env, Exec(env, run)) && HistoryOk(Exec(env, run))
  {
    RunKeepsInv(env, run);
    if |run| == 0 {
      forall family ensures Counted(START, family) {
        assert Rows(START, family) == {} && Minters(START, family) == {} && Logins(START, family) == {};
      }
    } else {
      var before := run[..|run| - 1];
      var s, a := Exec(env, before), run[|run| - 1];
      RunKeepsHistory(env, before);
      DrawsStayDistinct(env, s, a);
      forall i | i in Next(env, s, a).db ensures MintedBySome(Next(env, s, a), i) {
        RowsStayMinted(env, s, a, i);
      }
      forall family ensures Counted(Next(env, s, a), family) {
        if a.Commit? && s.txs[a.tx].pc.outcome.Granted? {
          GrantCounts(env, s, a.tx, family);
        } else {
          QuietCounts(env, s, a, family);
        }
      }
    }
  }

  // ---- Theorems ----

  /** A family holds one token for its login and one for each rotation of it that committed, and no other. */
  lemma FamilySize(env: Env, run: seq<Action>, family: Uuid)
    requires env.locking && Runnable(env, run) && InUse(Exec(env, run).db, family)
    ensures |Rows(Exec(env, run), family)| == 1 + |Rotations(Exec(env, run), family)|
  {
    RunKeepsHistory(env, run);
    MintersAreTwoKinds(Exec(env, run), family);
    assert Counted(Exec(env, run), family);
  }

  lemma MintersAreTwoKinds(s: State, family: Uuid)
    ensures |Minters(s, family)| == |Logins(s, family)| + |Rotations(s, family)|
  {
    assert Minters(s, family) == Logins(s, family) + Rotations(s, family);
    assert Logins(s, family) !! Rotations(s, family);
  }

  /** Over a whole run a presented secret buys at most one cookie, however many transactions present it. */
  lemma SecretBuysOneCookie(env: Env, run: seq<Action>, t: TxId, u: TxId)
    requires env.locking && Runnable(env, run)
    requires var s := Exec(env, run);
             && t in s.txs && u in s.txs && Grants(s.txs[t]) && Grants(s.txs[u])
             && s.txs[t].op.Rotation? && s.txs[u].op.Rotation?
             && s.txs[t].op.secret == s.txs[u].op.secret
    ensures t == u
  {
    RunKeepsHistory(env, run);
    var s := Exec(env, run);
    assert TxOk(env, s.db, s.txs[t]) && TxOk(env, s.db, s.txs[u]);
    assert s.txs[t].presented.value.id == s.txs[u].presented.value.id;
    assert s.txs[t].draw.value.id == s.txs[u].draw.value.id;
  }

  /** The rows of every family form one simple path along replaced_by, and its first token is the login's. */
  lemma FamilyIsLoginPath(env: Env, run: seq<Action>, family: Uuid) returns (path: seq<Uuid>, t: TxId)
    requires env.locking && Runnable(env, run) && InUse(Exec(env, run).db, family)
    ensures IsPath(Exec(env, run).db, family, path)
    ensures t in Exec(env, run).txs && Grants(Exec(env, run).txs[t]) && Exec(env, run).txs[t].op.Login?
    ensures Exec(env, run).txs[t].draw.value.id == path[0]
  {
    RunKeepsHistory(env, run);
    var s := Exec(env, run);
    assert HasPath(s.db, family);
    path :| IsPath(s.db, family, path);
    assert MintedBySome(s, path[0]);
    t :| t in s.txs && Grants(s.txs[t]) && s.txs[t].draw.value.id == path[0];
    FirstIsLogin(env, s, family, path, t);
  }

  /** No token points back at the first one of a path. */
  lemma NothingBeforeFirst(db: Table, family: Uuid, path: seq<Uuid>, id: Uuid)
    requires IsPath(db, family, path) && id in db && db[id].family == family
    ensures db[id].replacedBy != Some(path[0])
  {
    var k :| 0 <= k < |path| && path[k] == id;
    if k < |path| - 1 {
      assert path[k + 1] != path[0];
    }
  }

  lemma FirstIsLogin(env: Env, s: State, family: Uuid, path: seq<Uuid>, t: TxId)
    requires IsPath(s.db, family, path) && t in s.txs && TxOk(env, s.db, s.txs[t]) && Grants(s.txs[t])
    requires s.txs[t].draw.value.id == path[0]
    ensures s.txs[t].op.Login?
  {
    if s.txs[t].op.Rotation? {
      NothingBeforeFirst(s.db, family, path, s.txs[t].presented.value.id);
    }
  }
}

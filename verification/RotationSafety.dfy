/** What the database constraints and policies would catch, and that the protocol never gives them occasion to. */
module RotationSafety {
  import opened Identifiers
  import opened Options
  import opened RefreshTokens
  import opened RotationMachine
  import opened RotationInvariant

  /**
   Neither the committed table nor what a transaction sees of its own writes holds two live tokens of a family, at any
   step, and also between a failure and its rollback.
   */
  lemma NeverTwoLive(env: Env, run: seq<Action>, t: TxId)
    requires env.locking && Runnable(env, run) && t in Exec(env, run).txs
    ensures OneLivePerFamily(Exec(env, run).db)
    ensures OneLivePerFamily(View(Exec(env, run), Exec(env, run).txs[t]))
  {
    RunKeepsInv(env, run);
    OneLiveInView(env, Exec(env, run), t);
  }

  lemma RevokingView(s: State, tx: Tx)
    requires OneLivePerFamily(s.db)
    requires forall i | i in tx.writes :: i in s.db && tx.writes[i] == Revoke(s.db[i])
    ensures OneLivePerFamily(View(s, tx))
  {
    var view := View(s, tx);
    assert forall i | i in view ::
        i in s.db && view[i].family == s.db[i].family && (s.db[i].revoked ==> view[i].revoked);
  }

  /** A newcomer may join when no other row of its family stays live. */
  lemma NewcomerView(s: State, tx: Tx, newId: Uuid)
    requires OneLivePerFamily(s.db) && newId !in s.db && newId in tx.writes
    requires forall i | i in tx.writes && i != newId :: i in s.db && tx.writes[i].revoked
                                                       && tx.writes[i].family == s.db[i].family
    requires forall i | i in View(s, tx) && i != newId && View(s, tx)[i].family == tx.writes[newId].family ::
               View(s, tx)[i].revoked
    ensures OneLivePerFamily(View(s, tx))
  {
    var view := View(s, tx);
    forall i, j | i in view && j in view && view[i].family == view[j].family && !view[i].revoked && !view[j].revoked
      ensures i == j
    {
      if i != newId && j != newId {
        assert view[i] == s.db[i] && view[j] == s.db[j];
      }
    }
  }

  lemma MintedView(env: Env, s: State, tx: Tx, linked: bool)
    requires TableOk(s.db) && PresentedOk(env, s.db, tx) && tx.op.Rotation? && Minted(env, s.db, tx, linked)
    ensures OneLivePerFamily(View(s, tx))
  {
    var id: Uuid := tx.presented.value.id;
    assert tx.writes[id].revoked;
    forall i | i in View(s, tx) && i != tx.draw.value.id && View(s, tx)[i].family == tx.draw.value.family
      ensures View(s, tx)[i].revoked
    {
      assert i in s.db && (i != id ==> View(s, tx)[i] == s.db[i] && s.db[i].family == s.db[id].family);
    }
    NewcomerView(s, tx, tx.draw.value.id);
  }

  lemma OneLiveInView(env: Env, s: State, t: TxId)
    requires Inv(env, s) && t in s.txs
    ensures OneLivePerFamily(View(s, s.txs[t]))
  {
    var tx := s.txs[t];
    assert TxOk(env, s.db, tx) && DrawNew(env, s.db, tx);
    if tx.draw == None || !Active(tx) {
      RevokingView(s, tx);
    } else if LoggedIn(env, s.db, tx) {
      NewcomerView(s, tx, tx.draw.value.id);
    } else if Minted(env, s.db, tx, true) {
      MintedView(env, s, tx, true);
    } else {
      MintedView(env, s, tx, false);
    }
  }

  lemma SuccessorIsAlone(env: Env, s: State, tx: Tx)
    requires TableOk(s.db) && TxOk(env, s.db, tx) && tx.pc == Inserting && tx.op.Rotation?
    ensures Dead(View(s, tx), tx.presented.value.token.family)
  {
    var view := View(s, tx);
    forall i | i in view && view[i].family == tx.presented.value.token.family ensures view[i].revoked {
      assert s.db[i].family == s.db[tx.presented.value.id].family;
    }
  }

  lemma NobodyElseWrites(env: Env, s: State, t: TxId, u: TxId)
    requires Inv(env, s) && t in s.txs && u in s.txs && u != t
    requires s.txs[t].pc == Inserting && s.txs[t].op.Rotation?
    ensures FamilyUnused(s.txs[u].writes, s.txs[t].presented.value.token.family)
  {
    assert TxOk(env, s.db, s.txs[t]);
    assert Apart(env, s.txs[t], s.txs[u]) && TxOk(env, s.db, s.txs[u]) && DrawNew(env, s.db, s.txs[u]);
  }

  /**
   The successor, or a login's first token, is inserted when no other token of its family is live: not in the
   transaction's own view, and not among the uncommitted rows of anyone else.
   */
  lemma InsertNeverConflicts(env: Env, run: seq<Action>, t: TxId, draw: Draw)
    requires env.locking && Runnable(env, run) && Enabled(env, Exec(env, run), Insert(t, draw))
    ensures var s := Exec(env, run);
            && Dead(View(s, s.txs[t]), draw.family)
            && forall u | u in s.txs && u != t :: FamilyUnused(s.txs[u].writes, draw.family)
  {
    RunKeepsInv(env, run);
    var s := Exec(env, run);
    if s.txs[t].op.Rotation? {
      SuccessorIsAlone(env, s, s.txs[t]);
      forall u | u in s.txs && u != t ensures FamilyUnused(s.txs[u].writes, draw.family) {
        NobodyElseWrites(env, s, t, u);
      }
    }
  }

  /** The back-pointer always names a row that exists in the transaction's view, in the same family. */
  lemma BackPointerIsValid(env: Env, run: seq<Action>, t: TxId, id: Uuid)
    requires env.locking && Runnable(env, run) && Enabled(env, Exec(env, run), Touch(t, id))
    requires Exec(env, run).txs[t].pc.stmt == SetReplacedBy
    ensures var s := Exec(env, run);
            var tx := s.txs[t];
            && tx.draw.Some? && tx.draw.value.id in View(s, tx) && id != tx.draw.value.id
            && id == tx.presented.value.id
            && View(s, tx)[tx.draw.value.id].family == View(s, tx)[id].family
            && id in TouchRow(s, tx, id).writes && TouchRow(s, tx, id).writes[id].replacedBy == Some(tx.draw.value.id)
  {
    RunKeepsInv(env, run);
    var s := Exec(env, run);
    assert TxOk(env, s.db, s.txs[t]);
    assert Minted(env, s.db, s.txs[t], false);
  }

  /** A commit leaves every row of every other user as it was, and every row and cookie it adds is its scope's. */
  lemma ScopeIsolation(env: Env, run: seq<Action>, t: TxId)
    requires env.locking && Runnable(env, run) && Enabled(env, Exec(env, run), Commit(t))
    ensures var s := Exec(env, run);
            var tx, after := s.txs[t], Next(env, s, Commit(t)).db;
            && (forall i | i in s.db && s.db[i].user != tx.scope :: i in after && after[i] == s.db[i])
            && (forall i | i in after && i !in s.db :: after[i].user == tx.scope)
            && (tx.pc.outcome.Granted? ==> tx.pc.outcome.cookie.user == tx.scope)
  {
    RunKeepsInv(env, run);
    var s := Exec(env, run);
    assert TxOk(env, s.db, s.txs[t]);
    CommittedTable(env, s, t);
  }

  /** A granted cookie opens exactly the row its transaction minted. */
  lemma CookieOpensItsRow(env: Env, run: seq<Action>, t: TxId)
    requires env.locking && Runnable(env, run) && t in Exec(env, run).txs
    requires Exec(env, run).txs[t].pc.Committed? && Exec(env, run).txs[t].pc.outcome.Granted?
    ensures var s := Exec(env, run);
            var cookie := s.txs[t].pc.outcome.cookie;
            && s.txs[t].draw.Some?
            && Find(s.db, env.hash(cookie.secret), cookie.user) == Some(s.txs[t].draw.value.id)
  {
    RunKeepsInv(env, run);
    var s := Exec(env, run);
    assert TxOk(env, s.db, s.txs[t]);
    assert Matches(s.db, s.txs[t].draw.value.id, env.hash(s.txs[t].draw.value.secret), s.txs[t].scope);
  }
}

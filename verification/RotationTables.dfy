/** The three ways a commit changes the table keep it well formed. */
module RotationTables {
  import opened Identifiers
  import opened Options
  import opened RefreshTokens

  lemma LiveIsLast(db: Table, family: Uuid, path: seq<Uuid>, id: Uuid)
    requires IsPath(db, family, path)
    requires id in db && db[id].family == family && !db[id].revoked
    ensures path[|path| - 1] == id && db[id].replacedBy == None
  {
    var k :| 0 <= k < |path| && path[k] == id;
    assert k == |path| - 1;
  }

  lemma LiveIsUnreplaced(db: Table, id: Uuid)
    requires FamiliesArePaths(db) && id in db && !db[id].revoked
    ensures db[id].replacedBy == None
  {
    assert InUse(db, db[id].family);
    var path :| IsPath(db, db[id].family, path);
    LiveIsLast(db, db[id].family, path, id);
  }

  /** A path stays a path in any table that only revokes tokens of its family and adds none. */
  lemma PathKept(db: Table, after: Table, family: Uuid, path: seq<Uuid>)
    requires IsPath(db, family, path)
    requires forall i | i in db && db[i].family == family ::
               i in after && after[i].family == family && after[i].replacedBy == db[i].replacedBy
               && (db[i].revoked ==> after[i].revoked)
    requires forall i | i in after && after[i].family == family :: i in db && db[i].family == family
    ensures IsPath(after, family, path)
  {
  }

  lemma BurnKeepsPath(db: Table, burnt: Uuid, family: Uuid)
    requires HasPath(db, family)
    ensures HasPath(BurnFamily(db, burnt), family)
  {
    var path :| IsPath(db, family, path);
    PathKept(db, BurnFamily(db, burnt), family, path);
  }

  lemma BurnKeepsTable(db: Table, family: Uuid)
    requires TableOk(db)
    ensures TableOk(BurnFamily(db, family))
    ensures Dead(BurnFamily(db, family), family)
  {
    var after := BurnFamily(db, family);
    forall f | InUse(after, f) ensures HasPath(after, f) {
      var i :| i in after && after[i].family == f;
      assert InUse(db, f);
      BurnKeepsPath(db, family, f);
    }
  }

  ghost predicate NewcomerOk(db: Table, newId: Uuid, newcomer: Token) {
    && newId !in db
    && !newcomer.revoked
    && newcomer.replacedBy == None
    && forall i | i in db :: db[i].hash != newcomer.hash
  }

  lemma LoginKeepsTable(db: Table, newId: Uuid, first: Token)
    requires TableOk(db) && NewcomerOk(db, newId, first)
    requires forall i | i in db :: db[i].family != first.family
    ensures TableOk(db[newId := first])
    ensures IsPath(db[newId := first], first.family, [newId])
  {
    var after := db[newId := first];
    assert IsPath(after, first.family, [newId]);
    forall f | InUse(after, f) ensures HasPath(after, f) {
      if f != first.family {
        var i :| i in after && after[i].family == f;
        assert InUse(db, f);
        var path :| IsPath(db, f, path);
        PathKept(db, after, f, path);
      }
    }
  }

  lemma SucceedExtendsPath(db: Table, id: Uuid, newId: Uuid, successor: Token, path: seq<Uuid>)
    requires id in db && !db[id].revoked
    requires NewcomerOk(db, newId, successor) && successor.family == db[id].family
    requires IsPath(db, db[id].family, path)
    ensures IsPath(Succeed(db, id, newId, successor), db[id].family, path + [newId])
  {
    var family := db[id].family;
    var after := Succeed(db, id, newId, successor);
    var longer := path + [newId];
    LiveIsLast(db, family, path, id);
    forall i | i in after && after[i].family == family ensures i in longer {
      if i == newId {
        assert longer[|path|] == newId;
      } else {
        var k :| 0 <= k < |path| && path[k] == i;
        assert longer[k] == i;
      }
    }
    forall k | 0 <= k < |longer| - 1
      ensures after[longer[k]].revoked && after[longer[k]].replacedBy == Some(longer[k + 1])
    {
      assert path[k] == longer[k];
      if k < |path| - 1 {
        assert longer[k + 1] == path[k + 1];
      }
    }
  }

  lemma SucceedKeepsPath(db: Table, id: Uuid, newId: Uuid, successor: Token, family: Uuid)
    requires id in db && !db[id].revoked
    requires NewcomerOk(db, newId, successor) && successor.family == db[id].family
    requires HasPath(db, family)
    ensures HasPath(Succeed(db, id, newId, successor), family)
  {
    var path :| IsPath(db, family, path);
    if family == db[id].family {
      SucceedExtendsPath(db, id, newId, successor, path);
    } else {
      PathKept(db, Succeed(db, id, newId, successor), family, path);
    }
  }

  lemma SucceedKeepsTable(db: Table, id: Uuid, newId: Uuid, successor: Token)
    requires TableOk(db) && id in db && !db[id].revoked
    requires NewcomerOk(db, newId, successor)
    requires successor.family == db[id].family && successor.user == db[id].user
    ensures TableOk(Succeed(db, id, newId, successor))
  {
    var after := Succeed(db, id, newId, successor);
    forall f | InUse(after, f) ensures HasPath(after, f) {
      var i :| i in after && after[i].family == f;
      assert InUse(db, f) by { assert db[if i == newId then id else i].family == f; }
      SucceedKeepsPath(db, id, newId, successor, f);
    }
  }
}

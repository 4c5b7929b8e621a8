/**
 The table refresh_tokens and what one rotation means when nothing else runs:
 the reference against which the concurrent protocol is proved.
 */
module RefreshTokens {
  import opened Identifiers
  import opened Options

  // Secrets and digests are only ever compared, too.
  type Secret = nat
  type Digest = nat

  // Thirty days, in the seconds that `now` and `expires` are counted in.
  const REFRESH_TOKEN_LIFETIME := 30 * 24 * 60 * 60

  datatype Token = Token(
    user: Uuid,
    hash: Digest,
    family: Uuid,
    expires: int,
    revoked: bool,
    replacedBy: Option<Uuid>)

  type Table = map<Uuid, Token>

  // The cookie names its owner and carries the secret; module RefreshCookie prints it.
  datatype Cookie = Cookie(user: Uuid, secret: Secret)

  datatype Refusal = Invalid | Reused

  datatype Outcome = Granted(cookie: Cookie) | Refused(refusal: Refusal)

  // What one issue draws from the random source.
  datatype Draw = Draw(id: Uuid, secret: Secret, family: Uuid)

  function Revoke(token: Token): Token {
    token.(revoked := true)
  }

  function Mint(user: Uuid, digest: Digest, family: Uuid, now: int): Token {
    Token(user, digest, family, now + REFRESH_TOKEN_LIFETIME, false, None)
  }

  predicate Expired(token: Token, now: int) {
    token.expires <= now
  }

  /** The lookup by hash, through the row policy user_id = app.user_id. */
  predicate Matches(db: Table, id: Uuid, digest: Digest, scope: Uuid) {
    id in db && db[id].hash == digest && db[id].user == scope
  }

  function LiveOf(db: Table, family: Uuid): set<Uuid> {
    set i | i in db && db[i].family == family && !db[i].revoked
  }

  predicate Dead(db: Table, family: Uuid) {
    forall i | i in db && db[i].family == family :: db[i].revoked
  }

  function BurnFamily(db: Table, family: Uuid): Table {
    map i | i in db :: if db[i].family == family then Revoke(db[i]) else db[i]
  }

  /** The presented token is spent and points at its successor, which is the only new row. */
  function Succeed(db: Table, id: Uuid, newId: Uuid, successor: Token): Table
    requires id in db
  {
    db[id := Revoke(db[id]).(replacedBy := Some(newId))][newId := successor]
  }

  ghost function Find(db: Table, digest: Digest, scope: Uuid): (found: Option<Uuid>)
    ensures found.Some? ==> Matches(db, found.value, digest, scope)
    ensures found.None? ==> forall i :: !Matches(db, i, digest, scope)
  {
    if exists i :: Matches(db, i, digest, scope) then
      var i :| Matches(db, i, digest, scope);
      Some(i)
    else
      None
  }

  /** One rotation on an undisturbed table: what it answers and the table it leaves. */
  ghost function Rotate(db: Table, digest: Digest, scope: Uuid, now: int, draw: Draw, newDigest: Digest)
    : (Outcome, Table)
  {
    match Find(db, digest, scope)
    case None => (Refused(Invalid), db)
    case Some(id) =>
      var token := db[id];
      if token.revoked then
        (Refused(Reused), BurnFamily(db, token.family))
      else if Expired(token, now) then
        (Refused(Invalid), db)
      else
        (Granted(Cookie(token.user, draw.secret)),
         Succeed(db, id, draw.id, Mint(token.user, newDigest, token.family, now)))
  }

  // ---- What every committed table satisfies ----

  ghost predicate UniqueHashes(db: Table) {
    forall i, j | i in db && j in db && db[i].hash == db[j].hash :: i == j
  }

  ghost predicate OneLivePerFamily(db: Table) {
    forall i, j | i in db && j in db && db[i].family == db[j].family && !db[i].revoked && !db[j].revoked :: i == j
  }

  ghost predicate OneOwnerPerFamily(db: Table) {
    forall i, j | i in db && j in db && db[i].family == db[j].family :: db[i].user == db[j].user
  }

  /**
   `path` lists the whole family, login token first, each token once: every token but the last is revoked
   and points at the next one, and the last points nowhere.
   */
  ghost predicate IsPath(db: Table, family: Uuid, path: seq<Uuid>) {
    && |path| > 0
    && (forall k | 0 <= k < |path| :: path[k] in db && db[path[k]].family == family)
    && (forall k, l | 0 <= k < l < |path| :: path[k] != path[l])
    && (forall i | i in db && db[i].family == family :: i in path)
    && (forall k | 0 <= k < |path| - 1 :: db[path[k]].revoked && db[path[k]].replacedBy == Some(path[k + 1]))
    && db[path[|path| - 1]].replacedBy == None
  }

  predicate InUse(db: Table, family: Uuid) {
    exists i :: i in db && db[i].family == family
  }

  ghost predicate HasPath(db: Table, family: Uuid) {
    exists path :: IsPath(db, family, path)
  }

  ghost predicate FamiliesArePaths(db: Table) {
    forall family | InUse(db, family) :: HasPath(db, family)
  }

  ghost predicate TableOk(db: Table) {
    && UniqueHashes(db)
    && OneLivePerFamily(db)
    && OneOwnerPerFamily(db)
    && FamiliesArePaths(db)
  }

  /** What a row keeps for ever, and the one direction in which the rest moves. */
  predicate Ages(old_: Token, new_: Token) {
    && old_.user == new_.user
    && old_.hash == new_.hash
    && old_.family == new_.family
    && old_.expires == new_.expires
    && (old_.revoked ==> new_.revoked)
    && (old_.replacedBy.Some? ==> new_.replacedBy == old_.replacedBy)
  }

  ghost predicate Evolves(before: Table, after: Table) {
    forall i | i in before :: i in after && Ages(before[i], after[i])
  }

  // ---- One rotation, case by case ----

  /** A secret that was never issued, or belongs to another user, is invalid and changes nothing. */
  lemma RotateUnknown(db: Table, digest: Digest, scope: Uuid, now: int, draw: Draw, newDigest: Digest)
    requires forall i | i in db :: db[i].hash != digest || db[i].user != scope
    ensures Rotate(db, digest, scope, now, draw, newDigest) == (Refused(Invalid), db)
  {
    assert forall i :: !Matches(db, i, digest, scope);
  }

  /**
   A known one is refused as reuse when its token is revoked, expired or not, and every token of the family is then
   revoked and nothing else changed; refused as invalid when the token has expired, and nothing is changed; and
   otherwise replaced by one that is good for thirty days and that the spent one points at.
   */
  lemma RotateKnown(db: Table, id: Uuid, now: int, draw: Draw, newDigest: Digest)
    requires UniqueHashes(db) && id in db
    ensures var token := db[id];
            var result := Rotate(db, token.hash, token.user, now, draw, newDigest);
            if token.revoked then
              && result.0 == Refused(Reused) && result.1.Keys == db.Keys
              && forall i | i in db ::
                   result.1[i] == Token(db[i].user, db[i].hash, db[i].family, db[i].expires,
                                        db[i].revoked || db[i].family == token.family, db[i].replacedBy)
            else if token.expires <= now then
              result == (Refused(Invalid), db)
            else
              && result.0 == Granted(Cookie(token.user, draw.secret))
              && result.1 == db[id := Token(token.user, token.hash, token.family, token.expires, true, Some(draw.id))]
                               [draw.id := Token(token.user, newDigest, token.family, now + 2_592_000, false, None)]
  {
    assert Matches(db, id, db[id].hash, db[id].user);
  }
}

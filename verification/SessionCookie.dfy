/**
 The protocol and the cookie codec joined: what a granted rotation or login sends to the browser, and what the browser
 sends back. Here a user id is the number its 16 bytes spell, and a secret the number its 32 bytes spell.
 */
module SessionCookie {
  import opened Bytes
  import opened Identifiers
  import opened Options
  import opened RefreshTokens
  import opened RotationInvariant
  import opened RotationMachine
  import opened RotationSafety
  import opened RotationWithoutLock
  import RefreshCookie

  /** Ids are 16 bytes and secrets 32. */
  predicate Fits(cookie: Cookie) {
    && cookie.user < Power(256, RefreshCookie.UUID_LENGTH)
    && cookie.secret < Power(256, RefreshCookie.REFRESH_SECRET_LENGTH)
  }

  function Text(cookie: Cookie): string {
    RefreshCookie.Format(BigEndian(cookie.user, RefreshCookie.UUID_LENGTH),
                         BigEndian(cookie.secret, RefreshCookie.REFRESH_SECRET_LENGTH))
  }

  /** What the server makes of a cookie value: the scope to open and the secret to present in it. */
  function Presents(raw: string): Option<Cookie> {
    match RefreshCookie.Parse(raw)
    case Err(_) => None
    case Ok(cookie) => Some(Cookie(FromBigEndian(cookie.userId), FromBigEndian(cookie.secret)))
  }

  lemma CookieReturns(cookie: Cookie)
    requires Fits(cookie)
    ensures Presents(Text(cookie)) == Some(cookie)
  {
    var userId := BigEndian(cookie.user, RefreshCookie.UUID_LENGTH);
    var secret := BigEndian(cookie.secret, RefreshCookie.REFRESH_SECRET_LENGTH);
    RefreshCookie.ParseOfFormat(userId, secret);
    FromBigEndianOf(cookie.user, RefreshCookie.UUID_LENGTH);
    FromBigEndianOf(cookie.secret, RefreshCookie.REFRESH_SECRET_LENGTH);
  }

  /** The token a grant minted, as it stands right after the commit. */
  lemma GrantedTokenIsLive(env: Env, run: seq<Action>, t: TxId)
    requires env.locking && Runnable(env, run) && |run| > 0 && run[|run| - 1] == Commit(t)
    requires t in Exec(env, run).txs && Exec(env, run).txs[t].pc.Committed?
    requires Exec(env, run).txs[t].pc.outcome.Granted?
    ensures Exec(env, run).txs[t].draw.Some?
    ensures var s := Exec(env, run);
            var tx, d := s.txs[t], s.txs[t].draw.value;
            d.id in s.db && s.db[d.id] == Mint(tx.scope, env.hash(d.secret), d.family, tx.op.now)
  {
    var before := run[..|run| - 1];
    RunKeepsInv(env, before);
    var s := Exec(env, before);
    assert TxOk(env, s.db, s.txs[t]);
    CommittedTable(env, s, t);
  }

  /**
   From cookie to cookie. As long as the token a grant minted is live and unexpired, sending the granted cookie back,
   with nobody else in the middle of something, opens the owner's scope, presents the secret, and rotates exactly that
   token; the answer is again a cookie of that owner.
   */
  lemma CookieToCookie(env: Env, run: seq<Action>, t: TxId, u: TxId, now: int, draw: Draw)
    returns (cookie: Cookie, longer: seq<Action>)
    requires env.locking && Runnable(env, run) && Quiet(Exec(env, run))
    requires t in Exec(env, run).txs && u !in Exec(env, run).txs
    requires Exec(env, run).txs[t].pc.Committed? && Exec(env, run).txs[t].pc.outcome.Granted?
    requires Fits(Exec(env, run).txs[t].pc.outcome.cookie)
    requires Exec(env, run).txs[t].draw.Some? && Usable(Exec(env, run).db, Exec(env, run).txs[t].draw.value.id, now)
    requires Fresh(env, Exec(env, run), draw, false)
    requires draw.family == Exec(env, run).db[Exec(env, run).txs[t].draw.value.id].family
    ensures Presents(Text(Exec(env, run).txs[t].pc.outcome.cookie)) == Some(cookie)
    ensures Runnable(env, longer) && u in Exec(env, longer).txs
    ensures Exec(env, longer).txs[u].op == Rotation(cookie.secret, now)
    ensures Exec(env, longer).txs[u].scope == cookie.user
    ensures Exec(env, longer).txs[u].pc == Committed(Granted(Cookie(cookie.user, draw.secret)))
    ensures Exec(env, longer).db ==
            Succeed(Exec(env, run).db, Exec(env, run).txs[t].draw.value.id, draw.id,
                    Mint(cookie.user, env.hash(draw.secret), draw.family, now))
  {
    var s := Exec(env, run);
    cookie := s.txs[t].pc.outcome.cookie;
    CookieReturns(cookie);
    GrantOpensOwnRow(env, run, t);
    var tx;
    longer, tx := RotationCanSucceed(env, run, u, cookie.user, cookie.secret, now, s.txs[t].draw.value.id, draw);
  }

  /** Unrevoked and not expired. */
  predicate Usable(db: Table, id: Uuid, now: int) {
    id in db && !db[id].revoked && !Expired(db[id], now)
  }

  lemma GrantOpensOwnRow(env: Env, run: seq<Action>, t: TxId)
    requires env.locking && Runnable(env, run) && t in Exec(env, run).txs
    requires Exec(env, run).txs[t].pc.Committed? && Exec(env, run).txs[t].pc.outcome.Granted?
    ensures var s := Exec(env, run);
            var cookie := s.txs[t].pc.outcome.cookie;
            && cookie.user != NIL_UUID && s.txs[t].draw.Some?
            && Matches(s.db, s.txs[t].draw.value.id, env.hash(cookie.secret), cookie.user)
  {
    CookieOpensItsRow(env, run, t);
    RunKeepsInv(env, run);
    assert TxOk(env, Exec(env, run).db, Exec(env, run).txs[t]);
  }

  /** Right after the commit, the token is usable for its whole lifetime. */
  lemma GrantedCookieIsUsable(env: Env, run: seq<Action>, t: TxId, now: int)
    requires env.locking && Runnable(env, run) && |run| > 0 && run[|run| - 1] == Commit(t)
    requires t in Exec(env, run).txs && Exec(env, run).txs[t].pc.Committed?
    requires Exec(env, run).txs[t].pc.outcome.Granted?
    ensures Exec(env, run).txs[t].draw.Some?
    ensures Usable(Exec(env, run).db, Exec(env, run).txs[t].draw.value.id, now)
            <==> now < Exec(env, run).txs[t].op.now + 2_592_000
  {
    GrantedTokenIsLive(env, run, t);
  }
}

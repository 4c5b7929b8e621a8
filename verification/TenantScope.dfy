/**
 Requests on a pool of recycled connections: RequireTenant decides the scope, WithTenant, WithAuthUser and
 WithAuthLookup open the transaction, set the scope inside it, run the callback and end the transaction, and the
 connection goes back to the pool for the next request. Any number of requests interleave, step by step.
 */
module TenantScope {
  import opened Identifiers
  import opened Options

  type ConnId = nat
  type ReqId = nat

  // ---- Who may have which scope ----

  datatype Claims = Claims(shelter: Option<Uuid>)

  /** What RequireTenant sees of a request: the verified claims and the three places a client may name a shelter. */
  datatype HttpRequest = HttpRequest(claims: Option<Claims>, path: string, query: string, header: string)

  /** A supplied identifier agrees when it is absent, or reads as the claimed shelter. */
  predicate Agrees(parse: string -> Option<Uuid>, raw: string, claimed: Uuid) {
    raw == "" || parse(raw) == Some(claimed)
  }

  predicate AgreesOnShelter(parse: string -> Option<Uuid>, request: HttpRequest, claimed: Uuid) {
    && Agrees(parse, request.path, claimed)
    && Agrees(parse, request.query, claimed)
    && Agrees(parse, request.header, claimed)
  }

  /** The shelter whose scope a request may have, if any. */
  function Admit(parse: string -> Option<Uuid>, request: HttpRequest): Option<Uuid> {
    match request.claims
    case None => None
    case Some(claims) =>
      if claims.shelter.None? || claims.shelter.value == NIL_UUID then None
      else if !AgreesOnShelter(parse, request, claims.shelter.value) then None
      else claims.shelter
  }

  // ---- Connections ----

  // What current_setting returns; a setting that was local to a past transaction reads as empty.
  datatype Setting = Unset | Empty | Value(id: Uuid)

  datatype Conn = Conn(inTx: bool, session: Setting, local: Option<Uuid>)

  const NEW_CONN := Conn(false, Unset, None)

  function Current(conn: Conn): Setting {
    if conn.local.Some? then Value(conn.local.value) else conn.session
  }

  predicate NoScope(setting: Setting) {
    setting.Unset? || setting.Empty?
  }

  function BeginTx(conn: Conn): Conn {
    conn.(inTx := true)
  }

  /** set_config(name, value, true): local to the open transaction. */
  function SetLocal(conn: Conn, scope: Uuid): Conn {
    conn.(local := Some(scope))
  }

  /** COMMIT and ROLLBACK both revert what was local to the transaction. */
  function EndTx(conn: Conn): Conn {
    Conn(false, if conn.local.Some? then Empty else conn.session, None)
  }

  /** A scope outlives its transaction only as an empty setting, which is not the same as none. */
  lemma EndedScopeIsEmpty(conn: Conn, scope: Uuid)
    ensures EndTx(SetLocal(BeginTx(conn), scope)) == Conn(false, Empty, None)
    ensures conn.local == None ==> EndTx(BeginTx(conn)) == Conn(false, conn.session, None)
  {
  }

  // ---- Requests ----

  datatype Caller =
    | Handler(request: HttpRequest)      // RequireTenant around a handler, which never returns an error
    | Scoped(scope: Uuid)                // WithTenant or WithAuthUser called with an identifier
    | Lookup                             // WithAuthLookup and WithPublic: a transaction without a scope

  datatype Ending = Done | Failed | Panicked

  datatype Phase =
    | Waiting                            // no connection yet
    | Opened(conn: ConnId)               // BEGIN has run
    | Running(conn: ConnId)              // the callback has the transaction
    | Leaving(conn: ConnId, ending: Ending)   // the deferred rollback is still to come
    | Refused                            // answered without touching the pool
    | Finished(ending: Ending)

  datatype Req = Req(caller: Caller, scope: Option<Uuid>, phase: Phase)

  // A statement of a callback and the setting every policy reads while it runs.
  datatype Event = Event(req: ReqId, seen: Setting)

  datatype State = State(conns: map<ConnId, Conn>, idle: set<ConnId>, reqs: map<ReqId, Req>, trace: seq<Event>)

  const START := State(map[], {}, map[], [])

  datatype Action =
    | Arrive(req: ReqId, caller: Caller)
    | Connect(req: ReqId, conn: ConnId)        // a new physical connection
    | Acquire(req: ReqId, conn: ConnId)        // a recycled one
    | BeginFails(req: ReqId)
    | SetScope(req: ReqId)
    | SetScopeFails(req: ReqId)
    | Statement(req: ReqId)
    | ReturnError(req: ReqId)
    | Panic(req: ReqId)
    | Commit(req: ReqId)
    | CommitFails(req: ReqId, reusable: bool)  // reusable: the server reports the transaction as ended
    | Rollback(req: ReqId)
    | RollbackFails(req: ReqId)

  /** The scope a call opens its transaction with, or None for a lookup; Refused when it may not open one. */
  function Call(parse: string -> Option<Uuid>, caller: Caller): Req {
    match caller
    case Handler(request) =>
      (match Admit(parse, request)
       case None => Req(caller, None, Refused)
       case Some(shelter) => Req(caller, Some(shelter), Waiting))
    case Scoped(scope) => Req(caller, Some(scope), if scope == NIL_UUID then Refused else Waiting)
    case Lookup => Req(caller, None, Waiting)
  }

  predicate HasConn(phase: Phase) {
    phase.Opened? || phase.Running? || phase.Leaving?
  }

  predicate Enabled(s: State, a: Action) {
    if a.Arrive? then a.req !in s.reqs
    else
      && a.req in s.reqs
      && var phase := s.reqs[a.req].phase;
         && (HasConn(phase) ==> phase.conn in s.conns)
         && match a
            case Connect(_, c) => phase.Waiting? && c !in s.conns
            case Acquire(_, c) => phase.Waiting? && c in s.idle && c in s.conns
            case BeginFails(_) => phase.Waiting?
            case SetScope(_) => phase.Opened?
            case SetScopeFails(_) => phase.Opened? && s.reqs[a.req].scope.Some?
            case Statement(_) => phase.Running?
            case ReturnError(_) => phase.Running? && !s.reqs[a.req].caller.Handler?
            case Panic(_) => phase.Running?
            case Commit(_) => phase.Running?
            case CommitFails(_, _) => phase.Running?
            case Rollback(_) => phase.Leaving?
            case RollbackFails(_) => phase.Leaving?
  }

  /** The connection goes back to the pool with its transaction ended. */
  function Release(s: State, r: ReqId, c: ConnId, ending: Ending): State
    requires r in s.reqs && c in s.conns
  {
    s.(conns := s.conns[c := EndTx(s.conns[c])], idle := s.idle + {c},
    reqs := s.reqs[r := s.reqs[r].(phase := Finished(ending))])
  }

  /** A connection whose state is not known is closed, never recycled. */
  function Destroy(s: State, r: ReqId, c: ConnId, ending: Ending): State
    requires r in s.reqs
  {
    s.(conns := s.conns - {c}, reqs := s.reqs[r := s.reqs[r].(phase := Finished(ending))])
  }

  function Move(s: State, r: ReqId, phase: Phase): State
    requires r in s.reqs
  {
    s.(reqs := s.reqs[r := s.reqs[r].(phase := phase)])
  }

  function Next(parse: string -> Option<Uuid>, s: State, a: Action): State
    requires Enabled(s, a)
  {
    match a
    case Arrive(r, caller) => s.(reqs := s.reqs[r := Call(parse, caller)])
    case Connect(r, c) => Move(s.(conns := s.conns[c := BeginTx(NEW_CONN)]), r, Opened(c))
    case Acquire(r, c) => Move(s.(conns := s.conns[c := BeginTx(s.conns[c])], idle := s.idle - {c}), r, Opened(c))
    case BeginFails(r) => Move(s, r, Finished(Failed))
    case SetScope(r) =>
      var c := s.reqs[r].phase.conn;
      var conn := if s.reqs[r].scope.Some? then SetLocal(s.conns[c], s.reqs[r].scope.value) else s.conns[c];
      Move(s.(conns := s.conns[c := conn]), r, Running(c))
    case SetScopeFails(r) => Move(s, r, Leaving(s.reqs[r].phase.conn, Failed))
    case Statement(r) => s.(trace := s.trace + [Event(r, Current(s.conns[s.reqs[r].phase.conn]))])
    case ReturnError(r) => Move(s, r, Leaving(s.reqs[r].phase.conn, Failed))
    case Panic(r) => Move(s, r, Leaving(s.reqs[r].phase.conn, Panicked))
    case Commit(r) => Release(s, r, s.reqs[r].phase.conn, Done)
    case CommitFails(r, reusable) =>
      if reusable then Release(s, r, s.reqs[r].phase.conn, Failed)
      else Destroy(s, r, s.reqs[r].phase.conn, Failed)
    case Rollback(r) => Release(s, r, s.reqs[r].phase.conn, s.reqs[r].phase.ending)
    case RollbackFails(r) => Destroy(s, r, s.reqs[r].phase.conn, s.reqs[r].phase.ending)
  }

  // ---- Runs ----

  ghost predicate Runnable(parse: string -> Option<Uuid>, run: seq<Action>)
    decreases |run|, 0
  {
    |run| == 0 ||
    (var before := run[..|run| - 1];
     Runnable(parse, before) && Enabled(Exec(parse, before), run[|run| - 1]))
  }

  ghost function Exec(parse: string -> Option<Uuid>, run: seq<Action>): State
    requires Runnable(parse, run)
    decreases |run|, 1
  {
    if |run| == 0 then START
    else Next(parse, Exec(parse, run[..|run| - 1]), run[|run| - 1])
  }

  // ---- What every reachable state satisfies ----

  predicate Clean(conn: Conn) {
    !conn.inTx && NoScope(Current(conn))
  }

  /** The setting a callback of this request must run under. */
  predicate RightScope(scope: Option<Uuid>, seen: Setting) {
    match scope
    case Some(id) => seen == Value(id)
    case None => NoScope(seen)
  }

  ghost predicate ReqOk(parse: string -> Option<Uuid>, s: State, req: Req) {
    && req.scope == Call(parse, req.caller).scope
    && (req.phase.Refused? <==> Call(parse, req.caller).phase.Refused?)
    && (HasConn(req.phase) ==>
          && req.phase.conn in s.conns && req.phase.conn !in s.idle
          && s.conns[req.phase.conn].inTx
          && NoScope(s.conns[req.phase.conn].session))
    && (req.phase.Opened? ==> s.conns[req.phase.conn].local == None)
    && (req.phase.Running? ==> RightScope(req.scope, Current(s.conns[req.phase.conn])))
  }

  ghost predicate ConnOk(s: State, c: ConnId) {
    && c in s.conns
    && (c in s.idle ==> Clean(s.conns[c]))
    && (c !in s.idle ==> exists r :: r in s.reqs && HasConn(s.reqs[r].phase) && s.reqs[r].phase.conn == c)
  }

  ghost predicate Inv(parse: string -> Option<Uuid>, s: State) {
    && s.idle <= s.conns.Keys
    && (forall r | r in s.reqs :: ReqOk(parse, s, s.reqs[r]))
    && (forall c | c in s.conns :: ConnOk(s, c))
    && HoldersApart(s)
    && TraceOk(s)
  }

  ghost predicate HoldersApart(s: State) {
    forall r, q | r in s.reqs && q in s.reqs && r != q && HasConn(s.reqs[r].phase) && HasConn(s.reqs[q].phase) ::
      s.reqs[r].phase.conn != s.reqs[q].phase.conn
  }

  ghost predicate TraceOk(s: State) {
    forall k | 0 <= k < |s.trace| ::
      && s.trace[k].req in s.reqs
      && RightScope(s.reqs[s.trace[k].req].scope, s.trace[k].seen)
      && !s.reqs[s.trace[k].req].phase.Refused?
  }

  lemma HolderKept(parse: string -> Option<Uuid>, s: State, a: Action, c: ConnId)
    requires Inv(parse, s) && Enabled(s, a) && c in Next(parse, s, a).conns
    ensures ConnOk(Next(parse, s, a), c)
  {
    var after := Next(parse, s, a);
    if c in s.conns {
      assert ConnOk(s, c);
      if c !in s.idle {
        var r :| r in s.reqs && HasConn(s.reqs[r].phase) && s.reqs[r].phase.conn == c;
        assert r in after.reqs && (a.req != r ==> after.reqs[r] == s.reqs[r]);
        assert ReqOk(parse, s, s.reqs[r]);
      }
    }
    if c !in after.idle {
      assert a.req in after.reqs;
    }
  }

  lemma ReqKept(parse: string -> Option<Uuid>, s: State, a: Action, r: ReqId)
    requires Inv(parse, s) && Enabled(s, a) && r in Next(parse, s, a).reqs
    ensures ReqOk(parse, Next(parse, s, a), Next(parse, s, a).reqs[r])
  {
    if r in s.reqs {
      assert ReqOk(parse, s, s.reqs[r]);
      if a.req in s.reqs {
        assert ReqOk(parse, s, s.reqs[a.req]);
      }
    }
    if a.Acquire? {
      assert ConnOk(s, a.conn);
    }
  }

  /** A request that holds a connection after its own step was just handed it, or held it before. */
  lemma ConnOfActor(parse: string -> Option<Uuid>, s: State, a: Action)
    requires Enabled(s, a) && a.req in Next(parse, s, a).reqs && HasConn(Next(parse, s, a).reqs[a.req].phase)
    ensures var c := Next(parse, s, a).reqs[a.req].phase.conn;
            || ((a.Connect? || a.Acquire?) && c == a.conn && (c in s.conns ==> c in s.idle))
            || (a.req in s.reqs && HasConn(s.reqs[a.req].phase) && c == s.reqs[a.req].phase.conn)
  {
  }

  lemma ActorApart(parse: string -> Option<Uuid>, s: State, a: Action, q: ReqId)
    requires Inv(parse, s) && Enabled(s, a) && q in s.reqs && q != a.req
    requires a.req in Next(parse, s, a).reqs && HasConn(Next(parse, s, a).reqs[a.req].phase)
    requires HasConn(s.reqs[q].phase)
    ensures Next(parse, s, a).reqs[a.req].phase.conn != s.reqs[q].phase.conn
  {
    ConnOfActor(parse, s, a);
    assert ReqOk(parse, s, s.reqs[q]);
  }

  lemma OthersUnmoved(parse: string -> Option<Uuid>, s: State, a: Action, q: ReqId)
    requires Enabled(s, a) && q in Next(parse, s, a).reqs && q != a.req
    ensures a.req in Next(parse, s, a).reqs && q in s.reqs && Next(parse, s, a).reqs[q] == s.reqs[q]
  {
  }

  lemma HoldersStayApart(parse: string -> Option<Uuid>, s: State, a: Action)
    requires Inv(parse, s) && Enabled(s, a)
    ensures HoldersApart(Next(parse, s, a))
  {
    var after := Next(parse, s, a);
    forall r, q | r in after.reqs && q in after.reqs && r != q
                  && HasConn(after.reqs[r].phase) && HasConn(after.reqs[q].phase)
      ensures after.reqs[r].phase.conn != after.reqs[q].phase.conn
    {
      if r == a.req {
        OthersUnmoved(parse, s, a, q);
        ActorApart(parse, s, a, q);
      } else {
        OthersUnmoved(parse, s, a, r);
        if q == a.req {
          ActorApart(parse, s, a, r);
        } else {
          OthersUnmoved(parse, s, a, q);
        }
      }
    }
  }

  lemma TraceKept(parse: string -> Option<Uuid>, s: State, a: Action)
    requires Inv(parse, s) && Enabled(s, a)
    ensures TraceOk(Next(parse, s, a))
  {
    if a.Statement? {
      assert ReqOk(parse, s, s.reqs[a.req]);
    }
  }

  lemma StepKeepsInv(parse: string -> Option<Uuid>, s: State, a: Action)
    requires Inv(parse, s) && Enabled(s, a)
    ensures Inv(parse, Next(parse, s, a))
  {
    var after := Next(parse, s, a);
    forall r | r in after.reqs ensures ReqOk(parse, after, after.reqs[r]) {
      ReqKept(parse, s, a, r);
    }
    forall c | c in after.conns ensures ConnOk(after, c) {
      HolderKept(parse, s, a, c);
    }
    HoldersStayApart(parse, s, a);
    TraceKept(parse, s, a);
    IdleExists(parse, s, a);
  }

  lemma IdleExists(parse: string -> Option<Uuid>, s: State, a: Action)
    requires Inv(parse, s) && Enabled(s, a)
    ensures Next(parse, s, a).idle <= Next(parse, s, a).conns.Keys
  {
    if a.req in s.reqs {
      assert ReqOk(parse, s, s.reqs[a.req]);
    }
  }

  lemma {:induction false} RunKeepsInv(parse: string -> Option<Uuid>, run: seq<Action>)
    requires Runnable(parse, run)
    ensures Inv(parse, Exec(parse, run))
  {
    if |run| > 0 {
      RunKeepsInv(parse, run[..|run| - 1]);
      StepKeepsInv(parse, Exec(parse, run[..|run| - 1]), run[|run| - 1]);
    }
  }

  // ---- Theorems ----

  /**
   Every statement a handler ran, in any interleaving, ran under exactly the shelter of its verified claim, and
   every identifier the client supplied agreed with it.
   */
  lemma StatementsRunUnderTheClaim(parse: string -> Option<Uuid>, run: seq<Action>, k: nat)
    requires Runnable(parse, run) && k < |Exec(parse, run).trace|
    ensures Exec(parse, run).trace[k].req in Exec(parse, run).reqs
    ensures var s := Exec(parse, run);
            match s.reqs[s.trace[k].req].caller
            case Handler(request) =>
              && request.claims.Some? && request.claims.value.shelter.Some?
              && var shelter := request.claims.value.shelter.value;
                 && shelter != NIL_UUID
                 && s.trace[k].seen == Value(shelter)
                 && (request.path == "" || parse(request.path) == Some(shelter))
                 && (request.query == "" || parse(request.query) == Some(shelter))
                 && (request.header == "" || parse(request.header) == Some(shelter))
            case Scoped(scope) => scope != NIL_UUID && s.trace[k].seen == Value(scope)
            case Lookup => s.trace[k].seen == Unset || s.trace[k].seen == Empty
  {
    RunKeepsInv(parse, run);
    var s := Exec(parse, run);
    assert ReqOk(parse, s, s.reqs[s.trace[k].req]);
  }

  /** Whatever ended the request that had it, a connection back in the pool has no scope and no open transaction. */
  lemma IdleConnectionsAreClean(parse: string -> Option<Uuid>, run: seq<Action>, c: ConnId)
    requires Runnable(parse, run) && c in Exec(parse, run).idle
    ensures c in Exec(parse, run).conns
    ensures var conn := Exec(parse, run).conns[c];
            !conn.inTx && conn.local == None && (conn.session == Unset || conn.session == Empty)
  {
    RunKeepsInv(parse, run);
    assert ConnOk(Exec(parse, run), c);
  }

  /** A connection whose transaction did not end for sure is closed: it is not back in the pool, nor anywhere else. */
  lemma UnsureConnectionIsClosed(parse: string -> Option<Uuid>, run: seq<Action>, a: Action)
    requires Runnable(parse, run) && Enabled(Exec(parse, run), a)
    requires a.RollbackFails? || (a.CommitFails? && !a.reusable)
    ensures HasConn(Exec(parse, run).reqs[a.req].phase)
    ensures var after := Next(parse, Exec(parse, run), a);
            && Exec(parse, run).reqs[a.req].phase.conn !in after.conns
            && Exec(parse, run).reqs[a.req].phase.conn !in after.idle
  {
    RunKeepsInv(parse, run);
    assert ReqOk(parse, Exec(parse, run), Exec(parse, run).reqs[a.req]);
  }

  /** No connection leaks: once no request is in progress, all that are left are back in the pool, clean. */
  lemma NoConnectionLeaks(parse: string -> Option<Uuid>, run: seq<Action>)
    requires Runnable(parse, run)
    requires forall r | r in Exec(parse, run).reqs :: !HasConn(Exec(parse, run).reqs[r].phase)
    ensures Exec(parse, run).idle == Exec(parse, run).conns.Keys
    ensures forall c | c in Exec(parse, run).conns ::
              var conn := Exec(parse, run).conns[c];
              !conn.inTx && conn.local == None && (conn.session == Unset || conn.session == Empty)
  {
    RunKeepsInv(parse, run);
    var s := Exec(parse, run);
    forall c | c in s.conns ensures c in s.idle && Clean(s.conns[c]) {
      assert ConnOk(s, c);
    }
  }

  /** A refused request gets no connection and runs no statement, ever. */
  lemma RefusedRequestsTouchNothing(parse: string -> Option<Uuid>, run: seq<Action>, r: ReqId)
    requires Runnable(parse, run) && r in Exec(parse, run).reqs
    requires Exec(parse, run).reqs[r].caller.Handler?
    requires var request := Exec(parse, run).reqs[r].caller.request;
             !(&& request.claims.Some? && request.claims.value.shelter.Some?
               && var shelter := request.claims.value.shelter.value;
                  && shelter != NIL_UUID
                  && (request.path == "" || parse(request.path) == Some(shelter))
                  && (request.query == "" || parse(request.query) == Some(shelter))
                  && (request.header == "" || parse(request.header) == Some(shelter)))
    ensures Exec(parse, run).reqs[r].phase == Refused
    ensures forall k | 0 <= k < |Exec(parse, run).trace| :: Exec(parse, run).trace[k].req != r
  {
    RunKeepsInv(parse, run);
    assert ReqOk(parse, Exec(parse, run), Exec(parse, run).reqs[r]);
  }
}

/**
 The code: RequireTenant, requestAgreesOnShelter and the shared shape of WithTenant, WithAuthUser and
 WithAuthLookup, as methods on the pool, with other requests free to run between any two steps.
 */
module TenantProgram {
  import opened Identifiers
  import opened Options
  import opened TenantScope

  // What RequireTenant answers instead of calling the handler.
  datatype Status = Forbidden | Misconfigured

  // How a callback ends: nil, an error, or a panic.
  datatype Return = Nil | Error | Panics

  /** A callback issues some data statements on its transaction and ends. */
  datatype Callback = Callback(statements: nat, end: Return)

  /** What happens around one step: the steps of others, the connection handed out, and failures. */
  datatype Weather = Weather(others: seq<Action>, conn: ConnId, fault: bool, lost: bool)

  const CALM := Weather([], 0, false, false)

  function At(weather: seq<Weather>, k: nat): Weather {
    if k < |weather| then weather[k] else CALM
  }

  /** BEGIN is given a usable connection, and neither it, the scope nor the end of the transaction fails. */
  predicate Fortunate(s: State, weather: seq<Weather>) {
    && At(weather, 0).others == []
    && (At(weather, 0).conn in s.idle || At(weather, 0).conn !in s.conns)
    && !At(weather, 0).fault && !At(weather, 1).fault && !At(weather, 2).fault
  }

  /** The settings a request's statements saw, in order. */
  function Seen(trace: seq<Event>, r: ReqId): seq<Setting> {
    if |trace| == 0 then []
    else Seen(trace[..|trace| - 1], r) + (if trace[|trace| - 1].req == r then [trace[|trace| - 1].seen] else [])
  }

  lemma SeenNothing(trace: seq<Event>, r: ReqId)
    requires forall k | 0 <= k < |trace| :: trace[k].req != r
    ensures Seen(trace, r) == []
  {
  }

  lemma OthersChangeNothing(parse: string -> Option<Uuid>, s: State, a: Action, r: ReqId)
    requires Enabled(s, a) && a.req != r
    ensures r in Next(parse, s, a).reqs <==> r in s.reqs
    ensures r in s.reqs ==> Next(parse, s, a).reqs[r] == s.reqs[r]
    ensures Seen(Next(parse, s, a).trace, r) == Seen(s.trace, r)
  {
    if a.Statement? {
      var after := Next(parse, s, a).trace;
      assert after[..|after| - 1] == s.trace;
    }
  }

  /** Checks the three identifiers in turn and stops at the first that disagrees. */
  method RequestAgreesOnShelter(parse: string -> Option<Uuid>, request: HttpRequest, claimed: Uuid)
    returns (agrees: bool)
    ensures agrees <==>
              && (request.path == "" || parse(request.path) == Some(claimed))
              && (request.query == "" || parse(request.query) == Some(claimed))
              && (request.header == "" || parse(request.header) == Some(claimed))
  {
    var supplied := [request.path, request.query, request.header];
    for k := 0 to |supplied|
      invariant forall j | 0 <= j < k :: supplied[j] == "" || parse(supplied[j]) == Some(claimed)
    {
      var raw := supplied[k];
      if raw == "" {
        continue;
      }
      var parsed := parse(raw);
      if parsed.None? || parsed.value != claimed {
        return false;
      }
    }
    assert supplied[0] == request.path && supplied[1] == request.query && supplied[2] == request.header;
    return true;
  }

  class ConnectionPool {
    const parse: string -> Option<Uuid>
    var state: State
    ghost var log: seq<Action>

    ghost predicate Valid()
      reads this
    {
      Runnable(parse, log) && state == Exec(parse, log)
    }

    constructor (parse: string -> Option<Uuid>)
      ensures Valid() && log == [] && state == START && this.parse == parse
    {
      this.parse := parse;
      state := START;
      log := [];
    }

    /** This request as described, having seen these settings. */
    ghost predicate Is(r: ReqId, req: Req, seen: seq<Setting>)
      reads this
    {
      Valid() && r in state.reqs && state.reqs[r] == req && Seen(state.trace, r) == seen
    }

    method Perform(a: Action)
      requires Valid() && Enabled(state, a)
      modifies this
      ensures Valid() && log == old(log) + [a] && state == Next(parse, old(state), a)
    {
      state := Next(parse, state, a);
      log := log + [a];
      assert log[..|log| - 1] == old(log);
    }

    /** Everybody else: the steps of `others` that are possible and are not this request's. */
    method Interfere(r: ReqId, others: seq<Action>)
      requires Valid()
      modifies this
      ensures Valid() && old(log) <= log
      ensures r in state.reqs <==> r in old(state.reqs)
      ensures r in state.reqs ==> state.reqs[r] == old(state).reqs[r]
      ensures Seen(state.trace, r) == Seen(old(state.trace), r)
      ensures others == [] ==> state == old(state)
    {
      for k := 0 to |others|
        invariant Valid() && old(log) <= log
        invariant r in state.reqs <==> r in old(state.reqs)
        invariant r in state.reqs ==> state.reqs[r] == old(state).reqs[r]
        invariant Seen(state.trace, r) == Seen(old(state.trace), r)
        invariant others == [] ==> state == old(state)
      {
        if others[k].req != r && Enabled(state, others[k]) {
          OthersChangeNothing(parse, state, others[k], r);
          Perform(others[k]);
        }
      }
    }

    lemma Holds(r: ReqId)
      requires Valid() && r in state.reqs && HasConn(state.reqs[r].phase)
      ensures state.reqs[r].phase.conn in state.conns
      ensures state.reqs[r].phase.Running? ==>
                RightScope(state.reqs[r].scope, Current(state.conns[state.reqs[r].phase.conn]))
    {
      RunKeepsInv(parse, log);
      assert ReqOk(parse, state, state.reqs[r]);
    }

    /** db.Begin: a recycled connection, a new one, or an error. */
    method Begin(r: ReqId, w: Weather) returns (ok: bool)
      requires exists req :: Is(r, req, []) && req.phase.Waiting?
      modifies this
      ensures old(log) <= log
      ensures var req := old(state).reqs[r];
              if ok then Is(r, req.(phase := Opened(w.conn)), []) else Is(r, req.(phase := Finished(Failed)), [])
      ensures w.others == [] ==>
                (ok <==> !w.fault && (w.conn in old(state).idle || w.conn !in old(state).conns))
    {
      Interfere(r, w.others);
      ok := !w.fault && (w.conn in state.idle || w.conn !in state.conns);
      RunKeepsInv(parse, log);
      if !ok {
        Perform(BeginFails(r));
      } else if w.conn in state.idle {
        Perform(Acquire(r, w.conn));
      } else {
        Perform(Connect(r, w.conn));
      }
    }

    method SetConfig(r: ReqId, w: Weather) returns (ok: bool)
      requires exists req :: Is(r, req, []) && req.phase.Opened?
      modifies this
      ensures old(log) <= log
      ensures var req := old(state).reqs[r];
              if ok then Is(r, req.(phase := Running(req.phase.conn)), [])
              else Is(r, req.(phase := Leaving(req.phase.conn, Failed)), [])
      ensures ok <==> !w.fault || old(state).reqs[r].scope.None?
    {
      Interfere(r, w.others);
      Holds(r);
      ok := !w.fault || state.reqs[r].scope.None?;
      if ok {
        Perform(SetScope(r));
      } else {
        Perform(SetScopeFails(r));
      }
    }

    /** One statement, under whatever setting the connection has by then. */
    method Issue(r: ReqId, w: Weather)
      requires Valid() && r in state.reqs && state.reqs[r].phase.Running?
      modifies this
      ensures old(log) <= log && Valid() && r in state.reqs && state.reqs[r] == old(state).reqs[r]
      ensures |Seen(state.trace, r)| == |Seen(old(state).trace, r)| + 1
      ensures Seen(old(state).trace, r) <= Seen(state.trace, r)
      ensures RightScope(state.reqs[r].scope, Seen(state.trace, r)[|Seen(state.trace, r)| - 1])
    {
      Interfere(r, w.others);
      Holds(r);
      ghost var before := state.trace;
      Perform(Statement(r));
      assert state.trace[..|state.trace| - 1] == before;
    }

    /** The callback: its statements, in order, each under whatever setting the connection then has. */
    method Run(r: ReqId, callback: Callback, weather: seq<Weather>)
      requires exists req :: Is(r, req, []) && req.phase.Running?
      requires state.reqs[r].caller.Handler? ==> callback.end != Error
      modifies this
      ensures old(log) <= log && Valid() && r in state.reqs
      ensures |Seen(state.trace, r)| == callback.statements
      ensures forall seen | seen in Seen(state.trace, r) :: RightScope(old(state).reqs[r].scope, seen)
      ensures var req := old(state).reqs[r];
              state.reqs[r] == match callback.end
                case Nil => req
                case Error => req.(phase := Leaving(req.phase.conn, Failed))
                case Panics => req.(phase := Leaving(req.phase.conn, Panicked))
    {
      ghost var req := state.reqs[r];
      for k := 0 to callback.statements
        invariant Is(r, req, Seen(state.trace, r)) && old(log) <= log
        invariant |Seen(state.trace, r)| == k
        invariant forall seen | seen in Seen(state.trace, r) :: RightScope(req.scope, seen)
      {
        Issue(r, At(weather, k));
      }
      Return(r, callback.end);
    }

    /** The callback returns, or panics. */
    method Return(r: ReqId, end: Return)
      requires Valid() && r in state.reqs && state.reqs[r].phase.Running?
      requires state.reqs[r].caller.Handler? ==> end != Error
      modifies this
      ensures old(log) <= log && Valid() && r in state.reqs && state.trace == old(state).trace
      ensures var req := old(state).reqs[r];
              state.reqs[r] == match end
                case Nil => req
                case Error => req.(phase := Leaving(req.phase.conn, Failed))
                case Panics => req.(phase := Leaving(req.phase.conn, Panicked))
    {
      Holds(r);
      match end
      case Nil =>
      case Error => Perform(ReturnError(r));
      case Panics => Perform(Panic(r));
    }

    /** The deferred rollback, after an error or a panic. */
    method Undo(r: ReqId, w: Weather)
      requires Valid() && r in state.reqs && state.reqs[r].phase.Leaving?
      modifies this
      ensures old(log) <= log
      ensures var req := old(state).reqs[r];
              Is(r, req.(phase := Finished(req.phase.ending)), Seen(old(state.trace), r))
    {
      Interfere(r, w.others);
      Holds(r);
      if w.lost {
        Perform(RollbackFails(r));
      } else {
        Perform(Rollback(r));
      }
    }

    method Finish(r: ReqId, w: Weather) returns (ok: bool)
      requires Valid() && r in state.reqs && state.reqs[r].phase.Running?
      modifies this
      ensures old(log) <= log
      ensures Is(r, old(state).reqs[r].(phase := Finished(if ok then Done else Failed)), Seen(old(state.trace), r))
      ensures ok <==> !w.fault
    {
      Interfere(r, w.others);
      Holds(r);
      ok := !w.fault;
      if ok {
        Perform(Commit(r));
      } else {
        Perform(CommitFails(r, !w.lost));
      }
    }

    /** The callback and the end of the transaction, once the scope is set. */
    method RunAndEnd(r: ReqId, callback: Callback, weather: seq<Weather>) returns (phase: Phase)
      requires exists req :: Is(r, req, []) && req.phase.Running?
      requires state.reqs[r].caller.Handler? ==> callback.end != Error
      modifies this
      ensures Valid() && old(log) <= log && r in state.reqs
      ensures state.reqs[r] == old(state).reqs[r].(phase := phase)
      ensures phase == Finished(match callback.end
                                case Nil => if At(weather, 2).fault then Failed else Done
                                case Error => Failed
                                case Panics => Panicked)
      ensures |Seen(state.trace, r)| == callback.statements
      ensures forall seen | seen in Seen(state.trace, r) :: RightScope(old(state).reqs[r].scope, seen)
    {
      Run(r, callback, if |weather| > 3 then weather[3..] else []);
      if callback.end == Nil {
        var ok := Finish(r, At(weather, 2));
        return Finished(if ok then Done else Failed);
      }
      Undo(r, At(weather, 2));
      return Finished(if callback.end == Error then Failed else Panicked);
    }

    /**
     WithTenant and its kin. A call that may not open a transaction is refused on the spot. Otherwise its callback
     runs at most once, all its statements see its own scope, and whichever way it ends the connection is given up;
     a panic is passed on, and success is reported only for a committed transaction, and always when nothing fails.
     */
    method WithScope(r: ReqId, caller: Caller, callback: Callback, weather: seq<Weather>) returns (phase: Phase)
      requires Valid() && r !in state.reqs
      requires caller.Handler? ==> callback.end != Error
      modifies this
      ensures Valid() && old(log) <= log && r in state.reqs && state.reqs[r].phase == phase
      ensures phase.Refused? || phase.Finished?
      ensures match caller
              case Handler(request) =>
                phase.Refused? <==>
                  !(&& request.claims.Some? && request.claims.value.shelter.Some?
                    && var shelter := request.claims.value.shelter.value;
                       && shelter != NIL_UUID
                       && (request.path == "" || parse(request.path) == Some(shelter))
                       && (request.query == "" || parse(request.query) == Some(shelter))
                       && (request.header == "" || parse(request.header) == Some(shelter)))
              case Scoped(scope) => phase.Refused? <==> scope == NIL_UUID
              case Lookup => !phase.Refused?
      ensures phase.Refused? ==> log == old(log) + [Arrive(r, caller)] && state.conns == old(state).conns
                                 && state.idle == old(state).idle && state.trace == old(state).trace
      ensures forall seen | seen in Seen(state.trace, r) ::
                match caller
                case Handler(request) =>
                  && request.claims.Some? && request.claims.value.shelter.Some?
                  && seen == Value(request.claims.value.shelter.value)
                case Scoped(scope) => seen == Value(scope)
                case Lookup => seen == Unset || seen == Empty
      ensures |Seen(state.trace, r)| == 0 || |Seen(state.trace, r)| == callback.statements
      ensures phase == Finished(Done) ==> callback.end == Nil && |Seen(state.trace, r)| == callback.statements
      ensures phase == Finished(Panicked) ==> callback.end == Panics && |Seen(state.trace, r)| == callback.statements
      ensures callback.end == Panics && |Seen(state.trace, r)| > 0 ==> phase == Finished(Panicked)
      ensures Fortunate(old(state), weather) && !phase.Refused? ==>
                phase == Finished(match callback.end case Nil => Done case Error => Failed case Panics => Panicked)
    {
      RunKeepsInv(parse, log);
      SeenNothing(state.trace, r);
      Perform(Arrive(r, caller));
      if state.reqs[r].phase.Refused? {
        return Refused;
      }
      ghost var req := state.reqs[r];
      assert Is(r, req, []);
      var ok := Begin(r, At(weather, 0));
      if !ok {
        return Finished(Failed);
      }
      ok := SetConfig(r, At(weather, 1));
      if !ok {
        Undo(r, At(weather, 2));
        return Finished(Failed);
      }
      phase := RunAndEnd(r, callback, weather);
    }

    /**
     RequireTenant around a handler. Only a request whose verified claim names a shelter, and which supplies no
     identifier that disagrees with it, reaches the pool; its statements all see that shelter. `failed` is the
     internal error of a transaction that could not be opened or committed; a panic goes on instead.
     */
    method RequireTenant(r: ReqId, request: HttpRequest, handler: Callback, weather: seq<Weather>)
      returns (denied: Option<Status>, failed: bool)
      requires Valid() && r !in state.reqs && handler.end != Error
      modifies this
      ensures Valid() && old(log) <= log
      ensures denied.Some? ==> log == old(log) && state == old(state)
      ensures denied == Some(Misconfigured) <==> request.claims.None?
      ensures denied.None? <==>
                && request.claims.Some? && request.claims.value.shelter.Some?
                && request.claims.value.shelter.value != NIL_UUID
                && var shelter := request.claims.value.shelter.value;
                   && (request.path == "" || parse(request.path) == Some(shelter))
                   && (request.query == "" || parse(request.query) == Some(shelter))
                   && (request.header == "" || parse(request.header) == Some(shelter))
      ensures denied.None? ==> forall seen | seen in Seen(state.trace, r) ::
                                 seen == Value(request.claims.value.shelter.value)
      ensures denied.Some? ==> !failed
      ensures denied.None? ==>
                && r in state.reqs && state.reqs[r].phase.Finished?
                && (failed <==> state.reqs[r].phase == Finished(Failed))
                && (Fortunate(old(state), weather) ==>
                      state.reqs[r].phase == Finished(if handler.end == Nil then Done else Panicked))
    {
      if request.claims.None? {
        return Some(Misconfigured), false;
      }
      var claims := request.claims.value;
      if claims.shelter.None? || claims.shelter.value == NIL_UUID {
        return Some(Forbidden), false;
      }
      var agrees := RequestAgreesOnShelter(parse, request, claims.shelter.value);
      if !agrees {
        return Some(Forbidden), false;
      }
      var phase := WithScope(r, Handler(request), handler, weather);
      return None, phase == Finished(Failed);
    }
  }
}

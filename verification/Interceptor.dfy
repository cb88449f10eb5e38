/** One intercepted call from start to end, as the code runs it: over a store and a log it updates in
    place, against an environment that decides what fails. */
module Interceptor {
  import opened Tokens
  import opened RpcPolicy
  import opened Scope
  import opened Auth
  import opened Actions
  import opened Proxy

  /** What the outside answers to this call. */
  datatype Environment = Environment(
    lookupFails: bool,
    answer: Answer,
    deleteApplied: bool,
    putAcked: nat -> bool,
    putApplied: nat -> bool)

  function PutEvents(c: CallId, env: Environment, n: nat): seq<Event> {
    if n == 0 then [] else PutEvents(c, env, n - 1) + [PutToken(c, env.putAcked(n - 1), env.putApplied(n - 1))]
  }

  function TokenCount(env: Environment): nat {
    if env.answer.Replied? then |ResponseTokens(env.answer.resp)| else 0
  }

  /** The events of the call, one after the other; those that come after its end change nothing. */
  function Script(c: CallId, rpc: Rpc, req: Request, env: Environment): seq<Event> {
    [Begin(c, rpc, req), Check(c, env.lookupFails), Reply(c, env.answer), DeleteToken(c, env.deleteApplied)]
    + PutEvents(c, env, TokenCount(env)) + [Finish(c)]
  }

  function Resting(store: map<Token, Entry>, log: seq<LogLine>): State {
    INIT.(store := store, log := log)
  }

  /** Nothing happens to a call that is done. */
  lemma {:induction false} DoneIsFinal(st: State, c: CallId, events: seq<Event>)
    requires c in st.calls && st.calls[c].phase.Done?
    requires forall e :: e in events ==> !e.Lose? && e.c == c
    ensures Run(st, events) == st
    decreases |events|
  {
    if events != [] {
      var e := events[0];
      assert e in events;
      if !e.Begin? {
        var call := st.calls[c];
        assert NextPhase(Found(st.store, e, call), e, call) == call.phase;
        assert st.calls[c := call.(phase := call.phase)] == st.calls;
        assert st.log + [] == st.log;
      }
      assert Step(st, e) == st;
      DoneIsFinal(st, c, events[1..]);
    }
  }

  lemma {:induction false} PutEventsOwn(c: CallId, env: Environment, n: nat)
    ensures |PutEvents(c, env, n)| == n
    ensures forall e :: e in PutEvents(c, env, n) ==> !e.Lose? && e.c == c
    ensures forall i :: 0 <= i < n ==> PutEvents(c, env, n)[i] == PutToken(c, env.putAcked(i), env.putApplied(i))
  {
    if n > 0 {
      PutEventsOwn(c, env, n - 1);
    }
  }

  lemma ScriptOwn(c: CallId, rpc: Rpc, req: Request, env: Environment)
    ensures |Script(c, rpc, req, env)| == 5 + TokenCount(env)
    ensures forall e :: e in Script(c, rpc, req, env) ==> !e.Lose? && e.c == c
  {
    PutEventsOwn(c, env, TokenCount(env));
  }

  lemma NextOfScript(c: CallId, rpc: Rpc, req: Request, env: Environment, from: State, n: nat)
    requires n < |Script(c, rpc, req, env)|
    ensures var all := Script(c, rpc, req, env);
      Run(from, all[..n + 1]) == Step(Run(from, all[..n]), all[n])
  {
    var all := Script(c, rpc, req, env);
    assert all[..n + 1] == all[..n] + [all[n]];
    RunAppend(from, all[..n], [all[n]]);
    var st := Run(from, all[..n]);
    assert Run(st, [all[n]]) == Run(Step(st, all[n]), []);
  }

  /** A state in which `c` is the only call. */
  ghost predicate Only(st: State, c: CallId, call: Call, store: map<Token, Entry>, log: seq<LogLine>) {
    st.calls == map[c := call] && st.store == store && st.log == log
  }

  /** The state after the first `n` events of the script. */
  function StateAfter(c: CallId, rpc: Rpc, req: Request, env: Environment, store: map<Token, Entry>, log: seq<LogLine>, n: nat): State
    requires n <= |Script(c, rpc, req, env)|
  {
    Run(Resting(store, log), Script(c, rpc, req, env)[..n])
  }

  /** Once the call is done the rest of the script changes nothing. */
  lemma EndOfScript(c: CallId, rpc: Rpc, req: Request, env: Environment, store0: map<Token, Entry>, log0: seq<LogLine>,
                    n: nat, outcome: Outcome, store: map<Token, Entry>, log: seq<LogLine>)
    requires n <= |Script(c, rpc, req, env)|
    requires Only(StateAfter(c, rpc, req, env, store0, log0, n), c, Call(rpc, req, Done(outcome)), store, log)
    ensures EndsAs(c, rpc, req, env, store0, log0, outcome, store, log)
  {
    hide Script, Run;
    var all, from := Script(c, rpc, req, env), Resting(store0, log0);
    ScriptOwn(c, rpc, req, env);
    assert all == all[..n] + all[n..];
    RunAppend(from, all[..n], all[n..]);
    DoneIsFinal(StateAfter(c, rpc, req, env, store0, log0, n), c, all[n..]);
  }

  /** The whole script, run without interruption, leaves this outcome, this store and this log. */
  ghost predicate EndsAs(c: CallId, rpc: Rpc, req: Request, env: Environment, store0: map<Token, Entry>, log0: seq<LogLine>,
                         outcome: Outcome, store: map<Token, Entry>, log: seq<LogLine>)
  {
    var st := Run(Resting(store0, log0), Script(c, rpc, req, env));
    store == st.store && log == st.log && c in st.calls && st.calls[c].phase == Done(outcome)
  }

  lemma AfterCheck(c: CallId, rpc: Rpc, req: Request, env: Environment, store: map<Token, Entry>, log: seq<LogLine>)
    ensures var call := Call(rpc, req, Begun);
      Only(StateAfter(c, rpc, req, env, store, log, 2), c,
           call.(phase := CheckPhase(c, call, LookUp(store, Presents(c, call), env.lookupFails))), store, log)
  {
    hide CheckPhase, PutEvents, TokenCount;
    NextOfScript(c, rpc, req, env, Resting(store, log), 0);
    NextOfScript(c, rpc, req, env, Resting(store, log), 1);
    assert log + [] == log;
  }

  lemma AfterReply(c: CallId, rpc: Rpc, req: Request, env: Environment, store: map<Token, Entry>, log: seq<LogLine>, scope: string)
    requires Only(StateAfter(c, rpc, req, env, store, log, 2), c, Call(rpc, req, Authorized(scope)), store, log)
    ensures var call := Call(rpc, req, Authorized(scope));
      Only(StateAfter(c, rpc, req, env, store, log, 3), c,
           call.(phase := NextPhase(Miss, Reply(c, env.answer), call)), store, log)
  {
    hide NextPhase, PutEvents, TokenCount;
    NextOfScript(c, rpc, req, env, Resting(store, log), 2);
    assert log + [] == log;
  }

  function Consume(store: map<Token, Entry>, call: Call, applied: bool): map<Token, Entry> {
    if IsTerminal(call) && applied then store - {RequestTaskToken(call.req).value} else store
  }

  lemma AfterDelete(c: CallId, rpc: Rpc, req: Request, env: Environment, store: map<Token, Entry>, log: seq<LogLine>, scope: string)
    requires Only(StateAfter(c, rpc, req, env, store, log, 2), c, Call(rpc, req, Authorized(scope)), store, log)
    requires env.answer.Replied?
    ensures var call := Call(rpc, req, Authorized(scope));
      Only(StateAfter(c, rpc, req, env, store, log, 4), c,
           call.(phase := Registering(scope, env.answer.resp, IsTerminal(call) && env.deleteApplied, 0)),
           Consume(store, call, env.deleteApplied), log)
  {
    hide PutEvents, TokenCount, RequestTaskToken;
    AfterReply(c, rpc, req, env, store, log, scope);
    NextOfScript(c, rpc, req, env, Resting(store, log), 3);
    assert log + [] == log;
  }

  lemma AfterPut(c: CallId, rpc: Rpc, req: Request, env: Environment, store0: map<Token, Entry>, log: seq<LogLine>,
                 store: map<Token, Entry>, p: Phase, i: nat)
    requires env.answer.Replied? && p.Registering? && p.resp == env.answer.resp && p.put == i < TokenCount(env)
    requires 5 + i <= |Script(c, rpc, req, env)|
    requires Only(StateAfter(c, rpc, req, env, store0, log, 4 + i), c, Call(rpc, req, p), store, log)
    ensures var e := PutToken(c, env.putAcked(i), env.putApplied(i));
      Only(StateAfter(c, rpc, req, env, store0, log, 5 + i), c,
           Call(rpc, req, NextPhase(Miss, e, Call(rpc, req, p))),
           if p.scope != "" && (e.acked || e.applied)
           then store[ResponseTokens(p.resp)[i] := Entry(c.who.namespace, p.scope)] else store, log)
  {
    PutEventsOwn(c, env, TokenCount(env));
    assert Script(c, rpc, req, env)[4 + i] == PutToken(c, env.putAcked(i), env.putApplied(i));
    hide NextPhase, PutEvents, ResponseTokens, Script;
    NextOfScript(c, rpc, req, env, Resting(store0, log), 4 + i);
    assert log + [] == log;
  }

  lemma AfterFinish(c: CallId, rpc: Rpc, req: Request, env: Environment, store0: map<Token, Entry>, log: seq<LogLine>,
                    store: map<Token, Entry>, p: Phase)
    requires env.answer.Replied? && p.Registering? && p.resp == env.answer.resp && p.put == TokenCount(env)
    requires 5 + p.put <= |Script(c, rpc, req, env)|
    requires Only(StateAfter(c, rpc, req, env, store0, log, 4 + p.put), c, Call(rpc, req, p), store, log)
    ensures Only(StateAfter(c, rpc, req, env, store0, log, 5 + p.put), c,
                 Call(rpc, req, Done(Delivered(p.scope, p.resp, p.deleted))), store, log + LinesOf(c, OfRequest(req)))
  {
    PutEventsOwn(c, env, TokenCount(env));
    assert Script(c, rpc, req, env)[4 + p.put] == Finish(c);
    hide PutEvents, ResponseTokens, Script, OfRequest, LinesOf;
    NextOfScript(c, rpc, req, env, Resting(store0, log), 4 + p.put);
  }

  /** Only a request that presents a token depends on what the lookup found. */
  lemma AuthorizeCases(rpc: Rpc, policy: Policy, req: Request, id: Identity, found: LookupResult)
    ensures policy.category == CategoryPoll ==> Authorize(rpc, policy, req, id, found) == AuthorizePoll(req, id)
    ensures policy.category == CategoryToken ==> Authorize(rpc, policy, req, id, found) == AuthorizeToken(rpc, policy, req, id, found)
    ensures policy.category == CategoryUnscoped ==> Authorize(rpc, policy, req, id, found) == Allow("")
    ensures policy.category == CategoryNamespaceOnly ==>
              Authorize(rpc, policy, req, id, found) == if NamespaceMatches(req, id) then Allow("") else Deny
    ensures policy.category != CategoryToken ==> Authorize(rpc, policy, req, id, found) == Authorize(rpc, policy, req, id, Miss)
  {
    hide AuthorizePoll, AuthorizeToken, NamespaceMatches, HeartbeatsAllowed, RequestTaskQueueName;
  }

  lemma PresentedIs(policy: Policy, req: Request, id: Identity)
    requires policy.category == CategoryToken
    ensures var ns, token := RequestNamespace(req), RequestTaskToken(req);
      PresentedToken(policy, req, id)
        == if (ns.Some? && ns.value != id.namespace) || token == Some("") then None else token
  {
    hide RequestNamespace, RequestTaskToken;
  }

  // ---------- the branches of authorization ----------

  method AuthorizePollRequest(req: Request, id: Identity) returns (v: Verdict)
    ensures v == AuthorizePoll(req, id)
  {
    hide HeartbeatsAllowed;
    if !NamespaceMatches(req, id) { return Deny; }
    var tq := RequestTaskQueue(req);
    if tq.None? || tq.value.name == "" { return Deny; }
    var taskQueue := PollTaskQueueScope(tq.value);
    if taskQueue == "" { return Deny; }
    if !id.AllowsTaskQueue(taskQueue) { return Deny; }
    if req.PollNexusTaskQueueRequest? {
      var bad := ValidateWorkerHeartbeatTaskQueues(req.heartbeats, id.taskQueues);
      if bad.Some? { return Deny; }
    }
    return Allow(taskQueue);
  }

  method AuthorizeEntry(rpc: Rpc, policy: Policy, req: Request, id: Identity, entry: Entry) returns (v: Verdict)
    requires PresentedToken(policy, req, id).Some?
    ensures v == AuthorizeToken(rpc, policy, req, id, Hit(entry))
  {
    hide CommandsAllowed, PresentedToken;
    if entry.namespace != id.namespace || !id.AllowsTaskQueue(entry.taskQueue) { return Deny; }
    if rpc.RespondWorkflowTaskCompleted? && req.RespondWorkflowTaskCompletedRequest? {
      var ok := ValidateCommands(req.commands, id.namespace, entry.taskQueue);
      if !ok { return Deny; }
    }
    return Allow(entry.taskQueue);
  }

  method AuthorizeWorkerRequest(rpc: Rpc, policy: Policy, req: Request, id: Identity) returns (v: Verdict)
    requires policy.category == CategoryWorker
    ensures v == Authorize(rpc, policy, req, id, Miss)
  {
    hide NamespaceMatches, RequestTaskQueueName;
    if !NamespaceMatches(req, id) { return Deny; }
    var tq := RequestTaskQueueName(req);
    if tq.None? { return Allow(""); }
    if tq.value != "" && !id.AllowsTaskQueue(tq.value) { return Deny; }
    return Allow(tq.value);
  }

  method AuthorizeWorkerHeartbeatRequest(rpc: Rpc, policy: Policy, req: Request, id: Identity) returns (v: Verdict)
    requires policy.category == CategoryWorkerHeartbeat
    ensures v == Authorize(rpc, policy, req, id, Miss)
  {
    hide NamespaceMatches, HeartbeatsAllowed;
    if !NamespaceMatches(req, id) { return Deny; }
    if !req.RecordWorkerHeartbeatRequest? { return Deny; }
    var bad := ValidateWorkerHeartbeatTaskQueues(req.heartbeats, id.taskQueues);
    if bad.Some? { return Deny; }
    return Allow("");
  }

  /** The lines of a call are appended one by one. */
  method AppendActions(log: seq<LogLine>, c: CallId, req: Request) returns (longer: seq<LogLine>)
    ensures longer == log + LinesOf(c, OfRequest(req))
  {
    var actions := FromRequest(req);
    longer := log;
    var j := 0;
    while j < |actions|
      invariant 0 <= j <= |actions| && longer == log + LinesOf(c, actions[..j])
    {
      longer := longer + [LogLine(c, actions[j])];
      assert LinesOf(c, actions[..j + 1]) == LinesOf(c, actions[..j]) + [LogLine(c, actions[j])];
      j := j + 1;
    }
    assert actions[..j] == actions;
  }

  class UnaryInterceptor {
    var store: map<Token, Entry>
    var log: seq<LogLine>

    constructor ()
      ensures store == map[] && log == []
    {
      store := map[];
      log := [];
    }

    method AuthorizeTokenRequest(rpc: Rpc, policy: Policy, req: Request, id: Identity, lookupFails: bool) returns (v: Verdict)
      requires policy.category == CategoryToken
      ensures v == AuthorizeToken(rpc, policy, req, id, LookUp(store, PresentedToken(policy, req, id), lookupFails))
    {
      PresentedIs(policy, req, id);
      hide RequestTaskToken, RequestNamespace, PresentedToken, CommandsAllowed;
      var ns := RequestNamespace(req);
      if ns.Some? && ns.value != id.namespace { return Deny; }
      var token := RequestTaskToken(req);
      if token.None? || |token.value| == 0 { return Deny; }
      if lookupFails { return Unavailable; }
      if token.value !in store { return Deny; }
      v := AuthorizeEntry(rpc, policy, req, id, store[token.value]);
    }

    /** The authorization of a request, with its lookup in the store. */
    method AuthorizeRequest(rpc: Rpc, policy: Policy, req: Request, id: Identity, lookupFails: bool) returns (v: Verdict)
      ensures v == Authorize(rpc, policy, req, id, LookUp(store, PresentedToken(policy, req, id), lookupFails))
    {
      AuthorizeCases(rpc, policy, req, id, LookUp(store, PresentedToken(policy, req, id), lookupFails));
      hide Authorize, AuthorizePoll, AuthorizeToken, NamespaceMatches, PresentedToken, LookUp;
      match policy.category
      case CategoryPoll =>
        v := AuthorizePollRequest(req, id);
      case CategoryToken =>
        v := AuthorizeTokenRequest(rpc, policy, req, id, lookupFails);
      case CategoryUnscoped =>
        v := Allow("");
      case CategoryNamespaceOnly =>
        v := if NamespaceMatches(req, id) then Allow("") else Deny;
      case CategoryWorker =>
        v := AuthorizeWorkerRequest(rpc, policy, req, id);
      case CategoryWorkerHeartbeat =>
        v := AuthorizeWorkerHeartbeatRequest(rpc, policy, req, id);
    }

    /** A call that nothing interrupts leaves store, log and outcome as its events do one after another. */
    method Intercept(c: CallId, rpc: Rpc, req: Request, env: Environment) returns (outcome: Outcome)
      modifies this
      ensures EndsAs(c, rpc, req, env, old(store), old(log), outcome, store, log)
    {
      hide Authorize, Script, Run, EndsAs;
      ScriptOwn(c, rpc, req, env);
      AfterCheck(c, rpc, req, env, store, log);
      var policy := Allowed(rpc);
      if policy.None? || !c.who.valid {
        EndOfScript(c, rpc, req, env, store, log, 2, Denied, store, log);
        return Denied;
      }
      var verdict := AuthorizeRequest(rpc, policy.value, req, c.who, env.lookupFails);
      if verdict.Deny? {
        EndOfScript(c, rpc, req, env, store, log, 2, Denied, store, log);
        return Denied;
      }
      if verdict.Unavailable? {
        EndOfScript(c, rpc, req, env, store, log, 2, LookupUnavailable, store, log);
        return LookupUnavailable;
      }
      outcome := Respond(c, rpc, req, env, policy.value, verdict.scope);
    }

    /** The rest of an authorized call: upstream answers, the consumed token is removed, the tokens of
        the response are put one by one, the actions are logged. */
    method Respond(c: CallId, rpc: Rpc, req: Request, env: Environment, policy: Policy, scope: string) returns (outcome: Outcome)
      requires Allowed(rpc) == Some(policy) && 2 <= |Script(c, rpc, req, env)|
      requires Only(StateAfter(c, rpc, req, env, store, log, 2), c, Call(rpc, req, Authorized(scope)), store, log)
      modifies this
      ensures EndsAs(c, rpc, req, env, old(store), old(log), outcome, store, log)
    {
      hide Only, StateAfter, ResponseTokens, Script, OfRequest, LinesOf, EndsAs, RequestTaskToken;
      ghost var store0, log0 := store, log;
      ScriptOwn(c, rpc, req, env);
      AfterReply(c, rpc, req, env, store, log, scope);
      if !env.answer.Replied? {
        EndOfScript(c, rpc, req, env, store, log, 3, UpstreamFailed(env.answer.ReplyLost?), store, log);
        return UpstreamFailed(env.answer.ReplyLost?);
      }
      var resp := env.answer.resp;
      AfterDelete(c, rpc, req, env, store, log, scope);
      var deleted := false;
      if policy.terminal {
        var token := RequestTaskToken(req);
        if token.Some? {
          if env.deleteApplied {
            store := store - {token.value};
          }
          deleted := env.deleteApplied;
        }
      }

      var tokens := CollectResponseTaskTokens(resp);
      var i := 0;
      while i < |tokens|
        invariant 0 <= i <= |tokens| && log == log0
        invariant Only(StateAfter(c, rpc, req, env, store0, log0, 4 + i), c,
                       Call(rpc, req, Registering(scope, resp, deleted, i)), store, log)
      {
        AfterPut(c, rpc, req, env, store0, log0, store, Registering(scope, resp, deleted, i), i);
        if scope == "" {
          EndOfScript(c, rpc, req, env, store0, log0, 5 + i, MissingScope(scope, resp, deleted), store, log);
          return MissingScope(scope, resp, deleted);
        }
        if env.putAcked(i) || env.putApplied(i) {
          store := store[tokens[i] := Entry(c.who.namespace, scope)];
        }
        if !env.putAcked(i) {
          outcome := PutUnavailable(scope, resp, deleted, i, env.putApplied(i));
          EndOfScript(c, rpc, req, env, store0, log0, 5 + i, outcome, store, log);
          return;
        }
        i := i + 1;
      }

      AfterFinish(c, rpc, req, env, store0, log0, store, Registering(scope, resp, deleted, i));
      log := AppendActions(log, c, req);
      EndOfScript(c, rpc, req, env, store0, log0, 5 + i, Delivered(scope, resp, deleted), store, log);
      return Delivered(scope, resp, deleted);
    }
  }
}

/** What every run does with a call, told by the fields of its request: which calls get anywhere, in whose
    namespace, which tokens they end, and what becomes of them when the store fails. */
module ProxyCalls {
  import opened Tokens
  import opened RpcPolicy
  import opened Scope
  import opened Auth
  import opened Proxy
  import opened ProxyTrail

  /** Calls bring the request type of their RPC. */
  ghost predicate TypedCalls(events: seq<Event>) {
    forall e :: e in events && e.Begin? ==> RequestOf(e.rpc, e.req)
  }

  /** A success of the RPC ends the task it refers to. */
  predicate EndsTask(rpc: Rpc) {
    || rpc.RespondWorkflowTaskCompleted? || rpc.RespondWorkflowTaskFailed?
    || rpc.RespondActivityTaskCompleted? || rpc.RespondActivityTaskFailed? || rpc.RespondActivityTaskCanceled?
    || rpc.RespondNexusTaskCompleted? || rpc.RespondNexusTaskFailed?
  }

  /** Authorization has let the call through. */
  predicate LetThrough(phase: Phase) {
    !phase.Begun? && phase != Done(Denied) && phase != Done(LookupUnavailable)
  }

  /** Upstream has answered the call, and what it had to remove is dealt with; `removed` tells how. */
  predicate PastRemoval(phase: Phase, removed: bool) {
    match phase
    case Registering(_, _, deleted, _) => deleted == removed
    case Done(Delivered(_, _, deleted)) => deleted == removed
    case Done(MissingScope(_, _, deleted)) => deleted == removed
    case Done(PutUnavailable(_, _, deleted, _, _)) => deleted == removed
    case _ => false
  }

  predicate InNamespace(c: CallId, req: Request) {
    req.GetSystemInfoRequest? || req.OtherRequest? || req.namespace == c.who.namespace
  }

  ghost predicate CallTold(c: CallId, call: Call, events: seq<Event>) {
    && RequestOf(call.rpc, call.req)
    && (LetThrough(call.phase) ==> c.who.valid && !call.rpc.OtherRpc? && InNamespace(c, call.req))
    && (call.phase.Answered? ==> EndsTask(call.rpc))
    && (PastRemoval(call.phase, true) ==> EndsTask(call.rpc) && DeleteToken(c, true) in events)
    && (PastRemoval(call.phase, false) && EndsTask(call.rpc) ==> DeleteToken(c, false) in events)
  }

  ghost predicate AllTold(st: State, events: seq<Event>) {
    forall c :: c in st.calls ==> CallTold(c, st.calls[c], events)
  }

  lemma CheckTold(c: CallId, call: Call, found: LookupResult)
    requires RequestOf(call.rpc, call.req) && LetThrough(CheckPhase(c, call, found))
    ensures c.who.valid && !call.rpc.OtherRpc? && InNamespace(c, call.req)
  {
  }

  lemma TerminalByName(call: Call)
    requires RequestOf(call.rpc, call.req)
    ensures IsTerminal(call) <==> EndsTask(call.rpc)
    ensures EndsTask(call.rpc) ==> CarriesToken(call.req) && RequestTaskToken(call.req) == Some(call.req.token)
  {
  }

  lemma PhaseTold(found: LookupResult, e: Event, call: Call, events: seq<Event>)
    requires !e.Begin? && !e.Lose? && CallTold(e.c, call, events)
    ensures CallTold(e.c, call.(phase := NextPhase(found, e, call)), events + [e])
  {
    TerminalByName(call);
    if e.Check? && call.phase.Begun? && LetThrough(CheckPhase(e.c, call, found)) {
      CheckTold(e.c, call, found);
    }
    assert forall x :: x in events ==> x in events + [e];
    assert e in events + [e];
    hide CheckPhase, ResponseTokens, RequestTaskToken, RequestOf, EndsTask, InNamespace, IsTerminal;
  }

  lemma StepTold(st: State, e: Event, events: seq<Event>)
    requires AllTold(st, events) && (e.Begin? ==> RequestOf(e.rpc, e.req))
    ensures AllTold(Step(st, e), events + [e])
  {
    hide NextPhase, NewLines, NewlyAccepted, EffectOf, Found;
    var st' := Step(st, e);
    forall c | c in st'.calls ensures CallTold(c, st'.calls[c], events + [e]) {
      if c in st.calls {
        assert CallTold(c, st.calls[c], events);
        if !e.Begin? && !e.Lose? && e.c == c {
          PhaseTold(Found(st.store, e, st.calls[c]), e, st.calls[c], events);
        } else {
          assert st'.calls[c] == st.calls[c];
          StaysTold(c, st.calls[c], events, e);
        }
      }
    }
  }

  lemma StaysTold(c: CallId, call: Call, events: seq<Event>, e: Event)
    requires CallTold(c, call, events)
    ensures CallTold(c, call, events + [e])
  {
  }

  lemma {:induction false} RunTold(events: seq<Event>)
    requires TypedCalls(events)
    ensures AllTold(Run(INIT, events), events)
  {
    if events != [] {
      var k := |events| - 1;
      var e := events[k];
      assert events == events[..k] + [e] && e in events;
      RunTold(events[..k]);
      RunAppend(INIT, events[..k], [e]);
      var st := Run(INIT, events[..k]);
      assert Run(st, [e]) == Run(Step(st, e), []);
      StepTold(st, e, events[..k]);
    }
  }

  /** A call of an RPC outside the table ends denied: it never gets past authorization, it never asks the
      store for anything and it changes nothing there. */
  lemma OutsideTheTable(events: seq<Event>, c: CallId)
    requires TypedCalls(events) && c in Run(INIT, events).calls && Run(INIT, events).calls[c].rpc.OtherRpc?
    ensures var st := Run(INIT, events);
      && st.calls[c].phase in {Begun, Done(Denied)}
      && Presents(c, st.calls[c]).None? && EffectsOf(st.history, c) == []
    ensures Step(Run(INIT, events), Check(c, false)).calls[c].phase == Done(Denied)
  {
    RunTold(events);
    var st := Run(INIT, events);
    assert CallTold(c, st.calls[c], events);
    OnlyListed(st.calls[c].rpc);
    NotUnavailable(events);
    TrailIsExact(events, c);
  }

  /** Only a call that presents a token can find the store unavailable. */
  ghost predicate UnavailableForAToken(st: State) {
    forall c :: c in st.calls && st.calls[c].phase == Done(LookupUnavailable) ==> Presents(c, st.calls[c]).Some?
  }

  lemma StepUnavailable(st: State, e: Event)
    requires UnavailableForAToken(st)
    ensures UnavailableForAToken(Step(st, e))
  {
    hide NewLines, NewlyAccepted, EffectOf, ResponseTokens, RequestTaskToken, RequestNamespace, CommandsAllowed;
    var st' := Step(st, e);
    forall c | c in st'.calls && st'.calls[c].phase == Done(LookupUnavailable) ensures Presents(c, st'.calls[c]).Some? {
      if c in st.calls && st.calls[c].phase != Done(LookupUnavailable) {
        assert e.Check? && e.c == c && st.calls[c].phase.Begun?;
      }
    }
  }

  lemma {:induction false} NotUnavailable(events: seq<Event>)
    ensures UnavailableForAToken(Run(INIT, events))
  {
    if events != [] {
      var k := |events| - 1;
      assert events == events[..k] + [events[k]];
      NotUnavailable(events[..k]);
      RunAppend(INIT, events[..k], [events[k]]);
      var st := Run(INIT, events[..k]);
      assert Run(st, [events[k]]) == Run(Step(st, events[k]), []);
      StepUnavailable(st, events[k]);
    }
  }

  /** In every run each call that authorization has let through belongs to a valid identity and names the
      namespace of its caller. */
  lemma LetThroughInOwnNamespace(events: seq<Event>, c: CallId)
    requires TypedCalls(events) && c in Run(INIT, events).calls && LetThrough(Run(INIT, events).calls[c].phase)
    ensures var call := Run(INIT, events).calls[c];
      && c.who.valid && !call.rpc.OtherRpc? && !call.req.OtherRequest?
      && (call.req.GetSystemInfoRequest? || call.req.namespace == c.who.namespace)
  {
    RunTold(events);
    assert CallTold(c, Run(INIT, events).calls[c], events);
  }

  /** A call whose RPC ends its task has tried to remove the token of its request before it registers or
      delivers anything. If that took effect, it is the first thing the call did to the store; a call of
      any other RPC removes nothing. */
  lemma TerminalCallsRemove(events: seq<Event>, c: CallId, removed: bool)
    requires TypedCalls(events) && c in Run(INIT, events).calls && PastRemoval(Run(INIT, events).calls[c].phase, removed)
    ensures var st := Run(INIT, events);
      var call, effects := st.calls[c], EffectsOf(st.history, c);
      && (EndsTask(call.rpc) ==> DeleteToken(c, removed) in events)
      && (removed <==> effects != [] && effects[0].Unbound?)
      && (removed ==> EndsTask(call.rpc) && CarriesToken(call.req) && effects[0] == Unbound(c, call.req.token))
      && (forall i :: (if removed then 1 else 0) <= i < |effects| ==> effects[i].Bound?)
  {
    RunTold(events);
    TrailIsExact(events, c);
    var call := Run(INIT, events).calls[c];
    assert CallTold(c, call, events);
    TerminalByName(call);
    hide Run, EffectsOf, ResponseTokens, RequestTaskToken, IsTerminal, EndsTask, RequestOf;
  }

  /** The store's failures fail closed: a lookup that fails stops the call before it is forwarded, and a put
      that fails withholds the reply, whether or not it took effect. Only a failed removal is passed over. */
  lemma FailsClosed(st: State, c: CallId, applied: bool)
    requires c in st.calls && c.who.valid
    ensures st.calls[c].phase.Begun? && Presents(c, st.calls[c]).Some? ==>
              && Step(st, Check(c, true)).calls[c].phase == Done(LookupUnavailable)
              && Step(st, Check(c, true)).store == st.store
    ensures var p := st.calls[c].phase;
      p.Registering? && p.put < |ResponseTokens(p.resp)| && p.scope != "" ==>
        Step(st, PutToken(c, false, applied)).calls[c].phase
          == Done(PutUnavailable(p.scope, p.resp, p.deleted, p.put, applied))
    ensures var p := st.calls[c].phase;
      p.Answered? && IsTerminal(st.calls[c]) ==>
        && Step(st, DeleteToken(c, false)).calls[c].phase == Registering(p.scope, p.resp, false, 0)
        && Step(st, DeleteToken(c, false)).store == st.store
  {
    hide ResponseTokens, RequestTaskToken, RequestNamespace;
  }
}

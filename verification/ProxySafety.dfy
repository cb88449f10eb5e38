/** What holds of the store and of the scope of every call, over all runs. */
module ProxySafety {
  import opened Tokens
  import opened RpcPolicy
  import opened Scope
  import opened Auth
  import opened Proxy
  import opened ProxyTrail

  /** Every identity that begins a call and is valid is a configured one, and those are sound. */
  ghost predicate Configured(events: seq<Event>, known: set<Identity>) {
    && (forall id :: id in known ==> Sound(id))
    && (forall e :: e in events && e.Begin? && e.c.who.valid ==> e.c.who in known)
  }

  /** An entry that some configured identity is authorized for. */
  ghost predicate Legitimate(entry: Entry, known: set<Identity>) {
    entry.taskQueue != "" && exists id :: id in known && id.Owns(entry)
  }

  /** The RPCs whose scope names a queue for certain. */
  predicate NamesQueue(rpc: Rpc) {
    Allowed(rpc).Some? && (Allowed(rpc).value.category.CategoryPoll? || Allowed(rpc).value.category.CategoryToken?)
  }

  /** A scope authorization may have given to a call. */
  ghost predicate ScopeFits(c: CallId, rpc: Rpc, scope: string, known: set<Identity>) {
    c.who in known && (scope == "" || c.who.AllowsTaskQueue(scope)) && (NamesQueue(rpc) ==> scope != "")
  }

  ghost predicate CallFits(c: CallId, call: Call, known: set<Identity>) {
    match call.phase
    case Begun => c.who.valid ==> c.who in known
    case Authorized(scope) => ScopeFits(c, call.rpc, scope, known)
    case Answered(scope, _) => ScopeFits(c, call.rpc, scope, known)
    case Registering(scope, _, _, _) => ScopeFits(c, call.rpc, scope, known)
    case Done(_) => true
  }

  ghost predicate StoreInv(st: State, known: set<Identity>) {
    && (forall id :: id in known ==> Sound(id))
    && (forall t :: t in st.store ==> Legitimate(st.store[t], known))
    && (forall c :: c in st.calls ==> CallFits(c, st.calls[c], known))
  }

  /** What authorization concludes from the answer of a sound store. */
  lemma AuthorizedScope(rpc: Rpc, policy: Policy, req: Request, id: Identity, found: LookupResult)
    requires Allowed(rpc) == Some(policy) && Sound(id)
    requires Authorize(rpc, policy, req, id, found).Allow?
    requires found.Hit? ==> found.entry.taskQueue != ""
    ensures var scope := Authorize(rpc, policy, req, id, found).scope;
      (scope == "" || id.AllowsTaskQueue(scope)) && (NamesQueue(rpc) ==> scope != "")
  {
  }

  lemma CheckFits(st: State, c: CallId, fails: bool, known: set<Identity>)
    requires StoreInv(st, known) && c in st.calls
    ensures CallFits(c, Step(st, Check(c, fails)).calls[c], known)
  {
    var call := st.calls[c];
    var found := LookUp(st.store, Presents(c, call), fails);
    if call.phase.Begun? && CheckPhase(c, call, found).Authorized? {
      assert found.Hit? ==> found.entry.taskQueue != "";
      AuthorizedScope(call.rpc, Allowed(call.rpc).value, call.req, c.who, found);
    }
  }

  lemma PutFits(st: State, c: CallId, acked: bool, applied: bool, known: set<Identity>, t: Token)
    requires StoreInv(st, known)
    requires t in Step(st, PutToken(c, acked, applied)).store
    ensures Legitimate(Step(st, PutToken(c, acked, applied)).store[t], known)
  {
    if c in st.calls && st.calls[c].phase.Registering? {
      var entry := Entry(c.who.namespace, st.calls[c].phase.scope);
      assert CallFits(c, st.calls[c], known);
      if entry.taskQueue != "" {
        assert c.who in known && c.who.Owns(entry);
      }
    }
  }

  lemma StepKeepsStoreInv(st: State, e: Event, known: set<Identity>)
    requires StoreInv(st, known) && (e.Begin? && e.c.who.valid ==> e.c.who in known)
    ensures StoreInv(Step(st, e), known)
  {
    var st' := Step(st, e);
    forall c | c in st'.calls ensures CallFits(c, st'.calls[c], known) {
      if c in st.calls {
        assert CallFits(c, st.calls[c], known);
      }
      if e.Check? && e.c == c {
        CheckFits(st, c, e.fails, known);
      }
    }
    forall t | t in st'.store ensures Legitimate(st'.store[t], known) {
      if e.PutToken? {
        PutFits(st, e.c, e.acked, e.applied, known, t);
      }
    }
  }

  lemma {:induction false} RunKeepsStoreInv(st: State, events: seq<Event>, known: set<Identity>)
    requires StoreInv(st, known) && Configured(events, known)
    ensures StoreInv(Run(st, events), known)
    decreases |events|
  {
    if events != [] {
      assert events[0] in events;
      StepKeepsStoreInv(st, events[0], known);
      RunKeepsStoreInv(Step(st, events[0]), events[1..], known);
    }
  }

  /** In every run every stored entry has a queue and belongs to a configured identity. */
  lemma StoreInvariant(events: seq<Event>, known: set<Identity>, t: Token)
    requires Configured(events, known) && t in Run(INIT, events).store
    ensures Legitimate(Run(INIT, events).store[t], known)
  {
    RunKeepsStoreInv(INIT, events, known);
  }

  // ---------- the branch that is never taken ----------

  /** Upstream answers each call with the response type of its RPC. */
  predicate TypedRun(st: State, events: seq<Event>)
    decreases |events|
  {
    events == [] ||
    (&& (events[0].Reply? && events[0].answer.Replied? && events[0].c in st.calls ==>
           ResponseOf(st.calls[events[0].c].rpc, events[0].answer.resp))
     && TypedRun(Step(st, events[0]), events[1..]))
  }

  ghost predicate CallTyped(call: Call) {
    match call.phase
    case Answered(_, resp) => ResponseOf(call.rpc, resp)
    case Registering(_, resp, _, _) => ResponseOf(call.rpc, resp)
    case Done(outcome) => !outcome.MissingScope?
    case _ => true
  }

  lemma TokensNeedAQueue(rpc: Rpc, resp: Response)
    requires ResponseOf(rpc, resp) && ResponseTokens(resp) != []
    ensures NamesQueue(rpc)
  {
  }

  lemma StepKeepsTyped(st: State, e: Event, known: set<Identity>)
    requires StoreInv(st, known) && forall c :: c in st.calls ==> CallTyped(st.calls[c])
    requires e.Reply? && e.answer.Replied? && e.c in st.calls ==> ResponseOf(st.calls[e.c].rpc, e.answer.resp)
    ensures forall c :: c in Step(st, e).calls ==> CallTyped(Step(st, e).calls[c])
  {
    var st' := Step(st, e);
    forall c | c in st'.calls ensures CallTyped(st'.calls[c]) {
      if c in st.calls {
        assert CallTyped(st.calls[c]) && CallFits(c, st.calls[c], known);
        var p := st.calls[c].phase;
        if e.PutToken? && e.c == c && p.Registering? && p.put < |ResponseTokens(p.resp)| {
          TokensNeedAQueue(st.calls[c].rpc, p.resp);
        }
      }
    }
  }

  lemma {:induction false} RunKeepsTyped(st: State, events: seq<Event>, known: set<Identity>)
    requires StoreInv(st, known) && Configured(events, known) && TypedRun(st, events)
    requires forall c :: c in st.calls ==> CallTyped(st.calls[c])
    ensures forall c :: c in Run(st, events).calls ==> CallTyped(Run(st, events).calls[c])
    decreases |events|
  {
    if events != [] {
      assert events[0] in events;
      StepKeepsTyped(st, events[0], known);
      StepKeepsStoreInv(st, events[0], known);
      RunKeepsTyped(Step(st, events[0]), events[1..], known);
    }
  }

  /** With upstream responses of the right type no run ever ends a call for want of a queue scope. */
  lemma MissingScopeIsUnreachable(events: seq<Event>, known: set<Identity>, c: CallId)
    requires Configured(events, known) && TypedRun(INIT, events) && c in Run(INIT, events).calls
    ensures var phase := Run(INIT, events).calls[c].phase;
      !(phase.Done? && phase.outcome.MissingScope?)
  {
    RunKeepsTyped(INIT, events, known);
  }

  // ---------- the life of a token ----------

  /** An RPC that is not terminal removes no binding. */
  lemma OnlyTerminalCallsRemove(st: State, e: Event, t: Token)
    requires t in st.store && t !in Step(st, e).store
    ensures e == Lose(t)
      || (e.DeleteToken? && e.c in st.calls && IsTerminal(st.calls[e.c]) && RequestTaskToken(st.calls[e.c].req) == Some(t))
  {
  }

  /** Heartbeats and query completions are not terminal, every other token RPC is. */
  lemma TerminalExactly(rpc: Rpc)
    requires Allowed(rpc).Some?
    ensures Allowed(rpc).value.terminal
      <==> Allowed(rpc).value.category.CategoryToken?
           && !rpc.RecordActivityTaskHeartbeat? && !rpc.RespondQueryTaskCompleted?
  {
  }

  lemma {:induction false} HistoryGrows(st: State, events: seq<Event>)
    ensures st.history <= Run(st, events).history
    decreases |events|
  {
    if events != [] {
      HistoryGrows(Step(st, events[0]), events[1..]);
    }
  }

  /** Does this history bind `t` at or after position `from`? */
  ghost predicate BindsSince(history: seq<Effect>, from: nat, t: Token) {
    exists i :: from <= i < |history| && history[i].Bound? && history[i].token == t
  }

  lemma UnboundWithoutBinding(st: State, e: Event, t: Token, final: seq<Effect>)
    requires t !in st.store && Step(st, e).history <= final
    requires !BindsSince(final, |st.history|, t)
    ensures t !in Step(st, e).store && !BindsSince(final, |Step(st, e).history|, t)
  {
    var st1 := Step(st, e);
    if |st1.history| > |st.history| {
      var last := st1.history[|st.history|];
      assert final[|st.history|] == last;
      assert !(last.Bound? && last.token == t);
    }
  }

  lemma {:induction false} StaysUnbound(st: State, events: seq<Event>, t: Token)
    requires t !in st.store && !BindsSince(Run(st, events).history, |st.history|, t)
    ensures t !in Run(st, events).store
    decreases |events|
  {
    if events != [] {
      var st1 := Step(st, events[0]);
      HistoryGrows(st1, events[1..]);
      UnboundWithoutBinding(st, events[0], t, Run(st, events).history);
      StaysUnbound(st1, events[1..], t);
    }
  }

  /** Once the delete of a terminal call has taken effect, whatever other calls do in the meantime,
      a call that presents the token is turned away until some response binds the token again. */
  lemma ConsumedTokenIsDenied(st: State, c: CallId, events: seq<Event>, d: CallId, fails: bool)
    requires c in st.calls && st.calls[c].phase.Answered? && IsTerminal(st.calls[c])
    requires var st1 := Step(st, DeleteToken(c, true));
      var st2 := Run(st1, events);
      && !BindsSince(st2.history, |st1.history|, RequestTaskToken(st.calls[c].req).value)
      && d in st2.calls && st2.calls[d].phase.Begun?
      && Presents(d, st2.calls[d]) == RequestTaskToken(st.calls[c].req)
    ensures var st2 := Run(Step(st, DeleteToken(c, true)), events);
      Step(st2, Check(d, fails)).calls[d].phase in {Done(Denied), Done(LookupUnavailable)}
  {
    var t := RequestTaskToken(st.calls[c].req).value;
    var st1 := Step(st, DeleteToken(c, true));
    assert t !in st1.store;
    StaysUnbound(st1, events, t);
  }

  // ---------- follow-ups ----------

  lemma {:induction false} LastEffectOf(history: seq<Effect>, c: CallId, t: Token)
    requires LastEffect(history, t).Some? && !LastEffect(history, t).value.Lost? && LastEffect(history, t).value.call == c
    ensures LastEffect(EffectsOf(history, c), t) == LastEffect(history, t)
  {
    var rest := history[..|history| - 1];
    if history[|history| - 1].token == t {
      assert EffectsOf(history, c)[..|EffectsOf(rest, c)|] == EffectsOf(rest, c);
    } else {
      LastEffectOf(rest, c, t);
      assert EffectsOf(history, c)[..|EffectsOf(rest, c)|] == EffectsOf(rest, c);
    }
  }

  lemma {:induction false} LastBinding(prefix: seq<Effect>, c: CallId, scope: string, tokens: seq<Token>, t: Token)
    requires t in tokens
    ensures var l := LastEffect(prefix + Bindings(c, scope, tokens), t);
      l == Some(Bound(c, t, Entry(c.who.namespace, scope)))
  {
    var n := |tokens| - 1;
    var all := prefix + Bindings(c, scope, tokens);
    assert tokens == tokens[..n] + [tokens[n]];
    assert all[..|all| - 1] == prefix + Bindings(c, scope, tokens[..n]);
    if tokens[n] != t {
      LastBinding(prefix, c, scope, tokens[..n], t);
    }
  }

  /** A token that a delivered reply carried, and to which nothing has happened since, is bound to the
      namespace of the caller and the queue of the call; a token reissued by the response of the very
      call that consumed it is among them, because the removal comes first. */
  lemma DeliveredTokenIsBound(events: seq<Event>, c: CallId, t: Token)
    requires var st := Run(INIT, events);
      && c in st.calls && st.calls[c].phase.Done? && st.calls[c].phase.outcome.Delivered?
      && Hands(st.calls[c].phase.outcome.resp, t)
      && LastEffect(st.history, t).Some? && !LastEffect(st.history, t).value.Lost?
      && LastEffect(st.history, t).value.call == c
    ensures var st := Run(INIT, events);
      t in st.store && st.store[t] == Entry(c.who.namespace, st.calls[c].phase.outcome.scope)
  {
    var st := Run(INIT, events);
    var out := st.calls[c].phase.outcome;
    TrailIsExact(events, c);
    CollectedIffHanded(out.resp, t);
    hide Hands, ResponseTokens;
    LastEffectOf(st.history, c, t);
    LastBinding(Removal(c, st.calls[c], out.deleted), c, out.scope, ResponseTokens(out.resp), t);
    BoundByTheLastPut(events, t);
  }

  /** The namespace and the commands of a token request are in order. */
  predicate InOrder(c: CallId, call: Call, t: Token, taskQueue: string) {
    && c.who.valid
    && Presents(c, call) == Some(t)
    && (call.rpc.RespondWorkflowTaskCompleted? && call.req.RespondWorkflowTaskCompletedRequest? ==>
          CommandsAllowed(call.req.commands, c.who.namespace, taskQueue))
  }

  /** No legitimate follow-up is denied: such a token is accepted, under the same queue, from any
      identity of that namespace that holds the queue, and from no other. */
  lemma FollowUpAcceptedIff(events: seq<Event>, c: CallId, t: Token, d: CallId)
    requires var st := Run(INIT, events);
      && c in st.calls && st.calls[c].phase.Done? && st.calls[c].phase.outcome.Delivered?
      && Hands(st.calls[c].phase.outcome.resp, t)
      && LastEffect(st.history, t).Some? && !LastEffect(st.history, t).value.Lost?
      && LastEffect(st.history, t).value.call == c
      && d in st.calls && st.calls[d].phase.Begun?
      && InOrder(d, st.calls[d], t, st.calls[c].phase.outcome.scope)
    ensures var st := Run(INIT, events);
      var q := st.calls[c].phase.outcome.scope;
      Step(st, Check(d, false)).calls[d].phase
        == if d.who.namespace == c.who.namespace && d.who.AllowsTaskQueue(q) then Authorized(q) else Done(Denied)
  {
    DeliveredTokenIsBound(events, c, t);
  }
}

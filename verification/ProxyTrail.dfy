/** What each call has done to the token store, at every moment of every run. */
module ProxyTrail {
  import opened Tokens
  import opened Scope
  import opened Proxy

  /** The effects one call had, in order. */
  function EffectsOf(history: seq<Effect>, c: CallId): seq<Effect> {
    if history == [] then [] else
    var rest := EffectsOf(history[..|history| - 1], c);
    var last := history[|history| - 1];
    if !last.Lost? && last.call == c then rest + [last] else rest
  }

  function Bindings(c: CallId, scope: string, tokens: seq<Token>): seq<Effect> {
    seq(|tokens|, i requires 0 <= i < |tokens| => Bound(c, tokens[i], Entry(c.who.namespace, scope)))
  }

  function Removal(c: CallId, call: Call, deleted: bool): seq<Effect> {
    if deleted && IsTerminal(call) then [Unbound(c, RequestTaskToken(call.req).value)] else []
  }

  /** The effects a call must have had, given how far it got: none before upstream has answered; then
      the removal of the token it consumed, if that took effect; then one binding after the other, to
      the caller's namespace and the scoped queue, in the order of the response. */
  function ExpectedTrail(c: CallId, call: Call): seq<Effect> {
    match call.phase
    case Begun => []
    case Authorized(_) => []
    case Answered(_, _) => []
    case Registering(scope, resp, deleted, put) =>
      Removal(c, call, deleted)
      + Bindings(c, scope, if put <= |ResponseTokens(resp)| then ResponseTokens(resp)[..put] else [])
    case Done(outcome) =>
      match outcome
      case Denied => []
      case LookupUnavailable => []
      case UpstreamFailed(_) => []
      case Delivered(scope, resp, deleted) =>
        Removal(c, call, deleted) + Bindings(c, scope, ResponseTokens(resp))
      case MissingScope(_, _, deleted) => Removal(c, call, deleted)
      case PutUnavailable(scope, resp, deleted, put, maybePut) =>
        var sent := if maybePut then put + 1 else put;
        Removal(c, call, deleted)
        + Bindings(c, scope, if sent <= |ResponseTokens(resp)| then ResponseTokens(resp)[..sent] else [])
  }

  predicate InRange(call: Call) {
    match call.phase
    case Registering(_, resp, _, put) => put <= |ResponseTokens(resp)|
    case Done(PutUnavailable(_, resp, _, put, _)) => put < |ResponseTokens(resp)|
    case _ => true
  }

  /** A call that may still bind has not been stopped for want of a scope. */
  predicate PutsAreScoped(call: Call) {
    match call.phase
    case Registering(scope, _, _, put) => scope == "" ==> put == 0
    case Done(MissingScope(scope, _, _)) => scope == ""
    case _ => true
  }

  ghost predicate OnTrail(st: State, c: CallId)
    requires c in st.calls
  {
    && EffectsOf(st.history, c) == ExpectedTrail(c, st.calls[c])
    && InRange(st.calls[c]) && PutsAreScoped(st.calls[c])
  }

  ghost predicate TrailInv(st: State) {
    && (forall c :: c in st.calls ==> OnTrail(st, c))
    && (forall c :: c !in st.calls ==> EffectsOf(st.history, c) == [])
  }

  lemma EffectsAppend(history: seq<Effect>, e: Effect, c: CallId)
    ensures EffectsOf(history + [e], c)
         == if !e.Lost? && e.call == c then EffectsOf(history, c) + [e] else EffectsOf(history, c)
  {
    assert (history + [e])[..|history|] == history;
  }

  lemma BindingsAppend(c: CallId, scope: string, tokens: seq<Token>, n: nat)
    requires n < |tokens|
    ensures Bindings(c, scope, tokens[..n + 1])
         == Bindings(c, scope, tokens[..n]) + [Bound(c, tokens[n], Entry(c.who.namespace, scope))]
  {
  }

  lemma NoBindings(c: CallId, scope: string, tokens: seq<Token>)
    ensures Bindings(c, scope, tokens[..0]) == []
  {
  }

  lemma OwnReply(st: State, c: CallId, answer: Answer)
    requires c in st.calls && OnTrail(st, c)
    ensures OnTrail(Step(st, Reply(c, answer)), c)
  {
    assert Bindings(c, "", []) == [];
    if answer.Replied? {
      assert ResponseTokens(answer.resp)[..0] == [];
    }
  }

  lemma OwnDelete(st: State, c: CallId, applied: bool)
    requires c in st.calls && OnTrail(st, c)
    ensures OnTrail(Step(st, DeleteToken(c, applied)), c)
  {
    hide ResponseTokens, EffectsOf, Bindings, RequestTaskToken;
    var call := st.calls[c];
    if call.phase.Answered? && IsTerminal(call) {
      EffectsAppend(st.history, Unbound(c, RequestTaskToken(call.req).value), c);
      NoBindings(c, call.phase.scope, ResponseTokens(call.phase.resp));
    }
  }

  /** How one put lengthens what is expected of a call. */
  lemma PutExpected(c: CallId, call: Call, acked: bool, applied: bool)
    requires call.phase.Registering? && call.phase.put < |ResponseTokens(call.phase.resp)| && call.phase.scope != ""
    ensures var p := call.phase;
      var next := call.(phase := if acked then p.(put := p.put + 1)
                                 else Done(PutUnavailable(p.scope, p.resp, p.deleted, p.put, applied)));
      var bound := Bound(c, ResponseTokens(p.resp)[p.put], Entry(c.who.namespace, p.scope));
      && ExpectedTrail(c, next) == ExpectedTrail(c, call) + (if acked || applied then [bound] else [])
      && InRange(next)
  {
    hide ResponseTokens, Bindings;
    var p, tokens := call.phase, ResponseTokens(call.phase.resp);
    var was, bound := Removal(c, call, p.deleted), Bound(c, tokens[p.put], Entry(c.who.namespace, p.scope));
    BindingsAppend(c, p.scope, tokens, p.put);
    assert was + Bindings(c, p.scope, tokens[..p.put + 1]) == was + Bindings(c, p.scope, tokens[..p.put]) + [bound];
  }

  lemma OwnPut(st: State, c: CallId, acked: bool, applied: bool)
    requires c in st.calls && OnTrail(st, c)
    ensures OnTrail(Step(st, PutToken(c, acked, applied)), c)
  {
    hide ResponseTokens, EffectsOf, Bindings, RequestTaskToken;
    var p := st.calls[c].phase;
    if p.Registering? && p.put < |ResponseTokens(p.resp)| {
      var tokens := ResponseTokens(p.resp);
      NoBindings(c, p.scope, tokens);
      EffectsAppend(st.history, Bound(c, tokens[p.put], Entry(c.who.namespace, p.scope)), c);
      if p.scope == "" {
        assert Removal(c, st.calls[c], p.deleted) + [] == Removal(c, st.calls[c], p.deleted);
      } else {
        PutExpected(c, st.calls[c], acked, applied);
        assert ExpectedTrail(c, st.calls[c]) + [] == ExpectedTrail(c, st.calls[c]);
      }
    }
  }

  lemma OwnFinish(st: State, c: CallId)
    requires c in st.calls && OnTrail(st, c)
    ensures OnTrail(Step(st, Finish(c)), c)
  {
    hide ResponseTokens, EffectsOf, Bindings, RequestTaskToken;
    var p := st.calls[c].phase;
    if p.Registering? && p.put == |ResponseTokens(p.resp)| {
      assert ResponseTokens(p.resp)[..p.put] == ResponseTokens(p.resp);
    }
  }

  /** The call that makes a step stays on its trail. */
  lemma OwnStep(st: State, e: Event)
    requires !e.Lose? && !e.Begin? && e.c in st.calls && OnTrail(st, e.c)
    ensures e.c in Step(st, e).calls && OnTrail(Step(st, e), e.c)
  {
    match e
    case Check(c, fails) =>
    case Reply(c, answer) => OwnReply(st, c, answer);
    case DeleteToken(c, applied) => OwnDelete(st, c, applied);
    case PutToken(c, acked, applied) => OwnPut(st, c, acked, applied);
    case Finish(c) => OwnFinish(st, c);
  }

  /** What a step adds to the history is a loss or an effect of the call that makes it. */
  lemma OwnEffect(e: Event, call: Call)
    requires !e.Begin? && !e.Lose? && EffectOf(e, call).Some?
    ensures !EffectOf(e, call).value.Lost? && EffectOf(e, call).value.call == e.c
  {
  }

  /** A step of one call leaves the other calls and their trails alone. */
  lemma OtherStep(st: State, e: Event, d: CallId)
    requires e.Lose? || (!e.Begin? && e.c != d)
    ensures var st' := Step(st, e);
      && EffectsOf(st'.history, d) == EffectsOf(st.history, d)
      && (d in st'.calls <==> d in st.calls)
      && (d in st.calls ==> st'.calls[d] == st.calls[d])
  {
    hide NextPhase, NewLines, EffectOf, EffectsOf, Found, Apply;
    if e.Lose? {
      EffectsAppend(st.history, Lost(e.token), d);
    } else if e.c in st.calls && EffectOf(e, st.calls[e.c]).Some? {
      OwnEffect(e, st.calls[e.c]);
      EffectsAppend(st.history, EffectOf(e, st.calls[e.c]).value, d);
    }
  }

  lemma StepKeepsTrail(st: State, e: Event)
    requires TrailInv(st)
    ensures TrailInv(Step(st, e))
  {
    var st' := Step(st, e);
    if !e.Begin? {
      forall d ensures d in st'.calls ==> OnTrail(st', d)
               ensures d !in st'.calls ==> EffectsOf(st'.history, d) == []
      {
        if e.Lose? || e.c != d {
          OtherStep(st, e, d);
        } else if e.c in st.calls {
          OwnStep(st, e);
        }
      }
    }
  }

  lemma {:induction false} RunKeepsTrail(st: State, events: seq<Event>)
    requires TrailInv(st)
    ensures TrailInv(Run(st, events))
    decreases |events|
  {
    if events != [] {
      StepKeepsTrail(st, events[0]);
      RunKeepsTrail(Step(st, events[0]), events[1..]);
    }
  }

  lemma TrailAlways(events: seq<Event>)
    ensures TrailInv(Run(INIT, events))
  {
    RunKeepsTrail(INIT, events);
  }

  /** In every run, with calls interleaved in any way and any store failures, the effects of each call
      on the bindings are exactly the expected ones. */
  lemma TrailIsExact(events: seq<Event>, c: CallId)
    requires c in Run(INIT, events).calls
    ensures EffectsOf(Run(INIT, events).history, c) == ExpectedTrail(c, Run(INIT, events).calls[c])
  {
    RunKeepsTrail(INIT, events);
  }

  /** Registered before delivered: when a reply has reached the worker, every token in it has been
      bound by that call to the caller's namespace and the scoped queue, in order, after the removal
      of the consumed token. */
  lemma RegisteredBeforeDelivered(events: seq<Event>, c: CallId)
    requires var st := Run(INIT, events);
      c in st.calls && st.calls[c].phase.Done? && st.calls[c].phase.outcome.Delivered?
    ensures var st := Run(INIT, events);
      var out := st.calls[c].phase.outcome;
      && EffectsOf(st.history, c) == Removal(c, st.calls[c], out.deleted) + Bindings(c, out.scope, ResponseTokens(out.resp))
      && (forall t :: Hands(out.resp, t) ==>
            Bound(c, t, Entry(c.who.namespace, out.scope)) in EffectsOf(st.history, c))
  {
    TrailIsExact(events, c);
    var st := Run(INIT, events);
    var out := st.calls[c].phase.outcome;
    hide ResponseTokens, Hands;
    forall t | Hands(out.resp, t)
      ensures Bound(c, t, Entry(c.who.namespace, out.scope)) in EffectsOf(st.history, c)
    {
      CollectedIffHanded(out.resp, t);
      var i :| 0 <= i < |ResponseTokens(out.resp)| && ResponseTokens(out.resp)[i] == t;
      assert Bindings(c, out.scope, ResponseTokens(out.resp))[i] in Bindings(c, out.scope, ResponseTokens(out.resp));
    }
  }

  /** If a put fails the reply is withheld, and exactly a proper prefix of its tokens was put and
      acknowledged; only the token whose put failed may have been bound besides. */
  lemma FailedPutRegistersAPrefix(events: seq<Event>, c: CallId)
    requires var st := Run(INIT, events);
      c in st.calls && st.calls[c].phase.Done? && st.calls[c].phase.outcome.PutUnavailable?
    ensures var st := Run(INIT, events);
      var out := st.calls[c].phase.outcome;
      var tokens := ResponseTokens(out.resp);
      && out.put < |tokens|
      && EffectsOf(st.history, c) == Removal(c, st.calls[c], out.deleted)
           + Bindings(c, out.scope, tokens[..if out.maybePut then out.put + 1 else out.put])
  {
    hide Run, ResponseTokens, EffectsOf, Bindings;
    TrailAlways(events);
  }

  /** A call that was denied, or found the store unavailable, or whose handler failed, has changed no
      binding; nor has any call before upstream answered it. */
  lemma DeniedOrFailedKeepsBindings(events: seq<Event>, c: CallId)
    requires var st := Run(INIT, events);
      c in st.calls &&
      (st.calls[c].phase.Begun? || st.calls[c].phase.Authorized? || st.calls[c].phase.Answered?
       || st.calls[c].phase == Done(Denied) || st.calls[c].phase == Done(LookupUnavailable)
       || st.calls[c].phase == Done(UpstreamFailed(false)) || st.calls[c].phase == Done(UpstreamFailed(true)))
    ensures EffectsOf(Run(INIT, events).history, c) == []
  {
    TrailIsExact(events, c);
  }

  // ---------- the store is what its history says ----------

  function Replay(history: seq<Effect>): map<Token, Entry> {
    if history == [] then map[] else Apply(Replay(history[..|history| - 1]), history[|history| - 1])
  }

  /** The last effect on a token. */
  function LastEffect(history: seq<Effect>, t: Token): Option<Effect> {
    if history == [] then None else
    var last := history[|history| - 1];
    if last.token == t then Some(last) else LastEffect(history[..|history| - 1], t)
  }

  lemma {:induction false} ReplayByLastEffect(history: seq<Effect>, t: Token)
    ensures t in Replay(history) <==> LastEffect(history, t).Some? && LastEffect(history, t).value.Bound?
    ensures t in Replay(history) ==> Replay(history)[t] == LastEffect(history, t).value.entry
  {
    if history != [] {
      ReplayByLastEffect(history[..|history| - 1], t);
    }
  }

  lemma ReplayAppend(history: seq<Effect>, e: Effect)
    ensures Replay(history + [e]) == Apply(Replay(history), e)
  {
    assert (history + [e])[..|history|] == history;
  }

  lemma StepKeepsReplay(st: State, e: Event)
    requires st.store == Replay(st.history)
    ensures Step(st, e).store == Replay(Step(st, e).history)
  {
    var st' := Step(st, e);
    if st'.history != st.history {
      var last := st'.history[|st.history|];
      assert st'.history == st.history + [last];
      ReplayAppend(st.history, last);
    }
  }

  lemma {:induction false} StoreIsReplayFrom(st: State, events: seq<Event>)
    requires st.store == Replay(st.history)
    ensures Run(st, events).store == Replay(Run(st, events).history)
    decreases |events|
  {
    if events != [] {
      StepKeepsReplay(st, events[0]);
      StoreIsReplayFrom(Step(st, events[0]), events[1..]);
    }
  }

  /** In every run a token is bound exactly when the last thing that happened to it was a put, and
      then to the entry of that put. */
  lemma BoundByTheLastPut(events: seq<Event>, t: Token)
    ensures var st := Run(INIT, events);
      && (t in st.store <==> LastEffect(st.history, t).Some? && LastEffect(st.history, t).value.Bound?)
      && (t in st.store ==> st.store[t] == LastEffect(st.history, t).value.entry)
  {
    StoreIsReplayFrom(INIT, events);
    ReplayByLastEffect(Run(INIT, events).history, t);
  }
}

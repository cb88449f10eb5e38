/** What each call has done to the cache, exactly, at every moment of every run of the proxy over its cache. */
module CachedDeeds {
  import opened Tokens
  import opened Lru
  import opened Sharding
  import opened RpcPolicy
  import opened Scope
  import opened Proxy
  import opened ProxyTrail
  import opened ProxyCalls
  import opened Authorization
  import opened CachedProxy
  import opened CachedSafety

  /** One thing a call does to the cache. */
  datatype Deed = Looked(key: Token) | Removed(key: Token) | Entered(key: Token, entry: Entry)

  predicate Does(a: Act, d: Deed) {
    match Inner(a.op)
    case GetOp(k, _, _) => d == Looked(k)
    case DeleteOp(k) => d == Removed(k)
    case PutOp(k, e, _) => d == Entered(k, e)
    case SweepOp(_, _) => false
  }

  ghost predicate Fits(acts: seq<Act>, deeds: seq<Deed>) {
    |acts| == |deeds| && forall i :: 0 <= i < |acts| ==> Does(acts[i], deeds[i])
  }

  /** The lookup of a valid caller's request that refers to a task in the caller's own namespace. */
  function Looking(c: CallId, req: Request): seq<Deed> {
    if c.who.valid && CarriesToken(req) && req.token != "" && req.namespace == c.who.namespace then [Looked(req.token)] else []
  }

  function Removing(rpc: Rpc, req: Request): seq<Deed> {
    if EndsTask(rpc) && CarriesToken(req) then [Removed(req.token)] else []
  }

  function Entering(c: CallId, scope: string, tokens: seq<Token>): seq<Deed> {
    seq(|tokens|, i requires 0 <= i < |tokens| => Entered(tokens[i], Entry(c.who.namespace, scope)))
  }

  /** What a call must have done, given how far it got. */
  function Deeds(c: CallId, call: Call): seq<Deed> {
    match call.phase
    case Begun => []
    case Registering(scope, resp, _, put) =>
      Looking(c, call.req) + Removing(call.rpc, call.req)
      + Entering(c, scope, if put <= |ResponseTokens(resp)| then ResponseTokens(resp)[..put] else [])
    case Done(Delivered(scope, resp, _)) =>
      Looking(c, call.req) + Removing(call.rpc, call.req) + Entering(c, scope, ResponseTokens(resp))
    case Done(MissingScope(_, _, _)) => Looking(c, call.req) + Removing(call.rpc, call.req)
    case _ => Looking(c, call.req)
  }

  ghost predicate DoneAsTold(acts: seq<Act>, calls: map<CallId, Call>, c: CallId) {
    if c !in calls then ActsOf(acts, c) == []
    else
      && RequestOf(calls[c].rpc, calls[c].req) && InRange(calls[c]) && PutsAreScoped(calls[c])
      && Fits(ActsOf(acts, c), Deeds(c, calls[c]))
  }

  // ---------- one step ----------

  lemma CheckDeeds(le: LocalEvent, call: Call, found: LookupResult)
    requires le.CheckAt? && RequestOf(call.rpc, call.req)
    ensures call.phase.Begun? ==>
              && Asks(le, call).None? == (Looking(le.c, call.req) == [])
              && (Asks(le, call).Some? ==> Looking(le.c, call.req) == [Looked(Asks(le, call).value.key)] && Asks(le, call).value.GetOp?)
    ensures call.phase.Begun? ==>
              var next := NextPhase(found, ProxyEvent(le), call);
              next.Authorized? || next == Done(Denied) || next == Done(LookupUnavailable)
    ensures !call.phase.Begun? ==> Asks(le, call).None? && NextPhase(found, ProxyEvent(le), call) == call.phase
  {
    Checking(le, call, found);
    if Presents(le.c, call).Some? {
      PresentsExactly(le.c, call, Presents(le.c, call).value);
    } else if CarriesToken(call.req) {
      PresentsExactly(le.c, call, call.req.token);
    }
    hide Presents, CarriesToken, RequestOf, Authorize;
  }

  lemma DeleteDeeds(le: LocalEvent, call: Call, found: LookupResult)
    requires le.DeleteAt? && RequestOf(call.rpc, call.req)
    ensures var next := call.(phase := NextPhase(found, ProxyEvent(le), call));
      if Asks(le, call).None? then next == call
      else
        && Asks(le, call).value.DeleteOp? && call.phase.Answered?
        && next.phase == Registering(call.phase.scope, call.phase.resp, true, 0)
        && Removing(call.rpc, call.req) == [Removed(Asks(le, call).value.key)]
  {
    TerminalByName(call);
    hide ResponseTokens, RequestTaskToken, RequestOf, EndsTask, CarriesToken;
  }

  lemma PutDeeds(le: LocalEvent, call: Call, found: LookupResult)
    requires le.PutAt? && InRange(call) && PutsAreScoped(call)
    ensures var next := call.(phase := NextPhase(found, ProxyEvent(le), call));
      var p := call.phase;
      if Asks(le, call).Some? then
        && HasNextToken(p) && p.scope != "" && next.phase == p.(put := p.put + 1)
        && Asks(le, call).value == PutOp(ResponseTokens(p.resp)[p.put], Entry(le.c.who.namespace, p.scope), le.now)
      else next == call || (HasNextToken(p) && p.put == 0 && p.scope == "" && next.phase == Done(MissingScope("", p.resp, p.deleted)))
  {
    hide ResponseTokens, RequestTaskToken;
  }

  lemma EnteringOn(c: CallId, scope: string, tokens: seq<Token>, n: nat)
    requires n < |tokens|
    ensures Entering(c, scope, tokens[..n + 1]) == Entering(c, scope, tokens[..n]) + [Entered(tokens[n], Entry(c.who.namespace, scope))]
  {
  }

  lemma NothingEntered(c: CallId, scope: string, tokens: seq<Token>)
    ensures Entering(c, scope, tokens[..0]) == []
  {
  }

  function DeedOf(op: Op): Deed
    requires !op.SweepOp?
  {
    match op
    case GetOp(k, _, _) => Looked(k)
    case DeleteOp(k) => Removed(k)
    case PutOp(k, e, _) => Entered(k, e)
  }

  /** A step adds to what a call must have done just what it asks of the cache. */
  lemma DeedsGrow(le: LocalEvent, call: Call, found: LookupResult)
    requires le.CheckAt? || le.DeleteAt? || le.PutAt?
    requires RequestOf(call.rpc, call.req) && InRange(call) && PutsAreScoped(call)
    ensures var next := call.(phase := NextPhase(found, ProxyEvent(le), call));
      && InRange(next) && PutsAreScoped(next)
      && Deeds(le.c, next) == Deeds(le.c, call) + (if Asks(le, call).Some? then [DeedOf(Asks(le, call).value)] else [])
  {
    hide Looking, Removing, Entering, ResponseTokens, NextPhase, Asks, RequestOf;
    var c, p := le.c, call.phase;
    assert Deeds(c, call) + [] == Deeds(c, call);
    if le.CheckAt? {
      CheckDeeds(le, call, found);
    } else if le.DeleteAt? {
      DeleteDeeds(le, call, found);
      if p.Answered? {
        NothingEntered(c, p.scope, ResponseTokens(p.resp));
      }
    } else {
      PutDeeds(le, call, found);
      if p.Registering? && HasNextToken(p) {
        var so := Looking(c, call.req) + Removing(call.rpc, call.req);
        NothingEntered(c, p.scope, ResponseTokens(p.resp));
        EnteringOn(c, p.scope, ResponseTokens(p.resp), p.put);
        assert so + [] == so;
        assert so + Entering(c, p.scope, ResponseTokens(p.resp)[..p.put + 1])
            == so + Entering(c, p.scope, ResponseTokens(p.resp)[..p.put])
               + [Entered(ResponseTokens(p.resp)[p.put], Entry(c.who.namespace, p.scope))];
      }
    }
  }

  /** The answer and the delivery do nothing to the cache. */
  lemma DeedsStay(e: Event, call: Call, found: LookupResult)
    requires (e.Reply? || e.Finish?) && RequestOf(call.rpc, call.req) && InRange(call) && PutsAreScoped(call)
    ensures var next := call.(phase := NextPhase(found, e, call));
      InRange(next) && PutsAreScoped(next) && Deeds(e.c, next) == Deeds(e.c, call)
  {
    TerminalByName(call);
    var p, c := call.phase, e.c;
    if e.Reply? && p.Authorized? && e.answer.Replied? {
      NothingEntered(c, p.scope, ResponseTokens(e.answer.resp));
      assert Looking(c, call.req) + [] + [] == Looking(c, call.req);
    } else if e.Finish? && p.Registering? && !HasNextToken(p) {
      assert ResponseTokens(p.resp)[..p.put] == ResponseTokens(p.resp);
    }
    hide Looking, Entering, ResponseTokens, RequestOf, RequestTaskToken, EndsTask, CarriesToken;
  }

  lemma FitsOn(acts: seq<Act>, deeds: seq<Deed>, a: Act)
    requires Fits(acts, deeds) && !Inner(a.op).SweepOp?
    ensures Fits(acts + [a], deeds + [DeedOf(Inner(a.op))])
  {
  }

  lemma OwnDeeds(st: Local, h: Hash, cfg: Config, le: LocalEvent)
    requires Enabled(st, h, le) && (le.CheckAt? || le.DeleteAt? || le.PutAt?) && DoneAsTold(st.acts, st.calls, le.c)
    ensures var st' := LocalStep(st, h, cfg, le);
      DoneAsTold(st'.acts, st'.calls, le.c)
  {
    hide ActsOf, Asks, NextPhase, LocalStep, Deeds, Fits, InRange, PutsAreScoped, RequestOf;
    if le.c in st.calls {
      var call := st.calls[le.c];
      var found := OwnPart(st, h, cfg, le);
      DeedsGrow(le, call, found);
      if Asks(le, call).Some? {
        var a: Act :| Inner(a.op) == Asks(le, call).value
          && ActsOf(LocalStep(st, h, cfg, le).acts, le.c) == ActsOf(st.acts, le.c) + [a];
        FitsOn(ActsOf(st.acts, le.c), Deeds(le.c, call), a);
      } else {
        assert Deeds(le.c, call) + [] == Deeds(le.c, call);
      }
    } else {
      NotBegun(st, h, cfg, le);
    }
  }

  lemma PlainDeeds(st: Local, h: Hash, cfg: Config, e: Event, c: CallId)
    requires DoneAsTold(st.acts, st.calls, c) && (e.Begin? || e.Reply? || e.Finish?) && (e.Begin? ==> RequestOf(e.rpc, e.req))
    ensures var st' := LocalStep(st, h, cfg, Plain(e));
      DoneAsTold(st'.acts, st'.calls, c)
  {
    StepActs(st, h, cfg, Plain(e));
    if !e.Begin? && c in st.calls {
      DeedsStay(e, st.calls[c], Miss);
    }
    hide ActsOf, NextPhase, NewLines, NewlyAccepted, RequestOf, ResponseTokens, Looking, Removing, Entering, PresentedToken;
  }

  lemma OthersDeeds(st: Local, h: Hash, cfg: Config, le: LocalEvent, c: CallId)
    requires DoneAsTold(st.acts, st.calls, c) && !le.Plain? && Caller(le) != Some(c) && Enabled(st, h, le)
    ensures var st' := LocalStep(st, h, cfg, le);
      DoneAsTold(st'.acts, st'.calls, c)
  {
    StepActs(st, h, cfg, le);
    if OpOf(st, le).Some? {
      ActsOfAppend(st.acts, Act(Caller(le), OpOf(st, le).value, CacheDo(st.shards, h, cfg, OpOf(st, le).value).1), c);
    }
    hide ActsOf, CacheDo, PresentedToken, NextPhase, NewLines, NewlyAccepted, EffectOf, Deeds, Fits, RequestOf, InRange, PutsAreScoped;
  }

  // ---------- every run ----------

  /** Calls bring the request type of their RPC. */
  ghost predicate TypedLocal(les: seq<LocalEvent>) {
    forall le :: le in les && le.Plain? && le.e.Begin? ==> RequestOf(le.e.rpc, le.e.req)
  }

  lemma {:induction false} RunAsTold(clocks: Clocks, h: Hash, cfg: Config, les: seq<LocalEvent>, c: CallId)
    requires TypedLocal(les)
    ensures var st := LocalRun(clocks, h, cfg, les);
      DoneAsTold(st.acts, st.calls, c)
  {
    if les != [] {
      var before, le := LocalRun(clocks, h, cfg, les[..|les| - 1]), les[|les| - 1];
      assert le in les && forall x :: x in les[..|les| - 1] ==> x in les;
      RunAsTold(clocks, h, cfg, les[..|les| - 1], c);
      hide DoneAsTold, LocalStep, RequestOf;
      if !Enabled(before, h, le) {
        DisabledStep(before, h, cfg, le);
      } else if le.Plain? {
        PlainDeeds(before, h, cfg, le.e, c);
      } else if Caller(le) == Some(c) {
        OwnDeeds(before, h, cfg, le);
      } else {
        OthersDeeds(before, h, cfg, le, c);
      }
    }
  }

  /** In every run the operations of a call on the cache are, in order: the lookup of the token it presents,
      once authorization has dealt with it; the removal of that token, if its RPC ends the task, once upstream has
      answered; and one put for each token it has registered so far, all of them if its reply is
      delivered, to its caller's namespace and its scope. */
  lemma ActsAreDeeds(clocks: Clocks, h: Hash, cfg: Config, les: seq<LocalEvent>, c: CallId)
    requires TypedLocal(les) && c in LocalRun(clocks, h, cfg, les).calls
    ensures var st := LocalRun(clocks, h, cfg, les);
      Fits(ActsOf(st.acts, c), Deeds(c, st.calls[c]))
  {
    RunAsTold(clocks, h, cfg, les, c);
  }
}

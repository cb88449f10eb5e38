/** What each event of a call does, in the system of calls, shards and clocks, when the call is there. */
module CachedSteps {
  import opened Tokens
  import opened Lru
  import opened Sharding
  import opened RpcPolicy
  import opened Scope
  import opened Actions
  import opened Proxy
  import opened CachedProxy

  ghost predicate At(st: Local, c: CallId, call: Call) {
    c in st.calls && st.calls[c] == call
  }

  /** No shard has read the clock later than `t`. */
  ghost predicate NotAfter(clocks: Clocks, t: int) {
    forall i :: 0 <= i < NUM_SHARDS ==> clocks[i] <= t
  }

  /** `st'` is `st` but for this call. */
  ghost predicate OnlyPhase(st: Local, st': Local, c: CallId, call: Call) {
    st'.calls == st.calls[c := call] && st'.shards == st.shards && st'.clocks == st.clocks && st'.log == st.log
  }

  lemma BeginStep(st: Local, h: Hash, cfg: Config, c: CallId, rpc: Rpc, req: Request)
    requires c !in st.calls
    ensures OnlyPhase(st, LocalStep(st, h, cfg, Plain(Begin(c, rpc, req))), c, Call(rpc, req, Begun))
  {
  }

  lemma SilentCheck(st: Local, h: Hash, cfg: Config, c: CallId, call: Call, check: int, refresh: int)
    requires At(st, c, call) && call.phase.Begun? && (!c.who.valid || Presents(c, call).None?)
    ensures OnlyPhase(st, LocalStep(st, h, cfg, CheckAt(c, check, refresh)), c, call.(phase := CheckPhase(c, call, Miss)))
  {
    hide CheckPhase, Presents;
    assert Asks(CheckAt(c, check, refresh), call).None?;
    assert st.log + [] == st.log;
  }

  lemma AskingCheck(st: Local, h: Hash, cfg: Config, c: CallId, call: Call, k: Token, check: int, refresh: int)
    requires At(st, c, call) && call.phase.Begun? && c.who.valid && Presents(c, call) == Some(k)
    requires NotAfter(st.clocks, check) && check <= refresh
    ensures var st' := LocalStep(st, h, cfg, CheckAt(c, check, refresh));
      var (shards, reply) := CacheDo(st.shards, h, cfg, KeyOp(GetOp(k, check, refresh)));
      && st'.shards == shards && st'.log == st.log && NotAfter(st'.clocks, refresh)
      && st'.calls == st.calls[c := call.(phase := CheckPhase(c, call, ToLookup(reply)))]
  {
    hide CheckPhase, Presents, CacheDo;
    assert Asks(CheckAt(c, check, refresh), call) == Some(GetOp(k, check, refresh));
    assert st.log + [] == st.log;
  }

  lemma ReplyStep(st: Local, h: Hash, cfg: Config, c: CallId, call: Call, answer: Answer)
    requires At(st, c, call) && call.phase.Authorized?
    ensures OnlyPhase(st, LocalStep(st, h, cfg, Plain(Reply(c, answer))), c,
                      call.(phase := NextPhase(Miss, Reply(c, answer), call)))
  {
    hide NextPhase;
    assert st.log + [] == st.log;
  }

  lemma DeleteStep(st: Local, h: Hash, cfg: Config, c: CallId, call: Call)
    requires At(st, c, call) && call.phase.Answered? && IsTerminal(call)
    ensures var st' := LocalStep(st, h, cfg, DeleteAt(c));
      && st'.shards == CacheDo(st.shards, h, cfg, KeyOp(DeleteOp(RequestTaskToken(call.req).value))).0
      && st'.clocks == st.clocks && st'.log == st.log
      && st'.calls == st.calls[c := call.(phase := Registering(call.phase.scope, call.phase.resp, true, 0))]
  {
    hide CacheDo, RequestTaskToken;
    assert Asks(DeleteAt(c), call) == Some(DeleteOp(RequestTaskToken(call.req).value));
    assert st.log + [] == st.log;
  }

  lemma UnscopedPut(st: Local, h: Hash, cfg: Config, c: CallId, call: Call, t: int)
    requires At(st, c, call) && HasNextToken(call.phase) && call.phase.scope == ""
    ensures var p := call.phase;
      OnlyPhase(st, LocalStep(st, h, cfg, PutAt(c, t)), c, call.(phase := Done(MissingScope("", p.resp, p.deleted))))
  {
    hide ResponseTokens;
    assert Asks(PutAt(c, t), call).None?;
    assert st.log + [] == st.log;
  }

  lemma PutStep(st: Local, h: Hash, cfg: Config, c: CallId, call: Call, t: int)
    requires At(st, c, call) && HasNextToken(call.phase) && call.phase.scope != "" && NotAfter(st.clocks, t)
    ensures var st', p := LocalStep(st, h, cfg, PutAt(c, t)), call.phase;
      var op := PutOp(ResponseTokens(p.resp)[p.put], Entry(c.who.namespace, p.scope), t);
      && st'.shards == CacheDo(st.shards, h, cfg, KeyOp(op)).0
      && NotAfter(st'.clocks, t) && st'.log == st.log
      && st'.calls == st.calls[c := call.(phase := p.(put := p.put + 1))]
  {
    hide CacheDo, ResponseTokens;
    var p := call.phase;
    assert Asks(PutAt(c, t), call) == Some(PutOp(ResponseTokens(p.resp)[p.put], Entry(c.who.namespace, p.scope), t));
    assert st.log + [] == st.log;
  }

  lemma FinishStep(st: Local, h: Hash, cfg: Config, c: CallId, call: Call)
    requires At(st, c, call) && call.phase.Registering? && !HasNextToken(call.phase)
    ensures var st', p := LocalStep(st, h, cfg, Plain(Finish(c))), call.phase;
      && st'.shards == st.shards && st'.clocks == st.clocks && st'.log == st.log + LinesOf(c, OfRequest(call.req))
      && st'.calls == st.calls[c := call.(phase := Done(Delivered(p.scope, p.resp, p.deleted)))]
  {
    hide ResponseTokens, OfRequest, LinesOf;
  }
}

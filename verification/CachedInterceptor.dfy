/** One intercepted call against the real cache, as the code runs it: each of its steps updates the cache
    and the log in place and is one event of the system of calls, shards and clocks. */
module CachedInterceptor {
  import opened Tokens
  import opened Lru
  import opened Caches
  import opened RpcPolicy
  import opened Scope
  import opened Auth
  import opened Actions
  import opened Proxy
  import opened CachedProxy
  import opened CachedSteps
  import Interceptor
  import Sharding

  /** What the outside decides: the readings of the clock and the answer of upstream. */
  datatype Schedule = Schedule(check: int, refresh: int, answer: Answer, putAt: nat -> int)

  /** The readings follow each other. */
  ghost predicate InOrderOfTime(env: Schedule) {
    env.check <= env.refresh && PutsInOrder(env)
  }

  ghost predicate PutsInOrder(env: Schedule) {
    forall j: nat :: env.refresh <= env.putAt(j) <= env.putAt(j + 1)
  }

  // ---------- the events of a call ----------

  /** The first `n` puts of a call. */
  function FirstPuts(c: CallId, env: Schedule, n: nat): seq<LocalEvent> {
    if n == 0 then [] else FirstPuts(c, env, n - 1) + [PutAt(c, env.putAt(n - 1))]
  }

  /** What is left of an answered call once the consumed token is removed: the puts, and the delivery. */
  function Rest(c: CallId, env: Schedule, outcome: Outcome): seq<LocalEvent> {
    match outcome
    case Delivered(_, resp, _) => FirstPuts(c, env, |ResponseTokens(resp)|) + [Plain(Finish(c))]
    case MissingScope(_, _, _) => FirstPuts(c, env, 1)
    case _ => []
  }

  predicate HasDeleted(outcome: Outcome) {
    (outcome.Delivered? || outcome.MissingScope?) && outcome.deleted
  }

  /** The events of an authorized call. */
  function Answering(c: CallId, env: Schedule, outcome: Outcome): seq<LocalEvent> {
    [Plain(Reply(c, env.answer))] + (if HasDeleted(outcome) then [DeleteAt(c)] else []) + Rest(c, env, outcome)
  }

  /** All events of a call with this outcome, in order. */
  function CallEvents(c: CallId, rpc: Rpc, req: Request, env: Schedule, outcome: Outcome): seq<LocalEvent> {
    [Plain(Begin(c, rpc, req)), CheckAt(c, env.check, env.refresh)]
    + (if outcome.Denied? || outcome.LookupUnavailable? then [] else Answering(c, env, outcome))
  }

  lemma OnePut(before: seq<LocalEvent>, c: CallId, env: Schedule, i: nat)
    ensures before + FirstPuts(c, env, i) + [PutAt(c, env.putAt(i))] == before + FirstPuts(c, env, i + 1)
  {
  }

  lemma NoPut(before: seq<LocalEvent>, c: CallId, env: Schedule)
    ensures before + FirstPuts(c, env, 0) == before
  {
  }

  lemma FirstPut(clocks: Sharding.Clocks, env: Schedule)
    requires NotAfter(clocks, env.refresh) && PutsInOrder(env)
    ensures NotAfter(clocks, env.putAt(0))
  {
  }

  lemma NextPut(clocks: Sharding.Clocks, env: Schedule, i: nat)
    requires NotAfter(clocks, env.putAt(i)) && PutsInOrder(env)
    ensures NotAfter(clocks, env.putAt(i + 1))
  {
    assert env.putAt(i) <= env.putAt(i + 1);
  }

  // ---------- a tick of the janitor ----------

  /** The first `n` sweeps of a tick. */
  function Sweeps(t: int, at: int, n: nat): seq<LocalEvent> {
    if n == 0 then [] else Sweeps(t, at, n - 1) + [SweepAt(n - 1, t, at)]
  }

  /** A tick, in the system. */
  lemma {:induction false} SweepsRun(clocks: Sharding.Clocks, h: Sharding.Hash, cfg: Config, past: seq<LocalEvent>, t: int, at: int, n: nat)
    requires n <= Sharding.NUM_SHARDS && t <= at && NotAfter(LocalRun(clocks, h, cfg, past).clocks, at)
    ensures var st, st' := LocalRun(clocks, h, cfg, past), LocalRun(clocks, h, cfg, past + Sweeps(t, at, n));
      && st'.shards == Sharding.CacheRun(st.shards, h, cfg, TickOps(t, at, n)).0
      && st'.calls == st.calls && st'.log == st.log && NotAfter(st'.clocks, at)
  {
    if n == 0 {
      assert past + [] == past;
    } else {
      var before := past + Sweeps(t, at, n - 1);
      var le := SweepAt(n - 1, t, at);
      SweepsRun(clocks, h, cfg, past, t, at, n - 1);
      assert past + Sweeps(t, at, n) == before + [le];
      RunOn(clocks, h, cfg, before, le);
      var st := LocalRun(clocks, h, cfg, past);
      Sharding.CacheRunAppend(st.shards, h, cfg, TickOps(t, at, n - 1), Sharding.SweepShard(n - 1, t, at));
      SweepStep(LocalRun(clocks, h, cfg, before), h, cfg, n - 1, t, at);
    }
  }

  lemma SweepStep(st: Local, h: Sharding.Hash, cfg: Config, i: nat, t: int, at: int)
    requires i < Sharding.NUM_SHARDS && t <= at && NotAfter(st.clocks, at)
    ensures var st' := LocalStep(st, h, cfg, SweepAt(i, t, at));
      && st'.shards == Sharding.CacheDo(st.shards, h, cfg, Sharding.SweepShard(i, t, at)).0
      && st'.calls == st.calls && st'.log == st.log && NotAfter(st'.clocks, at)
  {
    hide Sharding.CacheDo;
  }

  // ---------- authorization ----------

  /** The branches of authorization that do not look up a token. */
  method AuthorizeWithoutToken(rpc: Rpc, policy: Policy, req: Request, id: Identity) returns (v: Verdict)
    requires policy.category != CategoryToken
    ensures v == Authorize(rpc, policy, req, id, Miss)
  {
    Interceptor.AuthorizeCases(rpc, policy, req, id, Miss);
    hide Authorize, AuthorizePoll, NamespaceMatches;
    match policy.category
    case CategoryPoll =>
      v := Interceptor.AuthorizePollRequest(req, id);
    case CategoryUnscoped =>
      v := Allow("");
    case CategoryNamespaceOnly =>
      v := if NamespaceMatches(req, id) then Allow("") else Deny;
    case CategoryWorker =>
      v := Interceptor.AuthorizeWorkerRequest(rpc, policy, req, id);
    case CategoryWorkerHeartbeat =>
      v := Interceptor.AuthorizeWorkerHeartbeatRequest(rpc, policy, req, id);
  }

  lemma TurnedAway(c: CallId, call: Call)
    requires Allowed(call.rpc).None? || !c.who.valid
    ensures CheckPhase(c, call, Miss) == Done(Denied) && (!c.who.valid || Presents(c, call).None?)
  {
  }

  function PhaseOf(v: Verdict): Phase {
    match v
    case Allow(scope) => Authorized(scope)
    case Deny => Done(Denied)
    case Unavailable => Done(LookupUnavailable)
  }

  /** A check comes to the verdict on what the lookup found. */
  lemma CheckIsVerdict(c: CallId, call: Call, policy: Policy, found: LookupResult)
    requires c.who.valid && Allowed(call.rpc) == Some(policy)
    ensures CheckPhase(c, call, found) == PhaseOf(Authorize(call.rpc, policy, call.req, c.who, found))
  {
    hide Authorize;
  }

  /** The call has put `i` tokens of its response. */
  ghost predicate Putting(st: Local, c: CallId, call: Call, i: nat)
    requires call.phase.Registering?
  {
    At(st, c, call.(phase := call.phase.(put := i)))
  }

  /** The call had no queue to bind its tokens to. */
  ghost predicate Stopped(st: Local, c: CallId, call: Call)
    requires call.phase.Registering?
  {
    At(st, c, call.(phase := Done(MissingScope(call.phase.scope, call.phase.resp, call.phase.deleted))))
  }

  /** Cache and log are as the events so far have left them in the system. */
  ghost predicate Wired(x: LocalInterceptor)
    reads x, x.cache, x.cache.shards, x.cache.Footprint()
  {
    && x.cache.Valid() && x.cache.Footprint() <= x.repr && x !in x.repr
    && x.now == LocalRun(x.clocks, x.cache.hash, x.cache.Cfg(), x.past)
    && x.cache.State() == x.now.shards && x.log == x.now.log
  }

  class LocalInterceptor {
    const cache: Cache
    var log: seq<LogLine>
    ghost const clocks: Sharding.Clocks  // the readings before the first event
    ghost var past: seq<LocalEvent>      // every event so far, of this call and of others
    ghost var now: Local                 // the system after them
    ghost var repr: set<object>          // the objects of the cache

    constructor (ttl: int, maxSize: int, hash: Sharding.Hash, ghost clocks: Sharding.Clocks)
      ensures Wired(this) && fresh(cache) && fresh(repr) && past == [] && this.clocks == clocks
      ensures cache.hash == hash && cache.Cfg() == Config(Sharding.PerShard(maxSize), ttl)
    {
      cache := new Cache(ttl, maxSize, hash);
      log := [];
      this.clocks := clocks;
      past := [];
      now := LocalStart(clocks);
      new;
      repr := cache.Footprint();
    }

    /** The bookkeeping of one event: the system has taken it. */
    ghost method Advance(le: LocalEvent)
      requires cache.Valid() && cache.Footprint() <= repr && this !in repr
      requires now == LocalRun(clocks, cache.hash, cache.Cfg(), past)
      requires var next := LocalStep(now, cache.hash, cache.Cfg(), le);
        cache.State() == next.shards && log == next.log
      modifies this`now, this`past
      ensures Wired(this) && now == LocalStep(old(now), cache.hash, cache.Cfg(), le) && past == old(past) + [le]
    {
      hide LocalStep, LocalRun;
      RunOn(clocks, cache.hash, cache.Cfg(), past, le);
      now := LocalStep(now, cache.hash, cache.Cfg(), le);
      past := past + [le];
    }

    /** One tick of the janitor, with a reading `t` taken at or before the time `at` it runs. */
    method Tick(t: int, ghost at: int)
      requires Wired(this) && NotAfter(now.clocks, at) && t <= at
      modifies this, repr
      ensures Wired(this) && fresh(repr - old(repr)) && past == old(past) + Sweeps(t, at, Sharding.NUM_SHARDS)
      ensures NotAfter(now.clocks, at) && now.calls == old(now.calls)
    {
      hide LocalStep, LocalRun, Sharding.CacheRun;
      SweepsRun(clocks, cache.hash, cache.Cfg(), past, t, at, Sharding.NUM_SHARDS);
      ghost var more := past + Sweeps(t, at, Sharding.NUM_SHARDS);
      ghost var next := LocalRun(clocks, cache.hash, cache.Cfg(), more);
      assert next.shards == Sharding.CacheRun(cache.State(), cache.hash, cache.Cfg(), TickOps(t, at, Sharding.NUM_SHARDS)).0;
      cache.Tick(t);
      past, now := more, next;
    }

    /** The authorization of a request, with its lookup in the cache. */
    method AuthorizeRequest(c: CallId, rpc: Rpc, policy: Policy, req: Request, env: Schedule) returns (v: Verdict)
      requires Wired(this) && At(now, c, Call(rpc, req, Begun)) && c.who.valid && Allowed(rpc) == Some(policy)
      requires NotAfter(now.clocks, env.check) && env.check <= env.refresh
      modifies this, repr
      ensures Wired(this) && fresh(repr - old(repr))
      ensures past == old(past) + [CheckAt(c, env.check, env.refresh)]
      ensures At(now, c, Call(rpc, req, PhaseOf(v))) && NotAfter(now.clocks, env.refresh)
    {
      hide Authorize, CheckPhase;
      ghost var call := Call(rpc, req, Begun);
      if policy.category == CategoryToken {
        v := AuthorizeToken(c, rpc, policy, req, env);
        return;
      }
      v := AuthorizeWithoutToken(rpc, policy, req, c.who);
      CheckIsVerdict(c, call, policy, Miss);
      SilentCheck(now, cache.hash, cache.Cfg(), c, call, env.check, env.refresh);
      Advance(CheckAt(c, env.check, env.refresh));
    }

    method AuthorizeToken(c: CallId, rpc: Rpc, policy: Policy, req: Request, env: Schedule) returns (v: Verdict)
      requires Wired(this) && At(now, c, Call(rpc, req, Begun)) && c.who.valid && Allowed(rpc) == Some(policy)
      requires policy.category == CategoryToken
      requires NotAfter(now.clocks, env.check) && env.check <= env.refresh
      modifies this, repr
      ensures Wired(this) && fresh(repr - old(repr))
      ensures past == old(past) + [CheckAt(c, env.check, env.refresh)]
      ensures At(now, c, Call(rpc, req, PhaseOf(v))) && NotAfter(now.clocks, env.refresh)
    {
      ghost var call := Call(rpc, req, Begun);
      Interceptor.PresentedIs(policy, req, c.who);
      var ns := RequestNamespace(req);
      var token := RequestTaskToken(req);
      if (ns.Some? && ns.value != c.who.namespace) || token.None? || |token.value| == 0 {
        CheckIsVerdict(c, call, policy, Miss);
        SilentCheck(now, cache.hash, cache.Cfg(), c, call, env.check, env.refresh);
        Advance(CheckAt(c, env.check, env.refresh));
        return Deny;
      }
      v := AuthorizeFound(c, rpc, policy, req, token.value, env);
    }

    /** The lookup of a presented token. */
    method LookUpToken(c: CallId, ghost call: Call, token: Token, env: Schedule) returns (reply: Option<Entry>)
      requires Wired(this) && At(now, c, call) && call.phase.Begun? && c.who.valid && Presents(c, call) == Some(token)
      requires NotAfter(now.clocks, env.check) && env.check <= env.refresh
      modifies this, repr
      ensures Wired(this) && fresh(repr - old(repr))
      ensures past == old(past) + [CheckAt(c, env.check, env.refresh)]
      ensures At(now, c, call.(phase := CheckPhase(c, call, ToLookup(reply)))) && NotAfter(now.clocks, env.refresh)
    {
      hide LocalStep, Sharding.CacheDo, Presents, CheckPhase, ToLookup;
      AskingCheck(now, cache.hash, cache.Cfg(), c, call, token, env.check, env.refresh);
      reply := cache.Get(token, env.check, env.refresh);
      Advance(CheckAt(c, env.check, env.refresh));
    }

    method AuthorizeFound(c: CallId, rpc: Rpc, policy: Policy, req: Request, token: Token, env: Schedule) returns (v: Verdict)
      requires Wired(this) && At(now, c, Call(rpc, req, Begun)) && c.who.valid && Allowed(rpc) == Some(policy)
      requires policy.category == CategoryToken && PresentedToken(policy, req, c.who) == Some(token)
      requires NotAfter(now.clocks, env.check) && env.check <= env.refresh
      modifies this, repr
      ensures Wired(this) && fresh(repr - old(repr))
      ensures past == old(past) + [CheckAt(c, env.check, env.refresh)]
      ensures At(now, c, Call(rpc, req, PhaseOf(v))) && NotAfter(now.clocks, env.refresh)
    {
      hide LocalStep, Sharding.CacheDo, PresentedToken, CheckPhase;
      ghost var call := Call(rpc, req, Begun);
      var reply := LookUpToken(c, call, token, env);
      v := VerdictOn(c, rpc, policy, req, token, reply);
    }

    /** The verdict on what the lookup has found. */
    static method VerdictOn(c: CallId, rpc: Rpc, policy: Policy, req: Request, token: Token, reply: Option<Entry>) returns (v: Verdict)
      requires c.who.valid && Allowed(rpc) == Some(policy)
      requires policy.category == CategoryToken && PresentedToken(policy, req, c.who) == Some(token)
      ensures CheckPhase(c, Call(rpc, req, Begun), ToLookup(reply)) == PhaseOf(v)
    {
      hide PresentedToken, CheckPhase, CommandsAllowed;
      CheckIsVerdict(c, Call(rpc, req, Begun), policy, ToLookup(reply));
      if reply.None? { return Deny; }
      v := Interceptor.AuthorizeEntry(rpc, policy, req, c.who, reply.value);
    }

    /** The table, the credentials and the authorization; a call that gets past them has a policy. */
    method Admit(c: CallId, rpc: Rpc, req: Request, env: Schedule) returns (v: Verdict)
      requires Wired(this) && At(now, c, Call(rpc, req, Begun))
      requires NotAfter(now.clocks, env.check) && env.check <= env.refresh
      modifies this, repr
      ensures Wired(this) && fresh(repr - old(repr))
      ensures past == old(past) + [CheckAt(c, env.check, env.refresh)]
      ensures At(now, c, Call(rpc, req, PhaseOf(v))) && NotAfter(now.clocks, env.refresh)
      ensures v.Allow? ==> Allowed(rpc).Some?
    {
      hide LocalStep, Authorize, CheckPhase;
      var policy := Allowed(rpc);
      if policy.None? || !c.who.valid {
        TurnedAway(c, Call(rpc, req, Begun));
        SilentCheck(now, cache.hash, cache.Cfg(), c, Call(rpc, req, Begun), env.check, env.refresh);
        Advance(CheckAt(c, env.check, env.refresh));
        return Deny;
      }
      v := AuthorizeRequest(c, rpc, policy.value, req, env);
    }

    /** A call that nothing interrupts: from any state of the system, other calls under way, it leaves cache
        and log as its events leave them, and ends with the outcome they lead to. */
    method Intercept(c: CallId, rpc: Rpc, req: Request, env: Schedule) returns (outcome: Outcome)
      requires Wired(this) && c !in now.calls && NotAfter(now.clocks, env.check) && InOrderOfTime(env)
      modifies this, repr
      ensures Wired(this) && fresh(repr - old(repr))
      ensures past == old(past) + CallEvents(c, rpc, req, env, outcome)
      ensures c in now.calls && now.calls[c].phase == Done(outcome)
    {
      hide LocalStep, LocalRun, Allowed, NotAfter, PutsInOrder, Answering;
      ghost var before := past;
      BeginStep(now, cache.hash, cache.Cfg(), c, rpc, req);
      Advance(Plain(Begin(c, rpc, req)));
      var v := Admit(c, rpc, req, env);
      if v.Deny? { return Denied; }
      if v.Unavailable? { return LookupUnavailable; }
      outcome := Respond(c, rpc, req, Allowed(rpc).value, v.scope, env);
    }

    /** The rest of an authorized call: upstream answers, the consumed token is removed, the tokens of the
        response are put one by one, the actions are logged. */
    method Respond(c: CallId, rpc: Rpc, req: Request, policy: Policy, scope: string, env: Schedule) returns (outcome: Outcome)
      requires Wired(this) && At(now, c, Call(rpc, req, Authorized(scope))) && Allowed(rpc) == Some(policy)
      requires NotAfter(now.clocks, env.refresh) && PutsInOrder(env)
      modifies this, repr
      ensures Wired(this) && fresh(repr - old(repr))
      ensures !outcome.Denied? && !outcome.LookupUnavailable? && past == old(past) + Answering(c, env, outcome)
      ensures c in now.calls && now.calls[c].phase == Done(outcome)
    {
      hide Wired, LocalStep, ResponseTokens, RequestTaskToken, NotAfter, PutsInOrder, Rest;
      ghost var call := Call(rpc, req, Authorized(scope));
      Answer(c, call, env.answer);
      if !env.answer.Replied? {
        NoRest(c, env, env.answer.ReplyLost?);
        return UpstreamFailed(env.answer.ReplyLost?);
      }
      var resp := env.answer.resp;
      var deleted := false;
      if policy.terminal {
        var token := RequestTaskToken(req);
        if token.Some? {
          DeleteConsumed(c, call.(phase := Answered(scope, resp)), token.value);
          deleted := true;
        }
      }
      outcome := RegisterTokens(c, rpc, req, scope, resp, deleted, env);
    }

    /** Upstream answers; what becomes of the call is settled by the answer alone. */
    ghost method Answer(c: CallId, call: Call, answer: Answer)
      requires Wired(this) && At(now, c, call) && call.phase.Authorized?
      modifies this`now, this`past
      ensures Wired(this) && past == old(past) + [Plain(Reply(c, answer))]
      ensures OnlyPhase(old(now), now, c, call.(phase := NextPhase(Miss, Reply(c, answer), call)))
    {
      hide LocalStep, NextPhase;
      ReplyStep(now, cache.hash, cache.Cfg(), c, call, answer);
      Advance(Plain(Reply(c, answer)));
    }

    /** The token a terminal call has consumed leaves the cache. */
    method DeleteConsumed(c: CallId, ghost call: Call, token: Token)
      requires Wired(this) && At(now, c, call) && call.phase.Answered? && IsTerminal(call) && RequestTaskToken(call.req) == Some(token)
      modifies this, repr
      ensures Wired(this) && fresh(repr - old(repr))
      ensures past == old(past) + [DeleteAt(c)] && now.clocks == old(now).clocks
      ensures At(now, c, call.(phase := Registering(call.phase.scope, call.phase.resp, true, 0)))
    {
      hide LocalStep, LocalRun, Sharding.CacheDo, RequestTaskToken;
      DeleteStep(now, cache.hash, cache.Cfg(), c, call);
      cache.Delete(token);
      Advance(DeleteAt(c));
    }

    /** One token of a response enters the cache, unless there is no queue to bind it to. */
    method PutNext(c: CallId, ghost call: Call, ghost i: nat, token: Token, scope: string, t: int)
      requires Wired(this) && call.phase.Registering? && Putting(now, c, call, i) && scope == call.phase.scope
      requires i < |ResponseTokens(call.phase.resp)| && token == ResponseTokens(call.phase.resp)[i] && NotAfter(now.clocks, t)
      modifies this, repr
      ensures Wired(this) && fresh(repr - old(repr))
      ensures past == old(past) + [PutAt(c, t)] && NotAfter(now.clocks, t)
      ensures if scope == "" then Stopped(now, c, call) else Putting(now, c, call, i + 1)
    {
      hide LocalStep, LocalRun, ResponseTokens;
      ghost var x := call.(phase := call.phase.(put := i));
      if scope == "" {
        UnscopedPut(now, cache.hash, cache.Cfg(), c, x, t);
        Advance(PutAt(c, t));
      } else {
        PutScoped(c, x, token, scope, t);
      }
    }

    method PutScoped(c: CallId, ghost call: Call, token: Token, scope: string, t: int)
      requires Wired(this) && At(now, c, call) && HasNextToken(call.phase) && scope == call.phase.scope != ""
      requires token == ResponseTokens(call.phase.resp)[call.phase.put] && NotAfter(now.clocks, t)
      modifies this, repr
      ensures Wired(this) && fresh(repr - old(repr))
      ensures past == old(past) + [PutAt(c, t)] && NotAfter(now.clocks, t)
      ensures At(now, c, call.(phase := call.phase.(put := call.phase.put + 1)))
    {
      hide LocalStep, LocalRun, Sharding.CacheDo, ResponseTokens;
      PutStep(now, cache.hash, cache.Cfg(), c, call, t);
      ghost var next := LocalStep(now, cache.hash, cache.Cfg(), PutAt(c, t));
      ghost var op := Sharding.KeyOp(PutOp(token, Entry(c.who.namespace, scope), t));
      assert next.shards == Sharding.CacheDo(cache.State(), cache.hash, cache.Cfg(), op).0;
      assert At(next, c, call.(phase := call.phase.(put := call.phase.put + 1)));
      hide At, NotAfter;
      cache.Put(token, Entry(c.who.namespace, scope), t);
      repr := repr + cache.Footprint();
      assert cache.State() == next.shards;
      Advance(PutAt(c, t));
    }

    /** Put the tokens of the response one by one; without a queue the first one stops the call. */
    method PutTokens(c: CallId, ghost call: Call, scope: string, resp: Response, env: Schedule) returns (missing: bool)
      requires Wired(this) && At(now, c, call) && call.phase.Registering? && call.phase.put == 0
      requires scope == call.phase.scope && resp == call.phase.resp
      requires NotAfter(now.clocks, env.refresh) && PutsInOrder(env)
      modifies this, repr
      ensures Wired(this) && fresh(repr - old(repr))
      ensures past == old(past) + FirstPuts(c, env, if missing then 1 else |ResponseTokens(resp)|)
      ensures if missing then Stopped(now, c, call) else Putting(now, c, call, |ResponseTokens(resp)|)
    {
      var tokens := CollectResponseTaskTokens(resp);
      hide LocalStep, LocalRun, ResponseTokens, NotAfter, PutsInOrder;
      FirstPut(now.clocks, env);
      NoPut(past, c, env);
      assert Wired(this) && Putting(now, c, call, 0);
      hide Wired, Putting, Stopped, At, FirstPuts;
      var i := 0;
      while i < |tokens|
        invariant 0 <= i <= |tokens| && Wired(this) && fresh(repr - old(repr))
        invariant Putting(now, c, call, i) && NotAfter(now.clocks, env.putAt(i))
        invariant past == old(past) + FirstPuts(c, env, i) && (i > 0 ==> scope != "")
      {
        PutNext(c, call, i, tokens[i], scope, env.putAt(i));
        OnePut(old(past), c, env, i);
        if scope == "" {
          return true;
        }
        NextPut(now.clocks, env, i);
        i := i + 1;
      }
      return false;
    }

    /** The puts, the log and the delivery of an answered call. */
    method RegisterTokens(c: CallId, rpc: Rpc, req: Request, scope: string, resp: Response, deleted: bool, env: Schedule)
      returns (outcome: Outcome)
      requires Wired(this) && At(now, c, Call(rpc, req, Registering(scope, resp, deleted, 0)))
      requires NotAfter(now.clocks, env.refresh) && PutsInOrder(env)
      modifies this, repr
      ensures Wired(this) && fresh(repr - old(repr))
      ensures (outcome.Delivered? || outcome.MissingScope?) && outcome.deleted == deleted
      ensures past == old(past) + Rest(c, env, outcome)
      ensures c in now.calls && now.calls[c].phase == Done(outcome)
    {
      hide Wired, LocalStep, LocalRun, ResponseTokens, NotAfter, PutsInOrder, FirstPuts;
      ghost var call := Call(rpc, req, Registering(scope, resp, deleted, 0));
      var missing := PutTokens(c, call, scope, resp, env);
      if missing {
        return MissingScope(scope, resp, deleted);
      }
      FinishCall(c, call.(phase := call.phase.(put := |ResponseTokens(resp)|)), req);
      return Delivered(scope, resp, deleted);
    }

    /** All tokens are registered: the actions are logged. */
    method FinishCall(c: CallId, ghost call: Call, req: Request)
      requires Wired(this) && At(now, c, call) && call.phase.Registering? && !HasNextToken(call.phase) && req == call.req
      modifies this
      ensures Wired(this) && repr == old(repr)
      ensures past == old(past) + [Plain(Finish(c))]
      ensures At(now, c, call.(phase := Done(Delivered(call.phase.scope, call.phase.resp, call.phase.deleted))))
    {
      hide LocalStep, LocalRun, ResponseTokens, OfRequest, LinesOf;
      FinishStep(now, cache.hash, cache.Cfg(), c, call);
      log := Interceptor.AppendActions(log, c, req);
      Advance(Plain(Finish(c)));
    }
  }

  lemma NoRest(c: CallId, env: Schedule, accepted: bool)
    ensures Answering(c, env, UpstreamFailed(accepted)) == [Plain(Reply(c, env.answer))]
  {
  }
}

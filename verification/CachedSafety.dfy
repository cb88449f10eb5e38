/** What holds of every run of the proxy with its cache: which follow-ups are accepted, what a denied or
    failed call has done to the cache, and whose the cached tokens are. */
module CachedSafety {
  import opened Tokens
  import opened Lru
  import opened LruOrder
  import opened Sharding
  import opened RpcPolicy
  import opened Scope
  import opened Auth
  import opened Proxy
  import opened ProxySafety
  import opened CachedProxy
  import opened CachedSteps

  // ---------- follow-ups ----------

  /** The check of a call that presents a token takes the reply of the cache. */
  lemma CheckStep(st: Local, h: Hash, cfg: Config, d: CallId, k: Token, check: int, refresh: int)
    requires d in st.calls && st.calls[d].phase.Begun? && d.who.valid && Presents(d, st.calls[d]) == Some(k)
    requires st.clocks[ShardOf(h, k)] <= check <= refresh
    ensures var reply := Do(st.shards[ShardOf(h, k)], cfg, GetOp(k, check, refresh)).1;
      LocalStep(st, h, cfg, CheckAt(d, check, refresh)).calls[d].phase == CheckPhase(d, st.calls[d], ToLookup(reply))
  {
    hide Do, CheckPhase, Presents;
    assert Asks(CheckAt(d, check, refresh), st.calls[d]) == Some(GetOp(k, check, refresh));
  }

  /** The verdict on a request in order. */
  lemma VerdictOnToken(d: CallId, call: Call, k: Token, taskQueue: string, reply: Option<Entry>)
    requires InOrder(d, call, k, taskQueue) && (reply.Some? ==> reply.value.taskQueue == taskQueue)
    ensures CheckPhase(d, call, ToLookup(reply))
         == if reply.Some? && d.who.Owns(reply.value) then Authorized(taskQueue) else Done(Denied)
  {
    hide CommandsAllowed, RequestTaskToken, RequestNamespace;
  }

  /** No legitimate follow-up is denied, and no other accepted. In every run, let the last operation on
      a token have put it, or found it by a lookup, at time `t`. A call that presents it, with everything
      else about the request in order, is accepted, under the queue the token was issued for, if and only
      if the caller holds that queue of that namespace, no more than the time to live has passed, and the
      shard has stayed below its capacity in other tokens touched since and not deleted again. */
  lemma FollowUpWithinTtl(clocks: Clocks, h: Hash, cfg: Config, les: seq<LocalEvent>, n: nat, k: Token, e: Entry, t: int,
                          d: CallId, check: int, refresh: int)
    requires var st := LocalRun(clocks, h, cfg, les);
      && n < |st.acts| && TouchedAt(st.acts[n], k, e, t) && LastOn(st.acts, n, k)
      && d in st.calls && st.calls[d].phase.Begun? && InOrder(d, st.calls[d], k, e.taskQueue)
      && st.clocks[ShardOf(h, k)] <= check <= refresh
    ensures var st := LocalRun(clocks, h, cfg, les);
      var busy := cfg.cap > 0 && Crowd({}, st.acts[n + 1..], h, ShardOf(h, k)) >= cfg.cap;
      LocalStep(st, h, cfg, CheckAt(d, check, refresh)).calls[d].phase
        == if d.who.Owns(e) && check <= t + cfg.ttl && !busy then Authorized(e.taskQueue) else Done(Denied)
  {
    hide LocalRun, LocalStep, Do, Crowd, CheckPhase, TouchedAt, LastOn;
    var st := LocalRun(clocks, h, cfg, les);
    FoundAfterTouch(clocks, h, cfg, les, n, k, e, t, check, refresh);
    CheckStep(st, h, cfg, d, k, check, refresh);
    var reply := Do(st.shards[ShardOf(h, k)], cfg, GetOp(k, check, refresh)).1;
    VerdictOnToken(d, st.calls[d], k, e.taskQueue, reply);
  }

  /** A token that was never put, or whose last operation deleted it or failed to find it, is turned
      away from everyone. */
  lemma UnknownTokenIsDenied(clocks: Clocks, h: Hash, cfg: Config, les: seq<LocalEvent>, k: Token, d: CallId, check: int, refresh: int)
    requires var st := LocalRun(clocks, h, cfg, les);
      && ((forall j :: 0 <= j < |st.acts| ==> !NamesToken(st.acts[j], k))
          || exists n :: 0 <= n < |st.acts| && Releases(st.acts[n], k) && LastOn(st.acts, n, k))
      && d in st.calls && st.calls[d].phase.Begun? && d.who.valid && Presents(d, st.calls[d]) == Some(k)
      && st.clocks[ShardOf(h, k)] <= check <= refresh
    ensures LocalStep(LocalRun(clocks, h, cfg, les), h, cfg, CheckAt(d, check, refresh)).calls[d].phase == Done(Denied)
  {
    var st := LocalRun(clocks, h, cfg, les);
    NotFoundOtherwise(clocks, h, cfg, les, k);
    CheckStep(st, h, cfg, d, k, check, refresh);
    hide LocalRun, LocalStep, CheckPhase;
    assert Do(st.shards[ShardOf(h, k)], cfg, GetOp(k, check, refresh)).1.None?;
    MissIsDenied(d, st.calls[d]);
  }

  lemma MissIsDenied(d: CallId, call: Call)
    requires Presents(d, call).Some?
    ensures CheckPhase(d, call, Miss) == Done(Denied)
  {
  }

  // ---------- the puts of a call ----------

  /** The scope and the response a call registers tokens for. */
  function Registers(phase: Phase): Option<(string, Response)> {
    match phase
    case Registering(scope, resp, _, _) => Some((scope, resp))
    case Done(Delivered(scope, resp, _)) => Some((scope, resp))
    case Done(MissingScope(scope, resp, _)) => Some((scope, resp))
    case Done(PutUnavailable(scope, resp, _, _, _)) => Some((scope, resp))
    case _ => None
  }

  ghost predicate PutFitsCall(a: Act, calls: map<CallId, Call>) {
    a.who.Some? && Inner(a.op).PutOp? ==>
      var c := a.who.value;
      && c in calls && Registers(calls[c].phase).Some?
      && Inner(a.op).entry == Entry(c.who.namespace, Registers(calls[c].phase).value.0)
      && Inner(a.op).key in ResponseTokens(Registers(calls[c].phase).value.1)
  }

  ghost predicate PutsFit(st: Local) {
    forall j :: 0 <= j < |st.acts| ==> PutFitsCall(st.acts[j], st.calls)
  }

  lemma RegistersOn(found: LookupResult, e: Event, call: Call)
    requires !e.Begin? && !e.Lose? && Registers(call.phase).Some?
    ensures Registers(NextPhase(found, e, call)) == Registers(call.phase)
  {
  }

  lemma StepKeepsPuts(st: Local, h: Hash, cfg: Config, le: LocalEvent)
    requires PutsFit(st)
    ensures PutsFit(LocalStep(st, h, cfg, le))
  {
    var st' := LocalStep(st, h, cfg, le);
    StepActs(st, h, cfg, le);
    forall j | 0 <= j < |st'.acts| ensures PutFitsCall(st'.acts[j], st'.calls) {
      if j < |st.acts| {
        assert st'.acts[j] == st.acts[j] && PutFitsCall(st.acts[j], st.calls);
        StepKeepsFit(st, h, cfg, le, st.acts[j]);
      } else {
        NewPutFits(st, h, cfg, le);
      }
    }
  }

  lemma StepKeepsFit(st: Local, h: Hash, cfg: Config, le: LocalEvent, a: Act)
    requires PutFitsCall(a, st.calls)
    ensures PutFitsCall(a, LocalStep(st, h, cfg, le).calls)
  {
    if a.who.Some? && Inner(a.op).PutOp? && !le.SweepAt? && Enabled(st, h, le) {
      var c, e := a.who.value, ProxyEvent(le);
      if !e.Begin? && e.c == c {
        var (st1, reply) := Perform(st, h, cfg, Caller(le), OpOf(st, le));
        RegistersOn(ToLookup(reply), e, st.calls[c]);
      }
    }
    hide NextPhase, NewLines, NewlyAccepted, Registers, ResponseTokens;
  }

  lemma NewPutFits(st: Local, h: Hash, cfg: Config, le: LocalEvent)
    requires Enabled(st, h, le) && OpOf(st, le).Some?
    ensures PutFitsCall(Act(Caller(le), OpOf(st, le).value, CacheDo(st.shards, h, cfg, OpOf(st, le).value).1),
                        LocalStep(st, h, cfg, le).calls)
  {
    hide CacheDo, ResponseTokens, CheckPhase;
    if le.PutAt? {
      var p := st.calls[le.c].phase;
      assert ResponseTokens(p.resp)[p.put] in ResponseTokens(p.resp);
    }
  }

  lemma {:induction false} RunKeepsPuts(clocks: Clocks, h: Hash, cfg: Config, les: seq<LocalEvent>)
    ensures PutsFit(LocalRun(clocks, h, cfg, les))
  {
    if les != [] {
      RunKeepsPuts(clocks, h, cfg, les[..|les| - 1]);
      StepKeepsPuts(LocalRun(clocks, h, cfg, les[..|les| - 1]), h, cfg, les[|les| - 1]);
    }
  }

  /** The operation put `k` at time `t`, or is a lookup that found it and slid its deadline from then on. */
  predicate Refreshes(a: Act, k: Token, t: int) {
    NamesToken(a, k)
    && ((Inner(a.op).PutOp? && Inner(a.op).now == t) || (Inner(a.op).GetOp? && Inner(a.op).refresh == t && a.reply.Some?))
  }

  /** The same for a token a reply delivered: call `c` put it by operation `n0`, its reply is delivered,
      and since then the token has been looked up any number of times but neither removed nor put again.
      Let operation `n` be the last on it, that put or a lookup that found it, at time `t`. Any caller of
      the namespace that holds the queue of call `c` is accepted, under that queue, within the time to
      live of `t` and below the pressure since, and nobody else. */
  lemma {:induction false} DeliveredFollowUp(clocks: Clocks, h: Hash, cfg: Config, les: seq<LocalEvent>, c: CallId, n0: nat, n: nat,
                                             t: int, k: Token, d: CallId, check: int, refresh: int)
    requires var st := LocalRun(clocks, h, cfg, les);
      && c in st.calls && st.calls[c].phase.Done? && st.calls[c].phase.outcome.Delivered?
      && n0 <= n < |st.acts| && st.acts[n0].who == Some(c) && NamesToken(st.acts[n0], k) && Inner(st.acts[n0].op).PutOp?
      && OnlyLookedUpSince(st.acts, n0, k) && Refreshes(st.acts[n], k, t) && LastOn(st.acts, n, k)
      && d in st.calls && st.calls[d].phase.Begun? && InOrder(d, st.calls[d], k, st.calls[c].phase.outcome.scope)
      && st.clocks[ShardOf(h, k)] <= check <= refresh
    ensures var st := LocalRun(clocks, h, cfg, les);
      var out := st.calls[c].phase.outcome;
      var mayAct := d.who.namespace == c.who.namespace && d.who.AllowsTaskQueue(out.scope);
      var busy := cfg.cap > 0 && Crowd({}, st.acts[n + 1..], h, ShardOf(h, k)) >= cfg.cap;
      && Hands(out.resp, k)
      && LocalStep(st, h, cfg, CheckAt(d, check, refresh)).calls[d].phase
         == if mayAct && check <= t + cfg.ttl && !busy then Authorized(out.scope) else Done(Denied)
  {
    hide LocalRun, LocalStep, Crowd, InOrder, LastOn, ResponseTokens, Hands, OnlyLookedUpSince;
    var st := LocalRun(clocks, h, cfg, les);
    RunKeepsPuts(clocks, h, cfg, les);
    assert PutFitsCall(st.acts[n0], st.calls);
    CollectedIffHanded(st.calls[c].phase.outcome.resp, k);
    var put := Inner(st.acts[n0].op);
    assert st.acts[n0].op == KeyOp(PutOp(k, put.entry, put.now));
    if n0 < n {
      HitsAfterPut(clocks, h, cfg, les, n0, k, put.entry, put.now, n);
      OnlyLookups(st.acts, n0, n, k);
    }
    assert TouchedAt(st.acts[n], k, put.entry, t);
    FollowUpWithinTtl(clocks, h, cfg, les, n, k, put.entry, t, d, check, refresh);
  }

  lemma OnlyLookups(acts: seq<Act>, n0: nat, n: nat, k: Token)
    requires n0 < n < |acts| && OnlyLookedUpSince(acts, n0, k) && NamesToken(acts[n], k)
    ensures Inner(acts[n].op).GetOp?
  {
  }

  // ---------- calls that are denied or fail ----------

  /** The operations of one call, in order. */
  function ActsOf(acts: seq<Act>, c: CallId): seq<Act> {
    if acts == [] then [] else
    var rest, last := ActsOf(acts[..|acts| - 1], c), acts[|acts| - 1];
    if last.who == Some(c) then rest + [last] else rest
  }

  /** The call has not got as far as upstream's acceptance showing in the cache, or never will. */
  predicate BeforeBookkeeping(phase: Phase) {
    phase.Begun? || phase.Authorized? || phase.Answered?
    || phase == Done(Denied) || (phase.Done? && phase.outcome.UpstreamFailed?)
  }

  predicate IsLookUp(acts: seq<Act>, k: Token) {
    |acts| == 1 && Inner(acts[0].op).GetOp? && Inner(acts[0].op).key == k
  }

  /** What such a call has done: one lookup of the token it presents, if it has got to it, and nothing else. */
  ghost predicate OnlyLookedUp(acts: seq<Act>, calls: map<CallId, Call>, c: CallId) {
    if c !in calls || calls[c].phase.Begun? then ActsOf(acts, c) == [] else
    BeforeBookkeeping(calls[c].phase) ==>
      if c.who.valid && Presents(c, calls[c]).Some? then IsLookUp(ActsOf(acts, c), Presents(c, calls[c]).value)
      else ActsOf(acts, c) == []
  }

  lemma ActsOfAppend(acts: seq<Act>, a: Act, c: CallId)
    ensures ActsOf(acts + [a], c) == if a.who == Some(c) then ActsOf(acts, c) + [a] else ActsOf(acts, c)
  {
    assert (acts + [a])[..|acts|] == acts;
  }

  /** A delete or a put that does anything is bookkeeping. */
  lemma Bookkeeping(le: LocalEvent, call: Call, found: LookupResult)
    requires le.DeleteAt? || le.PutAt?
    ensures var next := NextPhase(found, ProxyEvent(le), call);
      BeforeBookkeeping(next) ==> next == call.phase && Asks(le, call).None?
  {
    hide ResponseTokens, RequestTaskToken;
  }

  /** Only the check of a call that has just begun asks for a lookup, and it ends the beginning. */
  lemma Checking(le: LocalEvent, call: Call, found: LookupResult)
    requires le.CheckAt?
    ensures call.phase.Begun? ==>
      && !NextPhase(found, ProxyEvent(le), call).Begun?
      && Asks(le, call) == (if le.c.who.valid && Presents(le.c, call).Some?
                            then Some(GetOp(Presents(le.c, call).value, le.check, le.refresh)) else None)
    ensures !call.phase.Begun? ==> NextPhase(found, ProxyEvent(le), call) == call.phase && Asks(le, call).None?
  {
    hide Authorize, PresentedToken;
  }

  /** How a step of a call shows in its phase and in its operations. */
  lemma OwnPart(st: Local, h: Hash, cfg: Config, le: LocalEvent) returns (found: LookupResult)
    requires Enabled(st, h, le) && (le.CheckAt? || le.DeleteAt? || le.PutAt?) && le.c in st.calls
    ensures var call, st' := st.calls[le.c], LocalStep(st, h, cfg, le);
      && le.c in st'.calls && st'.calls[le.c] == call.(phase := NextPhase(found, ProxyEvent(le), call))
      && (Asks(le, call).None? ==> ActsOf(st'.acts, le.c) == ActsOf(st.acts, le.c))
      && (Asks(le, call).Some? ==> exists a: Act ::
            Inner(a.op) == Asks(le, call).value && ActsOf(st'.acts, le.c) == ActsOf(st.acts, le.c) + [a])
  {
    hide NextPhase, NewLines, NewlyAccepted, Asks, CacheDo, ActsOf;
    StepActs(st, h, cfg, le);
    found := ToLookup(Perform(st, h, cfg, Caller(le), OpOf(st, le)).1);
    if OpOf(st, le).Some? {
      var a := Act(Caller(le), OpOf(st, le).value, CacheDo(st.shards, h, cfg, OpOf(st, le).value).1);
      ActsOfAppend(st.acts, a, le.c);
      assert Inner(a.op) == Asks(le, st.calls[le.c]).value;
    }
  }

  /** The part of a step that concerns its own call. */
  lemma OwnLookUp(st: Local, h: Hash, cfg: Config, le: LocalEvent)
    requires Enabled(st, h, le) && (le.CheckAt? || le.DeleteAt? || le.PutAt?) && OnlyLookedUp(st.acts, st.calls, le.c)
    ensures var st' := LocalStep(st, h, cfg, le);
      OnlyLookedUp(st'.acts, st'.calls, le.c)
  {
    hide ActsOf, Asks, NextPhase, LocalStep, PresentedToken;
    if le.c in st.calls {
      var found := OwnPart(st, h, cfg, le);
      if le.CheckAt? {
        Checking(le, st.calls[le.c], found);
      } else {
        Bookkeeping(le, st.calls[le.c], found);
      }
      PresentsStays(le.c, st.calls[le.c], LocalStep(st, h, cfg, le).calls[le.c]);
    } else {
      NotBegun(st, h, cfg, le);
    }
  }

  lemma PresentsStays(c: CallId, a: Call, b: Call)
    requires a.rpc == b.rpc && a.req == b.req
    ensures Presents(c, a) == Presents(c, b)
  {
  }

  lemma NotBegun(st: Local, h: Hash, cfg: Config, le: LocalEvent)
    requires (le.CheckAt? || le.DeleteAt? || le.PutAt?) && le.c !in st.calls
    ensures LocalStep(st, h, cfg, le) == st
  {
  }

  lemma PlainLookUp(st: Local, h: Hash, cfg: Config, e: Event, c: CallId)
    requires OnlyLookedUp(st.acts, st.calls, c)
    ensures var st' := LocalStep(st, h, cfg, Plain(e));
      OnlyLookedUp(st'.acts, st'.calls, c)
  {
    StepActs(st, h, cfg, Plain(e));
    hide ActsOf, PresentedToken, ResponseTokens;
  }

  lemma OthersLookUp(st: Local, h: Hash, cfg: Config, le: LocalEvent, c: CallId)
    requires OnlyLookedUp(st.acts, st.calls, c) && !le.Plain? && Caller(le) != Some(c)
    ensures var st' := LocalStep(st, h, cfg, le);
      OnlyLookedUp(st'.acts, st'.calls, c)
  {
    StepActs(st, h, cfg, le);
    if Enabled(st, h, le) && OpOf(st, le).Some? {
      ActsOfAppend(st.acts, Act(Caller(le), OpOf(st, le).value, CacheDo(st.shards, h, cfg, OpOf(st, le).value).1), c);
    }
    hide ActsOf, CacheDo, PresentedToken, NextPhase, NewLines, NewlyAccepted, EffectOf;
  }

  lemma {:induction false} RunOnlyLooksUp(clocks: Clocks, h: Hash, cfg: Config, les: seq<LocalEvent>, c: CallId)
    ensures var st := LocalRun(clocks, h, cfg, les);
      OnlyLookedUp(st.acts, st.calls, c)
  {
    if les != [] {
      var before, le := LocalRun(clocks, h, cfg, les[..|les| - 1]), les[|les| - 1];
      RunOnlyLooksUp(clocks, h, cfg, les[..|les| - 1], c);
      hide OnlyLookedUp, LocalStep, Enabled;
      if !Enabled(before, h, le) {
        DisabledStep(before, h, cfg, le);
      } else if le.Plain? {
        PlainLookUp(before, h, cfg, le.e, c);
      } else if Caller(le) == Some(c) {
        OwnLookUp(before, h, cfg, le);
      } else {
        OthersLookUp(before, h, cfg, le, c);
      }
    }
  }

  lemma DisabledStep(st: Local, h: Hash, cfg: Config, le: LocalEvent)
    requires !Enabled(st, h, le)
    ensures LocalStep(st, h, cfg, le) == st
  {
  }

  /** In every run, a call that is denied or whose handler fails has done one thing to the cache at most:
      it has looked up the token it presented. */
  lemma DeniedOrFailedOnlyLooksUp(clocks: Clocks, h: Hash, cfg: Config, les: seq<LocalEvent>, c: CallId)
    requires var st := LocalRun(clocks, h, cfg, les);
      c in st.calls && (st.calls[c].phase == Done(Denied) || (st.calls[c].phase.Done? && st.calls[c].phase.outcome.UpstreamFailed?))
    ensures var st := LocalRun(clocks, h, cfg, les);
      if c.who.valid && Presents(c, st.calls[c]).Some? then IsLookUp(ActsOf(st.acts, c), Presents(c, st.calls[c]).value)
      else ActsOf(st.acts, c) == []
  {
    RunOnlyLooksUp(clocks, h, cfg, les, c);
  }

  lemma GetEffect(s: seq<Slot>, cfg: Config, k: Token, check: int, refresh: int)
    ensures var x := Find(s, k);
      Do(s, cfg, GetOp(k, check, refresh)).0
        == (if x.Some? && check <= x.value.deadline then [x.value.(deadline := refresh + cfg.ttl)] else []) + Without(s, k)
  {
    FindMember(s, k);
    if Find(s, k).None? {
      FilterAll(s, OtherThan(k));
    }
    hide Filter, Find;
    assert [] + Without(s, k) == Without(s, k);
  }

  /** And that lookup, in every state, refreshes the slot of that token and moves it to the front if it is
      live, drops it if it has expired, and leaves every other slot of the cache with its entry, its
      deadline and its place among the others. */
  lemma LookUpEffect(st: Local, h: Hash, cfg: Config, c: CallId, check: int, refresh: int, k: Token)
    requires c in st.calls && st.calls[c].phase.Begun? && c.who.valid && Presents(c, st.calls[c]) == Some(k)
    requires st.clocks[ShardOf(h, k)] <= check <= refresh
    ensures var st', i := LocalStep(st, h, cfg, CheckAt(c, check, refresh)), ShardOf(h, k);
      var x := Find(st.shards[i], k);
      && (forall j :: 0 <= j < NUM_SHARDS && j != i ==> st'.shards[j] == st.shards[j])
      && st'.shards[i] == (if x.Some? && check <= x.value.deadline then [x.value.(deadline := refresh + cfg.ttl)] else [])
                          + Without(st.shards[i], k)
  {
    hide Do, Find, Without, Presents;
    assert Asks(CheckAt(c, check, refresh), st.calls[c]) == Some(GetOp(k, check, refresh));
    StepActs(st, h, cfg, CheckAt(c, check, refresh));
    hide LocalStep;
    GetEffect(st.shards[ShardOf(h, k)], cfg, k, check, refresh);
  }

  /** So the lookup of a call, in every run, leaves the cache as it is exactly when it misses an absent
      token, or hits the front slot with a deadline that is the old one. */
  lemma LookUpUnchangedIff(clocks: Clocks, h: Hash, cfg: Config, les: seq<LocalEvent>, c: CallId, check: int, refresh: int, k: Token)
    requires var st := LocalRun(clocks, h, cfg, les);
      && c in st.calls && st.calls[c].phase.Begun? && c.who.valid && Presents(c, st.calls[c]) == Some(k)
      && st.clocks[ShardOf(h, k)] <= check <= refresh
    ensures var st := LocalRun(clocks, h, cfg, les);
      var s := st.shards[ShardOf(h, k)];
      (LocalStep(st, h, cfg, CheckAt(c, check, refresh)).shards == st.shards)
        <==> !HasKey(s, k) || (s[0].key == k && check <= s[0].deadline == refresh + cfg.ttl)
  {
    var st, i := LocalRun(clocks, h, cfg, les), ShardOf(h, k);
    StaysSound(clocks, h, cfg, les);
    LookUpEffect(st, h, cfg, c, check, refresh, k);
    GetEffect(st.shards[i], cfg, k, check, refresh);
    GetUnchangedIff(st.shards[i], cfg, st.clocks[i], k, check, refresh);
    hide LocalRun, LocalStep, Inv, Presents;
    var st' := LocalStep(st, h, cfg, CheckAt(c, check, refresh));
    if st'.shards[i] == st.shards[i] {
      assert forall j :: 0 <= j < NUM_SHARDS ==> st'.shards[j] == st.shards[j];
    }
  }

  // A worker that polls a task, and another one of its namespace that presents the token of the task.
  const POLLER := CallId(Identity(true, "ns", ["q"], ""), 0)
  const STRANGER := CallId(Identity(true, "ns", ["r"], ""), 0)
  const POLL := PollActivityTaskQueueRequest("ns", TaskQueue("q", Normal, ""))
  const HEARTBEAT := RecordActivityTaskHeartbeatRequest("ns", "task")

  /** The poll is answered and its token cached; then the stranger's heartbeat begins. */
  function StrangersRun(): seq<LocalEvent> {
    [Plain(Begin(POLLER, PollActivityTaskQueue, POLL)), CheckAt(POLLER, 0, 0),
     Plain(Reply(POLLER, Replied(PollActivityTaskQueueResponse("task")))), PutAt(POLLER, 0),
     Plain(Begin(STRANGER, RecordActivityTaskHeartbeat, HEARTBEAT))]
  }

  lemma PollAuthorized()
    ensures CheckPhase(POLLER, Call(PollActivityTaskQueue, POLL, Begun), Miss) == Authorized("q")
    ensures Presents(POLLER, Call(PollActivityTaskQueue, POLL, Begun)).None?
    ensures !IsTerminal(Call(PollActivityTaskQueue, POLL, Authorized("q")))
    ensures ResponseTokens(PollActivityTaskQueueResponse("task")) == ["task"]
  {
    NonEmptyOne("task");
  }

  lemma StrangerTurnedAway(found: LookupResult)
    requires found == Miss || found == Hit(Entry("ns", "q"))
    ensures Presents(STRANGER, Call(RecordActivityTaskHeartbeat, HEARTBEAT, Begun)) == Some("task")
    ensures CheckPhase(STRANGER, Call(RecordActivityTaskHeartbeat, HEARTBEAT, Begun), found) == Done(Denied)
  {
  }

  lemma FirstSlot(cfg: Config, x: Slot)
    ensures Put([], cfg.cap, x) == [x]
  {
    assert Without([], x.key) == [];
  }

  /** The token is cached, with the deadline its put gave it, and nothing else is. */
  lemma TokenCached(h: Hash, cfg: Config)
    ensures var st := LocalRun(Steady(0), h, cfg, StrangersRun());
      && st.calls.Keys == {POLLER, STRANGER}
      && st.calls[STRANGER] == Call(RecordActivityTaskHeartbeat, HEARTBEAT, Begun)
      && st.shards[ShardOf(h, "task")] == [Slot("task", Entry("ns", "q"), cfg.ttl)] && NotAfter(st.clocks, 0)
  {
    hide LocalStep, CheckPhase, ResponseTokens, Presents;
    var les, call := StrangersRun(), Call(PollActivityTaskQueue, POLL, Begun);
    PollAuthorized();
    var st0 := LocalStart(Steady(0));
    var st1 := LocalStep(st0, h, cfg, les[0]);
    BeginStep(st0, h, cfg, POLLER, PollActivityTaskQueue, POLL);
    var st2 := LocalStep(st1, h, cfg, les[1]);
    SilentCheck(st1, h, cfg, POLLER, call, 0, 0);
    var st3 := LocalStep(st2, h, cfg, les[2]);
    ReplyStep(st2, h, cfg, POLLER, call.(phase := Authorized("q")), Replied(PollActivityTaskQueueResponse("task")));
    var registering := call.(phase := Registering("q", PollActivityTaskQueueResponse("task"), false, 0));
    assert At(st3, POLLER, registering) && HasNextToken(registering.phase);
    var st4 := LocalStep(st3, h, cfg, les[3]);
    PutStep(st3, h, cfg, POLLER, registering, 0);
    FirstSlot(cfg, Slot("task", Entry("ns", "q"), cfg.ttl));
    BeginStep(st4, h, cfg, STRANGER, RecordActivityTaskHeartbeat, HEARTBEAT);
    FiveSteps(h, cfg, les);
  }

  lemma RunTo(h: Hash, cfg: Config, les: seq<LocalEvent>, i: nat)
    requires i < |les|
    ensures LocalRun(Steady(0), h, cfg, les[..i + 1]) == LocalStep(LocalRun(Steady(0), h, cfg, les[..i]), h, cfg, les[i])
  {
    assert les[..i + 1] == les[..i] + [les[i]];
    RunOn(Steady(0), h, cfg, les[..i], les[i]);
  }

  lemma FiveSteps(h: Hash, cfg: Config, les: seq<LocalEvent>)
    requires |les| == 5
    ensures LocalRun(Steady(0), h, cfg, les)
         == LocalStep(LocalStep(LocalStep(LocalStep(LocalStep(LocalStart(Steady(0)), h, cfg, les[0]), h, cfg, les[1]),
                                          h, cfg, les[2]), h, cfg, les[3]), h, cfg, les[4])
  {
    hide LocalStep;
    assert LocalRun(Steady(0), h, cfg, les[..0]) == LocalStart(Steady(0));
    RunTo(h, cfg, les, 0);
    RunTo(h, cfg, les, 1);
    RunTo(h, cfg, les, 2);
    RunTo(h, cfg, les, 3);
    RunTo(h, cfg, les, 4);
    assert les[..5] == les;
  }

  /** Whatever the hash and the configuration, there is a run in which a denied call changes the cache. */
  lemma DeniedCallChangesTheCache(h: Hash, cfg: Config)
    ensures var st := LocalRun(Steady(0), h, cfg, StrangersRun());
      var st' := LocalStep(st, h, cfg, CheckAt(STRANGER, 1, 1));
      STRANGER in st'.calls && st'.calls[STRANGER].phase == Done(Denied) && st'.shards != st.shards
  {
    TokenCached(h, cfg);
    StrangerTurnedAway(Miss);
    StrangerTurnedAway(Hit(Entry("ns", "q")));
    hide LocalStep, LocalRun, CheckPhase, Presents, StrangersRun;
    var st := LocalRun(Steady(0), h, cfg, StrangersRun());
    var s := st.shards[ShardOf(h, "task")];
    assert HasKey(s, "task") by { assert s[0] in s; }
    LookUpUnchangedIff(Steady(0), h, cfg, StrangersRun(), STRANGER, 1, 1, "task");
    AskingCheck(st, h, cfg, STRANGER, st.calls[STRANGER], "task", 1, 1);
  }

  // ---------- whose the cached tokens are ----------

  /** Every identity that begins a call and is valid is a configured one, and those are sound. */
  ghost predicate OnlyConfigured(les: seq<LocalEvent>, known: set<Identity>) {
    && (forall id :: id in known ==> Sound(id))
    && (forall le :: le in les && le.Plain? && le.e.Begin? && le.e.c.who.valid ==> le.e.c.who in known)
  }

  lemma {:induction false} TraceConfigured(clocks: Clocks, h: Hash, cfg: Config, les: seq<LocalEvent>, known: set<Identity>)
    requires OnlyConfigured(les, known)
    ensures Configured(Trace(clocks, h, cfg, les), known)
  {
    if les != [] {
      var before, le := les[..|les| - 1], les[|les| - 1];
      var st := LocalRun(clocks, h, cfg, before);
      assert le in les;
      TraceConfigured(clocks, h, cfg, before, known);
      LosesOnly(Drops(st, h, cfg, le));
    }
  }

  /** What holds of the proxy over any map that may lose bindings holds over the cache: in every run each
      cached slot, live or not, has a queue and belongs to a configured identity. */
  lemma SlotsAreLegitimate(clocks: Clocks, h: Hash, cfg: Config, les: seq<LocalEvent>, known: set<Identity>, i: nat, x: Slot)
    requires OnlyConfigured(les, known)
    requires i < NUM_SHARDS && x in LocalRun(clocks, h, cfg, les).shards[i]
    ensures Legitimate(x.entry, known)
  {
    var st, events := LocalRun(clocks, h, cfg, les), Trace(clocks, h, cfg, les);
    StaysSound(clocks, h, cfg, les);
    CachedRunIsAProxyRun(clocks, h, cfg, les);
    TraceConfigured(clocks, h, cfg, les, known);
    hide LocalRun, Trace;
    assert ShardOf(h, x.key) == i;
    FindMember(st.shards[i], x.key);
    StoreInvariant(events, known, x.key);
  }
}

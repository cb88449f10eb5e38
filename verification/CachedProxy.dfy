/** The proxy with the sharded cache as its token store: calls, shards and clock readings as one
    transition system. It is a run of the proxy over a map that loses bindings, and what it does to the
    cache is told exactly. */
module CachedProxy {
  import opened Tokens
  import opened Lru
  import opened LruRetention
  import opened Sharding
  import opened CacheAsStore
  import opened Scope
  import opened Proxy

  // ---------- the system ----------

  type ProperOp = op: CacheOp | WellFormed(op) witness SweepShard(0, 0, 0)

  /** One operation on the cache, the call it belongs to (a sweep belongs to none), and the reply. */
  datatype Act = Act(who: Option<CallId>, op: ProperOp, reply: Option<Entry>)

  datatype Local = Local(
    shards: Shards,
    clocks: Clocks,          // what the clock last read in each shard
    acts: seq<Act>,          // the operations so far
    calls: map<CallId, Call>,
    order: seq<CallId>,
    log: seq<LogLine>,
    accepted: nat)

  /** The cache never fails. Each event that works on it brings the clock readings it takes. */
  datatype LocalEvent =
    | Plain(e: Event)        // a step that leaves the cache alone
    | CheckAt(c: CallId, check: int, refresh: int)
    | DeleteAt(c: CallId)
    | PutAt(c: CallId, now: int)
    | SweepAt(shard: nat, now: int, at: int)

  function LocalStart(clocks: Clocks): Local {
    Local(Empty(), clocks, [], map[], [], [], 0)
  }

  /** The step of the proxy that an event amounts to. */
  function ProxyEvent(le: LocalEvent): Event
    requires !le.SweepAt?
  {
    match le
    case Plain(e) => e
    case CheckAt(c, _, _) => Check(c, false)
    case DeleteAt(c) => DeleteToken(c, true)
    case PutAt(c, _) => PutToken(c, true, true)
  }

  /** What a call asks of the cache at such a step. */
  function Asks(le: LocalEvent, call: Call): (op: Option<Op>)
    requires le.CheckAt? || le.DeleteAt? || le.PutAt?
    ensures op.Some? ==> !op.value.SweepOp?
  {
    if le.CheckAt? then
      var t := Presents(le.c, call);
      if call.phase.Begun? && le.c.who.valid && t.Some? then Some(GetOp(t.value, le.check, le.refresh)) else None
    else
      match EffectOf(ProxyEvent(le), call)
      case Some(Bound(_, t, e)) => if le.PutAt? then Some(PutOp(t, e, le.now)) else None
      case Some(Unbound(_, t)) => Some(DeleteOp(t))
      case _ => None
  }

  function OpOf(st: Local, le: LocalEvent): Option<ProperOp> {
    match le
    case Plain(_) => None
    case SweepAt(i, now, at) => if i < NUM_SHARDS then Some(SweepShard(i, now, at)) else None
    case _ =>
      if le.c !in st.calls then None else
      match Asks(le, st.calls[le.c])
      case Some(op) => Some(KeyOp(op))
      case None => None
  }

  function Caller(le: LocalEvent): Option<CallId> {
    if le.CheckAt? || le.DeleteAt? || le.PutAt? then Some(le.c) else None
  }

  /** An event whose readings would run backwards in its shard cannot happen. */
  predicate Enabled(st: Local, h: Hash, le: LocalEvent) {
    && (le.Plain? ==> le.e.Begin? || le.e.Reply? || le.e.Finish?)
    && (le.SweepAt? ==> OpOf(st, le).Some?)
    && (OpOf(st, le).Some? ==> OpTimed(Inner(OpOf(st, le).value), st.clocks[Target(h, OpOf(st, le).value)]))
  }

  /** The operation on the cache, if there is one. */
  function Perform(st: Local, h: Hash, cfg: Config, who: Option<CallId>, op: Option<ProperOp>): (Local, Option<Entry>) {
    match op
    case None => (st, None)
    case Some(x) =>
      var (shards, reply) := CacheDo(st.shards, h, cfg, x);
      (st.(shards := shards, clocks := ClocksAfter(st.clocks, h, x), acts := st.acts + [Act(who, x, reply)]), reply)
  }

  function ToLookup(reply: Option<Entry>): LookupResult {
    match reply
    case Some(e) => Hit(e)
    case None => Miss
  }

  /** The step of the call, if it has begun. */
  function Proceed(st: Local, e: Event, found: LookupResult): Local
    requires !e.Lose?
  {
    if e.Begin? then
      if e.c in st.calls then st
      else st.(calls := st.calls[e.c := Call(e.rpc, e.req, Begun)], order := st.order + [e.c])
    else if e.c !in st.calls then st
    else
      var call := st.calls[e.c];
      st.(calls := st.calls[e.c := call.(phase := NextPhase(found, e, call))],
          log := st.log + NewLines(e, call),
          accepted := st.accepted + NewlyAccepted(e, call))
  }

  /** An event that cannot happen changes nothing, so a run is any sequence of events whatever. */
  function LocalStep(st: Local, h: Hash, cfg: Config, le: LocalEvent): Local {
    if !Enabled(st, h, le) then st else
    var (st1, reply) := Perform(st, h, cfg, Caller(le), OpOf(st, le));
    if le.SweepAt? then st1 else Proceed(st1, ProxyEvent(le), ToLookup(reply))
  }

  function LocalRun(clocks: Clocks, h: Hash, cfg: Config, les: seq<LocalEvent>): Local {
    if les == [] then LocalStart(clocks)
    else LocalStep(LocalRun(clocks, h, cfg, les[..|les| - 1]), h, cfg, les[|les| - 1])
  }

  lemma RunOn(clocks: Clocks, h: Hash, cfg: Config, les: seq<LocalEvent>, le: LocalEvent)
    ensures LocalRun(clocks, h, cfg, les + [le]) == LocalStep(LocalRun(clocks, h, cfg, les), h, cfg, le)
  {
    assert (les + [le])[..|les|] == les;
  }

  // ---------- the cache stays sound ----------

  ghost predicate LocalInv(st: Local, h: Hash, cfg: Config) {
    ShardsInv(st.shards, cfg, st.clocks) && AtHome(st.shards, h)
  }

  lemma StepKeepsInv(st: Local, h: Hash, cfg: Config, le: LocalEvent)
    requires LocalInv(st, h, cfg)
    ensures LocalInv(LocalStep(st, h, cfg, le), h, cfg)
  {
    hide ShardsInv, AtHome, NextPhase, NewLines, NewlyAccepted, EffectOf;
    if Enabled(st, h, le) && OpOf(st, le).Some? {
      CacheDoKeepsInv(st.shards, h, cfg, st.clocks, OpOf(st, le).value);
      StepAtHome(st.shards, h, cfg, OpOf(st, le).value);
    }
  }

  lemma {:induction false} StaysSound(clocks: Clocks, h: Hash, cfg: Config, les: seq<LocalEvent>)
    ensures LocalInv(LocalRun(clocks, h, cfg, les), h, cfg)
  {
    if les != [] {
      StaysSound(clocks, h, cfg, les[..|les| - 1]);
      StepKeepsInv(LocalRun(clocks, h, cfg, les[..|les| - 1]), h, cfg, les[|les| - 1]);
    }
  }

  // ---------- a run of the proxy over a lossy map ----------

  /** The keys the cache drops on its own at an event. */
  function Drops(st: Local, h: Hash, cfg: Config, le: LocalEvent): set<Token> {
    match OpOf(st, le)
    case None => {}
    case Some(op) => Dropped(st.shards[Target(h, op)], cfg, Inner(op))
  }

  ghost function LoseAll(lost: set<Token>): seq<Event> {
    if lost == {} then [] else
    var t :| t in lost;
    [Lose(t)] + LoseAll(lost - {t})
  }

  /** An event as the proxy over a map sees it: first the losses, then the step of the call. */
  ghost function Seen(st: Local, h: Hash, cfg: Config, le: LocalEvent): seq<Event> {
    if !Enabled(st, h, le) then [] else
    LoseAll(Drops(st, h, cfg, le)) + (if le.SweepAt? then [] else [ProxyEvent(le)])
  }

  ghost function Trace(clocks: Clocks, h: Hash, cfg: Config, les: seq<LocalEvent>): seq<Event> {
    if les == [] then [] else
    Trace(clocks, h, cfg, les[..|les| - 1]) + Seen(LocalRun(clocks, h, cfg, les[..|les| - 1]), h, cfg, les[|les| - 1])
  }

  /** The same calls, order, log and total, and the same bindings in the cache as in the map. */
  ghost predicate Same(st: Local, p: State, h: Hash) {
    && st.calls == p.calls && st.order == p.order && st.log == p.log && st.accepted == p.accepted
    && SameBindings(st.shards, h, p.store)
  }

  lemma {:induction false} LosesOnly(lost: set<Token>)
    ensures forall e :: e in LoseAll(lost) ==> e.Lose?
    decreases lost
  {
    if lost != {} {
      LosesOnly(lost - {LoseAll(lost)[0].token});
    }
  }

  lemma {:induction false} LosingAll(p: State, lost: set<Token>)
    ensures var q := Proxy.Run(p, LoseAll(lost));
      q.store == p.store - lost && q.calls == p.calls && q.order == p.order && q.log == p.log && q.accepted == p.accepted
    decreases lost
  {
    if lost == {} {
      assert p.store - lost == p.store;
    } else {
      var t := LoseAll(lost)[0].token;
      assert LoseAll(lost)[1..] == LoseAll(lost - {t});
      LosingAll(Proxy.Step(p, Lose(t)), lost - {t});
      assert p.store - {t} - (lost - {t}) == p.store - lost;
      assert t !in p.store ==> p.store - {t} == p.store;
    }
  }

  /** The operation of an event on a plain map. */
  function OnMap(m: map<Token, Entry>, op: Option<Op>): (map<Token, Entry>, Option<Entry>) {
    if op.None? then (m, None) else PlainDo(m, op.value)
  }

  function Applied(m: map<Token, Entry>, x: Option<Effect>): map<Token, Entry> {
    if x.None? then m else Apply(m, x.value)
  }

  /** What a call asks of the cache is what its step does to the store and needs to know of it. */
  lemma AskMeans(m: map<Token, Entry>, le: LocalEvent, call: Call)
    requires le.CheckAt? || le.DeleteAt? || le.PutAt?
    ensures var e := ProxyEvent(le);
      var (m', reply) := OnMap(m, Asks(le, call));
      && Applied(m, EffectOf(e, call)) == m'
      && NextPhase(ToLookup(reply), e, call) == NextPhase(Found(m, e, call), e, call)
  {
    hide Authorize, ResponseTokens, RequestTaskToken;
  }

  lemma PlainMeans(m: map<Token, Entry>, e: Event, call: Call)
    requires e.Reply? || e.Finish?
    ensures EffectOf(e, call).None? && Found(m, e, call) == Miss
  {
  }

  /** The step of a call over a map and over the cache, given that both start alike and that the step
      takes the map to `m'`. */
  lemma ProceedSame(st: Local, p: State, e: Event, found: LookupResult, h: Hash)
    requires !e.Lose?
    requires st.calls == p.calls && st.order == p.order && st.log == p.log && st.accepted == p.accepted
    requires !e.Begin? && e.c in p.calls ==>
               && NextPhase(found, e, p.calls[e.c]) == NextPhase(Found(p.store, e, p.calls[e.c]), e, p.calls[e.c])
               && SameBindings(st.shards, h, Applied(p.store, EffectOf(e, p.calls[e.c])))
    requires e.Begin? || e.c !in p.calls ==> SameBindings(st.shards, h, p.store)
    ensures Same(Proceed(st, e, found), Proxy.Step(p, e), h)
  {
    hide NextPhase, NewLines, NewlyAccepted, EffectOf, Apply, Found, SameBindings;
  }

  function InnerOf(op: Option<ProperOp>): Option<Op> {
    if op.None? then None else Some(Inner(op.value))
  }

  /** The operation over the cache, and over the map that has lost what the cache dropped. */
  lemma PerformSame(st: Local, h: Hash, cfg: Config, le: LocalEvent, m: map<Token, Entry>)
    requires LocalInv(st, h, cfg) && SameBindings(st.shards, h, m) && Enabled(st, h, le)
    ensures var (st1, reply) := Perform(st, h, cfg, Caller(le), OpOf(st, le));
      var (m', q) := OnMap(m - Drops(st, h, cfg, le), InnerOf(OpOf(st, le)));
      reply == q && SameBindings(st1.shards, h, m')
  {
    match OpOf(st, le) {
      case Some(op) =>
        StepSameBindings(st.shards, h, cfg, st.clocks, op, m);
      case None =>
        assert m - {} == m;
    }
  }

  lemma SweepKeepsMap(st: Local, h: Hash, le: LocalEvent, m: map<Token, Entry>)
    ensures le.SweepAt? && Enabled(st, h, le) ==> OnMap(m, InnerOf(OpOf(st, le))).0 == m
  {
  }

  lemma StepRefines(st: Local, p: State, h: Hash, cfg: Config, le: LocalEvent)
    requires LocalInv(st, h, cfg) && Same(st, p, h)
    ensures Same(LocalStep(st, h, cfg, le), Proxy.Run(p, Seen(st, h, cfg, le)), h)
  {
    SweepKeepsMap(st, h, le, p.store - Drops(st, h, cfg, le));
    hide Enabled, LocalInv, SameBindings, OpOf, Proceed, Drops, LoseAll, OnMap, CacheDo;
    if Enabled(st, h, le) {
      var losses := LoseAll(Drops(st, h, cfg, le));
      var p1 := Proxy.Run(p, losses);
      var (st1, reply) := Perform(st, h, cfg, Caller(le), OpOf(st, le));
      LosingAll(p, Drops(st, h, cfg, le));
      PerformSame(st, h, cfg, le, p.store);
      if le.SweepAt? {
        assert losses + [] == losses;
      } else {
        Proxy.RunAppend(p, losses, [ProxyEvent(le)]);
        assert Proxy.Run(p1, [ProxyEvent(le)]) == Proxy.Step(p1, ProxyEvent(le));
        CallRefines(st, st1, p1, h, le, reply);
      }
    }
  }

  lemma CallRefines(st: Local, st1: Local, p1: State, h: Hash, le: LocalEvent, reply: Option<Entry>)
    requires Enabled(st, h, le) && !le.SweepAt?
    requires st1.calls == st.calls == p1.calls && st1.order == p1.order && st1.log == p1.log && st1.accepted == p1.accepted
    requires var (m', q) := OnMap(p1.store, InnerOf(OpOf(st, le)));
      reply == q && SameBindings(st1.shards, h, m')
    ensures Same(Proceed(st1, ProxyEvent(le), ToLookup(reply)), Proxy.Step(p1, ProxyEvent(le)), h)
  {
    var e := ProxyEvent(le);
    if !e.Begin? && e.c in st.calls {
      if le.Plain? {
        PlainMeans(p1.store, e, st.calls[e.c]);
      } else {
        AskMeans(p1.store, le, st.calls[e.c]);
      }
    }
    hide NextPhase, EffectOf, Apply, Found, SameBindings, Asks, PlainDo;
    ProceedSame(st1, p1, e, ToLookup(reply), h);
  }

  /** The refinement. Over the cache, whatever the calls, the clocks and the sweeps do, the proxy runs
      as it does over a plain map that loses, before each step, the keys the cache drops in it: every
      call is in the same phase with the same outcome, the log is the same, and so are the bindings. */
  lemma {:induction false} CachedRunIsAProxyRun(clocks: Clocks, h: Hash, cfg: Config, les: seq<LocalEvent>)
    ensures Same(LocalRun(clocks, h, cfg, les), Proxy.Run(INIT, Trace(clocks, h, cfg, les)), h)
  {
    if les != [] {
      var before, le := les[..|les| - 1], les[|les| - 1];
      var st := LocalRun(clocks, h, cfg, before);
      CachedRunIsAProxyRun(clocks, h, cfg, before);
      StaysSound(clocks, h, cfg, before);
      StepRefines(st, Proxy.Run(INIT, Trace(clocks, h, cfg, before)), h, cfg, le);
      Proxy.RunAppend(INIT, Trace(clocks, h, cfg, before), Seen(st, h, cfg, le));
    }
  }

  /** And it loses a key only for one of the two reasons. */
  lemma DropsAreJustified(clocks: Clocks, h: Hash, cfg: Config, les: seq<LocalEvent>, le: LocalEvent, k: Token)
    requires var st := LocalRun(clocks, h, cfg, les);
      Enabled(st, h, le) && k in Drops(st, h, cfg, le)
    ensures var st := LocalRun(clocks, h, cfg, les);
      var op := OpOf(st, le).value;
      Justified(st.shards[Target(h, op)], cfg, Inner(op), k)
  {
    var st := LocalRun(clocks, h, cfg, les);
    var op := OpOf(st, le).value;
    StaysSound(clocks, h, cfg, les);
    DroppedIsJustified(st.shards[Target(h, op)], cfg, st.clocks[Target(h, op)], Inner(op), k);
  }

  // ---------- what one shard has seen ----------

  /** The operations of one shard. */
  function ShardOps(acts: seq<Act>, h: Hash, i: nat): seq<Op> {
    if acts == [] then [] else
    (if Target(h, acts[0].op) == i then [Inner(acts[0].op)] else []) + ShardOps(acts[1..], h, i)
  }

  /** The shard went from `s` to `s'` by its operations, in order, with the recorded replies. */
  ghost predicate Replays(acts: seq<Act>, h: Hash, cfg: Config, i: nat, s: seq<Slot>, clock: int, s': seq<Slot>, clock': int) {
    if acts == [] then s == s' && clock == clock' else
    var op := Inner(acts[0].op);
    if Target(h, acts[0].op) != i then Replays(acts[1..], h, cfg, i, s, clock, s', clock') else
    && OpTimed(op, clock) && acts[0].reply == Do(s, cfg, op).1
    && Replays(acts[1..], h, cfg, i, Do(s, cfg, op).0, After(op, clock), s', clock')
  }

  /** Replaying goes on with one more operation. */
  lemma {:induction false} ReplaysOn(acts: seq<Act>, a: Act, h: Hash, cfg: Config, i: nat,
                                     s: seq<Slot>, clock: int, s1: seq<Slot>, clock1: int)
    requires Replays(acts, h, cfg, i, s, clock, s1, clock1)
    requires Target(h, a.op) == i ==> OpTimed(Inner(a.op), clock1) && a.reply == Do(s1, cfg, Inner(a.op)).1
    ensures Replays(acts + [a], h, cfg, i, s, clock,
                    if Target(h, a.op) == i then Do(s1, cfg, Inner(a.op)).0 else s1,
                    if Target(h, a.op) == i then After(Inner(a.op), clock1) else clock1)
    decreases |acts|
  {
    hide Do, OpTimed, After;
    if acts == [] {
      assert ([a])[1..] == [] && acts + [a] == [a];
    } else {
      var op := Inner(acts[0].op);
      assert (acts + [a])[1..] == acts[1..] + [a] && (acts + [a])[0] == acts[0];
      if Target(h, acts[0].op) != i {
        ReplaysOn(acts[1..], a, h, cfg, i, s, clock, s1, clock1);
      } else {
        ReplaysOn(acts[1..], a, h, cfg, i, Do(s, cfg, op).0, After(op, clock), s1, clock1);
      }
    }
  }

  /** The most tokens of one shard that were, at any moment, touched (put or hit) and not deleted since. */
  function Crowd(others: set<Token>, acts: seq<Act>, h: Hash, i: nat): nat
    decreases |acts|
  {
    if acts == [] then |others| else
    var now := if Target(h, acts[0].op) == i then Touched(others, Inner(acts[0].op), acts[0].reply) else others;
    var rest := Crowd(now, acts[1..], h, i);
    if rest < |others| then |others| else rest
  }

  lemma {:induction false} ReplayedRun(acts: seq<Act>, h: Hash, cfg: Config, i: nat, s: seq<Slot>, clock: int,
                                       s': seq<Slot>, clock': int, others: set<Token>)
    requires Replays(acts, h, cfg, i, s, clock, s', clock')
    ensures var ops := ShardOps(acts, h, i);
      && Timed(ops, clock) && Clock(ops, clock) == clock' && Lru.Run(s, cfg, ops).0 == s'
      && Crowd(others, acts, h, i) == Pressure(others, s, cfg, ops)
    decreases |acts|
  {
    hide Do, OpTimed, After, Touched;
    if acts != [] {
      var op, rest := Inner(acts[0].op), ShardOps(acts[1..], h, i);
      if Target(h, acts[0].op) == i {
        var now := Touched(others, op, acts[0].reply);
        ReplayedRun(acts[1..], h, cfg, i, Do(s, cfg, op).0, After(op, clock), s', clock', now);
        assert ([op] + rest)[1..] == rest;
      } else {
        ReplayedRun(acts[1..], h, cfg, i, s, clock, s', clock', others);
        assert [] + rest == rest;
        CrowdAtLeast(others, acts[1..], h, i);
      }
    }
  }

  lemma CrowdAtLeast(others: set<Token>, acts: seq<Act>, h: Hash, i: nat)
    ensures |others| <= Crowd(others, acts, h, i)
  {
  }

  /** What a step does to shards, clocks and history. */
  lemma StepActs(st: Local, h: Hash, cfg: Config, le: LocalEvent)
    ensures var st' := LocalStep(st, h, cfg, le);
      if Enabled(st, h, le) && OpOf(st, le).Some? then
        var op := OpOf(st, le).value;
        && st'.acts == st.acts + [Act(Caller(le), op, CacheDo(st.shards, h, cfg, op).1)]
        && st'.shards == CacheDo(st.shards, h, cfg, op).0 && st'.clocks == ClocksAfter(st.clocks, h, op)
      else st'.acts == st.acts && st'.shards == st.shards && st'.clocks == st.clocks
  {
    hide NextPhase, NewLines, NewlyAccepted, EffectOf, OpOf;
  }

  /** From any moment of a run on, each shard replays the history since then. */
  lemma {:induction false} ShardSegment(clocks: Clocks, h: Hash, cfg: Config, les: seq<LocalEvent>, m: nat, i: nat)
    requires m <= |les| && i < NUM_SHARDS
    ensures var st0, st := LocalRun(clocks, h, cfg, les[..m]), LocalRun(clocks, h, cfg, les);
      st0.acts <= st.acts
      && Replays(st.acts[|st0.acts|..], h, cfg, i, st0.shards[i], st0.clocks[i], st.shards[i], st.clocks[i])
  {
    if m == |les| {
      assert les[..m] == les;
    } else {
      var k := |les| - 1;
      var st0, st1, st := LocalRun(clocks, h, cfg, les[..m]), LocalRun(clocks, h, cfg, les[..k]), LocalRun(clocks, h, cfg, les);
      assert les[..k][..m] == les[..m];
      ShardSegment(clocks, h, cfg, les[..k], m, i);
      StepActs(st1, h, cfg, les[k]);
      hide Replays, Do, OpTimed, After, LocalStep, Enabled, OpOf, Perform;
      SegmentStep(st0, st1, st, h, cfg, les[k], i);
    }
  }

  lemma SegmentStep(st0: Local, st1: Local, st: Local, h: Hash, cfg: Config, le: LocalEvent, i: nat)
    requires i < NUM_SHARDS && st == LocalStep(st1, h, cfg, le) && st0.acts <= st1.acts
    requires Replays(st1.acts[|st0.acts|..], h, cfg, i, st0.shards[i], st0.clocks[i], st1.shards[i], st1.clocks[i])
    ensures st0.acts <= st.acts
    ensures Replays(st.acts[|st0.acts|..], h, cfg, i, st0.shards[i], st0.clocks[i], st.shards[i], st.clocks[i])
  {
    StepActs(st1, h, cfg, le);
    if st.acts != st1.acts {
      assert Enabled(st1, h, le) && OpOf(st1, le).Some?;
      var op := OpOf(st1, le).value;
      var a := Act(Caller(le), op, CacheDo(st1.shards, h, cfg, op).1);
      assert OpTimed(Inner(op), st1.clocks[Target(h, op)]);
      hide Replays, Do, OpTimed, After, LocalStep, Enabled, OpOf, Perform;
      assert st.acts[|st0.acts|..] == st1.acts[|st0.acts|..] + [a];
      ReplaysOn(st1.acts[|st0.acts|..], a, h, cfg, i, st0.shards[i], st0.clocks[i], st1.shards[i], st1.clocks[i]);
    }
  }

  /** The event that performed the `n`-th operation. */
  lemma {:induction false} PerformedBy(clocks: Clocks, h: Hash, cfg: Config, les: seq<LocalEvent>, n: nat) returns (m: nat)
    requires n < |LocalRun(clocks, h, cfg, les).acts|
    ensures m < |les|
    ensures |LocalRun(clocks, h, cfg, les[..m]).acts| == n && |LocalRun(clocks, h, cfg, les[..m + 1]).acts| == n + 1
  {
    var k := |les| - 1;
    var before := LocalRun(clocks, h, cfg, les[..k]);
    StepActs(before, h, cfg, les[k]);
    if n < |before.acts| {
      m := PerformedBy(clocks, h, cfg, les[..k], n);
      assert les[..k][..m] == les[..m] && les[..k][..m + 1] == les[..m + 1];
    } else {
      m := k;
      assert les[..k + 1] == les;
    }
  }

  // ---------- follow-ups ----------

  /** The operation names `k`. */
  predicate NamesToken(a: Act, k: Token) {
    Names(Inner(a.op), k)
  }

  /** The operation put `k`, or found it by a lookup, and left it with entry `e` and a deadline that runs
      from time `t`. */
  predicate TouchedAt(a: Act, k: Token, e: Entry, t: int) {
    a.op == KeyOp(PutOp(k, e, t))
    || (NamesToken(a, k) && Inner(a.op).GetOp? && Inner(a.op).refresh == t && a.reply == Some(e))
  }

  /** Nothing after operation `n` names `k`. */
  ghost predicate LastOn(acts: seq<Act>, n: nat, k: Token) {
    forall j :: n < j < |acts| ==> !NamesToken(acts[j], k)
  }

  lemma {:induction false} ShardOpsFrom(acts: seq<Act>, h: Hash, i: nat, k: Token)
    requires forall j :: 0 <= j < |acts| ==> !NamesToken(acts[j], k)
    ensures forall op :: op in ShardOps(acts, h, i) ==> !Names(op, k)
    decreases |acts|
  {
    if acts != [] {
      ShardOpsFrom(acts[1..], h, i, k);
    }
  }

  /** A touched token stands in front of its shard. */
  lemma InFront(s: seq<Slot>, cfg: Config, op: Op, k: Token, e: Entry, t: int)
    requires op == PutOp(k, e, t) || (op.GetOp? && op.key == k && op.refresh == t && Do(s, cfg, op).1 == Some(e))
    ensures var s' := Do(s, cfg, op).0;
      s' != [] && s'[0] == Slot(k, e, t + cfg.ttl)
  {
    FindMember(s, k);
  }

  /** An operation on a token goes to the shard of the token. */
  lemma GoesHome(h: Hash, op: ProperOp, k: Token)
    requires Names(Inner(op), k)
    ensures Target(h, op) == ShardOf(h, k)
  {
  }

  lemma JustAfterTouch(clocks: Clocks, h: Hash, cfg: Config, les: seq<LocalEvent>, m: nat, k: Token, e: Entry, t: int)
    requires m < |les|
    requires var st0, st1 := LocalRun(clocks, h, cfg, les[..m]), LocalRun(clocks, h, cfg, les[..m + 1]);
      |st1.acts| == |st0.acts| + 1 && TouchedAt(st1.acts[|st0.acts|], k, e, t)
    ensures var s := LocalRun(clocks, h, cfg, les[..m + 1]).shards[ShardOf(h, k)];
      s != [] && s[0] == Slot(k, e, t + cfg.ttl)
  {
    var st0, st1 := LocalRun(clocks, h, cfg, les[..m]), LocalRun(clocks, h, cfg, les[..m + 1]);
    assert les[..m + 1][..m] == les[..m];
    assert st1 == LocalStep(st0, h, cfg, les[m]);
    StepActs(st0, h, cfg, les[m]);
    hide LocalStep, Enabled, OpOf;
    var a := st1.acts[|st0.acts|];
    var i := Target(h, a.op);
    GoesHome(h, a.op, k);
    InFront(st0.shards[i], cfg, Inner(a.op), k, e, t);
  }

  /** What a lookup finds of a token whose last naming operation was a touch. */
  lemma FoundAfterTouch(clocks: Clocks, h: Hash, cfg: Config, les: seq<LocalEvent>, n: nat, k: Token, e: Entry, t: int,
                        check: int, refresh: int)
    requires var st := LocalRun(clocks, h, cfg, les);
      && n < |st.acts| && TouchedAt(st.acts[n], k, e, t) && LastOn(st.acts, n, k)
      && st.clocks[ShardOf(h, k)] <= check <= refresh
    ensures var st, i := LocalRun(clocks, h, cfg, les), ShardOf(h, k);
      Do(st.shards[i], cfg, GetOp(k, check, refresh)).1
        == if check <= t + cfg.ttl && (cfg.cap <= 0 || Crowd({}, st.acts[n + 1..], h, i) < cfg.cap) then Some(e) else None
  {
    hide LocalStep, Do;
    var st, i := LocalRun(clocks, h, cfg, les), ShardOf(h, k);
    var m := PerformedBy(clocks, h, cfg, les, n);
    var st1 := LocalRun(clocks, h, cfg, les[..m + 1]);
    ShardSegment(clocks, h, cfg, les, m + 1, i);
    assert les[..m + 1][..m] == les[..m];
    ShardSegment(clocks, h, cfg, les[..m + 1], m, i);
    JustAfterTouch(clocks, h, cfg, les, m, k, e, t);
    var acts := st.acts[n + 1..];
    ReplayedRun(acts, h, cfg, i, st1.shards[i], st1.clocks[i], st.shards[i], st.clocks[i], {});
    ShardOpsFrom(acts, h, i, k);
    StaysSound(clocks, h, cfg, les[..m + 1]);
    hide LocalRun, Replays, Crowd, Pressure;
    LookupAfterTouch(st1.shards[i], cfg, st1.clocks[i], ShardOps(acts, h, i), check, refresh);
  }

  /** After operation `n0` nothing but lookups names `k`. */
  ghost predicate OnlyLookedUpSince(acts: seq<Act>, n0: nat, k: Token) {
    forall j :: n0 < j < |acts| && NamesToken(acts[j], k) ==> Inner(acts[j].op).GetOp?
  }

  /** The slot of `k`, if there is one, has entry `e`. */
  predicate HasEntry(s: seq<Slot>, k: Token, e: Entry) {
    Find(s, k).Some? ==> Find(s, k).value.entry == e
  }

  /** An operation that names `k` only to look it up keeps its entry, and finds that entry or nothing. */
  lemma StepEntry(s: seq<Slot>, cfg: Config, clock: int, op: Op, k: Token, e: Entry)
    requires Inv(s, cfg, clock) && OpTimed(op, clock) && HasEntry(s, k, e) && (Names(op, k) ==> op.GetOp?)
    ensures HasEntry(Do(s, cfg, op).0, k, e)
    ensures Names(op, k) ==> Do(s, cfg, op).1 in {None, Some(e)}
  {
    FindAfter(s, cfg, clock, op, k);
  }

  lemma {:induction false} ReplaysEntry(acts: seq<Act>, h: Hash, cfg: Config, s: seq<Slot>, clock: int,
                                        s': seq<Slot>, clock': int, k: Token, e: Entry, j: nat)
    requires Replays(acts, h, cfg, ShardOf(h, k), s, clock, s', clock') && Inv(s, cfg, clock) && HasEntry(s, k, e)
    requires forall x :: 0 <= x < |acts| && NamesToken(acts[x], k) ==> Inner(acts[x].op).GetOp?
    requires j < |acts| && NamesToken(acts[j], k)
    ensures acts[j].reply in {None, Some(e)}
    decreases |acts|
  {
    hide Inv, HasEntry, Do, OpTimed;
    var i, op := ShardOf(h, k), Inner(acts[0].op);
    assert NamesToken(acts[0], k) ==> op.GetOp?;
    if Target(h, acts[0].op) == i {
      StepEntry(s, cfg, clock, op, k, e);
      DoKeepsInv(s, cfg, clock, op);
      if j > 0 {
        ReplaysEntry(acts[1..], h, cfg, Do(s, cfg, op).0, After(op, clock), s', clock', k, e, j - 1);
      }
    } else {
      assert !NamesToken(acts[0], k);
      ReplaysEntry(acts[1..], h, cfg, s, clock, s', clock', k, e, j - 1);
    }
  }

  /** Once put, a token that has only been looked up since is found with the entry of that put. */
  lemma HitsAfterPut(clocks: Clocks, h: Hash, cfg: Config, les: seq<LocalEvent>, n0: nat, k: Token, e: Entry, t0: int, n: nat)
    requires var acts := LocalRun(clocks, h, cfg, les).acts;
      && n0 < n < |acts| && TouchedAt(acts[n0], k, e, t0) && OnlyLookedUpSince(acts, n0, k) && NamesToken(acts[n], k)
    ensures LocalRun(clocks, h, cfg, les).acts[n].reply in {None, Some(e)}
  {
    hide LocalStep, Do;
    var st, i := LocalRun(clocks, h, cfg, les), ShardOf(h, k);
    var m := PerformedBy(clocks, h, cfg, les, n0);
    var st1 := LocalRun(clocks, h, cfg, les[..m + 1]);
    ShardSegment(clocks, h, cfg, les, m + 1, i);
    assert les[..m + 1][..m] == les[..m];
    ShardSegment(clocks, h, cfg, les[..m + 1], m, i);
    JustAfterTouch(clocks, h, cfg, les, m, k, e, t0);
    StaysSound(clocks, h, cfg, les[..m + 1]);
    var acts := st.acts[n0 + 1..];
    hide LocalRun, Replays;
    assert forall x :: 0 <= x < |acts| ==> acts[x] == st.acts[n0 + 1 + x];
    ReplaysEntry(acts, h, cfg, st1.shards[i], st1.clocks[i], st.shards[i], st.clocks[i], k, e, n - n0 - 1);
  }

  /** What is absent at some moment stays absent while no operation names it. */
  lemma AbsentSince(clocks: Clocks, h: Hash, cfg: Config, les: seq<LocalEvent>, m: nat, k: Token)
    requires m <= |les| && Find(LocalRun(clocks, h, cfg, les[..m]).shards[ShardOf(h, k)], k).None?
    requires var acts := LocalRun(clocks, h, cfg, les).acts;
      forall j :: |LocalRun(clocks, h, cfg, les[..m]).acts| <= j < |acts| ==> !NamesToken(acts[j], k)
    ensures Find(LocalRun(clocks, h, cfg, les).shards[ShardOf(h, k)], k).None?
  {
    var st, st1, i := LocalRun(clocks, h, cfg, les), LocalRun(clocks, h, cfg, les[..m]), ShardOf(h, k);
    ShardSegment(clocks, h, cfg, les, m, i);
    StaysSound(clocks, h, cfg, les[..m]);
    hide LocalRun, LocalStep, Do, Replays;
    var acts := st.acts[|st1.acts|..];
    ReplayedRun(acts, h, cfg, i, st1.shards[i], st1.clocks[i], st.shards[i], st.clocks[i], {});
    ShardOpsFrom(acts, h, i, k);
    AbsentStays(st1.shards[i], cfg, st1.clocks[i], k, ShardOps(acts, h, i));
  }

  /** A token that no operation of the run has named, or whose last naming operation was a delete or a
      lookup that missed, is not found. */
  lemma NotFoundOtherwise(clocks: Clocks, h: Hash, cfg: Config, les: seq<LocalEvent>, k: Token)
    requires var acts := LocalRun(clocks, h, cfg, les).acts;
      (forall j :: 0 <= j < |acts| ==> !NamesToken(acts[j], k))
      || exists n :: 0 <= n < |acts| && Releases(acts[n], k) && LastOn(acts, n, k)
    ensures Find(LocalRun(clocks, h, cfg, les).shards[ShardOf(h, k)], k).None?
  {
    var acts := LocalRun(clocks, h, cfg, les).acts;
    if forall j :: 0 <= j < |acts| ==> !NamesToken(acts[j], k) {
      assert les[..0] == [];
      AbsentSince(clocks, h, cfg, les, 0, k);
    } else {
      var n :| 0 <= n < |acts| && Releases(acts[n], k) && LastOn(acts, n, k);
      hide LocalRun, LocalStep, Releases, NamesToken;
      var m := PerformedBy(clocks, h, cfg, les, n);
      ShardSegment(clocks, h, cfg, les, m + 1, 0);
      assert LocalRun(clocks, h, cfg, les[..m + 1]).acts[n] == acts[n];
      JustAfterRelease(clocks, h, cfg, les, m, k);
      AbsentSince(clocks, h, cfg, les, m + 1, k);
    }
  }

  /** The operation deleted `k` or looked it up in vain. */
  predicate Releases(a: Act, k: Token) {
    NamesToken(a, k) && (Inner(a.op).DeleteOp? || (Inner(a.op).GetOp? && a.reply.None?))
  }

  lemma JustAfterRelease(clocks: Clocks, h: Hash, cfg: Config, les: seq<LocalEvent>, m: nat, k: Token)
    requires m < |les|
    requires var st0, st1 := LocalRun(clocks, h, cfg, les[..m]), LocalRun(clocks, h, cfg, les[..m + 1]);
      |st1.acts| == |st0.acts| + 1 && Releases(st1.acts[|st0.acts|], k)
    ensures Find(LocalRun(clocks, h, cfg, les[..m + 1]).shards[ShardOf(h, k)], k).None?
  {
    var st0, st1 := LocalRun(clocks, h, cfg, les[..m]), LocalRun(clocks, h, cfg, les[..m + 1]);
    assert les[..m + 1][..m] == les[..m];
    assert st1 == LocalStep(st0, h, cfg, les[m]);
    StepActs(st0, h, cfg, les[m]);
    StaysSound(clocks, h, cfg, les[..m]);
    hide LocalStep, Enabled, OpOf;
    var a := st1.acts[|st0.acts|];
    GoesHome(h, a.op, k);
    var s := st0.shards[ShardOf(h, k)];
    Released(s, cfg, Inner(a.op), k);
  }

  lemma Released(s: seq<Slot>, cfg: Config, op: Op, k: Token)
    requires Names(op, k) && (op.DeleteOp? || (op.GetOp? && Do(s, cfg, op).1.None?))
    ensures Find(Do(s, cfg, op).0, k).None?
  {
    FindMember(s, k);
    WithoutMember(s, k);
    FindMember(Without(s, k), k);
  }
}

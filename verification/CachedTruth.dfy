/** The proxy with its cache in front of an upstream server that keeps the real tasks. */
module CachedTruth {
  import opened Tokens
  import opened Lru
  import opened Sharding
  import opened Scope
  import opened Proxy
  import opened CachedProxy
  import opened GroundTruth

  datatype Scene = Scene(local: Local, up: Upstream)

  /** A client starts a root, or an event of the system; `issued` are the works of the tokens answered. */
  datatype Turn = NewRoot(kind: Kind, place: Entry) | Move(le: LocalEvent, issued: seq<nat>)

  /** Upstream accepts the request at this event. */
  predicate Serves(st: Local, le: LocalEvent) {
    le.Plain? && le.e.Reply? && !le.e.answer.Refused? && le.e.c in st.calls && st.calls[le.e.c].phase.Authorized?
  }

  function SceneStep(sc: Scene, h: Hash, cfg: Config, t: Turn): Scene {
    match t
    case NewRoot(kind, place) => sc.(up := sc.up.(works := sc.up.works + [Work(kind, place, |sc.up.works|)]))
    case Move(le, issued) =>
      Scene(LocalStep(sc.local, h, cfg, le),
            if Serves(sc.local, le) then Serve(sc.up, sc.local.calls[le.e.c].req, le.e.answer, issued) else sc.up)
  }

  function SceneRun(clocks: Clocks, h: Hash, cfg: Config, ts: seq<Turn>): Scene {
    if ts == [] then Scene(LocalStart(clocks), Upstream([], map[]))
    else SceneStep(SceneRun(clocks, h, cfg, ts[..|ts| - 1]), h, cfg, ts[|ts| - 1])
  }

  /** Calls bring the request type of their RPC, and upstream answers honestly. */
  ghost predicate HonestTurn(sc: Scene, t: Turn) {
    t.Move? ==>
      && (t.le.Plain? && t.le.e.Begin? ==> RequestOf(t.le.e.rpc, t.le.e.req))
      && (Serves(sc.local, t.le) ==> Honest(sc.up, sc.local.calls[t.le.e.c], t.le.e.answer, t.issued))
  }

  ghost predicate HonestTurns(clocks: Clocks, h: Hash, cfg: Config, ts: seq<Turn>) {
    ts == [] ||
    (&& HonestTurns(clocks, h, cfg, ts[..|ts| - 1])
     && HonestTurn(SceneRun(clocks, h, cfg, ts[..|ts| - 1]), ts[|ts| - 1]))
  }

  // ---------- the same with the proxy over a lossy map ----------

  ghost predicate Matches(sc: Scene, w: World, h: Hash) {
    Same(sc.local, w.proxy, h) && sc.up == w.up
  }

  function Lift(events: seq<Event>, issued: seq<nat>): seq<Happening> {
    if events == [] then [] else [Proxied(events[0], issued)] + Lift(events[1..], issued)
  }

  ghost function Told(sc: Scene, h: Hash, cfg: Config, t: Turn): seq<Happening> {
    match t
    case NewRoot(kind, place) => [StartRoot(kind, place)]
    case Move(le, issued) => Lift(Seen(sc.local, h, cfg, le), issued)
  }

  ghost function Tale(clocks: Clocks, h: Hash, cfg: Config, ts: seq<Turn>): seq<Happening> {
    if ts == [] then []
    else Tale(clocks, h, cfg, ts[..|ts| - 1]) + Told(SceneRun(clocks, h, cfg, ts[..|ts| - 1]), h, cfg, ts[|ts| - 1])
  }

  lemma {:induction false} WorldRunOn(w: World, a: seq<Happening>, b: seq<Happening>)
    ensures WorldRun(w, a + b) == WorldRun(WorldRun(w, a), b)
    ensures HonestRun(w, a + b) <==> HonestRun(w, a) && HonestRun(WorldRun(w, a), b)
    decreases |a|
  {
    hide WorldStep, HonestStep;
    if a == [] {
      assert a + b == b;
    } else {
      assert (a + b)[1..] == a[1..] + b;
      WorldRunOn(WorldStep(w, a[0]), a[1..], b);
    }
  }

  lemma {:induction false} LiftOn(a: seq<Event>, b: seq<Event>, issued: seq<nat>)
    ensures Lift(a + b, issued) == Lift(a, issued) + Lift(b, issued)
    decreases |a|
  {
    if a == [] {
      assert a + b == b;
    } else {
      assert (a + b)[1..] == a[1..] + b;
      LiftOn(a[1..], b, issued);
    }
  }

  /** Losses concern the proxy alone. */
  lemma {:induction false} OnlyLosses(w: World, losses: seq<Event>, issued: seq<nat>)
    requires forall e :: e in losses ==> e.Lose?
    ensures WorldRun(w, Lift(losses, issued)) == World(Proxy.Run(w.proxy, losses), w.up)
    ensures HonestRun(w, Lift(losses, issued))
    decreases |losses|
  {
    if losses != [] {
      var e := losses[0];
      assert e in losses && forall x :: x in losses[1..] ==> x in losses;
      assert Lift(losses, issued)[1..] == Lift(losses[1..], issued);
      assert WorldStep(w, Proxied(e, issued)) == World(Proxy.Step(w.proxy, e), w.up);
      OnlyLosses(World(Proxy.Step(w.proxy, e), w.up), losses[1..], issued);
    }
  }

  lemma OneEvent(w: World, e: Event, issued: seq<nat>)
    ensures WorldRun(w, Lift([e], issued)) == WorldStep(w, Proxied(e, issued))
    ensures HonestRun(w, Lift([e], issued)) <==> HonestStep(w, Proxied(e, issued))
  {
    hide WorldStep, HonestStep;
    assert [e][1..] == [] && Lift([e], issued) == [Proxied(e, issued)];
    assert [Proxied(e, issued)][1..] == [];
    assert WorldRun(WorldStep(w, Proxied(e, issued)), []) == WorldStep(w, Proxied(e, issued));
  }

  /** The event of a call, once the losses have gone by. */
  lemma CallMatches(sc: Scene, w: World, h: Hash, le: LocalEvent, issued: seq<nat>)
    requires Enabled(sc.local, h, le) && !le.SweepAt? && sc.local.calls == w.proxy.calls && sc.up == w.up
    ensures var e := ProxyEvent(le);
      && WorldStep(w, Proxied(e, issued)).proxy == Proxy.Step(w.proxy, e)
      && WorldStep(w, Proxied(e, issued)).up
         == (if Serves(sc.local, le) then Serve(sc.up, sc.local.calls[le.e.c].req, le.e.answer, issued) else sc.up)
      && (HonestTurn(sc, Move(le, issued)) ==> HonestStep(w, Proxied(e, issued)))
  {
    hide Honest, Serve, RequestOf, Proxy.Step, OpOf;
  }

  lemma SilentMatches(sc: Scene, h: Hash, cfg: Config, le: LocalEvent)
    requires !Enabled(sc.local, h, le) || le.SweepAt?
    ensures !Serves(sc.local, le)
  {
  }

  lemma MoveMatches(sc: Scene, w: World, h: Hash, cfg: Config, le: LocalEvent, issued: seq<nat>)
    requires LocalInv(sc.local, h, cfg) && Matches(sc, w, h) && HonestTurn(sc, Move(le, issued))
    ensures var hs := Told(sc, h, cfg, Move(le, issued));
      HonestRun(w, hs) && Matches(SceneStep(sc, h, cfg, Move(le, issued)), WorldRun(w, hs), h)
  {
    hide LocalInv, Honest, HonestTurn, HonestStep, WorldStep, LocalStep, Serves, Drops, LoseAll;
    StepRefines(sc.local, w.proxy, h, cfg, le);
    if !Enabled(sc.local, h, le) {
      SilentMatches(sc, h, cfg, le);
    } else {
      var losses := LoseAll(Drops(sc.local, h, cfg, le));
      LosesOnly(Drops(sc.local, h, cfg, le));
      LosingAll(w.proxy, Drops(sc.local, h, cfg, le));
      OnlyLosses(w, losses, issued);
      if le.SweepAt? {
        SilentMatches(sc, h, cfg, le);
        assert losses + [] == losses;
      } else {
        var w1 := World(Proxy.Run(w.proxy, losses), w.up);
        var e := ProxyEvent(le);
        LiftOn(losses, [e], issued);
        WorldRunOn(w, Lift(losses, issued), Lift([e], issued));
        OneEvent(w1, e, issued);
        CallMatches(sc, w1, h, le, issued);
        Proxy.RunAppend(w.proxy, losses, [e]);
        assert Proxy.Run(w1.proxy, [e]) == Proxy.Step(w1.proxy, e);
      }
    }
  }

  lemma TurnMatches(sc: Scene, w: World, h: Hash, cfg: Config, t: Turn)
    requires LocalInv(sc.local, h, cfg) && Matches(sc, w, h) && HonestTurn(sc, t)
    ensures HonestRun(w, Told(sc, h, cfg, t)) && Matches(SceneStep(sc, h, cfg, t), WorldRun(w, Told(sc, h, cfg, t)), h)
  {
    match t
    case NewRoot(kind, place) =>
      var happening := StartRoot(kind, place);
      assert [happening][1..] == [];
      assert WorldRun(WorldStep(w, happening), []) == WorldStep(w, happening);
    case Move(le, issued) => MoveMatches(sc, w, h, cfg, le, issued);
  }

  lemma {:induction false} SceneSound(clocks: Clocks, h: Hash, cfg: Config, ts: seq<Turn>)
    ensures LocalInv(SceneRun(clocks, h, cfg, ts).local, h, cfg)
  {
    if ts == [] {
      StaysSound(clocks, h, cfg, []);
    } else {
      hide LocalInv, LocalStep;
      var sc, t := SceneRun(clocks, h, cfg, ts[..|ts| - 1]), ts[|ts| - 1];
      SceneSound(clocks, h, cfg, ts[..|ts| - 1]);
      if t.Move? {
        StepKeepsInv(sc.local, h, cfg, t.le);
      }
    }
  }

  /** Against an honest upstream the proxy over its cache does as it does, against an honest upstream,
      over a map that loses bindings. */
  lemma {:induction false} SceneIsAWorld(clocks: Clocks, h: Hash, cfg: Config, ts: seq<Turn>)
    requires HonestTurns(clocks, h, cfg, ts)
    ensures HonestRun(NOTHING, Tale(clocks, h, cfg, ts))
    ensures Matches(SceneRun(clocks, h, cfg, ts), WorldRun(NOTHING, Tale(clocks, h, cfg, ts)), h)
  {
    if ts == [] {
      StartsAlike(clocks, h);
    } else {
      hide SceneStep, WorldStep, HonestStep, HonestTurn, Matches, Told;
      var before, t := ts[..|ts| - 1], ts[|ts| - 1];
      var sc, tale := SceneRun(clocks, h, cfg, before), Tale(clocks, h, cfg, before);
      SceneIsAWorld(clocks, h, cfg, before);
      SceneSound(clocks, h, cfg, before);
      TurnMatches(sc, WorldRun(NOTHING, tale), h, cfg, t);
      WorldRunOn(NOTHING, tale, Told(sc, h, cfg, t));
    }
  }

  lemma StartsAlike(clocks: Clocks, h: Hash)
    ensures Same(LocalStart(clocks), INIT, h)
  {
  }

  // ---------- what holds of the cache ----------

  /** Over all runs against such an upstream every cached slot, live or not, names the namespace and queue
      of the real task of its token. */
  lemma SlotsTellTheTruth(clocks: Clocks, h: Hash, cfg: Config, ts: seq<Turn>, i: nat, x: Slot)
    requires HonestTurns(clocks, h, cfg, ts)
    requires i < NUM_SHARDS && x in SceneRun(clocks, h, cfg, ts).local.shards[i]
    ensures var up := SceneRun(clocks, h, cfg, ts).up;
      x.key in up.tasks && up.tasks[x.key] < |up.works| && up.works[up.tasks[x.key]].place == x.entry
  {
    var sc := SceneRun(clocks, h, cfg, ts);
    SceneIsAWorld(clocks, h, cfg, ts);
    SceneSound(clocks, h, cfg, ts);
    hide SceneRun, Tale, HonestTurns;
    assert ShardOf(h, x.key) == i;
    FindMember(sc.local.shards[i], x.key);
    StoreTellsTheTruth(Tale(clocks, h, cfg, ts), x.key);
  }

  /** Every work runs where the root runs that a client started and it comes from. */
  lemma WorkStaysPut(clocks: Clocks, h: Hash, cfg: Config, ts: seq<Turn>, i: nat)
    requires HonestTurns(clocks, h, cfg, ts) && i < |SceneRun(clocks, h, cfg, ts).up.works|
    ensures var works := SceneRun(clocks, h, cfg, ts).up.works;
      var r := works[i].root;
      r < |works| && works[r].root == r && works[i].place == works[r].place
  {
    SceneIsAWorld(clocks, h, cfg, ts);
    WorkStaysWithItsRoot(Tale(clocks, h, cfg, ts), i);
  }

  /** A worker is only ever handed tasks of its own namespace, from a queue it is authorized for. */
  lemma OwnTasksOnly(clocks: Clocks, h: Hash, cfg: Config, ts: seq<Turn>, c: CallId, t: Token)
    requires HonestTurns(clocks, h, cfg, ts)
    requires var st := SceneRun(clocks, h, cfg, ts).local;
      && c in st.calls && st.calls[c].phase.Done? && st.calls[c].phase.outcome.Delivered?
      && Hands(st.calls[c].phase.outcome.resp, t)
    ensures var sc := SceneRun(clocks, h, cfg, ts);
      && t in sc.up.tasks && sc.up.tasks[t] < |sc.up.works|
      && sc.up.works[sc.up.tasks[t]].place == Entry(c.who.namespace, sc.local.calls[c].phase.outcome.scope)
      && c.who.AllowsTaskQueue(sc.up.works[sc.up.tasks[t]].place.taskQueue)
  {
    SceneIsAWorld(clocks, h, cfg, ts);
    WorkersGetTheirOwnTasks(Tale(clocks, h, cfg, ts), c, t);
  }
}

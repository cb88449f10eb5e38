/** The proxy in front of an upstream server that keeps the real tasks. */
module GroundTruth {
  import opened Tokens
  import opened Scope
  import opened Proxy

  datatype Kind = WorkflowWork | ActivityWork | NexusWork

  /** A piece of work upstream, where it runs, and the root it was transitively created from. */
  datatype Work = Work(kind: Kind, place: Entry, root: nat)

  /** The works, and the work each issued task token stands for. */
  datatype Upstream = Upstream(works: seq<Work>, tasks: map<Token, nat>)

  datatype World = World(proxy: State, up: Upstream)

  /** Clients start roots anywhere without passing the proxy; everything else is an event of the proxy.
      `issued` are the works of the tokens in an upstream answer. */
  datatype Happening =
    | StartRoot(kind: Kind, place: Entry)
    | Proxied(e: Event, issued: seq<nat>)

  const NOTHING := World(INIT, Upstream([], map[]))

  // ---------- what upstream does with an accepted request ----------

  function KindOf(cmd: Command): Kind {
    if cmd.ScheduleActivityTask? then ActivityWork else WorkflowWork
  }

  /** The works the commands of a workflow create, in order. */
  function Created(commands: seq<Command>, parent: Work): seq<Work> {
    if commands == [] then [] else
    var to := Destination(commands[0], parent.place);
    (if to.Some? then [Work(KindOf(commands[0]), to.value, parent.root)] else []) + Created(commands[1..], parent)
  }

  /** Every command with a destination creates one work there, for the root of its workflow, and no other
      command creates any; the works come in the order of the commands. */
  lemma CreatedExactly(before: seq<Command>, cmd: Command, after: seq<Command>, parent: Work)
    ensures var to := Destination(cmd, parent.place);
      Created(before + [cmd] + after, parent)
        == Created(before, parent)
           + (if to.Some? then [Work(KindOf(cmd), to.value, parent.root)] else [])
           + Created(after, parent)
  {
    CreatedAppend(before, [cmd], parent);
    CreatedAppend(before + [cmd], after, parent);
    assert [cmd][1..] == [];
  }

  lemma {:induction false} CreatedAppend(a: seq<Command>, b: seq<Command>, parent: Work)
    ensures Created(a + b, parent) == Created(a, parent) + Created(b, parent)
  {
    if a == [] {
      assert a + b == b;
    } else {
      assert (a + b)[1..] == a[1..] + b;
      CreatedAppend(a[1..], b, parent);
    }
  }

  function NewWorks(up: Upstream, req: Request): seq<Work> {
    if req.RespondWorkflowTaskCompletedRequest? && req.token in up.tasks && up.tasks[req.token] < |up.works|
    then Created(req.commands, up.works[up.tasks[req.token]]) else []
  }

  function Issue(tasks: map<Token, nat>, tokens: seq<Token>, issued: seq<nat>): map<Token, nat>
    requires |tokens| == |issued|
  {
    if tokens == [] then tasks
    else Issue(tasks, tokens[..|tokens| - 1], issued[..|issued| - 1])[tokens[|tokens| - 1] := issued[|issued| - 1]]
  }

  /** The tokens of an answer that arrived. */
  function AnswerTokens(answer: Answer): seq<Token> {
    if answer.Replied? then ResponseTokens(answer.resp) else []
  }

  function Serve(up: Upstream, req: Request, answer: Answer, issued: seq<nat>): Upstream {
    Upstream(up.works + NewWorks(up, req),
             if |issued| == |AnswerTokens(answer)| then Issue(up.tasks, AnswerTokens(answer), issued) else up.tasks)
  }

  /** Upstream accepts the request, whether or not its answer arrives. */
  predicate IsServed(st: State, e: Event) {
    e.Reply? && !e.answer.Refused? && e.c in st.calls && st.calls[e.c].phase.Authorized?
  }

  function WorldStep(w: World, h: Happening): World {
    match h
    case StartRoot(kind, place) =>
      w.(up := w.up.(works := w.up.works + [Work(kind, place, |w.up.works|)]))
    case Proxied(e, issued) =>
      World(Step(w.proxy, e),
            if IsServed(w.proxy, e) then Serve(w.up, w.proxy.calls[e.c].req, e.answer, issued) else w.up)
  }

  function WorldRun(w: World, hs: seq<Happening>): World
    decreases |hs|
  {
    if hs == [] then w else WorldRun(WorldStep(w, hs[0]), hs[1..])
  }

  // ---------- what is assumed of it ----------

  /** The queue whose tasks upstream gives a poll: the one it names or, for a sticky queue, the normal
      queue it declares. Only there does upstream rely on what the poll declares. */
  predicate Polls(req: Request, place: Entry)
    requires IsPoll(req)
  {
    && place.namespace == req.namespace
    && (req.queue.kind.Sticky? ==> place.taskQueue == req.queue.normalName)
    && (!req.queue.kind.Sticky? ==> place.taskQueue == req.queue.name)
  }

  /** Upstream answers with the response type of the RPC, and a token never changes its work. A poll is
      given tasks of the polled queue only; the answer to a completed workflow task holds tasks of that
      workflow or of works its commands have just created. */
  ghost predicate Honest(up: Upstream, call: Call, answer: Answer, issued: seq<nat>) {
    var tokens := AnswerTokens(answer);
    var up' := Serve(up, call.req, answer, issued);
    && (answer.Replied? ==> ResponseOf(call.rpc, answer.resp)) && |issued| == |tokens|
    && (forall i :: 0 <= i < |issued| ==> issued[i] < |up'.works| && tokens[i] in up'.tasks && up'.tasks[tokens[i]] == issued[i])
    && (forall t :: t in up.tasks ==> t in up'.tasks && up'.tasks[t] == up.tasks[t])
    && (IsPoll(call.req) ==> forall i :: 0 <= i < |issued| ==> Polls(call.req, up'.works[issued[i]].place))
    && (call.req.RespondWorkflowTaskCompletedRequest? && call.req.token in up.tasks ==>
          forall i :: 0 <= i < |issued| ==> issued[i] == up.tasks[call.req.token] || |up.works| <= issued[i])
  }

  ghost predicate HonestStep(w: World, h: Happening) {
    h.Proxied? ==>
      && (h.e.Begin? ==> RequestOf(h.e.rpc, h.e.req))
      && (IsServed(w.proxy, h.e) ==> Honest(w.up, w.proxy.calls[h.e.c], h.e.answer, h.issued))
  }

  ghost predicate HonestRun(w: World, hs: seq<Happening>)
    decreases |hs|
  {
    hs == [] || (HonestStep(w, hs[0]) && HonestRun(WorldStep(w, hs[0]), hs[1..]))
  }

  // ---------- the invariant ----------

  /** The root of work `i` is a root itself, and work `i` runs where it runs. */
  predicate Rooted(works: seq<Work>, i: nat)
    requires i < |works|
  {
    var r := works[i].root;
    r < |works| && works[r].root == r && works[r].place == works[i].place
  }

  ghost predicate AtRoot(works: seq<Work>) {
    forall i :: 0 <= i < |works| ==> Rooted(works, i)
  }

  ghost predicate TaskAt(up: Upstream, t: Token, place: Entry) {
    t in up.tasks && up.tasks[t] < |up.works| && up.works[up.tasks[t]].place == place
  }

  /** Every token of the response stands for work in the scope, and the caller holds that queue. */
  ghost predicate AllAt(up: Upstream, resp: Response, c: CallId, scope: string) {
    forall t :: t in ResponseTokens(resp) ==>
      TaskAt(up, t, Entry(c.who.namespace, scope)) && c.who.AllowsTaskQueue(scope)
  }

  /** An authorized request aims at its scope: a poll asks for it, a token's task is there, and the
      commands of a completed workflow task stay there. */
  ghost predicate Aims(up: Upstream, c: CallId, call: Call, scope: string) {
    var here := Entry(c.who.namespace, scope);
    && (IsPoll(call.req) ==> forall place :: Polls(call.req, place) <==> place == here)
    && (CarriesToken(call.req) ==> TaskAt(up, call.req.token, here))
    && (IsPoll(call.req) || CarriesToken(call.req) ==> c.who.AllowsTaskQueue(scope))
    && (call.req.RespondWorkflowTaskCompletedRequest? ==> CommandsAllowed(call.req.commands, c.who.namespace, scope))
  }

  ghost predicate CallTrue(up: Upstream, c: CallId, call: Call) {
    && RequestOf(call.rpc, call.req)
    && (match call.phase
        case Authorized(scope) => Aims(up, c, call, scope)
        case Answered(scope, resp) => AllAt(up, resp, c, scope)
        case Registering(scope, resp, _, _) => AllAt(up, resp, c, scope)
        case Done(Delivered(scope, resp, _)) => AllAt(up, resp, c, scope)
        case _ => true)
  }

  ghost predicate StoreTrue(up: Upstream, store: map<Token, Entry>) {
    forall t :: t in store ==> TaskAt(up, t, Entry(store[t].namespace, store[t].taskQueue))
  }

  ghost predicate WorldInv(w: World) {
    && AtRoot(w.up.works)
    && StoreTrue(w.up, w.proxy.store)
    && (forall c :: c in w.proxy.calls ==> CallTrue(w.up, c, w.proxy.calls[c]))
  }

  // ---------- upstream only grows ----------

  ghost predicate Grows(up: Upstream, up': Upstream) {
    && up.works <= up'.works
    && (forall t :: t in up.tasks ==> t in up'.tasks && up'.tasks[t] == up.tasks[t])
  }

  lemma TaskStays(up: Upstream, up': Upstream, t: Token, place: Entry)
    requires Grows(up, up') && TaskAt(up, t, place)
    ensures TaskAt(up', t, place)
  {
  }

  lemma CallStaysTrue(up: Upstream, up': Upstream, c: CallId, call: Call)
    requires Grows(up, up') && CallTrue(up, c, call)
    ensures CallTrue(up', c, call)
  {
    forall t, place | TaskAt(up, t, place) ensures TaskAt(up', t, place) {
      TaskStays(up, up', t, place);
    }
  }

  lemma {:induction false} IssueMember(tasks: map<Token, nat>, tokens: seq<Token>, issued: seq<nat>)
    requires |tokens| == |issued|
    ensures forall t :: t in Issue(tasks, tokens, issued) <==> t in tasks || t in tokens
  {
    if tokens != [] {
      IssueMember(tasks, tokens[..|tokens| - 1], issued[..|issued| - 1]);
      assert tokens == tokens[..|tokens| - 1] + [tokens[|tokens| - 1]];
    }
  }

  lemma ServeGrows(up: Upstream, call: Call, answer: Answer, issued: seq<nat>)
    requires Honest(up, call, answer, issued)
    ensures Grows(up, Serve(up, call.req, answer, issued))
  {
    IssueMember(up.tasks, AnswerTokens(answer), issued);
  }

  /** Allowed commands create work in the place of the workflow, under its root. */
  lemma {:induction false} CreatedHere(commands: seq<Command>, parent: Work)
    requires CommandsAllowed(commands, parent.place.namespace, parent.place.taskQueue)
    ensures forall w :: w in Created(commands, parent) ==> w.place == parent.place && w.root == parent.root
  {
    if commands != [] {
      assert commands[0] in commands;
      assert forall cmd :: cmd in commands[1..] ==> cmd in commands;
      CreatedHere(commands[1..], parent);
    }
  }

  lemma NewWorksHere(up: Upstream, c: CallId, call: Call, scope: string)
    requires Aims(up, c, call, scope)
    ensures forall w :: w in NewWorks(up, call.req) ==>
              w.place == Entry(c.who.namespace, scope)
              && call.req.RespondWorkflowTaskCompletedRequest? && call.req.token in up.tasks
              && w.root == up.works[up.tasks[call.req.token]].root
  {
    if call.req.RespondWorkflowTaskCompletedRequest? {
      assert TaskAt(up, call.req.token, Entry(c.who.namespace, scope));
      CreatedHere(call.req.commands, up.works[up.tasks[call.req.token]]);
    }
  }

  /** Serving an authorized request leaves every work in the place of its root. */
  lemma ServeAtRoot(up: Upstream, c: CallId, call: Call, scope: string, answer: Answer, issued: seq<nat>)
    requires AtRoot(up.works) && Aims(up, c, call, scope)
    ensures AtRoot(Serve(up, call.req, answer, issued).works)
  {
    NewWorksHere(up, c, call, scope);
    var works, more := up.works, NewWorks(up, call.req);
    var all := works + more;
    forall i | 0 <= i < |all| ensures Rooted(all, i) {
      if i < |works| {
        assert Rooted(works, i);
      } else {
        assert all[i] in more;
        var parent := up.tasks[call.req.token];
        assert TaskAt(up, call.req.token, Entry(c.who.namespace, scope));
        assert Rooted(works, parent);
      }
    }
  }

  /** Every token of an honest answer to an authorized request stands for work in the call's scope. */
  lemma AnswerHere(up: Upstream, c: CallId, call: Call, scope: string, resp: Response, issued: seq<nat>)
    requires RequestOf(call.rpc, call.req) && Aims(up, c, call, scope) && Honest(up, call, Replied(resp), issued)
    ensures AllAt(Serve(up, call.req, Replied(resp), issued), resp, c, scope)
  {
    var up' := Serve(up, call.req, Replied(resp), issued);
    var here := Entry(c.who.namespace, scope);
    var tokens := ResponseTokens(resp);
    NewWorksHere(up, c, call, scope);
    IssueMember(up.tasks, tokens, issued);
    forall t | t in tokens ensures TaskAt(up', t, here) && c.who.AllowsTaskQueue(scope) {
      var i :| 0 <= i < |tokens| && tokens[i] == t;
      assert up'.tasks[t] == issued[i];
      if call.req.RespondWorkflowTaskCompletedRequest? {
        assert TaskAt(up, call.req.token, here);
        if |up.works| <= issued[i] {
          assert up'.works[issued[i]] in NewWorks(up, call.req);
        }
      } else {
        assert IsPoll(call.req);
      }
    }
  }

  // ---------- one step ----------

  /** Authorization against a store that tells the truth. */
  lemma CheckAims(up: Upstream, store: map<Token, Entry>, c: CallId, call: Call, fails: bool)
    requires StoreTrue(up, store) && RequestOf(call.rpc, call.req)
    requires CheckPhase(c, call, LookUp(store, Presents(c, call), fails)).Authorized?
    ensures Aims(up, c, call, CheckPhase(c, call, LookUp(store, Presents(c, call), fails)).scope)
  {
  }

  lemma EffectTrue(up: Upstream, e: Event, call: Call)
    requires !e.Begin? && !e.Lose? && CallTrue(up, e.c, call) && EffectOf(e, call).Some? && EffectOf(e, call).value.Bound?
    ensures var x := EffectOf(e, call).value;
      TaskAt(up, x.token, Entry(x.entry.namespace, x.entry.taskQueue))
  {
    var p := call.phase;
    assert ResponseTokens(p.resp)[p.put] in ResponseTokens(p.resp);
  }

  lemma PhaseTrue(up: Upstream, store: map<Token, Entry>, e: Event, call: Call)
    requires !e.Begin? && !e.Lose? && !(e.Reply? && !e.answer.Refused? && call.phase.Authorized?)
    requires StoreTrue(up, store) && CallTrue(up, e.c, call)
    ensures CallTrue(up, e.c, call.(phase := NextPhase(Found(store, e, call), e, call)))
  {
    if e.Check? && call.phase.Begun? && CheckPhase(e.c, call, Found(store, e, call)).Authorized? {
      CheckAims(up, store, e.c, call, e.fails);
    }
  }

  lemma UnservedStep(w: World, e: Event)
    requires WorldInv(w) && !IsServed(w.proxy, e) && (e.Begin? ==> RequestOf(e.rpc, e.req))
    ensures WorldInv(World(Step(w.proxy, e), w.up))
  {
    if !e.Begin? && !e.Lose? && e.c in w.proxy.calls {
      var call := w.proxy.calls[e.c];
      PhaseTrue(w.up, w.proxy.store, e, call);
      if EffectOf(e, call).Some? && EffectOf(e, call).value.Bound? {
        EffectTrue(w.up, e, call);
      }
      hide NextPhase, EffectOf, AtRoot, TaskAt, CallTrue;
    }
  }

  lemma ServedStep(w: World, e: Event, issued: seq<nat>)
    requires WorldInv(w) && IsServed(w.proxy, e) && Honest(w.up, w.proxy.calls[e.c], e.answer, issued)
    ensures WorldInv(WorldStep(w, Proxied(e, issued)))
  {
    var call := w.proxy.calls[e.c];
    var up' := Serve(w.up, call.req, e.answer, issued);
    var w' := WorldStep(w, Proxied(e, issued));
    ServeGrows(w.up, call, e.answer, issued);
    ServeAtRoot(w.up, e.c, call, call.phase.scope, e.answer, issued);
    if e.answer.Replied? {
      AnswerHere(w.up, e.c, call, call.phase.scope, e.answer.resp, issued);
    }
    hide Honest, Serve, AtRoot, Aims, Grows;
    forall t | t in w.proxy.store ensures TaskAt(up', t, Entry(w.proxy.store[t].namespace, w.proxy.store[t].taskQueue)) {
      TaskStays(w.up, up', t, Entry(w.proxy.store[t].namespace, w.proxy.store[t].taskQueue));
    }
    forall c | c in w'.proxy.calls ensures CallTrue(up', c, w'.proxy.calls[c]) {
      if c != e.c {
        CallStaysTrue(w.up, up', c, w.proxy.calls[c]);
      }
    }
  }

  lemma StepKeepsWorldInv(w: World, h: Happening)
    requires WorldInv(w) && HonestStep(w, h)
    ensures WorldInv(WorldStep(w, h))
  {
    match h
    case StartRoot(kind, place) =>
      var up' := WorldStep(w, h).up;
      assert Grows(w.up, up');
      forall i | 0 <= i < |w.up.works| ensures Rooted(up'.works, i) {
        assert Rooted(w.up.works, i);
      }
      forall c | c in w.proxy.calls ensures CallTrue(up', c, w.proxy.calls[c]) {
        CallStaysTrue(w.up, up', c, w.proxy.calls[c]);
      }
    case Proxied(e, issued) =>
      if IsServed(w.proxy, e) {
        ServedStep(w, e, issued);
      } else {
        UnservedStep(w, e);
      }
  }

  lemma {:induction false} RunKeepsWorldInv(w: World, hs: seq<Happening>)
    requires WorldInv(w) && HonestRun(w, hs)
    ensures WorldInv(WorldRun(w, hs))
    decreases |hs|
  {
    if hs != [] {
      StepKeepsWorldInv(w, hs[0]);
      RunKeepsWorldInv(WorldStep(w, hs[0]), hs[1..]);
    }
  }

  /** Over all runs against such an upstream, every stored token is bound to the namespace and queue of
      its real task. */
  lemma StoreTellsTheTruth(hs: seq<Happening>, t: Token)
    requires HonestRun(NOTHING, hs) && t in WorldRun(NOTHING, hs).proxy.store
    ensures var w := WorldRun(NOTHING, hs);
      && t in w.up.tasks && w.up.tasks[t] < |w.up.works|
      && w.up.works[w.up.tasks[t]].place == Entry(w.proxy.store[t].namespace, w.proxy.store[t].taskQueue)
  {
    RunKeepsWorldInv(NOTHING, hs);
  }

  /** And every activity, child workflow and continued run transitively created by commands that passed
      the proxy, from a root that a client started, runs in the namespace and queue of that root. */
  lemma WorkStaysWithItsRoot(hs: seq<Happening>, i: nat)
    requires HonestRun(NOTHING, hs) && i < |WorldRun(NOTHING, hs).up.works|
    ensures var works := WorldRun(NOTHING, hs).up.works;
      var r := works[i].root;
      r < |works| && works[r].root == r && works[i].place == works[r].place
  {
    RunKeepsWorldInv(NOTHING, hs);
    assert Rooted(WorldRun(NOTHING, hs).up.works, i);
  }

  /** A worker is only ever handed tasks of its own namespace, from a queue it is authorized for: the
      one its call was scoped to. */
  lemma WorkersGetTheirOwnTasks(hs: seq<Happening>, c: CallId, t: Token)
    requires HonestRun(NOTHING, hs)
    requires var w := WorldRun(NOTHING, hs);
      && c in w.proxy.calls && w.proxy.calls[c].phase.Done? && w.proxy.calls[c].phase.outcome.Delivered?
      && Hands(w.proxy.calls[c].phase.outcome.resp, t)
    ensures var w := WorldRun(NOTHING, hs);
      && t in w.up.tasks && w.up.tasks[t] < |w.up.works|
      && w.up.works[w.up.tasks[t]].place == Entry(c.who.namespace, w.proxy.calls[c].phase.outcome.scope)
      && c.who.AllowsTaskQueue(w.up.works[w.up.tasks[t]].place.taskQueue)
  {
    RunKeepsWorldInv(NOTHING, hs);
    var w := WorldRun(NOTHING, hs);
    CollectedIffHanded(w.proxy.calls[c].phase.outcome.resp, t);
    assert CallTrue(w.up, c, w.proxy.calls[c]);
  }
}

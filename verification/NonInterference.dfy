/** Two groups of identities that share no namespace and queue cannot affect each other. */
module NonInterference {
  import opened Tokens
  import opened RpcPolicy
  import opened Scope
  import opened Auth
  import opened Proxy

  predicate Share(a: Identity, b: Identity) {
    a.namespace == b.namespace && exists q :: q in a.taskQueues && q in b.taskQueues
  }

  ghost predicate Apart(us: set<Identity>, them: set<Identity>) {
    forall a, b :: a in us && b in them ==> !Share(a, b)
  }

  /** Every call of the run is one of ours or one of theirs. */
  ghost predicate OfEither(e: Event, us: set<Identity>, them: set<Identity>) {
    e.Lose? || e.c.who in us || e.c.who in them
  }

  /** Upstream hands tokens of `ours` to us, and no such token to them. */
  ghost predicate HandsOut(e: Event, us: set<Identity>, ours: set<Token>) {
    e.Reply? && e.answer.Replied? ==>
      forall t :: t in ResponseTokens(e.answer.resp) ==> (t in ours <==> e.c.who in us)
  }

  ghost predicate Fair(events: seq<Event>, us: set<Identity>, them: set<Identity>, ours: set<Token>) {
    Apart(us, them) && us !! them && forall e :: e in events ==> OfEither(e, us, them) && HandsOut(e, us, ours)
  }

  /** The run without their calls; what the store loses by itself stays. */
  function Erase(events: seq<Event>, us: set<Identity>): seq<Event> {
    if events == [] then [] else
    var rest := Erase(events[1..], us);
    if events[0].Lose? || events[0].c.who in us then [events[0]] + rest else rest
  }

  // ---------- what separates the two groups in every state ----------

  predicate HoldsScope(c: CallId, scope: string) {
    scope == "" || c.who.AllowsTaskQueue(scope)
  }

  ghost predicate TokensOf(c: CallId, resp: Response, us: set<Identity>, ours: set<Token>) {
    forall t :: t in ResponseTokens(resp) ==> (t in ours <==> c.who in us)
  }

  /** A token a call was authorized by belongs to its own group. */
  ghost predicate TokenOf(c: CallId, call: Call, us: set<Identity>, ours: set<Token>) {
    IsTerminal(call) ==> (RequestTaskToken(call.req).value in ours <==> c.who in us)
  }

  ghost predicate Belongs(c: CallId, call: Call, us: set<Identity>, ours: set<Token>) {
    match call.phase
    case Begun => true
    case Authorized(scope) => HoldsScope(c, scope) && TokenOf(c, call, us, ours)
    case Answered(scope, resp) => HoldsScope(c, scope) && TokenOf(c, call, us, ours) && TokensOf(c, resp, us, ours)
    case Registering(scope, resp, _, _) => HoldsScope(c, scope) && TokensOf(c, resp, us, ours)
    case Done(_) => true
  }

  ghost predicate OwnedBy(entry: Entry, group: set<Identity>) {
    exists id :: id in group && id.Owns(entry)
  }

  ghost predicate Separated(st: State, us: set<Identity>, them: set<Identity>, ours: set<Token>) {
    && (forall c :: c in st.calls ==> (c.who in us || c.who in them) && Belongs(c, st.calls[c], us, ours))
    && (forall t :: t in st.store ==> OwnedBy(st.store[t], if t in ours then us else them))
  }

  lemma OwnersShare(a: Identity, b: Identity, entry: Entry)
    requires a.Owns(entry) && b.Owns(entry)
    ensures Share(a, b)
  {
  }

  /** A call finds itself authorized only by tokens of its own group. */
  lemma AuthorizedWithin(st: State, c: CallId, us: set<Identity>, them: set<Identity>, ours: set<Token>, t: Token)
    requires Apart(us, them) && us !! them && Separated(st, us, them, ours) && (c.who in us || c.who in them)
    requires t in st.store && c.who.Owns(st.store[t])
    ensures t in ours <==> c.who in us
  {
    var owner :| owner in (if t in ours then us else them) && owner.Owns(st.store[t]);
    OwnersShare(c.who, owner, st.store[t]);
    OwnersShare(owner, c.who, st.store[t]);
  }

  lemma TerminalPresents(c: CallId, call: Call, found: LookupResult)
    requires IsTerminal(call) && Authorize(call.rpc, Allowed(call.rpc).value, call.req, c.who, found).Allow?
    ensures Presents(c, call) == RequestTaskToken(call.req) && found.Hit? && c.who.Owns(found.entry)
  {
  }

  lemma CheckBelongs(st: State, c: CallId, fails: bool, us: set<Identity>, them: set<Identity>, ours: set<Token>)
    requires Apart(us, them) && us !! them && Separated(st, us, them, ours) && c in st.calls
    ensures Belongs(c, Step(st, Check(c, fails)).calls[c], us, ours)
  {
    var call := st.calls[c];
    var found := LookUp(st.store, Presents(c, call), fails);
    if call.phase.Begun? && CheckPhase(c, call, found).Authorized? {
      if IsTerminal(call) {
        TerminalPresents(c, call, found);
        AuthorizedWithin(st, c, us, them, ours, RequestTaskToken(call.req).value);
      }
    }
  }

  lemma StepBelongs(st: State, e: Event, us: set<Identity>, them: set<Identity>, ours: set<Token>, c: CallId)
    requires Apart(us, them) && us !! them && Separated(st, us, them, ours)
    requires OfEither(e, us, them) && HandsOut(e, us, ours) && c in Step(st, e).calls
    ensures (c.who in us || c.who in them) && Belongs(c, Step(st, e).calls[c], us, ours)
  {
    if c in st.calls {
      assert Belongs(c, st.calls[c], us, ours);
    }
    if e.Check? && e.c == c {
      CheckBelongs(st, c, e.fails, us, them, ours);
    }
  }

  lemma StepOwned(st: State, e: Event, us: set<Identity>, them: set<Identity>, ours: set<Token>, t: Token)
    requires us !! them && Separated(st, us, them, ours) && OfEither(e, us, them) && t in Step(st, e).store
    ensures OwnedBy(Step(st, e).store[t], if t in ours then us else them)
  {
    if e.PutToken? && e.c in st.calls && st.calls[e.c].phase.Registering? {
      var p := st.calls[e.c].phase;
      assert Belongs(e.c, st.calls[e.c], us, ours);
      if p.scope != "" {
        assert e.c.who.Owns(Entry(e.c.who.namespace, p.scope));
      }
    }
  }

  lemma StepKeepsSeparated(st: State, e: Event, us: set<Identity>, them: set<Identity>, ours: set<Token>)
    requires Apart(us, them) && us !! them && Separated(st, us, them, ours)
    requires OfEither(e, us, them) && HandsOut(e, us, ours)
    ensures Separated(Step(st, e), us, them, ours)
  {
    var st' := Step(st, e);
    forall c | c in st'.calls ensures (c.who in us || c.who in them) && Belongs(c, st'.calls[c], us, ours) {
      StepBelongs(st, e, us, them, ours, c);
    }
    forall t | t in st'.store ensures OwnedBy(st'.store[t], if t in ours then us else them) {
      StepOwned(st, e, us, them, ours, t);
    }
  }

  // ---------- the run and its erasure ----------

  ghost predicate SameCalls(f: map<CallId, Call>, p: map<CallId, Call>, us: set<Identity>) {
    && (forall c :: c in p <==> c in f && c.who in us)
    && (forall c :: c in p ==> p[c] == f[c])
  }

  ghost predicate SameStore(f: map<Token, Entry>, p: map<Token, Entry>, ours: set<Token>) {
    && (forall t :: t in p <==> t in f && t in ours)
    && (forall t :: t in p ==> p[t] == f[t])
  }

  /** `p` is `f` as far as we are concerned. */
  ghost predicate SameForUs(f: State, p: State, us: set<Identity>, ours: set<Token>) {
    SameCalls(f.calls, p.calls, us) && SameStore(f.store, p.store, ours)
  }

  /** A call changes bindings of its own group only. */
  lemma EffectWithin(e: Event, call: Call, us: set<Identity>, ours: set<Token>)
    requires !e.Begin? && !e.Lose? && Belongs(e.c, call, us, ours) && EffectOf(e, call).Some?
    ensures EffectOf(e, call).value.token in ours <==> e.c.who in us
  {
    if e.PutToken? {
      var p := call.phase;
      assert ResponseTokens(p.resp)[p.put] in ResponseTokens(p.resp);
    }
  }

  lemma SameAfterOurEffect(f: map<Token, Entry>, p: map<Token, Entry>, x: Effect, ours: set<Token>)
    requires SameStore(f, p, ours) && x.token in ours
    ensures SameStore(Apply(f, x), Apply(p, x), ours)
  {
  }

  lemma SameAfterTheirEffect(f: map<Token, Entry>, p: map<Token, Entry>, x: Effect, ours: set<Token>)
    requires SameStore(f, p, ours) && x.token !in ours
    ensures SameStore(Apply(f, x), p, ours)
  {
  }

  /** Their steps change nothing for us. */
  lemma TheirStep(f: State, p: State, e: Event, us: set<Identity>, them: set<Identity>, ours: set<Token>)
    requires SameForUs(f, p, us, ours) && Separated(f, us, them, ours) && !e.Lose? && e.c.who !in us
    ensures SameForUs(Step(f, e), p, us, ours)
  {
    if !e.Begin? && e.c in f.calls {
      var call := f.calls[e.c];
      if EffectOf(e, call).Some? {
        EffectWithin(e, call, us, ours);
        SameAfterTheirEffect(f.store, p.store, EffectOf(e, call).value, ours);
      }
    }
  }

  /** The outcome of a check does not depend on their bindings. */
  lemma SameVerdict(f: State, p: State, c: CallId, fails: bool, us: set<Identity>, them: set<Identity>, ours: set<Token>)
    requires Apart(us, them) && us !! them && SameForUs(f, p, us, ours) && Separated(f, us, them, ours)
    requires c in f.calls && c.who in us
    ensures var call := f.calls[c];
      CheckPhase(c, call, LookUp(f.store, Presents(c, call), fails))
        == CheckPhase(c, call, LookUp(p.store, Presents(c, call), fails))
  {
    var call := f.calls[c];
    assert p.calls[c] == call;
    var presented := Presents(c, call);
    if presented.Some? && presented.value in f.store && presented.value !in ours {
      var owner :| owner in them && owner.Owns(f.store[presented.value]);
      if c.who.Owns(f.store[presented.value]) {
        OwnersShare(c.who, owner, f.store[presented.value]);
      }
    }
  }

  lemma SamePhase(f: map<Token, Entry>, p: map<Token, Entry>, e: Event, call: Call)
    requires !e.Begin? && !e.Lose?
    requires e.Check? ==> CheckPhase(e.c, call, Found(f, e, call)) == CheckPhase(e.c, call, Found(p, e, call))
    ensures NextPhase(Found(f, e, call), e, call) == NextPhase(Found(p, e, call), e, call)
  {
    hide CheckPhase;
  }

  lemma BelongsAt(st: State, us: set<Identity>, them: set<Identity>, ours: set<Token>, c: CallId)
    requires Separated(st, us, them, ours) && c in st.calls
    ensures Belongs(c, st.calls[c], us, ours)
  {
  }

  /** The phase our step leads to is the same in both. */
  lemma OurPhase(f: State, p: State, e: Event, us: set<Identity>, them: set<Identity>, ours: set<Token>)
    requires Apart(us, them) && us !! them && SameForUs(f, p, us, ours) && Separated(f, us, them, ours)
    requires !e.Begin? && !e.Lose? && e.c in f.calls && e.c.who in us
    ensures var call := f.calls[e.c];
      NextPhase(Found(f.store, e, call), e, call) == NextPhase(Found(p.store, e, call), e, call)
  {
    hide NextPhase, CheckPhase, Separated, SameStore;
    if e.Check? { SameVerdict(f, p, e.c, e.fails, us, them, ours); }
    SamePhase(f.store, p.store, e, f.calls[e.c]);
  }

  lemma OurStep(f: State, p: State, e: Event, us: set<Identity>, them: set<Identity>, ours: set<Token>)
    requires Apart(us, them) && us !! them && SameForUs(f, p, us, ours) && Separated(f, us, them, ours)
    requires !e.Lose? && e.c.who in us
    ensures SameForUs(Step(f, e), Step(p, e), us, ours)
  {
    hide NextPhase, EffectOf, Apply, SameStore, CheckPhase, NewLines, NewlyAccepted, Found, Separated, Belongs, Apart;
    if !e.Begin? && e.c in f.calls {
      var call := f.calls[e.c];
      BelongsAt(f, us, them, ours, e.c);
      if EffectOf(e, call).Some? {
        EffectWithin(e, call, us, ours);
        SameAfterOurEffect(f.store, p.store, EffectOf(e, call).value, ours);
      }
      OurPhase(f, p, e, us, them, ours);
    }
  }

  lemma LossStep(f: State, p: State, t: Token, us: set<Identity>, ours: set<Token>)
    requires SameForUs(f, p, us, ours)
    ensures SameForUs(Step(f, Lose(t)), Step(p, Lose(t)), us, ours)
  {
  }

  lemma {:induction false} EraseFrom(f: State, p: State, events: seq<Event>, us: set<Identity>, them: set<Identity>, ours: set<Token>)
    requires Fair(events, us, them, ours) && SameForUs(f, p, us, ours) && Separated(f, us, them, ours)
    ensures SameForUs(Run(f, events), Run(p, Erase(events, us)), us, ours)
    decreases |events|
  {
    if events != [] {
      var e := events[0];
      assert e in events;
      StepKeepsSeparated(f, e, us, them, ours);
      if e.Lose? || e.c.who in us {
        if e.Lose? { LossStep(f, p, e.token, us, ours); } else { OurStep(f, p, e, us, them, ours); }
        assert Erase(events, us)[1..] == Erase(events[1..], us);
        EraseFrom(Step(f, e), Step(p, e), events[1..], us, them, ours);
      } else {
        TheirStep(f, p, e, us, them, ours);
        EraseFrom(Step(f, e), p, events[1..], us, them, ours);
      }
    }
  }

  function HandedTo(events: seq<Event>, us: set<Identity>): set<Token> {
    set e, t | e in events && e.Reply? && e.answer.Replied? && e.c.who in us && t in ResponseTokens(e.answer.resp) :: t
  }

  /** Non-interference. If no identity of one group shares a namespace and queue with one of the other,
      and upstream hands no token to both groups, then erasing every call of the others from a run, in
      whatever way it was interleaved, leaves each of our calls in the same phase with the same outcome,
      and each token handed to us with the same binding. */
  lemma ErasingOthersChangesNothing(events: seq<Event>, us: set<Identity>, them: set<Identity>)
    requires Apart(us, them) && us !! them && (forall e :: e in events ==> OfEither(e, us, them))
    requires HandedTo(events, us) !! HandedTo(events, them)
    ensures var f, p := Run(INIT, events), Run(INIT, Erase(events, us));
      && (forall c: CallId :: c.who in us ==> (c in f.calls <==> c in p.calls))
      && (forall c :: c in f.calls && c.who in us ==> p.calls[c] == f.calls[c])
      && (forall t :: t in HandedTo(events, us) ==> (t in f.store <==> t in p.store))
      && (forall t :: t in HandedTo(events, us) && t in f.store ==> p.store[t] == f.store[t])
  {
    var ours := HandedTo(events, us);
    forall e | e in events ensures HandsOut(e, us, ours) {
      if e.Reply? && e.answer.Replied? {
        forall t | t in ResponseTokens(e.answer.resp) ensures t in ours <==> e.c.who in us {
          if e.c.who !in us {
            assert t in HandedTo(events, them);
          }
        }
      }
    }
    EraseFrom(INIT, INIT, events, us, them, ours);
  }
}

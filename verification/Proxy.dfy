/** The proxy as a transition system. Calls run concurrently; each takes one step at a time and the
    steps of different calls interleave in any order. Every event is allowed in every state: one that
    does not fit leaves the state unchanged, so a run is any sequence of events whatever. */
module Proxy {
  import opened Tokens
  import opened RpcPolicy
  import opened Scope
  import opened Auth
  import opened Actions

  // ---------- authorization ----------

  /** What the token store answers to a lookup. */
  datatype LookupResult = Hit(entry: Entry) | Miss | LookupFailed

  datatype Verdict = Allow(scope: string) | Deny | Unavailable

  function PollTaskQueueScope(tq: TaskQueue): string {
    if tq.kind.Sticky? then tq.normalName else tq.name
  }

  predicate NamespaceMatches(req: Request, id: Identity) {
    RequestNamespace(req) == Some(id.namespace) || (RequestNamespace(req).None? && id.namespace == "")
  }

  /** The token a request is looked up by, if authorization gets that far. */
  function PresentedToken(policy: Policy, req: Request, id: Identity): Option<Token> {
    if policy.category != CategoryToken then None else
    if RequestNamespace(req).Some? && RequestNamespace(req).value != id.namespace then None else
    match RequestTaskToken(req)
    case Some(t) => if t == "" then None else Some(t)
    case None => None
  }

  function AuthorizePoll(req: Request, id: Identity): Verdict {
    if !NamespaceMatches(req, id) then Deny else
    match RequestTaskQueue(req)
    case None => Deny
    case Some(tq) =>
      var taskQueue := PollTaskQueueScope(tq);
      if tq.name == "" || taskQueue == "" || !id.AllowsTaskQueue(taskQueue) then Deny else
      if req.PollNexusTaskQueueRequest? && !HeartbeatsAllowed(req.heartbeats, id.taskQueues) then Deny
      else Allow(taskQueue)
  }

  function AuthorizeToken(rpc: Rpc, policy: Policy, req: Request, id: Identity, found: LookupResult): Verdict {
    if PresentedToken(policy, req, id).None? then Deny else
    match found
    case LookupFailed => Unavailable
    case Miss => Deny
    case Hit(entry) =>
      if !id.Owns(entry) then Deny else
      if rpc.RespondWorkflowTaskCompleted? && req.RespondWorkflowTaskCompletedRequest?
         && !CommandsAllowed(req.commands, id.namespace, entry.taskQueue) then Deny
      else Allow(entry.taskQueue)
  }

  /** `found` matters only to requests that present a token. */
  function Authorize(rpc: Rpc, policy: Policy, req: Request, id: Identity, found: LookupResult): Verdict {
    match policy.category
    case CategoryPoll => AuthorizePoll(req, id)
    case CategoryToken => AuthorizeToken(rpc, policy, req, id, found)
    case CategoryUnscoped => Allow("")
    case CategoryNamespaceOnly => if NamespaceMatches(req, id) then Allow("") else Deny
    case CategoryWorker =>
      if !NamespaceMatches(req, id) then Deny else
      (match RequestTaskQueueName(req)
       case Some(tq) => if tq != "" && !id.AllowsTaskQueue(tq) then Deny else Allow(tq)
       case None => Allow(""))
    case CategoryWorkerHeartbeat =>
      if NamespaceMatches(req, id) && req.RecordWorkerHeartbeatRequest?
         && HeartbeatsAllowed(req.heartbeats, id.taskQueues) then Allow("") else Deny
  }

  // ---------- calls and state ----------

  /** How upstream treats a forwarded request. When the answer is lost the request has taken effect
      there all the same. */
  datatype Answer = Replied(resp: Response) | Refused | ReplyLost

  /** A call belongs to the identity that authenticated it. */
  datatype CallId = CallId(who: Identity, n: nat)

  datatype Outcome =
    | Denied
    | LookupUnavailable
    | UpstreamFailed(accepted: bool)
    | Delivered(scope: string, resp: Response, deleted: bool)
    | MissingScope(scope: string, resp: Response, deleted: bool)
    | PutUnavailable(scope: string, resp: Response, deleted: bool, put: nat, maybePut: bool)

  /** `deleted`: the delete of a terminal call took effect; `put`: so many tokens of the response
      were put and acknowledged. */
  datatype Phase =
    | Begun
    | Authorized(scope: string)
    | Answered(scope: string, resp: Response)
    | Registering(scope: string, resp: Response, deleted: bool, put: nat)
    | Done(outcome: Outcome)

  datatype Call = Call(rpc: Rpc, req: Request, phase: Phase)

  /** What happened to the bindings of the store, and which call did it. */
  datatype Effect =
    | Bound(call: CallId, token: Token, entry: Entry)
    | Unbound(call: CallId, token: Token)
    | Lost(token: Token)

  datatype LogLine = LogLine(call: CallId, action: Action)

  datatype State = State(
    store: map<Token, Entry>,
    calls: map<CallId, Call>,
    order: seq<CallId>,      // the calls in the order they began
    log: seq<LogLine>,
    accepted: nat,           // billed actions of the requests upstream accepted
    history: seq<Effect>)

  const INIT := State(map[], map[], [], [], 0, [])

  // ---------- events ----------

  datatype Event =
    | Begin(c: CallId, rpc: Rpc, req: Request)
    | Check(c: CallId, fails: bool)                     // authorization, with its lookup
    | Reply(c: CallId, answer: Answer)                  // the upstream server answers or fails
    | DeleteToken(c: CallId, applied: bool)             // a failed delete is only logged
    | PutToken(c: CallId, acked: bool, applied: bool)   // a failed put may still have taken effect
    | Finish(c: CallId)                                 // the actions are logged, the reply is delivered
    | Lose(token: Token)                                // the store drops a binding: expiry or eviction

  predicate IsTerminal(call: Call) {
    Allowed(call.rpc).Some? && Allowed(call.rpc).value.terminal && RequestTaskToken(call.req).Some?
  }

  function Presents(c: CallId, call: Call): Option<Token> {
    if Allowed(call.rpc).Some? then PresentedToken(Allowed(call.rpc).value, call.req, c.who) else None
  }

  function LookUp(store: map<Token, Entry>, t: Option<Token>, fails: bool): LookupResult {
    if fails then LookupFailed else
    if t.Some? && t.value in store then Hit(store[t.value]) else Miss
  }

  /** What the lookup of an event finds; an event other than a check looks nothing up. */
  function Found(store: map<Token, Entry>, e: Event, call: Call): LookupResult {
    if e.Check? then LookUp(store, Presents(e.c, call), e.fails) else Miss
  }

  function CheckPhase(c: CallId, call: Call, found: LookupResult): Phase {
    match Allowed(call.rpc)
    case None => Done(Denied)
    case Some(policy) =>
      if !c.who.valid then Done(Denied) else
      match Authorize(call.rpc, policy, call.req, c.who, found)
      case Allow(scope) => Authorized(scope)
      case Deny => Done(Denied)
      case Unavailable => Done(LookupUnavailable)
  }

  function LinesOf(c: CallId, actions: seq<Action>): seq<LogLine> {
    seq(|actions|, i requires 0 <= i < |actions| => LogLine(c, actions[i]))
  }

  predicate HasNextToken(phase: Phase) {
    phase.Registering? && phase.put < |ResponseTokens(phase.resp)|
  }

  /** The phase an event of a call leads to; `found` matters only to a check. */
  function NextPhase(found: LookupResult, e: Event, call: Call): Phase
    requires !e.Begin? && !e.Lose?
  {
    var p := call.phase;
    match e
    case Check(c, _) => if p.Begun? then CheckPhase(c, call, found) else p
    case Reply(_, answer) =>
      if !p.Authorized? then p else
      (match answer
       case Refused => Done(UpstreamFailed(false))
       case ReplyLost => Done(UpstreamFailed(true))
       case Replied(resp) => if IsTerminal(call) then Answered(p.scope, resp) else Registering(p.scope, resp, false, 0))
    case DeleteToken(_, applied) =>
      if p.Answered? && IsTerminal(call) then Registering(p.scope, p.resp, applied, 0) else p
    case PutToken(_, acked, applied) =>
      if !HasNextToken(p) then p else
      if p.scope == "" then Done(MissingScope(p.scope, p.resp, p.deleted)) else
      if acked then p.(put := p.put + 1) else Done(PutUnavailable(p.scope, p.resp, p.deleted, p.put, applied))
    case Finish(_) =>
      if p.Registering? && !HasNextToken(p) then Done(Delivered(p.scope, p.resp, p.deleted)) else p
  }

  /** What an event of a call does to the store. */
  function EffectOf(e: Event, call: Call): Option<Effect>
    requires !e.Begin? && !e.Lose?
  {
    var p := call.phase;
    match e
    case DeleteToken(c, applied) =>
      if p.Answered? && IsTerminal(call) && applied then Some(Unbound(c, RequestTaskToken(call.req).value)) else None
    case PutToken(c, acked, applied) =>
      if HasNextToken(p) && p.scope != "" && (acked || applied)
      then Some(Bound(c, ResponseTokens(p.resp)[p.put], Entry(c.who.namespace, p.scope))) else None
    case _ => None
  }

  function NewLines(e: Event, call: Call): seq<LogLine>
    requires !e.Begin? && !e.Lose?
  {
    if e.Finish? && call.phase.Registering? && !HasNextToken(call.phase) then LinesOf(e.c, OfRequest(call.req)) else []
  }

  function NewlyAccepted(e: Event, call: Call): nat {
    if e.Reply? && call.phase.Authorized? && !e.answer.Refused? then Cost(call.req) else 0
  }

  function Apply(store: map<Token, Entry>, e: Effect): map<Token, Entry> {
    match e
    case Bound(_, t, entry) => store[t := entry]
    case Unbound(_, t) => store - {t}
    case Lost(t) => store - {t}
  }

  function Affect(st: State, effect: Option<Effect>): State {
    match effect
    case None => st
    case Some(x) => st.(store := Apply(st.store, x), history := st.history + [x])
  }

  function Step(st: State, e: Event): State {
    match e
    case Begin(c, rpc, req) =>
      if c in st.calls then st
      else st.(calls := st.calls[c := Call(rpc, req, Begun)], order := st.order + [c])
    case Lose(t) => Affect(st, if t in st.store then Some(Lost(t)) else None)
    case _ =>
      if e.c !in st.calls then st else
      var call := st.calls[e.c];
      Affect(st, EffectOf(e, call)).(
        calls := st.calls[e.c := call.(phase := NextPhase(Found(st.store, e, call), e, call))],
        log := st.log + NewLines(e, call),
        accepted := st.accepted + NewlyAccepted(e, call))
  }

  function Run(st: State, events: seq<Event>): State
    decreases |events|
  {
    if events == [] then st else Run(Step(st, events[0]), events[1..])
  }

  lemma {:induction false} RunAppend(st: State, a: seq<Event>, b: seq<Event>)
    ensures Run(st, a + b) == Run(Run(st, a), b)
    decreases |a|
  {
    if a == [] {
      assert a + b == b;
    } else {
      assert (a + b)[1..] == a[1..] + b;
      RunAppend(Step(st, a[0]), a[1..], b);
    }
  }
}

/** What authorization comes to: a request passes exactly when all it touches is the caller's own. */
module Authorization {
  import opened Tokens
  import opened RpcPolicy
  import opened Scope
  import opened Auth
  import opened Proxy

  /** Everything a request names is the caller's: its namespace; the queue of a poll, which is the normal
      queue it declares if it polls a sticky one; the queues of the heartbeats it reports; the queue of a
      worker that shuts down, if it gives one. */
  predicate Within(req: Request, id: Identity) {
    && (!req.GetSystemInfoRequest? && !req.OtherRequest? ==> req.namespace == id.namespace)
    && (IsPoll(req) ==> req.queue.name != "")
    && (IsPoll(req) && req.queue.kind.Sticky? ==> req.queue.normalName in id.taskQueues)
    && (IsPoll(req) && !req.queue.kind.Sticky? ==> req.queue.name in id.taskQueues)
    && (req.PollNexusTaskQueueRequest? || req.RecordWorkerHeartbeatRequest? ==>
          forall q :: q in req.heartbeats ==> q in id.taskQueues)
    && (req.ShutdownWorkerRequest? && req.queueName != "" ==> req.queueName in id.taskQueues)
  }

  /** The presented token was issued to the caller, and no command sends work away from its queue. */
  ghost predicate TokenFits(req: Request, id: Identity, found: LookupResult)
    requires CarriesToken(req)
  {
    && req.token != "" && found.Hit?
    && found.entry.namespace == id.namespace && found.entry.taskQueue in id.taskQueues
    && (req.RespondWorkflowTaskCompletedRequest? ==>
          var here := found.entry;
          forall cmd :: cmd in req.commands && Destination(cmd, here).Some? ==> Destination(cmd, here) == Some(here))
  }

  /** The queue an accepted request is scoped to. */
  function ScopeOf(req: Request, found: LookupResult): string {
    if CarriesToken(req) then (if found.Hit? then found.entry.taskQueue else "")
    else if IsPoll(req) then (if req.queue.kind.Sticky? then req.queue.normalName else req.queue.name)
    else if req.ShutdownWorkerRequest? then req.queueName
    else ""
  }

  lemma HeartbeatsWithin(heartbeats: seq<string>, id: Identity)
    requires Sound(id)
    ensures HeartbeatsAllowed(heartbeats, id.taskQueues) <==> forall q :: q in heartbeats ==> q in id.taskQueues
  {
  }

  lemma PollWithin(req: Request, id: Identity)
    requires Sound(id) && IsPoll(req)
    ensures AuthorizePoll(req, id) == if Within(req, id) then Allow(ScopeOf(req, Miss)) else Deny
  {
    if req.PollNexusTaskQueueRequest? {
      HeartbeatsWithin(req.heartbeats, id);
    }
  }

  lemma TokenFitsIff(rpc: Rpc, policy: Policy, req: Request, id: Identity, found: LookupResult)
    requires policy.category == CategoryToken && RequestOf(rpc, req) && CarriesToken(req)
    ensures var v := AuthorizeToken(rpc, policy, req, id, found);
      && (v.Allow? <==> Within(req, id) && TokenFits(req, id, found))
      && (v.Allow? ==> v.scope == found.entry.taskQueue)
      && (v.Unavailable? <==> found.LookupFailed? && Within(req, id) && req.token != "")
  {
    if found.Hit? && req.RespondWorkflowTaskCompletedRequest? {
      AllowedIffStaysHere(req.commands, Entry(id.namespace, found.entry.taskQueue));
    }
  }

  /** An allowed RPC is authorized exactly when all it names is the caller's own and, if it presents a
      token, the token is bound to the caller and the commands stay where it was issued. It is scoped to
      the queue it acts on. Only a token request can fail for want of the store. */
  lemma AllowedIffOwn(rpc: Rpc, req: Request, id: Identity, found: LookupResult)
    requires Allowed(rpc).Some? && RequestOf(rpc, req) && Sound(id)
    ensures var v := Authorize(rpc, Allowed(rpc).value, req, id, found);
      && (v.Allow? <==> Within(req, id) && (CarriesToken(req) ==> TokenFits(req, id, found)))
      && (v.Allow? ==> v.scope == ScopeOf(req, found))
      && (v.Unavailable? <==> found.LookupFailed? && CarriesToken(req) && Within(req, id) && req.token != "")
  {
    match Allowed(rpc).value.category {
      case CategoryPoll => PollWithin(req, id);
      case CategoryToken => TokenFitsIff(rpc, Allowed(rpc).value, req, id, found);
      case CategoryWorkerHeartbeat => HeartbeatsWithin(req.heartbeats, id);
      case _ =>
    }
  }

  /** A sticky poll is authorized by the normal queue it declares and scoped to it; what name the sticky
      queue has does not matter, if it has one. */
  lemma StickyPoll(req: Request, id: Identity, name: string)
    requires IsPoll(req) && req.queue.kind.Sticky? && req.queue.name != "" && name != ""
    ensures AuthorizePoll(req, id) == AuthorizePoll(req.(queue := req.queue.(name := name)), id)
    ensures AuthorizePoll(req, id).Allow? ==> AuthorizePoll(req, id) == Allow(req.queue.normalName) && req.queue.normalName in id.taskQueues
  {
  }

  /** Any other poll is authorized by the name of its queue and scoped to it, whatever normal queue it
      declares. */
  lemma DirectPoll(req: Request, id: Identity, normalName: string)
    requires IsPoll(req) && !req.queue.kind.Sticky?
    ensures AuthorizePoll(req, id) == AuthorizePoll(req.(queue := req.queue.(normalName := normalName)), id)
    ensures AuthorizePoll(req, id).Allow? ==> AuthorizePoll(req, id) == Allow(req.queue.name) && req.queue.name in id.taskQueues
  {
  }

  /** Nobody gets past authorization with a request that names another namespace. */
  lemma AcceptedInOwnNamespace(rpc: Rpc, req: Request, id: Identity, found: LookupResult)
    requires Allowed(rpc).Some? && RequestOf(rpc, req) && Authorize(rpc, Allowed(rpc).value, req, id, found).Allow?
    ensures req.GetSystemInfoRequest? || req.namespace == id.namespace
  {
  }

  /** The store is asked exactly for the non-empty token of a request that refers to a task in the
      caller's own namespace. */
  lemma PresentsExactly(c: CallId, call: Call, t: Token)
    requires RequestOf(call.rpc, call.req)
    ensures Presents(c, call) == Some(t)
      <==> CarriesToken(call.req) && call.req.token == t && t != "" && call.req.namespace == c.who.namespace
  {
  }
}

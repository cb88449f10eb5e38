/** What requests and responses say about namespace, task queue and task token, and the check that
    the commands of a completed workflow task stay where the task came from. An unset message field
    reads as its zero value, as its getter does. */
module Scope {
  import opened Tokens
  import opened RpcPolicy

  datatype QueueKind = Unspecified | Normal | Sticky

  datatype TaskQueue = TaskQueue(name: string, kind: QueueKind, normalName: string)

  datatype Command =
    | ScheduleActivityTask(taskQueue: string)
    | StartChildWorkflowExecution(taskQueue: string, namespace: string)
    | ContinueAsNewWorkflowExecution(taskQueue: string)
    | StartTimer
    | SignalExternalWorkflowExecution
    | UpsertWorkflowSearchAttributes
    | ScheduleNexusOperation
    | RequestCancelNexusOperation
    | OtherCommand

  /** Requests by the RPC they belong to; heartbeats are given by the queue each entry names. */
  datatype Request =
    | PollWorkflowTaskQueueRequest(namespace: string, queue: TaskQueue)
    | PollActivityTaskQueueRequest(namespace: string, queue: TaskQueue)
    | PollNexusTaskQueueRequest(namespace: string, queue: TaskQueue, heartbeats: seq<string>)
    | RespondWorkflowTaskCompletedRequest(namespace: string, token: Token, commands: seq<Command>)
    | RespondWorkflowTaskFailedRequest(namespace: string, token: Token)
    | RecordActivityTaskHeartbeatRequest(namespace: string, token: Token)
    | RespondActivityTaskCompletedRequest(namespace: string, token: Token)
    | RespondActivityTaskFailedRequest(namespace: string, token: Token)
    | RespondActivityTaskCanceledRequest(namespace: string, token: Token)
    | RespondQueryTaskCompletedRequest(namespace: string, token: Token)
    | RespondNexusTaskCompletedRequest(namespace: string, token: Token)
    | RespondNexusTaskFailedRequest(namespace: string, token: Token)
    | GetSystemInfoRequest
    | DescribeNamespaceRequest(namespace: string)
    | ShutdownWorkerRequest(namespace: string, queueName: string)
    | RecordWorkerHeartbeatRequest(namespace: string, heartbeats: seq<string>)
    | OtherRequest

  /** Responses; only these four kinds carry task tokens. */
  datatype Response =
    | PollWorkflowTaskQueueResponse(token: Token)
    | PollActivityTaskQueueResponse(token: Token)
    | PollNexusTaskQueueResponse(token: Token)
    | RespondWorkflowTaskCompletedResponse(workflowTask: Option<Token>, activityTasks: seq<Token>)
    | OtherResponse

  predicate IsPoll(req: Request) {
    req.PollWorkflowTaskQueueRequest? || req.PollActivityTaskQueueRequest? || req.PollNexusTaskQueueRequest?
  }

  /** The requests that refer to a task handed out before. */
  predicate CarriesToken(req: Request) {
    || req.RespondWorkflowTaskCompletedRequest? || req.RespondWorkflowTaskFailedRequest?
    || req.RecordActivityTaskHeartbeatRequest?
    || req.RespondActivityTaskCompletedRequest? || req.RespondActivityTaskFailedRequest?
    || req.RespondActivityTaskCanceledRequest? || req.RespondQueryTaskCompletedRequest?
    || req.RespondNexusTaskCompletedRequest? || req.RespondNexusTaskFailedRequest?
  }

  // ---------- extraction ----------

  function RequestNamespace(req: Request): Option<string> {
    if req.GetSystemInfoRequest? || req.OtherRequest? then None else Some(req.namespace)
  }

  function RequestTaskQueueName(req: Request): Option<string> {
    match req
    case PollWorkflowTaskQueueRequest(_, q) => Some(q.name)
    case PollActivityTaskQueueRequest(_, q) => Some(q.name)
    case ShutdownWorkerRequest(_, name) => Some(name)
    case _ => None
  }

  function RequestTaskQueue(req: Request): Option<TaskQueue> {
    match req
    case PollWorkflowTaskQueueRequest(_, q) => Some(q)
    case PollActivityTaskQueueRequest(_, q) => Some(q)
    case PollNexusTaskQueueRequest(_, q, _) => Some(q)
    case _ => None
  }

  function RequestTaskToken(req: Request): Option<Token> {
    match req
    case RespondWorkflowTaskCompletedRequest(_, t, _) => Some(t)
    case RespondWorkflowTaskFailedRequest(_, t) => Some(t)
    case RecordActivityTaskHeartbeatRequest(_, t) => Some(t)
    case RespondActivityTaskCompletedRequest(_, t) => Some(t)
    case RespondActivityTaskFailedRequest(_, t) => Some(t)
    case RespondActivityTaskCanceledRequest(_, t) => Some(t)
    case RespondQueryTaskCompletedRequest(_, t) => Some(t)
    case RespondNexusTaskCompletedRequest(_, t) => Some(t)
    case RespondNexusTaskFailedRequest(_, t) => Some(t)
    case _ => None
  }

  /** The two ways to ask for a queue name agree, and no request both polls and refers to a task. */
  lemma QueueNamesAgree(req: Request)
    ensures RequestTaskQueueName(req).Some? && RequestTaskQueue(req).Some? ==>
              RequestTaskQueueName(req).value == RequestTaskQueue(req).value.name
    ensures RequestTaskQueueName(req).Some?
      <==> req.ShutdownWorkerRequest? || (RequestTaskQueue(req).Some? && !req.PollNexusTaskQueueRequest?)
    ensures RequestTaskQueue(req).Some? <==> IsPoll(req)
    ensures RequestTaskToken(req).Some? <==> CarriesToken(req)
  {
  }

  /** The request type and the response type of an RPC. */
  predicate RequestOf(rpc: Rpc, req: Request) {
    match rpc
    case PollWorkflowTaskQueue => req.PollWorkflowTaskQueueRequest?
    case PollActivityTaskQueue => req.PollActivityTaskQueueRequest?
    case PollNexusTaskQueue => req.PollNexusTaskQueueRequest?
    case RespondWorkflowTaskCompleted => req.RespondWorkflowTaskCompletedRequest?
    case RespondWorkflowTaskFailed => req.RespondWorkflowTaskFailedRequest?
    case RecordActivityTaskHeartbeat => req.RecordActivityTaskHeartbeatRequest?
    case RespondActivityTaskCompleted => req.RespondActivityTaskCompletedRequest?
    case RespondActivityTaskFailed => req.RespondActivityTaskFailedRequest?
    case RespondActivityTaskCanceled => req.RespondActivityTaskCanceledRequest?
    case RespondNexusTaskCompleted => req.RespondNexusTaskCompletedRequest?
    case RespondNexusTaskFailed => req.RespondNexusTaskFailedRequest?
    case RespondQueryTaskCompleted => req.RespondQueryTaskCompletedRequest?
    case GetSystemInfo => req.GetSystemInfoRequest?
    case DescribeNamespace => req.DescribeNamespaceRequest?
    case ShutdownWorker => req.ShutdownWorkerRequest?
    case RecordWorkerHeartbeat => req.RecordWorkerHeartbeatRequest?
    case OtherRpc(_) => req.OtherRequest?
  }

  predicate ResponseOf(rpc: Rpc, resp: Response) {
    match rpc
    case PollWorkflowTaskQueue => resp.PollWorkflowTaskQueueResponse?
    case PollActivityTaskQueue => resp.PollActivityTaskQueueResponse?
    case PollNexusTaskQueue => resp.PollNexusTaskQueueResponse?
    case RespondWorkflowTaskCompleted => resp.RespondWorkflowTaskCompletedResponse?
    case _ => resp.OtherResponse?
  }

  // ---------- the tokens of a response ----------

  function NonEmpty(tokens: seq<Token>): seq<Token> {
    if tokens == [] then [] else (if tokens[0] != "" then [tokens[0]] else []) + NonEmpty(tokens[1..])
  }

  /** Every token slot of a response, set or not, in the order of the message. */
  function TokenFields(resp: Response): seq<Token> {
    match resp
    case PollWorkflowTaskQueueResponse(t) => [t]
    case PollActivityTaskQueueResponse(t) => [t]
    case PollNexusTaskQueueResponse(t) => [t]
    case RespondWorkflowTaskCompletedResponse(w, a) => (if w.Some? then [w.value] else []) + a
    case OtherResponse => []
  }

  /** The tokens a response hands to the worker. */
  function ResponseTokens(resp: Response): seq<Token> {
    NonEmpty(TokenFields(resp))
  }

  lemma {:induction false} NonEmptyAppend(a: seq<Token>, b: seq<Token>)
    ensures NonEmpty(a + b) == NonEmpty(a) + NonEmpty(b)
  {
    if a == [] {
      assert a + b == b;
    } else {
      assert (a + b)[1..] == a[1..] + b;
      NonEmptyAppend(a[1..], b);
    }
  }

  lemma NonEmptyOne(t: Token)
    ensures NonEmpty([t]) == if |t| > 0 then [t] else []
  {
    assert [t][1..] == [];
  }

  lemma {:induction false} NonEmptyMembers(tokens: seq<Token>)
    ensures forall t :: t in NonEmpty(tokens) <==> t in tokens && t != ""
    ensures multiset(NonEmpty(tokens)) == multiset(tokens)["" := 0]
  {
    if tokens != [] {
      assert tokens == [tokens[0]] + tokens[1..];
      NonEmptyMembers(tokens[1..]);
    }
  }

  /** The response hands the worker token `t`: the task of a poll, or the next workflow task or an
      activity task that come with the answer to a completed workflow task. */
  predicate Hands(resp: Response, t: Token) {
    t != "" &&
    match resp
    case PollWorkflowTaskQueueResponse(token) => t == token
    case PollActivityTaskQueueResponse(token) => t == token
    case PollNexusTaskQueueResponse(token) => t == token
    case RespondWorkflowTaskCompletedResponse(workflowTask, activityTasks) => workflowTask == Some(t) || t in activityTasks
    case OtherResponse => false
  }

  lemma CompletionTokens(w: Option<Token>, a: seq<Token>)
    ensures var head := if w.Some? then [w.value] else [];
      && NonEmpty(head + a) == (if w.Some? && w.value != "" then [w.value] else []) + NonEmpty(a)
      && multiset(NonEmpty(head + a)) == (multiset(a) + (if w.Some? then multiset{w.value} else multiset{}))["" := 0]
      && (forall t :: t in NonEmpty(head + a) <==> t != "" && (w == Some(t) || t in a))
  {
    var head := if w.Some? then [w.value] else [];
    NonEmptyAppend(head, a);
    NonEmptyMembers(head + a);
    if w.Some? {
      NonEmptyOne(w.value);
    }
    hide NonEmpty;
    assert multiset(head + a) == multiset(a) + multiset(head);
    assert forall t :: t in head + a <==> w == Some(t) || t in a;
  }

  lemma CollectedIffHanded(resp: Response, t: Token)
    ensures t in ResponseTokens(resp) <==> Hands(resp, t)
  {
    if resp.RespondWorkflowTaskCompletedResponse? {
      CompletionTokens(resp.workflowTask, resp.activityTasks);
    } else if !resp.OtherResponse? {
      NonEmptyOne(resp.token);
    }
    hide NonEmpty;
  }

  /** Exactly the tokens a response hands out are collected, each as often as it occurs: the token of a
      poll, if it has one; for a completed workflow task those of the next workflow task and of the
      activity tasks, the workflow task first and the activities in their order. */
  lemma CollectedExactly(resp: Response)
    ensures forall t :: t in ResponseTokens(resp) <==> Hands(resp, t)
    ensures resp.PollWorkflowTaskQueueResponse? || resp.PollActivityTaskQueueResponse? || resp.PollNexusTaskQueueResponse? ==>
              ResponseTokens(resp) == if resp.token == "" then [] else [resp.token]
    ensures resp.RespondWorkflowTaskCompletedResponse? ==>
              multiset(ResponseTokens(resp))
              == (multiset(resp.activityTasks)
                  + (if resp.workflowTask.Some? then multiset{resp.workflowTask.value} else multiset{}))["" := 0]
    ensures resp.RespondWorkflowTaskCompletedResponse? ==>
              ResponseTokens(resp)
              == (if resp.workflowTask.Some? && resp.workflowTask.value != "" then [resp.workflowTask.value] else [])
                 + NonEmpty(resp.activityTasks)
    ensures resp.OtherResponse? ==> ResponseTokens(resp) == []
  {
    forall t ensures t in ResponseTokens(resp) <==> Hands(resp, t) {
      CollectedIffHanded(resp, t);
    }
    if resp.RespondWorkflowTaskCompletedResponse? {
      CompletionTokens(resp.workflowTask, resp.activityTasks);
    } else if !resp.OtherResponse? {
      NonEmptyOne(resp.token);
    }
    hide NonEmpty, Hands;
  }

  method CollectResponseTaskTokens(resp: Response) returns (tokens: seq<Token>)
    ensures tokens == ResponseTokens(resp)
  {
    match resp
    case PollWorkflowTaskQueueResponse(t) =>
      tokens := if |t| > 0 then [t] else [];
      NonEmptyOne(t);
    case PollActivityTaskQueueResponse(t) =>
      tokens := if |t| > 0 then [t] else [];
      NonEmptyOne(t);
    case PollNexusTaskQueueResponse(t) =>
      tokens := if |t| > 0 then [t] else [];
      NonEmptyOne(t);
    case RespondWorkflowTaskCompletedResponse(w, a) =>
      tokens := [];
      if w.Some? {
        if |w.value| > 0 {
          tokens := tokens + [w.value];
        }
      }
      ghost var head := if w.Some? then [w.value] else [];
      assert tokens == NonEmpty(head);
      var i := 0;
      while i < |a|
        invariant 0 <= i <= |a|
        invariant tokens == NonEmpty(head + a[..i])
      {
        NonEmptyAppend(head + a[..i], [a[i]]);
        assert head + a[..i + 1] == head + a[..i] + [a[i]];
        if |a[i]| > 0 {
          tokens := tokens + [a[i]];
        }
        i := i + 1;
      }
      assert head + a[..i] == TokenFields(resp);
    case OtherResponse => tokens := [];
  }

  // ---------- where commands send work ----------

  /** Where the work a command creates will run, for a workflow that runs at `here`. */
  function Destination(cmd: Command, here: Entry): Option<Entry> {
    match cmd
    case ScheduleActivityTask(tq) => Some(Entry(here.namespace, tq))
    case StartChildWorkflowExecution(tq, ns) => Some(Entry(if ns == "" then here.namespace else ns, tq))
    case ContinueAsNewWorkflowExecution(tq) => Some(Entry(here.namespace, if tq == "" then here.taskQueue else tq))
    case _ => None
  }

  predicate CommandAllowed(cmd: Command, namespace: string, taskQueue: string) {
    match cmd
    case ScheduleActivityTask(tq) => tq == taskQueue
    case StartChildWorkflowExecution(tq, ns) => tq == taskQueue && (ns == "" || ns == namespace)
    case ContinueAsNewWorkflowExecution(tq) => tq == "" || tq == taskQueue
    case _ => true
  }

  predicate CommandsAllowed(commands: seq<Command>, namespace: string, taskQueue: string) {
    forall cmd :: cmd in commands ==> CommandAllowed(cmd, namespace, taskQueue)
  }

  /** The check accepts a command list exactly when no command sends work anywhere but back to the
      namespace and queue of the workflow itself. */
  lemma AllowedIffStaysHere(commands: seq<Command>, here: Entry)
    ensures CommandsAllowed(commands, here.namespace, here.taskQueue)
      <==> forall cmd :: cmd in commands && Destination(cmd, here).Some? ==> Destination(cmd, here) == Some(here)
  {
    forall cmd | cmd in commands
      ensures CommandAllowed(cmd, here.namespace, here.taskQueue)
        <==> (Destination(cmd, here).Some? ==> Destination(cmd, here) == Some(here))
    {
    }
  }

  method ValidateCommands(commands: seq<Command>, namespace: string, taskQueue: string) returns (ok: bool)
    ensures ok <==> CommandsAllowed(commands, namespace, taskQueue)
  {
    var i := 0;
    while i < |commands|
      invariant 0 <= i <= |commands|
      invariant forall j :: 0 <= j < i ==> CommandAllowed(commands[j], namespace, taskQueue)
    {
      assert commands[i] in commands;
      match commands[i] {
        case ScheduleActivityTask(tq) =>
          if tq != taskQueue { return false; }
        case StartChildWorkflowExecution(tq, ns) =>
          if tq != taskQueue { return false; }
          if ns != "" && ns != namespace { return false; }
        case ContinueAsNewWorkflowExecution(tq) =>
          if tq != "" && tq != taskQueue { return false; }
        case _ =>
      }
      i := i + 1;
    }
    return true;
  }

  // ---------- worker heartbeats ----------

  predicate HeartbeatsAllowed(heartbeats: seq<string>, taskQueues: seq<string>) {
    forall tq :: tq in heartbeats ==> tq != "" && tq in taskQueues
  }

  method ValidateWorkerHeartbeatTaskQueues(heartbeats: seq<string>, taskQueues: seq<string>) returns (bad: Option<nat>)
    ensures bad.None? <==> HeartbeatsAllowed(heartbeats, taskQueues)
    ensures bad.Some? ==>
              && bad.value < |heartbeats|
              && HeartbeatsAllowed(heartbeats[..bad.value], taskQueues)
              && !HeartbeatsAllowed([heartbeats[bad.value]], taskQueues)
  {
    var i := 0;
    while i < |heartbeats|
      invariant 0 <= i <= |heartbeats|
      invariant HeartbeatsAllowed(heartbeats[..i], taskQueues)
    {
      var tq := heartbeats[i];
      if tq == "" || tq !in taskQueues {
        assert tq in [heartbeats[i]];
        return Some(i);
      }
      assert heartbeats[..i + 1] == heartbeats[..i] + [tq];
      i := i + 1;
    }
    assert heartbeats[..i] == heartbeats;
    return None;
  }
}

/** The RPCs a worker may call through the proxy and how each is scoped. */
module RpcPolicy {
  import opened Tokens

  /** The unqualified method name of a call. */
  datatype Rpc =
    | PollWorkflowTaskQueue | PollActivityTaskQueue | PollNexusTaskQueue
    | RespondWorkflowTaskCompleted | RespondWorkflowTaskFailed
    | RecordActivityTaskHeartbeat
    | RespondActivityTaskCompleted | RespondActivityTaskFailed | RespondActivityTaskCanceled
    | RespondNexusTaskCompleted | RespondNexusTaskFailed
    | RespondQueryTaskCompleted
    | GetSystemInfo | DescribeNamespace | ShutdownWorker | RecordWorkerHeartbeat
    | OtherRpc(name: string)

  datatype Category =
    | CategoryPoll | CategoryToken | CategoryUnscoped | CategoryNamespaceOnly | CategoryWorker | CategoryWorkerHeartbeat

  /** `terminal`: a successful call ends the life of the task token it presents. */
  datatype Policy = Policy(category: Category, terminal: bool)

  function Allowed(rpc: Rpc): Option<Policy> {
    match rpc
    case PollWorkflowTaskQueue => Some(Policy(CategoryPoll, false))
    case PollActivityTaskQueue => Some(Policy(CategoryPoll, false))
    case PollNexusTaskQueue => Some(Policy(CategoryPoll, false))
    case RespondWorkflowTaskCompleted => Some(Policy(CategoryToken, true))
    case RespondWorkflowTaskFailed => Some(Policy(CategoryToken, true))
    case RecordActivityTaskHeartbeat => Some(Policy(CategoryToken, false))
    case RespondActivityTaskCompleted => Some(Policy(CategoryToken, true))
    case RespondActivityTaskFailed => Some(Policy(CategoryToken, true))
    case RespondActivityTaskCanceled => Some(Policy(CategoryToken, true))
    case RespondNexusTaskCompleted => Some(Policy(CategoryToken, true))
    case RespondNexusTaskFailed => Some(Policy(CategoryToken, true))
    case RespondQueryTaskCompleted => Some(Policy(CategoryToken, false))
    case GetSystemInfo => Some(Policy(CategoryUnscoped, false))
    case DescribeNamespace => Some(Policy(CategoryNamespaceOnly, false))
    case ShutdownWorker => Some(Policy(CategoryWorker, false))
    case RecordWorkerHeartbeat => Some(Policy(CategoryWorkerHeartbeat, false))
    case OtherRpc(_) => None
  }

  /** The table has the worker's own RPCs and no other. */
  lemma OnlyListed(rpc: Rpc)
    ensures Allowed(rpc).Some? <==> !rpc.OtherRpc?
  {
  }
}

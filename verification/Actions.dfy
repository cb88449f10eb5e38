/** The billable actions that can be read off a forwarded request. */
module Actions {
  import opened Tokens
  import opened Scope

  datatype ActionType =
    | ScheduleActivity | StartTimer | StartChildWorkflow | ContinueAsNewWorkflow | SignalExternalWorkflow
    | UpsertSearchAttributes | ScheduleNexusOperation | RequestCancelNexusOperation | RecordActivityHeartbeat

  datatype Action = Action(kind: ActionType, count: nat)

  function FromCommand(cmd: Command): Option<Action> {
    match cmd
    case ScheduleActivityTask(_) => Some(Action(ScheduleActivity, 1))
    case StartTimer => Some(Action(ActionType.StartTimer, 1))
    case StartChildWorkflowExecution(_, _) => Some(Action(StartChildWorkflow, 2))
    case ContinueAsNewWorkflowExecution(_) => Some(Action(ContinueAsNewWorkflow, 1))
    case SignalExternalWorkflowExecution => Some(Action(SignalExternalWorkflow, 1))
    case UpsertWorkflowSearchAttributes => Some(Action(UpsertSearchAttributes, 1))
    case ScheduleNexusOperation => Some(Action(ActionType.ScheduleNexusOperation, 1))
    case RequestCancelNexusOperation => Some(Action(ActionType.RequestCancelNexusOperation, 1))
    case OtherCommand => None
  }

  function OfCommands(commands: seq<Command>): seq<Action> {
    if commands == [] then [] else
    var last := FromCommand(commands[|commands| - 1]);
    OfCommands(commands[..|commands| - 1]) + (if last.Some? then [last.value] else [])
  }

  /** The actions of a request, in the order of its commands. */
  function OfRequest(req: Request): seq<Action> {
    match req
    case RespondWorkflowTaskCompletedRequest(_, _, commands) => OfCommands(commands)
    case RecordActivityTaskHeartbeatRequest(_, _) => [Action(RecordActivityHeartbeat, 1)]
    case _ => []
  }

  method FromRequest(req: Request) returns (out: seq<Action>)
    ensures out == OfRequest(req)
  {
    match req
    case RespondWorkflowTaskCompletedRequest(_, _, commands) =>
      out := [];
      var i := 0;
      while i < |commands|
        invariant 0 <= i <= |commands|
        invariant out == OfCommands(commands[..i])
      {
        assert commands[..i + 1][..i] == commands[..i];
        match FromCommand(commands[i]) {
          case Some(a) => out := out + [a];
          case None =>
        }
        i := i + 1;
      }
      assert commands[..i] == commands;
    case RecordActivityTaskHeartbeatRequest(_, _) => out := [Action(RecordActivityHeartbeat, 1)];
    case _ => out := [];
  }

  function Billed(actions: seq<Action>): nat {
    if actions == [] then 0 else actions[0].count + Billed(actions[1..])
  }

  lemma {:induction false} BilledAppend(a: seq<Action>, b: seq<Action>)
    ensures Billed(a + b) == Billed(a) + Billed(b)
  {
    if a == [] {
      assert a + b == b;
    } else {
      assert (a + b)[1..] == a[1..] + b;
      BilledAppend(a[1..], b);
    }
  }

  /** The actions follow the order of the commands. */
  lemma {:induction false} OfCommandsAppend(a: seq<Command>, b: seq<Command>)
    ensures OfCommands(a + b) == OfCommands(a) + OfCommands(b)
    decreases |b|
  {
    if b == [] {
      assert a + b == a;
    } else {
      var n := |b| - 1;
      assert (a + b)[..|a + b| - 1] == a + b[..n];
      OfCommandsAppend(a, b[..n]);
    }
  }

  /** How many commands of a list satisfy `p`. */
  function Count(commands: seq<Command>, p: Command -> bool): nat {
    if commands == [] then 0
    else Count(commands[..|commands| - 1], p) + (if p(commands[|commands| - 1]) then 1 else 0)
  }

  predicate Billable(cmd: Command) {
    !cmd.OtherCommand?
  }

  predicate StartsChild(cmd: Command) {
    cmd.StartChildWorkflowExecution?
  }

  /** A completed workflow task is billed once for each billable command and once more for each
      child start; no other command and no other request but a heartbeat is billed. */
  lemma {:induction false} BilledCommands(commands: seq<Command>)
    ensures Billed(OfCommands(commands)) == Count(commands, Billable) + Count(commands, StartsChild)
  {
    if commands != [] {
      var rest, last := commands[..|commands| - 1], commands[|commands| - 1];
      BilledCommands(rest);
      match FromCommand(last) {
        case Some(a) => BilledAppend(OfCommands(rest), [a]);
        case None => BilledAppend(OfCommands(rest), []);
      }
    }
  }

  /** Commands of the kind that an action of this kind bills. */
  predicate BilledAs(cmd: Command, kind: ActionType) {
    match kind
    case ScheduleActivity => cmd.ScheduleActivityTask?
    case StartTimer => cmd.StartTimer?
    case StartChildWorkflow => cmd.StartChildWorkflowExecution?
    case ContinueAsNewWorkflow => cmd.ContinueAsNewWorkflowExecution?
    case SignalExternalWorkflow => cmd.SignalExternalWorkflowExecution?
    case UpsertSearchAttributes => cmd.UpsertWorkflowSearchAttributes?
    case ScheduleNexusOperation => cmd.ScheduleNexusOperation?
    case RequestCancelNexusOperation => cmd.RequestCancelNexusOperation?
    case RecordActivityHeartbeat => false
  }

  /** What one action of a kind counts. */
  function Weight(kind: ActionType): nat {
    if kind.StartChildWorkflow? then 2 else 1
  }

  lemma OneByKind(cmd: Command, kind: ActionType)
    ensures FromCommand(cmd) == Some(Action(kind, Weight(kind))) <==> BilledAs(cmd, kind)
    ensures FromCommand(cmd).Some? ==> FromCommand(cmd).value.count == Weight(FromCommand(cmd).value.kind)
  {
  }

  /** The actions of each kind are as many as the commands of that kind, and each has its weight. */
  lemma {:induction false} ActionsByKind(commands: seq<Command>, kind: ActionType)
    ensures multiset(OfCommands(commands))[Action(kind, Weight(kind))] == Count(commands, (cmd: Command) => BilledAs(cmd, kind))
    ensures forall a :: a in OfCommands(commands) ==> a.count == Weight(a.kind)
  {
    if commands != [] {
      ActionsByKind(commands[..|commands| - 1], kind);
      OneByKind(commands[|commands| - 1], kind);
      hide FromCommand, BilledAs, Weight;
      var rest, last := OfCommands(commands[..|commands| - 1]), FromCommand(commands[|commands| - 1]);
      if last.Some? {
        assert multiset(rest + [last.value]) == multiset(rest) + multiset{last.value};
      } else {
        assert rest + [] == rest;
      }
    }
  }

  /** What requests are billed: a heartbeat once, a completed workflow task for its commands, nothing else. */
  lemma BilledRequests(req: Request)
    ensures req.RecordActivityTaskHeartbeatRequest? ==>
              OfRequest(req) == [Action(RecordActivityHeartbeat, 1)] && Billed(OfRequest(req)) == 1
    ensures req.RespondWorkflowTaskCompletedRequest? ==>
              Billed(OfRequest(req)) == Count(req.commands, Billable) + Count(req.commands, StartsChild)
    ensures !req.RecordActivityTaskHeartbeatRequest? && !req.RespondWorkflowTaskCompletedRequest? ==> Billed(OfRequest(req)) == 0
  {
    if req.RespondWorkflowTaskCompletedRequest? {
      BilledCommands(req.commands);
    }
    if req.RecordActivityTaskHeartbeatRequest? {
      assert [Action(RecordActivityHeartbeat, 1)][1..] == [];
    }
  }

  /** What upstream bills for a request it accepts. */
  function Cost(req: Request): nat {
    Billed(OfRequest(req))
  }
}

/** The action log against what upstream accepted. */
module ProxyLog {
  import opened Actions
  import opened Proxy

  /** The logged actions of one call, in order. */
  function LogOf(log: seq<LogLine>, c: CallId): seq<Action> {
    if log == [] then [] else
    var rest := LogOf(log[..|log| - 1], c);
    var last := log[|log| - 1];
    if last.call == c then rest + [last.action] else rest
  }

  function LoggedTotal(log: seq<LogLine>): nat {
    if log == [] then 0 else LoggedTotal(log[..|log| - 1]) + log[|log| - 1].action.count
  }

  predicate IsDelivered(call: Call) {
    call.phase.Done? && call.phase.outcome.Delivered?
  }

  /** Accepted by upstream, and the reply still on its way. */
  predicate IsPending(call: Call) {
    call.phase.Answered? || call.phase.Registering?
  }

  /** Accepted by upstream, but the reply was withheld. */
  predicate IsWithheld(call: Call) {
    call.phase.Done? && (call.phase.outcome.PutUnavailable? || call.phase.outcome.MissingScope?)
  }

  /** Accepted by upstream, but the answer never came. */
  predicate IsLost(call: Call) {
    call.phase.Done? && call.phase.outcome.UpstreamFailed? && call.phase.outcome.accepted
  }

  predicate WasAccepted(call: Call) {
    IsPending(call) || IsDelivered(call) || IsWithheld(call) || IsLost(call)
  }

  /** The cost of the listed calls that satisfy `p`. */
  function Total(order: seq<CallId>, calls: map<CallId, Call>, p: Call -> bool): nat
    requires forall c :: c in order ==> c in calls
  {
    if order == [] then 0 else
    (if p(calls[order[0]]) then Cost(calls[order[0]].req) else 0) + Total(order[1..], calls, p)
  }

  ghost predicate Lists(order: seq<CallId>, calls: map<CallId, Call>) {
    && (forall c :: c in order <==> c in calls)
    && (forall i, j :: 0 <= i < j < |order| ==> order[i] != order[j])
  }

  // ---------- the log of one call ----------

  lemma {:induction false} LogOfLines(log: seq<LogLine>, c: CallId, actions: seq<Action>, d: CallId)
    ensures LogOf(log + LinesOf(c, actions), d) == if d == c then LogOf(log, d) + actions else LogOf(log, d)
    decreases |actions|
  {
    var all := log + LinesOf(c, actions);
    if actions == [] {
      assert all == log;
      assert LogOf(log, d) + [] == LogOf(log, d);
    } else {
      var n := |actions| - 1;
      assert all[..|all| - 1] == log + LinesOf(c, actions[..n]);
      LogOfLines(log, c, actions[..n], d);
      assert LogOf(log, d) + actions == LogOf(log, d) + actions[..n] + [actions[n]];
    }
  }

  lemma {:induction false} TotalOfLines(log: seq<LogLine>, c: CallId, actions: seq<Action>)
    ensures LoggedTotal(log + LinesOf(c, actions)) == LoggedTotal(log) + Billed(actions)
    decreases |actions|
  {
    var all := log + LinesOf(c, actions);
    if actions == [] {
      assert all == log;
    } else {
      var n := |actions| - 1;
      assert all[..|all| - 1] == log + LinesOf(c, actions[..n]);
      TotalOfLines(log, c, actions[..n]);
      assert actions == actions[..n] + [actions[n]];
      BilledAppend(actions[..n], [actions[n]]);
      assert [actions[n]][1..] == [];
    }
  }

  /** What an event of a call logs and what it has upstream accept, told by the phases of the call. */
  lemma PhasesTell(found: LookupResult, e: Event, x: Call)
    requires !e.Begin? && !e.Lose?
    ensures var y := x.(phase := NextPhase(found, e, x));
      && NewLines(e, x) == (if IsDelivered(y) && !IsDelivered(x) then LinesOf(e.c, OfRequest(x.req)) else [])
      && NewlyAccepted(e, x) == (if WasAccepted(y) && !WasAccepted(x) then Cost(x.req) else 0)
      && (IsDelivered(x) || IsWithheld(x) || IsLost(x) ==> y == x)
      && (IsPending(x) ==> IsPending(y) || IsDelivered(y) || IsWithheld(y))
      && (!WasAccepted(x) ==> !IsDelivered(y) && !IsWithheld(y))
  {
  }

  ghost predicate LoggedIn(log: seq<LogLine>, calls: map<CallId, Call>, c: CallId) {
    LogOf(log, c) == if c in calls && IsDelivered(calls[c]) then OfRequest(calls[c].req) else []
  }

  ghost predicate Logged(st: State, c: CallId) {
    LoggedIn(st.log, st.calls, c)
  }

  ghost predicate LogInv(st: State) {
    forall c :: Logged(st, c)
  }

  lemma LoggedUpdate(log: seq<LogLine>, calls: map<CallId, Call>, c: CallId, y: Call, lines: seq<LogLine>, d: CallId)
    requires LoggedIn(log, calls, d) && c in calls && y.req == calls[c].req
    requires lines == if IsDelivered(y) && !IsDelivered(calls[c]) then LinesOf(c, OfRequest(y.req)) else []
    requires IsDelivered(calls[c]) ==> y == calls[c]
    ensures LoggedIn(log + lines, calls[c := y], d)
  {
    hide LogOf, OfRequest, LinesOf;
    if IsDelivered(y) && !IsDelivered(calls[c]) {
      LogOfLines(log, c, OfRequest(y.req), d);
      assert [] + OfRequest(y.req) == OfRequest(y.req);
    } else {
      assert log + [] == log;
    }
  }

  lemma StepKeepsLogged(st: State, e: Event, d: CallId)
    requires Logged(st, d)
    ensures Logged(Step(st, e), d)
  {
    hide NextPhase, NewLines, LogOf, OfRequest, LinesOf;
    if !e.Begin? && !e.Lose? && e.c in st.calls {
      var x := st.calls[e.c];
      PhasesTell(Found(st.store, e, x), e, x);
      LoggedUpdate(st.log, st.calls, e.c, x.(phase := NextPhase(Found(st.store, e, x), e, x)), NewLines(e, x), d);
    }
  }

  lemma StepKeepsLog(st: State, e: Event)
    requires LogInv(st)
    ensures LogInv(Step(st, e))
  {
    forall d ensures Logged(Step(st, e), d) {
      assert Logged(st, d);
      StepKeepsLogged(st, e, d);
    }
  }

  lemma {:induction false} RunKeepsLog(st: State, events: seq<Event>)
    requires LogInv(st)
    ensures LogInv(Run(st, events))
    decreases |events|
  {
    if events != [] {
      StepKeepsLog(st, events[0]);
      RunKeepsLog(Step(st, events[0]), events[1..]);
    }
  }

  /** In every run the log holds, for each call, all the billable actions of its request in command
      order if its reply was delivered, and nothing otherwise. */
  lemma LogIsExact(events: seq<Event>, c: CallId)
    requires c in Run(INIT, events).calls
    ensures var st := Run(INIT, events);
      LogOf(st.log, c) == if IsDelivered(st.calls[c]) then OfRequest(st.calls[c].req) else []
  {
    RunKeepsLog(INIT, events);
    assert Logged(Run(INIT, events), c);
  }

  // ---------- conservation ----------

  lemma {:induction false} TotalUpdate(order: seq<CallId>, calls: map<CallId, Call>, p: Call -> bool, c: CallId, x: Call)
    requires forall d :: d in order ==> d in calls
    requires forall i, j :: 0 <= i < j < |order| ==> order[i] != order[j]
    requires c in calls && x.req == calls[c].req
    ensures Total(order, calls[c := x], p)
         == Total(order, calls, p)
            + (if c in order && p(x) then Cost(x.req) else 0) - (if c in order && p(calls[c]) then Cost(x.req) else 0)
  {
    if order != [] {
      assert order == [order[0]] + order[1..];
      TotalUpdate(order[1..], calls, p, c, x);
    }
  }

  lemma {:induction false} TotalAppend(order: seq<CallId>, calls: map<CallId, Call>, p: Call -> bool, c: CallId, x: Call)
    requires forall d :: d in order ==> d in calls
    requires c !in calls
    ensures forall d :: d in order + [c] ==> d in calls[c := x]
    ensures Total(order + [c], calls[c := x], p) == Total(order, calls, p) + (if p(x) then Cost(x.req) else 0)
  {
    if order == [] {
      assert [c][1..] == [] && order + [c] == [c];
    } else {
      assert (order + [c])[1..] == order[1..] + [c];
      TotalAppend(order[1..], calls, p, c, x);
    }
  }

  ghost predicate Balanced(st: State) {
    && Lists(st.order, st.calls)
    && LoggedTotal(st.log) == Total(st.order, st.calls, IsDelivered)
    && st.accepted == LoggedTotal(st.log) + Total(st.order, st.calls, IsPending)
                      + Total(st.order, st.calls, IsWithheld) + Total(st.order, st.calls, IsLost)
  }

  function CostIf(call: Call, p: Call -> bool): nat {
    if p(call) then Cost(call.req) else 0
  }

  lemma TotalsAfter(order: seq<CallId>, calls: map<CallId, Call>, c: CallId, x: Call)
    requires Lists(order, calls) && c in calls && x.req == calls[c].req
    ensures var calls' := calls[c := x];
      && Lists(order, calls')
      && Total(order, calls', IsDelivered) + CostIf(calls[c], IsDelivered) == Total(order, calls, IsDelivered) + CostIf(x, IsDelivered)
      && Total(order, calls', IsPending) + CostIf(calls[c], IsPending) == Total(order, calls, IsPending) + CostIf(x, IsPending)
      && Total(order, calls', IsWithheld) + CostIf(calls[c], IsWithheld) == Total(order, calls, IsWithheld) + CostIf(x, IsWithheld)
      && Total(order, calls', IsLost) + CostIf(calls[c], IsLost) == Total(order, calls, IsLost) + CostIf(x, IsLost)
  {
    TotalUpdate(order, calls, IsDelivered, c, x);
    TotalUpdate(order, calls, IsPending, c, x);
    TotalUpdate(order, calls, IsWithheld, c, x);
    TotalUpdate(order, calls, IsLost, c, x);
  }

  lemma BeginKeepsBalance(st: State, c: CallId, x: Call)
    requires Balanced(st) && c !in st.calls && x.phase.Begun?
    ensures Balanced(st.(calls := st.calls[c := x], order := st.order + [c]))
  {
    TotalAppend(st.order, st.calls, IsDelivered, c, x);
    TotalAppend(st.order, st.calls, IsPending, c, x);
    TotalAppend(st.order, st.calls, IsWithheld, c, x);
    TotalAppend(st.order, st.calls, IsLost, c, x);
  }

  lemma CallStepKeepsBalance(st: State, e: Event)
    requires Balanced(st) && !e.Begin? && !e.Lose? && e.c in st.calls
    ensures Balanced(Step(st, e))
  {
    hide NextPhase, NewLines, NewlyAccepted, Total, Lists, LoggedTotal, OfRequest, LinesOf, Billed;
    var x := st.calls[e.c];
    PhasesTell(Found(st.store, e, x), e, x);
    TotalsAfter(st.order, st.calls, e.c, x.(phase := NextPhase(Found(st.store, e, x), e, x)));
    TotalOfLines(st.log, e.c, OfRequest(x.req));
    assert st.log + [] == st.log;
  }

  lemma StepKeepsBalance(st: State, e: Event)
    requires Balanced(st)
    ensures Balanced(Step(st, e))
  {
    if e.Begin? {
      if e.c !in st.calls {
        BeginKeepsBalance(st, e.c, Call(e.rpc, e.req, Begun));
      }
    } else if !e.Lose? && e.c in st.calls {
      CallStepKeepsBalance(st, e);
    }
  }

  lemma {:induction false} RunKeepsBalance(st: State, events: seq<Event>)
    requires Balanced(st)
    ensures Balanced(Run(st, events))
    decreases |events|
  {
    if events != [] {
      StepKeepsBalance(st, events[0]);
      RunKeepsBalance(Step(st, events[0]), events[1..]);
    }
  }

  /** The logged total is the cost of the delivered calls. What upstream accepted exceeds it by exactly
      the cost of the calls still registering tokens, of those whose reply was withheld and of those
      whose answer was lost; so it is a lower bound, and exact when there are none of these. */
  lemma LogIsALowerBound(events: seq<Event>)
    ensures var st := Run(INIT, events);
      && Lists(st.order, st.calls)
      && LoggedTotal(st.log) == Total(st.order, st.calls, IsDelivered)
      && st.accepted == LoggedTotal(st.log) + Total(st.order, st.calls, IsPending)
                        + Total(st.order, st.calls, IsWithheld) + Total(st.order, st.calls, IsLost)
      && ((forall c :: c in st.calls && WasAccepted(st.calls[c]) ==> IsDelivered(st.calls[c])) ==>
            LoggedTotal(st.log) == st.accepted)
  {
    RunKeepsBalance(INIT, events);
    var st := Run(INIT, events);
    if forall c :: c in st.calls && WasAccepted(st.calls[c]) ==> IsDelivered(st.calls[c]) {
      NoneTotal(st.order, st.calls, IsPending);
      NoneTotal(st.order, st.calls, IsWithheld);
      NoneTotal(st.order, st.calls, IsLost);
    }
  }

  lemma {:induction false} NoneTotal(order: seq<CallId>, calls: map<CallId, Call>, p: Call -> bool)
    requires forall c :: c in order ==> c in calls && !p(calls[c])
    ensures Total(order, calls, p) == 0
  {
    if order != [] {
      assert order == [order[0]] + order[1..];
      NoneTotal(order[1..], calls, p);
    }
  }
}

/** The supervisor of a set of child processes: it stops them all when one fails and reports how the
    whole set ended. */
module Supervisor {
  import opened Tokens

  /** A child is known by its position in the list of specs. */
  type Child = nat

  datatype Ending = WithCode(code: int) | BySignal(signal: string)

  datatype Failure =
    | FailedToStart(child: Child, message: string)
    | ExitedUnexpectedly(child: Child, ending: Ending)

  datatype Settlement = Resolve | Reject(failure: Failure)

  datatype Kill = Kill(child: Child, signal: string)

  const SIGTERM := "SIGTERM"

  datatype Event =
    | OnError(child: Child, message: string)
    | OnClose(child: Child, ending: Ending)
    | OnShutdown(signal: string)

  /** `children` in the order they were registered; `kills` and `settled` are the calls made so far to
      `kill` and to the two ends of the completion promise. */
  datatype State = State(
    children: seq<Child>,
    stopping: bool,
    failure: Option<Failure>,
    kills: seq<Kill>,
    settled: seq<Settlement>)

  function FirstN(n: nat): seq<Child> {
    seq(n, i => i)
  }

  function Without(children: seq<Child>, c: Child): seq<Child> {
    if children == [] then [] else
    Without(children[..|children| - 1], c) + (if children[|children| - 1] == c then [] else [children[|children| - 1]])
  }

  function KillAll(children: seq<Child>, signal: string): seq<Kill> {
    seq(|children|, i requires 0 <= i < |children| => Kill(children[i], signal))
  }

  // ---------- one event ----------

  function Finished(st: State): State {
    if st.stopping && st.children == [] then
      st.(settled := st.settled + [if st.failure.None? then Resolve else Reject(st.failure.value)])
    else st
  }

  function Failed(st: State, failure: Failure, exited: Child): State {
    var recorded := st.(failure := if st.failure.None? then Some(failure) else st.failure);
    if st.stopping then recorded
    else recorded.(stopping := true, kills := st.kills + KillAll(Without(st.children, exited), SIGTERM))
  }

  function Step(st: State, e: Event): State {
    match e
    case OnError(c, message) => Failed(st, FailedToStart(c, message), c)
    case OnClose(c, ending) =>
      var left := st.(children := Without(st.children, c));
      Finished(if st.stopping then left else Failed(left, ExitedUnexpectedly(c, ending), c))
    case OnShutdown(signal) =>
      if st.stopping then st
      else Finished(st.(stopping := true, kills := st.kills + KillAll(st.children, signal)))
  }

  function Started(n: nat): State {
    State(FirstN(n), false, None, [], [])
  }

  /** The state after a sequence of events, from `n` children just started. */
  function Run(n: nat, es: seq<Event>): State {
    if es == [] then Started(n) else Step(Run(n, es[..|es| - 1]), es[|es| - 1])
  }

  /** The supervisor itself: the callbacks update its fields. */
  class ChildSupervisor {
    var children: seq<Child>
    var stopping: bool
    var failure: Option<Failure>
    var kills: seq<Kill>
    var settled: seq<Settlement>

    function Now(): State
      reads this
    {
      State(children, stopping, failure, kills, settled)
    }

    constructor (specs: nat)
      requires specs > 0
      ensures Now() == Started(specs)
    {
      children, stopping, failure, kills, settled := [], false, None, [], [];
      new;
      var i := 0;
      while i < specs
        invariant 0 <= i <= specs
        invariant Now() == Started(i)
      {
        children := children + [i];
        i := i + 1;
      }
    }

    method FinishIfStopped()
      modifies this`settled
      ensures Now() == Finished(old(Now()))
    {
      if stopping && |children| == 0 {
        match failure
        case None => settled := settled + [Resolve];
        case Some(error) => settled := settled + [Reject(error)];
      }
    }

    method TerminateChildren(signal: string)
      modifies this`kills
      ensures kills == old(kills) + KillAll(children, signal)
    {
      var i := 0;
      while i < |children|
        invariant 0 <= i <= |children|
        invariant kills == old(kills) + KillAll(children[..i], signal)
      {
        kills := kills + [Kill(children[i], signal)];
        i := i + 1;
      }
      assert children[..i] == children;
    }

    method Fail(error: Failure, exitedChild: Child)
      modifies this`failure, this`stopping, this`kills
      ensures Now() == Failed(old(Now()), error, exitedChild)
    {
      if failure.None? {
        failure := Some(error);
      }
      if !stopping {
        stopping := true;
        var i := 0;
        while i < |children|
          modifies this`kills
          invariant 0 <= i <= |children|
          invariant kills == old(kills) + KillAll(Without(children[..i], exitedChild), SIGTERM)
        {
          assert children[..i + 1][..i] == children[..i];
          if children[i] != exitedChild {
            kills := kills + [Kill(children[i], SIGTERM)];
          }
          i := i + 1;
        }
        assert children[..i] == children;
      }
    }

    method HandleError(child: Child, message: string)
      modifies this
      ensures Now() == Step(old(Now()), OnError(child, message))
    {
      Fail(FailedToStart(child, message), child);
    }

    method HandleClose(child: Child, ending: Ending)
      modifies this
      ensures Now() == Step(old(Now()), OnClose(child, ending))
    {
      children := Without(children, child);
      if !stopping {
        Fail(ExitedUnexpectedly(child, ending), child);
      }
      FinishIfStopped();
    }

    method Shutdown(signal: string)
      modifies this
      ensures Now() == Step(old(Now()), OnShutdown(signal))
    {
      if !stopping {
        stopping := true;
        TerminateChildren(signal);
        FinishIfStopped();
      }
    }
  }

  /** The entry point; it refuses an empty list of specs. */
  method StartChildSupervisor(specs: nat) returns (s: Option<ChildSupervisor>)
    ensures s.None? <==> specs == 0
    ensures s.Some? ==> fresh(s.value) && s.value.Now() == Started(specs)
  {
    if specs == 0 { return None; }
    var supervisor := new ChildSupervisor(specs);
    return Some(supervisor);
  }

  // ---------- what any run comes to ----------

  /** Events of `n` children: each child closes at most once and has its error handler called at most
      once. */
  ghost predicate Deliverable(n: nat, es: seq<Event>) {
    && (forall i :: 0 <= i < |es| && !es[i].OnShutdown? ==> es[i].child < n)
    && (forall i, j :: 0 <= i < j < |es| && es[i].OnClose? && es[j].OnClose? ==> es[i].child != es[j].child)
    && (forall i, j :: 0 <= i < j < |es| && es[i].OnError? && es[j].OnError? ==> es[i].child != es[j].child)
  }

  predicate Closed(es: seq<Event>, c: Child) {
    exists i :: 0 <= i < |es| && es[i].OnClose? && es[i].child == c
  }

  predicate AllClosed(n: nat, es: seq<Event>) {
    forall c: Child :: c < n ==> Closed(es, c)
  }

  /** Event `k` is the close of the last child. */
  ghost predicate LastClose(n: nat, es: seq<Event>, k: nat) {
    k < |es| && AllClosed(n, es[..k + 1]) && !AllClosed(n, es[..k])
  }

  /** The event counts as a failure: an error, or a close before anything made the supervisor stop. */
  predicate IsFailure(es: seq<Event>, i: nat)
    requires i < |es|
  {
    es[i].OnError? || (es[i].OnClose? && i == 0)
  }

  function FailureOf(e: Event): Failure
    requires !e.OnShutdown?
  {
    match e
    case OnError(c, message) => FailedToStart(c, message)
    case OnClose(c, ending) => ExitedUnexpectedly(c, ending)
  }

  /** `f` is what the first failure among the events says, or there is none. */
  ghost predicate FirstFailure(es: seq<Event>, f: Option<Failure>) {
    match f
    case None => forall i :: 0 <= i < |es| ==> !IsFailure(es, i)
    case Some(x) =>
      exists i :: 0 <= i < |es| && IsFailure(es, i) && x == FailureOf(es[i]) && forall j :: 0 <= j < i ==> !IsFailure(es, j)
  }

  /** The signals that a stop caused by `e` sends to `n` children. */
  function StopSignals(n: nat, e: Event): seq<Kill> {
    match e
    case OnShutdown(signal) => KillAll(FirstN(n), signal)
    case OnError(c, _) => KillAll(Without(FirstN(n), c), SIGTERM)
    case OnClose(c, _) => KillAll(Without(FirstN(n), c), SIGTERM)
  }

  lemma {:induction false} WithoutMembers(children: seq<Child>, c: Child)
    ensures forall d :: d in Without(children, c) <==> d in children && d != c
    ensures multiset(Without(children, c)) == multiset(children)[c := 0]
  {
    if children != [] {
      var k := |children| - 1;
      assert children == children[..k] + [children[k]];
      WithoutMembers(children[..k], c);
    }
  }

  lemma {:induction false} WithoutTwice(children: seq<Child>, c: Child)
    ensures Without(Without(children, c), c) == Without(children, c)
  {
    if children != [] {
      var k := |children| - 1;
      WithoutTwice(children[..k], c);
      var w := Without(children[..k], c);
      if children[k] == c {
        assert Without(children, c) == w;
      } else {
        assert Without(children, c) == w + [children[k]];
        assert (w + [children[k]])[..|w|] == w;
      }
    }
  }

  lemma ClosedSnoc(es: seq<Event>, c: Child)
    requires es != []
    ensures var k := |es| - 1;
      Closed(es, c) <==> Closed(es[..k], c) || (es[k].OnClose? && es[k].child == c)
  {
    var k := |es| - 1;
    if Closed(es[..k], c) {
      var i :| 0 <= i < k && es[..k][i].OnClose? && es[..k][i].child == c;
      assert es[i] == es[..k][i];
    }
    if Closed(es, c) {
      var i :| 0 <= i < |es| && es[i].OnClose? && es[i].child == c;
      assert i < k ==> es[..k][i] == es[i];
    }
  }

  lemma ClosesOnce(n: nat, es: seq<Event>)
    requires Deliverable(n, es) && es != [] && es[|es| - 1].OnClose?
    ensures !Closed(es[..|es| - 1], es[|es| - 1].child)
  {
  }

  lemma FirstNMembers(n: nat, c: Child)
    ensures c in FirstN(n) <==> c < n
  {
    if c < n {
      assert FirstN(n)[c] == c;
    }
  }

  /** What an event does to each field, the settlement aside. */
  lemma StepParts(st: State, e: Event)
    ensures var r := Step(st, e);
      && r.children == (if e.OnClose? then Without(st.children, e.child) else st.children)
      && r.stopping
      && r.failure == (if st.failure.None? && (e.OnError? || (e.OnClose? && !st.stopping)) then Some(FailureOf(e)) else st.failure)
      && (st.stopping ==> r.kills == st.kills)
  {
  }

  lemma FirstStop(n: nat, e: Event)
    ensures Step(Started(n), e).kills == StopSignals(n, e)
  {
    if e.OnClose? {
      WithoutTwice(FirstN(n), e.child);
    }
  }

  /** After any events whatever: the children left are those that have not closed, the supervisor is
      stopping as soon as anything has happened, the failure is the first one, and every signal was
      sent at the first event. */
  lemma {:induction false} Anytime(n: nat, es: seq<Event>)
    requires Deliverable(n, es)
    ensures var st := Run(n, es);
      && (forall c: Child :: c in st.children <==> c < n && !Closed(es, c))
      && (st.stopping <==> es != [])
      && FirstFailure(es, st.failure)
      && st.kills == (if es == [] then [] else StopSignals(n, es[0]))
  {
    if es == [] {
      forall c: Child ensures c in FirstN(n) <==> c < n {
        FirstNMembers(n, c);
      }
    } else {
      hide Step, StopSignals, FirstFailure, Closed;
      var k := |es| - 1;
      var before, e, st := es[..k], es[k], Run(n, es[..k]);
      Anytime(n, before);
      StepParts(st, e);
      FirstFailureGrows(es, st.failure, Run(n, es).failure);
      forall c: Child ensures c in Run(n, es).children <==> c < n && !Closed(es, c) {
        ClosedSnoc(es, c);
        WithoutMembers(st.children, c);
        if e.OnClose? {
          WithoutMembers(st.children, e.child);
        }
      }
      if before == [] {
        FirstStop(n, e);
      } else {
        assert es[0] == before[0];
      }
    }
  }

  lemma FirstFailureGrows(es: seq<Event>, before: Option<Failure>, after: Option<Failure>)
    requires es != []
    requires FirstFailure(es[..|es| - 1], before)
    requires after == if before.None? && IsFailure(es, |es| - 1) then Some(FailureOf(es[|es| - 1])) else before
    ensures FirstFailure(es, after)
  {
    var k := |es| - 1;
    forall i | 0 <= i < k ensures IsFailure(es, i) <==> IsFailure(es[..k], i) {
    }
    if before.Some? {
      var i :| 0 <= i < k && IsFailure(es[..k], i) && before.value == FailureOf(es[..k][i])
               && forall j :: 0 <= j < i ==> !IsFailure(es[..k], j);
      assert IsFailure(es, i) && before.value == FailureOf(es[i]);
    } else if IsFailure(es, k) {
      assert after.value == FailureOf(es[k]);
    }
  }

  lemma NoneLeftIffAllClosed(n: nat, es: seq<Event>)
    requires Deliverable(n, es)
    ensures Run(n, es).children == [] <==> AllClosed(n, es)
  {
    Anytime(n, es);
    var left := Run(n, es).children;
    if left == [] {
      forall c: Child | c < n ensures Closed(es, c) {
        assert c !in left;
      }
    } else {
      assert left[0] in left;
      assert !Closed(es, left[0]);
    }
  }

  /** Who has closed stays closed, and only a close event closes the last child. */
  lemma ClosedGrows(n: nat, es: seq<Event>)
    requires es != []
    ensures var k := |es| - 1;
      (AllClosed(n, es[..k]) ==> AllClosed(n, es)) && (LastClose(n, es, k) ==> es[k].OnClose?)
  {
    hide Closed;
    var k := |es| - 1;
    assert es[..k + 1] == es;
    forall c: Child ensures Closed(es, c) <==> Closed(es[..k], c) || (es[k].OnClose? && es[k].child == c) {
      ClosedSnoc(es, c);
    }
  }

  lemma NothingClosed(c: Child)
    ensures !Closed([], c)
  {
  }

  function Verdict(failure: Option<Failure>): Settlement {
    if failure.None? then Resolve else Reject(failure.value)
  }

  lemma StepSettles(st: State, e: Event)
    ensures var r := Step(st, e);
      r.settled == st.settled
        + (if r.children == [] && (e.OnClose? || (e.OnShutdown? && !st.stopping)) then [Verdict(r.failure)] else [])
  {
  }

  /** Only the close of the last child settles the completion. */
  lemma SettledByLastClose(n: nat, es: seq<Event>)
    requires n > 0 && es != [] && Deliverable(n, es)
    ensures var k := |es| - 1;
      Run(n, es).settled == Run(n, es[..k]).settled
        + (if LastClose(n, es, k) then [Verdict(Run(n, es).failure)] else [])
  {
    var k := |es| - 1;
    var before, e := es[..k], es[k];
    assert es[..k + 1] == es;
    StepSettles(Run(n, before), e);
    hide Step, Closed, FirstFailure, StopSignals;
    NoneLeftIffAllClosed(n, before);
    NoneLeftIffAllClosed(n, es);
    Anytime(n, before);
    ClosedGrows(n, es);
    if e.OnClose? {
      ClosesOnce(n, es);
    } else if before == [] {
      NothingClosed(0);
    }
  }

  /** The supervisor settled its completion once, at event `k`, which closed the last child. */
  ghost predicate SettledAt(n: nat, es: seq<Event>, k: nat) {
    LastClose(n, es, k) && Run(n, es).settled == [Verdict(Run(n, es[..k + 1]).failure)]
  }

  lemma StaysSettled(n: nat, es: seq<Event>, k: nat)
    requires n > 0 && es != [] && Deliverable(n, es)
    requires SettledAt(n, es[..|es| - 1], k)
    ensures SettledAt(n, es, k)
  {
    hide Run, Closed, Deliverable, AllClosed;
    var m := |es| - 1;
    var before := es[..m];
    assert before[..k + 1] == es[..k + 1] && before[..k] == es[..k];
    SettledByLastClose(n, es);
    AllClosedStays(n, es[..m], k + 1);
  }

  lemma AllClosedStays(n: nat, es: seq<Event>, k: nat)
    requires k <= |es| && AllClosed(n, es[..k])
    ensures AllClosed(n, es)
  {
    forall c: Child | c < n ensures Closed(es, c) {
      assert Closed(es[..k], c);
      var i :| 0 <= i < k && es[..k][i].OnClose? && es[..k][i].child == c;
      assert es[i] == es[..k][i];
    }
  }

  /** Until the last child has closed the completion is pending; from that close on it is settled,
      exactly once. */
  lemma {:induction false} SettlesOnce(n: nat, es: seq<Event>)
    requires n > 0 && Deliverable(n, es)
    ensures !AllClosed(n, es) ==> Run(n, es).settled == []
    ensures AllClosed(n, es) ==> exists k: nat :: SettledAt(n, es, k)
  {
    if es == [] {
      assert !Closed(es, 0);
    } else {
      hide Closed, Step, Finished, Failed, SettledAt;
      var m := |es| - 1;
      assert es[..m + 1] == es;
      SettlesOnce(n, es[..m]);
      SettledByLastClose(n, es);
      ClosedGrows(n, es);
      if AllClosed(n, es[..m]) {
        var k: nat :| SettledAt(n, es[..m], k);
        StaysSettled(n, es, k);
      } else if AllClosed(n, es) {
        SettledNow(n, es);
      }
    }
  }

  lemma SettledNow(n: nat, es: seq<Event>)
    requires n > 0 && es != [] && Deliverable(n, es)
    requires Run(n, es[..|es| - 1]).settled == [] && !AllClosed(n, es[..|es| - 1]) && AllClosed(n, es)
    ensures SettledAt(n, es, |es| - 1)
  {
    hide Run, Closed, Deliverable, AllClosed;
    assert es[..|es| - 1 + 1] == es;
    SettledByLastClose(n, es);
  }

  /** Up to event `k` there was an error, or a close while the supervisor was not stopping. */
  ghost predicate SomethingFailed(n: nat, es: seq<Event>, k: nat)
    requires k < |es|
  {
    exists i :: 0 <= i <= k && (es[i].OnError? || (es[i].OnClose? && !Run(n, es[..i]).stopping))
  }

  lemma FailureRecorded(n: nat, es: seq<Event>, k: nat)
    requires k < |es| && Deliverable(n, es)
    ensures FirstFailure(es[..k + 1], Run(n, es[..k + 1]).failure)
    ensures Run(n, es[..k + 1]).failure.Some? <==> SomethingFailed(n, es, k)
  {
    hide Run, StopSignals;
    var upTo := es[..k + 1];
    Anytime(n, upTo);
    forall i | 0 <= i <= k
      ensures IsFailure(upTo, i) <==> es[i].OnError? || (es[i].OnClose? && !Run(n, es[..i]).stopping)
    {
      Anytime(n, es[..i]);
    }
    var failed := SomethingFailed(n, es, k);
    match Run(n, upTo).failure {
      case Some(f) =>
        var i :| 0 <= i < |upTo| && IsFailure(upTo, i) && f == FailureOf(upTo[i]);
        assert failed;
      case None =>
        assert forall i :: 0 <= i <= k ==> !IsFailure(upTo, i);
    }
  }

  /** How the completion ends: let `k` be the close of the last child. It rejects if an error came
      before that close or some close came before the supervisor was stopping, and then with the first
      such failure; otherwise it resolves. Nothing after `k` changes that. */
  lemma Completion(n: nat, es: seq<Event>, k: nat)
    requires n > 0 && Deliverable(n, es) && LastClose(n, es, k)
    ensures exists f ::
      FirstFailure(es[..k + 1], f) && (f.Some? <==> SomethingFailed(n, es, k)) && Run(n, es).settled == [Verdict(f)]
  {
    hide Run, AllClosed, FirstFailure, SomethingFailed, Deliverable;
    AllClosedStays(n, es, k + 1);
    SettlesOnce(n, es);
    var last: nat :| SettledAt(n, es, last);
    OneLastClose(n, es, k, last);
    FailureRecorded(n, es, k);
    assert Run(n, es).settled == [Verdict(Run(n, es[..k + 1]).failure)];
  }

  lemma OneLastClose(n: nat, es: seq<Event>, k: nat, k': nat)
    requires LastClose(n, es, k) && LastClose(n, es, k')
    ensures k == k'
  {
    if k < k' {
      assert es[..k'][..k + 1] == es[..k + 1];
      AllClosedStays(n, es[..k'], k + 1);
    } else if k' < k {
      assert es[..k][..k' + 1] == es[..k' + 1];
      AllClosedStays(n, es[..k], k' + 1);
    }
  }

  /** The stop sends one signal to each registered child, except the one that failed: its own signal
      for a shutdown, SIGTERM for a failure. Whatever happens later, no other signal is sent. */
  lemma SignalsOnce(n: nat, es: seq<Event>, c: Child)
    requires es != [] && Deliverable(n, es)
    ensures var signal := if es[0].OnShutdown? then es[0].signal else SIGTERM;
      forall x :: x in Run(n, es).kills ==> x.signal == signal && x.child < n
    ensures var signal := if es[0].OnShutdown? then es[0].signal else SIGTERM;
      multiset(Run(n, es).kills)[Kill(c, signal)]
        == if c < n && (es[0].OnShutdown? || c != es[0].child) then 1 else 0
  {
    Anytime(n, es);
    var told := if es[0].OnShutdown? then FirstN(n) else Without(FirstN(n), es[0].child);
    if !es[0].OnShutdown? {
      WithoutMembers(FirstN(n), es[0].child);
    }
    forall d: Child ensures d in told ==> d < n {
      FirstNMembers(n, d);
    }
    var signal := if es[0].OnShutdown? then es[0].signal else SIGTERM;
    FirstNCount(n, c);
    KillCount(told, signal, c);
  }

  lemma {:induction false} FirstNCount(n: nat, c: Child)
    ensures multiset(FirstN(n))[c] == if c < n then 1 else 0
  {
    if n > 0 {
      assert FirstN(n) == FirstN(n - 1) + [n - 1];
      FirstNCount(n - 1, c);
    }
  }

  lemma {:induction false} KillCount(children: seq<Child>, signal: string, c: Child)
    ensures multiset(KillAll(children, signal))[Kill(c, signal)] == multiset(children)[c]
    ensures forall x :: x in KillAll(children, signal) ==> x.signal == signal && x.child in children
  {
    if children != [] {
      var k := |children| - 1;
      assert children == children[..k] + [children[k]];
      assert KillAll(children, signal) == KillAll(children[..k], signal) + [Kill(children[k], signal)];
      KillCount(children[..k], signal, c);
    }
  }
}

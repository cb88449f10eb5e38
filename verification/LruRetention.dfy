/** How long a token stays: exactly until its deadline passes, it is deleted, or at some moment as
    many other keys as the shard holds have been touched since and not deleted again. */
module LruRetention {
  import opened Tokens
  import opened Lru

  /** The slots in front of key `k`. */
  function Ahead(s: seq<Slot>, k: Token): seq<Slot> {
    if s == [] || s[0].key == k then [] else [s[0]] + Ahead(s[1..], k)
  }

  function KeysOf(s: seq<Slot>): set<Token> {
    set x | x in s :: x.key
  }

  predicate Names(op: Op, k: Token) {
    !op.SweepOp? && op.key == k
  }

  /** The keys touched (put, or hit by a lookup) and not deleted since, one operation further on. */
  function Touched(others: set<Token>, op: Op, reply: Option<Entry>): set<Token> {
    match op
    case PutOp(j, _, _) => others + {j}
    case GetOp(j, _, _) => if reply.Some? then others + {j} else others
    case DeleteOp(j) => others - {j}
    case SweepOp(_, _) => others
  }

  /** The largest number of such keys at any moment of the run. */
  function Pressure(others: set<Token>, s: seq<Slot>, cfg: Config, ops: seq<Op>): nat
    decreases |ops|
  {
    if ops == [] then |others| else
    var (s', reply) := Do(s, cfg, ops[0]);
    var rest := Pressure(Touched(others, ops[0], reply), s', cfg, ops[1..]);
    if rest < |others| then |others| else rest
  }

  // ---------- the slots in front ----------

  lemma {:induction false} AheadMember(s: seq<Slot>, k: Token)
    requires Sorted(s) && Distinct(s) && Find(s, k).Some?
    ensures |Ahead(s, k)| < |s| && Ahead(s, k) == s[..|Ahead(s, k)|] && s[|Ahead(s, k)|] == Find(s, k).value
    ensures forall y :: y in Ahead(s, k) ==> y in s && y.key != k && Find(s, k).value.deadline <= y.deadline
  {
    if s[0].key != k {
      AheadMember(s[1..], k);
      var n := |Ahead(s[1..], k)|;
      assert s[..n + 1] == [s[0]] + s[1..][..n];
      assert s[n + 1] == s[1..][n];
      FindMember(s[1..], k);
    }
  }

  lemma {:induction false} AheadFilter(s: seq<Slot>, k: Token, keep: Slot -> bool)
    requires Distinct(s) && Find(s, k).Some? && keep(Find(s, k).value)
    ensures Ahead(Filter(s, keep), k) == Filter(Ahead(s, k), keep)
  {
    if s[0].key != k {
      AheadFilter(s[1..], k, keep);
      if keep(s[0]) {
        assert Filter(s, keep)[1..] == Filter(s[1..], keep);
      }
    }
  }

  lemma {:induction false} DistinctCount(s: seq<Slot>)
    requires Distinct(s)
    ensures |KeysOf(s)| == |s|
  {
    if s != [] {
      DistinctCount(s[1..]);
      assert s == [s[0]] + s[1..];
      assert KeysOf(s) == KeysOf(s[1..]) + {s[0].key};
    }
  }

  lemma {:induction false} FindPrefix(s: seq<Slot>, k: Token, n: nat)
    requires Distinct(s) && Find(s, k).Some? && n <= |s|
    ensures Find(s[..n], k) == if |Ahead(s, k)| < n then Find(s, k) else None
    ensures |Ahead(s, k)| < n ==> Ahead(s[..n], k) == Ahead(s, k)
  {
    if n > 0 {
      assert s[..n][1..] == s[1..][..n - 1];
      if s[0].key != k {
        FindPrefix(s[1..], k, n - 1);
      }
    }
  }

  // ---------- one operation on another key ----------

  /** `x` is the slot of `k`, and `others` are the keys in front of it. */
  ghost predicate Holds(s: seq<Slot>, k: Token, x: Slot, others: set<Token>) {
    Find(s, k) == Some(x) && KeysOf(Ahead(s, k)) == others
  }

  lemma KeysWithout(s: seq<Slot>, j: Token)
    ensures KeysOf(Without(s, j)) == KeysOf(s) - {j}
  {
    FilterMember(s, OtherThan(j));
  }

  lemma HoldsWithout(s: seq<Slot>, k: Token, x: Slot, others: set<Token>, j: Token)
    requires Distinct(s) && Holds(s, k, x, others) && j != k
    ensures Holds(Without(s, j), k, x, others - {j})
  {
    FindMember(s, k);
    FindFilter(s, k, OtherThan(j));
    AheadFilter(s, k, OtherThan(j));
    KeysWithout(Ahead(s, k), j);
  }

  lemma HoldsFront(s: seq<Slot>, k: Token, x: Slot, others: set<Token>, y: Slot)
    requires Distinct(s) && Holds(s, k, x, others) && y.key != k
    ensures Holds([y] + Without(s, y.key), k, x, others + {y.key})
  {
    HoldsWithout(s, k, x, others, y.key);
    var rest := Without(s, y.key);
    assert ([y] + rest)[1..] == rest;
    assert KeysOf([y] + Ahead(rest, k)) == {y.key} + KeysOf(Ahead(rest, k));
  }

  lemma HoldsTruncate(s: seq<Slot>, k: Token, x: Slot, others: set<Token>, cap: int)
    requires Distinct(s) && Sorted(s) && Holds(s, k, x, others)
    ensures Retained(Truncate(s, cap), k, x, others, cap)
  {
    AheadMember(s, k);
    PrefixKeepsOrder(s, |Ahead(s, k)|);
    DistinctCount(Ahead(s, k));
    if 0 < cap < |s| {
      FindPrefix(s, k, cap);
    }
  }

  lemma HoldsSweep(s: seq<Slot>, k: Token, x: Slot, others: set<Token>, now: int)
    requires Distinct(s) && Sorted(s) && Holds(s, k, x, others) && now <= x.deadline
    ensures Holds(Sweep(s, now), k, x, others)
  {
    AheadMember(s, k);
    FindFilter(s, k, LiveAt(now));
    AheadFilter(s, k, LiveAt(now));
    FilterAll(Ahead(s, k), LiveAt(now));
  }

  lemma AheadCount(s: seq<Slot>, cfg: Config, clock: int, k: Token, x: Slot, others: set<Token>)
    requires Inv(s, cfg, clock) && Holds(s, k, x, others)
    ensures cfg.cap <= 0 || |others| < cfg.cap
  {
    AheadMember(s, k);
    PrefixKeepsOrder(s, |Ahead(s, k)|);
    DistinctCount(Ahead(s, k));
  }

  lemma FrontAhead(s: seq<Slot>, k: Token, x: Slot, others: set<Token>, j: Token)
    requires Distinct(s) && Sorted(s) && Holds(s, k, x, others)
    ensures j in others ==> Find(s, j).Some? && x.deadline <= Find(s, j).value.deadline
  {
    AheadMember(s, k);
    FindMember(s, j);
  }

  /** `k` still holds its slot behind `others`, or those are as many as the shard holds and it is gone. */
  ghost predicate Retained(s: seq<Slot>, k: Token, x: Slot, others: set<Token>, cap: int) {
    if cap <= 0 || |others| < cap then Holds(s, k, x, others) else Find(s, k).None?
  }

  lemma RetainedPut(s: seq<Slot>, cfg: Config, clock: int, k: Token, x: Slot, others: set<Token>, y: Slot, now: int)
    requires Inv(s, cfg, clock) && clock <= now && y.deadline == now + cfg.ttl
    requires Holds(s, k, x, others) && y.key != k
    ensures Retained(Put(s, cfg.cap, y), k, x, others + {y.key}, cfg.cap)
  {
    HoldsFront(s, k, x, others, y);
    ToFrontKeepsInv(s, cfg, y, clock, now);
    HoldsTruncate([y] + Without(s, y.key), k, x, others + {y.key}, cfg.cap);
  }

  lemma HoldsGet(s: seq<Slot>, cfg: Config, clock: int, k: Token, x: Slot, others: set<Token>, op: Op)
    requires Inv(s, cfg, clock) && OpTimed(op, clock) && Holds(s, k, x, others)
    requires op.GetOp? && op.key != k && op.refresh <= x.deadline
    ensures Holds(Do(s, cfg, op).0, k, x, Touched(others, op, Do(s, cfg, op).1))
  {
    var j := op.key;
    FrontAhead(s, k, x, others, j);
    match Find(s, j)
    case None =>
    case Some(y) =>
      FindMember(s, j);
      if op.check <= y.deadline {
        HoldsFront(s, k, x, others, y.(deadline := op.refresh + cfg.ttl));
      } else {
        HoldsWithout(s, k, x, others, j);
        assert others - {j} == others;
      }
  }

  lemma RetainedHolds(s: seq<Slot>, cfg: Config, clock: int, k: Token, x: Slot, others: set<Token>)
    requires Inv(s, cfg, clock) && Holds(s, k, x, others)
    ensures Retained(s, k, x, others, cfg.cap)
  {
    AheadCount(s, cfg, clock, k, x, others);
  }

  lemma HoldsOther(s: seq<Slot>, cfg: Config, clock: int, k: Token, x: Slot, others: set<Token>, op: Op)
    requires Inv(s, cfg, clock) && OpTimed(op, clock) && Holds(s, k, x, others)
    requires !op.PutOp? && !Names(op, k) && After(op, clock) <= x.deadline
    ensures Holds(Do(s, cfg, op).0, k, x, Touched(others, op, Do(s, cfg, op).1))
  {
    match op
    case GetOp(_, _, _) => HoldsGet(s, cfg, clock, k, x, others, op);
    case DeleteOp(j) => HoldsWithout(s, k, x, others, j);
    case SweepOp(now, _) => HoldsSweep(s, k, x, others, now);
  }

  /** While `k` is live, an operation on another key updates the keys in front of it exactly as
      `Touched` says, and drops it exactly when they become as many as the shard holds. */
  lemma HoldsStep(s: seq<Slot>, cfg: Config, clock: int, k: Token, x: Slot, others: set<Token>, op: Op)
    requires Inv(s, cfg, clock) && OpTimed(op, clock) && Holds(s, k, x, others)
    requires !Names(op, k) && After(op, clock) <= x.deadline
    ensures Retained(Do(s, cfg, op).0, k, x, Touched(others, op, Do(s, cfg, op).1), cfg.cap)
  {
    hide Inv, Holds, Retained;
    if op.PutOp? {
      RetainedPut(s, cfg, clock, k, x, others, Slot(op.key, op.entry, op.now + cfg.ttl), op.now);
    } else {
      HoldsOther(s, cfg, clock, k, x, others, op);
      DoKeepsInv(s, cfg, clock, op);
      RetainedHolds(Do(s, cfg, op).0, cfg, After(op, clock), k, x, Touched(others, op, Do(s, cfg, op).1));
    }
  }

  lemma AbsentStep(s: seq<Slot>, cfg: Config, clock: int, k: Token, op: Op)
    requires Inv(s, cfg, clock) && OpTimed(op, clock) && Find(s, k).None? && !Names(op, k)
    ensures Find(Do(s, cfg, op).0, k).None?
  {
    FindMember(s, k);
    var s' := Do(s, cfg, op).0;
    FindMember(s', k);
    match op
    case PutOp(j, _, _) => WithoutMember(s, j);
    case GetOp(j, _, _) => WithoutMember(s, j); FindMember(s, j);
    case DeleteOp(j) => WithoutMember(s, j);
    case SweepOp(now, _) => FilterMember(s, LiveAt(now));
  }

  lemma {:induction false} AbsentStays(s: seq<Slot>, cfg: Config, clock: int, k: Token, ops: seq<Op>)
    requires Inv(s, cfg, clock) && Timed(ops, clock) && Find(s, k).None?
    requires forall op :: op in ops ==> !Names(op, k)
    ensures Find(Run(s, cfg, ops).0, k).None?
    decreases |ops|
  {
    if ops != [] {
      AbsentStep(s, cfg, clock, k, ops[0]);
      DoKeepsInv(s, cfg, clock, ops[0]);
      AbsentStays(Do(s, cfg, ops[0]).0, cfg, After(ops[0], clock), k, ops[1..]);
    }
  }

  lemma {:induction false} ClockAdvances(ops: seq<Op>, clock: int)
    requires Timed(ops, clock)
    ensures clock <= Clock(ops, clock)
  {
    if ops != [] {
      ClockAdvances(ops[1..], After(ops[0], clock));
    }
  }

  lemma {:induction false} RetentionFrom(s: seq<Slot>, cfg: Config, clock: int, k: Token, x: Slot, others: set<Token>, ops: seq<Op>)
    requires Inv(s, cfg, clock) && Timed(ops, clock) && Holds(s, k, x, others)
    requires Clock(ops, clock) <= x.deadline
    requires forall op :: op in ops ==> !Names(op, k)
    ensures Find(Run(s, cfg, ops).0, k)
         == if cfg.cap <= 0 || Pressure(others, s, cfg, ops) < cfg.cap then Some(x) else None
    decreases |ops|
  {
    AheadCount(s, cfg, clock, k, x, others);
    if ops != [] {
      var (s', reply) := Do(s, cfg, ops[0]);
      var others' := Touched(others, ops[0], reply);
      ClockAdvances(ops[1..], After(ops[0], clock));
      HoldsStep(s, cfg, clock, k, x, others, ops[0]);
      DoKeepsInv(s, cfg, clock, ops[0]);
      if cfg.cap <= 0 || |others'| < cfg.cap {
        RetentionFrom(s', cfg, After(ops[0], clock), k, x, others', ops[1..]);
      } else {
        AbsentStays(s', cfg, After(ops[0], clock), k, ops[1..]);
        PressureAtLeast(others', s', cfg, ops[1..]);
      }
    }
  }

  lemma PressureAtLeast(others: set<Token>, s: seq<Slot>, cfg: Config, ops: seq<Op>)
    ensures |others| <= Pressure(others, s, cfg, ops)
  {
  }

  /** Exact retention. Just after `k` was touched (it stands in front), let any operations on other
      keys and any sweeps happen. A lookup made no later than the deadline of that touch hits, with
      the entry as it was, if and only if at no moment `cap` other keys had been touched since and
      not been deleted again. */
  lemma {:induction false} RetentionExact(s: seq<Slot>, cfg: Config, clock: int, ops: seq<Op>, check: int, refresh: int)
    requires Inv(s, cfg, clock) && s != [] && Timed(ops, clock)
    requires forall op :: op in ops ==> !Names(op, s[0].key)
    requires Clock(ops, clock) <= check <= refresh && check <= s[0].deadline
    ensures var get := GetOp(s[0].key, check, refresh);
      Do(Run(s, cfg, ops).0, cfg, get).1
      == if cfg.cap <= 0 || Pressure({}, s, cfg, ops) < cfg.cap then Some(s[0].entry) else None
  {
    assert Holds(s, s[0].key, s[0], {});
    RetentionFrom(s, cfg, clock, s[0].key, s[0], {}, ops);
  }

  // ---------- what a caller can check beforehand ----------

  function KeysNamed(ops: seq<Op>): set<Token> {
    set op | op in ops && (op.PutOp? || op.GetOp?) :: op.key
  }

  lemma {:induction false} PressureAtMost(others: set<Token>, s: seq<Slot>, cfg: Config, ops: seq<Op>, all: set<Token>)
    requires others <= all && KeysNamed(ops) <= all
    ensures Pressure(others, s, cfg, ops) <= |all|
    decreases |ops|
  {
    SubsetSize(others, all);
    if ops != [] {
      var (s', reply) := Do(s, cfg, ops[0]);
      assert ops[0] in ops;
      assert forall op :: op in ops[1..] ==> op in ops;
      assert ops[0].PutOp? || ops[0].GetOp? ==> ops[0].key in KeysNamed(ops);
      PressureAtMost(Touched(others, ops[0], reply), s', cfg, ops[1..], all);
    }
  }

  lemma {:induction false} SubsetSize(a: set<Token>, b: set<Token>)
    requires a <= b
    ensures |a| <= |b|
  {
    if a != {} {
      var x :| x in a;
      SubsetSize(a - {x}, b - {x});
    }
  }

  /** The retention guarantee: within `ttl` of its last touch a token not deleted since still hits
      unless at least `cap` distinct other keys were put or looked up in between. */
  lemma RetentionGuarantee(s: seq<Slot>, cfg: Config, clock: int, ops: seq<Op>, check: int, refresh: int)
    requires Inv(s, cfg, clock) && s != [] && Timed(ops, clock)
    requires forall op :: op in ops ==> !Names(op, s[0].key)
    requires Clock(ops, clock) <= check <= refresh && check <= s[0].deadline
    requires cfg.cap <= 0 || |KeysNamed(ops)| < cfg.cap
    ensures Do(Run(s, cfg, ops).0, cfg, GetOp(s[0].key, check, refresh)).1 == Some(s[0].entry)
  {
    RetentionExact(s, cfg, clock, ops, check, refresh);
    PressureAtMost({}, s, cfg, ops, KeysNamed(ops));
  }

  // ---------- heartbeats ----------

  /** From a touch of `k` with deadline `deadline` on: `k` is never deleted or given another entry,
      the clock never passes its deadline without a new touch, and between two touches fewer than
      `cap` distinct other keys are put or looked up. */
  predicate Attended(ops: seq<Op>, clock: int, cfg: Config, k: Token, e: Entry, deadline: int, others: set<Token>) {
    ops == [] ||
    var op := ops[0];
    var now := After(op, clock);
    if Names(op, k) then
      match op
      case PutOp(_, e', _) => e' == e && Attended(ops[1..], now, cfg, k, e, now + cfg.ttl, {})
      case GetOp(_, check, _) => check <= deadline && Attended(ops[1..], now, cfg, k, e, now + cfg.ttl, {})
      case _ => false
    else
      var others' := if op.PutOp? || op.GetOp? then others + {op.key} else others;
      && now <= deadline
      && (cfg.cap <= 0 || |others'| < cfg.cap)
      && Attended(ops[1..], now, cfg, k, e, deadline, others')
  }

  lemma OwnTouch(s: seq<Slot>, cfg: Config, clock: int, op: Op, k: Token, x: Slot)
    requires Inv(s, cfg, clock) && OpTimed(op, clock) && Find(s, k) == Some(x) && Names(op, k)
    requires (op.PutOp? && op.entry == x.entry) || (op.GetOp? && op.check <= x.deadline)
    ensures Holds(Do(s, cfg, op).0, k, x.(deadline := After(op, clock) + cfg.ttl), {})
    ensures op.GetOp? ==> Do(s, cfg, op).1 == Some(x.entry)
  {
    FindMember(s, k);
    var all := [x.(deadline := After(op, clock) + cfg.ttl)] + Without(s, k);
    assert 0 < cfg.cap < |all| ==> all[..cfg.cap][0] == all[0];
  }

  lemma {:induction false} HeartbeatsFrom(s: seq<Slot>, cfg: Config, clock: int, ops: seq<Op>, k: Token, x: Slot,
                                          ahead: set<Token>, others: set<Token>)
    requires Inv(s, cfg, clock) && Timed(ops, clock) && Holds(s, k, x, ahead) && ahead <= others
    requires Attended(ops, clock, cfg, k, x.entry, x.deadline, others)
    ensures forall i :: 0 <= i < |ops| && ops[i].GetOp? && ops[i].key == k ==> Run(s, cfg, ops).1[i] == Some(x.entry)
    ensures Find(Run(s, cfg, ops).0, k).Some? && Find(Run(s, cfg, ops).0, k).value.entry == x.entry
    decreases |ops|
  {
    assert Find(s, k) == Some(x);
    hide Inv, Holds, Do, Find;
    if ops != [] {
      var op := ops[0];
      var now := After(op, clock);
      var (s', reply) := Do(s, cfg, op);
      DoKeepsInv(s, cfg, clock, op);
      if Names(op, k) {
        OwnTouch(s, cfg, clock, op, k, x);
        HeartbeatsFrom(s', cfg, now, ops[1..], k, x.(deadline := now + cfg.ttl), {}, {});
      } else {
        var others' := if op.PutOp? || op.GetOp? then others + {op.key} else others;
        var ahead' := Touched(ahead, op, reply);
        HoldsStep(s, cfg, clock, k, x, ahead, op);
        SubsetSize(ahead', others');
        assert Holds(s', k, x, ahead');
        HeartbeatsFrom(s', cfg, now, ops[1..], k, x, ahead', others');
      }
    }
  }

  /** Heartbeats spaced at most `ttl` apart keep a token alive for ever below that pressure: every
      lookup of it in the whole trace hits, with the entry it was issued with. */
  lemma HeartbeatsKeepAlive(s: seq<Slot>, cfg: Config, clock: int, ops: seq<Op>)
    requires Inv(s, cfg, clock) && s != [] && Timed(ops, clock)
    requires Attended(ops, clock, cfg, s[0].key, s[0].entry, s[0].deadline, {})
    ensures forall i :: 0 <= i < |ops| && ops[i].GetOp? && ops[i].key == s[0].key
              ==> Run(s, cfg, ops).1[i] == Some(s[0].entry)
  {
    assert Holds(s, s[0].key, s[0], {});
    HeartbeatsFrom(s, cfg, clock, ops, s[0].key, s[0], {}, {});
  }
}

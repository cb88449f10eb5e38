/** Sweeping is invisible: a shard answers like a bounded list that drops expired slots at once. */
module LruSweep {
  import opened Tokens
  import opened Lru
  import opened LruOrder

  /** The reference: before each operation every slot expired at that moment is dropped, and the
      background sweep does not exist. */
  function DoIdeal(s: seq<Slot>, cfg: Config, op: Op): (seq<Slot>, Option<Entry>) {
    match op
    case PutOp(_, _, now) => Do(Sweep(s, now), cfg, op)
    case GetOp(_, check, _) => Do(Sweep(s, check), cfg, op)
    case DeleteOp(_) => Do(s, cfg, op)
    case SweepOp(_, _) => (s, None)
  }

  function RunIdeal(s: seq<Slot>, cfg: Config, ops: seq<Op>): (r: (seq<Slot>, seq<Option<Entry>>))
    ensures |r.1| == |ops|
    decreases |ops|
  {
    if ops == [] then (s, []) else
    var (s1, reply) := DoIdeal(s, cfg, ops[0]);
    var (s2, replies) := RunIdeal(s1, cfg, ops[1..]);
    (s2, [reply] + replies)
  }

  /** Same live slots in the same order, at this moment and at every later one. */
  ghost predicate SameLive(s: seq<Slot>, t: seq<Slot>, clock: int) {
    Sweep(s, clock) == Sweep(t, clock)
  }

  lemma SameLiveLater(s: seq<Slot>, t: seq<Slot>, clock: int, later: int)
    requires SameLive(s, t, clock) && clock <= later
    ensures SameLive(s, t, later)
  {
    FilterStronger(s, LiveAt(clock), LiveAt(later));
    FilterStronger(t, LiveAt(clock), LiveAt(later));
  }

  /** Dropping what is already expired does not change the live slots. */
  lemma StaleSweep(s: seq<Slot>, now: int, clock: int)
    requires now <= clock
    ensures SameLive(Sweep(s, now), s, clock)
  {
    FilterStronger(s, LiveAt(now), LiveAt(clock));
  }

  lemma SweepTruncate(s: seq<Slot>, cap: int, now: int)
    requires Sorted(s)
    ensures Sweep(Truncate(s, cap), now) == Truncate(Sweep(s, now), cap)
  {
    hide Sweep, Sorted;
    SweepIsPrefix(s, now);
    var n := |Sweep(s, now)|;
    if 0 < cap < |s| {
      PrefixKeepsOrder(s, cap);
      SweepIsPrefix(s[..cap], now);
      var m := |Sweep(s[..cap], now)|;
      assert m == if n <= cap then n else cap by {
        if m < cap {
          assert s[..cap][m] == s[m];
        }
        if n < cap {
          assert s[..cap][n] == s[n];
        }
        if m > 0 {
          assert s[..cap][m - 1] == s[m - 1];
        }
      }
      assert s[..cap][..m] == s[..m];
      assert n > cap ==> s[..n][..cap] == s[..cap];
    }
  }

  lemma SweepFront(x: Slot, s: seq<Slot>, now: int)
    ensures Sweep([x] + Without(s, x.key), now)
         == (if now <= x.deadline then [x] else []) + Without(Sweep(s, now), x.key)
  {
    FilterCommute(s, OtherThan(x.key), LiveAt(now));
    assert ([x] + Without(s, x.key))[1..] == Without(s, x.key);
  }

  lemma PutSameLive(s: seq<Slot>, t: seq<Slot>, cfg: Config, clock: int, x: Slot, now: int)
    requires Inv(s, cfg, clock) && Inv(t, cfg, clock) && clock <= now
    requires SameLive(s, t, now) && x.deadline == now + cfg.ttl
    ensures SameLive(Put(s, cfg.cap, x), Put(t, cfg.cap, x), now)
  {
    ToFrontKeepsInv(s, cfg, x, clock, now);
    ToFrontKeepsInv(t, cfg, x, clock, now);
    SweepTruncate([x] + Without(s, x.key), cfg.cap, now);
    SweepTruncate([x] + Without(t, x.key), cfg.cap, now);
    SweepFront(x, s, now);
    SweepFront(x, t, now);
  }

  lemma GetSameLive(s: seq<Slot>, t: seq<Slot>, cfg: Config, clock: int, k: Token, check: int, refresh: int)
    requires Inv(s, cfg, clock) && Inv(t, cfg, clock) && clock <= check <= refresh
    requires SameLive(s, t, check)
    ensures var (s', r) := Get(s, cfg.ttl, k, check, refresh);
      var (t', q) := Get(t, cfg.ttl, k, check, refresh);
      r == q && SameLive(s', t', refresh)
  {
    FindFilter(s, k, LiveAt(check));
    FindFilter(t, k, LiveAt(check));
    SameLiveLater(s, t, check, refresh);
    WithoutSameLive(s, t, k, refresh);
    match Find(Sweep(s, check), k) {
      case None =>
        DropExpired(s, k, check, refresh);
        DropExpired(t, k, check, refresh);
      case Some(x) =>
        SweepFront(x.(deadline := refresh + cfg.ttl), s, refresh);
        SweepFront(x.(deadline := refresh + cfg.ttl), t, refresh);
    }
  }

  lemma WithoutSameLive(s: seq<Slot>, t: seq<Slot>, k: Token, clock: int)
    requires SameLive(s, t, clock)
    ensures SameLive(Without(s, k), Without(t, k), clock)
  {
    FilterCommute(s, OtherThan(k), LiveAt(clock));
    FilterCommute(t, OtherThan(k), LiveAt(clock));
  }

  lemma DropExpired(s: seq<Slot>, k: Token, check: int, clock: int)
    requires Distinct(s) && check <= clock
    requires Find(s, k).None? || Find(s, k).value.deadline < check
    ensures SameLive(Without(s, k), s, clock)
  {
    FindMember(s, k);
    FilterCommute(s, OtherThan(k), LiveAt(clock));
    FilterMember(s, LiveAt(clock));
    FilterAll(Sweep(s, clock), OtherThan(k));
  }

  lemma StepSameLive(s: seq<Slot>, t: seq<Slot>, cfg: Config, clock: int, op: Op)
    requires Inv(s, cfg, clock) && Inv(t, cfg, clock) && OpTimed(op, clock) && SameLive(s, t, clock)
    ensures var (s', r) := Do(s, cfg, op);
      var (t', q) := DoIdeal(t, cfg, op);
      r == q && SameLive(s', t', After(op, clock)) && Inv(t', cfg, After(op, clock))
  {
    var at := match op { case PutOp(_, _, now) => now case GetOp(_, check, _) => check case _ => clock };
    SameLiveLater(s, t, clock, at);
    var t0 := Sweep(t, at);
    StaleSweep(t, at, at);
    SweepKeepsInv(t, cfg, clock, at);
    match op
    case PutOp(k, e, now) =>
      DoKeepsInv(t0, cfg, clock, op);
      PutSameLive(s, t0, cfg, clock, Slot(k, e, now + cfg.ttl), now);
    case GetOp(k, check, refresh) =>
      DoKeepsInv(t0, cfg, clock, op);
      GetSameLive(s, t0, cfg, clock, k, check, refresh);
    case DeleteOp(k) =>
      DoKeepsInv(t, cfg, clock, op);
      WithoutSameLive(s, t, k, clock);
    case SweepOp(now, later) =>
      SweepKeepsInv(t, cfg, clock, later);
      SameLiveLater(s, t, clock, later);
      StaleSweep(s, now, later);
  }

  lemma SweepKeepsInv(s: seq<Slot>, cfg: Config, clock: int, now: int)
    requires Inv(s, cfg, clock)
    ensures Inv(Sweep(s, now), cfg, clock)
    ensures clock <= now ==> Inv(s, cfg, now)
  {
    FilterMember(s, LiveAt(now));
    FilterKeepsOrder(s, LiveAt(now));
  }

  lemma {:induction false} SweepTransparencyFrom(s: seq<Slot>, t: seq<Slot>, cfg: Config, clock: int, ops: seq<Op>)
    requires Inv(s, cfg, clock) && Inv(t, cfg, clock) && SameLive(s, t, clock) && Timed(ops, clock)
    ensures Run(s, cfg, ops).1 == RunIdeal(t, cfg, ops).1
    ensures SameLive(Run(s, cfg, ops).0, RunIdeal(t, cfg, ops).0, Clock(ops, clock))
    decreases |ops|
  {
    if ops != [] {
      StepSameLive(s, t, cfg, clock, ops[0]);
      DoKeepsInv(s, cfg, clock, ops[0]);
      SweepTransparencyFrom(Do(s, cfg, ops[0]).0, DoIdeal(t, cfg, ops[0]).0, cfg, After(ops[0], clock), ops[1..]);
    }
  }

  /** For every trace, with sweeps (stale readings included) interleaved anywhere, every lookup is
      answered exactly as by the reference, and the live slots agree in content and order. */
  lemma SweepTransparency(cfg: Config, clock: int, ops: seq<Op>)
    requires Timed(ops, clock)
    ensures Run([], cfg, ops).1 == RunIdeal([], cfg, ops).1
    ensures SameLive(Run([], cfg, ops).0, RunIdeal([], cfg, ops).0, Clock(ops, clock))
  {
    SweepTransparencyFrom([], [], cfg, clock, ops);
  }
}

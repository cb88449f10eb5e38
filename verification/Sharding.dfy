/** The 32-shard cache as a whole, for an arbitrary fixed hash function. */
module Sharding {
  import opened Tokens
  import opened Lru
  import opened LruSweep

  const NUM_SHARDS := 32

  type Hash = Token -> nat

  /** The contents of the shards, in order. */
  type Shards = c: seq<seq<Slot>> | |c| == NUM_SHARDS witness seq(NUM_SHARDS, _ => [])

  function ShardOf(h: Hash, k: Token): (i: nat)
    ensures i < NUM_SHARDS
  {
    h(k) % NUM_SHARDS
  }

  /** Integer division as the source language does it, towards zero. */
  function Quotient(a: int, b: int): int
    requires b > 0
  {
    if a >= 0 then a / b else -(-a / b)
  }

  function PerShard(maxSize: int): int {
    var q := Quotient(maxSize, NUM_SHARDS);
    if q > 1 then q else 1
  }

  /** An operation on the shard of its key, or the background sweep reaching one shard. */
  datatype CacheOp =
    | KeyOp(op: Op)
    | SweepShard(shard: nat, now: int, at: int)

  predicate WellFormed(op: CacheOp) {
    if op.KeyOp? then !op.op.SweepOp? else op.shard < NUM_SHARDS
  }

  function Target(h: Hash, op: CacheOp): (i: nat)
    requires WellFormed(op)
    ensures i < NUM_SHARDS
  {
    if op.KeyOp? then ShardOf(h, op.op.key) else op.shard
  }

  function Inner(op: CacheOp): Op {
    if op.KeyOp? then op.op else SweepOp(op.now, op.at)
  }

  function CacheDo(c: Shards, h: Hash, cfg: Config, op: CacheOp): (Shards, Option<Entry>)
    requires WellFormed(op)
  {
    var i := Target(h, op);
    var (s, reply) := Do(c[i], cfg, Inner(op));
    (c[i := s], reply)
  }

  predicate AllWellFormed(ops: seq<CacheOp>) {
    forall op :: op in ops ==> WellFormed(op)
  }

  function CacheRun(c: Shards, h: Hash, cfg: Config, ops: seq<CacheOp>): (r: (Shards, seq<Option<Entry>>))
    requires AllWellFormed(ops)
    ensures |r.1| == |ops|
    decreases |ops|
  {
    if ops == [] then (c, []) else
    var (c1, reply) := CacheDo(c, h, cfg, ops[0]);
    var (c2, replies) := CacheRun(c1, h, cfg, ops[1..]);
    (c2, [reply] + replies)
  }

  function Empty(): Shards {
    seq(NUM_SHARDS, _ => [])
  }

  // ---------- homes ----------

  /** Every shard is the home of the tokens of some hash values, and two tokens share one exactly if their
      hashes are the same modulo 32. */
  lemma HomesByHash(h: Hash, j: Token, k: Token)
    ensures ShardOf(h, j) == ShardOf(h, k) <==> (h(j) - h(k)) % 32 == 0
    ensures h(k) < 32 ==> ShardOf(h, k) == h(k)
  {
    var a, b := h(j), h(k);
    var q, r := a / NUM_SHARDS, b / NUM_SHARDS;
    assert a - b == NUM_SHARDS * (q - r) + (a % NUM_SHARDS - b % NUM_SHARDS);
  }

  // ---------- the clocks ----------

  /** What the clock last read in each shard. A shard reads it under its own lock, so the readings of
      one shard are in order and those of different shards may come in any order. */
  type Clocks = c: seq<int> | |c| == NUM_SHARDS witness seq(NUM_SHARDS, _ => 0)

  /** Every shard read the clock at the same moment. */
  function Steady(clock: int): Clocks {
    seq(NUM_SHARDS, _ => clock)
  }

  function ClocksAfter(clocks: Clocks, h: Hash, op: CacheOp): Clocks
    requires WellFormed(op)
  {
    var i := Target(h, op);
    clocks[i := After(Inner(op), clocks[i])]
  }

  /** In every shard the readings of its own operations never run backwards. */
  predicate CacheTimed(ops: seq<CacheOp>, h: Hash, clocks: Clocks)
    requires AllWellFormed(ops)
    decreases |ops|
  {
    ops == [] ||
    (OpTimed(Inner(ops[0]), clocks[Target(h, ops[0])]) && CacheTimed(ops[1..], h, ClocksAfter(clocks, h, ops[0])))
  }

  /** That is all: the trace of each shard by itself is in order. */
  lemma {:induction false} TimedShardByShard(ops: seq<CacheOp>, h: Hash, clocks: Clocks)
    requires AllWellFormed(ops)
    ensures CacheTimed(ops, h, clocks) <==> forall i :: 0 <= i < NUM_SHARDS ==> Timed(Project(ops, h, i), clocks[i])
    decreases |ops|
  {
    if ops != [] {
      var j, rest, later := Target(h, ops[0]), ops[1..], ClocksAfter(clocks, h, ops[0]);
      TimedShardByShard(rest, h, later);
      hide CacheTimed, Timed;
      forall i | 0 <= i < NUM_SHARDS
        ensures Timed(Project(ops, h, i), clocks[i])
          <==> Timed(Project(rest, h, i), later[i]) && (i == j ==> OpTimed(Inner(ops[0]), clocks[j]))
      {
        ProjectStep(ops, h, clocks[i], i);
      }
      CacheTimedStep(ops, h, clocks);
    }
  }

  lemma ProjectStep(ops: seq<CacheOp>, h: Hash, clock: int, i: nat)
    requires AllWellFormed(ops) && ops != []
    ensures Timed(Project(ops, h, i), clock)
      <==> if Target(h, ops[0]) == i
           then OpTimed(Inner(ops[0]), clock) && Timed(Project(ops[1..], h, i), After(Inner(ops[0]), clock))
           else Timed(Project(ops[1..], h, i), clock)
  {
    if Target(h, ops[0]) == i {
      assert Project(ops, h, i)[1..] == Project(ops[1..], h, i);
    }
  }

  lemma CacheTimedStep(ops: seq<CacheOp>, h: Hash, clocks: Clocks)
    requires AllWellFormed(ops) && ops != []
    ensures CacheTimed(ops, h, clocks)
      <==> OpTimed(Inner(ops[0]), clocks[Target(h, ops[0])]) && CacheTimed(ops[1..], h, ClocksAfter(clocks, h, ops[0]))
  {
  }

  // ---------- capacity ----------

  function Total(c: seq<seq<Slot>>): nat {
    if c == [] then 0 else |c[0]| + Total(c[1..])
  }

  lemma {:induction false} TotalBound(c: seq<seq<Slot>>, cap: nat)
    requires forall s :: s in c ==> |s| <= cap
    ensures Total(c) <= |c| * cap
  {
    if c != [] {
      assert c == [c[0]] + c[1..];
      TotalBound(c[1..], cap);
      assert |c| * cap == |c[1..]| * cap + cap;
    }
  }

  ghost predicate ShardsInv(c: Shards, cfg: Config, clocks: Clocks) {
    forall i :: 0 <= i < NUM_SHARDS ==> Inv(c[i], cfg, clocks[i])
  }

  lemma CacheDoKeepsInv(c: Shards, h: Hash, cfg: Config, clocks: Clocks, op: CacheOp)
    requires ShardsInv(c, cfg, clocks) && WellFormed(op) && OpTimed(Inner(op), clocks[Target(h, op)])
    ensures ShardsInv(CacheDo(c, h, cfg, op).0, cfg, ClocksAfter(clocks, h, op))
  {
    DoKeepsInv(c[Target(h, op)], cfg, clocks[Target(h, op)], Inner(op));
  }

  lemma {:induction false} CacheRunKeepsInv(c: Shards, h: Hash, cfg: Config, clocks: Clocks, ops: seq<CacheOp>)
    requires ShardsInv(c, cfg, clocks) && AllWellFormed(ops) && CacheTimed(ops, h, clocks)
    ensures forall i :: 0 <= i < NUM_SHARDS ==>
              Inv(CacheRun(c, h, cfg, ops).0[i], cfg, Clock(Project(ops, h, i), clocks[i]))
  {
    TimedShardByShard(ops, h, clocks);
    forall i | 0 <= i < NUM_SHARDS
      ensures Inv(CacheRun(c, h, cfg, ops).0[i], cfg, Clock(Project(ops, h, i), clocks[i]))
    {
      ShardRunsAlone(c, h, cfg, ops, i);
      RunKeepsInv(c[i], cfg, clocks[i], Project(ops, h, i));
    }
  }

  lemma DoKeepsSize(s: seq<Slot>, cfg: Config, op: Op)
    requires 0 < cfg.cap && |s| <= cfg.cap
    ensures |Do(s, cfg, op).0| <= cfg.cap
  {
    match op
    case PutOp(_, _, _) =>
    case GetOp(k, _, _) =>
      FindMember(s, k);
      WithoutMember(s, k);
      if HasKey(s, k) {
        WithoutShrinks(s, k);
      }
    case DeleteOp(k) => WithoutMember(s, k);
    case SweepOp(now, _) => FilterMember(s, LiveAt(now));
  }

  lemma {:induction false} RunKeepsSize(c: Shards, h: Hash, cfg: Config, ops: seq<CacheOp>)
    requires 0 < cfg.cap && AllWellFormed(ops) && forall s :: s in c ==> |s| <= cfg.cap
    ensures forall s :: s in CacheRun(c, h, cfg, ops).0 ==> |s| <= cfg.cap
    decreases |ops|
  {
    if ops != [] {
      DoKeepsSize(c[Target(h, ops[0])], cfg, Inner(ops[0]));
      RunKeepsSize(CacheDo(c, h, cfg, ops[0]).0, h, cfg, ops[1..]);
    }
  }

  /** Whatever the requested size and the clock, the cache never holds more than
      32 * max(maxSize/32, 1) tokens. */
  lemma CapacityBound(h: Hash, maxSize: int, ttl: int, ops: seq<CacheOp>)
    requires AllWellFormed(ops)
    ensures var total := Total(CacheRun(Empty(), h, Config(PerShard(maxSize), ttl), ops).0);
      && total <= 32 * PerShard(maxSize)
      && (maxSize >= 32 ==> total <= maxSize)
      && (maxSize < 32 ==> total <= 32)
  {
    var cfg := Config(PerShard(maxSize), ttl);
    RunKeepsSize(Empty(), h, cfg, ops);
    TotalBound(CacheRun(Empty(), h, cfg, ops).0, cfg.cap);
  }

  /** The size is shared out evenly and rounded down, with at least one slot a shard. */
  lemma PerShardExactly(maxSize: int)
    ensures maxSize >= 32 ==> 32 * PerShard(maxSize) <= maxSize < 32 * (PerShard(maxSize) + 1)
    ensures maxSize < 32 ==> PerShard(maxSize) == 1
  {
    if maxSize < 0 {
      assert -maxSize / NUM_SHARDS >= 0;
    }
  }

  function RoundedUp(maxSize: int): int {
    (maxSize + NUM_SHARDS - 1) / NUM_SHARDS * NUM_SHARDS
  }

  /** The cap is announced as the size rounded up to a multiple of the shard count. The code rounds
      down, with at least one slot a shard: the announcement is right exactly for sizes that are
      positive multiples already and for the sizes 1 to 31. */
  lemma CapIsRoundedUpIff(maxSize: int)
    ensures 32 * PerShard(maxSize) == RoundedUp(maxSize)
      <==> 0 < maxSize && (maxSize < 32 || maxSize % 32 == 0)
  {
    if maxSize < 0 {
      assert -maxSize / NUM_SHARDS >= 0;
    }
  }

  // ---------- each shard sees only its own operations ----------

  /** What one shard sees of a trace. */
  function Project(ops: seq<CacheOp>, h: Hash, i: nat): seq<Op>
    requires AllWellFormed(ops)
  {
    if ops == [] then [] else
    if Target(h, ops[0]) == i then [Inner(ops[0])] + Project(ops[1..], h, i) else Project(ops[1..], h, i)
  }

  lemma {:induction false} ShardRunsAlone(c: Shards, h: Hash, cfg: Config, ops: seq<CacheOp>, i: nat)
    requires AllWellFormed(ops) && i < NUM_SHARDS
    ensures CacheRun(c, h, cfg, ops).0[i] == Run(c[i], cfg, Project(ops, h, i)).0
    decreases |ops|
  {
    if ops != [] {
      ShardRunsAlone(CacheDo(c, h, cfg, ops[0]).0, h, cfg, ops[1..], i);
    }
  }

  lemma {:induction false} CacheRunAppend(c: Shards, h: Hash, cfg: Config, ops: seq<CacheOp>, last: CacheOp)
    requires AllWellFormed(ops) && WellFormed(last)
    ensures AllWellFormed(ops + [last])
    ensures CacheRun(c, h, cfg, ops + [last]).0 == CacheDo(CacheRun(c, h, cfg, ops).0, h, cfg, last).0
    ensures CacheRun(c, h, cfg, ops + [last]).1
         == CacheRun(c, h, cfg, ops).1 + [CacheDo(CacheRun(c, h, cfg, ops).0, h, cfg, last).1]
    decreases |ops|
  {
    if ops == [] {
      assert ops + [last] == [last];
    } else {
      assert (ops + [last])[1..] == ops[1..] + [last];
      CacheRunAppend(CacheDo(c, h, cfg, ops[0]).0, h, cfg, ops[1..], last);
    }
  }

  /** After any trace, a lookup is answered by the ideal list of its own shard: one that has seen
      only that shard's operations, drops what is expired at once and is never swept. */
  lemma LookupIsIdeal(h: Hash, cfg: Config, clocks: Clocks, ops: seq<CacheOp>, k: Token, check: int, refresh: int)
    requires AllWellFormed(ops) && CacheTimed(ops, h, clocks)
    requires Clock(Project(ops, h, ShardOf(h, k)), clocks[ShardOf(h, k)]) <= check <= refresh
    ensures var get := GetOp(k, check, refresh);
      && AllWellFormed(ops + [KeyOp(get)])
      && CacheRun(Empty(), h, cfg, ops + [KeyOp(get)]).1[|ops|]
         == DoIdeal(RunIdeal([], cfg, Project(ops, h, ShardOf(h, k))).0, cfg, get).1
  {
    var i := ShardOf(h, k);
    var clock := clocks[i];
    var get := GetOp(k, check, refresh);
    CacheRunAppend(Empty(), h, cfg, ops, KeyOp(get));
    ShardRunsAlone(Empty(), h, cfg, ops, i);
    TimedShardByShard(ops, h, clocks);
    var mine := Project(ops, h, i);
    RunKeepsInv([], cfg, clock, mine);
    SweepTransparency(cfg, clock, mine);
    IdealKeepsInv([], cfg, clock, mine);
    StepSameLive(Run([], cfg, mine).0, RunIdeal([], cfg, mine).0, cfg, Clock(mine, clock), get);
  }

  lemma {:induction false} IdealKeepsInv(s: seq<Slot>, cfg: Config, clock: int, ops: seq<Op>)
    requires Inv(s, cfg, clock) && Timed(ops, clock)
    ensures Inv(RunIdeal(s, cfg, ops).0, cfg, Clock(ops, clock))
    decreases |ops|
  {
    if ops != [] {
      StepSameLive(s, s, cfg, clock, ops[0]);
      IdealKeepsInv(DoIdeal(s, cfg, ops[0]).0, cfg, After(ops[0], clock), ops[1..]);
    }
  }

  /** A token lives only in its own shard. */
  ghost predicate AtHome(c: Shards, h: Hash) {
    forall i, x :: 0 <= i < NUM_SHARDS && x in c[i] ==> ShardOf(h, x.key) == i
  }

  lemma DoKeys(s: seq<Slot>, cfg: Config, op: Op)
    ensures forall x :: x in Do(s, cfg, op).0 ==> (exists y :: y in s && y.key == x.key) || (op.PutOp? && x.key == op.key)
  {
    match op
    case PutOp(k, _, _) => WithoutMember(s, k);
    case GetOp(k, _, _) => WithoutMember(s, k); FindMember(s, k);
    case DeleteOp(k) => WithoutMember(s, k);
    case SweepOp(now, _) => FilterMember(s, LiveAt(now));
  }

  lemma StepAtHome(c: Shards, h: Hash, cfg: Config, op: CacheOp)
    requires AtHome(c, h) && WellFormed(op)
    ensures AtHome(CacheDo(c, h, cfg, op).0, h)
  {
    DoKeys(c[Target(h, op)], cfg, Inner(op));
  }

  lemma {:induction false} TokensStayAtHome(c: Shards, h: Hash, cfg: Config, ops: seq<CacheOp>)
    requires AtHome(c, h) && AllWellFormed(ops)
    ensures AtHome(CacheRun(c, h, cfg, ops).0, h)
    decreases |ops|
  {
    if ops != [] {
      StepAtHome(c, h, cfg, ops[0]);
      TokensStayAtHome(CacheDo(c, h, cfg, ops[0]).0, h, cfg, ops[1..]);
    }
  }

  /** Operations on tokens of different shards commute, answers included. */
  lemma DifferentShardsCommute(c: Shards, h: Hash, cfg: Config, p: CacheOp, q: CacheOp)
    requires WellFormed(p) && WellFormed(q) && Target(h, p) != Target(h, q)
    ensures var (c1, r1) := CacheDo(c, h, cfg, p);
      var (c2, r2) := CacheDo(c, h, cfg, q);
      && CacheDo(c1, h, cfg, q) == (CacheDo(c2, h, cfg, p).0, r2)
      && CacheDo(c2, h, cfg, p).1 == r1
  {
    var i, j := Target(h, p), Target(h, q);
    assert c[i := Do(c[i], cfg, Inner(p)).0][j := Do(c[j], cfg, Inner(q)).0]
        == c[j := Do(c[j], cfg, Inner(q)).0][i := Do(c[i], cfg, Inner(p)).0];
  }

  // ---------- one flat map ----------

  /** One sliding-deadline map without shards, order, bound or sweep. */
  function FlatDo(m: map<Token, Slot>, ttl: int, op: Op): (map<Token, Slot>, Option<Entry>) {
    match op
    case PutOp(k, e, now) => (m[k := Slot(k, e, now + ttl)], None)
    case GetOp(k, check, refresh) =>
      if k in m && check <= m[k].deadline
      then (m[k := m[k].(deadline := refresh + ttl)], Some(m[k].entry))
      else (m - {k}, None)
    case DeleteOp(k) => (m - {k}, None)
    case SweepOp(_, _) => (m, None)
  }

  function FlatRun(m: map<Token, Slot>, ttl: int, ops: seq<CacheOp>): (r: (map<Token, Slot>, seq<Option<Entry>>))
    ensures |r.1| == |ops|
    decreases |ops|
  {
    if ops == [] then (m, []) else
    var (m1, reply) := FlatDo(m, ttl, Inner(ops[0]));
    var (m2, replies) := FlatRun(m1, ttl, ops[1..]);
    (m2, [reply] + replies)
  }

  /** No put of the run pushes a slot out of its shard. */
  predicate NoOverflow(c: Shards, h: Hash, cfg: Config, ops: seq<CacheOp>)
    requires AllWellFormed(ops)
    decreases |ops|
  {
    ops == [] ||
    (&& (Inner(ops[0]).PutOp? && cfg.cap > 0 ==>
           |Without(c[Target(h, ops[0])], Inner(ops[0]).key)| < cfg.cap)
     && NoOverflow(CacheDo(c, h, cfg, ops[0]).0, h, cfg, ops[1..]))
  }

  function LiveOnly(x: Option<Slot>, clock: int): Option<Slot> {
    if x.Some? && clock <= x.value.deadline then x else None
  }

  function Lookup(m: map<Token, Slot>, k: Token): Option<Slot> {
    if k in m then Some(m[k]) else None
  }

  /** Shards and map hold the same live slots. */
  ghost predicate Mirrors(c: Shards, h: Hash, m: map<Token, Slot>, clocks: Clocks) {
    forall k :: LiveOnly(Find(c[ShardOf(h, k)], k), clocks[ShardOf(h, k)]) == LiveOnly(Lookup(m, k), clocks[ShardOf(h, k)])
  }

  function SlotAfter(x: Option<Slot>, ttl: int, op: Op, k: Token): Option<Slot> {
    match op
    case PutOp(j, e, now) => if j == k then Some(Slot(k, e, now + ttl)) else x
    case GetOp(j, check, refresh) =>
      if j != k then x else
      if x.Some? && check <= x.value.deadline then Some(x.value.(deadline := refresh + ttl)) else None
    case DeleteOp(j) => if j == k then None else x
    case SweepOp(now, _) => LiveOnly(x, now)
  }

  /** What one operation does to the slot of any key `k` of the same list, capacity aside. */
  lemma DoFind(s: seq<Slot>, cfg: Config, clock: int, op: Op, k: Token)
    requires Inv(s, cfg, clock) && OpTimed(op, clock)
    requires op.PutOp? && cfg.cap > 0 ==> |Without(s, op.key)| < cfg.cap
    ensures Find(Do(s, cfg, op).0, k) == SlotAfter(Find(s, k), cfg.ttl, op, k)
  {
    FindMember(s, k);
    match op
    case PutOp(j, e, now) =>
      FindFilter(s, k, OtherThan(j));
      assert ([Slot(j, e, now + cfg.ttl)] + Without(s, j))[1..] == Without(s, j);
    case GetOp(j, check, refresh) =>
      FindFilter(s, k, OtherThan(j));
      FindMember(s, j);
      if Find(s, j).Some? {
        assert ([Find(s, j).value.(deadline := refresh + cfg.ttl)] + Without(s, j))[1..] == Without(s, j);
      }
    case DeleteOp(j) => FindFilter(s, k, OtherThan(j));
    case SweepOp(now, _) => FindFilter(s, k, LiveAt(now));
  }

  /** One key of the shard an operation goes to. */
  lemma SlotMirrors(s: seq<Slot>, m: map<Token, Slot>, cfg: Config, clock: int, op: Op, k: Token)
    requires Inv(s, cfg, clock) && OpTimed(op, clock)
    requires op.PutOp? && cfg.cap > 0 ==> |Without(s, op.key)| < cfg.cap
    requires LiveOnly(Find(s, k), clock) == LiveOnly(Lookup(m, k), clock)
    ensures var later := After(op, clock);
      LiveOnly(Find(Do(s, cfg, op).0, k), later) == LiveOnly(Lookup(FlatDo(m, cfg.ttl, op).0, k), later)
    ensures op.GetOp? && op.key == k ==> Do(s, cfg, op).1 == FlatDo(m, cfg.ttl, op).1
  {
    DoFind(s, cfg, clock, op, k);
    hide Inv, Find, Without;
  }

  lemma StepMirrors(c: Shards, h: Hash, m: map<Token, Slot>, cfg: Config, clocks: Clocks, op: CacheOp)
    requires ShardsInv(c, cfg, clocks) && WellFormed(op) && OpTimed(Inner(op), clocks[Target(h, op)])
    requires Mirrors(c, h, m, clocks)
    requires Inner(op).PutOp? && cfg.cap > 0 ==> |Without(c[Target(h, op)], Inner(op).key)| < cfg.cap
    ensures var (c', r) := CacheDo(c, h, cfg, op);
      var (m', q) := FlatDo(m, cfg.ttl, Inner(op));
      r == q && Mirrors(c', h, m', ClocksAfter(clocks, h, op))
  {
    var i, inner, later := Target(h, op), Inner(op), ClocksAfter(clocks, h, op);
    var c', m' := CacheDo(c, h, cfg, op).0, FlatDo(m, cfg.ttl, inner).0;
    if inner.GetOp? {
      SlotMirrors(c[i], m, cfg, clocks[i], inner, inner.key);
    }
    forall k ensures LiveOnly(Find(c'[ShardOf(h, k)], k), later[ShardOf(h, k)]) == LiveOnly(Lookup(m', k), later[ShardOf(h, k)]) {
      if ShardOf(h, k) == i {
        SlotMirrors(c[i], m, cfg, clocks[i], inner, k);
      } else {
        FlatOther(m, cfg.ttl, inner, k);
      }
    }
  }

  lemma FlatOther(m: map<Token, Slot>, ttl: int, op: Op, k: Token)
    requires op.SweepOp? || op.key != k
    ensures Lookup(FlatDo(m, ttl, op).0, k) == Lookup(m, k)
  {
  }

  lemma {:induction false} FlatFrom(c: Shards, h: Hash, m: map<Token, Slot>, cfg: Config, clocks: Clocks, ops: seq<CacheOp>)
    requires ShardsInv(c, cfg, clocks) && Mirrors(c, h, m, clocks)
    requires AllWellFormed(ops) && CacheTimed(ops, h, clocks) && NoOverflow(c, h, cfg, ops)
    ensures CacheRun(c, h, cfg, ops).1 == FlatRun(m, cfg.ttl, ops).1
    decreases |ops|
  {
    if ops != [] {
      StepMirrors(c, h, m, cfg, clocks, ops[0]);
      CacheDoKeepsInv(c, h, cfg, clocks, ops[0]);
      FlatFrom(CacheDo(c, h, cfg, ops[0]).0, h, FlatDo(m, cfg.ttl, Inner(ops[0])).0, cfg,
               ClocksAfter(clocks, h, ops[0]), ops[1..]);
    }
  }

  /** Sharding is invisible: for any fixed hash, as long as no shard overflows the 32 shards with
      their sweeps answer every trace exactly like one flat sliding-deadline map. */
  lemma ShardingIsInvisible(h: Hash, cfg: Config, clocks: Clocks, ops: seq<CacheOp>)
    requires AllWellFormed(ops) && CacheTimed(ops, h, clocks) && NoOverflow(Empty(), h, cfg, ops)
    ensures CacheRun(Empty(), h, cfg, ops).1 == FlatRun(map[], cfg.ttl, ops).1
  {
    FlatFrom(Empty(), h, map[], cfg, clocks, ops);
  }
}

/** The local cache as the token store of the proxy: a map that may lose a binding, and only by expiry
    or to a full shard. */
module CacheAsStore {
  import opened Tokens
  import opened Lru
  import opened LruOrder
  import opened LruRetention
  import opened Sharding

  /** What an operation does to a map that never loses anything. */
  function PlainDo(m: map<Token, Entry>, op: Op): (map<Token, Entry>, Option<Entry>) {
    match op
    case PutOp(k, e, _) => (m[k := e], None)
    case GetOp(k, _, _) => (m, if k in m then Some(m[k]) else None)
    case DeleteOp(k) => (m - {k}, None)
    case SweepOp(_, _) => (m, None)
  }

  /** A run that loses some keys before each operation. */
  function LossyRun(m: map<Token, Entry>, ops: seq<CacheOp>, losses: seq<set<Token>>): (r: (map<Token, Entry>, seq<Option<Entry>>))
    requires |losses| == |ops|
    ensures |r.1| == |ops|
    decreases |ops|
  {
    if ops == [] then (m, []) else
    var (m1, reply) := PlainDo(m - losses[0], Inner(ops[0]));
    var (m2, replies) := LossyRun(m1, ops[1..], losses[1..]);
    (m2, [reply] + replies)
  }

  /** The keys an operation drops from the list without being asked to. */
  function Dropped(s: seq<Slot>, cfg: Config, op: Op): set<Token> {
    KeysOf(s) - KeysOf(Do(s, cfg, op).0) - (if op.DeleteOp? then {op.key} else {})
  }

  function Losses(c: Shards, h: Hash, cfg: Config, ops: seq<CacheOp>): (l: seq<set<Token>>)
    requires AllWellFormed(ops)
    ensures |l| == |ops|
    decreases |ops|
  {
    if ops == [] then [] else
    [Dropped(c[Target(h, ops[0])], cfg, Inner(ops[0]))] + Losses(CacheDo(c, h, cfg, ops[0]).0, h, cfg, ops[1..])
  }

  /** Cache and map agree on the bindings, expired ones included. */
  ghost predicate SameBindings(c: Shards, h: Hash, m: map<Token, Entry>) {
    forall k :: if k in m then Find(c[ShardOf(h, k)], k).Some? && Find(c[ShardOf(h, k)], k).value.entry == m[k]
                else Find(c[ShardOf(h, k)], k).None?
  }

  /** The one or two reasons to drop a slot. */
  ghost predicate Justified(s: seq<Slot>, cfg: Config, op: Op, k: Token) {
    Find(s, k).Some? &&
    match op
    case PutOp(j, _, _) =>
      k != j && 0 < cfg.cap == |s| && !HasKey(s, j) && forall x :: x in s ==> Find(s, k).value.deadline <= x.deadline
    case GetOp(j, check, _) => k == j && Find(s, k).value.deadline < check
    case DeleteOp(_) => false
    case SweepOp(now, _) => Find(s, k).value.deadline < now
  }

  lemma FindKeys(s: seq<Slot>, k: Token)
    ensures Find(s, k).Some? <==> k in KeysOf(s)
  {
    FindMember(s, k);
  }

  lemma FindInFront(s: seq<Slot>, x: Slot, k: Token)
    requires Distinct(s)
    ensures Find([x] + Without(s, x.key), k) == if k == x.key then Some(x) else Find(s, k)
  {
    FindFilter(s, k, OtherThan(x.key));
    FindMember(s, k);
    assert ([x] + Without(s, x.key))[1..] == Without(s, x.key);
  }

  lemma PrefixFinds(s: seq<Slot>, k: Token, n: nat)
    requires Distinct(s) && n <= |s|
    ensures Find(s[..n], k).None? || Find(s[..n], k) == Find(s, k)
  {
    FindMember(s, k);
    FindMember(s[..n], k);
  }

  lemma FrontOfPrefix(s: seq<Slot>, n: nat)
    requires 0 < n <= |s|
    ensures Find(s[..n], s[0].key).Some?
  {
  }

  /** What one operation does to the slot of any key, capacity included. */
  lemma FindAfter(s: seq<Slot>, cfg: Config, clock: int, op: Op, k: Token)
    requires Inv(s, cfg, clock) && OpTimed(op, clock)
    ensures var y := Find(Do(s, cfg, op).0, k);
      y.None? || y == SlotAfter(Find(s, k), cfg.ttl, op, k)
    ensures op.PutOp? && op.key == k ==> Find(Do(s, cfg, op).0, k).Some?
  {
    if op.PutOp? {
      var x := Slot(op.key, op.entry, op.now + cfg.ttl);
      ToFrontKeepsInv(s, cfg, x, clock, op.now);
      FindInFront(s, x, k);
      hide Inv, Distinct, Sorted, Find, Without;
      var all := [x] + Without(s, op.key);
      if 0 < cfg.cap < |all| {
        PrefixFinds(all, k, cfg.cap);
        FindInFront(s, x, op.key);
        FrontOfPrefix(all, cfg.cap);
      }
    } else {
      DoFind(s, cfg, clock, op, k);
    }
  }

  /** A slot the operation does not address disappears only for one of those reasons. */
  lemma DroppedIsJustified(s: seq<Slot>, cfg: Config, clock: int, op: Op, k: Token)
    requires Inv(s, cfg, clock) && OpTimed(op, clock) && k in Dropped(s, cfg, op)
    ensures Justified(s, cfg, op, k)
  {
    FindKeys(s, k);
    FindKeys(Do(s, cfg, op).0, k);
    FindMember(s, k);
    if op.PutOp? {
      var x := Slot(op.key, op.entry, op.now + cfg.ttl);
      FindAfter(s, cfg, clock, op, k);
      EvictedOne(s, cfg, clock, op, k);
    } else {
      DoFind(s, cfg, clock, op, k);
    }
  }

  lemma LastIsEarliest(s: seq<Slot>)
    requires Sorted(s) && s != []
    ensures forall x :: x in s ==> s[|s| - 1].deadline <= x.deadline
  {
    forall x | x in s ensures s[|s| - 1].deadline <= x.deadline {
      var i :| 0 <= i < |s| && s[i] == x;
      if i < |s| - 1 {
        SortedAt(s, i, |s| - 1);
      }
    }
  }

  lemma EvictedOne(s: seq<Slot>, cfg: Config, clock: int, op: Op, k: Token)
    requires Inv(s, cfg, clock) && OpTimed(op, clock) && op.PutOp? && k != op.key
    requires Find(s, k).Some? && Find(Do(s, cfg, op).0, k).None?
    ensures 0 < cfg.cap == |s| && !HasKey(s, op.key)
    ensures forall x :: x in s ==> Find(s, k).value.deadline <= x.deadline
  {
    if 0 < cfg.cap <= |Without(s, op.key)| {
      WithoutMember(s, op.key);
      hide Distinct, Sorted, Find, Without, HasKey;
      if HasKey(s, op.key) {
        WithoutShrinks(s, op.key);
      }
      FullPut(s, cfg.cap, Slot(op.key, op.entry, op.now + cfg.ttl));
      LastOne(s, cfg, op, k);
      LastIsEarliest(s);
    } else {
      DoFind(s, cfg, clock, op, k);
    }
  }

  lemma LastOne(s: seq<Slot>, cfg: Config, op: Op, k: Token)
    requires Distinct(s) && op.PutOp? && s != [] && Find(s, k).Some? && k != op.key
    requires Do(s, cfg, op).0 == [Slot(op.key, op.entry, op.now + cfg.ttl)] + s[..|s| - 1]
    requires Find(Do(s, cfg, op).0, k).None?
    ensures Find(s, k) == Some(s[|s| - 1])
  {
    FindMember(s, k);
    var s' := Do(s, cfg, op).0;
    FindMember(s', k);
    forall j | 0 <= j < |s| - 1 ensures s[j].key != k {
      assert s'[j + 1] == s[j];
    }
    var i :| 0 <= i < |s| && s[i] == Find(s, k).value;
    assert i == |s| - 1;
  }

  /** One key before and after: it keeps its entry unless the operation dropped or rebound it. */
  lemma BindingAfter(s: seq<Slot>, cfg: Config, clock: int, op: Op, m: map<Token, Entry>, k: Token)
    requires Inv(s, cfg, clock) && OpTimed(op, clock)
    requires if k in m then Find(s, k).Some? && Find(s, k).value.entry == m[k] else Find(s, k).None?
    ensures var m', y := PlainDo(m - Dropped(s, cfg, op), op).0, Find(Do(s, cfg, op).0, k);
      if k in m' then y.Some? && y.value.entry == m'[k] else y.None?
  {
    FindKeys(s, k);
    FindKeys(Do(s, cfg, op).0, k);
    FindAfter(s, cfg, clock, op, k);
    hide Inv, Find, Do;
  }

  lemma ReplySame(s: seq<Slot>, cfg: Config, clock: int, op: Op, m: map<Token, Entry>)
    requires Inv(s, cfg, clock) && OpTimed(op, clock)
    requires op.GetOp? ==> if op.key in m then Find(s, op.key).Some? && Find(s, op.key).value.entry == m[op.key] else Find(s, op.key).None?
    ensures Do(s, cfg, op).1 == PlainDo(m - Dropped(s, cfg, op), op).1
  {
    if op.GetOp? {
      FindKeys(s, op.key);
      FindKeys(Do(s, cfg, op).0, op.key);
      DoFind(s, cfg, clock, op, op.key);
    }
  }

  lemma StepSameBindings(c: Shards, h: Hash, cfg: Config, clocks: Clocks, op: CacheOp, m: map<Token, Entry>)
    requires ShardsInv(c, cfg, clocks) && WellFormed(op) && OpTimed(Inner(op), clocks[Target(h, op)])
    requires SameBindings(c, h, m) && AtHome(c, h)
    ensures var lost := Dropped(c[Target(h, op)], cfg, Inner(op));
      var (c', r) := CacheDo(c, h, cfg, op);
      var (m', q) := PlainDo(m - lost, Inner(op));
      r == q && SameBindings(c', h, m')
  {
    var i, inner := Target(h, op), Inner(op);
    var s := c[i];
    var c' := CacheDo(c, h, cfg, op).0;
    var m' := PlainDo(m - Dropped(s, cfg, inner), inner).0;
    ReplySame(s, cfg, clocks[i], inner, m);
    forall k ensures if k in m' then Find(c'[ShardOf(h, k)], k).Some? && Find(c'[ShardOf(h, k)], k).value.entry == m'[k]
                     else Find(c'[ShardOf(h, k)], k).None? {
      if ShardOf(h, k) == i {
        BindingAfter(s, cfg, clocks[i], inner, m, k);
      } else {
        assert forall x :: x in s ==> ShardOf(h, x.key) == i;
        assert k !in KeysOf(s);
      }
    }
  }

  lemma {:induction false} LossyFrom(c: Shards, h: Hash, cfg: Config, clocks: Clocks, ops: seq<CacheOp>, m: map<Token, Entry>)
    requires ShardsInv(c, cfg, clocks) && SameBindings(c, h, m) && AtHome(c, h)
    requires AllWellFormed(ops) && CacheTimed(ops, h, clocks)
    ensures CacheRun(c, h, cfg, ops).1 == LossyRun(m, ops, Losses(c, h, cfg, ops)).1
    decreases |ops|
  {
    if ops != [] {
      StepSameBindings(c, h, cfg, clocks, ops[0], m);
      CacheDoKeepsInv(c, h, cfg, clocks, ops[0]);
      StepAtHome(c, h, cfg, ops[0]);
      var losses := Losses(c, h, cfg, ops);
      LossyFrom(CacheDo(c, h, cfg, ops[0]).0, h, cfg, ClocksAfter(clocks, h, ops[0]), ops[1..],
                PlainDo(m - losses[0], Inner(ops[0])).0);
      assert losses[1..] == Losses(CacheDo(c, h, cfg, ops[0]).0, h, cfg, ops[1..]);
    }
  }

  /** On every trace the cache answers like a plain map that loses keys now and then. */
  lemma CacheIsALossyMap(h: Hash, cfg: Config, clocks: Clocks, ops: seq<CacheOp>)
    requires AllWellFormed(ops) && CacheTimed(ops, h, clocks)
    ensures CacheRun(Empty(), h, cfg, ops).1 == LossyRun(map[], ops, Losses(Empty(), h, cfg, ops)).1
  {
    LossyFrom(Empty(), h, cfg, clocks, ops, map[]);
  }

  /** Every loss of a run is justified: the key has expired, or it is the earliest to expire of a full
      shard that takes in a new key. */
  lemma {:induction false} LossesAreJustified(c: Shards, h: Hash, cfg: Config, clocks: Clocks, ops: seq<CacheOp>, n: nat, k: Token)
    requires ShardsInv(c, cfg, clocks) && AllWellFormed(ops) && CacheTimed(ops, h, clocks)
    requires n < |ops| && k in Losses(c, h, cfg, ops)[n]
    ensures var before := CacheRun(c, h, cfg, ops[..n]).0;
      Justified(before[Target(h, ops[n])], cfg, Inner(ops[n]), k)
    decreases |ops|
  {
    if n == 0 {
      DroppedIsJustified(c[Target(h, ops[0])], cfg, clocks[Target(h, ops[0])], Inner(ops[0]), k);
    } else {
      CacheDoKeepsInv(c, h, cfg, clocks, ops[0]);
      LossesAreJustified(CacheDo(c, h, cfg, ops[0]).0, h, cfg, ClocksAfter(clocks, h, ops[0]), ops[1..], n - 1, k);
      assert ops[..n][1..] == ops[1..][..n - 1];
    }
  }

  // ---------- a lookup some time after a touch ----------

  lemma {:induction false} KeepsItsSlot(s: seq<Slot>, cfg: Config, clock: int, ops: seq<Op>, k: Token, x: Slot)
    requires Inv(s, cfg, clock) && Timed(ops, clock) && Find(s, k) == Some(x)
    requires forall op :: op in ops ==> !Names(op, k)
    ensures Find(Run(s, cfg, ops).0, k) in {None, Some(x)}
    decreases |ops|
  {
    if ops != [] {
      FindAfter(s, cfg, clock, ops[0], k);
      DoKeepsInv(s, cfg, clock, ops[0]);
      var s1, now := Do(s, cfg, ops[0]).0, After(ops[0], clock);
      assert !Names(ops[0], k);
      if Find(s1, k).Some? {
        KeepsItsSlot(s1, cfg, now, ops[1..], k, x);
      } else {
        AbsentStays(s1, cfg, now, k, ops[1..]);
      }
    }
  }

  /** Whenever the lookup comes: it hits exactly within the deadline of the touch and below the pressure. */
  lemma {:induction false} LookupAfterTouch(s: seq<Slot>, cfg: Config, clock: int, ops: seq<Op>, check: int, refresh: int)
    requires Inv(s, cfg, clock) && s != [] && Timed(ops, clock)
    requires forall op :: op in ops ==> !Names(op, s[0].key)
    requires Clock(ops, clock) <= check <= refresh
    ensures Do(Run(s, cfg, ops).0, cfg, GetOp(s[0].key, check, refresh)).1
         == if check <= s[0].deadline && (cfg.cap <= 0 || Pressure({}, s, cfg, ops) < cfg.cap) then Some(s[0].entry) else None
  {
    if check <= s[0].deadline {
      RetentionExact(s, cfg, clock, ops, check, refresh);
    } else {
      KeepsItsSlot(s, cfg, clock, ops, s[0].key, s[0]);
    }
  }
}

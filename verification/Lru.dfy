/** The values a token cache is made of and what one locked operation of a shard does to its
    recency list, as functions on that list (front = most recently used). */
module Lru {
  import opened Tokens

  /** One cached token. `deadline` is the last instant (in nanoseconds) at which it still hits. */
  datatype Slot = Slot(key: Token, entry: Entry, deadline: int)

  /** `cap` is the most slots a shard keeps (no bound when it is not positive). */
  datatype Config = Config(cap: int, ttl: int)

  // ---------- filtering a list of slots ----------

  function Filter(s: seq<Slot>, keep: Slot -> bool): seq<Slot> {
    if s == [] then [] else
    if keep(s[0]) then [s[0]] + Filter(s[1..], keep) else Filter(s[1..], keep)
  }

  function OtherThan(k: Token): Slot -> bool {
    (x: Slot) => x.key != k
  }

  function LiveAt(now: int): Slot -> bool {
    (x: Slot) => now <= x.deadline
  }

  /** The slots left when those of key `k` are gone. */
  function Without(s: seq<Slot>, k: Token): seq<Slot> {
    Filter(s, OtherThan(k))
  }

  /** The slots left when those expired at `now` are gone. */
  function Sweep(s: seq<Slot>, now: int): seq<Slot> {
    Filter(s, LiveAt(now))
  }

  function Find(s: seq<Slot>, k: Token): Option<Slot> {
    if s == [] then None else if s[0].key == k then Some(s[0]) else Find(s[1..], k)
  }

  ghost predicate HasKey(s: seq<Slot>, k: Token) {
    exists x :: x in s && x.key == k
  }

  function Truncate(s: seq<Slot>, cap: int): seq<Slot> {
    if 0 < cap < |s| then s[..cap] else s
  }

  // ---------- the operations ----------

  function Put(s: seq<Slot>, cap: int, x: Slot): seq<Slot> {
    Truncate([x] + Without(s, x.key), cap)
  }

  /** A lookup reads the clock twice: once to check the deadline, once to slide it. */
  function Get(s: seq<Slot>, ttl: int, k: Token, check: int, refresh: int): (seq<Slot>, Option<Entry>) {
    match Find(s, k)
    case None => (s, None)
    case Some(x) =>
      if x.deadline < check then (Without(s, k), None)
      else ([x.(deadline := refresh + ttl)] + Without(s, k), Some(x.entry))
  }

  /** One locked operation. A sweep uses a clock reading `now` taken some time before it runs. */
  datatype Op =
    | PutOp(key: Token, entry: Entry, now: int)
    | GetOp(key: Token, check: int, refresh: int)
    | DeleteOp(key: Token)
    | SweepOp(now: int, at: int)

  function Do(s: seq<Slot>, cfg: Config, op: Op): (seq<Slot>, Option<Entry>) {
    match op
    case PutOp(k, e, now) => (Put(s, cfg.cap, Slot(k, e, now + cfg.ttl)), None)
    case GetOp(k, check, refresh) => Get(s, cfg.ttl, k, check, refresh)
    case DeleteOp(k) => (Without(s, k), None)
    case SweepOp(now, _) => (Sweep(s, now), None)
  }

  function Run(s: seq<Slot>, cfg: Config, ops: seq<Op>): (r: (seq<Slot>, seq<Option<Entry>>))
    ensures |r.1| == |ops|
    decreases |ops|
  {
    if ops == [] then (s, []) else
    var (s1, reply) := Do(s, cfg, ops[0]);
    var (s2, replies) := Run(s1, cfg, ops[1..]);
    (s2, [reply] + replies)
  }

  /** Every hit of one run is a hit of the other, with the same entry. */
  ghost predicate HitsIncluded(r: seq<Option<Entry>>, q: seq<Option<Entry>>) {
    |r| == |q| && forall i :: 0 <= i < |r| && r[i].Some? ==> r[i] == q[i]
  }

  // ---------- the clock ----------

  /** `op` reads a clock that stands at `clock` or later and never runs backwards;
      only a sweep may work with an older reading. */
  predicate OpTimed(op: Op, clock: int) {
    match op
    case PutOp(_, _, now) => clock <= now
    case GetOp(_, check, refresh) => clock <= check <= refresh
    case DeleteOp(_) => true
    case SweepOp(now, at) => clock <= at && now <= at
  }

  function After(op: Op, clock: int): int {
    match op
    case PutOp(_, _, now) => now
    case GetOp(_, _, refresh) => refresh
    case DeleteOp(_) => clock
    case SweepOp(_, at) => at
  }

  predicate Timed(ops: seq<Op>, clock: int) {
    ops == [] || (OpTimed(ops[0], clock) && Timed(ops[1..], After(ops[0], clock)))
  }

  function Clock(ops: seq<Op>, clock: int): int {
    if ops == [] then clock else Clock(ops[1..], After(ops[0], clock))
  }

  // ---------- what every reachable list satisfies ----------

  ghost predicate Distinct(s: seq<Slot>) {
    s == [] || ((forall x :: x in s[1..] ==> x.key != s[0].key) && Distinct(s[1..]))
  }

  ghost predicate Sorted(s: seq<Slot>) {
    s == [] || ((forall x :: x in s[1..] ==> x.deadline <= s[0].deadline) && Sorted(s[1..]))
  }

  ghost predicate Bounded(s: seq<Slot>, cfg: Config, clock: int) {
    && (cfg.cap > 0 ==> |s| <= cfg.cap)
    && (forall x :: x in s ==> x.deadline <= clock + cfg.ttl)
  }

  ghost predicate Inv(s: seq<Slot>, cfg: Config, clock: int) {
    Distinct(s) && Sorted(s) && Bounded(s, cfg, clock)
  }

  // ---------- lemmas about filtering ----------

  lemma {:induction false} FilterMember(s: seq<Slot>, keep: Slot -> bool)
    ensures forall x :: x in Filter(s, keep) <==> x in s && keep(x)
    ensures |Filter(s, keep)| <= |s|
  {
    if s != [] {
      assert s == [s[0]] + s[1..];
      FilterMember(s[1..], keep);
    }
  }

  lemma {:induction false} FilterAppend(a: seq<Slot>, b: seq<Slot>, keep: Slot -> bool)
    ensures Filter(a + b, keep) == Filter(a, keep) + Filter(b, keep)
  {
    if a == [] {
      assert a + b == b;
    } else {
      assert (a + b)[1..] == a[1..] + b;
      FilterAppend(a[1..], b, keep);
    }
  }

  lemma {:induction false} FilterAll(s: seq<Slot>, keep: Slot -> bool)
    requires forall x :: x in s ==> keep(x)
    ensures Filter(s, keep) == s
  {
    if s != [] {
      assert s == [s[0]] + s[1..];
      FilterAll(s[1..], keep);
    }
  }

  lemma {:induction false} FilterNone(s: seq<Slot>, keep: Slot -> bool)
    requires forall x :: x in s ==> !keep(x)
    ensures Filter(s, keep) == []
  {
    if s != [] {
      assert s == [s[0]] + s[1..];
      FilterNone(s[1..], keep);
    }
  }

  lemma {:induction false} FilterCommute(s: seq<Slot>, p: Slot -> bool, q: Slot -> bool)
    ensures Filter(Filter(s, p), q) == Filter(Filter(s, q), p)
  {
    if s != [] {
      FilterCommute(s[1..], p, q);
    }
  }

  lemma {:induction false} FilterStronger(s: seq<Slot>, p: Slot -> bool, q: Slot -> bool)
    requires forall x :: x in s && q(x) ==> p(x)
    ensures Filter(Filter(s, p), q) == Filter(s, q)
  {
    if s != [] {
      FilterStronger(s[1..], p, q);
    }
  }

  lemma {:induction false} FilterKeepsOrder(s: seq<Slot>, keep: Slot -> bool)
    ensures Distinct(s) ==> Distinct(Filter(s, keep))
    ensures Sorted(s) ==> Sorted(Filter(s, keep))
  {
    if s != [] {
      FilterKeepsOrder(s[1..], keep);
      FilterMember(s[1..], keep);
    }
  }

  lemma {:induction false} PrefixKeepsOrder(s: seq<Slot>, n: nat)
    requires n <= |s|
    ensures Distinct(s) ==> Distinct(s[..n])
    ensures Sorted(s) ==> Sorted(s[..n])
  {
    if n != 0 {
      PrefixKeepsOrder(s[1..], n - 1);
      assert s[..n][1..] == s[1..][..n - 1];
    }
  }

  lemma {:induction false} FindMember(s: seq<Slot>, k: Token)
    ensures Find(s, k).None? <==> !HasKey(s, k)
    ensures Find(s, k).Some? ==> Find(s, k).value in s && Find(s, k).value.key == k
    ensures Distinct(s) ==> forall x :: x in s && x.key == k ==> Find(s, k) == Some(x)
  {
    if s != [] {
      assert s == [s[0]] + s[1..];
      FindMember(s[1..], k);
    }
  }

  lemma {:induction false} FindFilter(s: seq<Slot>, k: Token, keep: Slot -> bool)
    requires Distinct(s)
    ensures Find(Filter(s, keep), k)
         == if Find(s, k).Some? && keep(Find(s, k).value) then Find(s, k) else None
  {
    FindMember(s, k);
    FilterMember(s, keep);
    FilterKeepsOrder(s, keep);
    FindMember(Filter(s, keep), k);
    if Find(s, k).Some? && keep(Find(s, k).value) {
      assert Find(s, k).value in Filter(s, keep);
    }
  }

  lemma WithoutMember(s: seq<Slot>, k: Token)
    ensures forall x :: x in Without(s, k) <==> x in s && x.key != k
    ensures |Without(s, k)| <= |s|
  {
    FilterMember(s, OtherThan(k));
  }

  // ---------- every operation keeps the invariant ----------

  lemma WithoutKeepsInv(s: seq<Slot>, cfg: Config, clock: int, k: Token)
    requires Inv(s, cfg, clock)
    ensures Inv(Without(s, k), cfg, clock)
  {
    FilterMember(s, OtherThan(k));
    FilterKeepsOrder(s, OtherThan(k));
  }

  lemma ToFrontKeepsInv(s: seq<Slot>, cfg: Config, x: Slot, clock: int, now: int)
    requires Inv(s, cfg, clock) && clock <= now && x.deadline == now + cfg.ttl
    ensures Distinct([x] + Without(s, x.key)) && Sorted([x] + Without(s, x.key))
    ensures forall y :: y in [x] + Without(s, x.key) ==> y.deadline <= now + cfg.ttl
  {
    WithoutMember(s, x.key);
    WithoutKeepsInv(s, cfg, clock, x.key);
    assert ([x] + Without(s, x.key))[1..] == Without(s, x.key);
  }

  lemma {:induction false} WithoutShrinks(s: seq<Slot>, k: Token)
    requires HasKey(s, k)
    ensures |Without(s, k)| < |s|
  {
    if s[0].key == k {
      FilterMember(s[1..], OtherThan(k));
    } else {
      assert s == [s[0]] + s[1..];
      WithoutShrinks(s[1..], k);
    }
  }

  /** Deadline order, key uniqueness, the capacity and the deadline bound hold after every
      operation whose clock readings are not older than the last one. */
  lemma DoKeepsInv(s: seq<Slot>, cfg: Config, clock: int, op: Op)
    requires Inv(s, cfg, clock) && OpTimed(op, clock)
    ensures Inv(Do(s, cfg, op).0, cfg, After(op, clock))
  {
    match op
    case PutOp(k, e, now) =>
      var x := Slot(k, e, now + cfg.ttl);
      ToFrontKeepsInv(s, cfg, x, clock, now);
      var all := [x] + Without(s, k);
      if 0 < cfg.cap < |all| {
        PrefixKeepsOrder(all, cfg.cap);
      }
    case GetOp(k, check, refresh) =>
      FindMember(s, k);
      match Find(s, k) {
        case None =>
        case Some(x) =>
          WithoutKeepsInv(s, cfg, clock, k);
          WithoutShrinks(s, k);
          ToFrontKeepsInv(s, cfg, x.(deadline := refresh + cfg.ttl), clock, refresh);
      }
    case DeleteOp(k) =>
      WithoutKeepsInv(s, cfg, clock, k);
    case SweepOp(now, at) =>
      FilterMember(s, LiveAt(now));
      FilterKeepsOrder(s, LiveAt(now));
  }

  lemma {:induction false} RunKeepsInv(s: seq<Slot>, cfg: Config, clock: int, ops: seq<Op>)
    requires Inv(s, cfg, clock) && Timed(ops, clock)
    ensures Inv(Run(s, cfg, ops).0, cfg, Clock(ops, clock))
    decreases |ops|
  {
    if ops != [] {
      DoKeepsInv(s, cfg, clock, ops[0]);
      RunKeepsInv(Do(s, cfg, ops[0]).0, cfg, After(ops[0], clock), ops[1..]);
    }
  }

  lemma {:induction false} RunAppend(s: seq<Slot>, cfg: Config, a: seq<Op>, b: seq<Op>)
    ensures Run(s, cfg, a + b).0 == Run(Run(s, cfg, a).0, cfg, b).0
    ensures Run(s, cfg, a + b).1 == Run(s, cfg, a).1 + Run(Run(s, cfg, a).0, cfg, b).1
    decreases |a|
  {
    if a == [] {
      assert a + b == b;
    } else {
      assert (a + b)[1..] == a[1..] + b;
      RunAppend(Do(s, cfg, a[0]).0, cfg, a[1..], b);
    }
  }
}

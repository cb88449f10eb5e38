/** The token store kept on a Valkey server, and why it never does worse than the local cache. */
module Valkey {
  import opened Tokens
  import opened Lru
  import opened Sharding

  const MILLISECOND := 1_000_000

  /** Milliseconds that last at least as long as `ttl` nanoseconds, and at least one. */
  function TtlMilliseconds(ttl: int): int {
    var q := Quotient(ttl, MILLISECOND);
    var ms := if ttl == q * MILLISECOND then q else q + 1;
    if ms > 1 then ms else 1
  }

  method ComputeTtlMilliseconds(ttl: int) returns (ms: int)
    ensures ms == TtlMilliseconds(ttl)
  {
    ms := Quotient(ttl, MILLISECOND);
    if ttl - ms * MILLISECOND != 0 {
      ms := ms + 1;
    }
    ms := if ms > 1 then ms else 1;
  }

  lemma TtlRoundsUp(ttl: int)
    ensures TtlMilliseconds(ttl) >= 1
    ensures ttl > 0 ==> ttl <= TtlMilliseconds(ttl) * 1_000_000 < ttl + 1_000_000
    ensures ttl <= 0 ==> TtlMilliseconds(ttl) == 1
  {
    if ttl < 0 {
      var q := -ttl / MILLISECOND;
      assert -ttl == q * MILLISECOND + -ttl % MILLISECOND;
      assert Quotient(ttl, MILLISECOND) == -q;
    }
  }

  /** The server keeps time in whole milliseconds. */
  function Millis(t: int): int {
    t / MILLISECOND
  }

  /** The millisecond a reading lies in. */
  lemma MillisRoundsDown(t: int)
    ensures Millis(t) * 1_000_000 <= t < Millis(t) * 1_000_000 + 1_000_000
  {
  }

  lemma MillisMonotone(a: int, b: int)
    requires a <= b
    ensures Millis(a) <= Millis(b)
  {
  }

  /** A stored value and the last millisecond in which it is still there. */
  datatype Stored = Stored(entry: Entry, until: int)

  type Db = map<string, Stored>

  ghost predicate Injective(keyOf: Token -> string) {
    forall a, b :: keyOf(a) == keyOf(b) ==> a == b
  }

  /** SET with PX, GETEX with PX and DEL, for a time to live of `px` milliseconds. */
  function DbSet(db: Db, key: string, entry: Entry, px: int, at: int): Db {
    db[key := Stored(entry, Millis(at) + px)]
  }

  function DbGetEx(db: Db, key: string, px: int, at: int): (Db, Option<Entry>) {
    if key in db && Millis(at) <= db[key].until
    then (db[key := Stored(db[key].entry, Millis(at) + px)], Some(db[key].entry))
    else (db - {key}, None)
  }

  function StoreDo(db: Db, keyOf: Token -> string, px: int, op: Op): (Db, Option<Entry>) {
    match op
    case PutOp(k, e, now) => (DbSet(db, keyOf(k), e, px, now), None)
    case GetOp(k, check, _) => DbGetEx(db, keyOf(k), px, check)
    case DeleteOp(k) => (db - {keyOf(k)}, None)
    case SweepOp(_, _) => (db, None)
  }

  function StoreRun(db: Db, keyOf: Token -> string, px: int, ops: seq<CacheOp>): (r: (Db, seq<Option<Entry>>))
    ensures |r.1| == |ops|
    decreases |ops|
  {
    if ops == [] then (db, []) else
    var (db1, reply) := StoreDo(db, keyOf, px, Inner(ops[0]));
    var (db2, replies) := StoreRun(db1, keyOf, px, ops[1..]);
    (db2, [reply] + replies)
  }

  /** How a command to the server can end; without an answer it may or may not have taken effect. */
  datatype Network = Answered | NeverArrived | AnswerLost

  /** Every other key is as it was. */
  ghost predicate OthersKept(before: Db, after: Db, key: string) {
    forall k :: k != key ==> (k in after <==> k in before) && (k in after ==> after[k] == before[k])
  }

  class ValkeyStore {
    var db: Db
    const ttl: int
    const keyOf: Token -> string

    constructor (ttl: int, keyOf: Token -> string)
      ensures db == map[] && this.ttl == ttl && this.keyOf == keyOf
    {
      this.ttl := ttl;
      this.keyOf := keyOf;
      db := map[];
    }

    method Put(token: Token, entry: Entry, at: int, net: Network) returns (ok: bool)
      modifies this
      ensures ok <==> net == Answered
      ensures db == if net == NeverArrived then old(db)
                    else StoreDo(old(db), keyOf, TtlMilliseconds(ttl), PutOp(token, entry, at)).0
      ensures net != NeverArrived ==> db == old(db)[keyOf(token) := Stored(entry, Millis(at) + TtlMilliseconds(ttl))]
    {
      var px := ComputeTtlMilliseconds(ttl);
      if net != NeverArrived {
        db := db[keyOf(token) := Stored(entry, Millis(at) + px)];
      }
      ok := net == Answered;
    }

    method Get(token: Token, at: int, net: Network) returns (reply: Option<Entry>, ok: bool)
      modifies this
      ensures ok <==> net == Answered
      ensures var (db', r) := StoreDo(old(db), keyOf, TtlMilliseconds(ttl), GetOp(token, at, at));
        db == (if net == NeverArrived then old(db) else db') && reply == (if ok then r else None)
      ensures var key := keyOf(token);
        var live := key in old(db) && Millis(at) <= old(db)[key].until;
        && (ok ==> reply == if live then Some(old(db)[key].entry) else None)
        && (net != NeverArrived ==>
              (key in db <==> live) && (live ==> db[key] == Stored(old(db)[key].entry, Millis(at) + TtlMilliseconds(ttl))))
      ensures OthersKept(old(db), db, keyOf(token))
    {
      var px := ComputeTtlMilliseconds(ttl);
      reply := None;
      if net != NeverArrived {
        var key := keyOf(token);
        if key in db && Millis(at) <= db[key].until {
          reply := Some(db[key].entry);
          db := db[key := Stored(db[key].entry, Millis(at) + px)];
        } else {
          db := db - {key};
        }
      }
      ok := net == Answered;
      if !ok {
        reply := None;
      }
    }

    method Delete(token: Token, net: Network) returns (ok: bool)
      modifies this
      ensures ok <==> net == Answered
      ensures db == if net == NeverArrived then old(db)
                    else StoreDo(old(db), keyOf, TtlMilliseconds(ttl), DeleteOp(token)).0
      ensures net != NeverArrived ==> keyOf(token) !in db
      ensures OthersKept(old(db), db, keyOf(token))
    {
      if net != NeverArrived {
        db := db - {keyOf(token)};
      }
      ok := net == Answered;
    }
  }

  // ---------- what a lookup finds ----------

  /** The entry of the last put of `k`, if it has not been deleted since. */
  function LastBinding(ops: seq<CacheOp>, k: Token): Option<Entry> {
    if ops == [] then None else
    var rest := ops[..|ops| - 1];
    match Inner(ops[|ops| - 1])
    case PutOp(j, e, _) => if j == k then Some(e) else LastBinding(rest, k)
    case DeleteOp(j) => if j == k then None else LastBinding(rest, k)
    case _ => LastBinding(rest, k)
  }

  /** When `k` was last put or looked up. */
  function LastUse(ops: seq<CacheOp>, k: Token): int {
    if ops == [] then 0 else
    var rest := ops[..|ops| - 1];
    match Inner(ops[|ops| - 1])
    case PutOp(j, _, now) => if j == k then now else LastUse(rest, k)
    case GetOp(j, check, _) => if j == k then check else LastUse(rest, k)
    case _ => LastUse(rest, k)
  }

  /** `k` has been put, not deleted since, and no lookup since then came more than `px` milliseconds after
      the use before it. */
  predicate KeptAlive(ops: seq<CacheOp>, k: Token, px: int) {
    ops != [] &&
    var rest := ops[..|ops| - 1];
    match Inner(ops[|ops| - 1])
    case PutOp(j, _, _) => j == k || KeptAlive(rest, k, px)
    case DeleteOp(j) => j != k && KeptAlive(rest, k, px)
    case GetOp(j, check, _) => KeptAlive(rest, k, px) && (j == k ==> Millis(check) <= Millis(LastUse(rest, k)) + px)
    case SweepOp(_, _) => KeptAlive(rest, k, px)
  }

  lemma {:induction false} StoreRunOn(db: Db, keyOf: Token -> string, px: int, ops: seq<CacheOp>, last: CacheOp)
    ensures StoreRun(db, keyOf, px, ops + [last]).0 == StoreDo(StoreRun(db, keyOf, px, ops).0, keyOf, px, Inner(last)).0
    ensures StoreRun(db, keyOf, px, ops + [last]).1
         == StoreRun(db, keyOf, px, ops).1 + [StoreDo(StoreRun(db, keyOf, px, ops).0, keyOf, px, Inner(last)).1]
    decreases |ops|
  {
    if ops == [] {
      assert ops + [last] == [last];
    } else {
      assert (ops + [last])[1..] == ops[1..] + [last];
      StoreRunOn(StoreDo(db, keyOf, px, Inner(ops[0])).0, keyOf, px, ops[1..], last);
    }
  }

  /** What the server holds under the key of `k`. */
  ghost predicate HoldsFor(db: Db, keyOf: Token -> string, px: int, ops: seq<CacheOp>, k: Token) {
    && (keyOf(k) in db <==> KeptAlive(ops, k, px))
    && (keyOf(k) in db ==> Some(db[keyOf(k)].entry) == LastBinding(ops, k) && db[keyOf(k)].until == Millis(LastUse(ops, k)) + px)
  }

  lemma {:induction false} StoreHolds(keyOf: Token -> string, px: int, ops: seq<CacheOp>, k: Token)
    requires Injective(keyOf)
    ensures HoldsFor(StoreRun(map[], keyOf, px, ops).0, keyOf, px, ops, k)
  {
    if ops != [] {
      var rest, last := ops[..|ops| - 1], ops[|ops| - 1];
      assert ops == rest + [last];
      StoreHolds(keyOf, px, rest, k);
      StoreRunOn(map[], keyOf, px, rest, last);
    }
  }

  /** On every trace a lookup finds the entry of the last put of its token that has not been deleted since,
      if the token has been used often enough in between, and otherwise nothing. */
  lemma FindsTheLastPut(keyOf: Token -> string, px: int, ops: seq<CacheOp>, n: nat)
    requires Injective(keyOf) && n < |ops| && Inner(ops[n]).GetOp?
    ensures var k, check, before := Inner(ops[n]).key, Inner(ops[n]).check, ops[..n];
      StoreRun(map[], keyOf, px, ops).1[n]
        == if KeptAlive(before, k, px) && Millis(check) <= Millis(LastUse(before, k)) + px then LastBinding(before, k) else None
  {
    StoreHolds(keyOf, px, ops[..n], Inner(ops[n]).key);
    ReplyAt(map[], keyOf, px, ops, n);
  }

  lemma {:induction false} ReplyAt(db: Db, keyOf: Token -> string, px: int, ops: seq<CacheOp>, n: nat)
    requires n < |ops|
    ensures StoreRun(db, keyOf, px, ops).1[n] == StoreDo(StoreRun(db, keyOf, px, ops[..n]).0, keyOf, px, Inner(ops[n])).1
    decreases |ops|
  {
    if n > 0 {
      ReplyAt(StoreDo(db, keyOf, px, Inner(ops[0])).0, keyOf, px, ops[1..], n - 1);
      assert ops[..n][1..] == ops[1..][..n - 1];
    }
  }

  lemma {:induction false} NoBindingSince(ops: seq<CacheOp>, m: nat, n: nat, k: Token)
    requires m < n <= |ops| && Inner(ops[m]) == DeleteOp(k)
    requires forall j :: m < j < n && Inner(ops[j]).PutOp? ==> Inner(ops[j]).key != k
    ensures LastBinding(ops[..n], k) == None
  {
    assert ops[..n][..n - 1] == ops[..n - 1];
    if m < n - 1 {
      NoBindingSince(ops, m, n - 1, k);
    }
  }

  /** A deleted token is not found again before it is put again. */
  lemma DeletedIsGone(keyOf: Token -> string, px: int, ops: seq<CacheOp>, m: nat, n: nat, k: Token)
    requires Injective(keyOf) && m < n < |ops| && Inner(ops[m]) == DeleteOp(k) && Inner(ops[n]).GetOp? && Inner(ops[n]).key == k
    requires forall j :: m < j < n && Inner(ops[j]).PutOp? ==> Inner(ops[j]).key != k
    ensures StoreRun(map[], keyOf, px, ops).1[n] == None
  {
    FindsTheLastPut(keyOf, px, ops, n);
    NoBindingSince(ops, m, n, k);
  }

  // ---------- domination ----------

  /** The server holds the slot for at least as long. */
  ghost predicate Covers(db: Db, keyOf: Token -> string, x: Slot) {
    && keyOf(x.key) in db
    && db[keyOf(x.key)].entry == x.entry
    && Millis(x.deadline) <= db[keyOf(x.key)].until
  }

  ghost predicate Dominates(db: Db, keyOf: Token -> string, c: Shards) {
    forall i, x :: 0 <= i < NUM_SHARDS && x in c[i] ==> Covers(db, keyOf, x)
  }

  /** The two clock readings of a local lookup are close enough for the rounding to absorb. */
  predicate Prompt(op: Op, ttl: int) {
    op.GetOp? ==> Millis(op.refresh + ttl) <= Millis(op.check) + TtlMilliseconds(ttl)
  }

  predicate AllPrompt(ops: seq<CacheOp>, ttl: int) {
    forall op :: op in ops ==> Prompt(Inner(op), ttl)
  }

  /** One reading for both purposes is always close enough. */
  lemma SameReadingIsPrompt(op: Op, ttl: int)
    requires ttl > 0 && (op.GetOp? ==> op.check == op.refresh)
    ensures Prompt(op, ttl)
  {
    TtlRoundsUp(ttl);
    if op.GetOp? {
      PxCovers(op.check, ttl);
    }
  }

  lemma PxCovers(now: int, ttl: int)
    requires ttl > 0
    ensures Millis(now + ttl) <= Millis(now) + TtlMilliseconds(ttl)
  {
    TtlRoundsUp(ttl);
    var px := TtlMilliseconds(ttl);
    assert now + ttl <= now + px * MILLISECOND;
    MillisMonotone(now + ttl, now + px * MILLISECOND);
  }

  /** Where the slots of a list come from. */
  lemma SlotsAfter(s: seq<Slot>, cfg: Config, op: Op, x: Slot)
    requires x in Do(s, cfg, op).0
    ensures (x in s && (op.PutOp? || op.GetOp? || op.DeleteOp? ==> x.key != op.key))
      || (op.PutOp? && x == Slot(op.key, op.entry, op.now + cfg.ttl))
      || (op.GetOp? && Find(s, op.key).Some? && op.check <= Find(s, op.key).value.deadline
          && x == Find(s, op.key).value.(deadline := op.refresh + cfg.ttl))
  {
    match op
    case PutOp(k, _, _) => WithoutMember(s, k);
    case GetOp(k, _, _) => WithoutMember(s, k); FindMember(s, k);
    case DeleteOp(k) => WithoutMember(s, k);
    case SweepOp(now, _) => FilterMember(s, LiveAt(now));
  }

  lemma CoversOther(db: Db, keyOf: Token -> string, px: int, op: Op, x: Slot)
    requires Injective(keyOf) && Covers(db, keyOf, x)
    requires op.PutOp? || op.GetOp? || op.DeleteOp? ==> x.key != op.key
    ensures Covers(StoreDo(db, keyOf, px, op).0, keyOf, x)
  {
  }

  lemma CoversHit(db: Db, keyOf: Token -> string, cfg: Config, op: Op, x: Slot)
    requires op.GetOp? && Covers(db, keyOf, x) && x.key == op.key && op.check <= x.deadline && Prompt(op, cfg.ttl)
    ensures var (db', reply) := StoreDo(db, keyOf, TtlMilliseconds(cfg.ttl), op);
      reply == Some(x.entry) && Covers(db', keyOf, x.(deadline := op.refresh + cfg.ttl))
  {
    MillisMonotone(op.check, x.deadline);
  }

  lemma StepDominates(db: Db, keyOf: Token -> string, c: Shards, h: Hash, cfg: Config, op: CacheOp)
    requires Injective(keyOf) && cfg.ttl > 0 && WellFormed(op) && Prompt(Inner(op), cfg.ttl)
    requires Dominates(db, keyOf, c) && AtHome(c, h)
    ensures var (c', r) := CacheDo(c, h, cfg, op);
      var (db', q) := StoreDo(db, keyOf, TtlMilliseconds(cfg.ttl), Inner(op));
      Dominates(db', keyOf, c') && (r.Some? ==> r == q)
  {
    var inner, i := Inner(op), Target(h, op);
    var px := TtlMilliseconds(cfg.ttl);
    var c' := CacheDo(c, h, cfg, op).0;
    var db' := StoreDo(db, keyOf, px, inner).0;
    if inner.GetOp? {
      FindMember(c[i], inner.key);
      if Find(c[i], inner.key).Some? && inner.check <= Find(c[i], inner.key).value.deadline {
        CoversHit(db, keyOf, cfg, inner, Find(c[i], inner.key).value);
      }
    }
    forall j, x | 0 <= j < NUM_SHARDS && x in c'[j] ensures Covers(db', keyOf, x) {
      if j == i {
        SlotsAfter(c[i], cfg, inner, x);
        if inner.PutOp? { PxCovers(inner.now, cfg.ttl); }
        if x in c[i] && (inner.SweepOp? || x.key != inner.key) { CoversOther(db, keyOf, px, inner, x); }
      } else {
        assert x in c[j];
        CoversOther(db, keyOf, px, inner, x);
      }
    }
  }

  lemma {:induction false} DominatesFrom(db: Db, keyOf: Token -> string, c: Shards, h: Hash, cfg: Config, ops: seq<CacheOp>)
    requires Injective(keyOf) && cfg.ttl > 0 && AllWellFormed(ops) && AllPrompt(ops, cfg.ttl)
    requires Dominates(db, keyOf, c) && AtHome(c, h)
    ensures HitsIncluded(CacheRun(c, h, cfg, ops).1, StoreRun(db, keyOf, TtlMilliseconds(cfg.ttl), ops).1)
    decreases |ops|
  {
    if ops != [] {
      StepDominates(db, keyOf, c, h, cfg, ops[0]);
      StepAtHome(c, h, cfg, ops[0]);
      var c' := CacheDo(c, h, cfg, ops[0]).0;
      DominatesFrom(StoreDo(db, keyOf, TtlMilliseconds(cfg.ttl), Inner(ops[0])).0, keyOf, c', h, cfg, ops[1..]);
    }
  }

  /** On every trace each hit of the bounded, swept, sharded local cache is a hit of the Valkey
      store with the same entry. */
  lemma ValkeyDominatesLocal(keyOf: Token -> string, h: Hash, cfg: Config, ops: seq<CacheOp>)
    requires Injective(keyOf) && cfg.ttl > 0 && AllWellFormed(ops) && AllPrompt(ops, cfg.ttl)
    ensures HitsIncluded(CacheRun(Empty(), h, cfg, ops).1,
                         StoreRun(map[], keyOf, TtlMilliseconds(cfg.ttl), ops).1)
  {
    DominatesFrom(map[], keyOf, Empty(), h, cfg, ops);
  }

  /** Promptness is needed: put a token, look it up with the readings `check` and `refresh`, and look
      again at the very end of the deadline that set. The cache hits both times; the server still has the
      token just if the first lookup was prompt. */
  lemma PromptIsNeeded(keyOf: Token -> string, h: Hash, cfg: Config, k: Token, e: Entry, check: int, refresh: int)
    requires cfg.ttl > 0 && check <= refresh
    ensures var ops := Telling(cfg, k, e, check, refresh);
      && AllWellFormed(ops) && CacheTimed(ops, h, Steady(check))
      && CacheRun(Empty(), h, cfg, ops).1 == [None, Some(e), Some(e)]
      && StoreRun(map[], keyOf, TtlMilliseconds(cfg.ttl), ops).1
         == [None, Some(e), if Prompt(GetOp(k, check, refresh), cfg.ttl) then Some(e) else None]
  {
    var ops := Telling(cfg, k, e, check, refresh);
    TellingTimed(h, cfg, k, e, check, refresh);
    TellingCache(h, cfg, k, e, check, refresh);
    TellingStore(keyOf, cfg, k, e, check, refresh);
  }

  function Telling(cfg: Config, k: Token, e: Entry, check: int, refresh: int): seq<CacheOp> {
    [KeyOp(PutOp(k, e, check)), KeyOp(GetOp(k, check, refresh)), KeyOp(GetOp(k, refresh + cfg.ttl, refresh + cfg.ttl))]
  }

  lemma TellingTimed(h: Hash, cfg: Config, k: Token, e: Entry, check: int, refresh: int)
    requires cfg.ttl > 0 && check <= refresh
    ensures var ops := Telling(cfg, k, e, check, refresh);
      AllWellFormed(ops) && CacheTimed(ops, h, Steady(check))
  {
    var ops := Telling(cfg, k, e, check, refresh);
    var i, c0 := ShardOf(h, k), Steady(check);
    var c2 := ClocksAfter(c0, h, ops[1]);
    assert ops[1..] == [ops[1], ops[2]] && ops[1..][1..] == [ops[2]];
    assert ClocksAfter(c0, h, ops[0]) == c0;
    assert c2[i] == refresh;
    assert CacheTimed([ops[2]], h, c2);
    assert CacheTimed([ops[1], ops[2]], h, c0);
  }

  lemma TellingCache(h: Hash, cfg: Config, k: Token, e: Entry, check: int, refresh: int)
    requires cfg.ttl > 0 && check <= refresh
    ensures AllWellFormed(Telling(cfg, k, e, check, refresh))
    ensures CacheRun(Empty(), h, cfg, Telling(cfg, k, e, check, refresh)).1 == [None, Some(e), Some(e)]
  {
    var ops := Telling(cfg, k, e, check, refresh);
    var i := ShardOf(h, k);
    assert Without([], k) == [];
    var c1 := CacheDo(Empty(), h, cfg, ops[0]).0;
    assert c1[i] == [Slot(k, e, check + cfg.ttl)];
    assert Without(c1[i], k) == [];
    var c2 := CacheDo(c1, h, cfg, ops[1]).0;
    assert c2[i] == [Slot(k, e, refresh + cfg.ttl)];
    assert ops[1..] == [ops[1], ops[2]] && ops[1..][1..] == [ops[2]];
    assert CacheDo(c2, h, cfg, ops[2]).1 == Some(e);
    assert CacheRun(c2, h, cfg, [ops[2]]).1 == [Some(e)];
    assert CacheRun(c1, h, cfg, [ops[1], ops[2]]).1 == [Some(e), Some(e)];
  }

  lemma TellingStore(keyOf: Token -> string, cfg: Config, k: Token, e: Entry, check: int, refresh: int)
    requires cfg.ttl > 0 && check <= refresh
    ensures StoreRun(map[], keyOf, TtlMilliseconds(cfg.ttl), Telling(cfg, k, e, check, refresh)).1
         == [None, Some(e), if Prompt(GetOp(k, check, refresh), cfg.ttl) then Some(e) else None]
  {
    var ops, px := Telling(cfg, k, e, check, refresh), TtlMilliseconds(cfg.ttl);
    TtlRoundsUp(cfg.ttl);
    var d1 := StoreDo(map[], keyOf, px, Inner(ops[0])).0;
    var d2 := StoreDo(d1, keyOf, px, Inner(ops[1])).0;
    assert d2[keyOf(k)] == Stored(e, Millis(check) + px);
    var last := StoreDo(d2, keyOf, px, Inner(ops[2])).1;
    assert ops[1..] == [ops[1], ops[2]] && ops[1..][1..] == [ops[2]];
    assert StoreRun(d2, keyOf, px, [ops[2]]).1 == [last];
    assert StoreRun(d1, keyOf, px, [ops[1], ops[2]]).1 == [Some(e), last];
  }

  /** A lookup takes one reading for both purposes, or two that may occur. */
  predicate ReadsAs(op: Op, mayOccur: (int, int) -> bool) {
    op.GetOp? ==> op.check == op.refresh || (op.check < op.refresh && mayOccur(op.check, op.refresh))
  }

  ghost predicate ReadingsFrom(ops: seq<CacheOp>, mayOccur: (int, int) -> bool) {
    forall op :: op in ops ==> ReadsAs(Inner(op), mayOccur)
  }

  ghost predicate Covered(ops: seq<CacheOp>, keyOf: Token -> string, h: Hash, cfg: Config) {
    AllWellFormed(ops) ==>
      HitsIncluded(CacheRun(Empty(), h, cfg, ops).1, StoreRun(map[], keyOf, TtlMilliseconds(cfg.ttl), ops).1)
  }

  ghost predicate CoversAllTraces(mayOccur: (int, int) -> bool, keyOf: Token -> string, h: Hash, cfg: Config) {
    forall ops: seq<CacheOp> :: ReadingsFrom(ops, mayOccur) ==> Covered(ops, keyOf, h, cfg)
  }

  /** The exact condition. Whatever pairs of readings the lookups of a local cache may take, the Valkey
      store has every hit of the cache on every trace if and only if all those pairs are prompt. */
  lemma DominatesIffPrompt(mayOccur: (int, int) -> bool, keyOf: Token -> string, h: Hash, cfg: Config)
    requires Injective(keyOf) && cfg.ttl > 0
    ensures CoversAllTraces(mayOccur, keyOf, h, cfg)
      <==> forall check, refresh :: check < refresh && mayOccur(check, refresh) ==> Prompt(GetOp("", check, refresh), cfg.ttl)
  {
    if forall check, refresh :: check < refresh && mayOccur(check, refresh) ==> Prompt(GetOp("", check, refresh), cfg.ttl) {
      forall ops: seq<CacheOp> | ReadingsFrom(ops, mayOccur) ensures Covered(ops, keyOf, h, cfg) {
        PromptTrace(ops, mayOccur, cfg.ttl);
        if AllWellFormed(ops) {
          ValkeyDominatesLocal(keyOf, h, cfg, ops);
        }
      }
    } else {
      var check, refresh :| check < refresh && mayOccur(check, refresh) && !Prompt(GetOp("", check, refresh), cfg.ttl);
      NotCovered(mayOccur, keyOf, h, cfg, check, refresh);
    }
  }

  lemma PromptTrace(ops: seq<CacheOp>, mayOccur: (int, int) -> bool, ttl: int)
    requires ttl > 0 && ReadingsFrom(ops, mayOccur)
    requires forall check, refresh :: check < refresh && mayOccur(check, refresh) ==> Prompt(GetOp("", check, refresh), ttl)
    ensures AllPrompt(ops, ttl)
  {
    forall op | op in ops ensures Prompt(Inner(op), ttl) {
      if Inner(op).GetOp? && Inner(op).check == Inner(op).refresh {
        SameReadingIsPrompt(Inner(op), ttl);
      } else if Inner(op).GetOp? {
        assert Prompt(GetOp("", Inner(op).check, Inner(op).refresh), ttl);
      }
    }
  }

  lemma NotCovered(mayOccur: (int, int) -> bool, keyOf: Token -> string, h: Hash, cfg: Config, check: int, refresh: int)
    requires cfg.ttl > 0 && check < refresh && mayOccur(check, refresh) && !Prompt(GetOp("", check, refresh), cfg.ttl)
    ensures !CoversAllTraces(mayOccur, keyOf, h, cfg)
  {
    var ops := Telling(cfg, "", Entry("", ""), check, refresh);
    PromptIsNeeded(keyOf, h, cfg, "", Entry("", ""), check, refresh);
    assert ReadingsFrom(ops, mayOccur);
    var r, q := CacheRun(Empty(), h, cfg, ops).1, StoreRun(map[], keyOf, TtlMilliseconds(cfg.ttl), ops).1;
    assert r[2].Some? && q[2].None?;
    assert !Covered(ops, keyOf, h, cfg);
  }
}

/** The sharded cache as an object: 32 shards, each updated in place. */
module Caches {
  import opened Tokens
  import opened Lru
  import opened Shards
  import Sharding

  /** A tick is 32 sweeps of single shards, in order. */
  function TickOps(now: int, at: int, n: nat): (ops: seq<Sharding.CacheOp>)
    requires n <= Sharding.NUM_SHARDS
    ensures Sharding.AllWellFormed(ops)
  {
    if n == 0 then [] else TickOps(now, at, n - 1) + [Sharding.SweepShard(n - 1, now, at)]
  }

  lemma {:induction false} TickIsASequenceOfSweeps(c: Sharding.Shards, h: Sharding.Hash, cfg: Config, now: int, at: int, n: nat)
    requires n <= Sharding.NUM_SHARDS
    ensures var c' := Sharding.CacheRun(c, h, cfg, TickOps(now, at, n)).0;
      forall j :: 0 <= j < Sharding.NUM_SHARDS ==> c'[j] == if j < n then Sweep(c[j], now) else c[j]
  {
    if n > 0 {
      TickIsASequenceOfSweeps(c, h, cfg, now, at, n - 1);
      Sharding.CacheRunAppend(c, h, cfg, TickOps(now, at, n - 1), Sharding.SweepShard(n - 1, now, at));
    }
  }

  class Cache {
    const shards: seq<Shard>
    ghost const perShard: int
    const ttl: int
    const hash: Sharding.Hash

    ghost predicate Valid()
      reads this, shards
    {
      && |shards| == Sharding.NUM_SHARDS
      && (forall i :: 0 <= i < |shards| ==> shards[i].Valid() && shards[i].maxSize == perShard)
      && (forall i, j :: 0 <= i < j < |shards| ==> shards[i] != shards[j])
    }

    ghost function Cfg(): Config {
      Config(perShard, ttl)
    }

    /** The objects of the shards: the shards themselves and their list elements. */
    ghost function Footprint(): (f: set<object>)
      reads this, shards
      ensures forall i :: 0 <= i < |shards| ==> shards[i] in f
      ensures forall i, it :: 0 <= i < |shards| && it in shards[i].Elements() ==> it in f
    {
      (set i | 0 <= i < |shards| :: shards[i] as object) + (set s, it | s in shards && it in s.Elements() :: it as object)
    }

    ghost function State(): (c: Sharding.Shards)
      requires Valid()
      reads this, shards, Footprint()
      ensures forall i :: 0 <= i < Sharding.NUM_SHARDS ==> c[i] == shards[i].Contents()
    {
      seq(Sharding.NUM_SHARDS, i requires 0 <= i < |shards|
            reads this, shards, Footprint() => assert forall it :: it in shards[i].ll ==> it in shards[i].Elements(); shards[i].Contents())
    }

    constructor (ttl: int, maxSize: int, hash: Sharding.Hash)
      ensures Valid() && fresh(Footprint())
      ensures State() == Sharding.Empty() && this.hash == hash && Cfg() == Config(Sharding.PerShard(maxSize), ttl)
    {
      var perShard := Sharding.PerShard(maxSize);
      var built: seq<Shard> := [];
      while |built| < Sharding.NUM_SHARDS
        invariant |built| <= Sharding.NUM_SHARDS
        invariant forall i :: 0 <= i < |built| ==> fresh(built[i])
        invariant forall i :: 0 <= i < |built| ==> built[i].Valid() && built[i].ll == [] && built[i].maxSize == perShard
        invariant forall i, j :: 0 <= i < j < |built| ==> built[i] != built[j]
      {
        var s := new Shard(perShard);
        built := built + [s];
      }
      this.shards := built;
      this.perShard := perShard;
      this.ttl := ttl;
      this.hash := hash;
    }

    function ShardFor(token: Token): (i: nat)
      ensures i < Sharding.NUM_SHARDS
    {
      Sharding.ShardOf(hash, token)
    }

    /** No two shards share an object. */
    lemma ShardsApart(i: nat)
      requires Valid() && i < |shards|
      ensures forall j, it :: 0 <= j < |shards| && j != i && it in shards[j].ll ==> it !in shards[i].Elements()
    {
    }

    method Put(token: Token, entry: Entry, now: int)
      requires Valid()
      modifies Footprint()
      ensures Valid() && fresh(Footprint() - old(Footprint()))
      ensures State() == Sharding.CacheDo(old(State()), hash, Cfg(), Sharding.KeyOp(PutOp(token, entry, now))).0
    {
      var i := ShardFor(token);
      ghost var before := State();
      ghost var s := Lru.Put(before[i], perShard, Slot(token, entry, now + ttl));
      assert Sharding.CacheDo(before, hash, Cfg(), Sharding.KeyOp(PutOp(token, entry, now))).0 == before[i := s];
      ShardsApart(i);
      hide Agree, Slots, Lru.Put, Sharding.CacheDo, Members, Owned;
      shards[i].Put(token, entry, ttl, now);
      forall j | 0 <= j < |shards| && j != i
        ensures shards[j].Valid() && shards[j].Contents() == old(shards[j].Contents())
        ensures shards[j].Elements() == old(shards[j].Elements())
      {
        assert shards[j] != shards[i];
      }
      assert State() == before[i := s];
    }

    method Get(token: Token, check: int, refresh: int) returns (reply: Option<Entry>)
      requires Valid()
      modifies Footprint()
      ensures Valid() && Footprint() <= old(Footprint())
      ensures (State(), reply) == Sharding.CacheDo(old(State()), hash, Cfg(), Sharding.KeyOp(GetOp(token, check, refresh)))
    {
      var i := ShardFor(token);
      ghost var before := State();
      ghost var (s, r) := Lru.Get(before[i], ttl, token, check, refresh);
      assert Sharding.CacheDo(before, hash, Cfg(), Sharding.KeyOp(GetOp(token, check, refresh))) == (before[i := s], r);
      ShardsApart(i);
      hide Agree, Slots, Lru.Get, Sharding.CacheDo, Members, Owned;
      reply := shards[i].Get(token, ttl, check, refresh);
      assert forall j :: 0 <= j < |shards| && j != i ==> shards[j].Valid() && shards[j].Contents() == old(shards[j].Contents());
      assert State() == before[i := s];
    }

    method Delete(token: Token)
      requires Valid()
      modifies Footprint()
      ensures Valid() && Footprint() <= old(Footprint())
      ensures State() == Sharding.CacheDo(old(State()), hash, Cfg(), Sharding.KeyOp(DeleteOp(token))).0
    {
      var i := ShardFor(token);
      hide Agree, Slots, Without;
      shards[i].Delete(token);
      assert forall j :: 0 <= j < |shards| && j != i ==> shards[j].Valid() && shards[j].Contents() == old(shards[j].Contents());
    }

    /** One tick of the janitor: sweep the shards one after the other with the same clock reading. */
    method Tick(now: int)
      requires Valid()
      modifies Footprint()
      ensures Valid() && Footprint() <= old(Footprint())
      ensures forall at :: State() == Sharding.CacheRun(old(State()), hash, Cfg(), TickOps(now, at, Sharding.NUM_SHARDS)).0
    {
      var i := 0;
      hide Agree, Slots, Sweep;
      while i < |shards|
        invariant 0 <= i <= |shards| && Valid()
        invariant forall j :: 0 <= j < |shards| ==> shards[j].Elements() <= old(shards[j].Elements())
        invariant forall j :: 0 <= j < i ==> shards[j].Contents() == Sweep(old(shards[j].Contents()), now)
        invariant forall j :: i <= j < |shards| ==> shards[j].Contents() == old(shards[j].Contents())
      {
        shards[i].EvictExpired(now);
        i := i + 1;
      }
      forall at ensures State() == Sharding.CacheRun(old(State()), hash, Cfg(), TickOps(now, at, Sharding.NUM_SHARDS)).0 {
        TickIsASequenceOfSweeps(old(State()), hash, Cfg(), now, at, Sharding.NUM_SHARDS);
      }
    }
  }
}

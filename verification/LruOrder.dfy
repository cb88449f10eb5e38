/** List order is deadline order: what follows for expiry, sweeping and eviction. */
module LruOrder {
  import opened Tokens
  import opened Lru

  lemma {:induction false} SortedAt(s: seq<Slot>, i: nat, j: nat)
    requires Sorted(s) && i < j < |s|
    ensures s[j].deadline <= s[i].deadline
  {
    if i == 0 {
      assert s[j] == s[1..][j - 1];
    } else {
      SortedAt(s[1..], i - 1, j - 1);
    }
  }

  lemma {:induction false} DistinctAt(s: seq<Slot>, i: nat, j: nat)
    requires Distinct(s) && i < j < |s|
    ensures s[i].key != s[j].key
  {
    if i == 0 {
      assert s[j] == s[1..][j - 1];
    } else {
      DistinctAt(s[1..], i - 1, j - 1);
    }
  }

  /** In a list sorted by deadline a sweep cuts off a suffix: the live slots come first. */
  lemma {:induction false} SweepIsPrefix(s: seq<Slot>, now: int)
    requires Sorted(s)
    ensures |Sweep(s, now)| <= |s|
    ensures Sweep(s, now) == s[..|Sweep(s, now)|]
    ensures forall i :: 0 <= i < |s| ==> (now <= s[i].deadline <==> i < |Sweep(s, now)|)
  {
    if s != [] {
      if now <= s[0].deadline {
        SweepIsPrefix(s[1..], now);
        var n := |Sweep(s[1..], now)|;
        assert s[..n + 1] == [s[0]] + s[1..][..n];
        forall i | 0 <= i < |s| ensures now <= s[i].deadline <==> i < |Sweep(s, now)| {
          if i > 0 {
            assert s[i] == s[1..][i - 1];
          }
        }
      } else {
        FilterNone(s, LiveAt(now));
      }
    }
  }

  /** In every reachable shard state the list is sorted front to back by non-increasing deadline,
      no key occurs twice and the capacity is respected. */
  lemma DeadlineOrder(cfg: Config, clock: int, ops: seq<Op>, i: nat, j: nat)
    requires Timed(ops, clock) && i < j < |Run([], cfg, ops).0|
    ensures var s := Run([], cfg, ops).0;
      && s[j].deadline <= s[i].deadline
      && s[i].key != s[j].key
      && (cfg.cap > 0 ==> |s| <= cfg.cap)
  {
    RunKeepsInv([], cfg, clock, ops);
    SortedAt(Run([], cfg, ops).0, i, j);
    DistinctAt(Run([], cfg, ops).0, i, j);
  }

  lemma FullPut(s: seq<Slot>, cap: int, x: Slot)
    requires cap > 0 && !HasKey(s, x.key) && |s| == cap
    ensures Put(s, cap, x) == [x] + s[..|s| - 1]
  {
    FilterAll(s, OtherThan(x.key));
  }

  /** A put that pushes a slot out of a full shard pushes out exactly the one with the earliest
      deadline, never the one just put; so a live slot goes only if every slot is live. */
  lemma EvictionTakesTheEarliest(s: seq<Slot>, cfg: Config, clock: int, k: Token, e: Entry, now: int)
    requires Inv(s, cfg, clock) && clock <= now
    requires cfg.cap > 0 && !HasKey(s, k) && |s| == cfg.cap
    ensures var x := Slot(k, e, now + cfg.ttl);
      var s' := Put(s, cfg.cap, x);
      && s' == [x] + s[..|s| - 1]
      && (forall y :: y in s' ==> s[|s| - 1].deadline <= y.deadline)
      && (now <= s[|s| - 1].deadline ==> forall y :: y in s' ==> now <= y.deadline)
  {
    var x := Slot(k, e, now + cfg.ttl);
    FullPut(s, cfg.cap, x);
    hide Distinct, Sorted, Put;
    forall y | y in [x] + s[..|s| - 1] ensures s[|s| - 1].deadline <= y.deadline {
      if y != x {
        var i :| 0 <= i < |s| - 1 && s[i] == y;
        SortedAt(s, i, |s| - 1);
      }
    }
  }

  lemma FrontWithout(s: seq<Slot>)
    requires Distinct(s) && s != []
    ensures Without(s, s[0].key) == s[1..]
  {
    FilterAll(s[1..], OtherThan(s[0].key));
  }

  /** A lookup leaves the list as it is exactly when it misses an absent key, or hits the front
      slot in the very instant that slot was last refreshed: otherwise even the lookup of a call
      that is then denied slides a deadline, moves a slot or drops an expired one. */
  lemma GetUnchangedIff(s: seq<Slot>, cfg: Config, clock: int, k: Token, check: int, refresh: int)
    requires Inv(s, cfg, clock) && clock <= check <= refresh
    ensures (Get(s, cfg.ttl, k, check, refresh).0 == s)
      <==> (!HasKey(s, k) || (s[0].key == k && check <= s[0].deadline == refresh + cfg.ttl))
  {
    hide Distinct, Sorted, Bounded;
    FindMember(s, k);
    if HasKey(s, k) {
      WithoutShrinks(s, k);
      if s[0].key == k {
        assert Without(s, k) == s[1..] by { FrontWithout(s); }
        assert s == [s[0]] + s[1..];
      }
    }
  }

  /** What a lookup does to the bindings: every other token keeps its slot, and the token looked up
      keeps its entry unless it had already expired. */
  lemma GetKeepsBindings(s: seq<Slot>, cfg: Config, clock: int, k: Token, check: int, refresh: int, j: Token)
    requires Inv(s, cfg, clock) && clock <= check <= refresh
    ensures var s' := Get(s, cfg.ttl, k, check, refresh).0;
      && (j != k ==> Find(s', j) == Find(s, j))
      && (Find(s, k).Some? && check <= Find(s, k).value.deadline ==>
            Find(s', k) == Some(Find(s, k).value.(deadline := refresh + cfg.ttl)))
      && (Find(s, k).None? || Find(s, k).value.deadline < check ==> Find(s', k).None?)
  {
    FindMember(s, k);
    FindFilter(s, j, OtherThan(k));
    FindFilter(s, k, OtherThan(k));
    FindMember(s, j);
    if Find(s, k).Some? {
      var x := Find(s, k).value.(deadline := refresh + cfg.ttl);
      assert ([x] + Without(s, k))[1..] == Without(s, k);
    }
  }
}

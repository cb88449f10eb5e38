/** A larger shard never does worse: on the same trace the list of the smaller shard stays a
    subsequence of the list of the larger one. No assumption on the clock is needed. */
module LruInclusion {
  import opened Tokens
  import opened Lru

  /** `a` is `b` with some slots left out. */
  ghost predicate Sub(a: seq<Slot>, b: seq<Slot>) {
    if a == [] then true
    else b != [] && (if a[0] == b[0] then Sub(a[1..], b[1..]) else Sub(a, b[1..]))
  }

  /** A capacity of zero or less means no bound. */
  predicate NoSmaller(large: int, small: int) {
    large <= 0 || 0 < small <= large
  }

  lemma {:induction false} SubMember(a: seq<Slot>, b: seq<Slot>)
    requires Sub(a, b)
    ensures |a| <= |b| && forall x :: x in a ==> x in b
    decreases |b|
  {
    if a != [] {
      assert a == [a[0]] + a[1..] && b == [b[0]] + b[1..];
      if a[0] == b[0] { SubMember(a[1..], b[1..]); } else { SubMember(a, b[1..]); }
    }
  }

  lemma {:induction false} SubTail(a: seq<Slot>, b: seq<Slot>)
    requires Sub(a, b) && a != []
    ensures Sub(a[1..], b)
    decreases |b|, 1
  {
    if a[0] != b[0] {
      SubTail(a, b[1..]);
      SubSkip(a[1..], b);
    } else {
      SubSkip(a[1..], b);
    }
  }

  lemma {:induction false} SubSkip(a: seq<Slot>, b: seq<Slot>)
    requires b != [] && Sub(a, b[1..])
    ensures Sub(a, b)
    decreases |b|, 0
  {
    if a != [] && a[0] == b[0] {
      SubTail(a, b[1..]);
    }
  }

  /** Filtering keeps the relation and never widens the gap in length. */
  lemma {:induction false} SubFilter(a: seq<Slot>, b: seq<Slot>, keep: Slot -> bool)
    requires Sub(a, b)
    ensures Sub(Filter(a, keep), Filter(b, keep))
    ensures |Filter(b, keep)| - |Filter(a, keep)| <= |b| - |a|
    decreases |b|
  {
    if a == [] {
      FilterMember(b, keep);
    } else if a[0] == b[0] {
      SubFilter(a[1..], b[1..], keep);
      if keep(b[0]) {
        assert Filter(a, keep)[1..] == Filter(a[1..], keep);
        assert Filter(b, keep)[1..] == Filter(b[1..], keep);
      }
    } else {
      SubFilter(a, b[1..], keep);
      if keep(b[0]) {
        assert Filter(b, keep)[1..] == Filter(b[1..], keep);
        SubSkip(Filter(a, keep), Filter(b, keep));
      }
    }
  }

  lemma {:induction false} SubDropLastOfSmall(a: seq<Slot>, b: seq<Slot>)
    requires Sub(a, b) && a != []
    ensures Sub(a[..|a| - 1], b)
    decreases |b|
  {
    if |a| > 1 {
      if a[0] == b[0] {
        SubDropLastOfSmall(a[1..], b[1..]);
        assert a[..|a| - 1][1..] == a[1..][..|a| - 2];
      } else {
        SubDropLastOfSmall(a, b[1..]);
        SubSkip(a[..|a| - 1], b);
      }
    }
  }

  lemma {:induction false} SubDropLastOfBoth(a: seq<Slot>, b: seq<Slot>)
    requires Sub(a, b) && a != []
    ensures b != [] && Sub(a[..|a| - 1], b[..|b| - 1])
    decreases |b|
  {
    if |a| > 1 {
      SubMember(a, b);
      assert b[..|b| - 1][1..] == b[1..][..|b| - 2];
      if a[0] == b[0] {
        SubDropLastOfBoth(a[1..], b[1..]);
        assert a[..|a| - 1][1..] == a[1..][..|a| - 2];
      } else {
        SubDropLastOfBoth(a, b[1..]);
      }
    }
  }

  lemma {:induction false} SubLongEnough(a: seq<Slot>, b: seq<Slot>)
    requires Sub(a, b) && |a| == |b|
    ensures a == b
    decreases |b|
  {
    if a != [] {
      if a[0] == b[0] {
        SubLongEnough(a[1..], b[1..]);
        assert a == [a[0]] + a[1..] && b == [b[0]] + b[1..];
      } else {
        SubMember(a, b[1..]);
      }
    }
  }

  /** The relation between the small list and the large one: a subsequence, within the bounds, and
      no further behind than the capacities differ. */
  ghost predicate Included(a: seq<Slot>, small: int, b: seq<Slot>, large: int) {
    && Sub(a, b) && Distinct(a) && Distinct(b)
    && (small > 0 ==> |a| <= small)
    && (large > 0 ==> |b| <= large && |b| - |a| <= large - small)
  }

  lemma TruncateIncluded(a: seq<Slot>, small: int, b: seq<Slot>, large: int)
    requires NoSmaller(large, small) && Sub(a, b) && Distinct(a) && Distinct(b)
    requires small > 0 ==> |a| <= small + 1
    requires large > 0 ==> |b| <= large + 1 && |b| - |a| <= large - small
    ensures Included(Truncate(a, small), small, Truncate(b, large), large)
  {
    SubMember(a, b);
    if 0 < small < |a| {
      PrefixKeepsOrder(a, small);
      assert a[..small] == a[..|a| - 1];
      if 0 < large < |b| {
        PrefixKeepsOrder(b, large);
        SubDropLastOfBoth(a, b);
      } else {
        SubDropLastOfSmall(a, b);
      }
    } else if 0 < large < |b| {
      assert false;
    }
  }

  lemma WithoutIncluded(a: seq<Slot>, small: int, b: seq<Slot>, large: int, keep: Slot -> bool)
    requires Included(a, small, b, large)
    ensures Included(Filter(a, keep), small, Filter(b, keep), large)
  {
    SubFilter(a, b, keep);
    FilterMember(a, keep);
    FilterMember(b, keep);
    FilterKeepsOrder(a, keep);
    FilterKeepsOrder(b, keep);
  }

  lemma FrontDistinct(x: Slot, s: seq<Slot>)
    requires Distinct(s)
    ensures Distinct([x] + Without(s, x.key))
  {
    FilterMember(s, OtherThan(x.key));
    FilterKeepsOrder(s, OtherThan(x.key));
    assert ([x] + Without(s, x.key))[1..] == Without(s, x.key);
  }

  /** A touched key moves to the front, with the same slot in both lists. */
  lemma FrontIncluded(a: seq<Slot>, small: int, b: seq<Slot>, large: int, x: Slot)
    requires Included(a, small, b, large)
    ensures var a' := [x] + Without(a, x.key);
      var b' := [x] + Without(b, x.key);
      && Sub(a', b') && Distinct(a') && Distinct(b')
      && |a'| <= |a| + 1 && |b'| <= |b| + 1
      && |b'| - |a'| <= |b| - |a|
  {
    WithoutIncluded(a, small, b, large, OtherThan(x.key));
    SubFilter(a, b, OtherThan(x.key));
    WithoutMember(a, x.key);
    WithoutMember(b, x.key);
    FrontDistinct(x, a);
    FrontDistinct(x, b);
    assert ([x] + Without(a, x.key))[1..] == Without(a, x.key);
    assert ([x] + Without(b, x.key))[1..] == Without(b, x.key);
  }

  lemma AbsentWithout(s: seq<Slot>, k: Token)
    requires Find(s, k).None?
    ensures Without(s, k) == s
  {
    FindMember(s, k);
    FilterAll(s, OtherThan(k));
  }

  lemma {:induction false} WithoutDropsOne(s: seq<Slot>, k: Token)
    requires Distinct(s) && HasKey(s, k)
    ensures |Without(s, k)| == |s| - 1
  {
    if s[0].key == k {
      FilterAll(s[1..], OtherThan(k));
    } else {
      assert s == [s[0]] + s[1..];
      WithoutDropsOne(s[1..], k);
    }
  }

  lemma GetIncluded(a: seq<Slot>, small: int, b: seq<Slot>, large: int, ttl: int, op: Op)
    requires op.GetOp? && NoSmaller(large, small) && Included(a, small, b, large)
    ensures var (a', r) := Do(a, Config(small, ttl), op);
      var (b', q) := Do(b, Config(large, ttl), op);
      Included(a', small, b', large) && (r.Some? ==> r == q)
  {
    var k := op.key;
    FindMember(a, k);
    FindMember(b, k);
    SubMember(a, b);
    SubFilter(a, b, OtherThan(k));
    WithoutIncluded(a, small, b, large, OtherThan(k));
    match Find(b, k) {
      case None =>
        assert Find(a, k).None?;
      case Some(y) =>
        WithoutDropsOne(b, k);
        var y' := y.(deadline := op.refresh + ttl);
        FrontDistinct(y', b);
        if Find(a, k).None? {
          AbsentWithout(a, k);
          assert ([y'] + Without(b, k))[1..] == Without(b, k);
          SubSkip(a, [y'] + Without(b, k));
        } else {
          WithoutDropsOne(a, k);
          FrontIncluded(a, small, b, large, y');
        }
    }
  }

  lemma DoIncluded(a: seq<Slot>, small: int, b: seq<Slot>, large: int, ttl: int, op: Op)
    requires NoSmaller(large, small) && Included(a, small, b, large)
    ensures var (a', r) := Do(a, Config(small, ttl), op);
      var (b', q) := Do(b, Config(large, ttl), op);
      Included(a', small, b', large) && (r.Some? ==> r == q)
  {
    match op
    case PutOp(k, e, now) =>
      var x := Slot(k, e, now + ttl);
      FrontIncluded(a, small, b, large, x);
      TruncateIncluded([x] + Without(a, k), small, [x] + Without(b, k), large);
    case GetOp(_, _, _) => GetIncluded(a, small, b, large, ttl, op);
    case DeleteOp(k) => WithoutIncluded(a, small, b, large, OtherThan(k));
    case SweepOp(now, _) => WithoutIncluded(a, small, b, large, LiveAt(now));
  }

  lemma {:induction false} LruInclusionFrom(a: seq<Slot>, small: int, b: seq<Slot>, large: int, ttl: int, ops: seq<Op>)
    requires NoSmaller(large, small) && Included(a, small, b, large)
    ensures var (a', r) := Run(a, Config(small, ttl), ops);
      var (b', q) := Run(b, Config(large, ttl), ops);
      Included(a', small, b', large) && HitsIncluded(r, q)
    decreases |ops|
  {
    if ops != [] {
      DoIncluded(a, small, b, large, ttl, ops[0]);
      LruInclusionFrom(Do(a, Config(small, ttl), ops[0]).0, small,
                       Do(b, Config(large, ttl), ops[0]).0, large, ttl, ops[1..]);
    }
  }

  /** LRU inclusion, with deletes, expiry and sweeps: on every trace each hit of the smaller shard is
      a hit of the larger one with the same entry, and at the end each slot of the smaller shard is a
      slot of the larger one with the same entry and deadline. */
  lemma LruInclusion(small: int, large: int, ttl: int, ops: seq<Op>)
    requires NoSmaller(large, small)
    ensures var (a, r) := Run([], Config(small, ttl), ops);
      var (b, q) := Run([], Config(large, ttl), ops);
      && HitsIncluded(r, q)
      && Sub(a, b) && (forall x :: x in a ==> x in b)
      && (large > 0 ==> |b| - |a| <= large - small)
  {
    LruInclusionFrom([], small, [], large, ttl, ops);
    SubMember(Run([], Config(small, ttl), ops).0, Run([], Config(large, ttl), ops).0);
  }

  // ---------- the order of the capacities is needed ----------

  function Key(i: nat): Token {
    seq(i, _ => 'x')
  }

  function Puts(n: nat): seq<Op> {
    if n == 0 then [] else Puts(n - 1) + [PutOp(Key(n - 1), Entry("", ""), 0)]
  }

  /** `n` slots of distinct keys, the newest first. */
  ghost predicate Fresh(s: seq<Slot>, n: nat, ttl: int) {
    |s| == n && forall i :: 0 <= i < n ==> s[i] == Slot(Key(n - 1 - i), Entry("", ""), ttl)
  }

  lemma FreshPut(s: seq<Slot>, n: nat, ttl: int, cap: int)
    requires Fresh(s, n, ttl)
    ensures var x := Slot(Key(n), Entry("", ""), ttl);
      Put(s, cap, x) == Truncate([x] + s, cap) && Fresh([x] + s, n + 1, ttl)
  {
    forall y | y in s ensures y.key != Key(n) {
      var i :| 0 <= i < n && s[i] == y;
      assert |y.key| == n - 1 - i && |Key(n)| == n;
    }
    FilterAll(s, OtherThan(Key(n)));
  }

  lemma {:induction false} PutsFill(n: nat, cfg: Config)
    requires cfg.cap <= 0 || n <= cfg.cap
    ensures Fresh(Run([], cfg, Puts(n)).0, n, cfg.ttl)
  {
    if n > 0 {
      PutsFill(n - 1, cfg);
      RunAppend([], cfg, Puts(n - 1), [PutOp(Key(n - 1), Entry("", ""), 0)]);
      FreshPut(Run([], cfg, Puts(n - 1)).0, n - 1, cfg.ttl, cfg.cap);
    }
  }

  lemma {:induction false} FreshFind(s: seq<Slot>, n: nat, ttl: int, k: nat, from: nat)
    requires Fresh(s, n, ttl) && from <= n && k < n - from
    ensures Find(s[from..], Key(k)) == Some(Slot(Key(k), Entry("", ""), ttl))
    decreases n - from
  {
    assert |s[from].key| == n - 1 - from;
    assert |Key(k)| == k;
    if k < n - 1 - from {
      FreshFind(s, n, ttl, k, from + 1);
      assert s[from..][1..] == s[from + 1..];
    }
  }

  /** The trace that tells two capacities apart: one put more than `large` holds, then a lookup of
      the first key. */
  lemma OneTooMany(small: int, large: nat, ttl: int)
    requires ttl >= 0 && large > 0 && (small <= 0 || large < small)
    ensures var ops := Puts(large + 1) + [GetOp(Key(0), 0, 0)];
      !HitsIncluded(Run([], Config(small, ttl), ops).1, Run([], Config(large, ttl), ops).1)
  {
    var ops := Puts(large + 1) + [GetOp(Key(0), 0, 0)];
    var get := [GetOp(Key(0), 0, 0)];
    var a, b := Config(small, ttl), Config(large, ttl);
    RunAppend([], a, Puts(large + 1), get);
    RunAppend([], b, Puts(large + 1), get);
    PutsFill(large + 1, a);
    var s := Run([], a, Puts(large + 1)).0;
    FreshFind(s, large + 1, ttl, 0, 0);
    assert s[0..] == s;
    PutsFill(large, b);
    var t := Run([], b, Puts(large)).0;
    RunAppend([], b, Puts(large), [PutOp(Key(large), Entry("", ""), 0)]);
    FreshPut(t, large, ttl, large);
    var full := [Slot(Key(large), Entry("", ""), ttl)] + t;
    FindMember(full[..large], Key(0));
    forall x | x in full[..large] ensures x.key != Key(0) {
      var i :| 0 <= i < large && full[i] == x;
      assert |x.key| == large - i && |Key(0)| == 0;
    }
    assert Run([], a, ops).1[|Puts(large + 1)|].Some?;
    assert Run([], b, ops).1[|Puts(large + 1)|].None?;
  }

  /** One capacity includes another on every trace exactly when it is no smaller. */
  lemma InclusionExactly(small: int, large: int, ttl: int)
    requires ttl >= 0
    ensures NoSmaller(large, small)
      <==> forall ops: seq<Op> ::
             HitsIncluded(Run([], Config(small, ttl), ops).1, Run([], Config(large, ttl), ops).1)
  {
    if NoSmaller(large, small) {
      forall ops: seq<Op>
        ensures HitsIncluded(Run([], Config(small, ttl), ops).1, Run([], Config(large, ttl), ops).1)
      {
        LruInclusion(small, large, ttl, ops);
      }
    } else {
      OneTooMany(small, large, ttl);
    }
  }
}

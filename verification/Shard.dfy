/** One shard of the token cache: a map from key to list element and a recency list, both updated
    in place. The list of elements is a sequence field; the elements are objects shared between
    the map and the list. */
module Shards {
  import opened Tokens
  import opened Lru

  /** A list element together with the item it carries. */
  class Item {
    ghost const owner: object  // the shard whose list it belongs to
    const key: Token
    var entry: Entry
    var expiresAt: int

    constructor (ghost owner: object, key: Token, entry: Entry, expiresAt: int)
      ensures this.owner == owner && this.key == key && this.entry == entry && this.expiresAt == expiresAt
    {
      this.owner := owner;
      this.key := key;
      this.entry := entry;
      this.expiresAt := expiresAt;
    }

    function Value(): Slot
      reads this
    {
      Slot(key, entry, expiresAt)
    }
  }

  /** The slots of a list of items. */
  ghost function Slots(ll: seq<Item>): (s: seq<Slot>)
    reads ll
    ensures |s| == |ll| && forall i :: 0 <= i < |ll| ==> s[i] == ll[i].Value()
  {
    seq(|ll|, i requires 0 <= i < |ll| reads ll => ll[i].Value())
  }

  ghost predicate DistinctKeys(ll: seq<Item>) {
    forall i, j :: 0 <= i < j < |ll| ==> ll[i].key != ll[j].key
  }

  function Keys(ll: seq<Item>): set<Token> {
    set it | it in ll :: it.key
  }

  /** The list without its `n`-th element. */
  function Cut<T>(s: seq<T>, n: nat): seq<T>
    requires n < |s|
  {
    s[..n] + s[n + 1..]
  }

  /** The position of `it` in the list. */
  function IndexOf(ll: seq<Item>, it: Item): (i: nat)
    requires it in ll
    ensures i < |ll| && ll[i] == it
  {
    if ll[0] == it then 0 else 1 + IndexOf(ll[1..], it)
  }

  // ---------- lists of elements ----------

  lemma {:induction false} KeyCount(ll: seq<Item>)
    requires DistinctKeys(ll)
    ensures |Keys(ll)| == |ll|
  {
    if ll != [] {
      var rest := ll[..|ll| - 1];
      KeyCount(rest);
      assert ll == rest + [ll[|ll| - 1]];
      assert Keys(ll) == Keys(rest) + {ll[|ll| - 1].key};
    }
  }

  /** Map and list agree: each element is mapped to by its own key, and by nothing else. */
  ghost predicate Agree(items: map<Token, Item>, ll: seq<Item>) {
    && DistinctKeys(ll)
    && items.Keys == Keys(ll)
    && (forall it :: it in ll ==> it.key in items && items[it.key] == it)
  }

  ghost predicate Owned(owner: object, ll: seq<Item>) {
    forall it :: it in ll ==> it.owner == owner
  }

  lemma CutElements(ll: seq<Item>, n: nat)
    requires n < |ll| && DistinctKeys(ll)
    ensures |Cut(ll, n)| == |ll| - 1 && DistinctKeys(Cut(ll, n))
    ensures forall it :: it in Cut(ll, n) <==> it in ll && it.key != ll[n].key
    ensures Keys(Cut(ll, n)) == Keys(ll) - {ll[n].key}
  {
    var c := Cut(ll, n);
    assert forall i :: 0 <= i < |c| ==> c[i] == if i < n then ll[i] else ll[i + 1];
    forall it | it in ll && it.key != ll[n].key ensures it in c {
      var i :| 0 <= i < |ll| && ll[i] == it;
      assert it == if i < n then c[i] else c[i - 1];
    }
  }

  lemma FrontElements(ll: seq<Item>, it: Item)
    requires DistinctKeys(ll) && it.key !in Keys(ll)
    ensures DistinctKeys([it] + ll) && Keys([it] + ll) == Keys(ll) + {it.key}
  {
    assert forall x :: x in [it] + ll <==> x == it || x in ll;
  }

  lemma AgreeCut(items: map<Token, Item>, ll: seq<Item>, n: nat)
    requires Agree(items, ll) && n < |ll|
    ensures Agree(items - {ll[n].key}, Cut(ll, n)) && Members(Cut(ll, n)) <= Members(ll)
    ensures forall o :: Owned(o, ll) ==> Owned(o, Cut(ll, n))
  {
    CutElements(ll, n);
  }

  lemma AgreeMoved(items: map<Token, Item>, ll: seq<Item>, n: nat)
    requires Agree(items, ll) && n < |ll|
    ensures Agree(items, [ll[n]] + Cut(ll, n)) && Members([ll[n]] + Cut(ll, n)) == Members(ll)
    ensures forall o :: Owned(o, ll) ==> Owned(o, [ll[n]] + Cut(ll, n))
  {
    CutElements(ll, n);
    FrontElements(Cut(ll, n), ll[n]);
  }

  lemma AgreeFront(items: map<Token, Item>, ll: seq<Item>, it: Item)
    requires Agree(items, ll) && it.key !in items
    ensures Agree(items[it.key := it], [it] + ll) && Members([it] + ll) == Members(ll) + {it}
    ensures Owned(it.owner, ll) ==> Owned(it.owner, [it] + ll)
  {
    FrontElements(ll, it);
  }

  function Members(ll: seq<Item>): set<Item> {
    set it | it in ll
  }

  // ---------- their slots ----------

  lemma SlotsExtensional(ll: seq<Item>, s: seq<Slot>)
    requires |s| == |ll| && forall i :: 0 <= i < |ll| ==> s[i] == ll[i].Value()
    ensures Slots(ll) == s
  {
  }

  lemma SlotsPrefix(ll: seq<Item>, all: seq<Item>)
    requires |ll| <= |all| && ll == all[..|ll|]
    ensures Slots(ll) == Slots(all)[..|ll|]
  {
  }

  lemma SlotsFront(it: Item, ll: seq<Item>)
    ensures Slots([it] + ll) == [it.Value()] + Slots(ll)
  {
  }

  lemma {:induction false} WithoutAt(s: seq<Slot>, n: nat)
    requires n < |s| && forall i :: 0 <= i < |s| && i != n ==> s[i].key != s[n].key
    ensures Without(s, s[n].key) == Cut(s, n) && Find(s, s[n].key) == Some(s[n])
    decreases n
  {
    if n == 0 {
      FilterAll(s[1..], OtherThan(s[0].key));
      assert Cut(s, 0) == s[1..];
    } else {
      assert s[n] == s[1..][n - 1];
      WithoutAt(s[1..], n - 1);
      assert Cut(s, n) == [s[0]] + Cut(s[1..], n - 1);
    }
  }

  lemma SlotKeys(ll: seq<Item>, n: nat)
    requires n < |ll| && DistinctKeys(ll)
    ensures forall i :: 0 <= i < |ll| && i != n ==> Slots(ll)[i].key != Slots(ll)[n].key
  {
    forall i | 0 <= i < |ll| && i != n ensures Slots(ll)[i].key != Slots(ll)[n].key {
      assert Slots(ll)[i].key == ll[i].key && Slots(ll)[n].key == ll[n].key;
    }
  }

  /** What the list says of the element at `n`, in terms of slots. */
  lemma SlotsAt(ll: seq<Item>, n: nat)
    requires n < |ll| && DistinctKeys(ll)
    ensures Slots(Cut(ll, n)) == Without(Slots(ll), ll[n].key)
    ensures Find(Slots(ll), ll[n].key) == Some(ll[n].Value())
  {
    SlotKeys(ll, n);
    WithoutAt(Slots(ll), n);
    hide DistinctKeys, Without, Find;
    SlotsExtensional(Cut(ll, n), Cut(Slots(ll), n));
  }

  /** Overwriting the item of one element leaves the other slots as they were. */
  lemma OnlyOneWritten(s: seq<Slot>, ll: seq<Item>, n: nat)
    requires n < |ll| == |s| && DistinctKeys(ll) && s[n].key == ll[n].key
    requires forall i :: 0 <= i < |ll| && ll[i] != ll[n] ==> s[i] == ll[i].Value()
    ensures Without(Slots(ll), ll[n].key) == Without(s, ll[n].key)
  {
    var t := Slots(ll);
    SlotKeys(ll, n);
    forall i | 0 <= i < |ll| && i != n ensures t[i] == s[i] {
      assert ll[i].key != ll[n].key;
    }
    WithoutAt(s, n);
    WithoutAt(t, n);
    hide Without, Find;
    assert Cut(s, n) == Cut(t, n);
  }

  lemma SweepRestStart(ll: seq<Item>, now: int)
    ensures Slots(ll[|ll|..]) == Sweep(Slots(ll[|ll|..]), now)
  {
  }

  /** One step of the backward walk: what is behind `i` is swept already. */
  lemma SweepRestStep(ll: seq<Item>, before: seq<Item>, i: nat, now: int)
    requires i < |ll| <= |before| && ll[..i + 1] == before[..i + 1]
    requires Slots(ll[i + 1..]) == Sweep(Slots(before[i + 1..]), now)
    ensures ll[..i] == before[..i] && ll[i] == before[i]
    ensures Sweep(Slots(before[i..]), now)
         == if now > ll[i].expiresAt then Slots(ll[i + 1..]) else Slots(ll[i..])
  {
    assert ll[i] == ll[..i + 1][i] && before[i] == before[..i + 1][i];
    assert ll[..i] == ll[..i + 1][..i] && before[..i] == before[..i + 1][..i];
    assert ll[i..] == [ll[i]] + ll[i + 1..] && before[i..] == [before[i]] + before[i + 1..];
    SlotsFront(ll[i], ll[i + 1..]);
    SlotsFront(before[i], before[i + 1..]);
    hide Slots;
    assert Slots(before[i..])[1..] == Slots(before[i + 1..]);
  }

  lemma SlotsAbsent(ll: seq<Item>, k: Token)
    requires k !in Keys(ll)
    ensures Find(Slots(ll), k).None? && Without(Slots(ll), k) == Slots(ll)
  {
    var s := Slots(ll);
    forall x | x in s ensures x.key != k {
      var i :| 0 <= i < |s| && s[i] == x;
      assert ll[i] in ll;
    }
    FilterAll(s, OtherThan(k));
    FindMember(s, k);
  }

  class Shard {
    var items: map<Token, Item>  // key -> element in ll
    var ll: seq<Item>            // front = most recently used
    const maxSize: int

    ghost predicate Consistent()
      reads this
    {
      Agree(items, ll) && Owned(this, ll)
    }

    ghost predicate Valid()
      reads this
    {
      Consistent() && (maxSize > 0 ==> |ll| <= maxSize)
    }

    ghost function Elements(): set<Item>
      reads this
    {
      Members(ll)
    }

    /** The cached slots, most recently used first. */
    ghost function Contents(): seq<Slot>
      reads this, ll
    {
      Slots(ll)
    }

    constructor (maxSize: int)
      ensures Valid() && Contents() == [] && this.maxSize == maxSize && ll == []
    {
      this.maxSize := maxSize;
      items := map[];
      ll := [];
    }

    /** A key of the map is the key of its element, which is in the list. */
    lemma Mapped(k: Token)
      requires Consistent() && k in items
      ensures items[k] in ll && items[k].key == k
    {
      assert k in Keys(ll);
    }

    /** A key is in the map just if it is in the list, and then with the same slot. */
    lemma Lookup(k: Token)
      requires Consistent()
      ensures k in items ==> items[k] in ll && items[k] in Elements() && items[k].key == k
      ensures k in items ==> Find(Contents(), k) == Some(items[k].Value())
      ensures k !in items ==> Find(Contents(), k).None? && Without(Contents(), k) == Contents()
    {
      if k in items {
        Mapped(k);
        SlotsAt(ll, IndexOf(ll, items[k]));
      } else {
        SlotsAbsent(ll, k);
      }
    }

    /** The element moves to the front of the list; nothing else changes. */
    method MoveToFront(it: Item)
      requires Consistent() && it in ll
      modifies this`ll
      ensures Consistent() && |ll| == |old(ll)| && Elements() == old(Elements())
      ensures Contents() == [it.Value()] + Without(old(Contents()), it.key)
    {
      var n := IndexOf(ll, it);
      SlotsAt(ll, n);
      SlotsFront(it, Cut(ll, n));
      AgreeMoved(items, ll, n);
      hide Agree, Owned, Members, Without, Find, Slots;
      ll := [it] + Cut(ll, n);
    }

    /** Take an element out of the list and the map. */
    method RemoveElement(it: Item)
      requires Consistent() && it in ll
      modifies this
      ensures Consistent() && |ll| == |old(ll)| - 1
      ensures ll == Cut(old(ll), IndexOf(old(ll), it)) && Elements() <= old(Elements())
      ensures Contents() == Without(old(Contents()), it.key)
    {
      var n := IndexOf(ll, it);
      SlotsAt(ll, n);
      AgreeCut(items, ll, n);
      hide Agree, Owned, Members, Without, Find, Slots;
      ll := Cut(ll, n);
      items := items - {it.key};
    }

    method Put(key: Token, entry: Entry, ttl: int, now: int)
      requires Valid()
      modifies this, Elements()
      ensures Valid() && fresh(Elements() - old(Elements()))
      ensures Contents() == Lru.Put(old(Contents()), maxSize, Slot(key, entry, now + ttl))
    {
      hide Agree, Owned, Members, Without, Find, Slots;
      var expiresAt := now + ttl;
      if key in items {
        Overwrite(key, entry, expiresAt);
        return;
      }
      PushFront(key, entry, expiresAt);
      EvictOverflow();
    }

    method PushFront(key: Token, entry: Entry, expiresAt: int)
      requires Valid() && key !in items
      modifies this
      ensures Consistent() && |ll| == |old(ll)| + 1 && fresh(Elements() - old(Elements()))
      ensures Contents() == [Slot(key, entry, expiresAt)] + Without(old(Contents()), key)
    {
      ghost var s, was := Contents(), ll;
      SlotsAbsent(ll, key);
      hide Agree, Owned, Members, Without, Find, Slots;
      var el := new Item(this, key, entry, expiresAt);
      SlotsFront(el, was);
      ghost var longer := [el] + was;
      assert Slots(longer) == [Slot(key, entry, expiresAt)] + s;
      AgreeFront(items, was, el);
      ll := [el] + ll;
      items := items[key := el];
      assert ll == longer;
    }

    /** The branch of a put that finds its key: the item is overwritten and moves to the front. */
    method Overwrite(key: Token, entry: Entry, expiresAt: int)
      requires Valid() && key in items
      modifies this, Elements()
      ensures Valid() && |ll| == |old(ll)| && Elements() == old(Elements())
      ensures Contents() == [Slot(key, entry, expiresAt)] + Without(old(Contents()), key)
    {
      Mapped(key);
      var el := items[key];
      ghost var s := Contents();
      el.entry := entry;
      el.expiresAt := expiresAt;
      OnlyOneWritten(s, ll, IndexOf(ll, el));
      MoveToFront(el);
    }

    /** The eviction loop of a put: take elements from the back until the capacity is respected. */
    method EvictOverflow()
      requires Consistent() && ll != []
      requires maxSize > 0 ==> |ll| <= maxSize + 1
      modifies this
      ensures Valid() && Elements() <= old(Elements())
      ensures Contents() == Truncate(old(Contents()), maxSize)
    {
      ghost var all := ll;
      hide Agree, Owned, Members, Slots;
      SameSize();
      while maxSize > 0 && |items| > maxSize
        invariant Consistent() && |items| == |ll|
        invariant 1 <= |ll| <= |all| && ll == all[..|ll|] && Elements() <= old(Elements())
        invariant |ll| == |all| || 0 < maxSize <= |ll|
        decreases |ll|
      {
        if ll == [] {
          assert false;
          break;
        }
        var back := ll[|ll| - 1];
        RemoveBack(back);
      }
      SlotsPrefix(ll, all);
      assert all[..|all|] == all && Slots(all)[..|all|] == Slots(all);
    }

    lemma OnlyIndex(i: nat)
      requires Consistent() && i < |ll|
      ensures IndexOf(ll, ll[i]) == i
    {
    }

    lemma SameSize()
      requires Consistent()
      ensures |items| == |ll|
    {
      KeyCount(ll);
    }

    method RemoveBack(back: Item)
      requires Consistent() && ll != [] && back == ll[|ll| - 1]
      modifies this
      ensures Consistent() && ll == old(ll)[..|old(ll)| - 1] && |items| == |ll| && Elements() <= old(Elements())
    {
      OnlyIndex(|ll| - 1);
      RemoveElement(back);
      SameSize();
    }

    /** A lookup reads the clock twice: to check the deadline and to slide it. */
    method Get(key: Token, ttl: int, check: int, refresh: int) returns (reply: Option<Entry>)
      requires Valid()
      modifies this, Elements()
      ensures Valid() && Elements() <= old(Elements())
      ensures (Contents(), reply) == Lru.Get(old(Contents()), ttl, key, check, refresh)
    {
      Lookup(key);
      hide Agree, Owned, Members, Slots, Without, Find;
      if key !in items {
        return None;
      }
      var it := items[key];
      if check > it.expiresAt {
        RemoveElement(it);
        return None;
      }
      Slide(it, refresh + ttl);
      return Some(it.entry);
    }

    /** The branch of a lookup that hits: a new deadline, and to the front. */
    method Slide(it: Item, expiresAt: int)
      requires Valid() && it in ll
      modifies this, it
      ensures Valid() && it.entry == old(it.entry) && Elements() == old(Elements())
      ensures Contents() == [Slot(it.key, it.entry, expiresAt)] + Without(old(Contents()), it.key)
    {
      ghost var s := Contents();
      it.expiresAt := expiresAt;
      OnlyOneWritten(s, ll, IndexOf(ll, it));
      MoveToFront(it);
    }

    method Delete(key: Token)
      requires Valid()
      modifies this
      ensures Valid() && Elements() <= old(Elements())
      ensures Contents() == Without(old(Contents()), key)
    {
      if key in items {
        Mapped(key);
        RemoveElement(items[key]);
      } else {
        SlotsAbsent(ll, key);
      }
    }

    /** Walk the list from the back and drop what has expired. */
    method EvictExpired(now: int)
      requires Valid()
      modifies this
      ensures Valid() && Elements() <= old(Elements())
      ensures Contents() == Sweep(old(Contents()), now)
    {
      ghost var before := ll;
      var i := |ll|;
      SweepRestStart(ll, now);
      hide Agree, Owned, Members, Slots, Sweep;
      while i > 0
        invariant Consistent() && 0 <= i <= |ll| <= |before|
        invariant ll[..i] == before[..i]
        invariant Slots(ll[i..]) == Sweep(Slots(before[i..]), now)
        invariant Elements() <= old(Elements())
      {
        i := i - 1;
        SweepRestStep(ll, before, i, now);
        if now > ll[i].expiresAt {
          RemoveAt(i);
        }
      }
      assert ll[0..] == ll && before[0..] == before;
    }

    method RemoveAt(i: nat)
      requires Consistent() && i < |ll|
      modifies this
      ensures Consistent() && |ll| == |old(ll)| - 1
      ensures ll[..i] == old(ll)[..i] && ll[i..] == old(ll)[i + 1..]
      ensures Elements() <= old(Elements())
    {
      OnlyIndex(i);
      RemoveElement(ll[i]);
    }
  }
}

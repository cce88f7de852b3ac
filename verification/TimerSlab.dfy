/**
The slab of one timer shard: the intrusive free list, the hash index with its collision lists, and
the map of live keys they represent. Nothing here depends on the hash function.
*/
module TimerSlab {
  import opened Options
  import opened TimerCore

  // What the cache promises to remember about a live key.
  datatype Rec = Rec(expire: nat, ttl: nat, version: nat)
  {
    function Renewed(now: nat): Rec { Rec(now + ttl, ttl, version + 1) }
  }

  ghost predicate NoDup(s: seq<nat>) {
    forall j, k :: 0 <= j < k < |s| ==> s[j] != s[k]
  }

  // The slots of `fl`, linked in this order, end with the number of slots.
  ghost predicate Linked<K(!new)>(es: seq<Entry<K>>, head: nat, fl: seq<nat>)
    decreases |fl|
  {
    if fl == [] then head == |es| else head < |es| && head == fl[0] && Linked(es, es[head].nextFree, fl[1..])
  }

  // `fl` lists exactly the free slots, in the order in which `alloc` will hand them out.
  ghost predicate FreeList<K(!new)>(es: seq<Entry<K>>, head: nat, fl: seq<nat>) {
    && (forall i: nat {:trigger i in fl} :: i in fl <==> i < |es| && !es[i].inUse)
    && NoDup(fl)
    && Linked(es, head, fl)
  }

  // Each collision list is not empty, and lists exactly the in-use slots of its hash, once each.
  ghost predicate IndexOk<K(!new)>(es: seq<Entry<K>>, index: map<nat, seq<nat>>) {
    && (forall h <- index :: index[h] != [] && NoDup(index[h]))
    && (forall h, i: nat {:trigger i in index[h]} :: h in index && i in index[h] ==>
          i < |es| && es[i].inUse && es[i].hash == h)
    && (forall i {:trigger es[i].hash} :: 0 <= i < |es| && es[i].inUse ==>
          es[i].hash in index && i in index[es[i].hash])
  }

  // No key is held by two slots.
  ghost predicate Unique<K(!new)>(es: seq<Entry<K>>) {
    forall i: nat, j: nat, k :: Holds(es, i, k) && Holds(es, j, k) ==> i == j
  }

  ghost predicate HashesOk<K(!new)>(es: seq<Entry<K>>, hash: K -> nat) {
    forall i: nat, k {:trigger Holds(es, i, k)} :: Holds(es, i, k) ==> es[i].hash == hash(k)
  }

  ghost predicate Slab<K(!new)>(c: Core<K>, hash: K -> nat, fl: seq<nat>) {
    FreeList(c.entries, c.freeHead, fl) && IndexOk(c.entries, c.index) && Unique(c.entries) && HashesOk(c.entries, hash)
  }

  ghost function RecOf<K(!new)>(e: Entry<K>): Rec { Rec(e.expire, e.ttl, e.version) }

  ghost function Keys<K(!new)>(es: seq<Entry<K>>): (s: set<K>)
    ensures forall k :: k in s <==> exists i: nat :: Holds(es, i, k)
  {
    var s := set i: nat | i < |es| && es[i].inUse :: es[i].key.value;
    forall i: nat, k | Holds(es, i, k) ensures k in s {
      assert es[i].key.value == k;
    }
    assert forall i: nat :: i < |es| && es[i].inUse ==> Holds(es, i, es[i].key.value);
    s
  }

  ghost function SlotOf<K(!new)>(es: seq<Entry<K>>, k: K): (i: nat)
    requires k in Keys(es)
    ensures Holds(es, i, k)
  {
    var i: nat :| Holds(es, i, k);
    i
  }

  ghost predicate Represents<K(!new)>(es: seq<Entry<K>>, m: map<K, Rec>) {
    && (forall i: nat, k :: Holds(es, i, k) ==> k in m && m[k] == RecOf(es[i]))
    && (forall k <- m :: exists i: nat :: Holds(es, i, k))
  }

  lemma {:induction false} RepresentsOnce<K(!new)>(es: seq<Entry<K>>, m: map<K, Rec>, m': map<K, Rec>)
    requires Represents(es, m) && Represents(es, m')
    ensures m == m'
  {
    assert forall k <- m :: k in m' && m[k] == m'[k];
    assert forall k <- m' :: k in m;
  }

  lemma {:induction false} Represented<K(!new)>(es: seq<Entry<K>>)
    requires Unique(es)
    ensures exists m :: Represents(es, m)
  {
    assert Represents(es, map k | k in Keys(es) :: RecOf(es[SlotOf(es, k)]));
  }

  // The live keys: those held by an in-use slot.
  ghost function Live<K(!new)>(es: seq<Entry<K>>): (m: map<K, Rec>)
    requires Unique(es)
    ensures Represents(es, m)
  {
    Represented(es);
    var m :| Represents(es, m);
    m
  }

  lemma {:induction false} NewSlab<K(!new)>(capacity: nat, hash: K -> nat)
    ensures Slab(New<K>(capacity), hash, seq(capacity, (i: nat) => i))
    ensures Live(New<K>(capacity).entries) == map[]
  {
    var fl := seq(capacity, (i: nat) => i);
    forall i | 0 <= i < capacity
      ensures i in fl
    {
      assert fl[i] == i;
    }
    NewLinked<K>(capacity, 0);
    assert fl[0..] == fl;
  }

  lemma {:induction false} NewLinked<K(!new)>(capacity: nat, from: nat)
    requires from <= capacity
    ensures Linked(New<K>(capacity).entries, from, seq(capacity, (i: nat) => i)[from..])
    decreases capacity - from
  {
    if from < capacity {
      NewLinked<K>(capacity, from + 1);
      assert seq(capacity, (i: nat) => i)[from..][1..] == seq(capacity, (i: nat) => i)[from + 1..];
    }
  }

  // `find_entry` finds a key exactly when it is live, whatever else shares its collision list.
  lemma {:induction false} FindFindsLive<K(!new)>(c: Core<K>, hash: K -> nat, fl: seq<nat>, key: K)
    requires Slab(c, hash, fl)
    ensures Find(c, hash(key), key).Some? <==> key in Live(c.entries)
    ensures forall i: nat :: Holds(c.entries, i, key) ==> Find(c, hash(key), key) == Some(i)
  {
    if key in Live(c.entries) {
      var i: nat :| Holds(c.entries, i, key);
    }
  }

  lemma {:induction false} SwapRemoveKeeps(s: seq<nat>, p: nat)
    requires p < |s| && NoDup(s)
    ensures NoDup(SwapRemove(s, p))
    ensures forall x: nat :: x in SwapRemove(s, p) <==> x in s && x != s[p]
  {
    var r := SwapRemove(s, p);
    forall x: nat | x in s && x != s[p]
      ensures x in r
    {
      var j :| 0 <= j < |s| && s[j] == x;
      assert r[if j == |s| - 1 then p else j] == x;
    }
  }

  lemma {:induction false} LinkedFrame<K(!new)>(es: seq<Entry<K>>, head: nat, fl: seq<nat>, idx: nat, e: Entry<K>)
    requires idx < |es| && idx !in fl
    requires Linked(es, head, fl)
    ensures Linked(es[idx := e], head, fl)
    decreases |fl|
  {
    if fl != [] {
      LinkedFrame(es, es[head].nextFree, fl[1..], idx, e);
    }
  }

  lemma {:induction false} ReleaseFreeList<K(!new)>(es: seq<Entry<K>>, head: nat, fl: seq<nat>, idx: nat)
    requires FreeList(es, head, fl) && idx < |es| && es[idx].inUse
    ensures FreeList(es[idx := es[idx].Released(head)], idx, [idx] + fl)
  {
    LinkedFrame(es, head, fl, idx, es[idx].Released(head));
    assert ([idx] + fl)[1..] == fl;
  }

  lemma {:induction false} ReleaseIndex<K(!new)>(es: seq<Entry<K>>, index: map<nat, seq<nat>>, idx: nat, e: Entry<K>)
    requires IndexOk(es, index) && idx < |es| && es[idx].inUse && !e.inUse
    ensures IndexOk(es[idx := e], RemoveIndex(index, es[idx].hash, idx))
  {
    var h := es[idx].hash;
    var p := Position(index[h], idx);
    assert p < |index[h]| by {
      var j :| 0 <= j < |index[h]| && index[h][j] == idx;
    }
    SwapRemoveKeeps(index[h], p);
  }

  // Changing one slot to `e` changes the live keys only by what that slot held and what `e` holds.
  lemma {:induction false} LiveUpdate<K(!new)>(es: seq<Entry<K>>, idx: nat, e: Entry<K>)
    requires Unique(es) && idx < |es|
    requires e.inUse ==> forall i: nat :: Holds(es, i, e.key.value) ==> i == idx
    ensures Unique(es[idx := e])
    ensures var kept := if es[idx].inUse then Live(es) - {es[idx].key.value} else Live(es);
      Live(es[idx := e]) == if e.inUse then kept[e.key.value := RecOf(e)] else kept
  {
    var es' := es[idx := e];
    assert forall i: nat, k :: i != idx ==> (Holds(es', i, k) <==> Holds(es, i, k));
    var kept := if es[idx].inUse then Live(es) - {es[idx].key.value} else Live(es);
    var want := if e.inUse then kept[e.key.value := RecOf(e)] else kept;
    assert es[idx].inUse ==> Holds(es, idx, es[idx].key.value);
    assert e.inUse ==> Holds(es', idx, e.key.value);
    forall k | k in want
      ensures exists i: nat :: Holds(es', i, k)
    {
      if !(e.inUse && k == e.key.value) {
        var i: nat :| Holds(es, i, k);
        assert Holds(es', i, k);
      }
    }
    RepresentsOnce(es', Live(es'), want);
  }

  lemma {:induction false} UpdateHashes<K(!new)>(es: seq<Entry<K>>, hash: K -> nat, idx: nat, e: Entry<K>)
    requires HashesOk(es, hash) && idx < |es| && (e.inUse ==> e.hash == hash(e.key.value))
    ensures HashesOk(es[idx := e], hash)
  {
    var es' := es[idx := e];
    forall i: nat, k | Holds(es', i, k)
      ensures es'[i].hash == hash(k)
    {
      assert i != idx ==> Holds(es, i, k);
    }
  }

  // Taking an in-use slot out of the index and releasing it removes its key and nothing else.
  lemma {:induction false} ReleaseKeeps<K(!new)>(c: Core<K>, hash: K -> nat, fl: seq<nat>, idx: nat)
    returns (c': Core<K>)
    requires Slab(c, hash, fl)
    requires idx < |c.entries| && c.entries[idx].inUse
    ensures c' == Release(c.(index := RemoveIndex(c.index, c.entries[idx].hash, idx)), idx)
    ensures Slab(c', hash, [idx] + fl)
    ensures Live(c'.entries) == Live(c.entries) - {c.entries[idx].key.value}
  {
    var e := c.entries[idx].Released(c.freeHead);
    c' := Release(c.(index := RemoveIndex(c.index, c.entries[idx].hash, idx)), idx);
    ReleaseFreeList(c.entries, c.freeHead, fl, idx);
    ReleaseIndex(c.entries, c.index, idx, e);
    LiveUpdate(c.entries, idx, e);
    assert c'.entries == c.entries[idx := e];
    UpdateHashes(c.entries, hash, idx, e);
  }

  lemma {:induction false} AllocFreeList<K(!new)>(es: seq<Entry<K>>, head: nat, fl: seq<nat>, e: Entry<K>)
    requires FreeList(es, head, fl) && fl != [] && e.inUse
    ensures head in fl && FreeList(es[head := e], es[head].nextFree, fl[1..])
  {
    assert forall i: nat :: i in fl <==> i == head || i in fl[1..];
    LinkedFrame(es, es[head].nextFree, fl[1..], head, e);
  }

  lemma {:induction false} AllocIndex<K(!new)>(es: seq<Entry<K>>, index: map<nat, seq<nat>>, idx: nat, e: Entry<K>)
    requires IndexOk(es, index) && idx < |es| && !es[idx].inUse && e.inUse
    ensures IndexOk(es[idx := e], InsertIndex(index, e.hash, idx))
  {
    var es', index' := es[idx := e], InsertIndex(index, e.hash, idx);
    var list := if e.hash in index then index[e.hash] else [];
    assert forall i: nat :: i in index'[e.hash] <==> i in list || i == idx;
    assert idx !in list;
    assert NoDup(list);
    assert index'[e.hash] == list + [idx];
    assert forall h <- index' :: h == e.hash || (h in index && index'[h] == index[h]);
  }

  // Every key written is in a slot, was dropped in place, or was moved out into an event: once.
  ghost predicate Conserved<K(!new)>(c: Core<K>)
    requires Unique(c.entries)
  {
    c.ledger.written == c.ledger.dropped + c.ledger.moved + multiset(Live(c.entries).Keys)
  }

  // `delete`, and the first half of `insert`.
  lemma {:induction false} RemoveKeeps<K(!new)>(c: Core<K>, hash: K -> nat, fl: seq<nat>, key: K)
    returns (fl': seq<nat>)
    requires Slab(c, hash, fl) && Conserved(c)
    ensures var c' := Remove(c, hash, key);
      && Slab(c', hash, fl') && Conserved(c')
      && Live(c'.entries) == Live(c.entries) - {key}
      && |fl'| == |fl| + if key in Live(c.entries) then 1 else 0
  {
    FindFindsLive(c, hash, fl, key);
    match Find(c, hash(key), key)
    case None => fl' := fl;
    case Some(i) =>
      var _ := ReleaseKeeps(c, hash, fl, i);
      fl' := [i] + fl;
      var c' := Remove(c, hash, key);
      assert Live(c.entries).Keys == Live(c'.entries).Keys + {key};
      assert multiset(Live(c.entries).Keys) == multiset(Live(c'.entries).Keys) + multiset{key};
  }

  // Filling slot `idx` with `e` turns a slab with keys `live` into one with keys `live'`.
  lemma {:induction false} PlaceSlab<K(!new)>(c: Core<K>, hash: K -> nat, fl: seq<nat>, e: Entry<K>, c': Core<K>)
    requires Slab(c, hash, fl) && fl != [] && e.inUse
    requires e.hash == hash(e.key.value) && e.key.value !in Live(c.entries)
    requires c.freeHead < |c.entries| && c'.entries == c.entries[c.freeHead := e]
    requires c'.freeHead == c.entries[c.freeHead].nextFree
    requires c'.index == InsertIndex(c.index, e.hash, c.freeHead)
    ensures Slab(c', hash, fl[1..])
    ensures Live(c'.entries) == Live(c.entries)[e.key.value := RecOf(e)]
  {
    assert c.freeHead in fl;
    AllocFreeList(c.entries, c.freeHead, fl, e);
    AllocIndex(c.entries, c.index, c.freeHead, e);
    LiveUpdate(c.entries, c.freeHead, e);
    UpdateHashes(c.entries, hash, c.freeHead, e);
  }

  // The second half of `insert`: the key gets a slot exactly when there is a free one.
  lemma {:induction false} PlaceKeeps<K(!new)>(c: Core<K>, hash: K -> nat, fl: seq<nat>, key: K, ttl: nat)
    requires Slab(c, hash, fl) && Conserved(c) && key !in Live(c.entries)
    ensures fl == [] ==> Place(c, hash, key, ttl) == c
    ensures fl != [] ==> var c' := Place(c, hash, key, ttl);
      && Slab(c', hash, fl[1..]) && Conserved(c')
      && Live(c'.entries) == Live(c.entries)[key := Rec(c.tick + ttl, ttl, 1)]
      && Holds(c'.entries, fl[0], key)
  {
    if fl != [] {
      assert fl[0] == c.freeHead < |c.entries|;
      var c' := Place(c, hash, key, ttl);
      var e := c.entries[c.freeHead].Written(key, hash(key), ttl, c.tick);
      PlaceSlab(c, hash, fl, e, c');
      assert e.key.value == key && RecOf(e) == Rec(c.tick + ttl, ttl, 1);
      assert Live(c'.entries).Keys == Live(c.entries).Keys + {key};
      assert multiset(Live(c'.entries).Keys) == multiset(Live(c.entries).Keys) + multiset{key};
    }
  }

  lemma {:induction false} RefreshIndex<K(!new)>(es: seq<Entry<K>>, index: map<nat, seq<nat>>, idx: nat, e: Entry<K>)
    requires IndexOk(es, index) && idx < |es| && es[idx].inUse && e.inUse && e.hash == es[idx].hash
    ensures IndexOk(es[idx := e], index)
  {
  }

  lemma {:induction false} RefreshFreeList<K(!new)>(es: seq<Entry<K>>, head: nat, fl: seq<nat>, idx: nat, e: Entry<K>)
    requires FreeList(es, head, fl) && idx < |es| && es[idx].inUse && e.inUse
    ensures FreeList(es[idx := e], head, fl)
  {
    LinkedFrame(es, head, fl, idx, e);
  }

  lemma {:induction false} PutAgain<K, V>(m: map<K, V>, k: K, v: V)
    ensures (m - {k})[k := v] == m[k := v]
  {
  }

  lemma {:induction false} RefreshSlab<K(!new)>(c: Core<K>, hash: K -> nat, fl: seq<nat>, i: nat, c': Core<K>)
    requires Slab(c, hash, fl) && i < |c.entries| && c.entries[i].inUse
    requires c'.entries == c.entries[i := c.entries[i].Refreshed(c.tick)]
    requires c'.freeHead == c.freeHead && c'.index == c.index
    ensures Slab(c', hash, fl)
    ensures var k, live := c.entries[i].key.value, Live(c.entries);
      k in live && Live(c'.entries) == live[k := live[k].Renewed(c.tick)]
  {
    var e := c.entries[i].Refreshed(c.tick);
    assert Holds(c.entries, i, c.entries[i].key.value);
    RefreshFreeList(c.entries, c.freeHead, fl, i, e);
    RefreshIndex(c.entries, c.index, i, e);
    LiveUpdate(c.entries, i, e);
    UpdateHashes(c.entries, hash, i, e);
    PutAgain(Live(c.entries), e.key.value, RecOf(e));
    assert RecOf(e) == RecOf(c.entries[i]).Renewed(c.tick);
  }

  // `refresh`: restarts the lifetime of a live key and bumps its version; nothing else changes.
  lemma {:induction false} RenewKeeps<K(!new)>(c: Core<K>, hash: K -> nat, fl: seq<nat>, key: K)
    requires Slab(c, hash, fl) && Conserved(c)
    ensures var c', live := Renew(c, hash, key), Live(c.entries);
      && Slab(c', hash, fl) && Conserved(c')
      && Live(c'.entries) ==
         if key in live then live[key := live[key].Renewed(c.tick)] else live
  {
    FindFindsLive(c, hash, fl, key);
    match Find(c, hash(key), key)
    case None =>
    case Some(i) =>
      var c' := Renew(c, hash, key);
      RefreshSlab(c, hash, fl, i, c');
      assert Live(c'.entries).Keys == Live(c.entries).Keys;
  }

  // ---------------------------------------------------------------- capacity

  lemma {:induction false} UsedCount<K(!new)>(es: seq<Entry<K>>, used: set<nat>)
    requires Unique(es)
    requires forall i: nat :: i in used <==> i < |es| && es[i].inUse
    ensures |used| == |Live(es)|
    decreases |used|
  {
    if i: nat :| i in used {
      var e := es[i].Released(0);
      LiveUpdate(es, i, e);
      UsedCount(es[i := e], used - {i});
      assert es[i].key.value in Live(es) by {
        assert Holds(es, i, es[i].key.value);
      }
      assert |Live(es[i := e])| == |Live(es)| - 1;
    } else {
      assert Live(es).Keys == {};
      assert |Live(es).Keys| == 0;
    }
  }

  lemma {:induction false} NoDupCount(s: seq<nat>, elems: set<nat>)
    requires NoDup(s) && forall i: nat :: i in elems <==> i in s
    ensures |elems| == |s|
    decreases |s|
  {
    if s != [] {
      assert forall i: nat :: i in s <==> i == s[0] || i in s[1..];
      NoDupCount(s[1..], elems - {s[0]});
    } else {
      assert elems == {};
    }
  }

  lemma {:induction false} Below(n: nat, all: set<nat>)
    requires forall i: nat :: i in all <==> i < n
    ensures |all| == n
  {
    if n > 0 {
      Below(n - 1, all - {n - 1});
    } else {
      assert all == {};
    }
  }

  // The slab is full exactly when as many keys are live as there are slots.
  lemma {:induction false} LiveCount<K(!new)>(c: Core<K>, hash: K -> nat, fl: seq<nat>)
    requires Slab(c, hash, fl)
    ensures |Live(c.entries)| + |fl| == |c.entries|
  {
    var used := set i: nat | i < |c.entries| && c.entries[i].inUse;
    var free := set i: nat | i < |c.entries| && !c.entries[i].inUse;
    UsedCount(c.entries, used);
    NoDupCount(fl, free);
    Below(|c.entries|, used + free);
    assert |used + free| == |used| + |free|;
  }
}

/**
The commands of a shard against a plain map of keys, and whole runs of commands and ticks.
*/
module TimerRuns {
  import opened Options
  import opened TimerCore
  import opened TimerSlab
  import opened TimerPlacement
  import opened TimerTick
  import opened TimerInvariant

  // ---------------------------------------------------------------- commands

  // What the cache promises of a command: a bounded map from keys to lifetimes.
  function MapAfter<K>(live: map<K, Rec>, capacity: nat, now: nat, cmd: Command<K>): map<K, Rec> {
    match cmd
    case Insert(key, ttl) =>
      if key in live || |live| < capacity then live[key := Rec(now + ttl, ttl, 1)] else live
    case Refresh(key) => if key in live then live[key := live[key].Renewed(now)] else live
    case Delete(key) => live - {key}
  }

  lemma {:induction false} RemovePlaced<K(!new)>(c: Core<K>, hash: K -> nat, key: K)
    requires Timely(c) && InRange(c)
    ensures var c' := Remove(c, hash, key); Timely(c') && InRange(c')
  {
    var c' := Remove(c, hash, key);
    forall i: nat | i < |c'.entries| && c'.entries[i].inUse
      ensures Placed(c', i, c.tick + 1, c.tick / 512 + 1, c.tick / 65536 + 1)
    {
      assert Placed(c, i, c.tick + 1, c.tick / 512 + 1, c.tick / 65536 + 1);
    }
  }

  // Writing an entry whose lifetime starts now and scheduling it keeps every entry placed.
  lemma {:induction false} WritePlaced<K(!new)>(c: Core<K>, c1: Core<K>, idx: nat)
    requires Timely(c) && InRange(c) && idx < |c.entries| && |c1.entries| == |c.entries|
    requires c1.entries == c.entries[idx := c1.entries[idx]]
    requires c1.entries[idx].expire == c.tick + c1.entries[idx].ttl
    requires c1.l1 == c.l1 && c1.l2 == c.l2 && c1.l3 == c.l3 && c1.tick == c.tick
    ensures Timely(Schedule(c1, idx)) && InRange(Schedule(c1, idx))
  {
    var n1, n2, n3 := c.tick + 1, c.tick / 512 + 1, c.tick / 65536 + 1;
    var c' := Schedule(c1, idx);
    SchedulePlaces(c1, idx, n1, n2, n3);
    forall i: nat | i < |c'.entries| && c'.entries[i].inUse
      ensures Placed(c', i, n1, n2, n3)
    {
      if i != idx {
        assert Placed(c, i, n1, n2, n3);
        assert Placed(c1, i, n1, n2, n3);
        ScheduleKeeps(c1, idx, i, n1, n2, n3);
      }
    }
  }

  lemma {:induction false} PlacePlaced<K(!new)>(c: Core<K>, hash: K -> nat, key: K, ttl: nat)
    requires Timely(c) && InRange(c)
    ensures var c' := Place(c, hash, key, ttl); Timely(c') && InRange(c')
  {
    if c.freeHead < |c.entries| {
      var i := c.freeHead;
      var c1 := c.(entries := c.entries[i := c.entries[i].Written(key, hash(key), ttl, c.tick)],
                   freeHead := c.entries[i].nextFree,
                   index := InsertIndex(c.index, hash(key), i),
                   ledger := c.ledger.(written := c.ledger.written + multiset{key}));
      WritePlaced(c, c1, i);
    }
  }

  lemma {:induction false} RenewPlaced<K(!new)>(c: Core<K>, hash: K -> nat, key: K)
    requires Timely(c) && InRange(c)
    ensures var c' := Renew(c, hash, key); Timely(c') && InRange(c')
  {
    match Find(c, hash(key), key)
    case None =>
    case Some(i) => WritePlaced(c, c.(entries := c.entries[i := c.entries[i].Refreshed(c.tick)]), i);
  }

  // Every command keeps the invariant and does to the live keys what it does to a bounded map:
  // whatever the hash function, and whatever collides.
  lemma {:induction false} HandleRefinesMap<K(!new)>(c: Core<K>, hash: K -> nat, cmd: Command<K>)
    requires Inv(c, hash)
    ensures var c' := Handle(c, hash, cmd);
      && Inv(c', hash)
      && c'.tick == c.tick && |c'.entries| == |c.entries|
      && Live(c'.entries) == MapAfter(Live(c.entries), |c.entries|, c.tick, cmd)
  {
    var fl :| Slab(c, hash, fl);
    match cmd
    case Insert(key, ttl) => InsertRefinesMap(c, hash, fl, key, ttl);
    case Refresh(key) =>
      RenewKeeps(c, hash, fl, key);
      RenewPlaced(c, hash, key);
    case Delete(key) =>
      var fl' := RemoveKeeps(c, hash, fl, key);
      RemovePlaced(c, hash, key);
  }

  lemma {:induction false} InsertRefinesMap<K(!new)>(c: Core<K>, hash: K -> nat, fl: seq<nat>, key: K, ttl: nat)
    requires Slab(c, hash, fl) && Conserved(c) && Timely(c) && InRange(c)
    ensures var c' := Handle(c, hash, Insert(key, ttl));
      && Inv(c', hash)
      && Live(c'.entries) == MapAfter(Live(c.entries), |c.entries|, c.tick, Insert(key, ttl))
  {
    hide Represents, Unique, FreeList, IndexOk, HashesOk, Conserved, Timely, InRange, Handle;
    LiveCount(c, hash, fl);
    if key in Live(c.entries) || |Live(c.entries)| < |c.entries| {
      InsertWithRoom(c, hash, fl, key, ttl);
    } else {
      InsertWhenFull(c, hash, fl, key, ttl);
    }
  }

  // A key that is live already always gets a slot: the one it gives up.
  lemma {:induction false} InsertWithRoom<K(!new)>(c: Core<K>, hash: K -> nat, fl: seq<nat>, key: K, ttl: nat)
    requires Slab(c, hash, fl) && Conserved(c) && Timely(c) && InRange(c)
    requires key in Live(c.entries) || fl != []
    ensures var c' := Handle(c, hash, Insert(key, ttl));
      && Inv(c', hash)
      && Live(c'.entries) == Live(c.entries)[key := Rec(c.tick + ttl, ttl, 1)]
  {
    hide Represents, Unique, FreeList, IndexOk, HashesOk, Conserved, Timely, InRange, Remove, Place;
    var fl1 := RemoveKeeps(c, hash, fl, key);
    RemovePlaced(c, hash, key);
    var c1 := Remove(c, hash, key);
    PlaceInv(c1, hash, fl1, key, ttl);
    PutAgain(Live(c.entries), key, Rec(c1.tick + ttl, ttl, 1));
  }

  lemma {:induction false} InsertWhenFull<K(!new)>(c: Core<K>, hash: K -> nat, fl: seq<nat>, key: K, ttl: nat)
    requires Slab(c, hash, fl) && Conserved(c) && Timely(c) && InRange(c)
    requires key !in Live(c.entries) && fl == []
    ensures Handle(c, hash, Insert(key, ttl)) == c && Inv(c, hash)
  {
    FindFindsLive(c, hash, fl, key);
    PlaceKeeps(c, hash, fl, key, ttl);
  }

  lemma {:induction false} PlaceInv<K(!new)>(c: Core<K>, hash: K -> nat, fl: seq<nat>, key: K, ttl: nat)
    requires Slab(c, hash, fl) && Conserved(c) && Timely(c) && InRange(c) && key !in Live(c.entries) && fl != []
    ensures var c' := Place(c, hash, key, ttl);
      && Inv(c', hash)
      && Live(c'.entries) == Live(c.entries)[key := Rec(c.tick + ttl, ttl, 1)]
  {
    PlaceKeeps(c, hash, fl, key, ttl);
    PlacePlaced(c, hash, key, ttl);
    assert Slab(Place(c, hash, key, ttl), hash, fl[1..]);
  }
}

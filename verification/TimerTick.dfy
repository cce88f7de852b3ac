/**
One tick of a shard: which keys it expires, that it keeps the slab and the placement of tokens, and
that neither compaction nor stale tokens change its outcome.
*/
module TimerTick {
  import opened TimerCore
  import opened TimerSlab
  import opened TimerPlacement

  function EventKeys<K>(events: seq<CacheEvent<K>>): set<K> {
    if events == [] then {} else {events[0].key} + EventKeys(events[1..])
  }

  lemma {:induction false} EventKeysAppend<K>(a: seq<CacheEvent<K>>, b: seq<CacheEvent<K>>)
    ensures EventKeys(a + b) == EventKeys(a) + EventKeys(b)
  {
    if a == [] {
      assert a + b == b;
    } else {
      assert (a + b)[1..] == a[1..] + b;
      EventKeysAppend(a[1..], b);
    }
  }

  // `events` is what is produced when exactly the keys of `live` missing from `live'` expire by tick
  // `t`: one event for each, with its recorded version.
  ghost predicate Fired<K(!new)>(live: map<K, Rec>, live': map<K, Rec>, events: seq<CacheEvent<K>>,
      hash: K -> nat, t: nat) {
    && EventKeys(events) <= live.Keys
    && live' == live - EventKeys(events)
    && |events| == |EventKeys(events)|
    && (forall ev <- events :: ev.key in live && ev == CacheEvent(ev.key, hash(ev.key), live[ev.key].version)
                               && live[ev.key].expire <= t)
  }

  lemma {:induction false} FiredNothing<K(!new)>(live: map<K, Rec>, hash: K -> nat, t: nat)
    ensures Fired(live, live, [], hash, t)
  {
    assert live - {} == live;
  }

  lemma {:induction false} FiredThen<K(!new)>(live: map<K, Rec>, mid: map<K, Rec>, live': map<K, Rec>,
      a: seq<CacheEvent<K>>, b: seq<CacheEvent<K>>, hash: K -> nat, t: nat)
    requires Fired(live, mid, a, hash, t) && Fired(mid, live', b, hash, t)
    ensures Fired(live, live', a + b, hash, t)
  {
    EventKeysAppend(a, b);
    assert EventKeys(a) * EventKeys(b) == {};
    assert |EventKeys(a) + EventKeys(b)| == |EventKeys(a)| + |EventKeys(b)|;
    assert live - EventKeys(a) - EventKeys(b) == live - (EventKeys(a) + EventKeys(b));
  }

  lemma {:induction false} ExpireFires<K(!new)>(c: Core<K>, hash: K -> nat, fl: seq<nat>, idx: nat)
    requires Slab(c, hash, fl) && Conserved(c)
    requires idx < |c.entries| && c.entries[idx].inUse && c.entries[idx].expire <= c.tick
    ensures var r := Expire(c, idx);
      && Slab(r.core, hash, [idx] + fl) && Conserved(r.core)
      && Fired(Live(c.entries), Live(r.core.entries), r.events, hash, c.tick)
  {
    var _ := ReleaseKeeps(c, hash, fl, idx);
    var r := Expire(c, idx);
    var key := c.entries[idx].key.value;
    assert Holds(c.entries, idx, key);
    assert r.events[1..] == [];
    assert EventKeys(r.events) == {key};
    assert Live(c.entries).Keys == Live(r.core.entries).Keys + {key};
    assert multiset(Live(c.entries).Keys) == multiset(Live(r.core.entries).Keys) + multiset{key};
  }

  // Processing a bucket keeps the slab and fires one event for each key it removes.
  lemma {:induction false} ProcessFires<K(!new)>(c: Core<K>, hash: K -> nat, fl: seq<nat>, bucket: seq<Token>)
    returns (fl': seq<nat>)
    requires Slab(c, hash, fl) && Conserved(c)
    ensures var r := Process(c, bucket);
      && Slab(r.core, hash, fl') && Conserved(r.core)
      && Fired(Live(c.entries), Live(r.core.entries), r.events, hash, c.tick)
    decreases |bucket|
  {
    if bucket == [] {
      fl' := fl;
      FiredNothing(Live(c.entries), hash, c.tick);
    } else {
      var first := ProcessToken(c, bucket[0]);
      var fl1 := fl;
      if Matches(c, bucket[0]) && c.entries[bucket[0].idx].expire <= c.tick {
        ExpireFires(c, hash, fl, bucket[0].idx);
        fl1 := [bucket[0].idx] + fl;
      } else {
        FiredNothing(Live(c.entries), hash, c.tick);
      }
      fl' := ProcessFires(first.core, hash, fl1, bucket[1..]);
      var r := Process(c, bucket);
      FiredThen(Live(c.entries), Live(first.core.entries), Live(r.core.entries), first.events,
                Process(first.core, bucket[1..]).events, hash, c.tick);
    }
  }

  // Processing a bucket empties exactly the slots that were due and named by a matching token in it.
  lemma {:induction false} ProcessExact<K(!new)>(c: Core<K>, bucket: seq<Token>, i: nat)
    requires i < |c.entries| && c.entries[i].inUse
    ensures var e, es' := c.entries[i], Process(c, bucket).core.entries;
      if e.expire <= c.tick && Token(i, e.version) in bucket then !es'[i].inUse else es'[i] == e
    decreases |bucket|
  {
    if bucket != [] {
      var first := ProcessToken(c, bucket[0]);
      if first.core.entries[i].inUse {
        ProcessExact(first.core, bucket[1..], i);
      } else {
        ProcessStaysFree(first.core, bucket[1..], i);
      }
    }
  }

  lemma {:induction false} ProcessStaysFree<K(!new)>(c: Core<K>, bucket: seq<Token>, i: nat)
    requires i < |c.entries| && !c.entries[i].inUse
    ensures !Process(c, bucket).core.entries[i].inUse
    decreases |bucket|
  {
    if bucket != [] {
      ProcessStaysFree(ProcessToken(c, bucket[0]).core, bucket[1..], i);
    }
  }

  // Processing the bucket of tick n1 - 1 leaves every remaining entry placed.
  lemma {:induction false} ProcessPlaces<K>(c: Core<K>, bucket: seq<Token>, n1: nat, n2: nat, n3: nat)
    requires forall i: nat :: i < |c.entries| && c.entries[i].inUse ==>
      Placed(c, i, n1, n2, n3) || (Token(i, c.entries[i].version) in bucket && c.entries[i].expire <= c.tick)
    ensures AllPlaced(Process(c, bucket).core, n1, n2, n3)
    decreases |bucket|
  {
    if bucket != [] {
      var tok := bucket[0];
      var c' := ProcessToken(c, tok).core;
      forall i: nat | i < |c'.entries| && c'.entries[i].inUse
        ensures Placed(c', i, n1, n2, n3)
                || (Token(i, c'.entries[i].version) in bucket[1..] && c'.entries[i].expire <= c'.tick)
      {
        assert c'.entries[i] == c.entries[i];
        if Matches(c, tok) && c.entries[tok.idx].expire > c.tick && Placed(c, i, n1, n2, n3) {
          ScheduleKeeps(c, tok.idx, i, n1, n2, n3);
        }
      }
      ProcessPlaces(c', bucket[1..], n1, n2, n3);
    }
  }

  lemma {:induction false} ProcessAges<K>(c: Core<K>, bucket: seq<Token>)
    requires Aged(c)
    ensures Aged(Process(c, bucket).core)
    decreases |bucket|
  {
    if bucket != [] {
      ProcessAges(ProcessToken(c, bucket[0]).core, bucket[1..]);
    }
  }

  // ---------------------------------------------------------------- compaction

  lemma {:induction false} RetainSkipsStale<K>(c0: Core<K>, c: Core<K>, bucket: seq<Token>)
    requires forall tok <- bucket :: Matches(c, tok) ==> Matches(c0, tok)
    ensures Process(c, Retain(c0, bucket)) == Process(c, bucket)
    decreases |bucket|
  {
    if bucket != [] {
      var tok, rest := bucket[0], bucket[1..];
      var kept := Retain(c0, rest);
      if Matches(c0, tok) {
        assert ([tok] + kept)[1..] == kept;
        RetainSkipsStale(c0, ProcessToken(c, tok).core, rest);
      } else {
        RetainSkipsStale(c0, c, rest);
        assert [] + kept == kept;
        assert [] + Process(c, rest).events == Process(c, rest).events;
      }
    }
  }

  // Threshold compaction never changes the outcome of a tick.
  lemma {:induction false} CompactionIrrelevant<K>(c: Core<K>, bucket: seq<Token>)
    ensures Process(c, Retain(c, bucket)) == Process(c, bucket)
  {
    RetainSkipsStale(c, c, bucket);
  }
}

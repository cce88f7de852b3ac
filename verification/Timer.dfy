/**
One timer shard (base/src/cache/c100k.rs) as the source has it: fields updated in place. Each method
is proved against the function of TimerCore that gives its meaning; `Valid` is kept by every
operation a shard offers, and `Log` is everything it has handed, or will next hand, to its channel.
*/
module Timer {
  import opened Options
  import opened TimerCore
  import opened TimerSlab
  import opened TimerPlacement
  import opened TimerTick
  import opened TimerInvariant
  import opened TimerRuns
  import TimerHistory

  function Flat<T>(batches: seq<seq<T>>): seq<T> {
    if batches == [] then [] else Flat(batches[..|batches| - 1]) + batches[|batches| - 1]
  }

  class Shard<K(==, !new)> {
    const hash: K -> nat
    const entries: array<Entry<K>>
    var freeHead: nat
    var index: map<nat, seq<nat>>
    const wheelL1: array<seq<Token>>
    const wheelL2: array<seq<Token>>
    const wheelL3: array<seq<Token>>
    var tick: nat
    var batch: seq<CacheEvent<K>>

    ghost var sent: seq<seq<CacheEvent<K>>>  // batches offered to the event channel, oldest first
    ghost var before: seq<seq<CacheEvent<K>>> // those sent by earlier turns of the ticker
    ghost var ledger: Ledger<K>

    ghost predicate Shape()
      reads this
    {
      && wheelL1.Length == 512 && wheelL2.Length == 128 && wheelL3.Length == 128
      && wheelL1 != wheelL2 && wheelL1 != wheelL3 && wheelL2 != wheelL3
    }

    ghost function Core(): Core<K>
      reads this, entries, wheelL1, wheelL2, wheelL3
      requires Shape()
    {
      TimerCore.Core(entries[..], freeHead, index, wheelL1[..], wheelL2[..], wheelL3[..], tick, ledger)
    }

    ghost predicate Batched()
      reads this
    {
      && |batch| < BATCH && (forall b <- sent :: 1 <= |b| <= BATCH)
      && before <= sent && (forall j :: |before| <= j < |sent| ==> |sent[j]| == BATCH)
    }

    // Between two turns of the ticker nothing is pending.
    ghost predicate Rests()
      reads this
    {
      batch == [] && before == sent
    }

    ghost predicate Valid()
      reads this, entries, wheelL1, wheelL2, wheelL3
    {
      Shape() && Inv(Core(), hash) && Batched()
    }

    ghost function Log(): seq<CacheEvent<K>>
      reads this
    {
      Flat(sent) + batch
    }

    constructor (capacity: nat, hash: K -> nat)
      ensures Valid() && Core() == New(capacity) && Log() == [] && this.hash == hash && Rests()
    {
      this.hash := hash;
      entries := new Entry<K>[capacity]((i: nat) => Entry(Uninit, 0, 0, 0, 0, i + 1, false));
      freeHead := 0;
      index := map[];
      wheelL1 := new seq<Token>[512](_ => []);
      wheelL2 := new seq<Token>[128](_ => []);
      wheelL3 := new seq<Token>[128](_ => []);
      tick := 0;
      batch := [];
      sent, before := [], [];
      ledger := Ledger(multiset{}, multiset{}, multiset{});
      new;
      assert Core() == New(capacity);
      TimerHistory.NewInv<K>(capacity, hash);
    }

    method Alloc() returns (r: Option<nat>)
      modifies this`freeHead
      ensures r == if old(freeHead) < entries.Length then Some(old(freeHead)) else None
      ensures freeHead == if r.Some? then entries[r.value].nextFree else old(freeHead)
    {
      var idx := freeHead;
      if idx >= entries.Length {
        return None;
      }
      freeHead := entries[idx].nextFree;
      r := Some(idx);
    }

    method Free(idx: nat)
      requires Shape() && idx < entries.Length
      modifies this`freeHead, this`ledger, entries
      ensures Core() == TimerCore.Free(old(Core()), idx)
    {
      var e := entries[idx];
      if e.inUse {
        ledger := ledger.(dropped := ledger.dropped + multiset{e.key.value});
      }
      entries[idx] := e.Released(freeHead);
      freeHead := idx;
      assert entries[..] == old(entries[..])[idx := e.Released(old(freeHead))];
    }

    method FindEntry(key: K, h: nat) returns (r: Option<nat>)
      requires Shape()
      requires h in index ==> forall i <- index[h] :: i < entries.Length
      ensures r == Find(Core(), h, key)
    {
      if h !in index {
        return None;
      }
      var list := index[h];
      for j := 0 to |list|
        invariant FindIn(entries[..], list, key) == FindIn(entries[..], list[j..], key)
      {
        var idx := list[j];
        assert idx in list && list[j..][1..] == list[j + 1..];
        var e := entries[idx];
        if e.inUse {
          if e.key.value == key {
            return Some(idx);
          }
        }
      }
      r := None;
    }

    method Schedule(idx: nat)
      requires Shape() && idx < entries.Length
      modifies wheelL1, wheelL2, wheelL3
      ensures Core() == TimerCore.Schedule(old(Core()), idx)
    {
      var e := entries[idx];
      var tok := Token(idx, e.version);
      if e.expire <= tick {
        var next := (tick + 1) % 512;
        wheelL1[next] := wheelL1[next] + [tok];
        return;
      }
      var diff := e.expire - tick;
      if diff < 512 {
        var s := e.expire % 512;
        wheelL1[s] := wheelL1[s] + [tok];
      } else if diff < 512 * 128 {
        var s := (e.expire / 512) % 128;
        wheelL2[s] := wheelL2[s] + [tok];
      } else {
        var s := (e.expire / (512 * 128)) % 128;
        wheelL3[s] := wheelL3[s] + [tok];
      }
    }

    method CascadeL2()
      requires Shape() && InRange(Core())
      modifies wheelL1, wheelL2, wheelL3
      ensures Core() == TimerCore.CascadeL2(old(Core()))
    {
      var slot := (tick / 512) % 128;
      var bucket := wheelL2[slot];
      wheelL2[slot] := [];
      ghost var c := Core();
      assert c == old(Core()).(l2 := old(Core()).l2[slot := []]);
      assert old(Core()).l2[slot] == bucket;
      CascadeBucket(bucket);
    }

    method CascadeL3()
      requires Shape() && InRange(Core())
      modifies wheelL1, wheelL2, wheelL3
      ensures Core() == TimerCore.CascadeL3(old(Core()))
    {
      var slot := (tick / (512 * 128)) % 128;
      var bucket := wheelL3[slot];
      wheelL3[slot] := [];
      ghost var c := Core();
      assert c == old(Core()).(l3 := old(Core()).l3[slot := []]);
      assert old(Core()).l3[slot] == bucket;
      CascadeBucket(bucket);
    }

    // The loop that `cascade_l2` and `cascade_l3` have in common.
    method CascadeBucket(bucket: seq<Token>)
      requires Shape() && forall tok <- bucket :: tok.idx < entries.Length
      modifies wheelL1, wheelL2, wheelL3
      ensures Core() == Cascade(old(Core()), bucket)
    {
      for i := 0 to |bucket|
        invariant entries[..] == old(entries[..])
        invariant Cascade(Core(), bucket[i..]) == Cascade(old(Core()), bucket)
      {
        var tok := bucket[i];
        assert bucket[i..][1..] == bucket[i + 1..];
        assert tok == bucket[i..][0];
        var e := entries[tok.idx];
        if e.inUse && e.version == tok.version {
          Schedule(tok.idx);
        }
      }
    }

    method InsertIndex(h: nat, idx: nat)
      modifies this`index
      ensures index == TimerCore.InsertIndex(old(index), h, idx)
    {
      if h !in index {
        index := index[h := []];
      }
      index := index[h := index[h] + [idx]];
    }

    method RemoveIndex(h: nat, idx: nat)
      modifies this`index
      ensures index == TimerCore.RemoveIndex(old(index), h, idx)
    {
      if h in index {
        var v := index[h];
        var pos := Position(v, idx);
        if pos < |v| {
          v := SwapRemove(v, pos);
          index := index[h := v];
        }
        if v == [] {
          index := index - {h};
        }
      }
    }

    // Offers the pending batch to the event channel; whether it was accepted is only logged.
    method SendBatch()
      requires |batch| > 0
      modifies this`batch, this`sent
      ensures batch == [] && sent == old(sent) + [old(batch)] && Log() == old(Log())
    {
      sent := sent + [batch];
      batch := [];
      assert sent[..|sent| - 1] == old(sent);
    }

    // Expires the entry in slot `idx`.
    method ExpireEntry(idx: nat)
      requires Shape() && Batched() && idx < entries.Length && entries[idx].inUse
      modifies this`freeHead, this`index, this`batch, this`sent, this`ledger, entries
      ensures Core() == Expire(old(Core()), idx).core && Batched()
      ensures Log() == old(Log()) + Expire(old(Core()), idx).events
    {
      var e := entries[idx];
      RemoveIndex(e.hash, idx);
      entries[idx] := e.Released(freeHead);
      freeHead := idx;
      ledger := ledger.(moved := ledger.moved + multiset{e.key.value});
      batch := batch + [CacheEvent(e.key.value, e.hash, e.version)];
      assert entries[..] == old(entries[..])[idx := e.Released(old(freeHead))];
      assert Log() == old(Log()) + [CacheEvent(e.key.value, e.hash, e.version)];
      if |batch| >= BATCH {
        SendBatch();
      }
    }

    // One token of the bucket being processed.
    method ProcessOne(tok: Token)
      requires Shape() && Batched() && tok.idx < entries.Length
      modifies this`freeHead, this`index, this`batch, this`sent, this`ledger, entries, wheelL1, wheelL2, wheelL3
      ensures Core() == ProcessToken(old(Core()), tok).core && Batched()
      ensures Log() == old(Log()) + ProcessToken(old(Core()), tok).events
    {
      var e := entries[tok.idx];
      if !e.inUse || e.version != tok.version {
        return;
      }
      if e.expire > tick {
        Schedule(tok.idx);
        return;
      }
      ExpireEntry(tok.idx);
    }

    method ProcessBucket(bucket: seq<Token>)
      requires Shape() && Batched() && forall tok <- bucket :: tok.idx < entries.Length
      modifies this`freeHead, this`index, this`batch, this`sent, this`ledger, entries, wheelL1, wheelL2, wheelL3
      ensures Core() == Process(old(Core()), bucket).core && Batched()
      ensures Log() == old(Log()) + Process(old(Core()), bucket).events
    {
      hide ProcessToken;
      ghost var all := Process(Core(), bucket);
      for i := 0 to |bucket|
        invariant Batched()
        invariant Process(Core(), bucket[i..]).core == all.core
        invariant Log() + Process(Core(), bucket[i..]).events == old(Log()) + all.events
      {
        assert bucket[i..][1..] == bucket[i + 1..];
        ghost var log, first := Log(), ProcessToken(Core(), bucket[i]);
        ghost var rest := Process(first.core, bucket[i + 1..]);
        ProcessOne(bucket[i]);
        assert log + (first.events + rest.events) == (log + first.events) + rest.events;
      }
    }

    // `bucket.retain`: drops the tokens that match nothing.
    method Compact(bucket: seq<Token>) returns (kept: seq<Token>)
      requires Shape() && forall tok <- bucket :: tok.idx < entries.Length
      ensures kept == Retain(Core(), bucket)
    {
      kept := [];
      for i := 0 to |bucket|
        invariant kept + Retain(Core(), bucket[i..]) == Retain(Core(), bucket)
      {
        var tok := bucket[i];
        assert bucket[i..][1..] == bucket[i + 1..];
        assert tok == bucket[i..][0];
        ghost var rest := Retain(Core(), bucket[i + 1..]);
        var e := entries[tok.idx];
        if e.inUse && e.version == tok.version {
          assert kept + ([tok] + rest) == (kept + [tok]) + rest;
          kept := kept + [tok];
        } else {
          assert [] + rest == rest;
        }
      }
    }

    // The cascades at the start of a turn of the loop in `on_tick`.
    method RunCascades()
      requires Shape() && InRange(Core())
      modifies wheelL1, wheelL2, wheelL3
      ensures Core() == Cascades(old(Core())) && InRange(Core())
    {
      ghost var c := Core();
      CascadesInRange(c);
      if tick % 512 == 0 {
        CascadeInRange(c.(l2 := c.l2[SlotL2(tick) := []]), c.l2[SlotL2(tick)]);
        CascadeL2();
        if (tick / 512) % 128 == 0 {
          CascadeL3();
        }
      }
    }

    // Takes the first-wheel bucket of this tick, compacted if it is long.
    method TakeBucket() returns (bucket: seq<Token>)
      requires Shape() && InRange(Core())
      modifies wheelL1
      ensures var c, s := old(Core()), SlotL1(tick);
        && Core() == c.(l1 := c.l1[s := []])
        && bucket == (if |c.l1[s]| > COMPACT_THRESHOLD then Retain(c, c.l1[s]) else c.l1[s])
        && forall tok <- bucket :: tok.idx < entries.Length
    {
      ghost var c := Core();
      var slot := tick % 512;
      bucket := wheelL1[slot];
      wheelL1[slot] := [];
      assert c.l1[slot] == bucket;
      assert Core() == c.(l1 := c.l1[slot := []]);
      RetainIgnoresWheels(c, Core(), bucket);
      if |bucket| > COMPACT_THRESHOLD {
        bucket := Compact(bucket);
      }
    }

    // One turn of the loop in `on_tick`.
    method Advance()
      requires Valid()
      modifies this`tick, this`freeHead, this`index, this`batch, this`sent, this`ledger, entries, wheelL1, wheelL2,
               wheelL3
      ensures Valid() && Core() == Tick(old(Core())).core
      ensures Log() == old(Log()) + Tick(old(Core())).events
    {
      hide Process, Cascades, Retain, Timely, Slab, Conserved;
      ghost var c := Core();
      TickKeeps(c, hash);
      tick := tick + 1;
      assert Core() == c.(tick := c.tick + 1);
      RunCascades();
      var bucket := TakeBucket();
      ProcessBucket(bucket);
    }

    // The loop of `on_tick`.
    method CatchUp(target: nat)
      requires Valid()
      modifies this`tick, this`freeHead, this`index, this`batch, this`sent, this`ledger, entries, wheelL1, wheelL2,
               wheelL3
      ensures Valid() && Core() == TickTo(old(Core()), target).core
      ensures Log() == old(Log()) + TickTo(old(Core()), target).events
    {
      hide Inv, Tick, Batched;
      ghost var all := TickTo(Core(), target);
      while tick < target
        invariant Valid()
        invariant TickTo(Core(), target).core == all.core
        invariant Log() + TickTo(Core(), target).events == old(Log()) + all.events
      {
        ghost var log, first := Log(), Tick(Core());
        ghost var rest := TickTo(first.core, target);
        Advance();
        assert log + (first.events + rest.events) == (log + first.events) + rest.events;
      }
    }

    // Catches up with the clock, `elapsedMs` milliseconds after the shard started. The events are sent in as few
    // batches as can be: only the last one may be short.
    method OnTick(elapsedMs: nat)
      requires Valid() && Rests()
      modifies this`tick, this`freeHead, this`index, this`batch, this`sent, this`before, this`ledger, entries, wheelL1,
               wheelL2, wheelL3
      ensures Rests() && old(sent) <= sent
      ensures forall j :: |old(sent)| <= j < |sent| - 1 ==> |sent[j]| == BATCH
      ensures Valid() && Core() == TimerCore.OnTick(old(Core()), elapsedMs / TICK_MS).core
      ensures Log() == old(Log()) + TimerCore.OnTick(old(Core()), elapsedMs / TICK_MS).events && batch == []
    {
      hide Inv, TickTo;
      var expected := elapsedMs / TICK_MS;
      CatchUp(if expected < tick + CATCH_UP_MAX then expected else tick + CATCH_UP_MAX);
      if |batch| > 0 {
        SendBatch();
      }
      before := sent;
    }

    // `remove_index` then `free`, for the slot that holds `key`.
    method RemoveKey(key: K)
      requires Valid()
      modifies this`freeHead, this`index, this`ledger, entries
      ensures Core() == Remove(old(Core()), hash, key)
    {
      var h := hash(key);
      if h in index {
        ListsInRange(Core(), hash, h);
      }
      var found := FindEntry(key, h);
      if found.Some? {
        RemoveIndex(h, found.value);
        Free(found.value);
      }
    }

    method Insert(key: K, ttl: nat)
      requires Valid()
      modifies this`freeHead, this`index, this`ledger, entries, wheelL1, wheelL2, wheelL3
      ensures Core() == TimerCore.Handle(old(Core()), hash, Command.Insert(key, ttl))
    {
      RemoveKey(key);
      ghost var c1 := Core();
      var slot := Alloc();
      if slot.Some? {
        var h := hash(key);
        var e := entries[slot.value].Written(key, h, ttl, tick);
        entries[slot.value] := e;
        ledger := ledger.(written := ledger.written + multiset{key});
        InsertIndex(h, slot.value);
        assert entries[..] == c1.entries[slot.value := e];
        Schedule(slot.value);
      }
    }

    method Refresh(key: K)
      requires Valid()
      modifies entries, wheelL1, wheelL2, wheelL3
      ensures Core() == TimerCore.Handle(old(Core()), hash, Command.Refresh(key))
    {
      var h := hash(key);
      if h in index {
        ListsInRange(Core(), hash, h);
      }
      var found := FindEntry(key, h);
      if found.Some? {
        var e := entries[found.value].Refreshed(tick);
        entries[found.value] := e;
        assert entries[..] == old(entries[..])[found.value := e];
        Schedule(found.value);
      }
    }

    method Delete(key: K)
      requires Valid()
      modifies this`freeHead, this`index, this`ledger, entries
      ensures Core() == TimerCore.Handle(old(Core()), hash, Command.Delete(key))
    {
      RemoveKey(key);
    }

    // A command does to the live keys what it does to a bounded map, and produces no event.
    method Handle(cmd: Command<K>)
      requires Valid()
      modifies this`freeHead, this`index, this`ledger, entries, wheelL1, wheelL2, wheelL3
      ensures Valid() && Core() == TimerCore.Handle(old(Core()), hash, cmd)
      ensures Live(entries[..]) == MapAfter(old(Live(entries[..])), entries.Length, tick, cmd)
    {
      hide Inv, Represents, TimerCore.Handle;
      HandleRefinesMap(Core(), hash, cmd);
      match cmd
      case Insert(key, ttl) => Insert(key, ttl);
      case Refresh(key) => Refresh(key);
      case Delete(key) => Delete(key);
    }

    method DropEntry(i: nat)
      requires i < entries.Length && Unique(entries[..])
      modifies this`ledger, entries
      ensures Unique(entries[..]) && ledger == old(ledger).(dropped := ledger.dropped)
      ensures ledger.dropped + multiset(Live(entries[..]).Keys) ==
        old(ledger.dropped + multiset(Live(entries[..]).Keys))
      ensures entries[i].key.Uninit? && forall j :: 0 <= j < entries.Length && j != i ==> entries[j] == old(entries[j])
    {
      hide Represents, Unique;
      var e := entries[i];
      if e.inUse {
        var gone := e.Released(e.nextFree);
        EmptySlot(entries[..], i, gone);
        ghost var es := entries[..][i := gone];
        entries[i] := gone;
        ledger := ledger.(dropped := ledger.dropped + multiset{e.key.value});
        assert entries[..] == es;
      }
    }

    // Dropping the shard drops the key of every slot in use: then every key ever written has been
    // dropped in place or moved into an event, exactly once.
    method Drop()
      requires Valid()
      modifies this`ledger, entries
      ensures ledger == old(ledger).(dropped := ledger.dropped)
      ensures ledger.written == ledger.dropped + ledger.moved
      ensures forall i :: 0 <= i < entries.Length ==> entries[i].key.Uninit?
    {
      hide Represents, Unique;
      assert Conserved(Core());
      assert ledger.written == ledger.moved + (ledger.dropped + multiset(Live(entries[..]).Keys));
      for i := 0 to entries.Length
        invariant Unique(entries[..]) && ledger == old(ledger).(dropped := ledger.dropped)
        invariant ledger.dropped + multiset(Live(entries[..]).Keys) ==
          old(ledger.dropped + multiset(Live(entries[..]).Keys))
        invariant forall j :: 0 <= j < i ==> entries[j].key.Uninit?
      {
        DropEntry(i);
      }
      NoneLive(entries[..]);
      assert ledger.dropped + multiset{} == ledger.dropped;
    }
  }

  lemma {:induction false} EmptySlot<K(!new)>(es: seq<Entry<K>>, idx: nat, e: Entry<K>)
    requires Unique(es) && idx < |es| && es[idx].inUse && !e.inUse
    ensures Unique(es[idx := e])
    ensures multiset(Live(es).Keys) == multiset(Live(es[idx := e]).Keys) + multiset{es[idx].key.value}
  {
    LiveUpdate(es, idx, e);
    assert Holds(es, idx, es[idx].key.value);
    assert Live(es).Keys == Live(es[idx := e]).Keys + {es[idx].key.value};
  }

  lemma {:induction false} NoneLive<K(!new)>(es: seq<Entry<K>>)
    requires Unique(es) && forall i :: 0 <= i < |es| ==> !es[i].inUse
    ensures Live(es).Keys == {}
  {
  }

  lemma {:induction false} ListsInRange<K(!new)>(c: TimerCore.Core<K>, hash: K -> nat, h: nat)
    requires Inv(c, hash) && h in c.index
    ensures forall i <- c.index[h] :: i < |c.entries|
  {
  }

  lemma {:induction false} RetainIgnoresWheels<K>(c: Core<K>, c': Core<K>, bucket: seq<Token>)
    requires c.entries == c'.entries
    ensures Retain(c, bucket) == Retain(c', bucket)
    ensures forall tok <- Retain(c, bucket) :: tok.idx < |c.entries|
  {
    if bucket != [] {
      RetainIgnoresWheels(c, c', bucket[1..]);
    }
  }
}

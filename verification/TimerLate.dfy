/**
When an entry of the timer is late (base/src/cache/c100k.rs): on an expiry tick that is a multiple of 512,
an entry that waits for the cascade of that very tick, which finds it due and sends it to the next bucket.
A token of its slot in the first wheel, left behind by an earlier occupant or lifetime, can spare it the
wait: visited less than 512 ticks ahead, it sends the entry to the bucket of its expiry tick.
*/
module TimerLate {
  import opened Options
  import opened TimerCore
  import opened TimerSlab
  import opened TimerPlacement
  import opened TimerTick
  import opened TimerInvariant
  import opened TimerRuns
  import opened TimerHistory

  // Bucket s of the first wheel names slot i at its present version.
  ghost predicate Named<K>(c: Core<K>, i: nat, s: nat)
    requires i < |c.entries| && s < 512
  {
    Token(i, c.entries[i].version) in c.l1[s]
  }

  // Slot i is named by a bucket that will be visited, from tick n1 on, less than 512 ticks before its
  // entry expires.
  ghost predicate Helped<K>(c: Core<K>, i: nat, n1: nat)
    requires i < |c.entries|
  {
    exists f: nat :: n1 <= f < n1 + 512 && f <= c.entries[i].expire < f + 512 && Named(c, i, SlotL1(f))
  }

  // ---------------------------------------------------------------- what a tick does to the names of a slot

  // The entry of slot i is in use, expires later and on a multiple of 512.
  ghost predicate Pending<K>(c: Core<K>, i: nat) {
    && i < |c.entries| && c.entries[i].inUse
    && c.tick < c.entries[i].expire && c.entries[i].expire % 512 == 0
  }

  lemma {:induction false} ScheduleNames<K>(c: Core<K>, idx: nat, i: nat, s: nat)
    requires Pending(c, i) && idx < |c.entries| && s < 512
    ensures Named(Schedule(c, idx), i, s) <==>
      Named(c, i, s) || (idx == i && c.entries[i].expire - c.tick < 512 && s == SlotL1(c.entries[i].expire))
  {
  }

  lemma {:induction false} CascadeNames<K>(c: Core<K>, bucket: seq<Token>, i: nat, s: nat)
    requires Pending(c, i) && c.tick % 512 == 0 && s < 512
    ensures Named(Cascade(c, bucket), i, s) <==> Named(c, i, s)
    decreases |bucket|
  {
    hide Named, Schedule;
    if bucket != [] {
      if Matches(c, bucket[0]) {
        ScheduleNames(c, bucket[0].idx, i, s);
        CascadeNames(Schedule(c, bucket[0].idx), bucket[1..], i, s);
      } else {
        CascadeNames(c, bucket[1..], i, s);
      }
    }
  }

  lemma {:induction false} CascadesName<K>(c: Core<K>, i: nat, s: nat)
    requires Pending(c, i) && s < 512
    ensures Named(Cascades(c), i, s) <==> Named(c, i, s)
  {
    if c.tick % 512 == 0 {
      CascadeNames(c.(l2 := c.l2[SlotL2(c.tick) := []]), c.l2[SlotL2(c.tick)], i, s);
      var c' := CascadeL2(c);
      CascadeNames(c'.(l3 := c'.l3[SlotL3(c'.tick) := []]), c'.l3[SlotL3(c'.tick)], i, s);
    }
  }

  lemma {:induction false} ProcessNames<K>(c: Core<K>, bucket: seq<Token>, i: nat, s: nat)
    requires Pending(c, i) && s < 512
    ensures var c', e := Process(c, bucket).core, c.entries[i];
      && c'.entries[i] == e
      && (Named(c', i, s) <==>
            Named(c, i, s) || (Token(i, e.version) in bucket && e.expire - c.tick < 512 && s == SlotL1(e.expire)))
    decreases |bucket|
  {
    hide Named, Schedule;
    if bucket != [] {
      var c' := ProcessToken(c, bucket[0]).core;
      TokenNames(c, bucket[0], i, s);
      ProcessNames(c', bucket[1..], i, s);
    }
  }

  lemma {:induction false} TokenNames<K>(c: Core<K>, tok: Token, i: nat, s: nat)
    requires Pending(c, i) && s < 512
    ensures var c', e := ProcessToken(c, tok).core, c.entries[i];
      && Pending(c', i) && c'.entries[i] == e && c'.tick == c.tick
      && (Named(c', i, s) <==>
            Named(c, i, s) || (tok == Token(i, e.version) && e.expire - c.tick < 512 && s == SlotL1(e.expire)))
  {
    if Matches(c, tok) && c.entries[tok.idx].expire > c.tick { ScheduleNames(c, tok.idx, i, s); }
  }

  // A tick visits one bucket: a name in it goes on to the bucket of the expiry tick, if that is near.
  lemma {:induction false} TickNames<K>(c: Core<K>, i: nat, s: nat)
    requires Pending(c.(tick := c.tick + 1), i) && s < 512
    ensures var c', e, v := TimerCore.Tick(c).core, c.entries[i], SlotL1(c.tick + 1);
      && c'.entries[i] == e
      && (Named(c', i, s) <==>
            (s != v && Named(c, i, s)) || (Named(c, i, v) && e.expire - c'.tick < 512 && s == SlotL1(e.expire)))
  {
    hide TimerCore.Tick, Cascades, Process;
    var c1 := TickIs(c);
    var v := SlotL1(c1.tick);
    CascadesName(c.(tick := c.tick + 1), i, s);
    CascadesName(c.(tick := c.tick + 1), i, v);
    ProcessNames(c1.(l1 := c1.l1[v := []]), c1.l1[v], i, s);
  }

  lemma {:induction false} TickHelps<K>(c: Core<K>, i: nat)
    requires Pending(c.(tick := c.tick + 1), i)
    ensures var c' := TimerCore.Tick(c).core;
      c'.entries[i] == c.entries[i] && (Helped(c', i, c.tick + 2) ==> Helped(c, i, c.tick + 1))
  {
    hide TimerCore.Tick, Named;
    var c', t, e := TimerCore.Tick(c).core, c.tick + 1, c.entries[i];
    TickNames(c, i, 0);
    if Helped(c', i, t + 1) {
      var f: nat :| t + 1 <= f < t + 513 && f <= e.expire < f + 512 && Named(c', i, SlotL1(f));
      TickNames(c, i, SlotL1(f));
      if Named(c, i, SlotL1(t)) && e.expire - t < 512 {
        assert t <= t < t + 512 && t <= e.expire < t + 512;
      } else {
        assert f < t + 512;
      }
    }
  }

  lemma {:induction false} TickStillHelps<K>(c: Core<K>, i: nat)
    requires Pending(c.(tick := c.tick + 1), i) && Helped(c, i, c.tick + 1)
    ensures var c' := TimerCore.Tick(c).core; c'.entries[i] == c.entries[i] && Helped(c', i, c.tick + 2)
  {
    hide TimerCore.Tick, Named;
    var c', t, e := TimerCore.Tick(c).core, c.tick + 1, c.entries[i];
    var f: nat :| t <= f < t + 512 && f <= e.expire < f + 512 && Named(c, i, SlotL1(f));
    if f == t {
      TickNames(c, i, SlotL1(e.expire));
      assert Named(c', i, SlotL1(e.expire));
    } else {
      TickNames(c, i, SlotL1(f));
      OtherSlot(t, f);
      assert Named(c', i, SlotL1(f));
    }
  }

  lemma {:induction false} OtherSlot(t: nat, f: nat)
    requires t < f < t + 512
    ensures SlotL1(f) != SlotL1(t)
  {
  }

  // ---------------------------------------------------------------- commands for other keys

  // The slot has the same entry and the same names.
  ghost predicate SameSlot<K>(c: Core<K>, c': Core<K>, i: nat) {
    && i < |c.entries| && i < |c'.entries| && c'.entries[i] == c.entries[i] && c'.tick == c.tick
    && forall s :: 0 <= s < 512 ==> (Named(c', i, s) <==> Named(c, i, s))
  }

  lemma {:induction false} ScheduleOther<K>(c: Core<K>, idx: nat, i: nat)
    requires idx < |c.entries| && i < |c.entries| && idx != i
    ensures SameSlot(c, Schedule(c, idx), i)
  {
  }

  lemma {:induction false} RemoveOther<K(!new)>(c: Core<K>, hash: K -> nat, other: K, key: K, i: nat)
    requires Holds(c.entries, i, key) && other != key
    ensures SameSlot(c, Remove(c, hash, other), i)
  {
  }

  lemma {:induction false} PlaceOther<K(!new)>(c: Core<K>, hash: K -> nat, fl: seq<nat>, other: K, ttl: nat, i: nat)
    requires Slab(c, hash, fl) && i < |c.entries| && c.entries[i].inUse
    ensures SameSlot(c, Place(c, hash, other, ttl), i)
  {
    if c.freeHead < |c.entries| {
      assert fl != [] && c.freeHead in fl && c.freeHead != i;
      var j := c.freeHead;
      var c1 := c.(entries := c.entries[j := c.entries[j].Written(other, hash(other), ttl, c.tick)],
                   freeHead := c.entries[j].nextFree,
                   index := InsertIndex(c.index, hash(other), j),
                   ledger := c.ledger.(written := c.ledger.written + multiset{other}));
      ScheduleOther(c1, j, i);
    }
  }

  lemma {:induction false} RenewOther<K(!new)>(c: Core<K>, hash: K -> nat, other: K, key: K, i: nat)
    requires Holds(c.entries, i, key) && other != key
    ensures SameSlot(c, Renew(c, hash, other), i)
  {
    match Find(c, hash(other), other)
    case None =>
    case Some(j) => ScheduleOther(c.(entries := c.entries[j := c.entries[j].Refreshed(c.tick)]), j, i);
  }

  lemma {:induction false} CommandOther<K(!new)>(c: Core<K>, hash: K -> nat, cmd: Command<K>, key: K, i: nat)
    requires Inv(c, hash) && Holds(c.entries, i, key) && cmd.key != key
    ensures SameSlot(c, Handle(c, hash, cmd), i)
  {
    hide Named, Renew, Remove, Place, Slab, Represents;
    var fl :| Slab(c, hash, fl);
    match cmd {
      case Insert(other, ttl) =>
        var fl' := RemoveKeeps(c, hash, fl, other);
        RemoveOther(c, hash, other, key, i);
        PlaceOther(Remove(c, hash, other), hash, fl', other, ttl, i);
      case Refresh(other) => RenewOther(c, hash, other, key, i);
      case Delete(other) => RemoveOther(c, hash, other, key, i);
    }
  }

  lemma {:induction false} SameHelp<K>(c: Core<K>, c': Core<K>, i: nat, n1: nat)
    requires SameSlot(c, c', i)
    ensures Helped(c', i, n1) <==> Helped(c, i, n1)
  {
    hide Named;
    if Helped(c, i, n1) {
      var f: nat :| n1 <= f < n1 + 512 && f <= c.entries[i].expire < f + 512 && Named(c, i, SlotL1(f));
      assert Named(c', i, SlotL1(f));
    }
    if Helped(c', i, n1) {
      var f: nat :| n1 <= f < n1 + 512 && f <= c.entries[i].expire < f + 512 && Named(c', i, SlotL1(f));
      assert Named(c, i, SlotL1(f));
    }
  }

  // ---------------------------------------------------------------- one step

  lemma {:induction false} LiveSlot<K(!new)>(c: Core<K>, hash: K -> nat, key: K, i: nat)
    requires Inv(c, hash) && Holds(c.entries, i, key)
    ensures i < |c.entries| && key in Live(c.entries) && Live(c.entries)[key] == RecOf(c.entries[i])
  {
    KeyOfSlot(c.entries, i, key);
  }

  // Before the expiry tick, a step that does not name the key leaves it live and as well helped as it was.
  lemma {:induction false} StepHelps<K(!new)>(c: Core<K>, hash: K -> nat, step: Step<K>, key: K, i: nat)
    requires Inv(c, hash) && Holds(c.entries, i, key) && (step.Do? ==> step.cmd.key != key)
    requires Pending(c, i) && Take(c, hash, step).core.tick < c.entries[i].expire
    ensures var c' := Take(c, hash, step).core;
      && Holds(c'.entries, i, key) && c'.entries[i] == c.entries[i]
      && (Helped(c', i, c'.tick + 1) <==> Helped(c, i, c.tick + 1))
  {
    hide TimerCore.Tick, Handle, Inv, Helped, Named;
    if step.Tick? {
      TickHelps(c, i);
      if Helped(c, i, c.tick + 1) { TickStillHelps(c, i); }
    } else {
      CommandOther(c, hash, step.cmd, key, i);
      SameHelp(c, Handle(c, hash, step.cmd), i, c.tick + 1);
    }
  }

  // The tick before last decides: at the expiry tick the key fires if and only if it is helped.
  lemma {:induction false} LastTick<K(!new)>(c: Core<K>, hash: K -> nat, key: K, i: nat)
    requires Inv(c, hash) && Holds(c.entries, i, key) && c.tick + 1 == c.entries[i].expire
    ensures var es' := TimerCore.Tick(c).core.entries;
      if Helped(c, i, c.tick + 1) then key !in Keys(es') else Holds(es', i, key) && es'[i] == c.entries[i]
  {
    hide TimerCore.Tick, Represents, Inv;
    TickFiresExactly(c, hash, i, key);
    if Named(c, i, SlotL1(c.tick + 1)) { assert Helped(c, i, c.tick + 1); }
  }

  // ---------------------------------------------------------------- whole runs

  lemma {:induction false} KeyOfSlot<K(!new)>(es: seq<Entry<K>>, i: nat, key: K)
    requires Unique(es) && Holds(es, i, key)
    ensures i < |es| && key in Live(es) && Live(es)[key] == RecOf(es[i])
  {
  }

  // An entry still live at its expiry tick fires at the next one, if it fires.
  lemma {:induction false} DueIsLate<K(!new)>(c: Core<K>, hash: K -> nat, steps: seq<Step<K>>, key: K)
    requires Inv(c, hash) && Leaves(steps, key) && key in Live(c.entries) && c.tick >= Live(c.entries)[key].expire
    requires key !in LiveAfter(c, hash, steps)
    ensures var log := For(Run(c, hash, steps).log, key); |log| == 1 && log[0].at == Live(c.entries)[key].expire + 1
    decreases |steps|
  {
    hide Take, Represents, Run, Live;
    LiveBounds(c, hash, key);
    if steps == [] {
      NothingRun(c, hash);
    } else {
      var o := StepOn(c, hash, steps[0], key);
      RunFirst(c, hash, steps, key);
      if key in Live(o.core.entries) {
        DueIsLate(o.core, hash, steps[1..], key);
      } else {
        GoneStaysGone(o.core, hash, steps[1..], key);
      }
    }
  }

  lemma {:induction false} NothingRun<K(!new)>(c: Core<K>, hash: K -> nat)
    requires Inv(c, hash)
    ensures LiveAfter(c, hash, []) == Live(c.entries)
  {
  }

  // On a multiple of 512 an entry that is not helped fires one tick late, if it fires, and another on time.
  lemma {:induction false} MultipleLate<K(!new)>(c: Core<K>, hash: K -> nat, steps: seq<Step<K>>, key: K, i: nat)
    requires Inv(c, hash) && Leaves(steps, key) && Holds(c.entries, i, key) && Pending(c, i)
    requires key !in LiveAfter(c, hash, steps)
    ensures var log, expire := For(Run(c, hash, steps).log, key), c.entries[i].expire;
      |log| == 1 && log[0].at == if Helped(c, i, c.tick + 1) then expire else expire + 1
    decreases |steps|
  {
    hide Take, Represents, Run, Inv, Live, Holds, Helped;
    LiveSlot(c, hash, key, i);
    if steps == [] {
      NothingRun(c, hash);
    } else {
      var o := StepOn(c, hash, steps[0], key);
      RunFirst(c, hash, steps, key);
      if o.core.tick < c.entries[i].expire {
        StepHelps(c, hash, steps[0], key, i);
        LiveSlot(o.core, hash, key, i);
        MultipleLate(o.core, hash, steps[1..], key, i);
      } else {
        MultipleLast(c, hash, steps, key, i);
      }
    }
  }

  lemma {:induction false} MultipleLast<K(!new)>(c: Core<K>, hash: K -> nat, steps: seq<Step<K>>, key: K, i: nat)
    requires Inv(c, hash) && Leaves(steps, key) && Holds(c.entries, i, key)
    requires steps != [] && steps[0].Tick? && c.tick + 1 == c.entries[i].expire
    requires key !in LiveAfter(c, hash, steps)
    ensures var log, expire := For(Run(c, hash, steps).log, key), c.entries[i].expire;
      |log| == 1 && log[0].at == if Helped(c, i, c.tick + 1) then expire else expire + 1
  {
    hide Represents, Run, Inv, Live, Holds, Helped, Take, TimerCore.Tick;
    LiveSlot(c, hash, key, i);
    var o := StepOn(c, hash, steps[0], key);
    assert o.core == TimerCore.Tick(c).core by { TickTaken(c, hash); }
    RunFirst(c, hash, steps, key);
    LastTick(c, hash, key, i);
    if Helped(c, i, c.tick + 1) {
      NotLive(o.core, hash, key);
      GoneStaysGone(o.core, hash, steps[1..], key);
    } else {
      LiveSlot(o.core, hash, key, i);
      DueIsLate(o.core, hash, steps[1..], key);
    }
  }

  lemma {:induction false} TickTaken<K(!new)>(c: Core<K>, hash: K -> nat)
    ensures Take(c, hash, Tick).core == TimerCore.Tick(c).core
  {
  }

  lemma {:induction false} NotLive<K(!new)>(c: Core<K>, hash: K -> nat, key: K)
    requires Inv(c, hash) && key !in Keys(c.entries)
    ensures key !in Live(c.entries)
  {
  }

  // Over every run that does not name it, a live key that expires does so one tick late if and only if it
  // is at its expiry tick already, or that is a multiple of 512 and no token of the first wheel helps.
  lemma {:induction false} LateExactly<K(!new)>(c: Core<K>, hash: K -> nat, steps: seq<Step<K>>, key: K, i: nat)
    requires Inv(c, hash) && Leaves(steps, key) && Holds(c.entries, i, key) && key !in LiveAfter(c, hash, steps)
    ensures var log, expire := For(Run(c, hash, steps).log, key), c.entries[i].expire;
      && |log| == 1 && expire <= log[0].at <= expire + 1
      && (log[0].at == expire + 1 <==>
            c.tick == expire || (expire % 512 == 0 && !Helped(c, i, c.tick + 1)))
  {
    hide Represents, Run, Inv, Live, Holds, Helped;
    LiveSlot(c, hash, key, i);
    LiveBounds(c, hash, key);
    ExpiresOnTime(c, hash, steps, key);
    if c.tick == c.entries[i].expire {
      DueIsLate(c, hash, steps, key);
    } else {
      AgedSlot(c, hash, key, i);
      if c.entries[i].expire % 512 == 0 { MultipleLate(c, hash, steps, key, i); }
    }
  }

  lemma {:induction false} AgedSlot<K(!new)>(c: Core<K>, hash: K -> nat, key: K, i: nat)
    requires Inv(c, hash) && Holds(c.entries, i, key)
    ensures c.entries[i].expire <= c.tick + c.entries[i].ttl && c.entries[i].inUse
  {
  }

  // With 1024 ticks or more to go no token helps: a live key is late if and only if its expiry tick is a
  // multiple of 512.
  lemma {:induction false} LongLateExactly<K(!new)>(c: Core<K>, hash: K -> nat, steps: seq<Step<K>>, key: K)
    requires Inv(c, hash) && Leaves(steps, key) && key in Live(c.entries) && key !in LiveAfter(c, hash, steps)
    requires Live(c.entries)[key].expire >= c.tick + 1024
    ensures var log, expire := For(Run(c, hash, steps).log, key), Live(c.entries)[key].expire;
      |log| == 1 && log[0].at == if expire % 512 == 0 then expire + 1 else expire
  {
    hide Represents, Run, Inv, Live;
    var i := SlotOfLive(c, hash, key);
    LateExactly(c, hash, steps, key, i);
  }

  lemma {:induction false} SlotOfLive<K(!new)>(c: Core<K>, hash: K -> nat, key: K) returns (i: nat)
    requires Inv(c, hash) && key in Live(c.entries)
    ensures Holds(c.entries, i, key) && Live(c.entries)[key] == RecOf(c.entries[i])
  {
    i :| Holds(c.entries, i, key);
  }

  // A new key goes to the slot at the head of the free list.
  lemma {:induction false} InsertTakesHead<K(!new)>(c: Core<K>, hash: K -> nat, key: K, ttl: nat)
    requires Inv(c, hash) && key !in Live(c.entries) && c.freeHead < |c.entries|
    ensures var i, c1 := c.freeHead, Handle(c, hash, Insert(key, ttl));
      && Holds(c1.entries, i, key)
      && c1.entries[i].expire == c.tick + ttl && c1.entries[i].ttl == ttl && c1.entries[i].version == 1
      && (ttl >= 512 ==> c1.l1 == c.l1)
  {
    var fl :| Slab(c, hash, fl);
    FindFindsLive(c, hash, fl, key);
    assert Remove(c, hash, key) == c;
  }

  // An inserted key, new or not: a lifetime of 0 ticks is always late, one of 1 to 511 never, one of 1024 or
  // more exactly on a multiple of 512, and one in between on a multiple of 512 unless a left-over token helps.
  lemma {:induction false} InsertedLateExactly<K(!new)>(c: Core<K>, hash: K -> nat, key: K, ttl: nat,
      steps: seq<Step<K>>, i: nat)
    requires Inv(c, hash) && Leaves(steps, key)
    requires Holds(Handle(c, hash, Insert(key, ttl)).entries, i, key)
    requires key in Live(c.entries) || |Live(c.entries)| < |c.entries|
    requires key !in Keys(Run(Handle(c, hash, Insert(key, ttl)), hash, steps).core.entries)
    ensures var c1, expire := Handle(c, hash, Insert(key, ttl)), c.tick + ttl;
      var log := For(Run(c1, hash, steps).log, key);
      && |log| == 1 && expire <= log[0].at <= expire + 1
      && (log[0].at == expire + 1 <==> ttl == 0 || (expire % 512 == 0 && !Helped(c1, i, c.tick + 1)))
      && (0 < ttl < 512 ==> log[0].at == expire)
      && (ttl >= 1024 ==> (log[0].at == expire + 1 <==> expire % 512 == 0))
  {
    hide Represents, Run, Inv, Handle, Live, Helped, Holds;
    var c1 := Handle(c, hash, Insert(key, ttl));
    HandleRefinesMap(c, hash, Insert(key, ttl));
    LiveSlot(c1, hash, key, i);
    RunKeeps(c1, hash, steps);
    LiveKeys(c1, hash, steps);
    LateExactly(c1, hash, steps, key, i);
    ExpiresOnTime(c1, hash, steps, key);
    if ttl >= 1024 { LongLateExactly(c1, hash, steps, key); }
  }

  // ---------------------------------------------------------------- both cases happen

  // In an empty shard a key inserted at tick 0 for 512 ticks fires at tick 513.
  lemma {:induction false} LateByOneTick<K(!new)>(hash: K -> nat, key: K)
    ensures var c := Handle(New<K>(1), hash, Insert(key, 512));
      For(Run(c, hash, Ticks(513)).log, key) == [Stamped(513, CacheEvent(key, hash(key), 1))]
  {
    hide TimerCore.Tick, Represents, Run, Handle;
    var c0 := New<K>(1);
    NewInv<K>(1, hash);
    InsertTakesHead(c0, hash, key, 512);
    FiresBy513(c0, hash, key);
    assert !Helped(Handle(c0, hash, Insert(key, 512)), 0, 1);
  }

  // Likewise in a shard whose one slot held another key before, inserted for 100 ticks and deleted: the
  // token left in the bucket of tick 100 helps, and the key fires at tick 512.
  lemma {:induction false} LeftOverHelps<K(!new)>(hash: K -> nat, first: K, key: K)
    ensures var c0 := Handle(Handle(New<K>(1), hash, Insert(first, 100)), hash, Delete(first));
      var c := Handle(c0, hash, Insert(key, 512));
      For(Run(c, hash, Ticks(513)).log, key) == [Stamped(512, CacheEvent(key, hash(key), 1))]
  {
    hide TimerCore.Tick, Represents, Run, Handle;
    var c1 := Handle(New<K>(1), hash, Insert(first, 100));
    var c0 := Handle(c1, hash, Delete(first));
    NewInv<K>(1, hash);
    HandleRefinesMap(New<K>(1), hash, Insert(first, 100));
    HandleRefinesMap(c1, hash, Delete(first));
    LeftOverToken(hash, first);
    InsertTakesHead(c0, hash, key, 512);
    FiresBy513(c0, hash, key);
    var c := Handle(c0, hash, Insert(key, 512));
    assert Named(c, 0, SlotL1(100));
  }

  lemma {:induction false} LeftOverToken<K(!new)>(hash: K -> nat, first: K)
    ensures var c0 := Handle(Handle(New<K>(1), hash, Insert(first, 100)), hash, Delete(first));
      && c0.tick == 0 && |c0.entries| == 1 && c0.freeHead == 0 && !c0.entries[0].inUse
      && Token(0, 1) in c0.l1[100]
  {
  }

  // From tick 0, a key inserted for 512 ticks into the one free slot has fired by tick 513.
  lemma {:induction false} FiresBy513<K(!new)>(c0: Core<K>, hash: K -> nat, key: K)
    requires Inv(c0, hash) && c0.tick == 0 && |c0.entries| == 1 && c0.freeHead == 0 && key !in Live(c0.entries)
    requires |Live(c0.entries)| == 0
    ensures var c := Handle(c0, hash, Insert(key, 512));
      && |c.entries| == 1
      && For(Run(c, hash, Ticks(513)).log, key) ==
         [Stamped(if Helped(c, 0, 1) then 512 else 513, CacheEvent(key, hash(key), 1))]
  {
    hide TimerCore.Tick, Represents, Run, Handle, Helped;
    var c := Handle(c0, hash, Insert(key, 512));
    HandleRefinesMap(c0, hash, Insert(key, 512));
    InsertTakesHead(c0, hash, key, 512);
    LiveSlot(c, hash, key, 0);
    RunKeeps(c, hash, Ticks(513));
    CatchUpIsTicks(c, hash, 513);
    ExpiresOnTime(c, hash, Ticks(513), key);
    LiveKeys(c, hash, Ticks(513));
    LateExactly(c, hash, Ticks(513), key, 0);
  }
}

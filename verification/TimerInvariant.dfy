/**
The invariant of a shard, and what each command and each tick does to the map of live keys.
*/
module TimerInvariant {
  import opened TimerCore
  import opened TimerSlab
  import opened TimerPlacement
  import opened TimerTick

  ghost predicate WheelOk(w: seq<seq<Token>>, n: nat) {
    forall s: nat, tok :: s < |w| && tok in w[s] ==> tok.idx < n
  }

  // Every token names a slot of the slab.
  ghost predicate InRange<K>(c: Core<K>) {
    WheelOk(c.l1, |c.entries|) && WheelOk(c.l2, |c.entries|) && WheelOk(c.l3, |c.entries|)
  }

  // What holds between two operations.
  ghost predicate Inv<K(!new)>(c: Core<K>, hash: K -> nat) {
    && (exists fl :: Slab(c, hash, fl))
    && Conserved(c) && Timely(c) && InRange(c)
  }

  // ---------------------------------------------------------------- tokens

  lemma {:induction false} CascadeInRange<K>(c: Core<K>, bucket: seq<Token>)
    requires InRange(c)
    ensures InRange(Cascade(c, bucket))
    decreases |bucket|
  {
    if bucket != [] {
      CascadeInRange(if Matches(c, bucket[0]) then Schedule(c, bucket[0].idx) else c, bucket[1..]);
    }
  }

  lemma {:induction false} CascadesInRange<K>(c: Core<K>)
    requires InRange(c)
    ensures InRange(Cascades(c))
  {
    if c.tick % 512 == 0 {
      CascadeInRange(c.(l2 := c.l2[SlotL2(c.tick) := []]), c.l2[SlotL2(c.tick)]);
      var c' := CascadeL2(c);
      if (c.tick / 512) % 128 == 0 {
        CascadeInRange(c'.(l3 := c'.l3[SlotL3(c'.tick) := []]), c'.l3[SlotL3(c'.tick)]);
      }
    }
  }

  lemma {:induction false} ProcessInRange<K>(c: Core<K>, bucket: seq<Token>)
    requires InRange(c)
    ensures InRange(Process(c, bucket).core)
    decreases |bucket|
  {
    if bucket != [] {
      ProcessInRange(ProcessToken(c, bucket[0]).core, bucket[1..]);
    }
  }

  // Number of tokens in a wheel.
  ghost function Count(w: seq<seq<Token>>): nat {
    if w == [] then 0 else Count(w[..|w| - 1]) + |w[|w| - 1]|
  }

  lemma {:induction false} CountUpdate(w: seq<seq<Token>>, s: nat, bucket: seq<Token>)
    requires s < |w|
    ensures Count(w[s := bucket]) + |w[s]| == Count(w) + |bucket|
  {
    if s == |w| - 1 {
      assert w[s := bucket][..s] == w[..s];
    } else {
      CountUpdate(w[..|w| - 1], s, bucket);
      assert w[s := bucket][..|w| - 1] == w[..|w| - 1][s := bucket];
    }
  }

  ghost function Tokens<K>(c: Core<K>): nat { Count(c.l1) + Count(c.l2) + Count(c.l3) }

  lemma {:induction false} ScheduleAddsOne<K>(c: Core<K>, idx: nat)
    requires idx < |c.entries|
    ensures Tokens(Schedule(c, idx)) == Tokens(c) + 1
  {
    var tok := Token(idx, c.entries[idx].version);
    var s0, s1 := SlotL1(c.tick + 1), SlotL1(c.entries[idx].expire);
    var s2, s3 := SlotL2(c.entries[idx].expire), SlotL3(c.entries[idx].expire);
    CountUpdate(c.l1, s0, c.l1[s0] + [tok]);
    CountUpdate(c.l1, s1, c.l1[s1] + [tok]);
    CountUpdate(c.l2, s2, c.l2[s2] + [tok]);
    CountUpdate(c.l3, s3, c.l3[s3] + [tok]);
  }

  lemma {:induction false} CascadeTokens<K>(c: Core<K>, bucket: seq<Token>)
    ensures Tokens(Cascade(c, bucket)) <= Tokens(c) + |bucket|
    decreases |bucket|
  {
    if bucket != [] {
      if Matches(c, bucket[0]) {
        ScheduleAddsOne(c, bucket[0].idx);
      }
      CascadeTokens(if Matches(c, bucket[0]) then Schedule(c, bucket[0].idx) else c, bucket[1..]);
    }
  }

  lemma {:induction false} CascadesTokens<K>(c: Core<K>)
    ensures Tokens(Cascades(c)) <= Tokens(c)
  {
    if c.tick % 512 == 0 {
      CountUpdate(c.l2, SlotL2(c.tick), []);
      CascadeTokens(c.(l2 := c.l2[SlotL2(c.tick) := []]), c.l2[SlotL2(c.tick)]);
      var c' := CascadeL2(c);
      if (c.tick / 512) % 128 == 0 {
        CountUpdate(c'.l3, SlotL3(c'.tick), []);
        CascadeTokens(c'.(l3 := c'.l3[SlotL3(c'.tick) := []]), c'.l3[SlotL3(c'.tick)]);
      }
    }
  }

  lemma {:induction false} ProcessTokens<K>(c: Core<K>, bucket: seq<Token>)
    ensures Tokens(Process(c, bucket).core) <= Tokens(c) + |bucket|
    decreases |bucket|
  {
    if bucket != [] {
      if Matches(c, bucket[0]) {
        ScheduleAddsOne(c, bucket[0].idx);
      }
      ProcessTokens(ProcessToken(c, bucket[0]).core, bucket[1..]);
    }
  }

  // Stale tokens are rescheduled but never multiply.
  lemma {:induction false} TickTokens<K>(c: Core<K>)
    ensures Tokens(Tick(c).core) <= Tokens(c)
  {
    hide Tick, Cascades, Process, Count;
    var c1 := TickIs(c);
    CascadesTokens(c.(tick := c.tick + 1));
    var s := SlotL1(c1.tick);
    CountUpdate(c1.l1, s, []);
    ProcessTokens(c1.(l1 := c1.l1[s := []]), c1.l1[s]);
  }

  lemma {:induction false} CompactionBefore<K>(c: Core<K>)
    ensures var s := SlotL1(c.tick);
      Process(c.(l1 := c.l1[s := []]), Retain(c, c.l1[s])) == Process(c.(l1 := c.l1[s := []]), c.l1[s])
  {
    var s := SlotL1(c.tick);
    RetainSkipsStale(c, c.(l1 := c.l1[s := []]), c.l1[s]);
  }

  // ---------------------------------------------------------------- ticks

  // The cascades never touch the first-wheel bucket of their own tick.
  lemma {:induction false} CascadeSparesBucket<K>(c: Core<K>, bucket: seq<Token>)
    ensures Cascade(c, bucket).l1[SlotL1(c.tick)] == c.l1[SlotL1(c.tick)]
    decreases |bucket|
  {
    if bucket != [] {
      CascadeSparesBucket(if Matches(c, bucket[0]) then Schedule(c, bucket[0].idx) else c, bucket[1..]);
    }
  }

  lemma {:induction false} CascadesSpareBucket<K>(c: Core<K>)
    ensures var r := Cascades(c);
      r == c.(l1 := r.l1, l2 := r.l2, l3 := r.l3) && r.l1[SlotL1(c.tick)] == c.l1[SlotL1(c.tick)]
  {
    if c.tick % 512 == 0 {
      CascadeSparesBucket(c.(l2 := c.l2[SlotL2(c.tick) := []]), c.l2[SlotL2(c.tick)]);
      var c' := CascadeL2(c);
      CascadeSparesBucket(c'.(l3 := c'.l3[SlotL3(c'.tick) := []]), c'.l3[SlotL3(c'.tick)]);
    }
  }

  // A tick is the cascades followed by the whole bucket, compacted or not.
  lemma {:induction false} TickIs<K>(c: Core<K>) returns (c1: Core<K>)
    ensures c1 == Cascades(c.(tick := c.tick + 1))
    ensures Tick(c) == Process(c1.(l1 := c1.l1[SlotL1(c1.tick) := []]), c1.l1[SlotL1(c1.tick)])
    ensures c1.entries == c.entries && c1.freeHead == c.freeHead && c1.index == c.index && c1.ledger == c.ledger
    ensures c1.tick == c.tick + 1 && c1.l1[SlotL1(c1.tick)] == c.l1[SlotL1(c1.tick)]
  {
    c1 := Cascades(c.(tick := c.tick + 1));
    CascadesSpareBucket(c.(tick := c.tick + 1));
    CompactionBefore(c1);
  }

  // Taking the first-wheel bucket of the current tick unplaces only what is due and named in it.
  lemma {:induction false} TakeBucket<K>(c: Core<K>, i: nat, n2: nat, n3: nat)
    requires i < |c.entries| && Placed(c, i, c.tick, n2, n3)
    ensures var s := SlotL1(c.tick);
      || Placed(c.(l1 := c.l1[s := []]), i, c.tick + 1, n2, n3)
      || (Token(i, c.entries[i].version) in c.l1[s] && c.entries[i].expire <= c.tick)
  {
  }

  // Where an entry's token is does not depend on the present tick.
  lemma {:induction false} SamePlace<K>(c: Core<K>, c': Core<K>, i: nat, n1: nat, n2: nat, n3: nat)
    requires i < |c.entries| && Placed(c, i, n1, n2, n3)
    requires c'.entries == c.entries && c'.l1 == c.l1 && c'.l2 == c.l2 && c'.l3 == c.l3
    ensures Placed(c', i, n1, n2, n3)
  {
  }

  lemma {:induction false} TickPlaces<K>(c: Core<K>)
    requires Timely(c)
    ensures Timely(Tick(c).core)
  {
    hide Tick, Cascades, Process, Placed;
    var t := c.tick + 1;
    var c0 := c.(tick := t);
    var m2, m3 := c.tick / 512 + 1, c.tick / 65536 + 1;
    forall i: nat | i < |c0.entries| && c0.entries[i].inUse
      ensures Placed(c0, i, t, m2, m3)
    {
      assert Placed(c, i, t, m2, m3);
      SamePlace(c, c0, i, t, m2, m3);
    }
    CascadesPlace(c0, m2, m3);
    var c1 := TickIs(c);
    var s, n2, n3 := SlotL1(t), t / 512 + 1, t / 65536 + 1;
    var c2 := c1.(l1 := c1.l1[s := []]);
    forall i: nat | i < |c2.entries| && c2.entries[i].inUse
      ensures Placed(c2, i, t + 1, n2, n3) || (Token(i, c2.entries[i].version) in c1.l1[s] && c2.entries[i].expire <= t)
    {
      TakeBucket(c1, i, n2, n3);
    }
    ProcessPlaces(c2, c1.l1[s], t + 1, n2, n3);
    ProcessAges(c2, c1.l1[s]);
  }

  // Between operations no entry is overdue, and one that is due this very tick was allowed to be late.
  lemma {:induction false} TimelyBounds<K>(c: Core<K>, i: nat)
    requires Timely(c) && i < |c.entries| && c.entries[i].inUse
    ensures c.entries[i].expire >= c.tick
    ensures c.entries[i].expire == c.tick ==> MayBeLate(c.entries[i])
  {
    assert Placed(c, i, c.tick + 1, c.tick / 512 + 1, c.tick / 65536 + 1);
  }

  // A tick keeps the invariant, and fires one event for each key that it removes.
  lemma {:induction false} TickKeeps<K(!new)>(c: Core<K>, hash: K -> nat)
    requires Inv(c, hash)
    ensures var r := Tick(c);
      && r.core.tick == c.tick + 1 && Inv(r.core, hash)
      && Fired(Live(c.entries), Live(r.core.entries), r.events, hash, c.tick + 1)
  {
    var fl :| Slab(c, hash, fl);
    var c1 := TickIs(c);
    var s := SlotL1(c1.tick);
    var c2 := c1.(l1 := c1.l1[s := []]);
    CascadesInRange(c.(tick := c.tick + 1));
    ProcessInRange(c2, c1.l1[s]);
    var fl' := ProcessFires(c2, hash, fl, c1.l1[s]);
    TickPlaces(c);
  }

  // A live key is removed by a tick exactly when the bucket of that tick names its slot at its
  // present version and its expiry tick has come; this can be checked before the tick.
  lemma {:induction false} TickFiresExactly<K(!new)>(c: Core<K>, hash: K -> nat, i: nat, key: K)
    requires Inv(c, hash) && Holds(c.entries, i, key)
    ensures var due := c.entries[i].expire <= c.tick + 1
                       && Token(i, c.entries[i].version) in c.l1[SlotL1(c.tick + 1)];
      if due then key !in Keys(Tick(c).core.entries)
      else Holds(Tick(c).core.entries, i, key) && Tick(c).core.entries[i] == c.entries[i]
  {
    TickKeeps(c, hash);
    var c1 := TickIs(c);
    var s := SlotL1(c1.tick);
    ProcessExact(c1.(l1 := c1.l1[s := []]), c1.l1[s], i);
    var es' := Tick(c).core.entries;
    if key in Keys(es') && !es'[i].inUse {
      var j: nat :| Holds(es', j, key);
      if c.entries[j].inUse {
        ProcessExact(c1.(l1 := c1.l1[s := []]), c1.l1[s], j);
        assert Holds(c.entries, j, key);
      } else {
        ProcessStaysFree(c1.(l1 := c1.l1[s := []]), c1.l1[s], j);
      }
      assert false;
    }
  }
}

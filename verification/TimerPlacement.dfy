/**
Where the tokens of a shard have to be so that every entry expires in time. A slot may be named by
many tokens, some left behind by an earlier occupant and matching the present one by accident;
what counts is that each in-use slot is named by at least one matching token in a bucket that will
be visited when its entry is due.
*/
module TimerPlacement {
  import opened TimerCore

  // A lifetime that may end one tick after its expiry tick: one long enough to wait for a cascade, which
  // comes too late on a multiple of 512.
  predicate LateLifetime(expire: nat, ttl: nat) { (expire % 512 == 0 && ttl >= 512) || ttl == 0 }

  predicate MayBeLate<K>(e: EntryFields<K>) { LateLifetime(e.expire, e.ttl) }

  // `tok` is in the first-wheel bucket of tick `f`, and `f` comes before the wheel returns to `n1`.
  ghost predicate OnL1<K>(c: Core<K>, tok: Token, f: nat, n1: nat) {
    n1 <= f < n1 + 512 && tok in c.l1[SlotL1(f)]
  }

  ghost predicate OnL2<K>(c: Core<K>, tok: Token, expire: nat, n2: nat) {
    n2 <= expire / 512 < n2 + 128 && tok in c.l2[SlotL2(expire)]
  }

  ghost predicate OnL3<K>(c: Core<K>, tok: Token, expire: nat, n3: nat) {
    n3 <= expire / 65536 && tok in c.l3[SlotL3(expire)]
  }

  // Slot i is named by a matching token in a bucket still to be visited in time, when `n1`, `n2` and
  // `n3` are the first tick, row of 512 ticks and block of 65536 ticks whose buckets are not yet taken.
  ghost predicate Placed<K>(c: Core<K>, i: nat, n1: nat, n2: nat, n3: nat)
    requires i < |c.entries|
  {
    var e := c.entries[i];
    var tok := Token(i, e.version);
    || OnL1(c, tok, e.expire, n1)
    || (MayBeLate(e) && OnL1(c, tok, e.expire + 1, n1))
    || (e.ttl >= 512 && (OnL2(c, tok, e.expire, n2) || OnL3(c, tok, e.expire, n3)))
  }

  ghost predicate AllPlaced<K>(c: Core<K>, n1: nat, n2: nat, n3: nat) {
    forall i: nat :: i < |c.entries| && c.entries[i].inUse ==> Placed(c, i, n1, n2, n3)
  }

  // No entry was given its expiry tick in the future.
  ghost predicate Aged<K>(c: Core<K>) {
    forall i: nat :: i < |c.entries| && c.entries[i].inUse ==> c.entries[i].expire <= c.tick + c.entries[i].ttl
  }

  // What holds between two operations.
  ghost predicate Timely<K>(c: Core<K>) {
    AllPlaced(c, c.tick + 1, c.tick / 512 + 1, c.tick / 65536 + 1) && Aged(c)
  }

  // ---------------------------------------------------------------- scheduling

  lemma {:induction false} ScheduleKeeps<K>(c: Core<K>, idx: nat, i: nat, n1: nat, n2: nat, n3: nat)
    requires idx < |c.entries| && i < |c.entries| && Placed(c, i, n1, n2, n3)
    ensures Placed(Schedule(c, idx), i, n1, n2, n3)
  {
  }

  // Scheduling an entry that is not overdue places it.
  lemma {:induction false} SchedulePlaces<K>(c: Core<K>, idx: nat, n1: nat, n2: nat, n3: nat)
    requires idx < |c.entries|
    requires c.tick <= n1 <= c.tick + 1 && n2 == c.tick / 512 + 1 && n3 <= c.tick / 65536 + 1
    requires c.tick <= c.entries[idx].expire <= c.tick + c.entries[idx].ttl
    requires c.tick == c.entries[idx].expire ==> MayBeLate(c.entries[idx])
    ensures Placed(Schedule(c, idx), idx, n1, n2, n3)
  {
  }

  // ---------------------------------------------------------------- cascading

  ghost predicate PlacedOr<K>(c: Core<K>, i: nat, bucket: seq<Token>, n1: nat, n2: nat, n3: nat)
    requires i < |c.entries|
  {
    var e := c.entries[i];
    Placed(c, i, n1, n2, n3) ||
    (Token(i, e.version) in bucket && c.tick <= e.expire <= c.tick + e.ttl && (c.tick == e.expire ==> MayBeLate(e)))
  }

  // After a bucket has been taken out of a wheel, cascading its tokens places what it named.
  lemma {:induction false} CascadePlaces<K>(c: Core<K>, bucket: seq<Token>, n1: nat, n2: nat, n3: nat)
    requires c.tick <= n1 <= c.tick + 1 && n2 == c.tick / 512 + 1 && n3 <= c.tick / 65536 + 1
    requires forall i: nat :: i < |c.entries| && c.entries[i].inUse ==> PlacedOr(c, i, bucket, n1, n2, n3)
    ensures AllPlaced(Cascade(c, bucket), n1, n2, n3)
    decreases |bucket|
  {
    if bucket != [] {
      var tok := bucket[0];
      var c' := if Matches(c, tok) then Schedule(c, tok.idx) else c;
      forall i: nat | i < |c.entries| && c.entries[i].inUse
        ensures PlacedOr(c', i, bucket[1..], n1, n2, n3)
      {
        assert PlacedOr(c, i, bucket, n1, n2, n3);
        if Matches(c, tok) && Placed(c, i, n1, n2, n3) {
          ScheduleKeeps(c, tok.idx, i, n1, n2, n3);
        } else if !Placed(c, i, n1, n2, n3) && tok == Token(i, c.entries[i].version) {
          SchedulePlaces(c, i, n1, n2, n3);
        }
      }
      CascadePlaces(c', bucket[1..], n1, n2, n3);
    }
  }

  lemma {:induction false} CascadeL2Places<K>(c: Core<K>, n3: nat)
    requires c.tick % 512 == 0 && n3 <= c.tick / 65536 + 1 && Aged(c)
    requires AllPlaced(c, c.tick, c.tick / 512, n3)
    ensures AllPlaced(CascadeL2(c), c.tick, c.tick / 512 + 1, n3)
  {
    var s := SlotL2(c.tick);
    var c' := c.(l2 := c.l2[s := []]);
    forall i: nat | i < |c.entries| && c.entries[i].inUse
      ensures PlacedOr(c', i, c.l2[s], c.tick, c.tick / 512 + 1, n3)
    {
      assert Placed(c, i, c.tick, c.tick / 512, n3);
    }
    CascadePlaces(c', c.l2[s], c.tick, c.tick / 512 + 1, n3);
  }

  // Taking the third-wheel bucket of the current block unplaces only what is named in it.
  lemma {:induction false} TakeL3<K>(c: Core<K>, i: nat)
    requires c.tick % 65536 == 0 && i < |c.entries| && Placed(c, i, c.tick, c.tick / 512 + 1, c.tick / 65536)
    requires c.entries[i].expire <= c.tick + c.entries[i].ttl
    ensures var s := SlotL3(c.tick);
      PlacedOr(c.(l3 := c.l3[s := []]), i, c.l3[s], c.tick, c.tick / 512 + 1, c.tick / 65536 + 1)
  {
  }

  lemma {:induction false} CascadeL3Places<K>(c: Core<K>)
    requires c.tick % 65536 == 0 && Aged(c)
    requires AllPlaced(c, c.tick, c.tick / 512 + 1, c.tick / 65536)
    ensures AllPlaced(CascadeL3(c), c.tick, c.tick / 512 + 1, c.tick / 65536 + 1)
  {
    hide Placed, PlacedOr, Cascade;
    var s := SlotL3(c.tick);
    var c' := c.(l3 := c.l3[s := []]);
    forall i: nat | i < |c.entries| && c.entries[i].inUse
      ensures PlacedOr(c', i, c.l3[s], c.tick, c.tick / 512 + 1, c.tick / 65536 + 1)
    {
      TakeL3(c, i);
    }
    CascadePlaces(c', c.l3[s], c.tick, c.tick / 512 + 1, c.tick / 65536 + 1);
  }

  // The row of 512 ticks and block of 65536 ticks that follow those of tick t - 1.
  lemma {:induction false} NextRowAndBlock(t: nat)
    requires t > 0
    ensures (t - 1) / 512 + 1 == if t % 512 == 0 then t / 512 else t / 512 + 1
    ensures (t - 1) / 65536 + 1 == if t % 65536 == 0 then t / 65536 else t / 65536 + 1
    ensures t % 65536 == 0 <==> t % 512 == 0 && (t / 512) % 128 == 0
  {
  }

  // The cascades of tick T leave only the first-wheel bucket of T to be taken.
  lemma {:induction false} CascadesPlace<K>(c: Core<K>, n2: nat, n3: nat)
    requires c.tick > 0 && n2 == (c.tick - 1) / 512 + 1 && n3 == (c.tick - 1) / 65536 + 1
    requires AllPlaced(c, c.tick, n2, n3) && Aged(c)
    ensures AllPlaced(Cascades(c), c.tick, c.tick / 512 + 1, c.tick / 65536 + 1)
  {
    NextRowAndBlock(c.tick);
    if c.tick % 512 == 0 {
      CascadeL2Places(c, n3);
      if (c.tick / 512) % 128 == 0 {
        CascadeL3Places(CascadeL2(c));
      }
    }
  }
}

/**
The state of one timer shard (base/src/cache/c100k.rs) and the meaning of each of its operations,
as functions on values. Timer.Shard is the class that performs the same operations in place; the
modules TimerSlab, TimerPlacement and TimerRuns prove what the source promises about the functions.

Ticks, versions and hashes are unbounded naturals, and the hash is any function `K -> nat`.
*/
module TimerCore {
  import opened Options

  const CATCH_UP_MAX: nat := 1024
  const BATCH: nat := 64
  const COMPACT_THRESHOLD: nat := 1024
  const TICK_MS: nat := 200

  // Storage that may hold a key or nothing: the source's `MaybeUninit<K>`.
  datatype KeyCell<+K> = Uninit | Init(value: K)

  datatype EntryFields<K> = Entry(
    key: KeyCell<K>, hash: nat, version: nat, expire: nat, ttl: nat, nextFree: nat, inUse: bool)
  {
    function Released(head: nat): EntryFields<K> { Entry(Uninit, hash, version, expire, ttl, head, false) }

    // `Entry::write`
    function Written(k: K, h: nat, life: nat, now: nat): EntryFields<K> {
      Entry(Init(k), h, 1, now + life, life, nextFree, true)
    }

    function Refreshed(now: nat): EntryFields<K> {
      Entry(key, hash, version + 1, now + ttl, ttl, nextFree, inUse)
    }
  }

  // A slot's key is initialised exactly while the slot is in use.
  type Entry<K> = e: EntryFields<K> | e.inUse <==> e.key.Init?
    witness Entry(Uninit, 0, 0, 0, 0, 0, false)

  datatype Token = Token(idx: nat, version: nat)

  datatype CacheEvent<+K> = CacheEvent(key: K, hash: nat, version: nat)

  datatype Command<+K> = Insert(key: K, ttl: nat) | Refresh(key: K) | Delete(key: K)

  // Every key ever written to the slab, dropped in place, or moved out into an event.
  datatype Ledger<K(==)> = Ledger(written: multiset<K>, dropped: multiset<K>, moved: multiset<K>)

  type WheelL1 = w: seq<seq<Token>> | |w| == 512 witness seq(512, _ => [])
  type WheelL2 = w: seq<seq<Token>> | |w| == 128 witness seq(128, _ => [])
  type WheelL3 = w: seq<seq<Token>> | |w| == 128 witness seq(128, _ => [])

  datatype Core<K(==)> = Core(
    entries: seq<Entry<K>>, freeHead: nat, index: map<nat, seq<nat>>,
    l1: WheelL1, l2: WheelL2, l3: WheelL3, tick: nat, ledger: Ledger<K>)

  // What an operation leaves behind: the new state and the events it produced, oldest first.
  datatype Result<K(==)> = Result(core: Core<K>, events: seq<CacheEvent<K>>)

  // ---------------------------------------------------------------- slots of a tick

  function SlotL1(t: nat): (s: nat) ensures s < 512 { t % 512 }
  function SlotL2(t: nat): (s: nat) ensures s < 128 { (t / 512) % 128 }
  function SlotL3(t: nat): (s: nat) ensures s < 128 { (t / 65536) % 128 }

  // ---------------------------------------------------------------- slab and index

  function New<K(==)>(capacity: nat): Core<K> {
    Core(seq(capacity, (i: nat) => Entry(Uninit, 0, 0, 0, 0, i + 1, false)), 0, map[],
         seq(512, _ => []), seq(128, _ => []), seq(128, _ => []), 0,
         Ledger(multiset{}, multiset{}, multiset{}))
  }

  // Marks slot `idx` free and puts it at the head of the free list.
  function Release<K(==)>(c: Core<K>, idx: nat): Core<K>
    requires idx < |c.entries|
  {
    c.(entries := c.entries[idx := c.entries[idx].Released(c.freeHead)],
       freeHead := idx)
  }

  // `free`: drops the key if there is one, then releases the slot.
  function Free<K(==)>(c: Core<K>, idx: nat): Core<K>
    requires idx < |c.entries|
  {
    var e := c.entries[idx];
    var c' := Release(c, idx);
    if e.inUse then c'.(ledger := c.ledger.(dropped := c.ledger.dropped + multiset{e.key.value})) else c'
  }

  // Position of the first occurrence of x, or |s| if there is none.
  function Position(s: seq<nat>, x: nat): (p: nat)
    ensures p <= |s|
    ensures p < |s| ==> s[p] == x
    ensures x !in s[..p]
  {
    if s == [] then 0
    else if s[0] == x then 0
    else
      var p := Position(s[1..], x);
      assert s[..p + 1] == [s[0]] + s[1..][..p];
      p + 1
  }

  function SwapRemove(s: seq<nat>, p: nat): seq<nat>
    requires p < |s|
  {
    if p == |s| - 1 then s[..p] else s[..|s| - 1][p := s[|s| - 1]]
  }

  function InsertIndex(index: map<nat, seq<nat>>, hash: nat, idx: nat): map<nat, seq<nat>> {
    index[hash := (if hash in index then index[hash] else []) + [idx]]
  }

  function RemoveIndex(index: map<nat, seq<nat>>, hash: nat, idx: nat): map<nat, seq<nat>> {
    if hash !in index then index
    else
      var p := Position(index[hash], idx);
      var v := if p < |index[hash]| then SwapRemove(index[hash], p) else index[hash];
      if v == [] then index - {hash} else index[hash := v]
  }

  predicate Holds<K(==)>(entries: seq<Entry<K>>, idx: nat, key: K) {
    idx < |entries| && entries[idx].inUse && entries[idx].key == Init(key)
  }

  function FindIn<K(==)>(entries: seq<Entry<K>>, list: seq<nat>, key: K): (r: Option<nat>)
    ensures r.Some? ==> r.value in list && Holds(entries, r.value, key)
    ensures r.None? ==> forall i <- list :: !Holds(entries, i, key)
  {
    if list == [] then None
    else if Holds(entries, list[0], key) then Some(list[0])
    else FindIn(entries, list[1..], key)
  }

  // `find_entry`: the slot holding `key`, looked up through the collision list of its hash.
  function Find<K(==)>(c: Core<K>, hash: nat, key: K): (r: Option<nat>)
    ensures r.Some? ==> Holds(c.entries, r.value, key)
  {
    if hash in c.index then FindIn(c.entries, c.index[hash], key) else None
  }

  // ---------------------------------------------------------------- wheels

  function PushL1<K(==)>(c: Core<K>, s: nat, tok: Token): Core<K> requires s < 512 {
    c.(l1 := c.l1[s := c.l1[s] + [tok]])
  }

  function PushL2<K(==)>(c: Core<K>, s: nat, tok: Token): Core<K> requires s < 128 {
    c.(l2 := c.l2[s := c.l2[s] + [tok]])
  }

  function PushL3<K(==)>(c: Core<K>, s: nat, tok: Token): Core<K> requires s < 128 {
    c.(l3 := c.l3[s := c.l3[s] + [tok]])
  }

  function Schedule<K(==)>(c: Core<K>, idx: nat): (r: Core<K>)
    requires idx < |c.entries|
    ensures r == c.(l1 := r.l1, l2 := r.l2, l3 := r.l3)
  {
    var e := c.entries[idx];
    var tok := Token(idx, e.version);
    if e.expire <= c.tick then PushL1(c, SlotL1(c.tick + 1), tok)
    else
      var diff := e.expire - c.tick;
      if diff < 512 then PushL1(c, SlotL1(e.expire), tok)
      else if diff < 65536 then PushL2(c, SlotL2(e.expire), tok)
      else PushL3(c, SlotL3(e.expire), tok)
  }

  // A token matches when its slot is in use at the token's version.
  predicate Matches<K(==)>(c: Core<K>, tok: Token) {
    tok.idx < |c.entries| && c.entries[tok.idx].inUse && c.entries[tok.idx].version == tok.version
  }

  // Reschedules every matching token of a bucket taken out of the second or third wheel.
  function Cascade<K(==)>(c: Core<K>, bucket: seq<Token>): (r: Core<K>)
    ensures r == c.(l1 := r.l1, l2 := r.l2, l3 := r.l3)
    decreases |bucket|
  {
    if bucket == [] then c
    else Cascade(if Matches(c, bucket[0]) then Schedule(c, bucket[0].idx) else c, bucket[1..])
  }

  function CascadeL2<K(==)>(c: Core<K>): Core<K> {
    Cascade(c.(l2 := c.l2[SlotL2(c.tick) := []]), c.l2[SlotL2(c.tick)])
  }

  function CascadeL3<K(==)>(c: Core<K>): Core<K> {
    Cascade(c.(l3 := c.l3[SlotL3(c.tick) := []]), c.l3[SlotL3(c.tick)])
  }

  // Expires the entry in slot `idx`: moves its key into an event and releases the slot.
  function Expire<K(==)>(c: Core<K>, idx: nat): Result<K>
    requires idx < |c.entries| && c.entries[idx].inUse
  {
    var e := c.entries[idx];
    var c' := Release(c.(index := RemoveIndex(c.index, e.hash, idx)), idx);
    Result(c'.(ledger := c.ledger.(moved := c.ledger.moved + multiset{e.key.value})),
           [CacheEvent(e.key.value, e.hash, e.version)])
  }

  // One token of the bucket being processed.
  function ProcessToken<K(==)>(c: Core<K>, tok: Token): Result<K> {
    if !Matches(c, tok) then Result(c, [])
    else if c.entries[tok.idx].expire > c.tick then Result(Schedule(c, tok.idx), [])
    else Expire(c, tok.idx)
  }

  function Process<K(==)>(c: Core<K>, bucket: seq<Token>): (r: Result<K>)
    ensures r.core.tick == c.tick && |r.core.entries| == |c.entries|
    decreases |bucket|
  {
    if bucket == [] then Result(c, [])
    else
      var first := ProcessToken(c, bucket[0]);
      var rest := Process(first.core, bucket[1..]);
      Result(rest.core, first.events + rest.events)
  }

  // The threshold compaction: only the matching tokens of a bucket.
  function Retain<K(==)>(c: Core<K>, bucket: seq<Token>): seq<Token> {
    if bucket == [] then []
    else (if Matches(c, bucket[0]) then [bucket[0]] else []) + Retain(c, bucket[1..])
  }

  // The cascades that precede the first-wheel bucket of the current tick.
  function Cascades<K(==)>(c: Core<K>): (r: Core<K>)
    ensures r == c.(l1 := r.l1, l2 := r.l2, l3 := r.l3)
  {
    if c.tick % 512 != 0 then c
    else if (c.tick / 512) % 128 != 0 then CascadeL2(c)
    else CascadeL3(CascadeL2(c))
  }

  // One turn of the loop in `on_tick`.
  function Tick<K(==)>(c: Core<K>): (r: Result<K>)
    ensures r.core.tick == c.tick + 1 && |r.core.entries| == |c.entries|
  {
    var c1 := Cascades(c.(tick := c.tick + 1));
    var s := SlotL1(c1.tick);
    var bucket := if |c1.l1[s]| > COMPACT_THRESHOLD then Retain(c1, c1.l1[s]) else c1.l1[s];
    Process(c1.(l1 := c1.l1[s := []]), bucket)
  }

  // ---------------------------------------------------------------- commands

  // `remove_index` then `free` for the slot holding `key`, if any: `delete`, and the first half of `insert`.
  function Remove<K(==)>(c: Core<K>, hash: K -> nat, key: K): (r: Core<K>)
    ensures r.tick == c.tick && |r.entries| == |c.entries|
  {
    match Find(c, hash(key), key)
    case None => c
    case Some(i) => Free(c.(index := RemoveIndex(c.index, hash(key), i)), i)
  }

  // `alloc`, `write`, `insert_index` and `schedule`; nothing happens when the slab is full.
  function Place<K(==)>(c: Core<K>, hash: K -> nat, key: K, ttl: nat): Core<K> {
    if c.freeHead >= |c.entries| then c
    else
      var i := c.freeHead;
      var c' := c.(entries := c.entries[i := c.entries[i].Written(key, hash(key), ttl, c.tick)],
                   freeHead := c.entries[i].nextFree,
                   index := InsertIndex(c.index, hash(key), i),
                   ledger := c.ledger.(written := c.ledger.written + multiset{key}));
      Schedule(c', i)
  }

  function Renew<K(==)>(c: Core<K>, hash: K -> nat, key: K): Core<K> {
    match Find(c, hash(key), key)
    case None => c
    case Some(i) => Schedule(c.(entries := c.entries[i := c.entries[i].Refreshed(c.tick)]), i)
  }

  function Handle<K(==)>(c: Core<K>, hash: K -> nat, cmd: Command<K>): (r: Core<K>)
    ensures r.tick == c.tick && |r.entries| == |c.entries|
  {
    match cmd
    case Insert(key, ttl) => Place(Remove(c, hash, key), hash, key, ttl)
    case Refresh(key) => Renew(c, hash, key)
    case Delete(key) => Remove(c, hash, key)
  }

  function TickTo<K(==)>(c: Core<K>, target: nat): (r: Result<K>)
    decreases target - c.tick
  {
    if c.tick >= target then Result(c, [])
    else
      var first := Tick(c);
      var rest := TickTo(first.core, target);
      Result(rest.core, first.events + rest.events)
  }

  // `on_tick` when `expected` ticks have elapsed since the shard started.
  function OnTick<K(==)>(c: Core<K>, expected: nat): Result<K> {
    TickTo(c, if expected < c.tick + CATCH_UP_MAX then expected else c.tick + CATCH_UP_MAX)
  }
}

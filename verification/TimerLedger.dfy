/**
What becomes of the keys of a shard: which are written to the slab, which are dropped in place by a command,
and which are handed over in an event.
*/
module TimerLedger {
  import opened Options
  import opened TimerCore
  import opened TimerSlab
  import opened TimerPlacement
  import opened TimerTick
  import opened TimerInvariant
  import opened TimerRuns
  import opened TimerHistory

  // The keys of these events, each as often as it occurs.
  function KeysOf<K(==)>(events: seq<CacheEvent<K>>): multiset<K> {
    if events == [] then multiset{} else multiset{events[0].key} + KeysOf(events[1..])
  }

  lemma {:induction false} KeysOfAppend<K>(a: seq<CacheEvent<K>>, b: seq<CacheEvent<K>>)
    ensures KeysOf(a + b) == KeysOf(a) + KeysOf(b)
  {
    if a == [] {
      assert a + b == b;
    } else {
      assert (a + b)[0] == a[0] && (a + b)[1..] == a[1..] + b;
      KeysOfAppend(a[1..], b);
    }
  }

  // The key that a command writes to the slab, and the one it drops: an insertion writes its key unless the
  // slab is full of others; an insertion or deletion drops a live key.
  ghost function Wrote<K>(live: map<K, Rec>, capacity: nat, cmd: Command<K>): multiset<K> {
    if cmd.Insert? && (cmd.key in live || |live| < capacity) then multiset{cmd.key} else multiset{}
  }

  ghost function Dropped<K>(live: map<K, Rec>, cmd: Command<K>): multiset<K> {
    if !cmd.Refresh? && cmd.key in live then multiset{cmd.key} else multiset{}
  }

  lemma {:induction false} HandleLedger<K(!new)>(c: Core<K>, hash: K -> nat, cmd: Command<K>)
    requires Inv(c, hash)
    ensures var live, capacity, ledger := Live(c.entries), |c.entries|, Handle(c, hash, cmd).ledger;
      && ledger.written == c.ledger.written + Wrote(live, capacity, cmd)
      && ledger.dropped == c.ledger.dropped + Dropped(live, cmd)
      && ledger.moved == c.ledger.moved
  {
    hide Represents, Unique, IndexOk, HashesOk, Conserved, Timely, InRange;
    var fl :| Slab(c, hash, fl);
    FindFindsLive(c, hash, fl, cmd.key);
    match cmd
    case Insert(key, ttl) =>
      var fl1 := RemoveKeeps(c, hash, fl, key);
      LiveCount(c, hash, fl);
    case Refresh(key) =>
    case Delete(key) =>
  }

  lemma {:induction false} TokenLedger<K(!new)>(c: Core<K>, tok: Token)
    ensures var r := ProcessToken(c, tok);
      r.core.ledger == c.ledger.(moved := c.ledger.moved + KeysOf(r.events))
  {
    var r := ProcessToken(c, tok);
    if r.events != [] {
      assert r.events[1..] == [];
    }
  }

  lemma {:induction false} ProcessLedger<K(!new)>(c: Core<K>, bucket: seq<Token>)
    ensures var r := Process(c, bucket);
      r.core.ledger == c.ledger.(moved := c.ledger.moved + KeysOf(r.events))
    decreases |bucket|
  {
    hide ProcessToken, KeysOf;
    if bucket != [] {
      var first := ProcessToken(c, bucket[0]);
      TokenLedger(c, bucket[0]);
      ProcessLedger(first.core, bucket[1..]);
      KeysOfAppend(first.events, Process(first.core, bucket[1..]).events);
    } else {
      NoKeys<K>();
    }
  }

  lemma {:induction false} NoKeys<K(!new)>()
    ensures KeysOf<K>([]) == multiset{}
  {
  }

  // A tick hands over the keys of its events, and neither writes nor drops any.
  lemma {:induction false} TickLedger<K(!new)>(c: Core<K>)
    ensures var r := TimerCore.Tick(c);
      r.core.ledger == c.ledger.(moved := c.ledger.moved + KeysOf(r.events))
  {
    hide TimerCore.Tick, Process, Cascades;
    var c1 := TickIs(c);
    ProcessLedger(c1.(l1 := c1.l1[SlotL1(c1.tick) := []]), c1.l1[SlotL1(c1.tick)]);
  }

  // ---------------------------------------------------------------- whole runs

  // What the commands of a run write and drop, told from the keys that are live when each is handled.
  ghost function WrittenBy<K(!new)>(c: Core<K>, hash: K -> nat, steps: seq<Step<K>>): multiset<K>
    requires Inv(c, hash)
    decreases |steps|
  {
    if steps == [] then multiset{}
    else
      TakeKeeps(c, hash, steps[0]);
      (if steps[0].Do? then Wrote(Live(c.entries), |c.entries|, steps[0].cmd) else multiset{})
      + WrittenBy(Take(c, hash, steps[0]).core, hash, steps[1..])
  }

  ghost function DroppedBy<K(!new)>(c: Core<K>, hash: K -> nat, steps: seq<Step<K>>): multiset<K>
    requires Inv(c, hash)
    decreases |steps|
  {
    if steps == [] then multiset{}
    else
      TakeKeeps(c, hash, steps[0]);
      (if steps[0].Do? then Dropped(Live(c.entries), steps[0].cmd) else multiset{})
      + DroppedBy(Take(c, hash, steps[0]).core, hash, steps[1..])
  }

  lemma {:induction false} TakeLedger<K(!new)>(c: Core<K>, hash: K -> nat, step: Step<K>)
    requires Inv(c, hash)
    ensures var live, o := Live(c.entries), Take(c, hash, step);
      o.core.ledger == Ledger(
        c.ledger.written + (if step.Do? then Wrote(live, |c.entries|, step.cmd) else multiset{}),
        c.ledger.dropped + (if step.Do? then Dropped(live, step.cmd) else multiset{}),
        c.ledger.moved + KeysOf(Events(o.log)))
  {
    hide Handle, TimerCore.Tick, Wrote, Dropped, Inv, KeysOf;
    NoKeys<K>();
    match step
    case Do(cmd) =>
      HandleLedger(c, hash, cmd);
      assert Events(Take(c, hash, step).log) == [];
    case Tick =>
      TickLedger(c);
      assert Events(Take(c, hash, step).log) == TimerCore.Tick(c).events;
  }

  lemma {:induction false} MultisetAssoc<K>(a: multiset<K>, b: multiset<K>, c: multiset<K>)
    ensures a + (b + c) == (a + b) + c
  {
  }

  // Over every run: handed over are the keys of the events, once for each event; written and dropped are those
  // that the commands write and drop.
  lemma {:induction false} RunLedger<K(!new)>(c: Core<K>, hash: K -> nat, steps: seq<Step<K>>)
    requires Inv(c, hash)
    ensures Run(c, hash, steps).core.ledger == Ledger(
      c.ledger.written + WrittenBy(c, hash, steps), c.ledger.dropped + DroppedBy(c, hash, steps),
      c.ledger.moved + KeysOf(Events(Run(c, hash, steps).log)))
    decreases |steps|
  {
    hide Take, Inv, Wrote, Dropped, KeysOf;
    if steps == [] {
      NoKeys<K>();
      assert Events(Run(c, hash, steps).log) == [];
    } else {
      var first := Take(c, hash, steps[0]);
      Balanced(c, hash);
      var live, step := Live(c.entries), steps[0];
      var wrote := if step.Do? then Wrote(live, |c.entries|, step.cmd) else multiset{};
      var dropped := if step.Do? then Dropped(live, step.cmd) else multiset{};
      TakeLedger(c, hash, step);
      TakeKeeps(c, hash, step);
      RunLedger(first.core, hash, steps[1..]);
      var rest := Run(first.core, hash, steps[1..]);
      KeysOfAppend(Events(first.log), Events(rest.log));
      assert Events(first.log + rest.log) == Events(first.log) + Events(rest.log);
      MultisetAssoc(c.ledger.moved, KeysOf(Events(first.log)), KeysOf(Events(rest.log)));
      MultisetAssoc(c.ledger.written, wrote, WrittenBy(first.core, hash, steps[1..]));
      MultisetAssoc(c.ledger.dropped, dropped, DroppedBy(first.core, hash, steps[1..]));
    }
  }

  // So from an empty shard every key that the commands wrote is live, was dropped by a command, or was handed
  // over in an event: each of its insertions once.
  lemma {:induction false} EveryKeyOnce<K(!new)>(capacity: nat, hash: K -> nat, steps: seq<Step<K>>)
    ensures Inv(New<K>(capacity), hash)
    ensures var c := New<K>(capacity);
      WrittenBy(c, hash, steps) ==
        DroppedBy(c, hash, steps) + KeysOf(Events(Run(c, hash, steps).log)) + multiset(LiveAfter(c, hash, steps).Keys)
  {
    hide Run, Represents, Timely, InRange, WrittenBy, DroppedBy, KeysOf, Slab, Live;
    var c := New<K>(capacity);
    NewInv<K>(capacity, hash);
    RunLedger(c, hash, steps);
    RunKeeps(c, hash, steps);
    var o := Run(c, hash, steps);
    NothingBefore(WrittenBy(c, hash, steps), DroppedBy(c, hash, steps), KeysOf(Events(o.log)));
    Balanced(o.core, hash);
  }

  lemma {:induction false} NothingBefore<K>(a: multiset<K>, b: multiset<K>, c: multiset<K>)
    ensures multiset{} + a == a && multiset{} + b == b && multiset{} + c == c
  {
  }

  lemma {:induction false} Balanced<K(!new)>(c: Core<K>, hash: K -> nat)
    requires Inv(c, hash)
    ensures Unique(c.entries)
    ensures c.ledger.written == c.ledger.dropped + c.ledger.moved + multiset(Live(c.entries).Keys)
  {
  }
}

/**
Whole runs of a shard: any sequence of commands and ticks from any state that a shard can reach.
*/
module TimerHistory {
  import opened TimerCore
  import opened TimerSlab
  import opened TimerPlacement
  import opened TimerTick
  import opened TimerInvariant
  import opened TimerRuns

  datatype Step<K> = Do(cmd: Command<K>) | Tick

  // An event and the tick that produced it.
  datatype Stamped<K> = Stamped(at: nat, event: CacheEvent<K>)

  datatype Outcome<K> = Outcome(core: Core<K>, log: seq<Stamped<K>>)

  function Stamp<K>(at: nat, events: seq<CacheEvent<K>>): (log: seq<Stamped<K>>)
    ensures |log| == |events| && forall j :: 0 <= j < |log| ==> log[j] == Stamped(at, events[j])
  {
    seq(|events|, (j: nat) requires j < |events| => Stamped(at, events[j]))
  }

  function Take<K(==)>(c: Core<K>, hash: K -> nat, step: Step<K>): Outcome<K> {
    match step
    case Do(cmd) => Outcome(Handle(c, hash, cmd), [])
    case Tick => var r := TimerCore.Tick(c); Outcome(r.core, Stamp(r.core.tick, r.events))
  }

  function Run<K(==)>(c: Core<K>, hash: K -> nat, steps: seq<Step<K>>): Outcome<K>
    decreases |steps|
  {
    if steps == [] then Outcome(c, [])
    else
      var first := Take(c, hash, steps[0]);
      var rest := Run(first.core, hash, steps[1..]);
      Outcome(rest.core, first.log + rest.log)
  }

  // ---------------------------------------------------------------- invariant

  lemma {:induction false} NewInv<K(!new)>(capacity: nat, hash: K -> nat)
    ensures Inv(New<K>(capacity), hash) && Live(New<K>(capacity).entries) == map[]
  {
    NewSlab<K>(capacity, hash);
    assert Slab(New<K>(capacity), hash, seq(capacity, (i: nat) => i));
  }

  lemma {:induction false} TakeKeeps<K(!new)>(c: Core<K>, hash: K -> nat, step: Step<K>)
    requires Inv(c, hash)
    ensures Inv(Take(c, hash, step).core, hash)
  {
    match step
    case Do(cmd) => HandleRefinesMap(c, hash, cmd);
    case Tick => TickKeeps(c, hash);
  }

  lemma {:induction false} RunKeeps<K(!new)>(c: Core<K>, hash: K -> nat, steps: seq<Step<K>>)
    requires Inv(c, hash)
    ensures Inv(Run(c, hash, steps).core, hash)
    decreases |steps|
  {
    hide Take;
    if steps != [] {
      TakeKeeps(c, hash, steps[0]);
      RunKeeps(Take(c, hash, steps[0]).core, hash, steps[1..]);
    }
  }

  // The live keys at the end of a run.
  ghost function LiveAfter<K(!new)>(c: Core<K>, hash: K -> nat, steps: seq<Step<K>>): map<K, Rec>
    requires Inv(c, hash)
  {
    RunKeeps(c, hash, steps);
    Live(Run(c, hash, steps).core.entries)
  }

  lemma {:induction false} LiveKeys<K(!new)>(c: Core<K>, hash: K -> nat, steps: seq<Step<K>>)
    requires Inv(c, hash)
    ensures LiveAfter(c, hash, steps).Keys == Keys(Run(c, hash, steps).core.entries)
  {
    hide Run, Inv;
    RunKeeps(c, hash, steps);
  }

  // ---------------------------------------------------------------- timing of one key

  ghost predicate Leaves<K>(steps: seq<Step<K>>, key: K) {
    forall s <- steps :: s.Do? ==> s.cmd.key != key
  }

  // The events of a log for one key.
  ghost function For<K>(log: seq<Stamped<K>>, key: K): seq<Stamped<K>> {
    if log == [] then []
    else (if log[0].event.key == key then [log[0]] else []) + For(log[1..], key)
  }

  lemma {:induction false} ForFirst<K>(log: seq<Stamped<K>>, key: K)
    requires log != []
    ensures For(log, key) == (if log[0].event.key == key then [log[0]] else []) + For(log[1..], key)
  {
  }

  lemma {:induction false} ForNothing<K>(log: seq<Stamped<K>>, key: K)
    requires log == []
    ensures For(log, key) == []
  {
  }

  lemma {:induction false} ForAppend<K>(a: seq<Stamped<K>>, b: seq<Stamped<K>>, key: K)
    ensures For(a + b, key) == For(a, key) + For(b, key)
    decreases |a|
  {
    hide For;
    if a == [] {
      assert a + b == b && For(a, key) == [] by { ForNothing(a, key); }
    } else {
      assert (a + b)[0] == a[0] && (a + b)[1..] == a[1..] + b;
      ForAppend(a[1..], b, key);
      ForFirst(a, key);
      ForFirst(a + b, key);
    }
  }

  lemma {:induction false} KeysAtMost<K(!new)>(events: seq<CacheEvent<K>>)
    ensures |EventKeys(events)| <= |events|
  {
    if events != [] {
      KeysAtMost(events[1..]);
    }
  }

  // When as many keys as events occur in a batch, each key occurs once.
  lemma {:induction false} ForStamp<K(!new)>(at: nat, events: seq<CacheEvent<K>>, key: K)
    requires |events| == |EventKeys(events)|
    ensures key !in EventKeys(events) ==> For(Stamp(at, events), key) == []
    ensures key in EventKeys(events) ==>
      exists j :: 0 <= j < |events| && events[j].key == key && For(Stamp(at, events), key) == [Stamped(at, events[j])]
  {
    if events != [] {
      var log, rest := Stamp(at, events), events[1..];
      KeysAtMost(rest);
      assert log[1..] == Stamp(at, rest);
      ForStamp(at, rest, key);
      assert events[0].key !in EventKeys(rest) by {
        assert events[0].key in EventKeys(rest) ==> EventKeys(events) == EventKeys(rest);
      }
      if events[0].key == key {
        assert For(log, key) == [Stamped(at, events[0])];
      } else if key in EventKeys(rest) {
        var j :| 0 <= j < |rest| && rest[j].key == key && For(Stamp(at, rest), key) == [Stamped(at, rest[j])];
        assert events[j + 1] == rest[j];
      }
    }
  }

  // A step that is no command for `key` leaves it alone, or is the tick that expires it.
  ghost predicate Untouched<K(!new)>(live: map<K, Rec>, live': map<K, Rec>, log: seq<Stamped<K>>, key: K) {
    For(log, key) == [] && (key in live <==> key in live') && (key in live ==> live'[key] == live[key])
  }

  ghost predicate ExpiredAt<K(!new)>(rec: Rec, events: seq<Stamped<K>>, hash: K -> nat, key: K, at: nat) {
    && events == [Stamped(at, CacheEvent(key, hash(key), rec.version))]
    && rec.expire <= at <= rec.expire + 1
    && (at == rec.expire + 1 ==> LateLifetime(rec.expire, rec.ttl))
  }

  // By tick `now` a key with lifetime `rec` is still live and silent, or has expired once and in time.
  ghost predicate Fate<K(!new)>(rec: Rec, live: map<K, Rec>, events: seq<Stamped<K>>, now: nat,
      hash: K -> nat, key: K) {
    if key in live then live[key] == rec && events == [] && now <= rec.expire
    else exists at: nat :: ExpiredAt(rec, events, hash, key, at) && at <= now
  }

  lemma {:induction false} LiveBounds<K(!new)>(c: Core<K>, hash: K -> nat, key: K)
    requires Inv(c, hash) && key in Live(c.entries)
    ensures var rec := Live(c.entries)[key];
      c.tick <= rec.expire && (c.tick == rec.expire ==> LateLifetime(rec.expire, rec.ttl))
  {
    var i: nat :| Holds(c.entries, i, key);
    TimelyBounds(c, i);
  }

  lemma {:induction false} TickOn<K(!new)>(c: Core<K>, hash: K -> nat, key: K) returns (o: Outcome<K>)
    requires Inv(c, hash)
    ensures o == Take(c, hash, Tick) && Inv(o.core, hash)
    ensures || Untouched(Live(c.entries), Live(o.core.entries), o.log, key)
            || (key in Live(c.entries) && key !in Live(o.core.entries)
                && ExpiredAt(Live(c.entries)[key], For(o.log, key), hash, key, c.tick + 1))
  {
    hide Represents, TimerCore.Tick;
    o := Take(c, hash, Tick);
    TickKeeps(c, hash);
    ForStamp(c.tick + 1, TimerCore.Tick(c).events, key);
    if key in Live(c.entries) {
      LiveBounds(c, hash, key);
    }
  }

  lemma {:induction false} CommandOn<K(!new)>(c: Core<K>, hash: K -> nat, cmd: Command<K>, key: K)
    returns (o: Outcome<K>)
    requires Inv(c, hash) && cmd.key != key
    ensures o == Take(c, hash, Do(cmd)) && Inv(o.core, hash)
    ensures Untouched(Live(c.entries), Live(o.core.entries), o.log, key)
  {
    hide Represents, Handle;
    o := Take(c, hash, Do(cmd));
    HandleRefinesMap(c, hash, cmd);
  }

  lemma {:induction false} StepOn<K(!new)>(c: Core<K>, hash: K -> nat, step: Step<K>, key: K) returns (o: Outcome<K>)
    requires Inv(c, hash) && (step.Do? ==> step.cmd.key != key)
    ensures o == Take(c, hash, step) && Inv(o.core, hash)
    ensures o.core.tick == if step.Tick? then c.tick + 1 else c.tick
    ensures || Untouched(Live(c.entries), Live(o.core.entries), o.log, key)
            || (step.Tick? && key in Live(c.entries) && key !in Live(o.core.entries)
                && ExpiredAt(Live(c.entries)[key], For(o.log, key), hash, key, c.tick + 1))
  {
    hide Represents;
    if step.Tick? {
      o := TickOn(c, hash, key);
    } else {
      o := CommandOn(c, hash, step.cmd, key);
    }
  }

  // A run is its first step, then the rest.
  lemma {:induction false} RunFirst<K(!new)>(c: Core<K>, hash: K -> nat, steps: seq<Step<K>>, key: K)
    requires Inv(c, hash) && steps != []
    ensures var o, rest := Take(c, hash, steps[0]), steps[1..];
      && Inv(o.core, hash)
      && LiveAfter(c, hash, steps) == LiveAfter(o.core, hash, rest)
      && For(Run(c, hash, steps).log, key) == For(o.log, key) + For(Run(o.core, hash, rest).log, key)
      && Run(c, hash, steps).core == Run(o.core, hash, rest).core
  {
    hide Take, Represents;
    var o := Take(c, hash, steps[0]);
    TakeKeeps(c, hash, steps[0]);
    ForAppend(o.log, Run(o.core, hash, steps[1..]).log, key);
  }

  lemma {:induction false} TakeTicks<K(!new)>(c: Core<K>, hash: K -> nat, steps: seq<Step<K>>)
    ensures c.tick <= Run(c, hash, steps).core.tick
    decreases |steps|
  {
    if steps != [] {
      TakeTicks(Take(c, hash, steps[0]).core, hash, steps[1..]);
    }
  }

  // Once a key is gone and no command brings it back, no event for it is ever produced.
  lemma {:induction false} GoneStaysGone<K(!new)>(c: Core<K>, hash: K -> nat, steps: seq<Step<K>>, key: K)
    requires Inv(c, hash) && Leaves(steps, key) && key !in Live(c.entries)
    ensures key !in LiveAfter(c, hash, steps) && For(Run(c, hash, steps).log, key) == []
    decreases |steps|
  {
    hide Take, Represents;
    if steps != [] {
      var o := StepOn(c, hash, steps[0], key);
      GoneStaysGone(o.core, hash, steps[1..], key);
      RunFirst(c, hash, steps, key);
    }
  }

  // Whatever else happens, a live key that no later command names keeps its recorded lifetime until it
  // expires, and it expires once: at its expiry tick, or one tick later if that tick is a multiple of
  // 512 and the lifetime is 512 ticks or more (or its lifetime is 0 ticks).
  lemma {:induction false} ExpiresOnTime<K(!new)>(c: Core<K>, hash: K -> nat, steps: seq<Step<K>>, key: K)
    requires Inv(c, hash) && Leaves(steps, key) && key in Live(c.entries)
    ensures Fate(Live(c.entries)[key], LiveAfter(c, hash, steps), For(Run(c, hash, steps).log, key),
                 Run(c, hash, steps).core.tick, hash, key)
    decreases |steps|
  {
    hide Take, Represents;
    if steps == [] {
      LiveBounds(c, hash, key);
    } else {
      var o := StepOn(c, hash, steps[0], key);
      RunFirst(c, hash, steps, key);
      if key in Live(o.core.entries) {
        ExpiresOnTime(o.core, hash, steps[1..], key);
        assert For(Run(c, hash, steps).log, key) == For(Run(o.core, hash, steps[1..]).log, key);
      } else {
        GoneStaysGone(o.core, hash, steps[1..], key);
        assert ExpiredAt(Live(c.entries)[key], For(Run(c, hash, steps).log, key), hash, key, c.tick + 1);
        TakeTicks(o.core, hash, steps[1..]);
      }
    }
  }

  // ---------------------------------------------------------------- catching up

  function Events<K>(log: seq<Stamped<K>>): (events: seq<CacheEvent<K>>)
    ensures |events| == |log| && forall j :: 0 <= j < |log| ==> events[j] == log[j].event
  {
    seq(|log|, (j: nat) requires j < |log| => log[j].event)
  }

  function Ticks<K>(d: nat): seq<Step<K>> { seq(d, _ => Tick) }

  // Catching up by d ticks is d single ticks: the same state, and the same events in the same order.
  lemma {:induction false} CatchUpIsTicks<K(!new)>(c: Core<K>, hash: K -> nat, d: nat)
    ensures var o, r := Run(c, hash, Ticks(d)), TickTo(c, c.tick + d);
      o.core == r.core && Events(o.log) == r.events && r.core.tick == c.tick + d
    decreases d
  {
    hide TimerCore.Tick;
    if d > 0 {
      var first := Take(c, hash, Tick);
      assert Ticks<K>(d)[1..] == Ticks(d - 1);
      CatchUpIsTicks(first.core, hash, d - 1);
      var rest := Run(first.core, hash, Ticks(d - 1));
      assert Events(first.log + rest.log) == Events(first.log) + Events(rest.log);
      assert Events(first.log) == TimerCore.Tick(c).events;
    }
  }

  // One turn of the ticker catches up with the clock, by 1024 ticks at most.
  lemma {:induction false} OnTickCatchesUp<K(!new)>(c: Core<K>, hash: K -> nat, expected: nat)
    ensures var d := if expected <= c.tick then 0 else if expected - c.tick <= 1024 then expected - c.tick else 1024;
      var o, r := Run(c, hash, Ticks(d)), OnTick(c, expected);
      o.core == r.core && Events(o.log) == r.events && r.core.tick == c.tick + d
  {
    hide TimerCore.Tick, Take, Run;
    if expected <= c.tick {
      CatchUpIsTicks(c, hash, 0);
    } else {
      CatchUpIsTicks(c, hash, if expected - c.tick <= 1024 then expected - c.tick else 1024);
    }
  }
}

/**
The timer against the wall clock (base/src/cache/c100k.rs): how a time to live in milliseconds becomes
ticks, and when, in milliseconds since the shard started, the key is gone.
*/
module TimerClock {
  import opened Options
  import opened TimerCore
  import opened TimerSlab
  import opened TimerInvariant
  import opened TimerRuns
  import opened TimerHistory

  const U64_RANGE: nat := 0x1_0000_0000_0000_0000

  // `Cache::ttl_to_tick`, which keeps the low 64 bits of the milliseconds.
  function TtlToTick(ttlMs: nat): nat {
    var ms := ttlMs % U64_RANGE;
    if ms == 0 then 1 else (ms + TICK_MS - 1) / TICK_MS
  }

  // The ticks cover the time to live exactly when it fits 64 bits; then they are the fewest that do,
  // and one at least. A longer one wraps around.
  lemma {:induction false} TicksCover(ttlMs: nat)
    ensures TtlToTick(ttlMs) >= 1
    ensures TtlToTick(ttlMs) * TICK_MS >= ttlMs <==> ttlMs < U64_RANGE
    ensures ttlMs < U64_RANGE ==> (TtlToTick(ttlMs) - 1) * TICK_MS < if ttlMs == 0 then 1 else ttlMs
    ensures TtlToTick(ttlMs + U64_RANGE) == TtlToTick(ttlMs)
  {
  }

  // The wheels never run ahead of the clock, and catch up with it unless they are far behind.
  lemma {:induction false} NeverAhead<K(!new)>(c: Core<K>, hash: K -> nat, elapsedMs: nat)
    requires c.tick * TICK_MS <= elapsedMs
    ensures var c' := OnTick(c, elapsedMs / TICK_MS).core;
      && c.tick <= c'.tick && c'.tick * TICK_MS <= elapsedMs
      && (elapsedMs / TICK_MS <= c.tick + CATCH_UP_MAX <==> elapsedMs < (c'.tick + 1) * TICK_MS)
  {
    hide OnTick;
    OnTickCatchesUp(c, hash, elapsedMs / TICK_MS);
  }

  // A key inserted at tick T for a time to live is live until T * 200 ms + ttl at least, and gone less
  // than 400 ms after that, as seen whenever the wheels have caught up with the clock.
  lemma {:induction false} LivesByClock<K(!new)>(
    c: Core<K>, hash: K -> nat, key: K, ttlMs: nat, steps: seq<Step<K>>, elapsedMs: nat)
    requires Inv(c, hash) && Leaves(steps, key) && ttlMs < U64_RANGE
    requires key in Live(c.entries) || |Live(c.entries)| < |c.entries|
    requires Run(Handle(c, hash, Insert(key, TtlToTick(ttlMs))), hash, steps).core.tick * TICK_MS <= elapsedMs
    ensures var later := Run(Handle(c, hash, Insert(key, TtlToTick(ttlMs))), hash, steps).core;
      var due := c.tick * TICK_MS + ttlMs;
      && (key !in Keys(later.entries) ==> elapsedMs >= due)
      && (key in Keys(later.entries) && elapsedMs < (later.tick + 1) * TICK_MS ==> elapsedMs < due + 2 * TICK_MS)
  {
    hide Handle, Run, Inv, Represents;
    var cmd := Insert(key, TtlToTick(ttlMs));
    HandleRefinesMap(c, hash, cmd);
    TicksCover(ttlMs);
    ExpiresOnTime(Handle(c, hash, cmd), hash, steps, key);
    LiveKeys(Handle(c, hash, cmd), hash, steps);
  }
}

# Verified model of the service scaffold's timers, network lifecycle, runtimes and small protocols

Dafny models, with proofs, of the parts of the repository whose correctness spans many operations or
many interleavings. `dafny verify dfyconfig.toml` checks everything.

| files | models |
|---|---|
| `TimerCore`, `TimerSlab`, `TimerPlacement`, `TimerTick`, `TimerInvariant`, `TimerRuns`, `TimerHistory`, `TimerLate`, `TimerLedger`, `TimerClock`, `Timer` | one shard of the hierarchical timing wheel (`base/src/cache/c100k.rs`) |
| `RegistryMaps`, `Registry`, `RegistrySteps`, `RegistryLeaks` | the TCP writer registry and `wait_tcp_sink` (`base/src/net/rw.rs`) |
| `ManagedClose`, `ManagedAttempts`, `CloseReports`, `NetworkClose` | connecting to and closing managed endpoints (`base/src/net/rw.rs`) |
| `Framing` | packet framing and partial writes (`base/src/net/rw.rs`) |
| `RuntimeTasks`, `ShutdownOrder`, `RuntimeShutdown`, `ShutdownCalls` | task accounting and ordered shutdown (`base/src/utils/rt.rs`) |
| `TtlCache`, `TtlRuns`, `TtlExpiry`, `TtlEndings`, `PurgeTask` | the TTL cache with its asynchronous delay queue (`base/src/cache/mod.rs`) |
| `Dig62` | the digit codec (`base/src/utils/dig62.rs`) |
| `Supervisor`, `SupervisorRuns` | the reconnect supervisor (`base_rpc/src/stream_supervisor.rs`) |
| `Episode` | the failure episode of the logger (`base/src/logger/episode.rs`) |
| `Options` | the optional value the others share |

## How the models are built

Two forms occur, and most components have both.

- **In place.** The source's objects that update their fields are classes with those fields
  (`Timer.Shard`, `RegistryMaps.Tables`, `NetworkClose.Connection` and `Endpoint`, `RuntimeTasks.TaskState`
  and `TaskGuard`, `RuntimeShutdown.RuntimeRegistry`, `PurgeTask.Cache`, `Supervisor.Task`,
  `Episode.FailureEpisode`), and its loops are loops. Their contracts tie the new state to a function of
  the old one, and lemmas say what that function means.
- **State machines.** Where other tasks can run in between (`Registry`, `ManagedClose`, `RuntimeTasks`,
  `ShutdownCalls`, `TtlCache`, `Supervisor`), `Apply(state, label)` is one stretch between two lock operations, two
  accesses to shared memory or two awaits. `Run(s, labels, s')` quantifies over every interleaving, and
  theorems are about all runs. State fields marked as history record what happened; no step reads them.

Reading the timer: `Core` is a shard as a value, `Live(entries)` the keys it holds with their lifetimes,
`Inv` the invariant of every operation. Tokens of freed slots stay in the wheels and can match a later
occupant of the slot, because versions restart at 1. So the invariant does not count tokens; it says that
each entry has at least one token well placed for the tick at which it is due (`Placed`), and the
theorems that follow hold whatever other tokens there are.

Where the source is assumed about, not modelled: a `DelayQueue` yields an entry at its deadline or later
and not after its removal; a task tracker's wait ends only once it is closed and every task it started
has dropped its guard; `Notify::notify_waiters` wakes the waiters whose notification exists; a watch
channel without receivers refuses a send and keeps its value; mutexes exclude; a stream's write takes a
prefix of what it is offered, or fails.

## What was found not to hold, and exactly when it does

- An entry of the timer may leave one tick late. Inserted for 0 ticks, which the public interface never asks
  for, it always does; for 1 to 511 ticks never; for 1024 ticks or more exactly on a multiple of 512; in
  between exactly on a multiple of 512 if no token that an earlier occupant or lifetime left in the first
  wheel will be visited less than 512 ticks before (`TimerLate.InsertedLateExactly`; from any state,
  `TimerLate.LateExactly`). Both happen: `TimerLate.LateByOneTick`, `TimerLate.LeftOverHelps`.
- `PacketWriter::close` can leave sinks open; a second `close` finds the registry empty. Once a close has
  swept and nothing is in flight, a sink is open exactly when some close was dropped, at the shutdown of a
  direct sink, with that sink still to close, and the sink did not fail by itself
  (`RegistryLeaks.OpenExactly`, witness `Registry.DroppedCloseLeaks`); without a dropped close none is left
  (`Registry.NoSinkLeft`).
- A shutdown of the runtimes can leave one unreported. With some call finished and none under way, a runtime
  ever registered is unreported exactly when a call was dropped while it stopped that runtime
  (`ShutdownCalls.UnreportedExactly`, witness `ShutdownCalls.ReportLost`).
- A direct write whose caller drops it leaves its sink open. The stream is then the frames of the accepted
  packets and nothing else exactly when every write that did not complete had emitted nothing
  (`Framing.SinkReaderExactly`, `Framing.AbandonedWrite`); otherwise the reader can get a packet that nobody
  wrote, and lose one that was accepted (witness `Framing.GarbledPacket`).
- Shutdown budgets may shrink: exactly when a stage whose share is not zero overruns it by more than the
  remainder of the division. `RuntimeShutdown.ShareKeeps`, witness `RuntimeShutdown.BudgetCanShrink`.
- The TTL cache may expire a value before its time to live has passed since the last call that inserted or
  refreshed it: exactly when an insert or refresh command for its key, sent less than that time ago, has not
  been read by the purge task (`TtlExpiry.EarlyExactly`). With an insert pending the timer is not even the
  value's own (`TtlRuns.ExpiryIsOwnExactly`, witness `TtlRuns.ExpiresTooEarly`); with a refresh pending it
  is the value's own, and the refresh is lost (witness `TtlExpiry.ExpiresDespiteRefresh`).
- `de` may panic instead of returning an error: exactly on well-formed groups (`Dig62.DecodeFails` says which
  are not) that hold a group of four bits above nine. `Dig62.DecodePanics`, witness `Dig62.DecodeCanPanic`. It accepts codes that `en`
  never writes; `Dig62.CanonicalCodes` says which it does write, witness `Dig62.AcceptsForeignCode`.
- The supervisor's attempt limit holds for every limit but the greatest 32-bit one, where the saturating
  counter never exceeds it. `Supervisor.AttemptsBoundedExactly`.
- `ConnectionReporter::connected` reads and writes the watch channel in two steps. Observers are misled
  exactly when a report straddles a publication of the supervising task; even a stopped supervisor can
  then look connected for good. `Supervisor.FaithfulExactly`, witness `Supervisor.ConnectedAfterStop`.
- An episode's summaries account for every failure exactly as long as the 64-bit total has not saturated.
  `Episode.TotalAccounts`.

## Model

| member | source | states |
|---|---|---|
| TimerHistory.ExpiresOnTime | base/src/cache/c100k.rs:249-347 | over every interleaving of commands for other keys and ticks, and every lifetime, beyond the horizon of the wheels too: a live key keeps its recorded lifetime until it expires, expires once, with its hash and present version, at its expiry tick or one tick later, the latter only for a lifetime of 512 ticks or more that ends on a multiple of 512, or a lifetime of 0 ticks |
| TimerHistory.GoneStaysGone | base/src/cache/c100k.rs:292-347 | stale tokens never produce an event: a key that is gone stays gone and silent until a command names it |
| TimerHistory.RunKeeps | base/src/cache/c100k.rs:320-400 | the slab, index, free list, placement and key-conservation invariant holds after every run |
| TimerHistory.CatchUpIsTicks | base/src/cache/c100k.rs:326-347 | catching up by d ticks is d single ticks: same state, same events in the same order |
| TimerHistory.OnTickCatchesUp | base/src/cache/c100k.rs:320-355 | one turn of the ticker is as many single ticks as the clock is ahead, 1024 at most |
| TimerLate.LateExactly | base/src/cache/c100k.rs:249-400 | from any state, over every run that does not name the key: a live key that expires fires once, at its expiry tick or the next, and at the next if and only if its expiry tick has come already, or is a multiple of 512 and no first-wheel bucket visited less than 512 ticks before it names the slot |
| TimerLate.LongLateExactly | base/src/cache/c100k.rs:249-400 | with 1024 ticks or more to go a key fires one tick late if and only if its expiry tick is a multiple of 512, whatever tokens are left over |
| TimerLate.InsertedLateExactly | base/src/cache/c100k.rs:249-400 | the same for an inserted key, new or not: never late for 1 to 511 ticks, always for 0, exactly on a multiple of 512 for 1024 or more, and in between exactly on a multiple of 512 that no left-over token helps |
| TimerLate.LeftOverHelps | base/src/cache/c100k.rs:292-382 | the left-over token of a deleted key makes the next key of its slot fire at tick 512 instead of 513 |
| TimerLate.LateByOneTick | base/src/cache/c100k.rs:249-290 | the late case happens: a key inserted at tick 0 for 512 ticks fires at tick 513 |
| TimerClock.LivesByClock | base/src/cache/c100k.rs:320-382 | in milliseconds: a key inserted at tick T lives at least until T * 200 + ttl, and is gone before T * 200 + ttl + 400 whenever the wheels have caught up |
| TimerClock.NeverAhead | base/src/cache/c100k.rs:320-326 | the wheels never run ahead of the clock, and catch up unless more than 1024 ticks behind |
| TimerClock.TicksCover | base/src/cache/c100k.rs:462-469 | the ticks cover the time to live exactly when it fits 64 bits of milliseconds; they are at least one, and the fewest; a longer time to live wraps around |
| TimerLedger.EveryKeyOnce | base/src/cache/c100k.rs:292-400 | over every run from an empty shard: each key that the commands wrote is live, was dropped in place by a command, or was handed over in an event, once for each time it was written |
| TimerLedger.RunLedger | base/src/cache/c100k.rs:292-400 | over every run: moved out are the keys of the events, once for each; written and dropped are those of the commands |
| TimerLedger.HandleLedger | base/src/cache/c100k.rs:357-400 | a command writes its key when the key is live or there is room, drops it in place when it was live and is not refreshed, and moves none out |
| TimerLedger.TickLedger | base/src/cache/c100k.rs:292-347 | a tick moves out the keys of its events, and writes and drops none |
| TimerRuns.HandleRefinesMap | base/src/cache/c100k.rs:357-400 | insert, refresh and delete do to the live keys what they do to a bounded map, for any hash function, and keep the invariant |
| TimerRuns.InsertWithRoom | base/src/cache/c100k.rs:365-382 | inserting a key that is live never fails, even at capacity |
| TimerRuns.InsertWhenFull | base/src/cache/c100k.rs:373-381 | a new key at capacity leaves the whole shard as it was |
| TimerInvariant.TickKeeps | base/src/cache/c100k.rs:326-347 | a tick keeps the invariant and fires exactly one event, with hash and version, for each key it removes, all of them due |
| TimerInvariant.TickFiresExactly | base/src/cache/c100k.rs:292-347 | a tick removes a key if and only if it is due and the bucket of the tick names its slot and version; otherwise its entry is untouched |
| TimerInvariant.TickTokens | base/src/cache/c100k.rs:270-347 | a tick never increases the number of tokens |
| TimerInvariant.TimelyBounds | base/src/cache/c100k.rs:249-268 | between operations no entry is overdue |
| TimerPlacement.SchedulePlaces | base/src/cache/c100k.rs:249-268 | scheduling puts the token where a later tick or cascade visits it in time, for every distance |
| TimerPlacement.CascadesPlace | base/src/cache/c100k.rs:270-290 | the cascades of a tick, second wheel before third, leave every entry placed |
| TimerTick.ProcessExact | base/src/cache/c100k.rs:292-305 | processing a bucket empties exactly the slots that are due and named by a matching token |
| TimerTick.ProcessFires | base/src/cache/c100k.rs:292-318 | processing a bucket keeps the slab and fires one event for each key it removes |
| TimerTick.CompactionIrrelevant | base/src/cache/c100k.rs:339-344 | compacting a bucket first does not change what processing it does |
| TimerSlab.FindFindsLive | base/src/cache/c100k.rs:234-247 | a lookup finds a key if and only if it is live, whatever collides |
| TimerSlab.ReleaseKeeps | base/src/cache/c100k.rs:209-232 | releasing a slot removes its key and nothing else; free list and index stay exact |
| TimerSlab.RemoveKeeps | base/src/cache/c100k.rs:394-400 | delete removes the key, keeps the slab and drops the stored key once |
| TimerSlab.PlaceKeeps | base/src/cache/c100k.rs:373-378 | the new key takes the first free slot, if there is one |
| TimerSlab.RenewKeeps | base/src/cache/c100k.rs:384-392 | refresh restarts the lifetime and bumps the version, nothing else |
| TimerSlab.LiveCount | base/src/cache/c100k.rs:200-217 | live keys and free slots make up the capacity |
| Timer.Shard.constructor | base/src/cache/c100k.rs:171-198 | a new shard satisfies the invariant and has sent nothing |
| Timer.Shard.Alloc | base/src/cache/c100k.rs:200-207 | takes the head of the free list in place |
| Timer.Shard.Free | base/src/cache/c100k.rs:209-217 | releases a slot in place |
| Timer.Shard.InsertIndex | base/src/cache/c100k.rs:219-221 | appends to the collision list |
| Timer.Shard.RemoveIndex | base/src/cache/c100k.rs:223-232 | swap-removes from the collision list, dropping an empty one |
| Timer.Shard.FindEntry | base/src/cache/c100k.rs:234-247 | the loop computes the specified lookup |
| Timer.Shard.Schedule | base/src/cache/c100k.rs:249-268 | pushes the token the specification names |
| Timer.Shard.CascadeL2 | base/src/cache/c100k.rs:270-279 | the drained bucket is rescheduled as specified |
| Timer.Shard.CascadeL3 | base/src/cache/c100k.rs:281-290 | likewise for the third wheel |
| Timer.Shard.SendBatch | base/src/cache/c100k.rs:311-315 | a batch is offered whole and in order; every batch has 1 to 64 events (`Batched`) |
| Timer.Shard.ProcessBucket | base/src/cache/c100k.rs:292-318 | the loop computes the specified state and appends the specified events to the log |
| Timer.Shard.Compact | base/src/cache/c100k.rs:339-344 | keeps the tokens that match |
| Timer.Shard.Advance | base/src/cache/c100k.rs:326-347 | one turn of the loop is one tick |
| Timer.Shard.CatchUp | base/src/cache/c100k.rs:326-347 | the loop is the specified sequence of ticks |
| Timer.Shard.OnTick | base/src/cache/c100k.rs:320-355 | concatenated batches are exactly the specified events, in order, nothing stays pending, and every batch but the last of the turn has 64 events |
| Timer.Shard.Insert | base/src/cache/c100k.rs:365-382 | as specified, in place |
| Timer.Shard.Refresh | base/src/cache/c100k.rs:384-392 | as specified, in place |
| Timer.Shard.Delete | base/src/cache/c100k.rs:394-400 | as specified, in place |
| Timer.Shard.Handle | base/src/cache/c100k.rs:357-363 | as specified, in place |
| Timer.Shard.Drop | base/src/cache/c100k.rs:139-145 | afterwards every key ever written has been dropped in place or moved into an event, exactly once |
| RegistryMaps.InsertAgrees | base/src/net/rw.rs:801-817 | both maps describe the same registrations: no repeated address, no empty list |
| RegistryMaps.RemoveAgrees | base/src/net/rw.rs:844-864 | likewise for removal |
| RegistryMaps.InsertTracks | base/src/net/rw.rs:801-817 | the maps hold exactly the live registrations of the history, lists in registration order |
| RegistryMaps.RemoveTracks | base/src/net/rw.rs:844-864 | likewise for removal |
| RegistryMaps.LookupFindsLatest | base/src/net/rw.rs:683-692 | a lookup by IP finds the most recent live registration of the IP, and fails only when there is none |
| RegistryMaps.Tables.InsertLocked | base/src/net/rw.rs:801-817 | the locked section in place; returns the sink it replaced |
| RegistryMaps.Tables.RemoveLocked | base/src/net/rw.rs:839-865 | nothing changes when the peer is not registered or another id than the present one is expected; otherwise that peer alone is unregistered and its sink returned |
| RegistryMaps.Tables.FindByIp | base/src/net/rw.rs:683-692 | the reverse scan computes the specified lookup |
| RegistryMaps.Tables.ClearLocked | base/src/net/rw.rs:881-891 | both maps are emptied |
| Registry.RunInv | base/src/net/rw.rs:787-909 | in every reachable state every sink offered is registered, cancelled, held by an operation about to cancel it, or abandoned by a dropped close; ids are fresh; the maps agree |
| Registry.ClosedForGood | base/src/net/rw.rs:878-908 | once a close has swept, the maps are empty for good, and with nothing in flight every sink is cancelled if and only if the abandoned ones are |
| RegistryLeaks.OpenExactly | base/src/net/rw.rs:787-909 | once a close has swept and nothing is in flight, an offered sink is open if and only if some close was dropped at its await with the sink still to close, and the sink never failed by itself |
| RegistryLeaks.RegisteredIsOpen | base/src/net/rw.rs:787-865 | in every reachable state a registered sink is registered for one peer, held by no operation, and cancelled if and only if it failed by itself: the registry never closes a sink that is registered |
| RegistryLeaks.QueuedNeverLeak | base/src/net/rw.rs:878-909 | with queued sinks alone every sink offered is cancelled once a close has swept and nothing is in flight, whatever is dropped |
| RegistrySteps.EndsExactly | base/src/net/rw.rs:787-891 | in every reachable state a step ends a live registration if and only if it is an insertion for its peer on an open writer, a removal for its peer that expects no id or its own, or the sweep of a close; what a step does not end keeps its sink |
| RegistrySteps.OldGenerationHarmless | base/src/net/rw.rs:826-865 | in every reachable state a registration that removes itself by its id leaves every other one registered with its sink: its replacement too |
| RegistrySteps.RunIds | base/src/net/rw.rs:793-800 | no id is registered twice |
| RegistrySteps.RemovalCloses | base/src/net/rw.rs:820-865 | a removal takes the sink out in order to close it, or changes nothing |
| RegistrySteps.ClosedRegistersNone | base/src/net/rw.rs:787-810 | once a close has begun, and before it has swept too, nothing is registered any more |
| RegistrySteps.WakesExactly | base/src/net/rw.rs:711-727 | a waiter asleep can wake if and only if the writer is closed or waiters were notified since it created its notification, be it before its second look at the registry |
| RegistrySteps.ClosedWaitEnds | base/src/net/rw.rs:706-728 | once the writer is closed a wait ends within four of its own steps, and is never stuck asleep |
| Registry.NoSinkLeft | base/src/net/rw.rs:878-908 | without a dropped close, once a close has swept and nothing is in flight, every sink ever offered is cancelled |
| Registry.OnlyDroppedCloseLoses | base/src/net/rw.rs:893-901 | no sink is abandoned unless a close is dropped at its await |
| Registry.DroppedCloseLeaks | base/src/net/rw.rs:878-908 | a run after which nothing is in flight and a sink is open |
| Registry.NoLostWakeup | base/src/net/rw.rs:695-729 | a sleeping waiter whose peer is registered can wake, or the insertion about to wake it is in flight |
| Registry.WaitReturnsLive | base/src/net/rw.rs:695-729 | in every run, the sink that a wait returned was the live registration of the peer it was asked for, at a moment between its call and its return |
| Registry.WaitGivesUp | base/src/net/rw.rs:707-728 | in every run, a wait gives up only when the writer is closed or its time is up |
| Registry.LookupInRun | base/src/net/rw.rs:683-692 | the lookup theorem at every point of every run |
| ManagedClose.ExactlyOnce | base/src/net/rw.rs:1019-1402 | when an endpoint close has completed, under any interleaving and any dropped waiters, its report is the failed writer close, plus the root task's report, plus each registered connection's report counted once |
| CloseReports.ReportShows | base/src/net/rw.rs:1019-1444 | in every run whose endpoint close has completed, the report counts, under their own kind, the registered connections whose tasks finished, failed, panicked or were cancelled, adds what the root task reported or how it ended, and one failure if closing the writer failed |
| CloseReports.CleanExactly | base/src/net/rw.rs:1347-1424 | the close returns its report, and not an error, if and only if closing the writer succeeded, the task of every registered connection finished, and the root task reported no trouble |
| CloseReports.ConnectionTells | base/src/net/rw.rs:1019-1057 | the report of a closed connection, registered or not, tells how its task ended, and every closer carries it |
| CloseReports.SumShows | base/src/net/rw.rs:1083-1097 | a sum of reports that names each task once counts them by how they ended |
| ManagedClose.ReportIsFinal | base/src/net/rw.rs:1347-1402 | later closes return the same report |
| ManagedClose.OneAttemptPerPeer | base/src/net/rw.rs:1165-1181 | at most one connection attempt to a peer is in flight |
| ManagedAttempts.StartsExactly | base/src/net/rw.rs:1165-1239 | in every reachable state an attempt starts if and only if the endpoint is not cancelled, no writer is registered for the peer and no attempt to it is in flight |
| ManagedAttempts.CancelledRegistersNone | base/src/net/rw.rs:1236-1341 | a cancelled endpoint registers no connection and starts no attempt, ever |
| ManagedAttempts.AttemptsSettle | base/src/net/rw.rs:1309-1341 | in every run without dropped futures, a connection that its attempt did not register has been closed and its task awaited, unless the attempt is still at it |
| ManagedClose.RunInv | base/src/net/rw.rs:1019-1402 | the invariants of locks, owners, counts and reservations hold after every run |
| NetworkClose.Connection.LockState | base/src/net/rw.rs:1020-1022 | taking the close state in place is the closer's first step in ManagedClose |
| NetworkClose.Connection.JoinTask | base/src/net/rw.rs:1029-1054 | joining the task and completing the close state is its second step; the report then tells how the task ended |
| NetworkClose.Connection.SwapOwner | base/src/net/rw.rs:1060-1060 | the swap of the owner flag is its third step |
| NetworkClose.Connection.MergeReport | base/src/net/rw.rs:1061-1063 | adding to the owner's report is its fourth step |
| NetworkClose.Connection.LeaveOwner | base/src/net/rw.rs:1064-1066 | leaving the owner's map is its last step |
| NetworkClose.Connection.CloseAndWait | base/src/net/rw.rs:1019-1057 | run to its end by one caller: a first and a later close return the same final report, which tells how the task ended; the owner counts it once and drops the connection |
| NetworkClose.Endpoint.Enlist | base/src/net/rw.rs:1324-1341 | a connection is registered, or closed and never counted if the endpoint is cancelled or has closed |
| NetworkClose.Endpoint.CloseListed | base/src/net/rw.rs:1364-1378 | one pass counts each active connection once, whatever the order, and leaves none |
| NetworkClose.Endpoint.CloseConnections | base/src/net/rw.rs:1363-1379 | run by one caller, the loop ends with no active connection, each counted once |
| NetworkClose.Endpoint.CloseAndWait | base/src/net/rw.rs:1347-1402 | run by one caller, what the report gains counts the active connections by how their tasks ended, the root task, and a failed close of the writer; a later close changes nothing |
| Framing.NewInlinePrefix | base/src/net/rw.rs:63-83 | fails exactly beyond 16 bytes, else holds the prefix |
| Framing.EncodeTcp | base/src/net/rw.rs:209-220 | fails exactly beyond 65535 bytes, else the packet's bytes are its frame |
| Framing.WriteAllVectored2 | base/src/net/rw.rs:2237-2269 | against any stream: success emits prefix then payload, failure a proper prefix of that, and the loop ends |
| Framing.WriteEncodedPacket | base/src/net/rw.rs:2225-2235 | likewise for either form of packet |
| Framing.WriteQueue | base/src/net/rw.rs:2192-2216 | the reader recovers exactly the packets written before a failure or a cancellation, and at most a proper prefix of one frame after them |
| Framing.DirectSink.Write | base/src/net/rw.rs:395-422 | a packet is accepted, or refused before it starts, or its write fails part way and closes the sink |
| Framing.DirectSink.WriteDropped | base/src/net/rw.rs:402-417 | a write whose caller drops it leaves part of its frame, and the sink open |
| Framing.DirectSink.ReaderRecovers | base/src/net/rw.rs:395-422 | the two theorems on the reader below hold of the sink in every state |
| Framing.SinkReaderExactly | base/src/net/rw.rs:395-422 | over every run of a sink, the reader recovers exactly the accepted packets and nothing else if and only if the writes that did not complete emitted nothing |
| Framing.SinkReaderRecovers | base/src/net/rw.rs:395-422 | while no caller drops a write that has begun, the reader recovers exactly the accepted packets, with a rest only after the write that closed the sink |
| Framing.AbandonedWrite | base/src/net/rw.rs:402-421 | after a dropped write and one that succeeds, the reader has exactly the accepted packets and no rest if and only if the dropped write had emitted nothing |
| Framing.GarbledPacket | base/src/net/rw.rs:402-421 | a run after which the reader has a packet that nobody wrote and lacks the one accepted |
| Framing.ParseFrames | base/src/net/rw.rs:209-220 | a stream of frames, with an incomplete one at its end, parses back to the packets |
| Framing.ParseCovers | base/src/net/rw.rs:209-220 | conversely any stream is the frames of what is parsed, and a rest |
| Framing.FramesInjective | base/src/net/rw.rs:209-220 | different packet queues give different streams |
| RuntimeTasks.Conservation | base/src/utils/rt.rs:137-193 | tasks started = active + completed + cancelled + panicked, but for guards in mid-finish |
| RuntimeTasks.ClosedAdmitsNone | base/src/utils/rt.rs:515-525 | once the gate is closed no task is ever admitted |
| RuntimeTasks.Settled | base/src/utils/rt.rs:362-383 | with the gate closed and no guard left nothing changes any more |
| RuntimeTasks.CountersMean | base/src/utils/rt.rs:169-193 | in every run each counter is the number of tasks that ended that way, and no task is counted twice |
| RuntimeTasks.ActiveMeans | base/src/utils/rt.rs:137-193 | in every run the tasks admitted are those spawned before the gate closed; active are those that have not left, each under its own name |
| RuntimeTasks.ReportMeans | base/src/utils/rt.rs:355-405 | a shutdown report has the counters of the run; it is timed out exactly when the wait was, graceful exactly when wait and shutdown succeeded, none panicked and all have left; it names the tasks left over at the end or, if there is none, before the shutdown |
| RuntimeTasks.MainReportMeans | base/src/utils/rt.rs:407-439 | likewise for Main, which is only waited for |
| RuntimeTasks.GracefulAccountsForAll | base/src/utils/rt.rs:355-439 | once the wait has ended every task admitted has been counted, once, and none is active; the report is graceful if and only if no task panicked and the runtime's own shutdown did not fail, and incomplete otherwise |
| RuntimeTasks.TaskState.Start | base/src/utils/rt.rs:515-526 | a task is admitted exactly while the gate is open, with a fresh id and guard |
| RuntimeTasks.TaskState.Close | base/src/utils/rt.rs:147-149 | the gate closes |
| RuntimeTasks.TaskGuard.Complete | base/src/utils/rt.rs:169-177 | counted once as completed or cancelled, then out of the map |
| RuntimeTasks.TaskGuard.Panic | base/src/utils/rt.rs:179-183 | counted once as panicked, then out of the map |
| RuntimeTasks.TaskState.CountTask | base/src/utils/rt.rs:169-193 | one counter goes up by one, that of the kind |
| RuntimeTasks.TaskGuard.End | base/src/utils/rt.rs:169-193 | counted once, in the counter of its kind and in no other, then out of the map |
| RuntimeTasks.TaskGuard.Drop | base/src/utils/rt.rs:186-193 | a finished guard does nothing; another counts as cancelled |
| ShutdownOrder.StageList | base/src/utils/rt.rs:316-332 | declared runtimes without Main, once each by first occurrence, then the other registered ones by thread name |
| ShutdownOrder.StagesCover | base/src/utils/rt.rs:316-332 | no repetition, never Main, every registered runtime |
| ShutdownOrder.LeftoverOnce | base/src/utils/rt.rs:322-332 | the list does not depend on the order in which the registry lists its runtimes |
| ShutdownOrder.NamesDiffer | base/src/utils/rt.rs:323-323 | no two runtime types share a thread name, so sorting by name is total |
| ShutdownOrder.SortByName | base/src/utils/rt.rs:322-323 | sorted, same elements |
| ShutdownOrder.LessMeans | base/src/utils/rt.rs:323-323 | names are compared at the first position where they differ; a proper prefix comes first |
| RuntimeShutdown.ShareKeeps | base/src/utils/rt.rs:335-340 | the next budget is at least this one if and only if the stage used at most its budget and the remainder of the division (or its budget was zero) |
| RuntimeShutdown.ShareMeans | base/src/utils/rt.rs:335-340 | a stage's budget is the most that it and each later stage, Main included, could use alike without going past the total; nothing once the total is used up |
| RuntimeShutdown.LeftMeans | base/src/utils/rt.rs:336-337 | what is left is the total without the time used, if anything |
| RuntimeShutdown.ReportedBudgets | base/src/utils/rt.rs:334-347 | with every reported stage in its budget, the reported budgets never decrease, each is at least the total divided by the stages and Main, none is above Main's, and time used and Main's budget make up the total |
| RuntimeShutdown.BudgetCanShrink | base/src/utils/rt.rs:335-340 | a stage that overruns leaves the next one less than it had |
| RuntimeShutdown.BudgetsGrow | base/src/utils/rt.rs:335-347 | with stages in budget, no budget is below an earlier one, Main's included |
| RuntimeShutdown.TotalWithinBudget | base/src/utils/rt.rs:315-347 | with stages in budget, time used and Main's budget make up the total |
| RuntimeShutdown.RuntimeRegistry.Register | base/src/utils/rt.rs:258-283 | refused after a shutdown began and for a runtime that exists |
| RuntimeShutdown.RuntimeRegistry.StopStage | base/src/utils/rt.rs:355-405 | a runtime that exists is reported and gone for good |
| RuntimeShutdown.RuntimeRegistry.StopRuntime | base/src/utils/rt.rs:360-379 | a runtime is given its budget to wait, and what the wait left of it for its own shutdown |
| RuntimeShutdown.RuntimeRegistry.RunStages | base/src/utils/rt.rs:334-345 | reports are those of the stages whose runtime exists, in order, each with its stage's share of the time left and the time it took; each runtime was stopped with the budget reported |
| RuntimeShutdown.RuntimeRegistry.Shutdown | base/src/utils/rt.rs:303-353 | every registered runtime but Main is reported in the order of the stages with its share, each at most once over any number of calls in a row, and Main last with all that is left; each was stopped with the budget reported |
| ShutdownCalls.ReportedOnce | base/src/utils/rt.rs:303-439 | however calls overlap or are dropped, no runtime but Main is reported twice, and no call reports after Main |
| ShutdownCalls.FinishedAccountsForAll | base/src/utils/rt.rs:303-439 | when some call has finished, every runtime ever registered is gone, and is reported, being stopped by a call still under way, or lost with a call dropped while it stopped it |
| ShutdownCalls.UnreportedExactly | base/src/utils/rt.rs:303-439 | with some call finished and none under way, a runtime ever registered is unreported if and only if a call was dropped while it stopped that runtime |
| ShutdownCalls.ReportLost | base/src/utils/rt.rs:355-405 | a run after which a runtime is gone and only Main is reported |
| ShutdownCalls.AllReported | base/src/utils/rt.rs:303-439 | with no call dropped and none under way, every runtime ever registered has been reported |
| ShutdownCalls.FinishedReportsMain | base/src/utils/rt.rs:347-351 | unless Main has been taken for its own shutdown, every call that finished has reported it |
| ShutdownCalls.NoneRegistered | base/src/utils/rt.rs:258-313 | once a call has begun no runtime is registered, ever |
| TtlCache.RunInv | base/src/cache/mod.rs:94-217 | all invariants below hold after every run of the client thread and the purge task |
| TtlCache.HandlePaired | base/src/cache/mod.rs:100-130 | keys and queue entries stay in bijection |
| TtlRuns.Agreement | base/src/cache/mod.rs:94-217 | between operations, once the pending commands are handled a value with a time to live has a timer of its own and one without has none |
| TtlRuns.NoStrayTimer | base/src/cache/mod.rs:94-217 | conversely a timer belongs to a mapped value, or to one that expired before its command was handled |
| TtlRuns.OneEnding | base/src/cache/mod.rs:132-203 | every insertion is in the map or left it once: replaced, returned by remove, or handed to expire_call, and never two of these |
| TtlEndings.EndingsByCause | base/src/cache/mod.rs:132-202 | in every run: a value handed to expire_call was found under the key of an expired timer by the purge task, one returned was taken by a removal of its key, one replaced by an insertion for its key |
| TtlEndings.StepEnds | base/src/cache/mod.rs:132-202 | a step ends exactly the values it takes out of the map, and leaves all others; an insertion alone adds one |
| TtlEndings.DueExactly | base/src/cache/mod.rs:94-134 | with every command for the key read, a value with a time to live has one entry in the delay queue, which may fire exactly when that time has passed since its last insert or refresh command was handled; a value without one has none |
| TtlEndings.DueExpires | base/src/cache/mod.rs:132-139 | then its entry fires, and that value is handed over and no other |
| TtlRuns.ExpiryIsOwnExactly | base/src/cache/mod.rs:132-139 | the purge task removes the insertion its timer was started for if and only if no insert command for the key is pending; then its time to live has passed since its last insert or refresh command was handled (for pending refreshes see TtlExpiry.EarlyExactly) |
| TtlRuns.ExpiresTooEarly | base/src/cache/mod.rs:132-191 | a run in which a value inserted for 100 expires at once |
| TtlExpiry.EarlyExactly | base/src/cache/mod.rs:94-217 | in every run, a value expires before its time to live has passed since its last insert or refresh call if and only if an insert or refresh command for its key, sent less than that time ago, is still unread; a value without a time to live if and only if any is |
| TtlExpiry.HeardInTime | base/src/cache/mod.rs:94-217 | with no insert or refresh command for the key unread, a value that expires has lived its time since its last insert or refresh call |
| TtlExpiry.ExpiresDespiteRefresh | base/src/cache/mod.rs:132-217 | a run in which a value expires at the very time it is refreshed |
| PurgeTask.Cache.HandleCommand | base/src/cache/mod.rs:101-129 | one command on the delay queue and the key map in place |
| PurgeTask.Cache.ReceiveCommand | base/src/cache/mod.rs:100-130 | one command in place; reset and remove never meet an unknown token |
| PurgeTask.Cache.TakeExpired | base/src/cache/mod.rs:132-134 | the expired entry leaves queue and key map |
| PurgeTask.Cache.ExpireKey | base/src/cache/mod.rs:135-138 | the value found is handed over once |
| PurgeTask.Cache.Insert | base/src/cache/mod.rs:183-191 | the map changes, then the command is sent |
| PurgeTask.Cache.Remove | base/src/cache/mod.rs:193-202 | the command is sent, then the map changes; returns the value |
| PurgeTask.Cache.RefreshKey | base/src/cache/mod.rs:204-217 | sends a command exactly for a mapped value with a time to live |
| Dig62.RoundTrip | base/src/utils/dig62.rs:18-109 | encoding succeeds exactly on decimal digits, and decoding undoes it without failure or panic |
| Dig62.Injective | base/src/utils/dig62.rs:18-48 | no two strings have the same code |
| Dig62.CodeLength | base/src/utils/dig62.rs:18-48 | n digits take between 1 + ceil(4n/9) and 1 + 2 * ceil(4n/9) characters |
| Dig62.CanonicalCodes | base/src/utils/dig62.rs:18-109 | a code that decodes encodes back to itself if and only if it is canonical |
| Dig62.DecodeFails | base/src/utils/dig62.rs:50-98 | decoding fails, with the error of each case, if and only if the code is empty, does not begin with a letter, holds behind its first letter a character that is neither letter nor digit or a digit followed by no letter, or ends with a digit |
| Dig62.DecodeMeans | base/src/utils/dig62.rs:50-109 | on any other code: the first letter says how many bits to leave out of the numbers of the groups, each in nine bits or ten; every four bits that follow are one digit, the last of fewer perhaps, and a four above nine makes it panic |
| Dig62.DecodesRows | base/src/utils/dig62.rs:71-98 | every code that is not refused is a first letter and a row of such groups |
| Dig62.BinaryMeans | base/src/utils/dig62.rs:94-95 | a numeral has its value, at least the width asked for, and more only without leading zeros |
| Dig62.ValueOfFirst | base/src/utils/dig62.rs:36-38 | the first bit of a group counts most |
| Dig62.KeyboardOrder | base/src/utils/dig62.rs:8-13 | the alphabet lists the columns of a keyboard from left to right, each from top to bottom, in lower and then in upper case |
| Dig62.DecodePanics | base/src/utils/dig62.rs:50-109 | decoding panics if and only if the groups are well formed and hold a group of four bits above nine |
| Dig62.DecodeCanPanic | base/src/utils/dig62.rs:103-107 | on "q6c" it does |
| Dig62.AcceptsForeignCode | base/src/utils/dig62.rs:50-109 | "a" decodes, and no string encodes to it |
| Dig62.En | base/src/utils/dig62.rs:18-48 | the loops compute the specified code |
| Dig62.De | base/src/utils/dig62.rs:50-109 | the loops compute the specified result, errors and panics included |
| Supervisor.GenerationsByOne | base_rpc/src/stream_supervisor.rs:81-103 | generations count the connector's calls from one, and are what is published, attempt number included |
| Supervisor.EarlierCancelled | base_rpc/src/stream_supervisor.rs:96-105 | when a generation is announced every earlier one's token is cancelled |
| SupervisorRuns.StartConnects | base_rpc/src/stream_supervisor.rs:87-103 | in every reachable state past its check for cancellation, the task calls the connector with the next generation if and only if there is no limit or the attempt is within it; otherwise it is about to stop and announces nothing |
| SupervisorRuns.GoesRound | base_rpc/src/stream_supervisor.rs:83-119 | it starts no attempt when it finds itself cancelled, goes round again after each connection unless cancelled before the announcement or in its sleep, and stops otherwise |
| SupervisorRuns.AnnouncedInTurn | base_rpc/src/stream_supervisor.rs:81-119 | in every run with observers: attempt k as generation k, the end of that connection with its own reason, and so on; the stop comes last, and only before it may an end go unannounced |
| SupervisorRuns.RoundByRound | base_rpc/src/stream_supervisor.rs:80-119 | round by round, what the loop announces for any behaviour of the connector and any cancellations |
| SupervisorRuns.ReportReaches | base_rpc/src/stream_supervisor.rs:33-45 | in a run in which no report was overtaken, a report that nothing overtakes makes observers see its generation connected if and only if that generation is the one announced last; otherwise nothing changes |
| Supervisor.AttemptsBoundedExactly | base_rpc/src/stream_supervisor.rs:87-90 | the connector is called at most max_attempts times in every run if and only if that is not the greatest 32-bit number |
| Supervisor.FaithfulExactly | base_rpc/src/stream_supervisor.rs:33-45 | observers always see the present generation if and only if no report straddles a publication |
| Supervisor.AtomicReportsFaithful | base_rpc/src/stream_supervisor.rs:33-45 | with atomic reports a stale generation never changes the state |
| Supervisor.StoppedIsFinal | base_rpc/src/stream_supervisor.rs:119-119 | after the stop nothing is announced or connected, and observers keep seeing it |
| Supervisor.CancelledStops | base_rpc/src/stream_supervisor.rs:84-108 | after a cancellation at most one attempt starts: one past its check already |
| Supervisor.ConnectedAfterStop | base_rpc/src/stream_supervisor.rs:33-45 | a run that ends stopped and looks connected |
| Supervisor.Task.Begin | base_rpc/src/stream_supervisor.rs:84-103 | the head of the loop, in place |
| Supervisor.Task.Finish | base_rpc/src/stream_supervisor.rs:105-112 | the rest of the loop, in place |
| Supervisor.Task.Connected | base_rpc/src/stream_supervisor.rs:33-45 | an undisturbed report changes the state only for its own generation |
| Supervisor.Task.Spawn | base_rpc/src/stream_supervisor.rs:80-119 | for any behaviour of the connector and any cancellations, the loop publishes the specified states and its fields are those of a run |
| Episode.FieldsMean | base/src/logger/episode.rs:50-76 | the counters are counts of the series of failures, up to 64 bits |
| Episode.SummaryMeans | base/src/logger/episode.rs:60-71 | a summary tells the failures so far and since the report before it, and the failures in between were suppressed |
| Episode.ReportedWhenDue | base/src/logger/episode.rs:59-75 | a failure is reported if and only if the interval has passed since the last report |
| Episode.TotalAccounts | base/src/logger/episode.rs:58-71 | total = 1 + the summaries' counts + those suppressed since, if and only if the total has not saturated |
| Episode.SuppressedAccounts | base/src/logger/episode.rs:61-74 | suppressed_total = the summaries' suppressed + those since |
| Episode.SummariesSpaced | base/src/logger/episode.rs:59-64 | after k summaries the last is k intervals after the start, whatever the clock does |
| Episode.ReportsApart | base/src/logger/episode.rs:59-64 | two reports are never closer than the interval |
| Episode.FailureEpisode.RecordFailure | base/src/logger/episode.rs:50-76 | in place, the decision of the series so far |
| Episode.FailureEpisode.RecordSuccess | base/src/logger/episode.rs:78-89 | reports the counts of the episode and ends it |
| Episode.FailureEpisode.Reset | base/src/logger/episode.rs:91-97 | ends the episode |

## Left out

- Integer widths of the timer: ticks, versions, slot numbers and hashes are unbounded naturals; a version that overflows 32 bits is not modelled.
- Timer.Shard.SendBatch: batches are recorded as offered; the event channel may drop one when it is full.
- The distribution of keys over shards by `hash & (shards - 1)`, the command channel, and `run` around one turn of the ticker.
- TimerClock.LivesByClock: measured from the start of the tick at which the insertion is handled; time spent in the command channel is not modelled.
- Registry.ClosedForGood: pending wakeups after `close` and the UDP socket are not modelled.
- Registry.NoLostWakeup: fairness of the scheduler is not modelled; it says the waiter can wake, not when.
- ManagedClose.ExactlyOnce: sockets, readiness signals and the tasks of a connection are reduced to how the task ends; the logging flags are left out.
- NetworkClose.Connection.CloseAndWait: one caller that is not dropped; the stretches it is made of are the steps of ManagedClose, where callers interleave and are dropped.
- NetworkClose.Endpoint.CloseConnections: with one caller the loop turns at most once; other closers of the same connections are in ManagedClose.
- NetworkClose.Endpoint.CloseAndWait: one caller at a time; interleaved and dropped callers are in ManagedClose.
- Framing.WriteQueue: the queue is given at once; the channel that feeds it and its bound are left out, as are user-defined encoders.
- Framing.DirectSink.Write: writers are serialised by the sink's lock, and cancellation while waiting for it is a refusal; a write dropped by its caller is Framing.DirectSink.WriteDropped.
- RuntimeTasks.GracefulAccountsForAll: that the tracker's wait ended means no guard is left is an assumption on the tracker.
- RuntimeTasks.ReportMeans: the tasks left over are a set of names; the report lists them in order, with repetitions.
- RuntimeShutdown.RuntimeRegistry.Shutdown: how long stopping a runtime takes is arbitrary; calls that overlap are in ShutdownCalls, without their budgets; `order_shutdown`'s summary of outcomes is left out.
- TtlRuns.Agreement: one client thread, because the map and the command are updated in separate steps; the shutdown of the purge task, which clears everything, is left out, and a value's time to live is a constant of the value.
- TtlRuns.OneEnding: handed to `expire_call` means offered to its channel, which may be full.
- Supervisor.FaithfulExactly: for generations below the greatest 64-bit number.
- Retry delays and jitter, socket options, TLS, message buses, configuration, logging, databases, metrics, tokens and ciphers: thin wrappers or single-function arithmetic.

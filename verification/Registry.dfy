/**
Concurrent use of the TCP writer registry (base/src/net/rw.rs). A state machine whose steps are the
sections between two points at which another task can run: the lock sections, the checks of the
`closed` flag outside the lock, the closing of sinks after the lock is released, the notification
of waiters, and the awaits of `close` and `wait_tcp_sink`.
*/
module Registry {
  import opened Options
  import opened RegistryMaps

  // Where an operation in flight stands.
  datatype Pc =
    | Checked(addr: Addr, sink: Sink)             // insert: found the writer open
    | Numbered(reg: Registration, sink: Sink)     // insert: has its writer id, next the lock
    | Replacing(reg: Registration, replaced: Sink)    // insert: registered, next closes the sink it replaced
    | Announcing(reg: Registration)               // insert: registered, next notifies the waiters
    | Removing(sink: Sink)                        // remove: unregistered, next closes the sink
    | Signalled                                   // close: set the flag, next the lock
    | Draining(rest: seq<Sink>)                   // close: has these sinks still to close
    | Awaiting(rest: seq<Sink>)                   // close: awaits the shutdown of a direct sink

  // Where a call of `wait_tcp_sink` stands.
  datatype Waiter =
    | Start(addr: Addr)
    | Open(addr: Addr)
    | Absent(addr: Addr)                          // looked and found nothing, next creates its notification
    | Armed(addr: Addr, epoch: nat)               // has its notification, next looks again
    | Asleep(addr: Addr, epoch: nat)
    | Found(sink: Sink)
    | GaveUp

  datatype State = State(
    maps: Maps, log: seq<Event>, closed: bool, swept: bool, nextId: nat, epoch: nat,
    ops: map<nat, Pc>, waiters: map<nat, Waiter>,
    offered: set<Sink>, cancelled: set<Sink>, abandoned: set<Sink>)

  datatype Label =
    | InsertStart(op: nat, addr: Addr, sink: Sink)
    | TakeId(op: nat)
    | InsertLock(op: nat)
    | CloseReplaced(op: nat)
    | Notify(op: nat)
    | RemoveLock(op: nat, addr: Addr, expected: Option<nat>)
    | CloseRemoved(op: nat)
    | CloseSignal(op: nat)
    | CloseLock(op: nat, order: seq<Sink>)        // `order`: the registered sinks as the map iterates them
    | CloseNext(op: nat)
    | ShutdownDone(op: nat)
    | CloseDone(op: nat)
    | CloseDropped(op: nat)                       // the future of `close` is dropped at its await
    | SinkFails(sink: Sink)                       // some other owner cancels the sink's token
    | WaitStart(w: nat, addr: Addr)
    | WaitCheck(w: nat)
    | WaitLook(w: nat)
    | WaitArm(w: nat)
    | WaitLookAgain(w: nat)
    | WaitWake(w: nat)
    | WaitTimeout(w: nat)

  const Init: State := State(Maps(map[], map[]), [], false, false, 1, 0, map[], map[], {}, {}, {})

  ghost predicate Distinct(sinks: seq<Sink>) { forall j, k :: 0 <= j < k < |sinks| ==> sinks[j] != sinks[k] }

  ghost predicate IsSink(m: Maps, sink: Sink) { exists a :: a in m.writers && m.writers[a].sink == sink }

  // A waiter's select can end: the writer is closed, or waiters were notified after it armed itself.
  predicate CanWake(s: State, w: Waiter) { w.Asleep? ==> s.closed || s.epoch > w.epoch }

  ghost predicate Enabled(s: State, l: Label) {
    match l
    case InsertStart(op, _, sink) => op !in s.ops && sink !in s.offered
    case TakeId(op) => op in s.ops && s.ops[op].Checked?
    case InsertLock(op) => op in s.ops && s.ops[op].Numbered?
    case CloseReplaced(op) => op in s.ops && s.ops[op].Replacing?
    case Notify(op) => op in s.ops && s.ops[op].Announcing?
    case RemoveLock(op, _, _) => op !in s.ops
    case CloseRemoved(op) => op in s.ops && s.ops[op].Removing?
    case CloseSignal(op) => op !in s.ops
    case CloseLock(op, order) =>
      && op in s.ops && s.ops[op].Signalled?
      && (forall x :: x in order <==> IsSink(s.maps, x)) && Distinct(order)
    case CloseNext(op) => op in s.ops && s.ops[op].Draining? && s.ops[op].rest != []
    case ShutdownDone(op) => op in s.ops && s.ops[op].Awaiting?
    case CloseDone(op) => op in s.ops && s.ops[op] == Draining([])
    case CloseDropped(op) => op in s.ops && s.ops[op].Awaiting?
    case SinkFails(_) => true
    case WaitStart(w, _) => w !in s.waiters
    case WaitCheck(w) => w in s.waiters && s.waiters[w].Start?
    case WaitLook(w) => w in s.waiters && s.waiters[w].Open?
    case WaitArm(w) => w in s.waiters && s.waiters[w].Absent?
    case WaitLookAgain(w) => w in s.waiters && s.waiters[w].Armed?
    case WaitWake(w) => w in s.waiters && s.waiters[w].Asleep? && CanWake(s, s.waiters[w])
    case WaitTimeout(w) => w in s.waiters && s.waiters[w].Asleep?
  }

  function At(s: State, op: nat, pc: Pc): State { s.(ops := s.ops[op := pc]) }

  function Finish(s: State, op: nat): State { s.(ops := s.ops - {op}) }

  function Cancel(s: State, sink: Sink): State { s.(cancelled := s.cancelled + {sink}) }

  function ApplyInsert(s: State, op: nat): State
    requires op in s.ops && s.ops[op].Numbered?
  {
    var reg, sink := s.ops[op].reg, s.ops[op].sink;
    if s.closed then Finish(Cancel(s, sink), op)
    else
      var s' := s.(maps := Insert(s.maps, reg, sink), log := s.log + [Inserted(reg)]);
      if reg.addr in s.maps.writers then At(s', op, Replacing(reg, s.maps.writers[reg.addr].sink))
      else At(s', op, Announcing(reg))
  }

  function ApplyRemove(s: State, op: nat, addr: Addr, expected: Option<nat>): State {
    if Removes(s.maps, addr, expected) then
      At(s.(maps := Remove(s.maps, addr), log := s.log + [Unregistered(addr)]), op, Removing(s.maps.writers[addr].sink))
    else s
  }

  function ApplyCloseNext(s: State, op: nat): State
    requires op in s.ops && s.ops[op].Draining? && s.ops[op].rest != []
  {
    var sink, rest := s.ops[op].rest[0], s.ops[op].rest[1..];
    At(Cancel(s, sink), op, if sink.direct then Awaiting(rest) else Draining(rest))
  }

  function Look(s: State, w: nat, addr: Addr, otherwise: Waiter): State {
    s.(waiters := s.waiters[w := if addr in s.maps.writers then Found(s.maps.writers[addr].sink) else otherwise])
  }

  function ApplyWait(s: State, w: nat): State
    requires w in s.waiters
  {
    match s.waiters[w]
    case Start(addr) => s.(waiters := s.waiters[w := if s.closed then GaveUp else Open(addr)])
    case Open(addr) => Look(s, w, addr, Absent(addr))
    case Absent(addr) => s.(waiters := s.waiters[w := Armed(addr, s.epoch)])
    case Armed(addr, epoch) => Look(s, w, addr, Asleep(addr, epoch))
    case Asleep(addr, _) => s.(waiters := s.waiters[w := if s.closed then GaveUp else Start(addr)])
    case _ => s
  }

  ghost function Apply(s: State, l: Label): State
    requires Enabled(s, l)
  {
    match l
    case InsertStart(op, addr, sink) =>
      var s' := s.(offered := s.offered + {sink});
      if s.closed then Cancel(s', sink) else At(s', op, Checked(addr, sink))
    case TakeId(op) =>
      At(s.(nextId := s.nextId + 1), op, Numbered(Registration(s.ops[op].addr, s.nextId), s.ops[op].sink))
    case InsertLock(op) => ApplyInsert(s, op)
    case CloseReplaced(op) => At(Cancel(s, s.ops[op].replaced), op, Announcing(s.ops[op].reg))
    case Notify(op) => Finish(s.(epoch := s.epoch + 1), op)
    case RemoveLock(op, addr, expected) => ApplyRemove(s, op, addr, expected)
    case CloseRemoved(op) => Finish(Cancel(s, s.ops[op].sink), op)
    case CloseSignal(op) => At(s.(closed := true), op, Signalled)
    case CloseLock(op, order) =>
      At(s.(maps := Maps(map[], map[]), log := s.log + [Cleared], swept := true), op, Draining(order))
    case CloseNext(op) => ApplyCloseNext(s, op)
    case ShutdownDone(op) => At(s, op, Draining(s.ops[op].rest))
    case CloseDone(op) => Finish(s, op)
    case CloseDropped(op) => Finish(s.(abandoned := s.abandoned + set x | x in s.ops[op].rest), op)
    case SinkFails(sink) => Cancel(s, sink)
    case WaitStart(w, addr) => s.(waiters := s.waiters[w := Start(addr)])
    case WaitCheck(w) => ApplyWait(s, w)
    case WaitLook(w) => ApplyWait(s, w)
    case WaitArm(w) => ApplyWait(s, w)
    case WaitLookAgain(w) => ApplyWait(s, w)
    case WaitWake(w) => ApplyWait(s, w)
    case WaitTimeout(w) => s.(waiters := s.waiters[w := GaveUp])
  }

  // ---------------------------------------------------------------- invariants

  // Sinks that an operation in flight has yet to register or close.
  function Held(pc: Pc): set<Sink> {
    match pc
    case Checked(_, sink) => {sink}
    case Numbered(_, sink) => {sink}
    case Replacing(_, sink) => {sink}
    case Announcing(_) => {}
    case Removing(sink) => {sink}
    case Signalled => {}
    case Draining(rest) => set x | x in rest
    case Awaiting(rest) => set x | x in rest
  }

  ghost predicate Holds(s: State, op: nat, sink: Sink) { op in s.ops && sink in Held(s.ops[op]) }

  // A sink is cancelled, registered, or in the hands of an operation: or lost by a dropped `close`.
  ghost predicate Accounted(s: State, sink: Sink) {
    sink in s.cancelled || sink in s.abandoned || IsSink(s.maps, sink) || exists op :: Holds(s, op, sink)
  }

  ghost predicate NoLeak(s: State) { forall sink <- s.offered :: Accounted(s, sink) }

  // Writer ids are used once.
  ghost predicate FreshIds(s: State) {
    && (forall i: nat :: i < |s.log| && s.log[i].Inserted? ==> s.log[i].reg.id < s.nextId)
    && (forall op <- s.ops :: s.ops[op].Numbered? ==>
          s.ops[op].reg.id < s.nextId
          && forall i: nat :: i < |s.log| && s.log[i].Inserted? ==> s.log[i].reg.id != s.ops[op].reg.id)
    && (forall op, op' :: op in s.ops && op' in s.ops && op != op' && s.ops[op].Numbered? && s.ops[op'].Numbered? ==>
          s.ops[op].reg.id != s.ops[op'].reg.id)
  }

  // An insertion that has registered `reg` and has yet to notify the waiters.
  ghost predicate Announces(s: State, op: nat, reg: Registration) {
    op in s.ops && (s.ops[op].Replacing? || s.ops[op].Announcing?) && s.ops[op].reg == reg
  }

  // A sleeping waiter whose peer is registered has been notified, or is about to be.
  ghost predicate WillWake(s: State, w: nat)
    requires w in s.waiters
  {
    && (s.waiters[w].Armed? || s.waiters[w].Asleep? ==> s.waiters[w].epoch <= s.epoch)
    && (s.waiters[w].Asleep? && s.waiters[w].addr in s.maps.writers ==>
      || s.epoch > s.waiters[w].epoch
      || exists op :: Announces(s, op, s.maps.writers[s.waiters[w].addr].registration))
  }

  ghost predicate WaitersOk(s: State) { forall w <- s.waiters :: WillWake(s, w) }

  // Once the locked section of `close` has run, nothing is registered any more.
  ghost predicate Swept(s: State) {
    && (s.swept ==> s.closed && s.maps == Maps(map[], map[]))
    && (forall op <- s.ops :: s.ops[op].Signalled? ==> s.closed)
  }

  ghost predicate Consistent(s: State) { Agree(s.maps) && Tracks(s.log, s.maps) }

  ghost predicate Inv(s: State) { Consistent(s) && FreshIds(s) && NoLeak(s) && WaitersOk(s) && Swept(s) }

  lemma {:induction false} InitInv()
    ensures Inv(Init)
  {
  }

  lemma {:induction false} StepConsistent(s: State, l: Label)
    requires Inv(s) && Enabled(s, l)
    ensures Consistent(Apply(s, l))
  {
    hide Agree, Tracks, NoLeak, WaitersOk, Insert, Remove;
    match l
    case InsertLock(op) =>
      if !s.closed {
        InsertAgrees(s.maps, s.ops[op].reg, s.ops[op].sink);
        InsertTracks(s.log, s.maps, s.ops[op].reg, s.ops[op].sink);
      }
    case RemoveLock(op, addr, expected) =>
      if Removes(s.maps, addr, expected) {
        RemoveAgrees(s.maps, addr);
        RemoveTracks(s.log, s.maps, addr);
      }
    case CloseLock(_, _) =>
      ClearAgrees();
      ClearTracks(s.log);
    case _ =>
  }

  lemma {:induction false} ClearAgrees()
    ensures Agree(Maps(map[], map[]))
  {
  }

  // A step that numbers no operation and logs no registration keeps the ids fresh.
  lemma {:induction false} SameIds(s: State, s': State)
    requires FreshIds(s) && s'.nextId == s.nextId
    requires forall op <- s'.ops :: s'.ops[op].Numbered? ==> op in s.ops && s.ops[op] == s'.ops[op]
    requires s'.log == s.log || exists e: Event :: !e.Inserted? && s'.log == s.log + [e]
    ensures FreshIds(s')
  {
  }

  lemma {:induction false} StepFreshIds(s: State, l: Label)
    requires Inv(s) && Enabled(s, l)
    ensures FreshIds(Apply(s, l))
  {
    hide Consistent, NoLeak, WaitersOk, Swept, Insert, Remove;
    if l.InsertLock? {
      LockFreshIds(s, l.op);
    } else if !l.TakeId? {
      SameIds(s, Apply(s, l));
    }
  }

  // The locked section of an insertion logs the id that its operation held.
  lemma {:induction false} LockFreshIds(s: State, op: nat)
    requires FreshIds(s) && op in s.ops && s.ops[op].Numbered?
    ensures FreshIds(ApplyInsert(s, op))
  {
    hide Insert;
    var s' := ApplyInsert(s, op);
    assert forall o <- s'.ops :: s'.ops[o].Numbered? ==> o != op && o in s.ops && s.ops[o] == s'.ops[o];
    if s.closed { SameIds(s, s'); } else { assert s'.log == s.log + [Inserted(s.ops[op].reg)]; }
  }

  lemma {:induction false} StepSwept(s: State, l: Label)
    requires Inv(s) && Enabled(s, l)
    ensures Swept(Apply(s, l)) && (s.swept ==> Apply(s, l).swept) && (s.closed ==> Apply(s, l).closed)
  {
    hide Consistent, FreshIds, NoLeak, WaitersOk, Insert;
  }

  // ---------------------------------------------------------------- sinks

  lemma {:induction false} InsertedIsSink(m: Maps, reg: Registration, sink: Sink, x: Sink)
    ensures IsSink(Insert(m, reg, sink), sink)
    ensures IsSink(m, x) ==> IsSink(Insert(m, reg, sink), x) || (reg.addr in m.writers && m.writers[reg.addr].sink == x)
  {
    var m' := Insert(m, reg, sink);
    assert m'.writers[reg.addr].sink == sink;
    if a :| a in m.writers && m.writers[a].sink == x && a != reg.addr {
      assert m'.writers[a].sink == x;
    }
  }

  lemma {:induction false} RemovedIsSink(m: Maps, addr: Addr, x: Sink)
    requires addr in m.writers
    ensures IsSink(m, x) ==> IsSink(Remove(m, addr), x) || m.writers[addr].sink == x
  {
    var m' := Remove(m, addr);
    if a :| a in m.writers && m.writers[a].sink == x && a != addr {
      assert m'.writers[a].sink == x;
    }
  }

  // The operation that takes a step, if any.
  ghost predicate Moves(l: Label, op: nat) {
    && !l.SinkFails? && !l.WaitStart? && !l.WaitCheck? && !l.WaitLook? && !l.WaitArm? && !l.WaitLookAgain?
    && !l.WaitWake? && !l.WaitTimeout? && l.op == op
  }

  // What another operation holds, it still holds after the step.
  lemma {:induction false} OthersHold(s: State, l: Label, op: nat, sink: Sink)
    requires Enabled(s, l) && Holds(s, op, sink) && !Moves(l, op)
    ensures Holds(Apply(s, l), op, sink)
  {
    hide Insert, Remove;
  }

  // What the moving operation held is cancelled, registered, lost, or still held.
  lemma {:induction false} MoverAccounts(s: State, l: Label, op: nat, sink: Sink)
    requires Enabled(s, l) && Holds(s, op, sink) && Moves(l, op)
    ensures Accounted(Apply(s, l), sink)
  {
    hide Insert, Remove;
    var s' := Apply(s, l);
    if l.InsertLock? {
      InsertedIsSink(s.maps, s.ops[op].reg, s.ops[op].sink, sink);
    } else if l.CloseNext? {
      assert sink == s.ops[op].rest[0] || sink in s.ops[op].rest[1..];
    }
    assert sink in s'.cancelled || sink in s'.abandoned || IsSink(s'.maps, sink) || Holds(s', op, sink);
  }

  // What was registered is still registered, or the moving operation now holds it.
  lemma {:induction false} RegisteredAccounts(s: State, l: Label, sink: Sink)
    requires Enabled(s, l) && IsSink(s.maps, sink)
    ensures Accounted(Apply(s, l), sink)
  {
    hide Insert, Remove;
    var s' := Apply(s, l);
    if l.InsertLock? {
      InsertedIsSink(s.maps, s.ops[l.op].reg, s.ops[l.op].sink, sink);
      assert IsSink(s'.maps, sink) || Holds(s', l.op, sink);
    } else if l.RemoveLock? && Removes(s.maps, l.addr, l.expected) {
      RemovedIsSink(s.maps, l.addr, sink);
      assert IsSink(s'.maps, sink) || Holds(s', l.op, sink);
    } else if l.CloseLock? {
      assert Holds(s', l.op, sink);
    } else {
      assert s'.maps == s.maps;
    }
  }

  lemma {:induction false} StepNoLeak(s: State, l: Label)
    requires Inv(s) && Enabled(s, l)
    ensures NoLeak(Apply(s, l))
  {
    hide Consistent, FreshIds, WaitersOk, Swept, Insert, Remove, Held;
    var s' := Apply(s, l);
    forall sink | sink in s'.offered
      ensures Accounted(s', sink)
    {
      SinkAccounted(s, l, sink);
    }
  }

  lemma {:induction false} SinkAccounted(s: State, l: Label, sink: Sink)
    requires NoLeak(s) && Enabled(s, l) && sink in Apply(s, l).offered
    ensures Accounted(Apply(s, l), sink)
  {
    hide Insert, Remove;
    var s' := Apply(s, l);
    if sink !in s.offered {
      assert l.InsertStart?;
      assert sink in s'.cancelled || Holds(s', l.op, sink);
    } else if sink in s.cancelled || sink in s.abandoned {
    } else if IsSink(s.maps, sink) {
      RegisteredAccounts(s, l, sink);
    } else {
      var op :| Holds(s, op, sink);
      if Moves(l, op) {
        MoverAccounts(s, l, op, sink);
      } else {
        OthersHold(s, l, op, sink);
      }
    }
  }

  // ---------------------------------------------------------------- waiters

  lemma {:induction false} StepWaiters(s: State, l: Label)
    requires Inv(s) && Enabled(s, l)
    ensures WaitersOk(Apply(s, l))
  {
    hide Consistent, FreshIds, NoLeak, Swept, Held;
    var s' := Apply(s, l);
    forall w | w in s'.waiters
      ensures WillWake(s', w)
    {
      WaiterOk(s, l, w);
    }
  }

  lemma {:induction false} AnnouncementStays(s: State, l: Label, op: nat, reg: Registration)
    requires Enabled(s, l) && Announces(s, op, reg)
    ensures Announces(Apply(s, l), op, reg) || Apply(s, l).epoch > s.epoch
  {
    hide Insert, Remove;
  }

  lemma {:induction false} NewlyRegistered(s: State, l: Label, addr: Addr)
    requires Enabled(s, l) && addr in Apply(s, l).maps.writers
    ensures var reg := Apply(s, l).maps.writers[addr].registration;
      (addr in s.maps.writers && s.maps.writers[addr].registration == reg)
      || (l.InsertLock? && Announces(Apply(s, l), l.op, reg))
  {
  }

  lemma {:induction false} WaiterOk(s: State, l: Label, w: nat)
    requires WaitersOk(s) && Enabled(s, l) && w in Apply(s, l).waiters
    ensures WillWake(Apply(s, l), w)
  {
    hide Held, Insert, Remove;
    var s' := Apply(s, l);
    if s'.waiters[w].Asleep? && s'.waiters[w].addr in s'.maps.writers && s'.epoch <= s'.waiters[w].epoch {
      var addr := s'.waiters[w].addr;
      NewlyRegistered(s, l, addr);
      var reg := s'.maps.writers[addr].registration;
      if !(l.InsertLock? && Announces(s', l.op, reg)) {
        assert w in s.waiters && s.waiters[w] == s'.waiters[w] && addr in s.maps.writers;
        var op :| Announces(s, op, s.maps.writers[addr].registration);
        AnnouncementStays(s, l, op, reg);
      }
    }
  }

  // ---------------------------------------------------------------- runs

  lemma {:induction false} StepInv(s: State, l: Label)
    requires Inv(s) && Enabled(s, l)
    ensures Inv(Apply(s, l))
  {
    hide Consistent, FreshIds, NoLeak, WaitersOk, Swept;
    StepConsistent(s, l);
    StepFreshIds(s, l);
    StepNoLeak(s, l);
    StepWaiters(s, l);
    StepSwept(s, l);
  }

  // `s'` is reached from `s` by these steps, in any interleaving the labels describe.
  ghost predicate Run(s: State, labels: seq<Label>, s': State)
    decreases |labels|
  {
    if labels == [] then s' == s
    else Enabled(s, labels[0]) && Run(Apply(s, labels[0]), labels[1..], s')
  }

  lemma {:induction false} RunInv(s: State, labels: seq<Label>, s': State)
    requires Inv(s) && Run(s, labels, s')
    ensures Inv(s') && (s.swept ==> s'.swept)
    decreases |labels|
  {
    hide Inv, Enabled, Apply;
    if labels != [] {
      StepInv(s, labels[0]);
      if s.swept {
        SweptStays(s, labels[0]);
      }
      RunInv(Apply(s, labels[0]), labels[1..], s');
    }
  }

  lemma {:induction false} SweptStays(s: State, l: Label)
    requires Inv(s) && Enabled(s, l) && s.swept
    ensures Apply(s, l).swept
  {
    StepSwept(s, l);
  }

  // However operations interleave, once the locked section of some `close` has run the registry stays
  // empty for good; and when nothing is in flight any more, every sink ever offered has been cancelled,
  // except those a dropped `close` had yet to close.
  lemma {:induction false} ClosedForGood(labels: seq<Label>, s: State, more: seq<Label>, s': State)
    requires Run(Init, labels, s) && s.swept && Run(s, more, s')
    ensures s'.maps == Maps(map[], map[])
    ensures s'.ops == map[] ==> (s'.offered <= s'.cancelled <==> s'.abandoned * s'.offered <= s'.cancelled)
  {
    InitInv();
    RunInv(Init, labels, s);
    RunInv(s, more, s');
    if s'.ops == map[] && s'.abandoned * s'.offered <= s'.cancelled {
      forall sink | sink in s'.offered
        ensures sink in s'.cancelled
      {
        assert Accounted(s', sink);
      }
    }
  }

  lemma {:induction false} OnlyDropAbandons(s: State, l: Label)
    requires Enabled(s, l) && !l.CloseDropped?
    ensures Apply(s, l).abandoned == s.abandoned
  {
    hide Insert, Remove;
  }

  // Only a `close` dropped while it awaits loses sinks: those it had still to close.
  lemma {:induction false} OnlyDroppedCloseLoses(s: State, labels: seq<Label>, s': State)
    requires Run(s, labels, s') && forall l <- labels :: !l.CloseDropped?
    ensures s'.abandoned == s.abandoned
    decreases |labels|
  {
    hide Enabled, Apply;
    if labels != [] {
      OnlyDropAbandons(s, labels[0]);
      OnlyDroppedCloseLoses(Apply(s, labels[0]), labels[1..], s');
    }
  }

  // So without a dropped `close`, once a close has swept and nothing is in flight any more, every sink
  // ever offered has been cancelled.
  lemma {:induction false} NoSinkLeft(labels: seq<Label>, s: State)
    requires Run(Init, labels, s) && s.swept && s.ops == map[] && forall l <- labels :: !l.CloseDropped?
    ensures s.maps == Maps(map[], map[]) && s.offered <= s.cancelled
  {
    assert Run(s, [], s);
    ClosedForGood(labels, s, [], s);
    OnlyDroppedCloseLoses(Init, labels, s);
  }

  // No lost wakeup: a sleeping waiter whose peer is registered can wake, or an insertion that is about
  // to wake it is still in flight.
  lemma {:induction false} NoLostWakeup(labels: seq<Label>, s: State, w: nat)
    requires Run(Init, labels, s)
    requires w in s.waiters && s.waiters[w].Asleep? && s.waiters[w].addr in s.maps.writers
    requires forall op <- s.ops :: !Announces(s, op, s.maps.writers[s.waiters[w].addr].registration)
    ensures CanWake(s, s.waiters[w])
  {
    InitInv();
    RunInv(Init, labels, s);
    assert WillWake(s, w);
  }

  // One step of a waiter: it finds the sink registered for its peer at that moment, gives up because the
  // writer is closed or the time is up, or goes on waiting for the same peer.
  lemma {:induction false} WaiterSteps(s: State, l: Label, w: nat)
    requires Enabled(s, l) && w in s.waiters && !s.waiters[w].Found? && !s.waiters[w].GaveUp?
    ensures var s' := Apply(s, l);
      && w in s'.waiters
      && (s'.waiters[w].Found? ==>
            s.waiters[w].addr in s.maps.writers && s'.waiters[w].sink == s.maps.writers[s.waiters[w].addr].sink)
      && (s'.waiters[w].GaveUp? ==> s.closed || l == WaitTimeout(w))
      && (!s'.waiters[w].Found? && !s'.waiters[w].GaveUp? ==> s'.waiters[w].addr == s.waiters[w].addr)
  {
    hide Insert, Remove;
  }

  lemma {:induction false} OthersWait(s: State, l: Label, w: nat)
    requires Enabled(s, l)
    ensures w in s.waiters && (s.waiters[w].Found? || s.waiters[w].GaveUp?) ==>
      w in Apply(s, l).waiters && Apply(s, l).waiters[w] == s.waiters[w]
    ensures w !in s.waiters && w in Apply(s, l).waiters ==>
      l.WaitStart? && l.w == w && Apply(s, l).waiters[w] == Start(l.addr)
    ensures s.closed ==> Apply(s, l).closed
  {
    hide Insert, Remove;
  }

  lemma {:induction false} EndedWait(s: State, labels: seq<Label>, s': State, w: nat)
    requires Run(s, labels, s') && w in s.waiters && (s.waiters[w].Found? || s.waiters[w].GaveUp?)
    ensures w in s'.waiters && s'.waiters[w] == s.waiters[w]
    decreases |labels|
  {
    hide Enabled, Apply;
    if labels != [] {
      OthersWait(s, labels[0], w);
      EndedWait(Apply(s, labels[0]), labels[1..], s', w);
    }
  }

  // When the sink that a wait returned was looked up, and for which peer.
  lemma {:induction false} FoundWhen(s: State, labels: seq<Label>, s': State, w: nat)
    returns (start: nat, n: nat, mid: State)
    requires Run(s, labels, s') && w in s'.waiters && s'.waiters[w].Found?
    requires w in s.waiters ==> !s.waiters[w].Found? && !s.waiters[w].GaveUp?
    ensures n < |labels| && Run(s, labels[..n], mid)
    ensures w !in s.waiters ==> start < n && labels[start].WaitStart? && labels[start].w == w
    ensures var addr := if w in s.waiters then s.waiters[w].addr else labels[start].addr;
      addr in mid.maps.writers && mid.maps.writers[addr].sink == s'.waiters[w].sink
    decreases |labels|
  {
    hide Enabled, Apply;
    var next := Apply(s, labels[0]);
    OthersWait(s, labels[0], w);
    if w in s.waiters { WaiterSteps(s, labels[0], w); }
    if w in next.waiters && (next.waiters[w].Found? || next.waiters[w].GaveUp?) {
      EndedWait(next, labels[1..], s', w);
      start, n, mid := 0, 0, s;
    } else {
      start, n, mid := FoundWhen(next, labels[1..], s', w);
      assert labels[..n + 1][1..] == labels[1..][..n];
      if w in next.waiters && w !in s.waiters { start := 0; } else { start := start + 1; }
      n := n + 1;
    }
  }

  // A wait that returns a sink was started for some peer, and at a moment between the call and the return
  // the sink was the live registration of that peer.
  lemma {:induction false} WaitReturnsLive(labels: seq<Label>, s: State, w: nat)
    returns (start: nat, n: nat, mid: State, i: nat)
    requires Run(Init, labels, s) && w in s.waiters && s.waiters[w].Found?
    ensures start < n < |labels| && labels[start].WaitStart? && labels[start].w == w
    ensures Run(Init, labels[..n], mid) && LiveAt(mid.log, i) && mid.log[i].reg.addr == labels[start].addr
    ensures labels[start].addr in mid.maps.writers
    ensures mid.maps.writers[labels[start].addr] == Registered(mid.log[i].reg, s.waiters[w].sink)
  {
    hide Run;
    start, n, mid := FoundWhen(Init, labels, s, w);
    InitInv();
    RunInv(Init, labels[..n], mid);
    var registered := mid.maps.writers[labels[start].addr];
    i :| RegistryMaps.At(mid.log, i, registered.registration);
  }

  // A wait gives up only when the writer is closed or its time is up.
  lemma {:induction false} WaitGivesUp(s: State, labels: seq<Label>, s': State, w: nat)
    requires Run(s, labels, s') && w in s'.waiters && s'.waiters[w].GaveUp?
    requires w in s.waiters ==> !s.waiters[w].Found? && !s.waiters[w].GaveUp?
    ensures s'.closed || WaitTimeout(w) in labels
    decreases |labels|
  {
    hide Enabled, Apply;
    var next := Apply(s, labels[0]);
    OthersWait(s, labels[0], w);
    if w in s.waiters { WaiterSteps(s, labels[0], w); }
    if w in next.waiters && (next.waiters[w].Found? || next.waiters[w].GaveUp?) {
      EndedWait(next, labels[1..], s', w);
      if s.closed { ClosedStays(next, labels[1..], s'); }
    } else {
      WaitGivesUp(next, labels[1..], s', w);
    }
  }

  lemma {:induction false} ClosedStays(s: State, labels: seq<Label>, s': State)
    requires Run(s, labels, s') && s.closed
    ensures s'.closed
    decreases |labels|
  {
    hide Enabled, Apply;
    if labels != [] {
      OthersWait(s, labels[0], 0);
      ClosedStays(Apply(s, labels[0]), labels[1..], s');
    }
  }

  // At every point of every run an IP lookup finds the most recent live registration of that IP.
  lemma {:induction false} LookupInRun(labels: seq<Label>, s: State, ip: nat)
    requires Run(Init, labels, s)
    ensures SinkByIp(s.maps, ip).Some? <==> exists i: nat :: LiveAt(s.log, i) && s.log[i].reg.addr.ip == ip
    ensures SinkByIp(s.maps, ip).Some? ==> exists i: nat ::
      && LiveAt(s.log, i) && s.log[i].reg.addr.ip == ip && s.log[i].reg.addr in s.maps.writers
      && s.maps.writers[s.log[i].reg.addr] == Registered(s.log[i].reg, SinkByIp(s.maps, ip).value)
      && forall j: nat :: i < j && LiveAt(s.log, j) ==> s.log[j].reg.addr.ip != ip
  {
    InitInv();
    RunInv(Init, labels, s);
    LookupFindsLatest(s.log, s.maps, ip);
  }

  // A `close` dropped while it awaits the shutdown of one direct sink leaves the others open.
  lemma {:induction false} DroppedCloseLeaks(a: Addr, b: Addr)
    requires a != b
    ensures exists labels, s :: Run(Init, labels, s) && s.swept && s.ops == map[] && s.offered - s.cancelled != {}
  {
    hide WithoutAddr, Without, LastRegistered;
    var x, y := Sink(1, true), Sink(2, true);
    var s1 := Apply(Init, InsertStart(0, a, x));
    var s2 := Apply(s1, TakeId(0));
    var s3 := Apply(s2, InsertLock(0));
    var s4 := Apply(s3, Notify(0));
    RunInsert(Init, a, x, s4);
    var s5 := Apply(s4, InsertStart(0, b, y));
    var s6 := Apply(s5, TakeId(0));
    var s7 := Apply(s6, InsertLock(0));
    var s8 := Apply(s7, Notify(0));
    RunInsert(s4, b, y, s8);
    assert s8.maps.writers == map[a := Registered(Registration(a, 1), x), b := Registered(Registration(b, 2), y)];
    var s := RunDroppedClose(s8, a, b, x, y);
    var tail := [CloseSignal(0), CloseLock(0, [x, y]), CloseNext(0), CloseDropped(0)];
    var first := [InsertStart(0, a, x), TakeId(0), InsertLock(0), Notify(0)];
    var second := [InsertStart(0, b, y), TakeId(0), InsertLock(0), Notify(0)];
    RunAppend(s4, second, s8, tail, s);
    RunAppend(Init, first, s4, second + tail, s);
  }

  lemma {:induction false} RunAppend(s: State, labels: seq<Label>, mid: State, more: seq<Label>, s': State)
    requires Run(s, labels, mid) && Run(mid, more, s')
    ensures Run(s, labels + more, s')
    decreases |labels|
  {
    hide Enabled, Apply;
    if labels == [] {
      assert labels + more == more;
    } else {
      assert (labels + more)[1..] == labels[1..] + more;
      RunAppend(Apply(s, labels[0]), labels[1..], mid, more, s');
    }
  }

  lemma {:induction false} RunFour(s: State, s1: State, s2: State, s3: State, s4: State,
                                   l1: Label, l2: Label, l3: Label, l4: Label)
    requires Enabled(s, l1) && s1 == Apply(s, l1) && Enabled(s1, l2) && s2 == Apply(s1, l2)
    requires Enabled(s2, l3) && s3 == Apply(s2, l3) && Enabled(s3, l4) && s4 == Apply(s3, l4)
    ensures Run(s, [l1, l2, l3, l4], s4)
  {
    hide Enabled, Apply;
    assert Run(s4, [], s4);
    assert Run(s3, [l4], s4) by { assert [l4][1..] == []; }
    assert Run(s2, [l3, l4], s4) by { assert [l3, l4][1..] == [l4]; }
    assert Run(s1, [l2, l3, l4], s4) by { assert [l2, l3, l4][1..] == [l3, l4]; }
    assert [l1, l2, l3, l4][1..] == [l2, l3, l4];
  }

  lemma {:induction false} RunInsert(s: State, addr: Addr, sink: Sink, s': State)
    requires s.ops == map[] && !s.closed && sink !in s.offered && addr !in s.maps.writers
    requires s' == Apply(Apply(Apply(Apply(s, InsertStart(0, addr, sink)), TakeId(0)), InsertLock(0)), Notify(0))
    ensures Run(s, [InsertStart(0, addr, sink), TakeId(0), InsertLock(0), Notify(0)], s')
  {
    var s1 := Apply(s, InsertStart(0, addr, sink));
    var s2 := Apply(s1, TakeId(0));
    var s3 := Apply(s2, InsertLock(0));
    RunFour(s, s1, s2, s3, s', InsertStart(0, addr, sink), TakeId(0), InsertLock(0), Notify(0));
  }

  lemma {:induction false} RunDroppedClose(s: State, a: Addr, b: Addr, x: Sink, y: Sink) returns (s': State)
    requires s.ops == map[] && !s.closed && x.direct && x != y && y in s.offered && y !in s.cancelled
    requires a in s.maps.writers && b in s.maps.writers && s.maps.writers.Keys == {a, b}
    requires s.maps.writers[a].sink == x && s.maps.writers[b].sink == y
    ensures Run(s, [CloseSignal(0), CloseLock(0, [x, y]), CloseNext(0), CloseDropped(0)], s')
    ensures s'.swept && s'.ops == map[] && y in s'.offered - s'.cancelled
  {
    var s1 := Apply(s, CloseSignal(0));
    assert IsSink(s1.maps, x) && IsSink(s1.maps, y);
    var s2 := Apply(s1, CloseLock(0, [x, y]));
    var s3 := Apply(s2, CloseNext(0));
    s' := Apply(s3, CloseDropped(0));
    RunFour(s, s1, s2, s3, s', CloseSignal(0), CloseLock(0, [x, y]), CloseNext(0), CloseDropped(0));
  }
}

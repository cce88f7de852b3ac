/**
What one step of the TCP writer registry does to the registrations that are live (base/src/net/rw.rs),
in every reachable state: which of them it ends, and that no step ends another.
*/
module RegistrySteps {
  import opened Options
  import opened RegistryMaps
  import opened Registry

  // The step is the locked section of an insertion for this peer on an open writer, of a removal for it that
  // expects no id or this one, or of a close.
  predicate TakesOut(s: State, l: Label, reg: Registration) {
    match l
    case InsertLock(op) => op in s.ops && s.ops[op].Numbered? && s.ops[op].reg.addr == reg.addr && !s.closed
    case RemoveLock(_, addr, expected) => addr == reg.addr && (expected.None? || expected.value == reg.id)
    case CloseLock(_, _) => true
    case _ => false
  }

  ghost predicate Extends(log: seq<Event>, log': seq<Event>) { |log| <= |log'| && log'[..|log|] == log }

  // The history after a step: at most one event longer.
  lemma {:induction false} StepLog(s: State, l: Label)
    requires Enabled(s, l)
    ensures var log' := Apply(s, l).log;
      if l.InsertLock? && !s.closed then log' == s.log + [Inserted(s.ops[l.op].reg)]
      else if l.RemoveLock? && l.addr in s.maps.writers
              && (l.expected.None? || l.expected.value == s.maps.writers[l.addr].registration.id)
      then log' == s.log + [Unregistered(l.addr)]
      else if l.CloseLock? then log' == s.log + [Cleared]
      else log' == s.log
  {
    hide Insert, Remove;
  }

  lemma {:induction false} StepEnds(s: State, l: Label, i: nat)
    requires Consistent(s) && Enabled(s, l) && LiveAt(s.log, i)
    ensures Extends(s.log, Apply(s, l).log)
    ensures LiveAt(Apply(s, l).log, i) <==> !TakesOut(s, l, s.log[i].reg)
  {
    hide Insert, Remove, Apply, Agree;
    StepLog(s, l);
    var reg, log' := s.log[i].reg, Apply(s, l).log;
    assert reg.addr in s.maps.writers && s.maps.writers[reg.addr].registration == reg;
    if log' != s.log {
      LiveAfter(s.log, log'[|s.log|], i);
    }
  }

  // In every reachable state a step ends a live registration if and only if it is one of those; and what it
  // does not end keeps its sink.
  lemma {:induction false} EndsExactly(labels: seq<Label>, s: State, l: Label, i: nat)
    requires Run(Init, labels, s) && Enabled(s, l) && LiveAt(s.log, i)
    ensures var s', reg := Apply(s, l), s.log[i].reg;
      && Extends(s.log, s'.log) && (LiveAt(s'.log, i) <==> !TakesOut(s, l, reg))
      && reg.addr in s.maps.writers
      && (!TakesOut(s, l, reg) ==>
            reg.addr in s'.maps.writers && s'.maps.writers[reg.addr] == s.maps.writers[reg.addr])
  {
    hide Run, Enabled, Agree, Tracks, FreshIds, NoLeak, WaitersOk, Swept;
    Reached(labels, s);
    StepEnds(s, l, i);
    LiveIsRegistered(s, i);
    if !TakesOut(s, l, s.log[i].reg) {
      SinkStays(s, l, s.log[i].reg.addr);
    }
  }

  lemma {:induction false} Reached(labels: seq<Label>, s: State)
    requires Run(Init, labels, s)
    ensures Inv(s)
  {
    hide Inv, Run;
    InitInv();
    RunInv(Init, labels, s);
  }

  lemma {:induction false} LiveIsRegistered(s: State, i: nat)
    requires Consistent(s) && LiveAt(s.log, i)
    ensures s.log[i].reg.addr in s.maps.writers && s.maps.writers[s.log[i].reg.addr].registration == s.log[i].reg
  {
  }

  lemma {:induction false} SinkStays(s: State, l: Label, addr: Addr)
    requires Enabled(s, l) && addr in s.maps.writers && !TakesOut(s, l, s.maps.writers[addr].registration)
    requires s.maps.writers[addr].registration.addr == addr
    ensures addr in Apply(s, l).maps.writers && Apply(s, l).maps.writers[addr] == s.maps.writers[addr]
  {
  }

  // ---------------------------------------------------------------- ids are used once

  ghost predicate IdsOnce(log: seq<Event>) {
    forall i, j :: 0 <= i < j < |log| && log[i].Inserted? && log[j].Inserted? ==> log[i].reg.id != log[j].reg.id
  }

  lemma {:induction false} StepIds(s: State, l: Label)
    requires FreshIds(s) && IdsOnce(s.log) && Enabled(s, l)
    ensures IdsOnce(Apply(s, l).log)
  {
    hide Insert, Remove, Apply;
    StepLog(s, l);
  }

  lemma {:induction false} RunIds(s: State, labels: seq<Label>, s': State)
    requires Inv(s) && IdsOnce(s.log) && Run(s, labels, s')
    ensures IdsOnce(s'.log)
    decreases |labels|
  {
    hide Consistent, FreshIds, NoLeak, WaitersOk, Swept, IdsOnce, Enabled, Apply;
    if labels != [] {
      StepInv(s, labels[0]);
      StepIds(s, labels[0]);
      RunIds(Apply(s, labels[0]), labels[1..], s');
    }
  }

  // A registration that removes itself by its id never takes out another one: not the one that replaced it,
  // and no other peer's.
  lemma {:induction false} OldGenerationHarmless(labels: seq<Label>, s: State, op: nat, i: nat, j: nat)
    requires Run(Init, labels, s) && i < |s.log| && s.log[i].Inserted? && op !in s.ops
    requires LiveAt(s.log, j) && j != i
    ensures var s', reg := Apply(s, RemoveLock(op, s.log[i].reg.addr, Some(s.log[i].reg.id))), s.log[j].reg;
      && Extends(s.log, s'.log) && LiveAt(s'.log, j)
      && reg.addr in s'.maps.writers && s'.maps.writers[reg.addr] == s.maps.writers[reg.addr]
  {
    hide Run, Enabled, Apply, Inv;
    InitInv();
    RunIds(Init, labels, s);
    assert s.log[i].reg.id != s.log[j].reg.id;
    var l := RemoveLock(op, s.log[i].reg.addr, Some(s.log[i].reg.id));
    assert Enabled(s, l) by { CanRemove(s, op, s.log[i].reg.addr, Some(s.log[i].reg.id)); }
    EndsExactly(labels, s, l, j);
  }

  lemma {:induction false} CanRemove(s: State, op: nat, addr: Addr, expected: Option<nat>)
    requires op !in s.ops
    ensures Enabled(s, RemoveLock(op, addr, expected))
  {
  }

  // The step takes the sink out in order to close it, or does nothing at all.
  lemma {:induction false} RemovalCloses(s: State, op: nat, addr: Addr, expected: Option<nat>)
    requires op !in s.ops
    ensures var s' := Apply(s, RemoveLock(op, addr, expected));
      if addr in s.maps.writers && (expected.None? || expected.value == s.maps.writers[addr].registration.id) then
        addr !in s'.maps.writers && s'.ops == s.ops[op := Removing(s.maps.writers[addr].sink)]
      else s' == s
  {
    hide WithoutAddr, Without;
  }

  // ---------------------------------------------------------------- notifications

  function Notifications(labels: seq<Label>): nat {
    if labels == [] then 0 else (if labels[0].Notify? then 1 else 0) + Notifications(labels[1..])
  }

  lemma {:induction false} NotifiedOnce(labels: seq<Label>)
    ensures Notifications(labels) > 0 <==> exists op :: Notify(op) in labels
  {
    if labels != [] {
      NotifiedOnce(labels[1..]);
      assert forall l :: l in labels <==> l == labels[0] || l in labels[1..];
      if labels[0].Notify? { assert labels[0] == Notify(labels[0].op); }
    }
  }

  // No step of the waiter itself but its second look.
  predicate OnlyLooks(l: Label, w: nat) { !WaitStep(l, w) || l.WaitLookAgain? }

  lemma {:induction false} StepArmed(s: State, l: Label, w: nat)
    requires Enabled(s, l) && w in s.waiters && OnlyLooks(l, w)
    ensures var s' := Apply(s, l);
      && s'.epoch == s.epoch + Notifications([l]) && w in s'.waiters
      && (s'.waiters[w].Armed? || s'.waiters[w].Asleep? ==>
            (s.waiters[w].Armed? || s.waiters[w].Asleep?) && s'.waiters[w].epoch == s.waiters[w].epoch)
  {
    hide Insert, Remove;
    assert [l][1..] == [];
  }

  lemma {:induction false} RunArmed(s: State, labels: seq<Label>, s': State, w: nat)
    requires w in s.waiters && Run(s, labels, s') && forall l <- labels :: OnlyLooks(l, w)
    requires w in s'.waiters && s'.waiters[w].Asleep?
    ensures s'.epoch == s.epoch + Notifications(labels)
    ensures (s.waiters[w].Armed? || s.waiters[w].Asleep?) && s'.waiters[w].epoch == s.waiters[w].epoch
    decreases |labels|
  {
    hide Enabled, Apply;
    if labels != [] {
      assert labels[0] in labels && forall l <- labels[1..] :: l in labels;
      StepArmed(s, labels[0], w);
      assert [labels[0]][1..] == [];
      RunArmed(Apply(s, labels[0]), labels[1..], s', w);
    }
  }

  // A waiter that went to sleep can wake if and only if the writer was closed, or some insertion has notified
  // the waiters since it created its notification; before its second look at the registry, that is.
  lemma {:induction false} WakesExactly(s: State, labels: seq<Label>, s': State, w: nat)
    requires Enabled(s, WaitArm(w)) && Run(Apply(s, WaitArm(w)), labels, s')
    requires (forall l <- labels :: OnlyLooks(l, w)) && w in s'.waiters && s'.waiters[w].Asleep?
    ensures Enabled(s', WaitWake(w)) <==> s'.closed || exists op :: Notify(op) in labels
  {
    RunArmed(Apply(s, WaitArm(w)), labels, s', w);
    NotifiedOnce(labels);
  }

  // ---------------------------------------------------------------- a closed writer

  lemma {:induction false} ClosedStep(s: State, l: Label)
    requires Enabled(s, l) && s.closed
    ensures var s' := Apply(s, l);
      && s'.closed && s'.maps.writers.Keys <= s.maps.writers.Keys
      && forall a <- s'.maps.writers :: s'.maps.writers[a] == s.maps.writers[a]
  {
    hide WithoutAddr, Without;
  }

  // Once a close has begun, and before it has emptied the registry too, nothing is registered any more.
  lemma {:induction false} ClosedRegistersNone(s: State, labels: seq<Label>, s': State)
    requires s.closed && Run(s, labels, s')
    ensures s'.closed && s'.maps.writers.Keys <= s.maps.writers.Keys
    ensures forall a <- s'.maps.writers :: s'.maps.writers[a] == s.maps.writers[a]
    decreases |labels|
  {
    hide Enabled, Apply;
    if labels != [] {
      ClosedStep(s, labels[0]);
      ClosedRegistersNone(Apply(s, labels[0]), labels[1..], s');
    }
  }

  // The steps of one call of `wait_tcp_sink`.
  predicate WaitStep(l: Label, w: nat) {
    match l
    case WaitCheck(x) => x == w
    case WaitLook(x) => x == w
    case WaitArm(x) => x == w
    case WaitLookAgain(x) => x == w
    case WaitWake(x) => x == w
    case WaitTimeout(x) => x == w
    case _ => false
  }

  function StepsOf(labels: seq<Label>, w: nat): nat {
    if labels == [] then 0 else (if WaitStep(labels[0], w) then 1 else 0) + StepsOf(labels[1..], w)
  }

  // How many steps a wait still takes at most once the writer is closed.
  function StepsLeft(w: Waiter): nat {
    match w
    case Open(_) => 4
    case Absent(_) => 3
    case Armed(_, _) => 2
    case Asleep(_, _) => 1
    case Start(_) => 1
    case Found(_) => 0
    case GaveUp => 0
  }

  lemma {:induction false} ClosedWaitStep(s: State, l: Label, w: nat)
    requires Enabled(s, l) && s.closed && w in s.waiters
    ensures var s' := Apply(s, l);
      && s'.closed && w in s'.waiters
      && (if WaitStep(l, w) then StepsLeft(s'.waiters[w]) < StepsLeft(s.waiters[w])
          else s'.waiters[w] == s.waiters[w])
  {
    hide Insert, Remove;
  }

  // A wait ends within four of its own steps once the writer is closed, and a sleeping one can take its
  // next step at once.
  lemma {:induction false} ClosedWaitEnds(s: State, labels: seq<Label>, s': State, w: nat)
    requires s.closed && w in s.waiters && Run(s, labels, s')
    ensures w in s'.waiters && StepsOf(labels, w) <= 4
    ensures StepsOf(labels, w) == 4 ==> s'.waiters[w].Found? || s'.waiters[w].GaveUp?
    ensures s'.waiters[w].Asleep? ==> Enabled(s', WaitWake(w))
  {
    ClosedWaitFrom(s, labels, s', w);
    ClosedRegistersNone(s, labels, s');
  }

  lemma {:induction false} ClosedWaitFrom(s: State, labels: seq<Label>, s': State, w: nat)
    requires s.closed && w in s.waiters && Run(s, labels, s')
    ensures w in s'.waiters && StepsOf(labels, w) + StepsLeft(s'.waiters[w]) <= StepsLeft(s.waiters[w])
    decreases |labels|
  {
    hide Enabled, Apply;
    if labels != [] {
      ClosedWaitStep(s, labels[0], w);
      ClosedWaitFrom(Apply(s, labels[0]), labels[1..], s', w);
    }
  }
}

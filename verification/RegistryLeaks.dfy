/**
Which sinks stay open after `close` of the TCP writer registry (base/src/net/rw.rs): the places a sink
goes through in a run, one at a time.
*/
module RegistryLeaks {
  import opened Options
  import opened RegistryMaps
  import opened Registry

  // Where an offered sink is: registered, held by an operation, closed, or given up by a dropped `close`.
  datatype Spot = InMap(addr: Addr) | HeldBy(op: nat) | Closed | Lost

  type Spots = map<Sink, Spot>

  function AfterInsert(s: State, m: Spots, op: nat): Spots
    requires op in s.ops && s.ops[op].Numbered?
  {
    var addr, sink := s.ops[op].reg.addr, s.ops[op].sink;
    if s.closed then m[sink := Closed]
    else if addr in s.maps.writers then m[s.maps.writers[addr].sink := HeldBy(op)][sink := InMap(addr)]
    else m[sink := InMap(addr)]
  }

  // All of these sinks move.
  function MoveAll(m: Spots, sinks: seq<Sink>, spot: Spot): Spots {
    map x | x in m :: if x in sinks then spot else m[x]
  }

  ghost function After(s: State, m: Spots, l: Label): Spots
    requires Enabled(s, l)
  {
    match l
    case InsertStart(op, _, sink) => m[sink := if s.closed then Closed else HeldBy(op)]
    case InsertLock(op) => AfterInsert(s, m, op)
    case CloseReplaced(op) => m[s.ops[op].replaced := Closed]
    case RemoveLock(op, addr, expected) =>
      if Removes(s.maps, addr, expected) then m[s.maps.writers[addr].sink := HeldBy(op)] else m
    case CloseRemoved(op) => m[s.ops[op].sink := Closed]
    case CloseLock(op, order) => MoveAll(m, order, HeldBy(op))
    case CloseNext(op) => m[s.ops[op].rest[0] := Closed]
    case CloseDropped(op) => MoveAll(m, s.ops[op].rest, Lost)
    case _ => m
  }

  ghost predicate RegisteredAt(s: State, a: Addr, x: Sink) { a in s.maps.writers && s.maps.writers[a].sink == x }

  // The spots tell where x is; only a failure of its own cancels it before it is closed.
  ghost predicate SpotOk(s: State, m: Spots, failed: set<Sink>, x: Sink) {
    && (x in s.offered <==> x in m)
    && (forall a :: RegisteredAt(s, a, x) <==> x in m && m[x] == InMap(a))
    && (forall op :: Holds(s, op, x) <==> op in s.ops && x in m && m[x] == HeldBy(op))
    && (x in m && m[x].HeldBy? ==> m[x].op in s.ops)
    && (x in m && m[x].Closed? ==> x in s.cancelled)
    && (x in s.cancelled && !(x in m && m[x].Closed?) ==> x in failed)
    && (x in failed ==> x in s.cancelled)
  }

  // A sink waits once in the list of a `close`.
  ghost predicate RestsOk(s: State) {
    forall op <- s.ops :: s.ops[op].Draining? || s.ops[op].Awaiting? ==> Distinct(s.ops[op].rest)
  }

  ghost predicate LeakInv(s: State, m: Spots, failed: set<Sink>) {
    RestsOk(s) && forall x :: SpotOk(s, m, failed, x)
  }

  function Failures(failed: set<Sink>, l: Label): set<Sink> { if l.SinkFails? then failed + {l.sink} else failed }

  lemma {:induction false} StepRests(s: State, l: Label)
    requires Enabled(s, l) && RestsOk(s)
    ensures RestsOk(Apply(s, l))
  {
    hide Insert, Remove, Removes;
  }

  // A step that leaves x where it is.
  lemma {:induction false} SameSpot(s: State, s': State, m: Spots, m': Spots, f: set<Sink>, f': set<Sink>, x: Sink)
    requires SpotOk(s, m, f, x)
    requires (x in s'.offered <==> x in s.offered) && (x in m' <==> x in m) && (x in m ==> m'[x] == m[x])
    requires forall a :: RegisteredAt(s', a, x) <==> RegisteredAt(s, a, x)
    requires forall op :: Holds(s', op, x) <==> Holds(s, op, x)
    requires x in m && m[x].HeldBy? ==> m[x].op in s'.ops
    requires (x in s.cancelled ==> x in s'.cancelled) && (x in s'.cancelled ==> x in s.cancelled || x in f')
    requires x in f ==> x in f'
    requires x in f' ==> x in s'.cancelled
    ensures SpotOk(s', m', f', x)
  {
  }

  // A sink is held by one operation, and then registered nowhere.
  lemma {:induction false} HeldOnce(s: State, m: Spots, failed: set<Sink>, op: nat, x: Sink)
    requires SpotOk(s, m, failed, x) && Holds(s, op, x)
    ensures x in m && m[x] == HeldBy(op) && x in s.offered
    ensures forall o :: Holds(s, o, x) ==> o == op
    ensures forall a :: !RegisteredAt(s, a, x)
  {
  }

  lemma {:induction false} StartSpot(s: State, m: Spots, f: set<Sink>, l: Label, x: Sink)
    requires Enabled(s, l) && l.InsertStart? && SpotOk(s, m, f, x)
    ensures SpotOk(Apply(s, l), After(s, m, l), f, x)
  {
    if x != l.sink { SameSpot(s, Apply(s, l), m, After(s, m, l), f, f, x); }
  }

  lemma {:induction false} LockSpot(s: State, m: Spots, f: set<Sink>, op: nat, x: Sink)
    requires op in s.ops && s.ops[op].Numbered? && SpotOk(s, m, f, x) && SpotOk(s, m, f, s.ops[op].sink)
    requires s.ops[op].reg.addr in s.maps.writers ==> SpotOk(s, m, f, s.maps.writers[s.ops[op].reg.addr].sink)
    ensures SpotOk(ApplyInsert(s, op), AfterInsert(s, m, op), f, x)
  {
    var s', m', sink, addr := ApplyInsert(s, op), AfterInsert(s, m, op), s.ops[op].sink, s.ops[op].reg.addr;
    assert Holds(s, op, sink);
    if s.closed {
      assert forall a :: RegisteredAt(s', a, x) <==> RegisteredAt(s, a, x);
    } else {
      assert forall a :: RegisteredAt(s', a, x) <==> if a == addr then x == sink else RegisteredAt(s, a, x);
      if addr in s.maps.writers { assert RegisteredAt(s, addr, s.maps.writers[addr].sink); }
    }
  }

  lemma {:induction false} ReplacedSpot(s: State, m: Spots, f: set<Sink>, l: Label, x: Sink)
    requires Enabled(s, l) && l.CloseReplaced? && SpotOk(s, m, f, x)
    ensures SpotOk(Apply(s, l), After(s, m, l), f, x)
  {
    assert forall a :: RegisteredAt(Apply(s, l), a, x) <==> RegisteredAt(s, a, x);
    if x == s.ops[l.op].replaced { assert Holds(s, l.op, x); }
  }

  lemma {:induction false} RemoveSpot(s: State, m: Spots, f: set<Sink>, l: Label, x: Sink)
    requires Enabled(s, l) && l.RemoveLock? && Removes(s.maps, l.addr, l.expected) && SpotOk(s, m, f, x)
    ensures SpotOk(Apply(s, l), After(s, m, l), f, x)
  {
    var s', sink := Apply(s, l), s.maps.writers[l.addr].sink;
    assert forall a :: RegisteredAt(s', a, x) <==> a != l.addr && RegisteredAt(s, a, x);
    if x == sink { assert RegisteredAt(s, l.addr, x); }
  }

  lemma {:induction false} RemovedSpot(s: State, m: Spots, f: set<Sink>, l: Label, x: Sink)
    requires Enabled(s, l) && l.CloseRemoved? && SpotOk(s, m, f, x)
    ensures SpotOk(Apply(s, l), After(s, m, l), f, x)
  {
    assert forall a :: RegisteredAt(Apply(s, l), a, x) <==> RegisteredAt(s, a, x);
    if x == s.ops[l.op].sink { assert Holds(s, l.op, x); }
  }

  lemma {:induction false} SweepSpot(s: State, m: Spots, f: set<Sink>, l: Label, x: Sink)
    requires Enabled(s, l) && l.CloseLock? && SpotOk(s, m, f, x)
    ensures SpotOk(Apply(s, l), After(s, m, l), f, x)
  {
    if x in l.order {
      assert IsSink(s.maps, x);
      var a :| a in s.maps.writers && s.maps.writers[a].sink == x;
      assert RegisteredAt(s, a, x);
    } else {
      assert forall a :: !RegisteredAt(s, a, x);
    }
  }

  lemma {:induction false} NextSpot(s: State, m: Spots, f: set<Sink>, l: Label, x: Sink)
    requires Enabled(s, l) && l.CloseNext? && RestsOk(s) && SpotOk(s, m, f, x)
    ensures SpotOk(Apply(s, l), After(s, m, l), f, x)
  {
    var rest := s.ops[l.op].rest;
    assert Distinct(rest);
    assert x in rest <==> x == rest[0] || x in rest[1..];
    assert rest[0] !in rest[1..];
    assert forall a :: RegisteredAt(Apply(s, l), a, x) <==> RegisteredAt(s, a, x);
    if x == rest[0] { assert Holds(s, l.op, x); }
  }

  lemma {:induction false} DroppedSpot(s: State, m: Spots, f: set<Sink>, l: Label, x: Sink)
    requires Enabled(s, l) && l.CloseDropped? && SpotOk(s, m, f, x)
    ensures SpotOk(Apply(s, l), After(s, m, l), f, x)
  {
    assert forall a :: RegisteredAt(Apply(s, l), a, x) <==> RegisteredAt(s, a, x);
    if x in s.ops[l.op].rest { assert Holds(s, l.op, x); }
  }

  lemma {:induction false} QuietSpot(s: State, m: Spots, f: set<Sink>, l: Label, x: Sink)
    requires Enabled(s, l) && SpotOk(s, m, f, x)
    requires !l.InsertStart? && !l.InsertLock? && !l.CloseReplaced? && !l.CloseRemoved? && !l.CloseLock?
    requires !l.CloseNext? && !l.CloseDropped?
    requires l.RemoveLock? ==> !Removes(s.maps, l.addr, l.expected)
    ensures SpotOk(Apply(s, l), After(s, m, l), Failures(f, l), x)
  {
    hide SpotOk, Insert, Remove, Removes;
    var s' := Apply(s, l);
    assert forall op :: Holds(s', op, x) <==> Holds(s, op, x);
    SameSpot(s, s', m, After(s, m, l), f, Failures(f, l), x) by { HoldersStay(s, l, m, f, x); }
  }

  lemma {:induction false} HoldersStay(s: State, l: Label, m: Spots, f: set<Sink>, x: Sink)
    requires Enabled(s, l) && SpotOk(s, m, f, x)
    ensures x in f ==> x in s.cancelled
    ensures x in m && m[x].HeldBy? ==> Holds(s, m[x].op, x)
  {
  }

  lemma {:induction false} StepSpot(s: State, m: Spots, failed: set<Sink>, l: Label, x: Sink)
    requires Enabled(s, l) && LeakInv(s, m, failed)
    ensures SpotOk(Apply(s, l), After(s, m, l), Failures(failed, l), x)
  {
    hide Removes, SpotOk, Apply, After;
    assert SpotOk(s, m, failed, x);
    if l.InsertStart? {
      StartSpot(s, m, failed, l, x);
    } else if l.InsertLock? {
      LockIs(s, m, l);
      LockSpot(s, m, failed, l.op, x);
    } else if l.CloseReplaced? {
      ReplacedSpot(s, m, failed, l, x);
    } else if l.RemoveLock? && Removes(s.maps, l.addr, l.expected) {
      RemoveSpot(s, m, failed, l, x);
    } else if l.CloseRemoved? {
      RemovedSpot(s, m, failed, l, x);
    } else if l.CloseLock? {
      SweepSpot(s, m, failed, l, x);
    } else if l.CloseNext? {
      NextSpot(s, m, failed, l, x);
    } else if l.CloseDropped? {
      DroppedSpot(s, m, failed, l, x);
    } else {
      QuietSpot(s, m, failed, l, x);
    }
  }

  lemma {:induction false} LockIs(s: State, m: Spots, l: Label)
    requires Enabled(s, l) && l.InsertLock?
    ensures Apply(s, l) == ApplyInsert(s, l.op) && After(s, m, l) == AfterInsert(s, m, l.op)
  {
  }

  lemma {:induction false} StepLeakInv(s: State, m: Spots, failed: set<Sink>, l: Label)
    requires Enabled(s, l) && LeakInv(s, m, failed)
    ensures LeakInv(Apply(s, l), After(s, m, l), Failures(failed, l))
  {
    hide Enabled, Apply, After, SpotOk, RestsOk;
    StepRests(s, l);
    forall x ensures SpotOk(Apply(s, l), After(s, m, l), Failures(failed, l), x) { StepSpot(s, m, failed, l, x); }
  }

  // ---------------------------------------------------------------- whole runs

  // Some `close` is dropped at its await while it has x still to close.
  ghost predicate GivenUp(s: State, labels: seq<Label>, x: Sink)
    decreases |labels|
  {
    && labels != [] && Enabled(s, labels[0])
    && (GivesUp(s, labels[0], x) || GivenUp(Apply(s, labels[0]), labels[1..], x))
  }

  ghost predicate GivesUp(s: State, l: Label, x: Sink)
    requires Enabled(s, l)
  {
    l.CloseDropped? && x in s.ops[l.op].rest
  }

  ghost predicate IsLost(m: Spots, x: Sink) { x in m && m[x].Lost? }

  lemma {:induction false} StepLost(s: State, m: Spots, failed: set<Sink>, l: Label, x: Sink)
    requires Enabled(s, l) && LeakInv(s, m, failed)
    ensures IsLost(After(s, m, l), x) <==> IsLost(m, x) || GivesUp(s, l, x)
  {
    assert SpotOk(s, m, failed, x);
    if l.InsertLock? {
      assert Holds(s, l.op, x) ==> x in m && m[x] == HeldBy(l.op);
      var addr := s.ops[l.op].reg.addr;
      assert RegisteredAt(s, addr, x) ==> x in m && m[x] == InMap(addr);
    } else if l.CloseReplaced? || l.CloseRemoved? || l.CloseNext? || l.CloseDropped? {
      assert Holds(s, l.op, x) ==> x in m && m[x] == HeldBy(l.op);
    } else if l.RemoveLock? {
      assert RegisteredAt(s, l.addr, x) ==> x in m && m[x] == InMap(l.addr);
    }
    if l.CloseLock? && x in l.order {
      assert IsSink(s.maps, x);
      var a :| a in s.maps.writers && s.maps.writers[a].sink == x;
      assert RegisteredAt(s, a, x);
    }
  }

  lemma {:induction false} RunSpots(s: State, m: Spots, failed: set<Sink>, labels: seq<Label>, s': State, x: Sink)
    returns (m': Spots, failed': set<Sink>)
    requires LeakInv(s, m, failed) && Run(s, labels, s')
    ensures LeakInv(s', m', failed')
    ensures IsLost(m', x) <==> IsLost(m, x) || GivenUp(s, labels, x)
    ensures x in failed' <==> x in failed || SinkFails(x) in labels
    decreases |labels|
  {
    hide LeakInv, Enabled, Apply, After, IsLost, GivesUp;
    if labels == [] {
      m', failed' := m, failed;
    } else {
      StepLeakInv(s, m, failed, labels[0]);
      StepLost(s, m, failed, labels[0], x);
      var next, m1, failed1 := Apply(s, labels[0]), After(s, m, labels[0]), Failures(failed, labels[0]);
      m', failed' := RunSpots(next, m1, failed1, labels[1..], s', x);
      assert SinkFails(x) in labels <==> labels[0] == SinkFails(x) || SinkFails(x) in labels[1..];
    }
  }

  lemma {:induction false} InitSpots()
    ensures LeakInv(Init, map[], {})
  {
  }

  // A sink that is registered is registered for one peer, no operation in flight holds it, and the registry
  // has not closed it: it is cancelled if and only if it failed by itself.
  lemma {:induction false} RegisteredIsOpen(labels: seq<Label>, s: State, a: Addr)
    requires Run(Init, labels, s) && a in s.maps.writers
    ensures var x := s.maps.writers[a].sink;
      && (x in s.cancelled <==> SinkFails(x) in labels)
      && (forall b :: b in s.maps.writers && b != a ==> s.maps.writers[b].sink != x)
      && (forall op :: !Holds(s, op, x))
  {
    hide Run, Enabled, Apply, Holds;
    InitSpots();
    var x := s.maps.writers[a].sink;
    var m, failed := RunSpots(Init, map[], {}, labels, s, x);
    assert SpotOk(s, m, failed, x);
    assert RegisteredAt(s, a, x);
    assert forall b :: b in s.maps.writers && s.maps.writers[b].sink == x ==> RegisteredAt(s, b, x);
  }

  // Once a close has swept and nothing is in flight any more, an offered sink is open if and only if some
  // close was dropped at its await with the sink still to close, and the sink never failed by itself.
  lemma {:induction false} OpenExactly(labels: seq<Label>, s: State, x: Sink)
    requires Run(Init, labels, s) && s.swept && s.ops == map[] && x in s.offered
    ensures x !in s.cancelled <==> GivenUp(Init, labels, x) && SinkFails(x) !in labels
  {
    hide Run, Enabled, Apply;
    InitSpots();
    var m, failed := RunSpots(Init, map[], {}, labels, s, x);
    assert s.maps == Maps(map[], map[]) by { Emptied(labels, s); }
    assert SpotOk(s, m, failed, x);
    assert m[x].InMap? ==> RegisteredAt(s, m[x].addr, x);
  }

  // A close awaits the shutdown of direct sinks and of no others.
  ghost predicate AwaitsDirect(s: State) { forall op <- s.ops :: s.ops[op].Awaiting? ==> DirectOffered(s) }

  ghost predicate DirectOffered(s: State) { exists x :: x in s.offered && x.direct }

  lemma {:induction false} StepAwaits(s: State, m: Spots, failed: set<Sink>, l: Label)
    requires Enabled(s, l) && LeakInv(s, m, failed) && AwaitsDirect(s)
    ensures AwaitsDirect(Apply(s, l)) && (DirectOffered(s) ==> DirectOffered(Apply(s, l)))
  {
    hide Insert, Remove, Removes, RestsOk;
    if l.CloseNext? {
      var x := s.ops[l.op].rest[0];
      assert Holds(s, l.op, x) && SpotOk(s, m, failed, x);
    }
  }

  lemma {:induction false} NeverAwaits(s: State, m: Spots, failed: set<Sink>, labels: seq<Label>, s': State, x: Sink)
    requires LeakInv(s, m, failed) && AwaitsDirect(s) && Run(s, labels, s')
    ensures DirectOffered(s) || GivenUp(s, labels, x) ==> DirectOffered(s')
    decreases |labels|
  {
    hide LeakInv, Enabled, Apply, After, DirectOffered;
    if labels != [] {
      StepLeakInv(s, m, failed, labels[0]);
      StepAwaits(s, m, failed, labels[0]);
      GivingUpAwaits(s, labels[0], x);
      var next, m1, failed1 := Apply(s, labels[0]), After(s, m, labels[0]), Failures(failed, labels[0]);
      NeverAwaits(next, m1, failed1, labels[1..], s', x);
    }
  }

  lemma {:induction false} GivingUpAwaits(s: State, l: Label, x: Sink)
    requires Enabled(s, l) && AwaitsDirect(s)
    ensures GivesUp(s, l, x) ==> DirectOffered(s)
  {
    hide DirectOffered;
  }

  // So with queued sinks alone no sink is left open, whatever is dropped.
  lemma {:induction false} QueuedNeverLeak(labels: seq<Label>, s: State)
    requires Run(Init, labels, s) && s.swept && s.ops == map[] && forall x <- s.offered :: !x.direct
    ensures s.offered <= s.cancelled
  {
    hide Run, Enabled, Apply;
    InitSpots();
    forall x | x in s.offered
      ensures x in s.cancelled
    {
      OpenExactly(labels, s, x);
      NeverAwaits(Init, map[], {}, labels, s, x);
    }
  }

  lemma {:induction false} Emptied(labels: seq<Label>, s: State)
    requires Run(Init, labels, s) && s.swept
    ensures s.maps == Maps(map[], map[])
  {
    assert Run(s, [], s);
    ClosedForGood(labels, s, [], s);
  }
}

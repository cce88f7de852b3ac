/**
Connection attempts of a managed endpoint (base/src/net/rw.rs): when one starts, what a cancelled endpoint
still registers, and that no attempt leaves a connection behind that nobody closes.
*/
module ManagedAttempts {
  import opened Options
  import opened ManagedClose

  // An attempt starts if and only if the endpoint is not cancelled, no writer is registered for the peer and
  // no other attempt to the peer is in flight; otherwise nothing changes.
  lemma {:induction false} StartsExactly(labels: seq<Label>, s: State, op: nat, addr: nat, hasWriter: bool)
    requires Run(Init, labels, s) && op !in s.ops
    ensures var s' := Apply(s, ConnectStart(op, addr, hasWriter));
      if !s.end.cancelled && !hasWriter && forall o <- s.ops :: Attempts(s.ops[o]) ==> s.ops[o].addr != addr then
        s'.ops == s.ops[op := Connecting(addr)] && s'.book == s.book && s'.end == s.end
      else s' == s
  {
    hide Run, ConnsOk, AttemptsFresh, EndOk, OwnersOk, SumOk, ActiveOk, DrainedOk;
    Reached(labels, s);
    if o :| o in s.ops && Attempts(s.ops[o]) && s.ops[o].addr == addr {
      assert Reserves(s, o, addr);
    }
  }

  // ---------------------------------------------------------------- a cancelled endpoint

  lemma {:induction false} CancelledStep(s: State, l: Label)
    requires Enabled(s, l) && s.end.cancelled
    ensures var s' := Apply(s, l);
      && s'.end.cancelled && s'.book.registered == s.book.registered
      && (forall op <- s'.ops :: s'.ops[op].Connecting? ==> op in s.ops && s'.ops[op] == s.ops[op])
  {
    hide HoldsEnd, Attempts, Suspended, CloserReady, CloserStep, RootRecorded;
    if l.ConnectAbort? || l.CloseStep? || l.EndStep? {
      CloserKeeps(s.book, l.op, CloserOf(s.ops[l.op]));
    }
  }

  lemma {:induction false} CloserKeeps(b: Book, op: nat, k: Closer)
    requires CloserReady(b, k)
    ensures CloserStep(b, op, k).0.registered == b.registered
  {
  }

  // Once an endpoint is cancelled it registers no connection and starts no attempt, ever.
  lemma {:induction false} CancelledRegistersNone(s: State, labels: seq<Label>, s': State)
    requires s.end.cancelled && Run(s, labels, s')
    ensures s'.end.cancelled && s'.book.registered == s.book.registered
    ensures forall op <- s'.ops :: s'.ops[op].Connecting? ==> op in s.ops && s.ops[op] == s'.ops[op]
    decreases |labels|
  {
    hide Enabled, Apply;
    if labels != [] {
      CancelledStep(s, labels[0]);
      CancelledRegistersNone(Apply(s, labels[0]), labels[1..], s');
    }
  }

  // ---------------------------------------------------------------- no connection is left behind

  // The attempt has a connection that is not registered, and has yet to close or register it.
  ghost predicate Carries(s: State, op: nat, c: nat) {
    op in s.ops && PcCarries(s.ops[op], c)
  }

  predicate PcCarries(pc: Pc, c: nat) {
    match pc
    case Spawned(_, conn) => conn == c
    case Ready(_, conn) => conn == c
    case Aborting(_, k) => (k.Want? || k.Await?) && k.conn == c
    case _ => false
  }

  ghost predicate KeptAt(s: State, c: nat) {
    c in s.book.conns ==> c in s.book.registered || s.book.conns[c].completed || exists op :: Carries(s, op, c)
  }

  ghost predicate NoOrphan(s: State) { forall c: nat :: KeptAt(s, c) }

  // What registers or completes stays so.
  ghost predicate KeepsConn(b: Book, b': Book, c: nat)
    requires c in b.conns
  {
    c in b'.conns && b.registered <= b'.registered && (b.conns[c].completed ==> b'.conns[c].completed)
  }

  lemma {:induction false} DropKeeps(s: State, op: nat, c: nat)
    requires op in s.ops && c in s.book.conns
    ensures KeepsConn(s.book, ApplyDropped(s, op).book, c)
  {
    hide HoldsEnd, Attempts;
  }

  lemma {:induction false} LockKeeps(s: State, op: nat, addr: nat, conn: nat, c: nat)
    requires conn in s.book.conns && c in s.book.conns
    ensures KeepsConn(s.book, ApplyConnectLock(s, op, addr, conn).book, c)
  {
  }

  lemma {:induction false} StepKeeps(s: State, l: Label, c: nat)
    requires ConnsOk(s) && Enabled(s, l) && c in s.book.conns
    ensures KeepsConn(s.book, Apply(s, l).book, c)
  {
    hide HoldsEnd, Attempts, Suspended, CloserReady, CloserStep, RootDone, WriterDone, PcOk, ApplyDropped,
         ApplyConnectLock;
    if l.ConnectAbort? || l.CloseStep? || l.EndStep? {
      CloserCompletes(s.book, l.op, CloserOf(s.ops[l.op]), c);
    } else if l.Dropped? {
      DropKeeps(s, l.op, c);
    } else if l.ConnectLock? {
      LockKeeps(s, l.op, s.ops[l.op].addr, s.ops[l.op].conn, c);
    }
  }

  lemma {:induction false} CloserCompletes(b: Book, op: nat, k: Closer, c: nat)
    requires CloserReady(b, k) && c in b.conns
    ensures KeepsConn(b, CloserStep(b, op, k).0, c)
  {
    hide Recorded, Report.Plus;
  }

  // The attempt goes on carrying the connection, or has registered or closed it.
  lemma {:induction false} MoverKeeps(s: State, l: Label, op: nat, c: nat)
    requires Enabled(s, l) && !l.Dropped? && Carries(s, op, c) && c in s.book.conns
    ensures var s' := Apply(s, l);
      Carries(s', op, c)
      || (c in s'.book.conns && (c in s'.book.registered || s'.book.conns[c].completed))
  {
    hide HoldsEnd, Attempts, Suspended, RootRecorded, Recorded, Report.Plus;
  }

  // A new connection is carried by the attempt that opened it.
  lemma {:induction false} NewIsCarried(s: State, l: Label, c: nat)
    requires Enabled(s, l) && c !in s.book.conns && c in Apply(s, l).book.conns
    ensures l.ConnectSpawns? && Carries(Apply(s, l), l.op, c)
  {
    hide HoldsEnd, Attempts, Suspended, RootRecorded, Recorded, Report.Plus;
  }

  lemma {:induction false} StepNoOrphan(s: State, l: Label)
    requires ConnsOk(s) && NoOrphan(s) && Enabled(s, l) && !l.Dropped?
    ensures NoOrphan(Apply(s, l))
  {
    hide ConnsOk, Enabled, Apply, Carries;
    var s' := Apply(s, l);
    forall c: nat | c in s'.book.conns
      ensures c in s'.book.registered || s'.book.conns[c].completed || exists op :: Carries(s', op, c)
    {
      if c !in s.book.conns {
        NewIsCarried(s, l, c);
      } else {
        assert KeptAt(s, c);
        StepKeeps(s, l, c);
        if c !in s.book.registered && !s.book.conns[c].completed {
          var op :| Carries(s, op, c);
          MoverKeeps(s, l, op, c);
        }
      }
    }
  }

  lemma {:induction false} RunNoOrphan(s: State, labels: seq<Label>, s': State)
    requires Inv(s) && NoOrphan(s) && Run(s, labels, s') && forall l <- labels :: !l.Dropped?
    ensures NoOrphan(s')
    decreases |labels|
  {
    hide ConnsOk, AttemptsFresh, EndOk, OwnersOk, SumOk, ActiveOk, DrainedOk, ReservedOk, Enabled, Apply, NoOrphan;
    if labels != [] {
      assert labels[0] in labels && forall l <- labels[1..] :: l in labels;
      StepInv(s, labels[0]);
      StepNoOrphan(s, labels[0]);
      RunNoOrphan(Apply(s, labels[0]), labels[1..], s');
    }
  }

  // As long as no future is dropped: a connection that its attempt did not register has been closed by it, its
  // task awaited, or the attempt is still at it.
  lemma {:induction false} AttemptsSettle(labels: seq<Label>, s: State, c: nat)
    requires Run(Init, labels, s) && (forall l <- labels :: !l.Dropped?)
    requires c in s.book.conns && forall op <- s.ops :: !PcCarries(s.ops[op], c)
    ensures c in s.book.registered || (s.book.conns[c].completed && s.book.conns[c].ending.Some?)
  {
    hide AttemptsFresh, EndOk, OwnersOk, SumOk, ActiveOk, DrainedOk, ReservedOk, Run;
    InitInv();
    RunNoOrphan(Init, labels, s);
    Reached(labels, s);
    assert KeptAt(s, c);
  }
}

/**
Closing a managed network endpoint and the TCP connections it owns (base/src/net/rw.rs). A state
machine whose steps are the stretches between two awaits, two lock operations or two atomic
accesses: concurrent closers of one connection, closers of the endpoint, connection attempts that
register with the endpoint, and futures dropped at any await.
*/
module ManagedClose {

  import opened Options

  // `NetworkCloseReport`, and the report of the endpoint's root task.
  datatype Report = Report(completed: nat, cancelled: nat, failed: nat, panicked: nat, remaining: nat)
  {
    function Plus(r: Report): Report {
      Report(completed + r.completed, cancelled + r.cancelled, failed + r.failed, panicked + r.panicked,
             remaining + r.remaining)
    }
  }

  const Zero := Report(0, 0, 0, 0, 0)
  const OneFailure := Report(0, 0, 1, 0, 0)

  // How a joined connection task ended.
  datatype Ending = Finished | Failed | Panicked | Cancelled | Lost

  // What one ended task adds to a report.
  function Recorded(e: Ending): Report {
    match e
    case Finished => Report(1, 0, 0, 0, 0)
    case Failed => OneFailure
    case Panicked => Report(0, 0, 0, 1, 0)
    case Cancelled => Report(0, 1, 0, 0, 1)
    case Lost => OneFailure
  }

  // A task that could not be joined panicked, was cancelled, or is lost.
  predicate JoinError(e: Ending) { e == Panicked || e == Cancelled || e == Lost }

  // How the joined root task ended: with its own report, or not.
  datatype RootEnding = Reported(report: Report) | NotJoined(ending: Ending)

  function RootRecorded(e: RootEnding): Report {
    match e
    case Reported(report) => report
    case NotJoined(ending) => Recorded(ending)
  }

  // A connection: its lock, its task's ending once there is one, its close state and its owner flag.
  datatype Conn = Conn(lock: Option<nat>, ending: Option<Ending>, completed: bool, report: Report, owned: bool)

  // Where one closer of a connection stands.
  datatype Closer =
    | Want(conn: nat)                     // waits for the lock of the close state
    | Await(conn: nat)                    // holds the lock, awaits the task
    | Finalize(conn: nat, report: Report) // released the lock, next swaps the owner flag
    | Merge(conn: nat, report: Report)    // found the flag set, next adds to the owner's report
    | Leave(conn: nat)                    // next removes the connection from the owner's map
    | Closed

  datatype Pc =
    | CloseConn(closer: Closer)
    | Connecting(addr: nat)               // reserved the peer, awaits the connection
    | Spawned(addr: nat, conn: nat)       // awaits the task's ready signal
    | Ready(addr: nat, conn: nat)         // waits for the endpoint's lock
    | Enlisting(addr: nat, conn: nat)     // holds the endpoint's lock, set the owner flag, next the map
    | Aborting(addr: nat, closer: Closer) // closes a connection that will not be registered
    | EndWant                             // endpoint close: waits for the lock
    | EndWriter                           // holds the lock, awaits the close of the writer
    | EndLoop                             // next looks at the active connections
    | EndConns(rest: seq<nat>, closer: Closer)
    | EndTake                             // found none active, next takes the owner's report
    | EndRoot                             // took the owner's report, awaits the root task

  // The connections, and what their closers share with the endpoint: the owner's map and report. The
  // last three fields are history: connections that set their owner flag, those ever entered in the
  // owner's map, and those counted, with the reports that were added.
  datatype Book = Book(
    conns: map<nat, Conn>, nextConn: nat, active: set<nat>, ownerReport: Report,
    registered: set<nat>, listed: set<nat>, counted: map<nat, Report>, tally: seq<(nat, Report)>)

  // The endpoint's close state and tasks; history: failed closes of the writer, and whether some close
  // of the endpoint has found every connection counted, and has taken the owner's report since.
  datatype Endpoint = Endpoint(
    lock: Option<nat>, cancelled: bool, writerClosed: bool, root: Option<RootEnding>, rootTaken: bool,
    report: Report, completed: bool, writerFailures: nat, drained: bool, taken: bool)

  datatype State = State(book: Book, end: Endpoint, reserved: set<nat>, ops: map<nat, Pc>)

  const Init := State(
    Book(map[], 1, {}, Zero, {}, {}, map[], []),
    Endpoint(None, false, false, None, false, Zero, false, 0, false, false), {}, map[])

  datatype Label =
    | ConnectStart(op: nat, addr: nat, hasWriter: bool)
    | ConnectFails(op: nat)
    | ConnectSpawns(op: nat)
    | ConnectUnready(op: nat)
    | ConnectReady(op: nat)
    | ConnectLock(op: nat)
    | ConnectEnlist(op: nat)
    | ConnectAbort(op: nat)               // one step of the closer of an aborted attempt
    | ConnectAborted(op: nat)
    | CloseStart(op: nat, conn: nat)
    | CloseStep(op: nat)
    | CloseReturns(op: nat)
    | EndStart(op: nat)
    | EndLock(op: nat)
    | EndWriterClosed(op: nat, failed: bool)
    | EndLook(op: nat, order: seq<nat>)   // `order`: the active connections as the map iterates them
    | EndTakeReport(op: nat)
    | EndStep(op: nat)                    // one step of the closer of the current connection
    | EndNext(op: nat)
    | EndRootJoined(op: nat)
    | Dropped(op: nat)                    // the future of the operation is dropped at an await
    | TaskEnds(conn: nat, ending: Ending)
    | RootEnds(ended: RootEnding)
    | CancelledOutside

  // ---------------------------------------------------------------- one closer of a connection

  predicate CloserReady(b: Book, k: Closer) {
    match k
    case Want(c) => c in b.conns && b.conns[c].lock.None?
    case Await(c) => c in b.conns && b.conns[c].ending.Some?
    case Finalize(c, _) => c in b.conns
    case Merge(_, _) => true
    case Leave(_) => true
    case Closed => false
  }

  function SetConn(b: Book, c: nat, conn: Conn): Book { b.(conns := b.conns[c := conn]) }

  // The closer's step, and where it stands afterwards.
  function CloserStep(b: Book, op: nat, k: Closer): (Book, Closer)
    requires CloserReady(b, k)
  {
    match k
    case Want(c) =>
      if b.conns[c].completed then (b, Finalize(c, b.conns[c].report))
      else (SetConn(b, c, b.conns[c].(lock := Some(op))), Await(c))
    case Await(c) =>
      var report := b.conns[c].report.Plus(Recorded(b.conns[c].ending.value));
      (SetConn(b, c, b.conns[c].(lock := None, completed := true, report := report)), Finalize(c, report))
    case Finalize(c, r) =>
      if b.conns[c].owned then (SetConn(b, c, b.conns[c].(owned := false)), Merge(c, r)) else (b, Closed)
    case Merge(c, r) =>
      (b.(ownerReport := b.ownerReport.Plus(r), counted := b.counted[c := r], tally := b.tally + [(c, r)]), Leave(c))
    case Leave(c) => (b.(active := b.active - {c}), Closed)
  }

  function CloserOf(pc: Pc): Closer {
    match pc
    case CloseConn(k) => k
    case Aborting(_, k) => k
    case EndConns(_, k) => k
    case _ => Closed
  }

  // Holds the endpoint's lock.
  predicate HoldsEnd(pc: Pc) {
    pc.Enlisting? || pc.EndWriter? || pc.EndLoop? || pc.EndConns? || pc.EndTake? || pc.EndRoot?
  }

  predicate Attempts(pc: Pc) { pc.Connecting? || pc.Spawned? || pc.Ready? || pc.Enlisting? || pc.Aborting? }

  // At an await: the future can be dropped here.
  predicate Suspended(pc: Pc) {
    match pc
    case CloseConn(k) => k.Want? || k.Await?
    case Aborting(_, k) => k.Want? || k.Await?
    case EndConns(_, k) => k.Want? || k.Await?
    case Enlisting(_, _) => false
    case EndLoop => false
    case EndTake => false
    case _ => true
  }

  // ---------------------------------------------------------------- steps

  ghost predicate Enabled(s: State, l: Label) {
    match l
    case ConnectStart(op, _, _) => op !in s.ops
    case ConnectFails(op) => op in s.ops && s.ops[op].Connecting?
    case ConnectSpawns(op) => op in s.ops && s.ops[op].Connecting?
    case ConnectUnready(op) => op in s.ops && s.ops[op].Spawned?
    case ConnectReady(op) => op in s.ops && s.ops[op].Spawned? && !s.end.cancelled
    case ConnectLock(op) => op in s.ops && s.ops[op].Ready? && s.end.lock.None? && s.ops[op].conn in s.book.conns
    case ConnectEnlist(op) => op in s.ops && s.ops[op].Enlisting?
    case ConnectAbort(op) => op in s.ops && s.ops[op].Aborting? && CloserReady(s.book, s.ops[op].closer)
    case ConnectAborted(op) => op in s.ops && s.ops[op].Aborting? && s.ops[op].closer.Closed?
    case CloseStart(op, c) => op !in s.ops && c in s.book.listed
    case CloseStep(op) => op in s.ops && s.ops[op].CloseConn? && CloserReady(s.book, s.ops[op].closer)
    case CloseReturns(op) => op in s.ops && s.ops[op].CloseConn? && s.ops[op].closer.Closed?
    case EndStart(op) => op !in s.ops
    case EndLock(op) => op in s.ops && s.ops[op].EndWant? && s.end.lock.None?
    case EndWriterClosed(op, _) => op in s.ops && s.ops[op].EndWriter?
    case EndLook(op, order) => op in s.ops && s.ops[op].EndLoop? && forall c :: c in order <==> c in s.book.active
    case EndStep(op) => op in s.ops && s.ops[op].EndConns? && CloserReady(s.book, s.ops[op].closer)
    case EndNext(op) => op in s.ops && s.ops[op].EndConns? && s.ops[op].closer.Closed?
    case EndTakeReport(op) => op in s.ops && s.ops[op].EndTake?
    case EndRootJoined(op) => op in s.ops && s.ops[op].EndRoot? && (s.end.rootTaken || s.end.root.Some?)
    case Dropped(op) => op in s.ops && Suspended(s.ops[op])
    case TaskEnds(c, _) => c in s.book.conns && s.book.conns[c].ending.None?
    case RootEnds(ended) => s.end.root.None? && (ended.NotJoined? ==> JoinError(ended.ending))
    case CancelledOutside => true
  }

  function At(s: State, op: nat, pc: Pc): State { s.(ops := s.ops[op := pc]) }

  function Finish(s: State, op: nat): State { s.(ops := s.ops - {op}) }

  // The reservation is dropped at the end of a connection attempt.
  function FinishAttempt(s: State, op: nat, addr: nat): State {
    s.(ops := s.ops - {op}, reserved := s.reserved - {addr})
  }

  function ApplyConnectStart(s: State, op: nat, addr: nat, hasWriter: bool): State {
    if s.end.cancelled || hasWriter || addr in s.reserved then s
    else s.(reserved := s.reserved + {addr}, ops := s.ops[op := Connecting(addr)])
  }

  function ApplySpawn(s: State, op: nat, addr: nat): State {
    var b := s.book;
    s.(book := b.(conns := b.conns[b.nextConn := Conn(None, None, false, Zero, false)], nextConn := b.nextConn + 1),
       ops := s.ops[op := Spawned(addr, b.nextConn)])
  }

  function ApplyConnectLock(s: State, op: nat, addr: nat, c: nat): State
    requires c in s.book.conns
  {
    if s.end.cancelled || s.end.completed then At(s, op, Aborting(addr, Want(c)))
    else
      var b := s.book;
      State(b.(conns := b.conns[c := b.conns[c].(owned := true)], registered := b.registered + {c}),
            s.end.(lock := Some(op)), s.reserved, s.ops[op := Enlisting(addr, c)])
  }

  function ApplyEnlist(s: State, op: nat, addr: nat, c: nat): State {
    State(s.book.(active := s.book.active + {c}, listed := s.book.listed + {c}),
          s.end.(lock := None), s.reserved - {addr}, s.ops - {op})
  }

  function WithCloser(pc: Pc, k: Closer): Pc {
    match pc
    case CloseConn(_) => CloseConn(k)
    case Aborting(addr, _) => Aborting(addr, k)
    case EndConns(rest, _) => EndConns(rest, k)
    case _ => pc
  }

  function ApplyCloser(s: State, op: nat): State
    requires op in s.ops && CloserReady(s.book, CloserOf(s.ops[op]))
  {
    var (b, k) := CloserStep(s.book, op, CloserOf(s.ops[op]));
    s.(book := b, ops := s.ops[op := WithCloser(s.ops[op], k)])
  }

  function ApplyEndLock(s: State, op: nat): State {
    if s.end.completed then Finish(s, op)
    else s.(end := s.end.(lock := Some(op), cancelled := true),
            ops := s.ops[op := if s.end.writerClosed then EndLoop else EndWriter])
  }

  function WriterDone(e: Endpoint, failed: bool): Endpoint {
    if failed then e.(writerClosed := true, report := e.report.Plus(OneFailure), writerFailures := e.writerFailures + 1)
    else e.(writerClosed := true)
  }

  function ApplyEndLook(s: State, op: nat, order: seq<nat>): State {
    if order == [] then
      s.(end := s.end.(drained := true), ops := s.ops[op := EndTake])
    else At(s, op, EndConns(order[1..], Want(order[0])))
  }

  function ApplyEndTake(s: State, op: nat): State {
    State(s.book.(ownerReport := Zero), s.end.(report := s.end.report.Plus(s.book.ownerReport), taken := true),
          s.reserved, s.ops[op := EndRoot])
  }

  function RootDone(e: Endpoint): Endpoint
    requires e.rootTaken || e.root.Some?
  {
    if e.rootTaken then e.(completed := true, lock := None)
    else e.(rootTaken := true, report := e.report.Plus(RootRecorded(e.root.value)), completed := true, lock := None)
  }

  // Dropping a future releases the locks and the reservation it holds.
  function ApplyDropped(s: State, op: nat): State
    requires op in s.ops
  {
    var pc := s.ops[op];
    var k := CloserOf(pc);
    State(if k.Await? && k.conn in s.book.conns then SetConn(s.book, k.conn, s.book.conns[k.conn].(lock := None))
          else s.book,
          if HoldsEnd(pc) then s.end.(lock := None) else s.end,
          if Attempts(pc) then s.reserved - {pc.addr} else s.reserved,
          s.ops - {op})
  }

  ghost function Apply(s: State, l: Label): State
    requires Enabled(s, l)
  {
    match l
    case ConnectStart(op, addr, hasWriter) => ApplyConnectStart(s, op, addr, hasWriter)
    case ConnectFails(op) => FinishAttempt(s, op, s.ops[op].addr)
    case ConnectSpawns(op) => ApplySpawn(s, op, s.ops[op].addr)
    case ConnectUnready(op) => At(s, op, Aborting(s.ops[op].addr, Want(s.ops[op].conn)))
    case ConnectReady(op) => At(s, op, Ready(s.ops[op].addr, s.ops[op].conn))
    case ConnectLock(op) => ApplyConnectLock(s, op, s.ops[op].addr, s.ops[op].conn)
    case ConnectEnlist(op) => ApplyEnlist(s, op, s.ops[op].addr, s.ops[op].conn)
    case ConnectAbort(op) => ApplyCloser(s, op)
    case ConnectAborted(op) => FinishAttempt(s, op, s.ops[op].addr)
    case CloseStart(op, c) => At(s, op, CloseConn(Want(c)))
    case CloseStep(op) => ApplyCloser(s, op)
    case CloseReturns(op) => Finish(s, op)
    case EndStart(op) => At(s, op, EndWant)
    case EndLock(op) => ApplyEndLock(s, op)
    case EndWriterClosed(op, failed) => s.(end := WriterDone(s.end, failed), ops := s.ops[op := EndLoop])
    case EndLook(op, order) => ApplyEndLook(s, op, order)
    case EndTakeReport(op) => ApplyEndTake(s, op)
    case EndStep(op) => ApplyCloser(s, op)
    case EndNext(op) =>
      At(s, op, if s.ops[op].rest == [] then EndLoop else EndConns(s.ops[op].rest[1..], Want(s.ops[op].rest[0])))
    case EndRootJoined(op) => s.(end := RootDone(s.end), ops := s.ops - {op})
    case Dropped(op) => ApplyDropped(s, op)
    case TaskEnds(c, ending) => s.(book := SetConn(s.book, c, s.book.conns[c].(ending := Some(ending))))
    case RootEnds(ended) => s.(end := s.end.(root := Some(ended)))
    case CancelledOutside => s.(end := s.end.(cancelled := true))
  }

  // ---------------------------------------------------------------- the connections

  // A closer is where its connection's state says: it alone awaits the task of a connection it locked,
  // and carries the final report afterwards.
  ghost predicate CloserOk(b: Book, op: nat, k: Closer) {
    match k
    case Want(c) => c in b.conns
    case Await(c) => c in b.conns && b.conns[c].lock == Some(op) && !b.conns[c].completed
    case Finalize(c, r) => c in b.conns && b.conns[c].completed && b.conns[c].report == r
    case Merge(c, r) => c in b.conns && b.conns[c].completed && b.conns[c].report == r
    case Leave(c) => c in b.counted
    case Closed => true
  }

  ghost predicate ConnOk(conn: Conn) {
    if conn.completed then conn.ending.Some? && conn.report == Recorded(conn.ending.value) else conn.report == Zero
  }

  ghost predicate BookOk(b: Book) {
    && (forall c <- b.conns :: ConnOk(b.conns[c]) && c < b.nextConn)
    && b.listed <= b.conns.Keys && b.active <= b.conns.Keys && b.registered <= b.conns.Keys
  }

  // What an operation refers to exists.
  ghost predicate PcOk(b: Book, op: nat, pc: Pc) {
    && CloserOk(b, op, CloserOf(pc))
    && (pc.Spawned? || pc.Ready? || pc.Enlisting? ==> pc.conn in b.conns)
    && (pc.EndConns? ==> forall c <- pc.rest :: c in b.conns)
  }

  ghost predicate ConnsOk(s: State) {
    BookOk(s.book) && forall op <- s.ops :: PcOk(s.book, op, s.ops[op])
  }

  // Connections come and complete, keep their report once completed, and stay locked by whoever locked
  // them, except that `op` may release its own lock.
  ghost predicate Advance(b: Book, b': Book, op: nat) {
    && b.counted.Keys <= b'.counted.Keys
    && b.conns.Keys <= b'.conns.Keys
    && (forall c <- b.conns :: b.conns[c].completed ==>
        b'.conns[c].completed && b'.conns[c].report == b.conns[c].report)
    && (forall c <- b.conns :: !b.conns[c].completed && b.conns[c].lock.Some? && b.conns[c].lock != Some(op) ==>
          b'.conns[c].lock == b.conns[c].lock && !b'.conns[c].completed)
  }

  lemma {:induction false} OthersOk(b: Book, b': Book, op: nat, op': nat, pc: Pc)
    requires Advance(b, b', op) && op' != op && PcOk(b, op', pc)
    ensures PcOk(b', op', pc)
  {
  }

  // What a closer's step does to the connections.
  lemma {:induction false} CloserAdvances(b: Book, op: nat, k: Closer)
    requires CloserReady(b, k) && CloserOk(b, op, k) && BookOk(b)
    ensures var (b', k') := CloserStep(b, op, k);
      && Advance(b, b', op) && CloserOk(b', op, k') && BookOk(b')
      && b'.conns.Keys == b.conns.Keys && b'.registered == b.registered && b'.listed == b.listed
  {
  }

  // The step of an operation: the book advances, the other operations stand where they stood, and the
  // operation, if it is still in flight, refers to what exists.
  ghost predicate Moved(s: State, s': State, op: nat) {
    && Advance(s.book, s'.book, op) && BookOk(s'.book)
    && (forall op' <- s'.ops :: op' != op ==> op' in s.ops && s'.ops[op'] == s.ops[op'])
    && (op in s'.ops ==> PcOk(s'.book, op, s'.ops[op]))
  }

  lemma {:induction false} MovedConns(s: State, s': State, op: nat)
    requires ConnsOk(s) && Moved(s, s', op)
    ensures ConnsOk(s')
  {
    hide BookOk, PcOk, Advance;
    forall op' | op' in s'.ops
      ensures PcOk(s'.book, op', s'.ops[op'])
    {
      if op' != op {
        OthersOk(s.book, s'.book, op, op', s.ops[op']);
      }
    }
  }

  lemma {:induction false} CloserMoves(s: State, op: nat)
    requires ConnsOk(s) && op in s.ops && CloserReady(s.book, CloserOf(s.ops[op]))
    ensures Moved(s, ApplyCloser(s, op), op)
  {
    hide CloserStep, CloserOk, BookOk, Advance;
    assert PcOk(s.book, op, s.ops[op]);
    CloserAdvances(s.book, op, CloserOf(s.ops[op]));
  }

  lemma {:induction false} SameBook(b: Book, op: nat)
    ensures Advance(b, b, op)
  {
  }

  lemma {:induction false} SpawnMoves(s: State, op: nat, addr: nat)
    requires ConnsOk(s)
    ensures Moved(s, ApplySpawn(s, op, addr), op)
  {
  }

  lemma {:induction false} LockMoves(s: State, op: nat, addr: nat, c: nat)
    requires ConnsOk(s) && c in s.book.conns
    ensures Moved(s, ApplyConnectLock(s, op, addr, c), op)
  {
  }

  lemma {:induction false} EnlistMoves(s: State, op: nat, addr: nat, c: nat)
    requires ConnsOk(s) && c in s.book.conns
    ensures Moved(s, ApplyEnlist(s, op, addr, c), op)
  {
  }

  lemma {:induction false} DropMoves(s: State, op: nat)
    requires ConnsOk(s) && op in s.ops
    ensures Moved(s, ApplyDropped(s, op), op)
  {
    assert PcOk(s.book, op, s.ops[op]);
  }

  lemma {:induction false} LookMoves(s: State, op: nat, order: seq<nat>)
    requires ConnsOk(s) && forall c :: c in order <==> c in s.book.active
    ensures Moved(s, ApplyEndLook(s, op, order), op)
  {
    if order != [] {
      assert order[0] in order;
    }
  }

  lemma {:induction false} TakeMoves(s: State, op: nat)
    requires ConnsOk(s)
    ensures Moved(s, ApplyEndTake(s, op), op)
  {
  }

  lemma {:induction false} NextMoves(s: State, op: nat, rest: seq<nat>)
    requires ConnsOk(s) && forall c <- rest :: c in s.book.conns
    ensures Moved(s, At(s, op, if rest == [] then EndLoop else EndConns(rest[1..], Want(rest[0]))), op)
  {
    SameBook(s.book, op);
  }

  // Steps that leave the book alone.
  lemma {:induction false} BookStays(s: State, s': State, op: nat)
    requires ConnsOk(s) && s'.book == s.book
    requires forall op' <- s'.ops :: op' != op ==> op' in s.ops && s'.ops[op'] == s.ops[op']
    requires op in s'.ops ==> PcOk(s.book, op, s'.ops[op])
    ensures Moved(s, s', op)
  {
    hide BookOk, PcOk;
    SameBook(s.book, op);
  }

  lemma {:induction false} TaskEndsConns(s: State, c: nat, ending: Ending)
    requires ConnsOk(s) && c in s.book.conns && s.book.conns[c].ending.None?
    ensures ConnsOk(s.(book := SetConn(s.book, c, s.book.conns[c].(ending := Some(ending)))))
  {
    var b' := SetConn(s.book, c, s.book.conns[c].(ending := Some(ending)));
    forall op | op in s.ops
      ensures PcOk(b', op, s.ops[op])
    {
      assert PcOk(s.book, op, s.ops[op]);
    }
  }

  lemma {:induction false} StepConns(s: State, l: Label)
    requires ConnsOk(s) && Enabled(s, l)
    ensures ConnsOk(Apply(s, l))
  {
    hide ApplyCloser, ApplySpawn, ApplyConnectLock, ApplyEnlist, ApplyDropped, ApplyEndLook, Advance, BookOk, Moved,
         CloserReady;
    var s' := Apply(s, l);
    if l.TaskEnds? {
      TaskEndsConns(s, l.conn, l.ending);
    } else if l.RootEnds? || l.CancelledOutside? {
    } else {
      var op := l.op;
      assert op in s.ops ==> PcOk(s.book, op, s.ops[op]);
      match l {
      case ConnectSpawns(_) => SpawnMoves(s, op, s.ops[op].addr);
      case ConnectLock(_) => LockMoves(s, op, s.ops[op].addr, s.ops[op].conn);
      case ConnectEnlist(_) => EnlistMoves(s, op, s.ops[op].addr, s.ops[op].conn);
      case ConnectAbort(_) => CloserMoves(s, op);
      case CloseStep(_) => CloserMoves(s, op);
      case EndStep(_) => CloserMoves(s, op);
      case EndLook(_, order) => LookMoves(s, op, order);
      case EndTakeReport(_) => TakeMoves(s, op);
      case EndNext(_) => NextMoves(s, op, s.ops[op].rest);
      case Dropped(_) => DropMoves(s, op);
      case CloseStart(_, c) => StartOk(s, c); BookStays(s, s', op);
      case _ => BookStays(s, s', op);
      }
      MovedConns(s, s', op);
    }
  }

  lemma {:induction false} StartOk(s: State, c: nat)
    requires ConnsOk(s) && c in s.book.listed
    ensures c in s.book.conns
  {
  }

  // ---------------------------------------------------------------- the endpoint's lock and its flags

  predicate Closing(pc: Pc) { pc.EndWriter? || pc.EndLoop? || pc.EndConns? || pc.EndTake? || pc.EndRoot? }

  ghost predicate EndPcOk(e: Endpoint, op: nat, pc: Pc) {
    && (HoldsEnd(pc) ==> e.lock == Some(op))
    && (Closing(pc) ==> e.cancelled && !e.completed && (e.writerClosed <==> !pc.EndWriter?))
    && (pc.EndTake? ==> e.drained)
    && (pc.EndRoot? ==> e.taken)
    && (pc.Enlisting? ==> !e.drained)
  }

  ghost predicate EndOk(s: State) {
    var e := s.end;
    && (forall op <- s.ops :: EndPcOk(e, op, s.ops[op]))
    && (e.completed ==> e.taken && e.rootTaken && e.writerClosed)
    && (e.taken ==> e.drained)
    && (e.drained ==> e.cancelled)
    && e.writerFailures <= (if e.writerClosed then 1 else 0)
    && (e.rootTaken ==> e.root.Some?)
  }

  // Steps of attempts and closers, which leave the endpoint alone unless they take or release its lock.
  lemma {:induction false} ConnectEnd(s: State, l: Label)
    requires EndOk(s) && Enabled(s, l) && (l.ConnectLock? || l.ConnectEnlist? || l.Dropped?)
    ensures EndOk(Apply(s, l))
  {
    hide CloserReady;
    assert EndPcOk(s.end, l.op, s.ops[l.op]);
  }

  lemma {:induction false} SameEnd(s: State, s': State)
    requires EndOk(s) && s'.end == s.end
    requires forall op <- s'.ops :: HoldsEnd(s'.ops[op]) ==> op in s.ops && EndPcOk(s.end, op, s'.ops[op])
    ensures EndOk(s')
  {
  }

  lemma {:induction false} CloserEnd(s: State, op: nat)
    requires EndOk(s) && op in s.ops && CloserReady(s.book, CloserOf(s.ops[op]))
    ensures EndOk(ApplyCloser(s, op))
  {
    hide CloserStep;
    assert EndPcOk(s.end, op, s.ops[op]);
    SameEnd(s, ApplyCloser(s, op));
  }

  // The steps of a close of the endpoint, and what happens to its root task and token.
  predicate EndMoves(l: Label) {
    || l.EndLock? || l.EndWriterClosed? || l.EndLook? || l.EndTakeReport? || l.EndNext? || l.EndRootJoined?
    || l.RootEnds? || l.CancelledOutside?
  }

  lemma {:induction false} EndEnd(s: State, l: Label)
    requires EndOk(s) && Enabled(s, l)
    requires EndMoves(l)
    ensures EndOk(Apply(s, l))
  {
    hide RootRecorded, Report.Plus;
    if !l.RootEnds? && !l.CancelledOutside? {
      assert EndPcOk(s.end, l.op, s.ops[l.op]);
    }
  }

  lemma {:induction false} StepEnd(s: State, l: Label)
    requires EndOk(s) && Enabled(s, l)
    ensures EndOk(Apply(s, l))
  {
    hide CloserStep, CloserReady, ApplyCloser, RootDone, WriterDone, ApplyConnectLock, ApplyEnlist, ApplyDropped,
         ApplyEndLock, ApplyEndLook, Suspended;
    if l.ConnectLock? || l.ConnectEnlist? || l.Dropped? {
      ConnectEnd(s, l);
    } else if l.ConnectAbort? || l.CloseStep? || l.EndStep? {
      CloserEnd(s, l.op);
    } else if EndMoves(l) {
      EndEnd(s, l);
    } else {
      SameEnd(s, Apply(s, l));
    }
  }

  // Once an endpoint close has completed, the report it returned is what every later close returns.
  lemma {:induction false} StepKeepsReport(s: State, l: Label)
    requires EndOk(s) && Enabled(s, l) && s.end.completed
    ensures Apply(s, l).end.completed && Apply(s, l).end.report == s.end.report && Apply(s, l).end.drained
  {
    hide CloserStep, CloserReady, RootRecorded;
    if !l.TaskEnds? && !l.RootEnds? && !l.CancelledOutside? && l.op in s.ops {
      assert EndPcOk(s.end, l.op, s.ops[l.op]);
    }
  }

  // ---------------------------------------------------------------- who has yet to count a connection

  ghost predicate Merges(s: State, op: nat, c: nat) {
    op in s.ops && CloserOf(s.ops[op]).Merge? && CloserOf(s.ops[op]).conn == c
  }

  // A connection attempt that has not registered its connection.
  predicate Unregistered(pc: Pc) { pc.Spawned? || pc.Ready? }

  ghost predicate AttemptsFresh(s: State) {
    && (forall op <- s.ops :: Unregistered(s.ops[op]) ==>
        s.ops[op].conn !in s.book.registered && s.ops[op].conn < s.book.nextConn)
    && (forall op, op' :: op in s.ops && op' in s.ops && op != op' ==>
          Unregistered(s.ops[op]) && Unregistered(s.ops[op']) ==>
          s.ops[op].conn != s.ops[op'].conn)
    && (forall op <- s.ops :: s.ops[op].Enlisting? ==> s.ops[op].conn in s.book.registered)
  }

  lemma {:induction false} SameAttempts(s: State, s': State)
    requires AttemptsFresh(s)
    requires s'.book.registered == s.book.registered && s'.book.nextConn == s.book.nextConn
    requires forall op <- s'.ops :: Unregistered(s'.ops[op]) ==>
      op in s.ops && Unregistered(s.ops[op]) && s'.ops[op].conn == s.ops[op].conn
    requires forall op <- s'.ops :: s'.ops[op].Enlisting? ==> op in s.ops && s'.ops[op] == s.ops[op]
    ensures AttemptsFresh(s')
  {
  }

  lemma {:induction false} SpawnFresh(s: State, op: nat, addr: nat)
    requires ConnsOk(s) && AttemptsFresh(s)
    ensures AttemptsFresh(ApplySpawn(s, op, addr))
  {
    hide ConnOk, PcOk;
  }

  lemma {:induction false} LockFresh(s: State, op: nat, addr: nat, c: nat)
    requires AttemptsFresh(s) && op in s.ops && s.ops[op] == Ready(addr, c) && c in s.book.conns
    ensures AttemptsFresh(ApplyConnectLock(s, op, addr, c))
  {
  }

  lemma {:induction false} CloserFresh(s: State, op: nat)
    requires AttemptsFresh(s) && op in s.ops && CloserReady(s.book, CloserOf(s.ops[op]))
    ensures AttemptsFresh(ApplyCloser(s, op))
  {
    SameAttempts(s, ApplyCloser(s, op));
  }

  lemma {:induction false} DropFresh(s: State, op: nat)
    requires AttemptsFresh(s) && op in s.ops
    ensures AttemptsFresh(ApplyDropped(s, op))
  {
    hide HoldsEnd, Attempts, AttemptsFresh;
    SameAttempts(s, ApplyDropped(s, op));
  }

  lemma {:induction false} StepFresh(s: State, l: Label)
    requires ConnsOk(s) && AttemptsFresh(s) && Enabled(s, l)
    ensures AttemptsFresh(Apply(s, l))
  {
    hide AttemptsFresh, ConnsOk, RootDone, WriterDone, HoldsEnd, Suspended, ApplySpawn, ApplyConnectLock,
         ApplyCloser, ApplyDropped, CloserReady;
    if l.ConnectSpawns? {
      SpawnFresh(s, l.op, s.ops[l.op].addr);
    } else if l.ConnectLock? {
      LockFresh(s, l.op, s.ops[l.op].addr, s.ops[l.op].conn);
    } else if l.ConnectAbort? || l.CloseStep? || l.EndStep? {
      CloserFresh(s, l.op);
    } else if l.Dropped? {
      DropFresh(s, l.op);
    } else {
      SameAttempts(s, Apply(s, l));
    }
  }

  // Each registered connection is in one of three situations: its flag is still set, one closer that
  // cleared the flag is about to count it, or it has been counted with its final report.
  ghost predicate OwnersOk(s: State) {
    var b := s.book;
    && (forall c <- b.conns :: b.conns[c].owned ==> c in b.registered && c !in b.counted)
    && (forall op <- s.ops :: CloserOf(s.ops[op]).Merge? ==>
          var c := CloserOf(s.ops[op]).conn;
          c in b.registered && c !in b.counted && c in b.conns && !b.conns[c].owned)
    && (forall op, op', c :: Merges(s, op, c) && Merges(s, op', c) ==> op == op')
    && (forall c <- b.registered ::
          c in b.conns && (b.conns[c].owned || c in b.counted || exists op :: Merges(s, op, c)))
    && (forall c <- b.counted :: c in b.registered && c in b.conns
          && b.conns[c].completed && b.counted[c] == b.conns[c].report)
  }

  // No closer moved to or from counting, and flags and counts are as they were.
  ghost predicate SameSituation(s: State, s': State) {
    var b, b' := s.book, s'.book;
    && b'.registered == b.registered && b'.counted == b.counted
    && b.conns.Keys <= b'.conns.Keys
    && (forall c <- b.conns :: b'.conns[c].owned == b.conns[c].owned)
    && (forall c <- b.conns :: b.conns[c].completed ==>
        b'.conns[c].completed && b'.conns[c].report == b.conns[c].report)
    && (forall c <- b'.conns :: c !in b.conns ==> !b'.conns[c].owned)
    && (forall op <- s'.ops :: CloserOf(s'.ops[op]).Merge? ==>
        op in s.ops && CloserOf(s'.ops[op]) == CloserOf(s.ops[op]))
    && (forall op <- s.ops :: CloserOf(s.ops[op]).Merge? ==>
        op in s'.ops && CloserOf(s'.ops[op]) == CloserOf(s.ops[op]))
  }

  lemma {:induction false} SameOwners(s: State, s': State)
    requires OwnersOk(s) && SameSituation(s, s')
    ensures OwnersOk(s')
  {
    assert forall op, c :: Merges(s', op, c) <==> Merges(s, op, c);
  }

  lemma {:induction false} CloserOwners(s: State, op: nat)
    requires ConnsOk(s) && OwnersOk(s) && op in s.ops && CloserReady(s.book, CloserOf(s.ops[op]))
    ensures OwnersOk(ApplyCloser(s, op))
  {
    var s' := ApplyCloser(s, op);
    var k := CloserOf(s.ops[op]);
    assert PcOk(s.book, op, s.ops[op]);
    if k.Finalize? && s.book.conns[k.conn].owned {
      FinalizeOwners(s, op, s', k.conn);
    } else if k.Merge? {
      MergeOwners(s, op, s', k.conn, k.report);
    } else {
      SameOwners(s, s');
    }
  }

  // Swapping the flag: the closer that finds it set is the one that will count.
  lemma {:induction false} FinalizeOwners(s: State, op: nat, s': State, c: nat)
    requires OwnersOk(s) && op in s.ops && CloserOf(s.ops[op]).Finalize?
    requires c in s.book.conns && s.book.conns[c].owned
    requires s'.book == SetConn(s.book, c, s.book.conns[c].(owned := false))
    requires op in s'.ops && s'.ops == s.ops[op := s'.ops[op]] && CloserOf(s'.ops[op]).Merge?
    requires CloserOf(s'.ops[op]).conn == c
    ensures OwnersOk(s')
  {
    assert forall op' :: !Merges(s, op', c);
    assert Merges(s', op, c);
    forall op', x
      ensures Merges(s', op', x) <==> Merges(s, op', x) || (op' == op && x == c)
    {
    }
  }

  lemma {:induction false} MergeOwners(s: State, op: nat, s': State, c: nat, r: Report)
    requires OwnersOk(s) && op in s.ops && CloserOf(s.ops[op]) == Merge(c, r)
    requires c in s.book.conns && s.book.conns[c].completed && s.book.conns[c].report == r
    requires s'.book.conns == s.book.conns && s'.book.registered == s.book.registered
    requires s'.book.counted == s.book.counted[c := r]
    requires op in s'.ops && s'.ops == s.ops[op := s'.ops[op]] && !CloserOf(s'.ops[op]).Merge?
    ensures OwnersOk(s')
  {
    assert Merges(s, op, c);
    forall op', x
      ensures Merges(s', op', x) <==> Merges(s, op', x) && op' != op
    {
    }
    forall op' | op' in s'.ops && CloserOf(s'.ops[op']).Merge?
      ensures CloserOf(s'.ops[op']).conn != c
    {
      assert Merges(s', op', CloserOf(s'.ops[op']).conn);
    }
    forall x | x in s'.book.registered
      ensures s'.book.conns[x].owned || x in s'.book.counted || exists op' :: Merges(s', op', x)
    {
      if x != c && !s.book.conns[x].owned && x !in s.book.counted {
        var op' :| Merges(s, op', x);
        assert Merges(s', op', x);
      }
    }
  }

  lemma {:induction false} RegisterOwners(s: State, op: nat, addr: nat, c: nat)
    requires ConnsOk(s) && OwnersOk(s) && op in s.ops && s.ops[op].Ready? && c in s.book.conns
    requires c !in s.book.registered
    ensures OwnersOk(ApplyConnectLock(s, op, addr, c))
  {
    var s' := ApplyConnectLock(s, op, addr, c);
    assert forall op', x :: Merges(s', op', x) <==> Merges(s, op', x);
  }

  lemma {:induction false} DropSame(s: State, op: nat)
    requires op in s.ops && Suspended(s.ops[op])
    ensures SameSituation(s, ApplyDropped(s, op))
  {
  }

  lemma {:induction false} SpawnSame(s: State, op: nat, addr: nat)
    requires s.book.nextConn !in s.book.conns && (op in s.ops ==> !CloserOf(s.ops[op]).Merge?)
    ensures SameSituation(s, ApplySpawn(s, op, addr))
  {
  }

  lemma {:induction false} PcSame(s: State, s': State, op: nat)
    requires s'.book == s.book.(active := s'.book.active, listed := s'.book.listed, ownerReport := s'.book.ownerReport)
    requires op in s.ops ==> !CloserOf(s.ops[op]).Merge?
    requires op in s'.ops ==> !CloserOf(s'.ops[op]).Merge?
    requires s'.ops - {op} == s.ops - {op}
    ensures SameSituation(s, s')
  {
    forall o | o != op
      ensures o in s.ops <==> o in s'.ops
      ensures o in s.ops ==> s'.ops[o] == s.ops[o]
    {
      assert o in s.ops <==> o in s.ops - {op};
      assert o in s'.ops <==> o in s'.ops - {op};
      assert o in s.ops ==> (s.ops - {op})[o] == s.ops[o];
      assert o in s'.ops ==> (s'.ops - {op})[o] == s'.ops[o];
    }
  }

  lemma {:induction false} StepSame(s: State, l: Label)
    requires Enabled(s, l) && s.book.nextConn !in s.book.conns
    requires !l.ConnectAbort? && !l.CloseStep? && !l.EndStep? && !l.ConnectLock?
    ensures SameSituation(s, Apply(s, l))
  {
    hide CloserStep, CloserReady, RootDone, WriterDone, HoldsEnd, ApplyDropped, ApplySpawn, Suspended, SameSituation;
    if l.Dropped? {
      DropSame(s, l.op);
    } else if l.ConnectSpawns? {
      SpawnSame(s, l.op, s.ops[l.op].addr);
    } else if l.TaskEnds? || l.RootEnds? || l.CancelledOutside? {
      EnvSame(s, Apply(s, l));
    } else {
      PcSame(s, Apply(s, l), l.op);
    }
  }

  lemma {:induction false} EnvSame(s: State, s': State)
    requires s'.ops == s.ops && s'.book == s.book.(conns := s'.book.conns) && s'.book.conns.Keys == s.book.conns.Keys
    requires forall c <- s.book.conns :: s'.book.conns[c] == s.book.conns[c].(ending := s'.book.conns[c].ending)
    ensures SameSituation(s, s')
  {
  }

  lemma {:induction false} StepOwners(s: State, l: Label)
    requires ConnsOk(s) && AttemptsFresh(s) && OwnersOk(s) && Enabled(s, l)
    ensures OwnersOk(Apply(s, l))
  {
    hide OwnersOk, SameSituation, PcOk, ConnOk, CloserReady, ApplyCloser, ApplyConnectLock;
    match l
    case ConnectAbort(op) => CloserOwners(s, op);
    case CloseStep(op) => CloserOwners(s, op);
    case EndStep(op) => CloserOwners(s, op);
    case ConnectLock(op) => RegisterOwners(s, op, s.ops[op].addr, s.ops[op].conn);
    case _ =>
      StepSame(s, l);
      SameOwners(s, Apply(s, l));
  }

  // ---------------------------------------------------------------- the tally

  function Sum(tally: seq<(nat, Report)>): Report {
    if tally == [] then Zero else Sum(tally[..|tally| - 1]).Plus(tally[|tally| - 1].1)
  }

  // The tally lists every counted connection once.
  ghost predicate TallyOk(b: Book) {
    && (forall j :: 0 <= j < |b.tally| ==> b.tally[j].0 in b.counted && b.counted[b.tally[j].0] == b.tally[j].1)
    && (forall j, k :: 0 <= j < k < |b.tally| ==> b.tally[j].0 != b.tally[k].0)
    && (forall c <- b.counted :: exists j :: 0 <= j < |b.tally| && b.tally[j].0 == c)
  }

  lemma {:induction false} MergeTally(b: Book, c: nat, r: Report)
    requires TallyOk(b) && c !in b.counted
    ensures TallyOk(b.(ownerReport := b.ownerReport.Plus(r), counted := b.counted[c := r], tally := b.tally + [(c, r)]))
  {
    var tally', counted' := b.tally + [(c, r)], b.counted[c := r];
    forall x | x in counted'
      ensures exists j :: 0 <= j < |tally'| && tally'[j].0 == x
    {
      if x == c {
        assert tally'[|b.tally|].0 == x;
      } else {
        var j :| 0 <= j < |b.tally| && b.tally[j].0 == x;
        assert tally'[j].0 == x;
      }
    }
  }

  // What the endpoint's report should be: a failed close of the writer, the root task, and the tally.
  function Owed(s: State): Report {
    Report(0, 0, s.end.writerFailures, 0, 0)
      .Plus(if s.end.rootTaken && s.end.root.Some? then RootRecorded(s.end.root.value) else Zero)
      .Plus(Sum(s.book.tally))
  }

  ghost predicate SumOk(s: State) {
    TallyOk(s.book) && s.end.report.Plus(s.book.ownerReport) == Owed(s)
  }

  lemma {:induction false} PlusLast(a: Report, b: Report, r: Report, tally: seq<(nat, Report)>, c: nat)
    requires a.Plus(Sum(tally)) == b
    ensures a.Plus(Sum(tally + [(c, r)])) == b.Plus(r)
  {
    assert (tally + [(c, r)])[..|tally|] == tally;
  }

  lemma {:induction false} MergeSum(s: State, op: nat, c: nat, r: Report)
    requires SumOk(s) && c !in s.book.counted && op in s.ops && CloserOf(s.ops[op]) == Merge(c, r)
    ensures SumOk(ApplyCloser(s, op))
  {
    hide RootRecorded, TallyOk, Sum;
    MergeTally(s.book, c, r);
    var fixed := Report(0, 0, s.end.writerFailures, 0, 0)
      .Plus(if s.end.rootTaken && s.end.root.Some? then RootRecorded(s.end.root.value) else Zero);
    PlusLast(fixed, Owed(s), r, s.book.tally, c);
  }

  lemma {:induction false} CloserSum(s: State, op: nat)
    requires OwnersOk(s) && SumOk(s) && op in s.ops && CloserReady(s.book, CloserOf(s.ops[op]))
    ensures SumOk(ApplyCloser(s, op))
  {
    hide RootRecorded, TallyOk, Sum, Report.Plus;
    var k := CloserOf(s.ops[op]);
    if k.Merge? {
      MergeSum(s, op, k.conn, k.report);
    } else {
      SameTally(s.book, ApplyCloser(s, op).book);
    }
  }

  lemma {:induction false} SameTally(b: Book, b': Book)
    requires TallyOk(b) && b'.tally == b.tally && b'.counted == b.counted
    ensures TallyOk(b')
  {
  }

  // The steps that change the endpoint's report change what is owed by the same amount.
  lemma {:induction false} EndSum(s: State, l: Label)
    requires EndOk(s) && SumOk(s) && Enabled(s, l) && (l.EndWriterClosed? || l.EndTakeReport? || l.EndRootJoined?)
    ensures SumOk(Apply(s, l))
  {
    hide TallyOk, Sum, RootRecorded, CloserReady, HoldsEnd, Attempts, Suspended;
    SameTally(s.book, Apply(s, l).book);
  }

  lemma {:induction false} OtherSum(s: State, s': State)
    requires SumOk(s) && s'.book.tally == s.book.tally && s'.book.counted == s.book.counted
    requires s'.book.ownerReport == s.book.ownerReport
    requires s'.end.report == s.end.report && s'.end.writerFailures == s.end.writerFailures
    requires s'.end.rootTaken == s.end.rootTaken && (s.end.rootTaken ==> s'.end.root == s.end.root)
    ensures SumOk(s')
  {
    hide TallyOk, Sum, RootRecorded;
    SameTally(s.book, s'.book);
  }

  lemma {:induction false} StepSum(s: State, l: Label)
    requires OwnersOk(s) && EndOk(s) && SumOk(s) && Enabled(s, l)
    ensures SumOk(Apply(s, l))
  {
    hide OwnersOk, SumOk, CloserStep, CloserReady, HoldsEnd, Attempts, Suspended, ApplyCloser, RootDone, WriterDone,
         EndPcOk;
    if l.ConnectAbort? || l.CloseStep? || l.EndStep? {
      CloserSum(s, l.op);
    } else if l.EndWriterClosed? || l.EndTakeReport? || l.EndRootJoined? {
      EndSum(s, l);
    } else {
      OtherSum(s, Apply(s, l));
    }
  }

  // ---------------------------------------------------------------- active connections

  ghost predicate ActiveOk(s: State) {
    && s.book.active <= s.book.registered && s.book.counted.Keys <= s.book.registered
    && (forall op <- s.ops :: CloserOf(s.ops[op]).Leave? ==> CloserOf(s.ops[op]).conn in s.book.counted)
    && (forall op <- s.ops :: s.ops[op].Enlisting? ==> s.ops[op].conn in s.book.registered)
    && (forall c <- s.book.registered :: c in s.book.active || c in s.book.counted || exists op :: Enlists(s, op, c))
  }

  ghost predicate Enlists(s: State, op: nat, c: nat) { op in s.ops && s.ops[op].Enlisting? && s.ops[op].conn == c }

  // The other operations stand where they stood.
  ghost predicate OthersStay(s: State, s': State, op: nat) {
    && (forall o <- s.ops :: o != op ==> o in s'.ops && s'.ops[o] == s.ops[o])
    && (forall o <- s'.ops :: o != op ==> o in s.ops)
  }

  lemma {:induction false} SameActive(s: State, s': State, op: nat)
    requires ActiveOk(s) && OthersStay(s, s', op)
    requires s'.book.active <= s'.book.registered && s'.book.registered == s.book.registered
    requires s.book.counted.Keys <= s'.book.counted.Keys <= s.book.registered
    requires forall c <- s.book.active :: c in s'.book.active || c in s'.book.counted
    requires op in s.ops && s.ops[op].Enlisting? ==> s.ops[op].conn in s'.book.active
    requires op in s'.ops ==> !s'.ops[op].Enlisting?
    requires op in s'.ops && CloserOf(s'.ops[op]).Leave? ==> CloserOf(s'.ops[op]).conn in s'.book.counted
    ensures ActiveOk(s')
  {
    forall c | c in s'.book.registered
      ensures c in s'.book.active || c in s'.book.counted || exists o :: Enlists(s', o, c)
    {
      if c !in s.book.active && c !in s.book.counted {
        var o :| Enlists(s, o, c);
        assert o == op || Enlists(s', o, c);
      }
    }
  }

  lemma {:induction false} CloserActive(s: State, op: nat)
    requires ActiveOk(s) && OwnersOk(s) && op in s.ops && CloserReady(s.book, CloserOf(s.ops[op]))
    ensures ActiveOk(ApplyCloser(s, op))
  {
    SameActive(s, ApplyCloser(s, op), op);
  }

  lemma {:induction false} LockActive(s: State, op: nat, addr: nat, c: nat)
    requires ActiveOk(s) && op in s.ops && s.ops[op].Ready? && c in s.book.conns
    ensures ActiveOk(ApplyConnectLock(s, op, addr, c))
  {
    var s' := ApplyConnectLock(s, op, addr, c);
    forall x | x in s'.book.registered
      ensures x in s'.book.active || x in s'.book.counted || exists o :: Enlists(s', o, x)
    {
      if x in s.book.registered && x !in s.book.active && x !in s.book.counted {
        var o :| Enlists(s, o, x);
        assert Enlists(s', o, x);
      } else if x !in s.book.registered {
        assert Enlists(s', op, x);
      }
    }
  }

  lemma {:induction false} DropActive(s: State, op: nat)
    requires ActiveOk(s) && op in s.ops && Suspended(s.ops[op])
    ensures ActiveOk(ApplyDropped(s, op))
  {
    hide HoldsEnd, Attempts;
    SameActive(s, ApplyDropped(s, op), op);
  }

  lemma {:induction false} StepActive(s: State, l: Label)
    requires ActiveOk(s) && OwnersOk(s) && Enabled(s, l)
    ensures ActiveOk(Apply(s, l))
  {
    hide ActiveOk, OwnersOk, RootDone, WriterDone, HoldsEnd, CloserStep, CloserReady, ApplyCloser, ApplyConnectLock,
         ApplyDropped, Suspended;
    if l.ConnectAbort? || l.CloseStep? || l.EndStep? {
      CloserActive(s, l.op);
    } else if l.ConnectLock? {
      LockActive(s, l.op, s.ops[l.op].addr, s.ops[l.op].conn);
    } else if l.Dropped? {
      DropActive(s, l.op);
    } else if l.TaskEnds? || l.RootEnds? || l.CancelledOutside? {
      EnvActive(s, Apply(s, l));
    } else {
      ActiveSubset(s);
      SameActive(s, Apply(s, l), l.op);
    }
  }

  lemma {:induction false} ActiveSubset(s: State)
    requires ActiveOk(s)
    ensures s.book.active <= s.book.registered && s.book.counted.Keys <= s.book.registered
    ensures forall op <- s.ops :: s.ops[op].Enlisting? ==> s.ops[op].conn in s.book.registered
  {
  }

  lemma {:induction false} EnvActive(s: State, s': State)
    requires ActiveOk(s) && s'.ops == s.ops && s'.book == s.book.(conns := s'.book.conns)
    ensures ActiveOk(s')
  {
    assert forall op, c :: Enlists(s', op, c) <==> Enlists(s, op, c);
  }

  // ---------------------------------------------------------------- nothing is left once all are counted

  ghost predicate DrainedOk(s: State) {
    && (s.end.drained ==> s.book.registered <= s.book.counted.Keys)
    && (s.end.taken ==> s.end.drained && s.book.ownerReport == Zero)
  }

  // An endpoint close that finds no active connection holds the lock: no attempt is entering one.
  lemma {:induction false} NoneEnters(s: State, op: nat, c: nat)
    requires EndOk(s) && op in s.ops && Closing(s.ops[op]) && !s.ops[op].EndWriter? && !s.ops[op].EndRoot?
    ensures forall o :: !Enlists(s, o, c)
  {
    assert EndPcOk(s.end, op, s.ops[op]);
    assert forall o <- s.ops :: EndPcOk(s.end, o, s.ops[o]);
  }

  lemma {:induction false} LookDrains(s: State, op: nat, order: seq<nat>)
    requires EndOk(s) && ActiveOk(s) && DrainedOk(s) && op in s.ops && s.ops[op].EndLoop?
    requires forall c :: c in order <==> c in s.book.active
    ensures DrainedOk(ApplyEndLook(s, op, order))
  {
    if order == [] {
      forall c | c in s.book.registered
        ensures c in s.book.counted
      {
        NoneEnters(s, op, c);
      }
    }
  }

  lemma {:induction false} CloserDrained(s: State, op: nat)
    requires OwnersOk(s) && DrainedOk(s) && op in s.ops && CloserReady(s.book, CloserOf(s.ops[op]))
    ensures DrainedOk(ApplyCloser(s, op))
  {
  }

  lemma {:induction false} StepDrained(s: State, l: Label)
    requires OwnersOk(s) && EndOk(s) && ActiveOk(s) && DrainedOk(s) && Enabled(s, l)
    ensures DrainedOk(Apply(s, l))
  {
    hide OwnersOk, ActiveOk, CloserStep, CloserReady, ApplyCloser, ApplyEndLook, HoldsEnd, Attempts, Suspended;
    if l.ConnectAbort? || l.CloseStep? || l.EndStep? {
      CloserDrained(s, l.op);
    } else if l.EndLook? {
      LookDrains(s, l.op, l.order);
    } else if l.EndTakeReport? {
      assert EndPcOk(s.end, l.op, s.ops[l.op]);
    }
  }

  // ---------------------------------------------------------------- reservations

  ghost predicate Reserves(s: State, op: nat, addr: nat) {
    op in s.ops && Attempts(s.ops[op]) && s.ops[op].addr == addr
  }

  // A peer is reserved by one attempt in flight, and no other attempt to it is in flight.
  ghost predicate ReservedOk(s: State) {
    && (forall a :: a in s.reserved <==> exists op :: Reserves(s, op, a))
    && (forall op, op', a :: Reserves(s, op, a) && Reserves(s, op', a) ==> op == op')
  }

  // No attempt begins or ends.
  lemma {:induction false} KeepReserved(s: State, s': State, op: nat)
    requires ReservedOk(s) && OthersStay(s, s', op) && s'.reserved == s.reserved
    requires forall a :: Reserves(s', op, a) <==> Reserves(s, op, a)
    ensures ReservedOk(s')
  {
    assert forall o, a :: Reserves(s', o, a) <==> Reserves(s, o, a);
  }

  lemma {:induction false} EndReserved(s: State, s': State, op: nat, addr: nat)
    requires ReservedOk(s) && OthersStay(s, s', op) && Reserves(s, op, addr)
    requires op !in s'.ops && s'.reserved == s.reserved - {addr}
    ensures ReservedOk(s')
  {
    assert forall o, a :: Reserves(s', o, a) <==> Reserves(s, o, a) && a != addr;
  }

  lemma {:induction false} StartReserved(s: State, op: nat, addr: nat, hasWriter: bool)
    requires ReservedOk(s) && op !in s.ops
    ensures ReservedOk(ApplyConnectStart(s, op, addr, hasWriter))
  {
    var s' := ApplyConnectStart(s, op, addr, hasWriter);
    if s' != s {
      assert Reserves(s', op, addr);
      assert forall o, a :: Reserves(s', o, a) <==> Reserves(s, o, a) || (o == op && a == addr);
    }
  }

  lemma {:induction false} DropReserved(s: State, op: nat)
    requires ReservedOk(s) && op in s.ops
    ensures ReservedOk(ApplyDropped(s, op))
  {
    if Attempts(s.ops[op]) {
      EndReserved(s, ApplyDropped(s, op), op, s.ops[op].addr);
    } else {
      KeepReserved(s, ApplyDropped(s, op), op);
    }
  }

  lemma {:induction false} StepReserved(s: State, l: Label)
    requires ReservedOk(s) && Enabled(s, l)
    ensures ReservedOk(Apply(s, l))
  {
    hide ReservedOk, CloserStep, CloserReady, HoldsEnd, RootDone, WriterDone, ApplyConnectStart, ApplyDropped;
    var s' := Apply(s, l);
    if l.ConnectStart? {
      StartReserved(s, l.op, l.addr, l.hasWriter);
    } else if l.Dropped? {
      DropReserved(s, l.op);
    } else if l.ConnectFails? || l.ConnectEnlist? || l.ConnectAborted? {
      EndReserved(s, s', l.op, s.ops[l.op].addr);
    } else if l.TaskEnds? || l.RootEnds? || l.CancelledOutside? {
      KeepReserved(s, s', 0);
    } else {
      KeepReserved(s, s', l.op);
    }
  }

  // ---------------------------------------------------------------- runs

  ghost predicate Inv(s: State) {
    && ConnsOk(s) && AttemptsFresh(s) && EndOk(s) && OwnersOk(s)
    && SumOk(s) && ActiveOk(s) && DrainedOk(s) && ReservedOk(s)
  }

  lemma {:induction false} InitReserved()
    ensures ReservedOk(Init)
  {
    assert forall op, a :: !Reserves(Init, op, a);
  }

  lemma {:induction false} InitOwners()
    ensures OwnersOk(Init) && ActiveOk(Init) && DrainedOk(Init)
  {
  }

  lemma {:induction false} EmptyTally(b: Book)
    requires b.tally == [] && b.counted == map[]
    ensures TallyOk(b) && Sum(b.tally) == Zero
  {
  }

  lemma {:induction false} InitSum()
    ensures SumOk(Init)
  {
    hide TallyOk, Sum;
    EmptyTally(Init.book);
  }

  lemma {:induction false} InitEnd()
    ensures EndOk(Init)
  {
  }

  lemma {:induction false} InitConns()
    ensures ConnsOk(Init) && AttemptsFresh(Init)
  {
  }

  lemma {:induction false} InitInv()
    ensures Inv(Init)
  {
    hide ConnsOk, AttemptsFresh, EndOk, OwnersOk, SumOk, ActiveOk, DrainedOk, ReservedOk;
    InitReserved();
    InitOwners();
    InitSum();
    InitEnd();
    InitConns();
  }

  lemma {:induction false} StepInv(s: State, l: Label)
    requires Inv(s) && Enabled(s, l)
    ensures Inv(Apply(s, l))
  {
    hide ConnsOk, AttemptsFresh, EndOk, OwnersOk, SumOk, ActiveOk, DrainedOk, ReservedOk, Apply, Enabled;
    StepConns(s, l);
    StepFresh(s, l);
    StepEnd(s, l);
    StepOwners(s, l);
    StepSum(s, l);
    StepActive(s, l);
    StepDrained(s, l);
    StepReserved(s, l);
  }

  // `s'` is reached from `s` by these steps, in any interleaving the labels describe.
  ghost predicate Run(s: State, labels: seq<Label>, s': State)
    decreases |labels|
  {
    if labels == [] then s' == s
    else Enabled(s, labels[0]) && Run(Apply(s, labels[0]), labels[1..], s')
  }

  lemma {:induction false} RunInv(s: State, labels: seq<Label>, s': State)
    requires Inv(s) && Run(s, labels, s')
    ensures Inv(s')
    decreases |labels|
  {
    hide Inv, Enabled, Apply;
    if labels != [] {
      StepInv(s, labels[0]);
      RunInv(Apply(s, labels[0]), labels[1..], s');
    }
  }

  lemma {:induction false} Reached(labels: seq<Label>, s: State)
    requires Run(Init, labels, s)
    ensures Inv(s)
  {
    hide Inv, Run;
    InitInv();
    RunInv(Init, labels, s);
  }

  // The tally counts each connection that ever registered exactly once, with its own final report.
  ghost predicate CountsEachOnce(b: Book) {
    && (forall c <- b.registered :: exists j :: 0 <= j < |b.tally| && b.tally[j].0 == c)
    && (forall j :: 0 <= j < |b.tally| ==> b.tally[j].0 in b.registered && Final(b, b.tally[j].0, b.tally[j].1))
    && (forall j, k :: 0 <= j < k < |b.tally| ==> b.tally[j].0 != b.tally[k].0)
  }

  // `r` is the final report of connection c: what the ending of its task amounts to.
  ghost predicate Final(b: Book, c: nat, r: Report) {
    && c in b.conns && b.conns[c].completed && r == b.conns[c].report
    && b.conns[c].ending.Some? && r == Recorded(b.conns[c].ending.value)
  }

  // Once some close of the endpoint has completed, under any interleaving of closers, connection
  // attempts and dropped futures: the report is one failure if closing the writer failed, plus the
  // root task's own report, plus the report of each registered connection, counted once.
  lemma {:induction false} ExactlyOnce(labels: seq<Label>, s: State)
    requires Run(Init, labels, s) && s.end.completed
    ensures CountsEachOnce(s.book)
    ensures s.end.root.Some? && s.end.writerFailures <= 1
    ensures s.end.report ==
      Report(0, 0, s.end.writerFailures, 0, 0).Plus(RootRecorded(s.end.root.value)).Plus(Sum(s.book.tally))
  {
    hide Run, Sum, RootRecorded, ActiveOk, AttemptsFresh, ReservedOk;
    Reached(labels, s);
  }

  // ... and that report never changes again: every later close returns the same.
  lemma {:induction false} ReportIsFinal(labels: seq<Label>, s: State, more: seq<Label>, s': State)
    requires Run(Init, labels, s) && s.end.completed && Run(s, more, s')
    ensures s'.end.completed && s'.end.report == s.end.report
  {
    hide Run, Inv;
    Reached(labels, s);
    FinalFrom(s, more, s');
  }

  lemma {:induction false} FinalFrom(s: State, labels: seq<Label>, s': State)
    requires Inv(s) && s.end.completed && Run(s, labels, s')
    ensures s'.end.completed && s'.end.report == s.end.report
    decreases |labels|
  {
    hide Enabled, Apply, ConnsOk, AttemptsFresh, EndOk, OwnersOk, SumOk, ActiveOk, DrainedOk, ReservedOk;
    if labels != [] {
      StepInv(s, labels[0]);
      StepKeepsReport(s, labels[0]);
      FinalFrom(Apply(s, labels[0]), labels[1..], s');
    }
  }

  // At most one connection attempt to a peer is in flight.
  lemma {:induction false} OneAttemptPerPeer(labels: seq<Label>, s: State, op: nat, op': nat)
    requires Run(Init, labels, s) && op in s.ops && op' in s.ops && Attempts(s.ops[op]) && Attempts(s.ops[op'])
    requires s.ops[op].addr == s.ops[op'].addr
    ensures op == op'
  {
    hide Run, ConnsOk, AttemptsFresh, EndOk, OwnersOk, SumOk, ActiveOk, DrainedOk;
    Reached(labels, s);
    assert Reserves(s, op, s.ops[op].addr) && Reserves(s, op', s.ops[op].addr);
  }
}

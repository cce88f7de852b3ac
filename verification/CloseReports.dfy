/**
What the report of a closed endpoint says (base/src/net/rw.rs), told from how the tasks ended: the numbers
of tasks that finished, failed, panicked or were cancelled, whoever counted them and in whatever order.
*/
module CloseReports {
  import opened Options
  import opened ManagedClose

  // `r` reports one task, which ended like this.
  predicate Tells(r: Report, e: Ending) {
    && (r.completed == if e == Finished then 1 else 0)
    && (r.failed == if e == Failed || e == Lost then 1 else 0)
    && (r.panicked == if e == Panicked then 1 else 0)
    && (r.cancelled == if e == Cancelled then 1 else 0)
    && (r.remaining == if e == Cancelled then 1 else 0)
  }

  lemma {:induction false} RecordedTells(e: Ending)
    ensures Tells(Recorded(e), e)
  {
  }

  // The tasks that ended in one of these ways.
  ghost function EndedAs(endings: map<nat, Ending>, ways: set<Ending>): set<nat> {
    set c | c in endings && endings[c] in ways
  }

  // `r` reports these tasks and nothing else.
  ghost predicate Shows(r: Report, endings: map<nat, Ending>) {
    && r.completed == |EndedAs(endings, {Finished})|
    && r.failed == |EndedAs(endings, {Failed, Lost})|
    && r.panicked == |EndedAs(endings, {Panicked})|
    && r.cancelled == |EndedAs(endings, {Cancelled})|
    && r.remaining == |EndedAs(endings, {Cancelled})|
  }

  lemma {:induction false} OneMoreEnded(endings: map<nat, Ending>, c: nat, ways: set<Ending>)
    requires c in endings
    ensures |EndedAs(endings, ways)| == |EndedAs(endings - {c}, ways)| + if endings[c] in ways then 1 else 0
  {
    var rest := EndedAs(endings - {c}, ways);
    assert EndedAs(endings, ways) == if endings[c] in ways then rest + {c} else rest;
  }

  lemma {:induction false} ShowsOneMore(r: Report, endings: map<nat, Ending>, c: nat, last: Report)
    requires c in endings && Shows(r, endings - {c}) && Tells(last, endings[c])
    ensures Shows(r.Plus(last), endings)
  {
    hide EndedAs;
    OneMoreEnded(endings, c, {Finished});
    OneMoreEnded(endings, c, {Failed, Lost});
    OneMoreEnded(endings, c, {Panicked});
    OneMoreEnded(endings, c, {Cancelled});
  }

  // The tally names each of these tasks once, with a report that tells how it ended.
  ghost predicate TellsAll(tally: seq<(nat, Report)>, endings: map<nat, Ending>) {
    && (forall j :: 0 <= j < |tally| ==> tally[j].0 in endings && Tells(tally[j].1, endings[tally[j].0]))
    && (forall c <- endings :: exists j :: 0 <= j < |tally| && tally[j].0 == c)
    && (forall j, k :: 0 <= j < k < |tally| ==> tally[j].0 != tally[k].0)
  }

  // The sum of a tally that names each task once shows them all.
  lemma {:induction false} SumShows(tally: seq<(nat, Report)>, endings: map<nat, Ending>)
    requires TellsAll(tally, endings)
    ensures Shows(Sum(tally), endings)
    decreases |tally|
  {
    hide Tells, Shows, Report.Plus;
    if tally == [] {
      assert endings == map[];
      NoneEnded();
    } else {
      var n := |tally| - 1;
      var (c, last) := tally[n];
      forall x | x in endings - {c}
        ensures exists j :: 0 <= j < n && tally[..n][j].0 == x
      {
        var j :| 0 <= j < |tally| && tally[j].0 == x;
        assert tally[..n][j].0 == x;
      }
      SumShows(tally[..n], endings - {c});
      ShowsOneMore(Sum(tally[..n]), endings, c, last);
    }
  }

  lemma {:induction false} NoneEnded()
    ensures Shows(Zero, map[])
  {
    assert forall ways :: EndedAs(map[], ways) == {};
  }

  // What the root task adds: its own number if it reported, or itself if it ended in one of these ways.
  ghost function FromRoot(root: RootEnding, field: Report -> nat, ways: set<Ending>): nat {
    match root
    case Reported(report) => field(report)
    case NotJoined(ending) => if ending in ways then 1 else 0
  }

  // `r` reports these tasks, the root task, and so many failed closes of the writer.
  ghost predicate ShowsEndpoint(r: Report, endings: map<nat, Ending>, root: RootEnding, writerFailures: nat) {
    && r.completed == |EndedAs(endings, {Finished})| + FromRoot(root, (x: Report) => x.completed, {Finished})
    && r.failed == |EndedAs(endings, {Failed, Lost})| + FromRoot(root, (x: Report) => x.failed, {Failed, Lost})
                   + writerFailures
    && r.panicked == |EndedAs(endings, {Panicked})| + FromRoot(root, (x: Report) => x.panicked, {Panicked})
    && r.cancelled == |EndedAs(endings, {Cancelled})| + FromRoot(root, (x: Report) => x.cancelled, {Cancelled})
    && r.remaining == |EndedAs(endings, {Cancelled})| + FromRoot(root, (x: Report) => x.remaining, {Cancelled})
  }

  lemma {:induction false} EndpointShows(conns: Report, endings: map<nat, Ending>, root: RootEnding, failures: nat)
    requires Shows(conns, endings)
    ensures ShowsEndpoint(Report(0, 0, failures, 0, 0).Plus(RootRecorded(root)).Plus(conns), endings, root, failures)
  {
    hide EndedAs;
    if root.NotJoined? {
      RecordedTells(root.ending);
    }
  }

  // `is_complete`: what decides whether a close returns its report or an error.
  predicate IsComplete(r: Report) { r.failed == 0 && r.panicked == 0 && r.remaining == 0 }

  lemma {:induction false} NoneEndedAs(endings: map<nat, Ending>, ways: set<Ending>)
    ensures |EndedAs(endings, ways)| == 0 <==> forall c <- endings :: endings[c] !in ways
  {
    if |EndedAs(endings, ways)| == 0 {
      assert forall c <- endings :: c !in EndedAs(endings, ways);
    } else {
      assert EndedAs(endings, ways) != {};
      var c :| c in EndedAs(endings, ways);
    }
  }

  lemma {:induction false} CompleteMeans(r: Report, endings: map<nat, Ending>, root: RootEnding, failures: nat)
    requires ShowsEndpoint(r, endings, root, failures)
    ensures IsComplete(r) <==>
      && failures == 0 && (forall c <- endings :: endings[c] == Finished)
      && (if root.Reported? then IsComplete(root.report) else root.ending == Finished)
  {
    hide EndedAs;
    NoneEndedAs(endings, {Failed, Lost});
    NoneEndedAs(endings, {Panicked});
    NoneEndedAs(endings, {Cancelled});
  }

  // ---------------------------------------------------------------- what happened in a run

  // The failed closes of the writer.
  function WriterFailures(labels: seq<Label>): nat {
    if labels == [] then 0
    else (if labels[0].EndWriterClosed? && labels[0].failed then 1 else 0) + WriterFailures(labels[1..])
  }

  // A step that ends no task.
  ghost predicate SameEndings(b: Book, b': Book) {
    && b.conns.Keys <= b'.conns.Keys
    && (forall c <- b'.conns :: b'.conns[c].ending == if c in b.conns then b.conns[c].ending else None)
  }

  lemma {:induction false} CloserEndings(b: Book, op: nat, k: Closer)
    requires CloserReady(b, k)
    ensures SameEndings(b, CloserStep(b, op, k).0)
  {
    hide Recorded, Report.Plus;
  }

  lemma {:induction false} DropEndings(s: State, op: nat)
    requires op in s.ops
    ensures SameEndings(s.book, ApplyDropped(s, op).book)
  {
    hide HoldsEnd, Attempts;
  }

  lemma {:induction false} SpawnEndings(s: State, op: nat, addr: nat)
    requires ConnsOk(s)
    ensures SameEndings(s.book, ApplySpawn(s, op, addr).book)
  {
    hide PcOk, ConnOk;
  }

  lemma {:induction false} StepSame(s: State, l: Label)
    requires ConnsOk(s) && Enabled(s, l) && !l.TaskEnds?
    ensures SameEndings(s.book, Apply(s, l).book)
  {
    hide ConnsOk, HoldsEnd, Attempts, Suspended, RootDone, WriterDone, CloserStep, CloserReady, ApplyDropped,
         ApplySpawn;
    if l.ConnectAbort? || l.CloseStep? || l.EndStep? {
      CloserEndings(s.book, l.op, CloserOf(s.ops[l.op]));
    } else if l.Dropped? {
      DropEndings(s, l.op);
    } else if l.ConnectSpawns? {
      SpawnEndings(s, l.op, s.ops[l.op].addr);
    }
  }

  lemma {:induction false} StepEndings(s: State, l: Label, c: nat, e: Ending)
    requires ConnsOk(s) && Enabled(s, l)
    ensures c in s.book.conns ==> c in Apply(s, l).book.conns
    ensures c in Apply(s, l).book.conns ==>
      (Apply(s, l).book.conns[c].ending == Some(e) <==>
        (c in s.book.conns && s.book.conns[c].ending == Some(e)) || l == TaskEnds(c, e))
    ensures l == TaskEnds(c, e) ==> c in s.book.conns && s.book.conns[c].ending.None?
  {
    hide ConnsOk;
    if l.TaskEnds? {
      hide HoldsEnd, Attempts, Suspended, CloserReady;
    } else {
      hide Enabled, Apply;
      StepSame(s, l);
    }
  }

  lemma {:induction false} RunEndings(s: State, labels: seq<Label>, s': State, c: nat, e: Ending)
    requires Inv(s) && Run(s, labels, s')
    ensures TaskEnds(c, e) in labels ==> c in s'.book.conns
    ensures c in s.book.conns ==> c in s'.book.conns
    ensures c in s'.book.conns ==>
      (s'.book.conns[c].ending == Some(e) <==>
        (c in s.book.conns && s.book.conns[c].ending == Some(e)) || TaskEnds(c, e) in labels)
    decreases |labels|
  {
    hide ConnsOk, AttemptsFresh, EndOk, OwnersOk, SumOk, ActiveOk, DrainedOk, ReservedOk, Enabled, Apply;
    if labels != [] {
      StepInv(s, labels[0]);
      StepEndings(s, labels[0], c, e);
      RunEndings(Apply(s, labels[0]), labels[1..], s', c, e);
      assert TaskEnds(c, e) in labels <==> labels[0] == TaskEnds(c, e) || TaskEnds(c, e) in labels[1..];
    }
  }

  lemma {:induction false} StepEnd(s: State, l: Label)
    requires Enabled(s, l)
    ensures Apply(s, l).end.root == if l.RootEnds? then Some(l.ended) else s.end.root
    ensures l.RootEnds? ==> s.end.root.None? && (l.ended.NotJoined? ==> JoinError(l.ended.ending))
    ensures Apply(s, l).end.writerFailures == s.end.writerFailures + WriterFailures([l])
  {
    hide HoldsEnd, Attempts, Suspended, CloserStep, CloserReady, RootRecorded;
    assert [l][1..] == [];
  }

  lemma {:induction false} RunEnd(s: State, labels: seq<Label>, s': State, ended: RootEnding)
    requires Run(s, labels, s')
    ensures s'.end.root == Some(ended) <==> s.end.root == Some(ended) || RootEnds(ended) in labels
    ensures s.end.root.Some? ==> s'.end.root == s.end.root && RootEnds(ended) !in labels
    ensures RootEnds(ended) in labels && ended.NotJoined? ==> JoinError(ended.ending)
    ensures s'.end.writerFailures == s.end.writerFailures + WriterFailures(labels)
    decreases |labels|
  {
    hide Enabled, Apply;
    if labels != [] {
      StepEnd(s, labels[0]);
      assert [labels[0]][1..] == [];
      RunEnd(Apply(s, labels[0]), labels[1..], s', ended);
      assert RootEnds(ended) in labels <==> labels[0] == RootEnds(ended) || RootEnds(ended) in labels[1..];
    }
  }

  // How the tasks of the registered connections ended, once all are counted.
  ghost function Endings(b: Book): map<nat, Ending>
    requires forall c <- b.registered :: c in b.conns && b.conns[c].ending.Some?
  {
    map c | c in b.registered :: b.conns[c].ending.value
  }

  lemma {:induction false} CountedEnded(b: Book)
    requires CountsEachOnce(b)
    ensures forall c <- b.registered :: c in b.conns && b.conns[c].ending.Some?
    ensures TellsAll(b.tally, Endings(b))
  {
    hide Recorded, Tells;
    forall c | c in b.registered
      ensures c in b.conns && b.conns[c].ending.Some?
    {
      var j :| 0 <= j < |b.tally| && b.tally[j].0 == c;
      assert Final(b, c, b.tally[j].1);
    }
    forall j | 0 <= j < |b.tally|
      ensures b.tally[j].0 in Endings(b) && Tells(b.tally[j].1, Endings(b)[b.tally[j].0])
    {
      assert Final(b, b.tally[j].0, b.tally[j].1);
      RecordedTells(Endings(b)[b.tally[j].0]);
    }
  }

  // Once some close of the endpoint has completed, under any interleaving of closers, connection attempts
  // and dropped futures: its report shows how the task of every registered connection ended and how the
  // root task did, each once, and whether closing the writer failed.
  lemma {:induction false} ReportShows(labels: seq<Label>, s: State)
    returns (endings: map<nat, Ending>, root: RootEnding)
    requires Run(Init, labels, s) && s.end.completed
    ensures endings.Keys == s.book.registered
    ensures forall c, e :: c in endings ==> (TaskEnds(c, e) in labels <==> e == endings[c])
    ensures forall ended :: RootEnds(ended) in labels <==> ended == root
    ensures root.NotJoined? ==> JoinError(root.ending)
    ensures ShowsEndpoint(s.end.report, endings, root, WriterFailures(labels)) && WriterFailures(labels) <= 1
  {
    hide Run, Inv, Sum, CountsEachOnce, TellsAll, RootRecorded, Report.Plus, ShowsEndpoint, Shows, Final;
    ExactlyOnce(labels, s);
    CountedEnded(s.book);
    endings, root := Endings(s.book), s.end.root.value;
    SumShows(s.book.tally, endings);
    InitInv();
    RunEnd(Init, labels, s, root);
    EndpointShows(Sum(s.book.tally), endings, root, s.end.writerFailures);
    forall c, e | c in endings
      ensures TaskEnds(c, e) in labels <==> e == endings[c]
    {
      RunEndings(Init, labels, s, c, e);
    }
    forall ended
      ensures RootEnds(ended) in labels <==> ended == root
    {
      RunEnd(Init, labels, s, ended);
    }
  }

  // So the close returns its report, and not an error, exactly when closing the writer succeeded, the task of
  // every registered connection finished, and the root task reported no trouble.
  lemma {:induction false} CleanExactly(labels: seq<Label>, s: State)
    requires Run(Init, labels, s) && s.end.completed
    ensures IsComplete(s.end.report) <==>
      && (forall op :: EndWriterClosed(op, true) !in labels)
      && (forall c <- s.book.registered :: TaskEnds(c, Finished) in labels)
      && (exists report :: RootEnds(Reported(report)) in labels && IsComplete(report))
  {
    hide Run, ShowsEndpoint, IsComplete;
    var endings, root := ReportShows(labels, s);
    CompleteMeans(s.end.report, endings, root, WriterFailures(labels));
    NoFailures(labels);
    assert RootEnds(root) in labels;
    assert forall report :: RootEnds(Reported(report)) in labels ==> root == Reported(report);
    assert forall c <- endings :: TaskEnds(c, Finished) in labels <==> endings[c] == Finished;
  }

  lemma {:induction false} NoFailures(labels: seq<Label>)
    ensures WriterFailures(labels) == 0 <==> forall op :: EndWriterClosed(op, true) !in labels
  {
    if labels != [] {
      NoFailures(labels[1..]);
      assert forall l :: l in labels <==> l == labels[0] || l in labels[1..];
      if labels[0].EndWriterClosed? && labels[0].failed {
        assert labels[0] == EndWriterClosed(labels[0].op, true);
      }
    }
  }

  // A connection's own close returns what its task did, registered or not: whoever has yet to count it
  // carries that report.
  lemma {:induction false} ConnectionTells(labels: seq<Label>, s: State, c: nat) returns (ending: Ending)
    requires Run(Init, labels, s) && c in s.book.conns && s.book.conns[c].completed
    ensures forall e :: TaskEnds(c, e) in labels <==> e == ending
    ensures Tells(s.book.conns[c].report, ending)
    ensures forall op <- s.ops :: var k := CloserOf(s.ops[op]);
      (k.Finalize? || k.Merge?) && k.conn == c ==> k.report == s.book.conns[c].report
  {
    hide Run, AttemptsFresh, EndOk, OwnersOk, SumOk, ActiveOk, DrainedOk, ReservedOk, Recorded, Tells;
    Reached(labels, s);
    InitInv();
    ending := s.book.conns[c].ending.value;
    RecordedTells(ending);
    assert forall op <- s.ops :: PcOk(s.book, op, s.ops[op]);
    forall e
      ensures TaskEnds(c, e) in labels <==> e == ending
    {
      RunEndings(Init, labels, s, c, e);
    }
  }
}

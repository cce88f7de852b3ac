/**
The two `close_and_wait` of a managed endpoint in place (base/src/net/rw.rs). The stretches of a closer
of one connection are the steps of ManagedClose, which treats closers that interleave or are dropped;
run in a row by one caller, they return what every other call returns.
*/
module NetworkClose {
  import opened Options
  import opened ManagedClose
  import opened CloseReports

  // What connections share with the endpoint that owns them.
  class Owner {
    var active: map<nat, Connection>
    var collected: Report
    ghost var counted: map<nat, Report>
    ghost var tally: seq<(nat, Report)>

    constructor ()
      ensures active == map[] && collected == Zero && counted == map[] && tally == []
    {
      active, collected, counted, tally := map[], Zero, map[], [];
    }
  }

  // The first five methods are the stretches of `close_and_wait` and `finalize_owner` between two points
  // at which another closer can run: each is the step that ManagedClose gives for it.
  class Connection {
    const id: nat
    const ending: Ending      // how the connection's task ends
    var task: Option<Ending>  // the task's handle, until it is joined
    var lock: Option<nat>     // the closer that holds the close state
    var completed: bool
    var report: Report
    var owned: bool

    ghost predicate Valid()
      reads this
    {
      if completed then task == None && lock == None && Tells(report, ending)
      else task == Some(ending) && report == Zero
    }

    constructor (id: nat, ending: Ending)
      ensures Valid() && this.id == id && this.ending == ending && lock == None && !completed && !owned
    {
      this.id, this.ending, task, lock := id, ending, Some(ending), None;
      completed, report, owned := false, Zero, false;
    }

    ghost function AsConn(): Conn
      reads this
    {
      Conn(lock, Some(ending), completed, report, owned)
    }

    // The connection and its owner, as ManagedClose sees them once the task has ended.
    ghost function View(owner: Owner): Book
      reads this, owner
    {
      Book(map[id := AsConn()], 0, owner.active.Keys, owner.collected,
           {}, {}, owner.counted, owner.tally)
    }

    // The report that closing the connection leads to, or led to: it tells how the task ends.
    ghost function FinalReport(): Report
      reads this
    {
      if completed then report else report.Plus(Recorded(ending))
    }

    method LockState(op: nat, owner: Owner) returns (k: Closer)
      requires Valid() && lock == None
      modifies this`lock
      ensures Valid() && (View(owner), k) == CloserStep(old(View(owner)), op, Want(id))
      ensures completed || (lock == Some(op) && k == Await(id))
    {
      ghost var was := AsConn();
      if completed {
        return Finalize(id, report);
      }
      lock := Some(op);
      k := Await(id);
      SetOnce(id, was, AsConn());
    }

    method JoinTask(op: nat, owner: Owner) returns (k: Closer)
      requires Valid() && lock == Some(op) && !completed
      modifies this`task, this`lock, this`completed, this`report
      ensures Valid() && (View(owner), k) == CloserStep(old(View(owner)), op, Await(id))
      ensures completed && Tells(report, ending) && k == Finalize(id, report)
    {
      hide Report.Plus, Recorded, Tells;
      RecordedTells(ending);
      ZeroPlus(Recorded(ending));
      ghost var was := AsConn();
      report := report.Plus(Recorded(task.value));
      task := None;
      completed := true;
      lock := None;
      k := Finalize(id, report);
      SetOnce(id, was, AsConn());
    }

    method SwapOwner(op: nat, r: Report, owner: Owner) returns (k: Closer)
      requires Valid()
      modifies this`owned
      ensures Valid() && (View(owner), k) == CloserStep(old(View(owner)), op, Finalize(id, r))
    {
      ghost var was := AsConn();
      var swapped := owned;
      owned := false;
      k := if swapped then Merge(id, r) else Closed;
      SetOnce(id, was, AsConn());
    }

    method MergeReport(op: nat, r: Report, owner: Owner) returns (k: Closer)
      requires Valid()
      modifies owner`collected, owner`counted, owner`tally
      ensures Valid() && (View(owner), k) == CloserStep(old(View(owner)), op, Merge(id, r))
      ensures owner.tally == old(owner.tally) + [(id, r)]
    {
      owner.collected := owner.collected.Plus(r);
      owner.counted, owner.tally := owner.counted[id := r], owner.tally + [(id, r)];
      k := Leave(id);
    }

    method LeaveOwner(op: nat, owner: Owner) returns (k: Closer)
      requires Valid()
      modifies owner`active
      ensures Valid() && (View(owner), k) == CloserStep(old(View(owner)), op, Leave(id))
      ensures owner.active == old(owner.active) - {id}
    {
      owner.active := owner.active - {id};
      k := Closed;
    }

    // All stretches in a row, by a closer that nobody disturbs.
    method CloseAndWait(op: nat, owner: Owner) returns (r: Report)
      requires Valid() && lock == None
      modifies this, owner
      ensures Valid() && lock == None && completed && !owned && r == report == FinalReport() == old(FinalReport())
      ensures Tells(r, ending)
      ensures owner.collected == if old(owned) then old(owner.collected).Plus(r) else old(owner.collected)
      ensures owner.tally == if old(owned) then old(owner.tally) + [(id, r)] else old(owner.tally)
      ensures owner.active == if old(owned) then old(owner.active) - {id} else old(owner.active)
    {
      hide Report.Plus, Recorded, Tells;
      var k := LockState(op, owner);
      if k.Await? {
        k := JoinTask(op, owner);
      }
      r := k.report;
      k := SwapOwner(op, r, owner);
      if k.Merge? {
        k := MergeReport(op, r, owner);
        k := LeaveOwner(op, owner);
      }
    }
  }

  // The tally names each of these connections once, with its report, and no other.
  ghost predicate Once(tally: seq<(nat, Report)>, finals: map<nat, Report>) {
    && (forall j :: 0 <= j < |tally| ==> tally[j].0 in finals && tally[j].1 == finals[tally[j].0])
    && (forall c <- finals :: exists j :: 0 <= j < |tally| && tally[j].0 == c)
    && (forall j, k :: 0 <= j < k < |tally| ==> tally[j].0 != tally[k].0)
  }

  // Each of these reports tells how the connection's task ended.
  ghost predicate AllTell(finals: map<nat, Report>, endings: map<nat, Ending>) {
    finals.Keys == endings.Keys && forall c <- finals :: Tells(finals[c], endings[c])
  }

  class Endpoint {
    const owner: Owner
    var root: Option<RootEnding>  // the root task's handle
    var report: Report
    var writerClosed: bool
    var completed: bool
    var cancelled: bool

    ghost predicate Valid()
      reads this, owner, owner.active.Values
    {
      forall id <- owner.active ::
        (var c := owner.active[id]; c.id == id && c.owned && c.Valid() && c.lock == None)
    }

    constructor (root: RootEnding)
      ensures Valid() && fresh(owner) && owner.active == map[] && owner.collected == report == Zero
      ensures this.root == Some(root) && !writerClosed && !completed && !cancelled
    {
      this.root, report, writerClosed, completed, cancelled := Some(root), Zero, false, false, false;
      owner := new Owner();
    }

    // The endpoint's cancellation token is cancelled from outside.
    method Cancel()
      requires Valid()
      modifies this`cancelled
      ensures Valid() && cancelled
    {
      cancelled := true;
    }

    // The end of `connect_tcp`: a connection that comes too late is closed instead, and nobody counts it.
    method Enlist(op: nat, connection: Connection) returns (ok: bool)
      requires Valid() && connection.id !in owner.active
      requires connection.Valid() && connection.lock == None && !connection.owned
      modifies connection, owner
      ensures Valid() && ok == (!cancelled && !completed)
      ensures owner.active == if ok then old(owner.active)[connection.id := connection] else old(owner.active)
      ensures connection.FinalReport() == old(connection.FinalReport())
      ensures connection.owned == ok && (!ok ==> connection.completed)
      ensures owner.collected == old(owner.collected) && owner.tally == old(owner.tally)
    {
      ok := !cancelled && !completed;
      if ok {
        connection.owned := true;
        owner.active := owner.active[connection.id := connection];
      } else {
        var _ := connection.CloseAndWait(op, owner);
      }
    }

    ghost function FinalReports(): (finals: map<nat, Report>)
      reads owner, owner.active.Values
    {
      map c | c in owner.active :: owner.active[c].FinalReport()
    }

    // How the active connections' tasks end.
    ghost function Endings(): map<nat, Ending>
      reads owner
    {
      map c | c in owner.active :: owner.active[c].ending
    }

    lemma {:induction false} FinalsTell()
      requires Valid()
      ensures AllTell(FinalReports(), Endings())
    {
      hide Tells, Recorded, Report.Plus;
      forall c | c in owner.active
        ensures Tells(owner.active[c].FinalReport(), owner.active[c].ending)
      {
        RecordedTells(owner.active[c].ending);
        ZeroPlus(Recorded(owner.active[c].ending));
      }
    }

    // One pass over the connections active when it starts.
    method CloseListed(op: nat) returns (ghost tally: seq<(nat, Report)>)
      requires Valid()
      modifies owner, owner.active.Values
      ensures owner.active == map[] && Once(tally, old(FinalReports()))
      ensures owner.collected == old(owner.collected).Plus(Sum(tally))
    {
      hide Once, Sum, Report.Plus;
      tally := [];
      NoneYet();
      PlusZero(owner.collected);
      var snapshot := owner.active;
      ghost var finals := FinalReports();
      var listed := snapshot.Keys;
      assert finals - listed == map[];
      while listed != {}
        invariant listed <= snapshot.Keys && owner.active == snapshot - (snapshot.Keys - listed)
        invariant forall c <- listed :: snapshot[c].id == c && snapshot[c].owned && snapshot[c].Valid()
        invariant forall c <- listed :: snapshot[c].lock == None && snapshot[c].FinalReport() == finals[c]
        invariant Once(tally, finals - listed)
        invariant owner.collected == old(owner.collected).Plus(Sum(tally))
      {
        var id :| id in listed;
        var r := snapshot[id].CloseAndWait(op, owner);
        OneMore(tally, finals - listed, id, r);
        OneLess(finals, listed, id);
        PlusMore(old(owner.collected), Sum(tally), r);
        listed := listed - {id};
        tally := tally + [(id, r)];
      }
      assert finals - {} == finals;
    }

    // Closes the active connections until none is left.
    method CloseConnections(op: nat) returns (ghost tally: seq<(nat, Report)>)
      requires Valid()
      modifies owner, owner.active.Values
      ensures owner.active == map[] && Once(tally, old(FinalReports()))
      ensures owner.collected == old(owner.collected).Plus(Sum(tally))
    {
      hide Once, Sum, Report.Plus;
      tally := [];
      NoneYet();
      PlusZero(owner.collected);
      ghost var none := owner.active == map[];
      while owner.active != map[]
        invariant !none && owner.active != map[] ==>
          Valid() && unchanged(owner) && FinalReports() == old(FinalReports()) && owner.active == old(owner.active)
        invariant none || owner.active == map[] ==>
          owner.active == map[] && Once(tally, old(FinalReports()))
        invariant none || owner.active == map[] ==> owner.collected == old(owner.collected).Plus(Sum(tally))
        decreases |owner.active|
      {
        tally := CloseListed(op);
      }
    }

    // Beside what was reported and collected before, the report shows how each active connection's task ended,
    // how the root task did, and whether closing the writer failed.
    method CloseAndWait(op: nat, writerFails: bool)
      returns (r: Report, ghost tally: seq<(nat, Report)>, ghost shown: Report)
      requires Valid()
      modifies this, owner, owner.active.Values
      ensures Valid() && completed && r == report && (!old(completed) ==> cancelled)
      ensures old(completed) ==> r == old(report) && owner.active == old(owner.active)
      ensures !old(completed) ==> owner.active == map[] && Once(tally, old(FinalReports()))
      ensures !old(completed) ==>
        r == old(report).Plus(if writerFails && !old(writerClosed) then OneFailure else Zero)
             .Plus(old(owner.collected).Plus(Sum(tally)))
             .Plus(if old(root).Some? then RootRecorded(old(root).value) else Zero)
      ensures !old(completed) ==> r == old(report).Plus(old(owner.collected)).Plus(shown)
      ensures !old(completed) ==>
        ShowsEndpoint(shown, old(Endings()), if old(root).Some? then old(root).value else Reported(Zero),
                      if writerFails && !old(writerClosed) then 1 else 0)
    {
      hide Once, Sum, RootRecorded, Recorded, Report.Plus, Tells, AllTell, Shows, ShowsEndpoint;
      tally, shown := [], Zero;
      PlusZero(report);
      if completed {
        return report, tally, shown;
      }
      ghost var finals, endings := FinalReports(), Endings();
      FinalsTell();
      cancelled := true;
      if !writerClosed {
        writerClosed := true;
        if writerFails {
          report := report.Plus(OneFailure);
        }
      }
      tally := CloseConnections(op);
      report := report.Plus(owner.collected);
      owner.collected := Zero;
      if root.Some? {
        report := report.Plus(RootRecorded(root.value));
        root := None;
      } else {
        PlusZero(report);
      }
      completed := true;
      r := report;
      shown := Shown(old(report), old(owner.collected), tally, finals, endings, old(root),
                     if writerFails && !old(writerClosed) then 1 else 0);
    }
  }

  lemma {:induction false} OneLess(finals: map<nat, Report>, listed: set<nat>, id: nat)
    requires id in listed && id in finals
    ensures finals - (listed - {id}) == (finals - listed)[id := finals[id]]
  {
  }

  lemma {:induction false} PlusMore(a: Report, b: Report, r: Report)
    ensures a.Plus(b).Plus(r) == a.Plus(b.Plus(r))
  {
  }

  lemma {:induction false} PlusZero(r: Report)
    ensures r.Plus(Zero) == r
  {
  }

  lemma {:induction false} ZeroPlus(r: Report)
    ensures Zero.Plus(r) == r
  {
  }

  // What one undisturbed close adds to the report.
  lemma {:induction false} Shown(report: Report, collected: Report, tally: seq<(nat, Report)>,
      finals: map<nat, Report>, endings: map<nat, Ending>, root: Option<RootEnding>, failures: nat)
    returns (shown: Report)
    requires Once(tally, finals) && AllTell(finals, endings)
    ensures ShowsEndpoint(shown, endings, if root.Some? then root.value else Reported(Zero), failures)
    ensures report.Plus(Report(0, 0, failures, 0, 0)).Plus(collected.Plus(Sum(tally)))
              .Plus(if root.Some? then RootRecorded(root.value) else Zero) == report.Plus(collected).Plus(shown)
  {
    hide Once, TellsAll, Shows, ShowsEndpoint, Tells, Sum;
    var ended := if root.Some? then root.value else Reported(Zero);
    OnceTells(tally, finals, endings);
    SumShows(tally, endings);
    EndpointShows(Sum(tally), endings, ended, failures);
    shown := Report(0, 0, failures, 0, 0).Plus(RootRecorded(ended)).Plus(Sum(tally));
  }

  lemma {:induction false} OnceTells(tally: seq<(nat, Report)>, finals: map<nat, Report>, endings: map<nat, Ending>)
    requires Once(tally, finals) && AllTell(finals, endings)
    ensures TellsAll(tally, endings)
  {
    hide Tells;
  }

  lemma {:induction false} SetOnce(id: nat, a: Conn, b: Conn)
    ensures map[id := a][id := b] == map[id := b]
    ensures map[id := a][id] == a
  {
  }

  lemma {:induction false} NoneYet()
    ensures Once([], map[]) && Sum([]) == Zero
  {
  }

  lemma {:induction false} OneMore(tally: seq<(nat, Report)>, finals: map<nat, Report>, id: nat, r: Report)
    requires Once(tally, finals) && id !in finals
    ensures Once(tally + [(id, r)], finals[id := r])
    ensures Sum(tally + [(id, r)]) == Sum(tally).Plus(r)
  {
    var tally', finals' := tally + [(id, r)], finals[id := r];
    assert tally'[..|tally|] == tally && tally'[|tally|].0 == id;
    forall c | c in finals' ensures exists j :: 0 <= j < |tally'| && tally'[j].0 == c {
      if c != id {
        var j :| 0 <= j < |tally| && tally[j].0 == c;
        assert tally'[j].0 == c;
      }
    }
  }
}

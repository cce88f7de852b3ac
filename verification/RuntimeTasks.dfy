/**
Task accounting of one runtime (base/src/utils/rt.rs). A state machine whose steps are the sections
under the task gate and the two halves of a guard's end: counting how the task ended, then leaving
the map of active tasks. Assumed of the task tracker: its wait ends only after it has been closed and
every task spawned through it has dropped its future, and with it its guard.
*/
module RuntimeTasks {

  import opened Options

  datatype Kind = Completed | Cancelled | Panicked

  // A guard is running, or has counted its task and is about to leave the map of active tasks.
  datatype Guard = Running | Leaving

  datatype State = State(
    accepting: bool, nextId: nat, active: map<nat, string>,
    completed: nat, cancelled: nat, panicked: nat, guards: map<nat, Guard>)

  const Init := State(true, 0, map[], 0, 0, 0, map[])

  datatype Label =
    | Spawn(name: string)          // `spawn` and `spawn_blocking`, under the gate
    | CloseGate                    // `shutdown_runtime` and `prepare_main_shutdown`, under the gate
    | Count(id: nat, kind: Kind)   // first half of `complete`, `panic` and `drop`
    | Leave(id: nat)               // second half

  predicate Enabled(s: State, l: Label) {
    match l
    case Spawn(_) => true
    case CloseGate => true
    case Count(id, _) => id in s.guards && s.guards[id].Running?
    case Leave(id) => id in s.guards && s.guards[id].Leaving?
  }

  function Counted(s: State, kind: Kind): State {
    match kind
    case Completed => s.(completed := s.completed + 1)
    case Cancelled => s.(cancelled := s.cancelled + 1)
    case Panicked => s.(panicked := s.panicked + 1)
  }

  function Apply(s: State, l: Label): State
    requires Enabled(s, l)
  {
    match l
    case Spawn(name) =>
      if !s.accepting then s
      else s.(nextId := s.nextId + 1, active := s.active[s.nextId := name], guards := s.guards[s.nextId := Running])
    case CloseGate => s.(accepting := false)
    case Count(id, kind) => Counted(s, kind).(guards := s.guards[id := Leaving])
    case Leave(id) => s.(active := s.active - {id}, guards := s.guards - {id})
  }

  ghost predicate Run(s: State, labels: seq<Label>, s': State)
    decreases |labels|
  {
    if labels == [] then s' == s
    else Enabled(s, labels[0]) && Run(Apply(s, labels[0]), labels[1..], s')
  }

  // The guards that have counted their task but are still in the map.
  ghost function LeavingIds(s: State): set<nat> { set id | id in s.guards && s.guards[id].Leaving? }

  ghost predicate Inv(s: State) {
    && s.guards.Keys == s.active.Keys
    && (forall id <- s.guards :: id < s.nextId)
    && s.nextId + |LeavingIds(s)| == |s.active| + s.completed + s.cancelled + s.panicked
  }

  lemma {:induction false} SpawnInv(s: State, name: string)
    requires Inv(s) && s.accepting
    ensures Inv(Apply(s, Spawn(name)))
  {
    var s' := Apply(s, Spawn(name));
    assert s.nextId !in s.active;
    assert |s'.active| == |s.active| + 1;
    assert LeavingIds(s') == LeavingIds(s);
  }

  lemma {:induction false} CountInv(s: State, id: nat, kind: Kind)
    requires Inv(s) && Enabled(s, Count(id, kind))
    ensures Inv(Apply(s, Count(id, kind)))
  {
    var s' := Apply(s, Count(id, kind));
    assert id !in LeavingIds(s);
    assert LeavingIds(s') == LeavingIds(s) + {id};
  }

  lemma {:induction false} LeaveInv(s: State, id: nat)
    requires Inv(s) && Enabled(s, Leave(id))
    ensures Inv(Apply(s, Leave(id)))
  {
    var s' := Apply(s, Leave(id));
    assert id in s.active && |s.active.Keys| == |s.active| && |s'.active.Keys| == |s'.active|;
    assert s'.active.Keys == s.active.Keys - {id};
    assert LeavingIds(s') == LeavingIds(s) - {id};
  }

  lemma {:induction false} StepInv(s: State, l: Label)
    requires Inv(s) && Enabled(s, l)
    ensures Inv(Apply(s, l))
  {
    hide Inv;
    match l
    case Spawn(name) =>
      if s.accepting {
        SpawnInv(s, name);
      }
    case CloseGate => CloseInv(s);
    case Count(id, kind) => CountInv(s, id, kind);
    case Leave(id) => LeaveInv(s, id);
  }

  lemma {:induction false} CloseInv(s: State)
    requires Inv(s)
    ensures Inv(s.(accepting := false))
  {
    assert LeavingIds(s.(accepting := false)) == LeavingIds(s);
  }

  lemma {:induction false} RunInv(s: State, labels: seq<Label>, s': State)
    requires Inv(s) && Run(s, labels, s')
    ensures Inv(s')
    decreases |labels|
  {
    hide Inv, Apply;
    if labels != [] {
      StepInv(s, labels[0]);
      RunInv(Apply(s, labels[0]), labels[1..], s');
    }
  }

  lemma {:induction false} Reached(labels: seq<Label>, s: State)
    requires Run(Init, labels, s)
    ensures Inv(s)
  {
    assert Inv(Init) by {
      assert LeavingIds(Init) == {};
    }
    RunInv(Init, labels, s);
  }

  // Every task ever started is active or has been counted under one kind; a guard between the two
  // halves of its end is in both.
  lemma {:induction false} Conservation(labels: seq<Label>, s: State)
    requires Run(Init, labels, s)
    ensures s.nextId + |LeavingIds(s)| == |s.active| + s.completed + s.cancelled + s.panicked
    ensures (forall id <- s.guards :: s.guards[id].Running?) ==>
      s.nextId == |s.active| + s.completed + s.cancelled + s.panicked
  {
    assert Inv(Init) by {
      assert LeavingIds(Init) == {};
    }
    RunInv(Init, labels, s);
    if forall id <- s.guards :: s.guards[id].Running? {
      assert LeavingIds(s) == {};
    }
  }

  // Once the gate is closed no task is admitted, ever.
  lemma {:induction false} ClosedAdmitsNone(s: State, labels: seq<Label>, s': State)
    requires !s.accepting && Run(s, labels, s')
    ensures !s'.accepting && s'.nextId == s.nextId && s'.guards.Keys <= s.guards.Keys
    decreases |labels|
  {
    if labels != [] {
      ClosedAdmitsNone(Apply(s, labels[0]), labels[1..], s');
    }
  }

  // ---------------------------------------------------------------- what a run did

  // How many tasks ended this way.
  function Times(labels: seq<Label>, kind: Kind): nat {
    if labels == [] then 0
    else (if labels[0].Count? && labels[0].kind == kind then 1 else 0) + Times(labels[1..], kind)
  }

  // The names of the tasks spawned before the gate closed, in order.
  function Admitted(labels: seq<Label>): seq<string> {
    if labels == [] || labels[0].CloseGate? then []
    else (if labels[0].Spawn? then [labels[0].name] else []) + Admitted(labels[1..])
  }

  lemma {:induction false} CountersFrom(s: State, labels: seq<Label>, s': State)
    requires Run(s, labels, s')
    ensures s'.completed == s.completed + Times(labels, Completed)
    ensures s'.cancelled == s.cancelled + Times(labels, Cancelled)
    ensures s'.panicked == s.panicked + Times(labels, Panicked)
    decreases |labels|
  {
    if labels != [] {
      CountersFrom(Apply(s, labels[0]), labels[1..], s');
    }
  }

  // A counter is above zero exactly when some task ended that way.
  lemma {:induction false} TimesPositive(labels: seq<Label>, kind: Kind)
    ensures Times(labels, kind) > 0 <==> exists id :: Count(id, kind) in labels
  {
    if labels != [] {
      TimesPositive(labels[1..], kind);
      assert forall l :: l in labels <==> l == labels[0] || l in labels[1..];
      if labels[0].Count? && labels[0].kind == kind {
        assert labels[0] == Count(labels[0].id, kind);
      }
    }
  }

  lemma {:induction false} TimesJoin(a: seq<Label>, b: seq<Label>, kind: Kind)
    ensures Times(a + b, kind) == Times(a, kind) + Times(b, kind)
  {
    if a == [] {
      assert a + b == b;
    } else {
      assert (a + b)[1..] == a[1..] + b;
      TimesJoin(a[1..], b, kind);
    }
  }

  // Who is active after one step, and under which name.
  lemma {:induction false} StepActive(s: State, l: Label, id: nat)
    requires Inv(s) && Enabled(s, l)
    ensures var s' := Apply(s, l);
      && (id in s'.active <==> (id in s.active || s.nextId <= id < s'.nextId) && l != Leave(id))
      && (id in s.active && id in s'.active ==> s'.active[id] == s.active[id])
      && (s.accepting && l.Spawn? ==> s'.nextId == s.nextId + 1 && s'.active[s.nextId] == l.name)
      && (!(s.accepting && l.Spawn?) ==> s'.nextId == s.nextId)
      && (s'.accepting <==> s.accepting && !l.CloseGate?)
  {
  }

  lemma {:induction false} ActiveFrom(s: State, labels: seq<Label>, s': State, id: nat)
    requires Inv(s) && Run(s, labels, s')
    ensures s'.accepting <==> s.accepting && CloseGate !in labels
    ensures s'.nextId == s.nextId + if s.accepting then |Admitted(labels)| else 0
    ensures id in s'.active <==> (id in s.active || s.nextId <= id < s'.nextId) && Leave(id) !in labels
    ensures id in s'.active && id in s.active ==> s'.active[id] == s.active[id]
    ensures id in s'.active && id >= s.nextId ==> s.accepting && s'.active[id] == Admitted(labels)[id - s.nextId]
    decreases |labels|
  {
    hide Inv, Apply, Enabled;
    IdsBelow(s, id);
    if labels != [] {
      var next := Apply(s, labels[0]);
      StepInv(s, labels[0]);
      StepActive(s, labels[0], id);
      ActiveFrom(next, labels[1..], s', id);
      assert forall l :: l in labels <==> l == labels[0] || l in labels[1..];
    }
  }

  lemma {:induction false} IdsBelow(s: State, id: nat)
    requires Inv(s)
    ensures id in s.active || Enabled(s, Leave(id)) ==> id < s.nextId
  {
  }

  // No run counts a task twice.
  ghost predicate CountsOnce(labels: seq<Label>) {
    forall j, k :: 0 <= j < k < |labels| && labels[j].Count? && labels[k].Count? ==> labels[j].id != labels[k].id
  }

  ghost predicate CountsTask(labels: seq<Label>, id: nat) {
    exists k :: 0 <= k < |labels| && labels[k].Count? && labels[k].id == id
  }

  // A task has yet to be counted: its guard is running, or it has not been started.
  predicate Uncounted(s: State, id: nat) { id >= s.nextId || (id in s.guards && s.guards[id].Running?) }

  lemma {:induction false} StepCounts(s: State, l: Label, id: nat)
    requires Inv(s) && Enabled(s, l)
    ensures Uncounted(Apply(s, l), id) <==> Uncounted(s, id) && !(l.Count? && l.id == id)
    ensures l.Count? ==> Uncounted(s, l.id) && l.id < s.nextId
  {
  }

  lemma {:induction false} CountsFrom(s: State, labels: seq<Label>, s': State, id: nat)
    requires Inv(s) && Run(s, labels, s')
    ensures Uncounted(s', id) <==> Uncounted(s, id) && !CountsTask(labels, id)
    ensures !Uncounted(s, id) ==> !CountsTask(labels, id)
    decreases |labels|
  {
    hide Inv, Apply, Enabled, Uncounted;
    if labels != [] {
      StepInv(s, labels[0]);
      StepCounts(s, labels[0], id);
      CountsFrom(Apply(s, labels[0]), labels[1..], s', id);
      CountsTaskSplit(labels, id);
    }
  }

  lemma {:induction false} CountsTaskSplit(labels: seq<Label>, id: nat)
    requires labels != []
    ensures CountsTask(labels, id) <==> (labels[0].Count? && labels[0].id == id) || CountsTask(labels[1..], id)
  {
    if CountsTask(labels[1..], id) {
      var k :| 0 <= k < |labels[1..]| && labels[1..][k].Count? && labels[1..][k].id == id;
      assert labels[k + 1].id == id;
    }
    if k :| 0 <= k < |labels| && labels[k].Count? && labels[k].id == id && k > 0 {
      assert labels[1..][k - 1].id == id;
    }
  }

  lemma {:induction false} OnceFrom(s: State, labels: seq<Label>, s': State)
    requires Inv(s) && Run(s, labels, s')
    ensures CountsOnce(labels)
    decreases |labels|
  {
    hide Inv, Apply, Enabled, Uncounted;
    if labels != [] {
      var next := Apply(s, labels[0]);
      StepInv(s, labels[0]);
      OnceFrom(next, labels[1..], s');
      if labels[0].Count? {
        StepCounts(s, labels[0], labels[0].id);
        CountsFrom(next, labels[1..], s', labels[0].id);
      }
      forall j, k | 0 <= j < k < |labels| && labels[j].Count? && labels[k].Count?
        ensures labels[j].id != labels[k].id
      {
        assert labels[1..][k - 1] == labels[k];
        if j > 0 { assert labels[1..][j - 1] == labels[j]; }
      }
    }
  }

  // The counters are the numbers of tasks that ended each way, each task counted at most once.
  lemma {:induction false} CountersMean(labels: seq<Label>, s: State)
    requires Run(Init, labels, s)
    ensures s.completed == Times(labels, Completed) && s.cancelled == Times(labels, Cancelled)
    ensures s.panicked == Times(labels, Panicked)
    ensures CountsOnce(labels)
  {
    hide Run;
    Reached([], Init);
    CountersFrom(Init, labels, s);
    OnceFrom(Init, labels, s);
  }

  // The tasks admitted are those spawned before the gate closed, numbered in order; active are those that
  // have not left, each under its own name.
  lemma {:induction false} ActiveMeans(labels: seq<Label>, s: State, id: nat)
    requires Run(Init, labels, s)
    ensures s.accepting <==> CloseGate !in labels
    ensures s.nextId == |Admitted(labels)|
    ensures id in s.active <==> id < |Admitted(labels)| && Leave(id) !in labels
    ensures id in s.active ==> s.active[id] == Admitted(labels)[id]
  {
    hide Run;
    Reached([], Init);
    ActiveFrom(Init, labels, s, id);
  }

  // ---------------------------------------------------------------- the shutdown report

  datatype Outcome = Graceful | TimedOut | Incomplete

  // `shutdown_runtime`: from whether the wait for the tracker ended in time, whether the runtime's own
  // shutdown did not fail, and what it then read.
  function RuntimeOutcome(waited: bool, stopped: bool, remaining: set<string>, panicked: nat): Outcome {
    if !waited then TimedOut
    else if !stopped || remaining != {} || panicked > 0 then Incomplete
    else Graceful
  }

  // `prepare_main_shutdown`
  function MainOutcome(waited: bool, remaining: set<string>, panicked: nat): Outcome {
    if !waited then TimedOut
    else if remaining == {} && panicked == 0 then Graceful
    else Incomplete
  }

  // The tracker's wait can have ended: it is closed with the gate, and no guard is left.
  ghost predicate TrackerDone(s: State) { !s.accepting && s.guards == map[] }

  // With no guard left and the gate closed, nothing changes any more.
  lemma {:induction false} Settled(s: State, labels: seq<Label>, s': State)
    requires TrackerDone(s) && Run(s, labels, s')
    ensures s' == s
    decreases |labels|
  {
    if labels != [] {
      Settled(Apply(s, labels[0]), labels[1..], s');
    }
  }

  // When the wait ended at `waited` and the report was read at `read` or later: every task ever admitted has
  // been counted, once, and none is active. The report is graceful exactly when none of them panicked and,
  // but for Main, the runtime's own shutdown did not fail; otherwise it is incomplete.
  lemma {:induction false} GracefulAccountsForAll(before: seq<Label>, waited: State, between: seq<Label>,
      read: State, stopped: bool)
    requires Run(Init, before, waited) && TrackerDone(waited) && Run(waited, between, read)
    ensures read.active == map[] && read.completed + read.cancelled + read.panicked == |Admitted(before)|
    ensures CountsOnce(before) && forall id :: 0 <= id < |Admitted(before)| ==> CountsTask(before, id)
    ensures var outcome := RuntimeOutcome(true, stopped, read.active.Values, read.panicked);
      && (outcome == Graceful <==> stopped && forall id :: Count(id, Panicked) !in before)
      && (outcome == Incomplete <==> !stopped || exists id :: Count(id, Panicked) in before)
    ensures var outcome := MainOutcome(true, read.active.Values, read.panicked);
      && (outcome == Graceful <==> forall id :: Count(id, Panicked) !in before)
      && (outcome == Incomplete <==> exists id :: Count(id, Panicked) in before)
  {
    hide Run, Uncounted;
    Conservation(before, waited);
    Settled(waited, between, read);
    Reached(before, waited);
    assert waited.active.Keys == {};
    CountersMean(before, waited);
    TimesPositive(before, Panicked);
    ActiveMeans(before, waited, 0);
    forall id: nat | id < |Admitted(before)|
      ensures CountsTask(before, id)
    {
      AllCounted(before, waited, id);
    }
  }

  lemma {:induction false} AllCounted(labels: seq<Label>, s: State, id: nat)
    requires Run(Init, labels, s) && s.guards == map[] && id < s.nextId
    ensures CountsTask(labels, id)
  {
    hide Run;
    Reached([], Init);
    CountsFrom(Init, labels, s, id);
  }

  // What a shutdown reports of a runtime.
  datatype TaskReport = TaskReport(
    outcome: Outcome, completed: nat, cancelled: nat, panicked: nat, remaining: set<string>)

  // `shutdown_runtime`: the active tasks are read before the runtime's own shutdown and after it.
  function ShutdownReport(waited: bool, stopped: bool, before: State, after: State): TaskReport {
    var left := after.active.Values;
    var outcome := RuntimeOutcome(waited, stopped, left, after.panicked);
    TaskReport(outcome, after.completed, after.cancelled, after.panicked,
               if left != {} then left else if outcome != Graceful then before.active.Values else {})
  }

  // The names of the tasks that have not left.
  ghost function Unfinished(names: seq<string>, labels: seq<Label>): set<string> {
    set id | 0 <= id < |names| && Leave(id) !in labels :: names[id]
  }

  lemma {:induction false} RunJoin(s: State, a: seq<Label>, mid: State, b: seq<Label>, s': State)
    requires Run(s, a, mid) && Run(mid, b, s')
    ensures Run(s, a + b, s')
    decreases |a|
  {
    hide Apply, Enabled;
    if a == [] {
      assert a + b == b;
    } else {
      assert (a + b)[1..] == a[1..] + b;
      RunJoin(Apply(s, a[0]), a[1..], mid, b, s');
    }
  }

  // Spawning is in vain once the gate has closed.
  lemma {:induction false} NoneAfterClose(a: seq<Label>, b: seq<Label>)
    requires CloseGate in a
    ensures Admitted(a + b) == Admitted(a)
  {
    assert (a + b)[0] == a[0] && (a + b)[1..] == a[1..] + b;
    if !a[0].CloseGate? {
      NoneAfterClose(a[1..], b);
    }
  }

  lemma {:induction false} UnfinishedNames(labels: seq<Label>, s: State)
    requires Run(Init, labels, s)
    ensures s.active.Values == Unfinished(Admitted(labels), labels)
  {
    hide Run;
    forall id: nat
      ensures id in s.active <==> id < |Admitted(labels)| && Leave(id) !in labels
      ensures id in s.active ==> s.active[id] == Admitted(labels)[id]
    {
      ActiveMeans(labels, s, id);
    }
    forall name | name in Unfinished(Admitted(labels), labels)
      ensures name in s.active.Values
    {
      var id :| 0 <= id < |Admitted(labels)| && Leave(id) !in labels && Admitted(labels)[id] == name;
      assert id in s.active && s.active[id] == name;
    }
  }

  // What the report says of the tasks, whenever the gate has closed first: the counters are those of the
  // run; it is graceful exactly when the wait and the shutdown succeeded, none panicked and all have left;
  // and it names those left over at the end or, if there is none, those left over before the shutdown.
  lemma {:induction false} ReportMeans(start: seq<Label>, before: State, more: seq<Label>, after: State,
      waited: bool, stopped: bool)
    requires Run(Init, start, before) && CloseGate in start && Run(before, more, after)
    ensures var r, all, names := ShutdownReport(waited, stopped, before, after), start + more, Admitted(start);
      && r.completed == Times(all, Completed) && r.cancelled == Times(all, Cancelled)
      && r.panicked == Times(all, Panicked)
      && (r.outcome == TimedOut <==> !waited)
      && (r.outcome == Graceful <==>
            waited && stopped && Times(all, Panicked) == 0 && Unfinished(names, all) == {})
      && (Unfinished(names, all) != {} ==> r.remaining == Unfinished(names, all))
      && (Unfinished(names, all) == {} ==>
            r.remaining == if r.outcome == Graceful then {} else Unfinished(names, start))
  {
    hide Run, Admitted, Times, Unfinished;
    RunJoin(Init, start, before, more, after);
    NoneAfterClose(start, more);
    CountersMean(start + more, after);
    UnfinishedNames(start, before);
    UnfinishedNames(start + more, after);
  }

  // `prepare_main_shutdown` reads once.
  lemma {:induction false} MainReportMeans(labels: seq<Label>, s: State, waited: bool)
    requires Run(Init, labels, s)
    ensures var outcome, left := MainOutcome(waited, s.active.Values, s.panicked), Unfinished(Admitted(labels), labels);
      && s.active.Values == left
      && (outcome == TimedOut <==> !waited)
      && (outcome == Graceful <==> waited && Times(labels, Panicked) == 0 && left == {})
  {
    hide Run, Admitted, Times, Unfinished;
    CountersMean(labels, s);
    UnfinishedNames(labels, s);
  }

  // ---------------------------------------------------------------- the source's objects

  class TaskState {
    var accepting: bool
    var nextId: nat
    var active: map<nat, string>
    var completed: nat
    var cancelled: nat
    var panicked: nat
    ghost var guards: map<nat, Guard>

    ghost function Now(): State
      reads this
    {
      State(accepting, nextId, active, completed, cancelled, panicked, guards)
    }

    constructor ()
      ensures Now() == Init
    {
      accepting, nextId, active, completed, cancelled, panicked, guards := true, 0, map[], 0, 0, 0, map[];
    }

    // The gated part of `spawn`: refused once the gate is closed.
    method Start(name: string) returns (guard: Option<TaskGuard>)
      requires Inv(Now())
      modifies this
      ensures Now() == Apply(old(Now()), Spawn(name)) && Inv(Now())
      ensures guard.Some? <==> old(accepting)
      ensures active == if old(accepting) then old(active)[old(nextId) := name] else old(active)
      ensures completed == old(completed) && cancelled == old(cancelled) && panicked == old(panicked)
      ensures guard.Some? ==>
        fresh(guard.value) && guard.value.Valid() && guard.value.state == this && guard.value.id == old(nextId)
    {
      StepInv(Now(), Spawn(name));
      if !accepting {
        return None;
      }
      var id := nextId;
      nextId := nextId + 1;
      active := active[id := name];
      guards := guards[id := Running];
      var g := new TaskGuard(id, this);
      guard := Some(g);
    }

    method Close()
      requires Inv(Now())
      modifies this`accepting
      ensures Now() == Apply(old(Now()), CloseGate) && Inv(Now()) && !accepting
    {
      StepInv(Now(), CloseGate);
      accepting := false;
    }

    // First half of a guard's end: counts how the task ended.
    method CountTask(id: nat, kind: Kind)
      requires Inv(Now()) && id in guards && guards[id].Running?
      modifies this
      ensures Now() == Apply(old(Now()), Count(id, kind)) && Inv(Now())
      ensures completed == old(completed) + if kind == Completed then 1 else 0
      ensures cancelled == old(cancelled) + if kind == Cancelled then 1 else 0
      ensures panicked == old(panicked) + if kind == Panicked then 1 else 0
      ensures active == old(active)
    {
      CountInv(Now(), id, kind);
      match kind {
        case Completed => completed := completed + 1;
        case Cancelled => cancelled := cancelled + 1;
        case Panicked => panicked := panicked + 1;
      }
      guards := guards[id := Leaving];
    }

    // Second half: the task leaves the map.
    method LeaveTask(id: nat)
      requires Inv(Now()) && id in guards && guards[id].Leaving?
      modifies this
      ensures Now() == Apply(old(Now()), Leave(id)) && Inv(Now()) && active == old(active) - {id}
      ensures completed == old(completed) && cancelled == old(cancelled) && panicked == old(panicked)
    {
      LeaveInv(Now(), id);
      active := active - {id};
      guards := guards - {id};
    }
  }

  class TaskGuard {
    const id: nat
    const state: TaskState
    var finished: bool

    // A guard that has not finished is counted nowhere yet.
    ghost predicate Valid()
      reads this, state
    {
      !finished ==> id in state.guards && state.guards[id].Running?
    }

    constructor (id: nat, state: TaskState)
      requires id in state.guards && state.guards[id].Running?
      ensures Valid() && !finished && this.id == id && this.state == state
    {
      this.id, this.state, finished := id, state, false;
    }

    // `complete`, `panic` and `drop`: a guard that has finished already does nothing when dropped.
    method End(kind: Kind)
      requires Valid() && !finished && Inv(state.Now())
      modifies this`finished, state
      ensures Valid() && finished && Inv(state.Now())
      ensures var counted := Apply(old(state.Now()), Count(id, kind)); state.Now() == Apply(counted, Leave(id))
      ensures state.completed == old(state.completed) + if kind == Completed then 1 else 0
      ensures state.cancelled == old(state.cancelled) + if kind == Cancelled then 1 else 0
      ensures state.panicked == old(state.panicked) + if kind == Panicked then 1 else 0
      ensures state.active == old(state.active) - {id}
    {
      hide Inv;
      state.CountTask(id, kind);
      finished := true;
      state.LeaveTask(id);
    }

    method Complete(cancelled: bool)
      requires Valid() && !finished && Inv(state.Now())
      modifies this`finished, state
      ensures Valid() && finished && Inv(state.Now())
      ensures var kind := if cancelled then Cancelled else Completed;
        state.Now() == Apply(Apply(old(state.Now()), Count(id, kind)), Leave(id))
      ensures state.completed == old(state.completed) + if cancelled then 0 else 1
      ensures state.cancelled == old(state.cancelled) + if cancelled then 1 else 0
      ensures state.panicked == old(state.panicked) && state.active == old(state.active) - {id}
    {
      End(if cancelled then Cancelled else Completed);
    }

    method Panic()
      requires Valid() && !finished && Inv(state.Now())
      modifies this`finished, state
      ensures Valid() && finished && Inv(state.Now())
      ensures state.Now() == Apply(Apply(old(state.Now()), Count(id, Panicked)), Leave(id))
      ensures state.panicked == old(state.panicked) + 1 && state.active == old(state.active) - {id}
      ensures state.completed == old(state.completed) && state.cancelled == old(state.cancelled)
    {
      End(Panicked);
    }

    method Drop()
      requires Valid() && Inv(state.Now())
      modifies this`finished, state
      ensures Inv(state.Now())
      ensures state.Now() == if old(finished) then old(state.Now())
                               else Apply(Apply(old(state.Now()), Count(id, Cancelled)), Leave(id))
      ensures state.cancelled == old(state.cancelled) + if old(finished) then 0 else 1
      ensures state.completed == old(state.completed) && state.panicked == old(state.panicked)
    {
      if !finished {
        End(Cancelled);
      }
    }
  }
}

/**
Calls of `RuntimeRegistry::shutdown` that run at the same time (base/src/utils/rt.rs). A state machine
whose steps are the stretches between two awaits or two accesses to the registry; a call can be dropped
at an await.
*/
module ShutdownCalls {
  import opened ShutdownOrder

  // Where one call of `shutdown` stands.
  datatype Pc =
    | Gated                                           // closed the gate, next makes its list of stages
    | Stages(rest: seq<RuntimeType>)                  // next looks up the first of these
    | Waiting(t: RuntimeType, rest: seq<RuntimeType>)   // found t, awaits its tasks, next removes it
    | Stopping(t: RuntimeType, rest: seq<RuntimeType>)  // removed t, awaits its end, next reports it
    | WaitingMain                                     // found Main, awaits its tasks, next reports it
    | Finished
    | Abandoned

  // What became of a runtime other than Main.
  datatype Place = Registered | StoppedIn(call: nat) | ReportedAt(i: nat) | Lost

  // History: the reports of all calls in the order in which they were made, and what became of each
  // runtime other than Main that was ever registered.
  datatype State = State(
    runtimes: set<RuntimeType>, shuttingDown: bool, calls: map<nat, Pc>,
    reports: seq<(nat, RuntimeType)>, places: map<RuntimeType, Place>)

  const Init: State := State({Main}, false, map[], [], map[])

  datatype Label =
    | Register(t: RuntimeType)
    | Begin(call: nat)
    | Plan(call: nat, stages: seq<RuntimeType>)
    | LookUp(call: nat)
    | Remove(call: nat)
    | Report(call: nat)
    | ReportMain(call: nat)
    | Drop(call: nat)
    | TakeMain                                        // the runtime of Main is taken for its own shutdown

  ghost predicate Enabled(s: State, l: Label) {
    match l
    case Register(t) => t != Main
    case Begin(c) => c !in s.calls
    // The registry is read while other calls may remove from it: what is there afterwards has been seen.
    case Plan(c, stages) =>
      c in s.calls && s.calls[c].Gated? && NoDup(stages) && Main !in stages
      && forall t <- s.runtimes :: t == Main || t in stages
    case LookUp(c) => c in s.calls && s.calls[c].Stages?
    case Remove(c) => c in s.calls && s.calls[c].Waiting?
    case Report(c) => c in s.calls && s.calls[c].Stopping?
    case ReportMain(c) => c in s.calls && s.calls[c].WaitingMain?
    case Drop(c) => c in s.calls && (s.calls[c].Waiting? || s.calls[c].Stopping? || s.calls[c].WaitingMain?)
    case TakeMain => true
  }

  function At(s: State, c: nat, pc: Pc): State { s.(calls := s.calls[c := pc]) }

  function ApplyLookUp(s: State, c: nat, rest: seq<RuntimeType>): State {
    if rest == [] then At(s, c, if Main in s.runtimes then WaitingMain else Finished)
    else At(s, c, if rest[0] in s.runtimes then Waiting(rest[0], rest[1..]) else Stages(rest[1..]))
  }

  function ApplyRemove(s: State, c: nat, t: RuntimeType, rest: seq<RuntimeType>): State {
    if t in s.runtimes then
      At(s.(runtimes := s.runtimes - {t}, places := s.places[t := StoppedIn(c)]), c, Stopping(t, rest))
    else At(s, c, Stages(rest))
  }

  function ApplyReport(s: State, c: nat, t: RuntimeType, rest: seq<RuntimeType>): State {
    At(s.(reports := s.reports + [(c, t)], places := s.places[t := ReportedAt(|s.reports|)]), c, Stages(rest))
  }

  ghost function Apply(s: State, l: Label): State
    requires Enabled(s, l)
  {
    match l
    case Register(t) =>
      if s.shuttingDown || t in s.runtimes then s
      else s.(runtimes := s.runtimes + {t}, places := s.places[t := Registered])
    case Begin(c) => At(s.(shuttingDown := true), c, Gated)
    case Plan(c, stages) => At(s, c, Stages(stages))
    case LookUp(c) => ApplyLookUp(s, c, s.calls[c].rest)
    case Remove(c) => ApplyRemove(s, c, s.calls[c].t, s.calls[c].rest)
    case Report(c) => ApplyReport(s, c, s.calls[c].t, s.calls[c].rest)
    case ReportMain(c) => At(s.(reports := s.reports + [(c, Main)]), c, Finished)
    case Drop(c) =>
      At(if s.calls[c].Stopping? then s.(places := s.places[s.calls[c].t := Lost]) else s, c, Abandoned)
    case TakeMain => s.(runtimes := s.runtimes - {Main})
  }

  // ---------------------------------------------------------------- invariants

  ghost predicate StoppedBy(s: State, t: RuntimeType, c: nat) {
    c in s.calls && s.calls[c].Stopping? && s.calls[c].t == t
  }

  // The history tells where a runtime is: registered, held by the one call that stops it, or reported once.
  ghost predicate PlaceOk(s: State, t: RuntimeType) {
    && (t in s.runtimes <==> t in s.places && s.places[t].Registered?)
    && (forall c :: StoppedBy(s, t, c) <==> c in s.calls && t in s.places && s.places[t] == StoppedIn(c))
    && (forall i :: 0 <= i < |s.reports| ==> (s.reports[i].1 == t <==> t in s.places && s.places[t] == ReportedAt(i)))
    && (t in s.places && s.places[t].StoppedIn? ==> s.places[t].call in s.calls)
    && (t in s.places && s.places[t].ReportedAt? ==> s.places[t].i < |s.reports|)
    && (t in s.places && !s.places[t].Registered? ==> s.shuttingDown)
  }

  ghost predicate Accounts(s: State) { Main !in s.places && forall t: RuntimeType :: t != Main ==> PlaceOk(s, t) }

  // What a call has yet to look at includes every runtime still registered.
  ghost predicate Remaining(s: State, rest: seq<RuntimeType>) {
    Main !in rest && forall t <- s.runtimes :: t == Main || t in rest
  }

  ghost predicate Covers(s: State, pc: Pc) {
    match pc
    case Stages(rest) => Remaining(s, rest)
    case Waiting(t, rest) => Remaining(s, [t] + rest) && Main !in rest && t != Main
    case Stopping(t, rest) => Remaining(s, rest) && t != Main
    case WaitingMain => Remaining(s, [])
    case Finished => Remaining(s, [])
    case _ => true
  }

  ghost predicate Gate(s: State) {
    && (s.calls != map[] ==> s.shuttingDown)
    && forall c <- s.calls :: Covers(s, s.calls[c])
  }

  // A call that reported Main makes no more reports.
  ghost predicate MainLast(s: State) {
    && (forall i :: 0 <= i < |s.reports| ==> s.reports[i].0 in s.calls)
    && (forall i :: 0 <= i < |s.reports| && s.reports[i].1 == Main ==> s.calls[s.reports[i].0].Finished?)
    && (forall i, j :: 0 <= i < j < |s.reports| && s.reports[i].1 == Main ==> s.reports[j].0 != s.reports[i].0)
  }

  ghost predicate Inv(s: State) { Accounts(s) && Gate(s) && MainLast(s) }

  lemma {:induction false} InitInv()
    ensures Inv(Init)
  {
  }

  lemma {:induction false} RemainingLess(s: State, s': State, rest: seq<RuntimeType>)
    requires Remaining(s, rest) && s'.runtimes <= s.runtimes
    ensures Remaining(s', rest)
    ensures rest != [] && rest[0] !in s'.runtimes ==> Remaining(s', rest[1..])
  {
    if rest != [] { assert forall t :: t in rest <==> t == rest[0] || t in rest[1..]; }
  }

  lemma {:induction false} CoversLess(s: State, s': State, pc: Pc)
    requires Covers(s, pc) && s'.runtimes <= s.runtimes
    ensures Covers(s', pc)
  {
  }

  lemma {:induction false} RuntimesShrink(s: State, l: Label)
    requires Enabled(s, l) && Gate(s) && s.calls != map[]
    ensures Apply(s, l).runtimes <= s.runtimes
  {
  }

  lemma {:induction false} MoverCovers(s: State, l: Label, c: nat)
    requires Enabled(s, l) && Gate(s) && c in s.calls && Apply(s, l).runtimes <= s.runtimes
    ensures Covers(Apply(s, l), Apply(s, l).calls[c])
  {
    hide NoDup, Remaining;
    var s', pc := Apply(s, l), s.calls[c];
    assert Covers(s, pc);
    if s'.calls[c] == pc {
      CoversLess(s, s', pc);
    } else if pc.Gated? {
      NoneBut(s, s'.calls[c].rest);
      assert s'.runtimes == s.runtimes;
      RemainingLess(s, s', s'.calls[c].rest);
    } else if pc.Stages? {
      RemainingLess(s, s', pc.rest);
      if pc.rest != [] {
        assert [pc.rest[0]] + pc.rest[1..] == pc.rest;
        NoMain(s, pc.rest);
      }
    } else if pc.Waiting? {
      RemainingLess(s, s', [pc.t] + pc.rest);
      assert ([pc.t] + pc.rest)[1..] == pc.rest;
    } else if pc.Stopping? {
      RemainingLess(s, s', pc.rest);
    } else if pc.WaitingMain? {
      RemainingLess(s, s', []);
    }
  }

  lemma {:induction false} NoneBut(s: State, stages: seq<RuntimeType>)
    requires Main !in stages && forall t <- s.runtimes :: t == Main || t in stages
    ensures Remaining(s, stages)
  {
  }

  lemma {:induction false} NoMain(s: State, rest: seq<RuntimeType>)
    requires Remaining(s, rest) && rest != []
    ensures rest[0] != Main && Main !in rest[1..]
  {
  }

  lemma {:induction false} StepGate(s: State, l: Label)
    requires Enabled(s, l) && Gate(s)
    ensures Gate(Apply(s, l))
  {
    hide NoDup, Covers;
    var s' := Apply(s, l);
    if s.calls != map[] { RuntimesShrink(s, l); }
    forall c | c in s'.calls ensures Covers(s', s'.calls[c]) {
      if c in s.calls { MoverCovers(s, l, c); } else { FirstStand(s'); }
    }
  }

  lemma {:induction false} FirstStand(s: State)
    ensures Covers(s, Gated)
  {
  }

  lemma {:induction false} StepMainLast(s: State, l: Label)
    requires Enabled(s, l) && Gate(s) && MainLast(s)
    ensures MainLast(Apply(s, l))
  {
    hide NoDup, Remaining;
  }

  // A step that moves no report, place or hold of t.
  lemma {:induction false} SamePlace(s: State, s': State, t: RuntimeType)
    requires PlaceOk(s, t) && (t in s'.runtimes <==> t in s.runtimes) && (t in s'.places <==> t in s.places)
    requires t in s.places ==> s'.places[t] == s.places[t]
    requires s.calls.Keys <= s'.calls.Keys && (s.shuttingDown ==> s'.shuttingDown)
    requires forall c <- s'.calls :: StoppedBy(s', t, c) <==> StoppedBy(s, t, c)
    requires s'.reports == s.reports || exists r: (nat, RuntimeType) :: s'.reports == s.reports + [r] && r.1 != t
    ensures PlaceOk(s', t)
  {
  }

  lemma {:induction false} RemovePlace(s: State, c: nat, t: RuntimeType)
    requires PlaceOk(s, t) && Gate(s) && c in s.calls && s.calls[c].Waiting? && s.calls[c].t == t && t in s.runtimes
    ensures PlaceOk(ApplyRemove(s, c, t, s.calls[c].rest), t)
  {
  }

  lemma {:induction false} ReportPlace(s: State, c: nat, t: RuntimeType)
    requires PlaceOk(s, t) && StoppedBy(s, t, c)
    ensures PlaceOk(ApplyReport(s, c, t, s.calls[c].rest), t)
  {
    var s' := ApplyReport(s, c, t, s.calls[c].rest);
    assert s'.reports[..|s.reports|] == s.reports;
  }

  lemma {:induction false} DropPlace(s: State, c: nat, t: RuntimeType)
    requires PlaceOk(s, t) && StoppedBy(s, t, c)
    ensures PlaceOk(Apply(s, Drop(c)), t)
  {
  }

  lemma {:induction false} RegisterPlace(s: State, t: RuntimeType)
    requires PlaceOk(s, t) && Gate(s) && t != Main
    ensures PlaceOk(Apply(s, Register(t)), t)
  {
  }

  lemma {:induction false} StepPlace(s: State, l: Label, t: RuntimeType)
    requires Enabled(s, l) && Gate(s) && Accounts(s) && t != Main
    ensures PlaceOk(Apply(s, l), t)
  {
    hide NoDup, Remaining, PlaceOk, Gate;
    var s' := Apply(s, l);
    assert PlaceOk(s, t);
    if l.Remove? && s.calls[l.call].t == t && t in s.runtimes {
      RemovePlace(s, l.call, t);
    } else if l.Report? && s.calls[l.call].t == t {
      ReportPlace(s, l.call, t);
    } else if l.Drop? && StoppedBy(s, t, l.call) {
      DropPlace(s, l.call, t);
    } else if l.Register? && l.t == t {
      RegisterPlace(s, t);
    } else if l.Remove? || l.Report? || l.Drop? {
      CallPlace(s, l, t);
    } else {
      SamePlace(s, s', t);
    }
  }

  // A call moves another runtime.
  lemma {:induction false} CallPlace(s: State, l: Label, t: RuntimeType)
    requires Enabled(s, l) && PlaceOk(s, t) && t != Main && (l.Remove? || l.Report? || l.Drop?)
    requires l.Remove? ==> s.calls[l.call].t != t || t !in s.runtimes
    requires l.Report? || l.Drop? ==> !StoppedBy(s, t, l.call)
    ensures PlaceOk(Apply(s, l), t)
  {
    hide NoDup, PlaceOk;
    var s' := Apply(s, l);
    assert l.Drop? && s.calls[l.call].Stopping? ==> s.calls[l.call].t != t;
    SamePlace(s, s', t);
  }

  lemma {:induction false} StepAccounts(s: State, l: Label)
    requires Enabled(s, l) && Gate(s) && Accounts(s)
    ensures Accounts(Apply(s, l))
  {
    hide NoDup, Remaining, PlaceOk;
    forall t: RuntimeType | t != Main ensures PlaceOk(Apply(s, l), t) { StepPlace(s, l, t); }
  }

  lemma {:induction false} StepInv(s: State, l: Label)
    requires Enabled(s, l) && Inv(s)
    ensures Inv(Apply(s, l))
  {
    hide Enabled, Apply, Accounts, Gate, MainLast;
    StepGate(s, l);
    StepMainLast(s, l);
    StepAccounts(s, l);
  }

  // ---------------------------------------------------------------- whole runs

  ghost predicate Run(s: State, labels: seq<Label>, s': State)
    decreases |labels|
  {
    if labels == [] then s' == s else Enabled(s, labels[0]) && Run(Apply(s, labels[0]), labels[1..], s')
  }

  lemma {:induction false} RunInv(s: State, labels: seq<Label>, s': State)
    requires Inv(s) && Run(s, labels, s')
    ensures Inv(s')
    decreases |labels|
  {
    hide Inv, Apply, Enabled;
    if labels != [] {
      StepInv(s, labels[0]);
      RunInv(Apply(s, labels[0]), labels[1..], s');
    }
  }

  // However calls overlap, no runtime but Main is reported twice, and no call reports after Main.
  lemma {:induction false} ReportedOnce(labels: seq<Label>, s: State)
    requires Run(Init, labels, s)
    ensures forall i, j :: 0 <= i < j < |s.reports| && s.reports[i].1 == s.reports[j].1 ==> s.reports[i].1 == Main
    ensures forall i, j :: 0 <= i < j < |s.reports| && s.reports[i].1 == Main ==> s.reports[j].0 != s.reports[i].0
  {
    InitInv();
    RunInv(Init, labels, s);
    forall i, j | 0 <= i < j < |s.reports| && s.reports[i].1 == s.reports[j].1 ensures s.reports[i].1 == Main {
      var t := s.reports[i].1;
      assert t != Main ==> PlaceOk(s, t);
    }
  }

  // Once a call has begun no runtime is registered, ever.
  lemma {:induction false} NoneRegistered(s: State, labels: seq<Label>, s': State)
    requires s.shuttingDown && Run(s, labels, s')
    ensures s'.shuttingDown && s'.runtimes <= s.runtimes
    decreases |labels|
  {
    if labels != [] { NoneRegistered(Apply(s, labels[0]), labels[1..], s'); }
  }

  // When some call has finished, no runtime but Main is registered, and each one ever registered has been
  // reported once, is being stopped by a call still under way, or was lost with a call that was dropped
  // while it stopped it.
  lemma {:induction false} FinishedAccountsForAll(labels: seq<Label>, s: State, c: nat, t: RuntimeType)
    requires Run(Init, labels, s) && c in s.calls && s.calls[c].Finished? && t in s.places
    ensures t !in s.runtimes
    ensures (exists i :: 0 <= i < |s.reports| && s.reports[i].1 == t)
            || (exists d :: StoppedBy(s, t, d)) || s.places[t].Lost?
  {
    InitInv();
    RunInv(Init, labels, s);
    assert t != Main && PlaceOk(s, t);
    assert Covers(s, s.calls[c]);
  }

  // So with no call dropped and none under way, every runtime ever registered has been reported.
  lemma {:induction false} AllReported(labels: seq<Label>, s: State, t: RuntimeType)
    requires Run(Init, labels, s) && (forall l <- labels :: !l.Drop?) && t in s.places && s.calls != map[]
    requires forall d <- s.calls :: s.calls[d].Finished?
    ensures exists i :: 0 <= i < |s.reports| && s.reports[i].1 == t
  {
    var c :| c in s.calls;
    FinishedAccountsForAll(labels, s, c, t);
    NoneLost(Init, labels, s);
  }

  lemma {:induction false} NoneLost(s: State, labels: seq<Label>, s': State)
    requires Run(s, labels, s') && (forall l <- labels :: !l.Drop?) && forall t <- s.places :: !s.places[t].Lost?
    ensures forall t <- s'.places :: !s'.places[t].Lost?
    decreases |labels|
  {
    if labels != [] { NoneLost(Apply(s, labels[0]), labels[1..], s'); }
  }

  // Some call is dropped while it stops t.
  ghost predicate Loses(s: State, labels: seq<Label>, t: RuntimeType)
    decreases |labels|
  {
    && labels != [] && Enabled(s, labels[0])
    && ((labels[0].Drop? && StoppedBy(s, t, labels[0].call)) || Loses(Apply(s, labels[0]), labels[1..], t))
  }

  ghost predicate IsLost(s: State, t: RuntimeType) { t in s.places && s.places[t].Lost? }

  lemma {:induction false} StepLoses(s: State, l: Label, t: RuntimeType)
    requires Enabled(s, l) && Inv(s) && t != Main
    ensures IsLost(Apply(s, l), t) <==> IsLost(s, t) || (l.Drop? && StoppedBy(s, t, l.call))
  {
    hide NoDup, Remaining, MainLast;
    assert PlaceOk(s, t);
    if l.Remove? { assert Covers(s, s.calls[l.call]); }
  }

  lemma {:induction false} LostWhen(s: State, labels: seq<Label>, s': State, t: RuntimeType)
    requires Inv(s) && Run(s, labels, s') && t != Main
    ensures IsLost(s', t) <==> IsLost(s, t) || Loses(s, labels, t)
    decreases |labels|
  {
    hide Inv, Apply, Enabled, IsLost;
    if labels != [] {
      StepInv(s, labels[0]);
      StepLoses(s, labels[0], t);
      LostWhen(Apply(s, labels[0]), labels[1..], s', t);
    }
  }

  // With some call finished and none under way, a runtime ever registered goes unreported if and only if a
  // call was dropped while it stopped that runtime.
  lemma {:induction false} UnreportedExactly(labels: seq<Label>, s: State, c: nat, t: RuntimeType)
    requires Run(Init, labels, s) && c in s.calls && s.calls[c].Finished? && t in s.places
    requires forall d <- s.calls :: s.calls[d].Finished? || s.calls[d].Abandoned?
    ensures (forall i :: 0 <= i < |s.reports| ==> s.reports[i].1 != t) <==> Loses(Init, labels, t)
  {
    FinishedAccountsForAll(labels, s, c, t);
    InitInv();
    RunInv(Init, labels, s);
    LostWhen(Init, labels, s, t);
    assert PlaceOk(s, t);
  }

  ghost predicate ReportsMain(s: State, c: nat) { exists i :: 0 <= i < |s.reports| && s.reports[i] == (c, Main) }

  // A call that finished has reported Main, or has found it taken.
  ghost predicate MainReported(s: State, taken: bool) {
    && (!taken ==> Main in s.runtimes)
    && forall c <- s.calls :: s.calls[c].Finished? && !taken ==> ReportsMain(s, c)
  }

  lemma {:induction false} StepMain(s: State, l: Label, taken: bool)
    requires Enabled(s, l) && MainReported(s, taken) && Gate(s)
    ensures MainReported(Apply(s, l), taken || l.TakeMain?)
  {
    hide NoDup, Remaining;
    var s' := Apply(s, l);
    forall c | c in s'.calls && s'.calls[c].Finished? && !taken && !l.TakeMain?
      ensures ReportsMain(s', c)
    {
      if c in s.calls && s.calls[c].Finished? {
        var i :| 0 <= i < |s.reports| && s.reports[i] == (c, Main);
        assert s'.reports[i] == (c, Main);
      } else {
        assert l == ReportMain(c) && s'.reports[|s.reports|] == (c, Main);
      }
    }
    if l.Remove? { assert Covers(s, s.calls[l.call]); }
  }

  lemma {:induction false} RunMain(s: State, labels: seq<Label>, s': State, taken: bool)
    requires Inv(s) && MainReported(s, taken) && Run(s, labels, s')
    ensures MainReported(s', taken || TakeMain in labels)
    decreases |labels|
  {
    hide Inv, MainReported, Apply, Enabled;
    if labels != [] {
      StepInv(s, labels[0]);
      InvGate(s);
      StepMain(s, labels[0], taken);
      RunMain(Apply(s, labels[0]), labels[1..], s', taken || labels[0].TakeMain?);
      assert TakeMain in labels <==> labels[0] == TakeMain || TakeMain in labels[1..];
    }
  }

  lemma {:induction false} InvGate(s: State)
    requires Inv(s)
    ensures Gate(s)
  {
  }

  // Unless Main was taken for its own shutdown, every call that finished has reported it.
  lemma {:induction false} FinishedReportsMain(labels: seq<Label>, s: State, c: nat)
    requires Run(Init, labels, s) && TakeMain !in labels && c in s.calls && s.calls[c].Finished?
    ensures exists i :: 0 <= i < |s.reports| && s.reports[i] == (c, Main)
  {
    hide Run, Inv;
    InitInv();
    RunMain(Init, labels, s, false);
    assert ReportsMain(s, c);
  }

  // The run up to the point where a call is dropped while it stops a runtime.
  const DroppedState: State := State({Main}, true, map[0 := Abandoned], [], map[HttpApi := Lost])

  lemma {:induction false} RunToDropped() returns (labels: seq<Label>)
    ensures Run(Init, labels, DroppedState)
  {
    hide Run;
    var t := HttpApi;
    var s1 := Apply(Init, Register(t));
    var s2 := Apply(s1, Begin(0));
    assert s2.runtimes == {Main, t};
    var s3 := Apply(s2, Plan(0, [t]));
    var s4 := Apply(s3, LookUp(0));
    var s5 := Apply(s4, Remove(0));
    assert Apply(s5, Drop(0)) == DroppedState;
    RunNothing(Init);
    labels := RunMore([], Init, Register(t));
    labels := RunMore(labels, s1, Begin(0));
    labels := RunMore(labels, s2, Plan(0, [t]));
    labels := RunMore(labels, s3, LookUp(0));
    labels := RunMore(labels, s4, Remove(0));
    labels := RunMore(labels, s5, Drop(0));
  }

  // It happens: a second call finds the runtime gone, finishes, and reports Main alone.
  lemma {:induction false} ReportLost() returns (labels: seq<Label>, s: State)
    ensures Run(Init, labels, s) && 0 in s.calls && s.calls[0].Abandoned? && 1 in s.calls && s.calls[1].Finished?
    ensures HttpApi in s.places && Loses(Init, labels, HttpApi) && s.reports == [(1, Main)]
  {
    hide Run, Inv, Loses;
    labels := RunToDropped();
    var s1 := Apply(DroppedState, Begin(1));
    var s2 := Apply(s1, Plan(1, []));
    var s3 := Apply(s2, LookUp(1));
    s := Apply(s3, ReportMain(1));
    labels := RunMore(labels, DroppedState, Begin(1));
    labels := RunMore(labels, s1, Plan(1, []));
    labels := RunMore(labels, s2, LookUp(1));
    labels := RunMore(labels, s3, ReportMain(1));
    InitInv();
    LostWhen(Init, labels, s, HttpApi);
  }

  lemma {:induction false} RunNothing(s: State)
    ensures Run(s, [], s)
  {
  }

  lemma {:induction false} RunMore(labels: seq<Label>, mid: State, l: Label) returns (more: seq<Label>)
    requires Run(Init, labels, mid) && Enabled(mid, l)
    ensures Run(Init, more, Apply(mid, l)) && more == labels + [l]
  {
    more := labels + [l];
    RunAppend(Init, labels, mid, l);
  }

  lemma {:induction false} RunAppend(s: State, labels: seq<Label>, mid: State, l: Label)
    requires Run(s, labels, mid) && Enabled(mid, l)
    ensures Run(s, labels + [l], Apply(mid, l))
    decreases |labels|
  {
    hide Apply, Enabled;
    if labels == [] {
      assert labels + [l] == [l] && [l][1..] == [];
    } else {
      assert (labels + [l])[1..] == labels[1..] + [l];
      RunAppend(Apply(s, labels[0]), labels[1..], mid, l);
    }
  }
}

/**
The reconnect supervisor (base_rpc/src/stream_supervisor.rs). A state machine of the supervising task,
its cancellation, and the reporters handed to the connector, whose steps are single accesses to the
shared cancellation token or the watch channel. A report reads the channel and writes it in two steps.
A watch channel without receivers refuses a send and keeps its value.
*/
module Supervisor {
  import opened Options

  const U32_MAX: nat := 0xFFFF_FFFF
  const U64_MAX: nat := 0xFFFF_FFFF_FFFF_FFFF

  datatype ConnectionState =
    | Idle
    | Connecting(generation: nat, attempt: nat)
    | Connected(generation: nat)
    | Disconnected(generation: nat, reason: string)
    | Stopped

  // Where the supervising task stands.
  datatype Pc =
    | Top                        // next checks for cancellation
    | Going                      // was not cancelled, next starts an attempt
    | Running                    // awaits the connector
    | Ended(reason: string)      // cancelled the connection's token, next checks for cancellation
    | Reporting(reason: string)  // next publishes the disconnection
    | Sleeping
    | Stopping                   // left the loop, next publishes the stop
    | Done

  // A report under way: `ConnectionReporter::connected` found its generation current when the task had
  // published `stamp` states.
  datatype Call = Call(generation: nat, stamp: nat)

  datatype State = State(
    maxAttempts: Option<nat>, pc: Pc, generation: nat, attempt: nat, cancelled: bool,
    value: ConnectionState, live: bool, calls: map<nat, Call>,
    // History: what the task published, the generation of each call of the connector, and whether the
    // token of that connection was cancelled.
    published: seq<ConnectionState>, connects: seq<nat>, tokens: seq<bool>)

  datatype Label =
    | Check
    | Start
    | ConnectEnds(reason: string)
    | CheckAfter
    | Report
    | Wake
    | SleepCancelled
    | Stop
    | Cancel
    | ReportCheck(call: nat, generation: nat)
    | ReportSend(call: nat)
    | DropReceivers

  function Init(maxAttempts: Option<nat>): State {
    State(maxAttempts, Top, 0, 0, false, Idle, true, map[], [], [], [])
  }

  function Min(a: nat, b: nat): nat { if a < b then a else b }

  // `RetryPolicy::permits`
  predicate Permits(maxAttempts: Option<nat>, attempt: nat) { maxAttempts.Some? ==> attempt <= maxAttempts.value }

  // `is_current` in `ConnectionReporter::connected`
  predicate IsCurrent(value: ConnectionState, generation: nat) {
    (value.Connecting? || value.Connected?) && value.generation == generation
  }

  ghost predicate Enabled(s: State, l: Label) {
    match l
    case Check => s.pc.Top?
    case Start => s.pc.Going?
    case ConnectEnds(_) => s.pc.Running?
    case CheckAfter => s.pc.Ended?
    case Report => s.pc.Reporting?
    case Wake => s.pc.Sleeping?
    case SleepCancelled => s.pc.Sleeping? && s.cancelled
    case Stop => s.pc.Stopping?
    case Cancel => true
    case ReportCheck(c, g) => c !in s.calls && 1 <= g <= s.generation
    case ReportSend(c) => c in s.calls
    case DropReceivers => true
  }

  // The task sends to the watch channel.
  function Publish(s: State, value: ConnectionState): State {
    if s.live then s.(value := value, published := s.published + [value]) else s
  }

  function ApplyStart(s: State): State {
    var attempt := Min(s.attempt + 1, U32_MAX);
    if !Permits(s.maxAttempts, attempt) then s.(attempt := attempt, pc := Stopping)
    else
      var generation := Min(s.generation + 1, U64_MAX);
      Publish(s, Connecting(generation, attempt)).(
        attempt := attempt, generation := generation, pc := Running,
        connects := s.connects + [generation], tokens := s.tokens + [false])
  }

  function ApplyConnectEnds(s: State, reason: string): State {
    s.(pc := Ended(reason), tokens := if s.tokens == [] then [] else s.tokens[|s.tokens| - 1 := true])
  }

  function ApplyReportSend(s: State, c: nat): State
    requires c in s.calls
  {
    s.(calls := s.calls - {c}, value := if s.live then Connected(s.calls[c].generation) else s.value)
  }

  ghost function Apply(s: State, l: Label): State
    requires Enabled(s, l)
  {
    match l
    case Check => s.(pc := if s.cancelled then Stopping else Going)
    case Start => ApplyStart(s)
    case ConnectEnds(reason) => ApplyConnectEnds(s, reason)
    case CheckAfter => s.(pc := if s.cancelled then Stopping else Reporting(s.pc.reason))
    case Report => Publish(s, Disconnected(s.generation, s.pc.reason)).(pc := Sleeping)
    case Wake => s.(pc := Top)
    case SleepCancelled => s.(pc := Stopping)
    case Stop => Publish(s, Stopped).(pc := Done)
    case Cancel => s.(cancelled := true)
    case ReportCheck(c, g) => if IsCurrent(s.value, g) then s.(calls := s.calls[c := Call(g, |s.published|)]) else s
    case ReportSend(c) => ApplyReportSend(s, c)
    case DropReceivers => s.(live := false)
  }

  // ---------------------------------------------------------------- runs

  ghost predicate Run(s: State, labels: seq<Label>, s': State)
    decreases |labels|
  {
    if labels == [] then s' == s else Enabled(s, labels[0]) && Run(Apply(s, labels[0]), labels[1..], s')
  }

  lemma {:induction false} RunAppend(s: State, labels: seq<Label>, mid: State, l: Label)
    requires Run(s, labels, mid) && Enabled(mid, l)
    ensures Run(s, labels + [l], Apply(mid, l))
    decreases |labels|
  {
    hide Apply, Enabled;
    if labels == [] {
      assert [l][1..] == [];
      assert labels + [l] == [l];
    } else {
      RunAppend(Apply(s, labels[0]), labels[1..], mid, l);
      assert (labels + [l])[1..] == labels[1..] + [l];
    }
  }

  // ---------------------------------------------------------------- attempts, generations, tokens

  function Starts(published: seq<ConnectionState>): nat {
    if published == [] then 0
    else Starts(published[..|published| - 1]) + if published[|published| - 1].Connecting? then 1 else 0
  }

  // The k-th attempt published is generation k, attempt k, up to the widths of the counters.
  ghost predicate Numbered(published: seq<ConnectionState>) {
    forall i :: 0 <= i < |published| && published[i].Connecting? ==>
      (var k := Starts(published[..i]) + 1;
       published[i] == Connecting(Min(k, U64_MAX), Min(k, U32_MAX)))
  }

  ghost predicate Counted(s: State) {
    var n := |s.connects|;
    && s.generation == Min(n, U64_MAX)
    && (s.attempt == Min(n, U32_MAX) || ((s.pc.Stopping? || s.pc.Done?) && s.attempt == Min(n + 1, U32_MAX)))
    && (n > 0 ==> Permits(s.maxAttempts, Min(n, U32_MAX)))
    && (forall i :: 0 <= i < n ==> s.connects[i] == Min(i + 1, U64_MAX))
    && Starts(s.published) <= n && (s.live ==> Starts(s.published) == n)
  }

  // The token of every connection but a running one is cancelled.
  ghost predicate TokensOk(s: State) {
    && |s.tokens| == |s.connects|
    && (s.pc.Running? ==> s.tokens != [])
    && (forall i :: 0 <= i < |s.tokens| && !(s.pc.Running? && i == |s.tokens| - 1) ==> s.tokens[i])
  }

  ghost predicate Inv(s: State) { Counted(s) && Numbered(s.published) && TokensOk(s) }

  lemma {:induction false} PublishStarts(s: State, value: ConnectionState)
    ensures Starts(Publish(s, value).published) == Starts(s.published) + if s.live && value.Connecting? then 1 else 0
  {
    assert (s.published + [value])[..|s.published|] == s.published;
  }

  lemma {:induction false} PublishNumbered(s: State, value: ConnectionState)
    requires Numbered(s.published)
    requires value.Connecting? && s.live ==>
               (var k := Starts(s.published) + 1; value == Connecting(Min(k, U64_MAX), Min(k, U32_MAX)))
    ensures Numbered(Publish(s, value).published)
  {
    var p := Publish(s, value).published;
    forall i | 0 <= i < |p| && p[i].Connecting?
      ensures var k := Starts(p[..i]) + 1; p[i] == Connecting(Min(k, U64_MAX), Min(k, U32_MAX))
    {
      assert i <= |s.published| && p[..i] == s.published[..i];
      assert s.published[..|s.published|] == s.published;
    }
  }

  lemma {:induction false} StartCounted(s: State)
    requires Counted(s) && s.pc.Going?
    ensures Counted(ApplyStart(s))
  {
    hide Numbered, Starts, TokensOk;
    PublishStarts(s, Connecting(Min(s.generation + 1, U64_MAX), Min(s.attempt + 1, U32_MAX)));
  }

  lemma {:induction false} StartNumbered(s: State)
    requires Counted(s) && Numbered(s.published) && s.pc.Going?
    ensures Numbered(ApplyStart(s).published)
  {
    hide Numbered, Starts, TokensOk;
    PublishNumbered(s, Connecting(Min(s.generation + 1, U64_MAX), Min(s.attempt + 1, U32_MAX)));
  }

  lemma {:induction false} StartTokens(s: State)
    requires TokensOk(s) && s.pc.Going?
    ensures TokensOk(ApplyStart(s))
  {
  }

  lemma {:induction false} StepInv(s: State, l: Label)
    requires Enabled(s, l) && Inv(s)
    ensures Inv(Apply(s, l))
  {
    hide Numbered, Starts;
    if l.Start? {
      StartCounted(s);
      StartNumbered(s);
      StartTokens(s);
    } else if l.Report? {
      PublishStarts(s, Disconnected(s.generation, s.pc.reason));
      PublishNumbered(s, Disconnected(s.generation, s.pc.reason));
    } else if l.Stop? {
      PublishStarts(s, Stopped);
      PublishNumbered(s, Stopped);
    }
  }

  lemma {:induction false} RunInv(s: State, labels: seq<Label>, s': State)
    requires Inv(s) && Run(s, labels, s')
    ensures Inv(s') && s'.maxAttempts == s.maxAttempts
    decreases |labels|
  {
    hide Inv, Enabled;
    if labels != [] {
      StepInv(s, labels[0]);
      RunInv(Apply(s, labels[0]), labels[1..], s');
    }
  }

  // Generations count the calls of the connector from 1, and those are the states published.
  lemma {:induction false} GenerationsByOne(max: Option<nat>, labels: seq<Label>, s: State)
    requires Run(Init(max), labels, s)
    ensures forall i :: 0 <= i < |s.connects| && i < U64_MAX ==> s.connects[i] == i + 1
    ensures Numbered(s.published) && (s.live ==> Starts(s.published) == |s.connects|)
  {
    RunInv(Init(max), labels, s);
  }

  // When a generation is announced, and whenever none runs, the token of every earlier one is cancelled.
  lemma {:induction false} EarlierCancelled(max: Option<nat>, labels: seq<Label>, s: State)
    requires Run(Init(max), labels, s)
    ensures |s.tokens| == |s.connects|
    ensures forall i :: 0 <= i < |s.connects| - 1 ==> s.tokens[i]
    ensures !s.pc.Running? ==> forall i :: 0 <= i < |s.connects| ==> s.tokens[i]
  {
    RunInv(Init(max), labels, s);
  }

  lemma {:induction false} OneMore(max: Option<nat>, labels: seq<Label>, s: State) returns (more: seq<Label>, s': State)
    requires Permits(max, U32_MAX)
    requires Run(Init(max), labels, s) && s.pc.Top? && !s.cancelled
    ensures Run(Init(max), more, s') && s'.pc.Top? && !s'.cancelled && |s'.connects| == |s.connects| + 1
  {
    hide Run, Inv;
    RunInv(Init(max), labels, s) by { InitInv(max); }
    var s1 := Apply(s, Check);
    var s2 := Apply(s1, Start);
    var s3 := Apply(s2, ConnectEnds(""));
    var s4 := Apply(s3, CheckAfter);
    var s5 := Apply(s4, Report);
    s' := Apply(s5, Wake);
    RunAppend(Init(max), labels, s, Check);
    RunAppend(Init(max), labels + [Check], s1, Start);
    RunAppend(Init(max), labels + [Check] + [Start], s2, ConnectEnds(""));
    RunAppend(Init(max), labels + [Check] + [Start] + [ConnectEnds("")], s3, CheckAfter);
    RunAppend(Init(max), labels + [Check] + [Start] + [ConnectEnds("")] + [CheckAfter], s4, Report);
    RunAppend(Init(max), labels + [Check] + [Start] + [ConnectEnds("")] + [CheckAfter] + [Report], s5, Wake);
    more := labels + [Check] + [Start] + [ConnectEnds("")] + [CheckAfter] + [Report] + [Wake];
  }

  lemma {:induction false} InitInv(max: Option<nat>)
    ensures Inv(Init(max))
  {
  }

  lemma {:induction false} AnyNumber(max: Option<nat>, n: nat) returns (labels: seq<Label>, s: State)
    requires Permits(max, U32_MAX)
    ensures Run(Init(max), labels, s) && s.pc.Top? && !s.cancelled && |s.connects| == n
  {
    if n == 0 {
      labels, s := [], Init(max);
    } else {
      labels, s := AnyNumber(max, n - 1);
      labels, s := OneMore(max, labels, s);
    }
  }

  ghost predicate Bounded(max: nat) {
    forall labels, s :: Run(Init(Some(max)), labels, s) ==> |s.connects| <= max
  }

  // The connector is called at most `max` times, for every `max` but the greatest: there the attempt
  // counter stops counting, and the supervisor never gives up.
  lemma {:induction false} AttemptsBoundedExactly(max: nat)
    requires max <= U32_MAX
    ensures Bounded(max) <==> max < U32_MAX
  {
    if max < U32_MAX {
      forall labels, s | Run(Init(Some(max)), labels, s) ensures |s.connects| <= max {
        RunInv(Init(Some(max)), labels, s);
      }
    } else {
      var labels, s := AnyNumber(Some(max), max + 1);
    }
  }

  // ---------------------------------------------------------------- reports

  function Last(s: State): ConnectionState { if s.published == [] then Idle else s.published[|s.published| - 1] }

  // Observers see what the task published last, or that its present generation connected.
  ghost predicate Faithful(s: State) {
    s.value == Last(s) || (Last(s).Connecting? && s.value == Connected(Last(s).generation))
  }

  // A report writes the channel although the task published since the report read it.
  ghost predicate Straddles(s: State, l: Label)
    requires Enabled(s, l)
  {
    l.ReportSend? && s.live && s.calls[l.call].stamp != |s.published|
  }

  ghost predicate AlwaysFaithful(s: State, labels: seq<Label>)
    decreases |labels|
  {
    Faithful(s) && (labels != [] ==> Enabled(s, labels[0]) && AlwaysFaithful(Apply(s, labels[0]), labels[1..]))
  }

  ghost predicate NeverStraddles(s: State, labels: seq<Label>)
    decreases |labels|
  {
    labels != [] ==>
      Enabled(s, labels[0]) && !Straddles(s, labels[0]) && NeverStraddles(Apply(s, labels[0]), labels[1..])
  }

  // A report under way that nothing overtook is of the generation announced last; one that the task
  // overtook is not.
  ghost predicate CallOk(s: State, c: Call) {
    && c.generation <= s.generation && c.stamp <= |s.published|
    && (c.stamp == |s.published| <==> Last(s).Connecting? && Last(s).generation == c.generation)
  }

  ghost predicate Ordered(s: State) {
    && (forall c <- s.calls :: CallOk(s, s.calls[c]))
    && (Last(s).Connecting? ==> Last(s).generation <= s.generation)
    && (Last(s).Connected? ==> false)
  }

  lemma {:induction false} StepFaithful(s: State, l: Label)
    requires Enabled(s, l) && Faithful(s) && Ordered(s) && Apply(s, l).generation < U64_MAX
    ensures Faithful(Apply(s, l)) <==> !Straddles(s, l)
    ensures Faithful(Apply(s, l)) ==> Ordered(Apply(s, l))
  {
    hide Ordered;
    PublishedGrows(s, l);
    if Faithful(Apply(s, l)) { StepOrdered(s, l); }
    if l.ReportSend? { CallHolds(s, l.call); }
    NoConnected(s);
  }

  lemma {:induction false} PublishedGrows(s: State, l: Label)
    requires Enabled(s, l)
    ensures var s' := Apply(s, l);
            if s.live && (s'.published != s.published) then |s'.published| == |s.published| + 1 && s'.value == Last(s')
            else s'.published == s.published
  {
  }

  lemma {:induction false} CallHolds(s: State, c: nat)
    requires Ordered(s) && c in s.calls
    ensures CallOk(s, s.calls[c])
  {
  }

  lemma {:induction false} NoConnected(s: State)
    requires Ordered(s)
    ensures !Last(s).Connected?
  {
  }

  lemma {:induction false} StepCall(s: State, l: Label, c: nat)
    requires Enabled(s, l) && Faithful(s) && Ordered(s) && Apply(s, l).generation < U64_MAX && c in Apply(s, l).calls
    ensures CallOk(Apply(s, l), Apply(s, l).calls[c])
  {
    hide Ordered;
    if c in s.calls { CallHolds(s, c); }
    NoConnected(s);
    LastOld(s);
  }

  lemma {:induction false} LastOld(s: State)
    requires Ordered(s)
    ensures Last(s).Connecting? ==> Last(s).generation <= s.generation
  {
  }

  lemma {:induction false} StepOrdered(s: State, l: Label)
    requires Enabled(s, l) && Faithful(s) && Ordered(s) && Apply(s, l).generation < U64_MAX
    ensures Ordered(Apply(s, l))
  {
    hide CallOk;
    var s' := Apply(s, l);
    forall c | c in s'.calls ensures CallOk(s', s'.calls[c]) { StepCall(s, l, c); }
  }

  lemma {:induction false} GenerationGrows(s: State, labels: seq<Label>, s': State)
    requires Run(s, labels, s') && s.generation <= U64_MAX
    ensures s.generation <= s'.generation <= U64_MAX
    decreases |labels|
  {
    if labels != [] { GenerationGrows(Apply(s, labels[0]), labels[1..], s'); }
  }

  lemma {:induction false} FaithfulFrom(s: State, labels: seq<Label>, s': State)
    requires Run(s, labels, s') && Faithful(s) && Ordered(s) && s'.generation < U64_MAX && s.generation <= U64_MAX
    ensures AlwaysFaithful(s, labels) <==> NeverStraddles(s, labels)
    ensures AlwaysFaithful(s, labels) ==> Faithful(s') && Ordered(s')
    decreases |labels|
  {
    hide Faithful, Ordered, Straddles;
    if labels != [] {
      var next := Apply(s, labels[0]);
      GenerationGrows(s, [labels[0]], next);
      GenerationGrows(next, labels[1..], s');
      StepFaithful(s, labels[0]);
      if Faithful(next) { FaithfulFrom(next, labels[1..], s'); }
    }
  }

  // Observers are never misled exactly when no report straddles a publication of the task.
  lemma {:induction false} FaithfulExactly(max: Option<nat>, labels: seq<Label>, s: State)
    requires Run(Init(max), labels, s) && s.generation < U64_MAX
    ensures AlwaysFaithful(Init(max), labels) <==> NeverStraddles(Init(max), labels)
  {
    FaithfulFrom(Init(max), labels, s);
  }

  // Every report writes the channel right after reading it.
  ghost predicate AtomicReports(labels: seq<Label>) {
    forall i :: 0 < i < |labels| && labels[i].ReportSend? ==>
      labels[i - 1].ReportCheck? && labels[i - 1].call == labels[i].call
  }

  lemma {:induction false} AtomicFrom(s: State, labels: seq<Label>, s': State)
    requires Run(s, labels, s') && AtomicReports(labels)
    requires labels != [] ==> !Straddles(s, labels[0])
    ensures NeverStraddles(s, labels)
    decreases |labels|
  {
    if labels != [] {
      var rest := labels[1..];
      assert forall i :: 0 <= i < |rest| ==> rest[i] == labels[i + 1];
      AtomicFrom(Apply(s, labels[0]), rest, s');
    }
  }

  // With reports that read and write in one go, observers are never misled.
  lemma {:induction false} AtomicReportsFaithful(max: Option<nat>, labels: seq<Label>, s: State)
    requires Run(Init(max), labels, s) && s.generation < U64_MAX && AtomicReports(labels)
    ensures Faithful(s)
  {
    AtomicFrom(Init(max), labels, s);
    FaithfulFrom(Init(max), labels, s);
  }

  // ---------------------------------------------------------------- the end

  lemma {:induction false} DoneKept(s: State, labels: seq<Label>, s': State)
    requires Run(s, labels, s') && (s.pc.Done? && s.live ==> Last(s) == Stopped)
    ensures s'.pc.Done? && s'.live ==> Last(s') == Stopped
    ensures s.pc.Done? ==> s'.pc.Done? && s'.published == s.published && s'.connects == s.connects
    decreases |labels|
  {
    if labels != [] { DoneKept(Apply(s, labels[0]), labels[1..], s'); }
  }

  // Once the task stopped nothing is announced or connected, and observers keep seeing the stop.
  lemma {:induction false} StoppedIsFinal(max: Option<nat>, labels: seq<Label>, s: State, more: seq<Label>, s': State)
    requires Run(Init(max), labels, s) && s.pc.Done? && s.live && Run(s, more, s') && s'.generation < U64_MAX
    requires NeverStraddles(Init(max), labels) && NeverStraddles(s, more)
    ensures s'.value == Stopped && s'.connects == s.connects
  {
    GenerationGrows(Init(max), labels, s);
    GenerationGrows(s, more, s');
    DoneKept(Init(max), labels, s);
    DoneKept(s, more, s');
    FaithfulFrom(Init(max), labels, s);
    FaithfulFrom(s, more, s');
  }

  // After a cancellation no attempt starts, but one that was past its check already.
  lemma {:induction false} CancelledStops(s: State, labels: seq<Label>, s': State)
    requires s.cancelled && Run(s, labels, s')
    ensures |s'.connects| <= |s.connects| + if s.pc.Going? then 1 else 0
    decreases |labels|
  {
    if labels != [] { CancelledStops(Apply(s, labels[0]), labels[1..], s'); }
  }

  // A report that straddles the stop makes a stopped supervisor look connected for good.
  lemma {:induction false} ConnectedAfterStop(max: Option<nat>) returns (labels: seq<Label>, s: State)
    requires Permits(max, 1)
    ensures Run(Init(max), labels, s) && s.pc.Done? && s.value == Connected(1)
  {
    hide Run;
    var s0 := Init(max);
    assert Run(s0, [], s0) by { RunNothing(s0); }
    var s1 := Apply(s0, Check);
    var s2 := Apply(s1, Start);
    var s3 := Apply(s2, ReportCheck(0, 1));
    var s4 := Apply(s3, ConnectEnds(""));
    var s5 := Apply(s4, Cancel);
    var s6 := Apply(s5, CheckAfter);
    var s7 := Apply(s6, Stop);
    s := Apply(s7, ReportSend(0));
    RunAppend(s0, [], s0, Check);
    RunAppend(s0, [] + [Check], s1, Start);
    RunAppend(s0, [] + [Check] + [Start], s2, ReportCheck(0, 1));
    labels := [] + [Check] + [Start] + [ReportCheck(0, 1)];
    RunAppend(s0, labels, s3, ConnectEnds(""));
    RunAppend(s0, labels + [ConnectEnds("")], s4, Cancel);
    RunAppend(s0, labels + [ConnectEnds("")] + [Cancel], s5, CheckAfter);
    labels := labels + [ConnectEnds("")] + [Cancel] + [CheckAfter];
    RunAppend(s0, labels, s6, Stop);
    RunAppend(s0, labels + [Stop], s7, ReportSend(0));
    labels := labels + [Stop] + [ReportSend(0)];
  }

  lemma {:induction false} RunNothing(s: State)
    ensures Run(s, [], s)
  {
  }

  // ---------------------------------------------------------------- the loop

  // What the rest of the program does while the task goes round once.
  datatype Round = Round(cancelBefore: bool, reason: string, cancelDuring: bool, cancelInSleep: bool)

  // The task goes round again, after `n` rounds.
  predicate GoesOn(max: Option<nat>, round: Round, n: nat) {
    Permits(max, Min(n + 1, U32_MAX)) && !round.cancelBefore && !round.cancelDuring && !round.cancelInSleep
  }

  function Turn(max: Option<nat>, round: Round, n: nat): seq<ConnectionState> {
    var g, a := Min(n + 1, U64_MAX), Min(n + 1, U32_MAX);
    if round.cancelBefore || !Permits(max, a) then []
    else [Connecting(g, a)] + if round.cancelDuring then [] else [Disconnected(g, round.reason)]
  }

  function Announced(max: Option<nat>, rounds: seq<Round>, n: nat): seq<ConnectionState> {
    if rounds == [] then []
    else Turn(max, rounds[0], n) + if GoesOn(max, rounds[0], n) then Announced(max, rounds[1..], n + 1) else [Stopped]
  }

  lemma {:induction false} AnnouncedFrom(max: Option<nat>, rounds: seq<Round>, i: nat, before: seq<ConnectionState>)
    requires i < |rounds|
    ensures var rest := if GoesOn(max, rounds[i], i) then Announced(max, rounds[i + 1..], i + 1) else [Stopped];
            before + Announced(max, rounds[i..], i) == before + Turn(max, rounds[i], i) + rest
  {
    assert rounds[i..][1..] == rounds[i + 1..];
  }

  class Task {
    const maxAttempts: Option<nat>
    var generation: nat
    var attempt: nat
    var cancelled: bool
    var value: ConnectionState
    ghost var pc: Pc
    ghost var published: seq<ConnectionState>
    ghost var connects: seq<nat>
    ghost var tokens: seq<bool>
    ghost var labels: seq<Label>

    ghost function Now(): State
      reads this
    {
      State(maxAttempts, pc, generation, attempt, cancelled, value, true, map[], published, connects, tokens)
    }

    // The fields are what a run from the start leads to.
    ghost predicate Valid()
      reads this
    {
      Run(Init(maxAttempts), labels, Now())
    }

    constructor (max: Option<nat>)
      ensures Valid() && maxAttempts == max && Now() == Init(max)
    {
      maxAttempts, generation, attempt, cancelled, value := max, 0, 0, false, Idle;
      pc, published, connects, tokens, labels := Top, [], [], [], [];
    }

    ghost method Step(before: State, l: Label)
      requires Run(Init(maxAttempts), labels, before) && Enabled(before, l) && Now() == Apply(before, l)
      modifies this`labels
      ensures Valid() && labels == old(labels) + [l]
    {
      RunAppend(Init(maxAttempts), labels, before, l);
      labels := labels + [l];
    }

    method Publish(state: ConnectionState)
      modifies this`value, this`published
      ensures value == state && published == old(published) + [state]
    {
      value, published := state, published + [state];
    }

    method CancelIf(now: bool)
      requires Valid()
      modifies this`cancelled, this`labels
      ensures Valid() && Now() == old(Now()).(cancelled := old(cancelled) || now)
    {
      if now {
        ghost var before := Now();
        cancelled := true;
        Step(before, Cancel);
      }
    }

    // `ConnectionReporter::connected`, undisturbed.
    method Connected(reported: nat)
      requires Valid() && 1 <= reported <= generation
      modifies this`value, this`labels
      ensures Valid()
      ensures value ==
        if (old(value).Connecting? || old(value).Connected?) && old(value).generation == reported
        then ConnectionState.Connected(reported) else old(value)
    {
      ghost var before := Now();
      var current := IsCurrent(value, reported);
      RunAppend(Init(maxAttempts), labels, before, ReportCheck(0, reported));
      labels := labels + [ReportCheck(0, reported)];
      if current {
        value := ConnectionState.Connected(reported);
        before := Apply(before, ReportCheck(0, reported));
        Step(before, ReportSend(0));
      }
    }

    // The head of the loop up to the call of the connector.
    method Begin() returns (connecting: bool)
      requires Valid() && pc.Top?
      modifies this
      ensures Valid() && cancelled == old(cancelled)
      ensures connecting ==
        (!old(cancelled) && (maxAttempts.None? || Min(old(attempt) + 1, U32_MAX) <= maxAttempts.value))
      ensures if connecting then pc.Running? else pc.Stopping? && published == old(published)
      ensures connecting ==> published == old(published) + [Connecting(generation, attempt)]
      ensures connecting ==>
        generation == Min(old(generation) + 1, U64_MAX) && attempt == Min(old(attempt) + 1, U32_MAX)
    {
      ghost var before := Now();
      if cancelled {
        pc := Stopping;
        Step(before, Check);
        return false;
      }
      pc := Going;
      Step(before, Check);
      before := Now();
      attempt := Min(attempt + 1, U32_MAX);
      if !Permits(maxAttempts, attempt) {
        pc := Stopping;
        Step(before, Start);
        return false;
      }
      generation := Min(generation + 1, U64_MAX);
      Publish(Connecting(generation, attempt));
      pc, connects, tokens := Running, connects + [generation], tokens + [false];
      Step(before, Start);
      return true;
    }

    // From the end of the connection to the sleep.
    method Finish(reason: string) returns (again: bool)
      requires Valid() && pc.Running?
      modifies this
      ensures Valid() && again == !old(cancelled) && cancelled == old(cancelled)
      ensures generation == old(generation) && attempt == old(attempt)
      ensures if again then pc.Sleeping? else pc.Stopping?
      ensures published == old(published) + if again then [Disconnected(generation, reason)] else []
    {
      ghost var before := Now();
      tokens := if tokens == [] then [] else tokens[|tokens| - 1 := true];
      pc := Ended(reason);
      Step(before, ConnectEnds(reason));
      before := Now();
      if cancelled {
        pc := Stopping;
        Step(before, CheckAfter);
        return false;
      }
      pc := Reporting(reason);
      Step(before, CheckAfter);
      before := Now();
      Publish(Disconnected(generation, reason));
      pc := Sleeping;
      Step(before, Report);
      return true;
    }

    method GoRound(round: Round, ghost n: nat) returns (again: bool)
      requires Valid() && pc.Top? && !cancelled && generation == Min(n, U64_MAX) && attempt == Min(n, U32_MAX)
      modifies this
      ensures Valid() && again == GoesOn(maxAttempts, round, n)
      ensures published == old(published) + Turn(maxAttempts, round, n)
      ensures if again then pc.Top? && !cancelled else pc.Stopping?
      ensures again ==> generation == Min(n + 1, U64_MAX) && attempt == Min(n + 1, U32_MAX)
    {
      hide Run;
      CancelIf(round.cancelBefore);
      again := Begin();
      if !again { return; }
      CancelIf(round.cancelDuring);
      again := Finish(round.reason);
      if !again { return; }
      CancelIf(round.cancelInSleep);
      ghost var before := Now();
      if round.cancelInSleep {
        pc := Stopping;
        Step(before, SleepCancelled);
        return false;
      }
      pc := Top;
      Step(before, Wake);
    }

    // The task, for as many rounds as `rounds` tells of.
    method Spawn(rounds: seq<Round>) returns (stopped: bool)
      requires Valid() && Now() == Init(maxAttempts)
      modifies this
      ensures Valid() && stopped == pc.Done? && (stopped ==> value == Stopped)
      ensures published == Announced(maxAttempts, rounds, 0)
    {
      hide Run, Announced, Turn, GoesOn;
      var i := 0;
      assert rounds[0..] == rounds;
      while i < |rounds|
        invariant 0 <= i <= |rounds|
        invariant Valid() && pc.Top? && !cancelled && generation == Min(i, U64_MAX) && attempt == Min(i, U32_MAX)
        invariant published + Announced(maxAttempts, rounds[i..], i) == Announced(maxAttempts, rounds, 0)
      {
        AnnouncedFrom(maxAttempts, rounds, i, published);
        var again := GoRound(rounds[i], i);
        if !again {
          ghost var before := Now();
          Publish(Stopped);
          pc := Done;
          Step(before, Stop);
          return true;
        }
        i := i + 1;
      }
      assert rounds[i..] == [];
      NothingAnnounced(maxAttempts, i);
      return false;
    }
  }

  lemma {:induction false} NothingAnnounced(max: Option<nat>, n: nat)
    ensures Announced(max, [], n) == []
  {
  }
}

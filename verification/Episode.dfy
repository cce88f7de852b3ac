/**
The failure episode of the logger (base/src/logger/episode.rs): which failures of a series are
reported, and what the reports say. The functions give the meaning of one call; the lemmas relate the
counters to the whole series of failures. Instants and durations are naturals, in any order.
*/
module Episode {
  import opened Options

  const U64_MAX: nat := 0xFFFF_FFFF_FFFF_FFFF

  datatype Decision =
    | Started
    | Suppressed
    | Summary(total: nat, sinceLastSummary: nat, suppressed: nat, duration: nat)
    | Recovered(total: nat, suppressed: nat, duration: nat)
    | Healthy

  datatype State = State(
    startedAt: Option<nat>, lastSummaryAt: Option<nat>, total: nat, suppressedTotal: nat, suppressedSinceSummary: nat)

  datatype Outcome = Outcome(state: State, decision: Decision)

  const Fresh: State := State(None, None, 0, 0, 0)

  function SaturatingAdd(a: nat, b: nat): nat { if a + b <= U64_MAX then a + b else U64_MAX }

  function Elapsed(now: nat, earlier: nat): nat { if earlier <= now then now - earlier else 0 }

  function Fail(interval: nat, e: State, now: nat): Outcome {
    if e.startedAt.None? then
      Outcome(State(Some(now), Some(now), 1, e.suppressedTotal, e.suppressedSinceSummary), Started)
    else
      var startedAt := e.startedAt.value;
      var total := SaturatingAdd(e.total, 1);
      var lastSummaryAt := if e.lastSummaryAt.Some? then e.lastSummaryAt.value else startedAt;
      if Elapsed(now, lastSummaryAt) >= interval then
        Outcome(State(e.startedAt, Some(now), total, e.suppressedTotal, 0),
                Summary(total, SaturatingAdd(e.suppressedSinceSummary, 1), e.suppressedSinceSummary,
                        Elapsed(now, startedAt)))
      else
        Outcome(State(e.startedAt, e.lastSummaryAt, total, SaturatingAdd(e.suppressedTotal, 1),
                      SaturatingAdd(e.suppressedSinceSummary, 1)), Suppressed)
  }

  // ---------------------------------------------------------------- a series of failures

  // The state after failures at `times`, the first of which started the episode.
  function After(interval: nat, times: seq<nat>): State {
    if times == [] then Fresh
    else
      var n := |times| - 1;
      Fail(interval, After(interval, times[..n]), times[n]).state
  }

  function Decisions(interval: nat, times: seq<nat>): (ds: seq<Decision>)
    ensures |ds| == |times|
  {
    if times == [] then []
    else
      var n := |times| - 1;
      Decisions(interval, times[..n]) + [Fail(interval, After(interval, times[..n]), times[n]).decision]
  }

  predicate Reported(d: Decision) { d != Suppressed }

  function CountSuppressed(ds: seq<Decision>): nat {
    if ds == [] then 0
    else
      var n := |ds| - 1;
      CountSuppressed(ds[..n]) + if Reported(ds[n]) then 0 else 1
  }

  // How many failures the last report left unreported so far.
  function Trailing(ds: seq<Decision>): (t: nat)
    ensures t <= |ds|
  {
    if ds == [] || Reported(ds[|ds| - 1]) then 0 else Trailing(ds[..|ds| - 1]) + 1
  }

  function Summaries(ds: seq<Decision>): nat {
    if ds == [] then 0
    else
      var n := |ds| - 1;
      Summaries(ds[..n]) + if ds[n].Summary? then 1 else 0
  }

  function SumSince(ds: seq<Decision>): nat {
    if ds == [] then 0
    else
      var n := |ds| - 1;
      SumSince(ds[..n]) + if ds[n].Summary? then ds[n].sinceLastSummary else 0
  }

  function SumSuppressed(ds: seq<Decision>): nat {
    if ds == [] then 0
    else
      var n := |ds| - 1;
      SumSuppressed(ds[..n]) + if ds[n].Summary? then ds[n].suppressed else 0
  }

  function Capped(a: nat): nat { if a <= U64_MAX then a else U64_MAX }

  // One more failure.
  lemma {:induction false} OneMore(interval: nat, times: seq<nat>)
    requires times != []
    ensures var n := |times| - 1;
            var o := Fail(interval, After(interval, times[..n]), times[n]);
            && After(interval, times) == o.state
            && Decisions(interval, times) == Decisions(interval, times[..n]) + [o.decision]
  {
  }

  lemma {:induction false} CountsOfMore(ds: seq<Decision>, d: Decision)
    ensures var r := if Reported(d) then 0 else 1;
            && CountSuppressed(ds + [d]) == CountSuppressed(ds) + r
            && Trailing(ds + [d]) == (if Reported(d) then 0 else Trailing(ds) + 1)
            && Summaries(ds + [d]) == Summaries(ds) + (if d.Summary? then 1 else 0)
            && SumSince(ds + [d]) == SumSince(ds) + (if d.Summary? then d.sinceLastSummary else 0)
            && SumSuppressed(ds + [d]) == SumSuppressed(ds) + (if d.Summary? then d.suppressed else 0)
  {
    assert (ds + [d])[..|ds|] == ds;
  }

  lemma {:induction false} First(interval: nat, time: nat)
    ensures After(interval, [time]) == State(Some(time), Some(time), 1, 0, 0)
    ensures Decisions(interval, [time]) == [Started]
    ensures CountSuppressed([Started]) == Trailing([Started]) == Summaries([Started]) == 0
    ensures SumSince([Started]) == SumSuppressed([Started]) == 0
  {
    assert [time][..0] == [];
    CountsOfMore([], Started);
    assert [] + [Started] == [Started];
  }

  // What the fields mean: counts of the series, up to the width of the counters.
  ghost predicate Fields(e: State, times: seq<nat>, ds: seq<Decision>)
    requires times != []
  {
    && e.startedAt == Some(times[0])
    && e.total == Capped(|times|)
    && e.suppressedTotal == Capped(CountSuppressed(ds))
    && e.suppressedSinceSummary == Capped(Trailing(ds))
    && Trailing(ds) < |times|
    && e.lastSummaryAt == Some(times[|times| - 1 - Trailing(ds)])
  }

  lemma {:induction false} FieldsMean(interval: nat, times: seq<nat>)
    requires times != []
    ensures Fields(After(interval, times), times, Decisions(interval, times))
  {
    hide After, Decisions, CountSuppressed, Trailing, Summaries, SumSince, SumSuppressed;
    var n := |times| - 1;
    if n == 0 {
      First(interval, times[0]);
      assert times == [times[0]];
    } else {
      var e, ds := After(interval, times[..n]), Decisions(interval, times[..n]);
      FieldsMean(interval, times[..n]);
      OneMore(interval, times);
      CountsOfMore(ds, Fail(interval, e, times[n]).decision);
    }
  }

  lemma {:induction false} DecisionAt(interval: nat, times: seq<nat>, i: nat)
    requires i < |times|
    ensures Decisions(interval, times)[..i] == Decisions(interval, times[..i])
    ensures Decisions(interval, times)[i] == Fail(interval, After(interval, times[..i]), times[i]).decision
  {
    var n := |times| - 1;
    if i < n {
      DecisionAt(interval, times[..n], i);
      assert times[..n][..i] == times[..i];
      assert Decisions(interval, times)[..i] == Decisions(interval, times[..n])[..i];
    } else {
      assert Decisions(interval, times)[..i] == Decisions(interval, times[..n]);
    }
  }

  lemma {:induction false} TrailingMeans(ds: seq<Decision>)
    ensures var t := Trailing(ds);
            && (forall i :: |ds| - t <= i < |ds| ==> ds[i] == Suppressed)
            && (t < |ds| ==> Reported(ds[|ds| - 1 - t]))
  {
    if ds != [] { TrailingMeans(ds[..|ds| - 1]); }
  }

  // The state before failure i, in terms of the decisions before it.
  lemma {:induction false} Before(interval: nat, times: seq<nat>, i: nat) returns (t: nat)
    requires 0 < i < |times|
    ensures var e, ds := After(interval, times[..i]), Decisions(interval, times);
            && t < i && Reported(ds[i - 1 - t]) && (forall j :: i - t <= j < i ==> ds[j] == Suppressed)
            && e.startedAt == Some(times[0]) && e.lastSummaryAt == Some(times[i - 1 - t])
            && e.total == Capped(i) && e.suppressedSinceSummary == Capped(t)
            && ds[i] == Fail(interval, e, times[i]).decision
  {
    hide After, Trailing;
    var before := Decisions(interval, times[..i]);
    FieldsMean(interval, times[..i]);
    DecisionAt(interval, times, i);
    TrailingMeans(before);
    t := Trailing(before);
    var ds := Decisions(interval, times);
    hide Decisions;
    assert forall j :: 0 <= j < i ==> ds[j] == ds[..i][j];
  }

  // A summary tells how many failures there were so far, and how many since the report before it.
  lemma {:induction false} SummaryMeans(interval: nat, times: seq<nat>, i: nat)
    requires i < |times| <= U64_MAX && Decisions(interval, times)[i].Summary?
    ensures var ds := Decisions(interval, times);
            var s := ds[i];
            && s.total == i + 1 && s.suppressed + 1 == s.sinceLastSummary <= i
            && Reported(ds[i - s.sinceLastSummary])
            && (forall j :: i - s.sinceLastSummary < j < i ==> ds[j] == Suppressed)
            && s.duration == Elapsed(times[i], times[0])
  {
    hide After, Decisions;
    if i == 0 { FirstStarts(interval, times); }
    var t := Before(interval, times, i);
  }

  // A failure is reported exactly when the interval has passed since the last report.
  lemma {:induction false} ReportedWhenDue(interval: nat, times: seq<nat>, i: nat, last: nat)
    requires interval > 0 && last < i < |times|
    requires Reported(Decisions(interval, times)[last])
    requires forall j :: last < j < i ==> Decisions(interval, times)[j] == Suppressed
    ensures Decisions(interval, times)[i].Summary? <==> times[i] >= times[last] + interval
    ensures Reported(Decisions(interval, times)[i]) <==> Decisions(interval, times)[i].Summary?
  {
    hide After, Decisions;
    var t := Before(interval, times, i);
    assert i - 1 - t == last;
  }

  lemma {:induction false} FirstStarts(interval: nat, times: seq<nat>)
    requires times != []
    ensures Decisions(interval, times)[0] == Started
  {
    DecisionAt(interval, times, 0);
  }

  // Every failure is accounted for once, exactly as long as the total has not saturated.
  lemma {:induction false} TotalAccounts(interval: nat, times: seq<nat>)
    requires times != []
    ensures var e, ds := After(interval, times), Decisions(interval, times);
            e.total == 1 + SumSince(ds) + e.suppressedSinceSummary <==> |times| <= U64_MAX
  {
    FieldsMean(interval, times);
    Accounted(interval, times);
  }

  lemma {:induction false} Accounted(interval: nat, times: seq<nat>)
    requires times != []
    ensures var e, ds := After(interval, times), Decisions(interval, times);
            var accounted := 1 + SumSince(ds) + e.suppressedSinceSummary;
            if |times| <= U64_MAX + 1 then accounted == |times| else accounted > U64_MAX
  {
    hide After, Decisions, CountSuppressed, Trailing, Summaries, SumSince, SumSuppressed;
    var n := |times| - 1;
    if n == 0 {
      First(interval, times[0]);
      assert times == [times[0]];
    } else {
      var e, ds := After(interval, times[..n]), Decisions(interval, times[..n]);
      Accounted(interval, times[..n]);
      FieldsMean(interval, times[..n]);
      OneMore(interval, times);
      CountsOfMore(ds, Fail(interval, e, times[n]).decision);
    }
  }

  lemma {:induction false} SuppressedAccounts(interval: nat, times: seq<nat>)
    requires 0 < |times| <= U64_MAX
    ensures var e, ds := After(interval, times), Decisions(interval, times);
            && e.suppressedTotal == SumSuppressed(ds) + e.suppressedSinceSummary
            && e.suppressedTotal == CountSuppressed(ds)
  {
    hide After, Decisions, CountSuppressed, Trailing, Summaries, SumSince, SumSuppressed;
    var n := |times| - 1;
    if n == 0 {
      First(interval, times[0]);
      assert times == [times[0]];
    } else {
      var e, ds := After(interval, times[..n]), Decisions(interval, times[..n]);
      SuppressedAccounts(interval, times[..n]);
      FieldsMean(interval, times[..n]);
      CountAtMost(ds);
      OneMore(interval, times);
      CountsOfMore(ds, Fail(interval, e, times[n]).decision);
    }
  }

  lemma {:induction false} CountAtMost(ds: seq<Decision>)
    ensures CountSuppressed(ds) <= |ds|
  {
    if ds != [] { CountAtMost(ds[..|ds| - 1]); }
  }

  // With k summaries the last one is k intervals after the start, whatever the clock does in between.
  lemma {:induction false} SummariesSpaced(interval: nat, times: seq<nat>)
    requires times != [] && interval > 0
    ensures var e, k := After(interval, times), Summaries(Decisions(interval, times));
            e.lastSummaryAt.Some? && e.lastSummaryAt.value >= times[0] + k * interval
  {
    hide After, Decisions, CountSuppressed, Trailing, Summaries, SumSince, SumSuppressed;
    var n := |times| - 1;
    if n == 0 {
      First(interval, times[0]);
      assert times == [times[0]];
    } else {
      var e, ds := After(interval, times[..n]), Decisions(interval, times[..n]);
      SummariesSpaced(interval, times[..n]);
      FieldsMean(interval, times[..n]);
      OneMore(interval, times);
      CountsOfMore(ds, Fail(interval, e, times[n]).decision);
      assert (Summaries(ds) + 1) * interval == Summaries(ds) * interval + interval;
    }
  }

  // Two reports are never closer than the interval.
  lemma {:induction false} ReportsApart(interval: nat, times: seq<nat>, i: nat, j: nat)
    requires interval > 0 && i < j < |times|
    requires Reported(Decisions(interval, times)[i]) && Reported(Decisions(interval, times)[j])
    ensures times[j] >= times[i] + interval
    decreases j
  {
    hide After, Decisions;
    var t := Before(interval, times, j);
    if i < j - 1 - t { ReportsApart(interval, times, i, j - 1 - t); }
  }

  // ---------------------------------------------------------------- in place

  class FailureEpisode {
    const interval: nat
    var startedAt: Option<nat>
    var lastSummaryAt: Option<nat>
    var total: nat
    var suppressedTotal: nat
    var suppressedSinceSummary: nat
    ghost var times: seq<nat>  // the failures of the episode so far

    ghost function Now(): State
      reads this
    {
      State(startedAt, lastSummaryAt, total, suppressedTotal, suppressedSinceSummary)
    }

    ghost predicate Valid()
      reads this
    {
      Now() == After(interval, times)
    }

    constructor (summaryInterval: nat)
      requires summaryInterval > 0
      ensures Valid() && times == [] && interval == summaryInterval
    {
      interval, startedAt, lastSummaryAt := summaryInterval, None, None;
      total, suppressedTotal, suppressedSinceSummary, times := 0, 0, 0, [];
    }

    method RecordFailure(now: nat) returns (decision: Decision)
      requires Valid()
      modifies this
      ensures Valid() && times == old(times) + [now]
      ensures Decisions(interval, times) == old(Decisions(interval, times)) + [decision]
    {
      hide After, Decisions;
      times := times + [now];
      assert times[..|times| - 1] == old(times);
      OneMore(interval, times);
      if startedAt.None? {
        startedAt, lastSummaryAt, total := Some(now), Some(now), 1;
        return Started;
      }
      total := SaturatingAdd(total, 1);
      var last := if lastSummaryAt.Some? then lastSummaryAt.value else startedAt.value;
      if Elapsed(now, last) >= interval {
        var suppressed := suppressedSinceSummary;
        var since := SaturatingAdd(suppressed, 1);
        suppressedSinceSummary := 0;
        lastSummaryAt := Some(now);
        return Summary(total, since, suppressed, Elapsed(now, startedAt.value));
      }
      suppressedTotal := SaturatingAdd(suppressedTotal, 1);
      suppressedSinceSummary := SaturatingAdd(suppressedSinceSummary, 1);
      return Suppressed;
    }

    method RecordSuccess(now: nat) returns (decision: Decision)
      requires Valid()
      modifies this
      ensures Valid() && times == []
      ensures decision ==
              if old(times) == [] then Healthy
              else Recovered(Capped(|old(times)|), Capped(CountSuppressed(Decisions(interval, old(times)))),
                             Elapsed(now, old(times)[0]))
    {
      if times != [] { FieldsMean(interval, times); }
      if startedAt.None? { return Healthy; }
      decision := Recovered(total, suppressedTotal, Elapsed(now, startedAt.value));
      Reset();
    }

    method Reset()
      modifies this
      ensures Valid() && times == []
    {
      startedAt, lastSummaryAt := None, None;
      total, suppressedTotal, suppressedSinceSummary, times := 0, 0, 0, [];
    }

    method IsActive() returns (active: bool)
      requires Valid()
      ensures active == (times != [])
    {
      if times != [] { FieldsMean(interval, times); }
      active := startedAt.Some?;
    }
  }
}

/**
Shutting down the registered runtimes (base/src/utils/rt.rs): the time budget divided over the
stages, the gate that ends registration, and which runtimes are reported.
*/
module RuntimeShutdown {
  import opened Options
  import opened ShutdownOrder

  // ---------------------------------------------------------------- the time budget

  // Nanoseconds left after the first i stages have used `used[..i]`; an overrun leaves nothing.
  function Left(total: nat, used: seq<nat>, i: nat): nat
    requires i <= |used|
  {
    if i == 0 then total
    else if used[i - 1] < Left(total, used, i - 1) then Left(total, used, i - 1) - used[i - 1]
    else 0
  }

  // The budget of stage i of n stages that precede Main: what is left, divided by the stages that remain,
  // Main included.
  function Budget(total: nat, used: seq<nat>, n: nat, i: nat): nat
    requires i <= |used| && i <= n
  {
    Left(total, used, i) / (n - i + 1)
  }

  // ... when all |used| stages are known. For i = |used| this is Main's budget: all that is left.
  function Share(total: nat, used: seq<nat>, i: nat): nat
    requires i <= |used|
  {
    Budget(total, used, |used|, i)
  }

  lemma {:induction false} DivideAtLeast(r: nat, k: nat, b: nat)
    requires k > 0
    ensures r / k >= b <==> r >= k * b
  {
    assert r == k * (r / k) + r % k;
    if r / k >= b {
      assert k * (r / k) >= k * b;
    } else {
      assert k * (r / k + 1) <= k * b;
      assert k * (r / k + 1) == k * (r / k) + k;
    }
  }

  // What is left is what the stages have not used of the total, if anything.
  lemma {:induction false} LeftMeans(total: nat, used: seq<nat>, i: nat)
    requires i <= |used|
    ensures Left(total, used, i) == if Total(used[..i]) < total then total - Total(used[..i]) else 0
  {
    if i > 0 {
      LeftMeans(total, used, i - 1);
      assert used[..i][..i - 1] == used[..i - 1];
    }
  }

  // A stage's budget is the most that it and each stage after it, Main included, could use alike without
  // going past the total; once the total is used up it is nothing.
  lemma {:induction false} ShareMeans(total: nat, used: seq<nat>, i: nat, b: nat)
    requires i <= |used|
    ensures b <= Share(total, used, i) <==> b == 0 || Total(used[..i]) + (|used| - i + 1) * b <= total
  {
    LeftMeans(total, used, i);
    DivideAtLeast(Left(total, used, i), |used| - i + 1, b);
    MultipleAtLeast(|used| - i + 1, b);
  }

  lemma {:induction false} NextShare(r: nat, k: nat, u: nat)
    requires k >= 2
    ensures (if u < r then r - u else 0) / (k - 1) >= r / k <==> r / k == 0 || u <= r / k + r % k
  {
    var b := r / k;
    assert r == k * b + r % k;
    assert k * b == (k - 1) * b + b;
    MultipleAtLeast(k - 1, b);
    DivideAtLeast(if u < r then r - u else 0, k - 1, b);
    RestAtLeast(r, (k - 1) * b, b, r % k, u);
  }

  lemma {:induction false} RestAtLeast(r: nat, p: nat, b: nat, m: nat, u: nat)
    requires r == p + b + m && p >= b && (b == 0 ==> p == 0)
    ensures (if u < r then r - u else 0) >= p <==> b == 0 || u <= b + m
  {
  }

  // When does the next stage get no less than this one? Exactly when this stage has used no more than
  // its budget and the remainder of the division, or its budget was zero.
  lemma {:induction false} ShareKeeps(total: nat, used: seq<nat>, i: nat)
    requires i < |used|
    ensures Share(total, used, i + 1) >= Share(total, used, i) <==>
      Share(total, used, i) == 0 || used[i] <= Share(total, used, i) + Left(total, used, i) % (|used| - i + 1)
  {
    NextShare(Left(total, used, i), |used| - i + 1, used[i]);
  }

  // A stage that overruns leaves the next one less than it had.
  lemma {:induction false} BudgetCanShrink()
    ensures Share(3, [3], 1) < Share(3, [3], 0)
  {
  }

  ghost predicate WithinBudget(total: nat, used: seq<nat>) {
    forall i :: 0 <= i < |used| ==> used[i] <= Share(total, used, i)
  }

  function Total(used: seq<nat>): nat { if used == [] then 0 else Total(used[..|used| - 1]) + used[|used| - 1] }

  lemma {:induction false} MultipleAtLeast(k: nat, q: nat)
    requires k > 0
    ensures k * q >= q
    decreases k
  {
    if k > 1 {
      MultipleAtLeast(k - 1, q);
      assert k * q == (k - 1) * q + q;
    }
  }

  lemma {:induction false} QuotientBelow(r: nat, k: nat)
    requires k > 0
    ensures r / k <= r
  {
    var q := r / k;
    assert r == k * q + r % k;
    MultipleAtLeast(k, q);
  }

  lemma {:induction false} ShareBelow(total: nat, used: seq<nat>, i: nat)
    requires i <= |used|
    ensures Share(total, used, i) <= Left(total, used, i)
  {
    QuotientBelow(Left(total, used, i), |used| - i + 1);
  }

  lemma {:induction false} LeftPlusUsed(total: nat, used: seq<nat>, i: nat)
    requires i <= |used| && WithinBudget(total, used)
    ensures Left(total, used, i) + Total(used[..i]) == total
  {
    hide Share;
    if i > 0 {
      LeftPlusUsed(total, used, i - 1);
      ShareBelow(total, used, i - 1);
      assert used[..i][..i - 1] == used[..i - 1];
    }
  }

  // If every stage keeps to its budget, budgets never shrink: each is at least the first, and Main's is
  // at least any earlier one.
  lemma {:induction false} BudgetsGrow(total: nat, used: seq<nat>, i: nat, j: nat)
    requires i <= j <= |used| && WithinBudget(total, used)
    ensures Share(total, used, i) <= Share(total, used, j)
    decreases j - i
  {
    if i < j {
      StageKeeps(total, used, i);
      BudgetsGrow(total, used, i + 1, j);
    }
  }

  lemma {:induction false} StageKeeps(total: nat, used: seq<nat>, i: nat)
    requires i < |used| && used[i] <= Share(total, used, i)
    ensures Share(total, used, i) <= Share(total, used, i + 1)
  {
    hide Share;
    ShareKeeps(total, used, i);
  }

  // ... and what the stages use and what is left for Main make up the total.
  lemma {:induction false} TotalWithinBudget(total: nat, used: seq<nat>)
    requires WithinBudget(total, used)
    ensures Total(used) + Share(total, used, |used|) == total
  {
    LeftPlusUsed(total, used, |used|);
    assert used[..|used|] == used;
    assert Left(total, used, |used|) / 1 == Left(total, used, |used|);
  }

  // ---------------------------------------------------------------- the reports

  datatype Report = Report(runtime: RuntimeType, budget: nat, used: nat)

  // These reports are of the first |used| stages: of those whose runtime exists, in order, each with the
  // budget of its stage and the time it took; `at` says which stages. The other stages took no time.
  ghost predicate ReportsOf(reports: seq<Report>, at: seq<nat>, stages: seq<RuntimeType>, runtimes: set<RuntimeType>,
      total: nat, used: seq<nat>)
  {
    && |used| <= |stages| && |at| == |reports|
    && (forall k :: 0 <= k < |at| ==> at[k] < |used| && stages[at[k]] in runtimes)
    && (forall k :: 0 <= k < |at| ==>
          reports[k] == Report(stages[at[k]], Budget(total, used, |stages|, at[k]), used[at[k]]))
    && (forall j, k :: 0 <= j < k < |at| ==> at[j] < at[k])
    && (forall i :: 0 <= i < |used| && stages[i] in runtimes ==> exists k :: 0 <= k < |at| && at[k] == i)
    && (forall i :: 0 <= i < |used| && stages[i] !in runtimes ==> used[i] == 0)
  }

  function RuntimesOf(reports: seq<Report>): seq<RuntimeType> {
    if reports == [] then [] else RuntimesOf(reports[..|reports| - 1]) + [reports[|reports| - 1].runtime]
  }

  lemma {:induction false} RuntimesOfAt(reports: seq<Report>)
    ensures |RuntimesOf(reports)| == |reports|
    ensures forall k :: 0 <= k < |reports| ==> RuntimesOf(reports)[k] == reports[k].runtime
  {
    if reports != [] {
      RuntimesOfAt(reports[..|reports| - 1]);
    }
  }

  lemma {:induction false} LeftFrame(total: nat, used: seq<nat>, took: nat, i: nat)
    requires i <= |used|
    ensures Left(total, used + [took], i) == Left(total, used, i)
  {
    if i > 0 {
      LeftFrame(total, used, took, i - 1);
    }
  }

  lemma {:induction false} BudgetFrame(total: nat, used: seq<nat>, took: nat, n: nat, i: nat)
    requires i <= |used| && i <= n
    ensures Budget(total, used + [took], n, i) == Budget(total, used, n, i)
  {
    LeftFrame(total, used, took, i);
  }

  lemma {:induction false} LeftNext(total: nat, used: seq<nat>, took: nat)
    ensures var left := Left(total, used, |used|);
      Left(total, used + [took], |used| + 1) == if took < left then left - took else 0
  {
    LeftFrame(total, used, took, |used|);
  }

  // One more stage, whose runtime does not exist.
  lemma {:induction false} SkippedReport(reports: seq<Report>, at: seq<nat>, stages: seq<RuntimeType>,
      runtimes: set<RuntimeType>, total: nat, used: seq<nat>)
    requires ReportsOf(reports, at, stages, runtimes, total, used) && |used| < |stages|
    requires stages[|used|] !in runtimes
    ensures ReportsOf(reports, at, stages, runtimes, total, used + [0])
  {
    hide Budget;
    forall k | 0 <= k < |at|
      ensures Budget(total, used + [0], |stages|, at[k]) == Budget(total, used, |stages|, at[k])
    {
      BudgetFrame(total, used, 0, |stages|, at[k]);
    }
  }

  // One more stage, whose runtime exists.
  lemma {:induction false} NextReport(reports: seq<Report>, at: seq<nat>, stages: seq<RuntimeType>,
      runtimes: set<RuntimeType>, total: nat, used: seq<nat>, took: nat)
    requires ReportsOf(reports, at, stages, runtimes, total, used) && |used| < |stages|
    requires stages[|used|] in runtimes
    ensures var i := |used|;
      ReportsOf(reports + [Report(stages[i], Budget(total, used, |stages|, i), took)], at + [i], stages, runtimes,
                total, used + [took])
  {
    hide Budget;
    var used', i, at' := used + [took], |used|, at + [|used|];
    BudgetFrame(total, used, took, |stages|, i);
    forall k | 0 <= k < |at|
      ensures Budget(total, used', |stages|, at[k]) == Budget(total, used, |stages|, at[k])
      ensures at'[k] == at[k] < i
    {
      BudgetFrame(total, used, took, |stages|, at[k]);
    }
    forall x | 0 <= x < |used'| && stages[x] in runtimes
      ensures exists k :: 0 <= k < |at'| && at'[k] == x
    {
      if x < i {
        var k :| 0 <= k < |at| && at[k] == x;
        assert at'[k] == x;
      } else {
        assert at'[|at|] == x;
      }
    }
  }

  lemma {:induction false} StageDone(reports: seq<Report>, at: seq<nat>, stages: seq<RuntimeType>,
      runtimes: set<RuntimeType>, total: nat, used: seq<nat>, took: nat)
    requires ReportsOf(reports, at, stages, runtimes, total, used) && |used| < |stages|
    requires stages[|used|] !in runtimes ==> took == 0
    ensures var i := |used|;
      var r, existed := Report(stages[i], Budget(total, used, |stages|, i), took), stages[i] in runtimes;
      ReportsOf(if existed then reports + [r] else reports, if existed then at + [i] else at, stages, runtimes,
                total, used + [took])
  {
    hide ReportsOf, Budget;
    if stages[|used|] in runtimes {
      NextReport(reports, at, stages, runtimes, total, used, took);
    } else {
      SkippedReport(reports, at, stages, runtimes, total, used);
    }
  }

  // With every reported stage in its budget, the reported budgets never decrease, each is at least an equal
  // part of the total, and none is above Main's, who gets all that has not been used.
  lemma {:induction false} ReportedBudgets(reports: seq<Report>, at: seq<nat>, stages: seq<RuntimeType>,
      runtimes: set<RuntimeType>, total: nat, used: seq<nat>)
    requires ReportsOf(reports, at, stages, runtimes, total, used) && |used| == |stages|
    requires forall k :: 0 <= k < |reports| ==> reports[k].used <= reports[k].budget
    ensures forall j, k :: 0 <= j < k < |reports| ==> reports[j].budget <= reports[k].budget
    ensures forall k :: 0 <= k < |reports| ==>
      total / (|stages| + 1) <= reports[k].budget <= Share(total, used, |used|)
    ensures Total(used) + Share(total, used, |used|) == total
  {
    hide Budget, Left;
    forall i | 0 <= i < |used|
      ensures used[i] <= Share(total, used, i)
    {
      if stages[i] in runtimes {
        var k :| 0 <= k < |at| && at[k] == i;
        assert reports[k] == Report(stages[i], Share(total, used, i), used[i]);
      }
    }
    TotalWithinBudget(total, used);
    FirstShare(total, used);
    forall k | 0 <= k < |reports|
      ensures Share(total, used, 0) <= reports[k].budget <= Share(total, used, |used|)
    {
      BudgetsGrow(total, used, 0, at[k]);
      BudgetsGrow(total, used, at[k], |used|);
    }
    forall j, k | 0 <= j < k < |reports|
      ensures reports[j].budget <= reports[k].budget
    {
      BudgetsGrow(total, used, at[j], at[k]);
    }
  }

  lemma {:induction false} FirstShare(total: nat, used: seq<nat>)
    ensures Share(total, used, 0) == total / (|used| + 1)
  {
  }

  // ---------------------------------------------------------------- the registry

  // A runtime that was stopped: the time it was given, how much of it the wait for its tasks took, and the
  // time it was then given for its own shutdown. Main is only waited for.
  datatype Stop = Stopped(runtime: RuntimeType, budget: nat, waited: nat, rest: nat) | MainWaited(budget: nat)

  // Each stop is reported with the budget it was given.
  ghost predicate StopsOf(stops: seq<Stop>, reports: seq<Report>) {
    |stops| == |reports| && forall k :: 0 <= k < |stops| ==> StopOf(stops[k], reports[k])
  }

  // The stops since `before` are those reported.
  ghost predicate Since(before: seq<Stop>, stops: seq<Stop>, reports: seq<Report>) {
    |before| <= |stops| && stops[..|before|] == before && StopsOf(stops[|before|..], reports)
  }

  ghost predicate StopOf(stop: Stop, report: Report) {
    && stop.budget == report.budget
    && match stop
       case MainWaited(_) => report.runtime == Main
       case Stopped(runtime, budget, waited, rest) =>
         && report.runtime == runtime != Main
         && waited <= report.used && rest == if waited < budget then budget - waited else 0
  }

  class RuntimeRegistry {
    var runtimes: set<RuntimeType>
    var shuttingDown: bool
    ghost var reported: seq<RuntimeType>  // runtimes other than Main ever reported, oldest first
    ghost var stops: seq<Stop>            // every stop, oldest first

    // A reported runtime is gone for good, so none is reported twice.
    ghost predicate Valid()
      reads this
    {
      && NoDup(reported) && Main !in reported
      && (reported != [] ==> shuttingDown)
      && forall t <- reported :: t !in runtimes
    }

    constructor ()
      ensures Valid() && runtimes == {Main} && !shuttingDown && reported == [] && stops == []
    {
      runtimes, shuttingDown, reported, stops := {Main}, false, [], [];
    }

    // Refused once a shutdown has begun, and for a runtime that exists.
    method Register(t: RuntimeType) returns (ok: bool)
      requires Valid()
      modifies this`runtimes
      ensures Valid() && ok == (!shuttingDown && t !in old(runtimes))
      ensures runtimes == if ok then old(runtimes) + {t} else old(runtimes)
    {
      if shuttingDown || t in runtimes {
        return false;
      }
      runtimes := runtimes + {t};
      ok := true;
    }

    // Waits for the tasks of a runtime and shuts it down; how long each takes is up to its tasks.
    method StopRuntime(t: RuntimeType, budget: nat) returns (took: nat)
      requires t != Main
      modifies this`stops
      ensures |stops| == |old(stops)| + 1 && stops[..|old(stops)|] == old(stops)
      ensures StopOf(stops[|old(stops)|], Report(t, budget, took))
    {
      var waited: nat :| waited >= 0;
      var rest := if waited < budget then budget - waited else 0;
      ghost var stop := Stopped(t, budget, waited, rest);
      stops := stops + [stop];
      var stopping: nat :| stopping >= 0;
      took := waited + stopping;
    }

    method WaitMain(budget: nat) returns (took: nat)
      modifies this`stops
      ensures stops == old(stops) + [MainWaited(budget)]
    {
      stops := stops + [MainWaited(budget)];
      took :| took >= 0;
    }

    // `shutdown_runtime`: a runtime that does not exist is skipped and takes no time.
    method StopStage(t: RuntimeType, budget: nat) returns (took: nat)
      requires Valid() && t != Main && shuttingDown && (t in runtimes ==> t !in reported)
      modifies this`runtimes, this`reported, this`stops
      ensures Valid() && runtimes == old(runtimes) - {t}
      ensures reported == old(reported) + if t in old(runtimes) then [t] else []
      ensures t !in old(runtimes) ==> took == 0 && stops == old(stops)
      ensures t in old(runtimes) ==>
        && |stops| == |old(stops)| + 1 && stops[..|old(stops)|] == old(stops)
        && StopOf(stops[|old(stops)|], Report(t, budget, took))
    {
      took := 0;
      if t in runtimes {
        took := StopRuntime(t, budget);
        runtimes := runtimes - {t};
        reported := reported + [t];
      }
    }

    // Shuts down every registered runtime but Main, each once, in the order of the stage list, and Main
    // last. `listed` is the registry as its map iterates it.
    method Shutdown(orders: seq<RuntimeType>, listed: seq<RuntimeType>, total: nat)
      returns (reports: seq<Report>, ghost stages: seq<RuntimeType>, ghost at: seq<nat>, ghost used: seq<nat>,
               ghost mainUsed: nat)
      requires Valid() && NoDup(listed) && forall t :: t in listed <==> t in runtimes
      modifies this
      ensures Valid() && shuttingDown
      ensures Stages(orders, old(runtimes), stages) && |used| == |stages| && |at| <= |reports|
      ensures runtimes == old(runtimes) * {Main}
      ensures reported == old(reported) + RuntimesOf(reports[..|at|])
      ensures ReportsOf(reports[..|at|], at, stages, old(runtimes), total, used)
      ensures reports[|at|..] ==
        if Main in old(runtimes) then [Report(Main, Share(total, used, |used|), mainUsed)] else []
      ensures Since(old(stops), stops, reports)
    {
      hide Stages, NoDup, Share, Left, ReportsOf, RuntimesOf, Since;
      shuttingDown := true;
      ghost var before := runtimes;
      assert Elems(listed) == runtimes;
      var ordered := StageList(orders, listed);
      assert (set t | t in listed) == Elems(listed);
      stages := ordered;
      StagesCover(orders, before, stages);
      assert before - Elems(stages) == before * {Main};
      var left;
      reports, left, at, used := RunStages(ordered, total);
      MainShare(total, used);
      ghost var nonMain, stops1 := reports, stops;
      mainUsed := 0;
      if Main in runtimes {
        var took := WaitMain(left);
        reports := reports + [Report(Main, left, took)];
        mainUsed := took;
        assert StopOf(MainWaited(left), Report(Main, left, took));
        NextStop(old(stops), stops1, stops, nonMain, Report(Main, left, took));
      }
      AtEach(nonMain, at, stages, before, total, used);
      assert reports[..|at|] == nonMain;
    }

    // The loop over the stages; returns the reports, what time is left, and the time each stage took.
    method RunStages(ordered: seq<RuntimeType>, total: nat)
      returns (reports: seq<Report>, left: nat, ghost at: seq<nat>, ghost used: seq<nat>)
      requires Valid() && shuttingDown && NoDup(ordered) && Main !in ordered
      modifies this`runtimes, this`reported, this`stops
      ensures Valid() && |used| == |ordered| && left == Left(total, used, |used|)
      ensures runtimes == old(runtimes) - Elems(ordered)
      ensures ReportsOf(reports, at, ordered, old(runtimes), total, used)
      ensures reported == old(reported) + RuntimesOf(reports)
      ensures Since(old(stops), stops, reports)
    {
      hide NoDup, Elems, ReportsOf, RuntimesOf, StopOf, Since, Left;
      used, at, reports, left := [], [], [], total;
      NoneYet(ordered, old(runtimes), total);
      NoStops(stops);
      for index := 0 to |ordered|
        invariant Valid() && shuttingDown && |used| == index
        invariant runtimes == old(runtimes) - Elems(ordered[..index])
        invariant ReportsOf(reports, at, ordered, old(runtimes), total, used)
        invariant reported == old(reported) + RuntimesOf(reports)
        invariant left == Left(total, used, index)
        invariant Since(old(stops), stops, reports)
      {
        var t := ordered[index];
        StageStep(ordered, index);
        var budget := left / (|ordered| - index + 1);
        assert budget == Budget(total, used, |ordered|, index);
        var existed := t in runtimes;
        ghost var stops1, reports1 := stops, reports;
        var took := StopStage(t, budget);
        if existed {
          reports := reports + [Report(t, budget, took)];
        }
        StageDone(reports1, at, ordered, old(runtimes), total, used, took);
        StopDone(old(stops), stops1, stops, reports1, Report(t, budget, took), existed);
        at := if existed then at + [index] else at;
        left := if took < left then left - took else 0;
        LeftNext(total, used, took);
        used := used + [took];
      }
      assert ordered[..|ordered|] == ordered;
    }
  }

  ghost function Elems(s: seq<RuntimeType>): (e: set<RuntimeType>)
    ensures forall t :: t in e <==> t in s
  {
    set t | t in s
  }

  lemma {:induction false} MainShare(total: nat, used: seq<nat>)
    ensures Share(total, used, |used|) == Left(total, used, |used|)
  {
  }

  lemma {:induction false} AtEach(reports: seq<Report>, at: seq<nat>, stages: seq<RuntimeType>,
      runtimes: set<RuntimeType>, total: nat, used: seq<nat>)
    requires ReportsOf(reports, at, stages, runtimes, total, used)
    ensures |at| == |reports|
  {
  }

  lemma {:induction false} NoneYet(stages: seq<RuntimeType>, runtimes: set<RuntimeType>, total: nat)
    ensures Elems([]) == {} && RuntimesOf([]) == [] && ReportsOf([], [], stages, runtimes, total, [])
    ensures Left(total, [], 0) == total
  {
  }

  lemma {:induction false} NoStops(stops: seq<Stop>)
    ensures Since(stops, stops, [])
  {
    assert stops[|stops|..] == [];
  }

  // The stops and reports after one more stage.
  lemma {:induction false} StopDone(before: seq<Stop>, stops: seq<Stop>, stops': seq<Stop>, reports: seq<Report>,
      r: Report, existed: bool)
    requires Since(before, stops, reports)
    requires existed ==> |stops'| == |stops| + 1 && stops'[..|stops|] == stops && StopOf(stops'[|stops|], r)
    requires !existed ==> stops' == stops
    ensures Since(before, stops', if existed then reports + [r] else reports)
    ensures RuntimesOf(reports + [r]) == RuntimesOf(reports) + [r.runtime]
  {
    hide Since, StopOf;
    assert (reports + [r])[..|reports|] == reports;
    if existed { NextStop(before, stops, stops', reports, r); }
  }

  // One more stop since `before`.
  lemma {:induction false} NextStop(before: seq<Stop>, stops: seq<Stop>, stops': seq<Stop>, reports: seq<Report>,
      report: Report)
    requires Since(before, stops, reports)
    requires |stops'| == |stops| + 1 && stops'[..|stops|] == stops && StopOf(stops'[|stops|], report)
    ensures Since(before, stops', reports + [report])
  {
    hide StopOf;
    assert stops' == stops + [stops'[|stops|]];
    assert stops'[..|before|] == stops[..|before|];
    assert stops'[|before|..] == stops[|before|..] + [stops'[|stops|]];
  }

  lemma {:induction false} StageStep(stages: seq<RuntimeType>, i: nat)
    requires NoDup(stages) && i < |stages|
    ensures Elems(stages[..i + 1]) == Elems(stages[..i]) + {stages[i]} && stages[i] !in Elems(stages[..i])
    ensures stages[i] in stages
  {
    assert stages[..i + 1] == stages[..i] + [stages[i]];
  }
}

/**
What the reconnect supervisor does in every run (base_rpc/src/stream_supervisor.rs): when it calls the
connector, what it announces and in which order, and which reports reach the observers.
*/
module SupervisorRuns {
  import opened Options
  import opened Supervisor

  // ---------------------------------------------------------------- when the connector is called

  // Past its check for cancellation the task calls the connector, with the next generation, if and only if
  // there is no limit or the attempt is within it; otherwise it is about to stop.
  lemma {:induction false} StartConnects(max: Option<nat>, labels: seq<Label>, s: State)
    requires Run(Init(max), labels, s) && s.pc.Going?
    ensures var s', k := Apply(s, Start), |s.connects| + 1;
      if max.None? || Min(k, U32_MAX) <= max.value then
        && s'.pc.Running? && s'.connects == s.connects + [Min(k, U64_MAX)]
        && (s.live ==> s'.value == Connecting(Min(k, U64_MAX), Min(k, U32_MAX)))
      else
        s'.pc.Stopping? && s'.connects == s.connects && s'.published == s.published && s'.value == s.value
  {
    hide Run, Numbered, TokensOk, Starts;
    InitInv(max);
    RunInv(Init(max), labels, s);
  }

  // It comes there from the top of its loop exactly when it is not cancelled, and to the top again after
  // each connection unless it is cancelled before its disconnection is announced or while it sleeps.
  lemma {:induction false} GoesRound(s: State, l: Label)
    requires Enabled(s, l)
    ensures s.pc.Top? && Apply(s, l).pc != s.pc ==> Apply(s, l).pc == if s.cancelled then Stopping else Going
    ensures s.pc.Ended? && Apply(s, l).pc != s.pc ==>
      Apply(s, l).pc == if s.cancelled then Stopping else Reporting(s.pc.reason)
    ensures s.pc.Reporting? && Apply(s, l).pc != s.pc ==> Apply(s, l).pc == Sleeping
    ensures s.pc.Sleeping? && Apply(s, l).pc != s.pc ==>
      if l == Wake then Apply(s, l).pc == Top else s.cancelled && Apply(s, l).pc == Stopping
    ensures s.pc.Stopping? && Apply(s, l).pc != s.pc ==> Apply(s, l).pc == Done
    ensures s.cancelled ==> Apply(s, l).cancelled
    ensures !s.cancelled && Apply(s, l).cancelled ==> l == Cancel
  {
  }

  // ---------------------------------------------------------------- what is announced

  // How the connections ended, in order.
  function Reasons(labels: seq<Label>): seq<string> {
    if labels == [] then []
    else (if labels[0].ConnectEnds? then [labels[0].reason] else []) + Reasons(labels[1..])
  }

  function Started(k: nat): ConnectionState { Connecting(Min(k, U64_MAX), Min(k, U32_MAX)) }

  // Attempts alternate with the ends of their connections, each of the same generation and with the reason
  // for which that connection ended.
  ghost predicate Alternates(published: seq<ConnectionState>, reasons: seq<string>) {
    && |published| <= 2 * |reasons| + 1
    && (forall k :: 0 <= 2 * k < |published| ==> published[2 * k] == Started(k + 1))
    && (forall k :: 0 <= 2 * k + 1 < |published| ==>
          published[2 * k + 1] == Disconnected(Min(k + 1, U64_MAX), reasons[k]))
  }

  // How far the task has come.
  ghost predicate Come(s: State, reasons: seq<string>, announced: nat) {
    var n := |s.connects|;
    match s.pc
    case Running => n == |reasons| + 1 && announced == 2 * n - 1
    case Ended(reason) => n == |reasons| > 0 && announced == 2 * n - 1 && reason == reasons[n - 1]
    case Reporting(reason) => n == |reasons| > 0 && announced == 2 * n - 1 && reason == reasons[n - 1]
    case Stopping => n == |reasons| && (announced == 2 * n || (n > 0 && announced == 2 * n - 1))
    case Done => n == |reasons| && (announced == 2 * n || (n > 0 && announced == 2 * n - 1))
    case _ => n == |reasons| && announced == 2 * n
  }

  ghost predicate Story(s: State, reasons: seq<string>) {
    var n := if s.pc.Done? then |s.published| - 1 else |s.published|;
    && n >= 0 && Alternates(s.published[..n], reasons) && Come(s, reasons, n)
    && (s.pc.Done? ==> s.published[n] == Stopped)
    && s.generation == Min(|s.connects|, U64_MAX)
    && (!s.pc.Stopping? && !s.pc.Done? ==> s.attempt == Min(|s.connects|, U32_MAX))
  }

  lemma {:induction false} AnnounceStart(published: seq<ConnectionState>, reasons: seq<string>)
    requires Alternates(published, reasons) && |published| == 2 * |reasons|
    ensures Alternates(published + [Started(|reasons| + 1)], reasons)
  {
    var p := published + [Started(|reasons| + 1)];
    forall k | 0 <= 2 * k < |p|
      ensures p[2 * k] == Started(k + 1)
    {
      assert 2 * k < |published| ==> published[2 * k] == Started(k + 1);
      assert 2 * k >= |published| ==> k == |reasons|;
    }
    forall k | 0 <= 2 * k + 1 < |p|
      ensures p[2 * k + 1] == Disconnected(Min(k + 1, U64_MAX), reasons[k])
    {
      assert 2 * k + 1 < |published|;
    }
  }

  lemma {:induction false} AnnounceEnd(published: seq<ConnectionState>, reasons: seq<string>)
    requires Alternates(published, reasons) && |published| == 2 * |reasons| - 1
    ensures Alternates(published + [Disconnected(Min(|reasons|, U64_MAX), reasons[|reasons| - 1])], reasons)
  {
    var p := published + [Disconnected(Min(|reasons|, U64_MAX), reasons[|reasons| - 1])];
    forall k | 0 <= 2 * k < |p|
      ensures p[2 * k] == Started(k + 1)
    {
      assert 2 * k < |published|;
    }
    forall k | 0 <= 2 * k + 1 < |p|
      ensures p[2 * k + 1] == Disconnected(Min(k + 1, U64_MAX), reasons[k])
    {
      assert 2 * k + 1 >= |published| ==> k == |reasons| - 1;
    }
  }

  lemma {:induction false} MoreReasons(published: seq<ConnectionState>, reasons: seq<string>, reason: string)
    requires Alternates(published, reasons) && |published| <= 2 * |reasons| + 1
    ensures Alternates(published, reasons + [reason])
  {
    forall k | 0 <= 2 * k + 1 < |published|
      ensures published[2 * k + 1] == Disconnected(Min(k + 1, U64_MAX), (reasons + [reason])[k])
    {
      assert k < |reasons|;
    }
  }

  // The steps that announce nothing and end no connection.
  lemma {:induction false} QuietStory(s: State, l: Label, reasons: seq<string>)
    requires Enabled(s, l) && Story(s, reasons) && Apply(s, l).live
    requires !l.Start? && !l.ConnectEnds? && !l.Report? && !l.Stop?
    ensures s.live && Story(Apply(s, l), reasons)
  {
    hide Alternates;
  }

  lemma {:induction false} StartStory(s: State, reasons: seq<string>)
    requires s.pc.Going? && Story(s, reasons) && s.live
    ensures Story(ApplyStart(s), reasons)
  {
    hide Alternates;
    var s' := ApplyStart(s);
    assert s.published[..|s.published|] == s.published && s'.published[..|s'.published|] == s'.published;
    AnnounceStart(s.published, reasons);
  }

  lemma {:induction false} EndStory(s: State, l: Label, reasons: seq<string>)
    requires Enabled(s, l) && Story(s, reasons) && Apply(s, l).live
    requires l.Report? || l.Stop?
    ensures s.live && Story(Apply(s, l), reasons)
  {
    hide Alternates;
    var s' := Apply(s, l);
    assert s.published[..|s.published|] == s.published && s'.published[..|s'.published|] == s'.published;
    if l.Report? {
      AnnounceEnd(s.published, reasons);
    } else {
      assert s'.published[..|s'.published| - 1] == s.published;
    }
  }

  lemma {:induction false} StepStory(s: State, l: Label, reasons: seq<string>)
    requires Enabled(s, l) && Story(s, reasons) && Apply(s, l).live
    ensures s.live && Story(Apply(s, l), reasons + Reasons([l]))
  {
    assert [l][1..] == [];
    if l.ConnectEnds? {
      hide Alternates;
      assert s.published[..|s.published|] == s.published;
      MoreReasons(s.published, reasons, l.reason);
    } else {
      hide Story;
      assert reasons + Reasons([l]) == reasons;
      if l.Start? {
        StartStory(s, reasons);
      } else if l.Report? || l.Stop? {
        EndStory(s, l, reasons);
      } else {
        QuietStory(s, l, reasons);
      }
    }
  }

  lemma {:induction false} RunStory(s: State, labels: seq<Label>, s': State, reasons: seq<string>)
    requires Run(s, labels, s') && Story(s, reasons) && s'.live
    ensures Story(s', reasons + Reasons(labels)) && s.live
    decreases |labels|
  {
    hide Enabled, Apply, Story;
    if labels == [] {
      assert reasons + [] == reasons;
    } else {
      var next := Apply(s, labels[0]);
      StaysLive(next, labels[1..], s');
      StepStory(s, labels[0], reasons);
      RunStory(next, labels[1..], s', reasons + Reasons([labels[0]]));
      assert [labels[0]][1..] == [];
      assert reasons + Reasons([labels[0]]) + Reasons(labels[1..]) == reasons + Reasons(labels);
    }
  }

  lemma {:induction false} StaysLive(s: State, labels: seq<Label>, s': State)
    requires Run(s, labels, s') && s'.live
    ensures s.live
    decreases |labels|
  {
    if labels != [] {
      StaysLive(Apply(s, labels[0]), labels[1..], s');
    }
  }

  // In every run with observers: attempt k is announced as generation k, then the end of its connection with
  // the same generation and with the reason for which it ended, and so on; the stop comes last. An end
  // goes unannounced only before the stop.
  lemma {:induction false} AnnouncedInTurn(max: Option<nat>, labels: seq<Label>, s: State)
    requires Run(Init(max), labels, s) && s.live
    ensures var n := if s.pc.Done? then |s.published| - 1 else |s.published|;
      && n >= 0 && Alternates(s.published[..n], Reasons(labels))
      && (s.pc.Done? ==> s.published[n] == Stopped)
      && n <= 2 * |s.connects| <= n + 1
      && (n < 2 * |s.connects| ==>
            s.pc.Running? || s.pc.Ended? || s.pc.Reporting? || s.pc.Stopping? || s.pc.Done?)
  {
    hide Run, Alternates;
    StoryBegins(max);
    RunStory(Init(max), labels, s, []);
    assert [] + Reasons(labels) == Reasons(labels);
  }

  lemma {:induction false} StoryBegins(max: Option<nat>)
    ensures Story(Init(max), [])
  {
  }

  // ---------------------------------------------------------------- the rounds of the loop

  predicate Undisturbed(round: Round) { !round.cancelBefore && !round.cancelDuring && !round.cancelInSleep }

  predicate Allowed(max: Option<nat>, attempt: nat) { max.None? || attempt <= max.value }

  // What p, the announcements from round i on, says of that round, which is attempt g.
  ghost predicate Tells(p: seq<ConnectionState>, max: Option<nat>, round: Round, g: nat) {
    if round.cancelBefore || !Allowed(max, g) then p == [Stopped]
    else
      && |p| >= 2 && p[0] == Connecting(g, g)
      && (round.cancelDuring ==> p[1..] == [Stopped])
      && (!round.cancelDuring ==> p[1] == Disconnected(g, round.reason))
      && (!round.cancelDuring && round.cancelInSleep ==> p[2..] == [Stopped])
  }

  // If no cancellation came in the first i rounds and the limit allows them, each of them announced two
  // states, and the announcements go on with those of round i; after the last round there are no more.
  lemma {:induction false} RoundByRound(max: Option<nat>, rounds: seq<Round>, i: nat)
    requires i <= |rounds| < U32_MAX && (i > 0 ==> Allowed(max, i))
    requires forall j :: 0 <= j < i ==> Undisturbed(rounds[j])
    ensures var p := Announced(max, rounds, 0);
      && |p| >= 2 * i
      && (if i == |rounds| then |p| == 2 * i else Tells(p[2 * i..], max, rounds[i], i + 1))
  {
    RoundFrom(max, rounds, 0, i);
  }

  lemma {:induction false} RoundFrom(max: Option<nat>, rounds: seq<Round>, n: nat, i: nat)
    requires i <= |rounds| && n + |rounds| < U32_MAX && (i > 0 ==> Allowed(max, n + i))
    requires forall j :: 0 <= j < i ==> Undisturbed(rounds[j])
    ensures var p := Announced(max, rounds, n);
      && |p| >= 2 * i
      && (if i == |rounds| then |p| == 2 * i else Tells(p[2 * i..], max, rounds[i], n + i + 1))
    decreases |rounds|
  {
    if i > 0 {
      hide Announced, Tells, Started;
      assert Undisturbed(rounds[0]);
      RoundFrom(max, rounds[1..], n + 1, i - 1);
      FirstTurn(max, rounds, n);
      TwoMore(Started(n + 1), Disconnected(n + 1, rounds[0].reason), Announced(max, rounds[1..], n + 1), i);
    } else if rounds != [] {
      ThisTurn(max, rounds, n);
    }
  }

  lemma {:induction false} TwoMore(a: ConnectionState, b: ConnectionState, q: seq<ConnectionState>, i: nat)
    requires i > 0 && |q| >= 2 * (i - 1)
    ensures |[a, b] + q| == |q| + 2 && ([a, b] + q)[2 * i..] == q[2 * (i - 1)..]
  {
  }

  lemma {:induction false} ThisTurn(max: Option<nat>, rounds: seq<Round>, n: nat)
    requires rounds != [] && n + 1 < U32_MAX
    ensures Tells(Announced(max, rounds, n)[0..], max, rounds[0], n + 1)
  {
    assert Announced(max, rounds, n)[0..] == Announced(max, rounds, n);
  }

  lemma {:induction false} FirstTurn(max: Option<nat>, rounds: seq<Round>, n: nat)
    requires rounds != [] && n + 1 < U32_MAX && Undisturbed(rounds[0]) && Allowed(max, n + 1)
    ensures Announced(max, rounds, n) ==
      [Started(n + 1), Disconnected(n + 1, rounds[0].reason)] + Announced(max, rounds[1..], n + 1)
  {
  }

  // ---------------------------------------------------------------- reports

  // A report that nothing overtakes, in a run in which none was overtaken, makes observers see its
  // generation connected if and only if that generation is the one announced last; otherwise they see what
  // they saw.
  lemma {:induction false} ReportReaches(max: Option<nat>, labels: seq<Label>, s: State, c: nat, g: nat)
    requires Run(Init(max), labels, s) && s.generation < U64_MAX && NeverStraddles(Init(max), labels)
    requires s.live && c !in s.calls && 1 <= g <= s.generation
    ensures var s1 := Apply(s, ReportCheck(c, g));
      if Last(s).Connecting? && Last(s).generation == g then
        c in s1.calls && Apply(s1, ReportSend(c)).value == Connected(g)
      else s1 == s
  {
    hide Run;
    GenerationGrows(Init(max), labels, s);
    FaithfulFrom(Init(max), labels, s);
  }
}

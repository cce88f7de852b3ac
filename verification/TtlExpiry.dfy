/**
When the TTL cache (base/src/cache/mod.rs) expires a value before its time: before its time to live has
passed since the last call that inserted or refreshed it. What the purge task has not read yet decides it.
*/
module TtlExpiry {
  import opened Options
  import opened TtlCache
  import opened TtlRuns

  // A command of a call that asks for the time to live of `key` to start.
  predicate IsCall(cmd: Command, key: string) { cmd.key == key && !cmd.RemoveCmd? }

  function LastCall(cmds: seq<Command>, key: string): (r: Option<Command>)
    ensures r.Some? ==> r.value in cmds && IsCall(r.value, key)
    ensures r.None? ==> forall c <- cmds :: !IsCall(c, key)
  {
    if cmds == [] then None
    else
      var n := |cmds| - 1;
      assert cmds == cmds[..n] + [cmds[n]];
      if IsCall(cmds[n], key) then Some(cmds[n]) else LastCall(cmds[..n], key)
  }

  lemma {:induction false} LastCallHead(cmds: seq<Command>, key: string)
    requires cmds != []
    ensures LastCall(cmds, key) ==
            if LastCall(cmds[1..], key).Some? then LastCall(cmds[1..], key)
            else if IsCall(cmds[0], key) then Some(cmds[0]) else None
  {
    var n := |cmds| - 1;
    if n == 0 {
      assert LastCall(cmds[..0], key) == None;
    } else {
      LastCallHead(cmds[..n], key);
      assert cmds[..n][1..] == cmds[1..][..n - 1];
    }
  }

  lemma {:induction false} LastCallMore(cmds: seq<Command>, more: seq<Command>, key: string)
    requires |more| <= 1
    ensures LastCall(cmds + more, key) ==
            if more != [] && IsCall(more[0], key) then Some(more[0]) else LastCall(cmds, key)
  {
    if more == [] { assert cmds + more == cmds; } else { assert (cmds + more)[..|cmds|] == cmds; }
  }

  // ---------------------------------------------------------------- calls and their times

  ghost predicate AskedBefore(s: State) {
    && (forall k <- s.values :: s.values[k].id in s.askedAt)
    && (forall id <- s.askedAt :: id < s.nextId && s.askedAt[id] <= s.now)
  }

  // Pending commands are in the order of their calls.
  ghost predicate InOrder(cmds: seq<Command>, now: nat) {
    && (forall i :: 0 <= i < |cmds| && !cmds[i].RemoveCmd? ==> cmds[i].at <= now)
    && (forall i, j :: 0 <= i < j < |cmds| && !cmds[i].RemoveCmd? && !cmds[j].RemoveCmd? ==> cmds[i].at <= cmds[j].at)
  }

  // The last pending call for a mapped key is that of its value; with none pending, the last one has been
  // handled.
  ghost predicate AskedAt(s: State, k: string)
    requires k in s.values
  {
    var id, last := s.values[k].id, LastCall(Pending(s), k);
    && id in s.askedAt
    && (if last.Some? then last.value.id == id && last.value.at == s.askedAt[id]
        else id in s.armedAt && s.askedAt[id] <= s.armedAt[id])
  }

  ghost predicate Asked(s: State) {
    AskedBefore(s) && InOrder(Pending(s), s.now) && forall k <- s.values :: AskedAt(s, k)
  }

  lemma {:induction false} StepAskedBefore(s: State, l: Label)
    requires Enabled(s, l) && AskedBefore(s)
    ensures AskedBefore(Apply(s, l)) && s.now <= Apply(s, l).now
  {
    hide Handle;
  }

  lemma {:induction false} StepInOrder(s: State, l: Label)
    requires Enabled(s, l) && InOrder(Pending(s), s.now)
    ensures InOrder(Pending(Apply(s, l)), Apply(s, l).now)
  {
    hide Handle, Pending;
    var p, p' := Pending(s), Pending(Apply(s, l));
    StepPending(s, l);
    assert l.Receive? ==> forall i :: 0 <= i < |p'| ==> p'[i] == p[i + 1];
    assert !l.Receive? ==> forall i :: 0 <= i < |p| ==> p'[i] == p[i];
  }

  // What a step does to the last pending call for a key.
  lemma {:induction false} StepLastCall(s: State, l: Label, k: string)
    requires Enabled(s, l)
    ensures var last, last' := LastCall(Pending(s), k), LastCall(Pending(Apply(s, l)), k);
            if l.Receive? then
              last == if last'.Some? then last' else if IsCall(s.channel[0], k) then Some(s.channel[0]) else None
            else last' == if Appended(s, l) != [] && IsCall(Appended(s, l)[0], k) then Some(Appended(s, l)[0]) else last
  {
    hide Handle, Pending, Apply;
    StepPending(s, l);
    if l.Receive? { LastCallHead(Pending(s), k); } else { LastCallMore(Pending(s), Appended(s, l), k); }
  }

  // What a step does to the times of an insertion.
  lemma {:induction false} StepTimes(s: State, l: Label, id: nat)
    requires Enabled(s, l)
    ensures var s' := Apply(s, l);
            && (id in s.armedAt ==> id in s'.armedAt && s'.armedAt[id] in {s.armedAt[id], s.now})
            && (l.Receive? && !s.channel[0].RemoveCmd? && s.channel[0].id == id ==>
                  id in s'.armedAt && s'.armedAt[id] == s.now)
            && (id in s.askedAt && id < s.nextId && !(exists c <- Appended(s, l) :: c.RefreshCmd? && c.id == id) ==>
                  id in s'.askedAt && s'.askedAt[id] == s.askedAt[id])
  {
    hide Handle;
  }

  lemma {:induction false} StepAskedAt(s: State, l: Label, k: string)
    requires Enabled(s, l) && Asked(s) && Ledger(s) && k in Apply(s, l).values
    ensures AskedAt(Apply(s, l), k)
  {
    hide Handle, Pending, InOrder, Ledger;
    StepValues(s, l, k);
    StepLastCall(s, l, k);
    if !(l.InsertMap? && l.key == k) {
      var id := s.values[k].id;
      assert AskedAt(s, k);
      StepTimes(s, l, id);
      if l.Refresh? && l.key in s.values && l.key != k { DifferentIds(s, l.key, k); }
    }
  }

  lemma {:induction false} DifferentIds(s: State, j: string, k: string)
    requires Ledger(s) && j in s.values && k in s.values && j != k
    ensures s.values[j].id != s.values[k].id
  {
  }

  lemma {:induction false} StepAsked(s: State, l: Label)
    requires Enabled(s, l) && Inv(s) && Asked(s)
    ensures Asked(Apply(s, l))
  {
    hide Apply, Enabled, AskedAt, InOrder, AskedBefore, Ledger;
    StepAskedBefore(s, l);
    StepInOrder(s, l);
    forall k | k in Apply(s, l).values ensures AskedAt(Apply(s, l), k) { StepAskedAt(s, l, k); }
  }

  lemma {:induction false} RunAsked(s: State, labels: seq<Label>, s': State)
    requires Inv(s) && Asked(s) && Run(s, labels, s')
    ensures Inv(s') && Asked(s')
    decreases |labels|
  {
    hide Inv, Asked, Apply, Enabled;
    if labels != [] {
      StepInv(s, labels[0]);
      StepAsked(s, labels[0]);
      RunAsked(Apply(s, labels[0]), labels[1..], s');
    }
  }

  lemma {:induction false} InitAsked()
    ensures Asked(Init)
  {
  }

  // ---------------------------------------------------------------- early expiry

  // The time to live of the value of `key`, counted from `at`, has not passed.
  predicate Within(s: State, key: string, at: nat)
    requires key in s.values
  {
    s.values[key].ttl.None? || s.now < at + s.values[key].ttl.value
  }

  // At the removal of an expired key from the map, when the value there was last inserted or refreshed.
  ghost predicate TooEarly(s: State)
    requires s.purge.Popped? && s.purge.timer.key in s.values && s.values[s.purge.timer.key].id in s.askedAt
  {
    Within(s, s.purge.timer.key, s.askedAt[s.values[s.purge.timer.key].id])
  }

  // A value expires before its time exactly when an insert or refresh command for its key is still to be
  // read, and was sent less than its time to live ago.
  lemma {:induction false} EarlyExactly(labels: seq<Label>, s: State)
    requires Run(Init, labels, s) && s.purge.Popped? && s.purge.timer.key in s.values
    ensures s.values[s.purge.timer.key].id in s.askedAt
    ensures TooEarly(s) <==>
            exists c <- Pending(s) :: IsCall(c, s.purge.timer.key) && Within(s, s.purge.timer.key, c.at)
  {
    hide Inv;
    InitInv();
    InitAsked();
    RunAsked(Init, labels, s);
    var k, p := s.purge.timer.key, Pending(s);
    assert AskedAt(s, k);
    if LastCall(p, k).Some? {
      LastIsLatest(p, k, s.now);
    } else {
      HeardInTime(labels, s);
    }
  }

  lemma {:induction false} LastIsLatest(cmds: seq<Command>, key: string, now: nat)
    requires InOrder(cmds, now) && LastCall(cmds, key).Some?
    ensures forall c <- cmds :: IsCall(c, key) ==> c.at <= LastCall(cmds, key).value.at
  {
    var n := |cmds| - 1;
    forall c | c in cmds && IsCall(c, key) ensures c.at <= LastCall(cmds, key).value.at {
      var i :| 0 <= i < |cmds| && cmds[i] == c;
      if IsCall(cmds[n], key) {
      } else {
        assert cmds[..n][i] == c;
        LastIsLatest(cmds[..n], key, now);
      }
    }
  }

  // With every call for the key read, the timer that fired is that of the last call.
  lemma {:induction false} HeardInTime(labels: seq<Label>, s: State)
    requires Run(Init, labels, s) && s.purge.Popped? && s.purge.timer.key in s.values
    requires forall c <- Pending(s) :: !IsCall(c, s.purge.timer.key)
    ensures var v := s.values[s.purge.timer.key];
            v.ttl.Some? && v.id in s.askedAt && s.now >= s.askedAt[v.id] + v.ttl.value
  {
    hide Inv;
    InitInv();
    InitAsked();
    RunAsked(Init, labels, s);
    var k, p := s.purge.timer.key, Pending(s);
    assert AskedAt(s, k);
    forall i | 0 <= i < |p| && p[i].InsertCmd? ensures p[i].key != k { assert p[i] in p; }
    hide Pending, Run;
    ExpiryIsOwnExactly(labels, s);
  }

  // ---------------------------------------------------------------- both kinds of call happen

  // A value refreshed at its deadline expires at once, with the refresh unread.
  lemma {:induction false} ExpiresDespiteRefresh(k: string) returns (labels: seq<Label>, s: State)
    ensures Run(Init, labels, s) && 0 in s.askedAt && s.askedAt[0] == s.now == 1 && EndedAs(s, 0, Expired)
    ensures 0 in s.born && s.born[0].ttl == Some(1) && s.channel == [RefreshCmd(k, 1, 0, 1)]
  {
    var s1 := Apply(DueState(k), Refresh(k));
    var s2 := Apply(s1, Pop(0));
    s := Apply(s2, Expire);
    assert s.ended[0] == (0, Expired);
    RunOne(s2, Expire, [], s);
    assert [Expire] + [] == [Expire];
    RunOne(s1, Pop(0), [Expire], s);
    var rest := [Refresh(k)] + ([Pop(0)] + [Expire]);
    RunOne(DueState(k), Refresh(k), [Pop(0)] + [Expire], s);
    RunToDue(k, rest, s);
    labels := [InsertMap(k, Some(1))] + ([InsertSend] + ([Receive] + ([Wait(1)] + rest)));
  }
}

/**
How and when values leave the TTL cache (base/src/cache/mod.rs): which step each ending comes from, what a
step does to the map, and when a timer may fire.
*/
module TtlEndings {
  import opened Options
  import opened TtlCache
  import opened TtlRuns

  // ---------------------------------------------------------------- which step ends what

  // Whether the step takes the value of `key` out of the map, and how: an insertion for the key replaces it,
  // its removal returns it, the purge task removes the key of an expired timer.
  ghost function Takes(s: State, l: Label, key: string): (how: Option<Ending>)
    requires Enabled(s, l)
    ensures how.Some? ==> key in s.values
  {
    if key !in s.values then None
    else if l.InsertMap? && l.key == key then Some(Replaced)
    else if l.RemoveMap? && s.client.key == key then Some(Returned)
    else if l.Expire? && s.purge.timer.key == key then Some(Expired)
    else None
  }

  // A step ends exactly the values it takes out, as what they are, and leaves all others; an insertion alone
  // adds one.
  lemma {:induction false} StepEnds(s: State, l: Label, key: string)
    requires Enabled(s, l)
    ensures var s', taken := Apply(s, l), Takes(s, l, key);
      && (taken.Some? ==> s'.ended == s.ended + [(s.values[key].id, taken.value)])
      && (key in s.values && taken.None? ==> key in s'.values && s'.values[key] == s.values[key])
      && (key in s'.values && (key !in s.values || taken.Some?) ==>
            l.InsertMap? && l.key == key && s'.values[key] == Value(s.nextId, l.ttl))
      && (l.InsertMap? && l.key == key ==> key in s'.values && s'.values[key] == Value(s.nextId, l.ttl))
  {
    hide Handle;
  }

  lemma {:induction false} StepEnded(s: State, l: Label)
    requires Enabled(s, l)
    ensures var s' := Apply(s, l);
      s'.ended == s.ended
      || exists k :: Takes(s, l, k).Some? && s'.ended == s.ended + [(s.values[k].id, Takes(s, l, k).value)]
  {
    hide Handle;
    var key := if l.InsertMap? then l.key else if l.RemoveMap? then s.client.key
               else if l.Expire? then s.purge.timer.key else "";
    assert Takes(s, l, key).None? ==> Apply(s, l).ended == s.ended;
    assert Takes(s, l, key).Some? ==>
      Apply(s, l).ended == s.ended + [(s.values[key].id, Takes(s, l, key).value)];
  }

  lemma {:induction false} EndedFrom(s: State, labels: seq<Label>, s': State, id: nat, how: Ending)
    returns (n: nat, mid: State, key: string)
    requires Run(s, labels, s') && EndedAs(s', id, how) && !EndedAs(s, id, how)
    ensures n < |labels| && Run(s, labels[..n], mid) && Enabled(mid, labels[n])
    ensures key in mid.values && mid.values[key].id == id && Takes(mid, labels[n], key) == Some(how)
    decreases |labels|
  {
    hide Enabled, Apply, Takes;
    var next := Apply(s, labels[0]);
    if EndedAs(next, id, how) {
      StepEnded(s, labels[0]);
      n, mid := 0, s;
      key :| Takes(s, labels[0], key).Some?
             && next.ended == s.ended + [(s.values[key].id, Takes(s, labels[0], key).value)];
    } else {
      n, mid, key := EndedFrom(next, labels[1..], s', id, how);
      assert labels[..n + 1][1..] == labels[1..][..n];
      n := n + 1;
    }
  }

  // Every recorded ending comes from a step that took the value out in that way: handed to `expire_call` are
  // values found under the key of an expired timer and no others, returned are those of a removal, replaced
  // those of an insertion for the same key.
  lemma {:induction false} EndingsByCause(labels: seq<Label>, s: State, id: nat, how: Ending)
    returns (n: nat, mid: State, key: string)
    requires Run(Init, labels, s) && EndedAs(s, id, how)
    ensures n < |labels| && Run(Init, labels[..n], mid)
    ensures key in mid.values && mid.values[key].id == id
    ensures how == Replaced ==> labels[n].InsertMap? && labels[n].key == key
    ensures how == Returned ==> labels[n].RemoveMap? && mid.client == Removing(key)
    ensures how == Expired ==> labels[n].Expire? && mid.purge.Popped? && mid.purge.timer.key == key
  {
    hide Run;
    n, mid, key := EndedFrom(Init, labels, s, id, how);
  }

  // ---------------------------------------------------------------- when a timer may fire

  lemma {:induction false} AfterOthers(o: Option<nat>, cmds: seq<Command>, key: string)
    requires forall c <- cmds :: c.key != key
    ensures After(o, cmds, key) == o
  {
    if cmds != [] {
      var n := |cmds| - 1;
      assert cmds[n] in cmds && forall c <- cmds[..n] :: c in cmds;
      AfterOthers(o, cmds[..n], key);
    }
  }

  // With every command for the key read, a value with a time to live has one entry in the delay queue, and that
  // may fire exactly when the time to live has passed since its last insert or refresh command was handled;
  // a value without one has none.
  lemma {:induction false} DueExactly(labels: seq<Label>, s: State, key: string)
    requires Run(Init, labels, s) && s.purge.Ready? && key in s.values && s.client != Removing(key)
    requires forall c <- Pending(s) :: c.key != key
    ensures var v := s.values[key];
      if v.ttl.None? then key !in s.delay.keyMap
      else
        && key in s.delay.keyMap && v.id in s.armedAt
        && s.delay.queue.Keys >= {s.delay.keyMap[key]}
        && s.delay.queue[s.delay.keyMap[key]] == Timer(key, s.armedAt[v.id] + v.ttl.value, v.id)
        && (Enabled(s, Pop(s.delay.keyMap[key])) <==> s.now >= s.armedAt[v.id] + v.ttl.value)
  {
    hide Run, Pending;
    InitInv();
    RunInv(Init, labels, s);
    AfterOthers(Owner(s.delay, key), Pending(s), key);
    TimedHolds(s, key);
    if s.values[key].ttl.Some? {
      OnTimeHolds(s, s.delay.keyMap[key]);
      BirthHolds(s, key);
    }
  }

  lemma {:induction false} OnTimeHolds(s: State, token: nat)
    requires Inv(s) && token in s.delay.queue
    ensures OnTime(s, s.delay.queue[token])
  {
  }

  lemma {:induction false} BirthHolds(s: State, key: string)
    requires Inv(s) && key in s.values
    ensures var v := s.values[key];
      v.id in s.born && s.born[v.id] == Birth(key, s.born[v.id].at, v.ttl)
  {
  }

  // Then the entry fires and its value, the one that was due, is handed over.
  lemma {:induction false} DueExpires(labels: seq<Label>, s: State, key: string)
    requires Run(Init, labels, s) && s.purge.Ready? && key in s.values && s.client != Removing(key)
    requires forall c <- Pending(s) :: c.key != key
    requires s.values[key].ttl.Some?
    requires s.values[key].id in s.armedAt && s.now >= s.armedAt[s.values[key].id] + s.values[key].ttl.value
    ensures key in s.delay.keyMap && Enabled(s, Pop(s.delay.keyMap[key]))
    ensures var popped := Apply(s, Pop(s.delay.keyMap[key]));
      && Enabled(popped, Expire)
      && Apply(popped, Expire).values == s.values - {key}
      && Apply(popped, Expire).ended == s.ended + [(s.values[key].id, Expired)]
  {
    hide Run, Pending;
    DueExactly(labels, s, key);
  }
}

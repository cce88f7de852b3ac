/**
What the TTL cache (base/src/cache/mod.rs) keeps over whole runs: the map and the delay queue agree, every
insertion ends in one way, and a value is expired by its own timer unless its insertion is still unread.
*/
module TtlRuns {
  import opened Options
  import opened TtlCache

  // Between operations, a value with a time to live has a timer of its own or a pending insert command
  // as the last word on its key, and one without a time to live will have no timer.
  lemma {:induction false} Agreement(labels: seq<Label>, s: State, k: string)
    requires Run(Init, labels, s) && s.client.Idle? && s.purge.Ready? && k in s.values
    ensures After(Owner(s.delay, k), s.channel, k) == (if s.values[k].ttl.Some? then Some(s.values[k].id) else None)
  {
    InitInv();
    RunInv(Init, labels, s);
    assert Pending(s) == s.channel;
    assert Kept(s, k);
    TimedHolds(s, k);
  }

  // The other way round: a timer that handling the channel leaves has its value still mapped, or is
  // that of a value which expired before its own insert command was handled.
  lemma {:induction false} NoStrayTimer(labels: seq<Label>, s: State, k: string)
    requires Run(Init, labels, s) && s.client.Idle?
    ensures var id := After(Owner(s.delay, k), s.channel, k);
            id.Some? ==> (k in s.values && s.values[k].id == id.value) || EndedAs(s, id.value, Expired)
  {
    InitInv();
    RunInv(Init, labels, s);
    assert Pending(s) == s.channel;
    assert LeftoverAt(s, k);
  }

  // Every insertion is in the map, or left it in one way and once: it is replaced, returned by
  // `remove`, or handed to `expire_call`, and never two of these.
  lemma {:induction false} OneEnding(labels: seq<Label>, s: State, id: nat)
    requires Run(Init, labels, s) && id < s.nextId
    ensures Mapped(s, id) != Gone(s, id)
    ensures forall i, j :: 0 <= i < j < |s.ended| && s.ended[i].0 == id ==> s.ended[j].0 != id
    ensures forall a, b :: EndedAs(s, id, a) && EndedAs(s, id, b) ==> a == b
  {
    InitInv();
    RunInv(Init, labels, s);
    if Mapped(s, id) {
      var k :| k in s.values && s.values[k].id == id;
      assert !Gone(s, s.values[k].id);
    }
  }

  // The purge task removes the very insertion its timer was started for exactly when the channel holds
  // no insert command for the key (nor is the client about to send one); then its time to live has
  // passed since its last insert or refresh command was handled.
  lemma {:induction false} ExpiryIsOwnExactly(labels: seq<Label>, s: State)
    requires Run(Init, labels, s) && s.purge.Popped? && s.purge.timer.key in s.values
    ensures var v := s.values[s.purge.timer.key];
            v.id == s.purge.timer.owner <==>
              forall i :: 0 <= i < |Pending(s)| && Pending(s)[i].InsertCmd? ==> Pending(s)[i].key != s.purge.timer.key
    ensures var v := s.values[s.purge.timer.key];
            v.id == s.purge.timer.owner ==>
              v.ttl.Some? && v.id in s.armedAt && s.now >= s.armedAt[v.id] + v.ttl.value
    ensures var v := s.values[s.purge.timer.key];
            v.id == s.purge.timer.owner ==> v.id in s.born && v.id in s.armedAt && s.armedAt[v.id] >= s.born[v.id].at
  {
    InitInv();
    RunInv(Init, labels, s);
    var k, p := s.purge.timer.key, Pending(s);
    assert LatestAt(s, k);
    if LastInsert(p, k).Some? {
      var i := LastInsertIn(p, k);
      assert Newer(s.purge.timer, p);
    } else {
      NoInsert(p, k);
    }
  }

  lemma {:induction false} NoInsert(cmds: seq<Command>, key: string)
    requires LastInsert(cmds, key).None?
    ensures forall i :: 0 <= i < |cmds| && cmds[i].InsertCmd? ==> cmds[i].key != key
  {
    if cmds != [] {
      var n := |cmds| - 1;
      NoInsert(cmds[..n], key);
      assert forall i :: 0 <= i < n ==> cmds[i] == cmds[..n][i];
    }
  }

  lemma {:induction false} RunOne(s: State, l: Label, rest: seq<Label>, s': State)
    requires Enabled(s, l) && Run(Apply(s, l), rest, s')
    ensures Run(s, [l] + rest, s')
  {
    assert ([l] + rest)[1..] == rest;
  }

  // The run up to the point where the timer of an insertion for 1 time unit is due.
  function DueState(k: string): State {
    State(map[k := Value(0, Some(1))], [], Delay(map[k := 0], map[0 := Timer(k, 1, 0)], 1), Idle, Ready, 1, 1,
          map[0 := Birth(k, 0, Some(1))], map[0 := 0], map[0 := 0], [])
  }

  lemma {:induction false} RunToDue(k: string, rest: seq<Label>, s: State)
    requires Run(DueState(k), rest, s)
    ensures Run(Init, [InsertMap(k, Some(1))] + ([InsertSend] + ([Receive] + ([Wait(1)] + rest))), s)
  {
    var s1 := Apply(Init, InsertMap(k, Some(1)));
    var s2 := Apply(s1, InsertSend);
    var s3 := Apply(s2, Receive);
    assert s3.delay == Delay(map[k := 0], map[0 := Timer(k, 1, 0)], 1);
    assert Apply(s3, Wait(1)) == DueState(k);
    RunOne(s3, Wait(1), rest, s);
    RunOne(s2, Receive, [Wait(1)] + rest, s);
    RunOne(s1, InsertSend, [Receive] + ([Wait(1)] + rest), s);
    RunOne(Init, InsertMap(k, Some(1)), [InsertSend] + ([Receive] + ([Wait(1)] + rest)), s);
  }

  lemma {:induction false} RunFromDue(k: string) returns (labels: seq<Label>, s: State)
    ensures Run(DueState(k), labels, s)
    ensures 1 in s.born && s.born[1] == Birth(k, 1, Some(100)) && s.now == 1 && EndedAs(s, 1, Expired)
  {
    var s1 := Apply(DueState(k), InsertMap(k, Some(100)));
    var s2 := Apply(s1, Pop(0));
    s := Apply(s2, Expire);
    labels := [InsertMap(k, Some(100))] + ([Pop(0)] + [Expire]);
    assert s.ended[1] == (1, Expired);
    RunOne(s2, Expire, [], s);
    assert [Expire] + [] == [Expire];
    RunOne(s1, Pop(0), [Expire], s);
    RunOne(DueState(k), InsertMap(k, Some(100)), [Pop(0)] + [Expire], s);
  }

  // The other case does happen: a value inserted for 100 time units expires at once.
  lemma {:induction false} ExpiresTooEarly(k: string) returns (labels: seq<Label>, s: State)
    ensures Run(Init, labels, s) && 1 in s.born && s.born[1] == Birth(k, 1, Some(100)) && s.now == 1
    ensures EndedAs(s, 1, Expired)
  {
    hide *;
    var rest;
    rest, s := RunFromDue(k);
    RunToDue(k, rest, s);
    labels := [InsertMap(k, Some(1))] + ([InsertSend] + ([Receive] + ([Wait(1)] + rest)));
  }
}

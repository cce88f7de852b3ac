/**
The TTL cache (base/src/cache/mod.rs): a shared map changed at once by one client thread, and a purge
task that owns the delay queue and learns of the changes through a first-in first-out channel of
commands. A state machine whose steps are single operations on the map, the channel or the queue.
The delay queue is assumed to deliver an entry at its deadline or later, and not after its removal.
*/
module TtlCache {
  import opened Options

  // A cached value with its time to live; `id` tells insertions apart.
  datatype Value = Value(id: nat, ttl: Option<nat>)

  // Commands carry, as history, the id of the insertion they stem from and the time of the call.
  datatype Command =
    | InsertCmd(key: string, ttl: Option<nat>, id: nat, at: nat)
    | RemoveCmd(key: string)
    | RefreshCmd(key: string, life: nat, id: nat, at: nat)

  // An entry of the delay queue, with the insertion whose command started it.
  datatype Timer = Timer(key: string, deadline: nat, owner: nat)

  // What the purge task owns.
  datatype Delay = Delay(keyMap: map<string, nat>, queue: map<nat, Timer>, nextToken: nat)

  datatype Client =
    | Idle
    | Inserted(key: string, value: Value, at: nat)  // changed the map, next sends the command
    | Removing(key: string)                         // sent the command, next changes the map

  datatype Purge =
    | Ready
    | Popped(timer: Timer)                 // took an expired entry, next removes its key from the map

  // How a value left the map: `Expired` values are handed to the channel of `expire_call`.
  datatype Ending = Replaced | Returned | Expired

  // When and for how long an insertion was made.
  datatype Birth = Birth(key: string, at: nat, ttl: Option<nat>)

  datatype State = State(
    values: map<string, Value>, channel: seq<Command>, delay: Delay, client: Client, purge: Purge, now: nat,
    // History: the id of the next insertion, and of each insertion its birth, the time of its last insert
    // or refresh call, when the last command of such a call was handled, and how it left the map.
    nextId: nat, born: map<nat, Birth>, askedAt: map<nat, nat>, armedAt: map<nat, nat>, ended: seq<(nat, Ending)>)

  datatype Label =
    | InsertMap(key: string, ttl: Option<nat>)
    | InsertSend
    | RemoveSend(key: string)
    | RemoveMap
    | Refresh(key: string)                 // one step: the map entry stays locked while the command is sent
    | Receive
    | Pop(token: nat)
    | Expire
    | Wait(time: nat)

  const Init: State := State(map[], [], Delay(map[], map[], 0), Idle, Ready, 0, 0, map[], map[], map[], [])

  // ---------------------------------------------------------------- the purge task

  function Disarm(d: Delay, key: string): Delay {
    if key in d.keyMap then Delay(d.keyMap - {key}, d.queue - {d.keyMap[key]}, d.nextToken) else d
  }

  function Rearm(d: Delay, key: string, deadline: nat, owner: nat): Delay
    requires key in d.keyMap
  {
    d.(queue := d.queue[d.keyMap[key] := Timer(key, deadline, owner)])
  }

  function Arm(d: Delay, key: string, deadline: nat, owner: nat): Delay {
    if key in d.keyMap then Rearm(d, key, deadline, owner)
    else Delay(d.keyMap[key := d.nextToken], d.queue[d.nextToken := Timer(key, deadline, owner)], d.nextToken + 1)
  }

  // The insertion that the timer of a key belongs to.
  function Owner(d: Delay, key: string): Option<nat> {
    if key in d.keyMap && d.keyMap[key] in d.queue then Some(d.queue[d.keyMap[key]].owner) else None
  }

  function Handle(d: Delay, cmd: Command, now: nat): Delay {
    match cmd
    case InsertCmd(key, ttl, id, _) => if ttl.None? then Disarm(d, key) else Arm(d, key, now + ttl.value, id)
    case RemoveCmd(key) => Disarm(d, key)
    case RefreshCmd(key, life, _, _) =>
      if Owner(d, key).Some? then Rearm(d, key, now + life, Owner(d, key).value) else d
  }

  // Each armed key has one entry in the queue, and each entry is that of its key.
  ghost predicate Paired(d: Delay) {
    && (forall k <- d.keyMap :: d.keyMap[k] in d.queue && d.queue[d.keyMap[k]].key == k)
    && (forall t <- d.queue :: d.queue[t].key in d.keyMap && d.keyMap[d.queue[t].key] == t && t < d.nextToken)
  }

  lemma {:induction false} HandlePaired(d: Delay, cmd: Command, now: nat)
    requires Paired(d)
    ensures Paired(Handle(d, cmd, now))
  {
  }

  // ---------------------------------------------------------------- the steps

  ghost predicate Enabled(s: State, l: Label) {
    match l
    case InsertMap(_, _) => s.client.Idle?
    case InsertSend => s.client.Inserted?
    case RemoveSend(_) => s.client.Idle?
    case RemoveMap => s.client.Removing?
    case Refresh(_) => s.client.Idle?
    case Receive => s.purge.Ready? && s.channel != []
    case Pop(token) => s.purge.Ready? && token in s.delay.queue && s.delay.queue[token].deadline <= s.now
    case Expire => s.purge.Popped?
    case Wait(_) => true
  }

  function ArmedAt(armedAt: map<nat, nat>, cmd: Command, now: nat): map<nat, nat> {
    if cmd.RemoveCmd? then armedAt else armedAt[cmd.id := now]
  }

  function Announcement(key: string, v: Value, at: nat): Command { InsertCmd(key, v.ttl, v.id, at) }

  function Leave(s: State, key: string, how: Ending): State {
    if key in s.values then s.(values := s.values - {key}, ended := s.ended + [(s.values[key].id, how)]) else s
  }

  function ApplyInsert(s: State, key: string, ttl: Option<nat>): State {
    var v := Value(s.nextId, ttl);
    var left := Leave(s, key, Replaced);
    left.(values := left.values[key := v], client := Inserted(key, v, s.now), nextId := s.nextId + 1,
          born := s.born[s.nextId := Birth(key, s.now, ttl)], askedAt := s.askedAt[s.nextId := s.now])
  }

  function ApplyRefresh(s: State, key: string): State {
    if key in s.values && s.values[key].ttl.Some? then
      var v := s.values[key];
      s.(channel := s.channel + [RefreshCmd(key, v.ttl.value, v.id, s.now)], askedAt := s.askedAt[v.id := s.now])
    else s
  }

  ghost function Apply(s: State, l: Label): State
    requires Enabled(s, l)
  {
    match l
    case InsertMap(key, ttl) => ApplyInsert(s, key, ttl)
    case InsertSend =>
      s.(channel := s.channel + [Announcement(s.client.key, s.client.value, s.client.at)], client := Idle)
    case RemoveSend(key) => s.(channel := s.channel + [RemoveCmd(key)], client := Removing(key))
    case RemoveMap => Leave(s, s.client.key, Returned).(client := Idle)
    case Refresh(key) => ApplyRefresh(s, key)
    case Receive =>
      s.(channel := s.channel[1..], delay := Handle(s.delay, s.channel[0], s.now),
         armedAt := ArmedAt(s.armedAt, s.channel[0], s.now))
    case Pop(token) =>
      s.(delay := Delay(s.delay.keyMap - {s.delay.queue[token].key}, s.delay.queue - {token}, s.delay.nextToken),
         purge := Popped(s.delay.queue[token]))
    case Expire => Leave(s, s.purge.timer.key, Expired).(purge := Ready)
    case Wait(time) => s.(now := s.now + time)
  }

  // ---------------------------------------------------------------- what commands still to be handled will do

  // The commands sent, and the one the client is about to send.
  function Pending(s: State): seq<Command> {
    s.channel + if s.client.Inserted? then [Announcement(s.client.key, s.client.value, s.client.at)] else []
  }

  // A value that no removal under way is about to take.
  predicate Kept(s: State, key: string) { key in s.values && s.client != Removing(key) }

  function Effect(o: Option<nat>, cmd: Command, key: string): Option<nat> {
    if cmd.key != key || cmd.RefreshCmd? then o
    else if cmd.InsertCmd? && cmd.ttl.Some? then Some(cmd.id)
    else None
  }

  // The owner of the timer of `key` once `cmds` are handled.
  function After(o: Option<nat>, cmds: seq<Command>, key: string): Option<nat> {
    if cmds == [] then o else Effect(After(o, cmds[..|cmds| - 1], key), cmds[|cmds| - 1], key)
  }

  // The insertion of the last insert command for `key`.
  function LastInsert(cmds: seq<Command>, key: string): Option<nat> {
    if cmds == [] then None
    else if cmds[|cmds| - 1].InsertCmd? && cmds[|cmds| - 1].key == key then Some(cmds[|cmds| - 1].id)
    else LastInsert(cmds[..|cmds| - 1], key)
  }

  lemma {:induction false} HandleOwner(d: Delay, cmd: Command, now: nat, key: string)
    requires Paired(d)
    ensures Owner(Handle(d, cmd, now), key) == Effect(Owner(d, key), cmd, key)
  {
  }

  lemma {:induction false} AfterHead(o: Option<nat>, cmds: seq<Command>, key: string)
    requires cmds != []
    ensures After(o, cmds, key) == After(Effect(o, cmds[0], key), cmds[1..], key)
  {
    var n := |cmds| - 1;
    if n == 0 {
      assert After(o, cmds[..0], key) == o;
    } else {
      AfterHead(o, cmds[..n], key);
      assert cmds[..n][1..] == cmds[1..][..n - 1];
    }
  }

  lemma {:induction false} LastInsertHead(cmds: seq<Command>, key: string)
    requires cmds != []
    ensures LastInsert(cmds, key) ==
            if LastInsert(cmds[1..], key).Some? then LastInsert(cmds[1..], key)
            else if cmds[0].InsertCmd? && cmds[0].key == key then Some(cmds[0].id) else None
  {
    var n := |cmds| - 1;
    if n == 0 {
      assert LastInsert(cmds[..0], key) == None;
    } else {
      LastInsertHead(cmds[..n], key);
      assert cmds[..n][1..] == cmds[1..][..n - 1];
    }
  }

  // The owner is the present one, or the commands alone decide it: nobody, or the last insertion.
  lemma {:induction false} AfterSource(o: Option<nat>, cmds: seq<Command>, key: string)
    ensures After(o, cmds, key) == After(None, cmds, key) || After(o, cmds, key) == o
    ensures After(None, cmds, key).Some? ==> After(None, cmds, key) == LastInsert(cmds, key)
    ensures LastInsert(cmds, key).Some? ==> After(o, cmds, key) == After(None, cmds, key)
  {
    if cmds != [] { AfterSource(o, cmds[..|cmds| - 1], key); }
  }

  lemma {:induction false} LastInsertIn(cmds: seq<Command>, key: string) returns (i: nat)
    requires LastInsert(cmds, key).Some?
    ensures i < |cmds| && cmds[i].InsertCmd? && cmds[i].key == key && LastInsert(cmds, key) == Some(cmds[i].id)
  {
    var n := |cmds| - 1;
    if cmds[n].InsertCmd? && cmds[n].key == key { i := n; } else { i := LastInsertIn(cmds[..n], key); }
  }

  // ---------------------------------------------------------------- invariants

  ghost predicate EndedAs(s: State, id: nat, how: Ending) { (id, how) in s.ended }

  ghost predicate Gone(s: State, id: nat) { exists i :: 0 <= i < |s.ended| && s.ended[i].0 == id }

  ghost predicate Mapped(s: State, id: nat) { exists k :: k in s.values && s.values[k].id == id }

  // Every insertion is in the map under one key, or has left it once.
  ghost predicate Ledger(s: State) {
    && (forall k <- s.values :: s.values[k].id < s.nextId && !Gone(s, s.values[k].id))
    && (forall j, k :: j in s.values && k in s.values && s.values[j].id == s.values[k].id ==> j == k)
    && (forall i, j :: 0 <= i < j < |s.ended| ==> s.ended[i].0 != s.ended[j].0)
    && (forall i :: 0 <= i < |s.ended| ==> s.ended[i].0 < s.nextId)
    && (forall id: nat :: id < s.nextId ==> Mapped(s, id) || Gone(s, id))
  }

  ghost predicate Births(s: State) {
    && (forall id: nat :: id in s.born <==> id < s.nextId)
    && (forall id <- s.born :: s.born[id].at <= s.now)
    && (forall k <- s.values :: s.values[k].id in s.born && s.born[s.values[k].id].ttl == s.values[k].ttl)
    && (forall k <- s.values :: s.born[s.values[k].id].key == k)
  }

  // Pending insert commands stem from newer and newer insertions, all newer than those with a timer.
  ghost predicate Newer(timer: Timer, cmds: seq<Command>) {
    forall i :: 0 <= i < |cmds| && cmds[i].InsertCmd? ==> timer.owner < cmds[i].id
  }

  ghost predicate Rising(s: State) {
    var p := Pending(s);
    && (forall i :: 0 <= i < |p| && p[i].InsertCmd? ==> p[i].id < s.nextId)
    && (forall i, j :: 0 <= i < j < |p| && p[i].InsertCmd? && p[j].InsertCmd? ==> p[i].id < p[j].id)
    && (forall t <- s.delay.queue :: s.delay.queue[t].owner < s.nextId && Newer(s.delay.queue[t], p))
    && (s.purge.Popped? ==> s.purge.timer.owner < s.nextId && Newer(s.purge.timer, p))
  }

  ghost predicate PoppedBy(s: State, key: string, id: nat) {
    s.purge.Popped? && s.purge.timer.key == key && s.purge.timer.owner == id
  }

  // The last pending insertion of a mapped key is that of its value, and when there is none, a timer
  // of the key belongs to the value.
  ghost predicate LatestAt(s: State, k: string)
    requires k in s.values
  {
    var id := s.values[k].id;
    && LastInsert(Pending(s), k) in {None, Some(id)}
    && (LastInsert(Pending(s), k).None? ==> Owner(s.delay, k) in {None, Some(id)})
    && (LastInsert(Pending(s), k).None? && s.purge.Popped? && s.purge.timer.key == k ==> s.purge.timer.owner == id)
  }

  ghost predicate Latest(s: State) { forall k <- s.values :: LatestAt(s, k) }

  function Settled(s: State, k: string): Option<nat> { After(Owner(s.delay, k), Pending(s), k) }

  // Once the pending commands are handled, a value with a time to live has a timer of its own, unless
  // that timer has just fired; a value without one has no timer.
  ghost predicate TimedAt(s: State, k: string)
    requires k in s.values
  {
    var v := s.values[k];
    if v.ttl.None? then Settled(s, k) == None else Settled(s, k) == Some(v.id) || PoppedBy(s, k, v.id)
  }

  ghost predicate Timed(s: State) { forall k :: Kept(s, k) ==> TimedAt(s, k) }

  // A timer that outlives its value is that of a value which expired before its command was handled.
  ghost predicate LeftoverAt(s: State, k: string) {
    Settled(s, k).Some? ==>
      (Kept(s, k) && s.values[k].id == Settled(s, k).value) || EndedAs(s, Settled(s, k).value, Expired)
  }

  ghost predicate Leftovers(s: State) { forall k :: LeftoverAt(s, k) }

  // A timer is due its insertion's time to live after the last insert or refresh command was handled.
  ghost predicate OnTime(s: State, timer: Timer) {
    && timer.owner in s.born && s.born[timer.owner].key == timer.key && s.born[timer.owner].ttl.Some?
    && timer.owner in s.armedAt && s.armedAt[timer.owner] >= s.born[timer.owner].at
    && timer.deadline == s.armedAt[timer.owner] + s.born[timer.owner].ttl.value
  }

  ghost predicate CommandOk(s: State, i: nat)
    requires i < |Pending(s)|
  {
    var cmd := Pending(s)[i];
    && (cmd.InsertCmd? ==> cmd.id in s.born && s.born[cmd.id].key == cmd.key && s.born[cmd.id].ttl == cmd.ttl)
    && (cmd.RefreshCmd? ==> cmd.id in s.born && s.born[cmd.id].key == cmd.key && s.born[cmd.id].ttl == Some(cmd.life))
    && (cmd.RefreshCmd? ==> After(Owner(s.delay, cmd.key), Pending(s)[..i], cmd.key) in {None, Some(cmd.id)})
  }

  ghost predicate Deadlines(s: State) {
    && (forall t <- s.delay.queue :: OnTime(s, s.delay.queue[t]))
    && (s.purge.Popped? ==> OnTime(s, s.purge.timer) && s.purge.timer.deadline <= s.now)
    && (forall i :: 0 <= i < |Pending(s)| ==> CommandOk(s, i))
  }

  ghost predicate Unarmed(s: State) { s.purge.Popped? ==> s.purge.timer.key !in s.delay.keyMap }

  ghost predicate Inv(s: State) {
    && Paired(s.delay) && Unarmed(s) && Ledger(s) && Births(s) && Rising(s)
    && Latest(s) && Timed(s) && Leftovers(s) && Deadlines(s)
  }

  lemma {:induction false} InitInv()
    ensures Inv(Init)
  {
  }

  // ---------------------------------------------------------------- every step keeps the invariants

  function Appended(s: State, l: Label): seq<Command> {
    match l
    case InsertMap(key, ttl) => [InsertCmd(key, ttl, s.nextId, s.now)]
    case RemoveSend(key) => [RemoveCmd(key)]
    case Refresh(key) =>
      if key in s.values && s.values[key].ttl.Some? then
        [RefreshCmd(key, s.values[key].ttl.value, s.values[key].id, s.now)] else []
    case _ => []
  }

  lemma {:induction false} StepPending(s: State, l: Label)
    requires Enabled(s, l)
    ensures var p, p' := Pending(s), Pending(Apply(s, l));
            if l.Receive? then p != [] && p[0] == s.channel[0] && p' == p[1..] else p' == p + Appended(s, l)
  {
  }

  lemma {:induction false} StepPaired(s: State, l: Label)
    requires Enabled(s, l) && Paired(s.delay) && Unarmed(s)
    ensures Paired(Apply(s, l).delay) && Unarmed(Apply(s, l))
  {
    if l.Receive? { HandlePaired(s.delay, s.channel[0], s.now); }
  }

  lemma {:induction false} LeaveGone(s: State, key: string, how: Ending, id: nat)
    requires key in s.values
    ensures Gone(Leave(s, key, how), id) <==> Gone(s, id) || id == s.values[key].id
  {
    var ended := Leave(s, key, how).ended;
    assert ended[|s.ended|].0 == s.values[key].id;
    if Gone(s, id) {
      var i :| 0 <= i < |s.ended| && s.ended[i].0 == id;
      assert ended[i].0 == id;
    }
  }

  lemma {:induction false} LeaveLedger(s: State, key: string, how: Ending)
    requires Ledger(s)
    ensures Ledger(Leave(s, key, how))
  {
    var s' := Leave(s, key, how);
    if key in s.values {
      forall id: nat ensures Gone(s', id) <==> Gone(s, id) || id == s.values[key].id { LeaveGone(s, key, how, id); }
      NotInLog(s, key);
      hide Gone;
      forall id: nat | id < s.nextId && !Gone(s', id) ensures Mapped(s', id) {
        var k :| k in s.values && s.values[k].id == id;
        assert k in s'.values;
      }
    }
  }

  lemma {:induction false} NotInLog(s: State, key: string)
    requires Ledger(s) && key in s.values
    ensures forall i :: 0 <= i < |s.ended| ==> s.ended[i].0 != s.values[key].id
  {
    assert !Gone(s, s.values[key].id);
  }

  lemma {:induction false} AddLedger(s: State, s': State, key: string, v: Value)
    requires Ledger(s) && key !in s.values && v.id == s.nextId
    requires s'.values == s.values[key := v] && s'.nextId == s.nextId + 1 && s'.ended == s.ended
    ensures Ledger(s')
  {
    forall id: nat ensures Gone(s', id) == Gone(s, id) {}
    hide Gone;
    forall id: nat | id < s'.nextId ensures Mapped(s', id) || Gone(s', id) {
      if id == s.nextId {
        assert s'.values[key].id == id;
      } else if !Gone(s, id) {
        var k :| k in s.values && s.values[k].id == id;
        assert s'.values[k].id == id;
      }
    }
    if Gone(s, v.id) { EndedOld(s, v.id); }
  }

  lemma {:induction false} EndedOld(s: State, id: nat)
    requires Ledger(s) && Gone(s, id)
    ensures id < s.nextId
  {
  }

  lemma {:induction false} InsertLedger(s: State, key: string, ttl: Option<nat>)
    requires Ledger(s)
    ensures Ledger(ApplyInsert(s, key, ttl))
  {
    hide Ledger;
    LeaveLedger(s, key, Replaced);
    AddLedger(Leave(s, key, Replaced), ApplyInsert(s, key, ttl), key, Value(s.nextId, ttl));
  }

  lemma {:induction false} StepLedger(s: State, l: Label)
    requires Enabled(s, l) && Ledger(s)
    ensures Ledger(Apply(s, l))
  {
    if l.InsertMap? {
      InsertLedger(s, l.key, l.ttl);
    } else if l.RemoveMap? {
      LeaveLedger(s, s.client.key, Returned);
      SameLedger(Leave(s, s.client.key, Returned), Apply(s, l));
    } else if l.Expire? {
      LeaveLedger(s, s.purge.timer.key, Expired);
      SameLedger(Leave(s, s.purge.timer.key, Expired), Apply(s, l));
    } else {
      SameLedger(s, Apply(s, l));
    }
  }

  lemma {:induction false} SameLedger(s: State, s': State)
    requires Ledger(s) && s'.values == s.values && s'.ended == s.ended && s'.nextId == s.nextId
    ensures Ledger(s')
  {
    forall id: nat | id < s'.nextId ensures Mapped(s', id) || Gone(s', id) {
      assert Mapped(s, id) == Mapped(s', id) && Gone(s, id) == Gone(s', id);
    }
    forall k | k in s'.values ensures !Gone(s', s'.values[k].id) {
      assert !Gone(s, s.values[k].id);
    }
  }

  lemma {:induction false} StepBirths(s: State, l: Label)
    requires Enabled(s, l) && Births(s)
    ensures Births(Apply(s, l))
  {
  }

  lemma {:induction false} StepRising(s: State, l: Label)
    requires Enabled(s, l) && Paired(s.delay) && Rising(s)
    ensures Rising(Apply(s, l))
  {
    hide Paired, Owner, Handle, Apply, Pending;
    var s', p, p' := Apply(s, l), Pending(s), Pending(Apply(s, l));
    StepPending(s, l);
    TimersFrom(s, l);
    assert l.Receive? ==> forall i :: 0 <= i < |p'| ==> p'[i] == p[i + 1];
    forall t | t in s'.delay.queue ensures s'.delay.queue[t].owner < s'.nextId && Newer(s'.delay.queue[t], p') {
      if t in s.delay.queue && s'.delay.queue[t].owner == s.delay.queue[t].owner {
        assert Newer(s.delay.queue[t], p);
      }
    }
    assert s.purge.Popped? ==> Newer(s.purge.timer, p);
  }

  // Where the timers after a step come from.
  lemma {:induction false} TimersFrom(s: State, l: Label)
    requires Enabled(s, l)
    ensures var s' := Apply(s, l);
            && s.nextId <= s'.nextId
            && (l.InsertMap? ==> s.nextId < s'.nextId)
            && (forall t <- s'.delay.queue ::
                  (t in s.delay.queue && s'.delay.queue[t].owner == s.delay.queue[t].owner)
                  || (l.Receive? && s.channel[0].InsertCmd? && s'.delay.queue[t].owner == s.channel[0].id))
            && (s'.purge.Popped? && s'.purge != s.purge ==>
                  l.Pop? && l.token in s.delay.queue && s'.purge.timer == s.delay.queue[l.token])
  {
  }

  lemma {:induction false} StepOwner(s: State, l: Label, k: string)
    requires Enabled(s, l) && Paired(s.delay)
    ensures Owner(Apply(s, l).delay, k) ==
            if l.Receive? then Effect(Owner(s.delay, k), s.channel[0], k)
            else if l.Pop? && s.delay.queue[l.token].key == k then None
            else Owner(s.delay, k)
  {
    if l.Receive? { HandleOwner(s.delay, s.channel[0], s.now, k); }
  }

  lemma {:induction false} StepSettled(s: State, l: Label, k: string)
    requires Enabled(s, l) && Paired(s.delay)
    ensures Settled(Apply(s, l), k) ==
            if l.Pop? && s.delay.queue[l.token].key == k then After(None, Pending(s), k)
            else if Appended(s, l) == [] then Settled(s, k)
            else Effect(Settled(s, k), Appended(s, l)[0], k)
  {
    hide Paired, Owner, Apply, Pending;
    var p, p' := Pending(s), Pending(Apply(s, l));
    StepOwner(s, l, k);
    StepPending(s, l);
    if l.Receive? {
      AfterHead(Owner(s.delay, k), p, k);
    } else if Appended(s, l) == [] {
      assert p' == p;
    } else {
      assert p'[..|p|] == p;
    }
  }

  lemma {:induction false} StepLastInsert(s: State, l: Label, k: string)
    requires Enabled(s, l)
    ensures var p, p' := Pending(s), Pending(Apply(s, l));
            if l.InsertMap? && l.key == k then LastInsert(p', k) == Some(s.nextId)
            else if l.Receive? && LastInsert(p', k).None? then
              LastInsert(p, k) == (if p[0].InsertCmd? && p[0].key == k then Some(p[0].id) else None)
            else LastInsert(p', k) == LastInsert(p, k)
  {
    hide Apply, Pending;
    var p, p' := Pending(s), Pending(Apply(s, l));
    StepPending(s, l);
    if l.Receive? {
      LastInsertHead(p, k);
    } else if Appended(s, l) == [] {
      assert p' == p;
    } else {
      assert p'[..|p|] == p;
    }
  }

  // What a step does to the values: only the inserted key gets a new one.
  lemma {:induction false} StepValues(s: State, l: Label, k: string)
    requires Enabled(s, l)
    ensures var s' := Apply(s, l);
            if l.InsertMap? && l.key == k then k in s'.values && s'.values[k] == Value(s.nextId, l.ttl)
            else k in s'.values ==> k in s.values && s'.values[k] == s.values[k]
  {
  }

  lemma {:induction false} StepLatest(s: State, l: Label, k: string)
    requires Enabled(s, l) && Paired(s.delay) && Latest(s) && k in Apply(s, l).values
    ensures LatestAt(Apply(s, l), k)
  {
    hide Paired, Owner, Pending, Latest, Handle;
    StepValues(s, l, k);
    StepLastInsert(s, l, k);
    StepOwner(s, l, k);
    StepPending(s, l);
    if !(l.InsertMap? && l.key == k) {
      LatestHolds(s, k);
      if l.Pop? && s.delay.queue[l.token].key == k { PairedOwner(s.delay, l.token); }
    }
  }

  lemma {:induction false} LatestHolds(s: State, k: string)
    requires Latest(s) && k in s.values
    ensures LatestAt(s, k)
  {
  }

  lemma {:induction false} PairedOwner(d: Delay, token: nat)
    requires Paired(d) && token in d.queue
    ensures Owner(d, d.queue[token].key) == Some(d.queue[token].owner)
  {
  }

  lemma {:induction false} StepTimed(s: State, l: Label, k: string)
    requires Enabled(s, l) && Paired(s.delay) && Timed(s) && Kept(Apply(s, l), k)
    ensures TimedAt(Apply(s, l), k)
  {
    hide Paired, Owner, Pending, Timed, Settled, Handle;
    StepValues(s, l, k);
    StepSettled(s, l, k);
    if !(l.InsertMap? && l.key == k) {
      assert Kept(s, k);
      TimedHolds(s, k);
      if l.Pop? && s.delay.queue[l.token].key == k {
        PairedOwner(s.delay, l.token);
        SettledSource(s, k);
      }
    }
  }

  lemma {:induction false} TimedHolds(s: State, k: string)
    requires Timed(s) && Kept(s, k)
    ensures TimedAt(s, k)
  {
  }

  lemma {:induction false} SettledSource(s: State, k: string)
    ensures Settled(s, k) == After(None, Pending(s), k) || Settled(s, k) == Owner(s.delay, k)
    ensures After(None, Pending(s), k) in {None, Settled(s, k)}
    ensures LastInsert(Pending(s), k).Some? ==> Settled(s, k) in {None, LastInsert(Pending(s), k)}
    ensures LastInsert(Pending(s), k).None? ==> Settled(s, k) in {None, Owner(s.delay, k)}
  {
    AfterSource(Owner(s.delay, k), Pending(s), k);
  }

  lemma {:induction false} StepLeftovers(s: State, l: Label, k: string)
    requires Enabled(s, l) && Paired(s.delay) && Leftovers(s)
    ensures LeftoverAt(Apply(s, l), k)
  {
    hide Paired, Owner, Pending, Leftovers, Settled, Handle;
    StepSettled(s, l, k);
    LeftoverHolds(s, k);
    SettledSource(s, k);
    EndedStays(s, l);
  }

  lemma {:induction false} LeftoverHolds(s: State, k: string)
    requires Leftovers(s)
    ensures LeftoverAt(s, k)
  {
  }

  lemma {:induction false} EndedStays(s: State, l: Label)
    requires Enabled(s, l)
    ensures forall e <- s.ended :: e in Apply(s, l).ended
  {
  }

  // A command sets the timer of its key, if any, and leaves the others alone.
  lemma {:induction false} HandledTimer(d: Delay, cmd: Command, now: nat, t: nat)
    requires Paired(d) && t in Handle(d, cmd, now).queue
    ensures var timer := Handle(d, cmd, now).queue[t];
            if timer.key != cmd.key then t in d.queue && timer == d.queue[t]
            else if cmd.InsertCmd? then cmd.ttl.Some? && timer == Timer(cmd.key, now + cmd.ttl.value, cmd.id)
            else cmd.RefreshCmd? && Owner(d, cmd.key) == Some(timer.owner) && timer.deadline == now + cmd.life
  {
  }

  // A timer set by a command is on time: the command's own insertion owns it.
  lemma {:induction false} HandleOnTime(s: State, t: nat)
    requires s.purge.Ready? && s.channel != [] && Paired(s.delay) && Births(s) && Deadlines(s)
    requires t in Apply(s, Receive).delay.queue
    ensures OnTime(Apply(s, Receive), Apply(s, Receive).delay.queue[t])
  {
    hide Handle, Paired, Owner;
    var cmd := s.channel[0];
    assert Pending(s)[0] == cmd && Pending(s)[..0] == [];
    assert CommandOk(s, 0);
    assert After(Owner(s.delay, cmd.key), [], cmd.key) == Owner(s.delay, cmd.key);
    HandledTimer(s.delay, cmd, s.now, t);
    if t in s.delay.queue { assert OnTime(s, s.delay.queue[t]); }
  }

  lemma {:induction false} SameBirths(s: State, l: Label)
    requires Enabled(s, l) && Births(s)
    ensures forall id <- s.born :: id in Apply(s, l).born && Apply(s, l).born[id] == s.born[id]
  {
  }

  lemma {:induction false} StepTimers(s: State, l: Label)
    requires Enabled(s, l) && Paired(s.delay) && Births(s) && Deadlines(s)
    ensures var s' := Apply(s, l);
            && (forall t <- s'.delay.queue :: OnTime(s', s'.delay.queue[t]))
            && (s'.purge.Popped? ==> OnTime(s', s'.purge.timer) && s'.purge.timer.deadline <= s'.now)
  {
    hide Births, Paired, Pending, Handle;
    var s' := Apply(s, l);
    SameBirths(s, l);
    forall t | t in s'.delay.queue ensures OnTime(s', s'.delay.queue[t]) {
      if l.Receive? { HandleOnTime(s, t); } else { assert OnTime(s, s.delay.queue[t]); }
    }
  }

  // The refresh sent for a value finds no timer, or that of the value.
  lemma {:induction false} RefreshOk(s: State, k: string)
    requires k in s.values && LatestAt(s, k)
    ensures Settled(s, k) in {None, Some(s.values[k].id)}
  {
    SettledSource(s, k);
  }

  lemma {:induction false} StepBefore(s: State, l: Label, i: nat, k: string)
    requires Enabled(s, l) && Paired(s.delay) && i <= |Pending(s)| && (l.Receive? ==> 0 < i)
    ensures var p, p' := Pending(s), Pending(Apply(s, l));
            var j := if l.Receive? then i - 1 else i;
            j <= |p'| && After(Owner(Apply(s, l).delay, k), p'[..j], k) in {None, After(Owner(s.delay, k), p[..i], k)}
  {
    hide Paired, Owner, Apply, Pending;
    var p, p', o := Pending(s), Pending(Apply(s, l)), Owner(s.delay, k);
    StepOwner(s, l, k);
    StepPending(s, l);
    AfterSource(o, p[..i], k);
    if l.Receive? {
      AfterHead(o, p[..i], k);
      assert p[..i][1..] == p'[..i - 1];
    } else {
      assert p'[..i] == p[..i];
    }
  }

  lemma {:induction false} StepCommand(s: State, l: Label, j: nat)
    requires Enabled(s, l) && Paired(s.delay) && Births(s) && Latest(s) && Deadlines(s) && j < |Pending(Apply(s, l))|
    ensures CommandOk(Apply(s, l), j)
  {
    hide Paired, Owner, Pending, Latest;
    var p, p' := Pending(s), Pending(Apply(s, l));
    var i := if l.Receive? then j + 1 else j;
    StepPending(s, l);
    SameBirths(s, l);
    StepBefore(s, l, i, p'[j].key);
    if i < |p| {
      assert CommandOk(s, i);
    } else if l.Refresh? {
      LatestHolds(s, l.key);
      RefreshOk(s, l.key);
      assert p[..|p|] == p;
    }
  }

  lemma {:induction false} StepInv(s: State, l: Label)
    requires Enabled(s, l) && Inv(s)
    ensures Inv(Apply(s, l))
  {
    hide Paired, Unarmed, Ledger, Births, Rising, Enabled, Apply, LatestAt, TimedAt, LeftoverAt, CommandOk;
    var s' := Apply(s, l);
    StepPaired(s, l);
    StepLedger(s, l);
    StepBirths(s, l);
    StepRising(s, l);
    forall k | k in s'.values ensures LatestAt(s', k) { StepLatest(s, l, k); }
    forall k | Kept(s', k) ensures TimedAt(s', k) { StepTimed(s, l, k); }
    forall k ensures LeftoverAt(s', k) { StepLeftovers(s, l, k); }
    StepTimers(s, l);
    forall i | 0 <= i < |Pending(s')| ensures CommandOk(s', i) { StepCommand(s, l, i); }
  }

  // ---------------------------------------------------------------- whole runs

  ghost predicate Run(s: State, labels: seq<Label>, s': State)
    decreases |labels|
  {
    if labels == [] then s' == s else Enabled(s, labels[0]) && Run(Apply(s, labels[0]), labels[1..], s')
  }

  lemma {:induction false} RunInv(s: State, labels: seq<Label>, s': State)
    requires Inv(s) && Run(s, labels, s')
    ensures Inv(s')
    decreases |labels|
  {
    hide Inv, Apply, Enabled;
    if labels != [] {
      StepInv(s, labels[0]);
      RunInv(Apply(s, labels[0]), labels[1..], s');
    }
  }
}

/**
The operations of the TTL cache in place (base/src/cache/mod.rs), each proved to be the step, or the
two steps, that TtlCache gives for it. `QueueRemove` and `QueueReset` are the operations of the delay
queue that panic on a token it does not know; no call meets one.
*/
module PurgeTask {
  import opened Options
  import opened TtlCache

  class Cache {
    var values: map<string, Value>
    var channel: seq<Command>
    var keyMap: map<string, nat>
    var queue: map<nat, Timer>
    var nextToken: nat
    var now: nat
    var nextId: nat
    ghost var client: Client
    ghost var purge: Purge
    ghost var born: map<nat, Birth>
    ghost var askedAt: map<nat, nat>
    ghost var armedAt: map<nat, nat>
    ghost var ended: seq<(nat, Ending)>

    ghost function Now(): State
      reads this
    {
      State(values, channel, Delay(keyMap, queue, nextToken), client, purge, now, nextId, born, askedAt, armedAt, ended)
    }

    constructor ()
      ensures Now() == Init && Inv(Now())
    {
      values, channel, keyMap, queue, nextToken, now, nextId := map[], [], map[], map[], 0, 0, 0;
      client, purge, born, askedAt, armedAt, ended := Idle, Ready, map[], map[], map[], [];
      new;
      InitInv();
    }

    // ---------------------------------------------------------------- the delay queue

    method QueueInsert(key: string, deadline: nat, owner: nat) returns (token: nat)
      requires Paired(Now().delay)
      modifies this`queue, this`nextToken
      ensures token !in old(queue) && token == old(nextToken) && nextToken == token + 1
      ensures queue == old(queue)[token := Timer(key, deadline, owner)]
    {
      token := nextToken;
      queue, nextToken := queue[token := Timer(key, deadline, owner)], nextToken + 1;
    }

    method QueueRemove(token: nat)
      requires token in queue
      modifies this`queue
      ensures queue == old(queue) - {token}
    {
      queue := queue - {token};
    }

    method QueueReset(token: nat, deadline: nat, owner: nat)
      requires token in queue
      modifies this`queue
      ensures queue == old(queue)[token := Timer(old(queue)[token].key, deadline, owner)]
    {
      queue := queue[token := Timer(queue[token].key, deadline, owner)];
    }

    // ---------------------------------------------------------------- the purge task

    method Disarm(key: string)
      requires Paired(Now().delay)
      modifies this`keyMap, this`queue
      ensures Now().delay == TtlCache.Disarm(old(Now().delay), key)
    {
      if key in keyMap {
        var token := keyMap[key];
        keyMap := keyMap - {key};
        QueueRemove(token);
      }
    }

    method Arm(key: string, deadline: nat, owner: nat)
      requires Paired(Now().delay)
      modifies this`keyMap, this`queue, this`nextToken
      ensures Now().delay == TtlCache.Arm(old(Now().delay), key, deadline, owner)
    {
      if key in keyMap {
        QueueReset(keyMap[key], deadline, owner);
      } else {
        var token := QueueInsert(key, deadline, owner);
        keyMap := keyMap[key := token];
      }
    }

    method HandleCommand(cmd: Command)
      requires Paired(Now().delay)
      modifies this`keyMap, this`queue, this`nextToken
      ensures Now().delay == TtlCache.Handle(old(Now().delay), cmd, now)
    {
      match cmd {
        case InsertCmd(key, ttl, id, _) =>
          if ttl.None? { Disarm(key); } else { Arm(key, now + ttl.value, id); }
        case RemoveCmd(key) => Disarm(key);
        case RefreshCmd(key, life, _, _) =>
          if key in keyMap { QueueReset(keyMap[key], now + life, queue[keyMap[key]].owner); }
      }
    }

    // One command from the channel.
    method ReceiveCommand()
      requires Inv(Now()) && Enabled(Now(), Receive)
      modifies this`channel, this`keyMap, this`queue, this`nextToken, this`armedAt
      ensures Now() == Apply(old(Now()), Receive) && Inv(Now())
    {
      hide Inv, TtlCache.Handle;
      InvPaired(Now());
      StepInv(Now(), Receive);
      var cmd := channel[0];
      HandleCommand(cmd);
      channel := channel[1..];
      armedAt := ArmedAt(armedAt, cmd, now);
    }

    // The expired entry of the queue, and the removal of its key.
    method TakeExpired(token: nat) returns (key: string)
      requires Inv(Now()) && Enabled(Now(), Pop(token))
      modifies this`keyMap, this`queue, this`purge
      ensures Now() == Apply(old(Now()), Pop(token)) && Inv(Now())
      ensures purge == Popped(old(queue)[token]) && key == old(queue)[token].key
    {
      StepInv(Now(), Pop(token));
      var timer := queue[token];
      key := timer.key;
      QueueRemove(token);
      keyMap := keyMap - {key};
      purge := Popped(timer);
    }

    // The removal of the key from the shared map; the value found is handed to the expiry channel.
    method ExpireKey(key: string) returns (expired: Option<Value>)
      requires Inv(Now()) && Enabled(Now(), Expire) && key == purge.timer.key
      modifies this`values, this`purge, this`ended
      ensures Now() == Apply(old(Now()), Expire) && Inv(Now())
      ensures expired == if key in old(values) then Some(old(values)[key]) else None
      ensures values == old(values) - {key}
    {
      hide Inv;
      StepInv(Now(), Expire);
      expired := TakeKey(key, Expired);
      purge := Ready;
    }

    method TakeKey(key: string, ghost how: Ending) returns (taken: Option<Value>)
      modifies this`values, this`ended
      ensures Now() == Leave(old(Now()), key, how)
      ensures taken == if key in old(values) then Some(old(values)[key]) else None
    {
      taken := None;
      if key in values {
        taken := Some(values[key]);
        values := values - {key};
        ended := ended + [(taken.value.id, how)];
      }
    }

    // ---------------------------------------------------------------- the client's calls, undisturbed

    method Insert(key: string, ttl: Option<nat>)
      requires Inv(Now()) && client.Idle?
      modifies this`values, this`channel, this`nextId, this`born, this`askedAt, this`ended, this`client
      ensures Now() == Apply(Apply(old(Now()), InsertMap(key, ttl)), InsertSend) && Inv(Now())
      ensures values == old(values)[key := Value(old(nextId), ttl)] && client.Idle?
      ensures channel == old(channel) + [InsertCmd(key, ttl, old(nextId), now)]
    {
      hide Inv;
      StepInv(Now(), InsertMap(key, ttl));
      StepInv(Apply(Now(), InsertMap(key, ttl)), InsertSend);
      var replaced := TakeKey(key, Replaced);
      var v := Value(nextId, ttl);
      values, nextId, born := values[key := v], nextId + 1, born[nextId := Birth(key, now, ttl)];
      askedAt := askedAt[v.id := now];
      channel := channel + [InsertCmd(key, ttl, v.id, now)];
    }

    method Remove(key: string) returns (removed: Option<Value>)
      requires Inv(Now()) && client.Idle?
      modifies this`values, this`channel, this`ended, this`client
      ensures Now() == Apply(Apply(old(Now()), RemoveSend(key)), RemoveMap) && Inv(Now())
      ensures removed == if key in old(values) then Some(old(values)[key]) else None
      ensures values == old(values) - {key} && channel == old(channel) + [RemoveCmd(key)]
    {
      hide Inv;
      StepInv(Now(), RemoveSend(key));
      StepInv(Apply(Now(), RemoveSend(key)), RemoveMap);
      channel := channel + [RemoveCmd(key)];
      removed := TakeKey(key, Returned);
    }

    method RefreshKey(key: string)
      requires Inv(Now()) && client.Idle?
      modifies this`channel, this`askedAt
      ensures Now() == Apply(old(Now()), Refresh(key)) && Inv(Now())
      ensures channel == old(channel) +
        if key in values && values[key].ttl.Some?
        then [RefreshCmd(key, values[key].ttl.value, values[key].id, now)] else []
    {
      hide Inv;
      StepInv(Now(), Refresh(key));
      if key in values && values[key].ttl.Some? {
        channel := channel + [RefreshCmd(key, values[key].ttl.value, values[key].id, now)];
        askedAt := askedAt[values[key].id := now];
      }
    }
  }

  lemma {:induction false} InvPaired(s: State)
    requires Inv(s)
    ensures Paired(s.delay)
  {
  }
}

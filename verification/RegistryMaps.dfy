/**
The TCP writer registry (base/src/net/rw.rs): a map from peer address to the registered sink, and a
map from IP to the registrations of that IP, oldest first. The methods of `Tables` are the bodies
of the sections that hold the registry lock; the functions give their meaning, and the history of
those sections gives an independent account of what the two maps should hold.
*/
module RegistryMaps {

  import opened Options

  datatype Addr = Addr(ip: nat, port: nat)

  datatype Registration = Registration(addr: Addr, id: nat)

  datatype Sink = Sink(id: nat, direct: bool)

  datatype Registered = Registered(registration: Registration, sink: Sink)

  datatype Maps = Maps(writers: map<Addr, Registered>, byIp: map<nat, seq<Registration>>)

  // ---------------------------------------------------------------- the locked sections

  // `Vec::retain(|item| item.remote_addr != addr)`
  function WithoutAddr(list: seq<Registration>, addr: Addr): (r: seq<Registration>)
    ensures forall x :: x in r <==> x in list && x.addr != addr
  {
    if list == [] then []
    else
      var n := |list| - 1;
      assert list == list[..n] + [list[n]];
      WithoutAddr(list[..n], addr) + if list[n].addr != addr then [list[n]] else []
  }

  function Without(list: seq<Registration>, reg: Registration): (r: seq<Registration>)
    ensures forall x :: x in r <==> x in list && x != reg
  {
    if list == [] then []
    else
      var n := |list| - 1;
      assert list == list[..n] + [list[n]];
      Without(list[..n], reg) + if list[n] != reg then [list[n]] else []
  }

  function Listed(m: Maps, ip: nat): seq<Registration> {
    if ip in m.byIp then m.byIp[ip] else []
  }

  function Insert(m: Maps, reg: Registration, sink: Sink): Maps {
    var list := WithoutAddr(Listed(m, reg.addr.ip), reg.addr) + [reg];
    Maps(m.writers[reg.addr := Registered(reg, sink)], m.byIp[reg.addr.ip := list])
  }

  // Whether a removal that expects `id` (or any id) takes the present registration of `addr`.
  predicate Removes(m: Maps, addr: Addr, expected: Option<nat>) {
    addr in m.writers && (expected.Some? ==> expected.value == m.writers[addr].registration.id)
  }

  function Remove(m: Maps, addr: Addr): Maps
    requires addr in m.writers
  {
    var byIp :=
      if addr.ip in m.byIp then
        var list := Without(m.byIp[addr.ip], m.writers[addr].registration);
        if list == [] then m.byIp - {addr.ip} else m.byIp[addr.ip := list]
      else m.byIp;
    Maps(m.writers - {addr}, byIp)
  }

  // The last registration of the list that is still the one registered for its address.
  function LastRegistered(m: Maps, list: seq<Registration>): (r: Option<Sink>)
    ensures r.Some? <==> exists reg <- list :: reg.addr in m.writers && m.writers[reg.addr].registration == reg
  {
    if list == [] then None
    else
      var last := list[|list| - 1];
      assert forall reg <- list :: reg == last || reg in list[..|list| - 1];
      if last.addr in m.writers && m.writers[last.addr].registration == last then Some(m.writers[last.addr].sink)
      else LastRegistered(m, list[..|list| - 1])
  }

  // `tcp_sink_by_ip`
  function SinkByIp(m: Maps, ip: nat): Option<Sink> { LastRegistered(m, Listed(m, ip)) }

  method RetainOtherAddrs(list: seq<Registration>, addr: Addr) returns (kept: seq<Registration>)
    ensures kept == WithoutAddr(list, addr)
  {
    kept := [];
    for i := 0 to |list|
      invariant kept == WithoutAddr(list[..i], addr)
    {
      assert list[..i + 1][..i] == list[..i];
      if list[i].addr != addr {
        kept := kept + [list[i]];
      }
    }
    assert list[..|list|] == list;
  }

  method RetainOthers(list: seq<Registration>, reg: Registration) returns (kept: seq<Registration>)
    ensures kept == Without(list, reg)
  {
    kept := [];
    for i := 0 to |list|
      invariant kept == Without(list[..i], reg)
    {
      assert list[..i + 1][..i] == list[..i];
      if list[i] != reg {
        kept := kept + [list[i]];
      }
    }
    assert list[..|list|] == list;
  }

  // The registry's two maps, as the source updates them in place.
  class Tables {
    var writers: map<Addr, Registered>
    var byIp: map<nat, seq<Registration>>

    ghost function State(): Maps
      reads this
    {
      Maps(writers, byIp)
    }

    constructor ()
      ensures State() == Maps(map[], map[])
    {
      writers, byIp := map[], map[];
    }

    // The locked section of `insert_tcp_sink`; returns the sink it replaced.
    method InsertLocked(reg: Registration, sink: Sink) returns (previous: Option<Sink>)
      modifies this
      ensures State() == Insert(old(State()), reg, sink)
      ensures previous == if reg.addr in old(writers) then Some(old(writers)[reg.addr].sink) else None
    {
      previous := if reg.addr in writers then Some(writers[reg.addr].sink) else None;
      writers := writers[reg.addr := Registered(reg, sink)];
      if reg.addr.ip !in byIp {
        byIp := byIp[reg.addr.ip := []];
      }
      var kept := RetainOtherAddrs(byIp[reg.addr.ip], reg.addr);
      byIp := byIp[reg.addr.ip := kept + [reg]];
    }

    // `remove_tcp_writer_inner`: nothing happens unless the present registration is the expected one.
    method RemoveLocked(addr: Addr, expected: Option<nat>) returns (sink: Option<Sink>)
      modifies this
      ensures addr !in old(writers) || (expected.Some? && expected.value != old(writers)[addr].registration.id) ==>
        State() == old(State()) && sink == None
      ensures addr in old(writers) && (expected.None? || expected == Some(old(writers)[addr].registration.id)) ==>
        && State() == Remove(old(State()), addr) && writers == old(writers) - {addr}
        && sink == Some(old(writers)[addr].sink)
    {
      if addr !in writers {
        return None;
      }
      var registered := writers[addr];
      if expected.Some? && expected.value != registered.registration.id {
        return None;
      }
      writers := writers - {addr};
      var emptied := false;
      if addr.ip in byIp {
        var kept := RetainOthers(byIp[addr.ip], registered.registration);
        byIp := byIp[addr.ip := kept];
        emptied := kept == [];
      }
      if emptied {
        byIp := byIp - {addr.ip};
      }
      sink := Some(registered.sink);
    }

    // `tcp_sink_by_ip`
    method FindByIp(ip: nat) returns (sink: Option<Sink>)
      ensures sink == SinkByIp(State(), ip)
    {
      if ip !in byIp {
        return None;
      }
      var list := byIp[ip];
      var i := |list|;
      assert list[..i] == list;
      while i > 0
        invariant 0 <= i <= |list|
        invariant LastRegistered(State(), list) == LastRegistered(State(), list[..i])
      {
        i := i - 1;
        assert list[..i + 1][..i] == list[..i];
        var reg := list[i];
        if reg.addr in writers && writers[reg.addr].registration == reg {
          return Some(writers[reg.addr].sink);
        }
      }
      sink := None;
    }

    // The locked section of `close`.
    method ClearLocked()
      modifies this
      ensures State() == Maps(map[], map[])
    {
      writers, byIp := map[], map[];
    }
  }

  // ---------------------------------------------------------------- agreement of the two maps

  ghost predicate DistinctAddrs(list: seq<Registration>) {
    forall j, k :: 0 <= j < k < |list| ==> list[j].addr != list[k].addr
  }

  // Both maps describe the same registrations: no empty list, no repeated address.
  ghost predicate Agree(m: Maps) {
    && (forall a <- m.writers :: m.writers[a].registration.addr == a)
    && (forall ip <- m.byIp :: m.byIp[ip] != [] && DistinctAddrs(m.byIp[ip]))
    && (forall ip, reg {:trigger reg in m.byIp[ip]} :: ip in m.byIp && reg in m.byIp[ip] ==>
          reg.addr.ip == ip && reg.addr in m.writers && m.writers[reg.addr].registration == reg)
    && (forall a <- m.writers :: a.ip in m.byIp && m.writers[a].registration in m.byIp[a.ip])
  }

  lemma {:induction false} WithoutAddrDistinct(list: seq<Registration>, addr: Addr)
    requires DistinctAddrs(list)
    ensures DistinctAddrs(WithoutAddr(list, addr))
  {
    if list != [] {
      var n := |list| - 1;
      WithoutAddrDistinct(list[..n], addr);
      var kept := WithoutAddr(list[..n], addr);
      forall k | 0 <= k < |kept|
        ensures kept[k].addr != list[n].addr
      {
        assert kept[k] in kept && kept[k] in list[..n];
      }
    }
  }

  lemma {:induction false} WithoutIsWithoutAddr(list: seq<Registration>, reg: Registration)
    requires DistinctAddrs(list) && reg in list
    ensures Without(list, reg) == WithoutAddr(list, reg.addr)
  {
    var n := |list| - 1;
    assert list == list[..n] + [list[n]];
    if reg == list[n] {
      WithoutAbsent(list[..n], reg);
      WithoutAddrAbsent(list[..n], reg.addr);
    } else {
      WithoutIsWithoutAddr(list[..n], reg);
    }
  }

  lemma {:induction false} WithoutAbsent(list: seq<Registration>, reg: Registration)
    requires forall k :: 0 <= k < |list| ==> list[k] != reg
    ensures Without(list, reg) == list
  {
    if list != [] {
      WithoutAbsent(list[..|list| - 1], reg);
    }
  }

  lemma {:induction false} WithoutAddrAbsent(list: seq<Registration>, addr: Addr)
    requires forall k :: 0 <= k < |list| ==> list[k].addr != addr
    ensures WithoutAddr(list, addr) == list
  {
    if list != [] {
      var n := |list| - 1;
      WithoutAddrAbsent(list[..n], addr);
      assert list == list[..n] + [list[n]];
      assert list[n].addr != addr;
    }
  }

  lemma {:induction false} InsertAgrees(m: Maps, reg: Registration, sink: Sink)
    requires Agree(m)
    ensures Agree(Insert(m, reg, sink))
  {
    var m' := Insert(m, reg, sink);
    var kept := WithoutAddr(Listed(m, reg.addr.ip), reg.addr);
    WithoutAddrDistinct(Listed(m, reg.addr.ip), reg.addr);
    assert m'.byIp[reg.addr.ip] == kept + [reg];
    forall k | 0 <= k < |kept|
      ensures kept[k].addr != reg.addr
    {
      assert kept[k] in kept;
    }
    assert forall x :: x in kept + [reg] <==> x in kept || x == reg;
  }

  lemma {:induction false} RemoveAgrees(m: Maps, addr: Addr)
    requires Agree(m) && addr in m.writers
    ensures Agree(Remove(m, addr))
  {
    hide Without, WithoutAddr;
    var list := m.byIp[addr.ip];
    WithoutIsWithoutAddr(list, m.writers[addr].registration);
    WithoutAddrDistinct(list, addr);
  }

  // ---------------------------------------------------------------- history of the locked sections

  // What a locked section did: registered a sink, unregistered an address, or cleared everything.
  datatype Event = Inserted(reg: Registration) | Unregistered(addr: Addr) | Cleared

  predicate Ends(e: Event, addr: Addr) {
    match e
    case Inserted(reg) => reg.addr == addr
    case Unregistered(a) => a == addr
    case Cleared => true
  }

  // The i-th event registered a sink, and no later event replaced, unregistered or cleared it.
  ghost predicate LiveAt(log: seq<Event>, i: nat) {
    i < |log| && log[i].Inserted? && forall j :: i < j < |log| ==> !Ends(log[j], log[i].reg.addr)
  }

  ghost predicate At(log: seq<Event>, i: nat, reg: Registration) { LiveAt(log, i) && log[i].reg == reg }

  // The list is in the order of registration.
  ghost predicate Ordered(log: seq<Event>, list: seq<Registration>) {
    forall j, k, x: nat, y: nat {:trigger At(log, x, list[j]), At(log, y, list[k])} ::
      0 <= j < k < |list| && At(log, x, list[j]) && At(log, y, list[k]) ==> x < y
  }

  // The maps hold exactly the live registrations of the history, each list in its order.
  ghost predicate Tracks(log: seq<Event>, m: Maps) {
    && (forall i: nat :: LiveAt(log, i) ==>
          log[i].reg.addr in m.writers && m.writers[log[i].reg.addr].registration == log[i].reg)
    && (forall a <- m.writers :: exists i: nat :: At(log, i, m.writers[a].registration))
    && (forall ip <- m.byIp :: Ordered(log, m.byIp[ip]))
  }

  // Appending an event ends the registrations it ends and no other.
  lemma {:induction false} LiveAfter(log: seq<Event>, e: Event, i: nat)
    ensures LiveAt(log + [e], i) <==>
      if i < |log| then LiveAt(log, i) && !Ends(e, log[i].reg.addr) else i == |log| && e.Inserted?
  {
    var log' := log + [e];
    if i < |log| {
      assert log'[i] == log[i];
      if LiveAt(log', i) {
        assert forall j :: i < j < |log| ==> log'[j] == log[j];
        assert log'[|log|] == e;
      }
      if LiveAt(log, i) && !Ends(e, log[i].reg.addr) {
        assert forall j :: i < j < |log'| ==> log'[j] == if j < |log| then log[j] else e;
      }
    }
  }

  lemma {:induction false} OrderedAfter(log: seq<Event>, e: Event, list: seq<Registration>, addr: Addr)
    requires Ordered(log, list)
    requires forall reg <- list :: reg.addr != addr ==> !(e.Inserted? && e.reg == reg)
    ensures Ordered(log + [e], WithoutAddr(list, addr))
  {
    var log' := log + [e];
    if list != [] {
      var n := |list| - 1;
      var init, last := list[..n], list[n];
      assert list == init + [last];
      assert Ordered(log, init) by {
        assert forall j :: 0 <= j < n ==> init[j] == list[j];
      }
      OrderedAfter(log, e, init, addr);
      var kept := WithoutAddr(init, addr);
      if last.addr != addr {
        forall j, x: nat, y: nat | 0 <= j < |kept| && At(log', x, kept[j]) && At(log', y, last)
          ensures x < y
        {
          assert kept[j] in kept && kept[j] in init;
          var j' :| 0 <= j' < n && init[j'] == kept[j];
          LiveAfter(log, e, x);
          LiveAfter(log, e, y);
          assert At(log, x, list[j']) && At(log, y, list[n]);
        }
      }
    }
  }

  lemma {:induction false} InsertTracks(log: seq<Event>, m: Maps, reg: Registration, sink: Sink)
    requires Agree(m) && Tracks(log, m)
    requires forall i: nat :: i < |log| && log[i].Inserted? ==> log[i].reg.id != reg.id
    ensures Tracks(log + [Inserted(reg)], Insert(m, reg, sink))
  {
    var log', m' := log + [Inserted(reg)], Insert(m, reg, sink);
    forall i: nat
      ensures LiveAt(log', i) <==> if i < |log| then LiveAt(log, i) && log[i].reg.addr != reg.addr else i == |log|
      ensures i < |log| ==> log'[i] == log[i]
    {
      LiveAfter(log, Inserted(reg), i);
    }
    assert At(log', |log|, reg);
    forall a | a in m'.writers && a != reg.addr
      ensures exists i: nat :: At(log', i, m'.writers[a].registration)
    {
      var i: nat :| At(log, i, m.writers[a].registration);
      assert At(log', i, m'.writers[a].registration);
    }
    forall ip | ip in m'.byIp
      ensures Ordered(log', m'.byIp[ip])
    {
      OrderedInsert(log, m, reg, ip);
    }
  }

  lemma {:induction false} OrderedInsert(log: seq<Event>, m: Maps, reg: Registration, ip: nat)
    requires Agree(m) && Tracks(log, m) && (ip in m.byIp || ip == reg.addr.ip)
    requires forall i: nat :: i < |log| && log[i].Inserted? ==> log[i].reg.id != reg.id
    ensures var list := Listed(m, ip);
      Ordered(log + [Inserted(reg)], if ip == reg.addr.ip then WithoutAddr(list, reg.addr) + [reg] else list)
  {
    var list, log' := Listed(m, ip), log + [Inserted(reg)];
    var kept := WithoutAddr(list, reg.addr);
    forall r | r in list && r.addr != reg.addr
      ensures r != reg
    {
    }
    OrderedAfter(log, Inserted(reg), list, reg.addr);
    if ip == reg.addr.ip {
      forall j, x: nat, y: nat | 0 <= j < |kept| && At(log', x, kept[j]) && At(log', y, reg)
        ensures x < y
      {
        assert kept[j] in kept;
        LiveAfter(log, Inserted(reg), x);
        LiveAfter(log, Inserted(reg), y);
      }
    } else {
      OtherIp(m, ip, reg);
    }
  }

  lemma {:induction false} OtherIp(m: Maps, ip: nat, reg: Registration)
    requires Agree(m) && ip != reg.addr.ip
    ensures WithoutAddr(Listed(m, ip), reg.addr) == Listed(m, ip)
  {
    var list := Listed(m, ip);
    forall k | 0 <= k < |list|
      ensures list[k].addr != reg.addr
    {
      assert list[k] in list;
    }
    WithoutAddrAbsent(list, reg.addr);
  }

  lemma {:induction false} RemoveTracks(log: seq<Event>, m: Maps, addr: Addr)
    requires Agree(m) && Tracks(log, m) && addr in m.writers
    ensures Tracks(log + [Unregistered(addr)], Remove(m, addr))
  {
    var e := Unregistered(addr);
    hide Without, WithoutAddr, Ordered;
    var log', m' := log + [e], Remove(m, addr);
    forall i: nat
      ensures LiveAt(log', i) <==> i < |log| && LiveAt(log, i) && log[i].reg.addr != addr
      ensures i < |log| ==> log'[i] == log[i]
    {
      LiveAfter(log, e, i);
    }
    forall a | a in m'.writers
      ensures exists i: nat :: At(log', i, m'.writers[a].registration)
    {
      var i: nat :| At(log, i, m.writers[a].registration);
      assert At(log', i, m'.writers[a].registration);
    }
    forall ip | ip in m'.byIp
      ensures Ordered(log', m'.byIp[ip])
    {
      OrderedRemove(log, m, addr, ip);
    }
  }

  lemma {:induction false} OrderedRemove(log: seq<Event>, m: Maps, addr: Addr, ip: nat)
    requires Agree(m) && Tracks(log, m) && addr in m.writers && ip in Remove(m, addr).byIp
    ensures Ordered(log + [Unregistered(addr)], Remove(m, addr).byIp[ip])
  {
    hide Without, WithoutAddr, Ordered;
    WithoutIsWithoutAddr(m.byIp[addr.ip], m.writers[addr].registration);
    OrderedAfter(log, Unregistered(addr), m.byIp[ip], addr);
    if ip != addr.ip {
      OtherIp(m, ip, m.writers[addr].registration);
    }
  }

  lemma {:induction false} ClearTracks(log: seq<Event>)
    ensures Tracks(log + [Cleared], Maps(map[], map[]))
  {
    forall i: nat
      ensures !LiveAt(log + [Cleared], i)
    {
      LiveAfter(log, Cleared, i);
    }
  }

  // Looking up an IP finds the sink of the most recent live registration of that IP, if there is one.
  lemma {:induction false} LookupFindsLatest(log: seq<Event>, m: Maps, ip: nat)
    requires Agree(m) && Tracks(log, m)
    ensures SinkByIp(m, ip).None? ==> forall i: nat :: LiveAt(log, i) ==> log[i].reg.addr.ip != ip
    ensures SinkByIp(m, ip).Some? ==> exists i: nat ::
      && LiveAt(log, i) && log[i].reg.addr.ip == ip
      && m.writers[log[i].reg.addr] == Registered(log[i].reg, SinkByIp(m, ip).value)
      && forall j: nat :: i < j && LiveAt(log, j) ==> log[j].reg.addr.ip != ip
  {
    var list := Listed(m, ip);
    forall j: nat | LiveAt(log, j) && log[j].reg.addr.ip == ip
      ensures log[j].reg in list
    {
    }
    if list != [] {
      var n := |list| - 1;
      var last := list[n];
      assert last in list;
      assert SinkByIp(m, ip) == Some(m.writers[last.addr].sink);
      var i: nat :| At(log, i, m.writers[last.addr].registration);
      forall j: nat | i < j && LiveAt(log, j)
        ensures log[j].reg.addr.ip != ip
      {
        if log[j].reg.addr.ip == ip {
          var k :| 0 <= k < |list| && list[k] == log[j].reg;
          LastIsLatest(log, list, i, j, k);
          assert false;
        }
      }
    }
  }

  lemma {:induction false} LastIsLatest(log: seq<Event>, list: seq<Registration>, i: nat, j: nat, k: nat)
    requires Ordered(log, list) && k < |list| && At(log, i, list[|list| - 1]) && At(log, j, list[k])
    ensures j <= i
  {
    assert log[j].Inserted? && Ends(log[j], log[j].reg.addr);
  }
}

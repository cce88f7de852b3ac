/**
The order in which an application's runtimes are shut down (base/src/utils/rt.rs): the declared
order without repetitions and without Main, then whatever else is registered, by thread name.
*/
module ShutdownOrder {

  datatype RuntimeType =
    | Main | CommonNetwork | HttpApi | WebSocket | RpcService | MessageQueue | CommonIO | FileProcessing
    | Database | CacheService | CommonCompute | DataProcessing | ImageProcessing | MachineLearning
    | Custom(name: string)

  function AsThreadName(t: RuntimeType): string {
    match t
    case Main => "main"
    case CommonNetwork => "common-network"
    case HttpApi => "http-api"
    case WebSocket => "websocket"
    case RpcService => "rpc-service"
    case MessageQueue => "message-queue"
    case CommonIO => "common-io"
    case FileProcessing => "file-processing"
    case Database => "database"
    case CacheService => "cache-service"
    case CommonCompute => "common-compute"
    case DataProcessing => "data-processing"
    case ImageProcessing => "image-processing"
    case MachineLearning => "machine-learning"
    case Custom(s) => "custom-" + s
  }

  // What tells the thread names apart: length, two letters at the front and one further on.
  function Signature(n: string): (nat, char, char, char)
    requires |n| >= 2
  {
    (|n|, n[0], n[1], if |n| > 7 then n[7] else ' ')
  }

  // No two runtime types have the same thread name, whatever a custom one is called.
  lemma {:induction false} NamesDiffer(a: RuntimeType, b: RuntimeType)
    requires AsThreadName(a) == AsThreadName(b)
    ensures a == b
  {
    var m, n := AsThreadName(a), AsThreadName(b);
    assert |m| >= 2 && Signature(m) == Signature(n);
    if a.Custom? && b.Custom? {
      assert m[7..] == a.name && n[7..] == b.name;
    }
  }

  // ---------------------------------------------------------------- strings in order

  predicate Less(a: string, b: string) {
    if b == [] then false
    else if a == [] then true
    else a[0] < b[0] || (a[0] == b[0] && Less(a[1..], b[1..]))
  }

  // a and b agree up to position k, where a ends or has the smaller character.
  ghost predicate DiffersAt(a: string, b: string, k: nat) {
    k <= |a| && k < |b| && a[..k] == b[..k] && (k < |a| ==> a[k] < b[k])
  }

  // Strings are compared character by character from the front; a proper prefix comes first.
  lemma {:induction false} LessMeans(a: string, b: string)
    ensures Less(a, b) <==> exists k: nat :: DiffersAt(a, b, k)
  {
    if a == [] || b == [] || a[0] != b[0] {
      assert b != [] && (a == [] || a[0] < b[0]) ==> DiffersAt(a, b, 0);
      assert forall k: nat :: k > 0 ==> !DiffersAt(a, b, k) by {
        assert forall k: nat :: 0 < k <= |a| ==> a[..k][0] == a[0];
        assert forall k: nat :: 0 < k <= |b| ==> b[..k][0] == b[0];
      }
    } else {
      LessMeans(a[1..], b[1..]);
      forall k: nat
        ensures DiffersAt(a, b, k + 1) <==> DiffersAt(a[1..], b[1..], k)
      {
        DiffersLater(a, b, k);
      }
      assert forall k: nat :: DiffersAt(a, b, k) ==> DiffersAt(a[1..], b[1..], k - 1);
    }
  }

  lemma {:induction false} DiffersLater(a: string, b: string, k: nat)
    requires a != [] && b != [] && a[0] == b[0]
    ensures DiffersAt(a, b, k + 1) <==> DiffersAt(a[1..], b[1..], k)
  {
    if k + 1 <= |a| && k + 1 < |b| {
      assert a[..k + 1] == [a[0]] + a[1..][..k] && b[..k + 1] == [b[0]] + b[1..][..k];
    }
  }

  lemma {:induction false} LessTransitive(a: string, b: string, c: string)
    requires Less(a, b) && Less(b, c)
    ensures Less(a, c)
  {
    if a != [] && a[0] == b[0] == c[0] {
      LessTransitive(a[1..], b[1..], c[1..]);
    }
  }

  lemma {:induction false} LessIrreflexive(a: string)
    ensures !Less(a, a)
  {
    if a != [] {
      LessIrreflexive(a[1..]);
    }
  }

  lemma {:induction false} LessTotal(a: string, b: string)
    ensures a == b || Less(a, b) || Less(b, a)
  {
    if a != [] && b != [] && a[0] == b[0] {
      LessTotal(a[1..], b[1..]);
      assert a == [a[0]] + a[1..] && b == [b[0]] + b[1..];
    }
  }

  // ---------------------------------------------------------------- the stage list

  predicate Before(a: RuntimeType, b: RuntimeType) { Less(AsThreadName(a), AsThreadName(b)) }

  ghost predicate SortedByName(s: seq<RuntimeType>) {
    forall j, k :: 0 <= j < k < |s| ==> Before(s[j], s[k])
  }

  ghost predicate NoDup(s: seq<RuntimeType>) { forall j, k :: 0 <= j < k < |s| ==> s[j] != s[k] }

  // x occurs in `orders` no later than y does for the first time.
  ghost predicate FirstBefore(orders: seq<RuntimeType>, x: RuntimeType, y: RuntimeType) {
    exists i :: 0 <= i < |orders| && orders[i] == x && y !in orders[..i + 1]
  }

  // The declared runtimes other than Main, once each, by first occurrence.
  ghost predicate Declared(orders: seq<RuntimeType>, s: seq<RuntimeType>) {
    && NoDup(s)
    && (forall t :: t in s <==> t in orders && t != Main)
    && (forall j, k :: 0 <= j < k < |s| ==> FirstBefore(orders, s[j], s[k]))
  }

  // The other registered runtimes, by thread name.
  ghost predicate Leftover(orders: seq<RuntimeType>, registered: set<RuntimeType>, s: seq<RuntimeType>) {
    && SortedByName(s)
    && (forall t :: t in s <==> t in registered && t != Main && t !in orders)
  }

  ghost predicate Stages(orders: seq<RuntimeType>, registered: set<RuntimeType>, s: seq<RuntimeType>) {
    exists n :: 0 <= n <= |s| && Declared(orders, s[..n]) && Leftover(orders, registered, s[n..])
  }

  lemma {:induction false} SortedNoDup(s: seq<RuntimeType>)
    requires SortedByName(s)
    ensures NoDup(s)
  {
    forall j, k | 0 <= j < k < |s|
      ensures s[j] != s[k]
    {
      LessIrreflexive(AsThreadName(s[j]));
    }
  }

  // The stage list names each runtime once, never Main, and every registered one.
  lemma {:induction false} StagesCover(orders: seq<RuntimeType>, registered: set<RuntimeType>, s: seq<RuntimeType>)
    requires Stages(orders, registered, s)
    ensures NoDup(s) && Main !in s
    ensures forall t <- registered :: t != Main ==> t in s
  {
    var n :| 0 <= n <= |s| && Declared(orders, s[..n]) && Leftover(orders, registered, s[n..]);
    var a, b := s[..n], s[n..];
    SortedNoDup(b);
    assert forall t :: t in s <==> t in a || t in b;
    forall j, k | 0 <= j < k < |s|
      ensures s[j] != s[k]
    {
      if j < n <= k {
        assert s[j] == a[j] && s[k] == b[k - n];
        assert a[j] in a && b[k - n] in b;
      } else if n <= j {
        assert s[j] == b[j - n] && s[k] == b[k - n];
      } else {
        assert s[j] == a[j] && s[k] == a[k];
      }
    }
  }

  ghost predicate Ordered(a: seq<RuntimeType>, less: (RuntimeType, RuntimeType) -> bool) {
    forall j, k :: 0 <= j < k < |a| ==> less(a[j], a[k])
  }

  lemma {:induction false} DropLast(a: seq<RuntimeType>, t: RuntimeType, less: (RuntimeType, RuntimeType) -> bool)
    requires a != [] && Ordered(a, less) && forall x, y :: less(x, y) ==> !less(y, x)
    ensures t in a[..|a| - 1] <==> t in a && t != a[|a| - 1]
    ensures t in a ==> t == a[|a| - 1] || less(t, a[|a| - 1])
  {
    var m := |a| - 1;
    assert a == a[..m] + [a[m]];
    assert forall j :: 0 <= j < m ==> less(a[j], a[m]);
  }

  // Two strictly ordered sequences with the same elements are the same.
  lemma {:induction false} OrderedOnce(a: seq<RuntimeType>, b: seq<RuntimeType>,
      less: (RuntimeType, RuntimeType) -> bool)
    requires forall x, y :: less(x, y) ==> !less(y, x)
    requires Ordered(a, less) && Ordered(b, less)
    requires forall t :: t in a <==> t in b
    ensures a == b
    decreases |a|
  {
    if a == [] {
      assert forall i :: 0 <= i < |b| ==> b[i] in b;
    } else {
      var m, n := |a| - 1, |b| - 1;
      assert a[m] in b && b != [] && b[n] in a;
      DropLast(a, b[n], less);
      DropLast(b, a[m], less);
      assert a[m] == b[n];
      forall t
        ensures t in a[..m] <==> t in b[..n]
      {
        DropLast(a, t, less);
        DropLast(b, t, less);
      }
      OrderedOnce(a[..m], b[..n], less);
      assert a == a[..m] + [a[m]] && b == b[..n] + [b[n]];
    }
  }

  // The stage list does not depend on the order in which the registry lists its runtimes.
  lemma {:induction false} LeftoverOnce(orders: seq<RuntimeType>, registered: set<RuntimeType>,
      a: seq<RuntimeType>, b: seq<RuntimeType>)
    requires Leftover(orders, registered, a) && Leftover(orders, registered, b)
    ensures a == b
  {
    forall x, y | Before(x, y)
      ensures !Before(y, x)
    {
      if Before(y, x) {
        LessTransitive(AsThreadName(x), AsThreadName(y), AsThreadName(x));
        LessIrreflexive(AsThreadName(x));
      }
    }
    OrderedOnce(a, b, Before);
  }

  // ---------------------------------------------------------------- the loops of `shutdown`

  method SortByName(types: seq<RuntimeType>) returns (sorted: seq<RuntimeType>)
    requires NoDup(types)
    ensures SortedByName(sorted) && forall t :: t in sorted <==> t in types
  {
    sorted := [];
    for i := 0 to |types|
      invariant SortedByName(sorted)
      invariant forall t :: t in sorted <==> t in types[..i]
    {
      sorted := InsertByName(sorted, types[i]);
      assert types[..i + 1] == types[..i] + [types[i]];
    }
    assert types[..|types|] == types;
  }

  method InsertByName(sorted: seq<RuntimeType>, t: RuntimeType) returns (r: seq<RuntimeType>)
    requires SortedByName(sorted) && t !in sorted
    ensures SortedByName(r) && forall x :: x in r <==> x in sorted || x == t
  {
    hide Before;
    var k := 0;
    while k < |sorted| && Before(sorted[k], t)
      invariant 0 <= k <= |sorted|
      invariant forall j :: 0 <= j < k ==> Before(sorted[j], t)
    {
      k := k + 1;
    }
    forall j | k <= j < |sorted|
      ensures Before(t, sorted[j])
    {
      NotBefore(sorted[k], t);
      if k < j {
        BeforeTransitive(t, sorted[k], sorted[j]);
      }
    }
    InsertSorted(sorted, k, t);
    r := sorted[..k] + [t] + sorted[k..];
  }

  lemma {:induction false} NotBefore(a: RuntimeType, b: RuntimeType)
    requires a != b && !Before(a, b)
    ensures Before(b, a)
  {
    LessTotal(AsThreadName(a), AsThreadName(b));
    if AsThreadName(a) == AsThreadName(b) {
      NamesDiffer(a, b);
    }
  }

  lemma {:induction false} BeforeTransitive(a: RuntimeType, b: RuntimeType, c: RuntimeType)
    requires Before(a, b) && Before(b, c)
    ensures Before(a, c)
  {
    LessTransitive(AsThreadName(a), AsThreadName(b), AsThreadName(c));
  }

  lemma {:induction false} InsertSorted(sorted: seq<RuntimeType>, k: nat, t: RuntimeType)
    requires SortedByName(sorted) && k <= |sorted|
    requires forall j :: 0 <= j < k ==> Before(sorted[j], t)
    requires forall j :: k <= j < |sorted| ==> Before(t, sorted[j])
    ensures var r := sorted[..k] + [t] + sorted[k..]; SortedByName(r) && forall x :: x in r <==> x in sorted || x == t
  {
    hide Before;
    var r := sorted[..k] + [t] + sorted[k..];
    assert sorted == sorted[..k] + sorted[k..];
    assert forall j :: 0 <= j < |r| ==> r[j] == if j < k then sorted[j] else if j == k then t else sorted[j - 1];
  }

  method StageList(orders: seq<RuntimeType>, registered: seq<RuntimeType>) returns (ordered: seq<RuntimeType>)
    requires NoDup(registered)
    ensures Stages(orders, (set t | t in registered), ordered)
  {
    hide NoDup, SortedByName, FirstBefore;
    var declared := DeclaredList(orders);
    var others := OthersThanMain(registered);
    var remaining := SortByName(others);
    var rest := Append(declared, remaining);
    ordered := declared + rest;
    assert ordered[..|declared|] == declared && ordered[|declared|..] == rest;
  }

  // The first loop: the declared runtimes, without Main and repetitions.
  method DeclaredList(orders: seq<RuntimeType>) returns (declared: seq<RuntimeType>)
    ensures Declared(orders, declared)
  {
    declared := [];
    for i := 0 to |orders|
      invariant Declared(orders[..i], declared)
    {
      var t := orders[i];
      DeclaredNext(orders[..i], declared, t);
      assert orders[..i + 1] == orders[..i] + [t];
      if t != Main && t !in declared {
        declared := declared + [t];
      }
    }
    assert orders[..|orders|] == orders;
  }

  // `runtime_types`: every registered runtime but Main.
  method OthersThanMain(registered: seq<RuntimeType>) returns (others: seq<RuntimeType>)
    requires NoDup(registered)
    ensures NoDup(others) && forall t :: t in others <==> t in registered && t != Main
  {
    others := [];
    for i := 0 to |registered|
      invariant NoDup(others) && forall t :: t in others <==> t in registered[..i] && t != Main
    {
      assert registered[..i + 1] == registered[..i] + [registered[i]];
      assert forall k :: 0 <= k < i ==> registered[k] != registered[i];
      assert registered[i] !in registered[..i];
      if registered[i] != Main {
        others := others + [registered[i]];
      }
    }
    assert registered[..|registered|] == registered;
  }

  lemma {:induction false} DeclaredNext(orders: seq<RuntimeType>, s: seq<RuntimeType>, t: RuntimeType)
    requires Declared(orders, s)
    ensures Declared(orders + [t], if t != Main && t !in s then s + [t] else s)
  {
    var orders' := orders + [t];
    var s' := if t != Main && t !in s then s + [t] else s;
    forall j, k | 0 <= j < k < |s'|
      ensures FirstBefore(orders', s'[j], s'[k])
    {
      assert s'[j] == s[j] && s[j] in s;
      if k < |s| {
        var i :| 0 <= i < |orders| && orders[i] == s[j] && s[k] !in orders[..i + 1];
        assert orders'[i] == s[j] && orders'[..i + 1] == orders[..i + 1];
      } else {
        var i :| 0 <= i < |orders| && orders[i] == s[j];
        assert orders'[i] == s[j] && orders'[..i + 1] == orders[..i + 1];
        assert t !in orders;
      }
    }
  }

  // The second loop: what is not declared, in the sorted order.
  method Append(declared: seq<RuntimeType>, remaining: seq<RuntimeType>) returns (rest: seq<RuntimeType>)
    requires SortedByName(remaining)
    ensures SortedByName(rest) && forall t :: t in rest <==> t in remaining && t !in declared
  {
    rest := [];
    for i := 0 to |remaining|
      invariant SortedByName(rest)
      invariant forall t :: t in rest <==> t in remaining[..i] && t !in declared
    {
      assert remaining[..i + 1] == remaining[..i] + [remaining[i]];
      if remaining[i] !in declared {
        forall j | 0 <= j < |rest|
          ensures Before(rest[j], remaining[i])
        {
          assert rest[j] in rest;
          var k :| 0 <= k < i && remaining[k] == rest[j];
        }
        rest := rest + [remaining[i]];
      }
    }
    assert remaining[..|remaining|] == remaining;
  }
}

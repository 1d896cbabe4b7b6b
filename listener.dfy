/**
 * `RemoteListener`: a registry of listeners under random ids, and the
 * reflective dispatch of an event to every declared one-parameter method
 * of every registered listener.
 */
module Listeners {
  import opened Common

  type ClassName = string

  /** A class hierarchy: the direct superclass of each class that has one. */
  type Hierarchy = map<ClassName, ClassName>

  /** A listener id (`UUID`). */
  type Id = nat

  /**
   * A declared method: its parameter types, whether reflection may call it
   * (`Method.invoke` throws `IllegalAccessException` on a method it may not
   * access, such as a private one), and whether its body throws when invoked.
   */
  datatype Method = Method(params: seq<ClassName>, accessible: bool, throws: bool)

  /** A listener object: its class and that class's declared methods, in `getDeclaredMethods()` order. */
  datatype Listener = Listener(cls: ClassName, methods: seq<Method>)

  /** One reflective call that ran: the listener's id and the index of the method. */
  datatype Invocation = Invocation(id: Id, index: nat)

  /** `c` and all of its superclasses (each class is visited once, so this is defined on any map). */
  function Ancestors(h: Hierarchy, c: ClassName): (r: set<ClassName>)
    ensures c in r
    decreases |h|
  {
    if c in h then {c} + Ancestors(h - {c}, h[c]) else {c}
  }

  /** `sup.isAssignableFrom(sub)`: sub is sup or one of its subclasses. */
  predicate IsAssignableFrom(h: Hierarchy, sup: ClassName, sub: ClassName)
  {
    sup in Ancestors(h, sub)
  }

  /**
   * What the loop does with one declared method for an event of class
   * `ev`: a method is selected when it has exactly one parameter whose type
   * `ev`'s class is assignable from; invoking it runs its body when the
   * method is accessible and the event is an instance of that type, and
   * throws before the body otherwise (`IllegalAccessException`,
   * `IllegalArgumentException`) or when its body throws.
   */
  datatype Outcome = Rejected | Returned | Threw

  datatype Attempt = Attempt(inv: Invocation, outcome: Outcome)
  {
    /** The method's body ran. */
    predicate Runs() { outcome != Rejected }

    /** The invocation ended in an exception. */
    predicate Throws() { outcome != Returned }
  }

  function MethodAttempts(h: Hierarchy, ev: ClassName, id: Id, j: nat, m: Method): (r: seq<Attempt>)
    ensures |r| <= 1
  {
    if |m.params| == 1 && IsAssignableFrom(h, ev, m.params[0]) then
      var outcome :=
        if !m.accessible || !IsAssignableFrom(h, m.params[0], ev) then Rejected
        else if m.throws then Threw
        else Returned;
      [Attempt(Invocation(id, j), outcome)]
    else []
  }

  /** The attempts for the first |ms| declared methods of one listener. */
  function ListenerAttempts(h: Hierarchy, ev: ClassName, id: Id, ms: seq<Method>): seq<Attempt>
  {
    if ms == [] then []
    else ListenerAttempts(h, ev, id, ms[..|ms| - 1]) + MethodAttempts(h, ev, id, |ms| - 1, ms[|ms| - 1])
  }

  /** The attempts for the listeners of `order`, visited in that order. */
  function AllAttempts(h: Hierarchy, ev: ClassName, ls: map<Id, Listener>, order: seq<Id>): seq<Attempt>
  {
    if order == [] then []
    else
      var id := order[|order| - 1];
      AllAttempts(h, ev, ls, order[..|order| - 1]) + ListenerAttempts(h, ev, id, MethodsOf(ls, id))
  }

  /** The declared methods of the listener under `id`; an id the map does not hold has none. */
  function MethodsOf(ls: map<Id, Listener>, id: Id): seq<Method>
  {
    if id in ls then ls[id].methods else []
  }

  /** The invocations that ran, in order. */
  function Ran(atts: seq<Attempt>): seq<Invocation>
  {
    if atts == [] then []
    else (if atts[0].Runs() then [atts[0].inv] else []) + Ran(atts[1..])
  }

  /**
   * One `try` around both loops: attempts run in order until the first one
   * that throws, and the exception ends the whole dispatch. The result is
   * the invocations that ran and whether an exception was swallowed.
   */
  function Deliver(atts: seq<Attempt>): (seq<Invocation>, bool)
  {
    if atts == [] then ([], false)
    else
      var first := if atts[0].Runs() then [atts[0].inv] else [];
      if atts[0].Throws() then (first, true)
      else
        var rest := Deliver(atts[1..]);
        (first + rest.0, rest.1)
  }

  /** Delivery over two stretches: the second is reached only if the first did not throw. */
  lemma {:induction false} DeliverAppend(a: seq<Attempt>, b: seq<Attempt>)
    ensures Deliver(a + b) ==
            if Deliver(a).1 then Deliver(a) else (Deliver(a).0 + Deliver(b).0, Deliver(b).1)
  {
    if a == [] {
      assert a + b == b;
      assert [] + Deliver(b).0 == Deliver(b).0;
    } else {
      assert (a + b)[0] == a[0];
      assert (a + b)[1..] == a[1..] + b;
      if !a[0].Throws() {
        DeliverAppend(a[1..], b);
        var first := if a[0].Runs() then [a[0].inv] else [];
        assert Deliver(a) == (first + Deliver(a[1..]).0, Deliver(a[1..]).1);
        assert Deliver(a + b) == (first + Deliver(a[1..] + b).0, Deliver(a[1..] + b).1);
        if !Deliver(a[1..]).1 {
          assert first + (Deliver(a[1..]).0 + Deliver(b).0) == (first + Deliver(a[1..]).0) + Deliver(b).0;
        }
      }
    }
  }

  lemma DeliverOne(a: Attempt)
    ensures Deliver([a]) == (if a.Runs() then [a.inv] else [], a.Throws())
  {
    assert [a][1..] == [];
    var first := if a.Runs() then [a.inv] else [];
    assert first + [] == first;
  }

  /** Without any exception, every selected method of every listener runs, in order. */
  lemma {:induction false} DeliverWithoutThrow(atts: seq<Attempt>)
    requires forall i :: 0 <= i < |atts| ==> !atts[i].Throws()
    ensures Deliver(atts) == (Ran(atts), false)
    ensures forall i :: 0 <= i < |atts| ==> atts[i].Runs() && atts[i].inv in Ran(atts)
  {
    if atts != [] {
      DeliverWithoutThrow(atts[1..]);
      assert Ran(atts) == [atts[0].inv] + Ran(atts[1..]);
      forall i | 1 <= i < |atts|
        ensures atts[i].Runs() && atts[i].inv in Ran(atts)
      {
        assert atts[i] == atts[1..][i - 1];
      }
    }
  }

  /**
   * The first exception stops delivery to all remaining methods and
   * listeners: exactly the attempts before it (and it, if its body ran) ran.
   */
  lemma {:induction false} DeliverStopsAtFirstThrow(atts: seq<Attempt>, k: nat)
    requires k < |atts| && atts[k].Throws()
    requires forall i :: 0 <= i < k ==> !atts[i].Throws()
    ensures Deliver(atts) == (Ran(atts[..k]) + (if atts[k].Runs() then [atts[k].inv] else []), true)
  {
    if k == 0 {
      assert atts[..0] == [];
      var last := if atts[k].Runs() then [atts[k].inv] else [];
      assert [] + last == last;
    } else {
      DeliverStopsAtFirstThrow(atts[1..], k - 1);
      assert atts[..k][0] == atts[0];
      assert atts[1..][..k - 1] == atts[..k][1..];
      var first := if atts[0].Runs() then [atts[0].inv] else [];
      var last := if atts[k].Runs() then [atts[k].inv] else [];
      assert atts[1..][k - 1] == atts[k];
      assert Ran(atts[..k]) == first + Ran(atts[1..][..k - 1]);
      assert Deliver(atts) == (first + Deliver(atts[1..]).0, true);
      assert first + (Ran(atts[1..][..k - 1]) + last) == (first + Ran(atts[1..][..k - 1])) + last;
    }
  }

  /**
   * A method runs only when it is accessible and its parameter type is
   * exactly as general as the event's class in both directions.
   */
  lemma {:induction false} RanOnlyMutuallyAssignable(h: Hierarchy, ev: ClassName, id: Id, ms: seq<Method>, j: nat)
    requires Invocation(id, j) in Ran(ListenerAttempts(h, ev, id, ms))
    ensures j < |ms| && |ms[j].params| == 1
    ensures ms[j].accessible && IsAssignableFrom(h, ev, ms[j].params[0]) && IsAssignableFrom(h, ms[j].params[0], ev)
  {
    var atts := ListenerAttempts(h, ev, id, ms);
    RanMember(atts, Invocation(id, j));
    var i :| 0 <= i < |atts| && atts[i].Runs() && atts[i].inv == Invocation(id, j);
    AttemptOrigin(h, ev, id, ms, i);
  }

  lemma {:induction false} RanMember(atts: seq<Attempt>, inv: Invocation)
    requires inv in Ran(atts)
    ensures exists i :: 0 <= i < |atts| && atts[i].Runs() && atts[i].inv == inv
  {
    if atts[0].Runs() && atts[0].inv == inv {
    } else {
      RanMember(atts[1..], inv);
      var i :| 0 <= i < |atts[1..]| && atts[1..][i].Runs() && atts[1..][i].inv == inv;
      assert atts[i + 1] == atts[1..][i];
    }
  }

  lemma {:induction false} AttemptOrigin(h: Hierarchy, ev: ClassName, id: Id, ms: seq<Method>, i: nat)
    requires i < |ListenerAttempts(h, ev, id, ms)|
    ensures var a := ListenerAttempts(h, ev, id, ms)[i];
      a.inv.id == id && a.inv.index < |ms| && |ms[a.inv.index].params| == 1 &&
      IsAssignableFrom(h, ev, ms[a.inv.index].params[0]) &&
      a.Runs() == (ms[a.inv.index].accessible && IsAssignableFrom(h, ms[a.inv.index].params[0], ev))
  {
    var front := ListenerAttempts(h, ev, id, ms[..|ms| - 1]);
    assert ListenerAttempts(h, ev, id, ms) == front + MethodAttempts(h, ev, id, |ms| - 1, ms[|ms| - 1]);
    if i < |front| {
      AttemptOrigin(h, ev, id, ms[..|ms| - 1], i);
    }
  }

  /** The dispatch reports an exception exactly when some attempt throws. */
  lemma {:induction false} DeliverFailsIff(atts: seq<Attempt>)
    ensures Deliver(atts).1 <==> exists i :: 0 <= i < |atts| && atts[i].Throws()
  {
    if atts != [] {
      DeliverFailsIff(atts[1..]);
      if exists i :: 0 <= i < |atts[1..]| && atts[1..][i].Throws() {
        var i :| 0 <= i < |atts[1..]| && atts[1..][i].Throws();
        assert atts[i + 1].Throws();
      }
      if exists i :: 0 <= i < |atts| && atts[i].Throws() {
        var i :| 0 <= i < |atts| && atts[i].Throws();
        if i > 0 {
          assert atts[1..][i - 1].Throws();
        }
      }
    }
  }

  lemma {:induction false} MethodAttemptsInListener(h: Hierarchy, ev: ClassName, id: Id, ms: seq<Method>, j: nat)
    requires j < |ms|
    ensures forall a :: a in MethodAttempts(h, ev, id, j, ms[j]) ==> a in ListenerAttempts(h, ev, id, ms)
  {
    ListenerAttemptsPrefix(h, ev, id, ms, j + 1);
    var prefix := ms[..j + 1];
    assert prefix[..j] == ms[..j] && prefix[j] == ms[j];
    assert ListenerAttempts(h, ev, id, prefix) ==
           ListenerAttempts(h, ev, id, ms[..j]) + MethodAttempts(h, ev, id, j, ms[j]);
    InPrefix(ListenerAttempts(h, ev, id, prefix), ListenerAttempts(h, ev, id, ms));
  }

  lemma {:induction false} ListenerAttemptsInAll(h: Hierarchy, ev: ClassName, ls: map<Id, Listener>, order: seq<Id>, k: nat)
    requires k < |order|
    ensures forall a :: a in ListenerAttempts(h, ev, order[k], MethodsOf(ls, order[k])) ==> a in AllAttempts(h, ev, ls, order)
  {
    AllAttemptsPrefix(h, ev, ls, order, k + 1);
    var prefix := order[..k + 1];
    assert prefix[..k] == order[..k] && prefix[k] == order[k];
    assert AllAttempts(h, ev, ls, prefix) ==
           AllAttempts(h, ev, ls, order[..k]) + ListenerAttempts(h, ev, order[k], MethodsOf(ls, order[k]));
    InPrefix(AllAttempts(h, ev, ls, prefix), AllAttempts(h, ev, ls, order));
  }

  /**
   * When no handler throws, every listener of `order` receives the event on
   * every declared one-parameter method whose type the event's class is
   * assignable from.
   */
  lemma EveryListenerNotified(h: Hierarchy, ev: ClassName, ls: map<Id, Listener>, order: seq<Id>, k: nat, j: nat)
    requires !Deliver(AllAttempts(h, ev, ls, order)).1
    requires k < |order| && order[k] in ls && j < |ls[order[k]].methods|
    requires |ls[order[k]].methods[j].params| == 1 && IsAssignableFrom(h, ev, ls[order[k]].methods[j].params[0])
    ensures Invocation(order[k], j) in Deliver(AllAttempts(h, ev, ls, order)).0
  {
    var atts := AllAttempts(h, ev, ls, order);
    var ms := ls[order[k]].methods;
    var a := MethodAttempts(h, ev, order[k], j, ms[j])[0];
    MethodAttemptsInListener(h, ev, order[k], ms, j);
    ListenerAttemptsInAll(h, ev, ls, order, k);
    assert a in atts;
    DeliverFailsIff(atts);
    DeliverWithoutThrow(atts);
    var i :| 0 <= i < |atts| && atts[i] == a;
  }

  /**
   * One listener registered under two ids is two entries, so a dispatch
   * without exceptions delivers each selected event to it twice.
   */
  lemma DoubleRegistrationDeliversTwice(h: Hierarchy, ev: ClassName, ls: map<Id, Listener>, order: seq<Id>, a: nat, b: nat, j: nat)
    requires Enumerates(order, ls.Keys)
    requires !Deliver(AllAttempts(h, ev, ls, order)).1
    requires a < |order| && b < |order| && a != b && ls[order[a]] == ls[order[b]]
    requires j < |ls[order[a]].methods|
    requires |ls[order[a]].methods[j].params| == 1 && IsAssignableFrom(h, ev, ls[order[a]].methods[j].params[0])
    ensures order[a] != order[b]
    ensures Invocation(order[a], j) in Deliver(AllAttempts(h, ev, ls, order)).0
    ensures Invocation(order[b], j) in Deliver(AllAttempts(h, ev, ls, order)).0
  {
    EveryListenerNotified(h, ev, ls, order, a, j);
    EveryListenerNotified(h, ev, ls, order, b, j);
  }

  /** The library's event classes and their superclasses. */
  const EventHierarchy: Hierarchy := map[
    "ClientConnectEvent" := "ServerEvent",
    "ClientCommandEvent" := "ServerEvent",
    "ClientDisconnectEvent" := "ServerEvent",
    "ClientMessageEvent" := "ServerEvent",
    "ServerConnectEvent" := "ClientEvent",
    "ServerMessageEvent" := "ClientEvent",
    "ServerDisconnectEvent" := "ClientEvent",
    "ServerEvent" := "Object",
    "ClientEvent" := "Object"]

  /** A handler declared with the abstract `ServerEvent` as its parameter is never run for any server event. */
  lemma SupertypeHandlerNeverRuns(ev: ClassName, id: Id, ms: seq<Method>, j: nat)
    requires ev in {"ClientConnectEvent", "ClientCommandEvent", "ClientDisconnectEvent", "ClientMessageEvent"}
    requires j < |ms| && ms[j].params == ["ServerEvent"]
    ensures Invocation(id, j) !in Ran(ListenerAttempts(EventHierarchy, ev, id, ms))
  {
    var h := EventHierarchy;
    var h1 := h - {"ServerEvent"};
    assert "Object" !in h1;
    assert Ancestors(h, "ServerEvent") == {"ServerEvent"} + Ancestors(h1, "Object");
    assert Ancestors(h, "ServerEvent") == {"ServerEvent", "Object"};
    if Invocation(id, j) in Ran(ListenerAttempts(h, ev, id, ms)) {
      RanOnlyMutuallyAssignable(h, ev, id, ms, j);
    }
  }

  /** Likewise a handler declared with the abstract `ClientEvent` is never run for any client event. */
  lemma ClientSupertypeHandlerNeverRuns(ev: ClassName, id: Id, ms: seq<Method>, j: nat)
    requires ev in {"ServerConnectEvent", "ServerMessageEvent", "ServerDisconnectEvent"}
    requires j < |ms| && ms[j].params == ["ClientEvent"]
    ensures Invocation(id, j) !in Ran(ListenerAttempts(EventHierarchy, ev, id, ms))
  {
    var h := EventHierarchy;
    var h1 := h - {"ClientEvent"};
    assert "Object" !in h1;
    assert Ancestors(h, "ClientEvent") == {"ClientEvent"} + Ancestors(h1, "Object");
    assert Ancestors(h, "ClientEvent") == {"ClientEvent", "Object"};
    if Invocation(id, j) in Ran(ListenerAttempts(h, ev, id, ms)) {
      RanOnlyMutuallyAssignable(h, ev, id, ms, j);
    }
  }

  /** The static listener map of `RemoteListener`. */
  class RemoteListener {
    var listeners: map<Id, Listener>

    constructor ()
      ensures listeners == map[]
    {
      listeners := map[];
    }

    /** `register`: stores the listener under the random id drawn for it and returns that id. */
    method Register(listener: Listener, random: Id) returns (id: Id)
      modifies this
      ensures id == random
      ensures listeners == old(listeners)[random := listener]
    {
      listeners := listeners[random := listener];
      id := random;
    }

    /** `unRegister`: removes that id only; an unknown id changes nothing. */
    method UnRegister(listenerId: Id)
      modifies this
      ensures listeners == old(listeners) - {listenerId}
    {
      listeners := listeners - {listenerId};
    }

    /**
     * The dispatch loop shared by `callServerEvent` and `callClientEvent`,
     * for an event of class `ev`, visiting the listeners in the map's
     * iteration order `order`.
     */
    method Dispatch(h: Hierarchy, ev: ClassName, order: seq<Id>) returns (calls: seq<Invocation>, failed: bool)
      requires Enumerates(order, listeners.Keys)
      ensures (calls, failed) == Deliver(AllAttempts(h, ev, listeners, order))
    {
      calls, failed := DeliverAll(h, ev, listeners, order);
    }

    /** `callServerEvent`: the shared dispatch; listeners are not filtered by side. */
    method CallServerEvent(h: Hierarchy, ev: ClassName, order: seq<Id>) returns (calls: seq<Invocation>, failed: bool)
      requires Enumerates(order, listeners.Keys)
      ensures (calls, failed) == Deliver(AllAttempts(h, ev, listeners, order))
    {
      calls, failed := Dispatch(h, ev, order);
    }

    /** `callClientEvent`: the very same procedure. */
    method CallClientEvent(h: Hierarchy, ev: ClassName, order: seq<Id>) returns (calls: seq<Invocation>, failed: bool)
      requires Enumerates(order, listeners.Keys)
      ensures (calls, failed) == Deliver(AllAttempts(h, ev, listeners, order))
    {
      calls, failed := Dispatch(h, ev, order);
    }
  }

  /** The dispatch listener by listener: after one that throws, nothing more is called. */
  function Dispatched(h: Hierarchy, ev: ClassName, ls: map<Id, Listener>, order: seq<Id>): (seq<Invocation>, bool)
  {
    if order == [] then ([], false)
    else
      var before := Dispatched(h, ev, ls, order[..|order| - 1]);
      if before.1 then before
      else
        var last := order[|order| - 1];
        var here := Deliver(ListenerAttempts(h, ev, last, MethodsOf(ls, last)));
        (before.0 + here.0, here.1)
  }

  /** Listener by listener is the same as all the attempts in one run. */
  lemma {:induction false} DispatchedDelivers(h: Hierarchy, ev: ClassName, ls: map<Id, Listener>, order: seq<Id>)
    ensures Dispatched(h, ev, ls, order) == Deliver(AllAttempts(h, ev, ls, order))
    decreases |order|
  {
    if order != [] {
      var init := order[..|order| - 1];
      var last := order[|order| - 1];
      DispatchedDelivers(h, ev, ls, init);
      DeliverAppend(AllAttempts(h, ev, ls, init), ListenerAttempts(h, ev, last, MethodsOf(ls, last)));
    }
  }

  /** Once a listener prefix has thrown, the longer orders deliver no more. */
  lemma {:induction false} DispatchedStops(h: Hierarchy, ev: ClassName, ls: map<Id, Listener>, order: seq<Id>, i: nat)
    requires i <= |order| && Dispatched(h, ev, ls, order[..i]).1
    ensures Dispatched(h, ev, ls, order) == Dispatched(h, ev, ls, order[..i])
    decreases |order|
  {
    if i == |order| {
      assert order[..i] == order;
    } else {
      var init := order[..|order| - 1];
      assert init[..i] == order[..i];
      DispatchedStops(h, ev, ls, init, i);
    }
  }

  /** One more listener of `order`, in terms of the listeners before it. */
  lemma DispatchedStep(h: Hierarchy, ev: ClassName, ls: map<Id, Listener>, order: seq<Id>, i: nat)
    requires i < |order| && !Dispatched(h, ev, ls, order[..i]).1
    ensures var here := Deliver(ListenerAttempts(h, ev, order[i], MethodsOf(ls, order[i])));
      Dispatched(h, ev, ls, order[..i + 1]) == (Dispatched(h, ev, ls, order[..i]).0 + here.0, here.1)
  {
    var prefix := order[..i + 1];
    assert prefix[..i] == order[..i] && prefix[i] == order[i];
  }

  /** The outer loop of the dispatch: the listeners of `order`, in order, until a handler throws. */
  method DeliverAll(h: Hierarchy, ev: ClassName, ls: map<Id, Listener>, order: seq<Id>) returns (calls: seq<Invocation>, failed: bool)
    ensures (calls, failed) == Deliver(AllAttempts(h, ev, ls, order))
  {
    calls, failed := [], false;
    var i := 0;
    while i < |order| && !failed
      invariant 0 <= i <= |order|
      invariant (calls, failed) == Dispatched(h, ev, ls, order[..i])
    {
      var id := order[i];
      var ran, thrown := DeliverToListener(h, ev, id, MethodsOf(ls, id));
      DispatchedStep(h, ev, ls, order, i);
      calls, failed := calls + ran, thrown;
      i := i + 1;
    }
    if failed {
      DispatchedStops(h, ev, ls, order, i);
    } else {
      assert order[..i] == order;
    }
    DispatchedDelivers(h, ev, ls, order);
  }

  /**
   * The inner loop of the dispatch: the declared methods of one listener,
   * in order, until one of them throws.
   */
  method DeliverToListener(h: Hierarchy, ev: ClassName, id: Id, methods: seq<Method>) returns (calls: seq<Invocation>, failed: bool)
    ensures (calls, failed) == Deliver(ListenerAttempts(h, ev, id, methods))
  {
    calls, failed := [], false;
    var j := 0;
    while j < |methods| && !failed
      invariant 0 <= j <= |methods|
      invariant (calls, failed) == Deliver(ListenerAttempts(h, ev, id, methods[..j]))
    {
      DeliverNextMethod(h, ev, id, methods, j);
      var ran, threw := TryMethod(h, ev, id, j, methods[j]);
      if ran {
        calls := calls + [Invocation(id, j)];
      } else {
        assert calls + [] == calls;
      }
      failed := threw;
      j := j + 1;
    }
    if failed {
      ListenerAttemptsPrefix(h, ev, id, methods, j);
      DeliverPrefixThrows(ListenerAttempts(h, ev, id, methods[..j]), ListenerAttempts(h, ev, id, methods));
    } else {
      assert methods[..j] == methods;
    }
  }

  /**
   * The body of the inner loop for one declared method: whether the
   * method's body ran and whether an exception came out of the call.
   */
  method TryMethod(h: Hierarchy, ev: ClassName, id: Id, j: nat, m: Method) returns (ran: bool, threw: bool)
    ensures Deliver(MethodAttempts(h, ev, id, j, m)) == (if ran then [Invocation(id, j)] else [], threw)
  {
    ran, threw := false, false;
    if |m.params| == 1 {
      var t := m.params[0];
      if IsAssignableFrom(h, ev, t) {
        if !m.accessible || !IsAssignableFrom(h, t, ev) {
          threw := true;
        } else {
          ran := true;
          threw := m.throws;
        }
        DeliverOne(MethodAttempts(h, ev, id, j, m)[0]);
      }
    }
  }

  /** One more declared method, after a prefix that did not throw, adds the delivery of its own attempt. */
  lemma DeliverNextMethod(h: Hierarchy, ev: ClassName, id: Id, methods: seq<Method>, j: nat)
    requires j < |methods| && !Deliver(ListenerAttempts(h, ev, id, methods[..j])).1
    ensures var before := Deliver(ListenerAttempts(h, ev, id, methods[..j]));
      var step := Deliver(MethodAttempts(h, ev, id, j, methods[j]));
      Deliver(ListenerAttempts(h, ev, id, methods[..j + 1])) == (before.0 + step.0, step.1)
  {
    assert methods[..j + 1][..j] == methods[..j];
    assert methods[..j + 1][j] == methods[j];
    assert ListenerAttempts(h, ev, id, methods[..j + 1]) ==
           ListenerAttempts(h, ev, id, methods[..j]) + MethodAttempts(h, ev, id, j, methods[j]);
    DeliverAppend(ListenerAttempts(h, ev, id, methods[..j]), MethodAttempts(h, ev, id, j, methods[j]));
  }

  /** The attempts for the first j declared methods come first among a listener's attempts. */
  lemma {:induction false} ListenerAttemptsPrefix(h: Hierarchy, ev: ClassName, id: Id, ms: seq<Method>, j: nat)
    requires j <= |ms|
    ensures ListenerAttempts(h, ev, id, ms[..j]) <= ListenerAttempts(h, ev, id, ms)
    decreases |ms|
  {
    if j == |ms| {
      assert ms[..j] == ms;
    } else {
      var init := ms[..|ms| - 1];
      ListenerAttemptsPrefix(h, ev, id, init, j);
      assert init[..j] == ms[..j];
      var whole := ListenerAttempts(h, ev, id, ms);
      assert whole == ListenerAttempts(h, ev, id, init) + MethodAttempts(h, ev, id, |ms| - 1, ms[|ms| - 1]);
      PrefixOfAppend(ListenerAttempts(h, ev, id, ms[..j]), ListenerAttempts(h, ev, id, init),
                     MethodAttempts(h, ev, id, |ms| - 1, ms[|ms| - 1]));
    }
  }

  /** The attempts for the first i listeners of `order` come first among all attempts. */
  lemma {:induction false} AllAttemptsPrefix(h: Hierarchy, ev: ClassName, ls: map<Id, Listener>, order: seq<Id>, i: nat)
    requires i <= |order|
    ensures AllAttempts(h, ev, ls, order[..i]) <= AllAttempts(h, ev, ls, order)
    decreases |order|
  {
    if i == |order| {
      assert order[..i] == order;
    } else {
      var init := order[..|order| - 1];
      AllAttemptsPrefix(h, ev, ls, init, i);
      assert init[..i] == order[..i];
      var last := order[|order| - 1];
      assert AllAttempts(h, ev, ls, order) == AllAttempts(h, ev, ls, init) + ListenerAttempts(h, ev, last, MethodsOf(ls, last));
      PrefixOfAppend(AllAttempts(h, ev, ls, order[..i]), AllAttempts(h, ev, ls, init),
                     ListenerAttempts(h, ev, last, MethodsOf(ls, last)));
    }
  }

  /** One more listener of `order`: its attempts follow those of the ones before it. */
  lemma AllAttemptsStep(h: Hierarchy, ev: ClassName, ls: map<Id, Listener>, order: seq<Id>, i: nat)
    requires i < |order|
    ensures AllAttempts(h, ev, ls, order[..i + 1]) ==
            AllAttempts(h, ev, ls, order[..i]) + ListenerAttempts(h, ev, order[i], MethodsOf(ls, order[i]))
  {
    var prefix := order[..i + 1];
    assert prefix[..i] == order[..i] && prefix[i] == order[i];
  }

  /** A prefix of a stays a prefix of a followed by anything. */
  lemma PrefixOfAppend<T>(p: seq<T>, a: seq<T>, b: seq<T>)
    requires p <= a
    ensures p <= a + b
  {
    assert (a + b)[..|p|] == a[..|p|];
  }

  /** Whatever a prefix holds, the whole holds. */
  lemma InPrefix<T>(p: seq<T>, s: seq<T>)
    requires p <= s
    ensures forall x :: x in p ==> x in s
  {
    forall x | x in p
      ensures x in s
    {
      var k :| 0 <= k < |p| && p[k] == x;
      assert s[k] == x;
    }
  }

  /** After a prefix that throws, the rest of the attempts are never reached. */
  lemma DeliverPrefixThrows(p: seq<Attempt>, atts: seq<Attempt>)
    requires p <= atts && Deliver(p).1
    ensures Deliver(atts) == Deliver(p)
  {
    assert atts == p + atts[|p|..];
    DeliverAppend(p, atts[|p|..]);
  }
}

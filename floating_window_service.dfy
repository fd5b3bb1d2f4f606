/**
 * The renderer's FloatingWindowService
 * (src/renderer/src/services/floatingWindowService.ts): a cached belief
 * `isActive` about whether the main process holds a floating window, kept in
 * step with the main process through IPC, and a set of listeners told about
 * every change of belief.
 *
 * Each awaited IPC result is a parameter. A method that may await several
 * results takes one parameter per await, in the order the source awaits them.
 */
module WindowService {
  import opened Common

  /** The answer to `isFloatingTemplatesOpen()`: `{isOpen}` or a rejected promise. */
  datatype Query = Answered(isOpen: bool) | QueryThrew

  /** The answer to a create, update or close request. */
  datatype Reply = Success | Failure | ReplyThrew

  /** Which functions the preload bridge exposes (`window.api?.f`). */
  datatype Api = Api(query: bool, create: bool, update: bool, close: bool)

  /** An IPC request the service made. */
  datatype Call = CreateCall(templates: seq<Template>) | UpdateCall(templates: seq<Template>) | CloseCall

  /** One invocation of a listener with a state. */
  datatype Delivery = Delivery(listener: nat, isActive: bool)

  /** `isWindowOpen()` (lines 35-46): false without the bridge function or when the call throws. */
  function IsOpenAnswer(api: Api, q: Query): (open: bool)
    ensures open <==> api.query && q == Answered(true)
  {
    if !api.query then false
    else match q
      case Answered(b) => b
      case QueryThrew => false
  }

  /** Every listener, in insertion order, called with the same state. */
  function Broadcast(ls: seq<nat>, v: bool): seq<Delivery>
  {
    seq(|ls|, i requires 0 <= i < |ls| => Delivery(ls[i], v))
  }

  /** A broadcast reaches exactly the listeners of the set, each once, all with the same state. */
  lemma BroadcastReachesListeners(ls: seq<nat>, v: bool, l: nat)
    requires Distinct(ls)
    ensures Delivery(l, v) in Broadcast(ls, v) <==> l in ls
    ensures forall d :: d in Broadcast(ls, v) ==> d.isActive == v
    ensures |Broadcast(ls, v)| == |ls| && multiset(Broadcast(ls, v))[Delivery(l, v)] == (if l in ls then 1 else 0)
  {
    var r := Broadcast(ls, v);
    if l in ls {
      var k :| 0 <= k < |ls| && ls[k] == l;
      assert r[k] == Delivery(l, v);
    }
    CountDelivery(ls, v, l);
  }

  /** The number of deliveries to l in a broadcast is the number of times l is in the list. */
  lemma {:induction false} CountDelivery(ls: seq<nat>, v: bool, l: nat)
    requires Distinct(ls)
    ensures multiset(Broadcast(ls, v))[Delivery(l, v)] == (if l in ls then 1 else 0)
    decreases |ls|
  {
    if ls != [] {
      var rest := ls[1..];
      assert Distinct(rest) by {
        forall i, j | 0 <= i < j < |rest| ensures rest[i] != rest[j] {
          assert rest[i] == ls[i + 1] && rest[j] == ls[j + 1];
        }
      }
      CountDelivery(rest, v, l);
      assert Broadcast(ls, v) == [Delivery(ls[0], v)] + Broadcast(rest, v);
      assert ls[0] !in rest by {
        forall k | 0 <= k < |rest| ensures rest[k] != ls[0] {
          assert rest[k] == ls[k + 1];
        }
      }
      assert ls == [ls[0]] + rest;
    }
  }

  /** The deliveries of a change of belief from `was` to `now`: a broadcast only when they differ. */
  function Notified(ls: seq<nat>, was: bool, now: bool): seq<Delivery>
  {
    if was != now then Broadcast(ls, now) else []
  }

  /** The belief after `updateWindow` (lines 92-116), from the belief `was` before it. */
  function AfterUpdate(api: Api, was: bool, reply: Reply, resync: Query): bool
  {
    if !api.update then was else if reply == Success then true else IsOpenAnswer(api, resync)
  }

  /** The belief after `closeWindow` (lines 121-147). */
  function AfterClose(api: Api, reply: Reply, resync: Query): bool
  {
    if !api.close || reply == Success then false else IsOpenAnswer(api, resync)
  }

  predicate Distinct(ls: seq<nat>) {
    forall i, j :: 0 <= i < j < |ls| ==> ls[i] != ls[j]
  }

  /** `Set.delete`: the list without l, others in their order. */
  function Remove(ls: seq<nat>, l: nat): (r: seq<nat>)
    ensures forall x :: x in r <==> x in ls && x != l
    ensures l !in ls ==> r == ls
    decreases |ls|
  {
    if ls == [] then []
    else (if ls[0] == l then [] else [ls[0]]) + Remove(ls[1..], l)
  }

  /** Deleting from a set keeps its elements distinct. */
  lemma {:induction false} RemoveKeepsDistinct(ls: seq<nat>, l: nat)
    requires Distinct(ls)
    ensures Distinct(Remove(ls, l))
    decreases |ls|
  {
    if ls != [] {
      RemoveKeepsDistinct(ls[1..], l);
      var rest := Remove(ls[1..], l);
      assert ls[0] !in ls[1..] by {
        forall k | 0 <= k < |ls[1..]| ensures ls[1..][k] != ls[0] {
          assert ls[1..][k] == ls[k + 1];
        }
      }
      if ls[0] != l {
        var r := [ls[0]] + rest;
        forall i, j | 0 <= i < j < |r| ensures r[i] != r[j] {
          assert r[j] == rest[j - 1];
          if i > 0 {
            assert r[i] == rest[i - 1];
          }
        }
      } else {
        assert Remove(ls, l) == rest;
      }
    }
  }

  class FloatingWindowService {
    const api: Api
    var isActive: bool
    /** The listener set, in insertion (and so iteration) order. */
    var listeners: seq<nat>
    var deliveries: seq<Delivery>
    var calls: seq<Call>

    ghost predicate Valid()
      reads this
    {
      Distinct(listeners)
    }

    constructor (api: Api)
      ensures Valid()
      ensures this.api == api && !isActive && listeners == [] && deliveries == [] && calls == []
    {
      this.api := api;
      isActive := false;
      listeners := [];
      deliveries := [];
      calls := [];
    }

    /** `getIsActive()` (lines 197-199). */
    method GetIsActive() returns (active: bool)
      ensures active == isActive
    {
      active := isActive;
    }

    /** `subscribe` (lines 14-23): the listener joins the set and is called once with the current state. */
    method Subscribe(l: nat)
      requires Valid()
      modifies this
      ensures Valid()
      ensures listeners == if l in old(listeners) then old(listeners) else old(listeners) + [l]
      ensures deliveries == old(deliveries) + [Delivery(l, isActive)]
      ensures isActive == old(isActive) && calls == old(calls)
    {
      if l !in listeners {
        listeners := listeners + [l];
      }
      deliveries := deliveries + [Delivery(l, isActive)];
    }

    /** The unsubscribe function `subscribe` returns (lines 20-22): only that listener leaves. */
    method Unsubscribe(l: nat)
      requires Valid()
      modifies this
      ensures Valid()
      ensures l !in listeners
      ensures forall x :: x != l ==> (x in listeners <==> x in old(listeners))
      ensures listeners == Remove(old(listeners), l)
      ensures isActive == old(isActive) && deliveries == old(deliveries) && calls == old(calls)
    {
      RemoveKeepsDistinct(listeners, l);
      listeners := Remove(listeners, l);
    }

    /** `notifyListeners` (lines 28-30): the `forEach` over the set. */
    method NotifyListeners()
      modifies this
      ensures deliveries == old(deliveries) + Broadcast(listeners, isActive)
      ensures isActive == old(isActive) && listeners == old(listeners) && calls == old(calls)
    {
      var i := 0;
      while i < |listeners|
        invariant 0 <= i <= |listeners|
        invariant deliveries == old(deliveries) + Broadcast(listeners[..i], isActive)
        invariant isActive == old(isActive) && listeners == old(listeners) && calls == old(calls)
      {
        assert listeners[..i + 1] == listeners[..i] + [listeners[i]];
        assert Broadcast(listeners[..i + 1], isActive) == Broadcast(listeners[..i], isActive) + [Delivery(listeners[i], isActive)];
        deliveries := deliveries + [Delivery(listeners[i], isActive)];
        i := i + 1;
      }
      assert listeners[..i] == listeners;
    }

    /** `syncState` (lines 51-57): adopt the queried state; listeners hear only of a change. */
    method SyncState(q: Query)
      requires Valid()
      modifies this
      ensures Valid()
      ensures isActive == IsOpenAnswer(api, q)
      ensures deliveries == old(deliveries) + (if old(isActive) != isActive then Broadcast(listeners, isActive) else [])
      ensures listeners == old(listeners) && calls == old(calls)
    {
      var actuallyOpen := IsOpenAnswer(api, q);
      if isActive != actuallyOpen {
        isActive := actuallyOpen;
        NotifyListeners();
      }
    }

    /**
     * `updateWindow` (lines 92-116): a successful update makes the belief
     * true, telling listeners only if it was false; a refused or failed one
     * re-queries with `resync`.
     */
    method UpdateWindow(templates: seq<Template>, reply: Reply, resync: Query) returns (ok: bool)
      requires Valid()
      modifies this
      ensures Valid()
      ensures ok <==> api.update && reply == Success
      ensures calls == old(calls) + (if api.update then [UpdateCall(templates)] else [])
      ensures !api.update ==> isActive == old(isActive) && deliveries == old(deliveries)
      ensures api.update && reply == Success ==>
        isActive && deliveries == old(deliveries) + (if old(isActive) then [] else Broadcast(listeners, true))
      ensures api.update && reply != Success ==>
        && isActive == IsOpenAnswer(api, resync)
        && deliveries == old(deliveries) + (if old(isActive) != isActive then Broadcast(listeners, isActive) else [])
      ensures isActive == AfterUpdate(api, old(isActive), reply, resync)
      ensures deliveries == old(deliveries) + Notified(listeners, old(isActive), isActive)
      ensures listeners == old(listeners)
    {
      if !api.update {
        return false;
      }
      calls := calls + [UpdateCall(templates)];
      if reply == Success {
        if !isActive {
          isActive := true;
          NotifyListeners();
        }
        ok := true;
      } else {
        SyncState(resync);
        ok := false;
      }
    }

    /**
     * `createWindow` (lines 62-87): when the main process already has a
     * window the request becomes an update and nothing is created.
     */
    method CreateWindow(templates: seq<Template>, exists_: Query, reply: Reply, resync: Query) returns (ok: bool)
      requires Valid()
      modifies this
      ensures Valid()
      ensures IsOpenAnswer(api, exists_) ==>
        && (ok <==> api.update && reply == Success)
        && calls == old(calls) + (if api.update then [UpdateCall(templates)] else [])
        && isActive == AfterUpdate(api, old(isActive), reply, resync)
        && deliveries == old(deliveries) + Notified(listeners, old(isActive), isActive)
      ensures !IsOpenAnswer(api, exists_) ==>
        && (ok <==> api.create && reply == Success)
        && calls == old(calls) + (if api.create then [CreateCall(templates)] else [])
      ensures !IsOpenAnswer(api, exists_) && ok ==> isActive && deliveries == old(deliveries) + Broadcast(listeners, true)
      ensures !IsOpenAnswer(api, exists_) && !ok ==> isActive == old(isActive) && deliveries == old(deliveries)
      ensures listeners == old(listeners)
    {
      var alreadyExists := IsOpenAnswer(api, exists_);
      if alreadyExists {
        ok := UpdateWindow(templates, reply, resync);
        return;
      }
      if !api.create {
        return false;
      }
      calls := calls + [CreateCall(templates)];
      if reply == Success {
        isActive := true;
        NotifyListeners();
        ok := true;
      } else {
        ok := false;
      }
    }

    /**
     * `closeWindow` (lines 121-147): success, or a bridge without the
     * function, makes the belief false and tells every listener; a refused
     * or failed close re-queries with `resync`.
     */
    method CloseWindow(reply: Reply, resync: Query) returns (ok: bool)
      requires Valid()
      modifies this
      ensures Valid()
      ensures ok <==> !api.close || reply == Success
      ensures calls == old(calls) + (if api.close then [CloseCall] else [])
      ensures ok ==> !isActive && deliveries == old(deliveries) + Broadcast(listeners, false)
      ensures !ok ==>
        && isActive == IsOpenAnswer(api, resync)
        && deliveries == old(deliveries) + (if old(isActive) != isActive then Broadcast(listeners, isActive) else [])
      ensures isActive == AfterClose(api, reply, resync)
      ensures listeners == old(listeners)
    {
      if api.close {
        calls := calls + [CloseCall];
        if reply == Success {
          isActive := false;
          NotifyListeners();
          ok := true;
        } else {
          SyncState(resync);
          ok := false;
        }
      } else {
        isActive := false;
        NotifyListeners();
        ok := true;
      }
    }

    /**
     * `manageWindow` (lines 152-192). With pinning on and something pinned,
     * the pinned templates go to an update of an open window or a create;
     * otherwise an open window is closed, or a stale belief is dropped.
     * `q` answers the first existence query, `second` the one createWindow
     * makes, `reply` the request and `resync` any re-query after a failure.
     */
    method ManageWindow(templates: seq<Template>, pinTemplatesEnabled: bool, q: Query, second: Query, reply: Reply, resync: Query)
      requires Valid()
      modifies this
      ensures Valid()
      ensures pinTemplatesEnabled && Pinned(templates) != [] && (IsOpenAnswer(api, q) || IsOpenAnswer(api, second)) ==>
        && calls == old(calls) + (if api.update then [UpdateCall(Pinned(templates))] else [])
        && isActive == AfterUpdate(api, old(isActive), reply, resync)
        && deliveries == old(deliveries) + Notified(listeners, old(isActive), isActive)
      ensures pinTemplatesEnabled && Pinned(templates) != [] && !IsOpenAnswer(api, q) && !IsOpenAnswer(api, second) ==>
        && calls == old(calls) + (if api.create then [CreateCall(Pinned(templates))] else [])
        && isActive == (if api.create && reply == Success then true else old(isActive))
        && deliveries == old(deliveries) + (if api.create && reply == Success then Broadcast(listeners, true) else [])
      ensures !(pinTemplatesEnabled && Pinned(templates) != []) && IsOpenAnswer(api, q) ==>
        && calls == old(calls) + (if api.close then [CloseCall] else [])
        && isActive == AfterClose(api, reply, resync)
        && deliveries == old(deliveries) + (if !api.close || reply == Success then Broadcast(listeners, false) else Notified(listeners, old(isActive), isActive))
      ensures !(pinTemplatesEnabled && Pinned(templates) != []) && !IsOpenAnswer(api, q) ==>
        calls == old(calls) && !isActive
        && deliveries == old(deliveries) + (if old(isActive) then Broadcast(listeners, false) else [])
      ensures listeners == old(listeners)
    {
      var pinnedTemplates := Pinned(templates);
      if pinTemplatesEnabled && |pinnedTemplates| > 0 {
        var windowExists := IsOpenAnswer(api, q);
        if windowExists {
          var _ := UpdateWindow(pinnedTemplates, reply, resync);
        } else {
          var _ := CreateWindow(pinnedTemplates, second, reply, resync);
        }
      } else {
        var windowExists := IsOpenAnswer(api, q);
        if windowExists {
          var _ := CloseWindow(reply, resync);
        } else if isActive {
          isActive := false;
          NotifyListeners();
        }
      }
    }

    /** `forceCloseAll` (lines 204-216): a close, then a final re-query that decides the belief. */
    method ForceCloseAll(reply: Reply, resync: Query, final: Query)
      requires Valid()
      modifies this
      ensures Valid()
      ensures isActive == IsOpenAnswer(api, final)
      ensures calls == old(calls) + (if api.close then [CloseCall] else [])
      ensures var mid := AfterClose(api, reply, resync);
        deliveries == old(deliveries)
          + (if !api.close || reply == Success then Broadcast(listeners, false) else Notified(listeners, old(isActive), mid))
          + Notified(listeners, mid, isActive)
      ensures listeners == old(listeners)
    {
      var _ := CloseWindow(reply, resync);
      SyncState(final);
    }
  }
}

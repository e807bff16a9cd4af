/** The per-object event registry of src/WithEvents.php: for each event type,
    the registrations (id and callback) in subscription order. */
module Events {
  import opened Php

  /** A handler as the registry sees it: an opaque token, and whether PHP's
      `is_callable` accepts it. */
  datatype Callback = Callback(token: nat, callable: bool)

  /** The `['id' => ..., 'cb' => ...]` pair makeEventCallback builds. */
  datatype Registration = Registration(id: string, cb: Callback)

  /** One `call_user_func_array($cb, $params)` that trigger makes. */
  datatype Call = Call(cb: Callback, params: seq<Value>)

  type EventList = map<string, seq<Registration>>

  /** makeEventCallback: refuse a non-callable, otherwise pair the callback
      with the id `uniqid()` produced. */
  function MakeEventCallback(callback: Callback, id: string): (r: Result<Registration>)
    ensures r.Ok? <==> callback.callable
    ensures r.Err? ==> r.error == NotCallable
    ensures r.Ok? ==> r.value.id == id && r.value.cb == callback
  {
    if !callback.callable then Err(NotCallable) else Ok(Registration(id, callback))
  }

  /** The registrations of an event type; none for an unknown type. */
  function Listed(list: EventList, eventType: string): (r: seq<Registration>)
    ensures eventType in list ==> r == list[eventType]
    ensures eventType !in list ==> r == []
  {
    if eventType in list then list[eventType] else []
  }

  /** The ids in use in a registration list. */
  function Ids(regs: seq<Registration>): (r: set<string>)
    ensures forall reg :: reg in regs ==> reg.id in r
    ensures forall id :: id in r ==> exists reg :: reg in regs && reg.id == id
  {
    set r | r in regs :: r.id
  }

  /** subscribe's effect: the registration appended at the end of its type's
      list, which is created when missing. */
  function Subscribed(list: EventList, eventType: string, reg: Registration): (r: EventList)
    ensures r.Keys == list.Keys + {eventType}
    ensures |r[eventType]| == |Listed(list, eventType)| + 1
    ensures r[eventType][..|r[eventType]| - 1] == Listed(list, eventType)
    ensures r[eventType][|r[eventType]| - 1] == reg
    ensures forall t :: t in list && t != eventType ==> r[t] == list[t]
  {
    list[eventType := Listed(list, eventType) + [reg]]
  }

  /** trigger's calls: each registered callback of the type, in order, with
      the same parameters. */
  function Invocations(regs: seq<Registration>, params: seq<Value>): (r: seq<Call>)
    ensures |r| == |regs|
    ensures forall i :: 0 <= i < |regs| ==> r[i] == Call(regs[i].cb, params)
  {
    if regs == [] then [] else Invocations(regs[..|regs| - 1], params) + [Call(regs[|regs| - 1].cb, params)]
  }

  /** trigger's calls for an event type: one per registration of that type,
      in subscription order; none for an unknown type. */
  function Triggered(list: EventList, eventType: string, params: seq<Value>): (r: seq<Call>)
    ensures eventType !in list ==> r == []
    ensures eventType in list ==> |r| == |list[eventType]|
    ensures eventType in list ==> forall i :: 0 <= i < |r| ==> r[i] == Call(list[eventType][i].cb, params)
  {
    Invocations(Listed(list, eventType), params)
  }

  /** The filter closure of unsubscribe: keep the registrations whose id
      differs, in their order. */
  function RemoveById(regs: seq<Registration>, id: string): (r: seq<Registration>)
    ensures |r| <= |regs|
    ensures forall i :: 0 <= i < |r| ==> r[i].id != id
  {
    if regs == [] then []
    else (if regs[0].id != id then [regs[0]] else []) + RemoveById(regs[1..], id)
  }

  /** The filter keeps exactly the registrations with another id. */
  lemma {:induction false} RemoveByIdMembers(regs: seq<Registration>, id: string)
    ensures forall x :: x in RemoveById(regs, id) <==> x in regs && x.id != id
  {
    if regs != [] {
      RemoveByIdMembers(regs[1..], id);
      assert regs == [regs[0]] + regs[1..];
    }
  }

  /** The filter keeps the original order: filtering a concatenation is
      concatenating the filtered parts. */
  lemma {:induction false} RemoveByIdKeepsOrder(a: seq<Registration>, b: seq<Registration>, id: string)
    ensures RemoveById(a + b, id) == RemoveById(a, id) + RemoveById(b, id)
  {
    if a == [] {
      assert a + b == b;
    } else {
      var head := if a[0].id != id then [a[0]] else [];
      assert (a + b)[0] == a[0] && (a + b)[1..] == a[1..] + b;
      assert RemoveById(a + b, id) == head + RemoveById(a[1..] + b, id);
      RemoveByIdKeepsOrder(a[1..], b, id);
      assert RemoveById(a, id) == head + RemoveById(a[1..], id);
    }
  }

  /** Filtering by an id nobody carries changes nothing. */
  lemma {:induction false} RemoveByIdAbsent(regs: seq<Registration>, id: string)
    requires id !in Ids(regs)
    ensures RemoveById(regs, id) == regs
  {
    if regs != [] {
      assert regs[0] in regs;
      assert Ids(regs[1..]) <= Ids(regs) by {
        forall x | x in Ids(regs[1..]) ensures x in Ids(regs) {
          var r :| r in regs[1..] && r.id == x;
          assert r in regs;
        }
      }
      RemoveByIdAbsent(regs[1..], id);
    }
  }

  /** Subscribing under a fresh id and then filtering that id out gives back
      the list as it was. */
  lemma SubscribeThenRemove(regs: seq<Registration>, reg: Registration)
    requires reg.id !in Ids(regs)
    ensures RemoveById(regs + [reg], reg.id) == regs
  {
    RemoveByIdKeepsOrder(regs, [reg], reg.id);
    RemoveByIdAbsent(regs, reg.id);
    assert RemoveById([reg], reg.id) == [];
  }

  /** Triggering after a subscribe makes the earlier calls, then one call of
      the new callback. */
  lemma SubscribeThenTrigger(list: EventList, eventType: string, reg: Registration, params: seq<Value>)
    ensures Triggered(Subscribed(list, eventType, reg), eventType, params) ==
      Triggered(list, eventType, params) + [Call(reg.cb, params)]
  {
    var regs := Listed(list, eventType) + [reg];
    assert regs[..|regs| - 1] == Listed(list, eventType);
  }

  /** Three subscriptions to an unused event type are triggered in
      subscription order, each with the same parameters. */
  lemma TriggerInSubscriptionOrder(list: EventList, eventType: string, r1: Registration, r2: Registration, r3: Registration, params: seq<Value>)
    requires eventType !in list
    ensures var l := Subscribed(Subscribed(Subscribed(list, eventType, r1), eventType, r2), eventType, r3);
      Triggered(l, eventType, params) == [Call(r1.cb, params), Call(r2.cb, params), Call(r3.cb, params)]
  {
    var l1 := Subscribed(list, eventType, r1);
    var l2 := Subscribed(l1, eventType, r2);
    SubscribeThenTrigger(list, eventType, r1, params);
    SubscribeThenTrigger(l1, eventType, r2, params);
    SubscribeThenTrigger(l2, eventType, r3, params);
  }

  /** Every registration id occurs once across the whole registry. */
  ghost predicate UniqueIds(list: EventList)
  {
    forall t, u, i, j ::
      (t in list && u in list && 0 <= i < |list[t]| && 0 <= j < |list[u]| && (t != u || i != j)) ==>
        list[t][i].id != list[u][j].id
  }

  /** Subscribing under an id not yet in use keeps the ids unique (`uniqid`
      itself promises no such thing; this is the assumption the registry
      relies on). */
  lemma SubscribeKeepsIdsUnique(list: EventList, eventType: string, reg: Registration)
    requires UniqueIds(list)
    requires forall t :: t in list ==> reg.id !in Ids(list[t])
    ensures UniqueIds(Subscribed(list, eventType, reg))
  {
    var l: EventList := Subscribed(list, eventType, reg);
    forall t: string, u: string, i: int, j: int | t in l && u in l && 0 <= i < |l[t]| && 0 <= j < |l[u]| && (t != u || i != j)
      ensures l[t][i].id != l[u][j].id
    {
      var n := |l[eventType]| - 1;
      if t == eventType && i == n {
        if u == eventType { assert l[u][j] == Listed(list, eventType)[j]; }
        assert l[u][j] in list[u];
      } else if u == eventType && j == n {
        if t == eventType { assert l[t][i] == Listed(list, eventType)[i]; }
        assert l[t][i] in list[t];
      } else {
        if t == eventType { assert l[t][i] == list[t][i]; }
        if u == eventType { assert l[u][j] == list[u][j]; }
      }
    }
  }

  /** unsubscribe as written: with the event type's list present the negated
      guard skips the filter and reports failure; with it absent PHP hands
      null to array_filter and throws. The registry is never changed. */
  function UnsubscribeAsWritten(list: EventList, eventType: string, callbackId: string): (r: Result<bool>)
    ensures eventType in list ==> r == Ok(false)
    ensures eventType !in list ==> r == Err(FilterOnMissingList(eventType))
  {
    if eventType !in list then Err(FilterOnMissingList(eventType)) else Ok(false)
  }

  /** The evidently intended unsubscribe: filter the list when it exists, and
      report whether the filter ran. */
  function UnsubscribeIntended(list: EventList, eventType: string, callbackId: string): (r: (bool, EventList))
    ensures r.0 <==> eventType in list
    ensures r.1.Keys == list.Keys
    ensures forall t :: t in list && t != eventType ==> r.1[t] == list[t]
    ensures eventType in list ==> r.1[eventType] == RemoveById(list[eventType], callbackId)
  {
    if eventType in list then (true, list[eventType := RemoveById(list[eventType], callbackId)]) else (false, list)
  }

  /** The registration the as-written unsubscribe was asked to remove is still
      registered afterwards, while the intended one removes it. */
  lemma AsWrittenUnsubscribeKeepsRegistration(list: EventList, eventType: string, reg: Registration)
    requires eventType in list && reg in list[eventType]
    ensures UnsubscribeAsWritten(list, eventType, reg.id) == Ok(false)
    ensures reg !in UnsubscribeIntended(list, eventType, reg.id).1[eventType]
  {
    RemoveByIdMembers(list[eventType], reg.id);
  }

  /** With the intended unsubscribe, removing the id a subscribe just returned
      restores the registry (for an event type that already had a list). */
  lemma SubscribeThenUnsubscribeIntended(list: EventList, eventType: string, reg: Registration)
    requires eventType in list && reg.id !in Ids(list[eventType])
    ensures UnsubscribeIntended(Subscribed(list, eventType, reg), eventType, reg.id) == (true, list)
  {
    var l := Subscribed(list, eventType, reg);
    assert l[eventType] == list[eventType] + [reg];
    SubscribeThenRemove(list[eventType], reg);
    var after := UnsubscribeIntended(l, eventType, reg.id).1;
    assert after[eventType] == list[eventType];
    assert after == list;
  }

  /** With the intended unsubscribe, a registration removed by its (unique)
      id is no longer called by trigger, and every other registration of the
      type still is, in its place in the order. */
  lemma UnsubscribeThenTrigger(list: EventList, eventType: string, before: seq<Registration>,
                               reg: Registration, after: seq<Registration>, params: seq<Value>)
    requires eventType in list && list[eventType] == before + [reg] + after
    requires reg.id !in Ids(before) && reg.id !in Ids(after)
    ensures Triggered(UnsubscribeIntended(list, eventType, reg.id).1, eventType, params) ==
      Invocations(before, params) + Invocations(after, params)
  {
    RemoveByIdFromMiddle(before, reg, after);
    assert UnsubscribeIntended(list, eventType, reg.id).1[eventType] == before + after;
    InvocationsConcat(before, after, params);
  }

  /** Filtering out the id of the only registration that carries it removes
      just that registration. */
  lemma RemoveByIdFromMiddle(before: seq<Registration>, reg: Registration, after: seq<Registration>)
    requires reg.id !in Ids(before) && reg.id !in Ids(after)
    ensures RemoveById(before + [reg] + after, reg.id) == before + after
  {
    var id := reg.id;
    calc {
      RemoveById(before + [reg] + after, id);
      { RemoveByIdKeepsOrder(before + [reg], after, id); }
      RemoveById(before + [reg], id) + RemoveById(after, id);
      { RemoveByIdKeepsOrder(before, [reg], id); }
      RemoveById(before, id) + RemoveById([reg], id) + RemoveById(after, id);
      { RemoveByIdAbsent(before, id); RemoveByIdAbsent(after, id); RemoveByIdOwn(reg); }
      before + [] + after;
      { assert before + [] == before; }
      before + after;
    }
  }

  /** A registration alone, filtered by its own id, is gone. */
  lemma RemoveByIdOwn(reg: Registration)
    ensures RemoveById([reg], reg.id) == []
  {
    assert [reg][1..] == [];
  }

  /** Triggering a concatenation makes the calls of each part in turn. */
  lemma InvocationsConcat(a: seq<Registration>, b: seq<Registration>, params: seq<Value>)
    ensures Invocations(a + b, params) == Invocations(a, params) + Invocations(b, params)
  {
    var l := Invocations(a + b, params);
    var r := Invocations(a, params) + Invocations(b, params);
    assert |l| == |r|;
    forall i | 0 <= i < |l| ensures l[i] == r[i] {
      if i < |a| { assert (a + b)[i] == a[i]; } else { assert (a + b)[i] == b[i - |a|]; }
    }
  }

  /** clear's effect: drop the event type's list. */
  function Cleared(list: EventList, eventType: string): (r: EventList)
    ensures r.Keys == list.Keys - {eventType}
    ensures forall t :: t in r ==> r[t] == list[t]
  {
    list - {eventType}
  }

  class EventBus {
    /** `$eventList`: event type to its registrations. */
    var eventList: EventList

    constructor ()
      ensures eventList == map[]
    {
      eventList := map[];
    }

    /** subscribe: refuse a non-callable before touching the registry;
        otherwise append the registration under the id `uniqid()` gave
        (`freshId`) and return that id. */
    method Subscribe(eventType: string, callback: Callback, freshId: string) returns (r: Result<string>)
      modifies this
      ensures callback.callable ==>
        r == Ok(freshId) && eventList == Subscribed(old(eventList), eventType, Registration(freshId, callback))
      ensures !callback.callable ==> r == Err(NotCallable) && eventList == old(eventList)
    {
      var made := MakeEventCallback(callback, freshId);
      if made.Err? {
        return Err(made.error);
      }
      var reg := made.value;
      if eventType !in eventList {
        eventList := eventList[eventType := []];
      }
      eventList := eventList[eventType := eventList[eventType] + [reg]];
      r := Ok(reg.id);
    }

    /** unsubscribe as the source has it (see UnsubscribeAsWritten): the
        registry is left as it is in every case. */
    method Unsubscribe(eventType: string, callbackId: string) returns (r: Result<bool>)
      ensures r == UnsubscribeAsWritten(eventList, eventType, callbackId)
      ensures eventType in eventList ==> r == Ok(false)
    {
      var success := false;
      if eventType !in eventList {
        return Err(FilterOnMissingList(eventType));
      }
      r := Ok(success);
    }

    /** unsubscribe with the guard the authors meant: filter the type's list
        when it exists. */
    method UnsubscribeFixed(eventType: string, callbackId: string) returns (success: bool)
      modifies this
      ensures (success, eventList) == UnsubscribeIntended(old(eventList), eventType, callbackId)
    {
      success := false;
      if eventType in eventList {
        eventList := eventList[eventType := RemoveById(eventList[eventType], callbackId)];
        success := true;
      }
    }

    /** trigger: one call per registration of the type, in order, each with
        `params`; nothing for an unknown type; the registry is not changed. */
    method Trigger(eventType: string, params: seq<Value>) returns (calls: seq<Call>)
      ensures calls == Triggered(eventList, eventType, params)
      ensures eventType !in eventList ==> calls == []
    {
      calls := [];
      if eventType in eventList {
        var regs := eventList[eventType];
        var i := 0;
        while i < |regs|
          invariant i <= |regs|
          invariant |calls| == i
          invariant forall k :: 0 <= k < i ==> calls[k] == Call(regs[k].cb, params)
        {
          calls := calls + [Call(regs[i].cb, params)];
          i := i + 1;
        }
      }
    }

    /** clear: drop the type's list, if any; returns the object. */
    method Clear(eventType: string) returns (self: EventBus)
      modifies this
      ensures self == this && eventList == Cleared(old(eventList), eventType)
    {
      if eventType in eventList {
        eventList := eventList - {eventType};
      }
      self := this;
    }
  }
}

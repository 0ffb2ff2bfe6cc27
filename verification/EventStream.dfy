/**
 The event bus of the client. Subscribing appends a handler and returns its index; unsubscribing writes
 a no-op over it, so that the indexes of later handlers stay valid. The reference is a list of live
 subscriptions from which handles are simply removed.
 */
module EventStream {
  import opened Wrappers
  import opened Sequences

  // ----- one list of subscribers

  /** A slot holds a handler or, once unsubscribed or never filled, nothing to call. */
  type Slots<H> = seq<Option<H>>

  datatype Operation<H> = Subscribe(handler: H) | Unsubscribe(index: int)

  function Empty<H>(n: nat): (r: Slots<H>)
    ensures |r| == n
    ensures forall i :: 0 <= i < n ==> r[i] == None
  {
    if n == 0 then [] else Empty(n - 1) + [None]
  }

  /** Writing beyond the end of the array extends it; a negative index is no element. */
  function Apply<H>(slots: Slots<H>, operation: Operation<H>): Slots<H> {
    match operation
    case Subscribe(handler) => slots + [Some(handler)]
    case Unsubscribe(index) =>
      if index < 0 then slots
      else if index < |slots| then slots[index := None]
      else slots + Empty(index - |slots| + 1)
  }

  function SlotsAfter<H>(operations: seq<Operation<H>>): Slots<H> {
    var n := |operations|;
    if n == 0 then [] else Apply(SlotsAfter(operations[..n - 1]), operations[n - 1])
  }

  /** The handlers an event reaches, in the order of the array. */
  function Notified<H>(slots: Slots<H>): seq<H> {
    var n := |slots|;
    if n == 0 then []
    else Notified(slots[..n - 1]) + (if slots[n - 1].Some? then [slots[n - 1].value] else [])
  }

  // ----- the reference: live subscriptions

  datatype Subscription<H> = Subscription(handle: int, handler: H)

  function NextHandle<H>(operations: seq<Operation<H>>): nat {
    var n := |operations|;
    if n == 0 then 0
    else
      var next := NextHandle(operations[..n - 1]);
      match operations[n - 1]
      case Subscribe(_) => next + 1
      case Unsubscribe(index) => if index >= next then index + 1 else next
  }

  function Without<H>(live: seq<Subscription<H>>, handle: int): seq<Subscription<H>> {
    Select(live, (s: Subscription<H>) => s.handle != handle)
  }

  lemma WithoutMember<H>(live: seq<Subscription<H>>, handle: int, s: Subscription<H>)
    ensures s in Without(live, handle) <==> s in live && s.handle != handle
  {
    SelectMembers(live, (s: Subscription<H>) => s.handle != handle);
  }

  function Live<H>(operations: seq<Operation<H>>): seq<Subscription<H>> {
    var n := |operations|;
    if n == 0 then []
    else
      var live := Live(operations[..n - 1]);
      match operations[n - 1]
      case Subscribe(handler) => live + [Subscription(NextHandle(operations[..n - 1]), handler)]
      case Unsubscribe(index) => Without(live, index)
  }

  function Handlers<H>(live: seq<Subscription<H>>): seq<H> {
    var n := |live|;
    if n == 0 then [] else Handlers(live[..n - 1]) + [live[n - 1].handler]
  }

  // ----- refinement

  /** The filled slots with their indexes. */
  function Filled<H>(slots: Slots<H>): seq<Subscription<H>> {
    var n := |slots|;
    if n == 0 then []
    else Filled(slots[..n - 1]) + (if slots[n - 1].Some? then [Subscription(n - 1, slots[n - 1].value)] else [])
  }

  /** The filled slot at the end, if it is one. */
  function Last<H>(slots: Slots<H>): seq<Subscription<H>>
    requires |slots| > 0
  {
    var n := |slots|;
    if slots[n - 1].Some? then [Subscription(n - 1, slots[n - 1].value)] else []
  }

  lemma {:induction false} FilledIsSound<H>(slots: Slots<H>, s: Subscription<H>)
    requires s in Filled(slots)
    ensures 0 <= s.handle < |slots| && slots[s.handle] == Some(s.handler)
  {
    var n := |slots|;
    if n != 0 {
      var front := slots[..n - 1];
      if s in Filled(front) {
        FilledIsSound(front, s);
      }
    }
  }

  lemma {:induction false} FilledIsComplete<H>(slots: Slots<H>, i: nat)
    requires i < |slots| && slots[i].Some?
    ensures Subscription(i, slots[i].value) in Filled(slots)
  {
    var n := |slots|;
    if i < n - 1 {
      FilledIsComplete(slots[..n - 1], i);
    }
  }

  lemma {:induction false} HandlersAppend<H>(live: seq<Subscription<H>>, s: Subscription<H>)
    ensures Handlers(live + [s]) == Handlers(live) + [s.handler]
  {
    assert (live + [s])[..|live|] == live;
  }

  lemma {:induction false} FilledAreNotified<H>(slots: Slots<H>)
    ensures Handlers(Filled(slots)) == Notified(slots)
  {
    var n := |slots|;
    if n != 0 {
      var front := slots[..n - 1];
      FilledAreNotified(front);
      if slots[n - 1].Some? {
        HandlersAppend(Filled(front), Subscription(n - 1, slots[n - 1].value));
      } else {
        assert Filled(slots) == Filled(front);
      }
    }
  }

  lemma {:induction false} FilledEmpty<H>(slots: Slots<H>, n: nat)
    ensures Filled(slots + Empty(n)) == Filled(slots)
  {
    if n == 0 {
      assert slots + Empty(0) == slots;
    } else {
      assert (slots + Empty(n))[..|slots| + n - 1] == slots + Empty(n - 1);
      FilledEmpty(slots, n - 1);
    }
  }

  /** Removing a handle that no slot has changes nothing. */
  lemma {:induction false} ForeignHandle<H>(slots: Slots<H>, index: int)
    requires index < 0 || index >= |slots|
    ensures Without(Filled(slots), index) == Filled(slots)
  {
    forall s | s in Filled(slots) ensures s.handle != index {
      FilledIsSound(slots, s);
    }
    SelectAll(Filled(slots), (s: Subscription<H>) => s.handle != index);
  }

  /** Writing a no-op over a slot removes exactly the subscription of that handle. */
  lemma {:induction false} TombstoneRemoves<H>(slots: Slots<H>, index: nat)
    requires index < |slots|
    ensures Filled(slots[index := None]) == Without(Filled(slots), index)
  {
    var n := |slots|;
    var front := slots[..n - 1];
    SelectConcat(Filled(front), Last(slots), (s: Subscription<H>) => s.handle != index);
    assert Without(Filled(slots), index) == Without(Filled(front), index) + Without(Last(slots), index);
    if index == n - 1 {
      assert slots[index := None][..n - 1] == front;
      ForeignHandle(front, index);
      assert Without(Last(slots), index) == [];
    } else {
      assert slots[index := None][..n - 1] == front[index := None];
      TombstoneRemoves(front, index);
      assert Without(Last(slots), index) == Last(slots);
    }
  }

  lemma {:induction false} ApplyRemoves<H>(slots: Slots<H>, index: int)
    ensures Filled(Apply(slots, Unsubscribe(index))) == Without(Filled(slots), index)
  {
    if 0 <= index < |slots| {
      TombstoneRemoves(slots, index);
    } else {
      ForeignHandle(slots, index);
      if index >= 0 {
        FilledEmpty(slots, index - |slots| + 1);
      }
    }
  }

  /**
   Over any sequence of subscriptions and unsubscriptions, with any indexes, the array of tombstones
   holds exactly the live subscriptions at their handles, and an event reaches their handlers in order.
   */
  lemma {:induction false} SlotsHoldLive<H>(operations: seq<Operation<H>>)
    ensures |SlotsAfter(operations)| == NextHandle(operations)
    ensures Filled(SlotsAfter(operations)) == Live(operations)
    ensures Notified(SlotsAfter(operations)) == Handlers(Live(operations))
  {
    var n := |operations|;
    FilledAreNotified(SlotsAfter(operations));
    if n != 0 {
      var slots := SlotsAfter(operations[..n - 1]);
      SlotsHoldLive(operations[..n - 1]);
      match operations[n - 1]
      case Subscribe(handler) =>
        assert (slots + [Some(handler)])[..|slots|] == slots;
      case Unsubscribe(index) =>
        ApplyRemoves(slots, index);
    }
  }

  lemma {:induction false} SlotStays<H>(operations: seq<Operation<H>>, i: nat, handle: nat)
    requires i < |operations| && operations[i].Subscribe?
    requires |SlotsAfter(operations[..i])| == handle
    requires forall j :: i < j < |operations| ==> operations[j] != Unsubscribe(handle)
    ensures handle < |SlotsAfter(operations)| && SlotsAfter(operations)[handle] == Some(operations[i].handler)
  {
    var n := |operations|;
    var front := operations[..n - 1];
    if i < n - 1 {
      assert front[..i] == operations[..i];
      SlotStays(front, i, handle);
      assert operations[n - 1] != Unsubscribe(handle);
    }
  }

  /** A handle keeps naming its handler, and no other, until it is unsubscribed itself. */
  lemma HandleStaysValid<H>(operations: seq<Operation<H>>, i: nat)
    requires i < |operations| && operations[i].Subscribe?
    requires forall j :: i < j < |operations| ==> operations[j] != Unsubscribe(NextHandle(operations[..i]))
    ensures Subscription(NextHandle(operations[..i]), operations[i].handler) in Live(operations)
  {
    SlotsHoldLive(operations[..i]);
    SlotStays(operations, i, NextHandle(operations[..i]));
    SlotsHoldLive(operations);
    FilledIsComplete(SlotsAfter(operations), NextHandle(operations[..i]));
  }

  /** No two live subscriptions share a handle, whatever was unsubscribed. */
  lemma HandlesAreDistinct<H>(operations: seq<Operation<H>>, s: Subscription<H>, t: Subscription<H>)
    requires s in Live(operations) && t in Live(operations) && s.handle == t.handle
    ensures s == t
  {
    SlotsHoldLive(operations);
    FilledIsSound(SlotsAfter(operations), s);
    FilledIsSound(SlotsAfter(operations), t);
  }

  /** Once unsubscribed, a handle is never handed out again and reaches nobody. */
  lemma {:induction false} HandleStaysRemoved<H>(operations: seq<Operation<H>>, i: nat, handle: nat)
    requires i < |operations| && operations[i] == Unsubscribe(handle)
    ensures NextHandle(operations) > handle
    ensures forall s :: s in Live(operations) ==> s.handle != handle
  {
    var n := |operations|;
    var front := operations[..n - 1];
    if i < n - 1 {
      HandleStaysRemoved(front, i, handle);
    }
    forall s | s in Live(operations) ensures s.handle != handle {
      match operations[n - 1]
      case Subscribe(handler) =>
        assert s in Live(front) || s == Subscription(NextHandle(front), handler);
      case Unsubscribe(index) =>
        WithoutMember(Live(front), index, s);
    }
  }

  // ----- the bus

  datatype EventType = Add | Update | Delete | Other

  datatype Event = Event(eventType: EventType, id: int)

  /** Calls every subscriber of a list in order; the handlers called are the result. */
  method NotifyAll<H>(slots: Slots<H>) returns (called: seq<H>)
    ensures called == Notified(slots)
  {
    called := [];
    var i := 0;
    while i < |slots|
      invariant 0 <= i <= |slots|
      invariant called == Notified(slots[..i])
    {
      if slots[i].Some? {
        called := called + [slots[i].value];
      }
      i := i + 1;
      assert slots[..i][..i - 1] == slots[..i - 1];
    }
    assert slots[..|slots|] == slots;
  }

  class Stream<H> {
    var addSubscribers: Slots<H>
    var updateSingleSubscribers: map<int, Slots<H>>
    var updateManySubscribers: Slots<H>
    var deleteSubscribers: Slots<H>

    // What was asked of each list so far.
    ghost var addLog: seq<Operation<H>>
    ghost var updateSingleLogs: map<int, seq<Operation<H>>>
    ghost var updateManyLog: seq<Operation<H>>
    ghost var deleteLog: seq<Operation<H>>

    ghost predicate Valid()
      reads this
    {
      && addSubscribers == SlotsAfter(addLog)
      && updateManySubscribers == SlotsAfter(updateManyLog)
      && deleteSubscribers == SlotsAfter(deleteLog)
      && updateSingleSubscribers.Keys == updateSingleLogs.Keys
      && forall id :: id in updateSingleLogs ==> updateSingleSubscribers[id] == SlotsAfter(updateSingleLogs[id])
    }

    /** Who should hear of an event: the live subscriptions to its type, and to its entity, as they subscribed. */
    ghost function Audience(event: Event): seq<H>
      reads this
    {
      match event.eventType
      case Add => Handlers(Live(addLog))
      case Update =>
        Handlers(Live(updateManyLog))
        + (if event.id in updateSingleLogs then Handlers(Live(updateSingleLogs[event.id])) else [])
      case Delete => Handlers(Live(deleteLog))
      case Other => []
    }

    constructor ()
      ensures Valid()
      ensures addLog == updateManyLog == deleteLog == [] && updateSingleLogs == map[]
    {
      addSubscribers, updateManySubscribers, deleteSubscribers := [], [], [];
      updateSingleSubscribers := map[];
      addLog, updateManyLog, deleteLog, updateSingleLogs := [], [], [], map[];
    }

    method SubscribeOnAdd(onAdd: H) returns (handle: int)
      requires Valid()
      modifies this`addSubscribers, this`addLog
      ensures Valid() && addLog == old(addLog) + [Subscribe(onAdd)]
      ensures handle == NextHandle(old(addLog))
    {
      SlotsHoldLive(addLog);
      addSubscribers := addSubscribers + [Some(onAdd)];
      handle := |addSubscribers| - 1;
      addLog := addLog + [Subscribe(onAdd)];
      assert addLog[..|addLog| - 1] == old(addLog);
    }

    method SubscribeOnDelete(onDelete: H) returns (handle: int)
      requires Valid()
      modifies this`deleteSubscribers, this`deleteLog
      ensures Valid() && deleteLog == old(deleteLog) + [Subscribe(onDelete)]
      ensures handle == NextHandle(old(deleteLog))
    {
      SlotsHoldLive(deleteLog);
      deleteSubscribers := deleteSubscribers + [Some(onDelete)];
      handle := |deleteSubscribers| - 1;
      deleteLog := deleteLog + [Subscribe(onDelete)];
      assert deleteLog[..|deleteLog| - 1] == old(deleteLog);
    }

    method SubscribeOnUpdateMany(handler: H) returns (handle: int)
      requires Valid()
      modifies this`updateManySubscribers, this`updateManyLog
      ensures Valid() && updateManyLog == old(updateManyLog) + [Subscribe(handler)]
      ensures handle == NextHandle(old(updateManyLog))
    {
      SlotsHoldLive(updateManyLog);
      updateManySubscribers := updateManySubscribers + [Some(handler)];
      handle := |updateManySubscribers| - 1;
      updateManyLog := updateManyLog + [Subscribe(handler)];
      assert updateManyLog[..|updateManyLog| - 1] == old(updateManyLog);
    }

    method SubscribeOnUpdateSingle(id: int, handler: H) returns (handle: int)
      requires Valid()
      modifies this`updateSingleSubscribers, this`updateSingleLogs
      ensures Valid()
      ensures var log := if id in old(updateSingleLogs) then old(updateSingleLogs)[id] else [];
              && updateSingleLogs == old(updateSingleLogs)[id := log + [Subscribe(handler)]]
              && handle == NextHandle(log)
    {
      ghost var log := if id in updateSingleLogs then updateSingleLogs[id] else [];
      SlotsHoldLive(log);
      assert (log + [Subscribe(handler)])[..|log|] == log;
      updateSingleLogs := updateSingleLogs[id := log + [Subscribe(handler)]];
      if id in updateSingleSubscribers {
        var slots := updateSingleSubscribers[id] + [Some(handler)];
        updateSingleSubscribers := updateSingleSubscribers[id := slots];
        handle := |slots| - 1;
      } else {
        updateSingleSubscribers := updateSingleSubscribers[id := [Some(handler)]];
        handle := 0;
      }
    }

    method UnsubscribeFromAdd(index: int)
      requires Valid()
      modifies this`addSubscribers, this`addLog
      ensures Valid() && addLog == old(addLog) + [Unsubscribe(index)]
    {
      addSubscribers := Apply(addSubscribers, Unsubscribe(index));
      addLog := addLog + [Unsubscribe(index)];
      assert addLog[..|addLog| - 1] == old(addLog);
    }

    method UnsubscribeFromDelete(index: int)
      requires Valid()
      modifies this`deleteSubscribers, this`deleteLog
      ensures Valid() && deleteLog == old(deleteLog) + [Unsubscribe(index)]
    {
      deleteSubscribers := Apply(deleteSubscribers, Unsubscribe(index));
      deleteLog := deleteLog + [Unsubscribe(index)];
      assert deleteLog[..|deleteLog| - 1] == old(deleteLog);
    }

    method UnsubscribeFromUpdateMany(index: int)
      requires Valid()
      modifies this`updateManySubscribers, this`updateManyLog
      ensures Valid() && updateManyLog == old(updateManyLog) + [Unsubscribe(index)]
    {
      updateManySubscribers := Apply(updateManySubscribers, Unsubscribe(index));
      updateManyLog := updateManyLog + [Unsubscribe(index)];
      assert updateManyLog[..|updateManyLog| - 1] == old(updateManyLog);
    }

    /** An entity nobody subscribed to is not entered into the map. */
    method UnsubscribeFromUpdateSingle(id: int, index: int)
      requires Valid()
      modifies this`updateSingleSubscribers, this`updateSingleLogs
      ensures Valid()
      ensures updateSingleLogs == if id in old(updateSingleLogs)
                                  then old(updateSingleLogs)[id := old(updateSingleLogs)[id] + [Unsubscribe(index)]]
                                  else old(updateSingleLogs)
    {
      if id in updateSingleSubscribers {
        ghost var log := updateSingleLogs[id];
        assert (log + [Unsubscribe(index)])[..|log|] == log;
        updateSingleSubscribers :=
          updateSingleSubscribers[id := Apply(updateSingleSubscribers[id], Unsubscribe(index))];
        updateSingleLogs := updateSingleLogs[id := log + [Unsubscribe(index)]];
      }
    }

    /** An event calls exactly its audience, in the order of subscription. */
    method ProduceEvent(event: Event) returns (called: seq<H>)
      requires Valid()
      ensures called == Audience(event)
      ensures event.eventType == Add ==> called == Handlers(Live(addLog))
      ensures event.eventType == Delete ==> called == Handlers(Live(deleteLog))
      ensures event.eventType == Update && event.id in updateSingleLogs ==>
                called == Handlers(Live(updateManyLog)) + Handlers(Live(updateSingleLogs[event.id]))
      ensures event.eventType == Update && event.id !in updateSingleLogs ==> called == Handlers(Live(updateManyLog))
      ensures event.eventType == Other ==> called == []
    {
      called := [];
      match event.eventType
      case Add =>
        SlotsHoldLive(addLog);
        called := NotifyAll(addSubscribers);
      case Update =>
        SlotsHoldLive(updateManyLog);
        called := NotifyAll(updateManySubscribers);
        if event.id !in updateSingleSubscribers {
          return;
        }
        SlotsHoldLive(updateSingleLogs[event.id]);
        var single := NotifyAll(updateSingleSubscribers[event.id]);
        called := called + single;
      case Delete =>
        SlotsHoldLive(deleteLog);
        called := NotifyAll(deleteSubscribers);
      case Other =>
    }
  }
}

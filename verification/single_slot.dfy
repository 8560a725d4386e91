/** The single-slot `Event<Args...>` of include/glfwpp/event.h: one
    `std::function` field that `setCallback` overwrites and that calling the
    event invokes when it is set. */
module SingleSlot {
  import opened Calls
  import Multicast

  /** The calls one invocation performs: the stored handler once, or nothing
      when the slot is empty. */
  function SlotTrace<A>(slot: Option<HandlerId>, args: A): (calls: seq<Call<A>>)
    ensures |calls| <= 1
    ensures slot.None? <==> calls == []
    ensures forall c :: c in calls ==> slot == Some(c.handler) && c.args == args
  {
    match slot
    case None => []
    case Some(h) => [Call(h, args)]
  }

  /** Invoking a slot calls what dispatching a multicast list holding at
      most that one handler calls. */
  lemma SlotAsList<A>(slot: Option<HandlerId>, t: Multicast.Token, args: A)
    ensures slot.None? ==> SlotTrace(slot, args) == Multicast.Trace([], args)
    ensures slot.Some? ==> SlotTrace(slot, args) == Multicast.Trace([Multicast.Entry(t, slot.value)], args)
  {
    if slot.Some? {
      Multicast.TraceAt([Multicast.Entry(t, slot.value)], args);
    }
  }

  class SingleSlotEvent<A> {
    /** `_handler`; `None` is an empty `std::function`. */
    var handler: Option<HandlerId>

    /** A default-constructed event holds no handler. */
    constructor ()
      ensures handler == None
    {
      handler := None;
    }

    /** `setCallback`: the new callable replaces whatever was stored; an
        empty one (`nullptr`, an empty `std::function`) empties the slot. */
    method SetCallback(h: Option<HandlerId>)
      modifies this
      ensures handler == h
    {
      handler := h;
    }

    /** `operator()`: calls the stored handler, if any, with the arguments;
        the slot itself is left as it was. */
    method Invoke(args: A) returns (calls: seq<Call<A>>)
      ensures calls == SlotTrace(handler, args)
      ensures handler.None? ==> calls == []
      ensures handler.Some? ==> calls == [Call(handler.value, args)]
    {
      if handler.Some? {
        calls := [Call(handler.value, args)];
      } else {
        calls := [];
      }
    }
  }

  /** A fresh event performs no call. */
  method FreshInvoke<A>(args: A) returns (calls: seq<Call<A>>)
    ensures calls == []
  {
    var e := new SingleSlotEvent<A>();
    calls := e.Invoke(args);
  }

  /** After `setCallback(f)` the event calls `f` exactly once per invocation,
      and keeps doing so: invoking does not consume the handler. */
  method SetThenInvokeTwice<A>(f: HandlerId, args1: A, args2: A)
    returns (first: seq<Call<A>>, second: seq<Call<A>>)
    ensures first == [Call(f, args1)]
    ensures second == [Call(f, args2)]
  {
    var e := new SingleSlotEvent<A>();
    e.SetCallback(Some(f));
    first := e.Invoke(args1);
    second := e.Invoke(args2);
  }

  /** After `setCallback(f)` and then `setCallback(g)`, invoking calls `g`
      and never `f`. */
  method ReplaceCallback<A>(f: HandlerId, g: HandlerId, args: A) returns (calls: seq<Call<A>>)
    ensures calls == [Call(g, args)]
    ensures f != g ==> forall c :: c in calls ==> c.handler != f
  {
    var e := new SingleSlotEvent<A>();
    e.SetCallback(Some(f));
    e.SetCallback(Some(g));
    calls := e.Invoke(args);
  }

  /** After `setCallback(f)` and then `setCallback(nullptr)`, invoking calls
      nothing: clearing the slot forgets `f`. */
  method SetThenClear<A>(f: HandlerId, args: A) returns (calls: seq<Call<A>>)
    ensures calls == []
  {
    var e := new SingleSlotEvent<A>();
    e.SetCallback(Some(f));
    e.SetCallback(None);
    calls := e.Invoke(args);
  }
}

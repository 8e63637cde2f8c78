/** The event manager of `src/event_manager.rs`: handlers registered per event
    type, called in registration order on dispatch. Type ids, handlers and events
    are opaque identities, and each handler call is recorded. */
module EventManagers {
  type TypeId = nat

  /** The type id of `Close`, whose dispatch ends the process. */
  const CloseType: TypeId := 0

  datatype Delivery = Delivery(handler: nat, event: nat)

  /** Each of `handlers` receiving `e`, in order. */
  function Deliveries(handlers: seq<nat>, e: nat): (r: seq<Delivery>)
    ensures |r| == |handlers| && forall k :: 0 <= k < |r| ==> r[k] == Delivery(handlers[k], e)
  {
    if handlers == [] then [] else Deliveries(handlers[..|handlers| - 1], e) + [Delivery(handlers[|handlers| - 1], e)]
  }

  /** The handlers registered for type `t`. */
  function HandlersOf(table: map<TypeId, seq<nat>>, t: TypeId): seq<nat>
  {
    if t in table then table[t] else []
  }

  class EventManager {
    var handlers: map<TypeId, seq<nat>>
    var delivered: seq<Delivery>

    /** `EventManager::new`: no handlers. */
    constructor ()
      ensures handlers == map[] && delivered == []
    {
      handlers := map[];
      delivered := [];
    }

    /** `on::<E>`: appends `f` to the handlers of `E`, creating the list if needed;
        other types keep theirs. */
    method On(t: TypeId, f: nat)
      modifies this
      ensures HandlersOf(handlers, t) == HandlersOf(old(handlers), t) + [f]
      ensures forall u :: u != t ==> HandlersOf(handlers, u) == HandlersOf(old(handlers), u)
      ensures handlers.Keys == old(handlers.Keys) + {t} && delivered == old(delivered)
    {
      if t in handlers {
        handlers := handlers[t := handlers[t] + [f]];
      } else {
        handlers := handlers[t := [f]];
      }
    }

    /** `dispatch`: each handler of the event's type `t` receives a copy of `e`
        once, in registration order, and no other handler is called; `exits` is
        whether the process then ends, which it does for `Close`. */
    method Dispatch(t: TypeId, e: nat) returns (exits: bool)
      modifies this
      ensures delivered == old(delivered) + Deliveries(HandlersOf(handlers, t), e)
      ensures handlers == old(handlers)
      ensures exits <==> t == CloseType
    {
      if t in handlers {
        var hs := handlers[t];
        var i := 0;
        while i < |hs|
          invariant 0 <= i <= |hs| && handlers == old(handlers)
          invariant delivered == old(delivered) + Deliveries(hs[..i], e)
        {
          assert hs[..i + 1][..i] == hs[..i];
          delivered := delivered + [Delivery(hs[i], e)];
          i := i + 1;
        }
        assert hs[..i] == hs;
      } else {
        assert Deliveries([], e) == [];
      }
      exits := t == CloseType;
    }
  }

  /** A type nobody registered for calls no handler. */
  lemma UnregisteredCallsNothing(table: map<TypeId, seq<nat>>, t: TypeId, e: nat)
    requires t !in table
    ensures Deliveries(HandlersOf(table, t), e) == []
  {
  }

  /** Registering for one type does not change what dispatching another delivers,
      and a new handler receives events of its type after all earlier ones. */
  lemma {:induction false} RegistrationOrder(hs: seq<nat>, f: nat, e: nat)
    ensures Deliveries(hs + [f], e) == Deliveries(hs, e) + [Delivery(f, e)]
  {
    assert (hs + [f])[..|hs|] == hs;
  }
}

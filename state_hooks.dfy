/** The state hook of `src/hooks/state.rs`: a `State<T>` handle shares a value and
    a list of dependent effects with all its clones. Setting the value, or writing
    through the guard `get` returns, calls every dependent once, in the order they
    were registered. Effects are opaque identities; calling one appends it to an
    `EffectLog`. */
module StateHooks {
  /** The effects called so far, in order. */
  class EffectLog {
    var calls: seq<nat>

    constructor ()
      ensures calls == []
    {
      calls := [];
    }
  }

  /** The shared part of a state: its value and its dependents. */
  class Shared<T> {
    var value: T
    var dependents: seq<nat>

    constructor (v: T)
      ensures value == v && dependents == []
    {
      value := v;
      dependents := [];
    }
  }

  /** Calls every dependent once, in order (the loop of `update` and of the guard's
      `drop`). */
  method CallAll(dependents: seq<nat>, log: EffectLog)
    modifies log
    ensures log.calls == old(log.calls) + dependents
  {
    var i := 0;
    while i < |dependents|
      invariant 0 <= i <= |dependents| && log.calls == old(log.calls) + dependents[..i]
    {
      assert dependents[..i + 1] == dependents[..i] + [dependents[i]];
      log.calls := log.calls + [dependents[i]];
      i := i + 1;
    }
    assert dependents[..i] == dependents;
  }

  /** A `State<T>` handle. */
  class State<T> {
    const shared: Shared<T>

    constructor Of(s: Shared<T>)
      ensures shared == s
    {
      shared := s;
    }

    /** `get_dl`: a copy of the value the shared cell holds now. */
    function GetDl(): (v: T)
      reads this, shared
      ensures v == shared.value
    {
      shared.value
    }

    /** `set`: stores `v`, then calls every dependent once, in order. */
    method Set(v: T, log: EffectLog)
      modifies shared, log
      ensures GetDl() == v && shared.dependents == old(shared.dependents)
      ensures log.calls == old(log.calls) + shared.dependents
    {
      shared.value := v;
      Update(log);
    }

    /** `update`: calls every dependent once, in order; the value is unchanged. */
    method Update(log: EffectLog)
      modifies log
      ensures log.calls == old(log.calls) + shared.dependents
    {
      CallAll(shared.dependents, log);
    }

    /** `on_update`: registers a dependent. */
    method OnUpdate(hook: nat)
      modifies shared
      ensures shared.dependents == old(shared.dependents) + [hook] && GetDl() == old(GetDl())
    {
      shared.dependents := shared.dependents + [hook];
    }

    /** `clone`: a new handle on the same value and dependents. */
    method Clone() returns (c: State<T>)
      ensures fresh(c) && c.shared == shared
    {
      c := new State.Of(shared);
    }

    /** `get`: a guard on the value that has not been written through. */
    method Get() returns (g: Inner<T>)
      ensures fresh(g) && g.shared == shared && !g.updated
      ensures g.Deref() == GetDl()
    {
      g := new Inner(shared);
    }
  }

  /** `use_state`: a fresh state holding `v`, with no dependents. */
  method UseState<T>(v: T) returns (s: State<T>)
    ensures fresh(s) && fresh(s.shared) && s.GetDl() == v && s.shared.dependents == []
  {
    var sh := new Shared(v);
    s := new State.Of(sh);
  }

  /** The guard `Inner`: reading (`deref`) leaves it clean, writing (`deref_mut`)
      marks it updated, and dropping an updated guard calls the dependents. */
  class Inner<T> {
    const shared: Shared<T>
    var updated: bool

    constructor (s: Shared<T>)
      ensures shared == s && !updated
    {
      shared := s;
      updated := false;
    }

    /** `deref`: the value of the cell the guard has locked. */
    function Deref(): (v: T)
      reads shared
      ensures v == shared.value
    {
      shared.value
    }

    /** `deref_mut` followed by a write of `v`. */
    method Write(v: T)
      modifies this, shared
      ensures updated && shared.value == v && shared.dependents == old(shared.dependents)
    {
      updated := true;
      shared.value := v;
    }

    /** `drop`: the dependents are called, once each and in order, exactly when the
        guard was written through. */
    method Drop(log: EffectLog)
      modifies log
      ensures updated ==> log.calls == old(log.calls) + shared.dependents
      ensures !updated ==> log.calls == old(log.calls)
    {
      if updated {
        CallAll(shared.dependents, log);
      }
    }
  }

  /** A `set` through one handle is what `get_dl` on a clone returns, and it calls
      the dependents registered through either handle. */
  method CloneSeesSet<T>(s: State<T>, v: T, hook: nat, log: EffectLog) returns (c: State<T>)
    modifies s.shared, log
    ensures c.shared == s.shared && c.GetDl() == v
    ensures log.calls == old(log.calls) + old(s.shared.dependents) + [hook]
  {
    c := s.Clone();
    c.OnUpdate(hook);
    s.Set(v, log);
  }

  /** A guard that is only read calls nothing when dropped. */
  method ReadOnlyGuard<T>(s: State<T>, log: EffectLog) returns (v: T)
    modifies log
    ensures v == s.GetDl() && log.calls == old(log.calls)
  {
    var g := s.Get();
    v := g.Deref();
    g.Drop(log);
  }

  /** The handler `use_sync_state` registers with the context: every emitted event
      `e` sets the state to `decoder(e)`. */
  method SyncStateHandler<T, E>(s: State<T>, decoder: E -> T, e: E, log: EffectLog)
    modifies s.shared, log
    ensures s.GetDl() == decoder(e) && s.shared.dependents == old(s.shared.dependents)
    ensures log.calls == old(log.calls) + s.shared.dependents
  {
    s.Set(decoder(e), log);
  }

  /** `use_sync_state` followed by the emission of `events`: the state starts at
      `v` and each event sets it to its decoding, so it ends at the decoding of the
      last one. The registration with the context is not part of this model; the
      events are handed to the handler directly. */
  method UseSyncState<T, E>(v: T, decoder: E -> T, events: seq<E>, log: EffectLog) returns (s: State<T>)
    modifies log
    ensures fresh(s) && fresh(s.shared) && s.shared.dependents == []
    ensures events == [] ==> s.GetDl() == v
    ensures events != [] ==> s.GetDl() == decoder(events[|events| - 1])
    ensures log.calls == old(log.calls)
  {
    s := UseState(v);
    var i := 0;
    while i < |events|
      invariant 0 <= i <= |events| && fresh(s) && fresh(s.shared) && s.shared.dependents == []
      invariant i == 0 ==> s.GetDl() == v
      invariant i > 0 ==> s.GetDl() == decoder(events[i - 1])
      invariant log.calls == old(log.calls)
    {
      SyncStateHandler(s, decoder, events[i], log);
      i := i + 1;
    }
  }
}

/** The mount hook of `src/state/mount.rs`: effects registered before the component
    is mounted wait in a queue and run, in order, when it mounts; effects registered
    afterwards run at once. Clones of a `Mount` share its flag and queue, which a
    class reference gives here. */
module Mounts {
  import StateHooks

  class Mount {
    var mounted: bool
    var queue: seq<nat>

    constructor (m: bool)
      ensures mounted == m && queue == []
    {
      mounted := m;
      queue := [];
    }

    /** `on_update`: runs the effect now when mounted, and queues it otherwise. */
    method OnUpdate(hook: nat, log: StateHooks.EffectLog)
      modifies this, log
      ensures mounted == old(mounted)
      ensures old(mounted) ==> log.calls == old(log.calls) + [hook] && queue == old(queue)
      ensures !old(mounted) ==> log.calls == old(log.calls) && queue == old(queue) + [hook]
    {
      if mounted {
        log.calls := log.calls + [hook];
      } else {
        queue := queue + [hook];
      }
    }

    /** `mount`: marks the component mounted, runs every queued effect once in
        order, and empties the queue. */
    method DoMount(log: StateHooks.EffectLog)
      modifies this, log
      ensures mounted && queue == [] && log.calls == old(log.calls) + old(queue)
    {
      mounted := true;
      StateHooks.CallAll(queue, log);
      queue := [];
    }
  }

  /** `use_mount`: mounted from the start, with nothing queued. */
  method UseMount() returns (m: Mount)
    ensures fresh(m) && m.mounted && m.queue == []
  {
    m := new Mount(true);
  }

  /** `use_mount_manual`: unmounted until `mount` is called, with nothing queued. */
  method UseMountManual() returns (m: Mount)
    ensures fresh(m) && !m.mounted && m.queue == []
  {
    m := new Mount(false);
  }

  /** Effects registered before mounting run at the mount, in order; after it, a
      new registration runs at once and a second mount runs nothing. */
  method MountLifecycle(early: nat, late: nat, log: StateHooks.EffectLog)
    modifies log
    ensures log.calls == old(log.calls) + [early, late]
  {
    var m := UseMountManual();
    m.OnUpdate(early, log);
    assert log.calls == old(log.calls);
    m.DoMount(log);
    m.OnUpdate(late, log);
    m.DoMount(log);
  }
}

/** `Dependency<T>` of `src/dependency.rs`: an element that is rebuilt by its reset
    function whenever one of its dependency handlers reports a change. As in the
    widget model, `reset(k)` is what the `k`-th call of the reset function returns,
    and the calls made to handlers and to the element are recorded in a log. */
module Dependencies {
  import opened Widgets

  class Dependency {
    var handlers: seq<nat>
    var element: nat
    const reset: nat -> nat
    var resets: nat
    var log: seq<Call>

    /** `Dependency::new`: no handlers, and the reset function called once for the
        element. */
    constructor New(f: nat -> nat)
      ensures handlers == [] && element == f(0) && reset == f && resets == 1 && log == []
    {
      handlers := [];
      element := f(0);
      reset := f;
      resets := 1;
      log := [];
    }

    /** `Dependency::from`: `add` is called once on every handler, in order, and then
        the reset function once for the element. */
    constructor From(f: nat -> nat, hs: seq<nat>)
      ensures handlers == hs && element == f(0) && reset == f && resets == 1
      ensures log == Adds(hs)
    {
      handlers := hs;
      element := f(0);
      reset := f;
      resets := 1;
      log := [];
      new;
      var i := 0;
      while i < |hs|
        invariant 0 <= i <= |hs| && log == Adds(hs[..i])
        invariant handlers == hs && element == f(0) && resets == 1
      {
        assert hs[..i + 1][..i] == hs[..i];
        log := log + [AddDependency(hs[i])];
        i := i + 1;
      }
      assert hs[..i] == hs;
    }

    /** `auto_reset`: asks each handler in order whether it changed (`checks` holds
        the answers) and rebuilds the element once per `true`. */
    method AutoReset(checks: seq<bool>)
      requires |checks| == |handlers|
      modifies this
      ensures log == old(log) + Checks(handlers) && resets == old(resets) + CountTrue(checks)
      ensures CountTrue(checks) > 0 ==> element == reset(resets - 1)
      ensures CountTrue(checks) == 0 ==> element == old(element)
      ensures handlers == old(handlers)
    {
      var hs := handlers;
      var i := 0;
      while i < |hs|
        invariant 0 <= i <= |hs| && handlers == hs
        invariant log == old(log) + Checks(hs[..i])
        invariant resets == old(resets) + CountTrue(checks[..i])
        invariant resets > old(resets) ==> element == reset(resets - 1)
        invariant resets == old(resets) ==> element == old(element)
      {
        PrefixStep(old(log), hs, checks, i);
        log := log + [CheckDependency(hs[i])];
        if checks[i] {
          element := reset(resets);
          resets := resets + 1;
        }
        i := i + 1;
      }
      assert hs[..i] == hs && checks[..i] == checks;
    }

    /** `add`: calls the new handler's `add` once and keeps it. */
    method Add(dep: nat)
      modifies this
      ensures handlers == old(handlers) + [dep] && log == old(log) + [AddDependency(dep)]
      ensures element == old(element) && resets == old(resets)
    {
      log := log + [AddDependency(dep)];
      handlers := handlers + [dep];
    }

    /** `render`: the element renders, then `auto_reset`. */
    method Render(checks: seq<bool>)
      requires |checks| == |handlers|
      modifies this
      ensures log == old(log) + [ElementRender(old(element))] + Checks(handlers)
      ensures resets == old(resets) + CountTrue(checks) && handlers == old(handlers)
      ensures CountTrue(checks) > 0 ==> element == reset(resets - 1)
      ensures CountTrue(checks) == 0 ==> element == old(element)
    {
      log := log + [ElementRender(element)];
      AutoReset(checks);
    }

    /** `after_render`: the element's `after_render`, then `auto_reset`. */
    method AfterRender(checks: seq<bool>)
      requires |checks| == |handlers|
      modifies this
      ensures log == old(log) + [ElementAfterRender(old(element))] + Checks(handlers)
      ensures resets == old(resets) + CountTrue(checks) && handlers == old(handlers)
      ensures CountTrue(checks) > 0 ==> element == reset(resets - 1)
      ensures CountTrue(checks) == 0 ==> element == old(element)
    {
      log := log + [ElementAfterRender(element)];
      AutoReset(checks);
    }
  }

  /** One `add` call per handler, in order. */
  function Adds(hs: seq<nat>): (r: seq<Call>)
    ensures |r| == |hs| && forall k :: 0 <= k < |hs| ==> r[k] == AddDependency(hs[k])
  {
    if hs == [] then [] else Adds(hs[..|hs| - 1]) + [AddDependency(hs[|hs| - 1])]
  }
}

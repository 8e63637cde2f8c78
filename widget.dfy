/** Widgets of `src/widget.rs`: an element with a map of components keyed by their
    type, and a focus flag. A static widget keeps what it was built with; a dynamic
    one rebuilds element and components from its `load` function, passed through an
    optional injection, when refreshed or when one of its dependencies reports a
    change. Elements, components, type ids, dependencies and events are opaque
    identities here; the calls made to user callbacks are recorded in a log. */
module Widgets {
  import opened Common

  type TypeId = nat
  type Components = map<TypeId, nat>

  /** `WidgetLoad`: an element and its components. */
  datatype WidgetLoad = WidgetLoad(element: nat, components: Components)

  /** The element `WidgetLoad::new(String::new())` holds: an empty text. */
  const EmptyText: nat := 0

  /** `WidgetLoad::new`. */
  function NewLoad(e: nat): (r: WidgetLoad)
    ensures r.element == e && r.components == map[]
  {
    WidgetLoad(e, map[])
  }

  /** `component`: adds `c` under type `t` unless a component of that type exists. */
  function AddComponent(m: Components, t: TypeId, c: nat): (r: Components)
    ensures t in r && (t in m ==> r[t] == m[t]) && (t !in m ==> r[t] == c)
    ensures r.Keys == m.Keys + {t}
    ensures forall u :: u in m && u != t ==> r[u] == m[u]
  {
    if t in m then m else m[t := c]
  }

  /** `set_component`: stores `c` under type `t`, replacing any component of that type. */
  function SetComponent(m: Components, t: TypeId, c: nat): (r: Components)
    ensures t in r && r[t] == c
    ensures r.Keys == m.Keys + {t}
    ensures forall u :: u in m && u != t ==> r[u] == m[u]
  {
    m[t := c]
  }

  /** `get`: the component stored under type `t`, if any. */
  function GetComponent(m: Components, t: TypeId): (r: Option<nat>)
    ensures r.Some? <==> t in m
    ensures r.Some? ==> r.value == m[t]
  {
    if t in m then Some(m[t]) else Option.None
  }

  /** The first component of a type wins under `component` and the last under
      `set_component`; `get` sees what was stored, and other types are untouched. */
  lemma ComponentLaws(m: Components, t: TypeId, c: nat, c': nat, u: TypeId)
    ensures GetComponent(AddComponent(AddComponent(m, t, c), t, c'), t) == GetComponent(AddComponent(m, t, c), t)
    ensures t !in m ==> GetComponent(AddComponent(m, t, c), t) == Some(c)
    ensures GetComponent(SetComponent(SetComponent(m, t, c), t, c'), t) == Some(c')
    ensures u != t ==> GetComponent(SetComponent(m, t, c), u) == GetComponent(m, u)
    ensures u != t ==> GetComponent(AddComponent(m, t, c), u) == GetComponent(m, u)
  {
  }

  /** `HashMap::extend`: every entry of `extra` is inserted, overwriting. */
  function Extend(m: Components, extra: Components): (r: Components)
    ensures r.Keys == m.Keys + extra.Keys
    ensures forall t :: t in extra ==> r[t] == extra[t]
    ensures forall t :: t in m && t !in extra ==> r[t] == m[t]
  {
    map t | t in m.Keys + extra.Keys :: if t in extra then extra[t] else m[t]
  }

  /** Calls made to user callbacks. */
  datatype Call =
    | AddDependency(dep: nat)
    | CheckDependency(dep: nat)
    | HandlerCall(handler: nat, event: nat)
    | ElementEvent(element: nat, event: nat)
    | ElementRender(element: nat)
    | ElementAfterRender(element: nat)

  /** The number of `true` answers. */
  function CountTrue(checks: seq<bool>): (n: nat)
    ensures n <= |checks|
  {
    if checks == [] then 0 else CountTrue(checks[..|checks| - 1]) + (if checks[|checks| - 1] then 1 else 0)
  }

  /** One check per dependency, in order. */
  function Checks(deps: seq<nat>): (r: seq<Call>)
    ensures |r| == |deps|
  {
    if deps == [] then [] else Checks(deps[..|deps| - 1]) + [CheckDependency(deps[|deps| - 1])]
  }

  /** The `k`-th check asks the `k`-th dependency. */
  lemma {:induction false} ChecksInOrder(deps: seq<nat>)
    ensures forall k :: 0 <= k < |deps| ==> Checks(deps)[k] == CheckDependency(deps[k])
  {
    if deps != [] {
      var init := deps[..|deps| - 1];
      ChecksInOrder(init);
      assert forall k :: 0 <= k < |init| ==> deps[k] == init[k];
    }
  }

  /** One more dependency asked: one more check logged, one more answer counted. */
  lemma PrefixStep(log: seq<Call>, deps: seq<nat>, checks: seq<bool>, i: nat)
    requires i < |deps| == |checks|
    ensures log + Checks(deps[..i]) + [CheckDependency(deps[i])] == log + Checks(deps[..i + 1])
    ensures CountTrue(checks[..i + 1]) == CountTrue(checks[..i]) + if checks[i] then 1 else 0
  {
    assert deps[..i + 1][..i] == deps[..i];
    assert checks[..i + 1][..i] == checks[..i];
    var c := Checks(deps[..i]);
    assert Checks(deps[..i + 1]) == c + [CheckDependency(deps[i])];
    assert log + c + [CheckDependency(deps[i])] == log + (c + [CheckDependency(deps[i])]);
  }

  /** `Widget`: `dynamic` tells `Widget::Dynamic(DynWidget)` from
      `Widget::Static(StaticWidget)`. `load(k)` is what the `k`-th call of the load
      function returns, and `loads` counts the calls so far. */
  class Widget {
    const dynamic: bool
    const load: nat -> WidgetLoad
    var element: nat
    var components: Components
    var focused: bool
    var loads: nat
    var dependencies: seq<nat>
    var injection: Option<WidgetLoad -> WidgetLoad>
    var log: seq<Call>

    /** `Widget::new_static`: the element, no components, not focused. */
    constructor Static(e: nat)
      ensures !dynamic && element == e && components == map[] && !focused
      ensures dependencies == [] && injection.None? && log == [] && loads == 0
    {
      dynamic := false;
      load := _ => WidgetLoad(e, map[]);
      element := e;
      components := map[];
      focused := false;
      loads := 0;
      dependencies := [];
      injection := Option.None;
      log := [];
    }

    /** `Widget::new_dyn`: calls the load function once and takes what it returns;
        no dependencies, no injection, not focused. */
    constructor Dynamic(f: nat -> WidgetLoad)
      ensures dynamic && load == f && loads == 1
      ensures element == f(0).element && components == f(0).components && !focused
      ensures dependencies == [] && injection.None? && log == []
    {
      dynamic := true;
      load := f;
      var wl := f(0);
      element := wl.element;
      components := wl.components;
      focused := false;
      loads := 1;
      dependencies := [];
      injection := Option.None;
      log := [];
    }

    /** What the `k`-th call of the load function gives, after the injection. */
    function Loaded(k: nat): (r: WidgetLoad)
      reads this`injection
      ensures injection.None? ==> r == load(k)
    {
      if injection.Some? then injection.value(load(k)) else load(k)
    }

    /** `is_focused`. */
    function IsFocused(): (f: bool)
      reads this
      ensures f == focused
    {
      focused
    }

    /** `set_focused`: `is_focused` then reports `f`. */
    method SetFocused(f: bool)
      modifies this
      ensures IsFocused() == f
      ensures element == old(element) && components == old(components) && log == old(log)
      ensures loads == old(loads) && dependencies == old(dependencies) && injection == old(injection)
    {
      focused := f;
    }

    /** `component`. */
    method Component(t: TypeId, c: nat)
      modifies this
      ensures components == AddComponent(old(components), t, c)
      ensures element == old(element) && focused == old(focused) && log == old(log)
      ensures loads == old(loads) && dependencies == old(dependencies) && injection == old(injection)
    {
      if t !in components {
        components := components[t := c];
      }
    }

    /** `set_component`. */
    method SetComponentOf(t: TypeId, c: nat)
      modifies this
      ensures components == SetComponent(old(components), t, c)
      ensures element == old(element) && focused == old(focused) && log == old(log)
      ensures loads == old(loads) && dependencies == old(dependencies) && injection == old(injection)
    {
      components := components[t := c];
    }

    /** `get`. */
    function Get(t: TypeId): (r: Option<nat>)
      reads this
      ensures r == GetComponent(components, t)
    {
      if t in components then Some(components[t]) else Option.None
    }

    /** `refresh`: a dynamic widget calls its load function, passes the result
        through the injection if there is one, and takes its element and
        components; a static widget does nothing. */
    method Refresh()
      modifies this
      ensures dynamic ==> loads == old(loads) + 1 && WidgetLoad(element, components) == Loaded(old(loads))
      ensures !dynamic ==> loads == old(loads) && element == old(element) && components == old(components)
      ensures focused == old(focused) && log == old(log) && dependencies == old(dependencies)
      ensures injection == old(injection)
    {
      if dynamic {
        var w := load(loads);
        loads := loads + 1;
        if injection.Some? {
          w := injection.value(w);
        }
        element := w.element;
        components := w.components;
      }
    }

    /** `inject`: a dynamic widget keeps the injection and refreshes; a static one
        applies it once to an empty load and merges the components it returns into
        its own, keeping its element. */
    method Inject(f: WidgetLoad -> WidgetLoad)
      modifies this
      ensures dynamic ==> (injection == Some(f) && loads == old(loads) + 1 &&
        WidgetLoad(element, components) == f(load(old(loads))))
      ensures !dynamic ==> (injection == old(injection) && loads == old(loads) && element == old(element) &&
        components == Extend(old(components), f(NewLoad(EmptyText)).components))
      ensures focused == old(focused) && log == old(log) && dependencies == old(dependencies)
    {
      if dynamic {
        injection := Some(f);
        Refresh();
      } else {
        var wl := NewLoad(EmptyText);
        components := Extend(components, f(wl).components);
      }
    }

    /** `auto_refresh`: a dynamic widget asks each dependency in order whether it
        changed (`checks` holds the answers) and refreshes once per `true`; a static
        widget does nothing. */
    method AutoRefresh(checks: seq<bool>)
      requires dynamic ==> |checks| == |dependencies|
      modifies this
      ensures dynamic ==> log == old(log) + Checks(dependencies) && loads == old(loads) + CountTrue(checks)
      ensures dynamic && CountTrue(checks) > 0 ==> WidgetLoad(element, components) == Loaded(loads - 1)
      ensures !dynamic || CountTrue(checks) == 0 ==>
        element == old(element) && components == old(components) && loads == old(loads)
      ensures !dynamic ==> log == old(log)
      ensures focused == old(focused) && dependencies == old(dependencies) && injection == old(injection)
    {
      if dynamic {
        var deps := dependencies;
        var i := 0;
        while i < |deps|
          invariant 0 <= i <= |deps| && dependencies == deps
          invariant focused == old(focused) && injection == old(injection)
          invariant log == old(log) + Checks(deps[..i])
          invariant loads == old(loads) + CountTrue(checks[..i])
          invariant loads > old(loads) ==> WidgetLoad(element, components) == Loaded(loads - 1)
          invariant loads == old(loads) ==> element == old(element) && components == old(components)
        {
          PrefixStep(old(log), deps, checks, i);
          Ask(deps[i], checks[i]);
          i := i + 1;
        }
        assert deps[..i] == deps && checks[..i] == checks;
      }
    }

    /** One dependency of `auto_refresh`: its check is logged, and a `true` answer
        refreshes the widget. */
    method Ask(d: nat, changed: bool)
      requires dynamic
      modifies this
      ensures log == old(log) + [CheckDependency(d)] && loads == old(loads) + (if changed then 1 else 0)
      ensures changed ==> WidgetLoad(element, components) == Loaded(old(loads))
      ensures !changed ==> element == old(element) && components == old(components)
      ensures focused == old(focused) && dependencies == old(dependencies) && injection == old(injection)
    {
      log := log + [CheckDependency(d)];
      if changed {
        Refresh();
      }
    }

    /** `dependency` and `dependency_box`: a dynamic widget calls the dependency's
        `add` once and keeps it; a static widget ignores it. */
    method Dependency(d: nat)
      modifies this
      ensures dynamic ==> dependencies == old(dependencies) + [d] && log == old(log) + [AddDependency(d)]
      ensures !dynamic ==> dependencies == old(dependencies) && log == old(log)
      ensures element == old(element) && components == old(components) && focused == old(focused)
      ensures loads == old(loads) && injection == old(injection)
    {
      if dynamic {
        log := log + [AddDependency(d)];
        dependencies := dependencies + [d];
      }
    }

    /** `event`: the widget's `Handler<E>` component (stored under `handlerType`) is
        called if present, and the element receives the event only when the widget
        is focused. */
    method Event(handlerType: TypeId, e: nat)
      modifies this
      ensures log == old(log) +
        (if handlerType in components then [HandlerCall(components[handlerType], e)] else []) +
        (if focused then [ElementEvent(element, e)] else [])
      ensures element == old(element) && components == old(components) && focused == old(focused)
      ensures loads == old(loads) && dependencies == old(dependencies) && injection == old(injection)
    {
      var handler := Get(handlerType);
      if handler.Some? {
        log := log + [HandlerCall(handler.value, e)];
      }
      if IsFocused() {
        log := log + [ElementEvent(element, e)];
      }
    }
  }

  /** Counting `true` answers is additive over consecutive runs of checks. */
  lemma {:induction false} CountTrueAppend(a: seq<bool>, b: seq<bool>)
    ensures CountTrue(a + b) == CountTrue(a) + CountTrue(b)
    decreases |b|
  {
    if b == [] {
      assert a + b == a;
    } else {
      assert (a + b)[..|a + b| - 1] == a + b[..|b| - 1];
      CountTrueAppend(a, b[..|b| - 1]);
    }
  }

  /** Each `true` answer means one more refresh: all `true` refreshes once per
      dependency, all `false` never. */
  lemma {:induction false} CountTrueBounds(checks: seq<bool>)
    ensures (forall k :: 0 <= k < |checks| ==> checks[k]) ==> CountTrue(checks) == |checks|
    ensures (forall k :: 0 <= k < |checks| ==> !checks[k]) <==> CountTrue(checks) == 0
    decreases |checks|
  {
    if checks != [] {
      CountTrueBounds(checks[..|checks| - 1]);
      if CountTrue(checks) == 0 {
        assert CountTrue(checks[..|checks| - 1]) == 0;
        forall k | 0 <= k < |checks| ensures !checks[k] {
          if k < |checks| - 1 {
            assert checks[k] == checks[..|checks| - 1][k];
          }
        }
      }
    }
  }
}

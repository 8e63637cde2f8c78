/** The console engine of `src/engine/console.rs`: a command executor with a
    `running` flag that `Stop` clears, the `run` loop that renders frames while it
    is set, and `draw_context`, which prints a draw context's instructions in
    order. Printing goes to a `Terminal` record; a `View` instruction executes a
    closure, so its drawing is recorded as an opaque item. */
module Console {
  import opened Common
  import opened Render

  /** `Stop` and every other command. */
  datatype Command = Stop | OtherCommand(id: nat)

  /** `ConsoleExecutor`. */
  class ConsoleExecutor {
    var running: bool

    constructor ()
      ensures running
    {
      running := true;
    }

    /** `is_running`. */
    function IsRunning(): (r: bool)
      reads this
      ensures r == running
    {
      running
    }

    /** `stop`: clears the flag; stopping again keeps it cleared. */
    method DoStop()
      modifies this
      ensures !running
    {
      running := false;
    }

    /** `execute_command`: `Stop` stops the executor, and every other command leaves
        the flag as it was. Both return `Ok`. */
    method ExecuteCommand(cmd: Command)
      modifies this
      ensures running == (old(running) && !cmd.Stop?)
    {
      if cmd.Stop? {
        DoStop();
      }
    }
  }

  /** `Console`: the threads registered to run against the context, and the
      executor it shares with them. */
  class ConsoleEngine {
    var threads: seq<nat>
    const executor: ConsoleExecutor

    /** `Console::new`: no threads, and an executor that is running. */
    constructor ()
      ensures threads == [] && fresh(executor) && executor.running
    {
      threads := [];
      executor := new ConsoleExecutor();
    }

    /** `thread`: registers a thread body to spawn on `init`. */
    method Thread(run: nat)
      modifies this
      ensures threads == old(threads) + [run]
    {
      threads := threads + [run];
    }
  }

  /** The index of the first frame during which a `Stop` is executed. */
  function FirstStop(frames: seq<seq<Command>>): (r: Option<nat>)
    ensures r.Some? ==> (r.value < |frames| && Stop in frames[r.value] &&
      forall j :: 0 <= j < r.value ==> Stop !in frames[j])
    ensures r.None? <==> forall j :: 0 <= j < |frames| ==> Stop !in frames[j]
  {
    if frames == [] then Option.None
    else if Stop in frames[0] then Some(0)
    else match FirstStop(frames[1..])
      case Some(k) => Some(k + 1)
      case None => Option.None
  }

  /** Executing a frame's commands in order clears the flag exactly when one of
      them is `Stop` (or it was already clear). */
  method ExecuteAll(executor: ConsoleExecutor, cmds: seq<Command>)
    modifies executor
    ensures executor.running == (old(executor.running) && Stop !in cmds)
  {
    var i := 0;
    while i < |cmds|
      invariant 0 <= i <= |cmds|
      invariant executor.running == (old(executor.running) && Stop !in cmds[..i])
    {
      assert cmds[..i + 1] == cmds[..i] + [cmds[i]];
      executor.ExecuteCommand(cmds[i]);
      i := i + 1;
    }
    assert cmds[..i] == cmds;
  }

  /** `run`: renders a frame while the executor is running. `frames[k]` holds the
      commands executed (by threads or event handlers) during the `k`-th frame,
      and some frame stops the executor. The result is the number of frames
      rendered: none when already stopped, else up to the frame with the first
      `Stop`. */
  method Run(executor: ConsoleExecutor, frames: seq<seq<Command>>) returns (rendered: nat)
    requires FirstStop(frames).Some?
    modifies executor
    ensures !executor.running
    ensures rendered == if old(executor.running) then FirstStop(frames).value + 1 else 0
  {
    ghost var stop := FirstStop(frames).value;
    rendered := 0;
    while executor.IsRunning()
      invariant rendered <= stop + 1
      invariant executor.running ==> old(executor.running) && rendered <= stop
      invariant !executor.running ==> rendered == if old(executor.running) then stop + 1 else 0
      decreases stop + 1 - rendered
    {
      ExecuteAll(executor, frames[rendered]);
      rendered := rendered + 1;
    }
  }

  /** What `draw_context` sends to the terminal. */
  datatype Printed =
    | PrintAt(x: nat, y: nat, text: string)
    | ViewRendered(area: Area, view: nat)

  /** The output of a draw context: each instruction in order, texts moved by the
      context's area, children printed in place (their offset is ignored). */
  function Output(f: Frame): seq<Printed>
    decreases f, 1
  {
    Outputs(f.area, f.drawing)
  }

  function Outputs(area: Area, insts: seq<DrawInstruction>): seq<Printed>
    decreases insts, 0
  {
    if insts == [] then []
    else Outputs(area, insts[..|insts| - 1]) + OutputOne(area, insts[|insts| - 1])
  }

  function OutputOne(area: Area, inst: DrawInstruction): seq<Printed>
    decreases inst, 2
  {
    match inst
    case Text(p, text) => [PrintAt(area.x + p.x, area.y + p.y, text)]
    case View(viewArea, view) => [ViewRendered(viewArea, view)]
    case Child(_, child) => Output(child)
  }

  /** No text position overflows `u16` (where the `+` would panic). */
  predicate Fits(f: Frame)
    decreases f, 1
  {
    forall k :: 0 <= k < |f.drawing| ==> FitsOne(f.area, f.drawing[k])
  }

  predicate FitsOne(area: Area, inst: DrawInstruction)
    decreases inst, 2
  {
    match inst
    case Text(p, _) => area.x + p.x <= U16_MAX && area.y + p.y <= U16_MAX
    case View(_, _) => true
    case Child(_, child) => Fits(child)
  }

  /** The terminal's record of what was printed. */
  class Terminal {
    var printed: seq<Printed>

    constructor ()
      ensures printed == []
    {
      printed := [];
    }
  }

  /** `draw_context`: prints the instructions in order, at positions moved by the
      context's area, recursing into children. */
  method DrawContext(f: Frame, out: Terminal)
    requires Fits(f)
    modifies out
    ensures out.printed == old(out.printed) + Output(f)
    decreases f
  {
    var i := 0;
    while i < |f.drawing|
      invariant 0 <= i <= |f.drawing|
      invariant out.printed == old(out.printed) + Outputs(f.area, f.drawing[..i])
    {
      var inst := f.drawing[i];
      assert f.drawing[..i + 1][..i] == f.drawing[..i];
      assert FitsOne(f.area, inst);
      match inst {
        case Text(p, text) =>
          var x: U16 := f.area.x + p.x;
          var y: U16 := f.area.y + p.y;
          out.printed := out.printed + [PrintAt(x, y, text)];
        case Child(_, child) =>
          DrawContext(child, out);
        case View(viewArea, view) =>
          out.printed := out.printed + [ViewRendered(viewArea, view)];
      }
      i := i + 1;
    }
    assert f.drawing[..i] == f.drawing;
  }

  /** Drawing a context after another prints the two outputs one after the other:
      `Outputs` distributes over concatenated instruction lists. */
  lemma {:induction false} OutputsAppend(area: Area, a: seq<DrawInstruction>, b: seq<DrawInstruction>)
    ensures Outputs(area, a + b) == Outputs(area, a) + Outputs(area, b)
    decreases |b|
  {
    if b == [] {
      assert a + b == a;
    } else {
      assert (a + b)[..|a + b| - 1] == a + b[..|b| - 1];
      OutputsAppend(area, a, b[..|b| - 1]);
    }
  }

  /** Every text of the context itself lands at its point moved by the area, in
      the order the instructions were given. */
  lemma {:induction false} TextsPlacedInOrder(area: Area, texts: seq<(Point, string)>)
    ensures Outputs(area, TextInstructions(texts)) ==
      seq(|texts|, k requires 0 <= k < |texts| => PrintAt(area.x + texts[k].0.x, area.y + texts[k].0.y, texts[k].1))
    decreases |texts|
  {
    if texts != [] {
      var init := texts[..|texts| - 1];
      TextsPlacedInOrder(area, init);
      assert TextInstructions(texts)[..|texts| - 1] == TextInstructions(init);
    }
  }

  function TextInstructions(texts: seq<(Point, string)>): (r: seq<DrawInstruction>)
    ensures |r| == |texts| && forall k :: 0 <= k < |texts| ==> r[k] == Text(texts[k].0, texts[k].1)
  {
    if texts == [] then [] else TextInstructions(texts[..|texts| - 1]) + [Text(texts[|texts| - 1].0, texts[|texts| - 1].1)]
  }
}

/** Element event responses of `src/event.rs`: a response is a marker, a list of
    commands, an element replacement, or several responses (`Mul`) built up by
    `add_response`. Elements are opaque identities. */
module Event {
  import opened Common

  /** The events an element can be sent: a key (opaque code) or a state. */
  datatype ElementEvent = Key(key: nat) | State(state: nat)

  datatype Command = Render(state: nat) | Exit | Send(event: ElementEvent) | Sleep(ms: nat)

  datatype EventResponse =
    | Done
    | None
    | CommandList(commands: seq<Command>)
    | UpdateSelf(elem: nat)
    | UpdateElementById(id: string, elem: nat)
    | Mul(responses: seq<EventResponse>)

  /** `add_response`: inside a `Mul` the response goes to the front; any other response
      becomes a `Mul` of the new one and itself. */
  function AddResponse(r: EventResponse, response: EventResponse): (r': EventResponse)
    ensures r'.Mul? && |r'.responses| >= 1 && r'.responses[0] == response
    ensures r.Mul? ==> r'.responses[1..] == r.responses
    ensures !r.Mul? ==> r'.responses == [response, r]
  {
    match r
    case Mul(rs) => Mul([response] + rs)
    case _ => Mul([response, r])
  }

  /** `execute`: the responses of a `Mul`, or the response itself. */
  function Execute(r: EventResponse): (v: seq<EventResponse>)
    ensures r.Mul? ==> v == r.responses
    ensures !r.Mul? ==> v == [r]
  {
    match r
    case Mul(rs) => rs
    case _ => [r]
  }

  /** Executing after `add_response` runs the added response first and then
      everything that was there before. */
  lemma ExecuteAddResponse(r: EventResponse, response: EventResponse)
    ensures Execute(AddResponse(r, response)) == [response] + Execute(r)
  {
  }

  /** The index of the first command list among `rs`, if any. */
  function FirstCommandList(rs: seq<EventResponse>): (r: Option<nat>)
    ensures r.Some? ==> (r.value < |rs| && rs[r.value].CommandList? &&
      forall j :: 0 <= j < r.value ==> !rs[j].CommandList?)
    ensures r.None? ==> forall j :: 0 <= j < |rs| ==> !rs[j].CommandList?
  {
    if rs == [] then Option.None
    else if rs[0].CommandList? then Some(0)
    else match FirstCommandList(rs[1..])
      case Some(i) => Some(i + 1)
      case None => Option.None
  }

  /** The response after `add_command(cmd)` (lines 36-55). */
  function AddCommand(r: EventResponse, cmd: Command): EventResponse
  {
    match r
    case CommandList(cs) => CommandList(cs + [cmd])
    case Mul(rs) =>
      (match FirstCommandList(rs)
       case Some(i) => Mul(rs[i := CommandList(rs[i].commands + [cmd])])
       case None => AddResponse(r, CommandList([cmd])))
    case _ => r
  }

  /** The number of commands in the command lists among `rs` (not looking inside
      nested `Mul`s). */
  function Commands(rs: seq<EventResponse>): nat
  {
    if rs == [] then 0
    else Commands(rs[..|rs| - 1]) + (if rs[|rs| - 1].CommandList? then |rs[|rs| - 1].commands| else 0)
  }

  lemma {:induction false} CommandsAppend(a: seq<EventResponse>, b: seq<EventResponse>)
    ensures Commands(a + b) == Commands(a) + Commands(b)
    decreases |b|
  {
    if b == [] {
      assert a + b == a;
    } else {
      assert (a + b)[..|a + b| - 1] == a + b[..|b| - 1];
      CommandsAppend(a, b[..|b| - 1]);
    }
  }

  /** `add_command` on a command list or a `Mul` adds exactly one command to those
      `execute` yields, and on any other response it adds none. Within a `Mul`, the
      responses before the first command list are untouched and the command ends
      up last in that list, or alone in a new list at the front. */
  lemma AddCommandAddsOne(r: EventResponse, cmd: Command)
    ensures r.CommandList? || r.Mul? ==> Commands(Execute(AddCommand(r, cmd))) == Commands(Execute(r)) + 1
    ensures !r.CommandList? && !r.Mul? ==> AddCommand(r, cmd) == r
    ensures r.Mul? && FirstCommandList(r.responses).Some? ==>
      var i := FirstCommandList(r.responses).value; var rs' := AddCommand(r, cmd).responses;
      |rs'| == |r.responses| && rs'[..i] == r.responses[..i] && rs'[i + 1..] == r.responses[i + 1..] &&
      rs'[i].commands == r.responses[i].commands + [cmd]
    ensures r.Mul? && FirstCommandList(r.responses).None? ==>
      AddCommand(r, cmd).responses == [CommandList([cmd])] + r.responses
  {
    match r {
      case CommandList(cs) =>
        assert Commands([CommandList(cs + [cmd])]) == Commands([]) + |cs| + 1 by {
          assert [CommandList(cs + [cmd])][..0] == [];
        }
        assert [CommandList(cs)][..0] == [];
      case Mul(rs) =>
        match FirstCommandList(rs) {
          case Some(i) =>
            CommandsUpdate(rs, i, CommandList(rs[i].commands + [cmd]));
          case None =>
            CommandsAppend([CommandList([cmd])], rs);
            assert [CommandList([cmd])][..0] == [];
        }
      case _ =>
    }
  }

  /** Replacing one response changes the count by the difference of their own counts. */
  lemma CommandsUpdate(rs: seq<EventResponse>, i: nat, x: EventResponse)
    requires i < |rs|
    ensures Commands(rs[i := x]) + Commands([rs[i]]) == Commands(rs) + Commands([x])
  {
    var rs' := rs[i := x];
    assert rs == rs[..i] + [rs[i]] + rs[i + 1..];
    assert rs' == rs[..i] + [x] + rs[i + 1..];
    CommandsAppend(rs[..i] + [rs[i]], rs[i + 1..]);
    CommandsAppend(rs[..i], [rs[i]]);
    CommandsAppend(rs[..i] + [x], rs[i + 1..]);
    CommandsAppend(rs[..i], [x]);
  }

  /** A response value that `add_command`, `add_response`, `update_self` and
      `update_element_by_id` rewrite through `&mut self`. */
  class Response {
    var value: EventResponse

    constructor (r: EventResponse)
      ensures value == r
    {
      value := r;
    }

    /** `add_response`. */
    method Add(response: EventResponse)
      modifies this
      ensures value == AddResponse(old(value), response)
    {
      match value {
        case Mul(rs) => value := Mul([response] + rs);
        case _ => value := Mul([response, value]);
      }
    }

    /** `update_self`: adds a response replacing the element itself. */
    method UpdateSelfWith(elem: nat)
      modifies this
      ensures value == AddResponse(old(value), UpdateSelf(elem))
    {
      Add(UpdateSelf(elem));
    }

    /** `update_element_by_id`: adds a response replacing the element with that id. */
    method UpdateById(id: string, elem: nat)
      modifies this
      ensures value == AddResponse(old(value), UpdateElementById(id, elem))
    {
      Add(UpdateElementById(id, elem));
    }

    /** `add_command`: appends to a command list; in a `Mul`, walks the responses and
        appends to the first command list, or adds a new one at the front when there
        is none; any other response is left alone. */
    method AddCmd(cmd: Command)
      modifies this
      ensures value == AddCommand(old(value), cmd)
    {
      match value {
        case CommandList(cs) =>
          value := CommandList(cs + [cmd]);
        case Mul(rs) =>
          var i := 0;
          while i < |rs|
            invariant 0 <= i <= |rs| && value == old(value)
            invariant forall j :: 0 <= j < i ==> !rs[j].CommandList?
          {
            if rs[i].CommandList? {
              FirstIsIt(rs, i);
              value := Mul(rs[i := CommandList(rs[i].commands + [cmd])]);
              return;
            }
            i := i + 1;
          }
          Add(CommandList([cmd]));
        case _ =>
      }
    }
  }

  lemma FirstIsIt(rs: seq<EventResponse>, i: nat)
    requires i < |rs| && rs[i].CommandList?
    requires forall j :: 0 <= j < i ==> !rs[j].CommandList?
    ensures FirstCommandList(rs) == Some(i)
  {
  }
}

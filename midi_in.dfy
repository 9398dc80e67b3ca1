/** The MIDI input block (canvas/src/blocks/midi/in.tsx): turning settings
    changes into engine commands, turning MIDI events into `Midi` commands,
    and registering the event handler with the MIDI manager at most once
    per settings key. */
module MidiIn {
  import opened Canvas

  /** The block's settings, `MidiInProps`. */
  datatype Props = Props(id: int, on: string, port: int, channels: seq<int>)

  // ----- update -------------------------------------------------------------

  /** The commands `update(patch)` sends, in order: the input event when
      `on` is a string, the port when `port` is a number, and the channels
      (`[]` when undefined) whenever the key is present. */
  function UpdateCommands(patch: MidiInPatch): (cs: seq<Command>)
    ensures |cs| <= 3
    ensures cs == [] <==> !patch.on.Given? && !patch.port.Given? && patch.channels.Absent?
  {
    (if patch.on.Given? then [SetMidiInputEvent(patch.on.value)] else []) +
    (if patch.port.Given? then [SetMidiPort(patch.port.value)] else []) +
    (if !patch.channels.Absent? then
       [SetMidiChannels(if patch.channels.Given? then patch.channels.value else [])]
     else [])
  }

  function Sends(id: int, cs: seq<Command>): (calls: seq<Call>)
    ensures |calls| == |cs|
    ensures forall k :: 0 <= k < |cs| ==> calls[k] == Call.Send(id, cs[k])
  {
    if cs == [] then [] else [Call.Send(id, cs[0])] + Sends(id, cs[1..])
  }

  /** `update(patch)`: record the patch on the node, then send the commands. */
  method Update(id: int, patch: MidiInPatch, engine: Engine, graph: Graph)
    modifies engine, graph
    ensures graph.updates == old(graph.updates) + [MidiInUpdate(id, patch)]
    ensures graph.nodes == old(graph.nodes)
    ensures engine.calls == old(engine.calls) + Sends(id, UpdateCommands(patch))
  {
    graph.UpdateNodeData(id, patch);
    ghost var calls0 := engine.calls;
    if patch.on.Given? {
      engine.Send(id, SetMidiInputEvent(patch.on.value));
    }
    if patch.port.Given? {
      engine.Send(id, SetMidiPort(patch.port.value));
    }
    if !patch.channels.Absent? {
      engine.Send(id, SetMidiChannels(if patch.channels.Given? then patch.channels.value else []));
    }
    assert engine.calls[..|calls0|] == calls0;
    assert Sends(id, UpdateCommands(patch)) == engine.calls[|calls0|..];
  }

  // ----- handle -------------------------------------------------------------

  /** The events the MIDI manager delivers, as far as `handle` looks at
      them. */
  datatype MidiEvent =
    | ControlChange(channel: Option<int>, controller: int, rawValue: Option<int>)
    | Note(channel: Option<int>, number: int, rawAttack: int)
    | Other(channel: Option<int>)

  datatype Reading = Reading(note: int, value: int, channel: int)

  /** The note, value and channel `handle` reads off an event. */
  function Translate(e: MidiEvent): (r: Reading)
    ensures r.channel == match e.channel case Some(c) => c case None => 0
    ensures e.ControlChange? ==>
      (r.note == e.controller && r.value == match e.rawValue case Some(v) => v case None => 0)
    ensures e.Note? ==> r.note == e.number && r.value == e.rawAttack
    ensures e.Other? ==> r.note == 0 && r.value == 0
  {
    var channel := match e.channel case Some(c) => c case None => 0;
    match e
    case ControlChange(_, controller, rawValue) =>
      // `rawValue` is used when it is truthy, so 0 and a missing value give 0
      var value := if rawValue.Some? && rawValue.value != 0 then rawValue.value else 0;
      Reading(controller, value, channel)
    case Note(_, number, rawAttack) => Reading(number, rawAttack, channel)
    case Other(_) => Reading(0, 0, channel)
  }

  /** The settings `handle` closed over when it was created. */
  datatype Handler = Handler(id: int, on: string, port: int, running: bool)

  /** The calls one handled event makes, with `running` whether the
      scheduler runs. */
  function HandleCalls(id: int, on: string, port: int, running: bool, e: MidiEvent): seq<Call> {
    var r := Translate(e);
    [Call.Send(id, Midi(on, r.value, r.note, r.channel, port))] + (if running then [] else [Call.StepSlow])
  }

  /** `handle` as written: it reads `status.running` from the render in
      which it was created, which is the one the registration captured. */
  function HandleAsWritten(h: Handler, e: MidiEvent): seq<Call> {
    HandleCalls(h.id, h.on, h.port, h.running, e)
  }

  /** `handle` as evidently intended: the scheduler's state when the event
      arrives decides whether to step. */
  method Handle(h: Handler, running: bool, e: MidiEvent, engine: Engine)
    modifies engine
    ensures engine.calls == old(engine.calls) + HandleCalls(h.id, h.on, h.port, running, e)
  {
    var r := Translate(e);
    engine.Send(h.id, Midi(h.on, r.value, r.note, r.channel, h.port));
    if !running {
      engine.StepSlow();
    }
  }

  // ----- registration -------------------------------------------------------

  /** `${id}-${on}-${port}-${channels}`, compared by its parts. */
  datatype Key = Key(id: int, on: string, port: int, channels: seq<int>)

  function KeyOf(p: Props): Key {
    Key(p.id, p.on, p.port, p.channels)
  }

  /** A call to `midiManager.on(id, { type, handle, channels, port })`. */
  datatype Registration = Registration(id: int, on: string, handle: Handler, channels: seq<int>, port: int)

  /** The MIDI manager, as the registrations made with it. */
  class MidiManager {
    var registrations: seq<Registration>

    constructor()
      ensures registrations == []
    {
      registrations := [];
    }

    method On(r: Registration)
      modifies this
      ensures registrations == old(registrations) + [r]
    {
      registrations := registrations + [r];
    }
  }

  /** The block's `key` ref: the key of the last registration. */
  class Block {
    var key: Option<Key>

    constructor()
      ensures key == None
    {
      key := None;
    }

    /** The registration effect, run with the props and the `handle` of the
        render (whose `status.running` is `running`). */
    method Register(p: Props, running: bool, manager: MidiManager)
      modifies this, manager
      ensures old(key) == Some(KeyOf(p)) ==>
        key == old(key) && manager.registrations == old(manager.registrations)
      ensures old(key) != Some(KeyOf(p)) ==>
        key == Some(KeyOf(p)) &&
        manager.registrations == old(manager.registrations) +
          [Registration(p.id, p.on, Handler(p.id, p.on, p.port, running), p.channels, p.port)]
    {
      var current := KeyOf(p);
      if key == Some(current) {
        return;
      }
      manager.On(Registration(p.id, p.on, Handler(p.id, p.on, p.port, running), p.channels, p.port));
      key := Some(current);
    }
  }

  // ----- lemmas -------------------------------------------------------------

  /** The commands of `update` come in the order event, port, channels, and
      each is sent exactly when its field is there. */
  lemma UpdateOrder(patch: MidiInPatch)
    ensures var cs := UpdateCommands(patch);
      (patch.on.Given? ==> cs[0] == SetMidiInputEvent(patch.on.value)) &&
      (patch.port.Given? ==> cs[if patch.on.Given? then 1 else 0] == SetMidiPort(patch.port.value)) &&
      (patch.channels.Given? ==> cs[|cs| - 1] == SetMidiChannels(patch.channels.value)) &&
      (patch.channels.Undefined? ==> cs[|cs| - 1] == SetMidiChannels([])) &&
      |cs| == (if patch.on.Given? then 1 else 0) + (if patch.port.Given? then 1 else 0) +
              (if patch.channels.Absent? then 0 else 1)
  {
  }

  /** A channels key that is present but undefined is sent as `[]`. */
  lemma UndefinedChannelsSentEmpty(on: Field<string>, port: Field<int>)
    ensures var cs := UpdateCommands(MidiInPatch(on, port, Undefined));
      cs[|cs| - 1] == SetMidiChannels([])
  {
  }

  /** The handler sends exactly one `Midi` command, to its own block, and
      steps the engine exactly when the scheduler is not running. */
  lemma HandleSendsOnce(h: Handler, running: bool, e: MidiEvent)
    ensures var calls := HandleCalls(h.id, h.on, h.port, running, e);
      var r := Translate(e);
      calls[0] == Call.Send(h.id, Midi(h.on, r.value, r.note, r.channel, h.port)) &&
      (Call.StepSlow in calls <==> !running) &&
      |calls| == (if running then 1 else 2) &&
      forall k :: 1 <= k < |calls| ==> !calls[k].Send?
  {
  }

  /** A registration skipped because the key is unchanged would have
      captured the same block, event and port: only the scheduler state the
      handler closes over can differ. */
  lemma SameKeySameHandler(p: Props, q: Props, running: bool)
    requires KeyOf(p) == KeyOf(q)
    ensures Handler(p.id, p.on, p.port, running) == Handler(q.id, q.on, q.port, running)
    ensures p.channels == q.channels
  {
  }

  /** As written, the registered handler keeps the scheduler state of the
      render that registered it: a block registered while stopped still
      steps the engine on every event after the scheduler started, because
      neither the key nor the effect's dependencies change. */
  lemma StaleRunning(p: Props, e: MidiEvent)
    ensures var h := Handler(p.id, p.on, p.port, false);
      Call.StepSlow in HandleAsWritten(h, e) &&
      Call.StepSlow !in HandleCalls(h.id, h.on, h.port, true, e)
  {
    var h := Handler(p.id, p.on, p.port, false);
    assert HandleAsWritten(h, e)[1] == Call.StepSlow;
  }

  /** The sequence that shows it: the block renders while the scheduler is
      stopped and registers, then renders again after it started; the key
      is unchanged, so the manager keeps the first handler, and an event
      still steps the engine. */
  method StaleRegistration(p: Props, e: MidiEvent) returns (registered: seq<Registration>, handled: seq<Call>)
    ensures |registered| == 1 && !registered[0].handle.running
    ensures handled == HandleAsWritten(registered[0].handle, e)
    ensures Call.StepSlow in handled
    ensures Call.StepSlow !in HandleCalls(p.id, p.on, p.port, true, e)
  {
    var manager := new MidiManager();
    var block := new Block();
    block.Register(p, false, manager);
    block.Register(p, true, manager);
    registered := manager.registrations;
    handled := HandleAsWritten(registered[0].handle, e);
    StaleRunning(p, e);
  }
}

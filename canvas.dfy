/** What the canvas blocks talk to: the engine (here a recorder of the calls
    made to it, since its semantics live in the wasm build), the canvas
    graph (a sequence of node records) and the MIDI device manager (a
    recorder of registrations). */
module Canvas {

  datatype Option<T> = None | Some(value: T)

  /** What `manager.ctx?.add_machine()` / `add_block(...)` evaluates to:
      `undefined` when there is no engine context (and then no call is
      made), a number, or any other value. */
  datatype Reply = NoContext | Number(n: int) | NotNumber

  datatype Waveform = Sine

  /** The configurations `add_block` receives. */
  datatype BlockConfig =
    | PixelBlock(pixels: seq<int>, mode: string)
    | TapBlock
    | OscBlock(time: int, values: seq<int>, waveform: Waveform)
    | PlotterBlock(data: seq<int>)

  /** The messages `engine.send` delivers to a block. */
  datatype Command =
    | SetMidiInputEvent(event: string)
    | SetMidiPort(port: int)
    | SetMidiChannels(channels: seq<int>)
    | Midi(event: string, value: int, note: int, channel: int, port: int)

  /** One call into the engine. */
  datatype Call =
    | AddMachine
    | AddBlock(config: BlockConfig)
    | Load(id: int, source: string)
    | Send(id: int, command: Command)
    | SetMachineMemory(target: int, address: int, words: seq<int>)
    | StepSlow

  /** The engine, as the calls made to it. Replies the engine gives are
      parameters: what it answers is not part of this model. */
  class Engine {
    var calls: seq<Call>

    constructor()
      ensures calls == []
    {
      calls := [];
    }

    /** `manager.ctx?.add_machine()`. */
    method AddMachine(reply: Reply) returns (id: Reply)
      modifies this
      ensures id == reply
      ensures calls == old(calls) + if reply.NoContext? then [] else [Call.AddMachine]
    {
      if !reply.NoContext? {
        calls := calls + [Call.AddMachine];
      }
      id := reply;
    }

    /** `manager.ctx?.add_block(config)`. */
    method AddBlock(config: BlockConfig, reply: Reply) returns (id: Reply)
      modifies this
      ensures id == reply
      ensures calls == old(calls) + if reply.NoContext? then [] else [Call.AddBlock(config)]
    {
      if !reply.NoContext? {
        calls := calls + [Call.AddBlock(config)];
      }
      id := reply;
    }

    /** `manager.load(id, source)`. */
    method Load(id: int, source: string)
      modifies this
      ensures calls == old(calls) + [Call.Load(id, source)]
    {
      calls := calls + [Call.Load(id, source)];
    }

    /** `engine.send(id, command)`. */
    method Send(id: int, command: Command)
      modifies this
      ensures calls == old(calls) + [Call.Send(id, command)]
    {
      calls := calls + [Call.Send(id, command)];
    }

    /** `engine.setMachineMemory(target, address, words)`. */
    method SetMachineMemory(target: int, address: int, words: seq<int>)
      modifies this
      ensures calls == old(calls) + [Call.SetMachineMemory(target, address, words)]
    {
      calls := calls + [Call.SetMachineMemory(target, address, words)];
    }

    /** `engine.stepSlow()`. */
    method StepSlow()
      modifies this
      ensures calls == old(calls) + [Call.StepSlow]
    {
      calls := calls + [Call.StepSlow];
    }
  }

  /** A field of a `Partial<...>` object: missing, present but
      `undefined`, or given. */
  datatype Field<T> = Absent | Undefined | Given(value: T)

  /** `Partial<MidiInProps>`. */
  datatype MidiInPatch = MidiInPatch(on: Field<string>, port: Field<int>, channels: Field<seq<int>>)

  /** The data of a canvas node, one variant per block kind created by
      `addBlock`; every one carries the engine id. */
  datatype NodeData =
    | MachineData(id: int, source: string)
    | PixelData(id: int, pixels: seq<int>, mode: string)
    | TapData(id: int, signal: seq<int>)
    | OscData(id: int, time: int, values: seq<int>, waveform: Waveform)
    | PlotterData(id: int, data: seq<int>, size: int)

  datatype Node = Node(id: int, kind: string, data: NodeData)

  /** A call to `updateNodeData`. */
  datatype DataUpdate = MidiInUpdate(id: int, patch: MidiInPatch)

  /** The canvas graph: the nodes `addCanvasNode` appends and the patches
      `updateNodeData` applies (recorded, since the store that merges them
      is not part of this model). */
  class Graph {
    var nodes: seq<Node>
    var updates: seq<DataUpdate>

    constructor()
      ensures nodes == [] && updates == []
    {
      nodes := [];
      updates := [];
    }

    /** `addCanvasNode(id, kind, data)`. */
    method AddCanvasNode(id: int, kind: string, data: NodeData)
      modifies this
      ensures nodes == old(nodes) + [Node(id, kind, data)]
      ensures updates == old(updates)
    {
      nodes := nodes + [Node(id, kind, data)];
    }

    /** `updateNodeData(id, patch)` for a MIDI input block. */
    method UpdateNodeData(id: int, patch: MidiInPatch)
      modifies this
      ensures updates == old(updates) + [MidiInUpdate(id, patch)]
      ensures nodes == old(nodes)
    {
      updates := updates + [MidiInUpdate(id, patch)];
    }
  }
}

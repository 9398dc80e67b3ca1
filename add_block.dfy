/** `addBlock` (canvas/src/canvas/utils/addBlock.tsx): ask the engine for an
    id first, and add the canvas node only when a number came back. */
module AddBlock {
  import opened Canvas

  const DEFAULT_SOURCE: string := "push 0xAA\n\n\n\n"

  /** The block kinds `addBlock` has a case for. */
  predicate IsKind(kind: string) {
    kind == "machine" || kind == "pixel" || kind == "tap" || kind == "osc" || kind == "plotter"
  }

  /** The configuration `add_block` is given for a non-machine kind. */
  function ConfigFor(kind: string): BlockConfig
    requires IsKind(kind) && kind != "machine"
  {
    if kind == "pixel" then PixelBlock([], "Replace")
    else if kind == "tap" then TapBlock
    else if kind == "osc" then OscBlock(0, [], Sine)
    else PlotterBlock([])
  }

  /** The node data stored on the canvas for a block with engine id `id`. */
  function DataFor(kind: string, id: int): NodeData
    requires IsKind(kind)
  {
    if kind == "machine" then MachineData(id, DEFAULT_SOURCE)
    else if kind == "pixel" then PixelData(id, [], "Replace")
    else if kind == "tap" then TapData(id, [1])
    else if kind == "osc" then OscData(id, 0, [], Sine)
    else PlotterData(id, [], 250)
  }

  /** The configuration a node's data corresponds to, read back from the
      data alone (`None` for a machine, which is not configured this way). */
  function ConfigOf(data: NodeData): Option<BlockConfig> {
    match data
    case MachineData(_, _) => None
    case PixelData(_, pixels, mode) => Some(PixelBlock(pixels, mode))
    case TapData(_, _) => Some(TapBlock)
    case OscData(_, time, values, waveform) => Some(OscBlock(time, values, waveform))
    case PlotterData(_, data, _) => Some(PlotterBlock(data))
  }

  function EngineId(data: NodeData): int {
    data.id
  }

  /** What `addBlock(kind)` appends to the engine's call log and to the
      graph, given the engine's reply to the allocation. */
  function Effect(kind: string, reply: Reply): (r: (seq<Call>, seq<Node>))
    ensures |r.0| <= 2 && |r.1| <= 1
    ensures |r.1| == 1 <==> IsKind(kind) && reply.Number?
  {
    if !IsKind(kind) then ([], [])
    else
      var alloc := if reply.NoContext? then []
        else if kind == "machine" then [Call.AddMachine] else [Call.AddBlock(ConfigFor(kind))];
      match reply
      case Number(id) =>
        var load := if kind == "machine" then [Call.Load(id, DEFAULT_SOURCE)] else [];
        (alloc + load, [Node(id, kind, DataFor(kind, id))])
      case _ => (alloc, [])
  }

  /** `addBlock(kind)`. */
  method Add(kind: string, engine: Engine, graph: Graph, reply: Reply)
    modifies engine, graph
    ensures engine.calls == old(engine.calls) + Effect(kind, reply).0
    ensures graph.nodes == old(graph.nodes) + Effect(kind, reply).1
    ensures graph.updates == old(graph.updates)
  {
    var replied: Reply;
    if kind == "machine" {
      replied := engine.AddMachine(reply);
      if !replied.Number? { return; }
      var id := replied.n;
      engine.Load(id, DEFAULT_SOURCE);
      graph.AddCanvasNode(id, "machine", MachineData(id, DEFAULT_SOURCE));
    } else if kind == "pixel" {
      replied := engine.AddBlock(PixelBlock([], "Replace"), reply);
      if !replied.Number? { return; }
      var id := replied.n;
      graph.AddCanvasNode(id, "pixel", PixelData(id, [], "Replace"));
    } else if kind == "tap" {
      replied := engine.AddBlock(TapBlock, reply);
      if !replied.Number? { return; }
      var id := replied.n;
      graph.AddCanvasNode(id, "tap", TapData(id, [1]));
    } else if kind == "osc" {
      replied := engine.AddBlock(OscBlock(0, [], Sine), reply);
      if !replied.Number? { return; }
      var id := replied.n;
      graph.AddCanvasNode(id, "osc", OscData(id, 0, [], Sine));
    } else if kind == "plotter" {
      replied := engine.AddBlock(PlotterBlock([]), reply);
      if !replied.Number? { return; }
      var id := replied.n;
      graph.AddCanvasNode(id, "plotter", PlotterData(id, [], 250));
    }
  }

  // ----- lemmas -------------------------------------------------------------

  /** No node is added unless the engine answered with a number; a kind
      with no case makes no engine call at all. */
  lemma NoNodeWithoutId(kind: string, reply: Reply)
    ensures !reply.Number? ==> Effect(kind, reply).1 == []
    ensures !IsKind(kind) ==> Effect(kind, reply) == ([], [])
    ensures reply.NoContext? ==> Effect(kind, reply).0 == []
  {
  }

  /** On success exactly one node is added, of the requested kind, and both
      its node id and its data's id are the engine's id. Exactly one
      allocation is made, before anything else. */
  lemma OneNodeWithEngineId(kind: string, id: int)
    requires IsKind(kind)
    ensures var (calls, nodes) := Effect(kind, Number(id));
      |nodes| == 1 && nodes[0].id == id && EngineId(nodes[0].data) == id && nodes[0].kind == kind &&
      |calls| >= 1 && (calls[0].AddMachine? || calls[0].AddBlock?) &&
      forall k :: 1 <= k < |calls| ==> !calls[k].AddMachine? && !calls[k].AddBlock?
  {
  }

  /** A machine is allocated with `add_machine`, loaded with the default
      program, and only then added to the canvas with that source. */
  lemma MachineLoadsDefault(id: int)
    ensures Effect("machine", Number(id)).0 == [Call.AddMachine, Call.Load(id, DEFAULT_SOURCE)]
    ensures Effect("machine", Number(id)).1[0].data == MachineData(id, DEFAULT_SOURCE)
  {
  }

  /** The data stored for pixel and osc blocks is the configuration sent to
      the engine; plotter and tap store more than they send (a size of 250,
      a signal of [1]). */
  lemma StoredDataAgainstConfig(kind: string, id: int)
    requires IsKind(kind) && kind != "machine"
    ensures var (calls, nodes) := Effect(kind, Number(id));
      calls == [Call.AddBlock(ConfigFor(kind))] &&
      ConfigOf(nodes[0].data) == Some(ConfigFor(kind)) &&
      (kind == "plotter" ==> nodes[0].data.size == 250) &&
      (kind == "tap" ==> nodes[0].data.signal == [1] && ConfigFor(kind) == TapBlock)
  {
  }
}

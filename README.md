# From opcodes to algorithms — a verified Dafny model

This project models the core of a small stack-machine toolkit and the
editor canvas that drives it.

**The virtual machine.** It has a program counter, a bounded data stack, a
bounded call stack of return addresses, 64K words of memory, an event list
and a counter of expected messages. `exec_op` runs one instruction. `tick`
runs the instruction at PC. `run` resets PC and ticks until `should_halt`.
The `Machine` struct supplies the constructors, the two stack managers and
`send_message`.
- `VmState` holds the machine as a value.
- `VmExecute` holds the meaning of every instruction and of `run` as
  functions, with lemmas for each opcode.
- `VmMachine.Machine` is a class whose fields the methods update in place.
  Each method is proved to move the fields exactly as the matching VmExecute
  function moves the value.

**The older interpreter** (`LegacyMachine`) keeps its program in memory.
`Push` reads its operand from the following word. Its fatal `unwrap`s and
its `u16` arithmetic are preconditions.

**The binary loader** (`Loader`) checks the two-word signature and reads the
four-word header. It cuts out the code and data segments and writes them
into a new machine.

**The canvas** (the TypeScript editor) is modelled on the engine, the graph
and the MIDI manager, each as a recorder of the calls made to it (`Canvas`).
The modules over it are:
- the allocate-then-add rule of `addBlock` (`AddBlock`);
- the MIDI input block's settings commands, event translation and one-time
  registration (`MidiIn`);
- the command palette's selection cursor (`InsertPalette`);
- the value viewer's decoding and its one memory write (`ValueView`);
- the machine block's status flags (`MachineBlock`).

Integers are unbounded in Dafny, so the `u16` words are written out:
- In the execution model a word is `0..0xFFFF`. Overflow of the 16-bit
  arithmetic and division by zero are an explicit `Panicked` outcome, as a
  debug build of the Rust code aborts on them.
- In the value viewer a word is a `bv16`.

Three behaviours of the code that a reader might not expect are modelled as written:
- `send_message` leaves the mailbox untouched, although its comment says it adds the message to the mailbox (machine/src/machine/mod.rs:69).
- `run` sets PC to 0 before its loop (machine/src/machine/execute.rs:180).
- Escape calls `hide`, which clears the text and deactivates the palette but keeps `selected` (canvas/src/canvas/components/Insert.tsx:22-25 and 89-92).

## Model

| member | source | states |
|---|---|---|
| VmState.New | machine/src/machine/mod.rs:38-47 | a new machine has no id, is not in debug mode, has no events, no mailbox, empty stacks, PC 0 and zeroed memory |
| VmState.FromCode | machine/src/machine/mod.rs:75-81 | `From<Vec<Op>>` is `new()` except for the loaded program |
| VmState.StackOf | machine/src/machine/mod.rs:49-54 | the data stack manager uses SP and carries the machine's debug flag |
| VmState.CallStackOf | machine/src/machine/mod.rs:56-62 | the call stack manager uses FP, is bounded by CALL_STACK_START..CALL_STACK_END and keeps the debug flag |
| VmState.SendMessage | machine/src/machine/mod.rs:64-72 | without an id nothing changes; otherwise exactly one `Send` event from the id is appended, with `to` and the action as given; the mailbox is never touched |
| VmExecute.Binary | machine/src/machine/execute.rs:59-65 | every comparison yields 1 or 0 |
| VmExecute.ApplyTwo | machine/src/machine/execute.rs:49-65 | binary instructions keep memory, the machine's identity and program, and step PC by one when they complete |
| VmExecute.ApplyOne | machine/src/machine/execute.rs:55-57 | `Inc`/`Dec` keep memory, identity and program, and step PC by one when they complete |
| VmExecute.ExecStack | machine/src/machine/execute.rs:34-103 | the stack instructions keep memory, identity and program, and step PC by one when they complete |
| VmExecute.ExecPrint | machine/src/machine/execute.rs:105-120 | `Print` keeps memory, identity and program and adds at most one event |
| VmExecute.StringAt | machine/src/machine/execute.rs:122-124 | the string at an address is exactly the words of memory from that address up to the first 0 or the end of memory, and contains no 0 |
| VmExecute.PushAll | machine/src/machine/execute.rs:125-127 | pushing the words completes iff they all fit, and then the stack is the old stack followed by the words; otherwise it panics with the words that fit pushed and the stack full; memory, identity and program are kept |
| VmExecute.SendOp | machine/src/machine/execute.rs:144-152 | `Send` keeps memory, identity, program and mailbox, and adds at most one event |
| VmExecute.ExecControl | machine/src/machine/execute.rs:67-142 | jumps, calls and returns keep memory and the machine's identity, configuration, program and mailbox |
| VmExecute.ExecMemory | machine/src/machine/execute.rs:39-47 | `Load` leaves memory unchanged; a completed memory instruction steps PC by one |
| VmExecute.Exec | machine/src/machine/execute.rs:26-170 | every instruction keeps validity, id, debug flag, program and mailbox, and adds at most one event; only `Store` writes memory; a completed non-control instruction steps PC by one; a failed one leaves PC |
| VmExecute.JumpsSetPc | machine/src/machine/execute.rs:69-85 | `Jump`, a taken `JumpZero`/`JumpNotZero` and `Call` set PC exactly to the target; `Call` pushes the old PC on the call stack |
| VmExecute.CallThenReturn | machine/src/machine/execute.rs:130-142 | `Return` after a `Call` made below 0xFFFF resumes at the instruction after the `Call` and restores the call stack |
| VmExecute.ReturnSpec | machine/src/machine/execute.rs:137-142 | `Return` pops the return address and resumes after it; an empty call stack panics, and so does a return address of 0xFFFF, whose `u16` successor overflows |
| VmExecute.JumpZeroSpec | machine/src/machine/execute.rs:73-77 | with an empty stack PC just advances; otherwise exactly one value is popped and PC goes to the target iff it was 0 |
| VmExecute.JumpNotZeroSpec | machine/src/machine/execute.rs:79-85 | with an empty stack PC just advances; otherwise exactly one value is popped and PC goes to the target iff it was not 0 |
| VmExecute.BinarySpec | machine/src/machine/execute.rs:49-65 | a completing binary instruction pops two operands and pushes one result, so the depth falls by exactly one |
| VmExecute.ArithmeticSpec | machine/src/machine/execute.rs:50-53 | with `a` on top of `b`, `Add` pushes a+b, `Sub` b-a, `Mul` a*b and `Div` b/a whenever the result is a word |
| VmExecute.ComparisonSpec | machine/src/machine/execute.rs:60-65 | with `a` on top of `b`, each comparison pushes 1 when its relation holds and 0 otherwise |
| VmExecute.BinarySymmetryAndFaults | machine/src/machine/execute.rs:50-61 | `Equal` and `NotEqual` are symmetric; overflow and division by zero are panics |
| VmExecute.IncDecSpec | machine/src/machine/execute.rs:55-57 | `Inc`/`Dec` replace the top by its successor/predecessor and panic at the ends of the range |
| VmExecute.IncThenDec | machine/src/machine/execute.rs:55-57 | `Dec` after `Inc` restores the machine apart from PC |
| VmExecute.SwapSpec | machine/src/machine/execute.rs:92-98 | `Swap` exchanges the top two values and keeps the depth and everything below |
| VmExecute.DupOverSpec | machine/src/machine/execute.rs:87-103 | `Dup` pushes a copy of the top value, `Over` a copy of the second one |
| VmExecute.MemorySpec | machine/src/machine/execute.rs:39-47 | `Load` pushes `mem[addr]` and keeps memory; `Store` pops one value into `mem[addr]` and changes no other address |
| VmExecute.LoadStringPoom | machine/src/machine/execute.rs:122-128 | the string "poom" at an address is pushed as 112, 111, 111, 109, in order |
| VmExecute.StringAtUpTo | machine/src/machine/execute.rs:122-124 | the string at an address is the `k` words before the first 0 at `addr + k` |
| VmExecute.LoadStringSpec | machine/src/machine/execute.rs:122-128 | for every address and stack, `LoadString` pushes the words from memory up to the first 0 in order, or panics with the words that fit pushed |
| VmExecute.PrintSplitSpec | machine/src/machine/execute.rs:105-114 | the popped text contains no 0; either a 0 terminator just below it was consumed, or the whole stack was popped |
| VmExecute.PrintSplitShrinks | machine/src/machine/execute.rs:108-111 | the popping loop leaves at most the stack it started with |
| VmExecute.PrintSpec | machine/src/machine/execute.rs:105-120 | `Print` appends exactly one `Print` event with the popped words in push order and leaves the rest of the stack |
| VmExecute.SendSpec | machine/src/machine/execute.rs:144-152 | `Send(to, size)` pops exactly `size` values, puts the former top first in the body, and emits one `Send` event with a `Data` action (none without an id) |
| VmExecute.SendMissingBody | machine/src/machine/execute.rs:147-149 | a stack shorter than `size` is fatal |
| VmExecute.ReceiveSpec | machine/src/machine/execute.rs:154-156 | `Receive` only increments `expected_receives` (and PC) |
| VmExecute.RunFrom | machine/src/machine/execute.rs:179-187 | the loop stops as halted only at a halting instruction, and as failed only with an error outcome |
| VmExecute.Decode | machine/src/machine/execute.rs:174 | the decoded instruction is one of the program's, or `Eof`, which is read past the end of the program |
| VmExecute.Tick | machine/src/machine/execute.rs:173-177 | a tick keeps what every instruction keeps: validity, identity, program, mailbox, at most one new event, PC on failure |
| VmExecute.Run | machine/src/machine/execute.rs:179-187 | `run` ends valid, halted only at a halting instruction, failed only with an error, and with identity, program and mailbox unchanged |
| VmExecute.Ticks | machine/src/machine/execute.rs:182-184 | repeated ticks keep the machine valid |
| VmExecute.RunFailsAtFirstError | machine/src/machine/execute.rs:182-184 | a failed run is exactly some number of completed ticks followed by the first failing tick |
| VmExecute.RunHaltsAfterTicks | machine/src/machine/execute.rs:182-186 | a halted run reached a halting instruction through ticks that all completed |
| VmExecute.RunFromTick | machine/src/machine/execute.rs:182-184 | one loop iteration: a completing tick continues the loop, a failing tick ends the run with its error |
| VmExecute.RunFromHalted | machine/src/machine/execute.rs:179-193 | a machine at a halting instruction stops at once, unchanged |
| VmExecute.RunFromOutOfFuel | machine/src/machine/execute.rs:181-186 | without fuel a machine that does not halt is reported as not finished, unchanged |
| VmExecute.HaltAndRunStart | machine/src/machine/execute.rs:179-193 | `should_halt` holds exactly at `Halt` or `Eof`; `run` starts from PC 0 whatever PC was |
| VmMachine.Machine.New | machine/src/machine/mod.rs:38-47 | the fields start as the value `VmState.New` |
| VmMachine.Machine.FromCode | machine/src/machine/mod.rs:75-81 | the fields start as `VmState.FromCode(program)` |
| VmMachine.Machine.SendMessage | machine/src/machine/mod.rs:64-72 | the fields change exactly as `VmState.SendMessage` says |
| VmMachine.Machine.PushValue | machine/src/machine/mod.rs:49-54 | a push succeeds iff the data stack has room, and then appends the value |
| VmMachine.Machine.PopValue | machine/src/machine/mod.rs:49-54 | a pop succeeds iff the data stack is non-empty, and then returns and removes the top |
| VmMachine.Machine.PushReturnAddress | machine/src/machine/mod.rs:56-62 | a push on the call stack succeeds iff it has room |
| VmMachine.Machine.PopReturnAddress | machine/src/machine/mod.rs:56-62 | a pop from the call stack succeeds iff it is non-empty, and returns its top |
| VmMachine.Machine.ExecStack | machine/src/machine/execute.rs:36-37 | push, pop, dup, swap and over change the fields as `VmExecute.ExecStack` says |
| VmMachine.Machine.ExecMemory | machine/src/machine/execute.rs:39-47 | `Load`/`Store` change the fields as `VmExecute.ExecMemory` says |
| VmMachine.Machine.ApplyTwo | machine/src/machine/execute.rs:50-65 | the binary instructions pop `a`, pop `b` and push the result, as `VmExecute.ApplyTwo` says, keeping partial pops on an error |
| VmMachine.Machine.ApplyOne | machine/src/machine/execute.rs:56-57 | `Inc`/`Dec` change the fields as `VmExecute.ApplyOne` says |
| VmMachine.Machine.ExecControl | machine/src/machine/execute.rs:69-85 | jumps, `Call` and `Return` change the fields and choose the jump as `VmExecute.ExecControl` says |
| VmMachine.Machine.Print | machine/src/machine/execute.rs:105-120 | the popping loop ends in the state `VmExecute.ExecPrint` gives |
| VmMachine.Machine.LoadString | machine/src/machine/execute.rs:122-128 | the pushing loop ends in the state `VmExecute.PushAll` gives for the string at the address |
| VmMachine.Machine.Send | machine/src/machine/execute.rs:144-152 | the popping loop and `send_message` end in the state `VmExecute.SendOp` gives |
| VmMachine.Machine.ComputeOp | machine/src/machine/execute.rs:49-120 | control, arithmetic, comparison and print instructions match `VmExecute.Exec` |
| VmMachine.Machine.DataOp | machine/src/machine/execute.rs:34-47 | the remaining instructions match `VmExecute.Exec` |
| VmMachine.Machine.ExecOp | machine/src/machine/execute.rs:26-170 | the new fields and the outcome are exactly those of `VmExecute.Exec`, including the PC update |
| VmMachine.Machine.Tick | machine/src/machine/execute.rs:173-177 | the new fields and the outcome are those of `VmExecute.Tick` |
| VmMachine.Machine.ShouldHalt | machine/src/machine/execute.rs:189-193 | agrees with `VmExecute.ShouldHalt` |
| VmMachine.Machine.RunTick | machine/src/machine/execute.rs:182-184 | one loop iteration keeps the run's result: the rest of the run gives it, or the machine has failed with it |
| VmMachine.Machine.Ticking | machine/src/machine/execute.rs:182-186 | the loop returns `RunFrom` of the starting state and leaves the machine in its final state |
| VmMachine.Machine.Run | machine/src/machine/execute.rs:179-187 | `run` returns `VmExecute.Run` of the starting state and leaves the machine in its final state |
| LegacyMachine.Init | src/machine/mod.rs:15-20 | a new machine has PC 0, an empty stack and zeroed memory |
| LegacyMachine.FromWord | src/machine/mod.rs:53 | every opcode word decodes to the instruction with that opcode; any other word reads as `None` |
| LegacyMachine.Encode | src/machine/mod.rs:122 | an encoded program starts with the first instruction's opcode, followed by its operand for a `Push`, and has at least one word per instruction |
| LegacyMachine.LoadCode | src/machine/mod.rs:122 | the encoded program occupies memory from address 0; the rest of memory, PC and stack are unchanged |
| LegacyMachine.Width | src/machine/mod.rs:52-59 | an instruction takes one or two words |
| LegacyMachine.Fetch | src/machine/mod.rs:44-59 | the decoded instruction is a `Push` exactly when it takes two words, and then its operand is the word after the opcode |
| LegacyMachine.StackEffect | src/machine/mod.rs:66-106 | an instruction grows the stack by at most one, and only a `Push` needs room |
| LegacyMachine.TickSpec | src/machine/mod.rs:62-111 | a tick keeps memory and moves PC past the instruction |
| LegacyMachine.Machine.New | src/machine/mod.rs:15-20 | the fields start as `Init()` |
| LegacyMachine.Machine.Pop | src/machine/mod.rs:30-33 | returns and removes the top |
| LegacyMachine.Machine.Push | src/machine/mod.rs:35-38 | appends the value |
| LegacyMachine.Machine.Arg | src/machine/mod.rs:44-48 | moves PC on by one, then returns the word there |
| LegacyMachine.Machine.CurrentInstruction | src/machine/mod.rs:50-59 | returns `Fetch` of the state and leaves PC on the last word of the instruction |
| LegacyMachine.Machine.Arithmetic | src/machine/mod.rs:77-103 | pops `a`, pops `b` and pushes the result, as `StackEffect` says |
| LegacyMachine.Machine.Tick | src/machine/mod.rs:62-111 | reports success, and the new fields are `TickSpec` of the old ones |
| LegacyMachine.FromWordOpcode | src/machine/mod.rs:53 | decoding an opcode word gives the instruction back, apart from `Push`'s operand |
| LegacyMachine.EncodeLayout | src/machine/mod.rs:122 | `Push v` is laid out as its opcode followed by `v`; any other instruction as one word |
| LegacyMachine.PcAdvance | src/machine/mod.rs:44-108 | a `Push` tick advances PC by 2, every other tick by 1; memory is never written |
| LegacyMachine.ArithmeticSpec | src/machine/mod.rs:77-103 | with `a` on top of `b`, `Add`, `Sub`, `Mul` and `Div` leave a+b, b-a, a*b and b/a |
| LegacyMachine.NoneAndHalt | src/machine/mod.rs:62-111 | `None` and `Halt` change nothing but PC |
| LegacyMachine.PushTick | src/machine/mod.rs:62-111 | a `Push` opcode pushes the following word and skips it |
| LegacyMachine.OtherTick | src/machine/mod.rs:62-111 | any other opcode does its stack work and advances PC by one |
| LegacyMachine.AddThenSubLoaded | src/machine/mod.rs:122 | the test program is laid out as 1 5 1 10 3 1 3 4 |
| LegacyMachine.AddThenSubTicks | src/machine/mod.rs:124-137 | ticking those words gives stacks [5], [5, 10], [15], [15, 3], [12] |
| LegacyMachine.AddThenSub | src/machine/mod.rs:120-137 | Push 5, Push 10, Add leaves 15 on top; Push 3, Sub then leaves 12 |
| Loader.ReadHeader | src/cli/run.rs:14-22 | succeeds iff there are six words and the first two are the signature; the header is words 2..5 in order |
| Loader.Segment | src/cli/run.rs:28-29 | succeeds iff the range lies inside the image, and is then exactly that range |
| Loader.Write | src/cli/run.rs:31-32 | succeeds iff the words fit; they land from the start address and every other address keeps its word |
| Loader.LoadImage | src/cli/run.rs:13-32 | a loaded machine is well formed |
| Loader.RunFromBinaryBytes | src/cli/run.rs:13-32 | builds a new machine exactly when `LoadImage` succeeds, with the same fields; otherwise reports `LoadImage`'s error |
| Loader.SignatureChecked | src/cli/run.rs:14-16 | an image that is too short or has a wrong signature is rejected |
| Loader.LoadsExactly | src/cli/run.rs:18-32 | a well-headed image loads iff both segments lie in the image and fit in memory; a segment outside the image is the reason |
| Loader.SegmentsPlaced | src/cli/run.rs:28-32 | the data segment sits at DATA_START, the code segment at CODE_START where data does not cover it, and every other word is 0 |
| Loader.DebugFlagCopied | src/cli/run.rs:24-25 | the debug flag is copied; apart from memory the machine is a new one |
| Canvas.Engine.AddMachine | canvas/src/canvas/utils/addBlock.tsx:10 | without an engine context no call is made; the reply is returned |
| Canvas.Engine.AddBlock | canvas/src/canvas/utils/addBlock.tsx:19-21 | without an engine context no call is made; the reply is returned |
| Canvas.Engine.Load | canvas/src/canvas/utils/addBlock.tsx:13 | records one `load` call |
| Canvas.Engine.Send | canvas/src/blocks/midi/in.tsx:48 | records one `send` call |
| Canvas.Engine.SetMachineMemory | canvas/src/blocks/value-view/index.tsx:86 | records one `setMachineMemory` call |
| Canvas.Engine.StepSlow | canvas/src/blocks/midi/in.tsx:79 | records one `stepSlow` call |
| Canvas.Graph.AddCanvasNode | canvas/src/canvas/utils/addBlock.tsx:14 | appends one node and records no update |
| Canvas.Graph.UpdateNodeData | canvas/src/blocks/midi/in.tsx:45 | records one update and keeps the nodes |
| AddBlock.Add | canvas/src/canvas/utils/addBlock.tsx:7-54 | the engine calls and the graph grow exactly by `Effect(kind, reply)` |
| AddBlock.Effect | canvas/src/canvas/utils/addBlock.tsx:7-54 | at most two engine calls and one node, and a node exactly for a known kind answered with a number |
| AddBlock.NoNodeWithoutId | canvas/src/canvas/utils/addBlock.tsx:8-53 | no node is added unless the engine answered with a number; an unknown kind makes no call; with no engine context no kind makes a call |
| AddBlock.OneNodeWithEngineId | canvas/src/canvas/utils/addBlock.tsx:7-54 | on success exactly one node of the requested kind is added, with node id and `data.id` equal to the engine id, after exactly one allocation call |
| AddBlock.MachineLoadsDefault | canvas/src/canvas/utils/addBlock.tsx:5-16 | a machine is allocated with `add_machine`, then loaded with the default source, and its node stores that source |
| AddBlock.StoredDataAgainstConfig | canvas/src/canvas/utils/addBlock.tsx:18-51 | the data stored for pixel and osc equals the configuration sent; the plotter adds `size` 250 and the tap stores signal [1], locally only |
| MidiIn.UpdateCommands | canvas/src/blocks/midi/in.tsx:44-58 | at most three commands, and none exactly when neither `on` nor `port` is given and `channels` is absent |
| MidiIn.Update | canvas/src/blocks/midi/in.tsx:44-58 | records the patch on the node and sends exactly `UpdateCommands(patch)` to the block, in order |
| MidiIn.UpdateOrder | canvas/src/blocks/midi/in.tsx:47-57 | the event command comes first iff `on` is a string, the port next iff `port` is a number, and the channels last iff the key is present, with the given channels or `[]` when undefined |
| MidiIn.UndefinedChannelsSentEmpty | canvas/src/blocks/midi/in.tsx:55-56 | a present but undefined `channels` is sent as [] |
| MidiIn.Translate | canvas/src/blocks/midi/in.tsx:60-74 | the channel defaults to 0; a control change gives the controller number and a truthy raw value (else 0); a note gives its number and raw attack; anything else gives 0, 0 |
| MidiIn.Handle | canvas/src/blocks/midi/in.tsx:60-80 | sends the `Midi` command for the event, then steps the engine iff the scheduler is not running now |
| MidiIn.HandleSendsOnce | canvas/src/blocks/midi/in.tsx:77-79 | exactly one `Midi` command to the block's own id, and exactly one `stepSlow` iff not running |
| MidiIn.MidiManager.On | canvas/src/blocks/midi/in.tsx:88 | records one registration |
| MidiIn.Block.Register | canvas/src/blocks/midi/in.tsx:84-91 | an unchanged key registers nothing; otherwise exactly one registration is made and the key is recorded |
| MidiIn.SameKeySameHandler | canvas/src/blocks/midi/in.tsx:85-86 | equal keys mean the same block, event, port and channels |
| MidiIn.StaleRunning | canvas/src/blocks/midi/in.tsx:79-91 | a handler registered while stopped still steps the engine after the scheduler started |
| MidiIn.StaleRegistration | canvas/src/blocks/midi/in.tsx:79-91 | registering while stopped and rendering again after the start leaves one registration, with the stopped handler, which still steps the engine on an event |
| InsertPalette.Palette.constructor | canvas/src/canvas/components/Insert.tsx:9-12 | empty text, no cursor, inactive, first entry selected, no runs |
| InsertPalette.Palette.Toggle | canvas/src/canvas/components/Insert.tsx:18-20 | the "/" hotkey flips `active` and nothing else |
| InsertPalette.Palette.MouseMove | canvas/src/canvas/components/Insert.tsx:27-29 | the cursor becomes the mouse position |
| InsertPalette.Palette.Hide | canvas/src/canvas/components/Insert.tsx:22-25 | deactivates and clears the text |
| InsertPalette.Palette.ChangeText | canvas/src/canvas/components/Insert.tsx:63-66 | replaces the text and selects the first entry |
| InsertPalette.Palette.ArrowDown | canvas/src/canvas/components/Insert.tsx:68-71 | selection becomes min(selected + 1, matches - 1) |
| InsertPalette.Palette.ArrowUp | canvas/src/canvas/components/Insert.tsx:74-77 | selection becomes max(selected - 1, 0) |
| InsertPalette.Palette.Enter | canvas/src/canvas/components/Insert.tsx:80-86 | changes the state and the runner calls as `Entered` says |
| InsertPalette.Palette.Escape | canvas/src/canvas/components/Insert.tsx:89-92 | hides the palette |
| InsertPalette.Entered | canvas/src/canvas/components/Insert.tsx:80-86 | Enter makes a run iff there are matches, at most one, and keeps the selection and the cursor |
| InsertPalette.ArrowKeys | canvas/src/canvas/components/Insert.tsx:68-77 | the arrows move the selection by one but never past the last entry or above the first; a selection inside the list stays inside; nothing else changes |
| InsertPalette.ArrowDownWithoutMatches | canvas/src/canvas/components/Insert.tsx:68-71 | with no matches ArrowDown selects -1 |
| InsertPalette.TextResetsSelection | canvas/src/canvas/components/Insert.tsx:63-66 | editing sets the text, selects entry 0 and keeps visibility |
| InsertPalette.EnterRunsSelected | canvas/src/canvas/components/Insert.tsx:80-86 | with no matches nothing happens; otherwise one run of `matches[selected]` at the cursor, and the palette hides iff the run succeeded |
| InsertPalette.EscapeKeepsSelection | canvas/src/canvas/components/Insert.tsx:89-92 | Escape clears the text and deactivates but keeps `selected`, which can then be past the end of the new matches |
| InsertPalette.ToggleAndVisibility | canvas/src/canvas/components/Insert.tsx:18-20 | the hotkey is an involution; without a cursor nothing is shown |
| ValueView.ToBase | canvas/src/blocks/value-view/index.tsx:20 | `toString(radix)` gives at least one lower-case digit of the radix |
| ValueView.DigitRoundTrip | canvas/src/blocks/value-view/index.tsx:20 | each digit reads back as its value in either case; upper-casing changes only a-f |
| ValueView.ParseLeadingZeros | canvas/src/blocks/value-view/index.tsx:20 | leading zeros from `padStart` do not change the number |
| ValueView.ParseUpper | canvas/src/blocks/value-view/index.tsx:20 | `toUpperCase` does not change the number the digits denote |
| ValueView.PadSpec | canvas/src/blocks/value-view/index.tsx:20 | `padStart(4, "0")` keeps the text lower-case digits and keeps the number they denote |
| ValueView.UpperDigits | canvas/src/blocks/value-view/index.tsx:20 | upper-casing lower-case digits gives digits 0-9 and A-F |
| ValueView.ParseToBase | canvas/src/blocks/value-view/index.tsx:20 | the digits read back as the number |
| ValueView.Hex | canvas/src/blocks/value-view/index.tsx:20 | `hx(n)` has at least four digits |
| ValueView.HexSpec | canvas/src/blocks/value-view/index.tsx:20 | `hx(n)` reads back as n, uses only 0-9 and A-F, has at least four digits, and exactly four for a word |
| ValueView.DecimalSpec | canvas/src/blocks/value-view/index.tsx:32-57 | the decimal rendering reads back as the number |
| ValueView.Cells | canvas/src/blocks/value-view/index.tsx:48-55 | one cell per value, in order, dimmed iff the value is 0 |
| ValueView.FindZero | canvas/src/blocks/value-view/index.tsx:98 | the index of the first 0, or -1 exactly when there is none |
| ValueView.TextOf | canvas/src/blocks/value-view/index.tsx:96-105 | the longest prefix without a 0 |
| ValueView.Render | canvas/src/blocks/value-view/index.tsx:22-110 | as written: "missing value" iff the block has no values; otherwise a number grid exactly for `Int` and `Bytes`, the bit grid of the values for `ColorGrid`, a text exactly for `String` |
| ValueView.RenderIntended | canvas/src/blocks/value-view/index.tsx:96-106 | the corrected display: the `String` case shows `TextOf` of the values, every other case is drawn as written |
| ValueView.RenderTextDiffers | canvas/src/blocks/value-view/index.tsx:96-106 | for values with no 0 the display as written shows one word fewer than the intended one |
| ValueView.MissingWhateverVisual | canvas/src/blocks/value-view/index.tsx:18-29 | a missing id or empty list shows "missing value" whatever the visual |
| ValueView.NumberGridSpec | canvas/src/blocks/value-view/index.tsx:32-57 | `Int`/`Bytes` draw one cell per value on min(length, 8) columns; each cell reads back as its value, in 4 hex digits for `Bytes` |
| ValueView.UnknownVisuals | canvas/src/blocks/value-view/index.tsx:109 | exactly the visuals other than Int, Bytes, ColorGrid and String are unknown, "Switches" among them |
| ValueView.StringStopsAtTerminator | canvas/src/blocks/value-view/index.tsx:96-105 | the text shown stops before the first 0 |
| ValueView.TextAsWrittenDropsLast | canvas/src/blocks/value-view/index.tsx:98-101 | as written, the text is right when a 0 is present and loses the last word when none is |
| ValueView.TextAsWrittenExample | canvas/src/blocks/value-view/index.tsx:98-101 | [104, 105] ("hi") is displayed as only "h" as written, and as "hi" when corrected |
| ValueView.FlipBitSpec | canvas/src/blocks/value-view/index.tsx:84 | flipping a bit twice restores the word, and a flip inverts bit j |
| ValueView.FlipBitOther | canvas/src/blocks/value-view/index.tsx:84 | a flip keeps every other bit |
| ValueView.Click | canvas/src/blocks/value-view/index.tsx:82-87 | a click makes exactly the `ClickWrite` call |
| ValueView.ClickWritesOneWord | canvas/src/blocks/value-view/index.tsx:82-87 | one word, `flipBit(values[i], j)`, written at `offset + i` of the target; clicking again writes the old word back |
| ValueView.Footer | canvas/src/blocks/value-view/index.tsx:122 | the footer starts with "o=0x" |
| ValueView.FooterOffset | canvas/src/blocks/value-view/index.tsx:122 | for every offset the schema accepts, the footer shows it in hex after "o=0x", in four digits when it is a word and more otherwise, followed by " s=" |
| MachineBlock.MissingEntryNoFlags | canvas/src/blocks/machine/index.tsx:17-23 | a missing output entry sets no flag |
| MachineBlock.StatusFlags | canvas/src/blocks/machine/index.tsx:19-21 | errored, awaiting and halted hold iff the status is Invalid, Awaiting, Halted; at most one holds |
| MachineBlock.Thresholds | canvas/src/blocks/machine/index.tsx:22-23 | backpressuring iff inbox size > 50; sending iff outbox size >= 1; a missing size sets neither |
| MachineBlock.Boundaries | canvas/src/blocks/machine/index.tsx:22-23 | 50 queued messages is not backpressure, 51 is; an outbox of 0 is not sending, 1 is |
| MachineBlock.OwnEntryOnly | canvas/src/blocks/machine/index.tsx:16-17 | the flags depend on the block's own entry only |

## Left out

- I/O: reading the bytecode file, the print handlers, `println!` (src/cli/run.rs:6-11,26,35-37; src/machine/mod.rs:64). Their effects are outside the machine.
- `m.handlers` (src/cli/run.rs:26): neither `Machine` has such a field.
- Loader.RunFromBinaryBytes: stops before `m.run()`. The loaded words are raw memory, and mapping them to instructions needs `decode`, which is not part of this model.
- `MAGIC_BYTES`, CODE_START, DATA_START, STACK_START/END and CALL_STACK_START/END: these are declared in files that are not part of this model. They carry placeholder values. The proofs use only their order and that the regions fit in memory.
- `StackManager`, `Memory`, `Registers`, `decode` and the string manager are not part of this model. The model gives them the contracts their use implies:
  - stacks are bounded sequences;
  - `get`/`peek` on a missing slot read 0;
  - a string is the words up to the first 0;
  - a write past the last address fails;
  - a PC past the program reads `Eof`.
- The `instructions` module is not part of this model. LegacyMachine.FromWord uses an opcode numbering of its own.
- VmExecute.RunFrom, VmMachine.Machine.Run: `run` loops until a halt and may never stop. The model bounds it with a `fuel` count and reports `OutOfFuel`, so a run that does not halt within the bound is not modelled further.
- Memory: the source keeps both stacks inside `mem`, behind the SP and FP registers, and loads the program into `mem`. The model keeps them as separate sequences (`stack`, `callStack`, `code`). It does not capture a `Load` or `Store` at a stack or code address, the memory writes of pushes, pops and `Call`, or self-modifying code. In the contracts of VmExecute.Exec, VmExecute.ExecMemory, VmExecute.MemorySpec, LegacyMachine.TickSpec and LegacyMachine.PcAdvance, "memory" means memory outside the stack and code regions.
- PC width: `Registers` is not part of this model, and the width of `reg.inc(PC)` (machine/src/machine/execute.rs:166) is not shown. PC is therefore an unbounded number, and an instruction at 0xFFFF moves it to 0x10000. Return addresses are such PCs too; `Return`'s own `address + 1` at 0xFFFF is a panic.
- `get_str_from_bytes(bytes).expect(...)` in `Print` (machine/src/machine/execute.rs:116): the conversion of the words to text is assumed to succeed, and the `Print` event keeps the words themselves.
- VmMachine.Machine.ApplyTwo: `apply_two` is not part of this model. It is taken to pop `a`, then pop `b`, push the result, and keep the pops already made when a later step fails.
- MidiIn.Block.Register: the key `${id}-${on}-${port}-${channels}` (canvas/src/blocks/midi/in.tsx:85) is compared by its parts, not as a string, so two settings that print to the same string are not modelled as equal.
- `u16` wrap-around: a release build would wrap silently. The model treats overflow, underflow and division by zero as panics, the behaviour of a debug build; the older interpreter requires them away.
- `MemoryMap` and `Noop`: `MemoryMap` is unimplemented in the source, so it and `Noop` only advance PC.
- React rendering, styling and layout: the classes chosen from the flags, the palette's position, the MIDI block's last-event display.
- Asynchrony: polling stores, `midiManager.on(...).then()` and mouse listener registration.
- The engine, the wasm context and the MIDI device manager are recorders of calls, because their semantics are not part of this model. MIDI channel and port filtering are not modelled.
- `updateNodeData`: recorded, not merged into the node, because the store is not part of this model.
- `getMatchedCommands`: a parameter of the palette handlers that read it. `run`'s answer is a parameter of Enter.
- `bitsToList`: the bit grid shows the words themselves. `flipBit` is taken to invert bit `j` of a 16-bit word.
- ValueView.Click: requires `i` to index the values. `values[i]` for an out-of-range row is `undefined`, and what `flipBit` does with it is not known.
- `defaults.ts`, `Node.ts` and the editor keymap: data and types only. Their Pixel mode "Append" is not reconciled with `addBlock`'s "Replace".
- `From<&str>` (machine/src/machine/mod.rs:83-90): not modelled, because it needs the parser, which is not part of this model.

## Findings

| source | as written | input that shows it | evidently intended | confidence | as-written member | corrected member |
|---|---|---|---|---|---|---|
| canvas/src/blocks/value-view/index.tsx:98-101 | `values.slice(0, values.findIndex(x => x === 0))` | [104, 105] with no 0: `findIndex` is -1, so `slice(0, -1)` shows "h" | show every word when there is no terminator ("hi") | high, not executed | ValueView.TextAsWrittenExample | ValueView.RenderIntended |
| canvas/src/blocks/midi/in.tsx:79-91 | `handle` reads `status.running` from its own render, but the registration effect depends only on the key, so the registered handler keeps the value of the first render | register while stopped, start the scheduler, receive a note: `stepSlow` is still called | step only while the scheduler is not running when the event arrives | medium, not executed | MidiIn.StaleRegistration | MidiIn.Handle |

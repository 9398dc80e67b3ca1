/** The `Machine` struct (machine/src/machine/mod.rs) as a class whose
    fields the instructions of machine/src/machine/execute.rs update in
    place. Every method is proved against the functions of `VmState` and
    `VmExecute`. */
module VmMachine {
  import opened VmState
  import opened VmExecute

  class Machine {
    var id: Option<Word>
    var isDebug: bool
    var mem: seq<Word>
    var code: seq<Op>
    var pc: nat
    var stack: seq<Word>
    var callStack: seq<nat>
    var events: seq<Event>
    var mailbox: seq<Message>
    var expectedReceives: nat

    /** The machine's fields as a value. */
    function View(): State
      reads this
    {
      State(id, isDebug, mem, code, pc, stack, callStack, events, mailbox, expectedReceives)
    }

    /** `Machine::new`. */
    constructor New()
      ensures View() == VmState.New()
    {
      id := None;
      isDebug := false;
      mem := ZeroMemory();
      code := [];
      pc := 0;
      stack := [];
      callStack := [];
      events := [];
      mailbox := [];
      expectedReceives := 0;
    }

    /** `From<Vec<Op>>`: a new machine with the program loaded. */
    constructor FromCode(program: seq<Op>)
      ensures View() == VmState.FromCode(program)
    {
      id := None;
      isDebug := false;
      mem := ZeroMemory();
      code := program;
      pc := 0;
      stack := [];
      callStack := [];
      events := [];
      mailbox := [];
      expectedReceives := 0;
    }

    /** `Machine::send_message`. */
    method SendMessage(to: Word, action: Action)
      modifies this`events
      ensures View() == VmState.SendMessage(old(View()), to, action)
    {
      if id.None? {
        return;
      }
      var message := Message(id.value, to, action);
      events := events + [Event.Send(message)];
    }

    // ----- the stack manager --------------------------------------------

    method PushValue(v: Word) returns (ok: bool)
      modifies this`stack
      ensures ok == (|old(stack)| < STACK_CAPACITY)
      ensures stack == if ok then old(stack) + [v] else old(stack)
    {
      ok := |stack| < STACK_CAPACITY;
      if ok {
        stack := stack + [v];
      }
    }

    method PopValue() returns (v: Word, ok: bool)
      modifies this`stack
      ensures ok == (|old(stack)| > 0)
      ensures ok ==> v == old(stack)[|old(stack)| - 1] && stack == old(stack)[..|old(stack)| - 1]
      ensures !ok ==> stack == old(stack)
    {
      ok := |stack| > 0;
      if ok {
        v := stack[|stack| - 1];
        stack := stack[..|stack| - 1];
      } else {
        v := 0;
      }
    }

    method PushReturnAddress(v: nat) returns (ok: bool)
      modifies this`callStack
      ensures ok == (|old(callStack)| < CALL_STACK_CAPACITY)
      ensures callStack == if ok then old(callStack) + [v] else old(callStack)
    {
      ok := |callStack| < CALL_STACK_CAPACITY;
      if ok {
        callStack := callStack + [v];
      }
    }

    method PopReturnAddress() returns (v: nat, ok: bool)
      modifies this`callStack
      ensures ok == (|old(callStack)| > 0)
      ensures ok ==> v == old(callStack)[|old(callStack)| - 1] && callStack == old(callStack)[..|old(callStack)| - 1]
      ensures !ok ==> callStack == old(callStack)
    {
      ok := |callStack| > 0;
      if ok {
        v := callStack[|callStack| - 1];
        callStack := callStack[..|callStack| - 1];
      } else {
        v := 0;
      }
    }

    // ----- exec_op --------------------------------------------------------

    /** An instruction's effect given by `step`, before PC is updated: the
        new fields apart from PC, the outcome, and where PC goes. */
    ghost predicate Effected(s0: State, step: Step, r: Outcome, jump: Option<nat>)
      reads this
    {
      r == step.outcome && View() == step.next.(pc := s0.pc) &&
      (r.Ok? ==> (if jump.Some? then jump.value else s0.pc + 1) == step.next.pc)
    }

    method ExecStack(op: Op) returns (r: Outcome, jump: Option<nat>)
      requires Valid(View()) && IsStackOp(op)
      modifies this`stack
      ensures Effected(old(View()), VmExecute.ExecStack(old(View()), op), r, jump)
    {
      jump := None;
      r := Ok;
      match op {
        case Push(v) =>
          var ok := PushValue(v);
          if !ok { r := Panicked(PushError); }
        case Pop =>
          var _, ok := PopValue();
          if !ok { r := Panicked(PopError); }
        case Dup =>
          var v := Peek(View());
          var ok := PushValue(v);
          if !ok { r := Err(StackOverflow); }
        case Swap =>
          var a, okA := PopValue();
          if !okA { r := Err(StackUnderflow); return; }
          var b, okB := PopValue();
          if !okB { r := Err(StackUnderflow); return; }
          var _ := PushValue(a);
          var _ := PushValue(b);
        case Over =>
          var v := Get(View(), 1);
          var ok := PushValue(v);
          if !ok { r := Err(StackOverflow); }
      }
    }

    method ExecMemory(op: Op) returns (r: Outcome, jump: Option<nat>)
      requires Valid(View()) && (op.Load? || op.Store?)
      modifies this`stack, this`mem
      ensures Effected(old(View()), VmExecute.ExecMemory(old(View()), op), r, jump)
    {
      jump := None;
      r := Ok;
      match op {
        case Load(addr) =>
          var v := mem[addr];
          var ok := PushValue(v);
          if !ok { r := Panicked(LoadError); }
        case Store(addr) =>
          var v, ok := PopValue();
          if !ok { r := Panicked(StoreReadError); return; }
          mem := mem[addr := v];
      }
    }

    method ApplyTwo(op: Op) returns (r: Outcome, jump: Option<nat>)
      requires Valid(View()) && IsBinary(op)
      modifies this`stack
      ensures Effected(old(View()), VmExecute.ApplyTwo(old(View()), op), r, jump)
    {
      jump := None;
      ghost var s0 := View();
      ghost var step := VmExecute.ApplyTwo(s0, op);
      var a, okA := PopValue();
      if !okA {
        assert step == Step(s0, Err(StackUnderflow));
        return Err(StackUnderflow), None;
      }
      ghost var s1 := View();
      assert a == Top(s0) && s1 == Popped(s0);
      var b, okB := PopValue();
      if !okB {
        assert step == Step(s1, Err(StackUnderflow));
        return Err(StackUnderflow), None;
      }
      assert b == Top(s1) && View() == Popped(s1);
      var v := Binary(op, a, b);
      if v.Fault? {
        assert step == Step(View(), Panicked(v.reason));
        return Panicked(v.reason), None;
      }
      assert step == Continue(View().(stack := stack + [v.w]));
      var _ := PushValue(v.w);
      r := Ok;
    }

    method ApplyOne(op: Op) returns (r: Outcome, jump: Option<nat>)
      requires Valid(View()) && (op.Inc? || op.Dec?)
      modifies this`stack
      ensures Effected(old(View()), VmExecute.ApplyOne(old(View()), op), r, jump)
    {
      jump := None;
      var a, ok := PopValue();
      if !ok { return Err(StackUnderflow), None; }
      var v := Unary(op, a);
      if v.Fault? { return Panicked(v.reason), None; }
      var _ := PushValue(v.w);
      r := Ok;
    }

    method ExecControl(op: Op) returns (r: Outcome, jump: Option<nat>)
      requires Valid(View()) && IsControl(op)
      modifies this`stack, this`callStack
      ensures Effected(old(View()), VmExecute.ExecControl(old(View()), op), r, jump)
    {
      jump := None;
      r := Ok;
      match op {
        case Jump(target) =>
          jump := Some(target);
        case JumpZero(target) =>
          var v, ok := PopValue();
          if ok && v == 0 { jump := Some(target); }
        case JumpNotZero(target) =>
          var v, ok := PopValue();
          if ok && v != 0 { jump := Some(target); }
        case Call(target) =>
          var ok := PushReturnAddress(pc);
          if !ok { return Panicked(CallStackExceeded), None; }
          jump := Some(target);
        case Return =>
          var address, ok := PopReturnAddress();
          if !ok { return Panicked(NoReturnAddress), None; }
          if address + 1 > WORD_MAX { return Panicked(ArithmeticOverflow), None; }
          jump := Some(address + 1);
      }
    }

    method Print() returns (r: Outcome, jump: Option<nat>)
      requires Valid(View())
      modifies this`stack, this`events
      ensures Effected(old(View()), ExecPrint(old(View())), r, jump)
    {
      ghost var st0 := stack;
      var bytes: seq<Word> := [];
      assert PrintSplit(st0).1 + Reverse(bytes) == PrintSplit(st0).1;
      while true
        invariant PrintSplit(st0) == (PrintSplit(stack).0, PrintSplit(stack).1 + Reverse(bytes))
        invariant events == old(events)
        decreases |stack|
      {
        ghost var before := stack;
        var v, ok := PopValue();
        if !ok {
          assert stack == [] && PrintSplit(stack) == ([], []);
          assert stack == PrintSplit(st0).0 && Reverse(bytes) == PrintSplit(st0).1;
          break;
        }
        assert before[..|before| - 1] == stack && before[|before| - 1] == v;
        if v == 0 {
          assert PrintSplit(before) == (stack, []);
          assert stack == PrintSplit(st0).0 && Reverse(bytes) == PrintSplit(st0).1;
          break;
        }
        assert PrintSplit(before) == (PrintSplit(stack).0, PrintSplit(stack).1 + [v]);
        ReverseSnoc(bytes, v);
        assert PrintSplit(stack).1 + [v] + Reverse(bytes) == PrintSplit(stack).1 + Reverse(bytes + [v]);
        bytes := bytes + [v];
      }
      assert stack == PrintSplit(st0).0 && Reverse(bytes) == PrintSplit(st0).1;
      // The words were popped in reverse order.
      bytes := Reverse(bytes);
      events := events + [Event.Print(bytes)];
      return Ok, None;
    }

    method LoadString(addr: Word) returns (r: Outcome, jump: Option<nat>)
      requires Valid(View())
      modifies this`stack
      ensures Effected(old(View()), PushAll(old(View()), StringAt(old(mem), addr)), r, jump)
    {
      jump := None;
      var text := StringAt(mem, addr);
      for i := 0 to |text|
        invariant stack == old(stack) + text[..i]
        invariant |stack| <= STACK_CAPACITY
      {
        var ok := PushValue(text[i]);
        if !ok {
          assert i == STACK_CAPACITY - |old(stack)|;
          return Panicked(PushError), None;
        }
        assert text[..i + 1] == text[..i] + [text[i]];
      }
      assert text[..|text|] == text;
      r := Ok;
    }

    method Send(to: Word, size: Word) returns (r: Outcome, jump: Option<nat>)
      requires Valid(View())
      modifies this`stack, this`events
      ensures Effected(old(View()), SendOp(old(View()), to, size), r, jump)
    {
      jump := None;
      ghost var st0 := stack;
      ghost var n := |stack|;
      var body: seq<Word> := [];
      for k := 0 to size
        invariant k <= n
        invariant stack == st0[..n - k]
        invariant body == Reverse(st0[n - k..])
        invariant events == old(events)
      {
        var v, ok := PopValue();
        if !ok {
          assert k == n && stack == [];
          return Panicked(MissingMessageBody), None;
        }
        assert v == st0[n - k - 1] && stack == st0[..n - k - 1];
        ReverseCons(st0[n - k - 1..]);
        assert st0[n - k - 1..][1..] == st0[n - k..];
        body := body + [v];
      }
      assert body == Reverse(st0[n - size..]) && stack == st0[..n - size];
      SendMessage(to, Data(body));
      r := Ok;
    }

    /** `exec_op`: run one instruction and move PC on (or to the jump
        target) when it completes. */
    method ExecOp(op: Op) returns (r: Outcome)
      requires Valid(View())
      modifies this
      ensures View() == Exec(old(View()), op).next
      ensures r == Exec(old(View()), op).outcome
    {
      ghost var s0 := View();
      var jump: Option<nat>;
      if IsControl(op) || IsBinary(op) || op.Inc? || op.Dec? || op.Print? {
        r, jump := ComputeOp(op);
      } else {
        r, jump := DataOp(op);
      }
      if !r.Ok? {
        return;
      }
      // Advance or jump the program counter.
      if jump.Some? {
        pc := jump.value;
      } else {
        pc := pc + 1;
      }
    }

    /** The jumps, calls, arithmetic and `Print`. */
    method ComputeOp(op: Op) returns (r: Outcome, jump: Option<nat>)
      requires Valid(View())
      requires IsControl(op) || IsBinary(op) || op.Inc? || op.Dec? || op.Print?
      modifies this
      ensures Effected(old(View()), Exec(old(View()), op), r, jump)
    {
      ghost var s0 := View();
      ghost var step: Step;
      if IsControl(op) {
        r, jump := ExecControl(op);
        step := VmExecute.ExecControl(s0, op);
      } else if IsBinary(op) {
        r, jump := ApplyTwo(op);
        step := VmExecute.ApplyTwo(s0, op);
      } else if op.Inc? || op.Dec? {
        r, jump := ApplyOne(op);
        step := VmExecute.ApplyOne(s0, op);
      } else {
        r, jump := Print();
        step := ExecPrint(s0);
      }
      assert step == Exec(s0, op);
    }

    /** Strings, messages, memory, the stack and the instructions that do
        nothing. */
    method DataOp(op: Op) returns (r: Outcome, jump: Option<nat>)
      requires Valid(View())
      requires !(IsControl(op) || IsBinary(op) || op.Inc? || op.Dec? || op.Print?)
      modifies this
      ensures Effected(old(View()), Exec(old(View()), op), r, jump)
    {
      ghost var s0 := View();
      ghost var step: Step;
      if op.LoadString? {
        r, jump := LoadString(op.addr);
        step := PushAll(s0, StringAt(s0.mem, op.addr));
      } else if op.Send? {
        r, jump := Send(op.to, op.size);
        step := SendOp(s0, op.to, op.size);
      } else if op.Load? || op.Store? {
        r, jump := ExecMemory(op);
        step := VmExecute.ExecMemory(s0, op);
      } else if IsStackOp(op) {
        r, jump := ExecStack(op);
        step := VmExecute.ExecStack(s0, op);
      } else if op.Receive? {
        expectedReceives := expectedReceives + 1;
        r, jump := Ok, None;
        step := Continue(s0.(expectedReceives := s0.expectedReceives + 1));
      } else {
        // Noop, Halt, Eof and MemoryMap do nothing.
        r, jump := Ok, None;
        step := Continue(s0);
      }
      assert step == Exec(s0, op);
    }

    /** The instruction at PC. */
    function Decode(): (op: Op)
      reads this
      ensures op == VmExecute.Decode(View())
    {
      if pc < |code| then code[pc] else Eof
    }

    /** `tick`: fetch, decode and execute the instruction at PC. */
    method Tick() returns (r: Outcome)
      requires Valid(View())
      modifies this
      ensures View() == VmExecute.Tick(old(View())).next
      ensures r == VmExecute.Tick(old(View())).outcome
    {
      var op := Decode();
      r := ExecOp(op);
    }

    /** `should_halt`. */
    function ShouldHalt(): (b: bool)
      reads this
      ensures b == VmExecute.ShouldHalt(View())
    {
      var op := Decode();
      op == Halt || op == Eof
    }

    /** One iteration of the `run` loop: a tick, related to what `run` does
        with the remaining `fuel`. */
    method RunTick(ghost fuel: nat, ghost target: RunResult) returns (r: Outcome)
      requires Valid(View()) && !VmExecute.ShouldHalt(View()) && fuel > 0
      requires RunFrom(View(), fuel) == target
      modifies this
      ensures Valid(View())
      ensures r.Ok? ==> RunFrom(View(), fuel - 1) == target
      ensures !r.Ok? ==> target == Failed(View(), r)
    {
      RunFromTick(View(), fuel);
      r := Tick();
    }

    /** `run`, for at most `fuel` ticks. */
    method Run(fuel: nat) returns (r: RunResult)
      requires Valid(View())
      modifies this
      ensures r == VmExecute.Run(old(View()), fuel)
      ensures View() == r.final
    {
      pc := 0;
      r := Ticking(fuel);
    }

    /** The `while !should_halt() { tick()?; }` loop of `run`. */
    method Ticking(fuel: nat) returns (r: RunResult)
      requires Valid(View())
      modifies this
      ensures r == RunFrom(old(View()), fuel)
      ensures View() == r.final
    {
      ghost var target := RunFrom(View(), fuel);
      var n := fuel;
      while !ShouldHalt()
        invariant Valid(View())
        invariant RunFrom(View(), n) == target
        decreases n
      {
        if n == 0 {
          RunFromOutOfFuel(View());
          return OutOfFuel(View());
        }
        var res := RunTick(n, target);
        if !res.Ok? {
          return Failed(View(), res);
        }
        n := n - 1;
      }
      RunFromHalted(View(), n);
      return Halted(View());
    }
  }

  lemma ReverseCons(s: seq<Word>)
    requires s != []
    ensures Reverse(s) == Reverse(s[1..]) + [s[0]]
  {
  }

  lemma ReverseSnoc(b: seq<Word>, v: Word)
    ensures Reverse(b + [v]) == [v] + Reverse(b)
  {
    if b != [] {
      ReverseSnoc(b[1..], v);
      assert (b + [v])[1..] == b[1..] + [v];
    }
  }
}

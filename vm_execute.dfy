/** The meaning of one instruction (`Execute::exec_op`), of a tick, of
    `should_halt` and of `run` (machine/src/machine/execute.rs), as functions
    on `VmState.State`, and the properties the source promises about them. */
module VmExecute {
  import opened VmState

  /** Errors a `StackManager` returns, propagated by `?`. */
  datatype RuntimeError = StackUnderflow | StackOverflow

  /** Fatal failures: an `expect` on an error, or 16-bit arithmetic that a
      debug build aborts on (overflow, division by zero). */
  datatype Panic =
    | PushError | PopError | LoadError | StoreReadError
    | ArithmeticOverflow | DivisionByZero
    | CallStackExceeded | NoReturnAddress | MissingMessageBody

  datatype Outcome = Ok | Err(error: RuntimeError) | Panicked(reason: Panic)

  /** The machine after an instruction and what `exec_op` reported. On an
      error the state keeps the effects made before the failing step. */
  datatype Step = Step(next: State, outcome: Outcome)

  // ----- the stack helper -------------------------------------------------

  predicate CanPush(s: State) {
    |s.stack| < STACK_CAPACITY
  }

  function PushWord(s: State, v: Word): (r: State)
    requires CanPush(s)
  {
    s.(stack := s.stack + [v])
  }

  function Top(s: State): Word
    requires |s.stack| > 0
  {
    s.stack[|s.stack| - 1]
  }

  function Popped(s: State): State
    requires |s.stack| > 0
  {
    s.(stack := s.stack[..|s.stack| - 1])
  }

  /** `StackManager::get(i)`: the i-th value below the top; an empty slot
      reads as 0. `peek` is `get(0)`. */
  function Get(s: State, i: nat): Word {
    if i < |s.stack| then s.stack[|s.stack| - 1 - i] else 0
  }

  function Peek(s: State): Word {
    Get(s, 0)
  }

  /** Finishing an instruction without a jump: PC moves to the next one. */
  function Continue(s: State): Step {
    Step(s.(pc := s.pc + 1), Ok)
  }

  /** A jump: PC is set exactly to the target. */
  function JumpTo(s: State, target: nat): Step {
    Step(s.(pc := target), Ok)
  }

  // ----- arithmetic -------------------------------------------------------

  datatype Value = Value(w: Word) | Fault(reason: Panic)

  function FromBool(b: bool): Word {
    if b then 1 else 0
  }

  /** The closures given to `apply_two`; `a` is the value that was on top,
      `b` the one below it. */
  function Binary(op: Op, a: Word, b: Word): (v: Value)
    requires IsBinary(op)
    ensures IsComparison(op) ==> v.Value? && (v.w == 0 || v.w == 1)
  {
    match op
    case Add => if a + b <= WORD_MAX then Value(a + b) else Fault(ArithmeticOverflow)
    case Sub => if a <= b then Value(b - a) else Fault(ArithmeticOverflow)
    case Mul => ArithmeticBounds(a, b); if a * b <= WORD_MAX then Value(a * b) else Fault(ArithmeticOverflow)
    case Div => ArithmeticBounds(a, b); if a == 0 then Fault(DivisionByZero) else Value(b / a)
    case Equal => Value(FromBool(a == b))
    case NotEqual => Value(FromBool(a != b))
    case LessThan => Value(FromBool(a < b))
    case LessThanOrEqual => Value(FromBool(a <= b))
    case GreaterThan => Value(FromBool(a > b))
    case GreaterThanOrEqual => Value(FromBool(a >= b))
  }

  predicate IsComparison(op: Op) {
    op.Equal? || op.NotEqual? || op.LessThan? || op.LessThanOrEqual? ||
    op.GreaterThan? || op.GreaterThanOrEqual?
  }

  predicate IsBinary(op: Op) {
    op.Add? || op.Sub? || op.Mul? || op.Div? || IsComparison(op)
  }

  /** The closures given to `apply`. */
  function Unary(op: Op, v: Word): Value
    requires op.Inc? || op.Dec?
  {
    if op.Inc? then (if v < WORD_MAX then Value(v + 1) else Fault(ArithmeticOverflow))
    else (if v > 0 then Value(v - 1) else Fault(ArithmeticOverflow))
  }

  /** `apply_two`: pop the top `a`, pop `b`, push the result. */
  function ApplyTwo(s: State, op: Op): (r: Step)
    requires Valid(s) && IsBinary(op)
    ensures Sequential(s, r)
  {
    if |s.stack| == 0 then Step(s, Err(StackUnderflow))
    else if |s.stack| == 1 then Step(Popped(s), Err(StackUnderflow))
    else
      var a := Top(s);
      var s1 := Popped(s);
      var b := Top(s1);
      var s2 := Popped(s1);
      match Binary(op, a, b)
      case Fault(p) => Step(s2, Panicked(p))
      case Value(v) => Continue(s2.(stack := s2.stack + [v]))
  }

  /** `apply`: pop one value, push the result. */
  function ApplyOne(s: State, op: Op): (r: Step)
    requires Valid(s) && (op.Inc? || op.Dec?)
    ensures Sequential(s, r)
  {
    if |s.stack| == 0 then Step(s, Err(StackUnderflow))
    else
      var s1 := Popped(s);
      match Unary(op, Top(s))
      case Fault(p) => Step(s1, Panicked(p))
      case Value(v) => Continue(s1.(stack := s1.stack + [v]))
  }

  // ----- Print, LoadString, Send -----------------------------------------

  function Reverse<T>(s: seq<T>): (r: seq<T>)
    ensures |r| == |s|
    ensures forall i :: 0 <= i < |s| ==> r[i] == s[|s| - 1 - i]
  {
    if s == [] then [] else Reverse(s[1..]) + [s[0]]
  }

  /** The popping loop of `Print`: pop until a 0 is popped (and consumed) or
      the stack is empty. Returns the remaining stack and the popped words in
      the order they had been pushed. */
  function PrintSplit(st: seq<Word>): (r: (seq<Word>, seq<Word>))
  {
    if st == [] then ([], [])
    else if st[|st| - 1] == 0 then (st[..|st| - 1], [])
    else
      var rest := PrintSplit(st[..|st| - 1]);
      (rest.0, rest.1 + [st[|st| - 1]])
  }

  /** The string the string manager has at `addr`: the words up to the first
      0 word or the end of memory. */
  function StringAt(mem: seq<Word>, addr: nat): (w: seq<Word>)
    ensures forall i :: 0 <= i < |w| ==> w[i] != 0
    ensures addr >= |mem| ==> w == []
    // the words from `addr` on, up to the first 0 or the end of memory
    ensures addr < |mem| ==> addr + |w| <= |mem| && w == mem[addr..addr + |w|]
    ensures addr < |mem| ==> addr + |w| == |mem| || mem[addr + |w|] == 0
    decreases |mem| - addr
  {
    if addr >= |mem| || mem[addr] == 0 then [] else [mem[addr]] + StringAt(mem, addr + 1)
  }

  /** The `LoadString` loop: push each word in order; a full stack is fatal
      part-way through. */
  function PushAll(s: State, words: seq<Word>): (r: Step)
    requires Valid(s)
    ensures Sequential(s, r)
    ensures r.outcome.Ok? <==> |s.stack| + |words| <= STACK_CAPACITY
    ensures r.outcome.Ok? ==> r.next.stack == s.stack + words
    // a full stack stops the loop after the words that fit
    ensures !r.outcome.Ok? ==>
      r.outcome == Panicked(PushError) && |r.next.stack| == STACK_CAPACITY &&
      r.next.stack == s.stack + words[..STACK_CAPACITY - |s.stack|]
  {
    if |s.stack| + |words| <= STACK_CAPACITY then Continue(s.(stack := s.stack + words))
    else Step(s.(stack := s.stack + words[..STACK_CAPACITY - |s.stack|]), Panicked(PushError))
  }

  /** The `Send` loop: pop `size` values, the former top first, then hand one
      `Data` action to `send_message`. */
  function SendOp(s: State, to: Word, size: nat): (r: Step)
    requires Valid(s)
    ensures Sequential(s, r)
  {
    var n := |s.stack|;
    if size <= n then
      Continue(SendMessage(s.(stack := s.stack[..n - size]), to, Data(Reverse(s.stack[n - size..]))))
    else
      Step(s.(stack := []), Panicked(MissingMessageBody))
  }

  // ----- one instruction --------------------------------------------------

  predicate IsControl(op: Op) {
    op.Jump? || op.JumpZero? || op.JumpNotZero? || op.Call? || op.Return?
  }

  /** What every instruction keeps: validity, the machine's identity,
      configuration, program and mailbox; the event list only grows, by at
      most one event; an instruction that does not complete leaves PC where
      it was. */
  ghost predicate Keeps(s: State, r: Step) {
    Valid(r.next) &&
    r.next.id == s.id && r.next.isDebug == s.isDebug && r.next.code == s.code &&
    r.next.mailbox == s.mailbox &&
    (r.next.events == s.events ||
     (|r.next.events| == |s.events| + 1 && r.next.events[..|s.events|] == s.events)) &&
    (!r.outcome.Ok? ==> r.next.pc == s.pc)
  }

  /** Keeps, plus: memory is not written and a completed instruction moves
      PC on by one. */
  ghost predicate Sequential(s: State, r: Step) {
    Keeps(s, r) && r.next.mem == s.mem && (r.outcome.Ok? ==> r.next.pc == s.pc + 1)
  }

  predicate IsStackOp(op: Op) {
    op.Push? || op.Pop? || op.Dup? || op.Swap? || op.Over?
  }

  /** Pushing, popping and shuffling the stack. */
  function ExecStack(s: State, op: Op): (r: Step)
    requires Valid(s) && IsStackOp(op)
    ensures Sequential(s, r)
  {
    match op
    case Push(v) => if CanPush(s) then Continue(PushWord(s, v)) else Step(s, Panicked(PushError))
    case Pop => if |s.stack| > 0 then Continue(Popped(s)) else Step(s, Panicked(PopError))
    case Dup => if CanPush(s) then Continue(PushWord(s, Peek(s))) else Step(s, Err(StackOverflow))
    case Swap =>
      if |s.stack| == 0 then Step(s, Err(StackUnderflow))
      else if |s.stack| == 1 then Step(Popped(s), Err(StackUnderflow))
      else
        var n := |s.stack|;
        Continue(s.(stack := s.stack[..n - 2] + [s.stack[n - 1], s.stack[n - 2]]))
    case Over => if CanPush(s) then Continue(PushWord(s, Get(s, 1))) else Step(s, Err(StackOverflow))
  }

  /** Moving words between memory and the stack. */
  function ExecMemory(s: State, op: Op): (r: Step)
    requires Valid(s) && (op.Load? || op.Store?)
    ensures Keeps(s, r) && (op.Load? ==> r.next.mem == s.mem)
    ensures r.outcome.Ok? ==> r.next.pc == s.pc + 1
  {
    match op
    case Load(addr) => if CanPush(s) then Continue(PushWord(s, s.mem[addr])) else Step(s, Panicked(LoadError))
    case Store(addr) =>
      if |s.stack| > 0 then Continue(Popped(s).(mem := s.mem[addr := Top(s)]))
      else Step(s, Panicked(StoreReadError))
  }

  /** Jumps, calls and returns. */
  function ExecControl(s: State, op: Op): (r: Step)
    requires Valid(s)
    requires IsControl(op)
    ensures Keeps(s, r) && r.next.mem == s.mem
  {
    match op
    case Jump(target) => JumpTo(s, target)
    case JumpZero(target) =>
      if |s.stack| == 0 then Continue(s)
      else if Top(s) == 0 then JumpTo(Popped(s), target)
      else Continue(Popped(s))
    case JumpNotZero(target) =>
      if |s.stack| == 0 then Continue(s)
      else if Top(s) != 0 then JumpTo(Popped(s), target)
      else Continue(Popped(s))
    case Call(target) =>
      if |s.callStack| < CALL_STACK_CAPACITY then JumpTo(s.(callStack := s.callStack + [s.pc]), target)
      else Step(s, Panicked(CallStackExceeded))
    case Return =>
      if |s.callStack| == 0 then Step(s, Panicked(NoReturnAddress))
      else
        var address := s.callStack[|s.callStack| - 1];
        var popped := s.(callStack := s.callStack[..|s.callStack| - 1]);
        // `address + 1` is `u16` arithmetic
        if address + 1 > WORD_MAX then Step(popped, Panicked(ArithmeticOverflow))
        else JumpTo(popped, address + 1)
  }

  /** `Print`: one `Print` event with the popped words in push order. */
  function ExecPrint(s: State): (r: Step)
    requires Valid(s)
    ensures Sequential(s, r)
  {
    var split := PrintSplit(s.stack);
    PrintSplitShrinks(s.stack);
    Continue(s.(stack := split.0, events := s.events + [Event.Print(split.1)]))
  }

  /** `exec_op`. */
  function Exec(s: State, op: Op): (r: Step)
    requires Valid(s)
    ensures Keeps(s, r)
    // only `Store` writes memory
    ensures !op.Store? ==> r.next.mem == s.mem
    // PC: non-control instructions that complete move on by one
    ensures r.outcome.Ok? && !IsControl(op) ==> r.next.pc == s.pc + 1
  {
    if IsControl(op) then ExecControl(s, op)
    else if IsBinary(op) then ApplyTwo(s, op)
    else if op.Inc? || op.Dec? then ApplyOne(s, op)
    else if op.Print? then ExecPrint(s)
    else if op.LoadString? then PushAll(s, StringAt(s.mem, op.addr))
    else if op.Send? then SendOp(s, op.to, op.size)
    else if op.Load? || op.Store? then ExecMemory(s, op)
    else if IsStackOp(op) then ExecStack(s, op)
    else if op.Receive? then Continue(s.(expectedReceives := s.expectedReceives + 1))
    // Noop, Halt, Eof and the unimplemented MemoryMap
    else Continue(s)
  }

  // ----- tick, should_halt, run ------------------------------------------

  /** `decode`: the instruction at PC; past the end of the program the
      machine reads `Eof`. */
  function Decode(s: State): (op: Op)
    ensures op == Eof || op in s.code
    ensures s.pc >= |s.code| ==> op == Eof
  {
    if s.pc < |s.code| then s.code[s.pc] else Eof
  }

  /** `tick`: it keeps what every instruction keeps. */
  function Tick(s: State): (r: Step)
    requires Valid(s)
    ensures Keeps(s, r)
  {
    Exec(s, Decode(s))
  }

  predicate ShouldHalt(s: State) {
    Decode(s) == Halt || Decode(s) == Eof
  }

  /** How `run` ends: the machine halted, a tick failed (its error is what
      `run` returns), or the bound on ticks was reached. */
  datatype RunResult = Halted(final: State) | Failed(final: State, outcome: Outcome) | OutOfFuel(final: State)

  /** The `while !should_halt() { tick()? }` loop, for at most `fuel` ticks. */
  function RunFrom(s: State, fuel: nat): (r: RunResult)
    requires Valid(s)
    ensures Valid(r.final)
    ensures r.Halted? ==> ShouldHalt(r.final)
    ensures r.Failed? ==> !r.outcome.Ok?
    // a run never changes the machine's identity or its program
    ensures r.final.id == s.id && r.final.code == s.code && r.final.mailbox == s.mailbox
    decreases fuel, 1
  {
    if ShouldHalt(s) then Halted(s)
    else if fuel == 0 then OutOfFuel(s)
    else RunOn(s, fuel)
  }

  function RunOn(s: State, fuel: nat): (r: RunResult)
    requires Valid(s) && fuel > 0
    ensures Valid(r.final)
    ensures r.Halted? ==> ShouldHalt(r.final)
    ensures r.Failed? ==> !r.outcome.Ok?
    ensures r.final.id == s.id && r.final.code == s.code && r.final.mailbox == s.mailbox
    decreases fuel, 0
  {
    var step := Tick(s);
    if step.outcome.Ok? then RunFrom(step.next, fuel - 1)
    else Failed(step.next, step.outcome)
  }

  /** `run`: PC is reset to 0 first. */
  function Run(s: State, fuel: nat): (r: RunResult)
    requires Valid(s)
    ensures Valid(r.final)
    ensures r.Halted? ==> ShouldHalt(r.final)
    ensures r.Failed? ==> !r.outcome.Ok?
    ensures r.final.id == s.id && r.final.code == s.code && r.final.mailbox == s.mailbox
  {
    RunFrom(s.(pc := 0), fuel)
  }

  /** Applying `Tick` `n` times, stopping at the first tick that fails. */
  function Ticks(s: State, n: nat): (r: Step)
    requires Valid(s)
    ensures Valid(r.next)
    decreases n
  {
    if n == 0 then Step(s, Ok)
    else
      var step := Tick(s);
      if step.outcome.Ok? then Ticks(step.next, n - 1) else step
  }

  // ----- lemmas -----------------------------------------------------------

  lemma {:induction false} PrintSplitShrinks(st: seq<Word>)
    ensures |PrintSplit(st).0| <= |st|
  {
    if st != [] && st[|st| - 1] != 0 {
      PrintSplitShrinks(st[..|st| - 1]);
    }
  }

  /** What `Print` pops: the text holds no 0, and either a 0 terminator was
      consumed just below it or the text is the whole stack. */
  lemma {:induction false} PrintSplitSpec(st: seq<Word>)
    ensures forall i :: 0 <= i < |PrintSplit(st).1| ==> PrintSplit(st).1[i] != 0
    ensures st == PrintSplit(st).0 + [0] + PrintSplit(st).1 ||
            (PrintSplit(st).0 == [] && st == PrintSplit(st).1)
  {
    if st == [] {
    } else if st[|st| - 1] == 0 {
      assert st == st[..|st| - 1] + [0] + [];
    } else {
      var init, last := st[..|st| - 1], st[|st| - 1];
      assert st == init + [last];
      var rest := PrintSplit(init);
      PrintSplitSpec(init);
      assert PrintSplit(st) == (rest.0, rest.1 + [last]);
      if init == rest.0 + [0] + rest.1 {
        assert st == rest.0 + [0] + (rest.1 + [last]);
      } else {
        assert st == rest.1 + [last];
      }
    }
  }

  /** `Jump`, a taken `JumpZero` / `JumpNotZero` and `Call` set PC exactly to
      the target. */
  lemma JumpsSetPc(s: State, target: Word)
    requires Valid(s)
    ensures Exec(s, Jump(target)) == Step(s.(pc := target), Ok)
    ensures |s.stack| > 0 && Top(s) == 0 ==> Exec(s, JumpZero(target)).next.pc == target
    ensures |s.stack| > 0 && Top(s) != 0 ==> Exec(s, JumpNotZero(target)).next.pc == target
    ensures |s.callStack| < CALL_STACK_CAPACITY ==>
      Exec(s, Call(target)) == Step(s.(callStack := s.callStack + [s.pc], pc := target), Ok)
  {
  }

  /** `Return` after a `Call` resumes at the instruction after the `Call`, and
      restores the call stack. */
  lemma CallThenReturn(s: State, target: Word, s2: State)
    requires Valid(s) && Valid(s2)
    requires |s.callStack| < CALL_STACK_CAPACITY && s.pc < WORD_MAX
    requires s2.callStack == Exec(s, Call(target)).next.callStack
    ensures Exec(s2, Return).outcome == Ok
    ensures Exec(s2, Return).next.pc == s.pc + 1
    ensures Exec(s2, Return).next.callStack == s.callStack
  {
    var c := s.callStack + [s.pc];
    assert c[..|c| - 1] == s.callStack;
  }

  /** `Return` pops the return address and resumes after it; an empty call
      stack is fatal, and so is the `u16` addition past 0xFFFF. */
  lemma ReturnSpec(s: State)
    requires Valid(s)
    ensures |s.callStack| == 0 ==> Exec(s, Return) == Step(s, Panicked(NoReturnAddress))
    ensures |s.callStack| > 0 ==>
      var n := |s.callStack|; var address := s.callStack[n - 1]; var r := Exec(s, Return);
      r.next.callStack == s.callStack[..n - 1] && r.next.stack == s.stack &&
      (address < WORD_MAX ==> r == Step(s.(callStack := s.callStack[..n - 1], pc := address + 1), Ok)) &&
      (address >= WORD_MAX ==> r.outcome == Panicked(ArithmeticOverflow) && r.next.pc == s.pc)
  {
  }

  /** `JumpZero` pops exactly one value and jumps iff it was 0; on an empty
      stack it neither jumps nor fails. */
  lemma JumpZeroSpec(s: State, target: Word)
    requires Valid(s)
    ensures |s.stack| == 0 ==> Exec(s, JumpZero(target)) == Step(s.(pc := s.pc + 1), Ok)
    ensures |s.stack| > 0 ==>
      var r := Exec(s, JumpZero(target));
      r.outcome == Ok && r.next.stack == s.stack[..|s.stack| - 1] &&
      r.next.pc == (if s.stack[|s.stack| - 1] == 0 then target else s.pc + 1)
  {
  }

  /** `JumpNotZero` jumps iff the popped value was not 0. */
  lemma JumpNotZeroSpec(s: State, target: Word)
    requires Valid(s)
    ensures |s.stack| == 0 ==> Exec(s, JumpNotZero(target)) == Step(s.(pc := s.pc + 1), Ok)
    ensures |s.stack| > 0 ==>
      var r := Exec(s, JumpNotZero(target));
      r.outcome == Ok && r.next.stack == s.stack[..|s.stack| - 1] &&
      r.next.pc == (if s.stack[|s.stack| - 1] != 0 then target else s.pc + 1)
  {
  }

  /** A binary instruction takes two operands and pushes one result: the
      depth falls by exactly one. */
  lemma BinarySpec(s: State, op: Op)
    requires Valid(s) && IsBinary(op) && |s.stack| >= 2
    requires Binary(op, s.stack[|s.stack| - 1], s.stack[|s.stack| - 2]).Value?
    ensures var r := Exec(s, op);
      r.outcome == Ok &&
      |r.next.stack| == |s.stack| - 1 &&
      r.next.stack == s.stack[..|s.stack| - 2] + [Binary(op, s.stack[|s.stack| - 1], s.stack[|s.stack| - 2]).w]
  {
    var n := |s.stack|;
    assert s.stack[..n - 1][..n - 2] == s.stack[..n - 2];
  }

  /** The arithmetic: with `a` on top of `b`, Add pushes a+b, Sub b-a,
      Mul a*b and Div b/a whenever the result is a word. */
  lemma ArithmeticSpec(s: State, op: Op, a: Word, b: Word, rest: seq<Word>)
    requires Valid(s) && s.stack == rest + [b, a]
    requires op.Add? || op.Sub? || op.Mul? || op.Div?
    ensures op.Add? && a + b <= WORD_MAX ==> Exec(s, op) == Continue(s.(stack := rest + [a + b]))
    ensures op.Sub? && a <= b ==> Exec(s, op) == Continue(s.(stack := rest + [b - a]))
    ensures op.Mul? && a * b <= WORD_MAX ==> Exec(s, op) == Continue(s.(stack := rest + [a * b]))
    ensures op.Div? && a != 0 ==> Exec(s, op) == Continue(s.(stack := rest + [b / a]))
  {
    var n := |s.stack|;
    assert s.stack[..n - 1][..n - 2] == rest && s.stack[..n - 2] == rest;
    ArithmeticBounds(a, b);
  }

  /** With `a` on top of `b`, a comparison completes and pushes 1 when it
      holds of `a` and `b` and 0 otherwise. */
  lemma ComparisonSpec(s: State, op: Op, a: Word, b: Word, rest: seq<Word>)
    requires Valid(s) && s.stack == rest + [b, a] && IsComparison(op)
    ensures Exec(s, op) == Continue(s.(stack := rest + [FromBool(
      if op.Equal? then a == b
      else if op.NotEqual? then a != b
      else if op.LessThan? then a < b
      else if op.LessThanOrEqual? then a <= b
      else if op.GreaterThan? then a > b
      else a >= b)]))
  {
    var n := |s.stack|;
    assert s.stack[..n - 2] == rest && s.stack[n - 1] == a && s.stack[n - 2] == b;
    BinarySpec(s, op);
  }

  /** `Equal` and `NotEqual` do not depend on the order of their operands;
      a 16-bit overflow or `Div` by zero is an explicit panic. */
  lemma BinarySymmetryAndFaults(a: Word, b: Word)
    ensures Binary(Equal, a, b) == Binary(Equal, b, a)
    ensures Binary(NotEqual, a, b) == Binary(NotEqual, b, a)
    ensures Binary(Div, 0, b) == Fault(DivisionByZero)
    ensures a + b > WORD_MAX ==> Binary(Add, a, b) == Fault(ArithmeticOverflow)
    ensures a > b ==> Binary(Sub, a, b) == Fault(ArithmeticOverflow)
  {
  }

  /** `Inc` and `Dec` replace the top by its successor or predecessor; at
      the ends of the word range they panic. */
  lemma IncDecSpec(s: State)
    requires Valid(s) && |s.stack| > 0
    ensures var n := |s.stack|; var v := s.stack[n - 1];
      (v < WORD_MAX ==> Exec(s, Inc) == Continue(s.(stack := s.stack[..n - 1] + [v + 1]))) &&
      (v == WORD_MAX ==> Exec(s, Inc).outcome == Panicked(ArithmeticOverflow)) &&
      (v > 0 ==> Exec(s, Dec) == Continue(s.(stack := s.stack[..n - 1] + [v - 1]))) &&
      (v == 0 ==> Exec(s, Dec).outcome == Panicked(ArithmeticOverflow))
  {
  }

  /** `Dec` undoes `Inc`: the pair changes nothing but PC. */
  lemma IncThenDec(s: State)
    requires Valid(s) && |s.stack| > 0 && s.stack[|s.stack| - 1] < WORD_MAX
    ensures var s1 := Exec(s, Inc).next; Exec(s1, Dec) == Step(s.(pc := s.pc + 2), Ok)
  {
    var n := |s.stack|;
    IncDecSpec(s);
    var s1 := Exec(s, Inc).next;
    assert s1.stack == s.stack[..n - 1] + [s.stack[n - 1] + 1];
    IncDecSpec(s1);
    assert s1.stack[..n - 1] + [s.stack[n - 1]] == s.stack;
  }

  /** `Swap` exchanges the top two values and keeps the depth. */
  lemma SwapSpec(s: State)
    requires Valid(s) && |s.stack| >= 2
    ensures var n := |s.stack|; var r := Exec(s, Swap);
      r.outcome == Ok && |r.next.stack| == n &&
      r.next.stack[..n - 2] == s.stack[..n - 2] &&
      r.next.stack[n - 1] == s.stack[n - 2] && r.next.stack[n - 2] == s.stack[n - 1]
  {
    assert Exec(s, Swap) == ExecStack(s, Swap);
  }

  /** `Dup` pushes a copy of the top and `Over` a copy of the second value. */
  lemma DupOverSpec(s: State)
    requires Valid(s) && CanPush(s)
    ensures |s.stack| >= 1 ==> Exec(s, Dup) == Continue(s.(stack := s.stack + [s.stack[|s.stack| - 1]]))
    ensures |s.stack| >= 2 ==> Exec(s, Over) == Continue(s.(stack := s.stack + [s.stack[|s.stack| - 2]]))
  {
    assert Exec(s, Dup) == ExecStack(s, Dup);
    assert Exec(s, Over) == ExecStack(s, Over);
  }

  /** `Load` pushes the word at the address and leaves memory alone; `Store`
      pops one value into the address and changes no other address. */
  lemma MemorySpec(s: State, addr: Word)
    requires Valid(s)
    ensures CanPush(s) ==>
      Exec(s, Load(addr)).next.stack == s.stack + [s.mem[addr]] && Exec(s, Load(addr)).next.mem == s.mem
    ensures |s.stack| > 0 ==>
      var r := Exec(s, Store(addr));
      r.outcome == Ok && r.next.stack == s.stack[..|s.stack| - 1] &&
      r.next.mem[addr] == s.stack[|s.stack| - 1] &&
      forall a :: 0 <= a < |s.mem| && a != addr ==> r.next.mem[a] == s.mem[a]
  {
  }

  /** The string at `addr` is exactly the `k` words before the first 0. */
  lemma {:induction false} StringAtUpTo(mem: seq<Word>, addr: nat, k: nat)
    requires addr + k < |mem| && mem[addr + k] == 0
    requires forall i :: addr <= i < addr + k ==> mem[i] != 0
    ensures StringAt(mem, addr) == mem[addr..addr + k]
    decreases k
  {
    if k > 0 {
      StringAtUpTo(mem, addr + 1, k - 1);
      assert mem[addr..addr + k] == [mem[addr]] + mem[addr + 1..addr + k];
    }
  }

  /** `LoadString` pushes the string's words in order: "poom" gives
      112, 111, 111, 109. */
  lemma LoadStringPoom(s: State, addr: Word)
    requires Valid(s) && s.stack == []
    requires addr + 5 <= |s.mem|
    requires s.mem[addr..addr + 5] == [112, 111, 111, 109, 0]
    ensures Exec(s, LoadString(addr)) == Continue(s.(stack := [112, 111, 111, 109]))
  {
    var m := s.mem[addr..addr + 5];
    assert m[0] == s.mem[addr] && m[1] == s.mem[addr + 1] && m[2] == s.mem[addr + 2];
    assert m[3] == s.mem[addr + 3] && m[4] == s.mem[addr + 4];
    StringAtUpTo(s.mem, addr, 4);
    assert s.mem[addr..addr + 4] == m[..4];
  }

  /** `LoadString(addr)` pushes, in order, the words of memory from `addr`
      up to the first 0 (or the end of memory); a stack that fills up
      part-way is fatal and keeps the words pushed so far. */
  lemma LoadStringSpec(s: State, addr: Word)
    requires Valid(s)
    ensures var w := StringAt(s.mem, addr); var r := Exec(s, LoadString(addr));
      addr + |w| <= |s.mem| && w == s.mem[addr..addr + |w|] &&
      (forall i :: 0 <= i < |w| ==> w[i] != 0) &&
      (addr + |w| == |s.mem| || s.mem[addr + |w|] == 0) &&
      (|s.stack| + |w| <= STACK_CAPACITY ==> r == Continue(s.(stack := s.stack + w))) &&
      (|s.stack| + |w| > STACK_CAPACITY ==>
         r.outcome == Panicked(PushError) && r.next.stack == s.stack + w[..STACK_CAPACITY - |s.stack|])
  {
  }

  /** `Print` appends exactly one `Print` event whose text is what the
      popping loop returned, in push order. */
  lemma PrintSpec(s: State)
    requires Valid(s)
    ensures var r := Exec(s, Op.Print);
      r.outcome == Ok &&
      r.next.events == s.events + [Event.Print(PrintSplit(s.stack).1)] &&
      r.next.stack == PrintSplit(s.stack).0
  {
  }

  /** `Send(to, size)` pops exactly `size` values, the former top first in
      the body, and sends one `Data` action through `send_message`. */
  lemma SendSpec(s: State, to: Word, size: Word)
    requires Valid(s) && size <= |s.stack|
    ensures var n := |s.stack|; var r := Exec(s, Op.Send(to, size)); var body := Reverse(s.stack[n - size..]);
      r.outcome == Ok &&
      r.next.stack == s.stack[..n - size] &&
      |body| == size && (size > 0 ==> body[0] == s.stack[n - 1]) &&
      r.next.events == (if s.id.Some? then s.events + [Event.Send(Message(s.id.value, to, Data(body)))] else s.events)
  {
  }

  /** Too short a stack for the message body is fatal. */
  lemma SendMissingBody(s: State, to: Word, size: Word)
    requires Valid(s) && size > |s.stack|
    ensures Exec(s, Op.Send(to, size)).outcome == Panicked(MissingMessageBody)
  {
  }

  /** `Receive` only counts one more expected message. */
  lemma ReceiveSpec(s: State)
    requires Valid(s)
    ensures Exec(s, Receive) == Step(s.(pc := s.pc + 1, expectedReceives := s.expectedReceives + 1), Ok)
  {
  }

  /** `run` ends in `Failed` only with the first failing tick: the ticks
      before it all completed. */
  lemma {:induction false} RunFailsAtFirstError(s: State, fuel: nat)
    requires Valid(s)
    requires RunFrom(s, fuel).Failed?
    decreases fuel
    ensures exists n :: (0 < n <= fuel &&
      Ticks(s, n) == Step(RunFrom(s, fuel).final, RunFrom(s, fuel).outcome))
  {
    var step := Tick(s);
    if step.outcome.Ok? {
      RunFailsAtFirstError(step.next, fuel - 1);
      var n :| 0 < n <= fuel - 1 &&
        Ticks(step.next, n) == Step(RunFrom(step.next, fuel - 1).final, RunFrom(step.next, fuel - 1).outcome);
      assert Ticks(s, n + 1) == Ticks(step.next, n);
    } else {
      assert Ticks(s, 1) == step;
    }
  }

  /** `run` ends in `Halted` exactly at a halting instruction reached by
      ticks that all completed. */
  lemma {:induction false} RunHaltsAfterTicks(s: State, fuel: nat)
    requires Valid(s)
    requires RunFrom(s, fuel).Halted?
    decreases fuel
    ensures ShouldHalt(RunFrom(s, fuel).final)
    ensures exists n :: 0 <= n <= fuel && Ticks(s, n) == Step(RunFrom(s, fuel).final, Ok)
  {
    if ShouldHalt(s) {
      assert Ticks(s, 0) == Step(s, Ok);
    } else {
      var step := Tick(s);
      RunHaltsAfterTicks(step.next, fuel - 1);
      var n :| 0 <= n <= fuel - 1 && Ticks(step.next, n) == Step(RunFrom(step.next, fuel - 1).final, Ok);
      assert Ticks(s, n + 1) == Ticks(step.next, n);
    }
  }

  /** One iteration of the `run` loop. */
  lemma RunFromTick(s: State, fuel: nat)
    requires Valid(s) && !ShouldHalt(s) && fuel > 0
    ensures RunFrom(s, fuel) ==
      if Tick(s).outcome.Ok? then RunFrom(Tick(s).next, fuel - 1) else Failed(Tick(s).next, Tick(s).outcome)
  {
  }

  lemma RunFromHalted(s: State, fuel: nat)
    requires Valid(s) && ShouldHalt(s)
    ensures RunFrom(s, fuel) == Halted(s)
  {
  }

  lemma RunFromOutOfFuel(s: State)
    requires Valid(s) && !ShouldHalt(s)
    ensures RunFrom(s, 0) == OutOfFuel(s)
  {
  }

  /** `should_halt` holds exactly at `Halt` and `Eof`, and `run` starts from
      PC 0 whatever the PC was. */
  lemma HaltAndRunStart(s: State, fuel: nat)
    requires Valid(s)
    ensures ShouldHalt(s) <==> (s.pc < |s.code| && (s.code[s.pc] == Halt || s.code[s.pc] == Eof)) || s.pc >= |s.code|
    ensures Run(s, fuel) == RunFrom(s.(pc := 0), fuel)
  {
  }
}

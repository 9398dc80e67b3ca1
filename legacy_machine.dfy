/** The older, smaller interpreter of src/machine/mod.rs: its program lives in
    memory, `Push` takes its operand from the next word, and the fatal
    `unwrap`s of `push` and `pop` (and the `u16` arithmetic, which panics on
    overflow) become preconditions. */
module LegacyMachine {
  import VmState

  type Word = VmState.Word

  /** The instruction set of the `instructions` module. */
  datatype Instruction = None | Push(v: Word) | Pop | Add | Sub | Mul | Div | Halt

  // The `instructions` module, which numbers the opcodes, is not part of this
  // model; the numbering below is an arrangement of its own, and nothing
  // proved here depends on the particular numbers.
  function Opcode(i: Instruction): (w: Word)
    ensures w <= 7
  {
    match i
    case None => 0
    case Push(_) => 1
    case Pop => 2
    case Add => 3
    case Sub => 4
    case Mul => 5
    case Div => 6
    case Halt => 7
  }

  /** `From<u16> for Instruction`: the operand of a `Push` is not known from
      the opcode word alone (`instruction` fetches it); a word that is no
      opcode reads as `None`. */
  function FromWord(w: Word): (i: Instruction)
    ensures w <= 7 ==> Opcode(i) == w
    ensures w > 7 ==> i == None
  {
    if w == 1 then Push(0)
    else if w == 2 then Pop
    else if w == 3 then Add
    else if w == 4 then Sub
    else if w == 5 then Mul
    else if w == 6 then Div
    else if w == 7 then Halt
    else None
  }

  /** The words `load_code` writes for a program: the opcode, followed by the
      operand for `Push`. */
  function Encode(program: seq<Instruction>): (words: seq<Word>)
    ensures |words| >= |program|
    ensures program != [] ==> words[0] == Opcode(program[0])
    ensures program != [] && program[0].Push? ==> |words| >= 2 && words[1] == program[0].v
  {
    if program == [] then []
    else
      var head := if program[0].Push? then [Opcode(program[0]), program[0].v] else [Opcode(program[0])];
      head + Encode(program[1..])
  }

  /** The machine: memory, the PC register and the stack the stack manager
      keeps (as a sequence whose last element is the top). */
  datatype State = State(mem: seq<Word>, pc: Word, stack: seq<Word>)

  ghost predicate Valid(s: State) {
    |s.mem| == VmState.MEMORY_SIZE && |s.stack| <= VmState.STACK_CAPACITY
  }

  /** `Machine::new`. */
  function Init(): (s: State)
    ensures Valid(s) && s.pc == 0 && s.stack == []
  {
    State(VmState.ZeroMemory(), 0, [])
  }

  /** `load_code`: the encoded program from address 0 on. The `Memory`
      module is not part of this model; a program that does not fit is
      left to the precondition. */
  function LoadCode(s: State, program: seq<Instruction>): (r: State)
    requires Valid(s) && |Encode(program)| <= VmState.MEMORY_SIZE
    ensures Valid(r) && r.pc == s.pc && r.stack == s.stack
    ensures r.mem[..|Encode(program)|] == Encode(program)
    ensures r.mem[|Encode(program)|..] == s.mem[|Encode(program)|..]
  {
    var code := Encode(program);
    s.(mem := code + s.mem[|code|..])
  }

  /** How many words the instruction at PC occupies. */
  function Width(s: State): (n: nat)
    requires Valid(s)
    ensures n == 1 || n == 2
  {
    if FromWord(s.mem[s.pc]).Push? then 2 else 1
  }

  /** Incrementing PC past the last address would overflow the register. */
  predicate CanFetch(s: State)
    requires Valid(s)
  {
    s.pc + Width(s) <= VmState.WORD_MAX
  }

  /** `instruction`: the decoded instruction with its operand. */
  function Fetch(s: State): (i: Instruction)
    requires Valid(s) && CanFetch(s)
    ensures i.Push? <==> Width(s) == 2
    ensures i.Push? ==> i.v == s.mem[s.pc + 1]
    ensures !i.Push? ==> i == FromWord(s.mem[s.pc])
  {
    var i := FromWord(s.mem[s.pc]);
    if i.Push? then Push(s.mem[s.pc + 1]) else i
  }

  /** When an instruction's stack work completes: the stack manager
      neither under- nor overflows, and the `u16` result of the arithmetic
      exists. */
  predicate StackOk(stack: seq<Word>, i: Instruction) {
    var n := |stack|;
    match i
    case Push(_) => n < VmState.STACK_CAPACITY
    case Pop => n >= 1
    case Add => n >= 2 && stack[n - 1] + stack[n - 2] <= VmState.WORD_MAX
    case Sub => n >= 2 && stack[n - 1] <= stack[n - 2]
    case Mul => n >= 2 && stack[n - 1] * stack[n - 2] <= VmState.WORD_MAX
    case Div => n >= 2 && stack[n - 1] != 0
    case _ => true
  }

  /** When `tick` completes. */
  predicate CanTick(s: State)
    requires Valid(s)
  {
    CanFetch(s) && StackOk(s.stack, Fetch(s))
  }

  /** What an instruction does to the stack: `Push` pushes its operand,
      `Pop` drops the top, and the arithmetic pops `a` (the top) and then
      `b` and pushes its result. */
  function StackEffect(stack: seq<Word>, i: Instruction): (r: seq<Word>)
    requires StackOk(stack, i)
    ensures |r| <= |stack| + 1 && (i.Push? ==> |stack| < VmState.STACK_CAPACITY)
  {
    var n := |stack|;
    match i
    case Push(v) => stack + [v]
    case Pop => stack[..n - 1]
    case Add => stack[..n - 2] + [stack[n - 1] + stack[n - 2]]
    case Sub => stack[..n - 2] + [stack[n - 2] - stack[n - 1]]
    case Mul =>
      VmState.ArithmeticBounds(stack[n - 1], stack[n - 2]);
      stack[..n - 2] + [stack[n - 1] * stack[n - 2]]
    case Div =>
      VmState.ArithmeticBounds(stack[n - 1], stack[n - 2]);
      stack[..n - 2] + [stack[n - 2] / stack[n - 1]]
    case _ => stack
  }

  /** `tick`: execute the instruction at PC, then step PC past it. Memory
      is never written. */
  function TickSpec(s: State): (r: State)
    requires Valid(s) && CanTick(s)
    ensures Valid(r)
    ensures r.mem == s.mem
    ensures r.pc == s.pc + Width(s)
  {
    s.(pc := s.pc + Width(s), stack := StackEffect(s.stack, Fetch(s)))
  }

  class Machine {
    var mem: seq<Word>
    var pc: Word
    var stack: seq<Word>

    function View(): State
      reads this
    {
      State(mem, pc, stack)
    }

    /** `Machine::new`. */
    constructor New()
      ensures View() == Init()
    {
      mem := VmState.ZeroMemory();
      pc := 0;
      stack := [];
    }

    /** `pop`: a pop from an empty stack is fatal. */
    method Pop() returns (v: Word)
      requires |stack| > 0
      modifies this`stack
      ensures v == old(stack)[|old(stack)| - 1]
      ensures stack == old(stack)[..|old(stack)| - 1]
    {
      v := stack[|stack| - 1];
      stack := stack[..|stack| - 1];
    }

    /** `push`: a push onto a full stack is fatal. */
    method Push(v: Word)
      requires |stack| < VmState.STACK_CAPACITY
      modifies this`stack
      ensures stack == old(stack) + [v]
    {
      stack := stack + [v];
    }

    /** `arg`: move PC on, then read the word it points at. */
    method Arg() returns (w: Word)
      requires |mem| == VmState.MEMORY_SIZE && pc < VmState.WORD_MAX
      modifies this`pc
      ensures pc == old(pc) + 1 && w == mem[pc]
    {
      pc := pc + 1;
      w := mem[pc];
    }

    /** `instruction`: decode the word at PC, fetching a `Push`'s operand
        (which leaves PC on the operand). */
    method CurrentInstruction() returns (i: Instruction)
      requires Valid(View()) && CanFetch(View())
      modifies this`pc
      ensures i == Fetch(old(View()))
      ensures pc == old(pc) + Width(old(View())) - 1
    {
      i := FromWord(mem[pc]);
      if i.Push? {
        var v := Arg();
        i := Instruction.Push(v);
      }
    }

    /** The arithmetic instructions of `tick`. */
    method Arithmetic(op: Instruction)
      requires (op.Add? || op.Sub? || op.Mul? || op.Div?) && StackOk(stack, op)
      requires |stack| <= VmState.STACK_CAPACITY
      modifies this`stack
      ensures stack == StackEffect(old(stack), op)
    {
      var a := Pop();
      var b := Pop();
      VmState.ArithmeticBounds(a, b);
      var result := if op.Add? then a + b else if op.Sub? then b - a else if op.Mul? then a * b else b / a;
      Push(result);
    }

    /** `tick`, which reports success whenever it does not panic. */
    method Tick() returns (ok: bool)
      requires Valid(View()) && CanTick(View())
      modifies this
      ensures ok
      ensures View() == TickSpec(old(View()))
    {
      var op := CurrentInstruction();
      match op {
        case None =>
        case Push(v) =>
          Push(v);
        case Pop =>
          var _ := Pop();
        case Halt =>
        case _ =>
          Arithmetic(op);
      }
      pc := pc + 1;
      ok := true;
    }
  }

  // ----- lemmas -------------------------------------------------------------

  /** Decoding an encoded opcode gives the instruction back, up to the
      operand of `Push`, which travels in the following word. */
  lemma FromWordOpcode(i: Instruction)
    ensures FromWord(Opcode(i)) == if i.Push? then Push(0) else i
  {
  }

  /** A loaded program starts at address 0: `Push v` occupies two words, the
      opcode and `v`; every other instruction one. */
  lemma EncodeLayout(program: seq<Instruction>)
    requires program != []
    ensures program[0].Push? ==> Encode(program)[..2] == [Opcode(program[0]), program[0].v]
    ensures Encode(program)[0] == Opcode(program[0])
    ensures |Encode(program)| == (if program[0].Push? then 2 else 1) + |Encode(program[1..])|
  {
  }

  /** `Push` advances PC by 2 and every other instruction by 1; a tick never
      writes memory. */
  lemma PcAdvance(s: State)
    requires Valid(s) && CanTick(s)
    ensures Fetch(s).Push? ==> TickSpec(s).pc == s.pc + 2
    ensures !Fetch(s).Push? ==> TickSpec(s).pc == s.pc + 1
    ensures TickSpec(s).mem == s.mem
  {
  }

  /** `Add`, `Sub`, `Mul` and `Div` pop `a` (the top) and then `b`, and push
      a+b, b-a, a*b and b/a. */
  lemma ArithmeticSpec(s: State, a: Word, b: Word, rest: seq<Word>)
    requires Valid(s) && CanTick(s) && s.stack == rest + [b, a]
    ensures Fetch(s) == Add ==> TickSpec(s).stack == rest + [a + b]
    ensures Fetch(s) == Sub ==> TickSpec(s).stack == rest + [b - a]
    ensures Fetch(s) == Mul ==> TickSpec(s).stack == rest + [a * b]
    ensures Fetch(s) == Div ==> TickSpec(s).stack == rest + [b / a]
  {
    assert s.stack[..|s.stack| - 2] == rest;
  }

  /** `None` and `Halt` change nothing but PC. */
  lemma NoneAndHalt(s: State)
    requires Valid(s) && CanTick(s) && (Fetch(s) == None || Fetch(s) == Halt)
    ensures TickSpec(s) == s.(pc := s.pc + 1)
  {
  }

  const ADD_THEN_SUB: seq<Instruction> := [Push(5), Push(10), Add, Push(3), Sub]

  /** The `test_add` program is loaded as the words 1 5 1 10 3 1 3 4. */
  lemma AddThenSubLoaded()
    ensures |Encode(ADD_THEN_SUB)| == 8
    ensures LoadCode(Init(), ADD_THEN_SUB).mem[..8] == [1, 5, 1, 10, 3, 1, 3, 4]
  {
    var program := ADD_THEN_SUB;
    assert Encode(program[4..]) == [4];
    assert Encode(program[3..]) == [1, 3] + Encode(program[4..]);
    assert Encode(program[2..]) == [3] + Encode(program[3..]);
    assert Encode(program[1..]) == [1, 10] + Encode(program[2..]);
    assert Encode(program) == [1, 5, 1, 10, 3, 1, 3, 4];
  }

  /** A `Push` opcode at PC pushes the next word and skips it. */
  lemma PushTick(s: State)
    requires Valid(s) && s.mem[s.pc] == 1 && s.pc + 2 <= VmState.WORD_MAX
    requires |s.stack| < VmState.STACK_CAPACITY
    ensures CanTick(s) && TickSpec(s) == s.(pc := s.pc + 2, stack := s.stack + [s.mem[s.pc + 1]])
  {
  }

  /** Any other opcode at PC does its stack work and steps PC by one. */
  lemma OtherTick(s: State)
    requires Valid(s) && s.mem[s.pc] != 1 && s.pc + 1 <= VmState.WORD_MAX
    requires StackOk(s.stack, FromWord(s.mem[s.pc]))
    ensures CanTick(s) && TickSpec(s) == s.(pc := s.pc + 1, stack := StackEffect(s.stack, FromWord(s.mem[s.pc])))
  {
  }

  /** Ticking through those words from PC 0 on an empty stack. */
  lemma AddThenSubTicks(s0: State)
    requires Valid(s0) && s0.pc == 0 && s0.stack == [] && s0.mem[..8] == [1, 5, 1, 10, 3, 1, 3, 4]
    ensures CanTick(s0) &&
      (var s1 := TickSpec(s0);
       s1.stack == [5] && CanTick(s1) &&
       (var s2 := TickSpec(s1);
        s2.stack == [5, 10] && CanTick(s2) &&
        (var s3 := TickSpec(s2);
         s3.stack == [15] && CanTick(s3) &&
         (var s4 := TickSpec(s3);
          s4.stack == [15, 3] && CanTick(s4) &&
          (var s5 := TickSpec(s4);
           s5.stack == [12] && s5.pc == 8)))))
  {
    var code := s0.mem[..8];
    assert s0.mem[0] == code[0] == 1 && s0.mem[1] == code[1] == 5;
    assert s0.mem[2] == code[2] == 1 && s0.mem[3] == code[3] == 10;
    assert s0.mem[4] == code[4] == 3 && s0.mem[5] == code[5] == 1;
    assert s0.mem[6] == code[6] == 3 && s0.mem[7] == code[7] == 4;
    PushTick(s0);
    var s1 := s0.(pc := 2, stack := [5]);
    PushTick(s1);
    var s2 := s1.(pc := 4, stack := [5, 10]);
    OtherTick(s2);
    var s3 := s2.(pc := 5, stack := [15]);
    PushTick(s3);
    var s4 := s3.(pc := 7, stack := [15, 3]);
    OtherTick(s4);
  }

  /** The `test_add` program: Push 5, Push 10, Add leaves 15 on top; Push 3,
      Sub then leaves 12. */
  lemma AddThenSub()
    ensures var s0 := LoadCode(Init(), ADD_THEN_SUB);
      Valid(s0) && CanTick(s0) &&
      (var s1 := TickSpec(s0);
       s1.stack == [5] && CanTick(s1) &&
       (var s2 := TickSpec(s1);
        s2.stack == [5, 10] && CanTick(s2) &&
        (var s3 := TickSpec(s2);
         s3.stack == [15] && CanTick(s3) &&
         (var s4 := TickSpec(s3);
          s4.stack == [15, 3] && CanTick(s4) &&
          (var s5 := TickSpec(s4);
           s5.stack == [12] && s5.pc == 8)))))
  {
    AddThenSubLoaded();
    AddThenSubTicks(LoadCode(Init(), ADD_THEN_SUB));
  }
}

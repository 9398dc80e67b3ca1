/** The state of the stack machine (machine/src/machine/mod.rs) as a value:
    the instruction set, events and messages, the machine record, and the
    operations of `Machine` that build or configure it. */
module VmState {

  /** An unsigned 16-bit machine word (`u16`). */
  type Word = x: int | 0 <= x <= 0xFFFF

  const WORD_MAX: int := 0xFFFF

  /** Memory holds one word per 16-bit address. */
  const MEMORY_SIZE: nat := 0x10000

  // The memory layout constants are declared by the crate's constants module,
  // which is not part of this model. The values below only fix an
  // arrangement; no property proved here depends on them beyond START <= END.
  const STACK_START: Word := 0x3000
  const STACK_END: Word := 0x3FFF
  const CALL_STACK_START: Word := 0x1000
  const CALL_STACK_END: Word := 0x10FF

  datatype Option<T> = None | Some(value: T)

  datatype Register = PC | SP | FP

  /** The instruction set executed by `Execute::exec_op`. */
  datatype Op =
    | Noop | Halt | Eof
    | Push(v: Word) | Pop
    | Load(addr: Word) | Store(addr: Word)
    | Add | Sub | Mul | Div
    | Inc | Dec
    | Equal | NotEqual | LessThan | LessThanOrEqual | GreaterThan | GreaterThanOrEqual
    | Jump(target: Word) | JumpZero(target: Word) | JumpNotZero(target: Word)
    | Dup | Swap | Over
    | Print
    | LoadString(addr: Word)
    | Call(target: Word) | Return
    | Send(to: Word, size: Word) | Receive
    | MemoryMap

  /** The payload of a message; only the `Data` action is used by the core. */
  datatype Action = Data(body: seq<Word>)

  datatype Message = Message(from: Word, to: Word, action: Action)

  /** Events a machine emits. A `Print` carries the printed words. */
  datatype Event = Print(text: seq<Word>) | Send(message: Message)

  /** The fields of `Machine`. The data stack and the call stack, which the
      source keeps inside `mem` behind the SP and FP registers, are kept as
      sequences whose last element is the top. `code` is the decoded program
      the machine runs. */
  datatype State = State(
    id: Option<Word>,
    isDebug: bool,
    mem: seq<Word>,
    code: seq<Op>,
    pc: nat,
    stack: seq<Word>,
    callStack: seq<nat>,
    events: seq<Event>,
    mailbox: seq<Message>,
    expectedReceives: nat)

  /** The configuration of a `StackManager`: which register is its stack
      pointer, its address bounds and whether it runs in debug mode. */
  datatype StackManager = StackManager(sp: Register, min: Word, max: Word, isDebug: bool)

  /** The products and quotients of two words are never negative, and a
      quotient is at most its dividend. */
  lemma ArithmeticBounds(a: Word, b: Word)
    ensures 0 <= a * b
    ensures a != 0 ==> 0 <= b / a <= b
  {
    if a != 0 {
      assert b / a * a <= b;
    }
  }

  function Capacity(m: StackManager): (n: nat)
    requires m.min <= m.max
    ensures n <= WORD_MAX
  {
    m.max - m.min
  }

  const STACK_CAPACITY: nat := STACK_END - STACK_START
  const CALL_STACK_CAPACITY: nat := CALL_STACK_END - CALL_STACK_START

  /** What every reachable machine satisfies. */
  ghost predicate Valid(s: State) {
    |s.mem| == MEMORY_SIZE &&
    |s.stack| <= STACK_CAPACITY &&
    |s.callStack| <= CALL_STACK_CAPACITY
  }

  function ZeroMemory(): (m: seq<Word>)
    ensures |m| == MEMORY_SIZE && forall a :: 0 <= a < |m| ==> m[a] == 0
  {
    seq(MEMORY_SIZE, _ => 0)
  }

  /** `Machine::new`. */
  function New(): (s: State)
    ensures Valid(s)
    ensures s.id == None && !s.isDebug && s.events == [] && s.mailbox == []
    ensures s.pc == 0 && s.stack == [] && s.callStack == [] && s.code == []
    ensures s.expectedReceives == 0
  {
    State(None, false, ZeroMemory(), [], 0, [], [], [], [], 0)
  }

  /** `From<Vec<Op>> for Machine`: a new machine with `code` loaded. */
  function FromCode(code: seq<Op>): (s: State)
    ensures Valid(s)
    ensures s.code == code
    ensures s.(code := []) == New()
  {
    New().(code := code)
  }

  /** `Machine::stack`: the data stack manager carries the machine's debug flag. */
  function StackOf(s: State): (m: StackManager)
    ensures m.sp == SP && m.isDebug == s.isDebug
    ensures m.min <= m.max && Capacity(m) == STACK_CAPACITY
  {
    StackManager(SP, STACK_START, STACK_END, s.isDebug)
  }

  /** `Machine::call_stack`: the data stack manager re-pointed at FP and
      bounded by the call stack region. */
  function CallStackOf(s: State): (m: StackManager)
    ensures m.sp == FP && m.min == CALL_STACK_START && m.max == CALL_STACK_END
    ensures m.isDebug == StackOf(s).isDebug
    ensures Capacity(m) == CALL_STACK_CAPACITY
  {
    StackOf(s).(sp := FP, min := CALL_STACK_START, max := CALL_STACK_END)
  }

  /** `Machine::send_message`: a machine without an id sends nothing;
      otherwise exactly one `Send` event is appended. The mailbox is not
      touched. */
  function SendMessage(s: State, to: Word, action: Action): (r: State)
    ensures s.id == None ==> r == s
    ensures s.id.Some? ==>
      r.events == s.events + [Event.Send(Message(s.id.value, to, action))] &&
      r.(events := s.events) == s
    ensures r.mailbox == s.mailbox
  {
    match s.id
    case None => s
    case Some(id) => s.(events := s.events + [Event.Send(Message(id, to, action))])
  }
}

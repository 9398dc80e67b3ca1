/** The machine block's status flags (canvas/src/blocks/machine/index.tsx):
    five booleans read off the machine's entry in the output store, or off
    `{}` when it has none. */
module MachineBlock {
  import opened Canvas

  /** The fields of a machine's output entry the flags read; a missing
      field is `undefined`. */
  datatype Output = Output(status: Option<string>, inboxSize: Option<int>, outboxSize: Option<int>)

  datatype Flags = Flags(errored: bool, awaiting: bool, halted: bool, backpressuring: bool, sending: bool)

  const BACKPRESSURE_THRESHOLD: int := 50

  /** `outputs[id] ?? {}`. */
  function EntryFor(outputs: map<int, Output>, id: int): Output {
    if id in outputs then outputs[id] else Output(None, None, None)
  }

  predicate StatusIs(o: Output, status: string) {
    o.status == Some(status)
  }

  /** A comparison with `undefined` is false. */
  predicate GreaterThan(x: Option<int>, bound: int) {
    x.Some? && x.value > bound
  }

  predicate AtLeast(x: Option<int>, bound: int) {
    x.Some? && x.value >= bound
  }

  function FlagsOf(outputs: map<int, Output>, id: int): Flags {
    var state := EntryFor(outputs, id);
    Flags(
      StatusIs(state, "Invalid"),
      StatusIs(state, "Awaiting"),
      StatusIs(state, "Halted"),
      GreaterThan(state.inboxSize, BACKPRESSURE_THRESHOLD),
      AtLeast(state.outboxSize, 1))
  }

  function Count(b: bool): nat { if b then 1 else 0 }

  // ----- lemmas -------------------------------------------------------------

  /** A machine with no output entry shows no flag. */
  lemma MissingEntryNoFlags(outputs: map<int, Output>, id: int)
    requires id !in outputs
    ensures FlagsOf(outputs, id) == Flags(false, false, false, false, false)
  {
  }

  /** The three status flags each say exactly that the status has one
      value, so at most one of them holds. */
  lemma StatusFlags(outputs: map<int, Output>, id: int)
    ensures var f := FlagsOf(outputs, id); var status := EntryFor(outputs, id).status;
      (f.errored <==> status == Some("Invalid")) &&
      (f.awaiting <==> status == Some("Awaiting")) &&
      (f.halted <==> status == Some("Halted")) &&
      Count(f.errored) + Count(f.awaiting) + Count(f.halted) <= 1
  {
  }

  /** Backpressure is strictly above 50 queued messages; sending is one or
      more outgoing messages; a missing size sets neither. */
  lemma Thresholds(outputs: map<int, Output>, id: int)
    ensures var f := FlagsOf(outputs, id); var o := EntryFor(outputs, id);
      (f.backpressuring <==> o.inboxSize.Some? && o.inboxSize.value > 50) &&
      (f.sending <==> o.outboxSize.Some? && o.outboxSize.value >= 1) &&
      (o.inboxSize.None? ==> !f.backpressuring) && (o.outboxSize.None? ==> !f.sending)
  {
  }

  /** At the boundary: 50 queued messages is not backpressure, 51 is; an
      empty outbox is not sending, one message is. */
  lemma Boundaries(id: int, status: Option<string>)
    ensures !FlagsOf(map[id := Output(status, Some(50), Some(0))], id).backpressuring
    ensures FlagsOf(map[id := Output(status, Some(51), Some(0))], id).backpressuring
    ensures !FlagsOf(map[id := Output(status, Some(0), Some(0))], id).sending
    ensures FlagsOf(map[id := Output(status, Some(0), Some(1))], id).sending
  {
  }

  /** The flags depend on the block's own entry only. */
  lemma OwnEntryOnly(outputs: map<int, Output>, id: int, other: int, o: Output)
    requires other != id
    ensures FlagsOf(outputs[other := o], id) == FlagsOf(outputs, id)
  {
  }
}

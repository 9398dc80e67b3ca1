/** `run_from_binary_bytes` (src/cli/run.rs): check the signature, read the
    four-word header, cut the code and data segments out of the image and
    write them into a new machine's memory. The panics of the source
    (`panic!` and out-of-range slicing) are the `Err` results here. */
module Loader {
  import opened VmState
  import VmMachine

  // `MAGIC_BYTES`, `CODE_START` and `DATA_START` are declared in files that
  // are not part of this model; the values below only fix an arrangement.
  const MAGIC_BYTES: seq<Word> := [0xDEAD, 0xBEEF]
  const CODE_START: nat := 0x4000
  const DATA_START: nat := 0xC000

  /** Why an image is refused. */
  datatype LoadError =
    | MissingSignature   // fewer than two words: `bytes[0..2]` is out of range
    | InvalidSignature   // the first two words are not `MAGIC_BYTES[0..2]`
    | MissingHeader      // fewer than six words: `bytes[2..6]` is out of range
    | SegmentOutOfRange  // a segment runs past the end of the image
    | WriteOutOfRange    // a segment does not fit in memory from its start

  datatype Result<T> = Ok(value: T) | Err(error: LoadError)

  /** `[code_ptr, code_len, data_ptr, data_len]`. */
  datatype Header = Header(codePtr: nat, codeLen: nat, dataPtr: nat, dataLen: nat)

  /** The signature check and the header read. */
  function ReadHeader(bytes: seq<Word>): (r: Result<Header>)
    ensures r.Ok? <==> |bytes| >= 6 && bytes[..2] == MAGIC_BYTES[..2]
    ensures r.Ok? ==> r.value == Header(bytes[2], bytes[3], bytes[4], bytes[5])
  {
    if |bytes| < 2 then Err(MissingSignature)
    else if bytes[..2] != MAGIC_BYTES[..2] then Err(InvalidSignature)
    else if |bytes| < 6 then Err(MissingHeader)
    else Ok(Header(bytes[2], bytes[3], bytes[4], bytes[5]))
  }

  /** `bytes[ptr..(ptr + len)]`. */
  function Segment(bytes: seq<Word>, ptr: nat, len: nat): (r: Result<seq<Word>>)
    ensures r.Ok? <==> ptr + len <= |bytes|
    ensures r.Ok? ==> |r.value| == len && forall i :: 0 <= i < len ==> r.value[i] == bytes[ptr + i]
  {
    if ptr + len <= |bytes| then Ok(bytes[ptr..ptr + len]) else Err(SegmentOutOfRange)
  }

  /** `mem.write(start, words)`: the words from `start` on, every other
      address unchanged. The `Memory` module is not part of this model; a
      write past the last address is taken to fail. */
  function Write(mem: seq<Word>, start: nat, words: seq<Word>): (r: Result<seq<Word>>)
    ensures r.Ok? <==> start + |words| <= |mem|
    ensures r.Ok? ==> |r.value| == |mem|
    ensures r.Ok? ==> forall i :: 0 <= i < |words| ==> r.value[start + i] == words[i]
    ensures r.Ok? ==> forall a :: 0 <= a < |mem| && !(start <= a < start + |words|) ==> r.value[a] == mem[a]
  {
    if start + |words| <= |mem| then Ok(mem[..start] + words + mem[start + |words|..])
    else Err(WriteOutOfRange)
  }

  /** The machine `run_from_binary_bytes` is about to run. */
  function LoadImage(bytes: seq<Word>, isDebug: bool): (r: Result<State>)
    ensures r.Ok? ==> Valid(r.value)
  {
    match ReadHeader(bytes)
    case Err(e) => Err(e)
    case Ok(h) =>
      match Segment(bytes, h.codePtr, h.codeLen)
      case Err(e) => Err(e)
      case Ok(code) =>
        match Segment(bytes, h.dataPtr, h.dataLen)
        case Err(e) => Err(e)
        case Ok(data) =>
          var m := New().(isDebug := isDebug);
          match Write(m.mem, CODE_START, code)
          case Err(e) => Err(e)
          case Ok(mem1) =>
            match Write(mem1, DATA_START, data)
            case Err(e) => Err(e)
            case Ok(mem2) => Ok(m.(mem := mem2))
  }

  datatype Loaded = Loaded(machine: VmMachine.Machine) | Rejected(error: LoadError)

  /** `run_from_binary_bytes` up to the call of `run`. */
  method RunFromBinaryBytes(bytes: seq<Word>, isDebug: bool) returns (r: Loaded)
    ensures r.Loaded? <==> LoadImage(bytes, isDebug).Ok?
    ensures r.Loaded? ==> fresh(r.machine) && r.machine.View() == LoadImage(bytes, isDebug).value
    ensures r.Rejected? ==> r.error == LoadImage(bytes, isDebug).error
  {
    var header := ReadHeader(bytes);
    if header.Err? {
      return Rejected(header.error);
    }
    var h := header.value;
    var m := new VmMachine.Machine.New();
    m.isDebug := isDebug;
    var code := Segment(bytes, h.codePtr, h.codeLen);
    if code.Err? {
      return Rejected(code.error);
    }
    var data := Segment(bytes, h.dataPtr, h.dataLen);
    if data.Err? {
      return Rejected(data.error);
    }
    var mem1 := Write(m.mem, CODE_START, code.value);
    if mem1.Err? {
      return Rejected(mem1.error);
    }
    m.mem := mem1.value;
    var mem2 := Write(m.mem, DATA_START, data.value);
    if mem2.Err? {
      return Rejected(mem2.error);
    }
    m.mem := mem2.value;
    return Loaded(m);
  }

  // ----- lemmas -------------------------------------------------------------

  /** An image that does not start with the signature is refused. */
  lemma SignatureChecked(bytes: seq<Word>, isDebug: bool)
    ensures |bytes| < 2 ==> LoadImage(bytes, isDebug) == Err(MissingSignature)
    ensures |bytes| >= 2 && bytes[..2] != MAGIC_BYTES[..2] ==> LoadImage(bytes, isDebug) == Err(InvalidSignature)
    ensures LoadImage(bytes, isDebug).Ok? ==> bytes[0] == MAGIC_BYTES[0] && bytes[1] == MAGIC_BYTES[1]
  {
    if LoadImage(bytes, isDebug).Ok? {
      assert bytes[..2][0] == bytes[0] && bytes[..2][1] == bytes[1];
    }
  }

  /** An image is loaded exactly when its signature and header are there,
      both segments lie inside it and both fit in memory. */
  lemma LoadsExactly(bytes: seq<Word>, isDebug: bool)
    requires ReadHeader(bytes).Ok?
    ensures var h := ReadHeader(bytes).value;
      LoadImage(bytes, isDebug).Ok? <==>
        h.codePtr + h.codeLen <= |bytes| && h.dataPtr + h.dataLen <= |bytes| &&
        CODE_START + h.codeLen <= MEMORY_SIZE && DATA_START + h.dataLen <= MEMORY_SIZE
    ensures var h := ReadHeader(bytes).value;
      h.codePtr + h.codeLen > |bytes| || h.dataPtr + h.dataLen > |bytes| ==>
        LoadImage(bytes, isDebug) == Err(SegmentOutOfRange)
  {
  }

  /** The data segment is `bytes[data_ptr..data_ptr + data_len]` from
      `DATA_START` on; the code segment is `bytes[code_ptr..code_ptr +
      code_len]` from `CODE_START` on wherever the data segment does not
      overlay it; every other word is 0. */
  lemma SegmentsPlaced(bytes: seq<Word>, isDebug: bool)
    requires LoadImage(bytes, isDebug).Ok?
    ensures var h := ReadHeader(bytes).value; var mem := LoadImage(bytes, isDebug).value.mem;
      mem[DATA_START..DATA_START + h.dataLen] == bytes[h.dataPtr..h.dataPtr + h.dataLen] &&
      (forall a :: CODE_START <= a < CODE_START + h.codeLen && !(DATA_START <= a < DATA_START + h.dataLen) ==>
         mem[a] == bytes[h.codePtr + (a - CODE_START)]) &&
      (forall a ::
         (0 <= a < MEMORY_SIZE && !(CODE_START <= a < CODE_START + h.codeLen) &&
          !(DATA_START <= a < DATA_START + h.dataLen)) ==> mem[a] == 0)
  {
    var h := ReadHeader(bytes).value;
    var code := Segment(bytes, h.codePtr, h.codeLen).value;
    var data := Segment(bytes, h.dataPtr, h.dataLen).value;
    var mem1 := Write(New().mem, CODE_START, code).value;
    var mem2 := Write(mem1, DATA_START, data).value;
    assert LoadImage(bytes, isDebug).value.mem == mem2;
  }

  /** The loaded machine is a new machine with the debug flag copied and
      the segments in memory. */
  lemma DebugFlagCopied(bytes: seq<Word>, isDebug: bool)
    requires LoadImage(bytes, isDebug).Ok?
    ensures LoadImage(bytes, isDebug).value.isDebug == isDebug
    ensures LoadImage(bytes, isDebug).value.(mem := New().mem, isDebug := false) == New()
  {
  }
}

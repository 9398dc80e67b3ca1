/** The value viewer block (canvas/src/blocks/value-view/index.tsx): what it
    shows for the words a machine reports at `offset`, the hexadecimal
    formatting `hx`, the one memory write a click in the bit grid makes, and
    the settings schema. The values are 16-bit machine words and a bit
    position is a `bv4`; `bitsToList` (the grid's grouping) is not in these
    files, and `flipBit` is given the meaning its name and use imply. */
module ValueView {
  import opened Canvas

  /** A 16-bit machine word as the viewer receives it. */
  type Word = bv16

  // ----- number formatting --------------------------------------------------

  /** The digit `d` as `Number.prototype.toString(radix)` writes it. */
  function Digit(d: nat): (c: char)
    requires d < 16
    ensures IsLowerDigit(c) && (d < 10 ==> '0' <= c <= '9')
  {
    if d < 10 then ('0' as int + d) as char else ('a' as int + (d - 10)) as char
  }

  /** The value of a digit character, in either case; 0 for anything else. */
  function DigitValue(c: char): nat {
    if '0' <= c <= '9' then c as int - '0' as int
    else if 'a' <= c <= 'f' then c as int - 'a' as int + 10
    else if 'A' <= c <= 'F' then c as int - 'A' as int + 10
    else 0
  }

  predicate IsLowerDigit(c: char) {
    '0' <= c <= '9' || 'a' <= c <= 'f'
  }

  lemma DivMod(n: nat, base: nat)
    requires 2 <= base && n >= base
    ensures 0 < n / base < n && 0 <= n % base < base
    ensures (n / base) * base + n % base == n
  {
  }

  /** `n.toString(base)`: the digits of `n`, most significant first. */
  function ToBase(n: nat, base: nat): (s: string)
    requires 2 <= base <= 16
    ensures |s| >= 1
    ensures forall k :: 0 <= k < |s| ==> IsLowerDigit(s[k]) && (base == 10 ==> '0' <= s[k] <= '9')
    decreases n
  {
    if n < base then [Digit(n)]
    else
      DivMod(n, base);
      ToBase(n / base, base) + [Digit(n % base)]
  }

  /** The number a string of digits denotes. */
  function Parse(s: string, base: nat): nat
  {
    if s == [] then 0 else Parse(s[..|s| - 1], base) * base + DigitValue(s[|s| - 1])
  }

  function Repeat(c: char, k: nat): (s: string)
    ensures |s| == k && forall i :: 0 <= i < k ==> s[i] == c
  {
    if k == 0 then [] else [c] + Repeat(c, k - 1)
  }

  /** `s.padStart(len, c)`. */
  function PadStart(s: string, len: nat, c: char): (r: string)
    ensures |r| == if |s| >= len then |s| else len
  {
    if |s| >= len then s else Repeat(c, len - |s|) + s
  }

  function UpperChar(c: char): char {
    if 'a' <= c <= 'z' then (c as int - 32) as char else c
  }

  /** `s.toUpperCase()` on the characters a number is written with. */
  function Upper(s: string): (r: string)
    ensures |r| == |s| && forall k :: 0 <= k < |s| ==> r[k] == UpperChar(s[k])
  {
    if s == [] then [] else Upper(s[..|s| - 1]) + [UpperChar(s[|s| - 1])]
  }

  /** How a number is rendered in decimal. */
  function Decimal(n: nat): string {
    ToBase(n, 10)
  }

  /** `hx(n)`: `n.toString(16).padStart(4, "0").toUpperCase()`. */
  function Hex(n: nat): (h: string)
    ensures |h| >= 4
  {
    Upper(PadStart(ToBase(n, 16), 4, '0'))
  }

  // ----- display ------------------------------------------------------------

  /** One number of the `Int`/`Bytes` grid; 0 is drawn dimmed. */
  datatype Cell = Cell(text: string, dimmed: bool)

  /** What `display()` draws. */
  datatype Display =
    | MissingValue
    | NumberGrid(cols: nat, cells: seq<Cell>)
    | BitGrid(rows: seq<Word>)
    | Text(units: seq<Word>)
    | UnknownVisual(visual: string)

  /** `valueMap[id] ?? []`. */
  function ValuesFor(valueMap: map<int, seq<Word>>, id: int): seq<Word> {
    if id in valueMap then valueMap[id] else []
  }

  function Show(v: Word, isHex: bool): string {
    if isHex then Hex(v as int) else Decimal(v as int)
  }

  function Cells(values: seq<Word>, isHex: bool): (cells: seq<Cell>)
    ensures |cells| == |values|
    ensures forall k :: 0 <= k < |values| ==> cells[k] == Cell(Show(values[k], isHex), values[k] == 0)
  {
    if values == [] then [] else [Cell(Show(values[0], isHex), values[0] == 0)] + Cells(values[1..], isHex)
  }

  /** The index of the first 0, or -1 (`findIndex`). */
  function FindZero(values: seq<Word>): (i: int)
    ensures -1 <= i < |values|
    ensures i >= 0 ==> values[i] == 0 && forall k :: 0 <= k < i ==> values[k] != 0
    ensures i == -1 <==> forall k :: 0 <= k < |values| ==> values[k] != 0
  {
    if values == [] then -1
    else if values[0] == 0 then 0
    else var i := FindZero(values[1..]); if i == -1 then -1 else i + 1
  }

  /** `values.slice(0, end)`, with a negative `end` counted from the back. */
  function SliceTo(values: seq<Word>, end: int): (r: seq<Word>)
    requires end < |values|
  {
    if end >= 0 then values[..end]
    else if |values| + end >= 0 then values[..|values| + end]
    else []
  }

  /** The `String` case as written: the words before `findIndex(x === 0)`.
      Each word is one UTF-16 code unit (`String.fromCharCode`). */
  function TextAsWritten(values: seq<Word>): seq<Word> {
    SliceTo(values, FindZero(values))
  }

  /** The `String` case as evidently intended: the words before the first 0
      terminator, or all of them when there is none. */
  function TextOf(values: seq<Word>): (t: seq<Word>)
    ensures |t| <= |values| && t == values[..|t|]
    ensures forall k :: 0 <= k < |t| ==> t[k] != 0
    ensures |t| < |values| ==> values[|t|] == 0
  {
    var i := FindZero(values);
    if i == -1 then values else values[..i]
  }

  /** `display()` for the block with engine id `id`, as written: the
      `String` case shows `TextAsWritten`. */
  function Render(valueMap: map<int, seq<Word>>, id: int, visual: string): (d: Display)
    ensures d.MissingValue? <==> ValuesFor(valueMap, id) == []
    ensures d.NumberGrid? <==> ValuesFor(valueMap, id) != [] && (visual == "Bytes" || visual == "Int")
    ensures d.BitGrid? <==> ValuesFor(valueMap, id) != [] && visual == "ColorGrid"
    ensures d.Text? <==> ValuesFor(valueMap, id) != [] && visual == "String"
    ensures d.BitGrid? ==> d.rows == ValuesFor(valueMap, id)
  {
    var values := ValuesFor(valueMap, id);
    if |values| == 0 then MissingValue
    else if visual == "Bytes" || visual == "Int" then
      NumberGrid(if |values| < 8 then |values| else 8, Cells(values, visual == "Bytes"))
    else if visual == "ColorGrid" then BitGrid(values)
    else if visual == "String" then Text(TextAsWritten(values))
    else UnknownVisual(visual)
  }

  /** `display()` as evidently intended: the `String` case shows `TextOf`,
      every other case is drawn as written. */
  function RenderIntended(valueMap: map<int, seq<Word>>, id: int, visual: string): (d: Display)
    ensures visual != "String" ==> d == Render(valueMap, id, visual)
    ensures visual == "String" && ValuesFor(valueMap, id) != [] ==> d == Text(TextOf(ValuesFor(valueMap, id)))
  {
    var d := Render(valueMap, id, visual);
    if d.Text? then Text(TextOf(ValuesFor(valueMap, id))) else d
  }

  // ----- the bit grid -------------------------------------------------------

  function Mask(j: bv4): Word {
    (1 as Word) << j
  }

  /** Bit `j` of a word. */
  predicate IsSet(v: Word, j: bv4) {
    v & Mask(j) != 0
  }

  /** `flipBit(value, j)`: the word with bit `j` inverted. */
  function FlipBit(v: Word, j: bv4): Word {
    v ^ Mask(j)
  }

  /** The engine call a click on bit `j` of row `i` makes. */
  function ClickWrite(target: int, offset: int, values: seq<Word>, i: nat, j: bv4): Call
    requires i < |values|
  {
    Call.SetMachineMemory(target, offset + i, [FlipBit(values[i], j) as int])
  }

  /** The click handler of the bit grid. */
  method Click(target: int, offset: int, values: seq<Word>, i: nat, j: bv4, engine: Engine)
    requires i < |values|
    modifies engine
    ensures engine.calls == old(engine.calls) + [ClickWrite(target, offset, values, i, j)]
  {
    var value := values[i];
    var next := FlipBit(value, j);
    engine.SetMachineMemory(target, offset + i, [next as int]);
  }

  // ----- settings -----------------------------------------------------------

  /** The bounds the settings schema puts on the block's numbers. */
  predicate SettingsInBounds(size: int, offset: int, target: int) {
    size >= 1 && offset >= 0 && target >= 0
  }

  /** The footer `o=0x{hx(offset)} s={size} t={target}`. */
  function Footer(offset: int, size: int, target: int): (f: string)
    requires SettingsInBounds(size, offset, target)
    ensures |f| >= 11 && f[..4] == "o=0x"
  {
    "o=0x" + Hex(offset) + " s=" + Decimal(size) + " t=" + Decimal(target)
  }

  // ----- lemmas -------------------------------------------------------------

  lemma DigitRoundTrip(d: nat)
    requires d < 16
    ensures DigitValue(Digit(d)) == d && DigitValue(UpperChar(Digit(d))) == d
    ensures d >= 10 ==> 'A' <= UpperChar(Digit(d)) <= 'F'
    ensures d < 10 ==> UpperChar(Digit(d)) == Digit(d)
  {
  }

  /** Reading the digits back gives the number. */
  lemma {:induction false} ParseToBase(n: nat, base: nat)
    requires 2 <= base <= 16
    ensures Parse(ToBase(n, base), base) == n
    decreases n
  {
    if n < base {
      DigitRoundTrip(n);
      assert Parse([Digit(n)], base) == Parse([], base) * base + DigitValue(Digit(n));
    } else {
      var q, r := n / base, n % base;
      DivMod(n, base);
      DigitRoundTrip(r);
      ParseToBase(q, base);
      var s := ToBase(q, base) + [Digit(r)];
      assert s[..|s| - 1] == ToBase(q, base);
      assert Parse(s, base) == q * base + r;
    }
  }

  /** Leading zeros do not change the number. */
  lemma {:induction false} ParseLeadingZero(s: string, base: nat)
    ensures Parse(['0'] + s, base) == Parse(s, base)
    decreases |s|
  {
    if s != [] {
      var t := ['0'] + s;
      assert t[..|t| - 1] == ['0'] + s[..|s| - 1];
      ParseLeadingZero(s[..|s| - 1], base);
    } else {
      assert (['0'] + s)[..0] == [];
    }
  }

  lemma {:induction false} ParseLeadingZeros(k: nat, s: string, base: nat)
    ensures Parse(Repeat('0', k) + s, base) == Parse(s, base)
    decreases k
  {
    if k > 0 {
      assert Repeat('0', k) + s == ['0'] + (Repeat('0', k - 1) + s);
      ParseLeadingZero(Repeat('0', k - 1) + s, base);
      ParseLeadingZeros(k - 1, s, base);
    } else {
      assert Repeat('0', k) + s == s;
    }
  }

  /** Upper-casing does not change the number. */
  lemma {:induction false} ParseUpper(s: string, base: nat)
    requires forall k :: 0 <= k < |s| ==> IsLowerDigit(s[k])
    ensures Parse(Upper(s), base) == Parse(s, base)
    decreases |s|
  {
    if s != [] {
      var u := Upper(s);
      assert u[..|u| - 1] == Upper(s[..|s| - 1]);
      ParseUpper(s[..|s| - 1], base);
    }
  }

  /** A machine word has at most four hex digits. */
  lemma WordHexDigits(n: nat)
    requires n < 0x10000
    ensures |ToBase(n, 16)| <= 4
  {
    if n >= 16 {
      var a := n / 16;
      if a >= 16 {
        var b := a / 16;
        if b >= 16 {
          assert b / 16 < 16;
          assert |ToBase(b / 16, 16)| == 1;
        }
        assert |ToBase(b, 16)| <= 2;
      }
      assert |ToBase(a, 16)| <= 3;
    }
  }

  /** Padding with zeros keeps the digits and the number. */
  lemma PadSpec(digits: string, base: nat)
    requires forall k :: 0 <= k < |digits| ==> IsLowerDigit(digits[k])
    ensures var padded := PadStart(digits, 4, '0');
      Parse(padded, base) == Parse(digits, base) &&
      forall k :: 0 <= k < |padded| ==> IsLowerDigit(padded[k])
  {
    if |digits| < 4 {
      ParseLeadingZeros(4 - |digits|, digits, base);
    }
  }

  predicate IsUpperDigit(c: char) {
    '0' <= c <= '9' || 'A' <= c <= 'F'
  }

  lemma UpperDigits(s: string)
    requires forall k :: 0 <= k < |s| ==> IsLowerDigit(s[k])
    ensures forall k :: 0 <= k < |s| ==> IsUpperDigit(Upper(s)[k])
  {
    forall k | 0 <= k < |s|
      ensures IsUpperDigit(Upper(s)[k])
    {
      assert Upper(s)[k] == UpperChar(s[k]);
    }
  }

  /** `hx(n)` reads back as `n`, is written with `0`-`9` and `A`-`F`, and
      has exactly four digits for every machine word (at least four for any
      number). */
  lemma HexSpec(n: nat)
    ensures Parse(Hex(n), 16) == n
    ensures |Hex(n)| >= 4 && (n < 0x10000 ==> |Hex(n)| == 4)
    ensures forall k :: 0 <= k < |Hex(n)| ==> IsUpperDigit(Hex(n)[k])
  {
    var digits := ToBase(n, 16);
    ParseToBase(n, 16);
    PadSpec(digits, 16);
    var padded := PadStart(digits, 4, '0');
    ParseUpper(padded, 16);
    UpperDigits(padded);
    if n < 0x10000 {
      WordHexDigits(n);
    }
  }

  /** The decimal rendering reads back as the number. */
  lemma DecimalSpec(n: nat)
    ensures Parse(Decimal(n), 10) == n
    ensures forall k :: 0 <= k < |Decimal(n)| ==> '0' <= Decimal(n)[k] <= '9'
  {
    ParseToBase(n, 10);
  }

  /** A block with no values shows "missing value", whatever its visual. */
  lemma MissingWhateverVisual(valueMap: map<int, seq<Word>>, id: int, visual: string)
    requires id !in valueMap || valueMap[id] == []
    ensures Render(valueMap, id, visual) == MissingValue
  {
  }

  /** `Int` and `Bytes` draw one cell per value, in order, on at most eight
      columns; each cell reads back as its value (decimal for `Int`,
      four-digit hex for `Bytes`) and is dimmed exactly when the value is 0. */
  lemma NumberGridSpec(valueMap: map<int, seq<Word>>, id: int, visual: string, k: nat)
    requires visual == "Int" || visual == "Bytes"
    requires k < |ValuesFor(valueMap, id)|
    ensures var values := ValuesFor(valueMap, id);
      var d := Render(valueMap, id, visual);
      d.NumberGrid? && |d.cells| == |values| &&
      d.cols == (if |values| < 8 then |values| else 8) && 1 <= d.cols <= 8 &&
      (d.cells[k].dimmed <==> values[k] == 0) &&
      Parse(d.cells[k].text, if visual == "Bytes" then 16 else 10) == values[k] as int &&
      (visual == "Bytes" ==> |d.cells[k].text| == 4)
  {
    var values := ValuesFor(valueMap, id);
    if visual == "Bytes" {
      HexSpec(values[k] as int);
    } else {
      DecimalSpec(values[k] as int);
    }
  }

  /** Any visual other than the four handled ones, including the schema's
      own "Switches", is reported as unknown. */
  lemma UnknownVisuals(valueMap: map<int, seq<Word>>, id: int, visual: string)
    requires ValuesFor(valueMap, id) != []
    ensures Render(valueMap, id, visual).UnknownVisual? <==>
      visual != "Int" && visual != "Bytes" && visual != "ColorGrid" && visual != "String"
    ensures Render(valueMap, id, "Switches") == UnknownVisual("Switches")
  {
  }

  /** The text shown is the words before the first 0. */
  lemma StringStopsAtTerminator(valueMap: map<int, seq<Word>>, id: int, k: nat)
    requires var values := ValuesFor(valueMap, id); k < |values| && values[k] == 0
    ensures var d := Render(valueMap, id, "String");
      d.Text? && |d.units| <= k && d.units == ValuesFor(valueMap, id)[..|d.units|]
  {
  }

  /** As written, the `String` case agrees with the intended text when a
      terminator is present, and drops the last word when there is none. */
  lemma TextAsWrittenDropsLast(values: seq<Word>)
    ensures (exists k :: 0 <= k < |values| && values[k] == 0) ==> TextAsWritten(values) == TextOf(values)
    ensures (forall k :: 0 <= k < |values| ==> values[k] != 0) && values != [] ==>
      TextAsWritten(values) == TextOf(values)[..|values| - 1]
  {
  }

  /** "hi" without a terminator: the viewer shows "h" where "hi" is meant. */
  lemma TextAsWrittenExample()
    ensures TextAsWritten([104, 105]) == [104]
    ensures TextOf([104, 105]) == [104, 105]
    ensures Render(map[1 := [104, 105]], 1, "String") == Text([104])
    ensures RenderIntended(map[1 := [104, 105]], 1, "String") == Text([104, 105])
  {
    assert ValuesFor(map[1 := [104, 105]], 1) == [104, 105];
    assert FindZero([104, 105][1..]) == -1 by {
      assert [104, 105][1..] == [105];
      assert FindZero([105][1..]) == -1;
    }
  }

  /** Flipping a bit twice restores the word, and a flip inverts bit `j`. */
  lemma FlipBitSpec(v: Word, j: bv4)
    ensures FlipBit(FlipBit(v, j), j) == v
    ensures IsSet(FlipBit(v, j), j) <==> !IsSet(v, j)
    ensures FlipBit(v, j) != v
  {
    var m := Mask(j);
    assert m != 0;
    assert (v ^ m) ^ m == v;
    assert ((v ^ m) & m != 0) <==> (v & m == 0);
  }

  /** A flip of bit `j` leaves every other bit as it was. */
  lemma FlipBitOther(v: Word, j: bv4, k: bv4)
    requires k != j
    ensures IsSet(FlipBit(v, j), k) <==> IsSet(v, k)
  {
    var m, n := Mask(j), Mask(k);
    assert m & n == 0;
    assert (v ^ m) & n == v & n;
  }

  /** A click writes exactly one word, at `offset + i` of the target
      machine, and its value is the row's word with bit `j` flipped: a
      second click on the same bit of the new value writes the old word
      back. */
  lemma ClickWritesOneWord(target: int, offset: int, values: seq<Word>, i: nat, j: bv4)
    requires i < |values|
    ensures var c := ClickWrite(target, offset, values, i, j);
      c.target == target && c.address == offset + i && |c.words| == 1 &&
      c.words[0] == FlipBit(values[i], j) as int &&
      ClickWrite(target, offset, values[i := FlipBit(values[i], j)], i, j).words == [values[i] as int]
  {
    FlipBitSpec(values[i], j);
  }

  /** The footer shows the offset in hex after "o=0x": four digits when it
      is a word, more for a larger offset. */
  lemma FooterOffset(offset: int, size: int, target: int)
    requires SettingsInBounds(size, offset, target)
    ensures var f := Footer(offset, size, target); var n := |Hex(offset)|;
      n >= 4 && (offset < 0x10000 ==> n == 4) && |f| >= 7 + n &&
      f[..4] == "o=0x" && Parse(f[4..4 + n], 16) == offset && f[4 + n..7 + n] == " s="
  {
    HexSpec(offset);
    var f := Footer(offset, size, target);
    var n := |Hex(offset)|;
    assert f[4..4 + n] == Hex(offset);
  }

  /** With no terminator and at least one word, the intended `String`
      display shows every word and the display as written one fewer. */
  lemma RenderTextDiffers(valueMap: map<int, seq<Word>>, id: int)
    requires var values := ValuesFor(valueMap, id); values != [] && forall k :: 0 <= k < |values| ==> values[k] != 0
    ensures var values := ValuesFor(valueMap, id);
      RenderIntended(valueMap, id, "String") == Text(values) &&
      Render(valueMap, id, "String") == Text(values[..|values| - 1])
  {
    TextAsWrittenDropsLast(ValuesFor(valueMap, id));
  }
}

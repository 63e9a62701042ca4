/** GameShark codes: parsing a line and compiling a code to instructions. */
module CheatCompiler {
  import opened Options
  import opened IniText
  import opened SplitString

  const WORD := 0x1_0000_0000

  // ---------------------------------------------------------------- numbers

  predicate IsBlank(c: char) {
    c == ' ' || ('\t' <= c <= '\r')
  }

  function HexDigit(c: char): (r: Option<nat>)
    ensures r.Some? ==> r.value < 16
  {
    if '0' <= c <= '9' then Some(c as int - '0' as int)
    else if 'a' <= c <= 'f' then Some(c as int - 'a' as int + 10)
    else if 'A' <= c <= 'F' then Some(c as int - 'A' as int + 10)
    else None
  }

  /** The digits at the start of `s`, continuing a number. */
  function Digits(s: string, so: nat): nat {
    if s == [] || HexDigit(s[0]).None? then so else Digits(s[1..], 16 * so + HexDigit(s[0]).value)
  }

  function SkipBlanks(s: string): (r: string)
    ensures |r| <= |s|
  {
    if s == [] || !IsBlank(s[0]) then s else SkipBlanks(s[1..])
  }

  predicate StartsWithDigit(s: string) {
    s != [] && HexDigit(s[0]).Some?
  }

  /** An unsigned number in base 16 with an optional `0x`. */
  function Magnitude(s: string): Option<nat> {
    if |s| > 2 && s[0] == '0' && (s[1] == 'x' || s[1] == 'X') && StartsWithDigit(s[2..]) then Some(Digits(s[2..], 0))
    else if StartsWithDigit(s) then Some(Digits(s, 0))
    else None
  }

  /** `std::stoul(s, nullptr, 16)` cast to 32 bits: blanks, an optional sign and a number;
      without digits it throws. */
  function ParseHex(s: string): (r: Option<nat>)
    ensures r.Some? ==> r.value < WORD
  {
    var t := SkipBlanks(s);
    var minus := t != [] && t[0] == '-';
    var signed := minus || (t != [] && t[0] == '+');
    match Magnitude(if signed then t[1..] else t)
    case None => None
    case Some(n) => Some(if minus then (0 - n) % WORD else n % WORD)
  }

  // ---------------------------------------------------------------- instructions

  /** The closures of a compiled cheat. */
  datatype Instruction =
    | WriteByte(address: nat, value: nat)
    | WriteHalf(address: nat, value: nat)
    | ButtonByte(address: nat, value: nat)     // only while the GS button is pressed
    | ButtonHalf(address: nat, value: nat)
    | ByteEqual(address: nat, value: nat)
    | HalfEqual(address: nat, value: nat)
    | ByteDiffers(address: nat, value: nat)
    | HalfDiffers(address: nat, value: nat)

  predicate IsTest(i: Instruction) {
    i.ByteEqual? || i.HalfEqual? || i.ByteDiffers? || i.HalfDiffers?
  }

  /** What the opcode of a line asks for. */
  datatype Operation = Plain(instruction: Instruction) | Repeat(count: nat, offset: nat, diff: nat) | Illegal

  /** What one line says on its own; a line without a number where one is needed makes the
      number parser throw. */
  datatype Line = Skipped | Unreadable | Heard(op: Operation, address: nat, value: nat)

  /** Up to `n` characters from `from`. */
  function Sub(s: string, from: nat, n: nat): string
    requires from <= |s|
  {
    if from + n <= |s| then s[from..from + n] else s[from..]
  }

  predicate SkipLine(line: string) {
    line == [] || line[0] == '$' || line[0] == '-' || |line| < 13
  }

  function Decode(opcode: string, address: nat, value: nat): Operation {
    if opcode == "80" || opcode == "A0" then Plain(WriteByte(address, value % 0x100))
    else if opcode == "81" || opcode == "A1" then Plain(WriteHalf(address, value % 0x1_0000))
    else if opcode == "88" then Plain(ButtonByte(address, value % 0x100))
    else if opcode == "89" then Plain(ButtonHalf(address, value % 0x1_0000))
    else if opcode == "D0" then Plain(ByteEqual(address, value % 0x100))
    else if opcode == "D1" then Plain(HalfEqual(address, value))
    else if opcode == "D2" then Plain(ByteDiffers(address, value % 0x100))
    else if opcode == "D3" then Plain(HalfDiffers(address, value))
    else if opcode == "50" then Repeat(address / 0x100 % 0x100, address % 0x100, value)
    else Illegal
  }

  function ParseLine(line: string): Line {
    if SkipLine(line) then Skipped
    else
      var address := ParseHex(Sub(line, 2, 6));
      var value := ParseHex(if line[8] == ' ' then Sub(line, 9, 4) else Sub(line, 10, 4));
      if address.None? || value.None? then Unreadable
      else Heard(Decode(Sub(line, 0, 2), address.value, value.value), address.value, value.value)
  }

  // ---------------------------------------------------------------- compiling

  /** A pending repeat: how many bytes, how far apart, and how their values grow. */
  datatype Serial = NoSerial | Serial(count: nat, offset: nat, diff: nat)

  /** Byte `i` of a repeated write to `address`. */
  function SerialWrite(s: Serial, address: nat, value: nat, i: nat): Instruction
    requires s.Serial?
  {
    WriteByte(address + s.offset * i, (value + s.diff * i) % 0x100)
  }

  /** All of them from byte `i` on. */
  function SerialWrites(s: Serial, address: nat, value: nat, i: nat): seq<Instruction>
    requires s.Serial?
    decreases s.count - i
  {
    if i >= s.count then [] else [SerialWrite(s, address, value, i)] + SerialWrites(s, address, value, i + 1)
  }

  /** Result of compiling: instructions, a refused opcode, or an exception of the number
      parser. */
  datatype Result = Ok(instructions: seq<Instruction>) | Refused | Thrown

  function Prepend(front: seq<Instruction>, r: Result): Result {
    if r.Ok? then Ok(front + r.instructions) else r
  }

  /** The line after a repeat line is its target, whatever its opcode. */
  function CompileLines(lines: seq<string>, serial: Serial): Result
    decreases lines
  {
    if lines == [] then Ok([])
    else
      match ParseLine(lines[0])
      case Skipped => CompileLines(lines[1..], serial)
      case Unreadable => Thrown
      case Heard(op, address, value) =>
        if serial.Serial? then
          Prepend(SerialWrites(serial, address, value, 0), CompileLines(lines[1..], NoSerial))
        else match op
          case Plain(i) => Prepend([i], CompileLines(lines[1..], NoSerial))
          case Repeat(n, o, d) => CompileLines(lines[1..], Serial(n, o, d))
          case Illegal => Refused
  }

  /** What a code compiles to. */
  function CompileText(code: string): Result {
    CompileLines(Lines(code), NoSerial)
  }

  lemma PrependMore(x: seq<Instruction>, y: seq<Instruction>, r: Result)
    ensures Prepend(x + y, r) == Prepend(x, Prepend(y, r))
  {
    if r.Ok? {
      assert x + y + r.instructions == x + (y + r.instructions);
    }
  }

  lemma PrependNone(r: Result)
    ensures Prepend([], r) == r
  {
    if r.Ok? {
      assert [] + r.instructions == r.instructions;
    }
  }

  /** The writes of a serial line, appended one by one. */
  method AppendSerial(instructions: seq<Instruction>, serial: Serial, address: nat, value: nat)
    returns (r: seq<Instruction>)
    requires serial.Serial?
    ensures r == instructions + SerialWrites(serial, address, value, 0)
  {
    hide SerialWrite;
    r := instructions;
    for i := 0 to serial.count
      invariant r + SerialWrites(serial, address, value, i) == instructions + SerialWrites(serial, address, value, 0)
    {
      SeqAssoc(r, [SerialWrite(serial, address, value, i)], SerialWrites(serial, address, value, i + 1));
      r := r + [SerialWrite(serial, address, value, i)];
    }
    SeqEmpty(r);
  }

  /** `core_cht_compile`. */
  method Compile(code: string) returns (r: Result)
    ensures r == CompileText(code)
  {
    hide ParseLine, SerialWrites, Prepend;
    var lines := SplitText(code, "\n");
    var instructions: seq<Instruction> := [];
    var serial := NoSerial;
    assert lines[0..] == lines;
    PrependNone(CompileText(code));
    for i := 0 to |lines|
      invariant CompileText(code) == Prepend(instructions, CompileLines(lines[i..], serial))
    {
      assert lines[i..][0] == lines[i] && lines[i..][1..] == lines[i + 1..];
      var rest := lines[i + 1..];
      var line := ParseLine(lines[i]);
      if line.Skipped? {
        continue;
      }
      if line.Unreadable? {
        assert Prepend(instructions, Thrown) == Thrown by { PrependFails(instructions); }
        return Thrown;
      }
      if serial.Serial? {
        PrependMore(instructions, SerialWrites(serial, line.address, line.value, 0), CompileLines(rest, NoSerial));
        instructions := AppendSerial(instructions, serial, line.address, line.value);
        serial := NoSerial;
        continue;
      }
      if line.op.Plain? {
        PrependMore(instructions, [line.op.instruction], CompileLines(rest, NoSerial));
        instructions := instructions + [line.op.instruction];
      } else if line.op.Repeat? {
        serial := Serial(line.op.count, line.op.offset, line.op.diff);
      } else {
        assert Prepend(instructions, Refused) == Refused by { PrependFails(instructions); }
        return Refused;
      }
    }
    assert lines[|lines|..] == [];
    assert Prepend(instructions, Ok([])) == Ok(instructions) by { PrependLast(instructions); }
    r := Ok(instructions);
  }

  lemma PrependFails(front: seq<Instruction>)
    ensures Prepend(front, Thrown) == Thrown && Prepend(front, Refused) == Refused
  {
  }

  lemma PrependLast(front: seq<Instruction>)
    ensures Prepend(front, Ok([])) == Ok(front)
  {
  }

  // ---------------------------------------------------------------- skipped lines

  /** The lines that the compiler looks at. */
  function Heeded(lines: seq<string>): seq<string> {
    if lines == [] then [] else (if SkipLine(lines[0]) then [] else [lines[0]]) + Heeded(lines[1..])
  }

  lemma {:induction false} HeededConcat(x: seq<string>, y: seq<string>)
    ensures Heeded(x + y) == Heeded(x) + Heeded(y)
  {
    hide SkipLine;
    if x == [] {
      assert x + y == y;
    } else {
      assert (x + y)[1..] == x[1..] + y;
      HeededConcat(x[1..], y);
    }
  }

  /** Compiling does not see skipped lines. */
  lemma {:induction false} CompileHeeded(lines: seq<string>, serial: Serial)
    ensures CompileLines(Heeded(lines), serial) == CompileLines(lines, serial)
    decreases lines
  {
    if lines != [] {
      var rest := Heeded(lines[1..]);
      if SkipLine(lines[0]) {
        assert [] + rest == rest;
        CompileHeeded(lines[1..], serial);
      } else {
        assert ([lines[0]] + rest)[1..] == rest;
        assert !ParseLine(lines[0]).Skipped?;
        hide ParseLine, SkipLine, Prepend, SerialWrites;
        CompileHeeded(lines[1..], NoSerial);
        var line := ParseLine(lines[0]);
        if line.Heard? && line.op.Repeat? {
          CompileHeeded(lines[1..], Serial(line.op.count, line.op.offset, line.op.diff));
        }
      }
    }
  }

  /** Codes with the same heeded lines compile alike. */
  lemma SameHeeded(x: seq<string>, y: seq<string>)
    requires Heeded(x) == Heeded(y)
    ensures CompileLines(x, NoSerial) == CompileLines(y, NoSerial)
  {
    CompileHeeded(x, NoSerial);
    CompileHeeded(y, NoSerial);
  }
}

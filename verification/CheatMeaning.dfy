/** What a code written in hexadecimal digits says, spelled out digit by digit and on the
    bus. */
module CheatMeaning {
  import opened Options
  import opened IniText
  import opened SplitString
  import opened CheatCompiler
  import opened CheatExec

  // ---------------------------------------------------------------- numbers

  /** The character is digit `n` in either case. */
  predicate IsDigit(c: char, n: nat) {
    if n < 10 then c as int == '0' as int + n
    else n < 16 && (c as int == 'A' as int + n - 10 || c as int == 'a' as int + n - 10)
  }

  lemma DigitValue(c: char, n: nat)
    requires IsDigit(c, n)
    ensures HexDigit(c) == Some(n) && !IsBlank(c) && c != '-' && c != '+' && c != 'x' && c != 'X'
  {
  }

  lemma DigitSmall(c: char, n: nat)
    requires IsDigit(c, n)
    ensures n < 16
  {
  }

  /** Digits that continue a number. */
  lemma DigitsStep(s: string, so: nat, n: nat)
    requires s != [] && IsDigit(s[0], n)
    ensures Digits(s, so) == Digits(s[1..], 16 * so + n)
  {
    DigitValue(s[0], n);
  }

  lemma DigitsEnd(so: nat)
    ensures Digits("", so) == so
  {
  }

  lemma FourDigits(s: string, d: seq<nat>, so: nat)
    requires |s| == |d| == 4 && forall i :: 0 <= i < 4 ==> IsDigit(s[i], d[i])
    ensures Digits(s, so) == 16 * (16 * (16 * (16 * so + d[0]) + d[1]) + d[2]) + d[3]
  {
    hide IsDigit, Digits;
    var t1, t2, t3, t4 := s[1..], s[2..], s[3..], s[4..];
    assert t1[1..] == t2 && t2[1..] == t3 && t3[1..] == t4 && t4 == "";
    DigitsStep(s, so, d[0]);
    DigitsStep(t1, 16 * so + d[0], d[1]);
    DigitsStep(t2, 16 * (16 * so + d[0]) + d[1], d[2]);
    DigitsStep(t3, 16 * (16 * (16 * so + d[0]) + d[1]) + d[2], d[3]);
    DigitsEnd(16 * (16 * (16 * (16 * so + d[0]) + d[1]) + d[2]) + d[3]);
  }

  /** A text that starts with two digits is read as plain digits. */
  lemma PlainNumber(s: string, m: nat, n: nat)
    requires |s| >= 2 && IsDigit(s[0], m) && IsDigit(s[1], n)
    ensures ParseHex(s) == Some(Digits(s, 0) % WORD)
  {
    DigitValue(s[0], m);
    DigitValue(s[1], n);
    hide Digits, HexDigit;
    assert SkipBlanks(s) == s;
  }

  /** The number that four digits write. */
  function Four(d: seq<nat>): nat
    requires |d| == 4
  {
    d[0] * 0x1000 + d[1] * 0x100 + d[2] * 0x10 + d[3]
  }

  function Six(d: seq<nat>): nat
    requires |d| == 6
  {
    d[0] * 0x10_0000 + d[1] * 0x1_0000 + d[2] * 0x1000 + d[3] * 0x100 + d[4] * 0x10 + d[5]
  }

  lemma FourSum(d: seq<nat>)
    requires |d| == 4 && d[0] < 16 && d[1] < 16 && d[2] < 16 && d[3] < 16
    ensures 16 * (16 * (16 * d[0] + d[1]) + d[2]) + d[3] == Four(d) < 0x1_0000
  {
  }

  lemma SixSum(d: seq<nat>)
    requires |d| == 6 && d[0] < 16 && d[1] < 16 && d[2] < 16 && d[3] < 16 && d[4] < 16 && d[5] < 16
    ensures 16 * (16 * (16 * (16 * (16 * d[0] + d[1]) + d[2]) + d[3]) + d[4]) + d[5] == Six(d) < 0x100_0000
  {
  }

  lemma FourNumber(s: string, d: seq<nat>)
    requires |s| == |d| == 4 && forall i :: 0 <= i < 4 ==> IsDigit(s[i], d[i])
    ensures ParseHex(s) == Some(Four(d)) && Four(d) < 0x1_0000
  {
    hide IsDigit, ParseHex, Digits, Four;
    forall i | 0 <= i < 4 ensures d[i] < 16 { DigitSmall(s[i], d[i]); }
    FourSum(d);
    PlainNumber(s, d[0], d[1]);
    FourDigits(s, d, 0);
  }

  lemma SixDigits(s: string, d: seq<nat>)
    requires |s| == |d| == 6 && forall i :: 0 <= i < 6 ==> IsDigit(s[i], d[i])
    ensures Digits(s, 0) == 16 * (16 * (16 * (16 * (16 * d[0] + d[1]) + d[2]) + d[3]) + d[4]) + d[5]
  {
    hide IsDigit, Digits;
    var t, e := s[2..], d[2..];
    assert s[1..][1..] == t;
    assert forall i :: 0 <= i < 4 ==> t[i] == s[i + 2] && e[i] == d[i + 2];
    DigitsStep(s, 0, d[0]);
    DigitsStep(s[1..], d[0], d[1]);
    FourDigits(t, e, 16 * d[0] + d[1]);
  }

  lemma SixNumber(s: string, d: seq<nat>)
    requires |s| == |d| == 6 && forall i :: 0 <= i < 6 ==> IsDigit(s[i], d[i])
    ensures ParseHex(s) == Some(Six(d)) && Six(d) < 0x100_0000
  {
    hide IsDigit, ParseHex, Digits, Six;
    forall i | 0 <= i < 6 ensures d[i] < 16 { DigitSmall(s[i], d[i]); }
    SixSum(d);
    PlainNumber(s, d[0], d[1]);
    SixDigits(s, d);
  }

  /** What may stand around the digits of a number: blanks, a sign and `0x` before them, and
      anything that is not a digit behind them. A minus gives the complement in 32 bits. */
  lemma NumberMeans(s: string, m: nat)
    requires s != [] && IsDigit(s[0], m) && (|s| >= 2 ==> s[1] != 'x' && s[1] != 'X')
    ensures ParseHex(s) == Some(Digits(s, 0) % WORD)
    ensures ParseHex("0x" + s) == ParseHex(s) && ParseHex("0X" + s) == ParseHex(s) && ParseHex("+" + s) == ParseHex(s)
    ensures ParseHex("-" + s).Some? && (ParseHex("-" + s).value + Digits(s, 0)) % WORD == 0
  {
    hide Digits, HexDigit, IsDigit, Magnitude, ParseHex;
    DigitValue(s[0], m);
    MagnitudeIs(s);
    var n := Digits(s, 0);
    UnsignedHex(s, n);
    HexPrefix(s, n);
    SignedHex("+", s, n);
    SignedHex("-", s, n);
    Complement(n);
  }

  lemma HexPrefix(s: string, n: nat)
    requires Magnitude("0x" + s) == Magnitude("0X" + s) == Some(n)
    ensures ParseHex("0x" + s) == Some(n % WORD) && ParseHex("0X" + s) == Some(n % WORD)
  {
    hide Magnitude, ParseHex;
    UnsignedHex("0x" + s, n);
    UnsignedHex("0X" + s, n);
  }

  lemma Complement(n: nat)
    ensures ((0 - n) % WORD + n) % WORD == 0
  {
  }

  lemma UnsignedHex(t: string, n: nat)
    requires t != [] && !IsBlank(t[0]) && t[0] != '+' && t[0] != '-' && Magnitude(t) == Some(n)
    ensures ParseHex(t) == Some(n % WORD)
  {
    hide Magnitude, SkipBlanks;
    NotBlankStart(t);
  }

  lemma SignedHex(sign: string, t: string, n: nat)
    requires (sign == "+" || sign == "-") && Magnitude(t) == Some(n)
    ensures ParseHex(sign + t) == Some(if sign == "-" then (0 - n) % WORD else n % WORD)
  {
    var x := sign + t;
    assert x[0] == sign[0] && x[1..] == t;
    hide Magnitude, SkipBlanks;
    NotBlankStart(x);
  }

  lemma NotBlankStart(s: string)
    requires s != [] && !IsBlank(s[0])
    ensures SkipBlanks(s) == s
  {
  }

  lemma MagnitudeIs(s: string)
    requires s != [] && HexDigit(s[0]).Some? && (|s| >= 2 ==> s[1] != 'x' && s[1] != 'X')
    ensures Magnitude(s) == Magnitude("0x" + s) == Magnitude("0X" + s) == Some(Digits(s, 0))
  {
    hide Digits, HexDigit;
    assert ("0x" + s)[2..] == s && ("0X" + s)[2..] == s;
  }

  lemma LeadingBlank(c: char, s: string)
    requires c == ' ' || 9 <= c as int <= 13
    ensures ParseHex([c] + s) == ParseHex(s)
  {
    assert ([c] + s)[1..] == s;
  }

  lemma TrailingText(s: string, so: nat)
    requires s == [] || s[0] !in "0123456789abcdefABCDEF"
    ensures Digits(s, so) == so
  {
    if s != [] { NotADigit(s[0]); }
  }

  // ---------------------------------------------------------------- lines

  /** A line of two opcode characters, six digits of an address, a separator and four digits
      of a value: behind a space at once, otherwise one character later. */
  ghost predicate Writes(line: string, op: string, a: seq<nat>, v: seq<nat>) {
    var at := if |line| > 8 && line[8] == ' ' then 9 else 10;
    && |op| == 2 && |a| == 6 && |v| == 4 && |line| >= at + 4 && '\n' !in line
    && line[0] == op[0] && line[1] == op[1] && op[0] != '$' && op[0] != '-'
    && (forall i :: 0 <= i < 6 ==> IsDigit(line[2 + i], a[i]))
    && (forall i :: 0 <= i < 4 ==> IsDigit(line[at + i], v[i]))
  }

  lemma SubIs(line: string, from: nat, n: nat)
    requires from + n <= |line|
    ensures Sub(line, from, n) == line[from..from + n]
  {
  }

  lemma OpcodeIs(line: string, op: string)
    requires |line| >= 2 && |op| == 2 && line[0] == op[0] && line[1] == op[1]
    ensures line[0..2] == op
  {
  }

  lemma AddressPart(line: string, a: seq<nat>)
    requires |line| >= 8 && |a| == 6 && forall i :: 0 <= i < 6 ==> IsDigit(line[2 + i], a[i])
    ensures ParseHex(Sub(line, 2, 6)) == Some(Six(a)) && Six(a) < 0x100_0000
  {
    hide IsDigit, ParseHex, Six;
    var x := line[2..8];
    assert forall i :: 0 <= i < 6 ==> x[i] == line[2 + i];
    SixNumber(x, a);
  }

  lemma ValuePart(line: string, at: nat, v: seq<nat>)
    requires |line| >= at + 4 && |v| == 4 && forall i :: 0 <= i < 4 ==> IsDigit(line[at + i], v[i])
    ensures ParseHex(Sub(line, at, 4)) == Some(Four(v)) && Four(v) < 0x1_0000
  {
    hide IsDigit, ParseHex, Four;
    var y := line[at..at + 4];
    assert forall i :: 0 <= i < 4 ==> y[i] == line[at + i];
    FourNumber(y, v);
  }

  lemma LineParses(line: string, op: string, a: seq<nat>, v: seq<nat>)
    requires Writes(line, op, a, v)
    ensures ParseLine(line) == Heard(Decode(op, Six(a), Four(v)), Six(a), Four(v))
    ensures Six(a) < 0x100_0000 && Four(v) < 0x1_0000
  {
    hide IsDigit, ParseHex, Decode, Six, Four, Sub;
    AddressPart(line, a);
    ValuePart(line, if line[8] == ' ' then 9 else 10, v);
    SubIs(line, 0, 2);
    OpcodeIs(line, op);
  }

  /** What one line compiles to. */
  lemma OneHeard(line: string, o: Operation, address: nat, value: nat)
    requires '\n' !in line && ParseLine(line) == Heard(o, address, value)
    ensures CompileText(line) == match o case Plain(i) => Ok([i]) case Repeat(_, _, _) => Ok([]) case Illegal => Refused
  {
    OneLine(line);
    hide ParseLine, Lines;
    var none: seq<string> := [];
    var t := [line];
    assert t[0] == line && t[1..] == none;
    match o
    case Plain(i) =>
      assert CompileLines(none, NoSerial) == Ok([]);
      PrependLast([i]);
    case Repeat(n, f, d) => assert CompileLines(none, Serial(n, f, d)) == Ok([]);
    case Illegal =>
  }

  lemma OpcodeTable(op: string, address: nat, value: nat)
    requires value < 0x1_0000
    ensures var r := Decode(op, address, value);
            && (op == "80" || op == "A0" ==> r == Plain(WriteByte(address, value % 256)))
            && (op == "81" || op == "A1" ==> r == Plain(WriteHalf(address, value)))
            && (op == "88" ==> r == Plain(ButtonByte(address, value % 256)))
            && (op == "89" ==> r == Plain(ButtonHalf(address, value)))
            && (op == "D0" ==> r == Plain(ByteEqual(address, value % 256)))
            && (op == "D1" ==> r == Plain(HalfEqual(address, value)))
            && (op == "D2" ==> r == Plain(ByteDiffers(address, value % 256)))
            && (op == "D3" ==> r == Plain(HalfDiffers(address, value)))
            && (op == "50" <==> r.Repeat?)
            && (op !in ["80", "A0", "81", "A1", "88", "89", "D0", "D1", "D2", "D3", "50"] ==> r == Illegal)
  {
  }

  /** What a code of one line with this opcode compiles to. */
  ghost predicate Says(op: string, address: nat, value: nat, r: Result) {
    && (op == "80" || op == "A0" ==> r == Ok([WriteByte(address, value % 256)]))
    && (op == "81" || op == "A1" ==> r == Ok([WriteHalf(address, value)]))
    && (op == "88" ==> r == Ok([ButtonByte(address, value % 256)]))
    && (op == "89" ==> r == Ok([ButtonHalf(address, value)]))
    && (op == "D0" ==> r == Ok([ByteEqual(address, value % 256)]))
    && (op == "D1" ==> r == Ok([HalfEqual(address, value)]))
    && (op == "D2" ==> r == Ok([ByteDiffers(address, value % 256)]))
    && (op == "D3" ==> r == Ok([HalfDiffers(address, value)]))
    && (op == "50" ==> r == Ok([]))
    && (op !in ["80", "A0", "81", "A1", "88", "89", "D0", "D1", "D2", "D3", "50"] ==> r == Refused)
  }

  lemma LineSays(line: string, op: string, a: seq<nat>, v: seq<nat>)
    requires Writes(line, op, a, v)
    ensures Says(op, Six(a), Four(v), CompileText(line))
  {
    hide ParseLine, CompileText, Decode, Digits;
    var address, value := Six(a), Four(v);
    LineParses(line, op, a, v);
    hide Writes, Six, Four;
    OpcodeTable(op, address, value);
    OneHeard(line, Decode(op, address, value), address, value);
  }

  /** A code of one line, by its opcode. */
  lemma LineMeans(line: string, op: string, a: seq<nat>, v: seq<nat>)
    requires Writes(line, op, a, v)
    ensures var r := CompileText(line);
            var address := a[0] * 0x10_0000 + a[1] * 0x1_0000 + a[2] * 0x1000 + a[3] * 0x100 + a[4] * 0x10 + a[5];
            var value := v[0] * 0x1000 + v[1] * 0x100 + v[2] * 0x10 + v[3];
            && (op == "80" || op == "A0" ==> r == Ok([WriteByte(address, value % 256)]))
            && (op == "81" || op == "A1" ==> r == Ok([WriteHalf(address, value)]))
            && (op == "88" ==> r == Ok([ButtonByte(address, value % 256)]))
            && (op == "89" ==> r == Ok([ButtonHalf(address, value)]))
            && (op == "D0" ==> r == Ok([ByteEqual(address, value % 256)]))
            && (op == "D1" ==> r == Ok([HalfEqual(address, value)]))
            && (op == "D2" ==> r == Ok([ByteDiffers(address, value % 256)]))
            && (op == "D3" ==> r == Ok([HalfDiffers(address, value)]))
            && (op == "50" ==> r == Ok([]))
            && (op !in ["80", "A0", "81", "A1", "88", "89", "D0", "D1", "D2", "D3", "50"] ==> r == Refused)
  {
    hide CompileText;
    LineSays(line, op, a, v);
    hide Writes;
  }

  // ---------------------------------------------------------------- several lines

  lemma TwoLines(x: string, y: string)
    requires '\n' !in x && '\n' !in y
    ensures CompileText(x + "\n" + y) == CompileLines([x, y], NoSerial)
  {
    hide CompileLines, Lines;
    LinesConcat(x, y);
    OneLine(x);
    OneLine(y);
    assert x + "\n" + y == x + ("\n" + y) && [x] + [y] == [x, y];
  }

  /** The bytes of a repeated write, one by one. */
  lemma {:induction false} SerialBytes(s: Serial, address: nat, value: nat, i: nat)
    requires s.Serial? && i <= s.count
    ensures var w := SerialWrites(s, address, value, i);
            && |w| == s.count - i
            && forall j :: 0 <= j < |w| ==>
               w[j] == WriteByte(address + s.offset * (i + j), (value + s.diff * (i + j)) % 256)
    decreases s.count - i
  {
    if i < s.count {
      SerialBytes(s, address, value, i + 1);
      var rest := SerialWrites(s, address, value, i + 1);
      var w := SerialWrites(s, address, value, i);
      forall j | 0 <= j < |w|
        ensures w[j] == WriteByte(address + s.offset * (i + j), (value + s.diff * (i + j)) % 256)
      {
        if j > 0 {
          assert w[j] == rest[j - 1];
          assert (i + 1) + (j - 1) == i + j;
        }
      }
    }
  }

  lemma RepeatDecodes(a: seq<nat>, diff: nat)
    requires |a| == 6 && forall i :: 0 <= i < 6 ==> a[i] < 16
    ensures Decode("50", Six(a), diff) == Repeat(a[2] * 16 + a[3], a[4] * 16 + a[5], diff)
  {
    var hi, mid, lo := a[0] * 16 + a[1], a[2] * 16 + a[3], a[4] * 16 + a[5];
    assert Six(a) == 0x100 * (0x100 * hi + mid) + lo;
    hide Six;
    ByteFields(0x100 * hi + mid, lo);
    ByteFields(hi, mid);
  }

  lemma ByteFields(x: nat, lo: nat)
    requires lo < 0x100
    ensures (0x100 * x + lo) / 0x100 == x && (0x100 * x + lo) % 0x100 == lo
  {
  }

  lemma RepeatCompiles(x: string, y: string, n: nat, o: nat, f: nat, address: nat, value: nat, op: Operation,
                       a: nat, v: nat)
    requires ParseLine(x) == Heard(Repeat(n, o, f), a, v) && ParseLine(y) == Heard(op, address, value)
    ensures CompileLines([x, y], NoSerial) == Ok(SerialWrites(Serial(n, o, f), address, value, 0))
  {
    hide ParseLine, SerialWrites;
    var none: seq<string> := [];
    assert [x, y][1..] == [y] && [y][1..] == none;
    assert CompileLines(none, NoSerial) == Ok([]);
    PrependLast(SerialWrites(Serial(n, o, f), address, value, 0));
  }

  /** A repeat line with count c, offset o and difference f before a target line, whatever the
      opcode of that: byte i goes to address + o * i with the value (value + f * i) mod 256,
      for exactly i < c. */
  lemma RepeatMeans(x: string, y: string, op: string, a: seq<nat>, f: seq<nat>, b: seq<nat>, v: seq<nat>)
    requires Writes(x, "50", a, f) && Writes(y, op, b, v)
    ensures var r := CompileText(x + "\n" + y);
            var count, offset := a[2] * 16 + a[3], a[4] * 16 + a[5];
            var diff := f[0] * 0x1000 + f[1] * 0x100 + f[2] * 0x10 + f[3];
            var address := b[0] * 0x10_0000 + b[1] * 0x1_0000 + b[2] * 0x1000 + b[3] * 0x100 + b[4] * 0x10 + b[5];
            var value := v[0] * 0x1000 + v[1] * 0x100 + v[2] * 0x10 + v[3];
            && r.Ok? && |r.instructions| == count
            && forall i :: 0 <= i < |r.instructions| ==>
               var w := r.instructions[i];
               w.WriteByte? && w.address == address + offset * i && w.value == (value + diff * i) % 256
  {
    hide IsDigit, ParseLine, CompileText, Decode, SerialWrites, CompileLines;
    LineParses(x, "50", a, f);
    LineParses(y, op, b, v);
    forall i | 0 <= i < 6 ensures a[i] < 16 { DigitSmall(x[2 + i], a[i]); }
    RepeatDecodes(a, Four(f));
    TwoLines(x, y);
    var serial := Serial(a[2] * 16 + a[3], a[4] * 16 + a[5], Four(f));
    RepeatCompiles(x, y, serial.count, serial.offset, serial.diff, Six(b), Four(v), Decode(op, Six(b), Four(v)),
                   Six(a), Four(f));
    SerialBytes(serial, Six(b), Four(v), 0);
  }

  lemma {:induction false} CompileJoined(x: seq<string>, y: seq<string>)
    requires forall i :: 0 <= i < |x| ==> ParseLine(x[i]).Heard? && ParseLine(x[i]).op.Plain?
    ensures CompileLines(x + y, NoSerial)
            == Prepend(seq(|x|, i requires 0 <= i < |x| => ParseLine(x[i]).op.instruction), CompileLines(y, NoSerial))
  {
    hide ParseLine;
    var all := seq(|x|, i requires 0 <= i < |x| => ParseLine(x[i]).op.instruction);
    if x == [] {
      assert x + y == y;
      PrependNone(CompileLines(y, NoSerial));
    } else {
      var rest := x[1..];
      var more := seq(|rest|, i requires 0 <= i < |rest| => ParseLine(rest[i]).op.instruction);
      assert (x + y)[1..] == rest + y;
      CompileJoined(rest, y);
      assert all == [all[0]] + more;
      PrependMore([all[0]], more, CompileLines(y, NoSerial));
    }
  }

  /** A character that no number starts with. */
  predicate NoNumber(c: char) {
    c !in "0123456789abcdefABCDEF +-" && !('\t' <= c <= '\r')
  }

  /** Lines that are not instructions, and lines without a number where the address is. */
  lemma OtherLines(line: string)
    requires '\n' !in line
    ensures |line| < 13 || line[0] == '$' || line[0] == '-' ==> CompileText(line) == Ok([])
    ensures (|line| >= 13 && line[0] != '$' && line[0] != '-' && NoNumber(line[2])) ==> CompileText(line) == Thrown
  {
    OneLine(line);
    var none: seq<string> := [];
    var t := [line];
    assert t[0] == line && t[1..] == none && CompileLines(none, NoSerial) == Ok([]);
    hide Lines;
    if |line| >= 13 && NoNumber(line[2]) {
      NotANumber(line[2..8]);
    }
  }

  lemma NotANumber(s: string)
    requires s != [] && NoNumber(s[0])
    ensures ParseHex(s) == None
  {
    var c := s[0];
    assert HexDigit(c).None? by { NotADigit(c); }
    assert !IsBlank(c);
    hide HexDigit;
  }

  lemma DigitIsListed(c: char)
    requires HexDigit(c).Some?
    ensures c in "0123456789abcdefABCDEF"
  {
    var all, n := "0123456789abcdefABCDEF", HexDigit(c).value;
    assert c == all[n] || (10 <= n && c == all[n + 6]);
  }

  lemma NotADigit(c: char)
    requires c !in "0123456789abcdefABCDEF"
    ensures HexDigit(c).None?
  {
    if HexDigit(c).Some? { DigitIsListed(c); }
  }

  /** A code of several one-instruction lines: one instruction per line, in order. */
  lemma CodeMeans(lines: seq<string>) returns (all: seq<Instruction>)
    requires lines != [] && forall k :: 0 <= k < |lines| ==> '\n' !in lines[k] && CompileText(lines[k]).Ok?
    requires forall k :: 0 <= k < |lines| ==> |CompileText(lines[k]).instructions| == 1
    ensures CompileText(Join(lines, "\n")) == Ok(all) && |all| == |lines|
    ensures forall k :: 0 <= k < |lines| ==> CompileText(lines[k]) == Ok([all[k]])
  {
    SplitJoin(lines);
    forall k | 0 <= k < |lines|
      ensures ParseLine(lines[k]).Heard? && ParseLine(lines[k]).op.Plain?
              && CompileText(lines[k]) == Ok([ParseLine(lines[k]).op.instruction])
    {
      SingleIsPlain(lines[k]);
    }
    hide CompileText, ParseLine, Lines;
    all := seq(|lines|, i requires 0 <= i < |lines| => ParseLine(lines[i]).op.instruction);
    CompileJoined(lines, []);
    assert lines + [] == lines;
    assert CompileText(Join(lines, "\n")) == CompileLines(lines, NoSerial) by { TextIsLines(Join(lines, "\n")); }
    assert CompileLines([], NoSerial) == Ok([]);
    PrependLast(all);
  }

  lemma TextIsLines(code: string)
    ensures CompileText(code) == CompileLines(Lines(code), NoSerial)
  {
  }

  lemma SingleIsPlain(line: string)
    requires '\n' !in line && CompileText(line).Ok? && |CompileText(line).instructions| == 1
    ensures ParseLine(line).Heard? && ParseLine(line).op.Plain?
    ensures CompileText(line) == Ok([ParseLine(line).op.instruction])
  {
    OneLine(line);
    hide Lines, ParseLine;
    var none: seq<string> := [];
    var t, p := [line], ParseLine(line);
    assert t[0] == line && t[1..] == none;
    NoLines(NoSerial);
    if p.Heard? && p.op.Plain? { PrependLast([p.op.instruction]); }
    if p.Heard? && p.op.Repeat? { NoLines(Serial(p.op.count, p.op.offset, p.op.diff)); }
  }

  lemma NoLines(serial: Serial)
    ensures CompileLines([], serial) == Ok([])
  {
  }

  // ---------------------------------------------------------------- on the bus

  /** The execution loop, turn by turn, on the bus: a write stores the byte or halfword it was
      given where it was given, one of the button kind only while the button is pressed; a
      test compares what it loads with its value; after a failed test writes are held back
      until one has been skipped. */
  lemma TurnMeans<M>(bus: Bus<M>, button: bool, code: seq<Instruction>, m: M, k: nat)
    requires k < |code|
    ensures Exec(bus, button, Machine(m, true), []) == Machine(m, true)
    ensures var x := Exec(bus, button, Machine(m, true), code[..k]);
            var y := Exec(bus, button, Machine(m, true), code[..k + 1]);
            var i := code[k];
            var test := i.ByteEqual? || i.HalfEqual? || i.ByteDiffers? || i.HalfDiffers?;
            && (!x.execute || test ==> y.mem == x.mem)
            && (x.execute && i.WriteByte? ==> y.mem == bus.storeByte(x.mem, i.address, i.value))
            && (x.execute && i.WriteHalf? ==> y.mem == bus.storeHalf(x.mem, i.address, i.value))
            && (x.execute && i.ButtonByte? ==>
                y.mem == if button then bus.storeByte(x.mem, i.address, i.value) else x.mem)
            && (x.execute && i.ButtonHalf? ==>
                y.mem == if button then bus.storeHalf(x.mem, i.address, i.value) else x.mem)
            && (!test ==> y.execute)
            && (test && !x.execute ==> !y.execute)
            && (x.execute && i.ByteEqual? ==> (y.execute <==> bus.loadByte(x.mem, i.address) == i.value))
            && (x.execute && i.HalfEqual? ==> (y.execute <==> bus.loadHalf(x.mem, i.address) == i.value))
            && (x.execute && i.ByteDiffers? ==> (y.execute <==> bus.loadByte(x.mem, i.address) != i.value))
            && (x.execute && i.HalfDiffers? ==> (y.execute <==> bus.loadHalf(x.mem, i.address) != i.value))
  {
    ExecMore(bus, button, Machine(m, true), code, k);
    ExecNothing(bus, button, Machine(m, true));
    hide Exec;
  }

  /** A test passes: what it loads equals its value, or differs from it. */
  predicate Passes<M>(bus: Bus<M>, t: Instruction, m: M) {
    match t
    case ByteEqual(a, v) => bus.loadByte(m, a) == v
    case HalfEqual(a, v) => bus.loadHalf(m, a) == v
    case ByteDiffers(a, v) => bus.loadByte(m, a) != v
    case HalfDiffers(a, v) => bus.loadHalf(m, a) != v
    case _ => false
  }

  /** What a write stores. */
  function Stored<M>(bus: Bus<M>, button: bool, w: Instruction, m: M): M {
    match w
    case WriteByte(a, v) => bus.storeByte(m, a, v)
    case WriteHalf(a, v) => bus.storeHalf(m, a, v)
    case ButtonByte(a, v) => if button then bus.storeByte(m, a, v) else m
    case ButtonHalf(a, v) => if button then bus.storeHalf(m, a, v) else m
    case _ => m
  }

  /** A test and a write, run. */
  method TestThenWrite<M>(bus: Bus<M>, button: bool, t: Instruction, w: Instruction, m: M) returns (after: M)
    requires t.ByteEqual? || t.HalfEqual? || t.ByteDiffers? || t.HalfDiffers?
    requires w.WriteByte? || w.WriteHalf? || w.ButtonByte? || w.ButtonHalf?
    ensures after == Exec(bus, button, Machine(m, true), [t, w]).mem
    ensures after == if Passes(bus, t, m) then Stored(bus, button, w, m) else m
  {
    var code := [t, w];
    assert code[..0] == [] && code[..1] == [t] && code[..2] == code;
    hide Exec;
    TurnMeans(bus, button, code, m, 0);
    TurnMeans(bus, button, code, m, 1);
    after := RunCheat(bus, button, code, m);
  }

  /** A line with a test opcode passes. */
  predicate OpPasses<M>(bus: Bus<M>, op: string, address: nat, value: nat, m: M) {
    || (op == "D0" && bus.loadByte(m, address) == value % 256)
    || (op == "D1" && bus.loadHalf(m, address) == value)
    || (op == "D2" && bus.loadByte(m, address) != value % 256)
    || (op == "D3" && bus.loadHalf(m, address) != value)
  }

  /** What a line with a write opcode stores. */
  function OpStores<M>(bus: Bus<M>, button: bool, op: string, address: nat, value: nat, m: M): M {
    if op == "80" || op == "A0" || (op == "88" && button) then bus.storeByte(m, address, value % 256)
    else if op == "81" || op == "A1" || (op == "89" && button) then bus.storeHalf(m, address, value)
    else m
  }

  lemma TestLine<M>(bus: Bus<M>, line: string, op: string, a: seq<nat>, v: seq<nat>, m: M) returns (i: Instruction)
    requires Writes(line, op, a, v) && op in ["D0", "D1", "D2", "D3"]
    ensures CompileText(line) == Ok([i]) && (i.ByteEqual? || i.HalfEqual? || i.ByteDiffers? || i.HalfDiffers?)
    ensures Passes(bus, i, m) <==> OpPasses(bus, op, Six(a), Four(v), m)
  {
    hide CompileText, Six, Four;
    LineSays(line, op, a, v);
    hide Writes;
    i := CompileText(line).instructions[0];
  }

  lemma WriteLine<M>(bus: Bus<M>, button: bool, line: string, op: string, a: seq<nat>, v: seq<nat>, m: M)
    returns (i: Instruction)
    requires Writes(line, op, a, v) && op in ["80", "A0", "81", "A1", "88", "89"]
    ensures CompileText(line) == Ok([i]) && (i.WriteByte? || i.WriteHalf? || i.ButtonByte? || i.ButtonHalf?)
    ensures Stored(bus, button, i, m) == OpStores(bus, button, op, Six(a), Four(v), m)
  {
    hide CompileText, Six, Four;
    LineSays(line, op, a, v);
    hide Writes;
    i := CompileText(line).instructions[0];
  }

  /** A code of two lines, a test and a write, from its digits to the memory: the write is
      there if and only if the loaded byte or halfword equals the value of the test (D0, D1)
      or differs from it (D2, D3). */
  method RunGuardedCode<M>(bus: Bus<M>, button: bool, x: string, y: string, op: string, a: seq<nat>, v: seq<nat>,
                           op2: string, b: seq<nat>, w: seq<nat>, m: M)
    returns (r: Result, after: M)
    requires Writes(x, op, a, v) && op in ["D0", "D1", "D2", "D3"]
    requires Writes(y, op2, b, w) && op2 in ["80", "A0", "81", "A1", "88", "89"]
    ensures r == CompileText(x + "\n" + y) && r.Ok?
    ensures after == if OpPasses(bus, op, Six(a), Four(v), m) then OpStores(bus, button, op2, Six(b), Four(w), m) else m
  {
    r := Compile(x + "\n" + y);
    assert '\n' !in x && '\n' !in y;
    ghost var t := TestLine(bus, x, op, a, v, m);
    ghost var u := WriteLine(bus, button, y, op2, b, w, m);
    hide CompileText, Writes, Passes, Stored, OpPasses, OpStores, Six, Four;
    ghost var all := CodeMeans([x, y]);
    JoinTwo(x, y);
    assert r.instructions == [t, u];
    after := TestThenWrite(bus, button, r.instructions[0], r.instructions[1], m);
  }

  lemma JoinTwo(x: string, y: string)
    ensures Join([x, y], "\n") == x + "\n" + y
  {
    assert [x, y][1..] == [y];
    assert x + ("\n" + y) == x + "\n" + y;
  }
}

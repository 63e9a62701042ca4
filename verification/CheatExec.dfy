/** Running compiled cheats over an abstract memory. */
module CheatExec {
  import opened IniText
  import opened SplitString
  import opened CheatCompiler

  /** How bytes and halfwords of the console's memory are stored and loaded. */
  datatype Bus<!M> = Bus(storeByte: (M, nat, nat) -> M, storeHalf: (M, nat, nat) -> M,
                         loadByte: (M, nat) -> nat, loadHalf: (M, nat) -> nat)

  /** Memory after an instruction has run; `button` is the GS button. */
  function Effect<M>(bus: Bus<M>, button: bool, i: Instruction, m: M): M {
    match i
    case WriteByte(a, v) => bus.storeByte(m, a, v)
    case WriteHalf(a, v) => bus.storeHalf(m, a, v)
    case ButtonByte(a, v) => if button then bus.storeByte(m, a, v) else m
    case ButtonHalf(a, v) => if button then bus.storeHalf(m, a, v) else m
    case _ => m
  }

  /** What an instruction returns: the outcome of a test, true for a write. */
  function Answer<M>(bus: Bus<M>, i: Instruction, m: M): bool {
    match i
    case ByteEqual(a, v) => bus.loadByte(m, a) == v
    case HalfEqual(a, v) => bus.loadHalf(m, a) == v
    case ByteDiffers(a, v) => bus.loadByte(m, a) != v
    case HalfDiffers(a, v) => bus.loadHalf(m, a) != v
    case _ => true
  }

  /** Memory and the flag of the execute loop. */
  datatype Machine<M> = Machine(mem: M, execute: bool)

  /** One turn of the loop: a skipped write raises the flag again, a skipped test does not. */
  function Turn<M>(bus: Bus<M>, button: bool, x: Machine<M>, i: Instruction): Machine<M> {
    if x.execute then Machine(Effect(bus, button, i, x.mem), Answer(bus, i, x.mem))
    else Machine(x.mem, !IsTest(i))
  }

  function Exec<M>(bus: Bus<M>, button: bool, x: Machine<M>, code: seq<Instruction>): Machine<M>
    decreases code
  {
    if code == [] then x else Exec(bus, button, Turn(bus, button, x, code[0]), code[1..])
  }

  lemma {:induction false} ExecConcat<M>(bus: Bus<M>, button: bool, x: Machine<M>, a: seq<Instruction>,
                                         b: seq<Instruction>)
    ensures Exec(bus, button, x, a + b) == Exec(bus, button, Exec(bus, button, x, a), b)
    decreases a
  {
    hide Turn;
    if a == [] {
      assert a + b == b;
    } else {
      assert (a + b)[1..] == a[1..] + b;
      ExecConcat(bus, button, Turn(bus, button, x, a[0]), a[1..], b);
    }
  }

  lemma ExecMore<M>(bus: Bus<M>, button: bool, x: Machine<M>, code: seq<Instruction>, k: nat)
    requires k < |code|
    ensures Exec(bus, button, x, code[..k + 1]) == Turn(bus, button, Exec(bus, button, x, code[..k]), code[k])
  {
    hide Turn;
    assert code[..k + 1] == code[..k] + [code[k]];
    ExecConcat(bus, button, x, code[..k], [code[k]]);
    assert [code[k]][1..] == [];
  }

  // ---------------------------------------------------------------- the loops

  /** The inner loop of `cht_execute`. */
  method RunCheat<M>(bus: Bus<M>, button: bool, code: seq<Instruction>, before: M) returns (mem: M)
    ensures mem == Exec(bus, button, Machine(before, true), code).mem
  {
    hide Exec;
    var execute := true;
    mem := before;
    assert code[..0] == [];
    ExecNothing(bus, button, Machine(before, true));
    for i := 0 to |code|
      invariant Machine(mem, execute) == Exec(bus, button, Machine(before, true), code[..i])
    {
      ExecMore(bus, button, Machine(before, true), code, i);
      if execute {
        execute := Answer(bus, code[i], mem);
        mem := Effect(bus, button, code[i], mem);
      } else if !IsTest(code[i]) {
        execute := true;
      }
    }
    assert code[..|code|] == code;
  }

  lemma ExecNothing<M>(bus: Bus<M>, button: bool, x: Machine<M>)
    ensures Exec(bus, button, x, []) == x
  {
  }

  datatype Cheat = Cheat(name: string, code: string, active: bool, instructions: seq<Instruction>)

  /** The cheats before the first inactive one. */
  function Reached(cheats: seq<Cheat>): seq<Cheat> {
    if cheats == [] || !cheats[0].active then [] else [cheats[0]] + Reached(cheats[1..])
  }

  function ExecAll<M>(bus: Bus<M>, button: bool, cheats: seq<Cheat>, m: M): M
    decreases cheats
  {
    if cheats == [] then m
    else ExecAll(bus, button, cheats[1..], Exec(bus, button, Machine(m, true), cheats[0].instructions).mem)
  }

  /** The outer loop of `cht_execute`: the first inactive cheat ends it. `ran` cheats are
      run, `mems` is the memory before each and at the end. */
  method RunCheats<M>(bus: Bus<M>, button: bool, cheats: seq<Cheat>, before: M)
    returns (mem: M, ghost ran: nat, ghost mems: seq<M>)
    ensures mem == ExecAll(bus, button, Reached(cheats), before)
    ensures ran <= |cheats| && forall i :: 0 <= i < ran ==> cheats[i].active
    ensures ran < |cheats| ==> !cheats[ran].active
    ensures |mems| == ran + 1 && mems[0] == before && mems[ran] == mem
    ensures forall i :: 0 <= i < ran ==>
            mems[i + 1] == Exec(bus, button, Machine(mems[i], true), cheats[i].instructions).mem
  {
    hide Exec;
    mem, ran, mems := before, 0, [before];
    assert cheats[0..] == cheats;
    for i := 0 to |cheats|
      invariant ExecAll(bus, button, Reached(cheats), before) == ExecAll(bus, button, Reached(cheats[i..]), mem)
      invariant ran == i && |mems| == ran + 1 && mems[0] == before && mems[ran] == mem
      invariant forall j :: 0 <= j < ran ==>
                cheats[j].active
                && mems[j + 1] == Exec(bus, button, Machine(mems[j], true), cheats[j].instructions).mem
    {
      var cheat := cheats[i];
      if !cheat.active {
        return;
      }
      assert cheats[i..][1..] == cheats[i + 1..];
      assert Reached(cheats[i..])[1..] == Reached(cheats[i + 1..]);
      mem := RunCheat(bus, button, cheat.instructions, mem);
      ran, mems := ran + 1, mems + [mem];
    }
  }

  // ---------------------------------------------------------------- when a write runs

  /** Start of the unbroken run of tests directly before instruction `k`. */
  function RunStart(code: seq<Instruction>, k: nat): (s: nat)
    requires k <= |code|
    ensures s <= k
  {
    if k == 0 || !IsTest(code[k - 1]) then k else RunStart(code, k - 1)
  }

  /** Every test of the run before `k` holds in `m`. */
  ghost predicate Guarded<M>(bus: Bus<M>, code: seq<Instruction>, k: nat, m: M)
    requires k <= |code|
  {
    forall j :: RunStart(code, k) <= j < k ==> Answer(bus, code[j], m)
  }

  lemma GuardedStep<M>(bus: Bus<M>, code: seq<Instruction>, k: nat, m: M)
    requires 0 < k <= |code|
    ensures Guarded(bus, code, k, m)
            <==> !IsTest(code[k - 1]) || (Guarded(bus, code, k - 1, m) && Answer(bus, code[k - 1], m))
  {
    hide Answer;
  }

  lemma {:induction false} FlagIsGuard<M>(bus: Bus<M>, button: bool, code: seq<Instruction>, m: M, k: nat)
    requires k <= |code|
    ensures var x := Exec(bus, button, Machine(m, true), code[..k]); x.execute <==> Guarded(bus, code, k, x.mem)
    decreases k
  {
    if k == 0 {
      assert code[..0] == [];
    } else {
      FlagIsGuard(bus, button, code, m, k - 1);
      ExecMore(bus, button, Machine(m, true), code, k - 1);
      GuardedStep(bus, code, k, Exec(bus, button, Machine(m, true), code[..k]).mem);
      hide Exec, Guarded;
    }
  }

  /** A write runs exactly when every test in the unbroken run directly before it holds in
      the memory it finds; a test never changes memory. */
  lemma WriteRunsIff<M>(bus: Bus<M>, button: bool, code: seq<Instruction>, m: M, k: nat)
    requires k < |code|
    ensures var here := Exec(bus, button, Machine(m, true), code[..k]).mem;
            Exec(bus, button, Machine(m, true), code[..k + 1]).mem
            == if !IsTest(code[k]) && Guarded(bus, code, k, here) then Effect(bus, button, code[k], here) else here
  {
    FlagIsGuard(bus, button, code, m, k);
    ExecMore(bus, button, Machine(m, true), code, k);
    hide Exec, Guarded;
  }

  // ---------------------------------------------------------------- interpreting lines

  /** An interpreter that works on the lines: memory, whether the next write runs, and a
      pending repeat. */
  datatype Direct<M> = Direct(mem: M, armed: bool, serial: Serial)

  /** Bytes `i` and up of a repeated write. */
  function Fill<M>(bus: Bus<M>, s: Serial, address: nat, value: nat, i: nat, m: M): M
    requires s.Serial?
    decreases s.count - i
  {
    if i >= s.count then m
    else Fill(bus, s, address, value, i + 1,
              bus.storeByte(m, address + s.offset * i, (value + s.diff * i) % 0x100))
  }

  /** One line. A repeated write is one store per byte, and only the first of them can be
      held back; a repeat of no bytes hands a failed test on to the next line. */
  function Obey<M>(bus: Bus<M>, button: bool, d: Direct<M>, line: Line): Direct<M> {
    if !line.Heard? then d
    else if d.serial.Serial? then
      Direct(Fill(bus, d.serial, line.address, line.value, if d.armed then 0 else 1, d.mem),
             d.armed || d.serial.count > 0, NoSerial)
    else match line.op
      case Plain(i) =>
        if IsTest(i) then d.(armed := d.armed && Answer(bus, i, d.mem))
        else d.(mem := if d.armed then Effect(bus, button, i, d.mem) else d.mem, armed := true)
      case Repeat(n, o, f) => d.(serial := Serial(n, o, f))
      case Illegal => d
  }

  function Interpret<M>(bus: Bus<M>, button: bool, d: Direct<M>, lines: seq<string>): Direct<M>
    decreases lines
  {
    if lines == [] then d else Interpret(bus, button, Obey(bus, button, d, ParseLine(lines[0])), lines[1..])
  }

  lemma {:induction false} ExecSerial<M>(bus: Bus<M>, button: bool, m: M, armed: bool, s: Serial, address: nat,
                                         value: nat, i: nat)
    requires s.Serial? && i <= s.count
    ensures Exec(bus, button, Machine(m, armed), SerialWrites(s, address, value, i))
            == Machine(Fill(bus, s, address, value, if armed then i else i + 1, m), armed || i < s.count)
    decreases s.count - i
  {
    if i < s.count {
      var w := SerialWrite(s, address, value, i);
      var rest := SerialWrites(s, address, value, i + 1);
      assert ([w] + rest)[1..] == rest;
      if armed {
        ExecSerial(bus, button, Effect(bus, button, w, m), true, s, address, value, i + 1);
      } else {
        ExecSerial(bus, button, m, true, s, address, value, i + 1);
      }
    }
  }

  /** Compiling and executing agrees with interpreting the lines. */
  lemma {:induction false} CompileAgrees<M>(bus: Bus<M>, button: bool, d: Direct<M>, lines: seq<string>)
    requires CompileLines(lines, d.serial).Ok?
    ensures var x := Exec(bus, button, Machine(d.mem, d.armed), CompileLines(lines, d.serial).instructions);
            var r := Interpret(bus, button, d, lines);
            x.mem == r.mem && x.execute == r.armed
    decreases lines
  {
    if lines != [] {
      var line, rest := ParseLine(lines[0]), lines[1..];
      var next := Obey(bus, button, d, line);
      assert line.Heard? || next == d;
      LineCompiles(bus, button, d, lines);
      CompileAgrees(bus, button, next, rest);
      var front := FrontOf(d.serial, line);
      hide ParseLine, Exec, CompileLines, Obey;
      ExecConcat(bus, button, Machine(d.mem, d.armed), front, CompileLines(rest, next.serial).instructions);
    }
  }

  /** The instructions of one line. */
  function FrontOf(serial: Serial, line: Line): seq<Instruction> {
    if !line.Heard? then []
    else if serial.Serial? then SerialWrites(serial, line.address, line.value, 0)
    else if line.op.Plain? then [line.op.instruction]
    else []
  }

  lemma LineCompiles<M>(bus: Bus<M>, button: bool, d: Direct<M>, lines: seq<string>)
    requires lines != [] && CompileLines(lines, d.serial).Ok?
    ensures var line := ParseLine(lines[0]);
            var front, next := FrontOf(d.serial, line), Obey(bus, button, d, line);
            && CompileLines(lines[1..], next.serial).Ok?
            && CompileLines(lines, d.serial).instructions == front + CompileLines(lines[1..], next.serial).instructions
            && Exec(bus, button, Machine(d.mem, d.armed), front) == Machine(next.mem, next.armed)
  {
    hide ParseLine;
    var line := ParseLine(lines[0]);
    if line.Heard? && d.serial.Serial? {
      ExecSerial(bus, button, d.mem, d.armed, d.serial, line.address, line.value, 0);
    } else if line.Heard? && line.op.Plain? {
      assert [line.op.instruction][1..] == [];
    } else {
      var next := Obey(bus, button, d, line);
      SeqEmpty(CompileLines(lines[1..], next.serial).instructions);
    }
  }

  /** A cheat that compiles does to memory what its lines say. */
  lemma CheatMeansItsLines<M>(bus: Bus<M>, button: bool, code: string, m: M)
    requires CompileText(code).Ok?
    ensures Exec(bus, button, Machine(m, true), CompileText(code).instructions).mem
            == Interpret(bus, button, Direct(m, true, NoSerial), Lines(code)).mem
  {
    CompileAgrees(bus, button, Direct(m, true, NoSerial), Lines(code));
  }
}

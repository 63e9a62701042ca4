/** Reading a file into an INI structure and generating a file from one. */
module IniFile {
  import opened IniText
  import opened IniParser
  import opened IniMap

  type Ini = Table<Table<string>>

  // ---------------------------------------------------------------- lines of a file

  /** Characters that do not survive inside a line. */
  predicate Clean(s: string) {
    forall i :: 0 <= i < |s| ==> s[i] != '\n' && s[i] != '\r' && s[i] != '\0'
  }

  /** The lines of a text: split at LF, without CR and NUL, the last line always kept. */
  function LinesOf(text: string): (r: seq<string>)
    ensures r != []
  {
    if text == [] then [""]
    else
      var rest := LinesOf(text[1..]);
      if text[0] == '\n' then [""] + rest
      else if text[0] == '\0' || text[0] == '\r' then rest
      else [[text[0]] + rest[0]] + rest[1..]
  }

  /** The UTF-8 byte order mark. */
  const BOM: string := "\U{EF}\U{BB}\U{BF}"

  predicate StartsWithBom(text: string) {
    |text| >= 3 && text[..3] == BOM
  }

  lemma NotBom(text: string, i: nat)
    requires i < |text| && i < 3 && text[i] != BOM[i]
    ensures !StartsWithBom(text)
  {
    if |text| >= 3 { assert text[..3][i] == text[i]; }
  }

  /** The buffer that is split: behind a byte order mark it has the size of the whole file,
      so it ends in three NULs. */
  function Body(text: string): string {
    if StartsWithBom(text) then text[3..] + "\0\0\0" else text
  }

  /** The lines of a file, none for an empty one. */
  function FileLines(text: string): seq<string> {
    if text == [] then [] else LinesOf(Body(text))
  }

  /** `readFile` on the file contents. */
  method SplitLines(file: string) returns (output: seq<string>, isBom: bool)
    ensures output == FileLines(file) && isBom == StartsWithBom(file)
  {
    isBom := |file| >= 3 && file[0] == '\U{EF}' && file[1] == '\U{BB}' && file[2] == '\U{BF}';
    assert |file| >= 3 ==> file[..3] == [file[0], file[1], file[2]];
    output := [];
    if file == [] {
      return;
    }
    var text := if isBom then file[3..] + "\0\0\0" else file;
    hide LinesOf, Prefixed;
    var buffer := "";
    ghost var all := LinesOf(text);
    PrefixedEmpty(all);
    SeqEmpty(all);
    assert text[0..] == text;
    for i := 0 to |text|
      invariant all == output + Prefixed(buffer, LinesOf(text[i..]))
    {
      var c := text[i];
      assert text[i..][1..] == text[i + 1..];
      PrefixedStep(buffer, text[i..]);
      if c == '\n' {
        SeqAssoc(output, [buffer], Prefixed("", LinesOf(text[i + 1..])));
        output := output + [buffer];
        buffer := "";
      } else if c != '\0' && c != '\r' {
        buffer := buffer + [c];
      }
    }
    assert text[|text|..] == [];
    PrefixedLast(buffer);
    output := output + [buffer];
  }

  lemma PrefixedLast(b: string)
    ensures Prefixed(b, LinesOf("")) == [b]
  {
    SeqEmpty(b);
  }

  lemma PrefixedStep(b: string, text: string)
    requires text != []
    ensures var c, rest := text[0], LinesOf(text[1..]);
            Prefixed(b, LinesOf(text))
            == if c == '\n' then [b] + Prefixed("", rest)
               else if c == '\0' || c == '\r' then Prefixed(b, rest)
               else Prefixed(b + [c], rest)
  {
    var c, rest := text[0], LinesOf(text[1..]);
    LinesOfStep(text);
    hide LinesOf;
    if c == '\n' {
      SeqEmpty(b);
      PrefixedEmpty(rest);
    } else if c != '\0' && c != '\r' {
      SeqAssoc(b, [c], rest[0]);
    }
  }

  lemma LinesOfStep(text: string)
    requires text != []
    ensures var c, rest := text[0], LinesOf(text[1..]);
            LinesOf(text)
            == if c == '\n' then [""] + rest
               else if c == '\0' || c == '\r' then rest
               else Prefixed([c], rest)
  {
  }

  /** Lines joined by CR LF, as every writer of the library does. */
  function Joined(lines: seq<string>): string
    requires lines != []
  {
    if |lines| == 1 then lines[0] else lines[0] + "\r\n" + Joined(lines[1..])
  }

  lemma {:induction false} LinesOfPrefix(s: string, text: string)
    requires Clean(s)
    ensures LinesOf(s + text) == Prefixed(s, LinesOf(text))
  {
    if s == [] {
      assert s + text == text;
      PrefixedEmpty(LinesOf(text));
    } else {
      assert (s + text)[1..] == s[1..] + text;
      LinesOfPrefix(s[1..], text);
      assert [s[0]] + (s[1..] + LinesOf(text)[0]) == s + LinesOf(text)[0];
    }
  }

  /** NULs at the end are not seen. */
  lemma {:induction false} LinesOfNul(text: string)
    ensures LinesOf(text + "\0") == LinesOf(text)
  {
    if text == [] {
      assert text + "\0" == "\0" && "\0"[1..] == "";
    } else {
      assert (text + "\0")[1..] == text[1..] + "\0";
      LinesOfNul(text[1..]);
    }
  }

  lemma LinesOfNuls(text: string)
    ensures LinesOf(text + "\0\0\0") == LinesOf(text)
  {
    hide LinesOf;
    LinesOfNul(text);
    LinesOfNul(text + "\0");
    LinesOfNul(text + "\0" + "\0");
    assert text + "\0\0\0" == text + "\0" + "\0" + "\0";
  }

  lemma LinesOfBreak(text: string)
    ensures LinesOf("\r\n" + text) == [""] + LinesOf(text)
  {
    assert ("\r\n" + text)[1..] == "\n" + text;
    assert ("\n" + text)[1..] == text;
  }

  /** Splitting undoes joining. */
  lemma {:induction false} SplitJoined(lines: seq<string>)
    requires lines != [] && forall i :: 0 <= i < |lines| ==> Clean(lines[i])
    ensures LinesOf(Joined(lines)) == lines
  {
    if |lines| == 1 {
      LinesOfPrefix(lines[0], "");
      assert lines[0] + "" == lines[0];
    } else {
      var rest := Joined(lines[1..]);
      SplitJoined(lines[1..]);
      assert lines[0] + "\r\n" + rest == lines[0] + ("\r\n" + rest);
      LinesOfPrefix(lines[0], "\r\n" + rest);
      LinesOfBreak(rest);
      assert lines[0] + "" == lines[0];
    }
  }

  // ---------------------------------------------------------------- reading

  /** The reader between two lines. */
  datatype Reading = Reading(data: Ini, section: string, inSection: bool)

  const START: Reading := Reading([], "", false)

  function InnerOf(d: Ini, s: string): Table<string> {
    match Lookup(d, s)
    case None => []
    case Some(t) => t
  }

  /** `data[name]`. */
  function Touch(d: Ini, name: string): Ini {
    if Has(d, Norm(name)) then d else d + [(Norm(name), [])]
  }

  /** `data[section][key] = value`. */
  function Store(d: Ini, section: string, key: string, value: string): Ini {
    Put(d, Norm(section), Put(InnerOf(d, Norm(section)), Norm(key), value))
  }

  function ReadStep(st: Reading, line: string): Reading {
    match ParseLine(line)
    case Section(n) => Reading(Touch(st.data, n), n, true)
    case KeyValue(k, v) => if st.inSection then st.(data := Store(st.data, st.section, k, v)) else st
    case _ => st
  }

  function ReadFrom(st: Reading, lines: seq<string>): Reading
    decreases lines
  {
    if lines == [] then st else ReadFrom(ReadStep(st, lines[0]), lines[1..])
  }

  /** What the reader makes of a list of lines. */
  function Read(lines: seq<string>): Ini {
    ReadFrom(START, lines).data
  }

  /** A line the reader hands on to a lazy write. */
  predicate KeepLine(st: Reading, line: string) {
    var p := ParseLine(line);
    !p.Unknown? && (p.KeyValue? ==> st.inSection)
  }

  function KeptFrom(st: Reading, lines: seq<string>): seq<string>
    decreases lines
  {
    if lines == [] then []
    else (if KeepLine(st, lines[0]) then [lines[0]] else []) + KeptFrom(ReadStep(st, lines[0]), lines[1..])
  }

  lemma {:induction false} ReadConcat(st: Reading, x: seq<string>, y: seq<string>)
    ensures ReadFrom(st, x + y) == ReadFrom(ReadFrom(st, x), y)
    decreases x
  {
    hide ReadStep;
    if x == [] {
      assert x + y == y;
    } else {
      assert (x + y)[1..] == x[1..] + y;
      ReadConcat(ReadStep(st, x[0]), x[1..], y);
    }
  }

  lemma ReadOne(st: Reading, line: string)
    ensures ReadFrom(st, [line]) == ReadStep(st, line)
  {
  }

  lemma ReadUpTo(st: Reading, lines: seq<string>, i: nat)
    requires i < |lines|
    ensures ReadFrom(st, lines[..i + 1]) == ReadStep(ReadFrom(st, lines[..i]), lines[i])
  {
    assert lines[..i + 1] == lines[..i] + [lines[i]];
    ReadConcat(st, lines[..i], [lines[i]]);
    ReadOne(ReadFrom(st, lines[..i]), lines[i]);
  }

  lemma {:induction false} KeptUpTo(st: Reading, lines: seq<string>, i: nat)
    requires i < |lines|
    ensures KeptFrom(st, lines[..i + 1])
            == KeptFrom(st, lines[..i]) + if KeepLine(ReadFrom(st, lines[..i]), lines[i]) then [lines[i]] else []
    decreases i
  {
    hide ReadStep, KeepLine;
    if i == 0 {
      assert lines[..1] == [lines[0]] && lines[..0] == [];
      assert [lines[0]][1..] == [];
    } else {
      assert lines[..i + 1][1..] == lines[1..][..i] && lines[..i][1..] == lines[1..][..i - 1];
      KeptUpTo(ReadStep(st, lines[0]), lines[1..], i - 1);
    }
  }

  /** `INIReader::operator>>`: the structure and the lines worth keeping. */
  method ReadStructure(fileLines: seq<string>) returns (data: Ini, kept: seq<string>)
    ensures data == Read(fileLines) && kept == KeptFrom(START, fileLines)
  {
    hide ReadFrom, KeptFrom, Touch, Store;
    data, kept := [], [];
    var section, inSection := "", false;
    assert ReadFrom(START, []) == START && KeptFrom(START, []) == [] by { ReadNothing(); }
    assert fileLines[..0] == [];
    for i := 0 to |fileLines|
      invariant Reading(data, section, inSection) == ReadFrom(START, fileLines[..i])
      invariant kept == KeptFrom(START, fileLines[..i])
    {
      ReadUpTo(START, fileLines, i);
      KeptUpTo(START, fileLines, i);
      var line := fileLines[i];
      var parse := ParseLine(line);
      if parse.Section? {
        inSection := true;
        section := parse.name;
        data := Touch(data, section);
      } else if inSection && parse.KeyValue? {
        data := Store(data, section, parse.key, parse.value);
      }
      if !parse.Unknown? && !(parse.KeyValue? && !inSection) {
        kept := kept + [line];
      }
    }
    assert fileLines[..|fileLines|] == fileLines;
  }

  lemma ReadNothing()
    ensures ReadFrom(START, []) == START && KeptFrom(START, []) == []
  {
  }

  /** Dropping the lines a lazy write does not keep changes nothing for the reader. */
  lemma {:induction false} ReadKept(st: Reading, lines: seq<string>)
    ensures ReadFrom(st, KeptFrom(st, lines)) == ReadFrom(st, lines)
    decreases lines
  {
    if lines != [] {
      var next := ReadStep(st, lines[0]);
      ReadKept(next, lines[1..]);
      if KeepLine(st, lines[0]) {
        ReadConcat(st, [lines[0]], KeptFrom(next, lines[1..]));
        ReadOne(st, lines[0]);
      } else {
        assert [] + KeptFrom(next, lines[1..]) == KeptFrom(next, lines[1..]);
      }
    }
  }

  // ---------------------------------------------------------------- generating

  function KeyLines(t: Table<string>, pretty: bool): (r: seq<string>)
    ensures |r| == |t|
  {
    if t == [] then [] else [KeyText(t[0].0, t[0].1, pretty)] + KeyLines(t[1..], pretty)
  }

  function SectionLines(name: string, t: Table<string>, pretty: bool): (r: seq<string>)
    ensures r != []
  {
    [SectionText(name)] + KeyLines(t, pretty)
  }

  /** Pretty files have an empty line between sections. */
  function Gap(lines: seq<string>, pretty: bool): seq<string> {
    if pretty then [""] + lines else lines
  }

  /** The lines of a generated file. */
  function GenLines(data: Ini, pretty: bool): (r: seq<string>)
    ensures r == [] <==> data == []
  {
    if data == [] then []
    else if |data| == 1 then SectionLines(data[0].0, data[0].1, pretty)
    else SectionLines(data[0].0, data[0].1, pretty) + Gap(GenLines(data[1..], pretty), pretty)
  }

  function GenText(data: Ini, pretty: bool): string {
    if data == [] then "" else Joined(GenLines(data, pretty))
  }

  lemma {:induction false} JoinedConcat(x: seq<string>, y: seq<string>)
    requires x != [] && y != []
    ensures Joined(x + y) == Joined(x) + ("\r\n" + Joined(y))
  {
    if |x| == 1 {
      assert (x + y)[1..] == y;
    } else {
      assert (x + y)[1..] == x[1..] + y;
      JoinedConcat(x[1..], y);
      hide Joined;
      SeqAssoc(x[0] + "\r\n", Joined(x[1..]), "\r\n" + Joined(y));
    }
    SeqAssoc(x[0], "\r\n", Joined(y));
  }

  /** The key loop of the generator: what it appends for a whole collection. */
  method WriteKeys(out0: string, t: Table<string>, pretty: bool) returns (out: string)
    requires t != []
    ensures KeyLines(t, pretty) != [] && out == out0 + Joined(KeyLines(t, pretty))
  {
    hide KeyLines, Joined, KeyText;
    out := out0;
    var i := 0;
    ghost var whole := Joined(KeyLines(t, pretty));
    assert t[0..] == t;
    while true
      invariant 0 <= i < |t| && out + Joined(KeyLines(t[i..], pretty)) == out0 + whole
      decreases |t| - i
    {
      ghost var before, rest := out, if i + 1 < |t| then Joined(KeyLines(t[i + 1..], pretty)) else "";
      assert t[i..][1..] == t[i + 1..];
      KeyLinesText(t[i..], pretty);
      out := out + KeyText(t[i].0, t[i].1, pretty);
      SeqAssoc(before, KeyText(t[i].0, t[i].1, pretty), "\r\n" + rest);
      i := i + 1;
      if i == |t| {
        break;
      }
      SeqAssoc(out, "\r\n", rest);
      out := out + "\r\n";
    }
  }

  lemma KeyLinesText(t: Table<string>, pretty: bool)
    requires t != []
    ensures Joined(KeyLines(t, pretty))
            == if |t| == 1 then KeyText(t[0].0, t[0].1, pretty)
               else KeyText(t[0].0, t[0].1, pretty) + ("\r\n" + Joined(KeyLines(t[1..], pretty)))
  {
    hide KeyText;
    var a, b := [KeyText(t[0].0, t[0].1, pretty)], KeyLines(t[1..], pretty);
    if |t| > 1 {
      JoinedConcat(a, b);
    }
  }

  lemma JoinedBlank(b: seq<string>)
    requires b != []
    ensures Joined([""] + b) == "\r\n" + Joined(b)
  {
    JoinedConcat([""], b);
    assert Joined([""]) == "";
    hide Joined;
    assert "" + ("\r\n" + Joined(b)) == "\r\n" + Joined(b);
  }

  lemma GenTextStep(data: Ini, pretty: bool)
    requires |data| > 1
    ensures Joined(GenLines(data, pretty))
            == Joined(SectionLines(data[0].0, data[0].1, pretty))
               + ("\r\n" + ((if pretty then "\r\n" else "") + Joined(GenLines(data[1..], pretty))))
  {
    var a, b := SectionLines(data[0].0, data[0].1, pretty), GenLines(data[1..], pretty);
    assert GenLines(data, pretty) == a + Gap(b, pretty);
    hide SectionLines, GenLines, Joined;
    JoinedConcat(a, Gap(b, pretty));
    if pretty {
      JoinedBlank(b);
    } else {
      assert "" + Joined(b) == Joined(b);
    }
  }

  lemma SectionTextStep(name: string, t: Table<string>, pretty: bool)
    ensures Joined(SectionLines(name, t, pretty))
            == if t == [] then SectionText(name) else SectionText(name) + ("\r\n" + Joined(KeyLines(t, pretty)))
  {
    hide SectionText;
    if t != [] {
      JoinedConcat([SectionText(name)], KeyLines(t, pretty));
    } else {
      assert [SectionText(name)] + [] == [SectionText(name)];
    }
  }

  /** One section of the generator. */
  method WriteSection(out0: string, name: string, t: Table<string>, pretty: bool) returns (out: string)
    ensures out == out0 + Joined(SectionLines(name, t, pretty))
  {
    SectionTextStep(name, t, pretty);
    hide Joined, SectionLines, KeyLines;
    out := out0 + ("[" + name + "]");
    if t != [] {
      out := out + "\r\n";
      out := WriteKeys(out, t, pretty);
      Regroup(out0, SectionText(name), "\r\n", Joined(KeyLines(t, pretty)));
    }
  }

  /** `INIGenerator::operator<<`. */
  method Generate(data: Ini, pretty: bool) returns (text: string)
    ensures text == GenText(data, pretty)
  {
    text := "";
    if data == [] {
      return;
    }
    ghost var whole := GenText(data, pretty);
    var i := 0;
    assert data[0..] == data && "" + whole == whole;
    while true
      invariant 0 <= i < |data| && text + Joined(GenLines(data[i..], pretty)) == whole
      decreases |data| - i
    {
      ghost var rest := data[i..];
      assert rest[1..] == data[i + 1..];
      if |rest| > 1 { GenTextStep(rest, pretty); }
      ghost var tail := if |rest| > 1 then Joined(GenLines(rest[1..], pretty)) else "";
      ghost var before := text;
      text := WriteSection(text, data[i].0, data[i].1, pretty);
      i := i + 1;
      if i == |data| {
        break;
      }
      hide Joined, GenLines, SectionLines;
      Regroup(before, Joined(SectionLines(rest[0].0, rest[0].1, pretty)), "\r\n",
              (if pretty then "\r\n" else "") + tail);
      text := text + "\r\n";
      if pretty {
        SeqAssoc(text, "\r\n", tail);
        text := text + "\r\n";
      } else {
        assert "" + tail == tail;
      }
    }
  }

  // ---------------------------------------------------------------- round trip

  /** A key that a written line carries. */
  predicate GoodKey(k: string, pretty: bool) {
    IsNorm(k) && PlainStart(k) && (pretty || !EndsInBackslash(k))
  }

  predicate GoodSection(name: string) {
    IsNorm(name) && ';' !in name
  }

  ghost predicate GoodTable(t: Table<string>, pretty: bool) {
    Distinct(t) && forall i :: 0 <= i < |t| ==> GoodKey(t[i].0, pretty)
  }

  /** Structures whose names the file format can carry. */
  ghost predicate GoodIni(data: Ini, pretty: bool) {
    && Distinct(data)
    && forall i :: 0 <= i < |data| ==> GoodSection(data[i].0) && GoodTable(data[i].1, pretty)
  }

  ghost predicate CleanTable(t: Table<string>) {
    forall i :: 0 <= i < |t| ==> Clean(t[i].0) && Clean(t[i].1)
  }

  /** Structures without CR, LF or NUL in any name or value. */
  ghost predicate CleanIni(data: Ini) {
    forall i :: 0 <= i < |data| ==> Clean(data[i].0) && CleanTable(data[i].1)
  }

  /** The same keys with trimmed values. */
  function TrimTable(t: Table<string>): (r: Table<string>)
    ensures |r| == |t|
  {
    if t == [] then [] else [(t[0].0, Trim(t[0].1))] + TrimTable(t[1..])
  }

  function TrimIni(data: Ini): (r: Ini)
    ensures |r| == |data|
  {
    if data == [] then [] else [(data[0].0, TrimTable(data[0].1))] + TrimIni(data[1..])
  }

  lemma GoodKeyTrimmed(k: string, pretty: bool)
    requires GoodKey(k, pretty)
    ensures Trimmed(k)
  {
    NormIdempotent(k);
  }

  /** Reading one written key into an open section appends it. */
  lemma ReadKey(done: Ini, name: string, part: Table<string>, k: string, v: string, pretty: bool)
    requires Where(done, name).None? && IsNorm(name) && GoodKey(k, pretty) && Where(part, k).None?
    ensures ReadStep(Reading(done + [(name, part)], name, true), KeyText(k, v, pretty))
            == Reading(done + [(name, part + [(k, Trim(v))])], name, true)
  {
    GoodKeyTrimmed(k, pretty);
    WrittenKeyLine(k, v, pretty);
    var d := done + [(name, part)];
    WhereAppend(done, [(name, part)], name);
    WhereFirst((name, part));
    hide ParseLine, KeyText, Norm, Trim, Where, PlainStart;
    assert Store(d, name, k, Trim(v)) == d[|done| := (name, part + [(k, Trim(v))])];
  }

  /** Reading the keys of a section one after the other. */
  lemma {:induction false} ReadKeys(done: Ini, name: string, part: Table<string>, t: Table<string>, pretty: bool)
    requires Where(done, name).None? && IsNorm(name) && GoodTable(part + t, pretty)
    ensures ReadFrom(Reading(done + [(name, part)], name, true), KeyLines(t, pretty))
            == Reading(done + [(name, part + TrimTable(t))], name, true)
    decreases t
  {
    hide ReadStep, GoodTable, Where, IsNorm, KeyText, Trim, ReadFrom, KeyLines;
    if t == [] {
      SeqEmpty(part);
      ReadNoKeys(Reading(done + [(name, part)], name, true), pretty);
    } else {
      var k, v := t[0].0, t[0].1;
      var st, line := Reading(done + [(name, part)], name, true), KeyText(k, v, pretty);
      NextKey(part, t, pretty);
      ReadKey(done, name, part, k, v, pretty);
      var part' := part + [(k, Trim(v))];
      GoodTrimmed(part, t, pretty);
      KeyLinesStep(t, pretty);
      ReadConcat(st, [line], KeyLines(t[1..], pretty));
      ReadOne(st, line);
      ReadKeys(done, name, part', t[1..], pretty);
      SeqAssoc(part, [(k, Trim(v))], TrimTable(t[1..]));
    }
  }

  lemma ReadNoKeys(st: Reading, pretty: bool)
    ensures ReadFrom(st, KeyLines([], pretty)) == st
  {
  }

  lemma KeyLinesStep(t: Table<string>, pretty: bool)
    requires t != []
    ensures KeyLines(t, pretty) == [KeyText(t[0].0, t[0].1, pretty)] + KeyLines(t[1..], pretty)
  {
  }

  /** The next key is good and not there yet. */
  lemma NextKey(part: Table<string>, t: Table<string>, pretty: bool)
    requires t != [] && GoodTable(part + t, pretty)
    ensures GoodKey(t[0].0, pretty) && Where(part, t[0].0).None?
  {
    assert (part + t)[|part|] == t[0];
    hide GoodKey;
    forall i | 0 <= i < |part| ensures part[i].0 != t[0].0 { assert (part + t)[i] == part[i]; }
    WhereNone(part, t[0].0);
  }

  lemma GoodTrimmed(part: Table<string>, t: Table<string>, pretty: bool)
    requires t != [] && GoodTable(part + t, pretty)
    ensures GoodTable((part + [(t[0].0, Trim(t[0].1))]) + t[1..], pretty)
  {
    hide GoodKey, Trim;
    var x, y := part + t, part + [(t[0].0, Trim(t[0].1))] + t[1..];
    assert |x| == |y|;
    assert forall i :: 0 <= i < |x| ==> x[i].0 == y[i].0;
  }

  /** Reading one written section appends it. */
  lemma ReadSection(st: Reading, name: string, t: Table<string>, pretty: bool)
    requires Where(st.data, name).None? && GoodSection(name) && GoodTable(t, pretty)
    ensures ReadFrom(st, SectionLines(name, t, pretty))
            == Reading(st.data + [(name, TrimTable(t))], name, true)
  {
    NormIdempotent(name);
    SectionLine(name);
    hide ParseLine, SectionText, Norm, GoodTable, KeyLines;
    assert ReadStep(st, SectionText(name)) == Reading(st.data + [(name, [])], name, true);
    ReadConcat(st, [SectionText(name)], KeyLines(t, pretty));
    ReadOne(st, SectionText(name));
    assert [] + t == t && [] + TrimTable(t) == TrimTable(t);
    ReadKeys(st.data, name, [], t, pretty);
  }

  lemma ReadBlank(st: Reading)
    ensures ReadFrom(st, [""]) == st
  {
    assert ParseLine("").Nothing?;
  }

  /** No name of `data` is taken yet. */
  ghost predicate Fresh(d: Ini, data: Ini) {
    forall i :: 0 <= i < |data| ==> Where(d, data[i].0).None?
  }

  lemma FreshAfter(d: Ini, data: Ini, t: Table<string>)
    requires data != [] && Distinct(data) && Fresh(d, data)
    ensures Fresh(d + [(data[0].0, t)], data[1..])
  {
    var e := (data[0].0, t);
    forall i | 0 <= i < |data[1..]|
      ensures Where(d + [e], data[1..][i].0).None?
    {
      assert data[1..][i] == data[i + 1];
      WhereAppend(d, [e], data[i + 1].0);
    }
  }

  lemma ReadSectionThen(st: Reading, name: string, t: Table<string>, rest: seq<string>, pretty: bool)
    requires Where(st.data, name).None? && GoodSection(name) && GoodTable(t, pretty)
    ensures ReadFrom(st, SectionLines(name, t, pretty) + Gap(rest, pretty))
            == ReadFrom(Reading(st.data + [(name, TrimTable(t))], name, true), rest)
  {
    ReadSection(st, name, t, pretty);
    hide ReadFrom, SectionLines, GoodSection, GoodTable, TrimTable, Where, Gap;
    ReadConcat(st, SectionLines(name, t, pretty), Gap(rest, pretty));
    GapInvisible(Reading(st.data + [(name, TrimTable(t))], name, true), rest, pretty);
  }

  lemma GoodRest(d: Ini, data: Ini, pretty: bool)
    requires GoodIni(data, pretty) && data != [] && Fresh(d, data)
    ensures GoodSection(data[0].0) && GoodTable(data[0].1, pretty) && Where(d, data[0].0).None?
    ensures GoodIni(data[1..], pretty)
    ensures Fresh(d + [(data[0].0, TrimTable(data[0].1))], data[1..])
  {
    FreshAfter(d, data, TrimTable(data[0].1));
    hide GoodSection, GoodTable, Where, TrimTable;
  }

  lemma GenLinesStep(data: Ini, pretty: bool)
    requires data != []
    ensures GenLines(data, pretty)
            == SectionLines(data[0].0, data[0].1, pretty)
               + if |data| == 1 then [] else Gap(GenLines(data[1..], pretty), pretty)
    ensures TrimIni(data) == [(data[0].0, TrimTable(data[0].1))] + TrimIni(data[1..])
  {
    hide SectionLines, TrimTable, Gap;
  }

  /** Reading generated lines appends every section, in order. */
  lemma {:induction false} ReadGenerated(st: Reading, data: Ini, pretty: bool)
    requires GoodIni(data, pretty) && Fresh(st.data, data)
    ensures ReadFrom(st, GenLines(data, pretty)).data == st.data + TrimIni(data)
    decreases |data|
  {
    if data == [] {
      SeqEmpty(st.data);
    } else {
      hide ReadFrom, SectionLines, TrimTable, Where, GoodSection, GoodTable, Fresh, Gap, GoodIni, GenLines, TrimIni;
      var name, t := data[0].0, data[0].1;
      var next := Reading(st.data + [(name, TrimTable(t))], name, true);
      GoodRest(st.data, data, pretty);
      GenLinesStep(data, pretty);
      if |data| == 1 {
        ReadSection(st, name, t, pretty);
        SeqEmpty(SectionLines(name, t, pretty));
        SeqEmpty([(name, TrimTable(t))]);
      } else {
        ReadSectionThen(st, name, t, GenLines(data[1..], pretty), pretty);
        ReadGenerated(next, data[1..], pretty);
        SeqAssoc(st.data, [(name, TrimTable(t))], TrimIni(data[1..]));
      }
    }
  }

  lemma GapInvisible(st: Reading, lines: seq<string>, pretty: bool)
    ensures ReadFrom(st, Gap(lines, pretty)) == ReadFrom(st, lines)
  {
    if pretty {
      ReadConcat(st, [""], lines);
      ReadBlank(st);
    }
  }

  lemma {:induction false} CleanEscape(k: string)
    requires Clean(k)
    ensures Clean(Escape(k))
  {
    if k != [] {
      CleanEscape(k[1..]);
    }
  }

  lemma CleanTrim(v: string)
    requires Clean(v)
    ensures Clean(Trim(v))
  {
    TrimRightSpec(v);
    TrimLeftSpec(TrimRight(v));
    hide TrimRight, TrimLeft;
    var r := TrimRight(v);
    assert Clean(r);
  }

  lemma CleanKeyText(k: string, v: string, pretty: bool)
    requires Clean(k) && Clean(v)
    ensures Clean(KeyText(k, v, pretty))
  {
    CleanEscape(k);
    CleanTrim(v);
    hide Escape, Trim;
  }

  ghost predicate CleanLines(lines: seq<string>) {
    forall i :: 0 <= i < |lines| ==> Clean(lines[i])
  }

  lemma CleanConcat(x: seq<string>, y: seq<string>)
    requires CleanLines(x) && CleanLines(y)
    ensures CleanLines(x + y)
  {
    hide Clean;
  }

  lemma {:induction false} CleanKeyLines(t: Table<string>, pretty: bool)
    requires CleanTable(t)
    ensures CleanLines(KeyLines(t, pretty))
  {
    if t != [] {
      CleanKeyText(t[0].0, t[0].1, pretty);
      CleanKeyLines(t[1..], pretty);
      hide Clean, KeyText;
      CleanConcat([KeyText(t[0].0, t[0].1, pretty)], KeyLines(t[1..], pretty));
    }
  }

  lemma {:induction false} CleanGenerated(data: Ini, pretty: bool)
    requires CleanIni(data)
    ensures CleanLines(GenLines(data, pretty))
  {
    if data != [] {
      var name, t := data[0].0, data[0].1;
      GenLinesStep(data, pretty);
      CleanKeyLines(t, pretty);
      CleanGenerated(data[1..], pretty);
      assert Clean(SectionText(name));
      hide Clean, KeyLines, GenLines, SectionText;
      CleanConcat([SectionText(name)], KeyLines(t, pretty));
      CleanGap(GenLines(data[1..], pretty), pretty);
      CleanConcat(SectionLines(name, t, pretty), if |data| == 1 then [] else Gap(GenLines(data[1..], pretty), pretty));
    }
  }

  lemma CleanGap(lines: seq<string>, pretty: bool)
    requires CleanLines(lines)
    ensures CleanLines(Gap(lines, pretty))
  {
    if pretty {
      CleanConcat([""], lines);
    }
  }

  /** What the reader makes of a file. */
  function ReadText(text: string): Ini {
    Read(FileLines(text))
  }

  /** Generating a file and reading it back gives the same sections and keys in the same
      order, every value trimmed. */
  lemma RoundTrip(data: Ini, pretty: bool)
    requires GoodIni(data, pretty) && CleanIni(data)
    ensures ReadText(GenText(data, pretty)) == TrimIni(data)
  {
    var lines := GenLines(data, pretty);
    if data != [] {
      CleanGenerated(data, pretty);
      SplitJoined(lines);
      JoinedStart(data, pretty);
    }
    assert Fresh(START.data, data);
    ReadGenerated(START, data, pretty);
    SeqEmpty(TrimIni(data));
  }

  lemma JoinedStart(data: Ini, pretty: bool)
    requires data != []
    ensures Joined(GenLines(data, pretty)) != [] && !StartsWithBom(Joined(GenLines(data, pretty)))
  {
    var lines := GenLines(data, pretty);
    assert lines[0] == SectionText(data[0].0);
    assert Joined(lines)[0] == '[';
    NotBom(Joined(lines), 0);
  }
}

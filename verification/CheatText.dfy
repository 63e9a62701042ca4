/** The cheat list as text: what is written and what reading makes of it. */
module CheatText {
  import opened Options
  import opened IniText
  import opened SplitString
  import opened CheatCompiler
  import opened CheatExec

  // ---------------------------------------------------------------- writing

  /** One cheat in a file. */
  function Piece(c: Cheat): string {
    "--" + c.name + "\n" + (c.code + "\n")
  }

  function Text(cheats: seq<Cheat>): string {
    if cheats == [] then "" else Piece(cheats[0]) + Text(cheats[1..])
  }

  lemma {:induction false} TextUpTo(cheats: seq<Cheat>, i: nat)
    requires i < |cheats|
    ensures Text(cheats[..i + 1]) == Text(cheats[..i]) + Piece(cheats[i])
    decreases i
  {
    hide Piece;
    if i == 0 {
      assert cheats[..1] == [cheats[0]] && [cheats[0]][1..] == [] && cheats[..0] == [];
    } else {
      assert cheats[..i + 1][1..] == cheats[1..][..i] && cheats[..i][1..] == cheats[1..][..i - 1];
      TextUpTo(cheats[1..], i - 1);
    }
  }

  /** `cht_serialize`. */
  method Serialize(cheats: seq<Cheat>) returns (text: string)
    ensures text == Text(cheats)
  {
    hide Text;
    text := "";
    assert cheats[..0] == [];
    TextNone();
    for i := 0 to |cheats|
      invariant text == Text(cheats[..i])
    {
      TextUpTo(cheats, i);
      SeqAssoc(text, "--" + cheats[i].name + "\n", cheats[i].code + "\n");
      text := text + ("--" + cheats[i].name + "\n");
      text := text + (cheats[i].code + "\n");
    }
    assert cheats[..|cheats|] == cheats;
  }

  lemma TextNone()
    ensures Text([]) == ""
  {
  }

  // ---------------------------------------------------------------- reading

  /** A cheat as it is read, before it is compiled. */
  datatype Entry = Entry(name: string, code: string)

  predicate IsHeader(line: string) {
    |line| >= 2 && line[0] == '-' && line[1] == '-'
  }

  /** The line goes to the code of the cheat above it, even when it starts the next one. */
  function WithLine(entries: seq<Entry>, line: string): seq<Entry> {
    if entries == [] then entries
    else entries[|entries| - 1 := Entry(entries[|entries| - 1].name, entries[|entries| - 1].code + (line + "\n"))]
  }

  function Heard(entries: seq<Entry>, line: string): seq<Entry> {
    if line == [] then entries
    else if IsHeader(line) then WithLine(entries, line) + [Entry(line[2..], "")]
    else WithLine(entries, line)
  }

  function ReadLines(entries: seq<Entry>, lines: seq<string>): seq<Entry>
    decreases lines
  {
    if lines == [] then entries else ReadLines(Heard(entries, lines[0]), lines[1..])
  }

  /** The entries of a text. */
  function ReadText(text: string): seq<Entry> {
    ReadLines([], Lines(text))
  }

  predicate Throws(e: Entry) {
    CompileText(e.code).Thrown?
  }

  /** `cht_read_from_file` on the text of the file; no result when the compiler throws. */
  method ReadCheats(text: string) returns (cheats: Option<seq<Cheat>>)
    ensures var entries := ReadText(text);
            && (cheats.None? <==> exists i :: 0 <= i < |entries| && Throws(entries[i]))
            && (cheats.Some? ==>
                && |cheats.value| == |entries|
                && forall i :: 0 <= i < |entries| ==>
                     var c, r := cheats.value[i], CompileText(entries[i].code);
                     c.name == entries[i].name && c.code == entries[i].code && c.active
                     && c.instructions == if r.Ok? then r.instructions else [])
  {
    hide Lines, CompileText;
    var lines := SplitText(text, "\n");
    assert lines == Lines(text) by { LinesAre(text); }
    var entries: seq<Entry>, reading := [], false;
    assert lines[0..] == lines;
    for i := 0 to |lines|
      invariant ReadText(text) == ReadLines(entries, lines[i..]) && (reading <==> entries != [])
    {
      var line := lines[i];
      assert lines[i..][1..] == lines[i + 1..];
      if line == [] {
        continue;
      }
      if reading && entries != [] {
        entries := WithLine(entries, line);
      }
      if IsHeader(line) {
        reading := true;
        entries := entries + [Entry(line[2..], "")];
      }
    }
    assert lines[|lines|..] == [];
    var done: seq<Cheat> := [];
    for i := 0 to |entries|
      invariant |done| == i && forall j :: 0 <= j < i ==> !Throws(entries[j])
      invariant forall j :: 0 <= j < i ==>
                var r := CompileText(entries[j].code);
                done[j] == Cheat(entries[j].name, entries[j].code, true, if r.Ok? then r.instructions else [])
    {
      var r := Compile(entries[i].code);
      if r.Thrown? {
        assert Throws(entries[i]);
        return None;
      }
      done := done + [Cheat(entries[i].name, entries[i].code, true, if r.Ok? then r.instructions else [])];
    }
    cheats := Some(done);
  }

  lemma LinesAre(text: string)
    ensures Lines(text) == Split(text, "\n")
  {
  }

  // ---------------------------------------------------------------- what is written and read

  /** The text of a list is that of its parts, one after the other; that of one cheat is a
      header with its name and its code, each ended by a line break. */
  lemma {:induction false} TextMeans(x: seq<Cheat>, y: seq<Cheat>)
    ensures Text(x + y) == Text(x) + Text(y)
    ensures |x| == 1 ==> Text(x) == "--" + x[0].name + "\n" + x[0].code + "\n"
  {
    hide Piece;
    if x == [] {
      assert x + y == y;
    } else {
      assert (x + y)[1..] == x[1..] + y;
      TextMeans(x[1..], y);
      SeqAssoc(Piece(x[0]), Text(x[1..]), Text(y));
      if |x| == 1 { PieceAlone(x[0]); }
    }
  }

  lemma PieceAlone(c: Cheat)
    ensures Piece(c) + Text([]) == "--" + c.name + "\n" + c.code + "\n"
  {
  }

  /** The lines that are not empty, each ended by a line break. */
  function Broken(lines: seq<string>): string {
    if lines == [] then "" else (if lines[0] == "" then "" else lines[0] + "\n") + Broken(lines[1..])
  }

  /** Lines without a header: nothing before the first header, otherwise they go to the code of
      the last entry. */
  lemma {:induction false} BodyRead(entries: seq<Entry>, body: seq<string>)
    requires forall i :: 0 <= i < |body| ==> !(|body[i]| >= 2 && body[i][0] == '-' && body[i][1] == '-')
    ensures var r := ReadLines(entries, body);
            if entries == [] then r == []
            else
              var n := |entries| - 1;
              r == entries[..n] + [Entry(entries[n].name, entries[n].code + Broken(body))]
    decreases body
  {
    if body == [] {
      if entries != [] {
        var n := |entries| - 1;
        SeqEmpty(entries[n].code);
        assert entries == entries[..n] + [entries[n]];
      }
    } else {
      var next := Heard(entries, body[0]);
      BodyRead(next, body[1..]);
      if entries != [] {
        var n := |entries| - 1;
        var first := if body[0] == "" then "" else body[0] + "\n";
        SeqAssoc(entries[n].code, first, Broken(body[1..]));
        assert next[..n] == entries[..n];
        if body[0] == "" { SeqEmpty(entries[n].code); }
      }
    }
  }

  /** A header starts a new entry; it is also the last line of the code above it. */
  lemma HeaderRead(entries: seq<Entry>, name: string)
    ensures var r := ReadLines(entries, ["--" + name]);
            && |r| == |entries| + 1 && r[|entries|] == Entry(name, "")
            && (entries != [] ==>
                var n := |entries| - 1;
                r[..n] == entries[..n] && r[n] == Entry(entries[n].name, entries[n].code + ("--" + name + "\n")))
  {
    var h := "--" + name;
    var none: seq<string> := [];
    assert h[2..] == name && [h][1..] == none;
  }

  // ---------------------------------------------------------------- names

  function Names(entries: seq<Entry>): seq<string> {
    if entries == [] then [] else [entries[0].name] + Names(entries[1..])
  }

  function CheatNames(cheats: seq<Cheat>): (r: seq<string>)
    ensures |r| == |cheats|
  {
    if cheats == [] then [] else [cheats[0].name] + CheatNames(cheats[1..])
  }

  /** The name that a line carries, if it is a header. */
  function NameIn(line: string): seq<string> {
    if IsHeader(line) then [line[2..]] else []
  }

  /** The names that header lines carry. */
  function Headers(lines: seq<string>): seq<string> {
    if lines == [] then [] else NameIn(lines[0]) + Headers(lines[1..])
  }

  lemma {:induction false} NamesConcat(x: seq<Entry>, y: seq<Entry>)
    ensures Names(x + y) == Names(x) + Names(y)
  {
    if x == [] {
      assert x + y == y;
    } else {
      assert (x + y)[1..] == x[1..] + y;
      NamesConcat(x[1..], y);
    }
  }

  lemma {:induction false} HeadersConcat(x: seq<string>, y: seq<string>)
    ensures Headers(x + y) == Headers(x) + Headers(y)
  {
    hide NameIn;
    if x == [] {
      assert x + y == y;
    } else {
      assert (x + y)[1..] == x[1..] + y;
      HeadersConcat(x[1..], y);
      SeqAssoc(NameIn(x[0]), Headers(x[1..]), Headers(y));
    }
  }

  /** One line adds the name it carries. */
  lemma NamesHeard(entries: seq<Entry>, line: string)
    ensures Names(Heard(entries, line)) == Names(entries) + NameIn(line)
  {
    NamesWithLine(entries, line);
    hide WithLine, Names;
    SeqEmpty(Names(entries));
    if IsHeader(line) {
      NamesConcat(WithLine(entries, line), [Entry(line[2..], "")]);
      NamesOne(Entry(line[2..], ""));
    }
  }

  lemma NamesOne(e: Entry)
    ensures Names([e]) == [e.name]
  {
    assert [e][1..] == [];
  }

  lemma NamesWithLine(entries: seq<Entry>, line: string)
    ensures Names(WithLine(entries, line)) == Names(entries)
  {
    if entries != [] {
      var k, last := |entries| - 1, entries[|entries| - 1];
      var last' := Entry(last.name, last.code + (line + "\n"));
      assert entries == entries[..k] + [last] && WithLine(entries, line) == entries[..k] + [last'];
      NamesConcat(entries[..k], [last]);
      NamesConcat(entries[..k], [last']);
    }
  }

  /** Exactly the header lines give names, in order. */
  lemma {:induction false} NamesRead(entries: seq<Entry>, lines: seq<string>)
    ensures Names(ReadLines(entries, lines)) == Names(entries) + Headers(lines)
    decreases lines
  {
    if lines == [] {
      SeqEmpty(Names(entries));
    } else {
      NamesRead(Heard(entries, lines[0]), lines[1..]);
      NamesHeard(entries, lines[0]);
      hide Heard, NameIn, Names;
      SeqAssoc(Names(entries), NameIn(lines[0]), Headers(lines[1..]));
    }
  }

  // ---------------------------------------------------------------- the lines of a text

  lemma PieceLines(c: Cheat, rest: string)
    ensures Lines(Piece(c) + rest) == Lines("--" + c.name) + (Lines(c.code) + Lines(rest))
  {
    hide Lines;
    assert Piece(c) + rest == ("--" + c.name) + ("\n" + (c.code + ("\n" + rest)));
    LinesConcat("--" + c.name, c.code + ("\n" + rest));
    LinesConcat(c.code, rest);
  }

  /** Names of the header lines of a written list. */
  function TextHeaders(cheats: seq<Cheat>): seq<string> {
    if cheats == [] then []
    else Headers(Lines("--" + cheats[0].name)) + (Headers(Lines(cheats[0].code)) + TextHeaders(cheats[1..]))
  }

  lemma {:induction false} HeadersOfText(cheats: seq<Cheat>)
    ensures Headers(Lines(Text(cheats))) == TextHeaders(cheats)
  {
    hide Lines;
    if cheats == [] {
      LineEmpty();
    } else {
      var c, rest := cheats[0], Text(cheats[1..]);
      PieceLines(c, rest);
      HeadersOfText(cheats[1..]);
      HeadersConcat(Lines("--" + c.name), Lines(c.code) + Lines(rest));
      HeadersConcat(Lines(c.code), Lines(rest));
    }
  }

  lemma HeaderOfName(name: string)
    requires '\n' !in name
    ensures Lines("--" + name) == ["--" + name] && Headers(Lines("--" + name)) == [name]
  {
    OneLine("--" + name);
    hide Lines;
    assert ("--" + name)[2..] == name;
    assert ["--" + name][1..] == [];
  }

  /** A name on one line, and no code line that looks like a header. */
  predicate Portable(c: Cheat) {
    '\n' !in c.name && Headers(Lines(c.code)) == []
  }

  /** Header names have no breaks. */
  lemma {:induction false} HeadersClean(lines: seq<string>, i: nat)
    requires (forall j :: 0 <= j < |lines| ==> '\n' !in lines[j]) && i < |Headers(lines)|
    ensures '\n' !in Headers(lines)[i]
  {
    if IsHeader(lines[0]) {
      if i > 0 { HeadersClean(lines[1..], i - 1); }
    } else {
      HeadersClean(lines[1..], i);
    }
  }

  lemma {:induction false} PortableNames(cheats: seq<Cheat>)
    requires forall i :: 0 <= i < |cheats| ==> Portable(cheats[i])
    ensures TextHeaders(cheats) == CheatNames(cheats)
  {
    if cheats != [] {
      HeaderOfName(cheats[0].name);
      assert Portable(cheats[0]);
      hide Lines, Headers;
      PortableNames(cheats[1..]);
      SeqEmpty(CheatNames(cheats[1..]));
    }
  }

  /** With names on one line there is at least one header per cheat, and more as soon as a
      code line looks like one. */
  lemma {:induction false} HeaderCount(cheats: seq<Cheat>)
    requires forall i :: 0 <= i < |cheats| ==> '\n' !in cheats[i].name
    ensures |TextHeaders(cheats)| >= |cheats|
    ensures |TextHeaders(cheats)| == |cheats| ==> forall i :: 0 <= i < |cheats| ==> Portable(cheats[i])
  {
    if cheats != [] {
      HeaderOfName(cheats[0].name);
      hide Lines, Headers;
      HeaderCount(cheats[1..]);
    }
  }

  lemma {:induction false} CheatNameAt(cheats: seq<Cheat>, i: nat)
    requires i < |cheats|
    ensures CheatNames(cheats)[i] == cheats[i].name
  {
    if i > 0 {
      CheatNameAt(cheats[1..], i - 1);
    }
  }

  /** The names survive exactly when every cheat is portable. */
  lemma NamesSurviveExactly(cheats: seq<Cheat>)
    ensures Names(ReadText(Text(cheats))) == CheatNames(cheats)
            <==> forall i :: 0 <= i < |cheats| ==> Portable(cheats[i])
  {
    var lines := Lines(Text(cheats));
    NamesRead([], lines);
    SeqEmpty(Headers(lines));
    HeadersOfText(cheats);
    hide Portable, Headers, ReadLines, TextHeaders, Text;
    if forall i :: 0 <= i < |cheats| ==> Portable(cheats[i]) {
      PortableNames(cheats);
    } else if TextHeaders(cheats) == CheatNames(cheats) {
      forall i | 0 <= i < |cheats| ensures '\n' !in cheats[i].name {
        CheatNameAt(cheats, i);
        forall j | 0 <= j < |lines| ensures '\n' !in lines[j] { LinesClean(Text(cheats), j); }
        HeadersClean(lines, i);
      }
      HeaderCount(cheats);
      assert false;
    }
  }

  // ---------------------------------------------------------------- codes

  /** What the compiler sees of a code. */
  function Seen(code: string): seq<string> {
    Heeded(Lines(code))
  }

  /** A code made of whole lines. */
  predicate Ended(code: string) {
    code == [] || code[|code| - 1] == '\n'
  }

  lemma SeenMore(code: string, line: string)
    requires Ended(code) && '\n' !in line
    ensures Seen(code + (line + "\n")) == Seen(code) + Heeded([line]) && Ended(code + (line + "\n"))
  {
    OneLine(line);
    LineEmpty();
    SeenEmpty();
    hide Lines, Heeded;
    LinesConcat(line, "");
    assert line + ("\n" + "") == line + "\n";
    HeededConcat([line], [""]);
    SeqEmpty(Heeded([line]));
    if code == [] {
      SeqEmpty(line + "\n");
    } else {
      var front := code[..|code| - 1];
      assert code + (line + "\n") == front + ("\n" + (line + "\n"));
      assert code == front + ("\n" + "");
      LinesConcat(front, line + "\n");
      LinesConcat(front, "");
      HeededConcat(Lines(front), Lines(line + "\n"));
      HeededConcat(Lines(front), Lines(""));
      SeqEmpty(Heeded(Lines(front)));
    }
  }

  lemma SeenEmpty()
    ensures Heeded([""]) == [] && Seen("") == []
  {
    LineEmpty();
    assert [""][1..] == [];
  }

  /** The codes of all entries but the last are settled. */
  ghost predicate Grown(a: seq<Entry>, b: seq<Entry>, seen: seq<string>) {
    && a != [] && |b| == |a| && b[..|b| - 1] == a[..|a| - 1]
    && b[|b| - 1].name == a[|a| - 1].name && Ended(b[|b| - 1].code)
    && Seen(b[|b| - 1].code) == Seen(a[|a| - 1].code) + seen
  }

  lemma WithLineGrown(entries: seq<Entry>, line: string)
    requires entries != [] && Ended(entries[|entries| - 1].code) && '\n' !in line
    ensures Grown(entries, WithLine(entries, line), Heeded([line]))
  {
    SeenMore(entries[|entries| - 1].code, line);
    hide Seen, Heeded, Ended;
  }

  /** Lines without a header go to the last entry. */
  lemma {:induction false} ReadCode(entries: seq<Entry>, lines: seq<string>)
    requires entries != [] && Ended(entries[|entries| - 1].code)
    requires Headers(lines) == [] && forall i :: 0 <= i < |lines| ==> '\n' !in lines[i]
    ensures Grown(entries, ReadLines(entries, lines), Heeded(lines))
    decreases lines
  {
    hide Seen, Ended, Heeded, ReadLines, WithLine, Headers, IsHeader;
    if lines == [] {
      SeqEmpty(Seen(entries[|entries| - 1].code));
      assert ReadLines(entries, []) == entries && Heeded([]) == [] by { ReadNone(entries); }
    } else {
      var line, rest := lines[0], lines[1..];
      NoHeader(lines);
      HeededConcat([line], rest);
      assert [line] + rest == lines;
      ReadStep(entries, lines);
      if line == [] {
        SeenEmpty();
        ReadCode(entries, rest);
        SeqEmpty(Heeded(rest));
      } else {
        WithLineGrown(entries, line);
        ReadCode(WithLine(entries, line), rest);
        SeqAssoc(Seen(entries[|entries| - 1].code), Heeded([line]), Heeded(rest));
      }
    }
  }

  lemma NoHeader(lines: seq<string>)
    requires lines != [] && Headers(lines) == []
    ensures !IsHeader(lines[0]) && Headers(lines[1..]) == []
  {
  }

  lemma ReadNone(entries: seq<Entry>)
    ensures ReadLines(entries, []) == entries && Heeded([]) == []
  {
  }

  lemma ReadStep(entries: seq<Entry>, lines: seq<string>)
    requires lines != []
    ensures ReadLines(entries, lines) == ReadLines(Heard(entries, lines[0]), lines[1..])
  {
  }

  lemma {:induction false} ReadConcat(entries: seq<Entry>, x: seq<string>, y: seq<string>)
    ensures ReadLines(entries, x + y) == ReadLines(ReadLines(entries, x), y)
    decreases x
  {
    hide Heard;
    if x == [] {
      assert x + y == y;
    } else {
      assert (x + y)[1..] == x[1..] + y;
      ReadConcat(Heard(entries, x[0]), x[1..], y);
    }
  }

  /** Entries with the same names that the compiler sees alike. */
  ghost predicate Same(a: seq<Entry>, b: seq<Entry>) {
    |a| == |b| && forall i :: 0 <= i < |a| ==> a[i].name == b[i].name && Seen(a[i].code) == Seen(b[i].code)
  }

  /** The same for entries and the cheats they were written from. */
  ghost predicate Alike(a: seq<Entry>, cheats: seq<Cheat>) {
    |a| == |cheats| && forall i :: 0 <= i < |a| ==>
      a[i].name == cheats[i].name && Seen(a[i].code) == Seen(cheats[i].code)
  }

  ghost predicate LastEnded(entries: seq<Entry>) {
    entries != [] ==> Ended(entries[|entries| - 1].code)
  }

  lemma HeaderLine(entries: seq<Entry>, name: string)
    ensures ReadLines(entries, ["--" + name]) == WithLine(entries, "--" + name) + [Entry(name, "")]
    ensures Heeded(["--" + name]) == []
  {
    var line := "--" + name;
    var one: seq<string> := [line];
    assert IsHeader(line) && line[2..] == name;
    assert one[1..] == [];
    hide WithLine;
    assert ReadLines(entries, one) == ReadLines(Heard(entries, line), []);
  }

  /** A header is not seen in the code above it. */
  lemma ReadHeader(entries: seq<Entry>, name: string)
    requires LastEnded(entries) && '\n' !in name
    ensures var r := ReadLines(entries, ["--" + name]);
            && r != [] && Same(r[..|r| - 1], entries) && r[|r| - 1] == Entry(name, "")
  {
    hide ReadLines, Seen, Ended, Heeded, WithLine;
    var line := "--" + name;
    HeaderLine(entries, name);
    var w := WithLine(entries, line);
    assert (w + [Entry(name, "")])[..|w|] == w;
    if entries == [] {
      assert w == [] by { WithLineNone(line); }
    } else {
      WithLineGrown(entries, line);
      GrownSame(entries, w);
    }
  }

  lemma WithLineNone(line: string)
    ensures WithLine([], line) == []
  {
  }

  lemma GrownSame(a: seq<Entry>, b: seq<Entry>)
    requires Grown(a, b, [])
    ensures Same(b, a)
  {
    hide Seen, Ended;
    SeqEmpty(Seen(a[|a| - 1].code));
    forall i | 0 <= i < |b| ensures b[i].name == a[i].name && Seen(b[i].code) == Seen(a[i].code) {
      if i < |b| - 1 { assert b[i] == b[..|b| - 1][i] && a[i] == a[..|a| - 1][i]; }
    }
  }

  /** Header and code of one cheat become one entry. */
  lemma ReadPiece(entries: seq<Entry>, c: Cheat)
    requires LastEnded(entries) && Portable(c)
    ensures var r := ReadLines(entries, Lines("--" + c.name) + Lines(c.code));
            && r != [] && LastEnded(r) && Same(r[..|r| - 1], entries)
            && r[|r| - 1].name == c.name && Seen(r[|r| - 1].code) == Seen(c.code)
  {
    HeaderOfName(c.name);
    ReadConcat(entries, ["--" + c.name], Lines(c.code));
    ReadHeader(entries, c.name);
    var e := ReadLines(entries, ["--" + c.name]);
    forall i | 0 <= i < |Lines(c.code)| ensures '\n' !in Lines(c.code)[i] { LinesClean(c.code, i); }
    ReadCode(e, Lines(c.code));
    SeenEmpty();
    SeqEmpty(Heeded(Lines(c.code)));
  }

  lemma {:induction false} ReadAll(entries: seq<Entry>, cheats: seq<Cheat>)
    requires LastEnded(entries) && forall i :: 0 <= i < |cheats| ==> Portable(cheats[i])
    ensures var r := ReadLines(entries, Lines(Text(cheats)));
            && |r| == |entries| + |cheats| && Same(r[..|entries|], entries) && Alike(r[|entries|..], cheats)
    decreases cheats
  {
    hide Lines, Portable, LastEnded, Seen, Heard;
    if cheats == [] {
      LineEmpty();
      assert ReadLines(entries, [""]) == entries by { ReadNothing(entries); }
    } else {
      var c, rest := cheats[0], cheats[1..];
      var front := Lines("--" + c.name) + Lines(c.code);
      PieceLines(c, Text(rest));
      SeqAssoc(Lines("--" + c.name), Lines(c.code), Lines(Text(rest)));
      ReadConcat(entries, front, Lines(Text(rest)));
      ReadPiece(entries, c);
      var e := ReadLines(entries, front);
      hide ReadLines, Text;
      ReadAll(e, rest);
      SameMore(entries, e, ReadLines(e, Lines(Text(rest))), cheats);
    }
  }

  lemma ReadNothing(entries: seq<Entry>)
    ensures ReadLines(entries, [""]) == entries
  {
    assert [""][1..] == [];
  }

  lemma SameMore(entries: seq<Entry>, e: seq<Entry>, r: seq<Entry>, cheats: seq<Cheat>)
    requires cheats != [] && e != [] && Same(e[..|e| - 1], entries)
    requires e[|e| - 1].name == cheats[0].name && Seen(e[|e| - 1].code) == Seen(cheats[0].code)
    requires |r| == |e| + |cheats| - 1 && Same(r[..|e|], e) && Alike(r[|e|..], cheats[1..])
    ensures |r| == |entries| + |cheats| && Same(r[..|entries|], entries) && Alike(r[|entries|..], cheats)
  {
    hide Seen;
    var n := |entries|;
    forall i | 0 <= i < n ensures r[i].name == entries[i].name && Seen(r[i].code) == Seen(entries[i].code) {
      assert r[i] == r[..|e|][i] && e[i] == e[..|e| - 1][i];
    }
    forall i | 0 <= i < |cheats|
      ensures r[n + i].name == cheats[i].name && Seen(r[n + i].code) == Seen(cheats[i].code)
    {
      if i == 0 {
        assert r[n] == r[..|e|][n];
      } else {
        assert r[n + i] == r[|e|..][i - 1] && cheats[1..][i - 1] == cheats[i];
      }
    }
  }

  /** Reading back what was written gives the same names, and codes that compile to the same
      instructions, although every code gains the header below it and loses its empty lines. */
  lemma TextRoundTrip(cheats: seq<Cheat>)
    requires forall i :: 0 <= i < |cheats| ==> Portable(cheats[i])
    ensures var entries := ReadText(Text(cheats));
            && |entries| == |cheats|
            && forall i :: 0 <= i < |cheats| ==>
                 entries[i].name == cheats[i].name && CompileText(entries[i].code) == CompileText(cheats[i].code)
  {
    hide Portable;
    ReadAll([], cheats);
    var entries := ReadText(Text(cheats));
    assert entries[0..] == entries;
    forall i | 0 <= i < |cheats| ensures CompileText(entries[i].code) == CompileText(cheats[i].code) {
      SameHeeded(Lines(entries[i].code), Lines(cheats[i].code));
    }
  }
}

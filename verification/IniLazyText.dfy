/** Writing a structure to a file, new or existing, on the text of the file. */
module IniLazyText {
  import opened Options
  import opened IniText
  import opened IniParser
  import opened IniMap
  import opened IniFile
  import opened IniRewrite
  import opened IniLazy
  import opened IniLazyProof
  import W = IniLazyWriter

  /** Lines written to a file. */
  function FileText(lines: seq<string>): string {
    if lines == [] then "" else Joined(lines)
  }

  function Mark(isBom: bool): string {
    if isBom then BOM else ""
  }

  /** The text of an existing file after a write; a byte order mark stays. */
  function Rewritten(text: string, data: Ini, pretty: bool): string {
    var lines := FileLines(text);
    Mark(StartsWithBom(text)) + FileText(LazyOutput(KeptFrom(START, lines), data, Read(lines), pretty))
  }

  /** The loop that writes the lines. */
  method JoinLines(lines: seq<string>) returns (text: string)
    ensures text == FileText(lines)
  {
    text := "";
    if lines != [] {
      hide Joined;
      var i := 0;
      ghost var whole := Joined(lines);
      assert lines[0..] == lines && "" + whole == whole;
      while true
        invariant 0 <= i < |lines| && text + Joined(lines[i..]) == whole
        decreases |lines| - i
      {
        JoinedStep(lines, i);
        ghost var rest := if i + 1 < |lines| then Joined(lines[i + 1..]) else "";
        SeqAssoc(text, lines[i], "\r\n" + rest);
        text := text + lines[i];
        i := i + 1;
        if i == |lines| {
          break;
        }
        SeqAssoc(text, "\r\n", rest);
        text := text + "\r\n";
      }
    }
  }

  lemma JoinedStep(lines: seq<string>, i: nat)
    requires i < |lines|
    ensures Joined(lines[i..]) == if i + 1 == |lines| then lines[i] else lines[i] + ("\r\n" + Joined(lines[i + 1..]))
  {
    assert lines[i..][1..] == lines[i + 1..];
    if i + 1 < |lines| {
      SeqAssoc(lines[i], "\r\n", Joined(lines[i + 1..]));
    }
  }

  /** `INIWriter::operator<<`: `file` is the text of the existing file, if there is one. */
  method WriteFile(file: Option<string>, data: Ini, pretty: bool) returns (text: string)
    ensures text == if file.None? then GenText(data, pretty) else Rewritten(file.value, data, pretty)
  {
    if file.None? {
      text := Generate(data, pretty);
      return;
    }
    var fileLines, isBom := SplitLines(file.value);
    var original, lineData := ReadStructure(fileLines);
    var output, visits := W.WriteLazily(lineData, data, original, pretty);
    text := JoinLines(output);
    text := (if isBom then BOM else "") + text;
  }

  // ---------------------------------------------------------------- written lines survive

  lemma {:induction false} LinesOfClean(text: string)
    ensures CleanLines(LinesOf(text))
  {
    if text != [] {
      var rest := LinesOf(text[1..]);
      LinesOfClean(text[1..]);
      if text[0] != '\n' && text[0] != '\r' && text[0] != '\0' {
        CleanMore(text[0], rest[0]);
        hide Clean;
      }
    }
  }

  lemma CleanMore(c: char, s: string)
    requires c != '\n' && c != '\r' && c != '\0' && Clean(s)
    ensures Clean([c] + s)
  {
  }

  lemma {:induction false} KeptClean(st: Reading, lines: seq<string>)
    requires CleanLines(lines)
    ensures CleanLines(KeptFrom(st, lines))
    decreases lines
  {
    hide Clean, ReadStep, KeepLine;
    if lines != [] {
      KeptClean(ReadStep(st, lines[0]), lines[1..]);
      var first := if KeepLine(st, lines[0]) then [lines[0]] else [];
      CleanConcat(first, KeptFrom(ReadStep(st, lines[0]), lines[1..]));
    }
  }

  lemma RewriteClean(line: string, v: string, pretty: bool)
    requires Clean(line) && Clean(v)
    ensures Clean(RewriteLine(line, v, pretty))
  {
    CleanTrim(v);
    hide Trim, Blank, IndexOf, TrimLeft;
  }

  lemma KeyClean(line: string, value: string, dv: string, pretty: bool)
    requires Clean(line) && Clean(dv)
    ensures Clean(KeptOrRewritten(line, value, dv, pretty))
  {
    RewriteClean(line, dv, pretty);
    hide Clean, RewriteLine;
  }

  lemma InnerClean(data: Ini, s: string)
    requires CleanIni(data)
    ensures CleanTable(InnerOf(data, s))
  {
    hide Clean, Where;
  }

  lemma ValClean(data: Ini, s: string, k: string)
    requires CleanIni(data) && Val(data, s, k).Some?
    ensures Clean(Val(data, s, k).value)
  {
    InnerClean(data, s);
    hide Clean, CleanIni, InnerOf;
  }

  lemma {:induction false} MissingClean(t: Table<string>, original: Table<string>, pretty: bool)
    requires CleanTable(t)
    ensures CleanLines(MissingLines(t, original, pretty))
  {
    if t != [] {
      CleanKeyText(t[0].0, t[0].1, pretty);
      MissingClean(t[1..], original, pretty);
      hide Clean, KeyText, Has, Norm;
      var first := if Has(original, Norm(t[0].0)) then [] else [KeyText(t[0].0, t[0].1, pretty)];
      CleanConcat(first, MissingLines(t[1..], original, pretty));
    }
  }

  ghost predicate PassClean(p: Pass) {
    CleanLines(p.head) && CleanLines(p.tail)
  }

  lemma FlushClean(p: Pass, data: Ini, original: Ini, pretty: bool)
    requires PassClean(p) && CleanIni(data)
    ensures PassClean(Flushed(p, data, original, pretty))
  {
    InnerClean(data, Norm(p.section));
    MissingClean(InnerOf(data, Norm(p.section)), InnerOf(original, Norm(p.section)), pretty);
    hide CleanLines, MissingLines, InnerOf, Norm, Has, CleanIni;
    assert CleanLines([]) by { NoLines(); }
    CleanConcat(p.head, NewKeys(p.section, data, original, pretty));
  }

  lemma NoLines()
    ensures CleanLines([])
  {
  }

  lemma WrittenClean(p: Pass, line: string)
    requires PassClean(p) && Clean(line)
    ensures CleanLines(p.head + p.tail + [line]) && CleanLines(p.tail + [line])
  {
    hide Clean;
    CleanConcat(p.head, p.tail);
    CleanConcat(p.head + p.tail, [line]);
    CleanConcat(p.tail, [line]);
  }

  lemma StepClean(p: Pass, line: string, data: Ini, original: Ini, pretty: bool)
    requires PassClean(p) && Clean(line) && CleanIni(data)
    ensures PassClean(LazyStep(p, line, data, original, pretty))
  {
    hide Clean, CleanLines, ParseLine, CleanIni, Val, Norm, Has, Flushed, KeptOrRewritten;
    NoLines();
    FlushClean(p, data, original, pretty);
    match ParseLine(line)
    case Section(n) =>
      WrittenClean(p, line);
      WrittenClean(Flushed(p, data, original, pretty), line);
    case KeyValue(k, v) =>
      var dv := Val(data, Norm(p.section), Norm(k));
      if dv.Some? {
        ValClean(data, Norm(p.section), Norm(k));
        KeyClean(line, v, dv.value, pretty);
        WrittenClean(p, KeptOrRewritten(line, v, dv.value, pretty));
      }
    case _ =>
      WrittenClean(p, line);
  }

  lemma {:induction false} PassIsClean(lines: seq<string>, data: Ini, original: Ini, pretty: bool)
    requires CleanLines(lines) && CleanIni(data)
    ensures PassClean(LazyPass(lines, data, original, pretty))
    decreases |lines|
  {
    hide Clean, LazyStep, CleanIni;
    if lines != [] {
      var n := |lines| - 1;
      assert CleanLines(lines[..n]);
      PassIsClean(lines[..n], data, original, pretty);
      StepClean(LazyPass(lines[..n], data, original, pretty), lines[n], data, original, pretty);
    }
  }

  lemma {:induction false} NewSectionsClean(out: seq<string>, data: Ini, original: Ini, pretty: bool)
    requires CleanLines(out) && CleanIni(data)
    ensures CleanLines(WithNewSections(out, data, original, pretty))
    decreases |data|
  {
    if data != [] {
      var name, t := data[0].0, data[0].1;
      CleanKeyLines(t, pretty);
      assert Clean(SectionText(name)) && Clean("");
      assert CleanIni(data[1..]);
      hide Clean, KeyLines, SectionText, Has, Norm, CleanIni;
      CleanConcat([SectionText(name)], KeyLines(t, pretty));
      CleanConcat(out, Spacer(out, pretty));
      CleanConcat(out + Spacer(out, pretty), SectionLines(name, t, pretty));
      hide CleanLines, SectionLines, Spacer;
      NewSectionsClean(out, data[1..], original, pretty);
      NewSectionsClean(out + Spacer(out, pretty) + SectionLines(name, t, pretty), data[1..], original, pretty);
    }
  }

  lemma OutputClean(lines: seq<string>, data: Ini, original: Ini, pretty: bool)
    requires CleanLines(lines) && CleanIni(data)
    ensures CleanLines(LazyOutput(lines, data, original, pretty))
  {
    hide CleanLines, CleanIni, LazyPass, Flushed, WithNewSections;
    NoLines();
    PassIsClean(lines, data, original, pretty);
    var p := LazyPass(lines, data, original, pretty);
    FlushClean(p, data, original, pretty);
    var q := Flushed(p, data, original, pretty);
    CleanConcat(q.head, q.tail);
    NewSectionsClean(Edited(lines, data, original, pretty), data, original, pretty);
  }

  // ---------------------------------------------------------------- no byte order mark by accident

  /** Lines that can open a written file. */
  predicate Opens(line: string) {
    !ParseLine(line).KeyValue? && !ParseLine(line).Unknown?
  }

  ghost predicate Opening(lines: seq<string>) {
    lines != [] ==> Opens(lines[0])
  }

  lemma BomNeverOpens(line: string)
    requires StartsWithBom(line)
    ensures !Opens(line)
  {
    assert line[0] == line[..3][0] == '\U{EF}';
    TrimRightKeeps(line);
    hide TrimRight;
    assert Trim(line)[0] == '\U{EF}';
    hide Trim, IndexOf, Blank, Unescape;
  }

  lemma OpeningText(lines: seq<string>)
    requires Opening(lines)
    ensures !StartsWithBom(FileText(lines))
  {
    if lines != [] {
      var t, first := Joined(lines), lines[0];
      hide ParseLine;
      if |first| < 3 {
        if |lines| > 1 {
          assert t[|first|] == '\r';
          NotBom(t, |first|);
        }
      } else {
        assert t[..3] == first[..3];
        if StartsWithBom(first) { BomNeverOpens(first); }
      }
    }
  }

  /** A pass over kept lines writes nothing before a section but empty lines and comments. */
  lemma StepOpens(p: Pass, inp: Reading, line: string, data: Ini, original: Ini, pretty: bool)
    requires KeepLine(inp, line) && Placed(p, inp, ReadFrom(START, p.head), data) && Opening(p.head + p.tail)
    ensures var q := LazyStep(p, line, data, original, pretty); Opening(q.head + q.tail)
  {
    if p.parsing { HeadOpen(p, inp, data); }
    hide Norm, Has, Val, KeptOrRewritten, NewKeys, ReadFrom, AllInert;
    match ParseLine(line)
    case Section(n) =>
      hide ParseLine;
    case KeyValue(k, v) =>
      hide ParseLine;
    case _ =>
      hide ParseLine;
      SeqAssoc(p.head, p.tail, [line]);
  }

  lemma HeadOpen(p: Pass, inp: Reading, data: Ini)
    requires Placed(p, inp, ReadFrom(START, p.head), data) && p.parsing
    ensures p.head != []
  {
    hide Norm, Has, AllInert;
  }

  lemma {:induction false} PassOpens(lines: seq<string>, i: nat, data: Ini, pretty: bool)
    requires GoodIni(data, pretty) && AllKept(lines) && i <= |lines|
    ensures var p := LazyPass(lines[..i], data, Read(lines), pretty); Opening(p.head + p.tail)
    decreases i
  {
    hide GoodIni, Matches, LazyStep, ReadFrom, Read, Placed, KeepLine, Opens;
    if i == 0 {
      assert lines[..0] == [];
    } else {
      hide Opening;
      PassOpens(lines, i - 1, data, pretty);
      PassFollows(lines, i - 1, data, pretty, "", "");
      assert lines[..i][..i - 1] == lines[..i - 1] && lines[..i][i - 1] == lines[i - 1];
      StepOpens(LazyPass(lines[..i - 1], data, Read(lines), pretty), ReadFrom(START, lines[..i - 1]), lines[i - 1],
                data, Read(lines), pretty);
    }
  }

  lemma {:induction false} NewSectionsOpen(out: seq<string>, data: Ini, original: Ini, pretty: bool)
    requires GoodIni(data, pretty) && Opening(out)
    ensures Opening(WithNewSections(out, data, original, pretty))
    decreases |data|
  {
    if data != [] {
      var name, t := data[0].0, data[0].1;
      GoodFirst(data, pretty);
      assert Opens(SectionText(name)) by {
        NormIdempotent(name);
        SectionLine(name);
      }
      hide GoodIni, GoodTable, GoodSection, Norm, Has, KeyLines, Opens, SectionText;
      SectionOpens(out, name, t, pretty);
      hide Opening, SectionLines, Spacer;
      NewSectionsOpen(out, data[1..], original, pretty);
      NewSectionsOpen(out + Spacer(out, pretty) + SectionLines(name, t, pretty), data[1..], original, pretty);
    }
  }

  lemma SectionOpens(out: seq<string>, name: string, t: Table<string>, pretty: bool)
    requires Opening(out) && Opens(SectionText(name))
    ensures Opening(out + Spacer(out, pretty) + SectionLines(name, t, pretty))
  {
    hide Opens, SectionText, KeyLines;
  }

  lemma OutputOpens(lines: seq<string>, data: Ini, pretty: bool)
    requires GoodIni(data, pretty) && AllKept(lines)
    ensures Opening(LazyOutput(lines, data, Read(lines), pretty))
  {
    var original := Read(lines);
    if lines != [] {
      PassOpens(lines, |lines|, data, pretty);
      PassFollows(lines, |lines|, data, pretty, "", "");
      assert lines[..|lines|] == lines;
      var p := LazyPass(lines, data, original, pretty);
      hide GoodIni, ReadFrom, Opens, LazyPass, Matches;
      FlushOpens(p, ReadFrom(START, lines), data, pretty);
    }
    hide GoodIni, LazyPass, WithNewSections;
    NewSectionsOpen(Edited(lines, data, original, pretty), data, original, pretty);
  }

  lemma FlushOpens(p: Pass, inp: Reading, data: Ini, pretty: bool)
    requires Placed(p, inp, ReadFrom(START, p.head), data) && Opening(p.head + p.tail)
    ensures var q := Flushed(p, data, inp.data, pretty); Opening(q.head + q.tail)
  {
    if p.parsing {
      HeadOpen(p, inp, data);
      hide Norm, Has, AllInert, NewKeys, Opens;
    } else {
      hide Norm, ReadFrom, AllInert, Opens, MissingLines;
      assert NewKeys(p.section, data, inp.data, pretty) == [];
      SeqEmpty(p.head);
    }
  }

  /** Written lines are read back as they are, behind a byte order mark or not. */
  lemma FileReads(lines: seq<string>, isBom: bool)
    requires CleanLines(lines) && Opening(lines)
    ensures ReadText(Mark(isBom) + FileText(lines)) == Read(lines)
  {
    var t := FileText(lines);
    assert lines != [] ==> LinesOf(t) == lines by { if lines != [] { SplitJoined(lines); } }
    assert Read([""]) == Read([]) by { ReadBlank(START); }
    assert LinesOf("") == [""];
    if isBom {
      assert (BOM + t)[..3] == BOM && (BOM + t)[3..] == t;
      LinesOfNuls(t);
      hide LinesOf, Read;
      assert FileLines(BOM + t) == LinesOf(t);
    } else {
      OpeningText(lines);
      SeqEmpty(t);
      hide LinesOf, Read, StartsWithBom;
    }
  }

  lemma MarkStays(lines: seq<string>, isBom: bool)
    requires Opening(lines)
    ensures StartsWithBom(Mark(isBom) + FileText(lines)) <==> isBom
  {
    OpeningText(lines);
    var t := FileText(lines);
    hide FileText, Opening;
    if isBom {
      assert (BOM + t)[..3] == BOM;
    } else {
      assert "" + t == t;
    }
  }

  /** Writing `data` over a file and reading the file back: exactly the sections and keys of
      `data` are there, and a value is the wanted one, trimmed, exactly unless the file held
      another value for that key that starts with `\=`. */
  lemma WriteThenRead(text: string, data: Ini, pretty: bool)
    requires GoodIni(data, pretty) && CleanIni(data)
    ensures var original, out := ReadText(text), ReadText(Rewritten(text, data, pretty));
            && (StartsWithBom(Rewritten(text, data, pretty)) <==> StartsWithBom(text))
            && (forall s :: Has(out, s) <==> Has(data, s))
            && (forall s, k :: Val(out, s, k).Some? <==> Val(data, s, k).Some?)
            && (forall s, k :: Val(out, s, k) == TrimOpt(Val(data, s, k))
                               <==> var ov, dv := Val(original, s, k), Val(data, s, k);
                                    ov.Some? && dv.Some? && StartsEscaped(ov.value) ==> ov == dv)
  {
    var lines := FileLines(text);
    if text != [] { LinesOfClean(Body(text)); }
    hide Clean, GoodIni, CleanIni, Has, Val, Read, LazyOutput, KeptFrom, TrimOpt, StartsEscaped, LinesOf, FileText,
      StartsWithBom, Opening;
    KeptClean(START, lines);
    KeptIsKept(lines);
    var kept := KeptFrom(START, lines);
    OutputClean(kept, data, Read(lines), pretty);
    OutputOpens(kept, data, pretty);
    FileReads(LazyOutput(kept, data, Read(lines), pretty), StartsWithBom(text));
    MarkStays(LazyOutput(kept, data, Read(lines), pretty), StartsWithBom(text));
    LazyWriteReads(lines, data, pretty);
  }
}

/** The order of sections and keys after a lazy write. */
module IniOrder {
  import opened IniText
  import opened IniParser
  import opened IniMap
  import opened IniFile
  import opened IniLazy
  import opened IniLazyProof

  function In<T>(m: Table<T>): string -> bool {
    k => Has(m, k)
  }

  function NotIn<T>(m: Table<T>): string -> bool {
    k => !Has(m, k)
  }

  // ---------------------------------------------------------------- sections

  /** The sections written so far are those read so far that the data has. */
  ghost predicate SameSections(inp: Reading, out: Reading, data: Ini) {
    KeysOf(out.data) == Only(KeysOf(inp.data), In(data))
  }

  lemma TouchKeys(d: Ini, name: string)
    ensures KeysOf(Touch(d, name)) == if Has(d, Norm(name)) then KeysOf(d) else KeysOf(d) + [Norm(name)]
  {
    hide Norm, KeysOf;
    if !Has(d, Norm(name)) {
      KeysConcat(d, [(Norm(name), [])]);
      KeysOne<Table<string>>(Norm(name), []);
    }
  }

  /** A key line leaves the sections alone. */
  lemma KeyLineKeys(st: Reading, line: string)
    requires st.inSection && ParseLine(line).KeyValue? && Has(st.data, Norm(st.section))
    ensures KeysOf(ReadStep(st, line).data) == KeysOf(st.data)
  {
    hide ParseLine, Norm, Put, KeysOf, InnerOf;
    var k, v := ParseLine(line).key, ParseLine(line).value;
    KeysPut(st.data, Norm(st.section), Put(InnerOf(st.data, Norm(st.section)), Norm(k), v));
  }

  lemma {:induction false} MissingKeys(st: Reading, t: Table<string>, original: Table<string>, pretty: bool)
    requires GoodTable(t, pretty) && st.inSection && Has(st.data, Norm(st.section))
    ensures KeysOf(ReadFrom(st, MissingLines(t, original, pretty)).data) == KeysOf(st.data)
    decreases t
  {
    if t != [] {
      var line, rest := KeyText(t[0].0, t[0].1, pretty), MissingLines(t[1..], original, pretty);
      GoodHead(t, pretty);
      if Has(original, Norm(t[0].0)) {
        SeqEmpty(rest);
        hide Norm, Has, ReadFrom, MissingLines, KeysOf;
        MissingKeys(st, t[1..], original, pretty);
      } else {
        hide Norm, Has, ReadFrom, ReadStep, KeyText, KeysOf, ParseLine;
        ReadConcat(st, [line], rest);
        ReadOne(st, line);
        ReadKeyLine(st, line, Norm(st.section), "");
        KeyLineKeys(st, line);
        hide MissingLines;
        MissingKeys(ReadStep(st, line), t[1..], original, pretty);
      }
    }
  }

  lemma FlushKeys(out: Reading, section: string, data: Ini, original: Ini, pretty: bool)
    requires GoodIni(data, pretty) && out.inSection && out.section == section && Has(out.data, Norm(section))
    ensures KeysOf(ReadFrom(out, NewKeys(section, data, original, pretty)).data) == KeysOf(out.data)
  {
    var here := Norm(section);
    InnerGood(data, here, pretty);
    hide Norm, Has, InnerOf, GoodIni, GoodTable, ReadFrom, KeysOf, MissingLines;
    MissingKeys(out, InnerOf(data, here), InnerOf(original, here), pretty);
    assert ReadFrom(out, []) == out by { ReadNone(out); }
  }

  lemma ReadNone(st: Reading)
    ensures ReadFrom(st, []) == st
  {
  }

  lemma SectionSections(inp: Reading, out: Reading, line: string, data: Ini)
    requires ParseLine(line).Section? && SameSections(inp, out, data)
    requires var s := Norm(ParseLine(line).name); Has(out.data, s) <==> Has(inp.data, s) && Has(data, s)
    ensures SameSections(ReadStep(inp, line), SectionOut(out, line, data), data)
  {
    hide ParseLine, Norm, Has, KeysOf, Only, Touch;
    var n := ParseLine(line).name;
    TouchKeys(inp.data, n);
    TouchKeys(out.data, n);
    OnlyConcat(KeysOf(inp.data), [Norm(n)], In(data));
    OnlyOne(Norm(n), In(data));
    SeqEmpty(Only(KeysOf(inp.data), In(data)));
  }

  lemma KeySections(p: Pass, inp: Reading, out: Reading, line: string, data: Ini, pretty: bool)
    requires GoodIni(data, pretty) && ParseLine(line).KeyValue? && p.parsing
    requires Placed(p, inp, out, data) && SameSections(inp, out, data)
    ensures SameSections(ReadStep(inp, line), KeyOut(p, out, line, data, pretty), data)
  {
    var dv := Val(data, Norm(p.section), Norm(ParseLine(line).key));
    if dv.Some? {
      PlainKey(data, Norm(p.section), Norm(ParseLine(line).key), pretty);
      EditedKey(line, dv.value, pretty);
    }
    hide GoodIni, ParseLine, Norm, Has, Val, ReadStep, KeptOrRewritten, AllInert, KeysOf, Only;
    KeyLineKeys(inp, line);
    if dv.Some? {
      KeyLineKeys(out, KeptOrRewritten(line, ParseLine(line).value, dv.value, pretty));
    }
  }

  ghost predicate Ordered(p: Pass, inp: Reading, data: Ini) {
    SameSections(inp, ReadFrom(START, p.head), data)
  }

  lemma SectionOrdered(p: Pass, inp: Reading, line: string, data: Ini, original: Ini, pretty: bool)
    requires GoodIni(data, pretty) && ParseLine(line).Section? && Ordered(p, inp, data)
    requires Follows(p, inp, data, original, Norm(ParseLine(line).name), "")
    ensures Ordered(LazyStep(p, line, data, original, pretty), ReadStep(inp, line), data)
  {
    hide GoodIni, ParseLine, ReadFrom, Norm, NewKeys, AllInert, ReadStep, KeysOf, Only, Follows, Has, AfterSection,
      SameSections;
    var n := ParseLine(line).name;
    FollowsFacts(p, inp, data, original, Norm(n));
    if p.parsing {
      FlushOrdered(p, inp, data, original, pretty, Norm(n));
      WrittenOrdered(Flushed(p, data, original, pretty), inp, line, data);
    } else {
      WrittenOrdered(p, inp, line, data);
    }
  }

  lemma FollowsFacts(p: Pass, inp: Reading, data: Ini, original: Ini, s: string)
    requires Follows(p, inp, data, original, s, "")
    ensures var out := ReadFrom(START, p.head);
            Placed(p, inp, out, data) && AllInert(p.tail) && (Has(out.data, s) <==> Has(inp.data, s) && Has(data, s))
  {
    hide ReadFrom, Norm, AllInert, Has, Val;
  }

  lemma FlushOrdered(p: Pass, inp: Reading, data: Ini, original: Ini, pretty: bool, s: string)
    requires GoodIni(data, pretty) && p.parsing && Placed(p, inp, ReadFrom(START, p.head), data)
             && Ordered(p, inp, data)
    ensures var q := Flushed(p, data, original, pretty);
            Ordered(q, inp, data) && (Has(ReadFrom(START, q.head).data, s) <==> Has(ReadFrom(START, p.head).data, s))
  {
    hide GoodIni, ReadFrom, Norm, NewKeys, AllInert, KeysOf, Only, Has;
    var out, q := ReadFrom(START, p.head), Flushed(p, data, original, pretty);
    ReadConcat(START, p.head, NewKeys(p.section, data, original, pretty));
    FlushKeys(out, p.section, data, original, pretty);
    KeysHas(out.data, s);
    KeysHas(ReadFrom(START, q.head).data, s);
  }

  lemma WrittenOrdered(p: Pass, inp: Reading, line: string, data: Ini)
    requires ParseLine(line).Section? && AllInert(p.tail) && Ordered(p, inp, data)
    requires var s := Norm(ParseLine(line).name);
             Has(ReadFrom(START, p.head).data, s) <==> Has(inp.data, s) && Has(data, s)
    ensures Ordered(AfterSection(p, line, ParseLine(line).name, data), ReadStep(inp, line), data)
  {
    hide ParseLine, ReadFrom, Norm, AllInert, ReadStep, Has, SameSections;
    SectionSections(inp, ReadFrom(START, p.head), line, data);
    ReadBehind(p.head, p.tail, line);
  }

  lemma KeyOrdered(p: Pass, inp: Reading, line: string, data: Ini, original: Ini, pretty: bool)
    requires GoodIni(data, pretty) && ParseLine(line).KeyValue? && KeepLine(inp, line) && Ordered(p, inp, data)
    requires Placed(p, inp, ReadFrom(START, p.head), data)
    ensures Ordered(LazyStep(p, line, data, original, pretty), ReadStep(inp, line), data)
  {
    var out, dv := ReadFrom(START, p.head), Val(data, Norm(p.section), Norm(ParseLine(line).key));
    hide GoodIni, ParseLine, ReadFrom, Norm, AllInert, ReadStep, KeysOf, Only, Has, Val, KeptOrRewritten;
    if p.skipping {
      KeyLineKeys(inp, line);
    } else {
      KeySections(p, inp, out, line, data, pretty);
      if dv.Some? {
        ReadBehind(p.head, p.tail, KeptOrRewritten(line, ParseLine(line).value, dv.value, pretty));
      }
    }
  }

  lemma StepOrdered(p: Pass, inp: Reading, line: string, data: Ini, original: Ini, pretty: bool)
    requires GoodIni(data, pretty) && KeepLine(inp, line) && Ordered(p, inp, data)
    requires ParseLine(line).Section? ==> Follows(p, inp, data, original, Norm(ParseLine(line).name), "")
    requires Placed(p, inp, ReadFrom(START, p.head), data)
    ensures Ordered(LazyStep(p, line, data, original, pretty), ReadStep(inp, line), data)
  {
    match ParseLine(line)
    case Section(n) =>
      hide GoodIni, ParseLine, LazyStep, ReadStep, Norm, Follows, Ordered;
      SectionOrdered(p, inp, line, data, original, pretty);
    case KeyValue(k, v) =>
      hide GoodIni, ParseLine, LazyStep, ReadStep, Norm, Follows, Ordered;
      KeyOrdered(p, inp, line, data, original, pretty);
    case _ =>
      hide GoodIni, ParseLine, ReadFrom, Norm, KeysOf, Only, AllInert;
  }

  lemma StartOrdered(data: Ini)
    ensures Ordered(BEGIN, ReadFrom(START, []), data)
  {
  }

  lemma {:induction false} PassOrdered(lines: seq<string>, i: nat, data: Ini, pretty: bool)
    requires GoodIni(data, pretty) && AllKept(lines) && i <= |lines|
    ensures Ordered(LazyPass(lines[..i], data, Read(lines), pretty), ReadFrom(START, lines[..i]), data)
    decreases i
  {
    hide GoodIni, Follows, Ordered, ReadStep, LazyStep, Norm, Read, ReadFrom, KeepLine, Matches, Placed, ParseLine;
    if i == 0 {
      assert lines[..0] == [];
      StartOrdered(data);
    } else {
      var line := lines[i - 1];
      PassOrdered(lines, i - 1, data, pretty);
      PassPlaced(lines, i - 1, data, pretty);
      if ParseLine(line).Section? { PassFollows(lines, i - 1, data, pretty, Norm(ParseLine(line).name), ""); }
      assert lines[..i][..i - 1] == lines[..i - 1] && lines[..i][i - 1] == line;
      ReadUpTo(START, lines, i - 1);
      StepOrdered(LazyPass(lines[..i - 1], data, Read(lines), pretty), ReadFrom(START, lines[..i - 1]), line,
                  data, Read(lines), pretty);
    }
  }

  lemma PassPlaced(lines: seq<string>, i: nat, data: Ini, pretty: bool)
    requires GoodIni(data, pretty) && AllKept(lines) && i <= |lines|
    ensures var p := LazyPass(lines[..i], data, Read(lines), pretty);
            Placed(p, ReadFrom(START, lines[..i]), ReadFrom(START, p.head), data)
  {
    PassFollows(lines, i, data, pretty, "", "");
    hide GoodIni, AllKept, LazyPass, ReadFrom, Placed, Matches;
  }

  lemma OpenSection(lines: seq<string>, i: nat, p: Pass, data: Ini)
    requires i <= |lines| && Placed(p, ReadFrom(START, lines[..i]), ReadFrom(START, p.head), data)
    ensures p.parsing ==> Has(Read(lines), Norm(p.section))
  {
    hide ReadFrom, Read, Has, Norm, AllInert;
    PrefixHas(lines, i, Norm(p.section));
  }

  /** The flush at the end. */
  lemma EndOrdered(p: Pass, inp: Reading, data: Ini, pretty: bool)
    requires GoodIni(data, pretty) && Placed(p, inp, ReadFrom(START, p.head), data) && Ordered(p, inp, data)
    ensures Ordered(Flushed(p, data, inp.data, pretty), inp, data)
  {
    if p.parsing {
      hide GoodIni, ReadFrom, Placed, Ordered, Flushed;
      FlushOrdered(p, inp, data, inp.data, pretty, "");
    } else {
      hide GoodIni, Norm, ReadFrom, AllInert, MissingLines;
      assert NewKeys(p.section, data, inp.data, pretty) == [];
      SeqEmpty(p.head);
    }
  }

  lemma EditedSections(lines: seq<string>, data: Ini, pretty: bool)
    requires GoodIni(data, pretty) && AllKept(lines)
    ensures KeysOf(Read(Edited(lines, data, Read(lines), pretty))) == Only(KeysOf(Read(lines)), In(data))
  {
    if lines != [] {
      var original, inp := Read(lines), ReadFrom(START, lines);
      hide GoodIni, ReadFrom, Placed, LazyPass, Flushed, AllKept, KeysOf, Only, AllInert;
      PassOrdered(lines, |lines|, data, pretty);
      PassPlaced(lines, |lines|, data, pretty);
      assert lines[..|lines|] == lines;
      var p := LazyPass(lines, data, original, pretty);
      EndOrdered(p, inp, data, pretty);
      var q := Flushed(p, data, original, pretty);
      assert AllInert(q.tail) by { FlushTail(p, inp, data, original, pretty); }
      ReadConcat(START, q.head, q.tail);
      ReadInert(ReadFrom(START, q.head), q.tail);
    }
  }

  lemma FlushTail(p: Pass, inp: Reading, data: Ini, original: Ini, pretty: bool)
    requires Placed(p, inp, ReadFrom(START, p.head), data)
    ensures AllInert(Flushed(p, data, original, pretty).tail)
  {
    hide AllInert, ReadFrom, Norm, Has, NewKeys;
  }

  lemma {:induction false} NewSectionsOrder(out: seq<string>, data: Ini, original: Ini, pretty: bool)
    requires GoodIni(data, pretty) && Unwritten(Read(out), data, original)
    ensures KeysOf(Read(WithNewSections(out, data, original, pretty)))
            == KeysOf(Read(out)) + Only(KeysOf(data), NotIn(original))
    decreases |data|
  {
    if data == [] {
      SeqEmpty(KeysOf(Read(out)));
    } else {
      var name, t, rest := data[0].0, data[0].1, data[1..];
      GoodFirst(data, pretty);
      assert KeysOf(data)[1..] == KeysOf(rest);
      if Has(original, Norm(name)) {
        hide Norm, GoodIni, Read, Has, Where, GoodTable, GoodSection, IsNorm;
        UnwrittenRest(Read(out), data, original);
        NewSectionsOrder(out, rest, original, pretty);
        SeqEmpty(Only(KeysOf(rest), NotIn(original)));
      } else {
        var out' := out + Spacer(out, pretty) + SectionLines(name, t, pretty);
        hide Norm, GoodIni, Read, Has, Where, GoodTable, GoodSection, IsNorm, SectionLines, Spacer, TrimTable;
        AppendedRead(out, name, t, pretty);
        UnwrittenMore(Read(out), data, original, TrimTable(t));
        NewSectionsOrder(out', rest, original, pretty);
        KeysConcat(Read(out), [(name, TrimTable(t))]);
        KeysOne(name, TrimTable(t));
        SeqAssoc(KeysOf(Read(out)), [name], Only(KeysOf(rest), NotIn(original)));
      }
    }
  }

  /** The sections after a lazy write: those of the file that the data has, in the order of
      the file, then the new ones in the order of the data. */
  lemma SectionOrder(fileLines: seq<string>, data: Ini, pretty: bool)
    requires GoodIni(data, pretty)
    ensures var original := Read(fileLines);
            KeysOf(Read(LazyOutput(KeptFrom(START, fileLines), data, original, pretty)))
            == Only(KeysOf(original), In(data)) + Only(KeysOf(data), NotIn(original))
  {
    var kept := KeptFrom(START, fileLines);
    KeptIsKept(fileLines);
    hide GoodIni, AllKept, Read, Edited, KeptFrom, KeysOf, Only, Unwritten, WithNewSections;
    EditedSections(kept, data, pretty);
    EditedUnwritten(kept, data, pretty);
    NewSectionsOrder(Edited(kept, data, Read(fileLines), pretty), data, Read(fileLines), pretty);
  }
}

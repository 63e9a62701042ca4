/** What the reader makes of a lazily written file. */
module IniLazyProof {
  import opened Options
  import opened IniText
  import opened IniParser
  import opened IniMap
  import opened IniFile
  import opened IniRewrite
  import opened IniLazy

  // ---------------------------------------------------------------- lines of one kind

  ghost predicate AllInert(lines: seq<string>) {
    forall i :: 0 <= i < |lines| ==> Inert(lines[i])
  }

  lemma {:induction false} ReadInert(st: Reading, lines: seq<string>)
    requires AllInert(lines)
    ensures ReadFrom(st, lines) == st
    decreases lines
  {
    if lines != [] {
      assert ReadStep(st, lines[0]) == st;
      hide ReadStep, Inert;
      ReadInert(st, lines[1..]);
    }
  }

  /** Reading head, tail and one more line. */
  lemma ReadBehind(head: seq<string>, tail: seq<string>, line: string)
    requires AllInert(tail)
    ensures ReadFrom(START, head + tail + [line]) == ReadStep(ReadFrom(START, head), line)
  {
    hide ReadStep, AllInert, ReadFrom;
    ReadConcat(START, head + tail, [line]);
    ReadConcat(START, head, tail);
    ReadInert(ReadFrom(START, head), tail);
    ReadOne(ReadFrom(START, head), line);
  }

  /** A stored line read under the section `name`. */
  lemma ReadKeyLine(st: Reading, line: string, s: string, k: string)
    requires st.inSection && ParseLine(line).KeyValue? && Has(st.data, Norm(st.section))
    ensures var r := ReadStep(st, line);
            && r.section == st.section && r.inSection
            && Val(r.data, s, k) == (if s == Norm(st.section) && k == Norm(ParseLine(line).key)
                                     then Some(ParseLine(line).value) else Val(st.data, s, k))
            && (Has(r.data, s) <==> Has(st.data, s))
  {
    hide ParseLine, Store, Touch, Has, Val, Norm;
    StoreSeen(st.data, st.section, ParseLine(line).key, ParseLine(line).value, s, k);
  }

  // ---------------------------------------------------------------- the new keys of a section

  /** A key the collection has and the original lacks. */
  ghost predicate Added(t: Table<string>, original: Table<string>, k: string) {
    Has(t, k) && !Has(original, k)
  }

  function TrimOpt(v: Option<string>): Option<string> {
    match v case None => None case Some(x) => Some(Trim(x))
  }

  lemma {:induction false} ReadMissing(st: Reading, t: Table<string>, original: Table<string>, pretty: bool,
                                       s: string, k: string)
    requires GoodTable(t, pretty) && st.inSection && Has(st.data, Norm(st.section))
    ensures var r := ReadFrom(st, MissingLines(t, original, pretty));
            && r.section == st.section && r.inSection
            && Val(r.data, s, k) == (if s == Norm(st.section) && Added(t, original, k)
                                     then TrimOpt(Lookup(t, k)) else Val(st.data, s, k))
            && (Has(r.data, s) <==> Has(st.data, s))
    decreases t
  {
    if t != [] {
      var key, v := t[0].0, t[0].1;
      var rest := MissingLines(t[1..], original, pretty);
      GoodHead(t, pretty);
      TableStep(t, k);
      if Has(original, Norm(key)) {
        assert [] + rest == rest;
        hide Norm, Has, ReadFrom, MissingLines, Lookup, Val;
        ReadMissing(st, t[1..], original, pretty, s, k);
      } else {
        var line := KeyText(key, v, pretty);
        hide Norm, Has, ReadFrom, ReadStep, Lookup, Val, KeyText;
        ReadConcat(st, [line], rest);
        ReadOne(st, line);
        ReadKeyLine(st, line, s, k);
        var st1 := ReadStep(st, line);
        ReadKeyLine(st, line, Norm(st.section), k);
        hide MissingLines;
        ReadMissing(st1, t[1..], original, pretty, s, k);
      }
    }
  }

  lemma GoodHead(t: Table<string>, pretty: bool)
    requires GoodTable(t, pretty) && t != []
    ensures GoodTable(t[1..], pretty) && Norm(t[0].0) == t[0].0 && Where(t[1..], t[0].0).None?
    ensures ParseLine(KeyText(t[0].0, t[0].1, pretty)) == KeyValue(t[0].0, Trim(t[0].1))
  {
    GoodKeyTrimmed(t[0].0, pretty);
    WrittenKeyLine(t[0].0, t[0].1, pretty);
    hide ParseLine, KeyText, Trim, PlainStart, Norm;
    WhereNone(t[1..], t[0].0);
  }

  lemma TableStep(t: Table<string>, k: string)
    requires t != [] && Where(t[1..], t[0].0).None?
    ensures Lookup(t, k) == if k == t[0].0 then Some(t[0].1) else Lookup(t[1..], k)
    ensures Has(t, k) <==> k == t[0].0 || Has(t[1..], k)
    ensures k == t[0].0 ==> !Has(t[1..], k)
  {
  }

  // ---------------------------------------------------------------- one key line

  /** Values that the writer can put where `was` stood. */
  predicate Fine(was: string, now: string) {
    was == now || !StartsEscaped(was)
  }

  lemma ParsedTrimmed(line: string)
    ensures ParseLine(line).KeyValue? ==> Trimmed(ParseLine(line).value)
  {
    hide Unescape, IndexOf, LastIndexOf, Blank, CutComment, IsSpace, Trim, Trimmed;
    forall x: string ensures Trimmed(Trim(x)) { TrimTrimmed(x); }
  }

  lemma {:induction false} NormStart(k: string)
    requires k != [] && k[0] == '['
    ensures Norm(k) != [] && Norm(k)[0] == '['
  {
    TrimRightKeeps(k);
  }

  lemma BracketStart(t: string, e: nat)
    requires t != [] && t[0] == '[' && 0 < e <= |t|
    ensures var k := Unescape(Trim(t[..e])); k != [] && k[0] == '['
  {
    TrimRightKeeps(t[..e]);
    hide TrimRight;
    assert Trim(t[..e])[0] == '[';
  }

  /** A key read from a line that starts like a section starts like one too. */
  lemma BracketKey(line: string)
    requires ParseLine(line).KeyValue? && Trim(line)[0] == '['
    ensures !PlainStart(Norm(ParseLine(line).key))
  {
    var c := CutComment(Trim(line));
    assert ParseLine(line) == ParseKey(c);
    CutKeeps(Trim(line));
    var e := IndexOf(Blank(c), '=').value;
    IndexOfTaken(Blank(c), '=', e);
    assert Blank(c)[0] == '[';
    hide Blank, IndexOf, Trim, Unescape, Norm, CutComment;
    BracketStart(c, e);
    NormStart(ParseLine(line).key);
  }

  lemma CutKeeps(t: string)
    requires t != [] && t[0] == '['
    ensures CutComment(t) != [] && CutComment(t)[0] == '['
  {
    IndexOfSpec(t, ';');
    hide IndexOf;
  }

  /** What the line of a known key says after the edit. */
  lemma EditedKey(line: string, dv: string, pretty: bool)
    requires ParseLine(line).KeyValue? && PlainStart(Norm(ParseLine(line).key))
    ensures var r := ParseLine(KeptOrRewritten(line, ParseLine(line).value, dv, pretty));
            && r.KeyValue? && r.key == ParseLine(line).key
            && (r.value == Trim(dv) <==> Fine(ParseLine(line).value, dv))
  {
    if Trim(line)[0] == '[' {
      BracketKey(line);
    } else {
      hide PlainStart;
      ParsedTrimmed(line);
      if ParseLine(line).value == dv {
        TrimFixed(dv);
      } else {
        RewrittenLine(line, dv, pretty);
      }
    }
  }

  // ---------------------------------------------------------------- invariant of the pass

  /** The pass and the two readers are at the same place: `inp` has read the lines so far,
      `out` has read the output up to the last key. */
  ghost predicate Placed(p: Pass, inp: Reading, out: Reading, data: Ini) {
    && p.section == inp.section
    && (p.parsing <==> inp.inSection && Has(data, Norm(inp.section)))
    && (p.skipping <==> inp.inSection && !Has(data, Norm(inp.section)))
    && (p.parsing ==> out.inSection && out.section == p.section && Has(out.data, Norm(p.section)))
    && (if inp.inSection then Has(inp.data, Norm(inp.section)) else inp.data == [])
    && AllInert(p.tail)
  }

  /** What the output says about key `k` of section `s`, with the input value `pv`, the
      original value `ov`, the wanted value `dv` and the output value `cv`. */
  ghost predicate Says(open: bool, inHas: bool, outHas: bool, dataHas: bool,
                       pv: Option<string>, ov: Option<string>, dv: Option<string>, cv: Option<string>) {
    && (outHas <==> inHas && dataHas)
    && (cv.Some? ==> inHas && dv.Some? && (pv.Some? || ov.None?))
    && (pv.Some? && dv.Some? ==> cv.Some?)
    && (inHas && dv.Some? && ov.None? && !open ==> cv.Some?)
    && (cv.Some? && dv.Some? ==> (cv.value == Trim(dv.value) <==> (pv.Some? ==> Fine(pv.value, dv.value))))
  }

  ghost predicate Matches(p: Pass, inp: Reading, out: Reading, data: Ini, original: Ini, s: string, k: string) {
    Says(p.parsing && s == Norm(p.section), Has(inp.data, s), Has(out.data, s), Has(data, s),
         Val(inp.data, s, k), Val(original, s, k), Val(data, s, k), Val(out.data, s, k))
  }

  /** The input read so far is part of the original. */
  ghost predicate Within(inp: Reading, original: Ini, s: string, k: string) {
    && (Has(inp.data, s) ==> Has(original, s))
    && (Val(inp.data, s, k).Some? ==> Val(original, s, k).Some?)
  }

  lemma ValHas(d: Ini, s: string, k: string)
    ensures Val(d, s, k).Some? ==> Has(d, s)
    ensures Has(InnerOf(d, s), k) <==> Val(d, s, k).Some?
  {
    LookupHas(d, s);
    LookupHas(InnerOf(d, s), k);
  }

  lemma InnerGood(data: Ini, s: string, pretty: bool)
    requires GoodIni(data, pretty)
    ensures GoodTable(InnerOf(data, s), pretty)
  {
    hide GoodKey, Where;
  }

  /** Flushing writes the new keys of the open section. */
  lemma FlushMatches(p: Pass, inp: Reading, out: Reading, data: Ini, original: Ini, pretty: bool, s: string, k: string)
    requires GoodIni(data, pretty) && p.parsing
    requires Placed(p, inp, out, data) && Matches(p, inp, out, data, original, s, k)
    requires Has(original, Norm(p.section)) && Within(inp, original, s, k)
    ensures var q := Flushed(p, data, original, pretty);
            var out' := ReadFrom(out, NewKeys(p.section, data, original, pretty));
            Matches(q, inp, out', data, original, s, k)
  {
    var here := Norm(p.section);
    InnerGood(data, here, pretty);
    var t, o := InnerOf(data, here), InnerOf(original, here);
    ValHas(data, here, k);
    ValHas(original, here, k);
    hide Norm, Has, InnerOf, GoodIni, GoodTable, ReadFrom, Lookup, Trim, Fine, AllInert, MissingLines;
    ReadMissing(out, t, o, pretty, s, k);
  }

  /** What is written for a section line, and how it is read. */
  function SectionOut(out: Reading, line: string, data: Ini): Reading
    requires ParseLine(line).Section?
  {
    if Has(data, Norm(ParseLine(line).name)) then ReadStep(out, line) else out
  }

  /** A section line, the open section being flushed. */
  lemma SectionMatches(p: Pass, inp: Reading, out: Reading, line: string, data: Ini, original: Ini, s: string,
                       k: string)
    requires ParseLine(line).Section? && !p.parsing && Matches(p, inp, out, data, original, s, k)
    requires Val(inp.data, s, k).Some? ==> Has(inp.data, s)
    requires Val(data, s, k).Some? ==> Has(data, s)
    ensures Matches(AfterSection(p, line, ParseLine(line).name, data), ReadStep(inp, line),
                    SectionOut(out, line, data), data, original, s, k)
  {
    hide ParseLine, Norm, Has, Val, Touch, Trim, Fine, AllInert;
    var n := ParseLine(line).name;
    TouchSeen(inp.data, n, s, k);
    TouchSeen(out.data, n, s, k);
  }

  lemma SectionPlaced(p: Pass, inp: Reading, out: Reading, line: string, data: Ini)
    requires ParseLine(line).Section? && !p.parsing && AllInert(p.tail)
    ensures Placed(AfterSection(p, line, ParseLine(line).name, data), ReadStep(inp, line),
                   SectionOut(out, line, data), data)
  {
    hide ParseLine, Norm, Has, Touch, AllInert;
    assert AllInert([]) by { NoneInert(); }
    TouchSeen(inp.data, ParseLine(line).name, Norm(ParseLine(line).name), "");
    TouchSeen(out.data, ParseLine(line).name, Norm(ParseLine(line).name), "");
  }

  /** What is written for a key line below a section of the data, and how it is read. */
  function KeyOut(p: Pass, out: Reading, line: string, data: Ini, pretty: bool): Reading
    requires ParseLine(line).KeyValue?
  {
    match Val(data, Norm(p.section), Norm(ParseLine(line).key))
    case None => out
    case Some(dv) => ReadStep(out, KeptOrRewritten(line, ParseLine(line).value, dv, pretty))
  }

  /** The value that the edited line leaves. */
  lemma KeyOutSeen(p: Pass, out: Reading, line: string, data: Ini, pretty: bool, s: string,
                   k: string) returns (w: string)
    requires GoodIni(data, pretty) && ParseLine(line).KeyValue?
    requires out.inSection && out.section == p.section && Has(out.data, Norm(p.section))
    ensures var out', dv := KeyOut(p, out, line, data, pretty), Val(data, Norm(p.section), Norm(ParseLine(line).key));
            && out'.inSection && out'.section == out.section
            && (Has(out'.data, s) <==> Has(out.data, s))
            && Val(out'.data, s, k) == (if s == Norm(p.section) && k == Norm(ParseLine(line).key) && dv.Some?
                                        then Some(w) else Val(out.data, s, k))
            && (dv.Some? ==> (w == Trim(dv.value) <==> Fine(ParseLine(line).value, dv.value)))
  {
    var dv := Val(data, Norm(p.section), Norm(ParseLine(line).key));
    w := "";
    if dv.Some? {
      PlainKey(data, Norm(p.section), Norm(ParseLine(line).key), pretty);
      EditedKey(line, dv.value, pretty);
      var line' := KeptOrRewritten(line, ParseLine(line).value, dv.value, pretty);
      w := ParseLine(line').value;
      hide GoodIni, ParseLine, Norm, Has, Val, Trim, Fine, KeptOrRewritten, ReadStep;
      ReadKeyLine(out, line', s, k);
    }
  }

  lemma KeyPlaced(p: Pass, inp: Reading, out: Reading, line: string, data: Ini, pretty: bool)
    requires GoodIni(data, pretty) && ParseLine(line).KeyValue? && p.parsing
    requires Placed(p, inp, out, data)
    ensures Placed(AfterKey(p, line, ParseLine(line).key, ParseLine(line).value, data, pretty), ReadStep(inp, line),
                   KeyOut(p, out, line, data, pretty), data)
  {
    hide GoodIni, ParseLine, Norm, Has, Val, ReadStep, AllInert, KeptOrRewritten, KeyOut;
    assert AllInert([]) by { NoneInert(); }
    ReadKeyLine(inp, line, Norm(p.section), "");
    var w := KeyOutSeen(p, out, line, data, pretty, Norm(p.section), "");
  }

  lemma KeyMatches(p: Pass, inp: Reading, out: Reading, line: string, data: Ini, original: Ini, pretty: bool,
                   s: string, k: string)
    requires GoodIni(data, pretty) && ParseLine(line).KeyValue? && p.parsing
    requires Placed(p, inp, out, data) && Matches(p, inp, out, data, original, s, k)
    requires Within(ReadStep(inp, line), original, s, k)
    ensures Matches(AfterKey(p, line, ParseLine(line).key, ParseLine(line).value, data, pretty), ReadStep(inp, line),
                    KeyOut(p, out, line, data, pretty), data, original, s, k)
  {
    hide GoodIni, ParseLine, Norm, Has, Val, Trim, Fine, ReadStep, AllInert, KeptOrRewritten, KeyOut;
    ReadKeyLine(inp, line, s, k);
    var w := KeyOutSeen(p, out, line, data, pretty, s, k);
  }

  lemma NoneInert()
    ensures AllInert([])
  {
  }

  lemma PlainKey(data: Ini, s: string, k: string, pretty: bool)
    requires GoodIni(data, pretty) && Val(data, s, k).Some?
    ensures PlainStart(k)
  {
    InnerGood(data, s, pretty);
    hide IsNorm, PlainStart, EndsInBackslash, GoodIni, InnerOf;
  }

  // ---------------------------------------------------------------- one line

  /** The invariant, with the reader of the output applied to the head. */
  ghost predicate Follows(p: Pass, inp: Reading, data: Ini, original: Ini, s: string, k: string) {
    var out := ReadFrom(START, p.head);
    Placed(p, inp, out, data) && Matches(p, inp, out, data, original, s, k)
  }

  lemma FlushFollows(p: Pass, inp: Reading, data: Ini, original: Ini, pretty: bool, s: string, k: string)
    requires GoodIni(data, pretty) && p.parsing && Follows(p, inp, data, original, s, k)
    requires Has(original, Norm(p.section)) && Within(inp, original, s, k)
    ensures var q := Flushed(p, data, original, pretty);
            Matches(q, inp, ReadFrom(START, q.head), data, original, s, k)
  {
    hide GoodIni, Norm, Has, ReadFrom, Within, Matches, NewKeys, AllInert;
    FlushMatches(p, inp, ReadFrom(START, p.head), data, original, pretty, s, k);
    ReadConcat(START, p.head, NewKeys(p.section, data, original, pretty));
  }

  lemma SectionFollows(p: Pass, inp: Reading, line: string, data: Ini, original: Ini, s: string, k: string)
    requires ParseLine(line).Section? && !p.parsing && AllInert(p.tail)
    requires Matches(p, inp, ReadFrom(START, p.head), data, original, s, k)
    ensures Follows(AfterSection(p, line, ParseLine(line).name, data), ReadStep(inp, line), data, original, s, k)
  {
    hide ParseLine, Norm, Has, ReadFrom, Matches, AllInert, Placed, ReadStep, Val;
    var out := ReadFrom(START, p.head);
    ValHas(inp.data, s, k);
    ValHas(data, s, k);
    SectionMatches(p, inp, out, line, data, original, s, k);
    SectionPlaced(p, inp, out, line, data);
    ReadBehind(p.head, p.tail, line);
  }

  lemma KeyFollows(p: Pass, inp: Reading, line: string, data: Ini, original: Ini, pretty: bool, s: string, k: string)
    requires GoodIni(data, pretty) && ParseLine(line).KeyValue? && p.parsing && !p.skipping
    requires Follows(p, inp, data, original, s, k) && Within(ReadStep(inp, line), original, s, k)
    ensures Follows(AfterKey(p, line, ParseLine(line).key, ParseLine(line).value, data, pretty), ReadStep(inp, line),
                    data, original, s, k)
  {
    var out, dv := ReadFrom(START, p.head), Val(data, Norm(p.section), Norm(ParseLine(line).key));
    assert AllInert(p.tail);
    hide GoodIni, ParseLine, Norm, ReadFrom, Matches, AllInert, Placed, ReadStep, Val, Within, KeptOrRewritten;
    KeyMatches(p, inp, out, line, data, original, pretty, s, k);
    KeyPlaced(p, inp, out, line, data, pretty);
    if dv.Some? {
      ReadBehind(p.head, p.tail, KeptOrRewritten(line, ParseLine(line).value, dv.value, pretty));
    }
  }

  /** A key line of a section that the data does not have. */
  lemma SkippedFollows(p: Pass, inp: Reading, line: string, data: Ini, original: Ini, s: string, k: string)
    requires ParseLine(line).KeyValue? && p.skipping && Follows(p, inp, data, original, s, k)
    ensures Follows(p, ReadStep(inp, line), data, original, s, k)
  {
    hide ParseLine, Norm, ReadFrom, Has, AllInert, ReadStep, Val, Trim, Fine;
    ReadKeyLine(inp, line, s, k);
    ReadKeyLine(inp, line, Norm(inp.section), k);
    ValHas(data, s, k);
  }

  lemma InertMore(tail: seq<string>, line: string)
    requires AllInert(tail) && Inert(line)
    ensures AllInert(tail + [line])
  {
    hide Inert;
  }

  lemma OtherFollows(p: Pass, inp: Reading, line: string, data: Ini, original: Ini, s: string, k: string)
    requires Inert(line) && Follows(p, inp, data, original, s, k)
    ensures ReadStep(inp, line) == inp && Follows(AfterOther(p, line), inp, data, original, s, k)
  {
    hide ParseLine, Norm, ReadFrom, Has, AllInert, Val, Trim, Fine, Says;
    InertMore(p.tail, line);
  }

  /** Every line that the reader keeps preserves the invariant. */
  lemma StepFollows(p: Pass, inp: Reading, line: string, data: Ini, original: Ini, pretty: bool, s: string, k: string)
    requires GoodIni(data, pretty) && KeepLine(inp, line) && Follows(p, inp, data, original, s, k)
    requires Within(inp, original, s, k) && Within(ReadStep(inp, line), original, s, k)
    requires Has(inp.data, Norm(inp.section)) ==> Has(original, Norm(inp.section))
    ensures Follows(LazyStep(p, line, data, original, pretty), ReadStep(inp, line), data, original, s, k)
  {
    assert Placed(p, inp, ReadFrom(START, p.head), data);
    hide GoodIni, ParseLine, Norm, ReadFrom, Has, AllInert, Val, Within, ReadStep, AfterSection, AfterKey,
      AfterOther, Follows, Matches;
    match ParseLine(line)
    case Section(n) =>
      assert Matches(p, inp, ReadFrom(START, p.head), data, original, s, k)
             by { FollowsMatches(p, inp, data, original, s, k); }
      if p.parsing {
        FlushFollows(p, inp, data, original, pretty, s, k);
        SectionFollows(Flushed(p, data, original, pretty), inp, line, data, original, s, k);
      } else {
        SectionFollows(p, inp, line, data, original, s, k);
      }
    case KeyValue(key, v) =>
      if p.skipping {
        SkippedFollows(p, inp, line, data, original, s, k);
        assert AfterKey(p, line, key, v, data, pretty) == p by { SkipKeeps(p, line, key, v, data, pretty); }
      } else {
        KeyFollows(p, inp, line, data, original, pretty, s, k);
      }
    case _ =>
      OtherFollows(p, inp, line, data, original, s, k);
  }

  lemma FollowsMatches(p: Pass, inp: Reading, data: Ini, original: Ini, s: string, k: string)
    requires Follows(p, inp, data, original, s, k)
    ensures Matches(p, inp, ReadFrom(START, p.head), data, original, s, k)
  {
  }

  lemma SkipKeeps(p: Pass, line: string, key: string, v: string, data: Ini, pretty: bool)
    requires p.skipping
    ensures AfterKey(p, line, key, v, data, pretty) == p
  {
  }

  // ---------------------------------------------------------------- all lines

  /** Lines that the reader keeps for a lazy write. */
  ghost predicate AllKept(lines: seq<string>) {
    forall i :: 0 <= i < |lines| ==> KeepLine(ReadFrom(START, lines[..i]), lines[i])
  }

  lemma PrefixWithin(lines: seq<string>, i: nat, s: string, k: string)
    requires i <= |lines|
    ensures Within(ReadFrom(START, lines[..i]), Read(lines), s, k)
  {
    ReadConcat(START, lines[..i], lines[i..]);
    assert lines[..i] + lines[i..] == lines;
    hide ReadFrom, Has, Val;
    ReadGrows(ReadFrom(START, lines[..i]), lines[i..], s, k);
  }

  lemma StartFollows(data: Ini, original: Ini, s: string, k: string)
    ensures Follows(BEGIN, START, data, original, s, k)
  {
    assert ReadFrom(START, []) == START;
    hide ReadFrom, Norm, Trim, Fine;
  }

  lemma {:induction false} PassFollows(lines: seq<string>, i: nat, data: Ini, pretty: bool, s: string, k: string)
    requires GoodIni(data, pretty) && AllKept(lines) && i <= |lines|
    ensures Follows(LazyPass(lines[..i], data, Read(lines), pretty), ReadFrom(START, lines[..i]), data, Read(lines),
                    s, k)
    decreases i
  {
    hide GoodIni, Follows, Within, ReadStep, LazyStep, Has, Norm, Read, ReadFrom, KeepLine;
    if i == 0 {
      assert lines[..0] == [];
      ReadNothing();
      StartFollows(data, Read(lines), s, k);
    } else {
      PassFollows(lines, i - 1, data, pretty, s, k);
      var inp := ReadFrom(START, lines[..i - 1]);
      assert lines[..i][..i - 1] == lines[..i - 1] && lines[..i][i - 1] == lines[i - 1];
      ReadUpTo(START, lines, i - 1);
      PrefixWithin(lines, i - 1, s, k);
      PrefixWithin(lines, i, s, k);
      assert Has(inp.data, Norm(inp.section)) ==> Has(Read(lines), Norm(inp.section)) by {
        PrefixHas(lines, i - 1, Norm(inp.section));
      }
      StepFollows(LazyPass(lines[..i - 1], data, Read(lines), pretty), inp, lines[i - 1], data, Read(lines), pretty,
                  s, k);
    }
  }

  lemma PrefixHas(lines: seq<string>, i: nat, s: string)
    requires i <= |lines|
    ensures Has(ReadFrom(START, lines[..i]).data, s) ==> Has(Read(lines), s)
  {
    PrefixWithin(lines, i, s, "");
  }

  /** The flush at the end of the file. */
  lemma EndFollows(p: Pass, inp: Reading, data: Ini, pretty: bool, s: string, k: string)
    requires GoodIni(data, pretty) && Follows(p, inp, data, inp.data, s, k)
    ensures var q := Flushed(p, data, inp.data, pretty);
            Matches(q, inp, ReadFrom(START, q.head), data, inp.data, s, k) && AllInert(q.tail)
  {
    assert Placed(p, inp, ReadFrom(START, p.head), data);
    FollowsMatches(p, inp, data, inp.data, s, k);
    if p.parsing {
      hide GoodIni, Norm, ReadFrom, Has, AllInert, Val, Follows, Matches, Flushed;
      FlushFollows(p, inp, data, inp.data, pretty, s, k);
    } else {
      hide GoodIni, Norm, ReadFrom, AllInert, Val, Follows, Says, MissingLines;
      assert NewKeys(p.section, data, inp.data, pretty) == [];
      SeqEmpty(p.head);
    }
  }

  /** What a value of the output is, given the original and the wanted value. */
  predicate Lands(original: Option<string>, wanted: Option<string>, found: Option<string>) {
    && (found.Some? <==> wanted.Some?)
    && (found == TrimOpt(wanted) <==> (original.Some? && wanted.Some? ==> Fine(original.value, wanted.value)))
  }

  lemma EditedReads(lines: seq<string>, data: Ini, pretty: bool, s: string, k: string)
    requires GoodIni(data, pretty) && AllKept(lines)
    ensures var original := Read(lines);
            var out := Read(Edited(lines, data, original, pretty));
            && (Has(out, s) <==> Has(original, s) && Has(data, s))
            && (Has(original, s) ==> Lands(Val(original, s, k), Val(data, s, k), Val(out, s, k)))
  {
    var original, inp := Read(lines), ReadFrom(START, lines);
    if lines == [] {
      hide GoodIni, Trim, Fine;
    } else {
      hide GoodIni, Norm, ReadFrom, Has, AllInert, Val, Trim, Fine, Flushed, LazyPass, Lands, AllKept;
      PassFollows(lines, |lines|, data, pretty, s, k);
      assert lines[..|lines|] == lines;
      var p := LazyPass(lines, data, original, pretty);
      EndFollows(p, inp, data, pretty, s, k);
      var q := Flushed(p, data, original, pretty);
      ReadConcat(START, q.head, q.tail);
      ReadInert(ReadFrom(START, q.head), q.tail);
      assert !q.parsing by { FlushCloses(p, data, original, pretty); }
      MatchesLands(q, inp, ReadFrom(START, q.head), data, s, k);
    }
  }

  lemma FlushCloses(p: Pass, data: Ini, original: Ini, pretty: bool)
    ensures !Flushed(p, data, original, pretty).parsing
  {
  }

  lemma MatchesLands(q: Pass, inp: Reading, out: Reading, data: Ini, s: string, k: string)
    requires Matches(q, inp, out, data, inp.data, s, k) && !q.parsing
    ensures Has(out.data, s) <==> Has(inp.data, s) && Has(data, s)
    ensures Has(inp.data, s) ==> Lands(Val(inp.data, s, k), Val(data, s, k), Val(out.data, s, k))
  {
    hide Norm, Has, Val, Trim, Fine;
  }

  // ---------------------------------------------------------------- new sections

  /** Sections of the data that the original lacks are not in the output yet. */
  ghost predicate Unwritten(out: Ini, data: Ini, original: Ini) {
    forall i :: 0 <= i < |data| ==> Has(original, data[i].0) || Where(out, data[i].0).None?
  }

  lemma UnwrittenRest(d: Ini, data: Ini, original: Ini)
    requires data != [] && Unwritten(d, data, original)
    ensures Unwritten(d, data[1..], original)
  {
    hide Has, Where;
  }

  lemma UnwrittenMore(d: Ini, data: Ini, original: Ini, t: Table<string>)
    requires data != [] && Where(data[1..], data[0].0).None? && Unwritten(d, data, original)
    ensures Unwritten(d + [(data[0].0, t)], data[1..], original)
  {
    var e := (data[0].0, t);
    forall i | 0 <= i < |data[1..]|
      ensures Has(original, data[1..][i].0) || Where(d + [e], data[1..][i].0).None?
    {
      assert data[1..][i] == data[i + 1];
      WhereAppend(d, [e], data[i + 1].0);
      WhereMissing(data[1..], data[0].0, i);
    }
  }

  lemma GoodFirst(data: Ini, pretty: bool)
    requires GoodIni(data, pretty) && data != []
    ensures GoodSection(data[0].0) && GoodTable(data[0].1, pretty) && Norm(data[0].0) == data[0].0
    ensures GoodIni(data[1..], pretty) && Where(data[1..], data[0].0).None?
  {
    NormIdempotent(data[0].0);
    hide GoodTable, Norm;
    WhereNone(data[1..], data[0].0);
  }

  lemma DataStep(data: Ini, s: string, k: string)
    requires data != [] && Where(data[1..], data[0].0).None?
    ensures Has(data, s) <==> s == data[0].0 || Has(data[1..], s)
    ensures s == data[0].0 ==> !Has(data[1..], s)
    ensures Val(data, s, k) == if s == data[0].0 then Lookup(data[0].1, k) else Val(data[1..], s, k)
  {
  }

  lemma AppendedRead(out: seq<string>, name: string, t: Table<string>, pretty: bool)
    requires Where(Read(out), name).None? && GoodSection(name) && GoodTable(t, pretty)
    ensures Read(out + Spacer(out, pretty) + SectionLines(name, t, pretty)) == Read(out) + [(name, TrimTable(t))]
  {
    hide ReadFrom, Where, GoodSection, GoodTable, SectionLines, TrimTable;
    var st := ReadFrom(START, out);
    ReadConcat(START, out + Spacer(out, pretty), SectionLines(name, t, pretty));
    ReadConcat(START, out, Spacer(out, pretty));
    if Spacer(out, pretty) == [""] {
      ReadBlank(st);
    } else {
      SeqEmpty(out);
    }
    ReadSection(st, name, t, pretty);
  }

  lemma {:induction false} TrimLookup(t: Table<string>, k: string)
    ensures Lookup(TrimTable(t), k) == TrimOpt(Lookup(t, k))
  {
    if t != [] {
      TrimLookup(t[1..], k);
      assert TrimTable(t)[1..] == TrimTable(t[1..]);
      hide Trim;
    }
  }

  lemma AppendedSeen(d: Ini, name: string, t: Table<string>, s: string, k: string)
    requires Where(d, name).None?
    ensures var r := d + [(name, TrimTable(t))];
            && (Has(r, s) <==> Has(d, s) || s == name)
            && Val(r, s, k) == if s == name then TrimOpt(Lookup(t, k)) else Val(d, s, k)
  {
    TrimLookup(t, k);
    var e := (name, TrimTable(t));
    LookupAppend(d, [e], s);
    WhereAppend(d, [e], s);
    WhereFirst(e);
    hide TrimTable, TrimOpt;
  }

  lemma {:induction false} NewSectionsRead(out: seq<string>, data: Ini, original: Ini, pretty: bool, s: string,
                                           k: string)
    requires GoodIni(data, pretty) && Unwritten(Read(out), data, original)
    ensures var r := Read(WithNewSections(out, data, original, pretty));
            && (Has(r, s) <==> Has(Read(out), s) || (Has(data, s) && !Has(original, s)))
            && Val(r, s, k) == (if Has(data, s) && !Has(original, s) then TrimOpt(Val(data, s, k))
                                else Val(Read(out), s, k))
    decreases |data|
  {
    if data != [] {
      var name, t, rest := data[0].0, data[0].1, data[1..];
      GoodFirst(data, pretty);
      if Has(original, Norm(name)) {
        hide Norm, GoodIni, Read, Has, Val, Where, GoodTable, GoodSection, IsNorm;
        UnwrittenRest(Read(out), data, original);
        NewSectionsRead(out, rest, original, pretty, s, k);
        DataStep(data, s, k);
      } else {
        var out' := out + Spacer(out, pretty) + SectionLines(name, t, pretty);
        hide Norm, GoodIni, Read, Has, Val, Where, GoodTable, GoodSection, IsNorm, SectionLines, Spacer, TrimTable;
        AppendedRead(out, name, t, pretty);
        UnwrittenMore(Read(out), data, original, TrimTable(t));
        NewSectionsRead(out', rest, original, pretty, s, k);
        AppendedSeen(Read(out), name, t, s, k);
        DataStep(data, s, k);
      }
    }
  }

  // ---------------------------------------------------------------- the lines a reader keeps

  lemma KeptStep(st: Reading, line: string)
    ensures KeepLine(st, line) || ReadStep(st, line) == st
  {
  }

  /** The reader keeps every line it has kept before. */
  lemma {:induction false} KeptAgain(st: Reading, lines: seq<string>, i: nat)
    requires i < |KeptFrom(st, lines)|
    ensures KeepLine(ReadFrom(st, KeptFrom(st, lines)[..i]), KeptFrom(st, lines)[i])
    decreases lines
  {
    var next := ReadStep(st, lines[0]);
    var kept, rest := KeptFrom(st, lines), KeptFrom(next, lines[1..]);
    KeptStep(st, lines[0]);
    hide ReadStep, KeepLine;
    if KeepLine(st, lines[0]) {
      if i > 0 {
        KeptAgain(next, lines[1..], i - 1);
        assert kept[..i][1..] == rest[..i - 1];
      }
    } else {
      assert kept == rest;
      KeptAgain(next, lines[1..], i);
    }
  }

  lemma {:induction false} KeptLength(lines: seq<string>, n: nat)
    requires n <= |lines|
    ensures |KeptFrom(START, lines[..n])| <= n
    ensures |KeptFrom(START, lines[..n])| == n <==>
            forall i :: 0 <= i < n ==> KeepLine(ReadFrom(START, lines[..i]), lines[i])
    ensures |KeptFrom(START, lines[..n])| == n ==> KeptFrom(START, lines[..n]) == lines[..n]
    decreases n
  {
    hide ReadFrom, KeepLine, KeptFrom;
    assert lines[..0] == [];
    if n == 0 {
      ReadNothing();
    } else {
      KeptLength(lines, n - 1);
      KeptUpTo(START, lines, n - 1);
      assert lines[..n] == lines[..n - 1] + [lines[n - 1]];
    }
  }

  lemma KeptAll(lines: seq<string>)
    requires AllKept(lines)
    ensures KeptFrom(START, lines) == lines
  {
    KeptLength(lines, |lines|);
    assert lines[..|lines|] == lines;
  }

  lemma KeptIsKept(fileLines: seq<string>)
    ensures AllKept(KeptFrom(START, fileLines)) && Read(KeptFrom(START, fileLines)) == Read(fileLines)
  {
    var kept := KeptFrom(START, fileLines);
    forall i | 0 <= i < |kept| ensures KeepLine(ReadFrom(START, kept[..i]), kept[i]) {
      KeptAgain(START, fileLines, i);
    }
    ReadKept(START, fileLines);
  }

  // ---------------------------------------------------------------- what a lazy write leaves

  lemma EditedUnwritten(lines: seq<string>, data: Ini, pretty: bool)
    requires GoodIni(data, pretty) && AllKept(lines)
    ensures Unwritten(Read(Edited(lines, data, Read(lines), pretty)), data, Read(lines))
  {
    hide GoodIni, AllKept, Read, Edited, Has, Lands, Val;
    var original := Read(lines);
    var out := Read(Edited(lines, data, original, pretty));
    forall i | 0 <= i < |data| ensures Has(original, data[i].0) || Where(out, data[i].0).None? {
      EditedReads(lines, data, pretty, data[i].0, "");
      HasWhere(out, data[i].0);
    }
  }

  lemma HasWhere(d: Ini, s: string)
    ensures Has(d, s) <==> Where(d, s).Some?
  {
  }

  lemma LazyReads(lines: seq<string>, data: Ini, pretty: bool, s: string, k: string)
    requires GoodIni(data, pretty) && AllKept(lines)
    ensures var out := Read(LazyOutput(lines, data, Read(lines), pretty));
            && (Has(out, s) <==> Has(data, s))
            && Lands(Val(Read(lines), s, k), Val(data, s, k), Val(out, s, k))
  {
    hide GoodIni, AllKept, Read, Edited, Has, Val, Unwritten, WithNewSections, Trim, Fine;
    var original := Read(lines);
    EditedReads(lines, data, pretty, s, k);
    EditedUnwritten(lines, data, pretty);
    NewSectionsRead(Edited(lines, data, original, pretty), data, original, pretty, s, k);
    ValHas(original, s, k);
    ValHas(data, s, k);
    ValHas(Read(Edited(lines, data, original, pretty)), s, k);
  }

  /** Writing `data` lazily over a file and reading the result back: exactly the sections
      and keys of `data` are there, and a value is the wanted one, trimmed, exactly unless
      the file held another value for that key that starts with `\=`. */
  lemma LazyWriteReads(fileLines: seq<string>, data: Ini, pretty: bool)
    requires GoodIni(data, pretty)
    ensures var original := Read(fileLines);
            var out := Read(LazyOutput(KeptFrom(START, fileLines), data, original, pretty));
            && (forall s :: Has(out, s) <==> Has(data, s))
            && (forall s, k :: Val(out, s, k).Some? <==> Val(data, s, k).Some?)
            && (forall s, k :: Val(out, s, k) == TrimOpt(Val(data, s, k))
                               <==> var ov, dv := Val(original, s, k), Val(data, s, k);
                                    ov.Some? && dv.Some? && StartsEscaped(ov.value) ==> ov == dv)
  {
    var kept := KeptFrom(START, fileLines);
    KeptIsKept(fileLines);
    hide GoodIni, AllKept, Read, Has, Val, LazyOutput, KeptFrom, TrimOpt, StartsEscaped;
    var out := Read(LazyOutput(kept, data, Read(fileLines), pretty));
    forall s ensures Has(out, s) <==> Has(data, s) {
      LazyReads(kept, data, pretty, s, "");
    }
    forall s, k ensures Lands(Val(Read(fileLines), s, k), Val(data, s, k), Val(out, s, k)) {
      LazyReads(kept, data, pretty, s, k);
    }
  }

  /** A file with the one line `k` = `v` below `[s]`. */
  function OneKey(v: string): Ini {
    [("s", [("k", v)])]
  }

  lemma OneKeyGood(v: string)
    ensures GoodIni(OneKey(v), false) && Val(OneKey(v), "s", "k") == Some(v)
  {
    assert Norm("s") == "s" && Norm("k") == "k";
    assert GoodTable([("k", v)], false);
  }

  lemma OneKeyRead(v: string)
    requires Trimmed(v)
    ensures Val(Read(GenLines(OneKey(v), false)), "s", "k") == Some(v)
  {
    OneKeyGood(v);
    TrimFixed(v);
    OneKeyTrim(v);
    assert Fresh(START.data, OneKey(v));
    hide Trim, Trimmed, GenLines, GoodIni, OneKey, TrimIni, ReadFrom, Fresh, Val;
    ReadGenerated(START, OneKey(v), false);
    SeqEmpty(OneKey(v));
  }

  lemma OneKeyTrim(v: string)
    ensures TrimIni(OneKey(v)) == OneKey(Trim(v))
  {
    hide Trim;
    assert TrimTable([("k", v)]) == [("k", Trim(v))] by { assert [("k", v)][1..] == []; }
    assert OneKey(v)[1..] == [];
  }

  /** A wanted value that the lazy write loses: `x` over the old value `\\=`. */
  lemma LazyValueLost()
    ensures var lines := GenLines(OneKey("\\="), false);
            var out := Read(LazyOutput(KeptFrom(START, lines), OneKey("x"), Read(lines), false));
            GoodIni(OneKey("x"), false) && Val(out, "s", "k") != Some("x")
  {
    var lines := GenLines(OneKey("\\="), false);
    assert StartsEscaped("\\=") && Trimmed("\\=") && Trimmed("x");
    hide GenLines, GoodIni, Read, Val, LazyOutput, KeptFrom, OneKey, Trim, StartsEscaped, Trimmed;
    OneKeyRead("\\=");
    OneKeyGood("x");
    TrimFixed("x");
    LazyWriteReads(lines, OneKey("x"), false);
  }

  // ---------------------------------------------------------------- comments survive

  /** The comment lines, in order. */
  function Comments(lines: seq<string>): seq<string> {
    if lines == [] then [] else CommentIn(lines[0]) + Comments(lines[1..])
  }

  function CommentIn(line: string): seq<string> {
    if ParseLine(line).Comment? then [line] else []
  }

  lemma {:induction false} CommentsConcat(x: seq<string>, y: seq<string>)
    ensures Comments(x + y) == Comments(x) + Comments(y)
  {
    hide CommentIn;
    if x == [] {
      assert x + y == y;
    } else {
      assert (x + y)[1..] == x[1..] + y;
      CommentsConcat(x[1..], y);
      SeqAssoc(CommentIn(x[0]), Comments(x[1..]), Comments(y));
    }
  }

  lemma CommentsOne(line: string)
    ensures Comments([line]) == if ParseLine(line).Comment? then [line] else []
  {
    hide ParseLine;
  }

  lemma NotEmptyComment(line: string)
    requires ParseLine(line).Comment?
    ensures line != ""
  {
  }

  lemma {:induction false} CommentsAreKept(st: Reading, lines: seq<string>)
    ensures Comments(KeptFrom(st, lines)) == Comments(lines)
    decreases lines
  {
    if lines != [] {
      var first := if KeepLine(st, lines[0]) then [lines[0]] else [];
      var rest := KeptFrom(ReadStep(st, lines[0]), lines[1..]);
      CommentsAreKept(ReadStep(st, lines[0]), lines[1..]);
      assert Comments(first) == CommentIn(lines[0]) by { hide ParseLine; }
      hide ReadStep, KeepLine, CommentIn;
      CommentsConcat(first, rest);
    }
  }

  // ---------------------------------------------------------------- whatever the data

  /** `x` is what remains of `y` when some lines are left out. */
  ghost predicate Sub(x: seq<string>, y: seq<string>)
    decreases y
  {
    x == [] || (y != [] && ((x[0] == y[0] && Sub(x[1..], y[1..])) || Sub(x, y[1..])))
  }

  lemma {:induction false} SubBehind(x: seq<string>, m: seq<string>, y: seq<string>)
    requires Sub(x, y)
    ensures Sub(x, m + y)
  {
    if m == [] {
      assert m + y == y;
    } else {
      assert (m + y)[1..] == m[1..] + y;
      SubBehind(x, m[1..], y);
    }
  }

  /** More lines in the middle. */
  lemma {:induction false} SubInsert(x: seq<string>, a: seq<string>, m: seq<string>, b: seq<string>)
    requires Sub(x, a + b)
    ensures Sub(x, a + (m + b))
    decreases a
  {
    if a == [] {
      assert a + b == b && a + (m + b) == m + b;
      SubBehind(x, m, b);
    } else if x != [] {
      assert (a + b)[1..] == a[1..] + b && (a + (m + b))[1..] == a[1..] + (m + b);
      if x[0] == a[0] && Sub(x[1..], a[1..] + b) {
        SubInsert(x[1..], a[1..], m, b);
      } else {
        SubInsert(x, a[1..], m, b);
      }
    }
  }

  lemma SubMore(x: seq<string>, a: seq<string>, m: seq<string>)
    requires Sub(x, a)
    ensures Sub(x, a + m)
  {
    SeqEmpty(a);
    SeqEmpty(m);
    SubInsert(x, a, m, []);
  }

  /** The same line behind both. */
  lemma {:induction false} SubBoth(x: seq<string>, a: seq<string>, line: string)
    requires Sub(x, a)
    ensures Sub(x + [line], a + [line])
    decreases a
  {
    if x == [] {
      assert x + [line] == [line];
      assert Sub([line], [line]) by { assert [line][1..] == []; }
      SubBehind([line], a, [line]);
    } else {
      assert (a + [line])[1..] == a[1..] + [line] && (x + [line])[1..] == x[1..] + [line];
      if x[0] == a[0] && Sub(x[1..], a[1..]) {
        SubBoth(x[1..], a[1..], line);
      } else {
        SubBoth(x, a[1..], line);
      }
    }
  }

  ghost predicate Carries(p: Pass, x: seq<string>) {
    Sub(x, p.head + p.tail)
  }

  lemma FlushCarries(p: Pass, x: seq<string>, data: Ini, original: Ini, pretty: bool)
    requires Carries(p, x)
    ensures Carries(Flushed(p, data, original, pretty), x)
  {
    hide Sub, NewKeys;
    var m := NewKeys(p.section, data, original, pretty);
    SubInsert(x, p.head, m, p.tail);
    SeqAssoc(p.head, m, p.tail);
  }

  lemma WrittenCarries(p: Pass, x: seq<string>, line: string)
    requires Carries(p, x)
    ensures Sub(x, p.head + p.tail + [line] + []) && Sub(x, p.head + (p.tail + [line]))
    ensures Sub(x + [line], p.head + (p.tail + [line]))
  {
    hide Sub;
    SubMore(x, p.head + p.tail, [line]);
    SubBoth(x, p.head + p.tail, line);
    SeqEmpty(p.head + p.tail + [line]);
    SeqAssoc(p.head, p.tail, [line]);
  }

  lemma SectionCarries(p: Pass, x: seq<string>, line: string, name: string, data: Ini)
    requires Carries(p, x)
    ensures Carries(AfterSection(p, line, name, data), x)
  {
    hide Sub, Norm, Has;
    WrittenCarries(p, x, line);
  }

  lemma KeyCarries(p: Pass, x: seq<string>, line: string, k: string, v: string, data: Ini, pretty: bool)
    requires Carries(p, x)
    ensures Carries(AfterKey(p, line, k, v, data, pretty), x)
  {
    hide Sub, Norm, Val, KeptOrRewritten;
    var dv := Val(data, Norm(p.section), Norm(k));
    if dv.Some? { WrittenCarries(p, x, KeptOrRewritten(line, v, dv.value, pretty)); }
  }

  lemma OtherCarries(p: Pass, x: seq<string>, line: string)
    requires Carries(p, x)
    ensures Carries(AfterOther(p, line), x + CommentIn(line))
  {
    if ParseLine(line).Comment? { NotEmptyComment(line); }
    hide Sub, ParseLine;
    SeqEmpty(x);
    WrittenCarries(p, x, line);
  }

  lemma StepCarries(p: Pass, x: seq<string>, line: string, data: Ini, original: Ini, pretty: bool)
    requires Carries(p, x)
    ensures Carries(LazyStep(p, line, data, original, pretty), x + CommentIn(line))
  {
    hide Carries, ParseLine, Flushed, AfterSection, AfterKey, AfterOther;
    SeqEmpty(x);
    match ParseLine(line)
    case Section(n) =>
      FlushCarries(p, x, data, original, pretty);
      SectionCarries(if p.parsing then Flushed(p, data, original, pretty) else p, x, line, n, data);
    case KeyValue(k, v) => KeyCarries(p, x, line, k, v, data, pretty);
    case _ => OtherCarries(p, x, line);
  }

  lemma {:induction false} PassCarries(lines: seq<string>, data: Ini, original: Ini, pretty: bool)
    ensures Carries(LazyPass(lines, data, original, pretty), Comments(lines))
    decreases |lines|
  {
    hide LazyStep, CommentIn;
    if lines != [] {
      var front, last := lines[..|lines| - 1], lines[|lines| - 1];
      PassCarries(front, data, original, pretty);
      hide Carries;
      StepCarries(LazyPass(front, data, original, pretty), Comments(front), last, data, original, pretty);
      CommentsConcat(front, [last]);
      assert front + [last] == lines;
      assert Comments([last]) == CommentIn(last) by { assert [last][1..] == []; SeqEmpty(CommentIn(last)); }
    }
  }

  lemma {:induction false} NewSectionsCarry(x: seq<string>, out: seq<string>, data: Ini, original: Ini, pretty: bool)
    requires Sub(x, out)
    ensures Sub(x, WithNewSections(out, data, original, pretty))
    decreases |data|
  {
    hide Sub, Has, Norm, SectionLines, Spacer;
    if data != [] {
      var more := SectionLines(data[0].0, data[0].1, pretty);
      SubMore(x, out, Spacer(out, pretty));
      SubMore(x, out + Spacer(out, pretty), more);
      NewSectionsCarry(x, out, data[1..], original, pretty);
      NewSectionsCarry(x, out + Spacer(out, pretty) + more, data[1..], original, pretty);
    }
  }

  /** Whatever is written, every comment of the file stays, in the order of the file. */
  lemma CommentsStay(fileLines: seq<string>, data: Ini, original: Ini, pretty: bool)
    ensures Sub(Comments(fileLines), LazyOutput(KeptFrom(START, fileLines), data, original, pretty))
  {
    CommentsAreKept(START, fileLines);
    var lines := KeptFrom(START, fileLines);
    if lines != [] {
      PassCarries(lines, data, original, pretty);
      FlushCarries(LazyPass(lines, data, original, pretty), Comments(lines), data, original, pretty);
    }
    hide Sub, KeptFrom, LazyPass, Flushed, WithNewSections;
    assert lines == [] ==> Sub(Comments(lines), []) by { SubNone(); }
    NewSectionsCarry(Comments(lines), Edited(lines, data, original, pretty), data, original, pretty);
  }

  lemma SubNone()
    ensures Sub([], []) && Comments([]) == []
  {
  }
}

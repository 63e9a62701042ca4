/** The empty lines and comments that a lazy write keeps. */
module IniBlanks {
  import opened Options
  import opened IniText
  import opened IniParser
  import opened IniMap
  import opened IniFile
  import opened IniLazy
  import opened IniLazyProof

  /** The lines that say nothing to the reader, in order. */
  function Inerts(lines: seq<string>): seq<string> {
    if lines == [] then [] else InertIn(lines[0]) + Inerts(lines[1..])
  }

  function InertIn(line: string): seq<string> {
    if Inert(line) then [line] else []
  }

  lemma {:induction false} InertsConcat(x: seq<string>, y: seq<string>)
    ensures Inerts(x + y) == Inerts(x) + Inerts(y)
  {
    hide InertIn;
    if x == [] {
      assert x + y == y;
    } else {
      assert (x + y)[1..] == x[1..] + y;
      InertsConcat(x[1..], y);
      SeqAssoc(InertIn(x[0]), Inerts(x[1..]), Inerts(y));
    }
  }

  lemma InertsOne(line: string)
    ensures Inerts([line]) == InertIn(line)
  {
    hide InertIn;
    SeqEmpty(InertIn(line));
  }

  lemma InertsBehind(head: seq<string>, tail: seq<string>, line: string)
    ensures Inerts(head + tail + [line]) == Inerts(head + tail) + InertIn(line)
  {
    hide InertIn, Inerts;
    InertsConcat(head + tail, [line]);
    InertsOne(line);
  }

  // ---------------------------------------------------------------- lines that are added

  lemma {:induction false} MissingNotInert(t: Table<string>, original: Table<string>, pretty: bool)
    requires GoodTable(t, pretty)
    ensures Inerts(MissingLines(t, original, pretty)) == []
  {
    if t != [] {
      GoodHead(t, pretty);
      MissingNotInert(t[1..], original, pretty);
      hide ParseLine, KeyText, GoodTable, Norm, Has;
      var first := if Has(original, Norm(t[0].0)) then [] else [KeyText(t[0].0, t[0].1, pretty)];
      InertsConcat(first, MissingLines(t[1..], original, pretty));
      if first != [] { InertsOne(first[0]); }
    }
  }

  lemma {:induction false} KeysNotInert(t: Table<string>, pretty: bool)
    requires GoodTable(t, pretty)
    ensures Inerts(KeyLines(t, pretty)) == []
  {
    if t != [] {
      GoodHead(t, pretty);
      KeysNotInert(t[1..], pretty);
      hide ParseLine, KeyText, GoodTable, Norm;
      InertsConcat([KeyText(t[0].0, t[0].1, pretty)], KeyLines(t[1..], pretty));
      InertsOne(KeyText(t[0].0, t[0].1, pretty));
    }
  }

  lemma SectionNotInert(name: string, t: Table<string>, pretty: bool)
    requires GoodSection(name) && GoodTable(t, pretty)
    ensures Inerts(SectionLines(name, t, pretty)) == []
  {
    NormIdempotent(name);
    SectionLine(name);
    KeysNotInert(t, pretty);
    hide ParseLine, KeyLines, GoodTable, SectionText, Norm;
    InertsConcat([SectionText(name)], KeyLines(t, pretty));
    InertsOne(SectionText(name));
  }

  lemma FlushInerts(p: Pass, data: Ini, original: Ini, pretty: bool)
    requires GoodIni(data, pretty)
    ensures var q := Flushed(p, data, original, pretty); Inerts(q.head + q.tail) == Inerts(p.head + p.tail)
  {
    var here := Norm(p.section);
    InnerGood(data, here, pretty);
    hide GoodIni, GoodTable, Inerts, MissingLines, Norm, Has, InnerOf;
    var added := NewKeys(p.section, data, original, pretty);
    MissingNotInert(InnerOf(data, here), InnerOf(original, here), pretty);
    InertsConcat(p.head + added, p.tail);
    InertsConcat(p.head, added);
    InertsConcat(p.head, p.tail);
    SeqEmpty(Inerts(p.head));
    SeqEmpty(p.head);
  }

  // ---------------------------------------------------------------- one line

  lemma SectionInerts(p: Pass, line: string, data: Ini)
    requires ParseLine(line).Section?
    ensures var q := AfterSection(p, line, ParseLine(line).name, data);
            Inerts(q.head + q.tail) == Inerts(p.head + p.tail)
  {
    hide ParseLine, Inerts, Norm, Has;
    InertsBehind(p.head, p.tail, line);
    SeqEmpty(p.head + p.tail + [line]);
    SeqEmpty(Inerts(p.head + p.tail));
  }

  lemma KeyInerts(p: Pass, line: string, data: Ini, pretty: bool)
    requires ParseLine(line).KeyValue? && GoodIni(data, pretty)
    ensures var q := AfterKey(p, line, ParseLine(line).key, ParseLine(line).value, data, pretty);
            Inerts(q.head + q.tail) == Inerts(p.head + p.tail)
  {
    var key, v := ParseLine(line).key, ParseLine(line).value;
    var dv := Val(data, Norm(p.section), Norm(key));
    if dv.Some? {
      PlainKey(data, Norm(p.section), Norm(key), pretty);
      EditedKey(line, dv.value, pretty);
      hide ParseLine, Inerts, Norm, Val, KeptOrRewritten, GoodIni;
      var line' := KeptOrRewritten(line, v, dv.value, pretty);
      InertsBehind(p.head, p.tail, line');
      SeqEmpty(p.head + p.tail + [line']);
      SeqEmpty(Inerts(p.head + p.tail));
    }
  }

  lemma OtherInerts(p: Pass, line: string)
    requires Inert(line)
    ensures var q := AfterOther(p, line);
            Inerts(q.head + q.tail) == Inerts(p.head + p.tail) + if p.discard && line == "" then [] else [line]
  {
    hide ParseLine, Inerts;
    InertsBehind(p.head, p.tail, line);
    SeqAssoc(p.head, p.tail, [line]);
    SeqEmpty(Inerts(p.head + p.tail));
  }

  /** What one line adds. */
  function Spared(p: Pass, line: string): seq<string> {
    if Inert(line) && !(p.discard && line == "") then [line] else []
  }

  lemma StepInerts(p: Pass, line: string, data: Ini, original: Ini, pretty: bool)
    requires GoodIni(data, pretty)
    ensures var q := LazyStep(p, line, data, original, pretty);
            Inerts(q.head + q.tail) == Inerts(p.head + p.tail) + Spared(p, line)
  {
    hide ParseLine, Inerts, GoodIni, Flushed, AfterSection, AfterKey;
    SeqEmpty(Inerts(p.head + p.tail));
    match ParseLine(line)
    case Section(n) =>
      FlushInerts(p, data, original, pretty);
      SectionInerts(p, line, data);
      SectionInerts(Flushed(p, data, original, pretty), line, data);
    case KeyValue(k, v) =>
      KeyInerts(p, line, data, pretty);
    case Unknown =>
    case _ =>
      OtherInerts(p, line);
  }

  // ---------------------------------------------------------------- which lines are dropped

  /** Line `i` opens a section that the data has, or one that it lacks. */
  ghost predicate Opens(lines: seq<string>, i: nat, data: Ini, has: bool)
    requires i < |lines|
  {
    ParseLine(lines[i]).Section? && (Has(data, Norm(ParseLine(lines[i]).name)) <==> has)
  }

  /** Before line `n`, a section that the data lacks was opened, and since then there was
      neither an empty line nor a section that the data has. */
  ghost predicate Behind(lines: seq<string>, n: nat, data: Ini)
    requires n <= |lines|
  {
    exists j :: 0 <= j < n && Opens(lines, j, data, false) && Quiet(lines, j + 1, n, data)
  }

  ghost predicate Quiet(lines: seq<string>, from: nat, to: nat, data: Ini)
    requires to <= |lines|
  {
    forall i :: from <= i < to ==> lines[i] != "" && !Opens(lines, i, data, true)
  }

  lemma BehindStep(lines: seq<string>, n: nat, data: Ini)
    requires n < |lines|
    ensures Behind(lines, n + 1, data)
            <==> || Opens(lines, n, data, false)
                 || (Behind(lines, n, data) && lines[n] != "" && !Opens(lines, n, data, true))
  {
    hide Opens;
    if Opens(lines, n, data, false) {
      assert Quiet(lines, n + 1, n + 1, data);
    } else if Behind(lines, n, data) && lines[n] != "" && !Opens(lines, n, data, true) {
      var j :| 0 <= j < n && Opens(lines, j, data, false) && Quiet(lines, j + 1, n, data);
      assert Quiet(lines, j + 1, n + 1, data);
    }
    if Behind(lines, n + 1, data) && !Opens(lines, n, data, false) {
      var j :| 0 <= j < n + 1 && Opens(lines, j, data, false) && Quiet(lines, j + 1, n + 1, data);
      assert Quiet(lines, j + 1, n, data);
    }
  }

  lemma StepDiscards(p: Pass, lines: seq<string>, n: nat, data: Ini, original: Ini, pretty: bool)
    requires n < |lines| && (p.discard <==> Behind(lines, n, data))
    ensures LazyStep(p, lines[n], data, original, pretty).discard <==> Behind(lines, n + 1, data)
  {
    BehindStep(lines, n, data);
    EmptyIsInert();
    hide Behind, Norm, Has, ParseLine, Val, Flushed, KeptOrRewritten;
    match ParseLine(lines[n])
    case Section(name) => FlushDiscards(p, data, original, pretty);
    case _ =>
  }

  lemma FlushDiscards(p: Pass, data: Ini, original: Ini, pretty: bool)
    ensures Flushed(p, data, original, pretty).discard == p.discard
  {
  }

  lemma EmptyIsInert()
    ensures ParseLine("") == Nothing
  {
  }

  /** The inert lines among the first `n` that are not an empty line of that kind. */
  ghost function SparedUpTo(lines: seq<string>, n: nat, data: Ini): seq<string>
    requires n <= |lines|
  {
    if n == 0 then []
    else SparedUpTo(lines, n - 1, data)
         + if Inert(lines[n - 1]) && !(lines[n - 1] == "" && Behind(lines, n - 1, data)) then [lines[n - 1]] else []
  }

  lemma {:induction false} PassInerts(lines: seq<string>, n: nat, data: Ini, original: Ini, pretty: bool)
    requires GoodIni(data, pretty) && n <= |lines|
    ensures var p := LazyPass(lines[..n], data, original, pretty);
            && Inerts(p.head + p.tail) == SparedUpTo(lines, n, data)
            && (p.discard <==> Behind(lines, n, data))
    decreases n
  {
    if n == 0 {
      assert lines[..0] == [];
      SeqEmpty<string>([]);
    } else {
      hide ParseLine, Inerts, GoodIni, LazyStep, Behind, Inert;
      var p := LazyPass(lines[..n - 1], data, original, pretty);
      PassInerts(lines, n - 1, data, original, pretty);
      assert lines[..n][..n - 1] == lines[..n - 1] && lines[..n][n - 1] == lines[n - 1];
      StepInerts(p, lines[n - 1], data, original, pretty);
      StepDiscards(p, lines, n - 1, data, original, pretty);
    }
  }

  // ---------------------------------------------------------------- new sections

  function Empties(n: nat): (r: seq<string>)
    ensures |r| == n
  {
    seq(n, _ => "")
  }

  lemma EmptiesMore(m: nat, n: nat)
    ensures Empties(m) + Empties(n) == Empties(m + n)
  {
  }

  /** How many sections of the data the original lacks. */
  function NewCount(data: Ini, original: Ini): nat {
    if data == [] then 0 else (if Has(original, Norm(data[0].0)) then 0 else 1) + NewCount(data[1..], original)
  }

  /** The empty lines that a pretty writer puts before `n` new sections: one before each, but
      none at the start of the file or behind an empty line. */
  function Gaps(out: seq<string>, n: nat, pretty: bool): nat {
    if !pretty || n == 0 then 0 else if out == [] || out[|out| - 1] == "" then n - 1 else n
  }

  lemma {:induction false} LastKeyLine(t: Table<string>, pretty: bool)
    requires t != []
    ensures KeyLines(t, pretty)[|t| - 1] != ""
  {
    hide Trim, Escape;
    if |t| > 1 { LastKeyLine(t[1..], pretty); }
  }

  lemma SectionEndsVisibly(out: seq<string>, name: string, t: Table<string>, pretty: bool)
    ensures var r := out + SectionLines(name, t, pretty); r != [] && r[|r| - 1] != ""
  {
    if t != [] { LastKeyLine(t, pretty); }
    hide KeyLines;
  }

  lemma {:induction false} NewSectionsInerts(out: seq<string>, data: Ini, original: Ini, pretty: bool)
    requires GoodIni(data, pretty)
    ensures Inerts(WithNewSections(out, data, original, pretty))
            == Inerts(out) + Empties(Gaps(out, NewCount(data, original), pretty))
    decreases |data|
  {
    if data == [] {
      SeqEmpty(Inerts(out));
    } else {
      var name, t, rest := data[0].0, data[0].1, data[1..];
      GoodFirst(data, pretty);
      var sp := Spacer(out, pretty);
      var spaced := out + sp;
      var next := spaced + SectionLines(name, t, pretty);
      SpacerInerts(out, pretty);
      SectionEndsVisibly(spaced, name, t, pretty);
      assert |sp| + Gaps(next, NewCount(rest, original), pretty) == Gaps(out, 1 + NewCount(rest, original), pretty);
      hide Norm, GoodIni, Has, GoodTable, GoodSection, SectionLines, Inerts, Spacer, Empties, Gaps;
      if Has(original, Norm(name)) {
        NewSectionsInerts(out, rest, original, pretty);
      } else {
        NewSectionsInerts(next, rest, original, pretty);
        SectionNotInert(name, t, pretty);
        InertsConcat(spaced, SectionLines(name, t, pretty));
        InertsConcat(out, sp);
        SeqEmpty(Inerts(spaced));
        var k := Gaps(next, NewCount(rest, original), pretty);
        SeqAssoc(Inerts(out), Empties(|sp|), Empties(k));
        EmptiesMore(|sp|, k);
      }
    }
  }

  lemma SpacerInerts(out: seq<string>, pretty: bool)
    ensures var sp := Spacer(out, pretty);
            Inerts(sp) == Empties(|sp|) && |sp| <= 1 && (!pretty ==> |sp| == 0)
  {
    EmptyIsInert();
    hide ParseLine;
    InertsOne("");
  }

  /** The empty lines and comments after a lazy write: those of the file in their order, except
      the first empty line behind a section that the data lacks, if no section that the data
      has comes between; then the empty lines that separate new sections. */
  lemma BlanksStay(fileLines: seq<string>, data: Ini, original: Ini, pretty: bool)
    requires GoodIni(data, pretty)
    ensures var kept := KeptFrom(START, fileLines);
            Inerts(LazyOutput(kept, data, original, pretty))
            == SparedUpTo(kept, |kept|, data)
               + Empties(Gaps(Edited(kept, data, original, pretty), NewCount(data, original), pretty))
  {
    var kept := KeptFrom(START, fileLines);
    var p := LazyPass(kept, data, original, pretty);
    assert kept[..|kept|] == kept;
    hide GoodIni, Inerts, LazyPass, Flushed, SparedUpTo, WithNewSections, KeptFrom, Gaps;
    if kept == [] {
      NothingSpared(data);
    } else {
      PassInerts(kept, |kept|, data, original, pretty);
      FlushInerts(p, data, original, pretty);
    }
    NewSectionsInerts(Edited(kept, data, original, pretty), data, original, pretty);
  }

  lemma NothingSpared(data: Ini)
    ensures Inerts([]) == [] && SparedUpTo([], 0, data) == []
  {
  }

  // ---------------------------------------------------------------- where new keys go

  /** A line that the writer wrote for a section or a key. */
  predicate Visible(head: seq<string>) {
    head != [] && !Inert(head[|head| - 1])
  }

  lemma VisibleBehind(x: seq<string>, line: string)
    requires ParseLine(line).Section? || ParseLine(line).KeyValue?
    ensures Visible(x + [line])
  {
    hide ParseLine;
  }

  lemma KeyVisible(p: Pass, line: string, data: Ini, pretty: bool)
    requires GoodIni(data, pretty) && ParseLine(line).KeyValue? && (p.parsing ==> Visible(p.head))
    ensures var q := AfterKey(p, line, ParseLine(line).key, ParseLine(line).value, data, pretty);
            q.parsing ==> Visible(q.head)
  {
    var k := Norm(ParseLine(line).key);
    var dv := Val(data, Norm(p.section), k);
    if dv.Some? {
      PlainKey(data, Norm(p.section), k, pretty);
      EditedKey(line, dv.value, pretty);
      hide GoodIni, Norm, Val, ParseLine, KeptOrRewritten, Visible;
      VisibleBehind(p.head + p.tail, KeptOrRewritten(line, ParseLine(line).value, dv.value, pretty));
    }
  }

  lemma StepVisible(p: Pass, line: string, data: Ini, original: Ini, pretty: bool)
    requires GoodIni(data, pretty) && (p.parsing ==> Visible(p.head))
    ensures var q := LazyStep(p, line, data, original, pretty); q.parsing ==> Visible(q.head)
  {
    hide GoodIni, Norm, Has, ParseLine, AfterKey, Visible, NewKeys;
    match ParseLine(line)
    case Section(n) =>
      var q := if p.parsing then Flushed(p, data, original, pretty) else p;
      VisibleBehind(q.head + q.tail, line);
    case KeyValue(k, v) => KeyVisible(p, line, data, pretty);
    case _ =>
  }

  lemma {:induction false} PassVisible(lines: seq<string>, i: nat, data: Ini, pretty: bool)
    requires GoodIni(data, pretty) && AllKept(lines) && i <= |lines|
    ensures var p := LazyPass(lines[..i], data, Read(lines), pretty);
            (p.parsing ==> Visible(p.head)) && !(p.parsing && p.skipping) && AllInert(p.tail)
    decreases i
  {
    PassFollows(lines, i, data, pretty, "", "");
    var p := LazyPass(lines[..i], data, Read(lines), pretty);
    assert Placed(p, ReadFrom(START, lines[..i]), ReadFrom(START, p.head), data);
    hide GoodIni, ReadFrom, LazyStep, Read, KeepLine, Visible, Matches, AllInert, Norm, Has;
    if i == 0 {
      assert lines[..0] == [];
    } else {
      PassVisible(lines, i - 1, data, pretty);
      assert lines[..i][..i - 1] == lines[..i - 1] && lines[..i][i - 1] == lines[i - 1];
      StepVisible(LazyPass(lines[..i - 1], data, Read(lines), pretty), lines[i - 1], data, Read(lines), pretty);
    }
  }

  /** New keys are written directly behind the last section or key line, before the empty
      lines and comments that follow it. */
  lemma NewKeysPlaced(lines: seq<string>, i: nat, data: Ini, pretty: bool)
    requires GoodIni(data, pretty) && AllKept(lines) && i <= |lines|
    ensures var p := LazyPass(lines[..i], data, Read(lines), pretty);
            var q := Flushed(p, data, Read(lines), pretty);
            && q.head + q.tail == p.head + NewKeys(p.section, data, Read(lines), pretty) + p.tail
            && AllInert(p.tail) && (p.parsing ==> Visible(p.head))
  {
    hide GoodIni, AllKept, LazyPass, Read, NewKeys, Visible, AllInert;
    PassVisible(lines, i, data, pretty);
  }

  // ---------------------------------------------------------------- comments

  lemma {:induction false} CommentsOfInerts(lines: seq<string>)
    ensures Comments(Inerts(lines)) == Comments(lines)
  {
    hide ParseLine;
    if lines != [] {
      CommentsOfInerts(lines[1..]);
      CommentsConcat(InertIn(lines[0]), Inerts(lines[1..]));
      CommentsOne(lines[0]);
    }
  }

  lemma {:induction false} CommentsSpared(lines: seq<string>, n: nat, data: Ini)
    requires n <= |lines|
    ensures Comments(SparedUpTo(lines, n, data)) == Comments(lines[..n])
  {
    hide ParseLine, Behind;
    if n != 0 {
      var line := lines[n - 1];
      var last := if Inert(line) && !(line == "" && Behind(lines, n - 1, data)) then [line] else [];
      assert lines[..n] == lines[..n - 1] + [line];
      CommentsSpared(lines, n - 1, data);
      EmptyIsInert();
      CommentsOne(line);
      hide Comments;
      CommentsConcat(SparedUpTo(lines, n - 1, data), last);
      CommentsConcat(lines[..n - 1], [line]);
      NoComments();
    }
  }

  lemma NoComments()
    ensures Comments([]) == []
  {
  }

  lemma {:induction false} EmptiesNoComments(n: nat)
    ensures Comments(Empties(n)) == []
  {
    if n != 0 {
      EmptiesNoComments(n - 1);
      EmptyIsInert();
      hide ParseLine;
      assert Empties(n)[1..] == Empties(n - 1);
    }
  }

  /** With names that the format can carry a lazy write keeps every comment of the file, in
      order, and adds none. */
  lemma CommentsSurvive(fileLines: seq<string>, data: Ini, original: Ini, pretty: bool)
    requires GoodIni(data, pretty)
    ensures Comments(LazyOutput(KeptFrom(START, fileLines), data, original, pretty)) == Comments(fileLines)
  {
    CommentsAreKept(START, fileLines);
    hide GoodIni, Comments, KeptFrom, LazyOutput, Inerts, SparedUpTo, Empties, Gaps;
    var kept := KeptFrom(START, fileLines);
    var m := Gaps(Edited(kept, data, original, pretty), NewCount(data, original), pretty);
    BlanksStay(fileLines, data, original, pretty);
    CommentsOfInerts(LazyOutput(kept, data, original, pretty));
    CommentsConcat(SparedUpTo(kept, |kept|, data), Empties(m));
    CommentsSpared(kept, |kept|, data);
    EmptiesNoComments(m);
    assert kept[..|kept|] == kept;
    SeqEmpty(Comments(kept));
  }
}

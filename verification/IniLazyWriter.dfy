/** The loop of the lazy writer. */
module IniLazyWriter {
  import opened IniText
  import opened IniParser
  import opened IniMap
  import opened IniFile
  import opened IniRewrite
  import opened IniLazy

  lemma {:induction false} MissingUpTo(t: Table<string>, i: nat, original: Table<string>, pretty: bool)
    requires i < |t|
    ensures MissingLines(t[..i + 1], original, pretty)
            == MissingLines(t[..i], original, pretty)
               + if Has(original, Norm(t[i].0)) then [] else [KeyText(t[i].0, t[i].1, pretty)]
    decreases i
  {
    hide Has, Norm, KeyText;
    if i == 0 {
      assert t[..1] == [t[0]] && t[..0] == [] && [t[0]][1..] == [];
    } else {
      assert t[..i + 1][1..] == t[1..][..i] && t[..i][1..] == t[1..][..i - 1];
      MissingUpTo(t[1..], i - 1, original, pretty);
    }
  }

  /** The lines to add behind the last key of a section. */
  method CollectNewKeys(section: string, data: Ini, original: Ini, pretty: bool) returns (linesToAdd: seq<string>)
    ensures linesToAdd == NewKeys(section, data, original, pretty)
  {
    hide Norm, KeyText, MissingLines, Where;
    linesToAdd := [];
    if Has(data, Norm(section)) && Has(original, Norm(section)) {
      var collection, before := InnerOf(data, Norm(section)), InnerOf(original, Norm(section));
      assert collection[..0] == [];
      MissingNone(before, pretty);
      for i := 0 to |collection|
        invariant linesToAdd == MissingLines(collection[..i], before, pretty)
      {
        MissingUpTo(collection, i, before, pretty);
        var key, value := collection[i].0, collection[i].1;
        if Has(before, Norm(key)) {
          continue;
        }
        linesToAdd := linesToAdd + [KeyText(key, value, pretty)];
      }
      assert collection[..|collection|] == collection;
    }
  }

  lemma MissingNone(original: Table<string>, pretty: bool)
    ensures MissingLines([], original, pretty) == []
  {
  }

  lemma NewSectionsStep(out: seq<string>, data: Ini, i: nat, original: Ini, pretty: bool)
    requires i < |data|
    ensures WithNewSections(out, data[i..], original, pretty)
            == WithNewSections(if Has(original, Norm(data[i].0)) then out
                               else out + Spacer(out, pretty) + SectionLines(data[i].0, data[i].1, pretty),
                               data[i + 1..], original, pretty)
  {
    hide Has, Norm, SectionLines;
    assert data[i..][1..] == data[i + 1..];
  }

  lemma NewSectionsDone(out: seq<string>, data: Ini, original: Ini, pretty: bool)
    ensures WithNewSections(out, data[|data|..], original, pretty) == out
  {
  }

  /** The sections of the data that the file lacks. */
  method AppendSections(edited: seq<string>, data: Ini, original: Ini, pretty: bool) returns (output: seq<string>)
    ensures output == WithNewSections(edited, data, original, pretty)
  {
    hide Norm, KeyText, Where, KeyLines, WithNewSections;
    output := edited;
    assert data[0..] == data;
    for i := 0 to |data|
      invariant WithNewSections(output, data[i..], original, pretty) == WithNewSections(edited, data, original, pretty)
    {
      NewSectionsStep(output, data, i, original, pretty);
      var section, collection := data[i].0, data[i].1;
      if Has(original, Norm(section)) {
        continue;
      }
      ghost var before := output;
      if pretty && |output| > 0 && output[|output| - 1] != "" {
        output := output + [""];
      }
      assert output == before + Spacer(before, pretty);
      ghost var spaced := output;
      output := output + ["[" + section + "]"];
      assert collection[..0] == [];
      NoKeyLines(pretty);
      for j := 0 to |collection|
        invariant output == spaced + SectionLines(section, collection[..j], pretty)
      {
        KeyLinesUpTo(collection, j, pretty);
        output := output + [KeyText(collection[j].0, collection[j].1, pretty)];
      }
      assert collection[..|collection|] == collection;
    }
    NewSectionsDone(output, data, original, pretty);
  }

  lemma NoKeyLines(pretty: bool)
    ensures KeyLines([], pretty) == []
  {
  }

  lemma {:induction false} KeyLinesUpTo(t: Table<string>, j: nat, pretty: bool)
    requires j < |t|
    ensures KeyLines(t[..j + 1], pretty) == KeyLines(t[..j], pretty) + [KeyText(t[j].0, t[j].1, pretty)]
    decreases j
  {
    hide KeyText;
    if j == 0 {
      assert t[..1] == [t[0]] && t[..0] == [] && [t[0]][1..] == [];
    } else {
      assert t[..j + 1][1..] == t[1..][..j] && t[..j][1..] == t[1..][..j - 1];
      KeyLinesUpTo(t[1..], j - 1, pretty);
    }
  }

  // ---------------------------------------------------------------- the loop

  /** The local variables of the loop. */
  datatype Vars = Vars(output: seq<string>, lastKeyLine: nat, section: string, parsing: bool, skipping: bool,
                       discard: bool)

  /** Where the iterator is with respect to a section line: before it, back at it with new
      keys to write, or back at it with the keys written. */
  datatype Visit = First | Writing | Written

  /** The variables hold what the pass computes. */
  ghost predicate Holds(v: Vars, p: Pass, visit: Visit, data: Ini, original: Ini, pretty: bool) {
    && v.section == p.section && v.skipping == p.skipping && v.discard == p.discard
    && v.lastKeyLine <= |v.output|
    && !(p.parsing && p.skipping)
    && (p.skipping ==> !Has(data, Norm(p.section)))
    && (visit.First? ==> v.parsing == p.parsing)
    && (!visit.First? ==> p.parsing && !v.parsing)
    && (if visit.Written? then v.output == p.head + NewKeys(p.section, data, original, pretty) + p.tail
        else v.output == p.head + p.tail && (p.skipping || v.lastKeyLine == |p.head|))
  }

  function Inserted(output: seq<string>, at: nat, lines: seq<string>): seq<string>
    requires at <= |output|
  {
    output[..at] + lines + output[at..]
  }

  lemma InsertedAtHead(head: seq<string>, tail: seq<string>, lines: seq<string>)
    ensures Inserted(head + tail, |head|, lines) == head + lines + tail
  {
    assert (head + tail)[..|head|] == head;
  }

  lemma InsertedNone(output: seq<string>, at: nat)
    requires at <= |output|
    ensures Inserted(output, at, []) == output
  {
  }

  /** Flushing inserts at the last key line. */
  lemma FlushHolds(v: Vars, p: Pass, visit: Visit, data: Ini, original: Ini, pretty: bool)
    requires Holds(v, p, visit, data, original, pretty) && !visit.Written?
    ensures var q := Flushed(p, data, original, pretty);
            Inserted(v.output, v.lastKeyLine, NewKeys(v.section, data, original, pretty)) == q.head + q.tail
  {
    hide Has, Norm, MissingLines, Inserted;
    if p.skipping {
      InsertedNone(v.output, v.lastKeyLine);
      SeqEmpty(p.head);
    } else {
      InsertedAtHead(p.head, p.tail, NewKeys(v.section, data, original, pretty));
    }
  }

  /** One ordinary visit of a line, as the loop body does it. */
  method VisitLine(line: string, v: Vars, ghost p: Pass, ghost visit: Visit, data: Ini, ghost original: Ini,
                   pretty: bool)
    returns (r: Vars, back: bool, skip: bool)
    requires Holds(v, p, visit, data, original, pretty) && !visit.Writing?
    requires visit.Written? ==> ParseLine(line).Section?
    ensures back ==> ParseLine(line).Section? && visit.First? && Holds(r, p, Writing, data, original, pretty)
    ensures !back ==> Holds(r, LazyStep(p, line, data, original, pretty), First, data, original, pretty)
    ensures skip && !back ==> r.skipping
  {
    hide Norm, Where, NewKeys, ParseLine, RewriteLine;
    r, back, skip := v, false, false;
    var parse := ParseLine(line);
    if parse.Section? {
      if r.parsing {
        r, back := r.(parsing := false), true;
        return;
      }
      r := r.(section := parse.name);
      if Has(data, Norm(r.section)) {
        r := r.(parsing := true, skipping := false, discard := false, output := r.output + [line]);
        r := r.(lastKeyLine := |r.output|);
        SeqEmpty(r.output);
      } else {
        r := r.(skipping := true, discard := true);
        skip := true;
      }
    } else if parse.KeyValue? {
      if r.skipping {
        skip := true;
        return;
      }
      if Has(data, Norm(r.section)) {
        var collection := InnerOf(data, Norm(r.section));
        if Has(collection, Norm(parse.key)) {
          var outputValue := Lookup(collection, Norm(parse.key)).value;
          if parse.value == outputValue {
            r := r.(output := r.output + [line]);
          } else {
            r := r.(output := r.output + [RewriteLine(line, outputValue, pretty)]);
          }
          r := r.(lastKeyLine := |r.output|);
          SeqEmpty(r.output);
        }
      }
    } else {
      if r.discard && line == "" {
        r := r.(discard := false);
      } else if !parse.Unknown? {
        r := r.(output := r.output + [line]);
        SeqAssoc(p.head, p.tail, [line]);
      }
    }
  }

  /** `getLazyOutput`: the iterator goes back to a section line twice, once to write the
      new keys of the section before it and once to handle it; no line is visited more than
      three times. */
  method WriteLazily(lines: seq<string>, data: Ini, original: Ini, pretty: bool)
    returns (output: seq<string>, ghost visits: seq<nat>)
    ensures output == LazyOutput(lines, data, original, pretty)
    ensures |visits| == |lines| && forall i :: 0 <= i < |lines| ==> 1 <= visits[i] <= 3
  {
    hide Norm, Has, NewKeys, ParseLine, LazyStep, LazyPass, WithNewSections, Flushed, Holds, Inserted;
    var v := Vars([], 0, "", false, false, false);
    var writeNewKeys := false;
    var line: int := 0;
    ghost var visit := First;
    visits := seq(|lines|, _ => 0);
    assert lines[..0] == [];
    BeginHolds(data, original, pretty);
    while line != |lines|
      invariant 0 <= line <= |lines|
      invariant line < |lines| ==>
                Holds(v, LazyPass(lines[..line], data, original, pretty), visit, data, original, pretty)
      invariant line == |lines| ==> v.output == Edited(lines, data, original, pretty)
      invariant writeNewKeys <==> visit.Writing?
      invariant |visits| == |lines| && forall i :: 0 <= i < line ==> 1 <= visits[i] <= 3
      invariant line < |lines| ==> visits[line] == if visit.First? then 0 else if visit.Writing? then 1 else 2
      invariant forall i :: line < i < |lines| ==> visits[i] == 0
      invariant visit.First? || (0 < line < |lines| && ParseLine(lines[line]).Section?)
      decreases |lines| - line, if visit.First? then 2 else if visit.Writing? then 1 else 0
    {
      visits := visits[line := visits[line] + 1];
      ghost var p := LazyPass(lines[..line], data, original, pretty);
      label body: {
        if !writeNewKeys {
          var back, skip;
          v, back, skip := VisitLine(lines[line], v, p, visit, data, original, pretty);
          if back {
            BackInside(v, lines, line, data, original, pretty);
            writeNewKeys, visit := true, Writing;
            line := line - 1;
            break body;
          }
          visit := First;
          PassUpTo(lines, line, data, original, pretty);
          if line + 1 == |lines| {
            assert lines[..|lines|] == lines;
            FlushHolds(v, LazyPass(lines, data, original, pretty), First, data, original, pretty);
            if skip { SkipFlush(v, LazyPass(lines, data, original, pretty), data, original, pretty); }
          }
          if skip {
            break body;
          }
        }
        if writeNewKeys || line + 1 == |lines| {
          var linesToAdd := CollectNewKeys(v.section, data, original, pretty);
          ghost var q := if writeNewKeys then p else LazyPass(lines, data, original, pretty);
          InsideHolds(v, q, visit, data, original, pretty);
          ghost var was := v;
          if linesToAdd != [] {
            v := v.(output := Inserted(v.output, v.lastKeyLine, linesToAdd));
          } else {
            InsertedNone(v.output, v.lastKeyLine);
          }
          if writeNewKeys {
            WrittenHolds(was, v, p, data, original, pretty);
            writeNewKeys, visit := false, Written;
            line := line - 1;
          }
        }
      }
      line := line + 1;
    }
    output := AppendSections(v.output, data, original, pretty);
  }

  lemma BeginHolds(data: Ini, original: Ini, pretty: bool)
    ensures Holds(Vars([], 0, "", false, false, false), LazyPass([], data, original, pretty), First, data, original,
                  pretty)
  {
  }

  /** The iterator never steps back over the start. */
  lemma BackInside(v: Vars, lines: seq<string>, line: nat, data: Ini, original: Ini, pretty: bool)
    requires line < |lines|
             && Holds(v, LazyPass(lines[..line], data, original, pretty), Writing, data, original, pretty)
    ensures 0 < line
  {
    assert lines[..0] == [];
  }

  lemma PassUpTo(lines: seq<string>, i: nat, data: Ini, original: Ini, pretty: bool)
    requires i < |lines|
    ensures LazyPass(lines[..i + 1], data, original, pretty)
            == LazyStep(LazyPass(lines[..i], data, original, pretty), lines[i], data, original, pretty)
  {
    hide LazyStep;
    assert lines[..i + 1][..i] == lines[..i];
  }

  lemma SkipFlush(v: Vars, p: Pass, data: Ini, original: Ini, pretty: bool)
    requires Holds(v, p, First, data, original, pretty) && v.skipping
    ensures var q := Flushed(p, data, original, pretty); v.output == q.head + q.tail
  {
    hide Norm, Has, MissingLines;
    SeqEmpty(p.head);
  }

  lemma InsideHolds(v: Vars, p: Pass, visit: Visit, data: Ini, original: Ini, pretty: bool)
    requires Holds(v, p, visit, data, original, pretty)
    ensures v.lastKeyLine <= |v.output|
  {
  }

  lemma WrittenHolds(v: Vars, w: Vars, p: Pass, data: Ini, original: Ini, pretty: bool)
    requires Holds(v, p, Writing, data, original, pretty)
    requires w == v.(output := Inserted(v.output, v.lastKeyLine, NewKeys(v.section, data, original, pretty)))
    ensures Holds(w, p, Written, data, original, pretty)
  {
    FlushHolds(v, p, Writing, data, original, pretty);
  }
}

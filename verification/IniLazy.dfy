/** The lazy writer: what one pass over the lines of an existing file produces. */
module IniLazy {
  import opened Options
  import opened IniText
  import opened IniParser
  import opened IniMap
  import opened IniFile
  import opened IniRewrite

  // ---------------------------------------------------------------- one pass

  /** The writer between two lines. `head` ends with the last key or section line written,
      `tail` is what was written since; new keys go between the two. A section of the file
      is either `parsing`, when the data has it, or `skipping`; `discard` asks to drop the
      next empty line. */
  datatype Pass = Pass(head: seq<string>, tail: seq<string>, section: string, parsing: bool, skipping: bool,
                       discard: bool)

  const BEGIN: Pass := Pass([], [], "", false, false, false)

  /** Lines for the keys of a collection that the original lacks. */
  function MissingLines(t: Table<string>, original: Table<string>, pretty: bool): seq<string> {
    if t == [] then []
    else (if Has(original, Norm(t[0].0)) then [] else [KeyText(t[0].0, t[0].1, pretty)])
         + MissingLines(t[1..], original, pretty)
  }

  /** Lines to add to a section. */
  function NewKeys(section: string, data: Ini, original: Ini, pretty: bool): seq<string> {
    if Has(data, Norm(section)) && Has(original, Norm(section))
    then MissingLines(InnerOf(data, Norm(section)), InnerOf(original, Norm(section)), pretty)
    else []
  }

  /** The new keys of the current section, behind its last key. */
  function Flushed(p: Pass, data: Ini, original: Ini, pretty: bool): Pass {
    p.(head := p.head + NewKeys(p.section, data, original, pretty), parsing := false)
  }

  function AfterSection(p: Pass, line: string, name: string, data: Ini): Pass {
    if Has(data, Norm(name)) then Pass(p.head + p.tail + [line], [], name, true, false, false)
    else p.(section := name, skipping := true, discard := true)
  }

  /** The line of a key that the data holds with value `dv`. */
  function KeptOrRewritten(line: string, value: string, dv: string, pretty: bool): string {
    if value == dv then line else RewriteLine(line, dv, pretty)
  }

  function AfterKey(p: Pass, line: string, key: string, value: string, data: Ini, pretty: bool): Pass {
    if p.skipping then p
    else match Val(data, Norm(p.section), Norm(key))
      case None => p
      case Some(dv) => p.(head := p.head + p.tail + [KeptOrRewritten(line, value, dv, pretty)], tail := [])
  }

  function AfterOther(p: Pass, line: string): Pass {
    if p.discard && line == "" then p.(discard := false)
    else if ParseLine(line).Unknown? then p
    else p.(tail := p.tail + [line])
  }

  function LazyStep(p: Pass, line: string, data: Ini, original: Ini, pretty: bool): Pass {
    match ParseLine(line)
    case Section(n) => AfterSection(if p.parsing then Flushed(p, data, original, pretty) else p, line, n, data)
    case KeyValue(k, v) => AfterKey(p, line, k, v, data, pretty)
    case _ => AfterOther(p, line)
  }

  /** The pass over all lines but the flush at the end. */
  function LazyPass(lines: seq<string>, data: Ini, original: Ini, pretty: bool): Pass {
    if lines == [] then BEGIN
    else LazyStep(LazyPass(lines[..|lines| - 1], data, original, pretty), lines[|lines| - 1], data, original, pretty)
  }

  /** The output before new sections are appended. */
  function Edited(lines: seq<string>, data: Ini, original: Ini, pretty: bool): seq<string> {
    if lines == [] then []
    else
      var p := Flushed(LazyPass(lines, data, original, pretty), data, original, pretty);
      p.head + p.tail
  }

  /** A pretty writer separates a new section from visible text. */
  function Spacer(out: seq<string>, pretty: bool): seq<string> {
    if pretty && |out| > 0 && out[|out| - 1] != "" then [""] else []
  }

  /** The sections that the original lacks, appended. */
  function WithNewSections(out: seq<string>, data: Ini, original: Ini, pretty: bool): seq<string>
    decreases |data|
  {
    if data == [] then out
    else if Has(original, Norm(data[0].0)) then WithNewSections(out, data[1..], original, pretty)
    else WithNewSections(out + Spacer(out, pretty) + SectionLines(data[0].0, data[0].1, pretty), data[1..], original,
                         pretty)
  }

  /** What the lazy writer writes. */
  function LazyOutput(lines: seq<string>, data: Ini, original: Ini, pretty: bool): seq<string> {
    WithNewSections(Edited(lines, data, original, pretty), data, original, pretty)
  }

  // ---------------------------------------------------------------- values of a structure

  /** The value of a key, both names filed. */
  function Val(d: Ini, s: string, k: string): Option<string> {
    Lookup(InnerOf(d, s), k)
  }

  lemma LookupHas<T>(d: Table<T>, s: string)
    ensures Lookup(d, s).Some? <==> Has(d, s)
  {
  }

  lemma StoreSeen(d: Ini, section: string, key: string, v: string, s: string, k: string)
    ensures Val(Store(d, section, key, v), s, k)
            == if s == Norm(section) && k == Norm(key) then Some(v) else Val(d, s, k)
    ensures Has(Store(d, section, key, v), s) <==> Has(d, s) || s == Norm(section)
  {
    hide Norm, Put, Where, Lookup, Has;
    var inner := InnerOf(d, Norm(section));
    LookupPut(d, Norm(section), Put(inner, Norm(key), v), s);
    LookupPut(inner, Norm(key), v, k);
    LookupHas(d, s);
    LookupHas(Store(d, section, key, v), s);
  }

  lemma TouchSeen(d: Ini, name: string, s: string, k: string)
    ensures Val(Touch(d, name), s, k) == Val(d, s, k)
    ensures Has(Touch(d, name), s) <==> Has(d, s) || s == Norm(name)
  {
    hide Norm;
    var e := (Norm(name), []);
    LookupAppend(d, [e], s);
    WhereAppend(d, [e], s);
    WhereFirst(e);
    hide Where;
  }

  // ---------------------------------------------------------------- reading only grows

  lemma {:induction false} ReadGrows(st: Reading, lines: seq<string>, s: string, k: string)
    ensures Has(st.data, s) ==> Has(ReadFrom(st, lines).data, s)
    ensures Val(st.data, s, k).Some? ==> Val(ReadFrom(st, lines).data, s, k).Some?
    decreases lines
  {
    if lines != [] {
      StepGrows(st, lines[0], s, k);
      hide ReadStep, Has, Val;
      ReadGrows(ReadStep(st, lines[0]), lines[1..], s, k);
    }
  }

  lemma StepGrows(st: Reading, line: string, s: string, k: string)
    ensures Has(st.data, s) ==> Has(ReadStep(st, line).data, s)
    ensures Val(st.data, s, k).Some? ==> Val(ReadStep(st, line).data, s, k).Some?
  {
    hide ParseLine, Store, Touch, Has, Val;
    match ParseLine(line)
    case Section(n) => TouchSeen(st.data, n, s, k);
    case KeyValue(key, v) => StoreSeen(st.data, st.section, key, v, s, k);
    case _ =>
  }
}

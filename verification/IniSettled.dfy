/** A lazy write of data with the same sections and keys as the file. */
module IniSettled {
  import opened IniText
  import opened IniParser
  import opened IniMap
  import opened IniFile
  import opened IniLazy
  import opened IniLazyProof

  lemma Present<T>(t: Table<T>, i: nat)
    requires i < |t|
    ensures Has(t, t[i].0)
  {
    if Where(t, t[i].0).None? {
      WhereMissing(t, t[i].0, i);
    }
  }

  // ---------------------------------------------------------------- nothing is missing

  ghost predicate NamedTable(t: Table<string>) {
    forall i :: 0 <= i < |t| ==> IsNorm(t[i].0)
  }

  /** Filed names, as every map keeps them. */
  ghost predicate Named(d: Ini) {
    forall i :: 0 <= i < |d| ==> IsNorm(d[i].0) && NamedTable(d[i].1)
  }

  /** The same sections with the same keys. */
  ghost predicate SameNames(d: Ini, data: Ini) {
    && (forall s :: Has(d, s) <==> Has(data, s))
    && (forall s, k :: Val(d, s, k).Some? <==> Val(data, s, k).Some?)
  }

  lemma {:induction false} NothingMissing(t: Table<string>, original: Table<string>, pretty: bool)
    requires forall i :: 0 <= i < |t| ==> Has(original, Norm(t[i].0))
    ensures MissingLines(t, original, pretty) == []
  {
    hide Has, Norm, KeyText;
    if t != [] {
      NothingMissing(t[1..], original, pretty);
    }
  }

  lemma NamedInner(data: Ini, s: string)
    requires Named(data)
    ensures NamedTable(InnerOf(data, s))
  {
    hide IsNorm, Where;
  }

  lemma NoNewKeys(section: string, data: Ini, original: Ini, pretty: bool)
    requires Named(data) && SameNames(original, data)
    ensures NewKeys(section, data, original, pretty) == []
  {
    var s := Norm(section);
    var t, o := InnerOf(data, s), InnerOf(original, s);
    NamedInner(data, s);
    hide Norm, InnerOf, Has, Where, Named;
    forall i | 0 <= i < |t| ensures Has(o, Norm(t[i].0)) {
      NormFixed(t[i].0);
      Present(t, i);
      ValHas(data, s, t[i].0);
      ValHas(original, s, t[i].0);
    }
    NothingMissing(t, o, pretty);
  }

  lemma NormFixed(k: string)
    requires IsNorm(k)
    ensures Norm(k) == k
  {
  }

  lemma {:induction false} NoNewSections(out: seq<string>, data: Ini, original: Ini, pretty: bool)
    requires forall i :: 0 <= i < |data| ==> Has(original, Norm(data[i].0))
    ensures WithNewSections(out, data, original, pretty) == out
    decreases |data|
  {
    hide Has, Norm, SectionLines;
    if data != [] {
      NoNewSections(out, data[1..], original, pretty);
    }
  }

  // ---------------------------------------------------------------- line by line

  /** What a write that neither adds nor removes a name makes of line `i`: key lines get
      their value, all others stay. */
  ghost function Settled(lines: seq<string>, data: Ini, i: nat, pretty: bool): string
    requires i < |lines|
  {
    match ParseLine(lines[i])
    case KeyValue(k, v) =>
      (match Val(data, Norm(ReadFrom(START, lines[..i]).section), Norm(k))
       case Some(dv) => KeptOrRewritten(lines[i], v, dv, pretty)
       case None => lines[i])
    case _ => lines[i]
  }

  ghost predicate SameSoFar(lines: seq<string>, data: Ini, out: seq<string>, n: nat, pretty: bool)
    requires n <= |lines|
  {
    |out| == n && forall i :: 0 <= i < n ==> out[i] == Settled(lines, data, i, pretty)
  }

  /** Pass and reader after `n` lines. */
  ghost predicate Unmoved(p: Pass, lines: seq<string>, data: Ini, n: nat, pretty: bool)
    requires n <= |lines|
  {
    && p.section == ReadFrom(START, lines[..n]).section && !p.skipping && !p.discard
    && SameSoFar(lines, data, p.head + p.tail, n, pretty)
  }

  lemma SameMore(lines: seq<string>, data: Ini, out: seq<string>, n: nat, pretty: bool)
    requires n < |lines| && SameSoFar(lines, data, out, n, pretty)
    ensures SameSoFar(lines, data, out + [Settled(lines, data, n, pretty)], n + 1, pretty)
  {
    hide Settled;
  }

  /** The value a key line ends up with. */
  lemma FinalValue(lines: seq<string>, n: nat)
    requires n < |lines| && ParseLine(lines[n]).KeyValue? && KeepLine(ReadFrom(START, lines[..n]), lines[n])
    ensures Val(Read(lines), Norm(ReadFrom(START, lines[..n]).section), Norm(ParseLine(lines[n]).key)).Some?
  {
    var st, k := ReadFrom(START, lines[..n]), ParseLine(lines[n]).key;
    ReadUpTo(START, lines, n);
    StoreSeen(st.data, st.section, k, ParseLine(lines[n]).value, Norm(st.section), Norm(k));
    PrefixWithin(lines, n + 1, Norm(st.section), Norm(k));
    hide ParseLine, ReadFrom, Store, Norm, Val, Has;
  }

  lemma FinalSection(lines: seq<string>, n: nat)
    requires n < |lines| && ParseLine(lines[n]).Section?
    ensures Has(Read(lines), Norm(ParseLine(lines[n]).name))
  {
    var st, name := ReadFrom(START, lines[..n]), ParseLine(lines[n]).name;
    ReadUpTo(START, lines, n);
    TouchSeen(st.data, name, Norm(name), "");
    PrefixHas(lines, n + 1, Norm(name));
    hide ParseLine, ReadFrom, Touch, Norm, Has;
  }

  lemma FlushUnmoved(p: Pass, data: Ini, original: Ini, pretty: bool)
    requires Named(data) && SameNames(original, data)
    ensures Flushed(p, data, original, pretty) == p.(parsing := false)
  {
    NoNewKeys(p.section, data, original, pretty);
    hide Named, SameNames, NewKeys;
    SeqEmpty(p.head);
  }

  lemma StepUnmoved(p: Pass, lines: seq<string>, data: Ini, n: nat, pretty: bool)
    requires n < |lines| && Unmoved(p, lines, data, n, pretty) && KeepLine(ReadFrom(START, lines[..n]), lines[n])
    requires Named(data) && SameNames(Read(lines), data)
    ensures Unmoved(LazyStep(p, lines[n], data, Read(lines), pretty), lines, data, n + 1, pretty)
  {
    hide ReadFrom, Norm, Has, Val, ParseLine, KeptOrRewritten, Store, Touch, SameSoFar, Read, Flushed, Named;
    var line := lines[n];
    ReadUpTo(START, lines, n);
    SameMore(lines, data, p.head + p.tail, n, pretty);
    match ParseLine(line)
    case Section(name) =>
      FlushUnmoved(p, data, Read(lines), pretty);
      FinalSection(lines, n);
      SeqEmpty(p.head + p.tail + [line]);
    case KeyValue(k, v) =>
      FinalValue(lines, n);
      SeqEmpty(p.head + p.tail + [Settled(lines, data, n, pretty)]);
    case _ =>
      SeqAssoc(p.head, p.tail, [line]);
  }

  lemma {:induction false} PassUnmoved(lines: seq<string>, data: Ini, n: nat, pretty: bool)
    requires n <= |lines| && AllKept(lines) && Named(data) && SameNames(Read(lines), data)
    ensures Unmoved(LazyPass(lines[..n], data, Read(lines), pretty), lines, data, n, pretty)
    decreases n
  {
    hide ReadFrom, LazyStep, Read, KeepLine, Settled, Named, SameNames;
    if n == 0 {
      assert lines[..0] == [];
      ReadNothing();
    } else {
      PassUnmoved(lines, data, n - 1, pretty);
      assert lines[..n][..n - 1] == lines[..n - 1] && lines[..n][n - 1] == lines[n - 1];
      hide Unmoved;
      StepUnmoved(LazyPass(lines[..n - 1], data, Read(lines), pretty), lines, data, n - 1, pretty);
    }
  }

  /** The output, line by line, of a write of the names that the file has. */
  lemma SettledOutput(lines: seq<string>, data: Ini, pretty: bool)
    requires AllKept(lines) && Named(data) && SameNames(Read(lines), data)
    ensures var out := LazyOutput(lines, data, Read(lines), pretty);
            |out| == |lines| && forall i :: 0 <= i < |lines| ==> out[i] == Settled(lines, data, i, pretty)
  {
    forall i | 0 <= i < |data| ensures Has(Read(lines), Norm(data[i].0)) {
      NormFixed(data[i].0);
      Present(data, i);
    }
    hide Settled, ReadFrom, Has, Norm, Read, LazyPass, AllKept, Flushed, Named, SameNames;
    NoNewSections(Edited(lines, data, Read(lines), pretty), data, Read(lines), pretty);
    PassUnmoved(lines, data, |lines|, pretty);
    assert lines[..|lines|] == lines;
    FlushUnmoved(LazyPass(lines, data, Read(lines), pretty), data, Read(lines), pretty);
  }
}

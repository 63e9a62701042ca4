/** Writing an unmodified structure back over the file it was read from. */
module IniUnchanged {
  import opened Options
  import opened IniText
  import opened IniParser
  import opened IniMap
  import opened IniFile
  import opened IniRewrite
  import opened IniLazy
  import opened IniLazyProof
  import opened IniSettled

  // ---------------------------------------------------------------- what the reader stores

  ghost predicate StoredTable(t: Table<string>) {
    forall i :: 0 <= i < |t| ==> IsNorm(t[i].0) && Trimmed(t[i].1)
  }

  /** Filed names and trimmed values. */
  ghost predicate Stored(d: Ini) {
    forall i :: 0 <= i < |d| ==> IsNorm(d[i].0) && StoredTable(d[i].1)
  }

  lemma NormIsNorm(k: string)
    ensures IsNorm(Norm(k))
  {
    NormIdempotent(k);
  }

  lemma PutStored(t: Table<string>, k: string, v: string)
    requires StoredTable(t) && Trimmed(v)
    ensures StoredTable(Put(t, Norm(k), v))
  {
    NormIsNorm(k);
    hide Norm, Where, Trimmed, IsNorm;
  }

  lemma InnerStored(d: Ini, s: string)
    requires Stored(d)
    ensures StoredTable(InnerOf(d, s))
  {
    hide IsNorm, Trimmed, Where;
  }

  lemma StoreStored(d: Ini, section: string, key: string, v: string)
    requires Stored(d) && Trimmed(v)
    ensures Stored(Store(d, section, key, v))
  {
    NormIsNorm(section);
    InnerStored(d, Norm(section));
    PutStored(InnerOf(d, Norm(section)), key, v);
    hide Norm, Where, Trimmed, IsNorm, StoredTable, InnerOf;
  }

  lemma TouchStored(d: Ini, name: string)
    requires Stored(d)
    ensures Stored(Touch(d, name))
  {
    NormIsNorm(name);
    hide Norm, Where, IsNorm;
  }

  lemma {:induction false} ReadStored(st: Reading, lines: seq<string>)
    requires Stored(st.data)
    ensures Stored(ReadFrom(st, lines).data)
    decreases lines
  {
    if lines != [] {
      var line := lines[0];
      ParsedTrimmed(line);
      hide ParseLine, Touch, Store, Stored, Trimmed;
      match ParseLine(line) {
        case Section(n) => TouchStored(st.data, n);
        case KeyValue(k, v) => StoreStored(st.data, st.section, k, v);
        case _ =>
      }
      ReadStored(ReadStep(st, line), lines[1..]);
    }
  }

  lemma StoredRead(lines: seq<string>)
    ensures Stored(Read(lines))
  {
    ReadStored(START, lines);
  }

  lemma StoredNamed(d: Ini)
    requires Stored(d)
    ensures Named(d)
  {
    hide IsNorm, Trimmed;
  }

  /** The output of an unmodified write. */
  lemma UnmodifiedOutput(lines: seq<string>, pretty: bool)
    requires AllKept(lines)
    ensures var out, d := LazyOutput(lines, Read(lines), Read(lines), pretty), Read(lines);
            |out| == |lines| && forall i :: 0 <= i < |lines| ==> out[i] == Settled(lines, d, i, pretty)
  {
    StoredRead(lines);
    hide Stored, Settled, Read, LazyOutput, Named, AllKept;
    StoredNamed(Read(lines));
    SettledOutput(lines, Read(lines), pretty);
  }

  // ---------------------------------------------------------------- when the file stays as it is

  /** No key line that starts like a section, and no value that starts with `\=`. */
  ghost predicate Ordinary(lines: seq<string>) {
    forall i :: 0 <= i < |lines| && ParseLine(lines[i]).KeyValue?
                ==> Trim(lines[i])[0] != '[' && !StartsEscaped(ParseLine(lines[i]).value)
  }

  /** Section and key that line `i` gives a value. */
  ghost function Place(lines: seq<string>, i: nat): (string, string)
    requires i < |lines| && ParseLine(lines[i]).KeyValue?
  {
    (Norm(ReadFrom(START, lines[..i]).section), Norm(ParseLine(lines[i]).key))
  }

  /** No two lines give the same key of the same section different values. */
  ghost predicate Agreeing(lines: seq<string>) {
    forall i, j :: 0 <= i < |lines| && 0 <= j < |lines| && SamePlace(lines, i, j)
                   ==> ParseLine(lines[i]).value == ParseLine(lines[j]).value
  }

  ghost predicate SamePlace(lines: seq<string>, i: nat, j: nat)
    requires i < |lines| && j < |lines|
  {
    ParseLine(lines[i]).KeyValue? && ParseLine(lines[j]).KeyValue? && Place(lines, i) == Place(lines, j)
  }

  /** Line `i` carries the value that its key ends up with. */
  ghost predicate Current(lines: seq<string>, i: nat)
    requires i < |lines| && ParseLine(lines[i]).KeyValue?
  {
    Val(Read(lines), Place(lines, i).0, Place(lines, i).1) == Some(ParseLine(lines[i]).value)
  }

  /** Every value was read from some line. */
  lemma {:induction false} ValueFrom(lines: seq<string>, n: nat, s: string, k: string) returns (j: nat)
    requires n <= |lines| && Val(ReadFrom(START, lines[..n]).data, s, k).Some?
    ensures j < n && ParseLine(lines[j]).KeyValue? && Place(lines, j) == (s, k)
    ensures Val(ReadFrom(START, lines[..n]).data, s, k) == Some(ParseLine(lines[j]).value)
    decreases n
  {
    hide ParseLine, Norm, Has, Store, Touch;
    assert lines[..0] == [];
    if n == 0 {
      assert false;
    } else {
      var st := ReadFrom(START, lines[..n - 1]);
      ReadUpTo(START, lines, n - 1);
      hide ReadFrom, Val;
      j := n - 1;
      match ParseLine(lines[n - 1]) {
        case Section(name) =>
          TouchSeen(st.data, name, s, k);
          j := ValueFrom(lines, n - 1, s, k);
        case KeyValue(key, v) =>
          StoreSeen(st.data, st.section, key, v, s, k);
          if !(st.inSection && s == Norm(st.section) && k == Norm(key)) {
            j := ValueFrom(lines, n - 1, s, k);
          }
        case _ =>
          j := ValueFrom(lines, n - 1, s, k);
      }
    }
  }

  lemma AgreeingCurrent(lines: seq<string>, i: nat)
    requires i < |lines| && AllKept(lines) && Agreeing(lines) && ParseLine(lines[i]).KeyValue?
    ensures Current(lines, i)
  {
    FinalValue(lines, i);
    hide ParseLine, Norm, ReadFrom, Val, KeepLine, AllKept;
    assert lines[..|lines|] == lines;
    var j := ValueFrom(lines, |lines|, Place(lines, i).0, Place(lines, i).1);
    hide Place;
    assert SamePlace(lines, i, j);
  }

  lemma CurrentStays(lines: seq<string>, i: nat, pretty: bool)
    requires i < |lines| && ParseLine(lines[i]).KeyValue? && Current(lines, i)
    ensures Settled(lines, Read(lines), i, pretty) == lines[i]
  {
    hide ParseLine, ReadFrom, Val, Norm, RewriteLine;
  }

  /** An unmodified write leaves a file as it is when no two lines give the same key
      different values. */
  lemma UnchangedIf(lines: seq<string>, pretty: bool)
    requires AllKept(lines) && Agreeing(lines)
    ensures LazyOutput(lines, Read(lines), Read(lines), pretty) == lines
  {
    UnmodifiedOutput(lines, pretty);
    var out := LazyOutput(lines, Read(lines), Read(lines), pretty);
    hide ReadFrom, Val, Read, LazyOutput, KeptOrRewritten, Place, Norm, Current, Agreeing, AllKept;
    forall i | 0 <= i < |lines| ensures out[i] == lines[i] {
      if ParseLine(lines[i]).KeyValue? {
        AgreeingCurrent(lines, i);
        CurrentStays(lines, i, pretty);
      }
    }
  }

  lemma ValTrimmed(d: Ini, s: string, k: string)
    requires Stored(d) && Val(d, s, k).Some?
    ensures Trimmed(Val(d, s, k).value)
  {
    InnerStored(d, s);
    hide Stored, Trimmed, InnerOf, IsNorm;
  }

  /** Line `i` carries the value that its key ends up with, or an edit would put back what it
      replaces. */
  ghost predicate Stays(lines: seq<string>, i: nat, pretty: bool)
    requires i < |lines| && ParseLine(lines[i]).KeyValue?
  {
    var r := Replaced(lines[i]);
    Current(lines, i)
    || (Val(Read(lines), Place(lines, i).0, Place(lines, i).1) == Some(r) && (pretty && Glued(lines[i]) ==> r == []))
  }

  ghost predicate AllStay(lines: seq<string>, pretty: bool) {
    forall i :: 0 <= i < |lines| && ParseLine(lines[i]).KeyValue? ==> Stays(lines, i, pretty)
  }

  lemma StaysExactly(lines: seq<string>, i: nat, pretty: bool)
    requires i < |lines| && AllKept(lines) && ParseLine(lines[i]).KeyValue?
    ensures Settled(lines, Read(lines), i, pretty) == lines[i] <==> Stays(lines, i, pretty)
  {
    var s, k := Place(lines, i).0, Place(lines, i).1;
    FinalValue(lines, i);
    hide ParseLine, Norm, ReadFrom, Val, RewriteLine, Trim, Trimmed, Stored, AllKept, Read, Replaced, Glued;
    StoredRead(lines);
    ValTrimmed(Read(lines), s, k);
    var dv := Val(Read(lines), s, k).value;
    RewriteSame(lines[i], dv, pretty);
    TrimFixed(dv);
  }

  /** An unmodified write leaves a file as it is exactly when every key line stays. */
  lemma UnchangedExactly(lines: seq<string>, pretty: bool)
    requires AllKept(lines)
    ensures LazyOutput(lines, Read(lines), Read(lines), pretty) == lines <==> AllStay(lines, pretty)
  {
    UnmodifiedOutput(lines, pretty);
    var out := LazyOutput(lines, Read(lines), Read(lines), pretty);
    hide ReadFrom, Val, Read, LazyOutput, KeptOrRewritten, Place, Norm, Stays, AllKept;
    forall i | 0 <= i < |lines| && ParseLine(lines[i]).KeyValue?
      ensures out[i] == lines[i] <==> Stays(lines, i, pretty)
    {
      StaysExactly(lines, i, pretty);
    }
  }

  /** Reading a file and writing it back leaves its lines as they are exactly when the reader
      knows them all and every key line stays. */
  lemma UnchangedFile(fileLines: seq<string>, pretty: bool)
    ensures LazyOutput(KeptFrom(START, fileLines), Read(fileLines), Read(fileLines), pretty) == fileLines
            <==> AllKept(fileLines) && AllStay(fileLines, pretty)
  {
    var kept := KeptFrom(START, fileLines);
    KeptIsKept(fileLines);
    UnmodifiedOutput(kept, pretty);
    KeptLength(fileLines, |fileLines|);
    assert fileLines[..|fileLines|] == fileLines;
    hide ReadFrom, Read, LazyOutput, AllStay, KeepLine, KeptFrom, Settled;
    if AllKept(fileLines) {
      UnchangedExactly(fileLines, pretty);
    }
  }

  lemma SettledSame(lines: seq<string>, i: nat, pretty: bool)
    requires i < |lines| && AllKept(lines) && Ordinary(lines) && ParseLine(lines[i]).KeyValue?
    ensures Settled(lines, Read(lines), i, pretty) == lines[i] <==> Current(lines, i)
  {
    var v := ParseLine(lines[i]).value;
    var s, k := Place(lines, i).0, Place(lines, i).1;
    assert Trim(lines[i])[0] != '[' && !StartsEscaped(v);
    FinalValue(lines, i);
    hide ParseLine, Norm, ReadFrom, Val, RewriteLine, Trim, Trimmed, Stored, StartsEscaped, Ordinary, AllKept, Read;
    StoredRead(lines);
    ValTrimmed(Read(lines), s, k);
    var dv := Val(Read(lines), s, k).value;
    RewrittenLine(lines[i], dv, pretty);
    TrimFixed(dv);
  }

  /** An unmodified write leaves ordinary lines as they are exactly when no two of them
      give the same key different values. */
  lemma UnchangedOrdinary(lines: seq<string>, pretty: bool)
    requires AllKept(lines) && Ordinary(lines)
    ensures LazyOutput(lines, Read(lines), Read(lines), pretty) == lines <==> Agreeing(lines)
  {
    UnmodifiedOutput(lines, pretty);
    var out := LazyOutput(lines, Read(lines), Read(lines), pretty);
    hide ReadFrom, Val, Read, LazyOutput, KeptOrRewritten, Ordinary, Place, Norm;
    forall i | 0 <= i < |lines| && ParseLine(lines[i]).KeyValue?
      ensures out[i] == lines[i] <==> Current(lines, i)
    {
      SettledSame(lines, i, pretty);
    }
    if Agreeing(lines) {
      UnchangedIf(lines, pretty);
    }
  }

  // ---------------------------------------------------------------- a file that changes

  predicate StartsLikeKey(line: string) {
    Trim(line) != [] && Trim(line)[0] == 'k'
  }

  lemma DigitLine(v: char)
    requires '0' <= v <= '9'
    ensures ParseLine("k=" + [v]) == KeyValue("k", [v]) && StartsLikeKey("k=" + [v])
  {
    LetterLine('k', v);
    assert "k=" + [v] == ['k', '=', v];
    TrimFixed("k=" + [v]);
  }

  lemma TwiceRead(a: string, b: string, c: string)
    requires ParseLine(a) == Section("s") && ParseLine(b) == KeyValue("k", "1")
    ensures ReadFrom(START, [a, b, c][..0]) == START
    ensures ReadFrom(START, [a, b, c][..1]).section == ReadFrom(START, [a, b, c][..2]).section == "s"
    ensures ReadFrom(START, [a, b, c][..1]).inSection && ReadFrom(START, [a, b, c][..2]).inSection
  {
    hide ParseLine, Touch, Store, ReadFrom;
    var t := [a, b, c];
    ReadUpTo(START, t, 0);
    ReadUpTo(START, t, 1);
    ReadNothing();
    assert t[..0] == [];
  }

  /** Two lines for the same key, with different values. */
  lemma TwiceChanges(a: string, b: string, c: string, pretty: bool)
    requires ParseLine(a) == Section("s") && ParseLine(b) == KeyValue("k", "1") && ParseLine(c) == KeyValue("k", "2")
    requires StartsLikeKey(b) && StartsLikeKey(c)
    ensures AllKept([a, b, c]) && LazyOutput([a, b, c], Read([a, b, c]), Read([a, b, c]), pretty) != [a, b, c]
  {
    hide ParseLine, ReadFrom, Norm, Trim, LazyOutput, Read;
    var t := [a, b, c];
    TwiceRead(a, b, c);
    assert AllKept(t);
    assert SamePlace(t, 1, 2);
    assert !Agreeing(t);
    assert Ordinary(t);
    hide AllKept, Agreeing, Ordinary;
    UnchangedOrdinary(t, pretty);
  }

  lemma HeaderS()
    ensures ParseLine("[s]") == Section("s")
  {
    LetterSection('s');
  }

  /** The first of two lines for a key is rewritten although nothing was modified. */
  lemma OutdatedLineChanges(pretty: bool)
    ensures var lines := ["[s]", "k=" + "1", "k=" + "2"];
            AllKept(lines) && LazyOutput(lines, Read(lines), Read(lines), pretty) != lines
  {
    hide ParseLine, AllKept, LazyOutput, Read, StartsLikeKey;
    HeaderS();
    DigitLine('1');
    DigitLine('2');
    TwiceChanges("[s]", "k=" + "1", "k=" + "2", pretty);
  }
}

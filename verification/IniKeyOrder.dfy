/** The order of the keys of one section after a lazy write. */
module IniKeyOrder {
  import opened Options
  import opened IniText
  import opened IniParser
  import opened IniMap
  import opened IniFile
  import opened IniLazy
  import opened IniLazyProof
  import opened IniOrder

  /** The keys of a section, in order. */
  function Keys(d: Ini, s: string): seq<string> {
    KeysOf(InnerOf(d, s))
  }

  /** The keys of the data that the original section lacks. */
  function Fresh(data: Ini, original: Ini, s: string): seq<string> {
    Only(Keys(data, s), NotIn(InnerOf(original, s)))
  }

  /** The known keys that the data has, with the new ones behind the first `cut` known ones,
      or nowhere yet. */
  function Arranged(known: seq<string>, cut: Option<nat>, data: Ini, original: Ini, s: string): seq<string>
    requires cut.Some? ==> cut.value <= |known|
  {
    var p := In(InnerOf(data, s));
    match cut
    case None => Only(known, p)
    case Some(n) => Only(known[..n], p) + Fresh(data, original, s) + Only(known[n..], p)
  }

  lemma ArrangedIn(known: seq<string>, cut: Option<nat>, data: Ini, original: Ini, s: string, k: string)
    requires cut.Some? ==> cut.value <= |known|
    ensures k in Arranged(known, cut, data, original, s)
            <==> Has(InnerOf(data, s), k) && (k in known || (cut.Some? && !Has(InnerOf(original, s), k)))
  {
    hide Only, Has, InnerOf, KeysOf;
    var p := In(InnerOf(data, s));
    if cut.None? {
      OnlyIn(known, p, k);
    } else {
      var n := cut.value;
      assert known == known[..n] + known[n..];
      OnlyIn(known[..n], p, k);
      OnlyIn(known[n..], p, k);
      OnlyIn(Keys(data, s), NotIn(InnerOf(original, s)), k);
      KeysHas(InnerOf(data, s), k);
    }
  }

  /** A new known key goes to the end. */
  lemma ArrangedMore(known: seq<string>, cut: Option<nat>, data: Ini, original: Ini, s: string, k: string)
    requires cut.Some? ==> cut.value <= |known|
    ensures Arranged(known + [k], cut, data, original, s)
            == Arranged(known, cut, data, original, s) + if Has(InnerOf(data, s), k) then [k] else []
  {
    hide Only, Has, InnerOf, KeysOf, Fresh;
    var p := In(InnerOf(data, s));
    OnlyOne(k, p);
    if cut.None? {
      OnlyConcat(known, [k], p);
    } else {
      var n := cut.value;
      assert (known + [k])[..n] == known[..n] && (known + [k])[n..] == known[n..] + [k];
      OnlyConcat(known[n..], [k], p);
      SeqAssoc(Only(known[..n], p) + Fresh(data, original, s), Only(known[n..], p), Only([k], p));
    }
  }

  /** Closing a section puts the new keys behind what is known. */
  lemma ArrangedClose(known: seq<string>, data: Ini, original: Ini, s: string)
    ensures Arranged(known, Some(|known|), data, original, s)
            == Arranged(known, None, data, original, s) + Fresh(data, original, s)
  {
    hide InnerOf, Fresh;
    assert known[..|known|] == known && known[|known|..] == [];
    SeqEmpty(Only(known, In(InnerOf(data, s))) + Fresh(data, original, s));
  }

  // ---------------------------------------------------------------- what a key line does

  /** A name behind the others unless it is there. */
  function Noted(keys: seq<string>, k: string): seq<string> {
    if k in keys then keys else keys + [k]
  }

  function NotedAll(keys: seq<string>, more: seq<string>): seq<string>
    decreases more
  {
    if more == [] then keys else NotedAll(Noted(keys, more[0]), more[1..])
  }

  lemma {:induction false} NotedOld(keys: seq<string>, more: seq<string>)
    requires forall i :: 0 <= i < |more| ==> more[i] in keys
    ensures NotedAll(keys, more) == keys
    decreases more
  {
    if more != [] {
      NotedOld(keys, more[1..]);
    }
  }

  lemma {:induction false} NotedNew(keys: seq<string>, more: seq<string>)
    requires forall i :: 0 <= i < |more| ==> more[i] !in keys
    requires forall i, j :: 0 <= i < j < |more| ==> more[i] != more[j]
    ensures NotedAll(keys, more) == keys + more
    decreases more
  {
    if more == [] {
      SeqEmpty(keys);
    } else {
      var next, rest := keys + [more[0]], more[1..];
      forall i | 0 <= i < |rest| ensures rest[i] !in next { assert rest[i] == more[i + 1]; }
      NotedNew(next, rest);
      assert more == [more[0]] + rest;
      SeqAssoc(keys, [more[0]], rest);
    }
  }

  lemma StoreKeys(d: Ini, section: string, key: string, v: string, s: string)
    ensures Keys(Store(d, section, key, v), s)
            == if s == Norm(section) then Noted(Keys(d, s), Norm(key)) else Keys(d, s)
  {
    hide Norm, Put, KeysOf;
    var inner := InnerOf(d, Norm(section));
    LookupPut(d, Norm(section), Put(inner, Norm(key), v), s);
    KeysPut(inner, Norm(key), v);
    KeysHas(inner, Norm(key));
  }

  lemma TouchKeepsKeys(d: Ini, name: string, s: string)
    ensures Keys(Touch(d, name), s) == Keys(d, s)
  {
    hide Norm, KeysOf;
    var e := (Norm(name), []);
    LookupAppend(d, [e], s);
    WhereAppend(d, [e], s);
    WhereFirst(e);
    hide Where;
  }

  lemma LineKeys(st: Reading, line: string, s: string)
    requires st.inSection && ParseLine(line).KeyValue?
    ensures Keys(ReadStep(st, line).data, s)
            == if s == Norm(st.section) then Noted(Keys(st.data, s), Norm(ParseLine(line).key)) else Keys(st.data, s)
  {
    hide ParseLine, Norm, Store, Keys, Noted;
    StoreKeys(st.data, st.section, ParseLine(line).key, ParseLine(line).value, s);
  }

  lemma {:induction false} MissingLineKeys(st: Reading, t: Table<string>, original: Table<string>, pretty: bool,
                                           s: string)
    requires GoodTable(t, pretty) && st.inSection
    ensures var r := ReadFrom(st, MissingLines(t, original, pretty));
            && r.inSection && r.section == st.section
            && Keys(r.data, s)
               == if s == Norm(st.section) then NotedAll(Keys(st.data, s), Only(KeysOf(t), NotIn(original)))
                  else Keys(st.data, s)
    decreases t
  {
    if t != [] {
      var line, rest := KeyText(t[0].0, t[0].1, pretty), MissingLines(t[1..], original, pretty);
      GoodHead(t, pretty);
      assert KeysOf(t)[1..] == KeysOf(t[1..]);
      if Has(original, Norm(t[0].0)) {
        SeqEmpty(rest);
        SeqEmpty(Only(KeysOf(t[1..]), NotIn(original)));
        hide Norm, Has, ReadFrom, MissingLines, Keys, NotedAll;
        MissingLineKeys(st, t[1..], original, pretty, s);
      } else {
        hide Norm, Has, ReadFrom, KeyText, Keys, ParseLine, Noted, Store, Touch;
        ReadConcat(st, [line], rest);
        ReadOne(st, line);
        LineKeys(st, line, s);
        assert Only(KeysOf(t), NotIn(original))[1..] == Only(KeysOf(t[1..]), NotIn(original));
        hide MissingLines;
        MissingLineKeys(ReadStep(st, line), t[1..], original, pretty, s);
      }
    }
  }

  // ---------------------------------------------------------------- invariant of the pass

  /** Once a section has been left, `cut` counts the keys that were known then. */
  ghost predicate CutOk(inp: Reading, cut: Option<nat>, s: string) {
    && (cut.Some? ==> cut.value <= |Keys(inp.data, s)|)
    && (Has(inp.data, s) && cut.None? ==> inp.inSection && Norm(inp.section) == s)
  }

  ghost predicate InOrder(inp: Reading, out: Reading, cut: Option<nat>, data: Ini, original: Ini, s: string) {
    CutOk(inp, cut, s) && Keys(out.data, s) == Arranged(Keys(inp.data, s), cut, data, original, s)
  }

  /** The keys read so far are keys of the original. */
  ghost predicate Known(inp: Reading, original: Ini, s: string) {
    forall k :: k in Keys(inp.data, s) ==> Has(InnerOf(original, s), k)
  }

  lemma {:induction false} OnlyDistinct(keys: seq<string>, p: string -> bool)
    requires forall i, j :: 0 <= i < j < |keys| ==> keys[i] != keys[j]
    ensures forall i, j :: 0 <= i < j < |Only(keys, p)| ==> Only(keys, p)[i] != Only(keys, p)[j]
  {
    if keys != [] {
      var rest := Only(keys[1..], p);
      OnlyDistinct(keys[1..], p);
      OnlyIn(keys[1..], p, keys[0]);
      assert keys[0] !in keys[1..];
      assert Only(keys, p) == rest || Only(keys, p) == [keys[0]] + rest;
    }
  }

  lemma FreshDistinct(data: Ini, original: Ini, s: string, pretty: bool)
    requires GoodIni(data, pretty)
    ensures var f := Fresh(data, original, s); forall i, j :: 0 <= i < j < |f| ==> f[i] != f[j]
  {
    InnerGood(data, s, pretty);
    var t := InnerOf(data, s);
    hide GoodIni, GoodKey, InnerOf, Only;
    forall i, j | 0 <= i < j < |t| ensures KeysOf(t)[i] != KeysOf(t)[j] {
      KeysAt(t, i);
      KeysAt(t, j);
    }
    OnlyDistinct(KeysOf(t), NotIn(InnerOf(original, s)));
  }

  lemma FreshIs(data: Ini, original: Ini, s: string, i: nat)
    requires i < |Fresh(data, original, s)|
    ensures var k := Fresh(data, original, s)[i]; Has(InnerOf(data, s), k) && !Has(InnerOf(original, s), k)
  {
    hide Only, KeysOf, Has, InnerOf;
    var k := Fresh(data, original, s)[i];
    OnlyIn(Keys(data, s), NotIn(InnerOf(original, s)), k);
    KeysHas(InnerOf(data, s), k);
  }

  /** Where the new keys are after the section has been left. */
  function Closed(inp: Reading, cut: Option<nat>, s: string): Option<nat> {
    if cut.Some? then cut else Some(|Keys(inp.data, s)|)
  }

  lemma FreshNoted(inp: Reading, out: Reading, cut: Option<nat>, data: Ini, original: Ini, pretty: bool, s: string)
    requires GoodIni(data, pretty) && InOrder(inp, out, cut, data, original, s) && Known(inp, original, s)
    ensures NotedAll(Keys(out.data, s), Fresh(data, original, s))
            == Arranged(Keys(inp.data, s), Closed(inp, cut, s), data, original, s)
  {
    var f, kin, kout := Fresh(data, original, s), Keys(inp.data, s), Keys(out.data, s);
    FreshDistinct(data, original, s, pretty);
    hide GoodIni, Fresh, Keys, Arranged, NotedAll, Has, InnerOf;
    forall i | 0 <= i < |f| ensures f[i] in kout <==> cut.Some? {
      FreshIs(data, original, s, i);
      ArrangedIn(kin, cut, data, original, s, f[i]);
    }
    if cut.Some? {
      NotedOld(kout, f);
    } else {
      NotedNew(kout, f);
      ArrangedClose(kin, data, original, s);
    }
  }

  /** Leaving the open section. */
  lemma FlushInOrder(section: string, inp: Reading, out: Reading, cut: Option<nat>, data: Ini, original: Ini,
                     pretty: bool, s: string)
    requires GoodIni(data, pretty) && out.inSection && out.section == section
    requires Has(data, Norm(section)) && Has(original, Norm(section))
    requires InOrder(inp, out, cut, data, original, s) && Known(inp, original, s)
    ensures var out' := ReadFrom(out, NewKeys(section, data, original, pretty));
            Keys(out'.data, s)
            == Arranged(Keys(inp.data, s), if Norm(section) == s then Closed(inp, cut, s) else cut, data, original, s)
  {
    var here := Norm(section);
    InnerGood(data, here, pretty);
    hide GoodIni, GoodTable, Norm, Has, InnerOf, ReadFrom, MissingLines, KeysOf, Arranged, NotedAll, Only;
    MissingLineKeys(out, InnerOf(data, here), InnerOf(original, here), pretty, s);
    if here == s {
      FreshNoted(inp, out, cut, data, original, pretty, s);
    }
  }

  /** The cut after one more line. */
  function NextCut(inp: Reading, cut: Option<nat>, line: string, s: string): Option<nat> {
    if ParseLine(line).Section? && inp.inSection && Norm(inp.section) == s then Closed(inp, cut, s) else cut
  }

  lemma SectionCut(inp: Reading, cut: Option<nat>, line: string, s: string)
    requires ParseLine(line).Section? && CutOk(inp, cut, s)
    ensures Keys(ReadStep(inp, line).data, s) == Keys(inp.data, s)
            && CutOk(ReadStep(inp, line), NextCut(inp, cut, line, s), s)
  {
    var n := ParseLine(line).name;
    TouchSeen(inp.data, n, s, "");
    hide ParseLine, Norm, Has, Touch, Keys;
    TouchKeepsKeys(inp.data, n, s);
  }

  ghost predicate Lined(p: Pass, inp: Reading, cut: Option<nat>, data: Ini, original: Ini, s: string) {
    InOrder(inp, ReadFrom(START, p.head), cut, data, original, s)
  }

  /** The section line itself leaves the keys alone. */
  lemma WrittenLined(p: Pass, inp: Reading, cut: Option<nat>, line: string, data: Ini, original: Ini, s: string)
    requires ParseLine(line).Section? && AllInert(p.tail) && CutOk(inp, cut, s)
    requires var c := NextCut(inp, cut, line, s);
             (c.Some? ==> c.value <= |Keys(inp.data, s)|)
             && Keys(ReadFrom(START, p.head).data, s) == Arranged(Keys(inp.data, s), c, data, original, s)
    ensures Lined(AfterSection(p, line, ParseLine(line).name, data), ReadStep(inp, line), NextCut(inp, cut, line, s),
                  data, original, s)
  {
    hide NextCut, AllInert, ReadFrom, Norm, Keys, Arranged, Touch;
    var out, n := ReadFrom(START, p.head), ParseLine(line).name;
    SectionCut(inp, cut, line, s);
    hide Has, ParseLine, CutOk;
    ReadBehind(p.head, p.tail, line);
    TouchKeepsKeys(out.data, n, s);
  }

  lemma SectionLined(p: Pass, inp: Reading, cut: Option<nat>, line: string, data: Ini, original: Ini, pretty: bool,
                     s: string)
    requires GoodIni(data, pretty) && ParseLine(line).Section? && Has(data, s)
    requires Placed(p, inp, ReadFrom(START, p.head), data) && Lined(p, inp, cut, data, original, s)
    requires Known(inp, original, s) && (p.parsing ==> Has(original, Norm(p.section)))
    ensures Lined(LazyStep(p, line, data, original, pretty), ReadStep(inp, line), NextCut(inp, cut, line, s), data,
                  original, s)
  {
    hide GoodIni, ReadFrom, Norm, Has, ReadStep, Keys, Arranged, AfterSection, NewKeys, ParseLine, AllInert, Known;
    if p.parsing {
      var q := Flushed(p, data, original, pretty);
      ReadConcat(START, p.head, NewKeys(p.section, data, original, pretty));
      FlushInOrder(p.section, inp, ReadFrom(START, p.head), cut, data, original, pretty, s);
      WrittenLined(q, inp, cut, line, data, original, s);
    } else {
      WrittenLined(p, inp, cut, line, data, original, s);
    }
  }

  // ---------------------------------------------------------------- key lines

  lemma KeyOutKeys(p: Pass, out: Reading, line: string, data: Ini, pretty: bool, s: string)
    requires GoodIni(data, pretty) && ParseLine(line).KeyValue? && out.inSection && out.section == p.section
    ensures var k := Norm(ParseLine(line).key);
            Keys(KeyOut(p, out, line, data, pretty).data, s)
            == if s == Norm(p.section) && Has(InnerOf(data, s), k) then Noted(Keys(out.data, s), k)
               else Keys(out.data, s)
  {
    var k := Norm(ParseLine(line).key);
    var dv := Val(data, Norm(p.section), k);
    ValHas(data, Norm(p.section), k);
    if dv.Some? {
      PlainKey(data, Norm(p.section), k, pretty);
      EditedKey(line, dv.value, pretty);
      hide GoodIni, ParseLine, Norm, Has, Val, ReadStep, KeptOrRewritten, Keys, Noted, InnerOf;
      LineKeys(out, KeptOrRewritten(line, ParseLine(line).value, dv.value, pretty), s);
    }
  }

  /** One more key of the section on both sides. */
  lemma NotedArranged(known: seq<string>, cut: Option<nat>, data: Ini, original: Ini, s: string, k: string)
    requires (cut.Some? ==> cut.value <= |known|) && Has(InnerOf(original, s), k)
    ensures var kout := Arranged(known, cut, data, original, s);
            Arranged(Noted(known, k), cut, data, original, s)
            == if Has(InnerOf(data, s), k) then Noted(kout, k) else kout
  {
    hide Arranged, Has, InnerOf;
    ArrangedIn(known, cut, data, original, s, k);
    ArrangedMore(known, cut, data, original, s, k);
    SeqEmpty(Arranged(known, cut, data, original, s));
  }

  lemma NotedIn(keys: seq<string>, k: string)
    ensures k in Noted(keys, k) && |keys| <= |Noted(keys, k)|
  {
  }

  lemma KeyInOrder(p: Pass, inp: Reading, out: Reading, cut: Option<nat>, line: string, data: Ini, original: Ini,
                   pretty: bool, s: string)
    requires GoodIni(data, pretty) && ParseLine(line).KeyValue? && p.parsing && Placed(p, inp, out, data)
    requires InOrder(inp, out, cut, data, original, s) && Known(ReadStep(inp, line), original, s)
    ensures InOrder(ReadStep(inp, line), KeyOut(p, out, line, data, pretty), cut, data, original, s)
  {
    hide GoodIni, ParseLine, Norm, Has, ReadStep, KeyOut, Keys, Arranged, Noted, InnerOf, AllInert, Val;
    var k := Norm(ParseLine(line).key);
    ReadKeyLine(inp, line, s, "");
    LineKeys(inp, line, s);
    KeyOutKeys(p, out, line, data, pretty, s);
    if s == Norm(p.section) {
      NotedIn(Keys(inp.data, s), k);
      NotedArranged(Keys(inp.data, s), cut, data, original, s, k);
    }
  }

  lemma KeyLined(p: Pass, inp: Reading, cut: Option<nat>, line: string, data: Ini, original: Ini, pretty: bool,
                 s: string)
    requires GoodIni(data, pretty) && ParseLine(line).KeyValue? && KeepLine(inp, line) && Has(data, s)
    requires Placed(p, inp, ReadFrom(START, p.head), data) && Lined(p, inp, cut, data, original, s)
    requires Known(ReadStep(inp, line), original, s)
    ensures Lined(LazyStep(p, line, data, original, pretty), ReadStep(inp, line), cut, data, original, s)
  {
    hide GoodIni, ParseLine, Norm, Has, ReadStep, Keys, Arranged, AllInert, Val, KeptOrRewritten, ReadFrom, Known;
    var out := ReadFrom(START, p.head);
    if p.skipping {
      ReadKeyLine(inp, line, s, "");
      LineKeys(inp, line, s);
    } else {
      hide InOrder;
      KeyInOrder(p, inp, out, cut, line, data, original, pretty, s);
      var dv := Val(data, Norm(p.section), Norm(ParseLine(line).key));
      if dv.Some? {
        ReadBehind(p.head, p.tail, KeptOrRewritten(line, ParseLine(line).value, dv.value, pretty));
      }
    }
  }

  lemma StepLined(p: Pass, inp: Reading, cut: Option<nat>, line: string, data: Ini, original: Ini, pretty: bool,
                  s: string)
    requires GoodIni(data, pretty) && KeepLine(inp, line) && Has(data, s)
    requires Placed(p, inp, ReadFrom(START, p.head), data) && Lined(p, inp, cut, data, original, s)
    requires Known(inp, original, s) && Known(ReadStep(inp, line), original, s)
    requires p.parsing ==> Has(original, Norm(p.section))
    ensures Lined(LazyStep(p, line, data, original, pretty), ReadStep(inp, line), NextCut(inp, cut, line, s), data,
                  original, s)
  {
    match ParseLine(line)
    case Section(n) =>
      hide GoodIni, ParseLine, LazyStep, ReadStep, Norm, Has, Placed, Lined, Known;
      SectionLined(p, inp, cut, line, data, original, pretty, s);
    case KeyValue(k, v) =>
      hide GoodIni, ParseLine, LazyStep, ReadStep, Norm, Has, Placed, Lined, Known;
      KeyLined(p, inp, cut, line, data, original, pretty, s);
    case _ =>
      hide GoodIni, ParseLine, ReadFrom, Norm, Keys, Arranged, AllInert, Has;
  }

  // ---------------------------------------------------------------- all lines

  /** How many keys of `s` were known when its first stretch of lines ended, if it has. */
  ghost function Cut(lines: seq<string>, i: nat, s: string): Option<nat>
    requires i <= |lines|
  {
    if i == 0 then None else NextCut(ReadFrom(START, lines[..i - 1]), Cut(lines, i - 1, s), lines[i - 1], s)
  }

  lemma PrefixKnown(lines: seq<string>, i: nat, s: string)
    requires i <= |lines|
    ensures Known(ReadFrom(START, lines[..i]), Read(lines), s)
  {
    hide ReadFrom, Read, Has, InnerOf, KeysOf;
    var inp := ReadFrom(START, lines[..i]);
    forall k | k in Keys(inp.data, s) ensures Has(InnerOf(Read(lines), s), k) {
      PrefixWithin(lines, i, s, k);
      KeysHas(InnerOf(inp.data, s), k);
      ValHas(inp.data, s, k);
      ValHas(Read(lines), s, k);
    }
  }

  lemma StartLined(data: Ini, original: Ini, s: string)
    ensures Lined(BEGIN, ReadFrom(START, []), None, data, original, s)
  {
    assert ReadFrom(START, []) == START;
  }

  lemma {:induction false} PassLined(lines: seq<string>, i: nat, data: Ini, pretty: bool, s: string)
    requires GoodIni(data, pretty) && AllKept(lines) && i <= |lines| && Has(data, s)
    ensures Lined(LazyPass(lines[..i], data, Read(lines), pretty), ReadFrom(START, lines[..i]), Cut(lines, i, s),
                  data, Read(lines), s)
    decreases i
  {
    hide GoodIni, Lined, ReadStep, LazyStep, Norm, Read, ReadFrom, KeepLine, Placed, Known, NextCut, Has;
    if i == 0 {
      assert lines[..0] == [];
      StartLined(data, Read(lines), s);
    } else {
      var p, inp := LazyPass(lines[..i - 1], data, Read(lines), pretty), ReadFrom(START, lines[..i - 1]);
      PassLined(lines, i - 1, data, pretty, s);
      PassPlaced(lines, i - 1, data, pretty);
      PrefixKnown(lines, i - 1, s);
      PrefixKnown(lines, i, s);
      OpenSection(lines, i - 1, p, data);
      assert lines[..i][..i - 1] == lines[..i - 1] && lines[..i][i - 1] == lines[i - 1];
      ReadUpTo(START, lines, i - 1);
      StepLined(p, inp, Cut(lines, i - 1, s), lines[i - 1], data, Read(lines), pretty, s);
    }
  }

  /** How many keys of `s` the file gives in its first stretch. */
  ghost function FirstStretch(lines: seq<string>, s: string): (n: nat)
  {
    var c := Cut(lines, |lines|, s);
    if c.Some? then c.value else |Keys(Read(lines), s)|
  }

  /** The flush at the end closes the section that is still open. */
  lemma EndKeys(p: Pass, inp: Reading, cut: Option<nat>, data: Ini, pretty: bool, s: string)
    requires GoodIni(data, pretty) && Has(data, s) && Has(inp.data, s)
    requires Placed(p, inp, ReadFrom(START, p.head), data) && Lined(p, inp, cut, data, inp.data, s)
    requires Known(inp, inp.data, s) && (p.parsing ==> Has(inp.data, Norm(p.section)))
    ensures var q := Flushed(p, data, inp.data, pretty);
            && CutOk(inp, Closed(inp, cut, s), s)
            && Keys(ReadFrom(START, q.head).data, s)
              == Arranged(Keys(inp.data, s), Closed(inp, cut, s), data, inp.data, s)
  {
    hide GoodIni, ReadFrom, Norm, Keys, Arranged, AllInert, Known, MissingLines;
    var out := ReadFrom(START, p.head);
    ReadConcat(START, p.head, NewKeys(p.section, data, inp.data, pretty));
    if p.parsing {
      hide Has, NewKeys;
      FlushInOrder(p.section, inp, out, cut, data, inp.data, pretty, s);
    } else {
      assert NewKeys(p.section, data, inp.data, pretty) == [];
      SeqEmpty(p.head);
    }
  }

  lemma EditedKeys(lines: seq<string>, data: Ini, pretty: bool, s: string)
    requires GoodIni(data, pretty) && AllKept(lines) && Has(data, s) && Has(Read(lines), s)
    ensures FirstStretch(lines, s) <= |Keys(Read(lines), s)|
    ensures Keys(Read(Edited(lines, data, Read(lines), pretty)), s)
            == Arranged(Keys(Read(lines), s), Some(FirstStretch(lines, s)), data, Read(lines), s)
  {
    var original, inp := Read(lines), ReadFrom(START, lines);
    assert lines != [];
    hide GoodIni, ReadFrom, Placed, LazyPass, Flushed, AllKept, Keys, Arranged, AllInert, Lined, Known, Has, Norm, Cut;
    PassLined(lines, |lines|, data, pretty, s);
    PassPlaced(lines, |lines|, data, pretty);
    PrefixKnown(lines, |lines|, s);
    assert lines[..|lines|] == lines;
    var p := LazyPass(lines, data, original, pretty);
    OpenSection(lines, |lines|, p, data);
    EndKeys(p, inp, Cut(lines, |lines|, s), data, pretty, s);
    var q := Flushed(p, data, original, pretty);
    assert AllInert(q.tail) by { FlushTail(p, inp, data, original, pretty); }
    ReadConcat(START, q.head, q.tail);
    ReadInert(ReadFrom(START, q.head), q.tail);
  }

  // ---------------------------------------------------------------- new sections

  lemma {:induction false} TrimKeys(t: Table<string>)
    ensures KeysOf(TrimTable(t)) == KeysOf(t)
  {
    if t != [] {
      TrimKeys(t[1..]);
      assert TrimTable(t)[1..] == TrimTable(t[1..]);
      hide Trim;
    }
  }

  lemma AppendedKeys(d: Ini, name: string, t: Table<string>, s: string)
    requires Where(d, name).None?
    ensures Keys(d + [(name, TrimTable(t))], s) == if s == name then KeysOf(t) else Keys(d, s)
  {
    TrimKeys(t);
    var e := (name, TrimTable(t));
    LookupAppend(d, [e], s);
    WhereFirst(e);
    hide TrimTable, KeysOf;
  }

  lemma DataKeys(data: Ini, s: string)
    requires data != [] && Where(data[1..], data[0].0).None?
    ensures Keys(data, s) == if s == data[0].0 then KeysOf(data[0].1) else Keys(data[1..], s)
  {
    hide KeysOf;
  }

  lemma {:induction false} NewSectionsKeys(out: seq<string>, data: Ini, original: Ini, pretty: bool, s: string)
    requires GoodIni(data, pretty) && Unwritten(Read(out), data, original)
    ensures Keys(Read(WithNewSections(out, data, original, pretty)), s)
            == if Has(data, s) && !Has(original, s) then Keys(data, s) else Keys(Read(out), s)
    decreases |data|
  {
    if data != [] {
      var name, t, rest := data[0].0, data[0].1, data[1..];
      GoodFirst(data, pretty);
      DataStep(data, s, "");
      DataKeys(data, s);
      if Has(original, Norm(name)) {
        hide Norm, GoodIni, Read, Has, Where, GoodTable, GoodSection, IsNorm, Keys;
        UnwrittenRest(Read(out), data, original);
        NewSectionsKeys(out, rest, original, pretty, s);
      } else {
        var out' := out + Spacer(out, pretty) + SectionLines(name, t, pretty);
        hide Norm, GoodIni, Read, Has, Where, GoodTable, GoodSection, IsNorm, SectionLines, Spacer, TrimTable, Keys;
        AppendedRead(out, name, t, pretty);
        UnwrittenMore(Read(out), data, original, TrimTable(t));
        NewSectionsKeys(out', rest, original, pretty, s);
        AppendedKeys(Read(out), name, t, s);
      }
    }
  }

  // ---------------------------------------------------------------- the law

  /** The keys of a section after a lazy write: in a section of the file, the keys of its
      first stretch of lines that the data has, then the new ones in the order of the data,
      then those that the file gives later; in a new section, the order of the data. */
  lemma KeyOrder(fileLines: seq<string>, data: Ini, pretty: bool, s: string)
    requires GoodIni(data, pretty) && Has(data, s)
    ensures var kept, original := KeptFrom(START, fileLines), Read(fileLines);
            var out, n := Read(LazyOutput(kept, data, original, pretty)), FirstStretch(kept, s);
            && (Has(original, s) ==> n <= |Keys(original, s)|)
            && Keys(out, s)
               == if Has(original, s) then Arranged(Keys(original, s), Some(n), data, original, s) else Keys(data, s)
  {
    var kept := KeptFrom(START, fileLines);
    KeptIsKept(fileLines);
    hide GoodIni, AllKept, Read, Edited, KeptFrom, Keys, Unwritten, WithNewSections, Arranged, FirstStretch, Has;
    if Has(Read(fileLines), s) { EditedKeys(kept, data, pretty, s); }
    EditedUnwritten(kept, data, pretty);
    NewSectionsKeys(Edited(kept, data, Read(fileLines), pretty), data, Read(fileLines), pretty, s);
  }

  lemma Swapped(a: seq<string>, x: seq<string>, y: seq<string>)
    requires forall i, j :: 0 <= i < |x| && 0 <= j < |y| ==> x[i] != y[j]
    ensures a + x + y == a + y + x <==> x == [] || y == []
  {
    if x != [] && y != [] {
      assert (a + x + y)[|a|] == x[0] && (a + y + x)[|a|] == y[0];
    } else {
      SeqEmpty(a + x + y);
      assert x == [] ==> a + x + y == a + y + x;
      assert y == [] ==> a + x + y == a + y + x;
    }
  }

  lemma ArrangedAtEnd(known: seq<string>, n: nat, data: Ini, original: Ini, s: string)
    requires n <= |known| && forall k :: k in known ==> Has(InnerOf(original, s), k)
    ensures var p := In(InnerOf(data, s));
            Arranged(known, Some(n), data, original, s) == Only(known, p) + Fresh(data, original, s)
            <==> Fresh(data, original, s) == [] || Only(known[n..], p) == []
  {
    hide Only, Fresh, InnerOf, Has;
    var p := In(InnerOf(data, s));
    var f, late := Fresh(data, original, s), Only(known[n..], p);
    assert known == known[..n] + known[n..];
    OnlyConcat(known[..n], known[n..], p);
    forall i, j | 0 <= i < |f| && 0 <= j < |late| ensures f[i] != late[j] {
      FreshIs(data, original, s, i);
      OnlyIn(known[n..], p, late[j]);
      assert late[j] in known[n..];
      assert late[j] in known;
    }
    Swapped(Only(known[..n], p), f, late);
  }

  /** A lazy write puts the new keys of a section behind all keys of the file exactly when
      there are none or the file gives no more keys of the section after its first stretch. */
  lemma KeysAtTheEnd(fileLines: seq<string>, data: Ini, pretty: bool, s: string)
    requires GoodIni(data, pretty) && Has(data, s) && Has(Read(fileLines), s)
    ensures var kept, original, p := KeptFrom(START, fileLines), Read(fileLines), In(InnerOf(data, s));
            var out, n := Read(LazyOutput(kept, data, original, pretty)), FirstStretch(kept, s);
            && n <= |Keys(original, s)|
            && (Keys(out, s) == Only(Keys(original, s), p) + Fresh(data, original, s)
                <==> Fresh(data, original, s) == [] || Only(Keys(original, s)[n..], p) == [])
  {
    hide GoodIni, Read, LazyOutput, KeptFrom, KeysOf, Arranged, FirstStretch, Has, Only, Fresh, InnerOf;
    var original := Read(fileLines);
    KeyOrder(fileLines, data, pretty, s);
    forall k | k in Keys(original, s) ensures Has(InnerOf(original, s), k) { KeysHas(InnerOf(original, s), k); }
    ArrangedAtEnd(Keys(original, s), FirstStretch(KeptFrom(START, fileLines), s), data, original, s);
  }

  // ---------------------------------------------------------------- a key in the middle

  /** Section `s` in two stretches, and data with a third key for it. */
  const SPLIT_FILE: seq<string> := ["[s]", "a=1", "[t]", "[s]", "b=2"]
  const WANTED: Ini := [("s", [("a", "1"), ("b", "2"), ("c", "3")]), ("t", [])]

  lemma SplitParses()
    ensures ParseLine("[s]") == Section("s") && ParseLine("[t]") == Section("t")
    ensures ParseLine("a=1") == KeyValue("a", "1") && ParseLine("b=2") == KeyValue("b", "2")
  {
    hide ParseLine;
    LetterSection('s');
    LetterSection('t');
    LetterLine('a', '1');
    LetterLine('b', '2');
  }

  lemma SplitNames()
    ensures Norm("s") == "s" && Norm("t") == "t" && Norm("a") == "a" && Norm("b") == "b" && Norm("c") == "c"
  {
    hide Norm;
    LetterNorm('s');
    LetterNorm('t');
    LetterNorm('a');
    LetterNorm('b');
    LetterNorm('c');
  }

  lemma WantedGood(pretty: bool)
    ensures GoodIni(WANTED, pretty) && Has(WANTED, "s") && Keys(WANTED, "s") == ["a", "b", "c"]
  {
    SplitNames();
    hide Norm;
    var t := WANTED[0].1;
    assert t[1..] == [("b", "2"), ("c", "3")] && t[1..][1..] == [("c", "3")] && t[1..][1..][1..] == [];
  }

  /** The reader and the cut of section `s` after `i` lines. */
  ghost predicate At(t: seq<string>, i: nat, section: string, keys: seq<string>, cut: Option<nat>) {
    && i <= |t| && Cut(t, i, "s") == cut
    && var st := ReadFrom(START, t[..i]);
       st.section == section && st.inSection == (0 < i) && Keys(st.data, "s") == keys
  }

  lemma AtStart(t: seq<string>)
    ensures At(t, 0, "", [], None)
  {
    assert t[..0] == [];
  }

  lemma AtSection(t: seq<string>, i: nat, section: string, keys: seq<string>, cut: Option<nat>, name: string)
    requires At(t, i, section, keys, cut) && i < |t| && ParseLine(t[i]) == Section(name)
    ensures At(t, i + 1, name, keys, if 0 < i && Norm(section) == "s" && cut.None? then Some(|keys|) else cut)
  {
    hide ParseLine, Norm, ReadFrom, Touch, Keys;
    ReadUpTo(START, t, i);
    TouchKeepsKeys(ReadFrom(START, t[..i]).data, name, "s");
  }

  lemma AtKey(t: seq<string>, i: nat, keys: seq<string>, cut: Option<nat>, k: string, v: string)
    requires At(t, i, "s", keys, cut) && 0 < i < |t| && ParseLine(t[i]) == KeyValue(k, v)
    requires Norm("s") == "s" && Norm(k) == k && k !in keys
    ensures At(t, i + 1, "s", keys + [k], cut) && KeepLine(ReadFrom(START, t[..i]), t[i])
  {
    hide ParseLine, Norm, ReadFrom, Store, Keys;
    ReadUpTo(START, t, i);
    LineKeys(ReadFrom(START, t[..i]), t[i], "s");
  }

  /** The first stretch of the file ends with one key known. */
  lemma SplitRead(t: seq<string>)
    requires |t| == 5 && ParseLine(t[0]) == Section("s") && ParseLine(t[1]) == KeyValue("a", "1")
    requires ParseLine(t[2]) == Section("t") && ParseLine(t[3]) == Section("s") && ParseLine(t[4]) == KeyValue("b", "2")
    ensures Keys(Read(t), "s") == ["a", "b"] && AllKept(t) && FirstStretch(t, "s") == 1
  {
    SplitNames();
    hide ParseLine, Norm, ReadFrom, At, Cut, KeysOf;
    assert [] + ["a"] == ["a"] && ["a"] + ["b"] == ["a", "b"];
    AtStart(t);
    AtSection(t, 0, "", [], None, "s");
    AtKey(t, 1, [], None, "a", "1");
    AtSection(t, 2, "s", ["a"], None, "t");
    AtSection(t, 3, "t", ["a"], Some(1), "s");
    AtKey(t, 4, ["a"], Some(1), "b", "2");
    AtEnd(t, "s", ["a", "b"], Some(1));
  }

  lemma AtEnd(t: seq<string>, section: string, keys: seq<string>, cut: Option<nat>)
    requires At(t, |t|, section, keys, cut)
    ensures Keys(Read(t), "s") == keys && Cut(t, |t|, "s") == cut
  {
    assert t[..|t|] == t;
  }

  lemma KeysSection(d: Ini, s: string)
    requires Keys(d, s) != []
    ensures Has(d, s)
  {
  }

  lemma BetweenArranged(data: Ini, original: Ini)
    requires Keys(original, "s") == ["a", "b"] && Keys(data, "s") == ["a", "b", "c"]
    ensures Arranged(["a", "b"], Some(1), data, original, "s") == ["a", "c", "b"]
  {
    var inner, was := InnerOf(data, "s"), InnerOf(original, "s");
    hide KeysOf, InnerOf, Has;
    KeysHas(inner, "a");
    KeysHas(inner, "b");
    KeysHas(was, "a");
    KeysHas(was, "b");
    KeysHas(was, "c");
    assert ["a", "b"][..1] == ["a"] && ["a", "b"][1..] == ["b"];
    OnlyOne("a", In(inner));
    OnlyOne("b", In(inner));
    OnlyThree("a", "b", "c", NotIn(was));
  }

  lemma OnlyThree(a: string, b: string, c: string, p: string -> bool)
    requires !p(a) && !p(b) && p(c)
    ensures Only([a, b, c], p) == [c]
  {
    assert [a, b, c] == [a] + ([b] + [c]);
    hide Only;
    OnlyConcat([a], [b] + [c], p);
    OnlyConcat([b], [c], p);
    OnlyOne(a, p);
    OnlyOne(b, p);
    OnlyOne(c, p);
  }

  lemma BetweenIn(t: seq<string>, data: Ini, pretty: bool)
    requires AllKept(t) && Keys(Read(t), "s") == ["a", "b"] && FirstStretch(t, "s") == 1
    requires GoodIni(data, pretty) && Has(data, "s") && Keys(data, "s") == ["a", "b", "c"]
    ensures Keys(Read(LazyOutput(KeptFrom(START, t), data, Read(t), pretty)), "s") == ["a", "c", "b"]
  {
    hide Read, AllKept, GoodIni, Keys, FirstStretch, LazyOutput, Arranged, Has, KeptFrom;
    KeptAll(t);
    KeysSection(Read(t), "s");
    KeyOrder(t, data, pretty, "s");
    BetweenArranged(data, Read(t));
  }

  lemma SplitFacts()
    ensures AllKept(SPLIT_FILE) && Keys(Read(SPLIT_FILE), "s") == ["a", "b"] && FirstStretch(SPLIT_FILE, "s") == 1
  {
    hide ParseLine, Read, AllKept, Keys, FirstStretch;
    SplitParses();
    SplitRead(SPLIT_FILE);
  }

  /** The new key is written between the two that the file has. */
  lemma NewKeyBetween(pretty: bool)
    ensures var original := Read(SPLIT_FILE);
            var out := Read(LazyOutput(KeptFrom(START, SPLIT_FILE), WANTED, original, pretty));
            && GoodIni(WANTED, pretty) && Keys(original, "s") == ["a", "b"] && Keys(WANTED, "s") == ["a", "b", "c"]
            && Keys(out, "s") == ["a", "c", "b"]
  {
    hide Read, AllKept, GoodIni, Keys, FirstStretch, LazyOutput, Has, KeptFrom;
    SplitFacts();
    WantedGood(pretty);
    BetweenIn(SPLIT_FILE, WANTED, pretty);
  }
}

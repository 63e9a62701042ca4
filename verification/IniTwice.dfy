/** Writing the same data a second time. */
module IniTwice {
  import opened Options
  import opened IniText
  import opened IniParser
  import opened IniMap
  import opened IniFile
  import opened IniRewrite
  import opened IniLazy
  import opened IniLazyProof
  import opened IniOrder
  import opened IniSettled

  // ---------------------------------------------------------------- one line

  lemma {:induction false} BlankTake(s: string, m: nat)
    requires m <= |s| && (m < |s| ==> !IsSpace(Blank(s)[m]))
    ensures Blank(s[..m]) == Blank(s)[..m]
  {
    if 0 < m {
      var n := BlankStep(s);
      BlankSteps(s);
      BlankTake(s[n..], m - n);
      BlankSteps(s[..m]);
      assert s[..m][n..] == s[n..][..m - n];
    }
  }

  lemma {:induction false} HiddenEnd(s: string)
    requires AllSpace(Blank(s)) && s != []
    ensures s[|s| - 1] != '\\'
  {
    var n := BlankStep(s);
    BlankSteps(s);
    if n < |s| {
      var rest := Blank(s[n..]);
      forall i | 0 <= i < |rest| ensures IsSpace(rest[i]) { assert rest[i] == Blank(s)[n + i]; }
      HiddenEnd(s[n..]);
    } else {
      assert IsSpace(Blank(s)[0]);
    }
  }

  /** Behind text that looks like space, a value is seen in full exactly when it does not
      start with `\=`. */
  lemma SeenBehind(front: string, n: string)
    requires AllSpace(Blank(front)) && Trimmed(n)
    ensures |TrimLeft(Blank(front + n))| == |n| <==> !StartsEscaped(n)
  {
    if front != [] { HiddenEnd(front); }
    BlankConcat(front, n);
    TrimLeftSkip(Blank(front), Blank(n));
    if StartsEscaped(n) {
      TrimLeftSkip("  ", Blank(n[2..]));
    }
  }

  lemma BehindSplit(a: string, l: string, x: string)
    requires AllSpace(a) && KeyHead(l)
    ensures Behind(a + (l + x)) == Blank(x)
  {
    SplitIndex(a, l, x);
    BlankSplit(a, l, x);
    DropTwo(a, Blank(l), Blank(x));
    hide Blank, AllSpace, IndexOf, KeyHead;
  }

  lemma ReplacedIs(a: string, n: string)
    ensures Replaced(a + n) == n <==> |TrimLeft(Behind(a + n))| == |n|
  {
    hide Behind, TrimLeft;
  }

  /** An edit leaves alone what looks like space followed by the wanted value. */
  lemma SameTail(a: string, l: string, front: string, v: string, pretty: bool)
    requires AllSpace(a) && KeyHead(l) && AllSpace(Blank(front))
    ensures var r := a + (l + (front + Trim(v)));
            RewriteLine(r, v, pretty) == r
            <==> !StartsEscaped(Trim(v)) && (pretty && front == [] ==> Trim(v) == [])
  {
    var n := Trim(v);
    var r := a + (l + (front + n));
    TrimTrimmed(v);
    BehindSplit(a, l, front + n);
    SeenBehind(front, n);
    hide AllSpace, KeyHead, Trim, Trimmed, Blank, TrimLeft, StartsEscaped, RewriteLine, Behind, Replaced;
    RewriteSame(r, v, pretty);
    SeqAssoc(l, front, n);
    SeqAssoc(a, l + front, n);
    ReplacedIs(a + (l + front), n);
  }

  /** An edited tail is text that looks like space, then the value. */
  lemma EditedTail(x: string, v: string, pretty: bool) returns (front: string)
    ensures RewriteTail(x, v, pretty) == front + Trim(v) && AllSpace(Blank(front))
    ensures pretty ==> (front == [] <==> x == [])
  {
    var u := Blank(x);
    var w := TrimLeft(u);
    TrimLeftSpec(u);
    var m := |x| - |w|;
    if w == [] {
      assert u[..m] == u;
      front := x;
    } else {
      BlankTake(x, m);
      front := x[..m];
      if pretty && m == 0 {
        front := " ";
      }
      assert Blank(" ") == " " && AllSpace(" ");
      hide TrimLeft, Blank, AllSpace, Trim;
      assert m == 0 ==> x[..m] + " " == " ";
      SeqEmpty(x[..m]);
    }
  }

  /** An edit repeated on the edited line. */
  lemma RewriteTwice(line: string, dv: string, pretty: bool)
    requires ParseLine(line).KeyValue? && Trim(line)[0] != '['
    ensures var r := RewriteLine(line, dv, pretty);
            RewriteLine(r, dv, pretty) == r
            <==> !StartsEscaped(Trim(dv)) && (pretty && Behind(line) == [] ==> Trim(dv) == [])
  {
    var a, l, x := LineSplits(line);
    RewriteActsOnTail(a, l, x, dv, pretty);
    var front := EditedTail(x, dv, pretty);
    BehindSplit(a, l, x);
    assert x == [] <==> Blank(x) == [];
    hide ParseLine, Trim, AllSpace, KeyHead, Blank, RewriteLine, RewriteTail, Behind, StartsEscaped;
    SameTail(a, l, front, dv, pretty);
  }

  /** A line that a second write leaves as the first one wrote it. */
  predicate Repeats(line: string, value: string, dv: string, pretty: bool) {
    || value == dv
    || (Trimmed(dv) && !StartsEscaped(value))
    || (!StartsEscaped(Trim(dv)) && (pretty && Behind(line) == [] ==> Trim(dv) == []))
  }

  lemma KeyRepeats(line: string, dv: string, pretty: bool)
    requires ParseLine(line).KeyValue? && PlainStart(Norm(ParseLine(line).key))
    ensures var r := KeptOrRewritten(line, ParseLine(line).value, dv, pretty);
            && ParseLine(r).KeyValue? && ParseLine(r).key == ParseLine(line).key
            && (KeptOrRewritten(r, ParseLine(r).value, dv, pretty) == r
                <==> Repeats(line, ParseLine(line).value, dv, pretty))
  {
    EditedKey(line, dv, pretty);
    if ParseLine(line).value != dv {
      assert Trim(line)[0] != '[' by {
        if Trim(line)[0] == '[' { BracketKey(line); }
      }
      var r := RewriteLine(line, dv, pretty);
      ParsedTrimmed(r);
      TrimTrimmed(dv);
      RewriteTwice(line, dv, pretty);
      hide ParseLine, RewriteLine, Trimmed, StartsEscaped, Norm, PlainStart, Behind;
      if Trimmed(dv) { TrimFixed(dv); }
    }
  }

  /** A value that a second write leaves where it was added. */
  predicate NewRepeats(v: string) {
    Trimmed(v) || !StartsEscaped(Trim(v))
  }

  lemma AddedRepeats(key: string, v: string, pretty: bool)
    requires GoodKey(key, pretty)
    ensures var line := KeyText(key, v, pretty);
            && ParseLine(line) == KeyValue(key, Trim(v))
            && (KeptOrRewritten(line, Trim(v), v, pretty) == line <==> NewRepeats(v))
  {
    GoodKeyTrimmed(key, pretty);
    WrittenKeyLine(key, v, pretty);
    KeyTextParts(key, v, pretty);
    WrittenHead(key, pretty);
    var pad := SpaceAfter(pretty);
    TrimTrimmed(v);
    assert AllSpace(Blank(pad));
    assert AllSpace(SpaceBefore(key, pretty));
    hide ParseLine, KeyText, Trim, Trimmed, AllSpace, KeyHead, Blank, RewriteLine, StartsEscaped, HeadOf, SpaceBefore;
    SameTail(SpaceBefore(key, pretty), HeadOf(key, pretty), pad, v, pretty);
    if Trimmed(v) { TrimFixed(v); }
  }

  // ---------------------------------------------------------------- lines under a reader

  /** Every line satisfies `f` where the reader meets it. */
  ghost predicate Every(st: Reading, lines: seq<string>, f: (Reading, string) -> bool)
    decreases lines
  {
    lines == [] || (f(st, lines[0]) && Every(ReadStep(st, lines[0]), lines[1..], f))
  }

  lemma {:induction false} EveryConcat(st: Reading, x: seq<string>, y: seq<string>, f: (Reading, string) -> bool)
    ensures Every(st, x + y, f) <==> Every(st, x, f) && Every(ReadFrom(st, x), y, f)
    decreases x
  {
    hide ReadStep;
    if x == [] {
      assert x + y == y;
    } else {
      assert (x + y)[1..] == x[1..] + y;
      EveryConcat(ReadStep(st, x[0]), x[1..], y, f);
    }
  }

  lemma EveryOne(st: Reading, line: string, f: (Reading, string) -> bool)
    ensures Every(st, [line], f) <==> f(st, line)
  {
    assert Every(ReadStep(st, line), [line][1..], f);
  }

  lemma EveryUpTo(lines: seq<string>, n: nat, f: (Reading, string) -> bool)
    requires n < |lines|
    ensures Every(START, lines[..n + 1], f)
            <==> Every(START, lines[..n], f) && f(ReadFrom(START, lines[..n]), lines[n])
  {
    assert lines[..n + 1] == lines[..n] + [lines[n]];
    hide Every;
    EveryConcat(START, lines[..n], [lines[n]], f);
    EveryOne(ReadFrom(START, lines[..n]), lines[n], f);
  }

  lemma {:induction false} EveryAt(lines: seq<string>, n: nat, f: (Reading, string) -> bool)
    requires n <= |lines|
    ensures Every(START, lines[..n], f)
            <==> forall i :: 0 <= i < n ==> f(ReadFrom(START, lines[..i]), lines[i])
    decreases n
  {
    if n != 0 {
      EveryAt(lines, n - 1, f);
      EveryUpTo(lines, n - 1, f);
    }
  }

  /** A line that a write of `data` leaves as it is. */
  predicate LeftAlone(st: Reading, line: string, data: Ini, pretty: bool) {
    match ParseLine(line)
    case KeyValue(k, v) =>
      (match Val(data, Norm(st.section), Norm(k))
       case Some(dv) => KeptOrRewritten(line, v, dv, pretty) == line
       case None => true)
    case _ => true
  }

  /** A line that two writes leave as one does. */
  predicate RepeatsHere(st: Reading, line: string, data: Ini, pretty: bool) {
    match ParseLine(line)
    case KeyValue(k, v) =>
      (match Val(data, Norm(st.section), Norm(k))
       case Some(dv) => Repeats(line, v, dv, pretty)
       case None => true)
    case _ => true
  }

  function Left(data: Ini, pretty: bool): (Reading, string) -> bool {
    (st, line) => LeftAlone(st, line, data, pretty)
  }

  function Again(data: Ini, pretty: bool): (Reading, string) -> bool {
    (st, line) => RepeatsHere(st, line, data, pretty)
  }

  // ---------------------------------------------------------------- what is written

  /** The lines are kept by a reader, and left alone exactly under a condition. */
  ghost predicate Sits(st: Reading, lines: seq<string>, data: Ini, pretty: bool, cond: bool) {
    Every(st, lines, KeepLine) && (Every(st, lines, Left(data, pretty)) <==> cond)
  }

  lemma SitsMore(st: Reading, x: seq<string>, y: seq<string>, data: Ini, pretty: bool, c: bool, d: bool)
    requires Sits(st, x, data, pretty, c) && Sits(ReadFrom(st, x), y, data, pretty, d)
    ensures Sits(st, x + y, data, pretty, c && d)
  {
    hide Every, Left, ReadFrom;
    EveryConcat(st, x, y, KeepLine);
    EveryConcat(st, x, y, Left(data, pretty));
  }

  lemma SitsOne(st: Reading, line: string, data: Ini, pretty: bool)
    requires KeepLine(st, line)
    ensures Sits(st, [line], data, pretty, LeftAlone(st, line, data, pretty))
  {
    hide Every, KeepLine, LeftAlone;
    EveryOne(st, line, KeepLine);
    EveryOne(st, line, Left(data, pretty));
  }

  lemma {:induction false} SitsInert(st: Reading, lines: seq<string>, data: Ini, pretty: bool)
    requires AllInert(lines)
    ensures Sits(st, lines, data, pretty, true)
    decreases lines
  {
    hide ParseLine;
    if lines != [] {
      assert Inert(lines[0]);
      SitsInert(ReadStep(st, lines[0]), lines[1..], data, pretty);
    }
  }

  /** Everything behind the head. */
  lemma SitsBehind(head: seq<string>, tail: seq<string>, line: string, data: Ini, pretty: bool, c: bool)
    requires Sits(START, head, data, pretty, c) && AllInert(tail) && KeepLine(ReadFrom(START, head), line)
    ensures Sits(START, head + tail + [line], data, pretty, c && LeftAlone(ReadFrom(START, head), line, data, pretty))
  {
    hide Sits, AllInert, ReadFrom, KeepLine, LeftAlone;
    var st := ReadFrom(START, head);
    SitsInert(st, tail, data, pretty);
    SitsMore(START, head, tail, data, pretty, c, true);
    ReadConcat(START, head, tail);
    ReadInert(st, tail);
    SitsOne(st, line, data, pretty);
    SitsMore(START, head + tail, [line], data, pretty, c, LeftAlone(st, line, data, pretty));
  }

  // ---------------------------------------------------------------- added keys

  /** The added values of a table are written for good. */
  ghost predicate NewIn(t: Table<string>, original: Table<string>) {
    forall k :: Added(t, original, k) ==> Lookup(t, k).Some? && NewRepeats(Lookup(t, k).value)
  }

  lemma NewInStep(t: Table<string>, original: Table<string>)
    requires t != [] && Where(t[1..], t[0].0).None?
    ensures NewIn(t, original)
            <==> (Has(original, t[0].0) || NewRepeats(t[0].1)) && NewIn(t[1..], original)
  {
    var rest := t[1..];
    TableStep(t, t[0].0);
    hide NewRepeats;
    if NewIn(t, original) {
      assert Has(original, t[0].0) || Added(t, original, t[0].0);
      forall k | Added(rest, original, k) ensures Lookup(rest, k).Some? && NewRepeats(Lookup(rest, k).value) {
        TableStep(t, k);
        assert Added(t, original, k);
      }
    }
    if (Has(original, t[0].0) || NewRepeats(t[0].1)) && NewIn(rest, original) {
      forall k | Added(t, original, k) ensures Lookup(t, k).Some? && NewRepeats(Lookup(t, k).value) {
        TableStep(t, k);
        assert k == t[0].0 || Added(rest, original, k);
      }
    }
  }

  /** The table is what the data holds for a section. */
  ghost predicate PartOf(t: Table<string>, data: Ini, s: string) {
    forall k :: Has(t, k) ==> Val(data, s, k) == Lookup(t, k)
  }

  lemma PartRest(t: Table<string>, data: Ini, s: string)
    requires t != [] && Where(t[1..], t[0].0).None? && PartOf(t, data, s)
    ensures Val(data, s, t[0].0) == Some(t[0].1) && PartOf(t[1..], data, s)
  {
    TableStep(t, t[0].0);
    forall k | Has(t[1..], k) ensures Val(data, s, k) == Lookup(t[1..], k) { TableStep(t, k); }
  }

  lemma AddedSits(st: Reading, key: string, v: string, data: Ini, pretty: bool)
    requires GoodKey(key, pretty) && st.inSection && Val(data, Norm(st.section), key) == Some(v)
    ensures Sits(st, [KeyText(key, v, pretty)], data, pretty, NewRepeats(v))
  {
    AddedRepeats(key, v, pretty);
    hide ParseLine, KeyText, Val, KeptOrRewritten, NewRepeats, Sits;
    SitsOne(st, KeyText(key, v, pretty), data, pretty);
  }

  lemma {:induction false} MissingSits(st: Reading, t: Table<string>, original: Table<string>, data: Ini, pretty: bool)
    requires GoodTable(t, pretty) && st.inSection && PartOf(t, data, Norm(st.section))
    ensures Sits(st, MissingLines(t, original, pretty), data, pretty, NewIn(t, original))
    decreases t
  {
    if t != [] {
      var key, v, rest := t[0].0, t[0].1, MissingLines(t[1..], original, pretty);
      var line := KeyText(key, v, pretty);
      GoodHead(t, pretty);
      PartRest(t, data, Norm(st.section));
      NewInStep(t, original);
      if Has(original, key) {
        SeqEmpty(rest);
        hide Norm, Has, MissingLines, Sits, NewIn, PartOf;
        MissingSits(st, t[1..], original, data, pretty);
      } else {
        hide Norm, Has, ParseLine, KeyText, Sits, NewIn, PartOf, ReadFrom, Store;
        AddedSits(st, key, v, data, pretty);
        ReadOne(st, line);
        hide MissingLines;
        MissingSits(ReadStep(st, line), t[1..], original, data, pretty);
        SitsMore(st, [line], rest, data, pretty, NewRepeats(v), NewIn(t[1..], original));
      }
    }
  }

  // ---------------------------------------------------------------- invariant of the pass

  /** If `out` has the key and the original lacks it, its value is written for good. */
  ghost predicate NewFine(out: Ini, data: Ini, original: Ini, s: string, k: string) {
    Val(out, s, k).Some? && Val(original, s, k).None? && Val(data, s, k).Some? ==> NewRepeats(Val(data, s, k).value)
  }

  ghost predicate NewOk(out: Ini, data: Ini, original: Ini) {
    forall s, k :: NewFine(out, data, original, s, k)
  }

  lemma NewOkSame(out: Ini, out2: Ini, data: Ini, original: Ini)
    requires forall s, k :: Val(original, s, k).None? ==> (Val(out, s, k).Some? <==> Val(out2, s, k).Some?)
    ensures NewOk(out, data, original) <==> NewOk(out2, data, original)
  {
    hide Val, NewRepeats;
    forall s, k ensures NewFine(out, data, original, s, k) <==> NewFine(out2, data, original, s, k) {}
  }

  /** Flushing adds the new keys of one section. */
  lemma FlushedFine(out: Reading, t: Table<string>, data: Ini, original: Ini, pretty: bool, s: string, k: string)
    requires GoodTable(t, pretty) && out.inSection && Has(out.data, Norm(out.section))
    requires t == InnerOf(data, Norm(out.section))
    ensures var o := InnerOf(original, Norm(out.section));
            var r := ReadFrom(out, MissingLines(t, o, pretty)).data;
            NewFine(r, data, original, s, k)
            <==> && NewFine(out.data, data, original, s, k)
                 && (s == Norm(out.section) && Added(t, o, k) ==> Lookup(t, k).Some? && NewRepeats(Lookup(t, k).value))
  {
    var here := Norm(out.section);
    ValHas(data, here, k);
    ValHas(original, here, k);
    LookupHas(t, k);
    hide Norm, GoodTable, InnerOf, MissingLines, ReadFrom, Lookup, Has, NewRepeats;
    ReadMissing(out, t, InnerOf(original, here), pretty, s, k);
  }

  lemma NewOkFlushed(out: Reading, t: Table<string>, data: Ini, original: Ini, pretty: bool)
    requires GoodTable(t, pretty) && out.inSection && Has(out.data, Norm(out.section))
    requires t == InnerOf(data, Norm(out.section))
    ensures var o := InnerOf(original, Norm(out.section));
            NewOk(ReadFrom(out, MissingLines(t, o, pretty)).data, data, original)
            <==> NewOk(out.data, data, original) && NewIn(t, o)
  {
    var here := Norm(out.section);
    var o := InnerOf(original, here);
    var r := ReadFrom(out, MissingLines(t, o, pretty)).data;
    hide Norm, GoodTable, InnerOf, MissingLines, ReadFrom, Lookup, Has, NewRepeats, NewFine, Added;
    if NewOk(r, data, original) {
      forall s, k ensures NewFine(out.data, data, original, s, k) { FlushedFine(out, t, data, original, pretty, s, k); }
      forall k | Added(t, o, k) ensures Lookup(t, k).Some? && NewRepeats(Lookup(t, k).value) {
        FlushedFine(out, t, data, original, pretty, here, k);
      }
    }
    if NewOk(out.data, data, original) && NewIn(t, o) {
      forall s, k ensures NewFine(r, data, original, s, k) { FlushedFine(out, t, data, original, pretty, s, k); }
    }
  }

  /** The pass after some lines: what it has written is left alone exactly when the lines
      repeat and the keys added so far are written for good. */
  ghost predicate Repeatable(p: Pass, data: Ini, original: Ini, pretty: bool, repeats: bool) {
    Sits(START, p.head, data, pretty, repeats && NewOk(ReadFrom(START, p.head).data, data, original))
  }

  lemma InnerPart(data: Ini, s: string)
    ensures PartOf(InnerOf(data, s), data, s)
  {
    hide InnerOf;
  }

  lemma FlushRepeatable(p: Pass, inp: Reading, data: Ini, original: Ini, pretty: bool, repeats: bool)
    requires GoodIni(data, pretty) && p.parsing && Placed(p, inp, ReadFrom(START, p.head), data)
    requires Has(original, Norm(p.section)) && Repeatable(p, data, original, pretty, repeats)
    ensures Repeatable(Flushed(p, data, original, pretty), data, original, pretty, repeats)
  {
    var here, out := Norm(p.section), ReadFrom(START, p.head);
    var t, o := InnerOf(data, here), InnerOf(original, here);
    InnerGood(data, here, pretty);
    InnerPart(data, here);
    hide GoodIni, GoodTable, Norm, Has, InnerOf, ReadFrom, MissingLines, Sits, NewOk, NewIn, AllInert, PartOf;
    MissingSits(out, t, o, data, pretty);
    NewOkFlushed(out, t, data, original, pretty);
    SitsMore(START, p.head, MissingLines(t, o, pretty), data, pretty, repeats && NewOk(out.data, data, original),
             NewIn(t, o));
    ReadConcat(START, p.head, MissingLines(t, o, pretty));
  }

  lemma SectionRepeatable(p: Pass, line: string, data: Ini, original: Ini, pretty: bool, repeats: bool)
    requires ParseLine(line).Section? && AllInert(p.tail) && Repeatable(p, data, original, pretty, repeats)
    ensures Repeatable(AfterSection(p, line, ParseLine(line).name, data), data, original, pretty, repeats)
  {
    var n, out := ParseLine(line).name, ReadFrom(START, p.head);
    hide Norm, Has, ReadFrom, Sits, NewOk, AllInert, Touch, ParseLine;
    SitsBehind(p.head, p.tail, line, data, pretty, repeats && NewOk(out.data, data, original));
    ReadBehind(p.head, p.tail, line);
    forall s, k ensures Val(Touch(out.data, n), s, k) == Val(out.data, s, k) { TouchSeen(out.data, n, s, k); }
    NewOkSame(out.data, Touch(out.data, n), data, original);
  }

  /** The written line of a key is left alone exactly when the line repeats. */
  lemma KeyWritten(p: Pass, inp: Reading, out: Reading, line: string, data: Ini, pretty: bool, dv: string)
    requires GoodIni(data, pretty) && ParseLine(line).KeyValue?
    requires inp.section == out.section == p.section && out.inSection
    requires Val(data, Norm(p.section), Norm(ParseLine(line).key)) == Some(dv)
    ensures var r := KeptOrRewritten(line, ParseLine(line).value, dv, pretty);
            && KeepLine(out, r) && ParseLine(r).KeyValue?
            && (LeftAlone(out, r, data, pretty) <==> RepeatsHere(inp, line, data, pretty))
  {
    PlainKey(data, Norm(p.section), Norm(ParseLine(line).key), pretty);
    hide GoodIni, Norm, Val, KeptOrRewritten, ParseLine, Repeats;
    KeyRepeats(line, dv, pretty);
  }

  /** A key that the original has does not count as added. */
  lemma OldKeyOk(p: Pass, out: Reading, line: string, data: Ini, original: Ini, pretty: bool)
    requires GoodIni(data, pretty) && ParseLine(line).KeyValue?
    requires out.inSection && out.section == p.section && Has(out.data, Norm(p.section))
    requires Val(original, Norm(p.section), Norm(ParseLine(line).key)).Some?
    ensures NewOk(KeyOut(p, out, line, data, pretty).data, data, original) <==> NewOk(out.data, data, original)
  {
    var out' := KeyOut(p, out, line, data, pretty);
    hide GoodIni, Norm, Has, ParseLine, Val, KeyOut, NewOk, Fine, Trim;
    forall s, k ensures Val(original, s, k).None? ==> (Val(out.data, s, k).Some? <==> Val(out'.data, s, k).Some?) {
      var w := KeyOutSeen(p, out, line, data, pretty, s, k);
    }
    NewOkSame(out.data, out'.data, data, original);
  }

  lemma KeyRepeatable(p: Pass, inp: Reading, line: string, data: Ini, original: Ini, pretty: bool, repeats: bool)
    requires GoodIni(data, pretty) && ParseLine(line).KeyValue? && p.parsing && !p.skipping
    requires Placed(p, inp, ReadFrom(START, p.head), data) && Repeatable(p, data, original, pretty, repeats)
    requires Val(original, Norm(p.section), Norm(ParseLine(line).key)).Some?
    ensures Repeatable(LazyStep(p, line, data, original, pretty), data, original, pretty,
                       repeats && RepeatsHere(inp, line, data, pretty))
  {
    var out, dv := ReadFrom(START, p.head), Val(data, Norm(p.section), Norm(ParseLine(line).key));
    hide GoodIni, Norm, Has, ReadFrom, Sits, NewOk, AllInert, ParseLine, Val, KeptOrRewritten, Repeats, LeftAlone,
      ReadStep, KeepLine;
    if dv.Some? {
      var r := KeptOrRewritten(line, ParseLine(line).value, dv.value, pretty);
      KeyWritten(p, inp, out, line, data, pretty, dv.value);
      hide RepeatsHere;
      SitsBehind(p.head, p.tail, r, data, pretty, repeats && NewOk(out.data, data, original));
      ReadBehind(p.head, p.tail, r);
      OldKeyOk(p, out, line, data, original, pretty);
    }
  }

  lemma StepRepeatable(p: Pass, inp: Reading, line: string, data: Ini, original: Ini, pretty: bool, repeats: bool)
    requires GoodIni(data, pretty) && KeepLine(inp, line) && Repeatable(p, data, original, pretty, repeats)
    requires Placed(p, inp, ReadFrom(START, p.head), data)
    requires p.parsing ==> Has(original, Norm(p.section))
    requires ParseLine(line).KeyValue? ==> Val(original, Norm(p.section), Norm(ParseLine(line).key)).Some?
    ensures Repeatable(LazyStep(p, line, data, original, pretty), data, original, pretty,
                       repeats && RepeatsHere(inp, line, data, pretty))
  {
    hide GoodIni, Norm, Has, ReadFrom, AllInert, ParseLine, Val, Repeatable, Flushed;
    match ParseLine(line)
    case Section(n) =>
      if p.parsing {
        FlushRepeatable(p, inp, data, original, pretty, repeats);
        assert AllInert(Flushed(p, data, original, pretty).tail) by { FlushTail(p, inp, data, original, pretty); }
        SectionRepeatable(Flushed(p, data, original, pretty), line, data, original, pretty, repeats);
      } else {
        SectionRepeatable(p, line, data, original, pretty, repeats);
      }
    case KeyValue(k, v) =>
      if p.skipping {
        ValHas(data, Norm(p.section), Norm(k));
      } else {
        KeyRepeatable(p, inp, line, data, original, pretty, repeats);
      }
    case _ =>
      SameHead(p, AfterOther(p, line), data, original, pretty, repeats);
  }

  lemma SameHead(p: Pass, q: Pass, data: Ini, original: Ini, pretty: bool, repeats: bool)
    requires Repeatable(p, data, original, pretty, repeats) && q.head == p.head
    ensures Repeatable(q, data, original, pretty, repeats)
  {
  }

  lemma StartRepeatable(data: Ini, original: Ini, pretty: bool)
    ensures Repeatable(BEGIN, data, original, pretty, true)
  {
    assert ReadFrom(START, []) == START;
    assert NewOk([], data, original);
  }

  lemma {:induction false} PassRepeatable(lines: seq<string>, i: nat, data: Ini, pretty: bool)
    requires GoodIni(data, pretty) && AllKept(lines) && i <= |lines|
    ensures Repeatable(LazyPass(lines[..i], data, Read(lines), pretty), data, Read(lines), pretty,
                       Every(START, lines[..i], Again(data, pretty)))
    decreases i
  {
    hide GoodIni, ReadStep, LazyStep, Norm, Read, ReadFrom, KeepLine, Placed, Has, Val, Repeatable, ParseLine,
      RepeatsHere;
    if i == 0 {
      assert lines[..0] == [];
      StartRepeatable(data, Read(lines), pretty);
    } else {
      var p, inp, line := LazyPass(lines[..i - 1], data, Read(lines), pretty), ReadFrom(START, lines[..i - 1]),
        lines[i - 1];
      PassRepeatable(lines, i - 1, data, pretty);
      PassPlaced(lines, i - 1, data, pretty);
      OpenSection(lines, i - 1, p, data);
      if ParseLine(line).KeyValue? { FinalValue(lines, i - 1); }
      assert p.section == inp.section by { PlacedSection(p, inp, ReadFrom(START, p.head), data); }
      assert lines[..i][..i - 1] == lines[..i - 1] && lines[..i][i - 1] == line;
      EveryUpTo(lines, i - 1, Again(data, pretty));
      hide Every;
      StepRepeatable(p, inp, line, data, Read(lines), pretty, Every(START, lines[..i - 1], Again(data, pretty)));
    }
  }

  lemma PlacedSection(p: Pass, inp: Reading, out: Reading, data: Ini)
    requires Placed(p, inp, out, data)
    ensures p.section == inp.section
  {
  }

  lemma EndRepeatable(p: Pass, inp: Reading, data: Ini, pretty: bool, repeats: bool)
    requires GoodIni(data, pretty) && Placed(p, inp, ReadFrom(START, p.head), data)
    requires Repeatable(p, data, inp.data, pretty, repeats)
    ensures Repeatable(Flushed(p, data, inp.data, pretty), data, inp.data, pretty, repeats)
  {
    if p.parsing {
      hide GoodIni, ReadFrom, Repeatable, Flushed, Norm, Has, AllInert;
      FlushRepeatable(p, inp, data, inp.data, pretty, repeats);
    } else {
      hide GoodIni, Norm, ReadFrom, AllInert, MissingLines, Repeatable;
      assert NewKeys(p.section, data, inp.data, pretty) == [];
      SeqEmpty(p.head);
      SameHead(p, Flushed(p, data, inp.data, pretty), data, inp.data, pretty, repeats);
    }
  }

  lemma EditedSits(lines: seq<string>, data: Ini, pretty: bool)
    requires GoodIni(data, pretty) && AllKept(lines)
    ensures var out := Edited(lines, data, Read(lines), pretty);
            Sits(START, out, data, pretty,
                 Every(START, lines, Again(data, pretty)) && NewOk(Read(out), data, Read(lines)))
  {
    var original, inp := Read(lines), ReadFrom(START, lines);
    if lines == [] {
      assert NewOk([], data, original);
    } else {
      hide GoodIni, ReadFrom, Placed, LazyPass, Flushed, AllKept, AllInert, Sits, NewOk, Every;
      PassRepeatable(lines, |lines|, data, pretty);
      PassPlaced(lines, |lines|, data, pretty);
      assert lines[..|lines|] == lines;
      var p := LazyPass(lines, data, original, pretty);
      EndRepeatable(p, inp, data, pretty, Every(START, lines, Again(data, pretty)));
      var q := Flushed(p, data, original, pretty);
      assert AllInert(q.tail) by { FlushTail(p, inp, data, original, pretty); }
      ReadConcat(START, q.head, q.tail);
      ReadInert(ReadFrom(START, q.head), q.tail);
      SitsInert(ReadFrom(START, q.head), q.tail, data, pretty);
      SitsMore(START, q.head, q.tail, data, pretty,
               Every(START, lines, Again(data, pretty)) && NewOk(ReadFrom(START, q.head).data, data, original), true);
    }
  }

  // ---------------------------------------------------------------- new sections

  lemma {:induction false} KeyLinesAreMissing(t: Table<string>, pretty: bool)
    ensures KeyLines(t, pretty) == MissingLines(t, [], pretty)
  {
    hide KeyText, Norm;
    if t != [] {
      KeyLinesAreMissing(t[1..], pretty);
    }
  }

  lemma SectionSits(st: Reading, name: string, t: Table<string>, data: Ini, pretty: bool)
    requires GoodSection(name) && GoodTable(t, pretty) && PartOf(t, data, name)
    ensures Sits(st, SectionLines(name, t, pretty), data, pretty, NewIn(t, []))
  {
    NormIdempotent(name);
    SectionLine(name);
    KeyLinesAreMissing(t, pretty);
    var line := SectionText(name);
    hide ParseLine, SectionText, GoodTable, PartOf, Norm, Sits, NewIn, Touch, ReadFrom;
    SitsOne(st, line, data, pretty);
    ReadOne(st, line);
    MissingSits(ReadStep(st, line), t, [], data, pretty);
    SitsMore(st, [line], KeyLines(t, pretty), data, pretty, true, NewIn(t, []));
  }

  lemma AppendedFine(d: Ini, name: string, t: Table<string>, data: Ini, original: Ini, s: string, k: string)
    requires Where(d, name).None? && !Has(original, name) && InnerOf(data, name) == t
    ensures NewFine(d + [(name, TrimTable(t))], data, original, s, k)
            <==> && NewFine(d, data, original, s, k)
                 && (s == name && Added(t, [], k) ==> Lookup(t, k).Some? && NewRepeats(Lookup(t, k).value))
  {
    AppendedSeen(d, name, t, s, k);
    HasWhere(d, name);
    ValHas(d, name, k);
    ValHas(original, name, k);
    LookupHas(t, k);
    var none: Table<string> := [];
    assert !Has(none, k);
    hide NewRepeats, Where, TrimTable, InnerOf;
  }

  lemma NewOkAppended(d: Ini, name: string, t: Table<string>, data: Ini, original: Ini)
    requires Where(d, name).None? && !Has(original, name) && InnerOf(data, name) == t
    ensures NewOk(d + [(name, TrimTable(t))], data, original) <==> NewOk(d, data, original) && NewIn(t, [])
  {
    var r := d + [(name, TrimTable(t))];
    hide NewFine, Added, NewRepeats, Lookup, Has, Where, InnerOf, TrimTable;
    if NewOk(r, data, original) {
      forall s, k ensures NewFine(d, data, original, s, k) { AppendedFine(d, name, t, data, original, s, k); }
      forall k | Added(t, [], k) ensures Lookup(t, k).Some? && NewRepeats(Lookup(t, k).value) {
        AppendedFine(d, name, t, data, original, name, k);
      }
    }
    if NewOk(d, data, original) && NewIn(t, []) {
      forall s, k ensures NewFine(r, data, original, s, k) { AppendedFine(d, name, t, data, original, s, k); }
    }
  }

  /** The sections are those that the data holds under their names. */
  ghost predicate Sections(rest: Ini, data: Ini) {
    forall i :: 0 <= i < |rest| ==> InnerOf(data, rest[i].0) == rest[i].1
  }

  lemma AppendSits(out: seq<string>, name: string, t: Table<string>, data: Ini, original: Ini, pretty: bool, c: bool)
    requires GoodSection(name) && GoodTable(t, pretty) && InnerOf(data, name) == t
    requires Where(Read(out), name).None? && !Has(original, name)
    requires Sits(START, out, data, pretty, c && NewOk(Read(out), data, original))
    ensures var out' := out + Spacer(out, pretty) + SectionLines(name, t, pretty);
            Sits(START, out', data, pretty, c && NewOk(Read(out'), data, original))
  {
    InnerPart(data, name);
    AppendedRead(out, name, t, pretty);
    NewOkAppended(Read(out), name, t, data, original);
    SpacerInert(out, pretty);
    hide GoodSection, GoodTable, InnerOf, Where, ReadFrom, Has, Sits, NewOk, NewIn, Spacer, SectionLines, PartOf,
      AllInert, TrimTable;
    var sp := Spacer(out, pretty);
    SitsInert(ReadFrom(START, out), sp, data, pretty);
    SitsMore(START, out, sp, data, pretty, c && NewOk(Read(out), data, original), true);
    SectionSits(ReadFrom(START, out + sp), name, t, data, pretty);
    SitsMore(START, out + sp, SectionLines(name, t, pretty), data, pretty, c && NewOk(Read(out), data, original),
             NewIn(t, []));
  }

  lemma SpacerInert(out: seq<string>, pretty: bool)
    ensures AllInert(Spacer(out, pretty))
  {
  }

  lemma {:induction false} NewSectionsSit(out: seq<string>, rest: Ini, data: Ini, original: Ini, pretty: bool, c: bool)
    requires GoodIni(rest, pretty) && Unwritten(Read(out), rest, original) && Sections(rest, data)
    requires Sits(START, out, data, pretty, c && NewOk(Read(out), data, original))
    ensures var r := WithNewSections(out, rest, original, pretty);
            Sits(START, r, data, pretty, c && NewOk(Read(r), data, original))
    decreases |rest|
  {
    if rest != [] {
      var name, t := rest[0].0, rest[0].1;
      GoodFirst(rest, pretty);
      assert Sections(rest[1..], data) by { hide InnerOf; }
      if Has(original, Norm(name)) {
        hide Norm, GoodIni, Read, Has, Where, GoodTable, GoodSection, IsNorm, Sits, NewOk, Sections;
        UnwrittenRest(Read(out), rest, original);
        NewSectionsSit(out, rest[1..], data, original, pretty, c);
      } else {
        var out' := out + Spacer(out, pretty) + SectionLines(name, t, pretty);
        hide Norm, GoodIni, Read, Has, Where, GoodTable, GoodSection, IsNorm, SectionLines, Spacer, TrimTable, Sits,
          NewOk, InnerOf;
        AppendedRead(out, name, t, pretty);
        UnwrittenMore(Read(out), rest, original, TrimTable(t));
        AppendSits(out, name, t, data, original, pretty, c);
        hide Sections;
        NewSectionsSit(out', rest[1..], data, original, pretty, c);
      }
    }
  }

  lemma AllSections(data: Ini, pretty: bool)
    requires GoodIni(data, pretty)
    ensures Sections(data, data)
  {
    hide GoodKey, GoodSection;
    forall i | 0 <= i < |data| ensures InnerOf(data, data[i].0) == data[i].1 {
      WhereAt(data, i);
    }
  }

  lemma GoodNamed(data: Ini, pretty: bool)
    requires GoodIni(data, pretty)
    ensures Named(data)
  {
    hide IsNorm, PlainStart, EndsInBackslash;
  }

  // ---------------------------------------------------------------- the law

  /** What one write leaves, and when a second one leaves it alone. */
  lemma OutputSits(lines: seq<string>, data: Ini, pretty: bool)
    requires GoodIni(data, pretty) && AllKept(lines)
    ensures Sits(START, LazyOutput(lines, data, Read(lines), pretty), data, pretty,
                 Every(START, lines, Again(data, pretty)) && NewOk(data, data, Read(lines)))
  {
    var original := Read(lines);
    var edited, out := Edited(lines, data, original, pretty), LazyOutput(lines, data, original, pretty);
    hide GoodIni, AllKept, Read, Edited, Sits, NewOk, Every, Sections, Unwritten, WithNewSections, Val, Lands, Has;
    EditedSits(lines, data, pretty);
    EditedUnwritten(lines, data, pretty);
    AllSections(data, pretty);
    NewSectionsSit(edited, data, data, original, pretty, Every(START, lines, Again(data, pretty)));
    forall s, k ensures Val(Read(out), s, k).Some? <==> Val(data, s, k).Some? {
      LazyReads(lines, data, pretty, s, k);
      LandsSome(Val(original, s, k), Val(data, s, k), Val(Read(out), s, k));
    }
    NewOkSame(Read(out), data, data, original);
  }

  lemma LandsSome(original: Option<string>, wanted: Option<string>, found: Option<string>)
    requires Lands(original, wanted, found)
    ensures found.Some? <==> wanted.Some?
  {
  }

  /** The lines of a file that carries the names of the data stay as they are exactly when
      each is left alone. */
  lemma LeftOutput(lines: seq<string>, data: Ini, pretty: bool)
    requires AllKept(lines) && Named(data) && SameNames(Read(lines), data)
    ensures LazyOutput(lines, data, Read(lines), pretty) == lines <==> Every(START, lines, Left(data, pretty))
  {
    var out := LazyOutput(lines, data, Read(lines), pretty);
    SettledOutput(lines, data, pretty);
    EveryAt(lines, |lines|, Left(data, pretty));
    assert lines[..|lines|] == lines;
    hide Named, SameNames, AllKept, Every, LazyOutput, ReadFrom, Read, Settled, LeftAlone;
    forall i | 0 <= i < |lines|
      ensures out[i] == lines[i] <==> LeftAlone(ReadFrom(START, lines[..i]), lines[i], data, pretty)
    {
      LeftSettled(lines, data, i, pretty);
    }
  }

  lemma LeftSettled(lines: seq<string>, data: Ini, i: nat, pretty: bool)
    requires i < |lines|
    ensures Settled(lines, data, i, pretty) == lines[i]
            <==> LeftAlone(ReadFrom(START, lines[..i]), lines[i], data, pretty)
  {
    hide ReadFrom, Norm, Val, KeptOrRewritten, ParseLine;
  }

  /** Writing the same data over the result of a write changes nothing exactly when every
      kept line repeats and every added value is written for good. */
  lemma SecondWrite(fileLines: seq<string>, data: Ini, pretty: bool)
    requires GoodIni(data, pretty)
    ensures var kept, original := KeptFrom(START, fileLines), Read(fileLines);
            var out := LazyOutput(kept, data, original, pretty);
            LazyOutput(KeptFrom(START, out), data, Read(out), pretty) == out
            <==> Every(START, kept, Again(data, pretty)) && NewOk(data, data, original)
  {
    var kept := KeptFrom(START, fileLines);
    var out := LazyOutput(kept, data, Read(fileLines), pretty);
    KeptIsKept(fileLines);
    GoodNamed(data, pretty);
    OutputNames(fileLines, data, pretty);
    OutputSits(kept, data, pretty);
    SitsKept(out, data, pretty, Every(START, kept, Again(data, pretty)) && NewOk(data, data, Read(fileLines)));
    hide GoodIni, Read, KeptFrom, LazyOutput, Every, AllKept, SameNames, Named, NewOk, Sits;
    KeptAll(out);
    LeftOutput(out, data, pretty);
  }

  lemma OutputNames(fileLines: seq<string>, data: Ini, pretty: bool)
    requires GoodIni(data, pretty)
    ensures SameNames(Read(LazyOutput(KeptFrom(START, fileLines), data, Read(fileLines), pretty)), data)
  {
    hide GoodIni, Read, KeptFrom, LazyOutput, Has, Val, TrimOpt, StartsEscaped;
    LazyWriteReads(fileLines, data, pretty);
  }

  lemma SitsKept(lines: seq<string>, data: Ini, pretty: bool, c: bool)
    requires Sits(START, lines, data, pretty, c)
    ensures AllKept(lines) && (Every(START, lines, Left(data, pretty)) <==> c)
  {
    hide Every, ReadFrom, KeepLine;
    EveryAt(lines, |lines|, KeepLine);
    assert lines[..|lines|] == lines;
  }

  // ---------------------------------------------------------------- trimmed values

  /** Values as a reader stores them. */
  ghost predicate Tidy(data: Ini) {
    forall s, k :: Val(data, s, k).Some? ==> Trimmed(Val(data, s, k).value)
  }

  /** A line whose value starts with `\=` and gets another one that does. */
  predicate Collides(st: Reading, line: string, data: Ini) {
    match ParseLine(line)
    case KeyValue(k, v) =>
      (match Val(data, Norm(st.section), Norm(k))
       case Some(dv) => v != dv && StartsEscaped(v) && StartsEscaped(dv)
       case None => false)
    case _ => false
  }

  lemma EscapedBehind(line: string)
    requires ParseLine(line).KeyValue? && Trim(line)[0] != '[' && StartsEscaped(ParseLine(line).value)
    ensures Behind(line) != []
  {
    var a, l, x := LineSplits(line);
    BehindSplit(a, l, x);
    hide ParseLine, Blank, KeyHead, Unescape, AllSpace, Behind;
    if x == [] { TrimFixed(x); }
  }

  lemma TidyRepeats(st: Reading, line: string, data: Ini, pretty: bool)
    requires GoodIni(data, pretty) && Tidy(data)
    ensures RepeatsHere(st, line, data, pretty) <==> !Collides(st, line, data)
  {
    if ParseLine(line).KeyValue? {
      var v, dv := ParseLine(line).value, Val(data, Norm(st.section), Norm(ParseLine(line).key));
      if dv.Some? && StartsEscaped(v) {
        PlainKey(data, Norm(st.section), Norm(ParseLine(line).key), pretty);
        assert Trim(line)[0] != '[' by {
          if Trim(line)[0] == '[' { BracketKey(line); }
        }
        EscapedBehind(line);
      }
      hide GoodIni, ParseLine, Norm, Val, StartsEscaped, Behind, Trimmed, Trim, PlainStart;
      if dv.Some? { TrimFixed(dv.value); }
    }
  }

  /** With trimmed values a second write changes nothing exactly when no kept line has a
      value that starts with `\=` and gets another one that does. */
  lemma SecondWriteTidy(fileLines: seq<string>, data: Ini, pretty: bool)
    requires GoodIni(data, pretty) && Tidy(data)
    ensures var kept, original := KeptFrom(START, fileLines), Read(fileLines);
            var out := LazyOutput(kept, data, original, pretty);
            LazyOutput(KeptFrom(START, out), data, Read(out), pretty) == out
            <==> forall i :: 0 <= i < |kept| ==> !Collides(ReadFrom(START, kept[..i]), kept[i], data)
  {
    var kept := KeptFrom(START, fileLines);
    SecondWrite(fileLines, data, pretty);
    TidyNew(data, Read(fileLines));
    EveryAt(kept, |kept|, Again(data, pretty));
    assert kept[..|kept|] == kept;
    hide GoodIni, Read, KeptFrom, LazyOutput, Every, NewOk, ReadFrom, Tidy, RepeatsHere, Collides;
    forall i | 0 <= i < |kept|
      ensures RepeatsHere(ReadFrom(START, kept[..i]), kept[i], data, pretty)
              <==> !Collides(ReadFrom(START, kept[..i]), kept[i], data)
    {
      TidyRepeats(ReadFrom(START, kept[..i]), kept[i], data, pretty);
    }
  }

  lemma TidyNew(data: Ini, original: Ini)
    requires Tidy(data)
    ensures NewOk(data, data, original)
  {
    hide Val, Trimmed, StartsEscaped, Trim;
  }

  // ---------------------------------------------------------------- a file that goes on growing

  lemma OneKeyTidy(v: string)
    requires Trimmed(v)
    ensures Tidy(OneKey(v))
  {
    hide Trimmed;
  }

  lemma EscapedLine()
    ensures ParseLine("k=\\=") == KeyValue("k", "\\=")
  {
    LetterNorm('k');
    TrimFixed("\\=");
    WrittenKeyLine("k", "\\=", false);
    assert Escape("k") == "k" by { assert "k"[1..] == ""; }
    hide ParseLine, Trim, Escape;
    assert KeyText("k", "\\=", false) == "k=\\=";
  }

  lemma TwoLines(a: string, b: string, data: Ini)
    requires ParseLine(a) == Section("s") && ParseLine(b) == KeyValue("k", "\\=")
    requires Val(data, "s", "k").Some? && Val(data, "s", "k").value != "\\=" && StartsEscaped(Val(data, "s", "k").value)
    ensures AllKept([a, b]) && Collides(ReadFrom(START, [a, b][..1]), b, data)
  {
    var t := [a, b];
    LetterNorm('s');
    LetterNorm('k');
    hide ParseLine, Norm, ReadFrom, Val, Touch;
    assert t[..0] == [];
    ReadUpTo(START, t, 0);
  }

  /** The value `\=x` over the old value `\=`: the second write changes the line again. */
  lemma SecondWriteGrows()
    ensures var lines, data := ["[s]", "k=\\="], OneKey("\\=x");
            var out := LazyOutput(KeptFrom(START, lines), data, Read(lines), false);
            && GoodIni(data, false) && Tidy(data)
            && LazyOutput(KeptFrom(START, out), data, Read(out), false) != out
  {
    var lines, data := ["[s]", "k=\\="], OneKey("\\=x");
    assert StartsEscaped("\\=x") && Trimmed("\\=x");
    hide ParseLine, OneKey, Val, GoodIni, Tidy, LazyOutput, Read, AllKept, KeptFrom, Collides, StartsEscaped, Trimmed;
    OneKeyGood("\\=x");
    OneKeyTidy("\\=x");
    LetterSection('s');
    EscapedLine();
    TwoLines("[s]", "k=\\=", data);
    KeptAll(lines);
    SecondWriteTidy(lines, data, false);
  }
}

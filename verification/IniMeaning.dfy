/** What texts and lines mean, spelled out by their characters: trimming and filing, the kinds
    of lines, the lines of a file, what a reader makes of them and what the generator writes. */
module IniMeaning {
  import opened Options
  import opened IniText
  import opened IniParser
  import opened IniMap
  import opened IniFile
  import opened IniRewrite
  import opened IniLazy
  import S = SplitString

  // ---------------------------------------------------------------- trimming and filing

  /** A blank, or one of the characters 9 to 13. */
  predicate Space(c: char) {
    c == ' ' || 9 <= c as int <= 13
  }

  predicate Spaces(s: string) {
    forall i :: 0 <= i < |s| ==> Space(s[i])
  }

  /** Visible at both ends, or empty. */
  predicate Tight(s: string) {
    s == [] || (!Space(s[0]) && !Space(s[|s| - 1]))
  }

  lemma SpaceIs(s: string)
    ensures Spaces(s) <==> AllSpace(s)
    ensures Tight(s) <==> Trimmed(s)
  {
    assert forall c :: Space(c) <==> IsSpace(c);
  }

  /** A name is filed without the space around it, with the letters A to Z in lower case. */
  lemma NormMeans(a: string, k: string, b: string)
    requires Spaces(a) && Tight(k) && Spaces(b)
    ensures var r := Norm(a + k + b);
            && |r| == |k|
            && forall i :: 0 <= i < |k| ==>
                 r[i] as int == k[i] as int + if 65 <= k[i] as int <= 90 then 32 else 0
  {
    SpaceIs(a);
    SpaceIs(k);
    SpaceIs(b);
    hide Spaces, Tight, AllSpace, Trimmed, Trim;
    TrimIs(a, k, b);
  }

  // ---------------------------------------------------------------- kinds of lines

  /** A line of space, and one whose first visible character is a ';'. */
  lemma BlankOrComment(a: string, x: string)
    requires Spaces(a)
    ensures ParseLine(a) == Nothing && ParseLine(a + (";" + x)) == Comment
  {
    SpaceIs(a);
    hide Spaces, AllSpace;
    SpaceTrims(a);
    TrimRightStart(a, ";" + x);
    assert Trim(a + (";" + x)) != [] && Trim(a + (";" + x))[0] == ';';
  }

  lemma SpaceTrims(a: string)
    requires AllSpace(a)
    ensures Trim(a) == []
  {
    hide AllSpace, Trim;
    assert AllSpace([]) && Trimmed([]) by { NoSpace(); }
    TrimIs(a, [], []);
    assert a + [] + [] == a;
  }

  lemma NoSpace()
    ensures AllSpace([]) && Trimmed([])
  {
  }

  /** Trimming keeps the first visible character. */
  lemma TrimRightStart(a: string, x: string)
    requires AllSpace(a) && x != [] && !IsSpace(x[0])
    ensures Trim(a + x) == TrimRight(x) && TrimRight(x) != [] && TrimRight(x)[0] == x[0]
  {
    TrimRightSpec(x);
    TrimRightKeeps(x);
    var r := TrimRight(x);
    var b := x[|r|..];
    hide IsSpace, Trim, AllSpace, TrimRight;
    assert x == r + b;
    assert Trimmed(r);
    TrimIs(a, r, b);
    SeqAssoc(a, r, b);
  }

  lemma {:induction false} LastIn(x: string, c: char, y: string)
    requires c !in y
    ensures LastIndexOf(x + [c] + y, c) == Some(|x|)
  {
    var s := x + [c] + y;
    if y == [] {
      assert s == x + [c] && s[|s| - 1] == c;
    } else {
      assert s[|s| - 1] == y[|y| - 1];
      assert s[..|s| - 1] == x + [c] + y[..|y| - 1];
      LastIn(x, c, y[..|y| - 1]);
    }
  }

  /** Trimming behind visible text. */
  lemma TrimBehind(front: string, rest: string)
    requires front != [] && !IsSpace(front[|front| - 1])
    ensures TrimRight(front + rest) == front + TrimRight(rest) && TrimRight(rest) <= rest
  {
    TrimRightSpec(rest);
    var r := TrimRight(rest);
    var b := rest[|r|..];
    hide TrimRight, AllSpace, IsSpace;
    assert rest == r + b;
    SeqAssoc(front, r, b);
    if r == [] { SeqEmpty(front); }
    TrimRightIs(front + r, b, false);
  }

  /** What a cut leaves behind `front`. */
  lemma CutBehind(front: string, y: string, c: string, r: string) returns (z: string)
    requires ';' !in front && ';' !in y && ']' !in y && (c == [] || c[0] == ';') && r <= y + c
    ensures ']' !in z && CutComment(front + r) == front + z
  {
    var t := front + r;
    if |r| > |y| {
      z := y;
      assert r[|y|] == ';' && r[..|y|] == y;
      assert t[|front| + |y|] == ';';
      assert t[..|front| + |y|] == front + y;
      FirstAt(t, ';', |front| + |y|);
    } else {
      z := r;
      assert r == y[..|r|];
      NotAnywhere(t, ';');
    }
  }

  lemma {:induction false} FirstAt(s: string, c: char, i: nat)
    requires i < |s| && s[i] == c && c !in s[..i]
    ensures IndexOf(s, c) == Some(i)
  {
    if i != 0 {
      assert s[..i][0] == s[0] && s[..i][1..] == s[1..][..i - 1];
      FirstAt(s[1..], c, i - 1);
    }
  }

  lemma NotAnywhere(s: string, c: char)
    requires c !in s
    ensures IndexOf(s, c) == None
  {
    IndexOfSpec(s, c);
  }

  /** A section line: a '[', a name, the last ']' before a comment. */
  lemma SectionMeans(a: string, name: string, y: string, c: string)
    requires Spaces(a) && ';' !in name && ';' !in y && ']' !in y && (c == [] || c[0] == ';')
    ensures ParseLine(a + ("[" + name + "]" + (y + c))) == Section(Trim(name))
  {
    SpaceIs(a);
    var front, rest := "[" + name + "]", y + c;
    TrimBehind(front, rest);
    TrimRightStart(a, front + rest);
    hide TrimRight, Spaces, AllSpace, IsSpace;
    var z := CutBehind(front, y, c, TrimRight(rest));
    SectionOf(a + (front + rest), name, z);
  }

  lemma SectionOf(line: string, name: string, z: string)
    requires Trim(line) != [] && Trim(line)[0] == '[' && ']' !in z
    requires CutComment(Trim(line)) == "[" + name + "]" + z
    ensures ParseLine(line) == Section(Trim(name))
  {
    var cut := "[" + name + "]" + z;
    LastIn("[" + name, ']', z);
    assert cut[1..|name| + 1] == name;
    hide Trim, LastIndexOf, CutComment;
  }

  /** Blanking by index: the two characters of every `\=` become blanks. */
  lemma {:induction false} BlankAt(s: string, i: nat)
    requires i < |s|
    ensures Blank(s)[i] == if || (s[i] == '=' && 0 < i && s[i - 1] == '\\')
                              || (s[i] == '\\' && i + 1 < |s| && s[i + 1] == '=')
                           then ' ' else s[i]
  {
    var n := BlankStep(s);
    BlankSteps(s);
    if i >= n {
      BlankAt(s[n..], i - n);
    }
  }

  /** The first '=' without a backslash before it. */
  ghost predicate Separates(t: string, e: nat) {
    && e < |t| && t[e] == '=' && (e == 0 || t[e - 1] != '\\')
    && forall i :: 0 <= i < e && t[i] == '=' ==> 0 < i && t[i - 1] == '\\'
  }

  lemma SeparatorFound(t: string)
    ensures match IndexOf(Blank(t), '=')
            case Some(e) => Separates(t, e)
            case None => forall e: nat :: !Separates(t, e)
  {
    IndexOfSpec(Blank(t), '=');
    hide IndexOf;
    forall i | 0 <= i < |t| ensures Blank(t)[i] == '=' <==> t[i] == '=' && (i == 0 || t[i - 1] != '\\') {
      BlankAt(t, i);
    }
    hide Blank;
    var r := IndexOf(Blank(t), '=');
    if r.Some? {
      forall i | 0 <= i < r.value && t[i] == '=' ensures 0 < i && t[i - 1] == '\\' {
        assert Blank(t)[..r.value][i] == Blank(t)[i];
      }
    }
  }

  /** Where the key of a text ends, if it has one. */
  ghost predicate SeparatedAt(t: string, e: Option<nat>) {
    match e
    case Some(i) => Separates(t, i)
    case None => forall i: nat :: !Separates(t, i)
  }

  lemma OneSeparator(t: string, e: Option<nat>)
    requires SeparatedAt(t, e)
    ensures IndexOf(Blank(t), '=') == e
  {
    SeparatorFound(t);
    hide Blank, IndexOf;
  }

  lemma PlainLine(line: string, t: string)
    requires Trim(line) == t && t != [] && t[0] != ';' && t[0] != '['
    ensures ParseLine(line) == ParseKey(t)
  {
    hide Trim, ParseKey;
  }

  /** A key line: the key before the first '=' without a backslash, the value behind it. A
      line without such a '=' is unknown. */
  lemma KeyMeans(a: string, t: string, b: string, e: Option<nat>)
    requires Spaces(a) && Spaces(b) && Tight(t) && t != [] && t[0] != ';' && t[0] != '[' && SeparatedAt(t, e)
    ensures ParseLine(a + t + b)
            == if e.None? then Unknown else KeyValue(Unescape(Trim(t[..e.value])), Trim(t[e.value + 1..]))
  {
    SpaceIs(a);
    SpaceIs(t);
    SpaceIs(b);
    hide Spaces, AllSpace, Tight, Trimmed, Trim, Unescape, ParseLine, Blank, IndexOf;
    TrimIs(a, t, b);
    OneSeparator(t, e);
    PlainLine(a + t + b, t);
  }

  // ---------------------------------------------------------------- the lines of a file

  /** The text without CR and NUL. */
  function Bare(text: string): string {
    if text == [] then []
    else (if text[0] == '\r' || text[0] == '\0' then [] else [text[0]]) + Bare(text[1..])
  }

  /** The lines of a text: what lies between the LFs, without CR and NUL. */
  lemma {:induction false} LinesMean(text: string)
    ensures LinesOf(text) == S.Split(Bare(text), "\n")
  {
    if text == [] {
      assert LinesOf("") == [""];
    } else {
      var c, rest := text[0], Bare(text[1..]);
      LinesMean(text[1..]);
      LinesOfStep(text);
      hide LinesOf, S.Split;
      if c == '\r' || c == '\0' {
        assert [] + rest == rest;
      } else {
        var s := [c] + rest;
        assert s[0] == c && s[1..] == rest;
        S.LineStep(s);
      }
    }
  }

  /** Every writer joins lines with CR LF. */
  lemma {:induction false} JoinedMeans(lines: seq<string>)
    requires lines != []
    ensures Joined(lines) == S.Join(lines, "\r\n")
  {
    if |lines| > 1 {
      JoinedMeans(lines[1..]);
      SeqAssoc(lines[0], "\r\n", Joined(lines[1..]));
    }
  }

  // ---------------------------------------------------------------- reading

  /** The filed name of the nearest section line above line `i`. */
  function Under(lines: seq<string>, i: nat): Option<string>
    requires i <= |lines|
  {
    if i == 0 then None
    else match ParseLine(lines[i - 1])
      case Section(n) => Some(Norm(n))
      case _ => Under(lines, i - 1)
  }

  lemma {:induction false} ReaderIsUnder(lines: seq<string>, i: nat)
    requires i <= |lines|
    ensures var st := ReadFrom(START, lines[..i]);
            Under(lines, i) == if st.inSection then Some(Norm(st.section)) else None
    decreases i
  {
    hide Norm, ParseLine, Touch, Store, ReadFrom;
    if i == 0 {
      assert lines[..0] == [];
      ReadNothing();
    } else {
      ReaderIsUnder(lines, i - 1);
      ReadUpTo(START, lines, i - 1);
    }
  }

  /** A line is handed on to a lazy write unless it is unknown or a key line above all
      sections. */
  lemma KeptMeans(lines: seq<string>, i: nat)
    requires i < |lines|
    ensures KeepLine(ReadFrom(START, lines[..i]), lines[i])
            <==> match ParseLine(lines[i])
                 case Unknown => false
                 case KeyValue(_, _) => exists j :: 0 <= j < i && ParseLine(lines[j]).Section?
                 case _ => true
  {
    ReaderIsUnder(lines, i);
    UnderSome(lines, i);
    hide ReadFrom, ParseLine, Norm;
  }

  lemma {:induction false} UnderSome(lines: seq<string>, i: nat)
    requires i <= |lines|
    ensures Under(lines, i).Some? <==> exists j :: 0 <= j < i && ParseLine(lines[j]).Section?
  {
    hide ParseLine, Norm;
    if i != 0 {
      UnderSome(lines, i - 1);
      if ParseLine(lines[i - 1]).Section? { assert 0 <= i - 1 < i; }
    }
  }

  /** Line `i` gives key `k` of section `s` a value. */
  predicate Gives(lines: seq<string>, i: nat, s: string, k: string)
    requires i < |lines|
  {
    ParseLine(lines[i]).KeyValue? && Under(lines, i) == Some(s) && Norm(ParseLine(lines[i]).key) == k
  }

  /** What a reader finds in a file: the sections that some line names, and for a key the value
      of the last line that gives it one. */
  lemma ReadMeans(lines: seq<string>, s: string, k: string)
    ensures Has(Read(lines), s)
            <==> exists j :: 0 <= j < |lines| && ParseLine(lines[j]).Section? && Norm(ParseLine(lines[j]).name) == s
    ensures Val(Read(lines), s, k).None? <==> forall i :: 0 <= i < |lines| ==> !Gives(lines, i, s, k)
    ensures forall i :: 0 <= i < |lines| && Gives(lines, i, s, k)
                        && (forall j :: i < j < |lines| ==> !Gives(lines, j, s, k))
                        ==> Val(Read(lines), s, k) == Some(ParseLine(lines[i]).value)
  {
    ReadUpToMeans(lines, |lines|, s, k);
    assert lines[..|lines|] == lines;
    hide Gives, ParseLine, Norm, ReadFrom, Val, Has;
  }

  lemma {:induction false} ReadUpToMeans(lines: seq<string>, n: nat, s: string, k: string)
    requires n <= |lines|
    ensures var d := ReadFrom(START, lines[..n]).data;
            && (Has(d, s) <==> exists j :: 0 <= j < n && ParseLine(lines[j]).Section?
                                           && Norm(ParseLine(lines[j]).name) == s)
            && (Val(d, s, k).None? <==> forall i :: 0 <= i < n ==> !Gives(lines, i, s, k))
            && (forall i :: 0 <= i < n && Gives(lines, i, s, k)
                            && (forall j :: i < j < n ==> !Gives(lines, j, s, k))
                            ==> Val(d, s, k) == Some(ParseLine(lines[i]).value))
    decreases n
  {
    hide ParseLine, Norm, Touch, Store, ReadFrom, Val, Has, Under;
    if n == 0 {
      assert lines[..0] == [];
      ReadNothing();
      EmptyHas(s, k);
    } else {
      var st := ReadFrom(START, lines[..n - 1]);
      ReadUpToMeans(lines, n - 1, s, k);
      ReadUpTo(START, lines, n - 1);
      ReaderIsUnder(lines, n - 1);
      match ParseLine(lines[n - 1])
      case Section(name) => TouchSeen(st.data, name, s, k);
      case KeyValue(key, v) =>
        StoreSeen(st.data, st.section, key, v, s, k);
        if st.inSection { SectionSeen(lines, n - 1, Norm(st.section)); }
        assert Gives(lines, n - 1, s, k) <==> st.inSection && s == Norm(st.section) && k == Norm(key);
      case _ =>
    }
  }

  lemma EmptyHas(s: string, k: string)
    ensures !Has(START.data, s) && Val(START.data, s, k).None?
  {
  }

  lemma {:induction false} SectionSeen(lines: seq<string>, i: nat, s: string)
    requires i <= |lines| && Under(lines, i) == Some(s)
    ensures exists j :: 0 <= j < i && ParseLine(lines[j]).Section? && Norm(ParseLine(lines[j]).name) == s
  {
    hide ParseLine, Norm;
    if ParseLine(lines[i - 1]).Section? {
      assert 0 <= i - 1 < i;
    } else {
      SectionSeen(lines, i - 1, s);
    }
  }

  // ---------------------------------------------------------------- generating

  lemma {:induction false} KeyLinesAt(t: Table<string>, i: nat, pretty: bool)
    requires i < |t|
    ensures KeyLines(t, pretty)[i] == Escape(t[i].0) + (if pretty then " = " else "=") + Trim(t[i].1)
  {
    hide Escape, Trim;
    if i != 0 {
      KeyLinesAt(t[1..], i - 1, pretty);
    }
  }

  /** A generated section: its name in brackets, then a line per key in order. */
  lemma SectionWritten(name: string, t: Table<string>, pretty: bool)
    ensures var lines := SectionLines(name, t, pretty);
            && |lines| == |t| + 1 && lines[0] == "[" + name + "]"
            && forall i :: 0 <= i < |t| ==>
                 lines[i + 1] == Escape(t[i].0) + (if pretty then " = " else "=") + Trim(t[i].1)
  {
    hide KeyLines, Escape, Trim;
    forall i | 0 <= i < |t|
      ensures SectionLines(name, t, pretty)[i + 1]
              == Escape(t[i].0) + (if pretty then " = " else "=") + Trim(t[i].1)
    {
      KeyLinesAt(t, i, pretty);
    }
  }

  /** One more section follows the others, in a pretty file behind an empty line. */
  lemma {:induction false} GeneratedMore(data: Ini, name: string, t: Table<string>, pretty: bool)
    ensures GenLines(data + [(name, t)], pretty)
            == GenLines(data, pretty) + (if pretty && data != [] then [""] else []) + SectionLines(name, t, pretty)
  {
    var e, last := (name, t), SectionLines(name, t, pretty);
    hide SectionLines;
    if data == [] {
      assert data + [e] == [e];
      assert GenLines([], pretty) + [] + last == last;
    } else {
      var first, rest := SectionLines(data[0].0, data[0].1, pretty), data[1..];
      assert (data + [e])[0] == data[0] && (data + [e])[1..] == rest + [e];
      GeneratedMore(rest, name, t, pretty);
      var gap: seq<string> := if pretty then [""] else [];
      GapIs(GenLines(rest + [e], pretty), pretty);
      GapIs(GenLines(rest, pretty), pretty);
      hide GenLines, Gap;
      GapMoves(first, gap, GenLines(rest, pretty), last);
      assert rest == [] ==> GenLines(rest, pretty) == [];
    }
  }

  lemma GapIs(lines: seq<string>, pretty: bool)
    ensures Gap(lines, pretty) == (if pretty then [""] else []) + lines
  {
  }

  lemma GapMoves(first: seq<string>, gap: seq<string>, middle: seq<string>, last: seq<string>)
    ensures first + (gap + (middle + gap + last)) == first + (gap + middle) + gap + last
    ensures first + (gap + ([] + [] + last)) == first + gap + last
  {
  }

  /** The generated text is the generated lines, joined; nothing for no sections. */
  lemma GeneratedText(data: Ini, pretty: bool)
    ensures GenText(data, pretty) == if data == [] then "" else S.Join(GenLines(data, pretty), "\r\n")
  {
    if data != [] { JoinedMeans(GenLines(data, pretty)); }
  }
}

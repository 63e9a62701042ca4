/** `split_string`, on which the cheat compiler and the cheat file reader rest. */
module SplitString {
  import opened IniText

  /** The pieces of `s` between non-overlapping occurrences of `d`, leftmost first. */
  function Split(s: string, d: string): (r: seq<string>)
    requires d != []
    ensures r != []
  {
    if s == [] then [""]
    else if MatchAt(s, d, 0) then [""] + Split(s[|d|..], d)
    else Prefixed([s[0]], Split(s[1..], d))
  }

  lemma {:induction false} SplitSkip(s: string, d: string, pos: nat, at: nat)
    requires d != [] && pos <= at <= |s| && forall i :: pos <= i < at ==> !MatchAt(s, d, i)
    ensures var rest := Split(s[at..], d);
            Split(s[pos..], d) == [s[pos..at] + rest[0]] + rest[1..]
    decreases at - pos
  {
    var rest := Split(s[at..], d);
    if pos == at {
      assert s[pos..at] + rest[0] == rest[0];
    } else {
      MatchShift(s, d, pos, 0);
      hide MatchAt;
      SplitSkip(s, d, pos + 1, at);
      assert s[pos..][1..] == s[pos + 1..];
      assert s[pos..at] == [s[pos]] + s[pos + 1..at];
      SeqAssoc([s[pos]], s[pos + 1..at], rest[0]);
    }
  }

  /** One round of the loop. */
  lemma SplitRound(s: string, d: string, pos: nat, at: nat)
    requires d != [] && pos <= at && MatchAt(s, d, at) && forall i :: pos <= i < at ==> !MatchAt(s, d, i)
    ensures Split(s[pos..], d) == [s[pos..at]] + Split(s[at + |d|..], d)
  {
    MatchFits(s, d, at);
    MatchShift(s, d, at, 0);
    SplitSkip(s, d, pos, at);
    hide MatchAt;
    assert s[at..][|d|..] == s[at + |d|..];
    assert s[pos..at] + "" == s[pos..at];
  }

  lemma SplitEnd(s: string, d: string, pos: nat)
    requires d != [] && pos <= |s| && forall i :: pos <= i < |s| ==> !MatchAt(s, d, i)
    ensures Split(s[pos..], d) == [s[pos..]]
  {
    SplitSkip(s, d, pos, |s|);
    hide MatchAt;
    assert s[|s|..] == [];
    assert s[pos..|s|] + "" == s[pos..];
  }

  /** `split_string` with a delimiter that is not empty. */
  method SplitText(s: string, delimiter: string) returns (res: seq<string>)
    requires delimiter != []
    ensures res == Split(s, delimiter)
  {
    res := [];
    var posStart := 0;
    assert s[0..] == s;
    while true
      invariant posStart <= |s| && Split(s, delimiter) == res + Split(s[posStart..], delimiter)
      decreases |s| - posStart
    {
      var posEnd := Find(s, delimiter, posStart);
      hide MatchAt, Split;
      if posEnd.None? {
        SplitEnd(s, delimiter, posStart);
        break;
      }
      MatchFits(s, delimiter, posEnd.value);
      SplitRound(s, delimiter, posStart, posEnd.value);
      var token := s[posStart..posEnd.value];
      posStart := posEnd.value + |delimiter|;
      SeqAssoc(res, [token], Split(s[posStart..], delimiter));
      res := res + [token];
    }
    res := res + [s[posStart..]];
  }

  // ---------------------------------------------------------------- joining

  function Join(parts: seq<string>, d: string): string
    requires parts != []
  {
    if |parts| == 1 then parts[0] else parts[0] + (d + Join(parts[1..], d))
  }

  lemma JoinPrefixed(c: char, parts: seq<string>, d: string)
    requires parts != []
    ensures Join(Prefixed([c], parts), d) == [c] + Join(parts, d)
  {
    var p := Prefixed([c], parts);
    assert p[1..] == parts[1..];
    if |parts| > 1 {
      SeqAssoc([c], parts[0], d + Join(parts[1..], d));
    }
  }

  /** Joining undoes splitting. */
  lemma {:induction false} JoinSplit(s: string, d: string)
    requires d != []
    ensures Join(Split(s, d), d) == s
  {
    if s != [] {
      if MatchAt(s, d, 0) {
        JoinSplit(s[|d|..], d);
        var rest := Split(s[|d|..], d);
        assert ([""] + rest)[1..] == rest;
        assert s == d + s[|d|..];
        assert "" + (d + s[|d|..]) == d + s[|d|..];
      } else {
        JoinSplit(s[1..], d);
        hide MatchAt;
        JoinPrefixed(s[0], Split(s[1..], d), d);
        assert s == [s[0]] + s[1..];
      }
    }
  }

  /** No occurrence of `d` starts inside `p` when `p` is followed by `tail`. */
  ghost predicate Free(p: string, tail: string, d: string) {
    forall j :: 0 <= j < |p| ==> !MatchAt(p + tail, d, j)
  }

  /** `d` occurs in no part and straddles no end of a part. */
  ghost predicate Apart(parts: seq<string>, d: string)
    requires parts != []
  {
    if |parts| == 1 then Free(parts[0], "", d) else Free(parts[0], d, d) && Apart(parts[1..], d)
  }

  /** What follows the first delimiter does not matter. */
  lemma FreeInside(p: string, d: string, rest: string)
    requires d != []
    ensures Free(p, d, d) <==> forall j :: 0 <= j < |p| ==> !MatchAt(p + (d + rest), d, j)
  {
    var s := p + (d + rest);
    forall j | 0 <= j < |p| ensures MatchAt(s, d, j) <==> MatchAt(p + d, d, j) {
      assert s[..|p| + |d|] == p + d;
      assert s[j..j + |d|] == (p + d)[j..j + |d|];
    }
    hide MatchAt;
  }

  lemma JoinedMatch(p: string, d: string, rest: string)
    ensures MatchAt(p + (d + rest), d, |p|) && (p + (d + rest))[|p| + |d|..] == rest
    ensures (p + (d + rest))[..|p|] == p
  {
  }

  /** The first delimiter ends the first piece. */
  lemma FirstPiece(s: string, d: string)
    requires d != []
    ensures match Find(s, d, 0)
            case None => Split(s, d) == [s]
            case Some(at) => at + |d| <= |s| && Split(s, d) == [s[..at]] + Split(s[at + |d|..], d)
  {
    hide MatchAt, Split, Find;
    var f := Find(s, d, 0);
    WholeText(s);
    if f.None? {
      SplitEnd(s, d, 0);
    } else {
      MatchFits(s, d, f.value);
      SplitRound(s, d, 0, f.value);
      FromStart(s, f.value);
    }
  }

  lemma WholeText(s: string)
    ensures s[0..] == s
  {
  }

  lemma FromStart(s: string, n: nat)
    requires n <= |s|
    ensures s[0..n] == s[..n]
  {
  }

  lemma SomeMatch(s: string, d: string, at: nat)
    requires d != [] && MatchAt(s, d, at)
    ensures !Free(s, "", d)
  {
    SeqEmpty(s);
  }

  lemma FoundBy(s: string, d: string, at: nat)
    requires at <= |s| && MatchAt(s, d, at)
    ensures Find(s, d, 0).Some? && Find(s, d, 0).value <= at
  {
    if at == |s| { FindEnd(s, d, 0); }
  }

  lemma {:induction false} FindEnd(s: string, d: string, pos: nat)
    requires pos <= |s| && MatchAt(s, d, |s|)
    ensures Find(s, d, pos).Some?
    decreases |s| - pos
  {
    if pos < |s| { FindEnd(s, d, pos + 1); }
  }

  lemma SplitOne(p: string, d: string)
    requires d != []
    ensures Split(p, d) == [p] <==> Free(p, "", d)
  {
    hide MatchAt, Split;
    FirstPiece(p, d);
    SeqEmpty(p);
    var f := Find(p, d, 0);
    if f.Some? {
      SomeMatch(p, d, f.value);
    }
  }

  /** The delimiter is found at the end of the first part or before it. */
  lemma FreeBefore(p: string, d: string, rest: string)
    requires d != [] && Find(p + (d + rest), d, 0).Some? && Find(p + (d + rest), d, 0).value <= |p|
    ensures Free(p, d, d) <==> Find(p + (d + rest), d, 0).value == |p|
  {
    hide MatchAt, Find, Free;
    FreeInside(p, d, rest);
  }

  /** The first piece of joined parts is the first part exactly when the delimiter is not
      found before its end. */
  lemma SplitFirst(p: string, d: string, rest: string)
    requires d != []
    ensures Free(p, d, d) ==> Split(p + (d + rest), d) == [p] + Split(rest, d)
    ensures !Free(p, d, d) ==> Split(p + (d + rest), d)[0] != p
  {
    var s := p + (d + rest);
    hide MatchAt, Split, Find, Free;
    JoinedMatch(p, d, rest);
    FoundBy(s, d, |p|);
    FreeBefore(p, d, rest);
    FirstPiece(s, d);
  }

  /** Splitting undoes joining exactly when the delimiter occurs in no part and straddles no
      seam. */
  lemma {:induction false} SplitJoinExactly(parts: seq<string>, d: string)
    requires parts != [] && d != []
    ensures Split(Join(parts, d), d) == parts <==> Apart(parts, d)
  {
    hide MatchAt, Split, Free;
    assert parts == [parts[0]] + parts[1..];
    if |parts| == 1 {
      SplitOne(parts[0], d);
    } else {
      SplitJoinExactly(parts[1..], d);
      SplitFirst(parts[0], d, Join(parts[1..], d));
    }
  }

  // ---------------------------------------------------------------- lines

  /** The lines of a text. */
  function Lines(s: string): (r: seq<string>)
    ensures r != []
  {
    Split(s, "\n")
  }

  lemma LineStep(s: string)
    requires s != []
    ensures Lines(s) == if s[0] == '\n' then [""] + Lines(s[1..]) else Prefixed([s[0]], Lines(s[1..]))
  {
    assert MatchAt(s, "\n", 0) <==> s[0] == '\n';
  }

  lemma LineEmpty()
    ensures Lines("") == [""]
  {
  }

  /** A break between two texts is a break between their lines. */
  lemma {:induction false} LinesConcat(x: string, y: string)
    ensures Lines(x + ("\n" + y)) == Lines(x) + Lines(y)
  {
    hide Lines;
    var whole := x + ("\n" + y);
    LineStep(whole);
    if x == [] {
      LineEmpty();
      assert whole[1..] == y;
    } else {
      LineStep(x);
      assert whole[1..] == x[1..] + ("\n" + y);
      LinesConcat(x[1..], y);
      PrefixedConcat(x[0], Lines(x[1..]), Lines(y));
    }
  }

  lemma PrefixedConcat(c: char, x: seq<string>, y: seq<string>)
    requires x != []
    ensures Prefixed([c], x + y) == Prefixed([c], x) + y
  {
    assert (x + y)[1..] == x[1..] + y;
  }

  /** A text without a break is one line. */
  lemma {:induction false} OneLine(s: string)
    requires '\n' !in s
    ensures Lines(s) == [s]
  {
    hide Lines;
    if s == [] {
      LineEmpty();
    } else {
      LineStep(s);
      OneLine(s[1..]);
      assert [s[0]] + s[1..] == s;
    }
  }

  /** Lines have no breaks. */
  lemma {:induction false} LinesClean(s: string, i: nat)
    requires i < |Lines(s)|
    ensures '\n' !in Lines(s)[i]
  {
    hide Lines;
    if s == [] {
      LineEmpty();
    } else {
      LineStep(s);
      if s[0] == '\n' {
        if i > 0 { LinesClean(s[1..], i - 1); }
      } else {
        LinesClean(s[1..], i);
        LinesClean(s[1..], 0);
      }
    }
  }

  /** Splitting into lines undoes joining lines. */
  lemma SplitJoin(parts: seq<string>)
    requires parts != [] && forall i :: 0 <= i < |parts| ==> '\n' !in parts[i]
    ensures Lines(Join(parts, "\n")) == parts
  {
    LinesApart(parts);
    SplitJoinExactly(parts, "\n");
  }

  lemma LineFree(p: string, tail: string)
    requires '\n' !in p
    ensures Free(p, tail, "\n")
  {
    forall j | 0 <= j < |p| ensures !MatchAt(p + tail, "\n", j) {
      assert (p + tail)[j] == p[j];
    }
  }

  lemma {:induction false} LinesApart(parts: seq<string>)
    requires parts != [] && forall i :: 0 <= i < |parts| ==> '\n' !in parts[i]
    ensures Apart(parts, "\n")
  {
    LineFree(parts[0], "\n");
    LineFree(parts[0], "");
    if |parts| > 1 {
      LinesApart(parts[1..]);
    }
  }
}

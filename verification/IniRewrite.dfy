/** Replacing the value of an existing line, as the lazy writer does it. */
module IniRewrite {
  import opened Options
  import opened IniText
  import opened IniParser

  /** `line` up to the first visible character of its tail `u`, then `n`; a pretty
      writer puts a space behind a '=' that had none. */
  function Exchange(line: string, u: string, n: string, pretty: bool): string
    requires |u| <= |line|
  {
    var w := TrimLeft(u);
    if w == [] then line + n
    else line[..|line| - |w|] + (if pretty && |w| == |u| then " " else "") + n
  }

  /** The line with its value exchanged: the tail behind the '=' is looked at with every
      `\=` blanked out. */
  function RewriteLine(line: string, newValue: string, pretty: bool): string {
    var norm := Blank(line);
    var from := match IndexOf(norm, '=') case Some(e) => e + 1 case None => 0;
    Exchange(line, norm[from..], Trim(newValue), pretty)
  }

  /** The same on the text behind the '='. */
  function RewriteTail(x: string, newValue: string, pretty: bool): string {
    Exchange(x, Blank(x), Trim(newValue), pretty)
  }

  // ---------------------------------------------------------------- the head of a line

  /** A key line is space, a head and the rest. */
  ghost predicate Splits(line: string, a: string, l: string, x: string) {
    AllSpace(a) && KeyHead(l) && line == a + (l + x)
  }

  lemma {:induction false} IndexOfTaken(s: string, c: char, i: nat)
    requires IndexOf(s, c) == Some(i)
    ensures s[i] == c && IndexOf(s[..i + 1], c) == Some(i)
  {
    if s[0] != c {
      IndexOfTaken(s[1..], c, i - 1);
      assert s[..i + 1][1..] == s[1..][..i];
    } else {
      assert s[..1][0] == c;
    }
  }

  /** The text up to and including index `e`. */
  function UpTo(t: string, e: nat): string
    requires e < |t|
  {
    t[..e + 1]
  }

  lemma HeadTaken(t: string, e: nat)
    requires IndexOf(Blank(t), '=') == Some(e)
    ensures e < |t| && t[e] == '=' && IndexOf(Blank(t[..e + 1]), '=') == Some(e)
  {
    IndexOfTaken(Blank(t), '=', e);
    BlankBehind(t, e);
    BlankUpTo(t, e);
    hide Blank, IndexOf;
  }

  /** The head of a trimmed key line. */
  lemma HeadFound(t: string, e: nat)
    requires t != [] && !IsSpace(t[0]) && t[0] != ';' && t[0] != '[' && IndexOf(Blank(t), '=') == Some(e)
    ensures e < |t| && KeyHead(UpTo(t, e))
  {
    hide Blank, IndexOf, IsSpace, UpTo;
    HeadTaken(t, e);
    UpToFacts(t, e);
  }

  lemma UpToFacts(t: string, e: nat)
    requires e < |t|
    ensures UpTo(t, e) == t[..e + 1] && |UpTo(t, e)| == e + 1
    ensures UpTo(t, e)[0] == t[0] && UpTo(t, e)[|UpTo(t, e)| - 1] == t[e]
  {
  }

  /** Every line that parses as a key and does not start like a section splits at a head
      that determines its key and value. */
  lemma LineSplits(line: string) returns (a: string, l: string, x: string)
    requires ParseLine(line).KeyValue? && Trim(line)[0] != '['
    ensures Splits(line, a, l, x)
    ensures ParseLine(line) == KeyValue(Unescape(Trim(Front(l))), Trim(x))
  {
    var t := Trim(line);
    TrimSplit(line);
    TrimTrimmed(line);
    assert ParseLine(line) == ParseKey(t);
    var e := IndexOf(Blank(t), '=').value;
    HeadFound(t, e);
    a, l := Lead(line), UpTo(t, e);
    hide ParseKey, Trim, Lead, Trail, Blank, IndexOf, AllSpace, KeyHead;
    Rejoin(t, e + 1);
    x := t[e + 1..] + Trail(line);
    SeqAssoc(l, t[e + 1..], Trail(line));
    SeqAssoc(a, t, Trail(line));
    KeyLine(a, l, x);
  }

  // ---------------------------------------------------------------- rewriting acts on the rest

  lemma SpaceEnd(a: string)
    requires AllSpace(a)
    ensures '=' !in a && (a != [] ==> a[|a| - 1] != '\\')
  {
  }

  lemma BlankSplit(a: string, l: string, x: string)
    requires AllSpace(a) && KeyHead(l)
    ensures Blank(a + (l + x)) == a + (Blank(l) + Blank(x))
  {
    SpaceEnd(a);
    hide Blank, AllSpace;
    BlankConcat(a, l + x);
    BlankSpace(a);
    BlankConcat(l, x);
  }

  lemma SplitIndex(a: string, l: string, x: string)
    requires AllSpace(a) && KeyHead(l)
    ensures IndexOf(Blank(a + (l + x)), '=') == Some(|a| + |l| - 1)
  {
    BlankSplit(a, l, x);
    SpaceEnd(a);
    hide Blank, AllSpace, IndexOf;
    IndexOfPrefix(Blank(l), Blank(x), '=');
    IndexOfShift(a, Blank(l) + Blank(x), '=');
  }

  lemma DropTwo(a: string, l: string, x: string)
    ensures (a + (l + x))[|a| + |l|..] == x
  {
  }

  lemma TakeInto(a: string, l: string, x: string, n: nat)
    requires n <= |x|
    ensures (a + (l + x))[..|a| + |l| + n] == a + (l + x[..n])
  {
  }

  lemma ExchangeBehind(a: string, l: string, x: string, u: string, n: string, pretty: bool)
    requires |u| == |x|
    ensures Exchange(a + (l + x), u, n, pretty) == a + (l + Exchange(x, u, n, pretty))
  {
    hide TrimLeft;
    var w := TrimLeft(u);
    if w == [] {
      SeqAssoc(a, l + x, n);
      SeqAssoc(l, x, n);
    } else {
      var k, pad := |x| - |w|, if pretty && |w| == |u| then " " else "";
      TakeInto(a, l, x, k);
      Regroup5(a, l, x[..k], pad, n);
    }
  }

  /** Only the rest of the line changes. */
  lemma RewriteActsOnTail(a: string, l: string, x: string, newValue: string, pretty: bool)
    requires AllSpace(a) && KeyHead(l)
    ensures RewriteLine(a + (l + x), newValue, pretty) == a + (l + RewriteTail(x, newValue, pretty))
  {
    SplitIndex(a, l, x);
    BlankSplit(a, l, x);
    DropTwo(a, Blank(l), Blank(x));
    hide Blank, AllSpace, IndexOf, KeyHead, Trim, Exchange;
    ExchangeBehind(a, l, x, Blank(x), Trim(newValue), pretty);
  }

  lemma Regroup5(a: string, l: string, y: string, pad: string, n: string)
    ensures ((a + (l + y)) + pad) + n == a + (l + ((y + pad) + n))
  {
    SeqAssoc(a, l + y, pad);
    SeqAssoc(l, y, pad);
    SeqAssoc(a, l + (y + pad), n);
    SeqAssoc(l, y + pad, n);
  }

  // ---------------------------------------------------------------- the new value

  lemma {:induction false} TrimLeftSkip(a: string, m: string)
    requires AllSpace(a)
    ensures TrimLeft(a + m) == TrimLeft(m)
  {
    if a == [] {
      assert a + m == m;
    } else {
      assert (a + m)[1..] == a[1..] + m;
      TrimLeftSkip(a[1..], m);
    }
  }

  lemma SpaceConcat(a: string, b: string)
    requires AllSpace(a) && AllSpace(b)
    ensures AllSpace(a + b)
  {
    hide IsSpace;
  }

  lemma TrimBehindSpace(a: string, n: string)
    requires AllSpace(a) && Trimmed(n)
    ensures Trim(a + n) == n
  {
    hide AllSpace, Trimmed, Trim;
    assert AllSpace([]) by { EmptySpace(); }
    TrimIs(a, n, []);
    SeqEmpty(a + n);
  }

  lemma EmptySpace()
    ensures AllSpace("") && AllSpace(" ")
  {
  }

  lemma PadSpace(b: bool)
    ensures AllSpace(if b then " " else "")
  {
  }

  /** The rest of a line around its value. */
  lemma RestParts(x: string)
    ensures AllSpace(Lead(x)) && AllSpace(Trail(x)) && x == Lead(x) + (Trim(x) + Trail(x))
  {
    TrimSplit(x);
    hide AllSpace, Lead, Trail, Trim;
    SeqAssoc(Lead(x), Trim(x), Trail(x));
  }

  lemma AllSpaceTail(x: string, n: string, pretty: bool)
    requires AllSpace(x) && Trimmed(n)
    ensures Trim(Exchange(x, Blank(x), n, pretty)) == n
  {
    BlankSpace(x);
    TrimLeftSkip(x, "");
    SeqEmpty(x);
    hide AllSpace, Blank, Trim, Trimmed, TrimLeft;
    assert TrimLeft("") == "" by { TrimLeftEmpty(); }
    TrimBehindSpace(x, n);
  }

  lemma TrimLeftEmpty()
    ensures TrimLeft("") == ""
  {
  }

  /** Blanking leaves a value alone that does not start with `\=`. */
  lemma BlankShows(s: string, v: string, tr: string)
    requires AllSpace(s) && AllSpace(tr) && v != [] && !IsSpace(v[0]) && !StartsEscaped(v)
    ensures TrimLeft(Blank(s + (v + tr))) == Blank(v + tr)
  {
    SpaceEnd(s);
    var rest := v + tr;
    assert !StartsEscaped(rest) by {
      if |v| == 1 && tr != [] { assert rest[1] == tr[0]; }
    }
    assert Blank(rest)[0] == rest[0];
    BlankConcat(s, rest);
    BlankSpace(s);
    hide Blank;
    TrimLeftIs(s, Blank(rest));
  }

  lemma PlainTail(s: string, v: string, tr: string, n: string, pretty: bool)
    requires AllSpace(s) && AllSpace(tr) && v != [] && !IsSpace(v[0]) && !StartsEscaped(v) && Trimmed(n)
    ensures var x := s + (v + tr); Trim(Exchange(x, Blank(x), n, pretty)) == n
  {
    BlankShows(s, v, tr);
    var x := s + (v + tr);
    var pad := if pretty && |v + tr| == |x| then " " else "";
    hide AllSpace, Blank, Trim, Trimmed, TrimLeft, IsSpace;
    assert x[..|x| - |v + tr|] == s;
    assert Exchange(x, Blank(x), n, pretty) == s + pad + n;
    PadSpace(pretty && |v + tr| == |x|);
    SpaceConcat(s, pad);
    TrimBehindSpace(s + pad, n);
  }

  lemma TrimSkip(a: string, k: string)
    requires AllSpace(a)
    ensures Trim(a + k) == Trim(k)
  {
    RestParts(k);
    TrimTrimmed(k);
    SpaceConcat(a, Lead(k));
    hide AllSpace, Trim, Lead, Trail, Trimmed;
    SeqAssoc(a, Lead(k), Trim(k) + Trail(k));
    SeqAssoc(a + Lead(k), Trim(k), Trail(k));
    TrimIs(a + Lead(k), Trim(k), Trail(k));
  }

  /** A visible start is never trimmed away. */
  lemma VisibleStart(s: string, q: string, n: string)
    requires AllSpace(s) && q != [] && !IsSpace(q[0]) && Trimmed(n)
    ensures Trim(s + (q + n)) != n
  {
    hide AllSpace, Trim;
    TrimSkip(s, q + n);
    if n == [] {
      SeqEmpty(q);
      TrimKeeps(q);
    } else {
      assert (q + n)[0] == q[0] && (q + n)[|q + n| - 1] == n[|n| - 1];
      TrimFixed(q + n);
    }
  }

  lemma {:induction false} TrimRightKeeps(q: string)
    requires q != [] && !IsSpace(q[0])
    ensures TrimRight(q) != [] && TrimRight(q)[0] == q[0]
  {
    if IsSpace(q[|q| - 1]) {
      TrimRightKeeps(q[..|q| - 1]);
    }
  }

  lemma TrimKeeps(q: string)
    requires q != [] && !IsSpace(q[0])
    ensures Trim(q) != []
  {
    TrimRightKeeps(q);
  }

  /** A value that starts with `\=` looks like space, so its front stays in the line. */
  lemma SwallowedTail(s: string, v: string, tr: string, n: string, pretty: bool)
    requires AllSpace(s) && StartsEscaped(v) && Trimmed(n)
    ensures var x := s + (v + tr); Trim(Exchange(x, Blank(x), n, pretty)) != n
  {
    var rest, x := v + tr, s + (v + tr);
    var w := TrimLeft(Blank(x));
    HiddenStart(s, v, tr);
    hide AllSpace, Blank, Trim, Trimmed, TrimLeft;
    if w == [] {
      SeqAssoc(s, rest, n);
      VisibleStart(s, rest, n);
    } else {
      var m, pad := |rest| - |w|, if pretty && |w| == |x| then " " else "";
      assert x[..|x| - |w|] == s + rest[..m];
      SeqAssoc(s, rest[..m], pad);
      SeqAssoc(s, rest[..m] + pad, n);
      VisibleStart(s, rest[..m] + pad, n);
    }
  }

  lemma HiddenStart(s: string, v: string, tr: string)
    requires AllSpace(s) && StartsEscaped(v)
    ensures |TrimLeft(Blank(s + (v + tr)))| + 2 <= |v + tr| && (v + tr)[0] == '\\'
  {
    SpaceEnd(s);
    var rest := v + tr;
    assert StartsEscaped(rest);
    BlankConcat(s, rest);
    BlankSpace(s);
    var b := Blank(rest[2..]);
    assert Blank(rest) == "  " + b;
    hide Blank;
    TrimLeftSkip(s, "  " + b);
    TrimLeftSkip("  ", b);
  }

  /** The rewritten value is the new one exactly when the old one does not start with `\=`. */
  lemma RewrittenTail(x: string, newValue: string, pretty: bool)
    ensures Trim(RewriteTail(x, newValue, pretty)) == Trim(newValue) <==> !StartsEscaped(Trim(x))
  {
    var n := Trim(newValue);
    TrimTrimmed(newValue);
    TrimTrimmed(x);
    RestParts(x);
    var s, v, tr := Lead(x), Trim(x), Trail(x);
    if v == [] {
      SeqEmpty(tr);
      SpaceConcat(s, tr);
      hide AllSpace, Lead, Trail, Exchange, Blank;
      AllSpaceTail(x, n, pretty);
    } else if StartsEscaped(v) {
      SwallowedTail(s, v, tr, n, pretty);
    } else {
      PlainTail(s, v, tr, n, pretty);
    }
  }

  /** A rewritten line keeps its key, and gets the new value exactly when the old value
      does not start with `\=`. */
  lemma RewrittenLine(line: string, newValue: string, pretty: bool)
    requires ParseLine(line).KeyValue? && Trim(line)[0] != '['
    ensures var r := ParseLine(RewriteLine(line, newValue, pretty));
            && r.KeyValue? && r.key == ParseLine(line).key
            && (r.value == Trim(newValue) <==> !StartsEscaped(ParseLine(line).value))
  {
    var a, l, x := LineSplits(line);
    RewriteActsOnTail(a, l, x, newValue, pretty);
    KeyLine(a, l, RewriteTail(x, newValue, pretty));
    RewrittenTail(x, newValue, pretty);
  }

  // ---------------------------------------------------------------- lines that stay as they are

  /** The text behind the '=' with every `\=` blanked out. */
  function Behind(line: string): (r: string)
    ensures |r| <= |line|
  {
    var norm := Blank(line);
    norm[match IndexOf(norm, '=') case Some(e) => e + 1 case None => 0..]
  }

  /** What the edit replaces: the line from its first visible character behind the '='. */
  function Replaced(line: string): string {
    line[|line| - |TrimLeft(Behind(line))|..]
  }

  /** Nothing stands between the '=' and that character. */
  predicate Glued(line: string) {
    |TrimLeft(Behind(line))| == |Behind(line)|
  }

  lemma {:induction false} BlankVisible(s: string, e: nat)
    requires e < |s| && !IsSpace(Blank(s)[e])
    ensures s[e] == Blank(s)[e]
  {
    var n := BlankStep(s);
    BlankSteps(s);
    if e >= n {
      BlankVisible(s[n..], e - n);
    }
  }

  lemma ReplacedVisible(line: string)
    ensures Replaced(line) != [] ==> !IsSpace(Replaced(line)[0])
  {
    var u := Behind(line);
    var w := TrimLeft(u);
    TrimLeftSpec(u);
    hide TrimLeft, IsSpace;
    if w != [] {
      var at := |line| - |w|;
      assert Blank(line)[at] == w[0];
      BlankVisible(line, at);
    }
  }

  /** An edit leaves the line as it is exactly when it puts back what it replaces, without
      a space in front. */
  lemma RewriteSame(line: string, newValue: string, pretty: bool)
    ensures RewriteLine(line, newValue, pretty) == line
            <==> Trim(newValue) == Replaced(line) && (pretty && Glued(line) ==> Replaced(line) == [])
  {
    ReplacedVisible(line);
    var w, n := Replaced(line), Trim(newValue);
    var front := line[..|line| - |w|];
    assert line == front + w;
    assert RewriteLine(line, newValue, pretty)
        == if w == [] then line + n else front + (if pretty && Glued(line) then " " else "") + n;
    hide RewriteLine, Replaced, Trim, Glued;
    if w != [] {
      if pretty && Glued(line) {
        assert (front + " " + n)[|front|] == ' ';
        assert line[|front|] == w[0];
      } else {
        SameBehind(front, n, w);
      }
    }
  }

  lemma SameBehind(a: string, x: string, y: string)
    ensures a + "" + x == a + y <==> x == y
  {
    assert (a + "" + x)[|a|..] == x;
    assert (a + y)[|a|..] == y;
  }
}

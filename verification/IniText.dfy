/** The string helpers of the INI library. */
module IniText {
  import opened Options

  // ---------------------------------------------------------------- trimming

  /** `whitespaceDelimiters`. */
  predicate IsSpace(c: char) {
    c == ' ' || c == '\t' || c == '\n' || c == '\r' || c == '\U{000C}' || c == '\U{000B}'
  }

  predicate AllSpace(s: string) {
    forall i :: 0 <= i < |s| ==> IsSpace(s[i])
  }

  function TrimRight(s: string): (r: string)
    ensures |r| <= |s|
  {
    if s == [] || !IsSpace(s[|s| - 1]) then s else TrimRight(s[..|s| - 1])
  }

  lemma {:induction false} TrimRightSpec(s: string)
    ensures var r := TrimRight(s);
            r <= s && (r == [] || !IsSpace(r[|r| - 1])) && AllSpace(s[|r|..])
  {
    if s != [] && IsSpace(s[|s| - 1]) {
      TrimRightSpec(s[..|s| - 1]);
    }
  }

  function TrimLeft(s: string): (r: string)
    ensures |r| <= |s|
  {
    if s == [] || !IsSpace(s[0]) then s else TrimLeft(s[1..])
  }

  lemma {:induction false} TrimLeftSpec(s: string)
    ensures var r := TrimLeft(s);
            r == s[|s| - |r|..] && (r == [] || !IsSpace(r[0])) && AllSpace(s[..|s| - |r|])
  {
    if s != [] && IsSpace(s[0]) {
      TrimLeftSpec(s[1..]);
    }
  }

  /** `INIStringUtil::trim`. */
  function Trim(s: string): string {
    TrimLeft(TrimRight(s))
  }

  /** A text that trimming leaves alone. */
  predicate Trimmed(s: string) {
    s == [] || (!IsSpace(s[0]) && !IsSpace(s[|s| - 1]))
  }

  /** Trimming takes away the space around a trimmed middle. */
  lemma TrimIs(a: string, m: string, b: string)
    requires AllSpace(a) && AllSpace(b) && Trimmed(m)
    ensures Trim(a + m + b) == m
  {
    TrimRightIs(a + m, b, m == []);
    if m == [] {
      assert a + m + b == a + b;
      TrimRightIs([], a + b, true);
    } else {
      TrimLeftIs(a, m);
    }
  }

  lemma {:induction false} TrimRightIs(x: string, b: string, blank: bool)
    requires AllSpace(b) && (blank ==> AllSpace(x)) && (!blank ==> x != [] && !IsSpace(x[|x| - 1]))
    ensures TrimRight(x + b) == if blank then [] else x
    decreases |x| + |b|
  {
    if b != [] {
      assert (x + b)[..|x + b| - 1] == x + b[..|b| - 1];
      TrimRightIs(x, b[..|b| - 1], blank);
    } else {
      assert x + b == x;
      if blank && x != [] {
        TrimRightIs(x[..|x| - 1], [], true);
        assert x[..|x| - 1] + [] == x[..|x| - 1];
      }
    }
  }

  lemma {:induction false} TrimLeftIs(a: string, m: string)
    requires AllSpace(a) && m != [] && !IsSpace(m[0])
    ensures TrimLeft(a + m) == m
  {
    if a == [] {
      assert a + m == m;
    } else {
      assert (a + m)[1..] == a[1..] + m;
      TrimLeftIs(a[1..], m);
    }
  }

  lemma TrimTrimmed(s: string)
    ensures Trimmed(Trim(s))
  {
    TrimRightSpec(s);
    TrimLeftSpec(TrimRight(s));
    hide IsSpace, TrimRight, TrimLeft, AllSpace;
    var r := TrimRight(s);
    var t := TrimLeft(r);
    if t != [] { assert t[|t| - 1] == r[|r| - 1]; }
  }

  /** A trimmed text is a fixed point. */
  lemma TrimFixed(t: string)
    requires Trimmed(t)
    ensures Trim(t) == t
  {
    hide IsSpace, Trim, Trimmed;
    TrimIs([], t, []);
    assert [] + t + [] == t;
  }

  /** What trimming takes away in front and behind. */
  function Lead(s: string): string {
    TrimRight(s)[..|TrimRight(s)| - |Trim(s)|]
  }

  function Trail(s: string): string {
    s[|TrimRight(s)|..]
  }

  lemma TrimSplit(s: string)
    ensures AllSpace(Lead(s)) && AllSpace(Trail(s)) && s == Lead(s) + Trim(s) + Trail(s)
  {
    TrimRightSpec(s);
    TrimLeftSpec(TrimRight(s));
    hide IsSpace, TrimRight, TrimLeft, AllSpace;
    var r := TrimRight(s);
    assert r == Lead(s) + Trim(s) && s == r + Trail(s);
  }

  // ---------------------------------------------------------------- case folding

  function LowerChar(c: char): char {
    if 'A' <= c <= 'Z' then c - 'A' + 'a' else c
  }

  lemma LowerFacts(c: char)
    ensures LowerChar(LowerChar(c)) == LowerChar(c)
    ensures IsSpace(LowerChar(c)) <==> IsSpace(c)
    ensures LowerChar(c) == '[' <==> c == '['
    ensures LowerChar(c) == ';' <==> c == ';'
  {
  }

  /** `INIStringUtil::toLower`. */
  function ToLower(s: string): (r: string)
    ensures |r| == |s| && forall i :: 0 <= i < |s| ==> r[i] == LowerChar(s[i])
  {
    seq(|s|, i requires 0 <= i < |s| => LowerChar(s[i]))
  }

  /** How a map files a key. */
  function Norm(key: string): string {
    ToLower(Trim(key))
  }

  predicate IsNorm(key: string) {
    Norm(key) == key
  }

  lemma NormIdempotent(key: string)
    ensures IsNorm(Norm(key)) && Trimmed(Norm(key))
  {
    TrimTrimmed(key);
    LowerTrimmed(Trim(key));
    TrimFixed(Norm(key));
    LowerTwice(Trim(key));
  }

  lemma LowerTrimmed(t: string)
    requires Trimmed(t)
    ensures Trimmed(ToLower(t))
  {
    if t != [] {
      LowerFacts(t[0]);
      LowerFacts(t[|t| - 1]);
    }
  }

  lemma LowerTwice(t: string)
    ensures ToLower(ToLower(t)) == ToLower(t)
  {
    forall i | 0 <= i < |t|
      ensures LowerChar(ToLower(t)[i]) == ToLower(t)[i]
    {
      LowerFacts(t[i]);
    }
  }

  // ---------------------------------------------------------------- searching

  /** `a` occurs in `s` at index `i`. */
  predicate MatchAt(s: string, a: string, i: nat) {
    i + |a| <= |s| && s[i..i + |a|] == a
  }

  /** `find(a, pos)`. */
  function Find(s: string, a: string, pos: nat): (r: Option<nat>)
    requires pos <= |s|
    ensures r.Some? ==> pos <= r.value <= |s| && MatchAt(s, a, r.value)
    ensures forall i :: pos <= i < (if r.Some? then r.value else |s|) ==> !MatchAt(s, a, i)
    decreases |s| - pos
  {
    if MatchAt(s, a, pos) then Some(pos)
    else if pos == |s| then None
    else Find(s, a, pos + 1)
  }

  /** First index of a character. */
  function IndexOf(s: string, c: char): (r: Option<nat>)
    ensures r.Some? ==> r.value < |s|
  {
    if s == [] then None
    else if s[0] == c then Some(0)
    else match IndexOf(s[1..], c)
      case None => None
      case Some(i) => Some(i + 1)
  }

  lemma {:induction false} IndexOfSpec(s: string, c: char)
    ensures match IndexOf(s, c)
            case Some(i) => s[i] == c && c !in s[..i]
            case None => c !in s
  {
    if s != [] && s[0] != c {
      IndexOfSpec(s[1..], c);
      var r := IndexOf(s[1..], c);
      if r.Some? { assert s[..r.value + 1] == [s[0]] + s[1..][..r.value]; }
    }
  }

  /** Last index of a character. */
  function LastIndexOf(s: string, c: char): (r: Option<nat>)
    ensures r.Some? ==> r.value < |s|
  {
    if s == [] then None
    else if s[|s| - 1] == c then Some(|s| - 1)
    else LastIndexOf(s[..|s| - 1], c)
  }

  // ---------------------------------------------------------------- replacing

  /** Leftmost, non-overlapping replacement of `a` by `b`. */
  function Replace(s: string, a: string, b: string): string
    requires a != []
  {
    if s == [] then []
    else if MatchAt(s, a, 0) then b + Replace(s[|a|..], a, b)
    else [s[0]] + Replace(s[1..], a, b)
  }

  lemma MatchShift(s: string, a: string, k: nat, i: nat)
    requires k <= |s|
    ensures MatchAt(s[k..], a, i) <==> MatchAt(s, a, k + i)
  {
    if i + |a| <= |s| - k {
      assert s[k..][i..i + |a|] == s[k + i..k + i + |a|];
    }
  }

  /** Replacing starts after any stretch without a match. */
  lemma {:induction false} ReplaceSkip(s: string, a: string, b: string, pos: nat, at: nat)
    requires a != [] && pos <= at <= |s| && forall i :: pos <= i < at ==> !MatchAt(s, a, i)
    ensures Replace(s[pos..], a, b) == s[pos..at] + Replace(s[at..], a, b)
    decreases at - pos
  {
    if pos == at {
      assert s[pos..at] == [];
    } else {
      MatchShift(s, a, pos, 0);
      hide MatchAt;
      ReplaceSkip(s, a, b, pos + 1, at);
      assert s[pos..][1..] == s[pos + 1..];
      assert s[pos..at] == [s[pos]] + s[pos + 1..at];
    }
  }

  lemma MatchFits(s: string, a: string, i: nat)
    requires MatchAt(s, a, i)
    ensures i + |a| <= |s|
  {
  }

  /** One round of the replacing loop: a match at `at`, everything before it settled. */
  lemma ReplaceRound(s: string, a: string, b: string, pos: nat, at: nat)
    requires a != [] && pos <= at && MatchAt(s, a, at)
    requires forall i :: pos <= i < at ==> !MatchAt(s, a, i)
    ensures s[..pos] + Replace(s[pos..], a, b) == (s[..at] + b) + Replace(s[at + |a|..], a, b)
  {
    MatchFits(s, a, at);
    MatchShift(s, a, at, 0);
    ReplaceSkip(s, a, b, pos, at);
    hide MatchAt;
    assert s[at..][|a|..] == s[at + |a|..];
    assert s[..pos] + s[pos..at] == s[..at];
    Regroup(s[..pos], s[pos..at], b, Replace(s[at + |a|..], a, b));
  }

  lemma SeqAssoc<T>(x: seq<T>, y: seq<T>, z: seq<T>)
    ensures (x + y) + z == x + (y + z)
  {
  }

  lemma SeqEmpty<T>(x: seq<T>)
    ensures x + [] == x && [] + x == x
  {
  }

  lemma Rejoin(s: string, k: nat)
    requires k <= |s|
    ensures s[..k] + s[k..] == s
  {
  }

  /** Lines with `b` in front of the first. */
  function Prefixed(b: string, lines: seq<string>): seq<string>
    requires lines != []
  {
    [b + lines[0]] + lines[1..]
  }

  lemma PrefixedEmpty(lines: seq<string>)
    requires lines != []
    ensures Prefixed("", lines) == lines
  {
    assert "" + lines[0] == lines[0];
  }

  /** A text without its last character. */
  function Front(s: string): string
    requires s != []
  {
    s[..|s| - 1]
  }

  lemma FrontConcat(x: string, y: string)
    requires y != []
    ensures Front(x + y) == x + Front(y)
  {
  }

  lemma Regroup(x: string, y: string, z: string, w: string)
    ensures x + (y + (z + w)) == ((x + y) + z) + w
  {
  }

  lemma ReplaceLast(s: string, a: string, b: string, pos: nat)
    requires a != [] && pos <= |s| && forall i :: pos <= i < |s| ==> !MatchAt(s, a, i)
    ensures s[..pos] + Replace(s[pos..], a, b) == s
  {
    ReplaceSkip(s, a, b, pos, |s|);
  }

  /** `INIStringUtil::replace`: the in-place loop computes the replacement. */
  method ReplaceLoop(str0: string, a: string, b: string) returns (str: string)
    ensures a == [] ==> str == str0
    ensures a != [] ==> str == Replace(str0, a, b)
  {
    str := str0;
    if a != [] {
      hide Replace, Find, MatchAt;
      var pos := 0;
      assert str[0..] == str0 && str[..0] + Replace(str0, a, b) == Replace(str0, a, b);
      var found := Find(str, a, pos);
      while found.Some?
        invariant pos <= |str| && found == Find(str, a, pos)
        invariant Replace(str0, a, b) == str[..pos] + Replace(str[pos..], a, b)
        decreases |str| - pos
      {
        var at := found.value;
        MatchFits(str, a, at);
        ReplaceRound(str, a, b, pos, at);
        ghost var head, tail := str[..at] + b, str[at + |a|..];
        str := str[..at] + b + str[at + |a|..];
        pos := at + |b|;
        assert str[pos..] == tail && str[..pos] == head;
        found := Find(str, a, pos);
      }
      ReplaceLast(str, a, b, pos);
    }
  }

  // ---------------------------------------------------------------- the escape of '='

  /** A `\=` at the front. */
  predicate StartsEscaped(s: string) {
    2 <= |s| && s[0] == '\\' && s[1] == '='
  }

  /** `\=` blanked out: what the parser searches for the separating '='. */
  function Blank(s: string): (r: string)
    ensures |r| == |s|
  {
    if s == [] then [] else if StartsEscaped(s) then "  " + Blank(s[2..]) else [s[0]] + Blank(s[1..])
  }

  function Escape(k: string): string {
    if k == [] then [] else (if k[0] == '=' then "\\=" else [k[0]]) + Escape(k[1..])
  }

  function Unescape(s: string): string {
    if s == [] then [] else if StartsEscaped(s) then "=" + Unescape(s[2..]) else [s[0]] + Unescape(s[1..])
  }

  /** The three uses of `replace` in the library. */
  lemma {:induction false} EscapesAreReplacements(s: string)
    ensures Blank(s) == Replace(s, "\\=", "  ")
    ensures Unescape(s) == Replace(s, "\\=", "=")
    ensures Escape(s) == Replace(s, "=", "\\=")
  {
    if s != [] {
      EscapesAreReplacements(s[1..]);
      assert StartsEscaped(s) <==> MatchAt(s, "\\=", 0);
      assert s[0] == '=' <==> MatchAt(s, "=", 0);
      if |s| == 1 {
        assert s == [s[0]] && s[1..] == [];
      } else {
        EscapesAreReplacements(s[2..]);
      }
    }
  }

  /** Unescaping undoes escaping, for every key. */
  lemma {:induction false} UnescapeEscape(k: string)
    ensures Unescape(Escape(k)) == k
  {
    if k != [] {
      UnescapeEscape(k[1..]);
      EscapeStart(k[1..]);
      var e := Escape(k);
      if k[0] == '=' {
        assert e[2..] == Escape(k[1..]);
      } else {
        assert e[1..] == Escape(k[1..]) && !StartsEscaped(e);
      }
    }
  }

  /** Escaped text never starts with a bare '='. */
  lemma EscapeStart(k: string)
    ensures Escape(k) == [] <==> k == []
    ensures k != [] ==> Escape(k)[0] == if k[0] == '=' then '\\' else k[0]
  {
  }

  /** ... and ends as the key does. */
  lemma {:induction false} EscapeEnd(k: string)
    requires k != []
    ensures Escape(k) != [] && Escape(k)[|Escape(k)| - 1] == k[|k| - 1]
  {
    if |k| > 1 {
      EscapeEnd(k[1..]);
    }
  }

  /** Blanked escaped text holds no '='. */
  lemma {:induction false} BlankEscape(k: string)
    ensures '=' !in Blank(Escape(k))
  {
    if k != [] {
      BlankEscape(k[1..]);
      EscapeStart(k[1..]);
      var e := Escape(k);
      if k[0] == '=' {
        assert e[2..] == Escape(k[1..]);
      } else {
        assert e[1..] == Escape(k[1..]) && !StartsEscaped(e);
      }
    }
  }

  /** Blanking works piece by piece when no `\=` straddles the cut. */
  lemma {:induction false} BlankConcat(x: string, y: string)
    requires !(x != [] && y != [] && x[|x| - 1] == '\\' && y[0] == '=')
    ensures Blank(x + y) == Blank(x) + Blank(y)
  {
    if x == [] {
      assert x + y == y;
    } else if StartsEscaped(x) {
      assert (x + y)[2..] == x[2..] + y;
      BlankConcat(x[2..], y);
    } else {
      assert (x + y)[1..] == x[1..] + y;
      assert !StartsEscaped(x + y) by {
        if |x| == 1 && y != [] { assert (x + y)[1] == y[0]; }
      }
      BlankConcat(x[1..], y);
    }
  }

  lemma {:induction false} BlankSpace(s: string)
    requires AllSpace(s)
    ensures Blank(s) == s
  {
    if s != [] {
      BlankSpace(s[1..]);
    }
  }

  /** How many characters one step of blanking settles. */
  function BlankStep(s: string): (n: nat)
    requires s != []
    ensures 1 <= n <= |s|
  {
    if StartsEscaped(s) then 2 else 1
  }

  lemma BlankSteps(s: string)
    requires s != []
    ensures Blank(s) == Blank(s)[..BlankStep(s)] + Blank(s[BlankStep(s)..])
    ensures forall i :: 0 <= i < BlankStep(s) && Blank(s)[i] == '=' ==> i == 0 && BlankStep(s) == 1 && s[0] == '='
  {
  }

  /** An '=' that survives blanking cuts the text cleanly: behind it ... */
  lemma {:induction false} BlankBehind(s: string, e: nat)
    requires e < |s| && Blank(s)[e] == '='
    ensures s[e] == '=' && Blank(s[e + 1..]) == Blank(s)[e + 1..]
  {
    var n := BlankStep(s);
    BlankSteps(s);
    if e >= n {
      BlankBehind(s[n..], e - n);
      hide Blank;
      assert s[e + 1..] == s[n..][e - n + 1..];
    }
  }

  /** ... and up to it. */
  lemma {:induction false} BlankUpTo(s: string, e: nat)
    requires e < |s| && Blank(s)[e] == '='
    ensures Blank(s[..e + 1]) == Blank(s)[..e + 1]
  {
    var n := BlankStep(s);
    BlankSteps(s);
    if e >= n {
      BlankUpTo(s[n..], e - n);
      var p := s[..e + 1];
      assert p[n..] == s[n..][..e - n + 1];
      assert StartsEscaped(p) <==> StartsEscaped(s);
      BlankSteps(p);
    }
  }
}

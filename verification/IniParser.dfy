/** Parsing one line of an INI file, and the lines the library writes. */
module IniParser {
  import opened Options
  import opened IniText

  datatype Parsed = Nothing | Comment | Section(name: string) | KeyValue(key: string, value: string) | Unknown

  /** The part of a section line before a trailing comment. */
  function CutComment(t: string): (r: string)
    ensures |r| <= |t|
  {
    match IndexOf(t, ';')
    case None => t
    case Some(i) => t[..i]
  }

  /** The '=' is looked for with every `\=` blanked out. */
  function ParseKey(t: string): Parsed {
    match IndexOf(Blank(t), '=')
    case None => Unknown
    case Some(e) => KeyValue(Unescape(Trim(t[..e])), Trim(t[e + 1..]))
  }

  /** `INIParser::parseLine`. */
  function ParseLine(line: string): Parsed {
    var t := Trim(line);
    if t == [] then Nothing
    else if t[0] == ';' then Comment
    else if t[0] == '[' then
      var c := CutComment(t);
      match LastIndexOf(c, ']')
      case Some(i) => if i >= 1 then Section(Trim(c[1..i])) else ParseKey(c)
      case None => ParseKey(c)
    else ParseKey(t)
  }

  /** Lines that say nothing to the reader. */
  predicate Inert(line: string) {
    ParseLine(line).Nothing? || ParseLine(line).Comment?
  }

  // ---------------------------------------------------------------- section lines

  function SectionText(name: string): string {
    "[" + name + "]"
  }

  /** A written section line reads back exactly when its name holds no ';'. */
  lemma SectionLine(name: string)
    requires Trimmed(name)
    ensures ParseLine(SectionText(name)) == Section(name) <==> ';' !in name
  {
    var t := SectionText(name);
    TrimFixed(t);
    SectionShort(t);
    if ';' !in name {
      IndexOfSpec(t, ';');
      assert t[1..|t| - 1] == name;
      TrimFixed(name);
    } else {
      var j :| 0 <= j < |name| && name[j] == ';';
      CutShorter(t, j + 1);
    }
  }

  lemma CutShorter(t: string, j: nat)
    requires j < |t| && t[j] == ';'
    ensures |CutComment(t)| <= j
  {
    IndexOfFirst(t, ';', j);
  }

  lemma {:induction false} IndexOfFirst(s: string, c: char, j: nat)
    requires j < |s| && s[j] == c
    ensures IndexOf(s, c).Some? && IndexOf(s, c).value <= j
  {
    if s[0] != c {
      IndexOfFirst(s[1..], c, j - 1);
    }
  }

  /** A section name is shorter than its line up to the comment. */
  lemma SectionShort(line: string)
    ensures ParseLine(line).Section? ==> |ParseLine(line).name| + 2 <= |CutComment(Trim(line))|
  {
    hide IsSpace, TrimLeft, TrimRight;
  }

  // ---------------------------------------------------------------- key lines

  /** A head ends in the '=' that separates key and value in every line it starts. */
  predicate KeyHead(l: string) {
    && l != [] && !IsSpace(l[0]) && l[0] != ';' && l[0] != '['
    && l[|l| - 1] == '=' && IndexOf(Blank(l), '=') == Some(|l| - 1)
  }

  lemma {:induction false} IndexOfPrefix(x: string, y: string, c: char)
    requires IndexOf(x, c).Some?
    ensures IndexOf(x + y, c) == IndexOf(x, c)
  {
    if x[0] != c {
      assert (x + y)[1..] == x[1..] + y;
      IndexOfPrefix(x[1..], y, c);
    }
  }

  /** The separating '=' of a line is that of its head. */
  lemma HeadIndex(l: string, r: string)
    requires KeyHead(l)
    ensures IndexOf(Blank(l + r), '=') == Some(|l| - 1)
  {
    hide IndexOf, Blank, IsSpace;
    BlankConcat(l, r);
    IndexOfPrefix(Blank(l), Blank(r), '=');
  }

  lemma SplitHead(l: string, r: string)
    requires l != []
    ensures (l + r)[..|l| - 1] == Front(l) && (l + r)[|l|..] == r
  {
  }

  lemma ParseHead(l: string, r: string)
    requires KeyHead(l)
    ensures ParseKey(l + r) == KeyValue(Unescape(Trim(Front(l))), Trim(r))
  {
    HeadIndex(l, r);
    SplitHead(l, r);
    hide IndexOf, Blank, Trim, Unescape;
  }

  /** Trimming a line with a head takes only space in front and behind. */
  lemma TrimParts(a: string, l: string, r: string, b: string)
    requires AllSpace(a) && AllSpace(b) && l != [] && !IsSpace(l[0]) && !IsSpace(l[|l| - 1])
    requires r == [] || !IsSpace(r[|r| - 1])
    ensures Trim(a + (l + (r + b))) == l + r
  {
    MiddleTrimmed(l, r);
    hide IsSpace, AllSpace, Trim, Trimmed;
    SeqAssoc(l, r, b);
    SeqAssoc(a, l + r, b);
    TrimIs(a, l + r, b);
  }

  lemma MiddleTrimmed(l: string, r: string)
    requires l != [] && !IsSpace(l[0]) && !IsSpace(l[|l| - 1]) && (r == [] || !IsSpace(r[|r| - 1]))
    ensures Trimmed(l + r)
  {
    hide IsSpace;
    assert (l + r)[0] == l[0];
    if r == [] {
      assert l + r == l;
    } else {
      assert (l + r)[|l + r| - 1] == r[|r| - 1];
    }
  }

  lemma TrimRightFirst(x: string)
    ensures Trim(TrimRight(x)) == Trim(x)
  {
    TrimRightSpec(x);
    assert TrimRight(TrimRight(x)) == TrimRight(x);
  }

  lemma TrimLine(a: string, l: string, x: string)
    requires AllSpace(a) && KeyHead(l)
    ensures Trim(a + (l + x)) == l + TrimRight(x)
  {
    var r := TrimRight(x);
    TrimRightSpec(x);
    hide TrimRight, Trim, AllSpace, IndexOf, Blank;
    Rejoin(x, |r|);
    assert x[..|r|] == r;
    TrimParts(a, l, r, x[|r|..]);
  }

  /** The value of a line is whatever follows its head, trimmed. */
  lemma KeyLine(a: string, l: string, x: string)
    requires AllSpace(a) && KeyHead(l)
    ensures ParseLine(a + (l + x)) == KeyValue(Unescape(Trim(Front(l))), Trim(x))
  {
    TrimLine(a, l, x);
    TrimRightFirst(x);
    ParseHead(l, TrimRight(x));
    hide IsSpace, AllSpace, Trim, ParseKey, Unescape, TrimRight, IndexOf, Blank, Front;
    assert (l + TrimRight(x))[0] == l[0];
  }

  // ---------------------------------------------------------------- written key lines

  function Separator(pretty: bool): string {
    if pretty then " = " else "="
  }

  /** A key line as the generator and the lazy writer write it. */
  function KeyText(key: string, value: string, pretty: bool): string {
    Escape(key) + Separator(pretty) + Trim(value)
  }

  /** Keys that are not taken for a comment or a section. */
  predicate PlainStart(key: string) {
    key != [] ==> key[0] != '[' && key[0] != ';'
  }

  /** A key whose last character is a backslash, which a bare '=' would turn into an
      escaped one. */
  predicate EndsInBackslash(key: string) {
    key != [] && key[|key| - 1] == '\\'
  }

  /** The head of a written line, and the space in front of it. */
  function HeadOf(key: string, pretty: bool): string {
    if pretty && key != [] then Escape(key) + " =" else Escape(key) + "="
  }

  function SpaceBefore(key: string, pretty: bool): string {
    if pretty && key == [] then " " else ""
  }

  function SpaceAfter(pretty: bool): string {
    if pretty then " " else ""
  }

  lemma KeyTextParts(key: string, value: string, pretty: bool)
    ensures KeyText(key, value, pretty)
            == SpaceBefore(key, pretty) + (HeadOf(key, pretty) + (SpaceAfter(pretty) + Trim(value)))
  {
    hide Trim, Escape;
    if key == [] {
      assert Escape(key) == [] by { EscapeStart(key); }
    }
  }

  /** A head is found by its own '=' unless a backslash swallows it. */
  lemma HeadIndexOf(key: string, pretty: bool)
    requires pretty || !EndsInBackslash(key)
    ensures IndexOf(Blank(HeadOf(key, pretty)), '=') == Some(|HeadOf(key, pretty)| - 1)
  {
    var e := Escape(key);
    BlankEscape(key);
    if key != [] { EscapeEnd(key); }
    hide Escape, IndexOf;
    if pretty && key != [] {
      BlankConcat(e, " =");
      assert Blank(" =") == " =";
      IndexOfShift(Blank(e), " =", '=');
      assert IndexOf(" =", '=') == Some(1) by { TwoCharIndex(); }
    } else {
      if key == [] { EscapeStart(key); }
      BlankConcat(e, "=");
      assert Blank("=") == "=";
      IndexOfShift(Blank(e), "=", '=');
      assert IndexOf("=", '=') == Some(0) by { TwoCharIndex(); }
    }
  }

  lemma TwoCharIndex()
    ensures IndexOf(" =", '=') == Some(1) && IndexOf("=", '=') == Some(0)
  {
    assert " ="[1..] == "=";
  }

  lemma {:induction false} IndexOfShift(a: string, y: string, c: char)
    requires c !in a
    ensures IndexOf(a + y, c) == match IndexOf(y, c) case None => None case Some(i) => Some(|a| + i)
  {
    if a == [] {
      assert a + y == y;
    } else {
      assert (a + y)[1..] == a[1..] + y;
      IndexOfShift(a[1..], y, c);
    }
  }

  lemma WrittenHead(key: string, pretty: bool)
    requires Trimmed(key) && PlainStart(key) && (pretty || !EndsInBackslash(key))
    ensures KeyHead(HeadOf(key, pretty))
  {
    HeadIndexOf(key, pretty);
    EscapeStart(key);
    hide Escape, IndexOf, Blank;
  }

  lemma EscapeTrimmed(key: string)
    requires Trimmed(key)
    ensures Trimmed(Escape(key))
  {
    EscapeStart(key);
    if key != [] { EscapeEnd(key); }
    hide Escape;
  }

  /** A head gives its key back. */
  lemma WrittenKey(key: string, pretty: bool)
    requires Trimmed(key)
    ensures HeadOf(key, pretty) != []
    ensures Unescape(Trim(Front(HeadOf(key, pretty)))) == key
  {
    UnescapeEscape(key);
    EscapeTrimmed(key);
    var e := Escape(key);
    assert Front(" =") == " " && Front("=") == "";
    hide Escape, Unescape, Trim, Trimmed, Front;
    if pretty && key != [] {
      FrontConcat(e, " =");
      TrimIs("", e, " ");
      assert "" + e == e;
    } else {
      FrontConcat(e, "=");
      assert e + "" == e;
      TrimFixed(e);
    }
  }

  /** A written key line reads back as its key and trimmed value. */
  lemma WrittenKeyLine(key: string, value: string, pretty: bool)
    requires Trimmed(key) && PlainStart(key) && (pretty || !EndsInBackslash(key))
    ensures ParseLine(KeyText(key, value, pretty)) == KeyValue(key, Trim(value))
  {
    var pad := SpaceAfter(pretty);
    KeyTextParts(key, value, pretty);
    WrittenHead(key, pretty);
    WrittenKey(key, pretty);
    TrimTrimmed(value);
    hide Escape, Unescape, Trim, Trimmed, KeyHead, HeadOf, KeyText, Front;
    KeyLine(SpaceBefore(key, pretty), HeadOf(key, pretty), pad + Trim(value));
    TrimIs(pad, Trim(value), []);
    assert pad + Trim(value) + [] == pad + Trim(value);
  }

  // ---------------------------------------------------------------- a key that ends in a backslash

  /** How often '=' occurs. */
  function Equals(s: string): nat {
    if s == [] then 0 else (if s[0] == '=' then 1 else 0) + Equals(s[1..])
  }

  lemma {:induction false} EqualsConcat(x: string, y: string)
    ensures Equals(x + y) == Equals(x) + Equals(y)
  {
    if x == [] {
      assert x + y == y;
    } else {
      assert (x + y)[1..] == x[1..] + y;
      EqualsConcat(x[1..], y);
    }
  }

  lemma EqualsTrim(s: string)
    ensures Equals(Trim(s)) == Equals(s)
  {
    TrimSplit(s);
    SpaceHasNone(Lead(s));
    SpaceHasNone(Trail(s));
    hide Trim, Lead, Trail, AllSpace;
    EqualsConcat(Lead(s) + Trim(s), Trail(s));
    EqualsConcat(Lead(s), Trim(s));
  }

  lemma {:induction false} SpaceHasNone(s: string)
    requires AllSpace(s)
    ensures Equals(s) == 0
  {
    if s != [] {
      SpaceHasNone(s[1..]);
    }
  }

  lemma {:induction false} EqualsUnescape(s: string)
    ensures Equals(Unescape(s)) == Equals(s)
  {
    if s != [] {
      if StartsEscaped(s) {
        EqualsUnescape(s[2..]);
        EqualsConcat("=", Unescape(s[2..]));
        assert s[1..][1..] == s[2..];
      } else {
        EqualsUnescape(s[1..]);
        EqualsConcat([s[0]], Unescape(s[1..]));
      }
    }
  }

  lemma {:induction false} EqualsEscape(k: string)
    ensures Equals(Escape(k)) == Equals(k)
  {
    if k != [] {
      EqualsEscape(k[1..]);
      EqualsConcat(if k[0] == '=' then "\\=" else [k[0]], Escape(k[1..]));
      EqualsPair();
    }
  }

  lemma EqualsPair()
    ensures Equals("\\=") == 1
  {
    assert "\\="[1..] == "=";
  }

  lemma {:induction false} EscapeConcat(x: string, y: string)
    ensures Escape(x + y) == Escape(x) + Escape(y)
  {
    if x == [] {
      assert x + y == y;
    } else {
      assert (x + y)[1..] == x[1..] + y;
      EscapeConcat(x[1..], y);
      hide Escape;
    }
  }

  /** In a plain line the key's own backslash hides the separating '='. */
  lemma SwallowedIndex(front: string, v: string)
    ensures match IndexOf(Blank(Escape(front) + ("\\=" + v)), '=')
            case None => true
            case Some(e) => |Escape(front)| + 2 <= e
  {
    var f := Escape(front);
    BlankConcat(f, "\\=" + v);
    assert ("\\=" + v)[2..] == v;
    assert Blank("\\=" + v) == "  " + Blank(v);
    BlankEscape(front);
    hide Escape, Blank, IndexOf;
    SeqAssoc(Blank(f), "  ", Blank(v));
    IndexOfShift(Blank(f) + "  ", Blank(v), '=');
  }

  lemma SwallowedKey(front: string, v: string, e: nat)
    requires |Escape(front)| + 2 <= e <= |Escape(front) + ("\\=" + v)|
    ensures Equals(Unescape(Trim((Escape(front) + ("\\=" + v))[..e]))) > Equals(front)
  {
    var f := Escape(front);
    var t := (f + ("\\=" + v))[..e];
    EqualsEscape(front);
    EqualsTrim(t);
    EqualsUnescape(Trim(t));
    hide Escape, Unescape, Trim;
    assert t == f + "\\=" + t[|f| + 2..];
    EqualsConcat(f + "\\=", t[|f| + 2..]);
    EqualsConcat(f, "\\=");
    EqualsPair();
  }

  /** A plain line whose key ends in a backslash never reads back. */
  lemma BackslashSwallows(key: string, v: string)
    requires Trimmed(key) && PlainStart(key) && EndsInBackslash(key)
    ensures ParseLine(KeyText(key, v, false)) != KeyValue(key, Trim(v))
  {
    var front, f := Front(key), Escape(Front(key));
    assert key == front + "\\";
    EscapeConcat(front, "\\");
    assert Escape("\\") == "\\";
    var t := f + ("\\=" + Trim(v));
    assert KeyText(key, v, false) == t;
    assert Trim(t) == t && t[0] != ';' && t[0] != '[' by {
      EscapeStart(key);
      TrimTrimmed(v);
      MiddleTrimmed(f + "\\=", Trim(v));
      SeqAssoc(f, "\\=", Trim(v));
      TrimFixed(t);
    }
    SwallowedIndex(front, Trim(v));
    hide Escape, Trim, Blank, Unescape, Trimmed, KeyText, IsSpace;
    var i := IndexOf(Blank(t), '=');
    if i.Some? {
      SwallowedKey(front, Trim(v), i.value);
      EqualsConcat(front, "\\");
    }
  }

  /** Exactly when a written key line reads back. */
  lemma KeyTextExact(key: string, value: string, pretty: bool)
    requires Trimmed(key) && PlainStart(key)
    ensures ParseLine(KeyText(key, value, pretty)) == KeyValue(key, Trim(value))
            <==> pretty || !EndsInBackslash(key)
  {
    if pretty || !EndsInBackslash(key) {
      WrittenKeyLine(key, value, pretty);
    } else {
      BackslashSwallows(key, value);
    }
  }

  // ---------------------------------------------------------------- one-letter names

  predicate IsLetter(c: char) {
    'a' <= c <= 'z'
  }

  lemma LetterNorm(c: char)
    requires IsLetter(c)
    ensures Norm([c]) == [c] && Trimmed([c])
  {
    TrimFixed([c]);
  }

  lemma LetterSection(c: char)
    requires IsLetter(c)
    ensures ParseLine(['[', c, ']']) == Section([c])
  {
    SectionLine([c]);
    assert SectionText([c]) == ['[', c, ']'];
  }

  lemma LetterLine(k: char, v: char)
    requires IsLetter(k) && '0' <= v <= '9'
    ensures ParseLine([k, '=', v]) == KeyValue([k], [v])
  {
    LetterNorm(k);
    TrimFixed([v]);
    WrittenKeyLine([k], [v], false);
    assert Escape([k]) == [k] by { assert [k][1..] == []; }
    hide ParseLine, Trim, Escape;
    assert KeyText([k], [v], false) == [k, '=', v];
  }
}

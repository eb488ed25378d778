/** The lexical state that the Turtle scanners share. The source keeps it as three
    flags, inIRI, inQuote and escape, of which at most one description applies. */
module Lexis {
  import opened Text

  datatype Lex = Plain | Quoted | Escaped | Iri

  function Step(q: Lex, c: char): Lex {
    match q
    case Escaped => Quoted
    case Quoted => if c == '\\' then Escaped else if c == '"' then Plain else Quoted
    case Iri => if c == '>' then Plain else Iri
    case Plain => if c == '<' then Iri else if c == '"' then Quoted else Plain
  }

  function Run(q: Lex, s: string): Lex
    decreases |s|
  {
    if s == "" then q else Run(Step(q, s[0]), s[1..])
  }

  /** How much of `s` comes before the first `mark` outside IRIs and literals. */
  function Cut(q: Lex, s: string, mark: char): (n: nat)
    ensures n <= |s|
    ensures n < |s| ==> s[n] == mark
    decreases |s|
  {
    if s == "" || (q == Plain && s[0] == mark) then 0
    else 1 + Cut(Step(q, s[0]), s[1..], mark)
  }

  /** Neither '.' nor '#' occurs in `s` outside IRIs and literals. */
  predicate Clear(q: Lex, s: string)
    decreases |s|
  {
    s == "" || (!(q == Plain && (s[0] == '.' || s[0] == '#')) && Clear(Step(q, s[0]), s[1..]))
  }

  /** A text that starts and ends outside IRIs and literals and holds no '.' or '#'
      of its own there. */
  ghost predicate Inert(s: string) { Clear(Plain, s) && Run(Plain, s) == Plain }

  lemma {:induction false} RunConcat(q: Lex, a: string, b: string)
    ensures Run(q, a + b) == Run(Run(q, a), b)
    decreases |a|
  {
    if a == "" {
      assert a + b == b;
    } else {
      assert (a + b)[1..] == a[1..] + b;
      RunConcat(Step(q, a[0]), a[1..], b);
    }
  }

  lemma {:induction false} ClearConcat(q: Lex, a: string, b: string)
    ensures Clear(q, a + b) <==> Clear(q, a) && Clear(Run(q, a), b)
    decreases |a|
  {
    if a == "" {
      assert a + b == b;
    } else {
      assert (a + b)[1..] == a[1..] + b;
      ClearConcat(Step(q, a[0]), a[1..], b);
    }
  }

  lemma InertConcat(a: string, b: string)
    requires Inert(a) && Inert(b)
    ensures Inert(a + b)
  {
    RunConcat(Plain, a, b);
    ClearConcat(Plain, a, b);
  }

  lemma {:induction false} CutSkips(q: Lex, a: string, b: string, mark: char)
    requires Clear(q, a) && (mark == '.' || mark == '#')
    ensures Cut(q, a + b, mark) == |a| + Cut(Run(q, a), b, mark)
    decreases |a|
  {
    if a == "" {
      assert a + b == b;
    } else {
      assert (a + b)[1..] == a[1..] + b;
      CutSkips(Step(q, a[0]), a[1..], b, mark);
    }
  }

  /** Characters with no role for the scanners. */
  predicate Ordinary(c: char) { c != '.' && c != '#' && c != '<' && c != '"' }

  lemma {:induction false} OrdinaryIsInert(s: string)
    requires forall i :: 0 <= i < |s| ==> Ordinary(s[i])
    ensures Inert(s)
  {
    if s != "" {
      OrdinaryIsInert(s[1..]);
    }
  }

  lemma {:induction false} InsideIri(s: string)
    requires '>' !in s
    ensures Clear(Iri, s) && Run(Iri, s) == Iri
  {
    if s != "" {
      InsideIri(s[1..]);
    }
  }

  lemma BracketsAreInert(s: string)
    requires '>' !in s
    ensures Inert("<" + s + ">")
  {
    InsideIri(s);
    var w := "<" + s + ">";
    assert w[1..] == s + ">";
    assert ">"[1..] == "";
    RunConcat(Iri, s, ">");
    ClearConcat(Iri, s, ">");
  }

  /** The flags of the source's scanners. */
  datatype Flags = Flags(inIRI: bool, inQuote: bool, escape: bool) {
    function State(): Lex {
      if escape then Escaped else if inQuote then Quoted else if inIRI then Iri else Plain
    }

    ghost predicate Valid() { (escape ==> inQuote) && !(inQuote && inIRI) }
  }

  const START := Flags(false, false, false)

  /** The branches that the loops of indexStatementEnd, stripTurtleComment and
      splitStatements share. */
  method NextFlags(f: Flags, c: char) returns (g: Flags)
    requires f.Valid()
    ensures g.Valid() && g.State() == Step(f.State(), c)
  {
    g := f;
    if f.escape {
      g := g.(escape := false);
    } else if f.inQuote {
      if c == '\\' {
        g := g.(escape := true);
      } else if c == '"' {
        g := g.(inQuote := false);
      }
    } else if f.inIRI {
      if c == '>' {
        g := g.(inIRI := false);
      }
    } else if c == '<' {
      g := g.(inIRI := true);
    } else if c == '"' {
      g := g.(inQuote := true);
    }
  }

  /** Where a statement or prefix declaration ends: the first '.' outside IRIs and
      literals, or -1. */
  method IndexStatementEnd(s: string) returns (end: int)
    ensures end == if Cut(Plain, s, '.') < |s| then Cut(Plain, s, '.') else -1
  {
    var flags := START;
    assert s[0..] == s;
    for i := 0 to |s|
      invariant flags.Valid()
      invariant Cut(Plain, s, '.') == i + Cut(flags.State(), s[i..], '.')
    {
      assert s[i..][1..] == s[i + 1..];
      if flags == START && s[i] == '.' {
        return i;
      }
      flags := NextFlags(flags, s[i]);
    }
    return -1;
  }

  /** A line without its comment. */
  function StripComment(line: string): string { line[..Cut(Plain, line, '#')] }

  method StripTurtleComment(line: string) returns (kept: string)
    ensures kept == StripComment(line)
  {
    var flags := START;
    assert line[0..] == line;
    for i := 0 to |line|
      invariant flags.Valid()
      invariant Cut(Plain, line, '#') == i + Cut(flags.State(), line[i..], '#')
    {
      assert line[i..][1..] == line[i + 1..];
      if flags == START && line[i] == '#' {
        return line[..i];
      }
      flags := NextFlags(flags, line[i]);
    }
    return line;
  }

  /** The pieces between the '.' outside IRIs and literals. */
  function Split(text: string): (out: seq<string>)
    ensures |out| > 0
    decreases |text|
  {
    var n := Cut(Plain, text, '.');
    if n < |text| then [text[..n]] + Split(text[n + 1..]) else [text]
  }

  /** The statements of a text: its pieces, of which the last is kept, trimmed, only when
      something other than white space is left of it. */
  function Statements(text: string): seq<string> {
    var pieces := Split(text);
    var n := |pieces| - 1;
    pieces[..n] + LastPiece(pieces[n])
  }

  function LastPiece(piece: string): seq<string> {
    var s := TrimSpace(piece);
    if s != "" then [s] else []
  }

  /** The pieces still to come when `cur` was read since the last '.', one character of
      `text` at a time. */
  ghost function Pieces(cur: string, q: Lex, text: string): seq<string>
    decreases |text|
  {
    if text == "" then [cur]
    else if q == Plain && text[0] == '.' then [cur] + Pieces([], Plain, text[1..])
    else Pieces(cur + [text[0]], Step(q, text[0]), text[1..])
  }

  lemma {:induction false} PiecesRun(cur: string, q: Lex, text: string, n: nat)
    requires n == Cut(q, text, '.')
    ensures Pieces(cur, q, text) == if n < |text|
                                  then [cur + text[..n]] + Pieces([], Plain, text[n + 1..]) else [cur + text]
    decreases |text|
  {
    if n == 0 {
      assert cur + text[..n] == cur;
      assert text == "" ==> cur + text == cur;
    } else {
      var rest := text[1..];
      PiecesRun(cur + [text[0]], Step(q, text[0]), rest, n - 1);
      assert text == [text[0]] + rest;
      ConcatAssoc(cur, [text[0]], rest);
      if n < |text| {
        assert text[..n] == [text[0]] + rest[..n - 1];
        ConcatAssoc(cur, [text[0]], rest[..n - 1]);
        assert text[n + 1..] == rest[n..];
      }
    }
  }

  lemma {:induction false} PiecesAreSplit(cur: string, text: string)
    requires cur == []
    ensures Pieces(cur, Plain, text) == Split(text)
    decreases |text|
  {
    var n := Cut(Plain, text, '.');
    PiecesRun(cur, Plain, text, n);
    if n < |text| {
      EmptyConcat(cur, text[..n]);
      PiecesAreSplit(cur, text[n + 1..]);
    } else {
      EmptyConcat(cur, text);
    }
  }

  /** The loop of splitStatements. */
  method SplitAtDots(text: string) returns (out: seq<string>, cur: string)
    ensures Split(text) == out + [cur]
  {
    out, cur := [], [];
    var flags := START;
    PiecesAreSplit(cur, text);
    ghost var all, rest := Split(text), text;
    for i := 0 to |text|
      invariant flags.Valid()
      invariant rest == text[i..]
      invariant all == out + Pieces(cur, flags.State(), rest)
    {
      var c := text[i];
      rest := rest[1..];
      if flags == START && c == '.' {
        ConcatAssoc(out, [cur], Pieces([], Plain, rest));
        out := out + [cur];
        cur := [];
      } else {
        cur := cur + [c];
        flags := NextFlags(flags, c);
      }
    }
  }

  method SplitStatements(text: string) returns (out: seq<string>)
    ensures out == Statements(text)
  {
    var cur;
    out, cur := SplitAtDots(text);
    assert (out + [cur])[..|out|] == out;
    var s := TrimSpace(cur);
    if s != "" {
      out := out + [s];
    }
  }
}

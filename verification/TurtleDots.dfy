/** A dot in a name that is printed without angle brackets cuts the statement short. */
module TurtleDots {
  import opened Text
  import opened Lexis
  import opened Turtle
  import opened TurtleRoundTrip

  /** Characters of a word without dots, or with them. */
  predicate InWord(c: char) { c != '<' && c != '"' && c != '#' && c != ';' && !IsSpace(c) }

  ghost predicate Word(w: string) { forall i :: 0 <= i < |w| ==> InWord(w[i]) }

  ghost predicate Undotted(w: string) { Word(w) && '.' !in w }

  lemma UndottedIsInert(w: string)
    requires Undotted(w)
    ensures Inert(w) && NoBreak(w, true) && NoSpace(w)
  {
    assert IsSpace(' ') && IsSpace('\t') && IsSpace('\n');
    forall i | 0 <= i < |w| ensures Ordinary(w[i]) {
      assert w[i] in w;
    }
    OrdinaryIsInert(w);
  }

  // ----- Comments -----

  lemma {:induction false} WordHasNoComment(w: string, rest: string)
    requires forall i :: 0 <= i < |w| ==> w[i] != '<' && w[i] != '"' && w[i] != '#'
    ensures Cut(Plain, w + rest, '#') == |w| + Cut(Plain, rest, '#')
  {
    if w == "" {
      EmptyConcat(w, rest);
    } else {
      assert (w + rest)[1..] == w[1..] + rest;
      WordHasNoComment(w[1..], rest);
    }
  }

  lemma LineHasNoComment(before: string, w: string, end: string, line: string)
    requires Inert(before) && Word(w) && end == " ." && line == before + (w + end)
    ensures Cut(Plain, line, '#') == |line|
  {
    CutSkips(Plain, before, w + end, '#');
    WordHasNoComment(w, end);
    assert end[1..] == "." && "."[1..] == "";
  }

  // ----- Tokens -----

  lemma WordEnds(w: string, rest: string)
    requires Undotted(w) && w != "" && Gap(rest)
    ensures Ends(w, rest)
  {
    UndottedIsInert(w);
    assert IsSpace(' ') && IsSpace('\t') && IsSpace('\n') && IsSpace('\r');
    assert (w + rest)[1..] == w[1..] + rest;
    WordLengthOver(w[1..], rest, true);
  }

  lemma {:induction false} SeparatorsSkip(gap: string, more: string)
    requires forall i :: 0 <= i < |gap| ==> IsSeparator(gap[i])
    ensures SkipSeparators(gap + more) == SkipSeparators(more)
  {
    if gap == "" {
      EmptyConcat(gap, more);
    } else {
      assert (gap + more)[1..] == gap[1..] + more;
      SeparatorsSkip(gap[1..], more);
    }
  }

  lemma TokensSkip(x: string, y: string)
    requires SkipSeparators(x) == SkipSeparators(y)
    ensures Tokens(x) == Tokens(y)
  {
  }

  lemma TokenTaken(w: string, rest: string, toks: seq<string>)
    requires Ends(w, rest) && Tokens(rest) == Ok(toks)
    ensures Tokens(w + rest) == Ok([w] + toks)
  {
    assert (w + rest)[..|w|] == w && (w + rest)[|w|..] == rest;
  }

  /** One word is no triple. */
  lemma WordIsNoTriple(w: string, end: string, m: map<string, string>)
    requires Undotted(w) && AllSpace(end)
    ensures StatementTriple(w + end, m) == Ok(None)
  {
    UndottedIsInert(w);
    EmptyConcat("", w);
    TrimSpaceAround("", w, end);
    if w != "" {
      WordEnds(w, "");
      TokensLast(w, "");
    }
  }

  lemma LastWord(w: string, end: string, tail: string, m: map<string, string>)
    requires Undotted(w) && end == " " && tail == ""
    ensures Triples(Statements(w + end + "." + tail), m) == Ok([])
  {
    UndottedIsInert(w);
    OrdinaryIsInert(end);
    InertConcat(w, end);
    StatementsStep(w + end, tail);
    WordIsNoTriple(w, end, m);
    assert Statements(tail) == [];
    NothingMore(w + end, Statements(tail), m);
  }

  lemma FirstWord(w: string, rest: string, m: map<string, string>)
    requires Undotted(w) && Triples(Statements(rest), m) == Ok([])
    ensures Triples(Statements(w + "." + rest), m) == Ok([])
  {
    UndottedIsInert(w);
    StatementsStep(w, rest);
    ConcatEmpty(w, "");
    WordIsNoTriple(w, "", m);
    NothingMore(w, Statements(rest), m);
  }

  /** A word up to its first dot, and what follows. */
  lemma FirstDot(w: string) returns (head: string, more: string)
    requires Word(w) && '.' in w
    ensures w == head + "." + more && Undotted(head) && Word(more) && head == w[..IndexByte(w, '.')]
  {
    var k := IndexByte(w, '.');
    head, more := w[..k], w[k + 1..];
  }

  /** What follows the first dot of a word: single words, and no triple. */
  lemma {:induction false} WordsAreNoTriples(w: string, end: string, tail: string, m: map<string, string>)
    requires Word(w) && end == " " && tail == ""
    ensures Triples(Statements(w + end + "." + tail), m) == Ok([])
    decreases |w|
  {
    if '.' in w {
      var head, more := FirstDot(w);
      WordsAreNoTriples(more, end, tail, m);
      FirstWord(head, more + end + "." + tail, m);
      CutWord(head, more, w, end, tail);
    } else {
      LastWord(w, end, tail, m);
    }
  }

  lemma CutWord(head: string, more: string, w: string, end: string, tail: string)
    requires w == head + "." + more
    ensures w + end + "." + tail == head + "." + (more + end + "." + tail)
  {
  }

  lemma NothingMore(stmt: string, rest: seq<string>, m: map<string, string>)
    requires StatementTriple(stmt, m) == Ok(None) && Triples(rest, m) == Ok([])
    ensures Triples([stmt] + rest, m) == Ok([])
  {
    assert ([stmt] + rest)[1..] == rest;
    var none: seq<Triple> := [];
    EmptyConcat(none, none);
  }

  lemma NoDotIsOneStatement(text: string)
    requires Inert(text) && TrimSpace(text) != ""
    ensures Statements(text) == [TrimSpace(text)]
  {
    CutSkips(Plain, text, "", '.');
    ConcatEmpty(text, "");
    assert Split(text) == [text] && [text][..0] == [];
  }

  // ----- The statement before the dot -----

  lemma TokensOfTwo(a: string, b: string)
    requires Ends(b, "") && Ends(a, " " + b)
    ensures Tokens(a + " " + b) == Ok([a, b])
  {
    TokensLast(b, "");
    TokensStep(a, b);
    assert [a] + [b] == [a, b];
  }

  /** Subject and predicate with what is left of the object. */
  function CutTriple(s: string, p: string, head: string): Option<Triple> {
    if head == "" then None else Some(IriTriple(ReadTerm(s, map[]), ReadTerm(p, map[]), head))
  }

  lemma CutReads(s: string, p: string, head: string)
    requires TermOk(s) && TermOk(p) && Undotted(head)
    ensures StatementTriple(FormatTerm(s) + " " + (FormatTerm(p) + " " + head), map[]) == Ok(CutTriple(s, p, head))
  {
    var a, b := FormatTerm(s), FormatTerm(p);
    TermIsToken(s);
    TermIsToken(p);
    TermEnds(s, " " + (b + " " + head));
    TermEnds(p, " " + head);
    TermExpands(s, map[]);
    TermExpands(p, map[]);
    TokenPair(a, b);
    if head == "" {
      ConcatEmpty(b + " ", head);
      ConcatAssoc(a + " ", b, " ");
      EmptyConcat("", a + " " + b);
      TrimSpaceAround("", a + " " + b, " ");
      TermEnds(p, "");
      TermEnds(s, " " + b);
      TokensOfTwo(a, b);
    } else {
      UndottedIsInert(head);
      WordEnds(head, "");
      TokensOfThree(a, b, head);
      ThreeTokens(a, b, head);
      HeadExpands(head);
    }
  }

  lemma ThreeTokens(a: string, b: string, head: string)
    requires IsToken(a) && head != "" && NoSpace(head)
    ensures TrimSpace(a + " " + (b + " " + head)) == a + " " + (b + " " + head)
  {
    var t := a + " " + (b + " " + head);
    assert t[0] == a[0] && t[|t| - 1] == head[|head| - 1];
  }

  lemma HeadExpands(head: string)
    requires Undotted(head) && head != ""
    ensures Expand(head, map[]) == head && !HasPrefix(head, "\"")
  {
    UndottedIsInert(head);
    TrimSpaceKeeps(head);
    assert InWord(head[0]);
  }

  // ----- The document -----

  /** A document of one statement, once comments and prefixes are seen to. */
  lemma OneLine(line: string, w: string, m: map<string, string>)
    requires '\n' !in line && Cut(Plain, line, '#') == |line| && line != "" && line[|line| - 1] == '.'
    requires !Keyword(w) && w + " " <= line && !IsSpace(line[0])
    ensures Parse(line + "\n") == Triples(Statements(line), map[])
  {
    var text := line + "\n";
    UncommentLine(line, "");
    ConcatEmpty(text, Uncomment(Lines("")));
    TrimSpaceAround("", line, "\n");
    EmptyConcat("", line);
    NoKeyword(w, line);
    NoPrologue(text, line);
  }

  lemma NoPrologue(text: string, line: string)
    requires TrimSpace(text) == line && !Keyword(line)
    ensures Prologue(text, map[]) == Ok((line, map[]))
  {
  }

  /** Subject and predicate, with a space behind each. */
  function Start(s: string, p: string): string { FormatTerm(s) + " " + FormatTerm(p) + " " }

  lemma StartIsInert(s: string, p: string)
    requires TermOk(s) && TermOk(p)
    ensures Inert(Start(s, p)) && '\n' !in Start(s, p) && !IsSpace(Start(s, p)[0])
    ensures FormatTerm(s) + " " <= Start(s, p)
  {
    TermIsToken(s);
    TermIsToken(p);
    OrdinaryIsInert(" ");
    TokenPair(FormatTerm(s), FormatTerm(p));
    InertConcat(FormatTerm(s) + " " + FormatTerm(p), " ");
  }

  lemma Regroup(a: string, b: string, o: string)
    ensures a + " " + b + " " + o == a + " " + (b + " " + o)
    ensures a + " " + b + " " + (o + " .") == a + " " + b + " " + o + " " + "."
  {
  }

  lemma DottedPrints(isPrint: char -> bool, s: string, p: string, o: string)
    requires Bare(o)
    ensures Print(isPrint, [IriTriple(s, p, o)], []) == Start(s, p) + (o + " .") + "\n"
  {
    var t := IriTriple(s, p, o);
    OneTriplePrints(isPrint, t);
    PrintTripleIsLine(isPrint, t);
    Regroup(FormatTerm(s), FormatTerm(p), o);
  }

  lemma DottedParses(s: string, p: string, o: string, line: string)
    requires TermOk(s) && TermOk(p) && Word(o) && !Keyword(FormatTerm(s)) && line == Start(s, p) + (o + " .")
    ensures Parse(line + "\n") == Triples(Statements(line), map[])
  {
    StartIsInert(s, p);
    LineHasNoComment(Start(s, p), o, " .", line);
    assert '\n' !in o by {
      assert IsSpace('\n');
    }
    assert line[0] == Start(s, p)[0];
    OneLine(line, FormatTerm(s), map[]);
  }

  lemma OneTriplePrints(isPrint: char -> bool, t: Triple)
    ensures Print(isPrint, [t], []) == PrintTriple(isPrint, t)
  {
    var none: seq<Triple> := [];
    assert [t][1..] == none;
    ConcatEmpty(PrintTriple(isPrint, t), PrintTriples(isPrint, none));
    EmptyConcat("", "");
    EmptyConcat("", PrintTriple(isPrint, t));
  }

  /** A name with a dot as an object, like "mailto:a@b.org", is cut at the first dot, and the triple is read
      back exactly when there is none. */
  lemma DottedObject(isPrint: char -> bool, s: string, p: string, o: string)
    requires PrintTable(isPrint)
    requires TermOk(s) && TermOk(p) && Bare(o) && Word(o) && !Keyword(FormatTerm(s))
    ensures var t := IriTriple(s, p, o);
            var back := Parse(Print(isPrint, [t], []));
            && (back == Ok([ReadTriple(isPrint, t, map[])]) <==> '.' !in o)
            && ('.' in o ==>
                  back == Ok(match CutTriple(s, p, o[..IndexByte(o, '.')]) case None => [] case Some(u) => [u]))
  {
    if '.' in o {
      CutObject(isPrint, s, p, o);
    } else {
      WholeObject(isPrint, s, p, o);
    }
  }

  lemma WholeObject(isPrint: char -> bool, s: string, p: string, o: string)
    requires PrintTable(isPrint)
    requires TermOk(s) && TermOk(p) && Bare(o) && Undotted(o) && !Keyword(FormatTerm(s))
    ensures var t := IriTriple(s, p, o); Parse(Print(isPrint, [t], [])) == Ok([ReadTriple(isPrint, t, map[])])
  {
    UndottedIsInert(o);
    var t := IriTriple(s, p, o);
    assert TripleOk(t) && GraphOk([t]);
    ParsePrint(isPrint, [t], []);
    assert ReadTriples(isPrint, [t], map[]) == [ReadTriple(isPrint, t, map[])];
  }

  lemma CutObject(isPrint: char -> bool, s: string, p: string, o: string)
    requires TermOk(s) && TermOk(p) && Bare(o) && Word(o) && !Keyword(FormatTerm(s)) && '.' in o
    ensures Parse(Print(isPrint, [IriTriple(s, p, o)], []))
         == Ok(match CutTriple(s, p, o[..IndexByte(o, '.')]) case None => [] case Some(u) => [u])
  {
    var head, more := FirstDot(o);
    var tail, line := more + " " + "." + "", Start(s, p) + (o + " .");
    DottedPrints(isPrint, s, p, o);
    DottedParses(s, p, o, line);
    CutLine(Start(s, p), head, more, o);
    StartIsInert(s, p);
    UndottedIsInert(head);
    InertConcat(Start(s, p), head);
    StatementsStep(Start(s, p) + head, tail);
    CutReads(s, p, head);
    Regroup(FormatTerm(s), FormatTerm(p), head);
    WordsAreNoTriples(more, " ", "", map[]);
    FirstStatement(Start(s, p) + head, Statements(tail), CutTriple(s, p, head));
  }

  lemma CutLine(start: string, head: string, more: string, o: string)
    requires o == head + "." + more
    ensures start + (o + " .") == start + head + "." + (more + " " + "." + "")
  {
  }

  lemma FirstStatement(stmt: string, rest: seq<string>, t: Option<Triple>)
    requires StatementTriple(stmt, map[]) == Ok(t) && Triples(rest, map[]) == Ok([])
    ensures Triples([stmt] + rest, map[]) == Ok(match t case None => [] case Some(u) => [u])
  {
    assert ([stmt] + rest)[1..] == rest;
    var none: seq<Triple> := [];
    ConcatEmpty(match t case None => [] case Some(u) => [u], none);
  }
}

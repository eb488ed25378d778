/** A name that is printed without angle brackets as an object: when it is read back. */
module TurtleWords {
  import opened Text
  import opened Lexis
  import opened Turtle
  import opened TurtleRoundTrip
  import opened TurtleDots

  /** No white space, and nothing that begins an IRI or a literal. */
  ghost predicate Loose(w: string) { forall i :: 0 <= i < |w| ==> w[i] != '<' && w[i] != '"' && !IsSpace(w[i]) }

  /** A part of the name that no dot or comment ends. */
  ghost predicate Piece(w: string) { Loose(w) && '.' !in w && '#' !in w }

  // ----- Tokens of a piece -----

  /** The tokens are parts of the piece between semicolons. */
  ghost predicate PartOf(tok: string, w: string) { Undotted(tok) && tok != "" && |tok| <= |w| }

  ghost predicate PartsOf(toks: seq<string>, w: string) { forall i :: 0 <= i < |toks| ==> PartOf(toks[i], w) }

  lemma {:induction false} SkipShortens(w: string)
    requires Piece(w)
    ensures Piece(SkipSeparators(w))
  {
    if w != "" && IsSeparator(w[0]) {
      assert forall i :: 0 <= i < |w| - 1 ==> w[1..][i] == w[i + 1];
      SkipShortens(w[1..]);
    }
  }

  lemma {:induction false} WordLengthStops(s: string)
    ensures var k := WordLength(s, true);
            (forall i :: 0 <= i < k ==> !IsBreak(s[i], true)) && (k < |s| ==> IsBreak(s[k], true))
  {
    if s != "" && !IsBreak(s[0], true) {
      WordLengthStops(s[1..]);
    }
  }

  lemma FirstPart(r: string) returns (k: nat)
    requires Piece(r) && r != "" && !IsSeparator(r[0])
    ensures TokenEnd(r) == Ok(k) && 0 < k <= |r| && PartOf(r[..k], r) && Piece(r[k..])
  {
    k := 1 + WordLength(r[1..], true);
    WordLengthStops(r[1..]);
    assert forall i :: 1 <= i < k ==> r[i] == r[1..][i - 1];
    assert forall i :: 0 <= i < k ==> r[i] in r;
  }

  lemma {:induction false} TokensArePartsOf(w: string)
    requires Piece(w)
    ensures Tokens(w).Ok? && PartsOf(Tokens(w).value, w)
    decreases |w|
  {
    var r := SkipSeparators(w);
    SkipShortens(w);
    if r != "" {
      var k := FirstPart(r);
      TokensArePartsOf(r[k..]);
    }
  }

  // ----- Statements -----

  /** No triple has this object. */
  ghost predicate Without(r: Outcome<seq<Triple>>, o: string) {
    r.Ok? && forall i :: 0 <= i < |r.value| ==> r.value[i].obj != o
  }

  ghost predicate NotOf(r: Outcome<Option<Triple>>, o: string) { r.Ok? && (r.value.Some? ==> r.value.value.obj != o) }

  /** The piece is shorter than the name, or the name is one of several parts. */
  ghost predicate Less(w: string, o: string) { |w| < |o| || ';' in o }

  lemma PartIsLess(tok: string, w: string, o: string)
    requires PartOf(tok, w) && Less(w, o)
    ensures tok != o && Expand(tok, map[]) == tok && !HasPrefix(tok, "\"")
  {
    HeadExpands(tok);
  }

  lemma TokensNotOf(text: string, stmt: string, toks: seq<string>, o: string)
    requires TrimSpace(text) == stmt && (stmt != "" ==> Tokens(stmt) == Ok(toks))
    requires |toks| > 2 ==> toks[2] != o && Expand(toks[2], map[]) == toks[2] && !HasPrefix(toks[2], "\"")
    ensures NotOf(StatementTriple(text, map[]), o)
  {
  }

  lemma PieceNotOf(w: string, end: string, o: string)
    requires Piece(w) && AllSpace(end) && Less(w, o)
    ensures NotOf(StatementTriple(w + end, map[]), o)
  {
    TokensArePartsOf(w);
    EmptyConcat("", w);
    TrimSpaceAround("", w, end);
    var toks := Tokens(w).value;
    if |toks| > 2 {
      PartIsLess(toks[2], w, o);
    }
    TokensNotOf(w + end, w, toks, o);
  }

  lemma OneMore(stmt: string, rest: seq<string>, o: string)
    requires NotOf(StatementTriple(stmt, map[]), o) && Without(Triples(rest, map[]), o)
    ensures Without(Triples([stmt] + rest, map[]), o)
  {
    assert ([stmt] + rest)[1..] == rest;
  }

  lemma PieceIsInert(w: string)
    requires Piece(w)
    ensures Inert(w) && (w != "" ==> !IsSpace(w[0]) && !IsSpace(w[|w| - 1]))
  {
    assert forall i :: 0 <= i < |w| ==> w[i] in w;
    OrdinaryIsInert(w);
  }

  /** The name up to its first dot, and what follows. */
  lemma CutAtDot(w: string) returns (head: string, more: string)
    requires Loose(w) && '#' !in w && '.' in w
    ensures w == head + "." + more && Piece(head) && Loose(more) && '#' !in more
  {
    var k := IndexByte(w, '.');
    head, more := w[..k], w[k + 1..];
  }

  lemma LastPieceWithout(w: string, end: string, tail: string, o: string)
    requires Piece(w) && Less(w, o) && end == " " && tail == ""
    ensures Without(Triples(Statements(w + end + "." + tail), map[]), o)
  {
    PieceIsInert(w);
    OrdinaryIsInert(end);
    InertConcat(w, end);
    StatementsStep(w + end, tail);
    PieceNotOf(w, end, o);
    assert Statements(tail) == [];
    OneMore(w + end, Statements(tail), o);
  }

  lemma OpenPieceWithout(w: string, o: string)
    requires Piece(w) && Less(w, o)
    ensures Without(Triples(Statements(w), map[]), o)
  {
    PieceIsInert(w);
    TrimSpaceKeeps(w);
    if w == "" {
      assert Statements(w) == [];
    } else {
      NoDotIsOneStatement(w);
      ConcatEmpty(w, "");
      PieceNotOf(w, "", o);
      OneMore(w, [], o);
      ConcatEmpty([w], []);
    }
  }

  /** How the document goes on behind the name: with the end of the statement, or not at all. */
  predicate IsEnd(end: string) { end == "" || end == " ." }

  lemma {:induction false} WordsWithout(w: string, end: string, o: string)
    requires Loose(w) && '#' !in w && Less(w, o) && IsEnd(end)
    ensures Without(Triples(Statements(w + end), map[]), o)
    decreases |w|
  {
    if '.' in w {
      var head, more := CutAtDot(w);
      PieceIsInert(head);
      WordsWithout(more, end, o);
      StatementsStep(head, more + end);
      EndRegroups(head, more, end);
      ConcatEmpty(head, "");
      PieceNotOf(head, "", o);
      OneMore(head, Statements(more + end), o);
    } else if end == "" {
      ConcatEmpty(w, end);
      OpenPieceWithout(w, o);
    } else {
      LastPieceWithout(w, " ", "", o);
      assert w + " " + "." + "" == w + end;
    }
  }

  lemma EndRegroups(head: string, more: string, end: string)
    ensures head + "." + more + end == head + "." + (more + end)
  {
  }

  // ----- The first statement -----

  lemma StartTokens(s: string, p: string, w: string)
    requires TermOk(s) && TermOk(p) && Tokens(w).Ok?
    ensures Tokens(FormatTerm(s) + (" " + (FormatTerm(p) + (" " + w))))
         == Ok([FormatTerm(s)] + ([FormatTerm(p)] + Tokens(w).value))
  {
    var a, b := FormatTerm(s), FormatTerm(p);
    TermEnds(p, " " + w);
    TermEnds(s, " " + (b + (" " + w)));
    SeparatorsSkip(" ", w);
    TokensSkip(" " + w, w);
    TokenTaken(b, " " + w, Tokens(w).value);
    SeparatorsSkip(" ", b + (" " + w));
    TokensSkip(" " + (b + (" " + w)), b + (" " + w));
    TokenTaken(a, " " + (b + (" " + w)), [b] + Tokens(w).value);
  }

  lemma StartRegroups(a: string, b: string, w: string)
    ensures a + " " + b + " " + w == a + (" " + (b + (" " + w)))
    ensures a + (" " + b) == a + " " + b
  {
  }

  lemma ThirdIs(a: string, b: string, toks: seq<string>)
    ensures var all := [a] + ([b] + toks); |all| == 2 + |toks| && (toks != [] ==> all[2] == toks[0])
  {
  }

  lemma StartNotOf(s: string, p: string, w: string, end: string, o: string)
    requires TermOk(s) && TermOk(p) && Piece(w) && w != "" && AllSpace(end) && Less(w, o)
    ensures NotOf(StatementTriple(Start(s, p) + w + end, map[]), o)
  {
    TokensArePartsOf(w);
    var stmt, toks := Start(s, p) + w, Tokens(w).value;
    StartTokens(s, p, w);
    StartRegroups(FormatTerm(s), FormatTerm(p), w);
    StartTrimmed(s, p, w, end);
    ThirdIs(FormatTerm(s), FormatTerm(p), toks);
    if toks != [] {
      PartIsLess(toks[0], w, o);
    }
    TokensNotOf(stmt + end, stmt, [FormatTerm(s)] + ([FormatTerm(p)] + toks), o);
  }

  lemma StartTrimmed(s: string, p: string, w: string, end: string)
    requires TermOk(s) && TermOk(p) && Piece(w) && w != "" && AllSpace(end)
    ensures TrimSpace(Start(s, p) + w + end) == Start(s, p) + w
  {
    var stmt := Start(s, p) + w;
    StartIsInert(s, p);
    PieceIsInert(w);
    assert stmt[0] == Start(s, p)[0] && stmt[|stmt| - 1] == w[|w| - 1];
    TrimSpaceAround("", stmt, end);
    EmptyConcat("", stmt);
  }

  lemma TwoTokens(s: string, p: string)
    requires TermOk(s) && TermOk(p)
    ensures Tokens(FormatTerm(s) + " " + FormatTerm(p)) == Ok([FormatTerm(s), FormatTerm(p)])
  {
    TermEnds(p, "");
    TermEnds(s, " " + FormatTerm(p));
    TokensOfTwo(FormatTerm(s), FormatTerm(p));
  }

  lemma AloneTrimmed(a: string, b: string, end: string)
    requires IsToken(a) && IsToken(b) && AllSpace(end)
    ensures TrimSpace(a + " " + b + " " + end) == a + " " + b
  {
    var stmt := a + " " + b;
    assert stmt[0] == a[0] && stmt[|stmt| - 1] == b[|b| - 1];
    assert a + " " + b + " " + end == stmt + (" " + end);
    TrimSpaceAround("", stmt, " " + end);
    EmptyConcat("", stmt);
  }

  lemma StartAloneNotOf(s: string, p: string, end: string, o: string)
    requires TermOk(s) && TermOk(p) && AllSpace(end)
    ensures NotOf(StatementTriple(Start(s, p) + end, map[]), o)
    ensures TrimSpace(Start(s, p) + end) == FormatTerm(s) + " " + FormatTerm(p)
  {
    TermIsToken(s);
    TermIsToken(p);
    TwoTokens(s, p);
    AloneTrimmed(FormatTerm(s), FormatTerm(p), end);
    TokensNotOf(Start(s, p) + end, FormatTerm(s) + " " + FormatTerm(p), [FormatTerm(s), FormatTerm(p)], o);
  }

  lemma PieceBehindStart(s: string, p: string, w: string, end: string, o: string)
    requires TermOk(s) && TermOk(p) && Piece(w) && AllSpace(end) && Less(w, o)
    ensures NotOf(StatementTriple(Start(s, p) + w + end, map[]), o)
  {
    if w == "" {
      ConcatEmpty(Start(s, p), w);
      StartAloneNotOf(s, p, end, o);
    } else {
      StartNotOf(s, p, w, end, o);
    }
  }

  // ----- The document -----

  lemma UndottedWithout(s: string, p: string, w: string, end: string, tail: string, o: string)
    requires TermOk(s) && TermOk(p) && Piece(w) && Less(w, o) && end == " " && tail == ""
    ensures Without(Triples(Statements(Start(s, p) + w + end + "." + tail), map[]), o)
  {
    var chunk := Start(s, p) + w + end;
    StartIsInert(s, p);
    PieceIsInert(w);
    InertConcat(Start(s, p), w);
    OrdinaryIsInert(end);
    InertConcat(Start(s, p) + w, end);
    StatementsStep(chunk, tail);
    PieceBehindStart(s, p, w, end, o);
    assert Statements(tail) == [];
    OneMore(chunk, Statements(tail), o);
  }

  lemma StartWithout(s: string, p: string, w: string, end: string, o: string)
    requires TermOk(s) && TermOk(p) && Loose(w) && '#' !in w && |w| <= |o| && end == " ."
    requires Less(w, o) || '.' in w
    ensures Without(Triples(Statements(Start(s, p) + w + end), map[]), o)
  {
    if '.' in w {
      DottedWithout(s, p, w, end, o);
    } else {
      UndottedWithout(s, p, w, " ", "", o);
      EndOfStatement(Start(s, p) + w);
    }
  }

  lemma EndOfStatement(text: string)
    ensures text + " " + "." + "" == text + " ."
  {
  }

  lemma DottedWithout(s: string, p: string, w: string, end: string, o: string)
    requires TermOk(s) && TermOk(p) && Loose(w) && '#' !in w && |w| <= |o| && IsEnd(end) && '.' in w
    ensures Without(Triples(Statements(Start(s, p) + w + end), map[]), o)
  {
    var head, more := CutAtDot(w);
    StartIsInert(s, p);
    PieceIsInert(head);
    InertConcat(Start(s, p), head);
    StatementsStep(Start(s, p) + head, more + end);
    StartEndRegroups(Start(s, p), head, more, end);
    PieceBehindStart(s, p, head, "", o);
    ConcatEmpty(Start(s, p) + head, "");
    WordsWithout(more, end, o);
    OneMore(Start(s, p) + head, Statements(more + end), o);
  }

  lemma StartEndRegroups(start: string, head: string, more: string, end: string)
    ensures start + (head + "." + more) + end == start + head + "." + (more + end)
  {
  }

  /** The text of a document whose only line ends in a comment. */
  lemma CommentCut(line: string, kept: string, stmt: string, w: string)
    requires '\n' !in line && line != "" && line[|line| - 1] == '.' && StripComment(line) == kept
    requires TrimSpace(kept) == stmt && !Keyword(w) && w + " " <= stmt
    ensures Parse(line + "\n") == Triples(Statements(stmt), map[])
  {
    LineIsOne(line, "");
    TrimBreak(kept);
    NoKeyword(w, stmt);
    NoPrologue(kept + "\n", stmt);
  }

  lemma LineIsOne(line: string, end: string)
    requires '\n' !in line && line != "" && line[|line| - 1] == '.' && end == ""
    ensures Uncomment(Lines(line + "\n")) == StripComment(line) + "\n"
  {
    var data := line + "\n" + end;
    ConcatEmpty(line + "\n", end);
    IndexByteSkips(line, '\n', end);
    assert data[..|line|] == line && data[|line| + 1..] == end;
    assert Lines(end) == [];
    assert Lines(data) == [line];
    assert [line][1..] == [];
    ConcatEmpty(StripComment(line) + "\n", Uncomment([]));
  }

  lemma TrimBreak(kept: string)
    ensures TrimSpace(kept + "\n") == TrimSpace(kept)
  {
    TrimsCommute(kept + "\n");
    TrimsCommute(kept);
    TrimRightSkips(kept, "\n");
  }

  lemma SameStatement(x: string, y: string)
    requires TrimSpace(x) == y
    ensures StatementTriple(x, map[]) == StatementTriple(y, map[])
  {
    TrimSpaceOfTrimSpace(x);
  }

  /** What is left in front of a comment, when there is no dot in it. */
  lemma OpenStartWithout(s: string, p: string, w: string, end: string, o: string)
    requires TermOk(s) && TermOk(p) && Piece(w) && Less(w, o) && end == ""
    ensures Without(Triples(Statements(TrimSpace(Start(s, p) + w)), map[]), o)
  {
    var kept, stmt := Start(s, p) + w, TrimSpace(Start(s, p) + w);
    PieceBehindStart(s, p, w, end, o);
    ConcatEmpty(kept, end);
    SameStatement(kept, stmt);
    KeptStatement(s, p, w, end);
    TrimSpaceOfTrimSpace(kept);
    NoDotIsOneStatement(stmt);
    OneMore(stmt, [], o);
    ConcatEmpty([stmt], []);
  }

  lemma KeptStatement(s: string, p: string, w: string, end: string)
    requires TermOk(s) && TermOk(p) && Loose(w) && '#' !in w && end == ""
    ensures var stmt := TrimSpace(Start(s, p) + w);
            && stmt != "" && FormatTerm(s) + " " <= stmt
            && (w != "" ==> stmt == Start(s, p) + w)
            && ('.' !in w ==> Inert(stmt))
  {
    StartIsInert(s, p);
    TermIsToken(s);
    TermIsToken(p);
    if w == "" {
      ConcatEmpty(Start(s, p), w);
      ConcatEmpty(Start(s, p), end);
      StartAloneNotOf(s, p, end, end);
      TokenPair(FormatTerm(s), FormatTerm(p));
    } else {
      var kept := Start(s, p) + w;
      assert kept[0] == Start(s, p)[0] && kept[|kept| - 1] == w[|w| - 1];
      TrimSpaceKeeps(kept);
      if '.' !in w {
        PieceIsInert(w);
        InertConcat(Start(s, p), w);
      }
    }
  }

  lemma CommentAt(start: string, o: string, end: string, h: nat, line: string)
    requires Inert(start) && Loose(o) && h < |o| && o[h] == '#' && '#' !in o[..h] && line == start + (o + end)
    ensures StripComment(line) == start + o[..h]
  {
    var rest := o[h..] + end;
    assert o + end == o[..h] + rest && rest[0] == '#';
    assert forall i :: 0 <= i < h ==> o[..h][i] in o[..h];
    WordHasNoComment(o[..h], rest);
    CutSkips(Plain, start, o + end, '#');
    assert line[..|start| + h] == start + o[..h];
  }

  lemma CommentedWithout(s: string, p: string, o: string, line: string)
    requires TermOk(s) && TermOk(p) && !Keyword(FormatTerm(s)) && Loose(o) && '#' in o
    requires line == Start(s, p) + (o + " .")
    ensures Without(Parse(line + "\n"), o)
  {
    var h := IndexByte(o, '#');
    var w := o[..h];
    StartIsInert(s, p);
    CommentAt(Start(s, p), o, " .", h, line);
    KeptStatement(s, p, w, "");
    LineHasNoBreak(s, p, o, line);
    CommentCut(line, Start(s, p) + w, TrimSpace(Start(s, p) + w), FormatTerm(s));
    if '.' in w {
      DottedWithout(s, p, w, "", o);
      ConcatEmpty(Start(s, p) + w, "");
    } else {
      OpenStartWithout(s, p, w, "", o);
    }
  }

  lemma LineHasNoBreak(s: string, p: string, o: string, line: string)
    requires TermOk(s) && TermOk(p) && Loose(o) && line == Start(s, p) + (o + " .")
    ensures '\n' !in line && line != "" && line[|line| - 1] == '.' && !IsSpace(line[0])
    ensures FormatTerm(s) + " " <= line
  {
    StartIsInert(s, p);
    assert IsSpace('\n');
    assert line[0] == Start(s, p)[0];
  }

  lemma UncommentedWithout(s: string, p: string, o: string, line: string)
    requires TermOk(s) && TermOk(p) && !Keyword(FormatTerm(s)) && Loose(o) && '#' !in o && ('.' in o || ';' in o)
    requires line == Start(s, p) + (o + " .")
    ensures Without(Parse(line + "\n"), o)
  {
    StartIsInert(s, p);
    LineHasNoBreak(s, p, o, line);
    assert forall i :: 0 <= i < |o| ==> o[i] in o;
    WordHasNoComment(o, " .");
    CutSkips(Plain, Start(s, p), o + " .", '#');
    assert " ."[1..] == "." && "."[1..] == "";
    OneLine(line, FormatTerm(s), map[]);
    StartWithout(s, p, o, " .", o);
    ConcatAssoc(Start(s, p), o, " .");
  }

  lemma NotReadBack(r: Outcome<seq<Triple>>, t: Triple)
    requires Without(r, t.obj)
    ensures r != Ok([t])
  {
    assert [t][0] == t;
  }

  lemma BareReads(isPrint: char -> bool, s: string, p: string, o: string)
    requires Bare(o)
    ensures ReadTriple(isPrint, IriTriple(s, p, o), map[]).obj == o
  {
  }

  lemma BrokenObject(isPrint: char -> bool, s: string, p: string, o: string)
    requires TermOk(s) && TermOk(p) && Bare(o) && Loose(o) && !Keyword(FormatTerm(s))
    requires '.' in o || '#' in o || ';' in o
    ensures Without(Parse(Print(isPrint, [IriTriple(s, p, o)], [])), o)
  {
    var line := Start(s, p) + (o + " .");
    DottedPrints(isPrint, s, p, o);
    if '#' in o {
      CommentedWithout(s, p, o, line);
    } else {
      UncommentedWithout(s, p, o, line);
    }
  }

  lemma WholeIsUndotted(o: string)
    requires Loose(o) && '.' !in o && '#' !in o && ';' !in o
    ensures Undotted(o)
  {
    forall i | 0 <= i < |o| ensures InWord(o[i]) {
      assert o[i] in o;
    }
  }

  /** A name that is printed bare as an object is read back exactly when it has no dot, hash or semicolon. */
  lemma BareObject(isPrint: char -> bool, s: string, p: string, o: string)
    requires PrintTable(isPrint)
    requires TermOk(s) && TermOk(p) && Bare(o) && Loose(o) && !Keyword(FormatTerm(s))
    ensures var t := IriTriple(s, p, o);
            Parse(Print(isPrint, [t], [])) == Ok([ReadTriple(isPrint, t, map[])])
            <==> '.' !in o && '#' !in o && ';' !in o
  {
    var t := IriTriple(s, p, o);
    if '.' in o || '#' in o || ';' in o {
      BrokenObject(isPrint, s, p, o);
      BareReads(isPrint, s, p, o);
      NotReadBack(Parse(Print(isPrint, [t], [])), ReadTriple(isPrint, t, map[]));
    } else {
      WholeIsUndotted(o);
      WholeObject(isPrint, s, p, o);
    }
  }
}

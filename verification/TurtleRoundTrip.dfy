/** What the parser makes of a printed graph. */
module TurtleRoundTrip {
  import opened Text
  import opened Lexis
  import opened Turtle

  /** strconv.IsPrint, of which only the ASCII part is fixed here. */
  ghost predicate PrintTable(isPrint: char -> bool) {
    forall c: char :: (' ' <= c <= '~' ==> isPrint(c)) && (c < ' ' || c == '\U{7F}' ==> !isPrint(c))
  }

  // ----- The graphs in question -----

  /** A text that the scanners leave alone when it stands without angle brackets. */
  ghost predicate BareOk(term: string) {
    forall i :: 0 <= i < |term| ==> Ordinary(term[i]) && term[i] != ';' && !IsSpace(term[i])
  }

  ghost predicate TermOk(term: string) {
    if Bare(term) then BareOk(term)
    else '>' !in TrimAngles(term) && '\n' !in TrimAngles(term)
  }

  ghost predicate SuffixOk(t: Triple) {
    if t.lang != "" then forall i :: 0 <= i < |t.lang| ==> Ordinary(t.lang[i]) && !IsSpace(t.lang[i])
    else forall c :: c in t.datatype_ ==> c != '>' && c != ' ' && c != '\t' && c != '\n'
  }

  /** Nothing is asked of the text of a literal. */
  ghost predicate TripleOk(t: Triple) {
    && TermOk(t.subject) && TermOk(t.predicate_)
    && if t.objectLit then SuffixOk(t) else TermOk(t.obj)
  }

  ghost predicate PrefixOk(name: string, iri: string) {
    && (forall i :: 0 <= i < |name| ==> Ordinary(name[i]) && !IsSpace(name[i]))
    && (forall i :: 0 <= i < |iri| ==> iri[i] != '>' && !IsSpace(iri[i]))
  }

  ghost predicate GraphOk(g: seq<Triple>) {
    && (forall i :: 0 <= i < |g| ==> TripleOk(g[i]))
    && (|g| > 0 ==> !Keyword(FormatTerm(g[0].subject)))
  }

  predicate Keyword(s: string) { HasPrefix(s, "@prefix") || HasPrefix(s, "PREFIX") || HasPrefix(s, "prefix") }

  // ----- What is read back -----

  /** A bare term is resolved when its prefix is declared. */
  function ReadTerm(term: string, m: map<string, string>): string {
    if !Bare(term) then TrimAngles(term)
    else
      var idx := IndexByte(term, ':');
      if !HasPrefix(term, "_:") && idx > 0 && term[..idx] in m then m[term[..idx]] + term[idx + 1..] else term
  }

  function ReadTriple(isPrint: char -> bool, t: Triple, m: map<string, string>): Triple {
    var s, p := ReadTerm(t.subject, m), ReadTerm(t.predicate_, m);
    if t.objectLit then
      Triple(s, p, Unescape(EscapeAll(isPrint, t.obj)), true,
             if t.lang != "" then "" else TrimAngles(t.datatype_), t.lang)
    else IriTriple(s, p, ReadTerm(t.obj, m))
  }

  function ReadTriples(isPrint: char -> bool, g: seq<Triple>, m: map<string, string>): seq<Triple> {
    if g == [] then [] else [ReadTriple(isPrint, g[0], m)] + ReadTriples(isPrint, g[1..], m)
  }

  // ----- Tokens -----

  ghost predicate IsToken(w: string) {
    w != "" && Inert(w) && '\n' !in w && !IsSpace(w[0]) && !IsSpace(w[|w| - 1])
  }

  lemma TermIsToken(term: string)
    requires TermOk(term)
    ensures IsToken(FormatTerm(term))
  {
    var w := FormatTerm(term);
    if Bare(term) {
      BareIsNotEmpty(term);
      OrdinaryIsInert(w);
      assert '\n' !in w by {
        assert IsSpace('\n');
      }
    } else {
      BracketsAreInert(TrimAngles(term));
    }
  }

  lemma BareIsNotEmpty(term: string)
    ensures Bare(term) ==> term != ""
  {
    assert !Bare("");
  }

  /** The token at the start of `w + rest` is `w`. */
  ghost predicate Ends(w: string, rest: string) {
    w != "" && !IsSeparator(w[0]) && TokenEnd(w + rest) == Ok(|w|)
  }

  ghost predicate Gap(rest: string) { rest == "" || rest[0] == ' ' }

  ghost predicate NoBreak(w: string, semi: bool) {
    forall i :: 0 <= i < |w| ==> !IsBreak(w[i], semi)
  }

  lemma {:induction false} WordLengthOver(w: string, rest: string, semi: bool)
    requires NoBreak(w, semi) && Gap(rest)
    ensures WordLength(w + rest, semi) == |w|
  {
    if w == "" {
      EmptyConcat(w, rest);
    } else {
      assert (w + rest)[1..] == w[1..] + rest;
      WordLengthOver(w[1..], rest, semi);
    }
  }

  lemma TermEnds(term: string, rest: string)
    requires TermOk(term) && Gap(rest)
    ensures Ends(FormatTerm(term), rest)
  {
    var w := FormatTerm(term);
    if Bare(term) {
      BareIsNotEmpty(term);
      assert IsSpace(' ') && IsSpace('\t') && IsSpace('\n') && IsSpace('\r');
      assert (w + rest)[1..] == w[1..] + rest;
      WordLengthOver(w[1..], rest, true);
    } else {
      var x := TrimAngles(term);
      assert w + rest == ("<" + x) + ['>'] + rest;
      IndexByteSkips("<" + x, '>', rest);
    }
  }

  lemma TermExpands(term: string, prefixes: map<string, string>)
    requires TermOk(term)
    ensures Expand(FormatTerm(term), prefixes) == ReadTerm(term, prefixes)
  {
    TermIsToken(term);
    var w := FormatTerm(term);
    TrimSpaceKeeps(w);
    if !Bare(term) {
      assert w[1..|w| - 1] == TrimAngles(term);
    } else {
      BareIsNotEmpty(term);
      assert Ordinary(w[0]);
    }
  }

  // ----- Literals -----

  /** The shape of an escaped character: itself, or a backslash and a letter or more. */
  lemma EscapeShape(isPrint: char -> bool, c: char)
    requires PrintTable(isPrint)
    ensures var e := Escape(isPrint, c);
            || (e == [c] && Inner(c))
            || (|e| >= 2 && e[0] == '\\' && e[1] != '\n' && forall i :: 2 <= i < |e| ==> Inner(e[i]))
  {
    var n := c as nat;
    HexIsInner(n, 2);
    HexIsInner(n, 4);
    HexIsInner(n, 8);
  }

  predicate Inner(c: char) { c != '"' && c != '\\' && c != '\n' }

  lemma {:induction false} HexIsInner(n: nat, width: nat)
    ensures forall i :: 0 <= i < |Hex(n, width)| ==> Inner(Hex(n, width)[i])
  {
    if width > 0 {
      HexIsInner(n / 16, width - 1);
      DigitIsInner(n % 16);
    }
  }

  lemma DigitIsInner(d: nat)
    requires d < 16
    ensures Inner(HexDigit(d))
  {
  }

  lemma {:induction false} InsideQuotes(s: string)
    requires forall i :: 0 <= i < |s| ==> Inner(s[i])
    ensures Clear(Quoted, s) && Run(Quoted, s) == Quoted && StaysInside(Quoted, s)
  {
    if s != "" {
      InsideQuotes(s[1..]);
    }
  }

  lemma UnitStaysQuoted(isPrint: char -> bool, c: char)
    requires PrintTable(isPrint)
    ensures var e := Escape(isPrint, c);
            Clear(Quoted, e) && Run(Quoted, e) == Quoted && StaysInside(Quoted, e) && '\n' !in e
  {
    EscapeShape(isPrint, c);
    var e := Escape(isPrint, c);
    if e[0] == '\\' {
      var tail := e[2..];
      InsideQuotes(tail);
      assert e[1..][1..] == tail;
    } else {
      InsideQuotes(e);
    }
  }

  lemma {:induction false} BodyStaysQuoted(isPrint: char -> bool, s: string)
    requires PrintTable(isPrint)
    ensures var b := EscapeAll(isPrint, s);
            Clear(Quoted, b) && Run(Quoted, b) == Quoted && StaysInside(Quoted, b) && '\n' !in b
  {
    if s != "" {
      var e, b := Escape(isPrint, s[0]), EscapeAll(isPrint, s[1..]);
      UnitStaysQuoted(isPrint, s[0]);
      BodyStaysQuoted(isPrint, s[1..]);
      RunConcat(Quoted, e, b);
      ClearConcat(Quoted, e, b);
      StaysInsideConcat(Quoted, e, b);
    }
  }

  /** A text inside a literal ends there when a quote follows. */
  lemma {:induction false} UntilQuoteOver(q: Lex, body: string, rest: string)
    requires q == Quoted || q == Escaped
    requires Clear(q, body) && Run(q, body) == Quoted && StaysInside(q, body)
    ensures q == Quoted ==> UntilQuote(body + ("\"" + rest)) == |body|
    ensures q == Escaped ==> UntilQuote("\\" + body + ("\"" + rest)) == 1 + |body|
    decreases |body|
  {
    var tail := "\"" + rest;
    if body == "" {
      EmptyConcat(body, tail);
    } else {
      var q' := Step(q, body[0]);
      UntilQuoteOver(q', body[1..], rest);
      assert (body + tail)[1..] == body[1..] + tail;
      if q == Escaped {
        var w := "\\" + body + tail;
        assert w[2..] == body[1..] + tail;
      } else if q' == Escaped {
        assert [body[0]] + body[1..] == body;
      }
    }
  }

  /** No unescaped quote. */
  predicate StaysInside(q: Lex, s: string)
    decreases |s|
  {
    s == "" || (!(q == Quoted && s[0] == '"') && StaysInside(Step(q, s[0]), s[1..]))
  }

  lemma {:induction false} StaysInsideConcat(q: Lex, a: string, b: string)
    ensures StaysInside(q, a + b) <==> StaysInside(q, a) && StaysInside(Run(q, a), b)
    decreases |a|
  {
    if a == "" {
      EmptyConcat(a, b);
    } else {
      assert (a + b)[1..] == a[1..] + b;
      StaysInsideConcat(Step(q, a[0]), a[1..], b);
    }
  }

  lemma SuffixIsInert(t: Triple)
    requires SuffixOk(t)
    ensures Inert(Suffix(t)) && '\n' !in Suffix(t)
    ensures NoBreak(Suffix(t), false)
    ensures Suffix(t) != "" ==> !IsSpace(Suffix(t)[|Suffix(t)| - 1])
  {
    assert IsSpace(' ') && IsSpace('\t') && IsSpace('\n');
    if t.lang != "" {
      OrdinaryIsInert("@" + t.lang);
    } else if t.datatype_ != "" {
      BracketsAreInert(t.datatype_);
      OrdinaryIsInert("^^");
      InertConcat("^^", "<" + t.datatype_ + ">");
      assert "^^" + ("<" + t.datatype_ + ">") == Suffix(t);
      assert forall i :: 0 <= i < |t.datatype_| ==> t.datatype_[i] in t.datatype_;
      assert forall i :: 3 <= i < |Suffix(t)| - 1 ==> Suffix(t)[i] == t.datatype_[i - 3];
    }
  }

  lemma QuoteIsInert(isPrint: char -> bool, s: string)
    requires PrintTable(isPrint)
    ensures Inert(Quote(isPrint, s)) && '\n' !in Quote(isPrint, s)
  {
    var b := EscapeAll(isPrint, s);
    BodyStaysQuoted(isPrint, s);
    var w := Quote(isPrint, s);
    assert w[1..] == b + "\"";
    assert "\""[1..] == "";
    RunConcat(Quoted, b, "\"");
    ClearConcat(Quoted, b, "\"");
  }

  lemma LiteralIsToken(isPrint: char -> bool, t: Triple)
    requires PrintTable(isPrint) && SuffixOk(t)
    ensures IsToken(Quote(isPrint, t.obj) + Suffix(t))
  {
    QuoteIsInert(isPrint, t.obj);
    SuffixIsInert(t);
    InertConcat(Quote(isPrint, t.obj), Suffix(t));
  }

  /** A quoted text with something behind it: where it ends, and what it holds. */
  lemma QuoteEnds(isPrint: char -> bool, s: string, rest: string, r: string)
    requires PrintTable(isPrint) && r == Quote(isPrint, s) + rest
    ensures var k := |EscapeAll(isPrint, s)|;
            && |r| == 2 + k + |rest| && r[0] == '"' && UntilQuote(r[1..]) == k
            && r[1..1 + k] == EscapeAll(isPrint, s) && r[2 + k..] == rest
  {
    var b := EscapeAll(isPrint, s);
    BodyStaysQuoted(isPrint, s);
    UntilQuoteOver(Quoted, b, rest);
    QuotedSlices('"', b, rest, r);
  }

  lemma QuotedSlices<T>(c: T, b: seq<T>, rest: seq<T>, r: seq<T>)
    requires r == [c] + b + [c] + rest
    ensures r[0] == c && r[1..] == b + ([c] + rest) && r[1..1 + |b|] == b && r[2 + |b|..] == rest
  {
  }

  lemma TokenEndBehindQuote(r: string, k: nat)
    requires |r| > 1 + k && r[0] == '"' && UntilQuote(r[1..]) == k
    ensures !IsSeparator(r[0]) && TokenEnd(r) == Ok(2 + k + WordLength(r[2 + k..], false))
  {
  }

  lemma QuotedTokenEnds(isPrint: char -> bool, s: string, more: string, r: string)
    requires PrintTable(isPrint) && r == Quote(isPrint, s) + more
    ensures r != "" && !IsSeparator(r[0])
    ensures TokenEnd(r) == Ok(|Quote(isPrint, s)| + WordLength(more, false))
  {
    QuoteEnds(isPrint, s, more, r);
    TokenEndBehindQuote(r, |EscapeAll(isPrint, s)|);
  }

  lemma QuotedEnds(isPrint: char -> bool, s: string, suffix: string, rest: string)
    requires PrintTable(isPrint) && NoBreak(suffix, false) && Gap(rest)
    ensures Ends(Quote(isPrint, s) + suffix, rest)
  {
    WordLengthOver(suffix, rest, false);
    ConcatAssoc(Quote(isPrint, s), suffix, rest);
    QuotedTokenEnds(isPrint, s, suffix + rest, Quote(isPrint, s) + suffix + rest);
  }

  lemma LiteralEnds(isPrint: char -> bool, t: Triple, rest: string)
    requires PrintTable(isPrint) && SuffixOk(t) && Gap(rest)
    ensures Ends(Quote(isPrint, t.obj) + Suffix(t), rest)
  {
    SuffixIsInert(t);
    QuotedEnds(isPrint, t.obj, Suffix(t), rest);
  }

  lemma LiteralReads(isPrint: char -> bool, t: Triple)
    requires PrintTable(isPrint) && SuffixOk(t)
    ensures LiteralParts(Quote(isPrint, t.obj) + Suffix(t))
         == Ok((Unescape(EscapeAll(isPrint, t.obj)), t.lang, if t.lang != "" then "" else TrimAngles(t.datatype_)))
  {
    QuoteEnds(isPrint, t.obj, Suffix(t), Quote(isPrint, t.obj) + Suffix(t));
    SuffixReads(t);
  }

  lemma SuffixReads(t: Triple)
    ensures var sfx := Suffix(t);
            && (HasPrefix(sfx, "@") <==> t.lang != "")
            && (t.lang != "" ==> sfx[1..] == t.lang)
            && (HasPrefix(sfx, "^^") <==> t.lang == "" && t.datatype_ != "")
            && (t.lang == "" && t.datatype_ != "" ==> TrimAngles(sfx[2..]) == TrimAngles(t.datatype_))
  {
    var sfx := Suffix(t);
    if t.lang != "" {
      assert sfx[0] == '@';
    } else if t.datatype_ != "" {
      assert sfx[0] == '^' && sfx[1] == '^';
      assert sfx[..2] == "^^";
      assert sfx[2..] == "<" + t.datatype_ + ">";
      TrimAnglesAround(t.datatype_);
    }
  }

  // ----- Statements -----

  lemma ObjectIsToken(isPrint: char -> bool, t: Triple)
    requires PrintTable(isPrint) && TripleOk(t)
    ensures IsToken(FormatObject(isPrint, t)) && Ends(FormatObject(isPrint, t), "")
  {
    if t.objectLit {
      LiteralIsToken(isPrint, t);
      LiteralEnds(isPrint, t, "");
    } else {
      TermIsToken(t.obj);
      TermEnds(t.obj, "");
    }
  }

  /** The printed triple without its final " .\n". */
  function Line(isPrint: char -> bool, t: Triple): string {
    FormatTerm(t.subject) + " " + (FormatTerm(t.predicate_) + " " + FormatObject(isPrint, t))
  }

  lemma PrintTripleIsLine(isPrint: char -> bool, t: Triple)
    ensures PrintTriple(isPrint, t) == Line(isPrint, t) + " " + "." + "\n"
  {
  }

  lemma TokenPair(a: string, b: string)
    requires IsToken(a) && IsToken(b)
    ensures IsToken(a + " " + b)
  {
    OrdinaryIsInert(" ");
    InertConcat(a, " ");
    InertConcat(a + " ", b);
  }

  lemma LineIsToken(isPrint: char -> bool, t: Triple)
    requires PrintTable(isPrint) && TripleOk(t)
    ensures IsToken(Line(isPrint, t))
  {
    TermIsToken(t.subject);
    TermIsToken(t.predicate_);
    ObjectIsToken(isPrint, t);
    TokenPair(FormatTerm(t.predicate_), FormatObject(isPrint, t));
    TokenPair(FormatTerm(t.subject), FormatTerm(t.predicate_) + " " + FormatObject(isPrint, t));
  }

  lemma TokensStep(w: string, rest: string)
    requires Ends(w, " " + rest) && rest != "" && !IsSeparator(rest[0])
    ensures Tokens(w + " " + rest) == Prepend([w], Tokens(rest))
  {
    var gap := " " + rest;
    assert w + " " + rest == w + gap;
    assert (w + gap)[..|w|] == w && (w + gap)[|w|..] == gap;
    assert gap[1..] == rest;
    assert SkipSeparators(gap) == SkipSeparators(rest) == rest;
    assert Tokens(gap) == Tokens(rest);
  }

  lemma TokensLast(w: string, rest: string)
    requires rest == [] && Ends(w, rest)
    ensures Tokens(w) == Ok([w])
  {
    assert w + rest == w && w[..|w|] == w && w[|w|..] == rest;
    assert Tokens(rest) == Ok([]) && [w] + [] == [w];
  }

  lemma TokensOfThree(a: string, b: string, c: string)
    requires Ends(c, "") && Ends(b, " " + c) && Ends(a, " " + (b + " " + c))
    ensures Tokens(a + " " + (b + " " + c)) == Ok([a, b, c])
  {
    var last := [c];
    TokensLast(c, "");
    TokensStep(b, c);
    assert [b] + last == [b, c];
    TokensStep(a, b + " " + c);
    assert [a] + [b, c] == [a, b, c];
    ConcatAssoc(a, " ", b + " " + c);
  }

  lemma LineTokens(isPrint: char -> bool, t: Triple)
    requires PrintTable(isPrint) && TripleOk(t)
    ensures Tokens(Line(isPrint, t))
         == Ok([FormatTerm(t.subject), FormatTerm(t.predicate_), FormatObject(isPrint, t)])
  {
    var a, b, c := FormatTerm(t.subject), FormatTerm(t.predicate_), FormatObject(isPrint, t);
    ObjectIsToken(isPrint, t);
    TermEnds(t.predicate_, " " + c);
    TermEnds(t.subject, " " + (b + " " + c));
    TokensOfThree(a, b, c);
  }

  lemma ObjectReads(isPrint: char -> bool, t: Triple)
    requires PrintTable(isPrint) && TripleOk(t)
    ensures HasPrefix(FormatObject(isPrint, t), "\"") <==> t.objectLit
  {
    if t.objectLit {
      assert FormatObject(isPrint, t)[0] == '"';
    } else {
      BareIsNotEmpty(t.obj);
      assert Bare(t.obj) ==> Ordinary(t.obj[0]);
      assert FormatTerm(t.obj)[0] != '"';
    }
  }

  lemma StatementReads(isPrint: char -> bool, t: Triple, prefixes: map<string, string>, lead: string)
    requires PrintTable(isPrint) && TripleOk(t)
    requires AllSpace(lead)
    ensures StatementTriple(lead + Line(isPrint, t) + " ", prefixes) == Ok(Some(ReadTriple(isPrint, t, prefixes)))
  {
    LineIsToken(isPrint, t);
    TrimSpaceAround(lead, Line(isPrint, t), " ");
    LineTokens(isPrint, t);
    TermExpands(t.subject, prefixes);
    TermExpands(t.predicate_, prefixes);
    ObjectReads(isPrint, t);
    if t.objectLit {
      LiteralReads(isPrint, t);
    } else {
      TermExpands(t.obj, prefixes);
    }
  }

  lemma StatementsStep(chunk: string, tail: string)
    requires Inert(chunk)
    ensures Statements(chunk + "." + tail) == [chunk] + Statements(tail)
  {
    SplitStep(chunk, "." + tail, tail);
    ConcatAssoc(chunk, ".", tail);
    var pieces := Split(tail);
    var n := |pieces| - 1;
    assert ([chunk] + pieces)[..n + 1] == [chunk] + pieces[..n];
    ConcatAssoc([chunk], pieces[..n], LastPiece(pieces[n]));
  }

  lemma SplitStep(chunk: string, rest: string, tail: string)
    requires Inert(chunk) && rest != "" && rest[0] == '.' && rest[1..] == tail
    ensures Split(chunk + rest) == [chunk] + Split(tail)
  {
    CutSkips(Plain, chunk, rest, '.');
    assert (chunk + rest)[..|chunk|] == chunk && (chunk + rest)[|chunk| + 1..] == tail;
  }

  /** The printed triples without the white space at their end. */
  function Body(isPrint: char -> bool, g: seq<Triple>): string { TrimRight(PrintTriples(isPrint, g)) }

  lemma BodyStep(isPrint: char -> bool, g: seq<Triple>)
    requires PrintTable(isPrint) && g != [] && TripleOk(g[0])
    requires |g| > 1 ==> TripleOk(g[1])
    ensures Body(isPrint, g)
         == Line(isPrint, g[0]) + " " + "." + (if |g| == 1 then "" else "\n" + Body(isPrint, g[1..]))
  {
    var head := Line(isPrint, g[0]) + " " + ".";
    PrintTripleIsLine(isPrint, g[0]);
    var more := PrintTriples(isPrint, g[1..]);
    ConcatAssoc(head, "\n", more);
    TrimRightStops(head, "\n" + more);
    if |g| == 1 {
      assert more == "" && "\n" + more == "\n";
      TrimRightSkips("", "\n");
      assert "" + "\n" == "\n";
    } else {
      PrintTripleIsLine(isPrint, g[1]);
      var head' := Line(isPrint, g[1]) + " " + ".";
      var tail := "\n" + PrintTriples(isPrint, g[2..]);
      assert g[1..][1..] == g[2..];
      ConcatAssoc(head', "\n", PrintTriples(isPrint, g[2..]));
      assert more == head' + tail;
      TrimRightStops(head', tail);
      ConcatAssoc("\n", head', tail);
      TrimRightStops("\n" + head', tail);
      ConcatAssoc("\n", head', TrimRight(tail));
    }
  }

  lemma {:induction false} BodyReads(isPrint: char -> bool, g: seq<Triple>,
                                     prefixes: map<string, string>, lead: string)
    requires PrintTable(isPrint)
    requires forall i :: 0 <= i < |g| ==> TripleOk(g[i])
    requires lead == "" || lead == "\n"
    requires g == [] ==> lead == ""
    ensures Triples(Statements(lead + Body(isPrint, g)), prefixes) == Ok(ReadTriples(isPrint, g, prefixes))
    decreases |g|
  {
    if g == [] {
      assert lead + Body(isPrint, g) == "";
      assert Statements("") == [];
    } else {
      var rest := g[1..];
      var lead' := if rest == [] then "" else "\n";
      BodyReads(isPrint, rest, prefixes, lead');
      BodyStep(isPrint, g);
      var line, tail := Line(isPrint, g[0]), lead' + Body(isPrint, rest);
      assert rest == [] ==> tail == "";
      ConcatAssoc(lead, line, " ");
      ConcatAssoc(lead, line + " ", ".");
      ConcatAssoc(lead, line + " " + ".", tail);
      ChunkIsInert(isPrint, g[0], lead);
      StatementReads(isPrint, g[0], prefixes, lead);
      ChunkReads(lead + line + " ", tail, prefixes);
    }
  }

  lemma ChunkReads(chunk: string, tail: string, prefixes: map<string, string>)
    requires Inert(chunk)
    requires StatementTriple(chunk, prefixes).Ok? && StatementTriple(chunk, prefixes).value.Some?
    requires Triples(Statements(tail), prefixes).Ok?
    ensures Triples(Statements(chunk + "." + tail), prefixes)
         == Ok([StatementTriple(chunk, prefixes).value.value] + Triples(Statements(tail), prefixes).value)
  {
    StatementsStep(chunk, tail);
    assert ([chunk] + Statements(tail))[1..] == Statements(tail);
  }

  lemma ChunkIsInert(isPrint: char -> bool, t: Triple, lead: string)
    requires PrintTable(isPrint) && TripleOk(t)
    requires lead == "" || lead == "\n"
    ensures Inert(lead + Line(isPrint, t) + " ")
  {
    LineIsToken(isPrint, t);
    OrdinaryIsInert(lead);
    OrdinaryIsInert(" ");
    InertConcat(lead, Line(isPrint, t));
    InertConcat(lead + Line(isPrint, t), " ");
  }

  // ----- Comments and lines -----

  lemma UncommentLine(line: string, rest: string)
    requires '\n' !in line && (line != "" ==> line[|line| - 1] != '\r')
    requires Cut(Plain, line, '#') == |line|
    ensures Uncomment(Lines(line + "\n" + rest)) == line + "\n" + Uncomment(Lines(rest))
  {
    var data := line + "\n" + rest;
    IndexByteSkips(line, '\n', rest);
    assert data[..|line|] == line && data[|line| + 1..] == rest;
    assert DropCR(line) == line;
    assert StripComment(line) == line;
    assert ([line] + Lines(rest))[1..] == Lines(rest);
  }

  lemma {:induction false} TriplesBeforeText(isPrint: char -> bool, g: seq<Triple>, rest: string)
    requires PrintTable(isPrint)
    requires forall i :: 0 <= i < |g| ==> TripleOk(g[i])
    ensures Uncomment(Lines(PrintTriples(isPrint, g) + rest)) == PrintTriples(isPrint, g) + Uncomment(Lines(rest))
    decreases |g|
  {
    if g == [] {
      EmptyConcat(PrintTriples(isPrint, g), rest);
      EmptyConcat(PrintTriples(isPrint, g), Uncomment(Lines(rest)));
    } else {
      var line, more := Line(isPrint, g[0]) + " " + ".", PrintTriples(isPrint, g[1..]);
      PrintTripleIsLine(isPrint, g[0]);
      PrintedLineIsKept(isPrint, g[0]);
      ConcatAssoc(line + "\n", more, rest);
      UncommentLine(line, more + rest);
      TriplesBeforeText(isPrint, g[1..], rest);
      ConcatAssoc(line + "\n", more, Uncomment(Lines(rest)));
    }
  }

  lemma PrintedLineIsKept(isPrint: char -> bool, t: Triple)
    requires PrintTable(isPrint) && TripleOk(t)
    ensures var line := Line(isPrint, t) + " " + ".";
            '\n' !in line && Cut(Plain, line, '#') == |line| && line[|line| - 1] == '.'
  {
    ChunkIsInert(isPrint, t, "");
    assert "" + Line(isPrint, t) + " " == Line(isPrint, t) + " ";
    CutSkips(Plain, Line(isPrint, t) + " ", ".", '#');
    assert "."[1..] == "" && Cut(Plain, ".", '#') == 1;
    LineIsToken(isPrint, t);
  }

  lemma TriplesHaveNoComment(isPrint: char -> bool, g: seq<Triple>)
    requires PrintTable(isPrint)
    requires forall i :: 0 <= i < |g| ==> TripleOk(g[i])
    ensures Uncomment(Lines(PrintTriples(isPrint, g))) == PrintTriples(isPrint, g)
  {
    TriplesBeforeText(isPrint, g, "");
    ConcatEmpty(PrintTriples(isPrint, g), "");
    ConcatEmpty(PrintTriples(isPrint, g), Uncomment(Lines("")));
  }

  // ----- Prefix declarations -----

  /** The prefix map that the declarations stand for. */
  function PrefixMap(ps: seq<(string, string)>, m: map<string, string>): map<string, string>
    decreases |ps|
  {
    if ps == [] then m else PrefixMap(ps[1..], m[ps[0].0 := TrimAngles(ps[0].1)])
  }

  /** A declaration between its keyword and its '.'. */
  function Declaration(name: string, iri: string): string { name + ":" + " " + ("<" + iri + ">") }

  lemma PrintPrefixIsDeclaration(name: string, iri: string)
    ensures PrintPrefix(name, iri) == "@prefix" + " " + Declaration(name, iri) + " " + "." + "\n"
  {
    assert "@prefix " == "@prefix" + " " && ": <" == ":" + " " + "<" && "> .\n" == ">" + " " + "." + "\n";
  }

  lemma DeclarationIsToken(name: string, iri: string)
    requires PrefixOk(name, iri)
    ensures IsToken(Declaration(name, iri))
  {
    assert IsSpace('\n');
    OrdinaryIsInert(name + ":");
    BracketsAreInert(iri);
    TokenPair(name + ":", "<" + iri + ">");
  }

  lemma DeclarationReads(name: string, iri: string)
    requires PrefixOk(name, iri)
    ensures TrimSpace(Declaration(name, iri) + " ") == Declaration(name, iri)
    ensures Fields(Declaration(name, iri)) == [name + ":", "<" + iri + ">"]
  {
    DeclarationIsToken(name, iri);
    FieldsOfTwo(name + ":", "<" + iri + ">");
    ConcatAssoc(name + ":", " ", "<" + iri + ">");
    TrimRightSkips(Declaration(name, iri), " ");
  }

  lemma FieldsStep(w: string, rest: string)
    requires w != "" && NoSpace(w) && (rest == "" || IsSpace(rest[0]))
    ensures Fields(w + rest) == [w] + Fields(rest)
  {
    WordEndAt(w + rest, w);
    assert (w + rest)[..|w|] == w && (w + rest)[|w|..] == rest;
  }

  lemma FieldsOfTwo(a: string, b: string)
    requires a != "" && b != "" && NoSpace(a) && NoSpace(b)
    ensures Fields(a + (" " + b)) == [a, b]
  {
    FieldsStep(a, " " + b);
    assert (" " + b)[1..] == b;
    assert TrimLeft(" " + b) == TrimLeft(b);
    assert Fields(" " + b) == Fields(b);
    FieldsStep(b, []);
    assert b + [] == b && Fields([]) == [];
  }

  lemma {:induction false} WordEndAt(s: string, w: string)
    requires w <= s && NoSpace(w) && (|w| < |s| ==> IsSpace(s[|w|]))
    ensures WordEnd(s) == |w|
  {
    if w != "" {
      WordEndAt(s[1..], w[1..]);
    }
  }

  lemma PrefixesHaveNoComment(ps: seq<(string, string)>, rest: string)
    requires forall i :: 0 <= i < |ps| ==> PrefixOk(ps[i].0, ps[i].1)
    ensures Uncomment(Lines(PrintPrefixes(ps) + rest)) == PrintPrefixes(ps) + Uncomment(Lines(rest))
    decreases |ps|
  {
    if ps == [] {
      assert PrintPrefixes(ps) + rest == rest;
    } else {
      var d := Declaration(ps[0].0, ps[0].1);
      var line := "@prefix" + " " + d + " " + ".";
      var more := PrintPrefixes(ps[1..]);
      PrintPrefixIsDeclaration(ps[0].0, ps[0].1);
      DeclarationIsToken(ps[0].0, ps[0].1);
      OrdinaryIsInert("@prefix" + " ");
      OrdinaryIsInert(" ");
      InertConcat("@prefix" + " ", d);
      InertConcat("@prefix" + " " + d, " ");
      CutSkips(Plain, "@prefix" + " " + d + " ", ".", '#');
      assert "."[1..] == "" && Cut(Plain, ".", '#') == 1;
      ConcatAssoc(line + "\n", more, rest);
      UncommentLine(line, more + rest);
      PrefixesHaveNoComment(ps[1..], rest);
      ConcatAssoc(line + "\n", more, Uncomment(Lines(rest)));
    }
  }

  lemma AfterPrefix(t: string, after: string)
    requires t == "@prefix" + (" " + after) && after != "" && !IsSpace(after[0])
    ensures AfterKeyword(t) == TrimRight(after)
  {
    assert t[..7] == "@prefix" && t[7..] == " " + after;
    TrimLeftSkips(" ", after);
  }

  /** One declaration of the prologue. */
  lemma PrologueStep(text: string, d: string, tail: string, name: string, iri: string, m: map<string, string>)
    requires Inert(d) && Fields(TrimSpace(d + " ")) == [name, iri]
    requires AfterKeyword(TrimSpace(text)) == d + " " + ("." + tail)
    ensures Prologue(text, m) == Prologue(tail, m[TrimSuffix(name, ":") := TrimAngles(iri)])
  {
    OrdinaryIsInert(" ");
    InertConcat(d, " ");
    var rest := d + " " + ("." + tail);
    CutSkips(Plain, d + " ", "." + tail, '.');
    var end := Cut(Plain, rest, '.');
    assert rest[..end] == d + " " && rest[end + 1..] == tail;
  }

  lemma DeclarationRead(name: string, iri: string, tail: string, text: string, m: map<string, string>)
    requires PrefixOk(name, iri) && TrimRight(tail) == tail
    requires TrimSpace(text) == "@prefix" + (" " + (Declaration(name, iri) + " " + ("." + tail)))
    ensures Prologue(text, m) == Prologue(tail, m[name := TrimAngles(iri)])
  {
    var d := Declaration(name, iri);
    DeclarationIsToken(name, iri);
    DeclarationReads(name, iri);
    AfterPrefix(TrimSpace(text), d + " " + ("." + tail));
    ConcatAssoc(d + " ", ".", tail);
    TrimRightStops(d + " " + ".", tail);
    PrologueStep(text, d, tail, name + ":", "<" + iri + ">", m);
    TrimAnglesAround(iri);
    assert (name + ":")[|name|..] == ":" && (name + ":")[..|name|] == name;
  }

  lemma {:induction false} PrologueSkips(ps: seq<(string, string)>, rest: string, m: map<string, string>)
    requires forall i :: 0 <= i < |ps| ==> PrefixOk(ps[i].0, ps[i].1)
    ensures Prologue(PrintPrefixes(ps) + rest, m) == Prologue(rest, PrefixMap(ps, m))
    decreases |ps|
  {
    var text := PrintPrefixes(ps) + rest;
    if ps == [] {
      assert text == rest;
    } else {
      var (name, iri) := ps[0];
      var head := "@prefix" + " " + Declaration(name, iri) + " " + ".";
      var more := PrintPrefixes(ps[1..]) + rest;
      PrintPrefixIsDeclaration(name, iri);
      ConcatAssoc(head + "\n", PrintPrefixes(ps[1..]), rest);
      ConcatAssoc(head, "\n", more);
      DeclarationThenRest(name, iri, more, m);
      PrologueSkips(ps[1..], rest, m[name := TrimAngles(iri)]);
    }
  }

  lemma PrologueReads(ps: seq<(string, string)>, rest: string, m: map<string, string>)
    requires forall i :: 0 <= i < |ps| ==> PrefixOk(ps[i].0, ps[i].1)
    requires !Keyword(TrimSpace(rest))
    ensures Prologue(PrintPrefixes(ps) + rest, m) == Ok((TrimSpace(rest), PrefixMap(ps, m)))
  {
    PrologueSkips(ps, rest, m);
  }

  lemma DeclarationThenRest(name: string, iri: string, more: string, m: map<string, string>)
    requires PrefixOk(name, iri)
    ensures Prologue("@prefix" + " " + Declaration(name, iri) + " " + "." + ("\n" + more), m)
         == Prologue(more, m[name := TrimAngles(iri)])
  {
    var d, gap := Declaration(name, iri), "\n" + more;
    var head := "@prefix" + " " + d + " " + ".";
    var tail := TrimRight(gap);
    assert (head + gap)[0] == '@';
    TrimRightStops(head, gap);
    TrimRightIdempotent(gap);
    FiveConcat("@prefix", " ", d, " ", ".", tail);
    DeclarationRead(name, iri, tail, head + gap, m);
    TrimSpaceOfTrimRight(gap);
    TrimLeftSkips("\n", more);
  }

  lemma FiveConcat<T>(a: seq<T>, b: seq<T>, c: seq<T>, d: seq<T>, e: seq<T>, f: seq<T>)
    ensures a + b + c + d + e + f == a + (b + (c + d + (e + f)))
  {
  }

  // ----- The whole document -----

  lemma BodyStart(isPrint: char -> bool, g: seq<Triple>)
    requires PrintTable(isPrint) && forall i :: 0 <= i < |g| ==> TripleOk(g[i])
    ensures TrimSpace(PrintTriples(isPrint, g)) == Body(isPrint, g)
    ensures TrimSpace("\n" + PrintTriples(isPrint, g)) == Body(isPrint, g)
  {
    var text := PrintTriples(isPrint, g);
    TrimLeftSkips("\n", text);
    if g != [] {
      TermIsToken(g[0].subject);
      assert text[0] == FormatTerm(g[0].subject)[0];
    }
  }

  lemma BodyHasNoKeyword(isPrint: char -> bool, g: seq<Triple>)
    requires PrintTable(isPrint) && GraphOk(g)
    ensures !Keyword(Body(isPrint, g))
  {
    if g != [] {
      BodyStep(isPrint, g);
      NoKeyword(FormatTerm(g[0].subject), Line(isPrint, g[0]));
      NoKeyword(Line(isPrint, g[0]), Body(isPrint, g));
    }
  }

  lemma NoKeyword(w: string, text: string)
    requires !Keyword(w) && w + " " <= text
    ensures !Keyword(text)
  {
    assert text[|w|] == ' ';
    assert w == text[..|w|];
  }

  /** What parsing a printed graph yields, whatever its literals hold: every triple in
      its place, IRIs and datatypes without angle brackets around them, no datatype
      beside a language, and literals as the escapes leave them. */
  lemma ParsePrint(isPrint: char -> bool, g: seq<Triple>, ps: seq<(string, string)>)
    requires PrintTable(isPrint) && GraphOk(g)
    requires forall i :: 0 <= i < |ps| ==> PrefixOk(ps[i].0, ps[i].1)
    ensures Parse(Print(isPrint, g, ps)) == Ok(ReadTriples(isPrint, g, PrefixMap(ps, map[])))
    ensures Prologue(Print(isPrint, g, ps), map[]) == Ok((Body(isPrint, g), PrefixMap(ps, map[])))
  {
    var text := PrintTriples(isPrint, g);
    var rest := (if ps == [] then "" else "\n") + text;
    EmptyConcat("", text);
    EmptyConcat("", "\n");
    ConcatAssoc(PrintPrefixes(ps), if ps == [] then "" else "\n", text);
    TriplesHaveNoComment(isPrint, g);
    assert Cut(Plain, "", '#') == 0;
    UncommentLine("", text);
    PrefixesHaveNoComment(ps, rest);
    BodyStart(isPrint, g);
    BodyHasNoKeyword(isPrint, g);
    PrologueReads(ps, rest, map[]);
    BodyReads(isPrint, g, PrefixMap(ps, map[]), "");
    EmptyConcat("", Body(isPrint, g));
  }
}

/** One update request with two blocks, and the two requests that it is taken for. */
module UpdateBlocks {
  import opened Text
  import opened Lexis
  import opened Turtle
  import opened TurtleRoundTrip
  import opened TurtleDots
  import opened Update

  // ----- What is taken for the blocks -----

  /** What stands between the blocks. */
  function Glue(k: string): string { "}" + " ; " + k + " {" }

  /** The first block as it is extracted: up to the last brace of the request. */
  function Long(first: string, k: string, second: string): string { first + Glue(k) + second }

  /** A request that says one thing and then another. */
  function Both(j: string, first: string, k: string, second: string): string { Request(j, Long(first, k, second)) }

  lemma UpperLong(first: string, k: string, second: string)
    requires UpdateKeyword(k)
    ensures Upper(Long(first, k, second)) == Upper(first) + ['}'] + (" ; " + (k + (" {" + Upper(second))))
  {
  }

  lemma {:induction false} IndexPast(gap: string, p: string, rest: string)
    requires p != "" && p[0] !in gap
    ensures Index(gap + (p + rest), p) == |gap|
  {
    if gap == "" {
      EmptyConcat(gap, p + rest);
    } else {
      assert (gap + (p + rest))[0] == gap[0] && gap[0] in gap;
      assert (gap + (p + rest))[1..] == gap[1..] + (p + rest);
      IndexPast(gap[1..], p, rest);
    }
  }

  lemma SecondIsFound(j: string, first: string, k: string, second: string)
    requires UpdateKeyword(j) && UpdateKeyword(k) && j != k && !Contains(Upper(first), k)
    ensures Index(Upper(Both(j, first, k, second)), k) == |j| + 2 + |first| + 4
  {
    var gap := " ; ";
    UpperLong(first, k, second);
    KeywordsHaveNoBraces();
    assert k[0] == 'I' || k[0] == 'D';
    IndexPast(gap, k, " {" + Upper(second));
    IndexBehind(Upper(first), '}', gap + (k + (" {" + Upper(second))), k);
    OtherKeyword(j, k, Long(first, k, second));
  }

  lemma SecondSlices(j: string, first: string, k: string, second: string)
    ensures var u := Both(j, first, k, second);
            && |u| >= |j| + 2 + |first| + 4 + |k|
            && u[|j| + 2 + |first| + 4 + |k|..] == " " + "{" + (second + "}")
  {
    var head := j + " " + "{" + first + "}" + " ; " + k;
    assert Both(j, first, k, second) == head + (" " + "{" + (second + "}"));
    assert |head| == |j| + 2 + |first| + 4 + |k|;
  }

  lemma BracedSlices(rest: string, second: string)
    requires rest == " " + "{" + (second + "}")
    ensures IndexByte(rest, '{') == 1 && LastIndexByte(rest, '}') == |rest| - 1 && rest[2..|rest| - 1] == second
  {
    FirstIs(second + "}");
    LastIs(rest, '}');
  }

  /** The first block is extracted with the second request in it, the second block as it is. */
  lemma BlocksExtracted(j: string, first: string, k: string, second: string)
    requires UpdateKeyword(j) && UpdateKeyword(k) && j != k && !Contains(Upper(first), k)
    ensures var u := Both(j, first, k, second);
            && Contains(Upper(u), j) && ExtractBraceBlock(u, j) == Long(first, k, second)
            && Contains(Upper(u), k) && ExtractBraceBlock(u, k) == second
  {
    BlockIsExtracted(j, Long(first, k, second));
    SecondIsFound(j, first, k, second);
    SecondSlices(j, first, k, second);
    BracedSlices(Both(j, first, k, second)[|j| + 2 + |first| + 4 + |k|..], second);
  }

  /** What such a request does, whichever comes first: it deletes, and then it inserts. */
  lemma BothBlocks(g: seq<Triple>, first: string, second: string, long: seq<Triple>, short: seq<Triple>)
    requires Parse(second) == Ok(short)
    ensures !Contains(Upper(first), DELETE_DATA) && Parse(Long(first, DELETE_DATA, second)) == Ok(long) ==>
              Updated(g, Both(INSERT_DATA, first, DELETE_DATA, second)) == Ok(Without(g, short) + long)
    ensures !Contains(Upper(first), INSERT_DATA) && Parse(Long(first, INSERT_DATA, second)) == Ok(long) ==>
              Updated(g, Both(DELETE_DATA, first, INSERT_DATA, second)) == Ok(Without(g, long) + short)
  {
    KeywordsDiffer();
    if !Contains(Upper(first), DELETE_DATA) {
      RequestIsTrimmed(INSERT_DATA, Long(first, DELETE_DATA, second));
      BlocksExtracted(INSERT_DATA, first, DELETE_DATA, second);
    }
    if !Contains(Upper(first), INSERT_DATA) {
      RequestIsTrimmed(DELETE_DATA, Long(first, INSERT_DATA, second));
      BlocksExtracted(DELETE_DATA, first, INSERT_DATA, second);
    }
  }

  // ----- The second request, read as a statement of the first block -----

  /** What the words between the blocks are read as. */
  function Odd(verb: string): Triple { IriTriple("}", verb, "DATA") }

  ghost predicate IsVerb(verb: string) { verb == "INSERT" || verb == "DELETE" }

  function KeywordOf(verb: string): string { verb + " " + "DATA" }

  /** The first word behind the brace is one token with it. */
  ghost predicate Unbroken(isPrint: char -> bool, g: seq<Triple>) {
    g != [] ==> NoBreak(FormatTerm(g[0].subject), true)
  }

  /** The words, as tokens. */
  function Words(verb: string, rest: string): string { "}" + (" ; " + (verb + (" " + ("DATA" + (" " + rest))))) }

  lemma GlueIsWords(verb: string, more: string)
    ensures Glue(KeywordOf(verb)) + more == Words(verb, "{" + more)
  {
  }

  lemma GlueIsInert(verb: string)
    requires IsVerb(verb)
    ensures var glue := Glue(KeywordOf(verb));
            Inert(glue) && '\n' !in glue && glue != "" && glue[0] == '}' && glue[|glue| - 1] == '{'
  {
    VerbIsWord(verb);
    var glue := Glue(KeywordOf(verb));
    assert glue == "} ; " + verb + " DATA {";
    assert forall i :: 0 <= i < |verb| ==> Ordinary(verb[i]) && verb[i] != '\n';
    OrdinaryIsInert(glue);
  }

  lemma VerbIsWord(verb: string)
    requires IsVerb(verb)
    ensures Undotted(verb) && verb != "" && verb[0] != '"' && verb[0] != '<' && !IsSeparator(verb[0])
  {
  }

  /** A token, separators, and what is behind them. */
  lemma TokenThen(w: string, gap: string, more: string, toks: seq<string>)
    requires Undotted(w) && w != "" && gap != "" && gap[0] == ' ' && Tokens(more) == Ok(toks)
    requires forall i :: 0 <= i < |gap| ==> IsSeparator(gap[i])
    ensures Tokens(w + (gap + more)) == Ok([w] + toks)
  {
    WordEnds(w, gap + more);
    SeparatorsSkip(gap, more);
    TokensSkip(gap + more, more);
    TokenTaken(w, gap + more, toks);
  }

  lemma WordsTokens(brace: string, verb: string, data: string, rest: string, toks: seq<string>)
    requires brace == "}" && IsVerb(verb) && data == "DATA" && Tokens(rest) == Ok(toks)
    ensures Tokens(brace + (" ; " + (verb + (" " + (data + (" " + rest))))))
         == Ok([brace] + ([verb] + ([data] + toks)))
  {
    VerbIsWord(verb);
    TokenThen(data, " ", rest, toks);
    TokenThen(verb, " ", data + (" " + rest), [data] + toks);
    TokenThen(brace, " ; ", verb + (" " + (data + (" " + rest))), [verb] + ([data] + toks));
  }

  lemma WordsExpand(brace: string, verb: string, data: string)
    requires brace == "}" && IsVerb(verb) && data == "DATA"
    ensures Expand(brace, map[]) == brace && Expand(verb, map[]) == verb && Expand(data, map[]) == data
    ensures !HasPrefix(data, "\"")
  {
    VerbIsWord(verb);
    HeadExpands(brace);
    HeadExpands(verb);
    HeadExpands(data);
  }

  lemma WordsTrimmed(brace: string, gap: string, more: string, lead: string, end: string)
    requires brace == "}" && more != "" && !IsSpace(more[|more| - 1]) && AllSpace(lead) && AllSpace(end)
    ensures TrimSpace(lead + (brace + (gap + more)) + end) == brace + (gap + more)
  {
    var stmt := brace + (gap + more);
    assert stmt[0] == '}' && stmt[|stmt| - 1] == more[|more| - 1];
    TrimSpaceAround(lead, stmt, end);
  }

  lemma LastOfWords(verb: string, data: string, rest: string)
    requires rest != ""
    ensures var more := verb + (" " + (data + (" " + rest))); more != "" && more[|more| - 1] == rest[|rest| - 1]
  {
  }

  /** The words and what is behind them are read as one odd triple. */
  lemma WordsRead(brace: string, verb: string, data: string, rest: string, toks: seq<string>, lead: string, end: string)
    requires brace == "}" && IsVerb(verb) && data == "DATA" && Tokens(rest) == Ok(toks)
    requires AllSpace(lead) && AllSpace(end) && rest != "" && !IsSpace(rest[|rest| - 1])
    ensures var stmt := brace + (" ; " + (verb + (" " + (data + (" " + rest)))));
            StatementTriple(lead + stmt + end, map[]) == Ok(Some(IriTriple(brace, verb, data)))
  {
    var more := verb + (" " + (data + (" " + rest)));
    var stmt := brace + (" ; " + more);
    WordsTokens(brace, verb, data, rest, toks);
    LastOfWords(verb, data, rest);
    WordsTrimmed(brace, " ; ", more, lead, end);
    WordsExpand(brace, verb, data);
    ThreeFirst(stmt, brace, verb, data, toks, lead + stmt + end);
  }

  lemma ThreeFirst(stmt: string, a: string, b: string, c: string, more: seq<string>, text: string)
    requires TrimSpace(text) == stmt && stmt != "" && Tokens(stmt) == Ok([a] + ([b] + ([c] + more)))
    requires Expand(a, map[]) == a && Expand(b, map[]) == b && Expand(c, map[]) == c && !HasPrefix(c, "\"")
    ensures StatementTriple(text, map[]) == Ok(Some(IriTriple(a, b, c)))
  {
    var toks := [a] + ([b] + ([c] + more));
    assert toks[0] == a && toks[1] == b && toks[2] == c && |toks| >= 3;
  }

  lemma BraceRegroups(a: string, b: string, c: string)
    ensures "{" + (a + " " + (b + " " + c)) == "{" + a + " " + (b + " " + c)
  {
  }

  lemma BraceLineTokens(isPrint: char -> bool, t: Triple)
    requires PrintTable(isPrint) && TripleOk(t) && NoBreak(FormatTerm(t.subject), true)
    ensures Tokens("{" + Line(isPrint, t))
         == Ok(["{" + FormatTerm(t.subject), FormatTerm(t.predicate_), FormatObject(isPrint, t)])
  {
    ObjectIsToken(isPrint, t);
    TermEnds(t.predicate_, " " + FormatObject(isPrint, t));
    ThreeBraced(FormatTerm(t.subject), FormatTerm(t.predicate_), FormatObject(isPrint, t));
  }

  lemma ThreeBraced(a: string, b: string, c: string)
    requires NoBreak(a, true) && Ends(b, " " + c) && Ends(c, "")
    ensures Tokens("{" + (a + " " + (b + " " + c))) == Ok(["{" + a, b, c])
  {
    BraceEnds(a, " " + (b + " " + c));
    TokensOfThree("{" + a, b, c);
    BraceRegroups(a, b, c);
  }

  lemma BraceEnds(a: string, rest: string)
    requires NoBreak(a, true) && Gap(rest)
    ensures Ends("{" + a, rest)
  {
    WordLengthOver(a, rest, true);
    assert ("{" + a + rest)[1..] == a + rest;
  }

  lemma GlueLineReads(isPrint: char -> bool, verb: string, t: Triple, lead: string)
    requires PrintTable(isPrint) && IsVerb(verb) && TripleOk(t) && NoBreak(FormatTerm(t.subject), true)
    requires AllSpace(lead)
    ensures StatementTriple(lead + (Glue(KeywordOf(verb)) + Line(isPrint, t)) + " ", map[]) == Ok(Some(Odd(verb)))
  {
    var rest := "{" + Line(isPrint, t);
    BraceLineTokens(isPrint, t);
    LineIsToken(isPrint, t);
    assert rest[|rest| - 1] == Line(isPrint, t)[|Line(isPrint, t)| - 1];
    GlueIsWords(verb, Line(isPrint, t));
    WordsRead("}", verb, "DATA", rest,
              ["{" + FormatTerm(t.subject), FormatTerm(t.predicate_), FormatObject(isPrint, t)], lead, " ");
  }

  lemma GlueAloneReads(verb: string, lead: string, end: string)
    requires IsVerb(verb) && AllSpace(lead) && end == ""
    ensures StatementTriple(lead + Glue(KeywordOf(verb)) + end, map[]) == Ok(Some(Odd(verb)))
  {
    var glue, brace := Glue(KeywordOf(verb)), "{" + end;
    BraceEnds(end, end);
    ConcatEmpty(brace, end);
    TokensLast(brace, end);
    GlueIsWords(verb, end);
    ConcatEmpty(glue, end);
    WordsRead("}", verb, "DATA", brace, [brace], lead, end);
  }

  /** What the second request turns into, in front of its own triples but the first. */
  function OddTriples(isPrint: char -> bool, verb: string, g: seq<Triple>): seq<Triple> {
    [Odd(verb)] + if g == [] then [] else ReadTriples(isPrint, g[1..], map[])
  }

  lemma GlueAloneIsRead(isPrint: char -> bool, verb: string, lead: string, end: string)
    requires IsVerb(verb) && AllSpace(lead) && end == ""
    ensures Triples(Statements(lead + Glue(KeywordOf(verb))), map[]) == Ok([Odd(verb)])
  {
    var glue := Glue(KeywordOf(verb));
    GlueIsInert(verb);
    SpaceIsInert(lead);
    InertConcat(lead, glue);
    assert NoSpace(end);
    ConcatEmpty(lead + glue, end);
    TrimSpaceAround(lead, glue, end);
    NoDotIsOneStatement(lead + glue);
    EmptyConcat(end, glue);
    ConcatEmpty(glue, end);
    GlueAloneReads(verb, end, end);
    FirstStatement(glue, [], Some(Odd(verb)));
    ConcatEmpty([glue], []);
  }

  lemma SpaceIsInert(lead: string)
    requires AllSpace(lead)
    ensures Inert(lead)
  {
    assert !IsSpace('.') && !IsSpace('#') && !IsSpace('<') && !IsSpace('"');
    OrdinaryIsInert(lead);
  }

  lemma GlueBodyReads(isPrint: char -> bool, verb: string, g: seq<Triple>, lead: string)
    requires PrintTable(isPrint) && IsVerb(verb) && Unbroken(isPrint, g) && AllSpace(lead)
    requires forall i :: 0 <= i < |g| ==> TripleOk(g[i])
    ensures Triples(Statements(lead + (Glue(KeywordOf(verb)) + Body(isPrint, g))), map[])
         == Ok(OddTriples(isPrint, verb, g))
  {
    var glue := Glue(KeywordOf(verb));
    if g == [] {
      ConcatEmpty(glue, Body(isPrint, g));
      GlueAloneIsRead(isPrint, verb, lead, "");
      ConcatEmpty([Odd(verb)], []);
    } else {
      var rest := g[1..];
      var more := if rest == [] then "" else "\n";
      BodyReads(isPrint, rest, map[], more);
      BodyStep(isPrint, g);
      var line, tail := Line(isPrint, g[0]), more + Body(isPrint, rest);
      GlueLineReads(isPrint, verb, g[0], lead);
      GlueLineIsInert(isPrint, verb, g[0], lead);
      BodyRegroups(lead, glue, line, tail);
      ChunkReads(lead + (glue + line) + " ", tail, map[]);
    }
  }

  lemma BodyRegroups(lead: string, glue: string, line: string, tail: string)
    ensures lead + (glue + (line + " " + "." + tail)) == lead + (glue + line) + " " + "." + tail
  {
  }

  lemma GlueLineIsInert(isPrint: char -> bool, verb: string, t: Triple, lead: string)
    requires PrintTable(isPrint) && IsVerb(verb) && TripleOk(t) && AllSpace(lead)
    ensures Inert(lead + (Glue(KeywordOf(verb)) + Line(isPrint, t)) + " ")
  {
    GlueIsInert(verb);
    LineIsToken(isPrint, t);
    SpaceIsInert(lead);
    OrdinaryIsInert(" ");
    InertConcat(Glue(KeywordOf(verb)), Line(isPrint, t));
    InertConcat(lead, Glue(KeywordOf(verb)) + Line(isPrint, t));
    InertConcat(lead + (Glue(KeywordOf(verb)) + Line(isPrint, t)), " ");
  }

  // ----- The first block as a document -----

  lemma {:induction false} TriplesThen(isPrint: char -> bool, g: seq<Triple>, lead: string, rest: string,
                                       more: seq<Triple>)
    requires PrintTable(isPrint) && forall i :: 0 <= i < |g| ==> TripleOk(g[i])
    requires lead == "" || lead == "\n"
    requires Triples(Statements((if g == [] then lead else "\n") + rest), map[]) == Ok(more)
    ensures Triples(Statements(lead + (PrintTriples(isPrint, g) + rest)), map[])
         == Ok(ReadTriples(isPrint, g, map[]) + more)
    decreases |g|
  {
    if g == [] {
      EmptyConcat(PrintTriples(isPrint, g), rest);
      EmptyConcat(ReadTriples(isPrint, g, map[]), more);
    } else {
      var line, tail := Line(isPrint, g[0]), "\n" + (PrintTriples(isPrint, g[1..]) + rest);
      TriplesThen(isPrint, g[1..], "\n", rest, more);
      PrintTripleIsLine(isPrint, g[0]);
      ThenRegroups(lead, line, PrintTriples(isPrint, g[1..]), rest);
      ChunkIsInert(isPrint, g[0], lead);
      StatementReads(isPrint, g[0], map[], lead);
      ChunkReads(lead + line + " ", tail, map[]);
      ConcatAssoc([ReadTriple(isPrint, g[0], map[])], ReadTriples(isPrint, g[1..], map[]), more);
    }
  }

  lemma ThenRegroups(lead: string, line: string, others: string, rest: string)
    ensures lead + (line + " " + "." + "\n" + others + rest) == lead + line + " " + "." + ("\n" + (others + rest))
  {
  }

  /** The line break that the scanner over lines adds. */
  function LastBreak(g: seq<Triple>): string { if g == [] then "\n" else "" }

  lemma GluedLine(glue: string, line: string, more: string, kept: string)
    requires Inert(glue) && '\n' !in glue && '\n' !in line && line != "" && line[|line| - 1] == '.'
    requires Cut(Plain, line, '#') == |line| && Uncomment(Lines(more)) == kept
    ensures Uncomment(Lines(glue + (line + "\n" + more))) == glue + (line + "\n" + kept)
  {
    GluedLineIsKept(glue, line, glue + line);
    LineRegroups(glue, line, more);
    LineRegroups(glue, line, kept);
    UncommentLine(glue + line, more);
  }

  lemma GluedLineIsKept(glue: string, line: string, both: string)
    requires Inert(glue) && '\n' !in glue && '\n' !in line && line != "" && line[|line| - 1] == '.'
    requires Cut(Plain, line, '#') == |line| && both == glue + line
    ensures Cut(Plain, both, '#') == |both| && '\n' !in both && both != "" && both[|both| - 1] == '.'
  {
    CutSkips(Plain, glue, line, '#');
  }

  lemma LineRegroups(glue: string, line: string, more: string)
    ensures glue + (line + "\n" + more) == glue + line + "\n" + more
  {
  }

  lemma FirstLine(isPrint: char -> bool, g: seq<Triple>, line: string)
    requires g != [] && line == Line(isPrint, g[0]) + " " + "."
    ensures PrintTriples(isPrint, g) == line + "\n" + PrintTriples(isPrint, g[1..])
  {
    PrintTripleIsLine(isPrint, g[0]);
  }

  lemma GluedFirst(isPrint: char -> bool, glue: string, t: Triple, more: string)
    requires PrintTable(isPrint) && Inert(glue) && '\n' !in glue && TripleOk(t) && Uncomment(Lines(more)) == more
    ensures var text := glue + (Line(isPrint, t) + " " + "." + "\n" + more); Uncomment(Lines(text)) == text
  {
    PrintedLineIsKept(isPrint, t);
    GluedLine(glue, Line(isPrint, t) + " " + ".", more, more);
  }

  lemma GluedTriples(isPrint: char -> bool, glue: string, g: seq<Triple>)
    requires PrintTable(isPrint) && Inert(glue) && '\n' !in glue && g != []
    requires forall i :: 0 <= i < |g| ==> TripleOk(g[i])
    ensures Uncomment(Lines(glue + PrintTriples(isPrint, g))) == glue + PrintTriples(isPrint, g)
  {
    FirstLine(isPrint, g, Line(isPrint, g[0]) + " " + ".");
    TriplesHaveNoComment(isPrint, g[1..]);
    GluedFirst(isPrint, glue, g[0], PrintTriples(isPrint, g[1..]));
  }

  lemma GlueUncommented(isPrint: char -> bool, verb: string, g: seq<Triple>)
    requires PrintTable(isPrint) && IsVerb(verb) && forall i :: 0 <= i < |g| ==> TripleOk(g[i])
    ensures var text := Glue(KeywordOf(verb)) + PrintTriples(isPrint, g);
            Uncomment(Lines(text)) == text + LastBreak(g)
  {
    var glue := Glue(KeywordOf(verb));
    GlueIsInert(verb);
    if g == [] {
      ConcatEmpty(glue, PrintTriples(isPrint, g));
      GlueLine(glue, "");
    } else {
      GluedTriples(isPrint, glue, g);
      ConcatEmpty(glue + PrintTriples(isPrint, g), LastBreak(g));
    }
  }

  lemma GlueLine(glue: string, end: string)
    requires Inert(glue) && '\n' !in glue && glue != "" && glue[|glue| - 1] == '{' && end == ""
    ensures Uncomment(Lines(glue)) == glue + "\n"
  {
    CutSkips(Plain, glue, end, '#');
    ConcatEmpty(glue, end);
    assert Lines(glue) == [glue];
    assert [glue][1..] == [];
    ConcatEmpty(glue + "\n", Uncomment([]));
  }

  /** The first block, without the white space at its end. */
  function LongBody(isPrint: char -> bool, a: seq<Triple>, verb: string, b: seq<Triple>): string {
    PrintTriples(isPrint, a) + (Glue(KeywordOf(verb)) + Body(isPrint, b))
  }

  lemma BodyIsTrimmed(isPrint: char -> bool, b: seq<Triple>)
    ensures TrimRight(PrintTriples(isPrint, b) + LastBreak(b)) == Body(isPrint, b)
  {
    if b == [] {
      EmptyConcat(PrintTriples(isPrint, b), LastBreak(b));
      assert IsSpace('\n') && "\n"[..0] == "";
    } else {
      ConcatEmpty(PrintTriples(isPrint, b), LastBreak(b));
    }
  }

  lemma BraceStart(glue: string, rest: string)
    requires glue != "" && glue[0] == '}'
    ensures var text := glue + rest; text != "" && !IsSpace(text[0]) && !Keyword(text)
  {
    assert (glue + rest)[0] == '}';
  }

  lemma SubjectStart(isPrint: char -> bool, a: seq<Triple>, rest: string)
    requires PrintTable(isPrint) && GraphOk(a) && a != []
    ensures var text := PrintTriples(isPrint, a) + rest; text != "" && !IsSpace(text[0]) && !Keyword(text)
  {
    var w, text := FormatTerm(a[0].subject), PrintTriples(isPrint, a) + rest;
    TermIsToken(a[0].subject);
    assert w + " " <= PrintTriple(isPrint, a[0]) <= PrintTriples(isPrint, a) <= text;
    assert text[0] == w[0];
    NoKeyword(w, text);
  }

  lemma LongStart(isPrint: char -> bool, a: seq<Triple>, verb: string, rest: string)
    requires PrintTable(isPrint) && GraphOk(a) && IsVerb(verb)
    ensures var text := PrintTriples(isPrint, a) + (Glue(KeywordOf(verb)) + rest);
            text != "" && !IsSpace(text[0]) && !Keyword(text)
  {
    var glue := Glue(KeywordOf(verb));
    GlueIsInert(verb);
    if a == [] {
      EmptyConcat(PrintTriples(isPrint, a), glue + rest);
      BraceStart(glue, rest);
    } else {
      SubjectStart(isPrint, a, glue + rest);
    }
  }

  lemma LongTrimmed(isPrint: char -> bool, a: seq<Triple>, verb: string, b: seq<Triple>)
    requires PrintTable(isPrint) && GraphOk(a) && IsVerb(verb)
    ensures TrimSpace(PrintTriples(isPrint, a) + (Glue(KeywordOf(verb)) + PrintTriples(isPrint, b)) + LastBreak(b))
         == LongBody(isPrint, a, verb, b)
  {
    var head, tail := PrintTriples(isPrint, a) + Glue(KeywordOf(verb)), PrintTriples(isPrint, b) + LastBreak(b);
    GlueIsInert(verb);
    LongStart(isPrint, a, verb, tail);
    assert head[|head| - 1] == '{';
    TrimRightStops(head, tail);
    BodyIsTrimmed(isPrint, b);
    LongRegroups(PrintTriples(isPrint, a), Glue(KeywordOf(verb)), PrintTriples(isPrint, b), LastBreak(b));
    ConcatAssoc(PrintTriples(isPrint, a), Glue(KeywordOf(verb)), tail);
    ConcatAssoc(PrintTriples(isPrint, a), Glue(KeywordOf(verb)), Body(isPrint, b));
  }

  lemma LongRegroups(a: string, glue: string, b: string, end: string)
    ensures a + (glue + b) + end == a + glue + (b + end)
  {
  }

  lemma LongStatements(isPrint: char -> bool, a: seq<Triple>, verb: string, b: seq<Triple>)
    requires PrintTable(isPrint) && GraphOk(a) && GraphOk(b) && Unbroken(isPrint, b) && IsVerb(verb)
    ensures Triples(Statements(LongBody(isPrint, a, verb, b)), map[])
         == Ok(ReadTriples(isPrint, a, map[]) + OddTriples(isPrint, verb, b))
  {
    GlueBodyReads(isPrint, verb, b, if a == [] then "" else "\n");
    TriplesThen(isPrint, a, "", Glue(KeywordOf(verb)) + Body(isPrint, b), OddTriples(isPrint, verb, b));
    EmptyConcat("", LongBody(isPrint, a, verb, b));
  }

  /** The first block of a request with two: its own triples, the words between the blocks as an odd triple, and
      the triples of the second block but for the first. */
  lemma LongParses(isPrint: char -> bool, a: seq<Triple>, verb: string, b: seq<Triple>)
    requires PrintTable(isPrint) && GraphOk(a) && GraphOk(b) && Unbroken(isPrint, b) && IsVerb(verb)
    ensures Parse(PrintTriples(isPrint, a) + (Glue(KeywordOf(verb)) + PrintTriples(isPrint, b)))
         == Ok(ReadTriples(isPrint, a, map[]) + OddTriples(isPrint, verb, b))
  {
    var text := PrintTriples(isPrint, a) + (Glue(KeywordOf(verb)) + PrintTriples(isPrint, b));
    TriplesBeforeText(isPrint, a, Glue(KeywordOf(verb)) + PrintTriples(isPrint, b));
    GlueUncommented(isPrint, verb, b);
    ConcatAssoc(PrintTriples(isPrint, a), Glue(KeywordOf(verb)) + PrintTriples(isPrint, b), LastBreak(b));
    LongTrimmed(isPrint, a, verb, b);
    LongStart(isPrint, a, verb, Body(isPrint, b));
    NoPrologue(text + LastBreak(b), LongBody(isPrint, a, verb, b));
    LongStatements(isPrint, a, verb, b);
  }

  // ----- One request and two -----

  lemma NoPrefixes(isPrint: char -> bool, g: seq<Triple>, none: seq<(string, string)>)
    requires none == []
    ensures Print(isPrint, g, none) == PrintTriples(isPrint, g)
  {
    EmptyConcat("", "");
    EmptyConcat("", PrintTriples(isPrint, g));
  }

  lemma LongIsGlued(isPrint: char -> bool, a: seq<Triple>, verb: string, b: seq<Triple>)
    ensures Long(PrintTriples(isPrint, a), KeywordOf(verb), PrintTriples(isPrint, b))
         == PrintTriples(isPrint, a) + (Glue(KeywordOf(verb)) + PrintTriples(isPrint, b))
  {
  }

  lemma KeywordsAre()
    ensures KeywordOf("INSERT") == INSERT_DATA && KeywordOf("DELETE") == DELETE_DATA
  {
  }

  lemma PrintedParses(isPrint: char -> bool, g: seq<Triple>)
    requires PrintTable(isPrint) && GraphOk(g)
    ensures Parse(PrintTriples(isPrint, g)) == Ok(ReadTriples(isPrint, g, map[]))
  {
    var none: seq<(string, string)> := [];
    ParsePrint(isPrint, g, none);
    NoPrefixes(isPrint, g, none);
  }

  /** To insert one graph and then delete another, in one request: the deletion comes first, and the words between
      the blocks are inserted too. Two requests never do that. */
  lemma InsertThenDelete(isPrint: char -> bool, g: seq<Triple>, a: seq<Triple>, b: seq<Triple>)
    requires PrintTable(isPrint) && GraphOk(a) && GraphOk(b) && Unbroken(isPrint, b)
    requires !Contains(Upper(PrintTriples(isPrint, a)), DELETE_DATA)
    ensures var ra, rb := ReadTriples(isPrint, a, map[]), ReadTriples(isPrint, b, map[]);
            var one := Updated(g, Both(INSERT_DATA, PrintTriples(isPrint, a), DELETE_DATA, PrintTriples(isPrint, b)));
            && one == Ok(Without(g, rb) + (ra + OddTriples(isPrint, "DELETE", b)))
            && one != Ok(Without(g + ra, rb))
  {
    var ra, rb := ReadTriples(isPrint, a, map[]), ReadTriples(isPrint, b, map[]);
    KeywordsAre();
    PrintedParses(isPrint, b);
    LongParses(isPrint, a, "DELETE", b);
    LongIsGlued(isPrint, a, "DELETE", b);
    BothBlocks(g, PrintTriples(isPrint, a), PrintTriples(isPrint, b), ra + OddTriples(isPrint, "DELETE", b), rb);
    WithoutTogether(g, ra, rb);
    WithoutShorter(ra, rb);
  }

  /** To delete one graph and then insert another, in one request: the words between the blocks and all but the
      first triple of the second are deleted too. It does what the two requests do if and only if the graph has
      none of their terms, but for those that were to be deleted. */
  lemma DeleteThenInsert(isPrint: char -> bool, g: seq<Triple>, a: seq<Triple>, b: seq<Triple>)
    requires PrintTable(isPrint) && GraphOk(a) && GraphOk(b) && Unbroken(isPrint, b)
    requires !Contains(Upper(PrintTriples(isPrint, a)), INSERT_DATA)
    ensures var ra, rb := ReadTriples(isPrint, a, map[]), ReadTriples(isPrint, b, map[]);
            var odd := OddTriples(isPrint, "INSERT", b);
            var one := Updated(g, Both(DELETE_DATA, PrintTriples(isPrint, a), INSERT_DATA, PrintTriples(isPrint, b)));
            && one == Ok(Without(g, ra + odd) + rb)
            && (one == Ok(Without(g, ra) + rb) <==>
                  forall i :: 0 <= i < |g| && Matched(g[i], odd) ==> Matched(g[i], ra))
  {
    var ra, rb := ReadTriples(isPrint, a, map[]), ReadTriples(isPrint, b, map[]);
    var odd := OddTriples(isPrint, "INSERT", b);
    KeywordsAre();
    PrintedParses(isPrint, b);
    LongParses(isPrint, a, "INSERT", b);
    LongIsGlued(isPrint, a, "INSERT", b);
    BothBlocks(g, PrintTriples(isPrint, a), PrintTriples(isPrint, b), ra + odd, rb);
    WithoutMore(g, ra, odd);
    SameFront(Without(g, ra + odd), Without(g, ra), rb);
  }

  lemma SameFront(x: seq<Triple>, y: seq<Triple>, more: seq<Triple>)
    ensures x + more == y + more <==> x == y
  {
    if x + more == y + more {
      assert x == (x + more)[..|x|] && y == (y + more)[..|x|];
    }
  }

  lemma MatchedEither(t: Triple, ds: seq<Triple>, es: seq<Triple>)
    ensures Matched(t, ds + es) <==> Matched(t, ds) || Matched(t, es)
  {
    if Matched(t, ds) {
      var i :| 0 <= i < |ds| && SameTerms(t, ds[i]);
      assert (ds + es)[i] == ds[i];
    }
    if Matched(t, es) {
      var i :| 0 <= i < |es| && SameTerms(t, es[i]);
      assert (ds + es)[|ds| + i] == es[i];
    }
  }

  /** To delete more leaves the same exactly when it hits nothing more. */
  lemma {:induction false} WithoutMore(g: seq<Triple>, ds: seq<Triple>, es: seq<Triple>)
    ensures |Without(g, ds + es)| <= |Without(g, ds)|
    ensures Without(g, ds + es) == Without(g, ds)
            <==> forall i :: 0 <= i < |g| && Matched(g[i], es) ==> Matched(g[i], ds)
    ensures |Without(g, ds + es)| == |Without(g, ds)| ==> Without(g, ds + es) == Without(g, ds)
  {
    if g != [] {
      var init, t := g[..|g| - 1], g[|g| - 1];
      WithoutMore(init, ds, es);
      MatchedEither(t, ds, es);
      assert forall i :: 0 <= i < |init| ==> init[i] == g[i];
      assert g == init + [t];
    }
  }
}

/** Triples, and the Turtle printer and parser. */
module Turtle {
  import opened Text
  import opened Lexis

  datatype Triple = Triple(subject: string, predicate_: string, obj: string,
                           objectLit: bool, datatype_: string, lang: string)

  function IriTriple(s: string, p: string, o: string): Triple { Triple(s, p, o, false, "", "") }

  class Graph {
    var triples: seq<Triple>

    constructor ()
      ensures triples == []
    {
      triples := [];
    }

    method Add(t: Triple)
      modifies this
      ensures triples == old(triples) + [t]
    {
      triples := triples + [t];
    }

    method AddIRI(s: string, p: string, o: string)
      modifies this
      ensures triples == old(triples) + [IriTriple(s, p, o)]
    {
      Add(IriTriple(s, p, o));
    }

    /** The objects of the triples with a subject and a predicate; "" stands for any. */
    method Objects(s: string, p: string) returns (out: seq<string>)
      ensures out == ObjectsOf(triples, s, p)
    {
      out := [];
      for i := 0 to |triples|
        invariant out == ObjectsOf(triples[..i], s, p)
      {
        assert triples[..i + 1][..i] == triples[..i];
        var t := triples[i];
        if (s == "" || t.subject == s) && (p == "" || t.predicate_ == p) {
          out := out + [t.obj];
        }
      }
      assert triples[..|triples|] == triples;
    }
  }

  function ObjectsOf(g: seq<Triple>, s: string, p: string): seq<string> {
    if g == [] then []
    else
      var t := g[|g| - 1];
      ObjectsOf(g[..|g| - 1], s, p)
      + if (s == "" || t.subject == s) && (p == "" || t.predicate_ == p) then [t.obj] else []
  }

  // ----- Printing -----

  /** Printed without angle brackets: blank nodes, and whatever looks like a prefixed name. */
  predicate Bare(term: string) {
    HasPrefix(term, "_:") || (Contains(term, ":") && !Contains(term, "://") && !HasPrefix(term, "<"))
  }

  function FormatTerm(term: string): string {
    if Bare(term) then term else "<" + TrimAngles(term) + ">"
  }

  function HexDigit(d: nat): char
    requires d < 16
  {
    if d < 10 then '0' + d as char else 'a' + (d - 10) as char
  }

  function Hex(n: nat, width: nat): string {
    if width == 0 then "" else Hex(n / 16, width - 1) + [HexDigit(n % 16)]
  }

  /** One character inside the %q form of a string. `isPrint` is strconv.IsPrint. */
  function Escape(isPrint: char -> bool, c: char): string {
    if c == '"' then "\\\""
    else if c == '\\' then "\\\\"
    else if isPrint(c) then [c]
    else if c == '\U{7}' then "\\a"
    else if c == '\U{8}' then "\\b"
    else if c == '\U{C}' then "\\f"
    else if c == '\n' then "\\n"
    else if c == '\r' then "\\r"
    else if c == '\t' then "\\t"
    else if c == '\U{B}' then "\\v"
    else if c < ' ' || c == '\U{7F}' then "\\x" + Hex(c as nat, 2)
    else if c < '\U{10000}' then "\\u" + Hex(c as nat, 4)
    else "\\U" + Hex(c as nat, 8)
  }

  function EscapeAll(isPrint: char -> bool, s: string): string {
    if s == "" then "" else Escape(isPrint, s[0]) + EscapeAll(isPrint, s[1..])
  }

  function Quote(isPrint: char -> bool, s: string): string { "\"" + EscapeAll(isPrint, s) + "\"" }

  function Suffix(t: Triple): string {
    if t.lang != "" then "@" + t.lang
    else if t.datatype_ != "" then "^^<" + t.datatype_ + ">"
    else ""
  }

  function FormatObject(isPrint: char -> bool, t: Triple): string {
    if t.objectLit then Quote(isPrint, t.obj) + Suffix(t) else FormatTerm(t.obj)
  }

  function PrintTriple(isPrint: char -> bool, t: Triple): string {
    FormatTerm(t.subject) + " " + FormatTerm(t.predicate_) + " " + FormatObject(isPrint, t) + " .\n"
  }

  function PrintTriples(isPrint: char -> bool, g: seq<Triple>): string {
    if g == [] then "" else PrintTriple(isPrint, g[0]) + PrintTriples(isPrint, g[1..])
  }

  function PrintPrefix(name: string, iri: string): string { "@prefix " + name + ": <" + iri + "> .\n" }

  function PrintPrefixes(ps: seq<(string, string)>): string {
    if ps == [] then "" else PrintPrefix(ps[0].0, ps[0].1) + PrintPrefixes(ps[1..])
  }

  /** The document. `ps` lists the prefix map in the order in which it is iterated. */
  function Print(isPrint: char -> bool, g: seq<Triple>, ps: seq<(string, string)>): string {
    PrintPrefixes(ps) + (if ps == [] then "" else "\n") + PrintTriples(isPrint, g)
  }

  method SerializeTurtle(isPrint: char -> bool, g: Graph, ps: seq<(string, string)>) returns (b: string)
    ensures b == Print(isPrint, g.triples, ps)
  {
    b := "";
    for i := 0 to |ps|
      invariant b + PrintPrefixes(ps[i..]) == PrintPrefixes(ps)
    {
      ghost var rest := ps[i..];
      assert rest[0] == ps[i] && rest[1..] == ps[i + 1..];
      ConcatAssoc(b, PrintPrefix(ps[i].0, ps[i].1), PrintPrefixes(rest[1..]));
      b := b + PrintPrefix(ps[i].0, ps[i].1);
    }
    assert ps[|ps|..] == [] && b + "" == b;
    if |ps| > 0 {
      b := b + "\n";
    }
    ghost var head := b;
    var body := "";
    var ts := g.triples;
    for i := 0 to |ts|
      invariant body + PrintTriples(isPrint, ts[i..]) == PrintTriples(isPrint, ts)
      invariant b == head + body
    {
      ghost var rest := ts[i..];
      assert rest[0] == ts[i] && rest[1..] == ts[i + 1..];
      var t := ts[i];
      var subj := FormatTerm(t.subject);
      var pred := FormatTerm(t.predicate_);
      var obj := FormatObject(isPrint, t);
      var line := subj + " " + pred + " " + obj + " .\n";
      ConcatAssoc(head, body, line);
      ConcatAssoc(body, line, PrintTriples(isPrint, rest[1..]));
      b := b + line;
      body := body + line;
    }
    assert ts[|ts|..] == [] && body + "" == body;
    assert head == PrintPrefixes(ps) + (if ps == [] then "" else "\n");
  }

  // ----- Parsing -----

  function DropCR(line: string): string { TrimSuffix(line, "\r") }

  /** The lines that bufio.ScanLines yields. */
  function Lines(data: string): seq<string>
    decreases |data|
  {
    if data == "" then []
    else
      var k := IndexByte(data, '\n');
      if k < 0 then [DropCR(data)] else [DropCR(data[..k])] + Lines(data[k + 1..])
  }

  function Uncomment(lines: seq<string>): string {
    if lines == [] then "" else StripComment(lines[0]) + "\n" + Uncomment(lines[1..])
  }

  /** What follows a prefix keyword at the start of a text, "" when there is none. */
  function AfterKeyword(text: string): string {
    if HasPrefix(text, "@prefix") then TrimSpace(text[7..])
    else if HasPrefix(text, "PREFIX") then TrimSpace(text[6..])
    else if HasPrefix(text, "prefix") then TrimSpace(text[6..])
    else ""
  }

  /** Reads the prefix declarations at the start of a text: the rest of the text and
      the prefix map. */
  function Prologue(text: string, prefixes: map<string, string>): Outcome<(string, map<string, string>)>
    decreases |text|
  {
    var text := TrimmedText(text);
    var rest := AfterKeyword(text);
    if rest == "" then Ok((text, prefixes))
    else
      AfterKeywordShrinks(text);
      var end := Cut(Plain, rest, '.');
      if end == |rest| then Err
      else
        var parts := Fields(TrimSpace(rest[..end]));
        if |parts| < 2 then Err
        else Prologue(rest[end + 1..], prefixes[TrimSuffix(parts[0], ":") := TrimAngles(parts[1])])
  }

  function TrimmedText(text: string): (t: string)
    ensures t == TrimSpace(text) && |t| <= |text|
  {
    TrimLeftLength(text);
    TrimRightLength(TrimLeft(text));
    TrimSpace(text)
  }

  lemma AfterKeywordShrinks(text: string)
    ensures |AfterKeyword(text)| <= |text|
  {
    if HasPrefix(text, "@prefix") {
      var _ := TrimmedText(text[7..]);
    } else if HasPrefix(text, "PREFIX") || HasPrefix(text, "prefix") {
      var _ := TrimmedText(text[6..]);
    }
  }

  predicate IsSeparator(c: char) { c == ' ' || c == '\t' || c == '\n' || c == '\r' || c == ';' }

  function SkipSeparators(s: string): (r: string)
    ensures |r| <= |s|
    ensures r != "" ==> !IsSeparator(r[0])
  {
    if s != "" && IsSeparator(s[0]) then SkipSeparators(s[1..]) else s
  }

  /** How much of `s` comes before its first unescaped quote, |s| or more when there is
      none. A backslash takes the character after it along, past the end if need be. */
  function UntilQuote(s: string): (k: nat)
    ensures k < |s| ==> s[k] == '"'
    ensures k <= |s| + 1
  {
    if s == "" || s[0] == '"' then 0
    else if s[0] == '\\' then 2 + (if |s| == 1 then 0 else UntilQuote(s[2..]))
    else 1 + UntilQuote(s[1..])
  }

  predicate IsBreak(c: char, semi: bool) { c == ' ' || c == '\t' || c == '\n' || (semi && c == ';') }

  /** How much of `s` comes before its first space, tab or newline (or ';' if `semi`). */
  function WordLength(s: string, semi: bool): (k: nat)
    ensures k <= |s|
  {
    if s == "" || IsBreak(s[0], semi) then 0 else 1 + WordLength(s[1..], semi)
  }

  function AfterQuote(r: string): nat
    requires r != ""
  {
    var k := 1 + UntilQuote(r[1..]);
    if k < |r| then k + 1 else k
  }

  /** How long the token is that `r` starts with. */
  function TokenEnd(r: string): (e: Outcome<nat>)
    requires r != "" && !IsSeparator(r[0])
    ensures e.Ok? ==> 0 < e.value <= |r|
  {
    if r[0] == '<' then
      var k := IndexByte(r, '>');
      if k < 0 then Err else Ok(k + 1)
    else if r[0] == '"' then
      var j := AfterQuote(r);
      if j > |r| then Panic else Ok(j + WordLength(r[j..], false))
    else
      Ok(1 + WordLength(r[1..], true))
  }

  function Tokens(s: string): Outcome<seq<string>>
    decreases |s|
  {
    var r := SkipSeparators(s);
    if r == "" then Ok([])
    else
      var k :- TokenEnd(r);
      var more :- Tokens(r[k..]);
      Ok([r[..k]] + more)
  }

  function Expand(term: string, prefixes: map<string, string>): string {
    var term := TrimSpace(term);
    if HasPrefix(term, "<") && HasSuffix(term, ">") then
      assert term[0] == '<' && term[|term| - 1] == '>';
      term[1..|term| - 1]
    else if HasPrefix(term, "_:") then term
    else
      var idx := IndexByte(term, ':');
      if idx > 0 && term[..idx] in prefixes then prefixes[term[..idx]] + term[idx + 1..] else term
  }

  /** The three successive strings.ReplaceAll calls. */
  function Unescape(s: string): string {
    var s1 := ReplaceAll(s, '\\', '\\', '\\');
    var s2 := ReplaceAll(s1, '\\', '"', '"');
    ReplaceAll(s2, '\\', 'n', '\n')
  }

  /** Text, language and datatype of a literal token. */
  function LiteralParts(tok: string): Outcome<(string, string, string)> {
    if !HasPrefix(tok, "\"") then Ok((tok, "", ""))
    else
      var end := 1 + UntilQuote(tok[1..]);
      if end >= |tok| then Panic
      else
        var lit := Unescape(tok[1..end]);
        var rest := tok[end + 1..];
        if HasPrefix(rest, "@") then Ok((lit, rest[1..], ""))
        else if HasPrefix(rest, "^^") then Ok((lit, "", TrimAngles(rest[2..])))
        else Ok((lit, "", ""))
  }

  /** The triple of one statement, if it has one. */
  function StatementTriple(stmt: string, prefixes: map<string, string>): Outcome<Option<Triple>> {
    var stmt := TrimSpace(stmt);
    if stmt == "" then Ok(None)
    else
      var toks :- Tokens(stmt);
      if |toks| < 3 then Ok(None)
      else
        var s := Expand(toks[0], prefixes);
        var p := Expand(toks[1], prefixes);
        if HasPrefix(toks[2], "\"") then
          var (lit, lang, dt) :- LiteralParts(toks[2]);
          Ok(Some(Triple(s, p, lit, true, dt, lang)))
        else Ok(Some(IriTriple(s, p, Expand(toks[2], prefixes))))
  }

  function Triples(stmts: seq<string>, prefixes: map<string, string>): Outcome<seq<Triple>> {
    if stmts == [] then Ok([])
    else
      var t :- StatementTriple(stmts[0], prefixes);
      var more :- Triples(stmts[1..], prefixes);
      Ok((if t.Some? then [t.value] else []) + more)
  }

  function Parse(data: string): Outcome<seq<Triple>> {
    var (text, prefixes) :- Prologue(Uncomment(Lines(data)), map[]);
    Triples(Statements(text), prefixes)
  }

  /** Where UntilQuote gets to from position `j`. */
  ghost function QuoteFrom(s: string, j: nat): nat { if j <= |s| then j + UntilQuote(s[j..]) else j }

  lemma QuoteFromStep(s: string, j: nat)
    requires j < |s|
    ensures QuoteFrom(s, j) == if s[j] == '\\' then QuoteFrom(s, j + 2)
                               else if s[j] == '"' then j
                               else QuoteFrom(s, j + 1)
  {
  }

  /** The loop over `j` that the tokenizer and parseLiteral have in common. */
  method FindQuote(s: string) returns (j: nat)
    requires s != ""
    ensures j == 1 + UntilQuote(s[1..])
  {
    j := 1;
    while j < |s|
      invariant QuoteFrom(s, 1) == QuoteFrom(s, j)
      decreases |s| - j
    {
      QuoteFromStep(s, j);
      if s[j] == '\\' {
        j := j + 2;
        continue;
      }
      if s[j] == '"' {
        break;
      }
      j := j + 1;
    }
  }

  /** The loop over `j` that skips to the end of a word. */
  method FindBreak(s: string, from: nat, semi: bool) returns (j: nat)
    requires from <= |s|
    ensures j == from + WordLength(s[from..], semi)
  {
    j := from;
    while j < |s| && s[j] != ' ' && s[j] != '\t' && s[j] != '\n' && (semi ==> s[j] != ';')
      invariant from <= j <= |s|
      invariant from + WordLength(s[from..], semi) == j + WordLength(s[j..], semi)
    {
      assert s[j..][0] == s[j] && s[j..][1..] == s[j + 1..];
      j := j + 1;
    }
  }

  /** The part of the tokenizer's loop that finds where the token ends. */
  method ScanToken(rest: string) returns (e: Outcome<nat>)
    requires rest != "" && !IsSeparator(rest[0])
    ensures e == TokenEnd(rest)
  {
    if rest[0] == '<' {
      var k := IndexByte(rest, '>');
      return if k < 0 then Err else Ok(k + 1);
    }
    if rest[0] == '"' {
      var j := FindQuote(rest);
      if j < |rest| {
        j := j + 1;
      }
      if j > |rest| {
        return Panic;
      }
      j := FindBreak(rest, j, false);
      return Ok(j);
    }
    var j := FindBreak(rest, 1, true);
    return Ok(j);
  }

  /** The loop over `i` that skips to the next token. */
  method SkipFrom(s: string, from: nat) returns (i: nat)
    requires from <= |s|
    ensures from <= i <= |s| && s[i..] == SkipSeparators(s[from..])
  {
    i := from;
    while i < |s| && IsSeparator(s[i])
      invariant from <= i <= |s|
      invariant SkipSeparators(s[from..]) == SkipSeparators(s[i..])
    {
      assert s[i..][0] == s[i] && s[i..][1..] == s[i + 1..];
      i := i + 1;
    }
  }

  lemma TokensPrepend(toks: seq<string>, before: string)
    ensures var r := SkipSeparators(before);
            Prepend(toks, Tokens(before)) ==
              if r == "" then Ok(toks)
              else match TokenEnd(r)
                case Ok(k) => Prepend(toks + [r[..k]], Tokens(r[k..]))
                case Err => Err
                case Panic => Panic
  {
    var r := SkipSeparators(before);
    if r == "" {
      assert toks + [] == toks;
    } else {
      var e := TokenEnd(r);
      if e.Ok? {
        PrependMore(toks, r[..e.value], Tokens(r[e.value..]));
        assert Tokens(before) == Prepend([r[..e.value]], Tokens(r[e.value..]));
      }
    }
  }

  method Tokenize(stmt: string) returns (r: Outcome<seq<string>>)
    ensures r == Tokens(stmt)
  {
    var toks: seq<string> := [];
    var i := 0;
    ghost var todo := Tokens(stmt);
    ghost var all := todo;
    assert stmt[i..] == stmt;
    PrependNone(toks, todo);
    while i < |stmt|
      invariant 0 <= i <= |stmt|
      invariant todo == Tokens(stmt[i..])
      invariant all == Prepend(toks, todo)
    {
      TokensPrepend(toks, stmt[i..]);
      i := SkipFrom(stmt, i);
      if i >= |stmt| {
        return Ok(toks);
      }
      var rest := stmt[i..];
      var end := ScanToken(rest);
      if end.IsFailure() {
        return end.PropagateFailure();
      }
      toks := toks + [rest[..end.value]];
      i := i + end.value;
      assert stmt[i..] == rest[end.value..];
      todo := Tokens(rest[end.value..]);
    }
    TokensPrepend(toks, stmt[i..]);
    return Ok(toks);
  }

  ghost function Prepend(toks: seq<string>, r: Outcome<seq<string>>): Outcome<seq<string>> {
    match r case Ok(more) => Ok(toks + more) case _ => r
  }

  lemma PrependNone(toks: seq<string>, r: Outcome<seq<string>>)
    requires |toks| == 0
    ensures Prepend(toks, r) == r
  {
    if r.Ok? {
      EmptyConcat(toks, r.value);
    }
  }

  lemma PrependMore(toks: seq<string>, tok: string, r: Outcome<seq<string>>)
    ensures Prepend(toks + [tok], r) == Prepend(toks, Prepend([tok], r))
  {
    if r.Ok? {
      assert toks + [tok] + r.value == toks + ([tok] + r.value);
    }
  }

  method ParseLiteral(tok: string) returns (r: Outcome<(string, string, string)>)
    ensures r == LiteralParts(tok)
  {
    if !HasPrefix(tok, "\"") {
      return Ok((tok, "", ""));
    }
    var end := FindQuote(tok);
    if end >= |tok| {
      return Panic;
    }
    var lit := Unescape(tok[1..end]);
    var rest := tok[end + 1..];
    if HasPrefix(rest, "@") {
      return Ok((lit, rest[1..], ""));
    }
    if HasPrefix(rest, "^^") {
      return Ok((lit, "", TrimAngles(rest[2..])));
    }
    return Ok((lit, "", ""));
  }

  method ReadPrologue(data: string) returns (r: Outcome<(string, map<string, string>)>)
    ensures r == Prologue(data, map[])
  {
    var text := data;
    var prefixes: map<string, string> := map[];
    while true
      invariant Prologue(data, map[]) == Prologue(text, prefixes)
      decreases |text|
    {
      text := TrimmedText(text);
      TrimSpaceOfTrimSpace(text);
      var rest := AfterKeyword(text);
      if rest == "" {
        break;
      }
      AfterKeywordShrinks(text);
      var end := IndexStatementEnd(rest);
      if end < 0 {
        return Err;
      }
      var parts := Fields(TrimSpace(rest[..end]));
      text := rest[end + 1..];
      if |parts| < 2 {
        return Err;
      }
      prefixes := prefixes[TrimSuffix(parts[0], ":") := TrimAngles(parts[1])];
    }
    return Ok((text, prefixes));
  }

  method ParseTurtle(data: string) returns (r: Outcome<Graph>)
    ensures match Parse(data)
            case Ok(ts) => r.Ok? && fresh(r.value) && r.value.triples == ts
            case Err => r.Err?
            case Panic => r.Panic?
  {
    var g := new Graph();
    var cleaned := "";
    var lines := Lines(data);
    for i := 0 to |lines|
      invariant cleaned + Uncomment(lines[i..]) == Uncomment(lines)
      invariant g.triples == []
    {
      ghost var rest := lines[i..];
      assert rest[0] == lines[i] && rest[1..] == lines[i + 1..];
      var line := StripTurtleComment(lines[i]);
      ConcatAssoc(cleaned, line + "\n", Uncomment(rest[1..]));
      cleaned := cleaned + (line + "\n");
    }
    assert lines[|lines|..] == [] && cleaned + "" == cleaned;
    var prologue := ReadPrologue(cleaned);
    if prologue.IsFailure() {
      return prologue.PropagateFailure();
    }
    var (text, prefixes) := prologue.value;
    var stmts := SplitStatements(text);
    var status := AddStatements(g, stmts, prefixes);
    return match status case Ok(_) => Ok(g) case Err => Err case Panic => Panic;
  }

  /** ParseTurtle's loop over the statements. */
  method AddStatements(g: Graph, stmts: seq<string>, prefixes: map<string, string>) returns (r: Outcome<bool>)
    requires g.triples == []
    modifies g
    ensures match Triples(stmts, prefixes)
            case Ok(ts) => r.Ok? && g.triples == ts
            case Err => r.Err?
            case Panic => r.Panic?
  {
    ghost var all := Triples(stmts, prefixes);
    AppendMore([], None, all);
    assert stmts[0..] == stmts;
    for i := 0 to |stmts|
      invariant all == Append(g.triples, Triples(stmts[i..], prefixes))
    {
      ghost var rest := stmts[i..];
      assert rest[0] == stmts[i] && rest[1..] == stmts[i + 1..];
      var t := ReadStatement(stmts[i], prefixes);
      if t.IsFailure() {
        return t.PropagateFailure();
      }
      AppendMore(g.triples, t.value, Triples(rest[1..], prefixes));
      if t.value.Some? {
        g.Add(t.value.value);
      }
    }
    assert g.triples + [] == g.triples;
    return Ok(true);
  }

  /** The body of ParseTurtle's loop over the statements. */
  method ReadStatement(stmt: string, prefixes: map<string, string>) returns (r: Outcome<Option<Triple>>)
    ensures r == StatementTriple(stmt, prefixes)
  {
    var trimmed := TrimSpace(stmt);
    if trimmed == "" {
      return Ok(None);
    }
    var toks := Tokenize(trimmed);
    if toks.IsFailure() {
      return toks.PropagateFailure();
    }
    if |toks.value| < 3 {
      return Ok(None);
    }
    var s := Expand(toks.value[0], prefixes);
    var p := Expand(toks.value[1], prefixes);
    var tok := toks.value[2];
    if HasPrefix(tok, "\"") {
      var parts := ParseLiteral(tok);
      if parts.IsFailure() {
        return parts.PropagateFailure();
      }
      var (lit, lang, dt) := parts.value;
      return Ok(Some(Triple(s, p, lit, true, dt, lang)));
    }
    return Ok(Some(IriTriple(s, p, Expand(tok, prefixes))));
  }

  ghost function Append(ts: seq<Triple>, r: Outcome<seq<Triple>>): Outcome<seq<Triple>> {
    match r case Ok(more) => Ok(ts + more) case _ => r
  }

  lemma AppendMore(ts: seq<Triple>, t: Option<Triple>, r: Outcome<seq<Triple>>)
    ensures var found := if t.Some? then [t.value] else [];
            Append(ts + found, r) == Append(ts, Append(found, r))
    ensures Append([], r) == r
    ensures t.None? ==> Append(ts, r) == Append(ts, Append([], r))
  {
    if r.Ok? {
      assert [] + r.value == r.value;
      var found := if t.Some? then [t.value] else [];
      assert ts + found + r.value == ts + (found + r.value);
    }
  }

  lemma TrimSpaceOfTrimSpace(text: string)
    ensures TrimSpace(TrimSpace(text)) == TrimSpace(text)
  {
    TrimLeftLength(text);
    var t := TrimLeft(text);
    TrimsCommute(t);
    TrimRightIdempotent(t);
  }
}

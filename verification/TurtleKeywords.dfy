/** A first subject that looks like a prefix declaration, such as prefix:x, is read as one. */
module TurtleKeywords {
  import opened Text
  import opened Lexis
  import opened Turtle
  import opened TurtleRoundTrip

  ghost predicate AllOk(g: seq<Triple>) { forall i :: 0 <= i < |g| ==> TripleOk(g[i]) }

  /** The first subject, as it is printed, begins with a keyword. */
  ghost predicate Misread(g: seq<Triple>) { g != [] && Keyword(FormatTerm(g[0].subject)) }

  function KeywordLength(s: string): nat { if HasPrefix(s, "@prefix") then 7 else 6 }

  lemma KeywordHasNoColon(w: string)
    requires Keyword(w)
    ensures KeywordLength(w) <= |w| && ':' !in w[..KeywordLength(w)] && w[0] != '<' && w[0] != '_'
  {
    assert ':' !in "@prefix" && ':' !in "PREFIX" && ':' !in "prefix";
  }

  lemma IndexHas(s: string, p: string, c: char)
    requires Contains(s, p) && c in p
    ensures c in s
  {
    var i := Index(s, p);
    var k :| 0 <= k < |p| && p[k] == c;
    assert s[i..i + |p|][k] == c;
    assert s[i + k] == c;
  }

  /** The name that such a subject declares. */
  lemma KeywordTail(term: string) returns (n: nat, tail: string)
    requires TermOk(term) && Keyword(FormatTerm(term))
    ensures var w := FormatTerm(term); n == KeywordLength(w) <= |w| && w[n..] == tail
    ensures tail != "" && NoSpace(tail) && Inert(tail)
  {
    var w := FormatTerm(term);
    KeywordHasNoColon(w);
    n := KeywordLength(w);
    tail := w[n..];
    assert Bare(term);
    assert !HasPrefix(w, "_:");
    assert ":"[0] == ':';
    IndexHas(w, ":", ':');
    assert ':' in w[..n] + w[n..];
    assert forall i :: 0 <= i < |tail| ==> tail[i] == w[n + i];
    OrdinaryIsInert(tail);
  }

  // ----- One statement taken for a declaration -----

  lemma FieldsOfMore(a: string, x: string)
    requires a != "" && NoSpace(a) && x != "" && !IsSpace(x[0])
    ensures |Fields(a + " " + x)| >= 2
  {
    var rest := " " + x;
    FieldsStep(a, rest);
    assert a + " " + x == a + rest;
    assert rest[1..] == x;
    assert TrimLeft(rest) == x;
  }

  /** A text that begins with a keyword and has a statement behind it. */
  lemma PrologueTakes(text: string, d: string, tail: string, m: map<string, string>)
    requires Inert(d) && |Fields(TrimSpace(d))| >= 2
    requires AfterKeyword(TrimSpace(text)) == d + ("." + tail)
    ensures var parts := Fields(TrimSpace(d));
            Prologue(text, m) == Prologue(tail, m[TrimSuffix(parts[0], ":") := TrimAngles(parts[1])])
  {
    var rest := d + ("." + tail);
    CutSkips(Plain, d, "." + tail, '.');
    assert rest[..|d|] == d && rest[|d| + 1..] == tail;
  }

  lemma {:induction false} TrimRightEnds(s: string)
    ensures var r := TrimRight(s); r != "" ==> !IsSpace(r[|r| - 1])
  {
    if s != "" && IsSpace(s[|s| - 1]) {
      TrimRightEnds(s[..|s| - 1]);
    }
  }

  lemma AfterMisread(text: string, w: string, n: nat)
    requires w <= text && Keyword(w) && n == KeywordLength(w) <= |w|
    requires text[n..] != "" && !IsSpace(text[n]) && !IsSpace(text[|text| - 1])
    ensures AfterKeyword(text) == text[n..]
  {
    var rest := text[n..];
    assert rest[0] == text[n] && rest[|rest| - 1] == text[|text| - 1];
    TrimSpaceKeeps(rest);
    assert "@prefix"[0] == '@' && "PREFIX"[0] == 'P' && "prefix"[0] == 'p';
    assert w[0] == text[0];
  }

  /** The declaration that a triple is taken for, without its dot. */
  lemma Declares(isPrint: char -> bool, t: Triple) returns (n: nat, d: string)
    requires PrintTable(isPrint) && TripleOk(t) && Keyword(FormatTerm(t.subject))
    ensures n == KeywordLength(FormatTerm(t.subject)) <= |FormatTerm(t.subject)| < |Line(isPrint, t)|
    ensures (Line(isPrint, t) + " ")[n..] == d && d != "" && !IsSpace(d[0])
    ensures Inert(d) && |Fields(TrimSpace(d))| >= 2
  {
    var tail;
    n, tail := KeywordTail(t.subject);
    var more := FormatTerm(t.predicate_) + " " + FormatObject(isPrint, t);
    TermIsToken(t.predicate_);
    ObjectIsToken(isPrint, t);
    TokenPair(FormatTerm(t.predicate_), FormatObject(isPrint, t));
    d := tail + " " + more + " ";
    assert Line(isPrint, t) + " " == FormatTerm(t.subject)[..n] + d by {
      assert FormatTerm(t.subject) == FormatTerm(t.subject)[..n] + tail;
    }
    DeclaredTail(tail, more);
  }

  lemma DeclaredTail(tail: string, more: string)
    requires tail != "" && NoSpace(tail) && Inert(tail) && IsToken(more)
    ensures var d := tail + " " + more + " "; Inert(d) && |Fields(TrimSpace(d))| >= 2 && !IsSpace(d[0])
  {
    var d := tail + " " + more;
    OrdinaryIsInert(" ");
    InertConcat(tail, " ");
    InertConcat(tail + " ", more);
    InertConcat(d, " ");
    assert d[0] == tail[0] && d[|d| - 1] == more[|more| - 1];
    TrimSpaceAround("", d, " ");
    EmptyConcat("", d);
    FieldsOfMore(tail, more);
  }

  // ----- The document -----

  lemma BodyIsTrim(isPrint: char -> bool, g: seq<Triple>, lead: string)
    requires PrintTable(isPrint) && AllOk(g) && AllSpace(lead)
    ensures TrimSpace(lead + Body(isPrint, g)) == Body(isPrint, g)
    ensures Body(isPrint, g) != "" ==> !IsSpace(Body(isPrint, g)[|Body(isPrint, g)| - 1])
  {
    BodyStart(isPrint, g);
    TrimSpaceOfTrimRight(PrintTriples(isPrint, g));
    TrimLeftSkips(lead, Body(isPrint, g));
    TrimRightEnds(PrintTriples(isPrint, g));
  }

  /** The first triple is taken for a declaration, and what is behind it for the text. */
  lemma MisreadStep(isPrint: char -> bool, g: seq<Triple>, lead: string, m: map<string, string>)
    returns (next: map<string, string>)
    requires PrintTable(isPrint) && AllOk(g) && Misread(g) && AllSpace(lead)
    ensures Prologue(lead + Body(isPrint, g), m)
         == Prologue(if |g| == 1 then "" else "\n" + Body(isPrint, g[1..]), next)
  {
    var line, tail := Line(isPrint, g[0]), if |g| == 1 then "" else "\n" + Body(isPrint, g[1..]);
    var body, n, d := Body(isPrint, g), 0, "";
    n, d := Declares(isPrint, g[0]);
    BodyIsTrim(isPrint, g, lead);
    BodyStep(isPrint, g);
    CutBody(line, d, n, tail, body);
    SubjectFirst(isPrint, g[0], body, tail);
    AfterMisread(body, FormatTerm(g[0].subject), n);
    PrologueTakes(lead + body, d, tail, m);
    var parts := Fields(TrimSpace(d));
    next := m[TrimSuffix(parts[0], ":") := TrimAngles(parts[1])];
  }

  lemma SubjectFirst(isPrint: char -> bool, t: Triple, body: string, tail: string)
    requires body == Line(isPrint, t) + " " + "." + tail
    ensures FormatTerm(t.subject) <= body
  {
  }

  lemma CutBody(line: string, d: string, n: nat, tail: string, body: string)
    requires n <= |line| && (line + " ")[n..] == d && body == line + " " + "." + tail
    ensures body[n..] == d + ("." + tail) && body != ""
  {
  }

  /** How many triples are taken for declarations at the start, and the prefixes they leave. */
  lemma {:induction false} Skipping(isPrint: char -> bool, g: seq<Triple>, lead: string, m: map<string, string>)
    returns (n: nat, next: map<string, string>)
    requires PrintTable(isPrint) && AllOk(g) && (lead == "" || lead == "\n")
    ensures n <= |g| && (n == 0 <==> !Misread(g)) && (n == 0 ==> next == m)
    ensures Prologue(lead + Body(isPrint, g), m) == Ok((Body(isPrint, g[n..]), next))
    decreases |g|
  {
    if Misread(g) {
      var taken := MisreadStep(isPrint, g, lead, m);
      var k;
      k, next := Skipping(isPrint, g[1..], if |g| == 1 then "" else "\n", taken);
      n := k + 1;
      assert g[1..][k..] == g[n..];
      NothingLeft(isPrint, g[1..]);
    } else {
      n, next := 0, m;
      assert g[0..] == g;
      BodyIsTrim(isPrint, g, lead);
      BodyHasNoKeyword(isPrint, g);
    }
  }

  lemma NothingLeft(isPrint: char -> bool, g: seq<Triple>)
    ensures g == [] ==> "" + Body(isPrint, g) == ""
  {
  }

  lemma {:induction false} ReadLength(isPrint: char -> bool, g: seq<Triple>, m: map<string, string>)
    ensures |ReadTriples(isPrint, g, m)| == |g|
  {
    if g != [] {
      ReadLength(isPrint, g[1..], m);
    }
  }

  /** What parsing a printed graph yields when its first subjects may begin with a keyword: as many triples are lost,
      and the others are read with the prefixes that those were taken to declare. */
  lemma ParsePrintAny(isPrint: char -> bool, g: seq<Triple>, ps: seq<(string, string)>)
    returns (n: nat, m: map<string, string>)
    requires PrintTable(isPrint) && AllOk(g)
    requires forall i :: 0 <= i < |ps| ==> PrefixOk(ps[i].0, ps[i].1)
    ensures n <= |g| && (n == 0 <==> !Misread(g)) && (n == 0 ==> m == PrefixMap(ps, map[]))
    ensures Parse(Print(isPrint, g, ps)) == Ok(ReadTriples(isPrint, g[n..], m))
  {
    n, m := Skipping(isPrint, g, "", PrefixMap(ps, map[]));
    PrologueOf(isPrint, g, ps);
    BodyReads(isPrint, g[n..], m, "");
    EmptyConcat("", Body(isPrint, g[n..]));
  }

  lemma PrologueOf(isPrint: char -> bool, g: seq<Triple>, ps: seq<(string, string)>)
    requires PrintTable(isPrint) && AllOk(g)
    requires forall i :: 0 <= i < |ps| ==> PrefixOk(ps[i].0, ps[i].1)
    ensures Prologue(Uncomment(Lines(Print(isPrint, g, ps))), map[])
         == Prologue("" + Body(isPrint, g), PrefixMap(ps, map[]))
  {
    var text := PrintTriples(isPrint, g);
    var rest := (if ps == [] then "" else "\n") + text;
    EmptyConcat("", text);
    EmptyConcat("", "\n");
    ConcatAssoc(PrintPrefixes(ps), if ps == [] then "" else "\n", text);
    TriplesHaveNoComment(isPrint, g);
    assert Cut(Plain, "", '#') == 0;
    UncommentLine("", text);
    PrefixesHaveNoComment(ps, rest);
    PrologueSkips(ps, rest, map[]);
    BodyStart(isPrint, g);
    BodyIsTrim(isPrint, g, "");
    SameTrim(rest, "" + Body(isPrint, g), PrefixMap(ps, map[]));
  }

  lemma SameTrim(s: string, t: string, m: map<string, string>)
    requires TrimSpace(s) == TrimSpace(t)
    ensures Prologue(s, m) == Prologue(t, m)
  {
  }

  /** A printed graph is read back triple for triple if and only if its first subject begins with no keyword. */
  lemma ReadBackExactly(isPrint: char -> bool, g: seq<Triple>, ps: seq<(string, string)>)
    requires PrintTable(isPrint) && AllOk(g)
    requires forall i :: 0 <= i < |ps| ==> PrefixOk(ps[i].0, ps[i].1)
    ensures Parse(Print(isPrint, g, ps)) == Ok(ReadTriples(isPrint, g, PrefixMap(ps, map[]))) <==> !Misread(g)
    ensures Misread(g) ==> Parse(Print(isPrint, g, ps)).Ok? && |Parse(Print(isPrint, g, ps)).value| < |g|
  {
    var n, m := ParsePrintAny(isPrint, g, ps);
    assert g[0..] == g;
    ReadLength(isPrint, g[n..], m);
    ReadLength(isPrint, g, PrefixMap(ps, map[]));
  }
}

/** INSERT DATA and DELETE DATA over a graph. */
module Update {
  import opened Text
  import opened Turtle
  import opened TurtleRoundTrip
  import opened TurtleLiterals

  const INSERT_DATA := "INSERT DATA"
  const DELETE_DATA := "DELETE DATA"

  /** unicode.ToUpper, as far as it leads to ASCII letters: from theirs, the dotless i and the long s. */
  function UpperChar(c: char): char {
    if 'a' <= c <= 'z' then c - 'a' + 'A' else if c == '\U{131}' then 'I' else if c == '\U{17F}' then 'S' else c
  }

  /** strings.ToUpper, for finding what is all ASCII. */
  function Upper(s: string): string { seq(|s|, i requires 0 <= i < |s| => UpperChar(s[i])) }

  function ExtractBraceBlock(src: string, keyword: string): string {
    var idx := Index(Upper(src), keyword);
    if idx < 0 then ""
    else
      var rest := src[idx + |keyword|..];
      var start, end := IndexByte(rest, '{'), LastIndexByte(rest, '}');
      if start < 0 || end < 0 || end <= start then "" else rest[start + 1..end]
  }

  /** Datatypes and languages do not count. */
  predicate SameTerms(t: Triple, d: Triple) { t.subject == d.subject && t.predicate_ == d.predicate_ && t.obj == d.obj }

  predicate Matched(t: Triple, ds: seq<Triple>) { exists i :: 0 <= i < |ds| && SameTerms(t, ds[i]) }

  function Without(g: seq<Triple>, ds: seq<Triple>): seq<Triple> {
    if g == [] then []
    else
      var init, t := Without(g[..|g| - 1], ds), g[|g| - 1];
      if Matched(t, ds) then init else init + [t]
  }

  function AfterDelete(g: seq<Triple>, u: string): Outcome<seq<Triple>> {
    if Contains(Upper(u), DELETE_DATA) then
      var ds :- Parse(ExtractBraceBlock(u, DELETE_DATA));
      Ok(Without(g, ds))
    else Ok(g)
  }

  function AfterInsert(g: seq<Triple>, u: string): Outcome<seq<Triple>> {
    if Contains(Upper(u), INSERT_DATA) then
      var added :- Parse(ExtractBraceBlock(u, INSERT_DATA));
      Ok(g + added)
    else Ok(g)
  }

  function Updated(g: seq<Triple>, update: string): Outcome<seq<Triple>> {
    var u := TrimSpace(update);
    var kept :- AfterDelete(g, u);
    AfterInsert(kept, u)
  }

  method Filter(g: seq<Triple>, ds: seq<Triple>) returns (kept: seq<Triple>)
    ensures kept == Without(g, ds)
  {
    kept := [];
    for i := 0 to |g|
      invariant kept == Without(g[..i], ds)
    {
      assert g[..i + 1][..i] == g[..i];
      var drop := false;
      for j := 0 to |ds|
        invariant !drop
        invariant forall k :: 0 <= k < j ==> !SameTerms(g[i], ds[k])
      {
        if g[i].subject == ds[j].subject && g[i].predicate_ == ds[j].predicate_ && g[i].obj == ds[j].obj {
          drop := true;
          assert SameTerms(g[i], ds[j]);
          break;
        }
      }
      if !drop {
        kept := kept + [g[i]];
      }
    }
    assert g[..|g|] == g;
  }

  /** The first half: what a DELETE DATA leaves. */
  method Delete(g: seq<Triple>, u: string) returns (r: Outcome<seq<Triple>>)
    ensures r == AfterDelete(g, u)
  {
    if !Contains(Upper(u), DELETE_DATA) {
      return Ok(g);
    }
    var dg := ParseTurtle(ExtractBraceBlock(u, DELETE_DATA));
    if dg.IsFailure() {
      return dg.PropagateFailure();
    }
    var kept := Filter(g, dg.value.triples);
    return Ok(kept);
  }

  /** The second half: what an INSERT DATA adds. */
  method Insert(g: seq<Triple>, u: string) returns (r: Outcome<seq<Triple>>)
    ensures r == AfterInsert(g, u)
  {
    if !Contains(Upper(u), INSERT_DATA) {
      return Ok(g);
    }
    var ig := ParseTurtle(ExtractBraceBlock(u, INSERT_DATA));
    if ig.IsFailure() {
      return ig.PropagateFailure();
    }
    var out := AddAll(g, ig.value.triples);
    return Ok(out);
  }

  method AddAll(g: seq<Triple>, added: seq<Triple>) returns (out: seq<Triple>)
    ensures out == g + added
  {
    out := g;
    for i := 0 to |added|
      invariant out == g + added[..i]
    {
      assert added[..i + 1] == added[..i] + [added[i]];
      out := out + [added[i]];
    }
    assert added[..|added|] == added;
  }

  method ApplySPARQLUpdate(g: Graph, update: string) returns (r: Outcome<Graph>)
    ensures match Updated(g.triples, update)
            case Ok(ts) => r.Ok? && fresh(r.value) && r.value.triples == ts
            case Err => r.Err?
            case Panic => r.Panic?
  {
    var u := TrimSpace(update);
    var kept := Delete(g.triples, u);
    if kept.IsFailure() {
      return kept.PropagateFailure();
    }
    var all := Insert(kept.value, u);
    if all.IsFailure() {
      return all.PropagateFailure();
    }
    var out := new Graph();
    out.triples := all.value;
    return Ok(out);
  }

  // ----- Deleting what was inserted -----

  lemma {:induction false} WithoutTogether(a: seq<Triple>, b: seq<Triple>, ds: seq<Triple>)
    ensures Without(a + b, ds) == Without(a, ds) + Without(b, ds)
  {
    if b == [] {
      ConcatEmpty(a, b);
      ConcatEmpty(Without(a, ds), Without(b, ds));
    } else {
      var init := b[..|b| - 1];
      assert (a + b)[..|a + b| - 1] == a + init;
      WithoutTogether(a, init, ds);
    }
  }

  lemma {:induction false} AllMatched(g: seq<Triple>, ds: seq<Triple>)
    requires forall i :: 0 <= i < |g| ==> Matched(g[i], ds)
    ensures Without(g, ds) == []
  {
    if g != [] {
      AllMatched(g[..|g| - 1], ds);
    }
  }

  lemma {:induction false} WithoutShorter(g: seq<Triple>, ds: seq<Triple>)
    ensures |Without(g, ds)| <= |g|
    ensures Without(g, ds) == g <==> forall i :: 0 <= i < |g| ==> !Matched(g[i], ds)
  {
    if g != [] {
      var init := g[..|g| - 1];
      WithoutShorter(init, ds);
      assert g == init + [g[|g| - 1]];
      assert forall i :: 0 <= i < |init| ==> init[i] == g[i];
    }
  }

  /** Deleting what was added gives back the graph if and only if nothing in it had the same terms. */
  lemma DeletingTheAdded(g: seq<Triple>, ds: seq<Triple>)
    ensures Without(g + ds, ds) == g <==> forall i :: 0 <= i < |g| ==> !Matched(g[i], ds)
  {
    WithoutTogether(g, ds, ds);
    forall i | 0 <= i < |ds| ensures Matched(ds[i], ds) {
      assert SameTerms(ds[i], ds[i]);
    }
    AllMatched(ds, ds);
    ConcatEmpty(Without(g, ds), Without(ds, ds));
    WithoutShorter(g, ds);
  }

  // ----- One block in braces -----

  /** A text that begins with one in which nothing is found, and a character that is not looked for. */
  lemma {:induction false} IndexBehind(head: string, c: char, rest: string, p: string)
    requires !Contains(head, p) && c !in p && p != ""
    ensures Index(head + [c] + rest, p) == if Index(rest, p) < 0 then -1 else |head| + 1 + Index(rest, p)
  {
    var s := head + [c] + rest;
    LongerHas(head, c, rest, p);
    if head == "" {
      assert s[1..] == rest;
    } else {
      assert s[1..] == head[1..] + [c] + rest;
      IndexBehind(head[1..], c, rest, p);
    }
  }

  lemma LongerHas(head: string, c: char, rest: string, p: string)
    ensures p <= head + [c] + rest ==> p <= head || c in p
  {
    var s := head + [c] + rest;
    assert s[|head|] == c && s[..|head|] == head;
    if p <= s && |p| > |head| {
      assert p[|head|] == s[|head|];
    }
  }

  /** More text behind does not change what is found. */
  lemma {:induction false} IndexStays(s: string, more: string, p: string)
    requires Contains(s, p)
    ensures Index(s + more, p) == Index(s, p)
  {
    if HasPrefix(s, p) {
      assert p <= s + more;
    } else {
      assert !(p <= s + more) by {
        assert |p| <= |s|;
      }
      assert (s + more)[1..] == s[1..] + more;
      IndexStays(s[1..], more, p);
    }
  }

  predicate UpdateKeyword(k: string) { k == INSERT_DATA || k == DELETE_DATA }

  /** A request with one block. */
  function Request(keyword: string, block: string): string { keyword + " " + "{" + block + "}" }

  lemma UpperRequest(k: string, block: string)
    requires UpdateKeyword(k)
    ensures Upper(Request(k, block)) == k + " " + "{" + Upper(block) + "}"
  {
  }

  lemma LastIs(s: string, ch: char)
    requires s != "" && s[|s| - 1] == ch
    ensures LastIndexByte(s, ch) == |s| - 1
  {
  }

  lemma FirstIs(rest: string)
    ensures IndexByte(" " + "{" + rest, '{') == 1
  {
    var s := " " + "{" + rest;
    assert s[0] == ' ' && s[1..][0] == '{';
  }

  lemma BlockSlices(k: string, block: string)
    ensures var u := Request(k, block);
            && u[|k|..] == " " + "{" + (block + "}") && u[|k|..][2..|u| - |k| - 1] == block
            && |u| >= |k| + 3 && u[|u| - 1] == '}'
  {
  }

  lemma PrefixFound(s: string, p: string)
    requires p <= s
    ensures Index(s, p) == 0 && Contains(s, p)
  {
  }

  lemma KeywordFound(k: string, block: string)
    requires UpdateKeyword(k)
    ensures Index(Upper(Request(k, block)), k) == 0 && Contains(Upper(Request(k, block)), k)
  {
    UpperRequest(k, block);
    var u := k + " " + "{" + Upper(block) + "}";
    assert u[..|k|] == k;
    PrefixFound(u, k);
  }

  lemma BlockIsExtracted(k: string, block: string)
    requires UpdateKeyword(k)
    ensures ExtractBraceBlock(Request(k, block), k) == block
    ensures Contains(Upper(Request(k, block)), k)
  {
    KeywordFound(k, block);
    BlockSlices(k, block);
    FirstIs(block + "}");
    LastIs(Request(k, block)[|k|..], '}');
  }

  lemma KeywordsApart()
    ensures !Contains(INSERT_DATA + " ", DELETE_DATA) && !Contains(DELETE_DATA + " ", INSERT_DATA)
  {
    assert INSERT_DATA[0] == 'I' && INSERT_DATA[1] == 'N' && DELETE_DATA[0] == 'D' && DELETE_DATA[1] == 'E';
    assert |INSERT_DATA| == 11 && |DELETE_DATA| == 11;
    NotFound(INSERT_DATA + " ", DELETE_DATA);
    NotFound(DELETE_DATA + " ", INSERT_DATA);
  }

  lemma NotFound(s: string, p: string)
    requires p != "" && |s| == |p| + 1 && s[0] != p[0] && s[1] != p[0]
    ensures !Contains(s, p)
  {
  }

  lemma KeywordsHaveNoBraces()
    ensures '{' !in INSERT_DATA && '}' !in INSERT_DATA && '{' !in DELETE_DATA && '}' !in DELETE_DATA
  {
  }

  /** Where the other keyword is found in a request with one block. */
  lemma OtherKeyword(k: string, other: string, block: string)
    requires UpdateKeyword(k) && UpdateKeyword(other) && k != other
    ensures var i := Index(Upper(block), other);
            Index(Upper(Request(k, block)), other) == if i < 0 then -1 else |k| + 2 + i
  {
    var up, end := Upper(block), "}";
    UpperRequest(k, block);
    KeywordsApart();
    KeywordsHaveNoBraces();
    IndexBehind(k + " ", '{', up + end, other);
    assert k + " " + "{" + up + end == k + " " + ['{'] + (up + end);
    if Contains(up, other) {
      IndexStays(up, end, other);
    } else {
      IndexBehind(up, '}', "", other);
      ConcatEmpty(up + end, "");
    }
  }

  /** The other keyword does not occur in the block, or with no brace behind it, and so with nothing to say. */
  ghost predicate Quiet(block: string, other: string) {
    var i := Index(Upper(block), other);
    i < 0 || '{' !in block[i + |other|..]
  }

  lemma RequestFrom(k: string, block: string, i: nat)
    requires i <= |block|
    ensures Request(k, block)[|k| + 2 + i..] == block[i..] + "}"
  {
    assert Request(k, block) == k + " " + "{" + block[..i] + (block[i..] + "}") by {
      assert block == block[..i] + block[i..];
    }
  }

  lemma QuietSaysNothing(k: string, other: string, block: string)
    requires UpdateKeyword(k) && UpdateKeyword(other) && k != other && Quiet(block, other)
    ensures Contains(Upper(Request(k, block)), other) ==> ExtractBraceBlock(Request(k, block), other) == ""
  {
    OtherKeyword(k, other, block);
    var i := Index(Upper(block), other);
    if i >= 0 {
      RequestFrom(k, block, i + |other|);
      NoBraceInside(block[i + |other|..]);
    }
  }

  lemma NoBraceInside(rest: string)
    requires '{' !in rest
    ensures IndexByte(rest + "}", '{') < 0
  {
  }

  lemma NothingParses(s: string)
    requires s == ""
    ensures Parse(s) == Ok([])
  {
    assert Lines(s) == [] && Uncomment([]) == "";
  }

  lemma RequestIsTrimmed(k: string, block: string)
    requires UpdateKeyword(k)
    ensures TrimSpace(Request(k, block)) == Request(k, block)
  {
  }

  /** A request that inserts one block adds what the block says. */
  lemma Inserts(g: seq<Triple>, block: string, ts: seq<Triple>)
    requires Parse(block) == Ok(ts) && Quiet(block, DELETE_DATA)
    ensures Updated(g, Request(INSERT_DATA, block)) == Ok(g + ts)
  {
    KeywordsDiffer();
    RequestIsTrimmed(INSERT_DATA, block);
    QuietSaysNothing(INSERT_DATA, DELETE_DATA, block);
    NothingParses("");
    NothingDeleted(g);
    BlockIsExtracted(INSERT_DATA, block);
  }

  lemma NothingDeleted(g: seq<Triple>)
    ensures Without(g, []) == g
  {
    WithoutShorter(g, []);
  }

  lemma KeywordsDiffer()
    ensures INSERT_DATA != DELETE_DATA
  {
    assert INSERT_DATA[0] == 'I' && DELETE_DATA[0] == 'D';
  }

  /** A request that deletes one block leaves what has other terms. */
  lemma Deletes(g: seq<Triple>, block: string, ts: seq<Triple>)
    requires Parse(block) == Ok(ts) && Quiet(block, INSERT_DATA)
    ensures Updated(g, Request(DELETE_DATA, block)) == Ok(Without(g, ts))
  {
    KeywordsDiffer();
    RequestIsTrimmed(DELETE_DATA, block);
    QuietSaysNothing(DELETE_DATA, INSERT_DATA, block);
    NothingParses("");
    ConcatEmpty(Without(g, ts), []);
    BlockIsExtracted(DELETE_DATA, block);
  }

  /** Inserting a printed graph and deleting it again leaves the graph as it was if and only if nothing in it
      had the same terms as something printed. */
  lemma DeleteUndoesInsert(isPrint: char -> bool, ps: seq<(string, string)>, g: seq<Triple>, printed: seq<Triple>)
    requires PrintTable(isPrint) && GraphOk(printed)
    requires forall i :: 0 <= i < |ps| ==> PrefixOk(ps[i].0, ps[i].1)
    requires Quiet(Print(isPrint, printed, ps), INSERT_DATA) && Quiet(Print(isPrint, printed, ps), DELETE_DATA)
    ensures var block, ts := Print(isPrint, printed, ps), ReadTriples(isPrint, printed, PrefixMap(ps, map[]));
            && Updated(g, Request(INSERT_DATA, block)) == Ok(g + ts)
            && (Updated(g + ts, Request(DELETE_DATA, block)) == Ok(g)
                <==> forall i :: 0 <= i < |g| ==> !Matched(g[i], ts))
  {
    var block, ts := Print(isPrint, printed, ps), ReadTriples(isPrint, printed, PrefixMap(ps, map[]));
    ParsePrint(isPrint, printed, ps);
    Inserts(g, block, ts);
    Deletes(g + ts, block, ts);
    DeletingTheAdded(g, ts);
  }
}

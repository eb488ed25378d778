/** When a printed literal, and a printed graph, is read back as it was. */
module TurtleLiterals {
  import opened Text
  import opened Lexis
  import opened Turtle
  import opened TurtleRoundTrip
  import opened TurtleKeywords

  /** Every character is printable or a newline, and no backslash stands before an 'n'. */
  ghost predicate Safe(isPrint: char -> bool, s: string) {
    && (forall i :: 0 <= i < |s| ==> isPrint(s[i]) || s[i] == '\n')
    && (forall i :: 0 <= i < |s| - 1 ==> s[i] == '\\' ==> s[i + 1] != 'n')
  }

  /** A character once the first `stage` of the three replacements are done. */
  function Unit(stage: nat, isPrint: char -> bool, c: char): string {
    if (c == '\\' && stage >= 1) || (c == '"' && stage >= 2) then [c] else Escape(isPrint, c)
  }

  function Units(stage: nat, isPrint: char -> bool, s: string): string {
    if s == "" then "" else Unit(stage, isPrint, s[0]) + Units(stage, isPrint, s[1..])
  }

  /** What the three replacements make of the escaped form of `s`. */
  function Undone(isPrint: char -> bool, s: string): string
    decreases |s|
  {
    if s == "" then ""
    else if |s| > 1 && s[0] == '\\' && s[1] == 'n' then "\n" + Undone(isPrint, s[2..])
    else (if s[0] == '\n' then "\n" else Unit(2, isPrint, s[0])) + Undone(isPrint, s[1..])
  }

  lemma {:induction false} UnitsZero(isPrint: char -> bool, s: string)
    ensures Units(0, isPrint, s) == EscapeAll(isPrint, s)
  {
    if s != "" {
      UnitsZero(isPrint, s[1..]);
    }
  }

  /** A replacement passes over a text in which its pattern starts nowhere. */
  lemma {:induction false} ReplacePasses(u: string, v: string, b: char, with: char)
    requires forall i {:trigger u[i]} :: 0 <= i < |u| && u[i] == '\\' ==> i + 1 < |u| && u[i + 1] != b
    ensures ReplaceAll(u + v, '\\', b, with) == u + ReplaceAll(v, '\\', b, with)
    decreases |u|
  {
    if u == "" {
      EmptyConcat(u, v);
      EmptyConcat(u, ReplaceAll(v, '\\', b, with));
    } else {
      assert (u + v)[1..] == u[1..] + v;
      var t := u[1..];
      forall i | 0 <= i < |t| && t[i] == '\\'
        ensures i + 1 < |t| && t[i + 1] != b
      {
        var j := i + 1;
        assert u[j] == '\\';
        assert j + 1 < |u| && t[i + 1] == u[j + 1];
      }
      ReplacePasses(t, v, b, with);
      if |u + v| < 2 {
        assert v == "" && u + v == u;
      } else if u[0] == '\\' {
        assert u[1] != b && (u + v)[1] == u[1];
      }
      assert [u[0]] + u[1..] == u;
      ConcatAssoc([u[0]], u[1..], ReplaceAll(v, '\\', b, with));
    }
  }

  lemma ReplaceHits(v: string, b: char, with: char)
    ensures ReplaceAll("\\" + [b] + v, '\\', b, with) == [with] + ReplaceAll(v, '\\', b, with)
  {
    assert ("\\" + [b] + v)[2..] == v;
  }

  /** The escape of a character that is none of the three the replacements undo. */
  lemma OtherEscape(isPrint: char -> bool, c: char)
    requires PrintTable(isPrint)
    requires c != '\\' && c != '"' && c != '\n'
    ensures var e := Escape(isPrint, c);
            && e != ""
            && (isPrint(c) <==> e == [c])
            && (!isPrint(c) ==> e[0] == '\\')
            && (forall i :: 0 <= i < |e| ==> e[i] == '\\' ==>
                 i + 1 < |e| && e[i + 1] != '\\' && e[i + 1] != '"' && e[i + 1] != 'n')
  {
    var n := c as nat;
    HexIsInner(n, 2);
    HexIsInner(n, 4);
    HexIsInner(n, 8);
  }

  /** The first character of a text at a later stage. */
  lemma UnitsStart(stage: nat, isPrint: char -> bool, s: string)
    requires PrintTable(isPrint) && s != ""
    ensures var u := Units(stage, isPrint, s);
            && u != ""
            && (stage <= 1 ==> u[0] != '"')
            && (stage == 2 ==> (u[0] == 'n' <==> s[0] == 'n'))
  {
    if s[0] != '\\' && s[0] != '"' && s[0] != '\n' {
      OtherEscape(isPrint, s[0]);
    }
  }

  lemma {:induction false} FirstReplacement(isPrint: char -> bool, s: string)
    requires PrintTable(isPrint)
    ensures ReplaceAll(Units(0, isPrint, s), '\\', '\\', '\\') == Units(1, isPrint, s)
  {
    if s != "" {
      var c, rest := s[0], Units(0, isPrint, s[1..]);
      FirstReplacement(isPrint, s[1..]);
      if c == '\\' {
        ReplaceHits(rest, '\\', '\\');
      } else {
        if c != '"' && c != '\n' {
          OtherEscape(isPrint, c);
        }
        ReplacePasses(Escape(isPrint, c), rest, '\\', '\\');
      }
    }
  }

  lemma {:induction false} SecondReplacement(isPrint: char -> bool, s: string)
    requires PrintTable(isPrint)
    ensures ReplaceAll(Units(1, isPrint, s), '\\', '"', '"') == Units(2, isPrint, s)
  {
    if s != "" {
      var c, rest := s[0], Units(1, isPrint, s[1..]);
      SecondReplacement(isPrint, s[1..]);
      if c == '"' {
        ReplaceHits(rest, '"', '"');
      } else if c == '\\' {
        if s[1..] != "" {
          UnitsStart(1, isPrint, s[1..]);
        }
        PassBackslash(rest, '"', '"');
      } else {
        if c != '\n' {
          OtherEscape(isPrint, c);
        }
        ReplacePasses(Escape(isPrint, c), rest, '"', '"');
      }
    }
  }

  lemma PassBackslash(v: string, b: char, with: char)
    requires v == "" || v[0] != b
    ensures ReplaceAll("\\" + v, '\\', b, with) == "\\" + ReplaceAll(v, '\\', b, with)
  {
  }

  lemma {:induction false} ThirdReplacement(isPrint: char -> bool, s: string)
    requires PrintTable(isPrint)
    ensures ReplaceAll(Units(2, isPrint, s), '\\', 'n', '\n') == Undone(isPrint, s)
    decreases |s|
  {
    if s != "" {
      var c, rest := s[0], Units(2, isPrint, s[1..]);
      ThirdReplacement(isPrint, s[1..]);
      if s[1..] != "" {
        UnitsStart(2, isPrint, s[1..]);
      }
      if c == '\n' {
        ReplaceHits(rest, 'n', '\n');
      } else if c == '\\' && |s| > 1 && s[1] == 'n' {
        var more := Units(2, isPrint, s[2..]);
        assert s[1..][1..] == s[2..];
        assert Unit(2, isPrint, 'n') == ['n'];
        ConcatAssoc("\\", ['n'], more);
        ReplaceHits(more, 'n', '\n');
        ThirdReplacement(isPrint, s[2..]);
      } else if c == '\\' {
        PassBackslash(rest, 'n', '\n');
      } else if c == '"' {
        ReplacePasses(['"'], rest, 'n', '\n');
      } else {
        OtherEscape(isPrint, c);
        ReplacePasses(Escape(isPrint, c), rest, 'n', '\n');
      }
    }
  }

  lemma UnescapeEscaped(isPrint: char -> bool, s: string)
    requires PrintTable(isPrint)
    ensures Unescape(EscapeAll(isPrint, s)) == Undone(isPrint, s)
  {
    UnitsZero(isPrint, s);
    FirstReplacement(isPrint, s);
    SecondReplacement(isPrint, s);
    ThirdReplacement(isPrint, s);
  }

  lemma {:induction false} UndoneIffSafe(isPrint: char -> bool, s: string)
    requires PrintTable(isPrint)
    ensures Undone(isPrint, s) == s <==> Safe(isPrint, s)
    decreases |s|
  {
    if s != "" {
      var c, rest := s[0], s[1..];
      UndoneIffSafe(isPrint, rest);
      if |s| > 1 && c == '\\' && s[1] == 'n' {
        assert Undone(isPrint, s)[0] == '\n';
      } else {
        if c != '\\' && c != '"' && c != '\n' {
          OtherEscape(isPrint, c);
        }
        SafeStep(isPrint, s);
        if isPrint(c) || c == '\n' {
          assert Undone(isPrint, s) == [c] + Undone(isPrint, rest);
          assert s == [c] + rest;
        } else {
          assert Undone(isPrint, s)[0] == '\\';
        }
      }
    }
  }

  lemma SafeStep(isPrint: char -> bool, s: string)
    requires s != ""
    ensures Safe(isPrint, s) <==>
            && (isPrint(s[0]) || s[0] == '\n')
            && (|s| > 1 && s[0] == '\\' ==> s[1] != 'n')
            && Safe(isPrint, s[1..])
  {
  }

  /** A literal survives printing and parsing exactly when its text is safe. */
  lemma LiteralRoundTrip(isPrint: char -> bool, s: string)
    requires PrintTable(isPrint)
    ensures Unescape(EscapeAll(isPrint, s)) == s <==> Safe(isPrint, s)
  {
    UnescapeEscaped(isPrint, s);
    UndoneIffSafe(isPrint, s);
  }

  /** No angle bracket at either end. */
  ghost predicate EndsFree(s: string) {
    s == "" || (s[0] != '<' && s[0] != '>' && s[|s| - 1] != '<' && s[|s| - 1] != '>')
  }

  /** Terms in brackets must not bring brackets of their own; other terms must not start
      with a declared prefix, unless that prefix stands for itself. */
  ghost predicate TermFaithful(term: string, m: map<string, string>) {
    if !Bare(term) then EndsFree(term)
    else
      var idx := IndexByte(term, ':');
      !HasPrefix(term, "_:") && idx > 0 && term[..idx] in m ==> m[term[..idx]] == term[..idx] + ":"
  }

  /** The triples that printing and parsing leaves as they are. */
  ghost predicate Faithful(isPrint: char -> bool, t: Triple, m: map<string, string>) {
    && TermFaithful(t.subject, m) && TermFaithful(t.predicate_, m)
    && if t.objectLit then
         Safe(isPrint, t.obj) && if t.lang != "" then t.datatype_ == "" else EndsFree(t.datatype_)
       else TermFaithful(t.obj, m) && t.lang == "" && t.datatype_ == ""
  }

  lemma TrimAnglesFixed(s: string)
    ensures TrimAngles(s) == s <==> EndsFree(s)
  {
    TrimAnglesEnds(s);
    if EndsFree(s) {
      TrimAnglesKeeps(s);
    }
  }

  lemma ReadTermFixed(term: string, m: map<string, string>)
    ensures ReadTerm(term, m) == term <==> TermFaithful(term, m)
  {
    TrimAnglesFixed(term);
    var idx := IndexByte(term, ':');
    if Bare(term) && !HasPrefix(term, "_:") && idx > 0 && term[..idx] in m {
      var local := term[idx + 1..];
      assert term == (term[..idx] + ":") + local;
      if ReadTerm(term, m) == term {
        assert m[term[..idx]] == term[..|term| - |local|];
      }
    }
  }

  lemma ReadTripleFixed(isPrint: char -> bool, t: Triple, m: map<string, string>)
    requires PrintTable(isPrint)
    ensures ReadTriple(isPrint, t, m) == t <==> Faithful(isPrint, t, m)
  {
    ReadTermFixed(t.subject, m);
    ReadTermFixed(t.predicate_, m);
    ReadTermFixed(t.obj, m);
    TrimAnglesFixed(t.datatype_);
    LiteralRoundTrip(isPrint, t.obj);
  }

  lemma {:induction false} ReadTriplesFixed(isPrint: char -> bool, g: seq<Triple>, m: map<string, string>)
    requires PrintTable(isPrint)
    ensures ReadTriples(isPrint, g, m) == g <==> forall i :: 0 <= i < |g| ==> Faithful(isPrint, g[i], m)
  {
    if g != [] {
      var rest := g[1..];
      ReadTriplesFixed(isPrint, rest, m);
      ReadTripleFixed(isPrint, g[0], m);
      assert g == [g[0]] + rest;
      if ReadTriples(isPrint, g, m) == g {
        assert ReadTriples(isPrint, g, m)[1..] == ReadTriples(isPrint, rest, m);
        assert forall i :: 1 <= i < |g| ==> g[i] == rest[i - 1];
      } else {
        assert forall i :: 0 <= i < |rest| ==> rest[i] == g[i + 1];
      }
    }
  }

  /** Printing and then parsing gives the same triples in the same order exactly for the
      graphs whose triples are all faithful, and whose first subject begins with no keyword. */
  lemma RoundTrip(isPrint: char -> bool, g: seq<Triple>, ps: seq<(string, string)>)
    requires PrintTable(isPrint) && AllOk(g)
    requires forall i :: 0 <= i < |ps| ==> PrefixOk(ps[i].0, ps[i].1)
    ensures Parse(Print(isPrint, g, ps)) == Ok(g)
            <==> !Misread(g) && forall i :: 0 <= i < |g| ==> Faithful(isPrint, g[i], PrefixMap(ps, map[]))
  {
    ReadBackExactly(isPrint, g, ps);
    ReadTriplesFixed(isPrint, g, PrefixMap(ps, map[]));
  }
}

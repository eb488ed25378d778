/** The string functions of the Go standard library that the modelled code calls,
    on sequences of Unicode scalar values. */
module Text {

  datatype Option<+T> = None | Some(value: T)

  /** What a Go function that can fail gives back. `Panic` is a run-time panic
      (here always a slice expression out of range). */
  datatype Outcome<+T> = Ok(value: T) | Err | Panic {
    predicate IsFailure() { !Ok? }

    function PropagateFailure<U>(): Outcome<U>
      requires IsFailure()
    {
      if Err? then Err else Panic
    }

    function Extract(): T
      requires Ok?
    {
      value
    }
  }

  /** unicode.IsSpace */
  predicate IsSpace(c: char) {
    || c == ' ' || ('\U{9}' <= c <= '\U{D}')
    || c == '\U{85}' || c == '\U{A0}' || c == '\U{1680}' || ('\U{2000}' <= c <= '\U{200A}')
    || c == '\U{2028}' || c == '\U{2029}' || c == '\U{202F}' || c == '\U{205F}' || c == '\U{3000}'
  }

  ghost predicate NoSpace(s: string) {
    forall i :: 0 <= i < |s| ==> !IsSpace(s[i])
  }

  ghost predicate AllSpace(s: string) {
    forall i :: 0 <= i < |s| ==> IsSpace(s[i])
  }

  predicate HasPrefix(s: string, p: string) { p <= s }

  predicate HasSuffix(s: string, p: string) { |p| <= |s| && s[|s| - |p|..] == p }

  function TrimPrefix(s: string, p: string): string { if HasPrefix(s, p) then s[|p|..] else s }

  function TrimSuffix(s: string, p: string): string { if HasSuffix(s, p) then s[..|s| - |p|] else s }

  /** Position of the first `c` in `s`, or -1. */
  function IndexByte(s: string, c: char): (i: int)
    ensures -1 <= i < |s|
    ensures i < 0 <==> c !in s
    ensures i >= 0 ==> s[i] == c && c !in s[..i]
  {
    if s == "" then -1
    else if s[0] == c then 0
    else
      var k := IndexByte(s[1..], c);
      if k < 0 then -1 else k + 1
  }

  /** Position of the last `c` in `s`, or -1. */
  function LastIndexByte(s: string, c: char): (i: int)
    ensures -1 <= i < |s|
    ensures i < 0 <==> c !in s
    ensures i >= 0 ==> s[i] == c && c !in s[i + 1..]
  {
    if s == "" then -1
    else if s[|s| - 1] == c then |s| - 1
    else LastIndexByte(s[..|s| - 1], c)
  }

  /** Position of the first occurrence of `p` in `s`, or -1. */
  function Index(s: string, p: string): (i: int)
    ensures -1 <= i <= |s| - |p| || i == -1
    ensures i >= 0 ==> s[i..i + |p|] == p
  {
    if HasPrefix(s, p) then 0
    else if s == "" then -1
    else
      var k := Index(s[1..], p);
      if k < 0 then -1 else k + 1
  }

  predicate Contains(s: string, p: string) { Index(s, p) >= 0 }

  /** An occurrence is found. */
  lemma {:induction false} IndexFinds(s: string, p: string, i: nat)
    requires i + |p| <= |s| && s[i..i + |p|] == p
    ensures Contains(s, p)
    decreases |s|
  {
    if i > 0 && !HasPrefix(s, p) {
      assert s[1..][i - 1..i - 1 + |p|] == p;
      IndexFinds(s[1..], p, i - 1);
    }
  }

  function TrimLeft(s: string): string {
    if s != "" && IsSpace(s[0]) then TrimLeft(s[1..]) else s
  }

  function TrimRight(s: string): string {
    if s != "" && IsSpace(s[|s| - 1]) then TrimRight(s[..|s| - 1]) else s
  }

  function TrimSpace(s: string): string { TrimRight(TrimLeft(s)) }

  /** strings.Trim with the cutset "<>". */
  function TrimAngles(s: string): string {
    if s != "" && (s[0] == '<' || s[0] == '>') then TrimAngles(s[1..])
    else if s != "" && (s[|s| - 1] == '<' || s[|s| - 1] == '>') then TrimAngles(s[..|s| - 1])
    else s
  }

  /** strings.ReplaceAll for a two-character pattern: occurrences are taken from the
      left and do not overlap. */
  function ReplaceAll(s: string, a: char, b: char, with: char): string {
    if |s| < 2 then s
    else if s[0] == a && s[1] == b then [with] + ReplaceAll(s[2..], a, b, with)
    else [s[0]] + ReplaceAll(s[1..], a, b, with)
  }

  /** strings.Fields */
  function Fields(s: string): seq<string>
    decreases |s|
  {
    var t := TrimLeft(s);
    TrimLeftLength(s);
    if t == "" then []
    else
      var k := WordEnd(t);
      [t[..k]] + Fields(t[k..])
  }

  function WordEnd(s: string): (k: nat)
    ensures k <= |s|
    ensures s != "" && !IsSpace(s[0]) ==> k > 0
    ensures NoSpace(s[..k])
    ensures k < |s| ==> IsSpace(s[k])
  {
    if s == "" || IsSpace(s[0]) then 0
    else
      var k := WordEnd(s[1..]);
      assert s[..1 + k] == [s[0]] + s[1..][..k];
      1 + k
  }

  lemma ConcatAssoc<T>(a: seq<T>, b: seq<T>, c: seq<T>)
    ensures a + b + c == a + (b + c)
  {
  }

  lemma EmptyConcat<T>(a: seq<T>, b: seq<T>)
    requires |a| == 0
    ensures a + b == b
  {
  }

  lemma ConcatEmpty<T>(a: seq<T>, b: seq<T>)
    requires |b| == 0
    ensures a + b == a
  {
  }

  lemma TrimLeftLength(s: string)
    ensures |TrimLeft(s)| <= |s|
    ensures TrimLeft(s) != "" ==> !IsSpace(TrimLeft(s)[0])
  {
  }

  lemma TrimRightLength(s: string)
    ensures |TrimRight(s)| <= |s|
  {
  }

  /** Leading white space does not change what trimming leaves. */
  lemma {:induction false} TrimLeftSkips(a: string, b: string)
    requires AllSpace(a)
    ensures TrimLeft(a + b) == TrimLeft(b)
  {
    if a == "" {
      assert a + b == b;
    } else {
      assert (a + b)[1..] == a[1..] + b;
      TrimLeftSkips(a[1..], b);
    }
  }

  lemma {:induction false} TrimRightSkips(a: string, b: string)
    requires AllSpace(b)
    ensures TrimRight(a + b) == TrimRight(a)
  {
    if b == "" {
      assert a + b == a;
    } else {
      assert (a + b)[..|a + b| - 1] == a + b[..|b| - 1];
      TrimRightSkips(a, b[..|b| - 1]);
    }
  }

  /** Trimming on the right never reaches past a character that is no white space. */
  lemma {:induction false} TrimRightStops(a: string, b: string)
    requires a != "" && !IsSpace(a[|a| - 1])
    ensures TrimRight(a + b) == a + TrimRight(b)
  {
    if b == "" {
      assert a + b == a;
    } else if IsSpace(b[|b| - 1]) {
      assert (a + b)[..|a + b| - 1] == a + b[..|b| - 1];
      TrimRightStops(a, b[..|b| - 1]);
    }
  }

  lemma {:induction false} TrimRightIdempotent(s: string)
    ensures TrimRight(TrimRight(s)) == TrimRight(s)
  {
    if s != "" && IsSpace(s[|s| - 1]) {
      TrimRightIdempotent(s[..|s| - 1]);
    }
  }

  lemma {:induction false} TrimsCommute(s: string)
    ensures TrimLeft(TrimRight(s)) == TrimRight(TrimLeft(s))
    decreases |s|
  {
    if s != "" && IsSpace(s[|s| - 1]) {
      var t := s[..|s| - 1];
      TrimsCommute(t);
      assert s == t + [s[|s| - 1]];
      TrimLeftSnoc(t, s[|s| - 1]);
    } else if s != "" {
      var t := s[..|s| - 1];
      assert s == t + [s[|s| - 1]];
      TrimLeftSnoc(t, s[|s| - 1]);
    }
  }

  lemma {:induction false} TrimLeftSnoc(t: string, c: char)
    ensures TrimLeft(t + [c]) == if TrimLeft(t) != "" || !IsSpace(c) then TrimLeft(t) + [c] else ""
    ensures IsSpace(c) ==> TrimRight(TrimLeft(t + [c])) == TrimRight(TrimLeft(t))
    ensures !IsSpace(c) ==> TrimRight(TrimLeft(t + [c])) == TrimLeft(t + [c])
  {
    if t != "" && IsSpace(t[0]) {
      assert (t + [c])[1..] == t[1..] + [c];
      TrimLeftSnoc(t[1..], c);
    } else if t == "" {
      assert t + [c] == [c];
      assert [c][1..] == "";
    } else {
      assert (t + [c])[..|t|] == t;
    }
  }

  lemma TrimSpaceOfTrimRight(s: string)
    ensures TrimSpace(TrimRight(s)) == TrimSpace(s)
  {
    TrimsCommute(s);
    TrimRightIdempotent(TrimLeft(s));
  }

  /** Trimming leaves a text that neither starts nor ends with white space alone. */
  lemma TrimSpaceKeeps(s: string)
    requires s == "" || (!IsSpace(s[0]) && !IsSpace(s[|s| - 1]))
    ensures TrimSpace(s) == s
  {
  }

  /** White space around a text is what trimming removes. */
  lemma TrimSpaceAround(a: string, s: string, b: string)
    requires AllSpace(a) && AllSpace(b)
    requires s == "" || (!IsSpace(s[0]) && !IsSpace(s[|s| - 1]))
    ensures TrimSpace(a + s + b) == s
  {
    assert a + s + b == a + (s + b);
    TrimLeftSkips(a, s + b);
    if s == "" {
      assert s + b == b;
      assert b + "" == b;
      TrimLeftSkips(b, "");
    } else {
      TrimRightSkips(s, b);
    }
  }

  lemma {:induction false} IndexByteSkips(a: string, c: char, b: string)
    requires c !in a
    ensures IndexByte(a + [c] + b, c) == |a|
  {
    if a == "" {
      assert a + [c] + b == [c] + b;
    } else {
      assert (a + [c] + b)[1..] == a[1..] + [c] + b;
      IndexByteSkips(a[1..], c, b);
    }
  }

  lemma TrimAnglesKeeps(s: string)
    requires s == "" || (s[0] != '<' && s[0] != '>' && s[|s| - 1] != '<' && s[|s| - 1] != '>')
    ensures TrimAngles(s) == s
  {
  }

  lemma {:induction false} TrimAnglesEnds(s: string)
    ensures var t := TrimAngles(s); t == "" || (t[0] != '<' && t[0] != '>' && t[|t| - 1] != '<' && t[|t| - 1] != '>')
    ensures |TrimAngles(s)| <= |s|
    decreases |s|
  {
    if s != "" && (s[0] == '<' || s[0] == '>') {
      TrimAnglesEnds(s[1..]);
    } else if s != "" && (s[|s| - 1] == '<' || s[|s| - 1] == '>') {
      TrimAnglesEnds(s[..|s| - 1]);
    }
  }

  /** Trimming one angle bracket more on each side changes nothing. */
  lemma TrimAnglesAround(s: string)
    ensures TrimAngles("<" + s + ">") == TrimAngles(s)
    decreases |s|
  {
    var w := "<" + s + ">";
    assert w[1..] == s + ">";
    TrimAnglesSnoc(s);
  }

  lemma {:induction false} TrimAnglesSnoc(s: string)
    ensures TrimAngles(s + ">") == TrimAngles(s)
    decreases |s|
  {
    var w := s + ">";
    if s != "" && (s[0] == '<' || s[0] == '>') {
      assert w[1..] == s[1..] + ">";
      TrimAnglesSnoc(s[1..]);
    } else if s != "" {
      assert w[0] == s[0];
      assert w[..|w| - 1] == s;
    } else {
      assert w == ">";
      assert w[1..] == "";
    }
  }
}

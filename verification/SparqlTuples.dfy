/** The rows of a basic graph pattern are the ways to match its patterns with triples. */
module SparqlTuples {
  import opened Text
  import opened Turtle
  import opened Sparql
  import opened SparqlOrder

  /** The triples at the positions `ix`, one for each pattern, agree with the patterns
      when every variable has the value that `mu` gives it. */
  ghost predicate Satisfies(g: seq<Triple>, ps: seq<Pattern>, ix: seq<nat>, mu: KeyRow) {
    && |ix| == |ps|
    && forall k :: 0 <= k < |ix| ==> ix[k] < |g| && Agrees(ps[k], g[ix[k]], mu)
  }

  ghost predicate Agrees(p: Pattern, t: Triple, mu: KeyRow) {
    && ConstantsFit(p, t)
    && (p.s.IsVar() ==> p.s.value in mu && mu[p.s.value] == Key(false, t.subject))
    && (p.p.IsVar() ==> p.p.value in mu && mu[p.p.value] == Key(false, t.predicate_))
    && (p.o.IsVar() ==> p.o.value in mu && mu[p.o.value] == Key(t.objectLit, t.obj))
  }

  function Vars(p: Pattern): set<string> {
    (if p.s.IsVar() then {p.s.value} else {})
    + (if p.p.IsVar() then {p.p.value} else {})
    + (if p.o.IsVar() then {p.o.value} else {})
  }

  function AllVars(ps: seq<Pattern>): set<string> {
    if ps == [] then {} else AllVars(ps[..|ps| - 1]) + Vars(ps[|ps| - 1])
  }

  /** The row of a tuple of positions: each variable has the value, with datatype and
      language, of the first pattern it is in. */
  function RowOf(g: seq<Triple>, ps: seq<Pattern>, ix: seq<nat>): Binding
    decreases |ps|
  {
    if ps == [] || |ix| != |ps| || ix[|ps| - 1] >= |g| then map[]
    else
      var n := |ps| - 1;
      Solution(ps[n], g[ix[n]]) + RowOf(g, ps[..n], ix[..n])
  }

  function RowsOf(g: seq<Triple>, ps: seq<Pattern>, ts: seq<seq<nat>>): seq<Binding> {
    seq(|ts|, i requires 0 <= i < |ts| => RowOf(g, ps, ts[i]))
  }

  /** Dictionary order. */
  ghost predicate Before(a: seq<nat>, b: seq<nat>) {
    exists k :: 0 <= k < |a| && k < |b| && a[..k] == b[..k] && a[k] < b[k]
  }

  // ----- One pattern -----

  lemma {:induction false} FirstValuesNames(l: seq<(string, Bound)>, v: string)
    ensures v in FirstValues(l) <==> exists i :: 0 <= i < |l| && l[i].0 == v
    decreases |l|
  {
    if l != [] {
      FirstValuesNames(l[1..], v);
      assert forall i :: 1 <= i < |l| ==> l[i] == l[1..][i - 1];
      if v in FirstValues(l[1..]) {
        var i :| 0 <= i < |l[1..]| && l[1..][i].0 == v;
        assert l[i + 1].0 == v;
      }
    }
  }

  lemma SolutionVars(p: Pattern, t: Triple)
    ensures Solution(p, t).Keys == Vars(p)
  {
    var l := Pairs(p, t);
    if p.s.IsVar() {
      assert l[0].0 == p.s.value;
    }
    if p.p.IsVar() {
      assert l[if p.s.IsVar() then 1 else 0].0 == p.p.value;
    }
    if p.o.IsVar() {
      assert l[|l| - 1].0 == p.o.value;
    }
    forall v
      ensures v in Solution(p, t) <==> v in Vars(p)
    {
      FirstValuesNames(l, v);
    }
  }

  /** Values for the variables of a pattern exist exactly when the triple fits it, and are
      then those of its solution. */
  lemma AgreesExactly(p: Pattern, t: Triple, mu: KeyRow)
    requires Vars(p) <= mu.Keys
    ensures Agrees(p, t, mu) <==> Fits(p, t) && Agree(mu, Keyed(Solution(p, t)))
  {
    var l := Pairs(p, t);
    SolutionVars(p, t);
    ListAgrees(l, mu);
    assert p.s.IsVar() ==> l[0] == (p.s.value, IriBound(t.subject));
    assert p.p.IsVar() ==> l[if p.s.IsVar() then 1 else 0] == (p.p.value, IriBound(t.predicate_));
    assert p.o.IsVar() ==> l[|l| - 1] == (p.o.value, ObjectBound(t));
  }

  lemma {:induction false} ListAgrees(l: seq<(string, Bound)>, mu: KeyRow)
    requires forall i :: 0 <= i < |l| ==> l[i].0 in mu
    ensures (forall i :: 0 <= i < |l| ==> mu[l[i].0] == KeyOf(l[i].1))
            <==> Consistent(l) && Agree(mu, Keyed(FirstValues(l)))
    decreases |l|
  {
    if l != [] {
      var (name, v) := l[0];
      var rest := l[1..];
      assert forall i :: 0 <= i < |rest| ==> rest[i] == l[i + 1];
      ListAgrees(rest, mu);
      var later := Keyed(FirstValues(rest));
      assert Keyed(FirstValues(l)) == later + map[name := KeyOf(v)];
      HeadAgrees(mu, name, KeyOf(v), later);
      assert forall i :: 1 <= i < |l| ==> l[i] == rest[i - 1];
    }
  }

  lemma HeadAgrees(mu: KeyRow, name: string, k: Key, later: KeyRow)
    requires name in mu
    ensures mu[name] == k && Agree(mu, later)
            <==> (name in later ==> later[name] == k) && Agree(mu, later + map[name := k])
  {
  }

  // ----- All patterns -----

  /** `ix` followed by each of the first `m` positions at which the next pattern fits. */
  ghost function Extensions(g: seq<Triple>, p: Pattern, row: Binding, ix: seq<nat>, m: nat): seq<seq<nat>>
    requires m <= |g|
  {
    if m == 0 then []
    else if Fits(p, g[m - 1]) && Compatible(row, Solution(p, g[m - 1])) then
      Extensions(g, p, row, ix, m - 1) + [ix + [m - 1]]
    else Extensions(g, p, row, ix, m - 1)
  }

  ghost function Widen(g: seq<Triple>, ps: seq<Pattern>, p: Pattern, ts: seq<seq<nat>>): seq<seq<nat>> {
    if ts == [] then []
    else
      var n := |ts| - 1;
      Widen(g, ps, p, ts[..n]) + Extensions(g, p, RowOf(g, ps, ts[n]), ts[n], |g|)
  }

  ghost function Tuples(g: seq<Triple>, ps: seq<Pattern>): seq<seq<nat>> {
    if ps == [] then [[]]
    else
      var n := |ps| - 1;
      Widen(g, ps[..n], ps[n], Tuples(g, ps[..n]))
  }

  ghost predicate Chosen(g: seq<Triple>, ps: seq<Pattern>, ix: seq<nat>) {
    if ps == [] then ix == []
    else
      var n := |ps| - 1;
      && |ix| == |ps| && ix[n] < |g| && Chosen(g, ps[..n], ix[..n])
      && Fits(ps[n], g[ix[n]]) && Compatible(RowOf(g, ps[..n], ix[..n]), Solution(ps[n], g[ix[n]]))
  }

  lemma RowOfSnoc(g: seq<Triple>, ps: seq<Pattern>, ix: seq<nat>, j: nat)
    requires |ps| == |ix| + 1 && j < |g|
    ensures RowOf(g, ps, ix + [j]) == Solution(ps[|ix|], g[j]) + RowOf(g, ps[..|ix|], ix)
  {
    assert (ix + [j])[..|ix|] == ix;
  }

  lemma RowsSnoc(g: seq<Triple>, ps: seq<Pattern>, ts: seq<seq<nat>>, t: seq<nat>)
    ensures RowsOf(g, ps, ts + [t]) == RowsOf(g, ps, ts) + [RowOf(g, ps, t)]
  {
  }

  /** The tuples are listed in step with the rows. */
  lemma {:induction false} ExtensionRows(g: seq<Triple>, ps: seq<Pattern>, ix: seq<nat>, m: nat)
    requires |ps| == |ix| + 1 && m <= |g|
    ensures var row, p := RowOf(g, ps[..|ix|], ix), ps[|ix|];
            RowsOf(g, ps, Extensions(g, p, row, ix, m)) == Merged(row, Solutions(g[..m], p))
    decreases m
  {
    if m > 0 {
      var row, p := RowOf(g, ps[..|ix|], ix), ps[|ix|];
      ExtensionRows(g, ps, ix, m - 1);
      RowOfSnoc(g, ps, ix, m - 1);
      assert g[..m][..m - 1] == g[..m - 1];
      MergedOne(row, Solutions(g[..m - 1], p), Solution(p, g[m - 1]));
      RowsSnoc(g, ps, Extensions(g, p, row, ix, m - 1), ix + [m - 1]);
    }
  }

  lemma {:induction false} WidenRows(g: seq<Triple>, ps: seq<Pattern>, n: nat, ts: seq<seq<nat>>)
    requires |ps| == n + 1 && forall t :: t in ts ==> |t| == n
    ensures RowsOf(g, ps, Widen(g, ps[..n], ps[n], ts)) == Join(RowsOf(g, ps[..n], ts), Solutions(g, ps[n]))
    decreases |ts|
  {
    if ts != [] {
      var l := |ts| - 1;
      WidenRows(g, ps, n, ts[..l]);
      ExtensionRows(g, ps, ts[l], |g|);
      assert g[..|g|] == g;
      assert RowsOf(g, ps[..n], ts)[..l] == RowsOf(g, ps[..n], ts[..l]);
      RowsConcat(g, ps, Widen(g, ps[..n], ps[n], ts[..l]),
                 Extensions(g, ps[n], RowOf(g, ps[..n], ts[l]), ts[l], |g|));
    }
  }

  lemma RowsConcat(g: seq<Triple>, ps: seq<Pattern>, a: seq<seq<nat>>, b: seq<seq<nat>>)
    ensures RowsOf(g, ps, a + b) == RowsOf(g, ps, a) + RowsOf(g, ps, b)
  {
  }

  lemma {:induction false} TupleLengths(g: seq<Triple>, ps: seq<Pattern>)
    ensures forall t :: t in Tuples(g, ps) ==> |t| == |ps|
    decreases |ps|
  {
    if ps != [] {
      var n := |ps| - 1;
      TupleLengths(g, ps[..n]);
      forall t | t in Tuples(g, ps) ensures |t| == |ps| {
        WidenMembers(g, ps[..n], ps[n], Tuples(g, ps[..n]), t);
      }
    }
  }

  lemma {:induction false} TupleRows(g: seq<Triple>, ps: seq<Pattern>)
    ensures RowsOf(g, ps, Tuples(g, ps)) == Group(g, ps)
    decreases |ps|
  {
    if ps == [] {
      assert RowsOf(g, ps, Tuples(g, ps)) == [map[]];
    } else {
      var n := |ps| - 1;
      TupleLengths(g, ps[..n]);
      TupleRows(g, ps[..n]);
      WidenRows(g, ps, n, Tuples(g, ps[..n]));
    }
  }

  lemma {:induction false} ExtensionMembers(g: seq<Triple>, p: Pattern, row: Binding, ix: seq<nat>, m: nat, t: seq<nat>)
    requires m <= |g|
    ensures t in Extensions(g, p, row, ix, m)
            <==> |t| == |ix| + 1 && t[..|ix|] == ix && t[|ix|] < m
                 && Fits(p, g[t[|ix|]]) && Compatible(row, Solution(p, g[t[|ix|]]))
  {
    if m > 0 {
      ExtensionMembers(g, p, row, ix, m - 1, t);
      var last := ix + [m - 1];
      assert last[..|ix|] == ix;
      if |t| == |ix| + 1 && t[..|ix|] == ix && t[|ix|] == m - 1 {
        assert t == t[..|ix|] + [t[|ix|]];
      }
    }
  }

  lemma {:induction false} WidenMembers(g: seq<Triple>, ps: seq<Pattern>, p: Pattern, ts: seq<seq<nat>>, t: seq<nat>)
    requires forall u :: u in ts ==> |u| == |ps|
    ensures t in Widen(g, ps, p, ts)
            <==> |t| == |ps| + 1 && t[..|ps|] in ts && t[|ps|] < |g|
                 && Fits(p, g[t[|ps|]]) && Compatible(RowOf(g, ps, t[..|ps|]), Solution(p, g[t[|ps|]]))
    decreases |ts|
  {
    if ts != [] {
      var n := |ts| - 1;
      var before, last := ts[..n], ts[n];
      assert forall u :: u in ts <==> u in before || u == last by {
        InSnoc(ts);
      }
      WidenMembers(g, ps, p, before, t);
      ExtensionMembers(g, p, RowOf(g, ps, last), last, |g|, t);
    }
  }

  lemma InSnoc<T>(s: seq<T>)
    requires s != []
    ensures forall u :: u in s <==> u in s[..|s| - 1] || u == s[|s| - 1]
  {
    assert s == s[..|s| - 1] + [s[|s| - 1]];
  }

  lemma {:induction false} TupleMembers(g: seq<Triple>, ps: seq<Pattern>, t: seq<nat>)
    ensures t in Tuples(g, ps) <==> Chosen(g, ps, t)
    decreases |ps|
  {
    if ps != [] {
      var n := |ps| - 1;
      TupleLengths(g, ps[..n]);
      WidenMembers(g, ps[..n], ps[n], Tuples(g, ps[..n]), t);
      if |t| == |ps| {
        TupleMembers(g, ps[..n], t[..n]);
      }
    }
  }

  /** A tuple is chosen when some assignment satisfies it; every such assignment then
      gives the variables the values of the row. */
  lemma {:induction false} SatisfiedIsChosen(g: seq<Triple>, ps: seq<Pattern>, ix: seq<nat>, mu: KeyRow)
    requires Satisfies(g, ps, ix, mu)
    ensures Chosen(g, ps, ix) && RowOf(g, ps, ix).Keys == AllVars(ps) <= mu.Keys
    ensures Agree(mu, Keyed(RowOf(g, ps, ix)))
    decreases |ps|
  {
    if ps != [] {
      var n := |ps| - 1;
      var row, sol := RowOf(g, ps[..n], ix[..n]), Solution(ps[n], g[ix[n]]);
      assert Satisfies(g, ps[..n], ix[..n], mu);
      SatisfiedIsChosen(g, ps[..n], ix[..n], mu);
      assert Agrees(ps[n], g[ix[n]], mu);
      SatisfiedPattern(ps[n], g[ix[n]], mu);
      BothAgree(mu, row, sol);
    }
  }

  lemma SatisfiedPattern(p: Pattern, t: Triple, mu: KeyRow)
    requires Agrees(p, t, mu)
    ensures Fits(p, t) && Solution(p, t).Keys == Vars(p) <= mu.Keys && Agree(mu, Keyed(Solution(p, t)))
  {
    AgreesExactly(p, t, mu);
    SolutionVars(p, t);
  }

  lemma BothAgree(mu: KeyRow, row: Binding, sol: Binding)
    requires Agree(mu, Keyed(row)) && Agree(mu, Keyed(sol)) && row.Keys <= mu.Keys
    ensures Compatible(row, sol) && Agree(mu, Keyed(sol + row))
  {
  }

  lemma {:induction false} ChosenIsSatisfied(g: seq<Triple>, ps: seq<Pattern>, ix: seq<nat>)
    requires Chosen(g, ps, ix)
    ensures Satisfies(g, ps, ix, Keyed(RowOf(g, ps, ix)))
    ensures RowOf(g, ps, ix).Keys == AllVars(ps)
    decreases |ps|
  {
    if ps != [] {
      var n := |ps| - 1;
      var row, sol := RowOf(g, ps[..n], ix[..n]), Solution(ps[n], g[ix[n]]);
      var mu, mu' := Keyed(row), Keyed(sol + row);
      ChosenIsSatisfied(g, ps[..n], ix[..n]);
      SolutionVars(ps[n], g[ix[n]]);
      MergedAgrees(row, sol);
      AgreesExactly(ps[n], g[ix[n]], mu');
      SatisfiesStable(g, ps[..n], ix[..n], mu, mu');
      SatisfiesSnoc(g, ps, ix, mu');
    }
  }

  lemma SatisfiesStable(g: seq<Triple>, ps: seq<Pattern>, ix: seq<nat>, mu: KeyRow, mu': KeyRow)
    requires Satisfies(g, ps, ix, mu) && forall v :: v in mu ==> v in mu' && mu'[v] == mu[v]
    ensures Satisfies(g, ps, ix, mu')
  {
  }

  lemma SatisfiesSnoc(g: seq<Triple>, ps: seq<Pattern>, ix: seq<nat>, mu: KeyRow)
    requires ps != [] && |ix| == |ps| && Satisfies(g, ps[..|ps| - 1], ix[..|ps| - 1], mu)
    requires ix[|ps| - 1] < |g| && Agrees(ps[|ps| - 1], g[ix[|ps| - 1]], mu)
    ensures Satisfies(g, ps, ix, mu)
  {
  }

  lemma MergedAgrees(row: Binding, sol: Binding)
    requires Compatible(row, sol)
    ensures Agree(Keyed(sol + row), Keyed(sol))
    ensures forall v :: v in Keyed(row) ==> v in Keyed(sol + row) && Keyed(sol + row)[v] == Keyed(row)[v]
  {
  }

  // ----- Order -----

  ghost predicate Sorted(ts: seq<seq<nat>>) {
    forall a, b :: 0 <= a < b < |ts| ==> Before(ts[a], ts[b])
  }

  lemma SortedConcat(x: seq<seq<nat>>, y: seq<seq<nat>>)
    requires Sorted(x) && Sorted(y)
    requires forall s, t :: s in x && t in y ==> Before(s, t)
    ensures Sorted(x + y)
  {
  }

  lemma BeforeAtEnd(ix: seq<nat>, i: nat, j: nat)
    requires i < j
    ensures Before(ix + [i], ix + [j])
  {
    assert (ix + [i])[..|ix|] == (ix + [j])[..|ix|];
  }

  lemma BeforeExtends(s: seq<nat>, t: seq<nat>)
    requires |s| > 0 && |t| > 0 && Before(s[..|s| - 1], t[..|t| - 1])
    ensures Before(s, t)
  {
    var a, b := s[..|s| - 1], t[..|t| - 1];
    var k :| 0 <= k < |a| && k < |b| && a[..k] == b[..k] && a[k] < b[k];
    assert s[..k] == a[..k] && t[..k] == b[..k];
  }

  lemma {:induction false} ExtensionsSorted(g: seq<Triple>, p: Pattern, row: Binding, ix: seq<nat>, m: nat)
    requires m <= |g|
    ensures Sorted(Extensions(g, p, row, ix, m))
  {
    if m > 0 {
      ExtensionsSorted(g, p, row, ix, m - 1);
      var xs := Extensions(g, p, row, ix, m - 1);
      forall t | t in xs ensures Before(t, ix + [m - 1]) {
        ExtensionMembers(g, p, row, ix, m - 1, t);
        assert t == ix + [t[|ix|]];
        BeforeAtEnd(ix, t[|ix|], m - 1);
      }
      SortedConcat(xs, [ix + [m - 1]]);
    }
  }

  lemma {:induction false} WidenSorted(g: seq<Triple>, ps: seq<Pattern>, p: Pattern, ts: seq<seq<nat>>)
    requires Sorted(ts) && forall u :: u in ts ==> |u| == |ps|
    ensures Sorted(Widen(g, ps, p, ts))
    decreases |ts|
  {
    if ts != [] {
      var n := |ts| - 1;
      var row := RowOf(g, ps, ts[n]);
      var xs, ys := Widen(g, ps, p, ts[..n]), Extensions(g, p, row, ts[n], |g|);
      WidenSorted(g, ps, p, ts[..n]);
      ExtensionsSorted(g, p, row, ts[n], |g|);
      forall s, t | s in xs && t in ys ensures Before(s, t) {
        WidenBefore(g, ps, p, ts, s, t);
      }
      SortedConcat(xs, ys);
    }
  }

  lemma WidenBefore(g: seq<Triple>, ps: seq<Pattern>, p: Pattern, ts: seq<seq<nat>>, s: seq<nat>, t: seq<nat>)
    requires ts != [] && Sorted(ts) && forall u :: u in ts ==> |u| == |ps|
    requires s in Widen(g, ps, p, ts[..|ts| - 1])
    requires t in Extensions(g, p, RowOf(g, ps, ts[|ts| - 1]), ts[|ts| - 1], |g|)
    ensures Before(s, t)
  {
    var n := |ts| - 1;
    WidenPrefix(g, ps, p, ts[..n], s);
    ExtensionPrefix(g, p, RowOf(g, ps, ts[n]), ts[n], t);
    BeforeLast(ts, s[..|ps|]);
    BeforeExtends(s, t);
  }

  lemma WidenPrefix(g: seq<Triple>, ps: seq<Pattern>, p: Pattern, ts: seq<seq<nat>>, s: seq<nat>)
    requires s in Widen(g, ps, p, ts) && forall u :: u in ts ==> |u| == |ps|
    ensures |s| == |ps| + 1 && s[..|ps|] in ts
  {
    WidenMembers(g, ps, p, ts, s);
  }

  lemma ExtensionPrefix(g: seq<Triple>, p: Pattern, row: Binding, ix: seq<nat>, t: seq<nat>)
    requires t in Extensions(g, p, row, ix, |g|)
    ensures |t| == |ix| + 1 && t[..|ix|] == ix
  {
    ExtensionMembers(g, p, row, ix, |g|, t);
  }

  lemma BeforeLast(ts: seq<seq<nat>>, u: seq<nat>)
    requires ts != [] && Sorted(ts) && u in ts[..|ts| - 1]
    ensures Before(u, ts[|ts| - 1])
  {
    var i :| 0 <= i < |ts| - 1 && ts[i] == u;
  }

  lemma {:induction false} TuplesSorted(g: seq<Triple>, ps: seq<Pattern>)
    ensures Sorted(Tuples(g, ps))
    decreases |ps|
  {
    if ps != [] {
      var n := |ps| - 1;
      TuplesSorted(g, ps[..n]);
      TupleLengths(g, ps[..n]);
      WidenSorted(g, ps[..n], ps[n], Tuples(g, ps[..n]));
    }
  }

  /** The rows after the join loop are, one for one and in dictionary order, the tuples of
      triple positions that match the patterns under one assignment; a row binds exactly
      the variables of the patterns, to the only values such an assignment can have. */
  lemma RowsAreTuples(g: seq<Triple>, ps: seq<Pattern>)
    ensures Group(g, ps) == RowsOf(g, ps, Tuples(g, ps)) && Sorted(Tuples(g, ps))
    ensures forall t :: t in Tuples(g, ps) <==> exists mu :: Satisfies(g, ps, t, mu)
    ensures forall t :: t in Tuples(g, ps) ==>
              RowOf(g, ps, t).Keys == AllVars(ps) && Satisfies(g, ps, t, Keyed(RowOf(g, ps, t)))
    ensures forall t, mu :: Satisfies(g, ps, t, mu) ==>
              forall v :: v in AllVars(ps) ==> v in mu && v in RowOf(g, ps, t) && mu[v] == KeyOf(RowOf(g, ps, t)[v])
  {
    TupleRows(g, ps);
    TuplesSorted(g, ps);
    forall t
      ensures t in Tuples(g, ps) ==>
                RowOf(g, ps, t).Keys == AllVars(ps) && Satisfies(g, ps, t, Keyed(RowOf(g, ps, t)))
    {
      TupleMembers(g, ps, t);
      if t in Tuples(g, ps) {
        ChosenIsSatisfied(g, ps, t);
      }
    }
    forall t, mu | Satisfies(g, ps, t, mu)
      ensures t in Tuples(g, ps)
      ensures forall v :: v in AllVars(ps) ==> v in mu && v in RowOf(g, ps, t) && mu[v] == KeyOf(RowOf(g, ps, t)[v])
    {
      SatisfiedIsChosen(g, ps, t, mu);
      TupleMembers(g, ps, t);
      forall v | v in AllVars(ps) ensures v in mu && v in RowOf(g, ps, t) && mu[v] == KeyOf(RowOf(g, ps, t)[v]) {
        assert v in Keyed(RowOf(g, ps, t));
      }
    }
  }
}

/** Evaluation of SPARQL basic graph patterns and OPTIONAL groups by nested loops. */
module Sparql {
  import opened Text
  import opened Turtle

  datatype Kind = VarKind | IriKind | LitKind

  datatype Term = Term(kind: Kind, value: string, literal: bool) {
    predicate IsVar() { kind == VarKind }

    /** The constants that are compared as literals. */
    predicate IsLit() { kind == LitKind || literal }
  }

  datatype Pattern = Pattern(s: Term, p: Term, o: Term)

  datatype Bound = Bound(iri: string, lit: string, isLit: bool, dt: string, lang: string) {
    function Str(): string { if isLit then lit else iri }
  }

  type Binding = map<string, Bound>

  function IriBound(iri: string): Bound { Bound(iri, "", false, "", "") }

  function ObjectBound(t: Triple): Bound {
    if t.objectLit then Bound("", t.obj, true, t.datatype_, t.lang) else IriBound(t.obj)
  }

  function BindTerm(term: Term, row: Binding): Option<Bound> {
    if term.IsVar() then if term.value in row then Some(row[term.value]) else None
    else if term.IsLit() then Some(Bound("", term.value, true, "", ""))
    else Some(IriBound(term.value))
  }

  // ----- The algebra of solutions -----

  /** What two values are compared by; datatypes and languages play no part. */
  datatype Key = Key(isLit: bool, text: string)

  function KeyOf(b: Bound): Key { Key(b.isLit, b.Str()) }

  /** The variables that two solutions share have the same values. */
  ghost predicate Compatible(a: Binding, b: Binding) {
    forall v :: v in a && v in b ==> KeyOf(a[v]) == KeyOf(b[v])
  }

  /** A constant agrees with a triple. A literal constant stands for no IRI, and a
      non-literal constant in object position also agrees with a literal of that text. */
  predicate ConstantsFit(p: Pattern, t: Triple) {
    && (p.s.IsVar() || t.subject == if p.s.IsLit() then "" else p.s.value)
    && (p.p.IsVar() || t.predicate_ == if p.p.IsLit() then "" else p.p.value)
    && (p.o.IsVar() || (t.obj == p.o.value && (p.o.IsLit() ==> t.objectLit)))
  }

  /** The variables of a pattern, with what a triple gives for each. */
  function Pairs(p: Pattern, t: Triple): seq<(string, Bound)> {
    (if p.s.IsVar() then [(p.s.value, IriBound(t.subject))] else [])
    + (if p.p.IsVar() then [(p.p.value, IriBound(t.predicate_))] else [])
    + (if p.o.IsVar() then [(p.o.value, ObjectBound(t))] else [])
  }

  /** Each variable with its first value. */
  function FirstValues(l: seq<(string, Bound)>): Binding
    decreases |l|
  {
    if l == [] then map[] else FirstValues(l[1..]) + map[l[0].0 := l[0].1]
  }

  /** Equal variables have equal values. */
  predicate Consistent(l: seq<(string, Bound)>)
    decreases |l|
  {
    l == [] ||
    var later := FirstValues(l[1..]);
    Consistent(l[1..]) && (l[0].0 in later ==> KeyOf(later[l[0].0]) == KeyOf(l[0].1))
  }

  /** What a triple alone binds the variables of a pattern to. */
  function Solution(p: Pattern, t: Triple): Binding { FirstValues(Pairs(p, t)) }

  predicate Fits(p: Pattern, t: Triple) { ConstantsFit(p, t) && Consistent(Pairs(p, t)) }

  /** The solutions of one pattern, in the order of the triples. */
  function Solutions(g: seq<Triple>, p: Pattern): seq<Binding> {
    if g == [] then []
    else
      var n := |g| - 1;
      if Fits(p, g[n]) then Solutions(g[..n], p) + [Solution(p, g[n])] else Solutions(g[..n], p)
  }

  /** The constants agree with the triple as terms: a literal with a literal, an IRI with an IRI. */
  predicate FitsAsTerms(p: Pattern, t: Triple) {
    && Fits(p, t) && (p.s.IsVar() || !p.s.IsLit()) && (p.p.IsVar() || !p.p.IsLit())
    && (p.o.IsVar() || (p.o.IsLit() <==> t.objectLit))
  }

  function TermSolutions(g: seq<Triple>, p: Pattern): seq<Binding> {
    if g == [] then []
    else
      var n := |g| - 1;
      if FitsAsTerms(p, g[n]) then TermSolutions(g[..n], p) + [Solution(p, g[n])] else TermSolutions(g[..n], p)
  }

  /** Agreeing by text only: an IRI for an object that is a literal, or a literal for an empty subject or
      predicate. */
  predicate FitsByText(p: Pattern, t: Triple) {
    && Fits(p, t)
    && (|| (!p.o.IsVar() && !p.o.IsLit() && t.objectLit)
        || (!p.s.IsVar() && p.s.IsLit()) || (!p.p.IsVar() && p.p.IsLit()))
  }

  lemma {:induction false} TermSolutionsAre(g: seq<Triple>, p: Pattern)
    ensures |TermSolutions(g, p)| <= |Solutions(g, p)|
    ensures |TermSolutions(g, p)| == |Solutions(g, p)| <==> forall t :: t in g ==> !FitsByText(p, t)
    ensures |TermSolutions(g, p)| == |Solutions(g, p)| ==> TermSolutions(g, p) == Solutions(g, p)
  {
    if g != [] {
      var init, t := g[..|g| - 1], g[|g| - 1];
      TermSolutionsAre(init, p);
      assert g == init + [t];
      assert Fits(p, t) ==> (FitsByText(p, t) <==> !FitsAsTerms(p, t));
    }
  }

  /** Constants agree by their texts; the solutions are those of agreement as terms exactly when no triple
      agrees by text only. */
  lemma ConstantsByText(g: seq<Triple>, p: Pattern)
    ensures Solutions(g, p) == TermSolutions(g, p) <==> forall t :: t in g ==> !FitsByText(p, t)
  {
    TermSolutionsAre(g, p);
  }

  /** The compatible solutions merged into a row, which keeps its own values. */
  ghost function Merged(row: Binding, sols: seq<Binding>): seq<Binding> {
    if sols == [] then []
    else
      var n := |sols| - 1;
      if Compatible(row, sols[n]) then Merged(row, sols[..n]) + [sols[n] + row] else Merged(row, sols[..n])
  }

  /** The join of SPARQL 1.1 section 18.5, in the order of nested loops. */
  ghost function Join(rows: seq<Binding>, sols: seq<Binding>): seq<Binding> {
    if rows == [] then []
    else
      var n := |rows| - 1;
      Join(rows[..n], sols) + Merged(rows[n], sols)
  }

  /** Its left join with condition true. */
  ghost function LeftJoin(rows: seq<Binding>, sols: seq<Binding>): seq<Binding> {
    if rows == [] then []
    else
      var n := |rows| - 1;
      LeftJoin(rows[..n], sols) + if Merged(rows[n], sols) == [] then [rows[n]] else Merged(rows[n], sols)
  }

  ghost function JoinAll(g: seq<Triple>, rows: seq<Binding>, ps: seq<Pattern>): seq<Binding> {
    if ps == [] then rows
    else
      var n := |ps| - 1;
      Join(JoinAll(g, rows, ps[..n]), Solutions(g, ps[n]))
  }

  /** The solutions of a group of patterns on its own. */
  ghost function Group(g: seq<Triple>, ps: seq<Pattern>): seq<Binding> { JoinAll(g, [map[]], ps) }

  ghost function LeftJoinAll(g: seq<Triple>, rows: seq<Binding>, groups: seq<seq<Pattern>>): seq<Binding> {
    if groups == [] then rows
    else
      var n := |groups| - 1;
      LeftJoin(LeftJoinAll(g, rows, groups[..n]), Group(g, groups[n]))
  }

  // ----- joinPattern -----

  /** A variable keeps the value it has, and must have the same one again. */
  function BindValue(row: Binding, name: string, v: Bound): Option<Binding> {
    if name in row then if KeyOf(row[name]) == KeyOf(v) then Some(row) else None
    else Some(row[name := v])
  }

  function BindValues(row: Binding, l: seq<(string, Bound)>): Option<Binding>
    decreases |l|
  {
    if l == [] then Some(row)
    else
      var r := BindValue(row, l[0].0, l[0].1);
      if r.None? then None else BindValues(r.value, l[1..])
  }

  lemma {:induction false} BindValuesMerges(row: Binding, l: seq<(string, Bound)>)
    ensures BindValues(row, l)
         == if Consistent(l) && Compatible(row, FirstValues(l)) then Some(FirstValues(l) + row) else None
    decreases |l|
  {
    if l == [] {
      assert FirstValues(l) + row == row;
    } else {
      var (name, v) := l[0];
      var rest := l[1..];
      var r := BindValue(row, name, v);
      if r.Some? {
        BindValuesMerges(r.value, rest);
        HeadJoins(row, name, v, FirstValues(rest), r.value);
      } else {
        assert name in FirstValues(l);
      }
    }
  }

  lemma HeadJoins(row: Binding, name: string, v: Bound, later: Binding, row': Binding)
    requires BindValue(row, name, v) == Some(row')
    ensures (name in later ==> KeyOf(later[name]) == KeyOf(v)) && Compatible(row, later + map[name := v])
            <==> Compatible(row', later)
    ensures later + row' == later + map[name := v] + row
  {
    var all := later + map[name := v];
    if (name in later ==> KeyOf(later[name]) == KeyOf(v)) && Compatible(row, all) {
      forall x | x in row' && x in later
        ensures KeyOf(row'[x]) == KeyOf(later[x])
      {
        if x != name {
          assert x in all;
        }
      }
    }
    if Compatible(row', later) {
      assert name in row';
      forall x | x in row && x in all
        ensures KeyOf(row[x]) == KeyOf(all[x])
      {
        if x != name {
          assert x in row' && x in later;
        }
      }
    }
  }

  lemma {:induction false} FirstValuesKeys(l: seq<(string, Bound)>, i: nat)
    requires Consistent(l) && i < |l|
    ensures l[i].0 in FirstValues(l) && KeyOf(FirstValues(l)[l[i].0]) == KeyOf(l[i].1)
  {
    if i > 0 {
      FirstValuesKeys(l[1..], i - 1);
    }
  }

  method BindIRI(row: Binding, name: string, iri: string) returns (r: Option<Binding>)
    ensures r == BindValue(row, name, IriBound(iri))
  {
    if name in row {
      var cur := row[name];
      return if !cur.isLit && cur.iri == iri then Some(row) else None;
    }
    return Some(row[name := IriBound(iri)]);
  }

  method BindObject(row: Binding, name: string, t: Triple) returns (r: Option<Binding>)
    ensures r == BindValue(row, name, ObjectBound(t))
  {
    var v;
    if t.objectLit {
      v := Bound("", t.obj, true, t.datatype_, t.lang);
    } else {
      v := IriBound(t.obj);
    }
    if name in row {
      var cur := row[name];
      return if cur.isLit == v.isLit && cur.Str() == v.Str() then Some(row) else None;
    }
    return Some(row[name := v]);
  }

  /** The comparisons before the bindings refuse no triple that the bindings accept. */
  predicate Preselected(t: Triple, row: Binding, p: Pattern) {
    && (p.s.IsVar() && p.s.value in row ==> t.subject == row[p.s.value].iri)
    && (p.p.IsVar() && p.p.value in row ==> t.predicate_ == row[p.p.value].iri)
    && (p.o.IsVar() && p.o.value in row ==>
          if row[p.o.value].isLit then t.objectLit && t.obj == row[p.o.value].lit else t.obj == row[p.o.value].iri)
  }

  lemma CompatiblePreselected(t: Triple, row: Binding, p: Pattern)
    requires Consistent(Pairs(p, t)) && Compatible(row, Solution(p, t))
    ensures Preselected(t, row, p)
  {
    var l := Pairs(p, t);
    if p.s.IsVar() {
      assert l[0] == (p.s.value, IriBound(t.subject));
      FirstValuesKeys(l, 0);
    }
    if p.p.IsVar() {
      var i := if p.s.IsVar() then 1 else 0;
      assert l[i] == (p.p.value, IriBound(t.predicate_));
      FirstValuesKeys(l, i);
    }
    if p.o.IsVar() {
      assert l[|l| - 1] == (p.o.value, ObjectBound(t));
      FirstValuesKeys(l, |l| - 1);
    }
  }

  /** The body of joinPattern's inner loop. */
  method Extend(t: Triple, row: Binding, p: Pattern) returns (r: Option<Binding>)
    ensures r == if Fits(p, t) && Compatible(row, Solution(p, t)) then Some(Solution(p, t) + row) else None
  {
    BindValuesMerges(row, Pairs(p, t));
    if Consistent(Pairs(p, t)) && Compatible(row, Solution(p, t)) {
      CompatiblePreselected(t, row, p);
    }
    var sWant, pWant, oWant := BindTerm(p.s, row), BindTerm(p.p, row), BindTerm(p.o, row);
    if sWant.Some? && t.subject != sWant.value.iri {
      return None;
    }
    if pWant.Some? && t.predicate_ != pWant.value.iri {
      return None;
    }
    if oWant.Some? {
      if oWant.value.isLit {
        if !t.objectLit || t.obj != oWant.value.lit {
          return None;
        }
      } else if t.obj != oWant.value.iri {
        return None;
      }
    }
    assert ConstantsFit(p, t);
    r := BindTriple(t, row, p);
  }

  method BindTriple(t: Triple, row: Binding, p: Pattern) returns (r: Option<Binding>)
    ensures r == BindValues(row, Pairs(p, t))
  {
    r := Some(row);
    ghost var l := Pairs(p, t);
    ghost var rest := l;
    if p.s.IsVar() {
      assert rest[0] == (p.s.value, IriBound(t.subject));
      r := BindIRI(r.value, p.s.value, t.subject);
      if r.None? {
        return None;
      }
      rest := rest[1..];
    }
    assert BindValues(row, l) == BindValues(r.value, rest);
    if p.p.IsVar() {
      assert rest[0] == (p.p.value, IriBound(t.predicate_));
      r := BindIRI(r.value, p.p.value, t.predicate_);
      if r.None? {
        return None;
      }
      rest := rest[1..];
    }
    assert BindValues(row, l) == BindValues(r.value, rest);
    if p.o.IsVar() {
      assert rest[0] == (p.o.value, ObjectBound(t));
      r := BindObject(r.value, p.o.value, t);
      if r.None? {
        return None;
      }
      rest := rest[1..];
    }
    assert BindValues(row, l) == BindValues(r.value, rest);
    assert rest == [];
  }

  method JoinPattern(g: seq<Triple>, rows: seq<Binding>, p: Pattern) returns (next: seq<Binding>)
    ensures next == Join(rows, Solutions(g, p))
  {
    next := [];
    for i := 0 to |rows|
      invariant next == Join(rows[..i], Solutions(g, p))
    {
      assert rows[..i + 1][..i] == rows[..i];
      var found := JoinRow(g, rows[i], p);
      next := next + found;
    }
    assert rows[..|rows|] == rows;
  }

  /** The body of joinPattern's outer loop. */
  method JoinRow(g: seq<Triple>, row: Binding, p: Pattern) returns (next: seq<Binding>)
    ensures next == Merged(row, Solutions(g, p))
  {
    next := [];
    for k := 0 to |g|
      invariant next == Merged(row, Solutions(g[..k], p))
    {
      assert g[..k + 1][..k] == g[..k];
      var nb := Extend(g[k], row, p);
      MergedOne(row, Solutions(g[..k], p), Solution(p, g[k]));
      if nb.Some? {
        next := next + [nb.value];
      }
    }
    assert g[..|g|] == g;
  }

  lemma MergedOne(row: Binding, sols: seq<Binding>, s: Binding)
    ensures Merged(row, sols + [s]) == if Compatible(row, s) then Merged(row, sols) + [s + row] else Merged(row, sols)
  {
    assert (sols + [s])[..|sols|] == sols;
  }

  /** The two loops of QuerySPARQL that match patterns and optional groups. */
  method Match(g: seq<Triple>, ps: seq<Pattern>, groups: seq<seq<Pattern>>) returns (rows: seq<Binding>)
    ensures rows == LeftJoinAll(g, Group(g, ps), groups)
  {
    rows := [map[]];
    for i := 0 to |ps|
      invariant rows == Group(g, ps[..i])
    {
      assert ps[..i + 1][..i] == ps[..i];
      rows := JoinPattern(g, rows, ps[i]);
    }
    assert ps[..|ps|] == ps;
    for i := 0 to |groups|
      invariant rows == LeftJoinAll(g, Group(g, ps), groups[..i])
    {
      assert groups[..i + 1][..i] == groups[..i];
      rows := MatchOptional(g, rows, groups[i]);
    }
    assert groups[..|groups|] == groups;
  }

  method MatchOptional(g: seq<Triple>, rows: seq<Binding>, group: seq<Pattern>) returns (next: seq<Binding>)
    ensures next == LeftJoin(rows, Group(g, group))
  {
    next := [];
    for i := 0 to |rows|
      invariant next == LeftJoin(rows[..i], Group(g, group))
    {
      assert rows[..i + 1][..i] == rows[..i];
      var row := rows[i];
      var ext := [row];
      for k := 0 to |group|
        invariant ext == JoinAll(g, [row], group[..k])
      {
        assert group[..k + 1][..k] == group[..k];
        ext := JoinPattern(g, ext, group[k]);
      }
      assert group[..|group|] == group;
      RowJoinsGroup(g, row, group);
      if |ext| == 0 {
        next := next + [row];
        continue;
      }
      next := next + ext;
    }
    assert rows[..|rows|] == rows;
  }

  // ----- Joining is associative -----

  lemma {:induction false} MergedConcat(row: Binding, a: seq<Binding>, b: seq<Binding>)
    ensures Merged(row, a + b) == Merged(row, a) + Merged(row, b)
    decreases |b|
  {
    if b == [] {
      assert a + b == a;
    } else {
      var n := |b| - 1;
      assert (a + b)[..|a| + n] == a + b[..n];
      MergedConcat(row, a, b[..n]);
    }
  }

  /** A solution merged into a merged row is the merged solutions merged into the row. */
  lemma MergeTwice(row: Binding, s: Binding, a: Binding)
    ensures Compatible(row, s) && Compatible(s + row, a) <==> Compatible(s, a) && Compatible(row, a + s)
    ensures a + (s + row) == a + s + row
  {
  }

  lemma {:induction false} MergedTwice(row: Binding, s: Binding, sols: seq<Binding>)
    ensures Merged(row, Merged(s, sols)) == if Compatible(row, s) then Merged(s + row, sols) else []
    decreases |sols|
  {
    if sols != [] {
      var n := |sols| - 1;
      MergedTwice(row, s, sols[..n]);
      MergeTwice(row, s, sols[n]);
      if Compatible(s, sols[n]) {
        MergedOne(row, Merged(s, sols[..n]), sols[n] + s);
      } else {
        assert Merged(s, sols) == Merged(s, sols[..n]);
      }
    }
  }

  lemma {:induction false} MergedJoin(row: Binding, rows: seq<Binding>, sols: seq<Binding>)
    ensures Merged(row, Join(rows, sols)) == Join(Merged(row, rows), sols)
    decreases |rows|
  {
    if rows != [] {
      var n := |rows| - 1;
      MergedJoin(row, rows[..n], sols);
      MergedConcat(row, Join(rows[..n], sols), Merged(rows[n], sols));
      MergedTwice(row, rows[n], sols);
      var before := Merged(row, rows[..n]);
      if Compatible(row, rows[n]) {
        assert (before + [rows[n] + row])[..|before|] == before;
      } else {
        assert Join(before, sols) + [] == Join(before, sols);
      }
    }
  }

  /** Matching a group row by row is joining the row with the solutions that the group
      has on its own. */
  lemma {:induction false} RowJoinsGroup(g: seq<Triple>, row: Binding, ps: seq<Pattern>)
    ensures JoinAll(g, [row], ps) == Merged(row, Group(g, ps))
    decreases |ps|
  {
    if ps == [] {
      var one: seq<Binding> := [map[]];
      assert one[..0] == [];
      assert one[0] + row == row;
    } else {
      var n := |ps| - 1;
      RowJoinsGroup(g, row, ps[..n]);
      MergedJoin(row, Group(g, ps[..n]), Solutions(g, ps[n]));
    }
  }
}

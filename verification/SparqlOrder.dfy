/** The order of the patterns does not change which rows a query has. */
module SparqlOrder {
  import opened Text
  import opened Turtle
  import opened Sparql

  /** A row without datatypes and languages, which depend on where a value was met first. */
  type KeyRow = map<string, Key>

  function Keyed(row: Binding): KeyRow { map v | v in row :: KeyOf(row[v]) }

  function KeyedAll(rows: seq<Binding>): seq<KeyRow> {
    seq(|rows|, i requires 0 <= i < |rows| => Keyed(rows[i]))
  }

  ghost predicate Agree(a: KeyRow, b: KeyRow) { forall v :: v in a && v in b ==> a[v] == b[v] }

  ghost function MergedKeys(row: KeyRow, sols: seq<KeyRow>): seq<KeyRow> {
    if sols == [] then []
    else
      var n := |sols| - 1;
      if Agree(row, sols[n]) then MergedKeys(row, sols[..n]) + [sols[n] + row] else MergedKeys(row, sols[..n])
  }

  ghost function JoinKeys(rows: seq<KeyRow>, sols: seq<KeyRow>): seq<KeyRow> {
    if rows == [] then []
    else
      var n := |rows| - 1;
      JoinKeys(rows[..n], sols) + MergedKeys(rows[n], sols)
  }

  lemma AgreeIsCompatible(a: Binding, b: Binding)
    ensures Agree(Keyed(a), Keyed(b)) <==> Compatible(a, b)
    ensures Keyed(a + b) == Keyed(a) + Keyed(b)
  {
    if Compatible(a, b) {
      assert forall v :: v in Keyed(a) && v in Keyed(b) ==> v in a && v in b;
    }
    if Agree(Keyed(a), Keyed(b)) {
      forall v | v in a && v in b ensures KeyOf(a[v]) == KeyOf(b[v]) {
        assert v in Keyed(a) && v in Keyed(b);
      }
    }
  }

  lemma KeyedSnoc(rows: seq<Binding>, row: Binding)
    ensures KeyedAll(rows + [row]) == KeyedAll(rows) + [Keyed(row)]
  {
  }

  lemma {:induction false} KeyedMerged(row: Binding, sols: seq<Binding>)
    ensures KeyedAll(Merged(row, sols)) == MergedKeys(Keyed(row), KeyedAll(sols))
    decreases |sols|
  {
    if sols != [] {
      var n := |sols| - 1;
      KeyedMerged(row, sols[..n]);
      AgreeIsCompatible(row, sols[n]);
      AgreeIsCompatible(sols[n], row);
      KeyedSnoc(Merged(row, sols[..n]), sols[n] + row);
      assert KeyedAll(sols)[..n] == KeyedAll(sols[..n]);
    }
  }

  lemma {:induction false} KeyedJoin(rows: seq<Binding>, sols: seq<Binding>)
    ensures KeyedAll(Join(rows, sols)) == JoinKeys(KeyedAll(rows), KeyedAll(sols))
    decreases |rows|
  {
    if rows != [] {
      var n := |rows| - 1;
      KeyedJoin(rows[..n], sols);
      KeyedMerged(rows[n], sols);
      assert KeyedAll(rows)[..n] == KeyedAll(rows[..n]);
      KeyedConcat(Join(rows[..n], sols), Merged(rows[n], sols));
    }
  }

  lemma KeyedConcat(a: seq<Binding>, b: seq<Binding>)
    ensures KeyedAll(a + b) == KeyedAll(a) + KeyedAll(b)
  {
  }

  // ----- Counting rows -----

  ghost function One(row: KeyRow, sol: KeyRow): multiset<KeyRow> {
    if Agree(row, sol) then multiset{sol + row} else multiset{}
  }

  /** The rows of MergedKeys and JoinKeys without their order. */
  ghost function Merging(row: KeyRow, sols: seq<KeyRow>): multiset<KeyRow> {
    if sols == [] then multiset{} else Merging(row, sols[..|sols| - 1]) + One(row, sols[|sols| - 1])
  }

  ghost function Joining(rows: seq<KeyRow>, sols: seq<KeyRow>): multiset<KeyRow> {
    if rows == [] then multiset{} else Joining(rows[..|rows| - 1], sols) + Merging(rows[|rows| - 1], sols)
  }

  lemma {:induction false} CountMerged(row: KeyRow, sols: seq<KeyRow>)
    ensures multiset(MergedKeys(row, sols)) == Merging(row, sols)
    decreases |sols|
  {
    if sols != [] {
      CountMerged(row, sols[..|sols| - 1]);
    }
  }

  lemma {:induction false} CountJoined(rows: seq<KeyRow>, sols: seq<KeyRow>)
    ensures multiset(JoinKeys(rows, sols)) == Joining(rows, sols)
    decreases |rows|
  {
    if rows != [] {
      var n := |rows| - 1;
      CountJoined(rows[..n], sols);
      CountMerged(rows[n], sols);
    }
  }

  lemma {:induction false} JoiningConcat(a: seq<KeyRow>, b: seq<KeyRow>, sols: seq<KeyRow>)
    ensures Joining(a + b, sols) == Joining(a, sols) + Joining(b, sols)
    decreases |b|
  {
    if b == [] {
      assert a + b == a;
    } else {
      var n := |b| - 1;
      assert (a + b)[..|a| + n] == a + b[..n];
      JoiningConcat(a, b[..n], sols);
    }
  }

  lemma JoiningOne(row: KeyRow, sols: seq<KeyRow>)
    ensures Joining([row], sols) == Merging(row, sols)
  {
    assert [row][..0] == [];
    assert Joining([], sols) == multiset{};
  }

  lemma CountInsert<T>(a: seq<T>, x: T, b: seq<T>)
    ensures multiset(a + ([x] + b)) == multiset(a + b) + multiset{x}
  {
  }

  /** The last element of a sequence, found in a permutation of it. */
  lemma TakeOut<T>(a: seq<T>, b: seq<T>) returns (i: nat)
    requires multiset(a) == multiset(b) && a != []
    ensures i < |b| && b[i] == a[|a| - 1]
    ensures b == b[..i] + ([b[i]] + b[i + 1..])
    ensures multiset(a[..|a| - 1]) == multiset(b[..i] + b[i + 1..])
  {
    var n := |a| - 1;
    var x, init := a[n], a[..n];
    assert a == init + ([x] + []);
    ConcatEmpty(init, []);
    CountInsert(init, x, []);
    assert x in multiset(b);
    i :| 0 <= i < |b| && b[i] == x;
    assert b == b[..i] + ([x] + b[i + 1..]);
    CountInsert(b[..i], x, b[i + 1..]);
    Uncount(multiset(init), multiset(b[..i] + b[i + 1..]), x);
  }

  lemma Uncount<T>(a: multiset<T>, b: multiset<T>, x: T)
    requires a + multiset{x} == b + multiset{x}
    ensures a == b
  {
    assert a == (a + multiset{x}) - multiset{x};
    assert b == (b + multiset{x}) - multiset{x};
  }

  /** The order of the rows does not matter to a join. */
  lemma {:induction false} JoiningPermuted(a: seq<KeyRow>, b: seq<KeyRow>, sols: seq<KeyRow>)
    requires multiset(a) == multiset(b)
    ensures Joining(a, sols) == Joining(b, sols)
    decreases |a|
  {
    if a == [] {
      assert |multiset(b)| == 0;
    } else {
      var i := TakeOut(a, b);
      var before, after := b[..i], b[i + 1..];
      JoiningPermuted(a[..|a| - 1], before + after, sols);
      JoiningConcat(before, after, sols);
      JoiningConcat(before, [b[i]] + after, sols);
      JoiningConcat([b[i]], after, sols);
      JoiningOne(b[i], sols);
    }
  }

  // ----- Two joins can be swapped -----

  /** Solutions `a` and `b` merged into a row. */
  ghost function Cell(row: KeyRow, a: KeyRow, b: KeyRow): multiset<KeyRow> {
    if Agree(row, a) then One(a + row, b) else multiset{}
  }

  lemma CellSwaps(row: KeyRow, a: KeyRow, b: KeyRow)
    ensures Cell(row, a, b) == Cell(row, b, a)
  {
    AgreeTwice(row, a, b);
    AgreeTwice(row, b, a);
    if Agree(row, a) && Agree(row, b) && Agree(a, b) {
      assert b + (a + row) == a + (b + row);
    }
  }

  lemma AgreeTwice(row: KeyRow, a: KeyRow, b: KeyRow)
    ensures Agree(row, a) ==> (Agree(a + row, b) <==> Agree(row, b) && Agree(a, b))
    ensures Agree(a, b) <==> Agree(b, a)
  {
  }

  ghost function Cells(row: KeyRow, a: KeyRow, bs: seq<KeyRow>): multiset<KeyRow> {
    if bs == [] then multiset{} else Cells(row, a, bs[..|bs| - 1]) + Cell(row, a, bs[|bs| - 1])
  }

  ghost function Grid(row: KeyRow, xs: seq<KeyRow>, ys: seq<KeyRow>): multiset<KeyRow> {
    if xs == [] then multiset{} else Grid(row, xs[..|xs| - 1], ys) + Cells(row, xs[|xs| - 1], ys)
  }

  lemma {:induction false} GridColumn(row: KeyRow, xs: seq<KeyRow>, ys: seq<KeyRow>, y: KeyRow)
    ensures Grid(row, xs, ys + [y]) == Grid(row, xs, ys) + Cells(row, y, xs)
    decreases |xs|
  {
    if xs != [] {
      var n := |xs| - 1;
      GridColumn(row, xs[..n], ys, y);
      assert (ys + [y])[..|ys|] == ys;
      CellSwaps(row, xs[n], y);
    }
  }

  lemma {:induction false} GridSwaps(row: KeyRow, xs: seq<KeyRow>, ys: seq<KeyRow>)
    ensures Grid(row, xs, ys) == Grid(row, ys, xs)
    decreases |xs|
  {
    if xs == [] {
      GridEmpty(row, ys);
    } else {
      var n := |xs| - 1;
      GridSwaps(row, xs[..n], ys);
      GridColumn(row, ys, xs[..n], xs[n]);
      assert xs[..n] + [xs[n]] == xs;
    }
  }

  lemma {:induction false} GridEmpty(row: KeyRow, xs: seq<KeyRow>)
    ensures Grid(row, xs, []) == multiset{}
    decreases |xs|
  {
    if xs != [] {
      GridEmpty(row, xs[..|xs| - 1]);
    }
  }

  lemma {:induction false} CellsAreMerging(row: KeyRow, a: KeyRow, bs: seq<KeyRow>)
    ensures Cells(row, a, bs) == if Agree(row, a) then Merging(a + row, bs) else multiset{}
    decreases |bs|
  {
    if bs != [] {
      CellsAreMerging(row, a, bs[..|bs| - 1]);
    }
  }

  lemma {:induction false} GridIsJoining(row: KeyRow, xs: seq<KeyRow>, ys: seq<KeyRow>)
    ensures Joining(MergedKeys(row, xs), ys) == Grid(row, xs, ys)
    decreases |xs|
  {
    if xs != [] {
      var n := |xs| - 1;
      GridIsJoining(row, xs[..n], ys);
      CellsAreMerging(row, xs[n], ys);
      if Agree(row, xs[n]) {
        JoiningConcat(MergedKeys(row, xs[..n]), [xs[n] + row], ys);
        JoiningOne(xs[n] + row, ys);
      }
    }
  }

  lemma {:induction false} JoinsSwap(rows: seq<KeyRow>, xs: seq<KeyRow>, ys: seq<KeyRow>)
    ensures Joining(JoinKeys(rows, xs), ys) == Joining(JoinKeys(rows, ys), xs)
    decreases |rows|
  {
    if rows != [] {
      var n := |rows| - 1;
      JoinsSwap(rows[..n], xs, ys);
      JoiningConcat(JoinKeys(rows[..n], xs), MergedKeys(rows[n], xs), ys);
      JoiningConcat(JoinKeys(rows[..n], ys), MergedKeys(rows[n], ys), xs);
      GridIsJoining(rows[n], xs, ys);
      GridIsJoining(rows[n], ys, xs);
      GridSwaps(rows[n], xs, ys);
    }
  }

  // ----- Permuted patterns -----

  ghost function JoinAllKeys(g: seq<Triple>, rows: seq<KeyRow>, ps: seq<Pattern>): seq<KeyRow> {
    if ps == [] then rows
    else
      var n := |ps| - 1;
      JoinKeys(JoinAllKeys(g, rows, ps[..n]), KeyedAll(Solutions(g, ps[n])))
  }

  lemma {:induction false} KeyedJoinAll(g: seq<Triple>, rows: seq<Binding>, ps: seq<Pattern>)
    ensures KeyedAll(JoinAll(g, rows, ps)) == JoinAllKeys(g, KeyedAll(rows), ps)
    decreases |ps|
  {
    if ps != [] {
      var n := |ps| - 1;
      KeyedJoinAll(g, rows, ps[..n]);
      KeyedJoin(JoinAll(g, rows, ps[..n]), Solutions(g, ps[n]));
    }
  }

  lemma {:induction false} JoinAllConcat(g: seq<Triple>, rows: seq<KeyRow>, ps: seq<Pattern>, qs: seq<Pattern>)
    ensures JoinAllKeys(g, rows, ps + qs) == JoinAllKeys(g, JoinAllKeys(g, rows, ps), qs)
    decreases |qs|
  {
    if qs == [] {
      ConcatEmpty(ps, qs);
    } else {
      var n := |qs| - 1;
      var all := ps + qs;
      assert all[..|all| - 1] == ps + qs[..n] && all[|all| - 1] == qs[n];
      JoinAllConcat(g, rows, ps, qs[..n]);
    }
  }

  /** A join made first can as well be made last. */
  lemma {:induction false} JoinLast(g: seq<Triple>, rows: seq<KeyRow>, sols: seq<KeyRow>, qs: seq<Pattern>)
    ensures multiset(JoinAllKeys(g, JoinKeys(rows, sols), qs)) == multiset(JoinKeys(JoinAllKeys(g, rows, qs), sols))
    decreases |qs|
  {
    if qs != [] {
      var n := |qs| - 1;
      var last := KeyedAll(Solutions(g, qs[n]));
      var early, late := JoinAllKeys(g, JoinKeys(rows, sols), qs[..n]), JoinAllKeys(g, rows, qs[..n]);
      JoinLast(g, rows, sols, qs[..n]);
      JoiningPermuted(early, JoinKeys(late, sols), last);
      JoinsSwap(late, sols, last);
      CountJoined(early, last);
      CountJoined(JoinKeys(late, last), sols);
    }
  }

  lemma {:induction false} PermutedKeys(g: seq<Triple>, rows: seq<KeyRow>, ps: seq<Pattern>, qs: seq<Pattern>)
    requires multiset(ps) == multiset(qs)
    ensures multiset(JoinAllKeys(g, rows, ps)) == multiset(JoinAllKeys(g, rows, qs))
    decreases |ps|
  {
    if ps == [] {
      assert |multiset(qs)| == 0;
    } else {
      var n := |ps| - 1;
      var sols := KeyedAll(Solutions(g, ps[n]));
      var i := TakeOut(ps, qs);
      var before, after := qs[..i], qs[i + 1..];
      PermutedKeys(g, rows, ps[..n], before + after);
      JoinMoved(g, rows, before, qs[i], after);
      JoiningPermuted(JoinAllKeys(g, rows, ps[..n]), JoinAllKeys(g, rows, before + after), sols);
      CountJoined(JoinAllKeys(g, rows, ps[..n]), sols);
      CountJoined(JoinAllKeys(g, rows, before + after), sols);
    }
  }

  lemma JoinMoved(g: seq<Triple>, rows: seq<KeyRow>, before: seq<Pattern>, p: Pattern, after: seq<Pattern>)
    ensures multiset(JoinAllKeys(g, rows, before + ([p] + after)))
         == multiset(JoinKeys(JoinAllKeys(g, rows, before + after), KeyedAll(Solutions(g, p))))
  {
    var start := JoinAllKeys(g, rows, before);
    ConcatAssoc(before, [p], after);
    JoinAllConcat(g, rows, before + [p], after);
    JoinAllConcat(g, rows, before, after);
    assert (before + [p])[..|before|] == before;
    JoinLast(g, start, KeyedAll(Solutions(g, p)), after);
  }

  /** Permuting the patterns of a group permutes its rows, datatypes and languages aside. */
  lemma PatternOrder(g: seq<Triple>, ps: seq<Pattern>, qs: seq<Pattern>)
    requires multiset(ps) == multiset(qs)
    ensures multiset(KeyedAll(Group(g, ps))) == multiset(KeyedAll(Group(g, qs)))
  {
    KeyedJoinAll(g, [map[]], ps);
    KeyedJoinAll(g, [map[]], qs);
    PermutedKeys(g, KeyedAll([map[]]), ps, qs);
  }
}

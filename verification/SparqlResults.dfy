/** DISTINCT and the comparison behind ORDER BY. */
module SparqlResults {
  import opened Text
  import opened Sparql
  import opened SparqlOrder

  // ----- DISTINCT -----

  /** One column of the key that distinctRows writes. */
  function Cell(row: Binding, v: string): string {
    if v !in row then "" else if row[v].isLit then "L:" + row[v].lit else "I:" + row[v].iri
  }

  function RowKey(row: Binding, vars: seq<string>): string {
    if vars == [] then ""
    else
      var n := |vars| - 1;
      RowKey(row, vars[..n]) + ("|" + Cell(row, vars[n]))
  }

  /** Rows whose key was written before are dropped. */
  function DistinctKeys(rows: seq<Binding>, vars: seq<string>): seq<Binding> {
    if rows == [] then []
    else
      var n := |rows| - 1;
      if KeySeen(rows[..n], vars, RowKey(rows[n], vars)) then DistinctKeys(rows[..n], vars)
      else DistinctKeys(rows[..n], vars) + [rows[n]]
  }

  predicate KeySeen(rows: seq<Binding>, vars: seq<string>, key: string) {
    exists i :: 0 <= i < |rows| && RowKey(rows[i], vars) == key
  }

  lemma KeysSeen(rows: seq<Binding>, vars: seq<string>, i: nat)
    requires i < |rows|
    ensures forall k :: KeySeen(rows[..i + 1], vars, k) <==> KeySeen(rows[..i], vars, k) || k == RowKey(rows[i], vars)
  {
    forall k ensures KeySeen(rows[..i + 1], vars, k) <==> KeySeen(rows[..i], vars, k) || k == RowKey(rows[i], vars) {
      if KeySeen(rows[..i], vars, k) {
        var j :| 0 <= j < i && RowKey(rows[..i][j], vars) == k;
        assert RowKey(rows[..i + 1][j], vars) == k;
      }
      if KeySeen(rows[..i + 1], vars, k) {
        var j :| 0 <= j < i + 1 && RowKey(rows[..i + 1][j], vars) == k;
        assert j < i ==> RowKey(rows[..i][j], vars) == k;
      }
      assert RowKey(rows[..i + 1][i], vars) == RowKey(rows[i], vars);
    }
  }

  /** distinctRows' loop over the selected variables. */
  method WriteKey(row: Binding, vars: seq<string>) returns (key: string)
    ensures key == RowKey(row, vars)
  {
    key := "";
    for j := 0 to |vars|
      invariant key == RowKey(row, vars[..j])
    {
      assert vars[..j + 1][..j] == vars[..j];
      var cell := "";
      if vars[j] in row {
        var val := row[vars[j]];
        cell := if val.isLit then "L:" + val.lit else "I:" + val.iri;
      }
      key := key + ("|" + cell);
    }
    assert vars[..|vars|] == vars;
  }

  method DistinctRows(rows: seq<Binding>, vars: seq<string>) returns (out: seq<Binding>)
    ensures out == DistinctKeys(rows, vars)
  {
    var seen: set<string> := {};
    out := [];
    for i := 0 to |rows|
      invariant out == DistinctKeys(rows[..i], vars)
      invariant forall k :: k in seen <==> KeySeen(rows[..i], vars, k)
    {
      assert rows[..i + 1][..i] == rows[..i];
      KeysSeen(rows, vars, i);
      var row := rows[i];
      var key := WriteKey(row, vars);
      if key in seen {
        continue;
      }
      seen := seen + {key};
      out := out + [row];
    }
    assert rows[..|rows|] == rows;
  }

  /** What a row shows of the selected variables. */
  function Projection(row: Binding, vars: seq<string>): seq<Option<Key>> {
    seq(|vars|, i requires 0 <= i < |vars| => if vars[i] in row then Some(KeyOf(row[vars[i]])) else None)
  }

  predicate Shown(rows: seq<Binding>, vars: seq<string>, shown: seq<Option<Key>>) {
    exists i :: 0 <= i < |rows| && Projection(rows[i], vars) == shown
  }

  /** The first row of each projection, in order. */
  function FirstRows(rows: seq<Binding>, vars: seq<string>): seq<Binding> {
    if rows == [] then []
    else
      var n := |rows| - 1;
      if Shown(rows[..n], vars, Projection(rows[n], vars)) then FirstRows(rows[..n], vars)
      else FirstRows(rows[..n], vars) + [rows[n]]
  }

  /** A text with a bar that can be taken for the end of a column: one at the end, or before "I:" or "L:". */
  predicate Splits(w: string) {
    || (w != "" && w[|w| - 1] == '|')
    || exists i :: 0 <= i < |w| - 2 && w[i] == '|' && IsMark(w, i + 1)
  }

  predicate IsMark(w: string, i: nat)
    requires i + 2 <= |w|
  {
    (w[i] == 'I' || w[i] == 'L') && w[i + 1] == ':'
  }

  ghost predicate Unsplit(row: Binding, vars: seq<string>) {
    forall i :: 0 <= i < |vars| && vars[i] in row ==> !Splits(row[vars[i]].Str())
  }

  /** What a column may hold: nothing, or a mark and a text that does not split. */
  ghost predicate Column(c: string) { c == "" || (|c| >= 2 && IsMark(c, 0) && !Splits(c[2..])) }

  lemma CellIsColumn(row: Binding, v: string)
    requires v in row ==> !Splits(row[v].Str())
    ensures Column(Cell(row, v))
  {
    if v in row {
      assert Cell(row, v)[2..] == row[v].Str();
    }
  }

  /** A column does not end in a bar and another column. */
  lemma ColumnIsWhole(e: string, c: string)
    requires Column(c)
    ensures !Column(e + "|" + c)
  {
    var d := e + "|" + c;
    assert d[|e|] == '|';
    if |e| >= 2 {
      var w := d[2..];
      assert w[|e| - 2] == '|';
      assert c != "" ==> w[|e| - 1] == c[0] && w[|e|] == c[1] && IsMark(w, |e| - 1);
    }
  }

  lemma NoEarlierBar(a: string, c: string, b: string, d: string)
    requires a + ("|" + c) == b + ("|" + d) && Column(c) && Column(d)
    ensures |a| >= |b|
  {
    if |a| < |b| {
      var w := a + ("|" + c);
      assert w[|b|..] == "|" + d;
      assert c == w[|a| + 1..];
      assert w[|a| + 1..] == w[|a| + 1..|b|] + w[|b|..];
      ConcatAssoc(w[|a| + 1..|b|], "|", d);
      ColumnIsWhole(w[|a| + 1..|b|], d);
    }
  }

  lemma BarSplits(a: string, c: string, b: string, d: string)
    requires a + ("|" + c) == b + ("|" + d) && Column(c) && Column(d)
    ensures a == b && c == d
  {
    NoEarlierBar(a, c, b, d);
    NoEarlierBar(b, d, a, c);
    var w := a + ("|" + c);
    assert w[..|a|] == a && w[..|b|] == b;
    assert w[|a| + 1..] == c && w[|b| + 1..] == d;
  }

  lemma CellIsKey(a: Binding, b: Binding, v: string)
    requires v in a ==> !Splits(a[v].Str())
    requires v in b ==> !Splits(b[v].Str())
    ensures Column(Cell(a, v)) && Column(Cell(b, v))
    ensures Cell(a, v) == Cell(b, v) <==> Projection(a, [v]) == Projection(b, [v])
  {
    CellIsColumn(a, v);
    CellIsColumn(b, v);
    var x, y := Cell(a, v), Cell(b, v);
    assert Projection(a, [v])[0] == if v in a then Some(KeyOf(a[v])) else None;
    assert Projection(b, [v])[0] == if v in b then Some(KeyOf(b[v])) else None;
    if v in a {
      assert x[2..] == a[v].Str() && x[0] == if a[v].isLit then 'L' else 'I';
    }
    if v in b {
      assert y[2..] == b[v].Str() && y[0] == if b[v].isLit then 'L' else 'I';
    }
  }

  lemma {:induction false} KeyIsProjection(a: Binding, b: Binding, vars: seq<string>)
    requires Unsplit(a, vars) && Unsplit(b, vars)
    ensures RowKey(a, vars) == RowKey(b, vars) <==> Projection(a, vars) == Projection(b, vars)
    decreases |vars|
  {
    if vars != [] {
      var n := |vars| - 1;
      KeyIsProjection(a, b, vars[..n]);
      CellIsKey(a, b, vars[n]);
      ProjectionSnoc(a, vars);
      ProjectionSnoc(b, vars);
      if RowKey(a, vars) == RowKey(b, vars) {
        BarSplits(RowKey(a, vars[..n]), Cell(a, vars[n]), RowKey(b, vars[..n]), Cell(b, vars[n]));
      }
      if Projection(a, vars) == Projection(b, vars) {
        assert Projection(a, vars)[..n] == Projection(b, vars)[..n];
        assert Projection(a, vars)[n..] == Projection(b, vars)[n..];
      }
    }
  }

  lemma ProjectionSnoc(row: Binding, vars: seq<string>)
    requires vars != []
    ensures var n := |vars| - 1;
            && Projection(row, vars)[..n] == Projection(row, vars[..n])
            && Projection(row, vars)[n..] == Projection(row, [vars[n]])
            && Projection(row, vars) == Projection(row, vars)[..n] + Projection(row, vars)[n..]
  {
  }

  lemma SeenIsShown(rows: seq<Binding>, row: Binding, vars: seq<string>)
    requires Unsplit(row, vars) && forall i :: 0 <= i < |rows| ==> Unsplit(rows[i], vars)
    ensures KeySeen(rows, vars, RowKey(row, vars)) <==> Shown(rows, vars, Projection(row, vars))
  {
    forall i | 0 <= i < |rows|
      ensures RowKey(rows[i], vars) == RowKey(row, vars) <==> Projection(rows[i], vars) == Projection(row, vars)
    {
      KeyIsProjection(rows[i], row, vars);
    }
  }

  /** When no selected value splits, DISTINCT keeps the first row of each projection. */
  lemma {:induction false} DistinctKeepsFirst(rows: seq<Binding>, vars: seq<string>)
    requires forall i :: 0 <= i < |rows| ==> Unsplit(rows[i], vars)
    ensures DistinctKeys(rows, vars) == FirstRows(rows, vars)
    decreases |rows|
  {
    if rows != [] {
      var n := |rows| - 1;
      DistinctKeepsFirst(rows[..n], vars);
      SeenIsShown(rows[..n], rows[n], vars);
    }
  }

  function ValueOf(mark: char, text: string): Bound {
    if mark == 'L' then Bound("", text, true, "", "") else IriBound(text)
  }

  lemma KeyOfThree(row: Binding, x: string, y: string, z: string)
    ensures RowKey(row, [x, y, z]) == "|" + Cell(row, x) + ("|" + Cell(row, y)) + ("|" + Cell(row, z))
  {
    assert [x, y, z][..2] == [x, y] && [x, y][..1] == [x] && [x][..0] == [];
    EmptyConcat(RowKey(row, []), "|" + Cell(row, x));
    assert RowKey(row, [x]) == "|" + Cell(row, x);
    assert RowKey(row, [x, y]) == RowKey(row, [x]) + ("|" + Cell(row, y));
  }

  lemma TrailingBarConfuses(p: string, x: string, y: string, z: string) returns (a: Binding, b: Binding)
    requires x != y && y != z && x != z
    ensures a == map[x := IriBound(p + "|"), y := IriBound("v")]
    ensures Projection(a, [x, y, z]) != Projection(b, [x, y, z]) && RowKey(a, [x, y, z]) == RowKey(b, [x, y, z])
  {
    a, b := map[x := IriBound(p + "|"), y := IriBound("v")], map[x := IriBound(p), z := IriBound("v|")];
    KeyOfThree(a, x, y, z);
    KeyOfThree(b, x, y, z);
    BarsMeet(p);
    assert Projection(a, [x, y, z])[2] == None && Projection(b, [x, y, z])[2] != None;
  }

  lemma BarsMeet(p: string)
    ensures "|" + ("I:" + (p + "|")) + ("|" + ("I:" + "v")) + ("|" + "")
         == "|" + ("I:" + p) + ("|" + "") + ("|" + ("I:" + "v|"))
  {
  }

  lemma MarkedBarConfuses(p: string, mark: char, v: string, x: string, y: string, z: string) returns (a: Binding,
                          b: Binding)
    requires x != y && y != z && x != z && (mark == 'I' || mark == 'L')
    ensures a == map[x := IriBound(p + "|" + [mark] + ":" + v)]
    ensures Projection(a, [x, y, z]) != Projection(b, [x, y, z]) && RowKey(a, [x, y, z]) == RowKey(b, [x, y, z])
  {
    a, b := map[x := IriBound(p + "|" + [mark] + ":" + v)], map[x := IriBound(p), y := ValueOf(mark, v + "|")];
    KeyOfThree(a, x, y, z);
    KeyOfThree(b, x, y, z);
    assert Cell(b, y) == [mark] + ":" + (v + "|");
    MarksMeet(p, mark, v);
    assert Projection(a, [x, y, z])[1] == None && Projection(b, [x, y, z])[1] != None;
  }

  lemma MarksMeet(p: string, mark: char, v: string)
    ensures "|" + ("I:" + (p + "|" + [mark] + ":" + v)) + ("|" + "") + ("|" + "")
         == "|" + ("I:" + p) + ("|" + ([mark] + ":" + (v + "|"))) + ("|" + "")
  {
  }

  /** And every text that splits confuses: some row that shows it has the key of a row that shows something else. */
  lemma SplittingConfuses(w: string, x: string, y: string, z: string) returns (a: Binding, b: Binding)
    requires Splits(w) && x != y && y != z && x != z
    ensures x in a && a[x] == IriBound(w)
    ensures Projection(a, [x, y, z]) != Projection(b, [x, y, z]) && DistinctKeys([a, b], [x, y, z]) == [a]
  {
    if w[|w| - 1] == '|' {
      assert w == w[..|w| - 1] + "|";
      a, b := TrailingBarConfuses(w[..|w| - 1], x, y, z);
    } else {
      var i :| 0 <= i < |w| - 2 && w[i] == '|' && IsMark(w, i + 1);
      assert w == w[..i] + "|" + [w[i + 1]] + ":" + w[i + 3..];
      a, b := MarkedBarConfuses(w[..i], w[i + 1], w[i + 3..], x, y, z);
    }
    SameKey(a, b, [x, y, z]);
  }

  lemma SameKey(a: Binding, b: Binding, vars: seq<string>)
    requires RowKey(a, vars) == RowKey(b, vars)
    ensures DistinctKeys([a, b], vars) == [a]
  {
    assert [a, b][..1] == [a] && [a][..0] == [];
    assert DistinctKeys([a], vars) == [a];
    assert RowKey([a, b][0], vars) == RowKey([a, b][1], vars);
  }

  // ----- ORDER BY -----

  datatype Num = NaN | NegInf | Finite(r: real) | PosInf

  datatype OrderKey = OrderKey(variable: string, desc: bool)

  predicate NumLess(x: Num, y: Num) {
    match (x, y)
    case (NaN, _) => false
    case (_, NaN) => false
    case (NegInf, _) => y != NegInf
    case (_, NegInf) => false
    case (_, PosInf) => x != PosInf
    case (PosInf, _) => false
    case (Finite(a), Finite(b)) => a < b
  }

  /** strings.Compare */
  function Compare(a: string, b: string): int
    decreases |a|
  {
    if a == "" then if b == "" then 0 else -1
    else if b == "" then 1
    else if a[0] < b[0] then -1
    else if a[0] > b[0] then 1
    else Compare(a[1..], b[1..])
  }

  /** Values compare as numbers when both are; `num` is strconv.ParseFloat. */
  function CompareValues(num: string -> Option<Num>, x: string, y: string): int {
    if num(x).Some? && num(y).Some? then
      if NumLess(num(x).value, num(y).value) then -1
      else if NumLess(num(y).value, num(x).value) then 1
      else 0
    else Compare(x, y)
  }

  method LessBinding(num: string -> Option<Num>, a: Binding, b: Binding, keys: seq<OrderKey>) returns (less: bool)
    ensures less == (ThreeWay(num, a, b, keys) < 0)
  {
    for i := 0 to |keys|
      invariant ThreeWay(num, a, b, keys) == ThreeWay(num, a, b, keys[i..])
    {
      assert keys[i..][1..] == keys[i + 1..];
      var k := keys[i];
      if k.variable !in a && k.variable !in b {
        continue;
      }
      if k.variable !in a {
        return !k.desc;
      }
      if k.variable !in b {
        return k.desc;
      }
      var cmp := CompareValues(num, a[k.variable].Str(), b[k.variable].Str());
      if cmp == 0 {
        continue;
      }
      if k.desc {
        return cmp > 0;
      }
      return cmp < 0;
    }
    return false;
  }

  /** The order of one key before its direction: what is unbound comes first. */
  function Ascending(num: string -> Option<Num>, a: Binding, b: Binding, v: string): int {
    if v !in a then if v !in b then 0 else -1
    else if v !in b then 1
    else CompareValues(num, a[v].Str(), b[v].Str())
  }

  function ByKey(num: string -> Option<Num>, a: Binding, b: Binding, k: OrderKey): int {
    if k.desc then -Ascending(num, a, b, k.variable) else Ascending(num, a, b, k.variable)
  }

  /** The first key that tells the rows apart decides. */
  function ThreeWay(num: string -> Option<Num>, a: Binding, b: Binding, keys: seq<OrderKey>): int {
    if keys == [] then 0
    else
      var c := ByKey(num, a, b, keys[0]);
      if c != 0 then c else ThreeWay(num, a, b, keys[1..])
  }

  lemma {:induction false} CompareFlips(a: string, b: string)
    ensures Compare(b, a) == -Compare(a, b)
    decreases |a|
  {
    if a != "" && b != "" && a[0] == b[0] {
      CompareFlips(a[1..], b[1..]);
    }
  }

  /** `x` before or level with `y`, `y` with `z`, and so `x` with `z`, strictly when one
      of the two is strict. */
  predicate Chains(xy: int, yz: int, xz: int) {
    xy <= 0 && yz <= 0 ==> xz <= 0 && (xy < 0 || yz < 0 ==> xz < 0)
  }

  lemma {:induction false} CompareChains(a: string, b: string, c: string)
    ensures Chains(Compare(a, b), Compare(b, c), Compare(a, c))
    decreases |a|
  {
    if a != "" && b != "" && c != "" && a[0] == b[0] == c[0] {
      CompareChains(a[1..], b[1..], c[1..]);
    }
  }

  /** The values that a variable has. */
  function Texts(rows: seq<Binding>, v: string): set<string> {
    set i | 0 <= i < |rows| && v in rows[i] :: rows[i][v].Str()
  }

  /** No other text lies between two numbers, in the order of texts, unless the first number is less than the
      second; and beside a NaN no number is less than another. */
  ghost predicate Sortable(num: string -> Option<Num>, vals: set<string>) {
    && (forall x, t, y :: x in vals && t in vals && y in vals && num(x).Some? && num(t).None? && num(y).Some? ==>
          Compare(x, t) < 0 && Compare(t, y) < 0 ==> NumLess(num(x).value, num(y).value))
    && (forall n, x, y :: n in vals && x in vals && y in vals && num(n) == Some(NaN) ==>
          num(x).Some? && num(y).Some? ==> !NumLess(num(x).value, num(y).value))
  }

  lemma CompareEqual(a: string, b: string)
    ensures Compare(a, b) == 0 ==> a == b
    decreases |a|
  {
    if a != "" && b != "" && a[0] == b[0] {
      CompareEqual(a[1..], b[1..]);
      assert a == [a[0]] + a[1..] && b == [b[0]] + b[1..];
    }
  }

  lemma ValuesFlip(num: string -> Option<Num>, x: string, y: string)
    ensures CompareValues(num, y, x) == -CompareValues(num, x, y)
  {
    CompareFlips(x, y);
  }

  lemma ValuesChain(num: string -> Option<Num>, vals: set<string>, x: string, y: string, z: string)
    requires Sortable(num, vals) && x in vals && y in vals && z in vals
    ensures Chains(CompareValues(num, x, y), CompareValues(num, y, z), CompareValues(num, x, z))
  {
    CompareFlips(x, y);
    CompareFlips(y, z);
    CompareFlips(x, z);
    CompareEqual(x, y);
    CompareEqual(y, z);
    CompareEqual(x, z);
    CompareChains(x, y, z);
  }

  lemma ChainedIsSortable(num: string -> Option<Num>, vals: set<string>)
    requires forall x, y, z :: x in vals && y in vals && z in vals ==>
               Chains(CompareValues(num, x, y), CompareValues(num, y, z), CompareValues(num, x, z))
    ensures Sortable(num, vals)
  {
    forall n, x, y | n in vals && x in vals && y in vals && num(n) == Some(NaN) && num(x).Some? && num(y).Some?
      ensures !NumLess(num(x).value, num(y).value)
    {
      assert Chains(CompareValues(num, y, n), CompareValues(num, n, x), CompareValues(num, y, x));
    }
    forall x, t, y | x in vals && t in vals && y in vals && num(x).Some? && num(t).None? && num(y).Some?
                     && Compare(x, t) < 0 && Compare(t, y) < 0
      ensures NumLess(num(x).value, num(y).value)
    {
      assert Chains(CompareValues(num, x, t), CompareValues(num, t, y), CompareValues(num, x, y));
    }
  }

  lemma ByKeyOrders(num: string -> Option<Num>, rows: seq<Binding>, k: OrderKey, x: nat, y: nat, z: nat)
    requires Sortable(num, Texts(rows, k.variable)) && x < |rows| && y < |rows| && z < |rows|
    ensures ByKey(num, rows[y], rows[x], k) == -ByKey(num, rows[x], rows[y], k)
    ensures Chains(ByKey(num, rows[x], rows[y], k), ByKey(num, rows[y], rows[z], k), ByKey(num, rows[x], rows[z], k))
  {
    var v := k.variable;
    if v in rows[x] && v in rows[y] {
      ValuesFlip(num, rows[x][v].Str(), rows[y][v].Str());
      if v in rows[z] {
        ValuesFlip(num, rows[y][v].Str(), rows[z][v].Str());
        ValuesFlip(num, rows[x][v].Str(), rows[z][v].Str());
        ValuesChain(num, Texts(rows, v), rows[x][v].Str(), rows[y][v].Str(), rows[z][v].Str());
        ValuesChain(num, Texts(rows, v), rows[z][v].Str(), rows[y][v].Str(), rows[x][v].Str());
      }
    }
  }

  lemma {:induction false} ThreeWayOrders(num: string -> Option<Num>, rows: seq<Binding>, keys: seq<OrderKey>, x: nat,
                                          y: nat, z: nat)
    requires forall k :: k in keys ==> Sortable(num, Texts(rows, k.variable))
    requires x < |rows| && y < |rows| && z < |rows|
    ensures ThreeWay(num, rows[y], rows[x], keys) == -ThreeWay(num, rows[x], rows[y], keys)
    ensures Chains(ThreeWay(num, rows[x], rows[y], keys), ThreeWay(num, rows[y], rows[z], keys),
                   ThreeWay(num, rows[x], rows[z], keys))
    decreases |keys|
  {
    if keys != [] {
      assert keys[0] in keys;
      ByKeyOrders(num, rows, keys[0], x, y, z);
      ByKeyOrders(num, rows, keys[0], y, z, x);
      ByKeyOrders(num, rows, keys[0], z, x, y);
      ThreeWayOrders(num, rows, keys[1..], x, y, z);
    }
  }

  ghost predicate Less(num: string -> Option<Num>, a: Binding, b: Binding, keys: seq<OrderKey>) {
    ThreeWay(num, a, b, keys) < 0
  }

  /** The laws of a strict weak order: irreflexive and transitive, and so is being level. */
  ghost predicate WeakAt(num: string -> Option<Num>, a: Binding, b: Binding, c: Binding, keys: seq<OrderKey>) {
    && !Less(num, a, a, keys)
    && (Less(num, a, b, keys) && Less(num, b, c, keys) ==> Less(num, a, c, keys))
    && (!Less(num, a, b, keys) && !Less(num, b, a, keys) && !Less(num, b, c, keys) && !Less(num, c, b, keys) ==>
          !Less(num, a, c, keys) && !Less(num, c, a, keys))
  }

  ghost predicate WeakOrder(num: string -> Option<Num>, rows: seq<Binding>, keys: seq<OrderKey>) {
    forall x, y, z :: 0 <= x < |rows| && 0 <= y < |rows| && 0 <= z < |rows| ==>
      WeakAt(num, rows[x], rows[y], rows[z], keys)
  }

  /** On sortable columns the comparison is a strict weak order, whatever the directions of the keys. */
  lemma StrictWeakOrder(num: string -> Option<Num>, rows: seq<Binding>, keys: seq<OrderKey>)
    requires forall k :: k in keys ==> Sortable(num, Texts(rows, k.variable))
    ensures WeakOrder(num, rows, keys)
  {
    forall x, y, z | 0 <= x < |rows| && 0 <= y < |rows| && 0 <= z < |rows|
      ensures WeakAt(num, rows[x], rows[y], rows[z], keys)
    {
      ThreeWayOrders(num, rows, keys, x, x, x);
      ThreeWayOrders(num, rows, keys, x, y, z);
      ThreeWayOrders(num, rows, keys, z, y, x);
      ThreeWayOrders(num, rows, keys, y, z, x);
      ThreeWayOrders(num, rows, keys, x, z, y);
    }
  }

  lemma OneKey(num: string -> Option<Num>, a: Binding, b: Binding, k: OrderKey)
    ensures ThreeWay(num, a, b, [k]) == ByKey(num, a, b, k)
  {
  }

  /** A weak order on one column, read on its values. */
  lemma OneKeyChains(num: string -> Option<Num>, rows: seq<Binding>, k: OrderKey, x: nat, y: nat, z: nat)
    requires WeakOrder(num, rows, [k]) && x < |rows| && y < |rows| && z < |rows|
    requires k.variable in rows[x] && k.variable in rows[y] && k.variable in rows[z]
    ensures var p, q, r := rows[x][k.variable].Str(), rows[y][k.variable].Str(), rows[z][k.variable].Str();
            Chains(CompareValues(num, p, q), CompareValues(num, q, r), CompareValues(num, p, r))
  {
    var a, b, c := rows[x], rows[y], rows[z];
    var p, q, r := a[k.variable].Str(), b[k.variable].Str(), c[k.variable].Str();
    ValuesFlip(num, p, q);
    ValuesFlip(num, q, r);
    ValuesFlip(num, p, r);
    OneKey(num, a, b, k);
    OneKey(num, b, a, k);
    OneKey(num, b, c, k);
    OneKey(num, c, b, k);
    OneKey(num, a, c, k);
    OneKey(num, c, a, k);
    assert WeakAt(num, a, b, c, [k]) && WeakAt(num, c, b, a, [k]) && WeakAt(num, b, c, a, [k])
           && WeakAt(num, c, a, b, [k])
           && WeakAt(num, a, c, b, [k]) && WeakAt(num, b, a, c, [k]);
  }

  /** For one key the comparison is a strict weak order exactly when the column is sortable. */
  lemma OneKeySorts(num: string -> Option<Num>, rows: seq<Binding>, k: OrderKey)
    ensures WeakOrder(num, rows, [k]) <==> Sortable(num, Texts(rows, k.variable))
  {
    if WeakOrder(num, rows, [k]) {
      WeakIsChained(num, rows, k);
      ChainedIsSortable(num, Texts(rows, k.variable));
    }
    if Sortable(num, Texts(rows, k.variable)) {
      StrictWeakOrder(num, rows, [k]);
    }
  }

  lemma RowWith(rows: seq<Binding>, v: string, p: string) returns (i: nat)
    requires p in Texts(rows, v)
    ensures i < |rows| && v in rows[i] && rows[i][v].Str() == p
  {
    i :| i < |rows| && v in rows[i] && rows[i][v].Str() == p;
  }

  lemma WeakIsChained(num: string -> Option<Num>, rows: seq<Binding>, k: OrderKey)
    requires WeakOrder(num, rows, [k])
    ensures var vals := Texts(rows, k.variable);
            forall p, q, r :: p in vals && q in vals && r in vals ==>
              Chains(CompareValues(num, p, q), CompareValues(num, q, r), CompareValues(num, p, r))
  {
    var vals := Texts(rows, k.variable);
    forall p, q, r | p in vals && q in vals && r in vals
      ensures Chains(CompareValues(num, p, q), CompareValues(num, q, r), CompareValues(num, p, r))
    {
      var x := RowWith(rows, k.variable, p);
      var y := RowWith(rows, k.variable, q);
      var z := RowWith(rows, k.variable, r);
      OneKeyChains(num, rows, k, x, y, z);
    }
  }

  /** A column of numbers and other text can turn in a circle. */
  lemma MixedColumnCycle(num: string -> Option<Num>)
    requires num("9") == Some(Finite(9.0)) && num("10") == Some(Finite(10.0)) && num("1a") == None
    ensures var a, b, c := map["x" := IriBound("9")], map["x" := IriBound("10")], map["x" := IriBound("1a")];
            var keys := [OrderKey("x", false)];
            Less(num, a, b, keys) && Less(num, b, c, keys) && Less(num, c, a, keys)
  {
  }
}

/**
 Collecting star degree statistics: one aggregate per table, a pivot per join-key value, and the
 compression of equal count vectors into (vector, frequency) pairs.
 */
module StarCollection {
  import opened Sums
  import opened Sql

  datatype TableColumn = TableColumn(table: string, column: string)

  type Database = map<string, seq<Row>>

  /** An EqualSet in which no table occurs twice. */
  ghost predicate DistinctTables(entries: seq<TableColumn>) {
    forall i, j :: 0 <= i < j < |entries| ==> entries[i].table != entries[j].table
  }

  /** The counts of one join-key value, by table. */
  type CountVector = map<string, int>

  datatype AggRow = AggRow(val: int, tbl: string, cnt: nat)

  function IsNotNull(col: string): Row -> bool {
    row => Get(row, col) != Null
  }

  function ValueOf(col: string): Row -> int {
    row => match Get(row, col) case Val(v) => v case Null => 0
  }

  function CellOf(col: string): Row -> Cell {
    row => Get(row, col)
  }

  function Tagged(groups: seq<(int, nat)>, tbl: string): seq<AggRow> {
    if groups == [] then [] else [AggRow(groups[0].0, tbl, groups[0].1)] + Tagged(groups[1..], tbl)
  }

  /** `SELECT col AS val, 'tbl' AS tbl, COUNT(*) AS cnt FROM tbl WHERE col IS NOT NULL GROUP BY col` */
  function Aggregate(db: Database, e: TableColumn): seq<AggRow> {
    Tagged(GroupBy(Select(Lookup(db, e.table), IsNotNull(e.column)), ValueOf(e.column)), e.table)
  }

  function UnionAll(db: Database, entries: seq<TableColumn>): seq<AggRow> {
    if entries == [] then [] else Aggregate(db, entries[0]) + UnionAll(db, entries[1..])
  }

  /** `CASE WHEN tbl = 't' THEN cnt ELSE 0 END`, restricted to the rows of the group `val = v`. */
  function CaseWhen(v: int, t: string): AggRow -> int {
    (r: AggRow) => if r.val == v && r.tbl == t then r.cnt else 0
  }

  function Tables(entries: seq<TableColumn>): set<string> {
    set e | e in entries :: e.table
  }

  /** The pivot row of the value `v`: for every table the sum of its counts at `v`. */
  function Pivot(agg: seq<AggRow>, tables: set<string>, v: int): CountVector {
    map t | t in tables :: Total(agg, CaseWhen(v, t))
  }

  function ValColumn(): AggRow -> int {
    (r: AggRow) => r.val
  }

  /** The distinct values of `agg_data`, in the order of the engine's GROUP BY. */
  function PivotValues(agg: seq<AggRow>): seq<int> {
    Keys(GroupBy(agg, ValColumn()))
  }

  function Pivots(agg: seq<AggRow>, tables: set<string>, vals: seq<int>): seq<CountVector> {
    if vals == [] then [] else [Pivot(agg, tables, vals[0])] + Pivots(agg, tables, vals[1..])
  }

  function PivotRows(db: Database, entries: seq<TableColumn>): seq<CountVector> {
    var agg := UnionAll(db, entries);
    Pivots(agg, Tables(entries), PivotValues(agg))
  }

  function Identity(): CountVector -> CountVector {
    vec => vec
  }

  /** What the compressing query returns: one row per count vector, with its frequency, in any order. */
  ghost predicate IsCountNum(db: Database, entries: seq<TableColumn>, rows: seq<(CountVector, nat)>) {
    IsGrouping(PivotRows(db, entries), Identity(), rows)
  }

  /** Reading the result set into the `count_num` map. */
  method FetchCountNum(rows: seq<(CountVector, nat)>) returns (countNum: map<CountVector, nat>)
    requires DistinctKeys(rows)
    ensures forall vec :: vec in countNum <==> exists i :: 0 <= i < |rows| && rows[i].0 == vec
    ensures forall i :: 0 <= i < |rows| ==> rows[i].0 in countNum && countNum[rows[i].0] == rows[i].1
  {
    countNum := map[];
    for n := 0 to |rows|
      invariant forall vec :: vec in countNum <==> exists i :: 0 <= i < n && rows[i].0 == vec
      invariant forall i :: 0 <= i < n ==> rows[i].0 in countNum && countNum[rows[i].0] == rows[i].1
    {
      countNum := countNum[rows[n].0 := rows[n].1];
    }
  }

  /** The product of the counts of a subset of the tables. */
  function ProductOf(sub: seq<TableColumn>): CountVector -> int {
    vec => Product(vec, sub)
  }

  function Product(vec: CountVector, sub: seq<TableColumn>): int {
    if sub == [] then 1
    else (if sub[0].table in vec then vec[sub[0].table] else 0) * Product(vec, sub[1..])
  }

  // ---- The star join itself ----

  function TableNames(sub: seq<TableColumn>): (names: seq<string>)
    ensures |names| == |sub| && forall i :: 0 <= i < |names| ==> names[i] == sub[i].table
  {
    if sub == [] then [] else [sub[0].table] + TableNames(sub[1..])
  }

  /** `anchor.c0 = t.c` for every member of the star, the anchor included. */
  function StarConditions(anchor: TableColumn, sub: seq<TableColumn>): (conds: seq<Conjunct>)
    ensures |conds| == |sub|
    ensures forall i :: 0 <= i < |sub| ==>
              conds[i] == JoinEq(Ref(anchor.table, anchor.column), Ref(sub[i].table, sub[i].column))
  {
    if sub == [] then []
    else [JoinEq(Ref(anchor.table, anchor.column), Ref(sub[0].table, sub[0].column))] + StarConditions(anchor, sub[1..])
  }

  /** The size of the star join of `sub` on the shared key; for one table, its rows with a key. */
  function StarSize(db: Database, sub: seq<TableColumn>): nat
    requires sub != []
  {
    Count(TableNames(sub), db, map[], Where(StarConditions(sub[0], sub)))
  }

  // ---- Every pivot entry is a degree ----

  /** The degree of `v` in one column: how many rows carry it. */
  function Degree(db: Database, e: TableColumn, v: int): nat {
    Multiplicity(Lookup(db, e.table), CellOf(e.column), Val(v))
  }

  lemma {:induction false} MultiplicityNonNull(rows: seq<Row>, col: string, v: int)
    ensures Multiplicity(Select(rows, IsNotNull(col)), ValueOf(col), v) == Multiplicity(rows, CellOf(col), Val(v))
  {
    if rows != [] {
      MultiplicityNonNull(rows[1..], col, v);
      var rest := Select(rows[1..], IsNotNull(col));
      if IsNotNull(col)(rows[0]) {
        assert ([rows[0]] + rest)[1..] == rest;
      } else {
        assert [] + rest == rest;
      }
    }
  }

  lemma {:induction false} TaggedTotal(groups: seq<(int, nat)>, tbl: string, v: int, t: string)
    requires DistinctKeys(groups)
    ensures Total(Tagged(groups, tbl), CaseWhen(v, t)) == if tbl == t then CountAt(groups, v) else 0
  {
    if groups != [] {
      TaggedTotal(groups[1..], tbl, v, t);
      var head := AggRow(groups[0].0, tbl, groups[0].1);
      assert ([head] + Tagged(groups[1..], tbl))[1..] == Tagged(groups[1..], tbl);
      if groups[0].0 == v {
        CountAtAbsent(groups[1..], v);
      }
    }
  }

  lemma {:induction false} CountAtAbsent(groups: seq<(int, nat)>, v: int)
    requires forall i :: 0 <= i < |groups| ==> groups[i].0 != v
    ensures CountAt(groups, v) == 0
  {
    if groups != [] {
      CountAtAbsent(groups[1..], v);
    }
  }

  lemma AggregateTotal(db: Database, e: TableColumn, v: int, t: string)
    ensures Total(Aggregate(db, e), CaseWhen(v, t)) == if e.table == t then Degree(db, e, v) else 0
  {
    var rows := Select(Lookup(db, e.table), IsNotNull(e.column));
    GroupByCounts(rows, ValueOf(e.column));
    TaggedTotal(GroupBy(rows, ValueOf(e.column)), e.table, v, t);
    MultiplicityNonNull(Lookup(db, e.table), e.column, v);
  }

  lemma {:induction false} UnionTotal(db: Database, entries: seq<TableColumn>, v: int, t: string)
    requires DistinctTables(entries)
    ensures t !in Tables(entries) ==> Total(UnionAll(db, entries), CaseWhen(v, t)) == 0
    ensures forall i :: 0 <= i < |entries| && entries[i].table == t ==>
              Total(UnionAll(db, entries), CaseWhen(v, t)) == Degree(db, entries[i], v)
  {
    if entries != [] {
      UnionTotal(db, entries[1..], v, t);
      AggregateTotal(db, entries[0], v, t);
      TotalAppend(Aggregate(db, entries[0]), UnionAll(db, entries[1..]), CaseWhen(v, t));
      assert entries == [entries[0]] + entries[1..];
      forall i | 0 <= i < |entries| && entries[i].table == t
        ensures Total(UnionAll(db, entries), CaseWhen(v, t)) == Degree(db, entries[i], v)
      {
        if i == 0 {
          assert t !in Tables(entries[1..]);
        } else {
          assert entries[1..][i - 1] == entries[i];
        }
      }
    }
  }

  lemma {:induction false} SomeRow(agg: seq<AggRow>, v: int, t: string)
    requires Total(agg, CaseWhen(v, t)) > 0
    ensures Multiplicity(agg, ValColumn(), v) > 0
  {
    if agg[0].val != v {
      SomeRow(agg[1..], v, t);
    }
  }

  /** No value that occurs in any of the columns is missing from the pivot. */
  lemma PivotComplete(db: Database, entries: seq<TableColumn>, i: nat, v: int)
    requires DistinctTables(entries) && i < |entries| && Degree(db, entries[i], v) > 0
    ensures v in PivotValues(UnionAll(db, entries))
  {
    var agg := UnionAll(db, entries);
    UnionTotal(db, entries, v, entries[i].table);
    SomeRow(agg, v, entries[i].table);
    var groups := GroupBy(agg, ValColumn());
    GroupByCounts(agg, ValColumn());
    CountAtPresent(groups, v);
    var g :| g in groups && g.0 == v;
    var j :| 0 <= j < |groups| && groups[j] == g;
    assert Keys(groups)[j] == v;
  }

  lemma PivotDistinct(agg: seq<AggRow>)
    ensures Distinct(PivotValues(agg))
  {
    GroupByCounts(agg, ValColumn());
  }

  // ---- Exactness ----

  /** The product of the degrees of `v` in the columns of a star. */
  function DegreeProduct(db: Database, sub: seq<TableColumn>, v: int): nat {
    if sub == [] then 1 else Degree(db, sub[0], v) * DegreeProduct(db, sub[1..], v)
  }

  function DegreeProducts(db: Database, sub: seq<TableColumn>): int -> int {
    v => DegreeProduct(db, sub, v)
  }

  lemma {:induction false} ProductIsDegreeProduct(db: Database, entries: seq<TableColumn>, sub: seq<TableColumn>, v: int)
    requires DistinctTables(entries) && forall e :: e in sub ==> e in entries
    ensures Product(Pivot(UnionAll(db, entries), Tables(entries), v), sub) == DegreeProduct(db, sub, v)
  {
    if sub != [] {
      assert sub[0] in sub;
      var i :| 0 <= i < |entries| && entries[i] == sub[0];
      UnionTotal(db, entries, v, sub[0].table);
      ProductIsDegreeProduct(db, entries, sub[1..], v);
    }
  }

  lemma {:induction false} PivotsTotal(db: Database, entries: seq<TableColumn>, sub: seq<TableColumn>, vals: seq<int>)
    requires DistinctTables(entries) && forall e :: e in sub ==> e in entries
    ensures Total(Pivots(UnionAll(db, entries), Tables(entries), vals), ProductOf(sub)) ==
            Total(vals, DegreeProducts(db, sub))
  {
    if vals != [] {
      PivotsTotal(db, entries, sub, vals[1..]);
      ProductIsDegreeProduct(db, entries, sub, vals[0]);
      var rest := Pivots(UnionAll(db, entries), Tables(entries), vals[1..]);
      assert ([Pivot(UnionAll(db, entries), Tables(entries), vals[0])] + rest)[1..] == rest;
    }
  }

  /** Every table of `sub` has a row at hand whose key is `v`. */
  ghost predicate AllAt(sub: seq<TableColumn>, e: Env, v: int) {
    forall i :: 0 <= i < |sub| ==> Fetch(e, Ref(sub[i].table, sub[i].column)) == Val(v)
  }

  lemma TotalMatches(rows: seq<Row>, col: string, v: int, c: int)
    ensures Total(rows, row => if Get(row, col) == Val(v) then c else 0) == Multiplicity(rows, CellOf(col), Val(v)) * c
  {
    if rows != [] {
      TotalMatches(rows[1..], col, v, c);
    }
  }

  /** Independent choices multiply. */
  lemma {:induction false} CountAllAt(db: Database, sub: seq<TableColumn>, env: Env, p: Env -> bool, v: int)
    requires Fresh(TableNames(sub), env)
    requires forall e :: Completes(e, env, TableNames(sub)) ==> (p(e) <==> AllAt(sub, e, v))
    ensures Count(TableNames(sub), db, env, p) == DegreeProduct(db, sub, v)
    decreases |sub|
  {
    var names := TableNames(sub);
    if sub == [] {
      assert Completes(env, env, names);
    } else {
      var t, col, rest := sub[0].table, sub[0].column, sub[1..];
      assert names[1..] == TableNames(rest);
      var c := DegreeProduct(db, rest, v);
      var here := (row: Row) => if Get(row, col) == Val(v) then c as int else 0;
      forall row ensures CountStep(names, db, env, p)(row) == here(row) {
        FreshStep(names, env, row);
        forall e | Completes(e, env[t := row], names[1..])
          ensures p(e) <==> Get(row, col) == Val(v) && AllAt(rest, e, v)
        {
          CompletesStep(e, env, names, row);
          assert e[t] == row;
          AllAtStep(sub, e, v);
        }
        if Get(row, col) == Val(v) {
          CountAllAt(db, rest, env[t := row], p, v);
        } else {
          CountNone(names[1..], db, env[t := row], p);
        }
      }
      TotalCong(Lookup(db, t), CountStep(names, db, env, p), here);
      TotalMatches(Lookup(db, t), col, v, c);
      TotalCong(Lookup(db, t), here, row => if Get(row, col) == Val(v) then c as int else 0);
    }
  }

  lemma AllAtStep(sub: seq<TableColumn>, e: Env, v: int)
    requires sub != []
    ensures AllAt(sub, e, v) <==> Fetch(e, Ref(sub[0].table, sub[0].column)) == Val(v) && AllAt(sub[1..], e, v)
  {
    assert forall i :: 0 <= i < |sub[1..]| ==> sub[1..][i] == sub[i + 1];
    assert forall i :: 1 <= i < |sub| ==> sub[i] == sub[1..][i - 1];
  }

  lemma EqualToKey(l: Ref, r: Ref, e: Env, v: int)
    requires Fetch(e, l) == Val(v)
    ensures Eval(JoinEq(l, r), e) == True <==> Fetch(e, r) == Val(v)
  {
  }

  /** The WHERE clause of the star, once the anchor's key is known. */
  lemma StarWhere(sub: seq<TableColumn>, e: Env, v: int)
    requires sub != [] && Fetch(e, Ref(sub[0].table, sub[0].column)) == Val(v)
    ensures Holds(StarConditions(sub[0], sub), e) <==> AllAt(sub[1..], e, v)
  {
    var conds, l := StarConditions(sub[0], sub), Ref(sub[0].table, sub[0].column);
    AllAtStep(sub, e, v);
    if Holds(conds, e) {
      forall i | 0 <= i < |sub| ensures Fetch(e, Ref(sub[i].table, sub[i].column)) == Val(v) {
        assert Eval(conds[i], e) == True;
        EqualToKey(l, Ref(sub[i].table, sub[i].column), e, v);
      }
    }
    if AllAt(sub, e, v) {
      forall i | 0 <= i < |conds| ensures Eval(conds[i], e) == True {
        EqualToKey(l, Ref(sub[i].table, sub[i].column), e, v);
      }
    }
  }

  /** What a row of the anchor table contributes, as a function of its key. */
  function AnchorWeight(db: Database, sub: seq<TableColumn>): Cell -> int
    requires sub != []
  {
    (cell: Cell) => match cell case Null => 0 case Val(v) => DegreeProduct(db, sub[1..], v)
  }

  lemma StarByAnchor(db: Database, sub: seq<TableColumn>)
    requires sub != [] && DistinctTables(sub)
    ensures StarSize(db, sub) == Total(Lookup(db, sub[0].table), After(AnchorWeight(db, sub), CellOf(sub[0].column)))
  {
    var names, p := TableNames(sub), Where(StarConditions(sub[0], sub));
    var t, col, rest := sub[0].table, sub[0].column, sub[1..];
    assert names[1..] == TableNames(rest);
    var weight := After(AnchorWeight(db, sub), CellOf(col));
    forall row ensures CountStep(names, db, map[], p)(row) == weight(row) {
      var env: Env := map[][t := row];
      FreshStep(names, map[], row);
      match Get(row, col)
      case Null =>
        forall e | Completes(e, env, names[1..]) ensures !p(e) {
          assert e[t] == row;
          assert Eval(StarConditions(sub[0], sub)[0], e) == Unknown;
        }
        CountNone(names[1..], db, env, p);
      case Val(v) =>
        forall e | Completes(e, env, names[1..]) ensures p(e) <==> AllAt(rest, e, v) {
          assert e[t] == row;
          StarWhere(sub, e, v);
        }
        CountAllAt(db, rest, env, p, v);
    }
    TotalCong(Lookup(db, t), CountStep(names, db, map[], p), weight);
  }

  function Cells(vals: seq<int>): (cells: seq<Cell>)
    ensures |cells| == |vals| && forall i :: 0 <= i < |cells| ==> cells[i] == Val(vals[i])
  {
    if vals == [] then [] else [Val(vals[0])] + Cells(vals[1..])
  }

  lemma {:induction false} CellsTotal(db: Database, sub: seq<TableColumn>, vals: seq<int>)
    requires sub != []
    ensures Total(Cells(vals), Weighted(Lookup(db, sub[0].table), CellOf(sub[0].column), AnchorWeight(db, sub))) ==
            Total(vals, DegreeProducts(db, sub))
  {
    if vals != [] {
      assert Cells(vals)[1..] == Cells(vals[1..]);
      CellsTotal(db, sub, vals[1..]);
    }
  }

  /** The star join, counted value by value. */
  lemma StarByValue(db: Database, sub: seq<TableColumn>, vals: seq<int>)
    requires sub != [] && DistinctTables(sub) && Distinct(vals)
    requires forall v :: Degree(db, sub[0], v) > 0 ==> v in vals
    ensures StarSize(db, sub) == Total(vals, DegreeProducts(db, sub))
  {
    var rows, key := Lookup(db, sub[0].table), CellOf(sub[0].column);
    var ks := [Null] + Cells(vals);
    forall r | r in rows ensures key(r) in ks {
      MultiplicityPositive(rows, key, r);
      if key(r).Val? {
        assert Degree(db, sub[0], key(r).v) > 0;
        var i :| 0 <= i < |vals| && vals[i] == key(r).v;
        assert ks[i + 1] == key(r);
      } else {
        assert ks[0] == key(r);
      }
    }
    StarByAnchor(db, sub);
    TotalByKey(rows, key, ks, AnchorWeight(db, sub));
    assert ks[1..] == Cells(vals);
    CellsTotal(db, sub, vals);
  }

  /**
   The compressed counts are exact: for every subset of the EqualSet's tables, the frequencies times
   the products of the subset's counts add up to the size of the star join on the shared key.
   */
  lemma StarExact(db: Database, entries: seq<TableColumn>, sub: seq<TableColumn>, countNum: seq<(CountVector, nat)>)
    requires DistinctTables(entries) && DistinctTables(sub) && sub != []
    requires forall e :: e in sub ==> e in entries
    requires IsCountNum(db, entries, countNum)
    ensures Total(countNum, GroupWeight(ProductOf(sub))) == StarSize(db, sub)
  {
    var agg := UnionAll(db, entries);
    var vals := PivotValues(agg);
    var rows := PivotRows(db, entries);
    GroupedTotal(rows, Identity(), countNum, ProductOf(sub));
    TotalCong(rows, After(ProductOf(sub), Identity()), ProductOf(sub));
    PivotsTotal(db, entries, sub, vals);
    PivotDistinct(agg);
    assert sub[0] in sub;
    var i :| 0 <= i < |entries| && entries[i] == sub[0];
    forall v | Degree(db, sub[0], v) > 0 ensures v in vals {
      PivotComplete(db, entries, i, v);
    }
    StarByValue(db, sub, vals);
  }

  /** The star of one table is its rows with a non-null key. */
  lemma SingleStar(db: Database, e: TableColumn)
    ensures StarSize(db, [e]) == |Select(Lookup(db, e.table), IsNotNull(e.column))|
  {
    var rows := Lookup(db, e.table);
    StarByAnchor(db, [e]);
    var one := (row: Row) => 1;
    TotalSelect(rows, IsNotNull(e.column), one);
    TotalConstant(Select(rows, IsNotNull(e.column)), one, 1);
    TotalCong(rows, After(AnchorWeight(db, [e]), CellOf(e.column)), Masked(IsNotNull(e.column), one));
  }
}

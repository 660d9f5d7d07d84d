/** The results of a plan are the rows that its query counts. */
module PlanCounts {
  import opened Sums
  import opened Sql
  import opened MergeBounds
  import opened StarJoins
  import Star = StarCollection
  import Edges = StarEdges

  // ---- Lists without repetition ----

  lemma DistinctAppend<A>(a: seq<A>, b: seq<A>)
    requires Distinct(a) && Distinct(b) && forall x :: x in a ==> x !in b
    ensures Distinct(a + b)
  {
    var all := a + b;
    forall i, j | 0 <= i < j < |all| ensures all[i] != all[j] {
      if i < |a| <= j {
        assert all[i] in a && all[j] in b;
      }
    }
  }

  function Elements<A>(s: seq<A>): set<A> {
    set x | x in s
  }

  lemma {:induction false} DistinctSize<A>(s: seq<A>)
    requires Distinct(s)
    ensures |Elements(s)| == |s|
  {
    if s != [] {
      var k := |s| - 1;
      DistinctSize(s[..k]);
      assert s == s[..k] + [s[k]];
      assert Elements(s) == Elements(s[..k]) + {s[k]};
    }
  }

  /** Two lists without repetition that hold the same elements have one length. */
  lemma SameLength<A(!new)>(a: seq<A>, b: seq<A>)
    requires Distinct(a) && Distinct(b) && forall x :: x in a <==> x in b
    ensures |a| == |b|
  {
    DistinctSize(a);
    DistinctSize(b);
    assert Elements(a) == Elements(b);
  }

  // ---- All choices of rows, one by one ----

  /** The rows that a tuple picks. */
  function EnvOf(db: Star.Database, x: Tuple): Env {
    map t | t in x :: RowOf(db, t, x[t])
  }

  function RowOf(db: Star.Database, t: string, k: int): Row {
    if 0 <= k < |Lookup(db, t)| then Lookup(db, t)[k] else map[]
  }

  /** The choices of rows for `tables`, together with those of `x`, that satisfy `p`. */
  function Solutions(tables: seq<string>, db: Star.Database, x: Tuple, p: Env -> bool): seq<Tuple>
    decreases |tables|, 0
  {
    if tables == [] then (if p(EnvOf(db, x)) then [x] else [])
    else SolutionsTo(tables[0], tables[1..], db, x, p, |Lookup(db, tables[0])|)
  }

  /** Only the first `k` rows of the first table. */
  function SolutionsTo(t: string, rest: seq<string>, db: Star.Database, x: Tuple, p: Env -> bool, k: nat): seq<Tuple>
    requires k <= |Lookup(db, t)|
    decreases |rest|, k + 1
  {
    if k == 0 then [] else SolutionsTo(t, rest, db, x, p, k - 1) + Solutions(rest, db, x[t := k - 1], p)
  }

  lemma EnvStep(db: Star.Database, x: Tuple, t: string, k: nat)
    requires k < |Lookup(db, t)|
    ensures EnvOf(db, x[t := k]) == EnvOf(db, x)[t := Lookup(db, t)[k]]
  {
  }

  /** There are as many as `COUNT(*)` says. */
  lemma {:induction false} SolutionsCount(tables: seq<string>, db: Star.Database, x: Tuple, p: Env -> bool)
    ensures |Solutions(tables, db, x, p)| == Count(tables, db, EnvOf(db, x), p)
    decreases |tables|, 0
  {
    if tables != [] {
      var rows := Lookup(db, tables[0]);
      RowsCount(tables, db, x, p, |rows|);
      assert rows[..|rows|] == rows;
    }
  }

  lemma {:induction false} RowsCount(tables: seq<string>, db: Star.Database, x: Tuple, p: Env -> bool, k: nat)
    requires tables != [] && k <= |Lookup(db, tables[0])|
    ensures |SolutionsTo(tables[0], tables[1..], db, x, p, k)| ==
            Total(Lookup(db, tables[0])[..k], CountStep(tables, db, EnvOf(db, x), p))
    decreases |tables| - 1, k + 1
  {
    if k > 0 {
      var t, rows, step := tables[0], Lookup(db, tables[0]), CountStep(tables, db, EnvOf(db, x), p);
      RowsCount(tables, db, x, p, k - 1);
      SolutionsCount(tables[1..], db, x[t := k - 1], p);
      EnvStep(db, x, t, k - 1);
      assert rows[..k] == rows[..k - 1] + [rows[k - 1]];
      TotalAppend(rows[..k - 1], [rows[k - 1]], step);
      TotalSingle(rows[k - 1], step);
    }
  }

  /** `z` extends `x` by an existing row of every table. */
  ghost predicate Completed(z: Tuple, x: Tuple, tables: seq<string>, db: Star.Database) {
    && z.Keys == x.Keys + Names(tables)
    && (forall t :: t in x ==> z[t] == x[t])
    && (forall t :: t in tables ==> 0 <= z[t] < |Lookup(db, t)|)
  }

  ghost predicate NewTables(tables: seq<string>, x: Tuple) {
    Distinct(tables) && forall t :: t in tables ==> t !in x
  }

  lemma NewStep(tables: seq<string>, x: Tuple, k: int)
    requires tables != [] && NewTables(tables, x)
    ensures NewTables(tables[1..], x[tables[0] := k])
  {
    forall t | t in tables[1..] ensures t !in x[tables[0] := k] {
      var i :| 0 <= i < |tables| - 1 && tables[1..][i] == t;
      assert tables[i + 1] == t;
    }
  }

  lemma NamesStep(tables: seq<string>)
    requires tables != [] && Distinct(tables)
    ensures Names(tables) == {tables[0]} + Names(tables[1..]) && tables[0] !in Names(tables[1..])
  {
    assert tables == [tables[0]] + tables[1..];
  }

  lemma CompletedLess(z: Tuple, x: Tuple, tables: seq<string>, db: Star.Database, k: nat)
    requires tables != [] && NewTables(tables, x) && k < |Lookup(db, tables[0])|
    requires Completed(z, x[tables[0] := k], tables[1..], db)
    ensures Completed(z, x, tables, db) && z[tables[0]] == k
  {
    var t, y := tables[0], x[tables[0] := k];
    NamesStep(tables);
    assert y.Keys == x.Keys + {t};
    assert t in y && t !in x;
    forall s | s in x ensures z[s] == x[s] {
      assert s in y;
    }
    forall s | s in tables ensures 0 <= z[s] < |Lookup(db, s)| {
      assert s == t || s in tables[1..];
    }
  }

  lemma CompletedMore(z: Tuple, x: Tuple, tables: seq<string>, db: Star.Database, k: nat)
    requires tables != [] && NewTables(tables, x) && Completed(z, x, tables, db)
    requires tables[0] in z && z[tables[0]] == k
    ensures Completed(z, x[tables[0] := k], tables[1..], db)
  {
    var y := x[tables[0] := k];
    NamesStep(tables);
    assert y.Keys == x.Keys + {tables[0]};
    forall s | s in tables[1..] ensures 0 <= z[s] < |Lookup(db, s)| {
      assert s in tables;
    }
  }

  lemma CompletedStep(z: Tuple, x: Tuple, tables: seq<string>, db: Star.Database, k: nat)
    requires tables != [] && NewTables(tables, x) && k < |Lookup(db, tables[0])|
    ensures Completed(z, x[tables[0] := k], tables[1..], db) <==>
            Completed(z, x, tables, db) && z[tables[0]] == k
  {
    assert tables[0] in tables;
    if Completed(z, x[tables[0] := k], tables[1..], db) {
      CompletedLess(z, x, tables, db, k);
    }
    if Completed(z, x, tables, db) && z[tables[0]] == k {
      CompletedMore(z, x, tables, db, k);
    }
  }

  /** Every choice that satisfies `p`, and nothing else, is listed, ... */
  lemma {:induction false} SolutionsMember(tables: seq<string>, db: Star.Database, x: Tuple, p: Env -> bool, z: Tuple)
    requires NewTables(tables, x)
    ensures z in Solutions(tables, db, x, p) <==> Completed(z, x, tables, db) && p(EnvOf(db, z))
    decreases |tables|, 0
  {
    if tables == [] {
      assert Completed(z, x, tables, db) ==> z == x;
    } else {
      RowsMember(tables, db, x, p, z, |Lookup(db, tables[0])|);
      assert tables[0] in tables;
    }
  }

  lemma {:induction false} RowsMember(tables: seq<string>, db: Star.Database, x: Tuple, p: Env -> bool, z: Tuple, k: nat)
    requires tables != [] && NewTables(tables, x) && k <= |Lookup(db, tables[0])|
    ensures z in SolutionsTo(tables[0], tables[1..], db, x, p, k) <==>
            Completed(z, x, tables, db) && p(EnvOf(db, z)) && z[tables[0]] < k
    decreases |tables| - 1, k + 1
  {
    assert tables[0] in tables;
    if k > 0 {
      RowsMember(tables, db, x, p, z, k - 1);
      NewStep(tables, x, k - 1);
      SolutionsMember(tables[1..], db, x[tables[0] := k - 1], p, z);
      CompletedStep(z, x, tables, db, k - 1);
    }
  }

  /** ... and only once. */
  lemma {:induction false} SolutionsDistinct(tables: seq<string>, db: Star.Database, x: Tuple, p: Env -> bool)
    requires NewTables(tables, x)
    ensures Distinct(Solutions(tables, db, x, p))
    decreases |tables|, 0
  {
    if tables != [] {
      RowsDistinct(tables, db, x, p, |Lookup(db, tables[0])|);
    }
  }

  lemma EarlierSolution(tables: seq<string>, db: Star.Database, x: Tuple, p: Env -> bool, k: nat, z: Tuple)
    requires tables != [] && NewTables(tables, x) && k < |Lookup(db, tables[0])|
    requires z in SolutionsTo(tables[0], tables[1..], db, x, p, k)
    ensures z !in Solutions(tables[1..], db, x[tables[0] := k], p)
  {
    RowsMember(tables, db, x, p, z, k);
    NewStep(tables, x, k);
    SolutionsMember(tables[1..], db, x[tables[0] := k], p, z);
    CompletedStep(z, x, tables, db, k);
  }

  lemma {:induction false} RowsDistinct(tables: seq<string>, db: Star.Database, x: Tuple, p: Env -> bool, k: nat)
    requires tables != [] && NewTables(tables, x) && k <= |Lookup(db, tables[0])|
    ensures Distinct(SolutionsTo(tables[0], tables[1..], db, x, p, k))
    decreases |tables| - 1, k + 1
  {
    if k > 0 {
      var y := x[tables[0] := k - 1];
      var a, b := SolutionsTo(tables[0], tables[1..], db, x, p, k - 1), Solutions(tables[1..], db, y, p);
      RowsDistinct(tables, db, x, p, k - 1);
      NewStep(tables, x, k - 1);
      SolutionsDistinct(tables[1..], db, y, p);
      forall z | z in a ensures z !in b {
        EarlierSolution(tables, db, x, p, k - 1, z);
      }
      DistinctAppend(a, b);
    }
  }

  // ---- The results of a star ----

  /** The row that `z` picks from every table of the star carries `v`. */
  ghost predicate AllHave(db: Star.Database, sub: seq<Star.TableColumn>, z: Tuple, v: int) {
    forall e :: e in sub ==> e.table in z && RowHas(db, e, z[e.table], v)
  }

  lemma {:induction false} ExtendMember(xs: seq<Tuple>, t: string, k: int, z: Tuple)
    ensures z in Extend(xs, t, k) <==> exists y :: y in xs && z == y[t := k]
  {
    var ys := Extend(xs, t, k);
    if z in ys {
      var i :| 0 <= i < |ys| && ys[i] == z;
      assert xs[i] in xs;
    }
    if y :| y in xs && z == y[t := k] {
      var i :| 0 <= i < |xs| && xs[i] == y;
      assert ys[i] == z;
    }
  }

  /** Tuples that do not have a row of `t` yet. */
  ghost predicate Lacking(xs: seq<Tuple>, t: string) {
    forall y :: y in xs ==> t !in y
  }

  lemma ExtendWithout(xs: seq<Tuple>, t: string, k: int, z: Tuple)
    requires Lacking(xs, t)
    ensures z in Extend(xs, t, k) <==> t in z && z[t] == k && z - {t} in xs
  {
    ExtendMember(xs, t, k, z);
    forall y | y in xs && z == y[t := k] ensures z - {t} == y {
      assert t !in y;
    }
    if t in z && z[t] == k && z - {t} in xs {
      assert z == (z - {t})[t := k];
    }
  }

  lemma ExtendDistinct(xs: seq<Tuple>, t: string, k: int)
    requires Lacking(xs, t) && Distinct(xs)
    ensures Distinct(Extend(xs, t, k))
  {
    var ys := Extend(xs, t, k);
    forall i, j | 0 <= i < j < |xs| ensures ys[i] != ys[j] {
      assert xs[i] in xs && xs[j] in xs;
      ExtendInjective(xs[i], xs[j], t, k);
    }
  }

  lemma ExtendInjective(x: Tuple, y: Tuple, t: string, k: int)
    requires t !in x && t !in y
    ensures x[t := k] == y[t := k] ==> x == y
  {
    assert x == x[t := k] - {t} && y == y[t := k] - {t};
  }

  /** `z` picks one of the first `k` rows, with the key `v`, and is otherwise one of `rest`. */
  ghost predicate PicksRow(db: Star.Database, e: Star.TableColumn, k: nat, v: int, rest: seq<Tuple>, z: Tuple) {
    e.table in z && z[e.table] < k && RowHas(db, e, z[e.table], v) && z - {e.table} in rest
  }

  lemma PicksStep(db: Star.Database, e: Star.TableColumn, k: nat, v: int, rest: seq<Tuple>, z: Tuple)
    requires 0 < k && Lacking(rest, e.table)
    ensures PicksRow(db, e, k, v, rest, z) <==>
            PicksRow(db, e, k - 1, v, rest, z) || (RowHas(db, e, k - 1, v) && z in Extend(rest, e.table, k - 1))
  {
    ExtendWithout(rest, e.table, k - 1, z);
  }

  lemma {:induction false} CombineMember(db: Star.Database, e: Star.TableColumn, k: nat, v: int, rest: seq<Tuple>, z: Tuple)
    requires k <= |Lookup(db, e.table)| && Lacking(rest, e.table)
    ensures z in CombineTo(db, e, k, v, rest) <==> PicksRow(db, e, k, v, rest, z)
  {
    if k > 0 {
      CombineMember(db, e, k - 1, v, rest, z);
      PicksStep(db, e, k, v, rest, z);
      CombineStep(db, e, k, v, rest, z);
    }
  }

  lemma CombineStep(db: Star.Database, e: Star.TableColumn, k: nat, v: int, rest: seq<Tuple>, z: Tuple)
    requires 0 < k <= |Lookup(db, e.table)|
    ensures z in CombineTo(db, e, k, v, rest) <==>
            z in CombineTo(db, e, k - 1, v, rest) || (RowHas(db, e, k - 1, v) && z in Extend(rest, e.table, k - 1))
  {
  }

  lemma EarlierRows(db: Star.Database, e: Star.TableColumn, k: nat, v: int, rest: seq<Tuple>)
    requires k <= |Lookup(db, e.table)| && Lacking(rest, e.table)
    ensures forall z :: z in CombineTo(db, e, k, v, rest) ==> z !in Extend(rest, e.table, k)
  {
    forall z | z in CombineTo(db, e, k, v, rest) ensures z !in Extend(rest, e.table, k) {
      CombineMember(db, e, k, v, rest, z);
      ExtendWithout(rest, e.table, k, z);
    }
  }

  lemma DistinctMore(a: seq<Tuple>, b: seq<Tuple>, more: bool)
    requires Distinct(a) && Distinct(b) && forall z :: z in a ==> z !in b
    ensures Distinct(a + if more then b else [])
  {
    if more {
      DistinctAppend(a, b);
    } else {
      assert a + [] == a;
    }
  }

  lemma {:induction false} CombineDistinct(db: Star.Database, e: Star.TableColumn, k: nat, v: int, rest: seq<Tuple>)
    requires k <= |Lookup(db, e.table)| && Lacking(rest, e.table) && Distinct(rest)
    ensures Distinct(CombineTo(db, e, k, v, rest))
  {
    if k > 0 {
      CombineDistinct(db, e, k - 1, v, rest);
      NextRowDistinct(db, e, k, v, rest);
    }
  }

  lemma NextRowDistinct(db: Star.Database, e: Star.TableColumn, k: nat, v: int, rest: seq<Tuple>)
    requires 0 < k <= |Lookup(db, e.table)| && Lacking(rest, e.table) && Distinct(rest) && Distinct(CombineTo(db, e, k - 1, v, rest))
    ensures Distinct(CombineTo(db, e, k, v, rest))
  {
    ExtendDistinct(rest, e.table, k - 1);
    EarlierRows(db, e, k - 1, v, rest);
    DistinctMore(CombineTo(db, e, k - 1, v, rest), Extend(rest, e.table, k - 1), RowHas(db, e, k - 1, v));
  }

  lemma TablesStep(sub: seq<Star.TableColumn>)
    requires sub != [] && Star.DistinctTables(sub)
    ensures TableSet(sub) == {sub[0].table} + TableSet(sub[1..]) && sub[0].table !in TableSet(sub[1..])
    ensures Star.DistinctTables(sub[1..])
  {
    assert sub == [sub[0]] + sub[1..];
    forall e | e in sub[1..] ensures e.table != sub[0].table {
      var i :| 0 <= i < |sub| - 1 && sub[1..][i] == e;
      assert sub[i + 1] == e;
    }
  }

  lemma AllHaveStep(db: Star.Database, sub: seq<Star.TableColumn>, z: Tuple, v: int)
    requires sub != [] && Star.DistinctTables(sub)
    ensures AllHave(db, sub, z, v) <==>
            sub[0].table in z && RowHas(db, sub[0], z[sub[0].table], v) && AllHave(db, sub[1..], z - {sub[0].table}, v)
  {
    TablesStep(sub);
    assert sub == [sub[0]] + sub[1..];
    forall e | e in sub[1..] ensures e.table != sub[0].table {
      assert e.table in TableSet(sub[1..]);
    }
  }

  lemma {:induction false} CombinationsList(db: Star.Database, sub: seq<Star.TableColumn>, v: int)
    requires Star.DistinctTables(sub)
    ensures Distinct(Combinations(db, sub, v))
    ensures forall z :: z in Combinations(db, sub, v) <==> z.Keys == TableSet(sub) && AllHave(db, sub, z, v)
  {
    if sub == [] {
      assert Combinations(db, sub, v) == [map[]];
      assert forall z: Tuple :: z.Keys == {} ==> z == map[];
    } else {
      var t, n, rest := sub[0].table, |Lookup(db, sub[0].table)|, Combinations(db, sub[1..], v);
      TablesStep(sub);
      CombinationsList(db, sub[1..], v);
      CombineDistinct(db, sub[0], n, v, rest);
      forall z: Tuple ensures z in Combinations(db, sub, v) <==> z.Keys == TableSet(sub) && AllHave(db, sub, z, v) {
        CombineMember(db, sub[0], n, v, rest, z);
        AllHaveStep(db, sub, z, v);
        assert (z - {t}).Keys == z.Keys - {t};
      }
    }
  }

  ghost predicate SharesKey(db: Star.Database, sub: seq<Star.TableColumn>, vals: seq<int>, z: Tuple) {
    exists v :: v in vals && AllHave(db, sub, z, v)
  }

  lemma OneKey(db: Star.Database, sub: seq<Star.TableColumn>, z: Tuple, v: int, w: int)
    requires sub != [] && AllHave(db, sub, z, v) && AllHave(db, sub, z, w)
    ensures v == w
  {
    assert sub[0] in sub;
  }

  lemma FirstKeyOnly(db: Star.Database, sub: seq<Star.TableColumn>, vals: seq<int>, z: Tuple)
    requires sub != [] && vals != [] && Distinct(vals) && AllHave(db, sub, z, vals[0])
    ensures !SharesKey(db, sub, vals[1..], z)
  {
    forall w | w in vals[1..] ensures !AllHave(db, sub, z, w) {
      NotFirst(vals, w);
      if AllHave(db, sub, z, w) {
        OneKey(db, sub, z, vals[0], w);
      }
    }
  }

  lemma NotFirst(vals: seq<int>, w: int)
    requires vals != [] && Distinct(vals) && w in vals[1..]
    ensures w != vals[0]
  {
    var i :| 0 <= i < |vals| - 1 && vals[1..][i] == w;
    assert vals[i + 1] == w;
  }

  lemma {:induction false} StarList(db: Star.Database, sub: seq<Star.TableColumn>, vals: seq<int>)
    requires sub != [] && Star.DistinctTables(sub) && Distinct(vals)
    ensures Distinct(StarResults(db, sub, vals))
    ensures forall z :: z in StarResults(db, sub, vals) <==> z.Keys == TableSet(sub) && SharesKey(db, sub, vals, z)
  {
    if vals != [] {
      var a, b := Combinations(db, sub, vals[0]), StarResults(db, sub, vals[1..]);
      CombinationsList(db, sub, vals[0]);
      StarList(db, sub, vals[1..]);
      forall z | z in a ensures z !in b {
        FirstKeyOnly(db, sub, vals, z);
      }
      DistinctAppend(a, b);
      forall z: Tuple ensures z in a + b <==> z.Keys == TableSet(sub) && SharesKey(db, sub, vals, z) {
        KeyStep(db, sub, vals, z);
      }
    }
  }

  lemma KeyStep(db: Star.Database, sub: seq<Star.TableColumn>, vals: seq<int>, z: Tuple)
    requires vals != []
    ensures SharesKey(db, sub, vals, z) <==> AllHave(db, sub, z, vals[0]) || SharesKey(db, sub, vals[1..], z)
  {
    assert vals == [vals[0]] + vals[1..];
    if AllHave(db, sub, z, vals[0]) {
      assert vals[0] in vals;
    }
    if SharesKey(db, sub, vals[1..], z) {
      var v :| v in vals[1..] && AllHave(db, sub, z, v);
      assert v in vals;
    }
  }

  // ---- The results of a merge ----

  function Part(z: Tuple, tables: set<string>): Tuple {
    map t | t in z && t in tables :: z[t]
  }

  ghost predicate AllOver(xs: seq<Tuple>, tables: set<string>) {
    forall x :: x in xs ==> x.Keys == tables
  }

  lemma Parts(x: Tuple, y: Tuple, ts: set<string>, us: set<string>)
    requires x.Keys == ts && y.Keys == us && Agree(x, y)
    ensures Part(x + y, ts) == x && Part(x + y, us) == y && (x + y).Keys == ts + us
  {
  }

  lemma PartsBack(z: Tuple, ts: set<string>, us: set<string>)
    requires z.Keys == ts + us
    ensures z == Part(z, ts) + Part(z, us) && Part(z, ts).Keys == ts && Part(z, us).Keys == us
  {
  }

  lemma {:induction false} MatchesMember(x: Tuple, right: seq<Tuple>, ts: set<string>, us: set<string>, z: Tuple)
    requires x.Keys == ts && AllOver(right, us)
    ensures z in Matches(x, right) <==> z.Keys == ts + us && Part(z, ts) == x && Part(z, us) in right
  {
    if right != [] {
      var k := |right| - 1;
      assert right == right[..k] + [right[k]];
      assert right[k] in right;
      MatchesMember(x, right[..k], ts, us, z);
      OneMatch(x, right[k], z, ts, us);
    }
  }

  lemma OneMatch(x: Tuple, y: Tuple, z: Tuple, ts: set<string>, us: set<string>)
    requires x.Keys == ts && y.Keys == us
    ensures (Agree(x, y) && z == x + y) <==> (z.Keys == ts + us && Part(z, ts) == x && Part(z, us) == y)
  {
    if Agree(x, y) {
      Parts(x, y, ts, us);
    }
    if z.Keys == ts + us && Part(z, ts) == x && Part(z, us) == y {
      PartsBack(z, ts, us);
      forall t | t in x && t in y ensures x[t] == y[t] {
        assert Part(z, ts)[t] == z[t] == Part(z, us)[t];
      }
    }
  }

  lemma {:induction false} MatchesDistinct(x: Tuple, right: seq<Tuple>, ts: set<string>, us: set<string>)
    requires x.Keys == ts && AllOver(right, us) && Distinct(right)
    ensures Distinct(Matches(x, right))
  {
    if right != [] {
      var k := |right| - 1;
      var before, y := Matches(x, right[..k]), right[k];
      assert right == right[..k] + [y];
      assert y in right && y !in right[..k];
      MatchesDistinct(x, right[..k], ts, us);
      MatchesMember(x, right[..k], ts, us, x + y);
      OneMatch(x, y, x + y, ts, us);
      if Agree(x, y) {
        DistinctAppend(before, [x + y]);
      }
    }
  }

  lemma {:induction false} JoinMember(left: seq<Tuple>, right: seq<Tuple>, ts: set<string>, us: set<string>, z: Tuple)
    requires AllOver(left, ts) && AllOver(right, us)
    ensures z in Join(left, right) <==> z.Keys == ts + us && Part(z, ts) in left && Part(z, us) in right
  {
    if left != [] {
      var k := |left| - 1;
      assert left == left[..k] + [left[k]];
      assert left[k] in left;
      JoinMember(left[..k], right, ts, us, z);
      MatchesMember(left[k], right, ts, us, z);
    }
  }

  lemma {:induction false} JoinDistinct(left: seq<Tuple>, right: seq<Tuple>, ts: set<string>, us: set<string>)
    requires AllOver(left, ts) && AllOver(right, us) && Distinct(left) && Distinct(right)
    ensures Distinct(Join(left, right))
  {
    if left != [] {
      var k := |left| - 1;
      var before, here := Join(left[..k], right), Matches(left[k], right);
      assert left == left[..k] + [left[k]];
      assert left[k] in left && left[k] !in left[..k];
      JoinDistinct(left[..k], right, ts, us);
      MatchesDistinct(left[k], right, ts, us);
      forall z | z in before ensures z !in here {
        JoinMember(left[..k], right, ts, us, z);
        MatchesMember(left[k], right, ts, us, z);
      }
      DistinctAppend(before, here);
    }
  }

  // ---- All pairs ----

  function Pairs(x: Tuple, right: seq<Tuple>): (r: seq<Tuple>)
    ensures |r| == |right|
  {
    if right == [] then [] else Pairs(x, right[..|right| - 1]) + [x + right[|right| - 1]]
  }

  function Cross(left: seq<Tuple>, right: seq<Tuple>): seq<Tuple> {
    if left == [] then [] else Cross(left[..|left| - 1], right) + Pairs(left[|left| - 1], right)
  }

  lemma {:induction false} CrossSize(left: seq<Tuple>, right: seq<Tuple>)
    ensures |Cross(left, right)| == |left| * |right|
  {
    if left != [] {
      CrossSize(left[..|left| - 1], right);
      OneMore(|left| - 1, |right|);
    }
  }

  lemma OnePair(x: Tuple, y: Tuple, z: Tuple, ts: set<string>, us: set<string>)
    requires x.Keys == ts && y.Keys == us && ts * us == {}
    ensures z == x + y <==> z.Keys == ts + us && Part(z, ts) == x && Part(z, us) == y
  {
    assert Part(x + y, ts) == x && Part(x + y, us) == y by {
      forall t | t in ts ensures t !in us {
        assert t in us ==> t in ts * us;
      }
    }
    if z.Keys == ts + us && Part(z, ts) == x && Part(z, us) == y {
      PartsBack(z, ts, us);
    }
  }

  lemma {:induction false} PairsMember(x: Tuple, right: seq<Tuple>, ts: set<string>, us: set<string>, z: Tuple)
    requires x.Keys == ts && AllOver(right, us) && ts * us == {}
    ensures z in Pairs(x, right) <==> z.Keys == ts + us && Part(z, ts) == x && Part(z, us) in right
  {
    if right != [] {
      var k := |right| - 1;
      assert right == right[..k] + [right[k]];
      assert right[k] in right;
      PairsMember(x, right[..k], ts, us, z);
      OnePair(x, right[k], z, ts, us);
    }
  }

  lemma {:induction false} PairsDistinct(x: Tuple, right: seq<Tuple>, ts: set<string>, us: set<string>)
    requires x.Keys == ts && AllOver(right, us) && ts * us == {} && Distinct(right)
    ensures Distinct(Pairs(x, right))
  {
    if right != [] {
      var k := |right| - 1;
      var y := right[k];
      assert right == right[..k] + [y];
      assert y in right && y !in right[..k];
      PairsDistinct(x, right[..k], ts, us);
      PairsMember(x, right[..k], ts, us, x + y);
      OnePair(x, y, x + y, ts, us);
      DistinctAppend(Pairs(x, right[..k]), [x + y]);
    }
  }

  lemma {:induction false} CrossMember(left: seq<Tuple>, right: seq<Tuple>, ts: set<string>, us: set<string>, z: Tuple)
    requires AllOver(left, ts) && AllOver(right, us) && ts * us == {}
    ensures z in Cross(left, right) <==> z.Keys == ts + us && Part(z, ts) in left && Part(z, us) in right
  {
    if left != [] {
      var k := |left| - 1;
      assert left == left[..k] + [left[k]];
      assert left[k] in left;
      CrossMember(left[..k], right, ts, us, z);
      PairsMember(left[k], right, ts, us, z);
    }
  }

  lemma {:induction false} CrossDistinct(left: seq<Tuple>, right: seq<Tuple>, ts: set<string>, us: set<string>)
    requires AllOver(left, ts) && AllOver(right, us) && ts * us == {} && Distinct(left) && Distinct(right)
    ensures Distinct(Cross(left, right))
  {
    if left != [] {
      var k := |left| - 1;
      var before, here := Cross(left[..k], right), Pairs(left[k], right);
      assert left == left[..k] + [left[k]];
      assert left[k] in left && left[k] !in left[..k];
      CrossDistinct(left[..k], right, ts, us);
      PairsDistinct(left[k], right, ts, us);
      forall z | z in before ensures z !in here {
        CrossMember(left[..k], right, ts, us, z);
        PairsMember(left[k], right, ts, us, z);
      }
      DistinctAppend(before, here);
    }
  }

  // ---- What the query of a plan asks for ----

  /** The WHERE clause of a plan: the conditions of all its stars. */
  function PlanConditions(plan: Plan): seq<Conjunct> {
    match plan
    case StarPlan(_, sub, _) => if sub == [] then [] else Star.StarConditions(sub[0], sub)
    case MergePlan(l, r, _) => PlanConditions(l) + PlanConditions(r)
  }

  /** In every star of the plan the rows of `z` agree on a key. */
  ghost predicate PlanHolds(db: Star.Database, plan: Plan, z: Tuple) {
    match plan
    case StarPlan(_, sub, _) => exists v :: AllHave(db, sub, z, v)
    case MergePlan(l, r, _) => PlanHolds(db, l, z) && PlanHolds(db, r, z)
  }

  lemma AllHavePart(db: Star.Database, sub: seq<Star.TableColumn>, z: Tuple, v: int, tables: set<string>)
    requires TableSet(sub) <= tables
    ensures AllHave(db, sub, Part(z, tables), v) <==> AllHave(db, sub, z, v)
  {
    forall e | e in sub ensures e.table in tables {
      assert e.table in TableSet(sub);
    }
  }

  lemma {:induction false} PlanHoldsPart(db: Star.Database, plan: Plan, z: Tuple, tables: set<string>)
    requires PlanTables(plan) <= tables
    ensures PlanHolds(db, plan, Part(z, tables)) <==> PlanHolds(db, plan, z)
  {
    match plan
    case StarPlan(_, sub, _) =>
      forall v ensures AllHave(db, sub, Part(z, tables), v) <==> AllHave(db, sub, z, v) {
        AllHavePart(db, sub, z, v, tables);
      }
    case MergePlan(l, r, _) =>
      PlanHoldsPart(db, l, z, tables);
      PlanHoldsPart(db, r, z, tables);
  }

  /** The results of a plan are listed once each, and they are the choices of rows on which all its stars agree. */
  lemma {:induction false} ResultsList(db: Star.Database, plan: Plan)
    requires PlanOk(db, plan)
    ensures Distinct(Results(db, plan))
    ensures forall z :: z in Results(db, plan) <==> z.Keys == PlanTables(plan) && PlanHolds(db, plan, z)
  {
    match plan
    case StarPlan(entries, sub, cn) =>
      Star.PivotDistinct(Star.UnionAll(db, entries));
      StarList(db, sub, Values(db, entries));
      forall z | PlanHolds(db, plan, z) ensures SharesKey(db, sub, Values(db, entries), z) {
        var v :| AllHave(db, sub, z, v);
        KeyListed(db, entries, sub, cn, z, v);
      }
    case MergePlan(l, r, table) =>
      ResultsList(db, l);
      ResultsList(db, r);
      var ts, us := PlanTables(l), PlanTables(r);
      JoinDistinct(Results(db, l), Results(db, r), ts, us);
      forall z ensures z in Results(db, plan) <==> z.Keys == ts + us && PlanHolds(db, plan, z) {
        JoinMember(Results(db, l), Results(db, r), ts, us, z);
        PlanHoldsPart(db, l, z, ts);
        PlanHoldsPart(db, r, z, us);
        if z.Keys == ts + us {
          PartsBack(z, ts, us);
        }
      }
  }

  lemma KeyListed(db: Star.Database, entries: seq<Star.TableColumn>, sub: seq<Star.TableColumn>, cn: seq<(Star.CountVector, nat)>,
                  z: Tuple, v: int)
    requires Edges.Source(db, entries, sub, cn) && AllHave(db, sub, z, v)
    ensures v in Values(db, entries)
  {
    assert sub[0] in sub;
    var rows := Lookup(db, sub[0].table);
    MultiplicityPositive(rows, Star.CellOf(sub[0].column), rows[z[sub[0].table]]);
    ValuesComplete(db, entries, sub, cn, 0, v);
  }

  lemma CellAt(db: Star.Database, e: Star.TableColumn, z: Tuple, v: int)
    requires e.table in z && 0 <= z[e.table] < |Lookup(db, e.table)|
    ensures Fetch(EnvOf(db, z), Ref(e.table, e.column)) == Val(v) <==> RowHas(db, e, z[e.table], v)
  {
  }

  /** Every table of the plan has an existing row in `z`. */
  ghost predicate Rowed(db: Star.Database, tables: set<string>, z: Tuple) {
    forall t :: t in tables ==> t in z && 0 <= z[t] < |Lookup(db, t)|
  }

  lemma StarConditionsHold(db: Star.Database, sub: seq<Star.TableColumn>, z: Tuple)
    requires sub != [] && Rowed(db, TableSet(sub), z)
    ensures Holds(Star.StarConditions(sub[0], sub), EnvOf(db, z)) <==> exists v :: AllHave(db, sub, z, v)
  {
    var env, anchor := EnvOf(db, z), Ref(sub[0].table, sub[0].column);
    forall e, v | e in sub ensures Fetch(env, Ref(e.table, e.column)) == Val(v) <==> RowHas(db, e, z[e.table], v) {
      assert e.table in TableSet(sub);
      CellAt(db, e, z, v);
    }
    assert sub[0] in sub;
    match Fetch(env, anchor)
    case Null =>
      assert Eval(Star.StarConditions(sub[0], sub)[0], env) == Unknown;
    case Val(v) =>
      Star.StarWhere(sub, env, v);
      Star.AllAtStep(sub, env, v);
      forall w | AllHave(db, sub, z, w) ensures w == v {
        assert RowHas(db, sub[0], z[sub[0].table], w);
      }
      assert Star.AllAt(sub, env, v) <==> AllHave(db, sub, z, v) by {
        forall i | 0 <= i < |sub| ensures sub[i] in sub {
        }
        forall e | e in sub ensures exists i :: 0 <= i < |sub| && sub[i] == e {
        }
      }
  }

  lemma {:induction false} PlanConditionsHold(db: Star.Database, plan: Plan, z: Tuple)
    requires PlanOk(db, plan) && Rowed(db, PlanTables(plan), z)
    ensures Holds(PlanConditions(plan), EnvOf(db, z)) <==> PlanHolds(db, plan, z)
  {
    match plan
    case StarPlan(_, sub, _) =>
      StarConditionsHold(db, sub, z);
    case MergePlan(l, r, _) =>
      PlanConditionsHold(db, l, z);
      PlanConditionsHold(db, r, z);
      HoldsAppend(PlanConditions(l), PlanConditions(r), EnvOf(db, z));
  }

  lemma {:induction false} PlanHoldsRowed(db: Star.Database, plan: Plan, z: Tuple)
    requires PlanHolds(db, plan, z)
    ensures Rowed(db, PlanTables(plan), z)
  {
    match plan
    case StarPlan(_, sub, _) =>
      var v :| AllHave(db, sub, z, v);
      forall t | t in TableSet(sub) ensures t in z && 0 <= z[t] < |Lookup(db, t)| {
        var e :| e in sub && e.table == t;
        assert RowHas(db, e, z[e.table], v);
      }
    case MergePlan(l, r, _) =>
      PlanHoldsRowed(db, l, z);
      PlanHoldsRowed(db, r, z);
  }

  lemma CompletedIsRowed(db: Star.Database, tables: seq<string>, names: set<string>, z: Tuple)
    requires Names(tables) == names
    ensures Completed(z, map[], tables, db) <==> z.Keys == names && Rowed(db, names, z)
  {
    assert forall t :: t in tables <==> t in names;
  }

  /** `z` is among the combinations of rows of `names` that satisfy the conditions. */
  ghost predicate Counts(db: Star.Database, names: set<string>, conds: seq<Conjunct>, z: Tuple) {
    z.Keys == names && Rowed(db, names, z) && Holds(conds, EnvOf(db, z))
  }

  /** A list of all these combinations, each once, is as long as `COUNT(*)` says, whatever the order of the tables. */
  lemma ListCount(db: Star.Database, tables: seq<string>, conds: seq<Conjunct>, results: seq<Tuple>)
    requires Distinct(tables) && Distinct(results)
    requires forall z :: z in results <==> Counts(db, Names(tables), conds, z)
    ensures |results| == Count(tables, db, map[], Where(conds))
  {
    var p := Where(conds);
    SolutionsDistinct(tables, db, map[], p);
    forall z ensures z in results <==> z in Solutions(tables, db, map[], p) {
      SolutionsMember(tables, db, map[], p, z);
      CompletedIsRowed(db, tables, Names(tables), z);
    }
    SameLength(results, Solutions(tables, db, map[], p));
    SolutionsCount(tables, db, map[], p);
    assert EnvOf(db, map[]) == map[];
  }

  lemma HoldsIsCounts(db: Star.Database, plan: Plan, z: Tuple)
    requires PlanOk(db, plan) && z.Keys == PlanTables(plan)
    ensures PlanHolds(db, plan, z) <==> Counts(db, PlanTables(plan), PlanConditions(plan), z)
  {
    if PlanHolds(db, plan, z) {
      PlanHoldsRowed(db, plan, z);
    }
    if Rowed(db, PlanTables(plan), z) {
      PlanConditionsHold(db, plan, z);
    }
  }

  /**
   The results of a plan are as many as `COUNT(*)` gives for the query over its tables, in any order, with the
   conditions of all its stars.
   */
  lemma PlanCount(db: Star.Database, plan: Plan, tables: seq<string>)
    requires PlanOk(db, plan) && Distinct(tables) && Names(tables) == PlanTables(plan)
    ensures |Results(db, plan)| == Count(tables, db, map[], Where(PlanConditions(plan)))
  {
    ResultsList(db, plan);
    forall z ensures z in Results(db, plan) <==> Counts(db, Names(tables), PlanConditions(plan), z) {
      if z.Keys == PlanTables(plan) {
        HoldsIsCounts(db, plan, z);
      }
    }
    ListCount(db, tables, PlanConditions(plan), Results(db, plan));
  }

  /** So what merging arrives at is never below what the database would count. */
  lemma NeverBelowCount(db: Star.Database, plan: Plan, tables: seq<string>, p: real)
    requires PlanOk(db, plan) && Distinct(tables) && Names(tables) == PlanTables(plan)
    ensures Count(tables, db, map[], Where(PlanConditions(plan))) as real <= Estimate(db, plan, p).card
  {
    PlanCount(db, plan, tables);
    NeverUnderestimates(db, plan, p);
  }
}

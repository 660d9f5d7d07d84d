/** Join trees of stars: every estimate that is built by merging star statistics bounds the true join. */
module StarJoins {
  import opened Sums
  import opened Sql
  import opened RankBounds
  import opened DegreeSequences
  import opened CardLimit
  import opened MergeChunks
  import opened MergeRows
  import opened MergeBounds
  import R = RealSums
  import Star = StarCollection
  import Single = StarBounds
  import Collected = StarSummary
  import Edges = StarEdges

  // ---- The results of a star ----

  function Extend(xs: seq<Tuple>, t: string, k: int): (ys: seq<Tuple>)
    ensures |ys| == |xs| && forall i :: 0 <= i < |xs| ==> ys[i] == xs[i][t := k]
  {
    if xs == [] then [] else [xs[0][t := k]] + Extend(xs[1..], t, k)
  }

  predicate RowHas(db: Star.Database, e: Star.TableColumn, r: int, v: int) {
    0 <= r < |Lookup(db, e.table)| && Get(Lookup(db, e.table)[r], e.column) == Val(v)
  }

  /** The first `k` rows of the first table that carry `v`, each with all combinations of the others. */
  function CombineTo(db: Star.Database, e: Star.TableColumn, k: nat, v: int, rest: seq<Tuple>): seq<Tuple>
    requires k <= |Lookup(db, e.table)|
  {
    if k == 0 then []
    else CombineTo(db, e, k - 1, v, rest) + if RowHas(db, e, k - 1, v) then Extend(rest, e.table, k - 1) else []
  }

  /** All ways to pick a row with key `v` from every table. */
  function Combinations(db: Star.Database, sub: seq<Star.TableColumn>, v: int): seq<Tuple> {
    if sub == [] then [map[]]
    else CombineTo(db, sub[0], |Lookup(db, sub[0].table)|, v, Combinations(db, sub[1..], v))
  }

  /** The star join, value by value. */
  function StarResults(db: Star.Database, sub: seq<Star.TableColumn>, vals: seq<int>): seq<Tuple> {
    if vals == [] then [] else Combinations(db, sub, vals[0]) + StarResults(db, sub, vals[1..])
  }

  function SizesOf(db: Star.Database): string -> nat {
    t => |Lookup(db, t)|
  }

  // ---- How often a row occurs ----

  lemma {:induction false} ExtendOwn(xs: seq<Tuple>, t: string, k: int, r: int)
    ensures Multiplicity(Extend(xs, t, k), RowAt(t), r) == if k == r then |xs| else 0
  {
    if xs != [] {
      ExtendOwn(xs[1..], t, k, r);
      assert Extend(xs, t, k)[1..] == Extend(xs[1..], t, k);
    }
  }

  lemma {:induction false} ExtendOther(xs: seq<Tuple>, t: string, k: int, u: string, r: int)
    requires t != u
    ensures Multiplicity(Extend(xs, t, k), RowAt(u), r) == Multiplicity(xs, RowAt(u), r)
  {
    if xs != [] {
      ExtendOther(xs[1..], t, k, u, r);
      assert Extend(xs, t, k)[1..] == Extend(xs[1..], t, k);
    }
  }

  /** How many of the first `k` rows carry `v`. */
  function CarryTo(db: Star.Database, e: Star.TableColumn, k: nat, v: int): nat
    requires k <= |Lookup(db, e.table)|
  {
    if k == 0 then 0 else CarryTo(db, e, k - 1, v) + if RowHas(db, e, k - 1, v) then 1 else 0
  }

  lemma {:induction false} CarryIsDegree(db: Star.Database, e: Star.TableColumn, k: nat, v: int)
    requires k <= |Lookup(db, e.table)|
    ensures Star.Degree(db, e, v) == CarryTo(db, e, k, v) + Multiplicity(Lookup(db, e.table)[k..], Star.CellOf(e.column), Val(v))
  {
    var rows := Lookup(db, e.table);
    if k == 0 {
      assert rows[0..] == rows;
    } else {
      CarryIsDegree(db, e, k - 1, v);
      assert rows[k - 1..][1..] == rows[k..];
    }
  }

  lemma {:induction false} CombineOwn(db: Star.Database, e: Star.TableColumn, k: nat, v: int, rest: seq<Tuple>, r: int)
    requires k <= |Lookup(db, e.table)|
    ensures Multiplicity(CombineTo(db, e, k, v, rest), RowAt(e.table), r) == if r < k && RowHas(db, e, r, v) then |rest| else 0
  {
    if k > 0 {
      CombineOwn(db, e, k - 1, v, rest, r);
      ExtendOwn(rest, e.table, k - 1, r);
      MultiplicityAppend(CombineTo(db, e, k - 1, v, rest),
                         if RowHas(db, e, k - 1, v) then Extend(rest, e.table, k - 1) else [], RowAt(e.table), r);
    }
  }

  lemma {:induction false} CombineOther(db: Star.Database, e: Star.TableColumn, k: nat, v: int, rest: seq<Tuple>, u: string, r: int)
    requires k <= |Lookup(db, e.table)| && u != e.table
    ensures Multiplicity(CombineTo(db, e, k, v, rest), RowAt(u), r) == CarryTo(db, e, k, v) * Multiplicity(rest, RowAt(u), r)
  {
    if k > 0 {
      CombineOther(db, e, k - 1, v, rest, u, r);
      ExtendOther(rest, e.table, k - 1, u, r);
      MultiplicityAppend(CombineTo(db, e, k - 1, v, rest),
                         if RowHas(db, e, k - 1, v) then Extend(rest, e.table, k - 1) else [], RowAt(u), r);
      OneMore(CarryTo(db, e, k - 1, v), Multiplicity(rest, RowAt(u), r));
    }
  }

  lemma OneMore(c: nat, m: nat)
    ensures (c + 1) * m == c * m + m
  {
  }

  lemma {:induction false} CombineSize(db: Star.Database, e: Star.TableColumn, k: nat, v: int, rest: seq<Tuple>)
    requires k <= |Lookup(db, e.table)|
    ensures |CombineTo(db, e, k, v, rest)| == CarryTo(db, e, k, v) * |rest|
  {
    if k > 0 {
      CombineSize(db, e, k - 1, v, rest);
      OneMore(CarryTo(db, e, k - 1, v), |rest|);
    }
  }

  lemma {:induction false} CombinationsSize(db: Star.Database, sub: seq<Star.TableColumn>, v: int)
    ensures |Combinations(db, sub, v)| == Star.DegreeProduct(db, sub, v)
  {
    if sub != [] {
      var n := |Lookup(db, sub[0].table)|;
      CombinationsSize(db, sub[1..], v);
      CombineSize(db, sub[0], n, v, Combinations(db, sub[1..], v));
      CarryAll(db, sub[0], v);
    }
  }

  lemma OthersProduct(db: Star.Database, sub: seq<Star.TableColumn>, v: int, i: nat)
    requires 0 < i < |sub|
    ensures Star.DegreeProduct(db, Edges.Others(sub, i), v) ==
            Star.Degree(db, sub[0], v) * Star.DegreeProduct(db, Edges.Others(sub[1..], i - 1), v)
  {
    assert Edges.Others(sub, i)[0] == sub[0] && Edges.Others(sub, i)[1..] == Edges.Others(sub[1..], i - 1);
  }

  lemma CarryAll(db: Star.Database, e: Star.TableColumn, v: int)
    ensures CarryTo(db, e, |Lookup(db, e.table)|, v) == Star.Degree(db, e, v)
  {
    var n := |Lookup(db, e.table)|;
    CarryIsDegree(db, e, n, v);
    assert Multiplicity(Lookup(db, e.table)[n..], Star.CellOf(e.column), Val(v)) == 0;
  }

  /** A row with key `v` occurs with every combination of the other tables; a row without it does not occur. */
  lemma {:induction false} CombinationsRow(db: Star.Database, sub: seq<Star.TableColumn>, v: int, i: nat, r: int)
    requires Star.DistinctTables(sub) && i < |sub|
    ensures Multiplicity(Combinations(db, sub, v), RowAt(sub[i].table), r) ==
            if RowHas(db, sub[i], r, v) then Star.DegreeProduct(db, Edges.Others(sub, i), v) else 0
  {
    var n, rest := |Lookup(db, sub[0].table)|, Combinations(db, sub[1..], v);
    if i == 0 {
      CombineOwn(db, sub[0], n, v, rest, r);
      CombinationsSize(db, sub[1..], v);
      assert Edges.Others(sub, 0) == sub[1..];
    } else {
      CombinationsRow(db, sub[1..], v, i - 1, r);
      OtherRow(db, sub, v, i, r, Multiplicity(rest, RowAt(sub[i].table), r));
    }
  }

  lemma OtherRow(db: Star.Database, sub: seq<Star.TableColumn>, v: int, i: nat, r: int, m: nat)
    requires Star.DistinctTables(sub) && 0 < i < |sub|
    requires m == Multiplicity(Combinations(db, sub[1..], v), RowAt(sub[i].table), r)
    requires m == if RowHas(db, sub[i], r, v) then Star.DegreeProduct(db, Edges.Others(sub[1..], i - 1), v) else 0
    ensures Multiplicity(Combinations(db, sub, v), RowAt(sub[i].table), r) ==
            if RowHas(db, sub[i], r, v) then Star.DegreeProduct(db, Edges.Others(sub, i), v) else 0
  {
    CombineOther(db, sub[0], |Lookup(db, sub[0].table)|, v, Combinations(db, sub[1..], v), sub[i].table, r);
    CarryAll(db, sub[0], v);
    OthersProduct(db, sub, v, i);
  }

  lemma {:induction false} ResultsRow(db: Star.Database, sub: seq<Star.TableColumn>, vals: seq<int>, i: nat, r: int)
    requires Star.DistinctTables(sub) && i < |sub| && Distinct(vals) && 0 <= r < |Lookup(db, sub[i].table)|
    ensures Multiplicity(StarResults(db, sub, vals), RowAt(sub[i].table), r) ==
            match Get(Lookup(db, sub[i].table)[r], sub[i].column)
            case Null => 0
            case Val(v) => if v in vals then Star.DegreeProduct(db, Edges.Others(sub, i), v) else 0
  {
    if vals != [] {
      ResultsRow(db, sub, vals[1..], i, r);
      CombinationsRow(db, sub, vals[0], i, r);
      MultiplicityAppend(Combinations(db, sub, vals[0]), StarResults(db, sub, vals[1..]), RowAt(sub[i].table), r);
    }
  }

  /** The number of results is the size of the star join. */
  lemma {:induction false} ResultsTotal(db: Star.Database, sub: seq<Star.TableColumn>, vals: seq<int>)
    ensures |StarResults(db, sub, vals)| == Total(vals, Star.DegreeProducts(db, sub))
  {
    if vals != [] {
      ResultsTotal(db, sub, vals[1..]);
      CombinationsSize(db, sub, vals[0]);
    }
  }

  // ---- Every result has a row of every table ----

  function TableSet(sub: seq<Star.TableColumn>): set<string> {
    set e | e in sub :: e.table
  }

  lemma {:induction false} CombineSized(db: Star.Database, e: Star.TableColumn, k: nat, v: int, rest: seq<Tuple>, tables: set<string>)
    requires k <= |Lookup(db, e.table)| && Sized(rest, tables, SizesOf(db))
    ensures Sized(CombineTo(db, e, k, v, rest), tables + {e.table}, SizesOf(db))
  {
    if k > 0 {
      CombineSized(db, e, k - 1, v, rest, tables);
      var more := Extend(rest, e.table, k - 1);
      forall i | 0 <= i < |more| ensures SizedTuple(more[i], tables + {e.table}, SizesOf(db)) {
        assert SizedTuple(rest[i], tables, SizesOf(db));
      }
      var before := CombineTo(db, e, k - 1, v, rest);
      var all := CombineTo(db, e, k, v, rest);
      forall i | 0 <= i < |all| ensures SizedTuple(all[i], tables + {e.table}, SizesOf(db)) {
        if i < |before| {
          assert all[i] == before[i];
        } else {
          assert all[i] == more[i - |before|];
        }
      }
    }
  }

  lemma {:induction false} CombinationsSized(db: Star.Database, sub: seq<Star.TableColumn>, v: int)
    ensures Sized(Combinations(db, sub, v), TableSet(sub), SizesOf(db))
  {
    if sub == [] {
      assert Combinations(db, sub, v) == [map[]];
    } else {
      CombinationsSized(db, sub[1..], v);
      CombineSized(db, sub[0], |Lookup(db, sub[0].table)|, v, Combinations(db, sub[1..], v), TableSet(sub[1..]));
      assert sub == [sub[0]] + sub[1..];
      assert TableSet(sub) == TableSet(sub[1..]) + {sub[0].table};
    }
  }

  lemma {:induction false} ResultsSized(db: Star.Database, sub: seq<Star.TableColumn>, vals: seq<int>)
    ensures Sized(StarResults(db, sub, vals), TableSet(sub), SizesOf(db))
  {
    if vals != [] {
      CombinationsSized(db, sub, vals[0]);
      ResultsSized(db, sub, vals[1..]);
      var a, b := Combinations(db, sub, vals[0]), StarResults(db, sub, vals[1..]);
      forall i | 0 <= i < |a + b| ensures SizedTuple((a + b)[i], TableSet(sub), SizesOf(db)) {
        assert (a + b)[i] == if i < |a| then a[i] else b[i - |a|];
      }
    }
  }

  // ---- A star's statistic bounds the star ----

  lemma EdgeItemsCounted(cn: Single.CountNum, tables: seq<string>, table: string)
    requires forall i :: 0 <= i < |cn| ==> cn[i].1 > 0
    ensures Counted(Collected.EdgeItems(cn, tables, table))
  {
    if cn != [] {
      EdgeItemsCounted(cn[1..], tables, table);
      var c := Single.CountOf(cn[0].0, table);
      if c > 0 {
        PositiveProduct(c, cn[0].1);
      }
    }
  }

  /** The finished sequence of the `i`-th table is a stored sequence. */
  lemma StarEdgeOk(db: Star.Database, entries: seq<Star.TableColumn>, sub: seq<Star.TableColumn>, cn: Single.CountNum, i: nat, p: real)
    requires Edges.Source(db, entries, sub, cn) && i < |sub|
    ensures Positive(Compress(Collected.EdgeItems(cn, Star.TableNames(sub), sub[i].table), p))
    ensures EdgeOk(Edges.EdgeBins(cn, sub, i, p))
  {
    var items, card := Collected.EdgeItems(cn, Star.TableNames(sub), sub[i].table), Collected.TotalCard(cn, Star.TableNames(sub));
    Edges.CountsOf(db, entries, cn);
    Edges.EdgeItemsWhole(cn, sub, i);
    forall k | 0 <= k < |cn| ensures cn[k].1 > 0 {
      assert cn[k] in cn;
    }
    EdgeItemsCounted(cn, Star.TableNames(sub), sub[i].table);
    CompressOk(items, p);
    Edges.CardExact(db, entries, sub, cn);
    assert card as real == IntReal(card);
    LimitKeepsOk(Compress(items, p), card as real);
  }

  /** The key values of an EqualSet. */
  function Values(db: Star.Database, entries: seq<Star.TableColumn>): seq<int> {
    Star.PivotValues(Star.UnionAll(db, entries))
  }

  lemma ValuesComplete(db: Star.Database, entries: seq<Star.TableColumn>, sub: seq<Star.TableColumn>, cn: Single.CountNum, i: nat, v: int)
    requires Edges.Source(db, entries, sub, cn) && i < |sub| && Star.Degree(db, sub[i], v) > 0
    ensures v in Values(db, entries)
  {
    assert sub[i] in entries;
    var j :| 0 <= j < |entries| && entries[j] == sub[i];
    Star.PivotComplete(db, entries, j, v);
  }

  /** The degrees of the rows in the list of results are those that the statistic was collected for. */
  lemma StarDegrees(db: Star.Database, entries: seq<Star.TableColumn>, sub: seq<Star.TableColumn>, cn: Single.CountNum, i: nat)
    requires Edges.Source(db, entries, sub, cn) && i < |sub|
    ensures Degrees(StarResults(db, sub, Values(db, entries)), RowAt(sub[i].table), |Lookup(db, sub[i].table)|) ==
            Edges.RowDegrees(db, sub, i)
  {
    var vals, rows := Values(db, entries), Lookup(db, sub[i].table);
    Star.PivotDistinct(Star.UnionAll(db, entries));
    var xs, ys := Degrees(StarResults(db, sub, vals), RowAt(sub[i].table), |rows|), Edges.RowDegrees(db, sub, i);
    forall r | 0 <= r < |rows| ensures xs[r] == ys[r] {
      ResultsRow(db, sub, vals, i, r);
      MultiplicityPositive(rows, Star.CellOf(sub[i].column), rows[r]);
      match Get(rows[r], sub[i].column)
      case Null =>
      case Val(v) => ValuesComplete(db, entries, sub, cn, i, v);
    }
  }

  /** The position of a table in a star. */
  function IndexOf(sub: seq<Star.TableColumn>, t: string): (i: nat)
    requires t in TableSet(sub)
    ensures i < |sub| && sub[i].table == t
  {
    if sub[0].table == t then 0
    else
      assert sub == [sub[0]] + sub[1..];
      1 + IndexOf(sub[1..], t)
  }

  /** The statistic of a star as collection leaves it. */
  ghost function StarSummaryOf(db: Star.Database, entries: seq<Star.TableColumn>, sub: seq<Star.TableColumn>, cn: Single.CountNum, p: real): (s: Summary)
    requires Edges.Source(db, entries, sub, cn)
    ensures SummaryOk(s) && SolidSummary(s) && s.tables == TableSet(sub)
  {
    Edges.CardExact(db, entries, sub, cn);
    Summary(Collected.TotalCard(cn, Star.TableNames(sub)) as real, TableSet(sub),
            map t | t in TableSet(sub) :: StarEdgeOf(db, entries, sub, cn, IndexOf(sub, t), p))
  }

  ghost function StarEdgeOf(db: Star.Database, entries: seq<Star.TableColumn>, sub: seq<Star.TableColumn>, cn: Single.CountNum, i: nat, p: real): (bins: seq<Bin>)
    requires Edges.Source(db, entries, sub, cn) && i < |sub|
    ensures EdgeOk(bins)
  {
    StarEdgeOk(db, entries, sub, cn, i, p);
    Edges.EdgeBins(cn, sub, i, p)
  }

  lemma StarBounded(db: Star.Database, entries: seq<Star.TableColumn>, sub: seq<Star.TableColumn>, cn: Single.CountNum, p: real)
    requires Edges.Source(db, entries, sub, cn)
    ensures Bounds(StarSummaryOf(db, entries, sub, cn, p), StarResults(db, sub, Values(db, entries)), SizesOf(db))
    ensures |StarResults(db, sub, Values(db, entries))| == Star.StarSize(db, sub)
  {
    var s, js := StarSummaryOf(db, entries, sub, cn, p), StarResults(db, sub, Values(db, entries));
    ResultsSized(db, sub, Values(db, entries));
    assert |js| == Star.StarSize(db, sub) by {
      ResultsTotal(db, sub, Values(db, entries));
      Star.PivotDistinct(Star.UnionAll(db, entries));
      forall v | Star.Degree(db, sub[0], v) > 0 ensures v in Values(db, entries) {
        ValuesComplete(db, entries, sub, cn, 0, v);
      }
      Star.StarByValue(db, sub, Values(db, entries));
    }
    Edges.CardExact(db, entries, sub, cn);
    forall t | t in s.tables ensures EdgeBounds(s.edges[t], js, t, SizesOf(db)(t)) {
      var i := IndexOf(sub, t);
      StarDegrees(db, entries, sub, cn, i);
      Edges.EdgeDominates(db, entries, sub, cn, i, p);
    }
  }

  // ---- Trees of stars ----

  /** A plan: a star with the counts it was collected from, or two plans merged on a table. */
  datatype Plan =
    | StarPlan(entries: seq<Star.TableColumn>, sub: seq<Star.TableColumn>, cn: Single.CountNum)
    | MergePlan(left: Plan, right: Plan, table: string)

  function PlanTables(plan: Plan): set<string> {
    match plan
    case StarPlan(_, sub, _) => TableSet(sub)
    case MergePlan(l, r, _) => PlanTables(l) + PlanTables(r)
  }

  /** The counts belong to the database, and merged plans share the merge table, among others perhaps. */
  ghost predicate PlanOk(db: Star.Database, plan: Plan) {
    match plan
    case StarPlan(entries, sub, cn) => Edges.Source(db, entries, sub, cn)
    case MergePlan(l, r, table) => PlanOk(db, l) && PlanOk(db, r) && table in PlanTables(l) && table in PlanTables(r)
  }

  /** The true results of a plan. */
  function Results(db: Star.Database, plan: Plan): seq<Tuple> {
    match plan
    case StarPlan(entries, sub, _) => StarResults(db, sub, Values(db, entries))
    case MergePlan(l, r, table) => Join(Results(db, l), Results(db, r))
  }

  /** The statistic that merging builds up. */
  ghost function Estimate(db: Star.Database, plan: Plan, p: real): (s: Summary)
    requires PlanOk(db, plan)
    ensures SolidSummary(s) && s.tables == PlanTables(plan)
  {
    match plan
    case StarPlan(entries, sub, cn) => StarSummaryOf(db, entries, sub, cn, p)
    case MergePlan(l, r, table) => Merged(Estimate(db, l, p), Estimate(db, r, p), table, p)
  }

  lemma {:induction false} PlanBounded(db: Star.Database, plan: Plan, p: real)
    requires PlanOk(db, plan)
    ensures Bounds(Estimate(db, plan, p), Results(db, plan), SizesOf(db))
  {
    match plan
    case StarPlan(entries, sub, cn) =>
      StarBounded(db, entries, sub, cn, p);
    case MergePlan(l, r, table) =>
      PlanBounded(db, l, p);
      PlanBounded(db, r, p);
      MergeBounded(Estimate(db, l, p), Estimate(db, r, p), Results(db, l), Results(db, r), table, SizesOf(db), p);
  }

  /** No plan is underestimated: the cardinality that merging arrives at is at least the size of the join. */
  lemma NeverUnderestimates(db: Star.Database, plan: Plan, p: real)
    requires PlanOk(db, plan)
    ensures |Results(db, plan)| as real <= Estimate(db, plan, p).card
  {
    PlanBounded(db, plan, p);
  }
}

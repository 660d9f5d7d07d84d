/** Whether `EstimateCardinality` can go below the count of its query: only its adjustment rate decides. */
module StarRates {
  import opened Sums
  import opened Sql
  import opened Options
  import opened RankBounds
  import opened DegreeSequences
  import opened CardLimit
  import opened MergeChunks
  import opened MergeBounds
  import opened StarAveraging
  import opened StarJoins
  import opened PlanCounts
  import opened UnionFind
  import opened StarEstimation
  import opened StarGuarantee
  import opened LoneTables
  import Star = StarCollection
  import Single = StarBounds
  import Collected = StarSummary
  import Edges = StarEdges

  // ---- A database on which averaging goes wrong ----

  /** `T` has a row that all rows of `A` and `B` join, and a row that none of them joins. */
  function Hub(): seq<Row> {
    [map["a" := Val(0), "b" := Val(0)], map["a" := Val(1), "b" := Val(1)]]
  }

  function Copies(row: Row, m: nat): (rows: seq<Row>)
    ensures |rows| == m && forall i :: 0 <= i < m ==> rows[i] == row
  {
    if m == 0 then [] else [row] + Copies(row, m - 1)
  }

  function ForkDb(m: nat): Star.Database {
    map["A" := Copies(map["x" := Val(0)], m), "B" := Copies(map["y" := Val(0)], m), "T" := Hub()]
  }

  /** One of its EqualSets: a spoke and a column of `T`. */
  function Spoke(s: string, c: string, d: string): seq<Star.TableColumn> {
    [Star.TableColumn(s, c), Star.TableColumn("T", d)]
  }

  /** The spoke has `m` rows with the key 0, and `T` one with 0 and one with 1. */
  ghost predicate IsFork(db: Star.Database, s: string, c: string, d: string, m: nat) {
    && m > 0 && s != "T" && Lookup(db, s) == Copies(map[c := Val(0)], m)
    && Lookup(db, "T") == Hub() && (d == "a" || d == "b")
  }

  lemma ForkIsFork(m: nat)
    requires m > 0
    ensures IsFork(ForkDb(m), "A", "x", "a", m) && IsFork(ForkDb(m), "B", "y", "b", m)
  {
  }

  // ---- What collection finds there ----

  lemma {:induction false} CopiesGrouped(c: string, m: nat)
    requires m > 0
    ensures Select(Copies(map[c := Val(0)], m), Star.IsNotNull(c)) == Copies(map[c := Val(0)], m)
    ensures GroupBy(Copies(map[c := Val(0)], m), Star.ValueOf(c)) == [(0, m)]
  {
    var row: Row := map[c := Val(0)];
    assert Copies(row, m)[1..] == Copies(row, m - 1);
    if m == 1 {
      assert Copies(row, 0) == [];
      assert GroupBy(Copies(row, 0), Star.ValueOf(c)) == [];
    } else {
      CopiesGrouped(c, m - 1);
    }
  }

  lemma HubGrouped(d: string)
    requires d == "a" || d == "b"
    ensures Select(Hub(), Star.IsNotNull(d)) == Hub() && GroupBy(Hub(), Star.ValueOf(d)) == [(1, 1), (0, 1)]
  {
    var rows := Hub();
    assert rows[1..] == [rows[1]] && rows[1..][1..] == [];
    assert GroupBy([], Star.ValueOf(d)) == [];
    assert GroupBy(rows[1..], Star.ValueOf(d)) == [(1, 1)];
    assert [(1, 1)][1..] == [];
    assert Select(rows[1..], Star.IsNotNull(d)) == [rows[1]];
  }

  /** The counts per value and table. */
  function ForkAgg(s: string, m: nat): seq<Star.AggRow> {
    [Star.AggRow(0, s, m), Star.AggRow(1, "T", 1), Star.AggRow(0, "T", 1)]
  }

  lemma ForkUnion(db: Star.Database, s: string, c: string, d: string, m: nat)
    requires IsFork(db, s, c, d, m)
    ensures Star.UnionAll(db, Spoke(s, c, d)) == ForkAgg(s, m)
  {
    CopiesGrouped(c, m);
    HubGrouped(d);
    assert [(0, m)][1..] == [] && [(1, 1), (0, 1)][1..] == [(0, 1)];
    assert Star.Tagged([(0, m)], s) == [Star.AggRow(0, s, m)];
    assert Star.Tagged([(1, 1), (0, 1)], "T") == [Star.AggRow(1, "T", 1), Star.AggRow(0, "T", 1)];
    assert Spoke(s, c, d)[1..] == [Star.TableColumn("T", d)];
    assert Star.UnionAll(db, []) == [];
    assert Star.UnionAll(db, Spoke(s, c, d)[1..]) == Star.Aggregate(db, Star.TableColumn("T", d));
  }

  lemma ForkValues(s: string, m: nat)
    ensures Star.PivotValues(ForkAgg(s, m)) == [0, 1]
  {
    var agg, key := ForkAgg(s, m), Star.ValColumn();
    assert agg[1..] == [agg[1], agg[2]] && agg[1..][1..] == [agg[2]] && [agg[2]][1..] == [];
    assert GroupBy([], key) == [];
    assert GroupBy([agg[2]], key) == [(0, 1)];
    assert [(0, 1)][1..] == [];
    assert GroupBy(agg[1..], key) == [(0, 1), (1, 1)];
    assert [(0, 1), (1, 1)][1..] == [(1, 1)];
    assert GroupBy(agg, key) == [(0, 2), (1, 1)];
    assert [(0, 2), (1, 1)][1..] == [(1, 1)];
    assert Keys([(1, 1)]) == [1];
  }

  /** The counts of a value of which the spoke has `k` rows. */
  function ForkCounts(s: string, k: nat): Star.CountVector {
    map[s := k as int, "T" := 1]
  }

  lemma ForkPivot(s: string, m: nat, v: int)
    requires s != "T" && (v == 0 || v == 1)
    ensures Star.Pivot(ForkAgg(s, m), {s, "T"}, v) == ForkCounts(s, if v == 0 then m else 0)
  {
    var agg := ForkAgg(s, m);
    assert agg[1..] == [agg[1], agg[2]] && agg[1..][1..] == [agg[2]] && [agg[2]][1..] == [];
    forall t ensures Total(agg, Star.CaseWhen(v, t)) ==
                     (if t == s && v == 0 then m as int else 0) + (if t == "T" then 1 else 0)
    {
      var f := Star.CaseWhen(v, t);
      assert Total([agg[2]], f) == f(agg[2]);
      assert Total(agg[1..], f) == f(agg[1]) + f(agg[2]);
      assert Total(agg, f) == f(agg[0]) + f(agg[1]) + f(agg[2]);
    }
  }

  lemma ForkRows(db: Star.Database, s: string, c: string, d: string, m: nat)
    requires IsFork(db, s, c, d, m)
    ensures Star.PivotRows(db, Spoke(s, c, d)) == [ForkCounts(s, m), ForkCounts(s, 0)]
  {
    var entries, agg := Spoke(s, c, d), ForkAgg(s, m);
    ForkUnion(db, s, c, d, m);
    ForkValues(s, m);
    assert Star.Tables(entries) == {s, "T"} by {
      assert entries[0] in entries && entries[1] in entries;
    }
    ForkPivot(s, m, 0);
    ForkPivot(s, m, 1);
    assert [0, 1][1..] == [1] && [1][1..] == [];
    assert Star.Pivots(agg, {s, "T"}, [1]) == [ForkCounts(s, 0)];
  }

  /** Two different rows are grouped in one of two orders. */
  lemma TwoGroups<A>(a: A, b: A, key: A -> A, groups: seq<(A, nat)>)
    requires a != b && key(a) == a && key(b) == b && IsGrouping([a, b], key, groups)
    ensures groups == [(a, 1), (b, 1)] || groups == [(b, 1), (a, 1)]
  {
    var rows := [a, b];
    assert rows[1..] == [b] && [b][1..] == [];
    forall k ensures Multiplicity(rows, key, k) == (if k == a then 1 else 0) + (if k == b then 1 else 0) {
      assert Multiplicity([b], key, k) == if k == b then 1 else 0;
    }
    assert rows[0] == a && rows[1] == b;
    var g :| g in groups && g.0 == a;
    var h :| h in groups && h.0 == b;
    var i :| 0 <= i < |groups| && groups[i] == g;
    var j :| 0 <= j < |groups| && groups[j] == h;
    forall k | 0 <= k < |groups| ensures OneOf(k, i, j) {
      assert groups[k] in groups;
      assert groups[k] == (a, 1) || groups[k] == (b, 1);
    }
    assert |groups| > 2 ==> OneOf(0, i, j) && OneOf(1, i, j) && OneOf(2, i, j);
  }

  predicate OneOf(k: int, i: int, j: int) {
    k == i || k == j
  }

  lemma ForkGroups(db: Star.Database, s: string, c: string, d: string, m: nat, cn: Single.CountNum)
    requires IsFork(db, s, c, d, m) && Star.IsCountNum(db, Spoke(s, c, d), cn)
    ensures cn == [(ForkCounts(s, m), 1), (ForkCounts(s, 0), 1)] || cn == [(ForkCounts(s, 0), 1), (ForkCounts(s, m), 1)]
  {
    ForkRows(db, s, c, d, m);
    assert ForkCounts(s, m)[s] != ForkCounts(s, 0)[s];
    TwoGroups(ForkCounts(s, m), ForkCounts(s, 0), Star.Identity(), cn);
  }

  lemma ForkProduct(s: string, k: nat)
    requires s != "T"
    ensures Collected.Mul(ForkCounts(s, k), [s, "T"]) == k
  {
    var vec := ForkCounts(s, k);
    assert [s, "T"][..1] == [s] && [s][..0] == [];
    assert Collected.Mul(vec, []) == 1;
    assert Collected.Mul(vec, [s]) == k;
  }

  /** Collection gives the shared table one row of degree `m`. */
  lemma ForkItems(s: string, c: string, d: string, m: nat, cn: Single.CountNum)
    requires m > 0 && s != "T"
    requires cn == [(ForkCounts(s, m), 1), (ForkCounts(s, 0), 1)] || cn == [(ForkCounts(s, 0), 1), (ForkCounts(s, m), 1)]
    ensures Collected.EdgeItems(cn, [s, "T"], "T") == [Bin(m as real, 1)]
    ensures Collected.TotalCard(cn, [s, "T"]) == m
  {
    var names := [s, "T"];
    ForkProduct(s, m);
    ForkProduct(s, 0);
    var last: Single.CountNum := [cn[1]];
    assert cn[1..] == last && last[1..] == [];
    assert m as real / 1 as real == m as real;
    assert Collected.EdgeItems([], names, "T") == [];
    assert Collected.EdgeItems(last, names, "T") == Collected.EdgeItem(cn[1].0, cn[1].1, Collected.Mul(cn[1].0, names), "T");
    assert Collected.TotalCard(last, names) == Collected.Mul(cn[1].0, names) * cn[1].1;
  }

  lemma {:induction false} OneOccupied(slots: seq<Slot>, pos: nat)
    requires pos < |slots| && slots[pos].count != 0 && slots[pos].maxDegree != 0.0
    requires forall i :: 0 <= i < |slots| && i != pos ==> slots[i].count == 0
    ensures Occupied(slots) == [slots[pos]]
  {
    var k := |slots| - 1;
    if pos < k {
      OneOccupied(slots[..k], pos);
    } else {
      NoneOccupied(slots[..k]);
    }
  }

  lemma {:induction false} NoneOccupied(slots: seq<Slot>)
    requires forall i :: 0 <= i < |slots| ==> slots[i].count == 0
    ensures Occupied(slots) == []
  {
    if slots != [] {
      NoneOccupied(slots[..|slots| - 1]);
    }
  }

  /** A single degree is stored as it is, at any precision. */
  lemma OneCompressed(d: real, p: real)
    requires d > 0.0
    ensures Compress([Bin(d, 1)], p) == [Bin(d, 1)]
  {
    var pos := Bucket(d, p);
    var slots := AddTo([], d, 1, p);
    Collected.AddOne([], Bin(d, 1), p);
    TimesOne(d);
    assert slots[pos] == Slot(d, 1, d);
    OneOccupied(slots, pos);
    OneTightened(d);
    assert TightenAll([slots[pos]]) == [Bin(d, 1)];
  }

  lemma OneTightened(d: real)
    requires d > 0.0
    ensures Tighten(Slot(d, 1, d)) == Bin(d, 1)
  {
    SelfQuotient(d);
    assert Ceil(1.0) == 1;
  }

  lemma SelfQuotient(d: real)
    requires d > 0.0
    ensures d / d == 1.0
  {
  }

  lemma OneLimited(d: real)
    requires d > 0.0
    ensures Limit([Bin(d, 1)], d) == [Bin(d, 1)]
  {
    TimesOne(d);
    assert [Bin(d, 1)][1..] == [];
  }

  function ForkPlan(s: string, c: string, d: string, cn: Single.CountNum): Plan {
    StarPlan(Spoke(s, c, d), Spoke(s, c, d), cn)
  }

  lemma ForkSource(db: Star.Database, s: string, c: string, d: string, cn: Single.CountNum)
    requires s != "T" && Star.IsCountNum(db, Spoke(s, c, d), cn)
    ensures PlanOk(db, ForkPlan(s, c, d, cn)) && PlanTables(ForkPlan(s, c, d, cn)) == {s, "T"}
  {
    var sub := Spoke(s, c, d);
    assert sub[0] in sub && sub[1] in sub;
  }

  /** What collection stores for `T`, at any precision. */
  lemma ForkStored(db: Star.Database, s: string, c: string, d: string, m: nat, cn: Single.CountNum, p: real)
    requires IsFork(db, s, c, d, m) && Star.IsCountNum(db, Spoke(s, c, d), cn)
    ensures PlanOk(db, ForkPlan(s, c, d, cn))
    ensures var s := Estimate(db, ForkPlan(s, c, d, cn), p);
            "T" in s.tables && s.edges["T"] == [Bin(m as real, 1)] && s.card == m as real
  {
    var sub := Spoke(s, c, d);
    ForkSource(db, s, c, d, cn);
    ForkGroups(db, s, c, d, m, cn);
    ForkItems(s, c, d, m, cn);
    assert Star.TableNames(sub) == [s, "T"];
    OneCompressed(m as real, p);
    OneLimited(m as real);
    assert IndexOf(sub, "T") == 1;
  }

  // ---- What adjusting and merging make of it ----

  /** Enough rows for half of their average to be at least 1. */
  lemma EnoughRows(k: real) returns (m: nat)
    requires 0.0 <= k < 1.0
    ensures m > 0 && Portion(m as real, 2, k) >= 1.0
  {
    var rest := 1.0 - k;
    var q := 1.0 / rest;
    var c := q.Floor + 1;
    assert q > 0.0 && c >= 1 && c as real > q;
    assert q * rest == 1.0;
    assert c as real * rest >= q * rest;
    m := 2 * c;
    assert m as real / 2.0 == c as real;
    assert Portion(m as real, 2, k) == c as real * rest;
  }

  lemma SegmentsStep(bins: seq<Bin>, d: real)
    requires bins != [] && bins[0].count == 1 && d == bins[0].degree * bins[0].degree
    ensures Segments(bins, bins) == [Bin(d, 1)] + Segments(bins[1..], bins[1..])
  {
    assert Advance(bins, 1) == bins[1..];
  }

  lemma TwoBins(x: real, y: real, xx: real, yy: real)
    requires xx == x * x && yy == y * y
    ensures Card(Segments([Bin(x, 1), Bin(y, 1)], [Bin(x, 1), Bin(y, 1)])) == xx + yy
  {
    var a, b := Bin(x, 1), Bin(y, 1);
    SegmentsStep([b], yy);
    SegmentsStep([a, b], xx);
    assert [a, b][1..] == [b] && [b][1..] == [];
    assert Segments([], []) == [];
    assert Segments([b], [b]) == [Bin(yy, 1)];
    assert Segments([a, b], [a, b]) == [Bin(xx, 1), Bin(yy, 1)];
    CardOfTwo(Bin(xx, 1), Bin(yy, 1));
    TimesOne(xx);
    TimesOne(yy);
  }

  lemma SquaresBelow(x: real, y: real, m: real)
    requires x > 0.0 && y > 0.0 && x + y == m
    ensures x * x + y * y < m * m
  {
    ProductSign(x, y);
    assert m * m == x * x + y * y + 2.0 * (x * y);
  }

  lemma ForkMixed(d: real, k: real, y: real)
    requires By(k)(d) + y == d - y && y > 0.0
    ensures Rows([Bin(d, 1)]) == 1 && Mixed([Bin(d, 1)], By(k), y, 2) == [Bin(d - y, 1), Bin(y, 1)]
  {
    var bins := [Bin(d, 1)];
    assert bins[1..] == [];
    assert MixAll(bins, By(k), y) == [Bin(d - y, 1)];
    assert Others(2 - 1, y) == [Bin(y, 1)];
  }

  /** A part of the degree goes to the row without matches. */
  lemma ForkAdjusted(d: real, k: real)
    requires d > 0.0 && 0.0 <= k < 1.0 && Portion(d, 2, k) >= 1.0
    ensures Adjustable([Bin(d, 1)], d, k)
    ensures Adjusted([Bin(d, 1)], d, 2, k) == [Bin(d - Portion(d, 2, k), 1), Bin(Portion(d, 2, k), 1)]
  {
    CardOfOne(Bin(d, 1));
    TimesOne(d);
    ForkShare(d, k);
    ForkMixed(d, k, Portion(d, 2, k));
    AdjustedMass([Bin(d, 1)], d, 2, k);
  }

  lemma ForkNormalized(x: real, y: real)
    requires x >= 1.0 && y >= 1.0
    ensures Normalized([Bin(x, 1), Bin(y, 1)]) == [Bin(x, 1), Bin(y, 1)]
  {
  }

  lemma ForkShare(d: real, k: real)
    ensures By(k)(d) == d * k && By(k)(d) + Portion(d, 2, k) == d - Portion(d, 2, k)
  {
    var half := d / 2.0;
    assert d == half + half;
    assert Portion(d, 2, k) == half * (1.0 - k) == half - half * k;
    assert d * k == half * k + half * k;
  }

  /** Two such sequences merge to less than the square. */
  lemma ForkSegments(d: real, k: real)
    requires d > 0.0 && 0.0 <= k < 1.0 && Portion(d, 2, k) >= 1.0
    ensures Adjustable([Bin(d, 1)], d, k)
    ensures var edge := Normalized(Adjusted([Bin(d, 1)], d, 2, k)); Card(Segments(edge, edge)) < d * d
  {
    var y := Portion(d, 2, k);
    var x := d - y;
    ForkAdjusted(d, k);
    ForkShare(d, k);
    assert x >= y by {
      ProductSign(d, k);
    }
    ForkNormalized(x, y);
    TwoBins(x, y, x * x, y * y);
    SquaresBelow(x, y, d);
  }

  /** A statistic that stores one row of degree `m` for `T`. */
  ghost predicate Stores(s: Summary, t: string, m: nat) {
    s.tables == {t, "T"} && s.edges.Keys == s.tables && s.edges["T"] == [Bin(m as real, 1)] && s.card == m as real
  }

  lemma OnlyHub(rels: seq<string>, l: Summary, r: Summary, m: nat)
    requires Stores(l, "A", m) && Stores(r, "B", m) && "T" in rels
    ensures FirstCommon(rels, l.tables, r.tables) == "T"
  {
    FirstCommonIs(rels, l.tables, r.tables, "T");
  }

  lemma SquareReal(m: nat)
    ensures (m * m) as real == m as real * m as real
  {
  }

  lemma ForkMerged(l: Summary, r: Summary, x: Setting, m: nat)
    requires PairOk(l, r, x) && Stores(l, "A", m) && Stores(r, "B", m) && "T" in x.rels && x.ndv["T"] == 2
    requires m > 0 && x.k < 1.0 && Portion(m as real, 2, x.k) >= 1.0
    ensures MergedPair(l, r, x).card < (m * m) as real
  {
    OnlyHub(x.rels, l, r, m);
    ForkEdge(l, "A", x.ndv, x.k, m);
    ForkEdge(r, "B", x.ndv, x.k, m);
    CardOfMerge(l, r, x, "T");
    ForkBelow(m, x.k);
  }

  /** The sequence that `T` gets before the merge. */
  function Spread(m: nat, k: real): seq<Bin>
    requires m > 0 && 0.0 <= k < 1.0 && Portion(m as real, 2, k) >= 1.0
  {
    ForkSegments(m as real, k);
    Normalized(Adjusted([Bin(m as real, 1)], m as real, 2, k))
  }

  lemma ForkBelow(m: nat, k: real)
    requires m > 0 && 0.0 <= k < 1.0 && Portion(m as real, 2, k) >= 1.0
    ensures Card(Segments(Spread(m, k), Spread(m, k))) < (m * m) as real
  {
    ForkSegments(m as real, k);
    SquareReal(m);
  }

  lemma ForkEdge(s: Summary, t: string, ndv: map<string, nat>, k: real, m: nat)
    requires Within(s) && RowCounts(ndv, s.tables) && Stores(s, t, m) && "T" in ndv && ndv["T"] == 2
    requires m > 0 && 0.0 <= k < 1.0 && Portion(m as real, 2, k) >= 1.0
    ensures Prepared(s, ndv, k).edges["T"] == Spread(m, k)
  {
    assert Prepared(s, ndv, k).edges["T"] == PreparedEdge(s, ndv, k, "T");
  }

  lemma CardOfMerge(l: Summary, r: Summary, x: Setting, t: string)
    requires PairOk(l, r, x) && t == FirstCommon(x.rels, l.tables, r.tables)
    ensures t in l.tables && t in r.tables
    ensures MergedPair(l, r, x).card == Card(Segments(Prepared(l, x.ndv, x.k).edges[t], Prepared(r, x.ndv, x.k).edges[t]))
  {
    CommonTable(l, r, x);
  }

  /** With two statistics that share a table there is one merge. */
  lemma PairEstimate(l: Summary, r: Summary, x: Setting)
    requires StatsOk([l, r], x) && PairOk(l, r, x)
    ensures EstimateOf([l, r], x) == MergedPair(l, r, x).card
  {
    var stats := [l, r];
    StartOk(stats, x);
    var g := Groups(stats, Alone(2));
    var g' := PairStep(g, x, 0, 1);
    assert Merges(g, 0, 1);
    PairRun(g', x);
    assert AllMerged(stats, x) == g';
    PairProduct(g', MergedPair(l, r, x));
  }

  lemma PairRun(g: Groups, x: Setting)
    requires GroupsOk(g, x) && |g.stats| == 2
    ensures RunFrom(g, x, 0, 2) == g
  {
    assert RunFrom(g, x, 2, 3) == g;
    assert RunFrom(g, x, 1, 2) == g;
  }

  lemma PairProduct(g: Groups, s: Summary)
    requires |g.stats| == 2 && g.stats[0] == s && IsRoot(g.rep, 0) && !IsRoot(g.rep, 1)
    ensures RootProduct(g, 2) == s.card
  {
    assert RootProduct(g, 1) == Product2(RootProduct(g, 0), s.card) == s.card;
  }

  // ---- What the query counts ----

  function SpokeTuples(t: string, m: nat): (xs: seq<Tuple>)
    ensures |xs| == m && forall i :: 0 <= i < m ==> xs[i] == map[t := i]
  {
    seq(m, i => map[t := i])
  }

  function HubTuples(t: string, m: nat): (xs: seq<Tuple>)
    ensures |xs| == m && forall i :: 0 <= i < m ==> xs[i] == map[t := i, "T" := 0]
  {
    seq(m, i => map[t := i, "T" := 0])
  }

  /** A row of each spoke with the first row of `T`. */
  lemma ForkCross(m: nat)
    ensures var all := Cross(SpokeTuples("A", m), HubTuples("B", m));
            Distinct(all) && |all| == m * m && forall z :: z in all ==> ForkTuple(z, m)
  {
    var xs, ys := SpokeTuples("A", m), HubTuples("B", m);
    forall i, j | 0 <= i < j < m ensures xs[i] != xs[j] && ys[i] != ys[j] {
      assert xs[i]["A"] != xs[j]["A"] && ys[i]["B"] != ys[j]["B"];
    }
    CrossDistinct(xs, ys, {"A"}, {"B", "T"});
    CrossSize(xs, ys);
    forall z | z in Cross(xs, ys) ensures ForkTuple(z, m) {
      CrossMember(xs, ys, {"A"}, {"B", "T"}, z);
      var i :| 0 <= i < m && xs[i] == Part(z, {"A"});
      var j :| 0 <= j < m && ys[j] == Part(z, {"B", "T"});
      PartsBack(z, {"A"}, {"B", "T"});
    }
  }

  ghost predicate ForkTuple(z: Tuple, m: nat) {
    z.Keys == {"A", "B", "T"} && 0 <= z["A"] < m && 0 <= z["B"] < m && z["T"] == 0
  }

  lemma ForkHas(db: Star.Database, s: string, c: string, d: string, m: nat, cn: Single.CountNum, z: Tuple)
    requires IsFork(db, s, c, d, m) && s in z && "T" in z && 0 <= z[s] < m && z["T"] == 0
    ensures PlanHolds(db, ForkPlan(s, c, d, cn), z)
  {
    assert AllHave(db, Spoke(s, c, d), z, 0);
  }

  function ForkPlans(a: Single.CountNum, b: Single.CountNum): seq<Plan> {
    [ForkPlan("A", "x", "a", a), ForkPlan("B", "y", "b", b)]
  }

  lemma ForkTables(a: Single.CountNum, b: Single.CountNum)
    ensures PlanTables(ForkPlans(a, b)[0]) == {"A", "T"} && PlanTables(ForkPlans(a, b)[1]) == {"B", "T"}
    ensures AllTables(ForkPlans(a, b)) == {"A", "B", "T"}
  {
    var p, q := Spoke("A", "x", "a"), Spoke("B", "y", "b");
    assert p[0] in p && p[1] in p && q[0] in q && q[1] in q;
    assert PlanTables(ForkPlans(a, b)[0]) == {"A", "T"};
    assert PlanTables(ForkPlans(a, b)[1]) == {"B", "T"};
  }

  lemma ForkAnswers(m: nat, a: Single.CountNum, b: Single.CountNum, z: Tuple)
    requires m > 0 && ForkTuple(z, m)
    ensures Answers(ForkDb(m), ForkPlans(a, b), z)
  {
    ForkIsFork(m);
    ForkTables(a, b);
    ForkHas(ForkDb(m), "A", "x", "a", m, a, z);
    ForkHas(ForkDb(m), "B", "y", "b", m, b, z);
  }

  lemma ForkCount(m: nat, a: Single.CountNum, b: Single.CountNum, tables: seq<string>)
    requires m > 0 && PlansOk(ForkDb(m), ForkPlans(a, b)) && Distinct(tables) && Names(tables) == {"A", "B", "T"}
    ensures QueryCount(ForkDb(m), ForkPlans(a, b), tables) >= m * m
  {
    ForkTables(a, b);
    ForkCross(m);
    var some := Cross(SpokeTuples("A", m), HubTuples("B", m));
    var all := QueryList(ForkDb(m), ForkPlans(a, b), tables);
    forall z | z in some ensures z in all {
      ForkAnswers(m, a, b, z);
    }
    Sublist(some, all);
  }

  // ---- The rate decides ----

  /** A collection, a query, and what `EstimateCardinality` works on. */
  datatype Input = Input(db: Star.Database, esets: seq<seq<Star.TableColumn>>, plans: seq<Plan>, stats: seq<Summary>, x: Setting,
                         tables: seq<string>)

  /** Every star comes from a collected EqualSet; a lone relation is looked up in the first column of its table. */
  ghost predicate FromSets(esets: seq<seq<Star.TableColumn>>, plan: Plan) {
    && plan.StarPlan? && plan.entries in esets
    && (IsLone(plan) ==> FirstColumn(esets, plan.sub[0].table) == Some(plan.sub[0]))
  }

  /** `relNDV`: the statistic of the table by itself. */
  ghost predicate NdvOf(db: Star.Database, esets: seq<seq<Star.TableColumn>>, ndv: map<string, nat>, t: string) {
    && FirstColumn(esets, t).Some? && t in ndv
    && ndv[t] == |Select(Lookup(db, t), Star.IsNotNull(FirstColumn(esets, t).value.column))|
  }

  ghost predicate AllFromSets(esets: seq<seq<Star.TableColumn>>, plans: seq<Plan>) {
    forall i :: 0 <= i < |plans| ==> FromSets(esets, plans[i])
  }

  ghost predicate AllNdv(db: Star.Database, esets: seq<seq<Star.TableColumn>>, ndv: map<string, nat>, tables: seq<string>) {
    forall t :: t in tables ==> NdvOf(db, esets, ndv, t)
  }

  /** The tables of the query, each once. */
  ghost predicate IsQuery(plans: seq<Plan>, tables: seq<string>) {
    Distinct(tables) && Names(tables) == AllTables(plans)
  }

  /** The statistics are those that collection leaves, and no lone table has a NULL in the column that stands for it. */
  ghost predicate Given(input: Input) {
    && Collects(input.db, input.plans, input.stats, input.x.p) && StatsOk(input.stats, input.x)
    && AllFromSets(input.esets, input.plans) && AllNdv(input.db, input.esets, input.x.ndv, input.tables)
    && LoneApart(input.plans) && NoNulls(input.db, input.plans) && IsQuery(input.plans, input.tables)
  }

  ghost predicate NotBelow(input: Input)
    requires Given(input)
  {
    QueryCount(input.db, input.plans, input.tables) as real <= EstimateOf(input.stats, input.x)
  }

  /** With this rate no query on any database is underestimated, whatever the precision. */
  ghost predicate NeverBelow(k: real) {
    forall input :: Given(input) && input.x.k == k ==> NotBelow(input)
  }

  lemma NotBelowAtOne(input: Input)
    requires Given(input) && input.x.k == 1.0
    ensures NotBelow(input)
  {
    CollectsInputs(input.db, input.plans, input.stats, input.x.p);
    EstimateAboveQuery(input.db, input.plans, input.stats, input.x, input.tables);
  }

  // ---- A rate below 1 ----

  function ForkSets(): seq<seq<Star.TableColumn>> {
    [Spoke("A", "x", "a"), Spoke("B", "y", "b")]
  }

  function ForkNdv(m: nat): map<string, nat> {
    map["A" := m, "B" := m, "T" := 2]
  }

  function ForkSetting(m: nat, k: real, p: real): Setting {
    Setting(["A", "B", "T"], ForkNdv(m), k, p)
  }

  lemma ForkFirst()
    ensures FirstColumn(ForkSets(), "A") == Some(Star.TableColumn("A", "x"))
    ensures FirstColumn(ForkSets(), "B") == Some(Star.TableColumn("B", "y"))
    ensures FirstColumn(ForkSets(), "T") == Some(Star.TableColumn("T", "a"))
  {
    var a, b := Spoke("A", "x", "a"), Spoke("B", "y", "b");
    assert a[1..] == [Star.TableColumn("T", "a")] && a[1..][1..] == [];
    assert ForkSets()[1..] == [b];
    assert ColumnIn(a, "A") == Some(Star.TableColumn("A", "x")) && ColumnIn(a, "T") == Some(Star.TableColumn("T", "a"));
    assert ColumnIn(a, "B") == None;
    assert ColumnIn(b, "B") == Some(Star.TableColumn("B", "y"));
  }

  lemma ForkNdvOf(m: nat, t: string)
    requires m > 0 && t in ["A", "B", "T"]
    ensures NdvOf(ForkDb(m), ForkSets(), ForkNdv(m), t)
  {
    ForkFirst();
    CopiesGrouped("x", m);
    CopiesGrouped("y", m);
    HubGrouped("a");
  }

  /** The statistics of both stars. */
  ghost predicate ForkStats(m: nat, a: Single.CountNum, b: Single.CountNum, p: real, l: Summary, r: Summary) {
    CollectsOne(ForkDb(m), ForkPlans(a, b)[0], l, p) && CollectsOne(ForkDb(m), ForkPlans(a, b)[1], r, p)
  }

  lemma ForkCollected(m: nat, p: real) returns (a: Single.CountNum, b: Single.CountNum, l: Summary, r: Summary)
    requires m > 0
    ensures ForkStats(m, a, b, p, l, r) && Stores(l, "A", m) && Stores(r, "B", m) && Within(l) && Within(r)
  {
    var db := ForkDb(m);
    a := GroupBy(Star.PivotRows(db, Spoke("A", "x", "a")), Star.Identity());
    b := GroupBy(Star.PivotRows(db, Spoke("B", "y", "b")), Star.Identity());
    GroupByIsGrouping(Star.PivotRows(db, Spoke("A", "x", "a")), Star.Identity());
    GroupByIsGrouping(Star.PivotRows(db, Spoke("B", "y", "b")), Star.Identity());
    ForkIsFork(m);
    l := StarStored(db, "A", "x", "a", m, a, p);
    r := StarStored(db, "B", "y", "b", m, b, p);
  }

  lemma StarStored(db: Star.Database, s: string, c: string, d: string, m: nat, cn: Single.CountNum, p: real) returns (l: Summary)
    requires IsFork(db, s, c, d, m) && Star.IsCountNum(db, Spoke(s, c, d), cn)
    ensures CollectsOne(db, ForkPlan(s, c, d, cn), l, p) && Stores(l, s, m) && Within(l)
  {
    ForkSource(db, s, c, d, cn);
    ForkStored(db, s, c, d, m, cn, p);
    EstimateBounded(db, ForkPlan(s, c, d, cn), p);
    l := Estimate(db, ForkPlan(s, c, d, cn), p);
  }

  lemma ForkStatsOk(l: Summary, r: Summary, x: Setting, m: nat)
    requires Stores(l, "A", m) && Stores(r, "B", m) && Within(l) && Within(r) && m > 0
    requires x.rels == ["A", "B", "T"] && x.ndv == ForkNdv(m) && Rate(x.k)
    ensures StatsOk([l, r], x) && PairOk(l, r, x)
  {
    assert "T" in l.tables * r.tables;
    assert StatOk([l, r][0], x) && StatOk([l, r][1], x);
    assert RowCounts(x.ndv, [l, r][0].tables) && RowCounts(x.ndv, [l, r][1].tables);
  }

  lemma ForkPlansFit(a: Single.CountNum, b: Single.CountNum, db: Star.Database)
    ensures AllFromSets(ForkSets(), ForkPlans(a, b))
    ensures LoneApart(ForkPlans(a, b)) && NoNulls(db, ForkPlans(a, b))
  {
    assert ForkSets()[0] in ForkSets() && ForkSets()[1] in ForkSets();
    forall i | 0 <= i < |ForkPlans(a, b)| ensures !IsLone(ForkPlans(a, b)[i]) {
    }
  }

  lemma ForkNames()
    ensures Distinct(["A", "B", "T"]) && Names(["A", "B", "T"]) == {"A", "B", "T"}
  {
    assert forall t :: t in ["A", "B", "T"] <==> t in {"A", "B", "T"};
  }

  lemma ForkQuery(a: Single.CountNum, b: Single.CountNum)
    ensures IsQuery(ForkPlans(a, b), ["A", "B", "T"])
  {
    ForkTables(a, b);
    ForkNames();
  }

  lemma ForkAllNdv(m: nat)
    requires m > 0
    ensures AllNdv(ForkDb(m), ForkSets(), ForkNdv(m), ["A", "B", "T"])
  {
    forall t | t in ["A", "B", "T"] ensures NdvOf(ForkDb(m), ForkSets(), ForkNdv(m), t) {
      ForkNdvOf(m, t);
    }
  }

  lemma PairCollects(db: Star.Database, u: Plan, v: Plan, l: Summary, r: Summary, p: real)
    requires CollectsOne(db, u, l, p) && CollectsOne(db, v, r, p)
    ensures Collects(db, [u, v], [l, r], p)
  {
  }

  lemma ForkGiven(m: nat, a: Single.CountNum, b: Single.CountNum, l: Summary, r: Summary, x: Setting)
    requires m > 0 && ForkStats(m, a, b, x.p, l, r) && StatsOk([l, r], x) && x.ndv == ForkNdv(m)
    ensures Given(Input(ForkDb(m), ForkSets(), ForkPlans(a, b), [l, r], x, ["A", "B", "T"]))
  {
    PairCollects(ForkDb(m), ForkPlans(a, b)[0], ForkPlans(a, b)[1], l, r, x.p);
    ForkPlansFit(a, b, ForkDb(m));
    ForkQuery(a, b);
    ForkAllNdv(m);
  }

  /** Whatever the rate below 1 and the precision, there is a query of two stars that is underestimated. */
  lemma BelowOneUnderestimates(k: real, p: real) returns (input: Input)
    requires 0.0 <= k < 1.0
    ensures Given(input) && input.x.k == k && input.x.p == p && !NotBelow(input)
  {
    var m := EnoughRows(k);
    var x := ForkSetting(m, k, p);
    var a, b, l, r := ForkCollected(m, p);
    ForkStatsOk(l, r, x, m);
    ForkGiven(m, a, b, l, r, x);
    input := Input(ForkDb(m), ForkSets(), ForkPlans(a, b), [l, r], x, ["A", "B", "T"]);
    PairEstimate(l, r, x);
    ForkMerged(l, r, x, m);
    ForkNames();
    CollectsInputs(input.db, input.plans, input.stats, p);
    ForkCount(m, a, b, input.tables);
  }

  /** No query is ever underestimated iff the adjustment rate is 1. */
  lemma RateIff(k: real)
    requires 0.0 <= k <= 1.0
    ensures NeverBelow(k) <==> k == 1.0
  {
    if k == 1.0 {
      forall input | Given(input) && input.x.k == k ensures NotBelow(input) {
        NotBelowAtOne(input);
      }
    } else {
      var input := BelowOneUnderestimates(k, 1.0);
      assert Given(input) && input.x.k == k;
    }
  }
}

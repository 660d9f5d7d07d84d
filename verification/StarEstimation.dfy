/**
 `EstimateCardinality` without filters, at any adjustment rate: the loops that adjust and merge the statistics of a query's
 stars, and the product over what is left.
 */
module StarEstimation {
  import opened Sums
  import opened RankBounds
  import opened DegreeSequences
  import opened CardLimit
  import opened MergeChunks
  import opened MergeBounds
  import Merging = MergeStatistics
  import opened StarAveraging
  import opened UnionFind

  // ---- Statistics stay within their cardinality ----

  /** A statistic that can be adjusted and merged: no sequence holds more mass than the cardinality. */
  ghost predicate Within(s: Summary) {
    SolidSummary(s) && forall t :: t in s.tables ==> Card(s.edges[t]) <= s.card
  }

  lemma CardOfOne(b: Bin)
    ensures Card([b]) == Times(b.count, b.degree)
  {
    assert [b][1..] == [];
  }

  lemma CardOfTwo(b: Bin, c: Bin)
    ensures Card([b, c]) == Times(b.count, b.degree) + Times(c.count, c.degree)
  {
    assert [b, c][1..] == [c];
    CardOfOne(c);
  }

  lemma TimesOne(x: real)
    ensures Times(1, x) == x
  {
    assert Times(1, x) == Times(0, x) + x;
  }

  lemma CutCard(d: real, left: real)
    requires d > 0.0 && left >= 0.0
    ensures Card(Cut(d, left)) <= left
  {
    if TOLERANCE < left < d {
      CardOfOne(Bin(left, 1));
      TimesOne(left);
    } else if left > TOLERANCE {
      var c := WholeTimes(left, d);
      var r := left - Times(c, d);
      CardOfOne(Bin(d, c));
      CardOfTwo(Bin(d, c), Bin(r, 1));
      TimesOne(r);
    }
  }

  lemma {:induction false} LimitCard(bins: seq<Bin>, left: real)
    requires Positive(bins) && left >= 0.0
    ensures Card(Limit(bins, left)) <= left
  {
    if bins != [] {
      var m := Times(bins[0].count, bins[0].degree);
      if m <= left {
        LimitCard(bins[1..], left - m);
        CardCons(bins[0], Limit(bins[1..], left - m));
      } else {
        CutCard(bins[0].degree, left);
      }
    }
  }

  lemma FinishWithin(items: seq<Bin>, p: real, card: real)
    requires Fitting(items) && card >= 0.0
    ensures Card(FinishEdge(items, p, card)) <= card
  {
    CompressSolid(items, p);
    LimitSolid(Compress(items, p), card);
    LimitCard(Limit(Compress(items, p), card), card);
  }

  lemma MergedWithin(l: Summary, r: Summary, table: string, p: real)
    requires MergesOn(l, r, table)
    ensures Within(Merged(l, r, table, p))
  {
    var s := Merged(l, r, table, p);
    SegmentsFit(l.edges[table], r.edges[table]);
    forall t | t in s.tables ensures Card(s.edges[t]) <= s.card {
      assert s.edges[t] == MergedEdge(l, r, table, t, p);
      MergedItemsFit(l, r, table, t);
      FinishWithin(MergedItems(l, r, table, t), p, s.card);
    }
  }

  // ---- The adjustments before a merge ----

  ghost predicate Rate(k: real) {
    0.0 <= k <= 1.0
  }

  ghost predicate RowCounts(ndv: map<string, nat>, tables: set<string>) {
    forall t :: t in tables ==> t in ndv && ndv[t] > 0
  }

  lemma CountedMixed(bins: seq<Bin>, scale: real -> real, share: real, ndv: nat)
    requires Counted(bins)
    ensures Counted(Mixed(bins, scale, share, ndv))
  {
  }

  lemma AdjustedSolid(bins: seq<Bin>, card: real, ndv: nat, k: real)
    requires ndv > 0 && Adjustable(bins, card, k)
    ensures Solid(Normalized(Adjusted(bins, card, ndv, k)))
  {
    Adjusts(bins, card, ndv, k);
    var mixed := Mixed(bins, By(k), Portion(card, ndv, k), ndv);
    CountedMixed(bins, By(k), Portion(card, ndv, k), ndv);
    LimitSolid(mixed, card);
    NormalSolid(Adjusted(bins, card, ndv, k));
  }

  lemma NormalSolid(bins: seq<Bin>)
    requires Solid(bins)
    ensures Solid(Normalized(bins))
  {
  }

  /** `AdjustToAverage` and `NormalizeSubOneDegrees` on all tables. */
  ghost function Prepared(s: Summary, ndv: map<string, nat>, k: real): (r: Summary)
    requires Within(s) && RowCounts(ndv, s.tables) && Rate(k)
    ensures SolidSummary(r) && r.tables == s.tables
  {
    Summary(s.card, s.tables, map t | t in s.tables :: PreparedEdge(s, ndv, k, t))
  }

  ghost function PreparedEdge(s: Summary, ndv: map<string, nat>, k: real, t: string): (bins: seq<Bin>)
    requires Within(s) && RowCounts(ndv, s.tables) && Rate(k) && t in s.tables
    ensures Solid(bins)
  {
    AdjustedSolid(s.edges[t], s.card, ndv[t], k);
    Normalized(Adjusted(s.edges[t], s.card, ndv[t], k))
  }

  method Prepare(s: Summary, ndv: map<string, nat>, k: real) returns (r: Summary)
    requires Within(s) && RowCounts(ndv, s.tables) && Rate(k)
    ensures r == Prepared(s, ndv, k)
  {
    var edges: map<string, seq<Bin>> := map[];
    var todo := s.tables;
    while todo != {}
      invariant todo <= s.tables && edges.Keys == s.tables - todo
      invariant forall t :: t in edges ==> edges[t] == PreparedEdge(s, ndv, k, t)
      decreases todo
    {
      var t :| t in todo;
      var bins := AdjustToAverage(s.edges[t], s.card, ndv[t], k);
      bins := NormalizeSubOneDegrees(bins);
      edges, todo := edges[t := bins], todo - {t};
    }
    Merging.SameMap(edges, Prepared(s, ndv, k).edges);
    r := Summary(s.card, s.tables, edges);
  }

  // ---- The loop over all pairs, as a function ----

  /** The statistics, and to which root each of them has been merged. */
  datatype Groups = Groups(stats: seq<Summary>, rep: map<nat, nat>)

  /** What does not change in the loops: the query's relations in their order, the row counts, the rate and the precision. */
  datatype Setting = Setting(rels: seq<string>, ndv: map<string, nat>, k: real, p: real)

  ghost predicate StatOk(s: Summary, x: Setting) {
    Within(s) && forall t :: t in s.tables ==> t in x.rels
  }

  /** No other statistic has a table of the `i`-th. */
  ghost predicate Apart(stats: seq<Summary>, i: nat)
    requires i < |stats|
  {
    forall j: nat :: j < |stats| && j != i ==> stats[i].tables * stats[j].tables == {}
  }

  /** The tables of a statistic that will be adjusted have rows. */
  ghost predicate CanAdjust(stats: seq<Summary>, x: Setting, i: nat)
    requires i < |stats|
  {
    RowCounts(x.ndv, stats[i].tables) || Apart(stats, i)
  }

  ghost predicate StatsOk(stats: seq<Summary>, x: Setting) {
    && Rate(x.k) && (forall i: nat :: i < |stats| ==> StatOk(stats[i], x))
    && forall i: nat :: i < |stats| ==> CanAdjust(stats, x, i)
  }

  ghost predicate RepOk(g: Groups, i: nat)
    requires i < |g.stats|
  {
    i in g.rep && g.rep[i] < |g.stats| && IsRoot(g.rep, g.rep[i]) && g.stats[i].tables <= g.stats[g.rep[i]].tables
  }

  ghost predicate GroupsOk(g: Groups, x: Setting) {
    && StatsOk(g.stats, x) && (forall i: nat :: i in g.rep <==> i < |g.stats|)
    && forall i: nat :: i < |g.stats| ==> RepOk(g, i)
  }

  ghost predicate IsRoot(rep: map<nat, nat>, r: nat) {
    r in rep && rep[r] == r
  }

  /** `GetCommonRelation`: the first relation that both have. */
  function FirstCommon(rels: seq<string>, a: set<string>, b: set<string>): string {
    if rels == [] then "" else if rels[0] in a && rels[0] in b then rels[0] else FirstCommon(rels[1..], a, b)
  }

  lemma {:induction false} FirstCommonIs(rels: seq<string>, a: set<string>, b: set<string>, t: string)
    requires t in rels && t in a && t in b
    ensures FirstCommon(rels, a, b) in a && FirstCommon(rels, a, b) in b
  {
    if rels[0] !in a || rels[0] !in b {
      assert rels == [rels[0]] + rels[1..];
      FirstCommonIs(rels[1..], a, b, t);
    }
  }

  /** It comes before all other common relations. */
  lemma {:induction false} FirstCommonLeast(rels: seq<string>, a: set<string>, b: set<string>, i: nat)
    requires i < |rels| && rels[i] in a && rels[i] in b && forall j :: 0 <= j < i ==> rels[j] !in a || rels[j] !in b
    ensures FirstCommon(rels, a, b) == rels[i]
  {
    if i > 0 {
      assert forall j :: 0 <= j < i - 1 ==> rels[1..][j] == rels[j + 1];
      FirstCommonLeast(rels[1..], a, b, i - 1);
    }
  }

  /** The loop over `eset1` and `eset2`. */
  method GetCommonRelation(rels: seq<string>, a: set<string>, b: set<string>) returns (t: string)
    ensures t == FirstCommon(rels, a, b)
  {
    assert rels[0..] == rels;
    for i := 0 to |rels|
      invariant FirstCommon(rels[i..], a, b) == FirstCommon(rels, a, b)
    {
      if rels[i] in a && rels[i] in b {
        return rels[i];
      }
      assert rels[i..][1..] == rels[i + 1..];
    }
    t := "";
  }

  lemma CommonTable(l: Summary, r: Summary, x: Setting)
    requires StatOk(l, x) && StatOk(r, x) && l.tables * r.tables != {}
    ensures FirstCommon(x.rels, l.tables, r.tables) in l.tables && FirstCommon(x.rels, l.tables, r.tables) in r.tables
  {
    var t :| t in l.tables * r.tables;
    FirstCommonIs(x.rels, l.tables, r.tables, t);
  }

  ghost predicate PairOk(l: Summary, r: Summary, x: Setting) {
    && StatOk(l, x) && StatOk(r, x) && RowCounts(x.ndv, l.tables) && RowCounts(x.ndv, r.tables)
    && Rate(x.k) && l.tables * r.tables != {}
  }

  /** Two adjusted statistics, merged on their first common relation. */
  ghost function MergedPair(l: Summary, r: Summary, x: Setting): (s: Summary)
    requires PairOk(l, r, x)
    ensures StatOk(s, x) && RowCounts(x.ndv, s.tables) && s.tables == l.tables + r.tables
  {
    CommonTable(l, r, x);
    var table := FirstCommon(x.rels, l.tables, r.tables);
    MergedWithin(Prepared(l, x.ndv, x.k), Prepared(r, x.ndv, x.k), table, x.p);
    Merged(Prepared(l, x.ndv, x.k), Prepared(r, x.ndv, x.k), table, x.p)
  }

  ghost predicate Merges(g: Groups, i: nat, j: nat)
    requires i < |g.stats| && j < |g.stats| && i in g.rep && j in g.rep
  {
    g.stats[i].tables * g.stats[j].tables != {} && g.rep[i] != g.rep[j]
  }

  lemma RootsShare(g: Groups, x: Setting, i: nat, j: nat)
    requires GroupsOk(g, x) && i < |g.stats| && j < |g.stats| && Merges(g, i, j)
    ensures RepOk(g, i) && RepOk(g, j) && PairOk(g.stats[g.rep[i]], g.stats[g.rep[j]], x)
  {
    assert RepOk(g, i) && RepOk(g, j);
    var t :| t in g.stats[i].tables * g.stats[j].tables;
    var a, b := g.rep[i], g.rep[j];
    assert t in g.stats[a].tables * g.stats[b].tables && t in g.stats[b].tables * g.stats[a].tables;
    assert StatOk(g.stats[a], x) && StatOk(g.stats[b], x);
    assert CanAdjust(g.stats, x, a) && CanAdjust(g.stats, x, b);
  }

  /** The body of the two nested loops. */
  ghost function PairStep(g: Groups, x: Setting, i: nat, j: nat): (g': Groups)
    requires GroupsOk(g, x) && i < |g.stats| && j < |g.stats|
    ensures GroupsOk(g', x) && |g'.stats| == |g.stats|
  {
    if Merges(g, i, j) then
      RootsShare(g, x, i, j);
      var a, b := g.rep[i], g.rep[j];
      var s := MergedPair(g.stats[a], g.stats[b], x);
      StepOk(g, x, a, b, s);
      Groups(g.stats[a := s], Redirect(g.rep, b, a))
    else g
  }

  lemma ApartStill(stats: seq<Summary>, a: nat, b: nat, s: Summary, i: nat)
    requires a < |stats| && b < |stats| && i < |stats| && i != a && s.tables == stats[a].tables + stats[b].tables
    ensures Apart(stats, i) && i != b ==> Apart(stats[a := s], i)
  {
  }

  lemma StepOk(g: Groups, x: Setting, a: nat, b: nat, s: Summary)
    requires GroupsOk(g, x) && a < |g.stats| && b < |g.stats| && IsRoot(g.rep, a) && IsRoot(g.rep, b) && a != b
    requires StatOk(s, x) && RowCounts(x.ndv, s.tables) && s.tables == g.stats[a].tables + g.stats[b].tables
    ensures GroupsOk(Groups(g.stats[a := s], Redirect(g.rep, b, a)), x)
  {
    var g' := Groups(g.stats[a := s], Redirect(g.rep, b, a));
    forall i: nat | i < |g'.stats| ensures StatOk(g'.stats[i], x) && RepOk(g', i) {
      assert StatOk(g.stats[i], x) && RepOk(g, i);
    }
    forall i: nat | i < |g'.stats| ensures CanAdjust(g'.stats, x, i) {
      if i != a {
        assert CanAdjust(g.stats, x, i);
        ApartStill(g.stats, a, b, s, i);
        assert i == b ==> RowCounts(x.ndv, g.stats[b].tables);
      }
    }
  }

  /** The rest of the loops from the pair `(i, j)` on. */
  ghost function RunFrom(g: Groups, x: Setting, i: nat, j: nat): (g': Groups)
    requires GroupsOk(g, x)
    ensures GroupsOk(g', x) && |g'.stats| == |g.stats|
    decreases |g.stats| - i, |g.stats| - j
  {
    if i >= |g.stats| then g
    else if j >= |g.stats| then RunFrom(g, x, i + 1, i + 2)
    else RunFrom(PairStep(g, x, i, j), x, i, j + 1)
  }

  /** Every statistic is its own root. */
  function Alone(n: nat): (rep: map<nat, nat>)
    ensures (forall i: nat :: i in rep <==> i < n) && forall i :: i in rep ==> rep[i] == i
  {
    if n == 0 then map[] else Alone(n - 1)[n - 1 := n - 1]
  }

  lemma StartOk(stats: seq<Summary>, x: Setting)
    requires StatsOk(stats, x)
    ensures GroupsOk(Groups(stats, Alone(|stats|)), x)
  {
    var g := Groups(stats, Alone(|stats|));
    forall i: nat | i < |stats| ensures StatOk(stats[i], x) && RepOk(g, i) {
    }
  }

  ghost function AllMerged(stats: seq<Summary>, x: Setting): (g: Groups)
    requires StatsOk(stats, x)
    ensures GroupsOk(g, x) && |g.stats| == |stats|
  {
    StartOk(stats, x);
    RunFrom(Groups(stats, Alone(|stats|)), x, 0, 1)
  }

  /** The product of the cardinalities of the roots before `i`. */
  ghost function RootProduct(g: Groups, i: nat): real
    requires i <= |g.stats|
  {
    if i == 0 then 1.0
    else if IsRoot(g.rep, i - 1) then Product2(RootProduct(g, i - 1), g.stats[i - 1].card)
    else RootProduct(g, i - 1)
  }

  function Product2(x: real, y: real): real {
    x * y
  }

  /** What `EstimateCardinality` returns. */
  ghost function EstimateOf(stats: seq<Summary>, x: Setting): real
    requires StatsOk(stats, x)
  {
    RootProduct(AllMerged(stats, x), |stats|)
  }

  // ---- The loops as they run ----

  method MergeStep(l: Summary, r: Summary, x: Setting) returns (s: Summary)
    requires PairOk(l, r, x)
    ensures s == MergedPair(l, r, x)
  {
    CommonTable(l, r, x);
    var table := GetCommonRelation(x.rels, l.tables, r.tables);
    var l' := Prepare(l, x.ndv, x.k);
    var r' := Prepare(r, x.ndv, x.k);
    s := Merging.Merge(l', r', table, x.p);
  }

  /** The parents lead to the roots. */
  ghost predicate IsForest(n: nat, parent: map<nat, nat>, rep: map<nat, nat>, height: map<nat, nat>) {
    Acyclic(parent, rep, height) && (forall i: nat :: i in parent <==> i < n)
  }

  ghost predicate Rooted(n: nat, parent: map<nat, nat>, rep: map<nat, nat>) {
    exists height :: IsForest(n, parent, rep, height)
  }

  /** The loop `while (parent[root] != root)`. */
  method FindRoot(n: nat, parent: map<nat, nat>, ghost rep: map<nat, nat>, i: nat) returns (r: nat)
    requires Rooted(n, parent, rep) && i < n
    ensures r < n && i in rep && r == rep[i] && IsRoot(rep, r)
  {
    ghost var height :| IsForest(n, parent, rep, height);
    r := i;
    assert LinkOk(parent, rep, height, i);
    while parent[r] != r
      invariant r in parent && rep[r] == rep[i]
      decreases height[r]
    {
      assert LinkOk(parent, rep, height, r);
      r := parent[r];
    }
    assert LinkOk(parent, rep, height, r);
  }

  /** Relinking the root `b` to the root `a` redirects every statistic of `b`. */
  lemma RelinkRooted(n: nat, parent: map<nat, nat>, rep: map<nat, nat>, a: nat, b: nat)
    requires Rooted(n, parent, rep) && a < n && b < n && IsRoot(rep, a) && IsRoot(rep, b) && a != b
    ensures Rooted(n, parent[b := a], Redirect(rep, b, a))
  {
    var height :| IsForest(n, parent, rep, height);
    LinkAcyclic(parent, rep, height, b, a);
    assert IsForest(n, parent[b := a], Redirect(rep, b, a), Raise(height, rep, b, a));
  }

  /** The statistics and parents in hand are those of `g`. */
  ghost predicate InHand(stats: seq<Summary>, parent: map<nat, nat>, g: Groups, x: Setting) {
    g.stats == stats && GroupsOk(g, x) && Rooted(|stats|, parent, g.rep)
  }

  /** The body of the two nested loops. */
  method MergePair(stats: seq<Summary>, parent: map<nat, nat>, ghost g: Groups, x: Setting, i: nat, j: nat)
    returns (stats': seq<Summary>, parent': map<nat, nat>)
    requires InHand(stats, parent, g, x) && i < |stats| && j < |stats|
    ensures InHand(stats', parent', PairStep(g, x, i, j), x)
  {
    stats', parent' := stats, parent;
    if stats[i].tables * stats[j].tables != {} {
      var root1 := FindRoot(|stats|, parent, g.rep, i);
      var root2 := FindRoot(|stats|, parent, g.rep, j);
      if root1 != root2 {
        RootsShare(g, x, i, j);
        RelinkRooted(|stats|, parent, g.rep, root1, root2);
        parent' := parent[root2 := root1];
        var s := MergeStep(stats[root1], stats[root2], x);
        stats' := stats[root1 := s];
      }
    }
  }

  lemma AloneRooted(n: nat)
    ensures Rooted(n, Alone(n), Alone(n))
  {
    var height := map i | i in Alone(n) :: 0;
    forall r | r in Alone(n) ensures LinkOk(Alone(n), Alone(n), height, r) {
    }
    assert IsForest(n, Alone(n), Alone(n), height);
  }

  /** The loop that makes every statistic its own root. */
  method StartParents(n: nat) returns (parent: map<nat, nat>)
    ensures parent == Alone(n)
  {
    parent := map[];
    for i := 0 to n
      invariant parent == Alone(i)
    {
      parent := parent[i := i];
    }
  }

  /** From `g` on, the pairs that are left make it `last`. */
  ghost predicate AtPair(n: nat, last: Groups, x: Setting, g: Groups, i: nat, j: nat)
    decreases n - i, n - j
  {
    && GroupsOk(g, x) && |g.stats| == n
    && if i >= n then g == last
       else if j >= n then AtPair(n, last, x, g, i + 1, i + 2)
       else AtPair(n, last, x, PairStep(g, x, i, j), i, j + 1)
  }

  lemma {:induction false} AtRun(n: nat, x: Setting, g: Groups, i: nat, j: nat)
    requires GroupsOk(g, x) && |g.stats| == n
    ensures AtPair(n, RunFrom(g, x, i, j), x, g, i, j)
    decreases n - i, n - j
  {
    if i < n && j < n {
      AtRun(n, x, PairStep(g, x, i, j), i, j + 1);
    } else if i < n {
      AtRun(n, x, g, i + 1, i + 2);
    }
  }

  /** The state before the pair `(i, j)`. */
  ghost predicate Reached(n: nat, last: Groups, stats: seq<Summary>, parent: map<nat, nat>, x: Setting, i: nat, j: nat) {
    exists g :: StandsFor(n, last, stats, parent, x, g, i, j)
  }

  ghost predicate StandsFor(n: nat, last: Groups, stats: seq<Summary>, parent: map<nat, nat>, x: Setting, g: Groups, i: nat, j: nat) {
    AtPair(n, last, x, g, i, j) && InHand(stats, parent, g, x)
  }

  lemma ReachedRow(n: nat, last: Groups, stats: seq<Summary>, parent: map<nat, nat>, x: Setting, i: nat)
    requires Reached(n, last, stats, parent, x, i, n) && i < n
    ensures Reached(n, last, stats, parent, x, i + 1, i + 2)
  {
    var g :| StandsFor(n, last, stats, parent, x, g, i, n);
    assert StandsFor(n, last, stats, parent, x, g, i + 1, i + 2);
  }

  lemma ReachedNext(n: nat, last: Groups, stats: seq<Summary>, parent: map<nat, nat>, x: Setting, g: Groups, i: nat, j: nat)
    requires AtPair(n, last, x, g, i, j) && i < n && j < n && InHand(stats, parent, PairStep(g, x, i, j), x)
    ensures Reached(n, last, stats, parent, x, i, j + 1)
  {
    assert StandsFor(n, last, stats, parent, x, PairStep(g, x, i, j), i, j + 1);
  }

  method MergeNext(n: nat, ghost last: Groups, stats: seq<Summary>, parent: map<nat, nat>, x: Setting, i: nat, j: nat)
    returns (stats': seq<Summary>, parent': map<nat, nat>)
    requires i < n && j < n && Reached(n, last, stats, parent, x, i, j)
    ensures Reached(n, last, stats', parent', x, i, j + 1)
  {
    ghost var g :| StandsFor(n, last, stats, parent, x, g, i, j);
    stats', parent' := MergePair(stats, parent, g, x, i, j);
    ReachedNext(n, last, stats', parent', x, g, i, j);
  }

  /** One round of the outer loop. */
  method MergeRow(n: nat, ghost last: Groups, stats: seq<Summary>, parent: map<nat, nat>, x: Setting, i: nat)
    returns (stats': seq<Summary>, parent': map<nat, nat>)
    requires i < n && Reached(n, last, stats, parent, x, i, i + 1)
    ensures Reached(n, last, stats', parent', x, i, n)
  {
    stats', parent' := stats, parent;
    for j := i + 1 to n
      invariant Reached(n, last, stats', parent', x, i, j)
    {
      stats', parent' := MergeNext(n, last, stats', parent', x, i, j);
    }
  }

  lemma ReachedStart(stats: seq<Summary>, x: Setting)
    requires StatsOk(stats, x)
    ensures Reached(|stats|, AllMerged(stats, x), stats, Alone(|stats|), x, 0, 1)
  {
    StartOk(stats, x);
    AloneRooted(|stats|);
    AtRun(|stats|, x, Groups(stats, Alone(|stats|)), 0, 1);
    assert StandsFor(|stats|, AllMerged(stats, x), stats, Alone(|stats|), x, Groups(stats, Alone(|stats|)), 0, 1);
  }

  lemma ReachedEnd(n: nat, last: Groups, stats: seq<Summary>, parent: map<nat, nat>, x: Setting)
    requires Reached(n, last, stats, parent, x, n, n + 1)
    ensures InHand(stats, parent, last, x)
  {
  }

  /** The nested loops over all pairs. */
  method MergeAll(stats: seq<Summary>, x: Setting) returns (merged: seq<Summary>, parent: map<nat, nat>)
    requires StatsOk(stats, x)
    ensures InHand(merged, parent, AllMerged(stats, x), x)
  {
    ghost var last := AllMerged(stats, x);
    parent := StartParents(|stats|);
    merged := stats;
    ReachedStart(stats, x);
    for i := 0 to |stats|
      invariant Reached(|stats|, last, merged, parent, x, i, i + 1)
    {
      merged, parent := MergeRow(|stats|, last, merged, parent, x, i);
      ReachedRow(|stats|, last, merged, parent, x, i);
    }
    ReachedEnd(|stats|, last, merged, parent, x);
  }

  lemma RootTest(n: nat, parent: map<nat, nat>, rep: map<nat, nat>, i: nat)
    requires Rooted(n, parent, rep) && i < n
    ensures i in parent && (parent[i] == i <==> IsRoot(rep, i))
  {
    var height :| IsForest(n, parent, rep, height);
    assert LinkOk(parent, rep, height, i);
  }

  /**
   `EstimateCardinality` without filters, from the statistics of the query's stars and of its relations that are in no
   join, at any adjustment rate.
   */
  method EstimateCardinality(stats: seq<Summary>, x: Setting) returns (card: real)
    requires StatsOk(stats, x)
    ensures card == EstimateOf(stats, x)
  {
    var merged, parent := MergeAll(stats, x);
    ghost var g := AllMerged(stats, x);
    card := 1.0;
    for i := 0 to |merged|
      invariant card == RootProduct(g, i)
    {
      RootTest(|merged|, parent, g.rep, i);
      if parent[i] == i {
        card := Product2(card, merged[i].card);
      }
    }
  }
}

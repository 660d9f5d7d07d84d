/** `EstimateCardinality` at an adjustment rate of 1: the estimate is never below the count of its query. */
module StarGuarantee {
  import opened Sums
  import opened Sql
  import opened RankBounds
  import opened DegreeSequences
  import opened CardLimit
  import opened MergeChunks
  import opened MergeBounds
  import Merging = MergeStatistics
  import opened StarAveraging
  import opened StarJoins
  import opened PlanCounts
  import opened UnionFind
  import opened StarEstimation
  import Star = StarCollection
  import Single = StarBounds
  import Collected = StarSummary
  import Edges = StarEdges

  // ---- What collection and merging give the loop ----

  /** The statistic bounds the results of the plan, and none of its sequences holds more than its cardinality. */
  ghost predicate Bounded(db: Star.Database, plan: Plan, s: Summary) {
    PlanOk(db, plan) && Within(s) && s.tables == PlanTables(plan) && Bounds(s, Results(db, plan), SizesOf(db))
  }

  lemma StarWithin(db: Star.Database, entries: seq<Star.TableColumn>, sub: seq<Star.TableColumn>, cn: Single.CountNum, p: real)
    requires Edges.Source(db, entries, sub, cn)
    ensures Within(StarSummaryOf(db, entries, sub, cn, p))
  {
    var s := StarSummaryOf(db, entries, sub, cn, p);
    Edges.CardExact(db, entries, sub, cn);
    forall t | t in s.tables ensures Card(s.edges[t]) <= s.card {
      var i := IndexOf(sub, t);
      StarEdgeOk(db, entries, sub, cn, i, p);
      LimitCard(Compress(Collected.EdgeItems(cn, Star.TableNames(sub), sub[i].table), p), s.card);
    }
  }

  /** What collection and merging compute bounds the plan. */
  lemma EstimateBounded(db: Star.Database, plan: Plan, p: real)
    requires PlanOk(db, plan)
    ensures Bounded(db, plan, Estimate(db, plan, p))
  {
    PlanBounded(db, plan, p);
    match plan
    case StarPlan(entries, sub, cn) => StarWithin(db, entries, sub, cn, p);
    case MergePlan(l, r, table) => MergedWithin(Estimate(db, l, p), Estimate(db, r, p), table, p);
  }

  /** With a rate of 1 the adjustments change nothing. */
  lemma PreparedAtOne(s: Summary, ndv: map<string, nat>)
    requires Within(s) && SummaryOk(s) && RowCounts(ndv, s.tables)
    ensures Prepared(s, ndv, 1.0) == s
  {
    var r := Prepared(s, ndv, 1.0);
    forall t | t in s.tables ensures r.edges[t] == s.edges[t] {
      assert EdgeOk(s.edges[t]);
      AdjustedAtOne(s.edges[t], s.card, ndv[t]);
      NormalizedUp(s.edges[t]);
    }
    Merging.SameMap(r.edges, s.edges);
  }

  // ---- Groups of stars ----

  function TableSets(plans: seq<Plan>): (sets: seq<set<string>>)
    ensures |sets| == |plans| && forall i :: 0 <= i < |sets| ==> sets[i] == PlanTables(plans[i])
  {
    seq(|plans|, i requires 0 <= i < |plans| => PlanTables(plans[i]))
  }

  function Union(sets: seq<set<string>>, members: set<nat>): set<string> {
    set i, t | i in members && i < |sets| && t in sets[i] :: t
  }

  lemma UnionMember(sets: seq<set<string>>, members: set<nat>, i: nat, t: string)
    requires i in members && i < |sets| && t in sets[i]
    ensures t in Union(sets, members)
  {
  }

  lemma UnionSum(sets: seq<set<string>>, a: set<nat>, b: set<nat>)
    ensures Union(sets, a + b) == Union(sets, a) + Union(sets, b)
  {
  }

  lemma UnionOne(sets: seq<set<string>>, r: nat)
    requires r < |sets|
    ensures Union(sets, {r}) == sets[r]
  {
  }

  ghost predicate MembersHold(db: Star.Database, plans: seq<Plan>, members: set<nat>, z: Tuple) {
    forall i :: i in members && i < |plans| ==> PlanHolds(db, plans[i], z)
  }

  lemma HoldSum(db: Star.Database, plans: seq<Plan>, a: set<nat>, b: set<nat>, z: Tuple)
    ensures MembersHold(db, plans, a + b, z) <==> MembersHold(db, plans, a, z) && MembersHold(db, plans, b, z)
  {
  }

  /** A row of every table of these stars, on which they all agree. */
  ghost predicate Combines(db: Star.Database, plans: seq<Plan>, members: set<nat>, z: Tuple) {
    z.Keys == Union(TableSets(plans), members) && MembersHold(db, plans, members, z)
  }

  /** `results` lists every combination of rows of these stars once. */
  ghost predicate Lists(db: Star.Database, plans: seq<Plan>, members: set<nat>, results: seq<Tuple>) {
    Distinct(results) && forall z :: z in results <==> Combines(db, plans, members, z)
  }

  lemma ListsOver(db: Star.Database, plans: seq<Plan>, members: set<nat>, results: seq<Tuple>)
    requires Lists(db, plans, members, results)
    ensures AllOver(results, Union(TableSets(plans), members))
  {
  }

  lemma HoldPart(db: Star.Database, plans: seq<Plan>, members: set<nat>, z: Tuple, tables: set<string>)
    requires Union(TableSets(plans), members) <= tables
    ensures MembersHold(db, plans, members, Part(z, tables)) <==> MembersHold(db, plans, members, z)
  {
    forall i | i in members && i < |plans| ensures PlanHolds(db, plans[i], Part(z, tables)) <==> PlanHolds(db, plans[i], z) {
      forall t | t in PlanTables(plans[i]) ensures t in tables {
        UnionMember(TableSets(plans), members, i, t);
      }
      PlanHoldsPart(db, plans[i], z, tables);
    }
  }

  /** A combination of two groups is a combination of each of them. */
  lemma CombinesParts(db: Star.Database, plans: seq<Plan>, ms: set<nat>, ns: set<nat>, z: Tuple, ts: set<string>, us: set<string>)
    requires ts == Union(TableSets(plans), ms) && us == Union(TableSets(plans), ns)
    ensures Combines(db, plans, ms + ns, z) <==>
            z.Keys == ts + us && Combines(db, plans, ms, Part(z, ts)) && Combines(db, plans, ns, Part(z, us))
  {
    UnionSum(TableSets(plans), ms, ns);
    HoldPart(db, plans, ms, z, ts);
    HoldPart(db, plans, ns, z, us);
    HoldSum(db, plans, ms, ns, z);
    if z.Keys == ts + us {
      PartsBack(z, ts, us);
    }
  }

  /** The join of two groups lists the combinations of both. */
  lemma JoinLists(db: Star.Database, plans: seq<Plan>, ms: set<nat>, ns: set<nat>, xs: seq<Tuple>, ys: seq<Tuple>)
    requires Lists(db, plans, ms, xs) && Lists(db, plans, ns, ys)
    ensures Lists(db, plans, ms + ns, Join(xs, ys))
  {
    var ts, us := Union(TableSets(plans), ms), Union(TableSets(plans), ns);
    ListsOver(db, plans, ms, xs);
    ListsOver(db, plans, ns, ys);
    JoinDistinct(xs, ys, ts, us);
    forall z ensures z in Join(xs, ys) <==> Combines(db, plans, ms + ns, z) {
      JoinMember(xs, ys, ts, us, z);
      CombinesParts(db, plans, ms, ns, z, ts, us);
    }
  }

  /** Where they share no table, so do all pairs. */
  lemma CrossLists(db: Star.Database, plans: seq<Plan>, ms: set<nat>, ns: set<nat>, xs: seq<Tuple>, ys: seq<Tuple>)
    requires Lists(db, plans, ms, xs) && Lists(db, plans, ns, ys)
    requires Union(TableSets(plans), ms) * Union(TableSets(plans), ns) == {}
    ensures Lists(db, plans, ms + ns, Cross(xs, ys))
  {
    var ts, us := Union(TableSets(plans), ms), Union(TableSets(plans), ns);
    ListsOver(db, plans, ms, xs);
    ListsOver(db, plans, ns, ys);
    CrossDistinct(xs, ys, ts, us);
    forall z ensures z in Cross(xs, ys) <==> Combines(db, plans, ms + ns, z) {
      CrossMember(xs, ys, ts, us, z);
      CombinesParts(db, plans, ms, ns, z, ts, us);
    }
  }

  // ---- What every step of the loop keeps ----

  /** The stars whose statistics were merged into that of `r`. */
  function Members(rep: map<nat, nat>, r: nat): set<nat> {
    set i | i in rep && rep[i] == r
  }

  lemma MembersRedirect(rep: map<nat, nat>, a: nat, b: nat, r: nat)
    requires a != b
    ensures Members(Redirect(rep, b, a), a) == Members(rep, a) + Members(rep, b)
    ensures r != a && r != b ==> Members(Redirect(rep, b, a), r) == Members(rep, r)
  {
  }

  ghost predicate ListBounded(db: Star.Database, plans: seq<Plan>, members: set<nat>, s: Summary, results: seq<Tuple>) {
    Lists(db, plans, members, results) && Bounds(s, results, SizesOf(db))
  }

  /** The statistic bounds the combinations of these stars. */
  ghost predicate GroupBounded(db: Star.Database, plans: seq<Plan>, members: set<nat>, s: Summary) {
    s.tables == Union(TableSets(plans), members) && exists results :: ListBounded(db, plans, members, s, results)
  }

  ghost predicate RootBounded(db: Star.Database, plans: seq<Plan>, g: Groups, r: nat)
    requires r < |g.stats|
  {
    IsRoot(g.rep, r) ==> GroupBounded(db, plans, Members(g.rep, r), g.stats[r])
  }

  ghost predicate Keeps(plans: seq<Plan>, g: Groups, i: nat)
    requires i < |plans| && i < |g.stats|
  {
    PlanTables(plans[i]) <= g.stats[i].tables
  }

  /** Every root's statistic bounds its group, and no statistic has lost a table. */
  ghost predicate AllBounded(db: Star.Database, plans: seq<Plan>, g: Groups) {
    && |g.stats| == |plans| && (forall r: nat :: r < |g.stats| ==> RootBounded(db, plans, g, r))
    && forall i: nat :: i < |plans| ==> Keeps(plans, g, i)
  }

  /** Stars that share a table are in one group, for all pairs before `(i, j)`. */
  ghost predicate Visited(plans: seq<Plan>, rep: map<nat, nat>, i: nat, j: nat) {
    forall x: nat, y: nat :: x < y < |plans| && (x < i || (x == i && y < j)) ==> Joined(plans, rep, x, y)
  }

  ghost predicate Joined(plans: seq<Plan>, rep: map<nat, nat>, x: nat, y: nat)
    requires x < |plans| && y < |plans|
  {
    x in rep && y in rep && (PlanTables(plans[x]) * PlanTables(plans[y]) != {} ==> rep[x] == rep[y])
  }

  lemma PairAtOne(l: Summary, r: Summary, x: Setting)
    requires PairOk(l, r, x) && SummaryOk(l) && SummaryOk(r) && x.k == 1.0
    ensures MergesOn(l, r, FirstCommon(x.rels, l.tables, r.tables))
    ensures MergedPair(l, r, x) == Merged(l, r, FirstCommon(x.rels, l.tables, r.tables), x.p)
  {
    CommonTable(l, r, x);
    PreparedAtOne(l, x.ndv);
    PreparedAtOne(r, x.ndv);
  }

  lemma MergeListed(db: Star.Database, plans: seq<Plan>, ms: set<nat>, ns: set<nat>, l: Summary, r: Summary, table: string,
                    xs: seq<Tuple>, ys: seq<Tuple>, p: real)
    requires ListBounded(db, plans, ms, l, xs) && ListBounded(db, plans, ns, r, ys) && MergesOn(l, r, table)
    ensures ListBounded(db, plans, ms + ns, Merged(l, r, table, p), Join(xs, ys))
  {
    MergeBounded(l, r, xs, ys, table, SizesOf(db), p);
    JoinLists(db, plans, ms, ns, xs, ys);
  }

  /** Merging two statistics bounds the combinations of both groups. */
  lemma PairBounded(db: Star.Database, plans: seq<Plan>, ms: set<nat>, ns: set<nat>, l: Summary, r: Summary, x: Setting)
    requires GroupBounded(db, plans, ms, l) && GroupBounded(db, plans, ns, r) && PairOk(l, r, x) && x.k == 1.0
    ensures GroupBounded(db, plans, ms + ns, MergedPair(l, r, x))
  {
    var xs :| ListBounded(db, plans, ms, l, xs);
    var ys :| ListBounded(db, plans, ns, r, ys);
    PairAtOne(l, r, x);
    UnionSum(TableSets(plans), ms, ns);
    MergeListed(db, plans, ms, ns, l, r, FirstCommon(x.rels, l.tables, r.tables), xs, ys, x.p);
    assert ListBounded(db, plans, ms + ns, MergedPair(l, r, x), Join(xs, ys));
  }

  lemma RootsAfter(db: Star.Database, plans: seq<Plan>, g: Groups, a: nat, b: nat, s: Summary, g': Groups)
    requires a < |g.stats| && g' == Groups(g.stats[a := s], Redirect(g.rep, b, a))
    requires AllBounded(db, plans, g) && a < |plans| && IsRoot(g.rep, a) && a != b
    requires GroupBounded(db, plans, Members(g.rep, a) + Members(g.rep, b), s)
    ensures forall r: nat :: r < |plans| ==> RootBounded(db, plans, g', r)
  {
    forall r: nat | r < |plans| ensures RootBounded(db, plans, g', r) {
      assert RootBounded(db, plans, g, r);
      MembersRedirect(g.rep, a, b, r);
    }
  }

  lemma KeepsAfter(plans: seq<Plan>, g: Groups, a: nat, s: Summary, g': Groups)
    requires |g.stats| == |plans| && a < |plans| && g.stats[a].tables <= s.tables && g'.stats == g.stats[a := s]
    requires forall i: nat :: i < |plans| ==> Keeps(plans, g, i)
    ensures forall i: nat :: i < |plans| ==> Keeps(plans, g', i)
  {
    forall i: nat | i < |plans| ensures Keeps(plans, g', i) {
      assert Keeps(plans, g, i);
    }
  }

  /** The body of the loops keeps the bounds, ... */
  lemma StepBounded(db: Star.Database, plans: seq<Plan>, g: Groups, x: Setting, i: nat, j: nat)
    requires GroupsOk(g, x) && AllBounded(db, plans, g) && x.k == 1.0 && i < |plans| && j < |plans|
    ensures AllBounded(db, plans, PairStep(g, x, i, j))
  {
    if Merges(g, i, j) {
      RootsShare(g, x, i, j);
      var a, b := g.rep[i], g.rep[j];
      assert RootBounded(db, plans, g, a) && RootBounded(db, plans, g, b);
      PairBounded(db, plans, Members(g.rep, a), Members(g.rep, b), g.stats[a], g.stats[b], x);
      var s := MergedPair(g.stats[a], g.stats[b], x);
      RootsAfter(db, plans, g, a, b, s, PairStep(g, x, i, j));
      KeepsAfter(plans, g, a, s, PairStep(g, x, i, j));
    }
  }

  lemma VisitedAfter(plans: seq<Plan>, rep: map<nat, nat>, i: nat, j: nat, a: nat, b: nat)
    requires Visited(plans, rep, i, j)
    ensures Visited(plans, Redirect(rep, b, a), i, j)
  {
    forall x: nat, y: nat | x < y < |plans| && (x < i || (x == i && y < j)) ensures Joined(plans, Redirect(rep, b, a), x, y) {
      assert Joined(plans, rep, x, y);
    }
  }

  lemma VisitedNext(plans: seq<Plan>, rep: map<nat, nat>, i: nat, j: nat)
    requires Visited(plans, rep, i, j) && i < j < |plans| && Joined(plans, rep, i, j)
    ensures Visited(plans, rep, i, j + 1)
  {
  }

  /** ... and joins the groups of the two stars if they share a table. */
  lemma StepVisited(db: Star.Database, plans: seq<Plan>, g: Groups, x: Setting, i: nat, j: nat)
    requires GroupsOk(g, x) && AllBounded(db, plans, g) && i < j < |plans| && Visited(plans, g.rep, i, j)
    ensures Visited(plans, PairStep(g, x, i, j).rep, i, j + 1)
  {
    var g' := PairStep(g, x, i, j);
    assert i in g.rep && j in g.rep && i in g'.rep && j in g'.rep;
    if Merges(g, i, j) {
      VisitedAfter(plans, g.rep, i, j, g.rep[i], g.rep[j]);
    }
    assert Keeps(plans, g, i) && Keeps(plans, g, j);
    if t :| t in PlanTables(plans[i]) * PlanTables(plans[j]) {
      assert t in g.stats[i].tables * g.stats[j].tables;
    }
    assert Joined(plans, g'.rep, i, j);
    VisitedNext(plans, g'.rep, i, j);
  }

  lemma {:induction false} RunBounded(db: Star.Database, plans: seq<Plan>, g: Groups, x: Setting, i: nat, j: nat)
    requires GroupsOk(g, x) && AllBounded(db, plans, g) && x.k == 1.0 && i < j && Visited(plans, g.rep, i, j)
    ensures AllBounded(db, plans, RunFrom(g, x, i, j)) && Visited(plans, RunFrom(g, x, i, j).rep, |plans|, 0)
    decreases |plans| - i, |plans| - j
  {
    if i < |plans| && j < |plans| {
      StepBounded(db, plans, g, x, i, j);
      StepVisited(db, plans, g, x, i, j);
      RunBounded(db, plans, PairStep(g, x, i, j), x, i, j + 1);
    } else if i < |plans| {
      assert Visited(plans, g.rep, i + 1, i + 2);
      RunBounded(db, plans, g, x, i + 1, i + 2);
    }
  }

  // ---- Before the loop ----

  ghost predicate Inputs(db: Star.Database, plans: seq<Plan>, stats: seq<Summary>) {
    |stats| == |plans| && forall i: nat :: i < |plans| ==> Bounded(db, plans[i], stats[i])
  }

  lemma OneLists(db: Star.Database, plans: seq<Plan>, r: nat)
    requires r < |plans| && PlanOk(db, plans[r])
    ensures Lists(db, plans, {r}, Results(db, plans[r]))
  {
    var results := Results(db, plans[r]);
    ResultsList(db, plans[r]);
    UnionOne(TableSets(plans), r);
    forall z ensures z in results <==> Combines(db, plans, {r}, z) {
      OneHolds(db, plans, r, z);
    }
  }

  lemma OneHolds(db: Star.Database, plans: seq<Plan>, r: nat, z: Tuple)
    requires r < |plans|
    ensures MembersHold(db, plans, {r}, z) <==> PlanHolds(db, plans[r], z)
  {
    assert r in {r};
  }

  lemma OneBounded(db: Star.Database, plans: seq<Plan>, s: Summary, r: nat)
    requires r < |plans| && Bounded(db, plans[r], s)
    ensures GroupBounded(db, plans, {r}, s)
  {
    OneLists(db, plans, r);
    UnionOne(TableSets(plans), r);
    assert ListBounded(db, plans, {r}, s, Results(db, plans[r]));
  }

  lemma StartBounded(db: Star.Database, plans: seq<Plan>, stats: seq<Summary>)
    requires Inputs(db, plans, stats)
    ensures AllBounded(db, plans, Groups(stats, Alone(|stats|)))
  {
    var g := Groups(stats, Alone(|stats|));
    forall r: nat | r < |plans| ensures RootBounded(db, plans, g, r) && Keeps(plans, g, r) {
      assert Members(g.rep, r) == {r};
      OneBounded(db, plans, stats[r], r);
    }
  }

  lemma MergedBounded(db: Star.Database, plans: seq<Plan>, stats: seq<Summary>, x: Setting)
    requires Inputs(db, plans, stats) && StatsOk(stats, x) && x.k == 1.0
    ensures AllBounded(db, plans, AllMerged(stats, x)) && Visited(plans, AllMerged(stats, x).rep, |plans|, 0)
  {
    StartOk(stats, x);
    StartBounded(db, plans, stats);
    RunBounded(db, plans, Groups(stats, Alone(|stats|)), x, 0, 1);
  }

  // ---- The product over the groups ----

  /** The stars in groups before the `i`-th. */
  function Before(rep: map<nat, nat>, i: nat): set<nat> {
    set x | x in rep && rep[x] < i
  }

  lemma OneGroup(plans: seq<Plan>, rep: map<nat, nat>, x: nat, y: nat, t: string)
    requires Visited(plans, rep, |plans|, 0) && x < |plans| && y < |plans| && x in rep && y in rep
    requires t in PlanTables(plans[x]) && t in PlanTables(plans[y])
    ensures rep[x] == rep[y]
  {
    assert t in PlanTables(plans[x]) * PlanTables(plans[y]) && t in PlanTables(plans[y]) * PlanTables(plans[x]);
    if x < y {
      assert Joined(plans, rep, x, y);
    } else if y < x {
      assert Joined(plans, rep, y, x);
    }
  }

  /** When all pairs were visited, different groups share no table. */
  lemma GroupsApart(plans: seq<Plan>, rep: map<nat, nat>, i: nat)
    requires Visited(plans, rep, |plans|, 0)
    ensures Union(TableSets(plans), Before(rep, i)) * Union(TableSets(plans), Members(rep, i)) == {}
  {
    var sets := TableSets(plans);
    forall t | t in Union(sets, Before(rep, i)) ensures t !in Union(sets, Members(rep, i)) {
      if t in Union(sets, Members(rep, i)) {
        var x :| x in Before(rep, i) && x < |sets| && t in sets[x];
        var y :| y in Members(rep, i) && y < |sets| && t in sets[y];
        OneGroup(plans, rep, x, y, t);
      }
    }
  }

  lemma ListsNext(db: Star.Database, plans: seq<Plan>, rep: map<nat, nat>, i: nat, xs: seq<Tuple>, ys: seq<Tuple>)
    requires Visited(plans, rep, |plans|, 0) && Lists(db, plans, Before(rep, i), xs) && Lists(db, plans, Members(rep, i), ys)
    ensures Lists(db, plans, Before(rep, i + 1), Cross(xs, ys))
  {
    GroupsApart(plans, rep, i);
    CrossLists(db, plans, Before(rep, i), Members(rep, i), xs, ys);
    assert Before(rep, i + 1) == Before(rep, i) + Members(rep, i);
  }

  lemma ListsSkip(g: Groups, x: Setting, i: nat)
    requires GroupsOk(g, x) && !IsRoot(g.rep, i)
    ensures Before(g.rep, i + 1) == Before(g.rep, i)
  {
    forall y | y in g.rep ensures g.rep[y] != i {
      assert RepOk(g, y);
    }
  }

  lemma ProductAbove(m: nat, n: nat, x: real, y: real)
    requires m as real <= x && n as real <= y
    ensures (m * n) as real <= Product2(x, y)
  {
    var a, b := m as real, n as real;
    assert (m * n) as real == a * b;
    assert (x - a) * b >= 0.0 && x * (y - b) >= 0.0;
  }

  lemma CrossAbove(xs: seq<Tuple>, ys: seq<Tuple>, x: real, y: real)
    requires |xs| as real <= x && |ys| as real <= y
    ensures |Cross(xs, ys)| as real <= Product2(x, y)
  {
    CrossSize(xs, ys);
    ProductAbove(|xs|, |ys|, x, y);
  }

  lemma ListsNone(db: Star.Database, plans: seq<Plan>)
    ensures Lists(db, plans, {}, [map[]])
  {
    assert Union(TableSets(plans), {}) == {};
    forall z: Tuple ensures z in [map[]] <==> Combines(db, plans, {}, z) {
      assert z.Keys == {} ==> z == map[];
    }
  }

  ghost predicate Covered(db: Star.Database, plans: seq<Plan>, rep: map<nat, nat>, i: nat, results: seq<Tuple>, card: real) {
    Lists(db, plans, Before(rep, i), results) && |results| as real <= card
  }

  lemma CoverRoot(db: Star.Database, plans: seq<Plan>, g: Groups, i: nat, results: seq<Tuple>, card: real, s: Summary) returns (more: seq<Tuple>)
    requires Visited(plans, g.rep, |plans|, 0) && GroupBounded(db, plans, Members(g.rep, i), s)
    requires Covered(db, plans, g.rep, i, results, card)
    ensures Covered(db, plans, g.rep, i + 1, more, Product2(card, s.card))
  {
    var ys :| ListBounded(db, plans, Members(g.rep, i), s, ys);
    ListsNext(db, plans, g.rep, i, results, ys);
    CrossAbove(results, ys, card, s.card);
    more := Cross(results, ys);
  }

  /** The product over the first groups is at least the number of their combinations. */
  lemma {:induction false} ProductBounds(db: Star.Database, plans: seq<Plan>, g: Groups, x: Setting, i: nat) returns (results: seq<Tuple>)
    requires GroupsOk(g, x) && AllBounded(db, plans, g) && Visited(plans, g.rep, |plans|, 0) && i <= |plans|
    ensures Covered(db, plans, g.rep, i, results, RootProduct(g, i))
  {
    if i == 0 {
      assert Before(g.rep, 0) == {};
      ListsNone(db, plans);
      results := [map[]];
    } else {
      results := ProductBounds(db, plans, g, x, i - 1);
      if IsRoot(g.rep, i - 1) {
        assert RootBounded(db, plans, g, i - 1);
        results := CoverRoot(db, plans, g, i - 1, results, RootProduct(g, i - 1), g.stats[i - 1]);
      } else {
        ListsSkip(g, x, i - 1);
      }
    }
  }

  // ---- The query ----

  /** The tables of a query. */
  function AllTables(plans: seq<Plan>): set<string> {
    set i, t | 0 <= i < |plans| && t in PlanTables(plans[i]) :: t
  }

  /** The conditions of all its stars. */
  function AllConditions(plans: seq<Plan>): seq<Conjunct> {
    if plans == [] then [] else AllConditions(plans[..|plans| - 1]) + PlanConditions(plans[|plans| - 1])
  }

  ghost predicate EachHolds(db: Star.Database, plans: seq<Plan>, z: Tuple) {
    forall i :: 0 <= i < |plans| ==> PlanHolds(db, plans[i], z)
  }

  ghost predicate EachRowed(db: Star.Database, plans: seq<Plan>, z: Tuple) {
    forall i :: 0 <= i < |plans| ==> PlanOk(db, plans[i]) && Rowed(db, PlanTables(plans[i]), z)
  }

  lemma EachStep(db: Star.Database, plans: seq<Plan>, z: Tuple)
    requires plans != []
    ensures EachHolds(db, plans, z) <==> EachHolds(db, plans[..|plans| - 1], z) && PlanHolds(db, plans[|plans| - 1], z)
  {
    var k := |plans| - 1;
    if EachHolds(db, plans[..k], z) && PlanHolds(db, plans[k], z) {
      forall i | 0 <= i < |plans| ensures PlanHolds(db, plans[i], z) {
        if i < k {
          assert plans[..k][i] == plans[i];
        }
      }
    }
  }

  lemma {:induction false} AllConditionsHold(db: Star.Database, plans: seq<Plan>, z: Tuple)
    requires EachRowed(db, plans, z)
    ensures Sql.Holds(AllConditions(plans), EnvOf(db, z)) <==> EachHolds(db, plans, z)
  {
    if plans != [] {
      var k := |plans| - 1;
      AllConditionsHold(db, plans[..k], z);
      PlanConditionsHold(db, plans[k], z);
      HoldsAppend(AllConditions(plans[..k]), PlanConditions(plans[k]), EnvOf(db, z));
      EachStep(db, plans, z);
      assert Sql.Holds(AllConditions(plans[..k]), EnvOf(db, z)) <==> EachHolds(db, plans[..k], z);
      assert AllConditions(plans) == AllConditions(plans[..k]) + PlanConditions(plans[k]);
    }
  }

  ghost predicate PlansOk(db: Star.Database, plans: seq<Plan>) {
    forall i :: 0 <= i < |plans| ==> PlanOk(db, plans[i])
  }

  lemma RowedEach(db: Star.Database, plans: seq<Plan>, z: Tuple)
    requires PlansOk(db, plans) && Rowed(db, AllTables(plans), z)
    ensures EachRowed(db, plans, z)
  {
    forall i | 0 <= i < |plans| ensures Rowed(db, PlanTables(plans[i]), z) {
      assert forall t :: t in PlanTables(plans[i]) ==> t in AllTables(plans);
    }
  }

  lemma HoldsRowed(db: Star.Database, plans: seq<Plan>, z: Tuple)
    requires EachHolds(db, plans, z)
    ensures Rowed(db, AllTables(plans), z)
  {
    forall t | t in AllTables(plans) ensures t in z && 0 <= z[t] < |Lookup(db, t)| {
      var i :| 0 <= i < |plans| && t in PlanTables(plans[i]);
      PlanHoldsRowed(db, plans[i], z);
    }
  }

  /** The combinations of all stars are what the query counts. */
  lemma AllIsCounts(db: Star.Database, plans: seq<Plan>, z: Tuple)
    requires PlansOk(db, plans)
    ensures z.Keys == AllTables(plans) && EachHolds(db, plans, z) <==> Counts(db, AllTables(plans), AllConditions(plans), z)
  {
    if EachHolds(db, plans, z) {
      HoldsRowed(db, plans, z);
    }
    if Rowed(db, AllTables(plans), z) {
      RowedEach(db, plans, z);
      AllConditionsHold(db, plans, z);
    }
  }

  /** All stars. */
  ghost predicate Everyone(plans: seq<Plan>, all: set<nat>) {
    forall i: nat :: i < |plans| ==> i in all
  }

  lemma ListIsCount(db: Star.Database, plans: seq<Plan>, all: set<nat>, results: seq<Tuple>, tables: seq<string>)
    requires PlansOk(db, plans) && Everyone(plans, all) && Lists(db, plans, all, results)
    requires Distinct(tables) && Names(tables) == AllTables(plans)
    ensures |results| == Count(tables, db, map[], Where(AllConditions(plans)))
  {
    assert Union(TableSets(plans), all) == AllTables(plans);
    forall z ensures z in results <==> Counts(db, Names(tables), AllConditions(plans), z) {
      AllIsCounts(db, plans, z);
      assert MembersHold(db, plans, all, z) <==> EachHolds(db, plans, z);
    }
    ListCount(db, tables, AllConditions(plans), results);
  }

  lemma BeforeAll(g: Groups, x: Setting, plans: seq<Plan>)
    requires GroupsOk(g, x) && |g.stats| == |plans|
    ensures Everyone(plans, Before(g.rep, |plans|))
  {
    forall i: nat | i < |plans| ensures i in Before(g.rep, |plans|) {
      assert RepOk(g, i);
    }
  }

  /**
   At a rate of 1, whatever tables the stars share, the estimate is at least what the database counts for the query with
   the conditions of all stars, in whatever order its tables are named.
   */
  lemma EstimateAboveCount(db: Star.Database, plans: seq<Plan>, stats: seq<Summary>, x: Setting, tables: seq<string>)
    requires Inputs(db, plans, stats) && StatsOk(stats, x) && x.k == 1.0
    requires Distinct(tables) && Names(tables) == AllTables(plans)
    ensures Count(tables, db, map[], Where(AllConditions(plans))) as real <= EstimateOf(stats, x)
  {
    var g := AllMerged(stats, x);
    MergedBounded(db, plans, stats, x);
    var results := ProductBounds(db, plans, g, x, |plans|);
    BeforeAll(g, x, plans);
    ListIsCount(db, plans, Before(g.rep, |plans|), results, tables);
  }
}

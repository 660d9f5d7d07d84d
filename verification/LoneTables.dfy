/**
 Relations that take part in no join. Their statistic is that of the key with an empty column, which collection fills from
 the first column of the table it meets, and it counts the rows where this column is not NULL.
 */
module LoneTables {
  import opened Sums
  import opened Sql
  import opened Options
  import opened MergeBounds
  import opened StarJoins
  import opened PlanCounts
  import opened StarEstimation
  import opened StarGuarantee
  import Star = StarCollection
  import Single = StarBounds
  import Edges = StarEdges

  // ---- The column that stands for a table ----

  function ColumnIn(entries: seq<Star.TableColumn>, t: string): Option<Star.TableColumn> {
    if entries == [] then None else if entries[0].table == t then Some(entries[0]) else ColumnIn(entries[1..], t)
  }

  /** The first column of the table in the first EqualSet that has one. */
  function FirstColumn(esets: seq<seq<Star.TableColumn>>, t: string): Option<Star.TableColumn> {
    if esets == [] then None
    else if ColumnIn(esets[0], t).Some? then ColumnIn(esets[0], t)
    else FirstColumn(esets[1..], t)
  }

  lemma {:induction false} ColumnInIs(entries: seq<Star.TableColumn>, t: string, k: nat)
    requires k < |entries| && entries[k].table == t && forall i :: 0 <= i < k ==> entries[i].table != t
    ensures ColumnIn(entries, t) == Some(entries[k])
  {
    if k > 0 {
      ColumnInIs(entries[1..], t, k - 1);
    }
  }

  lemma {:induction false} NoColumnIn(entries: seq<Star.TableColumn>, t: string)
    requires forall i :: 0 <= i < |entries| ==> entries[i].table != t
    ensures ColumnIn(entries, t) == None
  {
    if entries != [] {
      NoColumnIn(entries[1..], t);
    }
  }

  ghost predicate Lacks(entries: seq<Star.TableColumn>, t: string, n: nat)
    requires n <= |entries|
  {
    forall i :: 0 <= i < n ==> entries[i].table != t
  }

  /** The column is the `k`-th of the `j`-th EqualSet, if the table is neither in an earlier one nor earlier in this one. */
  lemma {:induction false} FirstColumnIs(esets: seq<seq<Star.TableColumn>>, t: string, j: nat, k: nat)
    requires j < |esets| && k < |esets[j]| && esets[j][k].table == t && Lacks(esets[j], t, k)
    requires forall i :: 0 <= i < j ==> Lacks(esets[i], t, |esets[i]|)
    ensures FirstColumn(esets, t) == Some(esets[j][k])
  {
    if j > 0 {
      assert Lacks(esets[0], t, |esets[0]|);
      NoColumnIn(esets[0], t);
      FirstColumnIs(esets[1..], t, j - 1, k);
    } else {
      ColumnInIs(esets[0], t, k);
    }
  }

  function Either(a: Option<Star.TableColumn>, b: Option<Star.TableColumn>): Option<Star.TableColumn> {
    if a.Some? then a else b
  }

  function At(keys: map<string, Star.TableColumn>, t: string): Option<Star.TableColumn> {
    if t in keys then Some(keys[t]) else None
  }

  /** `PrepareCollection` on the subsets of one table: a key that has a statistic is skipped. */
  method PrepareSingles(keys: map<string, Star.TableColumn>, entries: seq<Star.TableColumn>) returns (keys': map<string, Star.TableColumn>)
    ensures forall t :: At(keys', t) == Either(At(keys, t), ColumnIn(entries, t))
  {
    keys' := keys;
    for i := 0 to |entries|
      invariant forall t :: Either(At(keys', t), ColumnIn(entries[i..], t)) == Either(At(keys, t), ColumnIn(entries, t))
    {
      assert entries[i..][1..] == entries[i + 1..];
      if entries[i].table !in keys' {
        keys' := keys'[entries[i].table := entries[i]];
      }
    }
  }

  /** The loop over the EqualSets. */
  method PrepareAll(esets: seq<seq<Star.TableColumn>>) returns (keys: map<string, Star.TableColumn>)
    ensures forall t :: At(keys, t) == FirstColumn(esets, t)
  {
    keys := map[];
    for i := 0 to |esets|
      invariant forall t :: Either(At(keys, t), FirstColumn(esets[i..], t)) == FirstColumn(esets, t)
    {
      assert esets[i..][1..] == esets[i + 1..];
      keys := PrepareSingles(keys, esets[i]);
    }
  }

  /** The first EqualSet with a column of the table. */
  function FirstSet(esets: seq<seq<Star.TableColumn>>, t: string): (i: nat)
    requires FirstColumn(esets, t).Some?
    ensures i < |esets| && ColumnIn(esets[i], t) == FirstColumn(esets, t)
  {
    if ColumnIn(esets[0], t).Some? then 0 else 1 + FirstSet(esets[1..], t)
  }

  lemma {:induction false} ColumnListed(entries: seq<Star.TableColumn>, t: string)
    requires ColumnIn(entries, t).Some?
    ensures ColumnIn(entries, t).value in entries && ColumnIn(entries, t).value.table == t
  {
    if entries[0].table != t {
      ColumnListed(entries[1..], t);
    }
  }

  /** What is looked up for a relation in no join. */
  function LonePlan(esets: seq<seq<Star.TableColumn>>, cns: seq<Single.CountNum>, t: string): Plan
    requires |cns| == |esets| && FirstColumn(esets, t).Some?
  {
    var i := FirstSet(esets, t);
    StarPlan(esets[i], [FirstColumn(esets, t).value], cns[i])
  }

  /** Its cardinality is the number of rows where the first collected column of the table is not NULL. */
  lemma LoneStatistic(db: Star.Database, esets: seq<seq<Star.TableColumn>>, cns: seq<Single.CountNum>, t: string, p: real)
    requires |cns| == |esets| && FirstColumn(esets, t).Some?
    requires Star.DistinctTables(esets[FirstSet(esets, t)])
    requires Star.IsCountNum(db, esets[FirstSet(esets, t)], cns[FirstSet(esets, t)])
    ensures var plan := LonePlan(esets, cns, t);
            IsLone(plan) && PlanOk(db, plan) && PlanTables(plan) == {t} &&
            Estimate(db, plan, p).card == |Select(Lookup(db, t), Star.IsNotNull(FirstColumn(esets, t).value.column))| as real
  {
    var i, e, plan := FirstSet(esets, t), FirstColumn(esets, t).value, LonePlan(esets, cns, t);
    ColumnListed(esets[i], t);
    assert plan.sub == [e];
    assert Edges.Source(db, plan.entries, plan.sub, plan.cn);
    Star.SingleStar(db, e);
    Edges.CardExact(db, plan.entries, plan.sub, plan.cn);
  }

  // ---- Queries with such relations ----

  /** A relation in no join is a star of one table. */
  predicate IsLone(plan: Plan) {
    plan.StarPlan? && |plan.sub| == 1
  }

  /** Its table is in no other star. */
  ghost predicate LoneApart(plans: seq<Plan>) {
    forall i, j :: 0 <= i < |plans| && 0 <= j < |plans| && i != j && IsLone(plans[i]) ==> plans[i].sub[0].table !in PlanTables(plans[j])
  }

  /** What the query asks for: the conditions of the stars that are joins. */
  function QueryConditions(plans: seq<Plan>): seq<Conjunct> {
    if plans == [] then []
    else QueryConditions(plans[..|plans| - 1]) + if IsLone(plans[|plans| - 1]) then [] else PlanConditions(plans[|plans| - 1])
  }

  function QueryCount(db: Star.Database, plans: seq<Plan>, tables: seq<string>): nat {
    Count(tables, db, map[], Where(QueryConditions(plans)))
  }

  /** What the statistics speak of: the same, without the rows where the column of a lone table is NULL. */
  function CollectedCount(db: Star.Database, plans: seq<Plan>, tables: seq<string>): nat {
    Count(tables, db, map[], Where(AllConditions(plans)))
  }

  ghost predicate HasNull(db: Star.Database, e: Star.TableColumn) {
    exists row :: row in Lookup(db, e.table) && Get(row, e.column) == Null
  }

  /** No lone table has a NULL in the column that stands for it. */
  ghost predicate NoNulls(db: Star.Database, plans: seq<Plan>) {
    forall i :: 0 <= i < |plans| && IsLone(plans[i]) ==> !HasNull(db, plans[i].sub[0])
  }

  // ---- What a combination of rows must satisfy ----

  ghost predicate JoinHolds(db: Star.Database, plan: Plan, z: Tuple) {
    IsLone(plan) || PlanHolds(db, plan, z)
  }

  ghost predicate JoinsHold(db: Star.Database, plans: seq<Plan>, z: Tuple) {
    forall i :: 0 <= i < |plans| ==> JoinHolds(db, plans[i], z)
  }

  lemma JoinsStep(db: Star.Database, plans: seq<Plan>, z: Tuple)
    requires plans != []
    ensures JoinsHold(db, plans, z) <==> JoinsHold(db, plans[..|plans| - 1], z) && JoinHolds(db, plans[|plans| - 1], z)
  {
    var k := |plans| - 1;
    if JoinsHold(db, plans[..k], z) && JoinHolds(db, plans[k], z) {
      forall i | 0 <= i < |plans| ensures JoinHolds(db, plans[i], z) {
        if i < k {
          assert plans[..k][i] == plans[i];
        }
      }
    }
  }

  lemma {:induction false} QueryConditionsHold(db: Star.Database, plans: seq<Plan>, z: Tuple)
    requires EachRowed(db, plans, z)
    ensures Sql.Holds(QueryConditions(plans), EnvOf(db, z)) <==> JoinsHold(db, plans, z)
  {
    if plans != [] {
      var k := |plans| - 1;
      var before, here := QueryConditions(plans[..k]), if IsLone(plans[k]) then [] else PlanConditions(plans[k]);
      QueryConditionsHold(db, plans[..k], z);
      PlanConditionsHold(db, plans[k], z);
      HoldsAppend(before, here, EnvOf(db, z));
      JoinsStep(db, plans, z);
      assert QueryConditions(plans) == before + here;
    }
  }

  /** One of the combinations that the query counts. */
  ghost predicate Answers(db: Star.Database, plans: seq<Plan>, z: Tuple) {
    z.Keys == AllTables(plans) && Rowed(db, AllTables(plans), z) && JoinsHold(db, plans, z)
  }

  lemma AnswersCount(db: Star.Database, plans: seq<Plan>, z: Tuple)
    requires PlansOk(db, plans)
    ensures Answers(db, plans, z) <==> Counts(db, AllTables(plans), QueryConditions(plans), z)
  {
    if Rowed(db, AllTables(plans), z) {
      RowedEach(db, plans, z);
      QueryConditionsHold(db, plans, z);
    }
  }

  lemma QueryList(db: Star.Database, plans: seq<Plan>, tables: seq<string>) returns (results: seq<Tuple>)
    requires PlansOk(db, plans) && Distinct(tables) && Names(tables) == AllTables(plans)
    ensures Distinct(results) && |results| == QueryCount(db, plans, tables)
    ensures forall z :: z in results <==> Answers(db, plans, z)
  {
    results := CountList(db, tables, QueryConditions(plans));
    forall z ensures z in results <==> Answers(db, plans, z) {
      AnswersCount(db, plans, z);
    }
  }

  lemma CollectedList(db: Star.Database, plans: seq<Plan>, tables: seq<string>) returns (results: seq<Tuple>)
    requires PlansOk(db, plans) && Distinct(tables) && Names(tables) == AllTables(plans)
    ensures Distinct(results) && |results| == CollectedCount(db, plans, tables)
    ensures forall z :: z in results <==> z.Keys == AllTables(plans) && EachHolds(db, plans, z)
  {
    results := CountList(db, tables, AllConditions(plans));
    forall z ensures z in results <==> z.Keys == AllTables(plans) && EachHolds(db, plans, z) {
      AllIsCounts(db, plans, z);
    }
  }

  lemma CountList(db: Star.Database, tables: seq<string>, conds: seq<Conjunct>) returns (results: seq<Tuple>)
    requires Distinct(tables)
    ensures Distinct(results) && |results| == Count(tables, db, map[], Where(conds))
    ensures forall z :: z in results <==> Counts(db, Names(tables), conds, z)
  {
    var p := Where(conds);
    results := Solutions(tables, db, map[], p);
    SolutionsDistinct(tables, db, map[], p);
    SolutionsCount(tables, db, map[], p);
    assert EnvOf(db, map[]) == map[];
    forall z ensures z in results <==> Counts(db, Names(tables), conds, z) {
      SolutionsMember(tables, db, map[], p, z);
      CompletedIsRowed(db, tables, Names(tables), z);
    }
  }

  // ---- A lone table holds where its column is not NULL ----

  lemma LoneHolds(db: Star.Database, plan: Plan, z: Tuple)
    requires IsLone(plan) && Rowed(db, PlanTables(plan), z)
    ensures plan.sub[0].table in z && 0 <= z[plan.sub[0].table] < |Lookup(db, plan.sub[0].table)|
    ensures PlanHolds(db, plan, z) <==> Get(Lookup(db, plan.sub[0].table)[z[plan.sub[0].table]], plan.sub[0].column) != Null
  {
    var e := plan.sub[0];
    assert plan.sub == [e];
    assert e in plan.sub;
    assert e.table in PlanTables(plan);
    match Get(Lookup(db, e.table)[z[e.table]], e.column)
    case Null =>
    case Val(v) => assert AllHave(db, plan.sub, z, v);
  }

  lemma EachIsJoins(db: Star.Database, plans: seq<Plan>, z: Tuple)
    requires EachHolds(db, plans, z)
    ensures JoinsHold(db, plans, z) && Rowed(db, AllTables(plans), z)
  {
    HoldsRowed(db, plans, z);
  }

  lemma TablesOf(plans: seq<Plan>, i: nat)
    requires i < |plans|
    ensures PlanTables(plans[i]) <= AllTables(plans)
  {
  }

  lemma JoinsIsEach(db: Star.Database, plans: seq<Plan>, z: Tuple)
    requires Answers(db, plans, z) && NoNulls(db, plans)
    ensures EachHolds(db, plans, z)
  {
    forall i | 0 <= i < |plans| ensures PlanHolds(db, plans[i], z) {
      assert JoinHolds(db, plans[i], z);
      if IsLone(plans[i]) {
        TablesOf(plans, i);
        LoneHolds(db, plans[i], z);
        var e := plans[i].sub[0];
        assert Lookup(db, e.table)[z[e.table]] in Lookup(db, e.table);
      }
    }
  }

  lemma SameElsewhere(db: Star.Database, plan: Plan, z: Tuple, y: Tuple)
    requires PlanHolds(db, plan, z) && Part(y, PlanTables(plan)) == Part(z, PlanTables(plan))
    ensures PlanHolds(db, plan, y)
  {
    PlanHoldsPart(db, plan, y, PlanTables(plan));
    PlanHoldsPart(db, plan, z, PlanTables(plan));
  }

  /** With another row of a lone table the joins hold as before. */
  lemma OtherRow(db: Star.Database, plans: seq<Plan>, z: Tuple, i: nat, r: nat)
    requires Answers(db, plans, z) && LoneApart(plans) && i < |plans| && IsLone(plans[i])
    requires r < |Lookup(db, plans[i].sub[0].table)|
    ensures Answers(db, plans, z[plans[i].sub[0].table := r])
  {
    var t := plans[i].sub[0].table;
    var y := z[t := r];
    assert plans[i].sub[0] in plans[i].sub;
    TablesOf(plans, i);
    assert y.Keys == z.Keys + {t};
    forall j | 0 <= j < |plans| ensures JoinHolds(db, plans[j], y) {
      assert JoinHolds(db, plans[j], z);
      if !IsLone(plans[j]) {
        assert t !in PlanTables(plans[j]);
        assert Part(y, PlanTables(plans[j])) == Part(z, PlanTables(plans[j]));
        SameElsewhere(db, plans[j], z, y);
      }
    }
  }

  lemma NullMissed(db: Star.Database, plans: seq<Plan>, z: Tuple) returns (y: Tuple)
    requires Answers(db, plans, z) && LoneApart(plans) && !NoNulls(db, plans)
    ensures Answers(db, plans, y) && !EachHolds(db, plans, y)
  {
    var i: nat :| i < |plans| && IsLone(plans[i]) && HasNull(db, plans[i].sub[0]);
    var e := plans[i].sub[0];
    var row :| row in Lookup(db, e.table) && Get(row, e.column) == Null;
    var r: nat :| r < |Lookup(db, e.table)| && Lookup(db, e.table)[r] == row;
    OtherRow(db, plans, z, i, r);
    y := z[e.table := r];
    TablesOf(plans, i);
    LoneHolds(db, plans[i], y);
  }

  // ---- Lists within lists ----

  lemma Sublist<A>(a: seq<A>, b: seq<A>)
    requires Distinct(a) && Distinct(b) && forall x :: x in a ==> x in b
    ensures |a| <= |b| && (|a| == |b| ==> forall x :: x in b ==> x in a)
  {
    DistinctSize(a);
    DistinctSize(b);
    SubsetSize(Elements(a), Elements(b));
    if |a| == |b| {
      forall x | x in b ensures x in a {
        assert x in Elements(b);
      }
    }
  }

  lemma SubsetSize<A>(a: set<A>, b: set<A>)
    requires a <= b
    ensures |a| <= |b| && (|a| == |b| ==> a == b)
  {
    assert b == a + (b - a);
    assert |b| == |a| + |b - a|;
  }

  /**
   The statistics speak of every combination that the query counts iff no lone table has a NULL in its column, or there
   is nothing to count.
   */
  lemma CollectedIff(db: Star.Database, plans: seq<Plan>, tables: seq<string>)
    requires PlansOk(db, plans) && LoneApart(plans) && Distinct(tables) && Names(tables) == AllTables(plans)
    ensures CollectedCount(db, plans, tables) <= QueryCount(db, plans, tables)
    ensures CollectedCount(db, plans, tables) == QueryCount(db, plans, tables) <==>
            NoNulls(db, plans) || QueryCount(db, plans, tables) == 0
  {
    var all := QueryList(db, plans, tables);
    var some := CollectedList(db, plans, tables);
    forall z | z in some ensures z in all {
      EachIsJoins(db, plans, z);
    }
    Sublist(some, all);
    if NoNulls(db, plans) {
      forall z | z in all ensures z in some {
        JoinsIsEach(db, plans, z);
      }
      Sublist(all, some);
    } else if all != [] {
      assert all[0] in all;
      var y := NullMissed(db, plans, all[0]);
      assert y in all && y !in some;
    }
  }

  // ---- What this does to the estimate ----

  /** At a rate of 1, without such a NULL, or with nothing to count, the estimate is at least the count of the query. */
  lemma EstimateAboveQuery(db: Star.Database, plans: seq<Plan>, stats: seq<Summary>, x: Setting, tables: seq<string>)
    requires Inputs(db, plans, stats) && StatsOk(stats, x) && x.k == 1.0
    requires LoneApart(plans) && Distinct(tables) && Names(tables) == AllTables(plans)
    requires NoNulls(db, plans) || QueryCount(db, plans, tables) == 0
    ensures QueryCount(db, plans, tables) as real <= EstimateOf(stats, x)
  {
    CollectedIff(db, plans, tables);
    EstimateAboveCount(db, plans, stats, x, tables);
  }

  /** No two stars share a table, so nothing is merged. */
  ghost predicate Separate(plans: seq<Plan>) {
    forall i, j :: 0 <= i < j < |plans| ==> PlanTables(plans[i]) * PlanTables(plans[j]) == {}
  }

  lemma {:induction false} RunAlone(g: Groups, x: Setting, i: nat, j: nat)
    requires GroupsOk(g, x) && i < j
    requires forall a: nat, b: nat :: a < b < |g.stats| ==> g.stats[a].tables * g.stats[b].tables == {}
    ensures RunFrom(g, x, i, j) == g
    decreases |g.stats| - i, |g.stats| - j
  {
    if i < |g.stats| && j < |g.stats| {
      RunAlone(g, x, i, j + 1);
    } else if i < |g.stats| {
      RunAlone(g, x, i + 1, i + 2);
    }
  }

  /** The statistics as collection leaves them. */
  ghost predicate Collects(db: Star.Database, plans: seq<Plan>, stats: seq<Summary>, p: real) {
    |stats| == |plans| && forall i: nat :: i < |plans| ==> CollectsOne(db, plans[i], stats[i], p)
  }

  ghost predicate CollectsOne(db: Star.Database, plan: Plan, s: Summary, p: real) {
    plan.StarPlan? && PlanOk(db, plan) && s == Estimate(db, plan, p)
  }

  lemma CollectsInputs(db: Star.Database, plans: seq<Plan>, stats: seq<Summary>, p: real)
    requires Collects(db, plans, stats, p)
    ensures Inputs(db, plans, stats) && PlansOk(db, plans)
  {
    forall i: nat | i < |plans| ensures Bounded(db, plans[i], stats[i]) {
      assert CollectsOne(db, plans[i], stats[i], p);
      EstimateBounded(db, plans[i], p);
    }
  }

  /** A star's cardinality is exact. */
  lemma CollectedExact(db: Star.Database, plan: Plan, s: Summary, p: real)
    requires CollectsOne(db, plan, s, p)
    ensures s.card == |Results(db, plan)| as real && |Results(db, plan)| == Star.StarSize(db, plan.sub)
  {
    StarBounded(db, plan.entries, plan.sub, plan.cn, p);
    Edges.CardExact(db, plan.entries, plan.sub, plan.cn);
  }

  lemma ProductReal(m: nat, n: nat)
    ensures (m * n) as real == Product2(m as real, n as real)
  {
  }

  lemma BeforeAlone(n: nat, i: nat)
    requires i < n
    ensures Before(Alone(n), i + 1) == Before(Alone(n), i) + {i} && IsRoot(Alone(n), i) && Members(Alone(n), i) == {i}
  {
  }

  function CardProduct(stats: seq<Summary>, i: nat): real
    requires i <= |stats|
  {
    if i == 0 then 1.0 else Product2(CardProduct(stats, i - 1), stats[i - 1].card)
  }

  lemma {:induction false} ProductAlone(stats: seq<Summary>, i: nat)
    requires i <= |stats|
    ensures RootProduct(Groups(stats, Alone(|stats|)), i) == CardProduct(stats, i)
  {
    if i > 0 {
      ProductAlone(stats, i - 1);
      BeforeAlone(|stats|, i - 1);
    }
  }

  /** The product over the first groups counts their combinations. */
  ghost predicate Exact(db: Star.Database, plans: seq<Plan>, members: set<nat>, results: seq<Tuple>, card: real) {
    Lists(db, plans, members, results) && |results| as real == card
  }

  lemma ExactStart(db: Star.Database, plans: seq<Plan>)
    ensures Exact(db, plans, Before(Alone(|plans|), 0), [map[]], 1.0)
  {
    assert Before(Alone(|plans|), 0) == {};
    ListsNone(db, plans);
  }

  lemma ExactNext(db: Star.Database, plans: seq<Plan>, i: nat, s: Summary, p: real, results: seq<Tuple>, card: real)
    requires i < |plans| && CollectsOne(db, plans[i], s, p) && Visited(plans, Alone(|plans|), |plans|, 0)
    requires Exact(db, plans, Before(Alone(|plans|), i), results, card)
    ensures Exact(db, plans, Before(Alone(|plans|), i + 1), Cross(results, Results(db, plans[i])), Product2(card, s.card))
  {
    var more := Results(db, plans[i]);
    OneLists(db, plans, i);
    BeforeAlone(|plans|, i);
    ListsNext(db, plans, Alone(|plans|), i, results, more);
    CrossSize(results, more);
    CollectedExact(db, plans[i], s, p);
    ProductReal(|results|, |more|);
  }

  /** All combinations of the first stars. */
  function CrossAll(db: Star.Database, plans: seq<Plan>, i: nat): seq<Tuple>
    requires i <= |plans|
  {
    if i == 0 then [map[]] else Cross(CrossAll(db, plans, i - 1), Results(db, plans[i - 1]))
  }

  ghost predicate ExactTo(db: Star.Database, plans: seq<Plan>, stats: seq<Summary>, i: nat) {
    i <= |plans| == |stats| && Exact(db, plans, Before(Alone(|plans|), i), CrossAll(db, plans, i), CardProduct(stats, i))
  }

  lemma ExactStep(db: Star.Database, plans: seq<Plan>, stats: seq<Summary>, p: real, i: nat)
    requires ExactTo(db, plans, stats, i) && i < |plans| && CollectsOne(db, plans[i], stats[i], p)
    requires Visited(plans, Alone(|plans|), |plans|, 0)
    ensures ExactTo(db, plans, stats, i + 1)
  {
    ExactNext(db, plans, i, stats[i], p, CrossAll(db, plans, i), CardProduct(stats, i));
  }

  lemma {:induction false} ProductExact(db: Star.Database, plans: seq<Plan>, stats: seq<Summary>, p: real, i: nat)
    requires Collects(db, plans, stats, p) && Visited(plans, Alone(|plans|), |plans|, 0) && i <= |plans|
    ensures ExactTo(db, plans, stats, i)
  {
    if i == 0 {
      ExactStart(db, plans);
    } else {
      ProductExact(db, plans, stats, p, i - 1);
      ExactStep(db, plans, stats, p, i - 1);
    }
  }

  lemma SeparateStats(db: Star.Database, plans: seq<Plan>, stats: seq<Summary>, x: Setting, p: real)
    requires Collects(db, plans, stats, p) && Separate(plans) && StatsOk(stats, x)
    ensures AllMerged(stats, x) == Groups(stats, Alone(|stats|)) && Visited(plans, Alone(|plans|), |plans|, 0)
  {
    StartOk(stats, x);
    forall i: nat | i < |plans| ensures stats[i].tables == PlanTables(plans[i]) {
      assert CollectsOne(db, plans[i], stats[i], p);
    }
    RunAlone(Groups(stats, Alone(|stats|)), x, 0, 1);
  }

  lemma AllBefore(n: nat)
    ensures forall i: nat :: i < n ==> i in Before(Alone(n), n)
  {
  }

  /** Without merges the estimate is exactly what the statistics speak of, at any rate. */
  lemma SeparateExact(db: Star.Database, plans: seq<Plan>, stats: seq<Summary>, x: Setting, tables: seq<string>)
    requires Collects(db, plans, stats, x.p) && Separate(plans) && StatsOk(stats, x)
    requires Distinct(tables) && Names(tables) == AllTables(plans)
    ensures EstimateOf(stats, x) == CollectedCount(db, plans, tables) as real
  {
    CollectsInputs(db, plans, stats, x.p);
    SeparateStats(db, plans, stats, x, x.p);
    ProductExact(db, plans, stats, x.p, |plans|);
    ProductAlone(stats, |stats|);
    AllBefore(|plans|);
    ListIsCount(db, plans, Before(Alone(|plans|), |plans|), CrossAll(db, plans, |plans|), tables);
  }

  /** Nothing to choose from: a table without rows, or a join without results. */
  ghost predicate Vacant(db: Star.Database, plan: Plan) {
    && plan.StarPlan? && plan.sub != []
    && if IsLone(plan) then Lookup(db, plan.sub[0].table) == [] else Star.StarSize(db, plan.sub) == 0
  }

  ghost predicate SomeVacant(db: Star.Database, plans: seq<Plan>) {
    exists i :: 0 <= i < |plans| && Vacant(db, plans[i])
  }

  lemma OneChoice(db: Star.Database, plan: Plan, p: real) returns (z: Tuple)
    requires PlanOk(db, plan) && plan.StarPlan? && !Vacant(db, plan)
    ensures z.Keys == PlanTables(plan) && Rowed(db, PlanTables(plan), z) && JoinHolds(db, plan, z)
  {
    if IsLone(plan) {
      z := map[plan.sub[0].table := 0];
      assert plan.sub == [plan.sub[0]];
    } else {
      z := JoinChoice(db, plan, p);
    }
  }

  lemma JoinChoice(db: Star.Database, plan: Plan, p: real) returns (z: Tuple)
    requires PlanOk(db, plan) && plan.StarPlan? && Star.StarSize(db, plan.sub) > 0
    ensures z.Keys == PlanTables(plan) && Rowed(db, PlanTables(plan), z) && PlanHolds(db, plan, z)
  {
    CollectedExact(db, plan, Estimate(db, plan, p), p);
    z := Results(db, plan)[0];
    ListedChoice(db, plan, z);
  }

  lemma ListedChoice(db: Star.Database, plan: Plan, z: Tuple)
    requires PlanOk(db, plan) && z in Results(db, plan)
    ensures z.Keys == PlanTables(plan) && Rowed(db, PlanTables(plan), z) && PlanHolds(db, plan, z)
  {
    ResultsList(db, plan);
    PlanHoldsRowed(db, plan, z);
  }

  /** Where `y` picks the rows of `z`, a join that holds for `z` holds for `y`. */
  lemma JoinElsewhere(db: Star.Database, plan: Plan, z: Tuple, y: Tuple)
    requires JoinHolds(db, plan, z) && Part(y, PlanTables(plan)) == Part(z, PlanTables(plan))
    ensures JoinHolds(db, plan, y)
  {
    if !IsLone(plan) {
      SameElsewhere(db, plan, z, y);
    }
  }

  lemma TablesStep(plans: seq<Plan>, k: nat)
    requires k + 1 == |plans|
    ensures AllTables(plans) == AllTables(plans[..k]) + PlanTables(plans[k])
  {
    assert forall i :: 0 <= i < k ==> plans[..k][i] == plans[i];
  }

  lemma BothPick(z: Tuple, w: Tuple, us: set<string>)
    ensures us <= w.Keys ==> Part(z + w, us) == Part(w, us)
    ensures us * w.Keys == {} ==> Part(z + w, us) == Part(z, us)
  {
    if us * w.Keys == {} {
      forall t | t in us ensures t !in w {
        assert t in w ==> t in us * w.Keys;
      }
    }
  }

  lemma BothHold(db: Star.Database, plans: seq<Plan>, k: nat, z: Tuple, w: Tuple)
    requires k + 1 == |plans| && Separate(plans) && Answers(db, plans[..k], z)
    requires w.Keys == PlanTables(plans[k]) && Rowed(db, PlanTables(plans[k]), w) && JoinHolds(db, plans[k], w)
    ensures Answers(db, plans, z + w)
  {
    TablesStep(plans, k);
    forall j | 0 <= j < |plans| ensures JoinHolds(db, plans[j], z + w) {
      BothPick(z, w, PlanTables(plans[j]));
      if j == k {
        JoinElsewhere(db, plans[k], w, z + w);
      } else {
        assert plans[..k][j] == plans[j];
        assert JoinHolds(db, plans[..k][j], z);
        JoinElsewhere(db, plans[j], z, z + w);
      }
    }
  }

  lemma {:induction false} SomeAnswer(db: Star.Database, plans: seq<Plan>, p: real) returns (z: Tuple)
    requires Separate(plans)
    requires forall i :: 0 <= i < |plans| ==> PlanOk(db, plans[i]) && plans[i].StarPlan? && !Vacant(db, plans[i])
    ensures Answers(db, plans, z)
  {
    if plans == [] {
      z := map[];
    } else {
      var k := |plans| - 1;
      z := SomeAnswer(db, plans[..k], p);
      var w := OneChoice(db, plans[k], p);
      BothHold(db, plans, k, z, w);
      z := z + w;
    }
  }

  lemma AnswerResult(db: Star.Database, plans: seq<Plan>, i: nat, z: Tuple)
    requires i < |plans| && PlanOk(db, plans[i]) && !IsLone(plans[i]) && Answers(db, plans, z)
    ensures |Results(db, plans[i])| > 0
  {
    TablesOf(plans, i);
    assert JoinHolds(db, plans[i], z);
    ResultsList(db, plans[i]);
    PlanHoldsPart(db, plans[i], z, PlanTables(plans[i]));
    assert Part(z, PlanTables(plans[i])) in Results(db, plans[i]);
  }

  lemma VacantNone(db: Star.Database, plans: seq<Plan>, i: nat, z: Tuple, p: real)
    requires i < |plans| && PlanOk(db, plans[i]) && plans[i].StarPlan? && Answers(db, plans, z)
    ensures !Vacant(db, plans[i])
  {
    if IsLone(plans[i]) {
      TablesOf(plans, i);
      LoneHolds(db, plans[i], z);
    } else {
      AnswerResult(db, plans, i, z);
      CollectedExact(db, plans[i], Estimate(db, plans[i], p), p);
    }
  }

  lemma NotInBoth(t: string, a: set<string>, b: set<string>)
    requires t in a && (a * b == {} || b * a == {})
    ensures t !in b
  {
    assert t in b ==> t in a * b && t in b * a;
  }

  lemma SeparateApart(plans: seq<Plan>)
    requires Separate(plans)
    ensures LoneApart(plans)
  {
    forall i, j | 0 <= i < |plans| && 0 <= j < |plans| && i != j && IsLone(plans[i])
      ensures plans[i].sub[0].table !in PlanTables(plans[j])
    {
      assert plans[i].sub[0] in plans[i].sub;
      assert plans[i].sub[0].table in PlanTables(plans[i]);
      var t := plans[i].sub[0].table;
      NotInBoth(t, PlanTables(plans[i]), PlanTables(plans[j]));
    }
  }

  lemma ZeroIff(db: Star.Database, plans: seq<Plan>, stats: seq<Summary>, p: real, tables: seq<string>)
    requires Collects(db, plans, stats, p) && Separate(plans) && Distinct(tables) && Names(tables) == AllTables(plans)
    ensures QueryCount(db, plans, tables) == 0 <==> SomeVacant(db, plans)
  {
    CollectsInputs(db, plans, stats, p);
    forall i | 0 <= i < |plans| ensures PlanOk(db, plans[i]) && plans[i].StarPlan? {
      assert CollectsOne(db, plans[i], stats[i], p);
    }
    var all := QueryList(db, plans, tables);
    if i: nat :| i < |plans| && Vacant(db, plans[i]) {
      if all != [] {
        assert all[0] in all;
        VacantNone(db, plans, i, all[0], p);
      }
    } else {
      var z := SomeAnswer(db, plans, p);
      assert z in all;
    }
  }

  /**
   For a query whose stars share no table, lone relations among them, at any rate: the estimate is at least the count iff
   no lone table has a NULL in the column that stands for it, or one factor of the count is 0.
   */
  lemma SeparateIff(db: Star.Database, plans: seq<Plan>, stats: seq<Summary>, x: Setting, tables: seq<string>)
    requires Collects(db, plans, stats, x.p) && Separate(plans) && StatsOk(stats, x)
    requires Distinct(tables) && Names(tables) == AllTables(plans)
    ensures QueryCount(db, plans, tables) as real <= EstimateOf(stats, x) <==> NoNulls(db, plans) || SomeVacant(db, plans)
  {
    CollectsInputs(db, plans, stats, x.p);
    SeparateExact(db, plans, stats, x, tables);
    ZeroIff(db, plans, stats, x.p, tables);
    SeparateApart(plans);
    CollectedIff(db, plans, tables);
  }

  // ---- One lone relation ----

  lemma OneStatOk(s: Summary, x: Setting)
    requires Within(s) && Rate(x.k) && forall t :: t in s.tables ==> t in x.rels
    ensures StatsOk([s], x)
  {
    assert StatOk([s][0], x);
    assert Apart([s], 0);
  }

  lemma OneCollects(db: Star.Database, plan: Plan, s: Summary, p: real)
    requires CollectsOne(db, plan, s, p)
    ensures Collects(db, [plan], [s], p)
  {
  }

  lemma OneTable(plan: Plan)
    requires IsLone(plan)
    ensures Separate([plan]) && Distinct([plan.sub[0].table]) && Names([plan.sub[0].table]) == AllTables([plan])
  {
    LoneTable(plan);
    assert [plan][0] == plan;
    assert Names([plan.sub[0].table]) == {plan.sub[0].table};
  }

  lemma NullsOfOne(db: Star.Database, plan: Plan)
    requires IsLone(plan)
    ensures NoNulls(db, [plan]) || SomeVacant(db, [plan]) <==> !HasNull(db, plan.sub[0])
  {
    assert [plan][0] == plan;
    assert HasNull(db, plan.sub[0]) ==> !Vacant(db, plan);
  }

  lemma LoneTable(plan: Plan)
    requires IsLone(plan)
    ensures PlanTables(plan) == {plan.sub[0].table}
  {
    assert plan.sub == [plan.sub[0]];
  }

  lemma LoneFits(db: Star.Database, plan: Plan, s: Summary, x: Setting)
    requires IsLone(plan) && CollectsOne(db, plan, s, x.p) && Rate(x.k) && plan.sub[0].table in x.rels
    ensures StatsOk([s], x)
  {
    EstimateBounded(db, plan, x.p);
    LoneTable(plan);
    OneStatOk(s, x);
  }

  /** All rows of one table, at any rate: there are more than estimated iff the column that stands for it has a NULL. */
  lemma LoneBelowIff(db: Star.Database, plan: Plan, s: Summary, x: Setting)
    requires IsLone(plan) && CollectsOne(db, plan, s, x.p) && Rate(x.k) && plan.sub[0].table in x.rels
    ensures StatsOk([s], x)
    ensures EstimateOf([s], x) < QueryCount(db, [plan], [plan.sub[0].table]) as real <==> HasNull(db, plan.sub[0])
  {
    LoneFits(db, plan, s, x);
    OneCollects(db, plan, s, x.p);
    OneTable(plan);
    SeparateIff(db, [plan], [s], x, [plan.sub[0].table]);
    NullsOfOne(db, plan);
  }

  /** Two posts, one of them without an owner. */
  function OwnerMissing(): Star.Database {
    map["posts" := [map["Id" := Val(1), "OwnerUserId" := Null], map["Id" := Val(2), "OwnerUserId" := Val(7)]]]
  }

  function OwnerEntries(): seq<Star.TableColumn> {
    [Star.TableColumn("badges", "UserId"), Star.TableColumn("posts", "OwnerUserId")]
  }

  lemma OwnerColumn()
    ensures Star.DistinctTables(OwnerEntries()) && FirstColumn([OwnerEntries()], "posts") == Some(Star.TableColumn("posts", "OwnerUserId"))
    ensures FirstSet([OwnerEntries()], "posts") == 0
    ensures HasNull(OwnerMissing(), Star.TableColumn("posts", "OwnerUserId"))
  {
    var entries := OwnerEntries();
    assert entries[1..] == [Star.TableColumn("posts", "OwnerUserId")];
    assert Lookup(OwnerMissing(), "posts")[0] in Lookup(OwnerMissing(), "posts");
  }

  /** If the owner is the first column of `posts` to be collected, the number of posts is underestimated. */
  lemma NullUnderestimated(cn: Single.CountNum, x: Setting, plan: Plan, s: Summary)
    requires Star.IsCountNum(OwnerMissing(), OwnerEntries(), cn) && FirstColumn([OwnerEntries()], "posts").Some?
    requires plan == LonePlan([OwnerEntries()], [cn], "posts") && Rate(x.k) && "posts" in x.rels
    requires CollectsOne(OwnerMissing(), plan, s, x.p)
    ensures StatsOk([s], x)
    ensures EstimateOf([s], x) < QueryCount(OwnerMissing(), [plan], ["posts"]) as real
  {
    OwnerColumn();
    LoneBelowIff(OwnerMissing(), plan, s, x);
  }
}

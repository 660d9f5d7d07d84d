/**
 GROUP BY pushdown: the count of a join is computed by grouping every base table on its join
 keys first and summing products of group counts.
 */
module GroupByPushdown {
  import opened Sums
  import opened Sql
  import Ordering

  /** A parsed query: FROM aliases in textual order, their tables, and the WHERE conjuncts. */
  datatype Query = Query(aliases: seq<string>, tableOf: map<string, string>, conds: seq<Conjunct>)

  type Database = map<string, seq<Row>>

  function Refs(c: Conjunct): seq<Ref> {
    match c
    case JoinEq(l, r) => [l, r]
    case Other(refs, _) => refs
  }

  predicate Mentions(c: Conjunct, alias: string) {
    exists i :: 0 <= i < |Refs(c)| && Refs(c)[i].alias == alias
  }

  /** A query the database accepts: aliases are not repeated and every reference is in scope. */
  ghost predicate WellFormed(q: Query) {
    && Distinct(q.aliases)
    && q.tableOf.Keys == Names(q.aliases)
    && forall c :: c in q.conds ==> forall i :: 0 <= i < |Refs(c)| ==> Refs(c)[i].alias in q.aliases
  }

  /** The aliases a condition refers to, each once. */
  function AliasRefs(c: Conjunct, aliases: seq<string>): seq<string> {
    Select(aliases, a => Mentions(c, a))
  }

  datatype Kind = Join | Single(alias: string) | CrossTable | NoAlias

  function Classify(c: Conjunct, aliases: seq<string>): Kind {
    if c.JoinEq? && c.left.alias in aliases && c.right.alias in aliases then Join
    else
      var refs := AliasRefs(c, aliases);
      if |refs| == 1 then Single(refs[0]) else if |refs| > 1 then CrossTable else NoAlias
  }

  function KindIs(aliases: seq<string>, k: Kind): Conjunct -> bool {
    c => Classify(c, aliases) == k
  }

  /** The conjuncts of one kind among the first `n`. */
  function Prefix(q: Query, n: nat, k: Kind): seq<Conjunct>
    requires n <= |q.conds|
  {
    Select(q.conds[..n], KindIs(q.aliases, k))
  }

  function OfKind(q: Query, k: Kind): seq<Conjunct> {
    Prefix(q, |q.conds|, k)
  }

  lemma PrefixStep(q: Query, n: nat, k: Kind)
    requires n < |q.conds|
    ensures Prefix(q, n + 1, k) ==
            Prefix(q, n, k) + if Classify(q.conds[n], q.aliases) == k then [q.conds[n]] else []
  {
    assert q.conds[..n + 1] == q.conds[..n] + [q.conds[n]];
    SelectAppend(q.conds[..n], [q.conds[n]], KindIs(q.aliases, k));
  }

  /** The loop that sorts the conjuncts into join conditions, single-table and cross-table predicates. */
  method ParseQuery(q: Query)
    returns (joins: seq<Conjunct>, predicates: map<string, seq<Conjunct>>, cross: seq<Conjunct>)
    ensures joins == OfKind(q, Join)
    ensures cross == OfKind(q, CrossTable)
    ensures forall a :: Lookup(predicates, a) == OfKind(q, Single(a))
  {
    joins, predicates, cross := [], map[], [];
    for i := 0 to |q.conds|
      invariant joins == Prefix(q, i, Join)
      invariant cross == Prefix(q, i, CrossTable)
      invariant forall a :: Lookup(predicates, a) == Prefix(q, i, Single(a))
    {
      var cond := q.conds[i];
      PrefixStep(q, i, Join);
      PrefixStep(q, i, CrossTable);
      forall a ensures Prefix(q, i + 1, Single(a)) ==
                       Prefix(q, i, Single(a)) + if Classify(cond, q.aliases) == Single(a) then [cond] else []
      {
        PrefixStep(q, i, Single(a));
      }
      match Classify(cond, q.aliases)
      case Join =>
        joins := joins + [cond];
      case Single(a) =>
        predicates := predicates[a := Lookup(predicates, a) + [cond]];
      case CrossTable =>
        cross := cross + [cond];
      case NoAlias =>
    }
  }

  /** The columns of `alias` that occur in the given join conditions. */
  function JoinKeys(joins: seq<Conjunct>, alias: string): set<string> {
    if joins == [] then {} else JoinKeys(joins[..|joins| - 1], alias) + KeysOf(joins[|joins| - 1], alias)
  }

  function KeysOf(c: Conjunct, alias: string): set<string> {
    if c.JoinEq? then
      (if c.left.alias == alias then {c.left.col} else {}) + (if c.right.alias == alias then {c.right.col} else {})
    else {}
  }

  function KeysAt(keys: map<string, set<string>>, alias: string): set<string> {
    if alias in keys then keys[alias] else {}
  }

  function AddKey(keys: map<string, set<string>>, r: Ref): (keys': map<string, set<string>>)
    ensures forall a :: KeysAt(keys', a) == KeysAt(keys, a) + if r.alias == a then {r.col} else {}
  {
    keys[r.alias := KeysAt(keys, r.alias) + {r.col}]
  }

  lemma JoinKeysStep(joins: seq<Conjunct>, i: nat, alias: string)
    requires i < |joins|
    ensures JoinKeys(joins[..i + 1], alias) == JoinKeys(joins[..i], alias) + KeysOf(joins[i], alias)
  {
    assert joins[..i + 1][..i] == joins[..i];
  }

  method GetJoinKeys(joins: seq<Conjunct>) returns (keys: map<string, set<string>>)
    requires forall i :: 0 <= i < |joins| ==> joins[i].JoinEq?
    ensures forall a :: KeysAt(keys, a) == JoinKeys(joins, a)
  {
    keys := map[];
    for i := 0 to |joins|
      invariant forall a :: KeysAt(keys, a) == JoinKeys(joins[..i], a)
    {
      ghost var before := keys;
      keys := AddKey(AddKey(keys, joins[i].left), joins[i].right);
      forall a ensures KeysAt(keys, a) == JoinKeys(joins[..i + 1], a) {
        JoinKeysStep(joins, i, a);
        assert KeysAt(keys, a) == KeysAt(before, a) + KeysOf(joins[i], a);
      }
    }
    assert joins[..|joins|] == joins;
  }

  lemma {:induction false} JoinKeysMember(joins: seq<Conjunct>, i: nat, alias: string)
    requires i < |joins|
    ensures KeysOf(joins[i], alias) <= JoinKeys(joins, alias)
    decreases |joins|
  {
    if i < |joins| - 1 {
      JoinKeysMember(joins[..|joins| - 1], i, alias);
    }
  }

  /** One common table expression: filter, then group by `cols`, with the group size as `cnt`. */
  datatype Cte = Cte(alias: string, table: string, cols: set<string>, preds: seq<Conjunct>)

  /** The generated query: `SELECT COALESCE(SUM(a1.cnt * ... * an.cnt), 0) FROM ctes WHERE outer`. */
  datatype GroupedQuery = GroupedQuery(ctes: seq<Cte>, outer: seq<Conjunct>)

  function CteFor(q: Query, a: string): Cte {
    Cte(a, if a in q.tableOf then q.tableOf[a] else "", JoinKeys(OfKind(q, Join), a), OfKind(q, Single(a)))
  }

  function CtesFor(q: Query, aliases: seq<string>): (ctes: seq<Cte>)
    ensures |ctes| == |aliases| && forall i :: 0 <= i < |ctes| ==> ctes[i] == CteFor(q, aliases[i])
  {
    if aliases == [] then [] else [CteFor(q, aliases[0])] + CtesFor(q, aliases[1..])
  }

  function Rewrite(q: Query): GroupedQuery {
    GroupedQuery(CtesFor(q, Ordering.Sort(q.aliases)), OfKind(q, Join) + OfKind(q, CrossTable))
  }

  lemma JoinsAreEqualities(q: Query)
    ensures forall i :: 0 <= i < |OfKind(q, Join)| ==> OfKind(q, Join)[i].JoinEq?
  {
    forall i | 0 <= i < |OfKind(q, Join)| ensures OfKind(q, Join)[i].JoinEq? {
      SelectMember(q.conds[..|q.conds|], KindIs(q.aliases, Join), OfKind(q, Join)[i]);
    }
  }

  lemma SortedNames(aliases: seq<string>)
    ensures Names(Ordering.Sort(aliases)) == Names(aliases)
  {
    var sorted := Ordering.Sort(aliases);
    assert forall a :: a in sorted <==> a in multiset(sorted);
    assert forall a :: a in aliases <==> a in multiset(aliases);
  }

  method BuildCtes(q: Query, aliases: seq<string>, keys: map<string, set<string>>,
                   predicates: map<string, seq<Conjunct>>)
    returns (ctes: seq<Cte>)
    requires forall a :: a in aliases ==> a in q.tableOf
    requires forall a :: KeysAt(keys, a) == JoinKeys(OfKind(q, Join), a)
    requires forall a :: Lookup(predicates, a) == OfKind(q, Single(a))
    ensures ctes == CtesFor(q, aliases)
  {
    ctes := [];
    for i := 0 to |aliases|
      invariant |ctes| == i
      invariant forall j :: 0 <= j < i ==> ctes[j] == CteFor(q, aliases[j])
    {
      var a := aliases[i];
      ctes := ctes + [Cte(a, q.tableOf[a], KeysAt(keys, a), Lookup(predicates, a))];
    }
  }

  method BuildGroupedQuery(q: Query) returns (gq: GroupedQuery)
    requires q.tableOf.Keys == Names(q.aliases)
    ensures gq == Rewrite(q)
  {
    var joins, predicates, cross := ParseQuery(q);
    JoinsAreEqualities(q);
    var keys := GetJoinKeys(joins);
    var sorted := Ordering.Sort(q.aliases);
    assert forall a :: a in sorted ==> a in q.tableOf by {
      SortedNames(q.aliases);
      assert forall a :: a in sorted ==> a in Names(sorted);
    }
    var ctes := BuildCtes(q, sorted, keys, predicates);
    gq := GroupedQuery(ctes, joins + cross);
  }

  // ---- What the generated query computes ----

  function Passes(cte: Cte): Row -> bool {
    row => Holds(cte.preds, map[cte.alias := row])
  }

  function Project(cols: set<string>): Row -> Row {
    row => map c | c in cols :: Get(row, c)
  }

  /** `out` is a result of the CTE over `source`; without grouping columns it is one row, even for an empty table. */
  ghost predicate IsResult(source: seq<Row>, cte: Cte, out: seq<(Row, nat)>) {
    var rows := Select(source, Passes(cte));
    if cte.cols == {} then out == [(map[], |rows|)] else IsGrouping(rows, Project(cte.cols), out)
  }

  /** The row that the outer query sees: the grouping columns and `cnt`. */
  function Exposed(g: (Row, nat)): Row {
    g.0["cnt" := Val(g.1)]
  }

  /** The groups of every CTE. */
  type Results = map<string, seq<(Row, nat)>>

  function SumProducts(aliases: seq<string>, results: Results, env: Env, product: int,
                       p: Env -> bool): int
    decreases |aliases|
  {
    if aliases == [] then (if p(env) then product else 0)
    else Total(Lookup(results, aliases[0]), SumStep(aliases, results, env, product, p))
  }

  function SumStep(aliases: seq<string>, results: Results, env: Env, product: int,
                   p: Env -> bool): ((Row, nat)) -> int
    requires aliases != []
    decreases |aliases|, 0
  {
    (g: (Row, nat)) =>
      SumProducts(aliases[1..], results, env[aliases[0] := Exposed(g)], product * g.1, p)
  }

  function ExposedRows(out: seq<(Row, nat)>): (rows: seq<Row>)
    ensures |rows| == |out| && forall i :: 0 <= i < |rows| ==> rows[i] == Exposed(out[i])
  {
    if out == [] then [] else [Exposed(out[0])] + ExposedRows(out[1..])
  }

  predicate NamesCte(ctes: seq<Cte>, name: string) {
    exists i :: 0 <= i < |ctes| && ctes[i].alias == name
  }

  /** What a table name stands for inside the query: the CTE of this name, if there is one, and the table otherwise. */
  function Resolve(db: Database, ctes: seq<Cte>, results: Results, name: string): seq<Row> {
    if NamesCte(ctes, name) then ExposedRows(Lookup(results, name)) else Lookup(db, name)
  }

  ghost predicate IsDone(db: Database, ctes: seq<Cte>, results: Results, cte: Cte) {
    cte.alias in results && IsResult(Resolve(db, ctes, results, cte.table), cte, results[cte.alias])
  }

  ghost predicate AreResults(db: Database, gq: GroupedQuery, results: Results) {
    forall i :: 0 <= i < |gq.ctes| ==> IsDone(db, gq.ctes, results, gq.ctes[i])
  }

  /** Every CTE reads its table. */
  ghost predicate FromTables(db: Database, gq: GroupedQuery, results: Results) {
    forall cte :: cte in gq.ctes ==> cte.alias in results && IsResult(Lookup(db, cte.table), cte, results[cte.alias])
  }

  function Aliases(ctes: seq<Cte>): (r: seq<string>)
    ensures |r| == |ctes| && forall i :: 0 <= i < |r| ==> r[i] == ctes[i].alias
  {
    if ctes == [] then [] else [ctes[0].alias] + Aliases(ctes[1..])
  }

  function Answer(gq: GroupedQuery, results: Results): int {
    SumProducts(Aliases(gq.ctes), results, map[], 1, Where(gq.outer))
  }

  function Source(db: Database, q: Query): map<string, seq<Row>> {
    map a | a in q.tableOf :: Lookup(db, q.tableOf[a])
  }

  /** The count that the original query asks for. */
  function TrueCard(db: Database, q: Query): nat {
    Count(q.aliases, Source(db, q), map[], Where(q.conds))
  }

  // ---- Exactness ----

  /** The outer WHERE can be bound: cross-table predicates use join-key columns only, none of them called `cnt`. */
  ghost predicate Binds(q: Query) {
    && (forall i, j :: 0 <= i < |q.conds| && Classify(q.conds[i], q.aliases) == CrossTable &&
                       0 <= j < |Refs(q.conds[i])| ==>
                       Refs(q.conds[i])[j].col in JoinKeys(OfKind(q, Join), Refs(q.conds[i])[j].alias))
    && (forall a :: "cnt" !in JoinKeys(OfKind(q, Join), a))
  }

  /** The conjuncts that the rewrite drops because they name no alias are all true. */
  ghost predicate DroppedTrue(q: Query) {
    Holds(OfKind(q, NoAlias), map[])
  }

  ghost predicate AgreeOn(e: Env, e': Env, refs: seq<Ref>) {
    forall i :: 0 <= i < |refs| ==> Fetch(e, refs[i]) == Fetch(e', refs[i])
  }

  lemma {:induction false} FetchAllAgree(e: Env, e': Env, refs: seq<Ref>)
    requires AgreeOn(e, e', refs)
    ensures FetchAll(e, refs) == FetchAll(e', refs)
  {
    if refs != [] {
      forall i | 0 <= i < |refs[1..]| ensures Fetch(e, refs[1..][i]) == Fetch(e', refs[1..][i]) {
        assert refs[1..][i] == refs[i + 1];
      }
      FetchAllAgree(e, e', refs[1..]);
    }
  }

  lemma EvalAgree(c: Conjunct, e: Env, e': Env)
    requires AgreeOn(e, e', Refs(c))
    ensures Eval(c, e) == Eval(c, e')
  {
    match c
    case JoinEq(l, r) =>
      assert Refs(c)[0] == l && Refs(c)[1] == r;
    case Other(refs, _) =>
      FetchAllAgree(e, e', refs);
  }

  /** Every conjunct of kind `k` is true. */
  ghost predicate AllTrue(q: Query, k: Kind, e: Env) {
    forall i :: 0 <= i < |q.conds| && Classify(q.conds[i], q.aliases) == k ==> Eval(q.conds[i], e) == True
  }

  lemma HoldsOfKind(q: Query, k: Kind, e: Env)
    ensures Holds(OfKind(q, k), e) <==> AllTrue(q, k, e)
  {
    var s := q.conds[..|q.conds|];
    assert s == q.conds;
    var t := OfKind(q, k);
    forall i | 0 <= i < |q.conds| && Classify(q.conds[i], q.aliases) == k
      ensures exists j :: 0 <= j < |t| && t[j] == q.conds[i]
    {
      SelectMember(s, KindIs(q.aliases, k), q.conds[i]);
    }
    forall j | 0 <= j < |t|
      ensures exists i :: 0 <= i < |q.conds| && q.conds[i] == t[j] && Classify(q.conds[i], q.aliases) == k
    {
      SelectMember(s, KindIs(q.aliases, k), t[j]);
    }
  }

  lemma ClassifyRefs(c: Conjunct, aliases: seq<string>, i: nat)
    requires i < |Refs(c)| && Refs(c)[i].alias in aliases
    ensures Classify(c, aliases) != NoAlias
    ensures Classify(c, aliases).Single? ==> Refs(c)[i].alias == Classify(c, aliases).alias
  {
    var a := Refs(c)[i].alias;
    assert Mentions(c, a);
    SelectMember(aliases, x => Mentions(c, x), a);
    assert a in AliasRefs(c, aliases);
  }

  lemma SingleInScope(c: Conjunct, aliases: seq<string>)
    requires Classify(c, aliases).Single?
    ensures Classify(c, aliases).alias in aliases
  {
    var refs := AliasRefs(c, aliases);
    SelectMember(aliases, x => Mentions(c, x), refs[0]);
  }

  /** `ge` carries the same join-key columns as `e`. */
  ghost predicate SameKeys(q: Query, e: Env, ge: Env) {
    && ge.Keys == e.Keys
    && forall a, c :: a in e && c in JoinKeys(OfKind(q, Join), a) ==> Get(ge[a], c) == Get(e[a], c)
  }

  lemma JoinRefIsKey(q: Query, i: nat, j: nat)
    requires i < |q.conds| && Classify(q.conds[i], q.aliases) == Join && j < |Refs(q.conds[i])|
    ensures Refs(q.conds[i])[j].col in JoinKeys(OfKind(q, Join), Refs(q.conds[i])[j].alias)
  {
    var c, joins := q.conds[i], OfKind(q, Join);
    assert q.conds[..|q.conds|] == q.conds;
    SelectMember(q.conds, KindIs(q.aliases, Join), c);
    var k :| 0 <= k < |joins| && joins[k] == c;
    JoinKeysMember(joins, k, Refs(c)[j].alias);
  }

  /** Where the rewrite evaluates a conjunct of kind `k`. */
  ghost function Site(k: Kind, e: Env, ge: Env): Env
    requires k.Single? ==> k.alias in e
  {
    match k
    case Single(a) => map[a := e[a]]
    case NoAlias => map[]
    case _ => ge
  }

  /** Every conjunct has the same truth value where the rewrite evaluates it as in the original query. */
  lemma ConjunctMoves(q: Query, i: nat, e: Env, ge: Env)
    requires WellFormed(q) && Binds(q) && i < |q.conds|
    requires e.Keys == Names(q.aliases) && SameKeys(q, e, ge)
    ensures var k := Classify(q.conds[i], q.aliases);
            (k.Single? ==> k.alias in e) && Eval(q.conds[i], e) == Eval(q.conds[i], Site(k, e, ge))
  {
    var c := q.conds[i];
    assert c in q.conds;
    var k := Classify(c, q.aliases);
    if k.Single? {
      SingleInScope(c, q.aliases);
    }
    var e' := Site(k, e, ge);
    forall j | 0 <= j < |Refs(c)| ensures Fetch(e, Refs(c)[j]) == Fetch(e', Refs(c)[j]) {
      ClassifyRefs(c, q.aliases, j);
      if k == Join {
        JoinRefIsKey(q, i, j);
      }
    }
    EvalAgree(c, e, e');
  }

  lemma KindMoves(q: Query, k: Kind, e: Env, ge: Env)
    requires WellFormed(q) && Binds(q)
    requires e.Keys == Names(q.aliases) && SameKeys(q, e, ge)
    requires k.Single? ==> k.alias in e
    ensures AllTrue(q, k, e) <==> Holds(OfKind(q, k), Site(k, e, ge))
  {
    forall i | 0 <= i < |q.conds| && Classify(q.conds[i], q.aliases) == k
      ensures Eval(q.conds[i], e) == Eval(q.conds[i], Site(k, e, ge))
    {
      ConjunctMoves(q, i, e, ge);
    }
    HoldsOfKind(q, k, Site(k, e, ge));
  }

  lemma HoldsByKind(q: Query, e: Env)
    requires WellFormed(q) && e.Keys == Names(q.aliases)
    ensures Holds(q.conds, e) <==>
            && AllTrue(q, NoAlias, e) && AllTrue(q, Join, e) && AllTrue(q, CrossTable, e)
            && forall a :: a in e ==> AllTrue(q, Single(a), e)
  {
    if AllTrue(q, NoAlias, e) && AllTrue(q, Join, e) && AllTrue(q, CrossTable, e)
       && forall a :: a in e ==> AllTrue(q, Single(a), e) {
      forall i | 0 <= i < |q.conds| ensures Eval(q.conds[i], e) == True {
        var k := Classify(q.conds[i], q.aliases);
        if k.Single? {
          SingleInScope(q.conds[i], q.aliases);
          assert AllTrue(q, Single(k.alias), e);
        }
      }
    }
  }

  /** The WHERE clause falls apart into dropped, pushed-down and outer conjuncts. */
  lemma WhereSplits(q: Query, e: Env, ge: Env)
    requires WellFormed(q) && Binds(q)
    requires e.Keys == Names(q.aliases) && SameKeys(q, e, ge)
    ensures Holds(q.conds, e) <==>
            && DroppedTrue(q)
            && (forall a :: a in e ==> Passes(CteFor(q, a))(e[a]))
            && Holds(Rewrite(q).outer, ge)
  {
    HoldsByKind(q, e);
    KindMoves(q, NoAlias, e, ge);
    KindMoves(q, Join, e, ge);
    KindMoves(q, CrossTable, e, ge);
    forall a | a in e ensures AllTrue(q, Single(a), e) <==> Passes(CteFor(q, a))(e[a]) {
      KindMoves(q, Single(a), e, ge);
    }
    HoldsAppend(OfKind(q, Join), OfKind(q, CrossTable), ge);
  }

  /** The product can be taken out of the sum. */
  lemma {:induction false} SumFactor(aliases: seq<string>, results: Results, env: Env,
                                     product: int, p: Env -> bool)
    ensures SumProducts(aliases, results, env, product, p) == product * SumProducts(aliases, results, env, 1, p)
    decreases |aliases|
  {
    if aliases != [] {
      var one := SumStep(aliases, results, env, 1, p);
      forall g: (Row, nat) ensures SumStep(aliases, results, env, product, p)(g) == product * one(g) {
        var env' := env[aliases[0] := Exposed(g)];
        var rest := SumProducts(aliases[1..], results, env', 1, p);
        SumFactor(aliases[1..], results, env', product * g.1, p);
        SumFactor(aliases[1..], results, env', 1 * g.1, p);
        assert (product * g.1) * rest == product * (g.1 * rest);
      }
      var gs := Lookup(results, aliases[0]);
      TotalCong(gs, SumStep(aliases, results, env, product, p), Scale(product, one));
      TotalScale(gs, product, one);
    }
  }

  /** The outer query looks at join-key columns only. */
  lemma {:induction false} SumSameKeys(q: Query, aliases: seq<string>, results: Results,
                                       ge: Env, ge': Env, product: int)
    requires WellFormed(q) && Binds(q) && SameKeys(q, ge, ge')
    ensures SumProducts(aliases, results, ge, product, Where(Rewrite(q).outer)) ==
            SumProducts(aliases, results, ge', product, Where(Rewrite(q).outer))
    decreases |aliases|
  {
    var p := Where(Rewrite(q).outer);
    if aliases == [] {
      OuterSameKeys(q, ge, ge');
    } else {
      forall g: (Row, nat) ensures SumStep(aliases, results, ge, product, p)(g) == SumStep(aliases, results, ge', product, p)(g) {
        SumSameKeys(q, aliases[1..], results, ge[aliases[0] := Exposed(g)], ge'[aliases[0] := Exposed(g)], product * g.1);
      }
      TotalCong(Lookup(results, aliases[0]), SumStep(aliases, results, ge, product, p), SumStep(aliases, results, ge', product, p));
    }
  }

  /** A conjunct of the outer WHERE sees the same columns. */
  lemma OuterAgrees(q: Query, ge: Env, ge': Env, i: nat)
    requires WellFormed(q) && Binds(q) && SameKeys(q, ge, ge')
    requires i < |q.conds| && Classify(q.conds[i], q.aliases) in {Join, CrossTable}
    ensures Eval(q.conds[i], ge) == Eval(q.conds[i], ge')
  {
    forall j | 0 <= j < |Refs(q.conds[i])| ensures Fetch(ge, Refs(q.conds[i])[j]) == Fetch(ge', Refs(q.conds[i])[j]) {
      if Classify(q.conds[i], q.aliases) == Join {
        JoinRefIsKey(q, i, j);
      }
    }
    EvalAgree(q.conds[i], ge, ge');
  }

  lemma KindSameKeys(q: Query, ge: Env, ge': Env, k: Kind)
    requires WellFormed(q) && Binds(q) && SameKeys(q, ge, ge') && k in {Join, CrossTable}
    ensures Holds(OfKind(q, k), ge) == Holds(OfKind(q, k), ge')
  {
    forall i | 0 <= i < |q.conds| && Classify(q.conds[i], q.aliases) == k ensures Eval(q.conds[i], ge) == Eval(q.conds[i], ge') {
      OuterAgrees(q, ge, ge', i);
    }
    HoldsOfKind(q, k, ge);
    HoldsOfKind(q, k, ge');
  }

  lemma OuterSameKeys(q: Query, ge: Env, ge': Env)
    requires WellFormed(q) && Binds(q) && SameKeys(q, ge, ge')
    ensures Holds(Rewrite(q).outer, ge) == Holds(Rewrite(q).outer, ge')
  {
    KindSameKeys(q, ge, ge', Join);
    KindSameKeys(q, ge, ge', CrossTable);
    HoldsAppend(OfKind(q, Join), OfKind(q, CrossTable), ge);
    HoldsAppend(OfKind(q, Join), OfKind(q, CrossTable), ge');
  }

  function OnKey(cte: Cte, f: Row -> int): Row -> int {
    After(f, Project(cte.cols))
  }

  lemma UngroupedTotal(kept: seq<Row>, cte: Cte, out: seq<(Row, nat)>, f: Row -> int)
    requires cte.cols == {} && out == [(map[], |kept|)]
    ensures Total(kept, OnKey(cte, f)) == Total(out, GroupWeight(f))
  {
    forall row ensures Project(cte.cols)(row) == map[] {
    }
    TotalConstant(kept, OnKey(cte, f), f(map[]));
    TotalSingle(out[0], GroupWeight(f));
    assert out == [out[0]];
  }

  /** Summing over the filtered rows of a table through a CTE's groups. */
  lemma CteTotal(db: Database, cte: Cte, out: seq<(Row, nat)>, f: Row -> int)
    requires IsResult(Lookup(db, cte.table), cte, out)
    ensures Total(Lookup(db, cte.table), Masked(Passes(cte), OnKey(cte, f))) == Total(out, GroupWeight(f))
  {
    var kept := Select(Lookup(db, cte.table), Passes(cte));
    TotalSelect(Lookup(db, cte.table), Passes(cte), OnKey(cte, f));
    if cte.cols == {} {
      UngroupedTotal(kept, cte, out, f);
    } else {
      GroupedTotal(kept, Project(cte.cols), out, f);
    }
  }

  lemma CteListed(q: Query, a: string)
    requires a in q.aliases
    ensures CteFor(q, a) in Rewrite(q).ctes
  {
    SortedNames(q.aliases);
    var sorted := Ordering.Sort(q.aliases);
    assert a in Names(sorted);
    var i :| 0 <= i < |sorted| && sorted[i] == a;
    assert CtesFor(q, sorted)[i] == CteFor(q, a);
  }

  /** What the two nested loops, over rows and over groups, keep when they have the same aliases left. */
  ghost predicate Aligned(q: Query, aliases: seq<string>, env: Env, ge: Env) {
    && Fresh(aliases, env) && env.Keys + Names(aliases) == Names(q.aliases)
    && SameKeys(q, env, ge)
    && forall a :: a in env ==> Passes(CteFor(q, a))(env[a])
  }

  /** A row that fails a pushed-down predicate contributes nothing to the original count. */
  lemma RejectedRow(db: Database, q: Query, aliases: seq<string>, env: Env, row: Row)
    requires WellFormed(q) && Binds(q) && aliases != []
    requires Fresh(aliases, env) && env.Keys + Names(aliases) == Names(q.aliases)
    requires !Passes(CteFor(q, aliases[0]))(row)
    ensures Count(aliases[1..], Source(db, q), env[aliases[0] := row], Where(q.conds)) == 0
  {
    FreshStep(aliases, env, row);
    forall e | Completes(e, env[aliases[0] := row], aliases[1..]) ensures !Where(q.conds)(e) {
      CompletesStep(e, env, aliases, row);
      WhereSplits(q, e, e);
    }
    CountNone(aliases[1..], Source(db, q), env[aliases[0] := row], Where(q.conds));
  }

  lemma SameKeysStep(q: Query, a: string, env: Env, ge: Env, row: Row)
    requires SameKeys(q, env, ge)
    ensures SameKeys(q, env[a := row], ge[a := Project(CteFor(q, a).cols)(row)])
  {
    var cols := JoinKeys(OfKind(q, Join), a);
    forall c | c in cols ensures Get(Project(cols)(row), c) == Get(row, c) {
    }
  }

  lemma NamesStep(aliases: seq<string>)
    requires aliases != []
    ensures Names(aliases) == {aliases[0]} + Names(aliases[1..])
  {
    assert aliases == [aliases[0]] + aliases[1..];
  }

  lemma AlignedStep(q: Query, aliases: seq<string>, env: Env, ge: Env, row: Row)
    requires aliases != [] && Aligned(q, aliases, env, ge)
    requires Passes(CteFor(q, aliases[0]))(row)
    ensures Aligned(q, aliases[1..], env[aliases[0] := row], ge[aliases[0] := Project(CteFor(q, aliases[0]).cols)(row)])
  {
    SameKeysStep(q, aliases[0], env, ge, row);
    FreshStep(aliases, env, row);
    NamesLeft(aliases, env, row, Names(q.aliases));
    PassesStep(q, aliases[0], env, row);
  }

  lemma NamesLeft(aliases: seq<string>, env: Env, row: Row, names: set<string>)
    requires aliases != [] && env.Keys + Names(aliases) == names
    ensures env[aliases[0] := row].Keys + Names(aliases[1..]) == names
  {
    NamesStep(aliases);
    assert env[aliases[0] := row].Keys == env.Keys + {aliases[0]};
  }

  lemma PassesStep(q: Query, a: string, env: Env, row: Row)
    requires Passes(CteFor(q, a))(row) && forall b :: b in env ==> Passes(CteFor(q, b))(env[b])
    ensures forall b :: b in env[a := row] ==> Passes(CteFor(q, b))(env[a := row][b])
  {
    forall b | b in env[a := row] ensures Passes(CteFor(q, b))(env[a := row][b]) {
      if b != a {
        assert b in env;
      }
    }
  }

  lemma AlignedStart(q: Query, aliases: seq<string>)
    requires Distinct(aliases) && Names(aliases) == Names(q.aliases)
    ensures Aligned(q, aliases, map[], map[])
  {
  }

  /** The rest of the sum after a group with key `k` was chosen for the first alias, counted once. */
  function Remaining(q: Query, aliases: seq<string>, results: Results, ge: Env): Row -> int
    requires aliases != []
  {
    k => SumProducts(aliases[1..], results, ge[aliases[0] := k], 1, Where(Rewrite(q).outer))
  }

  lemma SumByGroup(q: Query, aliases: seq<string>, results: Results, ge: Env)
    requires WellFormed(q) && Binds(q) && aliases != []
    ensures SumProducts(aliases, results, ge, 1, Where(Rewrite(q).outer)) ==
            Total(Lookup(results, aliases[0]), GroupWeight(Remaining(q, aliases, results, ge)))
  {
    var p, a, rest := Where(Rewrite(q).outer), aliases[0], aliases[1..];
    var f := Remaining(q, aliases, results, ge);
    forall g: (Row, nat) ensures SumStep(aliases, results, ge, 1, p)(g) == GroupWeight(f)(g) {
      SumFactor(rest, results, ge[a := Exposed(g)], 1 * g.1, p);
      SumSameKeys(q, rest, results, ge[a := Exposed(g)], ge[a := g.0], 1);
    }
    TotalCong(Lookup(results, a), SumStep(aliases, results, ge, 1, p), GroupWeight(f));
  }

  lemma NoneLeft(db: Database, q: Query, results: Results, aliases: seq<string>, env: Env, ge: Env)
    requires WellFormed(q) && Binds(q) && DroppedTrue(q) && Aligned(q, aliases, env, ge) && aliases == []
    ensures Count(aliases, Source(db, q), env, Where(q.conds)) == SumProducts(aliases, results, ge, 1, Where(Rewrite(q).outer))
  {
    assert env.Keys == Names(q.aliases);
    WhereSplits(q, env, ge);
  }

  /** A row that passes contributes what its key does. */
  lemma PassingRow(db: Database, q: Query, results: Results, aliases: seq<string>, env: Env, ge: Env, row: Row)
    requires aliases != [] && Passes(CteFor(q, aliases[0]))(row)
    requires Count(aliases[1..], Source(db, q), env[aliases[0] := row], Where(q.conds)) ==
             SumProducts(aliases[1..], results, ge[aliases[0] := Project(CteFor(q, aliases[0]).cols)(row)], 1, Where(Rewrite(q).outer))
    ensures CountStep(aliases, Source(db, q), env, Where(q.conds))(row) ==
            Masked(Passes(CteFor(q, aliases[0])), OnKey(CteFor(q, aliases[0]), Remaining(q, aliases, results, ge)))(row)
  {
  }

  lemma {:induction false} PushdownFrom(db: Database, q: Query, results: Results,
                                        aliases: seq<string>, env: Env, ge: Env)
    requires WellFormed(q) && Binds(q) && DroppedTrue(q)
    requires FromTables(db, Rewrite(q), results)
    requires Aligned(q, aliases, env, ge)
    ensures Count(aliases, Source(db, q), env, Where(q.conds)) ==
            SumProducts(aliases, results, ge, 1, Where(Rewrite(q).outer))
    decreases |aliases|
  {
    if aliases == [] {
      NoneLeft(db, q, results, aliases, env, ge);
    } else {
      var a := aliases[0];
      var cte, f := CteFor(q, a), Remaining(q, aliases, results, ge);
      var step := CountStep(aliases, Source(db, q), env, Where(q.conds));
      forall row ensures step(row) == Masked(Passes(cte), OnKey(cte, f))(row) {
        if Passes(cte)(row) {
          AlignedStep(q, aliases, env, ge, row);
          PushdownFrom(db, q, results, aliases[1..], env[a := row], ge[a := Project(cte.cols)(row)]);
          PassingRow(db, q, results, aliases, env, ge, row);
        } else {
          RejectedRow(db, q, aliases, env, row);
        }
      }
      assert a in Names(aliases);
      GroupsTotal(db, q, results, a, step, f);
      SumByGroup(q, aliases, results, ge);
    }
  }

  /** The rows that pass are summed group by group. */
  lemma GroupsTotal(db: Database, q: Query, results: Results, a: string, step: Row -> int, f: Row -> int)
    requires FromTables(db, Rewrite(q), results) && a in q.tableOf && a in q.aliases
    requires forall row :: step(row) == Masked(Passes(CteFor(q, a)), OnKey(CteFor(q, a), f))(row)
    ensures Total(Lookup(Source(db, q), a), step) == Total(Lookup(results, a), GroupWeight(f))
  {
    var cte := CteFor(q, a);
    CteListed(q, a);
    TotalCong(Lookup(Source(db, q), a), step, Masked(Passes(cte), OnKey(cte, f)));
    CteTotal(db, cte, results[a], f);
  }

  lemma RewriteAliases(q: Query)
    ensures Aliases(Rewrite(q).ctes) == Ordering.Sort(q.aliases)
  {
    var sorted := Ordering.Sort(q.aliases);
    var r := Aliases(CtesFor(q, sorted));
    forall i | 0 <= i < |sorted| ensures r[i] == sorted[i] {
      assert CtesFor(q, sorted)[i] == CteFor(q, sorted[i]);
    }
  }

  /** No alias is the table name of an alias: no table name is taken by a CTE. */
  ghost predicate Uncaptured(q: Query) {
    forall a, b :: a in q.tableOf && b in q.aliases ==> q.tableOf[a] != b
  }

  lemma CteAlias(q: Query, cte: Cte)
    requires cte in Rewrite(q).ctes
    ensures cte.alias in q.aliases && cte == CteFor(q, cte.alias)
  {
    var sorted := Ordering.Sort(q.aliases);
    var i :| 0 <= i < |sorted| && CtesFor(q, sorted)[i] == cte;
    SortedNames(q.aliases);
    assert sorted[i] in Names(sorted);
  }

  lemma NamesAlias(q: Query, name: string)
    ensures NamesCte(Rewrite(q).ctes, name) <==> name in q.aliases
  {
    var ctes := Rewrite(q).ctes;
    if i :| 0 <= i < |ctes| && ctes[i].alias == name {
      CteAlias(q, ctes[i]);
    }
    if name in q.aliases {
      CteListed(q, name);
      var i :| 0 <= i < |ctes| && ctes[i] == CteFor(q, name);
      assert ctes[i].alias == name;
    }
  }

  /** Then every CTE reads its table. */
  lemma UncapturedTables(db: Database, q: Query, results: Results)
    requires WellFormed(q) && Uncaptured(q) && AreResults(db, Rewrite(q), results)
    ensures FromTables(db, Rewrite(q), results)
  {
    var ctes := Rewrite(q).ctes;
    forall cte | cte in ctes ensures cte.alias in results && IsResult(Lookup(db, cte.table), cte, results[cte.alias]) {
      var i :| 0 <= i < |ctes| && ctes[i] == cte;
      assert IsDone(db, ctes, results, ctes[i]);
      CteAlias(q, cte);
      NamesAlias(q, cte.table);
      assert cte.alias in Names(q.aliases);
    }
  }

  lemma KeptExact(db: Database, q: Query, results: Results)
    requires WellFormed(q) && Binds(q) && Uncaptured(q) && DroppedTrue(q)
    requires AreResults(db, Rewrite(q), results)
    ensures TrueCard(db, q) == Answer(Rewrite(q), results)
  {
    UncapturedTables(db, q, results);
    var sorted := Ordering.Sort(q.aliases);
    SortedNames(q.aliases);
    Ordering.DistinctByMultiset(q.aliases, sorted);
    CountPermutation(q.aliases, sorted, Source(db, q), map[], Where(q.conds));
    RewriteAliases(q);
    AlignedStart(q, sorted);
    PushdownFrom(db, q, results, sorted, map[], map[]);
  }

  /**
   Where no table name is taken, the rewrite is exact on every database, NULL keys, empty tables and aliases without a
   join key included, whichever order the engine returns its groups in. The one thing it loses is the conjuncts without
   an alias: unless they are all true the original query counts nothing.
   */
  lemma PushdownExact(db: Database, q: Query, results: Results)
    requires WellFormed(q) && Binds(q) && Uncaptured(q)
    requires AreResults(db, Rewrite(q), results)
    ensures TrueCard(db, q) == if DroppedTrue(q) then Answer(Rewrite(q), results) else 0
  {
    if DroppedTrue(q) {
      KeptExact(db, q, results);
    } else {
      forall e | Completes(e, map[], q.aliases) ensures !Where(q.conds)(e) {
        WhereSplits(q, e, e);
      }
      CountNone(q.aliases, Source(db, q), map[], Where(q.conds));
    }
  }

  // ---- What dropping conjuncts costs ----

  function HasAlias(aliases: seq<string>): Conjunct -> bool {
    c => Classify(c, aliases) != NoAlias
  }

  /** The query without the conjuncts that name no alias. */
  function Kept(q: Query): Query {
    q.(conds := Select(q.conds, HasAlias(q.aliases)))
  }

  lemma {:induction false} SelectTwice<T(!new)>(s: seq<T>, p: T -> bool, r: T -> bool)
    requires forall x :: r(x) ==> p(x)
    ensures Select(Select(s, p), r) == Select(s, r)
  {
    if s != [] {
      SelectTwice(s[1..], p, r);
      var head := if p(s[0]) then [s[0]] else [];
      SelectAppend(head, Select(s[1..], p), r);
    }
  }

  lemma KeptKinds(q: Query, k: Kind)
    requires k != NoAlias
    ensures OfKind(Kept(q), k) == OfKind(q, k)
  {
    var conds := Kept(q).conds;
    assert conds[..|conds|] == conds && q.conds[..|q.conds|] == q.conds;
    SelectTwice(q.conds, HasAlias(q.aliases), KindIs(q.aliases, k));
  }

  lemma KeptMember(q: Query, c: Conjunct)
    ensures c in Kept(q).conds <==> c in q.conds && Classify(c, q.aliases) != NoAlias
  {
    SelectMember(q.conds, HasAlias(q.aliases), c);
  }

  /** The dropped conjuncts leave no trace in the generated query. */
  lemma KeptRewrite(q: Query)
    ensures Rewrite(Kept(q)) == Rewrite(q)
  {
    KeptKinds(q, Join);
    KeptKinds(q, CrossTable);
    forall a ensures CteFor(Kept(q), a) == CteFor(q, a) {
      KeptKinds(q, Single(a));
    }
    var sorted := Ordering.Sort(q.aliases);
    assert CtesFor(Kept(q), sorted) == CtesFor(q, sorted);
  }

  lemma KeptFits(q: Query)
    requires WellFormed(q) && Binds(q)
    ensures WellFormed(Kept(q)) && Binds(Kept(q)) && DroppedTrue(Kept(q))
  {
    var k := Kept(q);
    KeptKinds(q, Join);
    forall i | 0 <= i < |k.conds| ensures k.conds[i] in q.conds && Classify(k.conds[i], q.aliases) != NoAlias {
      KeptMember(q, k.conds[i]);
    }
    HoldsOfKind(k, NoAlias, map[]);
  }

  /** The script answers with the count of the query without its alias-free conjuncts. */
  lemma AnswerIsKept(db: Database, q: Query, results: Results)
    requires WellFormed(q) && Binds(q) && Uncaptured(q)
    requires AreResults(db, Rewrite(q), results)
    ensures Answer(Rewrite(q), results) == TrueCard(db, Kept(q))
  {
    KeptFits(q);
    KeptRewrite(q);
    KeptExact(db, Kept(q), results);
  }

  /**
   So on a database the script's answer is the true count exactly when nothing false was dropped, or the
   rest of the query counts nothing there.
   */
  lemma PushdownExactIff(db: Database, q: Query, results: Results)
    requires WellFormed(q) && Binds(q) && Uncaptured(q)
    requires AreResults(db, Rewrite(q), results)
    ensures Answer(Rewrite(q), results) == TrueCard(db, q) <==> DroppedTrue(q) || TrueCard(db, Kept(q)) == 0
  {
    PushdownExact(db, q, results);
    AnswerIsKept(db, q, results);
  }

  function Never(cells: seq<Cell>): Truth {
    False
  }

  lemma SelectOne<T>(x: T, keep: T -> bool)
    ensures Select([x], keep) == if keep(x) then [x] else []
  {
    assert [x][1..] == [];
  }

  lemma NeverKinds(q: Query, c: Conjunct)
    requires c == Other([], Never) && q == Query(["a"], map["a" := "t"], [c])
    ensures Classify(c, q.aliases) == NoAlias && OfKind(q, Join) == [] && Kept(q).conds == []
  {
    SelectOne("a", x => Mentions(c, x));
    assert AliasRefs(c, q.aliases) == [];
    assert q.conds[..1] == [c];
    SelectOne(c, HasAlias(q.aliases));
    SelectOne(c, KindIs(q.aliases, Join));
  }

  lemma NeverBinds(q: Query, c: Conjunct)
    requires c == Other([], Never) && q == Query(["a"], map["a" := "t"], [c])
    ensures WellFormed(q) && Binds(q)
  {
    NeverKinds(q, c);
    assert q.tableOf.Keys == Names(q.aliases);
  }

  lemma NeverQuery(q: Query, c: Conjunct)
    requires c == Other([], Never) && q == Query(["a"], map["a" := "t"], [c])
    ensures WellFormed(q) && Binds(q) && Uncaptured(q) && !DroppedTrue(q) && Kept(q).conds == []
  {
    NeverBinds(q, c);
    NeverKinds(q, c);
    HoldsOfKind(q, NoAlias, map[]);
    assert Eval(q.conds[0], map[]) == False;
  }

  /** The only combination of rows there is. */
  lemma OneRowCount(q: Query, db: Database)
    requires q.aliases == ["a"] && q.tableOf == map["a" := "t"] && q.conds == [] && db == map["t" := [map[]]]
    ensures TrueCard(db, q) == 1
  {
    CountSingleton(q.aliases, Source(db, q), map[], map["a" := map[]], Where([]));
  }

  /** One row and a condition that is false without naming an alias: the answer is 1, the count 0. */
  lemma DroppedFalse(db: Database, q: Query, results: Results)
    requires q == Query(["a"], map["a" := "t"], [Other([], Never)]) && db == map["t" := [map[]]]
    requires AreResults(db, Rewrite(q), results)
    ensures WellFormed(q) && Binds(q) && Answer(Rewrite(q), results) == 1 && TrueCard(db, q) == 0
  {
    NeverQuery(q, Other([], Never));
    AnswerIsKept(db, q, results);
    OneRowCount(Kept(q), db);
    PushdownExact(db, q, results);
  }
}

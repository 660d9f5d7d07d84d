/**
 Table names inside the generated query. A WITH item hides the table of its name from the other items, so an alias that is
 the table name of another alias changes what is counted, or makes the engine refuse the query.
 */
module CteNames {
  import opened Sums
  import opened Sql
  import opened GroupByPushdown
  import Ordering

  // ---- What the engine refuses ----

  predicate Reads(ctes: seq<Cte>, i: nat, j: nat)
    requires i < |ctes| && j < |ctes|
  {
    ctes[i].table == ctes[j].alias
  }

  /** Such a CTE is used twice, and therefore materialised, in the order of the WITH list. */
  predicate IsRead(ctes: seq<Cte>, i: nat)
    requires i < |ctes|
  {
    exists k: nat :: k < |ctes| && Reads(ctes, k, i)
  }

  /** A materialised CTE reads itself or a later one, which are not bound yet. */
  predicate Refused(ctes: seq<Cte>) {
    exists i: nat, j: nat :: i <= j < |ctes| && Reads(ctes, i, j) && IsRead(ctes, i)
  }

  ghost function Columns(conds: seq<Conjunct>): set<string> {
    set c, i | c in conds && 0 <= i < |Refs(c)| :: Refs(c)[i].col
  }

  /** A CTE uses a column that the CTE it reads does not have. */
  ghost predicate Missing(ctes: seq<Cte>) {
    exists i: nat, j: nat :: i < |ctes| && j < |ctes| && Reads(ctes, i, j) && Lacks(ctes[i], ctes[j])
  }

  ghost predicate Lacks(reader: Cte, cte: Cte) {
    !(reader.cols + Columns(reader.preds) <= cte.cols + {"cnt"})
  }

  ghost predicate Fails(q: Query) {
    Refused(Rewrite(q).ctes) || Missing(Rewrite(q).ctes)
  }

  /** What the script writes for a query: -1 if the engine raised an error, and an answer of the engine otherwise. */
  ghost predicate Writes(db: Database, q: Query, n: int) {
    if Fails(q) then n == -1 else exists results :: AreResults(db, Rewrite(q), results) && n == Answer(Rewrite(q), results)
  }

  lemma UncapturedWorks(q: Query)
    requires WellFormed(q) && Uncaptured(q)
    ensures !Fails(q)
  {
    var ctes := Rewrite(q).ctes;
    forall i: nat, j: nat | i < |ctes| && j < |ctes| ensures !Reads(ctes, i, j) {
      CteAlias(q, ctes[i]);
      CteAlias(q, ctes[j]);
      assert ctes[i].alias in Names(q.aliases);
    }
  }

  // ---- Every query that is not refused has an answer ----

  /** One result of a CTE. */
  function ResultOf(source: seq<Row>, cte: Cte): seq<(Row, nat)> {
    var rows := Select(source, Passes(cte));
    if cte.cols == {} then [(map[], |rows|)] else GroupBy(rows, Project(cte.cols))
  }

  lemma ResultIsResult(source: seq<Row>, cte: Cte)
    ensures IsResult(source, cte, ResultOf(source, cte))
  {
    GroupByIsGrouping(Select(source, Passes(cte)), Project(cte.cols));
  }

  ghost predicate DistinctAliases(ctes: seq<Cte>) {
    forall i, j :: 0 <= i < j < |ctes| ==> ctes[i].alias != ctes[j].alias
  }

  /** A result for one more CTE that none of the others reads, nor itself. */
  lemma DoneMore(db: Database, ctes: seq<Cte>, results: Results, cte: Cte, alias: string, out: seq<(Row, nat)>)
    requires IsDone(db, ctes, results, cte) && cte.alias != alias && cte.table != alias
    ensures IsDone(db, ctes, results[alias := out], cte)
  {
  }

  lemma DoneNow(db: Database, ctes: seq<Cte>, results: Results, cte: Cte) returns (results': Results)
    requires cte.table != cte.alias
    ensures results' == results[cte.alias := ResultOf(Resolve(db, ctes, results, cte.table), cte)]
    ensures IsDone(db, ctes, results', cte)
  {
    results' := results[cte.alias := ResultOf(Resolve(db, ctes, results, cte.table), cte)];
    ResultIsResult(Resolve(db, ctes, results, cte.table), cte);
  }

  /** The materialised CTEs in their order, ... */
  lemma {:induction false} ReadFirst(db: Database, ctes: seq<Cte>, n: nat) returns (results: Results)
    requires DistinctAliases(ctes) && !Refused(ctes) && n <= |ctes|
    ensures forall i: nat :: i < n && IsRead(ctes, i) ==> IsDone(db, ctes, results, ctes[i])
  {
    if n == 0 {
      results := map[];
    } else {
      var before := ReadFirst(db, ctes, n - 1);
      results := before;
      if IsRead(ctes, n - 1) {
        assert !Reads(ctes, n - 1, n - 1);
        results := DoneNow(db, ctes, before, ctes[n - 1]);
        forall i: nat | i < n - 1 && IsRead(ctes, i) ensures IsDone(db, ctes, results, ctes[i]) {
          assert !Reads(ctes, i, n - 1);
          DoneMore(db, ctes, before, ctes[i], ctes[n - 1].alias, results[ctes[n - 1].alias]);
        }
      }
    }
  }

  /** ... and then the others. */
  lemma {:induction false} ThenOthers(db: Database, ctes: seq<Cte>, n: nat) returns (results: Results)
    requires DistinctAliases(ctes) && !Refused(ctes) && n <= |ctes|
    ensures forall i: nat :: i < |ctes| && (i < n || IsRead(ctes, i)) ==> IsDone(db, ctes, results, ctes[i])
  {
    if n == 0 {
      results := ReadFirst(db, ctes, |ctes|);
    } else {
      var before := ThenOthers(db, ctes, n - 1);
      results := before;
      if !IsRead(ctes, n - 1) {
        assert !Reads(ctes, n - 1, n - 1);
        results := DoneNow(db, ctes, before, ctes[n - 1]);
        forall i: nat | i < |ctes| && i != n - 1 && (i < n || IsRead(ctes, i)) ensures IsDone(db, ctes, results, ctes[i]) {
          assert !Reads(ctes, i, n - 1);
          DoneMore(db, ctes, before, ctes[i], ctes[n - 1].alias, results[ctes[n - 1].alias]);
        }
      }
    }
  }

  lemma RewriteDistinct(q: Query)
    requires WellFormed(q)
    ensures DistinctAliases(Rewrite(q).ctes)
  {
    var sorted := Ordering.Sort(q.aliases);
    Ordering.DistinctByMultiset(q.aliases, sorted);
    forall i | 0 <= i < |sorted| ensures Rewrite(q).ctes[i].alias == sorted[i] {
      assert CtesFor(q, sorted)[i] == CteFor(q, sorted[i]);
    }
  }

  /** Every database gives a query that is not refused a result. */
  lemma ResultsExist(db: Database, q: Query) returns (results: Results)
    requires WellFormed(q) && !Refused(Rewrite(q).ctes)
    ensures AreResults(db, Rewrite(q), results)
  {
    RewriteDistinct(q);
    results := ThenOthers(db, Rewrite(q).ctes, |Rewrite(q).ctes|);
  }

  // ---- A table that is hidden has no influence ----

  lemma HiddenTable(db: Database, q: Query, results: Results, name: string, rows: seq<Row>)
    requires name in q.aliases && AreResults(db, Rewrite(q), results)
    ensures AreResults(db[name := rows], Rewrite(q), results)
  {
    var ctes := Rewrite(q).ctes;
    NamesAlias(q, name);
    forall i | 0 <= i < |ctes| ensures IsDone(db[name := rows], ctes, results, ctes[i]) {
      assert IsDone(db, ctes, results, ctes[i]);
      assert Resolve(db[name := rows], ctes, results, ctes[i].table) == Resolve(db, ctes, results, ctes[i].table);
    }
  }

  /** Without rows for one alias there is nothing to count. */
  lemma EmptyTable(db: Database, q: Query, a: string)
    requires WellFormed(q) && a in q.aliases && Lookup(Source(db, q), a) == []
    ensures TrueCard(db, q) == 0
  {
    CountEmpty(q.aliases, Source(db, q), map[], Where(q.conds), a);
  }

  lemma {:induction false} CountEmpty(aliases: seq<string>, src: map<string, seq<Row>>, env: Env, p: Env -> bool, a: string)
    requires a in aliases && Lookup(src, a) == []
    ensures Count(aliases, src, env, p) == 0
    decreases |aliases|
  {
    if aliases[0] != a {
      assert aliases == [aliases[0]] + aliases[1..];
      forall row ensures CountStep(aliases, src, env, p)(row) == 0 {
        CountEmpty(aliases[1..], src, env[aliases[0] := row], p, a);
      }
      TotalCong(Lookup(src, aliases[0]), CountStep(aliases, src, env, p), row => 0);
      TotalZero(Lookup(src, aliases[0]));
    }
  }

  // ---- A query that cannot be satisfied ----

  /** No choice of rows makes all conjuncts true. */
  ghost predicate Unsatisfiable(q: Query) {
    forall e: Env :: e.Keys == Names(q.aliases) ==> !Holds(q.conds, e)
  }

  /** A group of every one of these aliases. */
  ghost predicate Chosen(aliases: seq<string>, results: Results, ge: Env) {
    forall a :: a in aliases ==> a in ge && IsGroup(Lookup(results, a), ge[a])
  }

  ghost predicate IsGroup(out: seq<(Row, nat)>, row: Row) {
    exists g :: g in out && g.1 > 0 && row == Exposed(g)
  }

  lemma {:induction false} SomeTerm<A>(s: seq<A>, f: A -> int) returns (x: A)
    requires Total(s, f) != 0
    ensures x in s && f(x) != 0
  {
    if f(s[0]) != 0 {
      x := s[0];
    } else {
      x := SomeTerm(s[1..], f);
    }
  }

  lemma NonzeroTerm(aliases: seq<string>, results: Results, env: Env, product: int, p: Env -> bool, g: (Row, nat))
    requires aliases != [] && SumStep(aliases, results, env, product, p)(g) != 0
    ensures g.1 > 0 && SumProducts(aliases[1..], results, env[aliases[0] := Exposed(g)], product * g.1, p) != 0
  {
    SumFactor(aliases[1..], results, env[aliases[0] := Exposed(g)], product * g.1, p);
  }

  /** Where the sum is not 0 there is a combination of groups that passes the outer conditions. */
  lemma {:induction false} SomeGroups(aliases: seq<string>, results: Results, env: Env, product: int, p: Env -> bool) returns (ge: Env)
    requires Distinct(aliases) && Fresh(aliases, env) && SumProducts(aliases, results, env, product, p) != 0
    ensures Extends(ge, env) && ge.Keys == env.Keys + Names(aliases) && Chosen(aliases, results, ge) && p(ge)
    decreases |aliases|
  {
    if aliases == [] {
      ge := env;
    } else {
      var a := aliases[0];
      var g := SomeTerm(Lookup(results, a), SumStep(aliases, results, env, product, p));
      NonzeroTerm(aliases, results, env, product, p, g);
      FreshStep(aliases, env, Exposed(g));
      ge := SomeGroups(aliases[1..], results, env[a := Exposed(g)], product * g.1, p);
      ChosenStep(aliases, results, env, ge, g);
    }
  }

  lemma ChosenStep(aliases: seq<string>, results: Results, env: Env, ge: Env, g: (Row, nat))
    requires aliases != [] && g in Lookup(results, aliases[0]) && g.1 > 0
    requires Extends(ge, env[aliases[0] := Exposed(g)]) && Chosen(aliases[1..], results, ge)
    ensures Chosen(aliases, results, ge)
  {
    var a := aliases[0];
    assert aliases == [a] + aliases[1..];
    assert a in env[a := Exposed(g)];
    assert ge[a] == Exposed(g);
  }

  /** A row that the group was made from. */
  ghost predicate Made(q: Query, a: string, group: Row, row: Row) {
    Passes(CteFor(q, a))(row) && forall c :: c in CteFor(q, a).cols ==> Get(group, c) == Get(row, c)
  }

  lemma GroupMade(source: seq<Row>, cte: Cte, out: seq<(Row, nat)>, g: (Row, nat)) returns (row: Row)
    requires IsResult(source, cte, out) && g in out && g.1 > 0
    ensures Passes(cte)(row) && g.0 == Project(cte.cols)(row)
  {
    var rows := Select(source, Passes(cte));
    if cte.cols == {} {
      row := rows[0];
      assert Project(cte.cols)(row) == map[];
    } else {
      row := KeyOccurs(rows, Project(cte.cols), g.0);
    }
    SelectMember(source, Passes(cte), row);
  }

  lemma {:induction false} KeyOccurs<A, K>(rows: seq<A>, key: A -> K, k: K) returns (row: A)
    requires Multiplicity(rows, key, k) > 0
    ensures row in rows && key(row) == k
  {
    if key(rows[0]) == k {
      row := rows[0];
    } else {
      row := KeyOccurs(rows[1..], key, k);
    }
  }

  lemma DoneListed(db: Database, q: Query, results: Results, a: string)
    requires AreResults(db, Rewrite(q), results) && a in q.aliases
    ensures IsDone(db, Rewrite(q).ctes, results, CteFor(q, a))
  {
    CteListed(q, a);
    var i :| 0 <= i < |Rewrite(q).ctes| && Rewrite(q).ctes[i] == CteFor(q, a);
  }

  lemma SomeRow(db: Database, q: Query, results: Results, a: string, group: Row)
    requires AreResults(db, Rewrite(q), results) && a in q.aliases && Binds(q) && IsGroup(Lookup(results, a), group)
    ensures exists row :: Made(q, a, group, row)
  {
    var ctes, cte := Rewrite(q).ctes, CteFor(q, a);
    DoneListed(db, q, results, a);
    var g :| g in Lookup(results, a) && g.1 > 0 && group == Exposed(g);
    var row := GroupMade(Resolve(db, ctes, results, cte.table), cte, results[a], g);
    assert "cnt" !in cte.cols;
    assert Made(q, a, group, row);
  }

  ghost function RowMade(q: Query, a: string, group: Row): (row: Row)
    requires exists row :: Made(q, a, group, row)
    ensures Made(q, a, group, row)
  {
    var row :| Made(q, a, group, row);
    row
  }

  ghost predicate HasRows(q: Query, ge: Env) {
    forall a :: a in ge ==> exists row :: Made(q, a, ge[a], row)
  }

  ghost function EnvMade(q: Query, ge: Env): (e: Env)
    requires HasRows(q, ge)
    ensures e.Keys == ge.Keys && forall a :: a in e ==> Made(q, a, ge[a], e[a])
  {
    map a | a in ge :: RowMade(q, a, ge[a])
  }

  lemma SortedAliases(q: Query)
    requires WellFormed(q)
    ensures Distinct(Aliases(Rewrite(q).ctes)) && Names(Aliases(Rewrite(q).ctes)) == Names(q.aliases)
  {
    var sorted := Ordering.Sort(q.aliases);
    RewriteAliases(q);
    SortedNames(q.aliases);
    Ordering.DistinctByMultiset(q.aliases, sorted);
  }

  lemma ChosenNames(aliases: seq<string>, others: seq<string>, results: Results, ge: Env)
    requires Chosen(aliases, results, ge) && Names(aliases) == Names(others)
    ensures Chosen(others, results, ge)
  {
    forall a | a in others ensures a in ge && IsGroup(Lookup(results, a), ge[a]) {
      assert a in Names(others) && a in Names(aliases);
    }
  }

  lemma AnsweredGroups(q: Query, results: Results) returns (ge: Env)
    requires WellFormed(q) && Answer(Rewrite(q), results) != 0
    ensures ge.Keys == Names(q.aliases) && Chosen(q.aliases, results, ge) && Holds(Rewrite(q).outer, ge)
  {
    var aliases := Aliases(Rewrite(q).ctes);
    SortedAliases(q);
    ge := SomeGroups(aliases, results, map[], 1, Where(Rewrite(q).outer));
    ChosenNames(aliases, q.aliases, results, ge);
  }

  lemma GroupsHaveRows(db: Database, q: Query, results: Results, ge: Env)
    requires Binds(q) && AreResults(db, Rewrite(q), results)
    requires ge.Keys == Names(q.aliases) && Chosen(q.aliases, results, ge)
    ensures HasRows(q, ge)
  {
    forall a | a in ge ensures exists row :: Made(q, a, ge[a], row) {
      assert a in Names(q.aliases);
      SomeRow(db, q, results, a, ge[a]);
    }
  }

  lemma AnsweredRows(db: Database, q: Query, results: Results) returns (e: Env)
    requires WellFormed(q) && Binds(q) && AreResults(db, Rewrite(q), results) && Answer(Rewrite(q), results) != 0
    ensures e.Keys == Names(q.aliases) && Holds(Kept(q).conds, e)
  {
    var ge := AnsweredGroups(q, results);
    GroupsHaveRows(db, q, results, ge);
    e := EnvMade(q, ge);
    RestHolds(q, e, ge);
  }

  /** If the rest of the query cannot be satisfied, every answer is 0, whatever the CTEs read. */
  lemma NothingAnswered(db: Database, q: Query, results: Results)
    requires WellFormed(q) && Binds(q) && AreResults(db, Rewrite(q), results) && Unsatisfiable(Kept(q))
    ensures Answer(Rewrite(q), results) == 0
  {
    if Answer(Rewrite(q), results) != 0 {
      var e := AnsweredRows(db, q, results);
      assert false;
    }
  }

  lemma RestHolds(q: Query, e: Env, ge: Env)
    requires WellFormed(q) && Binds(q) && e.Keys == ge.Keys == Names(q.aliases)
    requires (forall a :: a in e ==> Made(q, a, ge[a], e[a])) && Holds(Rewrite(q).outer, ge)
    ensures Holds(Kept(q).conds, e)
  {
    KeptFits(q);
    KeptRewrite(q);
    KeptKinds(q, Join);
    forall a | a in e ensures CteFor(Kept(q), a) == CteFor(q, a) {
      KeptKinds(q, Single(a));
    }
    assert SameKeys(Kept(q), e, ge);
    WhereSplits(Kept(q), e, ge);
  }

  // ---- When the script is always right ----

  /** The rows of `e`. */
  ghost function RowsOf(e: Env, aliases: seq<string>): (rows: seq<Row>)
    requires forall a :: a in aliases ==> a in e
    ensures forall a :: a in aliases ==> e[a] in rows
  {
    if aliases == [] then []
    else
      assert aliases == [aliases[0]] + aliases[1..];
      [e[aliases[0]]] + RowsOf(e, aliases[1..])
  }

  lemma SourceRows(q: Query, db: Database, rows: seq<Row>, a: string)
    requires a in q.tableOf && db == map t | t in q.tableOf.Values :: rows
    ensures Lookup(Source(db, q), a) == rows
  {
    assert q.tableOf[a] in q.tableOf.Values;
  }

  /** A query that can be satisfied counts something on some database. */
  lemma SatisfiedSomewhere(q: Query, e: Env) returns (db: Database)
    requires WellFormed(q) && e.Keys == Names(q.aliases) && Holds(q.conds, e)
    ensures TrueCard(db, q) > 0
  {
    assert forall a :: a in q.aliases ==> a in Names(q.aliases);
    var rows := RowsOf(e, q.aliases);
    db := map t | t in q.tableOf.Values :: rows;
    forall a | a in q.aliases ensures Lookup(Source(db, q), a) == rows {
      SourceRows(q, db, rows, a);
    }
    CountPositive(q.aliases, Source(db, q), map[], e, Where(q.conds));
  }

  /** Whatever the script writes on any database is the true count. */
  ghost predicate AlwaysExact(q: Query) {
    forall db, n :: Writes(db, q, n) ==> n == TrueCard(db, q)
  }

  /**
   If a table name is taken, the script answers the same with and without rows in that table, so on one of two databases
   it is wrong.
   */
  lemma CaptureWrong(q: Query, e: Env) returns (db: Database, n: int)
    requires WellFormed(q) && !Uncaptured(q) && !Fails(q) && e.Keys == Names(q.aliases) && Holds(q.conds, e)
    ensures Writes(db, q, n) && n != TrueCard(db, q)
  {
    var a, b :| a in q.tableOf && b in q.aliases && q.tableOf[a] == b;
    db := SatisfiedSomewhere(q, e);
    var results := ResultsExist(db, q);
    n := Answer(Rewrite(q), results);
    if n == TrueCard(db, q) {
      HiddenTable(db, q, results, b, []);
      db := db[b := []];
      assert a in q.aliases by {
        assert a in Names(q.aliases);
      }
      EmptyTable(db, q, a);
    }
  }

  lemma UncapturedRight(db: Database, q: Query, n: int)
    requires WellFormed(q) && Binds(q) && Uncaptured(q) && (DroppedTrue(q) || Unsatisfiable(Kept(q))) && Writes(db, q, n)
    ensures n == TrueCard(db, q)
  {
    UncapturedWorks(q);
    var results :| AreResults(db, Rewrite(q), results) && n == Answer(Rewrite(q), results);
    PushdownExactIff(db, q, results);
    if Unsatisfiable(Kept(q)) {
      KeptNothing(db, q);
    }
  }

  lemma KeptNothing(db: Database, q: Query)
    requires Distinct(q.aliases) && Unsatisfiable(Kept(q))
    ensures TrueCard(db, Kept(q)) == 0
  {
    CountNone(q.aliases, Source(db, q), map[], Where(Kept(q).conds));
  }

  lemma UncapturedWrong(q: Query, e: Env) returns (db: Database, n: int)
    requires WellFormed(q) && Binds(q) && Uncaptured(q) && !DroppedTrue(q)
    requires e.Keys == Names(q.aliases) && Holds(Kept(q).conds, e)
    ensures Writes(db, q, n) && n != TrueCard(db, q)
  {
    UncapturedWorks(q);
    KeptFits(q);
    db := SatisfiedSomewhere(Kept(q), e);
    var results := ResultsExist(db, q);
    n := Answer(Rewrite(q), results);
    PushdownExactIff(db, q, results);
  }

  lemma UncapturedIff(q: Query)
    requires WellFormed(q) && Binds(q) && Uncaptured(q)
    ensures AlwaysExact(q) <==> DroppedTrue(q) || Unsatisfiable(Kept(q))
  {
    if DroppedTrue(q) || Unsatisfiable(Kept(q)) {
      forall db, n | Writes(db, q, n) ensures n == TrueCard(db, q) {
        UncapturedRight(db, q, n);
      }
    } else {
      var e: Env :| e.Keys == Names(q.aliases) && Holds(Kept(q).conds, e);
      var db, n := UncapturedWrong(q, e);
      assert Writes(db, q, n);
    }
  }

  lemma KeptImplied(q: Query, e: Env)
    requires WellFormed(q) && Binds(q) && e.Keys == Names(q.aliases)
    ensures Holds(q.conds, e) <==> Holds(Kept(q).conds, e) && DroppedTrue(q)
  {
    KeptFits(q);
    KeptRewrite(q);
    KeptKinds(q, Join);
    forall a | a in e ensures CteFor(Kept(q), a) == CteFor(q, a) {
      KeptKinds(q, Single(a));
    }
    WhereSplits(q, e, e);
    WhereSplits(Kept(q), e, e);
  }

  lemma NothingCounted(db: Database, q: Query)
    requires WellFormed(q) && Binds(q) && Unsatisfiable(Kept(q))
    ensures TrueCard(db, q) == 0
  {
    forall e | Completes(e, map[], q.aliases) ensures !Where(q.conds)(e) {
      KeptImplied(q, e);
    }
    CountNone(q.aliases, Source(db, q), map[], Where(q.conds));
  }

  /** With a taken table name and nothing false dropped. */
  lemma CapturedIff(q: Query)
    requires WellFormed(q) && Binds(q) && !Uncaptured(q) && DroppedTrue(q)
    ensures AlwaysExact(q) <==> !Fails(q) && Unsatisfiable(Kept(q))
  {
    if Fails(q) {
      assert Writes(map[], q, -1);
    } else if Unsatisfiable(Kept(q)) {
      forall db, n | Writes(db, q, n) ensures n == TrueCard(db, q) {
        var results :| AreResults(db, Rewrite(q), results) && n == Answer(Rewrite(q), results);
        NothingAnswered(db, q, results);
        NothingCounted(db, q);
      }
    } else {
      var e: Env :| e.Keys == Names(q.aliases) && Holds(Kept(q).conds, e);
      KeptImplied(q, e);
      var db, n := CaptureWrong(q, e);
      assert Writes(db, q, n);
    }
  }

  /**
   A query with at most one of the two faults is always answered with its count iff the engine accepts it and either it
   has neither fault, or no choice of rows satisfies the conjuncts that are kept.
   */
  lemma AlwaysExactIff(q: Query)
    requires WellFormed(q) && Binds(q) && (Uncaptured(q) || DroppedTrue(q))
    ensures AlwaysExact(q) <==> !Fails(q) && ((Uncaptured(q) && DroppedTrue(q)) || Unsatisfiable(Kept(q)))
  {
    if Uncaptured(q) {
      UncapturedWorks(q);
      UncapturedIff(q);
    } else {
      CapturedIff(q);
    }
  }

  // ---- FROM x AS a, a AS b WHERE a.k = b.k ----

  /** The names, `a` before `b` in the WITH list. */
  ghost predicate TakenNames(x: string, a: string, b: string, k: string) {
    x != a && x != b && a != b && k != "cnt" && Ordering.Leq(a, b)
  }

  lemma SortTwo(a: string, b: string)
    requires Ordering.Leq(a, b)
    ensures Ordering.Sort([a, b]) == [a, b]
  {
    assert [a, b][1..] == [b] && [b][1..] == [];
    assert Ordering.Sort([]) == [];
    assert Ordering.Sort([b]) == [b];
  }

  function TakenJoin(a: string, b: string, k: string): Conjunct {
    JoinEq(Ref(a, k), Ref(b, k))
  }

  function TakenQuery(x: string, a: string, b: string, k: string): Query {
    Query([a, b], map[a := x, b := a], [TakenJoin(a, b, k)])
  }

  lemma TakenKinds(q: Query, x: string, a: string, b: string, k: string, kind: Kind)
    requires q == TakenQuery(x, a, b, k)
    ensures OfKind(q, kind) == if kind == Join then [TakenJoin(a, b, k)] else []
  {
    var c := TakenJoin(a, b, k);
    assert q.aliases[0] == a && q.aliases[1] == b;
    assert Classify(c, q.aliases) == Join;
    assert q.conds[..1] == [c];
    SelectOne(c, KindIs(q.aliases, kind));
  }

  lemma TakenKeys(c: Conjunct, a: string, b: string, k: string, alias: string)
    requires c == TakenJoin(a, b, k)
    ensures JoinKeys([c], alias) == if alias == a || alias == b then {k} else {}
  {
    assert [c][..0] == [];
    assert JoinKeys([], alias) == {};
  }

  lemma TakenCte(q: Query, x: string, a: string, b: string, k: string, alias: string)
    requires q == TakenQuery(x, a, b, k) && a != b && (alias == a || alias == b)
    ensures CteFor(q, alias) == Cte(alias, if alias == a then x else a, {k}, [])
  {
    TakenKinds(q, x, a, b, k, Join);
    TakenKinds(q, x, a, b, k, Single(alias));
    TakenKeys(TakenJoin(a, b, k), a, b, k, alias);
  }

  lemma TwoCtes(q: Query, a: string, b: string)
    ensures CtesFor(q, [a, b]) == [CteFor(q, a), CteFor(q, b)]
  {
    var ctes := CtesFor(q, [a, b]);
    assert ctes[0] == CteFor(q, a) && ctes[1] == CteFor(q, b);
  }

  lemma TakenRewrite(q: Query, x: string, a: string, b: string, k: string)
    requires q == TakenQuery(x, a, b, k) && TakenNames(x, a, b, k)
    ensures Rewrite(q) == GroupedQuery([Cte(a, x, {k}, []), Cte(b, a, {k}, [])], [TakenJoin(a, b, k)])
  {
    assert OfKind(q, Join) + OfKind(q, CrossTable) == [TakenJoin(a, b, k)] by {
      TakenKinds(q, x, a, b, k, Join);
      TakenKinds(q, x, a, b, k, CrossTable);
    }
    assert CtesFor(q, Ordering.Sort(q.aliases)) == [Cte(a, x, {k}, []), Cte(b, a, {k}, [])] by {
      TakenCte(q, x, a, b, k, a);
      TakenCte(q, x, a, b, k, b);
      SortTwo(a, b);
      TwoCtes(q, a, b);
    }
  }

  lemma TakenBinds(q: Query, x: string, a: string, b: string, k: string)
    requires q == TakenQuery(x, a, b, k) && TakenNames(x, a, b, k) && Classify(q.conds[0], q.aliases) == Join
    ensures Binds(q)
  {
    TakenKinds(q, x, a, b, k, Join);
    forall alias ensures "cnt" !in JoinKeys(OfKind(q, Join), alias) {
      TakenKeys(TakenJoin(a, b, k), a, b, k, alias);
    }
  }

  lemma TakenWellFormed(q: Query, x: string, a: string, b: string, k: string)
    requires q == TakenQuery(x, a, b, k) && TakenNames(x, a, b, k)
    ensures WellFormed(q) && !Uncaptured(q) && Classify(q.conds[0], q.aliases) == Join
  {
    assert q.aliases[0] == a && q.aliases[1] == b;
    assert q.tableOf[b] == a;
    assert b in q.tableOf && a in q.aliases && !Uncaptured(q);
    assert q.tableOf.Keys == Names(q.aliases);
    assert Classify(TakenJoin(a, b, k), q.aliases) == Join;
    forall c, i | c in q.conds && 0 <= i < |Refs(c)| ensures Refs(c)[i].alias in q.aliases {
      assert c == q.conds[0];
    }
  }

  lemma TakenFits(q: Query, x: string, a: string, b: string, k: string)
    requires q == TakenQuery(x, a, b, k) && TakenNames(x, a, b, k)
    ensures WellFormed(q) && Binds(q) && !Uncaptured(q) && DroppedTrue(q)
  {
    TakenWellFormed(q, x, a, b, k);
    TakenBinds(q, x, a, b, k);
    TakenKinds(q, x, a, b, k, NoAlias);
  }

  lemma TakenWorks(q: Query, ctes: seq<Cte>, x: string, a: string, b: string, k: string)
    requires TakenNames(x, a, b, k) && ctes == [Cte(a, x, {k}, []), Cte(b, a, {k}, [])]
    requires Rewrite(q).ctes == ctes
    ensures !Fails(q)
  {
    forall i: nat, j: nat | i < 2 && j < 2 && Reads(ctes, i, j) ensures i == 1 && j == 0 {
    }
    assert Columns(ctes[1].preds) == {};
  }

  /** One row makes one group. */
  lemma OneGroup(row: Row, cte: Cte, out: seq<(Row, nat)>)
    requires IsResult([row], cte, out) && cte.cols != {} && cte.preds == []
    ensures out == [(Project(cte.cols)(row), 1)]
  {
    SelectOne(row, Passes(cte));
    OneKey(row, Project(cte.cols), out);
  }

  lemma OneKey<A, K>(row: A, key: A -> K, out: seq<(K, nat)>)
    requires IsGrouping([row], key, out)
    ensures out == [(key(row), 1)]
  {
    assert [row][1..] == [];
    forall k ensures Multiplicity([row], key, k) == if k == key(row) then 1 else 0 {
      assert Multiplicity([], key, k) == 0;
    }
    assert [row][0] == row;
    var g :| g in out && g.0 == key(row);
    forall i | 0 <= i < |out| ensures out[i] == (key(row), 1) {
      assert out[i] in out;
    }
    assert |out| >= 2 ==> out[0].0 != out[1].0;
  }

  /** A row with the single column `k`. */
  function TakenRow(k: string): Row {
    map[k := Val(1)]
  }

  lemma TakenGroup(cte: Cte, k: string, row: Row, out: seq<(Row, nat)>)
    requires cte.cols == {k} && cte.preds == [] && Get(row, k) == Val(1) && IsResult([row], cte, out)
    ensures out == [(TakenRow(k), 1)]
  {
    OneGroup(row, cte, out);
    assert Project({k})(row) == TakenRow(k);
  }

  lemma TakenFirst(db: Database, ctes: seq<Cte>, results: Results, x: string, a: string, b: string, k: string)
    requires TakenNames(x, a, b, k) && ctes == [Cte(a, x, {k}, []), Cte(b, a, {k}, [])]
    requires db == map[x := [TakenRow(k)]] && IsDone(db, ctes, results, ctes[0])
    ensures Lookup(results, a) == [(TakenRow(k), 1)]
  {
    assert !NamesCte(ctes, x);
    TakenGroup(ctes[0], k, TakenRow(k), results[a]);
  }

  lemma TakenSecond(db: Database, ctes: seq<Cte>, results: Results, x: string, a: string, b: string, k: string)
    requires TakenNames(x, a, b, k) && ctes == [Cte(a, x, {k}, []), Cte(b, a, {k}, [])]
    requires Lookup(results, a) == [(TakenRow(k), 1)] && IsDone(db, ctes, results, ctes[1])
    ensures Lookup(results, b) == [(TakenRow(k), 1)]
  {
    assert ctes[0].alias == a;
    var exposed := Exposed((TakenRow(k), 1));
    assert ExposedRows(Lookup(results, a)) == [exposed];
    TakenGroup(ctes[1], k, exposed, results[b]);
  }

  lemma TakenSum(results: Results, a: string, b: string, k: string, c: Conjunct)
    requires a != b && k != "cnt" && c == TakenJoin(a, b, k)
    requires Lookup(results, a) == [(TakenRow(k), 1)] && Lookup(results, b) == [(TakenRow(k), 1)]
    ensures SumProducts([a, b], results, map[], 1, Where([c])) == 1
  {
    var p, g := Where([c]), (TakenRow(k), 1);
    var row := Exposed(g);
    var one: Env := map[a := row];
    var two := one[b := row];
    assert map[][a := row] == one;
    assert [a, b][1..] == [b] && [b][1..] == [];
    assert Eval(c, two) == True;
    assert SumProducts([], results, two, 1, p) == 1;
    TotalSingle(g, SumStep([b], results, one, 1, p));
    assert SumProducts([b], results, one, 1, p) == 1;
    TotalSingle(g, SumStep([a, b], results, map[], 1, p));
  }

  lemma TakenGroups(db: Database, ctes: seq<Cte>, results: Results, x: string, a: string, b: string, k: string)
    requires TakenNames(x, a, b, k) && ctes == [Cte(a, x, {k}, []), Cte(b, a, {k}, [])]
    requires db == map[x := [TakenRow(k)]] && IsDone(db, ctes, results, ctes[0]) && IsDone(db, ctes, results, ctes[1])
    ensures SumProducts([a, b], results, map[], 1, Where([TakenJoin(a, b, k)])) == 1
  {
    TakenFirst(db, ctes, results, x, a, b, k);
    TakenSecond(db, ctes, results, x, a, b, k);
    TakenSum(results, a, b, k, TakenJoin(a, b, k));
  }

  lemma TakenAnswer(db: Database, q: Query, gq: GroupedQuery, results: Results, x: string, a: string, b: string, k: string)
    requires TakenNames(x, a, b, k) && db == map[x := [TakenRow(k)]] && AreResults(db, gq, results)
    requires gq == GroupedQuery([Cte(a, x, {k}, []), Cte(b, a, {k}, [])], [TakenJoin(a, b, k)])
    ensures Answer(gq, results) == 1
  {
    assert Aliases(gq.ctes) == [a, b];
    assert IsDone(db, gq.ctes, results, gq.ctes[0]) && IsDone(db, gq.ctes, results, gq.ctes[1]);
    TakenGroups(db, gq.ctes, results, x, a, b, k);
  }

  lemma TakenCount(db: Database, q: Query, x: string, a: string, b: string, k: string)
    requires WellFormed(q) && TakenNames(x, a, b, k) && q == TakenQuery(x, a, b, k) && db == map[x := [TakenRow(k)]]
    ensures TrueCard(db, q) == 0
  {
    assert q.aliases[1] == b;
    assert Lookup(Source(db, q), b) == [];
    EmptyTable(db, q, b);
  }

  /** With one row in `x`, and no table `a` at all, the script writes 1. */
  lemma TakenName(db: Database, q: Query, n: int, x: string, a: string, b: string, k: string)
    requires TakenNames(x, a, b, k) && q == TakenQuery(x, a, b, k) && db == map[x := [TakenRow(k)]]
    ensures WellFormed(q) && Binds(q) && TrueCard(db, q) == 0
    ensures Writes(db, q, n) <==> n == 1
  {
    TakenFits(q, x, a, b, k);
    TakenCount(db, q, x, a, b, k);
    TakenRewrite(q, x, a, b, k);
    TakenWorks(q, Rewrite(q).ctes, x, a, b, k);
    var some := ResultsExist(db, q);
    forall results | AreResults(db, Rewrite(q), results) ensures Answer(Rewrite(q), results) == 1 {
      TakenAnswer(db, q, Rewrite(q), results, x, a, b, k);
    }
  }
}

/**
 When do two queries with the same signature count the same? A signature is the set of tables, the
 canonical equalities and the filters of a query in which every base table occurs once and columns
 are written `table.column`.
 */
module Signatures {
  import opened Sums
  import opened Sql
  import opened UnionFind
  import opened CanonicalJoins

  /** A comparison between two columns. */
  datatype JoinPred = JoinPred(left: Column, op: string, right: Column)

  datatype Query = Query(tables: seq<string>, joins: seq<JoinPred>, filters: seq<string>)

  datatype Signature = Signature(tables: set<string>, joins: set<Join>, filters: multiset<string>)

  /** Only `=` reaches the union-find. */
  function Equalities(joins: seq<JoinPred>): seq<Join> {
    if joins == [] then []
    else (if joins[0].op == "=" then [(joins[0].left, joins[0].right)] else []) + Equalities(joins[1..])
  }

  ghost predicate IsSignature(q: Query, sig: Signature) {
    && sig.tables == Names(q.tables)
    && IsCanonical(Equalities(q.joins), sig.joins)
    && sig.filters == multiset(q.filters)
  }

  method EqualityEdges(joins: seq<JoinPred>) returns (edges: seq<Join>)
    ensures edges == Equalities(joins)
  {
    edges := [];
    for i := 0 to |joins|
      invariant edges + Equalities(joins[i..]) == Equalities(joins)
    {
      assert joins[i..][1..] == joins[i + 1..];
      if joins[i].op == "=" {
        edges := edges + [(joins[i].left, joins[i].right)];
      }
    }
    assert joins[|joins|..] == [];
  }

  method Canonicalize(q: Query) returns (sig: Signature)
    ensures IsSignature(q, sig)
  {
    var edges := EqualityEdges(q.joins);
    var joins := SignatureJoins(edges);
    var tables := set t | t in q.tables;
    sig := Signature(tables, joins, multiset(q.filters));
  }

  // ---- What a query counts ----

  /** The part of a column name before its first dot, and the part after it. */
  function RefOf(column: Column): Ref {
    if column == [] then Ref([], [])
    else if column[0] == '.' then Ref([], column[1..])
    else var r := RefOf(column[1..]); Ref([column[0]] + r.alias, r.col)
  }

  /** Two cells compared; with a NULL the outcome is unknown. */
  function Comparison(op: string): seq<Cell> -> Truth {
    (cells: seq<Cell>) =>
      if |cells| != 2 || cells[0].Null? || cells[1].Null? then Unknown
      else
        var x, y := cells[0].v, cells[1].v;
        var holds :=
          if op == "<" then x < y else if op == ">" then x > y
          else if op == "<=" then x <= y else if op == ">=" then x >= y
          else x != y;
        if holds then True else False
  }

  ghost predicate IsTrue(op: string, x: int, y: int) {
    Comparison(op)([Val(x), Val(y)]) == True
  }

  /** How the comparisons go together: one of three, each the converse or the negation of another, and `<` an order. */
  lemma ComparisonsAgree(x: int, y: int, z: int)
    ensures (if IsTrue("<", x, y) then 1 else 0) + (if IsTrue(">", x, y) then 1 else 0) + (if x == y then 1 else 0) == 1
    ensures IsTrue("<", x, y) <==> IsTrue(">", y, x)
    ensures IsTrue("<=", x, y) <==> !IsTrue(">", x, y)
    ensures IsTrue(">=", x, y) <==> !IsTrue("<", x, y)
    ensures IsTrue("!=", x, y) <==> x != y
    ensures IsTrue("<", x, y) && IsTrue("<", y, z) ==> IsTrue("<", x, z)
    ensures IsTrue("<", x, x + 1)
  {
  }

  function JoinMeaning(j: JoinPred): Conjunct {
    if j.op == "=" then JoinEq(RefOf(j.left), RefOf(j.right))
    else Other([RefOf(j.left), RefOf(j.right)], Comparison(j.op))
  }

  /** All joins hold, and all filters, whose text `meaning` interprets. */
  ghost predicate Satisfies(q: Query, meaning: string -> Conjunct, env: Env) {
    && (forall i :: 0 <= i < |q.joins| ==> Eval(JoinMeaning(q.joins[i]), env) == True)
    && (forall i :: 0 <= i < |q.filters| ==> Eval(meaning(q.filters[i]), env) == True)
  }

  function JoinConditions(joins: seq<JoinPred>): (conds: seq<Conjunct>)
    ensures |conds| == |joins| && forall i :: 0 <= i < |conds| ==> conds[i] == JoinMeaning(joins[i])
  {
    if joins == [] then [] else [JoinMeaning(joins[0])] + JoinConditions(joins[1..])
  }

  function FilterConditions(filters: seq<string>, meaning: string -> Conjunct): (conds: seq<Conjunct>)
    ensures |conds| == |filters| && forall i :: 0 <= i < |conds| ==> conds[i] == meaning(filters[i])
  {
    if filters == [] then [] else [meaning(filters[0])] + FilterConditions(filters[1..], meaning)
  }

  function Conditions(q: Query, meaning: string -> Conjunct): seq<Conjunct> {
    JoinConditions(q.joins) + FilterConditions(q.filters, meaning)
  }

  /** `SELECT COUNT(*) FROM tables WHERE joins AND filters` */
  function Size(q: Query, db: map<string, seq<Row>>, meaning: string -> Conjunct): nat {
    Count(q.tables, db, map[], Where(Conditions(q, meaning)))
  }

  lemma ConditionsHold(q: Query, meaning: string -> Conjunct, env: Env)
    ensures Where(Conditions(q, meaning))(env) <==> Satisfies(q, meaning, env)
  {
    HoldsAppend(JoinConditions(q.joins), FilterConditions(q.filters, meaning), env);
    JoinConditionsHold(q.joins, env);
    FilterConditionsHold(q.filters, meaning, env);
  }

  lemma JoinConditionsHold(joins: seq<JoinPred>, env: Env)
    ensures Holds(JoinConditions(joins), env) <==> forall i :: 0 <= i < |joins| ==> Eval(JoinMeaning(joins[i]), env) == True
  {
    var conds := JoinConditions(joins);
    assert forall i :: 0 <= i < |joins| ==> conds[i] == JoinMeaning(joins[i]);
  }

  lemma FilterConditionsHold(filters: seq<string>, meaning: string -> Conjunct, env: Env)
    ensures Holds(FilterConditions(filters, meaning), env) <==>
            forall i :: 0 <= i < |filters| ==> Eval(meaning(filters[i]), env) == True
  {
    var conds := FilterConditions(filters, meaning);
    assert forall i :: 0 <= i < |filters| ==> conds[i] == meaning(filters[i]);
  }

  // ---- Equalities and classes ----

  ghost predicate SatisfiesAll(edges: seq<Join>, env: Env) {
    forall i :: 0 <= i < |edges| ==> Equal(Fetch(env, RefOf(edges[i].0)), Fetch(env, RefOf(edges[i].1))) == True
  }

  /** Columns of one class hold the same value, and it is not NULL. */
  function Agreement(env: Env): (Column, Column) -> bool {
    (x, y) => x == y || Equal(Fetch(env, RefOf(x)), Fetch(env, RefOf(y))) == True
  }

  lemma AgreementEquivalence(env: Env)
    ensures Equivalence(Agreement(env))
  {
  }

  lemma ClassAgrees(edges: seq<Join>, env: Env, x: Column, y: Column)
    requires SatisfiesAll(edges, env) && Connected(edges, x, y)
    ensures Agreement(env)(x, y)
  {
    AgreementEquivalence(env);
    ConnectedLeast(edges, Agreement(env), x, y);
  }

  /** A column that is equated with itself and with no other column. */
  ghost predicate IsolatedSelf(edges: seq<Join>, x: Column) {
    (x, x) in edges && forall y :: !Reaches(edges, x, y)
  }

  ghost predicate Reaches(edges: seq<Join>, x: Column, y: Column) {
    Connected(edges, x, y) && x != y
  }

  ghost predicate NotNull(env: Env, x: Column) {
    Fetch(env, RefOf(x)) != Null
  }

  /** A list of equalities says: each class agrees, and its isolated columns are not NULL. */
  lemma EqualitiesMean(edges: seq<Join>, env: Env)
    ensures SatisfiesAll(edges, env) <==>
            && (forall x, y :: Connected(edges, x, y) ==> Agreement(env)(x, y))
            && (forall x :: IsolatedSelf(edges, x) ==> NotNull(env, x))
  {
    if SatisfiesAll(edges, env) {
      forall x, y | Connected(edges, x, y) ensures Agreement(env)(x, y) {
        ClassAgrees(edges, env, x, y);
      }
      forall x | IsolatedSelf(edges, x) ensures NotNull(env, x) {
        var i :| 0 <= i < |edges| && edges[i] == (x, x);
        assert Equal(Fetch(env, RefOf(edges[i].0)), Fetch(env, RefOf(edges[i].1))) == True;
      }
    }
    if (forall x, y :: Connected(edges, x, y) ==> Agreement(env)(x, y))
       && (forall x :: IsolatedSelf(edges, x) ==> NotNull(env, x))
    {
      forall i | 0 <= i < |edges| ensures Equal(Fetch(env, RefOf(edges[i].0)), Fetch(env, RefOf(edges[i].1))) == True {
        EdgeHolds(edges, env, i);
      }
    }
  }

  lemma EdgeHolds(edges: seq<Join>, env: Env, i: nat)
    requires i < |edges|
    requires forall x, y :: Connected(edges, x, y) ==> Agreement(env)(x, y)
    requires forall x :: IsolatedSelf(edges, x) ==> NotNull(env, x)
    ensures Equal(Fetch(env, RefOf(edges[i].0)), Fetch(env, RefOf(edges[i].1))) == True
  {
    var (a, b) := edges[i];
    ConnectedEdge(edges, i);
    if a == b {
      assert edges[i] == (a, a);
      if IsolatedSelf(edges, a) {
        assert NotNull(env, a);
      } else {
        var y :| Reaches(edges, a, y);
        assert Agreement(env)(a, y);
      }
    }
  }

  /** The isolated self-equalities of two lists concern the same columns. */
  ghost predicate SameIsolated(es: seq<Join>, fs: seq<Join>) {
    forall x :: IsolatedSelf(es, x) <==> IsolatedSelf(fs, x)
  }

  lemma SameMeaning(es: seq<Join>, fs: seq<Join>, env: Env)
    requires SameClasses(es, fs) && SameIsolated(es, fs)
    ensures SatisfiesAll(es, env) <==> SatisfiesAll(fs, env)
  {
    EqualitiesMean(es, env);
    EqualitiesMean(fs, env);
  }

  // ---- Equal signatures ----

  ghost predicate InequalitiesOf(q: Query, j: JoinPred) {
    j in q.joins && j.op != "="
  }

  /** The joins that no signature shows are the same. */
  ghost predicate SameInequalities(p: Query, q: Query) {
    forall j :: InequalitiesOf(p, j) <==> InequalitiesOf(q, j)
  }

  lemma {:induction false} EqualitiesMember(joins: seq<JoinPred>, e: Join)
    ensures e in Equalities(joins) <==> JoinPred(e.0, "=", e.1) in joins
  {
    if joins != [] {
      EqualitiesMember(joins[1..], e);
      assert joins == [joins[0]] + joins[1..];
    }
  }

  ghost predicate JoinsHold(joins: seq<JoinPred>, env: Env) {
    forall i :: 0 <= i < |joins| ==> Eval(JoinMeaning(joins[i]), env) == True
  }

  lemma EqualitiesHold(joins: seq<JoinPred>, env: Env)
    requires JoinsHold(joins, env)
    ensures SatisfiesAll(Equalities(joins), env)
  {
    var edges := Equalities(joins);
    forall i | 0 <= i < |edges| ensures Equal(Fetch(env, RefOf(edges[i].0)), Fetch(env, RefOf(edges[i].1))) == True {
      EqualitiesMember(joins, edges[i]);
      var k :| 0 <= k < |joins| && joins[k] == JoinPred(edges[i].0, "=", edges[i].1);
      assert Eval(JoinMeaning(joins[k]), env) == True;
    }
  }

  lemma JoinsSplit(q: Query, env: Env)
    ensures JoinsHold(q.joins, env) <==>
            && SatisfiesAll(Equalities(q.joins), env)
            && forall j :: InequalitiesOf(q, j) ==> Eval(JoinMeaning(j), env) == True
  {
    var edges := Equalities(q.joins);
    if JoinsHold(q.joins, env) {
      EqualitiesHold(q.joins, env);
    }
    if SatisfiesAll(edges, env) && forall j :: InequalitiesOf(q, j) ==> Eval(JoinMeaning(j), env) == True {
      forall i | 0 <= i < |q.joins| ensures Eval(JoinMeaning(q.joins[i]), env) == True {
        var j := q.joins[i];
        if j.op == "=" {
          EqualitiesMember(q.joins, (j.left, j.right));
          assert j == JoinPred(j.left, "=", j.right);
          var k :| 0 <= k < |edges| && edges[k] == (j.left, j.right);
          assert Equal(Fetch(env, RefOf(edges[k].0)), Fetch(env, RefOf(edges[k].1))) == True;
        } else {
          assert InequalitiesOf(q, j);
        }
      }
    }
  }

  lemma SameFilters(p: Query, q: Query, meaning: string -> Conjunct, env: Env)
    requires multiset(p.filters) == multiset(q.filters)
    requires forall i :: 0 <= i < |p.filters| ==> Eval(meaning(p.filters[i]), env) == True
    ensures forall i :: 0 <= i < |q.filters| ==> Eval(meaning(q.filters[i]), env) == True
  {
    forall i | 0 <= i < |q.filters| ensures Eval(meaning(q.filters[i]), env) == True {
      assert q.filters[i] in multiset(p.filters);
      var k :| 0 <= k < |p.filters| && p.filters[k] == q.filters[i];
    }
  }

  lemma SatisfiesSame(p: Query, q: Query, sig: Signature, meaning: string -> Conjunct, env: Env)
    requires IsSignature(p, sig) && IsSignature(q, sig) && SameInequalities(p, q)
    requires SameIsolated(Equalities(p.joins), Equalities(q.joins))
    ensures Satisfies(p, meaning, env) <==> Satisfies(q, meaning, env)
  {
    CanonicalIff(Equalities(p.joins), Equalities(q.joins), sig.joins, sig.joins);
    SameMeaning(Equalities(p.joins), Equalities(q.joins), env);
    JoinsSplit(p, env);
    JoinsSplit(q, env);
    if Satisfies(p, meaning, env) { SameFilters(p, q, meaning, env); }
    if Satisfies(q, meaning, env) { SameFilters(q, p, meaning, env); }
  }

  /**
   Equal signatures mean equal counts on every database and for every meaning of the filters, if the
   queries have the same non-equality joins and the same isolated self-equalities.
   */
  lemma SignatureSound(p: Query, q: Query, sig: Signature, db: map<string, seq<Row>>, meaning: string -> Conjunct)
    requires Distinct(p.tables) && Distinct(q.tables)
    requires IsSignature(p, sig) && IsSignature(q, sig) && SameInequalities(p, q)
    requires SameIsolated(Equalities(p.joins), Equalities(q.joins))
    ensures Size(p, db, meaning) == Size(q, db, meaning)
  {
    var wp, wq := Where(Conditions(p, meaning)), Where(Conditions(q, meaning));
    forall env ensures wp(env) == wq(env) {
      ConditionsHold(p, meaning, env);
      ConditionsHold(q, meaning, env);
      SatisfiesSame(p, q, sig, meaning, env);
    }
    CountCong(p.tables, db, map[], wp, wq);
    CountPermutation(p.tables, q.tables, db, map[], wq);
  }

  // ---- Exactly when ----

  ghost predicate OnlyEqualities(q: Query) {
    forall i :: 0 <= i < |q.joins| ==> q.joins[i].op == "="
  }

  ghost predicate Dotted(column: Column) {
    '.' in column
  }

  ghost predicate ColumnsKnown(q: Query) {
    forall c :: c in Nodes(Equalities(q.joins)) ==> Dotted(c) && RefOf(c).alias in q.tables
  }

  lemma {:induction false} RefText(column: Column)
    requires Dotted(column)
    ensures column == RefOf(column).alias + "." + RefOf(column).col && !Dotted(RefOf(column).alias)
  {
    if column[0] != '.' {
      assert column == [column[0]] + column[1..];
      RefText(column[1..]);
    } else {
      assert column == "." + column[1..];
    }
  }

  /** A row of table `t` in which every column holds what `paint` gives it. */
  function PaintedRow(t: string, cols: set<string>, paint: Ref -> Cell): Row {
    map c | c in cols :: paint(Ref(t, c))
  }

  function OneRowEach(tables: set<string>, cols: set<string>, paint: Ref -> Cell): map<string, seq<Row>> {
    map t | t in tables :: [PaintedRow(t, cols, paint)]
  }

  /** The only combination of rows. */
  function OnlyEnv(tables: set<string>, cols: set<string>, paint: Ref -> Cell): Env {
    map t | t in tables :: PaintedRow(t, cols, paint)
  }

  lemma CountOneRow(aliases: seq<string>, cols: set<string>, paint: Ref -> Cell, p: Env -> bool)
    ensures Count(aliases, OneRowEach(Names(aliases), cols, paint), map[], p) ==
            if p(OnlyEnv(Names(aliases), cols, paint)) then 1 else 0
  {
    CountSingleton(aliases, OneRowEach(Names(aliases), cols, paint), map[], OnlyEnv(Names(aliases), cols, paint), p);
  }

  /** NULL in column `l` and 1 everywhere else. */
  function NullAt(l: Ref): Ref -> Cell {
    r => if r == l then Null else Val(1)
  }

  function Columns(names: set<Column>): set<string> {
    set c | c in names :: RefOf(c).col
  }

  function Always(): string -> Conjunct {
    s => Other([], cells => True)
  }

  lemma PaintedColumn(tables: set<string>, names: set<Column>, paint: Ref -> Cell, m: Column)
    requires m in names && RefOf(m).alias in tables
    ensures Fetch(OnlyEnv(tables, Columns(names), paint), RefOf(m)) == paint(RefOf(m))
  {
    assert RefOf(m).col in Columns(names);
  }

  lemma OtherColumn(l: Column, m: Column)
    requires m != l && Dotted(m) && Dotted(l)
    ensures NullAt(RefOf(l))(RefOf(m)) == Val(1)
  {
    RefText(m);
    RefText(l);
  }

  lemma Mentioned(fs: seq<Join>, l: Column)
    requires l in Nodes(fs)
    ensures IsolatedSelf(fs, l) || exists y :: Reaches(fs, l, y)
  {
    var i :| 0 <= i < |fs| && (fs[i].0 == l || fs[i].1 == l);
    ConnectedEdge(fs, i);
    if fs[i].0 == fs[i].1 {
      assert fs[i] == (l, l);
    } else if fs[i].1 == l {
      ConnectedSym(fs, fs[i].0, l);
      assert Reaches(fs, l, fs[i].0);
    } else {
      assert Reaches(fs, l, fs[i].1);
    }
  }

  /** A column whose only equality in one query is with itself does not occur in the other. */
  lemma NotMentioned(es: seq<Join>, fs: seq<Join>, l: Column)
    requires SameClasses(es, fs) && IsolatedSelf(es, l) && !IsolatedSelf(fs, l)
    ensures l !in Nodes(fs)
  {
    assert forall y :: Reaches(fs, l, y) ==> Reaches(es, l, y);
    if l in Nodes(fs) {
      Mentioned(fs, l);
    }
  }

  lemma NullRow(q: Query, tables: set<string>, cols: set<string>, l: Column)
    requires IsolatedSelf(Equalities(q.joins), l)
    ensures !Satisfies(q, Always(), OnlyEnv(tables, cols, NullAt(RefOf(l))))
  {
    var env := OnlyEnv(tables, cols, NullAt(RefOf(l)));
    EqualitiesMember(q.joins, (l, l));
    var i :| 0 <= i < |q.joins| && q.joins[i] == JoinPred(l, "=", l);
    var r := RefOf(l);
    assert Fetch(env, r) == Null;
    assert Eval(JoinMeaning(q.joins[i]), env) == Unknown;
  }

  lemma OnesRow(q: Query, names: set<Column>, l: Column)
    requires OnlyEqualities(q) && ColumnsKnown(q) && Nodes(Equalities(q.joins)) <= names
    requires Dotted(l) && l !in Nodes(Equalities(q.joins))
    ensures Satisfies(q, Always(), OnlyEnv(Names(q.tables), Columns(names), NullAt(RefOf(l))))
  {
    var env, edges := OnlyEnv(Names(q.tables), Columns(names), NullAt(RefOf(l))), Equalities(q.joins);
    forall i | 0 <= i < |edges| ensures Equal(Fetch(env, RefOf(edges[i].0)), Fetch(env, RefOf(edges[i].1))) == True {
      forall c | c in {edges[i].0, edges[i].1} ensures Fetch(env, RefOf(c)) == Val(1) {
        assert c in Nodes(edges);
        PaintedColumn(Names(q.tables), names, NullAt(RefOf(l)), c);
        OtherColumn(l, c);
      }
    }
    assert forall j :: !InequalitiesOf(q, j);
    JoinsSplit(q, env);
  }

  /** One isolated self-equality that the other query lacks makes a difference on some database. */
  lemma IsolatedMatters(p: Query, q: Query, sig: Signature, l: Column) returns (db: map<string, seq<Row>>)
    requires Distinct(p.tables) && Distinct(q.tables) && IsSignature(p, sig) && IsSignature(q, sig)
    requires ColumnsKnown(p) && ColumnsKnown(q) && OnlyEqualities(q)
    requires IsolatedSelf(Equalities(p.joins), l) && !IsolatedSelf(Equalities(q.joins), l)
    ensures Size(p, db, Always()) == 0 && Size(q, db, Always()) == 1
  {
    var es, fs := Equalities(p.joins), Equalities(q.joins);
    CanonicalIff(es, fs, sig.joins, sig.joins);
    NotMentioned(es, fs, l);
    var i :| 0 <= i < |es| && es[i] == (l, l);
    assert l in Nodes(es);
    var tables, names := Names(p.tables), Nodes(es) + Nodes(fs);
    var cols := Columns(names);
    var paint := NullAt(RefOf(l));
    db := OneRowEach(tables, cols, paint);
    NullRow(p, tables, cols, l);
    OnesRow(q, names, l);
    var env := OnlyEnv(tables, cols, paint);
    ConditionsHold(p, Always(), env);
    ConditionsHold(q, Always(), env);
    CountOneRow(p.tables, cols, paint, Where(Conditions(p, Always())));
    CountOneRow(q.tables, cols, paint, Where(Conditions(q, Always())));
  }

  /**
   Of two equality queries with the same signature: they count the same on every database if and only
   if the same columns are equated with nothing but themselves.
   */
  lemma SignatureIff(p: Query, q: Query, sig: Signature)
    requires Distinct(p.tables) && Distinct(q.tables) && IsSignature(p, sig) && IsSignature(q, sig)
    requires OnlyEqualities(p) && OnlyEqualities(q) && ColumnsKnown(p) && ColumnsKnown(q)
    ensures (forall db, meaning :: Size(p, db, meaning) == Size(q, db, meaning)) <==>
            SameIsolated(Equalities(p.joins), Equalities(q.joins))
  {
    if SameIsolated(Equalities(p.joins), Equalities(q.joins)) {
      forall db, meaning ensures Size(p, db, meaning) == Size(q, db, meaning) {
        SignatureSound(p, q, sig, db, meaning);
      }
    } else {
      var l :| IsolatedSelf(Equalities(p.joins), l) != IsolatedSelf(Equalities(q.joins), l);
      if IsolatedSelf(Equalities(p.joins), l) {
        var db := IsolatedMatters(p, q, sig, l);
        assert Size(p, db, Always()) != Size(q, db, Always());
      } else {
        var db := IsolatedMatters(q, p, sig, l);
        assert Size(p, db, Always()) != Size(q, db, Always());
      }
    }
  }

  // ---- What the joins that vanish change ----

  function IsEquality(): JoinPred -> bool {
    (j: JoinPred) => j.op == "="
  }

  /** The query without the joins that no signature shows. */
  function Stripped(q: Query): Query {
    q.(joins := Select(q.joins, IsEquality()))
  }

  lemma {:induction false} StrippedEqualities(joins: seq<JoinPred>)
    ensures Equalities(Select(joins, IsEquality())) == Equalities(joins)
  {
    if joins != [] {
      var rest := Select(joins[1..], IsEquality());
      StrippedEqualities(joins[1..]);
      var all := Select(joins, IsEquality());
      if joins[0].op == "=" {
        assert IsEquality()(joins[0]);
        assert all == [joins[0]] + rest && all[1..] == rest;
        assert Equalities(all) == [(joins[0].left, joins[0].right)] + Equalities(rest);
      } else {
        assert !IsEquality()(joins[0]);
        assert all == rest;
      }
    }
  }

  lemma StrippedSplit(q: Query, env: Env)
    ensures JoinsHold(Stripped(q).joins, env) <==> SatisfiesAll(Equalities(q.joins), env)
  {
    StrippedEqualities(q.joins);
    forall j ensures !InequalitiesOf(Stripped(q), j) {
      SelectMember(q.joins, IsEquality(), j);
    }
    JoinsSplit(Stripped(q), env);
  }

  /** The signature does not tell the two apart. */
  lemma StrippedSignature(q: Query, sig: Signature)
    ensures IsSignature(q, sig) <==> IsSignature(Stripped(q), sig)
  {
    StrippedEqualities(q.joins);
  }

  /** A comparison that the equalities imply: it holds between equal values, and its columns are equated. */
  ghost predicate Implied(edges: seq<Join>, j: JoinPred) {
    && j.op in {"<=", ">="}
    && j.left in Nodes(edges) && j.right in Nodes(edges) && Connected(edges, j.left, j.right)
  }

  lemma MentionedNotNull(edges: seq<Join>, env: Env, l: Column)
    requires SatisfiesAll(edges, env) && l in Nodes(edges)
    ensures NotNull(env, l)
  {
    Mentioned(edges, l);
    EqualitiesMean(edges, env);
    if !IsolatedSelf(edges, l) {
      var y :| Reaches(edges, l, y);
      assert Agreement(env)(l, y);
    }
  }

  lemma EqualCompare(op: string, x: Cell, y: Cell)
    requires op in {"<=", ">="} && x == y && x != Null
    ensures Comparison(op)([x, y]) == True
  {
  }

  lemma ImpliedHolds(edges: seq<Join>, env: Env, j: JoinPred)
    requires SatisfiesAll(edges, env) && Implied(edges, j)
    ensures Eval(JoinMeaning(j), env) == True
  {
    var x, y := Fetch(env, RefOf(j.left)), Fetch(env, RefOf(j.right));
    assert x == y && x != Null by {
      ClassAgrees(edges, env, j.left, j.right);
      MentionedNotNull(edges, env, j.left);
    }
    EqualCompare(j.op, x, y);
    TwoCells(env, j);
  }

  lemma TwoCells(env: Env, j: JoinPred)
    ensures j.op != "=" ==>
              Eval(JoinMeaning(j), env) == Comparison(j.op)([Fetch(env, RefOf(j.left)), Fetch(env, RefOf(j.right))])
  {
    var refs := [RefOf(j.left), RefOf(j.right)];
    assert refs[1..] == [RefOf(j.right)] && refs[1..][1..] == [];
    assert FetchAll(env, refs) == [Fetch(env, refs[0])] + ([Fetch(env, refs[1])] + []);
  }

  /** All columns are written `table.column`, with a table of the query. */
  ghost predicate JoinsKnown(q: Query) {
    forall j :: j in q.joins ==> KnownColumn(q, j.left) && KnownColumn(q, j.right)
  }

  ghost predicate KnownColumn(q: Query, c: Column) {
    Dotted(c) && RefOf(c).alias in q.tables
  }

  /** All columns of the joins. */
  function JoinColumns(q: Query): set<Column> {
    (set j | j in q.joins :: j.left) + (set j | j in q.joins :: j.right)
  }

  lemma NodesAreColumns(q: Query)
    ensures Nodes(Equalities(q.joins)) <= JoinColumns(q)
  {
    var edges := Equalities(q.joins);
    forall c | c in Nodes(edges) ensures c in JoinColumns(q) {
      var i :| 0 <= i < |edges| && (edges[i].0 == c || edges[i].1 == c);
      EqualitiesMember(q.joins, edges[i]);
      assert JoinPred(edges[i].0, "=", edges[i].1) in q.joins;
    }
  }

  ghost function PaintedEnv(q: Query, paint: Ref -> Cell): Env {
    OnlyEnv(Names(q.tables), Columns(JoinColumns(q)), paint)
  }

  lemma Painted(q: Query, paint: Ref -> Cell, c: Column)
    requires JoinsKnown(q) && c in JoinColumns(q)
    ensures KnownColumn(q, c) && Fetch(PaintedEnv(q, paint), RefOf(c)) == paint(RefOf(c))
  {
    PaintedColumn(Names(q.tables), JoinColumns(q), paint, c);
  }

  /** The paint gives the columns of every equality one value. */
  ghost predicate Uniform(edges: seq<Join>, paint: Ref -> Cell) {
    forall i :: 0 <= i < |edges| ==> Equal(paint(RefOf(edges[i].0)), paint(RefOf(edges[i].1))) == True
  }

  /** A painting under which the equalities hold and some vanished join does not tells the two queries apart. */
  lemma PaintTells(q: Query, paint: Ref -> Cell, j: JoinPred) returns (db: map<string, seq<Row>>)
    requires Distinct(q.tables) && JoinsKnown(q) && InequalitiesOf(q, j)
    requires Uniform(Equalities(q.joins), paint)
    requires Comparison(j.op)([paint(RefOf(j.left)), paint(RefOf(j.right))]) != True
    ensures Size(q, db, Always()) == 0 && Size(Stripped(q), db, Always()) == 1
  {
    var edges, cols := Equalities(q.joins), Columns(JoinColumns(q));
    db := OneRowEach(Names(q.tables), cols, paint);
    var env := PaintedEnv(q, paint);
    NodesAreColumns(q);
    forall i | 0 <= i < |edges| ensures Equal(Fetch(env, RefOf(edges[i].0)), Fetch(env, RefOf(edges[i].1))) == True {
      assert edges[i].0 in Nodes(edges) && edges[i].1 in Nodes(edges);
      Painted(q, paint, edges[i].0);
      Painted(q, paint, edges[i].1);
    }
    Painted(q, paint, j.left);
    Painted(q, paint, j.right);
    TwoCells(env, j);
    JoinsSplit(q, env);
    StrippedSplit(q, env);
    ConditionsHold(q, Always(), env);
    ConditionsHold(Stripped(q), Always(), env);
    CountOneRow(q.tables, cols, paint, Where(Conditions(q, Always())));
    CountOneRow(q.tables, cols, paint, Where(Conditions(Stripped(q), Always())));
  }

  /** `v` in the columns connected with `l`, and 1 everywhere else. */
  function ClassPaint(edges: seq<Join>, l: Column, v: int): Ref -> Cell {
    (r: Ref) => if Connected(edges, l, r.alias + "." + r.col) then Val(v) else Val(1)
  }

  lemma ClassPainted(edges: seq<Join>, l: Column, v: int, c: Column)
    requires Dotted(c)
    ensures ClassPaint(edges, l, v)(RefOf(c)) == if Connected(edges, l, c) then Val(v) else Val(1)
  {
    RefText(c);
  }

  lemma ClassUniform(edges: seq<Join>, l: Column, v: int)
    requires forall c :: c in Nodes(edges) ==> Dotted(c)
    ensures Uniform(edges, ClassPaint(edges, l, v))
  {
    var paint := ClassPaint(edges, l, v);
    forall i | 0 <= i < |edges| ensures Equal(paint(RefOf(edges[i].0)), paint(RefOf(edges[i].1))) == True {
      var (a, b) := edges[i];
      assert a in Nodes(edges) && b in Nodes(edges);
      ClassPainted(edges, l, v, a);
      ClassPainted(edges, l, v, b);
      ConnectedEdge(edges, i);
      if Connected(edges, l, a) {
        ConnectedTrans(edges, l, a, b);
      }
      if Connected(edges, l, b) {
        ConnectedSym(edges, a, b);
        ConnectedTrans(edges, l, b, a);
      }
    }
  }

  lemma NullUniform(edges: seq<Join>, l: Column)
    requires l !in Nodes(edges) && Dotted(l) && forall c :: c in Nodes(edges) ==> Dotted(c)
    ensures Uniform(edges, NullAt(RefOf(l)))
  {
    forall i | 0 <= i < |edges| ensures edges[i].0 in Nodes(edges) && edges[i].1 in Nodes(edges) {
    }
    forall c | c in Nodes(edges) ensures NullAt(RefOf(l))(RefOf(c)) == Val(1) {
      OtherColumn(l, c);
    }
  }

  /** What a join that is not implied fails on: a NULL, equal values, or values in the wrong order. */
  lemma FailingPaint(q: Query, j: JoinPred) returns (paint: Ref -> Cell)
    requires JoinsKnown(q) && InequalitiesOf(q, j) && !Implied(Equalities(q.joins), j)
    ensures Uniform(Equalities(q.joins), paint)
    ensures Comparison(j.op)([paint(RefOf(j.left)), paint(RefOf(j.right))]) != True
  {
    var edges := Equalities(q.joins);
    NodesAreColumns(q);
    forall c | c in Nodes(edges) ensures Dotted(c) {
      assert c in JoinColumns(q);
    }
    if j.left !in Nodes(edges) {
      NullUniform(edges, j.left);
      paint := NullAt(RefOf(j.left));
    } else if j.right !in Nodes(edges) {
      NullUniform(edges, j.right);
      paint := NullAt(RefOf(j.right));
    } else {
      var v := if j.op == "<=" then 2 else if j.op == ">=" then 0 else 1;
      paint := ClassPaint(edges, j.left, v);
      ClassUniform(edges, j.left, v);
      ClassPainted(edges, j.left, v, j.left);
      ClassPainted(edges, j.left, v, j.right);
      ConnectedRefl(edges, j.left);
    }
  }

  ghost predicate SameSizes(p: Query, q: Query) {
    forall db, meaning :: Size(p, db, meaning) == Size(q, db, meaning)
  }

  lemma ImpliedSameSizes(q: Query)
    requires Distinct(q.tables) && forall j :: InequalitiesOf(q, j) ==> Implied(Equalities(q.joins), j)
    ensures SameSizes(q, Stripped(q))
  {
    forall db, meaning ensures Size(q, db, meaning) == Size(Stripped(q), db, meaning) {
      var wp, wq := Where(Conditions(q, meaning)), Where(Conditions(Stripped(q), meaning));
      forall env ensures wp(env) == wq(env) {
        ConditionsHold(q, meaning, env);
        ConditionsHold(Stripped(q), meaning, env);
        JoinsSplit(q, env);
        StrippedSplit(q, env);
        if SatisfiesAll(Equalities(q.joins), env) {
          forall j | InequalitiesOf(q, j) ensures Eval(JoinMeaning(j), env) == True {
            ImpliedHolds(Equalities(q.joins), env, j);
          }
        }
      }
      CountCong(q.tables, db, map[], wp, wq);
    }
  }

  /**
   A query and the query without its non-equality joins have one signature. They count the same on every
   database if and only if each of those joins is `<=` or `>=` between columns that the equalities mention
   and connect.
   */
  lemma InequalityIff(q: Query, sig: Signature)
    requires Distinct(q.tables) && JoinsKnown(q)
    ensures IsSignature(q, sig) <==> IsSignature(Stripped(q), sig)
    ensures SameSizes(q, Stripped(q)) <==> forall j :: InequalitiesOf(q, j) ==> Implied(Equalities(q.joins), j)
  {
    StrippedSignature(q, sig);
    if forall j :: InequalitiesOf(q, j) ==> Implied(Equalities(q.joins), j) {
      ImpliedSameSizes(q);
    } else {
      var j :| InequalitiesOf(q, j) && !Implied(Equalities(q.joins), j);
      var db := Unequal(q, j);
      assert Size(q, db, Always()) != Size(Stripped(q), db, Always());
    }
  }

  lemma Unequal(q: Query, j: JoinPred) returns (db: map<string, seq<Row>>)
    requires Distinct(q.tables) && JoinsKnown(q) && InequalitiesOf(q, j) && !Implied(Equalities(q.joins), j)
    ensures Size(q, db, Always()) == 0 && Size(Stripped(q), db, Always()) == 1
  {
    var paint := FailingPaint(q, j);
    db := PaintTells(q, paint, j);
  }

  /** So `a, b WHERE a.x < b.y` and `a, b`, with one signature, do not count the same. */
  lemma InequalityVanishes(p: Query, sig: Signature) returns (db: map<string, seq<Row>>)
    requires p == Query(["a", "b"], [JoinPred("a.x", "<", "b.y")], []) && IsSignature(p, sig)
    ensures Stripped(p) == Query(["a", "b"], [], []) && IsSignature(Stripped(p), sig)
    ensures Size(p, db, Always()) == 0 && Size(Stripped(p), db, Always()) == 1
  {
    var j := p.joins[0];
    assert p.joins == [j] && p.joins[1..] == [];
    assert RefOf("a.x") == Ref("a", "x") && RefOf("b.y") == Ref("b", "y") by {
      assert "a.x"[1..] == ".x" && ".x"[1..] == "x" && "b.y"[1..] == ".y" && ".y"[1..] == "y";
    }
    assert '.' == "a.x"[1] == "b.y"[1];
    assert p.tables[0] == "a" && p.tables[1] == "b";
    StrippedSignature(p, sig);
    db := Unequal(p, j);
  }
}

/**
 Whether the joins of two queries mean the same can be seen on finitely many assignments of values to their columns, also
 for the comparisons that no signature shows.
 */
module JoinAssignments {
  import opened Sums
  import opened Sql
  import opened UnionFind
  import opened CanonicalJoins
  import opened Signatures

  type Assignment = map<Column, Cell>

  function At(a: Assignment, c: Column): Cell {
    if c in a then a[c] else Null
  }

  /** The join is true, not merely unknown. */
  predicate JoinTrue(j: JoinPred, x: Cell, y: Cell) {
    if j.op == "=" then Equal(x, y) == True else Comparison(j.op)([x, y]) == True
  }

  ghost predicate AllTrue(q: Query, a: Assignment) {
    forall j :: j in q.joins ==> JoinTrue(j, At(a, j.left), At(a, j.right))
  }

  /** A NULL or a number below `n` for every column. */
  ghost predicate Small(a: Assignment, cols: set<Column>, n: nat) {
    a.Keys == cols && forall c :: c in cols ==> a[c] == Null || 0 <= a[c].v < n
  }

  // ---- Only the order of the values counts ----

  /** The values that are assigned. */
  function Used(a: Assignment): set<int> {
    set c | c in a && a[c].Val? :: a[c].v
  }

  function Below(vs: set<int>, v: int): set<int> {
    set w | w in vs && w < v
  }

  /** The number of smaller values. */
  function Rank(vs: set<int>, v: int): nat {
    |Below(vs, v)|
  }

  lemma RankMono(vs: set<int>, v: int, w: int)
    requires v in vs && w in vs && v < w
    ensures Rank(vs, v) < Rank(vs, w)
  {
    var a, b := Below(vs, v), Below(vs, w);
    assert v in b && v !in a && a <= b - {v};
    SubsetSmaller(a, b - {v});
  }

  lemma SubsetSmaller<A>(a: set<A>, b: set<A>)
    requires a <= b
    ensures |a| <= |b|
  {
    assert b == a + (b - a);
  }

  function Ranked(vs: set<int>, x: Cell): Cell {
    match x
    case Null => Null
    case Val(v) => Val(Rank(vs, v))
  }

  function Compressed(a: Assignment): Assignment {
    map c | c in a :: Ranked(Used(a), a[c])
  }

  lemma RankSmall(vs: set<int>, v: int, n: nat)
    requires v in vs && |vs| <= n
    ensures Rank(vs, v) < n
  {
    SubsetSmaller(Below(vs, v), vs - {v});
  }

  function UsedIn(a: Assignment, cs: set<Column>): set<int> {
    set c | c in cs && c in a && a[c].Val? :: a[c].v
  }

  lemma {:induction false} UsedSize(a: Assignment, cs: set<Column>)
    ensures |UsedIn(a, cs)| <= |cs|
  {
    if cs == {} {
      assert UsedIn(a, cs) == {};
    } else {
      var c :| c in cs;
      UsedSize(a, cs - {c});
      var here := if c in a && a[c].Val? then {a[c].v} else {};
      assert UsedIn(a, cs) == UsedIn(a, cs - {c}) + here;
    }
  }

  lemma CompressedSmall(a: Assignment, n: nat)
    requires |a.Keys| <= n
    ensures Small(Compressed(a), a.Keys, n)
  {
    UsedSize(a, a.Keys);
    assert Used(a) == UsedIn(a, a.Keys);
    forall c | c in a && a[c].Val? ensures Rank(Used(a), a[c].v) < n {
      RankSmall(Used(a), a[c].v, n);
    }
  }

  lemma JoinRanked(j: JoinPred, vs: set<int>, x: Cell, y: Cell)
    requires (x.Val? ==> x.v in vs) && (y.Val? ==> y.v in vs)
    ensures JoinTrue(j, x, y) <==> JoinTrue(j, Ranked(vs, x), Ranked(vs, y))
  {
    if x.Val? && y.Val? {
      if x.v < y.v {
        RankMono(vs, x.v, y.v);
      } else if y.v < x.v {
        RankMono(vs, y.v, x.v);
      }
    }
  }

  lemma AllRanked(q: Query, a: Assignment)
    requires JoinColumns(q) <= a.Keys
    ensures AllTrue(q, a) <==> AllTrue(q, Compressed(a))
  {
    forall j | j in q.joins
      ensures JoinTrue(j, At(a, j.left), At(a, j.right)) <==> JoinTrue(j, At(Compressed(a), j.left), At(Compressed(a), j.right))
    {
      assert j.left in JoinColumns(q) && j.right in JoinColumns(q);
      JoinRanked(j, Used(a), a[j.left], a[j.right]);
    }
  }

  // ---- Rows and assignments ----

  /** What the rows of `env` assign to the columns. */
  function Values(cols: set<Column>, env: Env): Assignment {
    map c | c in cols :: Fetch(env, RefOf(c))
  }

  lemma MeansTrue(j: JoinPred, env: Env)
    ensures Eval(JoinMeaning(j), env) == True <==> JoinTrue(j, Fetch(env, RefOf(j.left)), Fetch(env, RefOf(j.right)))
  {
    TwoCells(env, j);
  }

  lemma JoinsValues(q: Query, cols: set<Column>, env: Env)
    requires JoinColumns(q) <= cols
    ensures JoinsHold(q.joins, env) <==> AllTrue(q, Values(cols, env))
  {
    forall j | j in q.joins
      ensures Eval(JoinMeaning(j), env) == True <==> JoinTrue(j, At(Values(cols, env), j.left), At(Values(cols, env), j.right))
    {
      assert j.left in JoinColumns(q) && j.right in JoinColumns(q);
      MeansTrue(j, env);
    }
    if AllTrue(q, Values(cols, env)) {
      forall i | 0 <= i < |q.joins| ensures Eval(JoinMeaning(q.joins[i]), env) == True {
        assert q.joins[i] in q.joins;
      }
    }
  }

  /** No assignment of NULLs and small numbers makes the joins of one query true and not those of the other. */
  ghost predicate SameOnSmall(p: Query, q: Query, cols: set<Column>) {
    forall a :: Small(a, cols, |cols|) ==> (AllTrue(p, a) <==> AllTrue(q, a))
  }

  lemma SmallAgrees(p: Query, q: Query, cols: set<Column>, a: Assignment)
    requires JoinColumns(p) <= cols && JoinColumns(q) <= cols && SameOnSmall(p, q, cols) && a.Keys == cols
    ensures AllTrue(p, a) <==> AllTrue(q, a)
  {
    AllRanked(p, a);
    AllRanked(q, a);
    CompressedSmall(a, |cols|);
  }

  lemma SmallDecides(p: Query, q: Query, cols: set<Column>, env: Env)
    requires JoinColumns(p) <= cols && JoinColumns(q) <= cols && SameOnSmall(p, q, cols)
    ensures JoinsHold(p.joins, env) <==> JoinsHold(q.joins, env)
  {
    var a := Values(cols, env);
    assert AllTrue(p, a) <==> AllTrue(q, a) by {
      SmallAgrees(p, q, cols, a);
    }
    assert JoinsHold(p.joins, env) <==> AllTrue(p, a) by {
      JoinsValues(p, cols, env);
    }
    assert JoinsHold(q.joins, env) <==> AllTrue(q, a) by {
      JoinsValues(q, cols, env);
    }
  }

  /** The tables and the filters of the two are the same, as equal signatures say, and their columns are known. */
  ghost predicate Comparable(p: Query, q: Query) {
    && Distinct(p.tables) && Distinct(q.tables) && Names(p.tables) == Names(q.tables)
    && multiset(p.filters) == multiset(q.filters) && JoinsKnown(p) && JoinsKnown(q)
  }

  lemma SmallSameSizes(p: Query, q: Query, cols: set<Column>)
    requires Comparable(p, q) && JoinColumns(p) <= cols && JoinColumns(q) <= cols && SameOnSmall(p, q, cols)
    ensures SameSizes(p, q)
  {
    forall db, meaning ensures Size(p, db, meaning) == Size(q, db, meaning) {
      var wp, wq := Where(Conditions(p, meaning)), Where(Conditions(q, meaning));
      forall env ensures wp(env) == wq(env) {
        ConditionsHold(p, meaning, env);
        ConditionsHold(q, meaning, env);
        SmallDecides(p, q, cols, env);
        if Satisfies(p, meaning, env) {
          SameFilters(p, q, meaning, env);
        }
        if Satisfies(q, meaning, env) {
          SameFilters(q, p, meaning, env);
        }
      }
      CountCong(p.tables, db, map[], wp, wq);
      CountPermutation(p.tables, q.tables, db, map[], wq);
    }
  }

  // ---- A database from an assignment ----

  function PaintOf(a: Assignment): Ref -> Cell {
    (r: Ref) => At(a, r.alias + "." + r.col)
  }

  lemma PaintedValue(tables: set<string>, cols: set<Column>, a: Assignment, c: Column)
    requires c in cols && Dotted(c) && RefOf(c).alias in tables && a.Keys == cols
    ensures Fetch(OnlyEnv(tables, Columns(cols), PaintOf(a)), RefOf(c)) == a[c]
  {
    PaintedColumn(tables, cols, PaintOf(a), c);
    RefText(c);
  }

  lemma PaintedJoins(q: Query, tables: set<string>, cols: set<Column>, a: Assignment)
    requires JoinsKnown(q) && Names(q.tables) == tables && JoinColumns(q) <= cols && a.Keys == cols
    ensures JoinsHold(q.joins, OnlyEnv(tables, Columns(cols), PaintOf(a))) <==> AllTrue(q, a)
  {
    var env := OnlyEnv(tables, Columns(cols), PaintOf(a));
    JoinsValues(q, cols, env);
    forall j | j in q.joins ensures At(Values(cols, env), j.left) == At(a, j.left) && At(Values(cols, env), j.right) == At(a, j.right) {
      assert j.left in JoinColumns(q) && j.right in JoinColumns(q);
      assert KnownColumn(q, j.left) && KnownColumn(q, j.right);
      PaintedValue(tables, cols, a, j.left);
      PaintedValue(tables, cols, a, j.right);
    }
  }

  lemma PaintedSize(q: Query, cols: set<Column>, a: Assignment)
    requires JoinsKnown(q) && JoinColumns(q) <= cols && a.Keys == cols
    ensures Size(q, OneRowEach(Names(q.tables), Columns(cols), PaintOf(a)), Always()) == if AllTrue(q, a) then 1 else 0
  {
    var tables := Names(q.tables);
    var env := OnlyEnv(tables, Columns(cols), PaintOf(a));
    PaintedJoins(q, tables, cols, a);
    ConditionsHold(q, Always(), env);
    CountOneRow(q.tables, Columns(cols), PaintOf(a), Where(Conditions(q, Always())));
  }

  /**
   Two queries with the same tables and filters, whatever their joins: they count the same on every database and for
   every meaning of the filters if and only if no assignment of NULLs and of numbers below the number of columns tells
   their joins apart.
   */
  lemma AssignmentIff(p: Query, q: Query)
    requires Comparable(p, q)
    ensures SameSizes(p, q) <==> SameOnSmall(p, q, JoinColumns(p) + JoinColumns(q))
  {
    var cols := JoinColumns(p) + JoinColumns(q);
    if SameOnSmall(p, q, cols) {
      SmallSameSizes(p, q, cols);
    } else {
      var a :| Small(a, cols, |cols|) && AllTrue(p, a) != AllTrue(q, a);
      PaintedSize(p, cols, a);
      PaintedSize(q, cols, a);
      var db := OneRowEach(Names(p.tables), Columns(cols), PaintOf(a));
      assert Size(p, db, Always()) != Size(q, db, Always());
    }
  }

  /** Equal signatures make two queries comparable. */
  lemma SignatureComparable(p: Query, q: Query, sig: Signature)
    requires Distinct(p.tables) && Distinct(q.tables) && JoinsKnown(p) && JoinsKnown(q)
    requires IsSignature(p, sig) && IsSignature(q, sig)
    ensures Comparable(p, q)
  {
  }
}

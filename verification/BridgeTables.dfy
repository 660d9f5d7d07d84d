/**
 Adding primary-key bridge tables to a query: each class of joined columns is also joined with the key
 of every table that a column name of the class refers to. When does this keep the count?
 */
module BridgeTables {
  import opened Sums
  import opened Sql
  import opened UnionFind
  import opened CanonicalJoins
  import opened Signatures

  datatype Bridge = NoBridge | Bridge(table: string)

  /** Which table a column name refers to, and the key column of that table. */
  datatype Schema = Schema(bridge: string -> Bridge, key: string -> Column)

  function StatsBridge(): string -> Bridge {
    col =>
      if col in ["userid", "owneruserid", "lasteditoruserid"] then Bridge("users")
      else if col in ["postid", "relatedpostid"] then Bridge("posts")
      else NoBridge
  }

  function JobLightBridge(): string -> Bridge {
    col => if col == "movie_id" then Bridge("title") else NoBridge
  }

  function BridgeKey(): string -> Column {
    table => table + ".id"
  }

  /** Column `d` refers to table `b`. */
  predicate RefersTo(sc: Schema, d: Column, b: string) {
    sc.bridge(RefOf(d).col) == Bridge(b)
  }

  /** A key column belongs to its table and refers to no other. */
  ghost predicate SchemaOk(sc: Schema) {
    forall d, b :: RefersTo(sc, d, b) ==>
      Dotted(sc.key(b)) && RefOf(sc.key(b)).alias == b && sc.bridge(RefOf(sc.key(b)).col) == NoBridge
  }

  lemma SplitText(s: string, col: string)
    requires '.' !in s
    ensures RefOf(s + "." + col) == Ref(s, col)
    decreases |s|
  {
    var text := s + "." + col;
    if s == [] {
      assert text == "." + col;
    } else {
      assert text[1..] == s[1..] + "." + col;
      SplitText(s[1..], col);
    }
  }

  lemma KeyText(t: string)
    requires '.' !in t
    ensures Dotted(BridgeKey()(t)) && RefOf(BridgeKey()(t)) == Ref(t, "id")
  {
    SplitText(t, "id");
    assert t + "." + "id" == t + ".id";
    assert (t + ".id")[|t|] == '.';
  }

  lemma StatsTables(col: string)
    ensures StatsBridge()(col) in {NoBridge, Bridge("users"), Bridge("posts")}
    ensures StatsBridge()("id") == NoBridge
  {
  }

  lemma StatsSchemaOk()
    ensures SchemaOk(Schema(StatsBridge(), BridgeKey()))
  {
    var sc := Schema(StatsBridge(), BridgeKey());
    forall d, b | RefersTo(sc, d, b)
      ensures Dotted(sc.key(b)) && RefOf(sc.key(b)).alias == b && sc.bridge(RefOf(sc.key(b)).col) == NoBridge
    {
      StatsTables(RefOf(d).col);
      KeyText(b);
    }
  }

  lemma JobLightSchemaOk()
    ensures SchemaOk(Schema(JobLightBridge(), BridgeKey()))
  {
    KeyText("title");
  }

  /** A relationship: a column of a table holds values of another table's column. */
  datatype Reference = Reference(table: string, column: string, target: string, key: string)

  /** The relationships that the STATS schema declares. */
  function StatsReferences(): set<Reference> {
    { Reference("comments", "postid", "posts", "id"), Reference("comments", "userid", "users", "id"),
      Reference("badges", "userid", "users", "id"), Reference("tags", "excerptpostid", "posts", "id"),
      Reference("postlinks", "postid", "posts", "id"), Reference("postlinks", "relatedpostid", "posts", "id"),
      Reference("posthistory", "postid", "posts", "id"), Reference("posthistory", "userid", "users", "id"),
      Reference("votes", "postid", "posts", "id"), Reference("votes", "userid", "users", "id"),
      Reference("posts", "owneruserid", "users", "id"), Reference("posts", "lasteditoruserid", "users", "id") }
  }

  /** The relationships that the JOB-light schema declares. */
  function JobLightReferences(): set<Reference> {
    { Reference("movie_info_idx", "movie_id", "title", "id"), Reference("movie_info", "movie_id", "title", "id"),
      Reference("cast_info", "movie_id", "title", "id"), Reference("movie_keyword", "movie_id", "title", "id"),
      Reference("movie_companies", "movie_id", "title", "id") }
  }

  /** Some relationship goes from a column of this name to the table's key. */
  ghost predicate Declares(refs: set<Reference>, column: string, target: string) {
    exists r :: r in refs && r.column == column && r.target == target && BridgeKey()(target) == target + "." + r.key
  }

  lemma DeclaredBy(refs: set<Reference>, r: Reference)
    requires r in refs && r.key == "id"
    ensures Declares(refs, r.column, r.target)
  {
    assert BridgeKey()(r.target) == r.target + ".id";
    assert r.target + "." + "id" == r.target + ".id";
  }

  /** The bridges of STATS are the declared relationships, with their keys: all but the one of `tags`. */
  lemma StatsBridgesIff(column: string, target: string)
    ensures StatsBridge()(column) == Bridge(target) <==> Declares(StatsReferences(), column, target) && column != "excerptpostid"
  {
    if StatsBridge()(column).Bridge? {
      StatsBridged(column);
    }
    if Declares(StatsReferences(), column, target) && column != "excerptpostid" {
      var r :| r in StatsReferences() && r.column == column && r.target == target;
      StatsReference(r);
    }
  }

  lemma StatsBridged(column: string)
    requires StatsBridge()(column).Bridge?
    ensures Declares(StatsReferences(), column, StatsBridge()(column).table) && column != "excerptpostid"
  {
    DeclaredBy(StatsReferences(), Reference("badges", "userid", "users", "id"));
    DeclaredBy(StatsReferences(), Reference("posts", "owneruserid", "users", "id"));
    DeclaredBy(StatsReferences(), Reference("posts", "lasteditoruserid", "users", "id"));
    DeclaredBy(StatsReferences(), Reference("votes", "postid", "posts", "id"));
    DeclaredBy(StatsReferences(), Reference("postlinks", "relatedpostid", "posts", "id"));
  }

  lemma StatsReference(r: Reference)
    requires r in StatsReferences() && r.column != "excerptpostid"
    ensures StatsBridge()(r.column) == Bridge(r.target)
  {
  }

  /** Those of JOB-light are all that are declared. */
  lemma JobLightBridgesIff(column: string, target: string)
    ensures JobLightBridge()(column) == Bridge(target) <==> Declares(JobLightReferences(), column, target)
  {
    DeclaredBy(JobLightReferences(), Reference("movie_info", "movie_id", "title", "id"));
  }

  // ---- What is added ----

  /** The class of `c` calls for bridge table `b`. */
  ghost predicate Infers(sc: Schema, edges: seq<Join>, c: Column, b: string) {
    exists d :: RefersFrom(sc, edges, c, b, d)
  }

  ghost predicate RefersFrom(sc: Schema, edges: seq<Join>, c: Column, b: string, d: Column) {
    d in Nodes(edges) && Connected(edges, c, d) && RefersTo(sc, d, b)
  }

  ghost predicate IsExtra(sc: Schema, edges: seq<Join>, extra: seq<Join>) {
    forall c, k :: (c, k) in extra <==> c in Nodes(edges) && exists b :: Infers(sc, edges, c, b) && k == sc.key(b)
  }

  ghost predicate Inferred(sc: Schema, edges: seq<Join>, b: string) {
    exists c :: c in Nodes(edges) && Infers(sc, edges, c, b)
  }

  /** The bridge tables that are new to the query. */
  ghost predicate AreNew(sc: Schema, edges: seq<Join>, tables: seq<string>, bs: seq<string>) {
    Distinct(bs) && forall b :: b in bs <==> b !in tables && Inferred(sc, edges, b)
  }

  /**
   The exact condition: a bridge table that is already in the query has its key in the very class that
   calls for it, and a new one is called for by one class only.
   */
  ghost predicate Safe(sc: Schema, edges: seq<Join>, tables: seq<string>) {
    forall c, b :: c in Nodes(edges) && Infers(sc, edges, c, b) ==> SafeFor(sc, edges, tables, c, b)
  }

  ghost predicate SafeFor(sc: Schema, edges: seq<Join>, tables: seq<string>, c: Column, b: string) {
    if b in tables then Connected(edges, c, sc.key(b))
    else forall d :: d in Nodes(edges) && Infers(sc, edges, d, b) ==> Connected(edges, c, d)
  }

  // ---- Hypotheses about the database ----

  function KeyColumn(sc: Schema, b: string): Row -> Cell {
    row => Get(row, RefOf(sc.key(b)).col)
  }

  /** How many rows of `b` have the key `x`. */
  function KeyCount(sc: Schema, db: map<string, seq<Row>>, b: string, x: Cell): nat {
    Multiplicity(Lookup(db, b), KeyColumn(sc, b), x)
  }

  /** Keys are unique. */
  ghost predicate UniqueKeys(sc: Schema, edges: seq<Join>, db: map<string, seq<Row>>) {
    forall b, v :: Inferred(sc, edges, b) ==> KeyCount(sc, db, b, Val(v)) <= 1
  }

  /** A value of a referring column is a key of the table it refers to. */
  ghost predicate References(sc: Schema, edges: seq<Join>, db: map<string, seq<Row>>) {
    forall d, b, row :: d in Nodes(edges) && RefersTo(sc, d, b) && row in Lookup(db, RefOf(d).alias) ==>
      RowRefers(sc, db, d, b, row)
  }

  ghost predicate RowRefers(sc: Schema, db: map<string, seq<Row>>, d: Column, b: string, row: Row) {
    var x := Get(row, RefOf(d).col);
    x != Null ==> KeyCount(sc, db, b, x) >= 1
  }

  ghost predicate Integrity(sc: Schema, edges: seq<Join>, db: map<string, seq<Row>>) {
    UniqueKeys(sc, edges, db) && References(sc, edges, db)
  }

  // ---- The two queries ----

  /** The equalities and whatever else the query demands. */
  ghost function Meets(edges: seq<Join>, rest: Env -> bool): Env -> bool {
    env => SatisfiesAll(edges, env) && rest(env)
  }

  ghost predicate SameOn(e: Env, f: Env, tables: seq<string>) {
    forall t :: t in tables ==> t in e && t in f && e[t] == f[t]
  }

  /** `rest` speaks about the query's own tables only. */
  ghost predicate Local(rest: Env -> bool, tables: seq<string>) {
    forall e, f :: SameOn(e, f, tables) ==> rest(e) == rest(f)
  }

  ghost predicate Known(sc: Schema, edges: seq<Join>, tables: seq<string>) {
    && SchemaOk(sc) && Distinct(tables)
    && forall c :: c in Nodes(edges) ==> Dotted(c) && RefOf(c).alias in tables
  }

  lemma SameFetch(e: Env, f: Env, tables: seq<string>, c: Column)
    requires SameOn(e, f, tables) && RefOf(c).alias in tables
    ensures Fetch(e, RefOf(c)) == Fetch(f, RefOf(c))
  {
  }

  lemma {:induction false} NodesAppend(es: seq<Join>, fs: seq<Join>, env: Env)
    ensures SatisfiesAll(es + fs, env) <==> SatisfiesAll(es, env) && SatisfiesAll(fs, env)
  {
    var all := es + fs;
    if SatisfiesAll(all, env) {
      forall i | 0 <= i < |es| ensures Equal(Fetch(env, RefOf(es[i].0)), Fetch(env, RefOf(es[i].1))) == True {
        assert all[i] == es[i];
      }
      forall i | 0 <= i < |fs| ensures Equal(Fetch(env, RefOf(fs[i].0)), Fetch(env, RefOf(fs[i].1))) == True {
        assert all[|es| + i] == fs[i];
      }
    }
  }

  /** A joined column is not NULL in a result. */
  lemma NodeNotNull(edges: seq<Join>, env: Env, c: Column)
    requires SatisfiesAll(edges, env) && c in Nodes(edges)
    ensures Fetch(env, RefOf(c)) != Null
  {
    var i :| 0 <= i < |edges| && (edges[i].0 == c || edges[i].1 == c);
    assert Equal(Fetch(env, RefOf(edges[i].0)), Fetch(env, RefOf(edges[i].1))) == True;
  }

  lemma SameSatisfies(edges: seq<Join>, tables: seq<string>, e: Env, f: Env)
    requires SameOn(e, f, tables) && forall c :: c in Nodes(edges) ==> RefOf(c).alias in tables
    requires SatisfiesAll(edges, e)
    ensures SatisfiesAll(edges, f)
  {
    forall i | 0 <= i < |edges| ensures Equal(Fetch(f, RefOf(edges[i].0)), Fetch(f, RefOf(edges[i].1))) == True {
      assert edges[i].0 in Nodes(edges) && edges[i].1 in Nodes(edges);
      SameFetch(e, f, tables, edges[i].0);
      SameFetch(e, f, tables, edges[i].1);
    }
  }

  // ---- Counting the rows of the new tables ----

  /** The key that a row of each new table must have. */
  ghost predicate KeysMatch(sc: Schema, bs: seq<string>, want: string -> Cell, e: Env) {
    forall b :: b in bs ==> b in e && Get(e[b], RefOf(sc.key(b)).col) == want(b)
  }

  lemma {:induction false} MatchTotal(rows: seq<Row>, key: Row -> Cell, x: Cell, f: Row -> int, c: int)
    requires forall row :: row in rows ==> f(row) == if key(row) == x then c else 0
    ensures Total(rows, f) == Multiplicity(rows, key, x) * c
  {
    if rows != [] {
      assert rows[0] in rows;
      MatchTotal(rows[1..], key, x, f, c);
      assert Multiplicity(rows, key, x) * c ==
             (if key(rows[0]) == x then 1 else 0) * c + Multiplicity(rows[1..], key, x) * c;
    }
  }

  lemma {:induction false} MatchBound(rows: seq<Row>, key: Row -> Cell, x: Cell, f: Row -> int)
    requires forall row :: row in rows ==> f(row) <= if key(row) == x then 1 else 0
    ensures Total(rows, f) <= Multiplicity(rows, key, x)
  {
    if rows != [] {
      assert rows[0] in rows;
      MatchBound(rows[1..], key, x, f);
    }
  }

  lemma KeysMatchStep(sc: Schema, bs: seq<string>, want: string -> Cell, env: Env, row: Row, e: Env)
    requires bs != [] && Fresh(bs, env) && Completes(e, env[bs[0] := row], bs[1..])
    ensures KeysMatch(sc, bs, want, e) <==> KeyColumn(sc, bs[0])(row) == want(bs[0]) && KeysMatch(sc, bs[1..], want, e)
  {
    assert bs == [bs[0]] + bs[1..];
    assert e[bs[0]] == row;
  }

  /** If each wanted key occurs once, there is one way to extend. */
  lemma {:induction false} CountOneWay(sc: Schema, bs: seq<string>, db: map<string, seq<Row>>, env: Env,
                                       q: Env -> bool, want: string -> Cell)
    requires Fresh(bs, env) && forall e :: Completes(e, env, bs) ==> (q(e) <==> KeysMatch(sc, bs, want, e))
    requires forall b :: b in bs ==> KeyCount(sc, db, b, want(b)) == 1
    ensures Count(bs, db, env, q) == 1
    decreases |bs|
  {
    if bs == [] {
      assert Completes(env, env, bs);
    } else {
      var b, rest := bs[0], bs[1..];
      assert bs == [b] + rest;
      var f := CountStep(bs, db, env, q);
      forall row ensures f(row) == if KeyColumn(sc, b)(row) == want(b) then 1 else 0 {
        FreshStep(bs, env, row);
        forall e | Completes(e, env[b := row], rest)
          ensures q(e) <==> KeyColumn(sc, b)(row) == want(b) && KeysMatch(sc, rest, want, e)
        {
          CompletesStep(e, env, bs, row);
          KeysMatchStep(sc, bs, want, env, row, e);
        }
        if KeyColumn(sc, b)(row) == want(b) {
          CountOneWay(sc, rest, db, env[b := row], q, want);
        } else {
          CountNone(rest, db, env[b := row], q);
        }
      }
      MatchTotal(Lookup(db, b), KeyColumn(sc, b), want(b), f, 1);
    }
  }

  /** If each wanted key occurs at most once, there is at most one way to extend. */
  lemma {:induction false} CountAtMostOne(sc: Schema, bs: seq<string>, db: map<string, seq<Row>>, env: Env,
                                          q: Env -> bool, want: string -> Cell)
    requires Fresh(bs, env) && forall e :: Completes(e, env, bs) && q(e) ==> KeysMatch(sc, bs, want, e)
    requires forall b :: b in bs ==> KeyCount(sc, db, b, want(b)) <= 1
    ensures Count(bs, db, env, q) <= 1
    decreases |bs|
  {
    if bs != [] {
      var b, rest := bs[0], bs[1..];
      assert bs == [b] + rest;
      var f := CountStep(bs, db, env, q);
      forall row ensures f(row) <= if KeyColumn(sc, b)(row) == want(b) then 1 else 0 {
        FreshStep(bs, env, row);
        forall e | Completes(e, env[b := row], rest) && q(e)
          ensures KeyColumn(sc, b)(row) == want(b) && KeysMatch(sc, rest, want, e)
        {
          CompletesStep(e, env, bs, row);
          KeysMatchStep(sc, bs, want, env, row, e);
        }
        if KeyColumn(sc, b)(row) == want(b) {
          CountAtMostOne(sc, rest, db, env[b := row], q, want);
        } else {
          CountNone(rest, db, env[b := row], q);
        }
      }
      MatchBound(Lookup(db, b), KeyColumn(sc, b), want(b), f);
    }
  }

  // ---- Safe bridges keep the count ----

  /** The value that the class of a new bridge table has in a result. */
  ghost function Wanted(sc: Schema, edges: seq<Join>, env: Env): string -> Cell {
    b => if Inferred(sc, edges, b) then Fetch(env, RefOf(Referrer(sc, edges, b))) else Null
  }

  lemma SelfInfers(sc: Schema, edges: seq<Join>, d: Column, b: string)
    requires d in Nodes(edges) && RefersTo(sc, d, b)
    ensures Infers(sc, edges, d, b)
  {
    ConnectedRefl(edges, d);
    assert RefersFrom(sc, edges, d, b, d);
  }

  /** A column that refers to `b`. */
  ghost function Referrer(sc: Schema, edges: seq<Join>, b: string): (d: Column)
    requires Inferred(sc, edges, b)
    ensures d in Nodes(edges) && RefersTo(sc, d, b)
  {
    var c :| c in Nodes(edges) && Infers(sc, edges, c, b);
    var d :| RefersFrom(sc, edges, c, b, d);
    d
  }

  lemma AgreeingCells(edges: seq<Join>, env: Env, c: Column, d: Column)
    requires SatisfiesAll(edges, env) && Connected(edges, c, d)
    ensures Fetch(env, RefOf(c)) == Fetch(env, RefOf(d))
  {
    ClassAgrees(edges, env, c, d);
  }

  /** One added equality holds exactly if the bridge row has the wanted key. */
  lemma ExtraHolds(sc: Schema, edges: seq<Join>, tables: seq<string>, bs: seq<string>, e: Env, f: Env, c: Column, b: string)
    requires Known(sc, edges, tables) && Safe(sc, edges, tables) && AreNew(sc, edges, tables, bs)
    requires c in Nodes(edges) && Infers(sc, edges, c, b)
    requires SatisfiesAll(edges, e) && SameOn(e, f, tables)
    requires b !in tables ==> b in f
    ensures Equal(Fetch(f, RefOf(c)), Fetch(f, RefOf(sc.key(b)))) == True <==>
            (b in tables || Get(f[b], RefOf(sc.key(b)).col) == Wanted(sc, edges, e)(b))
  {
    SameFetch(e, f, tables, c);
    NodeNotNull(edges, e, c);
    assert SafeFor(sc, edges, tables, c, b);
    assert Inferred(sc, edges, b);
    var d := Referrer(sc, edges, b);
    SelfInfers(sc, edges, d, b);
    if b in tables {
      SameFetch(e, f, tables, sc.key(b));
      AgreeingCells(edges, e, c, sc.key(b));
    } else {
      AgreeingCells(edges, e, c, d);
    }
  }

  lemma BridgedMeans(sc: Schema, edges: seq<Join>, extra: seq<Join>, tables: seq<string>, bs: seq<string>, e: Env, f: Env)
    requires Known(sc, edges, tables) && Safe(sc, edges, tables) && AreNew(sc, edges, tables, bs)
    requires IsExtra(sc, edges, extra)
    requires SatisfiesAll(edges, e) && SameOn(e, f, tables) && forall b :: b in bs ==> b in f
    ensures SatisfiesAll(extra, f) <==> KeysMatch(sc, bs, Wanted(sc, edges, e), f)
  {
    if SatisfiesAll(extra, f) {
      forall b | b in bs ensures Get(f[b], RefOf(sc.key(b)).col) == Wanted(sc, edges, e)(b) {
        var c := Referrer(sc, edges, b);
        SelfInfers(sc, edges, c, b);
        ExtraHolds(sc, edges, tables, bs, e, f, c, b);
        assert (c, sc.key(b)) in extra;
        var i :| 0 <= i < |extra| && extra[i] == (c, sc.key(b));
        assert Equal(Fetch(f, RefOf(extra[i].0)), Fetch(f, RefOf(extra[i].1))) == True;
      }
    }
    if KeysMatch(sc, bs, Wanted(sc, edges, e), f) {
      forall i | 0 <= i < |extra| ensures Equal(Fetch(f, RefOf(extra[i].0)), Fetch(f, RefOf(extra[i].1))) == True {
        var (c, k) := extra[i];
        assert (c, k) in extra;
        var b :| Infers(sc, edges, c, b) && k == sc.key(b);
        assert Inferred(sc, edges, b);
        ExtraHolds(sc, edges, tables, bs, e, f, c, b);
      }
    }
  }

  lemma WantedOnce(sc: Schema, edges: seq<Join>, tables: seq<string>, db: map<string, seq<Row>>, e: Env, b: string)
    requires Known(sc, edges, tables) && Integrity(sc, edges, db) && Inferred(sc, edges, b)
    requires SatisfiesAll(edges, e) && Drawn(e, db, tables)
    ensures KeyCount(sc, db, b, Wanted(sc, edges, e)(b)) == 1
  {
    var d := Referrer(sc, edges, b);
    NodeNotNull(edges, e, d);
    var row := e[RefOf(d).alias];
    assert RowRefers(sc, db, d, b, row);
    assert Wanted(sc, edges, e)(b) == Get(row, RefOf(d).col);
  }

  lemma OneExtension(sc: Schema, edges: seq<Join>, extra: seq<Join>, tables: seq<string>, bs: seq<string>,
                     db: map<string, seq<Row>>, rest: Env -> bool, e: Env)
    requires Known(sc, edges, tables) && Safe(sc, edges, tables) && AreNew(sc, edges, tables, bs)
    requires IsExtra(sc, edges, extra) && Integrity(sc, edges, db) && Local(rest, tables)
    requires e.Keys == Names(tables) && Drawn(e, db, tables)
    ensures Count(bs, db, e, Meets(edges + extra, rest)) == if Meets(edges, rest)(e) then 1 else 0
  {
    var p, q := Meets(edges, rest), Meets(edges + extra, rest);
    forall f | Completes(f, e, bs) ensures q(f) <==> p(e) && SatisfiesAll(extra, f) {
      assert SameOn(e, f, tables) && SameOn(f, e, tables);
      NodesAppend(edges, extra, f);
      if SatisfiesAll(edges, e) { SameSatisfies(edges, tables, e, f); }
      if SatisfiesAll(edges, f) { SameSatisfies(edges, tables, f, e); }
    }
    if p(e) {
      var want := Wanted(sc, edges, e);
      forall f | Completes(f, e, bs) ensures q(f) <==> KeysMatch(sc, bs, want, f) {
        BridgedMeans(sc, edges, extra, tables, bs, e, f);
      }
      forall b | b in bs ensures KeyCount(sc, db, b, want(b)) == 1 {
        WantedOnce(sc, edges, tables, db, e, b);
      }
      CountOneWay(sc, bs, db, e, q, want);
    } else {
      CountNone(bs, db, e, q);
    }
  }

  /** Safe bridge tables keep the count, whatever else the query demands of its own tables. */
  lemma BridgesKeepCount(sc: Schema, edges: seq<Join>, extra: seq<Join>, tables: seq<string>, bs: seq<string>,
                         db: map<string, seq<Row>>, rest: Env -> bool)
    requires Known(sc, edges, tables) && Safe(sc, edges, tables) && AreNew(sc, edges, tables, bs)
    requires IsExtra(sc, edges, extra) && Integrity(sc, edges, db) && Local(rest, tables)
    ensures Count(tables + bs, db, map[], Meets(edges + extra, rest)) == Count(tables, db, map[], Meets(edges, rest))
  {
    var p, q := Meets(edges, rest), Meets(edges + extra, rest);
    forall e | Completes(e, map[], tables) && Drawn(e, db, tables)
      ensures Count(bs, db, e, q) == if p(e) then 1 else 0
    {
      OneExtension(sc, edges, extra, tables, bs, db, rest, e);
    }
    CountExtend(tables, bs, db, map[], p, q);
  }

  /** Unique keys alone: adding bridge tables never makes a query count more. */
  lemma AtMostOneExtension(sc: Schema, edges: seq<Join>, extra: seq<Join>, tables: seq<string>, bs: seq<string>,
                           db: map<string, seq<Row>>, rest: Env -> bool, e: Env)
    requires Known(sc, edges, tables) && AreNew(sc, edges, tables, bs)
    requires IsExtra(sc, edges, extra) && UniqueKeys(sc, edges, db) && Local(rest, tables)
    requires e.Keys == Names(tables)
    ensures Count(bs, db, e, Meets(edges + extra, rest)) <= if Meets(edges, rest)(e) then 1 else 0
  {
    var p, q := Meets(edges, rest), Meets(edges + extra, rest);
    forall f | Completes(f, e, bs) && q(f) ensures p(e) && KeysMatch(sc, bs, Wanted(sc, edges, e), f) {
      assert SameOn(e, f, tables) && SameOn(f, e, tables);
      NodesAppend(edges, extra, f);
      SameSatisfies(edges, tables, f, e);
      forall b | b in bs ensures b in f && Get(f[b], RefOf(sc.key(b)).col) == Wanted(sc, edges, e)(b) {
        KeyForced(sc, edges, extra, tables, e, f, b);
      }
    }
    if p(e) {
      forall b | b in bs ensures KeyCount(sc, db, b, Wanted(sc, edges, e)(b)) <= 1 {
        NodeNotNull(edges, e, Referrer(sc, edges, b));
        assert Wanted(sc, edges, e)(b) == Val(Wanted(sc, edges, e)(b).v);
      }
      CountAtMostOne(sc, bs, db, e, q, Wanted(sc, edges, e));
    } else {
      CountNone(bs, db, e, q);
    }
  }

  /** In a result of the new query, the row of a new table has the key that its class has. */
  lemma KeyForced(sc: Schema, edges: seq<Join>, extra: seq<Join>, tables: seq<string>, e: Env, f: Env, b: string)
    requires Known(sc, edges, tables) && IsExtra(sc, edges, extra) && Inferred(sc, edges, b)
    requires SameOn(e, f, tables) && SatisfiesAll(extra, f)
    ensures b in f && Get(f[b], RefOf(sc.key(b)).col) == Wanted(sc, edges, e)(b)
  {
    var c := Referrer(sc, edges, b);
    SelfInfers(sc, edges, c, b);
    assert (c, sc.key(b)) in extra;
    var i :| 0 <= i < |extra| && extra[i] == (c, sc.key(b));
    assert Equal(Fetch(f, RefOf(extra[i].0)), Fetch(f, RefOf(extra[i].1))) == True;
    SameFetch(e, f, tables, c);
    assert RefersTo(sc, c, b);
  }

  // ---- An unsafe bridge loses rows on some database ----

  /** 1 in the class of `c`, 2 elsewhere. */
  function Colour(edges: seq<Join>, c: Column, x: Column): int {
    if Connected(edges, c, x) then 1 else 2
  }

  function BaseRow(edges: seq<Join>, c: Column, cols: set<string>, t: string): Row {
    map col | col in cols :: Val(Colour(edges, c, t + "." + col))
  }

  function KeyRow(sc: Schema, edges: seq<Join>, c: Column, cols: set<string>, t: string, v: int): Row {
    BaseRow(edges, c, cols, t)[RefOf(sc.key(t)).col := Val(v)]
  }

  ghost function TestRows(sc: Schema, edges: seq<Join>, c: Column, cols: set<string>, t: string): seq<Row> {
    if Inferred(sc, edges, t) then [KeyRow(sc, edges, c, cols, t, 1), KeyRow(sc, edges, c, cols, t, 2)]
    else [BaseRow(edges, c, cols, t)]
  }

  ghost function TestDb(sc: Schema, edges: seq<Join>, c: Column, tables: seq<string>): map<string, seq<Row>> {
    map t | t in Names(tables) :: TestRows(sc, edges, c, Columns(Nodes(edges)), t)
  }

  ghost function TestEnv(sc: Schema, edges: seq<Join>, c: Column, tables: seq<string>): Env {
    map t | t in Names(tables) ::
      if Inferred(sc, edges, t) then KeyRow(sc, edges, c, Columns(Nodes(edges)), t, Colour(edges, c, sc.key(t)))
      else BaseRow(edges, c, Columns(Nodes(edges)), t)
  }

  /** Every column of the test row has its colour. */
  lemma TestFetch(sc: Schema, edges: seq<Join>, c: Column, tables: seq<string>, x: Column)
    requires Known(sc, edges, tables) && x in Nodes(edges)
    ensures Fetch(TestEnv(sc, edges, c, tables), RefOf(x)) == Val(Colour(edges, c, x))
  {
    var t, col := RefOf(x).alias, RefOf(x).col;
    RefText(x);
    assert x == t + "." + col;
    assert col in Columns(Nodes(edges));
    if Inferred(sc, edges, t) {
      assert RefersTo(sc, Referrer(sc, edges, t), t);
      RefText(sc.key(t));
      assert sc.key(t) == t + "." + RefOf(sc.key(t)).col;
    }
  }

  lemma TestKey(sc: Schema, edges: seq<Join>, c: Column, tables: seq<string>, b: string)
    requires Known(sc, edges, tables) && b in tables && Inferred(sc, edges, b)
    ensures Fetch(TestEnv(sc, edges, c, tables), RefOf(sc.key(b))) == Val(Colour(edges, c, sc.key(b)))
  {
    assert RefersTo(sc, Referrer(sc, edges, b), b);
  }

  lemma TestSatisfies(sc: Schema, edges: seq<Join>, c: Column, tables: seq<string>)
    requires Known(sc, edges, tables)
    ensures SatisfiesAll(edges, TestEnv(sc, edges, c, tables))
  {
    var env := TestEnv(sc, edges, c, tables);
    forall i | 0 <= i < |edges| ensures Equal(Fetch(env, RefOf(edges[i].0)), Fetch(env, RefOf(edges[i].1))) == True {
      var (x, y) := edges[i];
      assert edges[i].0 in Nodes(edges) && edges[i].1 in Nodes(edges);
      TestFetch(sc, edges, c, tables, x);
      TestFetch(sc, edges, c, tables, y);
      ConnectedEdge(edges, i);
      if Connected(edges, c, x) { ConnectedTrans(edges, c, x, y); }
      if Connected(edges, c, y) {
        ConnectedSym(edges, x, y);
        ConnectedTrans(edges, c, y, x);
      }
    }
  }

  lemma TestKeyCount(sc: Schema, edges: seq<Join>, c: Column, all: seq<string>, b: string, x: Cell)
    requires Inferred(sc, edges, b) && b in all
    ensures KeyCount(sc, TestDb(sc, edges, c, all), b, x) == if x == Val(1) || x == Val(2) then 1 else 0
  {
    var cols := Columns(Nodes(edges));
    var rows := Lookup(TestDb(sc, edges, c, all), b);
    var one, two := KeyRow(sc, edges, c, cols, b, 1), KeyRow(sc, edges, c, cols, b, 2);
    assert rows == [one, two];
    MultiplicityTwoRows(one, two, KeyColumn(sc, b), x);
    assert KeyColumn(sc, b)(one) == Val(1) && KeyColumn(sc, b)(two) == Val(2);
  }

  lemma MultiplicityTwoRows(one: Row, two: Row, key: Row -> Cell, x: Cell)
    ensures Multiplicity([one, two], key, x) == (if key(one) == x then 1 else 0) + if key(two) == x then 1 else 0
  {
    assert [one, two][1..] == [two] && [two][1..] == [];
    assert Multiplicity([two], key, x) == (if key(two) == x then 1 else 0) + Multiplicity([two][1..], key, x);
  }

  lemma TestRefers(sc: Schema, edges: seq<Join>, c: Column, all: seq<string>, d: Column, b: string, row: Row)
    requires SchemaOk(sc) && d in Nodes(edges) && RefersTo(sc, d, b) && b in all
    requires row in Lookup(TestDb(sc, edges, c, all), RefOf(d).alias)
    ensures RowRefers(sc, TestDb(sc, edges, c, all), d, b, row)
  {
    SelfInfers(sc, edges, d, b);
    assert Inferred(sc, edges, b);
    TestColour(sc, edges, c, all, d, b, row);
    TestKeyCount(sc, edges, c, all, b, Get(row, RefOf(d).col));
  }

  lemma TestColour(sc: Schema, edges: seq<Join>, c: Column, all: seq<string>, d: Column, b: string, row: Row)
    requires SchemaOk(sc) && d in Nodes(edges) && RefersTo(sc, d, b)
    requires row in Lookup(TestDb(sc, edges, c, all), RefOf(d).alias)
    ensures Get(row, RefOf(d).col) == Val(Colour(edges, c, RefOf(d).alias + "." + RefOf(d).col))
  {
    var t, col := RefOf(d).alias, RefOf(d).col;
    assert col in Columns(Nodes(edges));
    if Inferred(sc, edges, t) {
      assert RefersTo(sc, Referrer(sc, edges, t), t);
      assert col != RefOf(sc.key(t)).col;
    }
  }

  lemma TestIntegrity(sc: Schema, edges: seq<Join>, c: Column, tables: seq<string>, bs: seq<string>)
    requires Known(sc, edges, tables) && AreNew(sc, edges, tables, bs)
    ensures Integrity(sc, edges, TestDb(sc, edges, c, tables + bs))
  {
    var all := tables + bs;
    var db := TestDb(sc, edges, c, all);
    forall b, v | Inferred(sc, edges, b) ensures KeyCount(sc, db, b, Val(v)) <= 1 {
      assert b in all;
      TestKeyCount(sc, edges, c, all, b, Val(v));
    }
    forall d, b, row | d in Nodes(edges) && RefersTo(sc, d, b) && row in Lookup(db, RefOf(d).alias)
      ensures RowRefers(sc, db, d, b, row)
    {
      SelfInfers(sc, edges, d, b);
      assert Inferred(sc, edges, b);
      TestRefers(sc, edges, c, all, d, b, row);
    }
  }

  lemma ExtraEdge(sc: Schema, edges: seq<Join>, extra: seq<Join>, env: Env, c: Column, b: string)
    requires IsExtra(sc, edges, extra) && SatisfiesAll(extra, env) && c in Nodes(edges) && Infers(sc, edges, c, b)
    ensures Equal(Fetch(env, RefOf(c)), Fetch(env, RefOf(sc.key(b)))) == True
  {
    assert (c, sc.key(b)) in extra;
    var i :| 0 <= i < |extra| && extra[i] == (c, sc.key(b));
    assert Equal(Fetch(env, RefOf(extra[i].0)), Fetch(env, RefOf(extra[i].1))) == True;
  }

  /** The colours of joined columns, in any row that extends the test row. */
  lemma ColourOf(sc: Schema, edges: seq<Join>, tables: seq<string>, c: Column, f: Env, x: Column)
    requires Known(sc, edges, tables) && x in Nodes(edges) && SameOn(TestEnv(sc, edges, c, tables), f, tables)
    ensures Fetch(f, RefOf(x)) == Val(Colour(edges, c, x))
  {
    TestFetch(sc, edges, c, tables, x);
    SameFetch(TestEnv(sc, edges, c, tables), f, tables, x);
  }

  lemma ColourOfKey(sc: Schema, edges: seq<Join>, tables: seq<string>, c: Column, f: Env, b: string)
    requires Known(sc, edges, tables) && b in tables && Inferred(sc, edges, b)
    requires SameOn(TestEnv(sc, edges, c, tables), f, tables)
    ensures Fetch(f, RefOf(sc.key(b))) == Val(Colour(edges, c, sc.key(b)))
  {
    assert RefersTo(sc, Referrer(sc, edges, b), b);
    TestKey(sc, edges, c, tables, b);
    SameFetch(TestEnv(sc, edges, c, tables), f, tables, sc.key(b));
  }

  /** A key outside the class of `c` has another colour. */
  lemma KeyElsewhere(sc: Schema, edges: seq<Join>, tables: seq<string>, c: Column, b: string, f: Env)
    requires Known(sc, edges, tables) && c in Nodes(edges) && Inferred(sc, edges, b)
    requires b in tables && !Connected(edges, c, sc.key(b)) && SameOn(TestEnv(sc, edges, c, tables), f, tables)
    ensures Equal(Fetch(f, RefOf(c)), Fetch(f, RefOf(sc.key(b)))) != True
  {
    ConnectedRefl(edges, c);
    ColourOf(sc, edges, tables, c, f, c);
    ColourOfKey(sc, edges, tables, c, f, b);
  }

  /** Two classes of different colours cannot share a key. */
  lemma TwoColours(sc: Schema, edges: seq<Join>, tables: seq<string>, c: Column, y: Column, f: Env, key: Cell)
    requires Known(sc, edges, tables) && c in Nodes(edges) && y in Nodes(edges) && !Connected(edges, c, y)
    requires SameOn(TestEnv(sc, edges, c, tables), f, tables)
    ensures Equal(Fetch(f, RefOf(c)), key) != True || Equal(Fetch(f, RefOf(y)), key) != True
  {
    ConnectedRefl(edges, c);
    ColourOf(sc, edges, tables, c, f, c);
    ColourOf(sc, edges, tables, c, f, y);
  }

  /** Where the bridge `b` of `c` is unsafe, the test row has no extension. */
  lemma Contradicted(sc: Schema, edges: seq<Join>, extra: seq<Join>, tables: seq<string>, c: Column, b: string, f: Env)
    requires Known(sc, edges, tables) && IsExtra(sc, edges, extra)
    requires c in Nodes(edges) && Infers(sc, edges, c, b) && !SafeFor(sc, edges, tables, c, b)
    requires SameOn(TestEnv(sc, edges, c, tables), f, tables)
    ensures !SatisfiesAll(extra, f)
  {
    if SatisfiesAll(extra, f) {
      ExtraEdge(sc, edges, extra, f, c, b);
      if b in tables {
        assert Inferred(sc, edges, b);
        KeyElsewhere(sc, edges, tables, c, b, f);
      } else {
        var y :| y in Nodes(edges) && Infers(sc, edges, y, b) && !Connected(edges, c, y);
        ExtraEdge(sc, edges, extra, f, y, b);
        TwoColours(sc, edges, tables, c, y, f, Fetch(f, RefOf(sc.key(b))));
      }
    }
  }

  function Anything(): Env -> bool {
    env => true
  }

  /** An unsafe bridge: a database with unique keys and intact references on which the counts differ. */
  lemma UnsafeLoses(sc: Schema, edges: seq<Join>, extra: seq<Join>, tables: seq<string>, bs: seq<string>, c: Column, b: string)
    returns (db: map<string, seq<Row>>)
    requires Known(sc, edges, tables) && AreNew(sc, edges, tables, bs) && IsExtra(sc, edges, extra)
    requires c in Nodes(edges) && Infers(sc, edges, c, b) && !SafeFor(sc, edges, tables, c, b)
    ensures Integrity(sc, edges, db)
    ensures Count(tables + bs, db, map[], Meets(edges + extra, Anything())) < Count(tables, db, map[], Meets(edges, Anything()))
  {
    db := TestDb(sc, edges, c, tables + bs);
    TestIntegrity(sc, edges, c, tables, bs);
    TestLoses(sc, edges, extra, tables, bs, c, b, db, TestEnv(sc, edges, c, tables));
  }

  lemma TestLoses(sc: Schema, edges: seq<Join>, extra: seq<Join>, tables: seq<string>, bs: seq<string>, c: Column, b: string,
                  db: map<string, seq<Row>>, full: Env)
    requires Known(sc, edges, tables) && AreNew(sc, edges, tables, bs) && IsExtra(sc, edges, extra)
    requires c in Nodes(edges) && Infers(sc, edges, c, b) && !SafeFor(sc, edges, tables, c, b)
    requires db == TestDb(sc, edges, c, tables + bs) && full == TestEnv(sc, edges, c, tables) && UniqueKeys(sc, edges, db)
    ensures Count(tables + bs, db, map[], Meets(edges + extra, Anything())) < Count(tables, db, map[], Meets(edges, Anything()))
  {
    var p, q := Meets(edges, Anything()), Meets(edges + extra, Anything());
    assert ExtendsAtMostOnce(tables, bs, db, map[], p, q) by {
      NeverMore(sc, edges, extra, tables, bs, db);
    }
    assert p(full) by {
      TestSatisfies(sc, edges, c, tables);
    }
    assert Count(bs, db, full, q) == 0 by {
      TestStuck(sc, edges, extra, tables, bs, c, b, db);
    }
    assert Completes(full, map[], tables) && Drawn(full, db, tables) by {
      TestDrawn(sc, edges, c, tables, bs);
    }
    CountStrictlyBelow(tables, bs, db, map[], p, q, full);
  }

  lemma NeverMore(sc: Schema, edges: seq<Join>, extra: seq<Join>, tables: seq<string>, bs: seq<string>, db: map<string, seq<Row>>)
    requires Known(sc, edges, tables) && AreNew(sc, edges, tables, bs) && IsExtra(sc, edges, extra)
    requires UniqueKeys(sc, edges, db)
    ensures ExtendsAtMostOnce(tables, bs, db, map[], Meets(edges, Anything()), Meets(edges + extra, Anything()))
  {
    var p, q := Meets(edges, Anything()), Meets(edges + extra, Anything());
    forall e | Completes(e, map[], tables) && Drawn(e, db, tables) ensures Count(bs, db, e, q) <= if p(e) then 1 else 0 {
      AtMostOneExtension(sc, edges, extra, tables, bs, db, Anything(), e);
    }
  }

  lemma TestStuck(sc: Schema, edges: seq<Join>, extra: seq<Join>, tables: seq<string>, bs: seq<string>, c: Column, b: string,
                  db: map<string, seq<Row>>)
    requires Known(sc, edges, tables) && AreNew(sc, edges, tables, bs) && IsExtra(sc, edges, extra)
    requires c in Nodes(edges) && Infers(sc, edges, c, b) && !SafeFor(sc, edges, tables, c, b)
    ensures Count(bs, db, TestEnv(sc, edges, c, tables), Meets(edges + extra, Anything())) == 0
  {
    var full, q := TestEnv(sc, edges, c, tables), Meets(edges + extra, Anything());
    forall f | Completes(f, full, bs) ensures !q(f) {
      assert SameOn(full, f, tables);
      Contradicted(sc, edges, extra, tables, c, b, f);
      NodesAppend(edges, extra, f);
    }
    CountNone(bs, db, full, q);
  }

  lemma TestDrawn(sc: Schema, edges: seq<Join>, c: Column, tables: seq<string>, bs: seq<string>)
    ensures Drawn(TestEnv(sc, edges, c, tables), TestDb(sc, edges, c, tables + bs), tables)
    ensures Completes(TestEnv(sc, edges, c, tables), map[], tables)
  {
    var env, db := TestEnv(sc, edges, c, tables), TestDb(sc, edges, c, tables + bs);
    forall t | t in tables ensures t in env && env[t] in Lookup(db, t) {
      assert t in Names(tables + bs);
    }
  }

  /**
   Adding the bridge tables keeps the count on every database with unique keys and intact references
   if and only if the bridges are safe.
   */
  lemma BridgesKeepCountIff(sc: Schema, edges: seq<Join>, extra: seq<Join>, tables: seq<string>, bs: seq<string>)
    requires Known(sc, edges, tables) && AreNew(sc, edges, tables, bs) && IsExtra(sc, edges, extra)
    ensures (forall db :: Integrity(sc, edges, db) ==>
               Count(tables + bs, db, map[], Meets(edges + extra, Anything())) ==
               Count(tables, db, map[], Meets(edges, Anything()))) <==> Safe(sc, edges, tables)
  {
    if Safe(sc, edges, tables) {
      forall db | Integrity(sc, edges, db)
        ensures Count(tables + bs, db, map[], Meets(edges + extra, Anything())) ==
                Count(tables, db, map[], Meets(edges, Anything()))
      {
        BridgesKeepCount(sc, edges, extra, tables, bs, db, Anything());
      }
    } else {
      var c, b :| c in Nodes(edges) && Infers(sc, edges, c, b) && !SafeFor(sc, edges, tables, c, b);
      var db := UnsafeLoses(sc, edges, extra, tables, bs, c, b);
      assert Integrity(sc, edges, db);
    }
  }

  // ---- The original columns keep their classes ----

  /** A new key stands for the class that called for it. */
  ghost function Collapse(sc: Schema, edges: seq<Join>, tables: seq<string>, x: Column): Column {
    var b := RefOf(x).alias;
    if b !in tables && Inferred(sc, edges, b) && x == sc.key(b) then Referrer(sc, edges, b) else x
  }

  ghost function Collapsed(sc: Schema, edges: seq<Join>, tables: seq<string>): (Column, Column) -> bool {
    (x, y) => Connected(edges, Collapse(sc, edges, tables, x), Collapse(sc, edges, tables, y))
  }

  lemma CollapsedEquivalence(sc: Schema, edges: seq<Join>, tables: seq<string>)
    ensures Equivalence(Collapsed(sc, edges, tables))
  {
    var rel := Collapsed(sc, edges, tables);
    forall x ensures rel(x, x) {
      ConnectedRefl(edges, Collapse(sc, edges, tables, x));
    }
    forall x, y | rel(x, y) ensures rel(y, x) {
      ConnectedSym(edges, Collapse(sc, edges, tables, x), Collapse(sc, edges, tables, y));
    }
    forall x, y, z | rel(x, y) && rel(y, z) ensures rel(x, z) {
      ConnectedTrans(edges, Collapse(sc, edges, tables, x), Collapse(sc, edges, tables, y), Collapse(sc, edges, tables, z));
    }
  }

  lemma CollapseExtra(sc: Schema, edges: seq<Join>, tables: seq<string>, c: Column, b: string)
    requires Known(sc, edges, tables) && Safe(sc, edges, tables) && c in Nodes(edges) && Infers(sc, edges, c, b)
    ensures Collapsed(sc, edges, tables)(c, sc.key(b))
  {
    assert SafeFor(sc, edges, tables, c, b);
    assert Inferred(sc, edges, b);
    var d := Referrer(sc, edges, b);
    assert RefersTo(sc, d, b);
    SelfInfers(sc, edges, d, b);
    assert Collapse(sc, edges, tables, c) == c;
    if b in tables {
      assert Collapse(sc, edges, tables, sc.key(b)) == sc.key(b);
      assert Connected(edges, c, sc.key(b));
    } else {
      assert Collapse(sc, edges, tables, sc.key(b)) == d;
      assert Connected(edges, c, d);
    }
  }

  /** Safe bridges connect no two columns of the original tables that were not connected before. */
  lemma BridgesKeepClasses(sc: Schema, edges: seq<Join>, extra: seq<Join>, tables: seq<string>, x: Column, y: Column)
    requires Known(sc, edges, tables) && Safe(sc, edges, tables) && IsExtra(sc, edges, extra)
    requires RefOf(x).alias in tables && RefOf(y).alias in tables
    ensures Connected(edges + extra, x, y) <==> Connected(edges, x, y)
  {
    var all, rel := edges + extra, Collapsed(sc, edges, tables);
    if Connected(edges, x, y) {
      forall i | 0 <= i < |edges| ensures Connected(all, edges[i].0, edges[i].1) {
        assert all[i] == edges[i];
        ConnectedEdge(all, i);
      }
      ConnectedMono(edges, all, x, y);
    }
    if Connected(all, x, y) {
      CollapsedEquivalence(sc, edges, tables);
      forall i | 0 <= i < |all| ensures rel(all[i].0, all[i].1) {
        if i < |edges| {
          assert all[i] == edges[i] && edges[i].0 in Nodes(edges) && edges[i].1 in Nodes(edges);
          ConnectedEdge(edges, i);
        } else {
          var (c, k) := all[i];
          assert all[i] == extra[i - |edges|];
          assert (c, k) in extra;
          var b :| Infers(sc, edges, c, b) && k == sc.key(b);
          CollapseExtra(sc, edges, tables, c, b);
        }
      }
      ConnectedLeast(all, rel, x, y);
    }
  }

  // ---- What a bridge match means ----

  /** The signature of a query with its bridges. */
  ghost predicate IsBridged(sc: Schema, sig: Signature, edges: seq<Join>, extra: seq<Join>, bridged: Signature) {
    && IsCanonical(edges + extra, bridged.joins) && bridged.filters == sig.filters
    && forall t :: t in bridged.tables <==> t in sig.tables || Inferred(sc, edges, t)
  }

  ghost predicate NoIsolated(edges: seq<Join>) {
    forall x :: !IsolatedSelf(edges, x)
  }

  /** The filters of a query, as a condition. */
  ghost function Filter(filters: seq<string>, meaning: string -> Conjunct): Env -> bool {
    env => forall i :: 0 <= i < |filters| ==> Eval(meaning(filters[i]), env) == True
  }

  /** The canonical equalities leave no column isolated, ... */
  lemma CanonicalNotIsolated(edges: seq<Join>, sig: Signature, list: seq<Join>, x: Column)
    requires IsCanonical(edges, sig.joins) && Lists(list, sig.joins) && x in Nodes(list)
    ensures exists y :: Reaches(list, x, y)
  {
    var i :| 0 <= i < |list| && (list[i].0 == x || list[i].1 == x);
    assert list[i] in list;
    assert InStar(edges, list[i].0, list[i].1);
    ConnectedEdge(list, i);
    if list[i].0 == x {
      assert Reaches(list, x, list[i].1);
    } else {
      ConnectedSym(list, list[i].0, x);
      assert Reaches(list, x, list[i].0);
    }
  }

  /** ... and neither do the equalities with the bridge keys. */
  lemma BridgedNotIsolated(sc: Schema, edges: seq<Join>, sig: Signature, list: seq<Join>, extra: seq<Join>)
    requires IsCanonical(edges, sig.joins) && Lists(list, sig.joins) && IsExtra(sc, list, extra)
    ensures NoIsolated(list + extra)
  {
    var all := list + extra;
    forall x | (x, x) in all ensures exists y :: Reaches(all, x, y) {
      assert (x, x) in list ==> InStar(edges, x, x);
      CanonicalNotIsolated(edges, sig, list, x);
      var y :| Reaches(list, x, y);
      forall i | 0 <= i < |list| ensures Connected(all, list[i].0, list[i].1) {
        assert all[i] == list[i];
        ConnectedEdge(all, i);
      }
      ConnectedMono(list, all, x, y);
      assert Reaches(all, x, y);
    }
  }

  /** A query of equalities, counted through any list with the same classes. */
  lemma SizeThrough(q: Query, edges: seq<Join>, filters: seq<string>, db: map<string, seq<Row>>, meaning: string -> Conjunct)
    requires OnlyEqualities(q) && Distinct(q.tables) && NoIsolated(Equalities(q.joins)) && NoIsolated(edges)
    requires SameClasses(Equalities(q.joins), edges) && multiset(filters) == multiset(q.filters)
    ensures Size(q, db, meaning) == Count(q.tables, db, map[], Meets(edges, Filter(filters, meaning)))
  {
    var p, r := Where(Conditions(q, meaning)), Meets(edges, Filter(filters, meaning));
    forall env ensures p(env) == r(env) {
      ConditionsHold(q, meaning, env);
      assert forall j :: !InequalitiesOf(q, j);
      JoinsSplit(q, env);
      SameMeaning(Equalities(q.joins), edges, env);
      var other := Query([], [], filters);
      if Filter(filters, meaning)(env) { SameFilters(other, q, meaning, env); }
      if Satisfies(q, meaning, env) { SameFilters(q, other, meaning, env); }
    }
    CountCong(q.tables, db, map[], p, r);
  }

  lemma BridgedTables(sc: Schema, edges: seq<Join>, tables: seq<string>, bs: seq<string>, more: seq<string>)
    requires AreNew(sc, edges, tables, bs) && Distinct(tables) && Distinct(more)
    requires forall t :: t in more <==> t in tables || Inferred(sc, edges, t)
    ensures Distinct(tables + bs) && Names(tables + bs) == Names(more)
  {
    var all := tables + bs;
    forall i, j | 0 <= i < j < |all| ensures all[i] != all[j] {
      if i < |tables| <= j {
        assert all[j] == bs[j - |tables|] && all[j] in bs && all[i] in tables;
      }
    }
  }

  /**
   An estimate found through bridge tables belongs to a query that counts the same: our query `p`, and
   a known query `k` whose signature is the bridged signature of `p`, agree on every database with
   unique keys and intact references if the bridges are safe.
   */
  lemma BridgeMatchSound(sc: Schema, p: Query, k: Query, sig: Signature, list: seq<Join>, extra: seq<Join>, bs: seq<string>,
                         bridged: Signature, db: map<string, seq<Row>>, meaning: string -> Conjunct)
    requires OnlyEqualities(p) && Distinct(p.tables) && NoIsolated(Equalities(p.joins)) && IsSignature(p, sig)
    requires OnlyEqualities(k) && Distinct(k.tables) && NoIsolated(Equalities(k.joins)) && IsSignature(k, bridged)
    requires Lists(list, sig.joins) && IsExtra(sc, list, extra) && IsBridged(sc, sig, list, extra, bridged)
    requires Known(sc, list, p.tables) && Safe(sc, list, p.tables) && AreNew(sc, list, p.tables, bs)
    requires Integrity(sc, list, db) && Local(Filter(p.filters, meaning), p.tables)
    ensures Size(p, db, meaning) == Size(k, db, meaning)
  {
    var rest := Filter(p.filters, meaning);
    CanonicalClasses(Equalities(p.joins), sig.joins, list);
    forall x | x in Nodes(list) ensures exists y :: Reaches(list, x, y) {
      CanonicalNotIsolated(Equalities(p.joins), sig, list, x);
    }
    ListNotIsolated(list);
    SizeThrough(p, list, p.filters, db, meaning);
    CanonicalIff(Equalities(k.joins), list + extra, bridged.joins, bridged.joins);
    BridgedNotIsolated(sc, Equalities(p.joins), sig, list, extra);
    SizeThrough(k, list + extra, p.filters, db, meaning);
    BridgesKeepCount(sc, list, extra, p.tables, bs, db, rest);
    MatchTables(p, k, sig, bridged);
    BridgedTables(sc, list, p.tables, bs, k.tables);
    CountPermutation(k.tables, p.tables + bs, db, map[], Meets(list + extra, rest));
  }

  lemma ListNotIsolated(list: seq<Join>)
    requires forall x :: x in Nodes(list) ==> exists y :: Reaches(list, x, y)
    ensures NoIsolated(list)
  {
    forall x | (x, x) in list ensures exists y :: Reaches(list, x, y) {
      var i :| 0 <= i < |list| && list[i] == (x, x);
      assert x in Nodes(list);
    }
  }

  lemma MatchTables(p: Query, k: Query, sig: Signature, bridged: Signature)
    requires IsSignature(p, sig) && IsSignature(k, bridged)
    ensures forall t :: t in p.tables <==> t in sig.tables
    ensures forall t :: t in k.tables <==> t in bridged.tables
  {
  }

  // ---- Computing the bridged signature ----

  /** The classes of joined columns, each as a list. */
  ghost predicate AreClasses(edges: seq<Join>, groups: seq<seq<Column>>) {
    && (forall i :: 0 <= i < |groups| ==> IsClass(edges, groups[i]) && forall c :: c in groups[i] ==> c in Nodes(edges))
    && forall c :: c in Nodes(edges) ==> InSome(groups, |groups|, c)
  }

  ghost predicate InSome(groups: seq<seq<Column>>, n: nat, c: Column)
    requires n <= |groups|
  {
    exists i :: 0 <= i < n && c in groups[i]
  }

  /** The tables that the column names of one group refer to. */
  function BridgesFor(sc: Schema, group: seq<Column>): set<string> {
    set c | c in group && sc.bridge(RefOf(c).col).Bridge? :: sc.bridge(RefOf(c).col).table
  }

  lemma BridgesForMember(sc: Schema, group: seq<Column>, b: string)
    ensures b in BridgesFor(sc, group) <==> exists d :: d in group && RefersTo(sc, d, b)
  {
    if d :| d in group && RefersTo(sc, d, b) {
      assert sc.bridge(RefOf(d).col).table in BridgesFor(sc, group);
    }
  }

  /** A class calls for the tables that its members refer to. */
  lemma GroupInfers(sc: Schema, edges: seq<Join>, group: seq<Column>, c: Column, b: string)
    requires IsClass(edges, group) && c in group
    ensures b in BridgesFor(sc, group) <==> Infers(sc, edges, c, b)
  {
    BridgesForMember(sc, group, b);
    if b in BridgesFor(sc, group) {
      var d :| d in group && RefersTo(sc, d, b);
      assert RefersFrom(sc, edges, c, b, d);
    }
    if Infers(sc, edges, c, b) {
      var d :| RefersFrom(sc, edges, c, b, d);
      assert d in group;
    }
  }

  /** Equality `(c, k)` comes from one of the first `n` groups. */
  ghost predicate FromGroups(sc: Schema, groups: seq<seq<Column>>, n: nat, c: Column, k: Column)
    requires n <= |groups|
  {
    exists i :: 0 <= i < n && FromGroup(sc, groups[i], BridgesFor(sc, groups[i]), c, k)
  }

  ghost predicate FromGroup(sc: Schema, group: seq<Column>, bridges: set<string>, c: Column, k: Column) {
    c in group && exists b :: b in bridges && k == sc.key(b)
  }

  /** `for col in group: extra_joins.append(col = key)` */
  method JoinWithKey(group: seq<Column>, k: Column) returns (joins: seq<Join>)
    ensures forall j :: j in joins <==> j.0 in group && j.1 == k
  {
    joins := [];
    for i := 0 to |group|
      invariant forall j :: j in joins <==> j.0 in group[..i] && j.1 == k
    {
      joins := joins + [(group[i], k)];
    }
    assert group[..|group|] == group;
  }

  method JoinsForGroup(sc: Schema, group: seq<Column>) returns (joins: seq<Join>)
    ensures forall c, k :: (c, k) in joins <==> FromGroup(sc, group, BridgesFor(sc, group), c, k)
  {
    joins := [];
    var todo := BridgesFor(sc, group);
    ghost var seen: set<string> := {};
    while todo != {}
      invariant seen + todo == BridgesFor(sc, group)
      invariant forall c, k :: (c, k) in joins <==> FromGroup(sc, group, seen, c, k)
      decreases todo
    {
      var b :| b in todo;
      var more := JoinWithKey(group, sc.key(b));
      forall c, k ensures (c, k) in joins + more <==> FromGroup(sc, group, seen + {b}, c, k) {
        assert (c, k) in joins <==> FromGroup(sc, group, seen, c, k);
      }
      joins := joins + more;
      todo, seen := todo - {b}, seen + {b};
    }
    assert seen == BridgesFor(sc, group);
  }

  lemma FromGroupsIsExtra(sc: Schema, edges: seq<Join>, groups: seq<seq<Column>>, c: Column, k: Column)
    requires AreClasses(edges, groups)
    ensures FromGroups(sc, groups, |groups|, c, k) <==>
            c in Nodes(edges) && exists b :: Infers(sc, edges, c, b) && k == sc.key(b)
  {
    if FromGroups(sc, groups, |groups|, c, k) {
      var i :| 0 <= i < |groups| && FromGroup(sc, groups[i], BridgesFor(sc, groups[i]), c, k);
      var b :| b in BridgesFor(sc, groups[i]) && k == sc.key(b);
      GroupInfers(sc, edges, groups[i], c, b);
    }
    if c in Nodes(edges) && exists b :: Infers(sc, edges, c, b) && k == sc.key(b) {
      var b :| Infers(sc, edges, c, b) && k == sc.key(b);
      assert InSome(groups, |groups|, c);
      var i :| 0 <= i < |groups| && c in groups[i];
      GroupInfers(sc, edges, groups[i], c, b);
      assert FromGroup(sc, groups[i], BridgesFor(sc, groups[i]), c, k);
    }
  }

  lemma InferredByGroups(sc: Schema, edges: seq<Join>, groups: seq<seq<Column>>, bridges: set<string>, b: string)
    requires AreClasses(edges, groups)
    requires b in bridges <==> exists i :: 0 <= i < |groups| && b in BridgesFor(sc, groups[i])
    ensures b in bridges <==> Inferred(sc, edges, b)
  {
    if b in bridges {
      var i :| 0 <= i < |groups| && b in BridgesFor(sc, groups[i]);
      GroupInfers(sc, edges, groups[i], groups[i][0], b);
    }
    if Inferred(sc, edges, b) {
      var c :| c in Nodes(edges) && Infers(sc, edges, c, b);
      assert InSome(groups, |groups|, c);
      var i :| 0 <= i < |groups| && c in groups[i];
      GroupInfers(sc, edges, groups[i], c, b);
    }
  }

  /** The loop over the classes. */
  method InferBridges(sc: Schema, groups: seq<seq<Column>>, ghost edges: seq<Join>)
    returns (bridges: set<string>, extra: seq<Join>)
    requires AreClasses(edges, groups)
    ensures IsExtra(sc, edges, extra) && forall b :: b in bridges <==> Inferred(sc, edges, b)
  {
    bridges, extra := {}, [];
    for n := 0 to |groups|
      invariant forall b :: b in bridges <==> exists i :: 0 <= i < n && b in BridgesFor(sc, groups[i])
      invariant forall c, k :: (c, k) in extra <==> FromGroups(sc, groups, n, c, k)
    {
      var more := JoinsForGroup(sc, groups[n]);
      forall c, k ensures (c, k) in extra + more <==> FromGroups(sc, groups, n + 1, c, k) {
        assert (c, k) in extra <==> FromGroups(sc, groups, n, c, k);
        assert (c, k) in more <==> FromGroup(sc, groups[n], BridgesFor(sc, groups[n]), c, k);
      }
      bridges, extra := bridges + BridgesFor(sc, groups[n]), extra + more;
    }
    forall c, k ensures (c, k) in extra <==> c in Nodes(edges) && exists b :: Infers(sc, edges, c, b) && k == sc.key(b) {
      FromGroupsIsExtra(sc, edges, groups, c, k);
    }
    forall b ensures b in bridges <==> Inferred(sc, edges, b) {
      InferredByGroups(sc, edges, groups, bridges, b);
    }
  }

  lemma BridgedUnique(sc: Schema, sig: Signature, edges: seq<Join>, extra: seq<Join>, s: Signature, s': Signature)
    requires IsBridged(sc, sig, edges, extra, s) && IsBridged(sc, sig, edges, extra, s')
    ensures s == s'
  {
    CanonicalIff(edges + extra, edges + extra, s.joins, s'.joins);
    assert s.tables == s'.tables;
  }

  datatype Match = NotFound | Found(estimate: int)

  /** An estimate is returned exactly if the class names call for a bridge and the bridged signature is known. */
  method AddBridgesAndMatch(sc: Schema, sig: Signature, edges: seq<Join>, groups: seq<seq<Column>>, known: map<Signature, int>)
    returns (found: Match, extra: seq<Join>)
    requires Lists(edges, sig.joins) && AreClasses(edges, groups)
    ensures IsExtra(sc, edges, extra)
    ensures found.Found? <==> (exists b :: Inferred(sc, edges, b)) && exists s :: s in known && IsBridged(sc, sig, edges, extra, s)
    ensures forall s :: s in known && IsBridged(sc, sig, edges, extra, s) && found.Found? ==> found.estimate == known[s]
  {
    var bridges;
    bridges, extra := InferBridges(sc, groups, edges);
    if bridges == {} {
      return NotFound, extra;
    }
    var joins := SignatureJoins(edges + extra);
    var bridged := Signature(sig.tables + bridges, joins, sig.filters);
    assert IsBridged(sc, sig, edges, extra, bridged);
    forall s | s in known && IsBridged(sc, sig, edges, extra, s) ensures s == bridged {
      BridgedUnique(sc, sig, edges, extra, s, bridged);
    }
    found := if bridged in known then Found(known[bridged]) else NotFound;
  }
}

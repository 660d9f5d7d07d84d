/**
 The upper bound that the adjustment rate is calibrated against: chaining `dot` over the
 single-table degree sequences never underestimates a star join.
 */
module StarBounds {
  import opened Sums
  import opened Sql
  import opened RankBounds
  import opened DegreeSequences
  import Star = StarCollection

  type CountNum = seq<(Star.CountVector, nat)>

  function CountOf(vec: Star.CountVector, table: string): int {
    if table in vec then vec[table] else 0
  }

  ghost predicate NonNegative(cn: CountNum) {
    forall i, t :: 0 <= i < |cn| && t in cn[i].0 ==> cn[i].0[t] >= 0
  }

  /** The degrees of one table over all join-key values, those that do not occur included. */
  function Column(cn: CountNum, table: string): (bins: seq<Bin>)
    ensures |bins| == |cn|
    ensures forall i :: 0 <= i < |bins| ==> bins[i] == Bin(CountOf(cn[i].0, table) as real, cn[i].1)
  {
    if cn == [] then [] else [Bin(CountOf(cn[0].0, table) as real, cn[0].1)] + Column(cn[1..], table)
  }

  /** What `AddDegreeForSingleDS` adds for one table: the non-zero counts. */
  function SingleItems(cn: CountNum, table: string): seq<Bin> {
    if cn == [] then []
    else
      (if CountOf(cn[0].0, table) == 0 then [] else [Bin(CountOf(cn[0].0, table) as real, cn[0].1)])
      + SingleItems(cn[1..], table)
  }

  /** The finished single-table sequence. */
  function Single(cn: CountNum, table: string, p: real): seq<Bin> {
    Compress(SingleItems(cn, table), p)
  }

  /** The chain of `dot`s over the tables of a subset. */
  function Upper(cn: CountNum, sub: seq<Star.TableColumn>, p: real): seq<Bin>
    requires sub != []
    decreases |sub|
  {
    var n := |sub| - 1;
    if n == 0 then Single(cn, sub[0].table, p)
    else DotBins(Upper(cn, sub[..n], p), Single(cn, sub[n].table, p), p)
  }

  /** The exact degrees of the star over all join-key values. */
  function Products(cn: CountNum, sub: seq<Star.TableColumn>): (bins: seq<Bin>)
    ensures |bins| == |cn|
    ensures forall i :: 0 <= i < |bins| ==> bins[i] == Bin(Star.Product(cn[i].0, sub) as real, cn[i].1)
  {
    if cn == [] then [] else [Bin(Star.Product(cn[0].0, sub) as real, cn[0].1)] + Products(cn[1..], sub)
  }

  lemma {:induction false} SingleOver(cn: CountNum, table: string, t: real)
    requires t >= 0.0
    ensures CardOver(SingleItems(cn, table), t) == CardOver(Column(cn, table), t)
  {
    if cn != [] {
      SingleOver(cn[1..], table, t);
      var b := Bin(CountOf(cn[0].0, table) as real, cn[0].1);
      CardOverCons(b, Column(cn[1..], table), t);
      if CountOf(cn[0].0, table) == 0 {
        TimesIsProduct(cn[0].1, 0.0);
        assert [] + SingleItems(cn[1..], table) == SingleItems(cn[1..], table);
      } else {
        CardOverCons(b, SingleItems(cn[1..], table), t);
      }
    }
  }

  lemma {:induction false} SingleCountable(cn: CountNum, table: string)
    requires NonNegative(cn)
    ensures Countable(SingleItems(cn, table))
  {
    if cn != [] {
      SingleCountable(cn[1..], table);
    }
  }

  lemma SingleDominates(cn: CountNum, table: string, p: real)
    requires NonNegative(cn)
    ensures Proper(Single(cn, table, p)) && Dominates(Expand(Single(cn, table, p)), Expand(Column(cn, table)))
  {
    var items, column := SingleItems(cn, table), Column(cn, table);
    SingleCountable(cn, table);
    forall t | t >= 0.0 ensures OverTo(Expand(column), t, |Expand(column)|) <= OverTo(Expand(items), t, |Expand(items)|) {
      SingleOver(cn, table, t);
      ExpandOver(column, t);
      ExpandOver(items, t);
    }
    CompressDominates(items, p, Expand(column));
  }

  lemma {:induction false} ProductSnoc(vec: Star.CountVector, sub: seq<Star.TableColumn>, e: Star.TableColumn)
    ensures Star.Product(vec, sub + [e]) == Star.Product(vec, sub) * CountOf(vec, e.table)
  {
    if sub == [] {
      assert sub + [e] == [e];
      assert Star.Product(vec, [e]) == CountOf(vec, e.table) * Star.Product(vec, []);
    } else {
      assert (sub + [e])[1..] == sub[1..] + [e];
      ProductSnoc(vec, sub[1..], e);
      var x, y, z := CountOf(vec, sub[0].table), Star.Product(vec, sub[1..]), CountOf(vec, e.table);
      assert x * (y * z) == (x * y) * z;
    }
  }

  lemma ProductCons(x: int, y: int, f: nat, xs: seq<real>, ys: seq<real>)
    requires |xs| == |ys|
    ensures Product(Run(x as real, f) + xs, Run(y as real, f) + ys) == Run((x * y) as real, f) + Product(xs, ys)
  {
    var l, r := Product(Run(x as real, f) + xs, Run(y as real, f) + ys), Run((x * y) as real, f) + Product(xs, ys);
    assert x as real * y as real == (x * y) as real;
    forall i | 0 <= i < |l| ensures l[i] == r[i] {
    }
  }

  lemma ExpandProducts(cn: CountNum, sub: seq<Star.TableColumn>)
    requires cn != []
    ensures Expand(Products(cn, sub)) == Run(Star.Product(cn[0].0, sub) as real, cn[0].1) + Expand(Products(cn[1..], sub))
  {
    ExpandCons(Bin(Star.Product(cn[0].0, sub) as real, cn[0].1), Products(cn[1..], sub));
  }

  lemma ExpandColumn(cn: CountNum, table: string)
    requires cn != []
    ensures Expand(Column(cn, table)) == Run(CountOf(cn[0].0, table) as real, cn[0].1) + Expand(Column(cn[1..], table))
  {
    ExpandCons(Bin(CountOf(cn[0].0, table) as real, cn[0].1), Column(cn[1..], table));
  }

  /** One more table multiplies every value's degree. */
  lemma {:induction false} ProductsSnoc(cn: CountNum, sub: seq<Star.TableColumn>, e: Star.TableColumn)
    ensures |Expand(Products(cn, sub))| == |Expand(Column(cn, e.table))|
    ensures Expand(Products(cn, sub + [e])) == Product(Expand(Products(cn, sub)), Expand(Column(cn, e.table)))
  {
    if cn != [] {
      var x, y, f := Star.Product(cn[0].0, sub), CountOf(cn[0].0, e.table), cn[0].1;
      var xs, ys := Expand(Products(cn[1..], sub)), Expand(Column(cn[1..], e.table));
      ExpandProducts(cn, sub);
      ExpandColumn(cn, e.table);
      ProductsSnoc(cn[1..], sub, e);
      calc {
        Expand(Products(cn, sub + [e]));
        { ExpandProducts(cn, sub + [e]); }
        Run(Star.Product(cn[0].0, sub + [e]) as real, f) + Expand(Products(cn[1..], sub + [e]));
        { ProductSnoc(cn[0].0, sub, e); }
        Run((x * y) as real, f) + Product(xs, ys);
        { ProductCons(x, y, f, xs, ys); }
        Product(Run(x as real, f) + xs, Run(y as real, f) + ys);
      }
    }
  }

  lemma {:induction false} ColumnNonNegative(cn: CountNum, table: string)
    requires NonNegative(cn)
    ensures forall i :: 0 <= i < |Expand(Column(cn, table))| ==> Expand(Column(cn, table))[i] >= 0.0
  {
    if cn != [] {
      ColumnNonNegative(cn[1..], table);
      ExpandCons(Bin(CountOf(cn[0].0, table) as real, cn[0].1), Column(cn[1..], table));
    }
  }

  lemma SingleProducts(cn: CountNum, e: Star.TableColumn)
    ensures Products(cn, [e]) == Column(cn, e.table)
  {
    forall i | 0 <= i < |cn| ensures Products(cn, [e])[i] == Column(cn, e.table)[i] {
      assert Star.Product(cn[i].0, [e]) == CountOf(cn[i].0, e.table) * Star.Product(cn[i].0, []);
    }
  }

  /** The chain dominates the star's degrees, whatever the precision of the compression. */
  lemma {:induction false} UpperDominates(cn: CountNum, sub: seq<Star.TableColumn>, p: real)
    requires NonNegative(cn) && sub != []
    ensures Proper(Upper(cn, sub, p)) && Dominates(Expand(Upper(cn, sub, p)), Expand(Products(cn, sub)))
    decreases |sub|
  {
    var n := |sub| - 1;
    SingleDominates(cn, sub[n].table, p);
    if n == 0 {
      assert sub == [sub[0]];
      SingleProducts(cn, sub[0]);
    } else {
      UpperDominates(cn, sub[..n], p);
      ProductsSnoc(cn, sub[..n], sub[n]);
      ColumnNonNegative(cn, sub[n].table);
      assert sub == sub[..n] + [sub[n]];
      DotDominates(Upper(cn, sub[..n], p), Single(cn, sub[n].table, p), p,
                   Expand(Products(cn, sub[..n])), Expand(Column(cn, sub[n].table)));
    }
  }

  lemma {:induction false} CardAtZero(bins: seq<Bin>)
    requires forall i :: 0 <= i < |bins| ==> bins[i].degree >= 0.0
    ensures CardOver(bins, 0.0) == Card(bins)
  {
    if bins != [] {
      CardAtZero(bins[1..]);
    }
  }

  /** A dominating sequence has at least the family's cardinality. */
  lemma DominatesCard(a: seq<Bin>, b: seq<Bin>)
    requires Countable(a) && Countable(b) && Dominates(Expand(a), Expand(b))
    ensures Card(b) <= Card(a)
  {
    DominatesExceeds(Expand(a), Expand(b));
    ExpandOver(a, 0.0);
    ExpandOver(b, 0.0);
    CardAtZero(a);
    CardAtZero(b);
  }

  lemma {:induction false} ProductNonNegative(vec: Star.CountVector, sub: seq<Star.TableColumn>)
    requires forall t :: t in vec ==> vec[t] >= 0
    ensures Star.Product(vec, sub) >= 0
  {
    if sub != [] {
      ProductNonNegative(vec, sub[1..]);
    }
  }

  lemma {:induction false} ProductsCard(cn: CountNum, sub: seq<Star.TableColumn>)
    ensures Card(Products(cn, sub)) == Total(cn, GroupWeight(Star.ProductOf(sub))) as real
  {
    if cn != [] {
      ProductsCard(cn[1..], sub);
      var x, f := Star.Product(cn[0].0, sub), cn[0].1;
      assert Products(cn, sub)[1..] == Products(cn[1..], sub);
      TimesIsProduct(f, x as real);
      assert f as real * x as real == (f * x) as real;
    }
  }

  lemma {:induction false} MultiplicityWitness<A, K>(rows: seq<A>, key: A -> K, k: K) returns (r: A)
    requires Multiplicity(rows, key, k) > 0
    ensures r in rows && key(r) == k
  {
    if key(rows[0]) == k {
      r := rows[0];
    } else {
      r := MultiplicityWitness(rows[1..], key, k);
    }
  }

  lemma {:induction false} TotalCases(agg: seq<Star.AggRow>, v: int, t: string)
    ensures Total(agg, Star.CaseWhen(v, t)) >= 0
  {
    if agg != [] {
      TotalCases(agg[1..], v, t);
    }
  }

  lemma {:induction false} PivotsNonNegative(agg: seq<Star.AggRow>, tables: set<string>, vals: seq<int>)
    ensures forall vec, t :: vec in Star.Pivots(agg, tables, vals) && t in vec ==> vec[t] >= 0
  {
    if vals != [] {
      PivotsNonNegative(agg, tables, vals[1..]);
      forall t | t in tables ensures Star.Pivot(agg, tables, vals[0])[t] >= 0 {
        TotalCases(agg, vals[0], t);
      }
    }
  }

  /** Count vectors hold counts. */
  lemma CountsNonNegative(db: Star.Database, entries: seq<Star.TableColumn>, cn: CountNum)
    requires Star.IsCountNum(db, entries, cn)
    ensures NonNegative(cn)
  {
    var agg, rows := Star.UnionAll(db, entries), Star.PivotRows(db, entries);
    PivotsNonNegative(agg, Star.Tables(entries), Star.PivotValues(agg));
    forall i, t | 0 <= i < |cn| && t in cn[i].0 ensures cn[i].0[t] >= 0 {
      assert cn[i] in cn;
      var vec := MultiplicityWitness(rows, Star.Identity(), cn[i].0);
    }
  }

  /** The true size of a star join never exceeds the cardinality of the chain of dots. */
  lemma RealBelowUpper(db: Star.Database, entries: seq<Star.TableColumn>, sub: seq<Star.TableColumn>, cn: CountNum, p: real)
    requires Star.DistinctTables(entries) && Star.DistinctTables(sub) && sub != []
    requires forall e :: e in sub ==> e in entries
    requires Star.IsCountNum(db, entries, cn)
    ensures Star.StarSize(db, sub) as real <= Card(Upper(cn, sub, p))
  {
    CountsNonNegative(db, entries, cn);
    UpperDominates(cn, sub, p);
    forall i | 0 <= i < |cn| ensures Products(cn, sub)[i].degree >= 0.0 {
      ProductNonNegative(cn[i].0, sub);
    }
    DominatesCard(Upper(cn, sub, p), Products(cn, sub));
    ProductsCard(cn, sub);
    Star.StarExact(db, entries, sub, cn);
  }
}

/** The row degrees of every table of a star, and the sequences that bound them. */
module StarEdges {
  import opened Sums
  import opened Sql
  import opened RankBounds
  import opened DegreeSequences
  import opened CardLimit
  import R = RealSums
  import Star = StarCollection
  import opened StarBounds
  import opened StarSummary

  /** The members of a star except the `i`-th. */
  function Others(sub: seq<Star.TableColumn>, i: nat): seq<Star.TableColumn>
    requires i < |sub|
  {
    sub[..i] + sub[i + 1..]
  }

  /** How often a row occurs in the star join, as a function of its key. */
  function KeyWeight(db: Star.Database, others: seq<Star.TableColumn>): Cell -> real {
    (cell: Cell) => match cell case Null => 0.0 case Val(v) => Star.DegreeProduct(db, others, v) as real
  }

  function RowWeight(db: Star.Database, sub: seq<Star.TableColumn>, i: nat): Row -> real
    requires i < |sub|
  {
    R.After(KeyWeight(db, Others(sub, i)), Star.CellOf(sub[i].column))
  }

  /** The degrees of the rows of the `i`-th table in the star join. */
  function RowDegrees(db: Star.Database, sub: seq<Star.TableColumn>, i: nat): seq<real>
    requires i < |sub|
  {
    R.Values(Lookup(db, sub[i].table), RowWeight(db, sub, i))
  }

  // ---- Products ----

  lemma {:induction false} MulIsProduct(vec: Star.CountVector, sub: seq<Star.TableColumn>)
    ensures Mul(vec, Star.TableNames(sub)) == Star.Product(vec, sub)
    decreases |sub|
  {
    if sub != [] {
      var n, names := |sub| - 1, Star.TableNames(sub);
      assert names[..n] == Star.TableNames(sub[..n]) && names[n] == sub[n].table;
      calc {
        Mul(vec, names);
        Mul(vec, names[..n]) * CountOf(vec, names[n]);
        { MulIsProduct(vec, sub[..n]); }
        Star.Product(vec, sub[..n]) * CountOf(vec, sub[n].table);
        { ProductSnoc(vec, sub[..n], sub[n]); }
        Star.Product(vec, sub[..n] + [sub[n]]);
        { assert sub[..n] + [sub[n]] == sub; }
        Star.Product(vec, sub);
      }
    }
  }

  lemma {:induction false} ProductPick(vec: Star.CountVector, sub: seq<Star.TableColumn>, i: nat)
    requires i < |sub|
    ensures Star.Product(vec, sub) == CountOf(vec, sub[i].table) * Star.Product(vec, Others(sub, i))
  {
    if i == 0 {
      assert Others(sub, 0) == sub[1..];
    } else {
      ProductPick(vec, sub[1..], i - 1);
      assert Others(sub, i)[1..] == Others(sub[1..], i - 1);
      Swapped(CountOf(vec, sub[0].table), CountOf(vec, sub[i].table), Star.Product(vec, Others(sub[1..], i - 1)));
    }
  }

  lemma Swapped(x: int, y: int, z: int)
    ensures x * (y * z) == y * (x * z)
  {
  }

  lemma EdgeProduct(vec: Star.CountVector, sub: seq<Star.TableColumn>, i: nat)
    requires i < |sub|
    ensures Mul(vec, Star.TableNames(sub)) == CountOf(vec, sub[i].table) * Star.Product(vec, Others(sub, i))
  {
    MulIsProduct(vec, sub);
    ProductPick(vec, sub, i);
  }

  lemma Quotient(c: int, o: int)
    requires c > 0
    ensures (c * o) as real / c as real == o as real
  {
    assert (c * o) as real == c as real * o as real;
  }

  // ---- The mass above a threshold, from rows to count vectors ----

  /** The mass above `t` of the rows at one value, as a function of the count vector there. */
  function VecMass(sub: seq<Star.TableColumn>, i: nat, t: real): Star.CountVector -> real
    requires i < |sub|
  {
    vec =>
      var c := CountOf(vec, sub[i].table);
      if c <= 0 then 0.0 else Times(c, Over(Star.Product(vec, Others(sub, i)) as real, t))
  }

  function ValueMass(db: Star.Database, sub: seq<Star.TableColumn>, i: nat, t: real): int -> real
    requires i < |sub|
  {
    v => Times(Star.Degree(db, sub[i], v), Over(Star.DegreeProduct(db, Others(sub, i), v) as real, t))
  }

  lemma {:induction false} TimesTimes(f: nat, c: nat, x: real)
    ensures Times(c * f, x) == Times(f, Times(c, x))
  {
    if f > 0 {
      TimesTimes(f - 1, c, x);
      assert c * f == c * (f - 1) + c;
      TimesAdd(c * (f - 1), c, x);
    }
  }

  /** The item of a count vector: the product of the other counts, for as many rows as carry the value. */
  lemma EdgeItemIs(vec: Star.CountVector, f: nat, sub: seq<Star.TableColumn>, i: nat, c: int, o: int)
    requires i < |sub| && c == CountOf(vec, sub[i].table) && o == Star.Product(vec, Others(sub, i))
    ensures EdgeItem(vec, f, Mul(vec, Star.TableNames(sub)), sub[i].table) ==
            if c <= 0 || o == 0 then [] else [Bin(o as real, c * f)]
  {
    EdgeProduct(vec, sub, i);
    if c > 0 {
      Quotient(c, o);
      NonZeroProduct(c, o);
    }
  }

  lemma NonZeroProduct(c: int, o: int)
    requires c > 0
    ensures c * o == 0 <==> o == 0
  {
    if o > 0 {
      assert c * o > 0;
    } else if o < 0 {
      assert c * -o > 0;
    }
  }

  lemma EdgeItemMass(vec: Star.CountVector, f: nat, sub: seq<Star.TableColumn>, i: nat, t: real)
    requires i < |sub| && t >= 0.0
    ensures CardOver(EdgeItem(vec, f, Mul(vec, Star.TableNames(sub)), sub[i].table), t) == Times(f, VecMass(sub, i, t)(vec))
  {
    var c, o := CountOf(vec, sub[i].table), Star.Product(vec, Others(sub, i));
    EdgeItemIs(vec, f, sub, i, c, o);
    if c <= 0 {
      TimesZero(f);
    } else if o == 0 {
      TimesZero(f);
      TimesZero(c);
    } else {
      OneItemMass(c, f, o as real, t);
    }
  }

  lemma OneItemMass(c: nat, f: nat, d: real, t: real)
    ensures CardOver([Bin(d, c * f)], t) == Times(f, Times(c, Over(d, t)))
  {
    CardOverCons(Bin(d, c * f), [], t);
    assert [Bin(d, c * f)] + [] == [Bin(d, c * f)];
    TimesTimes(f, c, Over(d, t));
  }

  lemma CardOverMore(items: seq<Bin>, rest: seq<Bin>, t: real)
    requires |items| <= 1
    ensures CardOver(items + rest, t) == CardOver(items, t) + CardOver(rest, t)
  {
    if items == [] {
      assert items + rest == rest;
    } else {
      assert items == [items[0]] && items == [items[0]] + [];
      CardOverCons(items[0], rest, t);
      CardOverCons(items[0], [], t);
    }
  }

  lemma {:induction false} EdgeItemsMass(cn: CountNum, sub: seq<Star.TableColumn>, i: nat, t: real)
    requires i < |sub| && t >= 0.0
    ensures CardOver(EdgeItems(cn, Star.TableNames(sub), sub[i].table), t) == R.Sum(cn, R.GroupWeight(VecMass(sub, i, t)))
  {
    if cn != [] {
      EdgeItemsMass(cn[1..], sub, i, t);
      EdgeItemMass(cn[0].0, cn[0].1, sub, i, t);
      CardOverMore(EdgeItem(cn[0].0, cn[0].1, Mul(cn[0].0, Star.TableNames(sub)), sub[i].table),
                   EdgeItems(cn[1..], Star.TableNames(sub), sub[i].table), t);
    }
  }

  lemma PivotMass(db: Star.Database, entries: seq<Star.TableColumn>, sub: seq<Star.TableColumn>, i: nat, t: real, v: int)
    requires Star.DistinctTables(entries) && i < |sub| && forall e :: e in sub ==> e in entries
    ensures VecMass(sub, i, t)(Star.Pivot(Star.UnionAll(db, entries), Star.Tables(entries), v)) == ValueMass(db, sub, i, t)(v)
  {
    assert sub[i] in entries;
    var j :| 0 <= j < |entries| && entries[j] == sub[i];
    Star.UnionTotal(db, entries, v, sub[i].table);
    Star.ProductIsDegreeProduct(db, entries, Others(sub, i), v);
  }

  lemma {:induction false} PivotsMass(db: Star.Database, entries: seq<Star.TableColumn>, sub: seq<Star.TableColumn>,
                                      i: nat, t: real, vals: seq<int>)
    requires Star.DistinctTables(entries) && i < |sub| && forall e :: e in sub ==> e in entries
    ensures R.Sum(Star.Pivots(Star.UnionAll(db, entries), Star.Tables(entries), vals), VecMass(sub, i, t)) ==
            R.Sum(vals, ValueMass(db, sub, i, t))
  {
    if vals != [] {
      PivotsMass(db, entries, sub, i, t, vals[1..]);
      PivotMass(db, entries, sub, i, t, vals[0]);
      PivotsSum(Star.UnionAll(db, entries), Star.Tables(entries), vals, VecMass(sub, i, t));
    }
  }

  lemma PivotsSum(agg: seq<Star.AggRow>, tables: set<string>, vals: seq<int>, f: Star.CountVector -> real)
    requires vals != []
    ensures R.Sum(Star.Pivots(agg, tables, vals), f) ==
            f(Star.Pivot(agg, tables, vals[0])) + R.Sum(Star.Pivots(agg, tables, vals[1..]), f)
  {
    var rest := Star.Pivots(agg, tables, vals[1..]);
    assert ([Star.Pivot(agg, tables, vals[0])] + rest)[1..] == rest;
  }

  /** The mass above `t` that a row with this key contributes. */
  function CellMass(db: Star.Database, sub: seq<Star.TableColumn>, i: nat, t: real): Cell -> real
    requires i < |sub|
  {
    R.OverOf(KeyWeight(db, Others(sub, i)), t)
  }

  lemma {:induction false} CellsMass(db: Star.Database, sub: seq<Star.TableColumn>, i: nat, t: real, vals: seq<int>)
    requires i < |sub|
    ensures R.Sum(Star.Cells(vals), R.Weighted(Lookup(db, sub[i].table), Star.CellOf(sub[i].column), CellMass(db, sub, i, t))) ==
            R.Sum(vals, ValueMass(db, sub, i, t))
  {
    if vals != [] {
      assert Star.Cells(vals)[1..] == Star.Cells(vals[1..]);
      CellsMass(db, sub, i, t, vals[1..]);
    }
  }

  lemma KeysListed(db: Star.Database, e: Star.TableColumn, vals: seq<int>)
    requires forall v :: Star.Degree(db, e, v) > 0 ==> v in vals
    ensures forall r :: r in Lookup(db, e.table) ==> Star.CellOf(e.column)(r) in [Null] + Star.Cells(vals)
  {
    var rows, key, ks := Lookup(db, e.table), Star.CellOf(e.column), [Null] + Star.Cells(vals);
    forall r | r in rows ensures key(r) in ks {
      MultiplicityPositive(rows, key, r);
      if key(r).Val? {
        assert Star.Degree(db, e, key(r).v) > 0;
        var j :| 0 <= j < |vals| && vals[j] == key(r).v;
        assert ks[j + 1] == key(r);
      } else {
        assert ks[0] == key(r);
      }
    }
  }

  lemma NullFirst(cells: seq<Cell>, f: Cell -> real)
    ensures R.Sum([Null] + cells, f) == f(Null) + R.Sum(cells, f)
  {
    assert ([Null] + cells)[1..] == cells;
  }

  lemma RowsMass(db: Star.Database, sub: seq<Star.TableColumn>, i: nat, t: real, vals: seq<int>)
    requires i < |sub| && t >= 0.0 && Distinct(vals)
    requires forall v :: Star.Degree(db, sub[i], v) > 0 ==> v in vals
    ensures R.Sum(Lookup(db, sub[i].table), R.OverOf(RowWeight(db, sub, i), t)) == R.Sum(vals, ValueMass(db, sub, i, t))
  {
    var rows, key := Lookup(db, sub[i].table), Star.CellOf(sub[i].column);
    var ks, w := [Null] + Star.Cells(vals), CellMass(db, sub, i, t);
    KeysListed(db, sub[i], vals);
    R.SumCong(rows, R.OverOf(RowWeight(db, sub, i), t), R.After(w, key));
    R.SumByKey(rows, key, ks, w);
    NullFirst(Star.Cells(vals), R.Weighted(rows, key, w));
    TimesZero(Multiplicity(rows, key, Null));
    CellsMass(db, sub, i, t, vals);
  }

  /** Collected items and rows hold the same mass above every threshold. */
  lemma EdgeMass(db: Star.Database, entries: seq<Star.TableColumn>, sub: seq<Star.TableColumn>, cn: CountNum, i: nat, t: real)
    requires Star.DistinctTables(entries) && i < |sub| && t >= 0.0
    requires forall e :: e in sub ==> e in entries
    requires Star.IsCountNum(db, entries, cn)
    ensures CardOver(EdgeItems(cn, Star.TableNames(sub), sub[i].table), t) ==
            OverTo(RowDegrees(db, sub, i), t, |RowDegrees(db, sub, i)|)
  {
    var agg := Star.UnionAll(db, entries);
    var vals, rows := Star.PivotValues(agg), Star.PivotRows(db, entries);
    EdgeItemsMass(cn, sub, i, t);
    R.GroupedSum(rows, Star.Identity(), cn, VecMass(sub, i, t));
    R.SumCong(rows, R.After(VecMass(sub, i, t), Star.Identity()), VecMass(sub, i, t));
    PivotsMass(db, entries, sub, i, t, vals);
    Star.PivotDistinct(agg);
    assert sub[i] in entries;
    var j :| 0 <= j < |entries| && entries[j] == sub[i];
    forall v | Star.Degree(db, sub[i], v) > 0 ensures v in vals {
      Star.PivotComplete(db, entries, j, v);
    }
    RowsMass(db, sub, i, t, vals);
    R.OverSum(Lookup(db, sub[i].table), RowWeight(db, sub, i), t);
  }

  lemma EdgeItemWhole(vec: Star.CountVector, f: nat, sub: seq<Star.TableColumn>, i: nat)
    requires i < |sub| && Counts(vec)
    ensures Integral(EdgeItem(vec, f, Mul(vec, Star.TableNames(sub)), sub[i].table))
    ensures Countable(EdgeItem(vec, f, Mul(vec, Star.TableNames(sub)), sub[i].table))
  {
    var c, o := CountOf(vec, sub[i].table), Star.Product(vec, Others(sub, i));
    EdgeProduct(vec, sub, i);
    ProductNonNegative(vec, Others(sub, i));
    if c > 0 {
      Quotient(c, o);
      assert o as real == IntReal(o);
    }
  }

  lemma {:induction false} EdgeItemsWhole(cn: CountNum, sub: seq<Star.TableColumn>, i: nat)
    requires i < |sub| && forall k :: 0 <= k < |cn| ==> Counts(cn[k].0)
    ensures Integral(EdgeItems(cn, Star.TableNames(sub), sub[i].table))
    ensures Countable(EdgeItems(cn, Star.TableNames(sub), sub[i].table))
  {
    if cn != [] {
      EdgeItemWhole(cn[0].0, cn[0].1, sub, i);
      EdgeItemsWhole(cn[1..], sub, i);
    }
  }

  // ---- The cardinality ----

  lemma {:induction false} TotalCardIsTotal(cn: CountNum, sub: seq<Star.TableColumn>)
    ensures TotalCard(cn, Star.TableNames(sub)) == Total(cn, GroupWeight(Star.ProductOf(sub)))
  {
    if cn != [] {
      TotalCardIsTotal(cn[1..], sub);
      MulIsProduct(cn[0].0, sub);
    }
  }

  /** A star whose statistic was collected from the counts of its EqualSet. */
  ghost predicate Source(db: Star.Database, entries: seq<Star.TableColumn>, sub: seq<Star.TableColumn>, cn: CountNum) {
    && Star.DistinctTables(entries) && Star.DistinctTables(sub) && sub != []
    && (forall e :: e in sub ==> e in entries)
    && Star.IsCountNum(db, entries, cn)
  }

  /** The cardinality a statistic ends up with is the size of the star join. */
  lemma CardExact(db: Star.Database, entries: seq<Star.TableColumn>, sub: seq<Star.TableColumn>, cn: CountNum)
    requires Source(db, entries, sub, cn)
    ensures TotalCard(cn, Star.TableNames(sub)) == Star.StarSize(db, sub)
  {
    TotalCardIsTotal(cn, sub);
    Star.StarExact(db, entries, sub, cn);
  }

  lemma RowDegreesNonNegative(db: Star.Database, sub: seq<Star.TableColumn>, i: nat)
    requires i < |sub|
    ensures forall k :: 0 <= k < |RowDegrees(db, sub, i)| ==> RowDegrees(db, sub, i)[k] >= 0.0
  {
  }

  lemma {:induction false} EdgeItemsCard(cn: CountNum, sub: seq<Star.TableColumn>, i: nat)
    requires i < |sub| && forall k :: 0 <= k < |cn| ==> Counts(cn[k].0)
    ensures R.Sum(cn, R.GroupWeight(VecMass(sub, i, 0.0))) == TotalCard(cn, Star.TableNames(sub)) as real
  {
    if cn != [] {
      EdgeItemsCard(cn[1..], sub, i);
      var vec, f := cn[0].0, cn[0].1;
      var c, o := CountOf(vec, sub[i].table), Star.Product(vec, Others(sub, i));
      EdgeProduct(vec, sub, i);
      ProductNonNegative(vec, Others(sub, i));
      assert c >= 0;
      TimesProduct(f, c, o);
      TimesZero(f);
    }
  }

  lemma {:induction false} TimesInt(n: nat, x: int)
    ensures Times(n, x as real) == (n * x) as real
  {
    if n > 0 {
      TimesInt(n - 1, x);
      assert n * x == (n - 1) * x + x;
    }
  }

  lemma TimesProduct(f: nat, c: nat, o: nat)
    ensures Times(f, Times(c, o as real)) == ((c * o) * f) as real
  {
    TimesInt(c, o);
    TimesInt(f, c * o);
  }

  /** Whatever table of the star is asked, its rows' degrees add up to the star join. */
  lemma RowDegreesSum(db: Star.Database, entries: seq<Star.TableColumn>, sub: seq<Star.TableColumn>, cn: CountNum, i: nat)
    requires Source(db, entries, sub, cn) && i < |sub|
    ensures SumTo(RowDegrees(db, sub, i), |RowDegrees(db, sub, i)|) == Star.StarSize(db, sub) as real
  {
    CountsOf(db, entries, cn);
    EdgeMass(db, entries, sub, cn, i, 0.0);
    EdgeItemsMass(cn, sub, i, 0.0);
    EdgeItemsCard(cn, sub, i);
    CardExact(db, entries, sub, cn);
    RowDegreesNonNegative(db, sub, i);
    OverZeroSum(RowDegrees(db, sub, i), |RowDegrees(db, sub, i)|);
  }

  lemma CountsOf(db: Star.Database, entries: seq<Star.TableColumn>, cn: CountNum)
    requires Star.IsCountNum(db, entries, cn)
    ensures forall k :: 0 <= k < |cn| ==> Counts(cn[k].0)
  {
    CountsNonNegative(db, entries, cn);
  }

  // ---- The finished sequences ----

  /** The finished sequence of the `i`-th table. */
  ghost function EdgeBins(cn: CountNum, sub: seq<Star.TableColumn>, i: nat, p: real): seq<Bin>
    requires i < |sub| && Positive(Compress(EdgeItems(cn, Star.TableNames(sub), sub[i].table), p))
  {
    Limit(Compress(EdgeItems(cn, Star.TableNames(sub), sub[i].table), p), TotalCard(cn, Star.TableNames(sub)) as real)
  }

  /**
   What is stored for a table bounds its rows: any `n` rows of the table together occur in the star
   join at most as often as the first `n` ranks of the stored sequence say, although that sequence
   was bucketed, corrected and cut at the star's cardinality.
   */
  lemma EdgeDominates(db: Star.Database, entries: seq<Star.TableColumn>, sub: seq<Star.TableColumn>, cn: CountNum, i: nat, p: real)
    requires Source(db, entries, sub, cn) && i < |sub|
    ensures Positive(Compress(EdgeItems(cn, Star.TableNames(sub), sub[i].table), p))
    ensures Dominates(Expand(EdgeBins(cn, sub, i, p)), RowDegrees(db, sub, i))
  {
    var items := EdgeItems(cn, Star.TableNames(sub), sub[i].table);
    var xs, card := RowDegrees(db, sub, i), TotalCard(cn, Star.TableNames(sub));
    CountsOf(db, entries, cn);
    EdgeItemsWhole(cn, sub, i);
    CompressWhole(items, p);
    forall t | t >= 0.0 ensures OverTo(xs, t, |xs|) <= OverTo(Expand(items), t, |Expand(items)|) {
      EdgeMass(db, entries, sub, cn, i, t);
      ExpandOver(items, t);
    }
    CompressDominates(items, p, xs);
    RowDegreesNonNegative(db, sub, i);
    RowDegreesSum(db, entries, sub, cn, i);
    CardExact(db, entries, sub, cn);
    assert card as real == IntReal(card);
    LimitDominates(Compress(items, p), card as real, xs);
  }

  /** So it is for what `DSStatistic` has in hand for a table after all vectors were added: closing it gives this sequence. */
  lemma FinishedDominates(db: Star.Database, entries: seq<Star.TableColumn>, sub: seq<Star.TableColumn>, cn: CountNum, i: nat, p: real,
                          slots: seq<Slot>, card: int)
    requires Source(db, entries, sub, cn) && i < |sub|
    requires slots == AddAll([], EdgeItems(cn, Star.TableNames(sub), sub[i].table), p) && card == TotalCard(cn, Star.TableNames(sub))
    ensures forall k :: 0 <= k < |slots| ==> slots[k].maxDegree >= 0.0
    ensures Positive(Compress(EdgeItems(cn, Star.TableNames(sub), sub[i].table), p))
    ensures Finished(slots, card as real) == EdgeBins(cn, sub, i, p)
    ensures Dominates(Expand(Finished(slots, card as real)), RowDegrees(db, sub, i))
  {
    CountsOf(db, entries, cn);
    EdgeItemsWhole(cn, sub, i);
    AddAllWhole([], EdgeItems(cn, Star.TableNames(sub), sub[i].table), p);
    EdgeDominates(db, entries, sub, cn, i, p);
  }
}

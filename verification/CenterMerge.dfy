/**
 `MergeByCenter`: a star that was split into parts is put together again on a virtual table with one row for
 every key. Two parts keep the bound; with a third the cardinality is 0.
 */
module CenterMerge {
  import opened Sums
  import opened Sql
  import opened RankBounds
  import opened DegreeSequences
  import opened CardLimit
  import opened MergeChunks
  import opened MergeRows
  import opened MergeBounds
  import opened StarJoins
  import opened PlanCounts
  import opened DegreePrecision
  import opened StarPrecision
  import Merging = MergeStatistics
  import R = RealSums
  import Star = StarCollection
  import Single = StarBounds
  import Collected = StarSummary
  import Edges = StarEdges

  const CENTER := "__star_center"

  /** A statistic with its central sequence. */
  datatype Centered = Centered(stat: Summary, central: seq<Bin>)

  ghost predicate CenteredOk(c: Centered) {
    SolidSummary(c.stat) && Solid(c.central) && CENTER !in c.stat.tables
  }

  type Statistic = c: Centered | CenteredOk(c) ghost witness Centered(Summary(0.0, {}, map[]), [])

  // ---- The method ----

  function WithCenter(c: Centered): Summary {
    Summary(c.stat.card, c.stat.tables + {CENTER}, c.stat.edges[CENTER := c.central])
  }

  function WithoutCenter(s: Summary): Summary {
    Summary(s.card, s.tables - {CENTER}, s.edges - {CENTER})
  }

  /** The merged statistic starts with an empty central sequence, and nothing is added to it. */
  ghost function CenterMerged(l: Statistic, r: Statistic, p: real): (m: Statistic)
    ensures m.stat.tables == l.stat.tables + r.stat.tables
  {
    WithCenterOk(l);
    WithCenterOk(r);
    var s := Merged(WithCenter(l), WithCenter(r), CENTER, p);
    WithoutCenterOk(s);
    AddRemove(l.stat.tables, r.stat.tables, CENTER);
    Centered(WithoutCenter(s), [])
  }

  lemma AddRemove(a: set<string>, b: set<string>, c: string)
    requires c !in a && c !in b
    ensures (a + {c}) + (b + {c}) - {c} == a + b
  {
  }

  lemma WithoutCenterOk(s: Summary)
    requires SolidSummary(s)
    ensures CenteredOk(Centered(WithoutCenter(s), [])) && WithoutCenter(s).tables == s.tables - {CENTER}
  {
    var r := WithoutCenter(s);
    assert r.edges.Keys == s.edges.Keys - {CENTER};
    forall t | t in r.tables ensures Solid(r.edges[t]) {
      assert r.edges[t] == s.edges[t];
    }
  }

  lemma WithCenterOk(c: Statistic)
    ensures SolidSummary(WithCenter(c)) && WithCenter(c).tables == c.stat.tables + {CENTER}
  {
    var s := WithCenter(c);
    forall t | t in s.tables ensures Solid(s.edges[t]) {
      if t != CENTER {
        assert s.edges[t] == c.stat.edges[t];
      }
    }
  }

  lemma CenterMergedIs(l: Statistic, r: Statistic, p: real, merged: Summary)
    requires MergesOn(WithCenter(l), WithCenter(r), CENTER)
    requires merged == Merged(WithCenter(l), WithCenter(r), CENTER, p)
    ensures Centered(WithoutCenter(merged), []) == CenterMerged(l, r, p)
  {
  }

  method MergeByCenter(l: Statistic, r: Statistic, p: real) returns (m: Centered)
    ensures m == CenterMerged(l, r, p)
  {
    WithCenterOk(l);
    WithCenterOk(r);
    var merged := Merging.Merge(WithCenter(l), WithCenter(r), CENTER, p);
    m := Centered(WithoutCenter(merged), []);
    CenterMergedIs(l, r, p, merged);
  }

  // ---- The degrees of the keys ----

  function KeyWeight(db: Star.Database, sub: seq<Star.TableColumn>): int -> real {
    v => Star.DegreeProduct(db, sub, v) as real
  }

  /** How often every key occurs in the star. */
  function CenterDegrees(db: Star.Database, sub: seq<Star.TableColumn>, vals: seq<int>): seq<real> {
    R.Values(vals, KeyWeight(db, sub))
  }

  function VecOver(sub: seq<Star.TableColumn>, t: real): Star.CountVector -> real {
    vec => Over(Star.Product(vec, sub) as real, t)
  }

  lemma OneItem(d: real, f: nat, t: real)
    ensures CardOver([Bin(d, f)], t) == Times(f, Over(d, t))
  {
    CardOverCons(Bin(d, f), [], t);
    assert [Bin(d, f)] + [] == [Bin(d, f)];
  }

  lemma CentralItemMass(vec: Star.CountVector, f: nat, sub: seq<Star.TableColumn>, t: real)
    requires t >= 0.0
    ensures CardOver(Collected.CentralItem(f, Collected.Mul(vec, Star.TableNames(sub))), t) == Times(f, VecOver(sub, t)(vec))
  {
    Edges.MulIsProduct(vec, sub);
    if Star.Product(vec, sub) == 0 {
      TimesZero(f);
    } else {
      OneItem(Star.Product(vec, sub) as real, f, t);
    }
  }

  lemma {:induction false} CentralItemsMass(cn: Single.CountNum, sub: seq<Star.TableColumn>, t: real)
    requires t >= 0.0
    ensures CardOver(Collected.CentralItems(cn, Star.TableNames(sub)), t) == R.Sum(cn, R.GroupWeight(VecOver(sub, t)))
  {
    if cn != [] {
      CentralItemsMass(cn[1..], sub, t);
      CentralItemMass(cn[0].0, cn[0].1, sub, t);
      Edges.CardOverMore(Collected.CentralItem(cn[0].1, Collected.Mul(cn[0].0, Star.TableNames(sub))),
                         Collected.CentralItems(cn[1..], Star.TableNames(sub)), t);
    }
  }

  function KeyOver(db: Star.Database, sub: seq<Star.TableColumn>, t: real): int -> real {
    R.OverOf(KeyWeight(db, sub), t)
  }

  lemma {:induction false} PivotsOver(db: Star.Database, entries: seq<Star.TableColumn>, sub: seq<Star.TableColumn>, t: real, vals: seq<int>)
    requires Star.DistinctTables(entries) && forall e :: e in sub ==> e in entries
    ensures R.Sum(Star.Pivots(Star.UnionAll(db, entries), Star.Tables(entries), vals), VecOver(sub, t)) == R.Sum(vals, KeyOver(db, sub, t))
  {
    if vals != [] {
      PivotsOver(db, entries, sub, t, vals[1..]);
      Star.ProductIsDegreeProduct(db, entries, sub, vals[0]);
      var rest := Star.Pivots(Star.UnionAll(db, entries), Star.Tables(entries), vals[1..]);
      assert ([Star.Pivot(Star.UnionAll(db, entries), Star.Tables(entries), vals[0])] + rest)[1..] == rest;
    }
  }

  lemma {:induction false} SumSplit(a: seq<int>, b: seq<int>, f: int -> real)
    ensures R.Sum(a + b, f) == R.Sum(a, f) + R.Sum(b, f)
  {
    if a == [] {
      assert a + b == b;
    } else {
      assert (a + b)[1..] == a[1..] + b;
      SumSplit(a[1..], b, f);
    }
  }

  lemma RemoveAt(b: seq<int>, i: nat, f: int -> real)
    requires i < |b| && Distinct(b)
    ensures var rest := b[..i] + b[i + 1..];
            && Distinct(rest) && R.Sum(b, f) == f(b[i]) + R.Sum(rest, f)
            && forall w :: w in rest <==> w in b && w != b[i]
  {
    var head, tail, rest := b[..i], b[i + 1..], b[..i] + b[i + 1..];
    assert b == head + ([b[i]] + tail);
    SumSplit(head, [b[i]] + tail, f);
    assert ([b[i]] + tail)[1..] == tail;
    SumSplit(head, tail, f);
    RemoveDistinct(b, i);
  }

  lemma RemoveDistinct(b: seq<int>, i: nat)
    requires i < |b| && Distinct(b)
    ensures Distinct(b[..i] + b[i + 1..]) && forall w :: w in b[..i] + b[i + 1..] <==> w in b && w != b[i]
  {
    var rest := b[..i] + b[i + 1..];
    forall k, l | 0 <= k < l < |rest| ensures rest[k] != rest[l] {
      assert rest[k] == b[if k < i then k else k + 1] && rest[l] == b[if l < i then l else l + 1];
    }
    forall w ensures w in rest <==> w in b && w != b[i] {
      if w in b && w != b[i] {
        var k :| 0 <= k < |b| && b[k] == w;
        assert rest[if k < i then k else k - 1] == w;
      }
    }
  }

  /** Sums over two lists without repetition are equal if both hold every place where `f` is not 0. */
  lemma {:induction false} SumSupport(a: seq<int>, b: seq<int>, f: int -> real)
    requires Distinct(a) && Distinct(b) && forall v :: f(v) != 0.0 ==> (v in a <==> v in b)
    ensures R.Sum(a, f) == R.Sum(b, f)
    decreases |a|
  {
    if a == [] {
      forall v | v in b ensures f(v) == 0.0 {
        assert v !in a;
      }
      R.SumZero(b, f);
    } else {
      var v := a[0];
      assert a == [v] + a[1..] && v !in a[1..];
      if v in b {
        var i :| 0 <= i < |b| && b[i] == v;
        RemoveAt(b, i, f);
        SumSupport(a[1..], b[..i] + b[i + 1..], f);
      } else {
        SumSupport(a[1..], b, f);
      }
    }
  }

  /** `vals` holds every key of the star once. */
  ghost predicate KeysListed(db: Star.Database, sub: seq<Star.TableColumn>, vals: seq<int>) {
    Distinct(vals) && forall v :: Star.DegreeProduct(db, sub, v) > 0 ==> v in vals
  }

  lemma FirstDegree(db: Star.Database, sub: seq<Star.TableColumn>, v: int)
    requires sub != [] && Star.DegreeProduct(db, sub, v) > 0
    ensures Star.Degree(db, sub[0], v) > 0
  {
  }

  lemma PivotKeys(db: Star.Database, entries: seq<Star.TableColumn>, sub: seq<Star.TableColumn>, cn: Single.CountNum)
    requires Edges.Source(db, entries, sub, cn)
    ensures KeysListed(db, sub, Values(db, entries))
  {
    Star.PivotDistinct(Star.UnionAll(db, entries));
    forall v | Star.DegreeProduct(db, sub, v) > 0 ensures v in Values(db, entries) {
      FirstDegree(db, sub, v);
      ValuesComplete(db, entries, sub, cn, 0, v);
    }
  }

  /** Collected central items and keys hold the same mass above every threshold. */
  lemma CentralMass(db: Star.Database, entries: seq<Star.TableColumn>, sub: seq<Star.TableColumn>, cn: Single.CountNum,
                    vals: seq<int>, t: real)
    requires Edges.Source(db, entries, sub, cn) && KeysListed(db, sub, vals) && t >= 0.0
    ensures CardOver(Collected.CentralItems(cn, Star.TableNames(sub)), t) ==
            OverTo(CenterDegrees(db, sub, vals), t, |CenterDegrees(db, sub, vals)|)
  {
    var pivots, rows, f := Values(db, entries), Star.PivotRows(db, entries), KeyOver(db, sub, t);
    CentralItemsMass(cn, sub, t);
    R.GroupedSum(rows, Star.Identity(), cn, VecOver(sub, t));
    R.SumCong(rows, R.After(VecOver(sub, t), Star.Identity()), VecOver(sub, t));
    PivotsOver(db, entries, sub, t, pivots);
    PivotKeys(db, entries, sub, cn);
    SumSupport(pivots, vals, f);
    R.OverSum(vals, KeyWeight(db, sub), t);
  }

  // ---- The central sequence bounds the keys ----

  lemma CentralItemOk(vec: Star.CountVector, f: nat, sub: seq<Star.TableColumn>)
    requires Collected.Counts(vec) && f > 0
    ensures ItemsOk(Collected.CentralItem(f, Collected.Mul(vec, Star.TableNames(sub))))
  {
    var m := Collected.Mul(vec, Star.TableNames(sub));
    Edges.MulIsProduct(vec, sub);
    Single.ProductNonNegative(vec, sub);
    assert m as real == IntReal(m);
  }

  lemma ItemsOkAppend(a: seq<Bin>, b: seq<Bin>)
    requires ItemsOk(a) && ItemsOk(b)
    ensures ItemsOk(a + b)
  {
  }

  lemma {:induction false} CentralItemsOk(cn: Single.CountNum, sub: seq<Star.TableColumn>)
    requires forall k :: 0 <= k < |cn| ==> Collected.Counts(cn[k].0) && cn[k].1 > 0
    ensures ItemsOk(Collected.CentralItems(cn, Star.TableNames(sub)))
  {
    if cn != [] {
      CentralItemsOk(cn[1..], sub);
      CentralItemOk(cn[0].0, cn[0].1, sub);
      ItemsOkAppend(Collected.CentralItem(cn[0].1, Collected.Mul(cn[0].0, Star.TableNames(sub))),
                    Collected.CentralItems(cn[1..], Star.TableNames(sub)));
    }
  }

  /** The finished central sequence of a star. */
  ghost function CentralBins(db: Star.Database, entries: seq<Star.TableColumn>, sub: seq<Star.TableColumn>, cn: Single.CountNum, p: real): (bins: seq<Bin>)
    requires Edges.Source(db, entries, sub, cn)
    ensures EdgeOk(bins)
  {
    CentralOk(db, entries, sub, cn, p);
    Limit(Compress(Collected.CentralItems(cn, Star.TableNames(sub)), p), Collected.TotalCard(cn, Star.TableNames(sub)) as real)
  }

  lemma CentralOk(db: Star.Database, entries: seq<Star.TableColumn>, sub: seq<Star.TableColumn>, cn: Single.CountNum, p: real)
    requires Edges.Source(db, entries, sub, cn)
    ensures ItemsOk(Collected.CentralItems(cn, Star.TableNames(sub)))
    ensures var bins, card := Compress(Collected.CentralItems(cn, Star.TableNames(sub)), p), Collected.TotalCard(cn, Star.TableNames(sub));
            EdgeOk(bins) && card >= 0 && EdgeOk(Limit(bins, card as real))
  {
    var items, card := Collected.CentralItems(cn, Star.TableNames(sub)), Collected.TotalCard(cn, Star.TableNames(sub));
    Edges.CountsOf(db, entries, cn);
    forall k | 0 <= k < |cn| ensures cn[k].1 > 0 {
      assert cn[k] in cn;
    }
    CentralItemsOk(cn, sub);
    CompressOk(items, p);
    Edges.CardExact(db, entries, sub, cn);
    assert card as real == IntReal(card);
    LimitKeepsOk(Compress(items, p), card as real);
  }

  lemma {:induction false} SumOfValues(vals: seq<int>, f: int -> real, k: nat)
    requires k <= |vals|
    ensures SumTo(R.Values(vals, f), |vals|) == SumTo(R.Values(vals, f), k) + R.Sum(vals[k..], f)
    decreases |vals| - k
  {
    if k < |vals| {
      SumOfValues(vals, f, k + 1);
      assert vals[k..][1..] == vals[k + 1..];
    }
  }

  lemma {:induction false} SumIsTotal(db: Star.Database, sub: seq<Star.TableColumn>, vals: seq<int>)
    ensures R.Sum(vals, KeyWeight(db, sub)) == Total(vals, Star.DegreeProducts(db, sub)) as real
  {
    if vals != [] {
      SumIsTotal(db, sub, vals[1..]);
    }
  }

  lemma StarTotal(db: Star.Database, sub: seq<Star.TableColumn>, vals: seq<int>)
    requires sub != [] && Star.DistinctTables(sub) && KeysListed(db, sub, vals)
    ensures Total(vals, Star.DegreeProducts(db, sub)) == Star.StarSize(db, sub)
  {
    var rows, key := Lookup(db, sub[0].table), Star.CellOf(sub[0].column);
    var more := AllKeys(rows, sub[0].column, vals);
    forall v | Star.Degree(db, sub[0], v) > 0 ensures v in more {
      KeyInRows(rows, sub[0].column, v);
    }
    Star.StarByValue(db, sub, more);
    SumIsTotal(db, sub, vals);
    SumIsTotal(db, sub, more);
    SumSupport(vals, more, KeyWeight(db, sub));
  }

  /** `vals` and the keys of the rows that it does not have. */
  function AllKeys(rows: seq<Row>, column: string, vals: seq<int>): (r: seq<int>)
    requires Distinct(vals)
    ensures Distinct(r) && (forall v :: v in vals ==> v in r)
    ensures forall i :: 0 <= i < |rows| && Get(rows[i], column).Val? ==> Get(rows[i], column).v in r
  {
    if rows == [] then vals
    else
      var k := |rows| - 1;
      var rest := AllKeys(rows[..k], column, vals);
      assert forall i :: 0 <= i < k ==> rows[..k][i] == rows[i];
      if Get(rows[k], column).Val? && Get(rows[k], column).v !in rest then rest + [Get(rows[k], column).v] else rest
  }

  lemma {:induction false} KeyInRows(rows: seq<Row>, column: string, v: int)
    requires Multiplicity(rows, Star.CellOf(column), Val(v)) > 0
    ensures exists i :: 0 <= i < |rows| && Get(rows[i], column) == Val(v)
  {
    if Get(rows[0], column) != Val(v) {
      KeyInRows(rows[1..], column, v);
      var i :| 0 <= i < |rows[1..]| && Get(rows[1..][i], column) == Val(v);
      assert Get(rows[i + 1], column) == Val(v);
    }
  }

  lemma CenterSum(db: Star.Database, sub: seq<Star.TableColumn>, vals: seq<int>)
    requires sub != [] && Star.DistinctTables(sub) && KeysListed(db, sub, vals)
    ensures SumTo(CenterDegrees(db, sub, vals), |vals|) == Star.StarSize(db, sub) as real
  {
    SumOfValues(vals, KeyWeight(db, sub), 0);
    assert vals[0..] == vals;
    SumIsTotal(db, sub, vals);
    StarTotal(db, sub, vals);
  }

  /** What is stored for the center bounds the keys. */
  lemma CentralDominates(db: Star.Database, entries: seq<Star.TableColumn>, sub: seq<Star.TableColumn>, cn: Single.CountNum,
                         vals: seq<int>, p: real)
    requires Edges.Source(db, entries, sub, cn) && KeysListed(db, sub, vals)
    ensures Dominates(Expand(CentralBins(db, entries, sub, cn, p)), CenterDegrees(db, sub, vals))
  {
    var items, card := Collected.CentralItems(cn, Star.TableNames(sub)), Collected.TotalCard(cn, Star.TableNames(sub));
    var xs := CenterDegrees(db, sub, vals);
    CentralOk(db, entries, sub, cn, p);
    forall t | t >= 0.0 ensures OverTo(xs, t, |xs|) <= OverTo(Expand(items), t, |Expand(items)|) {
      CentralMass(db, entries, sub, cn, vals, t);
      ExpandOver(items, t);
    }
    CompressDominates(items, p, xs);
    CenterSum(db, sub, vals);
    Edges.CardExact(db, entries, sub, cn);
    assert card as real == IntReal(card);
    LimitDominates(Compress(items, p), card as real, xs);
  }

  /** From above: it has no more keys over `p * t` than the star has keys of a degree over `t`. */
  lemma CentralKeys(db: Star.Database, entries: seq<Star.TableColumn>, sub: seq<Star.TableColumn>, cn: Single.CountNum, p: real, t: real)
    requires Edges.Source(db, entries, sub, cn) && p > 1.0 && t >= 1.0
    ensures KeysAbove(CentralBins(db, entries, sub, cn, p), p * t) <= KeysAbove(Collected.CentralItems(cn, Star.TableNames(sub)), t)
  {
    var items, card := Collected.CentralItems(cn, Star.TableNames(sub)), Collected.TotalCard(cn, Star.TableNames(sub));
    CentralOk(db, entries, sub, cn, p);
    CutKeysToo(items, p, t, card as real, p * t);
  }

  /** What merging on the center estimates: the sum over the ranks of the products of the two central degrees. */
  lemma CenterExact(l: Statistic, r: Statistic, p: real)
    ensures var products := RankProduct(Expand(l.central), Expand(r.central));
            CenterMerged(l, r, p).stat.card == SumTo(products, |products|)
  {
    WithCenterOk(l);
    WithCenterOk(r);
    ExpandSegments(l.central, r.central);
    ExpandSum(Segments(l.central, r.central));
  }

  /** Merging on the center keeps to what it found in the same way. */
  lemma CenterKeys(l: Statistic, r: Statistic, p: real, u: string, t: real)
    requires u in l.stat.tables + r.stat.tables && p > 1.0 && t >= 1.0
    ensures MergesOn(WithCenter(l), WithCenter(r), CENTER)
    ensures KeysAbove(CenterMerged(l, r, p).stat.edges[u], p * t) <= KeysAbove(MergedItems(WithCenter(l), WithCenter(r), CENTER, u), t)
  {
    WithCenterOk(l);
    WithCenterOk(r);
    MergedKeys(WithCenter(l), WithCenter(r), CENTER, u, p, t, p * t);
  }

  /** It is what closing the central sequence in hand gives. */
  lemma FinishedCentral(db: Star.Database, entries: seq<Star.TableColumn>, sub: seq<Star.TableColumn>, cn: Single.CountNum,
                        vals: seq<int>, p: real, slots: seq<Slot>, card: int)
    requires Edges.Source(db, entries, sub, cn) && KeysListed(db, sub, vals)
    requires slots == AddAll([], Collected.CentralItems(cn, Star.TableNames(sub)), p) && card == Collected.TotalCard(cn, Star.TableNames(sub))
    ensures forall k :: 0 <= k < |slots| ==> slots[k].maxDegree >= 0.0
    ensures Collected.Finished(slots, card as real) == CentralBins(db, entries, sub, cn, p)
    ensures Dominates(Expand(Collected.Finished(slots, card as real)), CenterDegrees(db, sub, vals))
  {
    CentralOk(db, entries, sub, cn, p);
    AddAllWhole([], Collected.CentralItems(cn, Star.TableNames(sub)), p);
    CentralDominates(db, entries, sub, cn, vals, p);
  }

  // ---- The results of a part, with the key as a row of the center ----

  function CenterTo(db: Star.Database, sub: seq<Star.TableColumn>, vals: seq<int>, k: nat): seq<Tuple>
    requires k <= |vals|
  {
    if k == 0 then [] else CenterTo(db, sub, vals, k - 1) + Extend(Combinations(db, sub, vals[k - 1]), CENTER, k - 1)
  }

  function CenterResults(db: Star.Database, sub: seq<Star.TableColumn>, vals: seq<int>): seq<Tuple> {
    CenterTo(db, sub, vals, |vals|)
  }

  /** The sizes of the tables, the center included. */
  function SizesWith(db: Star.Database, n: nat): string -> nat {
    t => if t == CENTER then n else |Lookup(db, t)|
  }

  lemma {:induction false} CenterRow(db: Star.Database, sub: seq<Star.TableColumn>, vals: seq<int>, k: nat, r: int)
    requires k <= |vals|
    ensures Multiplicity(CenterTo(db, sub, vals, k), RowAt(CENTER), r) == if 0 <= r < k then Star.DegreeProduct(db, sub, vals[r]) else 0
  {
    if k > 0 {
      CenterRow(db, sub, vals, k - 1, r);
      ExtendOwn(Combinations(db, sub, vals[k - 1]), CENTER, k - 1, r);
      CombinationsSize(db, sub, vals[k - 1]);
      MultiplicityAppend(CenterTo(db, sub, vals, k - 1), Extend(Combinations(db, sub, vals[k - 1]), CENTER, k - 1), RowAt(CENTER), r);
    }
  }

  /** Apart from the center they are the star's results. */
  lemma {:induction false} OtherRows(db: Star.Database, sub: seq<Star.TableColumn>, vals: seq<int>, k: nat, t: string, r: int)
    requires k <= |vals| && t != CENTER
    ensures Multiplicity(CenterResults(db, sub, vals), RowAt(t), r) ==
            Multiplicity(CenterTo(db, sub, vals, k), RowAt(t), r) + Multiplicity(StarResults(db, sub, vals[k..]), RowAt(t), r)
    decreases |vals| - k
  {
    if k == |vals| {
      assert vals[k..] == [];
    } else {
      OtherRows(db, sub, vals, k + 1, t, r);
      var here := Combinations(db, sub, vals[k]);
      MultiplicityAppend(CenterTo(db, sub, vals, k), Extend(here, CENTER, k), RowAt(t), r);
      ExtendOther(here, CENTER, k, t, r);
      assert vals[k..][0] == vals[k] && vals[k..][1..] == vals[k + 1..];
      MultiplicityAppend(here, StarResults(db, sub, vals[k + 1..]), RowAt(t), r);
    }
  }

  lemma OtherRow(db: Star.Database, sub: seq<Star.TableColumn>, vals: seq<int>, t: string, r: int)
    requires t != CENTER
    ensures Multiplicity(CenterResults(db, sub, vals), RowAt(t), r) == Multiplicity(StarResults(db, sub, vals), RowAt(t), r)
  {
    OtherRows(db, sub, vals, 0, t, r);
    assert vals[0..] == vals;
  }

  lemma {:induction false} CenterSized(db: Star.Database, sub: seq<Star.TableColumn>, vals: seq<int>, k: nat)
    requires k <= |vals| && CENTER !in TableSet(sub)
    ensures Sized(CenterTo(db, sub, vals, k), TableSet(sub) + {CENTER}, SizesWith(db, |vals|))
  {
    if k > 0 {
      CenterSized(db, sub, vals, k - 1);
      CombinationsSized(db, sub, vals[k - 1]);
      var a, xs := CenterTo(db, sub, vals, k - 1), Combinations(db, sub, vals[k - 1]);
      var b := Extend(xs, CENTER, k - 1);
      forall i | 0 <= i < |a + b| ensures SizedTuple((a + b)[i], TableSet(sub) + {CENTER}, SizesWith(db, |vals|)) {
        if i < |a| {
          assert (a + b)[i] == a[i];
        } else {
          assert (a + b)[i] == b[i - |a|] && SizedTuple(xs[i - |a|], TableSet(sub), SizesOf(db));
        }
      }
    }
  }

  /** A part of a star, with the counts it was collected from. */
  datatype Piece = Piece(entries: seq<Star.TableColumn>, sub: seq<Star.TableColumn>, cn: Single.CountNum)

  ghost predicate PartOk(db: Star.Database, part: Piece) {
    Edges.Source(db, part.entries, part.sub, part.cn) && CENTER !in TableSet(part.sub)
  }

  ghost function PartStatistic(db: Star.Database, part: Piece, p: real): (c: Statistic)
    requires PartOk(db, part)
    ensures c.stat.tables == TableSet(part.sub)
  {
    Centered(StarSummaryOf(db, part.entries, part.sub, part.cn, p), CentralBins(db, part.entries, part.sub, part.cn, p))
  }

  lemma SameDegrees(xs: seq<Tuple>, ys: seq<Tuple>, t: string, n: nat)
    requires forall r :: 0 <= r < n ==> Multiplicity(xs, RowAt(t), r) == Multiplicity(ys, RowAt(t), r)
    ensures Degrees(xs, RowAt(t), n) == Degrees(ys, RowAt(t), n)
  {
  }

  lemma PartRows(db: Star.Database, part: Piece, vals: seq<int>, p: real, t: string)
    requires PartOk(db, part) && KeysListed(db, part.sub, vals) && t in TableSet(part.sub)
    ensures EdgeBounds(PartStatistic(db, part, p).stat.edges[t], CenterResults(db, part.sub, vals), t, |Lookup(db, t)|)
  {
    var pivots := Values(db, part.entries);
    StarBounded(db, part.entries, part.sub, part.cn, p);
    PivotKeys(db, part.entries, part.sub, part.cn);
    RowsByKeys(db, part.sub, vals, pivots, t);
  }

  lemma RowsByKeys(db: Star.Database, sub: seq<Star.TableColumn>, vals: seq<int>, others: seq<int>, t: string)
    requires Star.DistinctTables(sub) && KeysListed(db, sub, vals) && KeysListed(db, sub, others) && t in TableSet(sub) && t != CENTER
    ensures Degrees(CenterResults(db, sub, vals), RowAt(t), |Lookup(db, t)|) == Degrees(StarResults(db, sub, others), RowAt(t), |Lookup(db, t)|)
  {
    var i := IndexOf(sub, t);
    forall r | 0 <= r < |Lookup(db, t)|
      ensures Multiplicity(CenterResults(db, sub, vals), RowAt(t), r) == Multiplicity(StarResults(db, sub, others), RowAt(t), r)
    {
      OtherRow(db, sub, vals, t, r);
      RowByKeys(db, sub, vals, others, i, r);
    }
    SameDegrees(CenterResults(db, sub, vals), StarResults(db, sub, others), t, |Lookup(db, t)|);
  }

  lemma RowByKeys(db: Star.Database, sub: seq<Star.TableColumn>, vals: seq<int>, others: seq<int>, i: nat, r: int)
    requires Star.DistinctTables(sub) && i < |sub| && KeysListed(db, sub, vals) && KeysListed(db, sub, others)
    requires 0 <= r < |Lookup(db, sub[i].table)|
    ensures Multiplicity(StarResults(db, sub, vals), RowAt(sub[i].table), r) == Multiplicity(StarResults(db, sub, others), RowAt(sub[i].table), r)
  {
    ResultsRow(db, sub, vals, i, r);
    ResultsRow(db, sub, others, i, r);
    var rows := Lookup(db, sub[i].table);
    if Get(rows[r], sub[i].column).Val? {
      var v := Get(rows[r], sub[i].column).v;
      MultiplicityPositive(rows, Star.CellOf(sub[i].column), rows[r]);
      KeyProduct(db, sub, i, v);
    }
  }

  /** A key of one table is a key of the star, or the other tables lack it. */
  lemma {:induction false} KeyProduct(db: Star.Database, sub: seq<Star.TableColumn>, i: nat, v: int)
    requires i < |sub|
    ensures Star.DegreeProduct(db, sub, v) == Star.Degree(db, sub[i], v) * Star.DegreeProduct(db, Edges.Others(sub, i), v)
    ensures Star.Degree(db, sub[i], v) > 0 && Star.DegreeProduct(db, Edges.Others(sub, i), v) > 0 ==> Star.DegreeProduct(db, sub, v) > 0
  {
    if i == 0 {
      assert Edges.Others(sub, 0) == sub[1..];
    } else {
      KeyProduct(db, sub[1..], i - 1, v);
      OthersProduct(db, sub, v, i);
      Rearranged(Star.Degree(db, sub[0], v), Star.Degree(db, sub[i], v), Star.DegreeProduct(db, Edges.Others(sub[1..], i - 1), v));
    }
    PositiveBoth(Star.Degree(db, sub[i], v), Star.DegreeProduct(db, Edges.Others(sub, i), v));
  }

  lemma Rearranged(x: nat, y: nat, z: nat)
    ensures x * (y * z) == y * (x * z)
  {
  }

  lemma PositiveBoth(x: nat, y: nat)
    ensures x > 0 && y > 0 ==> x * y > 0
  {
  }

  lemma CenterColumn(db: Star.Database, sub: seq<Star.TableColumn>, vals: seq<int>)
    ensures Degrees(CenterResults(db, sub, vals), RowAt(CENTER), |vals|) == CenterDegrees(db, sub, vals)
  {
    forall r | 0 <= r < |vals|
      ensures Degrees(CenterResults(db, sub, vals), RowAt(CENTER), |vals|)[r] == CenterDegrees(db, sub, vals)[r]
    {
      CenterRow(db, sub, vals, |vals|, r);
    }
  }

  lemma PartCard(db: Star.Database, part: Piece, vals: seq<int>, p: real)
    requires PartOk(db, part) && KeysListed(db, part.sub, vals)
    ensures |CenterResults(db, part.sub, vals)| as real == PartStatistic(db, part, p).stat.card
  {
    CenterSized(db, part.sub, vals, |vals|);
    DegreesSum(CenterResults(db, part.sub, vals), TableSet(part.sub) + {CENTER}, SizesWith(db, |vals|), CENTER);
    CenterColumn(db, part.sub, vals);
    CenterSum(db, part.sub, vals);
    Edges.CardExact(db, part.entries, part.sub, part.cn);
  }

  lemma PartCenter(db: Star.Database, part: Piece, vals: seq<int>, p: real)
    requires PartOk(db, part) && KeysListed(db, part.sub, vals)
    ensures EdgeBounds(PartStatistic(db, part, p).central, CenterResults(db, part.sub, vals), CENTER, |vals|)
  {
    CentralDominates(db, part.entries, part.sub, part.cn, vals, p);
    CenterColumn(db, part.sub, vals);
  }

  /** The statistic of a part, with its central sequence, bounds its results with their keys. */
  lemma PartSummaryOk(db: Star.Database, part: Piece, p: real)
    requires PartOk(db, part)
    ensures SummaryOk(WithCenter(PartStatistic(db, part, p)))
  {
    WithCenterOk(PartStatistic(db, part, p));
  }

  /** The sequences of a statistic with its center, one by one. */
  lemma CenteredEdge(db: Star.Database, c: Centered, xs: seq<Tuple>, n: nat, t: string)
    requires CenteredOk(c) && t in c.stat.tables + {CENTER}
    requires t == CENTER ==> EdgeBounds(c.central, xs, t, n)
    requires t != CENTER ==> EdgeBounds(c.stat.edges[t], xs, t, |Lookup(db, t)|)
    ensures t in WithCenter(c).edges && EdgeBounds(WithCenter(c).edges[t], xs, t, SizesWith(db, n)(t))
  {
    WithCenterOk(c);
    if t == CENTER {
      assert SizesWith(db, n)(t) == n;
    } else {
      assert SizesWith(db, n)(t) == |Lookup(db, t)|;
    }
  }

  lemma PartEdge(db: Star.Database, part: Piece, vals: seq<int>, p: real, t: string, c: Centered, xs: seq<Tuple>)
    requires PartOk(db, part) && KeysListed(db, part.sub, vals) && c == PartStatistic(db, part, p)
    requires xs == CenterResults(db, part.sub, vals) && t in c.stat.tables + {CENTER}
    ensures CenteredOk(c) && t in WithCenter(c).edges && EdgeBounds(WithCenter(c).edges[t], xs, t, SizesWith(db, |vals|)(t))
  {
    if t == CENTER {
      PartCenter(db, part, vals, p);
    } else {
      PartRows(db, part, vals, p, t);
    }
    CenteredEdge(db, c, xs, |vals|, t);
  }

  lemma BoundsIf(s: Summary, xs: seq<Tuple>, sizes: string -> nat)
    requires SummaryOk(s) && Sized(xs, s.tables, sizes) && |xs| as real <= s.card
    requires forall t :: t in s.tables ==> EdgeBounds(s.edges[t], xs, t, sizes(t))
    ensures Bounds(s, xs, sizes)
  {
  }

  lemma PartBounded(db: Star.Database, part: Piece, vals: seq<int>, p: real)
    requires PartOk(db, part) && KeysListed(db, part.sub, vals)
    ensures Bounds(WithCenter(PartStatistic(db, part, p)), CenterResults(db, part.sub, vals), SizesWith(db, |vals|))
  {
    var c, xs, sizes := PartStatistic(db, part, p), CenterResults(db, part.sub, vals), SizesWith(db, |vals|);
    var s := WithCenter(c);
    PartSummaryOk(db, part, p);
    CenterSized(db, part.sub, vals, |vals|);
    PartCard(db, part, vals, p);
    forall t | t in s.tables ensures EdgeBounds(s.edges[t], xs, t, sizes(t)) {
      PartEdge(db, part, vals, p, t, c, xs);
    }
    BoundsIf(s, xs, sizes);
  }

  // ---- Two parts ----

  lemma CombinationsLack(db: Star.Database, sub: seq<Star.TableColumn>, v: int)
    requires Star.DistinctTables(sub) && CENTER !in TableSet(sub)
    ensures Lacking(Combinations(db, sub, v), CENTER) && Distinct(Combinations(db, sub, v))
  {
    CombinationsList(db, sub, v);
  }

  lemma {:induction false} CenterMember(db: Star.Database, sub: seq<Star.TableColumn>, vals: seq<int>, k: nat, z: Tuple)
    requires k <= |vals| && Star.DistinctTables(sub) && CENTER !in TableSet(sub)
    ensures z in CenterTo(db, sub, vals, k) <==> PicksKey(db, sub, vals, k, z)
  {
    if k > 0 {
      CenterMember(db, sub, vals, k - 1, z);
      PicksKeyStep(db, sub, vals, k, z);
    }
  }

  /** `z` picks one of the first `k` keys, and rows that carry it. */
  ghost predicate PicksKey(db: Star.Database, sub: seq<Star.TableColumn>, vals: seq<int>, k: nat, z: Tuple)
    requires k <= |vals|
  {
    CENTER in z && 0 <= z[CENTER] < k && z - {CENTER} in Combinations(db, sub, vals[z[CENTER]])
  }

  lemma PicksKeyStep(db: Star.Database, sub: seq<Star.TableColumn>, vals: seq<int>, k: nat, z: Tuple)
    requires 0 < k <= |vals| && Star.DistinctTables(sub) && CENTER !in TableSet(sub)
    ensures PicksKey(db, sub, vals, k, z) <==>
            PicksKey(db, sub, vals, k - 1, z) || z in Extend(Combinations(db, sub, vals[k - 1]), CENTER, k - 1)
  {
    CombinationsLack(db, sub, vals[k - 1]);
    ExtendWithout(Combinations(db, sub, vals[k - 1]), CENTER, k - 1, z);
    if CENTER in z && z[CENTER] != k - 1 {
      assert PicksKey(db, sub, vals, k, z) <==> PicksKey(db, sub, vals, k - 1, z);
    }
  }

  lemma EarlierCenters(db: Star.Database, sub: seq<Star.TableColumn>, vals: seq<int>, k: nat)
    requires k < |vals| && Star.DistinctTables(sub) && CENTER !in TableSet(sub)
    ensures forall z :: z in CenterTo(db, sub, vals, k) ==> z !in Extend(Combinations(db, sub, vals[k]), CENTER, k)
    ensures Distinct(Extend(Combinations(db, sub, vals[k]), CENTER, k))
  {
    CombinationsLack(db, sub, vals[k]);
    ExtendDistinct(Combinations(db, sub, vals[k]), CENTER, k);
    forall z | z in CenterTo(db, sub, vals, k) ensures z !in Extend(Combinations(db, sub, vals[k]), CENTER, k) {
      CenterMember(db, sub, vals, k, z);
      ExtendWithout(Combinations(db, sub, vals[k]), CENTER, k, z);
    }
  }

  lemma {:induction false} CenterDistinct(db: Star.Database, sub: seq<Star.TableColumn>, vals: seq<int>, k: nat)
    requires k <= |vals| && Star.DistinctTables(sub) && CENTER !in TableSet(sub)
    ensures Distinct(CenterTo(db, sub, vals, k))
  {
    if k > 0 {
      CenterDistinct(db, sub, vals, k - 1);
      NextKeyDistinct(db, sub, vals, k);
    }
  }

  lemma NextKeyDistinct(db: Star.Database, sub: seq<Star.TableColumn>, vals: seq<int>, k: nat)
    requires 0 < k <= |vals| && Star.DistinctTables(sub) && CENTER !in TableSet(sub) && Distinct(CenterTo(db, sub, vals, k - 1))
    ensures Distinct(CenterTo(db, sub, vals, k))
  {
    EarlierCenters(db, sub, vals, k - 1);
    DistinctAppend(CenterTo(db, sub, vals, k - 1), Extend(Combinations(db, sub, vals[k - 1]), CENTER, k - 1));
  }

  /** The star's key at the row of the center. */
  ghost predicate AtKey(db: Star.Database, sub: seq<Star.TableColumn>, vals: seq<int>, z: Tuple) {
    CENTER in z && 0 <= z[CENTER] < |vals| && AllHave(db, sub, z, vals[z[CENTER]])
  }

  lemma AllHaveLess(db: Star.Database, sub: seq<Star.TableColumn>, z: Tuple, v: int)
    requires CENTER !in TableSet(sub)
    ensures AllHave(db, sub, z - {CENTER}, v) <==> AllHave(db, sub, z, v)
  {
    forall e | e in sub ensures e.table != CENTER {
      assert e.table in TableSet(sub);
    }
  }

  lemma CenterListed(db: Star.Database, sub: seq<Star.TableColumn>, vals: seq<int>, z: Tuple)
    requires Star.DistinctTables(sub) && CENTER !in TableSet(sub)
    ensures z in CenterResults(db, sub, vals) <==> z.Keys == TableSet(sub) + {CENTER} && AtKey(db, sub, vals, z)
  {
    CenterMember(db, sub, vals, |vals|, z);
    if CENTER in z && 0 <= z[CENTER] < |vals| {
      var v := vals[z[CENTER]];
      CombinationsList(db, sub, v);
      AllHaveLess(db, sub, z, v);
      assert (z - {CENTER}).Keys == z.Keys - {CENTER};
    }
  }

  lemma CenterOver(db: Star.Database, sub: seq<Star.TableColumn>, vals: seq<int>)
    requires Star.DistinctTables(sub) && CENTER !in TableSet(sub)
    ensures AllOver(CenterResults(db, sub, vals), TableSet(sub) + {CENTER}) && Distinct(CenterResults(db, sub, vals))
  {
    CenterDistinct(db, sub, vals, |vals|);
    forall z | z in CenterResults(db, sub, vals) ensures z.Keys == TableSet(sub) + {CENTER} {
      CenterListed(db, sub, vals, z);
    }
  }

  ghost predicate TwoStars(sub: seq<Star.TableColumn>, more: seq<Star.TableColumn>) {
    && Star.DistinctTables(sub) && Star.DistinctTables(more) && TableSet(sub) * TableSet(more) == {}
    && CENTER !in TableSet(sub) && CENTER !in TableSet(more)
  }

  lemma AtKeyPart(db: Star.Database, sub: seq<Star.TableColumn>, vals: seq<int>, z: Tuple, tables: set<string>)
    requires TableSet(sub) <= tables && CENTER in tables
    ensures AtKey(db, sub, vals, PlanCounts.Part(z, tables)) <==> AtKey(db, sub, vals, z)
  {
    if CENTER in z && 0 <= z[CENTER] < |vals| {
      AllHavePart(db, sub, z, vals[z[CENTER]], tables);
    }
  }

  function CenterJoin(db: Star.Database, sub: seq<Star.TableColumn>, more: seq<Star.TableColumn>, vals: seq<int>): seq<Tuple> {
    Join(CenterResults(db, sub, vals), CenterResults(db, more, vals))
  }

  lemma CenterJoinMember(db: Star.Database, sub: seq<Star.TableColumn>, more: seq<Star.TableColumn>, vals: seq<int>, z: Tuple)
    requires TwoStars(sub, more)
    ensures z in CenterJoin(db, sub, more, vals) <==>
            z.Keys == TableSet(sub) + TableSet(more) + {CENTER} && AtKey(db, sub, vals, z) && AtKey(db, more, vals, z)
  {
    var ts, us := TableSet(sub) + {CENTER}, TableSet(more) + {CENTER};
    CenterOver(db, sub, vals);
    CenterOver(db, more, vals);
    JoinMember(CenterResults(db, sub, vals), CenterResults(db, more, vals), ts, us, z);
    CenterListed(db, sub, vals, PlanCounts.Part(z, ts));
    CenterListed(db, more, vals, PlanCounts.Part(z, us));
    AtKeyPart(db, sub, vals, z, ts);
    AtKeyPart(db, more, vals, z, us);
    assert ts + us == TableSet(sub) + TableSet(more) + {CENTER};
    if z.Keys == ts + us {
      PartsBack(z, ts, us);
    }
  }

  /** The results without the center. */
  function Drop(xs: seq<Tuple>): (ys: seq<Tuple>)
    ensures |ys| == |xs| && forall i :: 0 <= i < |ys| ==> ys[i] == xs[i] - {CENTER}
  {
    if xs == [] then [] else Drop(xs[..|xs| - 1]) + [xs[|xs| - 1] - {CENTER}]
  }

  lemma {:induction false} DropRows(xs: seq<Tuple>, t: string, r: int)
    requires t != CENTER
    ensures Multiplicity(Drop(xs), RowAt(t), r) == Multiplicity(xs, RowAt(t), r)
  {
    if xs != [] {
      var k := |xs| - 1;
      DropRows(xs[..k], t, r);
      MultiplicitySnoc(xs, RowAt(t), r);
      MultiplicitySnoc(Drop(xs), RowAt(t), r);
      assert Drop(xs)[..k] == Drop(xs[..k]);
    }
  }

  lemma AllHaveBoth(db: Star.Database, sub: seq<Star.TableColumn>, more: seq<Star.TableColumn>, z: Tuple, v: int)
    ensures AllHave(db, sub + more, z, v) <==> AllHave(db, sub, z, v) && AllHave(db, more, z, v)
  {
    var all := sub + more;
    forall e ensures e in all <==> e in sub || e in more {
    }
  }

  lemma JoinedAt(db: Star.Database, sub: seq<Star.TableColumn>, more: seq<Star.TableColumn>, vals: seq<int>, z: Tuple)
    requires TwoStars(sub, more) && z in CenterJoin(db, sub, more, vals)
    ensures CENTER in z && 0 <= z[CENTER] < |vals| && AllHave(db, sub + more, z - {CENTER}, vals[z[CENTER]])
    ensures (z - {CENTER}).Keys == TableSet(sub) + TableSet(more)
  {
    CenterJoinMember(db, sub, more, vals, z);
    var v := vals[z[CENTER]];
    AllHaveBoth(db, sub, more, z - {CENTER}, v);
    AllHaveLess(db, sub, z, v);
    AllHaveLess(db, more, z, v);
  }

  lemma JoinedFrom(db: Star.Database, sub: seq<Star.TableColumn>, more: seq<Star.TableColumn>, vals: seq<int>, w: Tuple, k: nat)
    requires TwoStars(sub, more) && w.Keys == TableSet(sub) + TableSet(more) && k < |vals| && AllHave(db, sub + more, w, vals[k])
    ensures w[CENTER := k] in CenterJoin(db, sub, more, vals) && w[CENTER := k] - {CENTER} == w
  {
    var z := w[CENTER := k];
    assert z - {CENTER} == w;
    assert AllHave(db, sub, z, vals[k]) && AllHave(db, more, z, vals[k]) by {
      AllHaveBoth(db, sub, more, w, vals[k]);
      AllHaveLess(db, sub, z, vals[k]);
      AllHaveLess(db, more, z, vals[k]);
    }
    assert z.Keys == TableSet(sub) + TableSet(more) + {CENTER};
    CenterJoinMember(db, sub, more, vals, z);
  }

  lemma TablesSum(sub: seq<Star.TableColumn>, more: seq<Star.TableColumn>)
    requires TwoStars(sub, more)
    ensures TableSet(sub + more) == TableSet(sub) + TableSet(more) && Star.DistinctTables(sub + more)
  {
    var all := sub + more;
    forall e ensures e in all <==> e in sub || e in more {
    }
    forall t | t in TableSet(sub) ensures t !in TableSet(more) {
      assert t in TableSet(more) ==> t in TableSet(sub) * TableSet(more);
    }
    forall i, j | 0 <= i < j < |all| ensures all[i].table != all[j].table {
      if i < |sub| <= j {
        assert all[i] in sub && all[j] in more;
        assert all[i].table in TableSet(sub) && all[j].table in TableSet(more);
      }
    }
  }

  lemma DropInto(db: Star.Database, sub: seq<Star.TableColumn>, more: seq<Star.TableColumn>, vals: seq<int>, z: Tuple)
    requires TwoStars(sub, more) && sub != [] && Distinct(vals) && z in CenterJoin(db, sub, more, vals)
    ensures z - {CENTER} in StarResults(db, sub + more, vals)
  {
    TablesSum(sub, more);
    StarList(db, sub + more, vals);
    JoinedAt(db, sub, more, vals, z);
    assert SharesKey(db, sub + more, vals, z - {CENTER});
  }

  lemma DropFrom(db: Star.Database, sub: seq<Star.TableColumn>, more: seq<Star.TableColumn>, vals: seq<int>, w: Tuple) returns (z: Tuple)
    requires TwoStars(sub, more) && sub != [] && Distinct(vals) && w in StarResults(db, sub + more, vals)
    ensures z in CenterJoin(db, sub, more, vals) && z - {CENTER} == w
  {
    TablesSum(sub, more);
    StarList(db, sub + more, vals);
    var v :| v in vals && AllHave(db, sub + more, w, v);
    var k :| 0 <= k < |vals| && vals[k] == v;
    JoinedFrom(db, sub, more, vals, w, k);
    z := w[CENTER := k];
  }

  lemma {:induction false} DropElements(xs: seq<Tuple>, z: Tuple)
    ensures z in xs ==> z - {CENTER} in Drop(xs)
    ensures forall w :: w in Drop(xs) ==> exists y :: y in xs && y - {CENTER} == w
  {
    var ys := Drop(xs);
    if z in xs {
      var i :| 0 <= i < |xs| && xs[i] == z;
      assert ys[i] == z - {CENTER};
    }
    forall w | w in ys ensures exists y :: y in xs && y - {CENTER} == w {
      var i :| 0 <= i < |ys| && ys[i] == w;
      assert xs[i] in xs;
    }
  }

  /** Without the center, joining the parts on it gives the results of the whole star. */
  lemma DropMember(db: Star.Database, sub: seq<Star.TableColumn>, more: seq<Star.TableColumn>, vals: seq<int>, w: Tuple)
    requires TwoStars(sub, more) && sub != [] && Distinct(vals)
    ensures w in Drop(CenterJoin(db, sub, more, vals)) <==> w in StarResults(db, sub + more, vals)
  {
    var joined := CenterJoin(db, sub, more, vals);
    if w in Drop(joined) {
      DropElements(joined, w);
      var z :| z in joined && z - {CENTER} == w;
      DropInto(db, sub, more, vals, z);
    }
    if w in StarResults(db, sub + more, vals) {
      var z := DropFrom(db, sub, more, vals, w);
      DropElements(joined, z);
    }
  }

  lemma PutBack(y: Tuple, k: int)
    requires CENTER in y && y[CENTER] == k
    ensures y == (y - {CENTER})[CENTER := k]
  {
  }

  lemma SameDropped(db: Star.Database, sub: seq<Star.TableColumn>, more: seq<Star.TableColumn>, vals: seq<int>, y: Tuple, z: Tuple)
    requires TwoStars(sub, more) && sub != [] && Distinct(vals) && y - {CENTER} == z - {CENTER}
    requires y in CenterJoin(db, sub, more, vals) && z in CenterJoin(db, sub, more, vals)
    ensures y == z
  {
    JoinedAt(db, sub, more, vals, y);
    JoinedAt(db, sub, more, vals, z);
    OneKey(db, sub + more, y - {CENTER}, vals[y[CENTER]], vals[z[CENTER]]);
    PutBack(y, y[CENTER]);
    PutBack(z, y[CENTER]);
  }

  lemma DropDistinct(db: Star.Database, sub: seq<Star.TableColumn>, more: seq<Star.TableColumn>, vals: seq<int>)
    requires TwoStars(sub, more) && sub != [] && Distinct(vals)
    ensures Distinct(Drop(CenterJoin(db, sub, more, vals)))
  {
    var joined := CenterJoin(db, sub, more, vals);
    CenterOver(db, sub, vals);
    CenterOver(db, more, vals);
    JoinDistinct(CenterResults(db, sub, vals), CenterResults(db, more, vals), TableSet(sub) + {CENTER}, TableSet(more) + {CENTER});
    forall i, j | 0 <= i < j < |joined| ensures Drop(joined)[i] != Drop(joined)[j] {
      assert joined[i] in joined && joined[j] in joined;
      if Drop(joined)[i] == Drop(joined)[j] {
        SameDropped(db, sub, more, vals, joined[i], joined[j]);
      }
    }
  }

  function HasRow(t: string, r: int): Tuple -> bool {
    x => RowAt(t)(x) == r
  }

  lemma {:induction false} SelectRows(xs: seq<Tuple>, t: string, r: int)
    requires Distinct(xs)
    ensures Distinct(Select(xs, HasRow(t, r))) && |Select(xs, HasRow(t, r))| == Multiplicity(xs, RowAt(t), r)
  {
    if xs != [] {
      SelectRows(xs[1..], t, r);
      var rest := Select(xs[1..], HasRow(t, r));
      assert xs[0] !in rest by {
        SelectMember(xs[1..], HasRow(t, r), xs[0]);
      }
      if HasRow(t, r)(xs[0]) {
        DistinctAppend([xs[0]], rest);
      }
    }
  }

  /** Two lists of the same tuples, each once, have the same degrees. */
  lemma SameRows(xs: seq<Tuple>, ys: seq<Tuple>, t: string, n: nat)
    requires Distinct(xs) && Distinct(ys) && forall z :: z in xs <==> z in ys
    ensures Degrees(xs, RowAt(t), n) == Degrees(ys, RowAt(t), n)
  {
    forall r | 0 <= r < n ensures Multiplicity(xs, RowAt(t), r) == Multiplicity(ys, RowAt(t), r) {
      SelectRows(xs, t, r);
      SelectRows(ys, t, r);
      forall z ensures z in Select(xs, HasRow(t, r)) <==> z in Select(ys, HasRow(t, r)) {
        SelectMember(xs, HasRow(t, r), z);
        SelectMember(ys, HasRow(t, r), z);
      }
      SameLength(Select(xs, HasRow(t, r)), Select(ys, HasRow(t, r)));
    }
    SameDegrees(xs, ys, t, n);
  }

  lemma DropDegrees(xs: seq<Tuple>, t: string, n: nat)
    requires t != CENTER
    ensures Degrees(Drop(xs), RowAt(t), n) == Degrees(xs, RowAt(t), n)
  {
    forall r | 0 <= r < n ensures Multiplicity(Drop(xs), RowAt(t), r) == Multiplicity(xs, RowAt(t), r) {
      DropRows(xs, t, r);
    }
    SameDegrees(Drop(xs), xs, t, n);
  }

  ghost predicate TwoPieces(db: Star.Database, a: Piece, b: Piece) {
    PartOk(db, a) && PartOk(db, b) && TwoStars(a.sub, b.sub)
  }

  lemma WholeRows(db: Star.Database, a: Piece, b: Piece, vals: seq<int>)
    requires TwoPieces(db, a, b) && Distinct(vals)
    ensures |CenterJoin(db, a.sub, b.sub, vals)| == |StarResults(db, a.sub + b.sub, vals)|
    ensures forall t :: t != CENTER ==> Degrees(CenterJoin(db, a.sub, b.sub, vals), RowAt(t), |Lookup(db, t)|) ==
                                        Degrees(StarResults(db, a.sub + b.sub, vals), RowAt(t), |Lookup(db, t)|)
  {
    var joined, whole := CenterJoin(db, a.sub, b.sub, vals), StarResults(db, a.sub + b.sub, vals);
    DropDistinct(db, a.sub, b.sub, vals);
    TablesSum(a.sub, b.sub);
    StarList(db, a.sub + b.sub, vals);
    forall w ensures w in Drop(joined) <==> w in whole {
      DropMember(db, a.sub, b.sub, vals, w);
    }
    SameLength(Drop(joined), whole);
    forall t | t != CENTER ensures Degrees(joined, RowAt(t), |Lookup(db, t)|) == Degrees(whole, RowAt(t), |Lookup(db, t)|) {
      DropDegrees(joined, t, |Lookup(db, t)|);
      SameRows(Drop(joined), whole, t, |Lookup(db, t)|);
    }
  }

  lemma WithoutCenterEdge(db: Star.Database, a: Piece, b: Piece, vals: seq<int>, bins: seq<Bin>, t: string)
    requires TwoPieces(db, a, b) && Distinct(vals) && t != CENTER
    requires EdgeBounds(bins, CenterJoin(db, a.sub, b.sub, vals), t, |Lookup(db, t)|)
    ensures EdgeBounds(bins, StarResults(db, a.sub + b.sub, vals), t, |Lookup(db, t)|)
  {
    WholeRows(db, a, b, vals);
  }

  /** What bounds the parts joined on the center bounds the whole star when the center is taken out. */
  lemma WithoutCenterBounds(db: Star.Database, a: Piece, b: Piece, vals: seq<int>, merged: Summary)
    requires TwoPieces(db, a, b) && Distinct(vals) && merged.tables == TableSet(a.sub) + TableSet(b.sub) + {CENTER}
    requires Bounds(merged, CenterJoin(db, a.sub, b.sub, vals), SizesWith(db, |vals|))
    ensures Bounds(WithoutCenter(merged), StarResults(db, a.sub + b.sub, vals), SizesOf(db))
  {
    var m, whole := WithoutCenter(merged), StarResults(db, a.sub + b.sub, vals);
    WithoutCenterFits(db, a, b, vals, merged);
    forall t | t in m.tables ensures EdgeBounds(m.edges[t], whole, t, SizesOf(db)(t)) {
      WithoutCenterAt(db, a, b, vals, merged, t);
    }
    BoundsIf(m, whole, SizesOf(db));
  }

  lemma WithoutCenterFits(db: Star.Database, a: Piece, b: Piece, vals: seq<int>, merged: Summary)
    requires TwoPieces(db, a, b) && Distinct(vals) && merged.tables == TableSet(a.sub) + TableSet(b.sub) + {CENTER}
    requires SummaryOk(merged) && |CenterJoin(db, a.sub, b.sub, vals)| as real <= merged.card
    ensures SummaryOk(WithoutCenter(merged)) && Sized(StarResults(db, a.sub + b.sub, vals), WithoutCenter(merged).tables, SizesOf(db))
    ensures |StarResults(db, a.sub + b.sub, vals)| as real <= WithoutCenter(merged).card
  {
    WithoutCenterWhole(merged);
    CenterTaken(TableSet(a.sub), TableSet(b.sub));
    WholeSized(db, a, b, vals);
    WholeRows(db, a, b, vals);
  }

  lemma WithoutCenterWhole(s: Summary)
    requires SummaryOk(s)
    ensures SummaryOk(WithoutCenter(s))
  {
    var m := WithoutCenter(s);
    assert m.edges.Keys == s.edges.Keys - {CENTER};
    forall t | t in m.tables ensures EdgeOk(m.edges[t]) {
      assert m.edges[t] == s.edges[t];
    }
  }

  lemma CenterTaken(a: set<string>, b: set<string>)
    requires CENTER !in a && CENTER !in b
    ensures a + b + {CENTER} - {CENTER} == a + b
  {
  }

  lemma WholeSized(db: Star.Database, a: Piece, b: Piece, vals: seq<int>)
    requires TwoPieces(db, a, b)
    ensures Sized(StarResults(db, a.sub + b.sub, vals), TableSet(a.sub) + TableSet(b.sub), SizesOf(db))
  {
    TablesSum(a.sub, b.sub);
    ResultsSized(db, a.sub + b.sub, vals);
  }

  lemma WithoutCenterAt(db: Star.Database, a: Piece, b: Piece, vals: seq<int>, merged: Summary, t: string)
    requires TwoPieces(db, a, b) && Distinct(vals) && t in WithoutCenter(merged).tables
    requires Bounds(merged, CenterJoin(db, a.sub, b.sub, vals), SizesWith(db, |vals|))
    ensures t in WithoutCenter(merged).edges
    ensures EdgeBounds(WithoutCenter(merged).edges[t], StarResults(db, a.sub + b.sub, vals), t, SizesOf(db)(t))
  {
    assert t in merged.tables && t != CENTER && WithoutCenter(merged).edges[t] == merged.edges[t];
    assert SizesWith(db, |vals|)(t) == |Lookup(db, t)| == SizesOf(db)(t);
    WithoutCenterEdge(db, a, b, vals, merged.edges[t], t);
  }

  lemma MergedTablesSum(a: set<string>, b: set<string>)
    ensures (a + {CENTER}) + (b + {CENTER}) == a + b + {CENTER}
  {
  }

  /** Two parts, merged on the center, bound the whole star: its cardinality and the rows of all its tables. */
  lemma TwoPartsBounded(db: Star.Database, a: Piece, b: Piece, vals: seq<int>, p: real)
    requires TwoPieces(db, a, b) && KeysListed(db, a.sub, vals) && KeysListed(db, b.sub, vals)
    ensures Bounds(CenterMerged(PartStatistic(db, a, p), PartStatistic(db, b, p), p).stat,
                   StarResults(db, a.sub + b.sub, vals), SizesOf(db))
  {
    var l, r := WithCenter(PartStatistic(db, a, p)), WithCenter(PartStatistic(db, b, p));
    PartBounded(db, a, vals, p);
    PartBounded(db, b, vals, p);
    MergedTablesSum(TableSet(a.sub), TableSet(b.sub));
    MergeBounded(l, r, CenterResults(db, a.sub, vals), CenterResults(db, b.sub, vals), CENTER, SizesWith(db, |vals|), p);
    WithoutCenterBounds(db, a, b, vals, Merged(l, r, CENTER, p));
  }

  lemma {:induction false} ProductAppend(db: Star.Database, sub: seq<Star.TableColumn>, more: seq<Star.TableColumn>, v: int)
    ensures Star.DegreeProduct(db, sub + more, v) == Star.DegreeProduct(db, sub, v) * Star.DegreeProduct(db, more, v)
  {
    if sub == [] {
      assert sub + more == more;
    } else {
      assert (sub + more)[1..] == sub[1..] + more && (sub + more)[0] == sub[0];
      ProductAppend(db, sub[1..], more, v);
      Associated(Star.Degree(db, sub[0], v), Star.DegreeProduct(db, sub[1..], v), Star.DegreeProduct(db, more, v));
    }
  }

  lemma Associated(x: nat, y: nat, z: nat)
    ensures x * (y * z) == (x * y) * z
  {
  }

  /** The keys of both parts. */
  lemma CommonKeys(db: Star.Database, a: Piece, b: Piece) returns (vals: seq<int>)
    requires TwoPieces(db, a, b)
    ensures KeysListed(db, a.sub, vals) && KeysListed(db, b.sub, vals) && KeysListed(db, a.sub + b.sub, vals)
  {
    PivotKeys(db, a.entries, a.sub, a.cn);
    var rows := Lookup(db, b.sub[0].table);
    vals := AllKeys(rows, b.sub[0].column, Values(db, a.entries));
    forall v | Star.DegreeProduct(db, b.sub, v) > 0 ensures v in vals {
      FirstDegree(db, b.sub, v);
      KeyInRows(rows, b.sub[0].column, v);
    }
    forall v | Star.DegreeProduct(db, a.sub + b.sub, v) > 0 ensures v in vals {
      ProductAppend(db, a.sub, b.sub, v);
      FactorPositive(Star.DegreeProduct(db, a.sub, v), Star.DegreeProduct(db, b.sub, v));
    }
  }

  lemma FactorPositive(x: nat, y: nat)
    requires x * y > 0
    ensures x > 0
  {
  }

  predicate Enough(card: real, size: nat) {
    size as real <= card
  }

  /** The cardinality of two parts is at least the size of the whole star. */
  lemma TwoPartsCard(db: Star.Database, a: Piece, b: Piece, p: real)
    requires TwoPieces(db, a, b)
    ensures Enough(CenterMerged(PartStatistic(db, a, p), PartStatistic(db, b, p), p).stat.card, Star.StarSize(db, a.sub + b.sub))
  {
    var vals := CommonKeys(db, a, b);
    TwoPartsBounded(db, a, b, vals, p);
    TablesSum(a.sub, b.sub);
    ResultsTotal(db, a.sub + b.sub, vals);
    StarTotal(db, a.sub + b.sub, vals);
  }

  // ---- More parts ----

  /** The loop of `GetStatisticsFromEset` over the parts that are left. */
  ghost function MergeRest(m: Statistic, rest: seq<Statistic>, p: real): Statistic
    decreases |rest|
  {
    if rest == [] then m else MergeRest(CenterMerged(m, rest[0], p), rest[1..], p)
  }

  method MergeParts(first: Statistic, rest: seq<Statistic>, p: real) returns (m: Statistic)
    ensures m == MergeRest(first, rest, p)
  {
    m := first;
    var left := rest;
    while left != []
      invariant MergeRest(m, left, p) == MergeRest(first, rest, p)
    {
      m := MergeByCenter(m, left[0], p);
      left := left[1..];
    }
  }

  /** A statistic without a central sequence gives cardinality 0, whatever it is merged with. */
  lemma NothingLeft(l: Statistic, r: Statistic, p: real)
    requires l.central == []
    ensures CenterMerged(l, r, p).stat.card == 0.0 && CenterMerged(l, r, p).central == []
  {
    WithCenterOk(l);
    WithCenterOk(r);
    assert Segments([], r.central) == [];
  }

  lemma {:induction false} NothingMerged(m: Statistic, rest: seq<Statistic>, p: real)
    requires m.central == [] && rest != []
    ensures MergeRest(m, rest, p).stat.card == 0.0
    decreases |rest|
  {
    NothingLeft(m, rest[0], p);
    if rest[1..] != [] {
      NothingMerged(CenterMerged(m, rest[0], p), rest[1..], p);
    }
  }

  // ---- Exactly when ----

  function Whole(parts: seq<Piece>): seq<Star.TableColumn> {
    if parts == [] then [] else parts[0].sub + Whole(parts[1..])
  }

  ghost function PartStatistics(db: Star.Database, parts: seq<Piece>, p: real): (cs: seq<Statistic>)
    requires forall i :: 0 <= i < |parts| ==> PartOk(db, parts[i])
    ensures |cs| == |parts| && forall i :: 0 <= i < |cs| ==> cs[i] == PartStatistic(db, parts[i], p)
  {
    seq(|parts|, i requires 0 <= i < |parts| => PartStatistic(db, parts[i], p))
  }

  ghost predicate Partition(db: Star.Database, parts: seq<Piece>) {
    && parts != [] && (forall i :: 0 <= i < |parts| ==> PartOk(db, parts[i]))
    && (forall i, j :: 0 <= i < j < |parts| ==> TwoStars(parts[i].sub, parts[j].sub))
  }

  /** The cardinality that `GetStatisticsFromEset` arrives at. */
  ghost function SplitCard(db: Star.Database, parts: seq<Piece>, p: real): real
    requires Partition(db, parts)
  {
    MergeRest(PartStatistic(db, parts[0], p), PartStatistics(db, parts[1..], p), p).stat.card
  }

  lemma OnePartCard(db: Star.Database, part: Piece, p: real)
    requires PartOk(db, part)
    ensures PartStatistic(db, part, p).stat.card == Star.StarSize(db, part.sub) as real
  {
    Edges.CardExact(db, part.entries, part.sub, part.cn);
  }

  lemma OneMerge(m: Statistic, c: Statistic, rest: seq<Statistic>, p: real)
    requires rest == [c]
    ensures MergeRest(m, rest, p) == CenterMerged(m, c, p)
  {
    assert rest[1..] == [];
    assert MergeRest(CenterMerged(m, c, p), [], p) == CenterMerged(m, c, p);
  }

  lemma TwoMerges(m: Statistic, rest: seq<Statistic>, p: real)
    requires |rest| >= 2
    ensures MergeRest(m, rest, p).stat.card == 0.0
  {
    NothingMerged(CenterMerged(m, rest[0], p), rest[1..], p);
  }

  lemma TwoPartsSplit(db: Star.Database, a: Piece, b: Piece, rest: seq<Statistic>, p: real)
    requires TwoPieces(db, a, b) && rest == [PartStatistic(db, b, p)]
    ensures Enough(MergeRest(PartStatistic(db, a, p), rest, p).stat.card, Star.StarSize(db, a.sub + b.sub))
  {
    TwoPartsCard(db, a, b, p);
    OneMerge(PartStatistic(db, a, p), PartStatistic(db, b, p), rest, p);
  }

  lemma ThreePartsSplit(db: Star.Database, parts: seq<Piece>, p: real)
    requires Partition(db, parts) && |parts| > 2
    ensures SplitCard(db, parts, p) == 0.0
  {
    TwoMerges(PartStatistic(db, parts[0], p), PartStatistics(db, parts[1..], p), p);
  }

  lemma WholeIs(parts: seq<Piece>)
    requires parts != [] && parts[0].sub != []
    ensures Whole(parts) != []
    ensures |parts| == 1 ==> Whole(parts) == parts[0].sub
    ensures |parts| == 2 ==> Whole(parts) == parts[0].sub + parts[1].sub
  {
    if |parts| == 1 {
      assert Whole(parts[1..]) == [];
    } else if |parts| == 2 {
      assert parts[1..][0] == parts[1] && parts[1..][1..] == [];
      assert Whole(parts[1..]) == parts[1].sub + [];
    }
  }

  /** The part that is looked up first, and the others. */
  ghost predicate Begins(db: Star.Database, parts: seq<Piece>, p: real, m: Statistic, rest: seq<Statistic>) {
    && Partition(db, parts) && m == PartStatistic(db, parts[0], p) && |rest| == |parts| - 1
    && (|parts| > 1 ==> rest[0] == PartStatistic(db, parts[1], p))
    && SplitCard(db, parts, p) == MergeRest(m, rest, p).stat.card
  }

  lemma Begin(db: Star.Database, parts: seq<Piece>, p: real) returns (m: Statistic, rest: seq<Statistic>)
    requires Partition(db, parts)
    ensures Begins(db, parts, p, m, rest)
  {
    m := PartStatistic(db, parts[0], p);
    rest := PartStatistics(db, parts[1..], p);
    assert |parts| > 1 ==> parts[1..][0] == parts[1];
  }

  lemma NoMerge(m: Statistic, rest: seq<Statistic>, p: real)
    requires rest == []
    ensures MergeRest(m, rest, p) == m
  {
  }

  lemma OnePartWhole(db: Star.Database, parts: seq<Piece>, p: real)
    requires Partition(db, parts) && |parts| == 1
    ensures Whole(parts) == parts[0].sub && Enough(SplitCard(db, parts, p), Star.StarSize(db, parts[0].sub))
  {
    WholeIs(parts);
    var m, rest := Begin(db, parts, p);
    NoMerge(m, rest, p);
    OnePartCard(db, parts[0], p);
  }

  lemma PiecesOf(db: Star.Database, parts: seq<Piece>)
    requires Partition(db, parts) && |parts| == 2
    ensures TwoPieces(db, parts[0], parts[1])
  {
  }

  lemma TwoPartsWhole(db: Star.Database, parts: seq<Piece>, p: real)
    requires Partition(db, parts) && |parts| == 2
    ensures Whole(parts) == parts[0].sub + parts[1].sub
    ensures Enough(SplitCard(db, parts, p), Star.StarSize(db, parts[0].sub + parts[1].sub))
  {
    WholeIs(parts);
    PiecesOf(db, parts);
    TwoPartsCounted(db, parts, parts[0], parts[1], p);
  }

  lemma TwoPartsCounted(db: Star.Database, parts: seq<Piece>, a: Piece, b: Piece, p: real)
    requires Partition(db, parts) && |parts| == 2 && a == parts[0] && b == parts[1] && TwoPieces(db, a, b)
    ensures Enough(SplitCard(db, parts, p), Star.StarSize(db, a.sub + b.sub))
  {
    var m, rest := Begin(db, parts, p);
    OneRest(rest);
    TwoPartsSplit(db, a, b, rest, p);
  }

  lemma OneRest(rest: seq<Statistic>)
    requires |rest| == 1
    ensures rest == [rest[0]]
  {
  }

  /** One or two parts are not underestimated; three or more are estimated at 0. */
  lemma PartsCard(db: Star.Database, parts: seq<Piece>, p: real)
    requires Partition(db, parts)
    ensures Whole(parts) != []
    ensures |parts| <= 2 ==> Enough(SplitCard(db, parts, p), Star.StarSize(db, Whole(parts)))
    ensures |parts| > 2 ==> SplitCard(db, parts, p) == 0.0
  {
    WholeIs(parts);
    if |parts| == 1 {
      OnePartWhole(db, parts, p);
    } else if |parts| == 2 {
      TwoPartsWhole(db, parts, p);
    } else {
      ThreePartsSplit(db, parts, p);
    }
  }
}

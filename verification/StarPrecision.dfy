/**
 How closely the stored statistics follow the degrees they bound: from above, no key is moved up by more than the precision
 allows, through collection, the chain of dots and merging.
 */
module StarPrecision {
  import opened RankBounds
  import opened DegreeSequences
  import opened CardLimit
  import opened MergeSpread
  import opened MergeChunks
  import opened MergeBounds
  import opened DegreePrecision
  import R = RealSums
  import Sql
  import Star = StarCollection
  import opened StarBounds
  import Collected = StarSummary
  import Edges = StarEdges
  import StarJoins
  import opened StarEstimation

  // ---- Counting what is above a threshold ----

  /** How many of the first `k` elements are above `t`. */
  function AboveTo(xs: seq<real>, t: real, k: nat): nat
    requires k <= |xs|
  {
    if k == 0 then 0 else AboveTo(xs, t, k - 1) + if xs[k - 1] > t then 1 else 0
  }

  function Above(xs: seq<real>, t: real): nat {
    AboveTo(xs, t, |xs|)
  }

  lemma {:induction false} AboveAppend(a: seq<real>, b: seq<real>, t: real, k: nat)
    requires k <= |b|
    ensures AboveTo(a + b, t, |a| + k) == Above(a, t) + AboveTo(b, t, k)
  {
    if k > 0 {
      AboveAppend(a, b, t, k - 1);
    } else {
      AbovePrefix(a, a + b, t, |a|);
    }
  }

  lemma {:induction false} AbovePrefix(a: seq<real>, b: seq<real>, t: real, k: nat)
    requires k <= |a| && k <= |b| && forall i :: 0 <= i < k ==> a[i] == b[i]
    ensures AboveTo(a, t, k) == AboveTo(b, t, k)
  {
    if k > 0 {
      AbovePrefix(a, b, t, k - 1);
    }
  }

  lemma {:induction false} AboveRun(d: real, c: nat, t: real, k: nat)
    requires k <= c
    ensures AboveTo(Run(d, c), t, k) == if d > t then k else 0
  {
    if k > 0 {
      AboveRun(d, c, t, k - 1);
    }
  }

  lemma {:induction false} ExpandAbove(bins: seq<Bin>, t: real)
    ensures Above(Expand(bins), t) == KeysAbove(bins, t)
  {
    if bins != [] {
      ExpandAbove(bins[1..], t);
      AboveRun(bins[0].degree, bins[0].count, t, bins[0].count);
      AboveAppend(Run(bins[0].degree, bins[0].count), Expand(bins[1..]), t, |Expand(bins[1..])|);
    }
  }

  /** In a descending sequence all up to a rank are above what the element there is above ... */
  lemma {:induction false} AllAbove(e: seq<real>, t: real, i: nat, k: nat)
    requires Descending(e) && i < |e| && e[i] > t && k <= |e|
    ensures AboveTo(e, t, k) >= if k <= i then k else i + 1
  {
    if k > 0 {
      AllAbove(e, t, i, k - 1);
      if k - 1 < i {
        assert e[k - 1] >= e[i];
      }
    }
  }

  /** ... and none from a rank on if the element there is not. */
  lemma {:induction false} NoneAbove(e: seq<real>, t: real, i: nat, k: nat)
    requires Descending(e) && i < |e| && e[i] <= t && k <= |e|
    ensures AboveTo(e, t, k) <= i
  {
    if k > 0 {
      NoneAbove(e, t, i, k - 1);
      if k - 1 > i {
        assert e[i] >= e[k - 1];
      } else {
        AboveAtMost(e, t, k);
      }
    }
  }

  lemma {:induction false} AboveAtMost(e: seq<real>, t: real, k: nat)
    requires k <= |e|
    ensures AboveTo(e, t, k) <= k && ((forall i :: 0 <= i < k ==> e[i] > t) ==> AboveTo(e, t, k) == k)
  {
    if k > 0 {
      AboveAtMost(e, t, k - 1);
    }
  }

  // ---- Rank by rank ----

  /** The degrees of all keys, in descending order. */
  ghost predicate AreRanks(xs: seq<real>, items: seq<Bin>) {
    Descending(xs) && forall t :: t >= 0.0 ==> SameAbove(xs, items, t)
  }

  ghost predicate SameAbove(xs: seq<real>, items: seq<Bin>, t: real) {
    Above(xs, t) == KeysAbove(items, t)
  }

  ghost predicate AtLeastOne(xs: seq<real>) {
    forall i :: 0 <= i < |xs| ==> xs[i] >= 1.0
  }

  /** A rank that only keeps or lowers the degrees, up to a factor. */
  ghost predicate AtMostTimes(e: seq<real>, f: real, xs: seq<real>) {
    |e| <= |xs| && forall i :: 0 <= i < |e| ==> RankAtMost(e, f, xs, i)
  }

  ghost predicate RankAtMost(e: seq<real>, f: real, xs: seq<real>, i: nat)
    requires i < |e| && i < |xs|
  {
    e[i] <= f * xs[i]
  }

  lemma {:induction false} AllKeys(bins: seq<Bin>, t: real)
    requires forall i :: 0 <= i < |bins| ==> bins[i].degree > t
    ensures KeysAbove(bins, t) == |Expand(bins)|
  {
    if bins != [] {
      AllKeys(bins[1..], t);
    }
  }

  lemma {:induction false} CollectedAll(items: seq<Bin>, p: real, t: real)
    requires p > 1.0 && t < 0.0 && Countable(items)
    ensures KeysTo(AddAll([], items, p), p, t, |AddAll([], items, p)|) == KeysAbove(items, t)
  {
    if items != [] {
      var k := |items| - 1;
      CollectedAll(items[..k], p, t);
      assert items == items[..k] + [items[k]];
      AddAllSnoc([], items[..k], items[k], p);
      AddKeys(AddAll([], items[..k], p), items[k], p, t);
      KeysAboveAppend(items[..k], [items[k]], t);
      OneAbove(items[k], t);
      PowMono(p, 0, Bucket(items[k].degree, p));
    }
  }

  /** Compressing makes no keys. */
  lemma CompressRows(items: seq<Bin>, p: real, t: real)
    requires p > 1.0 && Countable(items) && t < 0.0
    ensures |Expand(Compress(items, p))| <= |Expand(items)|
  {
    CollectedAll(items, p, t);
    AddAllPlaced([], items, p);
    FinishedKeys(AddAll([], items, p), p, t);
    AllKeys(items, t);
    FinishProper(AddAll([], items, p), p);
    AllKeys(Compress(items, p), t);
  }

  lemma {:induction false} ExpandFloor(bins: seq<Bin>, t: real)
    requires forall i :: 0 <= i < |bins| ==> bins[i].degree >= t
    ensures forall i :: 0 <= i < |Expand(bins)| ==> Expand(bins)[i] >= t
  {
    if bins != [] {
      ExpandFloor(bins[1..], t);
    }
  }

  ghost predicate DegreesFrom(bins: seq<Bin>, t: real) {
    forall i :: 0 <= i < |bins| ==> bins[i].degree >= t
  }

  /** The rank of a compressed list is at most the precision times the rank of what was compressed. */
  lemma CompressRank(items: seq<Bin>, p: real, xs: seq<real>, i: nat)
    requires p > 1.0 && DegreesFrom(items, 1.0) && AreRanks(xs, items) && AtLeastOne(xs)
    requires i < |Expand(Compress(items, p))| && i < |xs|
    ensures RankAtMost(Expand(Compress(items, p)), p, xs, i)
  {
    var e := Expand(Compress(items, p));
    CompressProper(items, p);
    ExpandDescending(Compress(items, p));
    var t := xs[i];
    if e[i] > p * t {
      AllAbove(e, p * t, i, |e|);
      ExpandAbove(Compress(items, p), p * t);
      CompressKeys(items, p, t);
      assert SameAbove(xs, items, t);
      NoneAbove(xs, t, i, |xs|);
    }
  }

  lemma RanksNumber(items: seq<Bin>, xs: seq<real>)
    requires DegreesFrom(items, 1.0) && AreRanks(xs, items) && AtLeastOne(xs)
    ensures |xs| == |Expand(items)|
  {
    assert SameAbove(xs, items, 0.0);
    AboveAtMost(xs, 0.0, |xs|);
    AllKeys(items, 0.0);
  }

  lemma CompressTight(items: seq<Bin>, p: real, xs: seq<real>)
    requires p > 1.0 && DegreesFrom(items, 1.0) && AreRanks(xs, items) && AtLeastOne(xs)
    ensures AtMostTimes(Expand(Compress(items, p)), p, xs)
  {
    CompressRows(items, p, -1.0);
    RanksNumber(items, xs);
    forall i | 0 <= i < |Expand(Compress(items, p))| ensures RankAtMost(Expand(Compress(items, p)), p, xs, i) {
      CompressRank(items, p, xs, i);
    }
  }

  ghost predicate FlooredSlots(slots: seq<Slot>) {
    forall i :: 0 <= i < |slots| ==> slots[i].maxDegree == 0.0 || slots[i].maxDegree >= 1.0
  }

  lemma {:induction false} AddAllFloored(slots: seq<Slot>, items: seq<Bin>, p: real)
    requires FlooredSlots(slots) && DegreesFrom(items, 1.0)
    ensures FlooredSlots(AddAll(slots, items, p))
    decreases |items|
  {
    if items != [] {
      assert FlooredSlots(AddTo(slots, items[0].degree, items[0].count, p));
      AddAllFloored(AddTo(slots, items[0].degree, items[0].count, p), items[1..], p);
    }
  }

  lemma CompressFloor(items: seq<Bin>, p: real)
    requires DegreesFrom(items, 1.0)
    ensures DegreesFrom(Compress(items, p), 1.0)
  {
    AddAllFloored([], items, p);
    var slots := AddAll([], items, p);
    forall i | 0 <= i < |Occupied(slots)| ensures Occupied(slots)[i].maxDegree >= 1.0 {
      var j := OccupiedFrom(slots, i);
    }
  }

  // ---- The chain of dots ----

  lemma ProductAtMost(u: real, f: real, x: real, v: real, g: real, y: real)
    requires 0.0 <= u <= f * x && 0.0 <= v <= g * y && f >= 0.0 && x >= 0.0
    ensures u * v <= (f * g) * (x * y)
  {
    MulMono(v, u, f * x);
    MulMono(f * x, v, g * y);
    Regrouped(f, x, g, y);
  }

  lemma Regrouped(f: real, x: real, g: real, y: real)
    ensures (f * x) * (g * y) == (f * g) * (x * y)
  {
    assert (f * x) * (g * y) == f * (x * (g * y));
    assert x * (g * y) == g * (x * y);
    assert f * (g * (x * y)) == (f * g) * (x * y);
  }

  lemma ProductTight(u: seq<real>, f: real, xs: seq<real>, v: seq<real>, g: real, ys: seq<real>, h: real)
    requires AtMostTimes(u, f, xs) && AtMostTimes(v, g, ys) && AtLeastOne(u) && AtLeastOne(v) && AtLeastOne(xs) && f >= 0.0
    requires h == f * g
    ensures AtMostTimes(RankProduct(u, v), h, RankProduct(xs, ys))
  {
    var e, zs := RankProduct(u, v), RankProduct(xs, ys);
    forall i | 0 <= i < |e| ensures RankAtMost(e, h, zs, i) {
      assert RankAtMost(u, f, xs, i) && RankAtMost(v, g, ys, i);
      ProductAtMost(u[i], f, xs[i], v[i], g, ys[i]);
    }
  }

  lemma ProductMono(x: real, y: real, z: real, w: real)
    requires x >= y >= 0.0 && z >= w >= 0.0
    ensures x * z >= y * w >= 0.0
  {
    MulMono(x, w, z);
    MulMono(w, y, x);
  }

  lemma ProductRanks(a: seq<Bin>, b: seq<Bin>)
    requires Proper(a) && Proper(b) && DegreesFrom(a, 1.0) && DegreesFrom(b, 1.0)
    ensures AreRanks(RankProduct(Expand(a), Expand(b)), Segments(a, b))
    ensures AtLeastOne(RankProduct(Expand(a), Expand(b))) && DegreesFrom(Segments(a, b), 1.0)
  {
    var u, v := Expand(a), Expand(b);
    var e := RankProduct(u, v);
    ExpandDescending(a);
    ExpandDescending(b);
    ExpandFloor(a, 1.0);
    ExpandFloor(b, 1.0);
    forall i, j | 0 <= i < j < |e| ensures e[i] >= e[j] {
      assert u[i] >= u[j] && v[i] >= v[j];
      ProductMono(u[i], u[j], v[i], v[j]);
    }
    forall i | 0 <= i < |e| ensures e[i] >= 1.0 {
      ProductMono(u[i], 1.0, v[i], 1.0);
    }
    ExpandSegments(a, b);
    forall t | t >= 0.0 ensures SameAbove(e, Segments(a, b), t) {
      ExpandAbove(Segments(a, b), t);
    }
    SegmentsFrom(a, b);
  }

  lemma {:induction false} SegmentsFrom(a: seq<Bin>, b: seq<Bin>)
    requires DegreesFrom(a, 1.0) && DegreesFrom(b, 1.0)
    ensures DegreesFrom(Segments(a, b), 1.0)
    decreases |a| + |b|
  {
    if a != [] && b != [] {
      var c := MinNat(a[0].count, b[0].count);
      SegmentsFrom(Advance(a, c), Advance(b, c));
      SegmentsShape(a, b, c);
      ProductMono(a[0].degree, 1.0, b[0].degree, 1.0);
      var s := Segments(a, b);
      assert forall i :: 1 <= i < |s| ==> s[i] == s[1..][i - 1];
    }
  }

  lemma TightTwice(e: seq<real>, f: real, xs: seq<real>, g: real, ys: seq<real>, h: real)
    requires AtMostTimes(e, f, xs) && AtMostTimes(xs, g, ys) && f >= 0.0 && h == f * g
    ensures AtMostTimes(e, h, ys)
  {
    forall i | 0 <= i < |e| ensures RankAtMost(e, h, ys, i) {
      assert RankAtMost(e, f, xs, i) && RankAtMost(xs, g, ys, i);
      MulMono(f, xs[i], g * ys[i]);
      TripleProduct(f, g, ys[i]);
    }
  }

  lemma TripleProduct(f: real, g: real, y: real)
    ensures f * (g * y) == (f * g) * y
  {
  }

  /** One `dot`, if its arguments are at most `f` and `g` times the ranks of `xs` and `ys`. */
  lemma DotTight(a: seq<Bin>, f: real, xs: seq<real>, b: seq<Bin>, g: real, ys: seq<real>, p: real, h: real)
    requires p > 1.0 && Proper(a) && Proper(b) && DegreesFrom(a, 1.0) && DegreesFrom(b, 1.0) && AtLeastOne(xs) && f >= 0.0
    requires AtMostTimes(Expand(a), f, xs) && AtMostTimes(Expand(b), g, ys) && h == p * (f * g)
    ensures AtMostTimes(Expand(DotBins(a, b, p)), h, RankProduct(xs, ys))
    ensures Proper(DotBins(a, b, p)) && DegreesFrom(DotBins(a, b, p), 1.0)
  {
    ProductRanks(a, b);
    CompressTight(Segments(a, b), p, RankProduct(Expand(a), Expand(b)));
    CompressFloor(Segments(a, b), p);
    CompressProper(Segments(a, b), p);
    ExpandFloor(a, 1.0);
    ExpandFloor(b, 1.0);
    ProductTight(Expand(a), f, xs, Expand(b), g, ys, f * g);
    TightTwice(Expand(DotBins(a, b, p)), p, RankProduct(Expand(a), Expand(b)), f * g, RankProduct(xs, ys), h);
  }

  /** The rank-wise product of several families. */
  function TopProduct(xss: seq<seq<real>>): seq<real>
    requires xss != []
  {
    var n := |xss| - 1;
    if n == 0 then xss[0] else RankProduct(TopProduct(xss[..n]), xss[n])
  }

  /** The degrees of the keys of every table, each family in descending order. */
  ghost predicate TableRanks(cn: CountNum, sub: seq<Star.TableColumn>, xss: seq<seq<real>>) {
    |xss| == |sub| && forall i :: 0 <= i < |sub| ==> TableRank(cn, sub[i].table, xss[i])
  }

  ghost predicate TableRank(cn: CountNum, table: string, xs: seq<real>) {
    AreRanks(xs, SingleItems(cn, table)) && AtLeastOne(xs)
  }

  lemma {:induction false} ItemsFrom(cn: CountNum, table: string)
    requires NonNegative(cn)
    ensures DegreesFrom(SingleItems(cn, table), 1.0)
  {
    if cn != [] {
      ItemsFrom(cn[1..], table);
    }
  }

  /** One more `dot` and one more sequence. */
  ghost predicate IsNext(p: real, f: real, h: real) {
    h == p * (f * p)
  }

  lemma TwoMore(p: real, n: nat)
    ensures IsNext(p, Pow(p, n), Pow(p, n + 2))
  {
    assert Pow(p, n + 2) == p * Pow(p, n + 1);
    assert Pow(p, n + 1) == p * Pow(p, n);
  }

  lemma SingleTight(cn: CountNum, table: string, p: real, xs: seq<real>)
    requires NonNegative(cn) && p > 1.0 && TableRank(cn, table, xs)
    ensures AtMostTimes(Expand(Single(cn, table, p)), p, xs)
    ensures Proper(Single(cn, table, p)) && DegreesFrom(Single(cn, table, p), 1.0)
  {
    ItemsFrom(cn, table);
    CompressTight(SingleItems(cn, table), p, xs);
    CompressFloor(SingleItems(cn, table), p);
    CompressProper(SingleItems(cn, table), p);
  }

  /** The chain of dots, for a precision above 1. */
  ghost predicate ChainTight(cn: CountNum, sub: seq<Star.TableColumn>, p: real, f: real, xss: seq<seq<real>>)
    requires sub != [] && |xss| == |sub|
  {
    && AtMostTimes(Expand(Upper(cn, sub, p)), f, TopProduct(xss))
    && Proper(Upper(cn, sub, p)) && DegreesFrom(Upper(cn, sub, p), 1.0) && AtLeastOne(TopProduct(xss))
  }

  lemma ChainStep(cn: CountNum, sub: seq<Star.TableColumn>, p: real, xss: seq<seq<real>>, n: nat)
    requires n == |sub| - 1 == |xss| - 1 && n > 0
    ensures Upper(cn, sub, p) == DotBins(Upper(cn, sub[..n], p), Single(cn, sub[n].table, p), p)
    ensures TopProduct(xss) == RankProduct(TopProduct(xss[..n]), xss[n])
  {
  }

  lemma ProductFrom(xs: seq<real>, ys: seq<real>)
    requires AtLeastOne(xs) && AtLeastOne(ys)
    ensures AtLeastOne(RankProduct(xs, ys))
  {
    forall i | 0 <= i < |RankProduct(xs, ys)| ensures RankProduct(xs, ys)[i] >= 1.0 {
      ProductMono(xs[i], 1.0, ys[i], 1.0);
    }
  }

  lemma ChainNext(cn: CountNum, sub: seq<Star.TableColumn>, p: real, f: real, xss: seq<seq<real>>, n: nat, h: real)
    requires n == |sub| - 1 == |xss| - 1 && n > 0 && NonNegative(cn) && p > 1.0 && f >= 0.0 && IsNext(p, f, h)
    requires ChainTight(cn, sub[..n], p, f, xss[..n]) && TableRank(cn, sub[n].table, xss[n])
    ensures ChainTight(cn, sub, p, h, xss)
  {
    var xs, ys := TopProduct(xss[..n]), xss[n];
    var a, b := Upper(cn, sub[..n], p), Single(cn, sub[n].table, p);
    SingleTight(cn, sub[n].table, p, ys);
    ChainStep(cn, sub, p, xss, n);
    DotTight(a, f, xs, b, p, ys, p, h);
    ProductFrom(xs, ys);
  }

  /** `p` for every sequence and every dot. */
  ghost predicate AreFactors(p: real, fs: seq<real>) {
    fs != [] && fs[0] == p && forall i :: 0 <= i < |fs| - 1 ==> FactorOk(p, fs, i)
  }

  ghost predicate FactorOk(p: real, fs: seq<real>, i: nat)
    requires i + 1 < |fs|
  {
    fs[i] >= 0.0 && IsNext(p, fs[i], fs[i + 1])
  }

  lemma {:induction false} Factors(p: real, n: nat) returns (fs: seq<real>)
    requires p > 1.0 && n > 0
    ensures AreFactors(p, fs) && |fs| == n && fs[n - 1] == Pow(p, 2 * n - 1)
  {
    if n == 1 {
      fs := [p];
      assert Pow(p, 1) == p * Pow(p, 0);
    } else {
      var before := Factors(p, n - 1);
      PowMono(p, 0, 2 * n - 3);
      TwoMore(p, 2 * n - 3);
      fs := before + [Pow(p, 2 * n - 1)];
      forall i | 0 <= i < |fs| - 1 ensures FactorOk(p, fs, i) {
        if i < n - 2 {
          assert FactorOk(p, before, i);
        }
      }
    }
  }

  lemma ChainFirst(cn: CountNum, sub: seq<Star.TableColumn>, p: real, xss: seq<seq<real>>)
    requires NonNegative(cn) && |sub| == |xss| == 1 && p > 1.0 && TableRank(cn, sub[0].table, xss[0])
    ensures ChainTight(cn, sub, p, p, xss)
  {
    SingleTight(cn, sub[0].table, p, xss[0]);
  }

  lemma RanksBefore(cn: CountNum, sub: seq<Star.TableColumn>, xss: seq<seq<real>>, n: nat)
    requires TableRanks(cn, sub, xss) && n < |sub|
    ensures TableRanks(cn, sub[..n], xss[..n]) && TableRank(cn, sub[n].table, xss[n])
  {
    forall i | 0 <= i < n ensures TableRank(cn, sub[..n][i].table, xss[..n][i]) {
      assert TableRank(cn, sub[i].table, xss[i]);
    }
  }

  lemma {:induction false} ChainAll(cn: CountNum, sub: seq<Star.TableColumn>, p: real, xss: seq<seq<real>>, n: nat, fs: seq<real>)
    requires NonNegative(cn) && n == |sub| > 0 && p > 1.0 && TableRanks(cn, sub, xss) && AreFactors(p, fs) && n <= |fs|
    ensures ChainTight(cn, sub, p, fs[n - 1], xss)
    decreases n
  {
    RanksBefore(cn, sub, xss, n - 1);
    if n == 1 {
      ChainFirst(cn, sub, p, xss);
    } else {
      assert FactorOk(p, fs, n - 2);
      ChainAll(cn, sub[..n - 1], p, xss[..n - 1], n - 1, fs);
      ChainNext(cn, sub, p, fs[n - 2], xss, n - 1, fs[n - 1]);
    }
  }

  /**
   The chain of dots over `n` tables, from above: at every rank it is at most `p` to the power `2n - 1` times the product
   of the degrees that the tables have at this rank, and it has no more ranks than each of them.
   */
  lemma UpperTight(cn: CountNum, sub: seq<Star.TableColumn>, p: real, xss: seq<seq<real>>, n: nat, f: real)
    requires NonNegative(cn) && n == |sub| > 0 && p > 1.0 && TableRanks(cn, sub, xss) && f == Pow(p, 2 * n - 1)
    ensures AtMostTimes(Expand(Upper(cn, sub, p)), f, TopProduct(xss))
  {
    var fs := Factors(p, n);
    ChainAll(cn, sub, p, xss, n, fs);
  }

  // ---- There are such families ----

  /** A run of `c` degrees `d`, put where it belongs. */
  function Insert(xs: seq<real>, d: real, c: nat): seq<real> {
    if xs == [] || xs[0] <= d then Run(d, c) + xs else [xs[0]] + Insert(xs[1..], d, c)
  }

  lemma {:induction false} InsertAbove(xs: seq<real>, d: real, c: nat, t: real)
    ensures Above(Insert(xs, d, c), t) == Above(xs, t) + if d > t then c else 0
  {
    AboveRun(d, c, t, c);
    if xs == [] || xs[0] <= d {
      AboveAppend(Run(d, c), xs, t, |xs|);
    } else {
      var rest := Insert(xs[1..], d, c);
      InsertAbove(xs[1..], d, c, t);
      AboveAppend([xs[0]], rest, t, |rest|);
      AboveAppend([xs[0]], xs[1..], t, |xs| - 1);
      assert xs == [xs[0]] + xs[1..];
    }
  }

  ghost predicate FallsFrom(xs: seq<real>, b: real) {
    Descending(xs) && AtLeastOne(xs) && forall i :: 0 <= i < |xs| ==> xs[i] <= b
  }

  lemma {:induction false} InsertFalls(xs: seq<real>, d: real, c: nat, b: real)
    requires FallsFrom(xs, b) && 1.0 <= d <= b
    ensures FallsFrom(Insert(xs, d, c), b)
  {
    if xs == [] || xs[0] <= d {
      assert forall i :: 0 <= i < |xs| ==> xs[i] <= d;
    } else {
      assert FallsFrom(xs[1..], xs[0]);
      InsertFalls(xs[1..], d, c, xs[0]);
    }
  }

  lemma {:induction false} SomeRanks(items: seq<Bin>) returns (xs: seq<real>)
    requires DegreesFrom(items, 1.0)
    ensures AreRanks(xs, items) && AtLeastOne(xs)
  {
    if items == [] {
      xs := [];
    } else {
      var rest := SomeRanks(items[1..]);
      var d, c := items[0].degree, items[0].count;
      xs := Insert(rest, d, c);
      var b := if rest == [] || rest[0] <= d then d else rest[0];
      assert FallsFrom(rest, b);
      InsertFalls(rest, d, c, b);
      forall t | t >= 0.0 ensures SameAbove(xs, items, t) {
        assert SameAbove(rest, items[1..], t);
        InsertAbove(rest, d, c, t);
      }
    }
  }

  /** Every star has such a family. */
  lemma {:induction false} SomeTableRanks(cn: CountNum, sub: seq<Star.TableColumn>) returns (xss: seq<seq<real>>)
    requires NonNegative(cn)
    ensures TableRanks(cn, sub, xss)
  {
    xss := [];
    if sub != [] {
      var n := |sub| - 1;
      var rest := SomeTableRanks(cn, sub[..n]);
      ItemsFrom(cn, sub[n].table);
      var last := SomeRanks(SingleItems(cn, sub[n].table));
      xss := rest + [last];
      forall i | 0 <= i < |sub| ensures TableRank(cn, sub[i].table, xss[i]) {
        if i < n {
          assert TableRank(cn, sub[..n][i].table, rest[i]);
        }
      }
    }
  }

  // ---- The sequences of a star's tables ----

  lemma {:induction false} LimitKeys(bins: seq<Bin>, left: real, t: real)
    requires Positive(bins) && left >= 0.0
    ensures KeysAbove(Limit(bins, left), t) <= KeysAbove(bins, t)
  {
    if bins != [] {
      var d, c := bins[0].degree, bins[0].count;
      if Times(c, d) <= left {
        LimitKeys(bins[1..], left - Times(c, d), t);
        KeysAboveAppend([bins[0]], Limit(bins[1..], left - Times(c, d)), t);
        OneAbove(bins[0], t);
      } else {
        CutKeys(d, c, left, t);
      }
    }
  }

  lemma CutKeys(d: real, c: nat, left: real, t: real)
    requires d > 0.0 && left >= 0.0 && Times(c, d) > left
    ensures KeysAbove(Cut(d, left), t) <= if d > t then c else 0
  {
    CountPositive(c, d, left);
    if TOLERANCE < left < d {
      OneAbove(Bin(left, 1), t);
    } else if left > TOLERANCE {
      var q := WholeTimes(left, d);
      var r := left - Times(q, d);
      TimesLess(q, c, d);
      OneAbove(Bin(d, q), t);
      OneAbove(Bin(r, 1), t);
      KeysAboveAppend([Bin(d, q)], [Bin(r, 1)], t);
      assert [Bin(d, q)] + [Bin(r, 1)] == [Bin(d, q), Bin(r, 1)];
    }
  }

  lemma OverWhole(d: real, t: nat)
    requires Whole(d)
    ensures Over(d, t as real) - Over(d, (t + 1) as real) == if d > t as real then 1.0 else 0.0
  {
    var k :| d == IntReal(k);
    IntGap(k, t);
    OverGap(d, t as real, (t + 1) as real);
  }

  lemma IntGap(k: int, t: nat)
    ensures IntReal(k) > t as real ==> IntReal(k) >= (t + 1) as real
    ensures (t + 1) as real == t as real + 1.0
  {
    if k <= t {
      assert k as real <= t as real;
    } else {
      assert k as real >= (t + 1) as real;
    }
  }

  lemma OverGap(d: real, x: real, y: real)
    requires y == x + 1.0 && (d > x ==> d >= y)
    ensures Over(d, x) - Over(d, y) == if d > x then 1.0 else 0.0
  {
  }

  lemma OneByMass(c: nat, x: real, y: real, above: bool)
    requires x - y == if above then 1.0 else 0.0
    ensures Times(c, x) - Times(c, y) == (if above then c else 0) as real
  {
    TimesIsProduct(c, x);
    TimesIsProduct(c, y);
    Apart(c as real, x, y);
  }

  lemma {:induction false} KeysByMass(items: seq<Bin>, t: nat)
    requires Integral(items)
    ensures CardOver(items, t as real) - CardOver(items, (t + 1) as real) == KeysAbove(items, t as real) as real
  {
    if items != [] {
      var d := items[0].degree;
      KeysByMass(items[1..], t);
      OverWhole(d, t);
      OneByMass(items[0].count, Over(d, t as real), Over(d, (t + 1) as real), d > t as real);
    }
  }

  lemma Apart(c: real, x: real, y: real)
    ensures c * x - c * y == c * (x - y)
  {
  }

  lemma {:induction false} RowsByMass(xs: seq<real>, t: nat, k: nat)
    requires k <= |xs| && forall i :: 0 <= i < |xs| ==> Whole(xs[i])
    ensures OverTo(xs, t as real, k) - OverTo(xs, (t + 1) as real, k) == AboveTo(xs, t as real, k) as real
  {
    if k > 0 {
      RowsByMass(xs, t, k - 1);
      OverWhole(xs[k - 1], t);
    }
  }

  lemma RowDegreesWhole(db: Star.Database, sub: seq<Star.TableColumn>, i: nat)
    requires i < |sub|
    ensures forall k :: 0 <= k < |Edges.RowDegrees(db, sub, i)| ==> Whole(Edges.RowDegrees(db, sub, i)[k])
  {
    var xs := Edges.RowDegrees(db, sub, i);
    forall k | 0 <= k < |xs| ensures Whole(xs[k]) {
      var cell := Star.CellOf(sub[i].column)(Sql.Lookup(db, sub[i].table)[k]);
      assert xs[k] == Edges.KeyWeight(db, Edges.Others(sub, i))(cell);
      match cell
      case Null => assert 0.0 == IntReal(0);
      case Val(v) => assert Star.DegreeProduct(db, Edges.Others(sub, i), v) as real == IntReal(Star.DegreeProduct(db, Edges.Others(sub, i), v));
    }
  }

  lemma EdgeItemsKeys(db: Star.Database, entries: seq<Star.TableColumn>, sub: seq<Star.TableColumn>, cn: CountNum, i: nat, t: nat)
    requires Edges.Source(db, entries, sub, cn) && i < |sub|
    ensures KeysAbove(Collected.EdgeItems(cn, Star.TableNames(sub), sub[i].table), t as real) == Above(Edges.RowDegrees(db, sub, i), t as real)
  {
    var items, xs := Collected.EdgeItems(cn, Star.TableNames(sub), sub[i].table), Edges.RowDegrees(db, sub, i);
    Edges.CountsOf(db, entries, cn);
    Edges.EdgeItemsWhole(cn, sub, i);
    Edges.EdgeMass(db, entries, sub, cn, i, t as real);
    Edges.EdgeMass(db, entries, sub, cn, i, (t + 1) as real);
    KeysByMass(items, t);
    RowDegreesWhole(db, sub, i);
    RowsByMass(xs, t, |xs|);
  }

  lemma CutKeysToo(items: seq<Bin>, p: real, t: real, card: real, high: real)
    requires p > 1.0 && t >= 1.0 && Countable(items) && card >= 0.0 && Positive(Compress(items, p)) && high == p * t
    ensures KeysAbove(Limit(Compress(items, p), card), high) <= KeysAbove(items, t)
  {
    LimitKeys(Compress(items, p), card, high);
    CompressKeys(items, p, t);
  }

  /**
   The sequence that collection stores for a table of a star: above `high`, which is `p * t`, it has no more rows than the table has rows
   that occur more than `t` times in the star.
   */
  lemma EdgeKeys(db: Star.Database, entries: seq<Star.TableColumn>, sub: seq<Star.TableColumn>, cn: CountNum, i: nat, p: real, t: nat,
                 high: real)
    requires Edges.Source(db, entries, sub, cn) && i < |sub| && p > 1.0 && t >= 1 && high == p * t as real
    ensures Positive(Compress(Collected.EdgeItems(cn, Star.TableNames(sub), sub[i].table), p))
    ensures KeysAbove(Edges.EdgeBins(cn, sub, i, p), high) <= Above(Edges.RowDegrees(db, sub, i), t as real)
  {
    StarJoins.StarEdgeOk(db, entries, sub, cn, i, p);
    Edges.CardExact(db, entries, sub, cn);
    Edges.CountsOf(db, entries, cn);
    Edges.EdgeItemsWhole(cn, sub, i);
    var items := Collected.EdgeItems(cn, Star.TableNames(sub), sub[i].table);
    CutKeysToo(items, p, t as real, Collected.TotalCard(cn, Star.TableNames(sub)) as real, high);
    EdgeItemsKeys(db, entries, sub, cn, i, t);
  }

  // ---- Merging ----

  /** A merge stores no more rows above `high`, which is `p * t`, than it found degrees above `t`. */
  lemma MergedKeys(l: Summary, r: Summary, table: string, u: string, p: real, t: real, high: real)
    requires MergesOn(l, r, table) && u in l.tables + r.tables && p > 1.0 && t >= 1.0 && high == p * t
    ensures KeysAbove(Merged(l, r, table, p).edges[u], high) <= KeysAbove(MergedItems(l, r, table, u), t)
  {
    var items, card := MergedItems(l, r, table, u), Card(Segments(l.edges[table], r.edges[table]));
    MergedItemsFit(l, r, table, u);
    SegmentsFit(l.edges[table], r.edges[table]);
    CompressSolid(items, p);
    LimitSolid(Compress(items, p), card);
    LimitKeys(Compress(items, p), card, high);
    LimitKeys(Limit(Compress(items, p), card), card, high);
    CompressKeys(items, p, t);
  }

  ghost predicate KeepsKeys(m: Summary, l: Summary, r: Summary, table: string, u: string, high: real, t: real) {
    && MergesOn(l, r, table) && u in m.edges && KeysAbove(m.edges[u], high) <= KeysAbove(MergedItems(l, r, table, u), t)
  }

  lemma MergedKeepsKeys(m: Summary, l: Summary, r: Summary, table: string, u: string, p: real, t: real, high: real)
    requires MergesOn(l, r, table) && m == Merged(l, r, table, p) && u in l.tables + r.tables
    requires p > 1.0 && t >= 1.0 && high == p * t
    ensures KeepsKeys(m, l, r, table, u, high, t)
  {
    MergedKeys(l, r, table, u, p, t, high);
  }

  /** So does a merge of two adjusted statistics in the loop of the estimate. */
  lemma PairKeys(l: Summary, r: Summary, x: Setting, u: string, p: real, t: real, high: real)
    requires PairOk(l, r, x) && u in l.tables + r.tables && p == x.p && p > 1.0 && t >= 1.0 && high == p * t
    ensures KeepsKeys(MergedPair(l, r, x), Prepared(l, x.ndv, x.k), Prepared(r, x.ndv, x.k), FirstCommon(x.rels, l.tables, r.tables),
                      u, high, t)
  {
    CommonTable(l, r, x);
    MergedKeepsKeys(MergedPair(l, r, x), Prepared(l, x.ndv, x.k), Prepared(r, x.ndv, x.k), FirstCommon(x.rels, l.tables, r.tables),
                    u, p, t, high);
  }

  /** The statistic of a star as it is collected. */
  lemma StarKeys(db: Star.Database, entries: seq<Star.TableColumn>, sub: seq<Star.TableColumn>, cn: CountNum, u: string, p: real, t: nat,
                 high: real)
    requires Edges.Source(db, entries, sub, cn) && u in StarJoins.TableSet(sub) && p > 1.0 && t >= 1 && high == p * t as real
    ensures KeysAbove(StarJoins.StarSummaryOf(db, entries, sub, cn, p).edges[u], high) <=
            Above(Edges.RowDegrees(db, sub, StarJoins.IndexOf(sub, u)), t as real)
  {
    EdgeKeys(db, entries, sub, cn, StarJoins.IndexOf(sub, u), p, t, high);
  }
}

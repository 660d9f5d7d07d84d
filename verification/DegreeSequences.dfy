/**
 Compressed degree sequences: logarithmic bucketing, the count correction at the end of a
 collection, and the rank-wise `dot` of two sequences.
 */
module DegreeSequences {
  import opened RankBounds

  /** `count` keys of degree `degree`. */
  datatype Bin = Bin(degree: real, count: nat)

  /** A bucket during collection. */
  datatype Slot = Slot(maxDegree: real, count: nat, sum: real)

  function Max(x: real, y: real): real {
    if x < y then y else x
  }

  function Min(x: real, y: real): real {
    if x < y then x else y
  }

  function MinNat(x: nat, y: nat): nat {
    if x < y then x else y
  }

  /** `count`, or `adjusted` where that is smaller (and not below zero). */
  function Clip(count: nat, adjusted: int): nat {
    if adjusted >= count then count else if adjusted < 0 then 0 else adjusted
  }

  function Ceil(x: real): int {
    -((-x).Floor)
  }

  // ---- Buckets ----

  function Pow(p: real, n: nat): real {
    if n == 0 then 1.0 else p * Pow(p, n - 1)
  }

  lemma {:induction false} Bernoulli(p: real, n: nat)
    requires p > 1.0
    ensures Pow(p, n) >= 1.0 + n as real * (p - 1.0)
  {
    if n > 0 {
      Bernoulli(p, n - 1);
      var x, m := p - 1.0, (n - 1) as real;
      BernoulliStep(Pow(p, n - 1), x, m);
    }
  }

  lemma BernoulliStep(w: real, x: real, m: real)
    requires w >= 1.0 + m * x && x > 0.0 && m >= 0.0
    ensures (1.0 + x) * w >= 1.0 + (m + 1.0) * x
  {
    assert m * x >= 0.0;
    assert x * w >= x * 1.0;
    assert (1.0 + x) * w == w + x * w;
  }

  /** A power of `p` that is large enough for `d`. */
  function Enough(d: real, p: real): nat
    requires d >= 1.0 && p > 1.0
    ensures Pow(p, Enough(d, p)) >= d
  {
    var q := (d - 1.0) / (p - 1.0);
    var n := q.Floor + 1;
    assert q >= 0.0;
    assert n as real * (p - 1.0) >= d - 1.0 by {
      assert n as real >= q && q * (p - 1.0) == d - 1.0;
      MulMono(p - 1.0, q, n as real);
    }
    Bernoulli(p, n);
    n
  }

  lemma MulMono(x: real, y: real, z: real)
    requires x >= 0.0 && y <= z
    ensures x * y <= x * z
  {
  }

  lemma {:induction false} PowMono(p: real, m: nat, n: nat)
    requires p > 1.0 && m <= n
    ensures 1.0 <= Pow(p, m) <= Pow(p, n)
  {
    if n > m {
      PowMono(p, m, n - 1);
      MulMono(Pow(p, n - 1), 1.0, p);
    } else if n > 0 {
      PowMono(p, m - 1, n - 1);
      MulMono(Pow(p, n - 1), 1.0, p);
    }
  }

  lemma NotYet(d: real, p: real, n: nat)
    requires d >= 1.0 && p > 1.0 && Pow(p, n) < d
    ensures n < Enough(d, p)
  {
    if n >= Enough(d, p) {
      PowMono(p, Enough(d, p), n);
    }
  }

  /** The least exponent from `n` on whose power of `p` reaches `d`. */
  function Search(d: real, p: real, n: nat): (r: nat)
    requires d >= 1.0 && p > 1.0
    ensures r >= n && Pow(p, r) >= d
    ensures forall k :: n <= k < r ==> Pow(p, k) < d
    decreases Enough(d, p) - n
  {
    if Pow(p, n) >= d then n
    else
      NotYet(d, p, n);
      Search(d, p, n + 1)
  }

  /** `ceil(log(degree) / log(precision))`, or bucket 0 for degrees up to 1 and for a precision up to 1. */
  function Bucket(degree: real, precision: real): nat {
    if degree <= 1.0 || precision <= 1.0 then 0 else Search(degree, precision, 0)
  }

  lemma BucketMono(x: real, y: real, p: real)
    requires x <= y
    ensures Bucket(x, p) <= Bucket(y, p)
  {
    if x > 1.0 && p > 1.0 {
      assert Pow(p, Bucket(y, p)) >= x;
    }
  }

  // ---- Collecting ----

  function Grow(slots: seq<Slot>, n: nat): (r: seq<Slot>)
    ensures |r| == if |slots| < n then n else |slots|
    ensures forall i :: 0 <= i < |r| ==> r[i] == if i < |slots| then slots[i] else Slot(0.0, 0, 0.0)
  {
    if |slots| < n then slots + seq(n - |slots|, i => Slot(0.0, 0, 0.0)) else slots
  }

  function Merge(s: Slot, degree: real, count: nat): Slot {
    Slot(Max(s.maxDegree, degree), s.count + count, s.sum + Times(count, degree))
  }

  /** `AddDegree`: one bucket takes `count` keys of degree `degree`. */
  function AddTo(slots: seq<Slot>, degree: real, count: nat, precision: real): seq<Slot> {
    var pos := Bucket(degree, precision);
    var grown := Grow(slots, pos + 1);
    grown[pos := Merge(grown[pos], degree, count)]
  }

  function AddAll(slots: seq<Slot>, items: seq<Bin>, precision: real): seq<Slot>
    decreases |items|
  {
    if items == [] then slots
    else AddAll(AddTo(slots, items[0].degree, items[0].count, precision), items[1..], precision)
  }

  lemma {:induction false} AddAllSnoc(slots: seq<Slot>, items: seq<Bin>, x: Bin, p: real)
    ensures AddAll(slots, items + [x], p) == AddTo(AddAll(slots, items, p), x.degree, x.count, p)
    decreases |items|
  {
    if items == [] {
      assert items + [x] == [x];
      assert AddAll(slots, [x], p) == AddAll(AddTo(slots, x.degree, x.count, p), [], p);
    } else {
      assert (items + [x])[1..] == items[1..] + [x];
      AddAllSnoc(AddTo(slots, items[0].degree, items[0].count, p), items[1..], x, p);
    }
  }

  /** The correction of one bucket: no more keys than its mass needs at the maximal degree. */
  function Tighten(s: Slot): Bin
    requires s.maxDegree != 0.0
  {
    Bin(s.maxDegree, Clip(s.count, Ceil(s.sum / s.maxDegree)))
  }

  function TightenAll(slots: seq<Slot>): (bins: seq<Bin>)
    requires forall i :: 0 <= i < |slots| ==> slots[i].maxDegree != 0.0
    ensures |bins| == |slots| && forall i :: 0 <= i < |bins| ==> bins[i] == Tighten(slots[i])
  {
    if slots == [] then [] else [Tighten(slots[0])] + TightenAll(slots[1..])
  }

  /** The non-empty buckets, highest first. */
  function Occupied(slots: seq<Slot>): (r: seq<Slot>)
    ensures forall i :: 0 <= i < |r| ==> r[i].count != 0 && r[i].maxDegree != 0.0
  {
    if slots == [] then []
    else
      var last := slots[|slots| - 1];
      (if last.count == 0 || last.maxDegree == 0.0 then [] else [last]) + Occupied(slots[..|slots| - 1])
  }

  /** `FinishCollection` */
  function Finish(slots: seq<Slot>): seq<Bin> {
    TightenAll(Occupied(slots))
  }

  /** The cardinality a sequence stands for: what `GetCard` returns. */
  function Card(bins: seq<Bin>): real {
    if bins == [] then 0.0 else Times(bins[0].count, bins[0].degree) + Card(bins[1..])
  }

  /** The mass of a list of bins above a threshold. */
  function CardOver(bins: seq<Bin>, t: real): real {
    if bins == [] then 0.0 else Times(bins[0].count, Over(bins[0].degree, t)) + CardOver(bins[1..], t)
  }

  // ---- Compression only moves up ----

  /** The part of a degree `m` that lies above `t`. */
  function Share(m: real, t: real): real {
    if m > t && m > 0.0 then (m - t) / m else 0.0
  }

  lemma ShareTimes(m: real, t: real)
    requires m > t && m > 0.0
    ensures m * Share(m, t) == m - t
  {
  }

  lemma ShareAtLeast(d: real, m: real, t: real)
    requires 0.0 <= d <= m && t >= 0.0
    ensures d * Share(m, t) >= Over(d, t)
    ensures Share(m, t) >= 0.0
  {
    if d > t {
      var g := Share(m, t);
      ShareTimes(m, t);
      assert g <= 1.0 by {
        if g > 1.0 {
          MulStrict(m, 1.0, g);
        }
      }
      MulMono(m - d, g, 1.0);
      assert (m - d) * g == m * g - d * g;
    }
  }

  lemma FactorAtMost(m: real, g: real, h: real, d: real)
    requires m > 0.0 && m * g == d && m * h >= d
    ensures g <= h
  {
    if g > h {
      MulStrict(m, h, g);
    }
  }

  lemma ShareMono(m: real, m': real, t: real)
    requires m <= m' && t >= 0.0
    ensures Share(m, t) <= Share(m', t)
  {
    if m > t && m > 0.0 {
      ShareTimes(m, t);
      ShareAtLeast(m, m', t);
      assert Over(m, t) == m - t;
      FactorAtMost(m, Share(m, t), Share(m', t), m - t);
    } else {
      if m' > t && m' > 0.0 {
        ShareAtLeast(m', m', t);
      }
    }
  }

  lemma MulStrict(x: real, y: real, z: real)
    requires x > 0.0 && y < z
    ensures x * y < x * z
  {
  }

  /** `x` of mass above `t` fits into a bucket, both by the number of its keys and by their total. */
  ghost predicate Fits(s: Slot, x: real, t: real) {
    FitsByCount(s, x, t) && FitsBySum(s, x, t)
  }

  ghost predicate FitsByCount(s: Slot, x: real, t: real) {
    x <= Times(s.count, Over(s.maxDegree, t))
  }

  ghost predicate FitsBySum(s: Slot, x: real, t: real) {
    x <= s.sum * Share(s.maxDegree, t)
  }

  ghost predicate Sane(s: Slot) {
    s.maxDegree >= 0.0 && s.sum >= 0.0
  }

  lemma {:induction false} TimesAdd(m: nat, n: nat, x: real)
    ensures Times(m + n, x) == Times(m, x) + Times(n, x)
  {
    if n > 0 {
      TimesAdd(m, n - 1, x);
    }
  }

  lemma {:induction false} TimesDistribute(n: nat, x: real, y: real)
    ensures Times(n, x + y) == Times(n, x) + Times(n, y)
  {
    if n > 0 {
      TimesDistribute(n - 1, x, y);
    }
  }

  lemma {:induction false} TimesZero(n: nat)
    ensures Times(n, 0.0) == 0.0
  {
    if n > 0 {
      TimesZero(n - 1);
    }
  }

  lemma {:induction false} TimesMono(n: nat, x: real, y: real)
    requires x <= y
    ensures Times(n, x) <= Times(n, y)
  {
    if n > 0 {
      TimesMono(n - 1, x, y);
    }
  }

  lemma Distribute(x: real, y: real, g: real)
    ensures (x + y) * g == x * g + y * g
  {
  }

  lemma {:induction false} TimesScale(n: nat, x: real, g: real)
    ensures Times(n, x) * g == Times(n, x * g)
  {
    if n > 0 {
      TimesScale(n - 1, x, g);
      calc {
        Times(n, x) * g;
        (Times(n - 1, x) + x) * g;
        { Distribute(Times(n - 1, x), x, g); }
        Times(n - 1, x) * g + x * g;
        Times(n, x * g);
      }
    }
  }

  lemma {:induction false} TimesIsProduct(n: nat, x: real)
    ensures Times(n, x) == n as real * x
  {
    if n > 0 {
      TimesIsProduct(n - 1, x);
      assert n as real * x == (n - 1) as real * x + x;
    }
  }

  lemma TimesNonNegative(n: nat, x: real)
    requires x >= 0.0
    ensures Times(n, x) >= 0.0
  {
  }

  lemma CountBound(n: nat, c: nat, m: real, d: real, t: real)
    ensures Times(n + c, Over(Max(m, d), t)) >= Times(n, Over(m, t)) + Times(c, Over(d, t))
  {
    var m' := Max(m, d);
    TimesAdd(n, c, Over(m', t));
    TimesMono(n, Over(m, t), Over(m', t));
    TimesMono(c, Over(d, t), Over(m', t));
  }

  lemma SumBound(s: real, c: nat, m: real, d: real, t: real)
    requires s >= 0.0 && d >= 0.0 && t >= 0.0
    ensures (s + Times(c, d)) * Share(Max(m, d), t) >= s * Share(m, t) + Times(c, Over(d, t))
  {
    var g := Share(Max(m, d), t);
    ShareMono(m, Max(m, d), t);
    MulMono(s, Share(m, t), g);
    ShareAtLeast(d, Max(m, d), t);
    TimesScale(c, d, g);
    TimesMono(c, Over(d, t), d * g);
    Distribute(s, Times(c, d), g);
  }

  lemma MergeFitsByCount(s: Slot, degree: real, count: nat, x: real, t: real)
    requires FitsByCount(s, x, t)
    ensures FitsByCount(Merge(s, degree, count), x + Times(count, Over(degree, t)), t)
  {
    CountBound(s.count, count, s.maxDegree, degree, t);
  }

  lemma MergeFitsBySum(s: Slot, degree: real, count: nat, x: real, t: real)
    requires Sane(s) && degree >= 0.0 && t >= 0.0 && FitsBySum(s, x, t)
    ensures FitsBySum(Merge(s, degree, count), x + Times(count, Over(degree, t)), t)
  {
    SumBound(s.sum, count, s.maxDegree, degree, t);
  }

  lemma MergeFits(s: Slot, degree: real, count: nat, x: real, t: real)
    requires Sane(s) && degree >= 0.0 && t >= 0.0 && Fits(s, x, t)
    ensures Fits(Merge(s, degree, count), x + Times(count, Over(degree, t)), t)
  {
    MergeFitsByCount(s, degree, count, x, t);
    MergeFitsBySum(s, degree, count, x, t);
  }

  ghost predicate AllFit(slots: seq<Slot>, xs: seq<real>, t: real) {
    |xs| == |slots| && forall i :: 0 <= i < |slots| ==> Fits(slots[i], xs[i], t)
  }

  /** Every bucket is sane, and its maximum belongs there. */
  ghost predicate Placed(slots: seq<Slot>, p: real) {
    forall i :: 0 <= i < |slots| ==> Sane(slots[i]) && (slots[i].maxDegree > 0.0 ==> Bucket(slots[i].maxDegree, p) == i)
  }

  lemma AddPlaced(slots: seq<Slot>, degree: real, count: nat, p: real)
    requires Placed(slots, p) && degree >= 0.0
    ensures Placed(AddTo(slots, degree, count, p), p)
  {
    TimesNonNegative(count, degree);
  }

  lemma {:induction false} SumUpdate(xs: seq<real>, pos: nat, v: real, k: nat)
    requires pos < |xs| && k <= |xs|
    ensures SumTo(xs[pos := v], k) == SumTo(xs, k) + if pos < k then v - xs[pos] else 0.0
  {
    if k > 0 {
      SumUpdate(xs, pos, v, k - 1);
    }
  }

  lemma {:induction false} SumPadded(xs: seq<real>, ys: seq<real>, k: nat)
    requires |xs| <= k <= |ys| && forall i :: 0 <= i < |ys| ==> ys[i] == At(xs, i)
    ensures SumTo(ys, k) == SumTo(xs, |xs|)
  {
    if k == |xs| {
      SumPrefix(ys, xs, k);
    } else {
      SumPadded(xs, ys, k - 1);
    }
  }

  lemma EmptyFits(t: real)
    ensures Fits(Slot(0.0, 0, 0.0), 0.0, t)
  {
  }

  /** The buckets together hold `x` of mass above `t`. */
  ghost predicate Holds(slots: seq<Slot>, p: real, t: real, x: real) {
    Placed(slots, p) && exists xs :: AllFit(slots, xs, t) && SumTo(xs, |xs|) == x
  }

  lemma AddFits(slots: seq<Slot>, xs: seq<real>, degree: real, count: nat, p: real, t: real) returns (ys: seq<real>)
    requires Placed(slots, p) && AllFit(slots, xs, t) && degree >= 0.0 && t >= 0.0
    ensures AllFit(AddTo(slots, degree, count, p), ys, t)
    ensures SumTo(ys, |ys|) == SumTo(xs, |xs|) + Times(count, Over(degree, t))
  {
    var pos := Bucket(degree, p);
    var grown := Grow(slots, pos + 1);
    var padded := Ranks(xs, |grown|);
    EmptyFits(t);
    SumPadded(xs, padded, |padded|);
    var v := padded[pos] + Times(count, Over(degree, t));
    ys := padded[pos := v];
    SumUpdate(padded, pos, v, |padded|);
    MergeFits(grown[pos], degree, count, padded[pos], t);
  }

  lemma AddHolds(slots: seq<Slot>, degree: real, count: nat, p: real, t: real, x: real)
    requires Holds(slots, p, t, x) && degree >= 0.0 && t >= 0.0
    ensures Holds(AddTo(slots, degree, count, p), p, t, x + Times(count, Over(degree, t)))
  {
    var xs :| AllFit(slots, xs, t) && SumTo(xs, |xs|) == x;
    var ys := AddFits(slots, xs, degree, count, p, t);
    AddPlaced(slots, degree, count, p);
  }

  ghost predicate Countable(items: seq<Bin>) {
    forall i :: 0 <= i < |items| ==> items[i].degree >= 0.0
  }

  lemma CardOverSplit(items: seq<Bin>, t: real)
    requires items != []
    ensures CardOver(items, t) == Times(items[0].count, Over(items[0].degree, t)) + CardOver(items[1..], t)
  {
  }

  lemma {:induction false} AddAllHolds(slots: seq<Slot>, items: seq<Bin>, p: real, t: real, x: real)
    requires Holds(slots, p, t, x) && Countable(items) && t >= 0.0
    ensures Holds(AddAll(slots, items, p), p, t, x + CardOver(items, t))
    decreases |items|
  {
    if items != [] {
      var d, c := items[0].degree, items[0].count;
      AddHolds(slots, d, c, p, t, x);
      AddAllHolds(AddTo(slots, d, c, p), items[1..], p, t, x + Times(c, Over(d, t)));
      CardOverSplit(items, t);
    }
  }

  lemma CeilAbove(x: real)
    ensures Ceil(x) as real >= x
  {
  }

  /** The corrected count still covers whatever fits into the bucket. */
  lemma TightenCovers(s: Slot, x: real, t: real)
    requires Sane(s) && s.maxDegree > 0.0 && Fits(s, x, t)
    ensures x <= Times(Tighten(s).count, Over(s.maxDegree, t))
  {
    var m := s.maxDegree;
    var q := s.sum / m;
    if Ceil(q) < s.count {
      CeilAbove(q);
      TimesIsProduct(Ceil(q), Over(m, t));
      MulMono(Over(m, t), q, Ceil(q) as real);
      if m > t {
        assert q * (m - t) == s.sum * ((m - t) / m);
      }
    }
  }

  lemma SkippedIsEmpty(s: Slot, x: real, t: real)
    requires Sane(s) && (s.count == 0 || s.maxDegree == 0.0) && t >= 0.0 && Fits(s, x, t)
    ensures x <= 0.0
  {
  }

  lemma {:induction false} FinishOver(slots: seq<Slot>, xs: seq<real>, p: real, t: real)
    requires Placed(slots, p) && AllFit(slots, xs, t) && t >= 0.0
    ensures CardOver(Finish(slots), t) >= SumTo(xs, |xs|)
    decreases |slots|
  {
    if slots != [] {
      var n := |slots| - 1;
      FinishOver(slots[..n], xs[..n], p, t);
      SumPrefix(xs, xs[..n], n);
      FinishStep(slots, t, xs[n]);
    }
  }

  lemma FinishStep(slots: seq<Slot>, t: real, x: real)
    requires slots != [] && t >= 0.0
    requires Sane(slots[|slots| - 1]) && Fits(slots[|slots| - 1], x, t)
    ensures CardOver(Finish(slots), t) >= CardOver(Finish(slots[..|slots| - 1]), t) + x
  {
    var last, rest := slots[|slots| - 1], slots[..|slots| - 1];
    if last.count == 0 || last.maxDegree == 0.0 {
      SkippedIsEmpty(last, x, t);
      assert Occupied(slots) == Occupied(rest);
    } else {
      TightenCovers(last, x, t);
      assert Occupied(slots) == [last] + Occupied(rest);
      assert Finish(slots) == [Tighten(last)] + Finish(rest);
      CardOverCons(Tighten(last), Finish(rest), t);
    }
  }

  lemma CardOverCons(bin: Bin, rest: seq<Bin>, t: real)
    ensures CardOver([bin] + rest, t) == Times(bin.count, Over(bin.degree, t)) + CardOver(rest, t)
  {
    CardOverSplit([bin] + rest, t);
    assert ([bin] + rest)[1..] == rest;
  }

  /** Compressing a list of degrees loses no mass above any threshold. */
  lemma CompressUp(items: seq<Bin>, p: real, t: real)
    requires Countable(items) && t >= 0.0
    ensures CardOver(items, t) <= CardOver(Finish(AddAll([], items, p)), t)
  {
    assert AllFit([], [], t) && SumTo([], 0) == 0.0;
    AddAllHolds([], items, p, t, 0.0);
    var slots := AddAll([], items, p);
    var xs :| AllFit(slots, xs, t) && SumTo(xs, |xs|) == 0.0 + CardOver(items, t);
    FinishOver(slots, xs, p, t);
  }

  // ---- A compressed sequence, rank by rank ----

  function Run(d: real, c: nat): (xs: seq<real>)
    ensures |xs| == c && forall i :: 0 <= i < c ==> xs[i] == d
  {
    if c == 0 then [] else Run(d, c - 1) + [d]
  }

  function Expand(bins: seq<Bin>): seq<real> {
    if bins == [] then [] else Run(bins[0].degree, bins[0].count) + Expand(bins[1..])
  }

  lemma {:induction false} OverAppend(xs: seq<real>, ys: seq<real>, t: real, k: nat)
    requires k <= |ys|
    ensures OverTo(xs + ys, t, |xs| + k) == OverTo(xs, t, |xs|) + OverTo(ys, t, k)
  {
    if k == 0 {
      OverSame(xs + ys, xs, t, |xs|);
    } else {
      OverAppend(xs, ys, t, k - 1);
    }
  }

  lemma {:induction false} OverSame(xs: seq<real>, ys: seq<real>, t: real, k: nat)
    requires k <= |xs| && k <= |ys| && forall i :: 0 <= i < k ==> xs[i] == ys[i]
    ensures OverTo(xs, t, k) == OverTo(ys, t, k)
  {
    if k > 0 {
      OverSame(xs, ys, t, k - 1);
    }
  }

  lemma {:induction false} OverRun(d: real, c: nat, t: real, k: nat)
    requires k <= c
    ensures OverTo(Run(d, c), t, k) == Times(k, Over(d, t))
  {
    if k > 0 {
      OverRun(d, c, t, k - 1);
    }
  }

  /** Bins and ranks agree on the mass above every threshold. */
  lemma {:induction false} ExpandOver(bins: seq<Bin>, t: real)
    ensures OverTo(Expand(bins), t, |Expand(bins)|) == CardOver(bins, t)
  {
    if bins != [] {
      var run, rest := Run(bins[0].degree, bins[0].count), Expand(bins[1..]);
      OverRun(bins[0].degree, bins[0].count, t, bins[0].count);
      ExpandOver(bins[1..], t);
      OverAppend(run, rest, t, |rest|);
    }
  }

  lemma {:induction false} SumAppend(xs: seq<real>, ys: seq<real>, k: nat)
    requires k <= |ys|
    ensures SumTo(xs + ys, |xs| + k) == SumTo(xs, |xs|) + SumTo(ys, k)
  {
    if k == 0 {
      SumPrefix(xs + ys, xs, |xs|);
    } else {
      SumAppend(xs, ys, k - 1);
    }
  }

  lemma {:induction false} SumRun(d: real, c: nat, k: nat)
    requires k <= c
    ensures SumTo(Run(d, c), k) == Times(k, d)
  {
    if k > 0 {
      SumRun(d, c, k - 1);
    }
  }

  lemma {:induction false} ExpandSum(bins: seq<Bin>)
    ensures SumTo(Expand(bins), |Expand(bins)|) == Card(bins)
  {
    if bins != [] {
      var run, rest := Run(bins[0].degree, bins[0].count), Expand(bins[1..]);
      SumRun(bins[0].degree, bins[0].count, bins[0].count);
      ExpandSum(bins[1..]);
      SumAppend(run, rest, |rest|);
    }
  }

  /** Degrees are not negative and descend. */
  ghost predicate Proper(bins: seq<Bin>) {
    && (forall i :: 0 <= i < |bins| ==> bins[i].degree >= 0.0)
    && forall i, j :: 0 <= i < j < |bins| ==> bins[i].degree >= bins[j].degree
  }

  lemma {:induction false} ExpandBounded(bins: seq<Bin>, b: real, i: nat)
    requires i < |Expand(bins)| && forall k :: 0 <= k < |bins| ==> 0.0 <= bins[k].degree <= b
    ensures 0.0 <= Expand(bins)[i] <= b
  {
    if i >= bins[0].count {
      ExpandBounded(bins[1..], b, i - bins[0].count);
    }
  }

  lemma {:induction false} ExpandDescending(bins: seq<Bin>)
    requires Proper(bins)
    ensures Descending(Expand(bins))
  {
    if bins != [] {
      ExpandDescending(bins[1..]);
      var rest := Expand(bins[1..]);
      forall i | 0 <= i < |rest| ensures rest[i] <= bins[0].degree {
        ExpandBounded(bins[1..], bins[0].degree, i);
      }
    }
  }

  lemma {:induction false} OccupiedFrom(slots: seq<Slot>, i: nat) returns (j: nat)
    requires i < |Occupied(slots)|
    ensures j < |slots| && Occupied(slots)[i] == slots[j]
    decreases |slots|
  {
    var n := |slots| - 1;
    var skip := slots[n].count == 0 || slots[n].maxDegree == 0.0;
    if !skip && i == 0 {
      j := n;
    } else {
      j := OccupiedFrom(slots[..n], if skip then i else i - 1);
    }
  }

  /** What is in the lower buckets has lower degrees. */
  lemma LowerBefore(slots: seq<Slot>, p: real, i: nat)
    requires Placed(slots, p) && slots != [] && slots[|slots| - 1].maxDegree != 0.0
    requires i < |Finish(slots[..|slots| - 1])|
    ensures Finish(slots[..|slots| - 1])[i].degree <= slots[|slots| - 1].maxDegree
  {
    var last, rest := slots[|slots| - 1], slots[..|slots| - 1];
    var j := OccupiedFrom(rest, i);
    assert Finish(rest)[i].degree == rest[j].maxDegree;
    if rest[j].maxDegree > last.maxDegree {
      BucketMono(last.maxDegree, rest[j].maxDegree, p);
    }
  }

  lemma ProperCons(b: Bin, bins: seq<Bin>)
    requires Proper([b]) && Proper(bins) && forall i :: 0 <= i < |bins| ==> bins[i].degree <= b.degree
    ensures Proper([b] + bins)
  {
    assert [b][0] == b;
  }

  /** Finished sequences descend: a higher bucket holds higher degrees. */
  lemma {:induction false} FinishProper(slots: seq<Slot>, p: real)
    requires Placed(slots, p)
    ensures Proper(Finish(slots))
    decreases |slots|
  {
    if slots != [] {
      var n := |slots| - 1;
      var last, rest := slots[n], slots[..n];
      FinishProper(rest, p);
      if last.count != 0 && last.maxDegree != 0.0 {
        assert Occupied(slots) == [last] + Occupied(rest);
        assert Finish(slots) == [Tighten(last)] + Finish(rest);
        forall i | 0 <= i < |Finish(rest)| ensures Finish(rest)[i].degree <= last.maxDegree {
          LowerBefore(slots, p, i);
        }
        ProperCons(Tighten(last), Finish(rest));
      } else {
        assert Occupied(slots) == Occupied(rest);
      }
    }
  }

  lemma {:induction false} AddAllPlaced(slots: seq<Slot>, items: seq<Bin>, p: real)
    requires Placed(slots, p) && Countable(items)
    ensures Placed(AddAll(slots, items, p), p)
    decreases |items|
  {
    if items != [] {
      AddPlaced(slots, items[0].degree, items[0].count, p);
      AddAllPlaced(AddTo(slots, items[0].degree, items[0].count, p), items[1..], p);
    }
  }

  /** A list of degrees, compressed with the given precision. */
  function Compress(items: seq<Bin>, p: real): seq<Bin> {
    Finish(AddAll([], items, p))
  }

  // ---- The order of the degrees does not matter ----

  lemma AddCommutes(slots: seq<Slot>, x: Bin, y: Bin, p: real)
    ensures AddTo(AddTo(slots, x.degree, x.count, p), y.degree, y.count, p) ==
            AddTo(AddTo(slots, y.degree, y.count, p), x.degree, x.count, p)
  {
    var a := AddTo(AddTo(slots, x.degree, x.count, p), y.degree, y.count, p);
    var b := AddTo(AddTo(slots, y.degree, y.count, p), x.degree, x.count, p);
    assert |a| == |b|;
    forall i | 0 <= i < |a| ensures a[i] == b[i] {
    }
  }

  /** A degree may be added first. */
  lemma {:induction false} AddFirst(slots: seq<Slot>, before: seq<Bin>, x: Bin, after: seq<Bin>, p: real)
    ensures AddAll(slots, before + [x] + after, p) == AddAll(AddTo(slots, x.degree, x.count, p), before + after, p)
    decreases |before|
  {
    if before == [] {
      assert before + [x] + after == [x] + after && ([x] + after)[1..] == after && before + after == after;
    } else {
      var y := before[0];
      assert (before + [x] + after)[1..] == before[1..] + [x] + after && (before + after)[1..] == before[1..] + after;
      AddFirst(AddTo(slots, y.degree, y.count, p), before[1..], x, after, p);
      AddCommutes(slots, x, y, p);
    }
  }

  lemma WithoutOne(x: Bin, rest: seq<Bin>, before: seq<Bin>, after: seq<Bin>)
    requires multiset([x] + rest) == multiset(before + [x] + after)
    ensures multiset(rest) == multiset(before + after)
  {
    assert multiset(rest) == multiset([x] + rest) - multiset{x};
    assert multiset(before + after) == multiset(before + [x] + after) - multiset{x};
  }

  lemma {:induction false} AddAllPermuted(slots: seq<Slot>, xs: seq<Bin>, ys: seq<Bin>, p: real)
    requires multiset(xs) == multiset(ys)
    ensures AddAll(slots, xs, p) == AddAll(slots, ys, p)
    decreases |xs|
  {
    if xs == [] {
      assert |multiset(ys)| == |ys|;
    } else {
      var x := xs[0];
      assert x in multiset(ys);
      var i :| 0 <= i < |ys| && ys[i] == x;
      var before, after := ys[..i], ys[i + 1..];
      assert xs == [x] + xs[1..] && ys == before + [x] + after;
      WithoutOne(x, xs[1..], before, after);
      AddFirst(slots, before, x, after, p);
      AddAllPermuted(AddTo(slots, x.degree, x.count, p), xs[1..], before + after, p);
    }
  }

  /** The same degrees give the same sequence, in whatever order they are added. */
  lemma CompressPermuted(xs: seq<Bin>, ys: seq<Bin>, p: real)
    requires multiset(xs) == multiset(ys)
    ensures Compress(xs, p) == Compress(ys, p)
  {
    AddAllPermuted([], xs, ys, p);
  }

  lemma CompressProper(items: seq<Bin>, p: real)
    requires Countable(items)
    ensures Proper(Compress(items, p))
  {
    AddAllPlaced([], items, p);
    FinishProper(AddAll([], items, p), p);
  }

  /** Compression turns any list of degrees into a sequence that dominates it. */
  lemma CompressDominates(items: seq<Bin>, p: real, xs: seq<real>)
    requires Countable(items) && Exceeds(Expand(items), xs)
    ensures Proper(Compress(items, p)) && Dominates(Expand(Compress(items, p)), xs)
  {
    var bins := Compress(items, p);
    CompressProper(items, p);
    ExpandDescending(bins);
    forall t | t >= 0.0 ensures OverTo(xs, t, |xs|) <= OverTo(Expand(bins), t, |Expand(bins)|) {
      CompressUp(items, p, t);
      ExpandOver(items, t);
      ExpandOver(bins, t);
    }
    ExceedsDominates(Expand(bins), xs);
  }

  // ---- The dot product of two sequences ----

  /** The runs met when two sequences are walked side by side, with the product of their degrees. */
  function Segments(a: seq<Bin>, b: seq<Bin>): seq<Bin>
    decreases |a| + |b|
  {
    if a == [] || b == [] then []
    else
      var c := MinNat(a[0].count, b[0].count);
      [Bin(a[0].degree * b[0].degree, c)] + Segments(Advance(a, c), Advance(b, c))
  }

  /** What is left after `c` more ranks, `c` being at most the first run. */
  function Advance(a: seq<Bin>, c: nat): seq<Bin>
    requires a != [] && c <= a[0].count
  {
    if a[0].count == c then a[1..] else [Bin(a[0].degree, a[0].count - c)] + a[1..]
  }

  lemma ExpandCons(bin: Bin, rest: seq<Bin>)
    ensures Expand([bin] + rest) == Run(bin.degree, bin.count) + Expand(rest)
  {
    assert ([bin] + rest)[1..] == rest;
  }

  lemma RunSplit(d: real, c: nat, k: nat)
    ensures Run(d, c + k) == Run(d, c) + Run(d, k)
  {
  }

  lemma ExpandAdvance(a: seq<Bin>, c: nat)
    requires a != [] && c <= a[0].count
    ensures Expand(a) == Run(a[0].degree, c) + Expand(Advance(a, c))
  {
    if a[0].count != c {
      ExpandPartRun(a[0].degree, c, a[0].count, a[1..]);
    }
  }

  lemma {:induction false} ExpandPartRun(d: real, c: nat, n: nat, rest: seq<Bin>)
    requires c < n
    ensures Run(d, n) + Expand(rest) == Run(d, c) + Expand([Bin(d, n - c)] + rest)
  {
    var k := n - c;
    var xy, x, y, z, yz := Run(d, n), Run(d, c), Run(d, k), Expand(rest), Expand([Bin(d, k)] + rest);
    assert xy == x + y by {
      RunSplit(d, c, k);
    }
    assert yz == y + z by {
      ExpandCons(Bin(d, k), rest);
    }
    Regroup(xy, x, y, z, yz);
  }

  lemma Regroup(xy: seq<real>, x: seq<real>, y: seq<real>, z: seq<real>, yz: seq<real>)
    requires xy == x + y && yz == y + z
    ensures xy + z == x + yz
  {
  }

  lemma RankProductIndex(a: seq<real>, b: seq<real>, i: nat, x: real, y: real, z: real)
    requires i < |a| && i < |b| && a[i] == x && b[i] == y && z == x * y
    ensures i < |RankProduct(a, b)| && RankProduct(a, b)[i] == z
  {
  }

  lemma RankProductRun(d: real, d': real, dd: real, c: nat, xs: seq<real>, ys: seq<real>)
    requires dd == d * d'
    ensures RankProduct(Run(d, c) + xs, Run(d', c) + ys) == Run(dd, c) + RankProduct(xs, ys)
  {
    var a, b := Run(d, c) + xs, Run(d', c) + ys;
    var l, r := RankProduct(a, b), Run(dd, c) + RankProduct(xs, ys);
    assert |l| == |r|;
    assert forall i :: 0 <= i < |l| ==> l[i] == r[i] by {
      forall i | 0 <= i < |l| ensures l[i] == r[i] {
        if i < c {
          RankProductIndex(a, b, i, d, d', dd);
        } else {
          RankProductShift(a, b, xs, ys, c, i);
        }
      }
    }
  }

  lemma RankProductShift(a: seq<real>, b: seq<real>, xs: seq<real>, ys: seq<real>, c: nat, i: nat)
    requires c <= i < |a| && i < |b| && |a| == c + |xs| && |b| == c + |ys|
    requires a[i] == xs[i - c] && b[i] == ys[i - c]
    ensures i < |RankProduct(a, b)| && i - c < |RankProduct(xs, ys)| && RankProduct(a, b)[i] == RankProduct(xs, ys)[i - c]
  {
    var z := xs[i - c] * ys[i - c];
    RankProductIndex(xs, ys, i - c, xs[i - c], ys[i - c], z);
    RankProductIndex(a, b, i, xs[i - c], ys[i - c], z);
  }

  lemma {:induction false} ExpandSegments(a: seq<Bin>, b: seq<Bin>)
    ensures Expand(Segments(a, b)) == RankProduct(Expand(a), Expand(b))
    decreases |a| + |b|
  {
    if a != [] && b != [] {
      var c := MinNat(a[0].count, b[0].count);
      var rest := Segments(Advance(a, c), Advance(b, c));
      var d, xs, ys := a[0].degree * b[0].degree, Expand(Advance(a, c)), Expand(Advance(b, c));
      calc {
        Expand(Segments(a, b));
        { assert Segments(a, b) == [Bin(d, c)] + rest; }
        Expand([Bin(d, c)] + rest);
        { ExpandCons(Bin(d, c), rest); }
        Run(d, c) + Expand(rest);
        { ExpandSegments(Advance(a, c), Advance(b, c)); }
        Run(d, c) + RankProduct(xs, ys);
        { RankProductRun(a[0].degree, b[0].degree, d, c, xs, ys); }
        RankProduct(Run(a[0].degree, c) + xs, Run(b[0].degree, c) + ys);
        { ExpandAdvance(a, c); ExpandAdvance(b, c); }
        RankProduct(Expand(a), Expand(b));
      }
    }
  }

  lemma {:induction false} SegmentsCountable(a: seq<Bin>, b: seq<Bin>)
    requires Countable(a) && Countable(b)
    ensures Countable(Segments(a, b))
    decreases |a| + |b|
  {
    if a != [] && b != [] {
      var c := MinNat(a[0].count, b[0].count);
      SegmentsCountable(Advance(a, c), Advance(b, c));
    }
  }

  function DotBins(a: seq<Bin>, b: seq<Bin>, p: real): seq<Bin> {
    Compress(Segments(a, b), p)
  }

  /** `dot` bounds the products: what it returns dominates the product of the families its arguments dominate. */
  lemma DotDominates(a: seq<Bin>, b: seq<Bin>, p: real, xs: seq<real>, ys: seq<real>)
    requires Proper(a) && Proper(b) && |xs| == |ys|
    requires forall i :: 0 <= i < |ys| ==> ys[i] >= 0.0
    requires Dominates(Expand(a), xs) && Dominates(Expand(b), ys)
    ensures Proper(DotBins(a, b, p)) && Dominates(Expand(DotBins(a, b, p)), Product(xs, ys))
  {
    ExpandDescending(a);
    ExpandDescending(b);
    ProductDominates(Expand(a), Expand(b), xs, ys);
    ExpandSegments(a, b);
    DominatesExceeds(Expand(Segments(a, b)), Product(xs, ys));
    SegmentsCountable(a, b);
    CompressDominates(Segments(a, b), p, Product(xs, ys));
  }
}

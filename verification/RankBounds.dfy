/**
 When a descending sequence of degrees bounds a family of degrees. The order used is weak
 majorisation; it has two equivalent forms, by rank and by threshold, and it is preserved by the
 rank-wise product.
 */
module RankBounds {

  // ---- Sums ----

  /** The sum of the first `k` elements. */
  function SumTo(xs: seq<real>, k: nat): real
    requires k <= |xs|
  {
    if k == 0 then 0.0 else SumTo(xs, k - 1) + xs[k - 1]
  }

  function DotTo(xs: seq<real>, ys: seq<real>, k: nat): real
    requires k <= |xs| && k <= |ys|
  {
    if k == 0 then 0.0 else DotTo(xs, ys, k - 1) + xs[k - 1] * ys[k - 1]
  }

  /** `max(x - t, 0)` */
  function Over(x: real, t: real): real {
    if x > t then x - t else 0.0
  }

  /** The mass of the first `k` elements above the threshold `t`. */
  function OverTo(xs: seq<real>, t: real, k: nat): real
    requires k <= |xs|
  {
    if k == 0 then 0.0 else OverTo(xs, t, k - 1) + Over(xs[k - 1], t)
  }

  /** `t` added up `n` times. */
  function Times(n: nat, t: real): real {
    if n == 0 then 0.0 else Times(n - 1, t) + t
  }

  /** The value at rank `i`; past the end it is 0. */
  function At(e: seq<real>, i: nat): real {
    if i < |e| then e[i] else 0.0
  }

  /** The mass of the first `n` ranks. */
  function Prefix(e: seq<real>, n: nat): real {
    if n == 0 then 0.0 else Prefix(e, n - 1) + At(e, n - 1)
  }

  /** A degree sequence: non-negative and descending. */
  ghost predicate Descending(e: seq<real>) {
    (forall i, j :: 0 <= i < j < |e| ==> e[i] >= e[j]) && forall i :: 0 <= i < |e| ==> e[i] >= 0.0
  }

  lemma {:induction false} SumPrefix(xs: seq<real>, ys: seq<real>, k: nat)
    requires k <= |xs| && k <= |ys| && forall i :: 0 <= i < k ==> xs[i] == ys[i]
    ensures SumTo(xs, k) == SumTo(ys, k)
  {
    if k > 0 {
      SumPrefix(xs, ys, k - 1);
    }
  }

  lemma {:induction false} SumIsPrefix(xs: seq<real>, k: nat)
    requires k <= |xs|
    ensures SumTo(xs, k) == Prefix(xs, k)
  {
    if k > 0 {
      SumIsPrefix(xs, k - 1);
    }
  }

  lemma {:induction false} PrefixPastEnd(e: seq<real>, n: nat)
    requires n >= |e|
    ensures Prefix(e, n) == SumTo(e, |e|)
  {
    if n == |e| {
      SumIsPrefix(e, n);
    } else {
      PrefixPastEnd(e, n - 1);
    }
  }

  lemma {:induction false} OverZeroSum(xs: seq<real>, k: nat)
    requires k <= |xs| && forall i :: 0 <= i < |xs| ==> xs[i] >= 0.0
    ensures OverTo(xs, 0.0, k) == SumTo(xs, k)
  {
    if k > 0 {
      OverZeroSum(xs, k - 1);
    }
  }

  /** The first `n` ranks, padded with zeros. */
  function Ranks(e: seq<real>, n: nat): (hs: seq<real>)
    ensures |hs| == n && forall i :: 0 <= i < n ==> hs[i] == At(e, i)
  {
    seq(n, i requires 0 <= i < n => At(e, i))
  }

  lemma {:induction false} RanksSum(e: seq<real>, n: nat, k: nat)
    requires k <= n
    ensures SumTo(Ranks(e, n), k) == Prefix(e, k)
  {
    if k > 0 {
      RanksSum(e, n, k - 1);
    }
  }

  /** Abel summation: with descending weights, dominated partial sums give a dominated weighted sum. */
  lemma {:induction false} Abel(xs: seq<real>, hs: seq<real>, ws: seq<real>, k: nat)
    requires k <= |xs| == |hs| == |ws| && Descending(ws)
    requires forall i :: 0 <= i <= |xs| ==> SumTo(xs, i) <= SumTo(hs, i)
    ensures DotTo(xs, ws, k) <= DotTo(hs, ws, k)
    ensures k > 0 ==> DotTo(hs, ws, k) - DotTo(xs, ws, k) >= (SumTo(hs, k) - SumTo(xs, k)) * ws[k - 1]
  {
    if k > 0 {
      Abel(xs, hs, ws, k - 1);
      var d := SumTo(hs, k - 1) - SumTo(xs, k - 1);
      var before := DotTo(hs, ws, k - 1) - DotTo(xs, ws, k - 1);
      assert SumTo(xs, k) <= SumTo(hs, k);
      AbelStep(before, d, hs[k - 1], xs[k - 1], if k > 1 then ws[k - 2] else ws[k - 1], ws[k - 1]);
    }
  }

  lemma AbelStep(before: real, d: real, h: real, x: real, w: real, w': real)
    requires before >= d * w && d >= 0.0 && w >= w' >= 0.0 && d + h - x >= 0.0
    ensures before + h * w' - x * w' >= (d + h - x) * w' >= 0.0
  {
    assert d * w >= d * w';
    assert (d + h - x) * w' == d * w' + h * w' - x * w';
  }

  // ---- Selections ----

  /** Distinct positions of a family of `n` elements. */
  ghost predicate Selection(idx: seq<nat>, n: nat) {
    (forall i :: 0 <= i < |idx| ==> idx[i] < n) && forall i, j :: 0 <= i < j < |idx| ==> idx[i] != idx[j]
  }

  function Pick(xs: seq<real>, idx: seq<nat>): (ys: seq<real>)
    requires forall i :: 0 <= i < |idx| ==> idx[i] < |xs|
    ensures |ys| == |idx| && forall i :: 0 <= i < |idx| ==> ys[i] == xs[idx[i]]
  {
    seq(|idx|, i requires 0 <= i < |idx| => xs[idx[i]])
  }

  function Drop<T>(s: seq<T>, p: nat): (r: seq<T>)
    requires p < |s|
    ensures |r| == |s| - 1
    ensures forall i :: 0 <= i < |r| ==> r[i] == if i < p then s[i] else s[i + 1]
  {
    s[..p] + s[p + 1..]
  }

  /** What a selection weighs. */
  function Weight(xs: seq<real>, idx: seq<nat>): real
    requires forall i :: 0 <= i < |idx| ==> idx[i] < |xs|
  {
    SumTo(Pick(xs, idx), |idx|)
  }

  lemma WeightSlice(xs: seq<real>, idx: seq<nat>, k: nat)
    requires k <= |idx| && forall i :: 0 <= i < |idx| ==> idx[i] < |xs|
    ensures SumTo(Pick(xs, idx), k) == Weight(xs, idx[..k])
  {
    SumPrefix(Pick(xs, idx), Pick(xs, idx[..k]), k);
  }

  lemma WeightSnoc(xs: seq<real>, idx: seq<nat>, i: nat)
    requires i < |xs| && forall k :: 0 <= k < |idx| ==> idx[k] < |xs|
    ensures Weight(xs, idx + [i]) == Weight(xs, idx) + xs[i]
  {
    SumPrefix(Pick(xs, idx + [i]), Pick(xs, idx), |idx|);
  }

  lemma {:induction false} SumRemove(xs: seq<real>, p: nat, k: nat)
    requires p < k <= |xs|
    ensures SumTo(xs, k) == SumTo(Drop(xs, p), k - 1) + xs[p]
  {
    if k == p + 1 {
      SumPrefix(xs, Drop(xs, p), p);
    } else {
      SumRemove(xs, p, k - 1);
    }
  }

  lemma PickDropAt(xs: seq<real>, idx: seq<nat>, p: nat, i: nat)
    requires p < |idx| && i < |idx| - 1 && forall k :: 0 <= k < |idx| ==> idx[k] < |xs|
    ensures Drop(Pick(xs, idx), p)[i] == Pick(xs, Drop(idx, p))[i]
  {
    var d := Drop(idx, p);
    assert forall k :: 0 <= k < |d| ==> d[k] < |xs|;
    assert Pick(xs, d)[i] == xs[d[i]];
  }

  lemma PickDrop(xs: seq<real>, idx: seq<nat>, p: nat)
    requires p < |idx| && forall i :: 0 <= i < |idx| ==> idx[i] < |xs|
    ensures forall k :: 0 <= k < |Drop(idx, p)| ==> Drop(idx, p)[k] < |xs|
    ensures Drop(Pick(xs, idx), p) == Pick(xs, Drop(idx, p))
  {
    assert forall k :: 0 <= k < |Drop(idx, p)| ==> Drop(idx, p)[k] < |xs|;
    var left, right := Drop(Pick(xs, idx), p), Pick(xs, Drop(idx, p));
    assert forall i :: 0 <= i < |left| ==> left[i] == right[i] by {
      forall i | 0 <= i < |left| ensures left[i] == right[i] {
        PickDropAt(xs, idx, p, i);
      }
    }
  }

  /** Taking one position out of a selection. */
  lemma WeightRemove(xs: seq<real>, idx: seq<nat>, p: nat)
    requires p < |idx| && forall i :: 0 <= i < |idx| ==> idx[i] < |xs|
    ensures forall k :: 0 <= k < |Drop(idx, p)| ==> Drop(idx, p)[k] < |xs|
    ensures Weight(xs, idx) == Weight(xs, Drop(idx, p)) + xs[idx[p]]
  {
    SumRemove(Pick(xs, idx), p, |idx|);
    PickDrop(xs, idx, p);
  }

  lemma SelectionDrop(idx: seq<nat>, p: nat, n: nat)
    requires p < |idx| && n > 0 && Selection(idx, n) && idx[p] == n - 1
    ensures Selection(Drop(idx, p), n - 1)
  {
  }

  /** A selection of non-negative numbers weighs at most all of them. */
  lemma {:induction false} WeightBound(xs: seq<real>, idx: seq<nat>, n: nat)
    requires n <= |xs| && Selection(idx, n)
    requires forall i :: 0 <= i < n ==> xs[i] >= 0.0
    ensures Weight(xs, idx) <= SumTo(xs, n)
  {
    if exists p :: 0 <= p < |idx| && idx[p] == n - 1 {
      var p :| 0 <= p < |idx| && idx[p] == n - 1;
      WeightRemove(xs, idx, p);
      SelectionDrop(idx, p, n);
      WeightBound(xs, Drop(idx, p), n - 1);
    } else if n > 0 {
      WeightBound(xs, idx, n - 1);
    }
  }

  // ---- The two forms of domination ----

  /** Any `n` members of the family together weigh at most the first `n` ranks of the sequence. */
  ghost predicate Dominates(e: seq<real>, xs: seq<real>) {
    forall idx :: Selection(idx, |xs|) ==> Weight(xs, idx) <= Prefix(e, |idx|)
  }

  /** The family's mass above every threshold is at most the sequence's. */
  ghost predicate Exceeds(e: seq<real>, xs: seq<real>) {
    forall t :: t >= 0.0 ==> OverTo(xs, t, |xs|) <= OverTo(e, t, |e|)
  }

  function Overs(xs: seq<real>, t: real): (ys: seq<real>)
    ensures |ys| == |xs| && forall i :: 0 <= i < |ys| ==> ys[i] == Over(xs[i], t)
  {
    seq(|xs|, i requires 0 <= i < |xs| => Over(xs[i], t))
  }

  lemma {:induction false} OversSum(xs: seq<real>, t: real, k: nat)
    requires k <= |xs|
    ensures SumTo(Overs(xs, t), k) == OverTo(xs, t, k)
  {
    if k > 0 {
      OversSum(xs, t, k - 1);
    }
  }

  lemma {:induction false} BelowThreshold(xs: seq<real>, ys: seq<real>, t: real, k: nat)
    requires k <= |xs| == |ys| && forall i :: 0 <= i < |xs| ==> ys[i] == Over(xs[i], t)
    ensures SumTo(xs, k) <= Times(k, t) + SumTo(ys, k)
  {
    if k > 0 {
      BelowThreshold(xs, ys, t, k - 1);
    }
  }

  /** Up to rank `n` the mass is `t` per rank and all that is above `t`, when `t` is the value there. */
  lemma {:induction false} Split(e: seq<real>, n: nat, t: real, k: nat)
    requires Descending(e) && t >= 0.0 && k <= n
    requires forall i :: 0 <= i < n ==> At(e, i) >= t
    ensures Times(k, t) + OverTo(e, t, if k <= |e| then k else |e|) <= Prefix(e, k)
  {
    if k > 0 {
      Split(e, n, t, k - 1);
      assert At(e, k - 1) >= t;
    }
  }

  lemma {:induction false} OverTail(e: seq<real>, t: real, n: nat, k: nat)
    requires n <= k <= |e| && forall i :: n <= i < |e| ==> e[i] <= t
    ensures OverTo(e, t, k) == OverTo(e, t, n)
  {
    if k > n {
      OverTail(e, t, n, k - 1);
    }
  }

  lemma SplitAtRank(e: seq<real>, n: nat) returns (t: real)
    requires Descending(e)
    ensures t >= 0.0 && Times(n, t) + OverTo(e, t, |e|) <= Prefix(e, n)
  {
    if n == 0 {
      t := At(e, 0);
    } else {
      t := At(e, n - 1);
    }
    Split(e, n, t, n);
    if n <= |e| {
      OverTail(e, t, n, |e|);
    }
  }

  lemma ExceedsDominates(e: seq<real>, xs: seq<real>)
    requires Descending(e) && Exceeds(e, xs)
    ensures Dominates(e, xs)
  {
    forall idx | Selection(idx, |xs|) ensures Weight(xs, idx) <= Prefix(e, |idx|) {
      var t := SplitAtRank(e, |idx|);
      BelowThreshold(Pick(xs, idx), Pick(Overs(xs, t), idx), t, |idx|);
      WeightBound(Overs(xs, t), idx, |xs|);
      OversSum(xs, t, |xs|);
    }
  }

  /** `idx` picks positions below `k` that carry all the mass above `t`. */
  ghost predicate PicksAbove(xs: seq<real>, t: real, k: nat, idx: seq<nat>)
    requires k <= |xs|
  {
    Selection(idx, k) && Weight(xs, idx) == OverTo(xs, t, k) + Times(|idx|, t)
  }

  lemma {:induction false} SelectAbove(xs: seq<real>, t: real, k: nat) returns (idx: seq<nat>)
    requires k <= |xs|
    ensures PicksAbove(xs, t, k, idx)
  {
    if k == 0 {
      idx := [];
    } else {
      idx := SelectAbove(xs, t, k - 1);
      if xs[k - 1] > t {
        WeightSnoc(xs, idx, k - 1);
        idx := idx + [k - 1];
      }
    }
  }

  lemma {:induction false} PrefixBelow(e: seq<real>, n: nat, t: real)
    requires t >= 0.0
    ensures Prefix(e, n) <= Times(n, t) + OverTo(e, t, if n <= |e| then n else |e|)
  {
    if n > 0 {
      PrefixBelow(e, n - 1, t);
    }
  }

  lemma {:induction false} OverGrows(e: seq<real>, t: real, n: nat, k: nat)
    requires n <= k <= |e|
    ensures OverTo(e, t, n) <= OverTo(e, t, k)
  {
    if k > n {
      OverGrows(e, t, n, k - 1);
    }
  }

  lemma DominatesExceeds(e: seq<real>, xs: seq<real>)
    requires Dominates(e, xs)
    ensures Exceeds(e, xs)
  {
    forall t | t >= 0.0 ensures OverTo(xs, t, |xs|) <= OverTo(e, t, |e|) {
      var idx := SelectAbove(xs, t, |xs|);
      assert Weight(xs, idx) <= Prefix(e, |idx|);
      PrefixBelow(e, |idx|, t);
      OverGrows(e, t, if |idx| <= |e| then |idx| else |e|, |e|);
    }
  }

  // ---- The rank-wise product ----

  function Product(xs: seq<real>, ys: seq<real>): (zs: seq<real>)
    requires |xs| == |ys|
    ensures |zs| == |xs| && forall i :: 0 <= i < |zs| ==> zs[i] == xs[i] * ys[i]
  {
    seq(|xs|, i requires 0 <= i < |xs| => xs[i] * ys[i])
  }

  /** The rank-wise product, as long as both sequences last. */
  function RankProduct(a: seq<real>, b: seq<real>): seq<real> {
    var n := if |a| <= |b| then |a| else |b|;
    Product(a[..n], b[..n])
  }

  lemma {:induction false} RankProductPrefix(a: seq<real>, b: seq<real>, n: nat, k: nat)
    requires k <= n
    ensures DotTo(Ranks(a, n), Ranks(b, n), k) == Prefix(RankProduct(a, b), k)
  {
    if k > 0 {
      RankProductPrefix(a, b, n, k - 1);
      RankProductAt(a, b, k - 1);
      DotStep(Ranks(a, n), Ranks(b, n), k, At(a, k - 1), At(b, k - 1));
    }
  }

  lemma RankProductAt(a: seq<real>, b: seq<real>, i: nat)
    ensures At(RankProduct(a, b), i) == At(a, i) * At(b, i)
  {
  }

  lemma DotStep(xs: seq<real>, ys: seq<real>, k: nat, x: real, y: real)
    requires 0 < k <= |xs| == |ys| && xs[k - 1] == x && ys[k - 1] == y
    ensures DotTo(xs, ys, k) == DotTo(xs, ys, k - 1) + x * y
  {
  }

  lemma Lightest(ys: seq<real>, idx: seq<nat>) returns (p: nat)
    requires idx != [] && Selection(idx, |ys|)
    ensures p < |idx| && forall i :: 0 <= i < |idx| ==> ys[idx[p]] <= ys[idx[i]]
  {
    p := 0;
    for k := 1 to |idx|
      invariant p < |idx| && forall i :: 0 <= i < k ==> ys[idx[p]] <= ys[idx[i]]
    {
      if ys[idx[k]] < ys[idx[p]] {
        p := k;
      }
    }
  }

  /** `r` is `idx` listed by descending `ys`, and weighs the same in `zs`. */
  ghost predicate Ordered(ys: seq<real>, zs: seq<real>, idx: seq<nat>, r: seq<nat>)
    requires |ys| == |zs| && Selection(idx, |ys|)
  {
    && |r| == |idx| && Selection(r, |ys|)
    && (forall i :: 0 <= i < |r| ==> r[i] in idx)
    && (forall i, j :: 0 <= i < j < |r| ==> ys[r[i]] >= ys[r[j]])
    && Weight(zs, r) == Weight(zs, idx)
  }

  lemma {:induction false} OrderByWeight(ys: seq<real>, zs: seq<real>, idx: seq<nat>) returns (r: seq<nat>)
    requires |ys| == |zs| && Selection(idx, |ys|)
    ensures Ordered(ys, zs, idx, r)
    decreases |idx|
  {
    if idx == [] {
      r := [];
    } else {
      var p := Lightest(ys, idx);
      SelectionWithout(idx, p, |ys|);
      var rest := OrderByWeight(ys, zs, Drop(idx, p));
      OrderedStep(ys, zs, idx, p, rest);
      r := rest + [idx[p]];
    }
  }

  lemma SelectionWithout(idx: seq<nat>, p: nat, n: nat)
    requires p < |idx| && Selection(idx, n)
    ensures Selection(Drop(idx, p), n)
    ensures forall x :: x in Drop(idx, p) ==> x in idx && x != idx[p]
  {
  }

  lemma OrderedStep(ys: seq<real>, zs: seq<real>, idx: seq<nat>, p: nat, rest: seq<nat>)
    requires |ys| == |zs| && p < |idx| && Selection(idx, |ys|) && Selection(Drop(idx, p), |ys|)
    requires forall i :: 0 <= i < |idx| ==> ys[idx[p]] <= ys[idx[i]]
    requires forall x :: x in Drop(idx, p) ==> x in idx && x != idx[p]
    requires Ordered(ys, zs, Drop(idx, p), rest)
    ensures Ordered(ys, zs, idx, rest + [idx[p]])
  {
    forall i | 0 <= i < |rest| ensures rest[i] in idx && rest[i] != idx[p] && ys[rest[i]] >= ys[idx[p]] {
      assert rest[i] in Drop(idx, p);
    }
    SelectionSnoc(rest, idx[p], |ys|);
    DescendsSnoc(ys, rest, idx[p]);
    WeightRemove(zs, idx, p);
    WeightSnoc(zs, rest, idx[p]);
  }

  lemma SelectionSnoc(rest: seq<nat>, x: nat, n: nat)
    requires Selection(rest, n) && x < n && x !in rest
    ensures Selection(rest + [x], n)
  {
  }

  lemma DescendsSnoc(ys: seq<real>, rest: seq<nat>, x: nat)
    requires Selection(rest, |ys|) && x < |ys|
    requires forall i, j :: 0 <= i < j < |rest| ==> ys[rest[i]] >= ys[rest[j]]
    requires forall i :: 0 <= i < |rest| ==> ys[rest[i]] >= ys[x]
    ensures forall i :: 0 <= i < |rest + [x]| ==> (rest + [x])[i] < |ys|
    ensures forall i, j :: 0 <= i < j < |rest + [x]| ==> ys[(rest + [x])[i]] >= ys[(rest + [x])[j]]
  {
  }

  lemma PartialSums(e: seq<real>, xs: seq<real>, r: seq<nat>)
    requires Selection(r, |xs|) && Dominates(e, xs)
    ensures forall k :: 0 <= k <= |r| ==> SumTo(Pick(xs, r), k) <= SumTo(Ranks(e, |r|), k)
  {
    forall k | 0 <= k <= |r| ensures SumTo(Pick(xs, r), k) <= SumTo(Ranks(e, |r|), k) {
      WeightSlice(xs, r, k);
      assert Selection(r[..k], |xs|);
      RanksSum(e, |r|, k);
    }
  }

  lemma {:induction false} DotCommutes(xs: seq<real>, ys: seq<real>, k: nat)
    requires k <= |xs| && k <= |ys|
    ensures DotTo(xs, ys, k) == DotTo(ys, xs, k)
  {
    if k > 0 {
      DotCommutes(xs, ys, k - 1);
    }
  }

  lemma {:induction false} DotIsSum(xs: seq<real>, ys: seq<real>, zs: seq<real>, k: nat)
    requires k <= |xs| == |ys| == |zs| && forall i :: 0 <= i < |zs| ==> zs[i] == xs[i] * ys[i]
    ensures DotTo(xs, ys, k) == SumTo(zs, k)
  {
    if k > 0 {
      DotIsSum(xs, ys, zs, k - 1);
    }
  }

  lemma SameFactors(a: real, b: real, x: real, y: real, z: real)
    requires a == x && b == y && z == x * y
    ensures z == a * b
  {
  }

  lemma PickProduct(xs: seq<real>, ys: seq<real>, r: seq<nat>)
    requires |xs| == |ys| && Selection(r, |xs|)
    ensures DotTo(Pick(xs, r), Pick(ys, r), |r|) == Weight(Product(xs, ys), r)
  {
    var zs := Product(xs, ys);
    var px, py, pz := Pick(xs, r), Pick(ys, r), Pick(zs, r);
    assert forall i :: 0 <= i < |pz| ==> pz[i] == px[i] * py[i] by {
      forall i | 0 <= i < |r| ensures pz[i] == px[i] * py[i] {
        SameFactors(px[i], py[i], xs[r[i]], ys[r[i]], zs[r[i]]);
      }
    }
    DotIsSum(px, py, pz, |r|);
  }

  lemma RanksDescend(e: seq<real>, n: nat)
    requires Descending(e)
    ensures Descending(Ranks(e, n))
  {
  }

  lemma OrderedProduct(a: seq<real>, b: seq<real>, xs: seq<real>, ys: seq<real>, r: seq<nat>)
    requires Descending(a) && Descending(b) && |xs| == |ys| && Selection(r, |xs|)
    requires forall i :: 0 <= i < |ys| ==> ys[i] >= 0.0
    requires forall i, j :: 0 <= i < j < |r| ==> ys[r[i]] >= ys[r[j]]
    requires Dominates(a, xs) && Dominates(b, ys)
    ensures Weight(Product(xs, ys), r) <= Prefix(RankProduct(a, b), |r|)
  {
    var n := |r|;
    var px, py, ha, hb := Pick(xs, r), Pick(ys, r), Ranks(a, n), Ranks(b, n);
    PartialSums(a, xs, r);
    PartialSums(b, ys, r);
    Abel(px, ha, py, n);
    RanksDescend(a, n);
    Abel(py, hb, ha, n);
    DotCommutes(ha, py, n);
    DotCommutes(hb, ha, n);
    PickProduct(xs, ys, r);
    RankProductPrefix(a, b, n, n);
  }

  /** The product of two families is dominated by the rank-wise product of the sequences that dominate them. */
  lemma ProductDominates(a: seq<real>, b: seq<real>, xs: seq<real>, ys: seq<real>)
    requires Descending(a) && Descending(b) && |xs| == |ys|
    requires forall i :: 0 <= i < |ys| ==> ys[i] >= 0.0
    requires Dominates(a, xs) && Dominates(b, ys)
    ensures Dominates(RankProduct(a, b), Product(xs, ys))
  {
    forall idx | Selection(idx, |xs|)
      ensures Weight(Product(xs, ys), idx) <= Prefix(RankProduct(a, b), |idx|)
    {
      var r := OrderByWeight(ys, Product(xs, ys), idx);
      OrderedProduct(a, b, xs, ys, r);
    }
  }
}

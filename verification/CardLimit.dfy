/** `LimitDsToCard`: a degree sequence is cut where its mass reaches the cardinality. */
module CardLimit {
  import opened RankBounds
  import opened DegreeSequences

  const TOLERANCE := 0.000001

  /** The sequence cut at `left` units of mass. */
  function Limit(bins: seq<Bin>, left: real): seq<Bin>
    requires forall i :: 0 <= i < |bins| ==> bins[i].degree > 0.0
  {
    if bins == [] then []
    else
      var d, m := bins[0].degree, Times(bins[0].count, bins[0].degree);
      if m <= left then [bins[0]] + Limit(bins[1..], left - m)
      else Cut(d, left)
  }

  /** The last bin, of which only `left` units are wanted. */
  function Cut(d: real, left: real): seq<Bin>
    requires d > 0.0
  {
    if left <= TOLERANCE then []
    else if left < d then [Bin(left, 1)]
    else
      var c := WholeTimes(left, d);
      var r := left - Times(c, d);
      if r <= TOLERANCE then [Bin(d, c)] else [Bin(d, c), Bin(r, 1)]
  }

  /** `floor(left / d)` */
  function WholeTimes(left: real, d: real): nat
    requires d > 0.0 && left >= 0.0
    ensures Times(WholeTimes(left, d), d) <= left < Times(WholeTimes(left, d), d) + d
  {
    var q := left / d;
    assert q >= 0.0;
    var c := q.Floor;
    TimesIsProduct(c, d);
    FloorBounds(left, d, q, c as real);
    c
  }

  lemma BelowNext(left: real, d: real, q: real, c: real)
    requires d > 0.0 && q * d == left && q < c + 1.0
    ensures left < c * d + d
  {
    ScaleLess(q, c + 1.0, d);
    Distribute(c, 1.0, d);
    assert q * d < (c + 1.0) * d;
    assert (c + 1.0) * d == c * d + d;
  }

  lemma FloorBounds(left: real, d: real, q: real, c: real)
    requires d > 0.0 && q * d == left && c <= q < c + 1.0
    ensures c * d <= left < c * d + d
  {
    ScaleLeq(c, q, d);
    BelowNext(left, d, q, c);
  }

  lemma ScaleLeq(x: real, y: real, d: real)
    requires x <= y && d > 0.0
    ensures x * d <= y * d
  {
  }

  lemma ScaleLess(x: real, y: real, d: real)
    requires x < y && d > 0.0
    ensures x * d < y * d
  {
  }

  function IntReal(k: int): real {
    k as real
  }

  ghost predicate Whole(x: real) {
    exists k :: x == IntReal(k)
  }

  ghost predicate Integral(bins: seq<Bin>) {
    forall i :: 0 <= i < |bins| ==> Whole(bins[i].degree)
  }

  /** How much a cut may lose: nothing for whole degrees, the tolerance otherwise. */
  ghost predicate Slack(eps: real, bins: seq<Bin>, left: real) {
    eps == TOLERANCE || (eps == 0.0 && Integral(bins) && Whole(left))
  }

  ghost predicate Positive(bins: seq<Bin>) {
    forall i :: 0 <= i < |bins| ==> bins[i].degree > 0.0
  }

  // ---- Prefixes of runs ----

  lemma {:induction false} PrefixInRun(d: real, c: nat, ys: seq<real>, n: nat)
    requires n <= c
    ensures Prefix(Run(d, c) + ys, n) == Times(n, d)
  {
    if n > 0 {
      PrefixInRun(d, c, ys, n - 1);
    }
  }

  lemma {:induction false} PrefixAfterRun(d: real, c: nat, ys: seq<real>, k: nat)
    ensures Prefix(Run(d, c) + ys, c + k) == Times(c, d) + Prefix(ys, k)
  {
    if k == 0 {
      PrefixInRun(d, c, ys, c);
    } else {
      PrefixAfterRun(d, c, ys, k - 1);
      assert At(Run(d, c) + ys, c + k - 1) == At(ys, k - 1);
    }
  }

  lemma {:induction false} PrefixNonNegative(e: seq<real>, n: nat)
    requires forall i :: 0 <= i < |e| ==> e[i] >= 0.0
    ensures Prefix(e, n) >= 0.0
  {
    if n > 0 {
      PrefixNonNegative(e, n - 1);
    }
  }

  lemma {:induction false} TimesLess(m: nat, n: nat, d: real)
    requires d > 0.0 && Times(m, d) < Times(n, d)
    ensures m < n
  {
    if m >= n {
      TimesAdd(n, m - n, d);
      TimesNonNegative(m - n, d);
    }
  }

  lemma WholeAdd(x: real, y: real)
    requires Whole(x) && Whole(y)
    ensures Whole(x + y) && Whole(x - y)
  {
    var m :| x == IntReal(m);
    var n :| y == IntReal(n);
    assert x + y == IntReal(m + n) && x - y == IntReal(m - n);
  }

  lemma {:induction false} WholeTimesWhole(c: nat, d: real)
    requires Whole(d)
    ensures Whole(Times(c, d))
  {
    if c == 0 {
      assert Times(c, d) == IntReal(0);
    } else {
      WholeTimesWhole(c - 1, d);
      WholeAdd(Times(c - 1, d), d);
    }
  }

  /** A cut keeps `min(prefix, left)` of the run it cuts. */
  lemma CutPrefix(d: real, count: nat, left: real, rest: seq<real>, n: nat, eps: real)
    requires d > 0.0 && left >= 0.0 && Times(count, d) > left
    requires eps == TOLERANCE || (eps == 0.0 && Whole(d) && Whole(left))
    ensures Prefix(Expand(Cut(d, left)), n) >= Min(Prefix(Run(d, count) + rest, n), left) - eps
  {
    if left <= TOLERANCE {
      PrefixPastEnd([], n);
    } else if left < d {
      ExpandCons(Bin(left, 1), []);
      if n > 0 {
        PrefixAfterRun(left, 1, [], n - 1);
        PrefixPastEnd([], n - 1);
      }
    } else {
      CutPrefixLong(d, count, left, rest, n, eps);
    }
  }

  lemma CutPrefixLong(d: real, count: nat, left: real, rest: seq<real>, n: nat, eps: real)
    requires d > 0.0 && left >= d && left > TOLERANCE && Times(count, d) > left
    requires eps == TOLERANCE || (eps == 0.0 && Whole(d) && Whole(left))
    ensures Prefix(Expand(Cut(d, left)), n) >= Min(Prefix(Run(d, count) + rest, n), left) - eps
  {
    var c := WholeTimes(left, d);
    var tail := CutTail(left - Times(c, d));
    assert Cut(d, left) == [Bin(d, c)] + tail;
    ExpandCons(Bin(d, c), tail);
    if n <= c {
      CutBefore(d, c, count, left, tail, rest, n);
    } else {
      CutAfter(d, c, left, n, eps);
    }
  }

  /** What is cut off the last degree. */
  function CutTail(r: real): seq<Bin> {
    if r <= TOLERANCE then [] else [Bin(r, 1)]
  }

  lemma CutBefore(d: real, c: nat, count: nat, left: real, tail: seq<Bin>, rest: seq<real>, n: nat)
    requires d > 0.0 && Times(c, d) <= left < Times(count, d) && n <= c
    ensures Prefix(Run(d, c) + Expand(tail), n) == Prefix(Run(d, count) + rest, n)
  {
    TimesLess(c, count, d);
    PrefixInRun(d, c, Expand(tail), n);
    PrefixInRun(d, count, rest, n);
  }

  lemma CutAfter(d: real, c: nat, left: real, n: nat, eps: real)
    requires d > 0.0 && Times(c, d) <= left && n > c
    requires eps == TOLERANCE || (eps == 0.0 && Whole(d) && Whole(left))
    ensures Prefix(Run(d, c) + Expand(CutTail(left - Times(c, d))), n) >= left - eps
  {
    var r := left - Times(c, d);
    WholeCut(d, c, left, eps);
    PrefixAfterRun(d, c, Expand(CutTail(r)), n - c);
    TailPrefix(r, n - c);
  }

  lemma WholeCut(d: real, c: nat, left: real, eps: real)
    requires eps == TOLERANCE || (eps == 0.0 && Whole(d) && Whole(left))
    ensures left - Times(c, d) > TOLERANCE || left - Times(c, d) <= eps
  {
    if eps == 0.0 {
      WholeTimesWhole(c, d);
      WholeAdd(left, Times(c, d));
    }
  }

  lemma TailPrefix(r: real, k: nat)
    requires k > 0 && r >= 0.0
    ensures Prefix(Expand(if r <= TOLERANCE then [] else [Bin(r, 1)]), k) == if r <= TOLERANCE then 0.0 else r
  {
    if r <= TOLERANCE {
      PrefixPastEnd([], k);
    } else {
      ExpandCons(Bin(r, 1), []);
      PrefixAfterRun(r, 1, [], k - 1);
      PrefixPastEnd([], k - 1);
    }
  }

  ghost predicate KeepsPrefix(bins: seq<Bin>, left: real, n: nat, eps: real)
    requires Positive(bins)
  {
    Prefix(Expand(Limit(bins, left)), n) >= Min(Prefix(Expand(bins), n), left) - eps
  }

  /** Cutting at `left` keeps `min(prefix, left)` at every rank. */
  lemma {:induction false} LimitPrefix(bins: seq<Bin>, left: real, n: nat, eps: real)
    requires Positive(bins) && left >= 0.0 && Slack(eps, bins, left)
    ensures KeepsPrefix(bins, left, n, eps)
  {
    if bins == [] {
      PrefixPastEnd([], n);
    } else {
      var d, c := bins[0].degree, bins[0].count;
      var m := Times(c, d);
      if m > left {
        CutPrefix(d, c, left, Expand(bins[1..]), n, eps);
      } else if n <= c {
        LimitKeepsRun(bins, left, n, eps);
      } else {
        SlackTail(bins, left, eps);
        LimitPrefix(bins[1..], left - m, n - c, eps);
        LimitKeepsRest(bins, left, n, eps);
      }
    }
  }

  lemma SlackTail(bins: seq<Bin>, left: real, eps: real)
    requires bins != [] && Positive(bins) && Slack(eps, bins, left)
    ensures Positive(bins[1..]) && Slack(eps, bins[1..], left - Times(bins[0].count, bins[0].degree))
  {
    assert forall i :: 0 <= i < |bins| - 1 ==> bins[1..][i] == bins[i + 1];
    if eps == 0.0 {
      WholeTimesWhole(bins[0].count, bins[0].degree);
      WholeAdd(left, Times(bins[0].count, bins[0].degree));
    }
  }

  lemma LimitKeepsRun(bins: seq<Bin>, left: real, n: nat, eps: real)
    requires bins != [] && Positive(bins) && eps >= 0.0
    requires Times(bins[0].count, bins[0].degree) <= left && n <= bins[0].count
    ensures KeepsPrefix(bins, left, n, eps)
  {
    var d, c, m := bins[0].degree, bins[0].count, Times(bins[0].count, bins[0].degree);
    ExpandCons(bins[0], Limit(bins[1..], left - m));
    PrefixInRun(d, c, Expand(bins[1..]), n);
    PrefixInRun(d, c, Expand(Limit(bins[1..], left - m)), n);
  }

  lemma LimitKeepsRest(bins: seq<Bin>, left: real, n: nat, eps: real)
    requires bins != [] && Positive(bins) && Positive(bins[1..])
    requires Times(bins[0].count, bins[0].degree) <= left && n > bins[0].count
    requires KeepsPrefix(bins[1..], left - Times(bins[0].count, bins[0].degree), n - bins[0].count, eps)
    ensures KeepsPrefix(bins, left, n, eps)
  {
    var d, c, m := bins[0].degree, bins[0].count, Times(bins[0].count, bins[0].degree);
    var rest, rest' := Expand(bins[1..]), Expand(Limit(bins[1..], left - m));
    ExpandCons(bins[0], Limit(bins[1..], left - m));
    PrefixAfterRun(d, c, rest, n - c);
    PrefixAfterRun(d, c, rest', n - c);
  }

  // ---- A cut adds nothing ----

  ghost predicate AddsNothing(cut: seq<real>, all: seq<real>, left: real, n: nat) {
    Prefix(cut, n) <= Prefix(all, n) && Prefix(cut, n) <= left
  }

  /** A run holds at least its first `k` ranks. */
  lemma {:induction false} RunHolds(d: real, c: nat, ys: seq<real>, n: nat, k: nat)
    requires d > 0.0 && k <= c && k <= n && forall i :: 0 <= i < |ys| ==> ys[i] >= 0.0
    ensures Prefix(Run(d, c) + ys, n) >= Times(k, d)
    decreases n
  {
    if n == k {
      PrefixInRun(d, c, ys, n);
    } else {
      RunHolds(d, c, ys, n - 1, k);
    }
  }

  lemma CutAtMost(d: real, count: nat, left: real, rest: seq<real>, n: nat)
    requires d > 0.0 && left >= 0.0 && Times(count, d) > left && forall i :: 0 <= i < |rest| ==> rest[i] >= 0.0
    ensures AddsNothing(Expand(Cut(d, left)), Run(d, count) + rest, left, n)
  {
    if left <= TOLERANCE {
      PrefixPastEnd([], n);
      PrefixNonNegative(Run(d, count) + rest, n);
    } else if left < d {
      ExpandCons(Bin(left, 1), []);
      if n > 0 {
        PrefixAfterRun(left, 1, [], n - 1);
        PrefixPastEnd([], n - 1);
        CountPositive(count, d, left);
        RunHolds(d, count, rest, n, 1);
        TimesUnit(d);
        TimesUnit(left);
      }
    } else {
      CutAtMostLong(d, count, left, rest, n);
    }
  }

  lemma TimesUnit(x: real)
    ensures Times(1, x) == x
  {
    assert Times(1, x) == Times(0, x) + x;
  }

  lemma CountPositive(count: nat, d: real, left: real)
    requires left >= 0.0 && Times(count, d) > left
    ensures count >= 1
  {
  }

  lemma CutAtMostLong(d: real, count: nat, left: real, rest: seq<real>, n: nat)
    requires d > 0.0 && left >= d && left > TOLERANCE && Times(count, d) > left && forall i :: 0 <= i < |rest| ==> rest[i] >= 0.0
    ensures AddsNothing(Expand(Cut(d, left)), Run(d, count) + rest, left, n)
  {
    var c := WholeTimes(left, d);
    var r := left - Times(c, d);
    var tail := CutTail(r);
    assert Cut(d, left) == [Bin(d, c)] + tail;
    ExpandCons(Bin(d, c), tail);
    TimesLess(c, count, d);
    if n <= c {
      CutBefore(d, c, count, left, tail, rest, n);
      PrefixInRun(d, count, rest, n);
      TimesAdd(n, c - n, d);
      TimesNonNegative(c - n, d);
    } else {
      PrefixAfterRun(d, c, Expand(tail), n - c);
      TailPrefix(r, n - c);
      RunHolds(d, count, rest, n, c + 1);
    }
  }

  lemma {:induction false} ExpandNonNegative(bins: seq<Bin>)
    requires Positive(bins)
    ensures forall i :: 0 <= i < |Expand(bins)| ==> Expand(bins)[i] >= 0.0
  {
    if bins != [] {
      ExpandNonNegative(bins[1..]);
    }
  }

  /** The cut sequence never has more than the whole one, nor more than `left`: with `LimitPrefix`, it has the smaller of the two. */
  lemma {:induction false} LimitAtMost(bins: seq<Bin>, left: real, n: nat)
    requires Positive(bins) && left >= 0.0
    ensures Prefix(Expand(Limit(bins, left)), n) <= Min(Prefix(Expand(bins), n), left)
  {
    if bins == [] {
      PrefixPastEnd([], n);
    } else {
      var d, c := bins[0].degree, bins[0].count;
      var m := Times(c, d);
      ExpandNonNegative(bins[1..]);
      if m > left {
        CutAtMost(d, c, left, Expand(bins[1..]), n);
      } else {
        ExpandCons(bins[0], Limit(bins[1..], left - m));
        if n <= c {
          PrefixInRun(d, c, Expand(bins[1..]), n);
          PrefixInRun(d, c, Expand(Limit(bins[1..], left - m)), n);
          TimesAdd(n, c - n, d);
          TimesNonNegative(c - n, d);
        } else {
          LimitAtMost(bins[1..], left - m, n - c);
          PrefixAfterRun(d, c, Expand(bins[1..]), n - c);
          PrefixAfterRun(d, c, Expand(Limit(bins[1..], left - m)), n - c);
        }
      }
    }
  }

  /** A family of total mass at most `left` stays dominated when the sequence is cut there. */
  lemma LimitDominates(bins: seq<Bin>, left: real, xs: seq<real>)
    requires Positive(bins) && left >= 0.0 && Integral(bins) && Whole(left)
    requires forall i :: 0 <= i < |xs| ==> xs[i] >= 0.0
    requires SumTo(xs, |xs|) <= left && Dominates(Expand(bins), xs)
    ensures Dominates(Expand(Limit(bins, left)), xs)
  {
    forall idx | Selection(idx, |xs|) ensures Weight(xs, idx) <= Prefix(Expand(Limit(bins, left)), |idx|) {
      WeightBound(xs, idx, |xs|);
      LimitPrefix(bins, left, |idx|, 0.0);
      assert KeepsPrefix(bins, left, |idx|, 0.0);
    }
  }

  /** Positive degrees that descend from at most `b`. */
  ghost predicate DescendsFrom(bins: seq<Bin>, b: real) {
    Positive(bins) && Proper(bins) && forall i :: 0 <= i < |bins| ==> bins[i].degree <= b
  }

  lemma CutDescends(d: real, left: real)
    requires d > 0.0 && left >= 0.0
    ensures DescendsFrom(Cut(d, left), d)
  {
  }

  lemma {:induction false} LimitProper(bins: seq<Bin>, left: real, b: real)
    requires DescendsFrom(bins, b) && left >= 0.0
    ensures DescendsFrom(Limit(bins, left), b)
  {
    if bins != [] {
      var d, m := bins[0].degree, Times(bins[0].count, bins[0].degree);
      assert forall i :: 0 <= i < |bins| - 1 ==> bins[1..][i] == bins[i + 1];
      if m <= left {
        LimitProper(bins[1..], left - m, d);
      } else {
        CutDescends(d, left);
      }
    }
  }

  lemma LimitStep(ds: seq<Bin>, i: nat, left: real)
    requires Positive(ds) && i < |ds|
    ensures Positive(ds[i..]) && Positive(ds[i + 1..])
    ensures var m := Times(ds[i].count, ds[i].degree);
            ds[..i] + Limit(ds[i..], left) ==
            if m <= left then ds[..i + 1] + Limit(ds[i + 1..], left - m) else ds[..i] + Cut(ds[i].degree, left)
  {
    assert ds[i..][0] == ds[i] && ds[i..][1..] == ds[i + 1..];
    var m := Times(ds[i].count, ds[i].degree);
    if m <= left {
      assert Limit(ds[i..], left) == [ds[i]] + Limit(ds[i + 1..], left - m);
      assert ds[..i] + ([ds[i]] + Limit(ds[i + 1..], left - m)) == ds[..i + 1] + Limit(ds[i + 1..], left - m);
    }
  }

  method MassOf(b: Bin) returns (m: real)
    ensures m == Times(b.count, b.degree)
  {
    TimesIsProduct(b.count, b.degree);
    m := b.count as real * b.degree;
  }

  method LimitDsToCard(ds: seq<Bin>, card: real) returns (r: seq<Bin>)
    requires Positive(ds)
    ensures r == Limit(ds, card)
  {
    var sum := 0.0;
    var i := 0;
    assert ds[0..] == ds && ds[..0] + Limit(ds, card) == Limit(ds, card);
    while i < |ds|
      invariant 0 <= i <= |ds| && Positive(ds[i..])
      invariant ds[..i] + Limit(ds[i..], card - sum) == Limit(ds, card)
    {
      LimitStep(ds, i, card - sum);
      var m := MassOf(ds[i]);
      if sum + m <= card {
        assert card - sum - m == card - (sum + m);
        sum := sum + m;
        i := i + 1;
      } else {
        return ds[..i] + Cut(ds[i].degree, card - sum);
      }
    }
    assert ds[..i] + Limit(ds[i..], card - sum) == ds;
    return ds;
  }

  // ---- Whole degrees ----

  ghost predicate WholeSlots(slots: seq<Slot>) {
    forall i :: 0 <= i < |slots| ==> Whole(slots[i].maxDegree) && slots[i].maxDegree >= 0.0
  }

  lemma AddWhole(slots: seq<Slot>, degree: real, count: nat, p: real)
    requires WholeSlots(slots) && Whole(degree)
    ensures WholeSlots(AddTo(slots, degree, count, p))
  {
    assert IntReal(0) == 0.0;
    assert Whole(0.0);
  }

  lemma {:induction false} AddAllWhole(slots: seq<Slot>, items: seq<Bin>, p: real)
    requires WholeSlots(slots) && Integral(items)
    ensures WholeSlots(AddAll(slots, items, p))
    decreases |items|
  {
    if items != [] {
      AddWhole(slots, items[0].degree, items[0].count, p);
      AddAllWhole(AddTo(slots, items[0].degree, items[0].count, p), items[1..], p);
    }
  }

  lemma {:induction false} OccupiedWhole(slots: seq<Slot>)
    requires WholeSlots(slots)
    ensures WholeSlots(Occupied(slots)) && Integral(Finish(slots)) && Positive(Finish(slots))
  {
    if slots != [] {
      OccupiedWhole(slots[..|slots| - 1]);
    }
  }

  /** Whole degrees stay whole, and the empty buckets are gone. */
  lemma CompressWhole(items: seq<Bin>, p: real)
    requires Integral(items)
    ensures Integral(Compress(items, p)) && Positive(Compress(items, p))
  {
    AddAllWhole([], items, p);
    OccupiedWhole(AddAll([], items, p));
  }
}

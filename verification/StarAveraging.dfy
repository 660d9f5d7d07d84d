/** The two adjustments before a merge: towards the average degree, and to degrees of at least 1. */
module StarAveraging {
  import opened RankBounds
  import opened DegreeSequences
  import opened CardLimit
  import opened MergeChunks
  import opened MergeBounds
  import Spread = MergeSpread

  // ---- Towards the average ----

  /** What every row gets of the average degree. */
  function Portion(card: real, ndv: nat, k: real): real
    requires ndv > 0
  {
    card / ndv as real * (1.0 - k)
  }

  function By(k: real): real -> real {
    x => x * k
  }

  /** A sequence whose degrees are scaled, with a share for every row. */
  function MixAll(bins: seq<Bin>, scale: real -> real, share: real): (r: seq<Bin>)
    ensures |r| == |bins| && forall i :: 0 <= i < |r| ==> r[i] == Bin(scale(bins[i].degree) + share, bins[i].count)
  {
    if bins == [] then [] else [Bin(scale(bins[0].degree) + share, bins[0].count)] + MixAll(bins[1..], scale, share)
  }

  /** The number of rows that a sequence speaks of. */
  function Rows(bins: seq<Bin>): nat {
    if bins == [] then 0 else bins[0].count + Rows(bins[1..])
  }

  /** The rows of the table that the sequence does not speak of get the average, too. */
  function Others(zeros: int, share: real): seq<Bin> {
    if zeros > 0 && share > 0.0 then [Bin(share, zeros)] else []
  }

  /** The sequence before it is cut at the cardinality. */
  function Mixed(bins: seq<Bin>, scale: real -> real, share: real, ndv: nat): seq<Bin> {
    MixAll(bins, scale, share) + Others(ndv - Rows(bins), share)
  }

  ghost predicate Adjustable(bins: seq<Bin>, card: real, k: real) {
    Positive(bins) && Counted(bins) && Card(bins) <= card && 0.0 <= k <= 1.0
  }

  lemma {:induction false} CardPositive(bins: seq<Bin>)
    requires Positive(bins) && Counted(bins)
    ensures Card(bins) >= 0.0 && (bins != [] ==> Card(bins) > 0.0)
  {
    if bins != [] {
      CardPositive(bins[1..]);
      TimesAtLeast(bins[0].count, bins[0].degree);
    }
  }

  lemma {:induction false} TimesAtLeast(n: nat, d: real)
    requires n > 0 && d > 0.0
    ensures Times(n, d) >= d
  {
    if n > 1 {
      TimesAtLeast(n - 1, d);
    }
  }

  lemma PortionSign(card: real, ndv: nat, k: real)
    requires ndv > 0 && card >= 0.0 && k <= 1.0
    ensures Portion(card, ndv, k) >= 0.0 && (card > 0.0 && k < 1.0 ==> Portion(card, ndv, k) > 0.0)
  {
    var avg, rest := card / ndv as real, 1.0 - k;
    QuotientSign(card, ndv as real);
    ProductSign(avg, rest);
    assert Portion(card, ndv, k) == avg * rest;
  }

  lemma QuotientSign(x: real, n: real)
    requires x >= 0.0 && n > 0.0
    ensures x / n >= 0.0 && (x > 0.0 ==> x / n > 0.0)
  {
  }

  lemma ProductSign(x: real, y: real)
    requires x >= 0.0 && y >= 0.0
    ensures x * y >= 0.0 && (x > 0.0 && y > 0.0 ==> x * y > 0.0)
  {
  }

  lemma MixedPositive(bins: seq<Bin>, scale: real -> real, share: real, ndv: nat)
    requires Positive(bins) && forall i :: 0 <= i < |bins| ==> scale(bins[i].degree) + share > 0.0
    ensures Positive(Mixed(bins, scale, share, ndv))
  {
  }

  lemma Adjusts(bins: seq<Bin>, card: real, ndv: nat, k: real)
    requires ndv > 0 && Adjustable(bins, card, k)
    ensures card >= 0.0 && Portion(card, ndv, k) >= 0.0 && Positive(Mixed(bins, By(k), Portion(card, ndv, k), ndv))
  {
    CardPositive(bins);
    PortionSign(card, ndv, k);
    forall i | 0 <= i < |bins| ensures By(k)(bins[i].degree) + Portion(card, ndv, k) > 0.0 {
      ProductSign(bins[i].degree, k);
    }
    MixedPositive(bins, By(k), Portion(card, ndv, k), ndv);
  }

  /** `AdjustToAverage` on one sequence. */
  function Adjusted(bins: seq<Bin>, card: real, ndv: nat, k: real): seq<Bin>
    requires ndv > 0 && Adjustable(bins, card, k)
  {
    Adjusts(bins, card, ndv, k);
    Limit(Mixed(bins, By(k), Portion(card, ndv, k), ndv), card)
  }

  lemma RowsStep(bins: seq<Bin>, i: nat)
    requires i < |bins|
    ensures Rows(bins[i..]) == bins[i].count + Rows(bins[i + 1..])
  {
    assert bins[i..][1..] == bins[i + 1..];
  }

  /** The loop over the bins, and the bin for the other rows. */
  method MixRows(bins: seq<Bin>, scale: real -> real, share: real, ndv: nat) returns (r: seq<Bin>)
    ensures r == Mixed(bins, scale, share, ndv)
  {
    var zeros: int := ndv;
    r := bins;
    assert bins[0..] == bins;
    for i := 0 to |bins|
      invariant |r| == |bins|
      invariant forall j :: 0 <= j < i ==> r[j] == Bin(scale(bins[j].degree) + share, bins[j].count)
      invariant forall j :: i <= j < |bins| ==> r[j] == bins[j]
      invariant zeros - Rows(bins[i..]) == ndv - Rows(bins)
    {
      RowsStep(bins, i);
      zeros := zeros - r[i].count;
      r := r[i := Bin(scale(r[i].degree) + share, r[i].count)];
    }
    assert r == MixAll(bins, scale, share);
    if zeros > 0 && share > 0.0 {
      r := r + [Bin(share, zeros)];
    }
  }

  method AdjustToAverage(bins: seq<Bin>, card: real, ndv: nat, k: real) returns (r: seq<Bin>)
    requires ndv > 0 && Adjustable(bins, card, k)
    ensures r == Adjusted(bins, card, ndv, k)
  {
    Adjusts(bins, card, ndv, k);
    r := MixRows(bins, By(k), Portion(card, ndv, k), ndv);
    r := LimitDsToCard(r, card);
  }

  // ---- What adjusting keeps ----

  lemma {:induction false} CardAppend(a: seq<Bin>, b: seq<Bin>)
    ensures Card(a + b) == Card(a) + Card(b)
  {
    if a == [] {
      assert a + b == b;
    } else {
      assert (a + b)[1..] == a[1..] + b;
      CardAppend(a[1..], b);
    }
  }

  ghost predicate AddsUp(scale: real -> real, x: real, y: real) {
    scale(x + y) == scale(x) + scale(y)
  }

  ghost predicate Additive(scale: real -> real) {
    forall x, y :: AddsUp(scale, x, y)
  }

  lemma {:induction false} ScaleTimes(n: nat, d: real, scale: real -> real)
    requires Additive(scale)
    ensures Times(n, scale(d)) == scale(Times(n, d))
  {
    if n == 0 {
      assert AddsUp(scale, 0.0, 0.0);
    } else {
      ScaleTimes(n - 1, d, scale);
      assert AddsUp(scale, Times(n - 1, d), d);
    }
  }

  lemma {:induction false} MixCard(bins: seq<Bin>, scale: real -> real, share: real)
    requires Additive(scale)
    ensures Card(MixAll(bins, scale, share)) == scale(Card(bins)) + Times(Rows(bins), share)
  {
    if bins == [] {
      assert AddsUp(scale, 0.0, 0.0);
    } else {
      var b, rest := bins[0], bins[1..];
      MixCard(rest, scale, share);
      assert MixAll(bins, scale, share)[1..] == MixAll(rest, scale, share);
      TimesDistribute(b.count, scale(b.degree), share);
      ScaleTimes(b.count, b.degree, scale);
      TimesAdd(b.count, Rows(rest), share);
      assert AddsUp(scale, Times(b.count, b.degree), Card(rest));
    }
  }

  lemma ByAdditive(k: real)
    ensures Additive(By(k))
  {
    forall x, y ensures AddsUp(By(k), x, y) {
      Distribute(x, y, k);
    }
  }

  lemma OthersCard(zeros: nat, share: real)
    requires share >= 0.0
    ensures Card(Others(zeros, share)) == Times(zeros, share)
  {
    if share == 0.0 {
      TimesZero(zeros);
    } else if zeros > 0 {
      var one := [Bin(share, zeros)];
      assert one[1..] == [];
    }
  }

  lemma AverageOfAll(card: real, ndv: nat)
    requires ndv > 0
    ensures Times(ndv, card / ndv as real) == card
  {
    TimesIsProduct(ndv, card / ndv as real);
    DivideBack(card, ndv as real);
  }

  lemma PortionOfAll(card: real, ndv: nat, k: real)
    requires ndv > 0
    ensures Times(ndv, Portion(card, ndv, k)) == By(1.0 - k)(card)
  {
    var scale := By(1.0 - k);
    assert Portion(card, ndv, k) == scale(card / ndv as real);
    AverageOfAll(card, ndv);
    ByAdditive(1.0 - k);
    ScaleTimes(ndv, card / ndv as real, scale);
  }

  lemma DivideBack(x: real, n: real)
    requires n > 0.0
    ensures n * (x / n) == x
  {
  }

  lemma MixedMass(bins: seq<Bin>, scale: real -> real, share: real, ndv: nat)
    requires Additive(scale) && Rows(bins) <= ndv && share >= 0.0
    ensures Card(Mixed(bins, scale, share, ndv)) == scale(Card(bins)) + Times(ndv, share)
  {
    var zeros := ndv - Rows(bins);
    MixCard(bins, scale, share);
    OthersCard(zeros, share);
    CardAppend(MixAll(bins, scale, share), Others(zeros, share));
    TimesAdd(Rows(bins), zeros, share);
  }

  lemma {:induction false} LimitWhenFits(bins: seq<Bin>, left: real)
    requires Positive(bins) && Card(bins) <= left
    ensures Limit(bins, left) == bins
  {
    if bins != [] {
      CardNonNegative(bins[1..]);
      LimitWhenFits(bins[1..], left - Times(bins[0].count, bins[0].degree));
    }
  }

  lemma {:induction false} CardNonNegative(bins: seq<Bin>)
    requires Positive(bins)
    ensures Card(bins) >= 0.0
  {
    if bins != [] {
      CardNonNegative(bins[1..]);
      TimesNonNegative(bins[0].count, bins[0].degree);
    }
  }

  lemma MixBelow(own: real, card: real, k: real)
    requires own <= card && 0.0 <= k <= 1.0
    ensures By(k)(own) + By(1.0 - k)(card) <= card
  {
    ProductSign(card - own, k);
  }

  /**
   If the sequence speaks of no more rows than the table has, its new mass is the mean, with weight `k`, of its old
   mass and the cardinality, and the cut takes nothing away.
   */
  lemma AdjustedMass(bins: seq<Bin>, card: real, ndv: nat, k: real)
    requires ndv > 0 && Adjustable(bins, card, k) && Rows(bins) <= ndv
    ensures Adjusted(bins, card, ndv, k) == Mixed(bins, By(k), Portion(card, ndv, k), ndv)
    ensures Card(Adjusted(bins, card, ndv, k)) == By(k)(Card(bins)) + By(1.0 - k)(card)
  {
    var mixed := Mixed(bins, By(k), Portion(card, ndv, k), ndv);
    Adjusts(bins, card, ndv, k);
    ByAdditive(k);
    MixedMass(bins, By(k), Portion(card, ndv, k), ndv);
    PortionOfAll(card, ndv, k);
    MixBelow(Card(bins), card, k);
    LimitWhenFits(mixed, card);
  }

  /** With `k` = 1 nothing changes. */
  lemma AdjustedAtOne(bins: seq<Bin>, card: real, ndv: nat)
    requires ndv > 0 && Adjustable(bins, card, 1.0)
    ensures Adjusted(bins, card, ndv, 1.0) == bins
  {
    assert Portion(card, ndv, 1.0) == 0.0;
    forall i | 0 <= i < |bins| ensures MixAll(bins, By(1.0), 0.0)[i] == bins[i] {
      assert By(1.0)(bins[i].degree) == bins[i].degree;
    }
    assert MixAll(bins, By(1.0), 0.0) == bins;
    assert Mixed(bins, By(1.0), 0.0, ndv) == bins + [] == bins;
    LimitWhenFits(bins, card);
  }

  // ---- Row by row ----

  /** What row `i` gets: the mean, with weight `k`, of its own degree and the average over all rows. */
  function Mean(own: real, card: real, ndv: nat, k: real): real
    requires ndv > 0
  {
    k * own + (1.0 - k) * card / ndv as real
  }

  lemma MeanIs(own: real, card: real, ndv: nat, k: real)
    requires ndv > 0
    ensures Mean(own, card, ndv, k) == By(k)(own) + Portion(card, ndv, k)
  {
    var n, y := ndv as real, 1.0 - k;
    QuotientTimes(card, n, y);
    assert Portion(card, ndv, k) == card / n * y;
    Commutes(own, k);
    assert By(k)(own) == own * k;
    assert Mean(own, card, ndv, k) == k * own + y * card / n;
  }

  lemma Commutes(x: real, y: real)
    ensures x * y == y * x
  {
  }

  lemma QuotientTimes(x: real, n: real, y: real)
    requires n > 0.0
    ensures y * x / n == x / n * y
  {
    var q := x / n;
    assert q * n == x;
    assert y * x == (q * y) * n;
  }

  lemma {:induction false} RowsOf(bins: seq<Bin>)
    ensures |Expand(bins)| == Rows(bins)
  {
    if bins != [] {
      RowsOf(bins[1..]);
    }
  }

  lemma {:induction false} MixRow(bins: seq<Bin>, scale: real -> real, share: real, i: nat)
    ensures |Expand(MixAll(bins, scale, share))| == |Expand(bins)|
    ensures i < |Expand(bins)| ==> At(Expand(MixAll(bins, scale, share)), i) == scale(At(Expand(bins), i)) + share
  {
    if bins != [] {
      var c := bins[0].count;
      assert MixAll(bins, scale, share)[1..] == MixAll(bins[1..], scale, share);
      MixRow(bins[1..], scale, share, if i < c then 0 else i - c);
    }
  }

  lemma OthersRow(zeros: int, share: real, i: nat)
    requires share >= 0.0
    ensures |Expand(Others(zeros, share))| == if zeros > 0 && share > 0.0 then zeros else 0
    ensures At(Expand(Others(zeros, share)), i) == if i < zeros then share else 0.0
  {
    if zeros > 0 && share > 0.0 {
      ExpandCons(Bin(share, zeros), []);
    }
  }

  /** Before the cut: every row with a degree, and every other row of the table. */
  lemma MixedRow(bins: seq<Bin>, scale: real -> real, share: real, ndv: nat, i: nat)
    requires share >= 0.0 && scale(0.0) == 0.0
    ensures i < ndv || i < |Expand(bins)| ==> At(Expand(Mixed(bins, scale, share, ndv)), i) == scale(At(Expand(bins), i)) + share
    ensures i >= ndv && i >= |Expand(bins)| ==> At(Expand(Mixed(bins, scale, share, ndv)), i) == 0.0
    ensures |Expand(bins)| <= ndv && share > 0.0 ==> |Expand(Mixed(bins, scale, share, ndv))| == ndv
  {
    var rows := |Expand(bins)|;
    RowsOf(bins);
    MixRow(bins, scale, share, i);
    OthersRow(ndv - rows, share, if i < rows then 0 else i - rows);
    Spread.ExpandAppend(MixAll(bins, scale, share), Others(ndv - rows, share));
  }

  lemma MixedMean(bins: seq<Bin>, card: real, ndv: nat, k: real, i: nat)
    requires ndv > 0 && Adjustable(bins, card, k)
    ensures At(Expand(Mixed(bins, By(k), Portion(card, ndv, k), ndv)), i) ==
            if i < ndv || i < |Expand(bins)| then Mean(At(Expand(bins), i), card, ndv, k) else 0.0
  {
    CardPositive(bins);
    PortionSign(card, ndv, k);
    assert By(k)(0.0) == 0.0;
    MixedRow(bins, By(k), Portion(card, ndv, k), ndv, i);
    MeanIs(At(Expand(bins), i), card, ndv, k);
  }

  lemma AdjustedMean(bins: seq<Bin>, card: real, ndv: nat, k: real, i: nat)
    requires ndv > 0 && Adjustable(bins, card, k) && |Expand(bins)| <= ndv && i < ndv
    ensures At(Expand(Adjusted(bins, card, ndv, k)), i) == Mean(At(Expand(bins), i), card, ndv, k)
  {
    RowsOf(bins);
    AdjustedMass(bins, card, ndv, k);
    MixedMean(bins, card, ndv, k, i);
  }

  lemma AdjustedNumber(bins: seq<Bin>, card: real, ndv: nat, k: real)
    requires ndv > 0 && Adjustable(bins, card, k) && |Expand(bins)| <= ndv
    ensures k < 1.0 && card > 0.0 ==> |Expand(Adjusted(bins, card, ndv, k))| == ndv
  {
    RowsOf(bins);
    AdjustedMass(bins, card, ndv, k);
    MixedRows(bins, card, ndv, k);
  }

  /**
   If the sequence speaks of no more rows than the table has, every row of the table, with a degree or without, gets the
   mean of its own degree and the average, and there are no other rows.
   */
  lemma AdjustedRow(bins: seq<Bin>, card: real, ndv: nat, k: real, i: nat)
    requires ndv > 0 && Adjustable(bins, card, k) && |Expand(bins)| <= ndv && i < ndv
    ensures At(Expand(Adjusted(bins, card, ndv, k)), i) == k * At(Expand(bins), i) + (1.0 - k) * card / ndv as real
    ensures k < 1.0 && card > 0.0 ==> |Expand(Adjusted(bins, card, ndv, k))| == ndv
  {
    AdjustedMean(bins, card, ndv, k, i);
    AdjustedNumber(bins, card, ndv, k);
  }

  lemma MixedRows(bins: seq<Bin>, card: real, ndv: nat, k: real)
    requires ndv > 0 && Adjustable(bins, card, k) && |Expand(bins)| <= ndv
    ensures k < 1.0 && card > 0.0 ==> |Expand(Mixed(bins, By(k), Portion(card, ndv, k), ndv))| == ndv
  {
    CardPositive(bins);
    PortionSign(card, ndv, k);
    assert By(k)(0.0) == 0.0;
    MixedRow(bins, By(k), Portion(card, ndv, k), ndv, 0);
  }

  /** The means of all rows that the sequence or the table has. */
  function Means(bins: seq<Bin>, card: real, ndv: nat, k: real): (xs: seq<real>)
    requires ndv > 0
  {
    seq(if |Expand(bins)| < ndv then ndv else |Expand(bins)|, i requires i >= 0 => Mean(At(Expand(bins), i), card, ndv, k))
  }

  lemma {:induction false} SameRanks(xs: seq<real>, ys: seq<real>, n: nat)
    requires forall i: nat :: i < n ==> At(xs, i) == At(ys, i)
    ensures Prefix(xs, n) == Prefix(ys, n)
  {
    if n > 0 {
      SameRanks(xs, ys, n - 1);
      assert At(xs, n - 1) == At(ys, n - 1);
    }
  }

  /** However many rows the sequence speaks of: at every rank the means, as far as the cardinality goes, within 1e-6. */
  lemma AdjustedPrefix(bins: seq<Bin>, card: real, ndv: nat, k: real, n: nat)
    requires ndv > 0 && Adjustable(bins, card, k)
    ensures Prefix(Expand(Adjusted(bins, card, ndv, k)), n) <= Min(Prefix(Means(bins, card, ndv, k), n), card)
    ensures Prefix(Expand(Adjusted(bins, card, ndv, k)), n) >= Min(Prefix(Means(bins, card, ndv, k), n), card) - 0.000001
  {
    var mixed := Mixed(bins, By(k), Portion(card, ndv, k), ndv);
    Adjusts(bins, card, ndv, k);
    forall i: nat | i < n ensures At(Expand(mixed), i) == At(Means(bins, card, ndv, k), i) {
      MixedMean(bins, card, ndv, k, i);
    }
    SameRanks(Expand(mixed), Means(bins, card, ndv, k), n);
    LimitAtMost(mixed, card, n);
    LimitPrefix(mixed, card, n, TOLERANCE);
    assert KeepsPrefix(mixed, card, n, TOLERANCE);
  }

  // ---- Degrees of at least 1 ----

  function CeilCount(count: nat, degree: real): int {
    Ceil(count as real * degree)
  }

  function NormalBin(b: Bin): Bin {
    if b.degree < 1.0 then
      var c := CeilCount(b.count, b.degree);
      Bin(1.0, if c < 1 then 1 else c)
    else b
  }

  function Normalized(bins: seq<Bin>): (r: seq<Bin>)
    ensures |r| == |bins| && forall i :: 0 <= i < |r| ==> r[i] == NormalBin(bins[i])
  {
    if bins == [] then [] else [NormalBin(bins[0])] + Normalized(bins[1..])
  }

  /** `NormalizeSubOneDegrees` on one sequence. */
  method NormalizeSubOneDegrees(bins: seq<Bin>) returns (r: seq<Bin>)
    ensures r == Normalized(bins)
  {
    r := bins;
    for i := 0 to |r|
      invariant |r| == |bins|
      invariant forall j :: 0 <= j < i ==> r[j] == NormalBin(bins[j])
      invariant forall j :: i <= j < |bins| ==> r[j] == bins[j]
    {
      if r[i].degree < 1.0 {
        var c := CeilCount(r[i].count, r[i].degree);
        if c < 1 {
          c := 1;
        }
        r := r[i := Bin(1.0, c)];
      }
    }
    assert r == Normalized(bins);
  }

  lemma NormalMass(b: Bin)
    ensures Times(NormalBin(b).count, NormalBin(b).degree) >= Times(b.count, b.degree)
  {
    TimesIsProduct(b.count, b.degree);
    TimesIsProduct(NormalBin(b).count, NormalBin(b).degree);
  }

  /** No mass is lost, every degree is at least 1 afterwards, and whole degrees stay as they are. */
  lemma {:induction false} NormalizedUp(bins: seq<Bin>)
    ensures Card(Normalized(bins)) >= Card(bins)
    ensures forall i :: 0 <= i < |bins| ==> Normalized(bins)[i].degree >= 1.0
    ensures EdgeOk(bins) ==> Normalized(bins) == bins
  {
    if bins != [] {
      NormalizedUp(bins[1..]);
      NormalMass(bins[0]);
      assert Normalized(bins)[1..] == Normalized(bins[1..]);
    }
    if EdgeOk(bins) {
      forall i | 0 <= i < |bins| ensures NormalBin(bins[i]) == bins[i] {
        WholeAtLeastOne(bins[i].degree);
      }
    }
  }

  lemma CeilClose(x: real)
    ensures x <= Ceil(x) as real < x + 1.0
  {
  }

  /** A bin below 1 becomes as many keys of degree 1 as hold its mass, and less than one more; other bins stay. */
  lemma NormalClose(b: Bin)
    requires b.degree > 0.0 && b.count > 0
    ensures b.degree >= 1.0 ==> NormalBin(b) == b
    ensures b.degree < 1.0 ==>
              NormalBin(b).degree == 1.0 && Times(b.count, b.degree) <= NormalBin(b).count as real < Times(b.count, b.degree) + 1.0
  {
    TimesAtLeast(b.count, b.degree);
    TimesIsProduct(b.count, b.degree);
    CeilClose(b.count as real * b.degree);
  }

  /** Normalizing adds less than 1 to the mass of every bin. */
  lemma {:induction false} NormalizedClose(bins: seq<Bin>)
    requires Positive(bins) && Counted(bins)
    ensures Card(Normalized(bins)) <= Card(bins) + |bins| as real
    ensures bins != [] ==> Card(Normalized(bins)) < Card(bins) + |bins| as real
  {
    if bins != [] {
      NormalizedClose(bins[1..]);
      NormalClose(bins[0]);
      assert Normalized(bins)[1..] == Normalized(bins[1..]);
      TimesOfOne(NormalBin(bins[0]).count);
    }
  }

  lemma {:induction false} TimesOfOne(n: nat)
    ensures Times(n, 1.0) == n as real
  {
    if n > 0 {
      TimesOfOne(n - 1);
    }
  }

  lemma WholeAtLeastOne(d: real)
    requires Whole(d) && d > 0.0
    ensures d >= 1.0
  {
    var k: int :| d == IntReal(k);
  }
}

/** The adjustment rate: how far true star joins lie between the average estimate and the upper bound. */
module StarCalibration {
  import opened Options
  import opened Sums
  import opened RankBounds
  import opened DegreeSequences
  import opened MergeChunks
  import opened MergeBounds
  import opened SumInequality
  import Star = StarCollection
  import opened StarBounds
  import opened StarSummary
  import opened StarEdges
  import Averaging = StarAveraging
  import Floor = StarFloor

  // ---- The average estimate ----

  function MaxNat(x: nat, y: nat): nat {
    if x < y then y else x
  }

  /**
   The estimate for keys that are spread evenly: the cardinality of every further table is divided by the larger of the two
   numbers of keys. `None` if there is nothing to divide by: 0 by 0 is not a number, and stays none.
   */
  function Average(cn: CountNum, sub: seq<Star.TableColumn>, p: real): Option<real>
    requires sub != []
    decreases |sub|
  {
    var n := |sub| - 1;
    if n == 0 then Some(Card(Single(cn, sub[0].table, p)))
    else
      match Average(cn, sub[..n], p)
      case None => None
      case Some(avg) => AverageStep(avg, Upper(cn, sub[..n], p), Single(cn, sub[n].table, p))
  }

  function AverageStep(avg: real, ds: seq<Bin>, single: seq<Bin>): Option<real> {
    var keys := MaxNat(Averaging.Rows(ds), Averaging.Rows(single));
    if keys == 0 then None else Some(Even(avg, Card(single), keys as real))
  }

  // ---- It is no more than the upper bound ----

  lemma CardPrefix(bins: seq<Bin>, n: nat)
    requires |Expand(bins)| <= n
    ensures Prefix(Expand(bins), n) == Card(bins)
  {
    PrefixPastEnd(Expand(bins), n);
    ExpandSum(bins);
  }

  lemma DotMass(a: seq<Bin>, b: seq<Bin>, p: real)
    requires Proper(a) && Proper(b)
    ensures Card(Segments(a, b)) <= Card(DotBins(a, b, p))
  {
    SegmentsCountable(a, b);
    CompressUp(Segments(a, b), p, 0.0);
    CardAtZero(Segments(a, b));
    CompressProper(Segments(a, b), p);
    CardAtZero(DotBins(a, b, p));
  }

  lemma SegmentsMass(a: seq<Bin>, b: seq<Bin>, n: nat)
    requires n == MaxNat(Averaging.Rows(a), Averaging.Rows(b))
    ensures Prefix(RankProduct(Expand(a), Expand(b)), n) == Card(Segments(a, b))
    ensures Prefix(Expand(a), n) == Card(a) && Prefix(Expand(b), n) == Card(b)
  {
    Averaging.RowsOf(a);
    Averaging.RowsOf(b);
    CardPrefix(a, n);
    CardPrefix(b, n);
    ExpandSegments(a, b);
    CardPrefix(Segments(a, b), n);
  }

  /** One `dot` has at least what the evenly spread keys give. */
  lemma StepBelow(avg: real, a: seq<Bin>, b: seq<Bin>, p: real)
    requires Proper(a) && Proper(b) && 0.0 <= avg <= Card(a) && AverageStep(avg, a, b).Some?
    ensures 0.0 <= AverageStep(avg, a, b).value <= Card(DotBins(a, b, p))
  {
    var n := MaxNat(Averaging.Rows(a), Averaging.Rows(b));
    ExpandDescending(a);
    ExpandDescending(b);
    SegmentsMass(a, b, n);
    DotMass(a, b, p);
    Floor.MassNonNegative(b);
    var mul := TheProduct();
    Chebyshev(mul, Expand(a), Expand(b), n);
    EvenlySpread(mul, SumsTo(Expand(a), Expand(b), n), avg, Card(DotBins(a, b, p)));
  }

  ghost predicate NoMore(avg: Option<real>, card: real) {
    avg.Some? ==> 0.0 <= avg.value <= card
  }

  lemma LongerStar(cn: CountNum, sub: seq<Star.TableColumn>, p: real, n: nat)
    requires n == |sub| - 1 && n > 0
    ensures Upper(cn, sub, p) == DotBins(Upper(cn, sub[..n], p), Single(cn, sub[n].table, p), p)
    ensures var avg := Average(cn, sub[..n], p);
            Average(cn, sub, p) == if avg.None? then None else AverageStep(avg.value, Upper(cn, sub[..n], p), Single(cn, sub[n].table, p))
  {
  }

  lemma AverageNext(avg: Option<real>, a: seq<Bin>, b: seq<Bin>, p: real)
    requires Proper(a) && Proper(b) && NoMore(avg, Card(a))
    ensures NoMore(if avg.None? then None else AverageStep(avg.value, a, b), Card(DotBins(a, b, p)))
  {
    if avg.Some? && AverageStep(avg.value, a, b).Some? {
      StepBelow(avg.value, a, b, p);
    }
  }

  /** Where it is a number, the average estimate is between 0 and the upper bound. */
  lemma {:induction false} AverageBelowUpper(cn: CountNum, sub: seq<Star.TableColumn>, p: real)
    requires NonNegative(cn) && sub != []
    ensures NoMore(Average(cn, sub, p), Card(Upper(cn, sub, p)))
    decreases |sub|
  {
    var n := |sub| - 1;
    SingleDominates(cn, sub[n].table, p);
    if n == 0 {
      Floor.MassNonNegative(Single(cn, sub[n].table, p));
    } else {
      AverageBelowUpper(cn, sub[..n], p);
      UpperDominates(cn, sub[..n], p);
      LongerStar(cn, sub, p, n);
      AverageNext(Average(cn, sub[..n], p), Upper(cn, sub[..n], p), Single(cn, sub[n].table, p), p);
    }
  }

  lemma QuotientCancels(y: real, e: real)
    requires y > 0.0
    ensures y * e / y == e
  {
  }

  lemma EvenOnRight(x: real, d: real, y: real, e: real)
    requires y > 0.0
    ensures Even(x * d, y * e, y) == x * (d * e)
  {
    QuotientCancels(y, e);
    assert x * d * e == x * (d * e);
  }

  lemma Rearranged(x: real, d: real, y: real, e: real, q: real)
    requires q * x == y * e
    ensures x * d * q == y * (d * e)
  {
    assert x * d * q == d * (q * x);
    assert d * (y * e) == y * (d * e);
  }

  lemma EvenOnLeft(x: real, d: real, y: real, e: real)
    requires x > 0.0
    ensures Even(x * d, y * e, x) == y * (d * e)
  {
    var q := y * e / x;
    assert q * x == y * e;
    Rearranged(x, d, y, e, q);
  }

  lemma EvenlyMet(x: real, d: real, y: real, e: real, k: real, z: real)
    requires x > 0.0 && y > 0.0 && ((k == y && z == x) || (k == x && z == y))
    ensures Even(x * d, y * e, k) == z * (d * e)
  {
    EvenOnRight(x, d, y, e);
    EvenOnLeft(x, d, y, e);
  }

  lemma EvenExact(d: real, n: nat, e: real, m: nat, keys: nat, small: nat, a: real, b: real)
    requires n > 0 && m > 0 && keys == MaxNat(n, m) && small == MinNat(n, m) && a == Times(n, d) && b == Times(m, e)
    ensures Even(a, b, keys as real) == Times(small, d * e)
  {
    var x, y := n as real, m as real;
    TimesIsProduct(n, d);
    TimesIsProduct(m, e);
    TimesIsProduct(small, d * e);
    assert a == x * d && b == y * e;
    EvenlyMet(x, d, y, e, keys as real, small as real);
  }

  lemma OneBin(d: real, n: nat)
    ensures Card([Bin(d, n)]) == Times(n, d) && Averaging.Rows([Bin(d, n)]) == n
  {
    assert [Bin(d, n)][1..] == [];
  }

  /** Where all keys of a side have one degree, the average is what the rank-wise products add up to. */
  lemma AverageEven(d: real, n: nat, e: real, m: nat, a: seq<Bin>, b: seq<Bin>)
    requires n > 0 && m > 0 && a == [Bin(d, n)] && b == [Bin(e, m)]
    ensures AverageStep(Card(a), a, b) == Some(Card(Segments(a, b)))
  {
    OneBin(d, n);
    OneBin(e, m);
    var small := MinNat(n, m);
    EvenExact(d, n, e, m, MaxNat(n, m), small, Card(a), Card(b));
    SegmentsShape(a, b, small);
    assert Advance(a, small) == [] || Advance(b, small) == [];
    var s := Segments(a, b);
    assert s[0] == Bin(d * e, small) && s == [s[0]] + s[1..] && s[1..] == [];
    OneBin(d * e, small);
  }

  // ---- Where there is no average ----

  /** Every count vector occurs. */
  ghost predicate Occurring(cn: CountNum) {
    forall i :: 0 <= i < |cn| ==> cn[i].1 > 0
  }

  /** No row of the table has a key. */
  ghost predicate Keyless(cn: CountNum, table: string) {
    forall i :: 0 <= i < |cn| ==> CountOf(cn[i].0, table) == 0
  }

  lemma {:induction false} KeylessItems(cn: CountNum, table: string)
    requires NonNegative(cn) && Occurring(cn)
    ensures SingleItems(cn, table) == [] <==> Keyless(cn, table)
    ensures Solid(SingleItems(cn, table))
  {
    if cn != [] {
      KeylessItems(cn[1..], table);
      assert forall i :: 1 <= i < |cn| ==> cn[i] == cn[1..][i - 1];
    }
  }

  lemma RowsOfSolid(bins: seq<Bin>)
    requires Solid(bins)
    ensures Averaging.Rows(bins) == 0 <==> bins == []
  {
  }

  lemma CompressedEmpty(items: seq<Bin>, p: real)
    requires Solid(items)
    ensures Solid(Compress(items, p)) && (Compress(items, p) == [] <==> items == [])
  {
    CompressSolid(items, p);
    if items != [] {
      Floor.FirstMass(items);
      Floor.CompressNonempty(items, p);
    }
  }

  lemma {:induction false} SegmentsEmpty(a: seq<Bin>, b: seq<Bin>)
    requires Solid(a) && Solid(b)
    ensures Solid(Segments(a, b)) && (Segments(a, b) == [] <==> a == [] || b == [])
    decreases |a| + |b|
  {
    SegmentsFit(a, b);
    if a != [] && b != [] {
      var c, s := MinNat(a[0].count, b[0].count), Segments(a, b);
      AdvanceSolid(a, c);
      AdvanceSolid(b, c);
      SegmentsEmpty(Advance(a, c), Advance(b, c));
      SegmentsShape(a, b, c);
      Averaging.ProductSign(a[0].degree, b[0].degree);
      assert s == [s[0]] + s[1..];
    }
  }

  ghost predicate SomeKeyless(cn: CountNum, sub: seq<Star.TableColumn>) {
    exists i :: 0 <= i < |sub| && Keyless(cn, sub[i].table)
  }

  ghost predicate TwoKeyless(cn: CountNum, sub: seq<Star.TableColumn>) {
    exists i, j :: 0 <= i < j < |sub| && Keyless(cn, sub[i].table) && Keyless(cn, sub[j].table)
  }

  lemma KeylessNext(cn: CountNum, sub: seq<Star.TableColumn>, n: nat)
    requires n == |sub| - 1
    ensures SomeKeyless(cn, sub) <==> SomeKeyless(cn, sub[..n]) || Keyless(cn, sub[n].table)
    ensures TwoKeyless(cn, sub) <==> TwoKeyless(cn, sub[..n]) || (SomeKeyless(cn, sub[..n]) && Keyless(cn, sub[n].table))
  {
    assert forall i :: 0 <= i < n ==> sub[..n][i] == sub[i];
    if SomeKeyless(cn, sub[..n]) {
      var i :| 0 <= i < n && Keyless(cn, sub[..n][i].table);
      assert Keyless(cn, sub[i].table);
    }
    if TwoKeyless(cn, sub[..n]) {
      var i, j :| 0 <= i < j < n && Keyless(cn, sub[..n][i].table) && Keyless(cn, sub[..n][j].table);
      assert Keyless(cn, sub[i].table) && Keyless(cn, sub[j].table);
    }
  }

  lemma SingleEmpty(cn: CountNum, table: string, p: real)
    requires NonNegative(cn) && Occurring(cn)
    ensures Solid(Single(cn, table, p)) && (Single(cn, table, p) == [] <==> Keyless(cn, table))
  {
    KeylessItems(cn, table);
    CompressedEmpty(SingleItems(cn, table), p);
  }

  /** The average estimate of a star is not a number iff two of its tables have no key at all. */
  lemma {:induction false} AverageMissingIff(cn: CountNum, sub: seq<Star.TableColumn>, p: real)
    requires NonNegative(cn) && Occurring(cn) && sub != []
    ensures Average(cn, sub, p) == None <==> TwoKeyless(cn, sub)
    ensures Solid(Upper(cn, sub, p)) && (Upper(cn, sub, p) == [] <==> SomeKeyless(cn, sub))
    decreases |sub|
  {
    var n := |sub| - 1;
    SingleEmpty(cn, sub[n].table, p);
    KeylessNext(cn, sub, n);
    if n > 0 {
      var a, b := Upper(cn, sub[..n], p), Single(cn, sub[n].table, p);
      AverageMissingIff(cn, sub[..n], p);
      LongerStar(cn, sub, p, n);
      SegmentsEmpty(a, b);
      CompressedEmpty(Segments(a, b), p);
      RowsOfSolid(a);
      RowsOfSolid(b);
    }
  }

  // ---- The position and the rate ----

  /** `max(0, (real - avg) / (upp - avg))` */
  function Position(realCard: real, avgCard: real, uppCard: real): real
    requires uppCard > avgCard
  {
    Max(0.0, (realCard - avgCard) / (uppCard - avgCard))
  }

  /** The exact cardinality of a star never exceeds the chain of dots of its single-table sequences. */
  lemma CollectedBelowUpper(cn: CountNum, sub: seq<Star.TableColumn>, p: real)
    requires NonNegative(cn) && sub != []
    ensures TotalCard(cn, Star.TableNames(sub)) as real <= Card(Upper(cn, sub, p))
  {
    UpperDominates(cn, sub, p);
    forall i | 0 <= i < |cn| ensures Products(cn, sub)[i].degree >= 0.0 {
      ProductNonNegative(cn[i].0, sub);
    }
    DominatesCard(Upper(cn, sub, p), Products(cn, sub));
    ProductsCard(cn, sub);
    TotalCardIsTotal(cn, sub);
  }

  lemma QuotientAtMostOne(x: real, y: real)
    requires y > 0.0 && x <= y
    ensures x / y <= 1.0
  {
    var q := x / y;
    assert q * y == x;
    if q > 1.0 {
      MulStrict(y, 1.0, q);
    }
  }

  lemma {:induction false} PowAboveOne(x: real, n: nat)
    requires x > 1.0 && n > 0
    ensures Pow(x, n) > 1.0
  {
    if n > 1 {
      PowAboveOne(x, n - 1);
      MulStrict(x, 1.0, Pow(x, n - 1));
    }
  }

  lemma QuotientTimes(x: real, y: real)
    requires y > 0.0
    ensures x / y * y == x
  {
  }

  /**
   The position tells how far to go from the average to the upper bound: to the true cardinality, or not at all if that is
   below the average. It is 1 exactly at the upper bound and 0 exactly up to the average.
   */
  lemma PositionMeets(realCard: real, avgCard: real, uppCard: real)
    requires avgCard < uppCard
    ensures avgCard + Position(realCard, avgCard, uppCard) * (uppCard - avgCard) == if realCard < avgCard then avgCard else realCard
    ensures Position(realCard, avgCard, uppCard) == 1.0 <==> realCard == uppCard
    ensures Position(realCard, avgCard, uppCard) == 0.0 <==> realCard <= avgCard
  {
    var x, y := realCard - avgCard, uppCard - avgCard;
    QuotientTimes(x, y);
    QuotientOne(x, y);
    if x < 0.0 {
      QuotientNegative(x, y);
    } else {
      QuotientNonNegative(x, y);
    }
  }

  lemma QuotientOne(x: real, y: real)
    requires y > 0.0
    ensures x / y == 1.0 <==> x == y
  {
    QuotientTimes(x, y);
  }

  lemma QuotientNegative(x: real, y: real)
    requires x < 0.0 && y > 0.0
    ensures x / y < 0.0
  {
  }

  lemma QuotientNonNegative(x: real, y: real)
    requires x >= 0.0 && y > 0.0
    ensures x / y >= 0.0
  {
  }

  /** The `n`-th root of a position is a rate between 0 and 1. */
  lemma RateAtMostOne(realCard: real, avgCard: real, uppCard: real, n: nat, rate: real)
    requires avgCard < uppCard && realCard <= uppCard && n > 0
    requires rate >= 0.0 && Pow(rate, n) == Position(realCard, avgCard, uppCard)
    ensures 0.0 <= Position(realCard, avgCard, uppCard) <= 1.0 && rate <= 1.0
  {
    QuotientAtMostOne(realCard - avgCard, uppCard - avgCard);
    if rate > 1.0 {
      PowAboveOne(rate, n);
    }
  }

  /** Nothing but an average that reaches the upper bound is left out; one that is not a number is less than nothing. */
  predicate TakesPart(cn: CountNum, sub: seq<Star.TableColumn>, p: real)
    requires sub != []
  {
    Average(cn, sub, p).None? || Average(cn, sub, p).value < Card(Upper(cn, sub, p))
  }

  /** What the power function gets: 0 where the average is not a number. */
  function PositionOf(cn: CountNum, sub: seq<Star.TableColumn>, p: real): real
    requires sub != [] && TakesPart(cn, sub, p)
  {
    match Average(cn, sub, p)
    case None => 0.0
    case Some(avg) => Position(TotalCard(cn, Star.TableNames(sub)) as real, avg, Card(Upper(cn, sub, p)))
  }

  lemma PositionInUnit(cn: CountNum, sub: seq<Star.TableColumn>, p: real, rate: real)
    requires NonNegative(cn) && sub != [] && TakesPart(cn, sub, p) && rate >= 0.0 && Pow(rate, |sub|) == PositionOf(cn, sub, p)
    ensures rate <= 1.0 && (Average(cn, sub, p).None? ==> rate == 0.0)
  {
    CollectedBelowUpper(cn, sub, p);
    var avg := Average(cn, sub, p);
    if avg.Some? {
      RateAtMostOne(TotalCard(cn, Star.TableNames(sub)) as real, avg.value, Card(Upper(cn, sub, p)), |sub|, rate);
    } else if rate > 0.0 {
      PowPositive(rate, |sub|);
    }
  }

  lemma {:induction false} PowPositive(x: real, n: nat)
    requires x > 0.0
    ensures Pow(x, n) > 0.0
  {
    if n > 0 {
      PowPositive(x, n - 1);
      Averaging.ProductSign(x, Pow(x, n - 1));
    }
  }

  /** The sequence and the average over the first `i` tables. */
  ghost predicate Measured(cn: CountNum, sub: seq<Star.TableColumn>, p: real, i: nat, avg: Option<real>, ds: seq<Bin>)
    requires 0 < i <= |sub|
  {
    avg == Average(cn, sub[..i], p) && ds == Upper(cn, sub[..i], p)
  }

  lemma MeasuredNext(cn: CountNum, sub: seq<Star.TableColumn>, p: real, i: nat, avg: Option<real>, ds: seq<Bin>)
    requires 0 < i < |sub| && Measured(cn, sub, p, i, avg, ds)
    ensures var single := Single(cn, sub[i].table, p);
            Measured(cn, sub, p, i + 1, if avg.None? then None else AverageStep(avg.value, ds, single), DotBins(ds, single, p))
  {
    var more := sub[..i + 1];
    assert more[..i] == sub[..i] && more[i] == sub[i];
    LongerStar(cn, more, p, i);
  }

  lemma MeasuredFirst(cn: CountNum, sub: seq<Star.TableColumn>, p: real)
    requires sub != []
    ensures Measured(cn, sub, p, 1, Some(Card(Single(cn, sub[0].table, p))), Single(cn, sub[0].table, p))
  {
  }

  lemma MeasuredAll(cn: CountNum, sub: seq<Star.TableColumn>, p: real, avg: Option<real>, ds: seq<Bin>)
    requires sub != [] && Measured(cn, sub, p, |sub|, avg, ds)
    ensures avg == Average(cn, sub, p) && ds == Upper(cn, sub, p)
  {
    assert sub[..|sub|] == sub;
  }

  /** The loop over the tables of a subset. */
  method MeasureSubset(cn: CountNum, sub: seq<Star.TableColumn>, p: real) returns (avg: Option<real>, upp: real)
    requires sub != []
    ensures avg == Average(cn, sub, p) && upp == Card(Upper(cn, sub, p))
  {
    var ds := Single(cn, sub[0].table, p);
    avg := Some(Card(ds));
    MeasuredFirst(cn, sub, p);
    for i := 1 to |sub|
      invariant Measured(cn, sub, p, i, avg, ds)
    {
      var single := Single(cn, sub[i].table, p);
      MeasuredNext(cn, sub, p, i, avg, ds);
      avg := if avg.None? then None else AverageStep(avg.value, ds, single);
      ds := DotBins(ds, single, p);
    }
    MeasuredAll(cn, sub, p, avg, ds);
    upp := Card(ds);
  }

  lemma AverageInUnit(sum: real, n: nat)
    requires n > 0 && 0.0 <= sum <= n as real
    ensures 0.0 <= sum / n as real <= 1.0
  {
    QuotientAtMostOne(sum, n as real);
  }

  class Calibration {
    var rateSum: real
    var rateCount: nat
    var adjustRate: real

    /** The rates summed so far all lie between 0 and 1, and so does the rate in use. */
    ghost predicate Valid()
      reads this
    {
      0.0 <= rateSum <= rateCount as real && 0.0 <= adjustRate <= 1.0
    }

    constructor ()
      ensures Valid() && rateSum == 0.0 && rateCount == 0 && adjustRate == 0.1
    {
      rateSum, rateCount, adjustRate := 0.0, 0, 0.1;
    }

    /** One turn of the rate loop. `rate` is the root of the position that the power function returns. */
    method AddSubset(cn: CountNum, sub: seq<Star.TableColumn>, p: real, rate: real)
      requires Valid() && NonNegative(cn) && sub != []
      requires TakesPart(cn, sub, p) ==> rate >= 0.0 && Pow(rate, |sub|) == PositionOf(cn, sub, p)
      modifies this`rateSum, this`rateCount
      ensures Valid()
      ensures if |sub| > 1 && TakesPart(cn, sub, p) then rateSum == old(rateSum) + rate && rateCount == old(rateCount) + 1
              else rateSum == old(rateSum) && rateCount == old(rateCount)
      ensures TakesPart(cn, sub, p) ==> rate <= 1.0 && (Average(cn, sub, p).None? ==> rate == 0.0)
    {
      if TakesPart(cn, sub, p) {
        PositionInUnit(cn, sub, p, rate);
      }
      if |sub| <= 1 {
        return;
      }
      var avgCard, uppCard := MeasureSubset(cn, sub, p);
      if avgCard.Some? && uppCard <= avgCard.value {
        return;
      }
      rateSum := rateSum + rate;
      rateCount := rateCount + 1;
    }

    method CalcAdjustRate()
      requires Valid()
      modifies this`adjustRate
      ensures Valid()
      ensures adjustRate == if rateCount > 0 then rateSum / rateCount as real else old(adjustRate)
    {
      if rateCount > 0 {
        AverageInUnit(rateSum, rateCount);
        adjustRate := rateSum / rateCount as real;
      }
    }
  }
}

/**
 What `EstimateCardinality` keeps at any adjustment rate: degrees of at least 1 enter every merge, and an estimate is 0
 exactly where some star of the query has no result, and at least 1 otherwise.
 */
module StarFloor {
  import opened Sums
  import opened Sql
  import opened RankBounds
  import opened DegreeSequences
  import opened CardLimit
  import opened MergeSpread
  import opened MergeChunks
  import opened MergeRows
  import opened MergeBounds
  import opened StarAveraging
  import opened UnionFind
  import opened StarEstimation
  import opened StarGuarantee
  import opened StarJoins
  import opened PlanCounts
  import opened LoneTables
  import Star = StarCollection

  // ---- What enters a merge ----

  ghost predicate Floored(bins: seq<Bin>) {
    forall i :: 0 <= i < |bins| ==> bins[i].degree >= 1.0
  }

  /** The mean, with weight `k`, of the mass of a table's sequence and the cardinality. */
  function MeanMass(own: real, card: real, k: real): real {
    k * own + (1.0 - k) * card
  }

  lemma MeanMassIs(own: real, card: real, k: real)
    ensures By(k)(own) + By(1.0 - k)(card) == MeanMass(own, card, k)
  {
    Commutes(own, k);
    Commutes(card, 1.0 - k);
  }

  /**
   At any rate a merge gets degrees of at least 1 only. Together they have at least the mean mass, and exceed it by less than
   1 for every bin, if the sequence speaks of no more rows than the table has.
   */
  lemma PreparedFloor(s: Summary, ndv: map<string, nat>, k: real, t: string)
    requires Within(s) && RowCounts(ndv, s.tables) && Rate(k) && t in s.tables
    ensures Floored(Prepared(s, ndv, k).edges[t])
    ensures |Expand(s.edges[t])| <= ndv[t] ==>
              var bins := Prepared(s, ndv, k).edges[t];
              MeanMass(Card(s.edges[t]), s.card, k) <= Card(bins) <= MeanMass(Card(s.edges[t]), s.card, k) + |bins| as real
  {
    var bins, ndv := s.edges[t], ndv[t];
    var adjusted := Adjusted(bins, s.card, ndv, k);
    NormalizedUp(adjusted);
    AdjustedSound(bins, s.card, ndv, k);
    NormalizedClose(adjusted);
    if |Expand(bins)| <= ndv {
      RowsOf(bins);
      AdjustedMass(bins, s.card, ndv, k);
      MeanMassIs(Card(bins), s.card, k);
    }
  }

  lemma AdjustedSound(bins: seq<Bin>, card: real, ndv: nat, k: real)
    requires ndv > 0 && Adjustable(bins, card, k)
    ensures Solid(Adjusted(bins, card, ndv, k))
  {
    Adjusts(bins, card, ndv, k);
    CountedMixed(bins, By(k), Portion(card, ndv, k), ndv);
    LimitSolid(Mixed(bins, By(k), Portion(card, ndv, k), ndv), card);
  }

  /** All rows of the table get a mean of at least 1, and there are no rows beyond those of the table. */
  ghost predicate LargeMeans(s: Summary, ndv: map<string, nat>, k: real, t: string) {
    && t in s.edges && t in ndv && ndv[t] > 0 && |Expand(s.edges[t])| <= ndv[t]
    && forall i :: 0 <= i < ndv[t] ==> Means(s.edges[t], s.card, ndv[t], k)[i] >= 1.0
  }

  lemma {:induction false} DegreesShown(bins: seq<Bin>)
    requires Counted(bins) && forall i :: 0 <= i < |Expand(bins)| ==> Expand(bins)[i] >= 1.0
    ensures Floored(bins)
  {
    if bins != [] {
      var run, rest := Run(bins[0].degree, bins[0].count), Expand(bins[1..]);
      assert Expand(bins)[0] == bins[0].degree;
      forall i | 0 <= i < |rest| ensures rest[i] >= 1.0 {
        assert Expand(bins)[|run| + i] == rest[i];
      }
      DegreesShown(bins[1..]);
    }
  }

  lemma FlooredStays(bins: seq<Bin>)
    requires Floored(bins)
    ensures Normalized(bins) == bins
  {
    assert forall i :: 0 <= i < |bins| ==> NormalBin(bins[i]) == bins[i];
  }

  lemma MixedNumber(bins: seq<Bin>, scale: real -> real, share: real, ndv: nat)
    requires share >= 0.0 && scale(0.0) == 0.0 && |Expand(bins)| <= ndv
    ensures |Expand(Mixed(bins, scale, share, ndv))| <= ndv
  {
    if share > 0.0 {
      MixedRow(bins, scale, share, ndv, 0);
    } else {
      MixRow(bins, scale, share, 0);
      assert MixAll(bins, scale, share) + [] == MixAll(bins, scale, share);
    }
  }

  lemma AdjustedAtMost(bins: seq<Bin>, card: real, ndv: nat, k: real)
    requires ndv > 0 && Adjustable(bins, card, k) && |Expand(bins)| <= ndv
    ensures |Expand(Adjusted(bins, card, ndv, k))| <= ndv
  {
    RowsOf(bins);
    AdjustedMass(bins, card, ndv, k);
    Adjusts(bins, card, ndv, k);
    assert By(k)(0.0) == 0.0;
    MixedNumber(bins, By(k), Portion(card, ndv, k), ndv);
  }

  lemma AllRanks(e: seq<real>, means: seq<real>, n: nat)
    requires |means| == n > 0 && |e| <= n && (forall i: nat :: i < n ==> RankBounds.At(e, i) == means[i] && means[i] >= 1.0)
    ensures e == means
  {
    assert RankBounds.At(e, n - 1) >= 1.0;
    forall i | 0 <= i < |e| ensures e[i] == means[i] {
      assert RankBounds.At(e, i) == means[i];
    }
  }

  lemma AdjustedRanks(bins: seq<Bin>, card: real, ndv: nat, k: real)
    requires ndv > 0 && Adjustable(bins, card, k) && |Expand(bins)| <= ndv
    requires forall i :: 0 <= i < ndv ==> Means(bins, card, ndv, k)[i] >= 1.0
    ensures Expand(Adjusted(bins, card, ndv, k)) == Means(bins, card, ndv, k)
  {
    var e, means := Expand(Adjusted(bins, card, ndv, k)), Means(bins, card, ndv, k);
    forall i: nat | i < ndv ensures RankBounds.At(e, i) == means[i] {
      AdjustedMean(bins, card, ndv, k, i);
    }
    AdjustedAtMost(bins, card, ndv, k);
    AllRanks(e, means, ndv);
  }

  lemma PreparedRanks(s: Summary, ndv: map<string, nat>, k: real, t: string)
    requires Within(s) && RowCounts(ndv, s.tables) && Rate(k) && t in s.tables && LargeMeans(s, ndv, k, t)
    ensures Expand(Prepared(s, ndv, k).edges[t]) == Means(s.edges[t], s.card, ndv[t], k)
  {
    AdjustedRanks(s.edges[t], s.card, ndv[t], k);
    AdjustedSound(s.edges[t], s.card, ndv[t], k);
    DegreesShown(Adjusted(s.edges[t], s.card, ndv[t], k));
    FlooredStays(Adjusted(s.edges[t], s.card, ndv[t], k));
  }

  /**
   One merge at any rate, in a formula: where no row of the shared table is below 1 after averaging, the cardinality is the
   sum over the ranks of the products of the two means.
   */
  lemma PairCard(l: Summary, r: Summary, x: Setting, t: string)
    requires PairOk(l, r, x) && t == FirstCommon(x.rels, l.tables, r.tables) && t in l.tables && t in r.tables
    requires LargeMeans(l, x.ndv, x.k, t) && LargeMeans(r, x.ndv, x.k, t)
    ensures var products := RankProduct(Means(l.edges[t], l.card, x.ndv[t], x.k), Means(r.edges[t], r.card, x.ndv[t], x.k));
            MergedPair(l, r, x).card == SumTo(products, |products|)
  {
    PreparedRanks(l, x.ndv, x.k, t);
    PreparedRanks(r, x.ndv, x.k, t);
    var a, b := Prepared(l, x.ndv, x.k).edges[t], Prepared(r, x.ndv, x.k).edges[t];
    ExpandSegments(a, b);
    ExpandSum(Segments(a, b));
  }

  // ---- Nothing that is there vanishes ----

  /** A statistic of a join with results: at least one, and every table has a degree. */
  ghost predicate Lively(s: Summary) {
    s.card >= 1.0 && forall t :: t in s.tables ==> t in s.edges && s.edges[t] != []
  }

  lemma LimitNonempty(bins: seq<Bin>, left: real)
    requires Positive(bins) && bins != [] && left > TOLERANCE
    ensures Limit(bins, left) != []
  {
  }

  lemma PreparedNonempty(s: Summary, ndv: map<string, nat>, k: real, t: string)
    requires Within(s) && RowCounts(ndv, s.tables) && Rate(k) && t in s.tables && Lively(s)
    ensures Prepared(s, ndv, k).edges[t] != []
  {
    var bins := s.edges[t];
    Adjusts(bins, s.card, ndv[t], k);
    LimitNonempty(Mixed(bins, By(k), Portion(s.card, ndv[t], k), ndv[t]), s.card);
  }

  lemma {:induction false} MassNonNegative(items: seq<Bin>)
    requires Countable(items)
    ensures Card(items) >= 0.0
  {
    if items != [] {
      MassNonNegative(items[1..]);
      TimesNonNegative(items[0].count, items[0].degree);
    }
  }

  lemma FirstMass(items: seq<Bin>)
    requires items != [] && Fitting(items) && items[0].degree > 0.0
    ensures Card(items) >= items[0].degree
  {
    TimesAtLeast(items[0].count, items[0].degree);
    MassNonNegative(items[1..]);
  }

  lemma ProductFloor(x: real, y: real)
    requires x >= 1.0 && y >= 1.0
    ensures x * y >= 1.0
  {
    MulMono(x, 1.0, y);
  }

  /** Degrees of at least 1 on both sides of the shared table make at least one result. */
  lemma SegmentsFloor(a: seq<Bin>, b: seq<Bin>)
    requires Solid(a) && Solid(b) && Floored(a) && Floored(b) && a != [] && b != []
    ensures Card(Segments(a, b)) >= 1.0
  {
    SegmentsFit(a, b);
    FirstFloor(a, b);
    FirstMass(Segments(a, b));
  }

  lemma FirstFloor(a: seq<Bin>, b: seq<Bin>)
    requires Floored(a) && Floored(b) && a != [] && b != []
    ensures Segments(a, b) != [] && Segments(a, b)[0].degree >= 1.0
  {
    ProductFloor(a[0].degree, b[0].degree);
    SegmentsShape(a, b, MinNat(a[0].count, b[0].count));
  }

  lemma {:induction false} CardOverZero(bins: seq<Bin>)
    requires Countable(bins)
    ensures CardOver(bins, 0.0) == Card(bins)
  {
    if bins != [] {
      CardOverZero(bins[1..]);
    }
  }

  lemma CompressNonempty(items: seq<Bin>, p: real)
    requires Countable(items) && Card(items) > 0.0
    ensures Compress(items, p) != []
  {
    CompressUp(items, p, 0.0);
    CardOverZero(items);
  }

  lemma FinishNonempty(items: seq<Bin>, p: real, card: real)
    requires Fitting(items) && Card(items) > 0.0 && card >= 1.0
    ensures FinishEdge(items, p, card) != []
  {
    CompressSolid(items, p);
    CompressNonempty(items, p);
    LimitNonempty(Compress(items, p), card);
    LimitSolid(Compress(items, p), card);
    LimitNonempty(Limit(Compress(items, p), card), card);
  }

  // ---- The rows of another table ----

  /** A row under way that has got something already. */
  ghost predicate UnderWay(c: Cursor) {
    SoundCursor(c) && Counted(c.bins) && c.part > 0.0 && c.cur > 0.0
  }

  /** What was fed first has a degree, or nothing was fed and a row is under way. */
  ghost predicate Reaches(f: Fed) {
    if f.items == [] then UnderWay(f.cursor) else f.items[0].degree > 0.0
  }

  lemma MulPositive(x: real, w: real)
    requires x > 0.0 && w > 0.0
    ensures Mul(x, w) > 0.0
  {
  }

  lemma FeedFirst(bins: seq<Bin>, r: real, w: real)
    requires Solid(bins) && bins != [] && r > TOLERANCE && w > 0.0
    ensures Reaches(FeedBins(bins, r, w))
  {
    var d := bins[0].degree;
    FeedBinsSound(bins, r, w);
    FeedBinsCounted(bins, r, w);
    MulPositive(d, w);
    if r < Times(bins[0].count, d) {
      var q := WholeTimes(r, d);
      if q == 0 {
        MulPositive(r, w);
      }
    }
  }

  lemma FeedFurther(c: Cursor, r: real, w: real)
    requires UnderWay(c) && r > 0.0 && w > 0.0
    ensures Reaches(Feed(c, r, w))
  {
    MulPositive(r, w);
    MulPositive(c.part, w);
  }

  ghost predicate AllWeigh(chunks: seq<Chunk>) {
    Heavy(chunks) && forall i :: 0 <= i < |chunks| ==> chunks[i].weight > 0.0
  }

  lemma {:induction false} FeedAllReaches(c: Cursor, chunks: seq<Chunk>)
    requires UnderWay(c) && AllWeigh(chunks)
    ensures Reaches(FeedAll(c, chunks))
    decreases |chunks|, 0
  {
    if chunks != [] {
      var f := Feed(c, chunks[0].rows, chunks[0].weight);
      FeedFurther(c, chunks[0].rows, chunks[0].weight);
      RestReaches(f, chunks[1..]);
    }
  }

  lemma {:induction false} RestReaches(f: Fed, chunks: seq<Chunk>)
    requires Reaches(f) && Positive(f.cursor.bins) && AllWeigh(chunks)
    ensures var rest := FeedAll(f.cursor, chunks);
            Reaches(Fed(f.items + rest.items, rest.cursor))
    decreases |chunks|, 1
  {
    if f.items == [] {
      FeedAllReaches(f.cursor, chunks);
      assert f.items + FeedAll(f.cursor, chunks).items == FeedAll(f.cursor, chunks).items;
    }
  }

  /** A table with a degree keeps one. */
  lemma EdgeItemsMass(bins: seq<Bin>, chunks: seq<Chunk>)
    requires Solid(bins) && bins != [] && AllWeigh(chunks) && chunks != [] && chunks[0].rows > TOLERANCE
    ensures Card(EdgeItems(bins, chunks)) > 0.0
  {
    var c := Cursor(0.0, 0.0, bins);
    FeedFirst(bins, chunks[0].rows, chunks[0].weight);
    RestReaches(Feed(c, chunks[0].rows, chunks[0].weight), chunks[1..]);
    EdgeItemsFit(bins, chunks);
    FirstMass(EdgeItems(bins, chunks));
  }

  lemma {:induction false} AlongWeighs(a: seq<Bin>, b: seq<Bin>)
    requires Solid(a) && Solid(b)
    ensures AllWeigh(ChunksAlong(a, b))
    decreases |a| + |b|
  {
    AlongHeavy(a, b);
    if a != [] && b != [] {
      var c := MinNat(a[0].count, b[0].count);
      AdvanceSolid(a, c);
      AdvanceSolid(b, c);
      AlongWeighs(Advance(a, c), Advance(b, c));
    }
  }

  lemma AlongFirst(a: seq<Bin>, b: seq<Bin>)
    requires Solid(a) && Solid(b) && Floored(a) && a != [] && b != []
    ensures ChunksAlong(a, b) != [] && ChunksAlong(a, b)[0].rows >= 1.0
  {
    TimesAtLeast(MinNat(a[0].count, b[0].count), a[0].degree);
  }

  // ---- Merging ----

  ghost predicate Prepares(s: Summary) {
    SolidSummary(s) && forall t :: t in s.tables ==> Floored(s.edges[t]) && s.edges[t] != []
  }

  lemma SideMass(s: Summary, t: string, a: seq<Bin>, b: seq<Bin>)
    requires Prepares(s) && t in s.tables && Solid(a) && Solid(b) && Floored(a) && a != [] && b != []
    ensures Heavy(ChunksAlong(a, b)) && Card(SideItems(s, ChunksAlong(a, b), t)) > 0.0
  {
    AlongWeighs(a, b);
    AlongFirst(a, b);
    EdgeItemsMass(s.edges[t], ChunksAlong(a, b));
  }

  lemma SideNonNegative(s: Summary, t: string, chunks: seq<Chunk>)
    requires SolidSummary(s) && Heavy(chunks)
    ensures Card(SideItems(s, chunks, t)) >= 0.0
  {
    SideFits(s, chunks, t);
    MassNonNegative(SideItems(s, chunks, t));
  }

  lemma MergedMass(l: Summary, r: Summary, table: string, t: string)
    requires MergesOn(l, r, table) && Prepares(l) && Prepares(r) && t in l.tables + r.tables
    ensures Card(MergedItems(l, r, table, t)) > 0.0
  {
    var a, b := l.edges[table], r.edges[table];
    if t == table {
      SegmentsFloor(a, b);
    } else {
      AlongHeavy(a, b);
      AlongHeavy(b, a);
      CardAppend(SideItems(l, ChunksAlong(a, b), t), SideItems(r, ChunksAlong(b, a), t));
      SideNonNegative(l, t, ChunksAlong(a, b));
      SideNonNegative(r, t, ChunksAlong(b, a));
      if t in l.tables {
        SideMass(l, t, a, b);
      } else {
        SideMass(r, t, b, a);
      }
    }
  }

  /** Merging joins that have results gives one that has: with degrees of at least 1, at least one result. */
  lemma MergedLively(l: Summary, r: Summary, table: string, p: real)
    requires MergesOn(l, r, table) && Prepares(l) && Prepares(r)
    ensures Lively(Merged(l, r, table, p))
  {
    SegmentsFloor(l.edges[table], r.edges[table]);
    forall t | t in l.tables + r.tables ensures MergedEdge(l, r, table, t, p) != [] {
      MergedItemsFit(l, r, table, t);
      MergedMass(l, r, table, t);
      FinishNonempty(MergedItems(l, r, table, t), p, Card(Segments(l.edges[table], r.edges[table])));
    }
  }

  lemma PreparedLively(s: Summary, ndv: map<string, nat>, k: real)
    requires Within(s) && RowCounts(ndv, s.tables) && Rate(k) && Lively(s)
    ensures Prepares(Prepared(s, ndv, k))
  {
    forall t | t in s.tables ensures Floored(Prepared(s, ndv, k).edges[t]) && Prepared(s, ndv, k).edges[t] != [] {
      PreparedFloor(s, ndv, k, t);
      PreparedNonempty(s, ndv, k, t);
    }
  }

  /** A step at any rate. */
  lemma PairLively(l: Summary, r: Summary, x: Setting)
    requires PairOk(l, r, x) && Lively(l) && Lively(r)
    ensures Lively(MergedPair(l, r, x))
  {
    CommonTable(l, r, x);
    PreparedLively(l, x.ndv, x.k);
    PreparedLively(r, x.ndv, x.k);
    MergedLively(Prepared(l, x.ndv, x.k), Prepared(r, x.ndv, x.k), FirstCommon(x.rels, l.tables, r.tables), x.p);
  }

  // ---- Nothing comes from nothing ----

  ghost predicate Dead(s: Summary) {
    s.card == 0.0
  }

  lemma DeadEdge(s: Summary, t: string)
    requires Within(s) && Dead(s) && t in s.tables
    ensures s.edges[t] == []
  {
    CardPositive(s.edges[t]);
  }

  lemma DeadPrepared(s: Summary, ndv: map<string, nat>, k: real, t: string)
    requires Within(s) && RowCounts(ndv, s.tables) && Rate(k) && t in s.tables && Dead(s)
    ensures Prepared(s, ndv, k).edges[t] == []
  {
    DeadEdge(s, t);
    Adjusts(s.edges[t], s.card, ndv[t], k);
    assert Portion(s.card, ndv[t], k) == 0.0;
  }

  /** A join with a side that has no results has none. */
  lemma PairDead(l: Summary, r: Summary, x: Setting)
    requires PairOk(l, r, x) && (Dead(l) || Dead(r))
    ensures Dead(MergedPair(l, r, x))
  {
    CommonTable(l, r, x);
    var table := FirstCommon(x.rels, l.tables, r.tables);
    if Dead(l) {
      DeadPrepared(l, x.ndv, x.k, table);
    } else {
      DeadPrepared(r, x.ndv, x.k, table);
    }
  }

  // ---- Over the whole loop ----

  ghost predicate LivelyOrDead(s: Summary) {
    Lively(s) || Dead(s)
  }

  ghost predicate AllDecided(stats: seq<Summary>) {
    forall i: nat :: i < |stats| ==> LivelyOrDead(stats[i])
  }

  /** Some statistic that went into the root `r` has no results. */
  ghost predicate Hit(stats: seq<Summary>, rep: map<nat, nat>, r: nat) {
    exists i: nat :: i < |stats| && i in rep && rep[i] == r && Dead(stats[i])
  }

  ghost predicate RootDecided(stats: seq<Summary>, g: Groups, r: nat)
    requires r < |g.stats|
  {
    LivelyOrDead(g.stats[r]) && (IsRoot(g.rep, r) ==> (Dead(g.stats[r]) <==> Hit(stats, g.rep, r)))
  }

  /** A root has no results iff one of its statistics has none. */
  ghost predicate Decided(stats: seq<Summary>, g: Groups) {
    |g.stats| == |stats| && forall r: nat :: r < |stats| ==> RootDecided(stats, g, r)
  }

  lemma PairDecided(l: Summary, r: Summary, x: Setting)
    requires PairOk(l, r, x) && LivelyOrDead(l) && LivelyOrDead(r)
    ensures LivelyOrDead(MergedPair(l, r, x)) && (Dead(MergedPair(l, r, x)) <==> Dead(l) || Dead(r))
  {
    if Dead(l) || Dead(r) {
      PairDead(l, r, x);
    } else {
      PairLively(l, r, x);
    }
  }

  lemma HitRedirect(stats: seq<Summary>, rep: map<nat, nat>, a: nat, b: nat, r: nat)
    requires a != b && r != b
    ensures Hit(stats, Redirect(rep, b, a), r) <==> Hit(stats, rep, r) || (r == a && Hit(stats, rep, b))
  {
    var rep' := Redirect(rep, b, a);
    if Hit(stats, rep', r) {
      var i: nat :| i < |stats| && i in rep' && rep'[i] == r && Dead(stats[i]);
      assert i in rep && (rep[i] == r || (r == a && rep[i] == b));
    }
    if i: nat :| i < |stats| && i in rep && rep[i] == r && Dead(stats[i]) {
      assert i in rep' && rep'[i] == r;
    }
    if r == a {
      if i: nat :| i < |stats| && i in rep && rep[i] == b && Dead(stats[i]) {
        assert i in rep' && rep'[i] == a;
      }
    }
  }

  lemma RootAfter(stats: seq<Summary>, g: Groups, a: nat, b: nat, s: Summary, r: nat)
    requires |g.stats| == |stats| && a < |stats| && b < |stats| && r < |stats| && a != b && IsRoot(g.rep, a) && IsRoot(g.rep, b)
    requires RootDecided(stats, g, a) && RootDecided(stats, g, b) && RootDecided(stats, g, r)
    requires LivelyOrDead(s) && (Dead(s) <==> Dead(g.stats[a]) || Dead(g.stats[b]))
    ensures RootDecided(stats, Groups(g.stats[a := s], Redirect(g.rep, b, a)), r)
  {
    if r != b {
      HitRedirect(stats, g.rep, a, b, r);
    }
  }

  lemma StepDecided(stats: seq<Summary>, g: Groups, x: Setting, i: nat, j: nat)
    requires GroupsOk(g, x) && Decided(stats, g) && i < |stats| && j < |stats|
    ensures Decided(stats, PairStep(g, x, i, j))
  {
    if Merges(g, i, j) {
      RootsShare(g, x, i, j);
      var a, b := g.rep[i], g.rep[j];
      assert RepOk(g, i) && RepOk(g, j);
      assert RootDecided(stats, g, a) && RootDecided(stats, g, b);
      PairDecided(g.stats[a], g.stats[b], x);
      forall r: nat | r < |stats| ensures RootDecided(stats, PairStep(g, x, i, j), r) {
        assert RootDecided(stats, g, r);
        RootAfter(stats, g, a, b, MergedPair(g.stats[a], g.stats[b], x), r);
      }
    }
  }

  lemma {:induction false} RunDecided(stats: seq<Summary>, g: Groups, x: Setting, i: nat, j: nat)
    requires GroupsOk(g, x) && Decided(stats, g)
    ensures Decided(stats, RunFrom(g, x, i, j))
    decreases |stats| - i, |stats| - j
  {
    if i < |stats| && j < |stats| {
      StepDecided(stats, g, x, i, j);
      RunDecided(stats, PairStep(g, x, i, j), x, i, j + 1);
    } else if i < |stats| {
      RunDecided(stats, g, x, i + 1, i + 2);
    }
  }

  lemma AllMergedDecided(stats: seq<Summary>, x: Setting)
    requires StatsOk(stats, x) && AllDecided(stats)
    ensures Decided(stats, AllMerged(stats, x))
  {
    StartOk(stats, x);
    var g := Groups(stats, Alone(|stats|));
    forall r: nat | r < |stats| ensures RootDecided(stats, g, r) {
      assert LivelyOrDead(stats[r]);
      if Dead(stats[r]) {
        assert r in g.rep && g.rep[r] == r;
      }
    }
    RunDecided(stats, g, x, 0, 1);
  }

  ghost predicate DeadRoot(g: Groups, i: nat) {
    exists r: nat :: r < i && r < |g.stats| && IsRoot(g.rep, r) && Dead(g.stats[r])
  }

  /** A product of numbers that are 0 or at least 1 is 0 or at least 1. */
  lemma FactorDecided(x: real, y: real)
    requires (x == 0.0 || x >= 1.0) && (y == 0.0 || y >= 1.0)
    ensures if x == 0.0 || y == 0.0 then Product2(x, y) == 0.0 else Product2(x, y) >= 1.0
  {
    if x >= 1.0 && y >= 1.0 {
      ProductFloor(x, y);
    }
  }

  lemma {:induction false} ProductDecided(stats: seq<Summary>, g: Groups, i: nat)
    requires Decided(stats, g) && i <= |stats|
    ensures if DeadRoot(g, i) then RootProduct(g, i) == 0.0 else RootProduct(g, i) >= 1.0
  {
    if i > 0 {
      ProductDecided(stats, g, i - 1);
      assert RootDecided(stats, g, i - 1);
      if IsRoot(g.rep, i - 1) {
        FactorDecided(RootProduct(g, i - 1), g.stats[i - 1].card);
      }
      assert DeadRoot(g, i) <==> DeadRoot(g, i - 1) || (IsRoot(g.rep, i - 1) && Dead(g.stats[i - 1]));
    }
  }

  ghost predicate SomeDead(stats: seq<Summary>) {
    exists i: nat :: i < |stats| && Dead(stats[i])
  }

  lemma DeadRootIff(stats: seq<Summary>, g: Groups, x: Setting)
    requires GroupsOk(g, x) && Decided(stats, g)
    ensures DeadRoot(g, |stats|) <==> SomeDead(stats)
  {
    if DeadRoot(g, |stats|) {
      var r: nat :| r < |stats| && IsRoot(g.rep, r) && Dead(g.stats[r]);
      assert RootDecided(stats, g, r);
    }
    if i: nat :| i < |stats| && Dead(stats[i]) {
      assert RepOk(g, i);
      var r := g.rep[i];
      assert RootDecided(stats, g, r) && Hit(stats, g.rep, r);
    }
  }

  /** At any rate: 0 if some statistic has no results, and at least 1 otherwise. */
  lemma EstimateFloor(stats: seq<Summary>, x: Setting)
    requires StatsOk(stats, x) && AllDecided(stats)
    ensures if SomeDead(stats) then EstimateOf(stats, x) == 0.0 else EstimateOf(stats, x) >= 1.0
  {
    var g := AllMerged(stats, x);
    AllMergedDecided(stats, x);
    ProductDecided(stats, g, |stats|);
    DeadRootIff(stats, g, x);
  }

  // ---- Collected statistics ----

  lemma BoundedNonempty(s: Summary, results: seq<Tuple>, sizes: string -> nat, t: string)
    requires Bounds(s, results, sizes) && t in s.tables && results != []
    ensures s.edges[t] != []
  {
    var xs := Degrees(results, RowAt(t), sizes(t));
    DegreesSum(results, s.tables, sizes, t);
    assert EdgeBounds(s.edges[t], results, t, sizes(t));
    if s.edges[t] == [] {
      DominatedSum([], xs);
    }
  }

  lemma CollectedDecided(db: Star.Database, plan: Plan, s: Summary, p: real)
    requires CollectsOne(db, plan, s, p)
    ensures LivelyOrDead(s) && (Dead(s) <==> Results(db, plan) == [])
  {
    CollectedExact(db, plan, s, p);
    PlanBounded(db, plan, p);
    if Results(db, plan) != [] {
      forall t | t in s.tables ensures s.edges[t] != [] {
        BoundedNonempty(s, Results(db, plan), SizesOf(db), t);
      }
    }
  }

  ghost predicate Fruitless(db: Star.Database, plans: seq<Plan>) {
    exists i: nat :: i < |plans| && PlanOk(db, plans[i]) && Results(db, plans[i]) == []
  }

  lemma FruitlessIff(db: Star.Database, plans: seq<Plan>, stats: seq<Summary>, p: real)
    requires Collects(db, plans, stats, p)
    ensures AllDecided(stats) && (SomeDead(stats) <==> Fruitless(db, plans))
  {
    forall i: nat | i < |plans| ensures LivelyOrDead(stats[i]) && PlanOk(db, plans[i]) && (Dead(stats[i]) <==> Results(db, plans[i]) == []) {
      assert CollectsOne(db, plans[i], stats[i], p);
      CollectedDecided(db, plans[i], stats[i], p);
    }
  }

  lemma HoldsResult(db: Star.Database, plan: Plan, z: Tuple)
    requires PlanOk(db, plan) && PlanHolds(db, plan, z)
    ensures Results(db, plan) != []
  {
    ResultsList(db, plan);
    PlanHoldsPart(db, plan, z, PlanTables(plan));
    PlanHoldsRowed(db, plan, z);
    assert Part(z, PlanTables(plan)) in Results(db, plan);
  }

  lemma FruitlessNone(db: Star.Database, plans: seq<Plan>, tables: seq<string>)
    requires PlansOk(db, plans) && Distinct(tables) && Names(tables) == AllTables(plans) && Fruitless(db, plans)
    ensures CollectedCount(db, plans, tables) == 0
  {
    var i: nat :| i < |plans| && PlanOk(db, plans[i]) && Results(db, plans[i]) == [];
    var all := CollectedList(db, plans, tables);
    if all != [] {
      assert all[0] in all;
      HoldsResult(db, plans[i], all[0]);
    }
  }

  /**
   At any adjustment rate and precision, the estimate from collected statistics is 0 iff a star of the query has no results,
   and otherwise it is at least 1. So it is 0 only if the query, as collection sees it, has no results.
   */
  lemma EstimateZeroIff(db: Star.Database, plans: seq<Plan>, stats: seq<Summary>, x: Setting, tables: seq<string>)
    requires Collects(db, plans, stats, x.p) && StatsOk(stats, x) && Distinct(tables) && Names(tables) == AllTables(plans)
    ensures EstimateOf(stats, x) == 0.0 <==> Fruitless(db, plans)
    ensures EstimateOf(stats, x) == 0.0 || EstimateOf(stats, x) >= 1.0
    ensures EstimateOf(stats, x) == 0.0 ==> CollectedCount(db, plans, tables) == 0
  {
    FruitlessIff(db, plans, stats, x.p);
    EstimateFloor(stats, x);
    CollectsInputs(db, plans, stats, x.p);
    if Fruitless(db, plans) {
      FruitlessNone(db, plans, tables);
    }
  }
}

/**
 Merging two statistics on a shared table. A statistic bounds a join result if its cardinality does and
 if, for every table, the stored sequence dominates the degrees of the table's rows; merging preserves
 this, so an estimate built by merging never falls below the true size of the join.
 */
module MergeBounds {
  import opened Sums
  import opened RankBounds
  import opened DegreeSequences
  import opened CardLimit
  import opened MergeSpread
  import opened MergeChunks
  import opened MergeRows
  import R = RealSums

  // ---- Closing a sequence ----

  lemma LimitKeepsOk(bins: seq<Bin>, left: real)
    requires EdgeOk(bins) && left >= 0.0 && Whole(left)
    ensures EdgeOk(Limit(bins, left))
  {
    var b := EdgeBound(bins);
    LimitProper(bins, left, b);
    LimitWhole(bins, left);
  }

  lemma {:induction false} LimitWhole(bins: seq<Bin>, left: real)
    requires Positive(bins) && Integral(bins) && Counted(bins) && left >= 0.0 && Whole(left)
    ensures Integral(Limit(bins, left)) && Counted(Limit(bins, left))
  {
    if bins != [] {
      var d, m := bins[0].degree, Times(bins[0].count, bins[0].degree);
      if m <= left {
        WholeRest(left, bins[0].count, d);
        LimitWhole(bins[1..], left - m);
      } else {
        CutWhole(d, left);
      }
    }
  }

  lemma CutWhole(d: real, left: real)
    requires d > 0.0 && Whole(d) && left >= 0.0 && Whole(left)
    ensures Integral(Cut(d, left)) && Counted(Cut(d, left))
  {
    if left > TOLERANCE && left >= d {
      var c := WholeTimes(left, d);
      WholeRest(left, c, d);
      assert Times(0, d) == 0.0;
    }
  }

  /** A slot with a positive maximum holds at least that much. */
  ghost predicate SlotFull(s: Slot) {
    s.sum >= 0.0 && s.maxDegree >= 0.0 && (s.maxDegree > 0.0 ==> s.sum >= s.maxDegree)
  }

  lemma MergeFull(s: Slot, degree: real, count: nat)
    requires SlotFull(s) && degree >= 0.0 && count > 0
    ensures SlotFull(Merge(s, degree, count))
  {
    TimesNonNegative(count - 1, degree);
    assert Times(count, degree) == Times(count - 1, degree) + degree;
  }

  lemma AddFull(slots: seq<Slot>, degree: real, count: nat, p: real)
    requires (forall i :: 0 <= i < |slots| ==> SlotFull(slots[i])) && degree >= 0.0 && count > 0
    ensures forall i :: 0 <= i < |AddTo(slots, degree, count, p)| ==> SlotFull(AddTo(slots, degree, count, p)[i])
  {
    var pos := Bucket(degree, p);
    var grown := Grow(slots, pos + 1);
    MergeFull(grown[pos], degree, count);
  }

  lemma {:induction false} AddAllFull(slots: seq<Slot>, items: seq<Bin>, p: real)
    requires (forall i :: 0 <= i < |slots| ==> SlotFull(slots[i])) && Countable(items) && Counted(items)
    ensures forall i :: 0 <= i < |AddAll(slots, items, p)| ==> SlotFull(AddAll(slots, items, p)[i])
    decreases |items|
  {
    if items != [] {
      AddFull(slots, items[0].degree, items[0].count, p);
      AddAllFull(AddTo(slots, items[0].degree, items[0].count, p), items[1..], p);
    }
  }

  lemma TightenCounted(s: Slot)
    requires SlotFull(s) && s.count != 0 && s.maxDegree != 0.0
    ensures Tighten(s).count > 0
  {
    var q := s.sum / s.maxDegree;
    assert q * s.maxDegree == s.sum;
    if q < 1.0 {
      ScaleLess(q, 1.0, s.maxDegree);
    }
  }

  lemma {:induction false} OccupiedCounted(slots: seq<Slot>)
    requires forall i :: 0 <= i < |slots| ==> SlotFull(slots[i])
    ensures forall i :: 0 <= i < |Occupied(slots)| ==> SlotFull(Occupied(slots)[i])
  {
    if slots != [] {
      OccupiedCounted(slots[..|slots| - 1]);
    }
  }

  lemma CompressCounted(items: seq<Bin>, p: real)
    requires Countable(items) && Counted(items)
    ensures Counted(Compress(items, p))
  {
    AddAllFull([], items, p);
    var slots := AddAll([], items, p);
    OccupiedCounted(slots);
    var occ := Occupied(slots);
    forall i | 0 <= i < |occ| ensures Tighten(occ[i]).count > 0 {
      TightenCounted(occ[i]);
    }
  }

  /** Items that can be closed into a stored sequence. */
  ghost predicate ItemsOk(items: seq<Bin>) {
    WholeItems(items) && Counted(items)
  }

  lemma CompressOk(items: seq<Bin>, p: real)
    requires ItemsOk(items)
    ensures EdgeOk(Compress(items, p))
  {
    CompressWhole(items, p);
    CompressProper(items, p);
    CompressCounted(items, p);
  }

  // ---- ... whatever the degrees ----

  /** Degrees that can be closed into a stored sequence. */
  ghost predicate Fitting(items: seq<Bin>) {
    Countable(items) && Counted(items)
  }

  lemma CompressSolid(items: seq<Bin>, p: real)
    requires Fitting(items)
    ensures Solid(Compress(items, p))
  {
    CompressCounted(items, p);
    AddAllFull([], items, p);
    OccupiedCounted(AddAll([], items, p));
  }

  lemma {:induction false} LimitSolid(bins: seq<Bin>, left: real)
    requires Solid(bins) && left >= 0.0
    ensures Solid(Limit(bins, left))
  {
    if bins != [] {
      var m := Times(bins[0].count, bins[0].degree);
      if m <= left {
        LimitSolid(bins[1..], left - m);
      } else {
        CutSolid(bins[0].degree, left);
      }
    }
  }

  lemma CutSolid(d: real, left: real)
    requires d > 0.0 && left >= 0.0
    ensures Solid(Cut(d, left))
  {
    if left > TOLERANCE && left >= d {
      assert Times(0, d) == 0.0;
    }
  }

  /** `FinishCollection` and the second `LimitAllDsToCard`. */
  ghost function FinishEdge(items: seq<Bin>, p: real, card: real): (bins: seq<Bin>)
    requires Fitting(items) && card >= 0.0
    ensures Solid(bins)
  {
    CompressSolid(items, p);
    LimitSolid(Compress(items, p), card);
    LimitSolid(Limit(Compress(items, p), card), card);
    Limit(Limit(Compress(items, p), card), card)
  }

  lemma FinishWhole(items: seq<Bin>, p: real, card: real)
    requires ItemsOk(items) && card >= 0.0 && Whole(card)
    ensures EdgeOk(FinishEdge(items, p, card))
  {
    CompressOk(items, p);
    LimitKeepsOk(Compress(items, p), card);
    LimitKeepsOk(Limit(Compress(items, p), card), card);
  }

  lemma FinishDominates(items: seq<Bin>, p: real, card: real, xs: seq<real>)
    requires ItemsOk(items) && card >= 0.0 && Whole(card) && Dominates(Expand(items), xs)
    requires (forall i :: 0 <= i < |xs| ==> xs[i] >= 0.0) && SumTo(xs, |xs|) <= card
    ensures Dominates(Expand(FinishEdge(items, p, card)), xs)
  {
    DominatesExceeds(Expand(items), xs);
    CompressDominates(items, p, xs);
    CompressOk(items, p);
    LimitDominates(Compress(items, p), card, xs);
    LimitKeepsOk(Compress(items, p), card);
    LimitDominates(Limit(Compress(items, p), card), card, xs);
  }

  // ---- The items are whole and counted ----

  lemma {:induction false} FeedBinsCounted(bins: seq<Bin>, r: real, w: real)
    requires Positive(bins) && Counted(bins) && r >= 0.0
    ensures Counted(FeedBins(bins, r, w).items) && Counted(FeedBins(bins, r, w).cursor.bins)
  {
    if bins != [] && r >= Times(bins[0].count, bins[0].degree) {
      FeedBinsCounted(bins[1..], r - Times(bins[0].count, bins[0].degree), w);
    } else if bins != [] {
      TimesLess(WholeTimes(r, bins[0].degree), bins[0].count, bins[0].degree);
    }
  }

  lemma FeedCounted(c: Cursor, r: real, w: real)
    requires Positive(c.bins) && Counted(c.bins) && r >= 0.0
    ensures Counted(Feed(c, r, w).items) && Counted(Feed(c, r, w).cursor.bins)
  {
    if c.part <= 0.0 {
      FeedBinsCounted(c.bins, r, w);
    } else if r > c.part {
      FeedBinsCounted(c.bins, r - c.part, w);
    }
  }

  lemma {:induction false} FeedAllCounted(c: Cursor, chunks: seq<Chunk>)
    requires Positive(c.bins) && Counted(c.bins) && forall i :: 0 <= i < |chunks| ==> chunks[i].rows > 0.0
    ensures Counted(FeedAll(c, chunks).items)
    decreases |chunks|
  {
    if chunks != [] {
      FeedCounted(c, chunks[0].rows, chunks[0].weight);
      FeedAllCounted(Feed(c, chunks[0].rows, chunks[0].weight).cursor, chunks[1..]);
    }
  }

  lemma EdgeItemsOk(edge: seq<Bin>, chunks: seq<Chunk>)
    requires EdgeOk(edge) && WholeChunks(chunks)
    ensures ItemsOk(EdgeItems(edge, chunks))
  {
    EdgeItemsSpread(edge, chunks);
    FeedAllCounted(Cursor(0.0, 0.0, edge), chunks);
  }

  lemma EdgeItemsFit(edge: seq<Bin>, chunks: seq<Chunk>)
    requires Solid(edge) && Heavy(chunks)
    ensures Fitting(EdgeItems(edge, chunks))
  {
    var c := Cursor(0.0, 0.0, edge);
    FeedAllSound(c, chunks);
    FeedAllCounted(c, chunks);
  }

  lemma {:induction false} SegmentsFit(a: seq<Bin>, b: seq<Bin>)
    requires Solid(a) && Solid(b)
    ensures Fitting(Segments(a, b)) && Card(Segments(a, b)) >= 0.0
    decreases |a| + |b|
  {
    if a != [] && b != [] {
      var c, s := MinNat(a[0].count, b[0].count), Segments(a, b);
      AdvanceSolid(a, c);
      AdvanceSolid(b, c);
      SegmentsFit(Advance(a, c), Advance(b, c));
      SegmentsShape(a, b, c);
      MulNonNegative(a[0].degree, b[0].degree);
      TimesNonNegative(c, s[0].degree);
      FitCons(s);
    }
  }

  lemma FitCons(s: seq<Bin>)
    requires s != [] && s[0].degree >= 0.0 && s[0].count > 0 && Fitting(s[1..])
    ensures Fitting(s) && Card(s) == Times(s[0].count, s[0].degree) + Card(s[1..])
  {
    assert s == [s[0]] + s[1..];
  }

  lemma SegmentsShape(a: seq<Bin>, b: seq<Bin>, c: nat)
    requires a != [] && b != [] && c == MinNat(a[0].count, b[0].count)
    ensures Segments(a, b) != [] && Segments(a, b)[1..] == Segments(Advance(a, c), Advance(b, c))
    ensures Segments(a, b)[0].count == c && Segments(a, b)[0].degree == a[0].degree * b[0].degree
  {
  }

  lemma SegmentsHead(a: seq<Bin>, b: seq<Bin>, c: nat)
    requires a != [] && b != [] && c == MinNat(a[0].count, b[0].count)
    requires Whole(a[0].degree * b[0].degree) && a[0].degree * b[0].degree >= 0.0
    ensures Segments(a, b) != [] && Whole(Segments(a, b)[0].degree) && Segments(a, b)[0].degree >= 0.0
    ensures Segments(a, b)[0].count == c && Segments(a, b)[1..] == Segments(Advance(a, c), Advance(b, c))
  {
    SegmentsShape(a, b, c);
  }

  lemma {:induction false} SegmentsOk(a: seq<Bin>, b: seq<Bin>)
    requires EdgeOk(a) && EdgeOk(b)
    ensures ItemsOk(Segments(a, b))
    decreases |a| + |b|
  {
    if a != [] && b != [] {
      var c, s := MinNat(a[0].count, b[0].count), Segments(a, b);
      assert Whole(s[0].degree) && s[0].degree >= 0.0 && s[0].count == c && s[1..] == Segments(Advance(a, c), Advance(b, c)) by {
        SegmentOk(a[0].degree, b[0].degree);
        SegmentsHead(a, b, c);
      }
      AdvanceOk(a, c);
      AdvanceOk(b, c);
      SegmentsOk(Advance(a, c), Advance(b, c));
      ItemsCons(s[0], s[1..]);
      assert s == [s[0]] + s[1..];
    }
  }

  lemma ItemsCons(head: Bin, rest: seq<Bin>)
    requires Whole(head.degree) && head.degree >= 0.0 && head.count > 0 && ItemsOk(rest)
    ensures ItemsOk([head] + rest)
  {
  }

  lemma SegmentOk(x: real, y: real)
    requires Whole(x) && Whole(y) && x >= 0.0 && y >= 0.0
    ensures Whole(x * y) && x * y >= 0.0
  {
    MulWhole(x, y);
    MulNonNegative(x, y);
  }

  lemma {:induction false} CardWhole(bins: seq<Bin>)
    requires WholeItems(bins)
    ensures Whole(Card(bins)) && Card(bins) >= 0.0
  {
    if bins == [] {
      WholeZero();
    } else {
      CardWhole(bins[1..]);
      WholeTimesWhole(bins[0].count, bins[0].degree);
      WholeAdd(Times(bins[0].count, bins[0].degree), Card(bins[1..]));
      TimesNonNegative(bins[0].count, bins[0].degree);
    }
  }

  // ---- Join results ----

  /** A result of a join: which row of every table. */
  type Tuple = map<string, int>

  function RowAt(t: string): Tuple -> int {
    (x: Tuple) => if t in x then x[t] else -1
  }

  /** The two results have the same row of every table that both have. */
  predicate Agree(x: Tuple, y: Tuple) {
    forall t :: t in x && t in y ==> x[t] == y[t]
  }

  /** The results of the right that agree with `x`. */
  function Matches(x: Tuple, right: seq<Tuple>): seq<Tuple> {
    if right == [] then []
    else
      var k := |right| - 1;
      Matches(x, right[..k]) + if Agree(x, right[k]) then [x + right[k]] else []
  }

  /** The join of two join results on the identity of the rows of all shared tables. */
  function Join(left: seq<Tuple>, right: seq<Tuple>): seq<Tuple> {
    if left == [] then [] else Join(left[..|left| - 1], right) + Matches(left[|left| - 1], right)
  }

  lemma {:induction false} MultiplicityAppend<A, K>(a: seq<A>, b: seq<A>, key: A -> K, k: K)
    ensures Multiplicity(a + b, key, k) == Multiplicity(a, key, k) + Multiplicity(b, key, k)
  {
    if a == [] {
      assert a + b == b;
    } else {
      assert (a + b)[1..] == a[1..] + b;
      MultiplicityAppend(a[1..], b, key, k);
    }
  }

  lemma MultiplicityOne<A, K>(x: A, key: A -> K, k: K)
    ensures Multiplicity([x], key, k) == if key(x) == k then 1 else 0
  {
    assert Multiplicity([x], key, k) == (if key(x) == k then 1 else 0) + Multiplicity([], key, k);
  }

  lemma MultiplicitySnoc<A, K>(s: seq<A>, key: A -> K, k: K)
    requires s != []
    ensures Multiplicity(s, key, k) == Multiplicity(s[..|s| - 1], key, k) + if key(s[|s| - 1]) == k then 1 else 0
  {
    assert s == s[..|s| - 1] + [s[|s| - 1]];
    MultiplicityAppend(s[..|s| - 1], [s[|s| - 1]], key, k);
    MultiplicityOne(s[|s| - 1], key, k);
  }

  ghost predicate Have(s: seq<Tuple>, t: string) {
    forall i :: 0 <= i < |s| ==> t in s[i]
  }

  /** A table of the left: every match of `x` has the row of `x`, and there are no more than share its row of `table`. */
  lemma {:induction false} MatchesLeft(x: Tuple, right: seq<Tuple>, table: string, t: string, u: int)
    requires t in x && table in x && Have(right, table)
    ensures Multiplicity(Matches(x, right), RowAt(t), u) <=
            if RowAt(t)(x) == u then Multiplicity(right, RowAt(table), RowAt(table)(x)) else 0
  {
    if right != [] {
      var k := |right| - 1;
      MatchesLeft(x, right[..k], table, t, u);
      MultiplicitySnoc(right, RowAt(table), RowAt(table)(x));
      var more := if Agree(x, right[k]) then [x + right[k]] else [];
      MultiplicityAppend(Matches(x, right[..k]), more, RowAt(t), u);
      MultiplicityOne(x + right[k], RowAt(t), u);
    }
  }

  /** The degrees of a table of the left after the join. */
  lemma {:induction false} JoinLeft(left: seq<Tuple>, right: seq<Tuple>, table: string, t: string, u: int, ys: seq<real>, k: nat)
    requires k <= |left| && Have(left, t) && Have(left, table) && Have(right, table)
    requires ys == Degrees(right, RowAt(table), |ys|) && forall i :: 0 <= i < |left| ==> 0 <= RowAt(table)(left[i]) < |ys|
    ensures Multiplicity(Join(left[..k], right), RowAt(t), u) as real <=
            Gather(left, RowAt(t), WeightAt(RowAt(table), ys), u, k)
  {
    if k > 0 {
      JoinLeft(left, right, table, t, u, ys, k - 1);
      var x := left[k - 1];
      assert left[..k][..k - 1] == left[..k - 1];
      MatchesLeft(x, right, table, t, u);
      MultiplicityAppend(Join(left[..k - 1], right), Matches(x, right), RowAt(t), u);
      assert WeightAt(RowAt(table), ys)(x) == Multiplicity(right, RowAt(table), RowAt(table)(x)) as real;
    }
  }

  lemma MatchesSnoc(x: Tuple, right: seq<Tuple>, y: Tuple, t: string, u: int)
    requires t in y
    ensures Multiplicity(Matches(x, right + [y]), RowAt(t), u) ==
            Multiplicity(Matches(x, right), RowAt(t), u) + if Agree(x, y) && RowAt(t)(y) == u then 1 else 0
  {
    assert (right + [y])[..|right|] == right;
    var more := if Agree(x, y) then [x + y] else [];
    MultiplicityAppend(Matches(x, right), more, RowAt(t), u);
    MultiplicityOne(x + y, RowAt(t), u);
  }

  /** One more result on the right adds at most its matches on the left. */
  lemma {:induction false} JoinSnocRight(left: seq<Tuple>, right: seq<Tuple>, y: Tuple, table: string, t: string, u: int)
    requires t in y && table in y && Have(left, table)
    ensures Multiplicity(Join(left, right + [y]), RowAt(t), u) <=
            Multiplicity(Join(left, right), RowAt(t), u)
            + if RowAt(t)(y) == u then Multiplicity(left, RowAt(table), RowAt(table)(y)) else 0
  {
    if left != [] {
      var k := |left| - 1;
      var x, rest := left[k], left[..k];
      JoinSnocRight(rest, right, y, table, t, u);
      MultiplicitySnoc(left, RowAt(table), RowAt(table)(y));
      MatchesSnoc(x, right, y, t, u);
      MultiplicityAppend(Join(rest, right + [y]), Matches(x, right + [y]), RowAt(t), u);
      MultiplicityAppend(Join(rest, right), Matches(x, right), RowAt(t), u);
    }
  }

  lemma {:induction false} JoinNothing(left: seq<Tuple>)
    ensures Join(left, []) == []
  {
    if left != [] {
      JoinNothing(left[..|left| - 1]);
    }
  }

  /** The degrees of a table of the right after the join. */
  lemma {:induction false} JoinRight(left: seq<Tuple>, right: seq<Tuple>, table: string, t: string, u: int, xs: seq<real>, k: nat)
    requires k <= |right| && Have(right, t) && Have(left, table) && Have(right, table)
    requires xs == Degrees(left, RowAt(table), |xs|) && forall i :: 0 <= i < |right| ==> 0 <= RowAt(table)(right[i]) < |xs|
    ensures Multiplicity(Join(left, right[..k]), RowAt(t), u) as real <=
            Gather(right, RowAt(t), WeightAt(RowAt(table), xs), u, k)
  {
    if k == 0 {
      JoinNothing(left);
    } else {
      JoinRight(left, right, table, t, u, xs, k - 1);
      var y := right[k - 1];
      assert right[..k] == right[..k - 1] + [y];
      JoinSnocRight(left, right[..k - 1], y, table, t, u);
      assert WeightAt(RowAt(table), xs)(y) == Multiplicity(left, RowAt(table), RowAt(table)(y)) as real;
    }
  }

  lemma {:induction false} GatherOwn<A>(s: seq<A>, key: A -> int, xs: seq<real>, u: int, k: nat)
    requires k <= |s| && 0 <= u < |xs|
    ensures Gather(s, key, WeightAt(key, xs), u, k) == Times(CountTo(s, key, u, k), xs[u])
  {
    if k > 0 {
      GatherOwn(s, key, xs, u, k - 1);
    }
  }

  /** A row of a shared table occurs at most as often as the product of its degrees says. */
  lemma JoinShared(left: seq<Tuple>, right: seq<Tuple>, table: string, r: int, xs: seq<real>)
    requires Have(left, table) && Have(right, table) && 0 <= r < |xs|
    requires xs == Degrees(left, RowAt(table), |xs|) && forall i :: 0 <= i < |right| ==> 0 <= RowAt(table)(right[i]) < |xs|
    ensures Multiplicity(Join(left, right), RowAt(table), r) as real <=
            Times(Multiplicity(right, RowAt(table), r), xs[r])
  {
    JoinRight(left, right, table, table, r, xs, |right|);
    assert right[..|right|] == right;
    GatherOwn(right, RowAt(table), xs, r, |right|);
    CountToIsMultiplicity(right, RowAt(table), r, |right|);
    assert Multiplicity(right[|right|..], RowAt(table), r) == 0;
  }

  // ---- The members of a join ----

  ghost predicate Joins(z: Tuple, left: seq<Tuple>, right: seq<Tuple>) {
    exists i, j :: 0 <= i < |left| && 0 <= j < |right| && z == left[i] + right[j]
  }

  lemma {:induction false} MatchesMembers(x: Tuple, right: seq<Tuple>)
    ensures forall z :: z in Matches(x, right) ==> exists j :: 0 <= j < |right| && z == x + right[j]
  {
    if right != [] {
      var k := |right| - 1;
      MatchesMembers(x, right[..k]);
      forall z | z in Matches(x, right) ensures exists j :: 0 <= j < |right| && z == x + right[j] {
        if z in Matches(x, right[..k]) {
          var j :| 0 <= j < k && z == x + right[..k][j];
          assert z == x + right[j];
        } else {
          assert z == x + right[k];
        }
      }
    }
  }

  lemma {:induction false} JoinMembers(left: seq<Tuple>, right: seq<Tuple>)
    ensures forall z :: z in Join(left, right) ==> Joins(z, left, right)
  {
    if left != [] {
      var k := |left| - 1;
      JoinMembers(left[..k], right);
      MatchesMembers(left[k], right);
      forall z | z in Join(left, right) ensures Joins(z, left, right) {
        if z in Join(left[..k], right) {
          var i, j :| 0 <= i < k && 0 <= j < |right| && z == left[..k][i] + right[j];
          assert z == left[i] + right[j];
        } else {
          var j :| 0 <= j < |right| && z == left[k] + right[j];
        }
      }
    }
  }

  /** Every result has one existing row of every table. */
  ghost predicate Sized(results: seq<Tuple>, tables: set<string>, sizes: string -> nat) {
    forall i :: 0 <= i < |results| ==> SizedTuple(results[i], tables, sizes)
  }

  ghost predicate SizedTuple(x: Tuple, tables: set<string>, sizes: string -> nat) {
    x.Keys == tables && forall t :: t in tables ==> 0 <= x[t] < sizes(t)
  }

  lemma JoinSized(left: seq<Tuple>, right: seq<Tuple>, ts: set<string>, us: set<string>, sizes: string -> nat)
    requires Sized(left, ts, sizes) && Sized(right, us, sizes)
    ensures Sized(Join(left, right), ts + us, sizes)
  {
    var js := Join(left, right);
    JoinMembers(left, right);
    forall k | 0 <= k < |js| ensures SizedTuple(js[k], ts + us, sizes) {
      assert js[k] in js;
      var i, j :| 0 <= i < |left| && 0 <= j < |right| && js[k] == left[i] + right[j];
      assert SizedTuple(left[i], ts, sizes) && SizedTuple(right[j], us, sizes);
    }
  }

  // ---- Degrees add up to the number of results ----

  function One(): int -> real {
    r => 1.0
  }

  lemma {:induction false} SumOnes(results: seq<Tuple>, key: Tuple -> int)
    ensures R.Sum(results, R.After(One(), key)) == |results| as real
  {
    if results != [] {
      SumOnes(results[1..], key);
    }
  }

  lemma DegreesSum(results: seq<Tuple>, tables: set<string>, sizes: string -> nat, t: string)
    requires Sized(results, tables, sizes) && t in tables
    ensures SumTo(Degrees(results, RowAt(t), sizes(t)), sizes(t)) == |results| as real
  {
    var n, key := sizes(t), RowAt(t);
    forall x | x in results ensures 0 <= key(x) < n {
      var i :| 0 <= i < |results| && results[i] == x;
      assert SizedTuple(results[i], tables, sizes);
    }
    ByNumber(results, key, n, One());
    SumOnes(results, key);
    var xs, f := Degrees(results, key, n), R.Weighted(results, key, One());
    forall r | 0 <= r < n ensures xs[r] == f(r) {
      TimesIsProduct(Multiplicity(results, key, r), 1.0);
    }
    SumNumbers(n, f, xs, 0);
    assert Numbers(n)[0..] == Numbers(n);
  }

  // ---- Statistics ----

  datatype Summary = Summary(card: real, tables: set<string>, edges: map<string, seq<Bin>>)

  ghost predicate SummaryOk(s: Summary) {
    s.edges.Keys == s.tables && forall t :: t in s.tables ==> EdgeOk(s.edges[t])
  }

  /** The sequence of a table dominates the degrees of the table's rows. */
  ghost predicate EdgeBounds(bins: seq<Bin>, results: seq<Tuple>, t: string, n: nat) {
    Dominates(Expand(bins), Degrees(results, RowAt(t), n))
  }

  /** A statistic bounds a join result. */
  ghost predicate Bounds(s: Summary, results: seq<Tuple>, sizes: string -> nat) {
    && SummaryOk(s) && Sized(results, s.tables, sizes) && |results| as real <= s.card
    && forall t :: t in s.tables ==> EdgeBounds(s.edges[t], results, t, sizes(t))
  }

  /** A statistic whose sequences can be merged, whether its degrees are whole or were averaged. */
  ghost predicate SolidSummary(s: Summary) {
    s.edges.Keys == s.tables && s.card >= 0.0 && forall t :: t in s.tables ==> Solid(s.edges[t])
  }

  ghost predicate MergesOn(l: Summary, r: Summary, table: string) {
    SolidSummary(l) && SolidSummary(r) && table in l.tables && table in r.tables
  }

  /** The degrees that the walk gives to table `t` of one side. */
  function SideItems(s: Summary, chunks: seq<Chunk>, t: string): seq<Bin>
    requires SolidSummary(s) && Heavy(chunks)
  {
    if t in s.tables then EdgeItems(s.edges[t], chunks) else []
  }

  lemma SideFits(s: Summary, chunks: seq<Chunk>, t: string)
    requires SolidSummary(s) && Heavy(chunks)
    ensures Fitting(SideItems(s, chunks, t))
  {
    if t in s.tables {
      EdgeItemsFit(s.edges[t], chunks);
    }
  }

  lemma FittingSum(a: seq<Bin>, b: seq<Bin>)
    requires Fitting(a) && Fitting(b)
    ensures Fitting(a + b)
  {
  }

  /** The degrees that a merge adds for table `t`; a table of both sides gets those of both. */
  function MergedItems(l: Summary, r: Summary, table: string, t: string): (items: seq<Bin>)
    requires MergesOn(l, r, table)
  {
    var a, b := l.edges[table], r.edges[table];
    if t == table then Segments(a, b)
    else
      AlongHeavy(a, b);
      AlongHeavy(b, a);
      SideItems(l, ChunksAlong(a, b), t) + SideItems(r, ChunksAlong(b, a), t)
  }

  lemma MergedItemsFit(l: Summary, r: Summary, table: string, t: string)
    requires MergesOn(l, r, table)
    ensures Fitting(MergedItems(l, r, table, t))
  {
    var a, b := l.edges[table], r.edges[table];
    SegmentsFit(a, b);
    AlongHeavy(a, b);
    AlongHeavy(b, a);
    SideFits(l, ChunksAlong(a, b), t);
    SideFits(r, ChunksAlong(b, a), t);
    FittingSum(SideItems(l, ChunksAlong(a, b), t), SideItems(r, ChunksAlong(b, a), t));
  }

  lemma MergeChunksOk(a: seq<Bin>, b: seq<Bin>)
    requires EdgeOk(a) && EdgeOk(b)
    ensures WholeChunks(ChunksAlong(a, b)) && ChunksAlong(a, b) == ChunksOf(ChunkBins(a, b))
    ensures Counted(ChunkBins(a, b)) && Integral(ChunkBins(a, b)) && Positive(ChunkBins(a, b))
  {
    var bound := EdgeBound(b);
    ChunkDescends(a, b, bound);
    ChunksWhole(ChunkBins(a, b));
    AlongWhole(a, b);
  }

  lemma SideItemsOk(s: Summary, chunks: seq<Chunk>, t: string)
    requires SummaryOk(s) && SolidSummary(s) && WholeChunks(chunks)
    ensures ItemsOk(SideItems(s, chunks, t))
  {
    if t in s.tables {
      EdgeItemsOk(s.edges[t], chunks);
    }
  }

  lemma ItemsSum(a: seq<Bin>, b: seq<Bin>)
    requires ItemsOk(a) && ItemsOk(b)
    ensures ItemsOk(a + b)
  {
  }

  lemma MergedItemsOk(l: Summary, r: Summary, table: string, t: string)
    requires SummaryOk(l) && SummaryOk(r) && MergesOn(l, r, table)
    ensures ItemsOk(MergedItems(l, r, table, t))
  {
    var a, b := l.edges[table], r.edges[table];
    SegmentsOk(a, b);
    MergeChunksOk(a, b);
    MergeChunksOk(b, a);
    SideItemsOk(l, ChunksAlong(a, b), t);
    SideItemsOk(r, ChunksAlong(b, a), t);
    ItemsSum(SideItems(l, ChunksAlong(a, b), t), SideItems(r, ChunksAlong(b, a), t));
  }

  lemma MergedCard(l: Summary, r: Summary, table: string)
    requires SummaryOk(l) && SummaryOk(r) && MergesOn(l, r, table)
    ensures Whole(Card(Segments(l.edges[table], r.edges[table]))) && Card(Segments(l.edges[table], r.edges[table])) >= 0.0
  {
    SegmentsOk(l.edges[table], r.edges[table]);
    CardWhole(Segments(l.edges[table], r.edges[table]));
  }

  ghost function MergedEdge(l: Summary, r: Summary, table: string, t: string, p: real): (bins: seq<Bin>)
    requires MergesOn(l, r, table)
    ensures Solid(bins)
  {
    MergedItemsFit(l, r, table, t);
    SegmentsFit(l.edges[table], r.edges[table]);
    FinishEdge(MergedItems(l, r, table, t), p, Card(Segments(l.edges[table], r.edges[table])))
  }

  /** `Merge` of two statistics on a shared table. */
  ghost function Merged(l: Summary, r: Summary, table: string, p: real): (s: Summary)
    requires MergesOn(l, r, table)
    ensures SolidSummary(s) && s.tables == l.tables + r.tables
    ensures forall t :: t in s.edges ==> s.edges[t] == MergedEdge(l, r, table, t, p)
  {
    SegmentsFit(l.edges[table], r.edges[table]);
    Summary(Card(Segments(l.edges[table], r.edges[table])), l.tables + r.tables,
            map t | t in l.tables + r.tables :: MergedEdge(l, r, table, t, p))
  }

  /** Merging whole degrees gives whole degrees. */
  lemma MergedOk(l: Summary, r: Summary, table: string, p: real)
    requires SummaryOk(l) && SummaryOk(r) && MergesOn(l, r, table)
    ensures SummaryOk(Merged(l, r, table, p))
  {
    MergedCard(l, r, table);
    forall t | t in l.tables + r.tables ensures EdgeOk(MergedEdge(l, r, table, t, p)) {
      MergedItemsOk(l, r, table, t);
      FinishWhole(MergedItems(l, r, table, t), p, Card(Segments(l.edges[table], r.edges[table])));
    }
  }

  // ---- Fewer results ----

  /** A family whose members are nowhere larger. */
  ghost predicate Below(zs: seq<real>, xs: seq<real>) {
    |zs| == |xs| && forall i :: 0 <= i < |xs| ==> zs[i] <= xs[i]
  }

  lemma {:induction false} SumBelow(zs: seq<real>, xs: seq<real>, k: nat)
    requires |zs| == |xs| && k <= |xs| && forall i :: 0 <= i < |xs| ==> zs[i] <= xs[i]
    ensures SumTo(zs, k) <= SumTo(xs, k)
  {
    if k > 0 {
      SumBelow(zs, xs, k - 1);
    }
  }

  lemma DominatesBelow(e: seq<real>, xs: seq<real>, zs: seq<real>)
    requires Dominates(e, xs) && Below(zs, xs)
    ensures Dominates(e, zs)
  {
    forall idx | Selection(idx, |zs|) ensures Weight(zs, idx) <= Prefix(e, |idx|) {
      SumBelow(Pick(zs, idx), Pick(xs, idx), |idx|);
      assert Weight(xs, idx) <= Prefix(e, |idx|);
    }
  }

  lemma {:induction false} PrefixMore(e: seq<real>, more: seq<real>, n: nat)
    requires forall i :: 0 <= i < |more| ==> more[i] >= 0.0
    ensures Prefix(e + more, n) >= Prefix(e, n)
  {
    if n > 0 {
      PrefixMore(e, more, n - 1);
    }
  }

  /** Further degrees only make a sequence dominate more. */
  lemma DominatesMore(items: seq<Bin>, more: seq<Bin>, xs: seq<real>)
    requires Dominates(Expand(items), xs) && Countable(more)
    ensures Dominates(Expand(items + more), xs)
  {
    ExpandAppend(items, more);
    SegmentsNonNegative(more);
    forall idx | Selection(idx, |xs|) ensures Weight(xs, idx) <= Prefix(Expand(items + more), |idx|) {
      PrefixMore(Expand(items), Expand(more), |idx|);
    }
  }

  // ---- Merging preserves the bound ----

  /** Both statistics bound their results, and have the table they are merged on, among others perhaps. */
  ghost predicate Mergeable(l: Summary, r: Summary, left: seq<Tuple>, right: seq<Tuple>, table: string, sizes: string -> nat) {
    Bounds(l, left, sizes) && Bounds(r, right, sizes) && table in l.tables && table in r.tables
  }

  lemma MergeableOn(l: Summary, r: Summary, left: seq<Tuple>, right: seq<Tuple>, table: string, sizes: string -> nat)
    requires Mergeable(l, r, left, right, table, sizes)
    ensures MergesOn(l, r, table)
  {
  }

  lemma InRange(results: seq<Tuple>, tables: set<string>, sizes: string -> nat, t: string)
    requires Sized(results, tables, sizes) && t in tables
    ensures Have(results, t) && forall i :: 0 <= i < |results| ==> 0 <= RowAt(t)(results[i]) < sizes(t)
    ensures forall x :: x in results ==> 0 <= RowAt(t)(x) < sizes(t)
  {
    forall i | 0 <= i < |results| ensures t in results[i] && 0 <= RowAt(t)(results[i]) < sizes(t) {
      assert SizedTuple(results[i], tables, sizes);
    }
  }

  lemma SharedDominates(l: Summary, r: Summary, left: seq<Tuple>, right: seq<Tuple>, table: string, sizes: string -> nat)
    requires Mergeable(l, r, left, right, table, sizes)
    ensures EdgeBounds(Segments(l.edges[table], r.edges[table]), Join(left, right), table, sizes(table))
  {
    var a, b, n := l.edges[table], r.edges[table], sizes(table);
    var xs, ys := Degrees(left, RowAt(table), n), Degrees(right, RowAt(table), n);
    assert EdgeBounds(a, left, table, n) && EdgeBounds(b, right, table, n);
    ExpandDescending(a);
    ExpandDescending(b);
    ProductDominates(Expand(a), Expand(b), xs, ys);
    ExpandSegments(a, b);
    var zs := Product(xs, ys);
    assert forall k :: 0 <= k < n ==> zs[k] == Times(Multiplicity(right, RowAt(table), k), xs[k]) by {
      ProductIs(xs, ys);
      ProductTimes(right, table, n, xs, ys, zs);
    }
    SharedDegrees(left, right, table, xs, l.tables, r.tables, sizes, zs);
    DominatesBelow(Expand(Segments(a, b)), zs, Degrees(Join(left, right), RowAt(table), n));
  }

  lemma Commuted(m: nat, x: real, y: real, z: real)
    requires y == m as real && z == x * y
    ensures z == Times(m, x)
  {
    TimesIsProduct(m, x);
  }

  lemma ProductTimes(right: seq<Tuple>, table: string, n: nat, xs: seq<real>, ys: seq<real>, zs: seq<real>)
    requires |xs| == n && ys == Degrees(right, RowAt(table), n) && IsProduct(zs, xs, ys)
    ensures forall k :: 0 <= k < n ==> zs[k] == Times(Multiplicity(right, RowAt(table), k), xs[k])
  {
    forall k | 0 <= k < n ensures zs[k] == Times(Multiplicity(right, RowAt(table), k), xs[k]) {
      Commuted(Multiplicity(right, RowAt(table), k), xs[k], ys[k], zs[k]);
    }
  }

  /** The new degrees of the shared table, as products. */
  lemma SharedDegrees(left: seq<Tuple>, right: seq<Tuple>, table: string, xs: seq<real>,
                      ts: set<string>, us: set<string>, sizes: string -> nat, zs: seq<real>)
    requires Sized(left, ts, sizes) && Sized(right, us, sizes) && table in ts && table in us
    requires xs == Degrees(left, RowAt(table), sizes(table)) && |zs| == sizes(table)
    requires forall k :: 0 <= k < |zs| ==> zs[k] == Times(Multiplicity(right, RowAt(table), k), xs[k])
    ensures Below(Degrees(Join(left, right), RowAt(table), sizes(table)), zs)
  {
    InRange(left, ts, sizes, table);
    InRange(right, us, sizes, table);
    var ds := Degrees(Join(left, right), RowAt(table), sizes(table));
    forall k | 0 <= k < |zs| ensures ds[k] <= zs[k] {
      JoinShared(left, right, table, k, xs);
    }
  }

  /** The degrees that the left's sequence for `t` gets from the walk. */
  lemma LeftDominates(l: Summary, r: Summary, left: seq<Tuple>, right: seq<Tuple>, table: string, sizes: string -> nat, t: string)
    requires Mergeable(l, r, left, right, table, sizes) && MergesOn(l, r, table) && t in l.tables
    ensures Heavy(ChunksAlong(l.edges[table], r.edges[table]))
    ensures EdgeBounds(SideItems(l, ChunksAlong(l.edges[table], r.edges[table]), t), Join(left, right), t, sizes(t))
  {
    var a, b := l.edges[table], r.edges[table];
    var ys := Degrees(right, RowAt(table), sizes(table));
    var f := WeightAt(RowAt(table), ys);
    assert EdgeBounds(a, left, table, sizes(table)) && EdgeBounds(b, right, table, sizes(table));
    assert EdgeBounds(l.edges[t], left, t, sizes(t));
    InRange(left, l.tables, sizes, table);
    ChunksDominate(left, RowAt(table), a, b, ys);
    MergeChunksOk(a, b);
    SpreadDominates(left, RowAt(t), f, sizes(t), l.edges[t], ChunkBins(a, b));
    LeftDegrees(l, r, left, right, table, sizes, t, ys);
    DominatesBelow(Expand(EdgeItems(l.edges[t], ChunksAlong(a, b))), Gathered(left, RowAt(t), f, sizes(t)),
                   Degrees(Join(left, right), RowAt(t), sizes(t)));
  }

  lemma LeftDegrees(l: Summary, r: Summary, left: seq<Tuple>, right: seq<Tuple>, table: string, sizes: string -> nat, t: string,
                    ys: seq<real>)
    requires Sized(left, l.tables, sizes) && Sized(right, r.tables, sizes) && t in l.tables && table in l.tables && table in r.tables
    requires ys == Degrees(right, RowAt(table), sizes(table))
    ensures Below(Degrees(Join(left, right), RowAt(t), sizes(t)), Gathered(left, RowAt(t), WeightAt(RowAt(table), ys), sizes(t)))
  {
    InRange(left, l.tables, sizes, t);
    InRange(left, l.tables, sizes, table);
    InRange(right, r.tables, sizes, table);
    var gs := Gathered(left, RowAt(t), WeightAt(RowAt(table), ys), sizes(t));
    var ds := Degrees(Join(left, right), RowAt(t), sizes(t));
    forall u | 0 <= u < sizes(t) ensures ds[u] <= gs[u] {
      JoinLeft(left, right, table, t, u, ys, |left|);
      assert left[..|left|] == left;
    }
  }

  lemma RightDominates(l: Summary, r: Summary, left: seq<Tuple>, right: seq<Tuple>, table: string, sizes: string -> nat, t: string)
    requires Mergeable(l, r, left, right, table, sizes) && MergesOn(l, r, table) && t in r.tables
    ensures Heavy(ChunksAlong(r.edges[table], l.edges[table]))
    ensures EdgeBounds(SideItems(r, ChunksAlong(r.edges[table], l.edges[table]), t), Join(left, right), t, sizes(t))
  {
    var a, b := l.edges[table], r.edges[table];
    var xs := Degrees(left, RowAt(table), sizes(table));
    var f := WeightAt(RowAt(table), xs);
    assert EdgeBounds(a, left, table, sizes(table)) && EdgeBounds(b, right, table, sizes(table));
    assert EdgeBounds(r.edges[t], right, t, sizes(t));
    InRange(right, r.tables, sizes, table);
    ChunksDominate(right, RowAt(table), b, a, xs);
    MergeChunksOk(b, a);
    SpreadDominates(right, RowAt(t), f, sizes(t), r.edges[t], ChunkBins(b, a));
    RightDegrees(l, r, left, right, table, sizes, t, xs);
    DominatesBelow(Expand(EdgeItems(r.edges[t], ChunksAlong(b, a))), Gathered(right, RowAt(t), f, sizes(t)),
                   Degrees(Join(left, right), RowAt(t), sizes(t)));
  }

  lemma RightDegrees(l: Summary, r: Summary, left: seq<Tuple>, right: seq<Tuple>, table: string, sizes: string -> nat, t: string,
                     xs: seq<real>)
    requires Sized(left, l.tables, sizes) && Sized(right, r.tables, sizes) && t in r.tables && table in l.tables && table in r.tables
    requires xs == Degrees(left, RowAt(table), sizes(table))
    ensures Below(Degrees(Join(left, right), RowAt(t), sizes(t)), Gathered(right, RowAt(t), WeightAt(RowAt(table), xs), sizes(t)))
  {
    InRange(right, r.tables, sizes, t);
    InRange(right, r.tables, sizes, table);
    InRange(left, l.tables, sizes, table);
    var gs := Gathered(right, RowAt(t), WeightAt(RowAt(table), xs), sizes(t));
    var ds := Degrees(Join(left, right), RowAt(t), sizes(t));
    forall u | 0 <= u < sizes(t) ensures ds[u] <= gs[u] {
      JoinRight(left, right, table, t, u, xs, |right|);
      assert right[..|right|] == right;
    }
  }

  lemma FromLeft(xs: seq<Bin>, ys: seq<Bin>, js: seq<Tuple>, t: string, n: nat)
    requires EdgeBounds(xs, js, t, n) && Countable(ys)
    ensures EdgeBounds(xs + ys, js, t, n)
  {
    DominatesMore(xs, ys, Degrees(js, RowAt(t), n));
  }

  lemma FromRight(xs: seq<Bin>, ys: seq<Bin>, js: seq<Tuple>, t: string, n: nat)
    requires EdgeBounds(ys, js, t, n) && xs == []
    ensures EdgeBounds(xs + ys, js, t, n)
  {
    assert xs + ys == ys;
  }

  /** A table of one side, or of both: the degrees of either side alone are enough. */
  lemma SidesDominate(l: Summary, r: Summary, left: seq<Tuple>, right: seq<Tuple>, table: string, sizes: string -> nat, t: string)
    requires Mergeable(l, r, left, right, table, sizes) && MergesOn(l, r, table) && t in l.tables + r.tables && t != table
    ensures EdgeBounds(MergedItems(l, r, table, t), Join(left, right), t, sizes(t))
  {
    var lc, rc := ChunksAlong(l.edges[table], r.edges[table]), ChunksAlong(r.edges[table], l.edges[table]);
    AlongHeavy(l.edges[table], r.edges[table]);
    AlongHeavy(r.edges[table], l.edges[table]);
    if t in l.tables {
      LeftDominates(l, r, left, right, table, sizes, t);
      SideFits(r, rc, t);
      FromLeft(SideItems(l, lc, t), SideItems(r, rc, t), Join(left, right), t, sizes(t));
    } else {
      RightDominates(l, r, left, right, table, sizes, t);
      FromRight(SideItems(l, lc, t), SideItems(r, rc, t), Join(left, right), t, sizes(t));
    }
  }

  /** The cardinality of a merge is at least the number of results of the join. */
  lemma MergedCardBounds(l: Summary, r: Summary, left: seq<Tuple>, right: seq<Tuple>, table: string, sizes: string -> nat)
    requires Mergeable(l, r, left, right, table, sizes)
    ensures |Join(left, right)| as real <= Card(Segments(l.edges[table], r.edges[table]))
  {
    SharedDominates(l, r, left, right, table, sizes);
    var items, js := Segments(l.edges[table], r.edges[table]), Join(left, right);
    JoinSized(left, right, l.tables, r.tables, sizes);
    DegreesSum(js, l.tables + r.tables, sizes, table);
    SegmentsOk(l.edges[table], r.edges[table]);
    SegmentsNonNegative(items);
    DominatedSum(Expand(items), Degrees(js, RowAt(table), sizes(table)));
    ExpandSum(items);
  }

  lemma MergedEdgeBounds(l: Summary, r: Summary, left: seq<Tuple>, right: seq<Tuple>, table: string, sizes: string -> nat,
                         t: string, p: real)
    requires Mergeable(l, r, left, right, table, sizes) && MergesOn(l, r, table) && t in l.tables + r.tables
    ensures EdgeBounds(MergedEdge(l, r, table, t, p), Join(left, right), t, sizes(t))
  {
    var js, card := Join(left, right), Card(Segments(l.edges[table], r.edges[table]));
    assert EdgeBounds(MergedItems(l, r, table, t), js, t, sizes(t)) by {
      if t == table {
        SharedDominates(l, r, left, right, table, sizes);
      } else {
        SidesDominate(l, r, left, right, table, sizes, t);
      }
    }
    JoinSized(left, right, l.tables, r.tables, sizes);
    DegreesSum(js, l.tables + r.tables, sizes, t);
    MergedCardBounds(l, r, left, right, table, sizes);
    MergedItemsOk(l, r, table, t);
    MergedCard(l, r, table);
    FinishDominates(MergedItems(l, r, table, t), p, card, Degrees(js, RowAt(t), sizes(t)));
  }

  /**
   Merging preserves the bound: if two statistics bound two join results, their merge on any shared table bounds the
   join of the results on all the tables they share, in its cardinality and for the rows of every table, whatever the
   precision of the compression.
   */
  lemma MergeBounded(l: Summary, r: Summary, left: seq<Tuple>, right: seq<Tuple>, table: string, sizes: string -> nat, p: real)
    requires Mergeable(l, r, left, right, table, sizes)
    ensures MergesOn(l, r, table)
    ensures Bounds(Merged(l, r, table, p), Join(left, right), sizes)
  {
    MergeableOn(l, r, left, right, table, sizes);
    MergedCardBounds(l, r, left, right, table, sizes);
    JoinSized(left, right, l.tables, r.tables, sizes);
    MergedOk(l, r, table, p);
    var s, js := Merged(l, r, table, p), Join(left, right);
    forall t | t in s.tables ensures EdgeBounds(s.edges[t], js, t, sizes(t)) {
      MergedEdgeBounds(l, r, left, right, table, sizes, t, p);
    }
  }
}

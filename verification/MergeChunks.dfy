/** The chunks of tuples that a merge walks over, and what they bound. */
module MergeChunks {
  import opened Sums
  import opened RankBounds
  import opened DegreeSequences
  import opened CardLimit
  import opened MergeSpread
  import R = RealSums

  /** The whole number that a whole degree is. */
  function NatOf(x: real): nat {
    if x >= 0.0 then x.Floor else 0
  }

  lemma NatOfWhole(x: real)
    requires Whole(x) && x >= 0.0
    ensures NatOf(x) as real == x
  {
    var k :| x == IntReal(k);
  }

  /** Walking two sequences side by side: how many tuples of the left get which weight from the right. */
  function ChunkBins(a: seq<Bin>, b: seq<Bin>): seq<Bin>
    decreases |a| + |b|
  {
    if a == [] || b == [] then []
    else
      var c := MinNat(a[0].count, b[0].count);
      [Bin(b[0].degree, c * NatOf(a[0].degree))] + ChunkBins(Advance(a, c), Advance(b, c))
  }

  function ChunksOf(bins: seq<Bin>): (chunks: seq<Chunk>)
    ensures |chunks| == |bins| && forall i :: 0 <= i < |bins| ==> chunks[i] == Chunk(bins[i].count as real, bins[i].degree)
  {
    if bins == [] then [] else [Chunk(bins[0].count as real, bins[0].degree)] + ChunksOf(bins[1..])
  }

  ghost predicate Counted(bins: seq<Bin>) {
    forall i :: 0 <= i < |bins| ==> bins[i].count > 0
  }

  /** A stored sequence: whole positive degrees that descend, each for at least one row. */
  ghost predicate EdgeOk(bins: seq<Bin>) {
    Positive(bins) && Proper(bins) && Integral(bins) && Counted(bins)
  }

  /** Positive degrees, each for at least one row: what any stored sequence is, averaged or not. */
  ghost predicate Solid(bins: seq<Bin>) {
    Positive(bins) && Counted(bins)
  }

  lemma AdvanceSolid(a: seq<Bin>, c: nat)
    requires Solid(a) && a != [] && c <= a[0].count
    ensures Solid(Advance(a, c))
  {
  }

  /** The chunks that the walk over two sequences hands to the other tables of the left. */
  function ChunksAlong(a: seq<Bin>, b: seq<Bin>): seq<Chunk>
    decreases |a| + |b|
  {
    if a == [] || b == [] then []
    else
      var c := MinNat(a[0].count, b[0].count);
      [Chunk(Times(c, a[0].degree), b[0].degree)] + ChunksAlong(Advance(a, c), Advance(b, c))
  }

  lemma {:induction false} TimesPositive(c: nat, d: real)
    requires c > 0 && d > 0.0
    ensures Times(c, d) > 0.0
  {
    if c > 1 {
      TimesPositive(c - 1, d);
    }
  }

  lemma {:induction false} AlongHeavy(a: seq<Bin>, b: seq<Bin>)
    requires Solid(a) && Solid(b)
    ensures Heavy(ChunksAlong(a, b))
    decreases |a| + |b|
  {
    if a != [] && b != [] {
      var c := MinNat(a[0].count, b[0].count);
      TimesPositive(c, a[0].degree);
      AdvanceSolid(a, c);
      AdvanceSolid(b, c);
      AlongHeavy(Advance(a, c), Advance(b, c));
    }
  }

  lemma {:induction false} TimesNat(c: nat, k: nat)
    ensures Times(c, k as real) == (c * k) as real
  {
    if c > 0 {
      TimesNat(c - 1, k);
      assert c * k == (c - 1) * k + k;
    }
  }

  /** For whole degrees the chunks hold whole numbers of tuples. */
  lemma {:induction false} AlongWhole(a: seq<Bin>, b: seq<Bin>)
    requires EdgeOk(a) && EdgeOk(b)
    ensures ChunksAlong(a, b) == ChunksOf(ChunkBins(a, b))
    decreases |a| + |b|
  {
    if a != [] && b != [] {
      var c := MinNat(a[0].count, b[0].count);
      AdvanceOk(a, c);
      AdvanceOk(b, c);
      AlongWhole(Advance(a, c), Advance(b, c));
      NatOfWhole(a[0].degree);
      TimesNat(c, NatOf(a[0].degree));
      ChunksOfCons(Bin(b[0].degree, c * NatOf(a[0].degree)), ChunkBins(Advance(a, c), Advance(b, c)));
    }
  }

  lemma ChunksOfCons(head: Bin, rest: seq<Bin>)
    ensures ChunksOf([head] + rest) == [Chunk(head.count as real, head.degree)] + ChunksOf(rest)
  {
    assert ([head] + rest)[1..] == rest;
  }

  lemma AdvanceOk(a: seq<Bin>, c: nat)
    requires EdgeOk(a) && a != [] && c <= a[0].count
    ensures EdgeOk(Advance(a, c)) && (forall i :: 0 <= i < |Advance(a, c)| ==> Advance(a, c)[i].degree <= a[0].degree)
  {
  }

  // ---- Thresholds ----

  function OverBins(b: seq<Bin>, t: real): (r: seq<Bin>)
    ensures |r| == |b| && forall i :: 0 <= i < |b| ==> r[i] == Bin(Over(b[i].degree, t), b[i].count)
  {
    if b == [] then [] else [Bin(Over(b[0].degree, t), b[0].count)] + OverBins(b[1..], t)
  }

  lemma OverBinsAdvance(b: seq<Bin>, t: real, c: nat)
    requires b != [] && c <= b[0].count
    ensures Advance(OverBins(b, t), c) == OverBins(Advance(b, c), t)
  {
  }

  lemma {:induction false} OverBinsExpand(b: seq<Bin>, t: real)
    ensures Expand(OverBins(b, t)) == Overs(Expand(b), t)
  {
    if b != [] {
      OverBinsExpand(b[1..], t);
      assert OverBins(b, t)[1..] == OverBins(b[1..], t);
      var x, n := b[0].degree, b[0].count;
      assert Overs(Run(x, n) + Expand(b[1..]), t) == Run(Over(x, t), n) + Overs(Expand(b[1..]), t);
    }
  }

  /** One pair of runs holds the same mass above `t`, counted in tuples or in rows. */
  lemma ChunkMass(c: nat, d: real, x: real, dx: real)
    requires Whole(d) && d >= 0.0 && dx == d * x
    ensures Times(c * NatOf(d), x) == Times(c, dx)
  {
    var k := NatOf(d);
    NatOfWhole(d);
    TimesIsProduct(c * k, x);
    TimesIsProduct(c, dx);
    ProductAssoc(c as real, k as real, x);
    assert (c * k) as real == c as real * k as real;
  }

  lemma ChunkHead(a: seq<Bin>, b: seq<Bin>, c: nat, t: real)
    requires a != [] && b != [] && c == MinNat(a[0].count, b[0].count)
    ensures CardOver(ChunkBins(a, b), t) ==
            Times(c * NatOf(a[0].degree), Over(b[0].degree, t)) + CardOver(ChunkBins(Advance(a, c), Advance(b, c)), t)
  {
    CardOverCons(Bin(b[0].degree, c * NatOf(a[0].degree)), ChunkBins(Advance(a, c), Advance(b, c)), t);
  }

  lemma ProductAssoc(x: real, y: real, z: real)
    ensures (x * y) * z == x * (y * z)
  {
  }

  lemma CardCons(bin: Bin, rest: seq<Bin>)
    ensures Card([bin] + rest) == Times(bin.count, bin.degree) + Card(rest)
  {
    assert ([bin] + rest)[1..] == rest;
  }

  /** The first pair of runs, in tuples and in rows. */
  lemma FirstSegment(a: seq<Bin>, b: seq<Bin>, c: nat, x: real)
    requires a != [] && b != [] && c == MinNat(a[0].count, b[0].count) && x == b[0].degree
    requires Whole(a[0].degree) && a[0].degree >= 0.0
    ensures Card(Segments(a, b)) == Times(c * NatOf(a[0].degree), x) + Card(Segments(Advance(a, c), Advance(b, c)))
  {
    var s := Segments(a, b);
    assert s[1..] == Segments(Advance(a, c), Advance(b, c));
    ChunkMass(c, a[0].degree, b[0].degree, s[0].degree);
  }

  lemma {:induction false} ChunkCardOver(a: seq<Bin>, b: seq<Bin>, t: real)
    requires EdgeOk(a) && EdgeOk(b)
    ensures CardOver(ChunkBins(a, b), t) == Card(Segments(a, OverBins(b, t)))
    decreases |a| + |b|
  {
    if a != [] && b != [] {
      var c := MinNat(a[0].count, b[0].count);
      AdvanceOk(a, c);
      AdvanceOk(b, c);
      ChunkCardOver(Advance(a, c), Advance(b, c), t);
      OverBinsAdvance(b, t, c);
      FirstSegment(a, OverBins(b, t), c, Over(b[0].degree, t));
      ChunkHead(a, b, c, t);
    }
  }

  lemma OverDescending(e: seq<real>, t: real)
    requires Descending(e) && t >= 0.0
    ensures Descending(Overs(e, t))
  {
  }

  lemma {:induction false} OverOver(xs: seq<real>, t: real, s: real, k: nat)
    requires t >= 0.0 && s >= 0.0 && k <= |xs|
    ensures OverTo(Overs(xs, t), s, k) == OverTo(xs, t + s, k)
  {
    if k > 0 {
      OverOver(xs, t, s, k - 1);
    }
  }

  /** Domination survives cutting off below a threshold. */
  lemma OverDominates(e: seq<real>, xs: seq<real>, t: real)
    requires Descending(e) && Dominates(e, xs) && t >= 0.0
    ensures Dominates(Overs(e, t), Overs(xs, t))
  {
    DominatesExceeds(e, xs);
    OverDescending(e, t);
    forall s | s >= 0.0 ensures OverTo(Overs(xs, t), s, |xs|) <= OverTo(Overs(e, t), s, |e|) {
      OverOver(xs, t, s, |xs|);
      OverOver(e, t, s, |e|);
      assert OverTo(xs, t + s, |xs|) <= OverTo(e, t + s, |e|);
    }
    ExceedsDominates(Overs(e, t), Overs(xs, t));
  }

  /** A dominated family weighs at most what the sequence weighs. */
  lemma DominatedSum(e: seq<real>, xs: seq<real>)
    requires Dominates(e, xs)
    requires (forall i :: 0 <= i < |xs| ==> xs[i] >= 0.0) && forall i :: 0 <= i < |e| ==> e[i] >= 0.0
    ensures SumTo(xs, |xs|) <= SumTo(e, |e|)
  {
    DominatesExceeds(e, xs);
    OverZeroSum(xs, |xs|);
    OverZeroSum(e, |e|);
  }

  lemma ProductsNonNegative(xs: seq<real>, ys: seq<real>)
    requires |xs| == |ys| && (forall i :: 0 <= i < |xs| ==> xs[i] >= 0.0) && forall i :: 0 <= i < |ys| ==> ys[i] >= 0.0
    ensures forall i :: 0 <= i < |xs| ==> Product(xs, ys)[i] >= 0.0
  {
    forall i | 0 <= i < |xs| ensures Product(xs, ys)[i] >= 0.0 {
      MulMono(xs[i], 0.0, ys[i]);
    }
  }

  /** The tuples of the left, weighed by the right and cut off below `t`, weigh at most what the chunks do. */
  lemma ThresholdProduct(a: seq<Bin>, b: seq<Bin>, xs: seq<real>, ys: seq<real>, t: real)
    requires EdgeOk(a) && EdgeOk(b) && |xs| == |ys| && t >= 0.0
    requires (forall i :: 0 <= i < |xs| ==> xs[i] >= 0.0) && forall i :: 0 <= i < |ys| ==> ys[i] >= 0.0
    requires Dominates(Expand(a), xs) && Dominates(Expand(b), ys)
    ensures SumTo(Product(xs, Overs(ys, t)), |xs|) <= CardOver(ChunkBins(a, b), t)
  {
    var b' := OverBins(b, t);
    ExpandDescending(a);
    ExpandDescending(b);
    OverBinsExpand(b, t);
    OverDescending(Expand(b), t);
    OverDominates(Expand(b), ys, t);
    ProductDominates(Expand(a), Expand(b'), xs, Overs(ys, t));
    ExpandSegments(a, b');
    ProductsNonNegative(xs, Overs(ys, t));
    SegmentsCountable(a, b');
    SegmentsNonNegative(Segments(a, b'));
    DominatedSum(Expand(Segments(a, b')), Product(xs, Overs(ys, t)));
    ExpandSum(Segments(a, b'));
    ChunkCardOver(a, b, t);
  }

  lemma {:induction false} SegmentsNonNegative(bins: seq<Bin>)
    requires Countable(bins)
    ensures forall i :: 0 <= i < |Expand(bins)| ==> Expand(bins)[i] >= 0.0
  {
    if bins != [] {
      SegmentsNonNegative(bins[1..]);
    }
  }
}

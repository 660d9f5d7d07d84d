/** What a merge computes, exactly: nothing is added to the tuples and weights of its two sides before compression. */
module MergeExact {
  import opened RankBounds
  import opened DegreeSequences
  import opened CardLimit
  import opened MergeSpread
  import opened MergeChunks
  import opened MergeBounds

  // ---- The chunks ----

  lemma ChunkInside(d: real, e: real, c: nat, n: nat, x: seq<real>, y: seq<real>)
    requires n <= c
    ensures Prefix(Run(d, c) + x, n) == Times(n, d)
    ensures Prefix(RankProduct(Run(d, c) + x, Run(e, c) + y), n) == Mul(Times(n, d), e)
  {
    PrefixInRun(d, c, x, n);
    RankProductRun(d, e, d * e, c, x, y);
    PrefixInRun(d * e, c, RankProduct(x, y), n);
    TimesScale(n, d, e);
  }

  lemma ChunkBeyond(d: real, e: real, c: nat, n: nat, x: seq<real>, y: seq<real>)
    ensures Prefix(Run(d, c) + x, c + n) == Times(c, d) + Prefix(x, n)
    ensures Prefix(RankProduct(Run(d, c) + x, Run(e, c) + y), c + n) == Mul(Times(c, d), e) + Prefix(RankProduct(x, y), n)
  {
    PrefixAfterRun(d, c, x, n);
    RankProductRun(d, e, d * e, c, x, y);
    PrefixAfterRun(d * e, c, RankProduct(x, y), n);
    TimesScale(c, d, e);
  }

  lemma {:induction false} TimesUpTo(m: nat, n: nat, d: real)
    requires m <= n && d >= 0.0
    ensures Times(m, d) <= Times(n, d)
  {
    TimesAdd(m, n - m, d);
    TimesNonNegative(n - m, d);
  }

  lemma ValueBeyond(chunk: Chunk, rest: seq<Chunk>, x: real)
    requires Heavy(rest) && x >= 0.0
    ensures Value([chunk] + rest, chunk.rows + x) == Mul(chunk.rows, chunk.weight) + Value(rest, x)
  {
    assert ([chunk] + rest)[1..] == rest;
    if x == 0.0 {
      ValueZero(rest);
    }
  }

  lemma ValueWithin(chunk: Chunk, rest: seq<Chunk>, x: real)
    requires x <= chunk.rows
    ensures Value([chunk] + rest, x) == Mul(x, chunk.weight)
  {
  }

  ghost predicate Weighs(a: seq<Bin>, b: seq<Bin>, n: nat) {
    Value(ChunksAlong(a, b), Prefix(Expand(a), n)) == Prefix(RankProduct(Expand(a), Expand(b)), n)
  }

  lemma WeighsInside(a: seq<Bin>, b: seq<Bin>, c: nat, n: nat, x: seq<real>, y: seq<real>, chunk: Chunk, rest: seq<Chunk>)
    requires a != [] && b != [] && a[0].degree >= 0.0 && n <= c
    requires Expand(a) == Run(a[0].degree, c) + x && Expand(b) == Run(b[0].degree, c) + y
    requires chunk == Chunk(Times(c, a[0].degree), b[0].degree)
    ensures Value([chunk] + rest, Prefix(Expand(a), n)) == Prefix(RankProduct(Expand(a), Expand(b)), n)
  {
    ChunkInside(a[0].degree, b[0].degree, c, n, x, y);
    TimesUpTo(n, c, a[0].degree);
    ValueWithin(chunk, rest, Prefix(Expand(a), n));
  }

  lemma WeighsBeyond(a: seq<Bin>, b: seq<Bin>, c: nat, n: nat, x: seq<real>, y: seq<real>, chunk: Chunk, rest: seq<Chunk>)
    requires a != [] && b != [] && Heavy(rest) && Prefix(x, n) >= 0.0 && Value(rest, Prefix(x, n)) == Prefix(RankProduct(x, y), n)
    requires Expand(a) == Run(a[0].degree, c) + x && Expand(b) == Run(b[0].degree, c) + y
    requires chunk == Chunk(Times(c, a[0].degree), b[0].degree)
    ensures Value([chunk] + rest, Prefix(Expand(a), c + n)) == Prefix(RankProduct(Expand(a), Expand(b)), c + n)
  {
    ChunkBeyond(a[0].degree, b[0].degree, c, n, x, y);
    ValueBeyond(chunk, rest, Prefix(x, n));
  }

  lemma AlongNext(a: seq<Bin>, b: seq<Bin>, c: nat, chunk: Chunk, rest: seq<Chunk>)
    requires a != [] && b != [] && c == MinNat(a[0].count, b[0].count)
    requires chunk == Chunk(Times(c, a[0].degree), b[0].degree) && rest == ChunksAlong(Advance(a, c), Advance(b, c))
    ensures ChunksAlong(a, b) == [chunk] + rest
  {
  }

  /** Ranks within the first chunk, ... */
  lemma WeighsFirst(a: seq<Bin>, b: seq<Bin>, c: nat, n: nat)
    requires Solid(a) && a != [] && b != [] && c == MinNat(a[0].count, b[0].count) && n <= c
    ensures Weighs(a, b, n)
  {
    var chunk, rest := Chunk(Times(c, a[0].degree), b[0].degree), ChunksAlong(Advance(a, c), Advance(b, c));
    AlongNext(a, b, c, chunk, rest);
    ExpandAdvance(a, c);
    ExpandAdvance(b, c);
    WeighsInside(a, b, c, n, Expand(Advance(a, c)), Expand(Advance(b, c)), chunk, rest);
  }

  /** ... and beyond it. */
  lemma WeighsRest(a: seq<Bin>, b: seq<Bin>, c: nat, n: nat)
    requires Solid(a) && Solid(b) && a != [] && b != [] && c == MinNat(a[0].count, b[0].count)
    requires Weighs(Advance(a, c), Advance(b, c), n)
    ensures Weighs(a, b, c + n)
  {
    var a', b' := Advance(a, c), Advance(b, c);
    var chunk, rest := Chunk(Times(c, a[0].degree), b[0].degree), ChunksAlong(a', b');
    AlongNext(a, b, c, chunk, rest);
    ExpandAdvance(a, c);
    ExpandAdvance(b, c);
    AdvanceSolid(a, c);
    AdvanceSolid(b, c);
    AlongHeavy(a', b');
    ExpandPositive(a');
    PrefixNonNegative(Expand(a'), n);
    WeighsBeyond(a, b, c, n, Expand(a'), Expand(b'), chunk, rest);
  }

  lemma {:induction false} AllWeigh(a: seq<Bin>, b: seq<Bin>, n: nat)
    requires Solid(a) && Solid(b)
    ensures Weighs(a, b, n)
    decreases |a| + |b|
  {
    if a != [] && b != [] {
      var c := MinNat(a[0].count, b[0].count);
      AdvanceSolid(a, c);
      AdvanceSolid(b, c);
      if n <= c {
        WeighsFirst(a, b, c, n);
      } else {
        AllWeigh(Advance(a, c), Advance(b, c), n - c);
        WeighsRest(a, b, c, n - c);
      }
    } else {
      assert RankProduct(Expand(a), Expand(b)) == [];
      PrefixEmpty(n);
    }
  }

  /**
   The tuples of the first `n` ranks of the one side weigh what the products of the two sides' degrees at these ranks add
   up to: no tuple gets the weight of another rank.
   */
  lemma ChunksExact(a: seq<Bin>, b: seq<Bin>, n: nat)
    requires Solid(a) && Solid(b)
    ensures Value(ChunksAlong(a, b), Prefix(Expand(a), n)) == Prefix(RankProduct(Expand(a), Expand(b)), n)
  {
    AllWeigh(a, b, n);
  }

  // ---- The merged degrees before compression ----

  /** The first rows of a table get the first tuples: `xs` are the new degrees of the rows in `edge`. */
  ghost predicate Spreads(xs: seq<real>, edge: seq<Bin>, chunks: seq<Chunk>, k: nat) {
    Prefix(xs, k) == Value(chunks, Prefix(Expand(edge), k))
  }

  ghost predicate SpreadsAll(xs: seq<real>, s: Summary, t: string, chunks: seq<Chunk>) {
    if t in s.tables then t in s.edges && forall k: nat :: Spreads(xs, s.edges[t], chunks, k) else xs == []
  }

  lemma SideExact(s: Summary, chunks: seq<Chunk>, t: string)
    requires SummaryOk(s) && SolidSummary(s) && WholeChunks(chunks)
    ensures SpreadsAll(Expand(SideItems(s, chunks, t)), s, t, chunks)
  {
    if t in s.tables {
      forall k: nat ensures Spreads(Expand(SideItems(s, chunks, t)), s.edges[t], chunks, k) {
        EdgeItemsPrefix(s.edges[t], chunks, k);
      }
    }
  }

  /**
   Merging collected statistics: the shared table gets the rank-wise products, and the cardinality is their sum. Every other
   table gets what the tuples of its own side are worth, and a table of both sides gets both.
   */
  lemma MergedExact(l: Summary, r: Summary, table: string, t: string, p: real) returns (xs: seq<real>, ys: seq<real>)
    requires SummaryOk(l) && SummaryOk(r) && MergesOn(l, r, table)
    ensures var products := RankProduct(Expand(l.edges[table]), Expand(r.edges[table]));
            && Merged(l, r, table, p).card == SumTo(products, |products|)
            && (t == table ==> Expand(MergedItems(l, r, table, t)) == products)
    ensures t != table ==>
              && Expand(MergedItems(l, r, table, t)) == xs + ys
              && SpreadsAll(xs, l, t, ChunksAlong(l.edges[table], r.edges[table]))
              && SpreadsAll(ys, r, t, ChunksAlong(r.edges[table], l.edges[table]))
  {
    var a, b := l.edges[table], r.edges[table];
    ExpandSegments(a, b);
    ExpandSum(Segments(a, b));
    MergeChunksOk(a, b);
    MergeChunksOk(b, a);
    xs, ys := Expand(SideItems(l, ChunksAlong(a, b), t)), Expand(SideItems(r, ChunksAlong(b, a), t));
    SideExact(l, ChunksAlong(a, b), t);
    SideExact(r, ChunksAlong(b, a), t);
    ExpandAppend(SideItems(l, ChunksAlong(a, b), t), SideItems(r, ChunksAlong(b, a), t));
  }
}

/** `MergeEdgeDegreeSequences` as it runs: the walk over one table's stored sequence. */
module MergeEdges {
  import opened RankBounds
  import opened DegreeSequences
  import opened CardLimit
  import opened MergeSpread
  import opened MergeChunks

  /** The position in the sequence, the weight and the missing tuples of the row under way, and the rows left in the bin. */
  datatype Place = Place(pos: nat, curDegree: real, remainRow: real, remainCount: nat)

  ghost predicate PlaceOk(ds: seq<Bin>, at: Place) {
    && at.pos <= |ds| && at.remainRow >= 0.0 && (at.remainRow == 0.0 ==> at.curDegree == 0.0)
    && (at.remainRow > 0.0 || at.remainCount > 0 ==> at.pos < |ds|)
  }

  /** The rows to come when the bin at `pos` has `n` rows left, or is untouched. */
  function Rest(ds: seq<Bin>, pos: nat, n: nat): seq<Bin>
    requires pos <= |ds| && (n > 0 ==> pos < |ds|)
  {
    if n > 0 then [Bin(ds[pos].degree, n)] + ds[pos + 1..] else ds[pos..]
  }

  /** What a place stands for. */
  function CursorOf(ds: seq<Bin>, at: Place): Cursor
    requires at.pos <= |ds| && (at.remainRow > 0.0 || at.remainCount > 0 ==> at.pos < |ds|)
  {
    Cursor(at.curDegree, at.remainRow,
           if at.remainRow > 0.0 && at.remainCount == 0 then ds[at.pos + 1..] else Rest(ds, at.pos, at.remainCount))
  }

  lemma RestSolid(ds: seq<Bin>, pos: nat, n: nat)
    requires Solid(ds) && pos <= |ds| && (n > 0 ==> pos < |ds|)
    ensures Solid(Rest(ds, pos, n))
  {
  }

  /** Nothing to feed, nothing happens. */
  lemma FeedNothing(bins: seq<Bin>, w: real)
    requires Solid(bins)
    ensures FeedBins(bins, 0.0, w) == Fed([], Cursor(0.0, 0.0, bins))
  {
    if bins != [] {
      var d := bins[0].degree;
      TimesLessThan(bins[0].count, d);
      var q := WholeTimes(0.0, d);
      if q > 0 {
        TimesLessThan(q, d);
      }
      assert Advance(bins, 0) == bins;
    }
  }

  lemma TimesLessThan(n: nat, d: real)
    requires n > 0 && d > 0.0
    ensures Times(n, d) > 0.0
  {
    TimesNonNegative(n - 1, d);
  }

  /** A bin that is used up exactly. */
  lemma FeedExact(bins: seq<Bin>, m: real, w: real)
    requires Solid(bins) && bins != [] && m == Times(bins[0].count, bins[0].degree) && m >= 0.0
    ensures FeedBins(bins, m, w) ==
            Fed([Bin(Mul(bins[0].degree, w), bins[0].count)], Cursor(0.0, 0.0, bins[1..]))
  {
    FeedNothing(bins[1..], w);
    var x := [Bin(Mul(bins[0].degree, w), bins[0].count)];
    assert x + [] == x;
  }

  /** The emitted items and the place reached are those of the specification. */
  ghost predicate Reached(ds: seq<Bin>, items: seq<Bin>, at: Place, goal: Fed) {
    PlaceOk(ds, at) && items == goal.items && CursorOf(ds, at) == goal.cursor
  }

  lemma AdvanceRest(ds: seq<Bin>, pos: nat, n: nat, k: nat)
    requires pos < |ds| && k <= n && 0 < n
    ensures Rest(ds, pos, n) != [] && Rest(ds, pos, n)[0] == Bin(ds[pos].degree, n)
    ensures Advance(Rest(ds, pos, n), k) == if k < n then Rest(ds, pos, n - k) else ds[pos + 1..]
  {
    assert Rest(ds, pos, n)[1..] == ds[pos + 1..];
  }

  /** The bin in hand has more than `r` tuples: some of its rows are filled, and perhaps one in part. */
  method StopInBin(ds: seq<Bin>, pos: nat, n: nat, r: real, w: real) returns (items: seq<Bin>, at: Place)
    requires Solid(ds) && pos < |ds| && 0 < n && r >= 0.0 && r < Times(n, ds[pos].degree)
    ensures Positive(Rest(ds, pos, n)) && Reached(ds, items, at, FeedBins(Rest(ds, pos, n), r, w))
  {
    RestSolid(ds, pos, n);
    var d := ds[pos].degree;
    var used := WholeTimes(r, d);
    var usedRow := r - Times(used, d);
    TimesLess(used, n, d);
    items := if used > 0 then [Bin(Mul(d, w), used)] else [];
    AdvanceRest(ds, pos, n, used);
    AdvanceRest(ds, pos, n, used + 1);
    if usedRow > TOLERANCE {
      at := Place(pos, Mul(usedRow, w), d - usedRow, n - used - 1);
    } else {
      at := Place(pos, 0.0, 0.0, n - used);
    }
  }

  /** What was emitted before, and what a walk emits. */
  function Prepend(items: seq<Bin>, f: Fed): Fed {
    Fed(items + f.items, f.cursor)
  }

  lemma TakeBin(items: seq<Bin>, bins: seq<Bin>, m: real, r: real, w: real)
    requires Positive(bins) && bins != [] && m == Times(bins[0].count, bins[0].degree) && r >= m && r >= 0.0
    ensures Positive(bins[1..])
    ensures Prepend(items, FeedBins(bins, r, w)) ==
            Prepend(items + [Bin(Mul(bins[0].degree, w), bins[0].count)], FeedBins(bins[1..], r - m, w))
  {
    var x, rest := [Bin(Mul(bins[0].degree, w), bins[0].count)], FeedBins(bins[1..], r - m, w).items;
    assert items + (x + rest) == items + x + rest;
  }

  /** The bin in hand: `n` rows are left of it, or it is untouched. */
  function BinAt(ds: seq<Bin>, i: nat, n: nat): Bin
    requires i < |ds|
  {
    Bin(ds[i].degree, if n > 0 then n else ds[i].count)
  }

  lemma RestHead(ds: seq<Bin>, i: nat, n: nat)
    requires i < |ds| && Solid(ds)
    ensures Rest(ds, i, n) != [] && Rest(ds, i, n)[0] == BinAt(ds, i, n) && Rest(ds, i, n)[1..] == Rest(ds, i + 1, 0)
    ensures Rest(ds, i, BinAt(ds, i, n).count) == Rest(ds, i, n) && Solid(Rest(ds, i, n)) && Solid(Rest(ds, i + 1, 0))
  {
  }

  /** What is left to feed, after `items`, leads to `goal`. */
  ghost predicate Going(ds: seq<Bin>, i: nat, n: nat, items: seq<Bin>, r: real, w: real, goal: Fed) {
    && i <= |ds| && (n > 0 ==> i < |ds|) && r >= 0.0 && Positive(Rest(ds, i, n))
    && goal == Prepend(items, FeedBins(Rest(ds, i, n), r, w))
  }

  lemma GoOn(ds: seq<Bin>, i: nat, n: nat, items: seq<Bin>, r: real, w: real, goal: Fed, m: real)
    requires Solid(ds) && i < |ds| && Going(ds, i, n, items, r, w, goal)
    requires m == Times(BinAt(ds, i, n).count, ds[i].degree) && r >= m
    ensures Going(ds, i + 1, 0, items + [Bin(Mul(ds[i].degree, w), BinAt(ds, i, n).count)], r - m, w, goal)
  {
    RestHead(ds, i, n);
    TakeBin(items, Rest(ds, i, n), m, r, w);
  }

  lemma GoneThrough(ds: seq<Bin>, i: nat, n: nat, items: seq<Bin>, r: real, w: real, goal: Fed)
    requires i == |ds| && Going(ds, i, n, items, r, w, goal)
    ensures Reached(ds, items, Place(|ds|, 0.0, 0.0, 0), goal)
  {
    assert Rest(ds, i, n) == [] && items + [] == items;
  }

  lemma GoneTo(ds: seq<Bin>, i: nat, n: nat, items: seq<Bin>, r: real, w: real, goal: Fed, more: seq<Bin>, at: Place)
    requires Going(ds, i, n, items, r, w, goal) && Reached(ds, more, at, FeedBins(Rest(ds, i, n), r, w))
    ensures Reached(ds, items + more, at, goal)
  {
  }

  /** The loop over the bins when no row is under way. */
  method FeedRows(ds: seq<Bin>, pos: nat, remainCount: nat, rows: real, w: real) returns (items: seq<Bin>, at: Place)
    requires Solid(ds) && pos <= |ds| && (remainCount > 0 ==> pos < |ds|) && rows >= 0.0
    ensures Positive(Rest(ds, pos, remainCount)) && Reached(ds, items, at, FeedBins(Rest(ds, pos, remainCount), rows, w))
  {
    RestSolid(ds, pos, remainCount);
    ghost var goal := FeedBins(Rest(ds, pos, remainCount), rows, w);
    var i: nat, n: nat, r := pos, remainCount, rows;
    items := [];
    while i < |ds|
      invariant Going(ds, i, n, items, r, w, goal)
    {
      RestHead(ds, i, n);
      var bin := BinAt(ds, i, n);
      var m := MassOf(bin);
      if r > m || (n == 0 && r == m) {
        GoOn(ds, i, n, items, r, w, goal, m);
        items := items + [Bin(Mul(bin.degree, w), bin.count)];
        r, n, i := r - m, 0, i + 1;
      } else {
        var more;
        more, at := StopAt(ds, i, n, m, r, w);
        GoneTo(ds, i, n, items, r, w, goal, more, at);
        return items + more, at;
      }
    }
    GoneThrough(ds, i, n, items, r, w, goal);
    at := Place(|ds|, 0.0, 0.0, 0);
  }

  /** The tuples end in this bin, or with it. */
  method StopAt(ds: seq<Bin>, i: nat, n: nat, m: real, r: real, w: real) returns (items: seq<Bin>, at: Place)
    requires Solid(ds) && i < |ds| && 0.0 <= r <= m && m == Times(BinAt(ds, i, n).count, ds[i].degree)
    ensures Positive(Rest(ds, i, n)) && Reached(ds, items, at, FeedBins(Rest(ds, i, n), r, w))
  {
    RestHead(ds, i, n);
    if r == m {
      FeedExact(Rest(ds, i, n), m, w);
      items := [Bin(Mul(ds[i].degree, w), BinAt(ds, i, n).count)];
      at := Place(i + 1, 0.0, 0.0, 0);
    } else {
      items, at := StopInBin(ds, i, BinAt(ds, i, n).count, r, w);
    }
  }

  /** Feeding a cursor whose row under way is filled up. */
  lemma FeedPast(c: Cursor, r: real, w: real)
    requires Positive(c.bins) && 0.0 < c.part < r
    ensures Feed(c, r, w) == Prepend([Bin(c.cur + Mul(c.part, w), 1)], FeedBins(c.bins, r - c.part, w))
  {
  }

  lemma PastRow(ds: seq<Bin>, from: Place, next: nat)
    requires Solid(ds) && PlaceOk(ds, from) && from.remainRow > 0.0
    requires next == if from.remainCount == 0 then from.pos + 1 else from.pos
    ensures next <= |ds| && (from.remainCount > 0 ==> next < |ds|)
    ensures CursorOf(ds, from) == Cursor(from.curDegree, from.remainRow, Rest(ds, next, from.remainCount))
    ensures Positive(Rest(ds, next, from.remainCount)) && PlaceOk(ds, Place(next, 0.0, 0.0, from.remainCount))
  {
    RestSolid(ds, next, from.remainCount);
  }

  /** The row under way comes first. */
  method FeedRow(ds: seq<Bin>, from: Place, rows: real, degree: real) returns (items: seq<Bin>, at: Place)
    requires Solid(ds) && PlaceOk(ds, from) && rows > 0.0 && from.remainRow > 0.0
    ensures Positive(CursorOf(ds, from).bins) && Reached(ds, items, at, Feed(CursorOf(ds, from), rows, degree))
  {
    var next := if from.remainCount == 0 then from.pos + 1 else from.pos;
    PastRow(ds, from, next);
    if rows > from.remainRow {
      var more;
      more, at := FeedRows(ds, next, from.remainCount, rows - from.remainRow, degree);
      FeedPast(CursorOf(ds, from), rows, degree);
      items := [Bin(from.curDegree + Mul(from.remainRow, degree), 1)] + more;
    } else if rows == from.remainRow {
      items := [Bin(from.curDegree + Mul(rows, degree), 1)];
      at := Place(next, 0.0, 0.0, from.remainCount);
    } else {
      items := [];
      at := from.(curDegree := from.curDegree + Mul(rows, degree), remainRow := from.remainRow - rows);
    }
  }

  /** One table's turn: `rows` tuples of weight `degree` are handed to its rows. */
  method MergeEdge(ds: seq<Bin>, from: Place, rows: real, degree: real) returns (items: seq<Bin>, at: Place)
    requires Solid(ds) && PlaceOk(ds, from) && rows > 0.0
    ensures Positive(CursorOf(ds, from).bins) && Reached(ds, items, at, Feed(CursorOf(ds, from), rows, degree))
  {
    RestSolid(ds, from.pos, from.remainCount);
    if from.remainRow > 0.0 {
      items, at := FeedRow(ds, from, rows, degree);
    } else {
      items, at := FeedRows(ds, from.pos, from.remainCount, rows, degree);
    }
  }

  /** All chunks of a merge, and then the row that is left under way. */
  method MergeTable(ds: seq<Bin>, chunks: seq<Chunk>) returns (items: seq<Bin>)
    requires Solid(ds) && forall i :: 0 <= i < |chunks| ==> chunks[i].rows > 0.0
    ensures items == EdgeItems(ds, chunks)
  {
    var at := Place(0, 0.0, 0.0, 0);
    items := [];
    assert CursorOf(ds, at) == Cursor(0.0, 0.0, ds) && chunks[0..] == chunks;
    ghost var all := FeedAll(Cursor(0.0, 0.0, ds), chunks);
    for i := 0 to |chunks|
      invariant PlaceOk(ds, at) && Chunked(all, items, CursorOf(ds, at), chunks, i)
    {
      var more;
      ghost var c := CursorOf(ds, at);
      more, at := MergeEdge(ds, at, chunks[i].rows, chunks[i].weight);
      ChunkFed(all, items, c, chunks, i, more, CursorOf(ds, at));
      items := items + more;
    }
    assert items + [] == items;
    items := items + [Bin(at.curDegree, 1)];
  }

  /** After `items`, the chunks from `i` on lead from `c` to `all`. */
  ghost predicate Chunked(all: Fed, items: seq<Bin>, c: Cursor, chunks: seq<Chunk>, i: nat) {
    && i <= |chunks| && Positive(c.bins) && (forall j :: 0 <= j < |chunks| ==> chunks[j].rows > 0.0)
    && all == Prepend(items, FeedAll(c, chunks[i..]))
  }

  lemma ChunkFed(all: Fed, items: seq<Bin>, c: Cursor, chunks: seq<Chunk>, i: nat, more: seq<Bin>, c': Cursor)
    requires i < |chunks| && Chunked(all, items, c, chunks, i) && chunks[i].rows > 0.0
    requires Fed(more, c') == Feed(c, chunks[i].rows, chunks[i].weight)
    ensures Chunked(all, items + more, c', chunks, i + 1)
  {
    assert chunks[i..][1..] == chunks[i + 1..];
    var rest := FeedAll(c', chunks[i + 1..]);
    assert items + (more + rest.items) == items + more + rest.items;
  }
}

/**
 Merging two statistics on a shared table spreads the tuples of one side over the rows of its other
 tables. Tuples come in chunks of equal weight, heaviest first; rows take as many tuples as their
 degree says, highest degree first.
 */
module MergeSpread {
  import opened RankBounds
  import opened DegreeSequences
  import opened CardLimit

  /** `rows` tuples of weight `weight` each. */
  datatype Chunk = Chunk(rows: real, weight: real)

  ghost predicate Heavy(chunks: seq<Chunk>) {
    forall i :: 0 <= i < |chunks| ==> chunks[i].rows > 0.0 && chunks[i].weight >= 0.0
  }

  /** `x` tuples of weight `w`. */
  function Mul(x: real, w: real): real {
    x * w
  }

  /** What the first `x` tuples weigh. */
  function Value(chunks: seq<Chunk>, x: real): real {
    if chunks == [] then 0.0
    else if x <= chunks[0].rows then Mul(x, chunks[0].weight)
    else Mul(chunks[0].rows, chunks[0].weight) + Value(chunks[1..], x - chunks[0].rows)
  }

  /** What is left after the first `x` tuples. */
  function Skip(chunks: seq<Chunk>, x: real): seq<Chunk> {
    if chunks == [] then []
    else if x < chunks[0].rows then [Chunk(chunks[0].rows - x, chunks[0].weight)] + chunks[1..]
    else Skip(chunks[1..], x - chunks[0].rows)
  }

  /** Each row takes its degree's worth of tuples, as long as there are any. */
  function Spread(demands: seq<real>, chunks: seq<Chunk>): seq<real> {
    if demands == [] || chunks == [] then []
    else [Value(chunks, demands[0])] + Spread(demands[1..], Skip(chunks, demands[0]))
  }

  // ---- Arithmetic ----

  lemma MulAdd(x: real, y: real, w: real)
    ensures Mul(x + y, w) == Mul(x, w) + Mul(y, w)
  {
  }

  lemma MulZero(w: real)
    ensures Mul(0.0, w) == 0.0
  {
  }

  lemma MulNonNegative(x: real, w: real)
    requires x >= 0.0 && w >= 0.0
    ensures Mul(x, w) >= 0.0
  {
  }

  lemma {:induction false} ValueZero(chunks: seq<Chunk>)
    requires Heavy(chunks)
    ensures Value(chunks, 0.0) == 0.0
  {
    if chunks != [] {
      MulZero(chunks[0].weight);
    }
  }

  lemma HeavyTail(chunks: seq<Chunk>)
    requires Heavy(chunks) && chunks != []
    ensures Heavy(chunks[1..])
  {
  }

  lemma {:induction false} SkipHeavy(chunks: seq<Chunk>, x: real)
    requires Heavy(chunks) && x >= 0.0
    ensures Heavy(Skip(chunks, x))
  {
    if chunks != [] && x >= chunks[0].rows {
      SkipHeavy(chunks[1..], x - chunks[0].rows);
    }
  }

  lemma {:induction false} SkipZero(chunks: seq<Chunk>)
    requires Heavy(chunks)
    ensures Skip(chunks, 0.0) == chunks
  {
  }

  /** Taking `x` and then `y` tuples is taking `x + y`. */
  lemma {:induction false} ValueAdd(chunks: seq<Chunk>, x: real, y: real)
    requires Heavy(chunks) && x >= 0.0 && y >= 0.0
    ensures Value(chunks, x + y) == Value(chunks, x) + Value(Skip(chunks, x), y)
  {
    if chunks != [] {
      var r, w, rest := chunks[0].rows, chunks[0].weight, chunks[1..];
      if x < r {
        var cut := [Chunk(r - x, w)] + rest;
        assert Skip(chunks, x) == cut && cut[1..] == rest;
        if x + y <= r {
          MulAdd(x, y, w);
        } else {
          MulAdd(x, r - x, w);
          assert x + y - r == y - (r - x);
        }
      } else {
        HeavyTail(chunks);
        ValueAdd(rest, x - r, y);
        assert x + y - r == (x - r) + y;
        if x == r {
          ValueZero(rest);
          if y == 0.0 {
            SkipZero(rest);
          }
        }
      }
    }
  }

  lemma {:induction false} ValueNonNegative(chunks: seq<Chunk>, x: real)
    requires Heavy(chunks) && x >= 0.0
    ensures Value(chunks, x) >= 0.0
  {
    if chunks != [] {
      MulNonNegative(if x <= chunks[0].rows then x else chunks[0].rows, chunks[0].weight);
      if x > chunks[0].rows {
        ValueNonNegative(chunks[1..], x - chunks[0].rows);
      }
    }
  }

  lemma ValueMono(chunks: seq<Chunk>, x: real, y: real)
    requires Heavy(chunks) && 0.0 <= x <= y
    ensures Value(chunks, x) <= Value(chunks, y)
  {
    ValueAdd(chunks, x, y - x);
    SkipHeavy(chunks, x);
    ValueNonNegative(Skip(chunks, x), y - x);
    assert x + (y - x) == y;
  }

  // ---- The first rows together ----

  lemma {:induction false} PrefixCons(x: real, xs: seq<real>, k: nat)
    ensures Prefix([x] + xs, k + 1) == x + Prefix(xs, k)
  {
    if k > 0 {
      PrefixCons(x, xs, k - 1);
      assert At([x] + xs, k) == At(xs, k - 1);
    } else {
      assert Prefix([x] + xs, 1) == Prefix([x] + xs, 0) + At([x] + xs, 0);
    }
  }

  lemma {:induction false} PrefixEmpty(k: nat)
    ensures Prefix([], k) == 0.0
  {
    if k > 0 {
      PrefixEmpty(k - 1);
    }
  }

  /** The first `k` rows together take exactly the first tuples, as many as their degrees add up to. */
  lemma {:induction false} SpreadPrefix(demands: seq<real>, chunks: seq<Chunk>, k: nat)
    requires Heavy(chunks) && forall i :: 0 <= i < |demands| ==> demands[i] >= 0.0
    ensures Prefix(Spread(demands, chunks), k) == Value(chunks, Prefix(demands, k))
    decreases |demands|
  {
    ValueZero(chunks);
    if k == 0 {
    } else if demands == [] {
      PrefixEmpty(k);
    } else if chunks == [] {
      PrefixEmpty(k);
    } else {
      var d, rest := demands[0], demands[1..];
      assert demands == [d] + rest;
      PrefixCons(d, rest, k - 1);
      PrefixCons(Value(chunks, d), Spread(rest, Skip(chunks, d)), k - 1);
      SkipHeavy(chunks, d);
      SpreadPrefix(rest, Skip(chunks, d), k - 1);
      PrefixNonNegative(rest, k - 1);
      ValueAdd(chunks, d, Prefix(rest, k - 1));
    }
  }

  // ---- Feeding chunk by chunk ----

  /** Where the walk over one table's sequence stands: a row under way with what it has so far, and the rows to come. */
  datatype Cursor = Cursor(cur: real, part: real, bins: seq<Bin>)

  datatype Fed = Fed(items: seq<Bin>, cursor: Cursor)

  /** `MergeEdgeDegreeSequences` for one table when no row is under way. */
  function FeedBins(bins: seq<Bin>, r: real, w: real): (f: Fed)
    requires Positive(bins) && r >= 0.0
    ensures Positive(f.cursor.bins)
  {
    if bins == [] then Fed([], Cursor(0.0, 0.0, []))
    else
      var d, m := bins[0].degree, Times(bins[0].count, bins[0].degree);
      if r >= m then
        assert Positive(bins[1..]);
        var rest := FeedBins(bins[1..], r - m, w);
        Fed([Bin(Mul(d, w), bins[0].count)] + rest.items, rest.cursor)
      else
        var q := WholeTimes(r, d);
        var u := r - Times(q, d);
        TimesLess(q, bins[0].count, d);
        Fed(if q > 0 then [Bin(Mul(d, w), q)] else [],
            if u > TOLERANCE then Cursor(Mul(u, w), d - u, Advance(bins, q + 1)) else Cursor(0.0, 0.0, Advance(bins, q)))
  }

  /** ... and in general: a row under way comes first. */
  function Feed(c: Cursor, r: real, w: real): (f: Fed)
    requires Positive(c.bins) && r >= 0.0
    ensures Positive(f.cursor.bins)
  {
    if c.part > 0.0 then
      if r > c.part then
        var rest := FeedBins(c.bins, r - c.part, w);
        Fed([Bin(c.cur + Mul(c.part, w), 1)] + rest.items, rest.cursor)
      else if r == c.part then Fed([Bin(c.cur + Mul(r, w), 1)], Cursor(0.0, 0.0, c.bins))
      else Fed([], Cursor(c.cur + Mul(r, w), c.part - r, c.bins))
    else FeedBins(c.bins, r, w)
  }

  /** What is still to be spread from a cursor. */
  function Continue(c: Cursor, chunks: seq<Chunk>): seq<real> {
    if c.part > 0.0 then [c.cur + Value(chunks, c.part)] + Spread(Expand(c.bins), Skip(chunks, c.part))
    else Spread(Expand(c.bins), chunks)
  }

  /** `r` tuples of weight `w`, if any, and then the others. */
  function Before(r: real, w: real, cs: seq<Chunk>): seq<Chunk> {
    if r > 0.0 then [Chunk(r, w)] + cs else cs
  }

  lemma SpreadCons(d: real, ds: seq<real>, chunks: seq<Chunk>)
    requires chunks != []
    ensures Spread([d] + ds, chunks) == [Value(chunks, d)] + Spread(ds, Skip(chunks, d))
  {
    assert ([d] + ds)[1..] == ds;
  }

  /** A row that is filled from the first chunk alone. */
  lemma SpreadWithin(d: real, ds: seq<real>, r: real, w: real, cs: seq<Chunk>)
    requires 0.0 < d <= r && Heavy(cs)
    ensures Spread([d] + ds, Before(r, w, cs)) == [Mul(d, w)] + Spread(ds, Before(r - d, w, cs))
  {
    var chunks := Before(r, w, cs);
    assert chunks[1..] == cs;
    SpreadCons(d, ds, chunks);
    if d == r {
      SkipZero(cs);
    }
  }

  /** A row that needs more than the first chunk. */
  lemma SpreadAcross(d: real, ds: seq<real>, u: real, w: real, cs: seq<Chunk>)
    requires 0.0 < u < d
    ensures Spread([d] + ds, Before(u, w, cs)) == [Mul(u, w) + Value(cs, d - u)] + Spread(ds, Skip(cs, d - u))
  {
    var chunks := Before(u, w, cs);
    assert chunks[1..] == cs;
    SpreadCons(d, ds, chunks);
  }

  lemma LessTaken(r: real, c: nat, d: real, left: real)
    requires c > 0 && d > 0.0 && left >= 0.0 && left == r - Times(c, d)
    ensures d <= r && left == (r - d) - Times(c - 1, d)
  {
    TimesNonNegative(c - 1, d);
  }

  lemma {:induction false} SpreadRunTo(d: real, c: nat, ds: seq<real>, r: real, w: real, cs: seq<Chunk>, left: real, tail: seq<real>)
    requires d > 0.0 && Heavy(cs) && left >= 0.0 && left == r - Times(c, d) && tail == Spread(ds, Before(left, w, cs))
    ensures Spread(Run(d, c) + ds, Before(r, w, cs)) == Run(Mul(d, w), c) + tail
  {
    if c == 0 {
      assert Run(d, 0) + ds == ds && Run(Mul(d, w), 0) + tail == tail;
    } else {
      LessTaken(r, c, d, left);
      SpreadRunTo(d, c - 1, ds, r - d, w, cs, left, tail);
      SpreadRunStep(d, c, ds, r, w, cs, tail);
    }
  }

  lemma SpreadRun(d: real, c: nat, ds: seq<real>, r: real, w: real, cs: seq<Chunk>)
    requires d > 0.0 && Times(c, d) <= r && Heavy(cs)
    ensures Spread(Run(d, c) + ds, Before(r, w, cs)) == Run(Mul(d, w), c) + Spread(ds, Before(r - Times(c, d), w, cs))
  {
    SpreadRunTo(d, c, ds, r, w, cs, r - Times(c, d), Spread(ds, Before(r - Times(c, d), w, cs)));
  }

  lemma SpreadRunStep(d: real, c: nat, ds: seq<real>, r: real, w: real, cs: seq<Chunk>, tail: seq<real>)
    requires c > 0 && 0.0 < d <= r && Heavy(cs)
    requires Spread(Run(d, c - 1) + ds, Before(r - d, w, cs)) == Run(Mul(d, w), c - 1) + tail
    ensures Spread(Run(d, c) + ds, Before(r, w, cs)) == Run(Mul(d, w), c) + tail
  {
    RunCons(d, c, ds);
    SpreadWithin(d, Run(d, c - 1) + ds, r, w, cs);
    RunCons(Mul(d, w), c, tail);
  }

  lemma RunCons(d: real, c: nat, ds: seq<real>)
    requires c > 0
    ensures Run(d, c) + ds == [d] + (Run(d, c - 1) + ds)
  {
  }

  /** Degrees, counts of tuples and accumulated weights are whole and not negative. */
  ghost predicate WholeCursor(c: Cursor) {
    && Whole(c.cur) && Whole(c.part) && c.cur >= 0.0 && c.part >= 0.0 && (c.part == 0.0 ==> c.cur == 0.0)
    && Integral(c.bins) && Positive(c.bins)
  }

  lemma WholePositive(u: real)
    requires Whole(u) && u >= 0.0
    ensures u > TOLERANCE <==> u > 0.0
  {
    var k :| u == IntReal(k);
  }

  lemma AdvanceKeeps(bins: seq<Bin>, c: nat)
    requires bins != [] && c <= bins[0].count && Positive(bins) && Integral(bins)
    ensures Positive(Advance(bins, c)) && Integral(Advance(bins, c))
  {
  }

  lemma WholeRest(r: real, q: nat, d: real)
    requires Whole(r) && Whole(d)
    ensures Whole(r - Times(q, d))
  {
    WholeTimesWhole(q, d);
    WholeAdd(r, Times(q, d));
  }

  /** What is fed from the last bin reached. */
  lemma LastFed(bins: seq<Bin>, r: real, w: real) returns (q: nat, u: real)
    requires bins != [] && Positive(bins) && Integral(bins) && r >= 0.0 && Whole(r)
    requires r < Times(bins[0].count, bins[0].degree)
    ensures q < bins[0].count && r == Times(q, bins[0].degree) + u && 0.0 <= u < bins[0].degree && Whole(u)
    ensures Expand(FeedBins(bins, r, w).items) == Run(Mul(bins[0].degree, w), q)
    ensures FeedBins(bins, r, w).cursor ==
            if u > 0.0 then Cursor(Mul(u, w), bins[0].degree - u, Advance(bins, q + 1)) else Cursor(0.0, 0.0, Advance(bins, q))
  {
    var d := bins[0].degree;
    q := WholeTimes(r, d);
    u := r - Times(q, d);
    TimesLess(q, bins[0].count, d);
    WholeRest(r, q, d);
    WholePositive(u);
    ExpandOne(Mul(d, w), q);
  }

  /** The last bin reached is used in part. */
  lemma FeedLast(bins: seq<Bin>, r: real, w: real, cs: seq<Chunk>)
    requires bins != [] && Positive(bins) && Integral(bins) && r >= 0.0 && Whole(r) && Heavy(cs)
    requires r < Times(bins[0].count, bins[0].degree)
    ensures Spread(Expand(bins), Before(r, w, cs)) ==
            Expand(FeedBins(bins, r, w).items) + Continue(FeedBins(bins, r, w).cursor, cs)
  {
    var d := bins[0].degree;
    var q, u := LastFed(bins, r, w);
    assert Spread(Expand(bins), Before(r, w, cs)) == Run(Mul(d, w), q) + Spread(Expand(Advance(bins, q)), Before(u, w, cs)) by {
      ExpandAdvance(bins, q);
      SpreadRun(d, q, Expand(Advance(bins, q)), r, w, cs);
      assert r - Times(q, d) == u;
    }
    if u > 0.0 {
      LastAcross(bins, q, u, w, cs);
    }
  }

  lemma ExpandOne(d: real, q: nat)
    ensures Expand([Bin(d, q)]) == Run(d, q) && Expand([]) == []
  {
    ExpandCons(Bin(d, q), []);
    assert [Bin(d, q)] + [] == [Bin(d, q)];
  }

  lemma LastAcross(bins: seq<Bin>, q: nat, u: real, w: real, cs: seq<Chunk>)
    requires bins != [] && q < bins[0].count && 0.0 < u < bins[0].degree
    ensures Spread(Expand(Advance(bins, q)), Before(u, w, cs)) ==
            Continue(Cursor(Mul(u, w), bins[0].degree - u, Advance(bins, q + 1)), cs)
  {
    var d := bins[0].degree;
    var left := Advance(bins, q);
    ExpandAdvance(left, 1);
    assert Advance(left, 1) == Advance(bins, q + 1);
    assert Run(d, 1) == [d];
    SpreadAcross(d, Expand(Advance(bins, q + 1)), u, w, cs);
  }

  /** Feeding a chunk emits what the spread assigns, and leaves a cursor from which the spread goes on. */
  lemma {:induction false} FeedBinsRefines(bins: seq<Bin>, r: real, w: real, cs: seq<Chunk>)
    requires Positive(bins) && Integral(bins) && r >= 0.0 && Whole(r) && Heavy(cs)
    ensures var f := FeedBins(bins, r, w);
            Spread(Expand(bins), Before(r, w, cs)) == Expand(f.items) + Continue(f.cursor, cs)
  {
    if bins != [] {
      var d, c, m := bins[0].degree, bins[0].count, Times(bins[0].count, bins[0].degree);
      if r >= m {
        WholeRest(r, c, d);
        var rest := FeedBins(bins[1..], r - m, w);
        FeedBinsRefines(bins[1..], r - m, w, cs);
        FeedWhole(bins, r, w, cs, rest.items, Continue(rest.cursor, cs));
      } else {
        FeedLast(bins, r, w, cs);
      }
    }
  }

  /** A bin that is used up. */
  lemma FeedWhole(bins: seq<Bin>, r: real, w: real, cs: seq<Chunk>, items: seq<Bin>, tail: seq<real>)
    requires bins != [] && bins[0].degree > 0.0 && Times(bins[0].count, bins[0].degree) <= r && Heavy(cs)
    requires Spread(Expand(bins[1..]), Before(r - Times(bins[0].count, bins[0].degree), w, cs)) == Expand(items) + tail
    ensures Spread(Expand(bins), Before(r, w, cs)) ==
            Expand([Bin(Mul(bins[0].degree, w), bins[0].count)] + items) + tail
  {
    var d, c := bins[0].degree, bins[0].count;
    SpreadRun(d, c, Expand(bins[1..]), r, w, cs);
    ExpandCons(Bin(Mul(d, w), c), items);
    Assoc(Run(Mul(d, w), c), Expand(items), tail);
  }

  lemma Assoc(a: seq<real>, b: seq<real>, c: seq<real>)
    ensures a + (b + c) == (a + b) + c
  {
  }

  /** The row under way is completed and tuples are left. */
  lemma FeedBeyond(c: Cursor, r: real, w: real, cs: seq<Chunk>)
    requires WholeCursor(c) && 0.0 < c.part < r && Whole(r) && Heavy(cs)
    ensures Continue(c, [Chunk(r, w)] + cs) == Expand(Feed(c, r, w).items) + Continue(Feed(c, r, w).cursor, cs)
  {
    var rest := FeedBins(c.bins, r - c.part, w);
    var x := c.cur + Mul(c.part, w);
    assert Continue(c, [Chunk(r, w)] + cs) == [x] + Spread(Expand(c.bins), Before(r - c.part, w, cs)) by {
      assert ([Chunk(r, w)] + cs)[1..] == cs;
    }
    assert Spread(Expand(c.bins), Before(r - c.part, w, cs)) == Expand(rest.items) + Continue(rest.cursor, cs) by {
      WholeAdd(r, c.part);
      FeedBinsRefines(c.bins, r - c.part, w, cs);
    }
    FirstItem(x, rest.items, Continue(rest.cursor, cs));
  }

  lemma FirstItem(x: real, items: seq<Bin>, tail: seq<real>)
    ensures Expand([Bin(x, 1)] + items) + tail == [x] + (Expand(items) + tail)
  {
    ExpandCons(Bin(x, 1), items);
    assert Run(x, 1) == [x];
    Assoc([x], Expand(items), tail);
  }

  /** The tuples just suffice for the row under way, or do not suffice. */
  lemma FeedWithin(c: Cursor, r: real, w: real, cs: seq<Chunk>)
    requires WholeCursor(c) && 0.0 < r <= c.part && Heavy(cs)
    ensures Continue(c, [Chunk(r, w)] + cs) == Expand(Feed(c, r, w).items) + Continue(Feed(c, r, w).cursor, cs)
  {
    var chunks := [Chunk(r, w)] + cs;
    assert chunks[1..] == cs;
    if r == c.part {
      var x := c.cur + Mul(r, w);
      assert Value(chunks, c.part) == Mul(r, w) && Skip(chunks, c.part) == cs by {
        SkipZero(cs);
      }
      ExpandOne(x, 1);
      assert Run(x, 1) == [x];
    } else {
      assert Value(chunks, c.part) == Mul(r, w) + Value(cs, c.part - r) && Skip(chunks, c.part) == Skip(cs, c.part - r);
      assert Expand([]) == [];
    }
  }

  lemma FeedRefines(c: Cursor, r: real, w: real, cs: seq<Chunk>)
    requires WholeCursor(c) && r > 0.0 && Whole(r) && Heavy(cs)
    ensures Continue(c, [Chunk(r, w)] + cs) == Expand(Feed(c, r, w).items) + Continue(Feed(c, r, w).cursor, cs)
  {
    if c.part == 0.0 {
      FeedBinsRefines(c.bins, r, w, cs);
    } else if r > c.part {
      FeedBeyond(c, r, w, cs);
    } else {
      FeedWithin(c, r, w, cs);
    }
  }

  // ---- All chunks ----

  ghost predicate WholeItems(items: seq<Bin>) {
    Integral(items) && Countable(items)
  }

  lemma MulWhole(x: real, w: real)
    requires Whole(x) && Whole(w)
    ensures Whole(Mul(x, w))
  {
    var a, b :| x == IntReal(a) && w == IntReal(b);
    assert Mul(x, w) == IntReal(a * b);
  }

  lemma WholeZero()
    ensures Whole(0.0)
  {
    assert 0.0 == IntReal(0);
  }

  lemma LastWhole(bins: seq<Bin>, r: real, w: real)
    requires bins != [] && Positive(bins) && Integral(bins) && r >= 0.0 && Whole(r) && w >= 0.0 && Whole(w)
    requires r < Times(bins[0].count, bins[0].degree)
    ensures WholeItems(FeedBins(bins, r, w).items) && WholeCursor(FeedBins(bins, r, w).cursor)
  {
    var d := bins[0].degree;
    var q, u := LastFed(bins, r, w);
    MulWhole(d, w);
    MulNonNegative(d, w);
    MulWhole(u, w);
    MulNonNegative(u, w);
    WholeAdd(d, u);
    WholeZero();
    AdvanceKeeps(bins, q);
    AdvanceKeeps(bins, q + 1);
    var items := FeedBins(bins, r, w).items;
    assert forall i :: 0 <= i < |items| ==> items[i].degree == Mul(d, w);
  }

  lemma {:induction false} FeedBinsWhole(bins: seq<Bin>, r: real, w: real)
    requires Positive(bins) && Integral(bins) && r >= 0.0 && Whole(r) && w >= 0.0 && Whole(w)
    ensures WholeItems(FeedBins(bins, r, w).items) && WholeCursor(FeedBins(bins, r, w).cursor)
  {
    if bins == [] {
      WholeZero();
    } else {
      var d, c, m := bins[0].degree, bins[0].count, Times(bins[0].count, bins[0].degree);
      if r >= m {
        WholeRest(r, c, d);
        FeedBinsWhole(bins[1..], r - m, w);
        MulWhole(d, w);
        MulNonNegative(d, w);
      } else {
        LastWhole(bins, r, w);
      }
    }
  }

  lemma FeedKeepsWhole(c: Cursor, r: real, w: real)
    requires WholeCursor(c) && r > 0.0 && Whole(r) && w >= 0.0 && Whole(w)
    ensures WholeItems(Feed(c, r, w).items) && WholeCursor(Feed(c, r, w).cursor)
  {
    MulWhole(c.part, w);
    MulNonNegative(c.part, w);
    MulWhole(r, w);
    MulNonNegative(r, w);
    WholeAdd(c.cur, Mul(c.part, w));
    WholeAdd(c.cur, Mul(r, w));
    WholeAdd(r, c.part);
    WholeAdd(c.part, r);
    WholeZero();
    if c.part > 0.0 && r > c.part {
      FeedBinsWhole(c.bins, r - c.part, w);
    } else if c.part <= 0.0 {
      FeedBinsWhole(c.bins, r, w);
    }
  }

  ghost predicate WholeChunks(chunks: seq<Chunk>) {
    Heavy(chunks) && forall i :: 0 <= i < |chunks| ==> Whole(chunks[i].rows) && Whole(chunks[i].weight)
  }

  /** Nothing negative is under way. */
  ghost predicate SoundCursor(c: Cursor) {
    c.cur >= 0.0 && c.part >= 0.0 && Positive(c.bins)
  }

  lemma {:induction false} FeedBinsSound(bins: seq<Bin>, r: real, w: real)
    requires Positive(bins) && r >= 0.0 && w >= 0.0
    ensures Countable(FeedBins(bins, r, w).items) && SoundCursor(FeedBins(bins, r, w).cursor)
  {
    if bins != [] {
      var d, m := bins[0].degree, Times(bins[0].count, bins[0].degree);
      MulNonNegative(d, w);
      if r >= m {
        FeedBinsSound(bins[1..], r - m, w);
      } else {
        MulNonNegative(r - Times(WholeTimes(r, d), d), w);
      }
    }
  }

  lemma FeedSound(c: Cursor, r: real, w: real)
    requires SoundCursor(c) && r >= 0.0 && w >= 0.0
    ensures Countable(Feed(c, r, w).items) && SoundCursor(Feed(c, r, w).cursor)
  {
    MulNonNegative(c.part, w);
    MulNonNegative(r, w);
    if c.part <= 0.0 {
      FeedBinsSound(c.bins, r, w);
    } else if r > c.part {
      FeedBinsSound(c.bins, r - c.part, w);
    }
  }

  lemma {:induction false} FeedAllSound(c: Cursor, chunks: seq<Chunk>)
    requires SoundCursor(c) && Heavy(chunks)
    ensures Countable(FeedAll(c, chunks).items) && SoundCursor(FeedAll(c, chunks).cursor)
    decreases |chunks|
  {
    if chunks != [] {
      HeavyTail(chunks);
      FeedSound(c, chunks[0].rows, chunks[0].weight);
      FeedAllSound(Feed(c, chunks[0].rows, chunks[0].weight).cursor, chunks[1..]);
    }
  }

  function FeedAll(c: Cursor, chunks: seq<Chunk>): Fed
    requires Positive(c.bins) && forall i :: 0 <= i < |chunks| ==> chunks[i].rows > 0.0
    decreases |chunks|
  {
    if chunks == [] then Fed([], c)
    else
      var f := Feed(c, chunks[0].rows, chunks[0].weight);
      var rest := FeedAll(f.cursor, chunks[1..]);
      Fed(f.items + rest.items, rest.cursor)
  }

  lemma {:induction false} ExpandAppend(a: seq<Bin>, b: seq<Bin>)
    ensures Expand(a + b) == Expand(a) + Expand(b)
  {
    if a == [] {
      assert a + b == b;
    } else {
      assert (a + b)[1..] == a[1..] + b && (a + b)[0] == a[0];
      ExpandAppend(a[1..], b);
      Assoc(Run(a[0].degree, a[0].count), Expand(a[1..]), Expand(b));
    }
  }

  lemma {:induction false} FeedAllRefines(c: Cursor, chunks: seq<Chunk>)
    requires WholeCursor(c) && WholeChunks(chunks)
    ensures var f := FeedAll(c, chunks);
            && Continue(c, chunks) == Expand(f.items) + Continue(f.cursor, [])
            && WholeItems(f.items) && WholeCursor(f.cursor)
    decreases |chunks|
  {
    if chunks != [] {
      var r, w, cs := chunks[0].rows, chunks[0].weight, chunks[1..];
      assert chunks == [Chunk(r, w)] + cs;
      HeavyTail(chunks);
      FeedRefines(c, r, w, cs);
      FeedKeepsWhole(c, r, w);
      var f := Feed(c, r, w);
      var rest := FeedAll(f.cursor, cs);
      FeedAllRefines(f.cursor, cs);
      ExpandAppend(f.items, rest.items);
      Assoc(Expand(f.items), Expand(rest.items), Continue(rest.cursor, []));
    }
  }

  /** The new degrees of one table: what was fed, and the row left under way at the end. */
  function EdgeItems(bins: seq<Bin>, chunks: seq<Chunk>): seq<Bin>
    requires Positive(bins) && forall i :: 0 <= i < |chunks| ==> chunks[i].rows > 0.0
  {
    var f := FeedAll(Cursor(0.0, 0.0, bins), chunks);
    f.items + [Bin(f.cursor.cur, 1)]
  }

  lemma {:induction false} PrefixPadded(xs: seq<real>, k: nat)
    ensures Prefix(xs + [0.0], k) == Prefix(xs, k)
  {
    if k > 0 {
      PrefixPadded(xs, k - 1);
    }
  }

  lemma LastItem(items: seq<Bin>, last: real)
    ensures Expand(items + [Bin(last, 1)]) == Expand(items) + [last]
  {
    ExpandAppend(items, [Bin(last, 1)]);
    ExpandOne(last, 1);
    assert Run(last, 1) == [last];
  }

  lemma ContinueEnd(c: Cursor)
    requires WholeCursor(c)
    ensures Continue(c, []) == if c.part > 0.0 then [c.cur] else []
  {
    assert Value([], c.part) == 0.0 && Skip([], c.part) == [];
    assert Spread(Expand(c.bins), []) == [];
  }

  /** `xs` is `ys`, perhaps with a zero at the end. */
  ghost predicate Padded(xs: seq<real>, ys: seq<real>) {
    xs == ys || xs == ys + [0.0]
  }

  lemma EdgeItemsSpread(bins: seq<Bin>, chunks: seq<Chunk>)
    requires Positive(bins) && Integral(bins) && WholeChunks(chunks)
    ensures WholeItems(EdgeItems(bins, chunks)) && Padded(Expand(EdgeItems(bins, chunks)), Spread(Expand(bins), chunks))
  {
    var c := Cursor(0.0, 0.0, bins);
    WholeZero();
    FeedAllRefines(c, chunks);
    var f := FeedAll(c, chunks);
    LastItem(f.items, f.cursor.cur);
    ContinueEnd(f.cursor);
    assert Spread(Expand(bins), chunks) == Continue(c, chunks);
    assert Expand(f.items) + [] == Expand(f.items);
  }

  /**
   The walk of `MergeEdgeDegreeSequences` computes the spread: the first `k` rows together get the
   weight of the first tuples, as many as their old degrees add up to.
   */
  lemma EdgeItemsPrefix(bins: seq<Bin>, chunks: seq<Chunk>, k: nat)
    requires Positive(bins) && Integral(bins) && WholeChunks(chunks)
    ensures Prefix(Expand(EdgeItems(bins, chunks)), k) == Value(chunks, Prefix(Expand(bins), k))
  {
    EdgeItemsSpread(bins, chunks);
    PrefixPadded(Spread(Expand(bins), chunks), k);
    ExpandPositive(bins);
    SpreadPrefix(Expand(bins), chunks, k);
  }

  lemma {:induction false} ExpandPositive(bins: seq<Bin>)
    requires Positive(bins)
    ensures forall i :: 0 <= i < |Expand(bins)| ==> Expand(bins)[i] >= 0.0
  {
    if bins != [] {
      ExpandPositive(bins[1..]);
    }
  }
}

/** `Merge` as it runs: one walk over the two sequences of the shared table feeds every other table's walk. */
module MergeStatistics {
  import opened RankBounds
  import opened DegreeSequences
  import opened CardLimit
  import opened MergeSpread
  import opened MergeChunks
  import opened MergeEdges
  import opened MergeBounds
  import opened StarStatistics

  /** How far one table has come: its place, and the degrees added so far. */
  datatype Progress = Progress(at: Place, items: seq<Bin>)

  ghost predicate Rows(chunks: seq<Chunk>) {
    forall i :: 0 <= i < |chunks| ==> chunks[i].rows > 0.0
  }

  /** From here on, the chunks that are left complete what feeding all of them gives. */
  ghost predicate OnTrack(ds: seq<Bin>, pr: Progress, left: seq<Chunk>, all: Fed) {
    && Solid(ds) && PlaceOk(ds, pr.at) && Positive(CursorOf(ds, pr.at).bins) && Rows(left)
    && all == Prepend(pr.items, FeedAll(CursorOf(ds, pr.at), left))
  }

  lemma StartOnTrack(ds: seq<Bin>, chunks: seq<Chunk>)
    requires Solid(ds) && Rows(chunks)
    ensures OnTrack(ds, Progress(Place(0, 0.0, 0.0, 0), []), chunks, FeedAll(Cursor(0.0, 0.0, ds), chunks))
  {
    var at := Place(0, 0.0, 0.0, 0);
    assert CursorOf(ds, at) == Cursor(0.0, 0.0, ds);
    var f := FeedAll(Cursor(0.0, 0.0, ds), chunks);
    assert [] + f.items == f.items;
  }

  /** One chunk for one table. */
  method FeedOne(ds: seq<Bin>, pr: Progress, rows: real, weight: real, ghost left: seq<Chunk>, ghost all: Fed) returns (after: Progress)
    requires left != [] && left[0] == Chunk(rows, weight) && OnTrack(ds, pr, left, all)
    ensures OnTrack(ds, after, left[1..], all)
  {
    var items, at := MergeEdge(ds, pr.at, rows, weight);
    ghost var rest := FeedAll(CursorOf(ds, at), left[1..]);
    assert pr.items + (items + rest.items) == pr.items + items + rest.items;
    after := Progress(at, pr.items + items);
  }

  /** Every table of one side is on track. */
  ghost predicate SideOnTrack(edges: map<string, seq<Bin>>, tables: set<string>, side: map<string, Progress>, left: seq<Chunk>, chunks: seq<Chunk>) {
    && tables <= edges.Keys && side.Keys == tables && Rows(chunks)
    && forall t :: t in tables ==> TableOnTrack(edges, side, t, left, chunks)
  }

  ghost predicate TableOnTrack(edges: map<string, seq<Bin>>, side: map<string, Progress>, t: string, left: seq<Chunk>, chunks: seq<Chunk>)
    requires t in edges && t in side && Rows(chunks)
  {
    Positive(edges[t]) && OnTrack(edges[t], side[t], left, FeedAll(Cursor(0.0, 0.0, edges[t]), chunks))
  }

  /** The tables in `todo` have yet to get the first chunk that is left. */
  ghost predicate PartlyFed(edges: map<string, seq<Bin>>, tables: set<string>, todo: set<string>, side: map<string, Progress>,
                            left: seq<Chunk>, chunks: seq<Chunk>)
    requires left != []
  {
    && tables <= edges.Keys && side.Keys == tables && Rows(chunks)
    && forall t :: t in tables ==> TableOnTrack(edges, side, t, if t in todo then left else left[1..], chunks)
  }

  lemma FedOne(edges: map<string, seq<Bin>>, tables: set<string>, todo: set<string>, side: map<string, Progress>,
               left: seq<Chunk>, chunks: seq<Chunk>, t: string, pr: Progress)
    requires left != [] && PartlyFed(edges, tables, todo, side, left, chunks) && t in tables && Positive(edges[t])
    requires OnTrack(edges[t], pr, left[1..], FeedAll(Cursor(0.0, 0.0, edges[t]), chunks))
    ensures PartlyFed(edges, tables, todo - {t}, side[t := pr], left, chunks)
  {
    var after := side[t := pr];
    forall u | u in tables ensures TableOnTrack(edges, after, u, if u in todo - {t} then left else left[1..], chunks) {
      assert TableOnTrack(edges, side, u, if u in todo then left else left[1..], chunks);
    }
  }

  /** The loop over the tables of one side. */
  method FeedSide(edges: map<string, seq<Bin>>, tables: set<string>, side: map<string, Progress>, rows: real, weight: real,
                  ghost left: seq<Chunk>, ghost chunks: seq<Chunk>) returns (after: map<string, Progress>)
    requires left != [] && left[0] == Chunk(rows, weight) && SideOnTrack(edges, tables, side, left, chunks)
    ensures SideOnTrack(edges, tables, after, left[1..], chunks)
  {
    after := side;
    var todo := tables;
    while todo != {}
      invariant todo <= tables && PartlyFed(edges, tables, todo, after, left, chunks)
      decreases todo
    {
      var t :| t in todo;
      assert TableOnTrack(edges, after, t, left, chunks);
      var pr := FeedOne(edges[t], after[t], rows, weight, left, FeedAll(Cursor(0.0, 0.0, edges[t]), chunks));
      FedOne(edges, tables, todo, after, left, chunks, t, pr);
      after := after[t := pr];
      todo := todo - {t};
    }
  }

  method StartSide(edges: map<string, seq<Bin>>, tables: set<string>, ghost chunks: seq<Chunk>) returns (side: map<string, Progress>)
    requires tables <= edges.Keys && Rows(chunks) && forall t :: t in tables ==> Solid(edges[t])
    ensures SideOnTrack(edges, tables, side, chunks, chunks)
  {
    side := map t | t in tables :: Progress(Place(0, 0.0, 0.0, 0), []);
    forall t | t in tables ensures TableOnTrack(edges, side, t, chunks, chunks) {
      StartOnTrack(edges[t], chunks);
    }
  }

  /** `AddCurDegree`: the row under way is added too. */
  function Closed(pr: Progress): seq<Bin> {
    pr.items + [Bin(pr.at.curDegree, 1)]
  }

  lemma ClosedItems(ds: seq<Bin>, pr: Progress, chunks: seq<Chunk>)
    requires Positive(ds) && Rows(chunks) && OnTrack(ds, pr, [], FeedAll(Cursor(0.0, 0.0, ds), chunks))
    ensures Closed(pr) == EdgeItems(ds, chunks)
  {
    assert pr.items + [] == pr.items;
  }

  // ---- The walk over the shared table ----

  /** `pointer`, `count` and `degree` of one sequence: the rows in hand, and where the next ones are. */
  datatype Hand = Hand(pointer: nat, count: nat, degree: real)

  function Left(ds: seq<Bin>, h: Hand): seq<Bin>
    requires h.pointer <= |ds|
  {
    Remaining(ds, h.pointer, h.count, h.degree)
  }

  /** Takes the next bin if none is in hand; `ok` tells whether there was one. */
  method Refill(ds: seq<Bin>, h: Hand) returns (r: Hand, ok: bool)
    requires Solid(ds) && h.pointer <= |ds|
    ensures r.pointer <= |ds| && Left(ds, r) == Left(ds, h)
    ensures ok <==> Left(ds, h) != []
    ensures ok ==> r.count > 0
  {
    r, ok := h, true;
    if h.count == 0 {
      if h.pointer >= |ds| {
        ok := false;
      } else {
        Load(ds, h.pointer, h.degree);
        r := Hand(h.pointer + 1, ds[h.pointer].count, ds[h.pointer].degree);
      }
    }
  }

  lemma InHandFirst(ds: seq<Bin>, h: Hand, c: nat)
    requires h.pointer <= |ds| && 0 < h.count && c <= h.count
    ensures Left(ds, h) != [] && Left(ds, h)[0] == Bin(h.degree, h.count)
    ensures Left(ds, h.(count := h.count - c)) == Advance(Left(ds, h), c)
  {
    assert Left(ds, h) == InHand(ds, h.pointer, h.count, h.degree);
    Spend(ds, h.pointer, h.count, h.degree, c);
  }

  lemma FirstChunk(a: seq<Bin>, b: seq<Bin>, c: nat, rows: real)
    requires a != [] && b != [] && c == MinNat(a[0].count, b[0].count) && rows == Times(c, a[0].degree)
    ensures ChunksAlong(a, b) != [] && ChunksAlong(a, b)[0] == Chunk(rows, b[0].degree)
    ensures ChunksAlong(a, b)[1..] == ChunksAlong(Advance(a, c), Advance(b, c))
  {
  }

  /** What the walk over the shared table has produced: the cardinality and the table's own degrees. */
  ghost predicate WalkedTo(a: seq<Bin>, b: seq<Bin>, left: seq<Bin>, right: seq<Bin>, card: real, items: seq<Bin>) {
    && Solid(left) && Solid(right)
    && items + Segments(left, right) == Segments(a, b) && card + Card(Segments(left, right)) == Card(Segments(a, b))
  }

  lemma WalkBins(left: seq<Bin>, right: seq<Bin>, c: nat, all: seq<Bin>, total: real, card: real, items: seq<Bin>, d: real, rest: seq<Bin>)
    requires left != [] && right != [] && c == MinNat(left[0].count, right[0].count)
    requires Segments(left, right) != [] && d == Segments(left, right)[0].degree
    requires items + Segments(left, right) == all && card + Card(Segments(left, right)) == total
    requires rest == Segments(Advance(left, c), Advance(right, c))
    ensures items + [Bin(d, c)] + rest == all && card + Times(c, d) + Card(rest) == total
  {
    var s := Segments(left, right);
    SegmentsShape(left, right, c);
    assert s == [s[0]] + s[1..] && s[0] == Bin(d, c);
    CardCons(Bin(d, c), rest);
    assert items + ([Bin(d, c)] + rest) == items + [Bin(d, c)] + rest;
  }

  lemma WalkOn(a: seq<Bin>, b: seq<Bin>, left: seq<Bin>, right: seq<Bin>, card: real, items: seq<Bin>, c: nat, d: real)
    requires WalkedTo(a, b, left, right, card, items) && left != [] && right != []
    requires c == MinNat(left[0].count, right[0].count) && Segments(left, right) != [] && d == Segments(left, right)[0].degree
    ensures WalkedTo(a, b, Advance(left, c), Advance(right, c), card + Times(c, d), items + [Bin(d, c)])
    ensures |Advance(left, c)| + |Advance(right, c)| < |left| + |right|
  {
    AdvanceSolid(left, c);
    AdvanceSolid(right, c);
    SegmentsShape(left, right, c);
    WalkBins(left, right, c, Segments(a, b), Card(Segments(a, b)), card, items, d, Segments(Advance(left, c), Advance(right, c)));
  }

  lemma WalkStop(a: seq<Bin>, b: seq<Bin>, left: seq<Bin>, right: seq<Bin>, card: real, items: seq<Bin>)
    requires WalkedTo(a, b, left, right, card, items) && (left == [] || right == [])
    ensures card == Card(Segments(a, b)) && items == Segments(a, b)
    ensures ChunksAlong(left, right) == [] && ChunksAlong(right, left) == []
  {
    assert Segments(left, right) == [] && items + [] == items;
  }

  /** Both sequences of the shared table are walked over, and every other table has been fed all its chunks. */
  ghost predicate WalkDone(l: Summary, r: Summary, table: string, card: real, shared: seq<Bin>,
                           lefts: map<string, Progress>, rights: map<string, Progress>)
    requires MergesOn(l, r, table)
  {
    var a, b := l.edges[table], r.edges[table];
    && card == Card(Segments(a, b)) && shared == Segments(a, b)
    && SideOnTrack(l.edges, l.tables - {table}, lefts, [], ChunksAlong(a, b))
    && SideOnTrack(r.edges, r.tables - {table}, rights, [], ChunksAlong(b, a))
  }

  /** The walk before its next turn: what was produced, and what every other table has been fed. */
  ghost predicate Walking(l: Summary, r: Summary, table: string, x: seq<Bin>, y: seq<Bin>, card: real, shared: seq<Bin>,
                          lefts: map<string, Progress>, rights: map<string, Progress>)
    requires MergesOn(l, r, table)
  {
    var a, b := l.edges[table], r.edges[table];
    && WalkedTo(a, b, x, y, card, shared)
    && SideOnTrack(l.edges, l.tables - {table}, lefts, ChunksAlong(x, y), ChunksAlong(a, b))
    && SideOnTrack(r.edges, r.tables - {table}, rights, ChunksAlong(y, x), ChunksAlong(b, a))
  }

  /** `degree1 * degree2` for the rows in hand. */
  method Multiply(ghost x: seq<Bin>, ghost y: seq<Bin>, d1: real, d2: real) returns (d: real)
    requires x != [] && y != [] && d1 == x[0].degree && d2 == y[0].degree
    ensures Segments(x, y) != [] && d == Segments(x, y)[0].degree
  {
    SegmentsShape(x, y, MinNat(x[0].count, y[0].count));
    d := d1 * d2;
  }

  /** One turn: `c` rows of the shared table, of degrees `d1` and `d2`, for the tables of both sides. */
  method FeedBoth(l: Summary, r: Summary, table: string, ghost x: seq<Bin>, ghost y: seq<Bin>, c: nat, d1: real, d2: real,
                  card: real, shared: seq<Bin>, lefts: map<string, Progress>, rights: map<string, Progress>)
    returns (card': real, shared': seq<Bin>, lefts': map<string, Progress>, rights': map<string, Progress>)
    requires MergesOn(l, r, table) && Walking(l, r, table, x, y, card, shared, lefts, rights)
    requires x != [] && y != [] && c == MinNat(x[0].count, y[0].count) && d1 == x[0].degree && d2 == y[0].degree
    ensures Walking(l, r, table, Advance(x, c), Advance(y, c), card', shared', lefts', rights')
    ensures |Advance(x, c)| + |Advance(y, c)| < |x| + |y|
  {
    var rows1 := MassOf(Bin(d1, c));
    var rows2 := MassOf(Bin(d2, c));
    FirstChunk(x, y, c, rows1);
    FirstChunk(y, x, c, rows2);
    lefts' := FeedSide(l.edges, l.tables - {table}, lefts, rows1, d2, ChunksAlong(x, y), ChunksAlong(l.edges[table], r.edges[table]));
    rights' := FeedSide(r.edges, r.tables - {table}, rights, rows2, d1, ChunksAlong(y, x), ChunksAlong(r.edges[table], l.edges[table]));
    var d := Multiply(x, y, d1, d2);
    var m := MassOf(Bin(d, c));
    WalkOn(l.edges[table], r.edges[table], x, y, card, shared, c, d);
    card', shared' := card + m, shared + [Bin(d, c)];
  }

  method StartWalk(l: Summary, r: Summary, table: string) returns (lefts: map<string, Progress>, rights: map<string, Progress>)
    requires MergesOn(l, r, table)
    ensures Walking(l, r, table, l.edges[table], r.edges[table], 0.0, [], lefts, rights)
  {
    ghost var a, b := l.edges[table], r.edges[table];
    AlongHeavy(a, b);
    AlongHeavy(b, a);
    lefts := StartSide(l.edges, l.tables - {table}, ChunksAlong(a, b));
    rights := StartSide(r.edges, r.tables - {table}, ChunksAlong(b, a));
    assert [] + Segments(a, b) == Segments(a, b);
  }

  /** The walk with a hand in each of the two sequences. */
  ghost predicate InWalk(l: Summary, r: Summary, table: string, h1: Hand, h2: Hand, card: real, shared: seq<Bin>,
                         lefts: map<string, Progress>, rights: map<string, Progress>)
    requires MergesOn(l, r, table)
  {
    && h1.pointer <= |l.edges[table]| && h2.pointer <= |r.edges[table]|
    && Walking(l, r, table, Left(l.edges[table], h1), Left(r.edges[table], h2), card, shared, lefts, rights)
  }

  ghost function Ahead(l: Summary, r: Summary, table: string, h1: Hand, h2: Hand): nat
    requires MergesOn(l, r, table) && h1.pointer <= |l.edges[table]| && h2.pointer <= |r.edges[table]|
  {
    |Left(l.edges[table], h1)| + |Left(r.edges[table], h2)|
  }

  /** One turn of the loop, with rows in both hands. */
  method Turn(l: Summary, r: Summary, table: string, h1: Hand, h2: Hand, card: real, shared: seq<Bin>,
              lefts: map<string, Progress>, rights: map<string, Progress>)
    returns (h1': Hand, h2': Hand, card': real, shared': seq<Bin>, lefts': map<string, Progress>, rights': map<string, Progress>)
    requires MergesOn(l, r, table) && InWalk(l, r, table, h1, h2, card, shared, lefts, rights) && h1.count > 0 && h2.count > 0
    ensures InWalk(l, r, table, h1', h2', card', shared', lefts', rights')
    ensures Ahead(l, r, table, h1', h2') < Ahead(l, r, table, h1, h2)
  {
    var count := MinNat(h1.count, h2.count);
    InHandFirst(l.edges[table], h1, count);
    InHandFirst(r.edges[table], h2, count);
    card', shared', lefts', rights' := FeedBoth(l, r, table, Left(l.edges[table], h1), Left(r.edges[table], h2), count,
                                                h1.degree, h2.degree, card, shared, lefts, rights);
    h1', h2' := h1.(count := h1.count - count), h2.(count := h2.count - count);
  }

  /** The walk over the shared table, with all other tables fed along the way. */
  method Walk(l: Summary, r: Summary, table: string)
    returns (card: real, shared: seq<Bin>, lefts: map<string, Progress>, rights: map<string, Progress>)
    requires MergesOn(l, r, table)
    ensures WalkDone(l, r, table, card, shared, lefts, rights)
  {
    lefts, rights := StartWalk(l, r, table);
    card, shared := 0.0, [];
    var h1, h2, ok1, ok2 := Hand(0, 0, 0.0), Hand(0, 0, 0.0), true, true;
    assert Left(l.edges[table], h1) == l.edges[table] && Left(r.edges[table], h2) == r.edges[table];
    while true
      invariant InWalk(l, r, table, h1, h2, card, shared, lefts, rights)
      decreases Ahead(l, r, table, h1, h2)
    {
      h1, ok1 := Refill(l.edges[table], h1);
      if !ok1 {
        break;
      }
      h2, ok2 := Refill(r.edges[table], h2);
      if !ok2 {
        break;
      }
      h1, h2, card, shared, lefts, rights := Turn(l, r, table, h1, h2, card, shared, lefts, rights);
    }
    WalkStop(l.edges[table], r.edges[table], Left(l.edges[table], h1), Left(r.edges[table], h2), card, shared);
  }

  /** `FinishCollection` on one sequence, and the second cut. */
  method FinishTable(items: seq<Bin>, p: real, card: real) returns (bins: seq<Bin>)
    requires Fitting(items) && card >= 0.0
    ensures bins == FinishEdge(items, p, card)
  {
    CompressSolid(items, p);
    bins := LimitDsToCard(Compress(items, p), card);
    LimitSolid(Compress(items, p), card);
    bins := LimitDsToCard(bins, card);
  }

  /** The degrees that one side gives to `t`: nothing if it has no such table. */
  function SideAdded(side: map<string, Progress>, t: string): seq<Bin> {
    if t in side then Closed(side[t]) else []
  }

  lemma AddedItems(s: Summary, table: string, t: string, chunks: seq<Chunk>, side: map<string, Progress>)
    requires SolidSummary(s) && Heavy(chunks) && t != table && SideOnTrack(s.edges, s.tables - {table}, side, [], chunks)
    ensures SideAdded(side, t) == SideItems(s, chunks, t)
  {
    if t in s.tables {
      assert TableOnTrack(s.edges, side, t, [], chunks);
      ClosedItems(s.edges[t], side[t], chunks);
    }
  }

  /** The degrees that are added for one table of the merged statistic: a table of both sides gets those of both. */
  method ItemsOf(l: Summary, r: Summary, table: string, t: string, card: real, shared: seq<Bin>,
                 lefts: map<string, Progress>, rights: map<string, Progress>) returns (items: seq<Bin>)
    requires MergesOn(l, r, table) && WalkDone(l, r, table, card, shared, lefts, rights)
    ensures items == MergedItems(l, r, table, t)
  {
    if t == table {
      items := shared;
    } else {
      ghost var a, b := l.edges[table], r.edges[table];
      AlongHeavy(a, b);
      AlongHeavy(b, a);
      AddedItems(l, table, t, ChunksAlong(a, b), lefts);
      AddedItems(r, table, t, ChunksAlong(b, a), rights);
      items := SideAdded(lefts, t) + SideAdded(rights, t);
    }
  }

  /** Closes the sequence of one table of the merged statistic. */
  method MergeTableOf(l: Summary, r: Summary, table: string, p: real, t: string, card: real, shared: seq<Bin>,
                      lefts: map<string, Progress>, rights: map<string, Progress>) returns (bins: seq<Bin>)
    requires MergesOn(l, r, table) && WalkDone(l, r, table, card, shared, lefts, rights)
    ensures bins == MergedEdge(l, r, table, t, p)
  {
    SegmentsFit(l.edges[table], r.edges[table]);
    MergedItemsFit(l, r, table, t);
    var items := ItemsOf(l, r, table, t, card, shared, lefts, rights);
    bins := FinishTable(items, p, card);
  }

  /** The sequences finished so far. */
  ghost predicate FinishedTo(l: Summary, r: Summary, table: string, p: real, todo: set<string>, edges: map<string, seq<Bin>>)
    requires MergesOn(l, r, table)
  {
    && edges.Keys == l.tables + r.tables - todo
    && forall t :: t in edges ==> edges[t] == MergedEdge(l, r, table, t, p)
  }

  lemma FinishedNext(l: Summary, r: Summary, table: string, p: real, todo: set<string>, edges: map<string, seq<Bin>>, t: string, bins: seq<Bin>)
    requires MergesOn(l, r, table)
    requires FinishedTo(l, r, table, p, todo, edges) && t in todo && t in l.tables + r.tables && bins == MergedEdge(l, r, table, t, p)
    ensures FinishedTo(l, r, table, p, todo - {t}, edges[t := bins])
  {
  }

  lemma FinishedAll(l: Summary, r: Summary, table: string, p: real, edges: map<string, seq<Bin>>)
    requires MergesOn(l, r, table) && FinishedTo(l, r, table, p, {}, edges)
    ensures edges == Merged(l, r, table, p).edges
  {
    SameMap(edges, Merged(l, r, table, p).edges);
  }

  lemma SameMap(a: map<string, seq<Bin>>, b: map<string, seq<Bin>>)
    requires a.Keys == b.Keys && forall t :: t in a ==> a[t] == b[t]
    ensures a == b
  {
  }

  /** Merging two statistics on a table that both have, among others perhaps. */
  method Merge(l: Summary, r: Summary, table: string, p: real) returns (s: Summary)
    requires MergesOn(l, r, table)
    ensures s == Merged(l, r, table, p)
  {
    var card, shared, lefts, rights := Walk(l, r, table);
    var edges: map<string, seq<Bin>> := map[];
    var todo := l.tables + r.tables;
    while todo != {}
      invariant todo <= l.tables + r.tables && FinishedTo(l, r, table, p, todo, edges)
      decreases todo
    {
      var t :| t in todo;
      var bins := MergeTableOf(l, r, table, p, t, card, shared, lefts, rights);
      FinishedNext(l, r, table, p, todo, edges, t, bins);
      edges, todo := edges[t := bins], todo - {t};
    }
    FinishedAll(l, r, table, p, edges);
    s := Summary(card, l.tables + r.tables, edges);
  }
}

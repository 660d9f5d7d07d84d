/**
 One star summary: the exact cardinality of a star join, the degree sequence of its join-key values
 and, for every table, the degree sequence of the table's rows in the join.
 */
module StarSummary {
  import opened Sums
  import opened Sql
  import opened RankBounds
  import opened DegreeSequences
  import opened CardLimit
  import Star = StarCollection
  import opened StarBounds

  /** The product of the counts of `tables`; 0 if one is missing. */
  function Mul(vec: Star.CountVector, tables: seq<string>): int {
    if tables == [] then 1 else Mul(vec, tables[..|tables| - 1]) * CountOf(vec, tables[|tables| - 1])
  }

  lemma {:induction false} MulZero(vec: Star.CountVector, tables: seq<string>, i: nat)
    requires i < |tables| && CountOf(vec, tables[i]) == 0
    ensures Mul(vec, tables) == 0
    decreases |tables|
  {
    if i < |tables| - 1 {
      MulZero(vec, tables[..|tables| - 1], i);
    }
  }

  lemma {:induction false} MulPositive(vec: Star.CountVector, tables: seq<string>)
    requires forall i :: 0 <= i < |tables| ==> CountOf(vec, tables[i]) > 0
    ensures Mul(vec, tables) > 0
  {
    if tables != [] {
      MulPositive(vec, tables[..|tables| - 1]);
    }
  }

  /** What one count vector adds to the sequence of `table`: nothing if the star has no row there. */
  function EdgeItem(vec: Star.CountVector, f: nat, product: int, table: string): seq<Bin> {
    var c := CountOf(vec, table);
    if product == 0 || c <= 0 then [] else [Bin(product as real / c as real, c * f)]
  }

  function EdgeItems(cn: CountNum, tables: seq<string>, table: string): seq<Bin> {
    if cn == [] then []
    else EdgeItem(cn[0].0, cn[0].1, Mul(cn[0].0, tables), table) + EdgeItems(cn[1..], tables, table)
  }

  /** What one count vector adds to the central sequence. */
  function CentralItem(f: nat, product: int): seq<Bin> {
    if product == 0 then [] else [Bin(product as real, f)]
  }

  function CentralItems(cn: CountNum, tables: seq<string>): seq<Bin> {
    if cn == [] then [] else CentralItem(cn[0].1, Mul(cn[0].0, tables)) + CentralItems(cn[1..], tables)
  }

  function TotalCard(cn: CountNum, tables: seq<string>): int {
    if cn == [] then 0 else Mul(cn[0].0, tables) * cn[0].1 + TotalCard(cn[1..], tables)
  }

  ghost predicate Counts(vec: Star.CountVector) {
    forall t :: t in vec ==> vec[t] >= 0
  }

  lemma {:induction false} EdgeItemsSnoc(cn: CountNum, x: (Star.CountVector, nat), tables: seq<string>, table: string)
    ensures EdgeItems(cn + [x], tables, table) ==
            EdgeItems(cn, tables, table) + EdgeItem(x.0, x.1, Mul(x.0, tables), table)
  {
    var last := EdgeItem(x.0, x.1, Mul(x.0, tables), table);
    if cn == [] {
      assert cn + [x] == [x];
      assert EdgeItems([x], tables, table) == last + EdgeItems([], tables, table);
    } else {
      assert (cn + [x])[1..] == cn[1..] + [x];
      EdgeItemsSnoc(cn[1..], x, tables, table);
      var head, rest := EdgeItem(cn[0].0, cn[0].1, Mul(cn[0].0, tables), table), EdgeItems(cn[1..], tables, table);
      assert head + (rest + last) == head + rest + last;
    }
  }

  lemma {:induction false} CentralItemsSnoc(cn: CountNum, x: (Star.CountVector, nat), tables: seq<string>)
    ensures CentralItems(cn + [x], tables) == CentralItems(cn, tables) + CentralItem(x.1, Mul(x.0, tables))
    ensures TotalCard(cn + [x], tables) == TotalCard(cn, tables) + Mul(x.0, tables) * x.1
  {
    var last := CentralItem(x.1, Mul(x.0, tables));
    if cn == [] {
      assert cn + [x] == [x];
      assert CentralItems([x], tables) == last + CentralItems([], tables);
      assert TotalCard([x], tables) == Mul(x.0, tables) * x.1 + TotalCard([], tables);
    } else {
      assert (cn + [x])[1..] == cn[1..] + [x];
      CentralItemsSnoc(cn[1..], x, tables);
      var head, rest := CentralItem(cn[0].1, Mul(cn[0].0, tables)), CentralItems(cn[1..], tables);
      assert head + (rest + last) == head + rest + last;
    }
  }

  lemma AddAllMore(items: seq<Bin>, more: seq<Bin>, p: real)
    requires |more| <= 1
    ensures AddAll([], items + more, p) == AddAll(AddAll([], items, p), more, p)
  {
    if more == [] {
      assert items + more == items;
    } else {
      AddAllSnoc([], items, more[0], p);
      assert more == [more[0]];
      AddOne(AddAll([], items, p), more[0], p);
    }
  }

  lemma AddOne(slots: seq<Slot>, x: Bin, p: real)
    ensures AddAll(slots, [x], p) == AddTo(slots, x.degree, x.count, p)
  {
    assert AddAll(slots, [x], p) == AddAll(AddTo(slots, x.degree, x.count, p), [], p);
  }

  /** `FinishCollection` on one sequence: close it and cut it at the statistic's cardinality. */
  function Finished(slots: seq<Slot>, card: real): seq<Bin>
    requires forall i :: 0 <= i < |slots| ==> slots[i].maxDegree >= 0.0
  {
    FinishPositive(slots);
    Limit(Finish(slots), card)
  }

  lemma {:induction false} OccupiedPositive(slots: seq<Slot>)
    requires forall i :: 0 <= i < |slots| ==> slots[i].maxDegree >= 0.0
    ensures forall i :: 0 <= i < |Occupied(slots)| ==> Occupied(slots)[i].maxDegree > 0.0
  {
    if slots != [] {
      OccupiedPositive(slots[..|slots| - 1]);
    }
  }

  lemma FinishPositive(slots: seq<Slot>)
    requires forall i :: 0 <= i < |slots| ==> slots[i].maxDegree >= 0.0
    ensures Positive(Finish(slots))
  {
    OccupiedPositive(slots);
  }

  /** The first loop of `AddDegree`: it gives up at a table without rows. */
  method MultiplyCounts(vec: Star.CountVector, tables: seq<string>) returns (product: int)
    requires Counts(vec)
    ensures product == Mul(vec, tables)
    ensures product != 0 <==> forall i :: 0 <= i < |tables| ==> CountOf(vec, tables[i]) > 0
  {
    product := 1;
    for i := 0 to |tables|
      invariant product == Mul(vec, tables[..i])
      invariant forall j :: 0 <= j < i ==> CountOf(vec, tables[j]) > 0
    {
      if tables[i] !in vec || vec[tables[i]] == 0 {
        MulZero(vec, tables, i);
        return 0;
      }
      assert tables[..i + 1][..i] == tables[..i];
      product := product * vec[tables[i]];
    }
    assert tables[..|tables|] == tables;
    MulPositive(vec, tables);
  }

  /** A statistic under collection; its degree sequences are values that it owns. */
  class DSStatistic {
    const tables: seq<string>
    const precision: real
    var card: real
    var centralDs: seq<Slot>
    var ds: map<string, seq<Slot>>

    ghost predicate Valid()
      reads this
    {
      Distinct(tables) && forall t :: t in tables ==> t in ds
    }

    /** The state after the vectors of `cn` were added to a new statistic. */
    ghost predicate Collected(cn: CountNum)
      reads this
    {
      && Valid()
      && card == TotalCard(cn, tables) as real
      && centralDs == AddAll([], CentralItems(cn, tables), precision)
      && forall t :: t in tables ==> ds[t] == AddAll([], EdgeItems(cn, tables, t), precision)
    }

    constructor (tables: seq<string>, precision: real)
      requires Distinct(tables)
      ensures this.tables == tables && this.precision == precision && Collected([])
    {
      this.tables, this.precision := tables, precision;
      card, centralDs := 0.0, [];
      ds := map t | t in tables :: [];
    }

    /** Adds one count vector that occurs `countCount` times. */
    method AddDegree(vec: Star.CountVector, countCount: nat)
      requires Valid() && Counts(vec)
      modifies this
      ensures Valid()
      ensures card == old(card) + (Mul(vec, tables) * countCount) as real
      ensures centralDs == AddAll(old(centralDs), CentralItem(countCount, Mul(vec, tables)), precision)
      ensures forall t :: t in tables ==>
                ds[t] == AddAll(old(ds)[t], EdgeItem(vec, countCount, Mul(vec, tables), t), precision)
    {
      var product := MultiplyCounts(vec, tables);
      if product != 0 {
        AddEdges(vec, countCount, product);
        AddOne(centralDs, Bin(product as real, countCount), precision);
        centralDs := AddTo(centralDs, product as real, countCount, precision);
        card := card + (product * countCount) as real;
      }
    }

    method AddEdges(vec: Star.CountVector, countCount: nat, product: int)
      requires Valid() && product != 0
      requires forall i :: 0 <= i < |tables| ==> CountOf(vec, tables[i]) > 0
      modifies this`ds
      ensures Valid()
      ensures forall t :: t in tables ==>
                ds[t] == AddAll(old(ds)[t], EdgeItem(vec, countCount, product, t), precision)
    {
      for i := 0 to |tables|
        invariant Valid()
        invariant forall j :: i <= j < |tables| ==> ds[tables[j]] == old(ds)[tables[j]]
        invariant forall j :: 0 <= j < i ==>
                    ds[tables[j]] == AddAll(old(ds)[tables[j]], EdgeItem(vec, countCount, product, tables[j]), precision)
      {
        var t := tables[i];
        var degree, count := product as real / vec[t] as real, vec[t] * countCount;
        AddOne(ds[t], Bin(degree, count), precision);
        ds := ds[t := AddTo(ds[t], degree, count, precision)];
      }
    }

    /** The loop of a worker over `count_num`. */
    method AddAllDegrees(cn: CountNum)
      requires Collected([]) && forall i :: 0 <= i < |cn| ==> Counts(cn[i].0)
      modifies this
      ensures Collected(cn)
    {
      assert cn[..0] == [];
      for i := 0 to |cn|
        invariant Collected(cn[..i])
      {
        AddDegree(cn[i].0, cn[i].1);
        assert cn[..i + 1] == cn[..i] + [cn[i]];
        CentralItemsSnoc(cn[..i], cn[i], tables);
        AddAllMore(CentralItems(cn[..i], tables), CentralItem(cn[i].1, Mul(cn[i].0, tables)), precision);
        forall t | t in tables ensures ds[t] == AddAll([], EdgeItems(cn[..i + 1], tables, t), precision) {
          EdgeItemsSnoc(cn[..i], cn[i], tables, t);
          AddAllMore(EdgeItems(cn[..i], tables, t), EdgeItem(cn[i].0, cn[i].1, Mul(cn[i].0, tables), t), precision);
        }
      }
      assert cn[..|cn|] == cn;
    }

    ghost predicate NonNegativeSlots()
      reads this
      requires Valid()
    {
      && (forall i :: 0 <= i < |centralDs| ==> centralDs[i].maxDegree >= 0.0)
      && forall t, i :: t in tables && 0 <= i < |ds[t]| ==> ds[t][i].maxDegree >= 0.0
    }

    /** Closes every sequence and cuts it at the cardinality. */
    method FinishCollection() returns (edges: map<string, seq<Bin>>, central: seq<Bin>)
      requires Valid() && NonNegativeSlots()
      ensures edges.Keys == (set t | t in tables) && forall t :: t in tables ==> edges[t] == Finished(ds[t], card)
      ensures central == Finished(centralDs, card)
    {
      edges := map[];
      for i := 0 to |tables|
        invariant edges.Keys == set t | t in tables[..i]
        invariant forall j :: 0 <= j < i ==> edges[tables[j]] == Finished(ds[tables[j]], card)
      {
        var t := tables[i];
        FinishPositive(ds[t]);
        var closed := LimitDsToCard(Finish(ds[t]), card);
        edges := edges[t := closed];
      }
      assert tables[..|tables|] == tables;
      FinishPositive(centralDs);
      central := LimitDsToCard(Finish(centralDs), card);
    }
  }
}

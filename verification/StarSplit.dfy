/** `EqualSet.Split`: which parts a large star is cut into, and for how many tables the estimate survives it. */
module StarSplit {
  import opened Options
  import opened Sums
  import opened StarJoins
  import opened PlanCounts
  import opened CenterMerge
  import Star = StarCollection

  /** How many of the `n` entries that are left the next part takes: one less than it may if one would be left over. */
  function PartSize(n: nat, maxSize: nat): nat
    requires maxSize >= 3
  {
    if n == maxSize + 1 then maxSize - 1 else if n < maxSize then n else maxSize
  }

  lemma PartSizeFits(n: nat, maxSize: nat)
    requires n > 0 && maxSize >= 3
    ensures 0 < PartSize(n, maxSize) <= n && PartSize(n, maxSize) <= maxSize
  {
  }

  function SplitEntries<T>(entries: seq<T>, maxSize: nat): seq<seq<T>>
    requires maxSize >= 3
    decreases |entries|
  {
    if entries == [] then []
    else
      var n := PartSize(|entries|, maxSize);
      [entries[..n]] + SplitEntries(entries[n..], maxSize)
  }

  /** The loop over the entries, with what it says about sizes below 3. */
  method Split<T>(entries: seq<T>, maxSize: int) returns (parts: Option<seq<seq<T>>>)
    ensures parts == if maxSize < 3 then None else Some(SplitEntries(entries, maxSize))
  {
    if maxSize < 3 {
      return None;
    }
    var it, remain, subset: seq<seq<T>> := 0, |entries|, [];
    while it < |entries|
      invariant it <= |entries| && (it < |entries| ==> remain == |entries| - it)
      invariant subset + SplitEntries(entries[it..], maxSize) == SplitEntries(entries, maxSize)
    {
      var take := if remain - maxSize == 1 then maxSize - 1 else maxSize;
      var next := if it + take < |entries| then it + take else |entries|;
      PartSizeFits(|entries| - it, maxSize);
      assert next - it == PartSize(|entries| - it, maxSize);
      assert entries[it..][..next - it] == entries[it..next] && entries[it..][next - it..] == entries[next..];
      assert subset + ([entries[it..next]] + SplitEntries(entries[next..], maxSize)) ==
             subset + [entries[it..next]] + SplitEntries(entries[next..], maxSize);
      subset := subset + [entries[it..next]];
      remain := remain - take;
      it := next;
    }
    assert entries[it..] == [];
    assert subset + [] == subset;
    parts := Some(subset);
  }

  // ---- What it splits into ----

  function Flatten<T>(parts: seq<seq<T>>): seq<T> {
    if parts == [] then [] else parts[0] + Flatten(parts[1..])
  }

  /** No entry is lost, and of two or more entries none is left alone. */
  lemma {:induction false} SplitParts<T>(entries: seq<T>, maxSize: nat)
    requires maxSize >= 3 && |entries| != 1
    ensures Flatten(SplitEntries(entries, maxSize)) == entries
    ensures forall i :: 0 <= i < |SplitEntries(entries, maxSize)| ==> 2 <= |SplitEntries(entries, maxSize)[i]| <= maxSize
    decreases |entries|
  {
    if entries != [] {
      var n := PartSize(|entries|, maxSize);
      PartSizeFits(|entries|, maxSize);
      SplitParts(entries[n..], maxSize);
      assert SplitEntries(entries, maxSize)[1..] == SplitEntries(entries[n..], maxSize);
      assert entries[..n] + entries[n..] == entries;
    }
  }

  /** How large the `i`-th of the parts is: full, but the last, and but the one before it if the last would be one entry. */
  ghost predicate ShareOk<T>(parts: seq<seq<T>>, maxSize: nat, i: nat)
    requires i < |parts|
  {
    && (i + 2 < |parts| ==> |parts[i]| == maxSize)
    && (i + 2 == |parts| ==> |parts[i]| == maxSize || (|parts[i]| == maxSize - 1 && |parts[i + 1]| == 2))
  }

  lemma ShareCons<T>(first: seq<T>, rest: seq<seq<T>>, maxSize: nat, i: nat)
    requires i < |rest| && ShareOk(rest, maxSize, i)
    ensures ShareOk([first] + rest, maxSize, i + 1)
  {
  }

  /** All parts but the last are full; where one entry would be left over, the last part takes one from the part before it. */
  lemma {:induction false} SplitSizes<T>(entries: seq<T>, maxSize: nat, i: nat)
    requires maxSize >= 3 && i < |SplitEntries(entries, maxSize)|
    ensures ShareOk(SplitEntries(entries, maxSize), maxSize, i)
    decreases |entries|
  {
    var n := PartSize(|entries|, maxSize);
    PartSizeFits(|entries|, maxSize);
    var rest := SplitEntries(entries[n..], maxSize);
    assert SplitEntries(entries, maxSize) == [entries[..n]] + rest;
    if i > 0 {
      SplitSizes(entries[n..], maxSize, i - 1);
      ShareCons(entries[..n], rest, maxSize, i - 1);
    } else if |entries| == maxSize + 1 {
      SplitTwo(entries[n..], maxSize);
    }
  }

  lemma SplitTwo<T>(entries: seq<T>, maxSize: nat)
    requires maxSize >= 3 && |entries| == 2
    ensures SplitEntries(entries, maxSize) == [entries]
  {
    assert entries[..2] == entries && entries[2..] == [];
    assert [entries] + SplitEntries(entries[2..], maxSize) == [entries];
  }

  lemma SplitFirst<T>(entries: seq<T>, maxSize: nat)
    requires maxSize >= 3 && entries != []
    ensures |SplitEntries(entries, maxSize)| == 1 <==> |entries| <= maxSize
  {
    var n := PartSize(|entries|, maxSize);
    if |entries| > maxSize {
      assert entries[n..] != [];
    }
  }

  /** There are at most two parts exactly if two parts can hold all entries. */
  lemma PartsNumber<T>(entries: seq<T>, maxSize: nat)
    requires maxSize >= 3 && entries != []
    ensures 1 <= |SplitEntries(entries, maxSize)|
    ensures |SplitEntries(entries, maxSize)| <= 2 <==> |entries| <= 2 * maxSize
  {
    var n := PartSize(|entries|, maxSize);
    SplitFirst(entries, maxSize);
    if |entries| > maxSize {
      SplitFirst(entries[n..], maxSize);
    }
  }

  // ---- The estimate of a star that was split ----

  /** The statistics that are looked up for the parts of a star. */
  ghost predicate Looked(db: Star.Database, sub: seq<Star.TableColumn>, maxSize: nat, parts: seq<Piece>)
    requires maxSize >= 3
  {
    && |parts| == |SplitEntries(sub, maxSize)|
    && forall i :: 0 <= i < |parts| ==> PartOk(db, parts[i]) && parts[i].sub == SplitEntries(sub, maxSize)[i]
  }

  lemma {:induction false} WholeIsFlat(parts: seq<Piece>, subs: seq<seq<Star.TableColumn>>)
    requires |parts| == |subs| && forall i :: 0 <= i < |parts| ==> parts[i].sub == subs[i]
    ensures Whole(parts) == Flatten(subs)
    decreases |parts|
  {
    if parts != [] {
      WholeIsFlat(parts[1..], subs[1..]);
    }
  }

  /** Where a part begins. */
  function Offset(subs: seq<seq<Star.TableColumn>>, i: nat): nat
    requires i <= |subs|
  {
    if i == 0 then 0 else Offset(subs, i - 1) + |subs[i - 1]|
  }

  lemma {:induction false} OffsetNext(subs: seq<seq<Star.TableColumn>>, i: nat)
    requires 0 < i <= |subs|
    ensures Offset(subs, i) == |subs[0]| + Offset(subs[1..], i - 1)
  {
    if i > 1 {
      OffsetNext(subs, i - 1);
    }
  }

  lemma {:induction false} OffsetAt(subs: seq<seq<Star.TableColumn>>, i: nat, k: nat)
    requires i < |subs| && k < |subs[i]|
    ensures Offset(subs, i) + k < |Flatten(subs)| && Flatten(subs)[Offset(subs, i) + k] == subs[i][k]
    decreases |subs|
  {
    if i > 0 {
      OffsetAt(subs[1..], i - 1, k);
      OffsetNext(subs, i);
    }
  }

  lemma {:induction false} OffsetMono(subs: seq<seq<Star.TableColumn>>, i: nat, j: nat)
    requires i < j <= |subs|
    ensures Offset(subs, i) + |subs[i]| <= Offset(subs, j)
  {
    if i + 1 < j {
      OffsetMono(subs, i, j - 1);
    }
  }

  lemma PartsApart(subs: seq<seq<Star.TableColumn>>, i: nat, j: nat)
    requires i < j < |subs| && Star.DistinctTables(Flatten(subs))
    ensures TableSet(subs[i]) * TableSet(subs[j]) == {}
  {
    forall t | t in TableSet(subs[i]) ensures t !in TableSet(subs[j]) {
      if t in TableSet(subs[j]) {
        var a, b := IndexOf(subs[i], t), IndexOf(subs[j], t);
        OffsetAt(subs, i, a);
        OffsetAt(subs, j, b);
        OffsetMono(subs, i, j);
        assert false;
      }
    }
  }

  lemma PartsSplit(db: Star.Database, sub: seq<Star.TableColumn>, maxSize: nat, parts: seq<Piece>)
    requires maxSize >= 3 && |sub| >= 2 && Star.DistinctTables(sub) && Looked(db, sub, maxSize, parts)
    ensures Partition(db, parts) && Whole(parts) == sub
  {
    var subs := SplitEntries(sub, maxSize);
    SplitParts(sub, maxSize);
    WholeIsFlat(parts, subs);
    PartsNumber(sub, maxSize);
    forall i, j | 0 <= i < j < |parts| ensures TwoStars(parts[i].sub, parts[j].sub) {
      PartsApart(subs, i, j);
    }
  }

  /**
   With star splitting a star is not underestimated iff it has at most twice `MaxStarSize` tables, or no result at all:
   beyond that its estimate is 0.
   */
  lemma SplitExactIff(db: Star.Database, sub: seq<Star.TableColumn>, maxSize: nat, parts: seq<Piece>, p: real)
    requires maxSize >= 3 && |sub| >= 2 && Star.DistinctTables(sub) && Looked(db, sub, maxSize, parts)
    ensures Partition(db, parts)
    ensures Enough(SplitCard(db, parts, p), Star.StarSize(db, sub)) <==> |sub| <= 2 * maxSize || Star.StarSize(db, sub) == 0
  {
    PartsSplit(db, sub, maxSize, parts);
    PartsNumber(sub, maxSize);
    PartsCard(db, parts, p);
  }
}

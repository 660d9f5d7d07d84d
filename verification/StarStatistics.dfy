/** The classes that collect and combine degree sequences. */
module StarStatistics {
  import opened RankBounds
  import opened DegreeSequences

  function BinsOf(buckets: seq<Slot>): (bins: seq<Bin>)
    ensures |bins| == |buckets|
    ensures forall i :: 0 <= i < |bins| ==> bins[i] == Bin(buckets[i].maxDegree, buckets[i].count)
  {
    seq(|buckets|, i requires 0 <= i < |buckets| => Bin(buckets[i].maxDegree, buckets[i].count))
  }

  function Reverse(s: seq<Slot>): seq<Slot> {
    if s == [] then [] else [s[|s| - 1]] + Reverse(s[..|s| - 1])
  }

  /** The buckets that `FinishCollection` does not erase. */
  function Keep(s: seq<Slot>): seq<Slot> {
    if s == [] then []
    else (if s[0].count == 0 || s[0].maxDegree == 0.0 then [] else [s[0]]) + Keep(s[1..])
  }

  lemma {:induction false} KeepReverse(s: seq<Slot>)
    ensures Keep(Reverse(s)) == Occupied(s)
  {
    if s != [] {
      KeepReverse(s[..|s| - 1]);
      assert Reverse(s)[1..] == Reverse(s[..|s| - 1]);
    }
  }

  /** The state of a walk along a sequence: `count` keys of degree `degree` in hand, the bins from `pos` on still to come. */
  function Remaining(bins: seq<Bin>, pos: nat, count: nat, degree: real): seq<Bin>
    requires pos <= |bins|
  {
    (if count > 0 then [Bin(degree, count)] else []) + bins[pos..]
  }

  /** The same state with at least one bin in hand, possibly an empty one. */
  function InHand(bins: seq<Bin>, pos: nat, count: nat, degree: real): seq<Bin>
    requires pos <= |bins|
  {
    [Bin(degree, count)] + bins[pos..]
  }

  lemma Load(bins: seq<Bin>, pos: nat, degree: real)
    requires pos < |bins|
    ensures Remaining(bins, pos, 0, degree) == InHand(bins, pos + 1, bins[pos].count, bins[pos].degree)
  {
  }

  lemma Spend(bins: seq<Bin>, pos: nat, count: nat, degree: real, c: nat)
    requires pos <= |bins| && c <= count
    ensures Advance(InHand(bins, pos, count, degree), c) == Remaining(bins, pos, count - c, degree)
  {
  }

  /** `done` and what is left to walk make up all the segments. */
  ghost predicate Walked(all: seq<Bin>, done: seq<Bin>, left: seq<Bin>, right: seq<Bin>) {
    done + Segments(left, right) == all
  }

  lemma WalkStep(all: seq<Bin>, done: seq<Bin>, left: seq<Bin>, right: seq<Bin>, c: nat, d: real)
    requires left != [] && right != [] && c == MinNat(left[0].count, right[0].count)
    requires d == left[0].degree * right[0].degree && Walked(all, done, left, right)
    ensures Walked(all, done + [Bin(d, c)], Advance(left, c), Advance(right, c))
    ensures |Advance(left, c)| + |Advance(right, c)| < |left| + |right|
  {
    var rest := Segments(Advance(left, c), Advance(right, c));
    assert Segments(left, right) == [Bin(d, c)] + rest;
    assert done + ([Bin(d, c)] + rest) == done + [Bin(d, c)] + rest;
  }

  lemma WalkTurn(all: seq<Bin>, done: seq<Bin>,
                 a: seq<Bin>, pos1: nat, count1: nat, degree1: real,
                 b: seq<Bin>, pos2: nat, count2: nat, degree2: real, c: nat, d: real)
    requires pos1 <= |a| && pos2 <= |b| && c == MinNat(count1, count2) && d == degree1 * degree2
    requires Walked(all, done, InHand(a, pos1, count1, degree1), InHand(b, pos2, count2, degree2))
    ensures Walked(all, done + [Bin(d, c)],
                   Remaining(a, pos1, count1 - c, degree1), Remaining(b, pos2, count2 - c, degree2))
    ensures |Remaining(a, pos1, count1 - c, degree1)| + |Remaining(b, pos2, count2 - c, degree2)| <
            |InHand(a, pos1, count1, degree1)| + |InHand(b, pos2, count2, degree2)|
  {
    WalkStep(all, done, InHand(a, pos1, count1, degree1), InHand(b, pos2, count2, degree2), c, d);
    Spend(a, pos1, count1, degree1, c);
    Spend(b, pos2, count2, degree2, c);
  }

  lemma WalkEnd(all: seq<Bin>, done: seq<Bin>, left: seq<Bin>, right: seq<Bin>)
    requires (left == [] || right == []) && Walked(all, done, left, right)
    ensures done == all
  {
    assert Segments(left, right) == [];
    assert done + [] == done;
  }

  lemma KeepStep(s: seq<Slot>, i: nat)
    requires i < |s|
    ensures s[..i] + Keep(s[i..]) ==
            if s[i].count == 0 || s[i].maxDegree == 0.0 then s[..i] + Keep(s[i + 1..]) else s[..i + 1] + Keep(s[i + 1..])
  {
    assert s[i..][1..] == s[i + 1..];
    if s[i].count != 0 && s[i].maxDegree != 0.0 {
      assert s[..i] + ([s[i]] + Keep(s[i + 1..])) == s[..i + 1] + Keep(s[i + 1..]);
    }
  }

  lemma {:induction false} CardSnoc(bins: seq<Bin>, b: Bin)
    ensures Card(bins + [b]) == Card(bins) + Times(b.count, b.degree)
  {
    if bins == [] {
      assert bins + [b] == [b];
      assert Card([b]) == Times(b.count, b.degree) + Card([]);
    } else {
      assert (bins + [b])[1..] == bins[1..] + [b];
      CardSnoc(bins[1..], b);
    }
  }

  /** The next bin is taken when nothing of the last one is left. */
  method Refill(bins: seq<Bin>, pos: nat, count: nat, degree: real) returns (found: bool, pos': nat, count': nat, degree': real)
    requires pos <= |bins|
    ensures found <==> Remaining(bins, pos, count, degree) != []
    ensures pos' <= |bins| && (found ==> InHand(bins, pos', count', degree') == Remaining(bins, pos, count, degree))
  {
    found, pos', count', degree' := true, pos, count, degree;
    if count == 0 {
      if pos >= |bins| {
        found := false;
      } else {
        Load(bins, pos, degree);
        pos', count', degree' := pos + 1, bins[pos].count, bins[pos].degree;
      }
    }
  }

  /** The ranks that both bins in hand have, and the product of their degrees. */
  method Meet(ghost all: seq<Bin>, ghost done: seq<Bin>,
              ghost a: seq<Bin>, ghost pos1: nat, count1: nat, degree1: real,
              ghost b: seq<Bin>, ghost pos2: nat, count2: nat, degree2: real)
    returns (count: nat, degree: real)
    requires pos1 <= |a| && pos2 <= |b|
    requires Walked(all, done, InHand(a, pos1, count1, degree1), InHand(b, pos2, count2, degree2))
    ensures count == MinNat(count1, count2)
    ensures Walked(all, done + [Bin(degree, count)],
                   Remaining(a, pos1, count1 - count, degree1), Remaining(b, pos2, count2 - count, degree2))
    ensures |Remaining(a, pos1, count1 - count, degree1)| + |Remaining(b, pos2, count2 - count, degree2)| <
            |InHand(a, pos1, count1, degree1)| + |InHand(b, pos2, count2, degree2)|
  {
    count, degree := MinNat(count1, count2), degree1 * degree2;
    WalkTurn(all, done, a, pos1, count1, degree1, b, pos2, count2, degree2, count, degree);
  }

  /** A degree sequence; its parallel vectors are one vector of buckets, with `sum` 0 once finished. */
  class DegreeSequence {
    var buckets: seq<Slot>

    ghost function Bins(): seq<Bin>
      reads this
    {
      BinsOf(buckets)
    }

    constructor ()
      ensures buckets == []
    {
      buckets := [];
    }

    method AddDegree(degree: real, count: nat, precision: real)
      modifies this
      ensures buckets == AddTo(old(buckets), degree, count, precision)
    {
      var pos := Bucket(degree, precision);
      if pos >= |buckets| {
        buckets := buckets + seq(pos + 1 - |buckets|, i => Slot(0.0, 0, 0.0));
      }
      assert buckets == Grow(old(buckets), pos + 1);
      TimesIsProduct(count, degree);
      var b := buckets[pos];
      buckets := buckets[pos := Slot(Max(b.maxDegree, degree), b.count + count, b.sum + degree * count as real)];
    }

    /** Removes the elements with zero count. */
    method EraseEmpty()
      modifies this
      ensures buckets == Keep(old(buckets))
    {
      var i := 0;
      while i < |buckets|
        invariant 0 <= i <= |buckets|
        invariant buckets[..i] + Keep(buckets[i..]) == Keep(old(buckets))
        decreases |buckets| - i
      {
        KeepStep(buckets, i);
        if buckets[i].count == 0 || buckets[i].maxDegree == 0.0 {
          ghost var before := buckets;
          buckets := buckets[..i] + buckets[i + 1..];
          assert buckets[..i] == before[..i] && buckets[i..] == before[i + 1..];
        } else {
          i := i + 1;
        }
      }
      assert buckets[..i] + Keep(buckets[i..]) == buckets;
    }

    /** Tightens the counts to what the sums need. */
    method CorrectCounts()
      requires forall j :: 0 <= j < |buckets| ==> buckets[j].maxDegree != 0.0
      modifies this
      ensures Bins() == TightenAll(old(buckets))
    {
      var i := 0;
      while i < |buckets|
        invariant 0 <= i <= |buckets| == |old(buckets)|
        invariant forall j :: i <= j < |buckets| ==> buckets[j] == old(buckets)[j]
        invariant forall j :: 0 <= j < i ==> Bin(buckets[j].maxDegree, buckets[j].count) == Tighten(old(buckets)[j])
      {
        var b := buckets[i];
        var adjusted := Ceil(b.sum / b.maxDegree);
        buckets := buckets[i := Slot(b.maxDegree, Clip(b.count, adjusted), 0.0)];
        i := i + 1;
      }
    }

    method FinishCollection()
      modifies this
      ensures Bins() == Finish(old(buckets))
    {
      KeepReverse(buckets);
      buckets := Reverse(buckets);
      EraseEmpty();
      CorrectCounts();
    }

    method GetCard() returns (card: real)
      ensures card == Card(Bins())
    {
      card := 0.0;
      for i := 0 to |buckets|
        invariant card == Card(Bins()[..i])
      {
        assert Bins()[..i + 1] == Bins()[..i] + [Bins()[i]];
        CardSnoc(Bins()[..i], Bins()[i]);
        TimesIsProduct(buckets[i].count, buckets[i].maxDegree);
        card := card + buckets[i].count as real * buckets[i].maxDegree;
      }
      assert Bins()[..|buckets|] == Bins();
    }

    method Dot(other: DegreeSequence, precision: real) returns (result: DegreeSequence)
      ensures fresh(result) && result.Bins() == DotBins(Bins(), other.Bins(), precision)
    {
      result := new DegreeSequence();
      var a, b := BinsOf(buckets), BinsOf(other.buckets);
      ghost var all, done: seq<Bin> := Segments(a, b), [];
      var pos1: nat, pos2: nat, count1: nat, count2: nat := 0, 0, 0, 0;
      var degree1, degree2 := 0.0, 0.0;
      ghost var left, right := a, b;
      assert done + all == all;
      while true
        invariant pos1 <= |a| && pos2 <= |b| && fresh(result)
        invariant result.buckets == AddAll([], done, precision)
        invariant left == Remaining(a, pos1, count1, degree1) && right == Remaining(b, pos2, count2, degree2)
        invariant Walked(all, done, left, right)
        decreases |left| + |right|
      {
        var found1: bool, found2: bool;
        found1, pos1, count1, degree1 := Refill(a, pos1, count1, degree1);
        if !found1 {
          WalkEnd(all, done, left, right);
          break;
        }
        found2, pos2, count2, degree2 := Refill(b, pos2, count2, degree2);
        if !found2 {
          WalkEnd(all, done, left, right);
          break;
        }
        var count, degree := Meet(all, done, a, pos1, count1, degree1, b, pos2, count2, degree2);
        AddAllSnoc([], done, Bin(degree, count), precision);
        result.AddDegree(degree, count, precision);
        count1, count2 := count1 - count, count2 - count;
        done := done + [Bin(degree, count)];
        left, right := Remaining(a, pos1, count1, degree1), Remaining(b, pos2, count2, degree2);
      }
      result.FinishCollection();
    }
  }
}

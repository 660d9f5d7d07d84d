/** How closely a compressed degree sequence follows the degrees it was made from. */
module DegreePrecision {
  import opened RankBounds
  import opened DegreeSequences

  // ---- Which degrees share a bucket ----

  /** Above 1, a bucket holds the degrees up to a power of the precision and above the power before. */
  lemma BucketIff(d: real, p: real, b: nat)
    requires p > 1.0 && d > 1.0
    ensures Bucket(d, p) == b <==> b >= 1 && Pow(p, b - 1) < d <= Pow(p, b)
  {
    var r := Bucket(d, p);
    assert Pow(p, r) >= d;
    assert Pow(p, 0) == 1.0;
    assert r >= 1;
    assert Pow(p, r - 1) < d;
    if b >= 1 && Pow(p, b - 1) < d <= Pow(p, b) {
      if r < b {
        PowMono(p, r, b - 1);
      }
    }
  }

  /** Degrees up to 1 go to the first bucket, and so do all if the precision says nothing. */
  lemma BucketZeroIff(d: real, p: real)
    ensures Bucket(d, p) == 0 <==> d <= 1.0 || p <= 1.0
  {
    if d > 1.0 && p > 1.0 {
      BucketIff(d, p, 0);
    }
  }

  // ---- What a bucket holds ----

  function KeysIn(items: seq<Bin>, p: real, b: nat): nat {
    if items == [] then 0
    else KeysIn(items[..|items| - 1], p, b) + if Bucket(items[|items| - 1].degree, p) == b then items[|items| - 1].count else 0
  }

  function MassIn(items: seq<Bin>, p: real, b: nat): real {
    if items == [] then 0.0
    else
      var last := items[|items| - 1];
      MassIn(items[..|items| - 1], p, b) + if Bucket(last.degree, p) == b then Times(last.count, last.degree) else 0.0
  }

  function LargestIn(items: seq<Bin>, p: real, b: nat): real {
    if items == [] then 0.0
    else
      var last := items[|items| - 1];
      var before := LargestIn(items[..|items| - 1], p, b);
      if Bucket(last.degree, p) == b && last.degree > before then last.degree else before
  }

  function SlotAt(slots: seq<Slot>, b: nat): Slot {
    if b < |slots| then slots[b] else Slot(0.0, 0, 0.0)
  }

  function Belonging(items: seq<Bin>, p: real, b: nat): Slot {
    Slot(LargestIn(items, p, b), KeysIn(items, p, b), MassIn(items, p, b))
  }

  lemma BelongingNext(items: seq<Bin>, x: Bin, p: real, b: nat)
    ensures Belonging(items + [x], p, b) ==
            if Bucket(x.degree, p) == b then Merge(Belonging(items, p, b), x.degree, x.count) else Belonging(items, p, b)
  {
    assert (items + [x])[..|items|] == items;
  }

  lemma SlotNext(slots: seq<Slot>, items: seq<Bin>, x: Bin, p: real, b: nat)
    requires SlotAt(slots, b) == Belonging(items, p, b)
    ensures SlotAt(AddTo(slots, x.degree, x.count, p), b) == Belonging(items + [x], p, b)
  {
    SlotAfter(slots, x, p, b);
    BelongingNext(items, x, p, b);
  }

  lemma {:induction false} SlotBelongs(items: seq<Bin>, p: real, b: nat)
    ensures SlotAt(AddAll([], items, p), b) == Belonging(items, p, b)
  {
    if items != [] {
      var k := |items| - 1;
      SlotBelongs(items[..k], p, b);
      assert items == items[..k] + [items[k]];
      AddAllSnoc([], items[..k], items[k], p);
      SlotNext(AddAll([], items[..k], p), items[..k], items[k], p, b);
    }
  }

  /** A bucket has the keys whose degrees belong there, their mass and the largest of them. */
  lemma SlotHolds(items: seq<Bin>, p: real, b: nat)
    ensures SlotAt(AddAll([], items, p), b) == Slot(LargestIn(items, p, b), KeysIn(items, p, b), MassIn(items, p, b))
  {
    SlotBelongs(items, p, b);
  }

  lemma SlotAfter(slots: seq<Slot>, x: Bin, p: real, b: nat)
    ensures SlotAt(AddTo(slots, x.degree, x.count, p), b) ==
            if Bucket(x.degree, p) == b then Merge(SlotAt(slots, b), x.degree, x.count) else SlotAt(slots, b)
  {
  }

  // ---- No key is moved up by more than the precision ----

  /** How many keys have a degree above `t`. */
  function KeysAbove(bins: seq<Bin>, t: real): nat {
    if bins == [] then 0 else (if bins[0].degree > t then bins[0].count else 0) + KeysAbove(bins[1..], t)
  }

  lemma {:induction false} KeysAboveAppend(a: seq<Bin>, b: seq<Bin>, t: real)
    ensures KeysAbove(a + b, t) == KeysAbove(a, t) + KeysAbove(b, t)
  {
    if a == [] {
      assert a + b == b;
    } else {
      assert (a + b)[1..] == a[1..] + b;
      KeysAboveAppend(a[1..], b, t);
    }
  }

  /** The keys in the first `n` buckets whose upper power is above `t`. */
  function KeysTo(slots: seq<Slot>, p: real, t: real, n: nat): nat
    requires n <= |slots|
  {
    if n == 0 then 0 else KeysTo(slots, p, t, n - 1) + if Pow(p, n - 1) > t then slots[n - 1].count else 0
  }

  lemma {:induction false} KeysPadded(slots: seq<Slot>, m: nat, p: real, t: real, n: nat)
    requires n <= |Grow(slots, m)|
    ensures KeysTo(Grow(slots, m), p, t, n) == KeysTo(slots, p, t, if n <= |slots| then n else |slots|)
  {
    if n > 0 {
      KeysPadded(slots, m, p, t, n - 1);
    }
  }

  lemma {:induction false} KeysUpdate(slots: seq<Slot>, pos: nat, s: Slot, p: real, t: real, n: nat)
    requires pos < |slots| && n <= |slots| && s.count >= slots[pos].count
    ensures KeysTo(slots[pos := s], p, t, n) ==
            KeysTo(slots, p, t, n) + if pos < n && Pow(p, pos) > t then s.count - slots[pos].count else 0
  {
    if n > 0 {
      KeysUpdate(slots, pos, s, p, t, n - 1);
    }
  }

  lemma AddKeys(slots: seq<Slot>, x: Bin, p: real, t: real)
    ensures var after := AddTo(slots, x.degree, x.count, p);
            KeysTo(after, p, t, |after|) == KeysTo(slots, p, t, |slots|) + if Pow(p, Bucket(x.degree, p)) > t then x.count else 0
  {
    var pos := Bucket(x.degree, p);
    var grown := Grow(slots, pos + 1);
    KeysPadded(slots, pos + 1, p, t, |grown|);
    KeysUpdate(grown, pos, Merge(grown[pos], x.degree, x.count), p, t, |grown|);
  }

  /** A bucket that reaches above `p * t` holds degrees above `t` only. */
  lemma BucketAbove(d: real, p: real, t: real)
    requires p > 1.0 && t >= 1.0 && Pow(p, Bucket(d, p)) > p * t
    ensures d > t
  {
    var b := Bucket(d, p);
    PowAbove(p, t, b);
    BucketZeroIff(d, p);
    BucketIff(d, p, b);
  }

  lemma PowAbove(p: real, t: real, b: nat)
    requires p > 1.0 && t >= 1.0 && Pow(p, b) > p * t
    ensures b >= 1 && Pow(p, b - 1) > t
  {
    if b == 0 {
      MulMono(p, 1.0, t);
    } else if Pow(p, b - 1) <= t {
      MulMono(p, Pow(p, b - 1), t);
    }
  }

  /** One more item, which is counted above `p * t` only if it is above `t`. */
  lemma MoreKeys(slots: seq<Slot>, items: seq<Bin>, x: Bin, p: real, t: real, high: real)
    requires p > 1.0 && t >= 1.0 && high == p * t && KeysTo(slots, p, high, |slots|) <= KeysAbove(items, t)
    ensures var after := AddTo(slots, x.degree, x.count, p);
            KeysTo(after, p, high, |after|) <= KeysAbove(items + [x], t)
  {
    AddKeys(slots, x, p, high);
    KeysAboveAppend(items, [x], t);
    OneAbove(x, t);
    if Pow(p, Bucket(x.degree, p)) > high {
      BucketAbove(x.degree, p, t);
    }
  }

  lemma {:induction false} CollectedKeys(items: seq<Bin>, p: real, t: real, high: real)
    requires p > 1.0 && t >= 1.0 && high == p * t
    ensures KeysTo(AddAll([], items, p), p, high, |AddAll([], items, p)|) <= KeysAbove(items, t)
  {
    if items != [] {
      var k := |items| - 1;
      CollectedKeys(items[..k], p, t, high);
      assert items == items[..k] + [items[k]];
      AddAllSnoc([], items[..k], items[k], p);
      MoreKeys(AddAll([], items[..k], p), items[..k], items[k], p, t, high);
    }
  }

  lemma OneAbove(x: Bin, t: real)
    ensures KeysAbove([x], t) == if x.degree > t then x.count else 0
  {
    assert [x][1..] == [];
  }

  /** No bucket's largest degree is above its power. */
  lemma LargestFits(slots: seq<Slot>, p: real, i: nat)
    requires p > 1.0 && Placed(slots, p) && i < |slots|
    ensures slots[i].maxDegree <= Pow(p, i)
  {
    PowMono(p, 0, i);
    var d := slots[i].maxDegree;
    if d > 1.0 {
      BucketIff(d, p, i);
    }
  }

  lemma {:induction false} FinishedKeys(slots: seq<Slot>, p: real, t: real)
    requires p > 1.0 && Placed(slots, p)
    ensures KeysAbove(Finish(slots), t) <= KeysTo(slots, p, t, |slots|)
    decreases |slots|
  {
    if slots != [] {
      var n := |slots| - 1;
      FinishedKeys(slots[..n], p, t);
      KeysPrefix(slots, slots[..n], p, t, n);
      LargestFits(slots, p, n);
      LastKeys(slots, slots[n], slots[..n], t);
    }
  }

  lemma LastKeys(slots: seq<Slot>, last: Slot, rest: seq<Slot>, t: real)
    requires slots == rest + [last]
    ensures KeysAbove(Finish(slots), t) <= KeysAbove(Finish(rest), t) + if last.maxDegree > t then last.count else 0
  {
    if last.count != 0 && last.maxDegree != 0.0 {
      FinishCons(slots, last, rest);
      KeysAboveAppend([Tighten(last)], Finish(rest), t);
      OneAbove(Tighten(last), t);
    } else {
      assert slots[..|slots| - 1] == rest;
      assert Occupied(slots) == Occupied(rest);
    }
  }

  lemma FinishCons(slots: seq<Slot>, last: Slot, rest: seq<Slot>)
    requires slots == rest + [last] && last.count != 0 && last.maxDegree != 0.0
    ensures Finish(slots) == [Tighten(last)] + Finish(rest)
  {
    assert slots[..|slots| - 1] == rest;
    assert Occupied(slots) == [last] + Occupied(rest);
    assert ([last] + Occupied(rest))[1..] == Occupied(rest);
  }

  lemma {:induction false} KeysPrefix(slots: seq<Slot>, rest: seq<Slot>, p: real, t: real, n: nat)
    requires n <= |rest| <= |slots| && rest == slots[..|rest|]
    ensures KeysTo(slots, p, t, n) == KeysTo(rest, p, t, n)
  {
    if n > 0 {
      KeysPrefix(slots, rest, p, t, n - 1);
    }
  }

  /** Of the compressed keys no more are above `p * t` than of the given ones are above `t`. */
  lemma CompressKeys(items: seq<Bin>, p: real, t: real)
    requires p > 1.0 && t >= 1.0 && Countable(items)
    ensures KeysAbove(Compress(items, p), p * t) <= KeysAbove(items, t)
  {
    AddAllPlaced([], items, p);
    CollectedKeys(items, p, t, p * t);
    FinishedKeys(AddAll([], items, p), p, p * t);
  }

  /** `dot` keeps to the products of the degrees in the same way. */
  lemma DotKeys(a: seq<Bin>, b: seq<Bin>, p: real, t: real)
    requires p > 1.0 && t >= 1.0 && Countable(Segments(a, b))
    ensures KeysAbove(DotBins(a, b, p), p * t) <= KeysAbove(Segments(a, b), t)
  {
    CompressKeys(Segments(a, b), p, t);
  }

  // ---- Less than one degree of mass is added per bin ----

  function MassTo(slots: seq<Slot>, n: nat): real
    requires n <= |slots|
  {
    if n == 0 then 0.0 else MassTo(slots, n - 1) + slots[n - 1].sum
  }

  lemma {:induction false} MassPadded(slots: seq<Slot>, m: nat, n: nat)
    requires n <= |Grow(slots, m)|
    ensures MassTo(Grow(slots, m), n) == MassTo(slots, if n <= |slots| then n else |slots|)
  {
    if n > 0 {
      MassPadded(slots, m, n - 1);
    }
  }

  lemma {:induction false} MassUpdate(slots: seq<Slot>, pos: nat, s: Slot, n: nat)
    requires pos < |slots| && n <= |slots|
    ensures MassTo(slots[pos := s], n) == MassTo(slots, n) + if pos < n then s.sum - slots[pos].sum else 0.0
  {
    if n > 0 {
      MassUpdate(slots, pos, s, n - 1);
    }
  }

  lemma {:induction false} CollectedMass(slots: seq<Slot>, items: seq<Bin>, p: real)
    ensures MassTo(AddAll(slots, items, p), |AddAll(slots, items, p)|) == MassTo(slots, |slots|) + Card(items)
    decreases |items|
  {
    if items != [] {
      var x := items[0];
      var pos := Bucket(x.degree, p);
      var grown := Grow(slots, pos + 1);
      MassPadded(slots, pos + 1, |grown|);
      MassUpdate(grown, pos, Merge(grown[pos], x.degree, x.count), |grown|);
      CollectedMass(AddTo(slots, x.degree, x.count, p), items[1..], p);
    }
  }

  function DegreeSum(bins: seq<Bin>): real {
    if bins == [] then 0.0 else bins[0].degree + DegreeSum(bins[1..])
  }

  lemma QuotientBack(x: real, d: real)
    requires d > 0.0
    ensures x / d * d == x
  {
  }

  lemma ScaledBelow(x: real, y: real, d: real)
    requires x < y && d > 0.0
    ensures x * d < y * d
  {
  }

  lemma OneMoreTimes(q: real, d: real)
    ensures (q + 1.0) * d == q * d + d
  {
  }

  lemma CountedBelow(c: nat, x: real, d: real)
    requires d > 0.0 && x >= 0.0 && (c == 0 || c <= Ceil(x / d))
    ensures Times(c, d) < x + d
  {
    var q := x / d;
    QuotientBack(x, d);
    assert q >= 0.0;
    assert Ceil(q) as real < q + 1.0;
    ScaledBelow(c as real, q + 1.0, d);
    OneMoreTimes(q, d);
    TimesIsProduct(c, d);
  }

  /** The correction leaves less than one more key than the mass needs. */
  lemma TightenedMass(s: Slot)
    requires s.maxDegree > 0.0 && s.sum >= 0.0
    ensures Times(Tighten(s).count, s.maxDegree) < s.sum + s.maxDegree
  {
    CountedBelow(Tighten(s).count, s.sum, s.maxDegree);
  }

  /** The bins hold the given mass, and less than one degree of each more. */
  ghost predicate Covers(bins: seq<Bin>, mass: real) {
    Card(bins) <= mass + DegreeSum(bins) && (bins != [] ==> Card(bins) < mass + DegreeSum(bins))
  }

  lemma CoversCons(b: Bin, rest: seq<Bin>, mass: real, sum: real)
    requires Covers(rest, mass) && Times(b.count, b.degree) < sum + b.degree
    ensures Covers([b] + rest, mass + sum)
  {
    MassCons(b, rest);
  }

  lemma LastSlot(slots: seq<Slot>, last: Slot, rest: seq<Slot>, p: real)
    requires Placed(slots, p) && slots == rest + [last] && Covers(Finish(rest), MassTo(rest, |rest|))
    ensures Covers(Finish(slots), MassTo(rest, |rest|) + last.sum)
  {
    assert last == slots[|rest|];
    if last.count != 0 && last.maxDegree != 0.0 {
      FinishCons(slots, last, rest);
      TightenedMass(last);
      CoversCons(Tighten(last), Finish(rest), MassTo(rest, |rest|), last.sum);
    } else {
      assert slots[..|slots| - 1] == rest;
      assert Occupied(slots) == Occupied(rest);
    }
  }

  lemma {:induction false} FinishedMass(slots: seq<Slot>, p: real)
    requires Placed(slots, p)
    ensures Covers(Finish(slots), MassTo(slots, |slots|))
    decreases |slots|
  {
    if slots != [] {
      var n := |slots| - 1;
      FinishedMass(slots[..n], p);
      MassPrefix(slots, slots[..n], n);
      LastSlot(slots, slots[n], slots[..n], p);
    }
  }

  lemma MassCons(b: Bin, rest: seq<Bin>)
    ensures Card([b] + rest) == Times(b.count, b.degree) + Card(rest) && DegreeSum([b] + rest) == b.degree + DegreeSum(rest)
  {
    assert ([b] + rest)[1..] == rest;
  }

  lemma {:induction false} MassPrefix(slots: seq<Slot>, rest: seq<Slot>, n: nat)
    requires n <= |rest| <= |slots| && rest == slots[..|rest|]
    ensures MassTo(slots, n) == MassTo(rest, n)
  {
    if n > 0 {
      MassPrefix(slots, rest, n - 1);
    }
  }

  /** At any precision, the stored mass exceeds the given one by less than one degree of every stored bin. */
  lemma CompressMass(items: seq<Bin>, p: real)
    requires Countable(items)
    ensures Card(Compress(items, p)) <= Card(items) + DegreeSum(Compress(items, p))
    ensures Compress(items, p) != [] ==> Card(Compress(items, p)) < Card(items) + DegreeSum(Compress(items, p))
  {
    AddAllPlaced([], items, p);
    CollectedMass([], items, p);
    FinishedMass(AddAll([], items, p), p);
  }
}

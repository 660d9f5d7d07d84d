/** From the rows of the shared table to tuples, and from tuples to the rows of another table. */
module MergeRows {
  import opened Sums
  import opened RankBounds
  import opened DegreeSequences
  import opened CardLimit
  import opened MergeSpread
  import opened MergeChunks
  import R = RealSums

  /** How many elements have each key below `n`. */
  function Degrees<A>(s: seq<A>, key: A -> int, n: nat): (xs: seq<real>)
    ensures |xs| == n && forall r :: 0 <= r < n ==> xs[r] == Multiplicity(s, key, r) as real
  {
    seq(n, r requires 0 <= r < n => Multiplicity(s, key, r) as real)
  }

  /** The value at the key of an element. */
  function WeightAt<A>(key: A -> int, ys: seq<real>): A -> real {
    x => if 0 <= key(x) < |ys| then ys[key(x)] else 0.0
  }

  function Numbers(n: nat): (ks: seq<int>)
    ensures |ks| == n && forall i :: 0 <= i < n ==> ks[i] == i
  {
    seq(n, i requires 0 <= i < n => i)
  }

  function OverAt(ys: seq<real>, t: real): int -> real {
    r => if 0 <= r < |ys| then Over(ys[r], t) else 0.0
  }

  lemma {:induction false} SumNumbers(n: nat, f: int -> real, xs: seq<real>, k: nat)
    requires k <= n == |xs| && forall i :: 0 <= i < n ==> xs[i] == f(i)
    ensures R.Sum(Numbers(n)[k..], f) == SumTo(xs, n) - SumTo(xs, k)
    decreases n - k
  {
    if k < n {
      SumNumbers(n, f, xs, k + 1);
      assert Numbers(n)[k..][1..] == Numbers(n)[k + 1..];
      assert SumTo(xs, k + 1) == SumTo(xs, k) + xs[k];
    }
  }

  lemma ProductIsTimes(m: nat, x: real, a: real, b: real, p: real)
    requires a == m as real && b == x && p == a * b
    ensures p == Times(m, x)
  {
    TimesIsProduct(m, x);
  }

  lemma RowProduct<A>(s: seq<A>, key: A -> int, ys: seq<real>, t: real, xs: seq<real>, os: seq<real>, zs: seq<real>, r: int)
    requires 0 <= r < |ys| == |xs| == |os| == |zs| && xs[r] == Multiplicity(s, key, r) as real && os[r] == Over(ys[r], t)
    requires zs[r] == xs[r] * os[r]
    ensures zs[r] == R.Weighted(s, key, OverAt(ys, t))(r)
  {
    ProductIsTimes(Multiplicity(s, key, r), Over(ys[r], t), xs[r], os[r], zs[r]);
  }

  ghost predicate IsProduct(zs: seq<real>, xs: seq<real>, os: seq<real>) {
    |xs| == |os| == |zs| && forall r :: 0 <= r < |zs| ==> zs[r] == xs[r] * os[r]
  }

  lemma ProductIs(xs: seq<real>, os: seq<real>)
    requires |xs| == |os|
    ensures IsProduct(Product(xs, os), xs, os)
  {
  }

  /** The products of degrees and weights, by key. */
  lemma SumByRow<A>(s: seq<A>, key: A -> int, ys: seq<real>, t: real, xs: seq<real>, os: seq<real>, zs: seq<real>)
    requires xs == Degrees(s, key, |ys|) && os == Overs(ys, t) && IsProduct(zs, xs, os)
    ensures R.Sum(Numbers(|ys|), R.Weighted(s, key, OverAt(ys, t))) == SumTo(zs, |ys|)
  {
    var n, f := |ys|, R.Weighted(s, key, OverAt(ys, t));
    assert forall r :: 0 <= r < n ==> zs[r] == f(r) by {
      forall r | 0 <= r < n ensures zs[r] == f(r) {
        RowProduct(s, key, ys, t, xs, os, zs, r);
      }
    }
    SumNumbers(n, f, zs, 0);
    assert Numbers(n)[0..] == Numbers(n);
  }

  lemma WeightsOver<A>(s: seq<A>, key: A -> int, ys: seq<real>, t: real)
    requires t >= 0.0
    ensures OverTo(R.Values(s, WeightAt(key, ys)), t, |s|) == R.Sum(s, R.After(OverAt(ys, t), key))
  {
    R.OverSum(s, WeightAt(key, ys), t);
    R.SumCong(s, R.OverOf(WeightAt(key, ys), t), R.After(OverAt(ys, t), key));
  }

  lemma ByNumber<A>(s: seq<A>, key: A -> int, n: nat, f: int -> real)
    requires forall x :: x in s ==> 0 <= key(x) < n
    ensures R.Sum(s, R.After(f, key)) == R.Sum(Numbers(n), R.Weighted(s, key, f))
  {
    var ks := Numbers(n);
    forall x | x in s ensures key(x) in ks {
      assert ks[key(x)] == key(x);
    }
    R.SumByKey(s, key, ks, f);
  }

  /** The tuples' weights above `t`, added up by the key. */
  lemma TuplesByKey<A>(s: seq<A>, key: A -> int, ys: seq<real>, t: real, zs: seq<real>)
    requires (forall x :: x in s ==> 0 <= key(x) < |ys|) && t >= 0.0 && IsProduct(zs, Degrees(s, key, |ys|), Overs(ys, t))
    ensures OverTo(R.Values(s, WeightAt(key, ys)), t, |s|) == SumTo(zs, |ys|)
  {
    WeightsOver(s, key, ys, t);
    ByNumber(s, key, |ys|, OverAt(ys, t));
    SumByRow(s, key, ys, t, Degrees(s, key, |ys|), Overs(ys, t), zs);
  }

  lemma {:induction false} ChunkDescends(a: seq<Bin>, b: seq<Bin>, bound: real)
    requires EdgeOk(a) && EdgeOk(b) && forall i :: 0 <= i < |b| ==> b[i].degree <= bound
    ensures IsChunks(ChunkBins(a, b), bound)
    decreases |a| + |b|
  {
    if a != [] && b != [] {
      var c := MinNat(a[0].count, b[0].count);
      AdvanceOk(a, c);
      AdvanceOk(b, c);
      AdvanceBelow(b, c);
      ChunkDescends(Advance(a, c), Advance(b, c), b[0].degree);
      NatOfWhole(a[0].degree);
      PositiveProduct(c, NatOf(a[0].degree));
      ChunkCons(Bin(b[0].degree, c * NatOf(a[0].degree)), ChunkBins(Advance(a, c), Advance(b, c)), bound);
    }
  }

  ghost predicate IsChunks(bins: seq<Bin>, bound: real) {
    && Proper(bins) && Counted(bins) && Integral(bins) && Positive(bins)
    && forall i :: 0 <= i < |bins| ==> bins[i].degree <= bound
  }

  lemma ChunkCons(b: Bin, bins: seq<Bin>, bound: real)
    requires b.count > 0 && b.degree > 0.0 && Whole(b.degree) && b.degree <= bound && IsChunks(bins, b.degree)
    ensures IsChunks([b] + bins, bound)
  {
  }

  lemma AdvanceBelow(b: seq<Bin>, c: nat)
    requires Proper(b) && b != [] && c <= b[0].count
    ensures forall i :: 0 <= i < |Advance(b, c)| ==> Advance(b, c)[i].degree <= b[0].degree
  {
  }

  lemma PositiveProduct(c: nat, k: nat)
    requires c > 0 && k > 0
    ensures c * k > 0
  {
  }

  lemma EdgeBound(b: seq<Bin>) returns (bound: real)
    requires Proper(b)
    ensures forall i :: 0 <= i < |b| ==> b[i].degree <= bound
  {
    bound := if b == [] then 0.0 else b[0].degree;
  }

  /** The chunks dominate the weights that the right side gives to the tuples of the left. */
  lemma ChunksDominate<A>(s: seq<A>, key: A -> int, a: seq<Bin>, b: seq<Bin>, ys: seq<real>)
    requires EdgeOk(a) && EdgeOk(b) && (forall x :: x in s ==> 0 <= key(x) < |ys|) && forall i :: 0 <= i < |ys| ==> ys[i] >= 0.0
    requires Dominates(Expand(a), Degrees(s, key, |ys|)) && Dominates(Expand(b), ys)
    ensures Dominates(Expand(ChunkBins(a, b)), R.Values(s, WeightAt(key, ys)))
  {
    var bins, ws := ChunkBins(a, b), R.Values(s, WeightAt(key, ys));
    var bound := EdgeBound(b);
    ChunkDescends(a, b, bound);
    ExpandDescending(bins);
    forall t | t >= 0.0 ensures OverTo(ws, t, |ws|) <= OverTo(Expand(bins), t, |Expand(bins)|) {
      var xs, os := Degrees(s, key, |ys|), Overs(ys, t);
      ProductIs(xs, os);
      TuplesByKey(s, key, ys, t, Product(xs, os));
      ThresholdProduct(a, b, Degrees(s, key, |ys|), ys, t);
      ExpandOver(bins, t);
    }
    ExceedsDominates(Expand(bins), ws);
  }

  // ---- The weight of the first tuples ----

  lemma {:induction false} ValuePrefix(bins: seq<Bin>, n: nat)
    requires Counted(bins)
    ensures Value(ChunksOf(bins), n as real) == Prefix(Expand(bins), n)
  {
    if bins == [] {
      PrefixEmpty(n);
    } else {
      var d, c := bins[0].degree, bins[0].count;
      assert ChunksOf(bins)[1..] == ChunksOf(bins[1..]);
      if n <= c {
        PrefixInRun(d, c, Expand(bins[1..]), n);
        TimesIsProduct(n, d);
      } else {
        ValuePrefix(bins[1..], n - c);
        PrefixAfterRun(d, c, Expand(bins[1..]), n - c);
        TimesIsProduct(c, d);
        assert n as real - c as real == (n - c) as real;
      }
    }
  }

  lemma ChunksWhole(bins: seq<Bin>)
    requires Counted(bins) && Integral(bins) && Positive(bins)
    ensures WholeChunks(ChunksOf(bins))
  {
    forall i | 0 <= i < |bins| ensures Whole(ChunksOf(bins)[i].rows) {
      assert bins[i].count as real == IntReal(bins[i].count);
    }
  }

  // ---- The tuples of some rows ----

  /** The positions of the elements with key `u` among the first `k`. */
  function Positions<A>(s: seq<A>, key: A -> int, u: int, k: nat): seq<nat>
    requires k <= |s|
  {
    if k == 0 then [] else Positions(s, key, u, k - 1) + if key(s[k - 1]) == u then [k - 1] else []
  }

  /** The sum of `f` over the elements with key `u`. */
  function Gather<A>(s: seq<A>, key: A -> int, f: A -> real, u: int, k: nat): real
    requires k <= |s|
  {
    if k == 0 then 0.0 else Gather(s, key, f, u, k - 1) + if key(s[k - 1]) == u then f(s[k - 1]) else 0.0
  }

  function CountTo<A>(s: seq<A>, key: A -> int, u: int, k: nat): nat
    requires k <= |s|
  {
    if k == 0 then 0 else CountTo(s, key, u, k - 1) + if key(s[k - 1]) == u then 1 else 0
  }

  lemma {:induction false} CountToIsMultiplicity<A>(s: seq<A>, key: A -> int, u: int, k: nat)
    requires k <= |s|
    ensures Multiplicity(s, key, u) == CountTo(s, key, u, k) + Multiplicity(s[k..], key, u)
  {
    if k == 0 {
      assert s[0..] == s;
    } else {
      CountToIsMultiplicity(s, key, u, k - 1);
      assert s[k - 1..][1..] == s[k..];
    }
  }

  ghost predicate AreAt<A>(s: seq<A>, key: A -> int, u: int, idx: seq<nat>, k: nat)
    requires k <= |s|
  {
    Selection(idx, k) && forall i :: 0 <= i < |idx| ==> key(s[idx[i]]) == u
  }

  lemma {:induction false} PositionsAt<A>(s: seq<A>, key: A -> int, u: int, k: nat)
    requires k <= |s|
    ensures AreAt(s, key, u, Positions(s, key, u, k), k) && |Positions(s, key, u, k)| == CountTo(s, key, u, k)
  {
    if k > 0 {
      PositionsAt(s, key, u, k - 1);
    }
  }

  lemma {:induction false} PositionsGather<A>(s: seq<A>, key: A -> int, f: A -> real, u: int, k: nat)
    requires k <= |s|
    ensures Selection(Positions(s, key, u, k), k)
    ensures Weight(R.Values(s, f), Positions(s, key, u, k)) == Gather(s, key, f, u, k)
  {
    PositionsAt(s, key, u, k);
    if k > 0 {
      PositionsAt(s, key, u, k - 1);
      PositionsGather(s, key, f, u, k - 1);
      if key(s[k - 1]) == u {
        WeightSnoc(R.Values(s, f), Positions(s, key, u, k - 1), k - 1);
      } else {
        assert Positions(s, key, u, k - 1) + [] == Positions(s, key, u, k - 1);
      }
    }
  }

  /** The positions of all elements whose key is one of `keys`. */
  function AllPositions<A>(s: seq<A>, key: A -> int, keys: seq<nat>): seq<nat> {
    if keys == [] then []
    else AllPositions(s, key, keys[..|keys| - 1]) + Positions(s, key, keys[|keys| - 1], |s|)
  }

  lemma {:induction false} WeightAppend(xs: seq<real>, a: seq<nat>, b: seq<nat>)
    requires (forall i :: 0 <= i < |a| ==> a[i] < |xs|) && forall i :: 0 <= i < |b| ==> b[i] < |xs|
    ensures Weight(xs, a + b) == Weight(xs, a) + Weight(xs, b)
    decreases |b|
  {
    if b == [] {
      assert a + b == a;
    } else {
      var k := |b| - 1;
      WeightAppend(xs, a, b[..k]);
      WeightSnoc(xs, a + b[..k], b[k]);
      WeightSnoc(xs, b[..k], b[k]);
      assert a + b == a + b[..k] + [b[k]] && b == b[..k] + [b[k]];
    }
  }

  /** The family that gathers `f` by key. */
  function Gathered<A>(s: seq<A>, key: A -> int, f: A -> real, n: nat): (xs: seq<real>)
    ensures |xs| == n && forall u :: 0 <= u < n ==> xs[u] == Gather(s, key, f, u, |s|)
  {
    seq(n, u requires 0 <= u < n => Gather(s, key, f, u, |s|))
  }

  /** Some rows of a table: their tuples, and what those weigh. */
  ghost predicate TuplesOf<A>(s: seq<A>, key: A -> int, f: A -> real, n: nat, keys: seq<nat>, idx: seq<nat>)
    requires Selection(keys, n)
  {
    && Selection(idx, |s|) && (forall i :: 0 <= i < |idx| ==> key(s[idx[i]]) in keys)
    && Weight(R.Values(s, f), idx) == Weight(Gathered(s, key, f, n), keys)
    && |idx| as real == Weight(Degrees(s, key, n), keys)
  }

  lemma {:induction false} GatherTuples<A>(s: seq<A>, key: A -> int, f: A -> real, n: nat, keys: seq<nat>)
    requires Selection(keys, n)
    ensures TuplesOf(s, key, f, n, keys, AllPositions(s, key, keys))
    decreases |keys|
  {
    if keys != [] {
      var k := |keys| - 1;
      var rest, u := keys[..k], keys[k];
      assert Selection(rest, n) && u < n && u !in rest;
      GatherTuples(s, key, f, n, rest);
      assert keys == rest + [u];
      GatherStep(s, key, f, n, rest, u, AllPositions(s, key, rest));
      assert AllPositions(s, key, keys) == AllPositions(s, key, rest) + Positions(s, key, u, |s|);
    } else {
      assert Weight(R.Values(s, f), []) == 0.0 && Weight(Gathered(s, key, f, n), []) == 0.0 && Weight(Degrees(s, key, n), []) == 0.0;
    }
  }

  lemma GatherWeight<A>(s: seq<A>, key: A -> int, f: A -> real, n: nat, rest: seq<nat>, u: nat, a: seq<nat>)
    requires Selection(rest, n) && 0 <= u < n && Selection(a, |s|)
    requires Weight(R.Values(s, f), a) == Weight(Gathered(s, key, f, n), rest)
    ensures Selection(Positions(s, key, u, |s|), |s|)
    ensures forall i :: 0 <= i < |a + Positions(s, key, u, |s|)| ==> (a + Positions(s, key, u, |s|))[i] < |s|
    ensures forall i :: 0 <= i < |rest + [u]| ==> (rest + [u])[i] < n
    ensures Weight(R.Values(s, f), a + Positions(s, key, u, |s|)) == Weight(Gathered(s, key, f, n), rest + [u])
  {
    var b := Positions(s, key, u, |s|);
    PositionsGather(s, key, f, u, |s|);
    WeightAppend(R.Values(s, f), a, b);
    WeightSnoc(Gathered(s, key, f, n), rest, u);
  }

  lemma GatherCount<A>(s: seq<A>, key: A -> int, n: nat, rest: seq<nat>, u: nat, a: seq<nat>)
    requires Selection(rest, n) && 0 <= u < n && |a| as real == Weight(Degrees(s, key, n), rest)
    ensures forall i :: 0 <= i < |rest + [u]| ==> (rest + [u])[i] < n
    ensures |a + Positions(s, key, u, |s|)| as real == Weight(Degrees(s, key, n), rest + [u])
  {
    PositionsAt(s, key, u, |s|);
    CountToIsMultiplicity(s, key, u, |s|);
    assert Multiplicity(s[|s|..], key, u) == 0;
    WeightSnoc(Degrees(s, key, n), rest, u);
    assert |a + Positions(s, key, u, |s|)| == |a| + Multiplicity(s, key, u);
  }

  lemma GatherStep<A>(s: seq<A>, key: A -> int, f: A -> real, n: nat, rest: seq<nat>, u: nat, a: seq<nat>)
    requires Selection(rest + [u], n) && Selection(rest, n) && 0 <= u < n && u !in rest && TuplesOf(s, key, f, n, rest, a)
    ensures TuplesOf(s, key, f, n, rest + [u], a + Positions(s, key, u, |s|))
  {
    PositionsAt(s, key, u, |s|);
    SelectionUnion(s, key, rest, u, a, Positions(s, key, u, |s|));
    GatherWeight(s, key, f, n, rest, u, a);
    GatherCount(s, key, n, rest, u, a);
  }

  lemma SelectionUnion<A>(s: seq<A>, key: A -> int, rest: seq<nat>, u: nat, a: seq<nat>, b: seq<nat>)
    requires Selection(a, |s|) && (forall i :: 0 <= i < |a| ==> key(s[a[i]]) in rest)
    requires AreAt(s, key, u, b, |s|) && u !in rest
    ensures Selection(a + b, |s|) && forall i :: 0 <= i < |a + b| ==> key(s[(a + b)[i]]) in rest + [u]
  {
  }

  /**
   If the chunks dominate the tuples' weights and a sequence dominates the number of tuples per row of
   another table, then the spread of the chunks over that sequence dominates the new row degrees.
   */
  lemma SpreadDominates<A>(s: seq<A>, key: A -> int, f: A -> real, n: nat, edge: seq<Bin>, bins: seq<Bin>)
    requires EdgeOk(edge) && Counted(bins) && Integral(bins) && Positive(bins)
    requires Dominates(Expand(bins), R.Values(s, f)) && Dominates(Expand(edge), Degrees(s, key, n))
    ensures Dominates(Expand(EdgeItems(edge, ChunksOf(bins))), Gathered(s, key, f, n))
  {
    var chunks := ChunksOf(bins);
    ChunksWhole(bins);
    forall keys | Selection(keys, n)
      ensures Weight(Gathered(s, key, f, n), keys) <= Prefix(Expand(EdgeItems(edge, chunks)), |keys|)
    {
      GatherTuples(s, key, f, n, keys);
      var idx := AllPositions(s, key, keys);
      assert Weight(R.Values(s, f), idx) <= Prefix(Expand(bins), |idx|);
      ValuePrefix(bins, |idx|);
      assert Weight(Degrees(s, key, n), keys) <= Prefix(Expand(edge), |keys|);
      ValueMono(chunks, |idx| as real, Prefix(Expand(edge), |keys|));
      EdgeItemsPrefix(edge, chunks, |keys|);
    }
  }
}

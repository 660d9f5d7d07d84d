/** Sums of reals over sequences, and grouping. */
module RealSums {
  import opened Sums
  import opened RankBounds

  function Sum<A>(s: seq<A>, f: A -> real): real {
    if s == [] then 0.0 else f(s[0]) + Sum(s[1..], f)
  }

  lemma {:induction false} SumCong<A>(s: seq<A>, f: A -> real, g: A -> real)
    requires forall x :: x in s ==> f(x) == g(x)
    ensures Sum(s, f) == Sum(s, g)
  {
    if s != [] {
      assert s[0] in s;
      SumCong(s[1..], f, g);
    }
  }

  function Plus<A>(f: A -> real, g: A -> real): A -> real {
    x => f(x) + g(x)
  }

  lemma {:induction false} SumAdd<A>(s: seq<A>, f: A -> real, g: A -> real)
    ensures Sum(s, Plus(f, g)) == Sum(s, f) + Sum(s, g)
  {
    if s != [] {
      SumAdd(s[1..], f, g);
    }
  }

  lemma {:induction false} SumZero<A>(s: seq<A>, f: A -> real)
    requires forall x :: x in s ==> f(x) == 0.0
    ensures Sum(s, f) == 0.0
  {
    if s != [] {
      assert s[0] in s;
      SumZero(s[1..], f);
    }
  }

  function After<A, K>(f: K -> real, key: A -> K): A -> real {
    r => f(key(r))
  }

  function Here<K(==)>(k: K, f: K -> real): K -> real {
    x => if k == x then f(x) else 0.0
  }

  lemma {:induction false} SumPick<K>(ks: seq<K>, k: K, f: K -> real)
    requires Distinct(ks)
    ensures Sum(ks, Here(k, f)) == if k in ks then f(k) else 0.0
  {
    if ks != [] {
      SumPick(ks[1..], k, f);
    }
  }

  /** `f` of each key, added up once per row of that key. */
  function Weighted<A, K(==)>(rows: seq<A>, key: A -> K, f: K -> real): K -> real {
    k => Times(Multiplicity(rows, key, k), f(k))
  }

  lemma {:induction false} SumByKey<A, K>(rows: seq<A>, key: A -> K, ks: seq<K>, f: K -> real)
    requires Distinct(ks)
    requires forall r :: r in rows ==> key(r) in ks
    ensures Sum(rows, After(f, key)) == Sum(ks, Weighted(rows, key, f))
  {
    if rows == [] {
      SumZero(ks, Weighted(rows, key, f));
    } else {
      var k0, rest := key(rows[0]), Weighted(rows[1..], key, f);
      assert rows[0] in rows;
      SumByKey(rows[1..], key, ks, f);
      SumPick(ks, k0, f);
      SumAdd(ks, Here(k0, f), rest);
      SumCong(ks, Weighted(rows, key, f), Plus(Here(k0, f), rest));
    }
  }

  function GroupWeight<K>(f: K -> real): ((K, nat)) -> real {
    (g: (K, nat)) => Times(g.1, f(g.0))
  }

  lemma {:induction false} KeysSum<K>(groups: seq<(K, nat)>, w: K -> real, f: K -> real)
    requires forall g :: g in groups ==> w(g.0) == Times(g.1, f(g.0))
    ensures Sum(Keys(groups), w) == Sum(groups, GroupWeight(f))
  {
    if groups != [] {
      assert groups[0] in groups;
      assert Keys(groups)[1..] == Keys(groups[1..]);
      KeysSum(groups[1..], w, f);
    }
  }

  lemma GroupedSum<A, K>(rows: seq<A>, key: A -> K, groups: seq<(K, nat)>, f: K -> real)
    requires IsGrouping(rows, key, groups)
    ensures Sum(rows, After(f, key)) == Sum(groups, GroupWeight(f))
  {
    var ks := Keys(groups);
    forall r | r in rows ensures key(r) in ks {
      var g :| g in groups && g.0 == key(r);
      var i :| 0 <= i < |groups| && groups[i] == g;
      assert ks[i] == key(r);
    }
    SumByKey(rows, key, ks, f);
    KeysSum(groups, Weighted(rows, key, f), f);
  }

  /** A family as a sequence of its values. */
  function Values<A>(s: seq<A>, f: A -> real): (xs: seq<real>)
    ensures |xs| == |s| && forall i :: 0 <= i < |xs| ==> xs[i] == f(s[i])
  {
    seq(|s|, i requires 0 <= i < |s| => f(s[i]))
  }

  function OverOf<A>(f: A -> real, t: real): A -> real {
    x => Over(f(x), t)
  }

  lemma {:induction false} OverIsSum<A>(s: seq<A>, f: A -> real, t: real, k: nat)
    requires k <= |s|
    ensures OverTo(Values(s, f), t, |s|) == OverTo(Values(s, f), t, k) + Sum(s[k..], OverOf(f, t))
    decreases |s| - k
  {
    if k < |s| {
      OverIsSum(s, f, t, k + 1);
      assert s[k..][1..] == s[k + 1..];
    }
  }

  lemma OverSum<A>(s: seq<A>, f: A -> real, t: real)
    ensures OverTo(Values(s, f), t, |s|) == Sum(s, OverOf(f, t))
  {
    OverIsSum(s, f, t, 0);
    assert s[0..] == s;
  }
}

/** Finite sums over sequences, and the one law that GROUP BY rests on. */
module Sums {

  /** The sum of `f` over `s`. */
  function Total<A>(s: seq<A>, f: A -> int): int {
    if s == [] then 0 else f(s[0]) + Total(s[1..], f)
  }

  /** How many elements of `s` have key `k`. */
  function Multiplicity<A, K(==)>(s: seq<A>, key: A -> K, k: K): nat {
    if s == [] then 0 else (if key(s[0]) == k then 1 else 0) + Multiplicity(s[1..], key, k)
  }

  ghost predicate Distinct<A>(s: seq<A>) {
    forall i, j :: 0 <= i < j < |s| ==> s[i] != s[j]
  }

  lemma {:induction false} TotalCong<A>(s: seq<A>, f: A -> int, g: A -> int)
    requires forall x :: x in s ==> f(x) == g(x)
    ensures Total(s, f) == Total(s, g)
  {
    if s != [] {
      assert s[0] in s;
      TotalCong(s[1..], f, g);
    }
  }

  lemma {:induction false} TotalAppend<A>(s: seq<A>, t: seq<A>, f: A -> int)
    ensures Total(s + t, f) == Total(s, f) + Total(t, f)
  {
    if s == [] {
      assert s + t == t;
    } else {
      assert (s + t)[1..] == s[1..] + t;
      TotalAppend(s[1..], t, f);
    }
  }

  lemma {:induction false} TotalZero<A>(s: seq<A>)
    ensures Total(s, x => 0) == 0
  {
    if s != [] {
      TotalZero(s[1..]);
    }
  }

  function Plus<A>(f: A -> int, g: A -> int): A -> int {
    x => f(x) + g(x)
  }

  lemma {:induction false} TotalAdd<A>(s: seq<A>, f: A -> int, g: A -> int)
    ensures Total(s, Plus(f, g)) == Total(s, f) + Total(s, g)
  {
    if s != [] {
      TotalAdd(s[1..], f, g);
    }
  }

  function Scale<A>(c: int, f: A -> int): A -> int {
    x => c * f(x)
  }

  lemma {:induction false} TotalScale<A>(s: seq<A>, c: int, f: A -> int)
    ensures Total(s, Scale(c, f)) == c * Total(s, f)
  {
    if s != [] {
      TotalScale(s[1..], c, f);
    }
  }

  /** The inner sum of a double sum, as a function of the outer index. */
  function Inner<A, B>(t: seq<B>, h: (A, B) -> int): A -> int {
    x => Total(t, Apply(h, x))
  }

  function Apply<A, B>(h: (A, B) -> int, x: A): B -> int {
    y => h(x, y)
  }

  function Flip<A, B>(h: (A, B) -> int): (B, A) -> int {
    (y, x) => h(x, y)
  }

  /** Two nested sums may be taken in either order. */
  lemma {:induction false} TotalSwap<A, B>(s: seq<A>, t: seq<B>, h: (A, B) -> int)
    ensures Total(s, Inner(t, h)) == Total(t, Inner(s, Flip(h)))
  {
    if s == [] {
      TotalCong(t, Inner(s, Flip(h)), y => 0);
      TotalZero(t);
    } else {
      var first := Apply(h, s[0]);
      var rest := Inner(s[1..], Flip(h));
      TotalSwap(s[1..], t, h);
      TotalAdd(t, first, rest);
      TotalCong(t, Inner(s, Flip(h)), Plus(first, rest));
    }
  }

  /** `groups` is a GROUP BY of `rows`: one entry per key that occurs, with its row count. */
  ghost predicate IsGrouping<A, K>(rows: seq<A>, key: A -> K, groups: seq<(K, nat)>) {
    && (forall i, j :: 0 <= i < j < |groups| ==> groups[i].0 != groups[j].0)
    && (forall g :: g in groups ==> g.1 == Multiplicity(rows, key, g.0) > 0)
    && (forall r :: r in rows ==> exists g :: g in groups && g.0 == key(r))
  }

  /** Picking one key out of a list without repetitions. */
  lemma {:induction false} TotalPick<K>(ks: seq<K>, k: K, f: K -> int)
    requires Distinct(ks)
    ensures Total(ks, x => (if k == x then 1 else 0) * f(x)) == if k in ks then f(k) else 0
  {
    if ks != [] {
      TotalPick(ks[1..], k, f);
    }
  }

  function After<A, K>(f: K -> int, key: A -> K): A -> int {
    r => f(key(r))
  }

  /** `f` of each key, weighted with the number of rows of that key. */
  function Weighted<A, K(==)>(rows: seq<A>, key: A -> K, f: K -> int): K -> int {
    k => Multiplicity(rows, key, k) * f(k)
  }

  lemma {:induction false} TotalByKey<A, K>(rows: seq<A>, key: A -> K, ks: seq<K>, f: K -> int)
    requires Distinct(ks)
    requires forall r :: r in rows ==> key(r) in ks
    ensures Total(rows, After(f, key)) == Total(ks, Weighted(rows, key, f))
  {
    if rows == [] {
      TotalCong(ks, Weighted(rows, key, f), k => 0);
      TotalZero(ks);
    } else {
      var k0 := key(rows[0]);
      assert rows[0] in rows;
      var here := (x: K) => (if k0 == x then 1 else 0) * f(x);
      var rest := Weighted(rows[1..], key, f);
      TotalByKey(rows[1..], key, ks, f);
      TotalPick(ks, k0, f);
      TotalCong(ks, here, x => (if k0 == x then 1 else 0) * f(x));
      TotalAdd(ks, here, rest);
      forall k ensures Weighted(rows, key, f)(k) == here(k) + rest(k) {
        WeightedStep(rows, key, f, k);
      }
      TotalCong(ks, Weighted(rows, key, f), Plus(here, rest));
    }
  }

  lemma WeightedStep<A, K>(rows: seq<A>, key: A -> K, f: K -> int, k: K)
    requires rows != []
    ensures Weighted(rows, key, f)(k) ==
            (if key(rows[0]) == k then 1 else 0) * f(k) + Weighted(rows[1..], key, f)(k)
  {
  }

  function Keys<K>(groups: seq<(K, nat)>): (ks: seq<K>)
    ensures |ks| == |groups| && forall i :: 0 <= i < |ks| ==> ks[i] == groups[i].0
  {
    if groups == [] then [] else [groups[0].0] + Keys(groups[1..])
  }

  /** A group's contribution: its count times `f` of its key. */
  function GroupWeight<K>(f: K -> int): ((K, nat)) -> int {
    (g: (K, nat)) => g.1 * f(g.0)
  }

  lemma {:induction false} KeysTotal<K>(groups: seq<(K, nat)>, w: K -> int, f: K -> int)
    requires forall g :: g in groups ==> w(g.0) == g.1 * f(g.0)
    ensures Total(Keys(groups), w) == Total(groups, GroupWeight(f))
  {
    if groups != [] {
      assert groups[0] in groups;
      assert Keys(groups)[1..] == Keys(groups[1..]);
      KeysTotal(groups[1..], w, f);
    }
  }

  /** Summing row by row equals summing group by group, weighted with the group counts. */
  lemma GroupedTotal<A, K>(rows: seq<A>, key: A -> K, groups: seq<(K, nat)>, f: K -> int)
    requires IsGrouping(rows, key, groups)
    ensures Total(rows, After(f, key)) == Total(groups, GroupWeight(f))
  {
    var ks := Keys(groups);
    forall r | r in rows ensures key(r) in ks {
      var g :| g in groups && g.0 == key(r);
      var i :| 0 <= i < |groups| && groups[i] == g;
      assert ks[i] == key(r);
    }
    TotalByKey(rows, key, ks, f);
    KeysTotal(groups, Weighted(rows, key, f), f);
  }

  /** Adds one row with key `k` to a grouping. */
  function Bump<K(==)>(groups: seq<(K, nat)>, k: K): seq<(K, nat)> {
    if groups == [] then [(k, 1)]
    else if groups[0].0 == k then [(k, groups[0].1 + 1)] + groups[1..]
    else [groups[0]] + Bump(groups[1..], k)
  }

  /** One way to evaluate GROUP BY. */
  function GroupBy<A, K(==)>(rows: seq<A>, key: A -> K): seq<(K, nat)> {
    if rows == [] then [] else Bump(GroupBy(rows[1..], key), key(rows[0]))
  }

  function CountAt<K(==)>(groups: seq<(K, nat)>, k: K): nat {
    if groups == [] then 0 else if groups[0].0 == k then groups[0].1 else CountAt(groups[1..], k)
  }

  ghost predicate DistinctKeys<K>(groups: seq<(K, nat)>) {
    forall i, j :: 0 <= i < j < |groups| ==> groups[i].0 != groups[j].0
  }

  lemma {:induction false} BumpEffect<K(!new)>(groups: seq<(K, nat)>, k: K)
    requires DistinctKeys(groups)
    requires forall i :: 0 <= i < |groups| ==> groups[i].1 > 0
    ensures DistinctKeys(Bump(groups, k))
    ensures forall i :: 0 <= i < |Bump(groups, k)| ==> Bump(groups, k)[i].1 > 0
    ensures forall x :: CountAt(Bump(groups, k), x) == CountAt(groups, x) + if x == k then 1 else 0
    ensures forall i :: 0 <= i < |Bump(groups, k)| ==>
                        Bump(groups, k)[i].0 == k || exists j :: 0 <= j < |groups| && groups[j].0 == Bump(groups, k)[i].0
  {
    if groups != [] && groups[0].0 != k {
      BumpEffect(groups[1..], k);
      var b := Bump(groups[1..], k);
      forall i | 0 <= i < |b| ensures b[i].0 != groups[0].0 {
        if b[i].0 != k {
          var j :| 0 <= j < |groups[1..]| && groups[1..][j].0 == b[i].0;
          assert groups[j + 1].0 == b[i].0;
        }
      }
    }
  }

  lemma {:induction false} CountAtMember<K>(groups: seq<(K, nat)>, i: nat)
    requires DistinctKeys(groups) && i < |groups|
    ensures CountAt(groups, groups[i].0) == groups[i].1
  {
    if i > 0 {
      CountAtMember(groups[1..], i - 1);
    }
  }

  lemma {:induction false} CountAtPresent<K>(groups: seq<(K, nat)>, k: K)
    requires CountAt(groups, k) > 0
    ensures exists g :: g in groups && g.0 == k
  {
    if groups[0].0 == k {
      assert groups[0] in groups;
    } else {
      CountAtPresent(groups[1..], k);
    }
  }

  lemma {:induction false} GroupByCounts<A, K(!new)>(rows: seq<A>, key: A -> K)
    ensures DistinctKeys(GroupBy(rows, key))
    ensures forall i :: 0 <= i < |GroupBy(rows, key)| ==> GroupBy(rows, key)[i].1 > 0
    ensures forall k :: CountAt(GroupBy(rows, key), k) == Multiplicity(rows, key, k)
  {
    if rows != [] {
      GroupByCounts(rows[1..], key);
      BumpEffect(GroupBy(rows[1..], key), key(rows[0]));
    }
  }

  lemma {:induction false} MultiplicityPositive<A, K>(rows: seq<A>, key: A -> K, r: A)
    requires r in rows
    ensures Multiplicity(rows, key, key(r)) > 0
  {
    if rows[0] != r {
      MultiplicityPositive(rows[1..], key, r);
    }
  }

  lemma GroupByIsGrouping<A, K(!new)>(rows: seq<A>, key: A -> K)
    ensures IsGrouping(rows, key, GroupBy(rows, key))
  {
    GroupByCounts(rows, key);
    var groups := GroupBy(rows, key);
    forall g | g in groups ensures g.1 == Multiplicity(rows, key, g.0) > 0 {
      var i :| 0 <= i < |groups| && groups[i] == g;
      CountAtMember(groups, i);
    }
    forall r | r in rows ensures exists g :: g in groups && g.0 == key(r) {
      MultiplicityPositive(rows, key, r);
      CountAtPresent(groups, key(r));
    }
  }

  // ---- Filtering ----

  function Select<T>(s: seq<T>, keep: T -> bool): seq<T> {
    if s == [] then [] else (if keep(s[0]) then [s[0]] else []) + Select(s[1..], keep)
  }

  lemma {:induction false} SelectMember<T>(s: seq<T>, keep: T -> bool, x: T)
    ensures x in Select(s, keep) <==> x in s && keep(x)
  {
    if s != [] {
      assert s == [s[0]] + s[1..];
      SelectMember(s[1..], keep, x);
    }
  }

  lemma {:induction false} SelectAppend<T>(s: seq<T>, t: seq<T>, keep: T -> bool)
    ensures Select(s + t, keep) == Select(s, keep) + Select(t, keep)
  {
    if s == [] {
      assert s + t == t;
    } else {
      var head := if keep(s[0]) then [s[0]] else [];
      assert (s + t)[1..] == s[1..] + t && (s + t)[0] == s[0];
      SelectAppend(s[1..], t, keep);
      assert head + (Select(s[1..], keep) + Select(t, keep)) == head + Select(s[1..], keep) + Select(t, keep);
    }
  }

  /** `f` on the elements that are kept, 0 on the others. */
  function Masked<T>(keep: T -> bool, f: T -> int): T -> int {
    x => if keep(x) then f(x) else 0
  }

  lemma {:induction false} TotalSelect<T>(s: seq<T>, keep: T -> bool, f: T -> int)
    ensures Total(Select(s, keep), f) == Total(s, Masked(keep, f))
  {
    if s != [] {
      TotalSelect(s[1..], keep, f);
      TotalAppend(if keep(s[0]) then [s[0]] else [], Select(s[1..], keep), f);
    }
  }

  lemma {:induction false} TotalConstant<T>(s: seq<T>, f: T -> int, c: int)
    requires forall x :: x in s ==> f(x) == c
    ensures Total(s, f) == |s| * c
  {
    if s != [] {
      assert s[0] in s;
      TotalConstant(s[1..], f, c);
    }
  }

  lemma {:induction false} TotalMono<A>(s: seq<A>, f: A -> int, g: A -> int)
    requires forall x :: x in s ==> f(x) <= g(x)
    ensures Total(s, f) <= Total(s, g)
  {
    if s != [] {
      assert s[0] in s;
      TotalMono(s[1..], f, g);
    }
  }

  lemma {:induction false} TotalStrict<A>(s: seq<A>, f: A -> int, g: A -> int, x: A)
    requires (forall y :: y in s ==> f(y) <= g(y)) && x in s && f(x) < g(x)
    ensures Total(s, f) < Total(s, g)
  {
    assert s[0] in s;
    if s[0] == x {
      TotalMono(s[1..], f, g);
    } else {
      assert s == [s[0]] + s[1..];
      TotalStrict(s[1..], f, g, x);
    }
  }

  lemma TotalSingle<T>(x: T, f: T -> int)
    ensures Total([x], f) == f(x)
  {
  }
}

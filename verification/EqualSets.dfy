/** Which EqualSets are maximal, under a containment that matches an empty column name loosely. */
module EqualSets {

  /** A table column; the empty column name stands for the whole table. */
  datatype Entry = Entry(table: string, column: string)

  type EqualSet = seq<Entry>

  predicate Matches(e: Entry, large: EqualSet) {
    if e.column == "" then exists k :: 0 <= k < |large| && large[k].table == e.table else e in large
  }

  predicate IsSubset(small: EqualSet, large: EqualSet) {
    forall k :: 0 <= k < |small| ==> Matches(small[k], large)
  }

  predicate IsStrictSubset(small: EqualSet, large: EqualSet) {
    |small| < |large| && IsSubset(small, large)
  }

  // ---- Containment is a preorder ----

  lemma SubsetReflexive(a: EqualSet)
    ensures IsSubset(a, a)
  {
  }

  lemma MatchesTransitive(e: Entry, b: EqualSet, c: EqualSet)
    requires Matches(e, b) && IsSubset(b, c)
    ensures Matches(e, c)
  {
    if e.column == "" {
      var k :| 0 <= k < |b| && b[k].table == e.table;
      assert Matches(b[k], c);
      if b[k].column != "" {
        var m :| 0 <= m < |c| && c[m] == b[k];
      }
    } else {
      var k :| 0 <= k < |b| && b[k] == e;
      assert Matches(b[k], c);
    }
  }

  lemma SubsetTransitive(a: EqualSet, b: EqualSet, c: EqualSet)
    requires IsSubset(a, b) && IsSubset(b, c)
    ensures IsSubset(a, c)
  {
    forall k | 0 <= k < |a| ensures Matches(a[k], c) {
      MatchesTransitive(a[k], b, c);
    }
  }

  /** The loose match is not antisymmetric: sets of different size may contain each other. */
  lemma NotAntisymmetric(a: EqualSet, b: EqualSet)
    requires a == [Entry("t", "x")] && b == [Entry("t", "x"), Entry("t", "")]
    ensures IsStrictSubset(a, b) && IsSubset(b, a)
  {
    assert a[0] == b[0] && a[0].table == b[1].table;
  }

  // ---- The maximal sets ----

  ghost predicate IsMaximal(sets: seq<EqualSet>, i: nat)
    requires i < |sets|
  {
    forall j :: 0 <= j < |sets| && j != i ==> !IsStrictSubset(sets[i], sets[j])
  }

  /** The inner loop: it stops at the first set that strictly contains set `i`. */
  method TestMaximal(sets: seq<EqualSet>, i: nat) returns (isMaximal: bool)
    requires i < |sets|
    ensures isMaximal == IsMaximal(sets, i)
  {
    for j := 0 to |sets|
      invariant forall k :: 0 <= k < j && k != i ==> !IsStrictSubset(sets[i], sets[k])
    {
      if i == j {
        continue;
      }
      if IsStrictSubset(sets[i], sets[j]) {
        return false;
      }
    }
    return true;
  }

  method FindMaximal(sets: seq<EqualSet>) returns (maximal: seq<nat>)
    ensures forall i: nat :: i in maximal <==> i < |sets| && IsMaximal(sets, i)
    ensures forall k, l :: 0 <= k < l < |maximal| ==> maximal[k] < maximal[l]
  {
    maximal := [];
    for i := 0 to |sets|
      invariant forall k: nat :: k in maximal <==> k < i && IsMaximal(sets, k)
      invariant forall k, l :: 0 <= k < l < |maximal| ==> maximal[k] < maximal[l]
    {
      var isMaximal := TestMaximal(sets, i);
      if isMaximal {
        forall k | 0 <= k < |maximal| ensures maximal[k] < i {
          assert maximal[k] in maximal;
        }
        maximal := maximal + [i];
      }
    }
  }

  method GetSubEqualSets(sets: seq<EqualSet>, parent: nat) returns (subs: seq<nat>)
    requires parent < |sets|
    ensures forall i: nat :: i in subs <==> i < |sets| && IsSubset(sets[i], sets[parent])
  {
    subs := [];
    for i := 0 to |sets|
      invariant forall k: nat :: k in subs <==> k < i && IsSubset(sets[k], sets[parent])
    {
      if IsSubset(sets[i], sets[parent]) {
        subs := subs + [i];
      }
    }
  }

  /** The size of the largest set. */
  function Longest(sets: seq<EqualSet>): (n: nat)
    ensures forall i :: 0 <= i < |sets| ==> |sets[i]| <= n
  {
    if sets == [] then 0
    else
      var rest := Longest(sets[..|sets| - 1]);
      assert forall i :: 0 <= i < |sets| - 1 ==> sets[..|sets| - 1][i] == sets[i];
      if |sets[|sets| - 1]| > rest then |sets[|sets| - 1]| else rest
  }

  /** Every EqualSet is contained in a maximal one, so it appears in the list of at least one. */
  lemma {:induction false} SomeMaximal(sets: seq<EqualSet>, i: nat) returns (m: nat)
    requires i < |sets|
    ensures m < |sets| && IsMaximal(sets, m) && IsSubset(sets[i], sets[m])
    decreases Longest(sets) - |sets[i]|
  {
    if IsMaximal(sets, i) {
      m := i;
      SubsetReflexive(sets[i]);
    } else {
      var j :| 0 <= j < |sets| && j != i && IsStrictSubset(sets[i], sets[j]);
      m := SomeMaximal(sets, j);
      SubsetTransitive(sets[i], sets[j], sets[m]);
    }
  }

  // ---- Is every maximal set needed? ----

  /** Every EqualSet is contained in one that `cover` lists. */
  ghost predicate Covers(sets: seq<EqualSet>, cover: set<nat>) {
    forall i: nat :: i < |sets| ==> CoveredBy(sets, cover, i)
  }

  ghost predicate CoveredBy(sets: seq<EqualSet>, cover: set<nat>, i: nat)
    requires i < |sets|
  {
    exists c :: c in cover && c < |sets| && IsSubset(sets[i], sets[c])
  }

  /** Sets of one size that contain each other. */
  predicate Twins(a: EqualSet, b: EqualSet) {
    |a| == |b| && IsSubset(a, b) && IsSubset(b, a)
  }

  ghost predicate HasTwin(sets: seq<EqualSet>, cover: set<nat>, m: nat)
    requires m < |sets|
  {
    exists c :: c in cover && c < |sets| && Twins(sets[m], sets[c])
  }

  /** No cover can do without a maximal set, or a twin of it. */
  ghost predicate EachNeeded(sets: seq<EqualSet>) {
    forall cover, m: nat :: Covers(sets, cover) && m < |sets| && IsMaximal(sets, m) ==> HasTwin(sets, cover, m)
  }

  /** A maximal set is contained in its twins only. */
  ghost predicate OnlyInTwins(sets: seq<EqualSet>) {
    forall m: nat, c: nat :: m < |sets| && c < |sets| && IsMaximal(sets, m) && IsSubset(sets[m], sets[c]) ==>
      Twins(sets[m], sets[c])
  }

  /** The maximal sets are a cover, and the least one up to twins exactly if they are contained in twins only. */
  lemma LeastCoverIff(sets: seq<EqualSet>, maximal: set<nat>)
    requires forall i: nat :: i in maximal <==> i < |sets| && IsMaximal(sets, i)
    ensures Covers(sets, maximal)
    ensures EachNeeded(sets) <==> OnlyInTwins(sets)
  {
    forall i: nat | i < |sets| ensures CoveredBy(sets, maximal, i) {
      var m := SomeMaximal(sets, i);
    }
    if OnlyInTwins(sets) {
      forall cover, m: nat | Covers(sets, cover) && m < |sets| && IsMaximal(sets, m) ensures HasTwin(sets, cover, m) {
        assert CoveredBy(sets, cover, m);
      }
    }
    if EachNeeded(sets) {
      forall m: nat, c: nat | m < |sets| && c < |sets| && IsMaximal(sets, m) && IsSubset(sets[m], sets[c])
        ensures Twins(sets[m], sets[c])
      {
        NoTwinNeeded(sets, m, c);
      }
    }
  }

  /** If a set lies in one that is no twin, all sets but its twins are a cover. */
  lemma NoTwinNeeded(sets: seq<EqualSet>, m: nat, c: nat)
    requires m < |sets| && c < |sets| && IsMaximal(sets, m) && IsSubset(sets[m], sets[c]) && EachNeeded(sets)
    ensures Twins(sets[m], sets[c])
  {
    if !Twins(sets[m], sets[c]) {
      var cover := set i: nat | i < |sets| && !Twins(sets[m], sets[i]);
      assert !HasTwin(sets, cover, m);
      forall i: nat | i < |sets| ensures CoveredBy(sets, cover, i) {
        if i in cover {
          SubsetReflexive(sets[i]);
        } else {
          SubsetTransitive(sets[i], sets[m], sets[c]);
        }
      }
    }
  }

  /** No entry stands for a whole table, and none occurs twice. */
  predicate Proper(a: EqualSet) {
    && (forall i :: 0 <= i < |a| ==> a[i].column != "")
    && (forall i, j :: 0 <= i < j < |a| ==> a[i] != a[j])
  }

  function Entries(a: EqualSet): set<Entry> {
    set e | e in a
  }

  lemma {:induction false} EntriesSize(a: EqualSet)
    ensures |Entries(a)| <= |a|
    ensures (forall i, j :: 0 <= i < j < |a| ==> a[i] != a[j]) ==> |Entries(a)| == |a|
  {
    if a != [] {
      var k := |a| - 1;
      EntriesSize(a[..k]);
      assert a == a[..k] + [a[k]];
      assert Entries(a) == Entries(a[..k]) + {a[k]};
    }
  }

  lemma SubsetSameSize(a: set<Entry>, b: set<Entry>)
    requires a <= b && |b| <= |a|
    ensures a == b
  {
    if exists x :: x in b && x !in a {
      var x :| x in b && x !in a;
      SubsetSize(a + {x}, b);
    }
  }

  lemma {:induction false} SubsetSize(a: set<Entry>, b: set<Entry>)
    requires a <= b
    ensures |a| <= |b|
  {
    if a != {} {
      var x :| x in a;
      SubsetSize(a - {x}, b - {x});
    }
  }

  /** A set that lies in one that is not larger is its twin, if all its entries name different columns. */
  lemma ProperTwins(a: EqualSet, b: EqualSet)
    requires Proper(a) && IsSubset(a, b) && |b| <= |a|
    ensures Twins(a, b)
  {
    EntriesSize(a);
    EntriesSize(b);
    forall e | e in Entries(a) ensures e in Entries(b) {
      var k :| 0 <= k < |a| && a[k] == e;
      assert Matches(a[k], b);
    }
    SubsetSize(Entries(a), Entries(b));
    SubsetSameSize(Entries(a), Entries(b));
    forall k | 0 <= k < |b| ensures Matches(b[k], a) {
      assert b[k] in Entries(b);
    }
  }

  /** So if every set is proper, the list that `FindMaximal` returns is the least cover up to twins. */
  lemma ProperLeastCover(sets: seq<EqualSet>)
    requires forall i :: 0 <= i < |sets| ==> Proper(sets[i])
    ensures EachNeeded(sets)
  {
    forall m: nat, c: nat | m < |sets| && c < |sets| && IsMaximal(sets, m) && IsSubset(sets[m], sets[c])
      ensures Twins(sets[m], sets[c])
    {
      if m == c {
        SubsetReflexive(sets[m]);
      } else {
        assert !IsStrictSubset(sets[m], sets[c]);
        ProperTwins(sets[m], sets[c]);
      }
    }
    LeastCoverIff(sets, set i: nat | i < |sets| && IsMaximal(sets, i));
  }

  /** With a whole table among the entries a maximal set may be superfluous. */
  lemma SuperfluousMaximal(sets: seq<EqualSet>)
    requires sets == [[Entry("t", "")], [Entry("t", "x")]]
    ensures IsMaximal(sets, 0) && IsMaximal(sets, 1) && Covers(sets, {1}) && !EachNeeded(sets)
  {
    var one: nat := 1;
    assert sets[1][0].table == sets[0][0].table;
    assert IsSubset(sets[0], sets[1]);
    SubsetReflexive(sets[1]);
    forall i: nat | i < |sets| ensures CoveredBy(sets, {1}, i) {
      assert one in {1} && IsSubset(sets[i], sets[one]);
    }
    assert !Matches(sets[1][0], sets[0]);
    assert !Twins(sets[0], sets[1]);
    assert !HasTwin(sets, {1}, 0);
  }
}

/**
 Which statistics of a query are merged with each other, at any adjustment rate: the groups are the classes of the least
 equivalence that relates two statistics with a common table.
 */
module StarGroups {
  import opened MergeBounds
  import opened UnionFind
  import opened StarEstimation

  type Relation = (nat, nat) -> bool

  ghost predicate Share(stats: seq<Summary>, i: nat, j: nat)
    requires i < |stats| && j < |stats|
  {
    stats[i].tables * stats[j].tables != {}
  }

  /** The relation holds for statistics that share a table. */
  ghost predicate Shares(stats: seq<Summary>, rel: Relation) {
    forall i: nat, j: nat :: i < |stats| && j < |stats| && Share(stats, i, j) ==> rel(i, j)
  }

  /** The table comes from a statistic that is in the group of `i`. */
  ghost predicate FromGroup(stats: seq<Summary>, rep: map<nat, nat>, i: nat, t: string) {
    exists x: nat :: x < |stats| && x in rep && i in rep && rep[x] == rep[i] && t in stats[x].tables
  }

  ghost predicate Grown(stats: seq<Summary>, g: Groups, i: nat)
    requires i < |stats| == |g.stats|
  {
    stats[i].tables <= g.stats[i].tables && forall t :: t in g.stats[i].tables ==> FromGroup(stats, g.rep, i, t)
  }

  ghost predicate AllGrown(stats: seq<Summary>, g: Groups) {
    |g.stats| == |stats| && forall i: nat :: i < |stats| ==> Grown(stats, g, i)
  }

  ghost predicate Related(rep: map<nat, nat>, rel: Relation) {
    forall x, y :: x in rep && y in rep && rep[x] == rep[y] ==> rel(x, y)
  }

  lemma FromRedirected(stats: seq<Summary>, rep: map<nat, nat>, a: nat, b: nat, i: nat, t: string)
    requires FromGroup(stats, rep, i, t)
    ensures FromGroup(stats, Redirect(rep, b, a), i, t)
  {
    var x: nat :| x < |stats| && x in rep && i in rep && rep[x] == rep[i] && t in stats[x].tables;
    assert Redirect(rep, b, a)[x] == Redirect(rep, b, a)[i];
  }

  lemma FromOther(stats: seq<Summary>, rep: map<nat, nat>, a: nat, b: nat, t: string)
    requires FromGroup(stats, rep, b, t) && IsRoot(rep, a) && IsRoot(rep, b)
    ensures FromGroup(stats, Redirect(rep, b, a), a, t)
  {
    var x: nat :| x < |stats| && x in rep && b in rep && rep[x] == rep[b] && t in stats[x].tables;
    assert Redirect(rep, b, a)[x] == Redirect(rep, b, a)[a];
  }

  lemma GrownAfter(stats: seq<Summary>, g: Groups, a: nat, b: nat, s: Summary, i: nat)
    requires AllGrown(stats, g) && a < |stats| && b < |stats| && i < |stats| && IsRoot(g.rep, a) && IsRoot(g.rep, b)
    requires s.tables == g.stats[a].tables + g.stats[b].tables
    ensures Grown(stats, Groups(g.stats[a := s], Redirect(g.rep, b, a)), i)
  {
    var g' := Groups(g.stats[a := s], Redirect(g.rep, b, a));
    assert Grown(stats, g, i) && Grown(stats, g, a) && Grown(stats, g, b);
    forall t | t in g'.stats[i].tables ensures FromGroup(stats, g'.rep, i, t) {
      if t in g.stats[i].tables {
        FromRedirected(stats, g.rep, a, b, i, t);
      } else {
        FromOther(stats, g.rep, a, b, t);
      }
    }
  }

  lemma Joined(stats: seq<Summary>, g: Groups, rel: Relation, i: nat, j: nat)
    requires AllGrown(stats, g) && i < |stats| && j < |stats| && i in g.rep && j in g.rep
    requires Equivalence(rel) && Shares(stats, rel) && Related(g.rep, rel) && g.stats[i].tables * g.stats[j].tables != {}
    ensures rel(i, j)
  {
    var t :| t in g.stats[i].tables * g.stats[j].tables;
    assert Grown(stats, g, i) && Grown(stats, g, j);
    assert FromGroup(stats, g.rep, i, t) && FromGroup(stats, g.rep, j, t);
    var x: nat :| x < |stats| && x in g.rep && g.rep[x] == g.rep[i] && t in stats[x].tables;
    var y: nat :| y < |stats| && y in g.rep && g.rep[y] == g.rep[j] && t in stats[y].tables;
    assert t in stats[x].tables * stats[y].tables;
    assert Share(stats, x, y);
    assert rel(i, x) && rel(x, y) && rel(y, j);
  }

  lemma RelatedAfter(rep: map<nat, nat>, rel: Relation, i: nat, j: nat)
    requires Equivalence(rel) && Related(rep, rel) && i in rep && j in rep && rel(i, j)
    ensures Related(Redirect(rep, rep[j], rep[i]), rel)
  {
    var rep' := Redirect(rep, rep[j], rep[i]);
    forall x, y | x in rep' && y in rep' && rep'[x] == rep'[y] ensures rel(x, y) {
      if rep[x] != rep[y] {
        if rep[x] == rep[j] {
          assert rel(x, j) && rel(j, i) && rel(i, y) && rel(x, i);
        } else {
          assert rel(x, i) && rel(i, j) && rel(j, y) && rel(x, j);
        }
      }
    }
  }

  ghost predicate Sound(stats: seq<Summary>, g: Groups, rel: Relation) {
    AllGrown(stats, g) && Related(g.rep, rel)
  }

  lemma StepSound(stats: seq<Summary>, g: Groups, x: Setting, rel: Relation, i: nat, j: nat)
    requires GroupsOk(g, x) && Sound(stats, g, rel) && Equivalence(rel) && Shares(stats, rel) && i < |stats| && j < |stats|
    ensures Sound(stats, PairStep(g, x, i, j), rel)
  {
    if Merges(g, i, j) {
      RootsShare(g, x, i, j);
      var a, b := g.rep[i], g.rep[j];
      Joined(stats, g, rel, i, j);
      RelatedAfter(g.rep, rel, i, j);
      forall k: nat | k < |stats| ensures Grown(stats, PairStep(g, x, i, j), k) {
        GrownAfter(stats, g, a, b, MergedPair(g.stats[a], g.stats[b], x), k);
      }
    }
  }

  /** All pairs before `(i, j)` that share a table are in one group. */
  ghost predicate Seen(stats: seq<Summary>, rep: map<nat, nat>, i: nat, j: nat) {
    forall x: nat, y: nat :: x < y < |stats| && (x < i || (x == i && y < j)) && Share(stats, x, y) ==> SameGroup(rep, x, y)
  }

  ghost predicate SameGroup(rep: map<nat, nat>, x: nat, y: nat) {
    x in rep && y in rep && rep[x] == rep[y]
  }

  lemma StepSeen(stats: seq<Summary>, g: Groups, x: Setting, i: nat, j: nat)
    requires GroupsOk(g, x) && AllGrown(stats, g) && i < j < |stats| && Seen(stats, g.rep, i, j)
    ensures Seen(stats, PairStep(g, x, i, j).rep, i, j + 1)
  {
    var rep, rep' := g.rep, PairStep(g, x, i, j).rep;
    assert Grown(stats, g, i) && Grown(stats, g, j);
    forall u: nat, v: nat | u < v < |stats| && (u < i || (u == i && v < j + 1)) && Share(stats, u, v) ensures SameGroup(rep', u, v) {
      if u == i && v == j {
        var t :| t in stats[u].tables * stats[v].tables;
        assert t in g.stats[i].tables * g.stats[j].tables;
      } else {
        assert SameGroup(rep, u, v);
      }
    }
  }

  lemma {:induction false} RunGroups(stats: seq<Summary>, g: Groups, x: Setting, rel: Relation, i: nat, j: nat)
    requires GroupsOk(g, x) && Sound(stats, g, rel) && Equivalence(rel) && Shares(stats, rel) && i < j && Seen(stats, g.rep, i, j)
    ensures Sound(stats, RunFrom(g, x, i, j), rel) && Seen(stats, RunFrom(g, x, i, j).rep, |stats|, 0)
    decreases |stats| - i, |stats| - j
  {
    if i < |stats| && j < |stats| {
      StepSound(stats, g, x, rel, i, j);
      StepSeen(stats, g, x, i, j);
      RunGroups(stats, PairStep(g, x, i, j), x, rel, i, j + 1);
    } else if i < |stats| {
      assert Seen(stats, g.rep, i + 1, i + 2);
      RunGroups(stats, g, x, rel, i + 1, i + 2);
    }
  }

  lemma StartSound(stats: seq<Summary>, rel: Relation)
    requires Equivalence(rel)
    ensures Sound(stats, Groups(stats, Alone(|stats|)), rel)
  {
    var g := Groups(stats, Alone(|stats|));
    forall i: nat | i < |stats| ensures Grown(stats, g, i) {
      forall t | t in stats[i].tables ensures FromGroup(stats, g.rep, i, t) {
        assert i in g.rep;
      }
    }
  }

  lemma MergedSound(stats: seq<Summary>, x: Setting, rel: Relation)
    requires StatsOk(stats, x) && Equivalence(rel) && Shares(stats, rel)
    ensures Sound(stats, AllMerged(stats, x), rel) && Seen(stats, AllMerged(stats, x).rep, |stats|, 0)
  {
    StartOk(stats, x);
    StartSound(stats, rel);
    RunGroups(stats, Groups(stats, Alone(|stats|)), x, rel, 0, 1);
  }

  lemma Everything(stats: seq<Summary>, x: Setting)
    requires StatsOk(stats, x)
    ensures AllGrown(stats, AllMerged(stats, x)) && Seen(stats, AllMerged(stats, x).rep, |stats|, 0)
  {
    var rel: Relation := (i: nat, j: nat) => true;
    assert Equivalence(rel);
    MergedSound(stats, x, rel);
  }

  /** Two statistics with a common table end up in one group, whatever the rate, ... */
  lemma SharingMerged(stats: seq<Summary>, x: Setting, i: nat, j: nat)
    requires StatsOk(stats, x) && i < |stats| && j < |stats| && Share(stats, i, j)
    ensures SameGroup(AllMerged(stats, x).rep, i, j)
  {
    Everything(stats, x);
    var t :| t in stats[i].tables * stats[j].tables;
    assert t in stats[j].tables * stats[i].tables;
    assert Share(stats, j, i);
  }

  /** ... and no two do that are not connected in this way: any equivalence that relates sharing statistics relates them. */
  lemma GroupsLeast(stats: seq<Summary>, x: Setting, rel: Relation, i: nat, j: nat)
    requires StatsOk(stats, x) && Equivalence(rel) && Shares(stats, rel) && SameGroup(AllMerged(stats, x).rep, i, j)
    ensures rel(i, j)
  {
    MergedSound(stats, x, rel);
  }

  /** The root of a group has exactly the tables of its statistics. */
  lemma RootTables(stats: seq<Summary>, x: Setting, r: nat, t: string)
    requires StatsOk(stats, x) && r < |stats| && IsRoot(AllMerged(stats, x).rep, r)
    ensures var g := AllMerged(stats, x);
            t in g.stats[r].tables <==> exists i: nat :: i < |stats| && i in g.rep && g.rep[i] == r && t in stats[i].tables
  {
    var g := AllMerged(stats, x);
    Everything(stats, x);
    assert Grown(stats, g, r);
    if t in g.stats[r].tables {
      assert FromGroup(stats, g.rep, r, t);
    }
    if i: nat :| i < |stats| && i in g.rep && g.rep[i] == r && t in stats[i].tables {
      assert Grown(stats, g, i) && RepOk(g, i);
    }
  }
}

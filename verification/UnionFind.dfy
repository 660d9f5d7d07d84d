/** Equivalence classes of column names, and the path-compressing union-find that computes them. */
module UnionFind {

  /** An equality between two names. */
  type Edge<N> = (N, N)

  // ---- The equivalence that a list of equalities generates ----

  predicate Connected<N(==, !new)>(edges: seq<Edge<N>>, x: N, y: N) {
    if edges == [] then x == y
    else
      var n := |edges| - 1;
      var (a, b) := edges[n];
      || Connected(edges[..n], x, y)
      || (Connected(edges[..n], x, a) && Connected(edges[..n], b, y))
      || (Connected(edges[..n], x, b) && Connected(edges[..n], a, y))
  }

  ghost predicate Equivalence<N(!new)>(rel: (N, N) -> bool) {
    && (forall x :: rel(x, x))
    && (forall x, y :: rel(x, y) ==> rel(y, x))
    && (forall x, y, z :: rel(x, y) && rel(y, z) ==> rel(x, z))
  }

  ghost predicate Contains<N(!new)>(rel: (N, N) -> bool, edges: seq<Edge<N>>) {
    forall i :: 0 <= i < |edges| ==> rel(edges[i].0, edges[i].1)
  }

  function Relation<N(==, !new)>(edges: seq<Edge<N>>): (N, N) -> bool {
    (x, y) => Connected(edges, x, y)
  }

  /** Connectedness is an equivalence that relates the ends of every edge ... */
  lemma {:induction false} ConnectedEquivalence<N(!new)>(edges: seq<Edge<N>>)
    ensures Equivalence(Relation(edges)) && Contains(Relation(edges), edges)
  {
    if edges != [] {
      var n := |edges| - 1;
      var before, after := Relation(edges[..n]), Relation(edges);
      ConnectedEquivalence(edges[..n]);
      var (a, b) := edges[n];
      forall x, y ensures after(x, y) <==> before(x, y) || (before(x, a) && before(b, y)) || (before(x, b) && before(a, y)) {
      }
      ExtendEquivalence(before, after, a, b);
      forall i | 0 <= i < |edges| ensures after(edges[i].0, edges[i].1) {
        if i < n {
          assert edges[..n][i] == edges[i];
        }
      }
    }
  }

  lemma ExtendEquivalence<N(!new)>(before: (N, N) -> bool, after: (N, N) -> bool, a: N, b: N)
    requires Equivalence(before)
    requires forall x, y :: after(x, y) <==> before(x, y) || (before(x, a) && before(b, y)) || (before(x, b) && before(a, y))
    ensures Equivalence(after) && after(a, b)
  {
  }

  /** ... and it is contained in every other such equivalence. */
  lemma {:induction false} ConnectedLeast<N(!new)>(edges: seq<Edge<N>>, rel: (N, N) -> bool, x: N, y: N)
    requires Equivalence(rel) && Contains(rel, edges) && Connected(edges, x, y)
    ensures rel(x, y)
  {
    if edges != [] {
      var n := |edges| - 1;
      var (a, b) := edges[n];
      assert rel(edges[n].0, edges[n].1);
      assert Contains(rel, edges[..n]);
      if Connected(edges[..n], x, y) {
        ConnectedLeast(edges[..n], rel, x, y);
      } else if Connected(edges[..n], x, a) && Connected(edges[..n], b, y) {
        ConnectedLeast(edges[..n], rel, x, a);
        ConnectedLeast(edges[..n], rel, b, y);
      } else {
        ConnectedLeast(edges[..n], rel, x, b);
        ConnectedLeast(edges[..n], rel, a, y);
      }
    }
  }

  /** If every edge of one list is implied by another list, so is every connection. */
  lemma ConnectedMono<N(!new)>(edges: seq<Edge<N>>, others: seq<Edge<N>>, x: N, y: N)
    requires forall i :: 0 <= i < |edges| ==> Connected(others, edges[i].0, edges[i].1)
    requires Connected(edges, x, y)
    ensures Connected(others, x, y)
  {
    ConnectedEquivalence(others);
    ConnectedLeast(edges, Relation(others), x, y);
  }

  lemma ConnectedRefl<N(!new)>(edges: seq<Edge<N>>, x: N)
    ensures Connected(edges, x, x)
  {
    ConnectedEquivalence(edges);
    assert Relation(edges)(x, x);
  }

  lemma ConnectedSym<N(!new)>(edges: seq<Edge<N>>, x: N, y: N)
    requires Connected(edges, x, y)
    ensures Connected(edges, y, x)
  {
    ConnectedEquivalence(edges);
    assert Relation(edges)(x, y);
    assert Relation(edges)(y, x);
  }

  lemma ConnectedTrans<N(!new)>(edges: seq<Edge<N>>, x: N, y: N, z: N)
    requires Connected(edges, x, y) && Connected(edges, y, z)
    ensures Connected(edges, x, z)
  {
    ConnectedEquivalence(edges);
    assert Relation(edges)(x, y) && Relation(edges)(y, z);
    assert Relation(edges)(x, z);
  }

  lemma ConnectedEdge<N(!new)>(edges: seq<Edge<N>>, i: nat)
    requires i < |edges|
    ensures Connected(edges, edges[i].0, edges[i].1)
  {
    ConnectedEquivalence(edges);
    assert Relation(edges)(edges[i].0, edges[i].1);
  }

  function Nodes<N(==, !new)>(edges: seq<Edge<N>>): set<N> {
    (set i | 0 <= i < |edges| :: edges[i].0) + (set i | 0 <= i < |edges| :: edges[i].1)
  }

  /** A name that no edge mentions is connected to itself alone. */
  lemma {:induction false} ConnectedNodes<N(!new)>(edges: seq<Edge<N>>, x: N, y: N)
    requires Connected(edges, x, y) && x != y
    ensures x in Nodes(edges) && y in Nodes(edges)
  {
    if edges != [] {
      var n := |edges| - 1;
      var (a, b) := edges[n];
      assert edges[n].0 in Nodes(edges) && edges[n].1 in Nodes(edges);
      assert Nodes(edges[..n]) <= Nodes(edges);
      if Connected(edges[..n], x, y) {
        ConnectedNodes(edges[..n], x, y);
      } else if Connected(edges[..n], x, a) && Connected(edges[..n], b, y) {
        if x != a { ConnectedNodes(edges[..n], x, a); }
        if y != b { ConnectedNodes(edges[..n], b, y); }
      } else {
        if x != b { ConnectedNodes(edges[..n], x, b); }
        if y != a { ConnectedNodes(edges[..n], a, y); }
      }
    }
  }

  // ---- The parent map ----

  /**
   Following parents reaches a root: every link that is not a root leads to a smaller height, and all
   names along the way have the same representative.
   */
  ghost predicate Acyclic<N(!new)>(parent: map<N, N>, rep: map<N, N>, height: map<N, nat>) {
    && rep.Keys == parent.Keys == height.Keys
    && forall x {:trigger LinkOk(parent, rep, height, x)} :: x in parent ==> LinkOk(parent, rep, height, x)
  }

  ghost predicate LinkOk<N(!new)>(parent: map<N, N>, rep: map<N, N>, height: map<N, nat>, x: N)
    requires x in parent && rep.Keys == parent.Keys == height.Keys
  {
    && rep[x] in parent && parent[rep[x]] == rep[x] && rep[rep[x]] == rep[x]
    && parent[x] in parent && rep[parent[x]] == rep[x]
    && (parent[x] == x <==> rep[x] == x)
    && (parent[x] != x ==> height[parent[x]] < height[x])
  }

  /** Representatives are equal exactly for the names that the edges connect. */
  ghost predicate Represents<N(!new)>(rep: map<N, N>, edges: seq<Edge<N>>) {
    && Nodes(edges) <= rep.Keys
    && forall x, y {:trigger Agrees(rep, edges, x, y)} :: x in rep && y in rep ==> Agrees(rep, edges, x, y)
  }

  ghost predicate Agrees<N(!new)>(rep: map<N, N>, edges: seq<Edge<N>>, x: N, y: N)
    requires x in rep && y in rep
  {
    rep[x] == rep[y] <==> Connected(edges, x, y)
  }

  lemma AddAcyclic<N(!new)>(parent: map<N, N>, rep: map<N, N>, height: map<N, nat>, x: N)
    requires Acyclic(parent, rep, height) && x !in parent
    ensures Acyclic(parent[x := x], rep[x := x], height[x := 0])
  {
    var (parent', rep', height') := (parent[x := x], rep[x := x], height[x := 0]);
    forall u | u in parent' ensures LinkOk(parent', rep', height', u) {
      if u != x {
        assert LinkOk(parent, rep, height, u);
      }
    }
  }

  lemma RepsPresent<N(!new)>(parent: map<N, N>, rep: map<N, N>, height: map<N, nat>)
    requires Acyclic(parent, rep, height)
    ensures forall u :: u in rep ==> rep[u] in rep
  {
    forall u | u in rep ensures rep[u] in rep {
      assert LinkOk(parent, rep, height, u);
    }
  }

  lemma AddRepresents<N(!new)>(rep: map<N, N>, edges: seq<Edge<N>>, x: N)
    requires Represents(rep, edges) && x !in rep
    requires forall u :: u in rep ==> rep[u] in rep
    ensures Represents(rep[x := x], edges)
  {
    var after := rep[x := x];
    forall u, v | u in after && v in after ensures Agrees(after, edges, u, v) {
      ConnectedRefl(edges, x);
      assert u in rep && v in rep ==> Agrees(rep, edges, u, v);
      if u != v && (u == x || v == x) && Connected(edges, u, v) {
        ConnectedNodes(edges, u, v);
      }
    }
  }

  lemma CompressAcyclic<N(!new)>(parent: map<N, N>, rep: map<N, N>, height: map<N, nat>, x: N)
    requires Acyclic(parent, rep, height) && x in parent
    requires rep[x] in height && (x != rep[x] ==> height[rep[x]] < height[x])
    ensures Acyclic(parent[x := rep[x]], rep, height)
  {
    forall u | u in parent ensures LinkOk(parent[x := rep[x]], rep, height, u) {
      assert LinkOk(parent, rep, height, u) && LinkOk(parent, rep, height, x);
    }
  }

  function Redirect<N(==, !new)>(rep: map<N, N>, rb: N, ra: N): map<N, N> {
    map x | x in rep :: if rep[x] == rb then ra else rep[x]
  }

  function Raise<N(==, !new)>(height: map<N, nat>, rep: map<N, N>, rb: N, ra: N): map<N, nat>
    requires rep.Keys == height.Keys && ra in height
  {
    if ra == rb then height else map x | x in height :: if rep[x] == rb then height[x] + height[ra] + 1 else height[x]
  }

  lemma LinkAcyclic<N(!new)>(parent: map<N, N>, rep: map<N, N>, height: map<N, nat>, rb: N, ra: N)
    requires Acyclic(parent, rep, height) && ra in parent && rb in parent && rep[ra] == ra && rep[rb] == rb && ra != rb
    ensures Acyclic(parent[rb := ra], Redirect(rep, rb, ra), Raise(height, rep, rb, ra))
  {
    forall u | u in parent ensures LinkOk(parent[rb := ra], Redirect(rep, rb, ra), Raise(height, rep, rb, ra), u) {
      assert LinkOk(parent, rep, height, u) && LinkOk(parent, rep, height, ra) && LinkOk(parent, rep, height, rb);
      assert LinkOk(parent, rep, height, rep[u]);
    }
  }

  lemma ConnectedSnoc<N(!new)>(edges: seq<Edge<N>>, a: N, b: N, x: N, y: N)
    ensures Connected(edges + [(a, b)], x, y) <==>
            || Connected(edges, x, y)
            || (Connected(edges, x, a) && Connected(edges, b, y))
            || (Connected(edges, x, b) && Connected(edges, a, y))
  {
    assert (edges + [(a, b)])[..|edges|] == edges;
  }

  /** Redirecting one representative to the other relates exactly what the new edge connects. */
  lemma LinkRepresents<N(!new)>(rep: map<N, N>, edges: seq<Edge<N>>, a: N, b: N, rb: N, ra: N)
    requires Represents(rep, edges) && a in rep && b in rep
    requires (rep[a] == ra && rep[b] == rb) || (rep[a] == rb && rep[b] == ra)
    ensures Represents(Redirect(rep, rb, ra), edges + [(a, b)])
  {
    var after, more := Redirect(rep, rb, ra), edges + [(a, b)];
    forall x, y | x in after && y in after ensures Agrees(after, more, x, y) {
      ConnectedSnoc(edges, a, b, x, y);
      assert Agrees(rep, edges, x, y) && Agrees(rep, edges, x, a) && Agrees(rep, edges, x, b);
      assert Agrees(rep, edges, a, y) && Agrees(rep, edges, b, y);
    }
    assert Nodes(more) == Nodes(edges) + {a, b} by {
      assert more[|edges|] == (a, b);
      assert forall i :: 0 <= i < |edges| ==> more[i] == edges[i];
    }
  }

  lemma RedirectSame<N(!new)>(rep: map<N, N>, r: N)
    ensures Redirect(rep, r, r) == rep
  {
  }

  /** The whole invariant, on values. */
  ghost predicate Sound<N(!new)>(parent: map<N, N>, rep: map<N, N>, height: map<N, nat>, edges: seq<Edge<N>>) {
    Acyclic(parent, rep, height) && Represents(rep, edges)
  }

  /** The assignment `parent[rb] = ra` between the roots of two names unites their classes and no others. */
  lemma LinkSound<N(!new)>(parent: map<N, N>, rep: map<N, N>, height: map<N, nat>, edges: seq<Edge<N>>,
                  a: N, b: N, rb: N, ra: N)
    requires Sound(parent, rep, height, edges) && a in parent && b in parent
    requires (rep[a] == ra && rep[b] == rb) || (rep[a] == rb && rep[b] == ra)
    ensures ra in parent && parent[rb := ra].Keys == parent.Keys && (ra == rb ==> parent[rb := ra] == parent)
    ensures Sound(parent[rb := ra], Redirect(rep, rb, ra), Raise(height, rep, rb, ra), edges + [(a, b)])
  {
    assert LinkOk(parent, rep, height, a) && LinkOk(parent, rep, height, b);
    LinkRepresents(rep, edges, a, b, rb, ra);
    if ra != rb {
      LinkAcyclic(parent, rep, height, rb, ra);
    } else {
      RedirectSame(rep, ra);
      assert parent[rb := ra] == parent;
    }
  }

  class Forest<N(==, !new)> {
    var parent: map<N, N>
    /** The representative of every name, a height that falls along the links, and what was united. */
    ghost var rep: map<N, N>
    ghost var height: map<N, nat>
    ghost var edges: seq<Edge<N>>

    ghost predicate Valid()
      reads this
    {
      Sound(parent, rep, height, edges)
    }

    constructor ()
      ensures Valid() && edges == [] && parent == map[]
    {
      parent, rep, height, edges := map[], map[], map[], [];
    }

    /**
     Returns the representative. A new name becomes a class of its own; apart from that no
     representative changes, however many links are compressed, and no height either.
     */
    method Find(x: N) returns (r: N)
      requires Valid()
      modifies this`parent, this`rep, this`height
      ensures Valid() && parent.Keys == old(parent.Keys) + {x}
      ensures rep == (if x in old(rep) then old(rep) else old(rep)[x := x])
      ensures height == (if x in old(height) then old(height) else old(height)[x := 0])
      ensures r == rep[x] == parent[x] && r in height && (x != r ==> height[r] < height[x])
      decreases if x in parent then height[x] + 1 else 0
    {
      if x !in parent {
        AddAcyclic(parent, rep, height, x);
        RepsPresent(parent, rep, height);
        AddRepresents(rep, edges, x);
        parent := parent[x := x];
        rep, height := rep[x := x], height[x := 0];
        return x;
      }
      var p := parent[x];
      assert LinkOk(parent, rep, height, x);
      if p != x {
        r := Find(p);
        CompressAcyclic(parent, rep, height, x);
        parent := parent[x := r];
      }
      r := parent[x];
    }

    method Roots(a: N, b: N) returns (ra: N, rb: N)
      requires Valid()
      modifies this`parent, this`rep, this`height
      ensures Valid() && parent.Keys == old(parent.Keys) + {a, b}
      ensures ra == rep[a] && rb == rep[b]
    {
      ra := Find(a);
      rb := Find(b);
    }

    /** The assignment `parent[rb] = ra`. */
    method Link(rb: N, ra: N, ghost a: N, ghost b: N)
      requires Valid() && a in parent && b in parent
      requires (rep[a] == ra && rep[b] == rb) || (rep[a] == rb && rep[b] == ra)
      modifies this
      ensures Valid() && edges == old(edges) + [(a, b)] && parent.Keys == old(parent.Keys)
    {
      LinkSound(parent, rep, height, edges, a, b, rb, ra);
      parent := parent[rb := ra];
      rep, height, edges := Redirect(rep, rb, ra), Raise(height, rep, rb, ra), edges + [(a, b)];
    }

    /** An edge inside a class changes nothing. */
    ghost method Note(a: N, b: N)
      requires Valid() && a in parent && b in parent && rep[a] == rep[b]
      modifies this`edges
      ensures Valid() && edges == old(edges) + [(a, b)]
    {
      LinkRepresents(rep, edges, a, b, rep[b], rep[a]);
      RedirectSame(rep, rep[a]);
      edges := edges + [(a, b)];
    }

    method Union(a: N, b: N)
      requires Valid()
      modifies this
      ensures Valid() && edges == old(edges) + [(a, b)]
      ensures parent.Keys == old(parent.Keys) + {a, b}
    {
      var ra, rb := Roots(a, b);
      if ra != rb {
        Link(rb, ra, a, b);
      } else {
        Note(a, b);
      }
    }

    /** The variant `parent[find(x)] = find(y)`: the right-hand side is found first, and equal roots are not tested for. */
    method UnionInto(x: N, y: N)
      requires Valid()
      modifies this
      ensures Valid() && edges == old(edges) + [(x, y)]
      ensures parent.Keys == old(parent.Keys) + {x, y}
    {
      var ry, rx := Roots(y, x);
      Link(rx, ry, x, y);
    }

    /** Equal representatives mean connected by the edges united so far. */
    method SameClass(x: N, y: N) returns (same: bool)
      requires Valid()
      modifies this`parent, this`rep, this`height
      ensures Valid() && same == Connected(edges, x, y)
    {
      var rx := Find(x);
      var ry := Find(y);
      assert Agrees(rep, edges, x, y);
      same := rx == ry;
    }
  }
}

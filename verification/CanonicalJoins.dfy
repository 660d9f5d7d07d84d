/** One canonical set of equalities per equivalence: every column equals the least of its class. */
module CanonicalJoins {
  import opened UnionFind
  import opened Ordering

  type Column = string
  type Join = (Column, Column)

  // ---- What is canonical ----

  /** No name of the class comes before `a`. */
  ghost predicate Least(edges: seq<Join>, a: Column) {
    forall y :: Connected(edges, a, y) ==> Leq(a, y)
  }

  ghost predicate InStar(edges: seq<Join>, a: Column, b: Column) {
    a != b && Connected(edges, a, b) && Least(edges, a)
  }

  /** The star of equalities of every class with at least two columns, and nothing else. */
  ghost predicate IsCanonical(edges: seq<Join>, joins: set<Join>) {
    forall a, b :: (a, b) in joins <==> InStar(edges, a, b)
  }

  /** The two lists generate the same classes. */
  ghost predicate SameClasses(es: seq<Join>, fs: seq<Join>) {
    forall x, y :: Connected(es, x, y) <==> Connected(fs, x, y)
  }

  lemma {:induction false} Minimum(s: set<Column>) returns (m: Column)
    requires s != {}
    ensures m in s && forall y :: y in s ==> Leq(m, y)
    decreases |s|
  {
    m :| m in s;
    var rest := s - {m};
    LeqReflexive(m);
    if rest != {} {
      var n := Minimum(rest);
      LeqTotal(m, n);
      if Leq(m, n) {
        forall y | y in s ensures Leq(m, y) {
          if y != m { LeqTransitive(m, n, y); }
        }
      } else {
        m := n;
      }
    }
  }

  /** Every column has a least companion. */
  lemma LeastOf(edges: seq<Join>, x: Column) returns (a: Column)
    ensures Connected(edges, a, x) && Least(edges, a)
  {
    ConnectedRefl(edges, x);
    var class_ := set y | y in Nodes(edges) + {x} && Connected(edges, x, y);
    assert x in class_;
    a := Minimum(class_);
    ConnectedSym(edges, x, a);
    forall y | Connected(edges, a, y) ensures Leq(a, y) {
      ConnectedTrans(edges, x, a, y);
      if x != y {
        ConnectedNodes(edges, x, y);
      }
      assert y in class_;
    }
  }

  // ---- Sound and complete ----

  lemma LeastSame(es: seq<Join>, fs: seq<Join>, a: Column)
    requires SameClasses(es, fs) && Least(es, a)
    ensures Least(fs, a)
  {
  }

  lemma SameClassesSym(es: seq<Join>, fs: seq<Join>)
    requires SameClasses(es, fs)
    ensures SameClasses(fs, es)
  {
  }

  lemma SameStars(es: seq<Join>, fs: seq<Join>, a: Column, b: Column)
    requires SameClasses(es, fs) && InStar(es, a, b)
    ensures InStar(fs, a, b)
  {
    LeastSame(es, fs, a);
    assert Connected(es, a, b) <==> Connected(fs, a, b);
  }

  /** A connection in `es` is a connection in whatever list has the same canonical equalities. */
  lemma ThroughStar(es: seq<Join>, fs: seq<Join>, joins: set<Join>, x: Column, y: Column)
    requires IsCanonical(es, joins) && (forall a, b :: (a, b) in joins ==> Connected(fs, a, b))
    requires Connected(es, x, y)
    ensures Connected(fs, x, y)
  {
    var a := LeastOf(es, x);
    ConnectedRefl(fs, a);
    assert Connected(fs, a, x) by {
      if a != x { assert InStar(es, a, x); }
    }
    ConnectedTrans(es, a, x, y);
    assert Connected(fs, a, y) by {
      if a != y { assert InStar(es, a, y); }
    }
    ConnectedSym(fs, a, x);
    ConnectedTrans(fs, x, a, y);
  }

  /**
   Two lists of equalities have the same canonical form if and only if they generate the same
   classes.
   */
  lemma CanonicalIff(es: seq<Join>, fs: seq<Join>, js: set<Join>, ks: set<Join>)
    requires IsCanonical(es, js) && IsCanonical(fs, ks)
    ensures js == ks <==> SameClasses(es, fs)
  {
    if js == ks {
      forall x, y ensures Connected(es, x, y) <==> Connected(fs, x, y) {
        StarConnects(es, js);
        StarConnects(fs, ks);
        if Connected(es, x, y) { ThroughStar(es, fs, js, x, y); }
        if Connected(fs, x, y) { ThroughStar(fs, es, ks, x, y); }
      }
    }
    if SameClasses(es, fs) {
      SameClassesSym(es, fs);
      forall j ensures j in js <==> j in ks {
        var (a, b) := j;
        if InStar(es, a, b) { SameStars(es, fs, a, b); }
        if InStar(fs, a, b) { SameStars(fs, es, a, b); }
      }
    }
  }

  lemma StarConnects(es: seq<Join>, js: set<Join>)
    requires IsCanonical(es, js)
    ensures forall a, b :: (a, b) in js ==> Connected(es, a, b)
  {
    forall a, b | (a, b) in js ensures Connected(es, a, b) {
      assert InStar(es, a, b);
    }
  }

  /** `list` enumerates `joins`, in any order and with or without repetitions. */
  ghost predicate Lists(list: seq<Join>, joins: set<Join>) {
    forall j :: j in list <==> j in joins
  }

  /** The canonical equalities generate the classes they were made from ... */
  lemma CanonicalClasses(edges: seq<Join>, joins: set<Join>, list: seq<Join>)
    requires IsCanonical(edges, joins) && Lists(list, joins)
    ensures SameClasses(edges, list)
  {
    forall a, b | (a, b) in joins ensures Connected(list, a, b) {
      var i :| 0 <= i < |list| && list[i] == (a, b);
      ConnectedEdge(list, i);
    }
    StarConnects(edges, joins);
    forall x, y ensures Connected(edges, x, y) <==> Connected(list, x, y) {
      if Connected(edges, x, y) { ThroughStar(edges, list, joins, x, y); }
      if Connected(list, x, y) {
        forall i | 0 <= i < |list| ensures Connected(edges, list[i].0, list[i].1) {
          assert list[i] in joins && list[i] == (list[i].0, list[i].1);
        }
        ConnectedMono(list, edges, x, y);
      }
    }
  }

  /** ... so canonicalising them again changes nothing. */
  lemma CanonicalIdempotent(edges: seq<Join>, joins: set<Join>, list: seq<Join>, again: set<Join>)
    requires IsCanonical(edges, joins) && Lists(list, joins) && IsCanonical(list, again)
    ensures again == joins
  {
    CanonicalClasses(edges, joins, list);
    CanonicalIff(edges, list, joins, again);
  }

  /** Every equality of one list is in the other, one way round or the other. */
  ghost predicate Covers(es: seq<Join>, fs: seq<Join>) {
    forall i :: 0 <= i < |fs| ==> fs[i] in es || (fs[i].1, fs[i].0) in es
  }

  lemma CoversConnects(es: seq<Join>, fs: seq<Join>, x: Column, y: Column)
    requires Covers(es, fs) && Connected(fs, x, y)
    ensures Connected(es, x, y)
  {
    forall i | 0 <= i < |fs| ensures Connected(es, fs[i].0, fs[i].1) {
      if fs[i] in es {
        var k :| 0 <= k < |es| && es[k] == fs[i];
        ConnectedEdge(es, k);
      } else {
        var k :| 0 <= k < |es| && es[k] == (fs[i].1, fs[i].0);
        ConnectedEdge(es, k);
        ConnectedSym(es, fs[i].1, fs[i].0);
      }
    }
    ConnectedMono(fs, es, x, y);
  }

  /** Neither the order nor the orientation nor a repetition of the equalities matters. */
  lemma AnyOrder(es: seq<Join>, fs: seq<Join>, js: set<Join>, ks: set<Join>)
    requires Covers(es, fs) && Covers(fs, es) && IsCanonical(es, js) && IsCanonical(fs, ks)
    ensures js == ks
  {
    forall x, y ensures Connected(es, x, y) <==> Connected(fs, x, y) {
      if Connected(es, x, y) { CoversConnects(fs, es, x, y); }
      if Connected(fs, x, y) { CoversConnects(es, fs, x, y); }
    }
    CanonicalIff(es, fs, js, ks);
  }

  // ---- Computing it ----

  /** A list of all members of one class. */
  ghost predicate IsClass(edges: seq<Join>, xs: seq<Column>) {
    && xs != []
    && forall x, y :: x in xs ==> (y in xs <==> y in Nodes(edges) && Connected(edges, x, y))
  }

  /** `sorted(set(xs))`, its first element equated with the others. */
  method StarOf(xs: seq<Column>) returns (joins: set<Join>, anchor: Column)
    requires xs != []
    ensures anchor in xs && forall y :: y in xs ==> Leq(anchor, y)
    ensures forall a, b :: (a, b) in joins <==> a == anchor && b in xs && b != anchor
  {
    var nodes := Sort(xs);
    SortedFirst(xs);
    anchor := nodes[0];
    joins := {};
    for i := 0 to |nodes|
      invariant IsStar(joins, anchor, nodes[..i])
    {
      StarStep(joins, anchor, nodes, i);
      if nodes[i] != anchor {
        joins := joins + {(anchor, nodes[i])};
      }
    }
    assert nodes[..|nodes|] == nodes;
  }

  /** The anchor equated with all other columns. */
  ghost predicate IsStar(joins: set<Join>, anchor: Column, columns: seq<Column>) {
    forall a, b :: (a, b) in joins <==> a == anchor && b != anchor && b in columns
  }

  lemma StarStep(joins: set<Join>, anchor: Column, nodes: seq<Column>, i: nat)
    requires i < |nodes| && IsStar(joins, anchor, nodes[..i])
    ensures IsStar(if nodes[i] != anchor then joins + {(anchor, nodes[i])} else joins, anchor, nodes[..i + 1])
  {
    assert nodes[..i + 1] == nodes[..i] + [nodes[i]];
  }

  lemma SortedFirst(xs: seq<Column>)
    requires xs != []
    ensures Sort(xs) != [] && (forall x :: x in Sort(xs) <==> x in xs) && forall x :: x in xs ==> Leq(Sort(xs)[0], x)
  {
    var nodes := Sort(xs);
    SortSorted(xs);
    assert forall x :: x in xs <==> x in multiset(xs);
    assert forall x :: x in nodes <==> x in multiset(nodes);
    LeqReflexive(nodes[0]);
  }

  lemma ClassStar(edges: seq<Join>, xs: seq<Column>, anchor: Column, a: Column, b: Column)
    requires IsClass(edges, xs) && anchor in xs && forall y :: y in xs ==> Leq(anchor, y)
    requires a in xs
    ensures InStar(edges, a, b) <==> a == anchor && b in xs && b != anchor
  {
    if InStar(edges, a, b) {
      ConnectedNodes(edges, a, b);
      assert Connected(edges, a, anchor);
      assert Leq(a, anchor) && Leq(anchor, a);
      LeqAntisymmetric(a, anchor);
    }
    if a == anchor && b in xs && b != anchor {
      forall y | Connected(edges, a, y) ensures Leq(a, y) {
        if a != y { ConnectedNodes(edges, a, y); }
      }
    }
  }

  /** The columns grouped so far: each under its representative. */
  ghost predicate Grouped(comps: map<Column, seq<Column>>, rep: map<Column, Column>, names: set<Column>) {
    && names <= rep.Keys
    && (forall r :: r in comps ==> comps[r] != [])
    && (forall r, x :: r in comps && x in comps[r] ==> x in names && rep[x] == r)
    && (forall x :: x in names ==> rep[x] in comps && x in comps[rep[x]])
  }

  function Append(comps: map<Column, seq<Column>>, r: Column, x: Column): map<Column, seq<Column>> {
    comps[r := (if r in comps then comps[r] else []) + [x]]
  }

  lemma AppendGrouped(comps: map<Column, seq<Column>>, rep: map<Column, Column>, names: set<Column>, x: Column)
    requires Grouped(comps, rep, names) && x in rep
    ensures Grouped(Append(comps, rep[x], x), rep, names + {x})
  {
  }

  lemma GroupIsClass(edges: seq<Join>, comps: map<Column, seq<Column>>, rep: map<Column, Column>, r: Column)
    requires Grouped(comps, rep, Nodes(edges)) && Represents(rep, edges) && r in comps
    ensures IsClass(edges, comps[r])
  {
    var xs := comps[r];
    forall x, y | x in xs ensures y in xs <==> y in Nodes(edges) && Connected(edges, x, y) {
      if y in Nodes(edges) {
        assert Agrees(rep, edges, x, y);
      }
    }
  }

  /** The loop over the components. */
  method Stars(edges: seq<Join>, comps: map<Column, seq<Column>>, ghost rep: map<Column, Column>) returns (joins: set<Join>)
    requires Grouped(comps, rep, Nodes(edges)) && Represents(rep, edges)
    ensures IsCanonical(edges, joins)
  {
    joins := {};
    var todo := comps.Keys;
    while todo != {}
      invariant todo <= comps.Keys
      invariant Collected(edges, joins, rep, todo)
      decreases todo
    {
      var r :| r in todo;
      var star, anchor := StarOf(comps[r]);
      GroupIsClass(edges, comps, rep, r);
      AddStar(edges, joins, comps, rep, todo, r, star, anchor);
      joins := joins + star;
      todo := todo - {r};
    }
    forall a, b ensures (a, b) in joins <==> InStar(edges, a, b) {
      assert Done(edges, joins, rep, todo, a, b);
      if InStar(edges, a, b) { ConnectedNodes(edges, a, b); }
    }
  }

  /** The stars of all components but those in `todo` have been collected. */
  ghost predicate Collected(edges: seq<Join>, joins: set<Join>, rep: map<Column, Column>, todo: set<Column>) {
    && Nodes(edges) <= rep.Keys
    && forall a, b {:trigger Done(edges, joins, rep, todo, a, b)} :: Done(edges, joins, rep, todo, a, b)
  }

  ghost predicate Done(edges: seq<Join>, joins: set<Join>, rep: map<Column, Column>, todo: set<Column>, a: Column, b: Column) {
    (a, b) in joins <==> InStar(edges, a, b) && a in Nodes(edges) && a in rep && rep[a] !in todo
  }

  lemma AddStar(edges: seq<Join>, joins: set<Join>, comps: map<Column, seq<Column>>, rep: map<Column, Column>,
                todo: set<Column>, r: Column, star: set<Join>, anchor: Column)
    requires Grouped(comps, rep, Nodes(edges)) && Collected(edges, joins, rep, todo)
    requires r in todo && r in comps && IsClass(edges, comps[r])
    requires anchor in comps[r] && forall y :: y in comps[r] ==> Leq(anchor, y)
    requires forall a, b :: (a, b) in star <==> a == anchor && b in comps[r] && b != anchor
    ensures Collected(edges, joins + star, rep, todo - {r})
  {
    forall a, b ensures Done(edges, joins + star, rep, todo - {r}, a, b) {
      assert Done(edges, joins, rep, todo, a, b);
      if a in comps[r] {
        ClassStar(edges, comps[r], anchor, a, b);
      }
    }
  }

  lemma NodesStep(edges: seq<Join>, i: nat)
    requires i < |edges|
    ensures Nodes(edges[..i + 1]) == Nodes(edges[..i]) + {edges[i].0, edges[i].1}
  {
    var es := edges[..i + 1];
    assert es[i] == edges[i];
    assert forall k :: 0 <= k < i ==> es[k] == edges[..i][k];
  }

  method UnionAll(edges: seq<Join>) returns (uf: Forest<Column>)
    ensures fresh(uf) && uf.Valid() && uf.edges == edges
  {
    uf := new Forest<Column>();
    for i := 0 to |edges|
      invariant uf.Valid() && uf.edges == edges[..i] && fresh(uf)
    {
      uf.Union(edges[i].0, edges[i].1);
      assert edges[..i + 1] == edges[..i] + [edges[i]];
    }
    assert edges[..|edges|] == edges;
  }

  /** `comps.setdefault(uf.find(x), []).append(x)` */
  method GroupOne(uf: Forest<Column>, comps: map<Column, seq<Column>>, x: Column, ghost names: set<Column>)
    returns (more: map<Column, seq<Column>>)
    requires uf.Valid() && x in uf.parent && Grouped(comps, uf.rep, names)
    modifies uf`parent, uf`rep, uf`height
    ensures uf.Valid() && uf.rep == old(uf.rep) && uf.parent.Keys == old(uf.parent.Keys)
    ensures Grouped(more, uf.rep, names + {x})
  {
    var r := uf.Find(x);
    AppendGrouped(comps, uf.rep, names, x);
    more := Append(comps, r, x);
  }

  method GroupEnds(uf: Forest<Column>, edges: seq<Join>) returns (comps: map<Column, seq<Column>>)
    requires uf.Valid() && uf.edges == edges
    modifies uf`parent, uf`rep, uf`height
    ensures uf.rep == old(uf.rep) && Grouped(comps, uf.rep, Nodes(edges))
  {
    comps := map[];
    for i := 0 to |edges|
      invariant uf.Valid() && uf.rep == old(uf.rep)
      invariant Grouped(comps, uf.rep, Nodes(edges[..i]))
    {
      assert edges[i].0 in Nodes(edges) && edges[i].1 in Nodes(edges);
      comps := GroupOne(uf, comps, edges[i].0, Nodes(edges[..i]));
      comps := GroupOne(uf, comps, edges[i].1, Nodes(edges[..i]) + {edges[i].0});
      NodesStep(edges, i);
      assert Nodes(edges[..i]) + {edges[i].0} + {edges[i].1} == Nodes(edges[..i + 1]);
    }
    assert edges[..|edges|] == edges;
  }

  /** The canonical equalities of a normalised subquery: every end of every equality is grouped. */
  method CanonicalPredicates(edges: seq<Join>) returns (joins: set<Join>)
    ensures IsCanonical(edges, joins)
  {
    var uf := UnionAll(edges);
    ghost var rep := uf.rep;
    var comps := GroupEnds(uf, edges);
    joins := Stars(edges, comps, rep);
  }

  /** One equality: a union, and then the two names are looked up once more. */
  method Unite(uf: Forest<Column>, a: Column, b: Column)
    requires uf.Valid()
    modifies uf
    ensures uf.Valid() && uf.edges == old(uf.edges) + [(a, b)] && uf.parent.Keys == old(uf.parent.Keys) + {a, b}
  {
    uf.UnionInto(a, b);
    var _, _ := uf.Roots(a, b);
  }

  method UniteAll(edges: seq<Join>) returns (uf: Forest<Column>)
    ensures fresh(uf) && uf.Valid() && uf.edges == edges && uf.parent.Keys == Nodes(edges)
  {
    uf := new Forest<Column>();
    for i := 0 to |edges|
      invariant uf.Valid() && uf.edges == edges[..i] && fresh(uf)
      invariant uf.parent.Keys == Nodes(edges[..i])
    {
      Unite(uf, edges[i].0, edges[i].1);
      assert edges[..i + 1] == edges[..i] + [edges[i]];
      NodesStep(edges, i);
    }
    assert edges[..|edges|] == edges;
  }

  method GroupNames(uf: Forest<Column>) returns (comps: map<Column, seq<Column>>)
    requires uf.Valid()
    modifies uf
    ensures uf.Valid() && uf.rep == old(uf.rep) && Grouped(comps, uf.rep, old(uf.parent.Keys))
  {
    var names := uf.parent.Keys;
    comps := map[];
    ghost var seen: set<Column> := {};
    while names != {}
      invariant uf.Valid() && uf.rep == old(uf.rep) && uf.parent.Keys == old(uf.parent.Keys)
      invariant seen + names == old(uf.parent.Keys)
      invariant Grouped(comps, uf.rep, seen)
      decreases names
    {
      var n :| n in names;
      assert n in uf.parent;
      comps := GroupOne(uf, comps, n, seen);
      names, seen := names - {n}, seen + {n};
    }
    assert seen == old(uf.parent.Keys);
  }

  /** The canonical equalities of a signature: one pass unites, a second groups the names of the parent map. */
  method SignatureJoins(edges: seq<Join>) returns (joins: set<Join>)
    ensures IsCanonical(edges, joins)
  {
    var uf := UniteAll(edges);
    ghost var rep := uf.rep;
    var comps := GroupNames(uf);
    joins := Stars(edges, comps, rep);
  }
}

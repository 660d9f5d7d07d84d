/** The inheritance tree: the duplicate check, and the round trip it makes possible. */
module SerializationTree {
  import opened Serialization
  import opened SerializationRoundTrip

  // ---- From the root to a class ----

  /** The case that an object takes; its enum members decide. */
  function Chosen(node: Node, obj: string -> Value): nat
    requires node.Base?
  {
    FindCase(node.cases, obj(node.enumValue))
  }

  /** The classes from `node` down to the object's own class. */
  function Lineage(node: Node, obj: string -> Value): seq<Node> {
    if node.Leaf? || Chosen(node, obj) == |node.cases| then [node]
    else [node] + Lineage(node.cases[Chosen(node, obj)].node, obj)
  }

  /** The members that a class writes: `Serialize` of its base class comes first. */
  function Written(lineage: seq<Node>): seq<Member> {
    if lineage == [] then [] else Written(lineage[..|lineage| - 1]) + lineage[|lineage| - 1].members
  }

  /** The members in the order in which Deserialize meets them. */
  function Met(node: Node, obj: string -> Value): seq<Member> {
    if node.Leaf? || Chosen(node, obj) == |node.cases| then node.members
    else node.members + Met(node.cases[Chosen(node, obj)].node, obj)
  }

  lemma Associates<A>(a: seq<A>, b: seq<A>, c: seq<A>)
    ensures a + b + c == a + (b + c)
  {
  }

  lemma WrittenSnoc(all: seq<Node>, before: seq<Node>, last: Node)
    requires all == before + [last]
    ensures Written(all) == Written(before) + last.members
  {
    assert all[..|all| - 1] == before;
  }

  lemma {:induction false} WrittenCons(node: Node, rest: seq<Node>)
    ensures Written([node] + rest) == node.members + Written(rest)
    decreases |rest|
  {
    if rest == [] {
      assert [node] + rest == [node] && [node][..0] == [];
      assert Written([node]) == Written([]) + node.members;
    } else {
      var k := |rest| - 1;
      WrittenCons(node, rest[..k]);
      assert rest == rest[..k] + [rest[k]];
      Associates([node], rest[..k], [rest[k]]);
      WrittenSnoc([node] + rest, [node] + rest[..k], rest[k]);
      WrittenSnoc(rest, rest[..k], rest[k]);
      Associates(node.members, Written(rest[..k]), rest[k].members);
    }
  }

  /** Members are read in the order in which they are written, base before derived. */
  lemma {:induction false} SameOrder(node: Node, obj: string -> Value)
    ensures Written(Lineage(node, obj)) == Met(node, obj)
  {
    if node.Leaf? || Chosen(node, obj) == |node.cases| {
      WrittenCons(node, []);
      assert [node] + [] == [node];
    } else {
      var child := node.cases[Chosen(node, obj)].node;
      SameOrder(child, obj);
      WrittenCons(node, Lineage(child, obj));
    }
  }

  // ---- The duplicate check ----

  predicate Fresh(ms: seq<Member>, names: set<string>, ids: set<nat>) {
    && (forall i :: 0 <= i < |ms| ==> ms[i].name !in names && ms[i].id !in ids)
    && (forall i, j :: 0 <= i < j < |ms| ==> ms[i].name != ms[j].name && ms[i].id != ms[j].id)
  }

  function NamesOf(ms: seq<Member>): set<string> {
    set m | m in ms :: m.name
  }

  function IdsOf(ms: seq<Member>): set<nat> {
    set m | m in ms :: m.id
  }

  method CheckMembers(ms: seq<Member>, seenNames: set<string>, seenIds: set<nat>)
    returns (ok: bool, names: set<string>, ids: set<nat>)
    ensures ok <==> Fresh(ms, seenNames, seenIds)
    ensures ok ==> names == seenNames + NamesOf(ms) && ids == seenIds + IdsOf(ms)
  {
    names, ids := seenNames, seenIds;
    for k := 0 to |ms|
      invariant Fresh(ms[..k], seenNames, seenIds)
      invariant names == seenNames + NamesOf(ms[..k]) && ids == seenIds + IdsOf(ms[..k])
    {
      var m := ms[k];
      assert ms[..k + 1] == ms[..k] + [m];
      if m.name in names || m.id in ids {
        NotFresh(ms, k, seenNames, seenIds);
        return false, names, ids;
      }
      FreshNext(ms[..k], m, seenNames, seenIds);
      names, ids := names + {m.name}, ids + {m.id};
    }
    assert ms[..|ms|] == ms;
    ok := true;
  }

  lemma FreshNext(ms: seq<Member>, m: Member, names: set<string>, ids: set<nat>)
    requires Fresh(ms, names, ids) && m.name !in names + NamesOf(ms) && m.id !in ids + IdsOf(ms)
    ensures Fresh(ms + [m], names, ids)
    ensures NamesOf(ms + [m]) == NamesOf(ms) + {m.name} && IdsOf(ms + [m]) == IdsOf(ms) + {m.id}
  {
    MoreNames(ms, m);
    forall i | 0 <= i < |ms| ensures ms[i].name != m.name && ms[i].id != m.id {
      assert ms[i] in ms && ms[i].name in NamesOf(ms) && ms[i].id in IdsOf(ms);
    }
  }

  lemma MoreNames(ms: seq<Member>, m: Member)
    ensures NamesOf(ms + [m]) == NamesOf(ms) + {m.name} && IdsOf(ms + [m]) == IdsOf(ms) + {m.id}
  {
    forall n ensures n in NamesOf(ms + [m]) <==> n in NamesOf(ms) + {m.name} {
      assert forall x :: x in ms + [m] <==> x in ms || x == m;
    }
    forall i ensures i in IdsOf(ms + [m]) <==> i in IdsOf(ms) + {m.id} {
      assert forall x :: x in ms + [m] <==> x in ms || x == m;
    }
  }

  lemma NotFresh(ms: seq<Member>, k: nat, names: set<string>, ids: set<nat>)
    requires k < |ms| && (ms[k].name in names + NamesOf(ms[..k]) || ms[k].id in ids + IdsOf(ms[..k]))
    ensures !Fresh(ms, names, ids)
  {
    if ms[k].name in NamesOf(ms[..k]) {
      var m :| m in ms[..k] && m.name == ms[k].name;
      var i :| 0 <= i < k && ms[..k][i] == m;
      assert ms[i].name == ms[k].name;
    } else if ms[k].id in IdsOf(ms[..k]) {
      var m :| m in ms[..k] && m.id == ms[k].id;
      var i :| 0 <= i < k && ms[..k][i] == m;
      assert ms[i].id == ms[k].id;
    }
  }

  /** The recursion over the tree: every child gets its own copy of what was seen. */
  predicate Checks(node: Node, names: set<string>, ids: set<nat>) {
    && Fresh(node.members, names, ids)
    && (node.Base? ==> forall i :: 0 <= i < |node.cases| ==>
          Checks(node.cases[i].node, names + NamesOf(node.members), ids + IdsOf(node.members)))
  }

  method CheckChildrenForDuplicateMembers(node: Node, seenNames: set<string>, seenIds: set<nat>) returns (ok: bool)
    ensures ok == Checks(node, seenNames, seenIds)
    decreases node
  {
    var fine, names, ids := CheckMembers(node.members, seenNames, seenIds);
    if !fine {
      return false;
    }
    if node.Base? {
      for i := 0 to |node.cases|
        invariant forall j :: 0 <= j < i ==> Checks(node.cases[j].node, names, ids)
      {
        var sub := CheckChildrenForDuplicateMembers(node.cases[i].node, names, ids);
        if !sub {
          return false;
        }
      }
    }
    ok := true;
  }

  lemma FreshAppend(a: seq<Member>, b: seq<Member>, names: set<string>, ids: set<nat>)
    ensures Fresh(a + b, names, ids) <==> Fresh(a, names, ids) && Fresh(b, names + NamesOf(a), ids + IdsOf(a))
  {
    var all := a + b;
    if Fresh(all, names, ids) {
      forall i | 0 <= i < |a| ensures a[i].name !in names && a[i].id !in ids {
        assert all[i] == a[i];
      }
      forall i, j | 0 <= i < j < |a| ensures a[i].name != a[j].name && a[i].id != a[j].id {
        assert all[i] == a[i] && all[j] == a[j];
      }
      forall j | 0 <= j < |b| ensures b[j].name !in names + NamesOf(a) && b[j].id !in ids + IdsOf(a) {
        assert all[|a| + j] == b[j];
        forall m | m in a ensures m.name != b[j].name && m.id != b[j].id {
          var i :| 0 <= i < |a| && a[i] == m;
          assert all[i] == a[i];
        }
      }
      forall i, j | 0 <= i < j < |b| ensures b[i].name != b[j].name && b[i].id != b[j].id {
        assert all[|a| + i] == b[i] && all[|a| + j] == b[j];
      }
    }
    if Fresh(a, names, ids) && Fresh(b, names + NamesOf(a), ids + IdsOf(a)) {
      forall i, j | 0 <= i < j < |all| ensures all[i].name != all[j].name && all[i].id != all[j].id {
        if i < |a| <= j {
          assert all[i] == a[i] && a[i] in a && all[j] == b[j - |a|];
          assert a[i].name in NamesOf(a) && a[i].id in IdsOf(a);
        }
      }
    }
  }

  /** The members on the way given by the cases taken. */
  function Along(node: Node, way: seq<nat>): seq<Member>
    decreases node
  {
    if node.Leaf? || way == [] || way[0] >= |node.cases| then node.members
    else node.members + Along(node.cases[way[0]].node, way[1..])
  }

  function WayOf(node: Node, obj: string -> Value): seq<nat> {
    if node.Leaf? || Chosen(node, obj) == |node.cases| then []
    else [Chosen(node, obj)] + WayOf(node.cases[Chosen(node, obj)].node, obj)
  }

  lemma {:induction false} MetAlong(node: Node, obj: string -> Value)
    ensures Along(node, WayOf(node, obj)) == Met(node, obj)
  {
    if node.Base? && Chosen(node, obj) < |node.cases| {
      var child := node.cases[Chosen(node, obj)].node;
      MetAlong(child, obj);
      assert WayOf(node, obj)[1..] == WayOf(child, obj);
    }
  }

  lemma {:induction false} ChecksAlong(node: Node, names: set<string>, ids: set<nat>, way: seq<nat>)
    requires Checks(node, names, ids)
    ensures Fresh(Along(node, way), names, ids)
    decreases node
  {
    if node.Base? && way != [] && way[0] < |node.cases| {
      var child := node.cases[way[0]].node;
      ChecksAlong(child, names + NamesOf(node.members), ids + IdsOf(node.members), way[1..]);
      FreshAppend(node.members, Along(child, way[1..]), names, ids);
    }
  }

  lemma {:induction false} AlongChecks(node: Node, names: set<string>, ids: set<nat>)
    requires forall way :: Fresh(Along(node, way), names, ids)
    ensures Checks(node, names, ids)
    decreases node
  {
    assert Along(node, []) == node.members;
    if node.Base? {
      forall i | 0 <= i < |node.cases|
        ensures Checks(node.cases[i].node, names + NamesOf(node.members), ids + IdsOf(node.members))
      {
        var child := node.cases[i].node;
        forall way ensures Fresh(Along(child, way), names + NamesOf(node.members), ids + IdsOf(node.members)) {
          assert ([i as nat] + way)[1..] == way;
          assert Along(node, [i] + way) == node.members + Along(child, way);
          FreshAppend(node.members, Along(child, way), names, ids);
        }
        AlongChecks(child, names + NamesOf(node.members), ids + IdsOf(node.members));
      }
    }
  }

  /** No name and no id occurs twice on this way. */
  ghost predicate Unambiguous(node: Node, way: seq<nat>) {
    DistinctNames(Along(node, way)) && DistinctIds(Along(node, way))
  }

  /** The check accepts a tree if and only if names and ids are distinct on every way from the root. */
  lemma CheckExact(node: Node)
    ensures Checks(node, {}, {}) <==> forall way :: Unambiguous(node, way)
  {
    if Checks(node, {}, {}) {
      forall way ensures Unambiguous(node, way) {
        ChecksAlong(node, {}, {}, way);
      }
    }
    if forall way :: Unambiguous(node, way) {
      forall way ensures Fresh(Along(node, way), {}, {}) {
        assert Unambiguous(node, way);
      }
      AlongChecks(node, {}, {});
    }
  }

  // ---- The round trip ----

  /** What generation and the C++ compiler demand of the descriptions that `obj` passes through. */
  ghost predicate Sensible(node: Node, inherited: seq<Member>, obj: string -> Value, target: nat)
    decreases node
  {
    if node.Leaf? then Resolves(node.members, inherited, node.ctor) && CtorLive(node.members, node.ctor)
    else
      && ParametersOk(node) && EnumOk(node, target)
      && Chosen(node, obj) < |node.cases|
      && Sensible(node.cases[Chosen(node, obj)].node, node.setParameters, obj, target)
  }

  /** Set parameters are live members with different types. */
  ghost predicate ParametersOk(node: Node)
    requires node.Base?
  {
    && DistinctTypes(node.setParameters) && DistinctNames(node.setParameters)
    && forall i :: 0 <= i < |node.setParameters| ==> node.setParameters[i] in node.members && !node.setParameters[i].deleted
  }

  /** The enum value is a live member of the base class that the target version shows. */
  ghost predicate EnumOk(node: Node, target: nat)
    requires node.Base?
  {
    exists i :: 0 <= i < |node.members| && node.members[i].name == node.enumValue
                && !node.members[i].deleted && Shown(node.members[i], target)
  }

  /** Neither the enum value nor a set parameter carries the member to the child. */
  ghost predicate InNoOtherWay(node: Node, m: Member)
    requires node.Base?
  {
    && m.name != node.enumValue && m.serializeProperty != node.enumValue
    && forall p :: p in node.setParameters ==> p.name != m.name && p.name != m.serializeProperty
  }

  /**
   Every member that is not deleted has its value in the object. Of a base class these are the members that neither are the
   enum value, which the choice of the child restores, nor are named by a set parameter, which the child's constructor may ask for.
   */
  ghost predicate Restored(node: Node, inherited: seq<Member>, obj: string -> Value, target: nat, fields: map<string, Value>)
    decreases node
  {
    if node.Leaf? then
      && Holds(node.members, fields, obj, target)
      && forall i :: 0 <= i < |inherited| && inherited[i].name in node.ctor ==>
           inherited[i].name in fields && fields[inherited[i].name] == Stored(inherited[i], obj(inherited[i].name), target)
    else
      && (forall m :: m in node.members && !m.deleted && InNoOtherWay(node, m) ==>
            m.name in fields && fields[m.name] == Stored(m, obj(m.name), target))
      && Chosen(node, obj) < |node.cases|
      && Restored(node.cases[Chosen(node, obj)].node, node.setParameters, obj, target, fields)
  }

  ghost predicate Same(ms: seq<Member>, a: map<string, Value>, b: map<string, Value>) {
    forall i :: 0 <= i < |ms| && ms[i].name in a ==> ms[i].name in b && b[ms[i].name] == a[ms[i].name]
  }

  lemma {:induction false} RestoredKeeps(node: Node, inherited: seq<Member>, obj: string -> Value, target: nat,
                                         a: map<string, Value>, b: map<string, Value>)
    requires Sensible(node, inherited, obj, target) && Restored(node, inherited, obj, target, a)
    requires Same(Met(node, obj), a, b) && Same(inherited, a, b)
    ensures Restored(node, inherited, obj, target, b)
    decreases node
  {
    if node.Base? {
      var child := node.cases[Chosen(node, obj)].node;
      var all := Met(node, obj);
      assert forall i :: 0 <= i < |node.members| ==> all[i] == node.members[i];
      assert forall i :: 0 <= i < |Met(child, obj)| ==> all[|node.members| + i] == Met(child, obj)[i];
      forall m | m in node.members && !m.deleted && InNoOtherWay(node, m)
        ensures m.name in b && b[m.name] == Stored(m, obj(m.name), target)
      {
        var k :| 0 <= k < |node.members| && node.members[k] == m;
        assert all[k].name in a;
      }
      forall i | 0 <= i < |node.setParameters| && node.setParameters[i].name in a
        ensures node.setParameters[i].name in b && b[node.setParameters[i].name] == a[node.setParameters[i].name]
      {
        var k :| 0 <= k < |node.members| && node.members[k] == node.setParameters[i];
        assert all[k].name in a;
      }
      RestoredKeeps(child, node.setParameters, obj, target, a, b);
    }
  }

  ghost predicate Fields(node: Node, inherited: seq<Member>, obj: string -> Value, fields: map<string, Value>) {
    forall n :: n in fields ==> Named(Met(node, obj), n) || Named(inherited, n)
  }

  /** Reading, setting the parameters and taking the case. */
  lemma RunToSwitch(node: Node, st: State, obj: string -> Value, target: nat, tail: seq<Property>) returns (a: State, b: State)
    requires node.Base? && st.Running? && Good(node.members, tail, target) && ParametersOk(node) && EnumOk(node, target)
    requires st.stream == WriteAll(node.members, obj, target) + tail
    ensures b == Run(node, LocalReads(node.members) + Sets(node.setParameters), st) && b.Running?
    ensures b.stream == tail && b.fields == st.fields && Holds(node.members, b.locals, obj, target)
    ensures node.enumValue in b.locals && b.locals[node.enumValue] == obj(node.enumValue)
    ensures Pushed(node.setParameters, st.params, b.params) && Provides(b.params, node.setParameters, obj, target)
  {
    var ms, ps := node.members, node.setParameters;
    DistinctSound(ms, target);
    WrittenReads(ms, obj, target, tail);
    a := RunLocalReads(node, ms, st, obj, target, tail);
    forall i | 0 <= i < |ps|
      ensures ps[i].name in a.locals && a.locals[ps[i].name] == Stored(ps[i], obj(ps[i].name), target)
    {
      var k :| 0 <= k < |ms| && ms[k] == ps[i];
    }
    RunAppend(node, LocalReads(ms), Sets(ps), st);
    b := RunSets(node, ps, a);
    assert Topped(ps, b.params, a.locals);
  }

  /** Unsetting the parameters and assigning the base members. */
  lemma RunFromSwitch(node: Node, st: State, obj: string -> Value, target: nat, params: map<string, seq<Value>>) returns (r: State)
    requires node.Base? && st.Running? && DistinctNames(node.members) && ParametersOk(node)
    requires Holds(node.members, st.locals, obj, target) && Pushed(node.setParameters, params, st.params)
    ensures r == Run(node, Unsets(node.setParameters) + Assigns(node, node.members), st) && r.Running?
    ensures r.stream == st.stream && SameTops(params, r.params)
    ensures AssignedHold(node, node.members, r.fields, obj, target) && Touches(node, node.members, st.fields, r.fields)
  {
    var ps := node.setParameters;
    var mid := RunUnsets(node, ps, |ps|, st, params);
    assert ps[..|ps|] == ps && ps[|ps|..] == [];
    RunAppend(node, Unsets(ps), Assigns(node, node.members), st);
    r := RunAssigns(node, node.members, mid, obj, target);
    forall ty ensures Top(params, ty) == Top(r.params, ty) {
      assert !Typed(ps[|ps|..], ty);
    }
  }

  lemma PushedTops(ps: seq<Member>, p: map<string, seq<Value>>, q: map<string, seq<Value>>, r: map<string, seq<Value>>)
    requires Pushed(ps, p, q) && SameTops(q, r)
    ensures Pushed(ps, p, r)
  {
    forall i | 0 <= i < |ps| ensures PushedOne(p, r, ps[i].ty) {
      assert PushedOne(p, q, ps[i].ty);
    }
  }

  lemma SplitGood(a: seq<Member>, b: seq<Member>, obj: string -> Value, target: nat, tail: seq<Property>)
    requires Good(a + b, tail, target)
    ensures Good(b, tail, target) && Good(a, WriteAll(b, obj, target) + tail, target)
  {
    var all := a + b;
    GoodSuffix(all, tail, target, |a|);
    ForeignEarly(all, obj, target, tail, |a|);
    assert all[..|a|] == a && all[|a|..] == b;
  }

  lemma SplitNames(a: seq<Member>, b: seq<Member>, ps: seq<Member>)
    requires DistinctNames(a + b) && forall i :: 0 <= i < |ps| ==> ps[i] in a
    ensures DisjointNames(b, a) && DisjointNames(b, ps)
  {
    var all := a + b;
    forall i, j | 0 <= i < |b| && 0 <= j < |a| ensures b[i].name != a[j].name {
      assert all[|a| + i] == b[i] && all[j] == a[j];
    }
    forall i, j | 0 <= i < |b| && 0 <= j < |ps| ensures b[i].name != ps[j].name {
      var k :| 0 <= k < |a| && a[k] == ps[j];
    }
  }

  lemma SplitMet(node: Node, obj: string -> Value, target: nat, tail: seq<Property>)
    requires node.Base? && Chosen(node, obj) < |node.cases| && Good(Met(node, obj), tail, target) && ParametersOk(node)
    ensures var child := node.cases[Chosen(node, obj)].node; var rest := WriteAll(Met(child, obj), obj, target) + tail;
            && Good(Met(child, obj), tail, target) && Good(node.members, rest, target)
            && WriteAll(Met(node, obj), obj, target) + tail == WriteAll(node.members, obj, target) + rest
            && DisjointNames(Met(child, obj), node.members) && DisjointNames(Met(child, obj), node.setParameters)
  {
    var child := node.cases[Chosen(node, obj)].node;
    var a, b := node.members, Met(child, obj);
    assert Met(node, obj) == a + b;
    SplitGood(a, b, obj, target, tail);
    SplitNames(a, b, node.setParameters);
    WriteAllAppend(a, b, obj, target);
  }

  /** The fields of the child survive the assignments of the base class. */
  lemma AssignsKeepChild(node: Node, obj: string -> Value, target: nat, a: map<string, Value>, b: map<string, Value>)
    requires node.Base? && Chosen(node, obj) < |node.cases| && ParametersOk(node) && Touches(node, node.members, a, b)
    requires DisjointNames(Met(node.cases[Chosen(node, obj)].node, obj), node.members)
    ensures Same(Met(node.cases[Chosen(node, obj)].node, obj), a, b) && Same(node.setParameters, a, b)
  {
    var ms, ps := Met(node.cases[Chosen(node, obj)].node, obj), node.setParameters;
    forall i | 0 <= i < |ms| ensures !TouchedBy(node, node.members, ms[i].name) {
    }
    forall i | 0 <= i < |ps| ensures !TouchedBy(node, node.members, ps[i].name) {
      forall k | 0 <= k < |node.members| && node.members[k].name == ps[i].name ensures !Assigned(node, node.members[k]) {
        assert ps[i] in ps;
      }
    }
  }

  lemma FieldsUp(node: Node, obj: string -> Value, a: map<string, Value>, b: map<string, Value>)
    requires node.Base? && Chosen(node, obj) < |node.cases| && ParametersOk(node) && Touches(node, node.members, a, b)
    requires Fields(node.cases[Chosen(node, obj)].node, node.setParameters, obj, a)
    ensures forall n :: n in b ==> Named(Met(node, obj), n)
  {
    var child := node.cases[Chosen(node, obj)].node;
    var all := Met(node, obj);
    assert forall i :: 0 <= i < |node.members| ==> all[i] == node.members[i];
    assert forall i :: 0 <= i < |Met(child, obj)| ==> all[|node.members| + i] == Met(child, obj)[i];
    forall n | n in b ensures Named(all, n) {
      if TouchedBy(node, node.members, n) {
        var i :| 0 <= i < |node.members| && Assigned(node, node.members[i]) && node.members[i].name == n;
        assert all[i].name == n;
      } else if Named(Met(child, obj), n) {
        var i :| 0 <= i < |Met(child, obj)| && Met(child, obj)[i].name == n;
        assert all[|node.members| + i].name == n;
      } else {
        var i :| 0 <= i < |node.setParameters| && node.setParameters[i].name == n;
        var k :| 0 <= k < |node.members| && node.members[k] == node.setParameters[i];
        assert all[k].name == n;
      }
    }
  }

  lemma RunBase(node: Node, st: State, mid: State, back: State)
    requires node.Base? && st.Running? && mid.Running? && back.Running?
    requires mid == Run(node, LocalReads(node.members) + Sets(node.setParameters), st)
    requires back == Dispatch(node, node.enumValue, mid)
    ensures Run(node, BaseCode(node), st) == Run(node, Unsets(node.setParameters) + Assigns(node, node.members), back)
  {
    var a, sw, u, v := LocalReads(node.members) + Sets(node.setParameters), [Switch(node.enumValue)],
                       Unsets(node.setParameters), Assigns(node, node.members);
    RunAppend(node, a + sw + u, v, st);
    RunAppend(node, a + sw, u, st);
    RunAppend(node, a, sw, st);
    RunSwitch(node, node.enumValue, mid, back);
    RunAppend(node, u, v, back);
  }

  lemma AssignedRestored(node: Node, obj: string -> Value, target: nat, fields: map<string, Value>)
    requires node.Base? && AssignedHold(node, node.members, fields, obj, target)
    ensures forall m :: m in node.members && !m.deleted && InNoOtherWay(node, m) ==>
              m.name in fields && fields[m.name] == Stored(m, obj(m.name), target)
  {
    forall m | m in node.members && !m.deleted && InNoOtherWay(node, m)
      ensures m.name in fields && fields[m.name] == Stored(m, obj(m.name), target)
    {
      var i :| 0 <= i < |node.members| && node.members[i] == m;
      assert Assigned(node, node.members[i]);
    }
  }

  lemma RunSwitch(node: Node, enumValue: string, mid: State, back: State)
    requires mid.Running? && back == Dispatch(node, enumValue, mid)
    ensures Run(node, [Switch(enumValue)], mid) == back
  {
    assert [Switch(enumValue)][1..] == [];
    assert Run(node, [Switch(enumValue)], mid) == Run(node, [], back);
  }

  /**
   Reading back: an object written with the generated Serialize of its class, base classes first, comes
   back from the generated Deserialize of the root, whatever its place in the tree and whatever follows
   it in the stream. Deleted members are skipped, members that the target version does not show get
   their defaults, all others their values; the set parameters are as they were.
   */
  lemma {:induction false} RoundTrip(node: Node, inherited: seq<Member>, params: map<string, seq<Value>>,
                                     obj: string -> Value, target: nat, tail: seq<Property>)
    returns (r: State)
    requires Sensible(node, inherited, obj, target) && Good(Met(node, obj), tail, target)
    requires DistinctNames(inherited) && DisjointNames(Met(node, obj), inherited) && Provides(params, inherited, obj, target)
    ensures r == Deserialize(node, inherited, WriteAll(Met(node, obj), obj, target) + tail, params)
    ensures r.Running? && r.stream == tail && SameTops(params, r.params)
    ensures Restored(node, inherited, obj, target, r.fields) && Fields(node, inherited, obj, r.fields)
    decreases node
  {
    if node.Leaf? {
      DistinctSound(node.members, target);
      r := LeafRoundTrip(node, inherited, params, obj, target, tail);
    } else {
      var child := node.cases[Chosen(node, obj)].node;
      var rest := WriteAll(Met(child, obj), obj, target) + tail;
      SplitMet(node, obj, target, tail);
      var st := Running(WriteAll(Met(node, obj), obj, target) + tail, map[], map[], params);
      var _, mid := RunToSwitch(node, st, obj, target, rest);
      var sub := RoundTrip(child, node.setParameters, mid.params, obj, target, tail);
      var back := mid.(stream := sub.stream, fields := sub.fields, params := sub.params);
      assert Dispatch(node, node.enumValue, mid) == back;
      RunBase(node, st, mid, back);
      PushedTops(node.setParameters, params, mid.params, back.params);
      r := RunFromSwitch(node, back, obj, target, params);
      AssignsKeepChild(node, obj, target, back.fields, r.fields);
      AssignedRestored(node, obj, target, r.fields);
      RestoredKeeps(child, node.setParameters, obj, target, back.fields, r.fields);
      assert Restored(node, inherited, obj, target, r.fields);
      FieldsUp(node, obj, back.fields, r.fields);
    }
  }

  lemma WrittenIsMet(node: Node, obj: string -> Value, target: nat)
    ensures WriteAll(Written(Lineage(node, obj)), obj, target) == WriteAll(Met(node, obj), obj, target) + []
  {
    SameOrder(node, obj);
  }

  lemma AcceptedGood(node: Node, obj: string -> Value, target: nat)
    requires Checks(node, {}, {}) && AllReadable(Met(node, obj), target)
    ensures Good(Met(node, obj), [], target) && DisjointNames(Met(node, obj), [])
    ensures DistinctNames([]) && Provides(map[], [], obj, target)
  {
    MetAlong(node, obj);
    ChecksAlong(node, {}, {}, WayOf(node, obj));
  }

  /** For every tree that the duplicate check accepts: what the class writes, the root reads back. */
  lemma AcceptedRoundTrip(node: Node, obj: string -> Value, target: nat) returns (r: State)
    requires Checks(node, {}, {}) && Sensible(node, [], obj, target) && AllReadable(Met(node, obj), target)
    ensures r == Deserialize(node, [], WriteAll(Written(Lineage(node, obj)), obj, target), map[])
    ensures r.Running? && r.stream == [] && Restored(node, [], obj, target, r.fields)
  {
    AcceptedGood(node, obj, target);
    WrittenIsMet(node, obj, target);
    r := RoundTrip(node, [], map[], obj, target, []);
  }
}

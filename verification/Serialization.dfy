/**
 The generator of Serialize and Deserialize code: class descriptions are compiled to a list of writes
 and a list of reading instructions, and an interpreter gives those lists the meaning they have in the
 generated program. Writing and reading back meet across an inheritance tree.
 */
module Serialization {

  /** The value of a property. */
  type Value = int

  datatype Member = Member(id: nat, name: string, ty: string, serializeProperty: string,
                           hasDefault: bool, default: Value, deleted: bool, version: nat)

  /** A base class with a case per enum entry, or a class that is constructed. */
  datatype Node =
    | Base(members: seq<Member>, setParameters: seq<Member>, enumValue: string, cases: seq<Case>)
    | Leaf(members: seq<Member>, ctor: seq<string>)

  datatype Case = Case(entry: Value, node: Node)

  /** A constructor argument: a local variable, a parameter that the base class set, or the reader's context. */
  datatype Arg = FromLocal(name: string) | FromParameter(name: string, ty: string) | FromContext(name: string)

  datatype Instr =
    | ReadLocal(m: Member)
    | ReadDeleted(m: Member)
    | ReadInto(m: Member)
    | Construct(args: seq<Arg>)
    | Assign(m: Member)
    | SetParameter(m: Member)
    | UnsetParameter(m: Member)
    | Switch(enumValue: string)

  // ---- What is generated ----

  predicate IsContext(entry: string) {
    |entry| > 0 && (entry[0] == '$' || entry[0] == '?')
  }

  /** The first member with this name; `|ms|` if there is none. */
  function IndexOf(ms: seq<Member>, name: string): (i: nat)
    ensures i <= |ms| && (i < |ms| ==> ms[i].name == name)
    ensures forall k :: 0 <= k < i ==> ms[k].name != name
  {
    if ms == [] || ms[0].name == name then 0 else 1 + IndexOf(ms[1..], name)
  }

  /** One more than the largest index of a constructor member: so many members are read before construction. */
  function Early(ms: seq<Member>, ctor: seq<string>): (n: nat)
    ensures n <= |ms|
  {
    if ctor == [] then 0
    else
      var rest := Early(ms, ctor[..|ctor| - 1]);
      var i := IndexOf(ms, ctor[|ctor| - 1]);
      if i < |ms| && i + 1 > rest then i + 1 else rest
  }

  function ArgsFor(ms: seq<Member>, inherited: seq<Member>, entry: string): seq<Arg> {
    (if IndexOf(ms, entry) < |ms| then [FromLocal(entry)] else [])
    + (if IsContext(entry) then [FromContext(entry)] else [])
    + (var k := IndexOf(inherited, entry); if k < |inherited| then [FromParameter(entry, inherited[k].ty)] else [])
  }

  function Args(ms: seq<Member>, inherited: seq<Member>, ctor: seq<string>): seq<Arg> {
    if ctor == [] then [] else Args(ms, inherited, ctor[..|ctor| - 1]) + ArgsFor(ms, inherited, ctor[|ctor| - 1])
  }

  /** Every constructor entry is known; otherwise generation stops with an error. */
  predicate Resolves(ms: seq<Member>, inherited: seq<Member>, ctor: seq<string>) {
    forall i :: 0 <= i < |ctor| ==> ArgsFor(ms, inherited, ctor[i]) != []
  }

  function ReadOf(m: Member): Instr {
    if m.deleted then ReadDeleted(m) else ReadLocal(m)
  }

  function LocalReads(ms: seq<Member>): (code: seq<Instr>)
    ensures |code| == |ms| && forall i :: 0 <= i < |ms| ==> code[i] == ReadOf(ms[i])
  {
    if ms == [] then [] else LocalReads(ms[..|ms| - 1]) + [ReadOf(ms[|ms| - 1])]
  }

  /** What follows construction for the member at `i`. */
  function LateFor(m: Member, early: bool, ctor: seq<string>): seq<Instr> {
    if !early then [if m.deleted then ReadDeleted(m) else ReadInto(m)]
    else if m.name !in ctor && !m.deleted then [Assign(m)]
    else []
  }

  function Late(ms: seq<Member>, early: nat, ctor: seq<string>, n: nat): seq<Instr>
    requires n <= |ms|
  {
    if n == 0 then [] else Late(ms, early, ctor, n - 1) + LateFor(ms[n - 1], n - 1 < early, ctor)
  }

  function LeafCode(ms: seq<Member>, inherited: seq<Member>, ctor: seq<string>): seq<Instr> {
    var early := Early(ms, ctor);
    LocalReads(ms[..early]) + [Construct(Args(ms, inherited, ctor))] + Late(ms, early, ctor, |ms|)
  }

  /** Parameters and the enum value reach the child in another way, so they are not assigned. */
  predicate SkipsAssignment(node: Node, m: Member)
    requires node.Base?
  {
    || IndexOf(node.setParameters, m.name) < |node.setParameters|
    || IndexOf(node.setParameters, m.serializeProperty) < |node.setParameters|
    || m.name == node.enumValue || m.serializeProperty == node.enumValue
  }

  function Sets(ms: seq<Member>): (code: seq<Instr>)
    ensures |code| == |ms| && forall i :: 0 <= i < |ms| ==> code[i] == SetParameter(ms[i])
  {
    if ms == [] then [] else Sets(ms[..|ms| - 1]) + [SetParameter(ms[|ms| - 1])]
  }

  function Unsets(ms: seq<Member>): (code: seq<Instr>)
    ensures |code| == |ms| && forall i :: 0 <= i < |ms| ==> code[i] == UnsetParameter(ms[i])
  {
    if ms == [] then [] else Unsets(ms[..|ms| - 1]) + [UnsetParameter(ms[|ms| - 1])]
  }

  function AssignFor(node: Node, m: Member): seq<Instr>
    requires node.Base?
  {
    if SkipsAssignment(node, m) || m.deleted then [] else [Assign(m)]
  }

  function Assigns(node: Node, ms: seq<Member>): seq<Instr>
    requires node.Base?
  {
    if ms == [] then [] else Assigns(node, ms[..|ms| - 1]) + AssignFor(node, ms[|ms| - 1])
  }

  function BaseCode(node: Node): seq<Instr>
    requires node.Base?
  {
    LocalReads(node.members) + Sets(node.setParameters) + [Switch(node.enumValue)]
    + Unsets(node.setParameters) + Assigns(node, node.members)
  }

  function Code(node: Node, inherited: seq<Member>): seq<Instr> {
    if node.Base? then BaseCode(node) else LeafCode(node.members, inherited, node.ctor)
  }

  // ---- The generators ----

  /** The three places a constructor entry is looked for. */
  method ResolveEntry(ms: seq<Member>, inherited: seq<Member>, entry: string) returns (args: seq<Arg>)
    ensures args == ArgsFor(ms, inherited, entry)
  {
    args := [];
    if IndexOf(ms, entry) < |ms| {
      args := args + [FromLocal(entry)];
    }
    if IsContext(entry) {
      args := args + [FromContext(entry)];
    }
    var b := IndexOf(inherited, entry);
    if b < |inherited| {
      args := args + [FromParameter(entry, inherited[b].ty)];
    }
  }

  lemma CtorStep(ms: seq<Member>, inherited: seq<Member>, ctor: seq<string>, i: nat)
    requires i < |ctor|
    ensures Args(ms, inherited, ctor[..i + 1]) == Args(ms, inherited, ctor[..i]) + ArgsFor(ms, inherited, ctor[i])
    ensures Early(ms, ctor[..i + 1]) ==
            var k := IndexOf(ms, ctor[i]); var e := Early(ms, ctor[..i]); if k < |ms| && k + 1 > e then k + 1 else e
  {
    assert ctor[..i + 1][..i] == ctor[..i];
  }

  /** The first `i` entries are resolved. */
  ghost predicate ResolvedTo(ms: seq<Member>, inherited: seq<Member>, ctor: seq<string>, i: nat, early: nat, args: seq<Arg>)
    requires i <= |ctor|
  {
    && early == Early(ms, ctor[..i]) && args == Args(ms, inherited, ctor[..i])
    && forall j :: 0 <= j < i ==> ArgsFor(ms, inherited, ctor[j]) != []
  }

  lemma ResolvedNext(ms: seq<Member>, inherited: seq<Member>, ctor: seq<string>, i: nat, early: nat, args: seq<Arg>)
    requires i < |ctor| && ResolvedTo(ms, inherited, ctor, i, early, args) && ArgsFor(ms, inherited, ctor[i]) != []
    ensures var k := IndexOf(ms, ctor[i]);
            ResolvedTo(ms, inherited, ctor, i + 1, if k < |ms| && k + 1 > early then k + 1 else early, args + ArgsFor(ms, inherited, ctor[i]))
  {
    CtorStep(ms, inherited, ctor, i);
  }

  lemma ResolvedAll(ms: seq<Member>, inherited: seq<Member>, ctor: seq<string>, early: nat, args: seq<Arg>)
    requires ResolvedTo(ms, inherited, ctor, |ctor|, early, args)
    ensures Resolves(ms, inherited, ctor) && early == Early(ms, ctor) && args == Args(ms, inherited, ctor)
  {
    assert ctor[..|ctor|] == ctor;
  }

  method FindConstructorMembers(ms: seq<Member>, inherited: seq<Member>, ctor: seq<string>)
    returns (ok: bool, early: nat, args: seq<Arg>)
    ensures ok <==> Resolves(ms, inherited, ctor)
    ensures ok ==> early == Early(ms, ctor) && args == Args(ms, inherited, ctor)
  {
    early, args := 0, [];
    for i := 0 to |ctor|
      invariant ResolvedTo(ms, inherited, ctor, i, early, args)
    {
      var more := ResolveEntry(ms, inherited, ctor[i]);
      if more == [] {
        return false, early, args;
      }
      ResolvedNext(ms, inherited, ctor, i, early, args);
      var k := IndexOf(ms, ctor[i]);
      if k < |ms| && k + 1 > early {
        early := k + 1;
      }
      args := args + more;
    }
    ResolvedAll(ms, inherited, ctor, early, args);
    ok := true;
  }

  /** `None` stands for the error of an unknown constructor entry. */
  datatype Generated = None | Some(code: seq<Instr>)

  method GenerateClassCode(ms: seq<Member>, inherited: seq<Member>, ctor: seq<string>) returns (g: Generated)
    ensures g == if Resolves(ms, inherited, ctor) then Some(LeafCode(ms, inherited, ctor)) else None
  {
    var ok, early, args := FindConstructorMembers(ms, inherited, ctor);
    if !ok {
      return None;
    }
    var code: seq<Instr> := [];
    for i := 0 to early
      invariant code == LocalReads(ms[..i])
    {
      LocalReadsStep(ms, i);
      code := code + [ReadOf(ms[i])];
    }
    code := code + [Construct(args)];
    ghost var before := code;
    for i := 0 to |ms|
      invariant IsAfter(code, before, Late(ms, early, ctor, i))
    {
      LateStep(ms, early, ctor, i, code, before);
      if i >= early {
        code := code + [if ms[i].deleted then ReadDeleted(ms[i]) else ReadInto(ms[i])];
      } else if ms[i].name !in ctor && !ms[i].deleted {
        code := code + [Assign(ms[i])];
      }
    }
    g := Some(code);
  }

  lemma LocalReadsStep(ms: seq<Member>, i: nat)
    requires i < |ms|
    ensures LocalReads(ms[..i + 1]) == LocalReads(ms[..i]) + [ReadOf(ms[i])]
  {
    assert ms[..i + 1][..i] == ms[..i];
  }

  ghost predicate IsAfter(code: seq<Instr>, before: seq<Instr>, more: seq<Instr>) {
    code == before + more
  }

  lemma LateStep(ms: seq<Member>, early: nat, ctor: seq<string>, i: nat, code: seq<Instr>, before: seq<Instr>)
    requires i < |ms| && IsAfter(code, before, Late(ms, early, ctor, i))
    ensures IsAfter(code + LateFor(ms[i], i < early, ctor), before, Late(ms, early, ctor, i + 1))
  {
    var more := LateFor(ms[i], i < early, ctor);
    assert Late(ms, early, ctor, i + 1) == Late(ms, early, ctor, i) + more;
    assert before + (Late(ms, early, ctor, i) + more) == before + Late(ms, early, ctor, i) + more;
  }

  method GenerateBaseClassCode(node: Node) returns (code: seq<Instr>)
    requires node.Base?
    ensures code == BaseCode(node)
  {
    var ms, ps := node.members, node.setParameters;
    code := [];
    for i := 0 to |ms|
      invariant code == LocalReads(ms[..i])
    {
      LocalReadsStep(ms, i);
      code := code + [ReadOf(ms[i])];
    }
    assert ms[..|ms|] == ms;
    code := code + Sets(ps) + [Switch(node.enumValue)] + Unsets(ps);
    ghost var before := code;
    for i := 0 to |ms|
      invariant IsAfter(code, before, Assigns(node, ms[..i]))
    {
      AssignStep(node, ms, i, code, before);
      if !SkipsAssignment(node, ms[i]) && !ms[i].deleted {
        code := code + [Assign(ms[i])];
      }
    }
    assert ms[..|ms|] == ms;
  }

  lemma AssignStep(node: Node, ms: seq<Member>, i: nat, code: seq<Instr>, before: seq<Instr>)
    requires node.Base? && i < |ms| && IsAfter(code, before, Assigns(node, ms[..i]))
    ensures IsAfter(code + AssignFor(node, ms[i]), before, Assigns(node, ms[..i + 1]))
  {
    assert ms[..i + 1][..i] == ms[..i];
    assert before + (Assigns(node, ms[..i]) + AssignFor(node, ms[i])) == before + Assigns(node, ms[..i]) + AssignFor(node, ms[i]);
  }

  // ---- Exactly one route ----

  /** Member `i` of a class reaches the object as a constructor argument, ... */
  ghost predicate ByConstructor(ms: seq<Member>, inherited: seq<Member>, ctor: seq<string>, i: nat)
    requires i < |ms|
  {
    FromLocal(ms[i].name) in Args(ms, inherited, ctor)
  }

  /** ... by an assignment after construction, ... */
  ghost predicate ByAssignment(ms: seq<Member>, inherited: seq<Member>, ctor: seq<string>, i: nat)
    requires i < |ms|
  {
    Assign(ms[i]) in LeafCode(ms, inherited, ctor)
  }

  /** ... or by being read into the object. */
  ghost predicate ByReading(ms: seq<Member>, inherited: seq<Member>, ctor: seq<string>, i: nat)
    requires i < |ms|
  {
    ReadInto(ms[i]) in LeafCode(ms, inherited, ctor)
  }

  ghost predicate DistinctNames(ms: seq<Member>) {
    forall i, j :: 0 <= i < j < |ms| ==> ms[i].name != ms[j].name
  }

  lemma {:induction false} ArgsMember(ms: seq<Member>, inherited: seq<Member>, ctor: seq<string>, i: nat)
    requires i < |ms| && DistinctNames(ms)
    ensures FromLocal(ms[i].name) in Args(ms, inherited, ctor) <==> ms[i].name in ctor
  {
    if ctor != [] {
      var n := |ctor| - 1;
      ArgsMember(ms, inherited, ctor[..n], i);
      assert ctor == ctor[..n] + [ctor[n]];
      OwnArg(ms, inherited, ctor[n], i);
    }
  }

  lemma OwnArg(ms: seq<Member>, inherited: seq<Member>, entry: string, i: nat)
    requires i < |ms| && DistinctNames(ms)
    ensures FromLocal(ms[i].name) in ArgsFor(ms, inherited, entry) <==> ms[i].name == entry
  {
    assert IndexOf(ms, ms[i].name) == i;
  }

  lemma {:induction false} LateMember(ms: seq<Member>, early: nat, ctor: seq<string>, n: nat, i: nat)
    requires n <= |ms| && i < |ms| && DistinctNames(ms)
    ensures Assign(ms[i]) in Late(ms, early, ctor, n) <==> i < n && i < early && ms[i].name !in ctor && !ms[i].deleted
    ensures ReadInto(ms[i]) in Late(ms, early, ctor, n) <==> i < n && i >= early && !ms[i].deleted
  {
    if n > 0 {
      LateMember(ms, early, ctor, n - 1, i);
    }
  }

  lemma {:induction false} EarlyCovers(ms: seq<Member>, ctor: seq<string>, i: nat)
    requires i < |ms| && DistinctNames(ms) && ms[i].name in ctor
    ensures i < Early(ms, ctor)
  {
    var n := |ctor| - 1;
    assert ctor == ctor[..n] + [ctor[n]];
    if ctor[n] == ms[i].name {
      assert IndexOf(ms, ms[i].name) == i;
    } else {
      EarlyCovers(ms, ctor[..n], i);
    }
  }

  /** Before the object is made, the members are read up to the last one that its constructor takes. */
  lemma {:induction false} EarlyIff(ms: seq<Member>, ctor: seq<string>, i: nat)
    requires i < |ms| && DistinctNames(ms)
    ensures i < Early(ms, ctor) <==> exists j :: i <= j < |ms| && ms[j].name in ctor
  {
    if ctor != [] {
      var n := |ctor| - 1;
      var k := IndexOf(ms, ctor[n]);
      EarlyIff(ms, ctor[..n], i);
      assert ctor == ctor[..n] + [ctor[n]];
      if k < |ms| {
        assert ms[k].name in ctor;
      }
    }
  }

  /**
   Every member that is not deleted reaches the object by exactly one route: as an argument of the constructor, by reading
   it into the object if it comes after all of those, and by assignment otherwise.
   */
  lemma OneRoute(ms: seq<Member>, inherited: seq<Member>, ctor: seq<string>, i: nat)
    requires i < |ms| && DistinctNames(ms) && !ms[i].deleted
    ensures var c, a, r := ByConstructor(ms, inherited, ctor, i), ByAssignment(ms, inherited, ctor, i),
                           ByReading(ms, inherited, ctor, i);
            && (c <==> ms[i].name in ctor) && (r <==> forall j :: i <= j < |ms| ==> ms[j].name !in ctor)
            && (c || a || r) && !(c && a) && !(c && r) && !(a && r)
  {
    var early := Early(ms, ctor);
    EarlyIff(ms, ctor, i);
    var first, mid, last := LocalReads(ms[..early]), [Construct(Args(ms, inherited, ctor))], Late(ms, early, ctor, |ms|);
    ArgsMember(ms, inherited, ctor, i);
    LateMember(ms, early, ctor, |ms|, i);
    if ms[i].name in ctor {
      EarlyCovers(ms, ctor, i);
    }
    InThree(first, mid, last, Assign(ms[i]));
    InThree(first, mid, last, ReadInto(ms[i]));
    assert LeafCode(ms, inherited, ctor) == first + mid + last;
  }

  /** A member of a base class that the child gets in another way: it is the enum value, or it is named by a set parameter. */
  ghost predicate ReachesChild(node: Node, m: Member)
    requires node.Base?
  {
    || m.name == node.enumValue || m.serializeProperty == node.enumValue
    || exists p :: p in node.setParameters && (p.name == m.name || p.name == m.serializeProperty)
  }

  lemma SkipsIff(node: Node, m: Member)
    requires node.Base?
    ensures SkipsAssignment(node, m) <==> ReachesChild(node, m)
  {
    var ps := node.setParameters;
    var i, j := IndexOf(ps, m.name), IndexOf(ps, m.serializeProperty);
    if i < |ps| {
      assert ps[i] in ps;
    }
    if j < |ps| {
      assert ps[j] in ps;
    }
  }

  lemma {:induction false} AssignsMember(node: Node, ms: seq<Member>, i: nat)
    requires node.Base? && i < |ms| && DistinctNames(ms)
    ensures Assign(ms[i]) in Assigns(node, ms) <==> !ms[i].deleted && !ReachesChild(node, ms[i])
  {
    var k := |ms| - 1;
    SkipsIff(node, ms[k]);
    if i < k {
      AssignsMember(node, ms[..k], i);
      assert Assign(ms[i]) !in AssignFor(node, ms[k]);
    } else {
      NotAssigned(node, ms[..k], ms[k]);
    }
  }

  lemma {:induction false} NotAssigned(node: Node, ms: seq<Member>, m: Member)
    requires node.Base? && forall j :: 0 <= j < |ms| ==> ms[j] != m
    ensures Assign(m) !in Assigns(node, ms)
  {
    if ms != [] {
      NotAssigned(node, ms[..|ms| - 1], m);
    }
  }

  /**
   A member of a base class is assigned to the object if and only if it is not deleted and does not reach the child as the
   enum value or as a set parameter. Every member is read, and the deleted ones are only skipped.
   */
  lemma OneRouteBase(node: Node, i: nat)
    requires node.Base? && i < |node.members| && DistinctNames(node.members)
    ensures Assign(node.members[i]) in BaseCode(node) <==>
            && !node.members[i].deleted
            && node.members[i].name != node.enumValue && node.members[i].serializeProperty != node.enumValue
            && forall p :: p in node.setParameters ==> p.name != node.members[i].name && p.name != node.members[i].serializeProperty
    ensures ReadLocal(node.members[i]) in BaseCode(node) <==> !node.members[i].deleted
    ensures node.members[i].deleted ==> ReadDeleted(node.members[i]) in BaseCode(node)
  {
    var ms := node.members;
    var m := ms[i];
    var locals := LocalReads(ms);
    AssignsMember(node, ms, i);
    assert locals[i] == ReadOf(m);
    InBaseCode(node, Assign(m));
    InBaseCode(node, ReadLocal(m));
    InBaseCode(node, ReadDeleted(m));
    OnlyAssigns(node, ms, ReadLocal(m));
    if ReadLocal(m) in locals {
      var j :| 0 <= j < |locals| && locals[j] == ReadLocal(m);
      assert ReadOf(ms[j]) == ReadLocal(m);
    }
  }

  lemma InBaseCode(node: Node, x: Instr)
    requires node.Base? && !x.SetParameter? && !x.UnsetParameter? && !x.Switch?
    ensures x in BaseCode(node) <==> x in LocalReads(node.members) || x in Assigns(node, node.members)
  {
  }

  lemma {:induction false} OnlyAssigns(node: Node, ms: seq<Member>, x: Instr)
    requires node.Base?
    ensures x in Assigns(node, ms) ==> x.Assign?
  {
    if ms != [] && x in Assigns(node, ms[..|ms| - 1]) {
      OnlyAssigns(node, ms[..|ms| - 1], x);
    }
  }

  // ---- Constructor arguments ----

  /** An entry that is found in one of the three places only. */
  ghost predicate FoundOnce(ms: seq<Member>, inherited: seq<Member>, entry: string) {
    && (IsContext(entry) ==> IndexOf(ms, entry) == |ms| && IndexOf(inherited, entry) == |inherited|)
    && (IndexOf(ms, entry) < |ms| ==> IndexOf(inherited, entry) == |inherited|)
  }

  /** The argument is for this entry, from its place. */
  ghost predicate ArgIs(ms: seq<Member>, inherited: seq<Member>, entry: string, a: Arg) {
    && a.name == entry
    && (a.FromLocal? <==> exists j :: 0 <= j < |ms| && ms[j].name == entry)
    && (a.FromParameter? ==> exists j :: 0 <= j < |inherited| && inherited[j].name == entry && inherited[j].ty == a.ty)
    && (a.FromContext? <==> IsContext(entry))
  }

  lemma OneArg(ms: seq<Member>, inherited: seq<Member>, entry: string)
    requires ArgsFor(ms, inherited, entry) != [] && FoundOnce(ms, inherited, entry)
    ensures |ArgsFor(ms, inherited, entry)| == 1 && ArgIs(ms, inherited, entry, ArgsFor(ms, inherited, entry)[0])
  {
  }

  /** If every entry is found in one place, the arguments are the entries, in their order, each from its place. */
  lemma ArgsInOrder(ms: seq<Member>, inherited: seq<Member>, ctor: seq<string>)
    requires Resolves(ms, inherited, ctor) && forall i :: 0 <= i < |ctor| ==> FoundOnce(ms, inherited, ctor[i])
    ensures |Args(ms, inherited, ctor)| == |ctor|
    ensures forall i :: 0 <= i < |ctor| ==> ArgIs(ms, inherited, ctor[i], Args(ms, inherited, ctor)[i])
  {
    ArgsAre(ms, inherited, ctor);
  }

  ghost predicate Matching(ms: seq<Member>, inherited: seq<Member>, ctor: seq<string>, args: seq<Arg>) {
    |args| == |ctor| && forall i :: 0 <= i < |ctor| ==> ArgIs(ms, inherited, ctor[i], args[i])
  }

  lemma MatchingMore(ms: seq<Member>, inherited: seq<Member>, ctor: seq<string>, args: seq<Arg>, entry: string, a: Arg)
    requires Matching(ms, inherited, ctor, args) && ArgIs(ms, inherited, entry, a)
    ensures Matching(ms, inherited, ctor + [entry], args + [a])
  {
  }

  lemma {:induction false} ArgsAre(ms: seq<Member>, inherited: seq<Member>, ctor: seq<string>)
    requires Resolves(ms, inherited, ctor) && forall i :: 0 <= i < |ctor| ==> FoundOnce(ms, inherited, ctor[i])
    ensures Matching(ms, inherited, ctor, Args(ms, inherited, ctor))
  {
    if ctor != [] {
      var k := |ctor| - 1;
      var more := ArgsFor(ms, inherited, ctor[k]);
      ArgsAre(ms, inherited, ctor[..k]);
      OneArg(ms, inherited, ctor[k]);
      MatchingMore(ms, inherited, ctor[..k], Args(ms, inherited, ctor[..k]), ctor[k], more[0]);
      assert ctor == ctor[..k] + [ctor[k]] && more == [more[0]];
    }
  }

  lemma InThree(a: seq<Instr>, b: seq<Instr>, c: seq<Instr>, x: Instr)
    ensures x in a + b + c <==> x in a || x in b || x in c
  {
  }

  // ---- What the generated code does ----

  /** One property in the serialized form. */
  datatype Property = Property(id: nat, value: Value)

  /** The running Deserialize: failed, or what is left to read, the locals, the object and the set parameters by type. */
  datatype State =
    | Failed
    | Running(stream: seq<Property>, locals: map<string, Value>, fields: map<string, Value>, params: map<string, seq<Value>>)

  /** Members that are newer than the target version are not written. */
  predicate Shown(m: Member, target: nat) {
    m.version == 1 || target >= m.version
  }

  /** A deleted member is not written, nor one that has its default value. */
  function Write(m: Member, v: Value, target: nat): seq<Property> {
    if m.deleted || !Shown(m, target) || (m.hasDefault && v == m.default) then [] else [Property(m.id, v)]
  }

  function WriteAll(ms: seq<Member>, obj: string -> Value, target: nat): seq<Property> {
    if ms == [] then [] else Write(ms[0], obj(ms[0].name), target) + WriteAll(ms[1..], obj, target)
  }

  datatype Outcome = ReadError | Got(value: Value, rest: seq<Property>)

  /** A property is taken if it comes next; otherwise the default is used, if there is one. */
  function Next(m: Member, stream: seq<Property>): Outcome {
    if stream != [] && stream[0].id == m.id then Got(stream[0].value, stream[1..])
    else if m.hasDefault || m.deleted then Got(m.default, stream)
    else ReadError
  }

  function Top(params: map<string, seq<Value>>, ty: string): seq<Value> {
    if ty in params then params[ty] else []
  }

  /** The fields that a constructor call sets; an argument that is not available is an error. */
  function Bind(args: seq<Arg>, st: State): State
    requires st.Running?
  {
    if args == [] then st.(fields := map[])
    else
      var before := Bind(args[..|args| - 1], st);
      if before.Failed? then Failed
      else
        match args[|args| - 1]
        case FromLocal(n) => if n in st.locals then before.(fields := before.fields[n := st.locals[n]]) else Failed
        case FromParameter(n, ty) =>
          var s := Top(st.params, ty);
          if s != [] then before.(fields := before.fields[n := s[|s| - 1]]) else Failed
        case FromContext(_) => before
  }

  function Step(i: Instr, st: State): State
    requires st.Running? && !i.Switch?
  {
    match i
    case ReadLocal(m) =>
      (match Next(m, st.stream)
       case ReadError => Failed
       case Got(v, rest) => st.(stream := rest, locals := st.locals[m.name := v]))
    case ReadDeleted(m) =>
      (match Next(m, st.stream) case ReadError => Failed case Got(_, rest) => st.(stream := rest))
    case ReadInto(m) =>
      (match Next(m, st.stream)
       case ReadError => Failed
       case Got(v, rest) => st.(stream := rest, fields := st.fields[m.name := v]))
    case Construct(args) => Bind(args, st)
    case Assign(m) => if m.name in st.locals then st.(fields := st.fields[m.name := st.locals[m.name]]) else Failed
    case SetParameter(m) =>
      if m.name in st.locals then st.(params := st.params[m.ty := Top(st.params, m.ty) + [st.locals[m.name]]]) else Failed
    case UnsetParameter(m) =>
      var s := Top(st.params, m.ty);
      if s != [] then st.(params := st.params[m.ty := s[..|s| - 1]]) else Failed
  }

  /** The case for an enum value; `|cases|` if there is none. */
  function FindCase(cases: seq<Case>, v: Value): (i: nat)
    ensures i <= |cases| && (i < |cases| ==> cases[i].entry == v)
  {
    if cases == [] || cases[0].entry == v then 0 else 1 + FindCase(cases[1..], v)
  }

  function Run(node: Node, code: seq<Instr>, st: State): State
    decreases node, 1, |code|
  {
    if code == [] || st.Failed? then st
    else Run(node, code[1..], if code[0].Switch? then Dispatch(node, code[0].enumValue, st) else Step(code[0], st))
  }

  /** The child's Deserialize has its own locals; it shares the stream and the parameters. */
  function Dispatch(node: Node, enumValue: string, st: State): State
    requires st.Running?
    decreases node, 0, 0
  {
    if node.Leaf? || enumValue !in st.locals then Failed
    else
      var i := FindCase(node.cases, st.locals[enumValue]);
      if i == |node.cases| then Failed
      else
        var child := node.cases[i].node;
        match Run(child, Code(child, node.setParameters), Running(st.stream, map[], map[], st.params))
        case Failed => Failed
        case Running(stream, _, fields, params) => st.(stream := stream, fields := fields, params := params)
  }

  function Deserialize(node: Node, inherited: seq<Member>, stream: seq<Property>, params: map<string, seq<Value>>): State {
    Run(node, Code(node, inherited), Running(stream, map[], map[], params))
  }
}

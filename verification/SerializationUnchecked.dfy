/** Classes outside every inheritance tree, which the duplicate check never sees: when do they read back what they wrote? */
module SerializationUnchecked {
  import opened Serialization
  import opened SerializationRoundTrip
  import opened SerializationTree

  // ---- What a class does with any stream ----

  datatype Reading = Broken | Read(values: seq<Value>, rest: seq<Property>)

  /** The members read one after the other. */
  function ReadAll(ms: seq<Member>, stream: seq<Property>): (r: Reading)
    ensures r.Read? ==> |r.values| == |ms|
  {
    if ms == [] then Read([], stream)
    else
      match Next(ms[0], stream)
      case ReadError => Broken
      case Got(v, rest) =>
        match ReadAll(ms[1..], rest)
        case Broken => Broken
        case Read(values, after) => Read([v] + values, after)
  }

  lemma {:induction false} ReadAllAppend(a: seq<Member>, b: seq<Member>, stream: seq<Property>)
    requires ReadAll(a, stream).Read?
    ensures ReadAll(a + b, stream).Read? <==> ReadAll(b, ReadAll(a, stream).rest).Read?
    ensures ReadAll(a + b, stream).Read? ==> ReadAll(a + b, stream).rest == ReadAll(b, ReadAll(a, stream).rest).rest
  {
    if a == [] {
      assert a + b == b;
    } else {
      assert (a + b)[1..] == a[1..] + b;
      ReadAllAppend(a[1..], b, Next(a[0], stream).rest);
    }
  }

  lemma {:induction false} FailedStays(node: Node, code: seq<Instr>)
    ensures Run(node, code, Failed) == Failed
  {
  }

  /** Unless it failed, `r` has read `ms` from `stream`. */
  ghost predicate Follows(r: State, ms: seq<Member>, stream: seq<Property>) {
    r.Running? ==> ReadAll(ms, stream).Read? && r.stream == ReadAll(ms, stream).rest
  }

  lemma FollowsAppend(mid: State, r: State, a: seq<Member>, b: seq<Member>, stream: seq<Property>)
    requires Follows(mid, a, stream) && (if mid.Running? then Follows(r, b, mid.stream) else r.Failed?)
    ensures Follows(r, a + b, stream)
  {
    if r.Running? {
      ReadAllAppend(a, b, stream);
    }
  }

  lemma {:induction false} LocalReadsRead(node: Node, ms: seq<Member>, st: State)
    requires st.Running?
    ensures Follows(Run(node, LocalReads(ms), st), ms, st.stream)
    decreases |ms|
  {
    if ms != [] {
      RunFirstRead(node, ms, st);
      var first := Step(ReadOf(ms[0]), st);
      if first.Failed? {
        FailedStays(node, LocalReads(ms[1..]));
      } else {
        LocalReadsRead(node, ms[1..], first);
      }
    }
  }

  /** The members that the first `n` late steps read. */
  function LateMembers(ms: seq<Member>, early: nat, n: nat): seq<Member>
    requires n <= |ms|
  {
    if n <= early then [] else ms[early..n]
  }

  lemma {:induction false} LateReads(node: Node, ms: seq<Member>, early: nat, ctor: seq<string>, n: nat, st: State)
    requires st.Running? && n <= |ms|
    ensures Follows(Run(node, Late(ms, early, ctor, n), st), LateMembers(ms, early, n), st.stream)
    decreases n
  {
    if n > 0 {
      var k := n - 1;
      var code := LateFor(ms[k], k < early, ctor);
      var before := Run(node, Late(ms, early, ctor, k), st);
      LateReads(node, ms, early, ctor, k, st);
      LateNext(node, ms[k], k < early, ctor, before, LateMembers(ms, early, k), st.stream);
      RunAppend(node, Late(ms, early, ctor, k), code, st);
      LateMembersStep(ms, early, n);
      LateIs(ms, early, ctor, n);
    }
  }

  lemma LateNext(node: Node, m: Member, early: bool, ctor: seq<string>, before: State, read: seq<Member>, stream: seq<Property>)
    requires Follows(before, read, stream)
    ensures Follows(Run(node, LateFor(m, early, ctor), before), read + if early then [] else [m], stream)
  {
    var code := LateFor(m, early, ctor);
    if before.Failed? {
      FailedStays(node, code);
    } else {
      LateStep(node, m, early, ctor, before);
    }
    FollowsAppend(before, Run(node, code, before), read, if early then [] else [m], stream);
  }

  lemma LateIs(ms: seq<Member>, early: nat, ctor: seq<string>, n: nat)
    requires 0 < n <= |ms|
    ensures Late(ms, early, ctor, n) == Late(ms, early, ctor, n - 1) + LateFor(ms[n - 1], n - 1 < early, ctor)
  {
  }

  lemma LateMembersStep(ms: seq<Member>, early: nat, n: nat)
    requires 0 < n <= |ms|
    ensures LateMembers(ms, early, n) == LateMembers(ms, early, n - 1) + if n - 1 < early then [] else [ms[n - 1]]
  {
    if n - 1 >= early {
      assert ms[early..n] == ms[early..n - 1] + [ms[n - 1]];
    }
  }

  lemma LateStep(node: Node, m: Member, early: bool, ctor: seq<string>, st: State)
    requires st.Running?
    ensures Follows(Run(node, LateFor(m, early, ctor), st), if early then [] else [m], st.stream)
  {
    assert [m][1..] == [];
    if !early {
      RunOne(node, if m.deleted then ReadDeleted(m) else ReadInto(m), st);
    } else if m.name !in ctor && !m.deleted {
      RunOne(node, Assign(m), st);
    }
  }

  lemma ConstructReads(node: Node, args: seq<Arg>, st: State)
    requires st.Running?
    ensures Follows(Run(node, [Construct(args)], st), [], st.stream)
  {
    RunOne(node, Construct(args), st);
    BindStream(args, st);
  }

  lemma BindStream(args: seq<Arg>, st: State)
    requires st.Running?
    ensures Bind(args, st).Running? ==> Bind(args, st).stream == st.stream
  {
  }

  lemma EarlyReads(node: Node, ms: seq<Member>, args: seq<Arg>, st: State)
    requires st.Running?
    ensures Follows(Run(node, LocalReads(ms) + [Construct(args)], st), ms, st.stream)
  {
    var read := Run(node, LocalReads(ms), st);
    LocalReadsRead(node, ms, st);
    RunAppend(node, LocalReads(ms), [Construct(args)], st);
    if read.Failed? {
      FailedStays(node, [Construct(args)]);
    } else {
      ConstructReads(node, args, read);
    }
    FollowsAppend(read, Run(node, [Construct(args)], read), ms, [], st.stream);
    assert ms + [] == ms;
  }

  /** A class whose Deserialize does not fail has read all members in order. */
  lemma RunningReads(node: Node, stream: seq<Property>)
    requires node.Leaf?
    ensures Follows(Deserialize(node, [], stream, map[]), node.members, stream)
  {
    var ms, ctor := node.members, node.ctor;
    var early := Early(ms, ctor);
    var st := Running(stream, map[], map[], map[]);
    var first, late := LocalReads(ms[..early]) + [Construct(Args(ms, [], ctor))], Late(ms, early, ctor, |ms|);
    var made := Run(node, first, st);
    EarlyReads(node, ms[..early], Args(ms, [], ctor), st);
    RunAppend(node, first, late, st);
    if made.Failed? {
      FailedStays(node, late);
    } else {
      LateReads(node, ms, early, ctor, |ms|, made);
    }
    FollowsAppend(made, Run(node, late, made), ms[..early], LateMembers(ms, early, |ms|), stream);
    EarlyAndLate(ms, early);
  }

  lemma EarlyAndLate(ms: seq<Member>, early: nat)
    requires early <= |ms|
    ensures ms == ms[..early] + LateMembers(ms, early, |ms|)
  {
  }

  /** A version at which every member is shown. */
  function Newest(ms: seq<Member>): (n: nat)
    ensures forall i :: 0 <= i < |ms| ==> Shown(ms[i], n)
  {
    if ms == [] then 0
    else
      var rest := Newest(ms[1..]);
      assert forall i :: 1 <= i < |ms| ==> ms[i] == ms[1..][i - 1];
      if ms[0].version > rest then ms[0].version else rest
  }

  /** What was read is what an object with just these values, all shown, would give. */
  lemma {:induction false} ReadIsReadsAs(ms: seq<Member>, stream: seq<Property>, obj: string -> Value, target: nat)
    requires ReadAll(ms, stream).Read?
    requires forall i :: 0 <= i < |ms| ==> Shown(ms[i], target) && obj(ms[i].name) == ReadAll(ms, stream).values[i]
    ensures ReadsAs(ms, stream, obj, target, ReadAll(ms, stream).rest)
  {
    if ms != [] {
      var rest := Next(ms[0], stream).rest;
      forall i | 0 <= i < |ms[1..]| ensures Shown(ms[1..][i], target) && obj(ms[1..][i].name) == ReadAll(ms[1..], rest).values[i] {
        assert ms[1..][i] == ms[i + 1];
      }
      ReadIsReadsAs(ms[1..], rest, obj, target);
    }
  }

  function ValueOf(ms: seq<Member>, values: seq<Value>): string -> Value
    requires |values| == |ms|
  {
    n => if IndexOf(ms, n) < |ms| then values[IndexOf(ms, n)] else 0
  }

  /** The live members have the values that were read. */
  ghost predicate Assembled(ms: seq<Member>, values: seq<Value>, fields: map<string, Value>)
    requires |values| == |ms|
  {
    forall i :: 0 <= i < |ms| && !ms[i].deleted ==> ms[i].name in fields && fields[ms[i].name] == values[i]
  }

  /**
   On any stream, the Deserialize of a class without a base class fails iff some member finds neither its property
   nor a default in its turn; otherwise the object has what was read, wherever its constructor takes it from.
   */
  lemma LeafIsReadAll(node: Node, stream: seq<Property>)
    requires node.Leaf? && DistinctNames(node.members) && CtorLive(node.members, node.ctor)
    ensures var r, all := Deserialize(node, [], stream, map[]), ReadAll(node.members, stream);
            && (r.Running? <==> all.Read?)
            && (r.Running? ==> r.stream == all.rest && Assembled(node.members, all.values, r.fields))
  {
    var ms, all := node.members, ReadAll(node.members, stream);
    if all.Broken? {
      RunningReads(node, stream);
    } else {
      var obj, target := ValueOf(ms, all.values), Newest(ms);
      forall i | 0 <= i < |ms| ensures obj(ms[i].name) == all.values[i] {
        NamedIndex(ms, i);
      }
      ReadIsReadsAs(ms, stream, obj, target);
      var r := LeafReads(node, [], map[], stream, obj, target, all.rest);
    }
  }

  // ---- Where reading goes wrong ----

  ghost predicate Carries(stream: seq<Property>, v: Value) {
    exists i :: 0 <= i < |stream| && stream[i].value == v
  }

  /** A value that is read was in the stream or is the default. */
  lemma {:induction false} ReadValue(ms: seq<Member>, stream: seq<Property>, k: nat)
    requires ReadAll(ms, stream).Read? && k < |ms|
    ensures ReadAll(ms, stream).values[k] == ms[k].default || Carries(stream, ReadAll(ms, stream).values[k])
    decreases k
  {
    var next := Next(ms[0], stream);
    if k > 0 {
      ReadValue(ms[1..], next.rest, k - 1);
      var v := ReadAll(ms[1..], next.rest).values[k - 1];
      if Carries(next.rest, v) {
        var i :| 0 <= i < |next.rest| && next.rest[i].value == v;
        assert next.rest == stream || stream[i + 1].value == v;
      }
    }
  }

  lemma CarriesAppend(a: seq<Property>, b: seq<Property>, v: Value)
    ensures Carries(a + b, v) ==> Carries(a, v) || Carries(b, v)
  {
    var all := a + b;
    if Carries(all, v) {
      var i :| 0 <= i < |all| && all[i].value == v;
      if i < |a| {
        assert a[i].value == v;
      } else {
        assert b[i - |a|].value == v;
      }
    }
  }

  /** No member from `k` on has the value `v`. */
  ghost predicate Unused(ms: seq<Member>, k: nat, obj: string -> Value, v: Value) {
    forall i :: k <= i < |ms| ==> obj(ms[i].name) != v
  }

  lemma {:induction false} UnusedValue(ms: seq<Member>, obj: string -> Value, target: nat, v: Value)
    requires Unused(ms, 0, obj, v)
    ensures !Carries(WriteAll(ms, obj, target), v)
  {
    if ms != [] {
      assert forall i :: 0 <= i < |ms[1..]| ==> ms[1..][i] == ms[i + 1];
      UnusedValue(ms[1..], obj, target, v);
      CarriesAppend(Write(ms[0], obj(ms[0].name), target), WriteAll(ms[1..], obj, target), v);
    }
  }

  /** Members that can be absent and have their defaults, if any, write nothing. */
  lemma {:induction false} WriteNothing(ms: seq<Member>, obj: string -> Value, target: nat, n: nat)
    requires n <= |ms| && forall k :: 0 <= k < n ==> CanBeAbsent(ms[k], target) && obj(ms[k].name) == ms[k].default
    ensures WriteAll(ms, obj, target) == WriteAll(ms[n..], obj, target)
  {
    if n == 0 {
      assert ms[0..] == ms;
    } else {
      assert forall k :: 0 <= k < n - 1 ==> ms[1..][k] == ms[k + 1];
      WriteNothing(ms[1..], obj, target, n - 1);
      assert ms[1..][n - 1..] == ms[n..];
    }
  }

  /** Only member `j` has `v`; from `x` on the others have their defaults, and `v` is nobody's default. */
  ghost predicate Marked(ms: seq<Member>, x: nat, j: nat, obj: string -> Value, v: Value) {
    && x <= j < |ms| && obj(ms[j].name) == v
    && forall k :: x <= k < |ms| ==> ms[k].default != v && (k != j ==> obj(ms[k].name) == ms[k].default)
  }

  /** The property of `j` is taken by the first member, and what is left does not carry its value. */
  lemma ClashSteals(ms: seq<Member>, j: nat, obj: string -> Value, target: nat, v: Value)
    requires Clash(ms, target, 0, j) && Marked(ms, 0, j, obj, v)
    ensures Next(ms[0], WriteAll(ms, obj, target)) == Got(v, WriteAll(ms[j + 1..], obj, target))
    ensures !Carries(WriteAll(ms[j + 1..], obj, target), v)
  {
    WriteNothing(ms, obj, target, j);
    var from := ms[j..];
    assert from[0] == ms[j] && from[1..] == ms[j + 1..];
    assert Write(ms[j], v, target) == [Property(ms[j].id, v)];
    var rest := WriteAll(ms[j + 1..], obj, target);
    assert WriteAll(from, obj, target) == [Property(ms[j].id, v)] + rest;
    assert ([Property(ms[j].id, v)] + rest)[1..] == rest;
    var after := ms[j + 1..];
    forall i | 0 <= i < |after| ensures obj(after[i].name) != v {
      assert after[i] == ms[j + 1 + i];
    }
    UnusedValue(after, obj, target, v);
  }

  ghost predicate Misses(r: Reading, j: nat, v: Value) {
    r.Broken? || (j < |r.values| && r.values[j] != v)
  }

  lemma ClashLater(ms: seq<Member>, x: nat, j: nat, obj: string -> Value, target: nat, v: Value)
    requires x > 0 && Clash(ms, target, x, j) && Marked(ms, x, j, obj, v)
    ensures Clash(ms[1..], target, x - 1, j - 1) && Marked(ms[1..], x - 1, j - 1, obj, v)
  {
    assert forall k :: 0 <= k < |ms| - 1 ==> ms[1..][k] == ms[k + 1];
  }

  lemma {:induction false} ClashMisses(ms: seq<Member>, x: nat, j: nat, obj: string -> Value, target: nat, v: Value)
    requires Clash(ms, target, x, j) && Marked(ms, x, j, obj, v) && forall i: nat :: i < x ==> Sound(ms, target, i)
    ensures Misses(ReadAll(ms, WriteAll(ms, obj, target)), j, v)
    decreases x
  {
    var stream, rest := WriteAll(ms, obj, target), ms[1..];
    if x == 0 {
      ClashSteals(ms, j, obj, target, v);
      var left := Next(ms[0], stream).rest;
      if ReadAll(rest, left).Read? {
        ReadValue(rest, left, j - 1);
      }
    } else {
      FirstSound(ms, obj, target);
      ClashLater(ms, x, j, obj, target, v);
      forall i: nat | i < x - 1 ensures Sound(rest, target, i) {
        SoundSuffix(ms, target, i);
      }
      ClashMisses(rest, x - 1, j - 1, obj, target, v);
    }
  }

  lemma FirstSound(ms: seq<Member>, obj: string -> Value, target: nat)
    requires ms != [] && Sound(ms, target, 0)
    ensures var next := Next(ms[0], WriteAll(ms, obj, target)); next.Got? && next.rest == WriteAll(ms[1..], obj, target)
  {
    assert WriteAll(ms, obj, target) + [] == WriteAll(ms, obj, target);
    assert WriteAll(ms[1..], obj, target) + [] == WriteAll(ms[1..], obj, target);
    NextMember(ms, obj, target, []);
  }

  /** A member that is too new and has no default cannot be read, unless another one with its id comes next. */
  lemma {:induction false} UnreadableBreaks(ms: seq<Member>, x: nat, obj: string -> Value, target: nat)
    requires x < |ms| && !Readable(ms[x], target) && !Clashes(ms, target, x) && forall i: nat :: i < x ==> Sound(ms, target, i)
    ensures ReadAll(ms, WriteAll(ms, obj, target)).Broken?
    decreases x
  {
    var rest := ms[1..];
    if x == 0 {
      var stream := WriteAll(rest, obj, target);
      assert WriteAll(ms, obj, target) == [] + stream == stream && stream + [] == stream;
      if Begins(stream, ms[0].id) {
        ClashAhead(ms, obj, target, []);
      }
    } else {
      FirstSound(ms, obj, target);
      assert rest[x - 1] == ms[x];
      ClashesSuffix(ms, target, x - 1);
      forall i: nat | i < x - 1 ensures Sound(rest, target, i) {
        SoundSuffix(ms, target, i);
      }
      UnreadableBreaks(rest, x - 1, obj, target);
    }
  }

  lemma ClashesSuffix(ms: seq<Member>, target: nat, i: nat)
    requires ms != []
    ensures Clashes(ms[1..], target, i) ==> Clashes(ms, target, i + 1)
  {
    var rest := ms[1..];
    if Clashes(rest, target, i) {
      var j: nat :| Clash(rest, target, i, j);
      assert forall k :: 0 <= k < |rest| ==> rest[k] == ms[k + 1];
      assert Clash(ms, target, i + 1, j + 1);
    }
  }

  lemma {:induction false} LeastUnsound(ms: seq<Member>, target: nat, n: nat) returns (x: nat)
    requires n <= |ms| && exists i: nat :: i < n && !Sound(ms, target, i)
    ensures x < n && !Sound(ms, target, x) && forall i: nat :: i < x ==> Sound(ms, target, i)
  {
    if exists i: nat :: i < n - 1 && !Sound(ms, target, i) {
      x := LeastUnsound(ms, target, n - 1);
    } else {
      x := n - 1;
    }
  }

  // ---- Exactly when ----

  /** What is written comes back, and nothing is left in the stream. */
  ghost predicate ComesBack(node: Node, obj: string -> Value, target: nat) {
    var r := Deserialize(node, [], WriteAll(node.members, obj, target), map[]);
    r.Running? && r.stream == [] && Holds(node.members, r.fields, obj, target)
  }

  /** One more than every default. */
  function Above(ms: seq<Member>): (v: Value)
    ensures forall i :: 0 <= i < |ms| ==> ms[i].default < v
  {
    if ms == [] then 0
    else
      var rest := Above(ms[1..]);
      assert forall i :: 1 <= i < |ms| ==> ms[i] == ms[1..][i - 1];
      if ms[0].default < rest then rest else ms[0].default + 1
  }

  /** The object in which only the member at `j` differs from its default. */
  function MarkedAt(ms: seq<Member>, j: nat): string -> Value {
    n => if IndexOf(ms, n) == j then Above(ms) else if IndexOf(ms, n) < |ms| then ms[IndexOf(ms, n)].default else 0
  }

  lemma MarksOne(ms: seq<Member>, x: nat, j: nat)
    requires DistinctNames(ms) && x <= j < |ms|
    ensures Marked(ms, x, j, MarkedAt(ms, j), Above(ms))
  {
    forall k | 0 <= k < |ms| ensures IndexOf(ms, ms[k].name) == k {
      NamedIndex(ms, k);
    }
  }

  lemma ClashFails(node: Node, target: nat, x: nat, j: nat)
    requires node.Leaf? && DistinctNames(node.members) && CtorLive(node.members, node.ctor)
    requires Clash(node.members, target, x, j) && forall i: nat :: i < x ==> Sound(node.members, target, i)
    ensures !ComesBack(node, MarkedAt(node.members, j), target)
  {
    var ms := node.members;
    var obj := MarkedAt(ms, j);
    MarksOne(ms, x, j);
    ClashMisses(ms, x, j, obj, target, Above(ms));
    LeafIsReadAll(node, WriteAll(ms, obj, target));
    assert !ms[j].deleted && Stored(ms[j], obj(ms[j].name), target) == Above(ms);
  }

  lemma UnsoundFails(node: Node, target: nat) returns (obj: string -> Value)
    requires node.Leaf? && DistinctNames(node.members) && CtorLive(node.members, node.ctor)
    requires !AllSound(node.members, target)
    ensures !ComesBack(node, obj, target)
  {
    var ms := node.members;
    var x := LeastUnsound(ms, target, |ms|);
    if Clashes(ms, target, x) {
      var j: nat :| Clash(ms, target, x, j);
      ClashFails(node, target, x, j);
      obj := MarkedAt(ms, j);
    } else {
      obj := MarkedAt(ms, 0);
      UnreadableBreaks(ms, x, obj, target);
      LeafIsReadAll(node, WriteAll(ms, obj, target));
    }
  }

  lemma SoundComesBack(node: Node, obj: string -> Value, target: nat)
    requires node.Leaf? && DistinctNames(node.members) && CtorLive(node.members, node.ctor) && AllSound(node.members, target)
    ensures ComesBack(node, obj, target)
  {
    var all := WriteAll(node.members, obj, target);
    assert all + [] == all;
    var r := LeafRoundTrip(node, [], map[], obj, target, []);
  }

  lemma SoundIff(ms: seq<Member>, target: nat)
    ensures AllSound(ms, target) <==> AllReadable(ms, target) && forall i: nat, j: nat :: !Clash(ms, target, i, j)
  {
    if AllSound(ms, target) {
      forall i: nat, j: nat ensures !Clash(ms, target, i, j) {
        if Clash(ms, target, i, j) {
          assert Sound(ms, target, i) && Clashes(ms, target, i);
        }
      }
      forall i | 0 <= i < |ms| ensures Readable(ms[i], target) {
        assert Sound(ms, target, i);
      }
    }
  }

  /**
   Every object of a class that is not checked comes back at a target version, if and only if every member can be
   read there and no two members with one id clash: the first can be absent, the second is live and shown, and
   every member between them can be absent, too.
   */
  lemma UncheckedIff(node: Node, target: nat)
    requires node.Leaf? && DistinctNames(node.members) && CtorLive(node.members, node.ctor)
    ensures (forall obj :: ComesBack(node, obj, target)) <==>
            AllReadable(node.members, target) && forall i: nat, j: nat :: !Clash(node.members, target, i, j)
  {
    var ms := node.members;
    SoundIff(ms, target);
    if AllSound(ms, target) {
      forall obj ensures ComesBack(node, obj, target) {
        SoundComesBack(node, obj, target);
      }
    } else {
      var obj := UnsoundFails(node, target);
      assert !ComesBack(node, obj, target);
    }
  }

  /** Two members with one id: they come back unless the first has a default and so can be absent. */
  lemma StandaloneUnchecked(node: Node, a: Member, b: Member)
    requires node == Leaf([a, b], []) && a.id == b.id && a.name != b.name && !a.deleted && !b.deleted
    requires a.version == 1 && b.version == 1
    ensures !Checks(node, {}, {})
    ensures (forall obj :: ComesBack(node, obj, 1)) <==> !a.hasDefault
  {
    var ms := node.members;
    assert ms[0] == a && ms[1] == b;
    assert !Fresh(ms, {}, {});
    UncheckedIff(node, 1);
    if a.hasDefault {
      assert Clash(ms, 1, 0, 1);
    }
  }
}

/** Reading back what was written, through a whole inheritance tree. */
module SerializationRoundTrip {
  import opened Serialization

  // ---- Values that come back ----

  /** A member can be read whether or not the target version shows it. */
  predicate Readable(m: Member, target: nat) {
    m.deleted || Shown(m, target) || m.hasDefault
  }

  /** The value that comes back: what was written, or the default of a member that is too new. */
  function Stored(m: Member, v: Value, target: nat): Value {
    if m.version == 1 || m.version <= target then v else m.default
  }

  ghost predicate DistinctIds(ms: seq<Member>) {
    forall i, j :: 0 <= i < j < |ms| ==> ms[i].id != ms[j].id
  }

  /** The stream does not begin with a property of `ms`. */
  ghost predicate Foreign(stream: seq<Property>, ms: seq<Member>) {
    forall i :: 0 <= i < |ms| ==> !Begins(stream, ms[i].id)
  }

  predicate Begins(stream: seq<Property>, id: nat) {
    stream != [] && stream[0].id == id
  }

  ghost predicate AllReadable(ms: seq<Member>, target: nat) {
    forall i :: 0 <= i < |ms| ==> Readable(ms[i], target)
  }

  // ---- What is read from a stream ----

  /** Reading `ms` from `stream` gives the live ones their values and leaves `tail`. */
  ghost predicate ReadsAs(ms: seq<Member>, stream: seq<Property>, obj: string -> Value, target: nat, tail: seq<Property>) {
    if ms == [] then stream == tail
    else
      var next := Next(ms[0], stream);
      && next.Got? && (!ms[0].deleted ==> next.value == Stored(ms[0], obj(ms[0].name), target))
      && ReadsAs(ms[1..], next.rest, obj, target, tail)
  }

  lemma {:induction false} ReadsAsSplit(ms: seq<Member>, n: nat, stream: seq<Property>, obj: string -> Value, target: nat,
                                        tail: seq<Property>) returns (mid: seq<Property>)
    requires n <= |ms| && ReadsAs(ms, stream, obj, target, tail)
    ensures ReadsAs(ms[..n], stream, obj, target, mid) && ReadsAs(ms[n..], mid, obj, target, tail)
  {
    if n == 0 {
      mid := stream;
      assert ms[0..] == ms;
    } else {
      mid := ReadsAsSplit(ms[1..], n - 1, Next(ms[0], stream).rest, obj, target, tail);
      assert ms[..n][1..] == ms[1..][..n - 1] && ms[1..][n - 1..] == ms[n..];
    }
  }

  /** In some object the member is not written. */
  predicate CanBeAbsent(m: Member, target: nat) {
    m.deleted || !Shown(m, target) || m.hasDefault
  }

  predicate CanBePresent(m: Member, target: nat) {
    !m.deleted && Shown(m, target)
  }

  /** Member `i` is absent and the next property in the stream is that of member `j`, with the same id. */
  ghost predicate Clash(ms: seq<Member>, target: nat, i: nat, j: nat) {
    && i < j < |ms| && ms[i].id == ms[j].id && CanBePresent(ms[j], target)
    && forall k :: i <= k < j ==> CanBeAbsent(ms[k], target)
  }

  ghost predicate Clashes(ms: seq<Member>, target: nat, i: nat) {
    exists j: nat :: Clash(ms, target, i, j)
  }

  /** Reading member `i` finds its own property, or takes its default. */
  ghost predicate Sound(ms: seq<Member>, target: nat, i: nat)
    requires i < |ms|
  {
    Readable(ms[i], target) && !Clashes(ms, target, i)
  }

  ghost predicate AllSound(ms: seq<Member>, target: nat) {
    forall i: nat :: i < |ms| ==> Sound(ms, target, i)
  }

  lemma SoundSuffix(ms: seq<Member>, target: nat, i: nat)
    requires ms != [] && i < |ms| - 1
    ensures Sound(ms, target, i + 1) <==> Sound(ms[1..], target, i)
  {
    var rest := ms[1..];
    if Clashes(rest, target, i) {
      var j: nat :| Clash(rest, target, i, j);
      forall k | i + 1 <= k < j + 1 ensures CanBeAbsent(ms[k], target) {
        assert rest[k - 1] == ms[k];
      }
      assert Clash(ms, target, i + 1, j + 1);
    }
    if Clashes(ms, target, i + 1) {
      var j: nat :| Clash(ms, target, i + 1, j);
      assert forall k :: 0 <= k < |rest| ==> rest[k] == ms[k + 1];
      assert Clash(rest, target, i, j - 1);
    }
  }

  lemma AllSoundSuffix(ms: seq<Member>, target: nat)
    requires ms != [] && AllSound(ms, target)
    ensures AllSound(ms[1..], target)
  {
    forall i: nat | i < |ms| - 1 ensures Sound(ms[1..], target, i) {
      SoundSuffix(ms, target, i);
    }
  }

  lemma DistinctSound(ms: seq<Member>, target: nat)
    requires DistinctIds(ms) && AllReadable(ms, target)
    ensures AllSound(ms, target)
  {
  }

  /** The first property that is written belongs to a member that only absent ones stand before. */
  lemma {:induction false} FirstWritten(ms: seq<Member>, obj: string -> Value, target: nat, tail: seq<Property>, id: nat) returns (j: nat)
    requires Begins(WriteAll(ms, obj, target) + tail, id) && !Begins(tail, id)
    ensures j < |ms| && ms[j].id == id && CanBePresent(ms[j], target)
    ensures forall k :: 0 <= k < j ==> CanBeAbsent(ms[k], target)
  {
    j := 0;
    assert ms == [] ==> WriteAll(ms, obj, target) + tail == tail;
    if ms != [] {
      var head, rest := Write(ms[0], obj(ms[0].name), target), WriteAll(ms[1..], obj, target);
      if head == [] {
        assert head + rest + tail == rest + tail;
        j := FirstWritten(ms[1..], obj, target, tail, id);
        j := j + 1;
      }
    }
  }

  lemma ClashAhead(ms: seq<Member>, obj: string -> Value, target: nat, tail: seq<Property>)
    requires ms != [] && CanBeAbsent(ms[0], target) && !Begins(tail, ms[0].id)
    requires Begins(WriteAll(ms[1..], obj, target) + tail, ms[0].id)
    ensures Clashes(ms, target, 0)
  {
    var j := FirstWritten(ms[1..], obj, target, tail, ms[0].id);
    assert Clash(ms, target, 0, j + 1);
  }

  /** A member that was written finds its property, one that was not gets its default. */
  lemma ReadOne(m: Member, v: Value, target: nat, rest: seq<Property>)
    requires Readable(m, target) && (Write(m, v, target) == [] ==> !Begins(rest, m.id))
    ensures Next(m, Write(m, v, target) + rest) == Got(if m.deleted then m.default else Stored(m, v, target), rest)
  {
    var w := Write(m, v, target);
    if w == [] {
      assert w + rest == rest;
    } else {
      assert (w + rest)[1..] == rest;
    }
  }

  /** A sound member is read back, and only what it wrote is consumed. */
  lemma NextMember(ms: seq<Member>, obj: string -> Value, target: nat, tail: seq<Property>)
    requires ms != [] && Sound(ms, target, 0) && !Begins(tail, ms[0].id)
    ensures Next(ms[0], WriteAll(ms, obj, target) + tail) ==
            Got(if ms[0].deleted then ms[0].default else Stored(ms[0], obj(ms[0].name), target),
                WriteAll(ms[1..], obj, target) + tail)
  {
    var m := ms[0];
    var w, rest := Write(m, obj(m.name), target), WriteAll(ms[1..], obj, target) + tail;
    assert WriteAll(ms, obj, target) + tail == w + rest;
    if w == [] && Begins(rest, m.id) {
      ClashAhead(ms, obj, target, tail);
    }
    ReadOne(m, obj(m.name), target, rest);
  }

  /** What sound members write, they read. */
  lemma {:induction false} WrittenReads(ms: seq<Member>, obj: string -> Value, target: nat, tail: seq<Property>)
    requires AllSound(ms, target) && Foreign(tail, ms)
    ensures ReadsAs(ms, WriteAll(ms, obj, target) + tail, obj, target, tail)
  {
    if ms == [] {
      assert WriteAll(ms, obj, target) + tail == tail;
    } else {
      NextMember(ms, obj, target, tail);
      AllSoundSuffix(ms, target);
      WrittenReads(ms[1..], obj, target, tail);
    }
  }

  lemma WriteAllForeign(ms: seq<Member>, obj: string -> Value, target: nat, tail: seq<Property>, id: nat)
    requires !Begins(tail, id) && forall i :: 0 <= i < |ms| ==> ms[i].id != id
    ensures !Begins(WriteAll(ms, obj, target) + tail, id)
  {
    if Begins(WriteAll(ms, obj, target) + tail, id) {
      var j := FirstWritten(ms, obj, target, tail, id);
    }
  }

  lemma {:induction false} RunAppend(node: Node, a: seq<Instr>, b: seq<Instr>, st: State)
    ensures Run(node, a + b, st) == Run(node, b, Run(node, a, st))
    decreases |a|
  {
    if a == [] {
      assert a + b == b;
    } else if st.Running? {
      assert (a + b)[1..] == a[1..] + b && (a + b)[0] == a[0];
      RunAppend(node, a[1..], b, if a[0].Switch? then Dispatch(node, a[0].enumValue, st) else Step(a[0], st));
    }
  }

  lemma RunOne(node: Node, i: Instr, st: State)
    requires st.Running? && !i.Switch?
    ensures Run(node, [i], st) == Step(i, st)
  {
    assert [i][1..] == [];
    assert Run(node, [i], st) == Run(node, [], Step(i, st));
  }

  /** The live members of `ms` have their values in `vals`. */
  ghost predicate Holds(ms: seq<Member>, vals: map<string, Value>, obj: string -> Value, target: nat) {
    forall i :: 0 <= i < |ms| && !ms[i].deleted ==>
      ms[i].name in vals && vals[ms[i].name] == Stored(ms[i], obj(ms[i].name), target)
  }

  ghost predicate Named(ms: seq<Member>, n: string) {
    exists i :: 0 <= i < |ms| && ms[i].name == n
  }

  /** `vals` has all that `before` has for names outside `ms`. */
  ghost predicate Keeps(ms: seq<Member>, before: map<string, Value>, vals: map<string, Value>) {
    forall n :: !Named(ms, n) ==> (n in vals <==> n in before) && (n in before ==> vals[n] == before[n])
  }

  lemma LocalReadsCons(ms: seq<Member>)
    requires ms != []
    ensures LocalReads(ms) == [ReadOf(ms[0])] + LocalReads(ms[1..])
  {
  }

  lemma ReadOneLocal(node: Node, ms: seq<Member>, st: State, obj: string -> Value, target: nat, tail: seq<Property>) returns (r: State)
    requires st.Running? && ms != [] && ReadsAs(ms, st.stream, obj, target, tail)
    ensures r == Step(ReadOf(ms[0]), st) && r.Running? && ReadsAs(ms[1..], r.stream, obj, target, tail)
    ensures r == st.(stream := r.stream, locals := r.locals)
    ensures r.locals == if ms[0].deleted then st.locals
                        else st.locals[ms[0].name := Stored(ms[0], obj(ms[0].name), target)]
  {
    r := Step(ReadOf(ms[0]), st);
  }

  lemma RunFirstRead(node: Node, ms: seq<Member>, st: State)
    requires ms != [] && st.Running?
    ensures Run(node, LocalReads(ms), st) == Run(node, LocalReads(ms[1..]), Step(ReadOf(ms[0]), st))
  {
    LocalReadsCons(ms);
    RunOne(node, ReadOf(ms[0]), st);
    RunAppend(node, [ReadOf(ms[0])], LocalReads(ms[1..]), st);
  }

  /** Reading members one after the other brings back their values. */
  lemma {:induction false} RunLocalReads(node: Node, ms: seq<Member>, st: State, obj: string -> Value, target: nat,
                                         tail: seq<Property>)
    returns (r: State)
    requires st.Running? && DistinctNames(ms) && ReadsAs(ms, st.stream, obj, target, tail)
    ensures r == Run(node, LocalReads(ms), st) && r.Running? && r.stream == tail
    ensures r == st.(stream := r.stream, locals := r.locals)
    ensures Holds(ms, r.locals, obj, target) && Keeps(ms, st.locals, r.locals)
    decreases |ms|
  {
    if ms == [] {
      r := st;
    } else {
      var first := ReadOneLocal(node, ms, st, obj, target, tail);
      RunFirstRead(node, ms, st);
      r := RunLocalReads(node, ms[1..], first, obj, target, tail);
      KeepsCons(ms, st.locals, first.locals, r.locals, obj, target);
    }
  }

  lemma KeepsCons(ms: seq<Member>, a: map<string, Value>, b: map<string, Value>, c: map<string, Value>, obj: string -> Value, target: nat)
    requires ms != [] && DistinctNames(ms) && Holds(ms[1..], c, obj, target) && Keeps(ms[1..], b, c)
    requires b == if ms[0].deleted then a else a[ms[0].name := Stored(ms[0], obj(ms[0].name), target)]
    ensures Holds(ms, c, obj, target) && Keeps(ms, a, c)
  {
    assert !Named(ms[1..], ms[0].name);
    forall n | !Named(ms, n) ensures (n in c <==> n in a) && (n in a ==> c[n] == a[n]) {
      assert forall i :: 0 <= i < |ms[1..]| ==> ms[1..][i] == ms[i + 1];
      assert ms[0].name != n;
    }
    forall i | 0 <= i < |ms| && !ms[i].deleted
      ensures ms[i].name in c && c[ms[i].name] == Stored(ms[i], obj(ms[i].name), target)
    {
      if i > 0 {
        assert ms[1..][i - 1] == ms[i];
      }
    }
  }

  // ---- Construction ----

  ghost predicate Available(a: Arg, st: State) {
    st.Running? &&
    match a
    case FromLocal(n) => n in st.locals
    case FromParameter(_, ty) => Top(st.params, ty) != []
    case FromContext(_) => true
  }

  function ArgValue(a: Arg, st: State): Value
    requires Available(a, st)
  {
    match a
    case FromLocal(n) => st.locals[n]
    case FromParameter(_, ty) => Top(st.params, ty)[|Top(st.params, ty)| - 1]
    case FromContext(_) => 0
  }

  /** Arguments for the same field carry the same value. */
  ghost predicate Agree(args: seq<Arg>, st: State)
    requires forall i :: 0 <= i < |args| ==> Available(args[i], st)
  {
    forall i, j :: 0 <= i < |args| && 0 <= j < |args| && args[i].name == args[j].name && !args[i].FromContext? && !args[j].FromContext?
      ==> ArgValue(args[i], st) == ArgValue(args[j], st)
  }

  lemma {:induction false} BindAll(args: seq<Arg>, st: State)
    requires st.Running? && (forall i :: 0 <= i < |args| ==> Available(args[i], st)) && Agree(args, st)
    ensures Bind(args, st).Running? && Bind(args, st) == st.(fields := Bind(args, st).fields)
    ensures forall i :: 0 <= i < |args| && !args[i].FromContext? ==>
              args[i].name in Bind(args, st).fields && Bind(args, st).fields[args[i].name] == ArgValue(args[i], st)
    ensures forall n :: n in Bind(args, st).fields ==> exists i :: 0 <= i < |args| && !args[i].FromContext? && args[i].name == n
  {
    if args != [] {
      var k := |args| - 1;
      BindAll(args[..k], st);
      var before := Bind(args[..k], st);
      forall i | 0 <= i < |args| && !args[i].FromContext?
        ensures args[i].name in Bind(args, st).fields && Bind(args, st).fields[args[i].name] == ArgValue(args[i], st)
      {
        if i < k {
          assert args[..k][i] == args[i];
          assert args[i].name in before.fields;
        }
      }
      forall n | n in Bind(args, st).fields
        ensures exists i :: 0 <= i < |args| && !args[i].FromContext? && args[i].name == n
      {
        if n in before.fields {
          var i :| 0 <= i < |args[..k]| && !args[..k][i].FromContext? && args[..k][i].name == n;
          assert args[i].name == n;
        } else {
          assert args[k].name == n;
        }
      }
    }
  }

  /** Where a constructor argument comes from. */
  ghost predicate Origin(ms: seq<Member>, inherited: seq<Member>, ctor: seq<string>, a: Arg) {
    match a
    case FromLocal(n) => n in ctor && IndexOf(ms, n) < |ms|
    case FromParameter(n, ty) =>
      n in ctor && IndexOf(inherited, n) < |inherited| && ty == inherited[IndexOf(inherited, n)].ty
    case FromContext(n) => n in ctor
  }

  lemma {:induction false} ArgsOrigin(ms: seq<Member>, inherited: seq<Member>, ctor: seq<string>)
    ensures forall a :: a in Args(ms, inherited, ctor) ==> Origin(ms, inherited, ctor, a)
  {
    if ctor != [] {
      var n := |ctor| - 1;
      ArgsOrigin(ms, inherited, ctor[..n]);
      assert ctor == ctor[..n] + [ctor[n]];
      forall a | a in Args(ms, inherited, ctor) ensures Origin(ms, inherited, ctor, a) {
        if a in Args(ms, inherited, ctor[..n]) {
          assert Origin(ms, inherited, ctor[..n], a);
        } else {
          assert a in ArgsFor(ms, inherited, ctor[n]);
        }
      }
    }
  }

  lemma {:induction false} ArgsParameter(ms: seq<Member>, inherited: seq<Member>, ctor: seq<string>, n: string)
    requires n in ctor && IndexOf(inherited, n) < |inherited|
    ensures FromParameter(n, inherited[IndexOf(inherited, n)].ty) in Args(ms, inherited, ctor)
  {
    var k := |ctor| - 1;
    assert ctor == ctor[..k] + [ctor[k]];
    if ctor[k] != n {
      ArgsParameter(ms, inherited, ctor[..k], n);
    }
  }

  /** The parameters that the base class set are on top of their stacks. */
  ghost predicate Provides(params: map<string, seq<Value>>, inherited: seq<Member>, obj: string -> Value, target: nat) {
    forall k :: 0 <= k < |inherited| ==>
      var s := Top(params, inherited[k].ty);
      s != [] && s[|s| - 1] == Stored(inherited[k], obj(inherited[k].name), target)
  }

  ghost predicate DisjointNames(ms: seq<Member>, ns: seq<Member>) {
    forall i, j :: 0 <= i < |ms| && 0 <= j < |ns| ==> ms[i].name != ns[j].name
  }

  ghost predicate CtorLive(ms: seq<Member>, ctor: seq<string>) {
    forall i :: 0 <= i < |ms| && ms[i].name in ctor ==> !ms[i].deleted
  }

  /** The fields of a new object: its constructor's members and parameters. */
  ghost predicate Constructed(ms: seq<Member>, inherited: seq<Member>, ctor: seq<string>, fields: map<string, Value>,
                              obj: string -> Value, target: nat) {
    && (forall i :: 0 <= i < |ms| && ms[i].name in ctor ==>
          ms[i].name in fields && fields[ms[i].name] == Stored(ms[i], obj(ms[i].name), target))
    && (forall i :: 0 <= i < |inherited| && inherited[i].name in ctor ==>
          inherited[i].name in fields && fields[inherited[i].name] == Stored(inherited[i], obj(inherited[i].name), target))
    && (forall n :: n in fields ==> Named(ms, n) || Named(inherited, n))
  }

  lemma NamedIndex(ms: seq<Member>, i: nat)
    requires i < |ms| && DistinctNames(ms)
    ensures IndexOf(ms, ms[i].name) == i
  {
  }

  /** An argument is available and has the value of the member or parameter it is named after. */
  ghost predicate Worth(ms: seq<Member>, inherited: seq<Member>, ctor: seq<string>, st: State,
                        obj: string -> Value, target: nat, a: Arg) {
    && Origin(ms, inherited, ctor, a) && Available(a, st)
    && (a.FromLocal? ==> ArgValue(a, st) == Stored(ms[IndexOf(ms, a.name)], obj(a.name), target))
    && (a.FromParameter? ==> ArgValue(a, st) == Stored(inherited[IndexOf(inherited, a.name)], obj(a.name), target))
  }

  lemma ArgWorth(ms: seq<Member>, inherited: seq<Member>, ctor: seq<string>, st: State, obj: string -> Value, target: nat, a: Arg)
    requires st.Running? && DistinctNames(ms) && CtorLive(ms, ctor) && Origin(ms, inherited, ctor, a)
    requires Holds(ms[..Early(ms, ctor)], st.locals, obj, target) && Provides(st.params, inherited, obj, target)
    ensures Worth(ms, inherited, ctor, st, obj, target, a)
  {
    if a.FromLocal? {
      var i := IndexOf(ms, a.name);
      EarlyCovers(ms, ctor, i);
      assert ms[..Early(ms, ctor)][i] == ms[i];
    }
  }

  lemma WorthAgrees(ms: seq<Member>, inherited: seq<Member>, ctor: seq<string>, st: State,
                    obj: string -> Value, target: nat, a: Arg, b: Arg)
    requires Worth(ms, inherited, ctor, st, obj, target, a) && Worth(ms, inherited, ctor, st, obj, target, b)
    requires DisjointNames(ms, inherited) && a.name == b.name && !a.FromContext? && !b.FromContext?
    ensures ArgValue(a, st) == ArgValue(b, st)
  {
  }

  lemma AllAgree(ms: seq<Member>, inherited: seq<Member>, ctor: seq<string>, st: State,
                 obj: string -> Value, target: nat, args: seq<Arg>)
    requires DisjointNames(ms, inherited) && AllWorth(ms, inherited, ctor, st, obj, target, args)
    ensures (forall i :: 0 <= i < |args| ==> Available(args[i], st)) && Agree(args, st)
  {
    forall i, j | 0 <= i < |args| && 0 <= j < |args| && args[i].name == args[j].name && !args[i].FromContext? && !args[j].FromContext?
      ensures Available(args[i], st) && Available(args[j], st) && ArgValue(args[i], st) == ArgValue(args[j], st)
    {
      WorthAgrees(ms, inherited, ctor, st, obj, target, args[i], args[j]);
    }
  }

  lemma RunConstruct(node: Node, ms: seq<Member>, inherited: seq<Member>, ctor: seq<string>, st: State,
                     obj: string -> Value, target: nat) returns (r: State)
    requires st.Running? && DistinctNames(ms) && DistinctNames(inherited) && DisjointNames(ms, inherited) && CtorLive(ms, ctor)
    requires Holds(ms[..Early(ms, ctor)], st.locals, obj, target) && Provides(st.params, inherited, obj, target)
    ensures r == Step(Construct(Args(ms, inherited, ctor)), st) && r.Running? && r == st.(fields := r.fields)
    ensures Constructed(ms, inherited, ctor, r.fields, obj, target)
  {
    var args := Args(ms, inherited, ctor);
    ArgsWorth(ms, inherited, ctor, st, obj, target);
    AllAgree(ms, inherited, ctor, st, obj, target, args);
    r := BindBound(args, st);
    ConstructedBy(ms, inherited, ctor, st, obj, target, args, r.fields);
  }

  lemma ArgsWorth(ms: seq<Member>, inherited: seq<Member>, ctor: seq<string>, st: State, obj: string -> Value, target: nat)
    requires st.Running? && DistinctNames(ms) && CtorLive(ms, ctor)
    requires Holds(ms[..Early(ms, ctor)], st.locals, obj, target) && Provides(st.params, inherited, obj, target)
    ensures AllWorth(ms, inherited, ctor, st, obj, target, Args(ms, inherited, ctor))
  {
    var args := Args(ms, inherited, ctor);
    ArgsOrigin(ms, inherited, ctor);
    forall i | 0 <= i < |args| ensures Worth(ms, inherited, ctor, st, obj, target, args[i]) {
      assert args[i] in args;
      ArgWorth(ms, inherited, ctor, st, obj, target, args[i]);
    }
  }

  lemma BindBound(args: seq<Arg>, st: State) returns (r: State)
    requires st.Running? && (forall i :: 0 <= i < |args| ==> Available(args[i], st)) && Agree(args, st)
    ensures r == Step(Construct(args), st) && r.Running? && r == st.(fields := r.fields)
    ensures Bound(args, st, r.fields)
    ensures forall n :: n in r.fields ==> exists i :: 0 <= i < |args| && !args[i].FromContext? && args[i].name == n
  {
    BindAll(args, st);
    r := Bind(args, st);
  }

  /** An argument among those of a constructor call, with its value in the new object. */
  ghost predicate Bound(args: seq<Arg>, st: State, fields: map<string, Value>) {
    forall i :: 0 <= i < |args| && !args[i].FromContext? ==>
      Available(args[i], st) && args[i].name in fields && fields[args[i].name] == ArgValue(args[i], st)
  }

  ghost predicate AllWorth(ms: seq<Member>, inherited: seq<Member>, ctor: seq<string>, st: State,
                           obj: string -> Value, target: nat, args: seq<Arg>) {
    forall i :: 0 <= i < |args| ==> Worth(ms, inherited, ctor, st, obj, target, args[i])
  }

  lemma MemberBound(ms: seq<Member>, inherited: seq<Member>, ctor: seq<string>, st: State, obj: string -> Value, target: nat,
                    args: seq<Arg>, fields: map<string, Value>, i: nat)
    requires DistinctNames(ms) && args == Args(ms, inherited, ctor) && Bound(args, st, fields)
    requires AllWorth(ms, inherited, ctor, st, obj, target, args) && i < |ms| && ms[i].name in ctor
    ensures ms[i].name in fields && fields[ms[i].name] == Stored(ms[i], obj(ms[i].name), target)
  {
    ArgsMember(ms, inherited, ctor, i);
    NamedIndex(ms, i);
    var k :| 0 <= k < |args| && args[k] == FromLocal(ms[i].name);
    assert Worth(ms, inherited, ctor, st, obj, target, args[k]);
  }

  lemma ParameterBound(ms: seq<Member>, inherited: seq<Member>, ctor: seq<string>, st: State, obj: string -> Value, target: nat,
                       args: seq<Arg>, fields: map<string, Value>, i: nat)
    requires DistinctNames(inherited) && args == Args(ms, inherited, ctor) && Bound(args, st, fields)
    requires AllWorth(ms, inherited, ctor, st, obj, target, args) && i < |inherited| && inherited[i].name in ctor
    ensures inherited[i].name in fields && fields[inherited[i].name] == Stored(inherited[i], obj(inherited[i].name), target)
  {
    NamedIndex(inherited, i);
    ArgsParameter(ms, inherited, ctor, inherited[i].name);
    var k :| 0 <= k < |args| && args[k] == FromParameter(inherited[i].name, inherited[i].ty);
    assert Worth(ms, inherited, ctor, st, obj, target, args[k]);
  }

  lemma WorthNamed(ms: seq<Member>, inherited: seq<Member>, ctor: seq<string>, st: State, obj: string -> Value, target: nat, a: Arg)
    requires Worth(ms, inherited, ctor, st, obj, target, a) && !a.FromContext?
    ensures Named(ms, a.name) || Named(inherited, a.name)
  {
    var i, j := IndexOf(ms, a.name), IndexOf(inherited, a.name);
    assert i < |ms| ==> ms[i].name == a.name;
    assert j < |inherited| ==> inherited[j].name == a.name;
  }

  lemma ConstructedBy(ms: seq<Member>, inherited: seq<Member>, ctor: seq<string>, st: State, obj: string -> Value, target: nat,
                      args: seq<Arg>, fields: map<string, Value>)
    requires DistinctNames(ms) && DistinctNames(inherited) && args == Args(ms, inherited, ctor)
    requires AllWorth(ms, inherited, ctor, st, obj, target, args) && Bound(args, st, fields)
    requires forall n :: n in fields ==> exists i :: 0 <= i < |args| && !args[i].FromContext? && args[i].name == n
    ensures Constructed(ms, inherited, ctor, fields, obj, target)
  {
    forall i | 0 <= i < |ms| && ms[i].name in ctor
      ensures ms[i].name in fields && fields[ms[i].name] == Stored(ms[i], obj(ms[i].name), target)
    {
      MemberBound(ms, inherited, ctor, st, obj, target, args, fields, i);
    }
    forall i | 0 <= i < |inherited| && inherited[i].name in ctor
      ensures inherited[i].name in fields && fields[inherited[i].name] == Stored(inherited[i], obj(inherited[i].name), target)
    {
      ParameterBound(ms, inherited, ctor, st, obj, target, args, fields, i);
    }
    forall n | n in fields ensures Named(ms, n) || Named(inherited, n) {
      var i :| 0 <= i < |args| && !args[i].FromContext? && args[i].name == n;
      WorthNamed(ms, inherited, ctor, st, obj, target, args[i]);
    }
  }

  // ---- A class ----

  /** After the first `n` late steps: those members and all constructor members are in place. */
  ghost predicate InPlace(ms: seq<Member>, ctor: seq<string>, n: nat, fields: map<string, Value>, obj: string -> Value, target: nat) {
    forall i :: 0 <= i < |ms| && !ms[i].deleted && (i < n || ms[i].name in ctor) ==>
      ms[i].name in fields && fields[ms[i].name] == Stored(ms[i], obj(ms[i].name), target)
  }

  ghost predicate Good(ms: seq<Member>, tail: seq<Property>, target: nat) {
    DistinctIds(ms) && DistinctNames(ms) && Foreign(tail, ms) && AllReadable(ms, target)
  }

  lemma GoodSuffix(ms: seq<Member>, tail: seq<Property>, target: nat, k: nat)
    requires Good(ms, tail, target) && k <= |ms|
    ensures Good(ms[k..], tail, target)
  {
  }

  /** A member that is read late goes into the object. */
  lemma RunLateRead(node: Node, ms: seq<Member>, k: nat, st: State, obj: string -> Value, target: nat, tail: seq<Property>) returns (r: State)
    requires st.Running? && k < |ms| && ReadsAs(ms[k..], st.stream, obj, target, tail)
    ensures r == Run(node, LateFor(ms[k], false, []), st) && r.Running? && ReadsAs(ms[k + 1..], r.stream, obj, target, tail)
    ensures r == st.(stream := r.stream, fields := r.fields)
    ensures r.fields == if ms[k].deleted then st.fields else st.fields[ms[k].name := Stored(ms[k], obj(ms[k].name), target)]
  {
    assert ms[k..][0] == ms[k] && ms[k..][1..] == ms[k + 1..];
    var i := if ms[k].deleted then ReadDeleted(ms[k]) else ReadInto(ms[k]);
    RunOne(node, i, st);
    r := Step(i, st);
  }

  lemma RunLateAssign(node: Node, ms: seq<Member>, k: nat, ctor: seq<string>, st: State, obj: string -> Value, target: nat) returns (r: State)
    requires st.Running? && k < |ms| && (!ms[k].deleted ==> ms[k].name in st.locals)
    requires !ms[k].deleted ==> st.locals[ms[k].name] == Stored(ms[k], obj(ms[k].name), target)
    ensures r == Run(node, LateFor(ms[k], true, ctor), st) && r.Running? && r == st.(fields := r.fields)
    ensures r.fields == if ms[k].deleted || ms[k].name in ctor then st.fields
                        else st.fields[ms[k].name := Stored(ms[k], obj(ms[k].name), target)]
  {
    if ms[k].name !in ctor && !ms[k].deleted {
      RunOne(node, Assign(ms[k]), st);
    }
    r := Run(node, LateFor(ms[k], true, ctor), st);
  }

  function Later(n: nat, early: nat): nat {
    if n <= early then early else n
  }

  lemma PlaceNext(ms: seq<Member>, ctor: seq<string>, n: nat, a: map<string, Value>, b: map<string, Value>, c: map<string, Value>,
                  obj: string -> Value, target: nat)
    requires 0 < n <= |ms| && DistinctNames(ms) && InPlace(ms, ctor, n - 1, b, obj, target) && Keeps(ms, a, b)
    requires c == (if ms[n - 1].deleted then b else b[ms[n - 1].name := Stored(ms[n - 1], obj(ms[n - 1].name), target)])
             || (c == b && ms[n - 1].name in ctor)
    ensures InPlace(ms, ctor, n, c, obj, target) && Keeps(ms, a, c)
  {
    assert forall x :: !Named(ms, x) ==> x != ms[n - 1].name;
  }

  /** One member, read before or to be read now. */
  lemma RunLateOne(node: Node, ms: seq<Member>, early: nat, k: nat, ctor: seq<string>, st: State,
                   obj: string -> Value, target: nat, tail: seq<Property>)
    returns (r: State)
    requires st.Running? && k < |ms| && early <= |ms| && Holds(ms[..early], st.locals, obj, target)
    requires ReadsAs(ms[Later(k, early)..], st.stream, obj, target, tail)
    ensures r == Run(node, LateFor(ms[k], k < early, ctor), st) && r.Running? && r == st.(stream := r.stream, fields := r.fields)
    ensures ReadsAs(ms[Later(k + 1, early)..], r.stream, obj, target, tail)
    ensures r.fields == (if ms[k].deleted then st.fields else st.fields[ms[k].name := Stored(ms[k], obj(ms[k].name), target)])
            || (r.fields == st.fields && ms[k].name in ctor)
  {
    if k < early {
      assert ms[..early][k] == ms[k];
      r := RunLateAssign(node, ms, k, ctor, st, obj, target);
    } else {
      assert LateFor(ms[k], false, ctor) == LateFor(ms[k], false, []);
      r := RunLateRead(node, ms, k, st, obj, target, tail);
    }
  }

  lemma LateRuns(node: Node, ms: seq<Member>, early: nat, ctor: seq<string>, n: nat, st: State, before: State)
    requires 0 < n <= |ms| && before == Run(node, Late(ms, early, ctor, n - 1), st)
    ensures Run(node, Late(ms, early, ctor, n), st) == Run(node, LateFor(ms[n - 1], n - 1 < early, ctor), before)
  {
    RunAppend(node, Late(ms, early, ctor, n - 1), LateFor(ms[n - 1], n - 1 < early, ctor), st);
  }

  lemma {:induction false} RunLate(node: Node, ms: seq<Member>, early: nat, ctor: seq<string>, n: nat, st: State,
                                   obj: string -> Value, target: nat, tail: seq<Property>)
    returns (r: State)
    requires st.Running? && n <= |ms| && early <= |ms| && DistinctNames(ms)
    requires ReadsAs(ms[early..], st.stream, obj, target, tail)
    requires Holds(ms[..early], st.locals, obj, target) && InPlace(ms, ctor, 0, st.fields, obj, target)
    ensures r == Run(node, Late(ms, early, ctor, n), st) && r.Running?
    ensures r == st.(stream := r.stream, fields := r.fields) && ReadsAs(ms[Later(n, early)..], r.stream, obj, target, tail)
    ensures InPlace(ms, ctor, n, r.fields, obj, target) && Keeps(ms, st.fields, r.fields)
    decreases n
  {
    if n == 0 {
      r := st;
    } else {
      var k := n - 1;
      var before := RunLate(node, ms, early, ctor, k, st, obj, target, tail);
      LateRuns(node, ms, early, ctor, n, st, before);
      r := RunLateOne(node, ms, early, k, ctor, before, obj, target, tail);
      PlaceNext(ms, ctor, n, st.fields, before.fields, r.fields, obj, target);
    }
  }

  lemma {:induction false} WriteAllAppend(a: seq<Member>, b: seq<Member>, obj: string -> Value, target: nat)
    ensures WriteAll(a + b, obj, target) == WriteAll(a, obj, target) + WriteAll(b, obj, target)
  {
    if a == [] {
      assert a + b == b;
    } else {
      assert (a + b)[1..] == a[1..] + b;
      WriteAllAppend(a[1..], b, obj, target);
    }
  }

  /** What a finished Deserialize must have produced. */
  ghost predicate LeafRestored(ms: seq<Member>, inherited: seq<Member>, ctor: seq<string>, fields: map<string, Value>,
                               obj: string -> Value, target: nat) {
    && Holds(ms, fields, obj, target)
    && (forall i :: 0 <= i < |inherited| && inherited[i].name in ctor ==>
          inherited[i].name in fields && fields[inherited[i].name] == Stored(inherited[i], obj(inherited[i].name), target))
    && (forall n :: n in fields ==> Named(ms, n) || Named(inherited, n))
  }

  lemma ForeignEarly(ms: seq<Member>, obj: string -> Value, target: nat, tail: seq<Property>, early: nat)
    requires Good(ms, tail, target) && early <= |ms|
    ensures Good(ms[..early], WriteAll(ms[early..], obj, target) + tail, target)
  {
    forall i | 0 <= i < early ensures !Begins(WriteAll(ms[early..], obj, target) + tail, ms[..early][i].id) {
      WriteAllForeign(ms[early..], obj, target, tail, ms[i].id);
    }
  }

  /** The reads before construction, and the construction. */
  lemma RunEarly(node: Node, ms: seq<Member>, inherited: seq<Member>, ctor: seq<string>, st: State,
                 obj: string -> Value, target: nat, tail: seq<Property>) returns (r: State)
    requires st.Running? && DistinctNames(ms) && ReadsAs(ms, st.stream, obj, target, tail)
    requires DistinctNames(inherited) && DisjointNames(ms, inherited) && CtorLive(ms, ctor)
    requires Provides(st.params, inherited, obj, target)
    ensures r == Run(node, LocalReads(ms[..Early(ms, ctor)]) + [Construct(Args(ms, inherited, ctor))], st) && r.Running?
    ensures r.params == st.params && ReadsAs(ms[Early(ms, ctor)..], r.stream, obj, target, tail)
    ensures Holds(ms[..Early(ms, ctor)], r.locals, obj, target) && Constructed(ms, inherited, ctor, r.fields, obj, target)
  {
    var early := Early(ms, ctor);
    var a := ms[..early];
    var rest := ReadsAsSplit(ms, early, st.stream, obj, target, tail);
    var mid := RunLocalReads(node, a, st, obj, target, rest);
    var make := Construct(Args(ms, inherited, ctor));
    RunAppend(node, LocalReads(a), [make], st);
    RunOne(node, make, mid);
    r := RunConstruct(node, ms, inherited, ctor, mid, obj, target);
  }

  lemma RestoredBy(ms: seq<Member>, inherited: seq<Member>, ctor: seq<string>, a: map<string, Value>, b: map<string, Value>,
                   obj: string -> Value, target: nat)
    requires Constructed(ms, inherited, ctor, a, obj, target) && DisjointNames(ms, inherited)
    requires InPlace(ms, ctor, |ms|, b, obj, target) && Keeps(ms, a, b)
    ensures LeafRestored(ms, inherited, ctor, b, obj, target)
  {
    forall i | 0 <= i < |inherited| && inherited[i].name in ctor
      ensures inherited[i].name in b && b[inherited[i].name] == Stored(inherited[i], obj(inherited[i].name), target)
    {
      assert !Named(ms, inherited[i].name);
    }
  }

  /** The generated code of a class gives the object what is read from the stream, whatever the stream. */
  lemma LeafReads(node: Node, inherited: seq<Member>, params: map<string, seq<Value>>, stream: seq<Property>,
                  obj: string -> Value, target: nat, tail: seq<Property>) returns (r: State)
    requires node.Leaf? && DistinctNames(node.members) && ReadsAs(node.members, stream, obj, target, tail)
    requires DistinctNames(inherited) && DisjointNames(node.members, inherited) && CtorLive(node.members, node.ctor)
    requires Provides(params, inherited, obj, target)
    ensures r == Deserialize(node, inherited, stream, params)
    ensures r.Running? && r.stream == tail && r.params == params
    ensures LeafRestored(node.members, inherited, node.ctor, r.fields, obj, target)
  {
    var ms, ctor := node.members, node.ctor;
    var st := Running(stream, map[], map[], params);
    var early := Early(ms, ctor);
    var first := LocalReads(ms[..early]) + [Construct(Args(ms, inherited, ctor))];
    var mid := RunEarly(node, ms, inherited, ctor, st, obj, target, tail);
    RunAppend(node, first, Late(ms, early, ctor, |ms|), st);
    r := RunLate(node, ms, early, ctor, |ms|, mid, obj, target, tail);
    assert ms[|ms|..] == [];
    RestoredBy(ms, inherited, ctor, mid.fields, r.fields, obj, target);
  }

  /** A class reads back what it wrote. */
  lemma LeafRoundTrip(node: Node, inherited: seq<Member>, params: map<string, seq<Value>>, obj: string -> Value, target: nat,
                      tail: seq<Property>) returns (r: State)
    requires node.Leaf? && DistinctNames(node.members) && AllSound(node.members, target) && Foreign(tail, node.members)
    requires DistinctNames(inherited) && DisjointNames(node.members, inherited) && CtorLive(node.members, node.ctor)
    requires Provides(params, inherited, obj, target)
    ensures r == Deserialize(node, inherited, WriteAll(node.members, obj, target) + tail, params)
    ensures r.Running? && r.stream == tail && r.params == params
    ensures LeafRestored(node.members, inherited, node.ctor, r.fields, obj, target)
  {
    WrittenReads(node.members, obj, target, tail);
    r := LeafReads(node, inherited, params, WriteAll(node.members, obj, target) + tail, obj, target, tail);
  }

  // ---- Parameters ----

  ghost predicate DistinctTypes(ps: seq<Member>) {
    forall i, j :: 0 <= i < j < |ps| ==> ps[i].ty != ps[j].ty
  }

  ghost predicate Typed(ps: seq<Member>, ty: string) {
    exists i :: 0 <= i < |ps| && ps[i].ty == ty
  }

  /** `q` is `p` with one more value on the stack of each type of `ps`. */
  ghost predicate Pushed(ps: seq<Member>, p: map<string, seq<Value>>, q: map<string, seq<Value>>) {
    && (forall i :: 0 <= i < |ps| ==> PushedOne(p, q, ps[i].ty))
    && (forall ty :: !Typed(ps, ty) ==> Top(q, ty) == Top(p, ty))
  }

  ghost predicate PushedOne(p: map<string, seq<Value>>, q: map<string, seq<Value>>, ty: string) {
    Top(q, ty) != [] && Top(q, ty)[..|Top(q, ty)| - 1] == Top(p, ty)
  }

  lemma TypedSuffix(ps: seq<Member>, k: nat, ty: string)
    requires k < |ps| && Typed(ps[k..], ty)
    ensures Typed(ps[k + 1..], ty) || ps[k].ty == ty
  {
    var i :| 0 <= i < |ps[k..]| && ps[k..][i].ty == ty;
    if i > 0 {
      assert ps[k + 1..][i - 1].ty == ty;
    }
  }

  lemma PushNext(ps: seq<Member>, m: Member, p: map<string, seq<Value>>, q: map<string, seq<Value>>, v: Value)
    requires !Typed(ps, m.ty) && Pushed(ps, p, q)
    ensures Pushed(ps + [m], p, q[m.ty := Top(q, m.ty) + [v]])
  {
    var all, r := ps + [m], q[m.ty := Top(q, m.ty) + [v]];
    forall i | 0 <= i < |all| ensures PushedOne(p, r, all[i].ty) {
      if i < |ps| {
        assert all[i] == ps[i];
        assert PushedOne(p, q, ps[i].ty);
      }
    }
    forall ty | !Typed(all, ty) ensures Top(r, ty) == Top(p, ty) {
      assert all[|ps|].ty == m.ty;
      assert forall i :: 0 <= i < |ps| ==> all[i] == ps[i];
    }
  }

  lemma PopNext(ps: seq<Member>, k: nat, p: map<string, seq<Value>>, q: map<string, seq<Value>>)
    requires k < |ps| && DistinctTypes(ps) && Pushed(ps[k..], p, q)
    ensures Top(q, ps[k].ty) != []
    ensures Pushed(ps[k + 1..], p, q[ps[k].ty := Top(q, ps[k].ty)[..|Top(q, ps[k].ty)| - 1]])
  {
    assert PushedOne(p, q, ps[k..][0].ty);
    var r := q[ps[k].ty := Top(q, ps[k].ty)[..|Top(q, ps[k].ty)| - 1]];
    var rest := ps[k + 1..];
    forall i | 0 <= i < |rest| ensures PushedOne(p, r, rest[i].ty) {
      assert PushedOne(p, q, ps[k..][i + 1].ty);
    }
    forall ty | !Typed(rest, ty) ensures Top(r, ty) == Top(p, ty) {
      if Typed(ps[k..], ty) { TypedSuffix(ps, k, ty); }
    }
  }

  ghost predicate Topped(ps: seq<Member>, params: map<string, seq<Value>>, locals: map<string, Value>) {
    forall i :: 0 <= i < |ps| ==>
      var s := Top(params, ps[i].ty);
      s != [] && ps[i].name in locals && s[|s| - 1] == locals[ps[i].name]
  }

  /** `q` is `p` with the values of `ps` on top. */
  ghost predicate Installed(ps: seq<Member>, p: map<string, seq<Value>>, q: map<string, seq<Value>>, locals: map<string, Value>) {
    Pushed(ps, p, q) && Topped(ps, q, locals)
  }

  lemma InstallNext(ps: seq<Member>, p: map<string, seq<Value>>, q: map<string, seq<Value>>, r: map<string, seq<Value>>,
                    locals: map<string, Value>)
    requires ps != [] && DistinctTypes(ps)
    requires var k := |ps| - 1; ps[k].name in locals && r == q[ps[k].ty := Top(q, ps[k].ty) + [locals[ps[k].name]]]
    requires Installed(ps[..|ps| - 1], p, q, locals)
    ensures Installed(ps, p, r, locals)
  {
    var k := |ps| - 1;
    var qs, m := ps[..k], ps[k];
    assert !Typed(qs, m.ty);
    assert qs + [m] == ps;
    PushNext(qs, m, p, q, locals[m.name]);
    ToppedNext(qs, m, q, r, locals);
  }

  lemma {:induction false} RunSets(node: Node, ps: seq<Member>, st: State) returns (r: State)
    requires st.Running? && DistinctTypes(ps) && forall i :: 0 <= i < |ps| ==> ps[i].name in st.locals
    ensures r == Run(node, Sets(ps), st) && r.Running? && r == st.(params := r.params)
    ensures Installed(ps, st.params, r.params, st.locals)
    decreases |ps|
  {
    if ps == [] {
      r := st;
    } else {
      var k := |ps| - 1;
      var before := RunSets(node, ps[..k], st);
      RunAppend(node, Sets(ps[..k]), [SetParameter(ps[k])], st);
      RunOne(node, SetParameter(ps[k]), before);
      r := Step(SetParameter(ps[k]), before);
      InstallNext(ps, st.params, before.params, r.params, st.locals);
    }
  }

  lemma ToppedNext(qs: seq<Member>, m: Member, p: map<string, seq<Value>>, q: map<string, seq<Value>>, locals: map<string, Value>)
    requires Topped(qs, p, locals) && m.name in locals && !Typed(qs, m.ty) && q == p[m.ty := Top(p, m.ty) + [locals[m.name]]]
    ensures Topped(qs + [m], q, locals)
  {
    var ps := qs + [m];
    forall i | 0 <= i < |ps|
      ensures var s := Top(q, ps[i].ty); s != [] && ps[i].name in locals && s[|s| - 1] == locals[ps[i].name]
    {
      if i < |qs| {
        assert ps[i] == qs[i] && ps[i].ty != m.ty;
      }
    }
  }

  lemma {:induction false} RunUnsets(node: Node, ps: seq<Member>, k: nat, st: State, p: map<string, seq<Value>>) returns (r: State)
    requires st.Running? && k <= |ps| && DistinctTypes(ps) && Pushed(ps, p, st.params)
    ensures r == Run(node, Unsets(ps[..k]), st) && r.Running? && r == st.(params := r.params)
    ensures Pushed(ps[k..], p, r.params)
    decreases k
  {
    if k == 0 {
      r := st;
      assert ps[0..] == ps;
    } else {
      var before := RunUnsets(node, ps, k - 1, st, p);
      RunLastUnset(node, ps, k, st, before);
      r := UnsetOne(ps, k, before, p);
    }
  }

  lemma UnsetOne(ps: seq<Member>, k: nat, before: State, p: map<string, seq<Value>>) returns (r: State)
    requires 0 < k <= |ps| && before.Running? && DistinctTypes(ps) && Pushed(ps[k - 1..], p, before.params)
    ensures r == Step(UnsetParameter(ps[k - 1]), before) && r.Running? && r == before.(params := r.params)
    ensures Pushed(ps[k..], p, r.params)
  {
    PopNext(ps, k - 1, p, before.params);
    r := Step(UnsetParameter(ps[k - 1]), before);
  }

  lemma RunLastUnset(node: Node, ps: seq<Member>, k: nat, st: State, before: State)
    requires 0 < k <= |ps| && before.Running? && before == Run(node, Unsets(ps[..k - 1]), st)
    ensures Run(node, Unsets(ps[..k]), st) == Step(UnsetParameter(ps[k - 1]), before)
  {
    assert ps[..k][..k - 1] == ps[..k - 1];
    RunAppend(node, Unsets(ps[..k - 1]), [UnsetParameter(ps[k - 1])], st);
    RunOne(node, UnsetParameter(ps[k - 1]), before);
  }

  ghost predicate SameTops(p: map<string, seq<Value>>, q: map<string, seq<Value>>) {
    forall ty :: Top(p, ty) == Top(q, ty)
  }

  // ---- Assignments of a base class ----

  ghost predicate Assigned(node: Node, m: Member)
    requires node.Base?
  {
    !m.deleted && !ReachesChild(node, m)
  }

  ghost predicate AssignedHold(node: Node, ms: seq<Member>, fields: map<string, Value>, obj: string -> Value, target: nat)
    requires node.Base?
  {
    forall i :: 0 <= i < |ms| && Assigned(node, ms[i]) ==>
      ms[i].name in fields && fields[ms[i].name] == Stored(ms[i], obj(ms[i].name), target)
  }

  /** Only assigned names of `ms` may differ. */
  ghost predicate Touches(node: Node, ms: seq<Member>, before: map<string, Value>, after: map<string, Value>)
    requires node.Base?
  {
    forall n :: TouchedBy(node, ms, n) || ((n in before <==> n in after) && (n in before ==> after[n] == before[n]))
  }

  ghost predicate TouchedBy(node: Node, ms: seq<Member>, n: string)
    requires node.Base?
  {
    exists i :: 0 <= i < |ms| && Assigned(node, ms[i]) && ms[i].name == n
  }

  lemma {:induction false} RunAssigns(node: Node, ms: seq<Member>, st: State, obj: string -> Value, target: nat) returns (r: State)
    requires node.Base? && st.Running? && DistinctNames(ms) && Holds(ms, st.locals, obj, target)
    ensures r == Run(node, Assigns(node, ms), st) && r.Running? && r == st.(fields := r.fields)
    ensures AssignedHold(node, ms, r.fields, obj, target) && Touches(node, ms, st.fields, r.fields)
    decreases |ms|
  {
    if ms == [] {
      r := st;
    } else {
      var k := |ms| - 1;
      var ns, m := ms[..k], ms[k];
      var before := RunAssigns(node, ns, st, obj, target);
      RunAppend(node, Assigns(node, ns), AssignFor(node, m), st);
      SkipsIff(node, m);
      if Assigned(node, m) {
        RunOne(node, Assign(m), before);
        r := Step(Assign(m), before);
      } else {
        r := before;
      }
      assert ns + [m] == ms;
      AssignNext(node, ns, m, st.fields, before.fields, r.fields, obj, target);
    }
  }

  lemma AssignNext(node: Node, ns: seq<Member>, m: Member, a: map<string, Value>, b: map<string, Value>, c: map<string, Value>,
                   obj: string -> Value, target: nat)
    requires node.Base? && DistinctNames(ns + [m])
    requires AssignedHold(node, ns, b, obj, target) && Touches(node, ns, a, b)
    requires c == if Assigned(node, m) then b[m.name := Stored(m, obj(m.name), target)] else b
    ensures AssignedHold(node, ns + [m], c, obj, target) && Touches(node, ns + [m], a, c)
  {
    var ms := ns + [m];
    forall i | 0 <= i < |ms| && Assigned(node, ms[i])
      ensures ms[i].name in c && c[ms[i].name] == Stored(ms[i], obj(ms[i].name), target)
    {
      if i < |ns| {
        assert ms[i] == ns[i] && ms[i].name != ms[|ns|].name;
      }
    }
    forall n ensures TouchedBy(node, ms, n) || ((n in a <==> n in c) && (n in a ==> c[n] == a[n])) {
      if TouchedBy(node, ns, n) {
        var i :| 0 <= i < |ns| && Assigned(node, ns[i]) && ns[i].name == n;
        assert ms[i] == ns[i];
      } else if Assigned(node, m) && m.name == n {
        assert ms[|ns|] == m;
      }
    }
  }
}

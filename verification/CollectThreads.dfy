/**
 The strided worker threads of statistics collection, as a state machine: the main thread starts the
 workers one after the other, folds the counts into the single-table sequences and joins; a worker
 walks the subsets `threadId, threadId + numThreads, ...` and adds every count to each that is not
 skipped. An addition is not atomic: a worker first reads the statistic and later writes it back.
 */
module CollectThreads {
  import opened Options
  import DegreeSequences
  import Star = StarCollection
  import StarSummary

  /** A worker: the subset it is at, the next count to add there, and what it has read. */
  datatype Worker<S> = Worker(at: nat, next: nat, local: Option<S>)

  datatype State<S> = State(stats: seq<S>, single: S, workers: seq<Worker<S>>, singleNext: nat, joined: bool)

  /** What is fixed during one collection. */
  datatype Job<!S, !I> = Job(skip: seq<bool>, items: seq<I>, initial: seq<S>, initialSingle: S,
                           add: (S, I) -> S, addSingle: (S, I) -> S, collectParallel: int, hardware: int)

  ghost predicate WellFormed<S, I>(job: Job<S, I>) {
    |job.skip| == |job.initial|
  }

  function Min(x: int, y: int): int {
    if x <= y then x else y
  }

  function NumThreads<S, I>(job: Job<S, I>): int {
    Min(|job.skip|, Min(job.collectParallel, if job.hardware <= 0 then 1 else job.hardware))
  }

  /** The sequential fold that the threads are to compute. */
  function Fold<S, I>(add: (S, I) -> S, s: S, items: seq<I>): S {
    if items == [] then s else add(Fold(add, s, items[..|items| - 1]), items[|items| - 1])
  }

  ghost predicate Start<S, I>(job: Job<S, I>, st: State<S>) {
    st == State(job.initial, job.initialSingle, [], 0, false)
  }

  // ---- Steps ----

  /** The main thread starts the next worker. */
  ghost predicate Spawn<S, I>(job: Job<S, I>, a: State<S>, b: State<S>) {
    |a.workers| < NumThreads(job) && b == a.(workers := a.workers + [Worker(|a.workers|, 0, None)])
  }

  /** With all workers started, the main thread adds one count to the single-table sequences. */
  ghost predicate MainAdd<S, I>(job: Job<S, I>, a: State<S>, b: State<S>) {
    && |a.workers| >= NumThreads(job) && a.singleNext < |job.items|
    && b == a.(single := job.addSingle(a.single, job.items[a.singleNext]), singleNext := a.singleNext + 1)
  }

  ghost predicate Finished<S, I>(job: Job<S, I>, w: Worker<S>) {
    w.at >= |job.skip|
  }

  /** All workers are done and the main thread goes on. */
  ghost predicate Join<S, I>(job: Job<S, I>, a: State<S>, b: State<S>) {
    && |a.workers| >= NumThreads(job) && a.singleNext >= |job.items| && !a.joined
    && (forall w :: 0 <= w < |a.workers| ==> Finished(job, a.workers[w]))
    && b == a.(joined := true)
  }

  /** Whether worker `w` leaves its subset: it is skipped, or every count has been added. */
  ghost predicate Leaves<S, I>(job: Job<S, I>, w: Worker<S>)
    requires w.at < |job.skip|
  {
    job.skip[w.at] || (w.next >= |job.items| && w.local.None?)
  }

  ghost predicate Advance<S, I>(job: Job<S, I>, w: nat, a: State<S>, b: State<S>) {
    && w < |a.workers| && a.workers[w].at < |job.skip| && Leaves(job, a.workers[w])
    && NumThreads(job) > 0
    && b == a.(workers := a.workers[w := Worker(a.workers[w].at + NumThreads(job), 0, None)])
  }

  ghost predicate Load<S, I>(job: Job<S, I>, w: nat, a: State<S>, b: State<S>) {
    && w < |a.workers|
    && var me := a.workers[w];
    && me.at < |job.skip| && me.at < |a.stats| && !job.skip[me.at] && me.next < |job.items| && me.local.None?
    && b == a.(workers := a.workers[w := me.(local := Some(a.stats[me.at]))])
  }

  ghost predicate Store<S, I>(job: Job<S, I>, w: nat, a: State<S>, b: State<S>) {
    && w < |a.workers|
    && var me := a.workers[w];
    && me.at < |job.skip| && me.at < |a.stats| && !job.skip[me.at] && me.next < |job.items| && me.local.Some?
    && b == a.(workers := a.workers[w := Worker(me.at, me.next + 1, None)],
               stats := a.stats[me.at := job.add(me.local.value, job.items[me.next])])
  }

  ghost predicate WorkerStep<S, I>(job: Job<S, I>, w: nat, a: State<S>, b: State<S>) {
    Advance(job, w, a, b) || Load(job, w, a, b) || Store(job, w, a, b)
  }

  ghost predicate Step<S, I>(job: Job<S, I>, a: State<S>, b: State<S>) {
    Spawn(job, a, b) || MainAdd(job, a, b) || Join(job, a, b) || exists w :: WorkerStep(job, w, a, b)
  }

  /** Any interleaving. */
  ghost predicate Run<S, I>(job: Job<S, I>, run: seq<State<S>>) {
    run != [] && Start(job, run[0]) && forall i :: 0 <= i < |run| - 1 ==> Step(job, run[i], run[i + 1])
  }

  // ---- The invariant ----

  /** The thread that walks over subset `s`: `s` modulo the number of threads. */
  function Owner(s: nat, n: nat): (w: nat)
    requires n > 0
    ensures w < n && w <= s
  {
    if s < n then s else Owner(s - n, n)
  }

  /** What the statistic of subset `s` is, given how far its owner has come. */
  function Expected<S, I>(job: Job<S, I>, owner: Worker<S>, s: nat): S
    requires s < |job.skip| && s < |job.initial|
  {
    if job.skip[s] || s > owner.at then job.initial[s]
    else if s < owner.at || owner.next > |job.items| then Fold(job.add, job.initial[s], job.items)
    else Fold(job.add, job.initial[s], job.items[..owner.next])
  }

  /** Worker `w` is where only worker `w` goes, and what it has read is still current. */
  ghost predicate WorkerOk<S, I>(job: Job<S, I>, st: State<S>, w: nat)
    requires w < |st.workers| && |st.stats| == |job.skip| && 0 < NumThreads(job)
  {
    var me := st.workers[w];
    && Owner(me.at, NumThreads(job)) == w && me.next <= |job.items|
    && (me.local.Some? ==> me.at < |st.stats| && !job.skip[me.at] && me.next < |job.items| && me.local.value == st.stats[me.at])
  }

  ghost predicate StatOk<S, I>(job: Job<S, I>, st: State<S>, s: nat)
    requires s < |st.stats| && |st.stats| == |job.skip| == |job.initial| && 0 < NumThreads(job)
  {
    var owner := Owner(s, NumThreads(job));
    st.stats[s] == if owner < |st.workers| then Expected(job, st.workers[owner], s) else job.initial[s]
  }

  ghost predicate Inv<S, I>(job: Job<S, I>, st: State<S>) {
    && |st.stats| == |job.skip| == |job.initial|
    && (|st.workers| <= if NumThreads(job) < 0 then 0 else NumThreads(job))
    && st.singleNext <= |job.items|
    && st.single == Fold(job.addSingle, job.initialSingle, job.items[..st.singleNext])
    && (NumThreads(job) <= 0 ==> st.stats == job.initial)
    && (NumThreads(job) > 0 ==>
          && (forall w :: 0 <= w < |st.workers| ==> WorkerOk(job, st, w))
          && (forall s :: 0 <= s < |st.stats| ==> StatOk(job, st, s)))
    && (st.joined ==>
          && |st.workers| >= NumThreads(job) && st.singleNext >= |job.items|
          && forall w :: 0 <= w < |st.workers| ==> Finished(job, st.workers[w]))
  }

  lemma {:induction false} StrideGap(s: nat, u: nat, n: nat)
    requires n > 0 && s < u < s + n
    ensures Owner(u, n) != Owner(s, n)
  {
    if s >= n {
      StrideGap(s - n, u - n, n);
    }
  }

  lemma FoldStep<S, I>(add: (S, I) -> S, s: S, items: seq<I>, k: nat)
    requires k < |items|
    ensures Fold(add, s, items[..k + 1]) == add(Fold(add, s, items[..k]), items[k])
  {
    assert items[..k + 1][..k] == items[..k];
  }

  lemma StartInv<S, I>(job: Job<S, I>, st: State<S>)
    requires WellFormed(job) && Start(job, st)
    ensures Inv(job, st)
  {
    assert job.items[..0] == [];
  }

  lemma SpawnInv<S, I>(job: Job<S, I>, a: State<S>, b: State<S>)
    requires Inv(job, a) && Spawn(job, a, b)
    ensures Inv(job, b)
  {
    var n, me := NumThreads(job), |a.workers|;
    assert job.items[..0] == [];
    forall s | 0 <= s < |b.stats| ensures StatOk(job, b, s) {
      assert StatOk(job, a, s);
    }
    forall w | 0 <= w < |b.workers| ensures WorkerOk(job, b, w) {
      if w < me {
        assert WorkerOk(job, a, w);
      }
    }
  }

  lemma MainAddInv<S, I>(job: Job<S, I>, a: State<S>, b: State<S>)
    requires Inv(job, a) && MainAdd(job, a, b)
    ensures Inv(job, b)
  {
    FoldStep(job.addSingle, job.initialSingle, job.items, a.singleNext);
    if NumThreads(job) > 0 {
      forall s | 0 <= s < |b.stats| ensures StatOk(job, b, s) {
        assert StatOk(job, a, s);
      }
      forall w | 0 <= w < |b.workers| ensures WorkerOk(job, b, w) {
        assert WorkerOk(job, a, w);
      }
    }
  }

  lemma JoinInv<S, I>(job: Job<S, I>, a: State<S>, b: State<S>)
    requires Inv(job, a) && Join(job, a, b)
    ensures Inv(job, b)
  {
    if NumThreads(job) > 0 {
      forall s | 0 <= s < |b.stats| ensures StatOk(job, b, s) {
        assert StatOk(job, a, s);
      }
      forall w | 0 <= w < |b.workers| ensures WorkerOk(job, b, w) {
        assert WorkerOk(job, a, w);
      }
    }
  }

  lemma AdvanceInv<S, I>(job: Job<S, I>, w: nat, a: State<S>, b: State<S>)
    requires Inv(job, a) && Advance(job, w, a, b)
    ensures Inv(job, b)
  {
    var n, me := NumThreads(job), a.workers[w];
    assert WorkerOk(job, a, w);
    assert job.items[..|job.items|] == job.items;
    assert job.items[..0] == [];
    forall s | 0 <= s < |b.stats| ensures StatOk(job, b, s) {
      assert StatOk(job, a, s);
      if me.at < s < me.at + n {
        StrideGap(me.at, s, n);
      }
    }
    forall u | 0 <= u < |b.workers| ensures WorkerOk(job, b, u) {
      assert WorkerOk(job, a, u);
    }
  }

  lemma LoadInv<S, I>(job: Job<S, I>, w: nat, a: State<S>, b: State<S>)
    requires Inv(job, a) && Load(job, w, a, b)
    ensures Inv(job, b)
  {
    forall s | 0 <= s < |b.stats| ensures StatOk(job, b, s) {
      assert StatOk(job, a, s);
    }
    forall u | 0 <= u < |b.workers| ensures WorkerOk(job, b, u) {
      assert WorkerOk(job, a, u);
    }
  }

  lemma StoreInv<S, I>(job: Job<S, I>, w: nat, a: State<S>, b: State<S>)
    requires Inv(job, a) && Store(job, w, a, b)
    ensures Inv(job, b)
  {
    var me := a.workers[w];
    assert WorkerOk(job, a, w) && StatOk(job, a, me.at);
    FoldStep(job.add, job.initial[me.at], job.items, me.next);
    forall s | 0 <= s < |b.stats| ensures StatOk(job, b, s) {
      assert StatOk(job, a, s);
    }
    forall u | 0 <= u < |b.workers| ensures WorkerOk(job, b, u) {
      assert WorkerOk(job, a, u);
    }
  }

  lemma StepInv<S, I>(job: Job<S, I>, a: State<S>, b: State<S>)
    requires Inv(job, a) && Step(job, a, b)
    ensures Inv(job, b)
  {
    if Spawn(job, a, b) {
      SpawnInv(job, a, b);
    } else if MainAdd(job, a, b) {
      MainAddInv(job, a, b);
    } else if Join(job, a, b) {
      JoinInv(job, a, b);
    } else {
      var w :| WorkerStep(job, w, a, b);
      if Advance(job, w, a, b) {
        AdvanceInv(job, w, a, b);
      } else if Load(job, w, a, b) {
        LoadInv(job, w, a, b);
      } else {
        StoreInv(job, w, a, b);
      }
    }
  }

  lemma {:induction false} RunInv<S, I>(job: Job<S, I>, run: seq<State<S>>, i: nat)
    requires WellFormed(job) && Run(job, run) && i < |run|
    ensures Inv(job, run[i])
  {
    if i == 0 {
      StartInv(job, run[0]);
    } else {
      RunInv(job, run, i - 1);
      assert Step(job, run[i - 1], run[i - 1 + 1]);
      StepInv(job, run[i - 1], run[i]);
    }
  }

  // ---- What every run guarantees ----

  /** No two workers are ever at the same subset. */
  lemma NoSharing<S, I>(job: Job<S, I>, run: seq<State<S>>, i: nat, u: nat, w: nat)
    requires WellFormed(job) && Run(job, run) && i < |run|
    requires u < |run[i].workers| && w < |run[i].workers| && u != w
    ensures run[i].workers[u].at != run[i].workers[w].at
  {
    RunInv(job, run, i);
    assert WorkerOk(job, run[i], u) && WorkerOk(job, run[i], w);
  }

  /** Whichever thread a step belongs to, it writes only the statistic that its thread owns, and no skipped one. */
  lemma OwnerWrites<S, I>(job: Job<S, I>, run: seq<State<S>>, i: nat, s: nat)
    requires WellFormed(job) && Run(job, run) && i + 1 < |run| && s < |job.skip|
    ensures |run[i].stats| == |run[i + 1].stats| == |job.skip|
    ensures run[i].stats[s] != run[i + 1].stats[s] ==>
              && !job.skip[s] && NumThreads(job) > 0
              && Store(job, Owner(s, NumThreads(job)), run[i], run[i + 1])
  {
    RunInv(job, run, i);
    var a, b := run[i], run[i + 1];
    assert Step(job, a, b);
    StepInv(job, a, b);
    if a.stats[s] != b.stats[s] {
      var w :| WorkerStep(job, w, a, b);
      assert Store(job, w, a, b);
      assert WorkerOk(job, a, w);
    }
  }

  /**
   After the join every statistic that is not skipped equals the sequential fold over all counts in
   their order, every skipped one is untouched, and so it is under every interleaving.
   */
  lemma EveryInterleaving<S, I>(job: Job<S, I>, run: seq<State<S>>)
    requires WellFormed(job) && Run(job, run) && run[|run| - 1].joined && NumThreads(job) > 0
    ensures var end := run[|run| - 1];
            && |end.stats| == |job.skip|
            && (forall s :: 0 <= s < |end.stats| ==>
                  end.stats[s] == if job.skip[s] then job.initial[s] else Fold(job.add, job.initial[s], job.items))
            && end.single == Fold(job.addSingle, job.initialSingle, job.items)
  {
    var n := |run| - 1;
    RunInv(job, run, n);
    var end := run[n];
    assert job.items[..|job.items|] == job.items;
    forall s | 0 <= s < |end.stats|
      ensures end.stats[s] == if job.skip[s] then job.initial[s] else Fold(job.add, job.initial[s], job.items)
    {
      assert StatOk(job, end, s);
      assert Finished(job, end.workers[Owner(s, NumThreads(job))]);
    }
  }

  /** Every statistic that is not skipped has all counts folded in. */
  ghost predicate Collected<S, I>(job: Job<S, I>, st: State<S>) {
    && |st.stats| == |job.skip| == |job.initial|
    && forall s :: 0 <= s < |st.stats| && !job.skip[s] ==> st.stats[s] == Fold(job.add, job.initial[s], job.items)
  }

  lemma CollectedFold<S, I>(job: Job<S, I>, run: seq<State<S>>)
    requires WellFormed(job) && Run(job, run) && run[|run| - 1].joined
    ensures Collected(job, run[|run| - 1]) <==>
            || job.collectParallel >= 1
            || forall s :: 0 <= s < |job.skip| && !job.skip[s] ==> Fold(job.add, job.initial[s], job.items) == job.initial[s]
  {
    RunInv(job, run, |run| - 1);
    if NumThreads(job) > 0 {
      EveryInterleaving(job, run);
    }
  }

  /**
   `AddDegree` leaves a statistic alone or makes its cardinality larger, and which of the two it does depends on the
   count vector and on the statistic's tables, which stay the same.
   */
  ghost predicate Additive<S(!new), I(!new)>(job: Job<S, I>, adds: (S, I) -> bool, size: S -> nat) {
    forall x, i :: AddsOrNot(job, adds, size, x, i) && forall j :: adds(job.add(x, i), j) == adds(x, j)
  }

  ghost predicate AddsOrNot<S, I>(job: Job<S, I>, adds: (S, I) -> bool, size: S -> nat, x: S, i: I) {
    if adds(x, i) then size(job.add(x, i)) > size(x) else job.add(x, i) == x
  }

  lemma {:induction false} FoldGrows<S(!new), I(!new)>(job: Job<S, I>, adds: (S, I) -> bool, size: S -> nat, x: S, items: seq<I>)
    requires Additive(job, adds, size)
    ensures size(Fold(job.add, x, items)) >= size(x) && forall j :: adds(Fold(job.add, x, items), j) == adds(x, j)
    ensures if exists i :: i in items && adds(x, i) then size(Fold(job.add, x, items)) > size(x) else Fold(job.add, x, items) == x
  {
    if items != [] {
      var k := |items| - 1;
      var y := Fold(job.add, x, items[..k]);
      FoldGrows(job, adds, size, x, items[..k]);
      assert items == items[..k] + [items[k]];
      assert AddsOrNot(job, adds, size, y, items[k]);
    }
  }

  /** No count vector has rows for an unskipped subset. */
  ghost predicate NothingToAdd<S, I>(job: Job<S, I>, adds: (S, I) -> bool)
    requires WellFormed(job)
  {
    forall s, i :: 0 <= s < |job.skip| && !job.skip[s] && i in job.items ==> !adds(job.initial[s], i)
  }

  /**
   A job is collected exactly if the parallelism setting is positive or no count is to be added to any subset that is
   not skipped: with `CollectParallel <= 0` no worker is started and the statistics stay as they were.
   */
  lemma CollectedIff<S(!new), I(!new)>(job: Job<S, I>, run: seq<State<S>>, adds: (S, I) -> bool, size: S -> nat)
    requires WellFormed(job) && Run(job, run) && run[|run| - 1].joined && Additive(job, adds, size)
    ensures Collected(job, run[|run| - 1]) <==> job.collectParallel >= 1 || NothingToAdd(job, adds)
  {
    CollectedFold(job, run);
    forall s | 0 <= s < |job.skip|
      ensures Fold(job.add, job.initial[s], job.items) == job.initial[s] <==> forall i :: i in job.items ==> !adds(job.initial[s], i)
    {
      FoldGrows(job, adds, size, job.initial[s], job.items);
    }
  }

  // ---- The statistics that are collected ----

  /** A `DSStatistic` under collection, as a value. */
  datatype Statistic = Statistic(tables: seq<string>, card: nat, central: seq<DegreeSequences.Slot>,
                                 ds: map<string, seq<DegreeSequences.Slot>>)

  /** A count vector with its frequency, as the grouping query returns them. */
  type Counted = x: (Star.CountVector, nat) | x.1 > 0 && StarSummary.Counts(x.0) witness (map[], 1)

  lemma {:induction false} MulNonNegative(vec: Star.CountVector, tables: seq<string>)
    requires StarSummary.Counts(vec)
    ensures StarSummary.Mul(vec, tables) >= 0
  {
    if tables != [] {
      MulNonNegative(vec, tables[..|tables| - 1]);
    }
  }

  /** The rows that the vector has in the star of these tables. */
  function Product(s: Statistic, x: Counted): nat {
    MulNonNegative(x.0, s.tables);
    StarSummary.Mul(x.0, s.tables)
  }

  /** `AddDegree` */
  function AddVector(p: real): (Statistic, Counted) -> Statistic {
    (s: Statistic, x: Counted) =>
      var product := Product(s, x);
      if product == 0 then s
      else Statistic(s.tables, s.card + product * x.1, DegreeSequences.AddAll(s.central, StarSummary.CentralItem(x.1, product), p),
                     map t | t in s.ds :: DegreeSequences.AddAll(s.ds[t], StarSummary.EdgeItem(x.0, x.1, product, t), p))
  }

  function HasRows(): (Statistic, Counted) -> bool {
    (s: Statistic, x: Counted) => Product(s, x) > 0
  }

  function CardOf(): Statistic -> nat {
    (s: Statistic) => s.card
  }

  lemma ProductGrows(m: nat, n: nat)
    requires m > 0 && n > 0
    ensures m * n > 0
  {
  }

  lemma VectorsAdditive(job: Job<Statistic, Counted>, p: real)
    requires job.add == AddVector(p)
    ensures Additive(job, HasRows(), CardOf())
  {
    forall s: Statistic, x: Counted
      ensures AddsOrNot(job, HasRows(), CardOf(), s, x) && forall y :: HasRows()(job.add(s, x), y) == HasRows()(s, y)
    {
      if Product(s, x) > 0 {
        ProductGrows(Product(s, x), x.1);
      }
      assert job.add(s, x).tables == s.tables;
    }
  }

  /**
   With the statistics that are really collected: unless the setting is positive, everything is collected exactly if no
   count vector has a row in all tables of a subset that is not skipped.
   */
  lemma StatisticsCollectedIff(job: Job<Statistic, Counted>, run: seq<State<Statistic>>, p: real)
    requires WellFormed(job) && Run(job, run) && run[|run| - 1].joined && job.add == AddVector(p)
    ensures Collected(job, run[|run| - 1]) <==> job.collectParallel >= 1 || NothingToAdd(job, HasRows())
  {
    VectorsAdditive(job, p);
    CollectedIff(job, run, HasRows(), CardOf());
  }

  function Unfilled(tables: seq<string>): Statistic {
    Statistic(tables, 0, [], map t | t in tables :: [])
  }

  /** The statistic that the state of a `DSStatistic` stands for. */
  ghost predicate Holds(s: Statistic, tables: seq<string>, items: seq<Counted>, p: real) {
    && s.tables == tables && s.ds.Keys == (set t | t in tables)
    && s.card == StarSummary.TotalCard(items, tables)
    && s.central == DegreeSequences.AddAll([], StarSummary.CentralItems(items, tables), p)
    && forall t :: t in tables ==> s.ds[t] == DegreeSequences.AddAll([], StarSummary.EdgeItems(items, tables, t), p)
  }

  lemma EdgeNext(tables: seq<string>, items: seq<Counted>, x: Counted, p: real, t: string, product: int)
    requires product == StarSummary.Mul(x.0, tables)
    ensures var before := DegreeSequences.AddAll([], StarSummary.EdgeItems(items, tables, t), p);
            DegreeSequences.AddAll([], StarSummary.EdgeItems(items + [x], tables, t), p) ==
            if product == 0 then before else DegreeSequences.AddAll(before, StarSummary.EdgeItem(x.0, x.1, product, t), p)
  {
    StarSummary.EdgeItemsSnoc(items, x, tables, t);
    StarSummary.AddAllMore(StarSummary.EdgeItems(items, tables, t), StarSummary.EdgeItem(x.0, x.1, product, t), p);
  }

  lemma CentralNext(tables: seq<string>, items: seq<Counted>, x: Counted, p: real, product: int)
    requires product == StarSummary.Mul(x.0, tables)
    ensures var before := DegreeSequences.AddAll([], StarSummary.CentralItems(items, tables), p);
            DegreeSequences.AddAll([], StarSummary.CentralItems(items + [x], tables), p) ==
            if product == 0 then before else DegreeSequences.AddAll(before, StarSummary.CentralItem(x.1, product), p)
    ensures StarSummary.TotalCard(items + [x], tables) == StarSummary.TotalCard(items, tables) + product * x.1
  {
    StarSummary.CentralItemsSnoc(items, x, tables);
    StarSummary.AddAllMore(StarSummary.CentralItems(items, tables), StarSummary.CentralItem(x.1, product), p);
  }

  lemma AddsVector(s: Statistic, x: Counted, p: real, product: nat, after: Statistic)
    requires product == Product(s, x) && after == AddVector(p)(s, x)
    ensures after.tables == s.tables && after.card == s.card + product * x.1 && after.ds.Keys == s.ds.Keys
    ensures after.central == if product == 0 then s.central else DegreeSequences.AddAll(s.central, StarSummary.CentralItem(x.1, product), p)
    ensures forall t :: t in s.ds ==>
              after.ds[t] == if product == 0 then s.ds[t] else DegreeSequences.AddAll(s.ds[t], StarSummary.EdgeItem(x.0, x.1, product, t), p)
  {
  }

  lemma HoldsNext(s: Statistic, tables: seq<string>, items: seq<Counted>, x: Counted, p: real)
    requires Holds(s, tables, items, p)
    ensures Holds(AddVector(p)(s, x), tables, items + [x], p)
  {
    var product := Product(s, x);
    var after := AddVector(p)(s, x);
    CentralNext(tables, items, x, p, product);
    AddsVector(s, x, p, product, after);
    forall t | t in tables
      ensures after.ds[t] == DegreeSequences.AddAll([], StarSummary.EdgeItems(items + [x], tables, t), p)
    {
      EdgeNext(tables, items, x, p, t, product);
    }
  }

  lemma FoldLast<S, I>(add: (S, I) -> S, s: S, items: seq<I>, before: seq<I>, last: I)
    requires items != [] && before == items[..|items| - 1] && last == items[|items| - 1]
    ensures items == before + [last] && Fold(add, s, items) == add(Fold(add, s, before), last)
  {
  }

  /** What the workers fold is what `DSStatistic` collects vector by vector. */
  lemma {:induction false} FoldCollects(tables: seq<string>, items: seq<Counted>, p: real)
    ensures Holds(Fold(AddVector(p), Unfilled(tables), items), tables, items, p)
  {
    if items != [] {
      var k := |items| - 1;
      var before := Fold(AddVector(p), Unfilled(tables), items[..k]);
      FoldCollects(tables, items[..k], p);
      HoldsNext(before, tables, items[..k], items[k], p);
      FoldLast(AddVector(p), Unfilled(tables), items, items[..k], items[k]);
    }
  }

  // ---- The number of workers ----

  /** One worker is always allowed, more only where the machine has as many threads; never more than subsets, nor than the setting. */
  ghost predicate Allowed<S, I>(job: Job<S, I>, n: nat) {
    n == 0 || (n <= |job.skip| && n <= job.collectParallel && (n == 1 || n <= job.hardware))
  }

  /** As many workers are started as are allowed. */
  lemma WorkersNumber<S, I>(job: Job<S, I>, run: seq<State<S>>, n: nat)
    requires WellFormed(job) && Run(job, run) && run[|run| - 1].joined
    ensures Allowed(job, |run[|run| - 1].workers|)
    ensures Allowed(job, n) ==> n <= |run[|run| - 1].workers|
  {
    RunInv(job, run, |run| - 1);
  }

  // ---- No schedule blocks or runs forever ----

  /** `k * m` */
  function Rounds(k: nat, m: nat): (r: nat)
    ensures k > 0 ==> r >= m
  {
    if k == 0 then 0 else Rounds(k - 1, m) + m
  }

  /** What a worker still has to do, at most. */
  function WorkerLeft(subsets: nat, items: nat, at: nat, next: nat, loaded: bool): nat {
    if at >= subsets then 0
    else
      Rounds(subsets - at, 2 * items + 1) - (if next <= items then 2 * next else 2 * items)
      - (if loaded && next < items then 1 else 0)
  }

  function WorkersLeft<S, I>(job: Job<S, I>, ws: seq<Worker<S>>): nat {
    if ws == [] then 0
    else WorkerLeft(|job.skip|, |job.items|, ws[0].at, ws[0].next, ws[0].local.Some?) + WorkersLeft(job, ws[1..])
  }

  function Left<S, I>(job: Job<S, I>, st: State<S>): nat {
    var unborn := NumThreads(job) - |st.workers|;
    var main := if st.singleNext <= |job.items| then |job.items| - st.singleNext else 0;
    (if unborn < 0 then 0 else Rounds(unborn, Rounds(|job.skip|, 2 * |job.items| + 1) + 1))
    + WorkersLeft(job, st.workers) + main + if st.joined then 0 else 1
  }

  lemma {:induction false} WorkersLeftUpdate<S, I>(job: Job<S, I>, ws: seq<Worker<S>>, w: nat, x: Worker<S>)
    requires w < |ws|
    ensures WorkersLeft(job, ws[w := x]) == WorkersLeft(job, ws)
              - WorkerLeft(|job.skip|, |job.items|, ws[w].at, ws[w].next, ws[w].local.Some?)
              + WorkerLeft(|job.skip|, |job.items|, x.at, x.next, x.local.Some?)
  {
    if w == 0 {
      assert ws[w := x][1..] == ws[1..];
    } else {
      assert ws[w := x][1..] == ws[1..][w - 1 := x];
      WorkersLeftUpdate(job, ws[1..], w - 1, x);
    }
  }

  lemma {:induction false} WorkersLeftSnoc<S, I>(job: Job<S, I>, ws: seq<Worker<S>>, x: Worker<S>)
    ensures WorkersLeft(job, ws + [x]) == WorkersLeft(job, ws) + WorkerLeft(|job.skip|, |job.items|, x.at, x.next, x.local.Some?)
  {
    if ws == [] {
      assert ws + [x] == [x];
      assert WorkersLeft(job, [x]) == WorkerLeft(|job.skip|, |job.items|, x.at, x.next, x.local.Some?) + WorkersLeft(job, []);
    } else {
      assert (ws + [x])[1..] == ws[1..] + [x];
      WorkersLeftSnoc(job, ws[1..], x);
    }
  }

  lemma {:induction false} RoundsMono(k: nat, j: nat, m: nat)
    requires j < k
    ensures Rounds(j, m) + m <= Rounds(k, m)
  {
    if j < k - 1 {
      RoundsMono(k - 1, j, m);
    }
  }

  lemma AdvanceLess(subsets: nat, items: nat, at: nat, next: nat, loaded: bool, n: nat)
    requires at < subsets && n > 0 && next <= items && (loaded ==> next < items)
    ensures WorkerLeft(subsets, items, at + n, 0, false) < WorkerLeft(subsets, items, at, next, loaded)
  {
    RoundsMono(subsets - at, if at + n < subsets then subsets - at - n else 0, 2 * items + 1);
  }

  lemma FirstLeft(subsets: nat, items: nat, at: nat)
    ensures WorkerLeft(subsets, items, at, 0, false) <= Rounds(subsets, 2 * items + 1)
  {
    if 0 < at < subsets {
      RoundsMono(subsets, subsets - at, 2 * items + 1);
    }
  }

  lemma SpawnTerminates<S, I>(job: Job<S, I>, a: State<S>, b: State<S>)
    requires Spawn(job, a, b)
    ensures Left(job, b) < Left(job, a)
  {
    WorkersLeftSnoc(job, a.workers, Worker(|a.workers|, 0, None));
    FirstLeft(|job.skip|, |job.items|, |a.workers|);
  }

  /** Replacing a worker's state by one with less to do lessens what is left. */
  lemma LessLeft<S, I>(job: Job<S, I>, a: State<S>, b: State<S>, w: nat)
    requires w < |a.workers| == |b.workers| && b.workers == a.workers[w := b.workers[w]]
    requires a.singleNext == b.singleNext && a.joined == b.joined
    requires WorkerLeft(|job.skip|, |job.items|, b.workers[w].at, b.workers[w].next, b.workers[w].local.Some?) <
             WorkerLeft(|job.skip|, |job.items|, a.workers[w].at, a.workers[w].next, a.workers[w].local.Some?)
    ensures Left(job, b) < Left(job, a)
  {
    WorkersLeftUpdate(job, a.workers, w, b.workers[w]);
  }

  lemma AdvanceTerminates<S, I>(job: Job<S, I>, w: nat, a: State<S>, b: State<S>)
    requires Inv(job, a) && Advance(job, w, a, b)
    ensures Left(job, b) < Left(job, a)
  {
    var me := a.workers[w];
    assert WorkerOk(job, a, w);
    AdvanceLess(|job.skip|, |job.items|, me.at, me.next, me.local.Some?, NumThreads(job));
    LessLeft(job, a, b, w);
  }

  lemma WorkerTerminates<S, I>(job: Job<S, I>, w: nat, a: State<S>, b: State<S>)
    requires Inv(job, a) && WorkerStep(job, w, a, b)
    ensures Left(job, b) < Left(job, a)
  {
    if Advance(job, w, a, b) {
      AdvanceTerminates(job, w, a, b);
    } else {
      LessLeft(job, a, b, w);
    }
  }

  /** Every step brings the end nearer, so no schedule runs forever. */
  lemma StepTerminates<S, I>(job: Job<S, I>, a: State<S>, b: State<S>)
    requires Inv(job, a) && Step(job, a, b)
    ensures Left(job, b) < Left(job, a)
  {
    if Spawn(job, a, b) {
      SpawnTerminates(job, a, b);
    } else if !MainAdd(job, a, b) && !Join(job, a, b) {
      var w :| WorkerStep(job, w, a, b);
      WorkerTerminates(job, w, a, b);
    }
  }

  /** No run is longer than the work there is. */
  lemma {:induction false} RunBounded<S, I>(job: Job<S, I>, run: seq<State<S>>, i: nat)
    requires WellFormed(job) && Run(job, run) && i < |run|
    ensures Left(job, run[i]) + i <= Left(job, run[0])
  {
    if i > 0 {
      RunBounded(job, run, i - 1);
      RunInv(job, run, i - 1);
      assert Step(job, run[i - 1], run[i - 1 + 1]);
      StepTerminates(job, run[i - 1], run[i]);
    }
  }

  /** As long as the main thread has not joined, some thread can move. */
  lemma NeverStuck<S, I>(job: Job<S, I>, run: seq<State<S>>) returns (next: State<S>)
    requires WellFormed(job) && Run(job, run) && !run[|run| - 1].joined
    ensures Step(job, run[|run| - 1], next) && Run(job, run + [next])
  {
    var a := run[|run| - 1];
    RunInv(job, run, |run| - 1);
    if |a.workers| < NumThreads(job) {
      next := a.(workers := a.workers + [Worker(|a.workers|, 0, None)]);
      assert Spawn(job, a, next);
    } else if a.singleNext < |job.items| {
      next := a.(single := job.addSingle(a.single, job.items[a.singleNext]), singleNext := a.singleNext + 1);
      assert MainAdd(job, a, next);
    } else if w :| 0 <= w < |a.workers| && !Finished(job, a.workers[w]) {
      var me := a.workers[w];
      assert WorkerOk(job, a, w);
      if Leaves(job, me) {
        next := a.(workers := a.workers[w := Worker(me.at + NumThreads(job), 0, None)]);
        assert Advance(job, w, a, next);
      } else if me.local.None? {
        next := a.(workers := a.workers[w := me.(local := Some(a.stats[me.at]))]);
        assert Load(job, w, a, next);
      } else {
        next := a.(workers := a.workers[w := Worker(me.at, me.next + 1, None)],
                   stats := a.stats[me.at := job.add(me.local.value, job.items[me.next])]);
        assert Store(job, w, a, next);
      }
      assert WorkerStep(job, w, a, next);
    } else {
      next := a.(joined := true);
      assert Join(job, a, next);
    }
    var longer := run + [next];
    forall i | 0 <= i < |longer| - 1 ensures Step(job, longer[i], longer[i + 1]) {
      if i < |run| - 1 {
        assert longer[i] == run[i] && longer[i + 1] == run[i + 1];
      }
    }
  }
}

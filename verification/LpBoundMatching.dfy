/**
 Finding for every query an entry of another workload: by tables and cardinality, by signature
 among several candidates, and at last through bridge tables.
 */
module LpBoundMatching {
  import opened Options

  /** Canonical joins, filters and classes of joined columns. */
  datatype Signature = Signature(joins: seq<string>, filters: seq<string>, groups: seq<seq<string>>)

  /** The tables are a sorted list in which a table occurs once for every alias. */
  datatype Entry = Entry(tables: seq<string>, card: int, sig: Signature)

  /** Tables and cardinality may be unknown. */
  datatype Query = Query(tables: Option<seq<string>>, card: Option<int>, sig: Signature)

  // ---- Passes 1 and 2 ----

  predicate IsCandidate(e: Entry, q: Query) {
    q.tables == Some(e.tables) && q.card == Some(e.card)
  }

  /** The indices of the candidates among the first `n` entries, in order. */
  function Candidates(lp: seq<Entry>, n: nat, q: Query): seq<nat>
    requires n <= |lp|
  {
    if n == 0 then [] else Candidates(lp, n - 1, q) + if IsCandidate(lp[n - 1], q) then [n - 1] else []
  }

  lemma {:induction false} CandidatesMember(lp: seq<Entry>, n: nat, q: Query)
    requires n <= |lp|
    ensures forall i :: i in Candidates(lp, n, q) <==> 0 <= i < n && IsCandidate(lp[i], q)
    ensures forall j, k :: 0 <= j < k < |Candidates(lp, n, q)| ==> Candidates(lp, n, q)[j] < Candidates(lp, n, q)[k]
  {
    if n > 0 {
      CandidatesMember(lp, n - 1, q);
      var before := Candidates(lp, n - 1, q);
      forall j | 0 <= j < |before| ensures before[j] < n - 1 {
        assert before[j] in before;
      }
    }
  }

  /** What passes 1 and 2 choose: a candidate, the first with the query's signature if there are several and one has it. */
  ghost predicate ChosenByCard(lp: seq<Entry>, q: Query, r: Option<nat>) {
    if r.None? then forall i :: 0 <= i < |lp| ==> !IsCandidate(lp[i], q)
    else
      && r.value < |lp| && IsCandidate(lp[r.value], q)
      && (lp[r.value].sig != q.sig ==>
            || (forall i :: 0 <= i < |lp| && IsCandidate(lp[i], q) ==> i == r.value)
            || ((forall i :: 0 <= i < |lp| && IsCandidate(lp[i], q) ==> lp[i].sig != q.sig)
                && forall i :: 0 <= i < r.value ==> !IsCandidate(lp[i], q)))
      && (lp[r.value].sig == q.sig ==> forall i :: 0 <= i < r.value && IsCandidate(lp[i], q) ==> lp[i].sig != q.sig)
  }

  method IndexOf(lp: seq<Entry>, q: Query) returns (cs: seq<nat>)
    ensures cs == Candidates(lp, |lp|, q)
  {
    cs := [];
    for n := 0 to |lp|
      invariant cs == Candidates(lp, n, q)
    {
      if IsCandidate(lp[n], q) {
        cs := cs + [n];
      }
    }
  }

  method Disambiguate(lp: seq<Entry>, q: Query, cs: seq<nat>) returns (best: nat)
    requires cs == Candidates(lp, |lp|, q) && cs != []
    ensures ChosenByCard(lp, q, Some(best))
  {
    CandidatesMember(lp, |lp|, q);
    forall j | 0 <= j < |cs| ensures 0 <= cs[j] < |lp| && IsCandidate(lp[cs[j]], q) {
      assert cs[j] in cs;
    }
    for k := 0 to |cs|
      invariant forall j :: 0 <= j < k ==> lp[cs[j]].sig != q.sig
    {
      assert cs[k] in cs;
      if lp[cs[k]].sig == q.sig {
        best := cs[k];
        forall i | 0 <= i < best && IsCandidate(lp[i], q) ensures lp[i].sig != q.sig {
          assert i in cs;
          var j :| 0 <= j < |cs| && cs[j] == i;
        }
        return;
      }
    }
    assert cs[0] in cs;
    best := cs[0];
    forall i | 0 <= i < |lp| && IsCandidate(lp[i], q) ensures lp[i].sig != q.sig && i >= best {
      assert i in cs;
      var j :| 0 <= j < |cs| && cs[j] == i;
    }
  }

  lemma SingleCandidate(lp: seq<Entry>, q: Query)
    requires |Candidates(lp, |lp|, q)| == 1
    ensures ChosenByCard(lp, q, Some(Candidates(lp, |lp|, q)[0]))
  {
    var cs := Candidates(lp, |lp|, q);
    CandidatesMember(lp, |lp|, q);
    assert cs[0] in cs;
    forall i | 0 <= i < |lp| && IsCandidate(lp[i], q) ensures i == cs[0] {
      assert i in cs;
    }
  }

  // ---- Pass 3 ----

  /** The last group that lists the column. */
  function GroupOf(groups: seq<seq<string>>, c: string): Option<nat> {
    if groups == [] then None
    else if c in groups[|groups| - 1] then Some(|groups| - 1) else GroupOf(groups[..|groups| - 1], c)
  }

  /** The columns of each class of the query lie in one class of the entry. */
  predicate JoinsFit(q: Signature, e: Signature) {
    forall g :: 0 <= g < |q.groups| ==>
      forall i, j :: 0 <= i < |q.groups[g]| && 0 <= j < |q.groups[g]| ==>
        GroupOf(e.groups, q.groups[g][i]).Some? && GroupOf(e.groups, q.groups[g][i]) == GroupOf(e.groups, q.groups[g][j])
  }

  function Filters(s: Signature): set<string> {
    set f | f in s.filters
  }

  /** The tables of an entry that the query does not have, each once. */
  function ExtraTables(q: Query, e: Entry): set<string>
    requires q.tables.Some?
  {
    set t | t in e.tables && t !in q.tables.value
  }

  /** The entry has the query's tables and some more, all of them bridge tables, and the query's filters and joins. */
  predicate Admissible(q: Query, e: Entry, bridges: set<string>)
    requires q.tables.Some?
  {
    && (forall t :: t in q.tables.value ==> t in e.tables)
    && ExtraTables(q, e) != {} && ExtraTables(q, e) <= bridges
    && Filters(q.sig) <= Filters(e.sig) && JoinsFit(q.sig, e.sig)
  }

  /** How far an entry is from the query. */
  function Extra(q: Query, e: Entry): (int, int)
    requires q.tables.Some?
  {
    (|ExtraTables(q, e)|, |Filters(e.sig)| - |Filters(q.sig)|)
  }

  predicate Less(a: (int, int), b: (int, int)) {
    a.0 < b.0 || (a.0 == b.0 && a.1 < b.1)
  }

  const LIMIT := (999, 999)

  /** The earliest of the nearest admissible entries among the first `n`. */
  ghost predicate BestOf(lp: seq<Entry>, n: nat, q: Query, bridges: set<string>, r: Option<nat>)
    requires q.tables.Some? && n <= |lp|
  {
    if r.None? then forall i :: 0 <= i < n && Admissible(q, lp[i], bridges) ==> !Less(Extra(q, lp[i]), LIMIT)
    else
      && r.value < n && Admissible(q, lp[r.value], bridges) && Less(Extra(q, lp[r.value]), LIMIT)
      && (forall i :: 0 <= i < n && Admissible(q, lp[i], bridges) ==> !Less(Extra(q, lp[i]), Extra(q, lp[r.value])))
      && (forall i :: 0 <= i < r.value && Admissible(q, lp[i], bridges) ==> Less(Extra(q, lp[r.value]), Extra(q, lp[i])))
  }

  // ---- What pass 3 finds ----

  function TableSet(e: Entry): set<string> {
    set t | t in e.tables
  }

  /** The columns of the class all belong to the class `k` of the entry, and to no later one. */
  ghost predicate Within(group: seq<string>, classes: seq<seq<string>>, k: nat) {
    && k < |classes|
    && forall c :: c in group ==> c in classes[k] && forall l :: k < l < |classes| ==> c !in classes[l]
  }

  /** Which entries pass 3 considers. */
  ghost predicate Reachable(q: Query, e: Entry, bridges: set<string>)
    requires q.tables.Some?
  {
    && (exists extra: set<string> :: extra != {} && extra <= bridges && Adds(q, e, extra))
    && (forall f :: f in q.sig.filters ==> f in e.sig.filters)
    && forall g :: g in q.sig.groups && g != [] ==> exists k: nat :: Within(g, e.sig.groups, k)
  }

  /** The entry has the query's tables and `extra`, which the query does not have. */
  ghost predicate Adds(q: Query, e: Entry, extra: set<string>)
    requires q.tables.Some?
  {
    TableSet(e) == (set t | t in q.tables.value) + extra && forall t :: t in extra ==> t !in q.tables.value
  }

  lemma {:induction false} GroupOfIs(groups: seq<seq<string>>, c: string, k: nat)
    ensures GroupOf(groups, c) == Some(k) <==> k < |groups| && c in groups[k] && forall l :: k < l < |groups| ==> c !in groups[l]
  {
    if groups != [] {
      var n := |groups| - 1;
      GroupOfIs(groups[..n], c, k);
      if c !in groups[n] {
        assert forall l :: 0 <= l < n ==> groups[..n][l] == groups[l];
      }
    }
  }

  lemma GroupWithin(g: seq<string>, classes: seq<seq<string>>, k: nat)
    requires g != []
    ensures Within(g, classes, k) <==> forall i :: 0 <= i < |g| ==> GroupOf(classes, g[i]) == Some(k)
  {
    forall i | 0 <= i < |g| ensures GroupOf(classes, g[i]) == Some(k) <==>
      k < |classes| && g[i] in classes[k] && forall l :: k < l < |classes| ==> g[i] !in classes[l]
    {
      GroupOfIs(classes, g[i], k);
    }
    assert g[0] in g;
  }

  lemma JoinsFitIff(q: Signature, e: Signature)
    ensures JoinsFit(q, e) <==> forall g :: g in q.groups && g != [] ==> exists k: nat :: Within(g, e.groups, k)
  {
    if JoinsFit(q, e) {
      forall g | g in q.groups && g != [] ensures exists k: nat :: Within(g, e.groups, k) {
        var n :| 0 <= n < |q.groups| && q.groups[n] == g;
        assert GroupOf(e.groups, q.groups[n][0]).Some?;
        var k := GroupOf(e.groups, g[0]).value;
        GroupWithin(g, e.groups, k);
      }
    }
    if forall g :: g in q.groups && g != [] ==> exists k: nat :: Within(g, e.groups, k) {
      forall n, i, j | 0 <= n < |q.groups| && 0 <= i < |q.groups[n]| && 0 <= j < |q.groups[n]|
        ensures GroupOf(e.groups, q.groups[n][i]).Some? && GroupOf(e.groups, q.groups[n][i]) == GroupOf(e.groups, q.groups[n][j])
      {
        var g := q.groups[n];
        assert g in q.groups;
        var k: nat :| Within(g, e.groups, k);
        GroupWithin(g, e.groups, k);
      }
    }
  }

  /** The checks of pass 3 admit exactly these entries. */
  lemma AdmissibleIff(q: Query, e: Entry, bridges: set<string>)
    requires q.tables.Some?
    ensures Admissible(q, e, bridges) <==> Reachable(q, e, bridges)
  {
    JoinsFitIff(q.sig, e.sig);
    FiltersFit(q.sig, e.sig);
    if Admissible(q, e, bridges) {
      assert Adds(q, e, ExtraTables(q, e));
    }
    forall extra: set<string> | Adds(q, e, extra) ensures extra == ExtraTables(q, e) && forall t :: t in q.tables.value ==> t in e.tables {
      AddsExtra(q, e, extra);
    }
  }

  lemma AddsExtra(q: Query, e: Entry, extra: set<string>)
    requires q.tables.Some? && Adds(q, e, extra)
    ensures extra == ExtraTables(q, e) && forall t :: t in q.tables.value ==> t in e.tables
  {
    forall t ensures t in e.tables <==> t in q.tables.value || t in extra {
      assert t in TableSet(e) <==> t in e.tables;
    }
  }

  lemma FiltersFit(q: Signature, e: Signature)
    ensures Filters(q) <= Filters(e) <==> forall f :: f in q.filters ==> f in e.filters
  {
    if Filters(q) <= Filters(e) {
      forall f | f in q.filters ensures f in e.filters {
        assert f in Filters(q);
      }
    }
  }

  lemma ExtraSize(q: Query, e: Entry)
    requires q.tables.Some? && forall t :: t in q.tables.value ==> t in e.tables
    ensures |TableSet(e)| == |set t | t in q.tables.value| + |ExtraTables(q, e)|
  {
    var own := set t | t in q.tables.value;
    assert TableSet(e) == own + ExtraTables(q, e);
    assert own * ExtraTables(q, e) == {};
  }

  /** `a` has fewer tables than `b`, or as many and fewer filters. */
  ghost predicate Nearer(a: Entry, b: Entry) {
    || |TableSet(a)| < |TableSet(b)|
    || (|TableSet(a)| == |TableSet(b)| && |set f | f in a.sig.filters| < |set f | f in b.sig.filters|)
  }

  lemma LessIsNearer(q: Query, a: Entry, b: Entry, bridges: set<string>)
    requires q.tables.Some? && Admissible(q, a, bridges) && Admissible(q, b, bridges)
    ensures Less(Extra(q, a), Extra(q, b)) <==> Nearer(a, b)
  {
    ExtraSize(q, a);
    ExtraSize(q, b);
  }

  /** Fewer than 999 tables more than the query, or 999 and fewer than 999 filters more. */
  ghost predicate InReach(q: Query, e: Entry)
    requires q.tables.Some?
  {
    var more := |TableSet(e)| - |set t | t in q.tables.value|;
    more < 999 || (more == 999 && |set f | f in e.sig.filters| - |set f | f in q.sig.filters| < 999)
  }

  /**
   The chosen entry is reachable; none that is has fewer tables, none with as many tables has fewer filters, and among those
   with as many of both it is the first. Nothing is chosen only if nothing within the initial bounds is reachable.
   */
  ghost predicate IsNearest(lp: seq<Entry>, q: Query, bridges: set<string>, r: Option<nat>)
    requires q.tables.Some?
  {
    if r.None? then forall i :: 0 <= i < |lp| && Reachable(q, lp[i], bridges) ==> !InReach(q, lp[i])
    else
      && r.value < |lp| && Reachable(q, lp[r.value], bridges) && InReach(q, lp[r.value])
      && forall i :: 0 <= i < |lp| && Reachable(q, lp[i], bridges) ==>
           && |TableSet(lp[i])| >= |TableSet(lp[r.value])|
           && (|TableSet(lp[i])| == |TableSet(lp[r.value])| ==>
                 |set f | f in lp[i].sig.filters| >= |set f | f in lp[r.value].sig.filters|)
           && (i < r.value ==> Nearer(lp[r.value], lp[i]))
  }

  lemma BestIsNearest(lp: seq<Entry>, q: Query, bridges: set<string>, r: Option<nat>)
    requires q.tables.Some? && BestOf(lp, |lp|, q, bridges, r)
    ensures IsNearest(lp, q, bridges, r)
  {
    forall i | 0 <= i < |lp| ensures Admissible(q, lp[i], bridges) <==> Reachable(q, lp[i], bridges) {
      AdmissibleIff(q, lp[i], bridges);
    }
    forall i | 0 <= i < |lp| && Admissible(q, lp[i], bridges) ensures Less(Extra(q, lp[i]), LIMIT) <==> InReach(q, lp[i]) {
      ExtraSize(q, lp[i]);
    }
    if r.Some? {
      forall i | 0 <= i < |lp| && Admissible(q, lp[i], bridges)
        ensures Less(Extra(q, lp[i]), Extra(q, lp[r.value])) <==> Nearer(lp[i], lp[r.value])
        ensures Less(Extra(q, lp[r.value]), Extra(q, lp[i])) <==> Nearer(lp[r.value], lp[i])
      {
        LessIsNearer(q, lp[i], lp[r.value], bridges);
        LessIsNearer(q, lp[r.value], lp[i], bridges);
      }
    }
  }

  method FindNearest(lp: seq<Entry>, q: Query, bridges: set<string>) returns (best: Option<nat>)
    requires q.tables.Some?
    ensures IsNearest(lp, q, bridges, best)
  {
    best := None;
    var bestExtra := LIMIT;
    for n := 0 to |lp|
      invariant BestOf(lp, n, q, bridges, best)
      invariant bestExtra == if best.None? then LIMIT else Extra(q, lp[best.value])
    {
      if Admissible(q, lp[n], bridges) {
        var extra := Extra(q, lp[n]);
        if Less(extra, bestExtra) {
          bestExtra := extra;
          best := Some(n);
        }
      }
    }
    BestIsNearest(lp, q, bridges, best);
  }

  // ---- The whole mapping ----

  /** What each query ends up with. */
  ghost predicate IsResult(lp: seq<Entry>, q: Query, bridges: set<string>, r: Option<nat>) {
    if exists i :: 0 <= i < |lp| && IsCandidate(lp[i], q) then r.Some? && ChosenByCard(lp, q, r)
    else if q.tables.Some? then IsNearest(lp, q, bridges, r)
    else r.None?
  }

  function Unmatched(mapping: seq<Option<nat>>): nat {
    if mapping == [] then 0 else Unmatched(mapping[..|mapping| - 1]) + if mapping[|mapping| - 1].None? then 1 else 0
  }

  lemma {:induction false} UnmatchedUpdate(mapping: seq<Option<nat>>, i: nat, v: nat)
    requires i < |mapping| && mapping[i].None?
    ensures Unmatched(mapping[i := Some(v)]) == Unmatched(mapping) - 1
  {
    var k := |mapping| - 1;
    if i < k {
      assert mapping[i := Some(v)][..k] == mapping[..k][i := Some(v)];
      UnmatchedUpdate(mapping[..k], i, v);
    } else {
      assert mapping[i := Some(v)][..k] == mapping[..k];
    }
  }

  lemma {:induction false} AllUnmatched(mapping: seq<Option<nat>>)
    requires forall i :: 0 <= i < |mapping| ==> mapping[i].None?
    ensures Unmatched(mapping) == |mapping|
  {
    if mapping != [] {
      AllUnmatched(mapping[..|mapping| - 1]);
    }
  }

  ghost predicate AfterPass1(lp: seq<Entry>, q: Query, r: Option<nat>) {
    r == if |Candidates(lp, |lp|, q)| == 1 then Some(Candidates(lp, |lp|, q)[0]) else None
  }

  ghost predicate AfterPass2(lp: seq<Entry>, q: Query, r: Option<nat>) {
    if Candidates(lp, |lp|, q) != [] then r.Some? && ChosenByCard(lp, q, r) else r.None?
  }

  method Pass1(lp: seq<Entry>, qs: seq<Query>) returns (mapping: seq<Option<nat>>, count: nat)
    ensures |mapping| == |qs| && count + Unmatched(mapping) == |qs|
    ensures forall i :: 0 <= i < |qs| ==> AfterPass1(lp, qs[i], mapping[i])
  {
    mapping := seq(|qs|, i => None);
    count := 0;
    AllUnmatched(mapping);
    for i := 0 to |qs|
      invariant |mapping| == |qs| && count + Unmatched(mapping) == |qs|
      invariant forall k :: 0 <= k < i ==> AfterPass1(lp, qs[k], mapping[k])
      invariant forall k :: i <= k < |qs| ==> mapping[k].None?
    {
      var cs := IndexOf(lp, qs[i]);
      if |cs| == 1 {
        UnmatchedUpdate(mapping, i, cs[0]);
        mapping := mapping[i := Some(cs[0])];
        count := count + 1;
      }
    }
  }

  method Pass2(lp: seq<Entry>, qs: seq<Query>, before: seq<Option<nat>>) returns (mapping: seq<Option<nat>>, count: nat)
    requires |before| == |qs| && forall i :: 0 <= i < |qs| ==> AfterPass1(lp, qs[i], before[i])
    ensures |mapping| == |qs| && count + Unmatched(mapping) == Unmatched(before)
    ensures forall i :: 0 <= i < |qs| ==> AfterPass2(lp, qs[i], mapping[i])
  {
    mapping, count := before, 0;
    for i := 0 to |qs|
      invariant |mapping| == |qs| && count + Unmatched(mapping) == Unmatched(before)
      invariant forall k :: 0 <= k < i ==> AfterPass2(lp, qs[k], mapping[k])
      invariant forall k :: i <= k < |qs| ==> mapping[k] == before[k]
    {
      var found := Choose(lp, qs[i], mapping[i]);
      if mapping[i].None? && found.Some? {
        UnmatchedUpdate(mapping, i, found.value);
        mapping := mapping[i := found];
        count := count + 1;
      }
    }
  }

  /** One query in pass 2. */
  method Choose(lp: seq<Entry>, q: Query, before: Option<nat>) returns (found: Option<nat>)
    requires AfterPass1(lp, q, before)
    ensures AfterPass2(lp, q, found) && (before.Some? ==> found == before)
  {
    found := before;
    if before.Some? {
      SingleCandidate(lp, q);
    } else {
      var cs := IndexOf(lp, q);
      if |cs| >= 1 {
        var best := Disambiguate(lp, q, cs);
        found := Some(best);
      }
    }
  }

  lemma PassesDecide(lp: seq<Entry>, q: Query, r: Option<nat>)
    requires AfterPass2(lp, q, r)
    ensures r.Some? <==> exists i :: 0 <= i < |lp| && IsCandidate(lp[i], q)
  {
    CandidatesMember(lp, |lp|, q);
    var cs := Candidates(lp, |lp|, q);
    if cs != [] {
      assert cs[0] in cs;
    }
    if i :| 0 <= i < |lp| && IsCandidate(lp[i], q) {
      assert i in cs;
    }
  }

  /** One query in pass 3: what it has is kept. */
  method Fallback(lp: seq<Entry>, q: Query, bridges: set<string>, r: Option<nat>) returns (s: Option<nat>)
    requires AfterPass2(lp, q, r)
    ensures IsResult(lp, q, bridges, s) && (r.Some? ==> s == r)
  {
    PassesDecide(lp, q, r);
    s := r;
    if r.None? && q.tables.Some? {
      s := FindNearest(lp, q, bridges);
    }
  }

  /** The first `n` queries have their results. */
  ghost predicate Results(lp: seq<Entry>, qs: seq<Query>, bridges: set<string>, mapping: seq<Option<nat>>, n: nat) {
    n <= |qs| == |mapping| && forall i :: 0 <= i < n ==> IsResult(lp, qs[i], bridges, mapping[i])
  }

  lemma ResultsNext(lp: seq<Entry>, qs: seq<Query>, bridges: set<string>, mapping: seq<Option<nat>>, n: nat, r: Option<nat>)
    requires Results(lp, qs, bridges, mapping, n) && n < |qs| && IsResult(lp, qs[n], bridges, r)
    ensures Results(lp, qs, bridges, mapping[n := r], n + 1)
  {
  }

  method Pass3(lp: seq<Entry>, qs: seq<Query>, bridges: set<string>, before: seq<Option<nat>>)
    returns (mapping: seq<Option<nat>>, count: nat)
    requires |before| == |qs| && forall i :: 0 <= i < |qs| ==> AfterPass2(lp, qs[i], before[i])
    ensures count + Unmatched(mapping) == Unmatched(before) && Results(lp, qs, bridges, mapping, |qs|)
  {
    mapping, count := before, 0;
    for i := 0 to |qs|
      invariant count + Unmatched(mapping) == Unmatched(before) && Results(lp, qs, bridges, mapping, i)
      invariant forall k :: i <= k < |qs| ==> mapping[k] == before[k]
    {
      assert AfterPass2(lp, qs[i], before[i]);
      var r := Fallback(lp, qs[i], bridges, before[i]);
      ResultsNext(lp, qs, bridges, mapping, i, r);
      if before[i].None? && r.Some? {
        UnmatchedUpdate(mapping, i, r.value);
        count := count + 1;
      } else {
        assert mapping[i := r] == mapping;
      }
      mapping := mapping[i := r];
    }
  }

  /** The pass counts and the unmatched queries always add up, and every query gets what the passes promise. */
  method BuildMapping(lp: seq<Entry>, qs: seq<Query>, bridges: set<string>)
    returns (mapping: seq<Option<nat>>, pass1: nat, pass2: nat, pass3: nat, unmatched: nat)
    ensures pass1 + pass2 + pass3 + unmatched == |qs| && unmatched == Unmatched(mapping)
    ensures Results(lp, qs, bridges, mapping, |qs|)
  {
    var first, second;
    first, pass1 := Pass1(lp, qs);
    second, pass2 := Pass2(lp, qs, first);
    mapping, pass3 := Pass3(lp, qs, bridges, second);
    unmatched := Unmatched(mapping);
  }
}

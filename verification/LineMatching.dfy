/**
 Matching the lines of two query files by normal form, first come first served, and moving results
 from the old line order to the new one. Line numbers start at 1; a line whose normal form is empty
 holds no query.
 */
module LineMatching {

  /** The normal form of a line. */
  datatype Form = Blank | Query(text: string)

  // ---- Occurrences ----

  /** The lines among the first `n` that have normal form `f`, in order. */
  function Lines(forms: seq<Form>, n: nat, f: Form): seq<nat>
    requires n <= |forms|
  {
    if n == 0 then [] else Lines(forms, n - 1, f) + if forms[n - 1] == f then [n] else []
  }

  ghost predicate IsLine(forms: seq<Form>, n: nat, line: nat, f: Form) {
    1 <= line <= n <= |forms| && forms[line - 1] == f
  }

  lemma {:induction false} LinesOrdered(forms: seq<Form>, n: nat, f: Form)
    requires n <= |forms|
    ensures forall k :: 0 <= k < |Lines(forms, n, f)| ==> IsLine(forms, n, Lines(forms, n, f)[k], f)
    ensures forall j, k :: 0 <= j < k < |Lines(forms, n, f)| ==> Lines(forms, n, f)[j] < Lines(forms, n, f)[k]
  {
    if n > 0 {
      LinesOrdered(forms, n - 1, f);
      var before := Lines(forms, n - 1, f);
      forall k | 0 <= k < |Lines(forms, n, f)| ensures IsLine(forms, n, Lines(forms, n, f)[k], f) {
        if k < |before| {
          assert IsLine(forms, n - 1, before[k], f);
        }
      }
      forall j, k | 0 <= j < k < |Lines(forms, n, f)| ensures Lines(forms, n, f)[j] < Lines(forms, n, f)[k] {
        assert IsLine(forms, n - 1, before[j], f);
      }
    }
  }

  /** Every line with that form is listed. */
  lemma {:induction false} LinesComplete(forms: seq<Form>, n: nat, line: nat) returns (k: nat)
    requires 1 <= line <= n <= |forms|
    ensures k < |Lines(forms, n, forms[line - 1])| && Lines(forms, n, forms[line - 1])[k] == line
    decreases n
  {
    if line == n {
      k := |Lines(forms, n - 1, forms[line - 1])|;
    } else {
      k := LinesComplete(forms, n - 1, line);
    }
  }

  /** One line number is one occurrence of one form. */
  lemma LineUnique(forms: seq<Form>, n: nat, f: Form, j: nat, g: Form, k: nat)
    requires n <= |forms| && j < |Lines(forms, n, f)| && k < |Lines(forms, n, g)|
    requires Lines(forms, n, f)[j] == Lines(forms, n, g)[k]
    ensures f == g && j == k
  {
    LinesOrdered(forms, n, f);
    LinesOrdered(forms, n, g);
    assert IsLine(forms, n, Lines(forms, n, f)[j], f) && IsLine(forms, n, Lines(forms, n, g)[k], g);
  }

  // ---- The matching ----

  /** Old line `a` and new line `b` are the `k`-th occurrences of the same form. */
  ghost predicate PairAt(olds: seq<Form>, news: seq<Form>, n: nat, f: Form, k: nat, a: nat, b: nat)
    requires n <= |news|
  {
    && f.Query? && k < |Lines(olds, |olds|, f)| && k < |Lines(news, n, f)|
    && a == Lines(olds, |olds|, f)[k] && b == Lines(news, n, f)[k]
  }

  ghost predicate Paired(olds: seq<Form>, news: seq<Form>, n: nat, a: nat, b: nat)
    requires n <= |news|
  {
    exists f, k: nat :: PairAt(olds, news, n, f, k, a, b)
  }

  /** The map holds exactly the pairs. */
  ghost predicate IsMapping(olds: seq<Form>, news: seq<Form>, n: nat, mapping: map<nat, nat>)
    requires n <= |news|
  {
    forall a, b :: (a in mapping && mapping[a] == b) <==> Paired(olds, news, n, a, b)
  }

  function Drop(s: seq<nat>, k: nat): seq<nat> {
    if k >= |s| then [] else s[k..]
  }

  /** What is left of the queue of form `f` after `n` new lines. */
  function Queue(olds: seq<Form>, news: seq<Form>, n: nat, f: Form): seq<nat>
    requires n <= |news|
  {
    Drop(Lines(olds, |olds|, f), |Lines(news, n, f)|)
  }

  /** Queues are kept for the forms that still have old lines. */
  ghost predicate AreQueues(olds: seq<Form>, news: seq<Form>, n: nat, queues: map<Form, seq<nat>>)
    requires n <= |news|
  {
    forall f :: QueueOk(olds, news, n, queues, f)
  }

  ghost predicate QueueOk(olds: seq<Form>, news: seq<Form>, n: nat, queues: map<Form, seq<nat>>, f: Form)
    requires n <= |news|
  {
    if f in queues then f.Query? && queues[f] != [] && queues[f] == Queue(olds, news, n, f)
    else f.Blank? || Queue(olds, news, n, f) == []
  }

  /** The queues after the first `n` old lines. */
  ghost predicate IndexOk(olds: seq<Form>, n: nat, queues: map<Form, seq<nat>>, f: Form)
    requires n <= |olds|
  {
    if f in queues then f.Query? && queues[f] != [] && queues[f] == Lines(olds, n, f) else f.Blank? || Lines(olds, n, f) == []
  }

  ghost predicate Indexed(olds: seq<Form>, n: nat, queues: map<Form, seq<nat>>)
    requires n <= |olds|
  {
    forall f :: IndexOk(olds, n, queues, f)
  }

  lemma IndexStep(olds: seq<Form>, n: nat, queues: map<Form, seq<nat>>, after: map<Form, seq<nat>>)
    requires n < |olds| && Indexed(olds, n, queues)
    requires var f := olds[n];
             after == if f.Blank? then queues else queues[f := (if f in queues then queues[f] else []) + [n + 1]]
    ensures Indexed(olds, n + 1, after)
  {
    var m := n + 1;
    forall f ensures IndexOk(olds, m, after, f) {
      assert IndexOk(olds, n, queues, f);
    }
  }

  method IndexOldLines(olds: seq<Form>) returns (queues: map<Form, seq<nat>>)
    ensures Indexed(olds, |olds|, queues)
  {
    queues := map[];
    for n := 0 to |olds|
      invariant Indexed(olds, n, queues)
    {
      var f := olds[n];
      ghost var before := queues;
      if f.Query? {
        queues := queues[f := (if f in queues then queues[f] else []) + [n + 1]];
      }
      IndexStep(olds, n, before, queues);
    }
  }

  lemma IndexedQueues(olds: seq<Form>, news: seq<Form>, queues: map<Form, seq<nat>>)
    requires Indexed(olds, |olds|, queues)
    ensures AreQueues(olds, news, 0, queues)
  {
    forall f ensures QueueOk(olds, news, 0, queues, f) {
      assert IndexOk(olds, |olds|, queues, f);
    }
  }

  /** Whether new line `n + 1` finds an old line. */
  ghost predicate Served(olds: seq<Form>, news: seq<Form>, n: nat)
    requires n < |news|
  {
    news[n].Query? && |Lines(news, n, news[n])| < |Lines(olds, |olds|, news[n])|
  }

  /** The new lines among the first `n` that hold a query and find none. */
  ghost function Unserved(olds: seq<Form>, news: seq<Form>, n: nat): seq<nat>
    requires n <= |news|
  {
    if n == 0 then []
    else Unserved(olds, news, n - 1) + if news[n - 1].Query? && !Served(olds, news, n - 1) then [n] else []
  }

  lemma LinesStep(news: seq<Form>, n: nat, f: Form)
    requires n < |news|
    ensures Lines(news, n + 1, f) == Lines(news, n, f) + if news[n] == f then [n + 1] else []
  {
  }

  /** The queue of the new line's form loses its head, and nothing else changes. */
  lemma QueuesStep(olds: seq<Form>, news: seq<Form>, n: nat, queues: map<Form, seq<nat>>, after: map<Form, seq<nat>>)
    requires n < |news| && AreQueues(olds, news, n, queues)
    requires var f := news[n];
             after == if f.Blank? || f !in queues then queues
                      else if |queues[f]| <= 1 then queues - {f} else queues[f := queues[f][1..]]
    ensures AreQueues(olds, news, n + 1, after)
    ensures Served(olds, news, n) <==> news[n] in queues
    ensures news[n] in queues ==> queues[news[n]] != [] && queues[news[n]][0] == Lines(olds, |olds|, news[n])[|Lines(news, n, news[n])|]
  {
    assert QueueOk(olds, news, n, queues, news[n]);
    var m := n + 1;
    forall f ensures QueueOk(olds, news, m, after, f) {
      assert QueueOk(olds, news, n, queues, f);
      LinesStep(news, n, f);
    }
  }

  /** Old pairs stay, and a served new line adds its own. */
  lemma PairStep(olds: seq<Form>, news: seq<Form>, n: nat, a: nat, b: nat)
    requires n < |news|
    ensures Paired(olds, news, n + 1, a, b) <==>
            || Paired(olds, news, n, a, b)
            || (Served(olds, news, n) && b == n + 1 && a == Lines(olds, |olds|, news[n])[|Lines(news, n, news[n])|])
  {
    if Paired(olds, news, n + 1, a, b) {
      var f, k: nat :| PairAt(olds, news, n + 1, f, k, a, b);
      LinesStep(news, n, f);
      if k < |Lines(news, n, f)| {
        assert PairAt(olds, news, n, f, k, a, b);
      }
    }
    if Paired(olds, news, n, a, b) {
      var f, k: nat :| PairAt(olds, news, n, f, k, a, b);
      LinesStep(news, n, f);
      assert PairAt(olds, news, n + 1, f, k, a, b);
    }
    if Served(olds, news, n) && b == n + 1 && a == Lines(olds, |olds|, news[n])[|Lines(news, n, news[n])|] {
      LinesStep(news, n, news[n]);
      assert PairAt(olds, news, n + 1, news[n], |Lines(news, n, news[n])|, a, b);
    }
  }

  lemma MappingStep(olds: seq<Form>, news: seq<Form>, n: nat, mapping: map<nat, nat>, after: map<nat, nat>)
    requires n < |news| && IsMapping(olds, news, n, mapping)
    requires after == if Served(olds, news, n) then mapping[Lines(olds, |olds|, news[n])[|Lines(news, n, news[n])|] := n + 1] else mapping
    ensures IsMapping(olds, news, n + 1, after)
  {
    if Served(olds, news, n) {
      NotYetPaired(olds, news, n);
    }
    var m := n + 1;
    forall a, b ensures (a in after && after[a] == b) <==> Paired(olds, news, m, a, b) {
      PairStep(olds, news, n, a, b);
      assert (a in mapping && mapping[a] == b) <==> Paired(olds, news, n, a, b);
    }
  }

  lemma NotYetPaired(olds: seq<Form>, news: seq<Form>, n: nat)
    requires n < |news| && Served(olds, news, n)
    ensures forall b :: !Paired(olds, news, n, Lines(olds, |olds|, news[n])[|Lines(news, n, news[n])|], b)
  {
    var r := |Lines(news, n, news[n])|;
    var a := Lines(olds, |olds|, news[n])[r];
    forall b | Paired(olds, news, n, a, b) ensures false {
      var f, k: nat :| PairAt(olds, news, n, f, k, a, b);
      LineUnique(olds, |olds|, f, k, news[n], r);
    }
  }

  /** Where the matching stands after `n` new lines. */
  ghost predicate Progress(olds: seq<Form>, news: seq<Form>, n: nat, queues: map<Form, seq<nat>>, mapping: map<nat, nat>, left: seq<nat>) {
    n <= |news| && AreQueues(olds, news, n, queues) && IsMapping(olds, news, n, mapping) && left == Unserved(olds, news, n)
  }

  /** One new line: it takes the head of its queue, or is left. */
  lemma MatchStep(olds: seq<Form>, news: seq<Form>, n: nat, queues: map<Form, seq<nat>>, mapping: map<nat, nat>, left: seq<nat>)
    requires n < |news| && Progress(olds, news, n, queues, mapping, left)
    ensures var f := news[n];
            if f.Blank? then Progress(olds, news, n + 1, queues, mapping, left)
            else if f !in queues then Progress(olds, news, n + 1, queues, mapping, left + [n + 1])
            else queues[f] != [] &&
                 Progress(olds, news, n + 1, if |queues[f]| <= 1 then queues - {f} else queues[f := queues[f][1..]],
                          mapping[queues[f][0] := n + 1], left)
  {
    var f := news[n];
    assert QueueOk(olds, news, n, queues, f);
    var after := if f.Blank? || f !in queues then queues
                 else if |queues[f]| <= 1 then queues - {f} else queues[f := queues[f][1..]];
    QueuesStep(olds, news, n, queues, after);
    MappingStep(olds, news, n, mapping, if f in queues then mapping[queues[f][0] := n + 1] else mapping);
  }

  method BuildMapping(olds: seq<Form>, news: seq<Form>)
    returns (mapping: map<nat, nat>, unmatchedOld: set<nat>, unmatchedNew: seq<nat>)
    ensures IsMapping(olds, news, |news|, mapping)
    ensures forall a :: a in unmatchedOld <==> Waiting(olds, news, a)
    ensures unmatchedNew == Unserved(olds, news, |news|)
  {
    var queues := IndexOldLines(olds);
    mapping, unmatchedOld, unmatchedNew := map[], {}, [];
    IndexedQueues(olds, news, queues);
    for n := 0 to |news|
      invariant Progress(olds, news, n, queues, mapping, unmatchedNew)
    {
      var f := news[n];
      MatchStep(olds, news, n, queues, mapping, unmatchedNew);
      if f.Query? {
        if f in queues {
          var waiting := queues[f];
          mapping := mapping[waiting[0] := n + 1];
          queues := if |waiting| <= 1 then queues - {f} else queues[f := waiting[1..]];
        } else {
          unmatchedNew := unmatchedNew + [n + 1];
        }
      }
    }
    unmatchedOld := CollectLeft(queues);
    LeftOver(olds, news, queues, unmatchedOld);
  }

  lemma LeftOver(olds: seq<Form>, news: seq<Form>, queues: map<Form, seq<nat>>, left: set<nat>)
    requires AreQueues(olds, news, |news|, queues)
    requires forall a :: a in left <==> exists f :: f in queues && a in queues[f]
    ensures forall a :: a in left <==> Waiting(olds, news, a)
  {
    forall a ensures a in left <==> Waiting(olds, news, a) {
      if f :| f in queues && a in queues[f] {
        assert QueueOk(olds, news, |news|, queues, f);
      }
      if f: Form :| f.Query? && a in Queue(olds, news, |news|, f) {
        assert QueueOk(olds, news, |news|, queues, f);
      }
    }
  }

  /** Old line `a` is still in a queue after all new lines. */
  ghost predicate Waiting(olds: seq<Form>, news: seq<Form>, a: nat) {
    exists f: Form :: f.Query? && a in Queue(olds, news, |news|, f)
  }

  method CollectLeft(queues: map<Form, seq<nat>>) returns (left: set<nat>)
    ensures forall a :: a in left <==> exists f :: f in queues && a in queues[f]
  {
    left := {};
    var todo := queues.Keys;
    while todo != {}
      invariant todo <= queues.Keys
      invariant forall a :: a in left <==> exists f :: f in queues && f !in todo && a in queues[f]
      decreases todo
    {
      var f :| f in todo;
      left := left + set a | a in queues[f];
      todo := todo - {f};
    }
  }

  // ---- What the matching is ----

  /** Matched lines hold the same query, ... */
  lemma SameForm(olds: seq<Form>, news: seq<Form>, mapping: map<nat, nat>, a: nat)
    requires IsMapping(olds, news, |news|, mapping) && a in mapping
    ensures 1 <= a <= |olds| && 1 <= mapping[a] <= |news| && olds[a - 1] == news[mapping[a] - 1] && olds[a - 1].Query?
  {
    assert Paired(olds, news, |news|, a, mapping[a]);
    var f, k: nat :| PairAt(olds, news, |news|, f, k, a, mapping[a]);
    LinesOrdered(olds, |olds|, f);
    LinesOrdered(news, |news|, f);
    assert IsLine(olds, |olds|, a, f) && IsLine(news, |news|, mapping[a], f);
  }

  /** ... no new line is used twice, ... */
  lemma Injective(olds: seq<Form>, news: seq<Form>, mapping: map<nat, nat>, a: nat, a': nat)
    requires IsMapping(olds, news, |news|, mapping) && a in mapping && a' in mapping && mapping[a] == mapping[a']
    ensures a == a'
  {
    assert Paired(olds, news, |news|, a, mapping[a]) && Paired(olds, news, |news|, a', mapping[a']);
    var f, k: nat :| PairAt(olds, news, |news|, f, k, a, mapping[a]);
    var f', k': nat :| PairAt(olds, news, |news|, f', k', a', mapping[a']);
    LineUnique(news, |news|, f, k, f', k');
  }

  function MinOf(x: nat, y: nat): nat {
    if x <= y then x else y
  }

  /** ... and of every form the first `min(#old, #new)` occurrences are matched, the k-th with the k-th. */
  lemma FirstOccurrences(olds: seq<Form>, news: seq<Form>, mapping: map<nat, nat>, f: Form, k: nat)
    requires IsMapping(olds, news, |news|, mapping) && f.Query? && k < |Lines(olds, |olds|, f)|
    ensures var a := Lines(olds, |olds|, f)[k]; var n := MinOf(|Lines(olds, |olds|, f)|, |Lines(news, |news|, f)|);
            && (a in mapping <==> k < n)
            && (a in mapping ==> mapping[a] == Lines(news, |news|, f)[k])
  {
    var a := Lines(olds, |olds|, f)[k];
    if k < |Lines(news, |news|, f)| {
      assert PairAt(olds, news, |news|, f, k, a, Lines(news, |news|, f)[k]);
      assert Paired(olds, news, |news|, a, Lines(news, |news|, f)[k]);
    }
    if a in mapping {
      assert Paired(olds, news, |news|, a, mapping[a]);
      var g, j: nat :| PairAt(olds, news, |news|, g, j, a, mapping[a]);
      LineUnique(olds, |olds|, f, k, g, j);
    }
  }

  lemma LateUnmatched(olds: seq<Form>, news: seq<Form>, mapping: map<nat, nat>, f: Form, k: nat)
    requires IsMapping(olds, news, |news|, mapping) && f.Query? && |Lines(news, |news|, f)| <= k < |Lines(olds, |olds|, f)|
    ensures IsLine(olds, |olds|, Lines(olds, |olds|, f)[k], f) && Lines(olds, |olds|, f)[k] !in mapping
  {
    FirstOccurrences(olds, news, mapping, f, k);
    LinesOrdered(olds, |olds|, f);
  }

  lemma WaitingUnmatched(olds: seq<Form>, news: seq<Form>, mapping: map<nat, nat>, a: nat)
    requires IsMapping(olds, news, |news|, mapping) && Waiting(olds, news, a)
    ensures 1 <= a <= |olds| && olds[a - 1].Query? && a !in mapping
  {
    var f: Form :| f.Query? && a in Queue(olds, news, |news|, f);
    var k := DropMember(Lines(olds, |olds|, f), |Lines(news, |news|, f)|, a);
    LateUnmatched(olds, news, mapping, f, k);
  }

  lemma DropMember(s: seq<nat>, c: nat, a: nat) returns (k: nat)
    requires a in Drop(s, c)
    ensures c <= k < |s| && s[k] == a
  {
    var i :| 0 <= i < |Drop(s, c)| && Drop(s, c)[i] == a;
    k := c + i;
  }

  /** The unmatched old lines are exactly the query lines that the map does not mention. */
  lemma UnmatchedOld(olds: seq<Form>, news: seq<Form>, mapping: map<nat, nat>, a: nat)
    requires IsMapping(olds, news, |news|, mapping)
    ensures Waiting(olds, news, a) <==> 1 <= a <= |olds| && olds[a - 1].Query? && a !in mapping
  {
    if Waiting(olds, news, a) {
      WaitingUnmatched(olds, news, mapping, a);
    }
    if 1 <= a <= |olds| && olds[a - 1].Query? && a !in mapping {
      var f := olds[a - 1];
      var k := LinesComplete(olds, |olds|, a);
      FirstOccurrences(olds, news, mapping, f, k);
      var all, c := Lines(olds, |olds|, f), |Lines(news, |news|, f)|;
      assert Drop(all, c)[k - c] == a;
    }
  }

  lemma {:induction false} LinesPrefix(news: seq<Form>, m: nat, n: nat, f: Form)
    requires m <= n <= |news|
    ensures |Lines(news, m, f)| <= |Lines(news, n, f)| && Lines(news, n, f)[..|Lines(news, m, f)|] == Lines(news, m, f)
  {
    if m < n {
      LinesPrefix(news, m, n - 1, f);
    }
  }

  lemma {:induction false} UnservedMember(olds: seq<Form>, news: seq<Form>, n: nat, b: nat)
    requires n <= |news|
    ensures b in Unserved(olds, news, n) <==> 1 <= b <= n && news[b - 1].Query? && !Served(olds, news, b - 1)
  {
    if n > 0 {
      UnservedMember(olds, news, n - 1, b);
      UnservedStep(olds, news, n, b);
    }
  }

  lemma UnservedStep(olds: seq<Form>, news: seq<Form>, n: nat, b: nat)
    requires 0 < n <= |news|
    ensures b in Unserved(olds, news, n) <==>
            b in Unserved(olds, news, n - 1) || (b == n && news[n - 1].Query? && !Served(olds, news, n - 1))
  {
  }

  lemma ServedIsPaired(olds: seq<Form>, news: seq<Form>, b: nat)
    requires 1 <= b <= |news| && news[b - 1].Query?
    ensures Served(olds, news, b - 1) <==> exists a: nat :: Paired(olds, news, |news|, a, b)
  {
    var f := news[b - 1];
    var r := |Lines(news, b - 1, f)|;
    LinesPrefix(news, b, |news|, f);
    assert Lines(news, b, f)[r] == b;
    assert Lines(news, |news|, f)[r] == Lines(news, |news|, f)[..|Lines(news, b, f)|][r];
    if Served(olds, news, b - 1) {
      assert PairAt(olds, news, |news|, f, r, Lines(olds, |olds|, f)[r], b);
      assert Paired(olds, news, |news|, Lines(olds, |olds|, f)[r], b);
    }
    if a: nat :| Paired(olds, news, |news|, a, b) {
      var g, j: nat :| PairAt(olds, news, |news|, g, j, a, b);
      LineUnique(news, |news|, f, r, g, j);
    }
  }

  /** The unmatched new lines are exactly the query lines to which no old line is mapped. */
  lemma UnmatchedNew(olds: seq<Form>, news: seq<Form>, mapping: map<nat, nat>, b: nat)
    requires IsMapping(olds, news, |news|, mapping)
    ensures b in Unserved(olds, news, |news|) <==> 1 <= b <= |news| && news[b - 1].Query? && b !in mapping.Values
  {
    UnservedMember(olds, news, |news|, b);
    if 1 <= b <= |news| && news[b - 1].Query? {
      ServedIsPaired(olds, news, b);
      if a: nat :| Paired(olds, news, |news|, a, b) {
        assert a in mapping && mapping[a] == b;
      }
      if b in mapping.Values {
        var a :| a in mapping && mapping[a] == b;
        assert Paired(olds, news, |news|, a, b);
      }
    }
  }

  // ---- The map file ----

  function Digit(d: nat): char
    requires d < 10
  {
    '0' + d as char
  }

  function Decimal(n: nat): string {
    if n < 10 then [Digit(n)] else Decimal(n / 10) + [Digit(n % 10)]
  }

  datatype Parsed = NotANumber | Number(n: nat)

  /** `int(text)` for a text of digits. */
  function ParseDigits(s: string): Parsed {
    if s == [] then NotANumber
    else
      var last := s[|s| - 1];
      if !('0' <= last <= '9') then NotANumber
      else
        var d := (last - '0') as int;
        if |s| == 1 then Number(d)
        else match ParseDigits(s[..|s| - 1]) case NotANumber => NotANumber case Number(n) => Number(10 * n + d)
  }

  lemma {:induction false} ParseDecimal(n: nat)
    ensures ParseDigits(Decimal(n)) == Number(n)
    ensures Decimal(n) != [] && forall i :: 0 <= i < |Decimal(n)| ==> '0' <= Decimal(n)[i] <= '9'
  {
    if n >= 10 {
      ParseDecimal(n / 10);
      var s := Decimal(n);
      assert s[..|s| - 1] == Decimal(n / 10);
    }
  }

  /** The position of the first colon; the length if there is none. */
  function Colon(s: string): (i: nat)
    ensures i <= |s| && (i < |s| ==> s[i] == ':') && forall k :: 0 <= k < i ==> s[k] != ':'
  {
    if s == [] || s[0] == ':' then 0 else 1 + Colon(s[1..])
  }

  datatype Entry = NoEntry | Entry(oldLine: nat, newLine: nat)

  /** One line of the map file: comments, empty lines and lines without two numbers are skipped. */
  function ParseLine(line: string): Entry {
    if line == [] || line[0] == '#' then NoEntry
    else
      var i := Colon(line);
      if i == |line| then NoEntry
      else
        match (ParseDigits(line[..i]), ParseDigits(line[i + 1..]))
        case (Number(a), Number(b)) => Entry(a, b)
        case _ => NoEntry
  }

  function FormatEntry(a: nat, b: nat): string {
    Decimal(a) + ":" + Decimal(b)
  }

  /** The first colon is the one between two texts of digits. */
  lemma ColonAfter(x: string, y: string, line: string)
    requires line == x + ":" + y && ':' !in x
    ensures Colon(line) == |x|
  {
    assert line[|x|] == ':';
    assert forall k :: 0 <= k < |x| ==> line[k] == x[k];
  }

  lemma ParseEntry(a: nat, b: nat)
    ensures ParseLine(FormatEntry(a, b)) == Entry(a, b)
  {
    ParseDecimal(a);
    ParseDecimal(b);
    var x, y := Decimal(a), Decimal(b);
    var line := x + ":" + y;
    ColonAfter(x, y, line);
    assert line[..|x|] == x && line[|x| + 1..] == y;
  }

  /** What a line of the map file looks like. */
  lemma EntryLooks()
    ensures FormatEntry(7, 1204) == "7:1204" && FormatEntry(90, 3) == "90:3"
  {
    assert Decimal(1204) == Decimal(120) + "4" && Decimal(120) == Decimal(12) + "0" && Decimal(12) == Decimal(1) + "2";
    assert Decimal(90) == Decimal(9) + "0";
    assert Decimal(1) == "1" && Decimal(7) == "7" && Decimal(9) == "9" && Decimal(3) == "3";
  }

  /** Writing the map: the entries by ascending old line. */
  function WriteEntries(mapping: map<nat, nat>, n: nat): seq<string> {
    if n == 0 then [] else WriteEntries(mapping, n - 1) + if n in mapping then [FormatEntry(n, mapping[n])] else []
  }

  /** The entries come in the order of the old lines, one for each that is mapped. */
  lemma {:induction false} EntriesInOrder(mapping: map<nat, nat>, n: nat) returns (olds: seq<nat>)
    ensures |WriteEntries(mapping, n)| == |olds| && forall a :: a in olds <==> a in mapping && 1 <= a <= n
    ensures forall i, j :: 0 <= i < j < |olds| ==> olds[i] < olds[j]
    ensures forall i :: 0 <= i < |olds| ==> WriteEntries(mapping, n)[i] == FormatEntry(olds[i], mapping[olds[i]])
  {
    olds := [];
    if n > 0 {
      olds := EntriesInOrder(mapping, n - 1);
      forall i | 0 <= i < |olds| ensures olds[i] < n {
        assert olds[i] in olds;
      }
      if n in mapping {
        olds := olds + [n];
      }
    }
  }

  /** The written file: two comments, an empty line, the entries, and comments for the unmatched lines. */
  function MapFile(mapping: map<nat, nat>, oldCount: nat, comments: seq<string>): seq<string> {
    ["# Old file line number -> New file line number mapping", "# Format: old_line:new_line", ""]
    + WriteEntries(mapping, oldCount) + comments
  }

  function Load(lines: seq<string>): map<nat, nat> {
    if lines == [] then map[]
    else
      var before := Load(lines[..|lines| - 1]);
      match ParseLine(lines[|lines| - 1]) case NoEntry => before case Entry(a, b) => before[a := b]
  }

  method LoadMapping(lines: seq<string>) returns (mapping: map<nat, nat>)
    ensures mapping == Load(lines)
  {
    mapping := map[];
    for n := 0 to |lines|
      invariant mapping == Load(lines[..n])
    {
      assert lines[..n + 1][..n] == lines[..n];
      match ParseLine(lines[n])
      case NoEntry =>
      case Entry(a, b) => mapping := mapping[a := b];
    }
    assert lines[..|lines|] == lines;
  }

  lemma {:induction false} LoadSkips(lines: seq<string>, more: seq<string>)
    requires NoEntries(more)
    ensures Load(lines + more) == Load(lines)
    decreases |more|
  {
    if more == [] {
      assert lines + more == lines;
    } else {
      var k := |more| - 1;
      LoadSkips(lines, more[..k]);
      assert (lines + more)[..|lines + more| - 1] == lines + more[..k];
    }
  }

  function Restricted(mapping: map<nat, nat>, n: nat): map<nat, nat> {
    map a | a in mapping && 1 <= a <= n :: mapping[a]
  }

  lemma {:induction false} LoadEntries(head: seq<string>, mapping: map<nat, nat>, n: nat)
    requires Load(head) == map[]
    ensures Load(head + WriteEntries(mapping, n)) == Restricted(mapping, n)
  {
    if n == 0 {
      assert head + [] == head;
    } else {
      LoadEntries(head, mapping, n - 1);
      var before := WriteEntries(mapping, n - 1);
      RestrictedStep(mapping, n);
      if n in mapping {
        LoadOne(head + before, n, mapping[n]);
        AppendLast(head, before, FormatEntry(n, mapping[n]));
      } else {
        assert before + [] == before;
      }
    }
  }

  lemma AppendLast(a: seq<string>, b: seq<string>, x: string)
    ensures a + b + [x] == a + (b + [x])
  {
  }

  lemma LoadOne(lines: seq<string>, a: nat, b: nat)
    ensures Load(lines + [FormatEntry(a, b)]) == Load(lines)[a := b]
  {
    var line := FormatEntry(a, b);
    ParseEntry(a, b);
    assert (lines + [line])[..|lines|] == lines && (lines + [line])[|lines|] == line;
  }

  lemma RestrictedStep(mapping: map<nat, nat>, n: nat)
    requires n > 0
    ensures Restricted(mapping, n) ==
            if n in mapping then Restricted(mapping, n - 1)[n := mapping[n]] else Restricted(mapping, n - 1)
  {
  }

  /** Loading the written map gives the map back, whatever comments follow. */
  lemma MapFileRoundTrip(mapping: map<nat, nat>, oldCount: nat, comments: seq<string>)
    requires forall a :: a in mapping ==> 1 <= a <= oldCount
    requires forall i :: 0 <= i < |comments| ==> comments[i] == "" || comments[i][0] == '#'
    ensures Load(MapFile(mapping, oldCount, comments)) == mapping
  {
    var head := ["# Old file line number -> New file line number mapping", "# Format: old_line:new_line", ""];
    assert NoEntries(head) && NoEntries(comments);
    LoadsBack(head, mapping, oldCount, comments);
  }

  ghost predicate NoEntries(lines: seq<string>) {
    forall i :: 0 <= i < |lines| ==> ParseLine(lines[i]) == NoEntry
  }

  lemma LoadsNothing(head: seq<string>)
    requires NoEntries(head)
    ensures Load(head) == map[]
  {
    LoadSkips([], head);
    assert [] + head == head;
  }

  lemma AllRestricted(mapping: map<nat, nat>, n: nat)
    requires forall a :: a in mapping ==> 1 <= a <= n
    ensures Restricted(mapping, n) == mapping
  {
  }

  lemma LoadsBack(head: seq<string>, mapping: map<nat, nat>, oldCount: nat, comments: seq<string>)
    requires forall a :: a in mapping ==> 1 <= a <= oldCount
    requires NoEntries(head) && NoEntries(comments)
    ensures Load(head + WriteEntries(mapping, oldCount) + comments) == mapping
  {
    LoadsNothing(head);
    LoadEntries(head, mapping, oldCount);
    LoadSkips(head + WriteEntries(mapping, oldCount), comments);
    AllRestricted(mapping, oldCount);
  }

  // ---- Moving the results ----

  ghost predicate Largest(mapping: map<nat, nat>, m: nat) {
    (forall a :: a in mapping ==> mapping[a] <= m) && (m == 0 || m in mapping.Values)
  }

  method MaxNewLine(mapping: map<nat, nat>) returns (m: nat)
    ensures Largest(mapping, m)
  {
    m := 0;
    var todo := mapping.Keys;
    while todo != {}
      invariant todo <= mapping.Keys && (m == 0 || m in mapping.Values)
      invariant forall a :: a in mapping && a !in todo ==> mapping[a] <= m
      decreases todo
    {
      var a :| a in todo;
      if mapping[a] > m { m := mapping[a]; }
      todo := todo - {a};
    }
  }

  ghost predicate OneToOne(mapping: map<nat, nat>) {
    forall a, a' :: a in mapping && a' in mapping && mapping[a] == mapping[a'] ==> a == a'
  }

  /** Line `b` has the result of the old line that maps to it, or is empty. */
  ghost predicate MovedAt(results: seq<string>, mapping: map<nat, nat>, done: set<nat>, lines: seq<string>, b: nat)
    requires 1 <= b <= |lines|
  {
    && (forall a :: a in mapping && a in done && mapping[a] == b && 1 <= a <= |results| ==> lines[b - 1] == results[a - 1])
    && ((forall a :: a in mapping && a in done && 1 <= a <= |results| ==> mapping[a] != b) ==> lines[b - 1] == "")
  }

  method RemapResults(results: seq<string>, mapping: map<nat, nat>) returns (lines: seq<string>)
    requires OneToOne(mapping)
    ensures Largest(mapping, |lines|)
    ensures forall b :: 1 <= b <= |lines| ==> MovedAt(results, mapping, mapping.Keys, lines, b)
  {
    var m := MaxNewLine(mapping);
    lines := seq(m, i => "");
    var todo := mapping.Keys;
    ghost var done: set<nat> := {};
    while todo != {}
      invariant done + todo == mapping.Keys && done !! todo && |lines| == m
      invariant forall b :: 1 <= b <= |lines| ==> MovedAt(results, mapping, done, lines, b)
      decreases todo
    {
      var a :| a in todo;
      ghost var before := lines;
      if 1 <= a <= |results| && 1 <= mapping[a] <= m {
        lines := lines[mapping[a] - 1 := results[a - 1]];
      }
      MoveOne(results, mapping, done, before, lines, a);
      todo, done := todo - {a}, done + {a};
    }
    assert done == mapping.Keys;
  }

  lemma MoveOne(results: seq<string>, mapping: map<nat, nat>, done: set<nat>, before: seq<string>, after: seq<string>, a: nat)
    requires OneToOne(mapping) && a in mapping && a !in done && Largest(mapping, |before|)
    requires forall b :: 1 <= b <= |before| ==> MovedAt(results, mapping, done, before, b)
    requires after == if 1 <= a <= |results| && 1 <= mapping[a] <= |before| then before[mapping[a] - 1 := results[a - 1]] else before
    ensures forall b :: 1 <= b <= |after| ==> MovedAt(results, mapping, done + {a}, after, b)
  {
    forall b | 1 <= b <= |after| ensures MovedAt(results, mapping, done + {a}, after, b) {
      assert MovedAt(results, mapping, done, before, b);
    }
  }

  /**
   Matching, writing, loading and moving together: every old result whose line is matched ends up on the
   line of a new query with the same normal form, and every new line has at most that result.
   */
  lemma ResultsFollowQueries(olds: seq<Form>, news: seq<Form>, mapping: map<nat, nat>, comments: seq<string>,
                             results: seq<string>, lines: seq<string>, a: nat)
    requires IsMapping(olds, news, |news|, mapping) && |results| == |olds|
    requires forall i :: 0 <= i < |comments| ==> comments[i] == "" || comments[i][0] == '#'
    requires var loaded := Load(MapFile(mapping, |olds|, comments));
             Largest(loaded, |lines|) && forall b :: 1 <= b <= |lines| ==> MovedAt(results, loaded, loaded.Keys, lines, b)
    requires a in mapping
    ensures OneToOne(mapping) && Load(MapFile(mapping, |olds|, comments)) == mapping
    ensures 1 <= a <= |olds| && 1 <= mapping[a] <= |lines| && mapping[a] <= |news|
    ensures lines[mapping[a] - 1] == results[a - 1] && news[mapping[a] - 1] == olds[a - 1]
  {
    forall x | x in mapping ensures 1 <= x <= |olds| {
      SameForm(olds, news, mapping, x);
    }
    forall x, y | x in mapping && y in mapping && mapping[x] == mapping[y] ensures x == y {
      Injective(olds, news, mapping, x, y);
    }
    MapFileRoundTrip(mapping, |olds|, comments);
    SameForm(olds, news, mapping, a);
    assert MovedAt(results, mapping, mapping.Keys, lines, mapping[a]);
  }
}

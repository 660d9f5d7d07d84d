/**
 The fragment of SQL that the repository's scripts generate and compare: conjunctive
 `SELECT COUNT(*) FROM t1 AS a1, ... WHERE c1 AND c2 ...` over tables with NULLs.
 */
module Sql {
  import opened Sums

  datatype Cell = Null | Val(v: int)

  type Row = map<string, Cell>

  function Get(row: Row, col: string): Cell {
    if col in row then row[col] else Null
  }

  /** A qualified column reference `alias.col`. */
  datatype Ref = Ref(alias: string, col: string)

  datatype Truth = True | False | Unknown

  /**
   One conjunct of a WHERE clause: an equality between two columns, or any other condition,
   whose three-valued truth depends on the columns it names and on nothing else.
   */
  datatype Conjunct =
    | JoinEq(left: Ref, right: Ref)
    | Other(refs: seq<Ref>, test: seq<Cell> -> Truth)

  /** The current row of every alias. */
  type Env = map<string, Row>

  function Fetch(env: Env, r: Ref): Cell {
    if r.alias in env then Get(env[r.alias], r.col) else Null
  }

  function FetchAll(env: Env, refs: seq<Ref>): (cells: seq<Cell>)
    ensures |cells| == |refs|
  {
    if refs == [] then [] else [Fetch(env, refs[0])] + FetchAll(env, refs[1..])
  }

  /** SQL equality: NULL on either side makes it unknown. */
  function Equal(x: Cell, y: Cell): Truth {
    if x == Null || y == Null then Unknown else if x == y then True else False
  }

  function Eval(c: Conjunct, env: Env): Truth {
    match c
    case JoinEq(l, r) => Equal(Fetch(env, l), Fetch(env, r))
    case Other(refs, test) => test(FetchAll(env, refs))
  }

  /** WHERE keeps a combination of rows only if every conjunct is true, not merely unknown. */
  predicate Holds(conds: seq<Conjunct>, env: Env) {
    forall i :: 0 <= i < |conds| ==> Eval(conds[i], env) == True
  }

  function Where(conds: seq<Conjunct>): Env -> bool {
    env => Holds(conds, env)
  }

  lemma HoldsAppend(s: seq<Conjunct>, t: seq<Conjunct>, e: Env)
    ensures Holds(s + t, e) <==> Holds(s, e) && Holds(t, e)
  {
    if Holds(s + t, e) {
      forall i | 0 <= i < |s| ensures Eval(s[i], e) == True {
        assert (s + t)[i] == s[i];
      }
      forall i | 0 <= i < |t| ensures Eval(t[i], e) == True {
        assert (s + t)[|s| + i] == t[i];
      }
    }
  }

  function Lookup<T>(src: map<string, seq<T>>, a: string): seq<T> {
    if a in src then src[a] else []
  }

  /** COUNT(*): the number of ways to pick one row per alias so that `p` is true. */
  function Count(aliases: seq<string>, src: map<string, seq<Row>>, env: Env, p: Env -> bool): nat
    decreases |aliases|
  {
    if aliases == [] then (if p(env) then 1 else 0)
    else
      var n := Total(Lookup(src, aliases[0]), CountStep(aliases, src, env, p));
      TotalNonNegative(Lookup(src, aliases[0]), CountStep(aliases, src, env, p));
      n
  }

  function CountStep(aliases: seq<string>, src: map<string, seq<Row>>, env: Env, p: Env -> bool): Row -> int
    requires aliases != []
    ensures forall row :: CountStep(aliases, src, env, p)(row) >= 0
    decreases |aliases|, 0
  {
    row => Count(aliases[1..], src, env[aliases[0] := row], p)
  }

  lemma TotalNonNegative<A(!new)>(s: seq<A>, f: A -> int)
    requires forall x :: f(x) >= 0
    ensures Total(s, f) >= 0
  {
  }

  ghost predicate Extends(e: Env, env: Env) {
    env.Keys <= e.Keys && forall a :: a in env ==> e[a] == env[a]
  }

  ghost function Names(aliases: seq<string>): set<string> {
    set a | a in aliases
  }

  /** The environments that `Count(aliases, _, env, _)` ends in. */
  ghost predicate Completes(e: Env, env: Env, aliases: seq<string>) {
    Extends(e, env) && e.Keys == env.Keys + Names(aliases)
  }

  ghost predicate Fresh(aliases: seq<string>, env: Env) {
    Distinct(aliases) && forall a :: a in aliases ==> a !in env
  }

  lemma CompletesStep(e: Env, env: Env, aliases: seq<string>, row: Row)
    requires aliases != [] && Fresh(aliases, env)
    requires Completes(e, env[aliases[0] := row], aliases[1..])
    ensures Completes(e, env, aliases)
    ensures Fresh(aliases[1..], env[aliases[0] := row])
  {
    assert aliases == [aliases[0]] + aliases[1..];
  }

  lemma FreshStep(aliases: seq<string>, env: Env, row: Row)
    requires aliases != [] && Fresh(aliases, env)
    ensures Fresh(aliases[1..], env[aliases[0] := row])
  {
  }

  /** Conditions that agree on every complete environment count the same. */
  lemma {:induction false} CountCong(aliases: seq<string>, src: map<string, seq<Row>>, env: Env,
                                     p: Env -> bool, q: Env -> bool)
    requires Fresh(aliases, env)
    requires forall e :: Completes(e, env, aliases) ==> p(e) == q(e)
    ensures Count(aliases, src, env, p) == Count(aliases, src, env, q)
    decreases |aliases|
  {
    if aliases != [] {
      forall row ensures CountStep(aliases, src, env, p)(row) == CountStep(aliases, src, env, q)(row) {
        FreshStep(aliases, env, row);
        forall e | Completes(e, env[aliases[0] := row], aliases[1..]) ensures p(e) == q(e) {
          CompletesStep(e, env, aliases, row);
        }
        CountCong(aliases[1..], src, env[aliases[0] := row], p, q);
      }
      TotalCong(Lookup(src, aliases[0]), CountStep(aliases, src, env, p), CountStep(aliases, src, env, q));
    } else {
      assert Completes(env, env, aliases);
    }
  }

  /** A condition that is false everywhere counts nothing. */
  lemma {:induction false} CountNone(aliases: seq<string>, src: map<string, seq<Row>>, env: Env, p: Env -> bool)
    requires Fresh(aliases, env)
    requires forall e :: Completes(e, env, aliases) ==> !p(e)
    ensures Count(aliases, src, env, p) == 0
    decreases |aliases|
  {
    if aliases != [] {
      forall row ensures CountStep(aliases, src, env, p)(row) == 0 {
        FreshStep(aliases, env, row);
        forall e | Completes(e, env[aliases[0] := row], aliases[1..]) ensures !p(e) {
          CompletesStep(e, env, aliases, row);
        }
        CountNone(aliases[1..], src, env[aliases[0] := row], p);
      }
      TotalCong(Lookup(src, aliases[0]), CountStep(aliases, src, env, p), x => 0);
      TotalZero(Lookup(src, aliases[0]));
    } else {
      assert Completes(env, env, aliases);
    }
  }

  /** With one row per alias there is one combination to test. */
  lemma {:induction false} CountSingleton(aliases: seq<string>, src: map<string, seq<Row>>, env: Env, full: Env, p: Env -> bool)
    requires Extends(full, env) && full.Keys == env.Keys + Names(aliases)
    requires forall a :: a in aliases ==> Lookup(src, a) == [full[a]]
    ensures Count(aliases, src, env, p) == if p(full) then 1 else 0
    decreases |aliases|
  {
    if aliases == [] {
      assert env == full;
    } else {
      var a := aliases[0];
      assert aliases == [a] + aliases[1..];
      CountSingleton(aliases[1..], src, env[a := full[a]], full, p);
      TotalSingle(full[a], CountStep(aliases, src, env, p));
    }
  }

  /** One combination of rows that satisfies `p` is counted. */
  lemma {:induction false} CountPositive(aliases: seq<string>, src: map<string, seq<Row>>, env: Env, full: Env, p: Env -> bool)
    requires Extends(full, env) && full.Keys == env.Keys + Names(aliases) && p(full)
    requires forall a :: a in aliases ==> full[a] in Lookup(src, a)
    ensures Count(aliases, src, env, p) > 0
    decreases |aliases|
  {
    if aliases == [] {
      assert env == full;
    } else {
      var a := aliases[0];
      assert aliases == [a] + aliases[1..];
      CountPositive(aliases[1..], src, env[a := full[a]], full, p);
      TotalStrict(Lookup(src, a), x => 0, CountStep(aliases, src, env, p), full[a]);
      TotalZero(Lookup(src, a));
    }
  }

  /** Two neighbouring FROM items may be exchanged. */
  lemma CountSwap(a: string, b: string, rest: seq<string>, src: map<string, seq<Row>>, env: Env, p: Env -> bool)
    requires a != b
    ensures Count([a, b] + rest, src, env, p) == Count([b, a] + rest, src, env, p)
  {
    var h := (x: Row, y: Row) => Count(rest, src, env[a := x][b := y], p) as int;
    CountTwo(a, b, rest, src, env, p, h);
    forall y: Row, x: Row ensures Flip(h)(y, x) == Count(rest, src, env[b := y][a := x], p) {
      assert env[a := x][b := y] == env[b := y][a := x];
    }
    CountTwo(b, a, rest, src, env, p, Flip(h));
    TotalSwap(Lookup(src, a), Lookup(src, b), h);
  }

  lemma CountTwo(a: string, b: string, rest: seq<string>, src: map<string, seq<Row>>, env: Env, p: Env -> bool,
                 h: (Row, Row) -> int)
    requires forall x, y :: h(x, y) == Count(rest, src, env[a := x][b := y], p)
    ensures Count([a, b] + rest, src, env, p) == Total(Lookup(src, a), Inner(Lookup(src, b), h))
  {
    var two := [a, b] + rest;
    assert two[1..] == [b] + rest;
    forall x ensures CountStep(two, src, env, p)(x) == Inner(Lookup(src, b), h)(x) {
      var one := [b] + rest;
      assert one[1..] == rest;
      TotalCong(Lookup(src, b), CountStep(one, src, env[a := x], p), Apply(h, x));
    }
    TotalCong(Lookup(src, a), CountStep(two, src, env, p), Inner(Lookup(src, b), h));
  }

  lemma {:induction false} CountMoveFront(pre: seq<string>, a: string, post: seq<string>,
                                          src: map<string, seq<Row>>, env: Env, p: Env -> bool)
    requires a !in pre
    ensures Count(pre + [a] + post, src, env, p) == Count([a] + pre + post, src, env, p)
    decreases |pre|
  {
    if pre == [] {
      assert pre + [a] + post == [a] + pre + post;
    } else {
      var b, rest := pre[0], pre[1..];
      var l := pre + [a] + post;
      var m := [b, a] + (rest + post);
      assert l[1..] == rest + [a] + post && m[1..] == [a] + rest + post;
      forall row ensures CountStep(l, src, env, p)(row) == CountStep(m, src, env, p)(row) {
        CountMoveFront(rest, a, post, src, env[b := row], p);
      }
      TotalCong(Lookup(src, b), CountStep(l, src, env, p), CountStep(m, src, env, p));
      CountSwap(b, a, rest + post, src, env, p);
      assert [a, b] + (rest + post) == [a] + pre + post;
    }
  }

  lemma NamesNonEmpty(xs: seq<string>)
    ensures xs != [] ==> Names(xs) != {}
  {
    if xs != [] {
      assert xs[0] in Names(xs);
    }
  }

  lemma NamesWithout(xs: seq<string>, pre: seq<string>, a: string, post: seq<string>)
    requires xs != [] && xs[0] == a && Distinct(xs) && Distinct(pre + [a] + post)
    requires Names(xs) == Names(pre + [a] + post)
    ensures Distinct(pre + post) && a !in pre
    ensures Names(xs[1..]) == Names(pre + post)
  {
    var ys := pre + [a] + post;
    assert ys[|pre|] == a;
    assert forall i :: 0 <= i < |pre| ==> ys[i] == pre[i];
    assert forall i :: 0 <= i < |post| ==> ys[|pre| + 1 + i] == post[i];
    assert xs == [a] + xs[1..];
    assert Names(ys) == Names(pre + post) + {a};
    assert Names(xs) == Names(xs[1..]) + {a};
    assert a !in xs[1..] && a !in pre + post;
  }

  /** The order of the FROM list does not matter. */
  lemma {:induction false} CountPermutation(xs: seq<string>, ys: seq<string>,
                                            src: map<string, seq<Row>>, env: Env, p: Env -> bool)
    requires Distinct(xs) && Distinct(ys) && Names(xs) == Names(ys)
    ensures Count(xs, src, env, p) == Count(ys, src, env, p)
    decreases |xs|
  {
    if xs == [] {
      NamesNonEmpty(ys);
    } else {
      var a := xs[0];
      assert a in Names(xs);
      var i :| 0 <= i < |ys| && ys[i] == a;
      var pre, post := ys[..i], ys[i + 1..];
      assert ys == pre + [a] + post;
      NamesWithout(xs, pre, a, post);
      CountMoveFront(pre, a, post, src, env, p);
      var front := [a] + pre + post;
      assert front[1..] == pre + post;
      forall row ensures CountStep(xs, src, env, p)(row) == CountStep(front, src, env, p)(row) {
        CountPermutation(xs[1..], pre + post, src, env[a := row], p);
      }
      TotalCong(Lookup(src, a), CountStep(xs, src, env, p), CountStep(front, src, env, p));
    }
  }

  // ---- Adding aliases to a query ----

  /** The rows at hand come from the database. */
  ghost predicate Drawn(e: Env, src: map<string, seq<Row>>, aliases: seq<string>) {
    forall a :: a in aliases ==> a in e && e[a] in Lookup(src, a)
  }

  lemma DrawnStep(e: Env, src: map<string, seq<Row>>, aliases: seq<string>, env: Env, row: Row)
    requires aliases != [] && Fresh(aliases, env) && row in Lookup(src, aliases[0])
    requires Completes(e, env[aliases[0] := row], aliases[1..]) && Drawn(e, src, aliases[1..])
    ensures Completes(e, env, aliases) && Drawn(e, src, aliases)
  {
    CompletesStep(e, env, aliases, row);
    assert aliases == [aliases[0]] + aliases[1..];
  }

  /** If every result of `p` extends in exactly one way, and nothing else extends, the count stays. */
  lemma {:induction false} CountExtend(aliases: seq<string>, more: seq<string>, src: map<string, seq<Row>>, env: Env,
                                       p: Env -> bool, q: Env -> bool)
    requires Fresh(aliases, env)
    requires forall e :: Completes(e, env, aliases) && Drawn(e, src, aliases) ==> Count(more, src, e, q) == if p(e) then 1 else 0
    ensures Count(aliases + more, src, env, q) == Count(aliases, src, env, p)
    decreases |aliases|
  {
    var all := aliases + more;
    if aliases == [] {
      assert all == more;
      assert Completes(env, env, aliases) && Drawn(env, src, aliases);
    } else {
      var a := aliases[0];
      assert all[1..] == aliases[1..] + more;
      forall row | row in Lookup(src, a) ensures CountStep(all, src, env, q)(row) == CountStep(aliases, src, env, p)(row) {
        FreshStep(aliases, env, row);
        forall e | Completes(e, env[a := row], aliases[1..]) && Drawn(e, src, aliases[1..])
          ensures Count(more, src, e, q) == if p(e) then 1 else 0
        {
          DrawnStep(e, src, aliases, env, row);
        }
        CountExtend(aliases[1..], more, src, env[a := row], p, q);
      }
      TotalCong(Lookup(src, a), CountStep(all, src, env, q), CountStep(aliases, src, env, p));
    }
  }

  ghost predicate ExtendsAtMostOnce(aliases: seq<string>, more: seq<string>, src: map<string, seq<Row>>, env: Env,
                                    p: Env -> bool, q: Env -> bool) {
    forall e :: Completes(e, env, aliases) && Drawn(e, src, aliases) ==> Count(more, src, e, q) <= if p(e) then 1 else 0
  }

  lemma ExtendsStep(aliases: seq<string>, more: seq<string>, src: map<string, seq<Row>>, env: Env,
                    p: Env -> bool, q: Env -> bool, row: Row)
    requires aliases != [] && Fresh(aliases, env) && row in Lookup(src, aliases[0])
    requires ExtendsAtMostOnce(aliases, more, src, env, p, q)
    ensures Fresh(aliases[1..], env[aliases[0] := row])
    ensures ExtendsAtMostOnce(aliases[1..], more, src, env[aliases[0] := row], p, q)
  {
    FreshStep(aliases, env, row);
    forall e | Completes(e, env[aliases[0] := row], aliases[1..]) && Drawn(e, src, aliases[1..])
      ensures Count(more, src, e, q) <= if p(e) then 1 else 0
    {
      DrawnStep(e, src, aliases, env, row);
    }
  }

  lemma {:induction false} CountBelow(aliases: seq<string>, more: seq<string>, src: map<string, seq<Row>>, env: Env,
                                      p: Env -> bool, q: Env -> bool)
    requires Fresh(aliases, env) && ExtendsAtMostOnce(aliases, more, src, env, p, q)
    ensures Count(aliases + more, src, env, q) <= Count(aliases, src, env, p)
    decreases |aliases|, 1
  {
    var all := aliases + more;
    if aliases == [] {
      assert all == more;
      assert Completes(env, env, aliases) && Drawn(env, src, aliases);
    } else {
      RowsBelow(aliases, more, src, env, p, q);
      TotalMono(Lookup(src, aliases[0]), CountStep(all, src, env, q), CountStep(aliases, src, env, p));
    }
  }

  lemma {:induction false} RowsBelow(aliases: seq<string>, more: seq<string>, src: map<string, seq<Row>>, env: Env,
                                     p: Env -> bool, q: Env -> bool)
    requires aliases != [] && Fresh(aliases, env) && ExtendsAtMostOnce(aliases, more, src, env, p, q)
    ensures aliases + more != [] && (aliases + more)[0] == aliases[0]
    ensures forall row :: row in Lookup(src, aliases[0]) ==>
              CountStep(aliases + more, src, env, q)(row) <= CountStep(aliases, src, env, p)(row)
    decreases |aliases|, 0
  {
    var a := aliases[0];
    assert (aliases + more)[1..] == aliases[1..] + more;
    forall row | row in Lookup(src, a)
      ensures CountStep(aliases + more, src, env, q)(row) <= CountStep(aliases, src, env, p)(row)
    {
      ExtendsStep(aliases, more, src, env, p, q, row);
      CountBelow(aliases[1..], more, src, env[a := row], p, q);
    }
  }

  lemma DrawnDown(full: Env, src: map<string, seq<Row>>, aliases: seq<string>, env: Env)
    requires aliases != [] && Completes(full, env, aliases) && Drawn(full, src, aliases)
    ensures aliases[0] in full && full[aliases[0]] in Lookup(src, aliases[0])
    ensures Completes(full, env[aliases[0] := full[aliases[0]]], aliases[1..]) && Drawn(full, src, aliases[1..])
  {
    assert aliases == [aliases[0]] + aliases[1..];
  }

  lemma StrictRow(aliases: seq<string>, more: seq<string>, src: map<string, seq<Row>>, env: Env,
                  p: Env -> bool, q: Env -> bool, row: Row)
    requires aliases != [] && Fresh(aliases, env) && ExtendsAtMostOnce(aliases, more, src, env, p, q)
    requires row in Lookup(src, aliases[0])
    requires Count(aliases[1..] + more, src, env[aliases[0] := row], q) < Count(aliases[1..], src, env[aliases[0] := row], p)
    ensures Count(aliases + more, src, env, q) < Count(aliases, src, env, p)
  {
    var all := aliases + more;
    assert all[1..] == aliases[1..] + more;
    RowsBelow(aliases, more, src, env, p, q);
    TotalStrict(Lookup(src, aliases[0]), CountStep(all, src, env, q), CountStep(aliases, src, env, p), row);
  }

  /** A result of `p` that extends in no way makes the extended query count less. */
  lemma {:induction false} CountStrictlyBelow(aliases: seq<string>, more: seq<string>, src: map<string, seq<Row>>, env: Env,
                                              p: Env -> bool, q: Env -> bool, full: Env)
    requires Fresh(aliases, env) && ExtendsAtMostOnce(aliases, more, src, env, p, q)
    requires Completes(full, env, aliases) && Drawn(full, src, aliases)
    requires p(full) && Count(more, src, full, q) == 0
    ensures Count(aliases + more, src, env, q) < Count(aliases, src, env, p)
    decreases |aliases|
  {
    if aliases == [] {
      assert aliases + more == more;
      assert env == full;
    } else {
      DrawnDown(full, src, aliases, env);
      var row := full[aliases[0]];
      ExtendsStep(aliases, more, src, env, p, q, row);
      CountStrictlyBelow(aliases[1..], more, src, env[aliases[0] := row], p, q, full);
      StrictRow(aliases, more, src, env, p, q, row);
    }
  }
}

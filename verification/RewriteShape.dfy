/** What the generated query consists of, in terms of the conjuncts of the original one. */
module RewriteShape {
  import opened Sums
  import opened Sql
  import Ordering
  import opened GroupByPushdown

  // ---- The four kinds of conjuncts ----

  /** An equality between columns of two aliases of the query, or of one. */
  ghost predicate IsJoin(c: Conjunct, aliases: seq<string>) {
    c.JoinEq? && c.left.alias in aliases && c.right.alias in aliases
  }

  ghost predicate NamesAlias(c: Conjunct, aliases: seq<string>, a: string) {
    a in aliases && Mentions(c, a)
  }

  ghost predicate OnlyNames(c: Conjunct, aliases: seq<string>, a: string) {
    NamesAlias(c, aliases, a) && forall b :: NamesAlias(c, aliases, b) ==> b == a
  }

  ghost predicate NamesTwo(c: Conjunct, aliases: seq<string>) {
    exists a, b :: a != b && NamesAlias(c, aliases, a) && NamesAlias(c, aliases, b)
  }

  lemma {:induction false} SelectDistinct<T>(s: seq<T>, keep: T -> bool)
    requires Distinct(s)
    ensures Distinct(Select(s, keep))
  {
    if s != [] {
      assert Distinct(s[1..]);
      SelectDistinct(s[1..], keep);
      var rest := Select(s[1..], keep);
      forall i | 0 <= i < |rest| ensures rest[i] != s[0] {
        SelectMember(s[1..], keep, rest[i]);
        var j :| 0 <= j < |s| - 1 && s[1..][j] == rest[i];
        assert s[1..][j] == s[j + 1];
      }
    }
  }

  lemma AliasRefsIs(c: Conjunct, aliases: seq<string>)
    requires Distinct(aliases)
    ensures Distinct(AliasRefs(c, aliases)) && forall a :: a in AliasRefs(c, aliases) <==> NamesAlias(c, aliases, a)
  {
    var keep := a => Mentions(c, a);
    SelectDistinct(aliases, keep);
    forall a ensures a in AliasRefs(c, aliases) <==> NamesAlias(c, aliases, a) {
      SelectMember(aliases, keep, a);
    }
  }

  /** Joins are told apart first; the others by the number of aliases they name. */
  lemma ClassifyIff(c: Conjunct, aliases: seq<string>)
    requires Distinct(aliases)
    ensures Classify(c, aliases) == Join <==> IsJoin(c, aliases)
    ensures forall a :: Classify(c, aliases) == Single(a) <==> !IsJoin(c, aliases) && OnlyNames(c, aliases, a)
    ensures Classify(c, aliases) == CrossTable <==> !IsJoin(c, aliases) && NamesTwo(c, aliases)
    ensures Classify(c, aliases) == NoAlias <==> forall a :: !NamesAlias(c, aliases, a)
  {
    var refs := AliasRefs(c, aliases);
    AliasRefsIs(c, aliases);
    if IsJoin(c, aliases) {
      assert Refs(c)[0].alias == c.left.alias;
      assert NamesAlias(c, aliases, c.left.alias);
    } else if |refs| == 0 {
    } else if |refs| == 1 {
      assert refs[0] in refs;
      forall b | NamesAlias(c, aliases, b) ensures b == refs[0] {
        assert b in refs;
      }
    } else {
      assert refs[0] in refs && refs[1] in refs && refs[0] != refs[1];
    }
  }

  // ---- The grouping columns ----

  ghost predicate JoinedOn(c: Conjunct, r: Ref) {
    c.JoinEq? && (c.left == r || c.right == r)
  }

  lemma {:induction false} JoinKeysIff(joins: seq<Conjunct>, alias: string, col: string)
    ensures col in JoinKeys(joins, alias) <==> exists c :: c in joins && JoinedOn(c, Ref(alias, col))
  {
    if joins != [] {
      var k := |joins| - 1;
      JoinKeysIff(joins[..k], alias, col);
      assert joins == joins[..k] + [joins[k]];
      assert col in KeysOf(joins[k], alias) <==> JoinedOn(joins[k], Ref(alias, col));
    }
  }

  // ---- The generated query ----

  lemma OfKindMember(q: Query, k: Kind, c: Conjunct)
    ensures c in OfKind(q, k) <==> c in q.conds && Classify(c, q.aliases) == k
  {
    assert q.conds[..|q.conds|] == q.conds;
    SelectMember(q.conds, KindIs(q.aliases, k), c);
  }

  /** A CTE reads the table of its alias, groups by the columns that are joined on and keeps the rows that satisfy what names its alias only. */
  ghost predicate CteIs(q: Query, cte: Cte) {
    && cte.alias in q.aliases && cte.alias in q.tableOf && cte.table == q.tableOf[cte.alias]
    && (forall col :: col in cte.cols <==> exists c :: c in q.conds && IsJoin(c, q.aliases) && JoinedOn(c, Ref(cte.alias, col)))
    && forall c :: c in cte.preds <==> c in q.conds && !IsJoin(c, q.aliases) && OnlyNames(c, q.aliases, cte.alias)
  }

  lemma CteForIs(q: Query, a: string)
    requires WellFormed(q) && a in q.aliases
    ensures CteIs(q, CteFor(q, a))
  {
    var cte := CteFor(q, a);
    assert a in Names(q.aliases);
    forall col ensures col in cte.cols <==> exists c :: c in q.conds && IsJoin(c, q.aliases) && JoinedOn(c, Ref(a, col)) {
      JoinKeysIff(OfKind(q, Join), a, col);
      forall c ensures c in OfKind(q, Join) <==> c in q.conds && IsJoin(c, q.aliases) {
        OfKindMember(q, Join, c);
        ClassifyIff(c, q.aliases);
      }
    }
    forall c ensures c in cte.preds <==> c in q.conds && !IsJoin(c, q.aliases) && OnlyNames(c, q.aliases, a) {
      OfKindMember(q, Single(a), c);
      ClassifyIff(c, q.aliases);
    }
  }

  /** One CTE for every alias, in the order of their names. */
  ghost predicate CtesAre(q: Query, ctes: seq<Cte>) {
    (forall i :: 0 <= i < |ctes| ==> CteIs(q, ctes[i])) && InOrder(ctes) && forall a :: a in q.aliases ==> HasCte(ctes, a)
  }

  ghost predicate InOrder(ctes: seq<Cte>) {
    forall i, j :: 0 <= i < j < |ctes| ==> Ordering.Leq(ctes[i].alias, ctes[j].alias) && ctes[i].alias != ctes[j].alias
  }

  ghost predicate HasCte(ctes: seq<Cte>, a: string) {
    exists i :: 0 <= i < |ctes| && ctes[i].alias == a
  }

  lemma CtesInOrder(q: Query, sorted: seq<string>)
    requires Distinct(sorted) && Ordering.Sorted(sorted)
    ensures InOrder(CtesFor(q, sorted))
  {
    var ctes := CtesFor(q, sorted);
    forall i, j | 0 <= i < j < |ctes| ensures Ordering.Leq(ctes[i].alias, ctes[j].alias) && ctes[i].alias != ctes[j].alias {
      assert ctes[i].alias == sorted[i] && ctes[j].alias == sorted[j];
    }
  }

  lemma CteOf(q: Query, sorted: seq<string>, a: string)
    requires a in sorted
    ensures HasCte(CtesFor(q, sorted), a)
  {
    var i :| 0 <= i < |sorted| && sorted[i] == a;
    assert CtesFor(q, sorted)[i].alias == a;
  }

  lemma CtesForAre(q: Query, sorted: seq<string>)
    requires WellFormed(q) && Distinct(sorted) && Ordering.Sorted(sorted) && forall a :: a in sorted <==> a in q.aliases
    ensures CtesAre(q, CtesFor(q, sorted))
  {
    var ctes := CtesFor(q, sorted);
    CtesInOrder(q, sorted);
    forall i | 0 <= i < |ctes| ensures CteIs(q, ctes[i]) {
      CteForIs(q, sorted[i]);
    }
    forall a | a in q.aliases ensures HasCte(ctes, a) {
      CteOf(q, sorted, a);
    }
  }

  lemma OuterIs(q: Query, c: Conjunct)
    requires WellFormed(q)
    ensures c in Rewrite(q).outer <==> c in q.conds && (IsJoin(c, q.aliases) || NamesTwo(c, q.aliases))
  {
    OfKindMember(q, Join, c);
    OfKindMember(q, CrossTable, c);
    ClassifyIff(c, q.aliases);
  }

  /** The generated query: the CTEs of the aliases, and an outer WHERE with the joins and with what names several aliases. */
  lemma GeneratedIs(q: Query)
    requires WellFormed(q)
    ensures CtesAre(q, Rewrite(q).ctes)
    ensures forall c :: c in Rewrite(q).outer <==> c in q.conds && (IsJoin(c, q.aliases) || NamesTwo(c, q.aliases))
  {
    Ordering.SortSorted(q.aliases);
    Ordering.DistinctByMultiset(q.aliases, Ordering.Sort(q.aliases));
    CtesForAre(q, Ordering.Sort(q.aliases));
    forall c ensures c in Rewrite(q).outer <==> c in q.conds && (IsJoin(c, q.aliases) || NamesTwo(c, q.aliases)) {
      OuterIs(q, c);
    }
  }
}

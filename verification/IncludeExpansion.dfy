/**
 Amalgamation: a file is written with every include directive replaced by the text of the included
 file, the first time that file is needed. The set of written files outlives the single call.
 */
module IncludeExpansion {

  datatype Piece = Code | Include(path: string)

  /** The files, those that are never written, and those that are written only on request. */
  datatype Graph = Graph(files: map<string, seq<Piece>>, always: set<string>, excluded: set<string>)

  /** Written text, with marks where a body begins and ends and where a directive stood. */
  datatype Token =
    | Start(file: string)
    | End(file: string)
    | Text(file: string, piece: nat)
    | Directive(file: string, included: string)

  /** Reading a missing file, or a directive repeated within a file, raises an exception. */
  datatype Output = Error | Written(text: seq<Token>, written: set<string>)

  predicate Needed(g: Graph, f: string, ignoreExcluded: bool, written: set<string>) {
    f !in g.always && (f !in g.excluded || ignoreExcluded) && f !in written
  }

  predicate Acceptable(g: Graph, pieces: seq<Piece>) {
    && (forall i :: 0 <= i < |pieces| && pieces[i].Include? ==> pieces[i].path in g.files)
    && (forall i, j :: 0 <= i < j < |pieces| && pieces[i].Include? ==> pieces[i] != pieces[j])
  }

  // ---- Expansion ----

  function ExpandFile(g: Graph, f: string, ignoreExcluded: bool, written: set<string>): (r: Output)
    ensures r.Written? ==> written <= r.written
    decreases |g.files.Keys - written|, 0
  {
    if !Needed(g, f, ignoreExcluded, written) then Written([], written)
    else if f !in g.files || !Acceptable(g, g.files[f]) then Error
    else
      Shrinks(g.files.Keys, written, f);
      match ExpandPieces(g, f, 0, written + {f})
      case Error => Error
      case Written(text, after) => Written([Start(f)] + text + [End(f)], after)
  }

  function ExpandPieces(g: Graph, f: string, i: nat, written: set<string>): (r: Output)
    requires f in g.files && i <= |g.files[f]|
    ensures r.Written? ==> written <= r.written
    decreases |g.files.Keys - written|, |g.files[f]| - i + 1
  {
    if i == |g.files[f]| then Written([], written)
    else
      match g.files[f][i]
      case Code =>
        (match ExpandPieces(g, f, i + 1, written)
         case Error => Error
         case Written(rest, after) => Written([Text(f, i)] + rest, after))
      case Include(h) =>
        match ExpandFile(g, h, false, written)
        case Error => Error
        case Written(text, mid) =>
          ShrinksMore(g.files.Keys, written, mid);
          match ExpandPieces(g, f, i + 1, mid)
          case Error => Error
          case Written(rest, after) => Written(text + [Directive(f, h)] + rest, after)
  }

  lemma Shrinks(all: set<string>, written: set<string>, f: string)
    requires f in all && f !in written
    ensures |all - (written + {f})| < |all - written|
  {
    assert all - (written + {f}) == (all - written) - {f};
  }

  lemma ShrinksMore(all: set<string>, written: set<string>, more: set<string>)
    requires written <= more
    ensures |all - more| <= |all - written|
  {
    assert all - more <= all - written;
    SubsetSize(all - more, all - written);
  }

  lemma {:induction false} SubsetSize(a: set<string>, b: set<string>)
    requires a <= b
    ensures |a| <= |b|
    decreases |b|
  {
    if x :| x in b {
      SubsetSize(a - {x}, b - {x});
      if x in a {
        assert |a - {x}| == |a| - 1;
      } else {
        assert a - {x} == a;
      }
    } else {
      assert a == {};
    }
  }

  /** The writer, with the global set of written files. */
  class Amalgamation {
    const graph: Graph
    var written: set<string>

    constructor (graph: Graph)
      ensures this.graph == graph && written == {}
    {
      this.graph, written := graph, {};
    }

    /** On an error the set may have grown, as after an exception; otherwise it is what the expansion says. */
    method WriteFile(f: string, ignoreExcluded: bool) returns (ok: bool, text: seq<Token>)
      modifies this`written
      ensures old(written) <= written
      ensures ok <==> ExpandFile(graph, f, ignoreExcluded, old(written)).Written?
      ensures ok ==> Written(text, written) == ExpandFile(graph, f, ignoreExcluded, old(written))
      decreases |graph.files.Keys - written|, 0
    {
      if !Needed(graph, f, ignoreExcluded, written) {
        return true, [];
      }
      if f !in graph.files || !Acceptable(graph, graph.files[f]) {
        return false, [];
      }
      Shrinks(graph.files.Keys, written, f);
      written := written + {f};
      ok, text := WritePieces(f, 0);
      text := [Start(f)] + text + [End(f)];
    }

    method WritePieces(f: string, i: nat) returns (ok: bool, text: seq<Token>)
      requires f in graph.files && i <= |graph.files[f]|
      modifies this`written
      ensures old(written) <= written
      ensures ok <==> ExpandPieces(graph, f, i, old(written)).Written?
      ensures ok ==> Written(text, written) == ExpandPieces(graph, f, i, old(written))
      decreases |graph.files.Keys - written|, |graph.files[f]| - i + 1
    {
      if i == |graph.files[f]| {
        return true, [];
      }
      match graph.files[f][i]
      case Code =>
        ok, text := WritePieces(f, i + 1);
        text := [Text(f, i)] + text;
      case Include(h) =>
        var first;
        ok, first := WriteFile(h, false);
        if !ok {
          return false, [];
        }
        ShrinksMore(graph.files.Keys, old(written), written);
        var rest;
        ok, rest := WritePieces(f, i + 1);
        text := first + [Directive(f, h)] + rest;
    }
  }

  // ---- Every body at most once ----

  function Occurrences(text: seq<Token>, t: Token): nat {
    if text == [] then 0 else (if text[0] == t then 1 else 0) + Occurrences(text[1..], t)
  }

  lemma {:induction false} OccurrencesAppend(a: seq<Token>, b: seq<Token>, t: Token)
    ensures Occurrences(a + b, t) == Occurrences(a, t) + Occurrences(b, t)
  {
    if a == [] {
      assert a + b == b;
    } else {
      assert (a + b)[1..] == a[1..] + b;
      OccurrencesAppend(a[1..], b, t);
    }
  }

  lemma OccurrencesOne(x: Token, t: Token)
    ensures Occurrences([x], t) == if x == t then 1 else 0
  {
    assert [x][1..] == [];
  }

  /** How often a token belongs to the bodies of `files`. */
  function Share(g: Graph, files: set<string>, t: Token): nat {
    match t
    case Start(f) => if f in files then 1 else 0
    case End(f) => if f in files then 1 else 0
    case Text(f, i) => if f in files && f in g.files && i < |g.files[f]| && g.files[f][i].Code? then 1 else 0
    case Directive(_, _) => 0
  }

  /** The part of the body of `f` from piece `i` on. */
  function RestShare(g: Graph, f: string, i: nat, t: Token): nat {
    if t.Text? && t.file == f && f in g.files && i <= t.piece < |g.files[f]| && g.files[f][t.piece].Code? then 1 else 0
  }

  lemma AroundDirective(a: seq<Token>, d: Token, b: seq<Token>, t: Token)
    requires d != t
    ensures Occurrences(a + [d] + b, t) == Occurrences(a, t) + Occurrences(b, t)
  {
    OccurrencesAppend(a + [d], b, t);
    OccurrencesAppend(a, [d], t);
    OccurrencesOne(d, t);
  }

  lemma ShareSum(g: Graph, a: set<string>, b: set<string>, c: set<string>, t: Token)
    requires a <= b <= c
    ensures Share(g, c - a, t) == Share(g, b - a, t) + Share(g, c - b, t)
  {
  }

  lemma {:induction false} FileOnce(g: Graph, f: string, ignoreExcluded: bool, written: set<string>, t: Token)
    requires ExpandFile(g, f, ignoreExcluded, written).Written? && !t.Directive?
    ensures var r := ExpandFile(g, f, ignoreExcluded, written); Occurrences(r.text, t) == Share(g, r.written - written, t)
    decreases |g.files.Keys - written|, 0
  {
    if Needed(g, f, ignoreExcluded, written) {
      Shrinks(g.files.Keys, written, f);
      PiecesOnce(g, f, 0, written + {f}, t);
      var r := ExpandPieces(g, f, 0, written + {f});
      OccurrencesAppend([Start(f)] + r.text, [End(f)], t);
      OccurrencesAppend([Start(f)], r.text, t);
      OccurrencesOne(Start(f), t);
      OccurrencesOne(End(f), t);
    }
  }

  /** One piece of text before the rest of the file. */
  lemma CodeOnce(g: Graph, f: string, i: nat, written: set<string>, t: Token, rest: Output)
    requires f in g.files && i < |g.files[f]| && g.files[f][i].Code? && rest.Written?
    requires Occurrences(rest.text, t) == Share(g, rest.written - written, t) + RestShare(g, f, i + 1, t)
    ensures Occurrences([Text(f, i)] + rest.text, t) == Share(g, rest.written - written, t) + RestShare(g, f, i, t)
  {
    OccurrencesAppend([Text(f, i)], rest.text, t);
    OccurrencesOne(Text(f, i), t);
  }

  /** An included file and its directive before the rest of the file. */
  lemma IncludeOnce(g: Graph, f: string, h: string, i: nat, written: set<string>, t: Token, first: Output, rest: Output)
    requires f in g.files && i < |g.files[f]| && g.files[f][i].Include? && !t.Directive?
    requires first.Written? && rest.Written? && written <= first.written <= rest.written
    requires Occurrences(first.text, t) == Share(g, first.written - written, t)
    requires Occurrences(rest.text, t) == Share(g, rest.written - first.written, t) + RestShare(g, f, i + 1, t)
    ensures Occurrences(first.text + [Directive(f, h)] + rest.text, t) == Share(g, rest.written - written, t) + RestShare(g, f, i, t)
  {
    AroundDirective(first.text, Directive(f, h), rest.text, t);
    ShareSum(g, written, first.written, rest.written, t);
  }

  lemma {:induction false} PiecesOnce(g: Graph, f: string, i: nat, written: set<string>, t: Token)
    requires f in g.files && f in written && i <= |g.files[f]| && ExpandPieces(g, f, i, written).Written? && !t.Directive?
    ensures var r := ExpandPieces(g, f, i, written);
            Occurrences(r.text, t) == Share(g, r.written - written, t) + RestShare(g, f, i, t)
    decreases |g.files.Keys - written|, |g.files[f]| - i + 1
  {
    if i < |g.files[f]| {
      match g.files[f][i]
      case Code =>
        PiecesOnce(g, f, i + 1, written, t);
        CodeOnce(g, f, i, written, t, ExpandPieces(g, f, i + 1, written));
      case Include(h) =>
        var first := ExpandFile(g, h, false, written);
        ShrinksMore(g.files.Keys, written, first.written);
        FileOnce(g, h, false, written, t);
        PiecesOnce(g, f, i + 1, first.written, t);
        IncludeOnce(g, f, h, i, written, t, first, ExpandPieces(g, f, i + 1, first.written));
    }
  }

  /** A sequence of top-level calls, each with its own wish to write excluded files. */
  function ExpandAll(g: Graph, calls: seq<(string, bool)>, written: set<string>): (r: Output)
    ensures r.Written? ==> written <= r.written
    decreases |calls|
  {
    if calls == [] then Written([], written)
    else
      match ExpandFile(g, calls[0].0, calls[0].1, written)
      case Error => Error
      case Written(text, mid) =>
        match ExpandAll(g, calls[1..], mid)
        case Error => Error
        case Written(rest, after) => Written(text + rest, after)
  }

  lemma {:induction false} AllOnce(g: Graph, calls: seq<(string, bool)>, written: set<string>, t: Token)
    requires ExpandAll(g, calls, written).Written? && !t.Directive?
    ensures var r := ExpandAll(g, calls, written); Occurrences(r.text, t) == Share(g, r.written - written, t)
    decreases |calls|
  {
    if calls != [] {
      var first := ExpandFile(g, calls[0].0, calls[0].1, written);
      FileOnce(g, calls[0].0, calls[0].1, written, t);
      AllOnce(g, calls[1..], first.written, t);
      OccurrencesAppend(first.text, ExpandAll(g, calls[1..], first.written).text, t);
    }
  }

  /**
   Over any sequence of calls, on any include graph: each file's body is emitted once if the file was
   written and not at all otherwise, piece by piece.
   */
  lemma BodiesAtMostOnce(g: Graph, calls: seq<(string, bool)>, f: string, i: nat)
    requires ExpandAll(g, calls, {}).Written?
    ensures var r := ExpandAll(g, calls, {});
            && Occurrences(r.text, Start(f)) == Occurrences(r.text, End(f)) == (if f in r.written then 1 else 0)
            && Occurrences(r.text, Text(f, i)) <= 1
            && (Occurrences(r.text, Text(f, i)) == 1 <==>
                  f in r.written && f in g.files && i < |g.files[f]| && g.files[f][i].Code?)
  {
    AllOnce(g, calls, {}, Start(f));
    AllOnce(g, calls, {}, End(f));
    AllOnce(g, calls, {}, Text(f, i));
    assert ExpandAll(g, calls, {}).written - {} == ExpandAll(g, calls, {}).written;
  }

  // ---- Directives are satisfied ----

  /** A directive for an excluded file is dropped; any other needs the whole body before it. */
  ghost predicate SatisfiedAt(g: Graph, all: seq<Token>, k: nat)
    requires k < |all|
  {
    all[k].Directive? ==> all[k].included in g.always + g.excluded || End(all[k].included) in all[..k]
  }

  ghost predicate Satisfied(g: Graph, before: seq<Token>, text: seq<Token>) {
    forall k :: |before| <= k < |before| + |text| ==> SatisfiedAt(g, before + text, k)
  }

  /** Newly written files are complete in the text. */
  ghost predicate Completed(text: seq<Token>, files: set<string>) {
    forall h :: h in files ==> End(h) in text
  }

  lemma {:induction false} OccursIn(text: seq<Token>, t: Token)
    ensures Occurrences(text, t) > 0 <==> t in text
  {
    if text != [] {
      OccursIn(text[1..], t);
      assert text == [text[0]] + text[1..];
    }
  }

  lemma FileCompletes(g: Graph, f: string, ignoreExcluded: bool, written: set<string>)
    requires ExpandFile(g, f, ignoreExcluded, written).Written?
    ensures var r := ExpandFile(g, f, ignoreExcluded, written); Completed(r.text, r.written - written)
  {
    var r := ExpandFile(g, f, ignoreExcluded, written);
    forall h | h in r.written - written ensures End(h) in r.text {
      FileOnce(g, f, ignoreExcluded, written, End(h));
      OccursIn(r.text, End(h));
    }
  }

  lemma SatisfiedAppend(g: Graph, before: seq<Token>, a: seq<Token>, b: seq<Token>)
    requires Satisfied(g, before, a) && Satisfied(g, before + a, b)
    ensures Satisfied(g, before, a + b)
  {
    var all := before + (a + b);
    assert all == before + a + b;
    forall k | |before| <= k < |before| + |a + b| ensures SatisfiedAt(g, all, k) {
      if k < |before| + |a| {
        assert SatisfiedAt(g, before + a, k);
        assert all[..k] == (before + a)[..k];
      } else {
        assert SatisfiedAt(g, before + a + b, k);
      }
    }
  }

  lemma SatisfiedOne(g: Graph, before: seq<Token>, t: Token)
    requires t.Directive? ==> t.included in g.always + g.excluded || End(t.included) in before
    ensures Satisfied(g, before, [t])
  {
    assert (before + [t])[..|before|] == before;
  }

  // ---- Include cycles ----

  predicate Hidden(g: Graph, f: string) {
    f in g.always + g.excluded
  }

  predicate Includes(g: Graph, f: string, h: string) {
    f in g.files && Include(h) in g.files[f]
  }

  /** The file after `c[i]` on a circle. */
  function NextOn(c: seq<string>, i: nat): string
    requires i < |c|
  {
    if i == |c| - 1 then c[0] else c[i + 1]
  }

  /** Files that include each other in a circle, none of them excluded, and their expansion is accepted. */
  ghost predicate BadCycle(g: Graph, c: seq<string>) {
    && c != []
    && (forall i :: 0 <= i < |c| ==> !Hidden(g, c[i]) && Includes(g, c[i], NextOn(c, i)))
    && ExpandFile(g, c[0], false, {}).Written?
  }

  /** Whatever is called for, unless it ends in an error: every directive comes after the body it asks for. */
  ghost predicate AlwaysSatisfied(g: Graph) {
    forall calls, k: nat :: ExpandAll(g, calls, {}).Written? && k < |ExpandAll(g, calls, {}).text| ==>
      SatisfiedAt(g, ExpandAll(g, calls, {}).text, k)
  }

  // ---- Accepted runs ----

  /** The files of `more` can be read, and what they include is in `all` or never written. */
  ghost predicate Closed(g: Graph, more: set<string>, all: set<string>) {
    forall f :: f in more ==>
      f in g.files && Acceptable(g, g.files[f]) && forall h :: Includes(g, f, h) ==> h in all || Hidden(g, h)
  }

  lemma {:induction false} FileClosed(g: Graph, f: string, ignoreExcluded: bool, written: set<string>)
    requires ExpandFile(g, f, ignoreExcluded, written).Written?
    ensures var r := ExpandFile(g, f, ignoreExcluded, written);
            Closed(g, r.written - written, r.written) && (f in r.written || Hidden(g, f))
    decreases |g.files.Keys - written|, 0
  {
    if Needed(g, f, ignoreExcluded, written) {
      Shrinks(g.files.Keys, written, f);
      PiecesClosed(g, f, 0, written + {f});
      assert g.files[f][0..] == g.files[f];
    }
  }

  lemma {:induction false} PiecesClosed(g: Graph, f: string, i: nat, written: set<string>)
    requires f in g.files && i <= |g.files[f]| && ExpandPieces(g, f, i, written).Written?
    ensures var r := ExpandPieces(g, f, i, written);
            && Closed(g, r.written - written, r.written)
            && forall h :: Include(h) in g.files[f][i..] ==> h in r.written || Hidden(g, h)
    decreases |g.files.Keys - written|, |g.files[f]| - i + 1
  {
    if i < |g.files[f]| {
      assert g.files[f][i..] == [g.files[f][i]] + g.files[f][i + 1..];
      match g.files[f][i]
      case Code =>
        PiecesClosed(g, f, i + 1, written);
      case Include(h) =>
        var first := ExpandFile(g, h, false, written);
        ShrinksMore(g.files.Keys, written, first.written);
        FileClosed(g, h, false, written);
        PiecesClosed(g, f, i + 1, first.written);
    }
  }

  lemma {:induction false} AllClosed(g: Graph, calls: seq<(string, bool)>, written: set<string>)
    requires ExpandAll(g, calls, written).Written?
    ensures var r := ExpandAll(g, calls, written); Closed(g, r.written - written, r.written)
    decreases |calls|
  {
    if calls != [] {
      FileClosed(g, calls[0].0, calls[0].1, written);
      AllClosed(g, calls[1..], ExpandFile(g, calls[0].0, calls[0].1, written).written);
    }
  }

  /** A file of a closed set is expanded without an error, from any part of the set. */
  lemma {:induction false} FileAccepted(g: Graph, all: set<string>, f: string, ignoreExcluded: bool, written: set<string>)
    requires Closed(g, all, all) && written <= all && (f in all || !Needed(g, f, ignoreExcluded, written))
    ensures var r := ExpandFile(g, f, ignoreExcluded, written); r.Written? && r.written <= all
    decreases |g.files.Keys - written|, 0
  {
    if Needed(g, f, ignoreExcluded, written) {
      Shrinks(g.files.Keys, written, f);
      PiecesAccepted(g, all, f, 0, written + {f});
    }
  }

  lemma {:induction false} PiecesAccepted(g: Graph, all: set<string>, f: string, i: nat, written: set<string>)
    requires Closed(g, all, all) && written <= all && f in all && i <= |g.files[f]|
    ensures var r := ExpandPieces(g, f, i, written); r.Written? && r.written <= all
    decreases |g.files.Keys - written|, |g.files[f]| - i + 1
  {
    if i < |g.files[f]| {
      match g.files[f][i]
      case Code =>
        PiecesAccepted(g, all, f, i + 1, written);
      case Include(h) =>
        assert Includes(g, f, h);
        FileAccepted(g, all, h, false, written);
        var first := ExpandFile(g, h, false, written);
        ShrinksMore(g.files.Keys, written, first.written);
        PiecesAccepted(g, all, f, i + 1, first.written);
    }
  }

  /** The file includes existing files only, none of them twice, and each of them is in the set or never written. */
  ghost predicate FitsIn(g: Graph, all: set<string>, f: string)
    requires f in g.files
  {
    && (forall i :: 0 <= i < |g.files[f]| && g.files[f][i].Include? ==>
          g.files[f][i].path in g.files && (g.files[f][i].path in all || g.files[f][i].path in g.always || g.files[f][i].path in g.excluded))
    && (forall i, j :: 0 <= i < j < |g.files[f]| && g.files[f][i].Include? && g.files[f][j].Include? ==>
          g.files[f][i].path != g.files[f][j].path)
  }

  ghost predicate SelfContained(g: Graph, all: set<string>) {
    forall f :: f in all ==> f in g.files && FitsIn(g, all, f)
  }

  ghost predicate CallFits(g: Graph, all: set<string>, call: (string, bool)) {
    call.0 in all || call.0 in g.always || (call.0 in g.excluded && !call.1)
  }

  lemma SelfContainedIff(g: Graph, all: set<string>)
    ensures SelfContained(g, all) <==> Closed(g, all, all)
  {
    forall f | f in all && f in g.files ensures FitsIn(g, all, f) <==> Acceptable(g, g.files[f]) && forall h :: Includes(g, f, h) ==> h in all || Hidden(g, h) {
      if FitsIn(g, all, f) {
        forall h | Includes(g, f, h) ensures h in all || Hidden(g, h) {
          var i :| 0 <= i < |g.files[f]| && g.files[f][i] == Include(h);
          assert g.files[f][i].path == h;
        }
      } else if Acceptable(g, g.files[f]) && forall h :: Includes(g, f, h) ==> h in all || Hidden(g, h) {
        forall i | 0 <= i < |g.files[f]| && g.files[f][i].Include? ensures g.files[f][i].path in all || Hidden(g, g.files[f][i].path) {
          assert g.files[f][i] == Include(g.files[f][i].path);
          assert Includes(g, f, g.files[f][i].path);
        }
      }
    }
  }

  lemma {:induction false} AllAccepted(g: Graph, all: set<string>, calls: seq<(string, bool)>, written: set<string>)
    requires Closed(g, all, all) && written <= all && forall c :: c in calls ==> CallFits(g, all, c)
    ensures ExpandAll(g, calls, written).Written? && ExpandAll(g, calls, written).written <= all
    decreases |calls|
  {
    if calls != [] {
      assert CallFits(g, all, calls[0]);
      FileAccepted(g, all, calls[0].0, calls[0].1, written);
      AllAccepted(g, all, calls[1..], ExpandFile(g, calls[0].0, calls[0].1, written).written);
    }
  }

  lemma {:induction false} CallsFit(g: Graph, calls: seq<(string, bool)>, written: set<string>)
    requires ExpandAll(g, calls, written).Written?
    ensures forall c :: c in calls ==> CallFits(g, ExpandAll(g, calls, written).written, c)
    decreases |calls|
  {
    if calls != [] {
      FileClosed(g, calls[0].0, calls[0].1, written);
      CallsFit(g, calls[1..], ExpandFile(g, calls[0].0, calls[0].1, written).written);
      assert calls == [calls[0]] + calls[1..];
    }
  }

  ghost predicate CanBeWritten(g: Graph, calls: seq<(string, bool)>, all: set<string>) {
    SelfContained(g, all) && forall c :: c in calls ==> CallFits(g, all, c)
  }

  /**
   The amalgamation is written, without an error, iff the files that it takes exist and include existing files, none of
   them twice.
   */
  lemma AcceptedIff(g: Graph, calls: seq<(string, bool)>)
    ensures ExpandAll(g, calls, {}).Written? <==> exists all :: CanBeWritten(g, calls, all)
  {
    if all :| CanBeWritten(g, calls, all) {
      SelfContainedIff(g, all);
      AllAccepted(g, all, calls, {});
    }
    if ExpandAll(g, calls, {}).Written? {
      WrittenLeast(g, calls, {});
    }
  }

  /** The files that are written are as few as can be: the least set that has what is asked for and what it includes. */
  lemma WrittenLeast(g: Graph, calls: seq<(string, bool)>, all: set<string>)
    requires ExpandAll(g, calls, {}).Written?
    ensures CanBeWritten(g, calls, ExpandAll(g, calls, {}).written)
    ensures CanBeWritten(g, calls, all) ==> ExpandAll(g, calls, {}).written <= all
  {
    var written := ExpandAll(g, calls, {}).written;
    AllClosed(g, calls, {});
    assert written - {} == written;
    SelfContainedIff(g, written);
    CallsFit(g, calls, {});
    if CanBeWritten(g, calls, all) {
      SelfContainedIff(g, all);
      AllAccepted(g, all, calls, {});
    }
  }

  // ---- Without bad cycles every directive is satisfied ----

  /** Each file is the one that the file before it is waiting for. */
  ghost predicate Chain(g: Graph, stack: seq<string>) {
    forall j :: 0 < j < |stack| ==> Includes(g, stack[j - 1], stack[j]) && !Hidden(g, stack[j])
  }

  /** A written file is complete or still being written. */
  ghost predicate Pending(before: seq<Token>, written: set<string>, stack: seq<string>) {
    forall h :: h in written ==> h in stack || End(h) in before
  }

  /** An accepted run that stays within `all`, on a graph without bad cycles. */
  ghost predicate Clean(g: Graph, all: set<string>) {
    Closed(g, all, all) && forall c :: !BadCycle(g, c)
  }

  /** A file does not include one that waits for it. */
  lemma NoBackEdge(g: Graph, all: set<string>, stack: seq<string>, h: string)
    requires Clean(g, all) && Chain(g, stack) && stack != [] && Includes(g, stack[|stack| - 1], h)
    requires h in all && !Hidden(g, h)
    ensures h !in stack
  {
    if h in stack {
      var j :| 0 <= j < |stack| && stack[j] == h;
      FileAccepted(g, all, h, false, {});
      assert BadCycle(g, stack[j..]);
    }
  }

  lemma PendingMore(before: seq<Token>, text: seq<Token>, written: set<string>, more: set<string>, stack: seq<string>)
    requires Pending(before, written, stack) && Completed(text, more - written)
    ensures Pending(before + text, more, stack)
  {
    forall h | h in more ensures h in stack || End(h) in before + text {
      if h !in written {
        assert h in more - written;
      }
    }
  }

  /** Between its marks the text of a file is satisfied if its pieces are. */
  lemma SatisfiedBody(g: Graph, before: seq<Token>, f: string, text: seq<Token>)
    requires Satisfied(g, before + [Start(f)], text)
    ensures Satisfied(g, before, [Start(f)] + text + [End(f)])
  {
    SatisfiedOne(g, before, Start(f));
    SatisfiedAppend(g, before, [Start(f)], text);
    SatisfiedOne(g, before + ([Start(f)] + text), End(f));
    SatisfiedAppend(g, before, [Start(f)] + text, [End(f)]);
  }

  lemma PendingPush(before: seq<Token>, written: set<string>, stack: seq<string>, f: string)
    requires Pending(before, written, stack)
    ensures Pending(before + [Start(f)], written + {f}, stack + [f])
  {
    forall h | h in written + {f} ensures h in stack + [f] || End(h) in before + [Start(f)] {
      assert f in stack + [f];
    }
  }

  lemma ChainPush(g: Graph, stack: seq<string>, f: string)
    requires Chain(g, stack) && (stack != [] ==> Includes(g, stack[|stack| - 1], f) && !Hidden(g, f))
    ensures Chain(g, stack + [f])
  {
  }

  lemma {:induction false} FileSatisfied(g: Graph, all: set<string>, f: string, ignoreExcluded: bool, written: set<string>,
                                         before: seq<Token>, stack: seq<string>)
    requires Clean(g, all) && ExpandFile(g, f, ignoreExcluded, written).Written?
    requires ExpandFile(g, f, ignoreExcluded, written).written <= all
    requires Chain(g, stack) && (stack == [] || (!ignoreExcluded && Includes(g, stack[|stack| - 1], f)))
    requires Pending(before, written, stack)
    ensures Satisfied(g, before, ExpandFile(g, f, ignoreExcluded, written).text)
    decreases |g.files.Keys - written|, 0
  {
    if Needed(g, f, ignoreExcluded, written) {
      Shrinks(g.files.Keys, written, f);
      PendingPush(before, written, stack, f);
      ChainPush(g, stack, f);
      PiecesSatisfied(g, all, f, 0, written + {f}, before + [Start(f)], stack + [f]);
      SatisfiedBody(g, before, f, ExpandPieces(g, f, 0, written + {f}).text);
    }
  }

  lemma IncludeSatisfied(g: Graph, all: set<string>, f: string, h: string, written: set<string>, before: seq<Token>, stack: seq<string>)
    requires Clean(g, all) && ExpandFile(g, h, false, written).Written? && ExpandFile(g, h, false, written).written <= all
    requires Chain(g, stack) && stack != [] && stack[|stack| - 1] == f && Includes(g, f, h)
    requires Pending(before, written, stack)
    requires Satisfied(g, before, ExpandFile(g, h, false, written).text)
    ensures var first := ExpandFile(g, h, false, written);
            && Pending(before + (first.text + [Directive(f, h)]), first.written, stack)
            && Satisfied(g, before, first.text + [Directive(f, h)])
  {
    var first := ExpandFile(g, h, false, written);
    FileCompletes(g, h, false, written);
    PendingMore(before, first.text, written, first.written, stack);
    FileClosed(g, h, false, written);
    if !Hidden(g, h) {
      NoBackEdge(g, all, stack, h);
    }
    SatisfiedOne(g, before + first.text, Directive(f, h));
    SatisfiedAppend(g, before, first.text, [Directive(f, h)]);
    assert before + (first.text + [Directive(f, h)]) == before + first.text + [Directive(f, h)];
  }

  lemma {:induction false} PiecesSatisfied(g: Graph, all: set<string>, f: string, i: nat, written: set<string>,
                                           before: seq<Token>, stack: seq<string>)
    requires Clean(g, all) && f in g.files && i <= |g.files[f]| && ExpandPieces(g, f, i, written).Written?
    requires ExpandPieces(g, f, i, written).written <= all
    requires Chain(g, stack) && stack != [] && stack[|stack| - 1] == f
    requires Pending(before, written, stack)
    ensures Satisfied(g, before, ExpandPieces(g, f, i, written).text)
    decreases |g.files.Keys - written|, |g.files[f]| - i + 1
  {
    if i < |g.files[f]| {
      match g.files[f][i]
      case Code =>
        SatisfiedOne(g, before, Text(f, i));
        PiecesSatisfied(g, all, f, i + 1, written, before + [Text(f, i)], stack);
        SatisfiedAppend(g, before, [Text(f, i)], ExpandPieces(g, f, i + 1, written).text);
      case Include(h) =>
        var first := ExpandFile(g, h, false, written);
        ShrinksMore(g.files.Keys, written, first.written);
        assert Includes(g, f, h);
        FileSatisfied(g, all, h, false, written, before, stack);
        IncludeSatisfied(g, all, f, h, written, before, stack);
        var head := first.text + [Directive(f, h)];
        PiecesSatisfied(g, all, f, i + 1, first.written, before + head, stack);
        SatisfiedAppend(g, before, head, ExpandPieces(g, f, i + 1, first.written).text);
    }
  }

  lemma {:induction false} AllSatisfied(g: Graph, all: set<string>, calls: seq<(string, bool)>, written: set<string>, before: seq<Token>)
    requires Clean(g, all) && ExpandAll(g, calls, written).Written? && ExpandAll(g, calls, written).written <= all
    requires Pending(before, written, [])
    ensures Satisfied(g, before, ExpandAll(g, calls, written).text)
    decreases |calls|
  {
    if calls != [] {
      var first := ExpandFile(g, calls[0].0, calls[0].1, written);
      FileSatisfied(g, all, calls[0].0, calls[0].1, written, before, []);
      FileCompletes(g, calls[0].0, calls[0].1, written);
      PendingMore(before, first.text, written, first.written, []);
      AllSatisfied(g, all, calls[1..], first.written, before + first.text);
      SatisfiedAppend(g, before, first.text, ExpandAll(g, calls[1..], first.written).text);
    }
  }

  // ---- Around a bad cycle some directive is not ----

  /** The directive stands before the end of the file that contains it. */
  ghost predicate Ordered(text: seq<Token>, f: string, h: string) {
    exists k, e :: 0 <= k < e < |text| && text[k] == Directive(f, h) && text[e] == End(f)
  }

  lemma OrderedAppend(a: seq<Token>, b: seq<Token>, f: string, h: string)
    requires Ordered(a, f, h) || Ordered(b, f, h)
    ensures Ordered(a + b, f, h)
  {
    if Ordered(a, f, h) {
      var k, e :| 0 <= k < e < |a| && a[k] == Directive(f, h) && a[e] == End(f);
      assert (a + b)[k] == Directive(f, h) && (a + b)[e] == End(f);
    } else {
      var k, e :| 0 <= k < e < |b| && b[k] == Directive(f, h) && b[e] == End(f);
      assert (a + b)[|a| + k] == Directive(f, h) && (a + b)[|a| + e] == End(f);
    }
  }

  lemma {:induction false} FileOrdered(g: Graph, f: string, ignoreExcluded: bool, written: set<string>, x: string, h: string)
    requires ExpandFile(g, f, ignoreExcluded, written).Written?
    requires x in ExpandFile(g, f, ignoreExcluded, written).written - written && Includes(g, x, h)
    ensures Ordered(ExpandFile(g, f, ignoreExcluded, written).text, x, h)
    decreases |g.files.Keys - written|, 0
  {
    Shrinks(g.files.Keys, written, f);
    var r := ExpandPieces(g, f, 0, written + {f});
    var all := [Start(f)] + r.text + [End(f)];
    if x == f {
      assert g.files[f][0..] == g.files[f];
      PiecesMention(g, f, 0, written + {f}, h);
      var k :| 0 <= k < |r.text| && r.text[k] == Directive(f, h);
      assert all[k + 1] == Directive(f, h) && all[|all| - 1] == End(f);
    } else {
      PiecesOrdered(g, f, 0, written + {f}, x, h);
      OrderedAppend([Start(f)], r.text, x, h);
      OrderedAppend([Start(f)] + r.text, [End(f)], x, h);
    }
  }

  lemma {:induction false} PiecesOrdered(g: Graph, f: string, i: nat, written: set<string>, x: string, h: string)
    requires f in g.files && i <= |g.files[f]| && ExpandPieces(g, f, i, written).Written?
    requires x in ExpandPieces(g, f, i, written).written - written && Includes(g, x, h)
    ensures Ordered(ExpandPieces(g, f, i, written).text, x, h)
    decreases |g.files.Keys - written|, |g.files[f]| - i + 1
  {
    match g.files[f][i]
    case Code =>
      PiecesOrdered(g, f, i + 1, written, x, h);
      OrderedAppend([Text(f, i)], ExpandPieces(g, f, i + 1, written).text, x, h);
    case Include(y) =>
      var first := ExpandFile(g, y, false, written);
      ShrinksMore(g.files.Keys, written, first.written);
      var rest := ExpandPieces(g, f, i + 1, first.written).text;
      var head := first.text + [Directive(f, y)];
      if x in first.written {
        FileOrdered(g, y, false, written, x, h);
        OrderedAppend(first.text, [Directive(f, y)], x, h);
      } else {
        PiecesOrdered(g, f, i + 1, first.written, x, h);
      }
      OrderedAppend(head, rest, x, h);
  }

  lemma {:induction false} PiecesMention(g: Graph, f: string, i: nat, written: set<string>, h: string)
    requires f in g.files && i <= |g.files[f]| && ExpandPieces(g, f, i, written).Written?
    requires Include(h) in g.files[f][i..]
    ensures Directive(f, h) in ExpandPieces(g, f, i, written).text
    decreases |g.files[f]| - i
  {
    assert g.files[f][i..] == [g.files[f][i]] + g.files[f][i + 1..];
    match g.files[f][i]
    case Code =>
      PiecesMention(g, f, i + 1, written, h);
    case Include(y) =>
      if y != h {
        PiecesMention(g, f, i + 1, ExpandFile(g, y, false, written).written, h);
      }
  }

  lemma {:induction false} OnlyOnce(text: seq<Token>, t: Token, a: nat, b: nat)
    requires Occurrences(text, t) <= 1 && a < |text| && b < |text| && text[a] == text[b] == t
    ensures a == b
  {
    if a != b {
      var lo, hi := if a < b then a else b, if a < b then b else a;
      var x, y := text[..hi], text[hi..];
      assert text == x + y && x[lo] == t && y[0] == t;
      OccursIn(x, t);
      OccursIn(y, t);
      OccurrencesAppend(x, y, t);
    }
  }

  /** The files of a bad cycle are all written. */
  lemma CycleWritten(g: Graph, c: seq<string>, r: Output, i: nat)
    requires BadCycle(g, c) && r == ExpandFile(g, c[0], false, {}) && i < |c|
    ensures c[i] in r.written
  {
    FileClosed(g, c[0], false, {});
    assert r.written - {} == r.written;
    CycleWithin(g, c, r.written, i);
  }

  lemma {:induction false} CycleWithin(g: Graph, c: seq<string>, all: set<string>, i: nat)
    requires BadCycle(g, c) && Closed(g, all, all) && c[0] in all && i < |c|
    ensures c[i] in all
  {
    if i > 0 {
      CycleWithin(g, c, all, i - 1);
      CycleInclude(g, c, i - 1);
      ClosedUnder(g, all, c[i - 1], c[i]);
    }
  }

  lemma CycleInclude(g: Graph, c: seq<string>, i: nat)
    requires BadCycle(g, c) && i < |c|
    ensures Includes(g, c[i], if i < |c| - 1 then c[i + 1] else c[0]) && !Hidden(g, NextOn(c, i))
  {
  }

  lemma ClosedUnder(g: Graph, all: set<string>, f: string, h: string)
    requires Closed(g, all, all) && f in all && Includes(g, f, h) && !Hidden(g, h)
    ensures h in all
  {
  }

  lemma SatisfiedWhole(g: Graph, text: seq<Token>, k: nat)
    requires Satisfied(g, [], text) && k < |text|
    ensures SatisfiedAt(g, text, k)
  {
    assert [] + text == text;
    assert SatisfiedAt(g, [] + text, k);
  }

  /** Each file of the circle ends once, and asks for the next one before. */
  ghost predicate OnCircle(g: Graph, text: seq<Token>, c: seq<string>) {
    forall i :: 0 <= i < |c| ==> AsksFor(g, text, c[i], NextOn(c, i))
  }

  ghost predicate AsksFor(g: Graph, text: seq<Token>, f: string, h: string) {
    Ordered(text, f, h) && !Hidden(g, h) && Occurrences(text, End(f)) == 1
  }

  lemma NextAsks(g: Graph, text: seq<Token>, c: seq<string>, i: nat)
    requires OnCircle(g, text, c) && i < |c|
    ensures AsksFor(g, text, c[i], if i < |c| - 1 then c[i + 1] else c[0])
  {
    assert AsksFor(g, text, c[i], NextOn(c, i));
  }

  lemma CycleOnCircle(g: Graph, c: seq<string>)
    requires BadCycle(g, c)
    ensures OnCircle(g, ExpandFile(g, c[0], false, {}).text, c)
  {
    var r := ExpandFile(g, c[0], false, {});
    forall i | 0 <= i < |c| ensures AsksFor(g, r.text, c[i], NextOn(c, i)) {
      CycleWritten(g, c, r, i);
      CycleInclude(g, c, i);
      assert r.written - {} == r.written;
      FileOrdered(g, c[0], false, {}, c[i], NextOn(c, i));
      FileOnce(g, c[0], false, {}, End(c[i]));
    }
  }

  ghost predicate EndsBy(text: seq<Token>, f: string, e: int) {
    exists e' :: 0 <= e' < |text| && e' <= e && text[e'] == End(f)
  }

  /** Before every end of `f` there is an end of `h`. */
  ghost predicate Precedes(text: seq<Token>, h: string, f: string) {
    forall e :: 0 <= e < |text| && text[e] == End(f) ==> EndsBy(text, h, e - 1)
  }

  /** If the directives are satisfied, an included file ends before the file that includes it. */
  lemma EndsBefore(g: Graph, text: seq<Token>, f: string, h: string)
    requires AsksFor(g, text, f, h) && Satisfied(g, [], text)
    ensures Precedes(text, h, f)
  {
    var k, e0 :| 0 <= k < e0 < |text| && text[k] == Directive(f, h) && text[e0] == End(f);
    forall e | 0 <= e < |text| && text[e] == End(f) ensures EndsBy(text, h, e - 1) {
      OnlyOnce(text, End(f), e, e0);
      SatisfiedWhole(g, text, k);
      var e' :| 0 <= e' < k && text[..k][e'] == End(h);
      assert text[e'] == End(h);
    }
  }

  /** Going along a row of files that each precede the one before, the files end earlier and earlier. */
  lemma {:induction false} EndsDescend(text: seq<Token>, c: seq<string>, i: nat, e: int)
    requires i < |c| && EndsBy(text, c[0], e)
    requires forall j :: 0 <= j < |c| - 1 ==> Precedes(text, c[j + 1], c[j])
    ensures EndsBy(text, c[i], e)
  {
    if i > 0 {
      EndsDescend(text, c, i - 1, e);
      var k := i - 1;
      assert Precedes(text, c[k + 1], c[k]);
    }
  }

  lemma CircleUnsatisfied(g: Graph, text: seq<Token>, c: seq<string>)
    requires OnCircle(g, text, c) && c != []
    ensures !Satisfied(g, [], text)
  {
    if Satisfied(g, [], text) {
      forall j | 0 <= j < |c| - 1 ensures Precedes(text, c[j + 1], c[j]) {
        NextAsks(g, text, c, j);
        EndsBefore(g, text, c[j], c[j + 1]);
      }
      NextAsks(g, text, c, |c| - 1);
      EndsBefore(g, text, c[|c| - 1], c[0]);
      NextAsks(g, text, c, 0);
      OccursIn(text, End(c[0]));
      var e: nat :| e < |text| && text[e] == End(c[0]);
      assert EndsBy(text, c[0], e);
      EndsDescend(text, c, |c| - 1, e);
      OnceOnly(text, c[0], c[|c| - 1], e);
    }
  }

  lemma NoEarlierEnd(text: seq<Token>, f: string, e: nat, before: int)
    requires Occurrences(text, End(f)) == 1 && e < |text| && text[e] == End(f) && before < e
    ensures !EndsBy(text, f, before)
  {
    if EndsBy(text, f, before) {
      var first :| 0 <= first < |text| && first <= before && text[first] == End(f);
      OnlyOnce(text, End(f), first, e);
    }
  }

  /** A file that ends once does not precede one that ends before it. */
  lemma OnceOnly(text: seq<Token>, f: string, h: string, e: nat)
    requires Occurrences(text, End(f)) == 1 && e < |text| && text[e] == End(f) && EndsBy(text, h, e)
    ensures !Precedes(text, f, h)
  {
    var last :| 0 <= last < |text| && last <= e && text[last] == End(h);
    NoEarlierEnd(text, f, e, last - 1);
  }

  lemma CycleUnsatisfied(g: Graph, c: seq<string>)
    requires BadCycle(g, c)
    ensures !Satisfied(g, [], ExpandFile(g, c[0], false, {}).text)
  {
    CycleOnCircle(g, c);
    CircleUnsatisfied(g, ExpandFile(g, c[0], false, {}).text, c);
  }

  // ---- Exactly when ----

  lemma ExpandOne(g: Graph, f: string)
    requires ExpandFile(g, f, false, {}).Written?
    ensures ExpandAll(g, [(f, false)], {}) == ExpandFile(g, f, false, {})
  {
    var r := ExpandFile(g, f, false, {});
    assert [(f, false)][1..] == [];
    assert r.text + [] == r.text;
  }

  /**
   Every directive of every accepted sequence of calls comes after the whole body that it asks for, if and only
   if no files outside the excluded ones that can be expanded include each other in a circle. A circle through
   an excluded file does no harm, for nothing is asked for at its directive.
   */
  lemma DirectivesSatisfiedIff(g: Graph)
    ensures AlwaysSatisfied(g) <==> forall c :: !BadCycle(g, c)
  {
    if forall c :: !BadCycle(g, c) {
      forall calls, k: nat | ExpandAll(g, calls, {}).Written? && k < |ExpandAll(g, calls, {}).text|
        ensures SatisfiedAt(g, ExpandAll(g, calls, {}).text, k)
      {
        DirectivesSatisfied(g, calls, k);
      }
    } else {
      var c :| BadCycle(g, c);
      CycleUnsatisfied(g, c);
      ExpandOne(g, c[0]);
      var text := ExpandFile(g, c[0], false, {}).text;
      assert [] + text == text;
      var k: nat :| k < |text| && !SatisfiedAt(g, text, k);
      assert !SatisfiedAt(g, ExpandAll(g, [(c[0], false)], {}).text, k);
    }
  }

  lemma DirectivesSatisfied(g: Graph, calls: seq<(string, bool)>, k: nat)
    requires (forall c :: !BadCycle(g, c)) && ExpandAll(g, calls, {}).Written? && k < |ExpandAll(g, calls, {}).text|
    ensures SatisfiedAt(g, ExpandAll(g, calls, {}).text, k)
  {
    var r := ExpandAll(g, calls, {});
    AllClosed(g, calls, {});
    assert r.written - {} == r.written;
    AllSatisfied(g, r.written, calls, {}, []);
    SatisfiedWhole(g, r.text, k);
  }

  ghost predicate Mutual(g: Graph) {
    g.files == map["a" := [Include("b")], "b" := [Include("a")]] && g.always == {}
  }

  lemma MutualCycle(g: Graph, c: seq<string>)
    requires Mutual(g) && BadCycle(g, c)
    ensures "a" !in g.excluded && "b" !in g.excluded
  {
    var next := NextOn(c, 0);
    assert Includes(g, c[0], next) && !Hidden(g, c[0]);
    assert !Hidden(g, next) by {
      if |c| > 1 {
        assert next == c[1];
      }
    }
    var pieces := g.files[c[0]];
    assert pieces[0] == Include(next);
  }

  /** Two files that include each other: a directive stands before the body it asks for, unless one is excluded. */
  lemma MutualIncludes(g: Graph)
    requires Mutual(g)
    ensures AlwaysSatisfied(g) <==> "a" in g.excluded || "b" in g.excluded
  {
    DirectivesSatisfiedIff(g);
    if "a" !in g.excluded && "b" !in g.excluded {
      var c := ["a", "b"];
      assert g.files["a"][0] == Include("b") && g.files["b"][0] == Include("a");
      assert Closed(g, {"a", "b"}, {"a", "b"});
      FileAccepted(g, {"a", "b"}, "a", false, {});
      assert NextOn(c, 0) == "b" && NextOn(c, 1) == "a";
      assert BadCycle(g, c);
    } else {
      forall c ensures !BadCycle(g, c) {
        if BadCycle(g, c) {
          MutualCycle(g, c);
        }
      }
    }
  }
}

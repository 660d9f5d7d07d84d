/** Where the lines of the amalgamation stand: every file's in their order, and an included body right before its directive. */
module IncludeOrder {
  import opened Options
  import opened IncludeExpansion

  // ---- The lines of one file ----

  /** What a text has of one file. */
  function Of(text: seq<Token>, f: string): seq<Token> {
    if text == [] then [] else (if text[0].file == f then [text[0]] else []) + Of(text[1..], f)
  }

  lemma {:induction false} OfAppend(a: seq<Token>, b: seq<Token>, f: string)
    ensures Of(a + b, f) == Of(a, f) + Of(b, f)
  {
    if a == [] {
      assert a + b == b;
    } else {
      assert (a + b)[1..] == a[1..] + b;
      OfAppend(a[1..], b, f);
    }
  }

  lemma OfOne(t: Token, f: string)
    ensures Of([t], f) == if t.file == f then [t] else []
  {
    assert [t][1..] == [];
  }

  /** The pieces of a file from the `i`-th on. */
  function Lines(pieces: seq<Piece>, f: string, i: nat): seq<Token>
    requires i <= |pieces|
    decreases |pieces| - i
  {
    if i == |pieces| then []
    else [match pieces[i] case Code => Text(f, i) case Include(h) => Directive(f, h)] + Lines(pieces, f, i + 1)
  }

  /** A file that was written, from its beginning to its end. */
  function Body(g: Graph, f: string): seq<Token> {
    if f in g.files then [Start(f)] + Lines(g.files[f], f, 0) + [End(f)] else []
  }

  function BodyIf(g: Graph, files: set<string>, f: string): seq<Token> {
    if f in files then Body(g, f) else []
  }

  lemma TwoSteps(g: Graph, a: set<string>, b: set<string>, c: set<string>, f: string)
    requires a <= b <= c
    ensures BodyIf(g, b - a, f) + BodyIf(g, c - b, f) == BodyIf(g, c - a, f)
  {
  }

  lemma {:induction false} FileOf(g: Graph, h: string, ignoreExcluded: bool, written: set<string>, f: string)
    requires ExpandFile(g, h, ignoreExcluded, written).Written?
    ensures var r := ExpandFile(g, h, ignoreExcluded, written); Of(r.text, f) == BodyIf(g, r.written - written, f)
    decreases |g.files.Keys - written|, 0
  {
    if Needed(g, h, ignoreExcluded, written) {
      Shrinks(g.files.Keys, written, h);
      var r := ExpandPieces(g, h, 0, written + {h});
      PiecesOf(g, h, 0, written + {h}, f);
      AroundOf(Start(h), r.text, End(h), f);
      assert h in r.written - written;
    }
  }

  lemma AroundOf(x: Token, text: seq<Token>, y: Token, f: string)
    requires x.file == y.file
    ensures Of([x] + text + [y], f) == if x.file == f then [x] + Of(text, f) + [y] else Of(text, f)
  {
    OfAppend([x] + text, [y], f);
    OfAppend([x], text, f);
    OfOne(x, f);
    OfOne(y, f);
  }

  /** A file under way has its remaining lines; every other file has all or nothing. */
  lemma {:induction false} PiecesOf(g: Graph, h: string, i: nat, written: set<string>, f: string)
    requires h in g.files && h in written && i <= |g.files[h]| && ExpandPieces(g, h, i, written).Written?
    ensures var r := ExpandPieces(g, h, i, written);
            Of(r.text, f) == if f == h then Lines(g.files[h], h, i) else BodyIf(g, r.written - written, f)
    decreases |g.files.Keys - written|, |g.files[h]| - i + 1
  {
    if i < |g.files[h]| {
      match g.files[h][i]
      case Code =>
        var rest := ExpandPieces(g, h, i + 1, written);
        PiecesOf(g, h, i + 1, written, f);
        OfAppend([Text(h, i)], rest.text, f);
        OfOne(Text(h, i), f);
      case Include(k) =>
        var first := ExpandFile(g, k, false, written);
        ShrinksMore(g.files.Keys, written, first.written);
        var rest := ExpandPieces(g, h, i + 1, first.written);
        FileOf(g, k, false, written, f);
        PiecesOf(g, h, i + 1, first.written, f);
        OfAppend(first.text + [Directive(h, k)], rest.text, f);
        OfAppend(first.text, [Directive(h, k)], f);
        OfOne(Directive(h, k), f);
        TwoSteps(g, written, first.written, rest.written, f);
    }
  }

  lemma {:induction false} AllOf(g: Graph, calls: seq<(string, bool)>, written: set<string>, f: string)
    requires ExpandAll(g, calls, written).Written?
    ensures var r := ExpandAll(g, calls, written); Of(r.text, f) == BodyIf(g, r.written - written, f)
    decreases |calls|
  {
    if calls != [] {
      var first := ExpandFile(g, calls[0].0, calls[0].1, written);
      var rest := ExpandAll(g, calls[1..], first.written);
      FileOf(g, calls[0].0, calls[0].1, written, f);
      AllOf(g, calls[1..], first.written, f);
      OfAppend(first.text, rest.text, f);
      TwoSteps(g, written, first.written, rest.written, f);
    }
  }

  /** The amalgamation has of every written file its beginning, its code and directives in their order, and its end. */
  lemma LinesInOrder(g: Graph, calls: seq<(string, bool)>, f: string)
    requires ExpandAll(g, calls, {}).Written?
    ensures var r := ExpandAll(g, calls, {}); Of(r.text, f) == if f in r.written then Body(g, f) else []
  {
    AllOf(g, calls, {}, f);
  }

  // ---- How files are nested ----

  /** The files that are open, innermost last, and the file that has just been closed, if its directive is due. */
  datatype Place = Place(open: seq<string>, due: Option<string>)

  predicate IsInnermost(open: seq<string>, f: string) {
    open != [] && open[|open| - 1] == f
  }

  /** One more line; a file closes only if it is innermost, and its includer goes on with the directive that included it. */
  function Next(t: Token, at: Place): Option<Place> {
    match t
    case Start(f) => if at.due.None? then Some(Place(at.open + [f], None)) else None
    case End(f) =>
      if at.due.None? && IsInnermost(at.open, f) then
        Some(Place(at.open[..|at.open| - 1], if |at.open| > 1 then Some(f) else None))
      else None
    case Text(f, _) => if at.due.None? && IsInnermost(at.open, f) then Some(at) else None
    case Directive(f, h) =>
      if IsInnermost(at.open, f) && (at.due.Some? ==> at.due.value == h) then Some(Place(at.open, None)) else None
  }

  function Through(text: seq<Token>, at: Place): Option<Place>
    decreases |text|
  {
    if text == [] then Some(at)
    else match Next(text[0], at) case None => None case Some(next) => Through(text[1..], next)
  }

  lemma {:induction false} ThroughBoth(a: seq<Token>, b: seq<Token>, at: Place, mid: Place)
    requires Through(a, at) == Some(mid)
    ensures Through(a + b, at) == Through(b, mid)
    decreases |a|
  {
    if a == [] {
      assert a + b == b;
    } else {
      assert (a + b)[1..] == a[1..] + b;
      ThroughBoth(a[1..], b, Next(a[0], at).value, mid);
    }
  }

  lemma ThroughOne(t: Token, at: Place)
    ensures Through([t], at) == Next(t, at)
  {
    assert [t][1..] == [];
  }

  function AfterFile(open: seq<string>, text: seq<Token>, f: string): Place {
    Place(open, if text != [] && open != [] then Some(f) else None)
  }

  lemma {:induction false} FileNested(g: Graph, f: string, ignoreExcluded: bool, written: set<string>, open: seq<string>)
    requires ExpandFile(g, f, ignoreExcluded, written).Written?
    ensures var text := ExpandFile(g, f, ignoreExcluded, written).text; Through(text, Place(open, None)) == Some(AfterFile(open, text, f))
    decreases |g.files.Keys - written|, 0
  {
    if Needed(g, f, ignoreExcluded, written) {
      Shrinks(g.files.Keys, written, f);
      var text := ExpandPieces(g, f, 0, written + {f}).text;
      PiecesNested(g, f, 0, written + {f}, open + [f]);
      AroundNested(open, f, text);
    }
  }

  lemma AroundNested(open: seq<string>, f: string, text: seq<Token>)
    requires Through(text, Place(open + [f], None)) == Some(Place(open + [f], None))
    ensures Through([Start(f)] + text + [End(f)], Place(open, None)) == Some(AfterFile(open, [Start(f)] + text + [End(f)], f))
  {
    var inside := Place(open + [f], None);
    ThroughOne(Start(f), Place(open, None));
    ThroughBoth([Start(f)], text, Place(open, None), inside);
    ThroughBoth([Start(f)] + text, [End(f)], Place(open, None), inside);
    ThroughOne(End(f), inside);
    assert (open + [f])[..|open|] == open;
  }

  lemma {:induction false} PiecesNested(g: Graph, f: string, i: nat, written: set<string>, open: seq<string>)
    requires f in g.files && i <= |g.files[f]| && IsInnermost(open, f) && ExpandPieces(g, f, i, written).Written?
    ensures Through(ExpandPieces(g, f, i, written).text, Place(open, None)) == Some(Place(open, None))
    decreases |g.files.Keys - written|, |g.files[f]| - i + 1
  {
    if i < |g.files[f]| {
      match g.files[f][i]
      case Code =>
        var rest := ExpandPieces(g, f, i + 1, written);
        PiecesNested(g, f, i + 1, written, open);
        ThroughOne(Text(f, i), Place(open, None));
        ThroughBoth([Text(f, i)], rest.text, Place(open, None), Place(open, None));
      case Include(h) =>
        var first := ExpandFile(g, h, false, written);
        ShrinksMore(g.files.Keys, written, first.written);
        var rest := ExpandPieces(g, f, i + 1, first.written);
        FileNested(g, h, false, written, open);
        PiecesNested(g, f, i + 1, first.written, open);
        var after := AfterFile(open, first.text, h);
        ThroughOne(Directive(f, h), after);
        ThroughBoth(first.text, [Directive(f, h)], Place(open, None), after);
        ThroughBoth(first.text + [Directive(f, h)], rest.text, Place(open, None), Place(open, None));
    }
  }

  lemma {:induction false} AllNested(g: Graph, calls: seq<(string, bool)>, written: set<string>)
    requires ExpandAll(g, calls, written).Written?
    ensures Through(ExpandAll(g, calls, written).text, Place([], None)) == Some(Place([], None))
    decreases |calls|
  {
    if calls != [] {
      var first := ExpandFile(g, calls[0].0, calls[0].1, written);
      var rest := ExpandAll(g, calls[1..], first.written);
      FileNested(g, calls[0].0, calls[0].1, written, []);
      AllNested(g, calls[1..], first.written);
      ThroughBoth(first.text, rest.text, Place([], None), Place([], None));
    }
  }

  /**
   Files are properly nested: every line stands in its own file, between the beginning and the end of it and of no file
   opened since, and a file that was included ends right before the directive that included it.
   */
  lemma WellNested(g: Graph, calls: seq<(string, bool)>)
    requires ExpandAll(g, calls, {}).Written?
    ensures Through(ExpandAll(g, calls, {}).text, Place([], None)) == Some(Place([], None))
  {
    AllNested(g, calls, {});
  }
}

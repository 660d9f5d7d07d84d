/**
 When the two scanners return the same parts: exactly if they agree, at every AND of the text, on whether it stands
 outside quotes and parentheses.
 */
module ScannerLevels {
  import opened Scanners

  // ---- Outside quotes and parentheses ----

  /** What `split_and` makes of a character that is not escaped and begins no separator. */
  function Mode1(mode: Mode, ch: char): Mode {
    if mode.Quoted? then (if ch == mode.quote then Plain else mode)
    else if ch == '\'' || ch == '\"' then Quoted(ch)
    else Plain
  }

  function Depth1(mode: Mode, depth: int, ch: char): int {
    if mode.Quoted? then depth else if ch == '(' then depth + 1 else if ch == ')' then depth - 1 else depth
  }

  predicate Escapes(text: string, i: nat, mode: Mode) {
    mode.Quoted? && i + 1 < |text| && text[i] == '\\'
  }

  /** Read from `i` on, `split_and` is at the top level at `end`. */
  predicate Top1(text: string, i: nat, end: nat, mode: Mode, depth: int)
    requires end <= |text|
    decreases if i < end then end - i else 0
  {
    if i >= end then i == end && mode == Plain && depth == 0
    else if Escapes(text, i, mode) then Top1(text, i + 2, end, mode, depth)
    else Top1(text, i + 1, end, Mode1(mode, text[i]), Depth1(mode, depth, text[i]))
  }

  /** What `_split_top_level` makes of a character. */
  predicate Toggles(text: string, i: nat)
    requires i < |text|
  {
    text[i] == '\'' && (i == 0 || text[i - 1] != '\\')
  }

  function Quoted2(text: string, i: nat, quoted: bool): bool
    requires i < |text|
  {
    if Toggles(text, i) then !quoted else quoted
  }

  function Depth2(text: string, i: nat, quoted: bool, depth: nat): nat
    requires i < |text|
  {
    if Toggles(text, i) || quoted then depth
    else if text[i] == '(' then depth + 1 else if text[i] == ')' && depth > 0 then depth - 1 else depth
  }

  /** Read from `i` on, `_split_top_level` is at the top level at `end`. */
  predicate Top2(text: string, i: nat, end: nat, quoted: bool, depth: nat)
    requires end <= |text|
    decreases if i < end then end - i else 0
  {
    if i >= end then i == end && !quoted && depth == 0
    else Top2(text, i + 1, end, Quoted2(text, i, quoted), Depth2(text, i, quoted, depth))
  }

  /** An AND that one of the two takes for a separator at the top level and the other does not. */
  predicate Apart(text: string, i: nat, e: nat, mode: Mode, depth: int, quoted: bool, level: nat) {
    i <= e < |text| && AndAt(text, e) && Top1(text, i, e, mode, depth) != Top2(text, i, e, quoted, level)
  }

  predicate Together(text: string, i: nat, mode: Mode, depth: int, quoted: bool, level: nat) {
    forall e :: i <= e < |text| ==> !Apart(text, i, e, mode, depth, quoted, level)
  }

  // ---- One step of each ----

  lemma Step1(text: string, i: nat, mode: Mode, depth: int, part: string)
    requires i < |text| && !Escapes(text, i, mode) && !(mode == Plain && depth == 0 && AndAt(text, i))
    ensures Split(text, i, mode, depth, part) ==
            Split(text, i + 1, Mode1(mode, text[i]), Depth1(mode, depth, text[i]), part + [text[i]])
  {
  }

  lemma Step2(text: string, i: nat, quoted: bool, level: nat, part: string)
    requires i < |text| && !(!quoted && level == 0 && AndAt(text, i))
    ensures SplitTop(text, i, quoted, level, part) ==
            SplitTop(text, i + 1, Quoted2(text, i, quoted), Depth2(text, i, quoted, level), part + [text[i]])
  {
  }

  lemma Cut1(text: string, i: nat, part: string)
    requires AndAt(text, i)
    ensures NonEmpty(Split(text, i, Plain, 0, part)) == Flush(part) + NonEmpty(Split(text, i + 5, Plain, 0, []))
  {
    NonEmptyCons(Strip(part), Split(text, i + 5, Plain, 0, []));
  }

  lemma Cut2(text: string, i: nat, part: string)
    requires AndAt(text, i)
    ensures SplitTop(text, i, false, 0, part) == Flush(part) + SplitTop(text, i + 5, false, 0, [])
  {
  }

  /** In the letters of an AND nothing opens or closes. */
  lemma SkipTops(text: string, i: nat, e: nat)
    requires AndAt(text, i) && i + 4 <= e <= |text|
    ensures Top1(text, i, e, Plain, 0) == Top1(text, i + 4, e, Plain, 0)
    ensures Top2(text, i, e, false, 0) == Top2(text, i + 4, e, false, 0)
  {
    assert Top1(text, i + 2, e, Plain, 0) == Top1(text, i + 3, e, Plain, 0) == Top1(text, i + 4, e, Plain, 0);
    assert Top1(text, i, e, Plain, 0) == Top1(text, i + 1, e, Plain, 0) == Top1(text, i + 2, e, Plain, 0);
    assert Top2(text, i + 2, e, false, 0) == Top2(text, i + 3, e, false, 0) == Top2(text, i + 4, e, false, 0);
    assert Top2(text, i, e, false, 0) == Top2(text, i + 1, e, false, 0) == Top2(text, i + 2, e, false, 0);
  }

  /** After a common separator both begin anew. */
  lemma ApartAfterCut(text: string, i: nat, e: nat)
    requires AndAt(text, i) && i < e
    ensures Apart(text, i, e, Plain, 0, false, 0) <==> i + 5 <= e && Apart(text, i + 5, e, Plain, 0, false, 0)
  {
    if i + 4 <= e < |text| {
      SkipTops(text, i, e);
      if e > i + 4 {
        assert Top1(text, i + 4, e, Plain, 0) == Top1(text, i + 5, e, Plain, 0);
        assert Top2(text, i + 4, e, false, 0) == Top2(text, i + 5, e, false, 0);
      }
    }
  }

  lemma ApartNext(text: string, i: nat, e: nat, mode: Mode, depth: int, quoted: bool, level: nat)
    requires i < e && i < |text| && !Escapes(text, i, mode)
    ensures Apart(text, i, e, mode, depth, quoted, level) <==>
            Apart(text, i + 1, e, Mode1(mode, text[i]), Depth1(mode, depth, text[i]),
                  Quoted2(text, i, quoted), Depth2(text, i, quoted, level))
  {
  }

  /** A pair that only one of them takes for an escape. */
  lemma ApartPair(text: string, i: nat, e: nat, mode: Mode, depth: int, quoted: bool, level: nat)
    requires i + 2 <= e && Escapes(text, i, mode)
    ensures Apart(text, i, e, mode, depth, quoted, level) <==>
            Apart(text, i + 2, e, mode, depth, quoted, Depth2(text, i + 1, quoted, level))
  {
    if e < |text| {
      assert Top2(text, i, e, quoted, level) == Top2(text, i + 1, e, quoted, level) ==
             Top2(text, i + 2, e, quoted, Depth2(text, i + 1, quoted, level));
    }
  }

  lemma PairApart(text: string, i: nat, mode: Mode, depth: int, quoted: bool, level: nat)
    requires Escapes(text, i, mode)
    ensures Apart(text, i, i + 1, mode, depth, quoted, level) <==> !quoted && level == 0 && AndAt(text, i + 1)
  {
    assert Quoted2(text, i, quoted) == quoted && Depth2(text, i, quoted, level) == level;
    assert Top2(text, i, i + 1, quoted, level) == Top2(text, i + 1, i + 1, quoted, level);
    assert !Top1(text, i + 2, i + 1, mode, depth);
  }

  lemma PairStep(text: string, i: nat, mode: Mode, depth: int, quoted: bool, level: nat, part: string)
    requires Escapes(text, i, mode) && !(!quoted && level == 0 && AndAt(text, i + 1))
    ensures Split(text, i, mode, depth, part) == Split(text, i + 2, mode, depth, part + [text[i], text[i + 1]])
    ensures SplitTop(text, i, quoted, level, part) ==
            SplitTop(text, i + 2, quoted, Depth2(text, i + 1, quoted, level), part + [text[i], text[i + 1]])
  {
    Step2(text, i, quoted, level, part);
    Step2(text, i + 1, quoted, level, part + [text[i]]);
    assert part + [text[i]] + [text[i + 1]] == part + [text[i], text[i + 1]];
  }

  // ---- Together they return the same ----

  lemma {:induction false} SameParts(text: string, i: nat, mode: Mode, depth: int, quoted: bool, level: nat, part: string)
    requires i <= |text| && Together(text, i, mode, depth, quoted, level)
    ensures NonEmpty(Split(text, i, mode, depth, part)) == SplitTop(text, i, quoted, level, part)
    decreases |text| - i
  {
    if i == |text| {
      if part == [] {
        assert Split(text, i, mode, depth, part) == [];
      } else {
        NonEmptyOne(Strip(part));
      }
    } else if Escapes(text, i, mode) {
      PairApart(text, i, mode, depth, quoted, level);
      assert !Apart(text, i, i + 1, mode, depth, quoted, level);
      PairStep(text, i, mode, depth, quoted, level, part);
      var (k, l) := (i + 2, Depth2(text, i + 1, quoted, level));
      forall e | k <= e < |text| ensures !Apart(text, k, e, mode, depth, quoted, l) {
        ApartPair(text, i, e, mode, depth, quoted, level);
      }
      SameParts(text, k, mode, depth, quoted, l, part + [text[i], text[i + 1]]);
    } else {
      assert !Apart(text, i, i, mode, depth, quoted, level);
      if AndAt(text, i) && mode == Plain && depth == 0 {
        Cut1(text, i, part);
        Cut2(text, i, part);
        var k := i + 5;
        forall e | k <= e < |text| ensures !Apart(text, k, e, Plain, 0, false, 0) {
          ApartAfterCut(text, i, e);
        }
        SameParts(text, k, Plain, 0, false, 0, []);
      } else {
        Step1(text, i, mode, depth, part);
        Step2(text, i, quoted, level, part);
        var (k, m, d, q, l) := (i + 1, Mode1(mode, text[i]), Depth1(mode, depth, text[i]), Quoted2(text, i, quoted), Depth2(text, i, quoted, level));
        forall e | k <= e < |text| ensures !Apart(text, k, e, m, d, q, l) {
          ApartNext(text, i, e, mode, depth, quoted, level);
        }
        SameParts(text, k, m, d, q, l, part + [text[i]]);
      }
    }
  }

  // ---- Trimming ----

  predicate Blank(p: string) {
    Strip(p) == []
  }

  lemma {:induction false} TrimLeftSnoc(p: string, c: char)
    ensures TrimLeft(p + [c]) == if TrimLeft(p) == [] then TrimLeft([c]) else TrimLeft(p) + [c]
  {
    if p == [] {
      assert p + [c] == [c];
    } else if IsSpace(p[0]) {
      assert (p + [c])[1..] == p[1..] + [c];
      TrimLeftSnoc(p[1..], c);
    }
  }

  lemma {:induction false} TrimLeftFirst(p: string)
    ensures TrimLeft(p) != [] ==> !IsSpace(TrimLeft(p)[0])
  {
    if p != [] && IsSpace(p[0]) {
      TrimLeftFirst(p[1..]);
    }
  }

  lemma {:induction false} TrimRightSize(q: string)
    ensures |TrimRight(q)| <= |q| && (q != [] && !IsSpace(q[0]) ==> TrimRight(q) != [])
  {
    if q != [] && IsSpace(q[|q| - 1]) {
      TrimRightSize(q[..|q| - 1]);
    }
  }

  lemma TrimRightSnoc(q: string, c: char)
    ensures TrimRight(q + [c]) == if IsSpace(c) then TrimRight(q) else q + [c]
  {
    assert (q + [c])[..|q|] == q;
  }

  /** One more character: a space leaves the part as it is, anything else makes it longer. */
  lemma StripSnoc(p: string, c: char)
    ensures IsSpace(c) ==> Strip(p + [c]) == Strip(p)
    ensures !IsSpace(c) ==> |Strip(p + [c])| > |Strip(p)|
  {
    TrimLeftSnoc(p, c);
    TrimLeftFirst(p);
    TrimRightSize(TrimLeft(p));
    assert [c][1..] == [];
    if TrimLeft(p) != [] {
      TrimRightSnoc(TrimLeft(p), c);
    } else {
      TrimRightSnoc([], c);
      assert [] + [c] == [c];
    }
  }

  lemma StripMore(p: string, c: char)
    ensures |Strip(p + [c])| >= |Strip(p)|
  {
    StripSnoc(p, c);
  }

  // ---- The first part ----

  ghost predicate FirstAtLeast(parts: seq<string>, n: nat) {
    parts != [] && |parts[0]| >= n
  }

  lemma {:induction false} First1(text: string, i: nat, mode: Mode, depth: int, part: string)
    requires i <= |text| && !Blank(part)
    ensures FirstAtLeast(NonEmpty(Split(text, i, mode, depth, part)), |Strip(part)|)
    decreases |text| - i
  {
    if i == |text| {
      NonEmptyOne(Strip(part));
    } else if Escapes(text, i, mode) {
      StripMore(part, text[i]);
      StripMore(part + [text[i]], text[i + 1]);
      assert part + [text[i]] + [text[i + 1]] == part + [text[i], text[i + 1]];
      First1(text, i + 2, mode, depth, part + [text[i], text[i + 1]]);
    } else if mode == Plain && depth == 0 && AndAt(text, i) {
      Cut1(text, i, part);
    } else {
      Step1(text, i, mode, depth, part);
      StripMore(part, text[i]);
      First1(text, i + 1, Mode1(mode, text[i]), Depth1(mode, depth, text[i]), part + [text[i]]);
    }
  }

  lemma {:induction false} First2(text: string, i: nat, quoted: bool, level: nat, part: string)
    requires i <= |text| && !Blank(part)
    ensures FirstAtLeast(SplitTop(text, i, quoted, level, part), |Strip(part)|)
    decreases |text| - i
  {
    if i < |text| {
      if !quoted && level == 0 && AndAt(text, i) {
        Cut2(text, i, part);
      } else {
        Step2(text, i, quoted, level, part);
        StripMore(part, text[i]);
        First2(text, i + 1, Quoted2(text, i, quoted), Depth2(text, i, quoted, level), part + [text[i]]);
      }
    }
  }

  /** A space and a letter. */
  lemma LetterLonger(part: string, a: char, b: char)
    requires a == ' ' && !IsSpace(b)
    ensures |Strip(part + [a] + [b])| > |Strip(part)|
  {
    StripSnoc(part, a);
    StripSnoc(part + [a], b);
  }

  /** `split_and` reads over an AND: its first part goes on. */
  lemma ReadsOver1(text: string, i: nat, mode: Mode, depth: int, part: string)
    requires AndAt(text, i) && !(mode == Plain && depth == 0)
    ensures FirstAtLeast(NonEmpty(Split(text, i, mode, depth, part)), |Strip(part)| + 1)
  {
    var m, d := Mode1(mode, ' '), Depth1(mode, depth, ' ');
    Step1(text, i, mode, depth, part);
    LetterFollows1(text, i + 1, m, d, part + [text[i]]);
    LetterLonger(part, text[i], text[i + 1]);
  }

  lemma LetterFollows1(text: string, i: nat, mode: Mode, depth: int, part: string)
    requires i < |text| && Upper(text[i]) == 'A'
    ensures FirstAtLeast(NonEmpty(Split(text, i, mode, depth, part)), |Strip(part + [text[i]])|)
  {
    Step1(text, i, mode, depth, part);
    StripSnoc(part, text[i]);
    First1(text, i + 1, Mode1(mode, text[i]), Depth1(mode, depth, text[i]), part + [text[i]]);
  }

  lemma ReadsOver2(text: string, i: nat, quoted: bool, level: nat, part: string)
    requires AndAt(text, i) && !(!quoted && level == 0)
    ensures FirstAtLeast(SplitTop(text, i, quoted, level, part), |Strip(part)| + 1)
  {
    Step2(text, i, quoted, level, part);
    Step2(text, i + 1, quoted, level, part + [text[i]]);
    LetterLonger(part, text[i], text[i + 1]);
    First2(text, i + 2, quoted, level, part + [text[i]] + [text[i + 1]]);
  }

  // ---- Apart they return something else ----

  /** A part that is blank so far began at a separator both have seen, or at the beginning. */
  ghost predicate Begun(part: string, mode: Mode, depth: int, quoted: bool, level: nat) {
    Blank(part) ==> mode == Plain && depth == 0 && !quoted && level == 0
  }

  /** At an AND where they differ, one ends its part and the other goes on. */
  lemma DifferHere(text: string, i: nat, mode: Mode, depth: int, quoted: bool, level: nat, part: string)
    requires Apart(text, i, i, mode, depth, quoted, level) && Begun(part, mode, depth, quoted, level)
    ensures NonEmpty(Split(text, i, mode, depth, part)) != SplitTop(text, i, quoted, level, part)
  {
    if mode == Plain && depth == 0 {
      Cut1(text, i, part);
      ReadsOver2(text, i, quoted, level, part);
    } else {
      Cut2(text, i, part);
      ReadsOver1(text, i, mode, depth, part);
    }
  }

  /** One takes the second character of an escape for the beginning of a separator. */
  lemma DifferInPair(text: string, i: nat, mode: Mode, depth: int, quoted: bool, level: nat, part: string)
    requires Escapes(text, i, mode) && Apart(text, i, i + 1, mode, depth, quoted, level)
    ensures NonEmpty(Split(text, i, mode, depth, part)) != SplitTop(text, i, quoted, level, part)
  {
    var longer := part + [text[i]];
    PairApart(text, i, mode, depth, quoted, level);
    Step2(text, i, quoted, level, part);
    StripSnoc(part, text[i]);
    Cut2(text, i + 1, longer);
    assert longer + [text[i + 1]] == part + [text[i], text[i + 1]];
    LetterFollows1(text, i + 2, mode, depth, longer + [text[i + 1]]);
    LetterLonger(longer, text[i + 1], text[i + 2]);
  }

  lemma PrefixCancels<A>(p: seq<A>, x: seq<A>, y: seq<A>)
    requires x != y
    ensures p + x != p + y
  {
    assert (p + x)[|p|..] == x && (p + y)[|p|..] == y;
  }

  lemma {:induction false} OtherParts(text: string, i: nat, e: nat, mode: Mode, depth: int, quoted: bool, level: nat, part: string)
    requires Apart(text, i, e, mode, depth, quoted, level) && Begun(part, mode, depth, quoted, level)
    ensures NonEmpty(Split(text, i, mode, depth, part)) != SplitTop(text, i, quoted, level, part)
    decreases |text| - i
  {
    if Escapes(text, i, mode) {
      PairApart(text, i, mode, depth, quoted, level);
      if Apart(text, i, i + 1, mode, depth, quoted, level) {
        DifferInPair(text, i, mode, depth, quoted, level, part);
      } else {
        PairStep(text, i, mode, depth, quoted, level, part);
        ApartPair(text, i, e, mode, depth, quoted, level);
        StripSnoc(part, text[i]);
        StripMore(part + [text[i]], text[i + 1]);
        assert part + [text[i]] + [text[i + 1]] == part + [text[i], text[i + 1]];
        OtherParts(text, i + 2, e, mode, depth, quoted, Depth2(text, i + 1, quoted, level), part + [text[i], text[i + 1]]);
      }
    } else if Apart(text, i, i, mode, depth, quoted, level) {
      DifferHere(text, i, mode, depth, quoted, level, part);
    } else if AndAt(text, i) && mode == Plain && depth == 0 {
      Cut1(text, i, part);
      Cut2(text, i, part);
      ApartAfterCut(text, i, e);
      OtherParts(text, i + 5, e, Plain, 0, false, 0, []);
      PrefixCancels(Flush(part), NonEmpty(Split(text, i + 5, Plain, 0, [])), SplitTop(text, i + 5, false, 0, []));
    } else {
      Step1(text, i, mode, depth, part);
      Step2(text, i, quoted, level, part);
      ApartNext(text, i, e, mode, depth, quoted, level);
      StripSnoc(part, text[i]);
      OtherParts(text, i + 1, e, Mode1(mode, text[i]), Depth1(mode, depth, text[i]), Quoted2(text, i, quoted),
                 Depth2(text, i, quoted, level), part + [text[i]]);
    }
  }

  /**
   On any text the two scanners return the same parts, apart from the empty ones that one of them keeps, if and only if
   at every AND of the text they agree whether it stands at the top level.
   */
  lemma ScannersAgreeIff(text: string)
    ensures NonEmpty(Split(text, 0, Plain, 0, [])) == SplitTop(text, 0, false, 0, []) <==>
            forall e :: 0 <= e < |text| && AndAt(text, e) ==> Top1(text, 0, e, Plain, 0) == Top2(text, 0, e, false, 0)
  {
    if Together(text, 0, Plain, 0, false, 0) {
      SameParts(text, 0, Plain, 0, false, 0, []);
    } else {
      var e: nat :| e < |text| && Apart(text, 0, e, Plain, 0, false, 0);
      OtherParts(text, 0, e, Plain, 0, false, 0, []);
    }
    assert forall e: nat :: e < |text| ==> (Apart(text, 0, e, Plain, 0, false, 0) <==>
             AndAt(text, e) && Top1(text, 0, e, Plain, 0) != Top2(text, 0, e, false, 0));
  }
}

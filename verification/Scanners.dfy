/** The two hand-written scanners that cut a WHERE clause at its top-level ANDs. */
module Scanners {

  predicate IsSpace(c: char) {
    c == ' ' || c == '\t' || c == '\n' || c == '\r'
  }

  function TrimLeft(s: string): string {
    if s != [] && IsSpace(s[0]) then TrimLeft(s[1..]) else s
  }

  function TrimRight(s: string): string {
    if s != [] && IsSpace(s[|s| - 1]) then TrimRight(s[..|s| - 1]) else s
  }

  function Strip(s: string): string {
    TrimRight(TrimLeft(s))
  }

  ghost predicate AllSpace(s: string) {
    forall i :: 0 <= i < |s| ==> IsSpace(s[i])
  }

  lemma {:induction false} TrimLeftIs(s: string) returns (a: string)
    ensures s == a + TrimLeft(s) && AllSpace(a) && (TrimLeft(s) != [] ==> !IsSpace(TrimLeft(s)[0]))
  {
    a := [];
    if s != [] && IsSpace(s[0]) {
      var rest := TrimLeftIs(s[1..]);
      a := [s[0]] + rest;
      assert s == [s[0]] + s[1..];
    }
  }

  lemma {:induction false} TrimRightIs(s: string) returns (b: string)
    ensures s == TrimRight(s) + b && AllSpace(b) && (TrimRight(s) != [] ==> !IsSpace(TrimRight(s)[|TrimRight(s)| - 1]))
  {
    b := [];
    if s != [] && IsSpace(s[|s| - 1]) {
      var rest := TrimRightIs(s[..|s| - 1]);
      b := rest + [s[|s| - 1]];
      assert s == s[..|s| - 1] + [s[|s| - 1]];
    }
  }

  /** Stripping takes away white space at both ends, all of it and nothing else. */
  lemma StripIs(s: string) returns (a: string, b: string)
    ensures s == a + Strip(s) + b && AllSpace(a) && AllSpace(b)
    ensures Strip(s) != [] ==> !IsSpace(Strip(s)[0]) && !IsSpace(Strip(s)[|Strip(s)| - 1])
  {
    a := TrimLeftIs(s);
    b := TrimRightIs(TrimLeft(s));
    assert a + (Strip(s) + b) == a + Strip(s) + b;
  }

  function Upper(c: char): char {
    if 'a' <= c <= 'z' then c - 'a' + 'A' else c
  }

  /** `text[i:i+5].upper() == ' AND '`, and equally `text[i:i+5].lower() == ' and '`. */
  predicate AndAt(text: string, i: nat) {
    && i + 5 <= |text|
    && text[i] == ' ' && Upper(text[i + 1]) == 'A' && Upper(text[i + 2]) == 'N' && Upper(text[i + 3]) == 'D' && text[i + 4] == ' '
  }

  /** The word in any spelling, with a space on either side. */
  lemma AndAtIff(text: string, i: nat)
    ensures AndAt(text, i) <==>
            i + 5 <= |text| && text[i..i + 5] in [" AND ", " ANd ", " AnD ", " And ", " aND ", " aNd ", " anD ", " and "]
  {
    if i + 5 <= |text| {
      Spelled(text[i..i + 5]);
    }
  }

  lemma Spelled(w: string)
    requires |w| == 5
    ensures AndAt(w, 0) <==> w in [" AND ", " ANd ", " AnD ", " And ", " aND ", " aNd ", " anD ", " and "]
  {
    assert w == [w[0], w[1], w[2], w[3], w[4]];
    UpperIs(w[1], 'a', 'A');
    UpperIs(w[2], 'n', 'N');
    UpperIs(w[3], 'd', 'D');
  }

  lemma UpperIs(c: char, low: char, high: char)
    requires 'a' <= low <= 'z' && high == low - 'a' + 'A'
    ensures Upper(c) == high <==> c == low || c == high
  {
  }

  datatype Mode = Plain | Quoted(quote: char)

  // ---- What the scanners compute ----

  /** `split_and` from position `i`, with the open quote, the depth and the part read so far. */
  function Split(text: string, i: nat, mode: Mode, depth: int, part: string): seq<string>
    requires i <= |text|
    decreases |text| - i
  {
    if i == |text| then if part == [] then [] else [Strip(part)]
    else
      var ch := text[i];
      if mode.Quoted? then
        if ch == '\\' && i + 1 < |text| then Split(text, i + 2, mode, depth, part + [ch, text[i + 1]])
        else Split(text, i + 1, if ch == mode.quote then Plain else mode, depth, part + [ch])
      else if ch == '\'' || ch == '\"' then Split(text, i + 1, Quoted(ch), depth, part + [ch])
      else if ch == '(' then Split(text, i + 1, Plain, depth + 1, part + [ch])
      else if ch == ')' then Split(text, i + 1, Plain, depth - 1, part + [ch])
      else if depth == 0 && AndAt(text, i) then [Strip(part)] + Split(text, i + 5, Plain, depth, [])
      else Split(text, i + 1, Plain, depth, part + [ch])
  }

  /** A part that is empty after trimming is dropped. */
  function Flush(part: string): seq<string> {
    if Strip(part) == [] then [] else [Strip(part)]
  }

  /** `_split_top_level` with "and", from position `i`. */
  function SplitTop(text: string, i: nat, quoted: bool, depth: nat, part: string): seq<string>
    requires i <= |text|
    decreases |text| - i
  {
    if i == |text| then Flush(part)
    else
      var ch := text[i];
      if ch == '\'' && (i == 0 || text[i - 1] != '\\') then SplitTop(text, i + 1, !quoted, depth, part + [ch])
      else
        var d := if quoted then depth else if ch == '(' then depth + 1 else if ch == ')' && depth > 0 then depth - 1 else depth;
        if !quoted && d == 0 && AndAt(text, i) then Flush(part) + SplitTop(text, i + 5, quoted, d, [])
        else SplitTop(text, i + 1, quoted, d, part + [ch])
  }

  // ---- The scanners ----

  method SplitAnd(text: string) returns (parts: seq<string>)
    ensures parts == Split(text, 0, Plain, 0, [])
  {
    parts := [];
    var current, depth, i, mode := "", 0, 0, Plain;
    while i < |text|
      invariant 0 <= i <= |text|
      invariant parts + Split(text, i, mode, depth, current) == Split(text, 0, Plain, 0, [])
    {
      var ch := text[i];
      if mode.Quoted? {
        current := current + [ch];
        if ch == '\\' && i + 1 < |text| {
          i := i + 1;
          assert current + [text[i]] == current[..|current| - 1] + [ch, text[i]];
          current := current + [text[i]];
        } else if ch == mode.quote {
          mode := Plain;
        }
      } else if ch == '\'' || ch == '\"' {
        mode := Quoted(ch);
        current := current + [ch];
      } else if ch == '(' {
        depth := depth + 1;
        current := current + [ch];
      } else if ch == ')' {
        depth := depth - 1;
        current := current + [ch];
      } else if depth == 0 && AndAt(text, i) {
        parts := parts + [Strip(current)];
        current := [];
        i := i + 4;
      } else {
        current := current + [ch];
      }
      i := i + 1;
    }
    if current != [] {
      parts := parts + [Strip(current)];
    }
  }

  method SplitTopLevel(text: string) returns (parts: seq<string>)
    ensures parts == SplitTop(text, 0, false, 0, [])
  {
    parts := [];
    var buf, depth, i, quoted := "", 0, 0, false;
    while i < |text|
      invariant 0 <= i <= |text| && 0 <= depth
      invariant parts + SplitTop(text, i, quoted, depth, buf) == SplitTop(text, 0, false, 0, [])
    {
      var ch := text[i];
      if ch == '\'' && (i == 0 || text[i - 1] != '\\') {
        quoted := !quoted;
        buf := buf + [ch];
        i := i + 1;
        continue;
      }
      if !quoted {
        if ch == '(' {
          depth := depth + 1;
        } else if ch == ')' && depth > 0 {
          depth := depth - 1;
        }
        if depth == 0 && AndAt(text, i) {
          parts := parts + Flush(buf);
          buf := [];
          i := i + 5;
          continue;
        }
      }
      buf := buf + [ch];
      i := i + 1;
    }
    parts := parts + Flush(buf);
  }

  // ---- They agree ----

  function NonEmpty(parts: seq<string>): seq<string> {
    if parts == [] then [] else (if parts[0] == [] then [] else [parts[0]]) + NonEmpty(parts[1..])
  }

  /** From here on no closing parenthesis outside quotes is unmatched. */
  predicate NeverNegative(text: string, i: nat, quoted: bool, depth: int)
    requires i <= |text|
    decreases |text| - i
  {
    depth >= 0 &&
    (i == |text| ||
     var ch := text[i];
     if ch == '\'' then NeverNegative(text, i + 1, !quoted, depth)
     else NeverNegative(text, i + 1, quoted, if quoted then depth else if ch == '(' then depth + 1 else if ch == ')' then depth - 1 else depth))
  }

  lemma NonEmptyCons(p: string, rest: seq<string>)
    ensures NonEmpty([p] + rest) == (if p == [] then [] else [p]) + NonEmpty(rest)
  {
    assert ([p] + rest)[1..] == rest;
  }

  lemma NonEmptyOne(p: string)
    ensures NonEmpty([p]) == if p == [] then [] else [p]
  {
    NonEmptyCons(p, []);
    assert [p] + [] == [p];
  }

  /** Skipping the five characters of a separator does not change the depth. */
  lemma SkipAnd(text: string, i: nat)
    requires AndAt(text, i) && NeverNegative(text, i, false, 0)
    ensures NeverNegative(text, i + 5, false, 0)
  {
    assert NeverNegative(text, i + 1, false, 0);
    assert NeverNegative(text, i + 2, false, 0);
    assert NeverNegative(text, i + 3, false, 0);
    assert NeverNegative(text, i + 4, false, 0);
  }

  /** Without double quotes and backslashes both scanners walk in step. */
  lemma {:induction false} InStep(text: string, i: nat, quoted: bool, depth: nat, part: string)
    requires i <= |text| && (forall k :: 0 <= k < |text| ==> text[k] != '\"' && text[k] != '\\')
    requires NeverNegative(text, i, quoted, depth)
    ensures NonEmpty(Split(text, i, if quoted then Quoted('\'') else Plain, depth, part)) == SplitTop(text, i, quoted, depth, part)
    decreases |text| - i
  {
    if i == |text| {
      NonEmptyOne(Strip(part));
    } else if text[i] == '\'' {
      InStep(text, i + 1, !quoted, depth, part + [text[i]]);
    } else if quoted {
      InStep(text, i + 1, quoted, depth, part + [text[i]]);
    } else if text[i] == '(' {
      InStep(text, i + 1, false, depth + 1, part + [text[i]]);
    } else if text[i] == ')' {
      assert depth > 0;
      InStep(text, i + 1, false, depth - 1, part + [text[i]]);
    } else if depth == 0 && AndAt(text, i) {
      SkipAnd(text, i);
      InStep(text, i + 5, false, 0, []);
      NonEmptyCons(Strip(part), Split(text, i + 5, Plain, 0, []));
    } else {
      InStep(text, i + 1, false, depth, part + [text[i]]);
    }
  }

  /**
   On every text without double quotes and backslashes whose unquoted parentheses never go negative,
   the two scanners return the same parts, apart from the empty ones that one of them keeps.
   */
  lemma ScannersAgree(text: string)
    requires forall k :: 0 <= k < |text| ==> text[k] != '\"' && text[k] != '\\'
    requires NeverNegative(text, 0, false, 0)
    ensures NonEmpty(Split(text, 0, Plain, 0, [])) == SplitTop(text, 0, false, 0, [])
  {
    InStep(text, 0, false, 0, []);
  }

  // ---- Splitting undoes joining ----

  const SEPARATOR := " AND "

  function Join(parts: seq<string>): string {
    if parts == [] then [] else if |parts| == 1 then parts[0] else parts[0] + SEPARATOR + Join(parts[1..])
  }

  datatype Walked = Cut | At(mode: Mode, depth: int)

  /** The state in which the scanner reaches `end`, unless it cuts before or jumps over it. */
  function Walk(text: string, i: nat, end: nat, mode: Mode, depth: int): Walked
    requires i <= |text|
    decreases |text| - i
  {
    if i == end then At(mode, depth)
    else if i > end || i == |text| then Cut
    else
      var ch := text[i];
      if mode.Quoted? then
        if ch == '\\' && i + 1 < |text| then Walk(text, i + 2, end, mode, depth)
        else Walk(text, i + 1, end, if ch == mode.quote then Plain else mode, depth)
      else if ch == '\'' || ch == '\"' then Walk(text, i + 1, end, Quoted(ch), depth)
      else if ch == '(' then Walk(text, i + 1, end, Plain, depth + 1)
      else if ch == ')' then Walk(text, i + 1, end, Plain, depth - 1)
      else if depth == 0 && AndAt(text, i) then Cut
      else Walk(text, i + 1, end, Plain, depth)
  }

  /** A conjunct: not empty, trimmed, closed, and without a top-level AND even if a separator follows. */
  ghost predicate IsConjunct(p: string) {
    p != [] && Strip(p) == p && Walk(p + SEPARATOR, 0, |p|, Plain, 0) == At(Plain, 0)
  }

  /** What is walked over without a cut is added to the part. */
  lemma {:induction false} WalkSplit(text: string, i: nat, end: nat, mode: Mode, depth: int, part: string)
    requires i <= end <= |text| && Walk(text, i, end, mode, depth).At?
    ensures var w := Walk(text, i, end, mode, depth);
            Split(text, i, mode, depth, part) == Split(text, end, w.mode, w.depth, part + text[i..end])
    decreases |text| - i
  {
    if i == end {
      assert part + text[i..end] == part;
    } else {
      var ch := text[i];
      if mode.Quoted? && ch == '\\' && i + 1 < |text| {
        assert part + [ch, text[i + 1]] + text[i + 2..end] == part + text[i..end];
        WalkSplit(text, i + 2, end, mode, depth, part + [ch, text[i + 1]]);
      } else {
        assert part + [ch] + text[i + 1..end] == part + text[i..end];
        if mode.Quoted? {
          WalkSplit(text, i + 1, end, if ch == mode.quote then Plain else mode, depth, part + [ch]);
        } else if ch == '\'' || ch == '\"' {
          WalkSplit(text, i + 1, end, Quoted(ch), depth, part + [ch]);
        } else if ch == '(' {
          WalkSplit(text, i + 1, end, Plain, depth + 1, part + [ch]);
        } else if ch == ')' {
          WalkSplit(text, i + 1, end, Plain, depth - 1, part + [ch]);
        } else {
          WalkSplit(text, i + 1, end, Plain, depth, part + [ch]);
        }
      }
    }
  }

  /** Up to `end` the walk sees at most four characters beyond it. */
  lemma {:induction false} WalkSame(text: string, other: string, i: nat, end: nat, mode: Mode, depth: int)
    requires i <= end + 1 && end + 5 <= |text| && end + 5 <= |other| && text[..end + 5] == other[..end + 5]
    ensures Walk(text, i, end, mode, depth) == Walk(other, i, end, mode, depth)
    decreases |text| - i
  {
    if i < end {
      assert forall k :: 0 <= k < end + 5 ==> text[k] == text[..end + 5][k];
      assert forall k :: 0 <= k < end + 5 ==> other[k] == other[..end + 5][k];
      var ch := text[i];
      if mode.Quoted? {
        if ch == '\\' {
          WalkSame(text, other, i + 2, end, mode, depth);
        } else {
          WalkSame(text, other, i + 1, end, if ch == mode.quote then Plain else mode, depth);
        }
      } else if ch == '\'' || ch == '\"' {
        WalkSame(text, other, i + 1, end, Quoted(ch), depth);
      } else if ch == '(' {
        WalkSame(text, other, i + 1, end, Plain, depth + 1);
      } else if ch == ')' {
        WalkSame(text, other, i + 1, end, Plain, depth - 1);
      } else {
        WalkSame(text, other, i + 1, end, Plain, depth);
      }
    }
  }

  /** A conjunct is walked over in the same way if nothing follows it. */
  lemma {:induction false} WalkAlone(p: string, i: nat, mode: Mode, depth: int)
    requires i <= |p| && Walk(p + SEPARATOR, i, |p|, mode, depth).At?
    ensures Walk(p, i, |p|, mode, depth) == Walk(p + SEPARATOR, i, |p|, mode, depth)
    decreases |p| - i
  {
    if i < |p| {
      var ch := p[i];
      assert (p + SEPARATOR)[i] == ch;
      if mode.Quoted? && ch == '\\' {
        assert i + 1 < |p|;
        WalkAlone(p, i + 2, mode, depth);
      } else if mode.Quoted? {
        WalkAlone(p, i + 1, if ch == mode.quote then Plain else mode, depth);
      } else if ch == '\'' || ch == '\"' {
        WalkAlone(p, i + 1, Quoted(ch), depth);
      } else if ch == '(' {
        WalkAlone(p, i + 1, Plain, depth + 1);
      } else if ch == ')' {
        WalkAlone(p, i + 1, Plain, depth - 1);
      } else {
        assert AndAt(p, i) ==> AndAt(p + SEPARATOR, i);
        WalkAlone(p, i + 1, Plain, depth);
      }
    }
  }

  /** What the scanner does from a position depends on the rest of the text alone. */
  lemma {:induction false} SplitShift(pre: string, text: string, i: nat, mode: Mode, depth: int, part: string)
    requires i <= |text|
    ensures Split(pre + text, |pre| + i, mode, depth, part) == Split(text, i, mode, depth, part)
    decreases |text| - i
  {
    if i < |text| {
      var ch := text[i];
      var all := pre + text;
      assert all[|pre| + i] == ch;
      assert forall k :: i <= k < |text| ==> all[|pre| + k] == text[k];
      assert AndAt(all, |pre| + i) == AndAt(text, i);
      if mode.Quoted? {
        if ch == '\\' && i + 1 < |text| {
          SplitShift(pre, text, i + 2, mode, depth, part + [ch, text[i + 1]]);
        } else {
          SplitShift(pre, text, i + 1, if ch == mode.quote then Plain else mode, depth, part + [ch]);
        }
      } else if ch == '\'' || ch == '\"' {
        SplitShift(pre, text, i + 1, Quoted(ch), depth, part + [ch]);
      } else if ch == '(' {
        SplitShift(pre, text, i + 1, Plain, depth + 1, part + [ch]);
      } else if ch == ')' {
        SplitShift(pre, text, i + 1, Plain, depth - 1, part + [ch]);
      } else if depth == 0 && AndAt(text, i) {
        SplitShift(pre, text, i + 5, Plain, depth, []);
      } else {
        SplitShift(pre, text, i + 1, Plain, depth, part + [ch]);
      }
    }
  }

  lemma SplitFirst(p: string, rest: string)
    requires IsConjunct(p)
    ensures Split(p + SEPARATOR + rest, 0, Plain, 0, []) == [p] + Split(rest, 0, Plain, 0, [])
  {
    var text, n := p + SEPARATOR + rest, |p|;
    assert text[..n + 5] == p + SEPARATOR == (p + SEPARATOR)[..n + 5];
    WalkSame(text, p + SEPARATOR, 0, n, Plain, 0);
    WalkSplit(text, 0, n, Plain, 0, []);
    assert [] + text[0..n] == p;
    assert text[n] == ' ' && AndAt(text, n);
    assert Split(text, n, Plain, 0, p) == [Strip(p)] + Split(text, n + 5, Plain, 0, []);
    SplitShift(p + SEPARATOR, rest, 0, Plain, 0, []);
  }

  lemma SplitLast(p: string)
    requires IsConjunct(p)
    ensures Split(p, 0, Plain, 0, []) == [p]
  {
    WalkAlone(p, 0, Plain, 0);
    WalkSplit(p, 0, |p|, Plain, 0, []);
    assert [] + p[0..|p|] == p;
  }

  /** Splitting the AND-join of any list of conjuncts returns the list. */
  lemma {:induction false} SplitUndoesJoin(parts: seq<string>)
    requires forall i :: 0 <= i < |parts| ==> IsConjunct(parts[i])
    ensures Split(Join(parts), 0, Plain, 0, []) == parts
  {
    if |parts| == 1 {
      SplitLast(parts[0]);
    } else if |parts| > 1 {
      SplitUndoesJoin(parts[1..]);
      SplitFirst(parts[0], Join(parts[1..]));
    }
  }

  /**
   Each of the three conditions of `ScannersAgree` is needed: only one scanner takes a double quote for the
   beginning of a string, only one lets a backslash hide a quote outside of strings, and only one lets the
   depth go below zero.
   */
  lemma ScannersDiffer()
    ensures NonEmpty(Split("\" AND \"", 0, Plain, 0, [])) != SplitTop("\" AND \"", 0, false, 0, [])
    ensures NonEmpty(Split("\\' AND b", 0, Plain, 0, [])) != SplitTop("\\' AND b", 0, false, 0, [])
    ensures NonEmpty(Split(") AND b", 0, Plain, 0, [])) != SplitTop(") AND b", 0, false, 0, [])
  {
    DoubleQuoteDiffers("\" AND \"");
    BackslashDiffers("\\' AND b");
    NegativeDepthDiffers(") AND b");
  }

  /** One scanner reads to the end without a cut, and the other cuts once. */
  lemma OneCut(text: string, i: nat, mode: Mode, depth: int)
    requires Walk(text, 0, |text|, Plain, 0) == At(mode, depth) && text != []
    requires AndAt(text, i) && i + 6 == |text| && i > 0 && !IsSpace(text[0]) && !IsSpace(text[i - 1])
    requires text[i + 5] != '\'' && text[i + 5] != '(' && !IsSpace(text[i + 5])
    requires SplitTop(text, 0, false, 0, []) == SplitTop(text, i, false, 0, text[..i])
    ensures NonEmpty(Split(text, 0, Plain, 0, [])) != SplitTop(text, 0, false, 0, [])
  {
    WalkSplit(text, 0, |text|, Plain, 0, []);
    NonEmptyOne(Strip([] + text[0..|text|]));
    var last := [text[i + 5]];
    assert [] + last == last;
    assert SplitTop(text, i + 5, false, 0, []) == SplitTop(text, i + 6, false, 0, last) == Flush(last);
    StripsToSelf(text[..i]);
    StripsToSelf(last);
  }

  lemma StripsToSelf(s: string)
    requires s != [] && !IsSpace(s[0]) && !IsSpace(s[|s| - 1])
    ensures Flush(s) == [s]
  {
    assert TrimLeft(s) == s;
    assert TrimRight(s) == s;
  }

  lemma DoubleQuoteDiffers(text: string)
    requires text == "\" AND \""
    ensures NonEmpty(Split(text, 0, Plain, 0, [])) != SplitTop(text, 0, false, 0, [])
  {
    assert Walk(text, 6, 7, Quoted('\"'), 0) == At(Plain, 0);
    assert Walk(text, 4, 7, Quoted('\"'), 0) == Walk(text, 5, 7, Quoted('\"'), 0) == At(Plain, 0);
    assert Walk(text, 2, 7, Quoted('\"'), 0) == Walk(text, 3, 7, Quoted('\"'), 0) == At(Plain, 0);
    assert Walk(text, 0, 7, Plain, 0) == Walk(text, 1, 7, Quoted('\"'), 0) == At(Plain, 0);
    assert [] + [text[0]] == text[..1];
    assert SplitTop(text, 0, false, 0, []) == SplitTop(text, 1, false, 0, text[..1]);
    OneCut(text, 1, Plain, 0);
  }

  lemma BackslashDiffers(text: string)
    requires text == "\\' AND b"
    ensures NonEmpty(Split(text, 0, Plain, 0, [])) != SplitTop(text, 0, false, 0, [])
  {
    var q := Quoted('\'');
    assert Walk(text, 7, 8, q, 0) == At(q, 0);
    assert Walk(text, 5, 8, q, 0) == Walk(text, 6, 8, q, 0) == At(q, 0);
    assert Walk(text, 3, 8, q, 0) == Walk(text, 4, 8, q, 0) == At(q, 0);
    assert Walk(text, 1, 8, Plain, 0) == Walk(text, 2, 8, q, 0) == At(q, 0);
    assert [] + [text[0]] == text[..1] && text[..1] + [text[1]] == text[..2];
    assert SplitTop(text, 0, false, 0, []) == SplitTop(text, 1, false, 0, text[..1]) == SplitTop(text, 2, false, 0, text[..2]);
    OneCut(text, 2, q, 0);
  }

  lemma NegativeDepthDiffers(text: string)
    requires text == ") AND b"
    ensures NonEmpty(Split(text, 0, Plain, 0, [])) != SplitTop(text, 0, false, 0, [])
  {
    assert Walk(text, 6, 7, Plain, -1) == At(Plain, -1);
    assert Walk(text, 4, 7, Plain, -1) == Walk(text, 5, 7, Plain, -1) == At(Plain, -1);
    assert Walk(text, 2, 7, Plain, -1) == Walk(text, 3, 7, Plain, -1) == At(Plain, -1);
    assert Walk(text, 0, 7, Plain, 0) == Walk(text, 1, 7, Plain, -1) == At(Plain, -1);
    assert [] + [text[0]] == text[..1];
    assert SplitTop(text, 0, false, 0, []) == SplitTop(text, 1, false, 0, text[..1]);
    OneCut(text, 1, Plain, -1);
  }
}

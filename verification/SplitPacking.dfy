/** Packing the source files of an amalgamation into `nsplits` parts of roughly equal size. */
module SplitPacking {
  import opened RankBounds
  import opened DegreeSequences

  function Bytes(files: seq<nat>): nat {
    if files == [] then 0 else Bytes(files[..|files| - 1]) + files[|files| - 1]
  }

  function Concat(parts: seq<seq<nat>>): seq<nat> {
    if parts == [] then [] else Concat(parts[..|parts| - 1]) + parts[|parts| - 1]
  }

  lemma {:induction false} BytesAppend(a: seq<nat>, b: seq<nat>)
    ensures Bytes(a + b) == Bytes(a) + Bytes(b)
    decreases |b|
  {
    if b == [] {
      assert a + b == a;
    } else {
      var k := |b| - 1;
      BytesAppend(a, b[..k]);
      assert (a + b)[..|a + b| - 1] == a + b[..k];
    }
  }

  /** A part is closed by the file that brings it to `split` bytes. */
  ghost predicate ClosedPart(part: seq<nat>, split: real) {
    part != [] && Bytes(part) as real >= split && Bytes(part[..|part| - 1]) as real < split
  }

  /** The part that is left at the end never reached `split` bytes. */
  ghost predicate OpenPart(part: seq<nat>, split: real) {
    part != [] && (Bytes(part) as real) < split
  }

  /** Nothing is lost or reordered, and every part but perhaps the last is closed. */
  ghost predicate Packed(files: seq<nat>, split: real, parts: seq<seq<nat>>) {
    && Concat(parts) == files
    && (forall i :: 0 <= i < |parts| ==>
          ClosedPart(parts[i], split) || (i == |parts| - 1 && OpenPart(parts[i], split)) || SingleFile(parts[i], split))
  }

  /** With nothing to split, every file is a part of its own. */
  ghost predicate SingleFile(part: seq<nat>, split: real) {
    split == 0.0 && |part| == 1
  }

  method TotalBytes(files: seq<nat>) returns (total: nat)
    ensures total == Bytes(files)
  {
    total := 0;
    for i := 0 to |files|
      invariant total == Bytes(files[..i])
    {
      assert files[..i + 1][..i] == files[..i];
      total := total + files[i];
    }
    assert files[..|files|] == files;
  }

  method Pack(files: seq<nat>, nsplits: nat) returns (parts: seq<seq<nat>>, split: real)
    requires nsplits > 0
    ensures split == Bytes(files) as real / nsplits as real
    ensures Packed(files, split, parts)
  {
    var total := TotalBytes(files);
    split := total as real / nsplits as real;
    parts := Fill(files, split);
  }

  /** The first `i` files are packed; `current` is the part under way. */
  ghost predicate Filled(files: seq<nat>, i: nat, split: real, parts: seq<seq<nat>>, current: seq<nat>)
    requires i <= |files|
  {
    && Concat(parts) + current == files[..i] && (current != [] ==> (Bytes(current) as real) < split)
    && forall j :: 0 <= j < |parts| ==> ClosedPart(parts[j], split) || SingleFile(parts[j], split)
  }

  lemma ConcatMore(parts: seq<seq<nat>>, part: seq<nat>)
    ensures Concat(parts + [part]) == Concat(parts) + part
  {
    assert (parts + [part])[..|parts|] == parts;
  }

  lemma BytesMore(part: seq<nat>, file: nat)
    ensures Bytes(part + [file]) == Bytes(part) + file && Bytes([]) == 0
  {
    assert (part + [file])[..|part|] == part;
  }

  lemma CloseNext(files: seq<nat>, i: nat, split: real, parts: seq<seq<nat>>, current: seq<nat>)
    requires i < |files| && split >= 0.0 && Filled(files, i, split, parts, current)
    ensures var more := current + [files[i]];
            if Bytes(more) as real >= split then Filled(files, i + 1, split, parts + [more], [])
            else Filled(files, i + 1, split, parts, more)
  {
    var more := current + [files[i]];
    assert more[..|more| - 1] == current;
    assert files[..i + 1] == Concat(parts) + more;
    ConcatMore(parts, more);
    assert Concat(parts + [more]) + [] == Concat(parts + [more]);
  }

  method Fill(files: seq<nat>, split: real) returns (parts: seq<seq<nat>>)
    requires split >= 0.0
    ensures Packed(files, split, parts)
  {
    parts := [];
    var current: seq<nat> := [];
    var bytes := 0;
    for i := 0 to |files|
      invariant bytes == Bytes(current) && Filled(files, i, split, parts, current)
    {
      CloseNext(files, i, split, parts, current);
      BytesMore(current, files[i]);
      current := current + [files[i]];
      bytes := bytes + files[i];
      if bytes as real >= split {
        parts := parts + [current];
        current := [];
        bytes := 0;
      }
    }
    if current != [] {
      ConcatMore(parts, current);
      parts := parts + [current];
    }
  }

  // ---- How many parts there are ----

  /** Some prefix of the files holds exactly `m` of `n` shares of the bytes. */
  ghost predicate HitsShare(files: seq<nat>, n: nat, m: nat) {
    exists i :: 0 <= i <= |files| && Bytes(files[..i]) * n == m * Bytes(files)
  }

  /** The last file is empty, and every multiple of the split size is the size of some prefix. */
  ghost predicate SplitsEvenly(files: seq<nat>, n: nat) {
    && files != [] && files[|files| - 1] == 0
    && (forall m :: 1 <= m <= n ==> HitsShare(files, n, m))
  }

  /** The same said in split sizes. */
  ghost predicate HitsMultiple(files: seq<nat>, split: real, m: nat) {
    exists i :: 0 <= i <= |files| && Bytes(files[..i]) as real == Times(m, split)
  }

  ghost predicate HitsMultiples(files: seq<nat>, split: real, n: nat) {
    && files != [] && files[|files| - 1] == 0
    && (forall m :: 1 <= m <= n ==> HitsMultiple(files, split, m))
  }

  lemma {:induction false} TimesLess(m: nat, n: nat, x: real)
    requires x > 0.0
    ensures m < n ==> Times(m, x) + x <= Times(n, x)
    ensures m <= n ==> Times(m, x) <= Times(n, x)
  {
    if m < n {
      TimesLess(m, n - 1, x);
    }
  }

  lemma {:induction false} WholeTimes(m: nat, x: nat)
    ensures Times(m, x as real) == (m * x) as real
  {
    if m > 0 {
      WholeTimes(m - 1, x);
      assert m * x == (m - 1) * x + x;
    }
  }

  lemma {:induction false} TimesCommute(n: nat, m: nat, x: real)
    ensures Times(n, Times(m, x)) == Times(m, Times(n, x))
  {
    if m == 0 {
      TimesZero(n);
    } else {
      TimesCommute(n, m - 1, x);
      TimesDistribute(n, Times(m - 1, x), x);
    }
  }

  lemma {:induction false} TimesStrict(n: nat, x: real, y: real)
    requires x < y
    ensures Times(n, x) <= Times(n, y) && (n > 0 ==> Times(n, x) < Times(n, y))
  {
    if n > 0 {
      TimesStrict(n - 1, x, y);
    }
  }

  /** `n` times `split` are all bytes: the division, without dividing. */
  ghost predicate IsSplit(total: nat, n: nat, split: real) {
    n > 0 && Times(n, split) == total as real && (if total == 0 then split == 0.0 else split > 0.0)
  }

  lemma SplitWhole(total: nat, n: nat, split: real)
    requires n > 0 && split == total as real / n as real
    ensures IsSplit(total, n, split)
  {
    TimesIsProduct(n, split);
  }

  /** The shares of `HitsShare` are the multiples of the split size. */
  lemma ShareIsMultiple(bytes: nat, total: nat, n: nat, m: nat, split: real)
    requires IsSplit(total, n, split)
    ensures bytes * n == m * total <==> bytes as real == Times(m, split)
  {
    WholeTimes(n, bytes);
    WholeTimes(m, total);
    TimesCommute(n, m, split);
    if (bytes as real) < Times(m, split) {
      TimesStrict(n, bytes as real, Times(m, split));
    } else if bytes as real > Times(m, split) {
      TimesStrict(n, Times(m, split), bytes as real);
    }
  }

  lemma EvenlyIsMultiples(files: seq<nat>, n: nat, split: real)
    requires IsSplit(Bytes(files), n, split)
    ensures SplitsEvenly(files, n) <==> HitsMultiples(files, split, n)
  {
    forall m | 1 <= m <= n ensures HitsShare(files, n, m) <==> HitsMultiple(files, split, m) {
      forall i | 0 <= i <= |files|
        ensures Bytes(files[..i]) * n == m * Bytes(files) <==> Bytes(files[..i]) as real == Times(m, split)
      {
        ShareIsMultiple(Bytes(files[..i]), Bytes(files), n, m, split);
      }
    }
  }

  /** The first `j` parts together are the files up to some position. */
  lemma {:induction false} ConcatPrefix(parts: seq<seq<nat>>, j: nat)
    requires j <= |parts|
    ensures |Concat(parts[..j])| <= |Concat(parts)|
    ensures Concat(parts[..j]) == Concat(parts)[..|Concat(parts[..j])|]
    decreases |parts| - j
  {
    if j == |parts| {
      assert parts[..j] == parts;
    } else {
      ConcatPrefix(parts, j + 1);
      assert parts[..j + 1][..j] == parts[..j];
    }
  }

  lemma {:induction false} BytesMono(files: seq<nat>, i: nat, j: nat)
    requires i <= j <= |files|
    ensures Bytes(files[..i]) <= Bytes(files[..j])
  {
    BytesAppend(files[..i], files[i..j]);
    assert files[..i] + files[i..j] == files[..j];
  }

  lemma NextPart(parts: seq<seq<nat>>, j: nat)
    requires j < |parts|
    ensures Bytes(Concat(parts[..j + 1])) == Bytes(Concat(parts[..j])) + Bytes(parts[j])
  {
    assert parts[..j + 1][..j] == parts[..j];
    BytesAppend(Concat(parts[..j]), parts[j]);
  }

  /** From part `i` to part `j`, all closed, there are at least `j - i` split sizes. */
  lemma {:induction false} PartsTotal(parts: seq<seq<nat>>, split: real, i: nat, j: nat)
    requires i <= j <= |parts| && forall k :: i <= k < j ==> Bytes(parts[k]) as real >= split
    ensures Bytes(Concat(parts[..j])) as real >= Bytes(Concat(parts[..i])) as real + Times(j - i, split)
  {
    if i < j {
      PartsTotal(parts, split, i, j - 1);
      NextPart(parts, j - 1);
    }
  }

  lemma FirstTotal(parts: seq<seq<nat>>, split: real, j: nat)
    requires j <= |parts| && forall k :: 0 <= k < j ==> Bytes(parts[k]) as real >= split
    ensures Bytes(Concat(parts[..j])) as real >= Times(j, split)
  {
    assert parts[..0] == [];
    assert Bytes(Concat(parts[..0])) == 0;
    PartsTotal(parts, split, 0, j);
  }

  /** With nothing to split every file is a part. */
  lemma {:induction false} SinglesCount(parts: seq<seq<nat>>)
    requires forall i :: 0 <= i < |parts| ==> |parts[i]| == 1
    ensures |Concat(parts)| == |parts|
  {
    if parts != [] {
      SinglesCount(parts[..|parts| - 1]);
    }
  }

  /** What `Pack` leaves. */
  ghost predicate PackedInto(files: seq<nat>, nsplits: nat, parts: seq<seq<nat>>, split: real) {
    IsSplit(Bytes(files), nsplits, split) && Packed(files, split, parts)
  }

  lemma NonEmptyParts(files: seq<nat>, nsplits: nat, parts: seq<seq<nat>>, split: real, i: nat)
    requires PackedInto(files, nsplits, parts, split) && Bytes(files) > 0 && i < |parts|
    ensures split > 0.0
    ensures ClosedPart(parts[i], split) || (i == |parts| - 1 && OpenPart(parts[i], split))
  {
  }

  /** If the first `nsplits` parts are closed they hold all bytes, and there is room for one part more. */
  lemma ClosedHoldAll(files: seq<nat>, n: nat, parts: seq<seq<nat>>, split: real)
    requires IsSplit(Bytes(files), n, split) && split > 0.0 && Concat(parts) == files && |parts| > n
    requires forall i :: 0 <= i < |parts| - 1 ==> Bytes(parts[i]) as real >= split
    ensures |parts| == n + 1 && Bytes(parts[n]) == 0
  {
    var k := |parts| - 1;
    var first, total := Bytes(Concat(parts[..k])), Bytes(files);
    assert first as real >= Times(k, split) by { FirstTotal(parts, split, k); }
    assert total == first + Bytes(parts[k]) by {
      assert parts[..k + 1] == parts;
      NextPart(parts, k);
    }
    TimesLess(n, k, split);
  }

  /** More parts than asked for: one more, all but the last of them exactly of the split size. */
  lemma BeyondSplits(files: seq<nat>, nsplits: nat, parts: seq<seq<nat>>, split: real)
    requires PackedInto(files, nsplits, parts, split) && Bytes(files) > 0 && |parts| > nsplits
    ensures |parts| == nsplits + 1 && HitsMultiples(files, split, nsplits)
  {
    var n := nsplits;
    forall i | 0 <= i < |parts|
      ensures split > 0.0 && parts[i] != [] && (i < |parts| - 1 ==> Bytes(parts[i]) as real >= split)
    {
      NonEmptyParts(files, n, parts, split, i);
    }
    ClosedHoldAll(files, n, parts, split);
    LastEmpty(parts);
    forall m | 1 <= m <= n ensures HitsMultiple(files, split, m) {
      PrefixHits(files, n, parts, split, m);
    }
  }

  lemma PrefixHits(files: seq<nat>, n: nat, parts: seq<seq<nat>>, split: real, m: nat)
    requires IsSplit(Bytes(files), n, split) && Concat(parts) == files && m <= n < |parts|
    requires forall i :: 0 <= i < n ==> Bytes(parts[i]) as real >= split
    ensures HitsMultiple(files, split, m)
  {
    PrefixExact(files, n, parts, split, m);
    FirstParts(files, parts, m);
  }

  lemma PrefixExact(files: seq<nat>, n: nat, parts: seq<seq<nat>>, split: real, m: nat)
    requires IsSplit(Bytes(files), n, split) && Concat(parts) == files && m <= n < |parts|
    requires forall i :: 0 <= i < n ==> Bytes(parts[i]) as real >= split
    ensures Bytes(Concat(parts[..m])) as real == Times(m, split)
  {
    FirstParts(files, parts, n);
    FirstTotal(parts, split, m);
    PartsTotal(parts, split, m, n);
    Squeezed(Bytes(files) as real, Bytes(Concat(parts[..n])) as real, Bytes(Concat(parts[..m])) as real, m, n, split);
  }

  /** What is between two bounds that are equal. */
  lemma Squeezed(total: real, first: real, upTo: real, m: nat, n: nat, split: real)
    requires m <= n && total == Times(n, split) && first <= total
    requires upTo >= Times(m, split) && first >= upTo + Times(n - m, split)
    ensures upTo == Times(m, split)
  {
    TimesAdd(m, n - m, split);
  }

  lemma FirstParts(files: seq<nat>, parts: seq<seq<nat>>, m: nat)
    requires Concat(parts) == files && m <= |parts|
    ensures Bytes(Concat(parts[..m])) <= Bytes(files)
    ensures |Concat(parts[..m])| <= |files| && Concat(parts[..m]) == files[..|Concat(parts[..m])|]
  {
    ConcatPrefix(parts, m);
    BytesMono(files, |Concat(parts[..m])|, |files|);
    assert files[..|files|] == files;
  }

  lemma LastEmpty(parts: seq<seq<nat>>)
    requires parts != [] && parts[|parts| - 1] != [] && Bytes(parts[|parts| - 1]) == 0
    ensures Concat(parts) != [] && Concat(parts)[|Concat(parts)| - 1] == 0
  {
  }

  /** Where every share is hit, the first `j` parts hold exactly `j` split sizes. */
  lemma {:induction false} PartsExact(files: seq<nat>, nsplits: nat, parts: seq<seq<nat>>, split: real, j: nat)
    requires PackedInto(files, nsplits, parts, split) && Bytes(files) > 0 && HitsMultiples(files, split, nsplits)
    requires j <= |parts| && j <= nsplits
    ensures Bytes(Concat(parts[..j])) as real == Times(j, split)
  {
    if j > 0 {
      var k := j - 1;
      PartsExact(files, nsplits, parts, split, k);
      NextPart(parts, k);
      NonEmptyParts(files, nsplits, parts, split, k);
      if !ClosedPart(parts[k], split) {
        assert parts[..j] == parts;
        TimesLess(j, nsplits, split);
        assert false;
      }
      assert HitsMultiple(files, split, j);
      var i :| 0 <= i <= |files| && Bytes(files[..i]) as real == Times(j, split);
      PartEnds(files, parts, k, i);
    }
  }

  /** A prefix that reaches past the part without its last file reaches to the part's end. */
  lemma PartEnds(files: seq<nat>, parts: seq<seq<nat>>, k: nat, i: nat)
    requires Concat(parts) == files && k < |parts| && parts[k] != [] && i <= |files|
    requires Bytes(files[..i]) > Bytes(Concat(parts[..k])) + Bytes(parts[k][..|parts[k]| - 1])
    ensures Bytes(files[..i]) >= Bytes(Concat(parts[..k + 1]))
  {
    var before, part := Concat(parts[..k]), parts[k];
    ConcatPrefix(parts, k + 1);
    assert parts[..k + 1][..k] == parts[..k];
    var c := |before + part|;
    assert files[..c] == before + part;
    assert files[..c - 1] == before + part[..|part| - 1];
    BytesAppend(before, part[..|part| - 1]);
    if i < c {
      BytesMono(files, i, c - 1);
      assert false;
    }
    BytesMono(files, c, i);
  }

  /** The file that closes a part is not empty. */
  lemma ClosedEnd(parts: seq<seq<nat>>, split: real)
    requires parts != [] && (ClosedPart(parts[|parts| - 1], split) || OpenPart(parts[|parts| - 1], split))
    ensures Bytes(parts[|parts| - 1]) as real >= split ==> Concat(parts) != [] && Concat(parts)[|Concat(parts)| - 1] > 0
  {
  }

  lemma FewParts(files: seq<nat>, nsplits: nat, parts: seq<seq<nat>>, split: real)
    requires PackedInto(files, nsplits, parts, split) && Bytes(files) > 0 && |parts| <= nsplits
    ensures !HitsMultiples(files, split, nsplits)
  {
    if HitsMultiples(files, split, nsplits) {
      var k := |parts| - 1;
      PartsExact(files, nsplits, parts, split, |parts|);
      assert parts[..|parts|] == parts;
      TimesLess(|parts|, nsplits, split);
      NonEmptyParts(files, nsplits, parts, split, k);
      PartsExact(files, nsplits, parts, split, k);
      NextPart(parts, k);
      ClosedEnd(parts, split);
      assert false;
    }
  }

  /**
   * With bytes to split there are at most `nsplits` parts, unless the last file is empty and every multiple of
   * the split size ends some file; then there is one more. Without bytes every file is a part.
   */
  lemma PartsCount(files: seq<nat>, nsplits: nat, parts: seq<seq<nat>>, split: real)
    requires nsplits > 0 && split == Bytes(files) as real / nsplits as real && Packed(files, split, parts)
    ensures Bytes(files) == 0 ==> |parts| == |files|
    ensures Bytes(files) > 0 ==> (|parts| > nsplits <==> SplitsEvenly(files, nsplits))
    ensures Bytes(files) > 0 && |parts| > nsplits ==> |parts| == nsplits + 1
  {
    SplitWhole(Bytes(files), nsplits, split);
    PartsOfSplit(files, nsplits, parts, split);
  }

  lemma PartsOfSplit(files: seq<nat>, nsplits: nat, parts: seq<seq<nat>>, split: real)
    requires PackedInto(files, nsplits, parts, split)
    ensures Bytes(files) == 0 ==> |parts| == |files|
    ensures Bytes(files) > 0 ==> (|parts| > nsplits <==> SplitsEvenly(files, nsplits))
    ensures Bytes(files) > 0 && |parts| > nsplits ==> |parts| == nsplits + 1
  {
    EvenlyIsMultiples(files, nsplits, split);
    if Bytes(files) == 0 {
      SinglesCount(parts);
    } else if |parts| > nsplits {
      BeyondSplits(files, nsplits, parts, split);
    } else {
      FewParts(files, nsplits, parts, split);
    }
  }

  /** If the last file is not empty there are at most `nsplits` parts. */
  lemma AtMostSplits(files: seq<nat>, nsplits: nat, parts: seq<seq<nat>>, split: real)
    requires nsplits > 0 && split == Bytes(files) as real / nsplits as real && Packed(files, split, parts)
    requires files == [] || files[|files| - 1] > 0
    ensures |parts| <= nsplits
  {
    PartsCount(files, nsplits, parts, split);
  }

  /** One part too many however `[1, 0]` is packed into one, two too many for three empty files. */
  lemma TooManyParts(parts: seq<seq<nat>>)
    ensures Packed([1, 0], 1.0 / 1.0, parts) ==> |parts| == 2
    ensures Packed([0, 0, 0], 0.0 / 1.0, parts) ==> |parts| == 3
  {
    assert [1, 0][..1] == [1] && Bytes([1]) == 1 && Bytes([1, 0]) == 1;
    assert Bytes([1, 0][..1]) * 1 == 1 * Bytes([1, 0]);
    assert HitsShare([1, 0], 1, 1);
    assert [0, 0, 0][..2] == [0, 0] && [0, 0][..1] == [0] && Bytes([0]) == 0 && Bytes([0, 0, 0]) == 0;
    if Packed([1, 0], 1.0, parts) {
      PartsCount([1, 0], 1, parts, 1.0);
    }
    if Packed([0, 0, 0], 0.0, parts) {
      PartsCount([0, 0, 0], 1, parts, 0.0);
    }
  }
}

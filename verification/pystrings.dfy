/**
 * Python's `str.split(sep)` for a fixed, non-empty separator, as used by the
 * template parser and the SQL extractor. The separator is searched from the
 * left, occurrences do not overlap, and the pieces between them are returned
 * in order; a string without the separator splits into itself alone.
 *
 * `Find` and `Split` carry only light contracts so that unfolding them stays
 * cheap; what they mean is stated by the lemmas that follow them.
 */
module PyStrings {
  import opened Wrappers

  /** `sep` occurs in `s` starting at index `i`. */
  predicate OccursAt(s: string, sep: string, i: int) {
    0 <= i && i + |sep| <= |s| && s[i..i + |sep|] == sep
  }

  /** `sep` occurs somewhere in `s` (Python's `sep in s`). */
  ghost predicate Contains(s: string, sep: string) {
    exists i :: OccursAt(s, sep, i)
  }

  /** `i` is the leftmost occurrence of `sep` in `s`. */
  ghost predicate FirstOccurrence(s: string, sep: string, i: int) {
    OccursAt(s, sep, i) && forall j :: 0 <= j < i ==> !OccursAt(s, sep, j)
  }

  /** `i` is the rightmost occurrence of `sep` in `s`. */
  ghost predicate LastOccurrence(s: string, sep: string, i: int) {
    OccursAt(s, sep, i) && forall j :: OccursAt(s, sep, j) ==> j <= i
  }

  /**
   * `piece` starts at index `start` of `s` and runs up to the next occurrence
   * of `sep` or to the end of `s`.
   */
  ghost predicate PieceAt(s: string, sep: string, start: int, piece: string) {
    && 0 <= start
    && start + |piece| <= |s|
    && s[start..start + |piece|] == piece
    && !Contains(piece, sep)
    && (start + |piece| == |s| || OccursAt(s, sep, start + |piece|))
  }

  /**
   * No proper prefix of `sep` is also a suffix of it, so two occurrences of
   * `sep` in one string never overlap.
   */
  ghost predicate BorderFree(sep: string) {
    forall k :: 0 < k < |sep| ==> sep[k..] != sep[..|sep| - k]
  }

  /** Occurrences in a suffix are occurrences in the whole string, shifted. */
  lemma OccursInSuffix(s: string, sep: string, k: int, i: int)
    requires 0 <= k <= |s| && 0 <= i
    ensures OccursAt(s[k..], sep, i) <==> OccursAt(s, sep, k + i)
  {
    if i + |sep| <= |s| - k {
      assert s[k..][i..i + |sep|] == s[k + i..k + i + |sep|];
    }
  }

  /** Occurrences in a prefix are the occurrences that end inside it. */
  lemma OccursInPrefix(s: string, sep: string, n: int, i: int)
    requires 0 <= n <= |s|
    ensures OccursAt(s[..n], sep, i) <==> OccursAt(s, sep, i) && i + |sep| <= n
  {
    if 0 <= i && i + |sep| <= n {
      assert s[..n][i..i + |sep|] == s[i..i + |sep|];
    }
  }

  /** `s` begins with `p`, checked character by character. */
  predicate StartsWith(s: string, p: string)
    decreases |p|
  {
    |p| <= |s| && (|p| == 0 || (s[0] == p[0] && StartsWith(s[1..], p[1..])))
  }

  /** `StartsWith` is an occurrence at index 0. */
  lemma {:induction false} StartsWithOccurs(s: string, p: string)
    ensures StartsWith(s, p) <==> OccursAt(s, p, 0)
    decreases |p|
  {
    if |p| > 0 && |p| <= |s| {
      StartsWithOccurs(s[1..], p[1..]);
      assert s[..|p|] == [s[0]] + s[1..][..|p| - 1];
      assert p == [p[0]] + p[1..];
    }
  }

  /** The leftmost index at which `sep` occurs in `s`, if any (Python's `s.find(sep)`). */
  function Find(s: string, sep: string): (r: Option<nat>)
    requires |sep| > 0
    ensures r.Some? ==> r.value + |sep| <= |s|
    decreases |s|
  {
    if |s| < |sep| then
      None
    else if StartsWith(s, sep) then
      Some(0)
    else
      match Find(s[1..], sep)
      case None => None
      case Some(i) => Some(i + 1)
  }

  /** `Find` returns the leftmost occurrence, and nothing exactly when there is none. */
  lemma {:induction false} FindFirst(s: string, sep: string)
    requires |sep| > 0
    ensures Find(s, sep).Some? ==> FirstOccurrence(s, sep, Find(s, sep).value)
    ensures Find(s, sep).None? <==> !Contains(s, sep)
    decreases |s|
  {
    StartsWithOccurs(s, sep);
    if |s| < |sep| {
    } else if StartsWith(s, sep) {
    } else {
      FindFirst(s[1..], sep);
      forall j | 0 <= j
        ensures OccursAt(s[1..], sep, j) <==> OccursAt(s, sep, j + 1)
      {
        OccursInSuffix(s, sep, 1, j);
      }
      match Find(s[1..], sep)
      case None =>
        forall j | OccursAt(s, sep, j)
          ensures false
        {
          OccursInSuffix(s, sep, 1, j - 1);
        }
      case Some(i) =>
        forall j | 0 <= j < i + 1
          ensures !OccursAt(s, sep, j)
        {
          if j > 0 {
            OccursInSuffix(s, sep, 1, j - 1);
          }
        }
    }
  }

  /** `Find` reports an occurrence. */
  lemma FindOccurs(s: string, sep: string, i: nat)
    requires |sep| > 0 && Find(s, sep) == Some(i)
    ensures OccursAt(s, sep, i)
  {
    FindFirst(s, sep);
  }

  /** The text before the first occurrence of `sep` does not contain `sep`. */
  lemma PieceBeforeFirst(s: string, sep: string, i: int)
    requires |sep| > 0 && FirstOccurrence(s, sep, i)
    ensures !Contains(s[..i], sep)
  {
    forall j | OccursAt(s[..i], sep, j)
      ensures false
    {
      OccursInPrefix(s, sep, i, j);
    }
  }

  /** Python's `sep.join(pieces)`; the inverse of `Split`. */
  function Join(pieces: seq<string>, sep: string): string
  {
    if |pieces| == 0 then ""
    else if |pieces| == 1 then pieces[0]
    else pieces[0] + sep + Join(pieces[1..], sep)
  }

  /** Python's `s.split(sep)` for a non-empty `sep`. */
  function Split(s: string, sep: string): (r: seq<string>)
    requires |sep| > 0
    ensures |r| >= 1
    decreases |s|
  {
    match Find(s, sep)
    case None => [s]
    case Some(i) => [s[..i]] + Split(s[i + |sep|..], sep)
  }

  /** Without an occurrence, `Split` returns the string alone. */
  lemma SplitNone(s: string, sep: string)
    requires |sep| > 0
    ensures Find(s, sep).None? ==> Split(s, sep) == [s]
  {
  }

  /** One step of `Split` when the separator occurs at `i`. */
  lemma SplitCons(s: string, sep: string, i: nat)
    requires |sep| > 0 && Find(s, sep) == Some(i)
    ensures i + |sep| <= |s|
    ensures Split(s, sep) == [s[..i]] + Split(s[i + |sep|..], sep)
  {
  }

  /**
   * No piece of a split contains the separator, and the split has a single
   * piece exactly when the separator does not occur.
   */
  lemma {:induction false} SplitPieces(s: string, sep: string)
    requires |sep| > 0
    ensures forall k :: 0 <= k < |Split(s, sep)| ==> !Contains(Split(s, sep)[k], sep)
    ensures |Split(s, sep)| == 1 <==> !Contains(s, sep)
    decreases |s|
  {
    FindFirst(s, sep);
    match Find(s, sep)
    case None =>
    case Some(i) =>
      var rest := s[i + |sep|..];
      SplitCons(s, sep, i);
      PieceBeforeFirst(s, sep, i);
      SplitPieces(rest, sep);
  }


  /** Joining the pieces of a split gives back the original string. */
  lemma {:induction false} JoinSplit(s: string, sep: string)
    requires |sep| > 0
    ensures Join(Split(s, sep), sep) == s
    decreases |s|
  {
    match Find(s, sep)
    case None =>
    case Some(i) =>
      var rest := s[i + |sep|..];
      SplitCons(s, sep, i);
      JoinSplit(rest, sep);
      FindOccurs(s, sep, i);
      assert s == s[..i] + sep + rest;
  }


  /** The 0th piece of a split is a prefix of the split string. */
  lemma HeadPrefix(s: string, sep: string, start: int)
    requires |sep| > 0 && 0 <= start <= |s|
    ensures var h := Split(s[start..], sep)[0];
      start + |h| <= |s| && s[start..start + |h|] == h
  {
    var t := s[start..];
    match Find(t, sep)
    case None =>
    case Some(i) =>
      assert Split(t, sep)[0] == t[..i];
  }

  /** The 0th piece runs to the end or stops at an occurrence of the separator. */
  lemma HeadEnd(s: string, sep: string, start: int)
    requires |sep| > 0 && 0 <= start <= |s|
    ensures var h := Split(s[start..], sep)[0];
      start + |h| == |s| || OccursAt(s, sep, start + |h|)
  {
    var t := s[start..];
    FindFirst(t, sep);
    match Find(t, sep)
    case None =>
    case Some(i) =>
      assert Split(t, sep)[0] == t[..i];
      OccursInSuffix(s, sep, start, i);
  }

  /** When there is more than one piece, the 0th piece stops at the FIRST occurrence. */
  lemma HeadFirst(t: string, sep: string)
    requires |sep| > 0
    ensures |Split(t, sep)| >= 2 ==> FirstOccurrence(t, sep, |Split(t, sep)[0]|)
  {
    FindFirst(t, sep);
    match Find(t, sep)
    case None =>
    case Some(i) =>
      assert Split(t, sep)[0] == t[..i];
  }

  /**
   * The 0th piece of a split of the suffix of `s` from `start` is the text
   * from `start` up to the first occurrence of `sep` there (or to the end).
   */
  lemma SplitHead(s: string, sep: string, start: int)
    requires |sep| > 0 && 0 <= start <= |s|
    ensures PieceAt(s, sep, start, Split(s[start..], sep)[0])
  {
    HeadPrefix(s, sep, start);
    HeadEnd(s, sep, start);
    SplitPieces(s[start..], sep);
  }

  /**
   * The 1st piece of a split is the text from just after the first
   * occurrence of the separator up to the next one (or to the end).
   */
  lemma SplitSecond(s: string, sep: string)
    requires |sep| > 0 && |Split(s, sep)| >= 2
    ensures PieceAt(s, sep, |Split(s, sep)[0]| + |sep|, Split(s, sep)[1])
  {
    SplitNone(s, sep);
    var i := Find(s, sep).value;
    assert i + |sep| <= |s| && |Split(s, sep)[0]| == i
      && Split(s, sep)[1] == Split(s[i + |sep|..], sep)[0] by {
      SplitCons(s, sep, i);
    }
    assert PieceAt(s, sep, i + |sep|, Split(s[i + |sep|..], sep)[0]) by {
      SplitHead(s, sep, i + |sep|);
    }
  }


  /**
   * The last piece of a split is a suffix of `s`, and when `s` contains `sep`
   * an occurrence of `sep` ends exactly where that suffix begins.
   */
  lemma LastPiece(s: string, sep: string)
    requires |sep| > 0
    ensures var ps := Split(s, sep); var q := ps[|ps| - 1];
      && |q| <= |s|
      && s[|s| - |q|..] == q
      && (|ps| >= 2 ==> OccursAt(s, sep, |s| - |q| - |sep|))
  {
    JoinSplit(s, sep);
    JoinEnd(Split(s, sep), sep);
  }

  /** A join ends with its last piece, preceded by the separator when there are two or more. */
  lemma JoinEnd(ps: seq<string>, sep: string)
    requires |ps| >= 1
    ensures var s := Join(ps, sep); var q := ps[|ps| - 1];
      && |q| <= |s|
      && s[|s| - |q|..] == q
      && (|ps| >= 2 ==> OccursAt(s, sep, |s| - |q| - |sep|))
  {
    var s := Join(ps, sep);
    var q := ps[|ps| - 1];
    if |ps| >= 2 {
      JoinLast(ps, sep);
      var init := Join(ps[..|ps| - 1], sep);
      assert s[|init|..|init| + |sep|] == sep;
      assert s[|s| - |q|..] == q;
    }
  }


  /** A join of two or more pieces ends with the separator and the last piece. */
  lemma {:induction false} JoinLast(ps: seq<string>, sep: string)
    requires |ps| >= 2
    ensures Join(ps, sep) == Join(ps[..|ps| - 1], sep) + sep + ps[|ps| - 1]
  {
    if |ps| > 2 {
      JoinLast(ps[1..], sep);
      assert ps[1..][..|ps| - 2] == ps[..|ps| - 1][1..];
    }
  }


  /** Two overlapping occurrences of `sep` make a border of `sep`. */
  lemma OverlapBorder(s: string, sep: string, a: int, b: int)
    requires OccursAt(s, sep, a) && OccursAt(s, sep, b) && a < b < a + |sep|
    ensures sep[b - a..] == sep[..|sep| - (b - a)]
  {
    var d := b - a;
    forall t | 0 <= t < |sep| - d
      ensures sep[d..][t] == sep[..|sep| - d][t]
    {
      assert sep[d + t] == s[a + d + t];
      assert sep[t] == s[b + t];
    }
  }

  /**
   * Occurrences of a border-free separator at `a` and `b` cannot both exist
   * when they would overlap.
   */
  lemma NoOverlap(s: string, sep: string, a: int, b: int)
    requires BorderFree(sep) && a < b < a + |sep|
    ensures !OccursAt(s, sep, a) || !OccursAt(s, sep, b)
  {
    if OccursAt(s, sep, a) && OccursAt(s, sep, b) {
      OverlapBorder(s, sep, a, b);
      assert false;
    }
  }

  /** A separator whose last character occurs nowhere else in it is border-free. */
  lemma LastCharUnique(sep: string)
    requires |sep| > 0
    requires forall i :: 0 <= i < |sep| - 1 ==> sep[i] != sep[|sep| - 1]
    ensures BorderFree(sep)
  {
    forall k | 0 < k < |sep|
      ensures sep[k..] != sep[..|sep| - k]
    {
      assert sep[k..][|sep| - k - 1] == sep[|sep| - 1];
      assert sep[..|sep| - k][|sep| - k - 1] == sep[|sep| - k - 1];
    }
  }

  /**
   * For a border-free separator, the last piece of a split is exactly the
   * text after the LAST occurrence of the separator.
   */
  lemma LastPieceAfterLastOccurrence(s: string, sep: string)
    requires |sep| > 0 && BorderFree(sep)
    ensures var ps := Split(s, sep); var q := ps[|ps| - 1];
      && |q| <= |s| && s[|s| - |q|..] == q
      && (|ps| >= 2 ==> LastOccurrence(s, sep, |s| - |q| - |sep|))
  {
    var ps := Split(s, sep);
    var q := ps[|ps| - 1];
    LastPiece(s, sep);
    SplitPieces(s, sep);
    if |ps| >= 2 {
      var m := |s| - |q| - |sep|;
      forall j | m < j
        ensures !OccursAt(s, sep, j)
      {
        if j < |s| - |q| {
          NoOverlap(s, sep, m, j);
        } else {
          OccursInSuffix(s, sep, |s| - |q|, j - (|s| - |q|));
        }
      }
    }
  }

  /**
   * Splitting undoes joining: pieces that do not contain a border-free
   * separator are recovered exactly from their join.
   */
  lemma {:induction false} SplitJoin(pieces: seq<string>, sep: string)
    requires |sep| > 0 && BorderFree(sep) && |pieces| >= 1
    requires forall k :: 0 <= k < |pieces| ==> !Contains(pieces[k], sep)
    ensures Split(Join(pieces, sep), sep) == pieces
  {
    var s := Join(pieces, sep);
    FindFirst(s, sep);
    if |pieces| == 1 {
      assert Find(s, sep).None?;
    } else {
      var p0 := pieces[0];
      var rest := Join(pieces[1..], sep);
      assert s == p0 + sep + rest;
      var n := |p0|;
      assert s[n..n + |sep|] == sep;
      assert s[..n] == p0;
      assert s[n + |sep|..] == rest;
      forall j | 0 <= j < n
        ensures !OccursAt(s, sep, j)
      {
        if j + |sep| <= n {
          OccursInPrefix(s, sep, n, j);
        } else {
          NoOverlap(s, sep, j, n);
        }
      }
      assert OccursAt(s, sep, n);
      assert Find(s, sep) == Some(n);
      SplitCons(s, sep, n);
      SplitJoin(pieces[1..], sep);
    }
  }

  /**
   * Right after a separator-free text, a non-self-overlapping separator
   * occurs for the first time.
   */
  lemma FirstAtBoundary(a: string, sep: string, b: string)
    requires |sep| > 0 && BorderFree(sep) && !Contains(a, sep)
    ensures FirstOccurrence(a + sep + b, sep, |a|)
  {
    var s := a + sep + b;
    assert s[|a|..|a| + |sep|] == sep;
    assert s[..|a|] == a;
    forall j | 0 <= j < |a|
      ensures !OccursAt(s, sep, j)
    {
      if j + |sep| <= |a| {
        OccursInPrefix(s, sep, |a|, j);
      } else {
        NoOverlap(s, sep, j, |a|);
      }
    }
  }

  /**
   * Splitting at a known first occurrence: the 0th piece is the text before
   * it and the 1st piece is the head of the split of the rest.
   */
  lemma SplitAtFirst(s: string, sep: string, i: int)
    requires |sep| > 0 && FirstOccurrence(s, sep, i)
    ensures |Split(s, sep)| >= 2 && Split(s, sep)[0] == s[..i]
    ensures Split(s, sep)[1] == Split(s[i + |sep|..], sep)[0]
  {
    FindFirst(s, sep);
    var j := Find(s, sep).value;
    assert j == i;
    SplitCons(s, sep, i);
  }

  /** An occurrence inside a slice of `s` is an occurrence in `s`, shifted by the slice start. */
  lemma OccursInSlice(s: string, sep: string, lo: int, hi: int, i: int)
    requires 0 <= lo <= hi <= |s| && 0 <= i
    requires OccursAt(s[lo..hi], sep, i)
    ensures OccursAt(s, sep, lo + i)
  {
    assert s[lo..hi] == s[lo..][..hi - lo];
    OccursInPrefix(s[lo..], sep, hi - lo, i);
    OccursInSuffix(s, sep, lo, i);
  }

  /** A prefix of a string free of `sep` is free of `sep`. */
  lemma PrefixFree(s: string, sep: string, n: int)
    requires 0 <= n <= |s| && !Contains(s, sep)
    ensures !Contains(s[..n], sep)
  {
    forall i | OccursAt(s[..n], sep, i)
      ensures false
    {
      OccursInPrefix(s, sep, n, i);
    }
  }

  /** A suffix of a string free of `sep` is free of `sep`. */
  lemma SuffixFree(s: string, sep: string, k: int)
    requires 0 <= k <= |s| && !Contains(s, sep)
    ensures !Contains(s[k..], sep)
  {
    forall i | OccursAt(s[k..], sep, i)
      ensures false
    {
      OccursInSuffix(s, sep, k, i);
    }
  }

  /**
   * A separator that overlaps itself can occur after the start of the last
   * piece: "aaa" splits on "aa" into "" and "a", yet "aa" also occurs at 1.
   */
  lemma SelfOverlapSplit(s: string, sep: string)
    requires s == "aaa" && sep == "aa"
    ensures Split(s, sep) == ["", "a"] && OccursAt(s, sep, 1)
  {
    assert StartsWith(s, sep);
    assert Split(s, sep) == [s[..0]] + Split(s[2..], sep);
    assert s[2..] == "a";
    assert Find(s[2..], sep).None?;
  }
}

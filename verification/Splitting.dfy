/** Cutting a text at separators, for every list syntax of the module: names at '|', URLs at ',' and newline. */
module Splitting {
  /** Where the segment that starts at i ends. */
  function Stop(s: string, i: nat, sep: char -> bool): (j: nat)
    requires i <= |s|
    ensures i <= j <= |s| && (j < |s| ==> sep(s[j])) && (forall k | i <= k < j :: !sep(s[k]))
    decreases |s| - i
  {
    if i == |s| || sep(s[i]) then i else Stop(s, i + 1, sep)
  }

  /** The segments of s[i..] between separators; the empty text has one, empty, segment. */
  function Segments(s: string, i: nat, sep: char -> bool): seq<string>
    requires i <= |s|
    decreases |s| - i
  {
    var j := Stop(s, i, sep);
    if j == |s| then [s[i..]] else [s[i..j]] + Segments(s, j + 1, sep)
  }

  lemma {:induction false} StopIs(s: string, i: nat, j: nat, sep: char -> bool)
    requires i <= j <= |s| && (j < |s| ==> sep(s[j])) && forall k | i <= k < j :: !sep(s[k])
    ensures Stop(s, i, sep) == j
    decreases j - i
  {
    if i == j {
    } else {
      StopIs(s, i + 1, j, sep);
    }
  }

  /** The first segment and the rest. */
  lemma SegmentsStep(s: string, i: nat, sep: char -> bool)
    requires i <= |s|
    ensures var j := Stop(s, i, sep);
            Segments(s, i, sep) == [s[i..j]] + if j == |s| then [] else Segments(s, j + 1, sep)
  {
    var j := Stop(s, i, sep);
    if j == |s| {
      assert s[i..] == s[i..j] && [s[i..j]] + [] == [s[i..j]];
    }
  }

  /** The same, for whoever has found the end. */
  lemma SegmentStep(s: string, i: nat, j: nat, sep: char -> bool)
    requires i <= j <= |s| && (j < |s| ==> sep(s[j])) && forall k | i <= k < j :: !sep(s[k])
    ensures Segments(s, i, sep) == [s[i..j]] + if j == |s| then [] else Segments(s, j + 1, sep)
  {
    hide Stop, Segments;
    StopIs(s, i, j, sep);
    SegmentsStep(s, i, sep);
  }

  lemma LastSegment(s: string, sep: char -> bool)
    ensures Segments(s, |s|, sep) == [""]
  {
    assert s[|s|..] == "";
  }

  lemma InCons(n: string, x: string, rest: seq<string>)
    ensures n in [x] + rest <==> n == x || n in rest
  {
    var all := [x] + rest;
    assert all[0] == x;
    if n in rest {
      var i :| 0 <= i < |rest| && rest[i] == n;
      assert all[i + 1] == n;
    }
  }

  // ---- joined texts ------------------------------------------------------------

  /** A separator at k cuts the segments of s[i..] into those before it and those after it. */
  lemma {:induction false} SegmentsAround(s: string, i: nat, k: nat, sep: char -> bool)
    requires i <= k < |s| && sep(s[k])
    ensures Segments(s, i, sep) == Segments(s[..k], i, sep) + Segments(s, k + 1, sep)
    decreases k - i
  {
    hide Stop, Segments;
    var t := s[..k];
    var j := Stop(t, i, sep);
    StopBefore(s, i, k, sep);
    SegmentsStep(s, i, sep);
    SegmentsStep(t, i, sep);
    assert t[i..j] == s[i..j];
    if j == k {
      assert [s[i..j]] + [] == [s[i..j]];
    } else {
      SegmentsAround(s, j + 1, k, sep);
      Assoc([s[i..j]], Segments(t, j + 1, sep), Segments(s, k + 1, sep));
    }
  }

  lemma Assoc<T>(a: seq<T>, b: seq<T>, c: seq<T>)
    ensures a + (b + c) == a + b + c
  {
  }

  lemma {:induction false} StopBefore(s: string, i: nat, k: nat, sep: char -> bool)
    requires i <= k < |s| && sep(s[k])
    ensures Stop(s, i, sep) == Stop(s[..k], i, sep)
    decreases k - i
  {
    if i == k || sep(s[i]) {
    } else {
      StopBefore(s, i + 1, k, sep);
    }
  }

  lemma {:induction false} SegmentsFrom(s: string, k: nat, i: nat, sep: char -> bool)
    requires k <= |s| && i <= |s| - k
    ensures Segments(s, k + i, sep) == Segments(s[k..], i, sep)
    decreases |s| - k - i
  {
    hide Stop, Segments;
    var t := s[k..];
    var j := Stop(t, i, sep);
    StopFrom(s, k, i, sep);
    SegmentsStep(s, k + i, sep);
    SegmentsStep(t, i, sep);
    assert s[k + i..k + j] == t[i..j];
    if j == |t| {
    } else {
      SegmentsFrom(s, k, j + 1, sep);
    }
  }

  lemma {:induction false} StopFrom(s: string, k: nat, i: nat, sep: char -> bool)
    requires k <= |s| && i <= |s| - k
    ensures Stop(s, k + i, sep) == k + Stop(s[k..], i, sep)
    decreases |s| - k - i
  {
    if i == |s| - k || sep(s[k + i]) {
    } else {
      StopFrom(s, k, i + 1, sep);
    }
  }

  /** A separator between two texts gives the segments of the one and then of the other. */
  lemma JoinedSegments(a: string, c: char, b: string, sep: char -> bool)
    requires sep(c)
    ensures Segments(a + [c] + b, 0, sep) == Segments(a, 0, sep) + Segments(b, 0, sep)
  {
    hide Segments;
    var s := a + [c] + b;
    assert s[|a|] == c && s[..|a|] == a && s[|a| + 1..] == b;
    SegmentsAround(s, 0, |a|, sep);
    SegmentsFrom(s, |a| + 1, 0, sep);
  }
}

/**
 The warm list: URLs separated by ',' or newline, each checked and fired at most once, up to a limit. Decoding
 and the firing of a warm subrequest are foreign: `unescape` is any function, `fires(i)` what the i-th segment's
 subrequest would answer, `room(i)` whether its buffer could be allocated.
 */
module Warm {
  import opened Options
  import opened Splitting

  const LINE_MAX := 2048

  datatype Entry = Entry(uri: string, args: Option<string>, raw: string)

  // ---- separators --------------------------------------------------------------

  predicate Sep(c: char) { c == ',' || c == '\n' }

  predicate Newline(c: char) { c == '\n' }

  predicate Slash(c: char) { c == '/' }

  // ---- the two gates -------------------------------------------------------------

  /** A decoded path without NUL, none of whose segments after the leading slash is "..". */
  predicate SafePath(uri: string)
    requires uri != ""
  {
    '\0' !in uri && ".." !in Segments(uri, 1, Slash)
  }

  predicate SafeRaw(raw: string) {
    forall i | 0 <= i < |raw| :: raw[i] as int >= 0x21 && raw[i] as int != 0x7F
  }

  method HasNul(uri: string) returns (nul: bool)
    ensures nul <==> '\0' in uri
  {
    for p := 0 to |uri|
      invariant '\0' !in uri[..p]
    {
      if uri[p] == '\0' {
        return true;
      }
    }
    assert uri[..|uri|] == uri;
    nul := false;
  }

  /** warm_uri_is_safe: one scan for NUL, one in place for "..". */
  method UriIsSafe(uri: string) returns (ok: bool)
    requires uri != ""
    ensures ok <==> SafePath(uri)
  {
    var nul := HasNul(uri);
    if nul {
      return false;
    }
    var seg, p := 1, 1;
    ghost var all := Segments(uri, 1, Slash);
    hide Segments;
    while p < |uri|
      invariant 1 <= seg <= p <= |uri| && forall k | seg <= k < p :: uri[k] != '/'
      invariant ".." in all <==> ".." in Segments(uri, seg, Slash)
    {
      if uri[p] == '/' {
        SegmentEnds(uri, seg, p);
        if p - seg == 2 && uri[seg] == '.' && uri[seg + 1] == '.' {
          return false;
        }
        seg := p + 1;
      }
      p := p + 1;
    }
    SegmentEnds(uri, seg, p);
    ok := !(|uri| - seg == 2 && uri[seg] == '.' && uri[seg + 1] == '.');
  }

  /** The segment that ends at p is ".." or not, and the rest follows. */
  lemma SegmentEnds(s: string, i: nat, p: nat)
    requires i <= p <= |s| && (p < |s| ==> s[p] == '/') && forall k | i <= k < p :: s[k] != '/'
    ensures ".." in Segments(s, i, Slash)
            <==> (p - i == 2 && s[i] == '.' && s[i + 1] == '.') || (p < |s| && ".." in Segments(s, p + 1, Slash))
  {
    SegmentStep(s, i, p, Slash);
    DotDot(s, i, p);
    hide Segments;
    InCons("..", s[i..p], if p == |s| then [] else Segments(s, p + 1, Slash));
  }

  lemma DotDot(s: string, i: nat, j: nat)
    requires i <= j <= |s|
    ensures s[i..j] == ".." <==> j - i == 2 && s[i] == '.' && s[i + 1] == '.'
  {
    if s[i..j] == ".." {
      assert |s[i..j]| == 2 && s[i] == s[i..j][0] && s[i + 1] == s[i..j][1];
    }
  }

  method RawIsSafe(raw: string) returns (ok: bool)
    ensures ok <==> SafeRaw(raw)
  {
    for p := 0 to |raw|
      invariant forall i | 0 <= i < p :: raw[i] as int >= 0x21 && raw[i] as int != 0x7F
    {
      if (raw[p] as int) < 0x21 || raw[p] as int == 0x7F {
        return false;
      }
    }
    ok := true;
  }

  // ---- one entry -----------------------------------------------------------------

  /** One trailing carriage return goes. */
  function Trimmed(seg: string): string {
    if seg != "" && seg[|seg| - 1] == '\r' then seg[..|seg| - 1] else seg
  }

  function Question(c: char): bool { c == '?' }

  /** A segment as URI, arguments after the first '?', and the raw text of both. */
  function Parsed(seg: string): Entry {
    var raw := Trimmed(seg);
    var q := Stop(raw, 0, Question);
    Entry(raw[..q], if q == |raw| then None else Some(raw[q + 1..]), raw)
  }

  /** A segment worth an allocation: its URI starts with a slash. */
  predicate Rooted(seg: string) {
    var e := Parsed(seg);
    e.uri != "" && e.uri[0] == '/'
  }

  /** What the list promises to fire, in its own terms. */
  predicate Accepted(seg: string, unescape: string -> string) {
    var e := Parsed(seg);
    Rooted(seg) && unescape(e.uri) != "" && unescape(e.uri)[0] == '/' && SafePath(unescape(e.uri)) && SafeRaw(e.raw)
  }

  function Fired(seg: string, unescape: string -> string): Entry {
    Parsed(seg).(uri := unescape(Parsed(seg).uri))
  }

  method ParseSegment(seg: string) returns (e: Entry)
    ensures e == Parsed(seg)
  {
    var raw := seg;
    if |raw| > 0 && raw[|raw| - 1] == '\r' {
      raw := raw[..|raw| - 1];
    }
    var q := 0;
    while q < |raw| && raw[q] != '?'
      invariant 0 <= q <= |raw| && forall k | 0 <= k < q :: raw[k] != '?'
    {
      q := q + 1;
    }
    StopIs(raw, 0, q, Question);
    e := Entry(raw[..q], if q == |raw| then None else Some(raw[q + 1..]), raw);
  }

  // ---- the whole list --------------------------------------------------------------

  /** The entries of segs, the first being the n-th of the list, that are accepted and fire: in order. */
  function Filtered(segs: seq<string>, n: nat, unescape: string -> string, fires: nat -> bool): seq<Entry> {
    if segs == [] then []
    else (if Accepted(segs[0], unescape) && fires(n) then [Fired(segs[0], unescape)] else [])
         + Filtered(segs[1..], n + 1, unescape, fires)
  }

  function Take(es: seq<Entry>, max: nat): seq<Entry> {
    if |es| <= max then es else es[..max]
  }

  lemma FilteredStep(segs: seq<string>, n: nat, unescape: string -> string, fires: nat -> bool)
    requires n < |segs|
    ensures Filtered(segs[n..], n, unescape, fires)
            == (if Accepted(segs[n], unescape) && fires(n) then [Fired(segs[n], unescape)] else [])
               + Filtered(segs[n + 1..], n + 1, unescape, fires)
  {
    hide Accepted, Fired;
    assert segs[n..][0] == segs[n] && segs[n..][1..] == segs[n + 1..];
  }

  /** At the end of the text at most one empty segment is left, and it fires nothing. */
  lemma NothingLeft(segs: seq<string>, n: nat, unescape: string -> string, fires: nat -> bool)
    requires n <= |segs| && (segs[n..] == [] || segs[n..] == [""])
    ensures Filtered(segs[n..], n, unescape, fires) == []
  {
    if n < |segs| {
      FilteredStep(segs, n, unescape, fires);
      assert segs[n] == segs[n..][0] && segs[n + 1..] == [];
    }
  }

  /** The next separator from p on: the nearer of the next comma and the next newline, or the end. */
  method NextSep(urls: string, p: nat) returns (sep: nat)
    requires p <= |urls|
    ensures p <= sep <= |urls|
    ensures Segments(urls, p, Sep) == [urls[p..sep]] + if sep == |urls| then [] else Segments(urls, sep + 1, Sep)
  {
    sep := p;
    while sep < |urls| && urls[sep] != ',' && urls[sep] != '\n'
      invariant p <= sep <= |urls| && forall k | p <= k < sep :: !Sep(urls[k])
    {
      sep := sep + 1;
    }
    SegmentStep(urls, p, sep, Sep);
  }

  /** warm: fire the accepted entries in list order until the limit; None when a buffer could not be had. */
  method WarmList(urls: string, max: nat, unescape: string -> string, fires: nat -> bool, room: nat -> bool)
    returns (warmed: Option<seq<Entry>>)
    ensures warmed.Some? ==> warmed.value == Take(Filtered(Segments(urls, 0, Sep), 0, unescape, fires), max)
    ensures warmed.None? ==> exists n :: 0 <= n < |Segments(urls, 0, Sep)| && Rooted(Segments(urls, 0, Sep)[n]) && !room(n)
  {
    ghost var all := Segments(urls, 0, Sep);
    ghost var want := Filtered(all, 0, unescape, fires);
    var p, n, done: seq<Entry> := 0, 0, [];
    assert [] + want == want && all[0..] == all;
    LastSegment(urls, Sep);
    hide Filtered, Segments, Accepted, Fired, Rooted, Take;
    while p < |urls| && |done| < max
      invariant 0 <= p <= |urls| && |done| <= max && n <= |all|
      invariant all[n..] == Segments(urls, p, Sep) || (p == |urls| && all[n..] == [])
      invariant want == done + Filtered(all[n..], n, unescape, fires)
      decreases |urls| - p
    {
      var sep := NextSep(urls, p);
      TailOf(all, n, urls[p..sep], if sep == |urls| then [] else Segments(urls, sep + 1, Sep));
      FilteredStep(all, n, unescape, fires);
      var x := [];
      if sep > p {
        var out := WarmSegment(urls[p..sep], unescape, fires(n), room(n));
        if out.None? {
          return None;
        }
        x := out.value;
      } else {
        EmptyNotAccepted(urls[p..sep], unescape);
      }
      Assoc(done, x, Filtered(all[n + 1..], n + 1, unescape, fires));
      done := done + x;
      n := n + 1;
      if sep == |urls| {
        p := |urls|;
      } else {
        p := sep + 1;
      }
    }
    if p == |urls| {
      NothingLeft(all, n, unescape, fires);
    }
    TakeIs(done, Filtered(all[n..], n, unescape, fires), max);
    warmed := Some(done);
  }

  lemma TailOf(all: seq<string>, n: nat, head: string, rest: seq<string>)
    requires n <= |all| && all[n..] == [head] + rest
    ensures n < |all| && all[n] == head && all[n + 1..] == rest
  {
    assert all[n] == all[n..][0] && all[n + 1..] == all[n..][1..];
  }

  lemma TakeIs(done: seq<Entry>, rest: seq<Entry>, max: nat)
    requires |done| <= max && (|done| == max || rest == [])
    ensures Take(done + rest, max) == done
  {
    if rest == [] {
      assert done + rest == done;
    }
  }

  /** One nonempty segment: nothing or one entry fired; None when its buffer could not be had. */
  method WarmSegment(seg: string, unescape: string -> string, fires: bool, room: bool) returns (out: Option<seq<Entry>>)
    ensures out.None? <==> Rooted(seg) && !room
    ensures out.Some? ==> out.value == if Accepted(seg, unescape) && fires then [Fired(seg, unescape)] else []
  {
    var e := ParseSegment(seg);
    if e.uri == "" || e.uri[0] != '/' {
      return Some([]);
    }
    if !room {
      return None;
    }
    var fired := WarmOne(e, unescape, fires);
    out := Some(if fired then [e.(uri := unescape(e.uri))] else []);
  }

  /** The gates in front of warm_one, and what it answered. */
  method WarmOne(e: Entry, unescape: string -> string, fires: bool) returns (ok: bool)
    ensures ok <==> unescape(e.uri) != "" && unescape(e.uri)[0] == '/' && SafePath(unescape(e.uri)) && SafeRaw(e.raw) && fires
  {
    var uri := unescape(e.uri);
    if uri == "" || uri[0] != '/' {
      return false;
    }
    ok := UriIsSafe(uri);
    if ok {
      ok := RawIsSafe(e.raw);
    }
    ok := ok && fires;
  }

  lemma EmptyNotAccepted(seg: string, unescape: string -> string)
    requires |seg| == 0
    ensures !Accepted(seg, unescape)
  {
  }

  predicate Fits(lines: seq<string>) {
    forall l | l in lines :: |l| <= LINE_MAX
  }

  lemma FitsCons(line: string, rest: seq<string>)
    ensures Fits([line] + rest) <==> |line| <= LINE_MAX && Fits(rest)
  {
    assert forall l :: l in [line] + rest <==> l == line || l in rest;
  }

  /** The line that ends at p fits or not, and the rest follows. */
  lemma LineEnds(s: string, i: nat, p: nat)
    requires i <= p <= |s| && (p < |s| ==> s[p] == '\n') && forall k | i <= k < p :: s[k] != '\n'
    ensures Fits(Segments(s, i, Newline)) <==> p - i <= LINE_MAX && (p < |s| ==> Fits(Segments(s, p + 1, Newline)))
  {
    hide Segments;
    SegmentStep(s, i, p, Newline);
    FitsCons(s[i..p], if p == |s| then [] else Segments(s, p + 1, Newline));
    assert |s[i..p]| == p - i;
  }

  /** warm_file_finish: every line of the file within the length limit. */
  method LinesFit(list: string) returns (ok: bool)
    ensures ok <==> Fits(Segments(list, 0, Newline))
  {
    hide Segments, Fits;
    var p, lineStart := 0, 0;
    ghost var all := Segments(list, 0, Newline);
    while p < |list|
      invariant 0 <= lineStart <= p <= |list| && forall k | lineStart <= k < p :: list[k] != '\n'
      invariant Fits(all) <==> Fits(Segments(list, lineStart, Newline))
    {
      if list[p] == '\n' {
        LineEnds(list, lineStart, p);
        if p - lineStart > LINE_MAX {
          return false;
        }
        lineStart := p + 1;
      }
      p := p + 1;
    }
    LineEnds(list, lineStart, p);
    ok := |list| - lineStart <= LINE_MAX;
  }
}

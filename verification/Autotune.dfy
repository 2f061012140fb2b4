/**
 Autotune: one verdict per window of the zone's counters, and the load factor that widens stale windows and
 lock times. The tuning constants stay symbolic; Sane lists all that is used of them.
 */
module Autotune {
  import opened Options

  datatype Params = Params(missesFloor: nat, strongMs: nat, modMs: nat, hitRateCap: nat, churnCap: nat,
                           betaMin: nat, betaMax: nat, costDivisor: nat,
                           loadBase: nat, loadMax: nat, loadPerMs: nat, interval: nat)

  predicate Sane(k: Params) {
    && 0 < k.betaMin <= k.betaMax && 0 < k.costDivisor && 0 < k.interval
    && 0 < k.loadBase <= k.loadMax <= 4 * k.loadBase && k.modMs * k.loadPerMs == k.loadBase
  }

  /** What the counters did between two snapshots. */
  datatype Window = Window(hits: nat, misses: nat, refreshes: nat, costSum: nat, costCount: nat)

  datatype Tune = Tune(beta: nat, load: nat)

  // ---- the verdict -----------------------------------------------------------

  predicate TooLittle(k: Params, w: Window) {
    w.hits + w.misses < k.missesFloor || w.costCount == 0
  }

  function CostMs(w: Window): nat
    requires w.costCount > 0
  {
    w.costSum / w.costCount
  }

  /** Slow enough, often enough missed, and not mostly churn. */
  predicate UnderLoad(k: Params, w: Window)
    requires w.costCount > 0
  {
    && ((CostMs(w) >= k.strongMs && w.misses >= k.missesFloor)
        || (CostMs(w) >= k.modMs && w.hits * 100 < (w.hits + w.misses) * k.hitRateCap))
    && w.refreshes <= w.misses * k.churnCap
  }

  function Clamp(lo: nat, x: nat, hi: nat): nat {
    if x < lo then lo else if x > hi then hi else x
  }

  /** None: too little data, keep the last verdict. Beta 0: nothing published over the preset. */
  function Verdict(k: Params, w: Window): Option<Tune>
    requires k.costDivisor > 0
  {
    if TooLittle(k, w) then None
    else if !UnderLoad(k, w) then Some(Tune(0, k.loadBase))
    else Some(Tune(Clamp(k.betaMin, CostMs(w) * 1000 / k.costDivisor, k.betaMax),
                   Clamp(k.loadBase, CostMs(w) * k.loadPerMs, k.loadMax)))
  }

  /** autotune_verdict; -1 is None. */
  method AutotuneVerdict(k: Params, d: Window) returns (r: Option<Tune>)
    requires k.costDivisor > 0
    ensures r == Verdict(k, d)
  {
    var total := d.hits + d.misses;
    if total < k.missesFloor || d.costCount == 0 {
      return None;
    }
    var costMs := d.costSum / d.costCount;
    var qualifies := false;
    if costMs >= k.strongMs && d.misses >= k.missesFloor {
      qualifies := true;
    } else if costMs >= k.modMs && d.hits * 100 < total * k.hitRateCap {
      qualifies := true;
    }
    if qualifies && d.refreshes > d.misses * k.churnCap {
      qualifies := false;
    }
    if !qualifies {
      return Some(Tune(0, k.loadBase));
    }
    var beta := costMs * 1000 / k.costDivisor;
    if beta < k.betaMin {
      beta := k.betaMin;
    } else if beta > k.betaMax {
      beta := k.betaMax;
    }
    var load := costMs * k.loadPerMs;
    if load < k.loadBase {
      load := k.loadBase;
    } else if load > k.loadMax {
      load := k.loadMax;
    }
    r := Some(Tune(beta, load));
  }

  /** A pair that may be published. */
  predicate InBounds(k: Params, t: Tune) {
    (t == Tune(0, k.loadBase)) || (k.betaMin <= t.beta <= k.betaMax && k.loadBase <= t.load <= k.loadMax)
  }

  lemma VerdictInBounds(k: Params, w: Window)
    requires Sane(k)
    ensures Verdict(k, w).Some? ==> InBounds(k, Verdict(k, w).value)
  {
  }

  /** Load rises with the origin's cost, and leaves the baseline exactly past the moderate gate. */
  lemma LoadFollowsCost(k: Params, v: Window, w: Window)
    requires Sane(k) && !TooLittle(k, v) && !TooLittle(k, w) && UnderLoad(k, v) && UnderLoad(k, w)
    ensures CostMs(v) <= CostMs(w) ==> Verdict(k, v).value.load <= Verdict(k, w).value.load
    ensures CostMs(w) == k.modMs ==> Verdict(k, w).value.load == k.loadBase
    ensures Verdict(k, w).value.load == k.loadBase ==> CostMs(w) <= k.modMs || k.loadMax == k.loadBase
  {
    if CostMs(v) <= CostMs(w) {
      MulMono(CostMs(v), CostMs(w), k.loadPerMs);
    }
    if CostMs(w) > k.modMs {
      MulMono(k.modMs + 1, CostMs(w), k.loadPerMs);
      assert (k.modMs + 1) * k.loadPerMs == k.loadBase + k.loadPerMs;
      assert k.loadPerMs > 0;
    }
  }

  lemma MulMono(a: nat, b: nat, c: nat)
    requires a <= b
    ensures a * c <= b * c
  {
  }

  // ---- the zone ----------------------------------------------------------------

  function Plus(v: Window, w: Window): Window {
    Window(v.hits + w.hits, v.misses + w.misses, v.refreshes + w.refreshes, v.costSum + w.costSum,
           v.costCount + w.costCount)
  }

  const NO_WINDOW := Window(0, 0, 0, 0, 0)

  function Total(ws: seq<Window>): Window {
    if ws == [] then NO_WINDOW else Plus(Total(ws[..|ws| - 1]), ws[|ws| - 1])
  }

  predicate AtMost(v: Window, w: Window) {
    v.hits <= w.hits && v.misses <= w.misses && v.refreshes <= w.refreshes && v.costSum <= w.costSum
    && v.costCount <= w.costCount
  }

  /** A throttled recompute: when it claimed its slot, and for how long. */
  datatype Slot = Slot(at: int, interval: nat)

  /** Counters, snapshot and verdict in shared memory; windows and slots are the history of a run. */
  class Zone {
    const k: Params
    var counters: Window
    var snap: Window
    var tuned: Tune
    var next: int
    var windows: seq<Window>
    var slots: seq<Slot>

    constructor (k: Params)
      requires Sane(k)
      ensures Valid() && this.k == k && counters == NO_WINDOW && tuned == Tune(0, 0) && windows == [] && slots == []
    {
      this.k := k;
      counters, snap, tuned, next, windows, slots := NO_WINDOW, NO_WINDOW, Tune(0, 0), 0, [], [];
    }

    /** Window deltas telescope, slots are an interval apart, and the verdict is that of one window. */
    predicate Valid()
      reads this
    {
      && Sane(k)
      && snap == Total(windows) && AtMost(snap, counters)
      && (forall i | 0 <= i < |slots| :: slots[i].interval > 0)
      && (forall i | 0 < i < |slots| :: slots[i].at >= slots[i - 1].at + slots[i - 1].interval)
      && (slots != [] ==> next == slots[|slots| - 1].at + slots[|slots| - 1].interval)
      && tuned == Latest(k, windows)
    }

    /** Workers count; counters only grow. */
    method Count(d: Window)
      requires Valid()
      modifies this`counters
      ensures Valid() && counters == Plus(old(counters), d)
    {
      counters := Plus(counters, d);
    }

    /** autotune_recompute_locked: the snapshot moves even when there is no verdict. */
    method Recompute()
      requires Valid()
      modifies this`snap, this`tuned, this`windows
      ensures Valid() && snap == counters
      ensures var w := Minus(counters, old(snap));
              windows == old(windows) + [w]
              && tuned == match Verdict(k, w) case Some(t) => t case None => old(tuned)
    {
      hide Verdict, Latest, Total, Sane;
      assert k.costDivisor > 0 by { SaneDivides(k); }
      var w := Minus(counters, snap);
      var verdict := AutotuneVerdict(k, w);
      LatestAppend(k, windows, w);
      TotalAppend(windows, w);
      snap := counters;
      windows := windows + [w];
      if verdict.Some? {
        tuned := verdict.value;
      }
    }

    /** autotune_maybe; `peek` is whatever the unlocked read of the deadline returned. */
    method Maybe(now: int, interval: int, peek: int)
      requires Valid()
      modifies this`next, this`slots, this`snap, this`tuned, this`windows
      ensures Valid()
      ensures if peek <= now && old(next) <= now
              then slots == old(slots) + [Slot(now, if interval <= 0 then k.interval else interval)]
                   && |windows| == |old(windows)| + 1
              else slots == old(slots) && windows == old(windows) && tuned == old(tuned) && snap == old(snap)
    {
      var iv: nat := if interval <= 0 then k.interval else interval;
      if peek > now {
        return;
      }
      if next > now {
        return;
      }
      next := now + iv;
      slots := slots + [Slot(now, iv)];
      Recompute();
    }

    /** What Valid means for the run so far. */
    lemma Says()
      requires Valid()
      ensures AtMost(snap, counters) && Plus(Total(windows), Minus(counters, snap)) == counters
      ensures forall i, j | 0 <= i < j < |slots| :: slots[j].at >= slots[i].at + slots[i].interval
      ensures tuned == Tune(0, 0)
              || (InBounds(k, tuned) && exists i :: 0 <= i < |windows| && Verdict(k, windows[i]) == Some(tuned))
    {
      hide Verdict, InBounds, Total;
      LatestInBounds(k, windows);
      forall i, j | 0 <= i < j < |slots| ensures slots[j].at >= slots[i].at + slots[i].interval {
        SlotsApart(slots, i, j);
      }
    }

    /** autotune_force: a recompute outside the throttle. */
    method Force()
      requires Valid()
      modifies this`snap, this`tuned, this`windows
      ensures Valid() && |windows| == |old(windows)| + 1
    {
      Recompute();
    }

    /** effective_load. */
    method EffectiveLoad(on: bool) returns (load: nat)
      requires Valid()
      ensures k.loadBase <= load <= k.loadMax && (!on ==> load == k.loadBase)
      ensures on && tuned.load >= k.loadBase ==> load == tuned.load
    {
      LatestInBounds(k, windows);
      if !on {
        return k.loadBase;
      }
      load := tuned.load;
      if load <= k.loadBase {
        return k.loadBase;
      }
      if load > k.loadMax {
        load := k.loadMax;
      }
    }
  }

  function Minus(v: Window, w: Window): Window
    requires AtMost(w, v)
  {
    Window(v.hits - w.hits, v.misses - w.misses, v.refreshes - w.refreshes, v.costSum - w.costSum,
           v.costCount - w.costCount)
  }

  /** The verdict of the last window that had one. */
  function Latest(k: Params, ws: seq<Window>): Tune
    requires k.costDivisor > 0
  {
    if ws == [] then Tune(0, 0)
    else match Verdict(k, ws[|ws| - 1]) case Some(t) => t case None => Latest(k, ws[..|ws| - 1])
  }

  lemma LatestAppend(k: Params, ws: seq<Window>, w: Window)
    requires k.costDivisor > 0
    ensures Latest(k, ws + [w]) == match Verdict(k, w) case Some(t) => t case None => Latest(k, ws)
  {
    hide Verdict;
    assert (ws + [w])[..|ws|] == ws;
  }

  lemma SaneDivides(k: Params)
    requires Sane(k)
    ensures k.costDivisor > 0
  {
  }

  /** Beta and load always come from one and the same window, and lie in its bounds. */
  lemma {:induction false} LatestInBounds(k: Params, ws: seq<Window>)
    requires Sane(k)
    ensures Latest(k, ws) == Tune(0, 0)
            || (InBounds(k, Latest(k, ws)) && exists i :: 0 <= i < |ws| && Verdict(k, ws[i]) == Some(Latest(k, ws)))
  {
    if ws == [] {
    } else {
      var front := ws[..|ws| - 1];
      LatestInBounds(k, front);
      VerdictInBounds(k, ws[|ws| - 1]);
      if Verdict(k, ws[|ws| - 1]).None? && Latest(k, front) != Tune(0, 0) {
        var i :| 0 <= i < |front| && Verdict(k, front[i]) == Some(Latest(k, front));
        assert ws[i] == front[i];
      }
    }
  }

  lemma {:induction false} SlotsApart(slots: seq<Slot>, i: nat, j: nat)
    requires i < j < |slots| && forall n | 0 <= n < |slots| :: slots[n].interval > 0
    requires forall n | 0 < n < |slots| :: slots[n].at >= slots[n - 1].at + slots[n - 1].interval
    ensures slots[j].at >= slots[i].at + slots[i].interval
    decreases j
  {
    if i == j - 1 {
    } else {
      SlotsApart(slots, i, j - 1);
    }
  }

  lemma TotalAppend(ws: seq<Window>, w: Window)
    ensures Total(ws + [w]) == Plus(Total(ws), w)
  {
    assert (ws + [w])[..|ws|] == ws;
  }

  // ---- any run -------------------------------------------------------------------

  /** What some worker does, on its own clock: count, look whether a recompute is due, or force one. */
  datatype Op = Counts(d: Window) | Looks(now: int, interval: int, peek: int) | Forces

  /** All that was counted along a run. */
  function Activity(ops: seq<Op>): Window {
    if ops == [] then NO_WINDOW
    else
      var rest, last := Activity(ops[..|ops| - 1]), ops[|ops| - 1];
      if last.Counts? then Plus(rest, last.d) else rest
  }

  lemma ActivityStep(ops: seq<Op>, i: nat)
    requires i < |ops|
    ensures Activity(ops[..i + 1]) == if ops[i].Counts? then Plus(Activity(ops[..i]), ops[i].d) else Activity(ops[..i])
  {
    hide Plus;
    assert ops[..i + 1][..i] == ops[..i];
  }

  /**
   Any run of any number of workers, on whatever clocks. Nothing counted is lost or counted twice: the windows
   judged so far and the one still open add up to all activity. Any two throttled recomputes are at least the
   first one's interval apart. What is published is the verdict of one of the windows, within its bounds.
   */
  method AnyRun(k: Params, ops: seq<Op>) returns (z: Zone)
    requires Sane(k)
    ensures fresh(z) && z.k == k && z.counters == Activity(ops)
    ensures AtMost(z.snap, z.counters) && Plus(Total(z.windows), Minus(z.counters, z.snap)) == Activity(ops)
    ensures forall i, j | 0 <= i < j < |z.slots| :: z.slots[j].at >= z.slots[i].at + z.slots[i].interval
    ensures z.tuned == Tune(0, 0)
            || (InBounds(k, z.tuned) && exists i :: 0 <= i < |z.windows| && Verdict(k, z.windows[i]) == Some(z.tuned))
  {
    hide Verdict, InBounds, Sane, Total, Plus, Minus, AtMost, Activity, Zone.Valid;
    z := new Zone(k);
    assert ops[..0] == [];
    NoActivity();
    for i := 0 to |ops|
      invariant fresh(z) && z.k == k && z.Valid() && z.counters == Activity(ops[..i])
    {
      ActivityStep(ops, i);
      match ops[i] {
        case Counts(d) => z.Count(d);
        case Looks(now, interval, peek) => z.Maybe(now, interval, peek);
        case Forces => z.Force();
      }
    }
    assert ops[..|ops|] == ops;
    z.Says();
  }

  lemma NoActivity()
    ensures Activity([]) == NO_WINDOW
  {
  }

  // ---- load-adaptive windows -----------------------------------------------------

  const TTL_MAX := 0xFFFF_FFFF

  /** access_l1_stale_window: only the stale deadline moves. */
  method StaleWindow(k: Params, autotune: bool, load: nat, freshUntil: int, staleUntil: int) returns (until: int)
    requires Sane(k) && k.loadBase <= load <= k.loadMax
    ensures !autotune || staleUntil == 0 || staleUntil <= freshUntil || load == k.loadBase ==> until == staleUntil
    ensures until >= staleUntil
    ensures staleUntil > freshUntil ==> until - freshUntil <= 4 * (staleUntil - freshUntil)
  {
    until := staleUntil;
    if until != 0 && autotune {
      if load > k.loadBase {
        var win := until - freshUntil;
        if win > 0 {
          WidenBound(k, win, load);
          until := until + win * (load - k.loadBase) / k.loadBase;
        }
      }
    }
  }

  lemma WidenBound(k: Params, win: nat, load: nat)
    requires Sane(k) && k.loadBase <= load <= k.loadMax
    ensures 0 <= win * (load - k.loadBase) / k.loadBase <= 3 * win
  {
    var extra: nat := load - k.loadBase;
    Scaled(extra, 3, k.loadBase, win);
    DivBound(win * extra, 3 * win, k.loadBase);
  }

  lemma Scaled(x: nat, c: nat, base: nat, y: nat)
    requires x <= c * base
    ensures y * x <= (c * y) * base
  {
    MulMono(x, c * base, y);
    Commutes(x, y);
    Regroups(c, base, y);
  }

  lemma Commutes(x: nat, y: nat)
    ensures x * y == y * x
  {
  }

  lemma Regroups(c: nat, base: nat, y: nat)
    ensures (c * base) * y == (c * y) * base
  {
  }

  lemma DivBound(a: nat, q: nat, b: nat)
    requires b > 0 && a <= q * b
    ensures a / b <= q
  {
    assert a == b * (a / b) + a % b;
    Cancel(a / b, q, b);
  }

  lemma Cancel(x: nat, y: nat, b: nat)
    requires b > 0 && x * b <= y * b
    ensures x <= y
  {
    if y < x {
      MulMono(y + 1, x, b);
    }
  }

  /** cache_turbo_lock_ttl: None for a refusal. `t` is the parsed time, None when it did not parse. */
  method LockTtlConf(current: Option<int>, t: Option<nat>) returns (raw: Option<int>)
    ensures raw.Some? <==> current.None? && t.Some? && t.value != 0
    ensures raw.Some? ==> 0 < raw.value <= TTL_MAX && (t.value <= TTL_MAX ==> raw.value == t.value)
  {
    if current.Some? || t.None? || t.value == 0 {
      return None;
    }
    raw := Some(if t.value > TTL_MAX then TTL_MAX else t.value);
  }

  /** The widened lock deadline: at most four times the configured time out, and never past 64 bits. */
  method LockDeadline(k: Params, lockTtl: int, load: nat, now: int) returns (until: int)
    requires Sane(k) && k.loadBase <= load <= k.loadMax < 0x8000_0000 && lockTtl <= TTL_MAX
    requires 0 <= now <= 0x7FFF_FFFF_FFFF_FFFF - 4 * TTL_MAX
    ensures var ttl := if lockTtl <= 0 then 5 else lockTtl;
            && until == now + ttl * load / k.loadBase
            && now + ttl <= until <= now + 4 * ttl && until <= 0x7FFF_FFFF_FFFF_FFFF
            && ttl * load <= 0x7FFF_FFFF_FFFF_FFFF
  {
    var ttl: nat := if lockTtl <= 0 then 5 else lockTtl;
    Scaled(load, 4, k.loadBase, ttl);
    DivBound(ttl * load, 4 * ttl, k.loadBase);
    MulMono(k.loadBase, load, ttl);
    Commutes(k.loadBase, ttl);
    Commutes(load, ttl);
    DivLower(ttl * load, ttl, k.loadBase);
    ProductFits(ttl, load);
    until := now + ttl * load / k.loadBase;
  }

  lemma DivLower(a: nat, q: nat, b: nat)
    requires b > 0 && q * b <= a
    ensures q <= a / b
  {
    var d := a / b;
    assert a == b * d + a % b && (d + 1) * b == d * b + b;
    if d + 1 <= q {
      MulMono(d + 1, q, b);
    }
  }

  lemma ProductFits(ttl: nat, load: nat)
    requires ttl <= TTL_MAX && load < 0x8000_0000
    ensures ttl * load <= 0x7FFF_FFFF_FFFF_FFFF
  {
    MulMono(ttl, TTL_MAX, load);
    MulMono(load, 0x7FFF_FFFF, TTL_MAX);
  }
}

/**
 One request through the access phase: prologue, L1, L2, miss accounting, only-if-cached, breaker gate,
 min_uses and cold single flight, re-entered from the top after every park. What the zone's nodes, the other
 workers, the L2 backend, the allocator and the clock answer is an arbitrary Env for each activation.
 */
module Access {
  import opened Options
  import opened Pins
  import opened AccessState

  class Request {
    const conf: Conf
    const ask: Ask
    const crc: Key -> nat
    const z: Zone
    const pool: Pool

    var key: Key                    // key_hash
    var brkOnly: bool
    var reqReval: bool
    var vary: Vary
    var l2: L2
    var brk: Brk
    var sie: Sie
    var wt: Waiting
    var nx: Nx
    var cold: Cold
    var now: int                    // ngx_time()
    var ms: int                     // ngx_current_msec

    // observed
    var armings: seq<Arming>
    var writes: seq<Write>          // what the L2 phase asked of the zone
    var act: nat
    var given: seq<Snap>            // bodies handed to serve()
    var markerParks: nat
    var gets: nat

    constructor (conf: Conf, ask: Ask, crc: Key -> nat, now: int, ms: int)
      ensures this.conf == conf && this.ask == ask && fresh(z) && fresh(pool)
      ensures Safe() && z.t == NOTHING_COUNTED && given == [] && armings == [] && writes == [] && act == 0
      ensures Budgeted() && Parks() == 0
      ensures Counted(ask, brk, l2.missCounted, z.t) && !brk.consulted
      ensures key == Base(ask.uri) && vary == NO_VARY && l2 == NoL2(ask.uri)
      ensures this.now == now && !nx.done && nx.act == 0 && wt == Waiting(false, 0, false, false, 0)
    {
      this.conf, this.ask, this.crc, this.now, this.ms := conf, ask, crc, now, ms;
      z := new Zone();
      pool := new Pool();
      key, brkOnly, reqReval := Base(ask.uri), false, false;
      vary, l2 := NO_VARY, NoL2(ask.uri);
      brk, sie := Brk(false, Pass, false, false, Copy, None, 0), Sie(false, Copy, None);
      wt, nx, cold := Waiting(false, 0, false, false, 0), Nx(false, Found, 0, 0), Cold(false, 0, 0, false);
      armings, writes, act, given, markerParks, gets := [], [], 0, [], 0, 0;
    }

    // ---- invariants --------------------------------------------------------

    /** The mutex is free, every reference has its cleanup, and what is armed is pinned. */
    ghost predicate Safe()
      reads this`brk, this`sie, z`locked, pool
    {
      !z.locked && pool.Balanced(None) && ArmedPinned(brk, sie, pool.clns)
    }

    /** The same while this request holds the mutex. */
    ghost predicate SafeLocked()
      reads this`brk, this`sie, z`locked, pool
    {
      z.locked && pool.Balanced(None) && ArmedPinned(brk, sie, pool.clns)
    }

    /** Between activations nothing has been counted or served, and the breaker either passed or was not asked. */
    ghost predicate Rested()
      reads this`brk, this`sie, this`l2, this`vary, this`nx, this`act, this`given, this`armings, z, pool
    {
      Safe() && Counted(ask, brk, l2.missCounted, z.t) && Kept() && Raised(z.t) == 0 && given == []
      && nx.act <= act && (brk.consulted ==> brk.action.Pass?)
    }

    ghost predicate Ready()
      reads this, z, pool
    {
      Rested() && Told()
    }

    /** The L2 outcome is explained, told apart from the marker's, and dated. */
    predicate Told()
      reads this`vary, this`l2, this`key, this`act, this`now, this`nx
    {
      Explained(l2) && Latched(vary, l2, key, ask.uri) && Dated(l2.src, act, now, nx)
    }

    /** The memos written so far. */
    predicate Kept()
      reads this`armings, this`vary, this`l2, this`nx
    {
      Ledger(armings, vary, l2, nx, conf, ask.uri)
    }

    /** Without auto-Vary there is one key. */
    predicate OneKey()
      reads this`key
    {
      !conf.autoVary ==> key == Base(ask.uri)
    }

    lemma Born()
      requires Safe() && Counted(ask, brk, l2.missCounted, z.t) && !brk.consulted && z.t == NOTHING_COUNTED
      requires given == [] && armings == [] && key == Base(ask.uri) && vary == NO_VARY && l2 == NoL2(ask.uri)
      requires !nx.done && nx.act <= act
      ensures Ready()
    {
      hide Safe, Counted, Ledger, Explained, Latched, Dated;
      LedgerEmpty(conf, ask.uri, nx);
      NothingTold(ask.uri, act, now, nx);
    }

    /** Each kind of park has its own budget. */
    predicate Budgeted()
      reads this
    {
      && markerParks <= (if vary.done then 1 else 0)
      && nx.parks == (if nx.done then 1 else 0)
      && WithinTimeout(wt, ms, conf.lockTimeout)
      && gets + Pending(vary, l2) <= 2 + wt.polls
    }

    // ---- serving -----------------------------------------------------------

    /** serve() with ref_data NULL: a body the pool already answers for, pinned by entry i if it is in the slab. */
    method Hand(e: Env, snap: Snap, i: Option<nat>) returns (a: ServeAnswer)
      requires Safe() && (snap.Slab? ==> Holds(pool.clns, i, snap.b))
      modifies this`given, pool
      ensures Safe() && given == old(given) + [snap] && a == e.serve
    {
      hide Pool.Balanced, ArmedPinned;
      ghost var clns := pool.clns;
      given := given + [snap];
      a := Serve(z, pool, None, true, e.serve);
      ArmedKept(brk, sie, clns, pool.clns);
    }

    /** serve() with a reference of the request's own, which it takes over. */
    method HandOver(e: Env, b: nat) returns (a: ServeAnswer)
      requires !z.locked && pool.Balanced(Some(b)) && ArmedPinned(brk, sie, pool.clns)
      modifies this`given, pool
      ensures Safe() && given == old(given) + [Slab(b)] && a == if e.serveRoom then e.serve else Broken
    {
      hide Pool.Balanced, ArmedPinned;
      ghost var clns := pool.clns;
      given := given + [Slab(b)];
      a := Serve(z, pool, Some(b), e.serveRoom, e.serve);
      ArmedKept(brk, sie, clns, pool.clns);
    }

    // ---- phase 1: prologue -------------------------------------------------

    /** access_eligible: what is cached at all; an ambiguous request is refused before its credentials are looked at. */
    method Eligible(e: Env) returns (out: Out)
      modifies z`t
      ensures out == if !ask.eligible then Exit(NotEligible, Origin)
                     else if ask.ambiguous then
                       (if e.ctxRoom then Exit(Ambiguous, Origin) else Exit(SetupFailed, Failed))
                     else if ask.credentials then Exit(NotEligible, Origin) else Next
      ensures Added(old(z.t), z.t, Raises(out)) && ServeCalls(out) == 0 && ExitOk(out)
      ensures z.t.bypasses == old(z.t.bypasses) + if out == Exit(Ambiguous, Origin) then 1 else 0
    {
      if !ask.eligible {
        return Exit(NotEligible, Origin);
      }
      if ask.ambiguous {
        if !e.ctxRoom {
          return Exit(SetupFailed, Failed);
        }
        out := Bypass(Ambiguous);
        return;
      }
      if ask.credentials {
        return Exit(NotEligible, Origin);
      }
      out := Next;
    }

    method Prologue(e: Env) returns (out: Out)
      modifies this`key, this`brkOnly, z`t
      ensures !out.Park? && Added(old(z.t), z.t, Raises(out)) && ServeCalls(out) == 0
      ensures ExitOk(out) && (out.Exit? ==> PrologueSite(out.site))
      ensures out.Next? <==> ask.eligible && !ask.ambiguous && !ask.credentials && e.ctxRoom && e.keyOk && !ask.skip
                             && (ask.bypassStale ==> conf.breaker && e.openAtBypass)
                             && (ask.revalidate ==> !ask.onlyIfCached && conf.breaker && e.openAtRevalidate)
                             && !(e.bypass && !l2.done && !nx.done)
      ensures out.Next? ==> key == Base(ask.uri) && brkOnly == (old(brkOnly) || ask.bypassStale)
      ensures out.Exit? && out.site.NotEligible? <==> !ask.eligible || (ask.credentials && !ask.ambiguous)
      ensures out.Exit? && out.site.Ambiguous? <==> ask.eligible && ask.ambiguous && e.ctxRoom
      ensures out.Exit? && out.site.SetupFailed? <==>
                ask.eligible && (if ask.ambiguous then !e.ctxRoom else !ask.credentials && !(e.ctxRoom && e.keyOk))
      ensures out.Exit? && out.site.RevalidateRefused? ==> ask.onlyIfCached && ask.revalidate
      ensures z.t.bypasses
              == old(z.t.bypasses) + if out.Exit? && (out.site.Bypassed? || out.site.Ambiguous?) then 1 else 0
      ensures out.Exit? && out.site.Bypassed? ==> ask.bypassStale || ask.skip || (e.bypass && !l2.done && !nx.done)
    {
      hide Weight, Serves, ExitOk;
      out := Eligible(e);
      if out.Exit? {
        return;
      }
      if !e.ctxRoom || !e.keyOk {
        return Failure(SetupFailed);
      }
      key := Base(ask.uri);
      if ask.bypassStale {
        brkOnly := true;
        if !(conf.breaker && e.openAtBypass) {
          out := Bypass(Bypassed);
          return;
        }
      }
      if ask.skip {
        out := Bypass(Bypassed);
        return;
      }
      if ask.revalidate {
        out := Revalidate(e);
        if out.Exit? {
          return;
        }
      }
      if !l2.done && !nx.done && e.bypass {
        out := Bypass(Bypassed);
      }
    }

    /** The client wants no stored answer: refused if it wants no origin either, else to the origin while the breaker passes. */
    method Revalidate(e: Env) returns (out: Out)
      modifies z`t
      ensures out == if ask.onlyIfCached then Exit(RevalidateRefused, GatewayTimeout)
                     else if conf.breaker && e.openAtRevalidate then Next else Exit(Revalidated, Origin)
      ensures Added(old(z.t), z.t, Raises(out)) && ServeCalls(out) == 0
      ensures ExitOk(out) && z.t.bypasses == old(z.t.bypasses)
    {
      if ask.onlyIfCached {
        z.t := z.t.(misses := z.t.misses + 1);
        return Exit(RevalidateRefused, GatewayTimeout);
      }
      if conf.breaker && e.openAtRevalidate {
        return Next;
      }
      z.t := z.t.(misses := z.t.misses + 1);
      out := Exit(Revalidated, Origin);
    }

    /** To the origin without a lookup. */
    method Bypass(site: Site) returns (out: Out)
      requires site.Bypassed? || site.Ambiguous?
      modifies z`t
      ensures Raises(out) == 1 && ServeCalls(out) == 0 && ExitOk(out)
      ensures out == Exit(site, Origin) && Added(old(z.t), z.t, 1) && z.t.bypasses == old(z.t.bypasses) + 1
    {
      z.t := z.t.(misses := z.t.misses + 1, bypasses := z.t.bypasses + 1);
      out := Exit(site, Origin);
    }

    // ---- phase 2: L1 -------------------------------------------------------

    /** The bits the L1 marker of this URI shows, 0 for none. */
    function L1Bits(e: Env): nat {
      if e.markers && e.marker.Some? then e.marker.value.bits else 0
    }

    /** vary_apply, under the mutex. */
    method VaryApply(e: Env) returns (ok: bool)
      requires z.locked && key == Base(ask.uri)
      modifies this`key, this`vary
      ensures SameFetch(old(vary), vary)
      ensures ok <==> !e.markers || (e.digestOk && (L1Bits(e) == 0 || e.applyOk))
      ensures ok ==> (vary.l1Miss <==> L1Bits(e) == 0)
      ensures ok ==> key == if L1Bits(e) == 0 then Base(ask.uri)
                            else Variant(ask.uri, L1Bits(e), e.marker.value.gen)
      ensures ok && L1Bits(e) == 0 ==> vary.revalidate == old(vary.revalidate)
      ensures ok && L1Bits(e) > 0 ==>
                (vary.revalidate <==> conf.markerRevalidate > 0 && !vary.done && !(conf.breaker && e.openAtVary)
                                      && Max(0, now - e.marker.value.created) >= conf.markerRevalidate)
      ensures !key.Marker?
    {
      if !e.markers {
        vary := vary.(gen := 0, l1Miss := true);
        return true;
      }
      if !e.digestOk {
        return false;
      }
      var bits, gen, created := 0, 0, 0;
      if e.marker.Some? {
        bits, gen, created := e.marker.value.bits, e.marker.value.gen, e.marker.value.created;
      }
      vary := vary.(gen := gen);
      if bits > 0 {
        if !e.applyOk {
          return false;
        }
        key := Variant(ask.uri, bits, gen);
        vary := vary.(l1Miss := false, revalidate := false);
        if conf.markerRevalidate > 0 && !vary.done && !(conf.breaker && e.openAtVary) {
          var age := now - created;
          if age < 0 {
            age := 0;
          }
          if age >= conf.markerRevalidate {
            vary := vary.(revalidate := true);
          }
        }
      } else {
        vary := vary.(l1Miss := true);
      }
      ok := true;
    }

    /** Resolve the key this activation works with: L1 marker first, then the one an L2 reply resolved earlier. */
    method ResolveKey(e: Env) returns (ok: bool)
      requires z.locked && key == Base(ask.uri)
      modifies this`key, this`vary
      ensures SameFetch(old(vary), vary) && !key.Marker?
      ensures e.digestOk && e.applyOk && e.rederiveOk ==> ok
      ensures ok && L1Bits(e) == 0 ==> vary.revalidate == old(vary.revalidate)
      ensures !conf.autoVary ==> ok && key == Base(ask.uri) && vary == old(vary)
      ensures ok && conf.autoVary ==> (vary.l1Miss <==> L1Bits(e) == 0)
      ensures ok && conf.autoVary && vary.bits == 0 && L1Bits(e) == 0 ==> key == Base(ask.uri)
      ensures ok && conf.autoVary && L1Bits(e) > 0
              && (vary.bits == 0 || crc(Variant(ask.uri, L1Bits(e), e.marker.value.gen)) != crc(Base(ask.uri))) ==>
                key == Variant(ask.uri, L1Bits(e), e.marker.value.gen)
      ensures ok && conf.autoVary && L1Bits(e) == 0 && vary.bits > 0 ==> key == Variant(ask.uri, vary.bits, vary.l2Gen)
    {
      if !conf.autoVary {
        return true;
      }
      ok := VaryApply(e);
      if ok && vary.bits > 0 && crc(key) == crc(Base(ask.uri)) {
        if !e.rederiveOk {
          return false;
        }
        key := Variant(ask.uri, vary.bits, vary.l2Gen);
        vary := vary.(gen := vary.l2Gen);
      }
    }

    predicate FreshHit(n: L1Node)
      reads this`brkOnly, this`vary, this`now
    {
      !brkOnly && !vary.revalidate && !vary.inflight && now < n.freshUntil && (n.freshOk || n.len == 0)
    }

    predicate StaleHit(n: L1Node)
      reads this`brkOnly, this`vary, this`now
    {
      !brkOnly && !vary.revalidate && !vary.inflight && (n.staleUntil == 0 || now < n.staleUntil)
      && n.len > 0 && n.staleOk
    }

    method AccessL1(e: Env) returns (out: Out)
      requires Safe() && key == Base(ask.uri)
      modifies this`key, this`vary, this`reqReval, this`brk, this`sie, this`given, z`locked, z`t, pool
      ensures Safe() && Added(old(z.t), z.t, Raises(out)) && |given| == |old(given)| + ServeCalls(out)
      ensures SameFetch(old(vary), vary) && !key.Marker? && OneKey() && SameConsult(old(brk), brk)
      ensures out.Park? ==> out.wait.NxLock? && !nx.done && conf.l2Lock
      ensures ExitOk(out) && (out.Exit? ==> L1Site(out.site) || out.site.KeyFailed?)
      ensures Licensed(e, out) && (out.Park? ==> e.node.Some? && StaleHit(e.node.value))
      ensures out.Next? && e.node.Some? ==> !FreshHit(e.node.value) && !StaleHit(e.node.value)
      ensures out.Next? ==> L1Arms(e, old(brk), old(sie))
    {
      hide Pool.Balanced, ArmedPinned, Weight, Serves;
      if conf.autoVary && e.markersHint && !e.digestOk {
        return Failure(KeyFailed);
      }
      z.Lock();
      var ok := ResolveKey(e);
      if !ok {
        z.Unlock();
        return Failure(KeyFailed);
      }
      if e.node.Some? {
        out := L1Judge(e, e.node.value);
        if !out.Next? {
          return;
        }
      }
      z.Unlock();
      out := Next;
    }

    /** What entitles an exit to its body: a window it was inside of, or an armed fallback. */
    predicate Licensed(e: Env, out: Out)
      reads this`key, this`brkOnly, this`reqReval, this`vary, this`now, this`l2, this`writes, this`brk, this`sie, this`given
    {
      out.Exit? ==>
        match out.site
        case FreshServe => e.node.Some? && FreshHit(e.node.value)
        case StaleServe => e.node.Some? && StaleHit(e.node.value)
        case RefreshingServe => e.node.Some? && StaleHit(e.node.value)
        case InlineRegen => e.node.Some? && StaleHit(e.node.value)
        case L2Serve => L2Served()
        case OnlyIfCachedStale => brk.armed && given != [] && given[|given| - 1] == brk.snap
        case BreakerStale => brk.armed && given != [] && given[|given| - 1] == brk.snap
        case WaitSie => sie.armed && given != [] && given[|given| - 1] == sie.snap
        case RacedFresh => !reqReval && (e.freshData.Some? || (e.relookup.Some? && now < e.relookup.value.freshUntil))
        case _ => true
    }

    lemma NoBody(e: Env, site: Site)
      requires !Serves(site) && !site.InlineRegen?
      ensures Licensed(e, Exit(site, Origin))
    {
    }

    lemma PlainMiss(e: Env, site: Site)
      requires site.Miss? || site.BelowMinUses?
      ensures Raises(Exit(site, Origin)) == 1 && ServeCalls(Exit(site, Origin)) == 0 && ExitOk(Exit(site, Origin))
      ensures Licensed(e, Exit(site, Origin)) && ColdSite(site)
    {
    }

    /** Which fallbacks an unserved L1 node leaves armed. */
    predicate L1Arms(e: Env, wasBrk: Brk, wasSie: Sie)
      reads this`brk, this`sie, this`now
    {
      && (wasBrk.armDone || e.node.None? || e.node.value.len == 0 || !conf.breaker || !e.brkRoom ==> brk == wasBrk)
      && (!wasBrk.armDone && e.node.Some? && e.node.value.len > 0 && conf.breaker && e.brkRoom ==>
            brk.armed && brk.armDone && brk.snap == Slab(e.node.value.body))
      && (wasSie.armed || e.node.None? || !SieLive(e.node.value) || !e.sieRoom ==> sie == wasSie)
      && (!wasSie.armed && e.node.Some? && SieLive(e.node.value) && e.sieRoom ==>
            sie.armed && sie.snap == Slab(e.node.value.body))
    }

    /** Inside its stale-if-error window (RFC 5861, section 4). */
    predicate SieLive(n: L1Node)
      reads this`now
    {
      n.len > 0 && n.sieTtl > 0 && now < n.created + n.sieTtl
    }

    function Failure(site: Site): (out: Out)
      requires site.KeyFailed? || site.PinFailed? || site.SetupFailed?
      ensures Raises(out) == 0 && ServeCalls(out) == 0 && ExitOk(out)
    {
      Exit(site, Failed)
    }

    /** A node was found: serve it, or fall through with the fallbacks armed and the mutex still held. */
    method L1Judge(e: Env, n: L1Node) returns (out: Out)
      requires SafeLocked() && e.node == Some(n)
      modifies this`reqReval, this`brk, this`sie, this`given, z`locked, z`t, pool
      ensures (out.Next? ==> SafeLocked()) && (!out.Next? ==> Safe())
      ensures Added(old(z.t), z.t, Raises(out)) && |given| == |old(given)| + ServeCalls(out)
      ensures SameConsult(old(brk), brk)
      ensures out.Park? ==> out.wait.NxLock? && !nx.done && conf.l2Lock
      ensures ExitOk(out) && (out.Exit? ==> L1Site(out.site))
      ensures out.Exit? && out.site.FreshServe? <==> FreshHit(n)
      ensures out.Next? <==> !FreshHit(n) && !StaleHit(n)
      ensures out.Park? || (out.Exit? && !out.site.FreshServe?) ==> StaleHit(n)
      ensures out.Next? ==> L1Arms(e, old(brk), old(sie))
    {
      hide Pool.Balanced, ArmedPinned, Weight, Serves, FreshHit, StaleHit, SafeLocked, Safe;
      JudgeBounds(n);
      if FreshHit(n) {
        out := L1ServeFresh(e, n);
      } else if StaleHit(n) {
        out := L1ServeStale(e, n);
      } else {
        L1BreakerArm(e, n);
        L1SieArm(e, n);
        out := Next;
      }
    }

    /** The client's own freshness bounds reject a node that is inside its window: revalidate. */
    method JudgeBounds(n: L1Node)
      modifies this`reqReval
      ensures reqReval <==>
                old(reqReval)
                || (n.len > 0 && (now < n.freshUntil || n.staleUntil == 0 || now < n.staleUntil)
                    && !(now < n.freshUntil && n.freshOk) && !((n.staleUntil == 0 || now < n.staleUntil) && n.staleOk))
    {
      if n.len > 0 && (now < n.freshUntil || n.staleUntil == 0 || now < n.staleUntil)
         && !(now < n.freshUntil && n.freshOk) && !((n.staleUntil == 0 || now < n.staleUntil) && n.staleOk)
      {
        reqReval := true;
      }
    }

    method L1ServeFresh(e: Env, n: L1Node) returns (out: Out)
      requires SafeLocked()
      modifies this`given, z`locked, z`t, pool
      ensures Safe() && Added(old(z.t), z.t, Raises(out)) && |given| == |old(given)| + ServeCalls(out)
      ensures ExitOk(out) && out.Exit? && out.site.FreshServe? && z.t.hits == old(z.t.hits) + 1
      ensures given == old(given) + [Slab(n.body)] && (e.serveRoom ==> out.rc == ServeRc(e.serve))
    {
      hide Pool.Balanced, ArmedPinned;
      pool.Take(z, n.body);
      z.Unlock();
      z.t := z.t.(hits := z.t.hits + 1);
      var a := HandOver(e, n.body);
      out := Exit(FreshServe, ServeRc(a));
    }

    /** Stale but serveable: maybe become the one refresher, and park for, serve during, or run the refresh. */
    method L1ServeStale(e: Env, n: L1Node) returns (out: Out)
      requires SafeLocked()
      modifies this`given, z`locked, z`t, pool
      ensures Safe() && Added(old(z.t), z.t, Raises(out)) && |given| == |old(given)| + ServeCalls(out)
      ensures !out.Next? && ExitOk(out)
      ensures out.Park? ==> out.wait.NxLock? && !nx.done && conf.l2Lock
      ensures out.Exit? ==> out.site.StaleServe? || out.site.RefreshingServe? || out.site.PinFailed? || out.site.InlineRegen?
      ensures out.Exit? && out.site.InlineRegen? ==> !conf.backgroundUpdate
      ensures out.Park? || z.t.refreshes != old(z.t.refreshes) ==>
                !nx.done && e.dice && (!n.refreshing || now >= n.lockUntil) && z.t.refreshes == old(z.t.refreshes) + 1
      ensures nx.done && nx.result.Missing? ==> out.Exit? && out.site.StaleServe?
    {
      hide Pool.Balanced, ArmedPinned, Weight, Serves, SafeLocked, Safe;
      if nx.done && (nx.result.Found? || nx.result.Down?) {
        out := L1LockResolved(e, n);
      } else if !nx.done && (!n.refreshing || now >= n.lockUntil) && e.dice {
        out := L1DiceWon(e, n);
      } else {
        out := L1StaleAnswer(e, n);
      }
    }

    method L1StaleAnswer(e: Env, n: L1Node) returns (out: Out)
      requires SafeLocked()
      modifies this`given, z`locked, z`t, pool
      ensures Safe() && Added(old(z.t), z.t, Raises(out)) && |given| == |old(given)| + ServeCalls(out)
      ensures out.Exit? && out.site.StaleServe? && ExitOk(out) && z.t.refreshes == old(z.t.refreshes)
      ensures given == old(given) + [Slab(n.body)] && (e.serveRoom ==> out.rc == ServeRc(e.serve))
    {
      hide Pool.Balanced, ArmedPinned;
      pool.Take(z, n.body);
      z.Unlock();
      z.t := z.t.(staleServes := z.t.staleServes + 1);
      var a := HandOver(e, n.body);
      out := Exit(StaleServe, ServeRc(a));
    }

    /** Back from the NX lock as the fleet's (or with L2 down this box's) refresher. */
    method L1LockResolved(e: Env, n: L1Node) returns (out: Out)
      requires SafeLocked()
      modifies this`given, z`locked, z`t, pool
      ensures Safe() && Added(old(z.t), z.t, Raises(out)) && |given| == |old(given)| + ServeCalls(out) && ExitOk(out)
      ensures z.t.refreshes == old(z.t.refreshes)
      ensures if !conf.backgroundUpdate then out == Exit(InlineRegen, Origin)
              else if e.pinRoom then out.Exit? && out.site.RefreshingServe?
              else out == Exit(PinFailed, Failed)
    {
      hide Pool.Balanced, ArmedPinned;
      if !conf.backgroundUpdate {
        z.Unlock();
        return Exit(InlineRegen, Origin);
      }
      ghost var clns := pool.clns;
      var i := pool.Pin(z, n.body, e.pinRoom);
      z.Unlock();
      ArmedKept(brk, sie, clns, pool.clns);
      if i.None? {
        return Exit(PinFailed, Failed);
      }
      out := RefreshingAnswer(e, n.body, i.value);
    }

    /** A refresh is on its way in the background; answer with the pinned stale copy meanwhile. */
    method RefreshingAnswer(e: Env, b: nat, i: nat) returns (out: Out)
      requires Safe() && Holds(pool.clns, Some(i), b)
      modifies this`given, z`t, pool
      ensures Safe() && Added(old(z.t), z.t, 1) && given == old(given) + [Slab(b)]
      ensures out.Exit? && out.site.RefreshingServe? && z.t.refreshes == old(z.t.refreshes)
    {
      hide Pool.Balanced, ArmedPinned;
      z.t := z.t.(staleServes := z.t.staleServes + 1);
      var a := Hand(e, Slab(b), Some(i));
      out := Exit(RefreshingServe, ServeRc(a));
    }

    method L1DiceWon(e: Env, n: L1Node) returns (out: Out)
      requires SafeLocked()
      modifies this`given, z`locked, z`t, pool
      ensures Safe() && Added(old(z.t), z.t, Raises(out)) && |given| == |old(given)| + ServeCalls(out) && ExitOk(out)
      ensures z.t.refreshes == old(z.t.refreshes) + if e.pinRoom then 1 else 0
      ensures if !e.pinRoom then out == Exit(PinFailed, Failed)
              else if conf.l2Lock && e.lockStarts then out == Park(NxLock)
              else if conf.backgroundUpdate then out.Exit? && out.site.RefreshingServe?
              else out == Exit(InlineRegen, Origin)
    {
      hide Pool.Balanced, ArmedPinned;
      ghost var clns := pool.clns;
      var i := pool.Pin(z, n.body, e.pinRoom);
      z.Unlock();
      ArmedKept(brk, sie, clns, pool.clns);
      if i.None? {
        return Exit(PinFailed, Failed);
      }
      z.t := z.t.(refreshes := z.t.refreshes + 1);
      if conf.l2Lock && e.lockStarts {
        return Park(NxLock);
      }
      if conf.backgroundUpdate {
        out := RefreshingAnswer(e, n.body, i.value);
      } else {
        out := Exit(InlineRegen, Origin);
      }
    }

    method L1BreakerArm(e: Env, n: L1Node)
      requires SafeLocked()
      modifies this`brk, pool
      ensures SafeLocked() && SameConsult(old(brk), brk)
      ensures if n.len > 0 && !old(brk.armDone) && conf.breaker && e.brkRoom
              then brk.armed && brk.armDone && brk.snap == Slab(n.body)
              else brk == old(brk)
    {
      hide Pool.Balanced;
      if n.len > 0 && !brk.armDone && conf.breaker {
        var i := pool.Pin(z, n.body, e.brkRoom);
        if i.Some? {
          brk := brk.(armDone := true, snap := Slab(n.body), cln := i, armed := true);
        }
      }
    }

    method L1SieArm(e: Env, n: L1Node)
      requires SafeLocked()
      modifies this`sie, pool
      ensures SafeLocked()
      ensures if SieLive(n) && !old(sie.armed) && e.sieRoom then sie.armed && sie.snap == Slab(n.body) else sie == old(sie)
    {
      hide Pool.Balanced;
      if n.len > 0 && !sie.armed && n.sieTtl > 0 && now < n.created + n.sieTtl {
        var i := pool.Pin(z, n.body, e.sieRoom);
        if i.Some? {
          sie := Sie(true, Slab(n.body), i);
        }
      }
    }

    // ---- phase 3: L2 -------------------------------------------------------

    /** A memo on key k, on the evidence at hand. */
    function Noted(k: Key): Arming
      reads this`l2, this`now, this`act, this`nx
    {
      Arming(k, l2.sent, now, act, nx, l2.src)
    }

    /** l2_neg_set for key k. */
    method NegSet(k: Key)
      modifies this`armings
      ensures armings == old(armings) + [Noted(k)]
    {
      armings := armings + [Noted(k)];
    }

    /** The marker an L2 reply carries, if it may be applied: live, and not older than what L1 resolved. */
    function UsableMarker(revalidate: bool): Option<L2Body>
      reads this`l2, this`vary, this`now
    {
      if l2.result.Found? && l2.blob.Some? && l2.blob.value.valid && l2.blob.value.marker && l2.blob.value.bits > 0
         && !(revalidate && l2.blob.value.gen < vary.gen)
         && l2.blob.value.staleTtl > Max(0, now - l2.blob.value.created)
      then l2.blob else None
    }

    /** L1's marker gets what is left of the one L2 sent. */
    function HealOf(b: L2Body): Write
      reads this`now
    {
      Heal(ask.uri, b.bits, b.gen, Max(1, b.freshTtl - Max(0, now - b.created)), b.staleTtl - Max(0, now - b.created))
    }

    /** Apply the reply of a marker GET: take its variant, or drop the variant a peer's purge withdrew. */
    method MarkerApply(e: Env, revalidate: bool) returns (ok: bool)
      requires !key.Marker?
      modifies this`key, this`vary, this`writes
      ensures !key.Marker? && vary == old(vary).(gen := vary.gen, bits := vary.bits, l2Gen := vary.l2Gen)
      ensures e.resolveOk && e.baseOk ==> ok
      ensures writes == old(writes)
                        + if !ok then []
                          else if old(UsableMarker(revalidate)).Some? then [HealOf(old(UsableMarker(revalidate)).value)]
                          else if revalidate && l2.result.Missing? then [DropMarker(ask.uri)] else []
      ensures ok && old(UsableMarker(revalidate)).Some? ==>
                var m := old(UsableMarker(revalidate)).value;
                key == Variant(ask.uri, m.bits, m.gen) && vary.bits == m.bits && vary.l2Gen == m.gen && vary.gen == m.gen
      ensures ok && revalidate && l2.result.Missing? ==> key == Base(ask.uri) && vary.bits == 0 && vary.gen == 0
      ensures ok && old(UsableMarker(revalidate)).None? && !(revalidate && l2.result.Missing?) ==>
                key == old(key) && vary == old(vary)
    {
      var bits, gen := 0, 0;
      if l2.result.Found? && l2.blob.Some? && l2.blob.value.valid && l2.blob.value.marker {
        bits, gen := l2.blob.value.bits, l2.blob.value.gen;
        if revalidate && bits > 0 && gen < vary.gen {
          bits := 0;
        }
        if bits > 0 && l2.blob.value.staleTtl - Max(0, now - l2.blob.value.created) > 0 {
          if !e.resolveOk {
            return false;
          }
          key := Variant(ask.uri, bits, gen);
          vary := vary.(gen := gen, bits := bits, l2Gen := gen);
          var remFresh := l2.blob.value.freshTtl - Max(0, now - l2.blob.value.created);
          var remStale := l2.blob.value.staleTtl - Max(0, now - l2.blob.value.created);
          writes := writes + [Heal(ask.uri, bits, gen, if remFresh > 0 then remFresh else 1, remStale)];
        }
      }
      if revalidate && bits == 0 && l2.result.Missing? {
        if !e.baseOk {
          return false;
        }
        key := Base(ask.uri);
        vary := vary.(gen := 0, bits := 0, l2Gen := 0);
        writes := writes + [DropMarker(ask.uri)];
      }
      ok := true;
    }

    /** The reply of a marker GET, on the resume: apply it, remember a definitive miss, and clear the slate. */
    method MarkerConsume(e: Env) returns (ok: bool)
      requires Told() && Kept()
      modifies this`key, this`vary, this`l2, this`armings, this`writes
      ensures Told() && Kept()
      ensures (l2 == old(l2) || l2 == Cleared(old(l2))) && l2.missCounted == old(l2.missCounted)
      ensures e.digestOk && e.resolveOk && e.baseOk ==> ok
      ensures !(old(vary.tried) && old(l2.done)) ==>
                ok && key == old(key) && vary == old(vary) && l2 == old(l2) && armings == old(armings)
      ensures ok ==> (vary.tried ==> vary.unsent && !l2.done) && (old(vary.done) ==> vary.done) && !key.Marker?
      ensures ok ==> Pending(vary, l2) <= old(Pending(vary, l2)) && Reply(old(key), old(l2))
      ensures ok && old(vary.tried) && old(l2.done) ==> Settled(old(vary), old(l2), old(key), old(armings))
    {
      if !vary.tried || !l2.done {
        return true;
      }
      if !e.digestOk {
        return false;
      }
      MarkerEvidence(vary, l2, key, ask.uri, now, act, nx);
      assert conf.autoVary;
      hide Settled, GoodArming, Ledger;
      ok := MarkerSettle(e);
    }

    function Cleared(l: L2): L2 {
      l.(done := false, result := Found, blob := None, src := Nothing)
    }

    /** A marker that L1 learned meanwhile wins and the reply stays where it is; otherwise the reply is used up. */
    predicate Settled(was: Vary, wasL2: L2, wasKey: Key, wasArmings: seq<Arming>)
      reads this`key, this`vary, this`l2, this`armings, this`now, this`act, this`nx
    {
      && !vary.tried && !vary.unsent && !vary.inflight && vary.done == was.done
      && vary.down == (was.down || wasL2.result.Down?)
      && if !was.l1Miss && !was.inflight then l2 == wasL2 && key == wasKey && armings == wasArmings
         else l2 == Cleared(wasL2)
              && armings == wasArmings
                 + if !was.inflight && conf.l2NegativeTtl > 0 && wasL2.result.Missing?
                   then [Arming(Marker(ask.uri), wasL2.sent, now, act, nx, wasL2.src)] else []
    }

    method MarkerSettle(e: Env) returns (ok: bool)
      requires vary.tried && vary.done && conf.autoVary && Kept() && !key.Marker?
      requires l2.result.Missing? ==> GoodArming(Noted(Marker(ask.uri)))
      modifies this`key, this`vary, this`l2, this`armings, this`writes
      ensures Kept() && !key.Marker? && !vary.tried && !vary.unsent && vary.done
      ensures l2 == old(l2) || l2 == Cleared(old(l2))
      ensures e.resolveOk && e.baseOk ==> ok
      ensures ok ==> Settled(old(vary), old(l2), old(key), old(armings))
    {
      hide Ledger, GoodArming, UsableMarker;
      ghost var v := vary;
      var revalidate := vary.inflight;
      vary := vary.(tried := false, unsent := false, inflight := false, down := vary.down || l2.result.Down?);
      if !vary.l1Miss && !revalidate {
        LedgerKept(armings, v, vary, l2, l2, nx, nx, conf, ask.uri);
        return true;
      }
      ok := MarkerApply(e, revalidate);
      if ok {
        MarkerRemember(v, revalidate);
        l2 := l2.(done := false, result := Found, blob := None, src := Nothing);
      } else {
        LedgerKept(armings, v, vary, l2, l2, nx, nx, conf, ask.uri);
      }
    }

    /** A definitive miss on a first look at the marker is remembered. */
    method MarkerRemember(ghost v: Vary, revalidate: bool)
      requires Ledger(armings, v, l2, nx, conf, ask.uri) && v.tried && v.done
      requires vary.done && !vary.tried && conf.autoVary
      requires l2.result.Missing? ==> GoodArming(Noted(Marker(ask.uri)))
      modifies this`armings
      ensures Ledger(armings, vary, Cleared(l2), nx, conf, ask.uri)
      ensures armings == old(armings) + if !revalidate && conf.l2NegativeTtl > 0 && l2.result.Missing?
                                        then [Noted(Marker(ask.uri))] else []
    {
      hide Ledger, GoodArming;
      if !revalidate && conf.l2NegativeTtl > 0 && l2.result.Missing? {
        NegSet(Marker(ask.uri));
        LedgerMore(old(armings), Noted(Marker(ask.uri)), v, l2, vary, Cleared(l2), nx, conf, ask.uri);
      } else {
        LedgerKept(armings, v, vary, l2, Cleared(l2), nx, nx, conf, ask.uri);
      }
    }

    /** This activation has a reason, a backend and a free latch for the marker GET. */
    predicate WantsMarker()
      reads this`vary
    {
      conf.autoVary && conf.backend && (vary.l1Miss || vary.revalidate) && !vary.tried && !vary.done
    }

    /** A first look, unlike a revalidation, is answered by a live memo on the marker key. */
    predicate MarkerMemoed(e: Env)
      reads this`vary
    {
      !vary.revalidate && conf.l2NegativeTtl > 0 && e.markerMemo
    }

    /** At most one marker GET per request: the latch goes up before the GET, and on a memoed skip. */
    method MarkerFetch(e: Env) returns (out: Out)
      modifies this`vary, this`l2, z`t
      ensures Added(old(z.t), z.t, 0)
      ensures out == if old(WantsMarker()) && !e.digestOk then Exit(KeyFailed, Failed)
                     else if old(WantsMarker()) && !old(MarkerMemoed(e)) && e.markerGetStarts then Park(MarkerGet)
                     else Next
      ensures l2 == if out.Park? then old(l2).(sent := Marker(ask.uri)) else old(l2)
      ensures vary == if !old(WantsMarker()) || !e.digestOk then old(vary)
                      else if old(MarkerMemoed(e)) then old(vary).(l1Miss := false, done := true)
                      else old(vary).(inflight := old(vary.inflight) || old(vary.revalidate), l1Miss := false,
                                      tried := true, done := true, unsent := old(vary.unsent) || !e.markerGetStarts)
    {
      var revalidate := vary.revalidate;
      if !conf.autoVary || (!vary.l1Miss && !revalidate) || vary.tried || vary.done || !conf.backend {
        return Next;
      }
      if !e.digestOk {
        return Exit(KeyFailed, Failed);
      }
      if !revalidate && conf.l2NegativeTtl > 0 && e.markerMemo {
        vary := vary.(l1Miss := false, done := true);
        z.t := z.t.(l2NegSkips := z.t.l2NegSkips + 1);
        return Next;
      }
      vary := vary.(inflight := vary.inflight || revalidate, l1Miss := false, tried := true, done := true);
      if e.markerGetStarts {
        l2 := l2.(sent := Marker(ask.uri));
        return Park(MarkerGet);
      }
      vary := vary.(unsent := true);
      out := Next;
    }

    predicate ObjectMemoed(e: Env)
      reads this`l2
    {
      conf.backend && !l2.done && !l2.negForce && conf.l2NegativeTtl > 0 && e.memo
    }

    /** Skip the GET under a live memo, or after this request's marker GET found L2 down; else send it. */
    method ObjectFetch(e: Env) returns (out: Out)
      requires Explained(l2)
      modifies this`l2, z`t
      ensures Added(old(z.t), z.t, 0) && (out.Next? ==> Explained(l2))
      ensures out == if conf.backend && !old(l2.done) && !old(ObjectMemoed(e)) && !vary.down && e.getStarts
                     then Park(ObjectGet) else Next
      ensures l2 == if out.Park? then old(l2).(sent := key)
                    else if vary.down then old(l2).(done := true, result := Down, src := FromOutage,
                                                    negSkipped := old(l2.negSkipped) || old(ObjectMemoed(e)))
                    else if old(ObjectMemoed(e)) then old(l2).(done := true, result := Missing, src := FromMemo,
                                                               negSkipped := true)
                    else old(l2)
    {
      if conf.backend && !l2.done && !l2.negForce && conf.l2NegativeTtl > 0 && e.memo {
        l2 := l2.(done := true, result := Missing, negSkipped := true, src := FromMemo);
        z.t := z.t.(l2NegSkips := z.t.l2NegSkips + 1);
      }
      if vary.down {
        l2 := l2.(done := true, result := Down, src := FromOutage);
        return Next;
      }
      if conf.backend && !l2.done && e.getStarts {
        l2 := l2.(sent := key);
        return Park(ObjectGet);
      }
      out := Next;
    }

    /** A marker reply is consumed, then the marker GET goes out if it is still wanted. */
    method MarkerPhase(e: Env) returns (out: Out)
      requires Told() && Kept() && OneKey()
      modifies this`key, this`vary, this`l2, this`armings, this`writes, z`t
      ensures Added(old(z.t), z.t, 0) && Kept() && l2.missCounted == old(l2.missCounted)
      ensures out.Next? ==> Told() && OneKey() && Reply(old(key), old(l2))
      ensures out.Next? ==> (vary.tried ==> vary.unsent) && (old(vary.done) ==> vary.done)
      ensures out.Next? ==> Pending(vary, l2) <= old(Pending(vary, l2))
      ensures out == Park(MarkerGet) ==> GetParked(out.wait, vary, l2, key, ask.uri, old(vary.done), old(Pending(vary, l2)))
      ensures out.Next? || out == Park(MarkerGet) || out == Exit(KeyFailed, Failed)
    {
      hide Ledger, Raised, Tallied, Dated, Settled, Cleared;
      PlainNeverTried();
      var ok := MarkerConsume(e);
      if !ok {
        return Exit(KeyFailed, Failed);
      }
      ghost var v, l := vary, l2;
      out := MarkerFetch(e);
      LedgerKept(armings, v, vary, l, l2, nx, nx, conf, ask.uri);
    }

    lemma PlainNeverTried()
      requires Kept()
      ensures !conf.autoVary ==> !vary.tried && vary.bits == 0 && l2.sent == Base(ask.uri)
    {
    }

    /** A reply in hand is the one that came in, and the key is the one it came in under. */
    predicate Reply(wasKey: Key, wasL2: L2)
      reads this`key, this`l2
    {
      l2.src.FromReply? ==> key == wasKey && l2.src == wasL2.src && l2.sent == wasL2.sent
    }

    /** The three fetch steps: at most one GET goes out. */
    method L2Fetch(e: Env) returns (out: Out)
      requires Told() && Kept() && OneKey()
      modifies this`key, this`vary, this`l2, this`armings, this`writes, z`t
      ensures Added(old(z.t), z.t, 0) && Kept() && l2.missCounted == old(l2.missCounted)
      ensures out.Next? ==> Told() && OneKey() && Reply(old(key), old(l2))
      ensures out.Next? ==> !key.Marker? && (vary.tried ==> vary.unsent) && (old(vary.done) ==> vary.done)
      ensures out.Next? ==> Pending(vary, l2) <= old(Pending(vary, l2))
      ensures out.Park? ==> GetParked(out.wait, vary, l2, key, ask.uri, old(vary.done), old(Pending(vary, l2)))
      ensures out.Next? || out.Park? || out == Exit(KeyFailed, Failed)
      ensures Licensed(e, out)
    {
      hide ObjectMemoed, Explained, Ledger, Raised, Tallied, Latched, GetParked, Pending;
      out := MarkerPhase(e);
      if out.Next? {
        ghost var before := l2;
        PlainNeverTried();
        out := ObjectFetch(e);
        LedgerKept(armings, vary, vary, before, l2, nx, nx, conf, ask.uri);
        AfterObjectFetch(vary, before, l2, key, old(vary.done), old(Pending(vary, l2)));
      }
    }

    lemma AfterObjectFetch(v: Vary, was: L2, l: L2, k: Key, done: bool, pending: nat)
      requires Latched(v, was, k, ask.uri) && (v.tried ==> v.unsent) && (done ==> v.done) && Pending(v, was) <= pending
      ensures (l.done || l.done == was.done) && l.sent == was.sent ==> Latched(v, l, k, ask.uri) && Pending(v, l) <= pending
      ensures l == was.(sent := k) && !was.done ==> GetParked(ObjectGet, v, l, k, ask.uri, done, pending)
      ensures !k.Marker?
    {
    }

    /** A dead L2 body still arms the fallbacks; both copies live in the request's own pool. */
    method ExpiredArm(e: Env, b: L2Body)
      requires ArmedPinned(brk, sie, pool.clns)
      modifies this`brk, this`sie, this`l2
      ensures ArmedPinned(brk, sie, pool.clns) && SameConsult(old(brk), brk)
      ensures l2 == old(l2).(unserveable := true)
      ensures if !old(brk.armDone) && conf.breaker then brk.armed && brk.armDone && brk.snap == Copy else brk == old(brk)
      ensures if !old(sie.armed) && b.sieTtl > 0 && now < b.created + b.sieTtl && e.sieCopyRoom
              then sie == Sie(true, Copy, None) else sie == old(sie)
    {
      if !brk.armDone && conf.breaker {
        brk := brk.(snap := Copy, armDone := true, armed := true);
      }
      if !sie.armed && b.sieTtl > 0 && now < b.created + b.sieTtl {
        if e.sieCopyRoom {
          sie := Sie(true, Copy, None);
        }
      }
      l2 := l2.(unserveable := true);
    }

    /** L1 gets what is left of the body under key k. */
    function PromotionOf(k: Key, b: L2Body): Write
      reads this`now
    {
      Promote(k, b, b.freshTtl - Max(0, now - b.created), b.staleTtl - Max(0, now - b.created))
    }

    /** A live L2 body is promoted and served, unless the client's own bounds refuse it. */
    method PromoteServe(e: Env, b: L2Body) returns (out: Out)
      requires Safe()
      modifies this`reqReval, this`given, this`writes, z`t, pool
      ensures Safe() && Added(old(z.t), z.t, Raises(out)) && |given| == |old(given)| + ServeCalls(out) && ExitOk(out)
      ensures out.Next? || (out.Exit? && out.site.L2Serve?)
      ensures out.Next? <==> (if b.freshTtl > Max(0, now - b.created) then !e.l2FreshOk else !e.l2StaleOk)
      ensures reqReval == (old(reqReval) || out.Next?)
      ensures writes == old(writes) + if out.Exit? then [PromotionOf(key, b)] else []
    {
      hide Pool.Balanced, ArmedPinned;
      var remFresh := b.freshTtl - Max(0, now - b.created);
      if (remFresh > 0 && !e.l2FreshOk) || (remFresh <= 0 && !e.l2StaleOk) {
        reqReval := true;
        return Next;
      }
      writes := writes + [Promote(key, b, remFresh, b.staleTtl - Max(0, now - b.created))];
      z.t := z.t.(hits := z.t.hits + 1, l2Hits := z.t.l2Hits + 1);
      var a := Hand(e, Copy, None);
      out := Exit(L2Serve, ServeRc(a));
    }

    /** The body the L2 outcome offers, if it validates. */
    function L2Offer(): Option<L2Body>
      reads this`l2
    {
      if l2.done && l2.result.Found? && l2.blob.Some? && l2.blob.value.valid then l2.blob else None
    }

    /** Inside the body's own stale window. */
    predicate Alive(b: L2Body)
      reads this`now
    {
      b.staleTtl > Max(0, now - b.created)
    }

    lemma OfferIsReply()
      requires Explained(l2) && L2Offer().Some?
      ensures l2.src.FromReply? && l2.src.key == l2.sent
    {
    }

    lemma ServedLive(e: Env, out: Out, b: L2Body)
      requires out.Exit? && out.site.L2Serve? && L2Offer() == Some(b) && Alive(b)
      requires l2.src.FromReply? && (!conf.autoVary ==> l2.src.key == key)
      requires writes != [] && writes[|writes| - 1] == PromotionOf(key, b)
      ensures Licensed(e, out)
    {
    }

    lemma NoExit(e: Env, out: Out)
      requires !out.Exit?
      ensures Licensed(e, out)
    {
    }

    method L2Answer(e: Env) returns (out: Out)
      requires Safe() && Explained(l2) && (!conf.autoVary ==> l2.sent == key)
      modifies this`l2, this`brk, this`sie, this`reqReval, this`given, this`writes, z`t, pool
      ensures Safe() && Added(old(z.t), z.t, Raises(out)) && |given| == |old(given)| + ServeCalls(out) && ExitOk(out)
      ensures l2 == old(l2).(unserveable := l2.unserveable) && SameConsult(old(brk), brk)
      ensures out.Next? || (out.Exit? && out.site.L2Serve?)
      ensures Licensed(e, out) && (out.Exit? ==> l2.src.FromReply? && l2.src.key == l2.sent)
      ensures out.Exit? <==>
                old(L2Offer()).Some? && Alive(old(L2Offer()).value)
                && (if old(L2Offer()).value.freshTtl > Max(0, now - old(L2Offer()).value.created) then e.l2FreshOk
                    else e.l2StaleOk)
      ensures l2.unserveable && !old(l2.unserveable) ==>
                old(L2Offer()).Some? && !Alive(old(L2Offer()).value)
    {
      hide L2Offer, Pool.Balanced, ArmedPinned, Added, Weight, Serves, Licensed, L2Served, Explained;
      var offer := L2Offer();
      if offer.None? {
        AddedNothing(z.t);
        NoExit(e, Next);
        return Next;
      }
      OfferIsReply();
      var b := offer.value;
      if b.staleTtl - Max(0, now - b.created) <= 0 {
        AddedNothing(z.t);
        ExpiredArm(e, b);
        out := Next;
      } else {
        out := PromoteServe(e, b);
      }
      if out.Exit? {
        ServedLive(e, out, b);
      } else {
        NoExit(e, out);
      }
    }

    /**
     The phase that may answer from L2. The body it serves and promotes answers a GET of the very key it goes
     under exactly when the key this pass resolved is the key last sent.
     */
    method AccessL2(e: Env) returns (out: Out)
      requires Safe() && Told() && Kept() && OneKey()
      modifies this`key, this`vary, this`l2, this`armings, this`writes
      modifies this`brk, this`sie, this`reqReval, this`given, z`t, pool
      ensures Safe() && Added(old(z.t), z.t, Raises(out)) && |given| == |old(given)| + ServeCalls(out)
      ensures Kept() && ExitOk(out) && SameConsult(old(brk), brk) && l2.missCounted == old(l2.missCounted)
      ensures out.Next? ==> Told() && OneKey()
      ensures out.Next? ==> !key.Marker? && (vary.tried ==> vary.unsent) && (old(vary.done) ==> vary.done)
      ensures out.Next? ==> Pending(vary, l2) <= old(Pending(vary, l2))
      ensures out.Park? ==> GetParked(out.wait, vary, l2, key, ask.uri, old(vary.done), old(Pending(vary, l2)))
      ensures out.Exit? ==> out.site.L2Serve? || out.site.KeyFailed?
      ensures Licensed(e, out)
      ensures out.Exit? && out.site.L2Serve? ==> (l2.src.key == key <==> old(l2.sent) == old(key))
    {
      hide Pool.Balanced, ArmedPinned, Ledger, Raised, Tallied, Safe, Licensed, Explained, Latched, Dated, Pending;
      out := L2Fetch(e);
      if out.Next? {
        ghost var l := l2;
        PlainNeverTried();
        out := L2Answer(e);
        LedgerKept(armings, vary, vary, l, l2, nx, nx, conf, ask.uri);
        Unchanged(vary, l, l2, key, ask.uri);
      }
    }

    /** A live, validated body of a real reply was promoted under the key at hand and served. */
    predicate L2Served()
      reads this`key, this`l2, this`now, this`writes
    {
      && L2Offer().Some? && l2.src.FromReply? && writes != [] && (!conf.autoVary ==> l2.src.key == key)
      && Alive(L2Offer().value)
      && writes[|writes| - 1] == PromotionOf(key, L2Offer().value)
    }

    // ---- phases 4 to 7: misses, only-if-cached, breaker, min_uses ------------

    /** One l2_misses per request, and a memo only for a reply that was a definitive miss. */
    method MissAccount(e: Env)
      requires Told() && Counted(ask, brk, l2.missCounted, z.t) && Kept() && OneKey()
      modifies this`l2, this`armings, z`t
      ensures Counted(ask, brk, l2.missCounted, z.t) && Kept() && Told()
      ensures Raised(z.t) == old(Raised(z.t))
      ensures l2 == old(l2).(missCounted := old(l2.missCounted) || (conf.backend && l2.done))
      ensures armings == old(armings)
                         + if conf.backend && l2.done && !old(l2.missCounted) && conf.l2NegativeTtl > 0
                              && !l2.negSkipped && l2.result.Missing?
                           then [Noted(key)] else []
    {
      hide GoodArming, Ledger, Explained, Latched, Dated;
      if conf.backend && l2.done && !l2.missCounted {
        ghost var l := l2;
        PlainNeverTried();
        l2 := l2.(missCounted := true);
        z.t := z.t.(l2Misses := z.t.l2Misses + 1);
        Unchanged(vary, l, l2, key, ask.uri);
        if conf.l2NegativeTtl > 0 && !l2.negSkipped && l2.result.Missing? {
          MissEvidence(l, key, now, act, nx);
          NegSet(key);
          NeverMarker(vary, l, key, ask.uri);
          LedgerMore(old(armings), Noted(key), vary, l, vary, l2, nx, conf, ask.uri);
        } else {
          LedgerKept(armings, vary, vary, l, l2, nx, nx, conf, ask.uri);
        }
      }
    }

    method OnlyIfCached(e: Env) returns (out: Out)
      requires Safe()
      modifies this`given, z`t, pool
      ensures Safe() && Added(old(z.t), z.t, Raises(out)) && |given| == |old(given)| + ServeCalls(out) && ExitOk(out)
      ensures (out.Next? <==> !ask.onlyIfCached) && Licensed(e, out)
      ensures ask.onlyIfCached ==>
                if conf.breaker && brk.armed && e.openAtGate
                then out.Exit? && out.site.OnlyIfCachedStale? && given == old(given) + [brk.snap]
                else out == Exit(OnlyIfCached504, GatewayTimeout)
    {
      hide Pool.Balanced, ArmedPinned;
      if !ask.onlyIfCached {
        return Next;
      }
      if conf.breaker && brk.armed && e.openAtGate {
        out := BreakerBody(e, OnlyIfCachedStale);
      } else {
        out := Exit(OnlyIfCached504, GatewayTimeout);
      }
    }

    /** Serve the body the breaker armed. */
    method BreakerBody(e: Env, site: Site) returns (out: Out)
      requires Safe() && brk.armed && (site.OnlyIfCachedStale? || site.BreakerStale?)
      modifies this`given, z`t, pool
      ensures Safe() && Added(old(z.t), z.t, 1) && given == old(given) + [brk.snap]
      ensures out.Exit? && out.site == site && Licensed(e, out)
    {
      assert brk.snap.Slab? ==> Holds(pool.clns, brk.cln, brk.snap.b);
      hide Pool.Balanced, ArmedPinned, Holds;
      z.t := z.t.(staleServes := z.t.staleServes + 1, breakerServes := z.t.breakerServes + 1);
      var a := Hand(e, brk.snap, brk.cln);
      out := Exit(site, ServeRc(a));
    }

    /** Give the breaker's reference back as soon as it can no longer be needed. */
    method BrkRefDrop()
      requires Safe()
      modifies this`brk, pool
      ensures Safe() && brk == old(brk).(cln := None, snap := Copy, armed := false)
    {
      if brk.cln.Some? && brk.cln.value < |pool.clns| {
        pool.Drop(z, brk.cln.value);
      }
      hide Pool.Balanced;
      brk := brk.(cln := None, snap := Copy, armed := false);
    }

    /** breaker_state is asked once per request: it may promote its caller to the window's one probe. */
    method Consult(e: Env)
      requires Safe() && Counted(ask, brk, l2.missCounted, z.t) && !ask.onlyIfCached
      modifies this`brk
      ensures Safe() && Counted(ask, brk, l2.missCounted, z.t)
      ensures brk == if old(brk.consulted) then old(brk)
                     else old(brk).(consulted := true, consults := 1, action := BreakerAction(e.brkState, old(brk.armed)))
    {
      hide Pool.Balanced, ArmedPinned;
      ghost var was := brk;
      if !brk.consulted {
        brk := brk.(consulted := true, consults := brk.consults + 1, action := BreakerAction(e.brkState, brk.armed));
        ArmedSame(was, brk, sie, pool.clns);
      }
    }

    method BreakerGate(e: Env) returns (out: Out)
      requires Safe() && Counted(ask, brk, l2.missCounted, z.t) && !ask.onlyIfCached
      requires brk.consulted ==> brk.action.Pass?
      modifies this`brk, this`given, z`t, pool
      ensures Safe() && Counted(ask, brk, l2.missCounted, z.t)
      ensures Added(old(z.t), z.t, Raises(out)) && |given| == |old(given)| + ServeCalls(out) && ExitOk(out)
      ensures !conf.breaker ==> out.Next? && brk == old(brk)
      ensures Licensed(e, out)
      ensures conf.breaker ==>
                brk.consulted && brk.action == if old(brk.consulted) then old(brk.action)
                                               else BreakerAction(e.brkState, old(brk.armed))
      ensures conf.breaker ==>
                match brk.action
                case Pass => out.Next? && !brk.armed
                case ProbeOrigin => out == Exit(Probe, Origin) && !brk.armed
                case ServeStale => out.Exit? && out.site.BreakerStale? && given == old(given) + [old(brk.snap)]
                case Fail => out.Exit? && out.site.Breaker503?
    {
      hide Pool.Balanced, ArmedPinned;
      if !conf.breaker {
        return Next;
      }
      Consult(e);
      hide Counted, SafeLocked;
      ghost var asked := brk;
      if brk.action.ProbeOrigin? || brk.action.Pass? {
        BrkRefDrop();
        CountedKept(ask, asked, brk, l2.missCounted, z.t, z.t, 0);
        NoBody(e, Probe);
        return if brk.action.Pass? then Next else Exit(Probe, Origin);
      }
      out := Refuse(e);
      CountedKept(ask, asked, brk, l2.missCounted, old(z.t), z.t, 1);
    }

    /** The origin is off limits: the armed body, or 503. */
    method Refuse(e: Env) returns (out: Out)
      requires Safe() && (brk.action.ServeStale? ==> brk.armed)
      modifies this`given, z`t, pool
      ensures Safe() && Added(old(z.t), z.t, 1) && |given| == |old(given)| + ServeCalls(out) && ExitOk(out)
      ensures out.Exit? && Weight(out.site) == 1 && Licensed(e, out)
      ensures if brk.action.ServeStale? then out.site.BreakerStale? && given == old(given) + [brk.snap]
              else out.site.Breaker503?
    {
      hide Pool.Balanced, ArmedPinned;
      if brk.action.ServeStale? {
        out := BreakerBody(e, BreakerStale);
      } else {
        z.t := z.t.(misses := z.t.misses + 1);
        out := Exit(Breaker503, if e.unavailableOk then Response else Failed);
      }
    }

    /** min_uses without single flight. */
    method MinUses(e: Env) returns (out: Out)
      modifies this`cold, z`t
      ensures Added(old(z.t), z.t, Raises(out)) && (out.Next? || out == Exit(BelowMinUses, Origin))
      ensures out.Exit? <==> conf.minUses > 1 && !old(cold.minUsesPassed) && !nx.done && !conf.lock && !e.countPasses
      ensures out.Exit? ==> z.t.minUsesSkips == old(z.t.minUsesSkips) + 1
    {
      if conf.minUses > 1 && !cold.minUsesPassed && !nx.done && !conf.lock {
        if !e.countPasses {
          out := Below();
          return;
        }
        cold := cold.(minUsesPassed := true);
      }
      out := Next;
    }

    method Below() returns (out: Out)
      modifies z`t
      ensures out == Exit(BelowMinUses, Origin) && Added(old(z.t), z.t, 1)
      ensures z.t.minUsesSkips == old(z.t.minUsesSkips) + 1
    {
      z.t := z.t.(misses := z.t.misses + 1, minUsesSkips := z.t.minUsesSkips + 1);
      out := Exit(BelowMinUses, Origin);
    }

    method ToOrigin(site: Site) returns (out: Out)
      modifies z`t
      ensures out == Exit(site, Origin) && Added(old(z.t), z.t, 1)
    {
      z.t := z.t.(misses := z.t.misses + 1);
      out := Exit(site, Origin);
    }

    // ---- phase 8: cold single flight -----------------------------------------

    method MarkWinner(owner: nat)
      modifies this`cold
      ensures cold == if old(cold.winner) then old(cold) else old(cold).(winner := true, owner := owner)
    {
      if !cold.winner {
        cold := cold.(winner := true, owner := owner);
      }
    }

    predicate WaitSite(s: Site) {
      s.WaitUnserveable? || s.WaitSie? || s.WaitTimeout? || s.WaitFailed?
    }

    /** Where min_uses and the cold phase may end. */
    predicate ColdSite(s: Site) {
      s.Miss? || WaitSite(s) || s.LockWon? || s.ColdWon? || s.RacedFresh? || s.RacedGone? || s.OwnStub? || s.BelowMinUses?
    }

    lemma ColdIsLate(s: Site)
      requires ColdSite(s)
      ensures !s.Probe? && !L1Site(s)
    {
    }

    /** Wait for the winner's fill, one bounded poll at a time against a deadline set once. */
    method ColdWait(e: Env) returns (out: Out)
      requires Safe() && Explained(l2)
      modifies this`wt, this`l2, this`given, z`t, pool
      ensures Safe() && Explained(l2) && Added(old(z.t), z.t, Raises(out)) && |given| == |old(given)| + ServeCalls(out)
      ensures !out.Next? && ExitOk(out) && l2.missCounted == old(l2.missCounted) && l2.sent == old(l2.sent)
      ensures (l2.done ==> old(l2.done)) && Licensed(e, out)
      ensures out.Park? ==> Polled(out.wait, old(wt), wt, ms, conf.lockTimeout) && !l2.done && l2.negForce
      ensures out.Exit? ==> WaitSite(out.site) && wt.polls == old(wt.polls)
      ensures out.Exit? && (out.site.WaitSie? || out.site.WaitTimeout?) ==>
                (out.site.WaitSie? <==> sie.armed) && (if old(wt.on) then old(wt.deadline) else ms + conf.lockTimeout) <= ms
      ensures out.Exit? && out.site.WaitUnserveable? <==> old(wt.polled) && old(l2.unserveable)
      ensures out.Exit? && out.site.WaitFailed? ==> !old(wt.timerSet) && !e.timerRoom
    {
      hide Pool.Balanced, ArmedPinned, Explained, Raised, Tallied;
      StartWait();
      out := WaitOn(e);
      assert Explained(l2) by { DiscardExplained(old(l2), l2); }
    }

    /** The deadline is set once, on the first wait. */
    method StartWait()
      modifies this`wt, z`t
      ensures wt == (if old(wt.on) then old(wt) else old(wt).(on := true, deadline := ms + conf.lockTimeout))
      ensures Raised(z.t) == old(Raised(z.t)) && Tallied(z.t) == old(Tallied(z.t)) && z.t.l2Misses == old(z.t.l2Misses)
    {
      if !wt.on {
        wt := wt.(on := true, deadline := ms + conf.lockTimeout);
        z.t := z.t.(lockWaits := z.t.lockWaits + 1);
      }
    }

    method WaitOn(e: Env) returns (out: Out)
      requires Safe() && wt.on
      modifies this`wt, this`l2, this`given, z`t, pool
      ensures Safe() && Added(old(z.t), z.t, Raises(out)) && |given| == |old(given)| + ServeCalls(out)
      ensures !out.Next? && ExitOk(out) && (l2 == old(l2) || l2 == Discarded(old(l2)))
      ensures out.Park? ==>
                wt.deadline > ms && wt == old(wt).(polled := true, timerSet := true, polls := old(wt.polls) + 1)
                && out.wait == Poll(if wt.deadline - ms < POLL_MS then wt.deadline - ms else POLL_MS)
                && l2 == Discarded(old(l2))
      ensures out.Exit? ==> WaitSite(out.site) && Licensed(e, out) && wt.polls == old(wt.polls)
      ensures out.Exit? && (out.site.WaitSie? || out.site.WaitTimeout?) ==>
                (out.site.WaitSie? <==> sie.armed) && old(wt.deadline) <= ms
      ensures out.Exit? && out.site.WaitUnserveable? <==> old(wt.polled) && old(l2.unserveable)
      ensures out.Exit? && out.site.WaitFailed? ==> !old(wt.timerSet) && !e.timerRoom
    {
      hide Safe, Pool.Balanced, ArmedPinned;
      if wt.polled && l2.unserveable {
        wt := wt.(on := false);
        out := ToOrigin(WaitUnserveable);
        NoBody(e, WaitUnserveable);
        return;
      }
      var remaining := wt.deadline - ms;
      if remaining <= 0 {
        wt := wt.(on := false);
        out := WaitTimedOut(e);
      } else {
        out := WaitPoll(e, remaining);
      }
    }

    /** No L2 outcome, and the memo is not to answer for it. */
    function Discarded(l: L2): L2 {
      l.(done := false, negSkipped := false, negForce := true, result := Down, blob := None, src := Nothing)
    }

    lemma DiscardExplained(l: L2, m: L2)
      requires Explained(l) && (m == l || m == Discarded(l))
      ensures Explained(m)
    {
    }

    method WaitTimedOut(e: Env) returns (out: Out)
      requires Safe()
      modifies this`given, z`t, pool
      ensures Safe() && Added(old(z.t), z.t, Raises(out)) && |given| == |old(given)| + ServeCalls(out) && ExitOk(out)
      ensures Licensed(e, out)
      ensures if sie.armed then out.Exit? && out.site.WaitSie? && given == old(given) + [sie.snap]
              else out == Exit(WaitTimeout, Origin)
    {
      assert sie.armed && sie.snap.Slab? ==> Holds(pool.clns, sie.cln, sie.snap.b);
      hide Pool.Balanced, ArmedPinned, Holds;
      if !sie.armed {
        out := ToOrigin(WaitTimeout);
        return;
      }
      z.t := z.t.(staleServes := z.t.staleServes + 1, sieServes := z.t.sieServes + 1);
      var a := Hand(e, sie.snap, sie.cln);
      out := Exit(WaitSie, ServeRc(a));
    }

    /** Discard the last L2 outcome so that the next pass asks L2 again, memo or not, and set the timer. */
    method WaitPoll(e: Env, remaining: int) returns (out: Out)
      requires remaining > 0
      modifies this`wt, this`l2
      ensures l2 == Discarded(old(l2))
      ensures wt == old(wt).(timerSet := true, polled := old(wt.polled) || out.Park?,
                             polls := old(wt.polls) + if out.Park? then 1 else 0)
      ensures Licensed(e, out)
      ensures if old(wt.timerSet) || e.timerRoom
              then out == Park(Poll(if remaining < POLL_MS then remaining else POLL_MS)) && wt.polled
              else out == Exit(WaitFailed, Failed)
    {
      l2 := l2.(done := false, negSkipped := false, negForce := true, result := Down, blob := None, src := Nothing);
      var delay := POLL_MS;
      if delay > remaining {
        delay := remaining;
      }
      if !wt.timerSet {
        wt := wt.(timerSet := true);
        if !e.timerRoom {
          return Exit(WaitFailed, Failed);
        }
      }
      wt := wt.(polled := true, polls := wt.polls + 1);
      out := Park(Poll(delay));
    }

    method ColdResumeLocked(e: Env) returns (out: Out)
      requires Safe() && Explained(l2) && nx.done
      modifies this`wt, this`l2, this`cold, this`given, z`t, pool
      ensures Safe() && Explained(l2) && Added(old(z.t), z.t, Raises(out)) && |given| == |old(given)| + ServeCalls(out)
      ensures !out.Next? && ExitOk(out) && l2.missCounted == old(l2.missCounted) && l2.sent == old(l2.sent)
      ensures (l2.done ==> old(l2.done)) && Licensed(e, out)
      ensures !nx.result.Missing? ==> out == Exit(LockWon, Origin) && cold.winner
                                      && (!old(cold.winner) ==> cold.owner == cold.pending)
      ensures nx.result.Missing? ==> cold == old(cold) && (out.Exit? ==> WaitSite(out.site))
      ensures out.Park? ==> Polled(out.wait, old(wt), wt, ms, conf.lockTimeout) && !l2.done
      ensures out.Exit? ==> ColdSite(out.site) && wt.polls == old(wt.polls)
    {
      hide Pool.Balanced, ArmedPinned, Explained;
      if nx.result.Found? || nx.result.Down? {
        out := ToOrigin(LockWon);
        NoBody(e, LockWon);
        MarkWinner(cold.pending);
      } else {
        out := ColdWait(e);
      }
    }

    /** The request owns a reference the zone took for it; serve it or give it back, never both. */
    method RacedFreshOwned(e: Env, b: nat) returns (out: Out)
      requires !z.locked && pool.Balanced(Some(b)) && ArmedPinned(brk, sie, pool.clns)
      modifies this`given, z`t, pool
      ensures Safe() && Added(old(z.t), z.t, Raises(out)) && |given| == |old(given)| + ServeCalls(out)
      ensures if reqReval then out == Exit(RacedGone, Origin) else out.Exit? && out.site.RacedFresh?
    {
      hide Pool.Balanced, ArmedPinned;
      if reqReval {
        pool.GiveBack(z, b);
        out := ToOrigin(RacedGone);
        return;
      }
      z.t := z.t.(hits := z.t.hits + 1);
      var a := HandOver(e, b);
      out := Exit(RacedFresh, ServeRc(a));
    }

    /** resolve_miss found a fresh entry and took its reference inside its own hold of the mutex. */
    method MergedFresh(e: Env) returns (out: Out)
      requires Safe()
      modifies this`given, z`locked, z`t, pool
      ensures Safe() && Added(old(z.t), z.t, Raises(out)) && |given| == |old(given)| + ServeCalls(out)
      ensures Licensed(e, out)
      ensures if e.freshData.Some? && !reqReval then out.Exit? && out.site.RacedFresh? else out == Exit(RacedGone, Origin)
    {
      hide Pool.Balanced, ArmedPinned;
      if e.freshData.None? {
        out := ToOrigin(RacedGone);
        return;
      }
      z.Lock();
      pool.Take(z, e.freshData.value);
      z.Unlock();
      out := RacedFreshOwned(e, e.freshData.value);
    }

    /** A claim found a fresh entry: look again under the mutex, and serve it unless it is gone or unwanted. */
    method RacedFreshRelookup(e: Env) returns (out: Out)
      requires Safe()
      modifies this`given, z`locked, z`t, pool
      ensures Safe() && Added(old(z.t), z.t, Raises(out)) && |given| == |old(given)| + ServeCalls(out)
      ensures Licensed(e, out) && ExitOk(out)
      ensures if e.relookup.Some? && e.relookup.value.len > 0 && now < e.relookup.value.freshUntil && !reqReval
              then out.Exit? && out.site.RacedFresh? else out == Exit(RacedGone, Origin)
    {
      hide Pool.Balanced, ArmedPinned;
      z.Lock();
      if e.relookup.Some? && e.relookup.value.len > 0 && now < e.relookup.value.freshUntil && !reqReval {
        var b := e.relookup.value.body;
        pool.Take(z, b);
        z.Unlock();
        z.t := z.t.(hits := z.t.hits + 1);
        var a := HandOver(e, b);
        return Exit(RacedFresh, ServeRc(a));
      }
      z.Unlock();
      out := ToOrigin(RacedGone);
    }

    method AccessCold(e: Env) returns (out: Out)
      requires Safe() && Explained(l2) && conf.lock
      modifies this`wt, this`l2, this`cold, this`given, z`locked, z`t, pool
      ensures Safe() && Explained(l2) && Added(old(z.t), z.t, Raises(out)) && |given| == |old(given)| + ServeCalls(out)
      ensures !out.Next? && ExitOk(out) && l2.missCounted == old(l2.missCounted) && l2.sent == old(l2.sent)
      ensures (l2.done ==> old(l2.done)) && Licensed(e, out)
      ensures out.Park? ==> out.wait.NxLock? || (Polled(out.wait, old(wt), wt, ms, conf.lockTimeout) && !l2.done)
      ensures out == Park(NxLock) ==>
                !nx.done && conf.l2Lock && e.claim.Winner? && cold.pending == e.claimOwner && wt == old(wt) && l2 == old(l2)
      ensures out.Exit? ==> ColdSite(out.site) && wt.polls == old(wt.polls)
      ensures out.Exit? && out.site.OwnStub? ==> e.claim.Loser? && e.ownStub && cold.winner
      ensures out.Exit? && out.site.ColdWon? ==>
                e.claim.Winner? && cold.winner && (!old(cold.winner) ==> cold.owner == e.claimOwner)
      ensures out.Exit? && out.site.BelowMinUses? ==> !e.countPasses && !nx.done && conf.minUses > 1
    {
      hide Licensed, Safe, Pool.Balanced, ArmedPinned, Explained, Raised, Tallied, ExitOk, Weight, Serves;
      if nx.done {
        out := ColdResumeLocked(e);
        return;
      }
      out := ColdMinUses(e);
      if out.Next? {
        cold := cold.(pending := if e.claim.Winner? then e.claimOwner else 0);
        out := Claimed(e);
      }
    }

    /** With single flight on, the min_uses count and the claim are one call: resolve_miss. */
    method ColdMinUses(e: Env) returns (out: Out)
      requires Safe() && !nx.done
      modifies this`cold, this`given, z`locked, z`t, pool
      ensures Safe() && Added(old(z.t), z.t, Raises(out)) && |given| == |old(given)| + ServeCalls(out)
      ensures !out.Park? && ExitOk(out) && Licensed(e, out)
      ensures out.Next? <==> conf.minUses <= 1 || old(cold.minUsesPassed) || (e.countPasses && !e.claim.Fresh?)
      ensures out.Exit? ==> ColdSite(out.site) && !out.site.OwnStub? && !out.site.ColdWon?
      ensures out.Exit? && out.site.BelowMinUses? <==>
                conf.minUses > 1 && !old(cold.minUsesPassed) && !e.countPasses
      ensures cold == old(cold).(minUsesPassed := cold.minUsesPassed)
    {
      hide Pool.Balanced, ArmedPinned, Added;
      if conf.minUses <= 1 || cold.minUsesPassed {
        AddedNothing(z.t);
        return Next;
      }
      if !e.countPasses {
        out := Below();
        NoBody(e, BelowMinUses);
        return;
      }
      cold := cold.(minUsesPassed := true);
      if e.claim.Fresh? {
        out := MergedFresh(e);
      } else {
        AddedNothing(z.t);
        out := Next;
      }
    }

    /** Another request has the single flight, unless it is this one under an earlier context. */
    method ClaimLost(e: Env) returns (out: Out)
      requires Safe() && Explained(l2)
      modifies this`wt, this`l2, this`cold, this`given, z`t, pool
      ensures Safe() && Explained(l2) && Added(old(z.t), z.t, Raises(out)) && |given| == |old(given)| + ServeCalls(out)
      ensures !out.Next? && ExitOk(out) && l2.missCounted == old(l2.missCounted) && l2.sent == old(l2.sent)
      ensures (l2.done ==> old(l2.done)) && Licensed(e, out) && cold.pending == old(cold.pending)
      ensures if e.ownStub then out == Exit(OwnStub, Origin) && cold.winner
              else if out.Park? then Polled(out.wait, old(wt), wt, ms, conf.lockTimeout) && !l2.done
              else WaitSite(out.site)
      ensures out.Exit? ==> wt.polls == old(wt.polls)
    {
      hide Pool.Balanced, ArmedPinned, Explained, Raised, Tallied, Polled;
      if e.ownStub {
        cold := cold.(winner := true);
        out := Exit(OwnStub, Origin);
      } else {
        out := ColdWait(e);
      }
    }

    /** This request fills the key: across the fleet if the NX lock can be asked for, else at once. */
    method ClaimWon(e: Env) returns (out: Out)
      requires Safe() && cold.pending == e.claimOwner
      modifies this`cold, z`t
      ensures Safe() && Added(old(z.t), z.t, Raises(out)) && ServeCalls(out) == 0 && ExitOk(out) && Licensed(e, out)
      ensures cold.pending == old(cold.pending)
      ensures if conf.l2Lock && e.lockStarts then out == Park(NxLock) && cold == old(cold)
              else out == Exit(ColdWon, Origin) && cold.winner && (!old(cold.winner) ==> cold.owner == e.claimOwner)
    {
      hide Pool.Balanced, ArmedPinned;
      if conf.l2Lock && e.lockStarts {
        out := Park(NxLock);
      } else {
        out := ToOrigin(ColdWon);
        MarkWinner(cold.pending);
      }
    }

    /** What the claim answered, beyond the merged fresh case. */
    method Claimed(e: Env) returns (out: Out)
      requires Safe() && Explained(l2) && !nx.done && (e.claim.Winner? ==> cold.pending == e.claimOwner)
      modifies this`wt, this`l2, this`cold, this`given, z`locked, z`t, pool
      ensures Safe() && Explained(l2) && Added(old(z.t), z.t, Raises(out)) && |given| == |old(given)| + ServeCalls(out)
      ensures !out.Next? && ExitOk(out) && l2.missCounted == old(l2.missCounted) && l2.sent == old(l2.sent)
      ensures (l2.done ==> old(l2.done)) && Licensed(e, out)
      ensures cold.pending == old(cold.pending)
      ensures match e.claim
              case Fresh => out.Exit? && (out.site.RacedFresh? || out.site.RacedGone?)
              case Loser => if e.ownStub then out == Exit(OwnStub, Origin) && cold.winner
                            else if out.Park? then Polled(out.wait, old(wt), wt, ms, conf.lockTimeout) && !l2.done
                            else WaitSite(out.site)
              case Winner => if conf.l2Lock && e.lockStarts then out == Park(NxLock) && cold == old(cold)
                             else out == Exit(ColdWon, Origin) && cold.winner
                                  && (!old(cold.winner) ==> cold.owner == e.claimOwner)
      ensures out == Park(NxLock) ==> wt == old(wt) && l2 == old(l2)
      ensures out.Exit? ==> ColdSite(out.site) && !out.site.BelowMinUses? && wt.polls == old(wt.polls)
    {
      hide Pool.Balanced, ArmedPinned, Explained, Raised, Tallied, Safe, Licensed, ExitOk;
      match e.claim {
        case Fresh =>
          out := RacedFreshRelookup(e);
        case Loser =>
          out := ClaimLost(e);
        case Winner =>
          out := ClaimWon(e);
      }
    }

    // ---- one activation ------------------------------------------------------

    /** What a park left behind, seen from the state the activation started in. */
    predicate ParkOk(w: Wait, was: Vary, wasL2: L2, wasWt: Waiting)
      reads this`key, this`vary, this`l2, this`wt, this`nx, this`act, this`now, this`ms
    {
      match w
      case Poll(_) =>
        && Polled(w, wasWt, wt, ms, conf.lockTimeout) && !l2.done && (was.done ==> vary.done) && Told()
        && Pending(vary, l2) <= Pending(was, wasL2) + 1
      case NxLock =>
        && wt == wasWt && !nx.done && conf.l2Lock && (was.done ==> vary.done) && Told()
        && Pending(vary, l2) <= Pending(was, wasL2)
      case _ =>
        wt == wasWt && GetParked(w, vary, l2, key, ask.uri, was.done, Pending(was, wasL2))
    }

    /** One pass of ngx_http_cache_turbo_access_handler. */
    method Activate(e: Env) returns (out: Out)
      requires Ready()
      modifies this`key, this`brkOnly, this`vary, this`reqReval, this`brk, this`sie, this`l2, this`wt, this`cold
      modifies this`armings, this`writes, this`given, z, pool
      ensures !out.Next? && Safe() && Counted(ask, brk, l2.missCounted, z.t) && Kept()
      ensures Raised(z.t) == Raises(out) && |given| == ServeCalls(out)
      ensures BreakerTrail(out, old(brk), brk) && ExitOk(out) && (out.Exit? ==> wt.polls == old(wt.polls))
      ensures Licensed(e, out)
      ensures PastMisses(out) && conf.backend && l2.done ==> l2.missCounted
      ensures out.Park? ==> ParkOk(out.wait, old(vary), old(l2), old(wt))
    {
      hide Pool.Balanced, ArmedPinned, Ledger, Weight, Serves, ExitOk, ParkOk, Tallied, Explained, Dated;
      out := Prologue(e);
      if out.Next? {
        out := FromL1(e);
      }
    }

    method FromL1(e: Env) returns (out: Out)
      requires Safe() && Counted(ask, brk, l2.missCounted, z.t) && Kept() && key == Base(ask.uri) && Told()
      requires brk.consulted ==> brk.action.Pass?
      modifies this`key, this`vary, this`reqReval, this`brk, this`sie, this`l2, this`wt, this`cold
      modifies this`armings, this`writes, this`given, z, pool
      ensures !out.Next? && Safe() && Counted(ask, brk, l2.missCounted, z.t) && Kept()
      ensures Raised(z.t) == old(Raised(z.t)) + Raises(out) && |given| == |old(given)| + ServeCalls(out)
      ensures BreakerTrail(out, old(brk), brk) && ExitOk(out) && (out.Exit? ==> wt.polls == old(wt.polls))
      ensures Licensed(e, out)
      ensures PastMisses(out) && conf.backend && l2.done ==> l2.missCounted
      ensures out.Park? ==> ParkOk(out.wait, old(vary), old(l2), old(wt))
    {
      hide OneKey, L1Arms, Licensed, Safe, Pool.Balanced, ArmedPinned, Ledger, Weight, Serves, ExitOk, Tallied;
      hide Explained, Dated, Counted, BreakerTrail;
      out := AccessL1(e);
      LedgerKept(armings, old(vary), vary, old(l2), l2, nx, nx, conf, ask.uri);
      CountedKept(ask, old(brk), brk, l2.missCounted, old(z.t), z.t, Raises(out));
      if out.Next? {
        ghost var mid := brk;
        out := FromL2(e);
        TrailThrough(out, old(brk), mid, brk);
      } else {
        TrailSame(out, old(brk), brk);
      }
    }

    /** Exits past the miss accounting. */
    predicate PastMisses(out: Out) {
      out.Exit? && !PrologueSite(out.site) && !L1Site(out.site) && !out.site.L2Serve? && !out.site.KeyFailed?
    }

    predicate PrologueSite(s: Site) {
      s.NotEligible? || s.Ambiguous? || s.SetupFailed? || s.Bypassed? || s.Revalidated? || s.RevalidateRefused?
    }

    predicate L1Site(s: Site) {
      s.FreshServe? || s.StaleServe? || s.RefreshingServe? || s.PinFailed? || s.InlineRegen?
    }

    method FromL2(e: Env) returns (out: Out)
      requires Safe() && Counted(ask, brk, l2.missCounted, z.t) && Kept() && OneKey() && Told()
      requires brk.consulted ==> brk.action.Pass?
      modifies this`key, this`vary, this`reqReval, this`brk, this`sie, this`l2, this`wt, this`cold
      modifies this`armings, this`writes, this`given, z, pool
      ensures !out.Next? && Safe() && Counted(ask, brk, l2.missCounted, z.t) && Kept()
      ensures Raised(z.t) == old(Raised(z.t)) + Raises(out) && |given| == |old(given)| + ServeCalls(out)
      ensures BreakerTrail(out, old(brk), brk) && ExitOk(out) && (out.Exit? ==> wt.polls == old(wt.polls))
      ensures Licensed(e, out)
      ensures PastMisses(out) && conf.backend && l2.done ==> l2.missCounted
      ensures out.Park? ==> ParkOk(out.wait, old(vary), old(l2), old(wt))
    {
      hide Pool.Balanced, ArmedPinned, Ledger, Weight, Serves, ExitOk, Tallied, Explained, Dated, Latched, Counted;
      hide BreakerTrail, L2Served;
      out := AccessL2(e);
      CountedKept(ask, old(brk), brk, l2.missCounted, old(z.t), z.t, Raises(out));
      if out.Next? {
        ghost var mid := brk;
        out := FromMiss(e);
        TrailThrough(out, old(brk), mid, brk);
      } else {
        TrailSame(out, old(brk), brk);
      }
    }

    /** L2 has not answered the request: account for that, and go on. */
    method FromMiss(e: Env) returns (out: Out)
      requires Safe() && Counted(ask, brk, l2.missCounted, z.t) && Kept() && OneKey() && Told()
      requires (vary.tried ==> vary.unsent) && (brk.consulted ==> brk.action.Pass?)
      modifies this`brk, this`l2, this`wt, this`cold, this`armings, this`given, z, pool
      ensures !out.Next? && Safe() && Counted(ask, brk, l2.missCounted, z.t) && Kept()
      ensures Raised(z.t) == old(Raised(z.t)) + Raises(out) && |given| == |old(given)| + ServeCalls(out)
      ensures BreakerTrail(out, old(brk), brk) && ExitOk(out) && (out.Exit? ==> wt.polls == old(wt.polls))
      ensures Licensed(e, out) && (out.Exit? ==> !L1Site(out.site)) && (conf.backend && l2.done ==> l2.missCounted)
      ensures out.Park? ==> ParkOk(out.wait, vary, old(l2), old(wt))
    {
      hide Pool.Balanced, ArmedPinned, Ledger, Weight, Serves, ExitOk, Tallied, Explained, Dated, Latched, Counted;
      hide BreakerTrail, L1Site, Licensed, Safe;
      MissAccount(e);
      ghost var l := l2;
      out := AfterMiss(e);
      LedgerKept(armings, vary, vary, l, l2, nx, nx, conf, ask.uri);
    }

    method AfterMiss(e: Env) returns (out: Out)
      requires Safe() && Counted(ask, brk, l2.missCounted, z.t)
      requires Told() && (vary.tried ==> vary.unsent) && (brk.consulted ==> brk.action.Pass?)
      modifies this`brk, this`l2, this`wt, this`cold, this`given, z, pool
      ensures !out.Next? && Safe() && Counted(ask, brk, l2.missCounted, z.t)
      ensures Raised(z.t) == old(Raised(z.t)) + Raises(out) && |given| == |old(given)| + ServeCalls(out)
      ensures BreakerTrail(out, old(brk), brk) && ExitOk(out) && (out.Exit? ==> wt.polls == old(wt.polls))
      ensures l2.missCounted == old(l2.missCounted) && l2.sent == old(l2.sent) && (l2.done ==> old(l2.done))
      ensures Licensed(e, out) && (out.Exit? ==> !L1Site(out.site))
      ensures out.Park? ==> ParkOk(out.wait, vary, old(l2), old(wt))
    {
      hide Pool.Balanced, ArmedPinned, Weight, Serves, ExitOk, Tallied, Explained, Dated, Latched, ParkOk, Counted;
      hide Safe, Raised, Licensed, BreakerTrail;
      out := OnlyIfCached(e);
      CountedKept(ask, brk, brk, l2.missCounted, old(z.t), z.t, Raises(out));
      if out.Next? {
        out := FromGate(e);
      } else {
        TrailSame(out, brk, brk);
      }
    }

    /** The breaker has its say, then the request is on its way to the origin. */
    method FromGate(e: Env) returns (out: Out)
      requires Safe() && Counted(ask, brk, l2.missCounted, z.t) && !ask.onlyIfCached
      requires Told() && (vary.tried ==> vary.unsent) && (brk.consulted ==> brk.action.Pass?)
      modifies this`brk, this`l2, this`wt, this`cold, this`given, z, pool
      ensures !out.Next? && Safe() && Counted(ask, brk, l2.missCounted, z.t)
      ensures Added(old(z.t), z.t, Raises(out)) && |given| == |old(given)| + ServeCalls(out)
      ensures BreakerTrail(out, old(brk), brk) && ExitOk(out) && (out.Exit? ==> wt.polls == old(wt.polls))
      ensures l2.missCounted == old(l2.missCounted) && l2.sent == old(l2.sent) && (l2.done ==> old(l2.done))
      ensures Licensed(e, out) && (out.Exit? ==> !L1Site(out.site))
      ensures out.Park? ==> ParkOk(out.wait, vary, old(l2), old(wt))
    {
      hide Pool.Balanced, ArmedPinned, Weight, Serves, ExitOk, Tallied, Explained, Dated, Latched, ParkOk, Counted;
      hide Safe, Raised, Licensed;
      out := BreakerGate(e);
      if out.Next? {
        ghost var t := z.t;
        out := AfterGate(e);
        if out.Exit? {
          ColdIsLate(out.site);
        }
        CountedKept(ask, brk, brk, l2.missCounted, t, z.t, Raises(out));
      }
    }

    method AfterGate(e: Env) returns (out: Out)
      requires Safe() && Told()
      requires vary.tried ==> vary.unsent
      modifies this`l2, this`wt, this`cold, this`given, z`locked, z`t, pool
      ensures !out.Next? && Safe() && Added(old(z.t), z.t, Raises(out)) && |given| == |old(given)| + ServeCalls(out)
      ensures ExitOk(out) && (out.Exit? ==> ColdSite(out.site) && wt.polls == old(wt.polls))
      ensures l2.missCounted == old(l2.missCounted) && l2.sent == old(l2.sent) && (l2.done ==> old(l2.done))
      ensures Licensed(e, out)
      ensures out.Park? ==> ParkOk(out.wait, vary, old(l2), old(wt))
    {
      hide Safe, Pool.Balanced, ArmedPinned, Raised, Tallied, Dated, ExitOk, Weight, Serves;
      out := MinUses(e);
      if out.Next? {
        if conf.lock {
          out := AccessCold(e);
          if out.Park? && out.wait.Poll? {
            NoDate(l2.src, act, now, nx);
          }
        } else {
          out := ToOrigin(Miss);
          PlainMiss(e, Miss);
        }
      } else {
        PlainMiss(e, BelowMinUses);
      }
    }

    // ---- parks and resumes ---------------------------------------------------

    /** get_finish: record the reply; the clocks have moved on. */
    method TakeReply(rep: Reply)
      modifies this`l2, this`ms, this`now, this`act
      ensures act == old(act) + 1 && now == rep.now && ms == old(ms) + rep.elapsed
      ensures l2 == old(l2).(done := true, result := rep.result, src := FromReply(l2.sent, rep.result, now, act),
                             blob := if rep.result.Found? && rep.blob.Some? then rep.blob else old(l2.blob))
      ensures PollsLeft(wt, ms, conf.lockTimeout) <= old(PollsLeft(wt, ms, conf.lockTimeout))
      ensures old(WithinTimeout(wt, ms, conf.lockTimeout)) ==> WithinTimeout(wt, ms, conf.lockTimeout)
    {
      PollsMonotone(wt.deadline - ms - rep.elapsed, wt.deadline - ms);
      hide Polls;
      act, now, ms := act + 1, rep.now, ms + rep.elapsed;
      l2 := l2.(done := true, result := rep.result, src := FromReply(l2.sent, rep.result, now, act),
                blob := if rep.result.Found? && rep.blob.Some? then rep.blob else l2.blob);
    }

    /** lock_finish: record the outcome; the clocks have moved on. */
    method TakeLock(rep: Reply)
      modifies this`nx, this`ms, this`now, this`act
      ensures act == old(act) + 1 && now == rep.now && ms == old(ms) + rep.elapsed
      ensures nx == Nx(true, rep.result, act, old(nx.parks) + 1)
    {
      act, now, ms := act + 1, rep.now, ms + rep.elapsed;
      nx := Nx(true, rep.result, act, nx.parks + 1);
    }

    /** The completion of a GET re-enters with its reply. */
    method ResumeGet(w: Wait, rep: Reply, ghost was: Vary, ghost wasL2: L2)
      requires Rested() && (w.MarkerGet? || w.ObjectGet?)
      requires GetParked(w, vary, l2, key, ask.uri, was.done, Pending(was, wasL2))
      requires markerParks <= (if was.done then 1 else 0) && nx.parks == (if nx.done then 1 else 0)
      requires WithinTimeout(wt, ms, conf.lockTimeout) && gets + Pending(was, wasL2) <= 2 + wt.polls
      modifies this`l2, this`ms, this`now, this`act, this`markerParks, this`gets
      ensures markerParks + gets == old(markerParks) + old(gets) + 1
      ensures Ready() && Budgeted() && PollsLeft(wt, ms, conf.lockTimeout) <= old(PollsLeft(wt, ms, conf.lockTimeout))
      ensures (!was.done && vary.done) || (was.done == vary.done && Pending(vary, l2) < Pending(was, wasL2))
      ensures l2.done && l2.src == FromReply(l2.sent, rep.result, rep.now, act) && l2.sent == old(l2.sent)
    {
      hide Safe, Counted, Ledger, WithinTimeout, PollsLeft;
      TakeReply(rep);
      LedgerKept(armings, old(vary), vary, old(l2), l2, nx, nx, conf, ask.uri);
      if w.MarkerGet? {
        markerParks := markerParks + 1;
      } else {
        gets := gets + 1;
      }
    }

    /** The completion of the NX lock re-enters with its outcome. */
    method ResumeLock(rep: Reply, ghost was: Vary, ghost wasL2: L2)
      requires Rested() && ParkOk(NxLock, was, wasL2, wt)
      requires markerParks <= (if was.done then 1 else 0) && nx.parks == (if nx.done then 1 else 0)
      requires WithinTimeout(wt, ms, conf.lockTimeout) && gets + Pending(was, wasL2) <= 2 + wt.polls
      modifies this`nx, this`ms, this`now, this`act
      ensures Ready() && Budgeted() && nx == Nx(true, rep.result, act, old(nx.parks) + 1)
      ensures PollsLeft(wt, ms, conf.lockTimeout) <= old(PollsLeft(wt, ms, conf.lockTimeout))
    {
      hide Safe, Counted, Ledger;
      ghost var left := wt.deadline - ms;
      TakeLock(rep);
      PollsMonotone(wt.deadline - ms, left);
      LedgerKept(armings, vary, vary, l2, l2, old(nx), nx, conf, ask.uri);
    }

    /** The cold-wait timer fires, no earlier than it was set for. */
    method ResumePoll(w: Wait, rep: Reply, ghost was: Vary, ghost wasL2: L2, ghost wasWt: Waiting)
      requires Rested() && w.Poll? && ParkOk(w, was, wasL2, wasWt)
      requires markerParks <= (if was.done then 1 else 0) && nx.parks == (if nx.done then 1 else 0)
      requires WithinTimeout(wasWt, ms, conf.lockTimeout) && gets + Pending(was, wasL2) <= 2 + wasWt.polls
      modifies this`ms, this`now, this`act
      ensures Ready() && Budgeted()
      ensures PollsLeft(wt, ms, conf.lockTimeout) < PollsLeft(wasWt, old(ms), conf.lockTimeout)
    {
      hide Safe, Counted, Ledger;
      ghost var left := wt.deadline - ms;
      act, now, ms := act + 1, rep.now, ms + rep.elapsed + w.delay;
      PollShrinks(left, rep.elapsed + w.delay);
    }

    /** The lexicographic measure of a life: marker GET, NX lock, polls, object GETs. */
    predicate Progress(was: Vary, wasL2: L2, wasNx: bool, wasLeft: nat)
      reads this`vary, this`l2, this`nx, this`wt, this`ms
    {
      var left := PollsLeft(wt, ms, conf.lockTimeout);
      || (!was.done && vary.done)
      || (was.done == vary.done && ((!wasNx && nx.done)
          || (wasNx == nx.done && (left < wasLeft || (left == wasLeft && Pending(vary, l2) < Pending(was, wasL2))))))
    }

    function Parks(): nat
      reads this`markerParks, this`nx, this`wt, this`gets
    {
      markerParks + nx.parks + wt.polls + gets
    }

    /** What the park was for has completed. */
    method Resume(w: Wait, rep: Reply, ghost was: Vary, ghost wasL2: L2, ghost wasWt: Waiting)
      requires Rested() && ParkOk(w, was, wasL2, wasWt)
      requires markerParks <= (if was.done then 1 else 0) && nx.parks == (if nx.done then 1 else 0)
      requires WithinTimeout(wasWt, ms, conf.lockTimeout) && gets + Pending(was, wasL2) <= 2 + wasWt.polls
      modifies this`l2, this`nx, this`ms, this`now, this`act, this`markerParks, this`gets
      ensures Ready() && Budgeted() && Progress(was, wasL2, old(nx.done), old(PollsLeft(wasWt, ms, conf.lockTimeout)))
      ensures Parks() == old(markerParks) + old(nx.parks) + old(gets) + wasWt.polls + 1
    {
      hide Safe, Counted, Ledger, Told, Latched, Dated, Explained;
      match w {
        case NxLock => ResumeLock(rep, was, wasL2);
        case Poll(_) => ResumePoll(w, rep, was, wasL2, wasWt);
        case _ => ResumeGet(w, rep, was, wasL2);
      }
    }

    /** One activation and, if it parked, its resume: progress on the measure, budgets kept. */
    method Turn(e: Env, rep: Reply) returns (out: Out)
      requires Ready() && Budgeted()
      modifies this, z, pool
      ensures !out.Next? && Safe() && Counted(ask, brk, l2.missCounted, z.t) && Kept()
      ensures BreakerTrail(out, old(brk), brk) && (out.Exit? ==> Licensed(e, out))
      ensures out.Park? ==>
                Ready() && Budgeted()
                && Progress(old(vary), old(l2), old(nx.done), old(PollsLeft(wt, ms, conf.lockTimeout)))
      ensures Parks() == old(Parks()) + if out.Park? then 1 else 0
      ensures out.Exit? ==> Raised(z.t) == Weight(out.site) && |given| == ServeCalls(out) && ExitOk(out)
      ensures out.Exit? ==> wt.polls <= Polls(conf.lockTimeout) && markerParks <= 1 && nx.parks <= 1 && gets <= 2 + wt.polls
    {
      hide Safe, Counted, Ledger, ExitOk, Told, Latched, Dated, Explained, Pending, ParkOk, Licensed, Weight, Serves;
      ghost var was, wasL2, wasWt := vary, l2, wt;
      out := Activate(e);
      if out.Park? {
        Resume(out.wait, rep, was, wasL2, wasWt);
      }
    }
  }

  lemma MarkerEvidence(v: Vary, l2: L2, key: Key, uri: nat, now: int, act: nat, nx: Nx)
    requires Explained(l2) && Latched(v, l2, key, uri) && Dated(l2.src, act, now, nx) && v.tried && l2.done
    ensures l2.result.Missing? ==> GoodArming(Arming(Marker(uri), l2.sent, now, act, nx, l2.src))
  {
  }

  lemma NeverMarker(v: Vary, l2: L2, key: Key, uri: nat)
    requires Latched(v, l2, key, uri)
    ensures !key.Marker?
  {
  }

  lemma NoDate(src: Source, act: nat, now: int, nx: Nx)
    requires src.Nothing?
    ensures Dated(src, act, now, nx)
  {
  }

  lemma ArmedSame(b: Brk, c: Brk, sie: Sie, clns: seq<Option<nat>>)
    requires ArmedPinned(b, sie, clns) && c.armed == b.armed
    requires c.armDone == b.armDone && c.snap == b.snap && c.cln == b.cln
    ensures ArmedPinned(c, sie, clns)
  {
  }

  lemma AddedNothing(t: Tally)
    ensures Added(t, t, 0)
  {
  }

  // ---- a whole life ----------------------------------------------------------

  /**
   A request from first entry to pool teardown, against any sequence of answers. It terminates; it raises the
   outcome counters by its exit's weight and l2_misses by at most one; it calls serve() and the promoting
   breaker getter at most once; a probe is its last act; every reference it took is given back; its parks
   stay within their budgets; what it served was inside a window or an armed fallback; and it wrote at most one
   negative memo on its marker and one on an object, each honest exactly under the key last sent.
   */
  method Live(conf: Conf, ask: Ask, crc: Key -> nat, now: int, ms: int, env: nat -> Env, rep: nat -> Reply)
    returns (r: Request, out: Out, parks: nat)
    ensures out.Exit? && ExitOk(out) && r.ask == ask && r.conf == conf
    ensures Raised(r.z.t) == Weight(out.site) && r.z.t.l2Misses <= 1 && Tallied(r.z.t)
    ensures |r.given| == ServeCalls(out)
    ensures r.brk.consults <= 1 && (ask.onlyIfCached ==> r.brk.consults == 0)
    ensures out.site.Probe? <==> r.brk.consulted && r.brk.action.ProbeOrigin?
    ensures !r.z.locked && r.pool.pins == multiset{}
    ensures r.markerParks <= 1 && r.nx.parks <= 1 && r.wt.polls <= Polls(conf.lockTimeout) && r.gets <= 2 + r.wt.polls
    ensures parks == r.Parks()
    ensures r.Licensed(env(parks), out)
    ensures |r.armings| <= 2 && (|r.armings| == 2 ==> r.armings[0].key.Marker? != r.armings[1].key.Marker?)
    ensures forall a | a in r.armings :: ByRequest(a, conf, ask.uri) && (Honest(a) <==> SentForKey(a))
    ensures !conf.autoVary ==> forall a | a in r.armings :: Honest(a)
    ensures !conf.l2Lock ==> forall a | a in r.armings && a.src.FromReply? :: a.src.at == a.at
  {
    hide Ledger, GoodArming, ExitOk, Latched, Explained, Dated, Polls, Pool.Balanced, ArmedPinned, Weight, Serves;
    hide Raised, ByRequest, Honest, SentForKey;
    r := new Request(conf, ask, crc, now, ms);
    r.Born();
    parks := 0;
    while true
      invariant r.ask == ask && r.conf == conf && fresh(r) && fresh(r.z) && fresh(r.pool)
      invariant r.Ready() && r.Budgeted()
      invariant parks == r.Parks()
      decreases if r.vary.done then 0 else 1, if r.nx.done then 0 else 1,
                PollsLeft(r.wt, r.ms, conf.lockTimeout), Pending(r.vary, r.l2)
    {
      out := r.Turn(env(parks), rep(parks));
      if out.Exit? {
        break;
      }
      parks := parks + 1;
    }
    LedgerSays(r.armings, r.vary, r.l2, r.nx, conf, ask.uri);
    r.pool.Destroy(r.z);
  }
}

/**
 Runs of the request model on which an L2 outcome is not about the key it is used for, or is older than it looks:
 concrete answers of the outside world, phase by phase. Each gives the input behind one exact condition of
 Access.dfy, AccessState.dfy and Memo.dfy.
 */
module Corners {
  import opened Options
  import opened Pins
  import opened AccessState
  import opened Access
  import Lease

  /** Everything starts, nothing is memoed, no node and no marker is resident. */
  const QUIET := Env(
    ctxRoom := true, keyOk := true, openAtBypass := false, openAtRevalidate := false, bypass := false,
    markersHint := false, markers := false, digestOk := true, applyOk := true, rederiveOk := true, openAtVary := false,
    marker := None, node := None, dice := false,
    pinRoom := true, brkRoom := true, sieRoom := true, serveRoom := true, serve := Answered, lockStarts := true,
    markerMemo := false, markerGetStarts := true, resolveOk := true, baseOk := true, memo := false, getStarts := true,
    sieCopyRoom := true, l2FreshOk := true, l2StaleOk := true,
    openAtGate := false, brkState := Closed, unavailableOk := true,
    countPasses := true, claim := Lease.Winner, claimOwner := 0, freshData := None, relookup := None, ownStub := false,
    timerRoom := true)

  /** L1 shows the variant marker of the page. */
  const MARKED := QUIET.(markers := true, marker := Some(L1Marker(1, 0, 101)))

  const VARIED := Conf(
    autoVary := true, markerRevalidate := 0, breaker := false, backend := true, l2Lock := true, l2NegativeTtl := 30,
    lock := true, minUses := 1, lockTimeout := 5000, backgroundUpdate := true)

  const ASK := Ask(7, true, false, false, false, false, false, false)

  ghost predicate Fit(r: Request)
    reads r, r.z, r.pool
  {
    && r.conf == VARIED && r.ask == ASK && r.Safe() && r.Told() && r.Kept() && !r.key.Marker?
    && Counted(r.ask, r.brk, r.l2.missCounted, r.z.t) && r.nx.act <= r.act
  }

  // ---- the steps these runs are made of --------------------------------------

  method Start() returns (r: Request)
    ensures fresh(r) && fresh(r.z) && fresh(r.pool) && Fit(r) && r.conf == VARIED && r.ask == ASK && r.key == Base(7)
    ensures r.vary == NO_VARY && r.l2 == NoL2(7) && !r.nx.done && r.now == 100
    ensures !r.wt.on && r.wt.polls == 0 && r.writes == []
  {
    hide Pool.Balanced, ArmedPinned, Ledger;
    r := new Request(VARIED, ASK, k => 0, 100, 0);
    r.Born();
  }

  /** The head of a pass: the base key again, then whatever L1's marker says. */
  method Look(r: Request, e: Env)
    requires Fit(r) && r.vary.bits == 0 && (e == QUIET || e == MARKED)
    modifies r`key, r`brkOnly, r`vary, r.z`locked, r.z`t
    ensures Fit(r) && SameFetch(old(r.vary), r.vary)
    ensures r.key == (if e == QUIET then Base(7) else Variant(7, 1, 0)) && (r.vary.l1Miss <==> e == QUIET)
    ensures e == QUIET ==> r.vary.revalidate == old(r.vary.revalidate)
  {
    hide Pool.Balanced, ArmedPinned, Ledger, Raised, Tallied;
    ghost var v := r.vary;
    var out := r.Prologue(e);
    r.z.Lock();
    var ok := r.ResolveKey(e);
    r.z.Unlock();
    LedgerKept(r.armings, v, r.vary, r.l2, r.l2, r.nx, r.nx, VARIED, 7);
  }

  /** The marker GET goes out and comes back. */
  method AskMarker(r: Request, rep: Reply)
    requires Fit(r) && r.WantsMarker() && !r.vary.revalidate && !r.vary.inflight
    modifies r`vary, r`l2, r`ms, r`now, r`act, r.z`t
    ensures Fit(r) && r.now == rep.now && r.act == old(r.act) + 1
    ensures r.vary == old(r.vary).(l1Miss := false, tried := true, done := true)
    ensures r.l2 == old(r.l2).(done := true, result := rep.result, sent := Marker(7),
                               src := FromReply(Marker(7), rep.result, rep.now, r.act),
                               blob := if rep.result.Found? && rep.blob.Some? then rep.blob else old(r.l2.blob))
  {
    hide Pool.Balanced, ArmedPinned, Ledger, Raised, Tallied, Polls;
    ghost var v, l := r.vary, r.l2;
    var out := r.MarkerFetch(QUIET);
    r.TakeReply(rep);
    LedgerKept(r.armings, v, r.vary, l, r.l2, r.nx, r.nx, VARIED, 7);
  }

  /** The object GET goes out and comes back. */
  method AskObject(r: Request, rep: Reply)
    requires Fit(r) && !r.vary.down && !r.l2.done && !r.vary.tried
    modifies r`l2, r`ms, r`now, r`act, r.z`t
    ensures Fit(r) && r.now == rep.now && r.act == old(r.act) + 1
    ensures r.l2 == old(r.l2).(done := true, result := rep.result, sent := r.key,
                               src := FromReply(r.key, rep.result, rep.now, r.act),
                               blob := if rep.result.Found? && rep.blob.Some? then rep.blob else old(r.l2.blob))
  {
    hide Pool.Balanced, ArmedPinned, Ledger, Raised, Tallied, Polls;
    ghost var l := r.l2;
    var out := r.ObjectFetch(QUIET);
    r.TakeReply(rep);
    LedgerKept(r.armings, r.vary, r.vary, l, r.l2, r.nx, r.nx, VARIED, 7);
  }

  /** The resume: whatever of the L2 phase a reply in hand leaves to do. */
  method MarkerBack(r: Request, e: Env)
    requires Fit(r) && (e == QUIET || e == MARKED)
    modifies r`key, r`vary, r`l2, r`armings, r`writes
    ensures Fit(r) && r.l2.missCounted == old(r.l2.missCounted)
    ensures old(r.vary.tried) && old(r.l2.done) ==> r.Settled(old(r.vary), old(r.l2), old(r.key), old(r.armings))
    ensures !(old(r.vary.tried) && old(r.l2.done)) ==>
              r.key == old(r.key) && r.vary == old(r.vary) && r.l2 == old(r.l2) && r.armings == old(r.armings)
  {
    hide Pool.Balanced, ArmedPinned, Ledger, Raised, Tallied;
    var ok := r.MarkerConsume(e);
  }

  /** The miss accounting writes a memo. */
  method Account(r: Request) returns (a: Arming)
    requires Fit(r) && r.l2.done && !r.l2.missCounted && !r.l2.negSkipped && r.l2.result.Missing?
    modifies r`l2, r`armings, r.z`t
    ensures a in r.armings && a == Arming(r.key, old(r.l2.sent), r.now, r.act, r.nx, old(r.l2.src))
    ensures GoodArming(a) && (Honest(a) <==> SentForKey(a)) && r.l2 == old(r.l2).(missCounted := true)
  {
    hide Pool.Balanced, ArmedPinned, Ledger, Raised, Tallied, GoodArming;
    r.MissAccount(QUIET);
    a := r.armings[|r.armings| - 1];
    LedgerSays(r.armings, r.vary, r.l2, r.nx, VARIED, 7);
  }

  // ---- memos that are not about their key ------------------------------------

  /**
   The marker GET is under way when another request stores the marker in L1. On the resume L1 wins, the early
   return leaves the marker's own miss in the context, and the miss accounting writes it down as a miss of the
   variant, which nobody asked L2 for.
   */
  method StrayMemo() returns (r: Request, a: Arming)
    ensures a in r.armings && GoodArming(a) && !Honest(a) && a.key == Variant(7, 1, 0) && a.sent == Marker(7)
  {
    hide Pool.Balanced, ArmedPinned, Ledger, Raised, Tallied, GoodArming, Fit;
    r := Start();
    Look(r, QUIET);
    AskMarker(r, Reply(Missing, None, 1, 101));
    Look(r, MARKED);
    MarkerBack(r, MARKED);
    a := Account(r);
  }

  /**
   A memo says there is no marker, so the GET goes out for the base key; meanwhile a peer stores the marker in
   L1. The resume works with the variant's key and keeps the base key's miss, with no marker reply involved.
   */
  method MovedMemo() returns (r: Request, a: Arming)
    ensures a in r.armings && GoodArming(a) && !Honest(a) && a.key == Variant(7, 1, 0) && a.sent == Base(7)
  {
    hide Pool.Balanced, ArmedPinned, Ledger, Raised, Tallied, GoodArming, Fit;
    r := Start();
    Look(r, QUIET);
    SkipMarker(r);
    AskObject(r, Reply(Missing, None, 1, 101));
    Look(r, MARKED);
    MarkerBack(r, MARKED);
    a := Account(r);
  }

  /** A live memo on the marker key answers for the marker GET. */
  method SkipMarker(r: Request)
    requires Fit(r) && r.WantsMarker() && !r.vary.revalidate
    modifies r`vary, r`l2, r.z`t
    ensures Fit(r) && r.l2 == old(r.l2) && r.vary == old(r.vary).(l1Miss := false, done := true)
  {
    hide Pool.Balanced, ArmedPinned, Ledger, Raised, Tallied;
    ghost var v := r.vary;
    var out := r.MarkerFetch(QUIET.(markerMemo := true));
    LedgerKept(r.armings, v, r.vary, r.l2, r.l2, r.nx, r.nx, VARIED, 7);
  }

  /** The NX lock parks this pass, and is answered `late` seconds after the clock's reading. */
  method AwaitLock(r: Request, late: nat)
    requires Fit(r) && !r.nx.done && r.l2.done
    modifies r`nx, r`ms, r`now, r`act
    ensures Fit(r) && r.nx.done && r.nx.act == r.act == old(r.act) + 1 && r.now == old(r.now) + late
  {
    hide Pool.Balanced, ArmedPinned, Ledger, Raised, Tallied;
    ghost var nx := r.nx;
    r.TakeLock(Reply(Found, None, 1000 * late, r.now + late));
    LedgerKept(r.armings, r.vary, r.vary, r.l2, r.l2, nx, r.nx, VARIED, 7);
  }

  lemma LedgerOf(r: Request)
    requires Fit(r)
    ensures forall a | a in r.armings :: GoodArming(a) && (Honest(a) <==> SentForKey(a))
  {
    LedgerSays(r.armings, r.vary, r.l2, r.nx, VARIED, 7);
  }

  /**
   The marker GET cannot be launched, which leaves its latch up, and a memo answers for the object GET. The cold
   claim then parks for the NX lock, and on the resume the memoed answer is taken for the marker's: a memo begets
   a memo.
   */
  method SkipTakenForMarker() returns (r: Request, a: Arming)
    ensures a in r.armings && GoodArming(a) && a.src.FromMemo? && !Honest(a) && a.key == Marker(7)
  {
    hide Pool.Balanced, ArmedPinned, Ledger, Raised, Tallied, GoodArming, Fit;
    r := Start();
    Look(r, QUIET);
    LoseMarkerAndSkip(r);
    AwaitLock(r, 1);
    Look(r, QUIET);
    MarkerBack(r, QUIET);
    a := r.armings[|r.armings| - 1];
    LedgerOf(r);
  }

  method LoseMarkerAndSkip(r: Request)
    requires Fit(r) && r.WantsMarker() && !r.vary.revalidate && !r.vary.inflight && !r.vary.down
    requires !r.l2.done && !r.l2.negForce
    modifies r`vary, r`l2, r.z`t
    ensures Fit(r) && r.vary == old(r.vary).(l1Miss := false, tried := true, done := true, unsent := true)
    ensures r.l2 == old(r.l2).(done := true, result := Missing, src := FromMemo, negSkipped := true)
  {
    hide Pool.Balanced, ArmedPinned, Ledger, Raised, Tallied;
    ghost var v, l := r.vary, r.l2;
    var e := QUIET.(markerGetStarts := false, memo := true);
    var out := r.MarkerFetch(e);
    out := r.ObjectFetch(e);
    LedgerKept(r.armings, v, r.vary, l, r.l2, r.nx, r.nx, VARIED, 7);
  }

  /**
   The first GET cannot be launched, so nothing is accounted and the loser of the claim waits; the poll asks L2
   past any memo, and its miss is the one written down.
   */
  method PollMemo() returns (r: Request, a: Arming)
    ensures a in r.armings && GoodArming(a) && Honest(a) && !a.key.Marker? && r.l2.negForce && r.wt.polls == 1
  {
    hide Pool.Balanced, ArmedPinned, Ledger, Raised, Tallied, GoodArming, Fit;
    r := Start();
    Look(r, QUIET);
    SkipMarker(r);
    NoGetThenPoll(r);
    Look(r, QUIET);
    AskObject(r, Reply(Missing, None, 1, 102));
    Look(r, QUIET);
    MarkerBack(r, QUIET);
    a := Account(r);
  }

  method NoGetThenPoll(r: Request)
    requires Fit(r) && !r.vary.down && !r.l2.done && !r.wt.on && r.wt.polls == 0
    modifies r`l2, r`wt, r.z`t
    ensures Fit(r) && r.wt.polls == 1 && r.l2 == r.Discarded(old(r.l2))
  {
    hide Pool.Balanced, ArmedPinned, Ledger, Raised, Tallied;
    ghost var l := r.l2;
    var out := r.ObjectFetch(QUIET.(getStarts := false));
    r.StartWait();
    out := r.WaitPoll(QUIET, 1);
    LedgerKept(r.armings, r.vary, r.vary, l, r.l2, r.nx, r.nx, VARIED, 7);
  }

  /**
   A late memo: the reply is in hand when L1 shows a stale entry, whose refresh lottery this request wins and
   parks for the NX lock; by the time that is answered the entry is gone and the memo is written, long after its
   miss.
   */
  method LateMemo() returns (r: Request, a: Arming)
    ensures a in r.armings && GoodArming(a) && Honest(a) && Late(a) && a.at > a.src.at + VARIED.l2NegativeTtl
  {
    hide Pool.Balanced, ArmedPinned, Ledger, Raised, Tallied, GoodArming, Fit;
    r := Start();
    Look(r, QUIET);
    SkipMarker(r);
    AskObject(r, Reply(Missing, None, 1, 101));
    Look(r, QUIET);
    WinDice(r);
    AwaitLock(r, 60);
    Look(r, QUIET);
    MarkerBack(r, QUIET);
    a := Account(r);
  }

  /** A stale, serveable entry is resident, and this request becomes its refresher: parked for the NX lock. */
  method WinDice(r: Request)
    requires Fit(r) && !r.nx.done
    modifies r`given, r.z`locked, r.z`t, r.pool
    ensures Fit(r)
  {
    hide Pool.Balanced, ArmedPinned, Ledger, Raised, Tallied;
    r.z.Lock();
    var out := r.L1DiceWon(QUIET, L1Node(3, 100, 0, 200, false, 0, true, true, 0, 0));
    assert out == Park(NxLock);
  }

  // ---- bodies served under a key they do not answer ---------------------------

  const MARKER_BODY := L2Body(true, true, 1, 0, 90, 60, 600, 0)
  const PAGE_BODY := L2Body(true, false, 0, 0, 90, 60, 600, 0)

  /** The L2 outcome in hand is answered from. */
  method Answer(r: Request) returns (out: Out)
    requires Fit(r) && r.L2Offer().Some? && r.Alive(r.L2Offer().value)
    modifies r`l2, r`brk, r`sie, r`reqReval, r`given, r`writes, r.z`t, r.pool
    ensures out.Exit? && out.site.L2Serve? && r.L2Served()
    ensures r.key == old(r.key) && r.l2.src == old(r.l2.src)
  {
    hide Pool.Balanced, ArmedPinned, Ledger, Raised, Tallied;
    out := r.L2Answer(QUIET);
  }

  /**
   As in StrayMemo, but L2 has the marker: the marker's own two bytes are promoted to L1 under the variant's key
   and served as the page.
   */
  method MarkerServed() returns (r: Request, out: Out)
    ensures out.Exit? && out.site.L2Serve? && r.L2Served() && r.key == Variant(7, 1, 0) && r.l2.src.key == Marker(7)
  {
    hide Pool.Balanced, ArmedPinned, Ledger, Raised, Tallied, Fit;
    r := Start();
    Look(r, QUIET);
    AskMarker(r, Reply(Found, Some(MARKER_BODY), 1, 101));
    Look(r, MARKED);
    MarkerBack(r, MARKED);
    out := Answer(r);
  }

  /** As in MovedMemo, but L2 has the page under its base key: it is promoted and served as the variant. */
  method PageServedAsVariant() returns (r: Request, out: Out)
    ensures out.Exit? && out.site.L2Serve? && r.L2Served() && r.key == Variant(7, 1, 0) && r.l2.src.key == Base(7)
  {
    hide Pool.Balanced, ArmedPinned, Ledger, Raised, Tallied, Fit;
    r := Start();
    Look(r, QUIET);
    SkipMarker(r);
    AskObject(r, Reply(Found, Some(PAGE_BODY), 1, 101));
    Look(r, MARKED);
    MarkerBack(r, MARKED);
    out := Answer(r);
  }
}

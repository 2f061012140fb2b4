/**
 The context of one request in the access phase, what the rest of the world may answer it, and the rules its
 latches keep. Parts of the source's context that belong together are one value each; the comments give the
 source's field names. Fields marked "observed" are history only: no branch reads them.
 */
module AccessState {
  import opened Options
  import opened Pins
  import Lease

  const POLL_MS := 100

  /** Digests are injective, so a cache key is what was digested. */
  datatype Key = Base(uri: nat) | Marker(uri: nat) | Variant(uri: nat, bits: nat, gen: nat)

  datatype Conf = Conf(autoVary: bool, markerRevalidate: int, breaker: bool, backend: bool, l2Lock: bool,
                       l2NegativeTtl: int, lock: bool, minUses: int, lockTimeout: nat, backgroundUpdate: bool)

  /**
   What the client and the location's URI rules fix for the whole request. `eligible`: caching is on, GET or HEAD,
   not a subrequest. `ambiguous`: a body or a method-override header. `credentials`: an Authorization header the
   location does not serve.
   */
  datatype Ask = Ask(uri: nat, eligible: bool, ambiguous: bool, credentials: bool,
                     bypassStale: bool, skip: bool, onlyIfCached: bool, revalidate: bool)

  /** NGX_OK, NGX_DECLINED and NGX_ERROR of an L2 operation. */
  datatype Result = Found | Missing | Down

  /** What a validated L2 body says; `marker` for one with no header block and a two-byte body. */
  datatype L2Body = L2Body(valid: bool, marker: bool, bits: nat, gen: nat,
                           created: int, freshTtl: int, staleTtl: int, sieTtl: int)

  datatype L1Marker = L1Marker(bits: nat, gen: nat, created: int)

  /** A resident node under the mutex; staleUntil already widened by the load factor, 0 for none. */
  datatype L1Node = L1Node(body: nat, len: nat, freshUntil: int, staleUntil: int, refreshing: bool, lockUntil: int,
                           freshOk: bool, staleOk: bool, created: int, sieTtl: int)

  datatype BrkState = Closed | Open | HalfOpen
  datatype Action = Pass | ServeStale | Fail | ProbeOrigin

  /** Everything the peers, the backend, the allocator and the breaker answer in one activation. */
  datatype Env = Env(
    ctxRoom: bool, keyOk: bool, openAtBypass: bool, openAtRevalidate: bool, bypass: bool,
    markersHint: bool, markers: bool, digestOk: bool, applyOk: bool, rederiveOk: bool, openAtVary: bool,
    marker: Option<L1Marker>, node: Option<L1Node>, dice: bool,
    pinRoom: bool, brkRoom: bool, sieRoom: bool, serveRoom: bool, serve: ServeAnswer, lockStarts: bool,
    markerMemo: bool, markerGetStarts: bool, resolveOk: bool, baseOk: bool, memo: bool, getStarts: bool,
    sieCopyRoom: bool, l2FreshOk: bool, l2StaleOk: bool,
    openAtGate: bool, brkState: BrkState, unavailableOk: bool,
    countPasses: bool, claim: Lease.Claim, claimOwner: nat, freshData: Option<nat>, relookup: Option<L1Node>, ownStub: bool,
    timerRoom: bool)

  /** What a park's completion brings. */
  datatype Reply = Reply(result: Result, blob: Option<L2Body>, elapsed: nat, now: int)

  datatype Wait = MarkerGet | ObjectGet | NxLock | Poll(delay: nat)

  /** Where the handler ended. */
  datatype Site =
    | NotEligible | Ambiguous | SetupFailed | Bypassed | Revalidated | RevalidateRefused | KeyFailed
    | FreshServe | StaleServe | RefreshingServe | PinFailed | InlineRegen | L2Serve
    | OnlyIfCachedStale | OnlyIfCached504 | Probe | BreakerStale | Breaker503 | BelowMinUses
    | LockWon | ColdWon | RacedFresh | RacedGone | OwnStub
    | WaitUnserveable | WaitSie | WaitTimeout | WaitFailed | Miss

  /** NGX_DECLINED (on to the origin), a response, NGX_ERROR, 504. */
  datatype Rc = Origin | Response | Failed | GatewayTimeout

  datatype Out = Next | Park(wait: Wait) | Exit(site: Site, rc: Rc)

  /** How much a terminal exit adds to hits + stale_serves + misses. */
  function Weight(site: Site): nat {
    match site
    case OnlyIfCached504 => 0
    case Probe => 0
    case InlineRegen => 0
    case OwnStub => 0
    case NotEligible => 0
    case SetupFailed => 0
    case KeyFailed => 0
    case PinFailed => 0
    case WaitFailed => 0
    case _ => 1
  }

  /** Exits that hand a stored body to serve(). */
  predicate Serves(site: Site) {
    site.FreshServe? || site.StaleServe? || site.RefreshingServe? || site.L2Serve? || site.OnlyIfCachedStale?
    || site.BreakerStale? || site.RacedFresh? || site.WaitSie?
  }

  /** The code each site returns. */
  predicate ExitOk(out: Out) {
    match out
    case Exit(site, rc) =>
      (match site
       case SetupFailed => rc.Failed?
       case KeyFailed => rc.Failed?
       case PinFailed => rc.Failed?
       case WaitFailed => rc.Failed?
       case OnlyIfCached504 => rc.GatewayTimeout?
       case RevalidateRefused => rc.GatewayTimeout?
       case Breaker503 => rc.Response? || rc.Failed?
       case _ => Serves(site) || rc.Origin?)
    case _ => true
  }

  function Raises(out: Out): nat { if out.Exit? then Weight(out.site) else 0 }

  function ServeCalls(out: Out): nat { if out.Exit? && Serves(out.site) then 1 else 0 }

  function ServeRc(a: ServeAnswer): Rc {
    match a case Answered => Response case Refused => Origin case Broken => Failed
  }

  function BreakerAction(s: BrkState, armed: bool): Action {
    match s case Closed => Pass case HalfOpen => ProbeOrigin case Open => if armed then ServeStale else Fail
  }

  /** A stored copy kept for later: pinned in the slab, or already in the request's own pool. */
  datatype Snap = Slab(b: nat) | Copy

  /** Where the L2 outcome in the context came from. */
  datatype Source = Nothing | FromReply(key: Key, result: Result, at: int, act: nat) | FromMemo | FromOutage

  /** lock_{done, result}; observed: act, the activation that began with the answer, and parks. */
  datatype Nx = Nx(done: bool, result: Result, act: nat, parks: nat)

  /** One write of a negative memo: its key, the key of the last GET on the wire, when, and on what evidence. */
  datatype Arming = Arming(key: Key, sent: Key, at: int, act: nat, nx: Nx, src: Source)

  /** What the L2 phase asks of the zone: fill L1 from L2, heal L1's marker, drop L1's marker. */
  datatype Write =
    | Promote(key: Key, body: L2Body, freshTtl: int, staleTtl: int)
    | Heal(uri: nat, bits: nat, gen: nat, freshTtl: int, staleTtl: int)
    | DropMarker(uri: nat)

  /** vary_gen, vary_marker_{l1_miss, revalidate, revalidate_inflight, l2_tried, l2_done, l2_down, l2_bits, l2_gen};
      observed: unsent, a marker GET was tried but could not be launched. */
  datatype Vary = Vary(gen: nat, l1Miss: bool, revalidate: bool, inflight: bool, tried: bool, done: bool, down: bool,
                       bits: nat, l2Gen: nat, unsent: bool)

  /** l2_{done, result, blob, neg_skipped, neg_force, miss_counted, present_unserveable}; observed: src, sent. */
  datatype L2 = L2(done: bool, result: Result, blob: Option<L2Body>, negSkipped: bool, negForce: bool,
                   missCounted: bool, unserveable: bool, src: Source, sent: Key)

  /** brk_{consulted, action, arm_done, armed, snap, cln}; observed: consults, calls of the promoting getter. */
  datatype Brk = Brk(consulted: bool, action: Action, armDone: bool, armed: bool, snap: Snap, cln: Option<nat>,
                     consults: nat)

  /** sie_{armed, snap}; observed: cln, the entry that pins it. */
  datatype Sie = Sie(armed: bool, snap: Snap, cln: Option<nat>)

  /** waiting, wait_deadline, wait_polled, cold_wait_ev.handler; observed: polls. */
  datatype Waiting = Waiting(on: bool, deadline: int, polled: bool, timerSet: bool, polls: nat)

  /** cold_winner, cold_owner, pending_l1_owner, min_uses_passed. */
  datatype Cold = Cold(winner: bool, owner: nat, pending: nat, minUsesPassed: bool)

  /** A context straight from the allocator. */
  const NO_VARY := Vary(0, false, false, false, false, false, false, 0, 0, false)

  function NoL2(uri: nat): L2 {
    L2(false, Found, None, false, false, false, false, Nothing, Base(uri))
  }

  function Max(a: int, b: int): int { if a < b then b else a }

  // ---- rules of the latches ------------------------------------------------

  predicate Holds(clns: seq<Option<nat>>, i: Option<nat>, b: nat) {
    i.Some? && i.value < |clns| && clns[i.value] == Some(b)
  }

  /** An armed fallback is still pinned, by a cleanup of its own. */
  predicate ArmedPinned(brk: Brk, sie: Sie, clns: seq<Option<nat>>) {
    && (brk.armed ==> brk.armDone)
    && (brk.armed && brk.snap.Slab? ==> Holds(clns, brk.cln, brk.snap.b))
    && (brk.cln.Some? ==> brk.armed && brk.snap.Slab?)
    && (sie.armed && sie.snap.Slab? ==> Holds(clns, sie.cln, sie.snap.b))
    && (sie.cln.Some? ==> sie.armed && sie.snap.Slab? && sie.cln != brk.cln)
  }

  lemma ArmedKept(brk: Brk, sie: Sie, clns: seq<Option<nat>>, more: seq<Option<nat>>)
    requires ArmedPinned(brk, sie, clns) && clns <= more
    ensures ArmedPinned(brk, sie, more)
  {
  }

  /** One call of the promoting getter at most, none for only-if-cached, and one l2_misses at most. */
  predicate Counted(ask: Ask, brk: Brk, missCounted: bool, t: Tally) {
    && brk.consults == (if brk.consulted then 1 else 0)
    && (ask.onlyIfCached ==> !brk.consulted)
    && t.l2Misses == (if missCounted then 1 else 0)
    && Tallied(t)
  }

  /** The breaker was asked at most once, parks only follow a pass, and a probe goes straight to the origin. */
  predicate BreakerTrail(out: Out, was: Brk, brk: Brk) {
    && (was.consulted ==> brk.consulted && brk.action == was.action)
    && (out.Park? && brk.consulted ==> brk.action.Pass?)
    && (!was.consulted && brk.consulted && brk.action.ProbeOrigin? ==> out == Exit(Probe, Origin))
    && (out.Exit? && out.site.Probe? ==> !was.consulted && brk.consulted && brk.action.ProbeOrigin?)
  }

  predicate SameConsult(b: Brk, c: Brk) {
    c.consulted == b.consulted && c.action == b.action && c.consults == b.consults
  }

  lemma CountedKept(ask: Ask, b: Brk, c: Brk, missCounted: bool, t: Tally, u: Tally, n: nat)
    requires Counted(ask, b, missCounted, t) && Added(t, u, n) && SameConsult(b, c)
    ensures Counted(ask, c, missCounted, u)
  {
  }

  lemma TrailSame(out: Out, was: Brk, brk: Brk)
    requires SameConsult(was, brk) && (was.consulted ==> was.action.Pass?) && (out.Exit? ==> !out.site.Probe?)
    ensures BreakerTrail(out, was, brk)
  {
  }

  lemma TrailThrough(out: Out, was: Brk, mid: Brk, brk: Brk)
    requires SameConsult(was, mid) && BreakerTrail(out, mid, brk)
    ensures BreakerTrail(out, was, brk)
  {
  }

  /** The L2 outcome is explained by its source. */
  predicate Explained(l2: L2) {
    && (l2.done <==> !l2.src.Nothing?)
    && (l2.src.FromReply? ==> l2.src.result == l2.result && l2.src.key == l2.sent)
    && (l2.src.FromMemo? ==> l2.result.Missing? && l2.negSkipped)
    && (l2.src.FromOutage? ==> l2.result.Down?)
  }

  /** The marker GET is latched before it is sent, and its reply is told apart while it is waited for. */
  predicate Latched(v: Vary, l2: L2, key: Key, uri: nat) {
    && (v.tried ==> v.done)
    && (v.unsent ==> v.tried)
    && (v.tried && !v.unsent ==> l2.done && l2.src.FromReply? && l2.sent == Marker(uri))
    && (l2.sent.Marker? ==> l2.sent == Marker(uri) && v.done && !v.unsent)
    && !key.Marker?
  }

  /** What L1 leaves alone. */
  predicate SameFetch(v: Vary, w: Vary) {
    w.inflight == v.inflight && w.tried == v.tried && w.done == v.done && w.down == v.down && w.bits == v.bits
    && w.l2Gen == v.l2Gen && w.unsent == v.unsent
  }

  /** A reply is older than this activation exactly when the NX lock was answered after it. */
  predicate Dated(src: Source, act: nat, now: int, nx: Nx) {
    src.FromReply? ==>
      src.act <= act && (src.act == act ==> src.at == now) && (src.act < act <==> nx.done && src.act < nx.act)
  }

  /** A context straight from the allocator has nothing to explain. */
  lemma NothingTold(uri: nat, act: nat, now: int, nx: Nx)
    ensures Explained(NoL2(uri)) && Latched(NO_VARY, NoL2(uri), Base(uri), uri) && Dated(NoL2(uri).src, act, now, nx)
  {
  }

  /** What every memo write can claim for itself. */
  predicate GoodArming(a: Arming) {
    && (!a.key.Marker? ==> a.src.FromReply?)
    && (a.src.FromReply? || (a.src.FromMemo? && a.sent != a.key))
    && (a.src.FromReply? ==>
          && a.src.key == a.sent && a.src.result.Missing? && a.src.act <= a.act
          && (a.src.act == a.act ==> a.src.at == a.at) && (a.src.act < a.act <==> Late(a)))
  }

  /** What a definitive miss that no memo answered is evidence of. */
  lemma MissEvidence(l2: L2, key: Key, now: int, act: nat, nx: Nx)
    requires Explained(l2) && Dated(l2.src, act, now, nx) && l2.done && l2.result.Missing? && !l2.negSkipped
    ensures GoodArming(Arming(key, l2.sent, now, act, nx, l2.src))
  {
  }

  /** The NX lock was answered between the reply and the memo. */
  predicate Late(a: Arming) {
    a.src.FromReply? && a.nx.done && a.src.act < a.nx.act
  }

  predicate Armings(s: seq<Arming>) {
    forall a | a in s :: GoodArming(a)
  }

  /** The memo's key is the key of a GET that was really answered with a miss. */
  predicate Honest(a: Arming) {
    a.src.FromReply? && a.src.key == a.key && a.src.result.Missing?
  }

  /** What a caller can check before writing a memo: the key at hand is the key last put on the wire. */
  predicate SentForKey(a: Arming) { a.sent == a.key }

  /**
   All the memos a request wrote: on good evidence; at most one on the marker and one on an object, each when
   its latch went up; without an NX lock none after one, and without auto-Vary all under the one key there is.
   */
  predicate Ledger(s: seq<Arming>, v: Vary, l2: L2, nx: Nx, conf: Conf, uri: nat) {
    && Armings(s) && |s| <= 2
    && (forall a | a in s :: if a.key.Marker? then v.done && !v.tried else l2.missCounted)
    && (|s| == 2 ==> s[0].key.Marker? != s[1].key.Marker?)
    && (!conf.l2Lock ==> !nx.done && forall a | a in s :: !a.nx.done)
    && (!conf.autoVary ==> !v.tried && v.bits == 0 && l2.sent == Base(uri) && forall a | a in s :: SentForKey(a))
  }

  lemma LedgerEmpty(conf: Conf, uri: nat, nx: Nx)
    requires !nx.done
    ensures Ledger([], NO_VARY, NoL2(uri), nx, conf, uri)
  {
  }

  /** Some request of this location and URI wrote this memo. */
  ghost predicate ByRequest(a: Arming, conf: Conf, uri: nat) {
    exists s, v, l2, nx :: Ledger(s, v, l2, nx, conf, uri) && a in s
  }

  /** What that says of the memo: honest exactly under the key last sent, and late only past an NX lock. */
  lemma MemoSays(a: Arming, conf: Conf, uri: nat)
    requires ByRequest(a, conf, uri)
    ensures GoodArming(a) && (Honest(a) <==> SentForKey(a)) && (!conf.autoVary ==> Honest(a))
    ensures (!conf.l2Lock ==> !Late(a)) && (a.src.FromReply? && !Late(a) ==> a.src.at == a.at)
  {
  }

  lemma LedgerSays(s: seq<Arming>, v: Vary, l2: L2, nx: Nx, conf: Conf, uri: nat)
    requires Ledger(s, v, l2, nx, conf, uri)
    ensures |s| <= 2 && (|s| == 2 ==> s[0].key.Marker? != s[1].key.Marker?)
    ensures forall a | a in s :: ByRequest(a, conf, uri) && GoodArming(a) && (Honest(a) <==> SentForKey(a))
    ensures !conf.autoVary ==> forall a | a in s :: Honest(a)
    ensures !conf.l2Lock ==> forall a | a in s && a.src.FromReply? :: a.src.at == a.at
  {
    forall a | a in s ensures ByRequest(a, conf, uri) {
      MemoSays(a, conf, uri);
    }
  }

  /** A step that writes no memo, lowers no latch and sends nothing else. */
  lemma LedgerKept(s: seq<Arming>, v: Vary, w: Vary, l: L2, m: L2, nx: Nx, ny: Nx, conf: Conf, uri: nat)
    requires Ledger(s, v, l, nx, conf, uri) && (l.missCounted ==> m.missCounted)
    requires (v.done && !v.tried ==> w.done && !w.tried) && (!conf.l2Lock ==> ny == nx)
    requires !conf.autoVary ==> w.tried == v.tried && w.bits == v.bits && (m.sent == l.sent || m.sent == Base(uri))
    ensures Ledger(s, w, m, ny, conf, uri)
  {
  }

  /** One more memo, on a key whose latch was down before and is up now. */
  lemma LedgerMore(s: seq<Arming>, a: Arming, v: Vary, l: L2, w: Vary, m: L2, nx: Nx, conf: Conf, uri: nat)
    requires Ledger(s, v, l, nx, conf, uri) && GoodArming(a) && a.nx == nx
    requires if a.key.Marker? then v.tried && w.done && !w.tried && m.missCounted == l.missCounted
             else !l.missCounted && m.missCounted && w.done == v.done && w.tried == v.tried
    requires !conf.autoVary ==> a.sent == a.key && !w.tried && w.bits == 0 && m.sent == Base(uri)
    ensures Ledger(s + [a], w, m, nx, conf, uri)
  {
  }

  /** How many object GETs the latches still leave room for before the next poll. */
  function Pending(v: Vary, l2: L2): nat {
    (if v.tried || !v.done then 1 else 0) + (if l2.done then 0 else 1)
  }

  /** What a parked GET leaves behind, seen from the state before the L2 phase. */
  predicate GetParked(w: Wait, v: Vary, l2: L2, key: Key, uri: nat, wasDone: bool, wasPending: nat) {
    && (wasDone ==> v.done) && (v.tried ==> v.done) && (v.unsent ==> v.tried) && !key.Marker?
    && match w
       case MarkerGet => !wasDone && v.tried && !v.unsent && l2.sent == Marker(uri)
       case ObjectGet => !l2.done && !l2.sent.Marker? && v.tried == v.unsent && Pending(v, l2) <= wasPending
       case _ => false
  }

  /** Whether an expired body was seen, or the miss was counted, is no part of the outcome. */
  lemma Unchanged(v: Vary, l: L2, m: L2, key: Key, uri: nat)
    requires m == l.(unserveable := m.unserveable, missCounted := m.missCounted)
    ensures Explained(l) ==> Explained(m)
    ensures Latched(v, l, key, uri) ==> Latched(v, m, key, uri)
    ensures Pending(v, m) == Pending(v, l)
  {
  }

  // ---- waiting -------------------------------------------------------------

  function Polls(ms: int): nat {
    if ms <= 0 then 0 else (ms + POLL_MS - 1) / POLL_MS
  }

  function PollsLeft(wt: Waiting, ms: int, timeout: nat): nat {
    if wt.on then Polls(wt.deadline - ms) else Polls(timeout) + 1
  }

  /** Polls made and polls left stay within the timeout's worth. */
  predicate WithinTimeout(wt: Waiting, ms: int, timeout: nat) {
    if wt.on then wt.polls + Polls(wt.deadline - ms) <= Polls(timeout) else wt.polls == 0
  }

  /** A cold-wait park: at least 1 ms, at most to the deadline, which is set only on the first wait. */
  predicate Polled(w: Wait, was: Waiting, wt: Waiting, ms: int, timeout: nat) {
    && w.Poll? && wt.on && wt.polls == was.polls + 1
    && wt.deadline == (if was.on then was.deadline else ms + timeout)
    && wt.deadline > ms
    && w.delay == (if wt.deadline - ms < POLL_MS then wt.deadline - ms else POLL_MS)
  }

  lemma PollShrinks(left: int, passed: int)
    requires left > 0 && passed >= if left < POLL_MS then left else POLL_MS
    ensures Polls(left - passed) < Polls(left)
  {
  }

  lemma PollsMonotone(a: int, b: int)
    requires a <= b
    ensures Polls(a) <= Polls(b)
  {
  }
}

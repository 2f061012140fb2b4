/**
 Who speaks for a held stub, over any number of requests. A request may go through several contexts (an
 internal redirect starts a new one); a pool cleanup belongs to the request and points at the context it
 speaks for. Key stands for a zone together with a digest.
 */
module Adoption {
  import opened Options
  import opened Lease

  /** One access context. `cln` only observes: which cleanup was registered for this context. */
  datatype Ctx = Ctx(req: nat, key: Key, winner: bool, stored: bool, owner: nat, pending: nat, cln: Option<nat>)

  /** One entry of a request's cleanup list that carries the cold-miss handler. */
  datatype Cleanup = Cleanup(req: nat, data: nat, live: bool)

  /**
   The zone, every context and cleanup of every request, and the history that judges them: issued[t-1] is the
   request and key token t went to, taker[k] the request that last took the single flight on k, and diced the
   keys where that was a refresh dice win, which stamps no token.
   */
  datatype World = World(nodes: Nodes, ctxs: seq<Ctx>, clns: seq<Cleanup>,
                         issued: seq<(nat, Key)>, taker: map<Key, nat>, diced: set<Key>)

  datatype Op =
    | NewCtx(req: nat, key: Key)
    | Rekey(c: nat, key: Key)
    | ClaimBy(c: nat, now: int, ttl: int, room: bool)
    | DiceBy(req: nat, key: Key, now: int, ttl: int)
    | Mark(c: nat, registered: bool)
    | Adopt(i: nat, c: nat)
    | StoredBy(c: nat)
    | Resolve(c: nat, now: int)
    | Teardown(i: nat, now: int)
    | Evict(key: Key)
    | StoreAt(key: Key, len: nat, now: int, freshTtl: int, staleTtl: int, kind: Kind)
    | FreshenAt(key: Key, now: int, freshTtl: int, staleTtl: int)
    | CountMissAt(key: Key, window: int, now: int, room: bool)
    | NegSetAt(key: Key, now: int, ttl: int, room: bool)

  const EMPTY := World(map[], [], [], [], map[], {})

  // ---- steps ---------------------------------------------------------------

  /** A context that may still have to give a stub back, and the cleanup that would. */
  predicate Unresolved(x: Ctx) { x.winner && !x.stored }

  predicate Candidate(ctxs: seq<Ctx>, clns: seq<Cleanup>, i: nat, c: nat) {
    && i < |clns| && c < |ctxs| && clns[i].live && clns[i].req == ctxs[c].req
    && clns[i].data != c && clns[i].data < |ctxs|
    && Unresolved(ctxs[clns[i].data]) && ctxs[clns[i].data].key == ctxs[c].key
  }

  predicate Enabled(w: World, op: Op) {
    match op
    case NewCtx(_, _) => true
    case Rekey(c, _) => c < |w.ctxs|
    case ClaimBy(c, _, _, _) => c < |w.ctxs| && !w.ctxs[c].winner
    case DiceBy(_, k, now, _) =>
      k in w.nodes && w.nodes[k].len > 0 && !InFlight(Lookup(w.nodes, k), now)
    case Mark(c, _) => c < |w.ctxs| && !w.ctxs[c].winner
    case Adopt(i, c) => Candidate(w.ctxs, w.clns, i, c) && !w.ctxs[c].winner
    case StoredBy(c) => c < |w.ctxs| && w.ctxs[c].winner
    case Resolve(c, _) => c < |w.ctxs| && Unresolved(w.ctxs[c])
    case Teardown(i, _) => i < |w.clns| && w.clns[i].live && w.clns[i].data < |w.ctxs|
    case Evict(_) => true
    case StoreAt(_, _, _, _, _, kind) => !kind.Counter?
    case FreshenAt(_, _, _, _) => true
    case CountMissAt(_, _, _, _) => true
    case NegSetAt(_, _, _, _) => true
  }

  /** cold_cleanup and the filters' early release. */
  function Release(w: World, x: Ctx, now: int): World {
    if Unresolved(x) then w.(nodes := Put(w.nodes, x.key, Unstubbed(Lookup(w.nodes, x.key), x.owner, now))) else w
  }

  /** The context a releasing step acts for. */
  function Actor(w: World, op: Op): Ctx
    requires Enabled(w, op) && (op.Teardown? || op.Resolve?)
  {
    if op.Resolve? then w.ctxs[op.c] else w.ctxs[w.clns[op.i].data]
  }

  /** cold_adopt_own_stub, from the moment it settled on entry i: retarget that entry, hand over the token. */
  function Adopted(ctxs: seq<Ctx>, clns: seq<Cleanup>, i: nat, c: nat): (seq<Ctx>, seq<Cleanup>)
    requires i < |clns| && clns[i].data < |ctxs| && c < |ctxs|
  {
    var p := clns[i].data;
    var prev := ctxs[p];
    (ctxs[p := prev.(stored := true, cln := None)]
         [c := ctxs[c].(winner := true, owner := prev.owner, cln := prev.cln)],
     clns[i := clns[i].(data := c)])
  }

  /** cold_mark_winner on a context that is not a winner yet. */
  function Marked(ctxs: seq<Ctx>, clns: seq<Cleanup>, c: nat, registered: bool): (seq<Ctx>, seq<Cleanup>)
    requires c < |ctxs|
  {
    var x := ctxs[c];
    (ctxs[c := x.(winner := true, owner := x.pending, cln := if registered then Some(|clns|) else None)],
     if registered then clns + [Cleanup(x.req, c, true)] else clns)
  }

  function At(w: World, k: Key, n: Slot): World {
    w.(nodes := Put(w.nodes, k, n))
  }

  function Step(w: World, op: Op): World
    requires Enabled(w, op)
  {
    match op
    case NewCtx(req, key) => w.(ctxs := w.ctxs + [Ctx(req, key, false, false, 0, 0, None)])
    case Rekey(c, key) => w.(ctxs := w.ctxs[c := w.ctxs[c].(key := key)])
    case ClaimBy(c, now, ttl, room) =>
      var x := w.ctxs[c];
      var n := Lookup(w.nodes, x.key);
      if Issues(n, now, room) then
        var t := |w.issued| + 1;
        w.(nodes := Put(w.nodes, x.key, Claimed(n, now, ttl, t, room)), ctxs := w.ctxs[c := x.(pending := t)],
           issued := w.issued + [(x.req, x.key)], taker := w.taker[x.key := x.req], diced := w.diced - {x.key})
      else w.(ctxs := w.ctxs[c := x.(pending := 0)])
    case DiceBy(req, k, now, ttl) =>
      w.(nodes := w.nodes[k := w.nodes[k].(refreshing := true, lockUntil := now + ttl)],
         taker := w.taker[k := req], diced := w.diced + {k})
    case Mark(c, registered) =>
      var (ctxs, clns) := Marked(w.ctxs, w.clns, c, registered);
      w.(ctxs := ctxs, clns := clns)
    case Adopt(i, c) => var (ctxs, clns) := Adopted(w.ctxs, w.clns, i, c); w.(ctxs := ctxs, clns := clns)
    case StoredBy(c) => w.(ctxs := w.ctxs[c := w.ctxs[c].(stored := true)])
    case Resolve(c, now) => Release(w, w.ctxs[c], now).(ctxs := w.ctxs[c := w.ctxs[c].(stored := true)])
    case Teardown(i, now) =>
      Release(w, w.ctxs[w.clns[i].data], now).(clns := w.clns[i := w.clns[i].(live := false)])
    case Evict(k) => w.(nodes := w.nodes - {k})
    case StoreAt(k, len, now, freshTtl, staleTtl, kind) =>
      At(w, k, Some(Stored(Lookup(w.nodes, k), len, now, freshTtl, staleTtl).value.(kind := kind)))
    case FreshenAt(k, now, freshTtl, staleTtl) => At(w, k, Freshened(Lookup(w.nodes, k), now, freshTtl, staleTtl))
    case CountMissAt(k, window, now, room) => At(w, k, Missed(Lookup(w.nodes, k), window, now, room))
    case NegSetAt(k, now, ttl, room) => At(w, k, NegSet(Lookup(w.nodes, k), now, ttl, room))
  }

  // ---- the request side, in place -------------------------------------------

  /** Entry i may be adopted: it nominates an unresolved context, and the zone confirms that one's token. */
  predicate Settles(ctxs: seq<Ctx>, clns: seq<Cleanup>, i: nat, c: nat, zone: Nodes) {
    Candidate(ctxs, clns, i, c) && Owned(Lookup(zone, ctxs[c].key), ctxs[clns[i].data].owner)
  }

  class Requests {
    var ctxs: seq<Ctx>
    var clns: seq<Cleanup>

    method ColdMarkWinner(c: nat, room: bool)
      requires c < |ctxs|
      modifies this
      ensures old(ctxs)[c].winner ==> ctxs == old(ctxs) && clns == old(clns)
      ensures !old(ctxs)[c].winner ==> ctxs == Marked(old(ctxs), old(clns), c, room).0
                                       && clns == Marked(old(ctxs), old(clns), c, room).1
    {
      var ctx := ctxs[c];
      if ctx.winner {
        return;
      }
      ctxs := ctxs[c := ctx.(winner := true, owner := ctx.pending, cln := None)];
      if !room {
        return;
      }
      ctxs := ctxs[c := ctxs[c].(cln := Some(|clns|))];
      clns := clns + [Cleanup(ctx.req, c, true)];
    }

    /**
     Scan the list, latest registration first. zone(i) is the zone as the ownership check of entry i finds it:
     peers move between the checks.
     */
    method ColdAdoptOwnStub(c: nat, zone: nat -> Nodes) returns (adopted: Option<nat>)
      requires c < |ctxs| && !ctxs[c].winner
      modifies this
      ensures match adopted
              case None => ctxs == old(ctxs) && clns == old(clns)
                           && forall i | 0 <= i < |clns| :: !Settles(ctxs, clns, i, c, zone(i))
              case Some(i) => Settles(old(ctxs), old(clns), i, c, zone(i))
                              && ctxs == Adopted(old(ctxs), old(clns), i, c).0
                              && clns == Adopted(old(ctxs), old(clns), i, c).1
                              && forall j | i < j < |old(clns)| :: !Settles(old(ctxs), old(clns), j, c, zone(j))
    {
      var i := |clns|;
      while i > 0
        invariant 0 <= i <= |clns| && ctxs == old(ctxs) && clns == old(clns)
        invariant forall j | i <= j < |clns| :: !Settles(ctxs, clns, j, c, zone(j))
      {
        i := i - 1;
        var p := clns[i].data;
        if !clns[i].live || clns[i].req != ctxs[c].req || p == c || p >= |ctxs| {
          continue;
        }
        var prev := ctxs[p];
        if prev.winner && !prev.stored && prev.key == ctxs[c].key {
          if !Owned(Lookup(zone(i), ctxs[c].key), prev.owner) {
            continue;
          }
          ctxs := ctxs[c := ctxs[c].(winner := true, owner := prev.owner, cln := prev.cln)];
          ctxs := ctxs[p := ctxs[p].(stored := true, cln := None)];
          clns := clns[i := clns[i].(data := c)];
          return Some(i);
        }
      }
      adopted := None;
    }
  }

  // ---- the invariant -------------------------------------------------------

  /** Token t was issued to request r. */
  predicate IssuedTo(w: World, t: nat, r: nat) {
    0 < t <= |w.issued| && w.issued[t - 1].0 == r
  }

  predicate NodeOk(w: World, k: Key)
    requires k in w.nodes
  {
    var n := w.nodes[k];
    && (n.owner > 0 ==> n.owner <= |w.issued| && w.issued[n.owner - 1].1 == k && n.refreshing)
    && (n.refreshing && k !in w.diced ==> n.owner > 0 && k in w.taker && IssuedTo(w, n.owner, w.taker[k]))
  }

  /** The token a context may still act on. */
  function Token(x: Ctx): nat {
    if !x.winner then x.pending else if x.stored then 0 else x.owner
  }

  predicate CtxOk(w: World, c: nat)
    requires c < |w.ctxs|
  {
    var x := w.ctxs[c];
    && (x.stored ==> x.winner)
    && (x.owner > 0 ==> IssuedTo(w, x.owner, x.req))
    && (x.pending > 0 ==> IssuedTo(w, x.pending, x.req))
    && (x.cln.Some? ==> x.winner && x.cln.value < |w.clns| && w.clns[x.cln.value].data == c
                        && w.clns[x.cln.value].req == x.req)
  }

  predicate CleanupOk(w: World, i: nat)
    requires i < |w.clns|
  {
    w.clns[i].data < |w.ctxs| && w.ctxs[w.clns[i].data].cln == Some(i)
  }

  predicate Distinct(w: World) {
    forall c, d | 0 <= c < d < |w.ctxs| :: Token(w.ctxs[c]) == 0 || Token(w.ctxs[c]) != Token(w.ctxs[d])
  }

  predicate Inv(w: World) {
    && (forall k | k in w.nodes :: NodeOk(w, k))
    && (forall c | 0 <= c < |w.ctxs| :: CtxOk(w, c))
    && (forall i | 0 <= i < |w.clns| :: CleanupOk(w, i))
    && Distinct(w)
  }

  /** The node's lease is as it was, or gone. */
  predicate SameOrNone(n: Slot, m: Slot) {
    m.Some? ==> (n.Some? && m.value.refreshing == n.value.refreshing && m.value.owner == n.value.owner)
                || (!m.value.refreshing && m.value.owner == 0)
  }

  /** Only a claim and a dice win put a lease on a node. */
  lemma OthersOnlyEndLeases(w: World, op: Op, k: Key)
    requires Enabled(w, op) && !op.ClaimBy? && !op.DiceBy?
    ensures var w' := Step(w, op);
            w'.issued == w.issued && w'.taker == w.taker && w'.diced == w.diced
            && SameOrNone(Lookup(w.nodes, k), Lookup(w'.nodes, k))
  {
    hide Candidate, Bumped, Claimed, Marked, Adopted;
  }

  lemma OthersKeepNode(w: World, op: Op, k: Key)
    requires Enabled(w, op) && !op.ClaimBy? && !op.DiceBy? && (k in w.nodes ==> NodeOk(w, k)) && k in Step(w, op).nodes
    ensures NodeOk(Step(w, op), k)
  {
    hide Step, Enabled;
    OthersOnlyEndLeases(w, op, k);
  }

  lemma TakersKeepNode(w: World, op: Op, k: Key)
    requires Enabled(w, op) && (op.ClaimBy? || op.DiceBy?) && (k in w.nodes ==> NodeOk(w, k)) && k in Step(w, op).nodes
    ensures NodeOk(Step(w, op), k)
  {
    hide Candidate;
  }

  lemma StepNodes(w: World, op: Op)
    requires Inv(w) && Enabled(w, op)
    ensures var w' := Step(w, op); forall k | k in w'.nodes :: NodeOk(w', k)
  {
    hide Distinct, CtxOk, CleanupOk, NodeOk, Enabled, Step;
    forall k | k in Step(w, op).nodes ensures NodeOk(Step(w, op), k) {
      if op.ClaimBy? || op.DiceBy? {
        TakersKeepNode(w, op, k);
      } else {
        OthersKeepNode(w, op, k);
      }
    }
  }

  lemma AdoptCtxs(w: World, i: nat, c: nat)
    requires Inv(w) && Enabled(w, Adopt(i, c))
    ensures var w' := Step(w, Adopt(i, c)); forall d | 0 <= d < |w'.ctxs| :: CtxOk(w', d)
  {
    hide Distinct, NodeOk, Token;
    var w' := Step(w, Adopt(i, c));
    forall d | 0 <= d < |w'.ctxs| ensures CtxOk(w', d) {
      assert CtxOk(w, d);
      assert CleanupOk(w, i);
      assert CtxOk(w, w.clns[i].data);
    }
  }

  lemma StepCtxs(w: World, op: Op)
    requires Inv(w) && Enabled(w, op)
    ensures var w' := Step(w, op); forall c | 0 <= c < |w'.ctxs| :: CtxOk(w', c)
  {
    hide Distinct, NodeOk, Token, Claimed, Unstubbed, Put, Issues, Adopted, Candidate;
    if op.Adopt? {
      AdoptCtxs(w, op.i, op.c);
    } else {
      var w' := Step(w, op);
      forall c | 0 <= c < |w'.ctxs| ensures CtxOk(w', c) {
        assert c < |w.ctxs| ==> CtxOk(w, c);
      }
    }
  }

  lemma StepCleanups(w: World, op: Op)
    requires Inv(w) && Enabled(w, op)
    ensures var w' := Step(w, op); forall i | 0 <= i < |w'.clns| :: CleanupOk(w', i)
  {
    hide Distinct, NodeOk, Token, Claimed, Unstubbed;
    var w' := Step(w, op);
    forall i | 0 <= i < |w'.clns| ensures CleanupOk(w', i) {
      assert i < |w.clns| ==> CleanupOk(w, i);
      if op.Adopt? {
        assert CleanupOk(w, op.i);
      }
      if op.Mark? || op.Adopt? {
        assert CtxOk(w, op.c);
      }
    }
  }

  lemma StepDistinct(w: World, op: Op)
    requires Inv(w) && Enabled(w, op)
    ensures Distinct(Step(w, op))
  {
    hide NodeOk, CleanupOk, Claimed, Unstubbed;
    forall c: nat | c < |w.ctxs| ensures Token(w.ctxs[c]) <= |w.issued| {
      assert CtxOk(w, c);
    }
    hide CtxOk;
  }

  lemma StepInv(w: World, op: Op)
    requires Inv(w) && Enabled(w, op)
    ensures Inv(Step(w, op))
  {
    hide Step, NodeOk, CtxOk, CleanupOk, Distinct, Enabled;
    StepNodes(w, op);
    StepCtxs(w, op);
    StepCleanups(w, op);
    StepDistinct(w, op);
  }

  function Run(w: World, ops: seq<Op>): Option<World>
    decreases |ops|
  {
    if ops == [] then Some(w)
    else if !Enabled(w, ops[0]) then None
    else Run(Step(w, ops[0]), ops[1..])
  }

  lemma {:induction false} RunInv(w: World, ops: seq<Op>)
    requires Inv(w) && Run(w, ops).Some?
    ensures Inv(Run(w, ops).value)
    decreases |ops|
  {
    if ops == [] {
    } else {
      hide Inv, Step, Enabled;
      StepInv(w, ops[0]);
      RunInv(Step(w, ops[0]), ops[1..]);
    }
  }

  lemma EmptyInv()
    ensures Inv(EMPTY)
  {
  }

  /** A run and one step more. */
  lemma {:induction false} RunMore(w: World, ops: seq<Op>, op: Op)
    requires Run(w, ops).Some? && Enabled(Run(w, ops).value, op)
    ensures Run(w, ops + [op]) == Some(Step(Run(w, ops).value, op))
    decreases |ops|
  {
    hide Step, Enabled;
    if ops == [] {
      assert ops + [op] == [op] && [op][1..] == [];
      assert Run(w, [op]) == Run(Step(w, op), []);
    } else {
      assert (ops + [op])[1..] == ops[1..] + [op];
      RunMore(Step(w, ops[0]), ops[1..], op);
    }
  }

  // ---- teardown ------------------------------------------------------------

  /** The step ends the single flight on k without storing, freshening or evicting there. */
  predicate Clears(w: World, op: Op, k: Key)
    requires Enabled(w, op)
  {
    && (op.Teardown? || op.Resolve?)
    && k in w.nodes && w.nodes[k].refreshing
    && !(k in Step(w, op).nodes && Step(w, op).nodes[k].refreshing)
  }

  /**
   A release ends only a lease whose token was issued to that very request. It hits a single flight some other
   request is running exactly when that one won the refresh dice over this lease after its deadline.
   */
  lemma ReleasesOwnLease(w: World, op: Op, k: Key)
    requires Inv(w) && Enabled(w, op) && (op.Teardown? || op.Resolve?) && Clears(w, op, k)
    ensures IssuedTo(w, w.nodes[k].owner, Actor(w, op).req) && w.nodes[k].owner == Actor(w, op).owner
    ensures k !in w.diced ==> k in w.taker && w.taker[k] == Actor(w, op).req
  {
    assert NodeOk(w, k);
    assert CtxOk(w, if op.Resolve? then op.c else w.clns[op.i].data);
    hide Distinct, CleanupOk;
  }

  /** Only a dice win over an expired, still stamped lease leaves a node where a release can hit another request. */
  lemma DiceOverToken(w: World, op: Op, k: Key)
    requires Inv(w) && Enabled(w, op) && k in w.nodes && k in Step(w, op).nodes
    requires !(k in w.diced && w.nodes[k].owner > 0) && (k in Step(w, op).diced && Step(w, op).nodes[k].owner > 0)
    ensures op.DiceBy? && op.key == k && w.nodes[k].refreshing && w.nodes[k].lockUntil <= op.now
  {
    assert NodeOk(w, k);
    hide Distinct, CleanupOk, CtxOk;
  }

  /**
   A dice win on k, then the release of a context of another request: it ends the dice winner's single flight
   exactly when the node still carried that context's token when the dice was thrown.
   */
  lemma DiceThenReleaseExactly(w: World, dice: Op, c: nat, now: int)
    requires Inv(w) && dice.DiceBy? && Enabled(w, dice) && Enabled(w, Resolve(c, now)) && w.ctxs[c].req != dice.req
    ensures var w', k := Step(w, dice), dice.key;
            && k in w'.taker && w'.taker[k] == dice.req
            && (Clears(w', Resolve(c, now), k)
                <==> w.ctxs[c].key == k && w.ctxs[c].owner != 0 && w.nodes[k].owner == w.ctxs[c].owner
                     && !w.nodes[k].kind.Marker?)
  {
    hide Inv;
  }

  /** No node that was last taken by a dice win carries a token. */
  predicate Unstamped(w: World) {
    forall k | k in w.nodes && k in w.diced :: w.nodes[k].owner == 0
  }

  /** Every dice of the run is thrown over a node without a token. */
  predicate DiceUnstamped(w: World, ops: seq<Op>)
    requires Run(w, ops).Some?
    decreases |ops|
  {
    ops != [] ==> (ops[0].DiceBy? ==> w.nodes[ops[0].key].owner == 0) && DiceUnstamped(Step(w, ops[0]), ops[1..])
  }

  lemma StaysUnstamped(w: World, op: Op)
    requires Unstamped(w) && Enabled(w, op) && (op.DiceBy? ==> w.nodes[op.key].owner == 0)
    ensures Unstamped(Step(w, op))
  {
    hide Candidate;
  }

  lemma {:induction false} RunUnstamped(w: World, ops: seq<Op>)
    requires Unstamped(w) && Run(w, ops).Some? && DiceUnstamped(w, ops)
    ensures Unstamped(Run(w, ops).value)
    decreases |ops|
  {
    if ops == [] {
    } else {
      hide Step, Enabled, Unstamped;
      StaysUnstamped(w, ops[0]);
      RunUnstamped(Step(w, ops[0]), ops[1..]);
    }
  }

  /** In a run whose dice were all thrown over unstamped nodes no release ends another request's single flight. */
  lemma NoReleaseHitsAnother(ops: seq<Op>, op: Op, k: Key)
    requires Run(EMPTY, ops).Some? && DiceUnstamped(EMPTY, ops)
    requires var w := Run(EMPTY, ops).value; Enabled(w, op) && (op.Teardown? || op.Resolve?) && Clears(w, op, k)
    ensures var w := Run(EMPTY, ops).value; k in w.taker && w.taker[k] == Actor(w, op).req
  {
    var w := Run(EMPTY, ops).value;
    EmptyInv();
    RunInv(EMPTY, ops);
    RunUnstamped(EMPTY, ops);
    ReleasesOwnLease(w, op, k);
    hide Inv, Run, Step, DiceUnstamped;
  }

  /** A release leaves its token on no node, unless the context's key has moved or the node became a marker. */
  lemma ReleaseLeavesToken(w: World, op: Op, k: Key)
    requires Inv(w) && Enabled(w, op) && (op.Teardown? || op.Resolve?)
    requires Unresolved(Actor(w, op)) && Owned(Lookup(w.nodes, k), Actor(w, op).owner)
    ensures Owned(Lookup(Step(w, op).nodes, k), Actor(w, op).owner)
            <==> Actor(w, op).key != k || w.nodes[k].kind.Marker?
  {
    hide Distinct, CleanupOk, CtxOk, NodeOk;
  }

  /** The step may legitimately end the lease with token t on k: its holder's release, a store, a 304, an eviction. */
  predicate EndsLease(w: World, op: Op, k: Key, t: nat)
    requires Enabled(w, op)
  {
    match op
    case Resolve(_, _) => Actor(w, op).owner == t
    case Teardown(_, _) => Actor(w, op).owner == t
    case Evict(key) => key == k
    case StoreAt(key, _, _, _, _, _) => key == k
    case FreshenAt(key, _, _, _) => key == k
    case _ => false
  }

  /** Claims and dice see a clock before d. */
  predicate Before(op: Op, d: int) {
    match op case ClaimBy(_, now, _, _) => now < d case DiceBy(_, _, now, _) => now < d case _ => true
  }

  /** Token t holds the lease on k until d. */
  predicate Leased(w: World, k: Key, t: nat, d: int) {
    t > 0 && k in w.nodes && w.nodes[k].refreshing && w.nodes[k].owner == t && w.nodes[k].lockUntil == d
  }

  lemma LeaseStep(w: World, op: Op, k: Key, t: nat, d: int)
    requires Inv(w) && Enabled(w, op) && Leased(w, k, t, d) && Before(op, d) && !EndsLease(w, op, k, t)
    ensures var w' := Step(w, op);
            Leased(w', k, t, d) && (k in w'.taker <==> k in w.taker) && (k in w.taker ==> w'.taker[k] == w.taker[k])
            && w.issued <= w'.issued && forall j | |w.issued| <= j < |w'.issued| :: w'.issued[j].1 != k
  {
    assert NodeOk(w, k);
    hide Distinct, CleanupOk, CtxOk, Candidate;
  }

  /** Along the run the lease is not ended by anyone entitled to, and nobody's clock has reached d. */
  predicate Undisturbed(w: World, ops: seq<Op>, k: Key, t: nat, d: int)
    requires Run(w, ops).Some?
    decreases |ops|
  {
    ops != [] ==>
      Before(ops[0], d) && !EndsLease(w, ops[0], k, t) && Undisturbed(Step(w, ops[0]), ops[1..], k, t, d)
  }

  /**
   Until its deadline a lease has one holder: through any run of any number of requests in which nobody entitled
   to end it does, no claim on k is issued a token, no dice on k wins, and the lease is as it was.
   */
  lemma {:induction false} LeaseIsExclusive(w: World, ops: seq<Op>, k: Key, t: nat, d: int)
    requires Inv(w) && Leased(w, k, t, d) && Run(w, ops).Some? && Undisturbed(w, ops, k, t, d)
    ensures var w' := Run(w, ops).value;
            Leased(w', k, t, d) && (k in w'.taker <==> k in w.taker) && (k in w.taker ==> w'.taker[k] == w.taker[k])
            && w.issued <= w'.issued && forall j | |w.issued| <= j < |w'.issued| :: w'.issued[j].1 != k
    decreases |ops|
  {
    if ops == [] {
    } else {
      hide Inv, Step, Enabled, Leased, EndsLease, Before;
      StepInv(w, ops[0]);
      LeaseStep(w, ops[0], k, t, d);
      LeaseIsExclusive(Step(w, ops[0]), ops[1..], k, t, d);
    }
  }

  // ---- who speaks for a stub -----------------------------------------------

  /** When cleanup i runs it will offer token t back. */
  predicate Speaks(w: World, i: nat, t: nat) {
    && i < |w.clns| && w.clns[i].live && w.clns[i].data < |w.ctxs|
    && Unresolved(w.ctxs[w.clns[i].data]) && w.ctxs[w.clns[i].data].owner == t
  }

  /** Registering at the win makes one cleanup speak for the token the claim issued. */
  lemma MarkSpeaks(w: World, c: nat)
    requires Inv(w) && Enabled(w, Mark(c, true))
    ensures Speaks(Step(w, Mark(c, true)), |w.clns|, w.ctxs[c].pending)
  {
    assert CtxOk(w, c);
  }

  /** No two cleanups ever speak for the same lease, and they speak for its one unresolved context. */
  lemma OneSpeaker(w: World, i: nat, t: nat)
    requires Inv(w) && t > 0 && Speaks(w, i, t)
    ensures forall j | 0 <= j < |w.clns| && Speaks(w, j, t) :: j == i
    ensures forall c | 0 <= c < |w.ctxs| && Unresolved(w.ctxs[c]) && w.ctxs[c].owner == t :: c == w.clns[i].data
  {
    forall c: nat | c < |w.ctxs| && Unresolved(w.ctxs[c]) && w.ctxs[c].owner == t ensures c == w.clns[i].data {
      assert Token(w.ctxs[c]) == t && Token(w.ctxs[w.clns[i].data]) == t;
    }
    forall j: nat | j < |w.clns| && Speaks(w, j, t) ensures j == i {
      assert Token(w.ctxs[w.clns[j].data]) == t && w.clns[j].data == w.clns[i].data;
      assert CleanupOk(w, i) && CleanupOk(w, j);
    }
  }

  /** The step that ends cleanup i's duty for token t: it ran, or its context stored or released early. */
  predicate Ends(w: World, op: Op, i: nat)
    requires i < |w.clns|
  {
    (op.Teardown? && op.i == i) || ((op.StoredBy? || op.Resolve?) && op.c == w.clns[i].data)
  }

  lemma SpeakerStays(w: World, op: Op, i: nat, t: nat)
    requires Inv(w) && Enabled(w, op) && t > 0 && Speaks(w, i, t) && !Ends(w, op, i)
    ensures Speaks(Step(w, op), i, t)
  {
    assert CleanupOk(w, i);
    if op.Adopt? {
      assert CleanupOk(w, op.i) && CtxOk(w, op.c);
    }
    hide Distinct, NodeOk, Claimed, Unstubbed;
  }

  /** Somewhere along the run cleanup i's duty ends. */
  predicate EndsDuring(w: World, ops: seq<Op>, i: nat)
    requires i < |w.clns| && Run(w, ops).Some?
    decreases |ops|
  {
    ops != [] && (Ends(w, ops[0], i) || EndsDuring(Step(w, ops[0]), ops[1..], i))
  }

  /** Once a cleanup speaks for a stub it goes on, alone, through any chain of redirects and adoptions. */
  lemma {:induction false} SpeaksUntilResolved(w: World, ops: seq<Op>, i: nat, t: nat)
    requires Inv(w) && t > 0 && Speaks(w, i, t) && Run(w, ops).Some? && !EndsDuring(w, ops, i)
    ensures var w' := Run(w, ops).value;
            Inv(w') && Speaks(w', i, t) && forall j | 0 <= j < |w'.clns| && Speaks(w', j, t) :: j == i
    decreases |ops|
  {
    if ops == [] {
      OneSpeaker(w, i, t);
    } else {
      hide Inv, Speaks, Step, Enabled;
      StepInv(w, ops[0]);
      SpeakerStays(w, ops[0], i, t);
      SpeaksUntilResolved(Step(w, ops[0]), ops[1..], i, t);
    }
  }

  /** The context is marked as the winner, its cleanup was registered, and it has not run yet. */
  predicate Registered(w: World, c: nat) {
    && c < |w.ctxs| && w.ctxs[c].winner && w.ctxs[c].cln.Some?
    && w.ctxs[c].cln.value < |w.clns| && w.clns[w.ctxs[c].cln.value].live
  }

  /** Who holds token t is spoken for exactly when it is registered, and then by its own cleanup alone. */
  lemma SpokenForExactly(w: World, c: nat, t: nat)
    requires Inv(w) && t > 0 && c < |w.ctxs| && Token(w.ctxs[c]) == t
    ensures (exists i: nat :: Speaks(w, i, t)) <==> Registered(w, c)
    ensures Registered(w, c) ==> Speaks(w, w.ctxs[c].cln.value, t)
                                 && forall j: nat | Speaks(w, j, t) :: j == w.ctxs[c].cln.value
  {
    assert CtxOk(w, c);
    if Registered(w, c) {
      assert Speaks(w, w.ctxs[c].cln.value, t);
      OneSpeaker(w, w.ctxs[c].cln.value, t);
    }
    forall i: nat | Speaks(w, i, t) ensures Registered(w, c) {
      assert Token(w.ctxs[w.clns[i].data]) == t;
      assert CleanupOk(w, i);
    }
  }

  /**
   In every run of any number of requests, every stub with a token on it: some cleanup speaks for it exactly when
   a registered winner holds its token, and then exactly one does.
   */
  lemma ExactlyOneSpeaks(ops: seq<Op>, k: Key)
    requires Run(EMPTY, ops).Some? && var w := Run(EMPTY, ops).value; k in w.nodes && w.nodes[k].owner > 0
    ensures var w := Run(EMPTY, ops).value; var t := w.nodes[k].owner;
            && ((exists i: nat :: Speaks(w, i, t)) <==> exists c: nat :: Registered(w, c) && Token(w.ctxs[c]) == t)
            && forall i: nat, j: nat | Speaks(w, i, t) && Speaks(w, j, t) :: i == j
  {
    var w := Run(EMPTY, ops).value;
    var t := w.nodes[k].owner;
    EmptyInv();
    RunInv(EMPTY, ops);
    hide Inv, Run;
    forall i: nat, j: nat | Speaks(w, i, t) && Speaks(w, j, t) ensures i == j {
      OneSpeaker(w, i, t);
    }
    forall i: nat | Speaks(w, i, t) ensures exists c: nat :: Registered(w, c) && Token(w.ctxs[c]) == t {
      SpokenForExactly(w, w.clns[i].data, t);
      assert Token(w.ctxs[w.clns[i].data]) == t;
    }
    forall c: nat | Registered(w, c) && Token(w.ctxs[c]) == t ensures exists i: nat :: Speaks(w, i, t) {
      SpokenForExactly(w, c, t);
    }
  }

  /** No winner is left without a cleanup. */
  predicate WinnersRegistered(w: World) {
    forall c | 0 <= c < |w.ctxs| && Unresolved(w.ctxs[c]) :: w.ctxs[c].cln.Some?
  }

  /** Every registration of the run found room. */
  predicate RoomToRegister(ops: seq<Op>) {
    forall op | op in ops && op.Mark? :: op.registered
  }

  lemma {:induction false} RunRegisters(w: World, ops: seq<Op>)
    requires WinnersRegistered(w) && Run(w, ops).Some? && RoomToRegister(ops)
    ensures WinnersRegistered(Run(w, ops).value)
    decreases |ops|
  {
    if ops == [] {
    } else {
      assert ops[0] in ops;
      StepRegisters(w, ops[0]);
      hide Step, Enabled, WinnersRegistered;
      RunRegisters(Step(w, ops[0]), ops[1..]);
    }
  }

  lemma StepRegisters(w: World, op: Op)
    requires WinnersRegistered(w) && Enabled(w, op) && (op.Mark? ==> op.registered)
    ensures WinnersRegistered(Step(w, op))
  {
    hide Claimed, Unstubbed, Stored, Freshened, Missed, NegSet;
  }

  /**
   Where every registration found room, every stub a winner still holds has exactly one cleanup, and it speaks for
   the stub until it has run.
   */
  lemma WinnersAreSpokenFor(ops: seq<Op>, c: nat)
    requires Run(EMPTY, ops).Some? && RoomToRegister(ops)
    requires var w := Run(EMPTY, ops).value; c < |w.ctxs| && Unresolved(w.ctxs[c]) && w.ctxs[c].owner > 0
    ensures var w := Run(EMPTY, ops).value; var x := w.ctxs[c];
            && x.cln.Some? && x.cln.value < |w.clns| && w.clns[x.cln.value].data == c
            && (w.clns[x.cln.value].live <==> exists i: nat :: Speaks(w, i, x.owner))
            && forall i: nat | Speaks(w, i, x.owner) :: i == x.cln.value
  {
    var w := Run(EMPTY, ops).value;
    EmptyInv();
    RunInv(EMPTY, ops);
    RunRegisters(EMPTY, ops);
    hide Run, RoomToRegister;
    assert CtxOk(w, c);
    SpokenForExactly(w, c, w.ctxs[c].owner);
  }

  /** An adopted lease is the request's own: it lost the claim to itself. */
  lemma AdoptsOwnLease(w: World, i: nat, c: nat)
    requires Inv(w) && Settles(w.ctxs, w.clns, i, c, w.nodes)
    ensures var k := w.ctxs[c].key;
            k in w.nodes && IssuedTo(w, w.nodes[k].owner, w.ctxs[c].req)
            && (k !in w.diced ==> k in w.taker && w.taker[k] == w.ctxs[c].req)
  {
    assert NodeOk(w, w.ctxs[c].key);
    assert CleanupOk(w, i);
    assert CtxOk(w, w.clns[i].data);
    hide Distinct;
  }

  // ---- runs on which the plain promise fails ---------------------------------

  const CLAIM := [NewCtx(1, 7), ClaimBy(0, 20, 5, true)]

  /**
   Nobody speaks for the stub of a request that won the claim and is parked for the NX lock: only an answer that
   makes it the winner registers a cleanup. If it goes away, or loses the lock and gives up waiting, the stub
   stays until its deadline. A winner whose registration found no room is in the same position.
   */
  lemma ParkedClaimUnspoken()
    ensures var r := Run(EMPTY, CLAIM);
            r.Some? && Owned(Lookup(r.value.nodes, 7), 1) && r.value.ctxs == [Ctx(1, 7, false, false, 0, 1, None)]
            && forall i: nat :: !Speaks(r.value, i, 1)
    ensures var r := Run(EMPTY, CLAIM + [Mark(0, false)]);
            r.Some? && Owned(Lookup(r.value.nodes, 7), 1) && r.value.ctxs == [Ctx(1, 7, true, false, 1, 1, None)]
            && forall i: nat :: !Speaks(r.value, i, 1)
  {
    RunMore(EMPTY, [], NewCtx(1, 7));
    RunMore(EMPTY, [NewCtx(1, 7)], ClaimBy(0, 20, 5, true));
    assert [] + [NewCtx(1, 7)] == [NewCtx(1, 7)] && [NewCtx(1, 7)] + [ClaimBy(0, 20, 5, true)] == CLAIM;
    RunMore(EMPTY, CLAIM, Mark(0, false));
  }

  const STALE := [StoreAt(7, 100, 0, 10, 500, Entry), NewCtx(1, 7)]

  /** An entry whose stale refresh request 1 has claimed and marked. */
  const CLAIMED := World(map[7 := Node(Entry, 100, 10, 500, true, 25, 1, 0, 0, 0)],
                         [Ctx(1, 7, true, false, 1, 1, Some(0))], [Cleanup(1, 0, true)], [(1, 7)], map[7 := 1], {})

  lemma RunToClaimed()
    ensures Run(EMPTY, STALE + [ClaimBy(0, 20, 5, true)] + [Mark(0, true)]) == Some(CLAIMED)
  {
    RunMore(EMPTY, [], StoreAt(7, 100, 0, 10, 500, Entry));
    RunMore(EMPTY, [StoreAt(7, 100, 0, 10, 500, Entry)], NewCtx(1, 7));
    assert [] + [StoreAt(7, 100, 0, 10, 500, Entry)] == [StoreAt(7, 100, 0, 10, 500, Entry)];
    assert [StoreAt(7, 100, 0, 10, 500, Entry)] + [NewCtx(1, 7)] == STALE;
    RunMore(EMPTY, STALE, ClaimBy(0, 20, 5, true));
    RunMore(EMPTY, STALE + [ClaimBy(0, 20, 5, true)], Mark(0, true));
    assert Run(EMPTY, STALE + [ClaimBy(0, 20, 5, true)] + [Mark(0, true)]).value == CLAIMED;
  }

  /**
   The run on which a release hits another request: request 1 claims a stale entry, its deadline passes, request 2
   wins the refresh dice on the same entry, and then request 1's teardown runs.
   */
  lemma DiceHit()
    ensures var r := Run(EMPTY, STALE + [ClaimBy(0, 20, 5, true)] + [Mark(0, true)] + [DiceBy(2, 7, 30, 5)]);
            r.Some? && Enabled(r.value, Teardown(0, 31)) && Clears(r.value, Teardown(0, 31), 7)
            && 7 in r.value.taker && r.value.taker[7] == 2 && Actor(r.value, Teardown(0, 31)).req == 1
  {
    RunToClaimed();
    RunMore(EMPTY, STALE + [ClaimBy(0, 20, 5, true)] + [Mark(0, true)], DiceBy(2, 7, 30, 5));
    hide Run;
  }
}

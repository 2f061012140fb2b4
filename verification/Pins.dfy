/**
 The two things every phase of a request handles with care: the zone mutex, and the references to cached
 bodies that the request's pool cleanups will give back.
 */
module Pins {
  import opened Options

  /** What one request has added to the zone's counters. */
  datatype Tally = Tally(hits: nat, misses: nat, staleServes: nat, l2Hits: nat, l2Misses: nat, l2NegSkips: nat,
                         bypasses: nat, minUsesSkips: nat, refreshes: nat, lockWaits: nat,
                         breakerServes: nat, sieServes: nat)

  const NOTHING_COUNTED := Tally(0, 0, 0, 0, 0, 0, 0, 0, 0, 0, 0, 0)

  /** The outcome counters, of which every engaged request is to raise exactly one. */
  function Raised(t: Tally): nat { t.hits + t.misses + t.staleServes }

  /** The detail counters never run ahead of the outcome counter they refine. */
  predicate Tallied(t: Tally) {
    t.l2Hits <= t.hits && t.bypasses + t.minUsesSkips <= t.misses && t.breakerServes + t.sieServes <= t.staleServes
  }

  /** From t to u the outcome counters went up by n, details in step, and l2_misses not at all. */
  predicate Added(t: Tally, u: Tally, n: nat) {
    Raised(u) == Raised(t) + n && (Tallied(t) ==> Tallied(u)) && u.l2Misses == t.l2Misses
  }

  /** The zone as one request sees it. */
  class Zone {
    var locked: bool
    var t: Tally

    constructor ()
      ensures !locked && t == NOTHING_COUNTED
    {
      locked, t := false, NOTHING_COUNTED;
    }

    method Lock()
      requires !locked
      modifies this`locked
      ensures locked
    {
      locked := true;
    }

    method Unlock()
      requires locked
      modifies this`locked
      ensures !locked
    {
      locked := false;
    }
  }

  /** How many entries of a cleanup list still refer to body b. */
  function Count(clns: seq<Option<nat>>, b: nat): nat {
    if clns == [] then 0 else Is(clns[0], b) + Count(clns[1..], b)
  }

  function Is(c: Option<nat>, b: nat): nat { if c == Some(b) then 1 else 0 }

  lemma {:induction false} CountPut(clns: seq<Option<nat>>, i: nat, c: Option<nat>, b: nat)
    requires i < |clns|
    ensures Count(clns[i := c], b) == Count(clns, b) - Is(clns[i], b) + Is(c, b)
    ensures Count(clns, b) >= Is(clns[i], b)
  {
    if i == 0 {
      assert clns[0 := c][1..] == clns[1..];
    } else {
      CountPut(clns[1..], i - 1, c, b);
      assert clns[i := c][1..] == clns[1..][i - 1 := c];
    }
  }

  lemma {:induction false} CountAppend(clns: seq<Option<nat>>, c: Option<nat>, b: nat)
    ensures Count(clns + [c], b) == Count(clns, b) + Is(c, b)
  {
    if clns == [] {
      assert Count([c], b) == Is(c, b) + Count([], b);
    } else {
      CountAppend(clns[1..], c, b);
      assert (clns + [c])[1..] == clns[1..] + [c];
    }
  }

  lemma {:induction false} NothingCounted(clns: seq<Option<nat>>, b: nat)
    requires forall i | 0 <= i < |clns| :: clns[i] == None
    ensures Count(clns, b) == 0
  {
    if clns == [] {
    } else {
      NothingCounted(clns[1..], b);
    }
  }

  /**
   The request pool. pins counts the references the request took and has not given back; clns are the data
   pointers of its reference cleanups, None once disarmed.
   */
  class Pool {
    var pins: multiset<nat>
    var clns: seq<Option<nat>>

    constructor ()
      ensures pins == multiset{} && clns == [] && Balanced(None)
    {
      pins, clns := multiset{}, [];
    }

    /** Every reference held has exactly one live cleanup to give it back, apart from one still in hand. */
    ghost predicate Balanced(inHand: Option<nat>)
      reads this
    {
      forall b: nat {:trigger pins[b]} {:trigger Count(clns, b)} :: pins[b] == Count(clns, b) + Is(inHand, b)
    }

    /** blob_ref_cleanup, then blob_acquire: registering first leaves nothing to undo under the mutex. */
    method Pin(z: Zone, b: nat, room: bool) returns (i: Option<nat>)
      requires z.locked && Balanced(None)
      modifies this
      ensures Balanced(None) && i == (if room then Some(|old(clns)|) else None)
      ensures clns == old(clns) + if room then [Some(b)] else []
    {
      if !room {
        return None;
      }
      forall x: nat { CountAppend(clns, Some(b), x); }
      i := Some(|clns|);
      clns := clns + [Some(b)];
      pins := pins + multiset{b};
    }

    /** blob_acquire under the mutex; the caller then has the reference in hand. */
    method Take(z: Zone, b: nat)
      requires z.locked && Balanced(None)
      modifies this`pins
      ensures Balanced(Some(b))
    {
      pins := pins + multiset{b};
    }

    /** blob_release may take the zone mutex, so its caller must not hold it. */
    method Release(z: Zone, b: nat)
      requires !z.locked && b in pins
      modifies this`pins
      ensures pins == old(pins) - multiset{b}
    {
      pins := pins - multiset{b};
    }

    /** Give back a reference in hand that no cleanup was registered for. */
    method GiveBack(z: Zone, b: nat)
      requires !z.locked && Balanced(Some(b))
      modifies this`pins
      ensures Balanced(None)
    {
      assert pins[b] > 0;
      Release(z, b);
    }

    /** blob_cleanup, and the early drop: give the reference back once, and never again. */
    method Drop(z: Zone, i: nat)
      requires !z.locked && Balanced(None) && i < |clns|
      modifies this
      ensures Balanced(None) && clns == old(clns)[i := None]
    {
      forall x: nat { CountPut(clns, i, None, x); }
      if clns[i].Some? {
        Release(z, clns[i].value);
        clns := clns[i := None];
      }
    }

    /** Pool destruction: every cleanup runs, newest first. */
    method Destroy(z: Zone)
      requires !z.locked && Balanced(None)
      modifies this
      ensures pins == multiset{} && forall i | 0 <= i < |clns| :: clns[i] == None
    {
      var i := |clns|;
      while i > 0
        invariant 0 <= i <= |clns| && Balanced(None)
        invariant forall j | i <= j < |clns| :: clns[j] == None
      {
        i := i - 1;
        Drop(z, i);
      }
      forall x: nat { NothingCounted(clns, x); }
      assert forall x: nat :: pins[x] == 0;
    }
  }

  /** serve() may answer, refuse the body after all, or fail. */
  datatype ServeAnswer = Answered | Refused | Broken

  /**
   serve(): takes over the reference passed in, if any, whatever it answers. `room` is whether its cleanup could
   be registered, `body` what it makes of the stored body.
   */
  method Serve(z: Zone, pool: Pool, ref: Option<nat>, room: bool, body: ServeAnswer) returns (a: ServeAnswer)
    requires !z.locked && pool.Balanced(ref)
    modifies pool
    ensures pool.Balanced(None) && old(pool.clns) <= pool.clns
    ensures a == if ref.Some? && !room then Broken else body
  {
    if ref.Some? {
      if !room {
        pool.GiveBack(z, ref.value);
        return Broken;
      }
      forall x: nat { CountAppend(pool.clns, ref, x); }
      pool.clns := pool.clns + [ref];
      if body.Refused? {
        pool.Drop(z, |pool.clns| - 1);
      }
    }
    a := body;
  }
}

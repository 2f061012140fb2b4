/**
 How long a stored object may live. A blob carries its birth and its spans; promotions from L2 rebuild the L1
 deadlines from them, and a marker's self-heal even rewrites them. Clocks of different nodes may disagree.
 */
module Lifetime {
  import opened Options
  import opened Bytes
  import opened Codec
  import Lease

  function Age(h: Header, now: int): int { if now < h.created then 0 else now - h.created }

  function RemFresh(h: Header, now: int): int { h.freshTtl - Age(h, now) }

  function RemStale(h: Header, now: int): int { h.staleTtl - Age(h, now) }

  // ---- promotion -----------------------------------------------------------

  /** One promotion: the clock, and whether the zone admits a new key and has room. */
  datatype Fill = Fill(now: int, admit: bool, room: bool)

  /** The L2 hit: fill L1 with what is left of the object's life, unless L1 already holds a fresher copy. */
  method Promote(z: Lease.Zone, key: Lease.Key, h: Header, len: nat, f: Fill) returns (alive: bool)
    modifies z
    ensures alive <==> RemStale(h, f.now) > 0
    ensures z.nodes == Lease.Put(old(z.nodes), key, Promoted(Lease.Lookup(old(z.nodes), key), h, len, f))
  {
    var age := f.now - h.created;
    if age < 0 {
      age := 0;
    }
    var remFresh, remStale := h.freshTtl - age, h.staleTtl - age;
    if remStale <= 0 {
      return false;
    }
    var _ := z.ShmStoreIfNewer(key, len, f.now, remFresh, remStale, f.admit, f.room);
    alive := true;
  }

  /** The promotion is written: the object is alive, L1 has nothing fresher, and the zone takes it. */
  predicate Lands(n: Lease.Slot, h: Header, f: Fill) {
    && RemStale(h, f.now) > 0 && !Lease.KeepsNewer(n, f.now, RemFresh(h, f.now))
    && Lease.StoreAnswer(n, f.admit, f.room).Written?
  }

  /** The node a promotion leaves behind. */
  function Promoted(n: Lease.Slot, h: Header, len: nat, f: Fill): Lease.Slot {
    if Lands(n, h, f) then Lease.Stored(n, len, f.now, RemFresh(h, f.now), RemStale(h, f.now)) else n
  }

  /** A body whose deadlines are within the blob's own life. */
  predicate Within(n: Lease.Slot, h: Header) {
    && n.Some? && n.value.kind.Entry? && n.value.len > 0
    && n.value.freshUntil <= h.created + h.freshTtl && 0 != n.value.staleUntil <= h.created + h.staleTtl
  }

  /** A node whose deadlines are those the origin gave the object. */
  predicate Exact(n: Lease.Slot, h: Header) {
    n.Some? && n.value.freshUntil == h.created + h.freshTtl && n.value.staleUntil == h.created + h.staleTtl
  }

  function PromotedOften(n: Lease.Slot, h: Header, len: nat, fills: seq<Fill>): Lease.Slot {
    if fills == [] then n else Promoted(PromotedOften(n, h, len, fills[..|fills| - 1]), h, len, fills[|fills| - 1])
  }

  /**
   However often an object is promoted, at whatever clock readings and over whatever resident, the node is either
   the one that was there or one that does not outlive the object's own header.
   */
  lemma {:induction false} PromotionsNeverExtend(n: Lease.Slot, h: Header, len: nat, fills: seq<Fill>)
    requires len > 0 && forall i | 0 <= i < |fills| :: fills[i].now >= 0
    ensures PromotedOften(n, h, len, fills) == n || Within(PromotedOften(n, h, len, fills), h)
    decreases |fills|
  {
    if fills == [] {
    } else {
      PromotionsNeverExtend(n, h, len, fills[..|fills| - 1]);
    }
  }

  /** Fill i is written on a clock that is not behind the object's birth. */
  predicate OnTime(h: Header, len: nat, fills: seq<Fill>, i: nat) {
    && i < |fills| && fills[i].now >= h.created && RemStale(h, fills[i].now) > 0
    && Lease.StoreAnswer(PromotedOften(None, h, len, fills[..i]), fills[i].admit, fills[i].room).Written?
  }

  /** Promotions into an empty slot restore the object's deadlines exactly when one was written on time. */
  lemma {:induction false} PromotionsExactly(h: Header, len: nat, fills: seq<Fill>)
    requires len > 0 && forall i | 0 <= i < |fills| :: fills[i].now >= 0
    ensures Exact(PromotedOften(None, h, len, fills), h) <==> exists i: nat :: OnTime(h, len, fills, i)
    decreases |fills|
  {
    if fills == [] {
    } else {
      var last := |fills| - 1;
      var front, f := fills[..last], fills[last];
      PromotionsExactly(h, len, front);
      PromotionsNeverExtend(None, h, len, front);
      forall i: nat | i < last ensures OnTime(h, len, fills, i) <==> OnTime(h, len, front, i) {
        assert fills[..i] == front[..i];
      }
      LastPromotion(PromotedOften(None, h, len, front), h, len, f);
      if OnTime(h, len, fills, last) || Exact(PromotedOften(None, h, len, front), h) {
        assert exists i: nat :: OnTime(h, len, fills, i);
      }
    }
  }

  /** One more promotion of the same object: exact if it is written on time, and it never undoes an exact one. */
  lemma LastPromotion(n: Lease.Slot, h: Header, len: nat, f: Fill)
    requires n.None? || Within(n, h)
    ensures Exact(Promoted(n, h, len, f), h)
            <==> Exact(n, h) || (f.now >= h.created && RemStale(h, f.now) > 0
                                 && Lease.StoreAnswer(n, f.admit, f.room).Written?)
  {
  }

  /** A promotion never takes freshness away from what L1 already holds. */
  lemma PromotionKeepsFresher(n: Lease.Slot, h: Header, len: nat, f: Fill)
    requires n.Some? && n.value.kind.Entry? && n.value.len > 0
    ensures Promoted(n, h, len, f).Some? && Promoted(n, h, len, f).value.freshUntil >= n.value.freshUntil
  {
  }

  // ---- marker self-heal ----------------------------------------------------

  /** When the marker stops resolving anything. */
  function Deadline(h: Header): int { h.created + h.staleTtl }

  /** marker_store_key with what is left of the marker that came from L2: born now, with the rest of its spans. */
  function Healed(h: Header, now: int): (m: Header)
    requires 0 <= now < 0x8000_0000_0000_0000 && RemStale(h, now) > 0
  {
    h.(created := now, freshTtl := if RemFresh(h, now) > 0 then RemFresh(h, now) else 1, staleTtl := RemStale(h, now))
  }

  /** One heal after another, on nodes whose clocks read nows; None once the marker is dead somewhere. */
  function HealedAlong(h: Header, nows: seq<int>): Option<Header>
    requires forall i | 0 <= i < |nows| :: 0 <= nows[i] < 0x8000_0000_0000_0000
    decreases |nows|
  {
    if nows == [] then Some(h)
    else if RemStale(h, nows[0]) <= 0 then None
    else HealedAlong(Healed(h, nows[0]), nows[1..])
  }

  /** Each reading is at or past the one before, the first at or past the marker's birth. */
  predicate NeverBehind(born: int, nows: seq<int>)
    decreases |nows|
  {
    nows != [] ==> born <= nows[0] && NeverBehind(nows[0], nows[1..])
  }

  /** Healing never moves a marker's deadline out, and keeps it exactly when no clock ran behind. */
  lemma {:induction false} HealsNeverExtend(h: Header, nows: seq<int>)
    requires forall i | 0 <= i < |nows| :: 0 <= nows[i] < 0x8000_0000_0000_0000
    requires HealedAlong(h, nows).Some?
    ensures var m := HealedAlong(h, nows).value;
            Deadline(m) <= Deadline(h) && (Deadline(m) == Deadline(h) <==> NeverBehind(h.created, nows))
    decreases |nows|
  {
    if nows == [] {
    } else {
      var m := Healed(h, nows[0]);
      assert Deadline(m) <= Deadline(h) && (Deadline(m) == Deadline(h) <==> h.created <= nows[0]);
      HealsNeverExtend(m, nows[1..]);
    }
  }

  /** A healed marker is one the validator takes again. */
  lemma HealedIsLegal(h: Header, now: int)
    requires LegalFields(h, now) && 0 <= now < 0x8000_0000_0000_0000 && RemStale(h, now) > 0
    ensures LegalFields(Healed(h, now), now)
  {
  }

  // ---- the validator's bound on `created` ------------------------------------

  predicate InI64(x: int) { -0x8000_0000_0000_0000 <= x < 0x8000_0000_0000_0000 }

  predicate AgeFits(now: int, created: int) { InI64(now - created) }

  /** A birth of zero or later is exactly what keeps now - created inside 64 bits at every time of day. */
  lemma BirthBound(created: i64)
    ensures (forall now: int | 0 <= now < 0x8000_0000_0000_0000 :: AgeFits(now, created)) <==> created >= 0
  {
    if created < 0 {
      assert !AgeFits(0x7FFF_FFFF_FFFF_FFFF, created);
    }
  }

  /** All the arithmetic an accepted header goes through stays inside 64 bits, until the clock nears its end. */
  lemma AcceptedArithmetic(h: Header, validated: int, now: int)
    requires LegalFields(h, validated) && 0 <= now && 0 <= validated
    requires now < 0x8000_0000_0000_0000 && validated + FOREVER_TTL + 0x1_0000_0000 < 0x8000_0000_0000_0000
    ensures InI64(now - h.created) && InI64(RemFresh(h, now)) && InI64(RemStale(h, now))
    ensures InI64(h.created + h.freshTtl) && InI64(h.created + h.staleTtl) && InI64(h.created + h.sieTtl)
  {
  }
}

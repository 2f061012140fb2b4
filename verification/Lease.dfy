/**
 Single-flight leases on cache nodes. A claim stamps a fresh token on the node; only the holder of that token
 may clear the lease again. A request keeps its token in a context, and one pool cleanup speaks for it; an
 internal redirect gives the request a new context, which may adopt the stub the old one still holds.

 Keys are digests, compared whole. Each zone operation below is one hold of the zone mutex.
 */
module Lease {
  import opened Options

  datatype Kind = Counter | Entry | Marker

  /** What single flight and the negative memo need of a node. len == 0 for a node without a body. */
  datatype Node = Node(kind: Kind, len: nat, freshUntil: int, staleUntil: int,
                       refreshing: bool, lockUntil: int, owner: nat,
                       missCount: nat, negUntil: int, lastAccess: int)

  type Key = nat
  type Slot = Option<Node>
  type Nodes = map<Key, Node>

  datatype Claim = Fresh | Loser | Winner

  function Lookup(nodes: Nodes, k: Key): Slot {
    if k in nodes then Some(nodes[k]) else None
  }

  function Put(nodes: Nodes, k: Key, s: Slot): Nodes {
    if s.Some? then nodes[k := s.value] else nodes - {k}
  }

  // ---- one node, one operation ----------------------------------------------

  function Blank(now: int): Node {
    Node(Counter, 0, 0, 0, false, 0, 0, 0, 0, now)
  }

  predicate FreshEntry(n: Slot, now: int) { n.Some? && n.value.len > 0 && now < n.value.freshUntil }

  predicate InFlight(n: Slot, now: int) { n.Some? && n.value.refreshing && now < n.value.lockUntil }

  function Verdict(n: Slot, now: int): Claim {
    if FreshEntry(n, now) then Fresh else if InFlight(n, now) then Loser else Winner
  }

  /** A lease is issued to a winner that has a node to put it on. */
  predicate Issues(n: Slot, now: int, room: bool) {
    Verdict(n, now).Winner? && (n.Some? || room)
  }

  function Claimed(n: Slot, now: int, ttl: int, token: nat, room: bool): Slot {
    if !Issues(n, now, room) then n
    else
      var base := if n.Some? then n.value else Blank(now);
      Some(base.(refreshing := true, lockUntil := now + ttl, owner := token))
  }

  predicate Owned(n: Slot, owner: nat) {
    owner != 0 && n.Some? && n.value.refreshing && n.value.owner == owner
  }

  function Unstubbed(n: Slot, owner: nat, now: int): Slot {
    if !Owned(n, owner) || n.value.kind.Marker? then n
    else if n.value.kind.Counter? && n.value.missCount == 0 && n.value.negUntil <= now then None
    else Some(n.value.(refreshing := false, lockUntil := 0, owner := 0))
  }

  function Stored(n: Slot, len: nat, now: int, freshTtl: int, staleTtl: int): Slot {
    Some(Node(Entry, len, now + freshTtl, if staleTtl != 0 then now + staleTtl else 0,
              false, 0, 0, if n.Some? then n.value.missCount else 0, 0, now))
  }

  /** A 304 from the origin: a resident body gets new deadlines, and its lease ends. */
  function Freshened(n: Slot, now: int, freshTtl: int, staleTtl: int): Slot {
    if n.None? || !n.value.kind.Entry? || n.value.len == 0 then n
    else Some(n.value.(freshUntil := now + freshTtl, staleUntil := if staleTtl != 0 then now + staleTtl else 0,
                       refreshing := false, lockUntil := 0, owner := 0, lastAccess := now))
  }

  /** What the miss counter reads after a miss at `now`: restarted when the window has passed. */
  function Bumped(n: Node, window: int, now: int): nat {
    (if window > 0 && now - n.lastAccess > window then 0 else n.missCount) + 1
  }

  predicate CountsMiss(n: Slot, now: int) {
    n.Some? && !(n.value.kind.Entry? && n.value.len > 0) && !InFlight(n, now)
  }

  predicate Passes(n: Slot, minUses: int, window: int, now: int, room: bool) {
    match n
    case None => !room || minUses <= 1
    case Some(node) => !CountsMiss(n, now) || Bumped(node, window, now) >= minUses
  }

  function Missed(n: Slot, window: int, now: int, room: bool): Slot {
    match n
    case None => if room then Some(Blank(now).(missCount := 1)) else None
    case Some(node) => if CountsMiss(n, now) then Some(node.(missCount := Bumped(node, window, now))) else n
  }

  predicate Memo(n: Slot, now: int) { n.Some? && n.value.kind.Counter? && n.value.negUntil > now }

  function NegSet(n: Slot, now: int, ttl: int, room: bool): Slot {
    match n
    case None => if room then Some(Blank(now).(negUntil := now + ttl)) else None
    case Some(node) => if node.kind.Counter? then Some(node.(negUntil := now + ttl)) else n
  }

  /** store_if NEWER: refuses only a resident entry that is strictly fresher than the candidate. */
  predicate KeepsNewer(n: Slot, now: int, freshTtl: int) {
    n.Some? && n.value.kind.Entry? && n.value.len > 0 && n.value.freshUntil > now + freshTtl
  }

  /** What a store answers: a resident node needs room for the body alone, a new one admission first. */
  datatype StoreResult = Written | Declined | NoRoom

  function StoreAnswer(n: Slot, admit: bool, room: bool): StoreResult {
    if n.None? && !admit then Declined else if room then Written else NoRoom
  }

  // ---- the zone --------------------------------------------------------------

  /** The zone's nodes and its token counter. `room` tells whether the slab had (or made) room, `admit` whether
      the admission sketch lets a new key in. */
  class Zone {
    var nodes: Nodes
    var ownerSeq: nat

    constructor ()
      ensures nodes == map[] && ownerSeq == 0
    {
      nodes, ownerSeq := map[], 0;
    }

    method ShmClaim(key: Key, now: int, lockTtl: int, room: bool) returns (cl: Claim, owner: nat)
      modifies this
      ensures cl == Verdict(Lookup(old(nodes), key), now)
      ensures owner == if Issues(Lookup(old(nodes), key), now, room) then old(ownerSeq) + 1 else 0
      ensures ownerSeq == old(ownerSeq) + if owner != 0 then 1 else 0
      ensures nodes == Put(old(nodes), key, Claimed(Lookup(old(nodes), key), now, lockTtl, old(ownerSeq) + 1, room))
    {
      owner := 0;
      if key in nodes {
        var ctn := nodes[key];
        if ctn.len > 0 && now < ctn.freshUntil {
          return Fresh, 0;
        }
        if ctn.refreshing && now < ctn.lockUntil {
          return Loser, 0;
        }
        ownerSeq := ownerSeq + 1;
        nodes := nodes[key := ctn.(refreshing := true, lockUntil := now + lockTtl, owner := ownerSeq)];
        return Winner, ownerSeq;
      }
      if !room {
        return Winner, 0;
      }
      ownerSeq := ownerSeq + 1;
      nodes := nodes[key := Blank(now).(refreshing := true, lockUntil := now + lockTtl, owner := ownerSeq)];
      return Winner, ownerSeq;
    }

    method ShmOwns(key: Key, owner: nat) returns (ok: bool)
      ensures ok <==> Owned(Lookup(nodes, key), owner)
    {
      if owner == 0 {
        return false;
      }
      ok := key in nodes && nodes[key].refreshing && nodes[key].owner == owner;
    }

    method ShmUnstub(key: Key, owner: nat, now: int)
      modifies this
      ensures nodes == Put(old(nodes), key, Unstubbed(Lookup(old(nodes), key), owner, now))
      ensures ownerSeq == old(ownerSeq)
    {
      if owner == 0 || key !in nodes {
        return;
      }
      var ctn := nodes[key];
      if !ctn.kind.Marker? && ctn.refreshing && ctn.owner == owner {
        nodes := nodes[key := ctn.(refreshing := false, lockUntil := 0, owner := 0)];
        if ctn.kind.Counter? && ctn.missCount == 0 && ctn.negUntil <= now {
          nodes := nodes - {key};
        }
      }
    }

    method ShmCountMiss(key: Key, minUses: int, window: int, now: int, room: bool) returns (pass: bool)
      modifies this
      ensures pass <==> Passes(Lookup(old(nodes), key), minUses, window, now, room)
      ensures nodes == Put(old(nodes), key, Missed(Lookup(old(nodes), key), window, now, room))
      ensures ownerSeq == old(ownerSeq)
    {
      if key in nodes {
        var ctn := nodes[key];
        if ctn.kind.Entry? && ctn.len > 0 {
          return true;
        }
        if ctn.refreshing && now < ctn.lockUntil {
          return true;
        }
        if window > 0 && now - ctn.lastAccess > window {
          ctn := ctn.(missCount := 0);
        }
        ctn := ctn.(missCount := ctn.missCount + 1);
        nodes := nodes[key := ctn];
        return ctn.missCount >= minUses;
      }
      if !room {
        return true;
      }
      nodes := nodes[key := Blank(now).(missCount := 1)];
      return minUses <= 1;
    }

    /** resolve_miss: count, then claim the same node, in one hold. */
    method ShmResolveMiss(key: Key, minUses: int, window: int, now: int, lockTtl: int, room: bool)
      returns (pass: bool, cl: Claim, owner: nat)
      modifies this
      ensures pass <==> Passes(Lookup(old(nodes), key), minUses, window, now, room)
      ensures var n := Missed(Lookup(old(nodes), key), window, now, room);
              if !pass then nodes == Put(old(nodes), key, n) && ownerSeq == old(ownerSeq) && owner == 0
              else cl == Verdict(n, now)
                   && owner == (if Issues(n, now, room) then old(ownerSeq) + 1 else 0)
                   && ownerSeq == old(ownerSeq) + (if owner != 0 then 1 else 0)
                   && nodes == Put(old(nodes), key, Claimed(n, now, lockTtl, old(ownerSeq) + 1, room))
    {
      pass := ShmCountMiss(key, minUses, window, now, room);
      cl, owner := Winner, 0;
      if pass {
        cl, owner := ShmClaim(key, now, lockTtl, room);
      }
    }

    method ShmStore(key: Key, len: nat, now: int, freshTtl: int, staleTtl: int, admit: bool, room: bool)
      returns (r: StoreResult)
      modifies this
      ensures r == StoreAnswer(Lookup(old(nodes), key), admit, room)
      ensures nodes == if r.Written? then Put(old(nodes), key, Stored(Lookup(old(nodes), key), len, now, freshTtl, staleTtl))
                       else old(nodes)
      ensures ownerSeq == old(ownerSeq)
    {
      if key !in nodes && !admit {
        return Declined;
      }
      if !room {
        return NoRoom;
      }
      var missCount := if key in nodes then nodes[key].missCount else 0;
      var stale := if staleTtl != 0 then now + staleTtl else 0;
      nodes := nodes[key := Node(Entry, len, now + freshTtl, stale, false, 0, 0, missCount, 0, now)];
      r := Written;
    }

    /** Declined for a strictly fresher resident entry or by admission; otherwise as far as there is room. */
    method ShmStoreIfNewer(key: Key, len: nat, now: int, freshTtl: int, staleTtl: int, admit: bool, room: bool)
      returns (r: StoreResult)
      modifies this
      ensures r == if KeepsNewer(Lookup(old(nodes), key), now, freshTtl) then Declined
                   else StoreAnswer(Lookup(old(nodes), key), admit, room)
      ensures nodes == if r.Written? then Put(old(nodes), key, Stored(Lookup(old(nodes), key), len, now, freshTtl, staleTtl))
                       else old(nodes)
      ensures ownerSeq == old(ownerSeq)
    {
      if key in nodes && nodes[key].kind.Entry? && nodes[key].len > 0 && nodes[key].freshUntil > now + freshTtl {
        return Declined;
      }
      r := ShmStore(key, len, now, freshTtl, staleTtl, admit, room);
    }

    method ShmFreshen(key: Key, now: int, freshTtl: int, staleTtl: int) returns (ok: bool)
      modifies this
      ensures nodes == Put(old(nodes), key, Freshened(Lookup(old(nodes), key), now, freshTtl, staleTtl))
      ensures ok <==> key in old(nodes) && old(nodes)[key].kind.Entry? && old(nodes)[key].len > 0
      ensures ownerSeq == old(ownerSeq)
    {
      if key !in nodes || !nodes[key].kind.Entry? || nodes[key].len == 0 {
        return false;
      }
      var stale := if staleTtl != 0 then now + staleTtl else 0;
      nodes := nodes[key := nodes[key].(freshUntil := now + freshTtl, staleUntil := stale, refreshing := false,
                                        lockUntil := 0, owner := 0, lastAccess := now)];
      ok := true;
    }

    method ShmNegCheck(key: Key, now: int) returns (skip: bool)
      ensures skip <==> Memo(Lookup(nodes, key), now)
    {
      skip := key in nodes && nodes[key].kind.Counter? && nodes[key].negUntil > now;
    }

    method ShmNegSet(key: Key, now: int, ttl: int, room: bool)
      modifies this
      ensures nodes == Put(old(nodes), key, NegSet(Lookup(old(nodes), key), now, ttl, room))
      ensures ownerSeq == old(ownerSeq)
    {
      if key in nodes {
        if nodes[key].kind.Entry? || nodes[key].kind.Marker? {
          return;
        }
        nodes := nodes[key := nodes[key].(negUntil := now + ttl)];
        return;
      }
      if room {
        nodes := nodes[key := Blank(now).(negUntil := now + ttl)];
      }
    }
  }
}

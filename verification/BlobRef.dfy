/**
 The biased reference count on a cached body. A body is born with one reference, its node's own; every
 in-flight server adds one; whoever takes the count from 1 to 0 frees the slab, and nobody else.

 Workers interleave at the granularity of single memory operations: the read of `bytes`, the write of
 `detached`, the atomic decrement, the mutex acquisition and the free are separate steps. A body is named by
 the position of its allocation, so a reused address never looks like the body that was there before.
 */
module BlobRef {
  import opened Options

  /** refs, detached and bytes are the header. The rest only observes: the key whose node reference is still
      counted, the worker that took the count from 1 to 0, and how often the slab was freed. */
  datatype Blob = Blob(refs: int, detached: bool, bytes: nat, owner: Option<nat>, last: Option<nat>, frees: nat)

  /** Where a worker is. */
  datatype Pc =
    | Idle
    | Locked                                                    // has the zone mutex, between operations
    | Carrying(k: nat, body: nat)                               // allocated a body for key k, not stored yet
    | Dropping(k: nat, b: nat, bytes: nat, next: Option<nat>)   // node_release: bytes read
    | Marked(k: nat, b: nat, bytes: nat, next: Option<nat>)     // node_release: detached written
    | NodeLast(k: nat, b: nat, bytes: nat, next: Option<nat>)   // node_release: saw 1, free is next
    | Dropped(k: nat, next: Option<nat>)                        // node_release returned; node.data still dangles
    | Leaving(b: nat, bytes: nat)                               // blob_release: bytes read
    | Last(b: nat, bytes: nat)                                  // blob_release: saw 1, needs the mutex
    | LastLocked(b: nat, bytes: nat)                            // blob_release: has the mutex, free is next

  datatype State = State(blobs: seq<Blob>, nodes: map<nat, nat>, held: multiset<nat>, used: int,
                         mutex: Option<nat>, pcs: seq<Pc>, fault: bool)

  datatype Action =
    | Lock | Unlock | Alloc(key: nat, size: nat) | Install | Evict(victim: nat) | Refresh
    | Mark | NodeDecrement | NodeFree | DropPointer
    | Acquire(hit: nat) | BeginRelease(body: nat) | Decrement | LockLast | FreeLast

  function Init(workers: nat): State {
    State([], map[], multiset{}, 0, None, seq(workers, _ => Idle), false)
  }

  // ---- steps ---------------------------------------------------------------

  predicate Enabled(s: State, w: nat, a: Action) {
    w < |s.pcs| &&
    var pc := s.pcs[w];
    match a
    case Lock => pc.Idle? && s.mutex == None
    case Unlock => pc.Locked?
    case Alloc(_, _) => pc.Locked?
    case Install => pc.Carrying? && pc.k !in s.nodes
    case Evict(k) => pc.Locked? && k in s.nodes
    case Refresh => pc.Carrying? && pc.k in s.nodes
    case Mark => pc.Dropping?
    case NodeDecrement => pc.Marked?
    case NodeFree => pc.NodeLast?
    case DropPointer => pc.Dropped?
    case Acquire(k) => pc.Locked? && k in s.nodes
    case BeginRelease(b) => pc.Idle? && b in s.held
    case Decrement => pc.Leaving?
    case LockLast => pc.Last? && s.mutex == None
    case FreeLast => pc.LastLocked?
  }

  predicate Live(s: State, b: nat) {
    b < |s.blobs| && s.blobs[b].frees == 0
  }

  /** The body whose header worker w's step reads or writes. */
  function Target(s: State, w: nat, a: Action): Option<nat>
    requires Enabled(s, w, a)
  {
    var pc := s.pcs[w];
    match a
    case Evict(k) => Some(s.nodes[k])
    case Refresh => Some(s.nodes[pc.k])
    case Acquire(k) => Some(s.nodes[k])
    case BeginRelease(b) => Some(b)
    case Mark => Some(pc.b)
    case NodeDecrement => Some(pc.b)
    case NodeFree => Some(pc.b)
    case Decrement => Some(pc.b)
    case FreeLast => Some(pc.b)
    case _ => None
  }

  function Header(s: State, b: Option<nat>): Blob {
    if b.Some? && b.value < |s.blobs| then s.blobs[b.value] else Blob(0, false, 0, None, None, 0)
  }

  function HeaderAfter(h: Blob, w: nat, a: Action): Blob {
    var last := if h.refs == 1 then Some(w) else h.last;
    match a
    case Acquire(_) => h.(refs := h.refs + 1)
    case Mark => h.(detached := true)
    case NodeDecrement => h.(refs := h.refs - 1, owner := None, last := last)
    case Decrement => h.(refs := h.refs - 1, last := last)
    case NodeFree => h.(frees := h.frees + 1)
    case FreeLast => h.(frees := h.frees + 1)
    case _ => h
  }

  function PcAfter(s: State, w: nat, a: Action): Pc
    requires Enabled(s, w, a)
  {
    var pc, h := s.pcs[w], Header(s, Target(s, w, a));
    match a
    case Lock => Locked
    case Unlock => Idle
    case Alloc(k, _) => Carrying(k, |s.blobs|)
    case Install => Locked
    case Evict(k) => Dropping(k, s.nodes[k], h.bytes, None)
    case Refresh => Dropping(pc.k, s.nodes[pc.k], h.bytes, Some(pc.body))
    case Mark => Marked(pc.k, pc.b, pc.bytes, pc.next)
    case NodeDecrement => if h.refs == 1 then NodeLast(pc.k, pc.b, pc.bytes, pc.next) else Dropped(pc.k, pc.next)
    case NodeFree => Dropped(pc.k, pc.next)
    case DropPointer => Locked
    case Acquire(_) => Locked
    case BeginRelease(b) => Leaving(b, h.bytes)
    case Decrement => if h.refs == 1 then Last(pc.b, pc.bytes) else Idle
    case LockLast => LastLocked(pc.b, pc.bytes)
    case FreeLast => Locked
  }

  function BlobsAfter(s: State, w: nat, a: Action): seq<Blob>
    requires Enabled(s, w, a)
  {
    var t := Target(s, w, a);
    if a.Alloc? then s.blobs + [Blob(1, false, a.size, Some(a.key), None, 0)]
    else if t.Some? && t.value < |s.blobs| then s.blobs[t.value := HeaderAfter(s.blobs[t.value], w, a)]
    else s.blobs
  }

  function NodesAfter(s: State, w: nat, a: Action): map<nat, nat>
    requires Enabled(s, w, a)
  {
    var pc := s.pcs[w];
    if a.Install? then s.nodes[pc.k := pc.body]
    else if a.DropPointer? && pc.next.Some? then s.nodes[pc.k := pc.next.value]
    else if a.DropPointer? then s.nodes - {pc.k}
    else s.nodes
  }

  function HeldAfter(s: State, w: nat, a: Action): multiset<nat>
    requires Enabled(s, w, a)
  {
    match a
    case Acquire(k) => s.held + multiset{s.nodes[k]}
    case BeginRelease(b) => s.held - multiset{b}
    case _ => s.held
  }

  /** One atomic step of worker w. Touching a header that is gone is recorded as a fault. */
  function Step(s: State, w: nat, a: Action): State
    requires Enabled(s, w, a)
  {
    var t := Target(s, w, a);
    var used := if a.Alloc? then s.used + a.size
                else if a.NodeFree? || a.FreeLast? then s.used - s.pcs[w].bytes
                else s.used;
    var mutex := if a.Lock? || a.LockLast? then Some(w) else if a.Unlock? then None else s.mutex;
    State(BlobsAfter(s, w, a), NodesAfter(s, w, a), HeldAfter(s, w, a), used, mutex,
          s.pcs[w := PcAfter(s, w, a)], s.fault || (t.Some? && !Live(s, t.value)))
  }

  // ---- what is counted -----------------------------------------------------

  /** How many workers are in the middle of releasing a reference to b they have not given back yet. */
  function Exits(pcs: seq<Pc>, b: nat): nat {
    if pcs == [] then 0 else Exit(pcs[0], b) + Exits(pcs[1..], b)
  }

  function Exit(pc: Pc, b: nat): nat {
    if pc.Leaving? && pc.b == b then 1 else 0
  }

  /** The slab bytes of all bodies not freed yet. */
  function Charged(blobs: seq<Blob>): nat {
    if blobs == [] then 0 else Charge(blobs[0]) + Charged(blobs[1..])
  }

  function Charge(blob: Blob): nat {
    if blob.frees == 0 then blob.bytes else 0
  }

  predicate HoldsMutex(pc: Pc) {
    pc.Locked? || pc.Carrying? || pc.Dropping? || pc.Marked? || pc.NodeLast? || pc.Dropped? || pc.LastLocked?
  }

  /** The worker that must free body b, having seen the count go from 1 to 0. */
  predicate MustFree(pc: Pc, b: nat) {
    (pc.NodeLast? || pc.Last? || pc.LastLocked?) && pc.b == b
  }

  /** Key k's node still shows a pointer whose reference is already gone. */
  predicate Dangles(pc: Pc, k: nat) {
    (pc.NodeLast? || pc.Dropped?) && pc.k == k
  }

  /** The node reference a worker is about to store, with its key. */
  function Stores(pc: Pc): Option<(nat, nat)> {
    match pc
    case Carrying(k, b) => Some((k, b))
    case Dropping(k, _, _, next) => Pair(k, next)
    case Marked(k, _, _, next) => Pair(k, next)
    case NodeLast(k, _, _, next) => Pair(k, next)
    case Dropped(k, next) => Pair(k, next)
    case _ => None
  }

  function Pair(k: nat, next: Option<nat>): Option<(nat, nat)> {
    if next.Some? then Some((k, next.value)) else None
  }

  function OwnerRefs(blob: Blob): nat { if blob.owner.Some? then 1 else 0 }

  // ---- the invariant -------------------------------------------------------

  /** refs == (node attached) + (live request references). */
  predicate Counts(s: State) {
    forall b | 0 <= b < |s.blobs| :: Counted(s, b)
  }

  predicate Counted(s: State, b: nat)
    requires b < |s.blobs|
  {
    s.blobs[b].refs == OwnerRefs(s.blobs[b]) + s.held[b] + Exits(s.pcs, b)
  }

  predicate KnownRefs(s: State) {
    forall b | b in s.held :: b < |s.blobs|
  }

  predicate Mutex(s: State) {
    forall w | 0 <= w < |s.pcs| :: HoldsMutex(s.pcs[w]) <==> s.mutex == Some(w)
  }

  /** The count is 0 from the moment one decrement took it there, and only that worker frees, once. */
  predicate FreedOnce(s: State) {
    && (forall b | 0 <= b < |s.blobs| :: FreeState(s, b))
    && (forall w | 0 <= w < |s.pcs| :: FreerState(s, w))
  }

  predicate FreeState(s: State, b: nat)
    requires b < |s.blobs|
  {
    var h := s.blobs[b];
    && (h.last.Some? <==> h.refs == 0) && h.frees <= 1 && (h.frees == 1 ==> h.last.Some?)
    && (h.last.Some? && h.frees == 0 ==> h.last.value < |s.pcs| && MustFree(s.pcs[h.last.value], b))
  }

  predicate FreerState(s: State, w: nat)
    requires w < |s.pcs|
  {
    var pc := s.pcs[w];
    pc.NodeLast? || pc.Last? || pc.LastLocked? ==> Live(s, pc.b) && s.blobs[pc.b].last == Some(w)
  }

  /** Amounts read before a decrement are still the amounts charged. */
  predicate BytesRead(s: State) {
    forall w | 0 <= w < |s.pcs| :: BytesAt(s.blobs, s.pcs[w])
  }

  predicate BytesAt(blobs: seq<Blob>, pc: Pc) {
    pc.Dropping? || pc.Marked? || pc.NodeLast? || pc.Leaving? || pc.Last? || pc.LastLocked?
    ==> pc.b < |blobs| && pc.bytes == blobs[pc.b].bytes
  }

  function Holder(s: State): Pc {
    if s.mutex.Some? && s.mutex.value < |s.pcs| then s.pcs[s.mutex.value] else Idle
  }

  /** Node pointers, the in-flight store and the in-flight drop agree with who owns the node reference. */
  predicate Owners(s: State) {
    OwnersAt(s.blobs, s.nodes, Holder(s))
  }

  predicate OwnersAt(blobs: seq<Blob>, nodes: map<nat, nat>, pc: Pc) {
    && (forall k | k in nodes :: nodes[k] < |blobs| && (blobs[nodes[k]].owner == Some(k) || Dangles(pc, k)))
    && (Stores(pc).Some? ==>
          var (k, b) := Stores(pc).value;
          b < |blobs| && blobs[b].owner == Some(k) && !(k in nodes && nodes[k] == b))
    && (forall b | 0 <= b < |blobs| && blobs[b].owner.Some? :: var k := blobs[b].owner.value;
          (k in nodes && nodes[k] == b) || Stores(pc) == Some((k, b)))
    && (pc.Dropping? || pc.Marked? ==> pc.k in nodes && nodes[pc.k] == pc.b && blobs[pc.b].owner == Some(pc.k))
    && (pc.NodeLast? || pc.Dropped? ==>
          pc.k in nodes && blobs[nodes[pc.k]].owner == None && (pc.NodeLast? ==> nodes[pc.k] == pc.b))
  }

  /** `detached` is written before the node reference goes. */
  predicate DetachedFirst(s: State) {
    DetachedAt(s.blobs, Holder(s))
  }

  predicate DetachedAt(blobs: seq<Blob>, pc: Pc) {
    && (forall b | 0 <= b < |blobs| && blobs[b].owner == None :: blobs[b].detached)
    && (pc.Marked? ==> pc.b < |blobs| && blobs[pc.b].detached)
  }

  predicate Inv(s: State) {
    Counts(s) && KnownRefs(s) && Mutex(s) && FreedOnce(s) && BytesRead(s) && Owners(s) && DetachedFirst(s)
    && s.used == Charged(s.blobs) && !s.fault
  }

  // ---- sums ----------------------------------------------------------------

  lemma {:induction false} ExitsMove(pcs: seq<Pc>, w: nat, pc: Pc, b: nat)
    requires w < |pcs|
    ensures Exits(pcs[w := pc], b) == Exits(pcs, b) - Exit(pcs[w], b) + Exit(pc, b)
    ensures Exits(pcs, b) >= Exit(pcs[w], b)
  {
    if w == 0 {
      assert pcs[0 := pc][1..] == pcs[1..];
    } else {
      ExitsMove(pcs[1..], w - 1, pc, b);
      assert pcs[w := pc][1..] == pcs[1..][w - 1 := pc];
    }
  }

  lemma {:induction false} NobodyExits(pcs: seq<Pc>, b: nat)
    requires forall w | 0 <= w < |pcs| :: Exit(pcs[w], b) == 0
    ensures Exits(pcs, b) == 0
  {
    if pcs == [] {
    } else {
      NobodyExits(pcs[1..], b);
    }
  }

  lemma {:induction false} ChargedPut(blobs: seq<Blob>, b: nat, blob: Blob)
    requires b < |blobs|
    ensures Charged(blobs[b := blob]) == Charged(blobs) - Charge(blobs[b]) + Charge(blob)
  {
    if b == 0 {
      assert blobs[0 := blob][1..] == blobs[1..];
    } else {
      ChargedPut(blobs[1..], b - 1, blob);
      assert blobs[b := blob][1..] == blobs[1..][b - 1 := blob];
    }
  }

  lemma {:induction false} ChargedAppend(blobs: seq<Blob>, blob: Blob)
    ensures Charged(blobs + [blob]) == Charged(blobs) + Charge(blob)
  {
    if blobs == [] {
      assert Charged([blob]) == Charge(blob) + Charged([]);
    } else {
      ChargedAppend(blobs[1..], blob);
      assert (blobs + [blob])[1..] == blobs[1..] + [blob];
    }
  }

  // ---- preservation --------------------------------------------------------

  lemma InitInv(workers: nat)
    ensures Inv(Init(workers))
  {
    hide Exits;
  }

  /** Whoever touches a header owns it: by a counted reference, or by having taken the count to 0. */
  lemma TargetLive(s: State, w: nat, a: Action)
    requires Inv(s) && Enabled(s, w, a) && Target(s, w, a).Some?
    ensures var b := Target(s, w, a).value;
            Live(s, b) && (s.blobs[b].refs > 0 || MustFree(s.pcs[w], b))
            && (a.NodeDecrement? ==> s.blobs[b].owner.Some?)
  {
    var b := Target(s, w, a).value;
    ExitsMove(s.pcs, w, s.pcs[w], b);
    hide Exits, Charged, DetachedFirst;
    assert FreerState(s, w);
    assert b < |s.blobs|;
    assert FreeState(s, b) && Counted(s, b);
  }

  lemma CountStep(s: State, w: nat, a: Action, b: nat)
    requires Enabled(s, w, a) && b < |s.blobs| && Counted(s, b)
    requires Target(s, w, a) == Some(b) && a.NodeDecrement? ==> s.blobs[b].owner.Some?
    ensures Counted(Step(s, w, a), b)
  {
    ExitsMove(s.pcs, w, PcAfter(s, w, a), b);
    hide Exits, Live, NodesAfter;
  }

  lemma StepCounts(s: State, w: nat, a: Action)
    requires Inv(s) && Enabled(s, w, a)
    ensures Counts(Step(s, w, a))
  {
    var s' := Step(s, w, a);
    if Target(s, w, a).Some? {
      TargetLive(s, w, a);
    }
    forall b: nat | b < |s'.blobs| ensures Counted(s', b) {
      if b < |s.blobs| {
        CountStep(s, w, a, b);
      } else {
        NobodyExits(s'.pcs, b);
      }
    }
    hide FreedOnce, Exits, Charged, Owners, DetachedFirst, Mutex, NodesAfter, PcAfter, HeaderAfter, Counted;
  }

  lemma StepKnown(s: State, w: nat, a: Action)
    requires Inv(s) && Enabled(s, w, a)
    ensures KnownRefs(Step(s, w, a))
  {
    if Target(s, w, a).Some? {
      TargetLive(s, w, a);
    }
    hide FreedOnce, Counts, Charged, Owners, DetachedFirst, Mutex, BytesRead, NodesAfter, PcAfter;
  }

  lemma StepMutex(s: State, w: nat, a: Action)
    requires Inv(s) && Enabled(s, w, a)
    ensures Mutex(Step(s, w, a))
  {
    hide Counts, KnownRefs, Owners, DetachedFirst, BytesRead, FreedOnce, Charged;
  }

  /** A step touches a header only while its count is positive, or as the one worker that must free it. */
  predicate MayTouch(s: State, w: nat, t: Option<nat>)
    requires w < |s.pcs|
  {
    t.Some? ==> Live(s, t.value) && (s.blobs[t.value].refs > 0 || MustFree(s.pcs[w], t.value))
  }

  lemma FreeStep(s: State, w: nat, a: Action, b: nat)
    requires Enabled(s, w, a) && b < |s.blobs| && FreeState(s, b) && FreerState(s, w) && MayTouch(s, w, Target(s, w, a))
    ensures FreeState(Step(s, w, a), b)
  {
    hide NodesAfter, HeldAfter;
    var h := s.blobs[b];
    var s' := Step(s, w, a);
    if h.last.Some? && h.frees == 0 && h.last.value != w {
      assert s'.pcs[h.last.value] == s.pcs[h.last.value];
    }
  }

  lemma FreerStep(s: State, w: nat, a: Action, v: nat)
    requires Enabled(s, w, a) && v < |s.pcs| && MayTouch(s, w, Target(s, w, a))
    requires FreerState(s, v) && FreerState(s, w) && forall b | 0 <= b < |s.blobs| :: FreeState(s, b)
    ensures FreerState(Step(s, w, a), v)
  {
    hide NodesAfter, HeldAfter;
    if v != w && Target(s, w, a).Some? {
      assert FreeState(s, Target(s, w, a).value);
    }
  }

  lemma StepFreedOnce(s: State, w: nat, a: Action)
    requires Inv(s) && Enabled(s, w, a)
    ensures FreedOnce(Step(s, w, a))
  {
    if Target(s, w, a).Some? {
      TargetLive(s, w, a);
    }
    var s' := Step(s, w, a);
    hide KnownRefs, DetachedFirst, BytesRead, Charged, Mutex, Owners, Exits, Counts;
    assert FreerState(s, w);
    forall b: nat | b < |s'.blobs| ensures FreeState(s', b) {
      if b < |s.blobs| {
        FreeStep(s, w, a, b);
      }
    }
    forall v: nat | v < |s'.pcs| ensures FreerState(s', v) {
      FreerStep(s, w, a, v);
    }
  }

  /** The holder's own step: one lemma for the steps that change node pointers, one for the others. */
  lemma PointerStep(s: State, w: nat, a: Action)
    requires Enabled(s, w, a) && OwnersAt(s.blobs, s.nodes, s.pcs[w]) && (a.Install? || a.DropPointer? || a.Alloc?)
    ensures OwnersAt(BlobsAfter(s, w, a), NodesAfter(s, w, a), PcAfter(s, w, a))
  {
  }

  lemma NodeDecrementStep(s: State, w: nat, a: Action)
    requires Enabled(s, w, a) && OwnersAt(s.blobs, s.nodes, s.pcs[w]) && a.NodeDecrement?
    ensures OwnersAt(BlobsAfter(s, w, a), s.nodes, PcAfter(s, w, a))
  {
    var pc, blobs := s.pcs[w], BlobsAfter(s, w, a);
    assert forall b | 0 <= b < |s.blobs| && b != pc.b :: blobs[b] == s.blobs[b];
    hide NodesAfter, BlobsAfter;
  }

  lemma HeaderStep(s: State, w: nat, a: Action)
    requires Enabled(s, w, a) && OwnersAt(s.blobs, s.nodes, s.pcs[w]) && HoldsMutex(s.pcs[w])
    requires !(a.Install? || a.DropPointer? || a.Alloc? || a.NodeDecrement?)
    ensures OwnersAt(BlobsAfter(s, w, a), s.nodes, PcAfter(s, w, a))
  {
    var blobs := BlobsAfter(s, w, a);
    assert forall b | 0 <= b < |s.blobs| :: blobs[b].owner == s.blobs[b].owner;
    OwnersFrame(s.blobs, blobs, s.nodes, s.pcs[w]);
    hide NodesAfter, BlobsAfter;
  }

  lemma OwnersFrame(blobs: seq<Blob>, blobs': seq<Blob>, nodes: map<nat, nat>, pc: Pc)
    requires OwnersAt(blobs, nodes, pc) && |blobs'| == |blobs|
    requires forall b | 0 <= b < |blobs| :: blobs'[b].owner == blobs[b].owner
    ensures OwnersAt(blobs', nodes, pc)
    ensures pc.Idle? ==> OwnersAt(blobs', nodes, Locked)
    ensures pc.Idle? ==> forall b, n :: OwnersAt(blobs', nodes, LastLocked(b, n))
  {
  }

  lemma StepOwners(s: State, w: nat, a: Action)
    requires Inv(s) && Enabled(s, w, a)
    ensures Owners(Step(s, w, a))
  {
    var s' := Step(s, w, a);
    StepMutex(s, w, a);
    hide Charged, Exits, Counts, FreedOnce, BytesRead, KnownRefs, DetachedFirst, OwnersAt;
    if HoldsMutex(s.pcs[w]) {
      assert Holder(s) == s.pcs[w];
      if a.Install? || a.DropPointer? || a.Alloc? {
        PointerStep(s, w, a);
      } else if a.NodeDecrement? {
        NodeDecrementStep(s, w, a);
      } else {
        HeaderStep(s, w, a);
      }
      assert Holder(s') == s'.pcs[w];
    } else {
      OwnersFrame(s.blobs, s'.blobs, s.nodes, Holder(s));
      assert s'.nodes == s.nodes;
    }
  }

  lemma DetachStep(s: State, w: nat, a: Action)
    requires Enabled(s, w, a) && DetachedAt(s.blobs, s.pcs[w]) && MayTouch(s, w, Target(s, w, a))
    ensures DetachedAt(BlobsAfter(s, w, a), PcAfter(s, w, a))
  {
    hide NodesAfter, MustFree;
  }

  lemma StepDetached(s: State, w: nat, a: Action)
    requires Inv(s) && Enabled(s, w, a)
    ensures DetachedFirst(Step(s, w, a))
  {
    var s' := Step(s, w, a);
    StepMutex(s, w, a);
    if Target(s, w, a).Some? {
      TargetLive(s, w, a);
    }
    hide Counts, KnownRefs, FreedOnce, Charged, BytesRead, NodesAfter, HeldAfter, OwnersAt, Exits, DetachedAt;
    if HoldsMutex(s.pcs[w]) {
      assert Holder(s) == s.pcs[w] && (a.Unlock? || Holder(s') == s'.pcs[w]);
      DetachStep(s, w, a);
    } else {
      assert forall b | 0 <= b < |s.blobs| ::
          s'.blobs[b].detached == s.blobs[b].detached && s'.blobs[b].owner == s.blobs[b].owner;
      assert Holder(s') == Holder(s) || (Holder(s) == Idle && !Holder(s').Marked?);
      DetachedFrame(s.blobs, s'.blobs, Holder(s), Holder(s'));
    }
  }

  lemma DetachedFrame(blobs: seq<Blob>, blobs': seq<Blob>, pc: Pc, pc': Pc)
    requires DetachedAt(blobs, pc) && |blobs'| == |blobs| && (pc' == pc || !pc'.Marked?)
    requires forall b | 0 <= b < |blobs| :: blobs'[b].owner == blobs[b].owner && blobs'[b].detached == blobs[b].detached
    ensures DetachedAt(blobs', pc')
  {
  }

  lemma BytesStep(s: State, w: nat, a: Action, v: nat)
    requires Enabled(s, w, a) && v < |s.pcs| && BytesAt(s.blobs, s.pcs[v]) && BytesAt(s.blobs, s.pcs[w])
    requires MayTouch(s, w, Target(s, w, a))
    ensures BytesAt(Step(s, w, a).blobs, Step(s, w, a).pcs[v])
  {
    hide NodesAfter, HeldAfter, MustFree;
  }

  lemma StepBytes(s: State, w: nat, a: Action)
    requires Inv(s) && Enabled(s, w, a)
    ensures BytesRead(Step(s, w, a)) && !Step(s, w, a).fault
  {
    if Target(s, w, a).Some? {
      TargetLive(s, w, a);
    }
    hide Counts, KnownRefs, FreedOnce, Charged, Owners, DetachedFirst, Mutex, NodesAfter, HeldAfter, BlobsAfter,
         PcAfter, BytesAt;
    forall v: nat | v < |s.pcs| ensures BytesAt(Step(s, w, a).blobs, Step(s, w, a).pcs[v]) {
      BytesStep(s, w, a, v);
    }
  }

  lemma StepUsed(s: State, w: nat, a: Action)
    requires Inv(s) && Enabled(s, w, a)
    ensures Step(s, w, a).used == Charged(Step(s, w, a).blobs)
  {
    var s' := Step(s, w, a);
    if a.Alloc? {
      ChargedAppend(s.blobs, s'.blobs[|s.blobs|]);
    }
    if Target(s, w, a).Some? {
      TargetLive(s, w, a);
      var b := Target(s, w, a).value;
      ChargedPut(s.blobs, b, s'.blobs[b]);
    }
    hide Counts, KnownRefs, FreedOnce, Charged, Owners, DetachedFirst, Mutex, NodesAfter, HeldAfter, PcAfter;
  }

  lemma StepInv(s: State, w: nat, a: Action)
    requires Inv(s) && Enabled(s, w, a)
    ensures Inv(Step(s, w, a))
  {
    StepCounts(s, w, a);
    StepKnown(s, w, a);
    StepMutex(s, w, a);
    StepFreedOnce(s, w, a);
    StepOwners(s, w, a);
    StepDetached(s, w, a);
    StepBytes(s, w, a);
    StepUsed(s, w, a);
  }

  // ---- every run -----------------------------------------------------------

  /** The state after the given steps, if each was enabled when its worker took it. */
  function Run(s: State, acts: seq<(nat, Action)>): Option<State>
    decreases |acts|
  {
    if acts == [] then Some(s)
    else if !Enabled(s, acts[0].0, acts[0].1) then None
    else Run(Step(s, acts[0].0, acts[0].1), acts[1..])
  }

  lemma {:induction false} RunInv(s: State, acts: seq<(nat, Action)>)
    requires Inv(s)
    ensures Run(s, acts).Some? ==> Inv(Run(s, acts).value)
    decreases |acts|
  {
    if acts == [] || !Enabled(s, acts[0].0, acts[0].1) {
    } else {
      StepInv(s, acts[0].0, acts[0].1);
      RunInv(Step(s, acts[0].0, acts[0].1), acts[1..]);
    }
  }

  /** What holds of every body: the count is exact, the slab goes once, and only after the count is 0. */
  predicate Sound(s: State, b: nat)
    requires b < |s.blobs|
  {
    var h := s.blobs[b];
    && h.refs == OwnerRefs(h) + s.held[b] + Exits(s.pcs, b)
    && h.frees <= 1
    && (h.refs > 0 ==> h.frees == 0)
    && (h.refs == 0 ==> h.detached && h.last.Some?)
  }

  lemma BodySound(s: State, b: nat)
    requires Inv(s) && b < |s.blobs|
    ensures Sound(s, b)
  {
    assert Counted(s, b) && FreeState(s, b);
    hide Charged, Exits, Owners, Mutex, BytesRead;
  }

  /** Any interleaving of any number of workers: counts exact, one free per body, no access after it. */
  lemma EveryRunIsSafe(workers: nat, acts: seq<(nat, Action)>)
    requires Run(Init(workers), acts).Some?
    ensures var s := Run(Init(workers), acts).value;
            && !s.fault
            && s.used == Charged(s.blobs)
            && forall b | 0 <= b < |s.blobs| :: Sound(s, b)
  {
    InitInv(workers);
    RunInv(Init(workers), acts);
    var s := Run(Init(workers), acts).value;
    hide Run, Init, Charged, Exits, Mutex, BytesRead, Owners;
    forall b: nat | b < |s.blobs| ensures Sound(s, b) {
      BodySound(s, b);
    }
  }

  /** Only the worker that took the count from 1 to 0 frees the slab, and it does so holding the mutex. */
  lemma OnlyTheLastFrees(s: State, w: nat, a: Action, b: nat)
    requires Inv(s) && Enabled(s, w, a) && b < |s.blobs| && Step(s, w, a).blobs[b].frees != s.blobs[b].frees
    ensures s.blobs[b].refs == 0 && s.blobs[b].last == Some(w) && s.mutex == Some(w)
    ensures s.blobs[b].frees == 0 && Step(s, w, a).used == s.used - s.blobs[b].bytes
  {
    TargetLive(s, w, a);
    assert FreerState(s, w) && FreeState(s, b);
    hide Charged, Exits, Counts, Owners;
  }

  /** When the last request is gone, exactly the bodies some node still shows are left, each charged once. */
  lemma NothingLeaks(s: State)
    requires Inv(s) && s.held == multiset{} && forall w | 0 <= w < |s.pcs| :: s.pcs[w].Idle?
    ensures forall b | 0 <= b < |s.blobs| :: s.blobs[b].frees == 1 <==> b !in s.nodes.Values
    ensures forall b | b in s.nodes.Values :: b < |s.blobs| && s.blobs[b].refs == 1
    ensures s.used == Charged(s.blobs)
  {
    forall b: nat | b < |s.blobs|
      ensures (s.blobs[b].frees == 1 <==> b !in s.nodes.Values) && (b in s.nodes.Values ==> s.blobs[b].refs == 1)
    {
      NobodyExits(s.pcs, b);
      hide Charged, Exits;
      assert Counted(s, b) && FreeState(s, b);
      if s.blobs[b].owner.Some? {
        assert s.nodes[s.blobs[b].owner.value] == b;
      }
    }
  }
}

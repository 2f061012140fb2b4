/**
 What a live negative memo means: a GET of that very key was answered with a definitive miss, less than the
 memo's lifetime ago. The zone side (which node operations touch a memo) meets the request side (on what
 evidence a request writes one); Corners.dfy holds the runs on which it means less than that.
 */
module Memo {
  import opened Options
  import opened AccessState
  import Lease

  /** The operations on one key's node, each at its own time; a memo is written by some request of some location. */
  datatype NodeOp =
    | ClaimAt(now: int, ttl: int, token: nat, room: bool)
    | UnstubAt(owner: nat, now: int)
    | StoreAt(len: nat, now: int, freshTtl: int, staleTtl: int, kind: Lease.Kind)
    | FreshenAt(now: int, freshTtl: int, staleTtl: int)
    | CountMissAt(window: int, now: int, room: bool)
    | DiceAt(now: int, ttl: int)
    | RememberAt(a: Arming, conf: Conf, uri: nat, room: bool)
    | Evict

  function After(n: Lease.Slot, op: NodeOp): Lease.Slot {
    match op
    case ClaimAt(now, ttl, token, room) => Lease.Claimed(n, now, ttl, token, room)
    case UnstubAt(owner, now) => Lease.Unstubbed(n, owner, now)
    case StoreAt(len, now, f, s, kind) => Some(Lease.Stored(n, len, now, f, s).value.(kind := kind))
    case FreshenAt(now, f, s) => Lease.Freshened(n, now, f, s)
    case CountMissAt(window, now, room) => Lease.Missed(n, window, now, room)
    case DiceAt(now, ttl) => if n.Some? then Some(n.value.(refreshing := true, lockUntil := now + ttl)) else n
    case RememberAt(a, conf, _, room) => Lease.NegSet(n, a.at, conf.l2NegativeTtl, room)
    case Evict => None
  }

  function History(ops: seq<NodeOp>): Lease.Slot {
    if ops == [] then None else After(History(ops[..|ops| - 1]), ops[|ops| - 1])
  }

  /** The deadline of the memo a node carries, 0 for none. */
  function Deadline(n: Lease.Slot): int { if n.Some? then n.value.negUntil else 0 }

  /** Nothing but l2_neg_set moves a memo's deadline; the rest keeps it or drops it. */
  lemma OnlyRememberMoves(n: Lease.Slot, op: NodeOp)
    requires !op.RememberAt?
    ensures Deadline(After(n, op)) == Deadline(n) || Deadline(After(n, op)) == 0
  {
  }

  /** Op i set the memo deadline d. */
  predicate Wrote(ops: seq<NodeOp>, i: nat, d: int) {
    i < |ops| && ops[i].RememberAt? && d == ops[i].a.at + ops[i].conf.l2NegativeTtl
  }

  /** Whatever happened to the node, a memo deadline it carries was set by one l2_neg_set. */
  lemma {:induction false} DeadlineHasWriter(ops: seq<NodeOp>)
    ensures Deadline(History(ops)) == 0 || exists i: nat :: Wrote(ops, i, Deadline(History(ops)))
    decreases |ops|
  {
    if ops == [] {
    } else {
      var front, op := ops[..|ops| - 1], ops[|ops| - 1];
      DeadlineHasWriter(front);
      var d, e := Deadline(History(front)), Deadline(History(ops));
      if op.RememberAt? && e != d {
        assert e == 0 || Wrote(ops, |ops| - 1, e);
      } else if !op.RememberAt? {
        OnlyRememberMoves(History(front), op);
      }
      if d != 0 && e == d {
        var i: nat :| Wrote(front, i, d);
        assert Wrote(ops, i, d);
      }
    }
  }

  /** Every memo on this node was written by a request, about the node's own key. */
  ghost predicate WrittenByRequests(ops: seq<NodeOp>, key: Key) {
    forall i | 0 <= i < |ops| && ops[i].RememberAt? :: ops[i].a.key == key && ByRequest(ops[i].a, ops[i].conf, ops[i].uri)
  }

  /**
   A live memo was written less than its lifetime ago. It stands for a real miss of its own key exactly when
   the writer had last sent that key, which without auto-Vary it always had; and the miss itself is less than the
   lifetime old unless an NX lock was answered in between, which without the fleet lock cannot be.
   */
  lemma LiveMemoMeansMiss(ops: seq<NodeOp>, key: Key, t: int)
    requires t >= 0 && Lease.Memo(History(ops), t) && WrittenByRequests(ops, key)
    ensures exists i: nat :: Wrote(ops, i, Deadline(History(ops))) && Evidence(ops[i].a, ops[i].conf, t)
  {
    DeadlineHasWriter(ops);
    var i: nat :| Wrote(ops, i, Deadline(History(ops)));
    MemoSays(ops[i].a, ops[i].conf, ops[i].uri);
  }

  predicate Evidence(a: Arming, conf: Conf, t: int) {
    && t < a.at + conf.l2NegativeTtl
    && (Honest(a) <==> SentForKey(a))
    && (!conf.autoVary ==> Honest(a))
    && (a.src.FromReply? && !Late(a) ==> t < a.src.at + conf.l2NegativeTtl)
    && (!conf.l2Lock ==> !Late(a))
  }

  /** Where neither auto-Vary nor the fleet lock is on, the plain promise holds of every memo. */
  lemma PlainMemoMeansMiss(ops: seq<NodeOp>, key: Key, t: int)
    requires t >= 0 && Lease.Memo(History(ops), t) && WrittenByRequests(ops, key)
    requires forall i | 0 <= i < |ops| && ops[i].RememberAt? :: !ops[i].conf.autoVary && !ops[i].conf.l2Lock
    ensures exists i :: 0 <= i < |ops| && ops[i].RememberAt?
                        && ops[i].a.src.FromReply? && ops[i].a.src.key == key && ops[i].a.src.result.Missing?
                        && t < ops[i].a.src.at + ops[i].conf.l2NegativeTtl
  {
    LiveMemoMeansMiss(ops, key, t);
  }
}

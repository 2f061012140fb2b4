/**
 Configuration inheritance. A location's settings are a fold of merges over the blocks around it, outermost
 first; the outermost (http) block is never merged itself, so its unset fields stay unset. None is "unset".
 */
module Conf {
  import opened Options

  function Or<T>(own: Option<T>, other: Option<T>): Option<T> {
    if own.Some? then own else other
  }

  function Get<T>(own: Option<T>, default: T): T {
    if own.Some? then own.value else default
  }

  // ---- the L2 backend ------------------------------------------------------

  const PREFIX := "ct:"

  /** redis_{addr, enable}, memcached, redis_{prefix, user, password, db, tls, tls_verify, tls_ca, tls_name}. */
  datatype L2 = L2(addr: Option<nat>, enable: Option<bool>, memcached: Option<bool>, prefix: Option<string>,
                   user: Option<string>, password: Option<string>, db: Option<int>, tls: Option<bool>,
                   tlsVerify: Option<bool>, ca: Option<string>, name: Option<string>)

  const UNSET := L2(None, None, None, None, None, None, None, None, None, None, None)

  datatype Flavour = NoBackend | Redis | Memcached

  /** Everything that identifies the backend in use. */
  datatype Identity = Identity(flavour: Flavour, addr: Option<nat>, prefix: string, user: string, password: string,
                               db: int, tls: bool, tlsVerify: bool, ca: string, name: string)

  /** The identity a block has when every unset field takes its default. */
  function Settled(l: L2): Identity {
    Identity(if !Get(l.enable, false) then NoBackend else if Get(l.memcached, false) then Memcached else Redis,
             l.addr, Get(l.prefix, PREFIX), Get(l.user, ""), Get(l.password, ""), Get(l.db, 0),
             Get(l.tls, false), Get(l.tlsVerify, true), Get(l.ca, ""), Get(l.name, ""))
  }

  /** What the two L2 directives leave in a block: nothing, or an address with the flavour spelled out. */
  predicate Written(l: L2) {
    l == UNSET || (l.addr.Some? && l.enable == Some(true) && l.memcached.Some?)
  }

  /** merge_l2_connknobs, then merge_l2_backend_identity. */
  function Merged(conf: L2, prev: L2): L2 {
    var enable := Some(Get(Or(conf.enable, prev.enable), false));
    var memcached := Some(Get(Or(conf.memcached, prev.memcached), false));
    var from := if conf.addr.Some? then conf else prev;
    L2(from.addr, enable, memcached,
       Some(Get(Or(conf.prefix, from.prefix), PREFIX)), Some(Get(Or(conf.user, from.user), "")),
       Some(Get(Or(conf.password, from.password), "")), Some(Get(Or(conf.db, from.db), 0)),
       Some(Get(Or(conf.tls, from.tls), false)), Some(Get(Or(conf.tlsVerify, from.tlsVerify), true)),
       Some(Get(Or(conf.ca, from.ca), "")), Some(Get(Or(conf.name, from.name), "")))
  }

  class LocConf {
    var l2: L2

    constructor ()
      ensures l2 == UNSET
    {
      l2 := UNSET;
    }

    /** cache_turbo_redis, with the parsed DSN and parameters; None for success, else the refusal. */
    method RedisConf(addr: nat, prefix: Option<string>, user: Option<string>, password: Option<string>, db: Option<int>,
                     tls: Option<bool>, tlsVerify: Option<bool>, ca: Option<string>, name: Option<string>)
      returns (refusal: Option<string>)
      requires Written(l2)
      modifies this
      ensures Written(l2) && (refusal.Some? <==> old(l2) != UNSET) && (refusal.Some? ==> l2 == old(l2))
      ensures refusal.None? ==>
                l2 == L2(Some(addr), Some(true), Some(false), prefix, user, password, db, tls, tlsVerify, ca, name)
    {
      if l2.memcached == Some(true) {
        return Some("mutually exclusive");
      }
      if l2.enable == Some(true) {
        return Some("is duplicate");
      }
      l2 := l2.(addr := Some(addr));
      l2 := l2.(prefix := prefix, user := user, password := password, db := db,
                tls := tls, tlsVerify := tlsVerify, ca := ca, name := name);
      l2 := l2.(enable := Some(true));
      l2 := l2.(memcached := Some(false));
      refusal := None;
    }

    method MemcachedConf(addr: nat, prefix: Option<string>) returns (refusal: Option<string>)
      requires Written(l2)
      modifies this
      ensures Written(l2) && (refusal.Some? <==> old(l2) != UNSET) && (refusal.Some? ==> l2 == old(l2))
      ensures refusal.None? ==> l2 == UNSET.(addr := Some(addr), enable := Some(true), memcached := Some(true), prefix := prefix)
    {
      if l2.enable == Some(true) && l2.memcached != Some(true) {
        return Some("mutually exclusive");
      }
      if l2.memcached == Some(true) {
        return Some("is duplicate");
      }
      l2 := l2.(addr := Some(addr), prefix := prefix);
      l2 := l2.(enable := Some(true), memcached := Some(true));
      refusal := None;
    }

    method MergeL2(prev: LocConf)
      requires prev != this
      modifies this
      ensures l2 == Merged(old(l2), prev.l2)
    {
      l2 := l2.(enable := Some(Get(Or(l2.enable, prev.l2.enable), false)));
      l2 := l2.(memcached := Some(Get(Or(l2.memcached, prev.l2.memcached), false)));
      if l2.addr.Some? {
        l2 := l2.(prefix := Some(Get(l2.prefix, PREFIX)), user := Some(Get(l2.user, "")),
                  password := Some(Get(l2.password, "")), db := Some(Get(l2.db, 0)), tls := Some(Get(l2.tls, false)),
                  tlsVerify := Some(Get(l2.tlsVerify, true)), ca := Some(Get(l2.ca, "")), name := Some(Get(l2.name, "")));
      } else {
        var p := prev.l2;
        l2 := l2.(addr := p.addr);
        l2 := l2.(prefix := Some(Get(Or(l2.prefix, p.prefix), PREFIX)));
        l2 := l2.(user := Some(Get(Or(l2.user, p.user), "")), password := Some(Get(Or(l2.password, p.password), "")),
                  db := Some(Get(Or(l2.db, p.db), 0)), tls := Some(Get(Or(l2.tls, p.tls), false)),
                  tlsVerify := Some(Get(Or(l2.tlsVerify, p.tlsVerify), true)), ca := Some(Get(Or(l2.ca, p.ca), "")),
                  name := Some(Get(Or(l2.name, p.name), "")));
      }
    }

    /** merge_l2_backend_vtables. */
    method Backend() returns (f: Flavour)
      ensures f == Settled(l2).flavour
    {
      if Get(l2.enable, false) {
        f := if Get(l2.memcached, false) then Memcached else Redis;
      } else {
        f := NoBackend;
      }
    }
  }

  /** The block a chain of nested blocks ends in, after all merges; outermost first. */
  function Chain(levels: seq<L2>): L2
    requires levels != []
  {
    if |levels| == 1 then levels[0] else Merged(levels[|levels| - 1], Chain(levels[..|levels| - 1]))
  }

  /** The innermost block that declares a backend. */
  function Innermost(levels: seq<L2>): L2 {
    if levels == [] then UNSET
    else if levels[|levels| - 1].addr.Some? then levels[|levels| - 1]
    else Innermost(levels[..|levels| - 1])
  }

  /** All of a location's backend identity comes from one block: the innermost that declares a backend. */
  lemma {:induction false} OneBlockDecides(levels: seq<L2>)
    requires levels != [] && forall l | l in levels :: Written(l)
    ensures Settled(Chain(levels)) == Settled(Innermost(levels))
  {
    var last, front := levels[|levels| - 1], levels[..|levels| - 1];
    assert Written(last);
    if |levels| == 1 {
      assert front == [];
      assert Innermost(front) == UNSET;
    } else {
      OneBlockDecides(front);
      MergeSettles(last, Chain(front));
    }
  }

  /** One merge: a declaring block keeps its own identity whole, any other takes the whole of its parent's. */
  lemma MergeSettles(conf: L2, prev: L2)
    requires Written(conf)
    ensures Settled(Merged(conf, prev)) == Settled(if conf.addr.Some? then conf else prev)
  {
  }

  // ---- preset knobs --------------------------------------------------------

  datatype Band = Band(valid: int, beta: int, lockTtl: int, staleMult: int, minUses: int)

  const PRESET_DEFAULT := 2

  function BandOf(preset: int): Band {
    if preset == 1 then Band(30, 500, 10, 2, 1)
    else if preset == 3 then Band(300, 3000, 3, 8, 2)
    else if preset == 4 then Band(1, 1000, 1, 2, 1)
    else Band(60, 1000, 5, 4, 1)
  }

  /** What the directives wrote (raw) and what the merge computes (effective). */
  datatype Knobs = Knobs(preset: Option<int>, valid: Option<int>, beta: Option<int>, lockTtl: Option<int>,
                         staleMult: Option<int>, minUses: Option<int>, effective: Band)

  function PresetOf(k: Knobs): Option<int> { k.preset }
  function ValidOf(k: Knobs): Option<int> { k.valid }
  function BetaOf(k: Knobs): Option<int> { k.beta }
  function LockTtlOf(k: Knobs): Option<int> { k.lockTtl }
  function StaleMultOf(k: Knobs): Option<int> { k.staleMult }
  function MinUsesOf(k: Knobs): Option<int> { k.minUses }

  function MergedKnobs(conf: Knobs, prev: Knobs): Knobs {
    var preset := Or(conf.preset, prev.preset);
    var band := BandOf(Get(preset, PRESET_DEFAULT));
    var k := Knobs(preset, Or(conf.valid, prev.valid), Or(conf.beta, prev.beta), Or(conf.lockTtl, prev.lockTtl),
                   Or(conf.staleMult, prev.staleMult), Or(conf.minUses, prev.minUses), conf.effective);
    k.(effective := Band(Get(k.valid, band.valid), Get(k.beta, band.beta), Get(k.lockTtl, band.lockTtl),
                         Get(k.staleMult, band.staleMult), Get(k.minUses, band.minUses)))
  }

  class PresetConf {
    var k: Knobs

    constructor (k: Knobs)
      ensures this.k == k
    {
      this.k := k;
    }

    method MergePresets(prev: PresetConf)
      requires prev != this
      modifies this
      ensures k == MergedKnobs(old(k), prev.k)
    {
      if k.preset.None? {
        k := k.(preset := prev.k.preset);
      }
      var p := if k.preset.None? then PRESET_DEFAULT else k.preset.value;
      var band := BandOf(p);
      k := k.(valid := Or(k.valid, prev.k.valid), beta := Or(k.beta, prev.k.beta), lockTtl := Or(k.lockTtl, prev.k.lockTtl),
              staleMult := Or(k.staleMult, prev.k.staleMult), minUses := Or(k.minUses, prev.k.minUses));
      var valid := if k.valid.None? then band.valid else k.valid.value;
      var beta := if k.beta.None? then band.beta else k.beta.value;
      var lockTtl := if k.lockTtl.None? then band.lockTtl else k.lockTtl.value;
      var staleMult := if k.staleMult.None? then band.staleMult else k.staleMult.value;
      var minUses := if k.minUses.None? then band.minUses else k.minUses.value;
      k := k.(effective := Band(valid, beta, lockTtl, staleMult, minUses));
    }
  }

  function KnobChain(levels: seq<Knobs>): Knobs
    requires levels != []
  {
    if |levels| == 1 then levels[0] else MergedKnobs(levels[|levels| - 1], KnobChain(levels[..|levels| - 1]))
  }

  /** The innermost setting of one directive, if any block has it. */
  function Nearest<T>(levels: seq<T>, directive: T -> Option<int>): Option<int> {
    if levels == [] then None else Or(directive(levels[|levels| - 1]), Nearest(levels[..|levels| - 1], directive))
  }

  /** A knob's promise: the nearest explicit value, else the band of the nearest preset, else the default band. */
  function Promised(levels: seq<Knobs>, directive: Knobs -> Option<int>, band: Band -> int): int {
    Get(Nearest(levels, directive), band(BandOf(Get(Nearest(levels, PresetOf), PRESET_DEFAULT))))
  }

  lemma {:induction false} NearestRaw(levels: seq<Knobs>)
    requires levels != []
    ensures var k := KnobChain(levels);
            && k.preset == Nearest(levels, PresetOf)
            && k.valid == Nearest(levels, ValidOf)
            && k.beta == Nearest(levels, BetaOf)
            && k.lockTtl == Nearest(levels, LockTtlOf)
            && k.staleMult == Nearest(levels, StaleMultOf)
            && k.minUses == Nearest(levels, MinUsesOf)
  {
    if |levels| == 1 {
    } else {
      NearestRaw(levels[..|levels| - 1]);
    }
  }

  /** Every knob of every merged block keeps the promise. */
  lemma KnobsKeepPromise(levels: seq<Knobs>)
    requires |levels| > 1
    ensures var k := KnobChain(levels).effective;
            && k.valid == Promised(levels, ValidOf, (b: Band) => b.valid)
            && k.beta == Promised(levels, BetaOf, (b: Band) => b.beta)
            && k.lockTtl == Promised(levels, LockTtlOf, (b: Band) => b.lockTtl)
            && k.staleMult == Promised(levels, StaleMultOf, (b: Band) => b.staleMult)
            && k.minUses == Promised(levels, MinUsesOf, (b: Band) => b.minUses)
  {
    NearestRaw(levels);
  }

  // ---- Retry-After ---------------------------------------------------------

  /** breaker_open and breaker_retry_after. */
  datatype Breaker = Breaker(open: Option<int>, retryAfter: Option<int>)

  const OPEN_DEFAULT := 30

  function OpenOf(b: Breaker): Option<int> { b.open }
  function RetryAfterOf(b: Breaker): Option<int> { b.retryAfter }

  function MergedBreaker(conf: Breaker, prev: Breaker): Breaker {
    Breaker(Some(Get(Or(conf.open, prev.open), OPEN_DEFAULT)), Or(conf.retryAfter, prev.retryAfter))
  }

  function BreakerChain(levels: seq<Breaker>): Breaker
    requires levels != []
  {
    if |levels| == 1 then levels[0] else MergedBreaker(levels[|levels| - 1], BreakerChain(levels[..|levels| - 1]))
  }

  /** What the 503 sends. */
  function RetryAfter(b: Breaker): int { Get(b.retryAfter, Get(b.open, OPEN_DEFAULT)) }

  /** The nearest explicit Retry-After, else the nearest open window, else thirty seconds. */
  lemma {:induction false} RetryAfterNearest(levels: seq<Breaker>)
    requires |levels| > 1
    ensures var open := Get(Nearest(levels, OpenOf), OPEN_DEFAULT);
            BreakerChain(levels).open == Some(open)
            && BreakerChain(levels).retryAfter == Nearest(levels, RetryAfterOf)
            && RetryAfter(BreakerChain(levels)) == Get(Nearest(levels, RetryAfterOf), open)
  {
    var front := levels[..|levels| - 1];
    if |levels| == 2 {
      assert front[..0] == [] && Nearest(front[..0], OpenOf) == Nearest(front[..0], RetryAfterOf) == None;
      assert Nearest(front, OpenOf) == levels[0].open && Nearest(front, RetryAfterOf) == levels[0].retryAfter;
    } else {
      RetryAfterNearest(front);
    }
  }

  // ---- Cache-Control mode ----------------------------------------------------

  datatype Mode = Respect | Honor | Ignore

  /** One block's backend presets (None: not set here; Some(false): "none") and its Cache-Control setting. */
  datatype Cc = Cc(presets: Option<bool>, mode: Option<Mode>)

  function MergedCc(conf: Cc, prev: Cc): Cc {
    var presets := Or(conf.presets, prev.presets);
    var mode := if presets == Some(true) && conf.mode.None? then Some(Honor) else conf.mode;
    Cc(presets, Some(Get(Or(mode, prev.mode), Respect)))
  }

  function CcChain(levels: seq<Cc>): Cc
    requires levels != []
  {
    if |levels| == 1 then levels[0] else MergedCc(levels[|levels| - 1], CcChain(levels[..|levels| - 1]))
  }

  function NearestMode(levels: seq<Cc>): Option<Mode> {
    if levels == [] then None else Or(levels[|levels| - 1].mode, NearestMode(levels[..|levels| - 1]))
  }

  /** Some merged block inside the nearest explicit setting has a preset in force. */
  predicate PresetInside(levels: seq<Cc>)
    requires levels != []
  {
    |levels| > 1 && levels[|levels| - 1].mode.None?
    && (CcChain(levels).presets == Some(true) || PresetInside(levels[..|levels| - 1]))
  }

  /** "Nearest explicit wins" holds exactly when it says honor, or no preset is in force inside it. */
  lemma {:induction false} NearestModeExactly(levels: seq<Cc>)
    requires |levels| > 1
    ensures var promised := Get(NearestMode(levels), Respect);
            && CcChain(levels).mode == Some(if PresetInside(levels) then Honor else promised)
            && (CcChain(levels).mode == Some(promised) <==> promised == Honor || !PresetInside(levels))
  {
    var front := levels[..|levels| - 1];
    if |levels| == 2 {
      assert front[..0] == [] && NearestMode(front[..0]) == None;
      assert NearestMode(front) == levels[0].mode && !PresetInside(front);
    } else {
      NearestModeExactly(front);
    }
  }

  /** The rule in one step: a preset in force and no setting of the block's own means honor, whatever is outside. */
  lemma PresetOverridesAncestor()
    ensures CcChain([Cc(None, Some(Ignore)), Cc(Some(true), None)]).mode == Some(Honor)
  {
    var levels := [Cc(None, Some(Ignore)), Cc(Some(true), None)];
    assert levels[..1] == [levels[0]];
  }
}

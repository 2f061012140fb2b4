/** The cache_turbo_backend directive: preset names separated by spaces or '|', closed under implication. */
module BackendNames {
  import opened Options
  import opened Splitting

  /** One row of the name table; several names may share a bit. NONE is the bit of the reserved name "none". */
  datatype Row = Row(name: string, bit: nat, implies: set<nat>)

  type Mask = set<nat>

  const NONE: nat := 63
  const WORDPRESS: nat := 0

  const NAMES: seq<Row> := [
    Row("wordpress", WORDPRESS, {}), Row("woocommerce", 1, {WORDPRESS}), Row("joomla", 2, {}), Row("xenforo", 3, {}),
    Row("discourse", 4, {}), Row("phpbb", 5, {}), Row("drupal", 6, {}), Row("mediawiki", 7, {}), Row("magento", 8, {}),
    Row("ghost", 9, {}), Row("wagtail", 10, {}), Row("kirby", 11, {}), Row("shopware6", 12, {}), Row("typo3", 13, {}),
    Row("invision", 14, {}), Row("smf", 15, {}), Row("vanilla", 16, {}), Row("punbb", 17, {}), Row("phorum", 18, {}),
    Row("yabb", 19, {}), Row("mybb", 20, {}), Row("vbulletin", 21, {}), Row("textpattern", 22, {}), Row("bludit", 23, {}),
    Row("spip", 24, {}), Row("bugzilla", 25, {}), Row("mantisbt", 26, {}), Row("mantis", 26, {}), Row("plone", 27, {}),
    Row("umbraco", 28, {}), Row("dotclear", 29, {}), Row("wikijs", 30, {}), Row("redmine", 31, {}), Row("flarum", 32, {}),
    Row("opencart", 33, {}), Row("nextjs", 34, {}), Row("servarr", 35, {}), Row("sonarr", 35, {}), Row("radarr", 35, {}),
    Row("lidarr", 35, {}), Row("calibre", 36, {}), Row("calibreweb", 37, {}), Row("calibre-web", 37, {}),
    Row("classicpress", WORDPRESS, {}), Row("backdrop", 6, {}), Row("none", NONE, {})]

  // ---- implication -----------------------------------------------------------

  /** Every named bit has what it implies. */
  predicate Closed(table: seq<Row>, m: Mask) {
    forall i | 0 <= i < |table| && table[i].bit in m :: table[i].implies <= m
  }

  /** Everything the table can add. */
  function Implied(table: seq<Row>): Mask {
    if table == [] then {} else table[0].implies + Implied(table[1..])
  }

  /** r is the least closed mask that holds m. */
  ghost predicate LeastClosure(table: seq<Row>, m: Mask, r: Mask) {
    m <= r && Closed(table, r) && forall c: Mask | m <= c && Closed(table, c) :: r <= c
  }

  lemma {:induction false} ImpliedHas(table: seq<Row>, i: nat)
    requires i < |table|
    ensures table[i].implies <= Implied(table)
  {
    if i == 0 {
    } else {
      ImpliedHas(table[1..], i - 1);
    }
  }

  /** expand_implies: sweep the table until a sweep adds nothing; each other sweep adds a bit it cannot run out of. */
  method ExpandImplies(table: seq<Row>, named: Mask) returns (mask: Mask)
    ensures LeastClosure(table, named, mask)
  {
    mask := named;
    var added := true;
    while added
      invariant named <= mask
      invariant forall c: Mask | named <= c && Closed(table, c) :: mask <= c
      invariant !added ==> Closed(table, mask)
      decreases Implied(table) - mask, added
    {
      added := false;
      ghost var before := mask;
      for i := 0 to |table|
        invariant named <= before <= mask && (added ==> Implied(table) - mask < Implied(table) - before)
        invariant !added ==> mask == before && forall j | 0 <= j < i && table[j].bit in mask :: table[j].implies <= mask
        invariant forall c: Mask | named <= c && Closed(table, c) :: mask <= c
      {
        if table[i].bit in mask && !(table[i].implies <= mask) {
          ImpliedHas(table, i);
          var b :| b in table[i].implies && b !in mask;
          assert b in Implied(table) - before && b !in Implied(table) - (mask + table[i].implies);
          mask := mask + table[i].implies;
          added := true;
        }
      }
    }
  }

  // ---- names -----------------------------------------------------------------

  /** The first row of that name decides; names do not contain the separator. */
  function BitOf(table: seq<Row>, name: string): Option<nat> {
    if table == [] then None
    else if table[0].name == name then Some(table[0].bit)
    else BitOf(table[1..], name)
  }

  method BackendBit(table: seq<Row>, name: string) returns (bit: Option<nat>)
    ensures bit == BitOf(table, name)
  {
    for i := 0 to |table|
      invariant BitOf(table, name) == BitOf(table[i..], name)
    {
      if table[i].name == name {
        return Some(table[i].bit);
      }
    }
    bit := None;
  }

  predicate Bar(c: char) { c == '|' }

  /** The bits of a list of names; None as soon as one is empty or unknown. */
  function Bits(table: seq<Row>, names: seq<string>): Option<Mask> {
    if names == [] then Some({})
    else if names[0] == "" || BitOf(table, names[0]).None? then None
    else Plus(BitOf(table, names[0]).value, Bits(table, names[1..]))
  }

  function Plus(bit: nat, rest: Option<Mask>): Option<Mask> {
    match rest case None => None case Some(m) => Some({bit} + m)
  }

  /** The names one argument stands for: none for a lone separator, or an empty argument. */
  function NamesOf(arg: string): seq<string> {
    if arg == "" || arg == "|" then [] else Segments(arg, 0, Bar)
  }

  function AllNames(args: seq<string>): seq<string> {
    if args == [] then [] else NamesOf(args[0]) + AllNames(args[1..])
  }

  /** Bits of names seen so far, then of the rest. */
  function Join(m: Mask, rest: Option<Mask>): Option<Mask> {
    match rest case None => None case Some(n) => Some(m + n)
  }

  lemma {:induction false} BitsConcat(table: seq<Row>, a: seq<string>, b: seq<string>)
    ensures Bits(table, a + b) == match Bits(table, a) case None => None case Some(m) => Join(m, Bits(table, b))
  {
    if a == [] {
      assert a + b == b;
      if Bits(table, b).Some? {
        assert {} + Bits(table, b).value == Bits(table, b).value;
      }
    } else {
      BitsConcat(table, a[1..], b);
      assert (a + b)[1..] == a[1..] + b && (a + b)[0] == a[0];
      if Bits(table, a).Some? && Bits(table, b).Some? {
        var bit, m, n := BitOf(table, a[0]).value, Bits(table, a[1..]).value, Bits(table, b).value;
        assert {bit} + (m + n) == {bit} + m + n;
      }
    }
  }

  /** What remains to be read from slice tok on, after reading that slice. */
  function Rest(table: seq<Row>, s: string, tok: nat, m: Mask): Option<Mask>
    requires tok <= |s|
  {
    Join(m, Bits(table, Segments(s, tok, Bar)))
  }

  lemma RestStep(table: seq<Row>, s: string, tok: nat, m: Mask)
    requires tok <= |s|
    ensures var p := Stop(s, tok, Bar);
            Rest(table, s, tok, m)
            == if p == tok || BitOf(table, s[tok..p]).None? || p + 1 == |s| then None
               else if p == |s| then Some(m + {BitOf(table, s[tok..p]).value})
               else Rest(table, s, p + 1, m + {BitOf(table, s[tok..p]).value})
  {
    var p := Stop(s, tok, Bar);
    var head, tail := s[tok..p], if p == |s| then [] else Segments(s, p + 1, Bar);
    assert Segments(s, tok, Bar) == [head] + tail by {
      assert p == |s| ==> s[tok..] == head && [head] + [] == [head];
    }
    assert |s[tok..p]| == p - tok;
    hide Stop, BitOf;
    assert ([head] + tail)[1..] == tail;
    assert p + 1 == |s| ==> tail == [""] && Bits(table, tail) == None by {
      if p + 1 == |s| {
        LastSegment(s, Bar);
      }
    }
    hide Segments;
    if BitOf(table, head).Some? && p > tok {
      JoinPlus(m, BitOf(table, head).value, Bits(table, tail));
      if p == |s| {
        assert Join(m + {BitOf(table, head).value}, Some({})) == Some(m + {BitOf(table, head).value} + {});
        assert m + {BitOf(table, head).value} + {} == m + {BitOf(table, head).value};
      }
    }
  }

  /** One argument, slice by slice. */
  method ParseArg(table: seq<Row>, arg: string) returns (r: Option<Mask>)
    ensures r == Bits(table, NamesOf(arg))
  {
    if arg == "|" || |arg| == 0 {
      return Some({});
    }
    var p, mask: Mask := 0, {};
    JoinNothing(Bits(table, Segments(arg, 0, Bar)));
    ghost var want := Bits(table, NamesOf(arg));
    assert want == Rest(table, arg, 0, {});
    hide Rest, Bits, Segments, NamesOf, BitOf;
    while p < |arg|
      invariant 0 <= p <= |arg|
      invariant p < |arg| ==> want == Rest(table, arg, p, mask)
      invariant p == |arg| ==> want == Some(mask)
    {
      var tok := p;
      RestStep(table, arg, tok, mask);
      while p < |arg| && arg[p] != '|'
        invariant tok <= p <= |arg| && Stop(arg, tok, Bar) == Stop(arg, p, Bar)
      {
        p := p + 1;
      }
      if p == tok {
        return None;
      }
      var bit := BackendBit(table, arg[tok..p]);
      if bit.None? {
        return None;
      }
      mask := mask + {bit.value};
      if p < |arg| {
        p := p + 1;
        if p == |arg| {
          return None;
        }
      }
    }
    r := Some(mask);
  }

  lemma JoinNothing(r: Option<Mask>)
    ensures Join({}, r) == r
  {
    if r.Some? {
      assert {} + r.value == r.value;
    }
  }

  lemma JoinPlus(m: Mask, bit: nat, r: Option<Mask>)
    ensures Join(m, Plus(bit, r)) == Join(m + {bit}, r)
  {
    if r.Some? {
      assert m + ({bit} + r.value) == m + {bit} + r.value;
    }
  }

  /** Everything but "none". */
  predicate HasBackend(m: Mask) { m - {NONE} != {} }

  /** "none" stands alone. */
  predicate Exclusive(m: Mask) { NONE in m ==> !HasBackend(m) }

  class LocConf {
    var presets: Mask

    constructor ()
      ensures presets == {}
    {
      presets := {};
    }

    /** The directive. On refusal the configuration is abandoned, so nothing is written. */
    method Backend(table: seq<Row>, args: seq<string>) returns (ok: bool)
      requires Closed(table, presets) && Exclusive(presets)
      modifies this
      ensures Closed(table, presets) && Exclusive(presets)
      ensures !ok ==> presets == old(presets)
      ensures ok ==> Bits(table, AllNames(args)).Some? && Bits(table, AllNames(args)).value != {}
                     && LeastClosure(table, old(presets) + Bits(table, AllNames(args)).value, presets)
      ensures Bits(table, AllNames(args)).None? || Bits(table, AllNames(args)).value == {} ==> !ok
      ensures ok <==> Bits(table, AllNames(args)).Some? && Bits(table, AllNames(args)).value != {}
                      && exists r: Mask :: LeastClosure(table, old(presets) + Bits(table, AllNames(args)).value, r)
                                           && Exclusive(r)
    {
      var mask: Mask := {};
      JoinNothing(Bits(table, AllNames(args)));
      for i := 0 to |args|
        invariant presets == old(presets)
        invariant Bits(table, AllNames(args)) == Join(mask, Bits(table, AllNames(args[i..])))
      {
        BitsConcat(table, NamesOf(args[i]), AllNames(args[i + 1..]));
        assert args[i..][0] == args[i] && args[i..][1..] == args[i + 1..];
        var r := ParseArg(table, args[i]);
        if r.None? {
          return false;
        }
        JoinJoin(mask, r.value, Bits(table, AllNames(args[i + 1..])));
        mask := mask + r.value;
      }
      assert args[|args|..] == [] && mask + {} == mask;
      if mask == {} {
        return false;
      }
      var full := ExpandImplies(table, mask);
      ClosureUnion(table, mask, full, presets);
      ghost var union := presets + mask;
      full := full + presets;
      if NONE in full && HasBackend(full) {
        forall r: Mask | LeastClosure(table, union, r) ensures r == full {
          LeastIsUnique(table, union, r, full);
        }
        return false;
      }
      presets := full;
      ok := true;
    }
  }

  lemma JoinJoin(m: Mask, n: Mask, r: Option<Mask>)
    ensures Join(m, Join(n, r)) == Join(m + n, r)
  {
    if r.Some? {
      assert m + (n + r.value) == m + n + r.value;
    }
  }

  lemma LeastIsUnique(table: seq<Row>, m: Mask, r: Mask, q: Mask)
    requires LeastClosure(table, m, r) && LeastClosure(table, m, q)
    ensures r == q
  {
  }

  /** Closing what is new and adding it to something closed closes the whole. */
  lemma ClosureUnion(table: seq<Row>, m: Mask, r: Mask, presets: Mask)
    requires LeastClosure(table, m, r) && Closed(table, presets)
    ensures LeastClosure(table, presets + m, r + presets)
  {
    forall i | 0 <= i < |table| && table[i].bit in r + presets ensures table[i].implies <= r + presets {
    }
    forall c: Mask | presets + m <= c && Closed(table, c) ensures r + presets <= c {
      assert m <= c;
    }
  }

  // ---- separators ------------------------------------------------------------

  /** "a|b", "a b" and "a | b" mean the same to the directive, inside any other arguments. */
  lemma SeparatorsAgree(pre: seq<string>, a: string, b: string, post: seq<string>)
    requires a != "" && b != "" && a != "|" && b != "|"
    ensures AllNames(pre + [a + "|" + b] + post) == AllNames(pre + [a, b] + post)
    ensures AllNames(pre + [a, "|", b] + post) == AllNames(pre + [a, b] + post)
  {
    hide AllNames, NamesOf;
    BarredNames(a, b);
    NamesSplit(pre, [a + "|" + b], post);
    NamesSplit(pre, [a, b], post);
    NamesSplit(pre, [a, "|", b], post);
    OneName(a + "|" + b);
    OneName(a);
    OneName(b);
    OneName("|");
    assert [a] + [b] == [a, b] && [a] + ["|"] == [a, "|"] && [a, "|"] + [b] == [a, "|", b];
    NamesConcat([a], [b]);
    NamesConcat([a], ["|"]);
    NamesConcat([a, "|"], [b]);
    assert NamesOf(a) + [] == NamesOf(a);
  }

  lemma BarredNames(a: string, b: string)
    requires a != "" && b != "" && a != "|" && b != "|"
    ensures NamesOf(a + "|" + b) == NamesOf(a) + NamesOf(b) && NamesOf("|") == []
  {
    hide Segments;
    JoinedSegments(a, '|', b, Bar);
    assert a + ['|'] + b == a + "|" + b && |a + "|" + b| > 1;
  }

  lemma OneName(a: string)
    ensures AllNames([a]) == NamesOf(a)
  {
    assert [a][1..] == [] && AllNames([a]) == NamesOf(a) + AllNames([]);
  }

  lemma {:induction false} NamesSplit(pre: seq<string>, mid: seq<string>, post: seq<string>)
    ensures AllNames(pre + mid + post) == AllNames(pre) + AllNames(mid) + AllNames(post)
  {
    NamesConcat(pre + mid, post);
    NamesConcat(pre, mid);
  }

  lemma {:induction false} NamesConcat(a: seq<string>, b: seq<string>)
    ensures AllNames(a + b) == AllNames(a) + AllNames(b)
  {
    if a == [] {
      assert a + b == b;
    } else {
      NamesConcat(a[1..], b);
      assert (a + b)[1..] == a[1..] + b && (a + b)[0] == a[0];
      hide NamesOf;
    }
  }

  /** Every empty slice is refused: a leading, a trailing or a doubled separator. */
  lemma {:induction false} EmptySliceRefused(table: seq<Row>, names: seq<string>)
    requires "" in names
    ensures Bits(table, names) == None
  {
    if names[0] == "" {
    } else {
      EmptySliceRefused(table, names[1..]);
    }
  }

  /** An argument has an empty slice exactly when two separators (or an end and a separator) meet. */
  lemma {:induction false} EmptySlices(s: string, i: nat)
    requires i <= |s|
    ensures "" in Segments(s, i, Bar)
            <==> (i == |s| || s[i] == '|' || s[|s| - 1] == '|'
                  || exists k :: i <= k < |s| - 1 && s[k] == '|' && s[k + 1] == '|')
    decreases |s| - i
  {
    var j := Stop(s, i, Bar);
    if j < |s| {
      EmptySlices(s, j + 1);
      var rest := Segments(s, j + 1, Bar);
      hide Segments, Stop;
      InCons("", s[i..j], rest);
      if j + 1 < |s| && s[j + 1] == '|' {
        assert s[j] == '|';
      }
    } else {
      InCons("", s[i..], []);
      assert [s[i..]] + [] == [s[i..]];
    }
  }
}

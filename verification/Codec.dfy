/**
 The CTB5 blob: a fixed 76-byte little-endian header, a block of role-tagged
 name/value entries, and a body. Writer, validator and entry iterator.
 */
module Codec {
  import opened Options
  import opened Bytes

  const MAGIC: u32 := 0x4354_4235
  const VERSION: u16 := 5
  const HDR_WIRE := 76
  const DATE_LEN: byte := 29
  const DATE_OFF := 45
  const ROLE_MAX := 3
  const FOREVER_TTL := 315_360_000

  /** The parsed header. `flags` is 32 bits wide in memory, 16 on the wire. */
  datatype Header = Header(flags: u32, status: u32, nheaders: u32, headersLen: u32, bodyLen: u32,
                           created: i64, freshTtl: u32, staleTtl: u32, sieTtl: u32)

  datatype Entry = Entry(role: byte, name: seq<byte>, value: seq<byte>)

  datatype Parsed = Parsed(header: Header, date: seq<byte>, entries: seq<Entry>, body: seq<byte>)

  // ---- flag bits -----------------------------------------------------------

  predicate OriginEncoded(flags: u32) { flags / 2 % 2 == 1 }

  function AeClass(flags: u32): nat { flags / 4 % 4 }

  predicate Vetted(flags: u32) { flags / 32 % 2 == 1 }

  function WithoutVetted(flags: u32): (f: u32) { flags - flags / 32 % 2 * 32 }

  // ---- what a blob means ---------------------------------------------------

  predicate PrintableDate(date: seq<byte>) {
    |date| == DATE_LEN as int && forall i | 0 <= i < |date| :: 0x20 <= date[i] <= 0x7E
  }

  /** The range rules the validator puts on the fields of a header. */
  predicate LegalFields(h: Header, now: int) {
    && 100 <= h.status <= 599
    && h.freshTtl <= h.staleTtl
    && (OriginEncoded(h.flags) <==> AeClass(h.flags) != 0)
    && 0 <= h.created <= now + FOREVER_TTL
  }

  predicate LegalEntry(e: Entry) {
    e.role <= ROLE_MAX && |e.name| < 0x1_0000_0000 && |e.value| < 0x1_0000_0000
  }

  predicate LegalEntries(es: seq<Entry>) {
    forall e | e in es :: LegalEntry(e)
  }

  function EntryBytes(e: Entry): seq<byte> {
    [e.role] + Le(|e.name|, 4) + e.name + Le(|e.value|, 4) + e.value
  }

  function EntriesBytes(es: seq<Entry>): seq<byte> {
    if es == [] then [] else EntryBytes(es[0]) + EntriesBytes(es[1..])
  }

  function FixedFields(h: Header): (s: seq<byte>)
    ensures |s| == 44
  {
    Le(MAGIC, 4) + Le(VERSION, 2) + Le(h.flags % 0x1_0000, 2) + Le(h.status, 4) + Le(h.nheaders, 4)
    + Le(h.headersLen, 4) + Le(h.bodyLen, 4) + Le(ToU64(h.created), 8)
    + Le(h.freshTtl, 4) + Le(h.staleTtl, 4) + Le(h.sieTtl, 4)
  }

  /** The 76 header bytes; the writer always leaves `reserved` at two zeroes, no reader looks at it. */
  function HeaderBytes(h: Header, date: seq<byte>, reserved: seq<byte>): (s: seq<byte>)
    requires |date| == DATE_LEN as int && |reserved| == 2
    ensures |s| == HDR_WIRE
  {
    FixedFields(h) + [DATE_LEN] + date + reserved
  }

  /** The header a writer stamps on this content. */
  predicate Describes(h: Header, es: seq<Entry>, body: seq<byte>) {
    h.flags < 0x1_0000 && h.nheaders == |es| && h.headersLen == |EntriesBytes(es)| && h.bodyLen == |body|
  }

  function Serialize(h: Header, date: seq<byte>, es: seq<Entry>, body: seq<byte>): seq<byte>
    requires |date| == DATE_LEN as int
  {
    HeaderBytes(h, date, [0, 0]) + EntriesBytes(es) + body
  }

  // ---- writer --------------------------------------------------------------

  method MemCpy(a: array<byte>, at: nat, s: seq<byte>)
    requires at + |s| <= a.Length
    modifies a
    ensures a[..at + |s|] == old(a[..at]) + s
    ensures forall i | at + |s| <= i < a.Length :: a[i] == old(a[i])
  {
    forall i | 0 <= i < |s| {
      a[at + i] := s[i];
    }
  }

  /** blob_hdr_write: `date` is what the time formatter rendered for h.created. */
  method HdrWrite(dst: array<byte>, h: Header, date: seq<byte>)
    requires dst.Length >= HDR_WIRE && |date| <= DATE_LEN as int
    modifies dst
    ensures |date| == DATE_LEN as int ==> dst[..HDR_WIRE] == HeaderBytes(h, date, [0, 0])
    ensures |date| != DATE_LEN as int ==> dst[44] == 0
    ensures forall i | HDR_WIRE <= i < dst.Length :: dst[i] == old(dst[i])
  {
    WriteFixed(dst, h);
    MemCpy(dst, DATE_OFF, date);
    assert dst[..44] == FixedFields(h) by {
      assert dst[..DATE_OFF][..44] == dst[..44];
    }
    if |date| == DATE_LEN as int {
      dst[44] := DATE_LEN;
    } else {
      dst[44] := 0;
    }
    dst[74] := 0;
    dst[75] := 0;
    assert dst[..44] == FixedFields(h);
    if |date| == DATE_LEN as int {
      assert dst[DATE_OFF..74] == date;
      assert dst[..HDR_WIRE] == dst[..44] + [dst[44]] + dst[DATE_OFF..74] + [dst[74], dst[75]];
    }
  }

  method WriteFixed(dst: array<byte>, h: Header)
    requires dst.Length >= HDR_WIRE
    modifies dst
    ensures dst[..44] == FixedFields(h)
    ensures forall i | 44 <= i < dst.Length :: dst[i] == old(dst[i])
  {
    hide Le;
    WriteFront(dst, h);
    ghost var front := dst[..24];
    PutU64(dst, 24, ToU64(h.created));
    PutU32(dst, 32, h.freshTtl);
    PutU32(dst, 36, h.staleTtl);
    PutU32(dst, 40, h.sieTtl);
    assert dst[..44] == front + Le(ToU64(h.created), 8) + Le(h.freshTtl, 4) + Le(h.staleTtl, 4) + Le(h.sieTtl, 4);
  }

  method WriteFront(dst: array<byte>, h: Header)
    requires dst.Length >= HDR_WIRE
    modifies dst
    ensures dst[..24] == Le(MAGIC, 4) + Le(VERSION, 2) + Le(h.flags % 0x1_0000, 2) + Le(h.status, 4)
                         + Le(h.nheaders, 4) + Le(h.headersLen, 4) + Le(h.bodyLen, 4)
    ensures forall i | 24 <= i < dst.Length :: dst[i] == old(dst[i])
  {
    hide Le;
    PutU32(dst, 0, MAGIC);
    PutU16(dst, 4, VERSION);
    PutU16(dst, 6, h.flags % 0x1_0000);
    PutU32(dst, 8, h.status);
    PutU32(dst, 12, h.nheaders);
    PutU32(dst, 16, h.headersLen);
    PutU32(dst, 20, h.bodyLen);
  }

  /** The measure pass: how many header-block bytes the entries need. */
  method MeasureEntries(es: seq<Entry>) returns (hdrBytes: nat)
    ensures hdrBytes == |EntriesBytes(es)|
  {
    hdrBytes := 0;
    for i := 0 to |es|
      invariant hdrBytes == |EntriesBytes(es[..i])|
    {
      hdrBytes := hdrBytes + 1 + 4 + |es[i].name| + 4 + |es[i].value|;
      EntriesAppend(es, i);
    }
    assert es[..|es|] == es;
  }

  method PutEntry(blob: array<byte>, at: nat, e: Entry) returns (w: nat)
    requires LegalEntry(e) && at + |EntryBytes(e)| <= blob.Length
    modifies blob
    ensures w == at + |EntryBytes(e)| && blob[..w] == old(blob[..at]) + EntryBytes(e)
    ensures forall i | w <= i < blob.Length :: blob[i] == old(blob[i])
  {
    hide Le;
    ghost var before := blob[..at];
    w := at;
    blob[w] := e.role;
    w := w + 1;
    assert blob[..w] == before + [e.role];
    PutU32(blob, w, |e.name|);
    w := w + 4;
    MemCpy(blob, w, e.name);
    w := w + |e.name|;
    PutU32(blob, w, |e.value|);
    w := w + 4;
    MemCpy(blob, w, e.value);
    w := w + |e.value|;
    EntryOnTop(before, e);
  }

  lemma EntryOnTop(s: seq<byte>, e: Entry)
    ensures s + [e.role] + Le(|e.name|, 4) + e.name + Le(|e.value|, 4) + e.value == s + EntryBytes(e)
  {
    hide Le;
  }

  /** The emit pass over the entries, starting right after the header. */
  method PutEntries(blob: array<byte>, es: seq<Entry>) returns (w: nat)
    requires LegalEntries(es) && HDR_WIRE + |EntriesBytes(es)| <= blob.Length
    modifies blob
    ensures w == HDR_WIRE + |EntriesBytes(es)|
    ensures blob[..w] == old(blob[..HDR_WIRE]) + EntriesBytes(es)
  {
    hide EntriesBytes, EntryBytes;
    ghost var front := blob[..HDR_WIRE];
    w := HDR_WIRE;
    NoEntries();
    assert es[..0] == [] && front + [] == front;
    for i := 0 to |es|
      invariant w == HDR_WIRE + |EntriesBytes(es[..i])| <= blob.Length
      invariant blob[..w] == front + EntriesBytes(es[..i])
    {
      EntriesAppend(es, i);
      EntriesRoom(es, i + 1);
      Associates(front, EntriesBytes(es[..i]), EntryBytes(es[i]));
      w := PutEntry(blob, w, es[i]);
    }
    assert es[..|es|] == es;
  }

  /** body_filter_blob_write: header, then every entry, then the body. */
  method BlobWrite(blob: array<byte>, h: Header, date: seq<byte>, es: seq<Entry>, body: seq<byte>)
    requires |date| == DATE_LEN as int && LegalEntries(es) && Describes(h, es, body)
    requires blob.Length == HDR_WIRE + h.headersLen + h.bodyLen
    modifies blob
    ensures blob[..] == Serialize(h, date, es, body)
  {
    HdrWrite(blob, h, date);
    var w := PutEntries(blob, es);
    MemCpy(blob, w, body);
    assert blob[..] == blob[..blob.Length];
  }

  lemma NoEntries()
    ensures EntriesBytes([]) == []
  {
  }

  lemma Associates(a: seq<byte>, b: seq<byte>, c: seq<byte>)
    ensures a + (b + c) == a + b + c
  {
  }

  lemma {:induction false} EntriesConcat(a: seq<Entry>, b: seq<Entry>)
    ensures EntriesBytes(a + b) == EntriesBytes(a) + EntriesBytes(b)
  {
    hide EntryBytes;
    if a == [] {
      assert a + b == b;
    } else {
      EntriesConcat(a[1..], b);
      assert (a + b)[1..] == a[1..] + b && (a + b)[0] == a[0];
      Associates(EntryBytes(a[0]), EntriesBytes(a[1..]), EntriesBytes(b));
    }
  }

  lemma EntriesAppend(es: seq<Entry>, i: nat)
    requires i < |es|
    ensures EntriesBytes(es[..i + 1]) == EntriesBytes(es[..i]) + EntryBytes(es[i])
  {
    assert es[..i + 1] == es[..i] + [es[i]];
    EntriesConcat(es[..i], [es[i]]);
    assert EntriesBytes([es[i]]) == EntryBytes(es[i]) + [];
  }

  lemma EntriesRoom(es: seq<Entry>, i: nat)
    requires i <= |es|
    ensures |EntriesBytes(es[..i])| <= |EntriesBytes(es)|
  {
    EntriesConcat(es[..i], es[i..]);
    assert es[..i] + es[i..] == es;
  }

  // ---- reader --------------------------------------------------------------

  function HeaderAt(b: seq<byte>): Header
    requires |b| >= HDR_WIRE
  {
    Header(GetU16(b, 6), GetU32(b, 8), GetU32(b, 12), GetU32(b, 16), GetU32(b, 20),
           ToI64(GetU64(b, 24)), GetU32(b, 32), GetU32(b, 36), GetU32(b, 40))
  }

  /** Decode the entry at p; None when the block ends or the entry does not fit before `end`. */
  function NextAt(b: seq<byte>, p: nat, end: nat): (r: Option<(Entry, nat)>)
    requires p <= end <= |b|
    ensures r.Some? ==> p + 9 <= r.value.1 <= end
  {
    if end - p < 9 || b[p] > ROLE_MAX then None
    else
      var nl: nat := GetU32(b, p + 1);
      if end - p - 5 < nl || end - p - 5 - nl < 4 then None
      else
        var vl: nat := GetU32(b, p + 5 + nl);
        if end - p - 9 - nl < vl then None
        else Some((Entry(b[p], b[p + 5..p + 5 + nl], b[p + 9 + nl..p + 9 + nl + vl]), p + 9 + nl + vl))
  }

  /** Exactly n entries from p on. */
  function WalkAt(b: seq<byte>, p: nat, end: nat, n: nat): Option<seq<Entry>>
    requires p <= end <= |b|
    decreases n
  {
    if n == 0 then Some([])
    else
      match NextAt(b, p, end)
      case None => None
      case Some((e, q)) => Prepend([e], WalkAt(b, q, end, n - 1))
  }

  function Prepend(es: seq<Entry>, r: Option<seq<Entry>>): Option<seq<Entry>> {
    match r case None => None case Some(rest) => Some(es + rest)
  }

  predicate FieldsOk(b: seq<byte>, now: int) {
    && |b| >= HDR_WIRE
    && GetU32(b, 0) == MAGIC && GetU16(b, 4) == VERSION
    && LegalFields(HeaderAt(b), now)
    && b[44] == DATE_LEN && PrintableDate(b[DATE_OFF..74])
    && HeaderAt(b).headersLen + HeaderAt(b).bodyLen <= |b| - HDR_WIRE
  }

  function Validate(b: seq<byte>, now: int): Option<Parsed> {
    if !FieldsOk(b, now) then None
    else
      var h := HeaderAt(b);
      var end: nat := HDR_WIRE + h.headersLen;
      match WalkAt(b, HDR_WIRE, end, h.nheaders)
      case None => None
      case Some(es) => Some(Parsed(h, b[DATE_OFF..74], es, b[end..end + h.bodyLen]))
  }

  /** blob_next_header: decode at p, advance past it. */
  method NextHeader(b: seq<byte>, p: nat, end: nat) returns (r: Option<Entry>, p': nat)
    requires p <= end <= |b|
    ensures p <= p' <= end
    ensures match NextAt(b, p, end)
            case None => r == None && p' == p
            case Some((e, q)) => r == Some(e) && p' == q
  {
    p' := p;
    if end - p' < 9 {
      return None, p;
    }
    var role := b[p'];
    p' := p' + 1;
    if role > ROLE_MAX {
      return None, p;
    }
    var nl: nat := GetU32(b, p');
    p' := p' + 4;
    if end - p' < nl {
      return None, p;
    }
    var name := b[p'..p' + nl];
    p' := p' + nl;
    if end - p' < 4 {
      return None, p;
    }
    var vl: nat := GetU32(b, p');
    p' := p' + 4;
    if end - p' < vl {
      return None, p;
    }
    r := Some(Entry(role, name, b[p'..p' + vl]));
    p' := p' + vl;
  }

  method DateIsPrintable(b: seq<byte>) returns (ok: bool)
    requires |b| >= HDR_WIRE
    ensures ok <==> PrintableDate(b[DATE_OFF..74])
  {
    ghost var date := b[DATE_OFF..74];
    for di := 0 to 29
      invariant forall i | 0 <= i < di :: 0x20 <= date[i] <= 0x7E
    {
      if b[DATE_OFF + di] < 0x20 || b[DATE_OFF + di] > 0x7E {
        assert date[di] == b[DATE_OFF + di];
        return false;
      }
    }
    ok := true;
  }

  /** The validating walk: n calls of the iterator, recording what each decoded. */
  method WalkEntries(b: seq<byte>, start: nat, end: nat, n: nat) returns (r: Option<seq<Entry>>)
    requires start <= end <= |b|
    ensures r == WalkAt(b, start, end, n)
  {
    hide NextAt;
    var p, es := start, [];
    PrependNothing(WalkAt(b, start, end, n));
    for i := 0 to n
      invariant start <= p <= end && |es| == i
      invariant WalkAt(b, start, end, n) == Prepend(es, WalkAt(b, p, end, n - i))
    {
      var e, q := NextHeader(b, p, end);
      if e == None {
        return None;
      }
      PrependMore(es, e.value, WalkAt(b, q, end, n - i - 1));
      p, es := q, es + [e.value];
    }
    assert es + [] == es;
    r := Some(es);
  }

  lemma PrependNothing(r: Option<seq<Entry>>)
    ensures Prepend([], r) == r
  {
    if r.Some? {
      assert [] + r.value == r.value;
    }
  }

  lemma PrependMore(es: seq<Entry>, e: Entry, r: Option<seq<Entry>>)
    ensures Prepend(es, Prepend([e], r)) == Prepend(es + [e], r)
  {
    if r.Some? {
      assert es + ([e] + r.value) == es + [e] + r.value;
    }
  }

  method CheckFields(b: seq<byte>, now: int) returns (ok: bool)
    ensures ok <==> FieldsOk(b, now)
  {
    if |b| < HDR_WIRE || GetU32(b, 0) != MAGIC || GetU16(b, 4) != VERSION {
      return false;
    }
    var h := HeaderAt(b);
    if h.status < 100 || h.status > 599 || h.staleTtl < h.freshTtl {
      return false;
    }
    if OriginEncoded(h.flags) != (AeClass(h.flags) != 0) {
      return false;
    }
    if h.created < 0 || h.created > now + FOREVER_TTL || b[44] != DATE_LEN {
      return false;
    }
    ok := DateIsPrintable(b);
    if h.headersLen > |b| - HDR_WIRE || h.bodyLen > |b| - HDR_WIRE - h.headersLen {
      ok := false;
    }
  }

  /** blob_validate: field checks, the nheaders pre-check, then the one walk. */
  method BlobValidate(b: seq<byte>, now: int) returns (r: Option<Parsed>)
    ensures r == Validate(b, now)
  {
    var ok := CheckFields(b, now);
    if !ok {
      return None;
    }
    var h := HeaderAt(b);
    var end: nat := HDR_WIRE + h.headersLen;
    if h.nheaders > h.headersLen / 9 {
      PreCheckOnlyRejectsBadWalks(b, HDR_WIRE, end, h.nheaders);
      return None;
    }
    var es := WalkEntries(b, HDR_WIRE, end, h.nheaders);
    if es == None {
      return None;
    }
    r := Some(Parsed(h, b[DATE_OFF..74], es.value, b[end..end + h.bodyLen]));
  }

  // ---- the verdict is exact ------------------------------------------------

  /** A block that decodes to n entries is those n entries' bytes, then slack. */
  lemma {:induction false} WalkSound(b: seq<byte>, p: nat, end: nat, n: nat)
    requires p <= end <= |b| && WalkAt(b, p, end, n).Some?
    ensures var es := WalkAt(b, p, end, n).value;
            |es| == n && LegalEntries(es) && EntriesBytes(es) <= b[p..end]
    decreases n
  {
    hide NextAt, EntryBytes, LegalEntry;
    if n == 0 {
    } else {
      var (e, q) := NextAt(b, p, end).value;
      NextSound(b, p, end);
      WalkSound(b, q, end, n - 1);
      var rest := WalkAt(b, q, end, n - 1).value;
      assert ([e] + rest)[1..] == rest;
      assert b[p..end] == EntryBytes(e) + b[q..end];
      var tail := EntriesBytes(rest);
      assert EntryBytes(e) + tail <= EntryBytes(e) + b[q..end] by {
        assert (EntryBytes(e) + b[q..end])[..|EntryBytes(e) + tail|] == EntryBytes(e) + b[q..end][..|tail|];
      }
    }
  }

  lemma FiveParts(b: seq<byte>, p: nat, i: nat, j: nat, k: nat, q: nat)
    requires p < i <= j <= k <= q <= |b|
    ensures b[p..q] == [b[p]] + b[p + 1..i] + b[i..j] + b[j..k] + b[k..q]
  {
  }

  lemma NextSound(b: seq<byte>, p: nat, end: nat)
    requires p <= end <= |b| && NextAt(b, p, end).Some?
    ensures var (e, q) := NextAt(b, p, end).value;
            LegalEntry(e) && b[p..q] == EntryBytes(e)
  {
    hide Le, UnLe, GetU32;
    var (e, q) := NextAt(b, p, end).value;
    var nl: nat := GetU32(b, p + 1);
    var vl: nat := GetU32(b, p + 5 + nl);
    GetU32Reads(b, p + 1);
    GetU32Reads(b, p + 5 + nl);
    LeOfUnLe(b[p + 1..p + 5]);
    LeOfUnLe(b[p + 5 + nl..p + 9 + nl]);
    FiveParts(b, p, p + 5, p + 5 + nl, p + 9 + nl, q);
  }

  /** A window that starts with the bytes of a list starts with its first entry, and goes on with the others. */
  lemma FirstEntry(b: seq<byte>, p: nat, end: nat, es: seq<Entry>)
    requires p <= end <= |b| && es != [] && EntriesBytes(es) <= b[p..end]
    ensures var q := p + |EntryBytes(es[0])|;
            q <= end && b[p..q] == EntryBytes(es[0]) && EntriesBytes(es[1..]) <= b[q..end]
  {
    hide EntryBytes;
    var head, rest := EntryBytes(es[0]), EntriesBytes(es[1..]);
    var q := p + |head|;
    assert EntriesBytes(es) == head + rest;
    assert b[p..q] == b[p..end][..|head|] == head;
    assert b[q..end] == b[p..end][|head|..];
    assert (head + rest)[|head|..] == rest;
  }

  lemma WalkNone(b: seq<byte>, p: nat, end: nat)
    requires p <= end <= |b|
    ensures WalkAt(b, p, end, 0) == Some([])
  {
  }

  lemma WalkOne(b: seq<byte>, p: nat, end: nat, es: seq<Entry>)
    requires p <= end <= |b| && es != [] && NextAt(b, p, end).Some? && NextAt(b, p, end).value.0 == es[0]
    requires WalkAt(b, NextAt(b, p, end).value.1, end, |es| - 1) == Some(es[1..])
    ensures WalkAt(b, p, end, |es|) == Some(es)
  {
    hide NextAt;
    assert [es[0]] + es[1..] == es;
  }

  /** A block that starts with the bytes of es decodes to exactly es. */
  lemma {:induction false} WalkComplete(b: seq<byte>, p: nat, end: nat, es: seq<Entry>)
    requires p <= end <= |b| && LegalEntries(es) && EntriesBytes(es) <= b[p..end]
    ensures WalkAt(b, p, end, |es|) == Some(es)
    decreases es
  {
    hide EntryBytes, EntriesBytes, NextAt, LegalEntry, WalkAt;
    if es == [] {
      WalkNone(b, p, end);
    } else {
      var q := p + |EntryBytes(es[0])|;
      FirstEntry(b, p, end, es);
      assert es[0] in es;
      NextComplete(b, p, end, es[0]);
      WalkComplete(b, q, end, es[1..]);
      WalkOne(b, p, end, es);
    }
  }

  lemma WindowParts(b: seq<byte>, p: nat, r: byte, x: seq<byte>, y: seq<byte>, z: seq<byte>, w: seq<byte>)
    requires p + 1 + |x| + |y| + |z| + |w| <= |b|
    requires b[p..p + 1 + |x| + |y| + |z| + |w|] == [r] + x + y + z + w
    ensures b[p] == r && b[p + 1..][..|x|] == x && b[p + 1 + |x|..][..|y|] == y
    ensures b[p + 1 + |x| + |y|..][..|z|] == z && b[p + 1 + |x| + |y| + |z|..][..|w|] == w
  {
    var s := [r] + x + y + z + w;
    assert b[p] == b[p..p + |s|][0] == s[0];
    assert s == [r] + x + (y + z + w);
    WindowPart(b, p, [r], x, y + z + w);
    assert s == ([r] + x) + y + (z + w);
    WindowPart(b, p, [r] + x, y, z + w);
    WindowPart(b, p, [r] + x + y, z, w);
    assert s == ([r] + x + y + z) + w + [];
    WindowPart(b, p, [r] + x + y + z, w, []);
  }

  lemma WindowPart(b: seq<byte>, p: nat, pre: seq<byte>, x: seq<byte>, post: seq<byte>)
    requires p + |pre| + |x| + |post| <= |b| && b[p..p + |pre| + |x| + |post|] == pre + x + post
    ensures b[p + |pre|..][..|x|] == x
  {
    var s := pre + x + post;
    forall i | 0 <= i < |x| ensures b[p + |pre| + i] == x[i] {
      assert b[p..p + |s|][|pre| + i] == s[|pre| + i];
    }
  }

  lemma SubSlice(b: seq<byte>, p: nat, q: nat, i: nat, j: nat)
    requires p <= q <= |b| && i <= j <= q - p
    ensures b[p..q][i..j] == b[p + i..p + j]
  {
    assert forall k | 0 <= k < j - i :: b[p..q][i..j][k] == b[p + i..p + j][k];
  }

  lemma NextComplete(b: seq<byte>, p: nat, end: nat, e: Entry)
    requires LegalEntry(e) && p + |EntryBytes(e)| <= end <= |b|
    requires b[p..p + |EntryBytes(e)|] == EntryBytes(e)
    ensures NextAt(b, p, end) == Some((e, p + |EntryBytes(e)|))
  {
    hide Le, GetU32;
    var nl, vl := |e.name|, |e.value|;
    WindowParts(b, p, e.role, Le(nl, 4), e.name, Le(vl, 4), e.value);
    LengthReads(b, p + 1, nl);
    LengthReads(b, p + 5 + nl, vl);
    NextFromParts(b, p, end, e, nl, vl);
  }

  lemma NextFromParts(b: seq<byte>, p: nat, end: nat, e: Entry, nl: nat, vl: nat)
    requires LegalEntry(e) && p + 9 + nl + vl <= end <= |b|
    requires GetU32(b, p + 1) == nl && GetU32(b, p + 5 + nl) == vl
    requires b[p] == e.role && b[p + 5..][..nl] == e.name && b[p + 9 + nl..][..vl] == e.value
    ensures NextAt(b, p, end) == Some((e, p + 9 + nl + vl))
  {
    assert b[p + 5..][..nl] == b[p + 5..p + 5 + nl];
    assert b[p + 9 + nl..][..vl] == b[p + 9 + nl..p + 9 + nl + vl];
  }

  lemma LengthReads(b: seq<byte>, at: nat, n: nat)
    requires at + 4 <= |b| && n < 0x1_0000_0000 && b[at..][..4] == Le(n, 4)
    ensures GetU32(b, at) == n
  {
    assert b[at..][..4] == b[at..at + 4];
    Spans();
    UnLeOfLe(n, 4);
    GetU32Reads(b, at);
  }

  /** The guard in front of the walk rejects nothing the walk itself would accept. */
  lemma {:induction false} PreCheckOnlyRejectsBadWalks(b: seq<byte>, p: nat, end: nat, n: nat)
    requires p <= end <= |b|
    ensures WalkAt(b, p, end, n).Some? ==> n <= (end - p) / 9
    decreases n
  {
    if n == 0 || WalkAt(b, p, end, n).None? {
    } else {
      var (e, q) := NextAt(b, p, end).value;
      PreCheckOnlyRejectsBadWalks(b, q, end, n - 1);
    }
  }

  lemma Field16(b: seq<byte>, at: nat, v: u16)
    requires at + 2 <= |b|
    ensures b[at..at + 2] == Le(v, 2) <==> GetU16(b, at) == v
  {
    Spans();
    GetU16Reads(b, at);
    UnLeOfLe(v, 2);
    LeOfUnLe(b[at..at + 2]);
  }

  lemma Field32(b: seq<byte>, at: nat, v: u32)
    requires at + 4 <= |b|
    ensures b[at..at + 4] == Le(v, 4) <==> GetU32(b, at) == v
  {
    Spans();
    GetU32Reads(b, at);
    UnLeOfLe(v, 4);
    LeOfUnLe(b[at..at + 4]);
  }

  lemma Field64(b: seq<byte>, at: nat, v: i64)
    requires at + 8 <= |b|
    ensures b[at..at + 8] == Le(ToU64(v), 8) <==> ToI64(GetU64(b, at)) == v
  {
    Spans();
    GetU64Reads(b, at);
    UnLeOfLe(ToU64(v), 8);
    LeOfUnLe(b[at..at + 8]);
  }

  /** The fields of a header, one by one, as they sit in the buffer. */
  predicate Laid(b: seq<byte>, h: Header)
    requires |b| >= HDR_WIRE
  {
    && b[0..4] == Le(MAGIC, 4) && b[4..6] == Le(VERSION, 2) && b[6..8] == Le(h.flags % 0x1_0000, 2)
    && b[8..12] == Le(h.status, 4) && b[12..16] == Le(h.nheaders, 4) && b[16..20] == Le(h.headersLen, 4)
    && b[20..24] == Le(h.bodyLen, 4) && b[24..32] == Le(ToU64(h.created), 8)
    && b[32..36] == Le(h.freshTtl, 4) && b[36..40] == Le(h.staleTtl, 4) && b[40..44] == Le(h.sieTtl, 4)
  }

  lemma LaidIsFixed(b: seq<byte>, h: Header)
    requires |b| >= HDR_WIRE
    ensures Laid(b, h) <==> b[..44] == FixedFields(h)
  {
    assert b[..44] == b[0..4] + b[4..6] + b[6..8] + b[8..12] + b[12..16] + b[16..20] + b[20..24] + b[24..32]
                      + b[32..36] + b[36..40] + b[40..44];
    if b[..44] == FixedFields(h) {
      var f := FixedFields(h);
      assert f[0..4] == Le(MAGIC, 4) && f[4..6] == Le(VERSION, 2) && f[6..8] == Le(h.flags % 0x1_0000, 2);
      assert f[8..12] == Le(h.status, 4) && f[12..16] == Le(h.nheaders, 4) && f[16..20] == Le(h.headersLen, 4);
      assert f[20..24] == Le(h.bodyLen, 4) && f[24..32] == Le(ToU64(h.created), 8);
      assert f[32..36] == Le(h.freshTtl, 4) && f[36..40] == Le(h.staleTtl, 4) && f[40..44] == Le(h.sieTtl, 4);
      forall i, j | 0 <= i <= j <= 44 ensures b[i..j] == b[..44][i..j] {
        SubSlice(b, 0, 44, i, j);
        assert b[0..44] == b[..44];
      }
    }
  }

  /** The bytes of a header parse back to that header, and only those bytes do. */
  lemma HeaderParses(b: seq<byte>, h: Header)
    requires |b| >= HDR_WIRE && h.flags < 0x1_0000
    ensures b[..44] == FixedFields(h)
            <==> GetU32(b, 0) == MAGIC && GetU16(b, 4) == VERSION && HeaderAt(b) == h
  {
    hide Le, GetU16, GetU32, GetU64, ToI64, ToU64, FixedFields;
    LaidIsFixed(b, h);
    Field32(b, 0, MAGIC); Field16(b, 4, VERSION); Field16(b, 6, h.flags % 0x1_0000); Field32(b, 8, h.status);
    Field32(b, 12, h.nheaders); Field32(b, 16, h.headersLen); Field32(b, 20, h.bodyLen);
    Field64(b, 24, h.created);
    Field32(b, 32, h.freshTtl); Field32(b, 36, h.staleTtl); Field32(b, 40, h.sieTtl);
  }

  /** The whole of what a blob may be: header, entries, slack, body, ignored tail. */
  predicate IsBlob(b: seq<byte>, now: int, p: Parsed, reserved: seq<byte>, slack: seq<byte>, tail: seq<byte>) {
    && PrintableDate(p.date) && |reserved| == 2
    && LegalFields(p.header, now) && LegalEntries(p.entries) && p.header.flags < 0x1_0000
    && p.header.nheaders == |p.entries|
    && p.header.headersLen == |EntriesBytes(p.entries)| + |slack|
    && p.header.bodyLen == |p.body|
    && b == HeaderBytes(p.header, p.date, reserved) + EntriesBytes(p.entries) + slack + p.body + tail
  }

  /** The validator accepts exactly the blobs, and reads each the only way it can be read. */
  lemma ValidateExact(b: seq<byte>, now: int, p: Parsed)
    ensures Validate(b, now) == Some(p) <==> exists reserved, slack, tail :: IsBlob(b, now, p, reserved, slack, tail)
  {
    if Validate(b, now) == Some(p) {
      AcceptedIsBlob(b, now, p);
    }
    if r, s, t :| IsBlob(b, now, p, r, s, t) {
      BlobIsAccepted(b, now, p, r, s, t);
    }
  }

  lemma AcceptedIsBlob(b: seq<byte>, now: int, p: Parsed)
    requires Validate(b, now) == Some(p)
    ensures exists reserved, slack, tail :: IsBlob(b, now, p, reserved, slack, tail)
  {
    hide HeaderBytes, EntriesBytes, WalkAt, HeaderAt;
    var h := HeaderAt(b);
    var end: nat := HDR_WIRE + h.headersLen;
    var stop: nat := end + h.bodyLen;
    WalkSound(b, HDR_WIRE, end, h.nheaders);
    var w := HDR_WIRE + |EntriesBytes(p.entries)|;
    assert b[HDR_WIRE..w] == EntriesBytes(p.entries) by {
      assert b[HDR_WIRE..end][..w - HDR_WIRE] == b[HDR_WIRE..w];
    }
    HeadOf(b, h);
    Reassemble(b, HDR_WIRE, w, end, stop);
    assert IsBlob(b, now, p, b[74..76], b[w..end], b[stop..]);
  }

  lemma HeadOf(b: seq<byte>, h: Header)
    requires |b| >= HDR_WIRE && b[44] == DATE_LEN && h == HeaderAt(b)
    requires GetU32(b, 0) == MAGIC && GetU16(b, 4) == VERSION
    ensures b[..HDR_WIRE] == HeaderBytes(h, b[DATE_OFF..74], b[74..76]) && h.flags < 0x1_0000
  {
    HeaderParses(b, h);
    assert b[..HDR_WIRE] == b[..44] + [b[44]] + b[DATE_OFF..74] + b[74..76];
  }

  lemma Reassemble(b: seq<byte>, i: nat, j: nat, k: nat, l: nat)
    requires i <= j <= k <= l <= |b|
    ensures b == b[..i] + b[i..j] + b[j..k] + b[k..l] + b[l..]
  {
  }

  lemma BlobIsAccepted(b: seq<byte>, now: int, p: Parsed, reserved: seq<byte>, slack: seq<byte>, tail: seq<byte>)
    requires IsBlob(b, now, p, reserved, slack, tail)
    ensures Validate(b, now) == Some(p)
  {
    hide HeaderBytes, EntriesBytes, WalkAt, HeaderAt;
    var h := p.header;
    var head := HeaderBytes(h, p.date, reserved);
    var entries := EntriesBytes(p.entries);
    var end: nat := HDR_WIRE + h.headersLen;
    Pieces(b, head, entries + slack, p.body, tail);
    ReadHead(b, h, p.date, reserved);
    assert b[HDR_WIRE..end] == entries + slack;
    WalkComplete(b, HDR_WIRE, end, p.entries);
  }

  lemma Pieces(b: seq<byte>, x: seq<byte>, y: seq<byte>, z: seq<byte>, t: seq<byte>)
    requires b == x + y + z + t
    ensures b[..|x|] == x && b[|x|..|x| + |y|] == y && b[|x| + |y|..|x| + |y| + |z|] == z
  {
  }

  lemma ReadHead(b: seq<byte>, h: Header, date: seq<byte>, reserved: seq<byte>)
    requires |b| >= HDR_WIRE && h.flags < 0x1_0000 && |date| == DATE_LEN as int && |reserved| == 2
    requires b[..HDR_WIRE] == HeaderBytes(h, date, reserved)
    ensures GetU32(b, 0) == MAGIC && GetU16(b, 4) == VERSION && HeaderAt(b) == h
    ensures b[44] == DATE_LEN && b[DATE_OFF..74] == date
  {
    var head := b[..HDR_WIRE];
    assert head[..44] == FixedFields(h) && head[44] == DATE_LEN && head[DATE_OFF..74] == date;
    assert head[..44] == b[..44] && head[44] == b[44] && head[DATE_OFF..74] == b[DATE_OFF..74];
    HeaderParses(b, h);
  }

  /** Serialise-then-validate is the identity, on every legal header, entry list and body. */
  lemma SerializeValidates(h: Header, date: seq<byte>, es: seq<Entry>, body: seq<byte>, now: int)
    requires LegalFields(h, now) && PrintableDate(date) && LegalEntries(es) && Describes(h, es, body)
    ensures Validate(Serialize(h, date, es, body), now) == Some(Parsed(h, date, es, body))
  {
    var b := Serialize(h, date, es, body);
    assert b == HeaderBytes(h, date, [0, 0]) + EntriesBytes(es) + [] + body + [];
    BlobIsAccepted(b, now, Parsed(h, date, es, body), [0, 0], [], []);
  }

  /** Truncation and trailing bytes: what is accepted depends on the declared extent and nothing after it. */
  lemma PrefixVerdict(b: seq<byte>, now: int, n: nat, junk: seq<byte>)
    requires Validate(b, now).Some? && n <= |b|
    ensures var h := HeaderAt(b);
            Validate(b[..n], now) == if n >= HDR_WIRE + h.headersLen + h.bodyLen then Validate(b, now) else None
    ensures Validate(b + junk, now) == Validate(b, now)
  {
    hide HeaderBytes, EntriesBytes, WalkAt, HeaderAt;
    var p := Validate(b, now).value;
    AcceptedIsBlob(b, now, p);
    var r, s, t :| IsBlob(b, now, p, r, s, t);
    Retail(b, now, p, r, s, t, t + junk);
    if n >= |b| - |t| {
      Retail(b, now, p, r, s, t, t[..n - (|b| - |t|)]);
      assert b[..n] == b[..|b| - |t|] + t[..n - (|b| - |t|)] by {
        assert b == b[..|b| - |t|] + t;
      }
    } else if n >= HDR_WIRE {
      SameHeader(b, n);
    }
    assert b + junk == b[..|b| - |t|] + (t + junk) by {
      assert b == b[..|b| - |t|] + t;
    }
  }

  /** A blob stays the same blob when only its tail is exchanged. */
  lemma Retail(b: seq<byte>, now: int, p: Parsed, r: seq<byte>, s: seq<byte>, t: seq<byte>, u: seq<byte>)
    requires IsBlob(b, now, p, r, s, t)
    ensures |t| <= |b| && b[|b| - |t|..] == t
    ensures |b| - |t| == HDR_WIRE + HeaderAt(b).headersLen + HeaderAt(b).bodyLen
    ensures Validate(b[..|b| - |t|] + u, now) == Some(p)
  {
    BlobIsAccepted(b, now, p, r, s, t);
    var front := HeaderBytes(p.header, p.date, r) + EntriesBytes(p.entries) + s + p.body;
    assert b == front + t;
    assert b[..|b| - |t|] == front;
    BlobIsAccepted(front + u, now, p, r, s, u);
  }

  lemma SameHeader(b: seq<byte>, n: nat)
    requires HDR_WIRE <= n <= |b|
    ensures HeaderAt(b[..n]) == HeaderAt(b)
  {
  }

  /**
   Stamp a header, then validate: the buffer is accepted exactly when the date was rendered in full and printable,
   the fields are legal, and what they announce is there; and then header and date read back as given.
   */
  method StampVerdict(dst: array<byte>, h: Header, date: seq<byte>, now: int)
    requires dst.Length >= HDR_WIRE && |date| <= DATE_LEN as int && h.flags < 0x1_0000
    modifies dst
    ensures Validate(dst[..], now).Some?
            <==> |date| == DATE_LEN as int && PrintableDate(date) && LegalFields(h, now)
                 && h.headersLen + h.bodyLen <= dst.Length - HDR_WIRE
                 && WalkAt(dst[..], HDR_WIRE, HDR_WIRE + h.headersLen, h.nheaders).Some?
    ensures Validate(dst[..], now).Some? ==>
              Validate(dst[..], now).value.header == h && Validate(dst[..], now).value.date == date
    ensures dst[HDR_WIRE..] == old(dst[HDR_WIRE..])
  {
    hide HeaderBytes, WalkAt, HeaderAt, PrintableDate;
    HdrWrite(dst, h, date);
    if |date| == DATE_LEN as int {
      assert dst[..][..HDR_WIRE] == dst[..HDR_WIRE];
      ReadHead(dst[..], h, date, [0, 0]);
    }
  }

  // ---- the vetted bit ------------------------------------------------------

  function Cleared(b: seq<byte>): (c: seq<byte>)
    ensures |c| == |b|
  {
    if |b| < HDR_WIRE then b else b[..6] + Le(WithoutVetted(GetU16(b, 6)), 2) + b[8..]
  }

  /** blob_clear_vetted: rewrites the flags word in place, a no-op on a short buffer. */
  method ClearVetted(blob: array<byte>)
    modifies blob
    ensures blob[..] == Cleared(old(blob[..]))
  {
    if blob.Length < HDR_WIRE {
      return;
    }
    ghost var was := blob[..];
    var flags := GetU16([blob[6], blob[7]], 0);
    PutU16(blob, 6, WithoutVetted(flags));
    assert blob[..] == blob[..8] + blob[8..];
    assert blob[8..] == was[8..];
  }

  lemma ClearedFlags(b: seq<byte>)
    requires |b| >= HDR_WIRE
    ensures HeaderAt(Cleared(b)) == HeaderAt(b).(flags := WithoutVetted(HeaderAt(b).flags))
    ensures forall i | 0 <= i < |b| && i != 6 && i != 7 :: Cleared(b)[i] == b[i]
  {
    var f := WithoutVetted(GetU16(b, 6));
    Spans();
    UnLeOfLe(f, 2);
    GetU16Reads(Cleared(b), 6);
    assert Cleared(b)[6..8] == Le(f, 2);
  }

  /** Clearing drops that one permission and nothing else, whatever the other bits are. */
  lemma OnlyTheVettedBit(f: u32)
    ensures !Vetted(WithoutVetted(f)) && WithoutVetted(WithoutVetted(f)) == WithoutVetted(f)
    ensures WithoutVetted(f) % 32 == f % 32 && WithoutVetted(f) / 64 == f / 64
    ensures OriginEncoded(WithoutVetted(f)) == OriginEncoded(f) && AeClass(WithoutVetted(f)) == AeClass(f)
  {
    var hi, bit, lo := f / 64, f / 32 % 2, f % 32;
    assert f == 64 * hi + 32 * bit + lo;
    var g: u32 := WithoutVetted(f);
    assert g == 64 * hi + lo;
    assert g / 32 == 2 * hi && g % 32 == lo && g / 64 == hi;
    LowBits(f);
    LowBits(g);
  }

  lemma LowBits(f: u32)
    ensures f / 2 % 2 == f % 32 / 2 % 2 && f / 4 % 4 == f % 32 / 4 % 4
  {
    var hi, lo := f / 32, f % 32;
    assert f == 2 * (16 * hi + lo / 2) + lo % 2;
    assert f == 4 * (8 * hi + lo / 4) + lo % 4;
    assert f / 2 == 2 * (8 * hi) + lo / 2 && f / 4 == 4 * (2 * hi) + lo / 4;
  }

  /** Same verdict, same everything but the bit; and doing it twice is doing it once. */
  lemma ClearKeepsVerdict(b: seq<byte>, now: int)
    ensures Cleared(Cleared(b)) == Cleared(b)
    ensures Validate(Cleared(b), now) == Unvetted(Validate(b, now))
  {
    if |b| >= HDR_WIRE {
      ClearTwice(b);
      ClearedFlags(b);
      assert Cleared(b)[..6] == b[..6] && Cleared(b)[8..] == b[8..];
      hide Cleared, Validate, HeaderAt;
      SameVerdict(b, Cleared(b), now);
    }
  }

  function Unvetted(r: Option<Parsed>): Option<Parsed> {
    match r
    case None => None
    case Some(p) => Some(p.(header := p.header.(flags := WithoutVetted(p.header.flags))))
  }

  lemma SameVerdict(b: seq<byte>, c: seq<byte>, now: int)
    requires |b| == |c| && |b| >= HDR_WIRE && c[..6] == b[..6] && c[8..] == b[8..]
    requires HeaderAt(c) == HeaderAt(b).(flags := WithoutVetted(HeaderAt(b).flags))
    ensures Validate(c, now) == Unvetted(Validate(b, now))
  {
    hide WalkAt, HeaderAt, WithoutVetted, PrintableDate, LegalFields, GetU16, GetU32;
    SameFields(b, c, now);
    if FieldsOk(b, now) {
      var h := HeaderAt(b);
      var end: nat := HDR_WIRE + h.headersLen;
      SameTail(b, c, DATE_OFF, 74);
      SameTail(b, c, end, end + h.bodyLen);
      WalkElsewhere(b, c, HDR_WIRE, end, h.nheaders);
    }
  }

  lemma SameTail(b: seq<byte>, c: seq<byte>, i: nat, j: nat)
    requires |b| == |c| && 8 <= i <= j <= |b| && c[8..] == b[8..]
    ensures c[i..j] == b[i..j]
  {
    assert b[8..|b|] == b[8..] && c[8..|c|] == c[8..];
    SubSlice(b, 8, |b|, i - 8, j - 8);
    SubSlice(c, 8, |c|, i - 8, j - 8);
  }

  lemma SameFields(b: seq<byte>, c: seq<byte>, now: int)
    requires |b| == |c| && |b| >= HDR_WIRE && c[..6] == b[..6] && c[8..] == b[8..]
    requires HeaderAt(c) == HeaderAt(b).(flags := WithoutVetted(HeaderAt(b).flags))
    ensures FieldsOk(c, now) <==> FieldsOk(b, now)
  {
    hide HeaderAt, OriginEncoded, AeClass, WithoutVetted, Vetted;
    OnlyTheVettedBit(HeaderAt(b).flags);
    assert forall i | 0 <= i < 6 :: c[i] == c[..6][i] == b[..6][i];
    assert c[44] == c[8..][36] && b[44] == b[8..][36];
    assert c[DATE_OFF..74] == b[DATE_OFF..74];
  }

  lemma ClearTwice(b: seq<byte>)
    requires |b| >= HDR_WIRE
    ensures Cleared(Cleared(b)) == Cleared(b)
  {
    hide HeaderAt, WithoutVetted;
    ClearedFlags(b);
    OnlyTheVettedBit(GetU16(b, 6));
    var f := WithoutVetted(GetU16(b, 6));
    assert GetU16(Cleared(b), 6) == f by {
      HeaderFlags(b);
      HeaderFlags(Cleared(b));
    }
    assert Cleared(b)[..6] == b[..6] && Cleared(b)[8..] == b[8..];
  }

  lemma HeaderFlags(b: seq<byte>)
    requires |b| >= HDR_WIRE
    ensures HeaderAt(b).flags == GetU16(b, 6)
  {
  }

  lemma {:induction false} WalkElsewhere(b: seq<byte>, c: seq<byte>, p: nat, end: nat, n: nat)
    requires HDR_WIRE <= p <= end <= |b| == |c| && b[8..] == c[8..]
    ensures WalkAt(b, p, end, n) == WalkAt(c, p, end, n)
    decreases n
  {
    if n == 0 {
    } else {
      NextElsewhere(b, c, p, end);
      if NextAt(b, p, end).Some? {
        WalkElsewhere(b, c, NextAt(b, p, end).value.1, end, n - 1);
      }
    }
  }

  lemma NextElsewhere(b: seq<byte>, c: seq<byte>, p: nat, end: nat)
    requires HDR_WIRE <= p <= end <= |b| == |c| && b[8..] == c[8..]
    ensures NextAt(b, p, end) == NextAt(c, p, end)
  {
    assert forall i | 8 <= i < |b| :: b[i] == b[8..][i - 8] == c[8..][i - 8] == c[i];
    forall i, j | 8 <= i <= j <= |b| ensures b[i..j] == c[i..j] {
    }
  }
}

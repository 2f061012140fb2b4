/** Little-endian integers in byte buffers: the accessors every wire field goes through. */
module Bytes {
  type byte = x: int | 0 <= x < 0x100
  type u16 = x: int | 0 <= x < 0x1_0000
  type u32 = x: int | 0 <= x < 0x1_0000_0000
  type u64 = x: int | 0 <= x < 0x1_0000_0000_0000_0000
  type i64 = x: int | -0x8000_0000_0000_0000 <= x < 0x8000_0000_0000_0000

  /** The n low-order bytes of v, least significant first. */
  function Le(v: nat, n: nat): (s: seq<byte>)
    ensures |s| == n
  {
    if n == 0 then [] else [v % 0x100] + Le(v / 0x100, n - 1)
  }

  /** The number a little-endian byte string denotes. */
  function UnLe(s: seq<byte>): nat {
    if s == [] then 0 else s[0] + 0x100 * UnLe(s[1..])
  }

  /** 256 to the power n. */
  function Span(n: nat): (p: nat)
    ensures p > 0
  {
    if n == 0 then 1 else 0x100 * Span(n - 1)
  }

  lemma {:induction false} UnLeBounded(s: seq<byte>)
    ensures UnLe(s) < Span(|s|)
  {
    if s == [] {
    } else {
      UnLeBounded(s[1..]);
    }
  }

  /** Writing then reading is the identity on every value that fits. */
  lemma {:induction false} UnLeOfLe(v: nat, n: nat)
    requires v < Span(n)
    ensures UnLe(Le(v, n)) == v
  {
    if n == 0 {
    } else {
      UnLeOfLe(v / 0x100, n - 1);
      assert Le(v, n)[1..] == Le(v / 0x100, n - 1);
    }
  }

  /** Reading then writing is the identity on every byte string. */
  lemma {:induction false} LeOfUnLe(s: seq<byte>)
    ensures Le(UnLe(s), |s|) == s
  {
    if s == [] {
    } else {
      LeOfUnLe(s[1..]);
      assert UnLe(s) % 0x100 == s[0] && UnLe(s) / 0x100 == UnLe(s[1..]);
    }
  }

  lemma Spans()
    ensures Span(2) == 0x1_0000 && Span(4) == 0x1_0000_0000
    ensures Span(8) == 0x1_0000_0000_0000_0000
  {
    assert Span(1) == 0x100;
    assert Span(3) == 0x100 * Span(2);
    assert Span(5) == 0x100 * Span(4);
    assert Span(6) == 0x100 * Span(5);
    assert Span(7) == 0x100 * Span(6);
  }

  function GetU16(s: seq<byte>, at: nat): u16
    requires at + 2 <= |s|
  {
    s[at] as int + 0x100 * s[at + 1] as int
  }

  function GetU32(s: seq<byte>, at: nat): u32
    requires at + 4 <= |s|
  {
    s[at] as int + 0x100 * s[at + 1] as int + 0x1_0000 * s[at + 2] as int + 0x100_0000 * s[at + 3] as int
  }

  function GetU64(s: seq<byte>, at: nat): u64
    requires at + 8 <= |s|
  {
    GetU32(s, at) + 0x1_0000_0000 * GetU32(s, at + 4)
  }

  /** The fixed-width readers agree with the general little-endian reading. */
  lemma GetU16Reads(s: seq<byte>, at: nat)
    requires at + 2 <= |s|
    ensures GetU16(s, at) == UnLe(s[at..at + 2])
  {
    UnLe2(s[at..at + 2]);
  }

  lemma GetU32Reads(s: seq<byte>, at: nat)
    requires at + 4 <= |s|
    ensures GetU32(s, at) == UnLe(s[at..at + 4])
  {
    UnLe4(s[at..at + 4]);
  }

  lemma GetU64Reads(s: seq<byte>, at: nat)
    requires at + 8 <= |s|
    ensures GetU64(s, at) == UnLe(s[at..at + 8])
  {
    UnLeSplit(s[at..at + 8], 4);
    Spans();
    GetU32Reads(s, at);
    GetU32Reads(s, at + 4);
    assert s[at..at + 8][..4] == s[at..at + 4] && s[at..at + 8][4..] == s[at + 4..at + 8];
  }

  lemma UnLe2(s: seq<byte>)
    requires |s| == 2
    ensures UnLe(s) == s[0] as int + 0x100 * s[1] as int
  {
    assert s[1..][1..] == [];
    assert UnLe(s[1..]) == s[1];
  }

  lemma UnLe4(s: seq<byte>)
    requires |s| == 4
    ensures UnLe(s) == s[0] as int + 0x100 * s[1] as int + 0x1_0000 * s[2] as int + 0x100_0000 * s[3] as int
  {
    assert UnLe(s[1..]) == s[1] + 0x100 * UnLe(s[1..][1..]);
    assert s[1..][1..] == s[2..] && s[2..][1..] == s[3..] && s[3..][1..] == [];
    assert UnLe(s[2..]) == s[2] + 0x100 * UnLe(s[3..]);
    assert UnLe(s[3..]) == s[3];
  }

  lemma {:induction false} UnLeSplit(s: seq<byte>, k: nat)
    requires k <= |s|
    ensures UnLe(s) == UnLe(s[..k]) + Span(k) * UnLe(s[k..])
  {
    if k == 0 {
      assert s[0..] == s;
    } else {
      hide UnLe, Span;
      var hi := UnLe(s[k..]);
      UnLeSplit(s[1..], k - 1);
      assert s[1..][..k - 1] == s[..k][1..] && s[1..][k - 1..] == s[k..];
      UnLeStep(s);
      UnLeStep(s[..k]);
      SpanStep(k, hi);
    }
  }

  lemma UnLeStep(s: seq<byte>)
    requires s != []
    ensures UnLe(s) == s[0] + 0x100 * UnLe(s[1..])
  {
  }

  lemma SpanStep(k: nat, x: nat)
    requires k > 0
    ensures Span(k) * x == 0x100 * (Span(k - 1) * x)
  {
  }

  /** Signed 64-bit reading of an unsigned wire field, and back. */
  function ToI64(v: u64): i64 {
    if v < 0x8000_0000_0000_0000 then v else v - 0x1_0000_0000_0000_0000
  }

  function ToU64(v: i64): u64 {
    if v >= 0 then v else v + 0x1_0000_0000_0000_0000
  }

  /** Byte stores: each overwrites exactly its own window of the buffer. */
  method PutU16(a: array<byte>, at: nat, v: u16)
    requires at + 2 <= a.Length
    modifies a
    ensures a[..at + 2] == old(a[..at]) + Le(v, 2)
    ensures forall i | at + 2 <= i < a.Length :: a[i] == old(a[i])
  {
    a[at] := v % 0x100;
    a[at + 1] := v / 0x100;
    assert Le(v, 2) == [v % 0x100, v / 0x100 % 0x100];
  }

  method PutU32(a: array<byte>, at: nat, v: u32)
    requires at + 4 <= a.Length
    modifies a
    ensures a[..at + 4] == old(a[..at]) + Le(v, 4)
    ensures forall i | at + 4 <= i < a.Length :: a[i] == old(a[i])
  {
    a[at] := v % 0x100;
    a[at + 1] := v / 0x100 % 0x100;
    a[at + 2] := v / 0x1_0000 % 0x100;
    a[at + 3] := v / 0x100_0000 % 0x100;
    Le4(v);
  }

  method PutU64(a: array<byte>, at: nat, v: u64)
    requires at + 8 <= a.Length
    modifies a
    ensures a[..at + 8] == old(a[..at]) + Le(v, 8)
    ensures forall i | at + 8 <= i < a.Length :: a[i] == old(a[i])
  {
    hide Le;
    PutU32(a, at, v % 0x1_0000_0000);
    PutU32(a, at + 4, v / 0x1_0000_0000);
    LeWords(v);
  }

  lemma Le4(v: u32)
    ensures Le(v, 4) == [v % 0x100, v / 0x100 % 0x100, v / 0x1_0000 % 0x100, v / 0x100_0000 % 0x100]
  {
    assert Le(v / 0x1_0000, 2) == [v / 0x1_0000 % 0x100] + Le(v / 0x1_0000 / 0x100, 1);
  }

  /** A 64-bit value is stored as its low word followed by its high word. */
  lemma LeWords(v: u64)
    ensures Le(v, 8) == Le(v % 0x1_0000_0000, 4) + Le(v / 0x1_0000_0000, 4)
  {
    Spans();
    var lo, hi := Le(v % 0x1_0000_0000, 4), Le(v / 0x1_0000_0000, 4);
    UnLeOfLe(v % 0x1_0000_0000, 4);
    UnLeOfLe(v / 0x1_0000_0000, 4);
    UnLeSplit(lo + hi, 4);
    assert (lo + hi)[..4] == lo && (lo + hi)[4..] == hi;
    LeOfUnLe(lo + hi);
  }
}

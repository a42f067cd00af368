/** The additional-authenticated-data envelope: three strings, each after its length as an unsigned varint. */
module Aad {
  import opened Basics

  type Bytes = seq<Byte>

  const MAX_VARINT_LEN := 10

  // --------------------------------------------------------------------- varints

  /** Seven bits a byte, low bits first, high bit set on all but the last. */
  function Uvarint(n: nat): (b: Bytes)
    ensures |b| > 0
  {
    if n < 128 then [n] else [n % 128 + 128] + Uvarint(n / 128)
  }

  /** The number at the front of the bytes, and what follows it. */
  function ReadUvarint(b: Bytes): Option<(nat, Bytes)> {
    if b == [] then None
    else if b[0] < 128 then Some((b[0], b[1..]))
    else
      var r := ReadUvarint(b[1..]);
      if r.None? then None else Some((b[0] - 128 + 128 * r.value.0, r.value.1))
  }

  lemma {:induction false} ReadWritten(n: nat, rest: Bytes)
    ensures ReadUvarint(Uvarint(n) + rest) == Some((n, rest))
  {
    var b := Uvarint(n) + rest;
    if n < 128 {
      assert b[1..] == rest;
    } else {
      ReadWritten(n / 128, rest);
      assert b[1..] == Uvarint(n / 128) + rest;
    }
  }

  function Pow128(k: nat): (r: nat)
    ensures r >= 1
  {
    if k == 0 then 1 else 128 * Pow128(k - 1)
  }

  lemma {:induction false} UvarintLength(n: nat, k: nat)
    requires k > 0
    ensures |Uvarint(n)| <= k <==> n < Pow128(k)
  {
    if k == 1 {
      if n >= 128 { assert |Uvarint(n / 128)| > 0; }
    } else if n >= 128 {
      UvarintLength(n / 128, k - 1);
      assert n < 128 * Pow128(k - 1) <==> n / 128 < Pow128(k - 1);
    }
  }

  /** A 64-bit length takes at most ten bytes. */
  lemma LengthFits(n: nat)
    requires n < 0x1_0000_0000_0000_0000
    ensures |Uvarint(n)| <= MAX_VARINT_LEN
  {
    UvarintLength(n, 10);
    assert Pow128(5) == 0x8_0000_0000;
    assert Pow128(10) == Pow128(5) * 0x8_0000_0000;
  }

  // ------------------------------------------------------------------------ uuid text

  type Uuid = u: Bytes | |u| == 16 witness seq(16, _ => 0)

  function HexDigit(v: nat): Byte
    requires v < 16
  {
    if v < 10 then 48 + v else 87 + v
  }

  function HexValue(b: Byte): nat {
    if 48 <= b < 58 then b - 48 else if 97 <= b < 103 then b - 87 else 0
  }

  function Hex(b: Bytes): Bytes {
    seq(2 * |b|, i requires 0 <= i < 2 * |b| => HexDigit(if i % 2 == 0 then b[i / 2] / 16 else b[i / 2] % 16))
  }

  const DASH: Byte := 45

  function UuidText(u: Uuid): (t: Bytes)
    ensures |t| == 36
  {
    var h := Hex(u);
    h[..8] + [DASH] + h[8..12] + [DASH] + h[12..16] + [DASH] + h[16..20] + [DASH] + h[20..]
  }

  lemma HexInjective(a: Bytes, b: Bytes)
    requires Hex(a) == Hex(b)
    ensures a == b
  {
    assert |a| == |b| by { assert |Hex(a)| == 2 * |a| && |Hex(b)| == 2 * |b|; }
    forall i | 0 <= i < |a| ensures a[i] == b[i] {
      assert Hex(a)[2 * i] == HexDigit(a[i] / 16) && Hex(a)[2 * i + 1] == HexDigit(a[i] % 16);
      assert Hex(b)[2 * i] == HexDigit(b[i] / 16) && Hex(b)[2 * i + 1] == HexDigit(b[i] % 16);
      assert HexValue(HexDigit(a[i] / 16)) == a[i] / 16 && HexValue(HexDigit(a[i] % 16)) == a[i] % 16;
      assert HexValue(HexDigit(b[i] / 16)) == b[i] / 16 && HexValue(HexDigit(b[i] % 16)) == b[i] % 16;
    }
  }

  function Dashless(t: Bytes): Bytes
    requires |t| == 36
  {
    t[..8] + t[9..13] + t[14..18] + t[19..23] + t[24..]
  }

  lemma UuidTextDashless(u: Uuid)
    ensures Dashless(UuidText(u)) == Hex(u)
  {
    var h, t := Hex(u), UuidText(u);
    assert t[..8] == h[..8] && t[9..13] == h[8..12] && t[14..18] == h[12..16] && t[19..23] == h[16..20]
             && t[24..] == h[20..];
  }

  lemma UuidTextInjective(u: Uuid, v: Uuid)
    requires UuidText(u) == UuidText(v)
    ensures u == v
  {
    UuidTextDashless(u);
    UuidTextDashless(v);
    HexInjective(u, v);
  }

  // ------------------------------------------------------------------------- envelope

  function Prefixed(s: Bytes): Bytes {
    Uvarint(|s|) + s
  }

  function Envelope(tenant: Uuid, scope: Bytes, rowId: Bytes): Bytes {
    Prefixed(UuidText(tenant)) + (Prefixed(scope) + Prefixed(rowId))
  }

  /** One length-prefixed string at the front, and what follows it. */
  function ReadPrefixed(b: Bytes): Option<(Bytes, Bytes)> {
    var n := ReadUvarint(b);
    if n.None? || n.value.0 > |n.value.1| then None
    else Some((n.value.1[..n.value.0], n.value.1[n.value.0..]))
  }

  /** The three strings at the front, and what follows them. */
  function ReadEnvelope(b: Bytes): Option<(Bytes, Bytes, Bytes, Bytes)> {
    var t := ReadPrefixed(b);
    if t.None? then None
    else
      var s := ReadPrefixed(t.value.1);
      if s.None? then None
      else
        var r := ReadPrefixed(s.value.1);
        if r.None? then None else Some((t.value.0, s.value.0, r.value.0, r.value.1))
  }

  lemma ReadPrefixedWritten(s: Bytes, rest: Bytes)
    ensures ReadPrefixed(Prefixed(s) + rest) == Some((s, rest))
  {
    assert Prefixed(s) + rest == Uvarint(|s|) + (s + rest);
    ReadWritten(|s|, s + rest);
    assert (s + rest)[..|s|] == s && (s + rest)[|s|..] == rest;
  }

  /** A parser recovers the three strings, whatever follows the envelope. */
  lemma EnvelopeRecovered(tenant: Uuid, scope: Bytes, rowId: Bytes, rest: Bytes)
    ensures ReadEnvelope(Envelope(tenant, scope, rowId) + rest) == Some((UuidText(tenant), scope, rowId, rest))
  {
    var t, s, r := Prefixed(UuidText(tenant)), Prefixed(scope), Prefixed(rowId);
    assert Envelope(tenant, scope, rowId) + rest == t + (s + (r + rest));
    ReadPrefixedWritten(UuidText(tenant), s + (r + rest));
    ReadPrefixedWritten(scope, r + rest);
    ReadPrefixedWritten(rowId, rest);
  }

  /** No envelope is a prefix of another; in particular equal envelopes have equal parts. */
  lemma EnvelopePrefixFree(t: Uuid, s: Bytes, r: Bytes, t': Uuid, s': Bytes, r': Bytes)
    requires Envelope(t, s, r) <= Envelope(t', s', r')
    ensures t == t' && s == s' && r == r'
  {
    var short, long := Envelope(t, s, r), Envelope(t', s', r');
    assert long == short + long[|short|..] && long == long + [];
    EnvelopeRecovered(t, s, r, long[|short|..]);
    EnvelopeRecovered(t', s', r', []);
    UuidTextInjective(t, t');
  }

  /** The buffer is made large enough once, and filled by appending. */
  method BuildAAD(tenantID: Uuid, scope: Bytes, rowID: Bytes) returns (out: Bytes)
    requires |scope| < 0x1_0000_0000_0000_0000 && |rowID| < 0x1_0000_0000_0000_0000
    ensures out == Envelope(tenantID, scope, rowID)
    ensures |out| <= 36 + |scope| + |rowID| + 3 * MAX_VARINT_LEN
  {
    var tenant := UuidText(tenantID);
    out := AppendPrefixed([], tenant);
    out := AppendPrefixed(out, scope);
    out := AppendPrefixed(out, rowID);
    EnvelopeOf(tenantID, scope, rowID);
    EnvelopeSize(tenantID, scope, rowID);
  }

  method AppendPrefixed(buf: Bytes, s: Bytes) returns (out: Bytes)
    ensures out == buf + Prefixed(s)
  {
    out := AppendUvarint(buf, |s|);
    out := out + s;
    assert out == buf + (Uvarint(|s|) + s);
  }

  lemma EnvelopeOf(tenant: Uuid, scope: Bytes, rowId: Bytes)
    ensures [] + Prefixed(UuidText(tenant)) + Prefixed(scope) + Prefixed(rowId) == Envelope(tenant, scope, rowId)
  {}

  lemma EnvelopeSize(tenant: Uuid, scope: Bytes, rowId: Bytes)
    requires |scope| < 0x1_0000_0000_0000_0000 && |rowId| < 0x1_0000_0000_0000_0000
    ensures |Envelope(tenant, scope, rowId)| <= 36 + |scope| + |rowId| + 3 * MAX_VARINT_LEN
  {
    LengthFits(36);
    LengthFits(|scope|);
    LengthFits(|rowId|);
  }

  method AppendUvarint(buf: Bytes, n: nat) returns (out: Bytes)
    ensures out == buf + Uvarint(n)
  {
    out := buf;
    var x := n;
    while x >= 128
      invariant out + Uvarint(x) == buf + Uvarint(n)
    {
      assert out + Uvarint(x) == out + [x % 128 + 128] + Uvarint(x / 128);
      out := out + [x % 128 + 128];
      x := x / 128;
    }
    out := out + [x];
  }
}

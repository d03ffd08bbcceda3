/** Base-128 varints: internal/protocol/bytes.go, varint and readVarint. */
module Varint {
  import opened Bytes

  datatype VarintError = Overflow | Truncated
  datatype VarintRead = Read(value: uint64, next: nat) | Failed(error: VarintError)

  /** The canonical encoding of n: seven bits a byte, low group first, high bit on all but the last. */
  function Encode(n: nat): (r: seq<byte>)
    ensures |r| > 0
  {
    if n < 128 then [n] else [n % 128 + 128] + Encode(n / 128)
  }

  /** The number whose base-128 digits, low digit first, are the low seven bits of s. */
  function Groups(s: seq<byte>): nat {
    if |s| == 0 then 0 else s[0] % 128 + 128 * Groups(s[1..])
  }

  /** Index of the first byte at or after i without the continuation bit, or |data|. */
  function Terminator(data: seq<byte>, i: nat): (e: nat)
    requires i <= |data|
    ensures i <= e <= |data|
    ensures e < |data| ==> data[e] < 128
    ensures forall k :: i <= k < e ==> data[k] >= 128
    decreases |data| - i
  {
    if i == |data| || data[i] < 128 then i else Terminator(data, i + 1)
  }

  /** The varint at offset i: at most ten bytes, its value reduced modulo 2^64. */
  function Decode(data: seq<byte>, i: nat): (r: VarintRead)
    requires i <= |data|
    ensures r.Read? ==> i < r.next <= |data| && r.next <= i + 10
  {
    var e := Terminator(data, i);
    if e - i >= 10 then Failed(Overflow)
    else if e == |data| then Failed(Truncated)
    else Read(Groups(data[i..e + 1]) % TWO64, e + 1)
  }

  lemma {:induction false} GroupsSnoc(s: seq<byte>, b: byte)
    ensures Groups(s + [b]) == Groups(s) + b % 128 * Pow2(7 * |s|)
  {
    if |s| == 0 {
      assert Pow2(0) == 1 && (s + [b])[1..] == [];
    } else {
      assert (s + [b])[1..] == s[1..] + [b];
      GroupsSnoc(s[1..], b);
      Pow2Times128(7 * (|s| - 1));
      var c, p := b % 128, Pow2(7 * (|s| - 1));
      assert 128 * (c * p) == c * (128 * p);
    }
  }

  lemma Pow2Times128(k: nat)
    ensures Pow2(k + 7) == 128 * Pow2(k)
  {
    assert Pow2(k + 2) == 2 * Pow2(k + 1) == 4 * Pow2(k);
    assert Pow2(k + 4) == 2 * Pow2(k + 3) == 4 * Pow2(k + 2);
    assert Pow2(k + 7) == 2 * Pow2(k + 6) == 4 * Pow2(k + 5) == 8 * Pow2(k + 4);
  }

  lemma Pow2Is63()
    ensures Pow2(63) == TWO63
  {
    assert Pow2(7) == 128 by { Pow2Times128(0); }
    Pow2Times128(7); Pow2Times128(14); Pow2Times128(21); Pow2Times128(28);
    Pow2Times128(35); Pow2Times128(42); Pow2Times128(49); Pow2Times128(56);
  }

  lemma {:induction false} GroupsBound(s: seq<byte>)
    ensures Groups(s) < Pow2(7 * |s|)
  {
    if |s| > 0 {
      GroupsBound(s[1..]);
      Pow2Times128(7 * (|s| - 1));
    }
  }

  lemma {:induction false} GroupsOfEncode(n: nat)
    ensures Groups(Encode(n)) == n
    decreases n
  {
    if n >= 128 {
      assert Encode(n)[1..] == Encode(n / 128);
      GroupsOfEncode(n / 128);
    } else {
      assert Encode(n)[1..] == [];
    }
  }

  lemma {:induction false} EncodeShape(n: nat)
    ensures Encode(n)[|Encode(n)| - 1] < 128
    ensures forall k :: 0 <= k < |Encode(n)| - 1 ==> Encode(n)[k] >= 128
    decreases n
  {
    if n >= 128 { EncodeShape(n / 128); }
  }

  /** A number of at most 7k bits takes at most k bytes. */
  lemma {:induction false} EncodeLength(n: nat, k: nat)
    requires k > 0 && n < Pow2(7 * k)
    ensures |Encode(n)| <= k
    decreases k
  {
    if n >= 128 {
      if k == 1 { Pow2Times128(0); assert false; }
      Pow2Times128(7 * (k - 1));
      EncodeLength(n / 128, k - 1);
    }
  }

  lemma EncodeAtMostTen(n: uint64)
    ensures 1 <= |Encode(n)| <= 10
  {
    Pow2Is63();
    Pow2Times128(63);
    EncodeLength(n, 10);
  }

  lemma {:induction false} TerminatorUnique(data: seq<byte>, i: nat, e: nat)
    requires i <= e < |data| && data[e] < 128
    requires forall k :: i <= k < e ==> data[k] >= 128
    ensures Terminator(data, i) == e
    decreases e - i
  {
    if i < e { TerminatorUnique(data, i + 1, e); }
  }

  /** readVarint undoes varint at any offset and before any suffix. */
  lemma RoundTrip(pre: seq<byte>, n: uint64, suf: seq<byte>)
    ensures Decode(pre + Encode(n) + suf, |pre|) == Read(n, |pre| + |Encode(n)|)
    ensures 1 <= |Encode(n)| <= 10
  {
    var data := pre + Encode(n) + suf;
    EncodeShape(n);
    EncodeAtMostTen(n);
    var e := |pre| + |Encode(n)| - 1;
    forall k | |pre| <= k < e ensures data[k] >= 128 { assert data[k] == Encode(n)[k - |pre|]; }
    assert data[e] == Encode(n)[|Encode(n)| - 1];
    TerminatorUnique(data, |pre|, e);
    assert data[|pre|..e + 1] == Encode(n);
    GroupsOfEncode(n);
  }

  lemma DivBy128(n: nat, p: nat)
    requires p > 0
    ensures n / 128 / p == n / (128 * p)
  {
    var q, r := n / 128 / p, n / 128 % p;
    assert n / 128 == q * p + r;
    assert n == 128 * (q * p + r) + n % 128;
    assert n == q * (128 * p) + (128 * r + n % 128);
    DivModUnique(n, 128 * p, q, 128 * r + n % 128);
  }

  /** Base 128, least significant group first, the high bit set on every byte but the last. */
  lemma {:induction false} EncodeIsBase128(n: nat, i: nat)
    requires i < |Encode(n)|
    ensures Encode(n)[i] == n / Pow2(7 * i) % 128 + if i + 1 < |Encode(n)| then 128 else 0
    decreases i
  {
    if i > 0 {
      EncodeTurn(n);
      hide Encode, Pow2;
      EncodeIsBase128(n / 128, i - 1);
      Pow2Times128(7 * (i - 1));
      DivBy128(n, Pow2(7 * (i - 1)));
      assert Encode(n)[i] == Encode(n / 128)[i - 1];
    } else {
      assert Pow2(0) == 1;
    }
  }

  lemma EncodeTurn(n: nat)
    ensures |Encode(n)| > 1 ==> n >= 128 && Encode(n) == [n % 128 + 128] + Encode(n / 128)
  {
  }

  lemma OneByte(n: nat)
    requires n < 128
    ensures Encode(n) == [n]
  {
  }

  method WriteVarint(num: uint64) returns (out: seq<byte>)
    ensures out == Encode(num)
  {
    var n := num;
    out := [];
    while true
      invariant 0 <= n < TWO64
      invariant out + Encode(n) == Encode(num)
      decreases n
    {
      var b := n % 128;
      ghost var before := n;
      n := n / 128;
      if n != 0 {
        b := b + 128;
        assert Encode(before) == [b] + Encode(n);
        assert out + Encode(before) == (out + [b]) + Encode(n);
      }
      out := out + [b];
      if n == 0 { return; }
    }
  }

  /** One more byte of a varint: what or-ing its shifted group in leaves in n. */
  lemma NextGroup(data: seq<byte>, start: nat, i: nat, n: nat, shift: nat)
    requires start <= i < |data| && i <= Terminator(data, start)
    requires shift == 7 * (i - start) <= 63 && n == Groups(data[start..i])
    ensures n < Pow2(shift)
    ensures n + data[i] % 128 * Pow2(shift) % TWO64 == Groups(data[start..i + 1]) % TWO64
    ensures shift < 63 ==> Groups(data[start..i + 1]) < TWO64
  {
    hide Groups, Pow2, Terminator;
    var s, low: nat := data[start..i], data[i] % 128;
    assert 7 * |s| == shift;
    assert data[start..i + 1] == s + [data[i]];
    GroupsSnoc(s, data[i]);
    GroupsBound(s);
    LastGroup(n, low, shift);
    if shift < 63 {
      GroupsBound(s + [data[i]]);
      Pow2Monotone(7 * |s + [data[i]]|, 63);
      Pow2Is63();
    }
  }

  lemma DecodeEnd(data: seq<byte>, start: nat, i: nat)
    requires start <= i <= |data| && i <= Terminator(data, start)
    ensures i - start >= 10 ==> Decode(data, start) == Failed(Overflow)
    ensures i == |data| && i - start < 10 ==> Decode(data, start) == Failed(Truncated)
    ensures i < |data| && i - start < 10 && data[i] < 128 ==>
              Decode(data, start) == Read(Groups(data[start..i + 1]) % TWO64, i + 1)
    ensures i < |data| && data[i] >= 128 ==> i + 1 <= Terminator(data, start)
  {
    if i < |data| && data[i] < 128 { TerminatorUnique(data, start, i); }
  }

  lemma SmallGroups(n: nat)
    requires n < TWO64
    ensures n % TWO64 == n
  {
  }

  /** Or-ing the shifted group in is written as a sum: n < 2^shift, so the two share no bit. */
  method ReadVarint(data: seq<byte>, start: nat) returns (r: VarintRead)
    requires start <= |data|
    ensures r == Decode(data, start)
  {
    hide Groups, Terminator, Decode, Pow2;
    var i, n, shift := start, 0, 0;
    GroupsOfNone(data, start);
    while i < |data|
      invariant start <= i <= |data| && i <= Terminator(data, start)
      invariant shift == 7 * (i - start) <= 63
      invariant n == Groups(data[start..i])
      decreases |data| - i
    {
      var b := data[i];
      NextGroup(data, start, i, n, shift);
      DecodeEnd(data, start, i);
      n := n + b % 128 * Pow2(shift) % TWO64;
      i := i + 1;
      if b < 128 {
        return Read(n, i);
      }
      shift := shift + 7;
      if shift > 63 {
        DecodeEnd(data, start, i);
        return Failed(Overflow);
      }
      SmallGroups(Groups(data[start..i]));
    }
    DecodeEnd(data, start, i);
    return Failed(Truncated);
  }

  lemma GroupsOfNone(data: seq<byte>, start: nat)
    requires start <= |data|
    ensures Groups(data[start..start]) == 0 && start <= Terminator(data, start)
  {
  }

  lemma {:induction false} Pow2Monotone(a: nat, b: nat)
    requires a <= b
    ensures Pow2(a) <= Pow2(b)
    decreases b - a
  {
    if a < b { Pow2Monotone(a, b - 1); }
  }

  /** Truncating the shifted group to 64 bits truncates the sum: at shift 63 only one bit survives. */
  lemma LastGroup(n: nat, low: nat, shift: nat)
    requires shift % 7 == 0 && shift <= 63 && n < Pow2(shift) && low < 128
    ensures n + low * Pow2(shift) % TWO64 == (n + low * Pow2(shift)) % TWO64
  {
    Pow2Is63();
    var p := Pow2(shift);
    if shift < 63 {
      Pow2Monotone(shift, 56);
      Pow2Times128(56);
      MulMonotone(low, 127, p);
      var x := low * p;
      assert 0 <= x && n + x < TWO64;
      SmallMod(x);
      SmallMod(n + x);
    } else {
      TopBit(n, low);
    }
  }

  lemma SmallMod(x: nat)
    requires x < TWO64
    ensures x % TWO64 == x
  {
  }

  lemma MulMonotone(a: nat, b: nat, p: nat)
    requires a <= b
    ensures a * p <= b * p
  {
  }

  lemma TopBit(n: nat, low: nat)
    requires n < TWO63
    ensures n + low * TWO63 % TWO64 == (n + low * TWO63) % TWO64
  {
    var h, b := low / 2, low % 2;
    assert low * TWO63 == TWO64 * h + b * TWO63;
    DivModUnique(low * TWO63, TWO64, h, b * TWO63);
    DivModUnique(n + low * TWO63, TWO64, h, n + b * TWO63);
  }
}

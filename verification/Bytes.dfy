/** Byte strings, fixed-width big-endian integers and the outcomes shared by the codecs. */
module Bytes {

  type byte = x: int | 0 <= x < 0x100
  type uint64 = x: int | 0 <= x < 0x1_0000_0000_0000_0000
  type int64 = x: int | -0x8000_0000_0000_0000 <= x < 0x8000_0000_0000_0000

  const TWO63: int := 0x8000_0000_0000_0000
  const TWO64: int := 0x1_0000_0000_0000_0000

  datatype Option<+T> = None | Some(value: T)

  /** What a Go parser can do: deliver a value, return an error, or slice out of range. */
  datatype Parse<+T> = Good(value: T) | Bad | Panic

  /** The Go conversion int(x) of an unsigned 64-bit value. */
  function SignedOf(x: uint64): (r: int64) {
    if x < TWO63 then x else x - TWO64
  }

  /** The Go conversion uint64(x) of a signed 64-bit value. */
  function UnsignedOf(x: int64): (r: uint64) {
    if x < 0 then x + TWO64 else x
  }

  /** Go int addition, which wraps. */
  function WrapAdd(a: int64, b: int64): (r: int64) {
    if a + b >= TWO63 then a + b - TWO64
    else if a + b < -TWO63 then a + b + TWO64
    else a + b
  }

  /** The bytes of a string of one-byte characters. */
  function StringBytes(s: string): (r: seq<byte>)
    ensures |r| == |s| && forall i :: 0 <= i < |s| ==> r[i] == s[i] as int % 256
  {
    seq(|s|, i requires 0 <= i < |s| => s[i] as int % 256)
  }

  function Pow2(k: nat): (r: nat)
    ensures r > 0
  {
    if k == 0 then 1 else 2 * Pow2(k - 1)
  }

  function Pow256(k: nat): (r: nat)
    ensures r > 0
  {
    if k == 0 then 1 else 256 * Pow256(k - 1)
  }

  /** The k low-order bytes of n, most significant first: binary.BigEndian.PutUint16/32/64. */
  function BE(n: nat, k: nat): (r: seq<byte>)
    ensures |r| == k
  {
    if k == 0 then [] else BE(n / 256, k - 1) + [n % 256]
  }

  /** binary.BigEndian.Uint16/32/64. */
  function ReadBE(s: seq<byte>): nat {
    if |s| == 0 then 0 else 256 * ReadBE(s[..|s| - 1]) + s[|s| - 1]
  }

  lemma {:induction false} ReadBEOfBE(n: nat, k: nat)
    ensures ReadBE(BE(n, k)) == n % Pow256(k)
  {
    if k > 0 {
      var q, p := n / 256, Pow256(k - 1);
      ReadBEOfBE(q, k - 1);
      assert BE(n, k)[..k - 1] == BE(q, k - 1);
      ModSplit(n, p);
    }
  }

  lemma ModSplit(n: nat, p: nat)
    requires p > 0
    ensures n % (256 * p) == 256 * ((n / 256) % p) + n % 256
  {
    var q, r := n / 256, n % 256;
    var a, b := q / p, q % p;
    assert n == 256 * q + r;
    assert q == p * a + b;
    assert n == 256 * (p * a + b) + r;
    assert 256 * (p * a) == (256 * p) * a;
    assert n == (256 * p) * a + (256 * b + r);
    assert 0 <= 256 * b + r < 256 * p;
    DivModUnique(n, 256 * p, a, 256 * b + r);
  }

  lemma DivModUnique(n: int, d: int, q: int, r: int)
    requires d > 0 && 0 <= r < d && n == d * q + r
    ensures n / d == q && n % d == r
  {
    var q', r' := n / d, n % d;
    assert n == d * q' + r';
    if q > q' {
      MulAtLeast(d, q - q');
    } else if q < q' {
      MulAtLeast(d, q' - q);
    }
  }

  lemma MulAtLeast(d: int, k: int)
    requires d > 0 && k >= 1
    ensures d * k >= d
  {
  }

  /** Cutting a concatenation at its seams. */
  lemma Seams<T>(a: seq<T>, b: seq<T>, c: seq<T>)
    ensures (a + b + c)[|a|..|a| + |b|] == b
    ensures (a + b + c)[|a|..] == b + c
    ensures (a + b + c)[|a| + |b|..] == c
  {
  }

  lemma Assoc<T>(a: seq<T>, b: seq<T>, c: seq<T>)
    ensures (a + b) + c == a + (b + c)
  {
  }

  lemma Pow256Values()
    ensures Pow256(2) == 0x1_0000
    ensures Pow256(4) == 0x1_0000_0000
    ensures Pow256(8) == TWO64
  {
    assert Pow256(2) == 256 * Pow256(1) == 256 * 256;
    assert Pow256(4) == 256 * Pow256(3) == 256 * (256 * Pow256(2));
    assert Pow256(6) == 256 * Pow256(5) == 256 * (256 * Pow256(4));
    assert Pow256(8) == 256 * Pow256(7) == 256 * (256 * Pow256(6));
  }

  /** A field that fits its width reads back as itself. */
  lemma ReadBack(n: nat, k: nat)
    requires n < Pow256(k)
    ensures ReadBE(BE(n, k)) == n
  {
    ReadBEOfBE(n, k);
    DivModUnique(n, Pow256(k), 0, n);
  }

  /** Byte i of k, the most significant first. */
  lemma {:induction false} BigEndian(n: nat, k: nat, i: nat)
    requires i < k
    ensures BE(n, k)[i] == n / Pow256(k - 1 - i) % 256
    decreases k
  {
    if i < k - 1 {
      var p := Pow256(k - 2 - i);
      BigEndian(n / 256, k - 1, i);
      assert BE(n, k)[i] == BE(n / 256, k - 1)[i];
      DivDiv(n, p);
    }
  }

  lemma DivDiv(n: nat, p: nat)
    requires p > 0
    ensures n / 256 / p == n / (256 * p)
  {
    var q, r := n / 256 / p, n / 256 % p;
    assert n / 256 == q * p + r;
    assert n == 256 * (q * p + r) + n % 256;
    assert n == q * (256 * p) + (256 * r + n % 256);
    DivModUnique(n, 256 * p, q, 256 * r + n % 256);
  }

  /** Fixed-width encodings are injective. */
  lemma BEInjective(m: nat, n: nat, k: nat)
    requires m < Pow256(k) && n < Pow256(k) && BE(m, k) == BE(n, k)
    ensures m == n
  {
    ReadBack(m, k);
    ReadBack(n, k);
  }

  /** copy(a[at:], data) */
  method PutBytes(a: array<byte>, at: nat, data: seq<byte>)
    requires at + |data| <= a.Length
    modifies a
    ensures a[..] == old(a[..at]) + data + old(a[at + |data|..])
  {
    forall i | 0 <= i < |data| { a[at + i] := data[i]; }
    assert a[at..at + |data|] == data;
    assert a[..] == a[..at] + a[at..at + |data|] + a[at + |data|..];
  }

  /** A k-byte length, that many bytes, and what follows them. */
  function Prefixed(data: seq<byte>, k: nat): Option<(seq<byte>, seq<byte>)> {
    if |data| < k then None
    else
      var n := ReadBE(data[..k]);
      if k + n > |data| then None else Some((data[k..k + n], data[k + n..]))
  }

  lemma PrefixedReadsBack(s: seq<byte>, k: nat, more: seq<byte>)
    requires |s| < Pow256(k)
    ensures Prefixed(BE(|s|, k) + s + more, k) == Some((s, more))
  {
    hide BE, ReadBE;
    ReadBack(|s|, k);
    var data := BE(|s|, k) + s + more;
    assert data[..k] == BE(|s|, k);
    Seams(BE(|s|, k), s, more);
  }
}

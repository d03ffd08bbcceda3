/** Key schedule, nonces and sealing: internal/protocol/mmtls_crypto.go.
    SHA-256, HMAC, AES-GCM and P-256 are parameters; `Lawful` states what is relied on. */
module Crypto {
  import opened Bytes

  datatype Primitives = Primitives(
    sha256: seq<byte> -> seq<byte>,
    hmac: (seq<byte>, seq<byte>) -> seq<byte>,
    seal: (seq<byte>, seq<byte>, seq<byte>, seq<byte>) -> seq<byte>,           // key, nonce, plaintext, aad
    unseal: (seq<byte>, seq<byte>, seq<byte>, seq<byte>) -> Option<seq<byte>>, // key, nonce, ciphertext, aad
    publicOf: seq<byte> -> seq<byte>,
    ecdh: (seq<byte>, seq<byte>) -> Option<seq<byte>>)

  /** Output lengths, unseal(seal(p)) = p, and Diffie-Hellman agreement. */
  ghost predicate Lawful(c: Primitives) {
    && (forall m :: |c.sha256(m)| == 32)
    && (forall k, m :: |c.hmac(k, m)| == 32)
    && (forall k, n, p, a :: |c.seal(k, n, p, a)| == |p| + 16)
    && (forall k, n, p, a :: c.unseal(k, n, c.seal(k, n, p, a), a) == Some(p))
    && (forall x :: |c.publicOf(x)| == 65)
    && (forall x, y :: c.ecdh(x, c.publicOf(y)).Some?)
    && (forall x, y :: c.ecdh(x, c.publicOf(y)) == c.ecdh(y, c.publicOf(x)))
  }

  /** GCM opens nothing but what sealing produces under the same key, nonce and data. */
  ghost predicate Authentic(c: Primitives) {
    forall k, n, x, a :: c.unseal(k, n, x, a).Some? ==> x == c.seal(k, n, c.unseal(k, n, x, a).value, a)
  }

  const TAG_LEN: nat := 16

  /** The key sizes aes.NewCipher accepts. */
  predicate AesKey(key: seq<byte>) {
    |key| == 16 || |key| == 24 || |key| == 32
  }

  // ---- HKDF ------------------------------------------------------------------------------

  /** T(i) with the loop's counter, a byte that wraps. */
  function Block(c: Primitives, prk: seq<byte>, info: seq<byte>, i: nat): seq<byte> {
    if i == 0 then [] else c.hmac(prk, Block(c, prk, info, i - 1) + info + [i % 256])
  }

  /** T(1) | ... | T(n) */
  function Blocks(c: Primitives, prk: seq<byte>, info: seq<byte>, n: nat): seq<byte> {
    if n == 0 then [] else Blocks(c, prk, info, n - 1) + Block(c, prk, info, n)
  }

  function Ceil32(length: nat): nat { (length + 31) / 32 }

  /** hkdfExpand */
  function Expand(c: Primitives, prk: seq<byte>, info: seq<byte>, length: nat): (r: seq<byte>)
    requires Lawful(c)
    ensures |r| == length
  {
    BlocksLength(c, prk, info, Ceil32(length));
    Blocks(c, prk, info, Ceil32(length))[..length]
  }

  /** T(i) of section 2.3 of RFC 5869, whose counter is a single octet. */
  function RfcBlock(c: Primitives, prk: seq<byte>, info: seq<byte>, i: nat): seq<byte>
    requires i <= 255
  {
    if i == 0 then [] else c.hmac(prk, RfcBlock(c, prk, info, i - 1) + info + [i])
  }

  lemma {:induction false} BlocksLength(c: Primitives, prk: seq<byte>, info: seq<byte>, n: nat)
    requires Lawful(c)
    ensures |Blocks(c, prk, info, n)| == 32 * n
  {
    if n > 0 { BlocksLength(c, prk, info, n - 1); }
  }

  lemma {:induction false} BlockIsRfc(c: Primitives, prk: seq<byte>, info: seq<byte>, i: nat)
    requires i <= 255
    ensures Block(c, prk, info, i) == RfcBlock(c, prk, info, i)
  {
    if i > 0 { BlockIsRfc(c, prk, info, i - 1); }
  }

  lemma {:induction false} BlocksAt(c: Primitives, prk: seq<byte>, info: seq<byte>, n: nat, i: nat)
    requires Lawful(c) && 1 <= i <= n
    ensures 32 * i <= |Blocks(c, prk, info, n)|
    ensures Blocks(c, prk, info, n)[32 * (i - 1)..32 * i] == Block(c, prk, info, i)
    ensures Blocks(c, prk, info, n)[..32 * i] == Blocks(c, prk, info, i)
  {
    BlocksLength(c, prk, info, n);
    BlocksLength(c, prk, info, n - 1);
    var all, init := Blocks(c, prk, info, n), Blocks(c, prk, info, n - 1);
    if i < n {
      BlocksAt(c, prk, info, n - 1, i);
      assert all[32 * (i - 1)..32 * i] == init[32 * (i - 1)..32 * i];
      assert all[..32 * i] == init[..32 * i];
    }
  }

  /** Up to 255 blocks the output is T(1) | T(2) | ... of RFC 5869, cut to length. */
  lemma ExpandIsRfc5869(c: Primitives, prk: seq<byte>, info: seq<byte>, length: nat, k: nat)
    requires Lawful(c) && length <= 255 * 32 && k < length
    ensures |RfcBlock(c, prk, info, k / 32 + 1)| == 32
    ensures Expand(c, prk, info, length)[k] == RfcBlock(c, prk, info, k / 32 + 1)[k % 32]
  {
    var i, n := k / 32 + 1, Ceil32(length);
    BlockIsRfc(c, prk, info, i);
    BlocksAt(c, prk, info, n, i);
    assert Blocks(c, prk, info, n)[32 * (i - 1)..32 * i][k % 32] == Blocks(c, prk, info, n)[k];
  }

  /** A shorter output is a prefix of a longer one. */
  lemma ExpandPrefix(c: Primitives, prk: seq<byte>, info: seq<byte>, short: nat, long: nat)
    requires Lawful(c) && short <= long
    ensures Expand(c, prk, info, short) == Expand(c, prk, info, long)[..short]
  {
    var m, n := Ceil32(short), Ceil32(long);
    if m > 0 {
      BlocksAt(c, prk, info, n, m);
      assert Blocks(c, prk, info, n)[..32 * m][..short] == Blocks(c, prk, info, n)[..short];
    }
  }

  lemma BlocksGrow(c: Primitives, prk: seq<byte>, info: seq<byte>, n: nat)
    requires Lawful(c)
    ensures Block(c, prk, info, n + 1) == c.hmac(prk, Block(c, prk, info, n) + info + [(n + 1) % 256])
    ensures Blocks(c, prk, info, n + 1) == Blocks(c, prk, info, n) + Block(c, prk, info, n + 1)
    ensures |Blocks(c, prk, info, n + 1)| == 32 * (n + 1)
  {
    BlocksLength(c, prk, info, n + 1);
  }

  lemma CeilSteps(n: nat, length: nat)
    ensures 32 * n < length ==> n + 1 <= Ceil32(length)
    ensures 32 * n >= length ==> Ceil32(length) <= n
  {
  }

  method HkdfExpand(c: Primitives, prk: seq<byte>, info: seq<byte>, length: nat) returns (r: seq<byte>)
    requires Lawful(c)
    ensures r == Expand(c, prk, info, length)
  {
    var out: seq<byte>, t: seq<byte> := [], [];
    var counter: byte := 1;
    ghost var n := 0;
    assert out == Blocks(c, prk, info, n) && t == Block(c, prk, info, n);
    hide Block, Blocks, Lawful, Ceil32;
    CeilSteps(0, length);
    while |out| < length
      invariant counter == (n + 1) % 256
      invariant out == Blocks(c, prk, info, n) && t == Block(c, prk, info, n)
      invariant |out| == 32 * n && n <= Ceil32(length)
      decreases length - |out|
    {
      BlocksGrow(c, prk, info, n);
      CeilSteps(n, length);
      t := c.hmac(prk, t + info + [counter]);
      out := out + t;
      counter := (counter + 1) % 256;
      n := n + 1;
    }
    CeilSteps(n, length);
    return out[..length];
  }

  function ExpandLabel(c: Primitives, secret: seq<byte>, tag: seq<byte>, context: seq<byte>,
                       length: nat): (r: seq<byte>)
    requires Lawful(c)
    ensures |r| == length
  {
    Expand(c, secret, tag + context, length)
  }

  datatype TrafficKeys = TrafficKeys(clientKey: seq<byte>, serverKey: seq<byte>, clientIV: seq<byte>,
                                     serverIV: seq<byte>)
  datatype OneWayKeys = OneWayKeys(key: seq<byte>, iv: seq<byte>)

  /** The four parts cover the key block exactly: nothing shared, nothing dropped. */
  function SplitBiKeys(kb: seq<byte>): (k: TrafficKeys)
    requires |kb| == 56
    ensures kb == k.clientKey + k.serverKey + k.clientIV + k.serverIV
    ensures |k.clientKey| == |k.serverKey| == 16 && |k.clientIV| == |k.serverIV| == 12
  {
    TrafficKeys(kb[0..16], kb[16..32], kb[32..44], kb[44..56])
  }

  function DeriveMaster(c: Primitives, secret: seq<byte>, hsHash: seq<byte>): seq<byte>
    requires Lawful(c)
  {
    ExpandLabel(c, secret, StringBytes("expanded secret"), hsHash, 32)
  }

  function DeriveHandshakeKeys(c: Primitives, secret: seq<byte>, hsHash: seq<byte>): TrafficKeys
    requires Lawful(c)
  {
    SplitBiKeys(ExpandLabel(c, secret, StringBytes("handshake key expansion"), hsHash, 56))
  }

  function DeriveAppKeys(c: Primitives, master: seq<byte>, hsHash: seq<byte>): TrafficKeys
    requires Lawful(c)
  {
    SplitBiKeys(ExpandLabel(c, master, StringBytes("application data key expansion"), hsHash, 56))
  }

  function FinishedVerifyData(c: Primitives, secret: seq<byte>, isClient: bool, hsHash: seq<byte>): (r: seq<byte>)
    requires Lawful(c)
    ensures |r| == 32
  {
    var tag := StringBytes(if isClient then "client finished" else "server finished");
    c.hmac(ExpandLabel(c, secret, tag, [], 32), hsHash)
  }

  function DerivePSK(c: Primitives, secret: seq<byte>, hCertV: seq<byte>, pskType: int): seq<byte>
    requires Lawful(c)
  {
    ExpandLabel(c, secret, StringBytes(if pskType == 1 then "PSK_ACCESS" else "PSK_REFRESH"), hCertV, 32)
  }

  function DerivePSKOneWayKeys(c: Primitives, psk: seq<byte>, tag: seq<byte>, hsHash: seq<byte>): (k: OneWayKeys)
    requires Lawful(c)
    ensures |k.key| == 16 && |k.iv| == 12
  {
    var kb := ExpandLabel(c, psk, tag, hsHash, 28);
    OneWayKeys(kb[..16], kb[16..28])
  }

  function MmtlsSecret(c: Primitives, priv: seq<byte>, peerPub: seq<byte>): Option<seq<byte>> {
    match c.ecdh(priv, peerPub)
    case None => None
    case Some(shared) => Some(c.sha256(shared))
  }

  // ---- The key schedule, from its labels -------------------------------------------------

  /** out is the HKDF-Expand of section 2.3 of RFC 5869 for this key, label and context. */
  ghost predicate IsHkdf(c: Primitives, out: seq<byte>, prk: seq<byte>, tag: string, context: seq<byte>, length: nat)
    requires Lawful(c) && length <= 255 * 32
  {
    && |out| == length
    && forall k :: 0 <= k < length ==> IsHkdfByte(c, out[k], prk, tag, context, k)
  }

  ghost predicate IsHkdfByte(c: Primitives, b: byte, prk: seq<byte>, tag: string, context: seq<byte>, k: nat)
    requires k < 255 * 32
  {
    var t := RfcBlock(c, prk, StringBytes(tag) + context, k / 32 + 1);
    |t| == 32 && b == t[k % 32]
  }

  lemma ExpandLabelIsHkdf(c: Primitives, prk: seq<byte>, tag: string, context: seq<byte>, length: nat)
    requires Lawful(c) && length <= 255 * 32
    ensures IsHkdf(c, ExpandLabel(c, prk, StringBytes(tag), context, length), prk, tag, context, length)
  {
    hide Expand, RfcBlock, StringBytes, Lawful;
    forall k | 0 <= k < length
      ensures IsHkdfByte(c, ExpandLabel(c, prk, StringBytes(tag), context, length)[k], prk, tag, context, k)
    {
      ExpandIsRfc5869(c, prk, StringBytes(tag) + context, length, k);
    }
  }

  /** The traffic keys: client key, server key, client IV, server IV, one after the other, from the
      secret for the handshake and from the master secret for application data. */
  lemma TrafficKeySchedule(c: Primitives, secret: seq<byte>, hash: seq<byte>)
    requires Lawful(c)
    ensures var k := DeriveHandshakeKeys(c, secret, hash);
            && |k.clientKey| == |k.serverKey| == 16 && |k.clientIV| == |k.serverIV| == 12
            && IsHkdf(c, k.clientKey + k.serverKey + k.clientIV + k.serverIV, secret,
                      "handshake key expansion", hash, 56)
    ensures IsHkdf(c, DeriveMaster(c, secret, hash), secret, "expanded secret", hash, 32)
    ensures var k := DeriveAppKeys(c, DeriveMaster(c, secret, hash), hash);
            && |k.clientKey| == |k.serverKey| == 16 && |k.clientIV| == |k.serverIV| == 12
            && IsHkdf(c, k.clientKey + k.serverKey + k.clientIV + k.serverIV, DeriveMaster(c, secret, hash),
                      "application data key expansion", hash, 56)
  {
    hide IsHkdf, ExpandLabel, SplitBiKeys;
    ExpandLabelIsHkdf(c, secret, "handshake key expansion", hash, 56);
    ExpandLabelIsHkdf(c, secret, "expanded secret", hash, 32);
    ExpandLabelIsHkdf(c, DeriveMaster(c, secret, hash), "application data key expansion", hash, 56);
  }

  /** Verify data: the hash under a key of the side's own label. */
  lemma FinishedSchedule(c: Primitives, secret: seq<byte>, hash: seq<byte>)
    returns (client: seq<byte>, server: seq<byte>)
    requires Lawful(c)
    ensures IsHkdf(c, client, secret, "client finished", [], 32) && IsHkdf(c, server, secret, "server finished", [], 32)
    ensures FinishedVerifyData(c, secret, true, hash) == c.hmac(client, hash)
    ensures FinishedVerifyData(c, secret, false, hash) == c.hmac(server, hash)
  {
    hide IsHkdf, ExpandLabel;
    client := ExpandLabel(c, secret, StringBytes("client finished"), [], 32);
    server := ExpandLabel(c, secret, StringBytes("server finished"), [], 32);
    ExpandLabelIsHkdf(c, secret, "client finished", [], 32);
    ExpandLabelIsHkdf(c, secret, "server finished", [], 32);
  }

  /** A PSK, by the type of its ticket, and the one key and IV that a PSK gives under a label. */
  lemma PskSchedule(c: Primitives, secret: seq<byte>, hash: seq<byte>, psk: seq<byte>, tag: string)
    requires Lawful(c)
    ensures IsHkdf(c, DerivePSK(c, secret, hash, 1), secret, "PSK_ACCESS", hash, 32)
    ensures forall t :: t != 1 ==> IsHkdf(c, DerivePSK(c, secret, hash, t), secret, "PSK_REFRESH", hash, 32)
    ensures var k := DerivePSKOneWayKeys(c, psk, StringBytes(tag), hash);
            |k.key| == 16 && |k.iv| == 12 && IsHkdf(c, k.key + k.iv, psk, tag, hash, 28)
  {
    hide IsHkdf, ExpandLabel;
    ExpandLabelIsHkdf(c, secret, "PSK_ACCESS", hash, 32);
    ExpandLabelIsHkdf(c, secret, "PSK_REFRESH", hash, 32);
    ExpandLabelIsHkdf(c, psk, tag, hash, 28);
    var kb := ExpandLabel(c, psk, StringBytes(tag), hash, 28);
    assert kb[..16] + kb[16..28] == kb;
  }

  // ---- Nonce and additional data ---------------------------------------------------------

  /** Exclusive or of the k low bits. */
  function XorBits(a: nat, b: nat, k: nat): (r: nat)
    ensures r < Pow2(k)
  {
    if k == 0 then 0 else (a % 2 + b % 2) % 2 + 2 * XorBits(a / 2, b / 2, k - 1)
  }

  lemma Pow2Of8()
    ensures Pow2(8) == 256
  {
    assert Pow2(4) == 2 * Pow2(3) == 4 * Pow2(2) == 16;
    assert Pow2(8) == 2 * Pow2(7) == 4 * Pow2(6) == 8 * Pow2(5) == 16 * Pow2(4);
  }

  function Xor(a: byte, b: byte): (r: byte) {
    Pow2Of8();
    XorBits(a, b, 8)
  }

  lemma XorBitsHalves(a: nat, b: nat, k: nat)
    requires k > 0
    ensures XorBits(a, b, k) % 2 == (a % 2 + b % 2) % 2
    ensures XorBits(a, b, k) / 2 == XorBits(a / 2, b / 2, k - 1)
  {
  }

  lemma {:induction false} XorBitsCancel(a: nat, b: nat, c: nat, k: nat)
    requires b < Pow2(k) && c < Pow2(k) && XorBits(a, b, k) == XorBits(a, c, k)
    ensures b == c
    decreases k
  {
    hide XorBits;
    if k > 0 {
      XorBitsHalves(a, b, k);
      XorBitsHalves(a, c, k);
      XorBitsCancel(a / 2, b / 2, c / 2, k - 1);
    }
  }

  lemma XorCancels(a: byte, b: byte, c: byte)
    requires Xor(a, b) == Xor(a, c)
    ensures b == c
  {
    Pow2Of8();
    XorBitsCancel(a, b, c, 8);
  }

  /** The last eight bytes of the IV XORed with the big-endian sequence number. */
  function Nonce(iv: seq<byte>, seqNo: uint64): (r: seq<byte>)
    requires |iv| >= 8
    ensures |r| == |iv|
  {
    var n := |iv| - 8;
    iv[..n] + seq(8, i requires 0 <= i < 8 => Xor(iv[n + i], BE(seqNo, 8)[i]))
  }

  function Bit(n: nat, i: nat): nat {
    if i == 0 then n % 2 else Bit(n / 2, i - 1)
  }

  lemma {:induction false} XorBitAt(a: nat, b: nat, k: nat, i: nat)
    requires i < k
    ensures Bit(XorBits(a, b, k), i) == (Bit(a, i) + Bit(b, i)) % 2
    decreases i
  {
    hide XorBits;
    XorBitsHalves(a, b, k);
    if i > 0 { XorBitAt(a / 2, b / 2, k - 1, i - 1); }
  }

  /** Every bit of the nonce is the IV's, flipped where the 64-bit sequence number, right-aligned in the
      IV's length, has a one. */
  lemma NonceBits(iv: seq<byte>, seqNo: uint64, k: nat, i: nat)
    requires |iv| >= 8 && k < |iv| && i < 8
    ensures k < |iv| - 8 ==> Nonce(iv, seqNo)[k] == iv[k]
    ensures k >= |iv| - 8 ==>
              Bit(Nonce(iv, seqNo)[k], i) == (Bit(iv[k], i) + Bit(seqNo / Pow256(|iv| - 1 - k) % 256, i)) % 2
  {
    hide BE, XorBits, Bit, Pow256, Pow2;
    if k >= |iv| - 8 {
      var j := k - (|iv| - 8);
      BigEndian(seqNo, 8, j);
      XorBitAt(iv[k], BE(seqNo, 8)[j], 8, i);
    }
  }

  /** Distinct sequence numbers give distinct nonces. */
  lemma NonceInjective(iv: seq<byte>, s: uint64, t: uint64)
    requires |iv| >= 8 && Nonce(iv, s) == Nonce(iv, t)
    ensures s == t
  {
    hide BE, Xor;
    var n := |iv| - 8;
    forall i | 0 <= i < 8 ensures BE(s, 8)[i] == BE(t, 8)[i] {
      assert Nonce(iv, s)[n + i] == Xor(iv[n + i], BE(s, 8)[i]);
      assert Nonce(iv, t)[n + i] == Xor(iv[n + i], BE(t, 8)[i]);
      XorCancels(iv[n + i], BE(s, 8)[i], BE(t, 8)[i]);
    }
    assert BE(s, 8) == BE(t, 8);
    Pow256Values();
    BEInjective(s, t, 8);
  }

  lemma NonceFromParts(iv: seq<byte>, seqNo: uint64, r: seq<byte>)
    requires |iv| >= 8 && |r| == |iv|
    requires forall k :: 0 <= k < |iv| - 8 ==> r[k] == iv[k]
    requires forall k :: |iv| - 8 <= k < |iv| ==> r[k] == Xor(iv[k], BE(seqNo, 8)[k - (|iv| - 8)])
    ensures r == Nonce(iv, seqNo)
  {
    hide BE, Xor;
    forall k | 0 <= k < |iv| ensures r[k] == Nonce(iv, seqNo)[k] {}
  }

  method NonceOf(iv: seq<byte>, seqNo: uint64) returns (r: seq<byte>)
    requires |iv| >= 8
    ensures r == Nonce(iv, seqNo)
  {
    hide BE, Xor, Nonce;
    var out := new byte[|iv|];
    PutBytes(out, 0, iv);
    var s := BE(seqNo, 8);
    var n := |iv| - 8;
    for i := 0 to 8
      invariant forall k :: 0 <= k < n ==> out[k] == iv[k]
      invariant forall k :: n <= k < n + i ==> out[k] == Xor(iv[k], s[k - n])
      invariant forall k :: n + i <= k < |iv| ==> out[k] == iv[k]
    {
      out[n + i] := Xor(out[n + i], s[i]);
    }
    NonceFromParts(iv, seqNo, out[..]);
    return out[..];
  }

  function RecordAAD(seqNo: uint64, contentType: byte, cipherLen: nat): seq<byte> {
    BE(seqNo, 8) + [contentType] + [0xf1, 0x03] + BE(cipherLen, 2)
  }

  /** Where each value lies in the thirteen bytes. */
  method BuildRecordAAD(seqNo: uint64, contentType: byte, cipherLen: nat) returns (r: seq<byte>)
    ensures r == RecordAAD(seqNo, contentType, cipherLen)
    ensures |r| == 13 && r[..8] == BE(seqNo, 8) && r[8..11] == [contentType, 0xf1, 0x03] && r[11..] == BE(cipherLen, 2)
  {
    hide BE;
    var out := new byte[13];
    PutBytes(out, 0, BE(seqNo, 8));
    assert out[..8] == BE(seqNo, 8);
    out[8] := contentType;
    out[9] := 0xf1;
    out[10] := 0x03;
    assert out[..11] == BE(seqNo, 8) + [contentType] + [0xf1, 0x03];
    ghost var front := out[..11];
    PutBytes(out, 11, BE(cipherLen, 2));
    assert out[..] == front + BE(cipherLen, 2);
    return out[..];
  }

  /** encryptRecordPayload; None is the error for a key AES does not take. */
  function EncryptRecord(c: Primitives, key: seq<byte>, iv: seq<byte>, seqNo: uint64, contentType: byte,
                         plain: seq<byte>): Option<seq<byte>>
    requires |iv| == 12
  {
    if !AesKey(key) then None
    else Some(c.seal(key, Nonce(iv, seqNo), plain, RecordAAD(seqNo, contentType, |plain| + TAG_LEN)))
  }

  function DecryptRecord(c: Primitives, key: seq<byte>, iv: seq<byte>, seqNo: uint64, contentType: byte,
                         ct: seq<byte>): Option<seq<byte>>
    requires |iv| == 12
  {
    if !AesKey(key) then None
    else c.unseal(key, Nonce(iv, seqNo), ct, RecordAAD(seqNo, contentType, |ct|))
  }

  /** Sealed at one sequence number and content type, a payload opens at the same ones. */
  lemma RecordOpens(c: Primitives, key: seq<byte>, iv: seq<byte>, seqNo: uint64, contentType: byte, plain: seq<byte>)
    requires Lawful(c) && |iv| == 12 && AesKey(key)
    ensures EncryptRecord(c, key, iv, seqNo, contentType, plain).Some?
    ensures var ct := EncryptRecord(c, key, iv, seqNo, contentType, plain).value;
            |ct| == |plain| + 16 && DecryptRecord(c, key, iv, seqNo, contentType, ct) == Some(plain)
  {
    hide Nonce, RecordAAD;
  }

  // ---- The ciphertext | iv | tag layout --------------------------------------------------

  /** aesGCMEncryptLayout with its random IV as an argument. */
  function EncryptLayout(c: Primitives, key: seq<byte>, aad: seq<byte>, iv: seq<byte>,
                         plain: seq<byte>): (r: Option<seq<byte>>)
    requires Lawful(c) && |iv| == 12
    ensures r.Some? <==> AesKey(key)
    ensures r.Some? ==> |r.value| == |plain| + 28
  {
    if !AesKey(key) then None
    else
      var ct := c.seal(key, iv, plain, aad);
      Some(ct[..|ct| - 16] + iv + ct[|ct| - 16..])
  }

  function DecryptLayout(c: Primitives, key: seq<byte>, aad: seq<byte>, blob: seq<byte>): Option<seq<byte>> {
    if |blob| < 28 || !AesKey(key) then None
    else
      var n := |blob|;
      c.unseal(key, blob[n - 28..n - 16], blob[..n - 28] + blob[n - 16..], aad)
  }

  lemma LayoutOpens(c: Primitives, key: seq<byte>, aad: seq<byte>, iv: seq<byte>, plain: seq<byte>)
    requires Lawful(c) && |iv| == 12 && AesKey(key)
    ensures DecryptLayout(c, key, aad, EncryptLayout(c, key, aad, iv, plain).value) == Some(plain)
  {
    var ct := c.seal(key, iv, plain, aad);
    var body, tag := ct[..|ct| - 16], ct[|ct| - 16..];
    var blob := body + iv + tag;
    Seams(body, iv, tag);
    assert blob[..|blob| - 28] == body;
    assert body + tag == ct;
  }

  /** The layout: the ciphertext without its tag, the IV, the tag. */
  lemma LayoutParts(c: Primitives, key: seq<byte>, aad: seq<byte>, iv: seq<byte>, plain: seq<byte>)
    requires Lawful(c) && |iv| == 12 && AesKey(key)
    ensures var blob, n := EncryptLayout(c, key, aad, iv, plain).value, |plain|;
            && |blob| == n + 28 && blob[n..n + 12] == iv
            && blob[..n] + blob[n + 12..] == c.seal(key, iv, plain, aad)
  {
    var ct := c.seal(key, iv, plain, aad);
    Seams(ct[..|plain|], iv, ct[|plain|..]);
    assert ct[..|plain|] + ct[|plain|..] == ct;
  }

  /** Under authenticity, what opens was sealed with the same key and data under the IV it carries. */
  lemma LayoutIsSealed(c: Primitives, key: seq<byte>, aad: seq<byte>, blob: seq<byte>)
    requires Lawful(c) && Authentic(c) && DecryptLayout(c, key, aad, blob).Some?
    ensures |blob| >= 28 && AesKey(key)
    ensures var iv, plain := blob[|blob| - 28..|blob| - 16], DecryptLayout(c, key, aad, blob).value;
            EncryptLayout(c, key, aad, iv, plain) == Some(blob)
  {
    var n := |blob|;
    var iv, wire := blob[n - 28..n - 16], blob[..n - 28] + blob[n - 16..];
    var p := c.unseal(key, iv, wire, aad).value;
    assert wire == c.seal(key, iv, p, aad);
    assert wire[..|wire| - 16] == blob[..n - 28] && wire[|wire| - 16..] == blob[n - 16..];
    assert blob == blob[..n - 28] + iv + blob[n - 16..];
  }
}

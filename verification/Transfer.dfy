/** The nested transfer packet and the search for a session-encrypted body:
    internal/protocol/ilink.go, sessionWpkgHead, buildTransferPacket, sessionDecrypt, extractCode, extractSession. */
module Transfer {
  import opened Bytes
  import opened Crypto
  import opened Messages
  import opened Wpkg
  import Lz4
  import Protobuf

  datatype AppSession = AppSession(
    sendKey: seq<byte>,
    recvKey: seq<byte>,
    f9: seq<byte>,
    uin: int64,
    ticket: seq<byte>,
    deviceID: seq<byte>,
    hostAppID: seq<byte>)

  const TRANSFER_CMD: nat := 0x0b41
  const CLIENT_VERSION: uint64 := 524545

  function TransferURL(): seq<byte> { StringBytes("/ilink/ilinkapp/mp/wxaruntime_transfer") }
  function TransferHost(): seq<byte> { StringBytes("shortcloud.weixin.com") }
  function IlinkDevice(): seq<byte> { StringBytes("ilinkapp_060000b7b93f6c") }

  // ---- Building --------------------------------------------------------------------------

  function HeadInts(uin: int64): Ints {
    map[1 := 1, 2 := UnsignedOf(uin), 3 := 0, 4 := 0, 5 := CLIENT_VERSION, 6 := 11, 7 := 0, 8 := 0, 9 := 0,
        10 := 1, 11 := 0, 12 := 0, 13 := 0, 17 := 0, 18 := 1, 20 := 1504, 21 := 0, 22 := UnsignedOf(uin),
        23 := 0, 25 := 16, 26 := 4, 28 := 1, 29 := 1, 30 := 0]
  }

  function HeadByts(f9: seq<byte>, deviceID: seq<byte>): Byts {
    map[14 := [], 24 := if |deviceID| == 0 then IlinkDevice() else deviceID, 27 := f9]
  }

  ghost predicate IsSessionHead(head: seq<byte>, s: AppSession) {
    IsHead(head, HeadInts(s.uin), HeadByts(s.f9, s.deviceID))
  }

  /** The fields of a session's header, by number. */
  predicate HeadCarries(ints: Ints, byts: Byts, s: AppSession) {
    IntsCarry(ints, s) && BytsCarry(byts, s)
  }

  predicate BytsCarry(byts: Byts, s: AppSession) {
    && byts.Keys == {14, 24, 27}
    && byts[14] == [] && byts[27] == s.f9
    && byts[24] == (if |s.deviceID| == 0 then StringBytes("ilinkapp_060000b7b93f6c") else s.deviceID)
  }

  predicate IntsCarry(ints: Ints, s: AppSession) {
    && ints.Keys == {1, 2, 3, 4, 5, 6, 7, 8, 9, 10, 11, 12, 13, 17, 18, 20, 21, 22, 23, 25, 26, 28, 29, 30}
    && ints[2] == ints[22] == (if s.uin < 0 then s.uin + TWO64 else s.uin)
    && ints[5] == 524545 && ints[6] == 11 && ints[20] == 1504 && ints[25] == 16 && ints[26] == 4
    && (forall k :: k in {1, 10, 18, 28, 29} ==> ints[k] == 1)
    && (forall k :: k in {3, 4, 7, 8, 9, 11, 12, 13, 17, 21, 23, 30} ==> ints[k] == 0)
  }

  lemma HeadFieldsCarry(s: AppSession)
    ensures HeadCarries(HeadInts(s.uin), HeadByts(s.f9, s.deviceID), s)
  {
    hide HeadInts, HeadByts, IntsCarry, BytsCarry;
    assert IntsCarry(HeadInts(s.uin), s) by { HeadIntsCarry(s); }
    assert BytsCarry(HeadByts(s.f9, s.deviceID), s) by { HeadBytsCarry(s); }
  }

  lemma HeadBytsCarry(s: AppSession)
    ensures BytsCarry(HeadByts(s.f9, s.deviceID), s)
  {
    hide StringBytes;
  }

  lemma HeadIntsCarry(s: AppSession)
    ensures IntsCarry(HeadInts(s.uin), s)
  {
    hide IntsCarry, HeadInts;
    var ints := HeadInts(s.uin);
    HeadIntsKeys(s);
    HeadIntsTo5(s);
    HeadIntsTo10(s);
    HeadIntsTo18(s);
    HeadIntsTo25(s);
    HeadIntsTo30(s);
    IntsCarryFrom(ints, s);
  }

  lemma IntsCarryFrom(ints: Ints, s: AppSession)
    requires ints.Keys == {1, 2, 3, 4, 5, 6, 7, 8, 9, 10, 11, 12, 13, 17, 18, 20, 21, 22, 23, 25, 26, 28, 29, 30}
    requires ints[2] == ints[22] == UnsignedOf(s.uin)
    requires ints[5] == 524545 && ints[6] == 11 && ints[20] == 1504 && ints[25] == 16 && ints[26] == 4
    requires ints[1] == ints[10] == ints[18] == ints[28] == ints[29] == 1
    requires ints[3] == ints[4] == ints[7] == ints[8] == ints[9] == ints[11] == 0
    requires ints[12] == ints[13] == ints[17] == ints[21] == ints[23] == ints[30] == 0
    ensures IntsCarry(ints, s)
  {
  }

  lemma HeadIntsKeys(s: AppSession)
    ensures HeadInts(s.uin).Keys
         == {1, 2, 3, 4, 5, 6, 7, 8, 9, 10, 11, 12, 13, 17, 18, 20, 21, 22, 23, 25, 26, 28, 29, 30}
  {
    hide UnsignedOf;
  }

  lemma HeadIntsTo5(s: AppSession)
    ensures var ints := HeadInts(s.uin);
            && 1 in ints && 2 in ints && 3 in ints && 4 in ints && 5 in ints
            && ints[1] == 1 && ints[2] == UnsignedOf(s.uin) && ints[3] == 0 && ints[4] == 0 && ints[5] == 524545
  {
    hide UnsignedOf;
  }

  lemma HeadIntsTo10(s: AppSession)
    ensures var ints := HeadInts(s.uin);
            && 6 in ints && 7 in ints && 8 in ints && 9 in ints && 10 in ints
            && ints[6] == 11 && ints[7] == 0 && ints[8] == 0 && ints[9] == 0 && ints[10] == 1
  {
    hide UnsignedOf;
  }

  lemma HeadIntsTo18(s: AppSession)
    ensures var ints := HeadInts(s.uin);
            && 11 in ints && 12 in ints && 13 in ints && 17 in ints && 18 in ints
            && ints[11] == 0 && ints[12] == 0 && ints[13] == 0 && ints[17] == 0 && ints[18] == 1
  {
    hide UnsignedOf;
  }

  lemma HeadIntsTo25(s: AppSession)
    ensures var ints := HeadInts(s.uin);
            && 20 in ints && 21 in ints && 22 in ints && 23 in ints && 25 in ints
            && ints[20] == 1504 && ints[21] == 0 && ints[22] == UnsignedOf(s.uin) && ints[23] == 0 && ints[25] == 16
  {
    hide UnsignedOf;
  }

  lemma HeadIntsTo30(s: AppSession)
    ensures var ints := HeadInts(s.uin);
            && 26 in ints && 28 in ints && 29 in ints && 30 in ints
            && ints[26] == 4 && ints[28] == 1 && ints[29] == 1 && ints[30] == 0
  {
    hide UnsignedOf;
  }

  /** What decodeWpkgHead reads at the front of head is this session's header, all of head. */
  ghost predicate ReadsAsSession(head: seq<byte>, rest: seq<byte>, s: AppSession)
    requires |head + rest| < TWO63
  {
    var r := ParseHead(head + rest);
    r.Good? && r.value.length == |head| && HeadCarries(r.value.ints, r.value.byts, s)
  }

  lemma SessionHeadReads(head: seq<byte>, rest: seq<byte>, s: AppSession)
    requires IsSessionHead(head, s) && |head + rest| < TWO63
    ensures ReadsAsSession(head, rest, s)
  {
    hide ParseHead, IsHead, HeadInts, HeadByts, HeadCarries;
    NoZeroKeys(s);
    HeadFieldsCarry(s);
    DecodeUndoesHead(head, HeadInts(s.uin), HeadByts(s.f9, s.deviceID), rest);
  }

  method SessionWpkgHead(s: AppSession) returns (head: seq<byte>)
    requires |s.f9| < TWO63 && |s.deviceID| < TWO63
    ensures |head| < TWO63 ==> IsSessionHead(head, s)
    ensures forall rest: seq<byte> :: |head + rest| < TWO63 ==> ReadsAsSession(head, rest, s)
  {
    hide IsHead, HeadInts, ReadsAsSession;
    head := WpkgHead(HeadInts(s.uin), HeadByts(s.f9, s.deviceID));
    forall rest: seq<byte> | |head + rest| < TWO63 ensures ReadsAsSession(head, rest, s) {
      SessionHeadReads(head, rest, s);
    }
  }

  function Inner(head: seq<byte>, enc: seq<byte>): seq<byte> {
    ShortlinkBytes(TRANSFER_CMD, 0, head + enc, DEFAULT_VER)
  }

  function Envelope(inner: seq<byte>): seq<byte> {
    BE(|TransferURL()|, 2) + TransferURL() + (BE(|TransferHost()|, 2) + TransferHost() + (BE(|inner|, 4) + inner))
  }

  function PacketBytes(head: seq<byte>, enc: seq<byte>): seq<byte> {
    var env := Envelope(Inner(head, enc));
    BE(|env|, 4) + env
  }

  /** The random IV of the layout is an argument; None is the error for a key AES does not take. */
  method BuildTransferPacket(c: Primitives, s: AppSession, iv: seq<byte>, plaintext: seq<byte>)
    returns (r: Option<seq<byte>>, ghost head: seq<byte>)
    requires Lawful(c) && |iv| == 12 && |s.f9| < TWO63 && |s.deviceID| < TWO63
    ensures r.Some? <==> AesKey(s.sendKey)
    ensures |head| < TWO63 ==> IsSessionHead(head, s)
    ensures var enc := EncryptLayout(c, s.sendKey, [], iv, Lz4.AllLiteral(plaintext));
            r.Some? ==> r.value == PacketBytes(head, enc.value)
    ensures r.Some? && |r.value| < 0x1_0000_0000 ==> Carries(Unwrap(c, s.sendKey, r.value), s, plaintext)
  {
    hide Carries, Unwrap, ReadsAsSession, PacketBytes, Envelope, Inner, IsSessionHead, ShortlinkBytes, BE,
         Lz4.AllLiteral, EncryptLayout, TransferURL, TransferHost;
    var wpkg := SessionWpkgHead(s);
    head := wpkg;
    var comp := Lz4.Lz4AllLiteral(plaintext);
    var enc := EncryptLayout(c, s.sendKey, [], iv, comp);
    if enc.None? { return None, head; }
    var innerBody := wpkg + enc.value;
    var inner := BuildShortlink(TRANSFER_CMD, 0, innerBody, DEFAULT_VER);
    var env: seq<byte> := BE(|TransferURL()|, 2);
    env := env + TransferURL();
    env := env + BE(|TransferHost()|, 2);
    env := env + TransferHost();
    env := env + BE(|inner|, 4);
    env := env + inner;
    assert env == Envelope(inner) by { EnvelopeParts(inner); }
    var out := BE(|env|, 4) + env;
    assert out == PacketBytes(head, enc.value) by { PacketParts(head, enc.value); }
    if |out| < 0x1_0000_0000 {
      PacketHolds(head, enc.value);
      TransferRoundTrip(c, s, head, iv, plaintext);
    }
    return Some(out), head;
  }

  // ---- Unwrapping ------------------------------------------------------------------------

  /** What a receiver finds in a transfer packet. */
  datatype Contents = Contents(url: seq<byte>, host: seq<byte>, packet: Packet, head: Head, plaintext: seq<byte>)

  /** The innermost layers: wpkg header, sealed layout, LZ4 block. */
  function OpenBody(c: Primitives, key: seq<byte>, body: seq<byte>): Option<(Head, seq<byte>)>
    requires |body| < TWO63
  {
    match ParseHead(body)
    case Good(h) =>
      (match DecryptLayout(c, key, [], body[h.length..])
       case None => None
       case Some(comp) => match Lz4.Decompress(comp) case None => None case Some(p) => Some((h, p)))
    case _ => None
  }

  /** The receiving side of a transfer packet, layer by layer. */
  function Unwrap(c: Primitives, key: seq<byte>, packet: seq<byte>): Option<Contents>
    requires |packet| < TWO63
  {
    match Prefixed(packet, 4)
    case None => None
    case Some((env, _)) =>
      match Prefixed(env, 2)
      case None => None
      case Some((url, rest1)) =>
        match Prefixed(rest1, 2)
        case None => None
        case Some((host, rest2)) =>
          match Prefixed(rest2, 4)
          case None => None
          case Some((inner, _)) => UnwrapInner(c, key, url, host, inner)
  }

  function UnwrapInner(c: Primitives, key: seq<byte>, url: seq<byte>, host: seq<byte>,
                       inner: seq<byte>): Option<Contents>
  {
    match ParseShortlink(inner)
    case Good(p) =>
      if |p.body| >= TWO63 then None
      else (match OpenBody(c, key, p.body) case None => None case Some((h, pt)) => Some(Contents(url, host, p, h, pt)))
    case _ => None
  }

  /** The packet holds this session's header and this plaintext, addressed to the transfer URL. */
  predicate Carries(contents: Option<Contents>, s: AppSession, plaintext: seq<byte>) {
    && contents.Some?
    && var p := contents.value;
       && p.url == StringBytes("/ilink/ilinkapp/mp/wxaruntime_transfer")
       && p.host == StringBytes("shortcloud.weixin.com")
       && p.packet.magic == 0x1110 && p.packet.ver == 0x076d && p.packet.cmd == 0x0b41 && p.packet.seqNo == 0
       && HeadCarries(p.head.ints, p.head.byts, s)
       && p.plaintext == plaintext
  }

  lemma Regroup<T>(a: seq<T>, b: seq<T>, c: seq<T>, d: seq<T>, e: seq<T>, f: seq<T>)
    ensures a + b + c + d + e + f == a + b + (c + d + (e + f))
  {
    Assoc(a + b, c, d);
    Assoc(a + b + (c + d), e, f);
    Assoc(a + b, c + d, e + f);
  }

  lemma EnvelopeParts(inner: seq<byte>)
    ensures BE(|TransferURL()|, 2) + TransferURL() + BE(|TransferHost()|, 2) + TransferHost() + BE(|inner|, 4) + inner
         == Envelope(inner)
  {
    hide BE, TransferURL, TransferHost;
    Regroup(BE(|TransferURL()|, 2), TransferURL(), BE(|TransferHost()|, 2), TransferHost(), BE(|inner|, 4), inner);
  }

  lemma PacketParts(head: seq<byte>, enc: seq<byte>)
    ensures PacketBytes(head, enc) == BE(|Envelope(Inner(head, enc))|, 4) + Envelope(Inner(head, enc))
    ensures Inner(head, enc) == ShortlinkBytes(TRANSFER_CMD, 0, head + enc, DEFAULT_VER)
  {
  }

  lemma PacketHolds(head: seq<byte>, enc: seq<byte>)
    ensures |head| <= |PacketBytes(head, enc)|
  {
    EnvelopeHolds(Inner(head, enc));
  }

  lemma NoZeroKeys(s: AppSession)
    ensures 0 !in HeadInts(s.uin) && 0 !in HeadByts(s.f9, s.deviceID)
  {
  }

  lemma BodyOpens(c: Primitives, s: AppSession, head: seq<byte>, iv: seq<byte>, plaintext: seq<byte>)
    requires Lawful(c) && |iv| == 12 && AesKey(s.sendKey) && IsSessionHead(head, s)
    requires |head + EncryptLayout(c, s.sendKey, [], iv, Lz4.AllLiteral(plaintext)).value| < TWO63
    ensures var enc := EncryptLayout(c, s.sendKey, [], iv, Lz4.AllLiteral(plaintext)).value;
            var r := OpenBody(c, s.sendKey, head + enc);
            r.Some? && HeadCarries(r.value.0.ints, r.value.0.byts, s) && r.value.1 == plaintext
  {
    hide IsSessionHead, ParseHead, DecryptLayout, EncryptLayout, HeadCarries, Lz4.AllLiteral, Lz4.Decompress;
    var enc := EncryptLayout(c, s.sendKey, [], iv, Lz4.AllLiteral(plaintext)).value;
    SessionHeadReads(head, enc, s);
    assert (head + enc)[|head|..] == enc;
    LayoutOpens(c, s.sendKey, [], iv, Lz4.AllLiteral(plaintext));
    Lz4.AllLiteralRoundTrip(plaintext);
  }

  lemma EnvelopeUnwraps(inner: seq<byte>)
    requires |Envelope(inner)| < 0x1_0000_0000
    ensures Prefixed(BE(|Envelope(inner)|, 4) + Envelope(inner), 4) == Some((Envelope(inner), []))
    ensures Prefixed(Envelope(inner), 2).Some? && Prefixed(Envelope(inner), 2).value.0 == TransferURL()
    ensures var h := Prefixed(Prefixed(Envelope(inner), 2).value.1, 2); h.Some? && h.value.0 == TransferHost()
    ensures Prefixed(Prefixed(Prefixed(Envelope(inner), 2).value.1, 2).value.1, 4) == Some((inner, []))
  {
    hide BE, Prefixed, TransferURL, TransferHost;
    UrlLengths();
    Pow256Values();
    var env, host := Envelope(inner), BE(|inner|, 4) + inner;
    PrefixedReadsBack(env, 4, []);
    assert BE(|env|, 4) + env + [] == BE(|env|, 4) + env;
    PrefixedReadsBack(TransferURL(), 2, BE(|TransferHost()|, 2) + TransferHost() + host);
    PrefixedReadsBack(TransferHost(), 2, host);
    PrefixedReadsBack(inner, 4, []);
    assert BE(|inner|, 4) + inner + [] == host;
  }

  lemma UrlLengths()
    ensures |TransferURL()| == 38 && |TransferHost()| == 21
  {
  }

  /** Unwrapping a built packet gives back the plaintext, for every plaintext whose packet still
      fits the 32-bit length fields. */
  lemma TransferRoundTrip(c: Primitives, s: AppSession, head: seq<byte>, iv: seq<byte>, plaintext: seq<byte>)
    requires Lawful(c) && |iv| == 12 && AesKey(s.sendKey) && IsSessionHead(head, s)
    requires |PacketBytes(head, EncryptLayout(c, s.sendKey, [], iv, Lz4.AllLiteral(plaintext)).value)| < 0x1_0000_0000
    ensures var packet := PacketBytes(head, EncryptLayout(c, s.sendKey, [], iv, Lz4.AllLiteral(plaintext)).value);
            Carries(Unwrap(c, s.sendKey, packet), s, plaintext)
  {
    hide Prefixed, OpenBody, EncryptLayout, Lz4.AllLiteral, ParseShortlink, BE, ShortlinkBytes, Envelope, HeadCarries,
         IsSessionHead, StringBytes;
    var enc := EncryptLayout(c, s.sendKey, [], iv, Lz4.AllLiteral(plaintext)).value;
    var inner := Inner(head, enc);
    EnvelopeUnwraps(inner);
    assert |inner| <= |Envelope(inner)| by { EnvelopeHolds(inner); }
    ShortlinkReadsBack(TRANSFER_CMD, 0, head + enc, DEFAULT_VER, []);
    assert inner + [] == inner;
    BodyOpens(c, s, head, iv, plaintext);
  }

  lemma EnvelopeHolds(inner: seq<byte>)
    ensures |inner| <= |Envelope(inner)|
  {
  }

  // ---- sessionDecrypt --------------------------------------------------------------------

  /** One offset: the rest of the body as a sealed layout around an LZ4 block. */
  function Try(c: Primitives, key: seq<byte>, body: seq<byte>, off: nat): Option<seq<byte>> {
    if off >= |body| || |body[off..]| < 29 then None
    else match DecryptLayout(c, key, [], body[off..])
         case None => None
         case Some(comp) => Lz4.Decompress(comp)
  }

  function FirstOpening(c: Primitives, key: seq<byte>, body: seq<byte>, offs: seq<nat>): Option<seq<byte>> {
    if |offs| == 0 then None
    else match Try(c, key, body, offs[0])
         case Some(p) => Some(p)
         case None => FirstOpening(c, key, body, offs[1..])
  }

  function Upto(n: nat): (r: seq<nat>)
    ensures |r| == n && forall i :: 0 <= i < n ==> r[i] == i
  {
    if n == 0 then [] else Upto(n - 1) + [n - 1]
  }

  /** First where the header says the body starts, then every small offset. */
  function Offsets(body: seq<byte>): seq<nat>
    requires |body| < TWO63
  {
    var small := Upto(if |body| < 220 then |body| else 220);
    match ParseHead(body)
    case Good(h) => [h.length] + small
    case _ => small
  }

  function SessionDecrypt(c: Primitives, body: seq<byte>, recvKey: seq<byte>): Parse<seq<byte>>
    requires |body| < TWO63
  {
    if ParseHead(body).Panic? then Panic
    else match FirstOpening(c, recvKey, body, Offsets(body))
         case Some(p) => Good(p)
         case None => Bad
  }

  lemma {:induction false} FoundAt(c: Primitives, key: seq<byte>, body: seq<byte>, offs: seq<nat>, k: nat)
    requires k <= |offs| && forall i :: 0 <= i < k ==> Try(c, key, body, offs[i]) == None
    requires k < |offs| ==> Try(c, key, body, offs[k]).Some?
    ensures FirstOpening(c, key, body, offs) == if k < |offs| then Try(c, key, body, offs[k]) else None
    decreases k
  {
    hide Try;
    if k > 0 { FoundAt(c, key, body, offs[1..], k - 1); }
  }

  lemma TryStep(c: Primitives, key: seq<byte>, body: seq<byte>, off: nat)
    ensures off >= |body| || |body[off..]| < 29 ==> Try(c, key, body, off) == None
    ensures off < |body| && |body[off..]| >= 29 ==>
              Try(c, key, body, off) ==
                match DecryptLayout(c, key, [], body[off..]) case None => None case Some(comp) => Lz4.Decompress(comp)
  {
    hide DecryptLayout, Lz4.Decompress;
  }

  method CandidateOffsets(body: seq<byte>) returns (r: Option<seq<nat>>)
    requires |body| < TWO63
    ensures r == if ParseHead(body).Panic? then None else Some(Offsets(body))
  {
    hide ParseHead;
    var offsets: seq<nat> := [];
    var head := DecodeWpkgHead(body);
    if head.Panic? { return None; }
    if head.Good? { offsets := offsets + [head.value.length]; }
    var limit := if |body| < 220 then |body| else 220;
    ghost var first := offsets;
    var i := 0;
    while i < limit
      invariant 0 <= i <= limit && offsets == first + Upto(i)
    {
      offsets := offsets + [i];
      i := i + 1;
    }
    assert head.Bad? ==> offsets == Upto(limit);
    assert head.Good? ==> offsets == [head.value.length] + Upto(limit);
    assert head.Bad? ==> Offsets(body) == Upto(limit);
    assert head.Good? ==> Offsets(body) == [head.value.length] + Upto(limit);
    return Some(offsets);
  }

  /** Skipping offsets already seen changes nothing: they failed the first time. */
  method SessionDecryptLoop(c: Primitives, body: seq<byte>, recvKey: seq<byte>) returns (r: Parse<seq<byte>>)
    requires |body| < TWO63
    ensures r == SessionDecrypt(c, body, recvKey)
  {
    hide ParseHead, Lz4.Decompress, DecryptLayout, Offsets, Try, FirstOpening;
    var candidates := CandidateOffsets(body);
    if candidates.None? { return Panic; }
    var offsets := candidates.value;
    var seen: set<nat> := {};
    for i := 0 to |offsets|
      invariant forall o :: o in seen ==> Try(c, recvKey, body, o) == None
      invariant forall j :: 0 <= j < i ==> Try(c, recvKey, body, offsets[j]) == None
    {
      var off := offsets[i];
      TryStep(c, recvKey, body, off);
      if off in seen || off >= |body| { continue; }
      seen := seen + {off};
      var blob := body[off..];
      if |blob| < 29 { continue; }
      var comp := DecryptLayout(c, recvKey, [], blob);
      if comp.None? { continue; }
      var pt := Lz4.Lz4Decompress(comp.value);
      if pt.Some? {
        FoundAt(c, recvKey, body, offsets, i);
        return Good(pt.value);
      }
    }
    FoundAt(c, recvKey, body, offsets, |offsets|);
    return Bad;
  }

  /** The layout and block that start at off and run to the end of body open to p. */
  predicate OpensAt(c: Primitives, key: seq<byte>, body: seq<byte>, off: nat, p: seq<byte>) {
    && off + 29 <= |body|
    && DecryptLayout(c, key, [], body[off..]).Some?
    && Lz4.Decompress(DecryptLayout(c, key, [], body[off..]).value) == Some(p)
  }

  lemma TryIsOpensAt(c: Primitives, key: seq<byte>, body: seq<byte>, off: nat)
    ensures Try(c, key, body, off).Some? ==> OpensAt(c, key, body, off, Try(c, key, body, off).value)
    ensures forall p :: OpensAt(c, key, body, off, p) ==> Try(c, key, body, off) == Some(p)
  {
    hide DecryptLayout, Lz4.Decompress;
  }

  ghost predicate Shut(c: Primitives, key: seq<byte>, body: seq<byte>, off: nat) {
    forall p :: !OpensAt(c, key, body, off, p)
  }

  /** What sessionDecrypt returns: what opens where the header ends, or else at the least offset below
      220, with or without a header; and it fails exactly if nothing opens there. */
  lemma SessionDecryptChooses(c: Primitives, key: seq<byte>, body: seq<byte>, off: nat, p: seq<byte>)
    requires |body| < TWO63 && !ParseHead(body).Panic?
    ensures var h := ParseHead(body);
            h.Good? && OpensAt(c, key, body, h.value.length, p) ==> SessionDecrypt(c, body, key) == Good(p)
    ensures var h := ParseHead(body);
            && off < 220 && OpensAt(c, key, body, off, p) && (forall o :: 0 <= o < off ==> Shut(c, key, body, o))
            && (h.Good? ==> Shut(c, key, body, h.value.length))
            ==> SessionDecrypt(c, body, key) == Good(p)
    ensures var h := ParseHead(body);
            (forall o :: 0 <= o < 220 ==> Shut(c, key, body, o)) && (h.Good? ==> Shut(c, key, body, h.value.length))
            ==> SessionDecrypt(c, body, key) == Bad
  {
    hide ParseHead, OpensAt, Try, Upto, Shut;
    var h, offs := ParseHead(body), Offsets(body);
    var base := if h.Good? then 1 else 0;
    forall o ensures Shut(c, key, body, o) <==> Try(c, key, body, o) == None { ShutIsTry(c, key, body, o); }
    if h.Good? {
      TryIsOpensAt(c, key, body, h.value.length);
      if Try(c, key, body, h.value.length).Some? { FoundAt(c, key, body, offs, 0); }
    }
    TryIsOpensAt(c, key, body, off);
    OpensInside(c, key, body, off, p);
    if off < 220 && OpensAt(c, key, body, off, p) && (forall o :: 0 <= o < off ==> Shut(c, key, body, o))
       && (h.Good? ==> Shut(c, key, body, h.value.length)) {
      FoundAt(c, key, body, offs, base + off);
    }
    if (forall o :: 0 <= o < 220 ==> Shut(c, key, body, o)) && (h.Good? ==> Shut(c, key, body, h.value.length)) {
      FoundAt(c, key, body, offs, |offs|);
    }
  }

  lemma ShutIsTry(c: Primitives, key: seq<byte>, body: seq<byte>, off: nat)
    ensures Shut(c, key, body, off) <==> Try(c, key, body, off) == None
  {
    hide Try, OpensAt;
    TryIsOpensAt(c, key, body, off);
  }

  lemma OpensInside(c: Primitives, key: seq<byte>, body: seq<byte>, off: nat, p: seq<byte>)
    ensures OpensAt(c, key, body, off, p) ==> off < |body|
  {
  }

  /** body is a header that parses, then a block comp that decompresses to plaintext, sealed under key. */
  ghost predicate SealedBody(c: Primitives, key: seq<byte>, body: seq<byte>, iv: seq<byte>, comp: seq<byte>,
                             plaintext: seq<byte>)
    requires Lawful(c)
  {
    && |body| < TWO63 && |iv| == 12 && AesKey(key)
    && ParseHead(body).Good?
    && body[ParseHead(body).value.length..] == EncryptLayout(c, key, [], iv, comp).value
    && Lz4.Decompress(comp) == Some(plaintext)
  }

  /** A sealed body opens at the first offset tried, whatever LZ4 block it holds, unless the block is
      empty: 28 bytes are refused before they are opened. */
  lemma SessionDecryptOpens(c: Primitives, key: seq<byte>, body: seq<byte>, iv: seq<byte>, comp: seq<byte>,
                            plaintext: seq<byte>)
    requires Lawful(c) && SealedBody(c, key, body, iv, comp, plaintext)
    ensures Try(c, key, body, Offsets(body)[0]) == if |comp| > 0 then Some(plaintext) else None
    ensures |comp| > 0 ==> SessionDecrypt(c, body, key) == Good(plaintext)
  {
    hide ParseHead, DecryptLayout, EncryptLayout, Lz4.Decompress, Upto;
    LayoutOpens(c, key, [], iv, comp);
    assert Offsets(body)[0] == ParseHead(body).value.length;
  }

  lemma SealedBodyBound(c: Primitives, key: seq<byte>, body: seq<byte>, iv: seq<byte>, comp: seq<byte>,
                        plaintext: seq<byte>)
    requires Lawful(c) && SealedBody(c, key, body, iv, comp, plaintext)
    ensures |plaintext| <= 255 * |body|
  {
    hide ParseHead, Lz4.Decompress;
    Lz4.DecompressBound(comp);
  }

  /** Any header wpkgHead writes, followed by any sealed block, is a sealed body. */
  lemma HeadThenSealed(c: Primitives, key: seq<byte>, head: seq<byte>, ints: Ints, byts: Byts, iv: seq<byte>,
                       comp: seq<byte>, plaintext: seq<byte>)
    requires Lawful(c) && |iv| == 12 && AesKey(key)
    requires IsHead(head, ints, byts) && 0 !in ints && 0 !in byts
    requires Lz4.Decompress(comp) == Some(plaintext)
    requires |head + EncryptLayout(c, key, [], iv, comp).value| < TWO63
    ensures var body := head + EncryptLayout(c, key, [], iv, comp).value;
            SealedBody(c, key, body, iv, comp, plaintext) && body[0] == 1
  {
    hide ParseHead, EncryptLayout, Lz4.Decompress;
    var enc := EncryptLayout(c, key, [], iv, comp).value;
    DecodeUndoesHead(head, ints, byts, enc);
    assert (head + enc)[|head|..] == enc;
  }

  /** Under authenticity, whatever is returned was sealed under recvKey inside the body. */
  lemma {:induction false} OpeningWasSealed(c: Primitives, key: seq<byte>, body: seq<byte>, offs: seq<nat>)
    returns (off: nat, iv: seq<byte>, comp: seq<byte>)
    requires Lawful(c) && Authentic(c) && FirstOpening(c, key, body, offs).Some?
    ensures off <= |body| && |iv| == 12 && EncryptLayout(c, key, [], iv, comp) == Some(body[off..])
    ensures Lz4.Decompress(comp) == FirstOpening(c, key, body, offs)
    decreases |offs|
  {
    hide DecryptLayout, EncryptLayout, Lz4.Decompress;
    if Try(c, key, body, offs[0]).Some? {
      off := offs[0];
      LayoutIsSealed(c, key, [], body[off..]);
      var n := |body[off..]|;
      iv, comp := body[off..][n - 28..n - 16], DecryptLayout(c, key, [], body[off..]).value;
    } else {
      off, iv, comp := OpeningWasSealed(c, key, body, offs[1..]);
    }
  }

  ghost predicate SealedSuffix(c: Primitives, key: seq<byte>, body: seq<byte>, off: nat, iv: seq<byte>, comp: seq<byte>)
    requires Lawful(c)
  {
    off <= |body| && |iv| == 12 && EncryptLayout(c, key, [], iv, comp) == Some(body[off..])
  }

  lemma SessionDecryptIsSound(c: Primitives, key: seq<byte>, body: seq<byte>)
    requires Lawful(c) && Authentic(c) && |body| < TWO63
    ensures SessionDecrypt(c, body, key).Good? ==>
              exists off, iv, comp :: SealedSuffix(c, key, body, off, iv, comp)
                                   && Lz4.Decompress(comp) == Some(SessionDecrypt(c, body, key).value)
  {
    hide FirstOpening, Offsets, ParseHead, Lz4.Decompress, EncryptLayout;
    if SessionDecrypt(c, body, key).Good? {
      var off, iv, comp := OpeningWasSealed(c, key, body, Offsets(body));
      assert SealedSuffix(c, key, body, off, iv, comp);
    }
  }

  // ---- Reading the response --------------------------------------------------------------

  /** The byte string pbParse finds under number k, or None. */
  function BytesOf(m: map<int, Protobuf.PbValue>, k: int): Option<seq<byte>> {
    if k in m && m[k].PbBytes? then Some(m[k].b) else None
  }

  /** extractCode: field 3 inside field 2; no code is the empty string. */
  function ExtractCode(resp: seq<byte>): Parse<seq<byte>>
    requires |resp| < TWO63
  {
    match Protobuf.Parse(resp)
    case SlicePanic => Panic
    case Done(f, _) =>
      match BytesOf(f, 2)
      case None => Good([])
      case Some(f2) =>
        if |f2| >= TWO63 then Good([])
        else match Protobuf.Parse(f2)
             case SlicePanic => Panic
             case Done(inner, _) =>
               match BytesOf(inner, 3)
               case None => Good([])
               case Some(code) => Good(code)
  }

  /** A response whose last field 2 holds a message whose last field 3 is the code. */
  lemma ExtractCodeFindsCode(before: seq<Protobuf.Field>, inner: seq<Protobuf.Field>, code: seq<byte>)
    requires forall j :: 0 <= j < |before| ==> 0 <= before[j].number <= 15
    requires forall j :: 0 <= j < |inner| ==> 0 <= inner[j].number <= 15
    requires var f2 := Protobuf.MessageBytes(inner + [Protobuf.LenField(3, code)]);
             |f2| < TWO63 && |Protobuf.MessageBytes(before + [Protobuf.LenField(2, f2)])| < TWO63
    ensures var f2 := Protobuf.MessageBytes(inner + [Protobuf.LenField(3, code)]);
            ExtractCode(Protobuf.MessageBytes(before + [Protobuf.LenField(2, f2)])) == Good(code)
  {
    hide Protobuf.Parse, Protobuf.MessageBytes;
    var f2 := Protobuf.MessageBytes(inner + [Protobuf.LenField(3, code)]);
    LastFieldIsFound(inner, 3, code);
    LastFieldIsFound(before, 2, f2);
  }

  /** Without a field 2 the code is empty, and that is no error. */
  lemma NoCodeIsEmpty(fs: seq<Protobuf.Field>)
    requires forall j :: 0 <= j < |fs| ==> 0 <= fs[j].number <= 15 && fs[j].number != 2
    requires |Protobuf.MessageBytes(fs)| < TWO63
    ensures ExtractCode(Protobuf.MessageBytes(fs)) == Good([])
  {
    hide Protobuf.Parse, Protobuf.MessageBytes;
    Protobuf.ParseIsLastWins(fs);
  }

  lemma LastFieldIsFound(before: seq<Protobuf.Field>, k: nat, d: seq<byte>)
    requires k <= 15 && forall j :: 0 <= j < |before| ==> 0 <= before[j].number <= 15
    requires |Protobuf.MessageBytes(before + [Protobuf.LenField(k, d)])| < TWO63
    ensures var p := Protobuf.Parse(Protobuf.MessageBytes(before + [Protobuf.LenField(k, d)]));
            p.Done? && BytesOf(p.value, k) == Some(d)
  {
    hide Protobuf.Parse, Protobuf.MessageBytes;
    var fs := before + [Protobuf.LenField(k, d)];
    Protobuf.ParseIsLastWins(fs);
    var n := |fs| - 1;
    assert fs[n].number == k && fs[n].number in Protobuf.Parse(Protobuf.MessageBytes(fs)).value;
  }
}

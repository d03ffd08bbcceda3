/** The 0-RTT request and the search through its response: internal/protocol/shortlink.go. */
module ZeroRtt {
  import opened Bytes
  import opened Records
  import opened Crypto
  import opened Messages
  import opened Hex
  import opened Client
  import opened Transfer
  import opened Agreement
  import opened HelloReader
  import Lz4

  // ---- The request -----------------------------------------------------------------------

  const TYPE8_PREFIX: seq<byte> := [0x00, 0x00, 0x00, 0x10, 0x08, 0x00, 0x00, 0x00, 0x0b, 0x01, 0x00, 0x00, 0x00, 0x06,
                                    0x00, 0x12]
  const EARLY_ALERT: seq<byte> := [0x00, 0x00, 0x00, 0x03, 0x00, 0x01, 0x01]

  function PskHelloExt(ticket: seq<byte>): seq<byte> {
    var data := [0x00, 0x0f, 1] + BE(|ticket|, 4) + ticket;
    [EXT_KEY_SHARE] + BE(|data|, 4) + data
  }

  function PskClientHello(random: seq<byte>, timestamp: nat, ticket: seq<byte>): (r: seq<byte>)
    ensures |r| == 62 + |random| - 32 + |ticket|
  {
    var ext := PskHelloExt(ticket);
    HandshakeBytes(0x01, [0x03, 0xf1, 1] + BE(0x00a8, 2) + random + BE(timestamp, 4) + BE(|ext|, 4) + ext)
  }

  /** What a server reads out of it. */
  lemma PskHelloCarries(random: seq<byte>, timestamp: nat, ticket: seq<byte>)
    requires |random| == 32 && |ticket| < 0xffff_fe00
    ensures var h := ReadHello(PskClientHello(random, timestamp, ticket));
            && h.Some? && h.value.cipher == 0x00a8
            && h.value.random == random && h.value.timestamp == timestamp % 0x1_0000_0000
            && ReadTicket(h.value.extension) == Some(ticket)
  {
    hide BE, HandshakeBytes, ReadHello, Prefixed;
    Pow256Values();
    var data := [0x00, 0x0f, 1] + BE(|ticket|, 4) + ticket;
    HelloReadsBack(0x00a8, random, timestamp, data);
    PrefixedReadsBack(ticket, 4, []);
    assert data[..3] == [0x00, 0x0f, 1] && data[3..] == BE(|ticket|, 4) + ticket;
    assert BE(|ticket|, 4) + ticket + [] == BE(|ticket|, 4) + ticket;
  }

  datatype Request = Request(body: seq<byte>, psk: seq<byte>, pskCH: seq<byte>, type8: seq<byte>)

  function EarlyKeys(c: Primitives, psk: seq<byte>, pskCH: seq<byte>): (k: OneWayKeys)
    requires Lawful(c)
    ensures |k.key| == 16 && |k.iv| == 12
  {
    DerivePSKOneWayKeys(c, psk, StringBytes("early data key expansion"), c.sha256(pskCH))
  }

  function EarlySeal(c: Primitives, k: OneWayKeys, n: uint64, contentType: byte, plain: seq<byte>): Record
    requires |k.key| == 16 && |k.iv| == 12
  {
    Record(contentType, EncryptRecord(c, k.key, k.iv, n, contentType, plain).value)
  }

  /** The four records the request is made of. */
  function RequestRecords(c: Primitives, psk: seq<byte>, pskCH: seq<byte>, type8: seq<byte>,
                          envelope: seq<byte>): seq<Record>
    requires Lawful(c)
  {
    var k := EarlyKeys(c, psk, pskCH);
    [Record(PSK_HANDSHAKE, pskCH),
     EarlySeal(c, k, 1, PSK_HANDSHAKE, type8),
     EarlySeal(c, k, 2, APP_DATA, envelope),
     EarlySeal(c, k, 3, ALERT, EARLY_ALERT)]
  }

  /** A record buildRecord refuses leaves nothing: its error is dropped. */
  function Kept(rs: seq<Record>): seq<Record> {
    if |rs| == 0 then []
    else if |rs[0].payload| > 0xffff then Kept(rs[1..])
    else [rs[0]] + Kept(rs[1..])
  }

  function BodyOf(c: Primitives, r: Request, envelope: seq<byte>): seq<byte>
    requires Lawful(c)
  {
    StreamBytes(Kept(RequestRecords(c, r.psk, r.pskCH, r.type8, envelope)))
  }

  /** build0RTTRequest with its random bytes and the time as arguments; None is its error. */
  method Build0RTTRequest(c: Primitives, entry: PskEntry, envelope: seq<byte>, random: seq<byte>, ts: nat)
    returns (r: Option<Request>)
    requires Lawful(c) && |random| == 32
    ensures r.Some? <==> DecodeHex(entry.preSharedKey).1 && DecodeHex(entry.ticketEntry).1
    ensures r.Some? ==> r.value.psk == DecodeHex(entry.preSharedKey).0
    ensures r.Some? ==> r.value.pskCH == PskClientHello(random, ts, DecodeHex(entry.ticketEntry).0)
    ensures r.Some? ==> r.value.type8 == TYPE8_PREFIX + BE(ts, 4)
    ensures r.Some? ==> r.value.body == BodyOf(c, r.value, envelope)
  {
    hide DecodeHex, PskClientHello, BE, RecordBytes, EncryptRecord, DerivePSKOneWayKeys;
    var (psk, ok1) := DecodeHex(entry.preSharedKey);
    if !ok1 { return None; }
    var (ticket, ok2) := DecodeHex(entry.ticketEntry);
    if !ok2 { return None; }
    var pskCH := PskClientHello(random, ts, ticket);
    var ek := EarlyKeys(c, psk, pskCH);
    var type8 := TYPE8_PREFIX;
    type8 := type8 + BE(ts, 4);
    ghost var rs := RequestRecords(c, psk, pskCH, type8, envelope);
    SealsExist(c, ek, type8, envelope);

    var body := [];
    assert rs[..0] == [];
    body := AppendRecord(body, PSK_HANDSHAKE, pskCH, rs, 0);
    var ct1 := EncryptRecord(c, ek.key, ek.iv, 1, PSK_HANDSHAKE, type8);
    if ct1.None? { return None; }
    body := AppendRecord(body, PSK_HANDSHAKE, ct1.value, rs, 1);
    var ct2 := EncryptRecord(c, ek.key, ek.iv, 2, APP_DATA, envelope);
    if ct2.None? { return None; }
    body := AppendRecord(body, APP_DATA, ct2.value, rs, 2);
    var ct3 := EncryptRecord(c, ek.key, ek.iv, 3, ALERT, EARLY_ALERT);
    if ct3.None? { return None; }
    body := AppendRecord(body, ALERT, ct3.value, rs, 3);
    assert rs[..4] == rs;
    return Some(Request(body, psk, pskCH, type8));
  }

  lemma SealsExist(c: Primitives, k: OneWayKeys, type8: seq<byte>, envelope: seq<byte>)
    requires |k.key| == 16 && |k.iv| == 12
    ensures EncryptRecord(c, k.key, k.iv, 1, PSK_HANDSHAKE, type8).Some?
    ensures EncryptRecord(c, k.key, k.iv, 2, APP_DATA, envelope).Some?
    ensures EncryptRecord(c, k.key, k.iv, 3, ALERT, EARLY_ALERT).Some?
  {
  }

  /** One record appended to the body; the error of an oversized one is ignored. */
  method AppendRecord(body: seq<byte>, contentType: byte, payload: seq<byte>, ghost rs: seq<Record>, ghost n: nat)
    returns (out: seq<byte>)
    requires n < |rs| && rs[n] == Record(contentType, payload) && body == StreamBytes(Kept(rs[..n]))
    ensures out == StreamBytes(Kept(rs[..n + 1]))
  {
    hide RecordBytes;
    var rec := BuildRecord(contentType, payload);
    out := if rec.Some? then body + rec.value else body;
    KeptSnoc(rs[..n], rs[n]);
    assert rs[..n + 1] == rs[..n] + [rs[n]];
    if rec.Some? { StreamSnoc(Kept(rs[..n]), rs[n]); }
  }

  lemma {:induction false} KeptSnoc(rs: seq<Record>, r: Record)
    ensures Kept(rs + [r]) == if |r.payload| > 0xffff then Kept(rs) else Kept(rs) + [r]
    decreases |rs|
  {
    if |rs| > 0 {
      assert (rs + [r])[1..] == rs[1..] + [r];
      KeptSnoc(rs[1..], r);
    } else {
      assert (rs + [r])[1..] == [];
    }
  }

  lemma {:induction false} StreamSnoc(rs: seq<Record>, r: Record)
    ensures StreamBytes(rs + [r]) == StreamBytes(rs) + RecordBytes(r)
    decreases |rs|
  {
    hide RecordBytes;
    if |rs| > 0 {
      assert (rs + [r])[1..] == rs[1..] + [r];
      StreamSnoc(rs[1..], r);
      Assoc(RecordBytes(rs[0]), StreamBytes(rs[1..]), RecordBytes(r));
    } else {
      assert rs + [r] == [r] && [r][1..] == [];
    }
  }

  function IfFits(r: Record): seq<Record> {
    if |r.payload| > 0xffff then [] else [r]
  }

  lemma KeptSnocFits(rs: seq<Record>, r: Record)
    ensures Kept(rs + [r]) == Kept(rs) + IfFits(r)
  {
    KeptSnoc(rs, r);
    assert Kept(rs) + [] == Kept(rs);
  }

  lemma KeptFour(a: Record, b: Record, d: Record, e: Record)
    ensures Kept([a, b, d, e]) == IfFits(a) + IfFits(b) + IfFits(d) + IfFits(e)
  {
    hide IfFits;
    KeptSnocFits([], a);
    KeptSnocFits([a], b);
    KeptSnocFits([a, b], d);
    KeptSnocFits([a, b, d], e);
    assert [] + [a] == [a] && [a] + [b] == [a, b] && [a, b] + [d] == [a, b, d] && [a, b, d] + [e] == [a, b, d, e];
    assert Kept([]) + IfFits(a) == IfFits(a);
  }

  /** What the server parses out of a request are those of its four records that fit. The two of fixed
      size do; the ClientHello and the envelope are lost beyond 65535 bytes, without an error, so that
      all four arrive exactly when these two fit. Each opens at its number under the early keys. */
  lemma RequestReadsBack(c: Primitives, psk: seq<byte>, pskCH: seq<byte>, type8: seq<byte>, envelope: seq<byte>)
    requires Lawful(c) && |type8| == 20
    ensures var rs := RequestRecords(c, psk, pskCH, type8, envelope);
            var got := ParseAll(StreamBytes(Kept(rs))).recs;
            && got == IfFits(rs[0]) + [rs[1]] + IfFits(rs[2]) + [rs[3]]
            && (rs[0] in got <==> |pskCH| <= 0xffff)
            && (rs[2] in got <==> |envelope| + TAG_LEN <= 0xffff)
            && (got == rs <==> |pskCH| <= 0xffff && |envelope| + TAG_LEN <= 0xffff)
    ensures var rs := RequestRecords(c, psk, pskCH, type8, envelope);
            && rs[0] == Record(0x19, pskCH)
            && rs[1].contentType == 0x19 && rs[2].contentType == 0x17 && rs[3].contentType == 0x15
    ensures var rs := RequestRecords(c, psk, pskCH, type8, envelope);
            var k := DerivePSKOneWayKeys(c, psk, StringBytes("early data key expansion"), c.sha256(pskCH));
            && DecryptRecord(c, k.key, k.iv, 1, 0x19, rs[1].payload) == Some(type8)
            && DecryptRecord(c, k.key, k.iv, 2, 0x17, rs[2].payload) == Some(envelope)
            && DecryptRecord(c, k.key, k.iv, 3, 0x15, rs[3].payload) == Some([0, 0, 0, 3, 0, 1, 1])
  {
    hide EncryptRecord, DecryptRecord, StreamBytes, ParseAll, Kept, DerivePSKOneWayKeys;
    var rs := RequestRecords(c, psk, pskCH, type8, envelope);
    var k := EarlyKeys(c, psk, pskCH);
    RecordOpens(c, k.key, k.iv, 1, PSK_HANDSHAKE, type8);
    RecordOpens(c, k.key, k.iv, 2, APP_DATA, envelope);
    RecordOpens(c, k.key, k.iv, 3, ALERT, EARLY_ALERT);
    KeptFour(rs[0], rs[1], rs[2], rs[3]);
    assert rs == [rs[0], rs[1], rs[2], rs[3]];
    var kept := Kept(rs);
    ParseOfStream(kept, []);
    ParseEnds([]);
    assert StreamBytes(kept) + [] == StreamBytes(kept);
    assert kept + [] == kept;
    FitsOrNot(rs[0], rs[1], rs[2], rs[3]);
  }

  lemma FitsOrNot(a: Record, b: Record, d: Record, e: Record)
    requires |b.payload| <= 0xffff && |e.payload| <= 0xffff
    requires d.contentType != a.contentType && d.contentType != b.contentType && d.contentType != e.contentType
    requires a.contentType != e.contentType
    ensures var got := IfFits(a) + [b] + IfFits(d) + [e];
            && (a in got <==> |a.payload| <= 0xffff || a == b)
            && (d in got <==> |d.payload| <= 0xffff)
            && (got == [a, b, d, e] <==> |a.payload| <= 0xffff && |d.payload| <= 0xffff)
  {
    var got := IfFits(a) + [b] + IfFits(d) + [e];
    if |a.payload| <= 0xffff && |d.payload| <= 0xffff { assert got == [a, b, d, e]; }
  }

  /** In terms of the ticket: the ClientHello arrives exactly when the ticket has at most 65473 bytes. */
  lemma TicketMustFit(c: Primitives, psk: seq<byte>, random: seq<byte>, ts: nat, ticket: seq<byte>, type8: seq<byte>,
                      envelope: seq<byte>)
    requires Lawful(c) && |type8| == 20 && |random| == 32
    ensures var pskCH := PskClientHello(random, ts, ticket);
            var rs := RequestRecords(c, psk, pskCH, type8, envelope);
            rs[0] in ParseAll(StreamBytes(Kept(rs))).recs <==> |ticket| <= 65473
  {
    hide PskClientHello, StreamBytes, ParseAll, Kept, EncryptRecord, EarlyKeys;
    RequestReadsBack(c, psk, PskClientHello(random, ts, ticket), type8, envelope);
  }

  /** A login can leave a longer one: a NewSessionTicket message that fits a record, whose one ticket
      is kept, and whose ClientHello is then lost. */
  lemma LongTicketIsLost(c: Primitives, psk: seq<byte>, random: seq<byte>, ts: nat, entry: seq<byte>, type8: seq<byte>,
                         envelope: seq<byte>)
    requires Lawful(c) && |type8| == 20 && |random| == 32
    requires 65474 <= |entry| <= 65509
    ensures var m := Record(HANDSHAKE, HandshakeBytes(NEW_SESSION_TICKET, [1] + TicketBytes([entry])));
            && ProperMessage(m)
            && ParseNewSessionTicket(SplitHandshake(m.payload).value.body) == [TicketOf(entry)]
    ensures TicketOf(entry).entry == entry
    ensures var rs := RequestRecords(c, psk, PskClientHello(random, ts, entry), type8, envelope);
            rs[0] !in ParseAll(StreamBytes(Kept(rs))).recs
  {
    hide PskClientHello, StreamBytes, ParseAll, Kept, EncryptRecord, EarlyKeys, HandshakeBytes, ReadBE,
         SplitHandshake, TicketsFrom, BE;
    var body := [1] + TicketBytes([entry]);
    assert TicketBytes([entry][1..]) == [];
    assert TicketBytes([entry]) == BE(|entry|, 4) + entry;
    SplitUndoesBuild(NEW_SESSION_TICKET, body, []);
    assert HandshakeBytes(NEW_SESSION_TICKET, body) + [] == HandshakeBytes(NEW_SESSION_TICKET, body);
    assert [|[entry]|] + TicketBytes([entry]) == body;
    NewSessionTicketReadsBack([entry]);
    assert TicketsOf([entry]) == [TicketOf(entry)];
    TicketMustFit(c, psk, random, ts, entry, type8, envelope);
  }

  /** The PSK of a ticket taken at login is the key the request is built with. */
  lemma LoginPskIsUsed(c: Primitives, secret: seq<byte>, hCertV: seq<byte>, t: Ticket, now: int)
    requires Lawful(c)
    ensures DecodeHex(PskOf(c, secret, hCertV, t, now).preSharedKey) == (DerivePSK(c, secret, hCertV, t.pskType), true)
    ensures DecodeHex(PskOf(c, secret, hCertV, t, now).ticketEntry) == (t.entry, true)
    ensures var e := PskOf(c, secret, hCertV, t, now);
            e.pskType == t.pskType && e.lifetime == t.lifetime && e.expiredAt == now + t.lifetime
  {
    hide DecodeHex, EncodeHex, DerivePSK;
    HexRoundTrip(DerivePSK(c, secret, hCertV, t.pskType));
    HexRoundTrip(t.entry);
  }

  // ---- The response ----------------------------------------------------------------------

  /** The first non-empty payload of a content type. An empty one counts as absent. */
  function FirstPayload(rs: seq<Record>, ct: byte): Option<seq<byte>> {
    if |rs| == 0 then None
    else if rs[0].contentType == ct && |rs[0].payload| > 0 then Some(rs[0].payload)
    else FirstPayload(rs[1..], ct)
  }

  datatype Guess = Guess(transcript: seq<byte>, seqNo: uint64)

  /** The nine guesses in the order they are tried. */
  function Guesses(pskCH: seq<byte>, type8: seq<byte>, sh: seq<byte>): seq<Guess> {
    ForTranscript(pskCH + sh) + ForTranscript(pskCH + type8 + sh) + ForTranscript(pskCH + sh + type8)
  }

  function ForTranscript(t: seq<byte>): seq<Guess> {
    [Guess(t, 2), Guess(t, 1), Guess(t, 3)]
  }

  function Opened(c: Primitives, psk: seq<byte>, appdata: seq<byte>, g: Guess): Option<seq<byte>>
    requires Lawful(c)
  {
    var k := DerivePSKOneWayKeys(c, psk, StringBytes("handshake key expansion"), c.sha256(g.transcript));
    DecryptRecord(c, k.key, k.iv, g.seqNo, APP_DATA, appdata)
  }

  /** What is made of an opened payload: the shortlink body first, then the payload as it is.
      (No slice reaches 2^63 bytes; the tests for it only make the functions total.) */
  function ReadPayload(c: Primitives, ad: seq<byte>, recvKey: seq<byte>): Parse<seq<byte>> {
    if |ad| >= TWO63 then Bad
    else match ParseShortlink(ad)
         case Panic => Panic
         case Bad => SessionDecrypt(c, ad, recvKey)
         case Good(sl) =>
           if |sl.body| >= TWO63 then Bad
           else match SessionDecrypt(c, sl.body, recvKey)
                case Panic => Panic
                case Good(p) => Good(p)
                case Bad => SessionDecrypt(c, ad, recvKey)
  }

  function TryGuess(c: Primitives, psk: seq<byte>, appdata: seq<byte>, recvKey: seq<byte>, g: Guess): Parse<seq<byte>>
    requires Lawful(c)
  {
    match Opened(c, psk, appdata, g)
    case None => Bad
    case Some(ad) => ReadPayload(c, ad, recvKey)
  }

  function Search(c: Primitives, psk: seq<byte>, appdata: seq<byte>, recvKey: seq<byte>,
                  gs: seq<Guess>): Parse<seq<byte>>
    requires Lawful(c)
  {
    if |gs| == 0 then Bad
    else match TryGuess(c, psk, appdata, recvKey, gs[0])
         case Bad => Search(c, psk, appdata, recvKey, gs[1..])
         case r => r
  }

  datatype Reply = Reply(code: seq<byte>, resp: seq<byte>)

  function ReadReply(c: Primitives, rbody: seq<byte>, psk: seq<byte>, pskCH: seq<byte>, type8: seq<byte>,
                     recvKey: seq<byte>): Parse<Reply>
    requires Lawful(c)
  {
    var recs := ParseAll(rbody).recs;
    var sh, appdata := FirstPayload(recs, HANDSHAKE), FirstPayload(recs, APP_DATA);
    if sh.None? || appdata.None? then Bad
    else match Search(c, psk, appdata.value, recvKey, Guesses(pskCH, type8, sh.value))
         case Bad => Bad
         case Panic => Panic
         case Good(resp) => WithCode(resp)
  }

  function WithCode(resp: seq<byte>): Parse<Reply> {
    if |resp| >= TWO63 then Bad
    else match ExtractCode(resp)
         case Panic => Panic
         case Bad => Bad
         case Good(code) => Good(Reply(code, resp))
  }

  lemma {:induction false} SearchFindsAt(c: Primitives, psk: seq<byte>, appdata: seq<byte>, recvKey: seq<byte>,
                                         gs: seq<Guess>, n: nat)
    requires Lawful(c) && n <= |gs|
    requires forall i :: 0 <= i < n ==> TryGuess(c, psk, appdata, recvKey, gs[i]) == Bad
    requires n < |gs| ==> !TryGuess(c, psk, appdata, recvKey, gs[n]).Bad?
    ensures Search(c, psk, appdata, recvKey, gs) == if n < |gs| then TryGuess(c, psk, appdata, recvKey, gs[n]) else Bad
    decreases n
  {
    hide TryGuess;
    if n > 0 { SearchFindsAt(c, psk, appdata, recvKey, gs[1..], n - 1); }
  }

  method FindPayloads(recs: seq<Record>) returns (sh: Option<seq<byte>>, appdata: Option<seq<byte>>)
    ensures sh == FirstPayload(recs, HANDSHAKE) && appdata == FirstPayload(recs, APP_DATA)
  {
    sh, appdata := None, None;
    assert recs[0..] == recs;
    for i := 0 to |recs|
      invariant FirstPayload(recs, HANDSHAKE) == if sh.Some? then sh else FirstPayload(recs[i..], HANDSHAKE)
      invariant FirstPayload(recs, APP_DATA) == if appdata.Some? then appdata else FirstPayload(recs[i..], APP_DATA)
    {
      var r := recs[i];
      assert recs[i..][1..] == recs[i + 1..];
      if r.contentType == HANDSHAKE && sh.None? && |r.payload| > 0 {
        sh := Some(r.payload);
      }
      if r.contentType == APP_DATA && appdata.None? && |r.payload| > 0 {
        appdata := Some(r.payload);
      }
    }
  }

  method TryPayload(c: Primitives, ad: seq<byte>, recvKey: seq<byte>) returns (r: Parse<seq<byte>>)
    ensures r == ReadPayload(c, ad, recvKey)
  {
    hide ParseShortlink, SessionDecrypt;
    if |ad| >= TWO63 { return Bad; }
    var sl := ParseShortlink(ad);
    if sl.Panic? { return Panic; }
    if sl.Good? {
      if |sl.value.body| >= TWO63 { return Bad; }
      r := SessionDecryptLoop(c, sl.value.body, recvKey);
      if !r.Bad? { return; }
    }
    r := SessionDecryptLoop(c, ad, recvKey);
  }

  method Parse0RTTResponse(c: Primitives, rbody: seq<byte>, psk: seq<byte>, pskCH: seq<byte>, type8: seq<byte>,
                           recvKey: seq<byte>)
    returns (r: Parse<Reply>)
    requires Lawful(c)
    ensures r == ReadReply(c, rbody, psk, pskCH, type8, recvKey)
  {
    hide ParseAll, FirstPayload, ReadPayload, WithCode, DecryptRecord, DerivePSKOneWayKeys, Search;
    var recs, _ := ParseRecords(rbody);
    var sh, appdata := FindPayloads(recs);
    if sh.None? || appdata.None? { return Bad; }
    var candidates := [pskCH + sh.value, pskCH + type8 + sh.value, pskCH + sh.value + type8];
    ghost var gs := Guesses(pskCH, type8, sh.value);
    var seqs: seq<uint64> := [2, 1, 3];
    for i := 0 to |candidates|
      invariant forall k :: 0 <= k < 3 * i ==> TryGuess(c, psk, appdata.value, recvKey, gs[k]) == Bad
    {
      var h := c.sha256(candidates[i]);
      var hk := DerivePSKOneWayKeys(c, psk, StringBytes("handshake key expansion"), h);
      for j := 0 to |seqs|
        invariant forall k :: 0 <= k < 3 * i + j ==> TryGuess(c, psk, appdata.value, recvKey, gs[k]) == Bad
      {
        assert gs[3 * i + j] == Guess(candidates[i], seqs[j]);
        var ad := DecryptRecord(c, hk.key, hk.iv, seqs[j], APP_DATA, appdata.value);
        if ad.None? { continue; }
        var resp := TryPayload(c, ad.value, recvKey);
        if !resp.Bad? {
          SearchFindsAt(c, psk, appdata.value, recvKey, gs, 3 * i + j);
          if resp.Panic? { return Panic; }
          r := WithCode(resp.value);
          return;
        }
      }
    }
    SearchFindsAt(c, psk, appdata.value, recvKey, gs, 9);
    return Bad;
  }

  // ---- Completeness ----------------------------------------------------------------------

  /** A body the peer can send: a header and a sealed LZ4 block, any but the empty one. */
  ghost predicate PeerBody(c: Primitives, recvKey: seq<byte>, body: seq<byte>, plaintext: seq<byte>)
    requires Lawful(c)
  {
    |body| < TWO63 && exists iv, comp :: SealedBody(c, recvKey, body, iv, comp, plaintext) && |comp| > 0
  }

  lemma PeerBodyOpens(c: Primitives, recvKey: seq<byte>, body: seq<byte>, plaintext: seq<byte>)
    requires Lawful(c) && PeerBody(c, recvKey, body, plaintext)
    ensures |body| < TWO63 && SessionDecrypt(c, body, recvKey) == Good(plaintext)
    ensures |plaintext| <= 255 * |body|
  {
    hide SessionDecrypt, EncryptLayout, SealedBody, Try, Offsets;
    var iv, comp :| SealedBody(c, recvKey, body, iv, comp, plaintext) && |comp| > 0;
    SessionDecryptOpens(c, recvKey, body, iv, comp, plaintext);
    SealedBodyBound(c, recvKey, body, iv, comp, plaintext);
  }

  lemma {:induction false} LeadingByte(s: seq<byte>)
    requires |s| > 0
    ensures ReadBE(s) >= s[0] * Pow256(|s| - 1)
    decreases |s|
  {
    if |s| > 1 {
      LeadingByte(s[..|s| - 1]);
      assert 256 * (s[0] * Pow256(|s| - 2)) == s[0] * (256 * Pow256(|s| - 2));
    }
  }

  /** A bare body starts with its version, which is not zero: as a shortlink length that is far too long. */
  lemma BareIsNoShortlink(ad: seq<byte>)
    requires 0 < |ad| < 0x100_0000 && ad[0] > 0
    ensures ParseShortlink(ad) == Bad
  {
    if |ad| >= 16 {
      LeadingByte(ad[..4]);
      assert Pow256(3) == 256 * Pow256(2) == 256 * (256 * Pow256(1));
      assert ad[0] * Pow256(3) >= Pow256(3);
    }
  }

  lemma PeerPayloadReads(c: Primitives, ad: seq<byte>, recvKey: seq<byte>, body: seq<byte>, plaintext: seq<byte>,
                         cmd: nat, seqNo: nat, ver: nat)
    requires Lawful(c) && PeerBody(c, recvKey, body, plaintext)
    requires |ad| <= 0xffff && cmd < 0x1_0000_0000 && seqNo < 0x1_0000_0000 && ver < 0x1_0000
    requires (ad == body && ParseShortlink(ad).Bad?) || ad == ShortlinkBytes(cmd, seqNo, body, ver)
    ensures ReadPayload(c, ad, recvKey) == Good(plaintext) && |plaintext| <= 255 * |ad|
  {
    hide SessionDecrypt, PeerBody, ParseShortlink, ShortlinkBytes;
    if ad == body {
      PeerBodyOpens(c, recvKey, body, plaintext);
    } else {
      PeerBodyOpens(c, recvKey, body, plaintext);
      ShortlinkReadsBack(cmd, seqNo, body, ver, []);
      assert ad + [] == ad;
    }
  }

  predicate OpensAtMost(c: Primitives, psk: seq<byte>, appdata: seq<byte>, g: Guess, ad: seq<byte>)
    requires Lawful(c)
  {
    Opened(c, psk, appdata, g).None? || Opened(c, psk, appdata, g) == Some(ad)
  }

  /** p is the payload of record i, the first of its content type that is not empty. */
  predicate FirstOf(recs: seq<Record>, ct: byte, i: nat, p: seq<byte>) {
    && i < |recs| && recs[i] == Record(ct, p) && |p| > 0
    && forall j :: 0 <= j < i ==> recs[j].contentType != ct || recs[j].payload == []
  }

  lemma {:induction false} FirstPayloadIs(rs: seq<Record>, ct: byte, i: nat, p: seq<byte>)
    requires FirstOf(rs, ct, i, p)
    ensures FirstPayload(rs, ct) == Some(p)
    decreases i
  {
    if i > 0 {
      var later := rs[1..];
      assert forall j :: 0 <= j < i - 1 ==> later[j] == rs[j + 1];
      FirstPayloadIs(later, ct, i - 1, p);
    }
  }

  lemma {:induction false} FirstPayloadAt(rs: seq<Record>, ct: byte) returns (i: nat)
    requires FirstPayload(rs, ct).Some?
    ensures FirstOf(rs, ct, i, FirstPayload(rs, ct).value)
    decreases |rs|
  {
    i := 0;
    if rs[0].contentType != ct || rs[0].payload == [] {
      var j := FirstPayloadAt(rs[1..], ct);
      i := j + 1;
      assert forall k :: 0 < k < i ==> rs[k] == rs[1..][k - 1];
    }
  }

  /** Without a ServerHello or without application data there is no reply. */
  lemma NothingToRead(c: Primitives, rbody: seq<byte>, psk: seq<byte>, pskCH: seq<byte>, type8: seq<byte>,
                      recvKey: seq<byte>, ct: byte)
    requires Lawful(c) && ct in {0x16, 0x17}
    requires forall r :: r in ParseAll(rbody).recs && r.contentType == ct ==> r.payload == []
    ensures ReadReply(c, rbody, psk, pskCH, type8, recvKey) == Bad
  {
    hide ParseAll, Search, FirstPayload, WithCode;
    var recs := ParseAll(rbody).recs;
    FirstPayloadNone(recs, ct);
  }

  lemma {:induction false} FirstPayloadNone(rs: seq<Record>, ct: byte)
    requires forall r :: r in rs && r.contentType == ct ==> r.payload == []
    ensures FirstPayload(rs, ct) == None
    decreases |rs|
  {
    if |rs| > 0 { FirstPayloadNone(rs[1..], ct); }
  }

  /** The search, with the place of the right guess in the list of guesses. */
  lemma SearchFinds(c: Primitives, psk: seq<byte>, recvKey: seq<byte>, appdata: seq<byte>, gs: seq<Guess>, n: nat,
                    ad: seq<byte>, plaintext: seq<byte>)
    requires Lawful(c) && n < |gs| && SealedUnder(c, psk, appdata, gs[n], ad)
    requires forall i :: 0 <= i < n ==> OpensAtMost(c, psk, appdata, gs[i], ad)
    requires ReadPayload(c, ad, recvKey) == Good(plaintext)
    ensures Search(c, psk, appdata, recvKey, gs) == Good(plaintext)
  {
    hide ReadPayload, DecryptRecord, EncryptRecord, Search, DerivePSKOneWayKeys;
    var k := DerivePSKOneWayKeys(c, psk, StringBytes("handshake key expansion"), c.sha256(gs[n].transcript));
    RecordOpens(c, k.key, k.iv, gs[n].seqNo, APP_DATA, ad);
    assert TryGuess(c, psk, appdata, recvKey, gs[n]) == Good(plaintext);
    var m := FirstGood(c, psk, appdata, recvKey, gs, n, ad, plaintext);
    SearchFindsAt(c, psk, appdata, recvKey, gs, m);
  }

  /** Where a transcript and a number stand among the guesses. */
  lemma GuessIndex(pskCH: seq<byte>, type8: seq<byte>, sh: seq<byte>, t: seq<byte>, q: uint64) returns (n: nat)
    requires t == pskCH + sh || t == pskCH + type8 + sh || t == pskCH + sh + type8
    requires q == 1 || q == 2 || q == 3
    ensures n < |Guesses(pskCH, type8, sh)| && Guesses(pskCH, type8, sh)[n] == Guess(t, q)
  {
    n := (if t == pskCH + sh then 0 else if t == pskCH + type8 + sh then 3 else 6)
       + (if q == 2 then 0 else if q == 1 then 1 else 2);
  }

  lemma GuessAt(pskCH: seq<byte>, type8: seq<byte>, sh: seq<byte>, n: nat)
    requires n < |Guesses(pskCH, type8, sh)|
    ensures var g := Guesses(pskCH, type8, sh)[n];
            && (g.transcript == pskCH + sh || g.transcript == pskCH + type8 + sh || g.transcript == pskCH + sh + type8)
            && (g.seqNo == 1 || g.seqNo == 2 || g.seqNo == 3)
  {
  }

  /** The response search finds the peer's plaintext: the first AppData payload was sealed under one
      of the three transcripts t at one of the numbers q = 1, 2, 3, it opens under no other of the nine
      pairs to anything else, and it carries a body the peer can send, in a shortlink packet or, where
      it does not itself read as one, bare. */
  lemma SearchIsComplete(c: Primitives, rbody: seq<byte>, psk: seq<byte>, pskCH: seq<byte>, type8: seq<byte>,
                         recvKey: seq<byte>, i: nat, sh: seq<byte>, j: nat, appdata: seq<byte>, t: seq<byte>, q: uint64,
                         ad: seq<byte>, body: seq<byte>, plaintext: seq<byte>, cmd: nat, seqNo: nat, ver: nat)
    requires Lawful(c)
    requires FirstOf(ParseAll(rbody).recs, 0x16, i, sh) && FirstOf(ParseAll(rbody).recs, 0x17, j, appdata)
    requires t == pskCH + sh || t == pskCH + type8 + sh || t == pskCH + sh + type8
    requires q == 1 || q == 2 || q == 3
    requires SealedUnder(c, psk, appdata, Guess(t, q), ad)
    requires forall u, m ::
               (u == pskCH + sh || u == pskCH + type8 + sh || u == pskCH + sh + type8) && (m == 1 || m == 2 || m == 3)
               ==> OpensAtMost(c, psk, appdata, Guess(u, m), ad)
    requires PeerBody(c, recvKey, body, plaintext)
    requires |ad| <= 0xffff && cmd < 0x1_0000_0000 && seqNo < 0x1_0000_0000 && ver < 0x1_0000
    requires (ad == body && ParseShortlink(ad).Bad?) || ad == ShortlinkBytes(cmd, seqNo, body, ver)
    ensures |plaintext| < TWO63
    ensures var r := ReadReply(c, rbody, psk, pskCH, type8, recvKey);
            match ExtractCode(plaintext)
            case Good(code) => r == Good(Reply(code, plaintext))
            case Bad => r == Bad
            case Panic => r == Panic
  {
    hide PeerBody, ReadPayload, ShortlinkBytes, FirstPayload, ParseAll, ExtractCode, Search, SealedUnder, OpensAtMost,
         Guesses;
    PeerPayloadReads(c, ad, recvKey, body, plaintext, cmd, seqNo, ver);
    FirstPayloadIs(ParseAll(rbody).recs, 0x16, i, sh);
    FirstPayloadIs(ParseAll(rbody).recs, 0x17, j, appdata);
    var gs := Guesses(pskCH, type8, sh);
    var n := GuessIndex(pskCH, type8, sh, t, q);
    forall k | 0 <= k < n ensures OpensAtMost(c, psk, appdata, gs[k], ad) {
      GuessAt(pskCH, type8, sh, k);
      assert gs[k] == Guess(gs[k].transcript, gs[k].seqNo);
    }
    SearchFinds(c, psk, recvKey, appdata, gs, n, ad, plaintext);
  }

  lemma {:induction false} FirstGood(c: Primitives, psk: seq<byte>, appdata: seq<byte>, recvKey: seq<byte>,
                                     gs: seq<Guess>, n: nat,
                                     ad: seq<byte>, plaintext: seq<byte>) returns (m: nat)
    requires Lawful(c) && n < |gs| && ReadPayload(c, ad, recvKey) == Good(plaintext)
    requires Opened(c, psk, appdata, gs[n]) == Some(ad)
    requires forall i :: 0 <= i < n ==> OpensAtMost(c, psk, appdata, gs[i], ad)
    ensures m <= n && TryGuess(c, psk, appdata, recvKey, gs[m]) == Good(plaintext)
    ensures forall i :: 0 <= i < m ==> TryGuess(c, psk, appdata, recvKey, gs[i]) == Bad
    decreases n
  {
    hide Opened, ReadPayload;
    if j :| 0 <= j < n && Opened(c, psk, appdata, gs[j]) == Some(ad) {
      m := FirstGood(c, psk, appdata, recvKey, gs, j, ad, plaintext);
    } else {
      m := n;
    }
  }

  // ---- Soundness -------------------------------------------------------------------------

  /** p was sealed under recvKey inside ad, or inside the shortlink packet ad is. */
  ghost predicate Sealed(c: Primitives, recvKey: seq<byte>, ad: seq<byte>, p: seq<byte>)
    requires Lawful(c)
  {
    || SealedIn(c, recvKey, ad, p)
    || (ParseShortlink(ad).Good? && SealedIn(c, recvKey, ParseShortlink(ad).value.body, p))
  }

  ghost predicate SealedIn(c: Primitives, recvKey: seq<byte>, body: seq<byte>, p: seq<byte>)
    requires Lawful(c)
  {
    exists off, iv, comp :: SealedSuffix(c, recvKey, body, off, iv, comp) && Lz4.Decompress(comp) == Some(p)
  }

  lemma ReadPayloadIsSound(c: Primitives, ad: seq<byte>, recvKey: seq<byte>)
    requires Lawful(c) && Authentic(c) && ReadPayload(c, ad, recvKey).Good?
    ensures Sealed(c, recvKey, ad, ReadPayload(c, ad, recvKey).value)
  {
    hide SessionDecrypt, SealedSuffix, Lz4.Decompress;
    var sl := ParseShortlink(ad);
    SessionDecryptIsSound(c, recvKey, ad);
    if sl.Good? { SessionDecryptIsSound(c, recvKey, sl.value.body); }
  }

  lemma {:induction false} SearchIsSound(c: Primitives, psk: seq<byte>, appdata: seq<byte>, recvKey: seq<byte>,
                                         gs: seq<Guess>)
    returns (n: nat)
    requires Lawful(c) && Search(c, psk, appdata, recvKey, gs).Good?
    ensures n < |gs| && TryGuess(c, psk, appdata, recvKey, gs[n]) == Search(c, psk, appdata, recvKey, gs)
    decreases |gs|
  {
    hide TryGuess;
    if TryGuess(c, psk, appdata, recvKey, gs[0]).Bad? {
      var m := SearchIsSound(c, psk, appdata, recvKey, gs[1..]);
      n := m + 1;
    } else {
      n := 0;
    }
  }

  /** g is a guess under which appdata was sealed, from the payload ad. */
  ghost predicate SealedUnder(c: Primitives, psk: seq<byte>, appdata: seq<byte>, g: Guess, ad: seq<byte>)
    requires Lawful(c)
  {
    var k := DerivePSKOneWayKeys(c, psk, StringBytes("handshake key expansion"), c.sha256(g.transcript));
    EncryptRecord(c, k.key, k.iv, g.seqNo, APP_DATA, ad) == Some(appdata)
  }

  lemma OpenedWasSealed(c: Primitives, psk: seq<byte>, appdata: seq<byte>, g: Guess)
    requires Lawful(c) && Authentic(c) && Opened(c, psk, appdata, g).Some?
    ensures SealedUnder(c, psk, appdata, g, Opened(c, psk, appdata, g).value)
  {
    hide DerivePSKOneWayKeys, Nonce, RecordAAD;
    var k := DerivePSKOneWayKeys(c, psk, StringBytes("handshake key expansion"), c.sha256(g.transcript));
    var ad := Opened(c, psk, appdata, g).value;
    var aad := RecordAAD(g.seqNo, APP_DATA, |appdata|);
    assert appdata == c.seal(k.key, Nonce(k.iv, g.seqNo), ad, aad);
    assert |appdata| == |ad| + TAG_LEN;
  }

  /** Under authenticity a reply is never made up: the AppData record was sealed under one of the three
      transcripts at one of the numbers 1, 2, 3, and the plaintext was sealed under recvKey inside it. */
  lemma ReplyIsSound(c: Primitives, rbody: seq<byte>, psk: seq<byte>, pskCH: seq<byte>, type8: seq<byte>,
                     recvKey: seq<byte>)
    returns (i: nat, sh: seq<byte>, j: nat, appdata: seq<byte>, t: seq<byte>, q: uint64, ad: seq<byte>)
    requires Lawful(c) && Authentic(c) && ReadReply(c, rbody, psk, pskCH, type8, recvKey).Good?
    ensures FirstOf(ParseAll(rbody).recs, 0x16, i, sh) && FirstOf(ParseAll(rbody).recs, 0x17, j, appdata)
    ensures t == pskCH + sh || t == pskCH + type8 + sh || t == pskCH + sh + type8
    ensures q == 1 || q == 2 || q == 3
    ensures SealedUnder(c, psk, appdata, Guess(t, q), ad)
    ensures var reply := ReadReply(c, rbody, psk, pskCH, type8, recvKey).value;
            Sealed(c, recvKey, ad, reply.resp) && |reply.resp| < TWO63 && ExtractCode(reply.resp) == Good(reply.code)
  {
    hide FirstPayload, ParseAll, Search, ReadPayload, Opened, SealedUnder, Sealed, ExtractCode, Guesses;
    var recs := ParseAll(rbody).recs;
    sh, appdata := FirstPayload(recs, HANDSHAKE).value, FirstPayload(recs, APP_DATA).value;
    i := FirstPayloadAt(recs, HANDSHAKE);
    j := FirstPayloadAt(recs, APP_DATA);
    var gs := Guesses(pskCH, type8, sh);
    var n := SearchIsSound(c, psk, appdata, recvKey, gs);
    GuessAt(pskCH, type8, sh, n);
    t, q, ad := gs[n].transcript, gs[n].seqNo, Opened(c, psk, appdata, gs[n]).value;
    assert gs[n] == Guess(t, q);
    OpenedWasSealed(c, psk, appdata, gs[n]);
    ReadPayloadIsSound(c, ad, recvKey);
  }
}

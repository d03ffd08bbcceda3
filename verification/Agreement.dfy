/** What doHandshake achieves against a server that mirrors it, and what its acceptance proves. */
module Agreement {
  import opened Bytes
  import opened Records
  import opened Crypto
  import opened Messages
  import opened Handshake
  import opened HelloReader

  /** A server's side of one handshake: its key, its ServerHello, any number of sealed messages. */
  datatype Server = Server(priv: seq<byte>, hello: Record, messages: seq<Record>, finType: byte)

  function TypeOf(r: Record): byte {
    match SplitHandshake(r.payload) case None => 0 case Some(m) => m.msgType
  }

  /** A server that speaks the protocol: P-256 key share, well-formed messages that fit a record. */
  predicate Proper(c: Primitives, sv: Server) {
    && Sendable(sv.hello) && HelloKey(sv.hello.payload) == Some(c.publicOf(sv.priv))
    && KnownContentType(sv.finType)
    && |sv.messages| < TWO63
    && forall m :: m in sv.messages ==> ProperMessage(m)
  }

  predicate ProperMessage(m: Record) {
    && KnownContentType(m.contentType) && |m.payload| + TAG_LEN <= 0xffff
    && SplitHandshake(m.payload).Some? && TypeOf(m) != FINISHED
  }

  function Concat(ms: seq<Record>): seq<byte> {
    if |ms| == 0 then [] else ms[0].payload + Concat(ms[1..])
  }

  /** Index of the last message of type ty. */
  function LastOf(ms: seq<Record>, ty: byte): (r: Option<nat>)
    ensures r.Some? ==> r.value < |ms| && TypeOf(ms[r.value]) == ty
    ensures r.Some? ==> forall j :: r.value < j < |ms| ==> TypeOf(ms[j]) != ty
    ensures r.None? ==> forall j :: 0 <= j < |ms| ==> TypeOf(ms[j]) != ty
  {
    if |ms| == 0 then None
    else match LastOf(ms[1..], ty)
         case Some(i) => Some(i + 1)
         case None => if TypeOf(ms[0]) == ty then Some(0) else None
  }

  /** The hash of everything up to and including the last CertVerify; before any, what was there. */
  function CertHash(c: Primitives, base: seq<byte>, ms: seq<Record>, before: Option<seq<byte>>): Option<seq<byte>> {
    match LastOf(ms, CERT_VERIFY)
    case None => before
    case Some(i) => Some(c.sha256(base + Concat(ms[..i + 1])))
  }

  function LastTickets(ms: seq<Record>, before: seq<Ticket>): seq<Ticket> {
    match LastOf(ms, NEW_SESSION_TICKET)
    case None => before
    case Some(i) =>
      match SplitHandshake(ms[i].payload) case None => before case Some(m) => ParseNewSessionTicket(m.body)
  }

  /** One message sealed under the server's handshake keys. */
  function SealRecord(c: Primitives, k: TrafficKeys, m: Record, n: uint64): Record
    requires HasKeys(k)
  {
    Record(m.contentType, EncryptRecord(c, k.serverKey, k.serverIV, n, m.contentType, m.payload).value)
  }

  /** The messages sealed as consecutive records. */
  function SealedFrom(c: Primitives, k: TrafficKeys, ms: seq<Record>, n: nat): seq<Record>
    requires HasKeys(k) && n + |ms| <= TWO64
    decreases |ms|
  {
    if |ms| == 0 then [] else [SealRecord(c, k, ms[0], n)] + SealedFrom(c, k, ms[1..], n + 1)
  }

  // ---- The server's own computation ------------------------------------------------------

  /** From its own key and the key it reads out of the ClientHello. */
  function ServerSecret(c: Primitives, sv: Server, ch: seq<byte>): seq<byte>
    requires Lawful(c)
  {
    match PeerKey(ch)
    case None => []
    case Some(pub) => match MmtlsSecret(c, sv.priv, pub) case None => [] case Some(secret) => secret
  }

  function ServerHandshakeKeys(c: Primitives, sv: Server, secret: seq<byte>, ch: seq<byte>): (k: TrafficKeys)
    requires Lawful(c)
    ensures HasKeys(k)
  {
    DeriveHandshakeKeys(c, secret, c.sha256(ch + sv.hello.payload))
  }

  /** The messages before ServerFinished. */
  function ServerTranscript(sv: Server, ch: seq<byte>): seq<byte> {
    ch + sv.hello.payload + Concat(sv.messages)
  }

  function ServerFinishedMessage(c: Primitives, secret: seq<byte>, transcript: seq<byte>): seq<byte>
    requires Lawful(c)
  {
    HandshakeBytes(FINISHED, FinishedBody(FinishedVerifyData(c, secret, false, c.sha256(transcript))))
  }

  function ServerFlight(c: Primitives, sv: Server, secret: seq<byte>, ch: seq<byte>): seq<Record>
    requires Lawful(c) && |sv.messages| < TWO63
  {
    var fin := Record(sv.finType, ServerFinishedMessage(c, secret, ServerTranscript(sv, ch)));
    [sv.hello] + SealedFrom(c, ServerHandshakeKeys(c, sv, secret, ch), sv.messages + [fin], 1)
  }

  // ---- One record ------------------------------------------------------------------------

  lemma TakeFront(s: Session, r: Record, later: seq<Record>)
    requires Remaining(s.input) == [r] + later
    ensures Take(s).0 == Some(r) && Take(s).1 == s.(input := Take(s).1.input)
    ensures Remaining(Take(s).1.input) == later
  {
    hide Next, Remaining;
    NextTakesFirst(s.input);
    assert Remaining(s.input)[0] == r && Remaining(s.input)[1..] == later;
    var t := Next(s.input).1;
    assert ([Next(s.input).0.value] + Remaining(t))[1..] == Remaining(t);
  }

  lemma OpenFront(c: Primitives, s: Session, m: Record, later: seq<Record>)
    requires Lawful(c) && HasKeys(s.hs) && s.rxSeq + 1 < TWO64
    requires Remaining(s.input) == [SealRecord(c, s.hs, m, s.rxSeq)] + later
    ensures var (r, t) := RecvSealed(c, s, s.hs.serverKey, s.hs.serverIV);
            && r == Some(m)
            && t == s.(input := t.input, rxSeq := s.rxSeq + 1)
            && Remaining(t.input) == later
  {
    hide Next, Remaining, DecryptRecord, EncryptRecord;
    RecordOpens(c, s.hs.serverKey, s.hs.serverIV, s.rxSeq, m.contentType, m.payload);
    TakeFront(s, SealRecord(c, s.hs, m, s.rxSeq), later);
  }

  // ---- The flight ------------------------------------------------------------------------

  lemma LastOfCons(m: Record, ms: seq<Record>, ty: byte)
    ensures LastOf([m] + ms, ty) ==
            match LastOf(ms, ty) case Some(i) => Some(i + 1) case None => if TypeOf(m) == ty then Some(0) else None
  {
    hide TypeOf;
    assert ([m] + ms)[1..] == ms;
  }

  lemma ConcatCons(base: seq<byte>, m: Record, ms: seq<Record>)
    ensures base + Concat([m] + ms) == base + m.payload + Concat(ms)
  {
    assert ([m] + ms)[1..] == ms;
    Assoc(base, m.payload, Concat(ms));
  }

  lemma CertHashCons(c: Primitives, base: seq<byte>, m: Record, ms: seq<Record>, before: Option<seq<byte>>)
    ensures CertHash(c, base, [m] + ms, before)
         == CertHash(c, base + m.payload, ms,
                     if TypeOf(m) == CERT_VERIFY then Some(c.sha256(base + m.payload)) else before)
  {
    hide TypeOf, LastOf, Concat;
    LastOfCons(m, ms, CERT_VERIFY);
    var all := [m] + ms;
    var i := LastOf(ms, CERT_VERIFY);
    if i.Some? {
      assert all[..i.value + 2] == [m] + ms[..i.value + 1];
      ConcatCons(base, m, ms[..i.value + 1]);
    } else {
      assert all[..1] == [m] + [];
      ConcatCons(base, m, []);
      assert base + m.payload + Concat([]) == base + m.payload by { NoneConcatenated(); }
    }
  }

  lemma NoneConcatenated()
    ensures Concat([]) == []
  {
  }

  lemma LastTicketsCons(m: Record, ms: seq<Record>, before: seq<Ticket>)
    requires SplitHandshake(m.payload).Some?
    ensures var body := SplitHandshake(m.payload).value.body;
            LastTickets([m] + ms, before)
            == LastTickets(ms, if TypeOf(m) == NEW_SESSION_TICKET then ParseNewSessionTicket(body) else before)
  {
    hide SplitHandshake, ParseNewSessionTicket;
    LastOfCons(m, ms, NEW_SESSION_TICKET);
    var i := LastOf(ms, NEW_SESSION_TICKET);
    if i.Some? {
      assert ([m] + ms)[i.value + 1] == ms[i.value];
      assert SplitHandshake(ms[i.value].payload).Some?;
    }
  }

  /** Absorbing the first message and then the rest leaves what all of them leave. */
  lemma AbsorbCons(c: Primitives, s: Session, m: Record, ms: seq<Record>)
    requires SplitHandshake(m.payload).Some?
    ensures var t := Absorb(c, s, m.payload, SplitHandshake(m.payload).value);
            && t.transcript + Concat(ms) == s.transcript + Concat([m] + ms)
            && CertHash(c, t.transcript, ms, t.hCertV) == CertHash(c, s.transcript, [m] + ms, s.hCertV)
            && LastTickets(ms, t.tickets) == LastTickets([m] + ms, s.tickets)
            && t == s.(transcript := t.transcript, hCertV := t.hCertV, tickets := t.tickets)
  {
    hide SplitHandshake, ParseNewSessionTicket, CertHash, LastTickets, Concat;
    ConcatCons(s.transcript, m, ms);
    CertHashCons(c, s.transcript, m, ms, s.hCertV);
    LastTicketsCons(m, ms, s.tickets);
  }

  lemma FinishAccepts(c: Primitives, s: Session, secret: seq<byte>)
    requires Lawful(c)
    ensures var plain, h := ServerFinishedMessage(c, secret, s.transcript), c.sha256(s.transcript);
            var m := SplitHandshake(plain);
            && m.Some? && m.value.msgType == FINISHED
            && Finish(c, s, secret, plain, m.value.body)
            == (true, s.(hFinal := Some(h), app := DeriveAppKeys(c, DeriveMaster(c, secret, h), h),
                         transcript := s.transcript + plain))
  {
    hide SplitHandshake, FinishedVerifyData, DeriveAppKeys, DeriveMaster, ParseFinished, FinishedBody;
    FinishedReadsBack(FinishedVerifyData(c, secret, false, c.sha256(s.transcript)));
  }

  lemma {:induction false} FlightAgrees(c: Primitives, s: Session, secret: seq<byte>, ms: seq<Record>, finType: byte,
                                        later: seq<Record>)
    requires Lawful(c) && HasKeys(s.hs) && s.rxSeq + |ms| + 1 < TWO64
    requires forall m :: m in ms ==> ProperMessage(m)
    requires var fin := Record(finType, ServerFinishedMessage(c, secret, s.transcript + Concat(ms)));
             Remaining(s.input) == SealedFrom(c, s.hs, ms + [fin], s.rxSeq) + later
    ensures var (ok, t) := Flight(c, s, secret);
            var base := s.transcript + Concat(ms);
            var h := c.sha256(base);
            && ok
            && t == s.(input := t.input, rxSeq := s.rxSeq + |ms| + 1, hFinal := Some(h),
                       app := DeriveAppKeys(c, DeriveMaster(c, secret, h), h),
                       transcript := base + ServerFinishedMessage(c, secret, base),
                       hCertV := CertHash(c, s.transcript, ms, s.hCertV),
                       tickets := LastTickets(ms, s.tickets))
            && Remaining(t.input) == later
    decreases |ms|
  {
    hide SplitHandshake, SealRecord, RecvSealed, Next, Remaining, DeriveAppKeys, DeriveMaster, Finish,
         ServerFinishedMessage, ParseNewSessionTicket, Absorb, CertHash, LastTickets;
    var base := s.transcript + Concat(ms);
    var fin := Record(finType, ServerFinishedMessage(c, secret, base));
    NextTakesFirst(s.input);
    if |ms| == 0 {
      assert base == s.transcript && ms + [fin] == [fin];
      assert SealedFrom(c, s.hs, [fin], s.rxSeq) == [SealRecord(c, s.hs, fin, s.rxSeq)];
      OpenFront(c, s, fin, later);
      FinishAccepts(c, RecvSealed(c, s, s.hs.serverKey, s.hs.serverIV).1, secret);
      NothingAbsorbed(c, s, ms);
    } else {
      var m, rest := ms[0], ms[1..];
      assert ProperMessage(m);
      assert ms + [fin] == [m] + (rest + [fin]) && ms == [m] + rest;
      var sealedRest := SealedFrom(c, s.hs, rest + [fin], s.rxSeq + 1);
      Assoc([SealRecord(c, s.hs, m, s.rxSeq)], sealedRest, later);
      OpenFront(c, s, m, sealedRest + later);
      var t := RecvSealed(c, s, s.hs.serverKey, s.hs.serverIV).1;
      AbsorbCons(c, t, m, rest);
      FlightAgrees(c, Absorb(c, t, m.payload, SplitHandshake(m.payload).value), secret, rest, finType, later);
    }
  }

  lemma NothingAbsorbed(c: Primitives, s: Session, ms: seq<Record>)
    requires |ms| == 0
    ensures CertHash(c, s.transcript, ms, s.hCertV) == s.hCertV && LastTickets(ms, s.tickets) == s.tickets
  {
  }
  // ---- The whole handshake ---------------------------------------------------------------

  lemma HelloLength(c: Primitives, d: Draw)
    requires Lawful(c) && ValidDraw(d)
    ensures |HelloOf(c, d)| == 212
  {
  }

  /** What a server reads out of the ClientHello: the client's randomness and time, the first ephemeral
      key under group 1, P-256, and the second under group 2. */
  lemma HelloCarries(c: Primitives, d: Draw)
    requires Lawful(c) && ValidDraw(d)
    ensures var h := ReadHello(HelloOf(c, d));
            && h.Some? && h.value.cipher == 0xc02b
            && h.value.random == d.random && h.value.timestamp == d.timestamp % 0x1_0000_0000
            && ReadKeyShares(h.value.extension) == Some((Offer(1, c.publicOf(d.g1)), Offer(2, c.publicOf(d.g2))))
    ensures PeerKey(HelloOf(c, d)) == Some(c.publicOf(d.g1))
  {
    hide BE, HandshakeBytes, ReadHello, ReadOffer;
    var a, b := KeyOffer(1, c.publicOf(d.g1)), KeyOffer(2, c.publicOf(d.g2));
    var ks := [0x00, 0x10, 2] + a + b + [0, 0, 0, 1];
    HelloReadsBack(0xc02b, d.random, d.timestamp, ks);
    OfferReadsBack(1, c.publicOf(d.g1), b + [0, 0, 0, 1]);
    OfferReadsBack(2, c.publicOf(d.g2), [0, 0, 0, 1]);
    assert ks[..3] == [0x00, 0x10, 2];
    assert ks[3..] == a + (b + [0, 0, 0, 1]);
  }

  lemma {:induction false} SealedAreSendable(c: Primitives, k: TrafficKeys, ms: seq<Record>, n: nat)
    requires Lawful(c) && HasKeys(k) && n + |ms| <= TWO64
    requires forall m :: m in ms ==> KnownContentType(m.contentType) && |m.payload| + TAG_LEN <= 0xffff
    ensures forall r :: r in SealedFrom(c, k, ms, n) ==> Sendable(r)
    decreases |ms|
  {
    if |ms| > 0 {
      assert ms[0] in ms;
      SealedAreSendable(c, k, ms[1..], n + 1);
    }
  }

  lemma FlightIsSendable(c: Primitives, sv: Server, secret: seq<byte>, ch: seq<byte>)
    requires Lawful(c) && Proper(c, sv)
    ensures forall r :: r in ServerFlight(c, sv, secret, ch) ==> Sendable(r)
  {
    hide HelloKey, SealedFrom, DeriveHandshakeKeys, FinishedVerifyData, SplitHandshake;
    var fin := Record(sv.finType, ServerFinishedMessage(c, secret, ServerTranscript(sv, ch)));
    forall m | m in sv.messages + [fin] ensures KnownContentType(m.contentType) && |m.payload| + TAG_LEN <= 0xffff {
      if m in sv.messages { assert ProperMessage(m); }
    }
    SealedAreSendable(c, ServerHandshakeKeys(c, sv, secret, ch), sv.messages + [fin], 1);
  }

  /** Proper servers exist: a hello built with a P-256 key share is accepted with that key. */
  lemma BuiltHelloHasKey(c: Primitives, priv: seq<byte>, version: seq<byte>, cipher: nat, random: seq<byte>,
                         lead: seq<byte>)
    requires Lawful(c) && |version| == 2 && |random| == 32 && |lead| == 6 && cipher < 0x1_0000
    ensures HelloKey(HandshakeBytes(SERVER_HELLO,
                                    ServerHelloBody(version, cipher, random, lead, GROUP_P256, c.publicOf(priv))))
         == Some(c.publicOf(priv))
  {
    hide ParseServerHello, SplitHandshake, HandshakeBytes, BE;
    var body := ServerHelloBody(version, cipher, random, lead, GROUP_P256, c.publicOf(priv));
    ServerHelloReadsBack(version, cipher, random, lead, GROUP_P256, c.publicOf(priv));
    SplitUndoesBuild(SERVER_HELLO, body, []);
    assert HandshakeBytes(SERVER_HELLO, body) + [] == HandshakeBytes(SERVER_HELLO, body);
  }

  lemma SecretsAgree(c: Primitives, x: seq<byte>, y: seq<byte>)
    requires Lawful(c)
    ensures MmtlsSecret(c, x, c.publicOf(y)).Some?
    ensures MmtlsSecret(c, x, c.publicOf(y)) == MmtlsSecret(c, y, c.publicOf(x))
  {
  }

  /** The flight as the client receives it, from the ServerHello to ServerFinished. */
  lemma ReceiveFlight(c: Primitives, s: Session, d: Draw, sv: Server, ch: seq<byte>, later: seq<Record>)
    requires Lawful(c) && Proper(c, sv) && Consistent(s)
    requires s.rxSeq == 0 && s.transcript == ch && s.hCertV == None && s.tickets == []
    requires PeerKey(ch) == Some(c.publicOf(d.g1))
    requires Remaining(s.input) == ServerFlight(c, sv, ServerSecret(c, sv, ch), ch) + later
    ensures var secret := ServerSecret(c, sv, ch);
            var base := ServerTranscript(sv, ch);
            var h := c.sha256(base);
            var (ok, t) := RecvServerFlight(c, s, d.g1);
            && ok
            && t == s.(input := t.input, rxSeq := |sv.messages| + 2, secret := Some(secret), hFinal := Some(h),
                       hs := ServerHandshakeKeys(c, sv, secret, ch),
                       app := DeriveAppKeys(c, DeriveMaster(c, secret, h), h),
                       transcript := base + ServerFinishedMessage(c, secret, base),
                       hCertV := CertHash(c, ch + sv.hello.payload, sv.messages, None),
                       tickets := LastTickets(sv.messages, []))
  {
    hide SealedFrom, DeriveAppKeys, DeriveMaster, DeriveHandshakeKeys, FinishedVerifyData, SplitHandshake,
         ParseServerHello,
         Flight, Next, Remaining, ServerFinishedMessage, CertHash, LastTickets, MmtlsSecret, Concat;
    SecretsAgree(c, d.g1, sv.priv);
    var secret := ServerSecret(c, sv, ch);
    var base := ServerTranscript(sv, ch);
    var fin := Record(sv.finType, ServerFinishedMessage(c, secret, base));
    var k := ServerHandshakeKeys(c, sv, secret, ch);
    var rest := SealedFrom(c, k, sv.messages + [fin], 1);
    Assoc([sv.hello], rest, later);
    TakeFront(s, sv.hello, rest + later);
    var (r, t) := RecvPlain(s);
    var u := t.(transcript := ch + sv.hello.payload, secret := Some(secret), hs := k);
    assert RecvServerFlight(c, s, d.g1) == Flight(c, u, secret);
    FlightAgrees(c, u, secret, sv.messages, sv.finType, later);
  }

  /** The ClientFinished record opens at the server and carries the client's verify data. */
  lemma FinishedArrives(c: Primitives, s: Session, secret: seq<byte>, h: seq<byte>)
    requires Lawful(c) && Consistent(s) && s.secret == Some(secret) && s.hFinal == Some(h)
    requires s.txSeq + 1 < TWO64 && |s.writes| > 0 && s.writes[0]
    ensures var (ok, t) := SendClientFinished(c, s);
            var msg := HandshakeBytes(FINISHED, FinishedBody(FinishedVerifyData(c, secret, true, h)));
            && ok
            && t == s.(writes := s.writes[1..], sent := t.sent, txSeq := s.txSeq + 1)
            && |t.sent| == |s.sent| + 1 && t.sent[..|s.sent|] == s.sent
            && var f := First(t.sent[|s.sent|]);
               f.Front? && f.record.contentType == HANDSHAKE
               && DecryptRecord(c, s.hs.clientKey, s.hs.clientIV, s.txSeq, HANDSHAKE, f.record.payload) == Some(msg)
  {
    hide DecryptRecord, EncryptRecord, First, FinishedVerifyData, RecordBytes;
    var vd := FinishedVerifyData(c, secret, true, h);
    var msg := HandshakeBytes(FINISHED, FinishedBody(vd));
    assert BuildFinished(vd) == Some(msg);
    RecordOpens(c, s.hs.clientKey, s.hs.clientIV, s.txSeq, HANDSHAKE, msg);
    var ct := EncryptRecord(c, s.hs.clientKey, s.hs.clientIV, s.txSeq, HANDSHAKE, msg).value;
    FirstOfRecord(Record(HANDSHAKE, ct), []);
    assert RecordBytes(Record(HANDSHAKE, ct)) + [] == RecordBytes(Record(HANDSHAKE, ct));
  }

  /** Against a proper server, whose flight arrives cut into any reads and followed by anything,
      the handshake succeeds. hFinal hashes exactly the messages before ServerFinished, hCertV those
      up to the last CertVerify, both ends hold the same secret and keys, and the server can open
      and verify the client's Finished. */
  lemma HandshakeAgreement(c: Primitives, d: Draw, sv: Server, conn: seq<ReadEvent>, writes: seq<bool>,
                           extra: seq<byte>)
    requires Lawful(c) && ValidDraw(d) && Proper(c, sv)
    requires |writes| >= 2 && writes[0] && writes[1]
    requires Arriving(conn)
          == StreamBytes(ServerFlight(c, sv, ServerSecret(c, sv, HelloOf(c, d)), HelloOf(c, d))) + extra
    ensures var ch := HelloOf(c, d);
            var secret := ServerSecret(c, sv, ch);
            var base := ServerTranscript(sv, ch);
            var h := c.sha256(base);
            var (ok, t) := DoHandshake(c, Fresh(conn, writes), d);
            && ok
            && t.secret == Some(secret) && t.hFinal == Some(h)
            && t.hs == ServerHandshakeKeys(c, sv, secret, ch)
            && t.app == DeriveAppKeys(c, DeriveMaster(c, secret, h), h)
            && t.hCertV == CertHash(c, ch + sv.hello.payload, sv.messages, None)
            && t.tickets == LastTickets(sv.messages, [])
            && t.transcript == base + ServerFinishedMessage(c, secret, base)
            && t.txSeq == 2 && t.rxSeq == |sv.messages| + 2
            && |t.sent| == 2 && First(t.sent[0]) == Front(Record(HANDSHAKE, ch), |t.sent[0]|)
            && PeerKey(ch) == Some(c.publicOf(d.g1))
            && var f := First(t.sent[1]);
               f.Front? && f.record.contentType == HANDSHAKE
               && DecryptRecord(c, t.hs.clientKey, t.hs.clientIV, 1, HANDSHAKE, f.record.payload)
               == Some(HandshakeBytes(FINISHED, FinishedBody(FinishedVerifyData(c, secret, true, h))))
  {
    hide RecvServerFlight, SendClientFinished, ServerFlight, StreamBytes, ParseAll, Arriving, HelloOf, RecordBytes,
         DecryptRecord,
         First, FinishedVerifyData, FinishedBody, HandshakeBytes, CertHash, LastTickets, ServerTranscript,
         DeriveAppKeys, DeriveMaster,
         ServerFinishedMessage, HelloKey, ServerSecret, PeerKey, ReadHello;
    var ch := HelloOf(c, d);
    var secret := ServerSecret(c, sv, ch);
    var flight := ServerFlight(c, sv, secret, ch);
    HelloLength(c, d);
    HelloCarries(c, d);
    FirstOfRecord(Record(HANDSHAKE, ch), []);
    assert RecordBytes(Record(HANDSHAKE, ch)) + [] == RecordBytes(Record(HANDSHAKE, ch));
    var (ok1, s) := SendClientHello(c, Fresh(conn, writes), d);
    assert ok1 && s.transcript == ch && s.writes == writes[1..]
        && s.sent == [RecordBytes(Record(HANDSHAKE, ch))] && s.txSeq == 1
        && s.input == Stream([], [], conn) && s.rxSeq == 0 && s.hCertV == None && s.tickets == [];
    FlightIsSendable(c, sv, secret, ch);
    ParseOfStream(flight, extra);
    assert [] + Arriving(conn) == Arriving(conn);
    ReceiveFlight(c, s, d, sv, ch, ParseAll(extra).recs);
    RecvFlightKeepsConsistent(c, s, d.g1);
    var (ok2, t) := RecvServerFlight(c, s, d.g1);
    FinishedArrives(c, t, secret, c.sha256(ServerTranscript(sv, ch)));
  }

  // ---- The converse ----------------------------------------------------------------------

  function Join(parts: seq<seq<byte>>): seq<byte> {
    if |parts| == 0 then [] else parts[0] + Join(parts[1..])
  }

  /** The records recs, numbered from n, open under the server's keys to plains. */
  ghost predicate OpenTo(c: Primitives, k: TrafficKeys, recs: seq<Record>, plains: seq<seq<byte>>, n: nat)
    requires HasKeys(k)
  {
    && |recs| == |plains|
    && forall j :: 0 <= j < |recs| ==> OpensTo(c, k, recs[j], plains[j], (n + j) % TWO64)
  }

  ghost predicate OpensTo(c: Primitives, k: TrafficKeys, r: Record, plain: seq<byte>, n: uint64)
    requires HasKeys(k)
  {
    DecryptRecord(c, k.serverKey, k.serverIV, n, r.contentType, r.payload) == Some(plain)
  }

  ghost predicate SealsTo(c: Primitives, k: TrafficKeys, plain: seq<byte>, r: Record, n: uint64)
    requires HasKeys(k)
  {
    EncryptRecord(c, k.serverKey, k.serverIV, n, r.contentType, plain) == Some(r.payload)
  }

  /** They are what sealing plains under those keys gives. */
  ghost predicate SealOf(c: Primitives, k: TrafficKeys, recs: seq<Record>, plains: seq<seq<byte>>, n: nat)
    requires HasKeys(k) && |recs| == |plains|
  {
    forall j :: 0 <= j < |recs| ==>
      SealsTo(c, k, plains[j], recs[j], (n + j) % TWO64)
  }

  /** fin is a Finished message, right after the transcript t, with the verify data for it. */
  ghost predicate Verified(c: Primitives, s: Session, secret: seq<byte>, t: seq<byte>, fin: seq<byte>)
    requires Lawful(c)
  {
    var m := SplitHandshake(fin);
    && s.transcript == t + fin && s.hFinal == Some(c.sha256(t))
    && m.Some? && m.value.msgType == FINISHED
    && ParseFinished(m.value.body) == Some(FinishedVerifyData(c, secret, false, c.sha256(t)))
  }

  lemma JoinCons(base: seq<byte>, p: seq<byte>, ps: seq<seq<byte>>)
    ensures base + Join([p] + ps) == base + p + Join(ps)
  {
    assert ([p] + ps)[1..] == ps;
  }

  lemma OpenCons(c: Primitives, k: TrafficKeys, r: Record, p: seq<byte>, recs: seq<Record>, plains: seq<seq<byte>>,
                 n: uint64)
    requires HasKeys(k) && OpensTo(c, k, r, p, n) && OpenTo(c, k, recs, plains, Inc(n))
    ensures OpenTo(c, k, [r] + recs, [p] + plains, n)
  {
    hide OpensTo;
    var rs, ps := [r] + recs, [p] + plains;
    forall j | 0 <= j < |rs| ensures OpensTo(c, k, rs[j], ps[j], (n + j) % TWO64) {
      if j > 0 {
        assert OpensTo(c, k, recs[j - 1], plains[j - 1], (Inc(n) + (j - 1)) % TWO64);
        Shifted(n, j);
      } else {
        assert n % TWO64 == n;
      }
    }
  }

  lemma Shifted(n: uint64, j: nat)
    requires j > 0
    ensures (Inc(n) + (j - 1)) % TWO64 == (n + j) % TWO64
  {
  }

  /** One opened record. */
  lemma OpenedOne(c: Primitives, s: Session)
    requires HasKeys(s.hs) && RecvSealed(c, s, s.hs.serverKey, s.hs.serverIV).0.Some?
    ensures var (r, u) := RecvSealed(c, s, s.hs.serverKey, s.hs.serverIV);
            var rec := Next(s.input).0;
            && rec.Some? && Remaining(s.input) == [rec.value] + Remaining(u.input)
            && OpensTo(c, s.hs, rec.value, r.value.payload, s.rxSeq)
            && u == s.(input := u.input, rxSeq := Inc(s.rxSeq))
  {
    hide Next, Remaining, DecryptRecord;
    NextTakesFirst(s.input);
  }

  /** An accepted flight: every record taken opened under the server's handshake keys, the transcript
      holds what they opened to, and the last of them is the Finished that was checked. */
  lemma {:induction false} FlightVerified(c: Primitives, s: Session, secret: seq<byte>)
    returns (recs: seq<Record>, plains: seq<seq<byte>>)
    requires Lawful(c) && HasKeys(s.hs) && Flight(c, s, secret).0
    ensures var u := Flight(c, s, secret).1;
            && Remaining(s.input) == recs + Remaining(u.input)
            && u.hs == s.hs && u.secret == s.secret
            && OpenTo(c, s.hs, recs, plains, s.rxSeq)
            && |plains| > 0
            && Verified(c, u, secret, s.transcript + Join(plains[..|plains| - 1]), plains[|plains| - 1])
    decreases |Remaining(s.input)|
  {
    hide SplitHandshake, Next, Remaining, RecvSealed, DecryptRecord, OpenTo, OpensTo, Verified, DeriveAppKeys,
         DeriveMaster,
         FinishedVerifyData, ParseFinished, ParseNewSessionTicket;
    var (r, u) := RecvSealed(c, s, s.hs.serverKey, s.hs.serverIV);
    FlightGoesOn(c, s, secret);
    OpenedOne(c, s);
    var rec, pt := Next(s.input).0.value, r.value.payload;
    var m := SplitHandshake(pt).value;
    if m.msgType == FINISHED {
      recs, plains := [rec], [pt];
      OpenNone(c, s.hs, Inc(s.rxSeq));
      OpenCons(c, s.hs, rec, pt, [], [], s.rxSeq);
      assert [rec] + [] == [rec] && [pt] + [] == [pt] && plains[..0] == [];
      assert s.transcript + Join([]) == s.transcript by { JoinNone(s.transcript); }
      FinishVerifies(c, u, secret, pt);
    } else {
      var v := Absorb(c, u, pt, m);
      var rs, ps := FlightVerified(c, v, secret);
      recs, plains := [rec] + rs, [pt] + ps;
      OpenCons(c, s.hs, rec, pt, rs, ps, s.rxSeq);
      assert plains[..|plains| - 1] == [pt] + ps[..|ps| - 1];
      JoinCons(s.transcript, pt, ps[..|ps| - 1]);
      assert recs + Remaining(Flight(c, s, secret).1.input) == [rec] + (rs + Remaining(Flight(c, s, secret).1.input));
    }
  }

  lemma FlightGoesOn(c: Primitives, s: Session, secret: seq<byte>)
    requires Lawful(c) && HasKeys(s.hs) && Flight(c, s, secret).0
    ensures var (r, u) := RecvSealed(c, s, s.hs.serverKey, s.hs.serverIV);
            && r.Some? && SplitHandshake(r.value.payload).Some?
            && var m := SplitHandshake(r.value.payload).value;
               Flight(c, s, secret) == if m.msgType == FINISHED then Finish(c, u, secret, r.value.payload, m.body)
                                       else Flight(c, Absorb(c, u, r.value.payload, m), secret)
  {
    hide SplitHandshake, Next, Remaining, DecryptRecord, DeriveAppKeys, DeriveMaster, FinishedVerifyData, ParseFinished,
         ParseNewSessionTicket;
    NextTakesFirst(s.input);
  }

  lemma FinishVerifies(c: Primitives, s: Session, secret: seq<byte>, fin: seq<byte>)
    requires Lawful(c) && SplitHandshake(fin).Some? && SplitHandshake(fin).value.msgType == FINISHED
    requires Finish(c, s, secret, fin, SplitHandshake(fin).value.body).0
    ensures Verified(c, Finish(c, s, secret, fin, SplitHandshake(fin).value.body).1, secret, s.transcript, fin)
  {
    hide SplitHandshake, DeriveAppKeys, DeriveMaster, FinishedVerifyData, ParseFinished;
  }

  lemma OpenNone(c: Primitives, k: TrafficKeys, n: nat)
    requires HasKeys(k)
    ensures OpenTo(c, k, [], [], n)
  {
  }

  lemma JoinNone(base: seq<byte>)
    ensures base + Join([]) == base
  {
  }

  lemma OpenedWereSealed(c: Primitives, k: TrafficKeys, recs: seq<Record>, plains: seq<seq<byte>>, n: nat)
    requires Lawful(c) && Authentic(c) && HasKeys(k) && OpenTo(c, k, recs, plains, n)
    ensures SealOf(c, k, recs, plains, n)
  {
    hide Nonce, RecordAAD;
    forall j | 0 <= j < |recs|
      ensures SealsTo(c, k, plains[j], recs[j], (n + j) % TWO64)
    {
      assert OpensTo(c, k, recs[j], plains[j], (n + j) % TWO64);
    }
  }

  /** Whatever the server sent, a handshake that succeeds has taken from the stream a plain hello and
      then records that all opened, in turn, under the server's handshake keys. The last one opened to
      a Finished whose verify data is the one for the secret and for everything exchanged before it.
      Under authenticity all of them were sealed with those keys. */
  lemma AcceptanceIsVerified(c: Primitives, s: Session, g1Priv: seq<byte>)
    returns (hello: Record, recs: seq<Record>, plains: seq<seq<byte>>)
    requires Lawful(c) && RecvServerFlight(c, s, g1Priv).0
    ensures var u := RecvServerFlight(c, s, g1Priv).1;
            && Remaining(s.input) == [hello] + recs + Remaining(u.input)
            && u.secret.Some? && HelloKey(hello.payload).Some?
            && u.secret == MmtlsSecret(c, g1Priv, HelloKey(hello.payload).value)
            && u.hs == DeriveHandshakeKeys(c, u.secret.value, c.sha256(s.transcript + hello.payload))
            && HasKeys(u.hs) && OpenTo(c, u.hs, recs, plains, Inc(s.rxSeq))
            && (Authentic(c) ==> SealOf(c, u.hs, recs, plains, Inc(s.rxSeq)))
            && |plains| > 0
            && Verified(c, u, u.secret.value, s.transcript + hello.payload + Join(plains[..|plains| - 1]),
                        plains[|plains| - 1])
  {
    hide Flight, Next, Remaining, SplitHandshake, ParseServerHello, Verified, OpenTo, SealOf, MmtlsSecret;
    NextTakesFirst(s.input);
    var (r, t) := RecvPlain(s);
    hello := r.value;
    var u := t.(transcript := t.transcript + hello.payload);
    var secret := MmtlsSecret(c, g1Priv, HelloKey(hello.payload).value);
    var v := u.(secret := secret, hs := DeriveHandshakeKeys(c, secret.value, c.sha256(u.transcript)));
    recs, plains := FlightVerified(c, v, secret.value);
    if Authentic(c) { OpenedWereSealed(c, v.hs, recs, plains, v.rxSeq); }
    var w := RecvServerFlight(c, s, g1Priv).1;
    assert [hello] + (recs + Remaining(w.input)) == [hello] + recs + Remaining(w.input);
  }
}

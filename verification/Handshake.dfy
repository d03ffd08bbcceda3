/** The MMTLS client session as a function of its state: the meaning the methods of `Client` are
    proved against, and what the handshake and the record counters guarantee. */
module Handshake {
  import opened Bytes
  import opened Records
  import opened Crypto
  import opened Messages

  /** The fields of mmtlsClient. `sent` is what reached the connection, `writes` how the coming
      conn.Write calls end: a write beyond the list fails. */
  datatype Session = Session(
    input: Stream,
    sent: seq<seq<byte>>,
    writes: seq<bool>,
    transcript: seq<byte>,
    secret: Option<seq<byte>>,
    hCertV: Option<seq<byte>>,
    hFinal: Option<seq<byte>>,
    tickets: seq<Ticket>,
    hs: TrafficKeys,
    app: TrafficKeys,
    txSeq: uint64,
    rxSeq: uint64)

  const NO_KEYS := TrafficKeys([], [], [], [])

  function Fresh(conn: seq<ReadEvent>, writes: seq<bool>): Session {
    Session(Stream([], [], conn), [], writes, [], None, None, None, [], NO_KEYS, NO_KEYS, 0, 0)
  }

  predicate HasKeys(k: TrafficKeys) {
    && |k.clientKey| == |k.serverKey| == 16
    && |k.clientIV| == |k.serverIV| == 12
  }

  /** Once hFinal is set, so are the secret and both key sets. */
  predicate Consistent(s: Session) {
    s.hFinal.Some? ==> s.secret.Some? && HasKeys(s.hs) && HasKeys(s.app)
  }

  function Inc(n: uint64): uint64 {
    (n + 1) % TWO64
  }

  // ---- Sending and receiving -------------------------------------------------------------

  function SendRaw(s: Session, data: seq<byte>): (bool, Session) {
    if |s.writes| == 0 then (false, s)
    else (s.writes[0], s.(writes := s.writes[1..], sent := if s.writes[0] then s.sent + [data] else s.sent))
  }

  /** Framing, writing and counting one record. */
  function SendRecord(s: Session, contentType: byte, payload: seq<byte>): (bool, Session) {
    if |payload| > 0xffff then (false, s)
    else
      var (ok, t) := SendRaw(s, RecordBytes(Record(contentType, payload)));
      if ok then (true, t.(txSeq := Inc(t.txSeq))) else (false, t)
  }

  function SendSealed(c: Primitives, s: Session, contentType: byte, plain: seq<byte>, key: seq<byte>,
                      iv: seq<byte>): (bool, Session)
    requires |iv| == 12
  {
    match EncryptRecord(c, key, iv, s.txSeq, contentType, plain)
    case None => (false, s)
    case Some(ct) => SendRecord(s, contentType, ct)
  }

  /** The next record, without touching the counter. */
  function Take(s: Session): (Option<Record>, Session) {
    var (r, input) := Next(s.input);
    (r, s.(input := input))
  }

  function RecvPlain(s: Session): (Option<Record>, Session) {
    var (r, t) := Take(s);
    (r, if r.Some? then t.(rxSeq := Inc(t.rxSeq)) else t)
  }

  /** The next record with its payload opened. The counter moves only on success. */
  function RecvSealed(c: Primitives, s: Session, key: seq<byte>, iv: seq<byte>): (Option<Record>, Session)
    requires |iv| == 12
  {
    var (r, t) := Take(s);
    match r
    case None => (None, t)
    case Some(rec) =>
      match DecryptRecord(c, key, iv, t.rxSeq, rec.contentType, rec.payload)
      case None => (None, t)
      case Some(plain) => (Some(Record(rec.contentType, plain)), t.(rxSeq := Inc(t.rxSeq)))
  }

  // ---- The server flight -----------------------------------------------------------------

  /** A message of the flight other than Finished. */
  function Absorb(c: Primitives, s: Session, plain: seq<byte>, m: Message): Session {
    var t := s.(transcript := s.transcript + plain);
    if m.msgType == CERT_VERIFY then t.(hCertV := Some(c.sha256(t.transcript)))
    else if m.msgType == NEW_SESSION_TICKET then t.(tickets := ParseNewSessionTicket(m.body))
    else t
  }

  /** ServerFinished: the keys are derived before the verify data is looked at. */
  function Finish(c: Primitives, s: Session, secret: seq<byte>, plain: seq<byte>, body: seq<byte>): (bool, Session)
    requires Lawful(c)
  {
    var h := c.sha256(s.transcript);
    var t := s.(hFinal := Some(h), app := DeriveAppKeys(c, DeriveMaster(c, secret, h), h));
    if ParseFinished(body) == Some(FinishedVerifyData(c, secret, false, h))
    then (true, t.(transcript := t.transcript + plain))
    else (false, t)
  }

  function Flight(c: Primitives, s: Session, secret: seq<byte>): (bool, Session)
    requires Lawful(c) && |s.hs.serverIV| == 12
    decreases |Remaining(s.input)|
  {
    NextTakesFirst(s.input);
    var (r, t) := RecvSealed(c, s, s.hs.serverKey, s.hs.serverIV);
    match r
    case None => (false, t)
    case Some(rec) =>
      match SplitHandshake(rec.payload)
      case None => (false, t)
      case Some(m) =>
        if m.msgType == FINISHED then Finish(c, t, secret, rec.payload, m.body)
        else Flight(c, Absorb(c, t, rec.payload, m), secret)
  }

  /** The client's checks on the plain ServerHello record: the key it carries, or None. */
  function HelloKey(payload: seq<byte>): Option<seq<byte>> {
    match SplitHandshake(payload)
    case None => None
    case Some(m) =>
      if m.msgType != SERVER_HELLO then None
      else match ParseServerHello(m.body)
           case None => None
           case Some(sh) => if sh.group == GROUP_P256 then Some(sh.pubKey) else None
  }

  predicate IsServerHello(payload: seq<byte>) {
    var m := SplitHandshake(payload);
    m.Some? && m.value.msgType == SERVER_HELLO
  }

  function RecvServerFlight(c: Primitives, s: Session, g1Priv: seq<byte>): (bool, Session)
    requires Lawful(c)
  {
    var (r, t) := RecvPlain(s);
    if r.None? || !IsServerHello(r.value.payload) then (false, t)
    else
      var u := t.(transcript := t.transcript + r.value.payload);
      match HelloKey(r.value.payload)
      case None => (false, u)
      case Some(pub) =>
        match MmtlsSecret(c, g1Priv, pub)
        case None => (false, u)
        case Some(secret) =>
          Flight(c, u.(secret := Some(secret), hs := DeriveHandshakeKeys(c, secret, c.sha256(u.transcript))), secret)
  }

  // ---- The whole handshake ---------------------------------------------------------------

  function KeyOffer(group: nat, pub: seq<byte>): seq<byte> {
    var one := BE(group, 4) + BE(65, 2) + pub;
    BE(|one|, 4) + one
  }

  function ClientHelloExt(g1Pub: seq<byte>, g2Pub: seq<byte>): seq<byte> {
    var ks := [0x00, 0x10, 2] + KeyOffer(1, g1Pub) + KeyOffer(2, g2Pub) + [0, 0, 0, 1];
    [EXT_KEY_SHARE] + BE(|ks|, 4) + ks
  }

  function ClientHello(random: seq<byte>, timestamp: nat, g1Pub: seq<byte>, g2Pub: seq<byte>): seq<byte> {
    var ext := ClientHelloExt(g1Pub, g2Pub);
    HandshakeBytes(0x01, [0x03, 0xf1, 1] + BE(0xc02b, 2) + random + BE(timestamp, 4) + BE(|ext|, 4) + ext)
  }

  /** What the client draws for one handshake: two ephemeral keys, randomness and the time. */
  datatype Draw = Draw(g1: seq<byte>, g2: seq<byte>, random: seq<byte>, timestamp: nat)

  predicate ValidDraw(d: Draw) {
    |d.random| == 32
  }

  function HelloOf(c: Primitives, d: Draw): seq<byte> {
    ClientHello(d.random, d.timestamp, c.publicOf(d.g1), c.publicOf(d.g2))
  }

  function SendClientHello(c: Primitives, s: Session, d: Draw): (bool, Session) {
    var ch := HelloOf(c, d);
    SendRecord(s.(transcript := s.transcript + ch), HANDSHAKE, ch)
  }

  function SendClientFinished(c: Primitives, s: Session): (bool, Session)
    requires Lawful(c) && Consistent(s)
  {
    match s.hFinal
    case None => (false, s)
    case Some(h) =>
      match BuildFinished(FinishedVerifyData(c, s.secret.value, true, h))
      case None => (false, s)
      case Some(msg) => SendSealed(c, s, HANDSHAKE, msg, s.hs.clientKey, s.hs.clientIV)
  }

  lemma {:induction false} FlightKeepsConsistent(c: Primitives, s: Session, secret: seq<byte>)
    requires Lawful(c) && HasKeys(s.hs) && s.secret == Some(secret) && Consistent(s)
    ensures Consistent(Flight(c, s, secret).1)
    decreases |Remaining(s.input)|
  {
    hide DecryptRecord, SplitHandshake, Next, Remaining, DeriveMaster, ParseFinished, FinishedVerifyData,
         ParseNewSessionTicket;
    NextTakesFirst(s.input);
    var (r, t) := RecvSealed(c, s, s.hs.serverKey, s.hs.serverIV);
    if r.Some? && SplitHandshake(r.value.payload).Some? {
      var m := SplitHandshake(r.value.payload).value;
      if m.msgType != FINISHED { FlightKeepsConsistent(c, Absorb(c, t, r.value.payload, m), secret); }
    }
  }

  lemma RecvFlightKeepsConsistent(c: Primitives, s: Session, g1Priv: seq<byte>)
    requires Lawful(c) && Consistent(s)
    ensures Consistent(RecvServerFlight(c, s, g1Priv).1)
  {
    hide Flight, Next, ParseServerHello, SplitHandshake;
    var (r, t) := RecvPlain(s);
    if r.Some? && IsServerHello(r.value.payload) && HelloKey(r.value.payload).Some? {
      var u := t.(transcript := t.transcript + r.value.payload);
      var sec := MmtlsSecret(c, g1Priv, HelloKey(r.value.payload).value);
      if sec.Some? {
        FlightKeepsConsistent(c, u.(secret := sec, hs := DeriveHandshakeKeys(c, sec.value, c.sha256(u.transcript))),
                              sec.value);
      }
    }
  }

  function DoHandshake(c: Primitives, s: Session, d: Draw): (bool, Session)
    requires Lawful(c) && Consistent(s)
  {
    var (ok1, t) := SendClientHello(c, s, d);
    if !ok1 then (false, t)
    else
      RecvFlightKeepsConsistent(c, t, d.g1);
      var (ok2, u) := RecvServerFlight(c, t, d.g1);
      if !ok2 then (false, u) else SendClientFinished(c, u)
  }
}

/** mmtlsClient of internal/protocol/mmtls_client.go, updated in place. Each method is proved
    against the function of module `Handshake` that gives its meaning. */
module Client {
  import opened Bytes
  import opened Records
  import opened Crypto
  import opened Messages
  import opened Handshake
  import opened Hex

  /** One PSK a login leaves behind; the byte strings are kept as hex. */
  datatype PskEntry = PskEntry(pskType: int, preSharedKey: string, ticketEntry: string, lifetime: int, expiredAt: int)

  function PskOf(c: Primitives, secret: seq<byte>, hCertV: seq<byte>, t: Ticket, now: int): PskEntry
    requires Lawful(c)
  {
    PskEntry(t.pskType, EncodeHex(DerivePSK(c, secret, hCertV, t.pskType)), EncodeHex(t.entry), t.lifetime,
             now + t.lifetime)
  }

  class MmtlsClient {
    const c: Primitives
    var rxbuf: seq<byte>
    var recq: seq<Record>
    var conn: seq<ReadEvent>
    var sent: seq<seq<byte>>
    var writes: seq<bool>
    var transcript: seq<byte>
    var secret: Option<seq<byte>>
    var hCertV: Option<seq<byte>>
    var hFinal: Option<seq<byte>>
    var nstEntries: seq<Ticket>
    var hs: TrafficKeys
    var app: TrafficKeys
    var txSeq: uint64
    var rxSeq: uint64

    function View(): Session
      reads this
    {
      Session(Stream(rxbuf, recq, conn), sent, writes, transcript, secret, hCertV, hFinal, nstEntries, hs, app, txSeq,
              rxSeq)
    }

    ghost predicate Valid()
      reads this
    {
      Lawful(c) && Consistent(View())
    }

    constructor (c: Primitives, conn: seq<ReadEvent>, writes: seq<bool>)
      requires Lawful(c)
      ensures this.c == c && Valid() && View() == Fresh(conn, writes)
    {
      this.c := c;
      rxbuf, recq, this.conn := [], [], conn;
      sent, this.writes := [], writes;
      transcript, secret, hCertV, hFinal, nstEntries := [], None, None, None, [];
      hs, app := NO_KEYS, NO_KEYS;
      txSeq, rxSeq := 0, 0;
    }

    method NextRecord() returns (r: Option<Record>)
      modifies this`rxbuf, this`recq, this`conn
      ensures (r, View()) == Take(old(View()))
    {
      hide ParseAll;
      ghost var goal := Next(View().input);
      while |recq| == 0
        invariant Next(View().input) == goal
        decreases |conn|, |recq| == 0
      {
        var recs, consumed := ParseRecords(rxbuf);
        if |recs| > 0 {
          recq := recq + recs;
          rxbuf := rxbuf[consumed..];
          assert recq == recs;
          break;
        }
        if |conn| == 0 { return None; }
        var event := conn[0];
        conn := conn[1..];
        if event.ReadError? { return None; }
        if |event.bytes| == 0 { return None; }
        rxbuf := rxbuf + event.bytes;
        assert recq == [];
      }
      r := Some(recq[0]);
      recq := recq[1..];
    }

    method SendRawBytes(data: seq<byte>) returns (ok: bool)
      modifies this`sent, this`writes
      ensures (ok, View()) == SendRaw(old(View()), data)
    {
      if |writes| == 0 { return false; }
      ok := writes[0];
      writes := writes[1..];
      if ok { sent := sent + [data]; }
    }

    method SendPlain(contentType: byte, payload: seq<byte>) returns (ok: bool)
      modifies this`sent, this`writes, this`txSeq
      ensures (ok, View()) == SendRecord(old(View()), contentType, payload)
    {
      var rec := BuildRecord(contentType, payload);
      if rec.None? { return false; }
      ok := SendRawBytes(rec.value);
      if ok { txSeq := Inc(txSeq); }
    }

    method SendEncrypted(contentType: byte, plaintext: seq<byte>, key: seq<byte>, iv: seq<byte>) returns (ok: bool)
      requires |iv| == 12
      modifies this`sent, this`writes, this`txSeq
      ensures (ok, View()) == SendSealed(c, old(View()), contentType, plaintext, key, iv)
    {
      var ct := EncryptRecord(c, key, iv, txSeq, contentType, plaintext);
      if ct.None? { return false; }
      var rec := BuildRecord(contentType, ct.value);
      if rec.None? { return false; }
      ok := SendRawBytes(rec.value);
      if ok { txSeq := Inc(txSeq); }
    }

    method ReceivePlain() returns (r: Option<Record>)
      modifies this`rxbuf, this`recq, this`conn, this`rxSeq
      ensures (r, View()) == RecvPlain(old(View()))
    {
      r := NextRecord();
      if r.None? { return; }
      rxSeq := Inc(rxSeq);
    }

    method ReceiveDecrypt(key: seq<byte>, iv: seq<byte>) returns (r: Option<Record>)
      requires |iv| == 12
      modifies this`rxbuf, this`recq, this`conn, this`rxSeq
      ensures (r, View()) == RecvSealed(c, old(View()), key, iv)
    {
      hide Next, DecryptRecord;
      r := NextRecord();
      if r.None? { return; }
      var pt := DecryptRecord(c, key, iv, rxSeq, r.value.contentType, r.value.payload);
      if pt.None? { return None; }
      rxSeq := Inc(rxSeq);
      r := Some(Record(r.value.contentType, pt.value));
    }

    /** The loop of recvServerFlight, from the first sealed message on. */
    method ReceiveSealedFlight(sec: seq<byte>) returns (ok: bool)
      requires Lawful(c) && |hs.serverIV| == 12
      modifies this`rxbuf, this`recq, this`conn, this`rxSeq, this`transcript,
               this`hCertV, this`hFinal, this`nstEntries, this`app
      ensures (ok, View()) == Flight(c, old(View()), sec)
    {
      hide Flight, Next, Remaining, DecryptRecord, RecvSealed, SplitHandshake, ParseFinished, FinishedVerifyData,
           DeriveAppKeys, DeriveMaster, ParseNewSessionTicket;
      ghost var goal := Flight(c, View(), sec);
      while true
        invariant |hs.serverIV| == 12 && hs == old(hs)
        invariant Flight(c, View(), sec) == goal
        decreases |Remaining(View().input)|
      {
        FlightTurn(c, View(), sec);
        StepShrinks(c, View(), hs.serverKey, hs.serverIV);
        var r := ReceiveDecrypt(hs.serverKey, hs.serverIV);
        if r.None? { return false; }
        var pt := r.value.payload;
        var m := SplitHandshake(pt);
        if m.None? { return false; }
        if m.value.msgType == FINISHED {
          var h := c.sha256(transcript);
          hFinal := Some(h);
          app := DeriveAppKeys(c, DeriveMaster(c, sec, h), h);
          var got := ParseFinished(m.value.body);
          if got.None? { return false; }
          if got.value != FinishedVerifyData(c, sec, false, h) { return false; }
          transcript := transcript + pt;
          return true;
        }
        transcript := transcript + pt;
        if m.value.msgType == CERT_VERIFY {
          hCertV := Some(c.sha256(transcript));
        } else if m.value.msgType == NEW_SESSION_TICKET {
          nstEntries := ParseNewSessionTicket(m.value.body);
        }
      }
    }

    method ReceiveServerFlight(g1Priv: seq<byte>) returns (ok: bool)
      requires Valid()
      modifies this`rxbuf, this`recq, this`conn, this`rxSeq, this`transcript, this`secret, this`hs,
               this`hCertV, this`hFinal, this`nstEntries, this`app
      ensures Valid()
      ensures (ok, View()) == RecvServerFlight(c, old(View()), g1Priv)
    {
      hide Next, SplitHandshake, ParseServerHello, Flight, MmtlsSecret, Remaining;
      RecvFlightKeepsConsistent(c, View(), g1Priv);
      var r := ReceivePlain();
      if r.None? { return false; }
      var payload := r.value.payload;
      var m := SplitHandshake(payload);
      if m.None? || m.value.msgType != SERVER_HELLO { return false; }
      transcript := transcript + payload;
      var sh := ParseServerHello(m.value.body);
      if sh.None? { return false; }
      if sh.value.group != GROUP_P256 { return false; }
      var shared := MmtlsSecret(c, g1Priv, sh.value.pubKey);
      if shared.None? { return false; }
      secret := shared;
      hs := DeriveHandshakeKeys(c, shared.value, c.sha256(transcript));
      ok := ReceiveSealedFlight(shared.value);
    }

    method SendFinished() returns (ok: bool)
      requires Valid()
      modifies this`sent, this`writes, this`txSeq
      ensures Valid()
      ensures (ok, View()) == SendClientFinished(c, old(View()))
    {
      hide EncryptRecord, FinishedVerifyData;
      if hFinal.None? { return false; }
      var msg := BuildFinished(FinishedVerifyData(c, secret.value, true, hFinal.value));
      if msg.None? { return false; }
      ok := SendEncrypted(HANDSHAKE, msg.value, hs.clientKey, hs.clientIV);
    }

    method Handshake(d: Draw) returns (ok: bool)
      requires Valid() && ValidDraw(d)
      modifies this
      ensures Valid()
      ensures (ok, View()) == DoHandshake(c, old(View()), d)
    {
      hide RecvServerFlight, SendClientFinished, HelloOf, RecordBytes;
      ghost var s := View();
      var ch := HelloOf(c, d);
      transcript := transcript + ch;
      ok := SendPlain(HANDSHAKE, ch);
      if !ok { return; }
      ok := ReceiveServerFlight(d.g1);
      if !ok { return; }
      ok := SendFinished();
    }

    /** extractPSKs at time now; None is its error. */
    method ExtractPSKs(now: int) returns (r: Option<seq<PskEntry>>)
      requires Lawful(c)
      ensures r.Some? <==> secret.Some? && hCertV.Some?
      ensures r.Some? ==> |r.value| == |nstEntries|
      ensures r.Some? ==> forall i :: 0 <= i < |nstEntries| ==>
                            r.value[i] == PskOf(c, secret.value, hCertV.value, nstEntries[i], now)
    {
      hide PskOf;
      if secret.None? || hCertV.None? { return None; }
      var out := [];
      for i := 0 to |nstEntries|
        invariant |out| == i
        invariant forall j :: 0 <= j < i ==> out[j] == PskOf(c, secret.value, hCertV.value, nstEntries[j], now)
      {
        out := out + [PskOf(c, secret.value, hCertV.value, nstEntries[i], now)];
      }
      return Some(out);
    }
  }

  /** One turn of the loop over the sealed flight. */
  lemma FlightTurn(c: Primitives, s: Session, secret: seq<byte>)
    requires Lawful(c) && |s.hs.serverIV| == 12
    ensures var (r, t) := RecvSealed(c, s, s.hs.serverKey, s.hs.serverIV);
            var m := if r.Some? then SplitHandshake(r.value.payload) else None;
            Flight(c, s, secret) ==
              if m.None? then (false, t)
              else if m.value.msgType == FINISHED then Finish(c, t, secret, r.value.payload, m.value.body)
              else Flight(c, Absorb(c, t, r.value.payload, m.value), secret)
  {
    hide Next, Remaining, DecryptRecord, SplitHandshake, ParseFinished, FinishedVerifyData, DeriveAppKeys, DeriveMaster,
         ParseNewSessionTicket;
    NextTakesFirst(s.input);
  }

  /** Every record taken from the stream leaves fewer behind. */
  lemma StepShrinks(c: Primitives, s: Session, key: seq<byte>, iv: seq<byte>)
    requires |iv| == 12
    ensures RecvSealed(c, s, key, iv).0.Some? ==>
              |Remaining(RecvSealed(c, s, key, iv).1.input)| < |Remaining(s.input)|
  {
    hide Next, Remaining, DecryptRecord;
    NextTakesFirst(s.input);
  }

  predicate LiveAccess(e: PskEntry, now: int) {
    e.pskType == 1 && e.expiredAt > now
  }

  predicate IsFirst(entries: seq<PskEntry>, i: nat, e: PskEntry, now: int) {
    i < |entries| && entries[i] == e && forall j :: 0 <= j < i ==> !LiveAccess(entries[j], now)
  }

  /** pickAccessPSK returns the first access PSK that has not expired, if there is any. */
  method PickAccessPSK(entries: seq<PskEntry>, now: int) returns (r: Option<PskEntry>)
    ensures r.None? <==> forall i :: 0 <= i < |entries| ==> !LiveAccess(entries[i], now)
    ensures r.Some? ==> LiveAccess(r.value, now)
    ensures r.Some? ==> exists i :: IsFirst(entries, i, r.value, now)
  {
    for i := 0 to |entries|
      invariant forall j :: 0 <= j < i ==> !LiveAccess(entries[j], now)
    {
      if entries[i].pskType == 1 && entries[i].expiredAt > now {
        assert IsFirst(entries, i, entries[i], now);
        return Some(entries[i]);
      }
    }
    return None;
  }
}

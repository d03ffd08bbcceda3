/** MMTLS record framing (internal/protocol/mmtls_protocol.go) and the record stream that
    nextRecord reassembles from socket reads (internal/protocol/mmtls_client.go). */
module Records {
  import opened Bytes

  const ALERT: byte := 0x15
  const HANDSHAKE: byte := 0x16
  const APP_DATA: byte := 0x17
  const PSK_HANDSHAKE: byte := 0x19
  const RECORD_VERSION: nat := 0xf103

  datatype Record = Record(contentType: byte, payload: seq<byte>)

  predicate KnownContentType(ct: byte) {
    ct == ALERT || ct == HANDSHAKE || ct == APP_DATA || ct == PSK_HANDSHAKE || ct == 0x14
  }

  /** A record that buildRecord accepts and parseRecords recognises. */
  predicate Sendable(r: Record) {
    KnownContentType(r.contentType) && |r.payload| <= 0xffff
  }

  function RecordBytes(r: Record): (s: seq<byte>)
    ensures |s| == 5 + |r.payload|
  {
    [r.contentType] + BE(RECORD_VERSION, 2) + BE(|r.payload|, 2) + r.payload
  }

  function StreamBytes(rs: seq<Record>): seq<byte> {
    if |rs| == 0 then [] else RecordBytes(rs[0]) + StreamBytes(rs[1..])
  }

  /** buildRecord fills the header of a fresh buffer in place; None is its error. */
  method BuildRecord(contentType: byte, payload: seq<byte>) returns (r: Option<seq<byte>>)
    ensures r == if |payload| > 0xffff then None else Some(RecordBytes(Record(contentType, payload)))
    ensures r.Some? ==> r.value[..3] == [contentType, 0xf1, 0x03]
    ensures r.Some? ==> r.value[3..5] == BE(|payload|, 2) && r.value[5..] == payload
  {
    if |payload| > 0xffff {
      return None;
    }
    hide BE;
    var out := new byte[5 + |payload|];
    out[0] := contentType;
    assert out[..1] == [contentType];
    PutBytes(out, 1, BE(RECORD_VERSION, 2));
    assert out[..3] == [contentType] + BE(RECORD_VERSION, 2);
    PutBytes(out, 3, BE(|payload|, 2));
    assert out[..5] == [contentType] + BE(RECORD_VERSION, 2) + BE(|payload|, 2);
    ghost var header := out[..5];
    PutBytes(out, 5, payload);
    assert out[..] == header + payload;
    return Some(out[..]);
  }

  // ---- Parsing ---------------------------------------------------------------------------

  datatype Front = NoFront | Front(record: Record, used: nat)

  /** The complete record at the front of data, if there is one. */
  function First(data: seq<byte>): (r: Front)
    ensures r.Front? ==> 5 <= r.used <= |data|
  {
    if |data| < 5 then NoFront
    else
      var ln := ReadBE(data[3..5]);
      if ReadBE(data[1..3]) != RECORD_VERSION || !KnownContentType(data[0]) || 5 + ln > |data| then NoFront
      else Front(Record(data[0], data[5..5 + ln]), 5 + ln)
  }

  datatype Parsed = Parsed(recs: seq<Record>, consumed: nat)

  function ParseAll(data: seq<byte>): (p: Parsed)
    ensures p.consumed <= |data|
    ensures p.recs == [] ==> p.consumed == 0
  {
    match First(data)
    case NoFront => Parsed([], 0)
    case Front(r, used) =>
      var p := ParseAll(data[used..]);
      Parsed([r] + p.recs, used + p.consumed)
  }

  /** One turn of the loop at offset off. */
  lemma ParseTurn(data: seq<byte>, off: nat)
    requires off + 5 <= |data|
    ensures var ln := ReadBE(data[off + 3..off + 5]);
            var end := off + 5 + ln;
            if ReadBE(data[off + 1..off + 3]) != RECORD_VERSION || !KnownContentType(data[off]) || end > |data|
            then ParseAll(data[off..]) == Parsed([], 0)
            else var later := ParseAll(data[end..]);
                 ParseAll(data[off..])
                 == Parsed([Record(data[off], data[off + 5..end])] + later.recs, 5 + ln + later.consumed)
  {
    hide ReadBE;
    var rest := data[off..];
    assert rest[1..3] == data[off + 1..off + 3] && rest[3..5] == data[off + 3..off + 5];
    var end := off + 5 + ReadBE(data[off + 3..off + 5]);
    if end <= |data| {
      assert rest[5..end - off] == data[off + 5..end] && rest[end - off..] == data[end..];
    }
  }

  lemma ParseEnds(data: seq<byte>)
    ensures data[0..] == data
    ensures |data| < 5 ==> ParseAll(data) == Parsed([], 0)
  {
  }

  method ParseRecords(data: seq<byte>) returns (recs: seq<Record>, off: nat)
    ensures Parsed(recs, off) == ParseAll(data)
  {
    hide ParseAll, ReadBE, KnownContentType;
    recs, off := [], 0;
    ParseEnds(data);
    while off + 5 <= |data|
      invariant off <= |data|
      invariant ParseAll(data).recs == recs + ParseAll(data[off..]).recs
      invariant ParseAll(data).consumed == off + ParseAll(data[off..]).consumed
    {
      ParseTurn(data, off);
      var ct := data[off];
      var ver := ReadBE(data[off + 1..off + 3]);
      var ln := ReadBE(data[off + 3..off + 5]);
      if ver != RECORD_VERSION || !KnownContentType(ct) {
        return;
      }
      var end := off + 5 + ln;
      if end > |data| {
        return;
      }
      recs := recs + [Record(ct, data[off + 5..end])];
      off := end;
    }
    ParseEnds(data[off..]);
  }

  lemma FirstOfRecord(r: Record, more: seq<byte>)
    requires Sendable(r)
    ensures First(RecordBytes(r) + more) == Front(r, 5 + |r.payload|)
  {
    hide BE, ReadBE;
    var head := [r.contentType] + BE(RECORD_VERSION, 2);
    var data := RecordBytes(r) + more;
    Pow256Values();
    ReadBack(RECORD_VERSION, 2);
    ReadBack(|r.payload|, 2);
    assert data[1..3] == BE(RECORD_VERSION, 2);
    assert data[3..5] == BE(|r.payload|, 2);
    assert data[5..5 + |r.payload|] == r.payload;
  }

  /** Parsing undoes building, whatever incomplete tail follows. */
  lemma {:induction false} ParseOfStream(rs: seq<Record>, more: seq<byte>)
    requires forall r :: r in rs ==> Sendable(r)
    ensures ParseAll(StreamBytes(rs) + more).recs == rs + ParseAll(more).recs
    ensures ParseAll(StreamBytes(rs) + more).consumed == |StreamBytes(rs)| + ParseAll(more).consumed
    decreases |rs|
  {
    hide First, RecordBytes;
    if |rs| == 0 {
      assert StreamBytes(rs) + more == more;
    } else {
      var front, rest := RecordBytes(rs[0]), StreamBytes(rs[1..]) + more;
      assert StreamBytes(rs) + more == front + rest;
      FirstOfRecord(rs[0], rest);
      assert (front + rest)[|front|..] == rest;
      ParseOfStream(rs[1..], more);
      assert rs == [rs[0]] + rs[1..];
      Assoc([rs[0]], rs[1..], ParseAll(more).recs);
    }
  }

  lemma FirstIsStable(a: seq<byte>, b: seq<byte>)
    requires First(a).Front?
    ensures First(a + b) == First(a)
  {
    hide ReadBE;
    assert (a + b)[1..3] == a[1..3] && (a + b)[3..5] == a[3..5];
    var used := First(a).used;
    assert (a + b)[5..used] == a[5..used];
  }

  /** Parsing early what has arrived loses nothing: the rest continues where it stopped. */
  lemma {:induction false} ParseInTwo(a: seq<byte>, b: seq<byte>)
    ensures var pa := ParseAll(a);
            var pb := ParseAll(a[pa.consumed..] + b);
            ParseAll(a + b) == Parsed(pa.recs + pb.recs, pa.consumed + pb.consumed)
    decreases |a|
  {
    hide First;
    match First(a)
    case NoFront =>
      assert a[0..] + b == a + b;
    case Front(r, used) =>
      FirstIsStable(a, b);
      assert (a + b)[used..] == a[used..] + b;
      ParseInTwo(a[used..], b);
      var p := ParseAll(a[used..]);
      assert a[used..][p.consumed..] == a[ParseAll(a).consumed..];
      Assoc([r], p.recs, ParseAll(a[ParseAll(a).consumed..] + b).recs);
  }

  // ---- The stream of records behind a connection -----------------------------------------

  /** One conn.Read: bytes (none of them means EOF), or an error. */
  datatype ReadEvent = Data(bytes: seq<byte>) | ReadError

  /** rxbuf, recq and the reads the connection will still deliver. */
  datatype Stream = Stream(rxbuf: seq<byte>, recq: seq<Record>, conn: seq<ReadEvent>)

  /** nextRecord as a function: None is its error. */
  function Next(s: Stream): (Option<Record>, Stream)
    decreases |s.conn|
  {
    if |s.recq| > 0 then (Some(s.recq[0]), s.(recq := s.recq[1..]))
    else
      var p := ParseAll(s.rxbuf);
      if |p.recs| > 0 then (Some(p.recs[0]), Stream(s.rxbuf[p.consumed..], p.recs[1..], s.conn))
      else if |s.conn| == 0 then (None, s)
      else match s.conn[0]
           case ReadError => (None, s.(conn := s.conn[1..]))
           case Data(b) =>
             if |b| == 0 then (None, s.(conn := s.conn[1..]))
             else Next(Stream(s.rxbuf + b, [], s.conn[1..]))
  }

  /** The bytes delivered before the first read that fails. */
  function Arriving(events: seq<ReadEvent>): seq<byte> {
    if |events| == 0 || events[0].ReadError? || |events[0].bytes| == 0 then []
    else events[0].bytes + Arriving(events[1..])
  }

  /** The records still to come. */
  function Remaining(s: Stream): seq<Record> {
    s.recq + ParseAll(s.rxbuf + Arriving(s.conn)).recs
  }

  predicate AllData(events: seq<ReadEvent>) {
    forall e :: e in events ==> e.Data? && |e.bytes| > 0
  }

  /** One call takes the first of the remaining records, and fails only when there is none. */
  lemma {:induction false} NextTakesFirst(s: Stream)
    ensures var (r, t) := Next(s);
            && (r.Some? <==> Remaining(s) != [])
            && (r.Some? ==> Remaining(s) == [r.value] + Remaining(t))
            && (AllData(s.conn) ==> AllData(t.conn) && (r.None? ==> Remaining(t) == []))
    decreases |s.conn|
  {
    hide ParseAll;
    var arriving := Arriving(s.conn);
    if |s.recq| > 0 {
      var rest := ParseAll(s.rxbuf + arriving).recs;
      assert s.recq == [s.recq[0]] + s.recq[1..];
      Assoc([s.recq[0]], s.recq[1..], rest);
    } else {
      var p := ParseAll(s.rxbuf);
      ParseInTwo(s.rxbuf, arriving);
      if |p.recs| > 0 {
        assert p.recs == [p.recs[0]] + p.recs[1..];
        Assoc([p.recs[0]], p.recs[1..], ParseAll(s.rxbuf[p.consumed..] + arriving).recs);
      } else if |s.conn| > 0 && s.conn[0].Data? && |s.conn[0].bytes| > 0 {
        var b := s.conn[0].bytes;
        Assoc(s.rxbuf, b, Arriving(s.conn[1..]));
        NextTakesFirst(Stream(s.rxbuf + b, [], s.conn[1..]));
      } else {
        assert s.rxbuf + arriving == s.rxbuf;
      }
    }
  }

  /** What the (n+1)-st successive call returns. */
  function NthNext(s: Stream, n: nat): Option<Record>
    decreases n
  {
    var (r, t) := Next(s);
    if n == 0 then r else NthNext(t, n - 1)
  }

  lemma {:induction false} NthIsRemaining(s: Stream, n: nat)
    requires AllData(s.conn)
    ensures NthNext(s, n) == if n < |Remaining(s)| then Some(Remaining(s)[n]) else None
    decreases n
  {
    hide Next, Remaining;
    NextTakesFirst(s);
    if n > 0 { NthIsRemaining(Next(s).1, n - 1); }
  }

  /** Chunking does not matter: successive calls yield the records one parse of the whole stream
      yields, in order, none lost or repeated, and then only errors. */
  lemma ChunkingIndependence(events: seq<ReadEvent>, n: nat)
    requires AllData(events)
    ensures var all := ParseAll(Arriving(events)).recs;
            NthNext(Stream([], [], events), n) == if n < |all| then Some(all[n]) else None
  {
    hide NthNext, ParseAll, Arriving;
    assert [] + Arriving(events) == Arriving(events);
    NthIsRemaining(Stream([], [], events), n);
  }

  /** In particular a stream of built records comes back as those records, however it is cut. */
  lemma ChunkedRecordsArrive(rs: seq<Record>, events: seq<ReadEvent>, n: nat)
    requires AllData(events) && Arriving(events) == StreamBytes(rs)
    requires forall r :: r in rs ==> Sendable(r)
    ensures NthNext(Stream([], [], events), n) == if n < |rs| then Some(rs[n]) else None
  {
    hide NthNext, ParseAll, Arriving, StreamBytes;
    ChunkingIndependence(events, n);
    ParseOfStream(rs, []);
    ParseEnds([]);
    assert StreamBytes(rs) + [] == StreamBytes(rs);
  }
}

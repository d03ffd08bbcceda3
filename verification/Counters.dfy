/** Runs of sends and the mirroring receiver: what the record counters guarantee
    (internal/protocol/mmtls_client.go, sendPlain, sendEncrypted, recvPlain, recvDecrypt). */
module Counters {
  import opened Bytes
  import opened Records
  import opened Crypto
  import opened Handshake

  /** One send: a plain record, or one sealed under a key and its IV. */
  datatype Op = Plain(content: Record) | Sealed(content: Record, key: seq<byte>, iv: seq<byte>)

  predicate WellFormed(op: Op) {
    KnownContentType(op.content.contentType) && (op.Sealed? ==> |op.iv| == 12)
  }

  function Send(c: Primitives, s: Session, op: Op): (bool, Session)
    requires WellFormed(op)
  {
    match op
    case Plain(r) => SendRecord(s, r.contentType, r.payload)
    case Sealed(r, key, iv) => SendSealed(c, s, r.contentType, r.payload, key, iv)
  }

  /** All of ops in order; false as soon as one fails. */
  function SendAll(c: Primitives, s: Session, ops: seq<Op>): (bool, Session)
    requires forall op :: op in ops ==> WellFormed(op)
    decreases |ops|
  {
    if |ops| == 0 then (true, s)
    else
      var (ok, t) := Send(c, s, ops[0]);
      if ok then SendAll(c, t, ops[1..]) else (false, t)
  }

  /** The record an op puts on the wire as number n of its sender. */
  function WireRecord(c: Primitives, op: Op, n: uint64): Option<Record>
    requires WellFormed(op)
  {
    match op
    case Plain(r) => Some(r)
    case Sealed(r, key, iv) =>
      match EncryptRecord(c, key, iv, n, r.contentType, r.payload)
      case None => None
      case Some(ct) => Some(Record(r.contentType, ct))
  }

  lemma SendWrites(c: Primitives, s: Session, op: Op)
    requires WellFormed(op) && Send(c, s, op).0
    ensures var t, r := Send(c, s, op).1, WireRecord(c, op, s.txSeq);
            && r.Some? && Sendable(r.value)
            && t == s.(writes := s.writes[1..], sent := s.sent + [RecordBytes(r.value)], txSeq := Inc(s.txSeq))
  {
    hide EncryptRecord, RecordBytes;
  }

  /** The bytes the receiver sees. */
  function Flatten(sent: seq<seq<byte>>): seq<byte> {
    if |sent| == 0 then [] else sent[0] + Flatten(sent[1..])
  }

  function WireRecords(c: Primitives, ops: seq<Op>, n: nat): seq<Record>
    requires n + |ops| <= TWO64 && forall op :: op in ops ==> WellFormed(op)
    decreases |ops|
  {
    if |ops| == 0 then []
    else match WireRecord(c, ops[0], n)
         case None => []
         case Some(r) => [r] + WireRecords(c, ops[1..], n + 1)
  }

  /** op went out as record number n: r is that record and `bytes` what was written. */
  predicate OnWire(c: Primitives, op: Op, n: uint64, r: Record, bytes: seq<byte>)
    requires WellFormed(op)
  {
    WireRecord(c, op, n) == Some(r) && Sendable(r) && bytes == RecordBytes(r)
  }

  /** The record whose payload is one GCM sealing under the op's key and this nonce. */
  function SealedBytes(c: Primitives, op: Op, nonce: seq<byte>, n: uint64): seq<byte>
    requires op.Sealed?
  {
    var r := op.content;
    RecordBytes(Record(r.contentType,
                       c.seal(op.key, nonce, r.payload, RecordAAD(n, r.contentType, |r.payload| + TAG_LEN))))
  }

  lemma SealedHasIv(op: Op)
    requires WellFormed(op) && op.Sealed?
    ensures |op.iv| == 12
  {
  }

  lemma WireIsSealed(c: Primitives, op: Op, n: uint64, r: Record, bytes: seq<byte>)
    requires WellFormed(op) && op.Sealed? && OnWire(c, op, n, r, bytes)
    ensures bytes == SealedBytes(c, op, Nonce(op.iv, n), n)
  {
    hide Nonce, RecordAAD, RecordBytes;
  }

  /** The k-th op went out as record rs[k], numbered from n, and as the k-th of the byte strings sent. */
  predicate AllOnWire(c: Primitives, ops: seq<Op>, n: nat, rs: seq<Record>, sent: seq<seq<byte>>)
    requires n + |ops| <= TWO64 && forall op :: op in ops ==> WellFormed(op)
  {
    && |rs| == |ops| == |sent|
    && forall k :: 0 <= k < |ops| ==> OnWire(c, ops[k], n + k, rs[k], sent[k])
  }

  lemma OneMoreOnWire(c: Primitives, op: Op, ops: seq<Op>, n: nat, r: Record, rs: seq<Record>, bytes: seq<byte>,
                      sent: seq<seq<byte>>)
    requires n + 1 + |ops| <= TWO64 && WellFormed(op) && forall o :: o in ops ==> WellFormed(o)
    requires OnWire(c, op, n, r, bytes) && AllOnWire(c, ops, n + 1, rs, sent)
    ensures AllOnWire(c, [op] + ops, n, [r] + rs, [bytes] + sent)
  {
    hide OnWire;
    forall k | 0 <= k < |ops| + 1 ensures OnWire(c, ([op] + ops)[k], n + k, ([r] + rs)[k], ([bytes] + sent)[k]) {
      if k > 0 { assert OnWire(c, ops[k - 1], n + 1 + (k - 1), rs[k - 1], sent[k - 1]); }
    }
  }

  lemma SendAllTurn(c: Primitives, s: Session, ops: seq<Op>)
    requires |ops| > 0 && forall op :: op in ops ==> WellFormed(op)
    requires s.txSeq + |ops| < TWO64 && SendAll(c, s, ops).0
    ensures var u, r := Send(c, s, ops[0]).1, WireRecord(c, ops[0], s.txSeq);
            && Send(c, s, ops[0]).0 && SendAll(c, s, ops) == SendAll(c, u, ops[1..])
            && (r.Some? ==> WireRecords(c, ops, s.txSeq) == [r.value] + WireRecords(c, ops[1..], s.txSeq + 1))
  {
    hide Send, WireRecord, WellFormed;
  }

  /** What is sent after the first byte string, cut off at either place. */
  lemma SentSplit<T>(before: seq<T>, b: T, after: seq<T>)
    requires |before| + 1 <= |after| && after[..|before| + 1] == before + [b]
    ensures after[..|before|] == before && after[|before|..] == [b] + after[|before| + 1..]
  {
    assert after[|before|] == after[..|before| + 1][|before|];
    assert after[..|before|] == after[..|before| + 1][..|before|];
  }

  lemma StreamCons(r: Record, rs: seq<Record>)
    ensures StreamBytes([r] + rs) == RecordBytes(r) + StreamBytes(rs)
  {
    assert ([r] + rs)[1..] == rs;
  }

  lemma FlattenCons(b: seq<byte>, sent: seq<seq<byte>>)
    ensures Flatten([b] + sent) == b + Flatten(sent)
  {
    assert ([b] + sent)[1..] == sent;
  }

  /** After n successful sends the counter has moved by n, and the k-th record went out as number
      txSeq + k. */
  lemma {:induction false} RunOnWire(c: Primitives, s: Session, ops: seq<Op>)
    requires forall op :: op in ops ==> WellFormed(op)
    requires s.txSeq + |ops| < TWO64 && SendAll(c, s, ops).0
    ensures var t, rs := SendAll(c, s, ops).1, WireRecords(c, ops, s.txSeq);
            && t.txSeq == s.txSeq + |ops|
            && |t.sent| == |s.sent| + |ops| && t.sent[..|s.sent|] == s.sent
            && AllOnWire(c, ops, s.txSeq, rs, t.sent[|s.sent|..])
            && Flatten(t.sent[|s.sent|..]) == StreamBytes(rs)
    decreases |ops|
  {
    hide Send, WireRecord, RecordBytes, WellFormed;
    if |ops| > 0 {
      hide SendAll, WireRecords, AllOnWire, Flatten, StreamBytes;
      SendAllTurn(c, s, ops);
      SendWrites(c, s, ops[0]);
      var u, r, later := Send(c, s, ops[0]).1, WireRecord(c, ops[0], s.txSeq).value, ops[1..];
      RunOnWire(c, u, later);
      var t, rs := SendAll(c, u, later).1, WireRecords(c, later, u.txSeq);
      var b, rest := RecordBytes(r), t.sent[|u.sent|..];
      SentSplit(s.sent, b, t.sent);
      assert OnWire(c, ops[0], s.txSeq, r, b);
      OneMoreOnWire(c, ops[0], later, s.txSeq, r, rs, b, rest);
      assert ops == [ops[0]] + later;
      StreamCons(r, rs);
      FlattenCons(b, rest);
    }
  }

  /** Over any run of successful sends in which each key keeps its IV, the sealed records on the wire
      never use one (key, nonce) pair twice. */
  lemma NoncesNeverRepeat(c: Primitives, s: Session, ops: seq<Op>, i: nat, j: nat)
    requires forall op :: op in ops ==> WellFormed(op)
    requires s.txSeq + |ops| < TWO64 && SendAll(c, s, ops).0
    requires i < j < |ops| && ops[i].Sealed? && ops[j].Sealed?
    requires ops[i].key == ops[j].key ==> ops[i].iv == ops[j].iv
    ensures var sent, m, n := SendAll(c, s, ops).1.sent, s.txSeq + i, s.txSeq + j;
            && |sent| == |s.sent| + |ops| && |ops[i].iv| == |ops[j].iv| == 12
            && sent[|s.sent| + i] == SealedBytes(c, ops[i], Nonce(ops[i].iv, m), m)
            && sent[|s.sent| + j] == SealedBytes(c, ops[j], Nonce(ops[j].iv, n), n)
            && (ops[i].key, Nonce(ops[i].iv, m)) != (ops[j].key, Nonce(ops[j].iv, n))
  {
    hide WireRecord, RecordBytes, Nonce, SendAll, SealedBytes, StreamBytes, Flatten, WireRecords, WellFormed;
    RunOnWire(c, s, ops);
    var m, n, rs := s.txSeq + i, s.txSeq + j, WireRecords(c, ops, s.txSeq);
    var sent := SendAll(c, s, ops).1.sent[|s.sent|..];
    assert OnWire(c, ops[i], m, rs[i], sent[i]) && OnWire(c, ops[j], n, rs[j], sent[j]);
    assert ops[i] in ops && ops[j] in ops;
    SealedHasIv(ops[i]);
    SealedHasIv(ops[j]);
    WireIsSealed(c, ops[i], m, rs[i], sent[i]);
    WireIsSealed(c, ops[j], n, rs[j], sent[j]);
    if ops[i].key == ops[j].key && Nonce(ops[i].iv, m) == Nonce(ops[j].iv, n) {
      NonceInjective(ops[i].iv, m, n);
    }
  }

  // ---- The mirroring receiver ------------------------------------------------------------

  function Receive(c: Primitives, s: Session, op: Op): (Option<Record>, Session)
    requires WellFormed(op)
  {
    if op.Plain? then RecvPlain(s) else RecvSealed(c, s, op.key, op.iv)
  }

  /** Neither counter moves on a failure, and a failed send leaves nothing on the wire. */
  lemma FailuresDoNotCount(c: Primitives, s: Session, op: Op)
    requires WellFormed(op)
    ensures var (ok, t) := Send(c, s, op); !ok ==> t.txSeq == s.txSeq && t.sent == s.sent
    ensures var (r, t) := Receive(c, s, op); r.None? ==> t.rxSeq == s.rxSeq
    ensures op.Plain? && |op.content.payload| > 0xffff ==> !Send(c, s, op).0
  {
    hide EncryptRecord, DecryptRecord, RecordBytes, Next;
  }

  /** What the receiver gets for each of the sender's ops, with the same keys. */
  function ReceiveAll(c: Primitives, s: Session, ops: seq<Op>): seq<Option<Record>>
    requires forall op :: op in ops ==> WellFormed(op)
    decreases |ops|
  {
    if |ops| == 0 then []
    else
      var (r, t) := Receive(c, s, ops[0]);
      [r] + ReceiveAll(c, t, ops[1..])
  }

  lemma ReceiveOne(c: Primitives, s: Session, op: Op, later: seq<Record>)
    requires Lawful(c) && WellFormed(op) && s.rxSeq + 1 < TWO64 && WireRecord(c, op, s.rxSeq).Some?
    requires Remaining(s.input) == [WireRecord(c, op, s.rxSeq).value] + later
    ensures var (r, t) := Receive(c, s, op);
            && r == Some(op.content)
            && t.rxSeq == s.rxSeq + 1 && Remaining(t.input) == later
  {
    hide Next, Remaining, EncryptRecord, DecryptRecord;
    NextTakesFirst(s.input);
    var w := WireRecord(c, op, s.rxSeq).value;
    assert Remaining(s.input)[0] == w && Remaining(s.input)[1..] == later;
    var t := Next(s.input).1;
    assert ([Next(s.input).0.value] + Remaining(t))[1..] == Remaining(t);
    if op.Sealed? {
      assert AesKey(op.key) by { KeyWasGood(c, op, s.rxSeq); }
      RecordOpens(c, op.key, op.iv, s.rxSeq, op.content.contentType, op.content.payload);
    }
  }

  lemma KeyWasGood(c: Primitives, op: Op, n: uint64)
    requires WellFormed(op) && op.Sealed? && WireRecord(c, op, n).Some?
    ensures AesKey(op.key)
  {
  }

  lemma {:induction false} ReceiveRun(c: Primitives, s: Session, ops: seq<Op>, later: seq<Record>)
    requires Lawful(c) && forall op :: op in ops ==> WellFormed(op)
    requires s.rxSeq + |ops| < TWO64
    requires |WireRecords(c, ops, s.rxSeq)| == |ops|
    requires Remaining(s.input) == WireRecords(c, ops, s.rxSeq) + later
    ensures |ReceiveAll(c, s, ops)| == |ops|
    ensures forall k :: 0 <= k < |ops| ==> ReceiveAll(c, s, ops)[k] == Some(ops[k].content)
    decreases |ops|
  {
    hide WireRecord, Receive, Remaining;
    if |ops| > 0 {
      var w := WireRecord(c, ops[0], s.rxSeq);
      var rest := WireRecords(c, ops[1..], s.rxSeq + 1);
      Assoc([w.value], rest, later);
      ReceiveOne(c, s, ops[0], rest + later);
      var t := Receive(c, s, ops[0]).1;
      ReceiveRun(c, t, ops[1..], later);
      forall k | 0 <= k < |ops| ensures ReceiveAll(c, s, ops)[k] == Some(ops[k].content) {
        if k > 0 { assert ops[k] == ops[1..][k - 1]; }
      }
    }
  }

  /** A receiver whose counter equals the sender's, with the same keys, gets every record of a
      successful run back, however the bytes were cut on the way. */
  lemma MirrorReceivesRun(c: Primitives, s: Session, ops: seq<Op>, conn: seq<ReadEvent>, writes: seq<bool>,
                          extra: seq<byte>, k: nat)
    requires Lawful(c) && forall op :: op in ops ==> WellFormed(op)
    requires s.txSeq + |ops| < TWO64 && SendAll(c, s, ops).0 && k < |ops|
    requires s.sent == [] && Arriving(conn) == Flatten(SendAll(c, s, ops).1.sent) + extra
    ensures var r := ReceiveAll(c, Fresh(conn, writes).(rxSeq := s.txSeq), ops);
            |r| == |ops| && r[k] == Some(ops[k].content)
  {
    hide WireRecords, ReceiveAll, SendAll, ParseAll, Arriving, StreamBytes, Flatten;
    RunOnWire(c, s, ops);
    var rs := WireRecords(c, ops, s.txSeq);
    assert SendAll(c, s, ops).1.sent[0..] == SendAll(c, s, ops).1.sent;
    forall r | r in rs ensures Sendable(r) {
      var i :| 0 <= i < |rs| && rs[i] == r;
      assert OnWire(c, ops[i], s.txSeq + i, rs[i], SendAll(c, s, ops).1.sent[|s.sent|..][i]);
    }
    ParseOfStream(rs, extra);
    assert [] + Arriving(conn) == Arriving(conn);
    ReceiveRun(c, Fresh(conn, writes).(rxSeq := s.txSeq), ops, ParseAll(extra).recs);
  }
}

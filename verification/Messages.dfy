/** Handshake messages and shortlink packets: internal/protocol/mmtls_protocol.go. */
module Messages {
  import opened Bytes

  const SERVER_HELLO: byte := 0x02
  const NEW_SESSION_TICKET: byte := 0x04
  const CERT_VERIFY: byte := 0x0f
  const FINISHED: byte := 0x14
  const EXT_KEY_SHARE: byte := 0x01
  const GROUP_P256: nat := 1
  const SHORTLINK_MAGIC: nat := 0x1110
  const DEFAULT_VER: nat := 0x076d

  // ---- Handshake framing -----------------------------------------------------------------

  datatype Message = Message(msgType: byte, body: seq<byte>)

  function HandshakeBytes(msgType: byte, body: seq<byte>): (r: seq<byte>)
    ensures |r| == 5 + |body|
  {
    BE(1 + |body|, 4) + [msgType] + body
  }

  method BuildHandshake(msgType: byte, body: seq<byte>) returns (r: seq<byte>)
    ensures r == HandshakeBytes(msgType, body)
    ensures r[..4] == BE(1 + |body|, 4) && r[4] == msgType && r[5..] == body
  {
    hide BE;
    var total := 1 + |body|;
    var out := new byte[4 + total];
    PutBytes(out, 0, BE(total, 4));
    assert out[..4] == BE(total, 4);
    out[4] := msgType;
    assert out[..5] == BE(total, 4) + [msgType];
    ghost var header := out[..5];
    PutBytes(out, 5, body);
    assert out[..] == header + body;
    return out[..];
  }

  function SplitHandshake(payload: seq<byte>): Option<Message> {
    if |payload| < 5 then None
    else
      var total := ReadBE(payload[..4]);
      if total <= 0 || 4 + total > |payload| then None
      else Some(Message(payload[4], payload[5..4 + total]))
  }

  lemma SplitUndoesBuild(msgType: byte, body: seq<byte>, more: seq<byte>)
    requires 1 + |body| < 0x1_0000_0000
    ensures SplitHandshake(HandshakeBytes(msgType, body) + more) == Some(Message(msgType, body))
  {
    hide BE, ReadBE;
    var payload := HandshakeBytes(msgType, body) + more;
    Pow256Values();
    ReadBack(1 + |body|, 4);
    assert payload[..4] == BE(1 + |body|, 4);
    assert payload[5..5 + |body|] == body;
  }

  // ---- ServerHello -----------------------------------------------------------------------

  datatype ServerHello = ServerHello(random: seq<byte>, cipher: nat, group: nat, pubKey: seq<byte>)

  /** The uncompressed P-256 points found by scanning for 00 41 04. */
  function ExtractKeyShares(blob: seq<byte>): seq<seq<byte>> {
    if |blob| < 67 then []
    else if blob[0] == 0x00 && blob[1] == 0x41 && blob[2] == 0x04
      then [blob[2..67]] + ExtractKeyShares(blob[67..])
    else ExtractKeyShares(blob[1..])
  }

  method ExtractKeyShareLoop(blob: seq<byte>) returns (keys: seq<seq<byte>>)
    ensures keys == ExtractKeyShares(blob)
  {
    keys := [];
    var i := 0;
    assert blob[0..] == blob;
    while i + 67 <= |blob|
      invariant 0 <= i <= |blob|
      invariant keys + ExtractKeyShares(blob[i..]) == ExtractKeyShares(blob)
    {
      ghost var rest := blob[i..];
      assert rest[1..] == blob[i + 1..] && rest[67..] == blob[i + 67..];
      if blob[i] == 0x00 && blob[i + 1] == 0x41 && blob[i + 2] == 0x04 {
        assert rest[2..67] == blob[i + 2..i + 2 + 65];
        keys := keys + [blob[i + 2..i + 2 + 65]];
        i := i + 67;
      } else {
        i := i + 1;
      }
    }
  }

  function ParseKeyShare(random: seq<byte>, cipher: nat, ext: seq<byte>): Option<ServerHello> {
    if |ext| < 13 then None
    else
      var klen := ReadBE(ext[11..13]);
      if 13 + klen > |ext| then None
      else Some(ServerHello(random, cipher, ReadBE(ext[7..11]), ext[13..13 + klen]))
  }

  function ParseServerHello(body: seq<byte>): Option<ServerHello> {
    if |body| < 40 then None
    else
      var cipher, random, extLen := ReadBE(body[2..4]), body[4..36], ReadBE(body[36..40]);
      if 40 + extLen > |body| then None
      else
        var ext := body[40..40 + extLen];
        if |ext| > 0 && ext[0] == EXT_KEY_SHARE then ParseKeyShare(random, cipher, ext)
        else
          var keys := ExtractKeyShares(ext);
          Some(ServerHello(random, cipher, GROUP_P256, if |keys| > 0 then keys[0] else []))
  }

  /** A ServerHello carrying one key share, as a server would write it. */
  function ServerHelloBody(version: seq<byte>, cipher: nat, random: seq<byte>, lead: seq<byte>, group: nat,
                           pub: seq<byte>): seq<byte>
  {
    var ext := [EXT_KEY_SHARE] + lead + BE(group, 4) + BE(|pub|, 2) + pub;
    version + BE(cipher, 2) + random + BE(|ext|, 4) + ext
  }

  lemma ServerHelloReadsBack(version: seq<byte>, cipher: nat, random: seq<byte>, lead: seq<byte>, group: nat,
                             pub: seq<byte>)
    requires |version| == 2 && |random| == 32 && |lead| == 6
    requires cipher < 0x1_0000 && group < 0x1_0000_0000 && |pub| < 0x1_0000
    ensures ParseServerHello(ServerHelloBody(version, cipher, random, lead, group, pub))
         == Some(ServerHello(random, cipher, group, pub))
  {
    hide BE, ReadBE, ExtractKeyShares;
    var ext := [EXT_KEY_SHARE] + lead + BE(group, 4) + BE(|pub|, 2) + pub;
    var body := ServerHelloBody(version, cipher, random, lead, group, pub);
    Pow256Values();
    ReadBack(cipher, 2);
    ReadBack(group, 4);
    ReadBack(|pub|, 2);
    ReadBack(|ext|, 4);
    assert body[2..4] == BE(cipher, 2) && body[4..36] == random;
    assert body[36..40] == BE(|ext|, 4) && body[40..40 + |ext|] == ext;
    KeyShareReadsBack(random, cipher, lead, group, pub);
  }

  lemma KeyShareReadsBack(random: seq<byte>, cipher: nat, lead: seq<byte>, group: nat, pub: seq<byte>)
    requires |lead| == 6 && group < 0x1_0000_0000 && |pub| < 0x1_0000
    ensures var ext := [EXT_KEY_SHARE] + lead + BE(group, 4) + BE(|pub|, 2) + pub;
            ParseKeyShare(random, cipher, ext) == Some(ServerHello(random, cipher, group, pub))
  {
    hide BE, ReadBE;
    var ext := [EXT_KEY_SHARE] + lead + BE(group, 4) + BE(|pub|, 2) + pub;
    Pow256Values();
    ReadBack(group, 4);
    ReadBack(|pub|, 2);
    assert ext[7..11] == BE(group, 4) && ext[11..13] == BE(|pub|, 2) && ext[13..13 + |pub|] == pub;
  }

  // ---- Finished --------------------------------------------------------------------------

  function FinishedBody(verifyData: seq<byte>): seq<byte> {
    BE(|verifyData|, 2) + verifyData
  }

  /** buildFinished; None is its error. */
  function BuildFinished(verifyData: seq<byte>): Option<seq<byte>> {
    if |verifyData| != 32 then None else Some(HandshakeBytes(FINISHED, FinishedBody(verifyData)))
  }

  function ParseFinished(body: seq<byte>): Option<seq<byte>> {
    if |body| < 2 then None
    else
      var n := ReadBE(body[..2]);
      if 2 + n > |body| then None else Some(body[2..2 + n])
  }

  lemma FinishedReadsBack(verifyData: seq<byte>)
    requires |verifyData| == 32
    ensures BuildFinished(verifyData).Some?
    ensures SplitHandshake(BuildFinished(verifyData).value) == Some(Message(FINISHED, FinishedBody(verifyData)))
    ensures ParseFinished(FinishedBody(verifyData)) == Some(verifyData)
  {
    hide BE, ReadBE, SplitHandshake, HandshakeBytes;
    Pow256Values();
    ReadBack(32, 2);
    var body := FinishedBody(verifyData);
    assert body[..2] == BE(32, 2) && body[2..34] == verifyData;
    SplitUndoesBuild(FINISHED, body, []);
    assert HandshakeBytes(FINISHED, body) + [] == HandshakeBytes(FINISHED, body);
  }

  // ---- NewSessionTicket ------------------------------------------------------------------

  datatype Ticket = Ticket(pskType: int, lifetime: int, entry: seq<byte>)

  function TicketOf(entry: seq<byte>): Ticket
    requires |entry| >= 5
  {
    Ticket(entry[0], ReadBE(entry[1..5]), entry)
  }

  function TicketsFrom(rest: seq<byte>, left: nat): seq<Ticket>
    decreases left
  {
    if left == 0 || |rest| < 4 then []
    else
      var elen := ReadBE(rest[..4]);
      if 4 + elen > |rest| || elen < 5 then []
      else [TicketOf(rest[4..4 + elen])] + TicketsFrom(rest[4 + elen..], left - 1)
  }

  function ParseNewSessionTicket(body: seq<byte>): seq<Ticket> {
    if |body| == 0 then [] else TicketsFrom(body[1..], body[0])
  }

  method ParseNewSessionTicketLoop(body: seq<byte>) returns (out: seq<Ticket>)
    ensures out == ParseNewSessionTicket(body)
  {
    hide ReadBE, TicketOf;
    if |body| == 0 { return []; }
    var count := body[0];
    var o := 1;
    out := [];
    var i := 0;
    while i < count && o + 4 <= |body|
      invariant 0 <= i <= count && 1 <= o <= |body|
      invariant out + TicketsFrom(body[o..], count - i) == TicketsFrom(body[1..], count)
      decreases count - i
    {
      ghost var rest := body[o..];
      var elen := ReadBE(body[o..o + 4]);
      assert rest[..4] == body[o..o + 4];
      o := o + 4;
      if o + elen > |body| || elen < 5 { break; }
      var entry := body[o..o + elen];
      assert rest[4..4 + elen] == entry && rest[4 + elen..] == body[o + elen..];
      o := o + elen;
      Assoc(out, [TicketOf(entry)], TicketsFrom(body[o..], count - i - 1));
      out := out + [TicketOf(entry)];
      i := i + 1;
    }
  }

  function TicketBytes(entries: seq<seq<byte>>): seq<byte> {
    if |entries| == 0 then [] else BE(|entries[0]|, 4) + entries[0] + TicketBytes(entries[1..])
  }

  function TicketsOf(entries: seq<seq<byte>>): seq<Ticket>
    requires forall e :: e in entries ==> |e| >= 5
  {
    if |entries| == 0 then [] else [TicketOf(entries[0])] + TicketsOf(entries[1..])
  }

  lemma {:induction false} TicketsReadBack(entries: seq<seq<byte>>)
    requires forall e :: e in entries ==> 5 <= |e| < 0x1_0000_0000
    ensures TicketsFrom(TicketBytes(entries), |entries|) == TicketsOf(entries)
    decreases |entries|
  {
    hide BE, ReadBE, TicketOf;
    if |entries| > 0 {
      var e, more := entries[0], TicketBytes(entries[1..]);
      var rest := BE(|e|, 4) + e + more;
      Pow256Values();
      ReadBack(|e|, 4);
      assert rest[..4] == BE(|e|, 4);
      Seams(BE(|e|, 4), e, more);
      TicketsReadBack(entries[1..]);
    }
  }

  function Word(a: int, b: int, c: int, d: int): int {
    a * 0x100_0000 + b * 0x1_0000 + c * 0x100 + d
  }

  /** An entry's ticket: its type in the first byte, its lifetime in the next four, and all of it kept. */
  predicate ReadsAs(entry: seq<byte>, t: Ticket)
    requires |entry| >= 5
  {
    && t.pskType == entry[0] && t.entry == entry
    && t.lifetime == Word(entry[1], entry[2], entry[3], entry[4])
  }

  lemma {:induction false} TicketsOfAt(entries: seq<seq<byte>>, i: nat)
    requires forall e :: e in entries ==> |e| >= 5
    requires i < |entries|
    ensures |TicketsOf(entries)| == |entries| && ReadsAs(entries[i], TicketsOf(entries)[i])
    decreases |entries|
  {
    if i > 0 {
      TicketsOfAt(entries[1..], i - 1);
    } else {
      TicketsOfLength(entries);
      FourBytes(entries[0][1..5]);
    }
  }

  lemma {:induction false} TicketsOfLength(entries: seq<seq<byte>>)
    requires forall e :: e in entries ==> |e| >= 5
    ensures |TicketsOf(entries)| == |entries|
  {
    if |entries| > 0 { TicketsOfLength(entries[1..]); }
  }

  lemma FourBytes(s: seq<byte>)
    requires |s| == 4
    ensures ReadBE(s) == Word(s[0], s[1], s[2], s[3])
  {
    assert s[..3][..2] == s[..2] && s[..2][..1] == s[..1] && s[..1][..0] == [];
    assert ReadBE(s[..0]) == 0;
    assert ReadBE(s[..1]) == s[0];
    assert ReadBE(s[..2]) == 256 * ReadBE(s[..1]) + s[1];
    assert ReadBE(s[..3]) == 256 * ReadBE(s[..2]) + s[2];
  }

  /** A ticket message of at most 255 entries parses to exactly those entries. */
  lemma NewSessionTicketReadsBack(entries: seq<seq<byte>>)
    requires |entries| <= 255 && forall e :: e in entries ==> 5 <= |e| < 0x1_0000_0000
    ensures ParseNewSessionTicket([|entries|] + TicketBytes(entries)) == TicketsOf(entries)
    ensures |TicketsOf(entries)| == |entries|
    ensures forall i :: 0 <= i < |entries| ==> ReadsAs(entries[i], TicketsOf(entries)[i])
  {
    forall i | 0 <= i < |entries|
      ensures |TicketsOf(entries)| == |entries| && ReadsAs(entries[i], TicketsOf(entries)[i])
    {
      TicketsOfAt(entries, i);
    }
    hide TicketsFrom, TicketsOf, TicketBytes;
    assert ([|entries|] + TicketBytes(entries))[1..] == TicketBytes(entries);
    TicketsReadBack(entries);
  }

  // ---- Shortlink packets -----------------------------------------------------------------

  datatype Packet = Packet(totalLen: nat, magic: nat, ver: nat, cmd: nat, seqNo: nat, body: seq<byte>)

  function ShortlinkBytes(cmd: nat, seqNo: nat, body: seq<byte>, ver: nat): (r: seq<byte>)
    ensures |r| == 16 + |body|
  {
    BE(16 + |body|, 4) + BE(SHORTLINK_MAGIC, 2) + BE(if ver == 0 then DEFAULT_VER else ver, 2)
    + BE(cmd, 4) + BE(seqNo, 4) + body
  }

  method BuildShortlink(cmd: nat, seqNo: nat, body: seq<byte>, version: nat) returns (r: seq<byte>)
    ensures r == ShortlinkBytes(cmd, seqNo, body, version)
    ensures r[..4] == BE(16 + |body|, 4) && r[4..6] == BE(0x1110, 2)
    ensures r[6..8] == BE(if version == 0 then 0x076d else version, 2)
    ensures r[8..12] == BE(cmd, 4) && r[12..16] == BE(seqNo, 4) && r[16..] == body
  {
    hide BE;
    var ver := if version == 0 then DEFAULT_VER else version;
    var total := 16 + |body|;
    var out := new byte[total];
    PutBytes(out, 0, BE(total, 4));
    assert out[..4] == BE(total, 4);
    PutBytes(out, 4, BE(SHORTLINK_MAGIC, 2));
    assert out[..6] == BE(total, 4) + BE(SHORTLINK_MAGIC, 2);
    PutBytes(out, 6, BE(ver, 2));
    ghost var eight := BE(total, 4) + BE(SHORTLINK_MAGIC, 2) + BE(ver, 2);
    assert out[..8] == eight;
    PutBytes(out, 8, BE(cmd, 4));
    assert out[..12] == eight + BE(cmd, 4);
    PutBytes(out, 12, BE(seqNo, 4));
    assert out[..16] == eight + BE(cmd, 4) + BE(seqNo, 4);
    ghost var header := out[..16];
    PutBytes(out, 16, body);
    assert out[..] == header + body;
    return out[..];
  }

  /** A stated total below 16 makes the slice pkt[16:total] panic. */
  function ParseShortlink(pkt: seq<byte>): Parse<Packet> {
    if |pkt| < 16 then Bad
    else
      var total := ReadBE(pkt[..4]);
      if total > |pkt| then Bad
      else if total < 16 then Panic
      else Good(Packet(total, ReadBE(pkt[4..6]), ReadBE(pkt[6..8]), ReadBE(pkt[8..12]), ReadBE(pkt[12..16]),
                       pkt[16..total]))
  }

  lemma ShortlinkReadsBack(cmd: nat, seqNo: nat, body: seq<byte>, ver: nat, more: seq<byte>)
    requires 16 + |body| < 0x1_0000_0000 && cmd < 0x1_0000_0000 && seqNo < 0x1_0000_0000 && ver < 0x1_0000
    ensures ParseShortlink(ShortlinkBytes(cmd, seqNo, body, ver) + more)
         == Good(Packet(16 + |body|, SHORTLINK_MAGIC, if ver == 0 then DEFAULT_VER else ver, cmd, seqNo, body))
  {
    hide BE, ReadBE;
    var pkt := ShortlinkBytes(cmd, seqNo, body, ver) + more;
    var ver' := if ver == 0 then DEFAULT_VER else ver;
    Pow256Values();
    ReadBack(16 + |body|, 4);
    ReadBack(SHORTLINK_MAGIC, 2);
    ReadBack(ver', 2);
    ReadBack(cmd, 4);
    ReadBack(seqNo, 4);
    assert pkt[..4] == BE(16 + |body|, 4) && pkt[4..6] == BE(SHORTLINK_MAGIC, 2) && pkt[6..8] == BE(ver', 2);
    assert pkt[8..12] == BE(cmd, 4) && pkt[12..16] == BE(seqNo, 4);
    assert pkt[16..16 + |body|] == body;
  }
}

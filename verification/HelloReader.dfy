/** A server's reading of the two ClientHello messages of internal/protocol/mmtls_protocol.go, written
    from their layout and not from the code that builds them. */
module HelloReader {
  import opened Bytes
  import opened Messages

  /** A key the client offers for a group. */
  datatype Offer = Offer(group: nat, pub: seq<byte>)

  /** The fixed part of a ClientHello and the data of its one extension. */
  datatype Hello = Hello(cipher: nat, random: seq<byte>, timestamp: nat, extension: seq<byte>)

  function ReadHello(payload: seq<byte>): Option<Hello> {
    match SplitHandshake(payload)
    case None => None
    case Some(m) =>
      if m.msgType != 0x01 || |m.body| < 41 || m.body[..3] != [0x03, 0xf1, 1] then None
      else match Prefixed(m.body[41..], 4)
           case None => None
           case Some((ext, after)) =>
             if |ext| == 0 || ext[0] != 0x01 || after != [] then None
             else match Prefixed(ext[1..], 4)
                  case None => None
                  case Some((data, end)) =>
                    if end != [] then None
                    else Some(Hello(ReadBE(m.body[3..5]), m.body[5..37], ReadBE(m.body[37..41]), data))
  }

  /** One offer: its length, the group, and the key behind a two-byte length. */
  function ReadOffer(data: seq<byte>): Option<(Offer, seq<byte>)> {
    match Prefixed(data, 4)
    case None => None
    case Some((one, rest)) =>
      if |one| < 4 then None
      else match Prefixed(one[4..], 2)
           case None => None
           case Some((pub, end)) => if end == [] then Some((Offer(ReadBE(one[..4]), pub), rest)) else None
  }

  /** A key share extension with two offers. */
  function ReadKeyShares(data: seq<byte>): Option<(Offer, Offer)> {
    if |data| < 3 || data[..3] != [0x00, 0x10, 2] then None
    else match ReadOffer(data[3..])
         case None => None
         case Some((first, rest)) =>
           match ReadOffer(rest)
           case None => None
           case Some((second, end)) => if end == [0, 0, 0, 1] then Some((first, second)) else None
  }

  /** A pre-shared key extension with one ticket. */
  function ReadTicket(data: seq<byte>): Option<seq<byte>> {
    if |data| < 3 || data[..3] != [0x00, 0x0f, 1] then None
    else match Prefixed(data[3..], 4)
         case None => None
         case Some((ticket, end)) => if end == [] then Some(ticket) else None
  }

  /** The public key a ClientHello offers for P-256, its first group. */
  function PeerKey(payload: seq<byte>): Option<seq<byte>> {
    match ReadHello(payload)
    case None => None
    case Some(h) =>
      match ReadKeyShares(h.extension)
      case None => None
      case Some((a, b)) => if a.group == 1 then Some(a.pub) else if b.group == 1 then Some(b.pub) else None
  }

  // ---- Reading back ----------------------------------------------------------------------

  lemma HelloReadsBack(cipher: nat, random: seq<byte>, timestamp: nat, data: seq<byte>)
    requires cipher < 0x1_0000 && |random| == 32 && |data| < 0xffff_ff00
    ensures var ext := [0x01] + BE(|data|, 4) + data;
            var body := [0x03, 0xf1, 1] + BE(cipher, 2) + random + BE(timestamp, 4) + BE(|ext|, 4) + ext;
            ReadHello(HandshakeBytes(0x01, body)) == Some(Hello(cipher, random, timestamp % 0x1_0000_0000, data))
  {
    hide BE, ReadBE, HandshakeBytes, SplitHandshake, Prefixed;
    Pow256Values();
    var ext := [0x01] + BE(|data|, 4) + data;
    var tail := BE(|ext|, 4) + ext;
    var body := [0x03, 0xf1, 1] + BE(cipher, 2) + random + BE(timestamp, 4) + BE(|ext|, 4) + ext;
    SplitUndoesBuild(0x01, body, []);
    assert HandshakeBytes(0x01, body) + [] == HandshakeBytes(0x01, body);
    assert body[..3] == [0x03, 0xf1, 1];
    assert body[3..5] == BE(cipher, 2) && body[5..37] == random && body[37..41] == BE(timestamp, 4);
    assert body[41..] == tail;
    ReadBack(cipher, 2);
    ReadBEOfBE(timestamp, 4);
    PrefixedReadsBack(ext, 4, []);
    assert tail + [] == tail;
    assert ext[1..] == BE(|data|, 4) + data;
    PrefixedReadsBack(data, 4, []);
    assert BE(|data|, 4) + data + [] == BE(|data|, 4) + data;
  }

  lemma OfferReadsBack(group: nat, pub: seq<byte>, more: seq<byte>)
    requires group < 0x1_0000_0000 && |pub| < 0x1_0000
    ensures var one := BE(group, 4) + BE(|pub|, 2) + pub;
            ReadOffer(BE(|one|, 4) + one + more) == Some((Offer(group, pub), more))
  {
    hide BE, ReadBE, Prefixed;
    Pow256Values();
    var one := BE(group, 4) + BE(|pub|, 2) + pub;
    PrefixedReadsBack(one, 4, more);
    assert one[..4] == BE(group, 4) && one[4..] == BE(|pub|, 2) + pub;
    ReadBack(group, 4);
    PrefixedReadsBack(pub, 2, []);
    assert BE(|pub|, 2) + pub + [] == BE(|pub|, 2) + pub;
  }
}

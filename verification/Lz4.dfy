/** The LZ4 block coder of internal/protocol/bytes.go, against the LZ4 Block Format Description. */
module Lz4 {
  import opened Bytes

  /** One compressed sequence: literals, then a match of `matchLen` bytes starting `offset` back. */
  datatype Sequence = Sequence(literals: seq<byte>, offset: nat, matchLen: nat)

  /** The closing literal run. The decoder ignores the low half of its token. */
  datatype Tail = Tail(literals: seq<byte>, lowNibble: nat)

  datatype Block = Block(items: seq<Sequence>, tail: Option<Tail>)

  // ---- Meaning of a block ----------------------------------------------------------------

  /** The match: n bytes appended one at a time, each read `offset` bytes back from where it goes. */
  function Copy(out: seq<byte>, offset: nat, n: nat): (r: seq<byte>)
    requires 0 < offset <= |out|
    ensures |r| == |out| + n
  {
    if n == 0 then out else
      var r := Copy(out, offset, n - 1);
      r + [r[|r| - offset]]
  }

  /** So a match repeats the last `offset` bytes of out periodically, also where it overlaps itself. */
  lemma {:induction false} CopyIsPeriodic(out: seq<byte>, offset: nat, n: nat, k: nat)
    requires 0 < offset <= |out| && k < |out| + n
    ensures Copy(out, offset, n)[k] == if k < |out| then out[k] else out[|out| - offset + (k - |out|) % offset]
    decreases n
  {
    if n > 0 {
      if k < |out| + n - 1 {
        CopyIsPeriodic(out, offset, n - 1, k);
      } else {
        CopyIsPeriodic(out, offset, n - 1, k - offset);
        if n > offset {
          ModMinus(n - 1, offset);
        } else {
          DivModUnique(n - 1, offset, 0, n - 1);
        }
      }
    }
  }

  lemma ModMinus(j: nat, d: nat)
    requires 0 < d <= j
    ensures (j - d) % d == j % d
  {
    var q, r := j / d, j % d;
    assert j - d == d * (q - 1) + r;
    DivModUnique(j - d, d, q - 1, r);
  }

  predicate Fits(s: Sequence, out: seq<byte>) {
    && 0 < s.offset <= |out| + |s.literals|
    && s.offset < 0x1_0000
    && s.matchLen >= 4
  }

  function Apply(s: Sequence, out: seq<byte>): (r: seq<byte>)
    requires Fits(s, out)
  {
    Copy(out + s.literals, s.offset, s.matchLen)
  }

  predicate ValidItems(items: seq<Sequence>, out: seq<byte>) {
    |items| > 0 ==> Fits(items[0], out) && ValidItems(items[1..], Apply(items[0], out))
  }

  predicate ValidTail(t: Option<Tail>) {
    t.Some? ==> t.value.lowNibble < 16
  }

  predicate Valid(b: Block) {
    ValidItems(b.items, []) && ValidTail(b.tail)
  }

  function ItemsMeaning(items: seq<Sequence>, out: seq<byte>): seq<byte>
    requires ValidItems(items, out)
  {
    if |items| == 0 then out else ItemsMeaning(items[1..], Apply(items[0], out))
  }

  function TailMeaning(t: Option<Tail>): seq<byte> {
    if t.Some? then t.value.literals else []
  }

  function Meaning(b: Block): seq<byte>
    requires Valid(b)
  {
    ItemsMeaning(b.items, []) + TailMeaning(b.tail)
  }

  // ---- Wire format -----------------------------------------------------------------------

  function Nibble(n: nat): (r: nat)
    ensures r < 16
  {
    if n < 15 then n else 15
  }

  function Ext(n: nat): (r: seq<byte>)
    ensures |r| == n / 255 + 1
  {
    if n < 255 then [n] else [255] + Ext(n - 255)
  }

  /** The bytes that continue a length whose token half is 15. */
  function LenTail(n: nat): seq<byte> {
    if n < 15 then [] else Ext(n - 15)
  }

  /** Token, literal length and literals. */
  function RunBytes(literals: seq<byte>, low: nat): (r: seq<byte>)
    requires low < 16
    ensures |r| >= 1 + |literals|
  {
    [16 * Nibble(|literals|) + low] + LenTail(|literals|) + literals
  }

  function MatchBytes(offset: nat, matchLen: nat): (r: seq<byte>)
    requires offset < 0x1_0000 && matchLen >= 4
    ensures |r| >= 2
  {
    [offset % 256, offset / 256] + LenTail(matchLen - 4)
  }

  function SequenceBytes(s: Sequence): (r: seq<byte>)
    requires s.offset < 0x1_0000 && s.matchLen >= 4
    ensures |r| >= 3
  {
    RunBytes(s.literals, Nibble(s.matchLen - 4)) + MatchBytes(s.offset, s.matchLen)
  }

  function TailBytes(t: Tail): (r: seq<byte>)
    requires t.lowNibble < 16
  {
    RunBytes(t.literals, t.lowNibble)
  }

  function ItemsBytes(items: seq<Sequence>, out: seq<byte>): seq<byte>
    requires ValidItems(items, out)
  {
    if |items| == 0 then []
    else SequenceBytes(items[0]) + ItemsBytes(items[1..], Apply(items[0], out))
  }

  function OptTailBytes(t: Option<Tail>): seq<byte>
    requires ValidTail(t)
  {
    if t.Some? then TailBytes(t.value) else []
  }

  function BlockBytes(b: Block): seq<byte>
    requires Valid(b)
  {
    ItemsBytes(b.items, []) + OptTailBytes(b.tail)
  }

  // ---- The decoder as a function ---------------------------------------------------------

  datatype Length = NoLength | Length(value: nat, used: nat)

  function ReadExt(rest: seq<byte>): (r: Length)
    ensures r.Length? ==> 0 < r.used <= |rest| && rest[..r.used] == Ext(r.value)
  {
    if |rest| == 0 then NoLength
    else if rest[0] == 255 then
      match ReadExt(rest[1..])
      case NoLength => NoLength
      case Length(v, u) =>
        assert rest[..u + 1] == [255] + rest[1..][..u];
        Length(v + 255, u + 1)
    else Length(rest[0], 1)
  }

  function ReadLen(nibble: nat, rest: seq<byte>): (r: Length)
    requires nibble < 16
    ensures r.Length? ==> r.used <= |rest| && rest[..r.used] == LenTail(r.value) && Nibble(r.value) == nibble
  {
    if nibble < 15 then Length(nibble, 0)
    else match ReadExt(rest)
         case NoLength => NoLength
         case Length(v, u) => Length(v + 15, u)
  }

  datatype Run = NoRun | Run(literals: seq<byte>, used: nat)
  datatype Match = NoMatch | Match(offset: nat, matchLen: nat, used: nat)
  datatype Piece = Malformed | Last(tail: Tail) | Item(item: Sequence, used: nat)

  function ParseRun(rest: seq<byte>): (r: Run)
    requires |rest| > 0
    ensures r.Run? ==> 0 < r.used <= |rest|
  {
    match ReadLen(rest[0] / 16, rest[1..])
    case NoLength => NoRun
    case Length(n, c) =>
      if 1 + c + n > |rest| then NoRun else Run(rest[1 + c..1 + c + n], 1 + c + n)
  }

  function ParseMatch(low: nat, rest: seq<byte>): (r: Match)
    requires low < 16
    ensures r.Match? ==> 0 < r.used <= |rest|
  {
    if |rest| < 2 then NoMatch
    else match ReadLen(low, rest[2..])
         case NoLength => NoMatch
         case Length(n, c) => Match(LittleEndian(rest[0], rest[1]), n + 4, 2 + c)
  }

  function LittleEndian(lo: int, hi: int): int { lo + 256 * hi }

  /** The sequence or closing run at the front of rest. */
  function ParsePiece(rest: seq<byte>): (r: Piece)
    requires |rest| > 0
    ensures r.Item? ==> 0 < r.used <= |rest|
  {
    match ParseRun(rest)
    case NoRun => Malformed
    case Run(literals, m) =>
      if m == |rest| then Last(Tail(literals, rest[0] % 16))
      else match ParseMatch(rest[0] % 16, rest[m..])
           case NoMatch => Malformed
           case Match(offset, matchLen, used) => Item(Sequence(literals, offset, matchLen), m + used)
  }

  function DecodeRest(rest: seq<byte>, out: seq<byte>): Option<seq<byte>>
    decreases |rest|
  {
    if |rest| == 0 then Some(out)
    else match ParsePiece(rest)
         case Malformed => None
         case Last(t) => Some(out + t.literals)
         case Item(s, used) =>
           if !Fits(s, out) then None else DecodeRest(rest[used..], Apply(s, out))
  }

  /** Decompress(data): None stands for the returned error. */
  function Decompress(data: seq<byte>): Option<seq<byte>> {
    DecodeRest(data, [])
  }

  // ---- The decoder accepts exactly the encodings of valid blocks -------------------------

  lemma {:induction false} ReadExtOfExt(n: nat, more: seq<byte>)
    ensures ReadExt(Ext(n) + more) == Length(n, |Ext(n)|)
    decreases n
  {
    if n >= 255 {
      assert (Ext(n) + more)[1..] == Ext(n - 255) + more;
      ReadExtOfExt(n - 255, more);
    }
  }

  lemma ReadLenOfTail(n: nat, more: seq<byte>)
    ensures ReadLen(Nibble(n), LenTail(n) + more) == Length(n, |LenTail(n)|)
  {
    if n >= 15 { ReadExtOfExt(n - 15, more); }
  }

  lemma TokenHalves(hi: nat, lo: nat)
    requires hi < 16 && lo < 16
    ensures (16 * hi + lo) / 16 == hi && (16 * hi + lo) % 16 == lo
  {
  }

  lemma RunOfBytes(literals: seq<byte>, low: nat, more: seq<byte>)
    requires low < 16
    ensures var rest := RunBytes(literals, low) + more;
            ParseRun(rest) == Run(literals, |RunBytes(literals, low)|) && rest[0] % 16 == low
  {
    var rest, ext := RunBytes(literals, low) + more, LenTail(|literals|);
    TokenHalves(Nibble(|literals|), low);
    var tok: seq<byte> := [16 * Nibble(|literals|) + low];
    assert rest == tok + (ext + (literals + more));
    assert rest[1..] == ext + (literals + more);
    ReadLenOfTail(|literals|, literals + more);
    assert rest == (tok + ext) + literals + more;
    Seams(tok + ext, literals, more);
  }

  lemma MatchOfBytes(offset: nat, matchLen: nat, more: seq<byte>)
    requires offset < 0x1_0000 && matchLen >= 4
    ensures ParseMatch(Nibble(matchLen - 4), MatchBytes(offset, matchLen) + more)
         == Match(offset, matchLen, |MatchBytes(offset, matchLen)|)
  {
    var rest := MatchBytes(offset, matchLen) + more;
    assert rest[2..] == LenTail(matchLen - 4) + more;
    ReadLenOfTail(matchLen - 4, more);
  }

  lemma BytesOfRun(rest: seq<byte>)
    requires |rest| > 0 && ParseRun(rest).Run?
    ensures rest[..ParseRun(rest).used] == RunBytes(ParseRun(rest).literals, rest[0] % 16)
  {
    var l, m := ReadLen(rest[0] / 16, rest[1..]), ParseRun(rest).used;
    var at := 1 + l.used;
    assert rest[1..at] == rest[1..][..l.used];
    assert rest[..m] == [rest[0]] + rest[1..at] + rest[at..m];
  }

  lemma BytesOfMatch(low: nat, rest: seq<byte>)
    requires low < 16 && ParseMatch(low, rest).Match?
    ensures var m := ParseMatch(low, rest);
            m.offset < 0x1_0000 && m.matchLen >= 4 && Nibble(m.matchLen - 4) == low
            && rest[..m.used] == MatchBytes(m.offset, m.matchLen)
  {
    var l, m := ReadLen(low, rest[2..]), ParseMatch(low, rest);
    assert rest[2..2 + l.used] == rest[2..][..l.used];
    assert rest[..m.used] == rest[..2] + rest[2..m.used];
    assert rest[..2] == [m.offset % 256, m.offset / 256];
  }

  lemma PieceOfSequence(s: Sequence, more: seq<byte>)
    requires s.offset < 0x1_0000 && s.matchLen >= 4
    ensures ParsePiece(SequenceBytes(s) + more) == Item(s, |SequenceBytes(s)|)
  {
    var run := RunBytes(s.literals, Nibble(s.matchLen - 4));
    var rest := MatchBytes(s.offset, s.matchLen) + more;
    assert SequenceBytes(s) + more == run + rest;
    RunOfBytes(s.literals, Nibble(s.matchLen - 4), rest);
    MatchOfBytes(s.offset, s.matchLen, more);
    assert (run + rest)[|run|..] == rest;
  }

  lemma PieceOfTail(t: Tail)
    requires t.lowNibble < 16
    ensures ParsePiece(TailBytes(t)) == Last(t)
  {
    RunOfBytes(t.literals, t.lowNibble, []);
    assert TailBytes(t) + [] == TailBytes(t);
  }

  lemma SequenceOfPiece(rest: seq<byte>)
    requires |rest| > 0
    ensures var p := ParsePiece(rest);
            && (p.Item? ==> p.item.offset < 0x1_0000 && p.item.matchLen >= 4
                            && rest[..p.used] == SequenceBytes(p.item))
            && (p.Last? ==> p.tail.lowNibble < 16 && rest == TailBytes(p.tail))
  {
    hide ParseRun, ParseMatch, RunBytes, MatchBytes, Nibble;
    if ParseRun(rest).Run? {
      BytesOfRun(rest);
      var m := ParseRun(rest).used;
      if m == |rest| {
        assert rest[..m] == rest;
      } else if ParseMatch(rest[0] % 16, rest[m..]).Match? {
        BytesOfMatch(rest[0] % 16, rest[m..]);
        var used := m + ParseMatch(rest[0] % 16, rest[m..]).used;
        assert rest[..used] == rest[..m] + rest[m..][..used - m];
      }
    }
  }

  lemma DecodeFirst(front: seq<byte>, rest: seq<byte>, s: Sequence, out: seq<byte>)
    requires |front| > 0 && Fits(s, out) && ParsePiece(front + rest) == Item(s, |front|)
    ensures DecodeRest(front + rest, out) == DecodeRest(rest, Apply(s, out))
  {
    hide ParsePiece, Apply, Fits;
    assert (front + rest)[|front|..] == rest;
  }

  lemma {:induction false} DecodeItems(items: seq<Sequence>, out: seq<byte>, more: seq<byte>)
    requires ValidItems(items, out)
    ensures DecodeRest(ItemsBytes(items, out) + more, out) == DecodeRest(more, ItemsMeaning(items, out))
    decreases |items|
  {
    hide SequenceBytes, ParsePiece, Apply;
    if |items| == 0 {
      assert ItemsBytes(items, out) + more == more;
    } else {
      var front, later := SequenceBytes(items[0]), ItemsBytes(items[1..], Apply(items[0], out));
      Assoc(front, later, more);
      PieceOfSequence(items[0], later + more);
      DecodeFirst(front, later + more, items[0], out);
      DecodeItems(items[1..], Apply(items[0], out), more);
    }
  }

  lemma DecodeTail(t: Option<Tail>, out: seq<byte>)
    requires ValidTail(t)
    ensures DecodeRest(OptTailBytes(t), out) == Some(out + TailMeaning(t))
  {
    if t.Some? {
      PieceOfTail(t.value);
    } else {
      assert out + TailMeaning(t) == out;
    }
  }

  /** On the encoding of any valid block the decoder returns the block's meaning. */
  lemma DecompressEncoding(b: Block)
    requires Valid(b)
    ensures Decompress(BlockBytes(b)) == Some(Meaning(b))
  {
    DecodeItems(b.items, [], OptTailBytes(b.tail));
    DecodeTail(b.tail, ItemsMeaning(b.items, []));
  }

  lemma {:induction false} AcceptedItems(rest: seq<byte>, out: seq<byte>)
    returns (items: seq<Sequence>, tail: Option<Tail>)
    requires DecodeRest(rest, out).Some?
    ensures ValidItems(items, out) && ValidTail(tail)
    ensures rest == ItemsBytes(items, out) + OptTailBytes(tail)
    decreases |rest|
  {
    if |rest| == 0 {
      items, tail := [], None;
    } else {
      SequenceOfPiece(rest);
      match ParsePiece(rest)
      case Last(t) =>
        items, tail := [], Some(t);
      case Item(s, used) =>
        var later, t := AcceptedItems(rest[used..], Apply(s, out));
        ItemsCons(rest, used, s, later, t, out);
        items, tail := [s] + later, t;
    }
  }

  lemma ItemsCons(rest: seq<byte>, used: nat, s: Sequence, later: seq<Sequence>, tail: Option<Tail>, out: seq<byte>)
    requires Fits(s, out) && ValidItems(later, Apply(s, out)) && ValidTail(tail)
    requires used <= |rest| && rest[..used] == SequenceBytes(s)
    requires rest[used..] == ItemsBytes(later, Apply(s, out)) + OptTailBytes(tail)
    ensures ValidItems([s] + later, out)
    ensures rest == ItemsBytes([s] + later, out) + OptTailBytes(tail)
  {
    var items := [s] + later;
    assert items[0] == s && items[1..] == later;
    assert ItemsBytes(items, out) == rest[..used] + ItemsBytes(later, Apply(s, out));
    Assoc(rest[..used], ItemsBytes(later, Apply(s, out)), OptTailBytes(tail));
    assert rest == rest[..used] + rest[used..];
  }

  /** Whatever the decoder accepts is the encoding of some valid block, and the result is its meaning. */
  lemma AcceptedIsEncoding(data: seq<byte>)
    ensures Decompress(data).Some? <==> exists b: Block :: Valid(b) && BlockBytes(b) == data
    ensures forall b: Block :: Valid(b) && BlockBytes(b) == data ==> Decompress(data) == Some(Meaning(b))
  {
    forall b: Block | Valid(b) && BlockBytes(b) == data
      ensures Decompress(data) == Some(Meaning(b))
    {
      DecompressEncoding(b);
    }
    if Decompress(data).Some? {
      var items, tail := AcceptedItems(data, []);
      var b := Block(items, tail);
      assert Valid(b) && BlockBytes(b) == data;
    }
  }

  /** A block of n bytes never expands to more than 255 n bytes. */
  lemma {:induction false} ExpansionBound(rest: seq<byte>, out: seq<byte>)
    requires DecodeRest(rest, out).Some?
    ensures |DecodeRest(rest, out).value| <= |out| + 255 * |rest|
    decreases |rest|
  {
    if |rest| > 0 {
      SequenceOfPiece(rest);
      match ParsePiece(rest)
      case Last(t) =>
      case Item(s, used) =>
        assert |LenTail(s.matchLen - 4)| >= 1 || s.matchLen < 19;
        assert s.matchLen <= 255 * (2 + |LenTail(s.matchLen - 4)|);
        ExpansionBound(rest[used..], Apply(s, out));
    }
  }

  lemma DecompressBound(data: seq<byte>)
    ensures Decompress(data).Some? ==> |Decompress(data).value| <= 255 * |data|
  {
    if Decompress(data).Some? { ExpansionBound(data, []); }
  }

  // ---- The all-literal encoder -----------------------------------------------------------

  function AllLiteral(data: seq<byte>): seq<byte> {
    TailBytes(Tail(data, 0))
  }

  lemma AllLiteralRoundTrip(data: seq<byte>)
    ensures Decompress(AllLiteral(data)) == Some(data)
  {
    var b := Block([], Some(Tail(data, 0)));
    DecompressEncoding(b);
    assert BlockBytes(b) == AllLiteral(data) && Meaning(b) == data;
  }

  lemma AllLiteralParts(data: seq<byte>)
    ensures AllLiteral(data) == [16 * Nibble(|data|)] + LenTail(|data|) + data
  {
    hide LenTail, Nibble;
    var a: seq<byte>, b: seq<byte> := [16 * Nibble(|data|) + 0], [16 * Nibble(|data|)];
    assert a == b;
  }

  lemma AllLiteralShort(data: seq<byte>)
    requires |data| < 15
    ensures AllLiteral(data) == [|data| * 16] + data
  {
    hide AllLiteral;
    AllLiteralParts(data);
    var tok: seq<byte> := [16 * Nibble(|data|)];
    assert tok + LenTail(|data|) == tok;
  }

  lemma AllLiteralLong(data: seq<byte>)
    requires |data| >= 15
    ensures AllLiteral(data) == [0xf0] + Ext(|data| - 15) + data
  {
    hide AllLiteral, Ext;
    AllLiteralParts(data);
    assert LenTail(|data|) == Ext(|data| - 15) && Nibble(|data|) == 15;
  }

  lemma ExtTurn(done: seq<byte>, rem: nat)
    ensures rem >= 255 ==> done + Ext(rem) == done + [255] + Ext(rem - 255)
    ensures rem < 255 ==> Ext(rem) == [rem]
  {
  }

  method Lz4AllLiteral(data: seq<byte>) returns (out: seq<byte>)
    ensures out == AllLiteral(data)
  {
    hide AllLiteral, Ext;
    var n := |data|;
    if n < 15 {
      AllLiteralShort(data);
      return [n * 16 % 256] + data;
    }
    AllLiteralLong(data);
    out := [0xf0];
    var rem := n - 15;
    while rem >= 255
      invariant 0 <= rem
      invariant out + Ext(rem) == [0xf0] + Ext(n - 15)
    {
      ExtTurn(out, rem);
      out := out + [255];
      rem := rem - 255;
    }
    ExtTurn(out, rem);
    out := out + [rem % 256];
    out := out + data;
  }

  // ---- The decoder as the source writes it -----------------------------------------------

  /** A length: the token half, and when that is 15 every following 255 and one byte more. */
  method TokenLength(data: seq<byte>, start: nat, half: nat) returns (length: nat, i: nat, ok: bool)
    requires start <= |data| && half < 16
    ensures ok <==> ReadLen(half, data[start..]).Length?
    ensures ok ==> start <= i <= |data| && ReadLen(half, data[start..]) == Length(length, i - start)
  {
    i, length := start, half;
    if half == 15 {
      while i < |data| && data[i] == 255
        invariant start <= i <= |data| && length >= 15
        invariant ReadExt(data[start..]) ==
                  match ReadExt(data[i..])
                  case NoLength => NoLength
                  case Length(v, u) => Length(v + (length - 15), u + (i - start))
        decreases |data| - i
      {
        assert data[i..][1..] == data[i + 1..];
        length := length + 255;
        i := i + 1;
      }
      if i >= |data| {
        return length, i, false;
      }
      length := length + data[i];
      i := i + 1;
    }
    ok := true;
  }

  /** The copy loop, one byte at a time, so that it may read what it has just written. */
  method CopyMatch(source: seq<byte>, off: nat, matchLen: nat) returns (out: seq<byte>)
    requires 0 < off <= |source|
    ensures out == Copy(source, off, matchLen)
  {
    out := source;
    var start := |out| - off;
    var j := 0;
    while j < matchLen
      invariant 0 <= j <= matchLen
      invariant out == Copy(source, off, j)
    {
      out := out + [out[start + j]];
      j := j + 1;
    }
  }

  lemma DecodeEnds(data: seq<byte>)
    ensures DecodeRest(data[0..], []) == Decompress(data)
    ensures forall i, out :: i == |data| ==> DecodeRest(data[i..], out) == Some(out)
  {
    assert data[0..] == data;
  }

  /** The turns of the decoding loop that end it. */
  lemma LastTurn(rest: seq<byte>, out: seq<byte>)
    requires |rest| > 0
    ensures ParseRun(rest).NoRun? ==> DecodeRest(rest, out) == None
    ensures var r := ParseRun(rest);
            r.Run? && r.used == |rest| ==> DecodeRest(rest, out) == Some(out + r.literals)
  {
  }

  /** A turn that goes on to a match and, when the match is malformed, fails. */
  lemma FailedMatch(rest: seq<byte>, out: seq<byte>, mid: seq<byte>)
    requires |rest| > 0 && ParseRun(rest).Run? && ParseRun(rest).used < |rest|
    requires mid == out + ParseRun(rest).literals
    ensures var m := ParseMatch(rest[0] % 16, rest[ParseRun(rest).used..]);
            m.NoMatch? || m.offset == 0 || m.offset > |mid| ==> DecodeRest(rest, out) == None
  {
  }

  lemma MatchTurn(rest: seq<byte>, out: seq<byte>, mid: seq<byte>, m: Match, used: nat, next: seq<byte>)
    requires |rest| > 0 && ParseRun(rest).Run? && ParseRun(rest).used < |rest|
    requires mid == out + ParseRun(rest).literals
    requires m == ParseMatch(rest[0] % 16, rest[ParseRun(rest).used..])
    requires m.Match? && 0 < m.offset <= |mid|
    requires used == ParseRun(rest).used + m.used && next == rest[used..]
    ensures DecodeRest(rest, out) == DecodeRest(next, Copy(mid, m.offset, m.matchLen))
  {
    hide ParseRun, ParseMatch, MatchBytes, Nibble, Copy;
    BytesOfMatch(rest[0] % 16, rest[ParseRun(rest).used..]);
    var s := Sequence(ParseRun(rest).literals, m.offset, m.matchLen);
    assert ParsePiece(rest) == Item(s, used);
    assert Fits(s, out);
    assert Apply(s, out) == Copy(mid, m.offset, m.matchLen);
  }

  /** The first half of a turn: token, literal length and literals. */
  method ReadRun(data: seq<byte>, start: nat) returns (literals: seq<byte>, i: nat, ok: bool)
    requires start < |data|
    ensures ok <==> ParseRun(data[start..]).Run?
    ensures ok ==> start < i <= |data| && ParseRun(data[start..]) == Run(literals, i - start)
  {
    ghost var rest := data[start..];
    var tok := data[start];
    i := start + 1;
    literals := [];
    assert rest[1..] == data[i..];
    var litLen;
    litLen, i, ok := TokenLength(data, i, tok / 16);
    if !ok { return; }
    if i + litLen > |data| { return literals, i, false; }
    literals := data[i..i + litLen];
    assert literals == rest[i - start..i - start + litLen];
    i := i + litLen;
  }

  /** The second half: offset and match length, with the checks the decoder makes on them. */
  method ReadMatch(data: seq<byte>, start: nat, low: nat, written: nat)
    returns (off: nat, matchLen: nat, i: nat, ok: bool)
    requires start < |data| && low < 16
    ensures var m := ParseMatch(low, data[start..]);
            && (ok <==> m.Match? && 0 < m.offset <= written)
            && (ok ==> start < i <= |data| && m == Match(off, matchLen, i - start))
  {
    i, matchLen, off := start, 0, 0;
    if i + 2 > |data| { return off, matchLen, i, false; }
    off := LittleEndian(data[i], data[i + 1]);
    i := i + 2;
    assert data[start..][2..] == data[i..];
    if off <= 0 || off > written { return off, matchLen, i, false; }
    matchLen, i, ok := TokenLength(data, i, low);
    matchLen := matchLen + 4;
  }

  method Lz4Decompress(data: seq<byte>) returns (r: Option<seq<byte>>)
    ensures r == Decompress(data)
  {
    hide *;
    DecodeEnds(data);
    var out: seq<byte> := [];
    var i := 0;
    while i < |data|
      invariant 0 <= i <= |data|
      invariant DecodeRest(data[i..], out) == Decompress(data)
      decreases |data| - i
    {
      ghost var rest, before, first := data[i..], out, i;
      var tok := data[i];
      LastTurn(rest, before);
      var literals, ok;
      literals, i, ok := ReadRun(data, i);
      if !ok { return None; }
      out := out + literals;
      if i >= |data| { return Some(out); }
      assert rest[i - first..] == data[i..];
      FailedMatch(rest, before, out);
      ghost var cut := i - first;
      var off, matchLen;
      off, matchLen, i, ok := ReadMatch(data, i, tok % 16, |out|);
      if !ok { return None; }
      assert rest[i - first..] == data[i..];
      MatchTurn(rest, before, out, Match(off, matchLen, i - first - cut), i - first, data[i..]);
      out := CopyMatch(out, off, matchLen);
    }
    return Some(out);
  }

  // ---- Blocks by their bytes -------------------------------------------------------------

  /** A length of 15 and more goes on in bytes of 255 and one smaller one. */
  lemma {:induction false} ExtIsBytes(n: nat, i: nat)
    requires i <= n / 255
    ensures |Ext(n)| == n / 255 + 1 && Ext(n)[i] == if i < n / 255 then 255 else n % 255
    decreases n
  {
    if n >= 255 {
      if i > 0 { ExtIsBytes(n - 255, i - 1); }
      assert Ext(n) == [255] + Ext(n - 255);
    }
  }

  /** A block of one short sequence and short last literals, byte by byte: the token with the literal
      length above and the match length less four below, the literals, the offset low byte first. */
  lemma ShortBlock(literals: seq<byte>, offset: nat, matchLen: nat, last: seq<byte>)
    requires |literals| < 15 && |last| < 15 && 0 < offset <= |literals| && 4 <= matchLen < 19
    ensures Decompress([16 * |literals| + (matchLen - 4)] + literals + [offset, 0] + [16 * |last|] + last)
         == Some(Copy(literals, offset, matchLen) + last)
  {
    hide Copy, Decompress;
    var s, t := Sequence(literals, offset, matchLen), Tail(last, 0);
    var b := Block([s], Some(t));
    ShortSequence(s);
    ShortRun(last, 0);
    assert [s][1..] == [];
    assert ValidItems([], Apply(s, []));
    assert ItemsBytes([s], []) == SequenceBytes(s) + ItemsBytes([], Apply(s, []));
    assert ItemsBytes([s], []) == SequenceBytes(s);
    assert BlockBytes(b) == SequenceBytes(s) + TailBytes(t);
    assert BlockBytes(b) == [16 * |literals| + (matchLen - 4)] + literals + [offset, 0] + [16 * |last|] + last;
    assert [] + literals == literals;
    assert ItemsMeaning([s], []) == ItemsMeaning([], Apply(s, []));
    assert Apply(s, []) == Copy([] + literals, offset, matchLen);
    assert Meaning(b) == Copy(literals, offset, matchLen) + last;
    DecompressEncoding(b);
  }

  lemma ShortRun(literals: seq<byte>, low: nat)
    requires |literals| < 15 && low < 16
    ensures RunBytes(literals, low) == [16 * |literals| + low] + literals
  {
    var tok: seq<byte> := [16 * |literals| + low];
    assert tok + [] == tok;
  }

  lemma ShortSequence(s: Sequence)
    requires |s.literals| < 15 && s.offset < 256 && 4 <= s.matchLen < 19
    ensures SequenceBytes(s) == [16 * |s.literals| + (s.matchLen - 4)] + s.literals + [s.offset, 0]
  {
    hide RunBytes;
    ShortRun(s.literals, s.matchLen - 4);
    var off: seq<byte> := [s.offset % 256, s.offset / 256];
    assert off == [s.offset, 0];
    assert MatchBytes(s.offset, s.matchLen) == off + [];
    assert off + [] == off;
  }
}

/** The protobuf subset of internal/protocol/bytes.go: pbLen, pbVar, pbParse and protobufToMap. */
module Protobuf {
  import opened Bytes
  import opened Varint

  datatype PbValue = PbInt(v: int64) | PbBytes(b: seq<byte>)

  /** A parse ends with a map or, on a length that wraps, with a slice bounds panic. stop is where the
      first field begins that was not read, or the length of the data. */
  datatype Outcome<T> = Done(value: T, stop: nat) | SlicePanic

  // ---- Builders --------------------------------------------------------------------------

  function PbLen(field: int, data: seq<byte>): seq<byte> {
    [(field * 8 + 2) % 256] + Encode(|data|) + data
  }

  function PbVar(field: int, n: uint64): seq<byte> {
    [field * 8 % 256] + Encode(n)
  }

  // ---- One field -------------------------------------------------------------------------

  datatype FieldRead =
    | Stop
    | Crash
    | VarintField(number: nat, n: uint64, next: nat)
    | BytesField(number: nat, raw: seq<byte>, next: nat)

  /** The field at offset i. A length that runs past the end stops the parse without an error. */
  function ReadField(data: seq<byte>, i: nat): (r: FieldRead)
    requires i <= |data| < TWO63
    ensures r.VarintField? ==> i < r.next <= |data|
    ensures r.BytesField? ==> i < r.next <= |data| && |r.raw| + 2 <= r.next - i
  {
    match Decode(data, i)
    case Failed(_) => Stop
    case Read(tag, ni) =>
      if tag % 8 == 0 then
        match Decode(data, ni)
        case Failed(_) => Stop
        case Read(v, nj) => VarintField(tag / 8, v, nj)
      else if tag % 8 == 2 then
        match Decode(data, ni)
        case Failed(_) => Stop
        case Read(ln, nj) =>
          var end := WrapAdd(nj, SignedOf(ln));
          if end > |data| then Stop
          else if end < nj then Crash
          else BytesField(tag / 8, data[nj..end], end)
      else Stop
  }

  // ---- pbParse ---------------------------------------------------------------------------

  function ParseFrom(data: seq<byte>, i: nat, out: map<int, PbValue>): Outcome<map<int, PbValue>>
    requires i <= |data| < TWO63
    decreases |data| - i
  {
    if i == |data| then Done(out, i)
    else match ReadField(data, i)
         case Stop => Done(out, i)
         case Crash => SlicePanic
         case VarintField(k, n, next) => ParseFrom(data, next, out[k := PbInt(SignedOf(n))])
         case BytesField(k, raw, next) => ParseFrom(data, next, out[k := PbBytes(raw)])
  }

  function Parse(data: seq<byte>): Outcome<map<int, PbValue>>
    requires |data| < TWO63
  {
    ParseFrom(data, 0, map[])
  }

  /** Go returns the map alone; where the loop stopped is kept for comparison. */
  method PbParse(data: seq<byte>) returns (r: Outcome<map<int, PbValue>>)
    requires |data| < TWO63
    ensures r == Parse(data)
  {
    hide Decode;
    var out: map<int, PbValue> := map[];
    var i := 0;
    while i < |data|
      invariant 0 <= i <= |data|
      invariant ParseFrom(data, i, out) == Parse(data)
      decreases |data| - i
    {
      var at := i;
      var t := ReadVarint(data, i);
      if t.Failed? { break; }
      i := t.next;
      var fn, wt := t.value / 8, t.value % 8;
      if wt == 0 {
        var v := ReadVarint(data, i);
        if v.Failed? { return Done(out, at); }
        i := v.next;
        out := out[fn := PbInt(SignedOf(v.value))];
      } else if wt == 2 {
        var ln := ReadVarint(data, i);
        if ln.Failed? { return Done(out, at); }
        i := ln.next;
        var end := WrapAdd(i, SignedOf(ln.value));
        if end > |data| { return Done(out, at); }
        if end < i { return SlicePanic; }
        var raw := data[i..end];
        i := end;
        out := out[fn := PbBytes(raw)];
      } else {
        return Done(out, at);
      }
    }
    return Done(out, i);
  }

  // ---- Last one wins ---------------------------------------------------------------------

  datatype Field = LenField(number: int, data: seq<byte>) | VarField(number: int, n: uint64)

  function ValueOf(f: Field): PbValue {
    match f
    case LenField(_, d) => PbBytes(d)
    case VarField(_, n) => PbInt(SignedOf(n))
  }

  function FieldBytes(f: Field): seq<byte> {
    match f
    case LenField(k, d) => PbLen(k, d)
    case VarField(k, n) => PbVar(k, n)
  }

  function MessageBytes(fs: seq<Field>): seq<byte> {
    if |fs| == 0 then [] else FieldBytes(fs[0]) + MessageBytes(fs[1..])
  }

  /** m holds exactly the numbers of fs, each with the value of its last occurrence. */
  ghost predicate LastWins(m: map<int, PbValue>, fs: seq<Field>) {
    && (forall j :: 0 <= j < |fs| ==> fs[j].number in m)
    && (forall k :: k in m ==> exists j :: LastOf(k, j, fs) && m[k] == ValueOf(fs[j]))
  }

  ghost predicate LastOf(k: int, j: int, fs: seq<Field>) {
    0 <= j < |fs| && fs[j].number == k && forall l :: j < l < |fs| ==> fs[l].number != k
  }

  function Insert(m: map<int, PbValue>, fs: seq<Field>): map<int, PbValue>
    decreases |fs|
  {
    if |fs| == 0 then m else Insert(m[fs[0].number := ValueOf(fs[0])], fs[1..])
  }

  lemma {:induction false} InsertSnoc(m: map<int, PbValue>, fs: seq<Field>, f: Field)
    ensures Insert(m, fs + [f]) == Insert(m, fs)[f.number := ValueOf(f)]
    decreases |fs|
  {
    if |fs| > 0 {
      assert (fs + [f])[1..] == fs[1..] + [f];
      InsertSnoc(m[fs[0].number := ValueOf(fs[0])], fs[1..], f);
    }
  }

  lemma LastOfSnoc(k: int, j: int, fs: seq<Field>, f: Field)
    ensures f.number == k ==> LastOf(k, |fs|, fs + [f])
    ensures LastOf(k, j, fs) ==> 0 <= j < |fs| && (f.number != k ==> LastOf(k, j, fs + [f]))
  {
  }

  /** One more field overwrites its number and leaves the others alone. */
  lemma LastWinsSnoc(m: map<int, PbValue>, fs: seq<Field>, f: Field)
    requires LastWins(m, fs)
    ensures LastWins(m[f.number := ValueOf(f)], fs + [f])
  {
    hide ValueOf;
    var r, gs := m[f.number := ValueOf(f)], fs + [f];
    forall j | 0 <= j < |gs| ensures gs[j].number in r {
      if j < |fs| { assert gs[j] == fs[j]; }
    }
    forall k | k in r ensures exists j :: LastOf(k, j, gs) && r[k] == ValueOf(gs[j]) {
      if k == f.number {
        LastOfSnoc(k, |fs|, fs, f);
        assert gs[|fs|] == f;
      } else {
        var j :| LastOf(k, j, fs) && m[k] == ValueOf(fs[j]);
        LastOfSnoc(k, j, fs, f);
        assert gs[j] == fs[j];
      }
    }
  }

  lemma {:induction false} InsertIsLastWins(fs: seq<Field>)
    ensures LastWins(Insert(map[], fs), fs)
  {
    if |fs| > 0 {
      var init, f := fs[..|fs| - 1], fs[|fs| - 1];
      assert fs == init + [f];
      InsertIsLastWins(init);
      InsertSnoc(map[], init, f);
      LastWinsSnoc(Insert(map[], init), init, f);
    }
  }

  /** A tag byte and the varint after it, read from the middle of a message. */
  lemma TagAndVarint(pre: seq<byte>, tag: nat, n: uint64, suf: seq<byte>)
    requires tag < 128
    ensures var data := pre + ([tag] + Encode(n)) + suf;
            && Decode(data, |pre|) == Read(tag, |pre| + 1)
            && Decode(data, |pre| + 1) == Read(n, |pre| + 1 + |Encode(n)|)
  {
    hide Decode;
    var data := pre + ([tag] + Encode(n)) + suf;
    OneByte(tag);
    assert data == pre + Encode(tag) + (Encode(n) + suf);
    RoundTrip(pre, tag, Encode(n) + suf);
    assert data == (pre + [tag]) + Encode(n) + suf;
    RoundTrip(pre + [tag], n, suf);
  }

  lemma ReadBackVar(pre: seq<byte>, k: nat, n: uint64, suf: seq<byte>)
    requires k <= 15 && |pre + PbVar(k, n) + suf| < TWO63
    ensures ReadField(pre + PbVar(k, n) + suf, |pre|) == VarintField(k, n, |pre| + |PbVar(k, n)|)
  {
    hide Decode, Encode;
    TagAndVarint(pre, k * 8, n, suf);
  }

  lemma ReadBackLen(pre: seq<byte>, k: nat, d: seq<byte>, suf: seq<byte>)
    requires k <= 15 && |pre + PbLen(k, d) + suf| < TWO63
    ensures ReadField(pre + PbLen(k, d) + suf, |pre|) == BytesField(k, d, |pre| + |PbLen(k, d)|)
  {
    hide Decode, Encode;
    var head: seq<byte> := [k * 8 + 2] + Encode(|d|);
    var data := pre + PbLen(k, d) + suf;
    assert data == pre + head + (d + suf);
    TagAndVarint(pre, k * 8 + 2, |d|, d + suf);
    assert data == (pre + head) + d + suf;
    Seams(pre + head, d, suf);
  }

  lemma ReadBackField(pre: seq<byte>, f: Field, suf: seq<byte>)
    requires 0 <= f.number <= 15
    requires |pre + FieldBytes(f) + suf| < TWO63
    ensures var next, r := |pre| + |FieldBytes(f)|, ReadField(pre + FieldBytes(f) + suf, |pre|);
            r == if f.LenField? then BytesField(f.number, f.data, next) else VarintField(f.number, f.n, next)
  {
    hide ReadField;
    match f
    case LenField(k, d) => ReadBackLen(pre, k, d, suf);
    case VarField(k, n) => ReadBackVar(pre, k, n, suf);
  }

  lemma {:induction false} ParseMessage(pre: seq<byte>, fs: seq<Field>, out: map<int, PbValue>)
    requires forall j :: 0 <= j < |fs| ==> 0 <= fs[j].number <= 15
    requires |pre + MessageBytes(fs)| < TWO63
    ensures ParseFrom(pre + MessageBytes(fs), |pre|, out) == Done(Insert(out, fs), |pre + MessageBytes(fs)|)
    decreases |fs|
  {
    hide ReadField, FieldBytes;
    var data := pre + MessageBytes(fs);
    if |fs| > 0 {
      var f, rest := fs[0], MessageBytes(fs[1..]);
      assert data == pre + FieldBytes(f) + rest;
      ReadBackField(pre, f, rest);
      assert data == (pre + FieldBytes(f)) + rest;
      ParseMessage(pre + FieldBytes(f), fs[1..], out[f.number := ValueOf(f)]);
    }
  }

  /** pbParse of any concatenation of fields 0..15 is the last-one-wins map of those fields. */
  lemma ParseIsLastWins(fs: seq<Field>)
    requires forall j :: 0 <= j < |fs| ==> 0 <= fs[j].number <= 15
    requires |MessageBytes(fs)| < TWO63
    ensures Parse(MessageBytes(fs)).Done?
    ensures LastWins(Parse(MessageBytes(fs)).value, fs) && Parse(MessageBytes(fs)).stop == |MessageBytes(fs)|
  {
    assert [] + MessageBytes(fs) == MessageBytes(fs);
    ParseMessage([], fs, map[]);
    InsertIsLastWins(fs);
  }

  ghost predicate Shorter(m: map<int, PbValue>, n: int) {
    forall k :: k in m && m[k].PbBytes? ==> |m[k].b| < n
  }

  lemma {:induction false} ValuesAreShorter(data: seq<byte>, i: nat, out: map<int, PbValue>, n: nat)
    requires i <= |data| < TWO63 && |data| - i <= n && Shorter(out, n)
    ensures var r := ParseFrom(data, i, out); r.Done? ==> Shorter(r.value, n)
    decreases |data| - i
  {
    hide Decode;
    if i < |data| {
      match ReadField(data, i)
      case Stop =>
      case Crash =>
      case VarintField(k, v, next) => ValuesAreShorter(data, next, out[k := PbInt(SignedOf(v))], n);
      case BytesField(k, raw, next) => ValuesAreShorter(data, next, out[k := PbBytes(raw)], n);
    }
  }

  /** With the continuation bit clear, the tag reads back as the field number modulo 32. */
  lemma ShortTag(field: int, d: seq<byte>)
    requires |PbLen(field, d)| < TWO63 && (field * 8 + 2) % 256 < 128
    ensures Parse(PbLen(field, d)) == Done(map[field % 32 := PbBytes(d)], |PbLen(field, d)|) && field % 32 <= 15
  {
    hide ReadField, Encode, Parse;
    var k := field % 32;
    TagModulo(field);
    ParseOne(k, d);
  }

  lemma TagModulo(field: int)
    ensures (field * 8 + 2) % 256 == field % 32 * 8 + 2
  {
  }

  lemma ParseOne(k: nat, d: seq<byte>)
    requires k <= 15 && |PbLen(k, d)| < TWO63
    ensures Parse(PbLen(k, d)) == Done(map[k := PbBytes(d)], |PbLen(k, d)|)
  {
    hide ReadField, Encode;
    var data := PbLen(k, d);
    assert [] + PbLen(k, d) + [] == data;
    ReadBackLen([], k, d, []);
    assert ReadField(data, 0) == BytesField(k, d, |data|);
    assert map[][k := PbBytes(d)] == map[k := PbBytes(d)];
    assert ParseFrom(data, |data|, map[k := PbBytes(d)]) == Done(map[k := PbBytes(d)], |data|);
  }

  /** pbLen writes its tag as one byte: it reads back as written exactly for fields 0 to 15. */
  lemma PbLenDomain(field: int, d: seq<byte>)
    requires |PbLen(field, d)| < TWO63
    ensures Parse(PbLen(field, d)) == Done(map[field := PbBytes(d)], |PbLen(field, d)|) <==> 0 <= field <= 15
  {
    hide Parse, Encode;
    var m := map[field := PbBytes(d)];
    assert field in m;
    if (field * 8 + 2) % 256 < 128 {
      ShortTag(field, d);
      assert field % 32 in map[field % 32 := PbBytes(d)];
    } else {
      LongTag((field * 8 + 2) % 256, |d|, d);
      assert |m[field].b| == |d|;
    }
  }

  /** The first field number that is lost. */
  lemma FieldSixteenIsLost(d: seq<byte>)
    requires |PbLen(16, d)| < TWO63
    ensures Parse(PbLen(16, d)) != Done(map[16 := PbBytes(d)], |PbLen(16, d)|)
  {
    hide Parse, PbLen;
    PbLenDomain(16, d);
  }

  /** With the continuation bit set, the tag swallows the length and the payload is parsed as fields. */
  lemma LongTag(tag: byte, n: uint64, d: seq<byte>)
    requires tag >= 128 && |[tag] + Encode(n) + d| < TWO63
    ensures var r := Parse([tag] + Encode(n) + d); r.Done? ==> Shorter(r.value, |d|)
  {
    var data := [tag] + Encode(n) + d;
    EncodeShape(n);
    var e := |Encode(n)|;
    forall k | 0 <= k < e ensures data[k] >= 128 {
      if k > 0 { assert data[k] == Encode(n)[k - 1]; }
    }
    assert data[e] == Encode(n)[e - 1];
    TerminatorUnique(data, 0, e);
    hide Encode, Terminator;
    match ReadField(data, 0)
    case Stop =>
    case Crash =>
    case VarintField(k, v, next) => ValuesAreShorter(data, next, map[k := PbInt(SignedOf(v))], |d|);
    case BytesField(k, raw, next) => ValuesAreShorter(data, next, map[k := PbBytes(raw)], |d|);
  }

  // ---- protobufToMap ---------------------------------------------------------------------

  /** A decoded value. Hex stands for the {"__bytes__": hex} object. */
  datatype Tree = Num(n: uint64) | Text(s: seq<byte>) | Hex(b: seq<byte>) | Sub(fields: map<int, Tree>)

  predicate PlainByte(b: byte) {
    b == 9 || b == 10 || b == 13 || 32 <= b < 127
  }

  /** isPrintableShort on a valid UTF-8 string: a rune passes exactly when it is one plain byte. */
  predicate PrintableShort(s: seq<byte>) {
    || (|s| > 0 && s[0] == 0x7b)
    || (|s| < 200 && forall k :: 0 <= k < |s| ==> PlainByte(s[k]))
  }

  /** The loop over the runes of a valid UTF-8 string. A rune that is not a plain byte starts with a byte
      that is not plain, so going byte by byte sees the same. */
  method IsPrintableShort(s: seq<byte>) returns (ok: bool)
    ensures ok == PrintableShort(s)
  {
    if |s| > 0 && s[0] == 0x7b { return true; }
    if |s| >= 200 { return false; }
    for i := 0 to |s|
      invariant forall k :: 0 <= k < i ==> PlainByte(s[k])
    {
      if s[i] == 9 || s[i] == 10 || s[i] == 13 { continue; }
      if s[i] < 32 || s[i] >= 127 { return false; }
    }
    return true;
  }

  /** How a byte string is shown; None is a panic in a nested call. */
  function Render(utf8Valid: seq<byte> -> bool, raw: seq<byte>): Option<Tree>
    requires |raw| < TWO63
    decreases |raw|, 1
  {
    if utf8Valid(raw) then Some(if PrintableShort(raw) then Text(raw) else Hex(raw))
    else match ToMapFrom(utf8Valid, raw, 0, map[])
         case SlicePanic => None
         case Done(sub, _) => Some(if |sub| > 0 then Sub(sub) else Hex(raw))
  }

  function ToMapFrom(utf8Valid: seq<byte> -> bool, data: seq<byte>, i: nat,
                     out: map<int, Tree>): Outcome<map<int, Tree>>
    requires i <= |data| < TWO63
    decreases |data| - i, 0
  {
    if i == |data| then Done(out, i)
    else match ReadField(data, i)
         case Stop => Done(out, i)
         case Crash => SlicePanic
         case VarintField(k, n, next) => ToMapFrom(utf8Valid, data, next, out[k := Num(n)])
         case BytesField(k, raw, next) =>
           match Render(utf8Valid, raw)
           case None => SlicePanic
           case Some(t) => ToMapFrom(utf8Valid, data, next, out[k := t])
  }

  function ToMap(utf8Valid: seq<byte> -> bool, data: seq<byte>): Outcome<map<int, Tree>>
    requires |data| < TWO63
  {
    ToMapFrom(utf8Valid, data, 0, map[])
  }

  method ProtobufToMap(utf8Valid: seq<byte> -> bool, data: seq<byte>) returns (r: Outcome<map<int, Tree>>)
    requires |data| < TWO63
    ensures r == ToMap(utf8Valid, data)
    decreases |data|
  {
    hide Decode;
    var out: map<int, Tree> := map[];
    var i := 0;
    while i < |data|
      invariant 0 <= i <= |data|
      invariant ToMapFrom(utf8Valid, data, i, out) == ToMap(utf8Valid, data)
      decreases |data| - i
    {
      var at := i;
      var t := ReadVarint(data, i);
      if t.Failed? { break; }
      i := t.next;
      var fn, wt := t.value / 8, t.value % 8;
      if wt == 0 {
        var v := ReadVarint(data, i);
        if v.Failed? { return Done(out, at); }
        i := v.next;
        out := out[fn := Num(v.value)];
      } else if wt == 2 {
        var ln := ReadVarint(data, i);
        if ln.Failed? { return Done(out, at); }
        i := ln.next;
        var end := WrapAdd(i, SignedOf(ln.value));
        if end > |data| { return Done(out, at); }
        if end < i { return SlicePanic; }
        var raw := data[i..end];
        i := end;
        if utf8Valid(raw) {
          var printable := IsPrintableShort(raw);
          out := out[fn := if printable then Text(raw) else Hex(raw)];
        } else {
          var sub := ProtobufToMap(utf8Valid, raw);
          if sub.SlicePanic? { return SlicePanic; }
          out := out[fn := if |sub.value| > 0 then Sub(sub.value) else Hex(raw)];
        }
      } else {
        return Done(out, at);
      }
    }
    return Done(out, i);
  }

  /** t is what protobufToMap shows for the pbParse value v: a number as it is; a byte string as text if
      it is short printable UTF-8 and in hex if it is UTF-8 but not that; and otherwise as the message it
      parses to, or in hex if that has no field. */
  predicate Shows(utf8Valid: seq<byte> -> bool, v: PbValue, t: Tree)
    decreases t
  {
    match t
    case Num(n) => v.PbInt? && n == UnsignedOf(v.v)
    case Text(s) => v.PbBytes? && s == v.b && utf8Valid(s) && PrintableShort(s)
    case Hex(s) =>
      && v.PbBytes? && s == v.b && |s| < TWO63
      && if utf8Valid(s) then !PrintableShort(s) else Parse(s).Done? && Parse(s).value == map[]
    case Sub(fields) =>
      && v.PbBytes? && |v.b| < TWO63 && !utf8Valid(v.b) && Parse(v.b).Done?
      && |fields| > 0 && fields.Keys == Parse(v.b).value.Keys
      && forall k :: k in fields ==> Shows(utf8Valid, Parse(v.b).value[k], fields[k])
  }

  predicate Agree(utf8Valid: seq<byte> -> bool, p: map<int, PbValue>, t: map<int, Tree>) {
    p.Keys == t.Keys && forall k :: k in p ==> Shows(utf8Valid, p[k], t[k])
  }

  /** The byte strings read from offset i on before the parse ends, overwritten ones included. */
  function Payloads(data: seq<byte>, i: nat): (r: seq<seq<byte>>)
    requires i <= |data| < TWO63
    ensures forall raw :: raw in r ==> |raw| + 2 <= |data| - i
    decreases |data| - i
  {
    if i == |data| then []
    else match ReadField(data, i)
         case VarintField(_, _, next) => Payloads(data, next)
         case BytesField(_, raw, next) => [raw] + Payloads(data, next)
         case _ => []
  }

  /** A length that wraps is met in data itself or, before the parse of data ends, in a byte string that
      is not UTF-8, at any depth. */
  predicate Wraps(utf8Valid: seq<byte> -> bool, data: seq<byte>)
    requires |data| < TWO63
    decreases |data|
  {
    Parse(data).SlicePanic? || exists raw :: raw in Payloads(data, 0) && !utf8Valid(raw) && Wraps(utf8Valid, raw)
  }

  /** The same, for the rest of data. */
  predicate WrapsFrom(utf8Valid: seq<byte> -> bool, data: seq<byte>, i: nat, p: map<int, PbValue>)
    requires i <= |data| < TWO63
  {
    || ParseFrom(data, i, p).SlicePanic?
    || exists raw :: raw in Payloads(data, i) && !utf8Valid(raw) && Wraps(utf8Valid, raw)
  }

  lemma {:induction false} AgreeFrom(utf8Valid: seq<byte> -> bool, data: seq<byte>, i: nat,
                                     p: map<int, PbValue>, t: map<int, Tree>)
    requires i <= |data| < TWO63
    requires Agree(utf8Valid, p, t)
    ensures var pr, tr := ParseFrom(data, i, p), ToMapFrom(utf8Valid, data, i, t);
            && (tr.SlicePanic? <==> WrapsFrom(utf8Valid, data, i, p))
            && (tr.Done? ==> pr.Done? && tr.stop == pr.stop && Agree(utf8Valid, pr.value, tr.value))
    decreases |data| - i, 0
  {
    hide Render, Decode, Wraps, Shows;
    if i < |data| {
      match ReadField(data, i)
      case Stop =>
      case Crash =>
      case VarintField(k, n, next) =>
        assert Shows(utf8Valid, PbInt(SignedOf(n)), Num(n)) by { NumberShows(utf8Valid, n); }
        AgreeFrom(utf8Valid, data, next, p[k := PbInt(SignedOf(n))], t[k := Num(n)]);
      case BytesField(k, raw, next) =>
        assert Payloads(data, i) == [raw] + Payloads(data, next);
        RenderPanics(utf8Valid, raw);
        match Render(utf8Valid, raw) {
          case None => assert raw in Payloads(data, i);
          case Some(tree) =>
            AgreeFrom(utf8Valid, data, next, p[k := PbBytes(raw)], t[k := tree]);
        }
    }
  }

  lemma NumberShows(utf8Valid: seq<byte> -> bool, n: uint64)
    ensures Shows(utf8Valid, PbInt(SignedOf(n)), Num(n))
  {
  }

  lemma {:induction false} RenderPanics(utf8Valid: seq<byte> -> bool, raw: seq<byte>)
    requires |raw| < TWO63
    ensures Render(utf8Valid, raw).None? <==> !utf8Valid(raw) && Wraps(utf8Valid, raw)
    ensures Render(utf8Valid, raw).Some? ==> Shows(utf8Valid, PbBytes(raw), Render(utf8Valid, raw).value)
    decreases |raw|, 1
  {
    if !utf8Valid(raw) {
      hide ToMapFrom;
      AgreeFrom(utf8Valid, raw, 0, map[], map[]);
      var sub := ToMapFrom(utf8Valid, raw, 0, map[]);
      if sub.Done? {
        assert Agree(utf8Valid, Parse(raw).value, sub.value);
        assert |sub.value| == 0 <==> sub.value == map[];
        assert sub.value == map[] <==> Parse(raw).value == map[];
      }
    }
  }

  /** protobufToMap panics exactly on a wrapping length at any depth it looks at; otherwise the two
      parsers read the same fields, varints and byte strings and stop at the same place. */
  lemma ToMapAgreesWithParse(utf8Valid: seq<byte> -> bool, data: seq<byte>)
    requires |data| < TWO63
    ensures var p, t := Parse(data), ToMap(utf8Valid, data);
            && (t.SlicePanic? <==> Wraps(utf8Valid, data))
            && (t.Done? ==> p.Done? && t.stop == p.stop && Agree(utf8Valid, p.value, t.value))
  {
    hide Render, ReadField;
    AgreeFrom(utf8Valid, data, 0, map[], map[]);
  }

  const WRAPPING: seq<byte> := [0x0a, 0xff, 0xff, 0xff, 0xff, 0xff, 0xff, 0xff, 0xff, 0xff, 0x01]

  /** Nine bytes of seven ones each, then the last bit. */
  lemma {:induction false} EncodeOnes(k: nat, n: nat)
    requires n + 1 == Pow2(7 * k + 1)
    ensures |Encode(n)| == k + 1 && Encode(n)[k] == 1
    ensures forall j :: 0 <= j < k ==> Encode(n)[j] == 0xff
    decreases k
  {
    if k == 0 {
      assert Pow2(1) == 2 * Pow2(0);
      OneByte(1);
    } else {
      Pow2Times128(7 * (k - 1) + 1);
      var m := n / 128;
      assert n == 128 * m + 127;
      EncodeOnes(k - 1, m);
      assert Encode(n) == [0xff] + Encode(m);
    }
  }

  lemma EncodeMax()
    ensures WRAPPING == [0x0a] + Encode(TWO64 - 1)
  {
    hide Encode;
    Pow2Is63();
    assert Pow2(64) == 2 * Pow2(63);
    EncodeOnes(9, TWO64 - 1);
    var e := Encode(TWO64 - 1);
    assert WRAPPING[1..] == e;
  }

  /** A byte string whose length is -1: pbParse panics on it. */
  lemma WrappingLengthPanics()
    ensures Parse(WRAPPING).SlicePanic?
  {
    hide Decode, Encode;
    EncodeMax();
    var n := TWO64 - 1;
    assert [] + ([0x0a] + Encode(n)) + [] == WRAPPING;
    TagAndVarint([], 0x0a, n, []);
    assert ReadField(WRAPPING, 0) == Crash;
  }

  /** Inside a message it is read by pbParse as bytes, while protobufToMap goes into it and panics. */
  lemma NestedWrapPanics(utf8Valid: seq<byte> -> bool)
    requires !utf8Valid(WRAPPING)
    ensures Parse(PbLen(1, WRAPPING)) == Done(map[1 := PbBytes(WRAPPING)], 13)
    ensures ToMap(utf8Valid, PbLen(1, WRAPPING)).SlicePanic?
  {
    hide Parse, ToMap, ReadField, Encode;
    var data := PbLen(1, WRAPPING);
    OneByte(11);
    ParseOne(1, WRAPPING);
    WrappingLengthPanics();
    ToMapAgreesWithParse(utf8Valid, data);
    assert [] + data + [] == data;
    ReadBackLen([], 1, WRAPPING, []);
    PayloadFirst(data, WRAPPING, 13);
  }

  lemma PayloadFirst(data: seq<byte>, raw: seq<byte>, next: nat)
    requires 0 < |data| < TWO63 && ReadField(data, 0) == BytesField(1, raw, next)
    ensures raw in Payloads(data, 0)
  {
    hide ReadField;
  }
}

/** The self-describing wpkg header of internal/protocol/ilink.go: wpkgHead and decodeWpkgHead. */
module Wpkg {
  import opened Bytes
  import opened Varint

  type Ints = map<int64, uint64>
  type Byts = map<int64, seq<byte>>

  datatype Head = Head(ints: Ints, byts: Byts, length: nat)

  // ---- Keys in order ---------------------------------------------------------------------

  ghost predicate Lists(ks: seq<int64>, keys: set<int64>) {
    && (forall k :: k in ks <==> k in keys)
    && (forall i, j :: 0 <= i < j < |ks| ==> ks[i] != ks[j])
  }

  ghost predicate Sorted(ks: seq<int64>) {
    forall i, j :: 0 <= i < j < |ks| ==> ks[i] < ks[j]
  }

  lemma {:induction false} SortedIsUnique(a: seq<int64>, b: seq<int64>)
    requires Sorted(a) && Sorted(b) && (forall k :: k in a <==> k in b)
    ensures a == b
    decreases |a|
  {
    if |b| > 0 { assert b[0] in a; }
    if |a| > 0 {
      assert a[0] in b;
      assert a[0] == b[0];
      var a', b' := a[1..], b[1..];
      forall k ensures k in a' <==> k in b' {
        assert k in a' <==> k in a && k != a[0];
        assert k in b' <==> k in b && k != b[0];
      }
      SortedIsUnique(a', b');
      assert a == [a[0]] + a' && b == [b[0]] + b';
    }
  }

  /** The keys of a map, collected in whatever order the map yields them, then sorted. */
  method SortedKeys(keys: set<int64>) returns (ks: seq<int64>)
    ensures Sorted(ks) && Lists(ks, keys)
  {
    ks := [];
    var left := keys;
    while left != {}
      invariant left <= keys
      invariant Sorted(ks) && forall k :: k in ks <==> k in keys - left
      decreases left
    {
      var k :| k in left;
      ks := InsertSorted(ks, k);
      left := left - {k};
    }
  }

  method InsertSorted(ks: seq<int64>, k: int64) returns (r: seq<int64>)
    requires Sorted(ks) && k !in ks
    ensures Sorted(r) && forall x :: x in r <==> x in ks || x == k
  {
    var i := 0;
    while i < |ks| && ks[i] < k
      invariant 0 <= i <= |ks|
      invariant forall j :: 0 <= j < i ==> ks[j] < k
    {
      i := i + 1;
    }
    r := ks[..i] + [k] + ks[i..];
    assert forall j :: i <= j < |ks| ==> k < ks[j];
    assert ks == ks[..i] + ks[i..];
  }

  // ---- Encoding --------------------------------------------------------------------------

  function IntField(k: int64, v: uint64): seq<byte> {
    Encode(UnsignedOf(k)) + Encode(v)
  }

  function BytsField(k: int64, v: seq<byte>): seq<byte> {
    Encode(UnsignedOf(k)) + Encode(|v|) + v
  }

  function IntsBytes(ks: seq<int64>, ints: Ints): seq<byte>
    requires forall k :: k in ks ==> k in ints
  {
    if |ks| == 0 then [] else IntField(ks[0], ints[ks[0]]) + IntsBytes(ks[1..], ints)
  }

  function BytsBytes(ks: seq<int64>, byts: Byts): seq<byte>
    requires forall k :: k in ks ==> k in byts
  {
    if |ks| == 0 then [] else BytsField(ks[0], byts[ks[0]]) + BytsBytes(ks[1..], byts)
  }

  /** Everything before the closing zero and the trailing offset. */
  function Prefix(iks: seq<int64>, ints: Ints, bks: seq<int64>, byts: Byts): seq<byte>
    requires forall k :: k in iks ==> k in ints
    requires forall k :: k in bks ==> k in byts
  {
    [1] + IntsBytes(iks, ints) + [0] + BytsBytes(bks, byts)
  }

  /** The header with its fields written in the given key order. */
  function HeadInOrder(iks: seq<int64>, ints: Ints, bks: seq<int64>, byts: Byts): seq<byte>
    requires forall k :: k in iks ==> k in ints
    requires forall k :: k in bks ==> k in byts
  {
    var p := Prefix(iks, ints, bks, byts);
    p + [0] + Encode(|p| + 1)
  }

  ghost predicate IsHead(out: seq<byte>, ints: Ints, byts: Byts) {
    exists iks, bks :: Sorted(iks) && Lists(iks, ints.Keys) && Sorted(bks) && Lists(bks, byts.Keys)
                    && out == HeadInOrder(iks, ints, bks, byts)
  }

  /** Map iteration order does not reach the output. */
  lemma HeadIsUnique(a: seq<byte>, b: seq<byte>, ints: Ints, byts: Byts)
    requires IsHead(a, ints, byts) && IsHead(b, ints, byts)
    ensures a == b
  {
    var iks, bks :| Sorted(iks) && Lists(iks, ints.Keys) && Sorted(bks) && Lists(bks, byts.Keys)
                 && a == HeadInOrder(iks, ints, bks, byts);
    var iks', bks' :| Sorted(iks') && Lists(iks', ints.Keys) && Sorted(bks') && Lists(bks', byts.Keys)
                 && b == HeadInOrder(iks', ints, bks', byts);
    SortedIsUnique(iks, iks');
    SortedIsUnique(bks, bks');
  }

  lemma {:induction false} IntsSnoc(ks: seq<int64>, n: nat, ints: Ints)
    requires n < |ks| && forall k :: k in ks ==> k in ints
    ensures IntsBytes(ks[..n + 1], ints) == IntsBytes(ks[..n], ints) + IntField(ks[n], ints[ks[n]])
    decreases |ks|
  {
    hide IntField;
    if n > 0 {
      assert ks[..n + 1][1..] == ks[1..][..n] && ks[..n][1..] == ks[1..][..n - 1];
      IntsSnoc(ks[1..], n - 1, ints);
    }
  }

  lemma {:induction false} BytsSnoc(ks: seq<int64>, n: nat, byts: Byts)
    requires n < |ks| && forall k :: k in ks ==> k in byts
    ensures BytsBytes(ks[..n + 1], byts) == BytsBytes(ks[..n], byts) + BytsField(ks[n], byts[ks[n]])
    decreases |ks|
  {
    hide BytsField;
    if n > 0 {
      assert ks[..n + 1][1..] == ks[1..][..n] && ks[..n][1..] == ks[1..][..n - 1];
      BytsSnoc(ks[1..], n - 1, byts);
    }
  }

  method WriteInts(keys: seq<int64>, ints: Ints) returns (out: seq<byte>)
    requires forall k :: k in keys ==> k in ints
    ensures out == IntsBytes(keys, ints)
  {
    out := [];
    var i := 0;
    while i < |keys|
      invariant 0 <= i <= |keys|
      invariant out == IntsBytes(keys[..i], ints)
    {
      var k := keys[i];
      var kb := WriteVarint(UnsignedOf(k));
      var vb := WriteVarint(ints[k]);
      IntsSnoc(keys, i, ints);
      hide *;
      IntFieldIs(k, ints[k]);
      Assoc(out, kb, vb);
      out := out + kb + vb;
      i := i + 1;
    }
    assert keys[..|keys|] == keys;
  }

  method WriteByts(keys: seq<int64>, byts: Byts) returns (out: seq<byte>)
    requires forall k :: k in keys ==> k in byts && |byts[k]| < TWO63
    ensures out == BytsBytes(keys, byts)
  {
    out := [];
    var i := 0;
    while i < |keys|
      invariant 0 <= i <= |keys|
      invariant out == BytsBytes(keys[..i], byts)
    {
      var k := keys[i];
      var v := byts[k];
      var kb := WriteVarint(UnsignedOf(k));
      var lb := WriteVarint(|v|);
      BytsSnoc(keys, i, byts);
      hide *;
      BytsFieldIs(k, v);
      Assoc(out, kb + lb, v);
      Assoc(out, kb, lb);
      out := out + kb + lb + v;
      i := i + 1;
    }
    assert keys[..|keys|] == keys;
  }

  method WpkgHead(ints: Ints, byts: Byts) returns (out: seq<byte>)
    requires forall k :: k in byts ==> |byts[k]| < TWO63
    ensures |out| < TWO63 ==> IsHead(out, ints, byts)
  {
    hide IntsBytes, BytsBytes, Encode;
    out := WriteVarint(1);
    OneByte(1);
    var keys := SortedKeys(ints.Keys);
    var fields := WriteInts(keys, ints);
    out := out + fields;
    var zero := WriteVarint(0);
    OneByte(0);
    out := out + zero;
    var bkeys := SortedKeys(byts.Keys);
    fields := WriteByts(bkeys, byts);
    out := out + fields;
    assert out == Prefix(keys, ints, bkeys, byts);
    var prefixLen := |out|;
    out := out + [0];
    var trailer := WriteVarint((prefixLen + 1) % TWO64);
    out := out + trailer;
    assert |out| < TWO63 ==> out == HeadInOrder(keys, ints, bkeys, byts);
  }

  lemma IntFieldIs(k: int64, v: uint64)
    ensures IntField(k, v) == Encode(UnsignedOf(k)) + Encode(v)
  {
  }

  lemma BytsFieldIs(k: int64, v: seq<byte>)
    ensures BytsField(k, v) == Encode(UnsignedOf(k)) + Encode(|v|) + v
  {
  }

  // ---- Decoding --------------------------------------------------------------------------

  datatype Section<T> = Section(fields: T, next: nat)

  function IntsFrom(data: seq<byte>, i: nat, acc: Ints): (r: Parse<Section<Ints>>)
    requires i <= |data| < TWO63
    ensures r.Good? ==> i < r.value.next <= |data|
    decreases |data| - i
  {
    match Decode(data, i)
    case Failed(_) => Bad
    case Read(fn, ni) =>
      if fn == 0 then Good(Section(acc, ni))
      else match Decode(data, ni)
           case Failed(_) => Bad
           case Read(v, nj) => IntsFrom(data, nj, acc[SignedOf(fn) := v])
  }

  function BytsFrom(data: seq<byte>, i: nat, acc: Byts): (r: Parse<Section<Byts>>)
    requires i <= |data| < TWO63
    ensures r.Good? ==> i < r.value.next <= |data|
    decreases |data| - i
  {
    match Decode(data, i)
    case Failed(_) => Bad
    case Read(fn, ni) =>
      if fn == 0 then Good(Section(acc, ni))
      else match Decode(data, ni)
           case Failed(_) => Bad
           case Read(ln, nj) =>
             var end := WrapAdd(nj, SignedOf(ln));
             if end > |data| then Bad
             else if end < nj then Panic
             else BytsFrom(data, end, acc[SignedOf(fn) := data[nj..end]])
  }

  function ParseHead(data: seq<byte>): (r: Parse<Head>)
    requires |data| < TWO63
    ensures r.Good? ==> 0 < r.value.length <= |data|
  {
    match Decode(data, 0)
    case Failed(_) => Bad
    case Read(_, i) =>
      match IntsFrom(data, i, map[])
      case Bad => Bad
      case Panic => Panic
      case Good(Section(ints, j)) =>
        match BytsFrom(data, j, map[])
        case Bad => Bad
        case Panic => Panic
        case Good(Section(byts, k)) =>
          match Decode(data, k)
          case Failed(_) => Bad
          case Read(_, n) => Good(Head(ints, byts, n))
  }

  method DecodeWpkgHead(data: seq<byte>) returns (r: Parse<Head>)
    requires |data| < TWO63
    ensures r == ParseHead(data)
  {
    hide Decode;
    var version := ReadVarint(data, 0);
    if version.Failed? { return Bad; }
    var i := version.next;
    var ints: Ints := map[];
    while true
      invariant version.next <= i <= |data|
      invariant IntsFrom(data, i, ints) == IntsFrom(data, version.next, map[])
      decreases |data| - i
    {
      var fn := ReadVarint(data, i);
      if fn.Failed? { return Bad; }
      i := fn.next;
      if fn.value == 0 { break; }
      var v := ReadVarint(data, i);
      if v.Failed? { return Bad; }
      i := v.next;
      ints := ints[SignedOf(fn.value) := v.value];
    }
    ghost var j := i;
    assert IntsFrom(data, version.next, map[]) == Good(Section(ints, j));
    var byts: Byts := map[];
    while true
      invariant j <= i <= |data|
      invariant BytsFrom(data, i, byts) == BytsFrom(data, j, map[])
      decreases |data| - i
    {
      var fn := ReadVarint(data, i);
      if fn.Failed? { return Bad; }
      i := fn.next;
      if fn.value == 0 { break; }
      var ln := ReadVarint(data, i);
      if ln.Failed? { return Bad; }
      i := ln.next;
      var end := WrapAdd(i, SignedOf(ln.value));
      if end > |data| { return Bad; }
      if end < i { return Panic; }
      byts := byts[SignedOf(fn.value) := data[i..end]];
      i := end;
    }
    var last := ReadVarint(data, i);
    if last.Failed? { return Bad; }
    return Good(Head(ints, byts, last.next));
  }

  // ---- Round trip ------------------------------------------------------------------------

  function InsertInts(acc: Ints, ks: seq<int64>, ints: Ints): Ints
    requires forall k :: k in ks ==> k in ints
    decreases |ks|
  {
    if |ks| == 0 then acc else InsertInts(acc[ks[0] := ints[ks[0]]], ks[1..], ints)
  }

  function InsertByts(acc: Byts, ks: seq<int64>, byts: Byts): Byts
    requires forall k :: k in ks ==> k in byts
    decreases |ks|
  {
    if |ks| == 0 then acc else InsertByts(acc[ks[0] := byts[ks[0]]], ks[1..], byts)
  }

  lemma {:induction false} InsertIntsAll(acc: Ints, ks: seq<int64>, ints: Ints)
    requires forall k :: k in ks ==> k in ints
    requires forall k :: k in acc ==> k in ints && acc[k] == ints[k]
    ensures var r := InsertInts(acc, ks, ints);
            (forall k :: k in r <==> k in acc || k in ks) && (forall k :: k in r ==> k in ints && r[k] == ints[k])
    decreases |ks|
  {
    if |ks| > 0 {
      InsertIntsAll(acc[ks[0] := ints[ks[0]]], ks[1..], ints);
      assert ks == [ks[0]] + ks[1..];
    }
  }

  lemma {:induction false} InsertBytsAll(acc: Byts, ks: seq<int64>, byts: Byts)
    requires forall k :: k in ks ==> k in byts
    requires forall k :: k in acc ==> k in byts && acc[k] == byts[k]
    ensures var r := InsertByts(acc, ks, byts);
            (forall k :: k in r <==> k in acc || k in ks) && (forall k :: k in r ==> k in byts && r[k] == byts[k])
    decreases |ks|
  {
    if |ks| > 0 {
      InsertBytsAll(acc[ks[0] := byts[ks[0]]], ks[1..], byts);
      assert ks == [ks[0]] + ks[1..];
    }
  }

  lemma ReadTwo(pre: seq<byte>, a: uint64, b: uint64, more: seq<byte>)
    ensures var data := pre + (Encode(a) + Encode(b)) + more;
            && Decode(data, |pre|) == Read(a, |pre| + |Encode(a)|)
            && Decode(data, |pre| + |Encode(a)|) == Read(b, |pre| + |Encode(a) + Encode(b)|)
  {
    hide Decode, Encode;
    var data := pre + (Encode(a) + Encode(b)) + more;
    assert data == pre + Encode(a) + (Encode(b) + more);
    RoundTrip(pre, a, Encode(b) + more);
    assert data == (pre + Encode(a)) + Encode(b) + more;
    RoundTrip(pre + Encode(a), b, more);
  }

  lemma {:induction false} DecodeInts(pre: seq<byte>, ks: seq<int64>, ints: Ints, more: seq<byte>, acc: Ints)
    requires forall k :: k in ks ==> k in ints && k != 0
    requires |pre + IntsBytes(ks, ints) + ([0] + more)| < TWO63
    ensures IntsFrom(pre + IntsBytes(ks, ints) + ([0] + more), |pre|, acc)
         == Good(Section(InsertInts(acc, ks, ints), |pre| + |IntsBytes(ks, ints)| + 1))
    decreases |ks|
  {
    hide Decode, Encode;
    var data := pre + IntsBytes(ks, ints) + ([0] + more);
    if |ks| == 0 {
      OneByte(0);
      assert data == pre + Encode(0) + more;
      RoundTrip(pre, 0, more);
    } else {
      var k, f := ks[0], IntField(ks[0], ints[ks[0]]);
      var rest := IntsBytes(ks[1..], ints) + ([0] + more);
      assert data == pre + f + rest;
      ReadTwo(pre, UnsignedOf(k), ints[k], rest);
      assert data == (pre + f) + IntsBytes(ks[1..], ints) + ([0] + more);
      DecodeInts(pre + f, ks[1..], ints, more, acc[k := ints[k]]);
    }
  }

  lemma OneByts(pre: seq<byte>, k: int64, v: seq<byte>, rest: seq<byte>, acc: Byts)
    requires k != 0 && |pre + BytsField(k, v) + rest| < TWO63
    ensures var data := pre + BytsField(k, v) + rest;
            BytsFrom(data, |pre|, acc) == BytsFrom(data, |pre + BytsField(k, v)|, acc[k := v])
  {
    hide Decode, Encode;
    var data, at := pre + BytsField(k, v) + rest, pre + (Encode(UnsignedOf(k)) + Encode(|v|));
    assert data == at + (v + rest);
    ReadTwo(pre, UnsignedOf(k), |v|, v + rest);
    assert data == at + v + rest;
    Seams(at, v, rest);
  }

  lemma {:induction false} DecodeByts(pre: seq<byte>, ks: seq<int64>, byts: Byts, more: seq<byte>, acc: Byts)
    requires forall k :: k in ks ==> k in byts && k != 0
    requires |pre + BytsBytes(ks, byts) + ([0] + more)| < TWO63
    ensures BytsFrom(pre + BytsBytes(ks, byts) + ([0] + more), |pre|, acc)
         == Good(Section(InsertByts(acc, ks, byts), |pre| + |BytsBytes(ks, byts)| + 1))
    decreases |ks|
  {
    hide Decode, Encode;
    var data := pre + BytsBytes(ks, byts) + ([0] + more);
    if |ks| == 0 {
      OneByte(0);
      assert data == pre + Encode(0) + more;
      RoundTrip(pre, 0, more);
    } else {
      hide BytsField, BytsFrom;
      var k, v := ks[0], byts[ks[0]];
      var f, rest := BytsField(k, v), BytsBytes(ks[1..], byts) + ([0] + more);
      assert data == pre + f + rest;
      OneByts(pre, k, v, rest, acc);
      assert data == (pre + f) + BytsBytes(ks[1..], byts) + ([0] + more);
      DecodeByts(pre + f, ks[1..], byts, more, acc[k := v]);
    }
  }

  /** decodeWpkgHead undoes wpkgHead in whatever order the keys were written, before any suffix. */
  lemma HeadRoundTrip(iks: seq<int64>, ints: Ints, bks: seq<int64>, byts: Byts, rest: seq<byte>)
    requires Lists(iks, ints.Keys) && Lists(bks, byts.Keys)
    requires 0 !in ints && 0 !in byts
    requires |HeadInOrder(iks, ints, bks, byts) + rest| < TWO63
    ensures ParseHead(HeadInOrder(iks, ints, bks, byts) + rest)
         == Good(Head(ints, byts, |HeadInOrder(iks, ints, bks, byts)|))
    ensures var at := |Prefix(iks, ints, bks, byts)| + 1;
            Decode(HeadInOrder(iks, ints, bks, byts) + rest, at) == Read(at, |HeadInOrder(iks, ints, bks, byts)|)
  {
    hide Decode, Encode, IntsFrom, BytsFrom, IntsBytes, BytsBytes;
    var p, head := Prefix(iks, ints, bks, byts), HeadInOrder(iks, ints, bks, byts);
    var data, at := head + rest, |p| + 1;
    var ib, bb := IntsBytes(iks, ints), BytsBytes(bks, byts);
    var more2 := Encode(at) + rest;
    var more1 := bb + ([0] + more2);
    OneByte(1);
    assert data == [] + Encode(1) + (ib + ([0] + more1));
    RoundTrip([], 1, ib + ([0] + more1));
    assert data == [1] + ib + ([0] + more1);
    DecodeInts([1], iks, ints, more1, map[]);
    InsertIntsAll(map[], iks, ints);
    assert InsertInts(map[], iks, ints) == ints;
    var pre := [1] + ib + [0];
    assert data == pre + bb + ([0] + more2);
    DecodeByts(pre, bks, byts, more2, map[]);
    InsertBytsAll(map[], bks, byts);
    assert InsertByts(map[], bks, byts) == byts;
    assert data == (p + [0]) + Encode(at) + rest;
    RoundTrip(p + [0], at, rest);
  }

  lemma {:induction false} NoZeroInt(data: seq<byte>, i: nat, acc: Ints)
    requires i <= |data| < TWO63 && 0 !in acc
    ensures var r := IntsFrom(data, i, acc); r.Good? ==> 0 !in r.value.fields
    decreases |data| - i
  {
    hide Decode;
    var f := Decode(data, i);
    if f.Read? && f.value != 0 {
      var v := Decode(data, f.next);
      if v.Read? { NoZeroInt(data, v.next, acc[SignedOf(f.value) := v.value]); }
    }
  }

  lemma {:induction false} NoZeroByts(data: seq<byte>, i: nat, acc: Byts)
    requires i <= |data| < TWO63 && 0 !in acc
    ensures var r := BytsFrom(data, i, acc); r.Good? ==> 0 !in r.value.fields
    decreases |data| - i
  {
    hide Decode;
    var f := Decode(data, i);
    if f.Read? && f.value != 0 {
      var l := Decode(data, f.next);
      if l.Read? {
        var end := WrapAdd(l.next, SignedOf(l.value));
        if l.next <= end <= |data| { NoZeroByts(data, end, acc[SignedOf(f.value) := data[l.next..end]]); }
      }
    }
  }

  lemma NoZeroKey(data: seq<byte>)
    requires |data| < TWO63
    ensures var r := ParseHead(data); r.Good? ==> 0 !in r.value.ints && 0 !in r.value.byts
  {
    hide Decode, IntsFrom, BytsFrom;
    if Decode(data, 0).Read? {
      NoZeroInt(data, Decode(data, 0).next, map[]);
      var ints := IntsFrom(data, Decode(data, 0).next, map[]);
      if ints.Good? { NoZeroByts(data, ints.value.next, map[]); }
    }
  }

  /** decodeWpkgHead undoes wpkgHead exactly when no key is zero, which ends a section instead. */
  lemma DecodeUndoesHead(head: seq<byte>, ints: Ints, byts: Byts, rest: seq<byte>)
    requires IsHead(head, ints, byts) && |head + rest| < TWO63
    ensures ParseHead(head + rest) == Good(Head(ints, byts, |head|)) <==> 0 !in ints && 0 !in byts
  {
    hide ParseHead;
    NoZeroKey(head + rest);
    if 0 !in ints && 0 !in byts {
      var iks, bks :| Sorted(iks) && Lists(iks, ints.Keys) && Sorted(bks) && Lists(bks, byts.Keys)
                   && head == HeadInOrder(iks, ints, bks, byts);
      HeadRoundTrip(iks, ints, bks, byts, rest);
    }
  }

  /** The smallest header that is lost. */
  lemma ZeroKeyIsLost(head: seq<byte>, v: uint64)
    requires IsHead(head, map[0 := v], map[]) && |head| < TWO63
    ensures ParseHead(head) != Good(Head(map[0 := v], map[], |head|))
  {
    hide ParseHead, IsHead;
    var ints: Ints := map[0 := v];
    assert head + [] == head && 0 in ints;
    DecodeUndoesHead(head, ints, map[], []);
  }
}

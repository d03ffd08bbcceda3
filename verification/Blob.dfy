/** Storing a session as JSON and reading it back: internal/protocol/pool.go, toBlob and
    sessionFromBlob, over the json.Marshal and json.Unmarshal of internal/store/store.go. */
module Blob {
  import opened Bytes
  import opened Hex
  import opened Transfer
  import opened Client
  import opened Targets

  /** WmpfSession without CreatedAt, which is not stored. */
  datatype WmpfSession = WmpfSession(session: AppSession, psk: PskEntry, targets: seq<Target>, tcpProxy: string)

  /** The Go values involved. JSON turns every integer into a float64, here its integer value. */
  datatype Any = Int(n: int) | Float(x: int) | Str(s: string) | Arr(items: seq<Any>) | Obj(fields: map<string, Any>)

  // ---- float64 ---------------------------------------------------------------------------

  const TWO53: int := 0x20_0000_0000_0000

  /** The least k with n < 2^(53 + k): how many low bits a float64 drops. */
  function Extra(n: nat): nat {
    if n < TWO53 then 0 else 1 + Extra(n / 2)
  }

  /** Round to nearest, ties to even, at 53 significant bits. */
  function RoundNat(n: nat): int {
    var d := Pow2(Extra(n));
    var q, r := n / d, n % d;
    if 2 * r < d || (2 * r == d && q % 2 == 0) then q * d else (q + 1) * d
  }

  function Float64(n: int): int {
    if n < 0 then -RoundNat(-n) else RoundNat(n)
  }

  /** int64(x) for a float64; out of range it is the amd64 result. */
  function Int64OfFloat(x: int): int64 {
    if -TWO63 <= x < TWO63 then x else -TWO63
  }

  /** n survives the trip through float64: the bits dropped are zero. */
  predicate Exact(n: int) {
    var m := if n < 0 then -n else n;
    m % Pow2(Extra(m)) == 0
  }

  lemma RoundNatExact(m: nat)
    ensures RoundNat(m) == m <==> m % Pow2(Extra(m)) == 0
  {
    hide Pow2, Extra;
    var d := Pow2(Extra(m));
    var q, r := m / d, m % d;
    assert m == d * q + r;
    assert q * d == d * q && (q + 1) * d == d * q + d;
  }

  lemma ExactSurvives(n: int64)
    ensures Int64OfFloat(Float64(n)) == n <==> Exact(n)
  {
    hide RoundNat, Pow2, Extra;
    var m: int := if n < 0 then -(n as int) else n;
    RoundNatExact(m);
    if n == -TWO63 { MinIsExact(); }
  }

  lemma {:induction false} ExtraOfPower(k: nat)
    ensures Extra(TWO53 * Pow2(k)) == k + 1
  {
    if k > 0 {
      assert TWO53 * Pow2(k) == 2 * (TWO53 * Pow2(k - 1));
      ExtraOfPower(k - 1);
    }
  }

  lemma MinIsExact()
    ensures Exact(-TWO63)
  {
    assert Pow2(5) == 2 * Pow2(4) == 4 * Pow2(3) == 8 * Pow2(2) == 32;
    assert Pow2(10) == 2 * Pow2(9) == 4 * Pow2(8) == 8 * Pow2(7) == 16 * Pow2(6) == 32 * Pow2(5);
    assert Pow2(11) == 2 * Pow2(10) == 2048;
    assert TWO53 * Pow2(10) == TWO63;
    ExtraOfPower(10);
  }

  lemma SmallIsExact(n: int)
    requires -TWO53 <= n <= TWO53
    ensures Exact(n)
  {
    if n == TWO53 || n == -TWO53 {
      assert Extra(TWO53) == 1 + Extra(TWO53 / 2);
      assert Pow2(1) == 2;
    }
  }

  /** The first integer that does not survive. */
  lemma FirstInexact()
    ensures !Exact(TWO53 + 1) && Float64(TWO53 + 1) == TWO53
  {
    assert Extra(TWO53 + 1) == 1 + Extra((TWO53 + 1) / 2);
    assert Pow2(1) == 2;
  }

  // ---- JSON ------------------------------------------------------------------------------

  /** json.Marshal, then json.Unmarshal into a map[string]any. */
  function Reloaded(v: Any): Any {
    match v
    case Int(n) => Float(Float64(n))
    case Float(x) => Float(x)
    case Str(s) => Str(s)
    case Arr(items) => Arr(seq(|items|, i requires 0 <= i < |items| => Reloaded(items[i])))
    case Obj(fields) => Obj(map k | k in fields :: Reloaded(fields[k]))
  }

  // ---- toBlob ----------------------------------------------------------------------------

  function EncBytes(b: seq<byte>): Any {
    Obj(map["__bytes__" := Str(EncodeHex(b))])
  }

  function TargetsToAny(ts: seq<Target>): Any {
    Arr(seq(|ts|, i requires 0 <= i < |ts| => Arr([Str(ts[i].ip), Int(ts[i].port)])))
  }

  function SessionFields(s: AppSession): map<string, Any> {
    map["send_key" := EncBytes(s.sendKey), "recv_key" := EncBytes(s.recvKey), "f9" := EncBytes(s.f9),
        "uin" := Int(s.uin), "ticket" := EncBytes(s.ticket), "device_id" := EncBytes(s.deviceID),
        "host_appid" := EncBytes(s.hostAppID)]
  }

  function PskFields(p: PskEntry): map<string, Any> {
    map["psk_type" := Int(p.pskType), "pre_shared_key" := Str(p.preSharedKey), "ticket_entry" := Str(p.ticketEntry),
        "lifetime" := Int(p.lifetime), "expired_at" := Int(p.expiredAt)]
  }

  function BlobFields(st: WmpfSession): map<string, Any> {
    map["session" := Obj(SessionFields(st.session)), "psk_entry" := Obj(PskFields(st.psk)),
        "shortlink_targets" := TargetsToAny(st.targets), "tcp_proxy" := Str(st.tcpProxy)]
  }

  function ToBlob(st: WmpfSession): Any {
    Obj(BlobFields(st))
  }

  // ---- sessionFromBlob -------------------------------------------------------------------

  function Field(fields: map<string, Any>, k: string): Option<Any> {
    if k in fields then Some(fields[k]) else None
  }

  function StringAny(v: Option<Any>): string {
    if v.Some? && v.value.Str? then v.value.s else ""
  }

  function Int64FromAny(v: Option<Any>): int64 {
    match v
    case Some(Int(n)) => if -TWO63 <= n < TWO63 then n else 0
    case Some(Float(x)) => Int64OfFloat(x)
    case _ => 0
  }

  function DecBytes(v: Option<Any>): seq<byte> {
    match v
    case Some(Obj(m)) =>
      if "__bytes__" in m && m["__bytes__"].Str? then DecodeHex(m["__bytes__"].s).0 else []
    case Some(Str(s)) => StringBytes(s)
    case _ => []
  }

  function TargetsFromItems(items: seq<Any>): seq<Target> {
    if |items| == 0 then []
    else
      var rest := TargetsFromItems(items[1..]);
      if items[0].Arr? && |items[0].items| >= 2
      then [Target(StringAny(Some(items[0].items[0])), Int64FromAny(Some(items[0].items[1])))] + rest
      else rest
  }

  function TargetsFromAny(v: Option<Any>): seq<Target> {
    if v.Some? && v.value.Arr? then TargetsFromItems(v.value.items) else []
  }

  const DEFAULT_TARGETS: seq<Target> := [Target("120.241.131.173", 80)]

  function AppFromFields(sm: map<string, Any>): AppSession {
    AppSession(DecBytes(Field(sm, "send_key")), DecBytes(Field(sm, "recv_key")), DecBytes(Field(sm, "f9")),
               Int64FromAny(Field(sm, "uin")), DecBytes(Field(sm, "ticket")), DecBytes(Field(sm, "device_id")),
               DecBytes(Field(sm, "host_appid")))
  }

  function PskFromFields(pm: map<string, Any>): PskEntry {
    PskEntry(Int64FromAny(Field(pm, "psk_type")), StringAny(Field(pm, "pre_shared_key")),
             StringAny(Field(pm, "ticket_entry")), Int64FromAny(Field(pm, "lifetime")),
             Int64FromAny(Field(pm, "expired_at")))
  }

  predicate Complete(s: AppSession) {
    |s.sendKey| > 0 && |s.recvKey| > 0 && s.uin != 0
  }

  /** None is the returned error. */
  function SessionFromBlob(blob: Any): (r: Option<WmpfSession>)
    ensures r.Some? ==> Complete(r.value.session) && |r.value.targets| > 0
  {
    if !blob.Obj? then None
    else match (Field(blob.fields, "session"), Field(blob.fields, "psk_entry"))
         case (Some(Obj(sm)), Some(Obj(pm))) =>
           var app := AppFromFields(sm);
           var ts := TargetsFromAny(Field(blob.fields, "shortlink_targets"));
           if !Complete(app) then None
           else Some(WmpfSession(app, PskFromFields(pm), if |ts| == 0 then DEFAULT_TARGETS else ts,
                                 StringAny(Field(blob.fields, "tcp_proxy"))))
         case _ => None
  }

  // ---- Round trip ------------------------------------------------------------------------

  /** The fields fit Go's int64. */
  predicate Fits64(st: WmpfSession) {
    && IsInt64(st.psk.pskType) && IsInt64(st.psk.lifetime) && IsInt64(st.psk.expiredAt)
    && forall t :: t in st.targets ==> IsInt64(t.port)
  }

  predicate IsInt64(n: int) { -TWO63 <= n < TWO63 }

  /** All numbers survive float64. */
  predicate ExactNumbers(st: WmpfSession) {
    && Exact(st.session.uin) && Exact(st.psk.pskType) && Exact(st.psk.lifetime) && Exact(st.psk.expiredAt)
    && forall t :: t in st.targets ==> Exact(t.port)
  }

  function Store64(n: int): int64 { Int64OfFloat(Float64(n)) }

  lemma BytesSurvive(b: seq<byte>)
    ensures DecBytes(Some(Reloaded(EncBytes(b)))) == b
  {
    hide EncodeHex, DecodeHex;
    HexRoundTrip(b);
  }

  function StoredTargets(ts: seq<Target>): seq<Target> {
    if |ts| == 0 then [] else [Target(ts[0].ip, Store64(ts[0].port))] + StoredTargets(ts[1..])
  }

  lemma {:induction false} TargetsSurvive(ts: seq<Target>)
    ensures TargetsFromAny(Some(Reloaded(TargetsToAny(ts)))) == StoredTargets(ts)
    decreases |ts|
  {
    hide Float64, Int64OfFloat;
    var items := Reloaded(TargetsToAny(ts)).items;
    if |ts| > 0 {
      TargetsSurvive(ts[1..]);
      var rest := Reloaded(TargetsToAny(ts[1..])).items;
      forall k | 0 <= k < |rest| ensures items[k + 1] == rest[k] {
        assert TargetsToAny(ts).items[k + 1] == TargetsToAny(ts[1..]).items[k];
      }
      assert items[1..] == rest;
      TargetSurvives(ts[0]);
      assert items[0] == Reloaded(Arr([Str(ts[0].ip), Int(ts[0].port)]));
    }
  }

  lemma TargetSurvives(t: Target)
    ensures var v := Reloaded(Arr([Str(t.ip), Int(t.port)]));
            && v.Arr? && |v.items| == 2
            && v.items[0] == Str(t.ip) && v.items[1] == Float(Float64(t.port))
  {
    hide Float64;
    var items := [Str(t.ip), Int(t.port)];
    var v := Reloaded(Arr(items));
    assert v.items[0] == Reloaded(items[0]) && v.items[1] == Reloaded(items[1]);
  }

  lemma {:induction false} StoredTargetsExact(ts: seq<Target>)
    requires forall t :: t in ts ==> IsInt64(t.port)
    ensures StoredTargets(ts) == ts <==> forall t :: t in ts ==> Exact(t.port)
    decreases |ts|
  {
    hide Exact, Float64, Int64OfFloat;
    if |ts| > 0 {
      assert ts[0] in ts;
      ExactSurvives(ts[0].port);
      StoredTargetsExact(ts[1..]);
      assert ts == [ts[0]] + ts[1..];
      assert StoredTargets(ts)[1..] == StoredTargets(ts[1..]) && StoredTargets(ts)[0].port == Store64(ts[0].port);
    }
  }

  /** What comes back: every byte string and string as it was, every number through float64. */
  lemma BlobComesBack(st: WmpfSession)
    ensures SessionFromBlob(Reloaded(ToBlob(st))) ==
            var s := st.session.(uin := Store64(st.session.uin));
            var p := st.psk.(pskType := Store64(st.psk.pskType), lifetime := Store64(st.psk.lifetime),
                             expiredAt := Store64(st.psk.expiredAt));
            if !Complete(s) then None
            else Some(WmpfSession(s, p, if |st.targets| == 0 then DEFAULT_TARGETS else StoredTargets(st.targets),
                                  st.tcpProxy))
  {
    hide Float64, Int64OfFloat, Reloaded, TargetsFromAny, TargetsToAny, StoredTargets, SessionFields, PskFields,
         BlobFields, AppFromFields, PskFromFields, Field;
    var b := ReloadedFields(BlobFields(st));
    ReloadedIsFields(BlobFields(st));
    ReloadedIsFields(SessionFields(st.session));
    ReloadedIsFields(PskFields(st.psk));
    BlobFieldsAt(st);
    ReloadedAt(BlobFields(st), "session");
    ReloadedAt(BlobFields(st), "psk_entry");
    ReloadedAt(BlobFields(st), "shortlink_targets");
    ReloadedAt(BlobFields(st), "tcp_proxy");
    SessionSurvives(st.session);
    PskSurvives(st.psk);
    TargetsSurvive(st.targets);
    StoredLength(st.targets);
    assert Reloaded(Str(st.tcpProxy)) == Str(st.tcpProxy) by { ReloadedStr(st.tcpProxy); }
  }

  function ReloadedFields(m: map<string, Any>): map<string, Any> {
    map k | k in m :: Reloaded(m[k])
  }

  lemma ReloadedIsFields(m: map<string, Any>)
    ensures Reloaded(Obj(m)) == Obj(ReloadedFields(m))
  {
  }

  lemma ReloadedStr(s: string)
    ensures Reloaded(Str(s)) == Str(s)
  {
  }

  lemma ReloadedInt(n: int)
    ensures Reloaded(Int(n)) == Float(Float64(n))
  {
  }

  lemma ReloadedAt(m: map<string, Any>, k: string)
    ensures Field(ReloadedFields(m), k) == if k in m then Some(Reloaded(m[k])) else None
  {
    hide Reloaded;
  }

  lemma BlobFieldsAt(st: WmpfSession)
    ensures var m := BlobFields(st);
            && "session" in m && m["session"] == Obj(SessionFields(st.session))
            && "psk_entry" in m && m["psk_entry"] == Obj(PskFields(st.psk))
            && "shortlink_targets" in m && m["shortlink_targets"] == TargetsToAny(st.targets)
            && "tcp_proxy" in m && m["tcp_proxy"] == Str(st.tcpProxy)
  {
    hide SessionFields, PskFields, TargetsToAny;
  }

  lemma SessionFieldsAt(s: AppSession)
    ensures var m := SessionFields(s);
            && "send_key" in m && m["send_key"] == EncBytes(s.sendKey)
            && "recv_key" in m && m["recv_key"] == EncBytes(s.recvKey)
            && "f9" in m && m["f9"] == EncBytes(s.f9)
            && "uin" in m && m["uin"] == Int(s.uin)
            && "ticket" in m && m["ticket"] == EncBytes(s.ticket)
            && "device_id" in m && m["device_id"] == EncBytes(s.deviceID)
            && "host_appid" in m && m["host_appid"] == EncBytes(s.hostAppID)
  {
    hide EncBytes;
  }

  lemma PskFieldsAt(p: PskEntry)
    ensures var m := PskFields(p);
            && "psk_type" in m && m["psk_type"] == Int(p.pskType)
            && "pre_shared_key" in m && m["pre_shared_key"] == Str(p.preSharedKey)
            && "ticket_entry" in m && m["ticket_entry"] == Str(p.ticketEntry)
            && "lifetime" in m && m["lifetime"] == Int(p.lifetime)
            && "expired_at" in m && m["expired_at"] == Int(p.expiredAt)
  {
  }

  lemma SessionSurvives(s: AppSession)
    ensures AppFromFields(ReloadedFields(SessionFields(s))) == s.(uin := Store64(s.uin))
  {
    hide Float64, Int64OfFloat, Reloaded, SessionFields, ReloadedFields, DecBytes, EncBytes, Field;
    var m := SessionFields(s);
    SessionFieldsAt(s);
    ReloadedAt(m, "send_key"); BytesSurvive(s.sendKey);
    ReloadedAt(m, "recv_key"); BytesSurvive(s.recvKey);
    ReloadedAt(m, "f9"); BytesSurvive(s.f9);
    ReloadedAt(m, "uin"); ReloadedInt(s.uin);
    ReloadedAt(m, "ticket"); BytesSurvive(s.ticket);
    ReloadedAt(m, "device_id"); BytesSurvive(s.deviceID);
    ReloadedAt(m, "host_appid"); BytesSurvive(s.hostAppID);
  }

  lemma PskSurvives(p: PskEntry)
    ensures PskFromFields(ReloadedFields(PskFields(p)))
         == p.(pskType := Store64(p.pskType), lifetime := Store64(p.lifetime), expiredAt := Store64(p.expiredAt))
  {
    hide Float64, Int64OfFloat, Reloaded, PskFields, ReloadedFields, Field;
    var m := PskFields(p);
    PskFieldsAt(p);
    ReloadedAt(m, "psk_type"); ReloadedInt(p.pskType);
    ReloadedAt(m, "pre_shared_key"); ReloadedStr(p.preSharedKey);
    ReloadedAt(m, "ticket_entry"); ReloadedStr(p.ticketEntry);
    ReloadedAt(m, "lifetime"); ReloadedInt(p.lifetime);
    ReloadedAt(m, "expired_at"); ReloadedInt(p.expiredAt);
  }

  lemma {:induction false} StoredLength(ts: seq<Target>)
    ensures |StoredTargets(ts)| == |ts|
    decreases |ts|
  {
    if |ts| > 0 { StoredLength(ts[1..]); }
  }

  /** A stored session comes back unchanged exactly when its keys are non-empty, its UIN is not zero,
      it has a target, and float64 holds its numbers. */
  lemma BlobRoundTrip(st: WmpfSession)
    requires Fits64(st)
    ensures SessionFromBlob(Reloaded(ToBlob(st))) == Some(st)
       <==> Complete(st.session) && |st.targets| > 0 && ExactNumbers(st)
  {
    hide Float64, Int64OfFloat, Exact, StoredTargets, SessionFromBlob, Reloaded, ToBlob;
    BlobComesBack(st);
    ExactSurvives(st.session.uin);
    ExactSurvives(st.psk.pskType);
    ExactSurvives(st.psk.lifetime);
    ExactSurvives(st.psk.expiredAt);
    StoredTargetsExact(st.targets);
  }

  lemma {:induction false} ExtraFits(n: nat)
    requires n > 0
    ensures Pow2(Extra(n)) <= n
  {
    if n >= TWO53 { ExtraFits(n / 2); }
  }

  /** float64 rounds no integer other than zero to zero. */
  lemma StoreNonZero(n: int64)
    requires n != 0
    ensures Store64(n) != 0
  {
    hide Extra;
    var m: int := if n < 0 then -(n as int) else n;
    ExtraFits(m);
    var d := Pow2(Extra(m));
    var q, r := m / d, m % d;
    assert q >= 1;
    assert q * d >= d && (q + 1) * d >= d by { Bigger(q, d); Bigger(q + 1, d); }
  }

  lemma Bigger(q: int, d: int)
    requires q >= 1 && d >= 0
    ensures q * d >= d
  {
  }

  /** Whatever else float64 does to a session, it decodes, for the same proxy, with the same keys and
      the same PSK expiry. */
  lemma StoredDecodes(st: WmpfSession)
    requires Complete(st.session) && -TWO53 <= st.psk.expiredAt <= TWO53
    ensures var r := SessionFromBlob(Reloaded(ToBlob(st)));
            && r.Some?
            && r.value.tcpProxy == st.tcpProxy
            && r.value.psk.expiredAt == st.psk.expiredAt
            && r.value.psk.preSharedKey == st.psk.preSharedKey
            && r.value.session == st.session.(uin := Store64(st.session.uin))
  {
    hide RoundNat, Exact, StoredTargets, SessionFromBlob, Reloaded, ToBlob;
    BlobComesBack(st);
    StoreNonZero(st.session.uin);
    SmallIsExact(st.psk.expiredAt);
    ExactSurvives(st.psk.expiredAt);
  }
}

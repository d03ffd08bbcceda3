/** The session pool of internal/protocol/pool.go with the session table of internal/store/store.go,
    as a transition system: any number of callers of Pool.state, interleaved with the environment. */
module Pool {
  import opened Bytes
  import opened Client
  import opened Blob
  import opened LockName
  import opened Transport

  /** wellFormed is whether parseTCPProxy takes a proxy. */
  datatype Config = Config(maxLogins: nat, ttl: int, fallback: bool, wellFormed: string -> bool)

  /** born is the position in the log of the store that wrote the row. It is bookkeeping for the
      proofs, as are the log, the missed fields of a caller and the indices in a Result. */
  datatype Row = Row(blob: Any, expiresAt: int, born: nat)

  datatype Event =
    | Stored(key: Key, st: WmpfSession, expiresAt: int, dial: Dialled, missedFrom: nat, missedAt: int)
    | Invalidated(key: Key)
    | Deleted(account: int)

  /** What state returns. Fresh is a login's session, Cached a row's, read at log position readFrom. */
  datatype Result =
    | Fresh(st: WmpfSession, stored: nat)
    | Cached(st: WmpfSession, born: nat, readFrom: nat, readAt: int)
    | Failed

  /** Where a caller is in state. Each value is the point before the step of the same name. */
  datatype Pc =
    | Start
    | LookUp
    | WantLock
    | Reread
    | NeedAccount
    | Acquiring
    | LoggingIn
    | Stamping(st: WmpfSession, dial: Dialled)
    | Putting(st: WmpfSession, dial: Dialled, expiresAt: int)
    | Releasing(result: Result)
    | Unlocking(result: Result)
    | Done(result: Result)

  datatype Caller = Caller(key: Key, pc: Pc, lock: nat, missedFrom: nat, missedAt: int)

  datatype State = State(
    clock: int,
    accounts: set<int>,
    table: map<Key, Row>,
    locks: map<string, nat>,
    nextLock: nat,
    owner: map<nat, nat>,
    tokens: nat,
    callers: seq<Caller>,
    log: seq<Event>)

  // ---- Steps -----------------------------------------------------------------------------

  /** The first six are the environment's, the rest move caller i. dbOk is false when the database
      fails; GiveUp is a cancelled context; LogIn carries the outcome of loginAndSession and,
      if it succeeds, of the dial for the connection it used. */
  datatype Step =
    | Tick(d: nat)
    | Arrive(key: Key)
    | Invalidate(key: Key)
    | AddAccount(account: int)
    | DeleteAccount(account: int)
    | Purge
    | Read(i: nat, dbOk: bool)
    | FindLock(i: nat)
    | Lock(i: nat)
    | ReadAgain(i: nat, dbOk: bool)
    | ReadAccount(i: nat, dbOk: bool)
    | Acquire(i: nat)
    | GiveUp(i: nat)
    | LogIn(i: nat, outcome: Option<WmpfSession>, dial: Dialled)
    | Stamp(i: nat)
    | Put(i: nat, dbOk: bool)
    | Release(i: nat)
    | Unlock(i: nat)

  predicate Environment(t: Step) {
    t.Tick? || t.Arrive? || t.Invalidate? || t.AddAccount? || t.DeleteAccount? || t.Purge?
  }

  /** What loginAndSession returns for a key: extractSession rejects empty keys and a zero UIN, and
      pickAccessPSK an expired PSK. Its expiry is a present time plus a 32-bit lifetime. */
  predicate Issued(st: WmpfSession, key: Key) {
    && st.tcpProxy == key.proxy
    && Complete(st.session)
    && st.psk.pskType == 1
    && 0 < st.psk.expiredAt <= TWO53
  }

  /** A login that succeeded: over a connection dialTCP made, with a PSK that is still alive. */
  predicate LoggedIn(cfg: Config, key: Key, now: int, st: WmpfSession, dial: Dialled) {
    && Issued(st, key)
    && LiveAccess(st.psk, now)
    && Connects(key.proxy, cfg.wellFormed(key.proxy), cfg.fallback, dial)
  }

  predicate At(s: State, i: nat) { i < |s.callers| }

  predicate Enabled(cfg: Config, s: State, t: Step) {
    match t
    case Read(i, _) => At(s, i) && s.callers[i].pc.Start?
    case FindLock(i) => At(s, i) && s.callers[i].pc.LookUp?
    case Lock(i) => At(s, i) && s.callers[i].pc.WantLock? && s.callers[i].lock !in s.owner
    case ReadAgain(i, _) => At(s, i) && s.callers[i].pc.Reread?
    case ReadAccount(i, _) => At(s, i) && s.callers[i].pc.NeedAccount?
    case Acquire(i) => At(s, i) && s.callers[i].pc.Acquiring? && s.tokens < cfg.maxLogins
    case GiveUp(i) => At(s, i) && s.callers[i].pc.Acquiring?
    case LogIn(i, outcome, dial) =>
      At(s, i) && s.callers[i].pc.LoggingIn?
      && (outcome.Some? ==> LoggedIn(cfg, s.callers[i].key, s.clock, outcome.value, dial))
    case Stamp(i) => At(s, i) && s.callers[i].pc.Stamping?
    case Put(i, _) => At(s, i) && s.callers[i].pc.Putting?
    case Release(i) => At(s, i) && s.callers[i].pc.Releasing?
    case Unlock(i) => At(s, i) && s.callers[i].pc.Unlocking?
    case _ => true
  }

  /** store.GetSession, then sessionFromBlob; None is sql.ErrNoRows. */
  function ReadRow(s: State, key: Key, dbOk: bool): Option<Result> {
    if !dbOk then Some(Failed)
    else if key in s.table && s.table[key].expiresAt > s.clock then
      match SessionFromBlob(s.table[key].blob)
      case None => Some(Failed)
      case Some(st) => Some(Cached(st, s.table[key].born, |s.log|, s.clock))
    else None
  }

  /** The earlier of the PSK's expiry, where it has one, and the end of the TTL. */
  function SessionExpiresAt(st: WmpfSession, now: int, ttl: int): (r: int)
    ensures r <= now + ttl && (st.psk.expiredAt != 0 ==> r <= st.psk.expiredAt)
    ensures r == now + ttl || r == st.psk.expiredAt
  {
    if st.psk.expiredAt == 0 || st.psk.expiredAt > now + ttl then now + ttl else st.psk.expiredAt
  }

  /** lockFor: the mutex of the key's name, a new one on first use. */
  function LockFor(s: State, key: Key): nat {
    if NameOf(key) in s.locks then s.locks[NameOf(key)] else s.nextLock
  }

  /** PutSession stores unless the database fails or the foreign key finds no account. */
  predicate PutStores(s: State, t: Step)
    requires !Environment(t) && At(s, t.i)
  {
    t.Put? && t.dbOk && s.callers[t.i].key.account in s.accounts
  }

  /** The caller after its step: where state goes on, and what it has in hand. */
  function CallerAfter(cfg: Config, s: State, t: Step): Caller
    requires Enabled(cfg, s, t) && !Environment(t)
  {
    var c := s.callers[t.i];
    match t
    case Read(_, dbOk) =>
      (match ReadRow(s, c.key, dbOk)
       case Some(r) => c.(pc := Done(r))
       case None => c.(pc := LookUp))
    case FindLock(_) => c.(pc := WantLock, lock := LockFor(s, c.key))
    case Lock(_) => c.(pc := Reread)
    case ReadAgain(_, dbOk) =>
      (match ReadRow(s, c.key, dbOk)
       case Some(r) => c.(pc := Unlocking(r))
       case None => c.(pc := NeedAccount, missedFrom := |s.log|, missedAt := s.clock))
    case ReadAccount(_, dbOk) => c.(pc := if dbOk && c.key.account in s.accounts then Acquiring else Unlocking(Failed))
    case Acquire(_) => c.(pc := LoggingIn)
    case GiveUp(_) => c.(pc := Unlocking(Failed))
    case LogIn(_, outcome, dial) => c.(pc := if outcome.Some? then Stamping(outcome.value, dial) else Releasing(Failed))
    case Stamp(_) => c.(pc := Putting(c.pc.st, c.pc.dial, SessionExpiresAt(c.pc.st, s.clock, cfg.ttl)))
    case Put(_, _) => c.(pc := Releasing(if PutStores(s, t) then Fresh(c.pc.st, |s.log|) else Failed))
    case Release(_) => c.(pc := Unlocking(c.pc.result))
    case Unlock(_) => c.(pc := Done(c.pc.result))
  }

  /** A caller's step. The shared fields change only where it finds its lock, locks and unlocks it, takes
      and releases a token, which is taken out only if there is one, or stores. */
  function Own(cfg: Config, s: State, t: Step): State
    requires Enabled(cfg, s, t) && !Environment(t)
  {
    var c := s.callers[t.i];
    State(
      s.clock,
      s.accounts,
      if PutStores(s, t) then s.table[c.key := Row(Reloaded(ToBlob(c.pc.st)), c.pc.expiresAt, |s.log|)] else s.table,
      if t.FindLock? && NameOf(c.key) !in s.locks then s.locks[NameOf(c.key) := s.nextLock] else s.locks,
      if t.FindLock? && NameOf(c.key) !in s.locks then s.nextLock + 1 else s.nextLock,
      if t.Lock? then s.owner[c.lock := t.i] else if t.Unlock? then s.owner - {c.lock} else s.owner,
      if t.Acquire? then s.tokens + 1 else if t.Release? && s.tokens > 0 then s.tokens - 1 else s.tokens,
      s.callers[t.i := CallerAfter(cfg, s, t)],
      if PutStores(s, t)
      then s.log + [Stored(c.key, c.pc.st, c.pc.expiresAt, c.pc.dial, c.missedFrom, c.missedAt)]
      else s.log)
  }

  /** A step of the environment. */
  function Outside(s: State, t: Step): State
    requires Environment(t)
  {
    match t
    case Tick(d) => s.(clock := s.clock + d)
    case Arrive(key) => s.(callers := s.callers + [Caller(key, Start, 0, 0, 0)])
    case Invalidate(key) => s.(table := s.table - {key}, log := s.log + [Invalidated(key)])
    case AddAccount(id) => s.(accounts := s.accounts + {id})
    case DeleteAccount(id) =>
      s.(accounts := s.accounts - {id},
         table := map k | k in s.table && k.account != id :: s.table[k],
         log := s.log + [Deleted(id)])
    case Purge => s.(table := map k | k in s.table && s.table[k].expiresAt > s.clock :: s.table[k])
  }

  function Apply(cfg: Config, s: State, t: Step): State
    requires Enabled(cfg, s, t)
  {
    if Environment(t) then Outside(s, t) else Own(cfg, s, t)
  }

  function Next(cfg: Config, s: State, t: Step): State {
    if Enabled(cfg, s, t) then Apply(cfg, s, t) else s
  }

  /** A run is any list of steps; a step that is not enabled when its turn comes does nothing. */
  function Exec(cfg: Config, s: State, run: seq<Step>): State
    decreases |run|
  {
    if |run| == 0 then s else Next(cfg, Exec(cfg, s, run[..|run| - 1]), run[|run| - 1])
  }

  lemma ExecNone(cfg: Config, s: State)
    ensures Exec(cfg, s, []) == s
  {
  }

  lemma ExecSnoc(cfg: Config, s: State, run: seq<Step>, t: Step)
    ensures Exec(cfg, s, run + [t]) == Next(cfg, Exec(cfg, s, run), t)
  {
    hide Next;
    assert (run + [t])[..|run|] == run;
  }

  function Initial(clock: nat, accounts: set<int>): State {
    State(clock, accounts, map[], map[], 0, map[], 0, [], [])
  }

  // ---- Counting callers ------------------------------------------------------------------

  predicate HoldsLock(pc: Pc) {
    !pc.Start? && !pc.LookUp? && !pc.WantLock? && !pc.Done?
  }

  predicate HoldsToken(pc: Pc) {
    pc.LoggingIn? || pc.Stamping? || pc.Putting? || pc.Releasing?
  }

  function Token(pc: Pc): nat { if HoldsToken(pc) then 1 else 0 }

  /** How many steps a caller still has to take at most. */
  function Rank(pc: Pc): nat {
    match pc
    case Start => 11
    case LookUp => 10
    case WantLock => 9
    case Reread => 8
    case NeedAccount => 7
    case Acquiring => 6
    case LoggingIn => 5
    case Stamping(_, _) => 4
    case Putting(_, _, _) => 3
    case Releasing(_) => 2
    case Unlocking(_) => 1
    case Done(_) => 0
  }

  function Total(w: Pc -> nat, cs: seq<Caller>): nat {
    if |cs| == 0 then 0 else Total(w, cs[..|cs| - 1]) + w(cs[|cs| - 1].pc)
  }

  lemma {:induction false} TotalUpdate(w: Pc -> nat, cs: seq<Caller>, i: nat, c: Caller)
    requires i < |cs|
    ensures Total(w, cs[i := c]) == Total(w, cs) - w(cs[i].pc) + w(c.pc)
    ensures Total(w, cs) >= w(cs[i].pc)
    decreases |cs|
  {
    var n := |cs| - 1;
    if i < n {
      TotalUpdate(w, cs[..n], i, c);
      assert cs[i := c][..n] == cs[..n][i := c];
    } else {
      assert cs[i := c][..n] == cs[..n];
    }
  }

  lemma TotalAppend(w: Pc -> nat, cs: seq<Caller>, c: Caller)
    ensures Total(w, cs + [c]) == Total(w, cs) + w(c.pc)
  {
    assert (cs + [c])[..|cs|] == cs;
  }

  lemma {:induction false} TotalPositive(w: Pc -> nat, cs: seq<Caller>) returns (i: nat)
    requires Total(w, cs) > 0
    ensures i < |cs| && w(cs[i].pc) > 0
    decreases |cs|
  {
    i := |cs| - 1;
    if w(cs[i].pc) == 0 { i := TotalPositive(w, cs[..|cs| - 1]); }
  }

  // ---- What a caller's step leaves alone -------------------------------------------------

  /** It moves caller i alone, and that one along its code. */
  lemma MoveShape(cfg: Config, s: State, t: Step)
    requires Enabled(cfg, s, t) && !Environment(t)
    ensures var s' := Apply(cfg, s, t);
            && At(s', t.i) && s'.callers == s.callers[t.i := s'.callers[t.i]]
            && s'.callers[t.i].key == s.callers[t.i].key
            && Rank(s'.callers[t.i].pc) < Rank(s.callers[t.i].pc)
            && (t.FindLock? || s'.callers[t.i].lock == s.callers[t.i].lock)
  {
    hide NameOf, ReadRow, SessionExpiresAt, LoggedIn, PutStores;
  }
}

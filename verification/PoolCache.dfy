/** The session table of the pool and the sessions it hands out, over every run. */
module PoolCache {
  import opened Bytes
  import opened Client
  import opened Blob
  import opened LockName
  import opened Pool
  import opened PoolLocks

  // ---- The log ---------------------------------------------------------------------------

  predicate Clears(e: Event, k: Key) {
    (e.Invalidated? && e.key == k) || (e.Deleted? && e.account == k.account)
  }

  /** Some event of log[lo..hi] took the row of k away. */
  predicate Cleared(log: seq<Event>, k: Key, lo: nat, hi: nat) {
    exists n :: lo <= n < hi && n < |log| && Clears(log[n], k)
  }

  predicate StoreOf(log: seq<Event>, i: nat, k: Key) {
    i < |log| && log[i].Stored? && log[i].key == k
  }

  /** The read at log position m and time at found no row of k because every store of k before
      position j was cleared before m or had expired by then. */
  predicate Missed(log: seq<Event>, k: Key, m: nat, at: int, j: nat) {
    forall i :: 0 <= i < j && StoreOf(log, i, k) ==> i < m && MissedOne(log, k, m, at, i)
  }

  predicate MissedOne(log: seq<Event>, k: Key, m: nat, at: int, i: nat)
    requires StoreOf(log, i, k)
  {
    Cleared(log, k, i + 1, m) || log[i].expiresAt <= at
  }

  lemma ClearedGrows(log: seq<Event>, more: seq<Event>, k: Key, lo: nat, hi: nat)
    requires log <= more && hi <= |log|
    ensures Cleared(more, k, lo, hi) == Cleared(log, k, lo, hi)
  {
    assert forall n :: 0 <= n < |log| ==> more[n] == log[n];
  }

  lemma ClearedWidens(log: seq<Event>, k: Key, lo: nat, hi: nat, hi': nat)
    requires Cleared(log, k, lo, hi) && hi <= hi'
    ensures Cleared(log, k, lo, hi')
  {
  }

  lemma MissedGrows(log: seq<Event>, more: seq<Event>, k: Key, m: nat, at: int, j: nat)
    requires log <= more && m <= |log| && j <= |log| && Missed(log, k, m, at, j)
    ensures Missed(more, k, m, at, j)
  {
    hide Cleared;
    forall i | 0 <= i < j && StoreOf(more, i, k) ensures i < m && MissedOne(more, k, m, at, i) {
      assert StoreOf(log, i, k) && MissedOne(log, k, m, at, i);
      ClearedGrows(log, more, k, i + 1, m);
    }
  }

  // ---- Invariant -------------------------------------------------------------------------

  predicate StoreOk(log: seq<Event>, j: nat, now: int)
    requires j < |log| && log[j].Stored?
  {
    var e := log[j];
    && Issued(e.st, e.key)
    && e.expiresAt <= e.st.psk.expiredAt
    && e.missedFrom <= j && e.missedAt <= now
    && Missed(log, e.key, e.missedFrom, e.missedAt, j)
  }

  predicate StoresOk(s: State) {
    forall j :: 0 <= j < |s.log| && s.log[j].Stored? ==> StoreOk(s.log, j, s.clock)
  }

  /** A row is what its store wrote, its account exists, and nothing has cleared it since. */
  predicate RowOk(s: State, k: Key, row: Row) {
    && k.account in s.accounts
    && StoreOf(s.log, row.born, k)
    && row.expiresAt == s.log[row.born].expiresAt
    && row.blob == Reloaded(ToBlob(s.log[row.born].st))
    && !Cleared(s.log, k, row.born + 1, |s.log|)
  }

  predicate RowsOk(s: State) {
    forall k :: k in s.table ==> RowOk(s, k, s.table[k])
  }

  /** A store that is neither cleared nor expired is still in the table. */
  predicate Settled(s: State, i: nat)
    requires i < |s.log| && s.log[i].Stored?
  {
    var k := s.log[i].key;
    || Cleared(s.log, k, i + 1, |s.log|)
    || s.log[i].expiresAt <= s.clock
    || (k in s.table && s.table[k].born == i)
  }

  predicate AllSettled(s: State) {
    forall i :: 0 <= i < |s.log| && s.log[i].Stored? ==> Settled(s, i)
  }

  /** A session for this key: logged in for it, or read from a row that some login stored for it and
      that was neither cleared nor expired when it was read. */
  predicate ResultOk(log: seq<Event>, k: Key, r: Result) {
    match r
    case Failed => true
    case Fresh(st, stored) => StoreOf(log, stored, k) && log[stored].st == st
    case Cached(st, born, readFrom, readAt) =>
      && born < readFrom <= |log|
      && StoreOf(log, born, k)
      && SessionFromBlob(Reloaded(ToBlob(log[born].st))) == Some(st)
      && log[born].expiresAt > readAt
      && !Cleared(log, k, born + 1, readFrom)
  }

  predicate PastMiss(pc: Pc) {
    pc.NeedAccount? || pc.Acquiring? || pc.LoggingIn? || pc.Stamping? || pc.Putting?
  }

  predicate MissOk(log: seq<Event>, now: int, c: Caller) {
    c.missedFrom <= |log| && c.missedAt <= now && Missed(log, c.key, c.missedFrom, c.missedAt, |log|)
  }

  predicate PcOk(log: seq<Event>, c: Caller) {
    match c.pc
    case Stamping(st, _) => Issued(st, c.key)
    case Putting(st, _, expiresAt) => Issued(st, c.key) && expiresAt <= st.psk.expiredAt
    case Releasing(r) => ResultOk(log, c.key, r)
    case Unlocking(r) => ResultOk(log, c.key, r)
    case Done(r) => ResultOk(log, c.key, r)
    case _ => true
  }

  predicate CallerOk(log: seq<Event>, now: int, c: Caller) {
    (PastMiss(c.pc) ==> MissOk(log, now, c)) && PcOk(log, c)
  }

  predicate CallersOk(s: State) {
    forall i :: 0 <= i < |s.callers| ==> CallerOk(s.log, s.clock, s.callers[i])
  }

  predicate CacheInv(s: State) {
    StoresOk(s) && RowsOk(s) && AllSettled(s) && CallersOk(s)
  }

  // ---- The log only grows ----------------------------------------------------------------

  lemma LogGrows(cfg: Config, s: State, t: Step)
    requires Enabled(cfg, s, t)
    ensures var s' := Apply(cfg, s, t); s.log <= s'.log && s.clock <= s'.clock && |s'.log| <= |s.log| + 1
  {
    hide NameOf, ReadRow, ToBlob, Reloaded;
  }

  lemma ResultGrows(log: seq<Event>, more: seq<Event>, k: Key, r: Result)
    requires log <= more && ResultOk(log, k, r)
    ensures ResultOk(more, k, r)
  {
    hide Cleared, SessionFromBlob, Reloaded, ToBlob;
    if r.Cached? { ClearedGrows(log, more, k, r.born + 1, r.readFrom); }
  }

  lemma StoreGrows(log: seq<Event>, more: seq<Event>, j: nat, now: int, later: int)
    requires log <= more && now <= later && j < |log| && log[j].Stored? && StoreOk(log, j, now)
    ensures StoreOk(more, j, later)
  {
    hide Missed, Issued;
    MissedGrows(log, more, log[j].key, log[j].missedFrom, log[j].missedAt, j);
  }

  /** A caller keeps its invariant while others move, unless they store under its key. */
  lemma CallerGrows(log: seq<Event>, more: seq<Event>, now: int, later: int, c: Caller)
    requires log <= more && now <= later && |more| <= |log| + 1 && CallerOk(log, now, c)
    requires PastMiss(c.pc) && |more| > |log| ==> !StoreOf(more, |log|, c.key)
    ensures CallerOk(more, later, c)
  {
    hide Cleared, ResultOk, Issued;
    if PastMiss(c.pc) {
      MissedGrows(log, more, c.key, c.missedFrom, c.missedAt, |log|);
      assert Missed(more, c.key, c.missedFrom, c.missedAt, |more|);
    }
    match c.pc
    case Releasing(r) => ResultGrows(log, more, c.key, r);
    case Unlocking(r) => ResultGrows(log, more, c.key, r);
    case Done(r) => ResultGrows(log, more, c.key, r);
    case _ =>
  }

  // ---- Every step keeps the invariant ----------------------------------------------------

  lemma StoresStep(cfg: Config, s: State, t: Step)
    requires StoresOk(s) && CallersOk(s) && Enabled(cfg, s, t)
    ensures StoresOk(Apply(cfg, s, t))
  {
    hide StoreOk, Issued, NameOf, ReadRow, ToBlob, Reloaded, Missed;
    var s' := Apply(cfg, s, t);
    LogGrows(cfg, s, t);
    forall j | 0 <= j < |s'.log| && s'.log[j].Stored? ensures StoreOk(s'.log, j, s'.clock) {
      if j < |s.log| {
        StoreGrows(s.log, s'.log, j, s.clock, s'.clock);
      } else {
        NewStore(s, s'.log, t.i);
      }
    }
  }

  lemma NewStore(s: State, log: seq<Event>, i: nat)
    requires CallersOk(s) && At(s, i) && s.callers[i].pc.Putting?
    requires var c := s.callers[i];
             log == s.log + [Stored(c.key, c.pc.st, c.pc.expiresAt, c.pc.dial, c.missedFrom, c.missedAt)]
    ensures StoreOk(log, |s.log|, s.clock)
  {
    hide Missed, Issued;
    var c := s.callers[i];
    assert CallerOk(s.log, s.clock, c);
    MissedGrows(s.log, log, c.key, c.missedFrom, c.missedAt, |s.log|);
  }

  /** A row survives a step that does not touch it and whose event, if any, does not clear it. */
  lemma RowGrows(s: State, s': State, k: Key, row: Row)
    requires s.log <= s'.log && |s'.log| <= |s.log| + 1 && RowOk(s, k, row) && k.account in s'.accounts
    requires |s'.log| > |s.log| ==> !Clears(s'.log[|s.log|], k)
    ensures RowOk(s', k, row)
  {
    hide ToBlob, Reloaded;
    assert forall n :: 0 <= n < |s.log| ==> s'.log[n] == s.log[n];
  }

  lemma RowsStep(cfg: Config, s: State, t: Step)
    requires RowsOk(s) && Enabled(cfg, s, t)
    ensures RowsOk(Apply(cfg, s, t))
  {
    hide RowOk, NameOf, ReadRow, ToBlob, Reloaded, Cleared;
    var s' := Apply(cfg, s, t);
    LogGrows(cfg, s, t);
    forall k | k in s'.table ensures RowOk(s', k, s'.table[k]) {
      if k in s.table && s'.table[k] == s.table[k] {
        assert RowOk(s, k, s.table[k]);
        RowAccount(s, k, s.table[k]);
        RowGrows(s, s', k, s.table[k]);
      } else {
        NewRow(cfg, s, t);
      }
    }
  }

  lemma RowAccount(s: State, k: Key, row: Row)
    requires RowOk(s, k, row)
    ensures k.account in s.accounts && row.born < |s.log|
  {
  }

  lemma NewRow(cfg: Config, s: State, t: Step)
    requires Enabled(cfg, s, t) && !Environment(t) && PutStores(s, t)
    ensures var s', i := Own(cfg, s, t), t.i; var k := s.callers[i].key; k in s'.table && RowOk(s', k, s'.table[k])
  {
    hide ToBlob, Reloaded;
  }

  /** How a row leaves the table, or changes. */
  lemma RowLeaves(cfg: Config, s: State, t: Step, k: Key)
    requires Enabled(cfg, s, t) && k in s.table
    ensures var s' := Apply(cfg, s, t);
            || (k in s'.table && s'.table[k] == s.table[k])
            || (|s'.log| == |s.log| + 1 && Clears(s'.log[|s.log|], k))
            || s.table[k].expiresAt <= s.clock
            || (t.Put? && s.callers[t.i].key == k)
  {
    hide NameOf, ReadRow, ToBlob, Reloaded;
  }

  lemma SettledOld(cfg: Config, s: State, t: Step, i: nat)
    requires CacheInv(s) && Enabled(cfg, s, t) && i < |s.log| && s.log[i].Stored?
    ensures var s' := Apply(cfg, s, t); i < |s'.log| && s'.log[i].Stored? && Settled(s', i)
  {
    hide NameOf, ReadRow, ToBlob, Reloaded, Cleared, Issued, StoreOk, Apply, Missed;
    var s' := Apply(cfg, s, t);
    LogGrows(cfg, s, t);
    var k := s.log[i].key;
    assert s'.log[i] == s.log[i] && Settled(s, i);
    ClearedGrows(s.log, s'.log, k, i + 1, |s.log|);
    if Cleared(s.log, k, i + 1, |s.log|) {
      ClearedWidens(s'.log, k, i + 1, |s.log|, |s'.log|);
    } else if s.log[i].expiresAt > s'.clock {
      assert RowOk(s, k, s.table[k]);
      RowLeaves(cfg, s, t, k);
      if |s'.log| == |s.log| + 1 && Clears(s'.log[|s.log|], k) {
        ClearedLast(s'.log, k, i + 1);
      } else if t.Put? && s.callers[t.i].key == k {
        PutAfterMiss(s, t.i, i);
      }
    }
  }

  lemma ClearedLast(log: seq<Event>, k: Key, lo: nat)
    requires lo < |log| && Clears(log[|log| - 1], k)
    ensures Cleared(log, k, lo, |log|)
  {
  }

  /** A caller about to store has seen every earlier store of its key cleared or expired. */
  lemma PutAfterMiss(s: State, j: nat, i: nat)
    requires CallersOk(s) && At(s, j) && s.callers[j].pc.Putting? && StoreOf(s.log, i, s.callers[j].key)
    ensures Cleared(s.log, s.callers[j].key, i + 1, |s.log|) || s.log[i].expiresAt <= s.clock
  {
    hide Cleared, Issued;
    var c := s.callers[j];
    assert CallerOk(s.log, s.clock, c);
    assert MissedOne(s.log, c.key, c.missedFrom, c.missedAt, i);
    if Cleared(s.log, c.key, i + 1, c.missedFrom) { ClearedWidens(s.log, c.key, i + 1, c.missedFrom, |s.log|); }
  }

  lemma SettledStep(cfg: Config, s: State, t: Step)
    requires CacheInv(s) && Enabled(cfg, s, t)
    ensures AllSettled(Apply(cfg, s, t))
  {
    hide CacheInv, Settled, NameOf, ReadRow, ToBlob, Reloaded;
    var s' := Apply(cfg, s, t);
    LogGrows(cfg, s, t);
    forall i | 0 <= i < |s'.log| && s'.log[i].Stored? ensures Settled(s', i) {
      if i < |s.log| { SettledOld(cfg, s, t, i); } else { SettledNew(cfg, s, t); }
    }
  }

  lemma SettledNew(cfg: Config, s: State, t: Step)
    requires Enabled(cfg, s, t) && !Environment(t) && PutStores(s, t)
    ensures Settled(Own(cfg, s, t), |s.log|)
  {
    hide ToBlob, Reloaded, Cleared;
  }

  /** Mutual exclusion keeps a store under a caller's key away while the caller holds the lock. */
  lemma NoOtherStore(cfg: Config, s: State, t: Step, j: nat)
    requires LocksInv(cfg, s) && Enabled(cfg, s, t) && !Environment(t)
    requires At(s, j) && j != t.i && PastMiss(s.callers[j].pc)
    requires |Apply(cfg, s, t).log| > |s.log|
    ensures !StoreOf(Apply(cfg, s, t).log, |s.log|, s.callers[j].key)
  {
    hide NameOf, Total, Counted;
    assert t.Put?;
    assert RegisteredCaller(s, s.callers[j]) && RegisteredCaller(s, s.callers[t.i]);
  }

  lemma CallersStep(cfg: Config, s: State, t: Step)
    requires LocksInv(cfg, s) && CacheInv(s) && Enabled(cfg, s, t)
    ensures CallersOk(Apply(cfg, s, t))
  {
    hide LocksInv, CallerOk, NameOf, ReadRow, ToBlob, Reloaded, RowsOk, StoresOk, AllSettled;
    var s' := Apply(cfg, s, t);
    LogGrows(cfg, s, t);
    forall j | 0 <= j < |s'.callers| ensures CallerOk(s'.log, s'.clock, s'.callers[j]) {
      if Environment(t) {
        if j < |s.callers| { CallerGrows(s.log, s'.log, s.clock, s'.clock, s.callers[j]); }
        else { NewCaller(s'.log, s'.clock, s'.callers[j]); }
      } else {
        MoveShape(cfg, s, t);
        hide Apply, Enabled;
        if j == t.i {
          MoverOk(cfg, s, t);
        } else {
          if PastMiss(s.callers[j].pc) && |s'.log| > |s.log| { NoOtherStore(cfg, s, t, j); }
          CallerGrows(s.log, s'.log, s.clock, s'.clock, s.callers[j]);
        }
      }
    }
  }

  lemma NewCaller(log: seq<Event>, now: int, c: Caller)
    requires c.pc.Start?
    ensures CallerOk(log, now, c)
  {
  }

  lemma MoverOk(cfg: Config, s: State, t: Step)
    requires CacheInv(s) && Enabled(cfg, s, t) && !Environment(t)
    ensures var s' := Apply(cfg, s, t); At(s', t.i) && CallerOk(s'.log, s'.clock, s'.callers[t.i])
  {
    hide CacheInv, CallerOk, CallerAfter, NameOf, ToBlob, Reloaded, Enabled;
    AtMover(cfg, s, t);
    CallerAt(s, t.i);
    if t.Read? || t.ReadAgain? {
      ReaderOk(cfg, s, t);
    } else if t.Put? {
      StorerOk(cfg, s, t);
    } else {
      OtherMoverOk(cfg, s, t);
    }
  }

  lemma AtMover(cfg: Config, s: State, t: Step)
    requires Enabled(cfg, s, t) && !Environment(t)
    ensures At(s, t.i)
  {
  }

  lemma ReaderOk(cfg: Config, s: State, t: Step)
    requires CacheInv(s) && Enabled(cfg, s, t) && (t.Read? || t.ReadAgain?) && At(s, t.i)
    requires CallerOk(s.log, s.clock, s.callers[t.i])
    ensures CallerOk(s.log, s.clock, CallerAfter(cfg, s, t))
  {
    hide CacheInv, ReadRow, ResultOk, Missed, NameOf;
    ReadIsOk(s, s.callers[t.i].key, t.dbOk);
    if ReadRow(s, s.callers[t.i].key, t.dbOk).None? { MissIsOk(s, s.callers[t.i].key, t.dbOk); }
  }

  lemma StorerOk(cfg: Config, s: State, t: Step)
    requires Enabled(cfg, s, t) && t.Put? && At(s, t.i)
    ensures CallerOk(Own(cfg, s, t).log, s.clock, CallerAfter(cfg, s, t))
  {
    hide ToBlob, Reloaded, ReadRow, NameOf, Missed;
  }

  lemma OtherMoverOk(cfg: Config, s: State, t: Step)
    requires Enabled(cfg, s, t) && !Environment(t) && !t.Read? && !t.ReadAgain? && !t.Put? && At(s, t.i)
    requires CallerOk(s.log, s.clock, s.callers[t.i])
    ensures CallerOk(s.log, s.clock, CallerAfter(cfg, s, t))
  {
    hide ReadRow, Missed, Cleared, Complete, SessionFromBlob, ToBlob, Reloaded, NameOf;
  }

  lemma CallerAt(s: State, i: nat)
    requires CacheInv(s) && At(s, i)
    ensures CallersOk(s) && CallerOk(s.log, s.clock, s.callers[i])
  {
    hide CallerOk;
  }

  lemma ReadIsOk(s: State, k: Key, dbOk: bool)
    requires CacheInv(s)
    ensures var r := ReadRow(s, k, dbOk); r.Some? ==> ResultOk(s.log, k, r.value)
  {
    hide ToBlob, Reloaded, SessionFromBlob, Cleared, StoresOk, AllSettled, CallersOk;
    if k in s.table { assert RowOk(s, k, s.table[k]); }
  }

  lemma MissIsOk(s: State, k: Key, dbOk: bool)
    requires CacheInv(s) && ReadRow(s, k, dbOk).None?
    ensures Missed(s.log, k, |s.log|, s.clock, |s.log|)
  {
    hide ToBlob, Reloaded, SessionFromBlob, Cleared, StoresOk, CallersOk;
    forall i | 0 <= i < |s.log| && StoreOf(s.log, i, k) ensures MissedOne(s.log, k, |s.log|, s.clock, i) {
      assert Settled(s, i);
      if k in s.table { assert RowOk(s, k, s.table[k]); }
    }
  }

  lemma InitialCache(clock: nat, accounts: set<int>)
    ensures CacheInv(Initial(clock, accounts))
  {
  }

  lemma {:induction false} CacheAlways(cfg: Config, clock: nat, accounts: set<int>, run: seq<Step>)
    ensures CacheInv(Exec(cfg, Initial(clock, accounts), run))
    decreases |run|
  {
    hide StoresOk, RowsOk, AllSettled, CallersOk, LocksInv, Apply, Enabled, Initial;
    if |run| > 0 {
      var s, t := Exec(cfg, Initial(clock, accounts), run[..|run| - 1]), run[|run| - 1];
      CacheAlways(cfg, clock, accounts, run[..|run| - 1]);
      LocksAlways(cfg, clock, accounts, run[..|run| - 1]);
      if Enabled(cfg, s, t) {
        StoresStep(cfg, s, t);
        RowsStep(cfg, s, t);
        SettledStep(cfg, s, t);
        CallersStep(cfg, s, t);
      }
    } else {
      InitialCache(clock, accounts);
    }
  }
}

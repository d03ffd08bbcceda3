/** What the pool promises its callers, for every run from an empty session table. */
module PoolTheorems {
  import opened Bytes
  import opened Client
  import opened Blob
  import opened LockName
  import opened Pool
  import opened PoolCache
  import opened Transport
  import Transfer

  /** Single flight: between two stores for one key, before the read that led to the second, that
      key's row was invalidated or its account deleted, or the first store's row had expired. */
  lemma SingleFlight(cfg: Config, clock: nat, accounts: set<int>, run: seq<Step>, k: Key, i: nat, j: nat)
    requires i < j
    requires StoreOf(Exec(cfg, Initial(clock, accounts), run).log, i, k)
    requires StoreOf(Exec(cfg, Initial(clock, accounts), run).log, j, k)
    ensures var s := Exec(cfg, Initial(clock, accounts), run);
            var read, at := s.log[j].missedFrom, s.log[j].missedAt;
            && i < read <= j && at <= s.clock
            && ((exists n :: i < n < read && Clears(s.log[n], k)) || s.log[i].expiresAt <= at)
  {
    hide Exec, RowsOk, AllSettled, CallersOk, Issued;
    CacheAlways(cfg, clock, accounts, run);
    var s := Exec(cfg, Initial(clock, accounts), run);
    assert StoreOk(s.log, j, s.clock);
    assert MissedOne(s.log, k, s.log[j].missedFrom, s.log[j].missedAt, i);
  }

  predicate LiveRow(s: State, k: Key, i: nat) {
    k in s.table && s.table[k].born == i && s.table[k].expiresAt > s.clock
  }

  predicate LiveStore(s: State, k: Key, i: nat) {
    StoreOf(s.log, i, k) && s.log[i].expiresAt > s.clock && forall n :: i < n < |s.log| ==> !Clears(s.log[n], k)
  }

  /** The table is what the log says: an unexpired row is there exactly when some store was neither
      cleared nor has expired, and the row is that store's. */
  lemma TableIsTheLog(cfg: Config, clock: nat, accounts: set<int>, run: seq<Step>, k: Key, i: nat)
    ensures var s := Exec(cfg, Initial(clock, accounts), run); LiveRow(s, k, i) <==> LiveStore(s, k, i)
  {
    hide Exec, StoresOk, CallersOk, ToBlob, Reloaded;
    CacheAlways(cfg, clock, accounts, run);
    var s := Exec(cfg, Initial(clock, accounts), run);
    if k in s.table { assert RowOk(s, k, s.table[k]); }
    if StoreOf(s.log, i, k) { assert Settled(s, i); }
  }

  lemma IssuedDecodes(st: WmpfSession, k: Key)
    requires Issued(st, k)
    ensures var r := SessionFromBlob(Reloaded(ToBlob(st)));
            && r.Some? && r.value.tcpProxy == k.proxy && Complete(r.value.session)
            && r.value.psk.expiredAt == st.psk.expiredAt
            && r.value.psk.preSharedKey == st.psk.preSharedKey
            && r.value.session == st.session.(uin := Store64(st.session.uin))
  {
    hide SessionFromBlob, ToBlob, Reloaded;
    StoredDecodes(st);
  }

  /** Every row of every reachable table decodes, to a session for the row's own proxy with non-empty
      keys and a non-zero UIN, and expires no later than that session's PSK. */
  lemma RowsAreSound(cfg: Config, clock: nat, accounts: set<int>, run: seq<Step>, k: Key)
    requires k in Exec(cfg, Initial(clock, accounts), run).table
    ensures var s := Exec(cfg, Initial(clock, accounts), run);
            var r := SessionFromBlob(s.table[k].blob);
            && k.account in s.accounts
            && r.Some? && r.value.tcpProxy == k.proxy && Complete(r.value.session)
            && s.table[k].expiresAt <= r.value.psk.expiredAt
  {
    hide Exec, SessionFromBlob, ToBlob, Reloaded, Issued, Complete, AllSettled, CallersOk, Cleared, Missed;
    CacheAlways(cfg, clock, accounts, run);
    var s := Exec(cfg, Initial(clock, accounts), run);
    var row := s.table[k];
    assert RowOk(s, k, row);
    assert StoreOk(s.log, row.born, s.clock);
    IssuedDecodes(s.log[row.born].st, k);
  }

  /** No expiry, stored or about to be, is further away than the TTL. */
  predicate Timely(cfg: Config, s: State) {
    && (forall j :: 0 <= j < |s.log| && s.log[j].Stored? ==> s.log[j].expiresAt <= s.clock + cfg.ttl)
    && (forall i :: 0 <= i < |s.callers| && s.callers[i].pc.Putting? ==> s.callers[i].pc.expiresAt <= s.clock + cfg.ttl)
  }

  lemma TimelyStep(cfg: Config, s: State, t: Step)
    requires Timely(cfg, s) && Enabled(cfg, s, t)
    ensures Timely(cfg, Apply(cfg, s, t))
  {
    hide NameOf, ReadRow, ToBlob, Reloaded, SessionExpiresAt, Complete;
    LogGrows(cfg, s, t);
  }

  /** Every row expires within the TTL from now, in every run. */
  lemma {:induction false} RowsExpireInTime(cfg: Config, clock: nat, accounts: set<int>, run: seq<Step>)
    ensures var s := Exec(cfg, Initial(clock, accounts), run);
            Timely(cfg, s) && forall k :: k in s.table ==> s.table[k].expiresAt <= s.clock + cfg.ttl
    decreases |run|
  {
    hide Apply, Enabled, RowOk, StoresOk, AllSettled, CallersOk;
    var s := Exec(cfg, Initial(clock, accounts), run);
    if |run| > 0 {
      var p := Exec(cfg, Initial(clock, accounts), run[..|run| - 1]);
      RowsExpireInTime(cfg, clock, accounts, run[..|run| - 1]);
      if Enabled(cfg, p, run[|run| - 1]) { TimelyStep(cfg, p, run[|run| - 1]); }
    }
    CacheAlways(cfg, clock, accounts, run);
    forall k | k in s.table ensures s.table[k].expiresAt <= s.clock + cfg.ttl {
      RowOfStore(s, k);
    }
  }

  lemma RowOfStore(s: State, k: Key)
    requires RowsOk(s) && k in s.table
    ensures var row := s.table[k]; StoreOf(s.log, row.born, k) && row.expiresAt == s.log[row.born].expiresAt
  {
    assert RowOk(s, k, s.table[k]);
  }

  function SessionOf(r: Result): WmpfSession
    requires !r.Failed?
  {
    r.st
  }

  /** state returns a session for the account and proxy it was asked for. A cached one was stored for
      that key by a login, has not been cleared between its store and its read, and its PSK was
      unexpired when it was read. */
  lemma ReturnedSession(cfg: Config, clock: nat, accounts: set<int>, run: seq<Step>, i: nat)
    requires var s := Exec(cfg, Initial(clock, accounts), run);
             At(s, i) && s.callers[i].pc.Done? && !s.callers[i].pc.result.Failed?
    ensures var s := Exec(cfg, Initial(clock, accounts), run);
            var st := SessionOf(s.callers[i].pc.result);
            st.tcpProxy == s.callers[i].key.proxy && Complete(st.session)
    ensures var s := Exec(cfg, Initial(clock, accounts), run);
            var r := s.callers[i].pc.result;
            r.Fresh? ==> StoreOf(s.log, r.stored, s.callers[i].key) && s.log[r.stored].st == r.st
    ensures var s := Exec(cfg, Initial(clock, accounts), run);
            var k, r := s.callers[i].key, s.callers[i].pc.result;
            r.Cached? ==> r.st.psk.expiredAt > r.readAt && StoreOf(s.log, r.born, k) && IsKept(r.st, s.log[r.born].st)
    ensures var s := Exec(cfg, Initial(clock, accounts), run);
            var k, r := s.callers[i].key, s.callers[i].pc.result;
            r.Cached? ==> r.readFrom <= |s.log| && forall n :: r.born < n < r.readFrom ==> !Clears(s.log[n], k)
  {
    hide Exec, SessionFromBlob, ToBlob, Reloaded, Complete, AllSettled, RowsOk, Missed;
    CacheAlways(cfg, clock, accounts, run);
    var s := Exec(cfg, Initial(clock, accounts), run);
    var c := s.callers[i];
    assert CallerOk(s.log, s.clock, c) && ResultOk(s.log, c.key, c.pc.result);
    var at := if c.pc.result.Fresh? then c.pc.result.stored else c.pc.result.born;
    assert StoreOk(s.log, at, s.clock);
    IssuedDecodes(s.log[at].st, c.key);
  }

  /** A session as the table keeps it: same keys, ticket, proxy, PSK and PSK expiry, the UIN through float64. */
  predicate IsKept(kept: WmpfSession, st: WmpfSession) {
    && kept.session == st.session.(uin := Store64(st.session.uin)) && kept.tcpProxy == st.tcpProxy
    && kept.psk.preSharedKey == st.psk.preSharedKey && kept.psk.expiredAt == st.psk.expiredAt
  }

  // ---- What a call makes of what it finds -------------------------------------------------

  /** The session store n wrote, as read from the table in state s. */
  predicate IsCached(s: State, r: Result, n: nat)
    requires n < |s.log| && s.log[n].Stored?
  {
    r.Cached? && r.born == n && r.readFrom == |s.log| && r.readAt == s.clock && IsKept(r.st, s.log[n].st)
  }

  /** In every run: a caller that reads, before or under the lock, while a store for its key is live gets
      the session of that store. */
  lemma LiveRowIsReturned(cfg: Config, clock: nat, accounts: set<int>, run: seq<Step>, i: nat, n: nat)
    requires var s := Exec(cfg, Initial(clock, accounts), run); At(s, i) && LiveStore(s, s.callers[i].key, n)
    ensures var s := Exec(cfg, Initial(clock, accounts), run);
            var pc := Next(cfg, s, Read(i, true)).callers[i].pc;
            s.callers[i].pc.Start? ==> pc.Done? && IsCached(s, pc.result, n)
    ensures var s := Exec(cfg, Initial(clock, accounts), run);
            var pc := Next(cfg, s, ReadAgain(i, true)).callers[i].pc;
            s.callers[i].pc.Reread? ==> pc.Unlocking? && IsCached(s, pc.result, n)
  {
    hide Exec, SessionFromBlob, ToBlob, Reloaded, Complete, NameOf;
    TableIsTheLog(cfg, clock, accounts, run, Exec(cfg, Initial(clock, accounts), run).callers[i].key, n);
    CacheAlways(cfg, clock, accounts, run);
    var s := Exec(cfg, Initial(clock, accounts), run);
    var k := s.callers[i].key;
    assert RowOk(s, k, s.table[k]) && StoreOk(s.log, n, s.clock);
    IssuedDecodes(s.log[n].st, k);
  }

  /** And with no live store it goes on to log in. */
  lemma MissGoesOn(cfg: Config, clock: nat, accounts: set<int>, run: seq<Step>, i: nat)
    requires var s := Exec(cfg, Initial(clock, accounts), run);
             At(s, i) && forall n :: !LiveStore(s, s.callers[i].key, n)
    ensures var s := Exec(cfg, Initial(clock, accounts), run);
            s.callers[i].pc.Start? ==> Next(cfg, s, Read(i, true)).callers[i].pc == LookUp
    ensures var s := Exec(cfg, Initial(clock, accounts), run);
            s.callers[i].pc.Reread? ==> Next(cfg, s, ReadAgain(i, true)).callers[i].pc == NeedAccount
  {
    hide Exec, SessionFromBlob, NameOf;
    var s := Exec(cfg, Initial(clock, accounts), run);
    var k := s.callers[i].key;
    if k in s.table && s.table[k].expiresAt > s.clock {
      TableIsTheLog(cfg, clock, accounts, run, k, s.table[k].born);
    }
  }

  /** After a purge the table holds the keys with a live store and no other. */
  lemma PurgeLeavesTheLive(cfg: Config, clock: nat, accounts: set<int>, run: seq<Step>, k: Key)
    ensures var s := Exec(cfg, Initial(clock, accounts), run + [Purge]);
            k in s.table <==> exists n :: LiveStore(s, k, n)
  {
    hide Exec, LiveStore, NameOf;
    var s := Exec(cfg, Initial(clock, accounts), run + [Purge]);
    ExecSnoc(cfg, Initial(clock, accounts), run, Purge);
    if k in s.table { TableIsTheLog(cfg, clock, accounts, run + [Purge], k, s.table[k].born); }
    forall n | LiveStore(s, k, n) ensures k in s.table { TableIsTheLog(cfg, clock, accounts, run + [Purge], k, n); }
  }

  /** A call whose database fails it, whose account is gone, that is cancelled, or whose login fails ends
      in an error and stores nothing. */
  lemma FailuresEndTheCall(cfg: Config, s: State, t: Step)
    requires Enabled(cfg, s, t) && !Environment(t)
    requires || ((t.Read? || t.ReadAgain? || t.ReadAccount? || t.Put?) && !t.dbOk)
             || ((t.ReadAccount? || t.Put?) && s.callers[t.i].key.account !in s.accounts)
             || t.GiveUp? || (t.LogIn? && t.outcome.None?)
    ensures var s' := Next(cfg, s, t);
            var pc := s'.callers[t.i].pc;
            && s'.table == s.table && s'.log == s.log
            && (t.Read? ==> pc == Done(Failed))
            && (t.LogIn? || t.Put? ==> pc == Releasing(Failed))
            && (t.ReadAgain? || t.ReadAccount? || t.GiveUp? ==> pc == Unlocking(Failed))
  {
    hide NameOf, SessionFromBlob, ToBlob, Reloaded, SessionExpiresAt;
  }

  /** A caller that has missed under the lock, as it stands in s. */
  predicate Ready(cfg: Config, s: State, i: nat, st: WmpfSession, d: Dialled) {
    && At(s, i) && s.callers[i].pc.NeedAccount? && s.callers[i].key.account in s.accounts
    && s.tokens < cfg.maxLogins && s.callers[i].lock in s.owner
    && LoggedIn(cfg, s.callers[i].key, s.clock, st, d)
  }

  /** s with caller i elsewhere and these tokens. */
  function Moved(s: State, i: nat, pc: Pc, tokens: nat): State
    requires At(s, i)
  {
    s.(callers := s.callers[i := s.callers[i].(pc := pc)], tokens := tokens)
  }

  lemma TakesToken(cfg: Config, s: State, i: nat, st: WmpfSession, d: Dialled)
    requires Ready(cfg, s, i, st, d)
    ensures Next(cfg, s, ReadAccount(i, true)) == Moved(s, i, Acquiring, s.tokens)
    ensures Next(cfg, Moved(s, i, Acquiring, s.tokens), Acquire(i)) == Moved(s, i, LoggingIn, s.tokens + 1)
  {
    hide NameOf, ReadRow, LoggedIn, ToBlob, Reloaded, SessionExpiresAt;
  }

  lemma LogsIn(cfg: Config, s: State, i: nat, st: WmpfSession, d: Dialled)
    requires Ready(cfg, s, i, st, d)
    ensures Next(cfg, Moved(s, i, LoggingIn, s.tokens + 1), LogIn(i, Some(st), d))
         == Moved(s, i, Stamping(st, d), s.tokens + 1)
  {
    hide NameOf, ReadRow, LoggedIn, ToBlob, Reloaded, SessionExpiresAt;
  }

  lemma Stamps(cfg: Config, s: State, i: nat, st: WmpfSession, d: Dialled)
    requires Ready(cfg, s, i, st, d)
    ensures Next(cfg, Moved(s, i, Stamping(st, d), s.tokens + 1), Stamp(i))
         == Moved(s, i, Putting(st, d, SessionExpiresAt(st, s.clock, cfg.ttl)), s.tokens + 1)
  {
    hide NameOf, ReadRow, LoggedIn, ToBlob, Reloaded, SessionExpiresAt;
  }

  lemma Stores(cfg: Config, s: State, i: nat, st: WmpfSession, d: Dialled, expiresAt: int)
    requires Ready(cfg, s, i, st, d)
    ensures var p := Moved(s, i, Putting(st, d, expiresAt), s.tokens + 1);
            var e := Next(cfg, Next(cfg, Next(cfg, p, Put(i, true)), Release(i)), Unlock(i));
            var c := s.callers[i];
            && At(e, i) && e.callers[i] == c.(pc := Done(Fresh(st, |s.log|)))
            && e.table == s.table[c.key := Row(Reloaded(ToBlob(st)), expiresAt, |s.log|)]
            && e.log == s.log + [Stored(c.key, st, expiresAt, d, c.missedFrom, c.missedAt)]
            && e.tokens == s.tokens && e.owner == s.owner - {c.lock} && e.clock == s.clock && e.accounts == s.accounts
  {
    hide NameOf, SessionFromBlob, ToBlob, Reloaded, LoggedIn;
  }

  /** A call that has missed under the lock, left to itself with its account there, a token free and the
      login and the database working, returns the login's session and leaves it in the table, until its
      PSK or the TTL runs out, with the mutex and the token given back. */
  lemma MissLogsIn(cfg: Config, s: State, i: nat, st: WmpfSession, d: Dialled)
    requires Ready(cfg, s, i, st, d)
    ensures var own := [ReadAccount(i, true), Acquire(i), LogIn(i, Some(st), d), Stamp(i), Put(i, true),
                        Release(i), Unlock(i)];
            var e, c := Exec(cfg, s, own), s.callers[i];
            && At(e, i) && e.callers[i].pc == Done(Fresh(st, |s.log|))
            && c.key in e.table && e.table[c.key].blob == Reloaded(ToBlob(st)) && e.table[c.key].born == |s.log|
            && e.table[c.key].expiresAt
            == (if st.psk.expiredAt <= s.clock + cfg.ttl then st.psk.expiredAt else s.clock + cfg.ttl)
            && (forall k :: k in e.table && k != c.key ==> k in s.table && e.table[k] == s.table[k])
            && e.tokens == s.tokens && e.owner == s.owner - {c.lock}
  {
    hide Next, Exec, Moved, LoggedIn, SessionExpiresAt, ToBlob, Reloaded;
    var expiresAt := SessionExpiresAt(st, s.clock, cfg.ttl);
    TakesToken(cfg, s, i, st, d);
    LogsIn(cfg, s, i, st, d);
    Stamps(cfg, s, i, st, d);
    Stores(cfg, s, i, st, d, expiresAt);
    ExecNone(cfg, s);
    var o0: seq<Step> := [];
    ExecSnoc(cfg, s, o0, ReadAccount(i, true));
    var o1 := o0 + [ReadAccount(i, true)];
    ExecSnoc(cfg, s, o1, Acquire(i));
    var o2 := o1 + [Acquire(i)];
    ExecSnoc(cfg, s, o2, LogIn(i, Some(st), d));
    var o3 := o2 + [LogIn(i, Some(st), d)];
    ExecSnoc(cfg, s, o3, Stamp(i));
    var o4 := o3 + [Stamp(i)];
    ExecSnoc(cfg, s, o4, Put(i, true));
    var o5 := o4 + [Put(i, true)];
    ExecSnoc(cfg, s, o5, Release(i));
    var o6 := o5 + [Release(i)];
    ExecSnoc(cfg, s, o6, Unlock(i));
    assert o6 + [Unlock(i)]
        == [ReadAccount(i, true), Acquire(i), LogIn(i, Some(st), d), Stamp(i), Put(i, true), Release(i), Unlock(i)];
    ExpiryOfLogin(cfg, s, i, st, d);
  }

  lemma ExpiryOfLogin(cfg: Config, s: State, i: nat, st: WmpfSession, d: Dialled)
    requires Ready(cfg, s, i, st, d)
    ensures SessionExpiresAt(st, s.clock, cfg.ttl)
         == if st.psk.expiredAt <= s.clock + cfg.ttl then st.psk.expiredAt else s.clock + cfg.ttl
  {
    hide Complete;
  }

  /** A short-link send with a session state returned for a proxy only ever dials through that proxy,
      whatever the configured fallback and however the dials go. */
  lemma ProxyIsNeverBypassed(cfg: Config, clock: nat, accounts: set<int>, run: seq<Step>, i: nat, fallback: bool,
                             parses: bool, throughOk: bool)
    requires var s := Exec(cfg, Initial(clock, accounts), run);
             At(s, i) && s.callers[i].pc.Done? && !s.callers[i].pc.result.Failed?
    ensures var c := Exec(cfg, Initial(clock, accounts), run).callers[i];
            var proxy := SessionOf(c.pc.result).tcpProxy;
            var only := if c.key.proxy == "" then Direct else Through(c.key.proxy);
            forall a :: a in Dial(proxy, parses, throughOk, SendFallback(proxy, fallback)) ==> a == only
  {
    hide Exec, Complete;
    ReturnedSession(cfg, clock, accounts, run, i);
  }

  // ---- Where a session's login connected --------------------------------------------------

  /** Every login behind a store, done or to be done, used a connection dialTCP makes for its key. */
  predicate Routed(cfg: Config, s: State) {
    && (forall j :: 0 <= j < |s.log| && s.log[j].Stored? ==> ConnectsFor(cfg, s.log[j].key, s.log[j].dial))
    && (forall i :: 0 <= i < |s.callers| ==> CarriesFor(cfg, s.callers[i]))
  }

  predicate CarriesFor(cfg: Config, c: Caller) {
    c.pc.Stamping? || c.pc.Putting? ==> ConnectsFor(cfg, c.key, c.pc.dial)
  }

  predicate ConnectsFor(cfg: Config, k: Key, d: Dialled) {
    Connects(k.proxy, cfg.wellFormed(k.proxy), cfg.fallback, d)
  }

  lemma RoutedStep(cfg: Config, s: State, t: Step)
    requires Routed(cfg, s) && Enabled(cfg, s, t)
    ensures Routed(cfg, Apply(cfg, s, t))
  {
    hide NameOf, ReadRow, ToBlob, Reloaded, SessionExpiresAt, Issued, LiveAccess, Connects;
    LogGrows(cfg, s, t);
  }

  lemma {:induction false} RoutedAlways(cfg: Config, clock: nat, accounts: set<int>, run: seq<Step>)
    ensures Routed(cfg, Exec(cfg, Initial(clock, accounts), run))
    decreases |run|
  {
    hide Apply, Enabled;
    if |run| > 0 {
      var p := Exec(cfg, Initial(clock, accounts), run[..|run| - 1]);
      RoutedAlways(cfg, clock, accounts, run[..|run| - 1]);
      if Enabled(cfg, p, run[|run| - 1]) { RoutedStep(cfg, p, run[|run| - 1]); }
    }
  }

  /** The position in the log of the store behind a result. */
  function OriginOf(r: Result): nat
    requires !r.Failed?
  {
    if r.Fresh? then r.stored else r.born
  }

  /** In every run, the login behind a session returned for a proxy connected through that proxy if the
      dial through it worked, and otherwise directly; and that only with the fallback on. */
  lemma SessionOrigin(cfg: Config, clock: nat, accounts: set<int>, run: seq<Step>, i: nat)
    requires var s := Exec(cfg, Initial(clock, accounts), run);
             At(s, i) && s.callers[i].pc.Done? && !s.callers[i].pc.result.Failed?
    ensures var s := Exec(cfg, Initial(clock, accounts), run);
            StoreOf(s.log, OriginOf(s.callers[i].pc.result), s.callers[i].key)
    ensures var s := Exec(cfg, Initial(clock, accounts), run);
            var proxy, d := s.callers[i].key.proxy, s.log[OriginOf(s.callers[i].pc.result)].dial;
            && (proxy == "" ==> d.via == Direct)
            && (proxy != "" ==> d.via == (if d.throughOk then Through(proxy) else Direct))
            && (proxy != "" ==> cfg.wellFormed(proxy) && (d.via == Direct ==> cfg.fallback))
  {
    hide Exec, SessionFromBlob, ToBlob, Reloaded, Complete;
    ReturnedSession(cfg, clock, accounts, run, i);
    RoutedAlways(cfg, clock, accounts, run);
    var s := Exec(cfg, Initial(clock, accounts), run);
    assert ConnectsFor(cfg, s.callers[i].key, s.log[OriginOf(s.callers[i].pc.result)].dial);
  }

  /** Caller i of the run was returned a session for proxy whose login had connected directly. */
  predicate CameDirect(cfg: Config, clock: nat, accounts: set<int>, run: seq<Step>, i: nat, proxy: string) {
    var s := Exec(cfg, Initial(clock, accounts), run);
    && At(s, i) && s.callers[i].key.proxy == proxy
    && s.callers[i].pc.Done? && !s.callers[i].pc.result.Failed?
    && OriginOf(s.callers[i].pc.result) < |s.log|
    && s.log[OriginOf(s.callers[i].pc.result)].Stored?
    && s.log[OriginOf(s.callers[i].pc.result)].dial.via == Direct
  }

  /** Some run returns a session for a proxy whose login went past the proxy, exactly if the fallback is
      on and the proxy is well formed. */
  lemma LoginMayBypass(cfg: Config, proxy: string)
    requires cfg.maxLogins > 0 && proxy != ""
    ensures (exists clock, accounts, run, i :: CameDirect(cfg, clock, accounts, run, i, proxy))
       <==> cfg.fallback && cfg.wellFormed(proxy)
  {
    hide Exec;
    forall clock, accounts, run, i | CameDirect(cfg, clock, accounts, run, i, proxy)
      ensures cfg.fallback && cfg.wellFormed(proxy)
    {
      SessionOrigin(cfg, clock, accounts, run, i);
    }
    if cfg.fallback && cfg.wellFormed(proxy) {
      var run := BypassRun(cfg, proxy);
      assert CameDirect(cfg, 0, {1}, run, 0, proxy);
    }
  }

  /** One caller alone in an empty pool. */
  function Alone(k: Key, pc: Pc, named: bool, held: bool, tokens: nat): State {
    State(0, {1}, map[], if named then map[NameOf(k) := 0] else map[], if named then 1 else 0,
          if held then map[0 := 0] else map[], tokens, [Caller(k, pc, 0, 0, 0)], [])
  }

  function BypassSession(proxy: string): WmpfSession {
    WmpfSession(Transfer.AppSession([1], [1], [], 1, [], [], []), PskEntry(1, "", "", 0, 1), [], proxy)
  }

  lemma AloneReads(cfg: Config, k: Key)
    requires k.account == 1
    ensures Next(cfg, Initial(0, {1}), Arrive(k)) == Alone(k, Start, false, false, 0)
    ensures Next(cfg, Alone(k, Start, false, false, 0), Read(0, true)) == Alone(k, LookUp, false, false, 0)
  {
    hide NameOf;
  }

  lemma AloneLocks(cfg: Config, k: Key)
    requires k.account == 1
    ensures Next(cfg, Alone(k, LookUp, false, false, 0), FindLock(0)) == Alone(k, WantLock, true, false, 0)
    ensures Next(cfg, Alone(k, WantLock, true, false, 0), Lock(0)) == Alone(k, Reread, true, true, 0)
  {
    hide NameOf;
    assert map[][NameOf(k) := 0] == map[NameOf(k) := 0];
    assert map[][0 := 0] == map[0 := 0];
  }

  lemma AloneAcquires(cfg: Config, k: Key)
    requires k.account == 1 && cfg.maxLogins > 0
    ensures Next(cfg, Alone(k, Reread, true, true, 0), ReadAgain(0, true)) == Alone(k, NeedAccount, true, true, 0)
    ensures Next(cfg, Alone(k, NeedAccount, true, true, 0), ReadAccount(0, true)) == Alone(k, Acquiring, true, true, 0)
    ensures Next(cfg, Alone(k, Acquiring, true, true, 0), Acquire(0)) == Alone(k, LoggingIn, true, true, 1)
  {
    hide NameOf;
  }

  lemma AloneLogsIn(cfg: Config, k: Key, st: WmpfSession, d: Dialled)
    requires LoggedIn(cfg, k, 0, st, d)
    ensures Next(cfg, Alone(k, LoggingIn, true, true, 1), LogIn(0, Some(st), d))
         == Alone(k, Stamping(st, d), true, true, 1)
    ensures Next(cfg, Alone(k, Stamping(st, d), true, true, 1), Stamp(0))
         == Alone(k, Putting(st, d, SessionExpiresAt(st, 0, cfg.ttl)), true, true, 1)
  {
    hide NameOf, LoggedIn, SessionExpiresAt;
  }

  lemma AloneStores(cfg: Config, k: Key, st: WmpfSession, d: Dialled, expiresAt: int)
    requires k.account == 1
    ensures var p := Alone(k, Putting(st, d, expiresAt), true, true, 1);
            var s := Next(cfg, Next(cfg, Next(cfg, p, Put(0, true)), Release(0)), Unlock(0));
            && At(s, 0) && s.callers[0].key == k && s.callers[0].pc == Done(Fresh(st, 0))
            && |s.log| == 1 && s.log[0] == Stored(k, st, expiresAt, d, 0, 0)
  {
    hide NameOf, ToBlob, Reloaded;
  }

  lemma Then(cfg: Config, run: seq<Step>, a: State, t: Step, b: State)
    requires Exec(cfg, Initial(0, {1}), run) == a && Next(cfg, a, t) == b
    ensures Exec(cfg, Initial(0, {1}), run + [t]) == b
  {
    hide Exec, Next, Initial;
    ExecSnoc(cfg, Initial(0, {1}), run, t);
  }

  lemma RunToLock(cfg: Config, k: Key) returns (run: seq<Step>)
    requires k.account == 1
    ensures Exec(cfg, Initial(0, {1}), run) == Alone(k, Reread, true, true, 0)
  {
    hide Next, Alone, Exec, Initial;
    AloneReads(cfg, k);
    AloneLocks(cfg, k);
    ExecNone(cfg, Initial(0, {1}));
    run := [];
    Then(cfg, run, Initial(0, {1}), Arrive(k), Alone(k, Start, false, false, 0));
    run := run + [Arrive(k)];
    Then(cfg, run, Alone(k, Start, false, false, 0), Read(0, true), Alone(k, LookUp, false, false, 0));
    run := run + [Read(0, true)];
    Then(cfg, run, Alone(k, LookUp, false, false, 0), FindLock(0), Alone(k, WantLock, true, false, 0));
    run := run + [FindLock(0)];
    Then(cfg, run, Alone(k, WantLock, true, false, 0), Lock(0), Alone(k, Reread, true, true, 0));
    run := run + [Lock(0)];
  }

  lemma RunToLogin(cfg: Config, k: Key) returns (run: seq<Step>)
    requires k.account == 1 && cfg.maxLogins > 0
    ensures Exec(cfg, Initial(0, {1}), run) == Alone(k, LoggingIn, true, true, 1)
  {
    hide Next, Alone, Exec, Initial;
    AloneAcquires(cfg, k);
    run := RunToLock(cfg, k);
    Then(cfg, run, Alone(k, Reread, true, true, 0), ReadAgain(0, true), Alone(k, NeedAccount, true, true, 0));
    run := run + [ReadAgain(0, true)];
    Then(cfg, run, Alone(k, NeedAccount, true, true, 0), ReadAccount(0, true), Alone(k, Acquiring, true, true, 0));
    run := run + [ReadAccount(0, true)];
    Then(cfg, run, Alone(k, Acquiring, true, true, 0), Acquire(0), Alone(k, LoggingIn, true, true, 1));
    run := run + [Acquire(0)];
  }

  lemma BypassRun(cfg: Config, proxy: string) returns (run: seq<Step>)
    requires cfg.maxLogins > 0 && proxy != "" && cfg.fallback && cfg.wellFormed(proxy)
    ensures CameDirect(cfg, 0, {1}, run, 0, proxy)
  {
    hide Next, Alone, Exec, Initial, LoggedIn, SessionExpiresAt, BypassSession;
    var k, st, d := Key(1, proxy), BypassSession(proxy), Dialled(false, Direct);
    BypassLogsIn(cfg, proxy);
    var expiresAt := SessionExpiresAt(st, 0, cfg.ttl);
    AloneLogsIn(cfg, k, st, d);
    AloneStores(cfg, k, st, d, expiresAt);
    run := RunToLogin(cfg, k);
    var a := Alone(k, Stamping(st, d), true, true, 1);
    Then(cfg, run, Alone(k, LoggingIn, true, true, 1), LogIn(0, Some(st), d), a);
    run := run + [LogIn(0, Some(st), d)];
    var b := Alone(k, Putting(st, d, expiresAt), true, true, 1);
    Then(cfg, run, a, Stamp(0), b);
    run := run + [Stamp(0)];
    var e := Next(cfg, b, Put(0, true));
    Then(cfg, run, b, Put(0, true), e);
    run := run + [Put(0, true)];
    var f := Next(cfg, e, Release(0));
    Then(cfg, run, e, Release(0), f);
    run := run + [Release(0)];
    Then(cfg, run, f, Unlock(0), Next(cfg, f, Unlock(0)));
    run := run + [Unlock(0)];
  }

  lemma BypassLogsIn(cfg: Config, proxy: string)
    requires proxy != "" && cfg.fallback && cfg.wellFormed(proxy)
    ensures LoggedIn(cfg, Key(1, proxy), 0, BypassSession(proxy), Dialled(false, Direct))
  {
    var tried := Dial(proxy, true, false, true);
    assert tried == [Through(proxy), Direct];
  }
}

/** Pool.state as the code runs it: internal/protocol/pool.go and the session methods of
    internal/store/store.go on shared fields that they update in place. Each of the first methods is
    one step of the transition system in Pool; a whole call of state, interleaved with whatever others
    do in between, is a run of that system. */
module PoolObject {
  import opened Bytes
  import opened Blob
  import opened LockName
  import opened Pool
  import opened Transport

  /** How the environment answers one call of state. */
  datatype Answers = Answers(
    firstRead: bool,
    secondRead: bool,
    account: bool,
    cancelled: bool,
    login: Option<WmpfSession>,
    dial: Dialled,
    put: bool)

  // ---- Interleaving ----------------------------------------------------------------------

  predicate By(t: Step, me: nat) {
    !Environment(t) && t.i == me
  }

  predicate OwnSteps(own: seq<Step>, me: nat) {
    forall k :: 0 <= k < |own| ==> By(own[k], me)
  }

  /** Nobody else takes this caller's steps. */
  ghost predicate Foreign(others: nat -> seq<Step>, me: nat) {
    forall k, t :: t in others(k) ==> !By(t, me)
  }

  /** A caller's own steps with, before the k-th of them, the steps others(k) of everyone else. */
  function Weave(own: seq<Step>, others: nat -> seq<Step>): seq<Step> {
    if |own| == 0 then []
    else
      var k := |own| - 1;
      Weave(own[..k], others) + others(k) + [own[k]]
  }

  lemma {:induction false} ExecJoin(cfg: Config, s: State, a: seq<Step>, b: seq<Step>)
    ensures Exec(cfg, s, a + b) == Exec(cfg, Exec(cfg, s, a), b)
    decreases |b|
  {
    hide Next;
    if |b| > 0 {
      var p := b[..|b| - 1];
      ExecJoin(cfg, s, a, p);
      assert a + b == (a + p) + [b[|b| - 1]];
      ExecSnoc(cfg, s, a + p, b[|b| - 1]);
    } else {
      assert a + b == a;
    }
  }

  /** One more own step, after the others'. */
  lemma WeaveSnoc(cfg: Config, s: State, own: seq<Step>, others: nat -> seq<Step>, t: Step)
    ensures Exec(cfg, s, Weave(own + [t], others))
         == Next(cfg, Exec(cfg, Exec(cfg, s, Weave(own, others)), others(|own|)), t)
  {
    hide Next, Exec;
    assert (own + [t])[..|own|] == own;
    ExecSnoc(cfg, s, Weave(own, others) + others(|own|), t);
    ExecJoin(cfg, s, Weave(own, others), others(|own|));
  }

  /** A step taken after the others is one more own step. */
  lemma Took(cfg: Config, s: State, own: seq<Step>, others: nat -> seq<Step>, mid: State, t: Step, me: nat)
    requires mid == Exec(cfg, Exec(cfg, s, Weave(own, others)), others(|own|))
    requires Enabled(cfg, mid, t) && By(t, me) && OwnSteps(own, me)
    ensures Apply(cfg, mid, t) == Exec(cfg, s, Weave(own + [t], others))
    ensures At(Apply(cfg, mid, t), me) && OwnSteps(own + [t], me)
  {
    hide Exec, Apply, Enabled, Weave;
    WeaveSnoc(cfg, s, own, others, t);
    MoveShape(cfg, mid, t);
  }

  /** A step of somebody else leaves this caller where it is. */
  lemma OthersLeave(cfg: Config, s: State, t: Step, me: nat)
    requires At(s, me) && !By(t, me)
    ensures At(Next(cfg, s, t), me) && Next(cfg, s, t).callers[me] == s.callers[me]
  {
    if Enabled(cfg, s, t) && !Environment(t) {
      hide Apply, Enabled;
      MoveShape(cfg, s, t);
    } else {
      hide NameOf, ReadRow;
    }
  }

  lemma {:induction false} KeysShrink(small: map<Key, Row>, big: map<Key, Row>)
    requires small.Keys <= big.Keys
    ensures |small| <= |big|
  {
    assert big.Keys == small.Keys + (big.Keys - small.Keys);
    assert |small.Keys| + |big.Keys - small.Keys| == |big.Keys|;
    assert |small| == |small.Keys| && |big| == |big.Keys|;
  }

  /** The table of s holds an unexpired row of the key. */
  predicate HasRow(s: State, key: Key) {
    key in s.table && s.table[key].expiresAt > s.clock
  }

  /** r is what reading that row in state s gives: the session in it, or an error if it does not decode. */
  predicate IsRowOf(s: State, key: Key, r: Result)
    requires HasRow(s, key)
  {
    match SessionFromBlob(s.table[key].blob)
    case None => r == Failed
    case Some(st) => r == Cached(st, s.table[key].born, |s.log|, s.clock)
  }

  /** A read that the database answered: the row if there is one, and nothing if there is none. */
  predicate ReadsRow(s: State, key: Key, r: Option<Result>) {
    if HasRow(s, key) then r.Some? && IsRowOf(s, key, r.value) else r == None
  }

  /** The caller cannot take its next step: its mutex is locked, or all tokens are out. */
  predicate Waiting(cfg: Config, s: State, me: nat) {
    At(s, me) && ((s.callers[me].pc.WantLock? && s.callers[me].lock in s.owner)
                  || (s.callers[me].pc.Acquiring? && s.tokens >= cfg.maxLogins))
  }

  class SessionPool {
    const cfg: Config
    var clock: int
    var accounts: set<int>
    var table: map<Key, Row>
    var locks: map<string, nat>
    var nextLock: nat
    var owner: map<nat, nat>
    var tokens: nat
    var callers: seq<Caller>
    var log: seq<Event>

    constructor (cfg: Config, clock: nat, accounts: set<int>)
      ensures this.cfg == cfg && View() == Initial(clock, accounts)
    {
      this.cfg, this.clock, this.accounts, table := cfg, clock, accounts, map[];
      locks, nextLock, owner, tokens, callers, log := map[], 0, map[], 0, [], [];
    }

    function View(): State
      reads this
    {
      State(clock, accounts, table, locks, nextLock, owner, tokens, callers, log)
    }

    // ---- The statements of state ---------------------------------------------------------

    /** store.GetSession and sessionFromBlob. */
    method GetSession(key: Key, dbOk: bool) returns (r: Option<Result>)
      ensures r == ReadRow(View(), key, dbOk)
      ensures if dbOk then ReadsRow(View(), key, r) else r == Some(Failed)
    {
      hide SessionFromBlob;
      if !dbOk { return Some(Failed); }
      if key !in table || table[key].expiresAt <= clock { return None; }
      var st := SessionFromBlob(table[key].blob);
      match st
      case None => return Some(Failed);
      case Some(v) => return Some(Cached(v, table[key].born, |log|, clock));
    }

    method FirstRead(me: nat, dbOk: bool) returns (r: Option<Result>)
      requires Enabled(cfg, View(), Read(me, dbOk))
      modifies this`callers
      ensures |callers| == old(|callers|) && callers[me].key == old(callers[me].key)
      ensures if dbOk then ReadsRow(old(View()), old(callers[me].key), r) else r == Some(Failed)
      ensures View() == Apply(cfg, old(View()), Read(me, dbOk))
      ensures callers[me].pc == if r.Some? then Done(r.value) else LookUp
    {
      hide ReadRow;
      r := GetSession(callers[me].key, dbOk);
      callers := callers[me := callers[me].(pc := if r.Some? then Done(r.value) else LookUp)];
    }

    method LockFor(me: nat)
      requires Enabled(cfg, View(), FindLock(me))
      modifies this`callers, this`locks, this`nextLock
      ensures View() == Apply(cfg, old(View()), FindLock(me))
    {
      hide NameOf;
      var name := NameOf(callers[me].key);
      if name !in locks {
        locks, nextLock := locks[name := nextLock], nextLock + 1;
      }
      callers := callers[me := callers[me].(pc := WantLock, lock := locks[name])];
    }

    method LockIt(me: nat)
      requires Enabled(cfg, View(), Lock(me))
      modifies this`callers, this`owner
      ensures View() == Apply(cfg, old(View()), Lock(me))
    {
      owner := owner[callers[me].lock := me];
      callers := callers[me := callers[me].(pc := Reread)];
    }

    method SecondRead(me: nat, dbOk: bool) returns (r: Option<Result>)
      requires Enabled(cfg, View(), ReadAgain(me, dbOk))
      modifies this`callers
      ensures if dbOk then ReadsRow(old(View()), old(callers[me].key), r) else r == Some(Failed)
      ensures View() == Apply(cfg, old(View()), ReadAgain(me, dbOk))
      ensures callers[me].pc == if r.Some? then Unlocking(r.value) else NeedAccount
    {
      hide ReadRow;
      var c := callers[me];
      r := GetSession(c.key, dbOk);
      if r.Some? {
        callers := callers[me := c.(pc := Unlocking(r.value))];
      } else {
        callers := callers[me := c.(pc := NeedAccount, missedFrom := |log|, missedAt := clock)];
      }
    }

    method GetAccount(me: nat, dbOk: bool) returns (ok: bool)
      requires Enabled(cfg, View(), ReadAccount(me, dbOk))
      modifies this`callers
      ensures View() == Apply(cfg, old(View()), ReadAccount(me, dbOk))
      ensures callers[me].pc == if ok then Acquiring else Unlocking(Failed)
    {
      ok := dbOk && callers[me].key.account in accounts;
      callers := callers[me := callers[me].(pc := if ok then Acquiring else Unlocking(Failed))];
    }

    /** acquire: take a token, or give up when the context is done. */
    method AcquireToken(me: nat, cancelled: bool)
      requires Enabled(cfg, View(), GiveUp(me)) && (cancelled || tokens < cfg.maxLogins)
      modifies this`callers, this`tokens
      ensures View() == Apply(cfg, old(View()), if cancelled then GiveUp(me) else Acquire(me))
    {
      if cancelled {
        callers := callers[me := callers[me].(pc := Unlocking(Failed))];
      } else {
        tokens := tokens + 1;
        callers := callers[me := callers[me].(pc := LoggingIn)];
      }
    }

    method LogInNow(me: nat, outcome: Option<WmpfSession>, dial: Dialled)
      requires Enabled(cfg, View(), LogIn(me, outcome, dial))
      modifies this`callers
      ensures View() == Apply(cfg, old(View()), LogIn(me, outcome, dial))
    {
      callers := callers[me := callers[me].(
                   pc := if outcome.Some? then Stamping(outcome.value, dial) else Releasing(Failed))];
    }

    method StampExpiry(me: nat)
      requires Enabled(cfg, View(), Stamp(me))
      modifies this`callers
      ensures View() == Apply(cfg, old(View()), Stamp(me))
    {
      var pc := callers[me].pc;
      var expiresAt := SessionExpiresAt(pc.st, clock, cfg.ttl);
      callers := callers[me := callers[me].(pc := Putting(pc.st, pc.dial, expiresAt))];
    }

    method PutSession(me: nat, dbOk: bool)
      requires Enabled(cfg, View(), Put(me, dbOk))
      modifies this`callers, this`table, this`log
      ensures View() == Apply(cfg, old(View()), Put(me, dbOk))
    {
      hide ToBlob, Reloaded;
      var c := callers[me];
      if dbOk && c.key.account in accounts {
        table := table[c.key := Row(Reloaded(ToBlob(c.pc.st)), c.pc.expiresAt, |log|)];
        callers := callers[me := c.(pc := Releasing(Fresh(c.pc.st, |log|)))];
        log := log + [Stored(c.key, c.pc.st, c.pc.expiresAt, c.pc.dial, c.missedFrom, c.missedAt)];
      } else {
        callers := callers[me := c.(pc := Releasing(Failed))];
      }
    }

    method ReleaseToken(me: nat)
      requires Enabled(cfg, View(), Release(me))
      modifies this`callers, this`tokens
      ensures View() == Apply(cfg, old(View()), Release(me))
    {
      if tokens > 0 { tokens := tokens - 1; }
      callers := callers[me := callers[me].(pc := Unlocking(callers[me].pc.result))];
    }

    method UnlockIt(me: nat)
      requires Enabled(cfg, View(), Unlock(me))
      modifies this`callers, this`owner
      ensures View() == Apply(cfg, old(View()), Unlock(me))
    {
      owner := owner - {callers[me].lock};
      callers := callers[me := callers[me].(pc := Done(callers[me].pc.result))];
    }

    // ---- The rest of the store -----------------------------------------------------------

    method InvalidateSession(key: Key)
      modifies this
      ensures View() == Apply(cfg, old(View()), Invalidate(key))
    {
      table := table - {key};
      log := log + [Invalidated(key)];
    }

    method PurgeExpiredSessions() returns (n: nat)
      modifies this
      ensures View() == Apply(cfg, old(View()), Purge)
      ensures n == |old(table)| - |table|
    {
      var kept := map k | k in table && table[k].expiresAt > clock :: table[k];
      KeysShrink(kept, table);
      n := |table| - |kept|;
      table := kept;
    }

    method RemoveAccount(id: int)
      modifies this
      ensures View() == Apply(cfg, old(View()), DeleteAccount(id))
    {
      accounts := accounts - {id};
      table := map k | k in table && k.account != id :: table[k];
      log := log + [Deleted(id)];
    }

    // ---- Any run -------------------------------------------------------------------------

    /** The steps of the environment. */
    method PerformOutside(t: Step)
      requires Environment(t)
      modifies this
      ensures View() == Apply(cfg, old(View()), t)
    {
      hide NameOf, ReadRow;
      match t
      case Tick(d) => clock := clock + d;
      case Arrive(key) => callers := callers + [Caller(key, Start, 0, 0, 0)];
      case Invalidate(key) => InvalidateSession(key);
      case AddAccount(id) => accounts := accounts + {id};
      case DeleteAccount(id) => RemoveAccount(id);
      case Purge => var _ := PurgeExpiredSessions();
    }

    /** The step of some caller, if it is its turn. */
    method PerformOwn(t: Step)
      requires !Environment(t) && Enabled(cfg, View(), t)
      modifies this
      ensures View() == Apply(cfg, old(View()), t)
    {
      hide Apply, LoggedIn;
      match t
      case Read(i, dbOk) => var _ := FirstRead(i, dbOk);
      case FindLock(i) => LockFor(i);
      case Lock(i) => LockIt(i);
      case ReadAgain(i, dbOk) => var _ := SecondRead(i, dbOk);
      case ReadAccount(i, dbOk) => var _ := GetAccount(i, dbOk);
      case Acquire(i) => AcquireToken(i, false);
      case GiveUp(i) => AcquireToken(i, true);
      case LogIn(i, outcome, dial) => LogInNow(i, outcome, dial);
      case Stamp(i) => StampExpiry(i);
      case Put(i, dbOk) => PutSession(i, dbOk);
      case Release(i) => ReleaseToken(i);
      case Unlock(i) => UnlockIt(i);
    }

    /** Others at work on the shared fields while this caller is between two of its steps. */
    method RunOthers(run: seq<Step>, me: nat)
      requires me < |callers| && forall t :: t in run ==> !By(t, me)
      modifies this
      ensures View() == Exec(cfg, old(View()), run)
      ensures me < |callers| && callers[me] == old(callers[me])
    {
      hide Apply, Enabled, Exec;
      ghost var s0 := View();
      ExecNone(cfg, s0);
      assert run[..0] == [];
      for n := 0 to |run|
        invariant View() == Exec(cfg, s0, run[..n])
        invariant me < |callers| && callers[me] == s0.callers[me]
      {
        var t := run[n];
        ghost var s := View();
        if Environment(t) {
          EnvironmentIsEnabled(cfg, s, t);
          PerformOutside(t);
        } else if Enabled(cfg, View(), t) {
          PerformOwn(t);
        }
        assert View() == Next(cfg, s, t);
        OthersLeave(cfg, s, t, me);
        ExecSnoc(cfg, s0, run[..n], t);
        assert run[..n + 1] == run[..n] + [t];
      }
      assert run[..|run|] == run;
    }

    // ---- A whole call --------------------------------------------------------------------

    /** Caller me has taken the steps own since s0, and it is about to take another. */
    ghost predicate Calls(me: nat, others: nat -> seq<Step>, s0: State, own: seq<Step>)
      reads this
    {
      && Foreign(others, me) && me < |callers| && OwnSteps(own, me)
      && View() == Exec(cfg, s0, Weave(own, others))
    }

    /** The same, with the others' steps before the next one done. */
    ghost predicate Resumes(me: nat, others: nat -> seq<Step>, s0: State, own: seq<Step>)
      reads this
    {
      && Foreign(others, me) && me < |callers| && OwnSteps(own, me)
      && View() == Exec(cfg, Exec(cfg, s0, Weave(own, others)), others(|own|))
    }

    method Resume(me: nat, others: nat -> seq<Step>, k: nat, ghost s0: State, ghost own: seq<Step>)
      requires Calls(me, others, s0, own) && k == |own|
      modifies this
      ensures Resumes(me, others, s0, own) && callers[me] == old(callers[me])
    {
      hide Exec;
      RunOthers(others(k), me);
    }

    /** The first read, without the lock. */
    method ReadOnce(me: nat, a: Answers, others: nat -> seq<Step>, k0: nat, ghost s0: State, ghost own0: seq<Step>)
      returns (r: Option<Result>, k: nat, ghost own: seq<Step>)
      requires Calls(me, others, s0, own0) && k0 == |own0| && callers[me].pc.Start?
      modifies this
      ensures |own| == k0 + 1
      ensures var s := Exec(cfg, old(View()), others(k0));
              if a.firstRead then ReadsRow(s, old(callers[me].key), r) else r == Some(Failed)
      ensures Calls(me, others, s0, own) && k == |own|
      ensures callers[me].key == old(callers[me].key)
      ensures callers[me].pc == if r.Some? then Done(r.value) else LookUp
    {
      hide Exec, Weave, Apply, ReadRow;
      own, k := own0, k0;
      Resume(me, others, k, s0, own);
      ghost var sa := View();
      r := FirstRead(me, a.firstRead);
      Took(cfg, s0, own, others, sa, Read(me, a.firstRead), me);
      own, k := own + [Read(me, a.firstRead)], k + 1;
    }

    /** lockFor and Lock. Without the mutex the call is still waiting for it. */
    method TakeLock(me: nat, others: nat -> seq<Step>, k0: nat, ghost s0: State, ghost own0: seq<Step>)
      returns (locked: bool, k: nat, ghost own: seq<Step>)
      requires Calls(me, others, s0, own0) && k0 == |own0| && callers[me].pc.LookUp?
      modifies this
      ensures |own| == k0 + if locked then 2 else 1
      ensures k == |own| && me < |callers| && callers[me].key == old(callers[me].key)
      ensures locked ==> Calls(me, others, s0, own) && callers[me].pc == Reread
      ensures !locked ==> Resumes(me, others, s0, own) && Waiting(cfg, View(), me)
    {
      hide Exec, Weave, NameOf;
      own, k := own0, k0;
      Resume(me, others, k, s0, own);
      ghost var sa := View();
      LockFor(me);
      Took(cfg, s0, own, others, sa, FindLock(me), me);
      own, k := own + [FindLock(me)], k + 1;
      Resume(me, others, k, s0, own);
      if callers[me].lock in owner { return false, k, own; }
      ghost var sb := View();
      LockIt(me);
      Took(cfg, s0, own, others, sb, Lock(me), me);
      own, k, locked := own + [Lock(me)], k + 1, true;
    }

    /** Between Lock and acquire: the second read and the account. Without a result the call goes on
        to acquire. */
    method CheckAgain(me: nat, a: Answers, others: nat -> seq<Step>, k0: nat, ghost s0: State, ghost own0: seq<Step>)
      returns (r: Option<Result>, k: nat, ghost own: seq<Step>)
      requires Calls(me, others, s0, own0) && k0 == |own0| && callers[me].pc.Reread?
      modifies this
      ensures own0 < own
      ensures var s, key := Exec(cfg, old(View()), others(k0)), old(callers[me].key);
              if a.secondRead then HasRow(s, key) ==> ReadsRow(s, key, r) else r == Some(Failed)
      ensures Calls(me, others, s0, own) && k == |own|
      ensures callers[me].pc == if r.Some? then Unlocking(r.value) else Acquiring
    {
      hide Exec, Weave, ReadRow;
      own, k := own0, k0;
      Resume(me, others, k, s0, own);
      ghost var sa := View();
      r := SecondRead(me, a.secondRead);
      Took(cfg, s0, own, others, sa, ReadAgain(me, a.secondRead), me);
      own, k := own + [ReadAgain(me, a.secondRead)], k + 1;
      if r.Some? { return; }
      Resume(me, others, k, s0, own);
      ghost var sb := View();
      var ok := GetAccount(me, a.account);
      Took(cfg, s0, own, others, sb, ReadAccount(me, a.account), me);
      own, k := own + [ReadAccount(me, a.account)], k + 1;
      if !ok { r := Some(Failed); }
    }

    /** loginAndSession. An outcome that no login can have at that time counts as a failure. */
    method AskLogin(me: nat, a: Answers, others: nat -> seq<Step>, k0: nat, ghost s0: State, ghost own0: seq<Step>)
      returns (ok: bool, k: nat, ghost own: seq<Step>)
      requires Calls(me, others, s0, own0) && k0 == |own0| && callers[me].pc.LoggingIn?
      modifies this
      ensures own0 <= own
      ensures Calls(me, others, s0, own) && k == |own|
      ensures if ok then callers[me].pc.Stamping? else callers[me].pc == Releasing(Failed)
    {
      hide Exec, Weave, LoggedIn;
      own, k := own0, k0;
      Resume(me, others, k, s0, own);
      ok := a.login.Some? && LoggedIn(cfg, callers[me].key, clock, a.login.value, a.dial);
      ghost var sa := View();
      var outcome := if ok then a.login else None;
      LogInNow(me, outcome, a.dial);
      Took(cfg, s0, own, others, sa, LogIn(me, outcome, a.dial), me);
      own, k := own + [LogIn(me, outcome, a.dial)], k + 1;
    }

    /** sessionExpiresAt and PutSession. */
    method StampAndPut(me: nat, a: Answers, others: nat -> seq<Step>, k0: nat, ghost s0: State, ghost own0: seq<Step>)
      returns (r: Result, k: nat, ghost own: seq<Step>)
      requires Calls(me, others, s0, own0) && k0 == |own0| && callers[me].pc.Stamping?
      modifies this
      ensures own0 <= own
      ensures Calls(me, others, s0, own) && k == |own| && callers[me].pc == Releasing(r)
    {
      hide Exec, Weave, ToBlob, Reloaded, SessionExpiresAt;
      own, k := own0, k0;
      Resume(me, others, k, s0, own);
      ghost var sa := View();
      StampExpiry(me);
      Took(cfg, s0, own, others, sa, Stamp(me), me);
      own, k := own + [Stamp(me)], k + 1;
      Resume(me, others, k, s0, own);
      ghost var sb := View();
      PutSession(me, a.put);
      Took(cfg, s0, own, others, sb, Put(me, a.put), me);
      own, k := own + [Put(me, a.put)], k + 1;
      r := callers[me].pc.result;
    }

    /** Between acquire and release. */
    method WithToken(me: nat, a: Answers, others: nat -> seq<Step>, k0: nat, ghost s0: State, ghost own0: seq<Step>)
      returns (r: Result, k: nat, ghost own: seq<Step>)
      requires Calls(me, others, s0, own0) && k0 == |own0| && callers[me].pc.LoggingIn?
      modifies this
      ensures own0 <= own
      ensures Calls(me, others, s0, own) && k == |own| && callers[me].pc == Releasing(r)
    {
      hide Exec, Weave;
      var ok;
      ok, k, own := AskLogin(me, a, others, k0, s0, own0);
      if !ok { return Failed, k, own; }
      r, k, own := StampAndPut(me, a, others, k, s0, own);
    }

    /** acquire. got is whether it has a token; without one and without being cancelled it still waits. */
    method AskToken(me: nat, a: Answers, others: nat -> seq<Step>, k0: nat, ghost s0: State, ghost own0: seq<Step>)
      returns (got: bool, k: nat, ghost own: seq<Step>)
      requires Calls(me, others, s0, own0) && k0 == |own0| && callers[me].pc.Acquiring?
      modifies this
      ensures own0 <= own
      ensures k == |own|
      ensures got ==> Calls(me, others, s0, own) && callers[me].pc == LoggingIn
      ensures !got && a.cancelled ==> Calls(me, others, s0, own) && callers[me].pc == Unlocking(Failed)
      ensures !got && !a.cancelled ==> Resumes(me, others, s0, own) && Waiting(cfg, View(), me)
    {
      hide Exec, Weave;
      own, k := own0, k0;
      Resume(me, others, k, s0, own);
      if !a.cancelled && tokens >= cfg.maxLogins { return false, k, own; }
      ghost var sa := View();
      AcquireToken(me, a.cancelled);
      ghost var t := if a.cancelled then GiveUp(me) else Acquire(me);
      Took(cfg, s0, own, others, sa, t, me);
      own, k, got := own + [t], k + 1, !a.cancelled;
    }

    /** acquire, the part under the token, release. Without a result the call is still waiting for a
        token. */
    method Authorised(me: nat, a: Answers, others: nat -> seq<Step>, k0: nat, ghost s0: State, ghost own0: seq<Step>)
      returns (r: Option<Result>, k: nat, ghost own: seq<Step>)
      requires Calls(me, others, s0, own0) && k0 == |own0| && callers[me].pc.Acquiring?
      modifies this
      ensures own0 <= own
      ensures k == |own|
      ensures r.Some? ==> Calls(me, others, s0, own) && callers[me].pc == Unlocking(r.value)
      ensures r.None? ==> Resumes(me, others, s0, own) && Waiting(cfg, View(), me)
    {
      hide Exec, Weave, Waiting;
      var got, result;
      got, k, own := AskToken(me, a, others, k0, s0, own0);
      if !got { return if a.cancelled then Some(Failed) else None, k, own; }
      result, k, own := WithToken(me, a, others, k, s0, own);
      Resume(me, others, k, s0, own);
      ghost var sb := View();
      ReleaseToken(me);
      Took(cfg, s0, own, others, sb, Release(me), me);
      own, k := own + [Release(me)], k + 1;
      r := Some(result);
    }

    /** What the second read, made after the steps own and the others' next ones, does to the result. */
    ghost predicate Rereads(key: Key, a: Answers, others: nat -> seq<Step>, s0: State, own: seq<Step>,
                            r: Option<Result>)
    {
      var s := Exec(cfg, Exec(cfg, s0, Weave(own, others)), others(|own|));
      if a.secondRead then HasRow(s, key) ==> ReadsRow(s, key, r) else r == Some(Failed)
    }

    /** The deferred Unlock. */
    method LeaveLock(me: nat, others: nat -> seq<Step>, k: nat, ghost s0: State, ghost own0: seq<Step>)
      returns (ghost own: seq<Step>)
      requires Calls(me, others, s0, own0) && k == |own0| && callers[me].pc.Unlocking?
      modifies this
      ensures own0 < own && Calls(me, others, s0, own) && callers[me].pc == Done(old(callers[me].pc.result))
    {
      hide Exec, Weave;
      own := own0;
      Resume(me, others, k, s0, own);
      ghost var sa := View();
      UnlockIt(me);
      Took(cfg, s0, own, others, sa, Unlock(me), me);
      own := own + [Unlock(me)];
    }

    /** The part of state with the mutex: its last statement is the deferred Unlock. */
    method AfterMiss(me: nat, a: Answers, others: nat -> seq<Step>, k0: nat, ghost s0: State, ghost own0: seq<Step>)
      returns (r: Option<Result>, k: nat, ghost own: seq<Step>)
      requires Calls(me, others, s0, own0) && k0 == |own0| && callers[me].pc.LookUp?
      modifies this
      ensures |own| > k0 + 2 ==> Rereads(old(callers[me].key), a, others, s0, own[..k0 + 2], r)
      ensures r.Some? ==> Calls(me, others, s0, own) && callers[me].pc == Done(r.value)
      ensures r.None? ==> Resumes(me, others, s0, own) && Waiting(cfg, View(), me)
    {
      hide Exec, Weave, Waiting, Apply, Enabled, HasRow, IsRowOf;
      var locked;
      locked, k, own := TakeLock(me, others, k0, s0, own0);
      if !locked { return None, k, own; }
      ghost var held := own;
      r, k, own := CheckAgain(me, a, others, k, s0, own);
      if r.None? { r, k, own := Authorised(me, a, others, k, s0, own); }
      if r.Some? { own := LeaveLock(me, others, k, s0, own); }
      assert own[..k0 + 2] == held;
    }

    /** One call of state. others says what everyone else does before each of its steps. The call and
        the others together are a run of the transition system, in which this caller's steps come in
        the order of the code. It returns, or is found waiting for its mutex or, inside it, for a token. */
    method GetState(me: nat, a: Answers, others: nat -> seq<Step>) returns (r: Option<Result>, ghost own: seq<Step>)
      requires me < |callers| && callers[me].pc.Start? && Foreign(others, me)
      modifies this
      ensures !a.firstRead ==> r == Some(Failed)
      ensures var s, key := Exec(cfg, old(View()), others(0)), old(callers[me].key);
              a.firstRead && HasRow(s, key) ==> ReadsRow(s, key, r)
      ensures |own| > 3 ==> Rereads(old(callers[me].key), a, others, old(View()), own[..3], r)
      ensures OwnSteps(own, me) && me < |callers|
      ensures r.Some? ==> View() == Exec(cfg, old(View()), Weave(own, others)) && callers[me].pc == Done(r.value)
      ensures r.None? ==> View() == Exec(cfg, old(View()), Weave(own, others) + others(|own|))
      ensures r.None? ==> Waiting(cfg, View(), me)
    {
      hide Exec, Weave, Waiting;
      ghost var s0 := View();
      WeaveNone(cfg, s0, others);
      var k;
      own := [];
      r, k, own := ReadOnce(me, a, others, 0, s0, own);
      if r.None? { r, k, own := AfterMiss(me, a, others, k, s0, own); }
      ExecJoin(cfg, s0, Weave(own, others), others(|own|));
    }
  }

  lemma EnvironmentIsEnabled(cfg: Config, s: State, t: Step)
    requires Environment(t)
    ensures Enabled(cfg, s, t)
  {
  }

  lemma WeaveNone(cfg: Config, s: State, others: nat -> seq<Step>)
    ensures Weave([], others) == [] && Exec(cfg, s, Weave([], others)) == s
  {
  }
}

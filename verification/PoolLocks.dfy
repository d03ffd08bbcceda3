/** Mutexes and login tokens of the pool: who holds what, over every run. */
module PoolLocks {
  import opened Bytes
  import opened LockName
  import opened Pool
  import opened Transport

  predicate KnowsLock(pc: Pc) { pc.WantLock? || HoldsLock(pc) }

  /** Every caller's lock is the one registered under its key's name. */
  predicate Registered(s: State) {
    && (forall n :: n in s.locks ==> s.locks[n] < s.nextLock)
    && (forall m, n :: m in s.locks && n in s.locks && s.locks[m] == s.locks[n] ==> m == n)
    && forall i :: 0 <= i < |s.callers| && KnowsLock(s.callers[i].pc) ==> RegisteredCaller(s, s.callers[i])
  }

  predicate RegisteredCaller(s: State, c: Caller) {
    NameOf(c.key) in s.locks && s.locks[NameOf(c.key)] == c.lock
  }

  /** owner is exactly the set of callers between Lock and Unlock. */
  predicate Owned(s: State) {
    && (forall i :: 0 <= i < |s.callers| && HoldsLock(s.callers[i].pc) ==> Owns(s, s.callers[i].lock, i))
    && forall l :: l in s.owner ==> OwnedBy(s, l, s.owner[l])
  }

  predicate Owns(s: State, l: nat, i: nat) {
    l in s.owner && s.owner[l] == i
  }

  predicate OwnedBy(s: State, l: nat, i: nat) {
    i < |s.callers| && HoldsLock(s.callers[i].pc) && s.callers[i].lock == l
  }

  predicate Counted(cfg: Config, s: State) {
    s.tokens == Total(Token, s.callers) <= cfg.maxLogins
  }

  predicate LocksInv(cfg: Config, s: State) {
    Registered(s) && Owned(s) && Counted(cfg, s)
  }

  // ---- Every step keeps the invariant ----------------------------------------------------

  lemma RegisteredMove(s: State, s': State, i: nat)
    requires Registered(s) && At(s, i) && At(s', i) && s'.callers == s.callers[i := s'.callers[i]]
    requires s'.locks == s.locks && s'.nextLock == s.nextLock
    requires KnowsLock(s'.callers[i].pc) ==> RegisteredCaller(s, s'.callers[i])
    ensures Registered(s')
  {
    hide NameOf;
    assert forall c :: RegisteredCaller(s', c) == RegisteredCaller(s, c);
  }

  lemma RegisteredLookUp(cfg: Config, s: State, i: nat)
    requires Registered(s) && Enabled(cfg, s, FindLock(i))
    ensures Registered(Own(cfg, s, FindLock(i)))
  {
    hide NameOf, ReadRow;
    var s' := Own(cfg, s, FindLock(i));
    assert forall n :: n in s.locks ==> n in s'.locks && s'.locks[n] == s.locks[n];
    forall j | 0 <= j < |s'.callers| && KnowsLock(s'.callers[j].pc) ensures RegisteredCaller(s', s'.callers[j]) {
      if j != i { assert RegisteredCaller(s, s.callers[j]); }
    }
  }

  lemma RegisteredStep(cfg: Config, s: State, t: Step)
    requires Registered(s) && Enabled(cfg, s, t)
    ensures Registered(Apply(cfg, s, t))
  {
    hide NameOf, ReadRow;
    if Environment(t) {
      hide RegisteredCaller;
      var s' := Apply(cfg, s, t);
      forall j | 0 <= j < |s'.callers| && KnowsLock(s'.callers[j].pc) ensures RegisteredCaller(s', s'.callers[j]) {
        SameLocks(s, s', s'.callers[j]);
      }
    } else if t.FindLock? {
      RegisteredLookUp(cfg, s, t.i);
    } else {
      KnowsBefore(cfg, s, t);
      hide Apply, Enabled;
      MoveShape(cfg, s, t);
      RegisteredMove(s, Apply(cfg, s, t), t.i);
    }
  }

  lemma SameLocks(s: State, s': State, c: Caller)
    requires s'.locks == s.locks
    ensures RegisteredCaller(s', c) == RegisteredCaller(s, c)
  {
  }

  lemma KnowsBefore(cfg: Config, s: State, t: Step)
    requires Enabled(cfg, s, t) && !Environment(t) && !t.FindLock?
    ensures At(Apply(cfg, s, t), t.i)
    ensures KnowsLock(Apply(cfg, s, t).callers[t.i].pc) ==> KnowsLock(s.callers[t.i].pc)
  {
    hide NameOf, ReadRow;
  }

  lemma OwnedMove(s: State, s': State, i: nat)
    requires Owned(s) && At(s, i) && At(s', i) && s'.callers == s.callers[i := s'.callers[i]] && s'.owner == s.owner
    requires HoldsLock(s'.callers[i].pc) == HoldsLock(s.callers[i].pc)
    requires HoldsLock(s.callers[i].pc) ==> s'.callers[i].lock == s.callers[i].lock
    ensures Owned(s')
  {
    hide HoldsLock;
    forall l | l in s'.owner ensures OwnedBy(s', l, s'.owner[l]) { assert OwnedBy(s, l, s.owner[l]); }
  }

  lemma OwnedLock(cfg: Config, s: State, i: nat)
    requires Owned(s) && Enabled(cfg, s, Lock(i))
    ensures Owned(Own(cfg, s, Lock(i)))
  {
    hide NameOf, ReadRow;
    var s' := Own(cfg, s, Lock(i));
    forall l | l in s'.owner ensures OwnedBy(s', l, s'.owner[l]) {
      if l in s.owner { assert OwnedBy(s, l, s.owner[l]); }
    }
  }

  lemma OwnedUnlock(cfg: Config, s: State, i: nat)
    requires Owned(s) && Enabled(cfg, s, Unlock(i))
    ensures Owned(Own(cfg, s, Unlock(i)))
  {
    hide NameOf, ReadRow;
    var s' := Own(cfg, s, Unlock(i));
    forall l | l in s'.owner ensures OwnedBy(s', l, s'.owner[l]) { assert OwnedBy(s, l, s.owner[l]); }
  }

  lemma OwnedArrive(s: State, c: Caller)
    requires Owned(s) && !HoldsLock(c.pc)
    ensures Owned(s.(callers := s.callers + [c]))
  {
    var s' := s.(callers := s.callers + [c]);
    forall l | l in s'.owner ensures OwnedBy(s', l, s'.owner[l]) { assert OwnedBy(s, l, s.owner[l]); }
  }

  lemma OwnedSame(s: State, s': State)
    requires Owned(s) && s'.callers == s.callers && s'.owner == s.owner
    ensures Owned(s')
  {
    forall l | l in s'.owner ensures OwnedBy(s', l, s'.owner[l]) { assert OwnedBy(s, l, s.owner[l]); }
  }

  lemma OwnedStep(cfg: Config, s: State, t: Step)
    requires Owned(s) && Enabled(cfg, s, t)
    ensures Owned(Apply(cfg, s, t))
  {
    hide Owned, NameOf, ReadRow;
    if t.Arrive? {
      OwnedArrive(s, Caller(t.key, Start, 0, 0, 0));
    } else if Environment(t) {
      OwnedSame(s, Apply(cfg, s, t));
    } else if t.Lock? {
      OwnedLock(cfg, s, t.i);
    } else if t.Unlock? {
      OwnedUnlock(cfg, s, t.i);
    } else {
      HoldsAfter(cfg, s, t);
      hide Apply, Enabled;
      MoveShape(cfg, s, t);
      OwnedMove(s, Apply(cfg, s, t), t.i);
    }
  }

  lemma HoldsAfter(cfg: Config, s: State, t: Step)
    requires Enabled(cfg, s, t) && !Environment(t) && !t.Lock? && !t.Unlock?
    ensures At(Apply(cfg, s, t), t.i) && HoldsLock(Apply(cfg, s, t).callers[t.i].pc) == HoldsLock(s.callers[t.i].pc)
    ensures t.FindLock? ==> !HoldsLock(s.callers[t.i].pc)
  {
    hide NameOf, ReadRow;
  }

  lemma CountedStep(cfg: Config, s: State, t: Step)
    requires Counted(cfg, s) && Enabled(cfg, s, t)
    ensures Counted(cfg, Apply(cfg, s, t))
  {
    hide NameOf, ReadRow, Total;
    var s' := Apply(cfg, s, t);
    if Environment(t) {
      if t.Arrive? { TotalAppend(Token, s.callers, s'.callers[|s.callers|]); }
    } else {
      TotalUpdate(Token, s.callers, t.i, s'.callers[t.i]);
    }
  }

  lemma {:induction false} LocksAlways(cfg: Config, clock: nat, accounts: set<int>, run: seq<Step>)
    ensures LocksInv(cfg, Exec(cfg, Initial(clock, accounts), run))
    decreases |run|
  {
    hide Registered, Owned, Counted;
    if |run| > 0 {
      var s, t := Exec(cfg, Initial(clock, accounts), run[..|run| - 1]), run[|run| - 1];
      LocksAlways(cfg, clock, accounts, run[..|run| - 1]);
      if Enabled(cfg, s, t) { RegisteredStep(cfg, s, t); OwnedStep(cfg, s, t); CountedStep(cfg, s, t); }
    } else {
      InitialLocks(cfg, clock, accounts);
    }
  }

  lemma InitialLocks(cfg: Config, clock: nat, accounts: set<int>)
    ensures LocksInv(cfg, Initial(clock, accounts))
  {
  }

  // ---- Safety ----------------------------------------------------------------------------

  /** At most one caller per account and proxy is between Lock and Unlock. */
  lemma MutualExclusion(cfg: Config, clock: nat, accounts: set<int>, run: seq<Step>, i: nat, j: nat)
    requires var s := Exec(cfg, Initial(clock, accounts), run);
             && At(s, i) && At(s, j) && s.callers[i].key == s.callers[j].key
             && HoldsLock(s.callers[i].pc) && HoldsLock(s.callers[j].pc)
    ensures i == j
  {
    hide NameOf;
    LocksAlways(cfg, clock, accounts, run);
  }

  /** A caller only ever waits for a mutex held on behalf of its own account and proxy. */
  lemma WaitsForSameKey(cfg: Config, clock: nat, accounts: set<int>, run: seq<Step>, i: nat)
    requires var s := Exec(cfg, Initial(clock, accounts), run);
             At(s, i) && s.callers[i].pc.WantLock? && s.callers[i].lock in s.owner
    ensures var s := Exec(cfg, Initial(clock, accounts), run);
            var j := s.owner[s.callers[i].lock];
            At(s, j) && HoldsLock(s.callers[j].pc) && s.callers[j].key == s.callers[i].key
  {
    hide NameOf, Exec;
    LocksAlways(cfg, clock, accounts, run);
    var s := Exec(cfg, Initial(clock, accounts), run);
    var j := s.owner[s.callers[i].lock];
    assert OwnedBy(s, s.callers[i].lock, j);
    assert RegisteredCaller(s, s.callers[i]) && RegisteredCaller(s, s.callers[j]);
    NamesAreDistinct(s.callers[i].key, s.callers[j].key);
  }

  /** Tokens in the channel are the logins in flight, never more than the capacity, and a release
      always finds a token to take out. */
  lemma TokensAreLogins(cfg: Config, clock: nat, accounts: set<int>, run: seq<Step>)
    ensures var s := Exec(cfg, Initial(clock, accounts), run);
            && s.tokens == Total(Token, s.callers) <= cfg.maxLogins
            && forall i :: 0 <= i < |s.callers| && s.callers[i].pc.Releasing? ==> s.tokens > 0
  {
    hide Exec, Total;
    LocksAlways(cfg, clock, accounts, run);
    var s := Exec(cfg, Initial(clock, accounts), run);
    forall i | 0 <= i < |s.callers| && s.callers[i].pc.Releasing? ensures s.tokens > 0 {
      TotalUpdate(Token, s.callers, i, s.callers[i]);
    }
  }

  predicate AllDone(s: State) {
    forall i :: 0 <= i < |s.callers| ==> s.callers[i].pc.Done?
  }

  lemma NoOwner(s: State, l: nat)
    requires Owned(s) && AllDone(s)
    ensures l !in s.owner
  {
    assert l in s.owner ==> OwnedBy(s, l, s.owner[l]);
  }

  /** Every way out of state gives back what it took: with all callers returned, no mutex is locked
      and no token is out. */
  lemma NothingIsKept(cfg: Config, clock: nat, accounts: set<int>, run: seq<Step>)
    requires AllDone(Exec(cfg, Initial(clock, accounts), run))
    ensures var s := Exec(cfg, Initial(clock, accounts), run); s.owner == map[] && s.tokens == 0
  {
    hide Exec, Total;
    LocksAlways(cfg, clock, accounts, run);
    var s := Exec(cfg, Initial(clock, accounts), run);
    forall l ensures l !in s.owner { NoOwner(s, l); }
    if s.tokens > 0 { var i := TotalPositive(Token, s.callers); }
  }

  // ---- Progress --------------------------------------------------------------------------

  /** A step of a caller that neither fails nor gives up, except that a login may fail. */
  predicate Advances(t: Step) {
    && !Environment(t) && !t.GiveUp?
    && (t.Read? || t.ReadAgain? || t.ReadAccount? || t.Put? ==> t.dbOk)
  }

  /** The next step of a caller, waiting aside. */
  function StepOf(s: State, i: nat): Step
    requires At(s, i) && !s.callers[i].pc.Done?
  {
    match s.callers[i].pc
    case Start => Read(i, true)
    case LookUp => FindLock(i)
    case WantLock => Lock(i)
    case Reread => ReadAgain(i, true)
    case NeedAccount => ReadAccount(i, true)
    case Acquiring => Acquire(i)
    case LoggingIn => LogIn(i, None, Dialled(false, Direct))
    case Stamping(_, _) => Stamp(i)
    case Putting(_, _, _) => Put(i, true)
    case Releasing(_) => Release(i)
    case Unlocking(_) => Unlock(i)
  }

  /** Someone can always move: a token holder waits for nothing, a lock holder at most for a token,
      anyone else at most for a lock. */
  lemma SomeoneMoves(cfg: Config, s: State, i: nat) returns (t: Step)
    requires cfg.maxLogins > 0 && LocksInv(cfg, s) && At(s, i) && !s.callers[i].pc.Done?
    ensures Enabled(cfg, s, t) && Advances(t)
    decreases if HoldsLock(s.callers[i].pc) then if HoldsToken(s.callers[i].pc) then 0 else 1 else 2
  {
    hide Total, Registered;
    if s.callers[i].pc.WantLock? && s.callers[i].lock in s.owner {
      assert OwnedBy(s, s.callers[i].lock, s.owner[s.callers[i].lock]);
      t := SomeoneMoves(cfg, s, s.owner[s.callers[i].lock]);
    } else if s.callers[i].pc.Acquiring? && s.tokens == cfg.maxLogins {
      var j := TotalPositive(Token, s.callers);
      t := SomeoneMoves(cfg, s, j);
    } else {
      t := StepOf(s, i);
    }
  }

  /** The pool never deadlocks. */
  lemma NeverStuck(cfg: Config, clock: nat, accounts: set<int>, run: seq<Step>)
    requires cfg.maxLogins > 0 && !AllDone(Exec(cfg, Initial(clock, accounts), run))
    ensures exists t :: Enabled(cfg, Exec(cfg, Initial(clock, accounts), run), t) && Advances(t)
  {
    hide Exec, LocksInv, Enabled;
    LocksAlways(cfg, clock, accounts, run);
    var s := Exec(cfg, Initial(clock, accounts), run);
    var i :| 0 <= i < |s.callers| && !s.callers[i].pc.Done?;
    var t := SomeoneMoves(cfg, s, i);
  }

  // ---- Termination -----------------------------------------------------------------------

  function Work(cfg: Config, s: State, run: seq<Step>): nat
    decreases |run|
  {
    if |run| == 0 then 0
    else
      var t := run[|run| - 1];
      Work(cfg, s, run[..|run| - 1])
      + if Enabled(cfg, Exec(cfg, s, run[..|run| - 1]), t) && !Environment(t) then 1 else 0
  }

  lemma RankStep(cfg: Config, s: State, t: Step)
    requires Enabled(cfg, s, t)
    ensures var r, r' := Total(Rank, s.callers), Total(Rank, Apply(cfg, s, t).callers);
            if t.Arrive? then r' == r + 11 else if Environment(t) then r' == r else r' < r
  {
    hide Total, Rank;
    var s' := Apply(cfg, s, t);
    if t.Arrive? {
      TotalAppend(Rank, s.callers, s'.callers[|s.callers|]);
      StartRank();
    } else if !Environment(t) {
      hide Apply, Enabled;
      MoveShape(cfg, s, t);
      TotalUpdate(Rank, s.callers, t.i, s'.callers[t.i]);
    }
  }

  lemma StartRank()
    ensures Rank(Start) == 11
  {
  }

  lemma NoRank()
    ensures Total(Rank, []) == 0
  {
  }

  /** No livelock: however a run is scheduled, its callers take at most eleven steps each. */
  lemma {:induction false} WorkIsBounded(cfg: Config, clock: nat, accounts: set<int>, run: seq<Step>)
    ensures var s := Initial(clock, accounts);
            Work(cfg, s, run) + Total(Rank, Exec(cfg, s, run).callers) <= 11 * |Exec(cfg, s, run).callers|
    decreases |run|
  {
    hide Apply, Total, Enabled;
    var s := Initial(clock, accounts);
    if |run| > 0 {
      var p, t := Exec(cfg, s, run[..|run| - 1]), run[|run| - 1];
      WorkIsBounded(cfg, clock, accounts, run[..|run| - 1]);
      if Enabled(cfg, p, t) { RankStep(cfg, p, t); CallersGrow(cfg, p, t); }
    } else {
      NoRank();
    }
  }

  lemma CallersGrow(cfg: Config, s: State, t: Step)
    requires Enabled(cfg, s, t)
    ensures |Apply(cfg, s, t).callers| == |s.callers| + if t.Arrive? then 1 else 0
  {
    hide NameOf, ReadRow;
  }

  lemma {:induction false} ExecCons(cfg: Config, s: State, t: Step, run: seq<Step>)
    ensures Exec(cfg, s, [t] + run) == Exec(cfg, Next(cfg, s, t), run)
    decreases |run|
  {
    hide Next;
    var whole := [t] + run;
    if |run| > 0 {
      ExecCons(cfg, s, t, run[..|run| - 1]);
      assert whole[..|whole| - 1] == [t] + run[..|run| - 1];
    } else {
      assert whole[..0] == [];
    }
  }

  /** From any state the invariant allows, its callers alone, and without giving up, can all finish. */
  lemma Drains(cfg: Config, s: State) returns (run: seq<Step>)
    requires cfg.maxLogins > 0 && LocksInv(cfg, s)
    ensures forall k :: 0 <= k < |run| ==> Advances(run[k])
    ensures AllDone(Exec(cfg, s, run))
    decreases Total(Rank, s.callers)
  {
    hide Enabled, Apply, LocksInv, Advances, Total, Registered, Owned, Counted;
    if AllDone(s) {
      run := [];
    } else {
      var i :| 0 <= i < |s.callers| && !s.callers[i].pc.Done?;
      var t := SomeoneMoves(cfg, s, i);
      NotArrival(t);
      LocksStep(cfg, s, t);
      RankStep(cfg, s, t);
      var rest := Drains(cfg, Apply(cfg, s, t));
      run := [t] + rest;
      ExecCons(cfg, s, t, rest);
    }
  }

  lemma NotArrival(t: Step)
    requires Advances(t)
    ensures !Environment(t) && !t.Arrive?
  {
  }

  lemma LocksStep(cfg: Config, s: State, t: Step)
    requires LocksInv(cfg, s) && Enabled(cfg, s, t)
    ensures LocksInv(cfg, Apply(cfg, s, t))
  {
    hide Enabled, Apply, Registered, Owned, Counted;
    RegisteredStep(cfg, s, t);
    OwnedStep(cfg, s, t);
    CountedStep(cfg, s, t);
  }
}

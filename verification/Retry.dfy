/** The two retry layers around an operation: Pool.run of internal/protocol/pool.go and invokeWXApp
    with refreshLiveness of internal/httpapi/app.go. */
module Retry {
  import opened LockName

  /** What the code asks of its environment: Check is db.GetSession, Obtain Pool.state, Drop
      db.InvalidateSession, Refresh qr.RefreshLoginBuffer, Reload db.GetAccount. */
  datatype Ask =
    | Check(key: Key)
    | Obtain(key: Key, login: string)
    | Op(key: Key)
    | Drop(key: Key)
    | Refresh(account: int)
    | SetStatus(account: int, status: string)
    | SetCredential(account: int)
    | Reload(account: int)

  datatype Act = Act(ask: Ask, ok: bool)

  /** Answers may depend on everything that happened before: any pattern of outcomes is a World. */
  type World = (seq<Act>, Ask) -> bool

  /** The position of the act whose value or error the caller gets, or accountExpiredError. */
  datatype Outcome = Success(at: nat) | Error(at: nat) | Expired

  datatype PoolConfig = PoolConfig(tcpProxy: string, fallback: bool)

  datatype Account = Account(id: int, loginBuffer: string, hasCredentials: bool)

  function EffectiveProxy(req: string, def: string): string {
    if req != "" then req else def
  }

  /** resolveEffectiveProxy, then effectiveProxy in the pool with the same default: one resolution is
      enough, so invokeWXApp and the pool look under the same key. */
  lemma ResolvedOnce(bound: string, global: string)
    ensures EffectiveProxy(EffectiveProxy(bound, global), global) == if bound != "" then bound else global
  {
  }

  // ---- Specification ---------------------------------------------------------------------

  function Did(w: World, tr: seq<Act>, q: Ask): (more: seq<Act>)
    ensures |more| == |tr| + 1 && tr < more
    ensures more[|tr|] == Act(q, w(tr, q))
  {
    tr + [Act(q, w(tr, q))]
  }

  function LastOk(tr: seq<Act>): bool
    requires |tr| > 0
  {
    tr[|tr| - 1].ok
  }

  /** One attempt under one key: a session, then the operation. */
  function Attempt(w: World, tr: seq<Act>, login: string, key: Key): (more: seq<Act>)
    ensures |more| > |tr| && tr < more
  {
    var t1 := Did(w, tr, Obtain(key, login));
    if LastOk(t1) then Did(w, t1, Op(key)) else t1
  }

  function RunOn(cfg: PoolConfig, w: World, tr: seq<Act>, login: string, account: int, proxy: string): (more: seq<Act>)
    ensures |more| > |tr| && tr < more
  {
    var t1 := Attempt(w, tr, login, Key(account, proxy));
    var last := t1[|t1| - 1];
    if proxy == "" || !cfg.fallback || (last.ok && last.ask.Op?) then t1
    else Attempt(w, if last.ask.Op? then Did(w, t1, Drop(Key(account, proxy))) else t1, login, Key(account, ""))
  }

  /** run's result: the last act decides, except that a state error is an error. */
  function RunResult(tr: seq<Act>): Outcome
    requires |tr| > 0
  {
    if tr[|tr| - 1].ask.Op? && LastOk(tr) then Success(|tr| - 1) else Error(|tr| - 1)
  }

  function RefreshOn(w: World, tr: seq<Act>, acc: Account): (r: (seq<Act>, string))
    ensures |r.0| > |tr| && tr < r.0
  {
    if !acc.hasCredentials then (Did(w, tr, SetStatus(acc.id, "unknown")), "unknown")
    else
      var t1 := Did(w, tr, Refresh(acc.id));
      if !LastOk(t1) then (Did(w, t1, SetStatus(acc.id, "expired")), "expired")
      else (Did(w, Did(w, t1, SetCredential(acc.id)), SetStatus(acc.id, "alive")), "alive")
  }

  /** The first half of invokeWXApp: the call made when a session is at hand. */
  function FirstCall(cfg: PoolConfig, w: World, tr: seq<Act>, acc: Account, proxy: string): (more: seq<Act>)
    ensures |more| > |tr| && tr < more
  {
    var t1 := Did(w, tr, Check(Key(acc.id, proxy)));
    if !LastOk(t1) then t1 else RunOn(cfg, w, t1, acc.loginBuffer, acc.id, EffectiveProxy(proxy, cfg.tcpProxy))
  }

  /** renewed is the login buffer the account has when it is reloaded. */
  function SecondCall(cfg: PoolConfig, w: World, tr: seq<Act>, acc: Account, renewed: string,
                      proxy: string): (more: seq<Act>)
    ensures |more| > |tr| && tr < more
  {
    var t1 := Did(w, tr, Reload(acc.id));
    RunOn(cfg, w, t1, if LastOk(t1) then renewed else acc.loginBuffer, acc.id, EffectiveProxy(proxy, cfg.tcpProxy))
  }

  function InvokeOn(cfg: PoolConfig, w: World, tr: seq<Act>, acc: Account, renewed: string,
                    proxy: string): (r: (seq<Act>, Outcome))
    ensures |r.0| > |tr| && tr < r.0
  {
    var t1 := FirstCall(cfg, w, tr, acc, proxy);
    var hit := t1[|tr|].ok;
    if hit && RunResult(t1).Success? then (t1, RunResult(t1))
    else
      var t2 := if hit then Did(w, t1, Drop(Key(acc.id, proxy))) else t1;
      var (t3, status) := RefreshOn(w, t2, acc);
      if status != "alive" then (t3, Expired)
      else
        var t4 := SecondCall(cfg, w, t3, acc, renewed, proxy);
        (t4, RunResult(t4))
  }

  // ---- The code --------------------------------------------------------------------------

  class Request {
    const cfg: PoolConfig
    const world: World
    var trace: seq<Act>

    constructor (cfg: PoolConfig, world: World)
      ensures this.cfg == cfg && this.world == world && trace == []
    {
      this.cfg, this.world, trace := cfg, world, [];
    }

    method Do(q: Ask) returns (ok: bool)
      modifies this`trace
      ensures trace == Did(world, old(trace), q) && ok == LastOk(trace)
    {
      ok := world(trace, q);
      trace := trace + [Act(q, ok)];
    }

    method Run(login: string, account: int, tcpProxy: string) returns (r: Outcome)
      modifies this`trace
      ensures trace == RunOn(cfg, world, old(trace), login, account, EffectiveProxy(tcpProxy, cfg.tcpProxy))
      ensures r == RunResult(trace)
      ensures var k := Key(account, if tcpProxy != "" then tcpProxy else cfg.tcpProxy);
              && old(|trace|) < |trace| && trace[old(|trace|)].ask == Obtain(k, login)
              && UnderKey(cfg, trace, old(|trace|), |trace|, k)
    {
      hide Did, UnderKey;
      RunUsesProxy(cfg, world, trace, login, account, tcpProxy);
      var effective := EffectiveProxy(tcpProxy, cfg.tcpProxy);
      var ok := Do(Obtain(Key(account, effective), login));
      if ok {
        ok := Do(Op(Key(account, effective)));
        if ok { return Success(|trace| - 1); }
        if effective == "" || !cfg.fallback { return Error(|trace| - 1); }
        var _ := Do(Drop(Key(account, EffectiveProxy(effective, cfg.tcpProxy))));
      }
      if effective != "" && cfg.fallback {
        ok := Do(Obtain(Key(account, ""), login));
        if !ok { return Error(|trace| - 1); }
        ok := Do(Op(Key(account, "")));
        return if ok then Success(|trace| - 1) else Error(|trace| - 1);
      }
      return Error(|trace| - 1);
    }

    method RefreshLiveness(acc: Account) returns (status: string)
      modifies this`trace
      ensures (trace, status) == RefreshOn(world, old(trace), acc)
    {
      hide Did;
      if !acc.hasCredentials {
        var _ := Do(SetStatus(acc.id, "unknown"));
        return "unknown";
      }
      var ok := Do(Refresh(acc.id));
      if !ok {
        var _ := Do(SetStatus(acc.id, "expired"));
        return "expired";
      }
      var _ := Do(SetCredential(acc.id));
      var _ := Do(SetStatus(acc.id, "alive"));
      return "alive";
    }

    method InvokeWXApp(acc: Account, renewed: string, proxy: string) returns (r: Outcome)
      modifies this`trace
      ensures (trace, r) == InvokeOn(cfg, world, old(trace), acc, renewed, proxy)
      ensures RequestKeys(cfg, trace, old(|trace|), acc, renewed, proxy)
    {
      hide Did, RunOn, RefreshOn, RequestKeys;
      RequestUsesProxy(cfg, world, trace, acc, renewed, proxy);
      var hit := Do(Check(Key(acc.id, proxy)));
      if hit {
        r := Run(acc.loginBuffer, acc.id, proxy);
        if r.Success? { return; }
        var _ := Do(Drop(Key(acc.id, proxy)));
      }
      var status := RefreshLiveness(acc);
      if status != "alive" { return Expired; }
      var reloaded := Do(Reload(acc.id));
      r := Run(if reloaded then renewed else acc.loginBuffer, acc.id, proxy);
    }
  }

  // ---- One run ---------------------------------------------------------------------------

  predicate IsOp(a: Act, k: Key) { a.ask == Op(k) }
  predicate IsDrop(a: Act, k: Key) { a.ask == Drop(k) }

  /** What the laws count: operations, and calls of run, each of which first obtains a session under
      its effective key. */
  datatype What = Operations | CallsOf(key: Key)

  predicate Matches(what: What, q: Ask) {
    match what
    case Operations => q.Op?
    case CallsOf(k) => q.Obtain? && q.key == k
  }

  function Count(what: What, tr: seq<Act>): nat {
    if |tr| == 0 then 0 else Count(what, tr[..|tr| - 1]) + if Matches(what, tr[|tr| - 1].ask) then 1 else 0
  }

  lemma CountDid(what: What, w: World, tr: seq<Act>, q: Ask)
    ensures Count(what, Did(w, tr, q)) == Count(what, tr) + if Matches(what, q) then 1 else 0
  {
    var more := Did(w, tr, q);
    assert more[..|tr|] == tr;
  }

  lemma AttemptShape(w: World, tr: seq<Act>, login: string, key: Key)
    ensures var more := Attempt(w, tr, login, key);
            && |more| <= |tr| + 2
            && more[|tr|].ask == Obtain(key, login)
            && (|more| == |tr| + 2 <==> more[|tr|].ok)
            && (|more| == |tr| + 2 ==> more[|tr| + 1].ask == Op(key))
  {
    hide Did;
  }

  lemma AttemptCounts(what: What, w: World, tr: seq<Act>, login: string, key: Key)
    ensures var more := Attempt(w, tr, login, key);
            Count(what, more) <= Count(what, tr) + if what.Operations? || what.key == key then 1 else 0
  {
    hide Did;
    CountDid(what, w, tr, Obtain(key, login));
    CountDid(what, w, Did(w, tr, Obtain(key, login)), Op(key));
  }

  /** At most two operations and one call. */
  lemma RunCounts(what: What, cfg: PoolConfig, w: World, tr: seq<Act>, login: string, account: int, proxy: string)
    requires what.CallsOf? ==> what.key == Key(account, proxy)
    ensures var more := RunOn(cfg, w, tr, login, account, proxy);
            Count(what, more) <= Count(what, tr) + if what.Operations? then 2 else 1
  {
    hide Attempt, Count, Did;
    var t1 := Attempt(w, tr, login, Key(account, proxy));
    AttemptCounts(what, w, tr, login, Key(account, proxy));
    var dropped := Did(w, t1, Drop(Key(account, proxy)));
    CountDid(what, w, t1, Drop(Key(account, proxy)));
    AttemptCounts(what, w, t1, login, Key(account, ""));
    AttemptCounts(what, w, dropped, login, Key(account, ""));
  }

  predicate HasSession(more: seq<Act>, lo: nat, i: nat, login: string)
    requires lo <= i < |more| && more[i].ask.Op?
  {
    i > lo && more[i - 1] == Act(Obtain(more[i].ask.key, login), true)
  }

  /** Each operation runs on a session just obtained for its key; run succeeds exactly
      when some operation did, and that is the last thing it does. */
  lemma RunLaws(cfg: PoolConfig, w: World, tr: seq<Act>, login: string, account: int, proxy: string)
    ensures var more := RunOn(cfg, w, tr, login, account, proxy);
            forall i :: |tr| <= i < |more| && more[i].ask.Op? ==> HasSession(more, |tr|, i, login)
    ensures var more := RunOn(cfg, w, tr, login, account, proxy);
            forall i :: |tr| <= i < |more| && more[i].ask.Op? && more[i].ok ==> RunResult(more) == Success(i)
    ensures var more := RunOn(cfg, w, tr, login, account, proxy);
            var last := more[|more| - 1];
            var direct := cfg.fallback && IsOp(last, Key(account, ""));
            RunResult(more).Success? ==> IsOp(last, Key(account, proxy)) || direct
  {
    hide Attempt, Did;
    RunShape(cfg, w, tr, login, account, proxy);
  }

  /** The three shapes of a run. */
  lemma RunShape(cfg: PoolConfig, w: World, tr: seq<Act>, login: string, account: int, proxy: string)
    ensures var more := RunOn(cfg, w, tr, login, account, proxy);
            && |tr| < |more| <= |tr| + 5
            && more[|tr|].ask == Obtain(Key(account, proxy), login)
            && (more[|tr|].ok ==> |more| > |tr| + 1 && IsOp(more[|tr| + 1], Key(account, proxy)))
    ensures var more := RunOn(cfg, w, tr, login, account, proxy);
            var n := |tr| + if more[|tr|].ok then 2 else 1;
            |more| == n || Fallback(cfg, more, |tr|, login, account, proxy)
    ensures var more := RunOn(cfg, w, tr, login, account, proxy);
            var worked := more[|tr|].ok && more[|tr| + 1].ok;
            proxy != "" && cfg.fallback && !worked ==> Fallback(cfg, more, |tr|, login, account, proxy)
  {
    hide Attempt, Did;
    var t1 := Attempt(w, tr, login, Key(account, proxy));
    AttemptShape(w, tr, login, Key(account, proxy));
    var dropped := Did(w, t1, Drop(Key(account, proxy)));
    AttemptShape(w, t1, login, Key(account, ""));
    AttemptShape(w, dropped, login, Key(account, ""));
  }

  /** The acts from position n are a fallback to the direct key: allowed, after a failure under the
      proxy key, and after a failed operation only behind a Drop of the proxy's row. */
  predicate Fallback(cfg: PoolConfig, more: seq<Act>, n: nat, login: string, account: int, proxy: string)
    requires |more| > n && (more[n].ok ==> |more| > n + 1)
  {
    var m := n + if more[n].ok then 3 else 1;
    && cfg.fallback && proxy != ""
    && (more[n].ok ==> !more[n + 1].ok && |more| > n + 2 && IsDrop(more[n + 2], Key(account, proxy)))
    && |more| > m
    && more[m].ask == Obtain(Key(account, ""), login)
    && |more| == m + (if more[m].ok then 2 else 1)
    && (more[m].ok ==> IsOp(more[m + 1], Key(account, "")))
  }

  /** run goes direct after a failed operation only once it has asked for the proxy's row to be
      deleted; it goes direct at all only with the fallback on, and only in place of a set proxy. */
  lemma DirectOnlyAfterDrop(cfg: PoolConfig, w: World, tr: seq<Act>, login: string, account: int, proxy: string,
                            i: nat, j: nat)
    requires var more := RunOn(cfg, w, tr, login, account, proxy);
             |tr| <= i < j < |more| && IsOp(more[i], Key(account, proxy)) && more[j].ask.Op?
    ensures var more := RunOn(cfg, w, tr, login, account, proxy);
            cfg.fallback && proxy != "" && !more[i].ok && IsOp(more[j], Key(account, ""))
    ensures var more := RunOn(cfg, w, tr, login, account, proxy);
            exists d :: i < d < j && IsDrop(more[d], Key(account, proxy))
  {
    hide RunOn;
    RunShape(cfg, w, tr, login, account, proxy);
    var more := RunOn(cfg, w, tr, login, account, proxy);
    assert i == |tr| + 1 && IsDrop(more[|tr| + 2], Key(account, proxy));
  }

  /** The error of that delete is ignored. So the proxy's row is gone before the direct operation
      exactly in those worlds that grant the delete when it is asked, right after the failure. */
  lemma DroppedWhenGranted(cfg: PoolConfig, w: World, tr: seq<Act>, login: string, account: int, proxy: string, i: nat,
                           j: nat)
    requires var more := RunOn(cfg, w, tr, login, account, proxy);
             |tr| <= i < j < |more| && IsOp(more[i], Key(account, proxy)) && more[j].ask.Op?
    ensures var more := RunOn(cfg, w, tr, login, account, proxy);
            var drop := Drop(Key(account, proxy));
            (exists d :: i < d < j && more[d] == Act(drop, true)) <==> w(more[..i + 1], drop)
  {
    hide Did;
    RunShape(cfg, w, tr, login, account, proxy);
    AttemptShape(w, tr, login, Key(account, proxy));
    var more, drop := RunOn(cfg, w, tr, login, account, proxy), Drop(Key(account, proxy));
    var t1 := Attempt(w, tr, login, Key(account, proxy));
    assert i == |tr| + 1 && j == |tr| + 4 && more[..i + 1] == t1;
    assert more[i + 1] == Did(w, t1, drop)[|t1|] == Act(drop, w(t1, drop));
    assert more[i + 2].ask.Obtain?;
  }

  /** A world that refuses: the direct operation runs with the row still there. */
  lemma DropMayFail()
    ensures var w: World := (tr: seq<Act>, q: Ask) => q.Obtain? || (q.Op? && q.key.proxy == "");
            var more := RunOn(PoolConfig("", true), w, [], "", 1, "p");
            && more == [Act(Obtain(Key(1, "p"), ""), true), Act(Op(Key(1, "p")), false), Act(Drop(Key(1, "p")), false),
                        Act(Obtain(Key(1, ""), ""), true), Act(Op(Key(1, "")), true)]
            && RunResult(more) == Success(4)
  {
  }

  // ---- The whole request -----------------------------------------------------------------

  lemma RefreshShape(w: World, tr: seq<Act>, acc: Account)
    ensures var (more, status) := RefreshOn(w, tr, acc);
            && more[|more| - 1].ask == SetStatus(acc.id, status)
            && (status == "alive" <==> acc.hasCredentials && more[|tr|] == Act(Refresh(acc.id), true))
            && status in {"alive", "expired", "unknown"}
            && (status == "unknown" <==> !acc.hasCredentials)
            && (status == "alive" ==> |more| == |tr| + 3 && more[|tr| + 1].ask == SetCredential(acc.id))
            && forall i :: |tr| <= i < |more| ==> Quiet(more[i])
  {
    hide Did;
  }

  predicate Quiet(a: Act) { a.ask.Refresh? || a.ask.SetStatus? || a.ask.SetCredential? }

  lemma RefreshCounts(what: What, w: World, tr: seq<Act>, acc: Account)
    ensures Count(what, RefreshOn(w, tr, acc).0) == Count(what, tr)
  {
    hide Count, Did;
    CountDid(what, w, tr, SetStatus(acc.id, "unknown"));
    CountDid(what, w, tr, Refresh(acc.id));
    var t1 := Did(w, tr, Refresh(acc.id));
    CountDid(what, w, t1, SetStatus(acc.id, "expired"));
    CountDid(what, w, t1, SetCredential(acc.id));
    CountDid(what, w, Did(w, t1, SetCredential(acc.id)), SetStatus(acc.id, "alive"));
  }

  /** A request makes at most two calls and four operations, whatever the environment answers. */
  lemma RequestCounts(what: What, cfg: PoolConfig, w: World, tr: seq<Act>, acc: Account, renewed: string, proxy: string)
    requires what.CallsOf? ==> what.key == Key(acc.id, if proxy != "" then proxy else cfg.tcpProxy)
    ensures var most := if what.Operations? then 4 else 2;
            Count(what, InvokeOn(cfg, w, tr, acc, renewed, proxy).0) <= Count(what, tr) + most
  {
    hide RunOn, RefreshOn, Count, Did;
    var e := EffectiveProxy(proxy, cfg.tcpProxy);
    var t0 := Did(w, tr, Check(Key(acc.id, proxy)));
    CountDid(what, w, tr, Check(Key(acc.id, proxy)));
    RunCounts(what, cfg, w, t0, acc.loginBuffer, acc.id, e);
    var t1 := FirstCall(cfg, w, tr, acc, proxy);
    CountDid(what, w, t1, Drop(Key(acc.id, proxy)));
    var t2 := if t1[|tr|].ok then Did(w, t1, Drop(Key(acc.id, proxy))) else t1;
    RefreshCounts(what, w, t2, acc);
    var t3 := RefreshOn(w, t2, acc).0;
    CountDid(what, w, t3, Reload(acc.id));
    var t4 := Did(w, t3, Reload(acc.id));
    RunCounts(what, cfg, w, t4, if LastOk(t4) then renewed else acc.loginBuffer, acc.id, e);
  }

  /** The request reports expiry exactly when its last act was to mark the account not alive. */
  lemma ExpiryIsRefresh(cfg: PoolConfig, w: World, tr: seq<Act>, acc: Account, renewed: string, proxy: string)
    ensures var (more, r) := InvokeOn(cfg, w, tr, acc, renewed, proxy);
            var last := more[|more| - 1].ask;
            r.Expired? <==> last.SetStatus? && last.status != "alive"
  {
    hide RunOn, RefreshOn, Did;
    var e := EffectiveProxy(proxy, cfg.tcpProxy);
    var t0 := Did(w, tr, Check(Key(acc.id, proxy)));
    RunEnds(cfg, w, t0, acc.loginBuffer, acc.id, e);
    var t1 := FirstCall(cfg, w, tr, acc, proxy);
    var t2 := if t1[|tr|].ok then Did(w, t1, Drop(Key(acc.id, proxy))) else t1;
    RefreshShape(w, t2, acc);
    var t4 := Did(w, RefreshOn(w, t2, acc).0, Reload(acc.id));
    RunEnds(cfg, w, t4, if LastOk(t4) then renewed else acc.loginBuffer, acc.id, e);
  }

  lemma RunEnds(cfg: PoolConfig, w: World, tr: seq<Act>, login: string, account: int, proxy: string)
    ensures var more := RunOn(cfg, w, tr, login, account, proxy);
            var last := more[|more| - 1].ask;
            (last.Op? || last.Obtain?) && !RunResult(more).Expired?
  {
    hide Attempt, Did;
    AttemptEnds(w, tr, login, Key(account, proxy));
    var t1 := Attempt(w, tr, login, Key(account, proxy));
    AttemptEnds(w, t1, login, Key(account, ""));
    AttemptEnds(w, Did(w, t1, Drop(Key(account, proxy))), login, Key(account, ""));
  }

  lemma AttemptEnds(w: World, tr: seq<Act>, login: string, key: Key)
    ensures var more := Attempt(w, tr, login, key);
            more[|more| - 1].ask.Op? || more[|more| - 1].ask.Obtain?
  {
  }

  /** What the acts in [lo, hi) have in common when they are a run: every operation but perhaps the
      last failed, each ran under one of two keys and under each key once, and only the proxy's row
      is dropped. */
  predicate RunActs(more: seq<Act>, lo: nat, hi: nat, account: int, proxy: string) {
    && (forall i :: lo <= i < hi && i < |more| && more[i].ask.Op? ==> OneOfTwo(more[i].ask.key, account, proxy))
    && (forall i :: lo <= i < hi && i < |more| && more[i].ask.Op? && more[i].ok ==> i == hi - 1)
    && (forall i, j :: lo <= i < j < hi && j < |more| && more[i].ask.Op? ==> more[j].ask != more[i].ask)
    && (forall i :: lo <= i < hi && i < |more| && more[i].ask.Drop? ==> more[i].ask.key == Key(account, proxy))
  }

  predicate OneOfTwo(k: Key, account: int, proxy: string) {
    k == Key(account, proxy) || k == Key(account, "")
  }

  lemma RunActsOf(cfg: PoolConfig, w: World, tr: seq<Act>, login: string, account: int, proxy: string)
    ensures var more := RunOn(cfg, w, tr, login, account, proxy); RunActs(more, |tr|, |more|, account, proxy)
  {
    hide RunOn;
    RunShape(cfg, w, tr, login, account, proxy);
  }

  lemma RunActsEmpty(more: seq<Act>, n: nat, account: int, proxy: string)
    ensures RunActs(more, n, n, account, proxy)
  {
  }

  lemma RunActsStay(a: seq<Act>, b: seq<Act>, lo: nat, account: int, proxy: string)
    requires a <= b && RunActs(a, lo, |a|, account, proxy)
    ensures RunActs(b, lo, |a|, account, proxy)
  {
    assert forall i :: 0 <= i < |a| ==> b[i] == a[i];
  }

  /** The request succeeds exactly when one of its operations did, with that operation's value, and
      does nothing after it. */
  lemma SuccessIsAnOp(cfg: PoolConfig, w: World, tr: seq<Act>, acc: Account, renewed: string, proxy: string)
    ensures var (more, r) := InvokeOn(cfg, w, tr, acc, renewed, proxy);
            && (r.Success? ==> r.at == |more| - 1 && more[r.at].ask.Op? && more[r.at].ok)
            && (forall i :: |tr| <= i < |more| && more[i].ask.Op? && more[i].ok ==> r == Success(i))
  {
    hide RunOn, RefreshOn, Did, InvokeOn;
    var a, second := Segments(cfg, w, tr, acc, renewed, proxy);
  }

  /** Where the two calls lie in a request's trace: acts [first, a) and [second, end). */
  lemma Segments(cfg: PoolConfig, w: World, tr: seq<Act>, acc: Account, renewed: string, proxy: string)
    returns (a: nat, second: nat)
    ensures var (more, r) := InvokeOn(cfg, w, tr, acc, renewed, proxy);
            var e := EffectiveProxy(proxy, cfg.tcpProxy);
            && |tr| < a <= second <= |more|
            && RunActs(more, |tr| + 1, a, acc.id, e) && RunActs(more, second, |more|, acc.id, e)
            && !more[|tr|].ask.Op?
            && (forall i :: a <= i < second ==> !more[i].ask.Op?)
            && (r.Success? ==> r.at == |more| - 1 && more[r.at].ask.Op? && more[r.at].ok)
            && (a == |more| && more[a - 1].ask.Op? && more[a - 1].ok ==> r == Success(a - 1))
            && (a < |more| ==> !(more[a - 1].ask.Op? && more[a - 1].ok))
            && (second < |more| && more[|more| - 1].ask.Op? && more[|more| - 1].ok ==> r == Success(|more| - 1))
            && (a < |more| && a > |tr| + 1 ==> IsDrop(more[a], Key(acc.id, proxy)))
            && (forall i :: a < i < second ==> !more[i].ask.Drop?)
  {
    hide RunOn, RefreshOn, Did, RunActs, EffectiveProxy;
    var e := EffectiveProxy(proxy, cfg.tcpProxy);
    var t0 := Did(w, tr, Check(Key(acc.id, proxy)));
    RunActsOf(cfg, w, t0, acc.loginBuffer, acc.id, e);
    var t1 := FirstCall(cfg, w, tr, acc, proxy);
    var t2 := if t1[|tr|].ok then Did(w, t1, Drop(Key(acc.id, proxy))) else t1;
    RefreshShape(w, t2, acc);
    var (t3, status) := RefreshOn(w, t2, acc);
    var t4 := Did(w, t3, Reload(acc.id));
    RunActsOf(cfg, w, t4, if LastOk(t4) then renewed else acc.loginBuffer, acc.id, e);
    var (more, r) := InvokeOn(cfg, w, tr, acc, renewed, proxy);
    a := |t1|;
    second := if more == t1 then |t1| else if more == t3 then |t3| else |t4|;
    RunActsEmpty(t1, |tr| + 1, acc.id, e);
    RunActsEmpty(more, |more|, acc.id, e);
    RunActsStay(t1, more, |tr| + 1, acc.id, e);
  }

  /** When an operation fails and is tried again under the same key, the delete of the key's row was
      issued in between exactly if the key is that of the request's own proxy. The row of the direct
      key, which the fallback uses, is left alone, so the second call can meet the session that just
      failed. */
  lemma DroppedBeforeReuse(cfg: PoolConfig, w: World, tr: seq<Act>, acc: Account, renewed: string, proxy: string,
                           i: nat, j: nat, k: Key)
    requires proxy != "" || cfg.tcpProxy == ""
    requires var more := InvokeOn(cfg, w, tr, acc, renewed, proxy).0;
             |tr| <= i < j < |more| && IsOp(more[i], k) && IsOp(more[j], k)
    ensures var more := InvokeOn(cfg, w, tr, acc, renewed, proxy).0;
            (exists d :: i < d < j && IsDrop(more[d], k)) <==> k.proxy == proxy
  {
    hide RunOn, RefreshOn, Did, InvokeOn;
    var a, second := Segments(cfg, w, tr, acc, renewed, proxy);
    var more := InvokeOn(cfg, w, tr, acc, renewed, proxy).0;
    assert i < a && second <= j;
    assert OneOfTwo(k, acc.id, proxy);
    assert IsDrop(more[a], Key(acc.id, proxy));
  }

  /** An ordinary error reaches the caller only from a second call: behind a login refresh that
      worked, and with the renewed login buffer if the account could be read again. */
  lemma ErrorMeansSecondCall(cfg: PoolConfig, w: World, tr: seq<Act>, acc: Account, renewed: string, proxy: string)
    returns (n: nat, m: nat)
    requires InvokeOn(cfg, w, tr, acc, renewed, proxy).1.Error?
    ensures var more := InvokeOn(cfg, w, tr, acc, renewed, proxy).0;
            && |tr| <= n < m < |more| - 1
            && more[n] == Act(Refresh(acc.id), true) && more[m].ask == Reload(acc.id)
            && more[m + 1].ask == Obtain(Key(acc.id, if proxy != "" then proxy else cfg.tcpProxy),
                                         if more[m].ok then renewed else acc.loginBuffer)
  {
    hide RunOn, RefreshOn, Did;
    var t1 := FirstCall(cfg, w, tr, acc, proxy);
    var t2 := if t1[|tr|].ok then Did(w, t1, Drop(Key(acc.id, proxy))) else t1;
    RefreshShape(w, t2, acc);
    var t3 := RefreshOn(w, t2, acc).0;
    var t4 := Did(w, t3, Reload(acc.id));
    n, m := |t2|, |t3|;
    RunShape(cfg, w, t4, if LastOk(t4) then renewed else acc.loginBuffer, acc.id, EffectiveProxy(proxy, cfg.tcpProxy));
  }

  // ---- Which proxy -----------------------------------------------------------------------

  /** The acts from lo to hi ask for sessions and run operations under k alone or, with the fallback on,
      under the direct key. */
  predicate UnderKey(cfg: PoolConfig, more: seq<Act>, lo: nat, hi: nat, k: Key) {
    forall i :: lo <= i < hi && i < |more| && (more[i].ask.Op? || more[i].ask.Obtain?) ==>
      more[i].ask.key == k || (cfg.fallback && more[i].ask.key == Key(k.account, ""))
  }

  /** A run starts with a session under the proxy it is given, or the configured one if it is given none,
      and stays under that key and the direct one. */
  lemma RunUsesProxy(cfg: PoolConfig, w: World, tr: seq<Act>, login: string, account: int, tcpProxy: string)
    ensures var more := RunOn(cfg, w, tr, login, account, EffectiveProxy(tcpProxy, cfg.tcpProxy));
            var k := Key(account, if tcpProxy != "" then tcpProxy else cfg.tcpProxy);
            more[|tr|].ask == Obtain(k, login) && UnderKey(cfg, more, |tr|, |more|, k)
  {
    hide RunOn;
    RunShape(cfg, w, tr, login, account, EffectiveProxy(tcpProxy, cfg.tcpProxy));
  }

  predicate StartsRefresh(a: Act, acc: Account) {
    a.ask == if acc.hasCredentials then Refresh(acc.id) else SetStatus(acc.id, "unknown")
  }

  /** A request looks for a session under the proxy it is given. If there is one its next act is a call,
      if there is none a refresh of the login. Every call, the second one after the account has been read
      again, starts under that proxy, or the configured one if none is given. */
  predicate RequestKeys(cfg: PoolConfig, more: seq<Act>, lo: nat, acc: Account, renewed: string, proxy: string) {
    var k := Key(acc.id, if proxy != "" then proxy else cfg.tcpProxy);
    && lo + 1 < |more| && more[lo].ask == Check(Key(acc.id, proxy))
    && (more[lo].ok ==> more[lo + 1].ask == Obtain(k, acc.loginBuffer))
    && (!more[lo].ok ==> StartsRefresh(more[lo + 1], acc))
    && UnderKey(cfg, more, lo, |more|, k)
    && forall i :: lo <= i < |more| && more[i].ask.Reload? ==>
         i + 1 < |more| && more[i + 1].ask == Obtain(k, if more[i].ok then renewed else acc.loginBuffer)
  }

  lemma RefreshStarts(w: World, tr: seq<Act>, acc: Account)
    ensures StartsRefresh(RefreshOn(w, tr, acc).0[|tr|], acc)
  {
    hide Did;
  }

  lemma RunReloadsNothing(cfg: PoolConfig, w: World, tr: seq<Act>, login: string, account: int, proxy: string)
    ensures var more := RunOn(cfg, w, tr, login, account, proxy);
            forall i :: |tr| <= i < |more| ==> !more[i].ask.Reload?
  {
    hide RunOn;
    RunShape(cfg, w, tr, login, account, proxy);
  }

  /** The acts that neither ask for a session nor run an operation nor read the account. */
  predicate Aside(a: Act) { !a.ask.Op? && !a.ask.Obtain? && !a.ask.Reload? }

  /** Where a request's calls lie: its trace is t1, the first call's; or t1, acts aside, and the second
      call's from t4 on. */
  lemma RequestParts(cfg: PoolConfig, w: World, tr: seq<Act>, acc: Account, renewed: string, proxy: string)
    returns (t1: seq<Act>, t4: seq<Act>)
    ensures var more := InvokeOn(cfg, w, tr, acc, renewed, proxy).0;
            && t1 == FirstCall(cfg, w, tr, acc, proxy) && t1 <= more && |t1| < |t4|
            && (forall i :: |t1| <= i < |more| && i < |t4| - 1 ==> Aside(more[i]))
    ensures var more := InvokeOn(cfg, w, tr, acc, renewed, proxy).0;
            |more| >= |t4| ==>
              && t4 < more && t4[|t4| - 1].ask == Reload(acc.id)
              && more == RunOn(cfg, w, t4, if LastOk(t4) then renewed else acc.loginBuffer, acc.id,
                               EffectiveProxy(proxy, cfg.tcpProxy))
    ensures var more := InvokeOn(cfg, w, tr, acc, renewed, proxy).0;
            !t1[|tr|].ok ==> |more| > |t1| && StartsRefresh(more[|t1|], acc)
  {
    hide RunOn, RefreshOn, Did, EffectiveProxy;
    t1 := FirstCall(cfg, w, tr, acc, proxy);
    var t2 := if t1[|tr|].ok then Did(w, t1, Drop(Key(acc.id, proxy))) else t1;
    RefreshShape(w, t2, acc);
    RefreshStarts(w, t2, acc);
    var t3 := RefreshOn(w, t2, acc).0;
    t4 := Did(w, t3, Reload(acc.id));
    forall i | |t1| <= i < |t3| ensures Aside(t3[i]) { if i >= |t2| { assert Quiet(t3[i]); } }
  }

  lemma RequestUsesProxy(cfg: PoolConfig, w: World, tr: seq<Act>, acc: Account, renewed: string, proxy: string)
    ensures RequestKeys(cfg, InvokeOn(cfg, w, tr, acc, renewed, proxy).0, |tr|, acc, renewed, proxy)
  {
    hide RunOn, RefreshOn, Did, EffectiveProxy, InvokeOn;
    var more := InvokeOn(cfg, w, tr, acc, renewed, proxy).0;
    var t1, t4 := RequestParts(cfg, w, tr, acc, renewed, proxy);
    FirstCallKeys(cfg, w, tr, acc, proxy);
    var k := Key(acc.id, if proxy != "" then proxy else cfg.tcpProxy);
    if |more| >= |t4| {
      var login := if LastOk(t4) then renewed else acc.loginBuffer;
      RunUsesProxy(cfg, w, t4, login, acc.id, proxy);
      RunReloadsNothing(cfg, w, t4, login, acc.id, EffectiveProxy(proxy, cfg.tcpProxy));
    }
    forall i | |tr| <= i < |more| && !Aside(more[i])
      ensures i < |t1| || (|more| >= |t4| && i >= |t4| - 1)
    {
    }
    assert forall i :: 0 <= i < |t1| ==> more[i] == t1[i];
  }

  lemma FirstCallKeys(cfg: PoolConfig, w: World, tr: seq<Act>, acc: Account, proxy: string)
    ensures var t1, k := FirstCall(cfg, w, tr, acc, proxy), Key(acc.id, if proxy != "" then proxy else cfg.tcpProxy);
            && t1[|tr|].ask == Check(Key(acc.id, proxy))
            && (t1[|tr|].ok ==> |t1| > |tr| + 1 && t1[|tr| + 1].ask == Obtain(k, acc.loginBuffer))
            && (!t1[|tr|].ok ==> |t1| == |tr| + 1)
            && UnderKey(cfg, t1, |tr|, |t1|, k)
            && forall i :: |tr| <= i < |t1| ==> !t1[i].ask.Reload?
  {
    hide RunOn, Did, EffectiveProxy;
    var t0 := Did(w, tr, Check(Key(acc.id, proxy)));
    RunUsesProxy(cfg, w, t0, acc.loginBuffer, acc.id, proxy);
    RunReloadsNothing(cfg, w, t0, acc.loginBuffer, acc.id, EffectiveProxy(proxy, cfg.tcpProxy));
  }

  // ---- A direct row that stays -----------------------------------------------------------

  /** No session for a proxy, and every operation fails. */
  predicate NothingWorks(tr: seq<Act>, q: Ask) {
    !q.Op? && (q.Obtain? ==> q.key.proxy == "")
  }

  /** A run in that world. */
  function FailedRun(): seq<Act> {
    [Act(Obtain(Key(1, "p"), ""), false), Act(Obtain(Key(1, ""), ""), true), Act(Op(Key(1, "")), false)]
  }

  lemma RunFails(tr: seq<Act>)
    ensures RunOn(PoolConfig("p", true), NothingWorks, tr, "", 1, "p") == tr + FailedRun()
  {
    var more := RunOn(PoolConfig("p", true), NothingWorks, tr, "", 1, "p");
    assert more == tr + [FailedRun()[0]] + [FailedRun()[1]] + [FailedRun()[2]];
  }

  lemma RefreshWorks(tr: seq<Act>)
    ensures var done := [Act(Refresh(1), true), Act(SetCredential(1), true), Act(SetStatus(1, "alive"), true)];
            RefreshOn(NothingWorks, tr, Account(1, "", true)) == (tr + done, "alive")
  {
    var t1 := Did(NothingWorks, tr, Refresh(1));
    var t2 := Did(NothingWorks, t1, SetCredential(1));
    assert Did(NothingWorks, t2, SetStatus(1, "alive"))
        == tr + [Act(Refresh(1), true), Act(SetCredential(1), true), Act(SetStatus(1, "alive"), true)];
  }

  /** In it a request tries its direct operation twice, with the direct row in place throughout. */
  lemma DirectRowStays()
    ensures var more := InvokeOn(PoolConfig("p", true), NothingWorks, [], Account(1, "", true), "", "p").0;
            && |more| == 12 && IsOp(more[3], Key(1, "")) && !more[3].ok && IsOp(more[11], Key(1, ""))
            && forall d :: 0 <= d < 12 ==> !IsDrop(more[d], Key(1, ""))
  {
    hide RunOn, RefreshOn;
    var t0 := [Act(Check(Key(1, "p")), true)];
    assert Did(NothingWorks, [], Check(Key(1, "p"))) == t0;
    RunFails(t0);
    var t2 := t0 + FailedRun() + [Act(Drop(Key(1, "p")), true)];
    RefreshWorks(t2);
    var t3 := RefreshOn(NothingWorks, t2, Account(1, "", true)).0;
    RunFails(t3 + [Act(Reload(1), true)]);
  }
}

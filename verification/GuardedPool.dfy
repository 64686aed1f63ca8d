/** The lock-free pool run under the real tick protocol, with nothing assumed about when
    the tick may advance.  Up to two threads the protocol delivers the grace the pool
    needs; what is left to ask is that no walk over a queue slips past a wrap of the
    clock.  `GuardedRuns` shows that neither condition can be dropped. */
module GuardedPool {
  import P = LockFreePool
  import E = ThreadTick
  import S = LinkedStacks

  datatype State = State(epoch: E.State, pool: P.State)

  datatype Action = EpochStep(e: E.Action) | PoolStep(p: P.Action)

  function Init(n: nat): State {
    State(E.Init(n), P.Init(n))
  }

  /** The pool actions that are epoch actions seen from the pool. */
  predicate Shared(p: P.Action) {
    p.OpenSection? || p.CloseSection? || p.Tick?
  }

  predicate Enabled(s: State, a: Action) {
    match a
    case PoolStep(p) => P.Enabled(s.pool, p) && !Shared(p)
    case EpochStep(e) =>
      && E.Enabled(s.epoch, e)
      && (e.Enter? ==> P.Enabled(s.pool, P.OpenSection(e.t)))
      && (e.ClearBit? ==> P.Enabled(s.pool, P.CloseSection(e.t)))
  }

  /** The tick of the pool is the tick of the protocol; here it advances unguarded. */
  function Apply(s: State, a: Action): State
    requires Enabled(s, a)
  {
    match a
    case PoolStep(p) => s.(pool := P.Apply(s.pool, p))
    case EpochStep(e) =>
      State(E.Apply(s.epoch, e),
            match e
            case Enter(t) => P.Apply(s.pool, P.OpenSection(t))
            case ClearBit(t) => P.Apply(s.pool, P.CloseSection(t))
            case AddTick(t) => s.pool.(tick := s.pool.tick + 1)
            case _ => s.pool)
  }

  ghost predicate Next(s: State, s': State) {
    exists a :: Enabled(s, a) && s' == Apply(s, a)
  }

  ghost predicate NextAt(run: seq<State>, i: nat) {
    i + 1 < |run| ==> Next(run[i], run[i + 1])
  }

  ghost predicate IsRun(n: nat, run: seq<State>) {
    run != [] && run[0] == Init(n) && forall i: nat :: NextAt(run, i)
  }

  /** Both halves agree on the clock and on who is inside since when. */
  ghost predicate Coupled(s: State) {
    && s.pool.tick == s.epoch.tick && |s.pool.thr| == |s.epoch.thr|
    && forall t :: 0 <= t < |s.pool.thr| ==>
         s.pool.thr[t].sec == if s.epoch.thr[t].In? then P.Open(s.epoch.thr[t].at) else P.Closed
  }

  ghost predicate Inv(s: State) {
    && E.Inv(s.epoch) && E.Budgets(s.epoch) && Coupled(s)
    && P.Safe(s.pool)
  }

  ghost predicate CalmStep(s: State, s': State) {
    P.CalmStep(s.pool, s'.pool)
  }

  ghost predicate CalmAt(run: seq<State>, i: nat) {
    i + 1 < |run| ==> CalmStep(run[i], run[i + 1])
  }

  /** No walk of the run slips. */
  ghost predicate CalmRun(run: seq<State>) {
    forall i: nat :: CalmAt(run, i)
  }

  /** Only the start of a walk can be anything but calm. */
  lemma EpochIsCalm(s: State, e: E.Action)
    requires Enabled(s, EpochStep(e))
    ensures CalmStep(s, Apply(s, EpochStep(e)))
  {
    var p' := Apply(s, EpochStep(e)).pool;
    forall t: nat ensures !P.StartsWalk(s.pool, p', t) {}
  }

  lemma PoolIsCalm(s: State, p: P.Action)
    requires Enabled(s, PoolStep(p)) && !p.WalkBegin?
    ensures CalmStep(s, Apply(s, PoolStep(p)))
  {
    var p' := P.Apply(s.pool, p);
    forall t: nat ensures !P.StartsWalk(s.pool, p', t) {}
  }

  /** With at most two threads a tick passes only when the pool can stand it. */
  lemma TickIsAllowed(s: State, t: nat)
    requires Inv(s) && |s.epoch.thr| <= 2 && E.Enabled(s.epoch, E.AddTick(t))
    ensures P.TickAllowed(s.pool)
  {
    var e' := E.Apply(s.epoch, E.AddTick(t));
    E.InvKept(s.epoch, E.AddTick(t));
    E.BudgetsKept(s.epoch, E.AddTick(t));
    E.BudgetsWithin(e');
    forall u | 0 <= u < |s.pool.thr| && s.pool.thr[u].sec.Open?
      ensures s.pool.tick <= s.pool.thr[u].sec.at
    {
      assert e'.thr[u] == s.epoch.thr[u];
    }
  }

  lemma PoolActionCoupled(s: State, p: P.Action)
    requires Coupled(s) && Enabled(s, PoolStep(p))
    ensures Coupled(Apply(s, PoolStep(p)))
  {
  }

  lemma EpochActionCoupled(s: State, e: E.Action)
    requires Coupled(s) && Enabled(s, EpochStep(e))
    ensures Coupled(Apply(s, EpochStep(e)))
  {
  }

  lemma EpochActionSafe(s: State, e: E.Action)
    requires Inv(s) && Enabled(s, EpochStep(e)) && |s.epoch.thr| <= 2
    ensures P.Safe(Apply(s, EpochStep(e)).pool)
  {
    EpochIsCalm(s, e);
    match e
    case Enter(t) => P.SafeKept(s.pool, P.OpenSection(t));
    case ClearBit(t) => P.SafeKept(s.pool, P.CloseSection(t));
    case AddTick(t) =>
      TickIsAllowed(s, t);
      P.SafeKept(s.pool, P.Tick);
    case _ =>
  }

  lemma InvKept(s: State, a: Action)
    requires Inv(s) && Enabled(s, a) && |s.epoch.thr| <= 2 && CalmStep(s, Apply(s, a))
    ensures Inv(Apply(s, a))
  {
    match a
    case PoolStep(p) =>
      P.SafeKept(s.pool, p);
      PoolActionCoupled(s, p);
    case EpochStep(e) =>
      E.InvKept(s.epoch, e);
      E.BudgetsKept(s.epoch, e);
      EpochActionCoupled(s, e);
      EpochActionSafe(s, e);
  }

  lemma InitInv(n: nat)
    requires 1 <= n <= 2
    ensures Inv(Init(n))
  {
    E.RunBudgets(n, [E.Init(n)], 0);
    P.InitSafe(n);
  }

  lemma NextInv(s: State, s': State)
    requires Inv(s) && Next(s, s') && |s.epoch.thr| <= 2 && CalmStep(s, s')
    ensures Inv(s') && |s'.epoch.thr| == |s.epoch.thr|
  {
    var a :| Enabled(s, a) && s' == Apply(s, a);
    InvKept(s, a);
  }

  lemma {:induction false} RunInv(n: nat, run: seq<State>, k: nat)
    requires 1 <= n <= 2 && IsRun(n, run) && CalmRun(run) && k < |run|
    ensures Inv(run[k]) && |run[k].epoch.thr| == n
  {
    if k == 0 {
      InitInv(n);
    } else {
      RunInv(n, run, k - 1);
      assert NextAt(run, k - 1) && CalmAt(run, k - 1);
      NextInv(run[k - 1], run[k]);
    }
  }

  /** A swap of thread `t` that finds its snapshot's head on top pops exactly the top. */
  ghost predicate PopsTop(s: P.State, t: nat) {
    P.Enabled(s, P.PopCas(t)) && s.head == s.thr[t].pc.h ==>
      && s.list != [] && P.Apply(s, P.PopCas(t)).list == s.list[1..]
      && P.Apply(s, P.PopCas(t)).head == S.First(s.list[1..])
  }

  ghost predicate AllPopTop(s: P.State) {
    forall t: nat :: PopsTop(s, t)
  }

  /** One or two threads, every interleaving of pool code with the tick protocol in which
      no walk slips: each id in hand has one holder and is off the stack, and a swap that
      succeeds pops exactly the top. */
  lemma SafeWithTwoThreads(n: nat, run: seq<State>, k: nat)
    requires 1 <= n <= 2 && IsRun(n, run) && CalmRun(run) && k < |run|
    ensures var s := run[k].pool;
      && (forall t: nat, u: nat, id :: t < u < |s.thr| && id in P.Held(s.thr[t].pc) ==> id !in P.Held(s.thr[u].pc))
      && (forall t: nat, id :: t < |s.thr| && id in P.Held(s.thr[t].pc) ==> id !in s.list)
      && AllPopTop(s)
  {
    RunInv(n, run, k);
    var s := run[k].pool;
    P.HandsDisjoint(s);
    forall t: nat ensures PopsTop(s, t) {
      if P.Enabled(s, P.PopCas(t)) && s.head == s.thr[t].pc.h {
        assert P.ThreadOk(s, t);
        P.StackKeptPop(s, t);
      }
    }
  }
}

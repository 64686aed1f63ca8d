/** The epoch protocol that advances the tick (spt_thread.c), one shared-memory access
    per action, for any number of threads.

    A section sets its bit in the online map; leaving clears it, keeps the map as it was
    at that instant, and later ANDs this snapshot into the black-white map.  Whoever
    brings that map to zero advances the tick and fills the map again.

    The allocator relies on a section seeing at most one tick pass.  That is true of one
    or two threads and false from three on; what holds for n threads is n - 1 ticks. */
module ThreadTick {
  import opened ThreadSums

  datatype Pc =
    | Out
    | In(at: nat)
    | Leaving(snap: set<nat>)
    | Merging(snap: set<nat>, seen: set<nat>)
    | Zeroed
    | Ticked

  datatype State = State(online: set<nat>, bw: set<nat>, tick: nat, thr: seq<Pc>)

  datatype Action =
    | Enter(t: nat)
    | ClearBit(t: nat)
    | ReadMap(t: nat)
    | MergeCas(t: nat)
    | AddTick(t: nat)
    | RefillCas(t: nat)

  /** SPT_BWMAP_ALL_ONLINE: all 64 bits. */
  const ALL: set<nat> := set i: nat | i < 64

  function Init(n: nat): State {
    State({}, ALL, 0, seq(n, _ => Out))
  }

  predicate Enabled(s: State, a: Action) {
    && a.t < |s.thr|
    && match a
       case Enter(t) => s.thr[t].Out?
       case ClearBit(t) => s.thr[t].In?
       case ReadMap(t) => s.thr[t].Leaving?
       case MergeCas(t) => s.thr[t].Merging?
       case AddTick(t) => s.thr[t].Zeroed?
       case RefillCas(t) => s.thr[t].Ticked?
  }

  function To(s: State, t: nat, pc: Pc): State
    requires t < |s.thr|
  {
    s.(thr := s.thr[t := pc])
  }

  function Apply(s: State, a: Action): State
    requires Enabled(s, a)
  {
    match a
    case Enter(t) => To(s.(online := s.online + {t}), t, In(s.tick))
    case ClearBit(t) => To(s.(online := s.online - {t}), t, Leaving(s.online - {t}))
    case ReadMap(t) => To(s, t, if s.bw == {} then Out else Merging(s.thr[t].snap, s.bw))
    case MergeCas(t) =>
      var pc := s.thr[t];
      var merged := pc.seen * pc.snap;
      if s.bw != pc.seen then To(s, t, Leaving(pc.snap))
      else To(s.(bw := merged), t, if merged == {} then Zeroed else Out)
    case AddTick(t) => To(s.(tick := s.tick + 1), t, Ticked)
    case RefillCas(t) => To(if s.bw == {} then s.(bw := ALL) else s, t, Out)
  }

  ghost predicate Next(s: State, s': State) {
    exists a :: Enabled(s, a) && s' == Apply(s, a)
  }

  ghost predicate NextAt(run: seq<State>, i: nat) {
    i + 1 < |run| ==> Next(run[i], run[i + 1])
  }

  ghost predicate IsRun(n: nat, run: seq<State>) {
    run != [] && run[0] == Init(n) && forall i: nat :: NextAt(run, i)
  }

  // ------------------------------------------------ the turn of the tick

  ghost predicate Turning(pc: Pc) {
    pc.Zeroed? || pc.Ticked?
  }

  /** At most one thread turns the tick, and the map is zero exactly while it does.  The
      online map is exactly the set of threads inside a section. */
  ghost predicate Inv(s: State) {
    && |s.thr| <= 64
    && (s.bw == {} <==> exists t :: 0 <= t < |s.thr| && Turning(s.thr[t]))
    && (forall t, u :: 0 <= t < u < |s.thr| ==> !Turning(s.thr[t]) || !Turning(s.thr[u]))
    && (forall t :: 0 <= t < |s.thr| ==> (t in s.online <==> s.thr[t].In?))
    && (forall t :: 0 <= t < |s.thr| && s.thr[t].Merging? ==> s.thr[t].seen != {})
    && (forall t :: 0 <= t < |s.thr| && s.thr[t].In? ==> s.thr[t].at <= s.tick)
  }

  lemma InvKept(s: State, a: Action)
    requires Inv(s) && Enabled(s, a)
    ensures Inv(Apply(s, a))
  {
    assert 0 in ALL;
    var s' := Apply(s, a);
    assert forall u :: 0 <= u < |s.thr| && u != a.t ==> s'.thr[u] == s.thr[u];
    assert s'.thr[a.t] == s'.thr[a.t];
  }

  lemma {:induction false} RunInv(n: nat, run: seq<State>, k: nat)
    requires n <= 64 && IsRun(n, run) && k < |run|
    ensures Inv(run[k]) && |run[k].thr| == n
  {
    if k == 0 {
      assert 0 in ALL;
    } else {
      RunInv(n, run, k - 1);
      assert NextAt(run, k - 1);
      var a :| Enabled(run[k - 1], a) && run[k] == Apply(run[k - 1], a);
      InvKept(run[k - 1], a);
    }
  }

  /** The refill's compare-and-swap never fails: its assertion cannot fire. */
  lemma RefillNeverFails(n: nat, run: seq<State>, k: nat, t: nat)
    requires n <= 64 && IsRun(n, run) && k < |run| && t < |run[k].thr|
    requires run[k].thr[t].Ticked?
    ensures run[k].bw == {}
    ensures forall u :: 0 <= u < |run[k].thr| && u != t ==> !Turning(run[k].thr[u])
  {
    RunInv(n, run, k);
    assert Turning(run[k].thr[t]);
  }

  // ------------------------------------------------ the grace bound

  /** Thread `u` is leaving with a snapshot taken before `t` came online. */
  predicate Stale(pc: Pc, t: nat) {
    (pc.Leaving? || pc.Merging?) && t !in pc.snap
  }

  function Share(pc: Pc, t: nat): int {
    if Stale(pc, t) then 1 else 0
  }

  function Shares(s: State, t: nat): seq<int> {
    seq(|s.thr|, u requires 0 <= u < |s.thr| => Share(s.thr[u], t))
  }

  /** `t`'s bit is gone from the map of the current epoch, so the epoch can end. */
  ghost function Lack(s: State, t: nat): int {
    if t in s.bw || exists u :: 0 <= u < |s.thr| && s.thr[u].Ticked? then 0 else 1
  }

  ghost predicate AllStale(s: State, t: nat) {
    forall u :: 0 <= u < |s.thr| && u != t ==> Stale(s.thr[u], t)
  }

  /** Ticks passed since `t` entered, plus the ticks the others can still cause, never
      exceed their number. */
  ghost predicate Budget(s: State, t: nat)
    requires t < |s.thr| && s.thr[t].In?
  {
    || s.tick - s.thr[t].at + Sum(Shares(s, t)) + Lack(s, t) <= |s.thr| - 1
    || (s.tick == s.thr[t].at && AllStale(s, t))
  }

  ghost predicate Budgets(s: State) {
    forall t :: 0 <= t < |s.thr| && s.thr[t].In? ==> Budget(s, t)
  }

  lemma SharesUpdate(s: State, s': State, t: nat, u: nat)
    requires u < |s.thr| && |s'.thr| == |s.thr| && s'.thr == s.thr[u := s'.thr[u]]
    ensures Sum(Shares(s', t)) == Sum(Shares(s, t)) - Share(s.thr[u], t) + Share(s'.thr[u], t)
  {
    SumUpdate(Shares(s, t), u, Share(s'.thr[u], t));
    assert Shares(s', t) == Shares(s, t)[u := Share(s'.thr[u], t)];
  }

  lemma {:induction false} SumAtMost(xs: seq<int>)
    requires forall i :: 0 <= i < |xs| ==> xs[i] <= 1
    ensures Sum(xs) <= |xs|
  {
    if xs != [] { SumAtMost(xs[..|xs| - 1]); }
  }

  lemma SharesBound(s: State, t: nat)
    requires t < |s.thr| && s.thr[t].In?
    ensures Sum(Shares(s, t)) <= |s.thr| - 1
  {
    SumUpdate(Shares(s, t), t, 1);
    SumAtMost(Shares(s, t)[t := 1]);
  }

  /** A thread just inside has as many stale others as can be, or its budget is sound. */
  lemma BudgetOnEnter(s: State, t: nat)
    requires t < |s.thr| && s.thr[t].In? && s.thr[t].at == s.tick
    ensures Budget(s, t)
  {
    var xs := Shares(s, t);
    if !AllStale(s, t) {
      var u :| 0 <= u < |s.thr| && u != t && !Stale(s.thr[u], t);
      SumUpdate(xs, t, 1);
      SumUpdate(xs[t := 1], u, 1);
      SumAtMost(xs[t := 1][u := 1]);
    }
  }

  lemma BudgetKept(s: State, a: Action, t: nat)
    requires Inv(s) && Enabled(s, a) && t < |s.thr| && t != a.t && s.thr[t].In? && Budget(s, t)
    ensures Budget(Apply(s, a), t)
  {
    var s' := Apply(s, a);
    var u := a.t;
    SharesUpdate(s, s', t, u);
    assert forall v :: 0 <= v < |s.thr| && v != u ==> s'.thr[v] == s.thr[v];
    assert t in s.online;
    match a
    case Enter(_) =>
    case ClearBit(_) =>
    case ReadMap(_) =>
      if s.bw == {} {
        var v :| 0 <= v < |s.thr| && Turning(s.thr[v]);
        assert !Stale(s.thr[v], t);
      }
    case MergeCas(_) =>
      SharesBound(s, t);
      if s.bw == s.thr[u].seen {
        assert forall v :: 0 <= v < |s.thr| ==> !Turning(s.thr[v]);
        assert Lack(s', t) == if t in s'.bw then 0 else 1;
      }
    case AddTick(_) =>
      assert Turning(s.thr[u]) && !Stale(s.thr[u], t);
      assert s'.thr[u].Ticked?;
      assert Lack(s, t) == 1;
    case RefillCas(_) =>
      assert Turning(s.thr[u]) && !Stale(s.thr[u], t);
      assert t in ALL;
  }

  lemma BudgetsKept(s: State, a: Action)
    requires Inv(s) && Budgets(s) && Enabled(s, a)
    ensures Budgets(Apply(s, a))
  {
    var s' := Apply(s, a);
    forall t | 0 <= t < |s'.thr| && s'.thr[t].In? ensures Budget(s', t) {
      if t == a.t { BudgetOnEnter(s', t); } else { BudgetKept(s, a, t); }
    }
  }

  lemma {:induction false} RunBudgets(n: nat, run: seq<State>, k: nat)
    requires n <= 64 && IsRun(n, run) && k < |run|
    ensures Inv(run[k]) && Budgets(run[k]) && |run[k].thr| == n
  {
    RunInv(n, run, k);
    if k > 0 {
      RunBudgets(n, run, k - 1);
      assert NextAt(run, k - 1);
      var a :| Enabled(run[k - 1], a) && run[k] == Apply(run[k - 1], a);
      BudgetsKept(run[k - 1], a);
    }
  }

  /** No section of `s` has seen more than `d` ticks pass. */
  ghost predicate Within(s: State, d: nat) {
    forall t :: 0 <= t < |s.thr| && s.thr[t].In? ==> s.tick <= s.thr[t].at + d
  }

  lemma BudgetsWithin(s: State)
    requires Budgets(s) && s.thr != []
    ensures Within(s, |s.thr| - 1)
  {
    forall t | 0 <= t < |s.thr| && s.thr[t].In? ensures s.tick <= s.thr[t].at + |s.thr| - 1 {
      SumNonNegative(Shares(s, t));
      assert Budget(s, t);
    }
  }

  /** In every interleaving of n threads an open section sees at most n - 1 ticks. */
  lemma GraceBound(n: nat, run: seq<State>, k: nat)
    requires 1 <= n <= 64 && IsRun(n, run) && k < |run|
    ensures Within(run[k], n - 1)
  {
    RunBudgets(n, run, k);
    BudgetsWithin(run[k]);
  }

  // ------------------------------------------------ the bound is reached

  ghost predicate Reach(n: nat, s: State) {
    exists run :: IsRun(n, run) && run[|run| - 1] == s
  }

  lemma ReachStep(n: nat, s: State, a: Action)
    requires Reach(n, s) && Enabled(s, a)
    ensures Reach(n, Apply(s, a))
  {
    var run :| IsRun(n, run) && run[|run| - 1] == s;
    var longer := run + [Apply(s, a)];
    forall i: nat ensures NextAt(longer, i) {
      assert NextAt(run, i);
      if i + 2 == |longer| { assert Next(longer[i], longer[i + 1]); }
    }
    assert IsRun(n, longer);
  }

  /** The ids lo..hi-1. */
  function Ids(lo: nat, hi: nat): set<nat> {
    set i: nat | i in ALL && lo <= i < hi
  }

  /** Threads 1..i are inside; nobody else has moved. */
  function Gathered(n: nat, i: nat): State {
    State(Ids(1, i + 1), ALL, 0, seq(n, (j: nat) => if 1 <= j <= i then In(0) else Out))
  }

  lemma {:induction false} Gather(n: nat, i: nat)
    requires i < n <= 64
    ensures Reach(n, Gathered(n, i))
  {
    if i == 0 {
      assert IsRun(n, [Init(n)]);
      assert Gathered(n, 0) == Init(n);
    } else {
      Gather(n, i - 1);
      ReachStep(n, Gathered(n, i - 1), Enter(i));
      assert Apply(Gathered(n, i - 1), Enter(i)) == Gathered(n, i);
    }
  }

  /** Threads 1..i have cleared their bits, in order, and stopped there. */
  function Stalled(n: nat, i: nat): State {
    State(Ids(i + 1, n), ALL, 0,
          seq(n, (j: nat) => if 1 <= j <= i then Leaving(Ids(j + 1, n)) else if 1 <= j then In(0) else Out))
  }

  lemma {:induction false} Stall(n: nat, i: nat)
    requires i < n <= 64
    ensures Reach(n, Stalled(n, i))
  {
    if i == 0 {
      Gather(n, n - 1);
      assert Gathered(n, n - 1) == Stalled(n, 0);
    } else {
      Stall(n, i - 1);
      ReachStep(n, Stalled(n, i - 1), ClearBit(i));
      assert Stalled(n, i - 1).online - {i} == Ids(i + 1, n);
      assert Apply(Stalled(n, i - 1), ClearBit(i)) == Stalled(n, i);
    }
  }

  /** Thread 0 entered at tick 0 and is still inside; k ticks have passed, each ended by
      one of the stalled snapshots. */
  function Late(n: nat, k: nat): State
    requires 1 <= n
  {
    State({0}, ALL, k,
          seq(n, (j: nat) => if j == 0 then In(0) else if j + k < n then Leaving(Ids(j + 1, n)) else Out))
  }

  /** From `s`, thread `u` leaving with `snap` ends the epoch. */
  lemma EndEpoch(n: nat, s: State, u: nat)
    requires Reach(n, s) && u < |s.thr| && s.thr[u].Leaving? && s.bw != {} && s.bw * s.thr[u].snap == {}
    ensures Reach(n, State(s.online, ALL, s.tick + 1, s.thr[u := Out]))
  {
    ReachStep(n, s, ReadMap(u));
    var s1 := Apply(s, ReadMap(u));
    ReachStep(n, s1, MergeCas(u));
    var s2 := Apply(s1, MergeCas(u));
    ReachStep(n, s2, AddTick(u));
    var s3 := Apply(s2, AddTick(u));
    ReachStep(n, s3, RefillCas(u));
    assert Apply(s3, RefillCas(u)) == State(s.online, ALL, s.tick + 1, s.thr[u := Out]);
  }

  lemma LateStep(n: nat, k: nat)
    requires 2 <= n <= 64 && 1 <= k < n - 1 && Reach(n, Late(n, k))
    ensures Reach(n, Late(n, k + 1))
  {
    var s := Late(n, k);
    var j := n - 1 - k;
    ReachStep(n, s, ReadMap(j));
    assert n - 1 in ALL * Ids(j + 1, n);
    var s1 := Apply(s, ReadMap(j));
    ReachStep(n, s1, MergeCas(j));
    var s2 := Apply(s1, MergeCas(j));
    assert s2 == State({0}, Ids(j + 1, n), k, s.thr[j := Out]);
    ReachStep(n, s2, Enter(n - 1));
    var s3 := Apply(s2, Enter(n - 1));
    ReachStep(n, s3, ClearBit(n - 1));
    var s4 := Apply(s3, ClearBit(n - 1));
    assert s4.thr[n - 1] == Leaving({0});
    assert s4.bw * {0} == {};
    EndEpoch(n, s4, n - 1);
    assert State(s4.online, ALL, k + 1, s4.thr[n - 1 := Out]) == Late(n, k + 1);
  }

  lemma {:induction false} ReachLate(n: nat, k: nat)
    requires 2 <= n <= 64 && 1 <= k <= n - 1
    ensures Reach(n, Late(n, k))
  {
    if k == 1 {
      Stall(n, n - 1);
      ReachStep(n, Stalled(n, n - 1), Enter(0));
      assert Apply(Stalled(n, n - 1), Enter(0)) == Late(n, 0);
      assert Late(n, 0).thr[n - 1] == Leaving({});
      assert 0 in ALL;
      EndEpoch(n, Late(n, 0), n - 1);
      assert State({0}, ALL, 1, Late(n, 0).thr[n - 1 := Out]) == Late(n, 1);
    } else {
      ReachLate(n, k - 1);
      LateStep(n, k - 1);
    }
  }

  /** Every interleaving of n threads keeps every open section within d ticks. */
  ghost predicate Grace(n: nat, d: nat) {
    forall run :: IsRun(n, run) ==> Within(run[|run| - 1], d)
  }

  /** The exact guarantee: d ticks of grace are enough for n threads iff n <= d + 1.  The
      allocator waits for two ticks, that is counts on d == 1, which holds up to two
      threads and for no larger number. */
  lemma GraceExactly(n: nat, d: nat)
    requires 1 <= n <= 64
    ensures Grace(n, d) <==> n <= d + 1
  {
    if n <= d + 1 {
      forall run | IsRun(n, run) ensures Within(run[|run| - 1], d) {
        GraceBound(n, run, |run| - 1);
      }
    } else {
      ReachLate(n, n - 1);
      var run :| IsRun(n, run) && run[|run| - 1] == Late(n, n - 1);
      assert Late(n, n - 1).thr[0] == In(0);
      assert !Within(run[|run| - 1], d);
    }
  }
}

/** Runs that break the pool: what `GuardedPool` asks for is needed.  From three threads on
    a stale leaver ends a second epoch and an id comes back inside a section that saw it
    go; with two threads a walk that slips does the same. */
module GuardedRuns {
  import opened Layout
  import opened GuardedPool
  import P = LockFreePool
  import E = ThreadTick
  import D = DeferredFrees
  import S = LinkedStacks
  import T = TickAge

  /** A run ends in `s`.  It begins with `base`, and no walk in it slips but one that may
      start with the last step of `base`. */
  ghost predicate Reached(n: nat, s: State, base: seq<State>) {
    exists run: seq<State> :: RunTo(n, run, s, base)
  }

  ghost predicate RunTo(n: nat, run: seq<State>, s: State, base: seq<State>) {
    && IsRun(n, run) && run[|run| - 1] == s && base <= run
    && forall i: nat :: CalmBut(run, i, base)
  }

  ghost predicate CalmBut(run: seq<State>, i: nat, base: seq<State>) {
    i + 2 == |base| || CalmAt(run, i)
  }

  lemma Begin(n: nat)
    ensures Reached(n, Init(n), [])
  {
    var run := [Init(n)];
    assert RunTo(n, run, Init(n), []);
  }

  lemma Longer(n: nat, run: seq<State>, s: State, a: Action)
    requires IsRun(n, run) && run[|run| - 1] == s && Enabled(s, a)
    ensures IsRun(n, run + [Apply(s, a)])
  {
    var longer := run + [Apply(s, a)];
    forall i: nat ensures NextAt(longer, i) {
      assert NextAt(run, i);
      if i + 2 == |longer| { assert Next(longer[i], longer[i + 1]); }
    }
  }

  lemma Step(n: nat, s: State, a: Action, base: seq<State>)
    requires Reached(n, s, base) && Enabled(s, a) && CalmStep(s, Apply(s, a))
    ensures Reached(n, Apply(s, a), base)
  {
    var run: seq<State> :| RunTo(n, run, s, base);
    var longer := run + [Apply(s, a)];
    Longer(n, run, s, a);
    forall i: nat ensures CalmBut(longer, i, base) { assert CalmBut(run, i, base); }
    assert RunTo(n, longer, Apply(s, a), base);
  }

  /** A step of any kind, the base from here on. */
  lemma Leap(n: nat, s: State, a: Action) returns (base: seq<State>)
    requires Reached(n, s, []) && Enabled(s, a)
    ensures Reached(n, Apply(s, a), base)
    ensures |base| >= 2 && base[|base| - 1] == Apply(s, a) && base[|base| - 2] == s
    ensures IsRun(n, base) && forall i: nat :: CalmBut(base, i, base)
  {
    var run: seq<State> :| RunTo(n, run, s, []);
    base := run + [Apply(s, a)];
    Longer(n, run, s, a);
    forall i: nat ensures CalmBut(base, i, base) { assert CalmBut(run, i, []); }
    assert RunTo(n, base, Apply(s, a), base);
  }

  lemma PoolDo(n: nat, s: State, p: P.Action, base: seq<State>)
    requires Reached(n, s, base) && P.Enabled(s.pool, p) && !Shared(p) && !p.WalkBegin?
    ensures Reached(n, s.(pool := P.Apply(s.pool, p)), base)
  {
    PoolIsCalm(s, p);
    Step(n, s, PoolStep(p), base);
  }

  lemma EpochDo(n: nat, s: State, e: E.Action, base: seq<State>)
    requires Reached(n, s, base) && Enabled(s, EpochStep(e))
    ensures Reached(n, Apply(s, EpochStep(e)), base)
  {
    EpochIsCalm(s, e);
    Step(n, s, EpochStep(e), base);
  }

  // ---------------------------------------------------------------- whole pops and pushes

  /** What thread `t`'s uninterrupted pop of id `h` leaves. */
  ghost predicate Popped(s: P.State, q: P.State, h: nat) {
    && s.list != [] && q.list == s.list[1..] && q.link == s.link && q.bufs == s.bufs
    && h in s.link && q.head == s.link[h]
    && q.tick == s.tick && q.thr == s.thr && q.place == s.place[h := P.Live(s.tick)]
  }

  /** Thread `t` reads the head `h` and its link. */
  lemma Look(n: nat, s: State, t: nat, h: nat, base: seq<State>)
    requires Reached(n, s, base) && P.Ready(s.pool, t) && s.pool.head == h && h in s.pool.link
    ensures Reached(n, s.(pool := P.SetPc(s.pool, t, P.PopLink(h, s.pool.link[h]))), base)
  {
    PoolDo(n, s, P.ReadHead(t), base);
    var p1 := P.Apply(s.pool, P.ReadHead(t));
    PoolDo(n, s.(pool := p1), P.ReadLink(t), base);
    assert P.Apply(p1, P.ReadLink(t)) == P.SetPc(s.pool, t, P.PopLink(h, s.pool.link[h]));
  }

  /** Its swap, which finds `h` still on top. */
  function Swapped(s: P.State, t: nat, h: nat, m: int): P.State
    requires t < |s.thr| && s.list != []
  {
    P.SetPc(s.(head := m, list := s.list[1..], place := s.place[h := P.Taken(t, s.tick)]), t, P.PopTaken(h))
  }

  lemma Swap(n: nat, s: State, t: nat, h: nat, m: int, base: seq<State>)
    requires Reached(n, s, base) && P.Inside(s.pool, t) && s.pool.thr[t].pc == P.PopLink(h, m)
    requires s.pool.head == h && s.pool.list != []
    ensures Reached(n, s.(pool := Swapped(s.pool, t, h, m)), base)
  {
    PoolDo(n, s, P.PopCas(t), base);
  }

  /** The two counters follow. */
  lemma Count(n: nat, s: State, t: nat, h: nat, base: seq<State>) returns (q: P.State)
    requires Reached(n, s, base) && P.Inside(s.pool, t) && s.pool.thr[t].pc == P.PopTaken(h)
    requires h in s.pool.place && s.pool.place[h].Taken?
    ensures Reached(n, s.(pool := q), base)
    ensures q == P.SetPc(s.pool.(place := s.pool.place[h := P.Live(s.pool.place[h].since)],
                                 freeCnt := q.freeCnt, usedCnt := q.usedCnt), t, P.Idle)
  {
    PoolDo(n, s, P.PopSubFree(t), base);
    var p1 := P.Apply(s.pool, P.PopSubFree(t));
    PoolDo(n, s.(pool := p1), P.PopAddUsed(t), base);
    q := P.Apply(p1, P.PopAddUsed(t));
  }

  lemma Pop(n: nat, s: State, t: nat, h: nat, base: seq<State>) returns (q: P.State)
    requires Reached(n, s, base) && P.Ready(s.pool, t) && s.pool.head == h && h in s.pool.link && s.pool.list != []
    ensures Reached(n, s.(pool := q), base) && Popped(s.pool, q, h)
  {
    var p0 := s.pool;
    Look(n, s, t, h, base);
    var p1 := P.SetPc(p0, t, P.PopLink(h, p0.link[h]));
    Swap(n, s.(pool := p1), t, h, p0.link[h], base);
    q := Count(n, s.(pool := Swapped(p1, t, h, p0.link[h])), t, h, base);
    assert q.thr == p0.thr;
  }

  /** What thread `t`'s uninterrupted push of what it has in hand leaves. */
  ghost predicate Pushed(s: P.State, q: P.State, t: nat, chain: seq<nat>) {
    && chain != [] && t < |s.thr|
    && q.head == chain[0] && q.list == chain + s.list && q.link == s.link[chain[|chain| - 1] := s.head]
    && q.bufs == s.bufs && q.tick == s.tick && q.thr == s.thr[t := s.thr[t].(pc := P.Idle)]
    && q.place == s.place + map i | i in chain :: P.Listed
  }

  /** The chain's last id linked to the head. */
  function Linked(s: P.State, t: nat, chain: seq<nat>, carving: bool): P.State
    requires t < |s.thr| && chain != []
  {
    P.SetPc(s.(link := s.link[chain[|chain| - 1] := s.head]), t, P.PushLinked(chain, carving, s.head))
  }

  lemma Link(n: nat, s: State, t: nat, chain: seq<nat>, carving: bool, base: seq<State>)
    requires Reached(n, s, base) && P.Inside(s.pool, t) && s.pool.thr[t].pc == P.PushReady(chain, carving) && chain != []
    ensures Reached(n, s.(pool := Linked(s.pool, t, chain, carving)), base)
  {
    PoolDo(n, s, P.PushReadHead(t), base);
    var p1 := P.Apply(s.pool, P.PushReadHead(t));
    PoolDo(n, s.(pool := p1), P.PushWriteLink(t), base);
    assert P.Apply(p1, P.PushWriteLink(t)) == Linked(s.pool, t, chain, carving);
  }

  lemma Splice(n: nat, s: State, t: nat, chain: seq<nat>, carving: bool, base: seq<State>) returns (q: P.State)
    requires Reached(n, s, base) && P.Inside(s.pool, t) && chain != []
    requires s.pool.thr[t].pc == P.PushLinked(chain, carving, s.pool.head)
    ensures Reached(n, s.(pool := q), base)
    ensures q == P.SetPc(s.pool.(head := chain[0], list := chain + s.pool.list,
                                 place := s.pool.place + map i | i in chain :: P.Listed,
                                 carved := q.carved), t, P.PushSpliced(chain, carving))
  {
    PoolDo(n, s, P.PushCas(t), base);
    q := P.Apply(s.pool, P.PushCas(t));
  }

  lemma CountPush(n: nat, s: State, t: nat, chain: seq<nat>, carving: bool, base: seq<State>) returns (q: P.State)
    requires Reached(n, s, base) && P.Inside(s.pool, t) && s.pool.thr[t].pc == P.PushSpliced(chain, carving) && chain != []
    ensures Reached(n, s.(pool := q), base)
    ensures q == P.SetPc(s.pool.(freeCnt := q.freeCnt, usedCnt := q.usedCnt), t, P.Idle)
  {
    PoolDo(n, s, P.PushAddFree(t), base);
    q := P.Apply(s.pool, P.PushAddFree(t));
    if !carving {
      PoolDo(n, s.(pool := q), P.PushSubUsed(t), base);
      q := P.Apply(q, P.PushSubUsed(t));
    }
  }

  lemma Push(n: nat, s: State, t: nat, chain: seq<nat>, carving: bool, base: seq<State>) returns (q: P.State)
    requires Reached(n, s, base) && P.Inside(s.pool, t) && s.pool.thr[t].pc == P.PushReady(chain, carving) && chain != []
    ensures Reached(n, s.(pool := q), base) && Pushed(s.pool, q, t, chain)
  {
    Link(n, s, t, chain, carving, base);
    var q0 := Splice(n, s.(pool := Linked(s.pool, t, chain, carving)), t, chain, carving, base);
    q := CountPush(n, s.(pool := q0), t, chain, carving, base);
    assert q.thr == s.pool.thr[t := s.pool.thr[t].(pc := P.Idle)];
  }

  // ---------------------------------------------------------------- sections and epochs

  function Section(s: P.State, t: nat, sec: P.Section): P.State
    requires t < |s.thr|
  {
    s.(thr := s.thr[t := P.Thread(sec, P.Idle, P.NoWalk)])
  }

  function Entered(s: State, t: nat): State
    requires t < |s.pool.thr| && t < |s.epoch.thr|
  {
    State(s.epoch.(online := s.epoch.online + {t}, thr := s.epoch.thr[t := E.In(s.epoch.tick)]),
          Section(s.pool, t, P.Open(s.pool.tick)))
  }

  lemma Enter(n: nat, s: State, t: nat, base: seq<State>)
    requires Reached(n, s, base) && t < |s.epoch.thr| && s.epoch.thr[t].Out?
    requires t < |s.pool.thr| && s.pool.thr[t] == P.Thread(P.Closed, P.Idle, P.NoWalk)
    ensures Reached(n, Entered(s, t), base)
  {
    EpochDo(n, s, E.Enter(t), base);
  }

  /** Thread `t` is out of its section, with a snapshot of the online map still to merge. */
  function Cleared(s: State, t: nat): State
    requires t < |s.pool.thr| && t < |s.epoch.thr|
  {
    var on := s.epoch.online - {t};
    State(s.epoch.(online := on, thr := s.epoch.thr[t := E.Leaving(on)]), Section(s.pool, t, P.Closed))
  }

  lemma Clear(n: nat, s: State, t: nat, base: seq<State>)
    requires Reached(n, s, base) && t < |s.epoch.thr| && s.epoch.thr[t].In? && P.Ready(s.pool, t)
    ensures Reached(n, Cleared(s, t), base)
  {
    EpochDo(n, s, E.ClearBit(t), base);
  }

  /** A merge that leaves somebody in the map. */
  lemma Merge(n: nat, s: State, t: nat, base: seq<State>)
    requires Reached(n, s, base) && t < |s.epoch.thr| && s.epoch.thr[t].Leaving?
    requires s.epoch.bw * s.epoch.thr[t].snap != {}
    ensures Reached(n, s.(epoch := s.epoch.(bw := s.epoch.bw * s.epoch.thr[t].snap, thr := s.epoch.thr[t := E.Out])), base)
  {
    EpochDo(n, s, E.ReadMap(t), base);
    var s1 := Apply(s, EpochStep(E.ReadMap(t)));
    EpochDo(n, s1, E.MergeCas(t), base);
    assert s1.epoch.thr[t := E.Out] == s.epoch.thr[t := E.Out];
  }

  /** The epoch after `t` has merged a snapshot that leaves nobody in the map. */
  function Ended(s: State, t: nat): State
    requires t < |s.epoch.thr|
  {
    State(E.State(s.epoch.online, E.ALL, s.epoch.tick + 1, s.epoch.thr[t := E.Out]), s.pool.(tick := s.pool.tick + 1))
  }

  lemma End(n: nat, s: State, t: nat, base: seq<State>)
    requires Reached(n, s, base) && t < |s.epoch.thr| && s.epoch.thr[t].Leaving?
    requires s.epoch.bw != {} && s.epoch.bw * s.epoch.thr[t].snap == {}
    ensures Reached(n, Ended(s, t), base)
  {
    EpochDo(n, s, E.ReadMap(t), base);
    var s1 := Apply(s, EpochStep(E.ReadMap(t)));
    EpochDo(n, s1, E.MergeCas(t), base);
    var s2 := Apply(s1, EpochStep(E.MergeCas(t)));
    EpochDo(n, s2, E.AddTick(t), base);
    var s3 := Apply(s2, EpochStep(E.AddTick(t)));
    EpochDo(n, s3, E.RefillCas(t), base);
    assert s3.epoch.thr[t := E.Out] == s.epoch.thr[t := E.Out];
    assert Apply(s3, EpochStep(E.RefillCas(t))) == Ended(s, t);
  }

  // ---------------------------------------------------------------- the first ids

  /** Ids j..k-1 lie on the stack in order. */
  ghost predicate Stocked(p: P.State, j: nat, k: nat) {
    && j <= k && p.list == Carved(j, k - j) && p.head == S.First(p.list)
    && forall i: nat :: StockedAt(p, j, k, i)
  }

  ghost predicate StockedAt(p: P.State, j: nat, k: nat, i: nat) {
    j <= i < k ==> i in p.link && p.link[i] == (if i + 1 < k then i + 1 else S.NIL) && i in p.place && p.place[i] == P.Listed
  }

  lemma StillStocked(p: P.State, q: P.State, j: nat, k: nat)
    requires Stocked(p, j, k) && q.list == p.list && q.head == p.head && q.link == p.link && q.place == p.place
    ensures Stocked(q, j, k)
  {
    forall i: nat ensures StockedAt(q, j, k, i) { assert StockedAt(p, j, k, i); }
  }

  lemma CarveStep(n: nat, s: State, t: nat, k: nat, base: seq<State>) returns (q: P.State)
    requires Reached(n, s, base) && P.Ready(s.pool, t) && k > 0 && s.pool.place == map[] && s.pool.link == map[]
    ensures Reached(n, s.(pool := q), base)
    ensures q == s.pool.(place := map i | i in Carved(0, k) :: P.Pushing(t), link := map i | i in Carved(0, k) :: i + 1,
                         thr := s.pool.thr[t := s.pool.thr[t].(pc := P.PushReady(Carved(0, k), true))])
  {
    var c := P.Carve(t, 0, k);
    PoolDo(n, s, c, base);
    q := P.Apply(s.pool, c);
  }

  lemma Stock(n: nat, s: State, t: nat, k: nat, base: seq<State>) returns (q: P.State)
    requires Reached(n, s, base) && P.Ready(s.pool, t) && k > 0
    requires s.pool.head == S.NIL && s.pool.list == [] && s.pool.place == map[] && s.pool.link == map[]
    ensures Reached(n, s.(pool := q), base) && Stocked(q, 0, k)
    ensures q.thr == s.pool.thr && q.tick == s.pool.tick && q.bufs == s.pool.bufs
  {
    var ids := Carved(0, k);
    var p1 := CarveStep(n, s, t, k, base);
    q := Push(n, s.(pool := p1), t, ids, true, base);
    forall i: nat ensures StockedAt(q, 0, k, i) {
      if i < k { assert ids[i] == i; }
    }
    assert q.thr == s.pool.thr;
  }

  /** Popping the first of them. */
  lemma PopFirst(n: nat, s: State, t: nat, j: nat, k: nat, base: seq<State>) returns (q: P.State)
    requires Reached(n, s, base) && P.Ready(s.pool, t) && Stocked(s.pool, j, k) && j < k
    ensures Reached(n, s.(pool := q), base) && Stocked(q, j + 1, k) && j in q.place && q.place[j].Live?
    ensures q.thr == s.pool.thr && q.tick == s.pool.tick && q.bufs == s.pool.bufs
    ensures forall i :: i in s.pool.place && i != j ==> i in q.place && q.place[i] == s.pool.place[i]
  {
    assert StockedAt(s.pool, j, k, j);
    q := Pop(n, s, t, j, base);
    assert q.list == Carved(j + 1, k - j - 1);
    var j' := j + 1;
    forall i: nat ensures StockedAt(q, j', k, i) { assert StockedAt(s.pool, j, k, i); }
  }

  /** Retiring id `j` alone. */
  lemma RetireOne(n: nat, s: State, t: nat, b: nat, j: nat, base: seq<State>) returns (q: P.State)
    requires Reached(n, s, base) && P.Ready(s.pool, t) && P.Owns(s.pool, t, b) && j in s.pool.place && s.pool.place[j].Live?
    ensures Reached(n, s.(pool := q), base)
    ensures q == s.pool.(place := q.place, bufs := s.pool.bufs[b := s.pool.bufs[b] + [D.Entry(j, s.pool.tick, false, false)]])
    ensures q.place == s.pool.place[j := P.Parked(b, s.pool.tick)]
  {
    var r := P.Retire(t, b, [j]);
    PoolDo(n, s, r, base);
    q := P.Apply(s.pool, r);
  }

  // ---------------------------------------------------------------- three threads

  ghost predicate EpochIs(s: State, n: nat, online: set<nat>, bw: set<nat>, tick: nat, a: E.Pc, b: E.Pc, c: E.Pc) {
    && 3 <= n <= 64 && s.epoch.online == online && s.epoch.bw == bw && s.epoch.tick == tick && s.pool.tick == tick
    && |s.epoch.thr| == n && s.epoch.thr[0] == a && s.epoch.thr[1] == b && s.epoch.thr[2] == c
  }

  ghost predicate PoolIs(p: P.State, n: nat, a: P.Thread, b: P.Thread) {
    && n >= 3 && |p.thr| == n && p.thr[0] == a && p.thr[1] == b && p.thr[2] == Away() && |p.bufs| == 2 * n
  }

  function Away(): P.Thread {
    P.Thread(P.Closed, P.Idle, P.NoWalk)
  }

  function Within(at: nat, pc: P.Pc): P.Thread {
    P.Thread(P.Open(at), pc, P.NoWalk)
  }

  /** Thread 1 is inside, with ids 0 and 1 on the stack. */
  lemma First(n: nat) returns (s: State)
    requires 3 <= n <= 64
    ensures Reached(n, s, []) && EpochIs(s, n, {1}, E.ALL, 0, E.Out, E.In(0), E.Out)
    ensures PoolIs(s.pool, n, Away(), Within(0, P.Idle)) && Stocked(s.pool, 0, 2) && s.pool.bufs[3] == []
  {
    Begin(n);
    Enter(n, Init(n), 1, []);
    var s0 := Entered(Init(n), 1);
    var q := Stock(n, s0, 1, 2, []);
    s := s0.(pool := q);
  }

  /** Thread 2 came and left the map to thread 1 alone, came again and left, its second
      snapshot not merged yet. */
  lemma Second(n: nat) returns (s: State)
    requires 3 <= n <= 64
    ensures Reached(n, s, []) && EpochIs(s, n, {1}, {1}, 0, E.Out, E.In(0), E.Leaving({1}))
    ensures PoolIs(s.pool, n, Away(), Within(0, P.Idle)) && Stocked(s.pool, 0, 2) && s.pool.bufs[3] == []
  {
    s := First(n);
    var p := s.pool;
    Enter(n, s, 2, []);
    s := Entered(s, 2);
    Clear(n, s, 2, []);
    s := Cleared(s, 2);
    assert s.epoch.online == {1} && E.ALL * {1} == {1};
    Merge(n, s, 2, []);
    s := s.(epoch := s.epoch.(bw := {1}, thr := s.epoch.thr[2 := E.Out]));
    Enter(n, s, 2, []);
    s := Entered(s, 2);
    Clear(n, s, 2, []);
    s := Cleared(s, 2);
    StillStocked(p, s.pool, 0, 2);
    assert s.epoch.online == {1};
  }

  /** Thread 0 enters and takes its snapshot: id 0 on top, id 1 next. */
  lemma Third(n: nat) returns (s: State)
    requires 3 <= n <= 64
    ensures Reached(n, s, []) && EpochIs(s, n, {0, 1}, {1}, 0, E.In(0), E.In(0), E.Leaving({1}))
    ensures PoolIs(s.pool, n, Within(0, P.PopLink(0, 1)), Within(0, P.Idle)) && Stocked(s.pool, 0, 2) && s.pool.bufs[3] == []
  {
    s := Second(n);
    var p := s.pool;
    Enter(n, s, 0, []);
    s := Entered(s, 0);
    StillStocked(p, s.pool, 0, 2);
    assert StockedAt(s.pool, 0, 2, 0);
    Look(n, s, 0, 0, []);
    s := s.(pool := P.SetPc(s.pool, 0, P.PopLink(0, 1)));
    StillStocked(p, s.pool, 0, 2);
    assert s.epoch.online == {0, 1};
  }

  /** Thread 1 pops both ids and retires id 0. */
  lemma Fourth(n: nat) returns (s: State)
    requires 3 <= n <= 64
    ensures Reached(n, s, []) && EpochIs(s, n, {0, 1}, {1}, 0, E.In(0), E.In(0), E.Leaving({1}))
    ensures PoolIs(s.pool, n, Within(0, P.PopLink(0, 1)), Within(0, P.Idle))
    ensures s.pool.list == [] && s.pool.head == S.NIL && s.pool.bufs[3] == [D.Entry(0, 0, false, false)]
  {
    s := Third(n);
    var q := PopFirst(n, s, 1, 0, 2, []);
    s := s.(pool := q);
    q := PopFirst(n, s, 1, 1, 2, []);
    s := s.(pool := q);
    q := RetireOne(n, s, 1, 3, 0, []);
    s := s.(pool := q);
  }

  /** Thread 1 leaves and ends the epoch, which thread 0 never was part of. */
  lemma Fifth(n: nat) returns (s: State)
    requires 3 <= n <= 64
    ensures Reached(n, s, []) && EpochIs(s, n, {0}, E.ALL, 1, E.In(0), E.Out, E.Leaving({1}))
    ensures PoolIs(s.pool, n, Within(0, P.PopLink(0, 1)), Away())
    ensures s.pool.list == [] && s.pool.head == S.NIL && s.pool.bufs[3] == [D.Entry(0, 0, false, false)]
  {
    s := Fourth(n);
    Clear(n, s, 1, []);
    s := Cleared(s, 1);
    assert s.epoch.online == {0} && {1} * {0} == {};
    End(n, s, 1, []);
    s := Ended(s, 1);
  }

  /** Thread 1 is back; thread 2 merges its stale snapshot. */
  lemma Sixth(n: nat) returns (s: State)
    requires 3 <= n <= 64
    ensures Reached(n, s, []) && EpochIs(s, n, {0, 1}, {1}, 1, E.In(0), E.In(1), E.Out)
    ensures PoolIs(s.pool, n, Within(0, P.PopLink(0, 1)), Within(1, P.Idle))
    ensures s.pool.list == [] && s.pool.head == S.NIL && s.pool.bufs[3] == [D.Entry(0, 0, false, false)]
  {
    s := Fifth(n);
    Enter(n, s, 1, []);
    s := Entered(s, 1);
    assert E.ALL * {1} == {1};
    Merge(n, s, 2, []);
    s := s.(epoch := s.epoch.(bw := {1}, thr := s.epoch.thr[2 := E.Out]));
    assert s.epoch.online == {0, 1};
  }

  /** Thread 1 leaves, which ends a second epoch, and is back once more. */
  lemma Seventh(n: nat) returns (s: State)
    requires 3 <= n <= 64
    ensures Reached(n, s, []) && EpochIs(s, n, {0, 1}, E.ALL, 2, E.In(0), E.In(2), E.Out)
    ensures PoolIs(s.pool, n, Within(0, P.PopLink(0, 1)), Within(2, P.Idle))
    ensures s.pool.list == [] && s.pool.head == S.NIL && s.pool.bufs[3] == [D.Entry(0, 0, false, false)]
  {
    s := Sixth(n);
    Clear(n, s, 1, []);
    s := Cleared(s, 1);
    assert s.epoch.online == {0} && {1} * {0} == {};
    End(n, s, 1, []);
    s := Ended(s, 1);
    Enter(n, s, 1, []);
    s := Entered(s, 1);
    assert s.epoch.online == {0, 1};
  }

  /** Id 0 has waited for two ticks and goes back on the stack, inside thread 0's first
      section: its swap succeeds and installs id 1, which a client holds. */
  lemma Eighth(n: nat) returns (s: State)
    requires 3 <= n <= 64
    ensures Reached(n, s, []) && !PopsTop(s.pool, 0)
  {
    s := Seventh(n);
    T.ExpiredIsAge(2, 0);
    var f := P.FreeHead(1, 3);
    PoolDo(n, s, f, []);
    s := s.(pool := P.Apply(s.pool, f));
    var q := Push(n, s, 1, [0], false, []);
    s := s.(pool := q);
    assert s.pool.head == 0 && s.pool.list == [0];
    assert P.Apply(s.pool, P.PopCas(0)).head == 1;
  }

  /** In every run of `n` threads in which no walk slips, every swap pops the top. */
  ghost predicate PoolIsSafe(n: nat) {
    forall run: seq<State> :: IsRun(n, run) && CalmRun(run) ==> AllPopTop(run[|run| - 1].pool)
  }

  /** The exact boundary: the allocator's two ticks of waiting keep its pops free of ABA for
      up to two threads and for no larger number. */
  lemma SafeExactly(n: nat)
    requires 1 <= n <= 64
    ensures PoolIsSafe(n) <==> n <= 2
  {
    if n <= 2 {
      forall run: seq<State> | IsRun(n, run) && CalmRun(run) ensures AllPopTop(run[|run| - 1].pool) {
        SafeWithTwoThreads(n, run, |run| - 1);
      }
    } else {
      var s := Eighth(n);
      var run: seq<State> :| RunTo(n, run, s, []);
      forall i: nat ensures CalmAt(run, i) { assert CalmBut(run, i, []); }
      assert !PopsTop(run[|run| - 1].pool, 0);
    }
  }

  // ---------------------------------------------------------------- a slipping walk

  /** All are out, the clock stands at `x`. */
  ghost predicate Resting(s: State, n: nat, x: nat) {
    && 2 <= n <= 64 && s.epoch.online == {} && s.epoch.bw == E.ALL && s.epoch.tick == x && s.pool.tick == x
    && |s.epoch.thr| == n && s.epoch.thr[0].Out? && s.epoch.thr[1].Out?
    && |s.pool.thr| == n && s.pool.thr[0] == Away() && s.pool.thr[1] == Away() && |s.pool.bufs| == 2 * n
  }

  ghost predicate SameStack(p: P.State, q: P.State) {
    q.list == p.list && q.head == p.head && q.link == p.link && q.place == p.place && q.bufs == p.bufs
  }

  /** Thread 1, alone inside, leaves: a tick passes. */
  lemma Last(n: nat, s: State, x: nat) returns (s': State)
    requires Reached(n, s, []) && 2 <= n <= 64 && s.epoch.online == {1} && s.epoch.bw == E.ALL
    requires |s.epoch.thr| == n && s.epoch.thr[0].Out? && s.epoch.thr[1].In? && s.epoch.tick == x && s.pool.tick == x
    requires |s.pool.thr| == n && s.pool.thr[0] == Away() && P.Ready(s.pool, 1) && |s.pool.bufs| == 2 * n
    ensures Reached(n, s', []) && Resting(s', n, x + 1) && SameStack(s.pool, s'.pool)
  {
    Clear(n, s, 1, []);
    s' := Cleared(s, 1);
    assert s'.epoch.online == {} && 0 in E.ALL;
    End(n, s', 1, []);
    s' := Ended(s', 1);
  }

  lemma {:induction false} Wait(n: nat, s: State, x: nat, y: nat) returns (s': State)
    requires Reached(n, s, []) && Resting(s, n, x) && x <= y
    ensures Reached(n, s', []) && Resting(s', n, y) && SameStack(s.pool, s'.pool)
    decreases y - x
  {
    s' := s;
    if x < y {
      Enter(n, s, 1, []);
      s' := Last(n, Entered(s, 1), x);
      s' := Wait(n, s', x + 1, y);
    }
  }

  /** Id 0 retired one tick before a wrap, ids 1..j two ticks later. */
  function Queue(j: nat): (q: seq<D.Entry>)
    ensures |q| == j + 1 && forall i :: 0 <= i < |q| ==> !q[i].pair
  {
    [D.Entry(0, T.WINDOW - 1, false, false)] + seq(j, (i: nat) => D.Entry(i + 1, T.WINDOW + 1, false, false))
  }

  lemma Stocking(n: nat, k: nat) returns (s: State)
    requires 2 <= n <= 64
    ensures Reached(n, s, []) && Resting(s, n, 1) && Stocked(s.pool, 0, k + 1) && s.pool.bufs[3] == []
  {
    Begin(n);
    Enter(n, Init(n), 1, []);
    var s0 := Entered(Init(n), 1);
    var q := Stock(n, s0, 1, k + 1, []);
    assert s0.epoch.online == {1};
    s := Last(n, s0.(pool := q), 0);
    StillStocked(q, s.pool, 0, k + 1);
  }

  lemma OldHead(n: nat, k: nat) returns (s: State)
    requires 2 <= n <= 64
    ensures Reached(n, s, []) && Resting(s, n, T.WINDOW + 1) && Stocked(s.pool, 1, k + 1) && s.pool.bufs[3] == Queue(0)
  {
    var s0 := Stocking(n, k);
    s := Wait(n, s0, 1, T.WINDOW - 1);
    StillStocked(s0.pool, s.pool, 0, k + 1);
    Enter(n, s, 1, []);
    s0 := Entered(s, 1);
    StillStocked(s.pool, s0.pool, 0, k + 1);
    assert s0.epoch.online == {1};
    var q := PopFirst(n, s0, 1, 0, k + 1, []);
    s0 := s0.(pool := q);
    var r := RetireOne(n, s0, 1, 3, 0, []);
    s := Last(n, s0.(pool := r), T.WINDOW - 1);
    StillRetired(q, r, 0, 1, k + 1);
    StillStocked(r, s.pool, 1, k + 1);
    q := s.pool;
    s := Wait(n, s, T.WINDOW, T.WINDOW + 1);
    StillStocked(q, s.pool, 1, k + 1);
  }

  lemma StillRetired(p: P.State, q: P.State, id: nat, j: nat, k: nat)
    requires Stocked(p, j, k) && id < j && q.list == p.list && q.head == p.head && q.link == p.link
    requires forall i :: i in p.place && i != id ==> i in q.place && q.place[i] == p.place[i]
    ensures Stocked(q, j, k)
  {
    forall i: nat ensures StockedAt(q, j, k, i) { assert StockedAt(p, j, k, i); }
  }

  /** Thread 0 holds a snapshot of ids 1 and 2; thread 1 has popped and retired 1..j since. */
  ghost predicate Mid(p: P.State, n: nat, j: nat, k: nat) {
    && n >= 2 && |p.thr| == n && |p.bufs| == 2 * n && p.tick == T.WINDOW + 1
    && p.thr[0] == Within(T.WINDOW + 1, P.PopLink(1, 2)) && p.thr[1] == Within(T.WINDOW + 1, P.Idle)
    && Stocked(p, j + 1, k + 1) && p.bufs[3] == Queue(j)
    && (j >= 2 ==> 2 in p.place && p.place[2] == P.Parked(3, T.WINDOW + 1))
  }

  lemma Snapshot(n: nat, k: nat) returns (s: State)
    requires 2 <= n <= 64 && k >= 2
    ensures Reached(n, s, []) && Mid(s.pool, n, 0, k)
  {
    var s0 := OldHead(n, k);
    Enter(n, s0, 0, []);
    s := Entered(s0, 0);
    Enter(n, s, 1, []);
    s := Entered(s, 1);
    StillStocked(s0.pool, s.pool, 1, k + 1);
    assert StockedAt(s.pool, 1, k + 1, 1);
    Look(n, s, 0, 1, []);
    s := s.(pool := P.SetPc(s.pool, 0, P.PopLink(1, 2)));
    StillStocked(s0.pool, s.pool, 1, k + 1);
  }

  lemma YoungOne(n: nat, s: State, j: nat, k: nat) returns (s': State)
    requires Reached(n, s, []) && Mid(s.pool, n, j, k) && j < k
    ensures Reached(n, s', []) && Mid(s'.pool, n, j + 1, k)
  {
    var q := PopFirst(n, s, 1, j + 1, k + 1, []);
    var r := RetireOne(n, s.(pool := q), 1, 3, j + 1, []);
    s' := s.(pool := r);
    StillRetired(q, r, j + 1, j + 2, k + 1);
    assert Queue(j + 1) == Queue(j) + [D.Entry(j + 1, T.WINDOW + 1, false, false)];
  }

  lemma {:induction false} AllYoung(n: nat, j: nat, k: nat) returns (s: State)
    requires 2 <= n <= 64 && k >= 2 && j <= k
    ensures Reached(n, s, []) && Mid(s.pool, n, j, k)
  {
    if j == 0 {
      s := Snapshot(n, k);
    } else {
      s := AllYoung(n, j - 1, k);
      s := YoungOne(n, s, j - 1, k);
    }
  }

  /** Thread 1 walks its queue, which has ids j..k left, with its tick already widened (or
      about to be, at the head); thread 0 still holds its snapshot. */
  ghost predicate Walks(p: P.State, n: nat, j: nat, k: nat, tick: nat) {
    && n >= 2 && |p.thr| == n && |p.bufs| == 2 * n && j <= k && p.bufs[3] == Queue(k)[j..]
    && p.thr[0] == Within(T.WINDOW + 1, P.PopLink(1, 2))
    && p.thr[1] == P.Thread(P.Open(T.WINDOW + 1), P.Idle, P.Walking(3, tick))
    && 2 in p.place && p.place[2] == P.Parked(3, T.WINDOW + 1)
  }

  /** The walk frees id `j` although, past the head, it was retired just now. */
  lemma WalkOne(n: nat, s: State, j: nat, k: nat, tick: nat, base: seq<State>) returns (q: P.State)
    requires Reached(n, s, base) && Walks(s.pool, n, j, k, tick) && j < k && j < 2
    requires tick == if j == 0 then 1 else T.WINDOW + 1
    ensures Reached(n, s.(pool := q), base) && Walks(q, n, j + 1, k, T.WINDOW + 1)
    ensures q.head == j && q.list == [j] + s.pool.list
  {
    var buf := s.pool.bufs[3];
    assert buf[0] == Queue(k)[j] && buf[0].id == j && |buf| > 1 && !buf[|buf| - 2].pair;
    assert T.Masked(T.WINDOW - 1) == T.WINDOW - 1 && T.Masked(T.WINDOW + 1) == 1;
    assert D.WalkGoesOn(buf, tick) && D.Carried(buf, tick) == T.WINDOW + 1;
    PoolDo(n, s, P.WalkFree(1), base);
    var p1 := P.Apply(s.pool, P.WalkFree(1));
    assert p1.bufs[3] == Queue(k)[j + 1..];
    q := Push(n, s.(pool := p1), 1, [j], false, base);
  }

  /** Where the walk over the queue of k + 1 nodes begins. */
  lemma BeforeWalk(n: nat, k: nat) returns (s: State)
    requires 2 <= n <= 64 && k >= 2
    ensures Reached(n, s, []) && Mid(s.pool, n, k, k) && s.pool.list == []
  {
    s := AllYoung(n, k, k);
  }

  lemma WalkStarts(n: nat, s: State, k: nat) returns (base: seq<State>)
    requires Reached(n, s, []) && Mid(s.pool, n, k, k) && k >= 2
    ensures |base| >= 2 && base[|base| - 2] == s
    ensures var s' := s.(pool := P.SetWalk(s.pool, 1, P.Walking(3, 1)));
      base[|base| - 1] == s' && Reached(n, s', base) && Walks(s'.pool, n, 0, k, 1)
  {
    var w := P.WalkBegin(1, 3);
    assert T.Masked(T.WINDOW + 1) == 1;
    base := Leap(n, s, PoolStep(w));
    assert P.Apply(s.pool, w) == P.SetWalk(s.pool, 1, P.Walking(3, 1));
    assert Queue(k) == Queue(k)[0..];
  }

  /** Even with two threads, and however long the queue: one walk that slips frees ids the
      other thread's section saw on the stack, and its swap installs an id that is still
      queued.  The walk starts with step `i`; every other step of the run is calm. */
  lemma SlipBreaks(n: nat, k: nat) returns (run: seq<State>, i: nat)
    requires 2 <= n <= 64 && k >= 2
    ensures IsRun(n, run) && i + 1 < |run| && forall j: nat :: j != i ==> CalmAt(run, j)
    ensures var s, s' := run[i].pool, run[i + 1].pool;
      P.StartsWalk(s, s', 1) && s'.thr[1].walk.buf == 3 && |s.bufs| == 2 * n && s.bufs[3] == Queue(k)
    ensures var s := run[|run| - 1].pool;
      && !PopsTop(s, 0) && 2 in s.place && s.place[2].Parked?
      && P.Enabled(s, P.PopCas(0)) && P.Apply(s, P.PopCas(0)).head == 2
  {
    var s := BeforeWalk(n, k);
    var base := WalkStarts(n, s, k);
    var q0 := P.SetWalk(s.pool, 1, P.Walking(3, 1));
    var q1 := WalkOne(n, s.(pool := q0), 0, k, 1, base);
    var q2 := WalkOne(n, s.(pool := q1), 1, k, T.WINDOW + 1, base);
    assert q2.list == [1, 0];
    run :| RunTo(n, run, s.(pool := q2), base);
    i := |base| - 2;
    assert run[i] == base[i] && run[i + 1] == base[i + 1];
    forall j: nat | j != i ensures CalmAt(run, j) { assert CalmBut(run, j, base); }
  }
}

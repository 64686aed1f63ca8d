/** What each call promises its caller, in terms of the lists and contents before it: which
    id is handed out and from where, what a status tells, where a retired id goes. */
module PoolPromises {
  import opened Options
  import opened Layout
  import opened PoolSpec
  import opened PoolLaws
  import opened PoolSteps
  import opened PoolRuns
  import opened PoolAges
  import opened PoolWaits
  import T = TickAge

  // ---------------------------------------------------------------- where an id comes from

  /** vec_alloc takes the top of its stack; if that is empty, the first vec of the top block;
      if there is no block either, the first vec of a page it adds.  It goes no further
      than it must. */
  lemma VecAllocCascade(p: Pool, env: Env)
    ensures p.vecs != [] ==> VecAlloc(p, env).1 == Some(p.vecs[0])
    ensures p.vecs != [] ==> VecAlloc(p, env).0 == p.(vecs := p.vecs[1..], liveVecs := p.liveVecs + {p.vecs[0]})
    ensures p.vecs == [] && p.blks != [] ==> var (q, r) := VecAlloc(p, env); var b := p.blks[0];
              && r == Some(4 * b) && q.vecs == [4 * b + 1, 4 * b + 2, 4 * b + 3]
              && q.blks == p.blks[1..] && q.vecBlks == p.vecBlks + {b} && q.dbBlks == p.dbBlks
              && q.dbs == p.dbs && q.pages == p.pages && q.cursor == p.cursor
    ensures p.vecs == [] && p.blks == [] && p.cursor < 16383 && env.grant(p.cursor) ==>
              var (q, r) := VecAlloc(p, env); var c := p.cursor;
              && r == Some(512 * c) && q.vecs == [512 * c + 1, 512 * c + 2, 512 * c + 3]
              && |q.blks| == 127 && (forall i :: 0 <= i < 127 ==> q.blks[i] == 128 * c + 1 + i)
              && q.pages == p.pages + {c} && q.cursor == c + 1 && q.dbs == p.dbs
  {
  }

  lemma DbAllocCascade(p: Pool, env: Env)
    ensures p.dbs != [] ==> DbAlloc(p, env).1 == Some(p.dbs[0])
    ensures p.dbs != [] ==> var d := p.dbs[0];
              DbAlloc(p, env).0 == p.(dbs := p.dbs[1..], liveDbs := p.liveDbs + {d}, dbBody := p.dbBody[d := DbBody(0, 0)])
    ensures p.dbs == [] && p.blks != [] ==> var (q, r) := DbAlloc(p, env); var b := p.blks[0];
              && r == Some(2 * b) && q.dbs == [2 * b + 1]
              && q.blks == p.blks[1..] && q.dbBlks == p.dbBlks + {b} && q.vecBlks == p.vecBlks
              && q.vecs == p.vecs && q.pages == p.pages && q.cursor == p.cursor
    ensures p.dbs == [] && p.blks == [] && p.cursor < 16383 && env.grant(p.cursor) ==>
              var (q, r) := DbAlloc(p, env); var c := p.cursor;
              && r == Some(256 * c) && q.dbs == [256 * c + 1]
              && |q.blks| == 127 && (forall i :: 0 <= i < 127 ==> q.blks[i] == 128 * c + 1 + i)
              && q.pages == p.pages + {c} && q.cursor == c + 1 && q.vecs == p.vecs
  {
  }

  /** What is carved goes on top of its stack, lowest number first. */
  lemma CarvedOnTop(p: Pool, b: nat)
    ensures CarveVecs(p, b).vecs == [4 * b, 4 * b + 1, 4 * b + 2, 4 * b + 3] + p.vecs
    ensures CarveDbs(p, b).dbs == [2 * b, 2 * b + 1] + p.dbs
    ensures var q := InstallPage(p, b); |q.blks| == 128 + |p.blks| && q.blks[128..] == p.blks
    ensures forall i :: 0 <= i < 128 ==> InstallPage(p, b).blks[i] == 128 * b + i
  {
  }

  /** The queue's head can be had: its own id if it is spent, else the id it parks once that
      is two ticks old as the clock tells. */
  predicate VecReady(p: Pool, t: nat)
    requires t < |p.threads|
  {
    var b := p.threads[t].vbuf;
    b != [] && (b[0].id == 0x7f_ffff || (p.tick - b[0].stamp) % 0x4_0000 >= 2)
  }

  predicate DbReady(p: Pool, t: nat)
    requires t < |p.threads|
  {
    var b := p.threads[t].dbuf;
    b != [] && (p.tick - b[0].stamp) % 0x4_0000 >= 2
  }

  /** The thread's own queue comes first and the stack second, and whichever serves leaves
      the other alone. */
  lemma VecQueueFirst(p: Pool, env: Env, t: nat)
    requires Good(p) && t < |p.threads|
    ensures var (q, r) := VecAllocCombo(p, env, t); var b := p.threads[t].vbuf;
      && (VecReady(p, t) ==>
            && r == Some(if b[0].id == 0x7f_ffff then b[0].carrier else b[0].id)
            && q.threads[t].vbuf == (if b[0].id == 0x7f_ffff then [] else [b[0].(id := 0x7f_ffff)]) + b[1..]
            && q.vecs == p.vecs && q.blks == p.blks && q.cursor == p.cursor)
      && (!VecReady(p, t) ==> (q, r) == VecAlloc(p, env) && q.threads == p.threads)
  {
    assert QueuesOk(p.tick, p.threads[t]);
    var b := p.threads[t].vbuf;
    if b != [] { T.ExpiredIsAge(p.tick, b[0].stamp); }
  }

  lemma DbQueueFirst(p: Pool, env: Env, t: nat)
    requires Good(p) && t < |p.threads|
    ensures var (q, r) := DataAllocCombo(p, env, t); var b := p.threads[t].dbuf;
      && (DbReady(p, t) ==>
            && r == Some(b[0].id) && q.threads[t].dbuf == b[1..]
            && q.dbs == p.dbs && q.vecs == [b[0].carrier] + p.vecs && q.blks == p.blks && q.cursor == p.cursor)
      && (!DbReady(p, t) ==> (q, r) == DbAlloc(p, env) && q.threads == p.threads)
  {
    assert QueuesOk(p.tick, p.threads[t]);
    var b := p.threads[t].dbuf;
    if b != [] { T.ExpiredIsAge(p.tick, b[0].stamp); }
  }

  // ---------------------------------------------------------------- what a client has after

  /** The contents of vecs and dbs the client had before are as they were. */
  ghost predicate ClientsKeep(p: Pool, q: Pool) {
    && (forall v: nat :: VecStill(p, q, v)) && (forall d: nat :: DbStill(p, q, d))
  }

  ghost predicate VecStill(p: Pool, q: Pool, v: nat) {
    v in p.liveVecs && v in p.body ==> v in q.body && q.body[v] == p.body[v]
  }

  ghost predicate DbStill(p: Pool, q: Pool, d: nat) {
    d in p.liveDbs ==> d in p.dbBody && d in q.dbBody && q.dbBody[d] == p.dbBody[d]
  }

  /** The id handed out was nobody's before and is the client's now, and nothing else is. */
  ghost predicate HandedOut(live: set<nat>, live': set<nat>, r: Option<nat>) {
    match r
    case None => live' == live
    case Some(x) => x !in live && live' == live + {x}
  }

  lemma VecAllocHandsOut(p: Pool, env: Env)
    requires Good(p)
    ensures var (q, r) := VecAlloc(p, env);
      HandedOut(p.liveVecs, q.liveVecs, r) && q.liveDbs == p.liveDbs && ClientsKeep(p, q) && q.freed == p.freed
  {
    var p1 := RefillVecs(p, env);
    RefillKeeps(p, env);
    if p1.vecs != [] { TakeVecKeeps(p1); }
  }

  lemma DbAllocHandsOut(p: Pool, env: Env)
    requires Good(p)
    ensures var (q, r) := DbAlloc(p, env);
      && HandedOut(p.liveDbs, q.liveDbs, r) && q.liveVecs == p.liveVecs && ClientsKeep(p, q) && q.freed == p.freed
      && (r.Some? ==> r.value in q.dbBody && q.dbBody[r.value] == DbBody(0, 0))
  {
    var p1 := RefillDbs(p, env);
    RefillKeeps(p, env);
    if p1.dbs != [] { TakeDbKeeps(p1); }
  }

  lemma VecFromBufHandsOut(p: Pool, t: nat)
    requires Good(p) && t < |p.threads|
    ensures var (q, r) := VecAllocFromBuf(p, t);
      && HandedOut(p.liveVecs, q.liveVecs, r) && q.liveDbs == p.liveDbs && ClientsKeep(p, q) && q.freed == p.freed
      && (r.None? ==> q == p)
  {
    HeadShares(p.threads[t]);
    var r := VecAllocFromBuf(p, t).1;
    if r.Some? { ShareExcludes(p, t, r.value); }
  }

  /** A db from the queue has its flag word cleared; its data word is as it was retired. */
  lemma DbFromBufHandsOut(p: Pool, t: nat)
    requires Good(p) && t < |p.threads|
    ensures var (q, r) := DbAllocFromBuf(p, t);
      && HandedOut(p.liveDbs, q.liveDbs, r) && q.liveVecs == p.liveVecs && ClientsKeep(p, q)
      && (r.None? ==> q == p)
      && (r.Some? ==> r.value in p.dbBody && r.value in q.dbBody && q.dbBody[r.value] == DbBody(0, p.dbBody[r.value].pdata))
  {
    HeadShares(p.threads[t]);
    if DbAllocFromBuf(p, t).1.Some? {
      var n := p.threads[t].dbuf[0];
      ShareExcludes(p, t, n.carrier);
      ShareExcludes(p, t, n.id);
      DbAllocFromBufSteps(p, t);
      assert Ids(p.threads[t].dbuf)[0] == n.id;
      forall v: nat ensures VecStill(p, DbAllocFromBuf(p, t).0, v) {}
    }
  }

  /** Both combos: what is handed out, and what stays. */
  lemma CombosHandOut(p: Pool, env: Env, t: nat)
    requires Good(p) && t < |p.threads|
    ensures var (q, r) := VecAllocCombo(p, env, t);
      HandedOut(p.liveVecs, q.liveVecs, r) && q.liveDbs == p.liveDbs && ClientsKeep(p, q) && q.freed == p.freed
    ensures var (q, r) := DataAllocCombo(p, env, t);
      && HandedOut(p.liveDbs, q.liveDbs, r) && q.liveVecs == p.liveVecs && ClientsKeep(p, q)
      && (r.Some? ==> r.value in q.dbBody && q.dbBody[r.value].rsv == 0)
  {
    VecFromBufHandsOut(p, t);
    VecAllocHandsOut(p, env);
    DbFromBufHandsOut(p, t);
    DbAllocHandsOut(p, env);
  }

  // ---------------------------------------------------------------- what a status tells

  /** A vec can be had for thread `t`: from its queue, the stack, a block or a page. */
  predicate VecInReach(p: Pool, env: Env, t: nat)
    requires t < |p.threads|
  {
    VecReady(p, t) || p.vecs != [] || p.blks != [] || !AllRefused(env, p.cursor, Requests(p, env))
  }

  lemma InReachExactly(p: Pool, env: Env, t: nat)
    requires Good(p) && t < |p.threads|
    ensures VecAllocCombo(p, env, t).1.Some? <==> VecInReach(p, env, t)
  {
    assert QueuesOk(p.tick, p.threads[t]);
    var b := p.threads[t].vbuf;
    if b != [] { T.ExpiredIsAge(p.tick, b[0].stamp); }
    CombosFailExactly(p, env, t);
  }

  lemma FillOneStatus(p: Pool, env: Env, t: nat)
    requires t < |p.threads|
    ensures Fill(p, env, t, 1).1 == if VecAllocCombo(p, env, t).1.Some? then Ok else NoMem
  {
    var (p1, v) := VecAllocCombo(p, env, t);
    if v.Some? { assert Fill(RsvPush(p1, t, v.value), env, t, 0).1 == Ok; }
  }

  lemma FillOne(p: Pool, env: Env, t: nat)
    requires Good(p) && t < |p.threads|
    ensures Fill(p, env, t, 1).1 == if VecInReach(p, env, t) then Ok else NoMem
  {
    InReachExactly(p, env, t);
    FillOneStatus(p, env, t);
  }

  /** How many of these nodes a walk frees that starts now. */
  function Walked(now: nat, nodes: seq<Node>): nat {
    T.Walk(now % 0x4_0000, T.MaskedAll(Stamps(nodes)))
  }

  lemma LiveIsNoNull(p: Pool, v: nat)
    requires Good(p) && v in p.liveVecs
    ensures v != 0x7f_ffff
  {
    SharesNonNegative(p.threads, v);
    IdsBelowNull(p, v);
  }

  /** A walk that frees anything leaves a vec on the stack. */
  lemma WalkYieldsVec(p: Pool, t: nat, k: nat)
    requires t < |p.threads| && k > 0
    ensures k <= |p.threads[t].vbuf| ==> ReleaseVecs(p, t, k).vecs != []
    ensures k <= |p.threads[t].dbuf| ==> ReleaseDbs(p, t, k).vecs != []
  {
    if k <= |p.threads[t].vbuf| {
      ReleasedVecs(p, t, k);
      var b := p.threads[t].vbuf[..k];
      assert Returned(b) != [];
    }
    if k <= |p.threads[t].dbuf| {
      ReleasedDbs(p, t, k);
      var b := p.threads[t].dbuf[..k];
      assert Backwards(Carriers(b)) != [];
    }
  }

  /** After retiring vec `id` and the walk that may follow. */
  lemma RetireVecTrims(p: Pool, t: nat, id: nat)
    requires Good(p) && t < |p.threads| && p.threads[t].rsv != [] && id in p.liveVecs
    ensures var b := p.threads[t].vbuf; var freed := if |b| >= 200 then Walked(p.tick, b) else 0;
      var q := TrimVecs(ParkVec(p, t, id), t);
      && Good(q) && freed <= |b| && |q.threads[t].vbuf| == |b| + 1 - freed
      && (freed > 0 ==> q.vecs != []) && (freed == 0 ==> q == ParkVec(p, t, id))
  {
    var b, p1 := p.threads[t].vbuf, ParkVec(p, t, id);
    var b1 := p1.threads[t].vbuf;
    ParkVecGood(p, t, id);
    TrimGood(p1, t);
    assert Front(b1) == b;
    FrontOrdered(p1.tick, b1);
    if |b| >= 200 {
      var k := T.Walk(T.Masked(p.tick), WalkStamps(b1));
      ReleaseVecsEffect(p1, t, k);
      if k > 0 { WalkYieldsVec(p1, t, k); }
    }
  }

  /** Just queued behind nothing, a vec is not in reach yet. */
  lemma ParkedReach(p: Pool, env: Env, t: nat, id: nat)
    requires Good(p) && t < |p.threads| && p.threads[t].rsv != [] && id in p.liveVecs
    ensures VecInReach(ParkVec(p, t, id), env, t) <==> VecInReach(p, env, t)
  {
    LiveIsNoNull(p, id);
    var b, b1 := p.threads[t].vbuf, ParkVec(p, t, id).threads[t].vbuf;
    if b == [] { assert b1[0].stamp == p.tick && b1[0].id == id; } else { assert b1[0] == b[0]; }
  }

  /** Exactly when vec_free_to_buf returns what. */
  lemma RetireVecStatus(p: Pool, env: Env, t: nat, id: nat)
    requires Good(p) && t < |p.threads| && p.threads[t].rsv != [] && id in p.liveVecs
    ensures var b := p.threads[t].vbuf; var freed := if |b| >= 200 then Walked(p.tick, b) else 0;
      var st := VecFreeToBuf(p, env, t, id).1;
      && (st == WaitAmt <==> |b| + 1 - freed > 200)
      && (st == Ok <==> |b| + 1 - freed <= 200 && (freed > 0 || VecInReach(p, env, t)))
      && (st == NoMem <==> |b| + 1 - freed <= 200 && freed == 0 && !VecInReach(p, env, t))
      && (|b| < 200 ==> st != WaitAmt)
  {
    var q := TrimVecs(ParkVec(p, t, id), t);
    RetireVecTrims(p, t, id);
    ParkedReach(p, env, t, id);
    FillOne(q, env, t);
  }

  lemma RetireDbTrims(p: Pool, t: nat, id: nat)
    requires Good(p) && t < |p.threads| && p.threads[t].rsv != [] && id in p.liveDbs
    ensures var b := p.threads[t].dbuf; var freed := if |b| >= 100 then Walked(p.tick, b) else 0;
      var q := TrimDbs(ParkDb(p, t, id), t);
      && Good(q) && freed <= |b| && |q.threads[t].dbuf| == |b| + 1 - freed
      && (freed > 0 ==> q.vecs != []) && (freed == 0 ==> q == ParkDb(p, t, id))
  {
    var b, p1 := p.threads[t].dbuf, ParkDb(p, t, id);
    var b1 := p1.threads[t].dbuf;
    ParkDbGood(p, t, id);
    TrimGood(p1, t);
    assert Front(b1) == b;
    FrontOrdered(p1.tick, b1);
    if |b| >= 100 {
      var k := T.Walk(T.Masked(p.tick), WalkStamps(b1));
      ReleaseDbsEffect(p1, t, k);
      if k > 0 { WalkYieldsVec(p1, t, k); }
    }
  }

  /** Retiring a db changes nothing of which vecs are in reach. */
  lemma ParkedDbReach(p: Pool, env: Env, t: nat, id: nat)
    requires t < |p.threads| && p.threads[t].rsv != []
    ensures VecInReach(ParkDb(p, t, id), env, t) <==> VecInReach(p, env, t)
  {
  }

  /** Exactly when db_free_to_buf returns what. */
  lemma RetireDbStatus(p: Pool, env: Env, t: nat, id: nat)
    requires Good(p) && t < |p.threads| && p.threads[t].rsv != [] && id in p.liveDbs
    ensures var b := p.threads[t].dbuf; var freed := if |b| >= 100 then Walked(p.tick, b) else 0;
      var st := DbFreeToBuf(p, env, t, id).1;
      && (st == WaitAmt <==> |b| + 1 - freed > 100)
      && (st == Ok <==> |b| + 1 - freed <= 100 && (freed > 0 || VecInReach(p, env, t)))
      && (st == NoMem <==> |b| + 1 - freed <= 100 && freed == 0 && !VecInReach(p, env, t))
      && (|b| < 100 ==> st != WaitAmt)
  {
    var q := TrimDbs(ParkDb(p, t, id), t);
    RetireDbTrims(p, t, id);
    ParkedDbReach(p, env, t, id);
    FillOne(q, env, t);
  }

  lemma FillTrims(p: Pool, t: nat)
    requires Good(p) && t < |p.threads|
    ensures var v, d := p.threads[t].vbuf, p.threads[t].dbuf;
      var freedV := if |v| > 200 then Walked(p.tick, Front(v)) else 0;
      var freedD := if |d| > 100 then Walked(p.tick, Front(d)) else 0;
      var q := TrimDbs(TrimVecs(p, t), t);
      && |q.threads[t].vbuf| == |v| - freedV && |q.threads[t].dbuf| == |d| - freedD && q.threads[t].rsv == p.threads[t].rsv
  {
    var v, d, p1 := p.threads[t].vbuf, p.threads[t].dbuf, TrimVecs(p, t);
    assert QueuesOk(p.tick, p.threads[t]);
    FrontOrdered(p.tick, v);
    FrontOrdered(p.tick, d);
    ReleaseVecsEffect(p, t, T.Walk(T.Masked(p.tick), WalkStamps(v)));
    TrimEffect(p, t);
    TrimTick(p, t);
    ReleaseDbsEffect(p1, t, T.Walk(T.Masked(p1.tick), WalkStamps(d)));
    TrimEffect(p1, t);
  }

  lemma {:induction false} ReleaseTick(p: Pool, t: nat, k: nat)
    requires t < |p.threads| && k <= |p.threads[t].vbuf|
    ensures ReleaseVecs(p, t, k).tick == p.tick
    decreases k
  {
    if k > 0 { ReleaseTick(ReleaseVec(p, t), t, k - 1); }
  }

  lemma TrimTick(p: Pool, t: nat)
    requires t < |p.threads|
    ensures TrimVecs(p, t).tick == p.tick
  {
    ReleaseTick(p, t, T.Walk(T.Masked(p.tick), WalkStamps(p.threads[t].vbuf)));
  }

  /** Exactly when fill_in_rsv_list returns what: a queue still above its watermark, or all
      the vecs asked for, or fewer. */
  lemma FillWatchedStatus(p: Pool, env: Env, t: nat, nr: int)
    requires Good(p) && t < |p.threads|
    ensures var v, d := p.threads[t].vbuf, p.threads[t].dbuf;
      var freedV := if |v| > 200 then Walked(p.tick, Front(v)) else 0;
      var freedD := if |d| > 100 then Walked(p.tick, Front(d)) else 0;
      var (q, st) := FillRsvList(p, env, t, nr);
      var all := |q.threads[t].rsv| == |p.threads[t].rsv| + if nr < 0 then 0 else nr;
      && (st == WaitAmt <==> |v| - freedV > 200 || |d| - freedD > 100)
      && (st == Ok <==> st != WaitAmt && all)
      && (st == NoMem <==> st != WaitAmt && !all)
  {
    FillTrims(p, t);
    FillEffect(TrimDbs(TrimVecs(p, t), t), env, t, nr);
  }

  // ---------------------------------------------------------------- the reserve is a stack

  ghost predicate OnTopOf(s: seq<nat>, below: seq<nat>) {
    |below| <= |s| && s[|s| - |below|..] == below
  }

  /** A fill puts vec after vec on top of the reserve. */
  lemma {:induction false} FillStacks(p: Pool, env: Env, t: nat, nr: int)
    requires t < |p.threads|
    ensures OnTopOf(Fill(p, env, t, nr).0.threads[t].rsv, p.threads[t].rsv)
    decreases if nr < 0 then 0 else nr
  {
    if nr > 0 {
      var (p1, v) := VecAllocCombo(p, env, t);
      FillStepEffect(p, env, t);
      if v.Some? {
        FillStacks(RsvPush(p1, t, v.value), env, t, nr - 1);
        assert RsvPush(p1, t, v.value).threads[t].rsv == [v.value] + p.threads[t].rsv;
      }
    }
  }

  lemma FillPutsOne(p: Pool, env: Env, t: nat)
    requires t < |p.threads|
    ensures var v, q := VecAllocCombo(p, env, t).1, Fill(p, env, t, 1).0;
      q.threads[t].rsv == (if v.Some? then [v.value] else []) + p.threads[t].rsv
  {
    var (p1, v) := VecAllocCombo(p, env, t);
    FillStepEffect(p, env, t);
    if v.Some? { assert Fill(RsvPush(p1, t, v.value), env, t, 0).0 == RsvPush(p1, t, v.value); }
  }

  /** Retiring takes the top of the reserve, and what is then filled in goes on the rest. */
  lemma RetireStacks(p: Pool, env: Env, t: nat, id: nat)
    requires t < |p.threads| && p.threads[t].rsv != []
    ensures OnTopOf(VecFreeToBuf(p, env, t, id).0.threads[t].rsv, p.threads[t].rsv[1..])
    ensures OnTopOf(DbFreeToBuf(p, env, t, id).0.threads[t].rsv, p.threads[t].rsv[1..])
  {
    TrimEffect(ParkVec(p, t, id), t);
    TrimEffect(ParkDb(p, t, id), t);
    FillStacks(TrimVecs(ParkVec(p, t, id), t), env, t, 1);
    FillStacks(TrimDbs(ParkDb(p, t, id), t), env, t, 1);
  }

  // ---------------------------------------------------------------- where a retired id goes

  /** The queue ends with this node. */
  ghost predicate EndsWith(buf: seq<Node>, n: Node) {
    buf != [] && buf[|buf| - 1] == n
  }

  /** A walk leaves the tail where it is and what its vec holds untouched. */
  lemma {:induction false} WalkKeepsTail(p: Pool, t: nat, k: nat, n: Node)
    requires Good(p) && t < |p.threads| && k < |p.threads[t].vbuf| && EndsWith(p.threads[t].vbuf, n) && Young(p.tick, n)
    ensures var q := ReleaseVecs(p, t, k);
      && q.tick == p.tick && EndsWith(q.threads[t].vbuf, n)
      && (n.id in p.body ==> n.id in q.body && q.body[n.id] == p.body[n.id])
    decreases k
  {
    if k > 0 {
      var p1 := ReleaseVec(p, t);
      TailVecKept(p, t, n);
      ReleaseVecGood(p, t);
      WalkKeepsTail(p1, t, k - 1, n);
    }
  }

  lemma TailVecKept(p: Pool, t: nat, n: Node)
    requires Good(p) && t < |p.threads| && |p.threads[t].vbuf| > 1 && EndsWith(p.threads[t].vbuf, n) && Young(p.tick, n)
    ensures var q := ReleaseVec(p, t);
      && q.tick == p.tick && q.threads[t].vbuf == p.threads[t].vbuf[1..]
      && (n.id in p.body ==> n.id in q.body && q.body[n.id] == p.body[n.id])
  {
    var b := p.threads[t].vbuf;
    var q := UnlinkVec(p, t);
    UnlinkVecGood(p, t);
    assert EndsWith(q.threads[t].vbuf, n);
    ParkedVecApart(q, t, n);
    assert b[0].carrier in q.liveVecs && (b[0].id != SPT_NULL ==> b[0].id in q.liveVecs);
  }

  /** No vec is taken from a young tail. */
  lemma ComboKeepsTail(p: Pool, env: Env, t: nat, n: Node)
    requires Good(p) && t < |p.threads|
    requires EndsWith(p.threads[t].vbuf, n) && Young(p.tick, n) && n.id != SPT_NULL
    ensures var p1 := VecAllocCombo(p, env, t).0; p1.tick == p.tick && EndsWith(p1.threads[t].vbuf, n)
  {
    assert QueuesOk(p.tick, p.threads[t]);
    T.ExpiredIsAge(p.tick, p.threads[t].vbuf[0].stamp);
  }

  lemma RsvPushKeepsTail(p: Pool, t: nat, v: nat, n: Node)
    requires t < |p.threads| && EndsWith(p.threads[t].vbuf, n)
    ensures var q := RsvPush(p, t, v); q.tick == p.tick && t < |q.threads| && EndsWith(q.threads[t].vbuf, n)
  {
  }

  /** A fill never reaches a young tail. */
  lemma FillTurnTail(p: Pool, env: Env, t: nat, nr: int, q: Pool, n: Node) returns (p2: Pool, more: bool)
    requires Good(p) && t < |p.threads| && FillEnds(p, env, t, nr, q)
    requires EndsWith(p.threads[t].vbuf, n) && Young(p.tick, n) && n.id != SPT_NULL
    ensures more ==> nr > 0 && Good(p2) && t < |p2.threads| && FillEnds(p2, env, t, nr - 1, q)
    ensures more ==> p2.tick == p.tick && EndsWith(p2.threads[t].vbuf, n)
    ensures !more ==> t < |q.threads| && EndsWith(q.threads[t].vbuf, n)
  {
    ComboKeepsTail(p, env, t, n);
    p2, more := FillTurnOne(p, env, t, nr, q);
    if more { RsvPushKeepsTail(VecAllocCombo(p, env, t).0, t, VecAllocCombo(p, env, t).1.value, n); }
  }

  /** The first turn of a fill that ends in `q`. */
  lemma FillTurnOne(p: Pool, env: Env, t: nat, nr: int, q: Pool) returns (p2: Pool, more: bool)
    requires Good(p) && t < |p.threads| && FillEnds(p, env, t, nr, q)
    ensures var (p1, v) := VecAllocCombo(p, env, t);
      && (more ==> v.Some? && p2 == RsvPush(p1, t, v.value) && nr > 0 && Good(p2) && FillEnds(p2, env, t, nr - 1, q))
      && (!more ==> q == p || q == p1)
  {
    assert FillEndsIf(true, p, env, t, nr, q);
    p2, more := p, false;
    if nr > 0 {
      var r := VecAllocCombo(p, env, t);
      FillStepGood(p, env, t);
      more := r.1.Some?;
      if more { p2 := RsvPush(r.0, t, r.1.value); }
    }
  }

  lemma {:induction false} FillKeepsTail(p: Pool, env: Env, t: nat, nr: int, q: Pool, n: Node)
    requires Good(p) && t < |p.threads| && FillEnds(p, env, t, nr, q)
    requires EndsWith(p.threads[t].vbuf, n) && Young(p.tick, n) && n.id != SPT_NULL
    ensures t < |q.threads| && EndsWith(q.threads[t].vbuf, n)
    decreases if nr < 0 then 0 else nr
  {
    var p2, more := FillTurnTail(p, env, t, nr, q, n);
    if more { FillKeepsTail(p2, env, t, nr - 1, q, n); }
  }

  /** Parked and trimmed: marked, and at the tail of the queue. */
  lemma ParkedAtTail(p: Pool, t: nat, id: nat)
    requires Good(p) && t < |p.threads| && p.threads[t].rsv != [] && id in p.liveVecs
    ensures var q := TrimVecs(ParkVec(p, t, id), t); var n := Node(p.threads[t].rsv[0], p.tick, id);
      && Good(q) && q.tick == p.tick && t < |q.threads| && EndsWith(q.threads[t].vbuf, n) && n.id != SPT_NULL
      && (id in p.body ==> id in q.body && q.body[id] == Marked(p.body[id]))
  {
    var p1 := ParkVec(p, t, id);
    var b1 := p1.threads[t].vbuf;
    ParkVecGood(p, t, id);
    LiveIsNoNull(p, id);
    TrimGood(p1, t);
    WalkKeepsTail(p1, t, if |b1| > VEC_WATERMARK then T.Walk(T.Masked(p.tick), WalkStamps(b1)) else 0, b1[|b1| - 1]);
  }

  lemma FillKeepsParked(p: Pool, env: Env, t: nat, n: Node)
    requires Good(p) && t < |p.threads| && EndsWith(p.threads[t].vbuf, n) && Young(p.tick, n) && n.id != SPT_NULL
    ensures var q := Fill(p, env, t, 1).0;
      && n.id !in q.liveVecs && q.tick == p.tick && t < |q.threads| && EndsWith(q.threads[t].vbuf, n)
      && (n.id in p.body ==> n.id in q.body && q.body[n.id] == p.body[n.id])
  {
    var q := Fill(p, env, t, 1).0;
    assert FillEnds(p, env, t, 1, q);
    FillKeepsTail(p, env, t, 1, q, n);
    FillKept(p, env, t, 1, t, n);
    FillGood(p, env, t, 1);
    ParkedVecApart(q, t, n);
  }

  /** A retired vec is the client's no more: marked, it is parked at the tail of the queue on
      the first vec of the reserve, stamped with the present tick, whatever the call goes
      on to free and fill. */
  lemma RetireVecParks(p: Pool, env: Env, t: nat, id: nat)
    requires Good(p) && t < |p.threads| && p.threads[t].rsv != [] && id in p.liveVecs
    ensures var q := VecFreeToBuf(p, env, t, id).0; var n := Node(p.threads[t].rsv[0], p.tick, id);
      && id !in q.liveVecs && q.tick == p.tick && t < |q.threads| && EndsWith(q.threads[t].vbuf, n)
      && (id in p.body ==> id in q.body && q.body[id] == Marked(p.body[id]))
  {
    ParkedAtTail(p, t, id);
    FillKeepsParked(TrimVecs(ParkVec(p, t, id), t), env, t, Node(p.threads[t].rsv[0], p.tick, id));
  }

  lemma {:induction false} WalkKeepsDbTail(p: Pool, t: nat, k: nat, n: Node)
    requires Good(p) && t < |p.threads| && k < |p.threads[t].dbuf| && EndsWith(p.threads[t].dbuf, n)
    ensures var q := ReleaseDbs(p, t, k);
      && q.tick == p.tick && EndsWith(q.threads[t].dbuf, n)
      && (n.id in p.dbBody ==> n.id in q.dbBody && q.dbBody[n.id] == p.dbBody[n.id])
    decreases k
  {
    if k > 0 {
      TailDbKept(p, t, n);
      ReleaseDbGood(p, t);
      WalkKeepsDbTail(ReleaseDb(p, t), t, k - 1, n);
    }
  }

  lemma TailDbKept(p: Pool, t: nat, n: Node)
    requires Good(p) && t < |p.threads| && |p.threads[t].dbuf| > 1 && EndsWith(p.threads[t].dbuf, n)
    ensures var q := ReleaseDb(p, t);
      && q.tick == p.tick && q.threads[t].dbuf == p.threads[t].dbuf[1..]
      && (n.id in p.dbBody ==> n.id in q.dbBody && q.dbBody[n.id] == p.dbBody[n.id])
  {
    var b := p.threads[t].dbuf;
    var q := UnlinkDb(p, t);
    UnlinkDbGood(p, t);
    assert EndsWith(q.threads[t].dbuf, n);
    ParkedDbApart(q, t, n);
    assert b[0].id in q.liveDbs;
  }

  lemma ParkedDbAtTail(p: Pool, t: nat, id: nat)
    requires Good(p) && t < |p.threads| && p.threads[t].rsv != [] && id in p.liveDbs
    ensures var q := TrimDbs(ParkDb(p, t, id), t); var n := Node(p.threads[t].rsv[0], p.tick, id);
      && Good(q) && q.tick == p.tick && t < |q.threads| && EndsWith(q.threads[t].dbuf, n)
      && id in p.dbBody && id in q.dbBody && q.dbBody[id] == p.dbBody[id]
  {
    var p1 := ParkDb(p, t, id);
    var b1 := p1.threads[t].dbuf;
    ParkDbGood(p, t, id);
    TrimGood(p1, t);
    WalkKeepsDbTail(p1, t, if |b1| > DATA_WATERMARK then T.Walk(T.Masked(p.tick), WalkStamps(b1)) else 0, b1[|b1| - 1]);
  }

  /** The same for a db, whose header and data stay as the client left them. */
  lemma RetireDbParks(p: Pool, env: Env, t: nat, id: nat)
    requires Good(p) && t < |p.threads| && p.threads[t].rsv != [] && id in p.liveDbs
    ensures var q := DbFreeToBuf(p, env, t, id).0; var n := Node(p.threads[t].rsv[0], p.tick, id);
      && id !in q.liveDbs && q.tick == p.tick && t < |q.threads| && EndsWith(q.threads[t].dbuf, n)
      && id in p.dbBody && id in q.dbBody && q.dbBody[id] == p.dbBody[id]
  {
    var n := Node(p.threads[t].rsv[0], p.tick, id);
    var p2 := TrimDbs(ParkDb(p, t, id), t);
    ParkedDbAtTail(p, t, id);
    FillKept(p2, env, t, 1, t, n);
    FillEffect(p2, env, t, 1);
    DbFreeToBufGood(p, env, t, id);
    ParkedDbApart(DbFreeToBuf(p, env, t, id).0, t, n);
  }

  /** A retired id is nobody's until it has waited: over any run of calls by any threads in
      which no walk slips, while the clock is less than two ticks past the retirement, it is
      queued, and neither with a client nor free; a vec bears its mark, a db its contents. */
  lemma RetiredVecWaits(m: nat, env: Env, run: seq<Pool>, i: nat, j: nat, t: nat, id: nat)
    requires IsRun(m, env, run) && i < j < |run| && Legal(run[i], RetireVec(t, id)) && run[j].tick < run[i].tick + 2
    requires run[i + 1] == VecFreeToBuf(run[i], env, t, id).0
    requires var i' := i + 1; forall k: nat :: CalmWithin(env, run, i', j, k)
    ensures id !in run[j].liveVecs && id !in run[j].vecs
    ensures id in run[i].body ==> id in run[j].body && run[j].body[id] == Marked(run[i].body[id])
  {
    var n := Node(run[i].threads[t].rsv[0], run[i].tick, id);
    RunGood(m, env, run, i);
    RetireVecParks(run[i], env, t, id);
    WaitsUntilAged(m, env, run, i + 1, j, t, n);
  }

  lemma RetiredDbWaits(m: nat, env: Env, run: seq<Pool>, i: nat, j: nat, t: nat, id: nat)
    requires IsRun(m, env, run) && i < j < |run| && Legal(run[i], RetireDb(t, id)) && run[j].tick < run[i].tick + 2
    requires run[i + 1] == DbFreeToBuf(run[i], env, t, id).0
    requires var i' := i + 1; forall k: nat :: CalmWithin(env, run, i', j, k)
    ensures id !in run[j].liveDbs && id !in run[j].dbs
    ensures id in run[i].dbBody && id in run[j].dbBody && run[j].dbBody[id] == run[i].dbBody[id]
  {
    var n := Node(run[i].threads[t].rsv[0], run[i].tick, id);
    RunGood(m, env, run, i);
    RetireDbParks(run[i], env, t, id);
    WaitsUntilAged(m, env, run, i + 1, j, t, n);
  }
}

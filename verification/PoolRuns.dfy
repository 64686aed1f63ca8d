/** Whole runs of allocator calls, and what single calls promise. */
module PoolRuns {
  import opened Options
  import opened Layout
  import opened ThreadSums
  import opened PoolSpec
  import opened PoolLaws
  import opened PoolSteps
  import T = TickAge

  datatype Call =
    | AllocRoot
    | FillSimple(t: nat, nr: int)
    | FillWatched(t: nat, nr: int)
    | AllocVec(t: nat)
    | AllocDb(t: nat)
    | RetireVec(t: nat, id: nat)
    | RetireDb(t: nat, id: nat)
    | RetireVecSimple(t: nat, id: nat)
    | RetireDbSimple(t: nat, id: nat)
    | WriteVec(v: nat, bits: int)
    | WriteDb(d: nat, rsv: nat, pdata: nat)
    | PassTick

  /** A client retires and writes only ids it has, and keeps a vec in reserve to retire
      with. */
  predicate Legal(p: Pool, c: Call) {
    match c
    case AllocRoot => true
    case FillSimple(t, _) => t < |p.threads|
    case FillWatched(t, _) => t < |p.threads|
    case AllocVec(t) => t < |p.threads|
    case AllocDb(t) => t < |p.threads|
    case RetireVec(t, id) => t < |p.threads| && p.threads[t].rsv != [] && id in p.liveVecs
    case RetireDb(t, id) => t < |p.threads| && p.threads[t].rsv != [] && id in p.liveDbs
    case RetireVecSimple(t, id) => t < |p.threads| && p.threads[t].rsv != [] && id in p.liveVecs
    case RetireDbSimple(t, id) => t < |p.threads| && p.threads[t].rsv != [] && id in p.liveDbs
    case WriteVec(v, _) => v in p.liveVecs
    case WriteDb(d, _, _) => d in p.liveDbs
    case PassTick => true
  }

  function Perform(p: Pool, env: Env, c: Call): Pool
    requires Legal(p, c)
  {
    match c
    case AllocRoot => VecAlloc(p, env).0
    case FillSimple(t, nr) => Fill(p, env, t, nr).0
    case FillWatched(t, nr) => FillRsvList(p, env, t, nr).0
    case AllocVec(t) => VecAllocCombo(p, env, t).0
    case AllocDb(t) => DataAllocCombo(p, env, t).0
    case RetireVec(t, id) => VecFreeToBuf(p, env, t, id).0
    case RetireDb(t, id) => DbFreeToBuf(p, env, t, id).0
    case RetireVecSimple(t, id) => ParkVec(p, t, id)
    case RetireDbSimple(t, id) => ParkDb(p, t, id)
    case WriteVec(v, bits) => ClientWriteVec(p, v, bits)
    case WriteDb(d, rsv, pdata) => p.(dbBody := p.dbBody[d := DbBody(rsv, pdata)])
    case PassTick => p.(tick := p.tick + 1)
  }

  function ClientWriteVec(p: Pool, v: nat, bits: int): Pool {
    p.(body := p.body[v := Client(bits)])
  }

  /** The cluster before `cluster_init` fills its threads' reserves. */
  function Start(n: nat): Pool {
    Pool(0, 0, {}, [], {}, {}, {}, [], [], {}, {}, seq(n, _ => Thread([], [], [])), map[], map[], [])
  }

  ghost predicate IsRun(n: nat, env: Env, run: seq<Pool>) {
    run != [] && run[0] == Start(n) && forall i: nat :: NextAt(env, run, i)
  }

  ghost predicate NextAt(env: Env, run: seq<Pool>, i: nat) {
    i + 1 < |run| ==> exists c :: Legal(run[i], c) && run[i + 1] == Perform(run[i], env, c)
  }

  lemma StartGood(n: nat)
    ensures Good(Start(n))
  {
    var p := Start(n);
    forall x: nat ensures VecCount(p, x) == 0 && DbCount(p, x) == 0 {
      SumZero(VecShares(p.threads, x));
      SumZero(DbShares(p.threads, x));
    }
  }

  /** The books do not depend on contents or on the clock's value. */
  lemma BooksIgnoreContents(p: Pool, q: Pool)
    requires Partition(p) && q == p.(body := q.body, dbBody := q.dbBody, tick := q.tick)
    ensures Partition(q)
  {
    forall x: nat
      ensures VecCount(q, x) == VecCount(p, x)
      ensures DbCount(q, x) == DbCount(p, x)
      ensures BlkCount(q, x) == BlkCount(p, x)
    {
    }
  }

  lemma WriteDbGood(p: Pool, d: nat, b: DbBody)
    requires Good(p) && d in p.liveDbs
    ensures Good(p.(dbBody := p.dbBody[d := b]))
  {
    var q := p.(dbBody := p.dbBody[d := b]);
    BooksIgnoreContents(p, q);
    LiveDbUnlisted(p, d);
    assert DbBodiesOk(q.dbBody, p.dbBlks, p.dbs, p.liveDbs, p.threads);
  }

  lemma PassTickGood(p: Pool)
    requires Good(p)
    ensures Good(p.(tick := p.tick + 1))
  {
    BooksIgnoreContents(p, p.(tick := p.tick + 1));
  }

  lemma PerformGood(p: Pool, env: Env, c: Call)
    requires Good(p) && Legal(p, c)
    ensures Good(Perform(p, env, c))
  {
    match c
    case AllocRoot => VecAllocKeeps(p, env); VecAllocBodies(p, env);
    case FillSimple(t, nr) => FillGood(p, env, t, nr);
    case FillWatched(t, nr) => FillRsvListGood(p, env, t, nr);
    case AllocVec(t) => VecAllocComboGood(p, env, t);
    case AllocDb(t) => DataAllocComboGood(p, env, t);
    case RetireVec(t, id) => VecFreeToBufGood(p, env, t, id);
    case RetireDb(t, id) => DbFreeToBufGood(p, env, t, id);
    case RetireVecSimple(t, id) => ParkVecGood(p, t, id);
    case RetireDbSimple(t, id) => ParkDbGood(p, t, id);
    case WriteVec(v, bits) => WriteVecGood(p, v, Client(bits));
    case WriteDb(d, rsv, pdata) => WriteDbGood(p, d, DbBody(rsv, pdata));
    case PassTick => PassTickGood(p);
  }

  /** After any calls by any threads, whatever the system grants: every carved vec is in
      exactly one place (free stack, client, one reserve, one carrier, one parked id),
      every carved db is free, with the client or queued once, every block is free or
      carved into one kind, and every queue is in order with at most its head spent. */
  lemma {:induction false} RunGood(n: nat, env: Env, run: seq<Pool>, k: nat)
    requires IsRun(n, env, run) && k < |run|
    ensures Good(run[k]) && Partition(run[k]) && run[k].outBlks == {}
  {
    PagesDense(n, env, run, k);
    if k == 0 {
      StartGood(n);
    } else {
      RunGood(n, env, run, k - 1);
      assert NextAt(env, run, k - 1);
      var c :| Legal(run[k - 1], c) && run[k] == Perform(run[k - 1], env, c);
      PerformGood(run[k - 1], env, c);
    }
  }

  // ---------------------------------------------------------------- reserves

  /** Filling adds vecs to the reserve one by one until `nr` are there or memory is out;
      it never lengthens the queues. */
  lemma {:induction false} FillEffect(p: Pool, env: Env, t: nat, nr: int)
    requires t < |p.threads|
    ensures var (q, st) := Fill(p, env, t, nr); var th, th' := p.threads[t], q.threads[t];
      && |th.rsv| <= |th'.rsv| <= |th.rsv| + (if nr < 0 then 0 else nr)
      && (st == Ok <==> |th'.rsv| == |th.rsv| + (if nr < 0 then 0 else nr)) && (st == Ok || st == NoMem)
      && |th'.vbuf| <= |th.vbuf| && th'.dbuf == th.dbuf
    decreases if nr < 0 then 0 else nr
  {
    if nr > 0 {
      var (p1, v) := VecAllocCombo(p, env, t);
      FillStepEffect(p, env, t);
      if v.Some? { FillEffect(RsvPush(p1, t, v.value), env, t, nr - 1); }
    }
  }

  lemma FillStepEffect(p: Pool, env: Env, t: nat)
    requires t < |p.threads|
    ensures var (p1, v) := VecAllocCombo(p, env, t); var th, th' := p.threads[t], p1.threads[t];
      th'.rsv == th.rsv && th'.dbuf == th.dbuf && |th'.vbuf| <= |th.vbuf|
  {
  }

  lemma {:induction false} ReleaseVecsEffect(p: Pool, t: nat, k: nat)
    requires t < |p.threads| && k <= |p.threads[t].vbuf|
    ensures ReleaseVecs(p, t, k).threads[t] == p.threads[t].(vbuf := p.threads[t].vbuf[k..])
    decreases k
  {
    if k > 0 { ReleaseVecsEffect(ReleaseVec(p, t), t, k - 1); }
  }

  lemma {:induction false} ReleaseDbsEffect(p: Pool, t: nat, k: nat)
    requires t < |p.threads| && k <= |p.threads[t].dbuf|
    ensures ReleaseDbs(p, t, k).threads[t] == p.threads[t].(dbuf := p.threads[t].dbuf[k..])
    decreases k
  {
    if k > 0 { ReleaseDbsEffect(ReleaseDb(p, t), t, k - 1); }
  }

  lemma TrimEffect(p: Pool, t: nat)
    requires t < |p.threads|
    ensures var th, th' := p.threads[t], TrimVecs(p, t).threads[t];
      th'.rsv == th.rsv && th'.dbuf == th.dbuf && |th'.vbuf| <= |th.vbuf|
    ensures var th, th' := p.threads[t], TrimDbs(p, t).threads[t];
      th'.rsv == th.rsv && th'.vbuf == th.vbuf && |th'.dbuf| <= |th.dbuf|
  {
    ReleaseVecsEffect(p, t, T.Walk(T.Masked(p.tick), WalkStamps(p.threads[t].vbuf)));
    ReleaseDbsEffect(p, t, T.Walk(T.Masked(p.tick), WalkStamps(p.threads[t].dbuf)));
  }

  /** Retiring with a vec in reserve: when the call reports success the reserve is as it
      was and the queue is at or below its watermark; when it reports WaitAmt the queue
      is above it even after freeing. */
  lemma RetireVecKeepsReserve(p: Pool, env: Env, t: nat, id: nat)
    requires t < |p.threads| && p.threads[t].rsv != []
    ensures var (q, st) := VecFreeToBuf(p, env, t, id); var th, th' := p.threads[t], q.threads[t];
      && (st == Ok ==> |th'.rsv| == |th.rsv| && |th'.vbuf| <= 200)
      && (st == NoMem ==> |th'.rsv| == |th.rsv| - 1)
      && |th'.vbuf| <= |th.vbuf| + 1
  {
    TrimEffect(ParkVec(p, t, id), t);
    FillEffect(TrimVecs(ParkVec(p, t, id), t), env, t, 1);
  }

  lemma RetireDbKeepsReserve(p: Pool, env: Env, t: nat, id: nat)
    requires t < |p.threads| && p.threads[t].rsv != []
    ensures var (q, st) := DbFreeToBuf(p, env, t, id); var th, th' := p.threads[t], q.threads[t];
      && (st == Ok ==> |th'.rsv| == |th.rsv| && |th'.dbuf| <= 100)
      && (st == NoMem ==> |th'.rsv| == |th.rsv| - 1)
      && |th'.dbuf| <= |th.dbuf| + 1
  {
    TrimEffect(ParkDb(p, t, id), t);
    FillEffect(TrimDbs(ParkDb(p, t, id), t), env, t, 1);
  }

  /** Filling by `rsv_list_fill_cnt` restores the full reserve whenever it succeeds. */
  lemma FillRestoresReserve(p: Pool, env: Env, t: nat)
    requires t < |p.threads| && |p.threads[t].rsv| <= 5
    ensures var (q, st) := FillRsvList(p, env, t, 5 - |p.threads[t].rsv|);
      && (st == Ok ==> |q.threads[t].rsv| == 5)
      && (st == Ok ==> |q.threads[t].vbuf| <= 200 && |q.threads[t].dbuf| <= 100)
      && |q.threads[t].rsv| <= 5
  {
    TrimEffect(p, t);
    TrimEffect(TrimVecs(p, t), t);
    FillEffect(TrimDbs(TrimVecs(p, t), t), env, t, 5 - |p.threads[t].rsv|);
  }

  // ---------------------------------------------------------------- failure

  /** A request at cursor `c` fails: no page id is left, or the system refuses. */
  predicate Refused(env: Env, c: nat) {
    PG_NUM_MAX <= c + 1 || !env.grant(c)
  }

  /** The next `k` requests from cursor `c` on all fail. */
  predicate AllRefused(env: Env, c: nat, k: nat)
    decreases k
  {
    k == 0 || (Refused(env, c) && AllRefused(env, c + 1, k - 1))
  }

  /** Where `k` failing requests leave the cursor. */
  function After(c: nat, k: nat): nat
    decreases k
  {
    if k == 0 || PG_NUM_MAX <= c + 1 then c else After(c + 1, k - 1)
  }

  lemma {:induction false} RefusedPastEnd(env: Env, c: nat, d: nat, k: nat)
    requires PG_NUM_MAX <= c + 1 && c <= d
    ensures AllRefused(env, d, k)
    decreases k
  {
    if k > 0 { RefusedPastEnd(env, c, d + 1, k - 1); }
  }

  /** A refill of the block stack that fails made two requests, and only the cursor moved. */
  lemma RefillBlksFails(p: Pool, env: Env)
    requires p.blks == []
    ensures RefillBlks(p, env).blks == [] <==> AllRefused(env, p.cursor, 2)
    ensures RefillBlks(p, env).blks == [] ==> RefillBlks(p, env) == p.(cursor := After(p.cursor, 2))
  {
    var p1 := AddPage(p, env).0;
    assert AddPage(p, env).1 <==> !Refused(env, p.cursor);
    assert AddPage(p1, env).1 <==> !Refused(env, p1.cursor);
    if PG_NUM_MAX <= p.cursor + 1 { RefusedPastEnd(env, p.cursor, p.cursor, 2); }
    assert AllRefused(env, p.cursor + 1, 1) <==> Refused(env, p.cursor + 1);
    assert After(p.cursor + 1, 1) == if PG_NUM_MAX <= p.cursor + 2 then p.cursor + 1 else p.cursor + 2;
  }

  /** How many page requests a `vec_alloc` makes before it gives up: two, or four when the
      garbage in its retry counter happens to wrap to zero. */
  function Requests(p: Pool, env: Env): nat {
    if env.junk(p.cursor) + 1 != 0 then 2 else 4
  }

  lemma {:induction false} RefusedSplit(env: Env, c: nat, j: nat, k: nat)
    ensures AllRefused(env, c, j + k) <==> AllRefused(env, c, j) && AllRefused(env, After(c, j), k)
    decreases j
  {
    if j > 0 {
      if PG_NUM_MAX <= c + 1 {
        RefusedPastEnd(env, c, c, j + k);
        RefusedPastEnd(env, c, c, j);
        RefusedPastEnd(env, c, c, k);
      } else {
        RefusedSplit(env, c + 1, j - 1, k);
      }
    }
  }

  /** `vec_alloc` fails exactly when no vec and no block is free and every page request it
      is due is refused; then no free list has changed, only page slots are used up. */
  lemma VecAllocFailsExactly(p: Pool, env: Env)
    ensures VecAlloc(p, env).1.None? <==>
              p.vecs == [] && p.blks == [] && AllRefused(env, p.cursor, Requests(p, env))
    ensures VecAlloc(p, env).1.None? ==>
              VecAlloc(p, env).0 == p.(cursor := VecAlloc(p, env).0.cursor)
  {
    if p.vecs == [] {
      if p.blks == [] { RefillBlksFails(p, env); }
      if !VecAddBlk(p, env).1 {
        var p1 := VecAddBlk(p, env).0;
        assert p1 == p.(cursor := After(p.cursor, 2));
        RefillBlksFails(p1, env);
        RefusedSplit(env, p.cursor, 2, 2);
      } else if p.blks == [] && env.junk(p.cursor) + 1 == 0 {
        RefusedSplit(env, p.cursor, 2, 2);
      }
    }
  }

  ghost predicate NeverRefuses(env: Env) {
    forall c: nat :: env.grant(c)
  }

  lemma {:induction false} RefusedOnlyAtEnd(env: Env, c: nat, k: nat)
    requires NeverRefuses(env) && k > 0
    ensures AllRefused(env, c, k) <==> PG_NUM_MAX <= c + 1
  {
    if PG_NUM_MAX <= c + 1 { RefusedPastEnd(env, c, c, k); }
  }

  /** The same for dbs; the retry counter there starts at zero, so four requests are due. */
  lemma DbAllocFailsExactly(p: Pool, env: Env)
    ensures DbAlloc(p, env).1.None? <==> p.dbs == [] && p.blks == [] && AllRefused(env, p.cursor, 4)
    ensures DbAlloc(p, env).1.None? ==> DbAlloc(p, env).0 == p.(cursor := DbAlloc(p, env).0.cursor)
  {
    if p.dbs == [] {
      if p.blks == [] { RefillBlksFails(p, env); }
      if !DbAddBlk(p, env).1 {
        var p1 := DbAddBlk(p, env).0;
        assert p1 == p.(cursor := After(p.cursor, 2));
        RefillBlksFails(p1, env);
      }
      if p.blks == [] { RefusedSplit(env, p.cursor, 2, 2); }
    }
  }

  /** A call that looks in its thread's queue first fails exactly when the head there has
      not expired, nothing is free, and every page request is refused. */
  lemma CombosFailExactly(p: Pool, env: Env, t: nat)
    requires t < |p.threads|
    ensures var b := p.threads[t].vbuf;
      VecAllocCombo(p, env, t).1.None? <==>
        && (b == [] || (b[0].id != SPT_NULL && !NodeExpired(p, b[0])))
        && p.vecs == [] && p.blks == [] && AllRefused(env, p.cursor, Requests(p, env))
    ensures var b := p.threads[t].dbuf;
      DataAllocCombo(p, env, t).1.None? <==>
        && (b == [] || !NodeExpired(p, b[0]))
        && p.dbs == [] && p.blks == [] && AllRefused(env, p.cursor, 4)
  {
    VecAllocFailsExactly(p, env);
    DbAllocFailsExactly(p, env);
  }

  /** Every block of every page is carved, into vecs or into dbs. */
  ghost predicate AllCarved(p: Pool) {
    forall b: nat :: b < (PG_NUM_MAX - 1) * BLK_PER_PG ==> CarvedBlk(p, b)
  }

  ghost predicate CarvedBlk(p: Pool, b: nat) {
    b in p.vecBlks || b in p.dbBlks
  }

  lemma NoBlockLeft(n: nat, env: Env, run: seq<Pool>, k: nat)
    requires IsRun(n, env, run) && k < |run| && NeverRefuses(env)
    requires run[k].blks == [] && run[k].cursor == PG_NUM_MAX - 1
    ensures AllCarved(run[k])
  {
    var p := run[k];
    RunGood(n, env, run, k);
    PagesDense(n, env, run, k);
    forall b: nat | b < (PG_NUM_MAX - 1) * BLK_PER_PG ensures CarvedBlk(p, b) {
      assert BlkCount(p, b) == One(b / BLK_PER_PG in p.pages);
    }
  }

  /** When the system never refuses a page, `vec_alloc` and `db_alloc` fail only once their
      stack and the blocks are gone and all (pg_num_max - 1) * blk_per_pg blocks are carved. */
  lemma FailsOnlyWhenFull(n: nat, env: Env, run: seq<Pool>, k: nat)
    requires IsRun(n, env, run) && k < |run| && NeverRefuses(env)
    ensures VecAlloc(run[k], env).1.None? <==>
              run[k].vecs == [] && run[k].blks == [] && run[k].cursor == PG_NUM_MAX - 1
    ensures DbAlloc(run[k], env).1.None? <==>
              run[k].dbs == [] && run[k].blks == [] && run[k].cursor == PG_NUM_MAX - 1
    ensures VecAlloc(run[k], env).1.None? || DbAlloc(run[k], env).1.None? ==> AllCarved(run[k])
  {
    var p := run[k];
    RunGood(n, env, run, k);
    VecAllocFailsExactly(p, env);
    DbAllocFailsExactly(p, env);
    RefusedOnlyAtEnd(env, p.cursor, Requests(p, env));
    RefusedOnlyAtEnd(env, p.cursor, 4);
    if p.blks == [] && p.cursor == PG_NUM_MAX - 1 { NoBlockLeft(n, env, run, k); }
  }

  /** The pages installed are those of the slots used up and granted. */
  ghost predicate GrantedPages(p: Pool, env: Env) {
    forall pg: nat :: pg in p.pages <==> pg < p.cursor && env.grant(pg)
  }

  /** And between calls no block is on its way from one stack to another. */
  ghost predicate PagesAre(p: Pool, env: Env) {
    GrantedPages(p, env) && p.outBlks == {}
  }

  lemma BlkAllocPages(p: Pool, env: Env)
    requires GrantedPages(p, env)
    ensures GrantedPages(BlkAlloc(p, env).0, env)
  {
    assert GrantedPages(AddPage(p, env).0, env);
    assert GrantedPages(AddPage(AddPage(p, env).0, env).0, env);
  }

  lemma AddBlkPages(p: Pool, env: Env)
    requires PagesAre(p, env)
    ensures PagesAre(VecAddBlk(p, env).0, env) && PagesAre(DbAddBlk(p, env).0, env)
  {
    BlkAllocPages(p, env);
    var (p1, b) := BlkAlloc(p, env);
    assert b.None? ==> p1.outBlks == {};
    assert b.Some? ==> p1.outBlks - {b.value} == {};
  }

  lemma AllocPages(p: Pool, env: Env)
    requires PagesAre(p, env)
    ensures PagesAre(VecAlloc(p, env).0, env) && PagesAre(DbAlloc(p, env).0, env)
  {
    AddBlkPages(p, env);
    AddBlkPages(VecAddBlk(p, env).0, env);
    AddBlkPages(DbAddBlk(p, env).0, env);
    assert PagesAre(RefillVecs(p, env), env) && PagesAre(RefillDbs(p, env), env);
  }

  lemma ComboPages(p: Pool, env: Env, t: nat)
    requires PagesAre(p, env) && t < |p.threads|
    ensures PagesAre(VecAllocCombo(p, env, t).0, env)
  {
    AllocPages(VecAllocFromBuf(p, t).0, env);
  }

  lemma {:induction false} FillPages(p: Pool, env: Env, t: nat, nr: int)
    requires PagesAre(p, env) && t < |p.threads|
    ensures PagesAre(Fill(p, env, t, nr).0, env)
    decreases if nr < 0 then 0 else nr
  {
    if nr > 0 {
      ComboPages(p, env, t);
      var (p1, v) := VecAllocCombo(p, env, t);
      if v.Some? { FillPages(RsvPush(p1, t, v.value), env, t, nr - 1); }
    }
  }

  ghost predicate SamePages(p: Pool, q: Pool) {
    q.cursor == p.cursor && q.pages == p.pages && q.outBlks == p.outBlks
  }

  lemma {:induction false} ReleaseVecsPages(p: Pool, t: nat, k: nat)
    requires t < |p.threads| && k <= |p.threads[t].vbuf|
    ensures SamePages(p, ReleaseVecs(p, t, k))
    decreases k
  {
    if k > 0 { ReleaseVecsPages(ReleaseVec(p, t), t, k - 1); }
  }

  lemma {:induction false} ReleaseDbsPages(p: Pool, t: nat, k: nat)
    requires t < |p.threads| && k <= |p.threads[t].dbuf|
    ensures SamePages(p, ReleaseDbs(p, t, k))
    decreases k
  {
    if k > 0 { ReleaseDbsPages(ReleaseDb(p, t), t, k - 1); }
  }

  lemma BufFreePages(p: Pool, env: Env, t: nat)
    requires PagesAre(p, env) && t < |p.threads|
    ensures PagesAre(VecBufFree(p, t), env) && PagesAre(DbBufFree(p, t), env)
  {
    ReleaseVecsPages(p, t, T.Walk(T.Masked(p.tick), WalkStamps(p.threads[t].vbuf)));
    ReleaseDbsPages(p, t, T.Walk(T.Masked(p.tick), WalkStamps(p.threads[t].dbuf)));
  }

  lemma TrimPages(p: Pool, env: Env, t: nat)
    requires PagesAre(p, env) && t < |p.threads|
    ensures PagesAre(TrimVecs(p, t), env) && PagesAre(TrimDbs(p, t), env)
  {
    BufFreePages(p, env, t);
  }

  lemma FreeToBufPages(p: Pool, env: Env, t: nat, id: nat)
    requires PagesAre(p, env) && t < |p.threads| && p.threads[t].rsv != []
    ensures PagesAre(VecFreeToBuf(p, env, t, id).0, env) && PagesAre(DbFreeToBuf(p, env, t, id).0, env)
  {
    TrimPages(ParkVec(p, t, id), env, t);
    TrimPages(ParkDb(p, t, id), env, t);
    FillPages(TrimVecs(ParkVec(p, t, id), t), env, t, 1);
    FillPages(TrimDbs(ParkDb(p, t, id), t), env, t, 1);
  }

  lemma FillRsvListPages(p: Pool, env: Env, t: nat, nr: int)
    requires PagesAre(p, env) && t < |p.threads|
    ensures PagesAre(FillRsvList(p, env, t, nr).0, env)
  {
    TrimPages(p, env, t);
    TrimPages(TrimVecs(p, t), env, t);
    FillPages(TrimDbs(TrimVecs(p, t), t), env, t, nr);
  }

  lemma PagesAreKept(p: Pool, env: Env, c: Call)
    requires PagesAre(p, env) && Legal(p, c)
    ensures PagesAre(Perform(p, env, c), env)
  {
    match c
    case AllocRoot => AllocPages(p, env);
    case FillSimple(t, nr) => FillPages(p, env, t, nr);
    case FillWatched(t, nr) => FillRsvListPages(p, env, t, nr);
    case AllocVec(t) => ComboPages(p, env, t);
    case AllocDb(t) => AllocPages(DbAllocFromBuf(p, t).0, env);
    case RetireVec(t, id) => FreeToBufPages(p, env, t, id);
    case RetireDb(t, id) => FreeToBufPages(p, env, t, id);
    case _ =>
  }

  lemma {:induction false} PagesDense(n: nat, env: Env, run: seq<Pool>, k: nat)
    requires IsRun(n, env, run) && k < |run|
    ensures PagesAre(run[k], env)
  {
    if k > 0 {
      PagesDense(n, env, run, k - 1);
      assert NextAt(env, run, k - 1);
      var c :| Legal(run[k - 1], c) && run[k] == Perform(run[k - 1], env, c);
      PagesAreKept(run[k - 1], env, c);
    }
  }

  // ---------------------------------------------------------------- cluster_init

  /** `cluster_init` fills the reserves of the first `k` threads, in order; it looks at no
      outcome. */
  function FillFirst(p: Pool, env: Env, k: nat, nr: int): (q: Pool)
    requires k <= |p.threads|
    ensures |q.threads| == |p.threads|
  {
    if k == 0 then p else Fill(FillFirst(p, env, k - 1, nr), env, k - 1, nr).0
  }

  /** The root vec is taken and written last. */
  function WithRoot(p: Pool, env: Env, root: int): (r: (Pool, Option<nat>)) {
    var (q, v) := VecAlloc(p, env);
    (if v.None? then q else ClientWriteVec(q, v.value, root), v)
  }

  function Initial(env: Env, n: nat, root: int): (r: (Pool, Option<nat>)) {
    WithRoot(FillFirst(Start(n), env, n, RSV_CNT), env, root)
  }

  lemma {:induction false} FillFirstReached(n: nat, env: Env, k: nat, nr: int) returns (run: seq<Pool>)
    requires k <= n
    ensures IsRun(n, env, run) && run[|run| - 1] == FillFirst(Start(n), env, k, nr)
  {
    if k == 0 {
      run := [Start(n)];
    } else {
      run := FillFirstReached(n, env, k - 1, nr);
      run := ExtendRun(n, env, run, FillSimple(k - 1, nr));
    }
  }

  lemma ExtendRun(n: nat, env: Env, run: seq<Pool>, c: Call) returns (run': seq<Pool>)
    requires IsRun(n, env, run) && Legal(run[|run| - 1], c)
    ensures IsRun(n, env, run') && run'[|run'| - 1] == Perform(run[|run| - 1], env, c)
  {
    run' := run + [Perform(run[|run| - 1], env, c)];
    forall i: nat ensures NextAt(env, run', i) {
      assert NextAt(env, run, i);
      if i + 1 == |run| {
        assert Legal(run'[i], c) && run'[i + 1] == Perform(run'[i], env, c);
      } else if i + 1 < |run| {
        assert run'[i] == run[i] && run'[i + 1] == run[i + 1];
      }
    }
  }

  lemma RootReached(n: nat, env: Env, run: seq<Pool>, root: int) returns (run': seq<Pool>)
    requires IsRun(n, env, run)
    ensures IsRun(n, env, run') && run'[|run'| - 1] == WithRoot(run[|run| - 1], env, root).0
  {
    var v := VecAlloc(run[|run| - 1], env).1;
    run' := ExtendRun(n, env, run, AllocRoot);
    if v.Some? { run' := ExtendRun(n, env, run', WriteVec(v.value, root)); }
  }

  /** What `cluster_init` leaves is itself the state after a run of calls, so everything
      proved about runs holds of a cluster from the start. */
  lemma InitialReached(n: nat, env: Env, root: int) returns (run: seq<Pool>)
    ensures IsRun(n, env, run) && run[|run| - 1] == Initial(env, n, root).0
  {
    run := FillFirstReached(n, env, n, RSV_CNT);
    run := RootReached(n, env, run, root);
  }

  lemma {:induction false} FillOthers(p: Pool, env: Env, t: nat, nr: int)
    requires t < |p.threads|
    ensures var q := Fill(p, env, t, nr).0; forall u: nat :: u < |p.threads| && u != t ==> q.threads[u] == p.threads[u]
    decreases if nr < 0 then 0 else nr
  {
    if nr > 0 {
      var (p1, v) := VecAllocCombo(p, env, t);
      if v.Some? { FillOthers(RsvPush(p1, t, v.value), env, t, nr - 1); }
    }
  }

  /** A fill falls short only by exhausting the page ids. */
  lemma {:induction false} FillFallsShort(p: Pool, env: Env, t: nat, nr: int)
    requires t < |p.threads| && NeverRefuses(env)
    ensures Fill(p, env, t, nr).1 != Ok ==> Fill(p, env, t, nr).0.cursor + 1 >= PG_NUM_MAX
    decreases if nr < 0 then 0 else nr
  {
    if nr > 0 {
      var (p1, v) := VecAllocCombo(p, env, t);
      if v.Some? {
        FillFallsShort(RsvPush(p1, t, v.value), env, t, nr - 1);
      } else {
        VecAllocFailsExactly(VecAllocFromBuf(p, t).0, env);
        RefusedOnlyAtEnd(env, p.cursor, Requests(p, env));
        ComboCursor(p, env, t);
      }
    }
  }

  lemma ComboCursor(p: Pool, env: Env, t: nat)
    requires t < |p.threads|
    ensures p.cursor <= VecAllocCombo(p, env, t).0.cursor
  {
    VecAllocCursor(VecAllocFromBuf(p, t).0, env);
  }

  lemma {:induction false} FillCursor(p: Pool, env: Env, t: nat, nr: int)
    requires t < |p.threads|
    ensures p.cursor <= Fill(p, env, t, nr).0.cursor
    decreases if nr < 0 then 0 else nr
  {
    if nr > 0 {
      ComboCursor(p, env, t);
      var (p1, v) := VecAllocCombo(p, env, t);
      if v.Some? { FillCursor(RsvPush(p1, t, v.value), env, t, nr - 1); }
    }
  }

  /** The first `k` threads hold `nr` vecs in reserve, the others none. */
  ghost predicate ReservedTo(p: Pool, k: nat, nr: nat) {
    forall t: nat :: t < |p.threads| ==> |p.threads[t].rsv| == if t < k then nr else 0
  }

  lemma FillsUp(p: Pool, env: Env, t: nat, nr: nat)
    requires t < |p.threads| && NeverRefuses(env)
    ensures var q := Fill(p, env, t, nr).0;
      q.cursor + 1 < PG_NUM_MAX ==> p.cursor <= q.cursor && (ReservedTo(p, t, nr) ==> ReservedTo(q, t + 1, nr))
  {
    FillCursor(p, env, t, nr);
    FillEffect(p, env, t, nr);
    FillFallsShort(p, env, t, nr);
    FillOthers(p, env, t, nr);
  }

  /** `q` is where filling the first `k` threads leads.  This is a gate, one of several: it
      says no more than its body at `true`, but the body comes into a proof only where
      `...If(true, ...)` is asserted, so a proof that passes the fact on is not burdened
      with what it unfolds to. */
  ghost predicate FirstEnds(p: Pool, env: Env, k: nat, nr: nat, q: Pool) {
    forall on: bool :: FirstEndsIf(on, p, env, k, nr, q)
  }

  ghost predicate FirstEndsIf(on: bool, p: Pool, env: Env, k: nat, nr: nat, q: Pool) {
    on && k <= |p.threads| ==> q == FillFirst(p, env, k, nr)
  }

  /** One thread's fill as a function of where it starts and ends. */
  lemma FillsUpTo(p: Pool, env: Env, t: nat, nr: nat, q: Pool)
    requires t < |p.threads| && NeverRefuses(env) && q == Fill(p, env, t, nr).0 && q.cursor + 1 < PG_NUM_MAX
    ensures p.cursor <= q.cursor && (ReservedTo(p, t, nr) ==> ReservedTo(q, t + 1, nr))
  {
    FillsUp(p, env, t, nr);
  }

  lemma FirstBack(p: Pool, env: Env, k: nat, nr: nat, q: Pool) returns (q0: Pool)
    requires 0 < k <= |p.threads| && NeverRefuses(env) && FirstEnds(p, env, k, nr, q) && q.cursor + 1 < PG_NUM_MAX
    ensures FirstEnds(p, env, k - 1, nr, q0) && q0.cursor + 1 < PG_NUM_MAX
    ensures ReservedTo(q0, k - 1, nr) ==> ReservedTo(q, k, nr)
  {
    assert FirstEndsIf(true, p, env, k, nr, q);
    q0 := FillFirst(p, env, k - 1, nr);
    FillsUpTo(q0, env, k - 1, nr, q);
  }

  lemma {:induction false} ReservesFilled(p: Pool, env: Env, k: nat, nr: nat, q: Pool)
    requires k <= |p.threads| && NeverRefuses(env) && ReservedTo(p, 0, nr)
    requires FirstEnds(p, env, k, nr, q) && q.cursor + 1 < PG_NUM_MAX
    ensures ReservedTo(q, k, nr)
  {
    if k == 0 {
      assert FirstEndsIf(true, p, env, 0, nr, q);
    } else {
      var q0 := FirstBack(p, env, k, nr, q);
      ReservesFilled(p, env, k - 1, nr, q0);
    }
  }

  /** If the system refuses no page and ids are left over, every thread starts with its
      full reserve. */
  lemma InitialReserves(env: Env, n: nat, root: int)
    requires NeverRefuses(env) && Initial(env, n, root).0.cursor + 1 < PG_NUM_MAX
    ensures Initial(env, n, root).1.Some?
    ensures var q := Initial(env, n, root).0; forall t: nat :: t < |q.threads| ==> |q.threads[t].rsv| == 5
  {
    var p := FillFirst(Start(n), env, n, RSV_CNT);
    VecAllocFailsExactly(p, env);
    RefusedOnlyAtEnd(env, p.cursor, Requests(p, env));
    VecAllocCursor(p, env);
    ReservesFilled(Start(n), env, n, RSV_CNT, p);
  }

  lemma VecAllocCursor(p: Pool, env: Env)
    ensures p.cursor <= VecAlloc(p, env).0.cursor
  {
  }
}

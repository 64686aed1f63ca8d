/** What was retired less than two ticks ago waits: a call disturbs it exactly when it walks
    a queue past a wrap of the clock, as `TickAge.Slips` says. */
module PoolWaits {
  import opened Options
  import opened Layout
  import opened PoolSpec
  import opened PoolLaws
  import opened PoolSteps
  import opened PoolRuns
  import opened PoolAges
  import T = TickAge

  predicate Young(now: nat, n: Node) {
    now < n.stamp + 2
  }

  /** Node `n` of `u`'s vec queue is still queued, and what the client left in its vec is
      as it was. */
  ghost predicate VecStays(p: Pool, q: Pool, u: nat, n: Node) {
    && u < |q.threads| && n in q.threads[u].vbuf
    && (n.id in p.body ==> n.id in q.body && q.body[n.id] == p.body[n.id])
  }

  ghost predicate DbStays(p: Pool, q: Pool, u: nat, n: Node) {
    && u < |q.threads| && n in q.threads[u].dbuf
    && (n.id in p.dbBody ==> n.id in q.dbBody && q.dbBody[n.id] == p.dbBody[n.id])
  }

  ghost predicate VecKept(p: Pool, q: Pool, u: nat, n: Node) {
    u < |p.threads| && n in p.threads[u].vbuf && Young(p.tick, n) ==> VecStays(p, q, u, n)
  }

  ghost predicate DbKept(p: Pool, q: Pool, u: nat, n: Node) {
    u < |p.threads| && n in p.threads[u].dbuf && Young(p.tick, n) ==> DbStays(p, q, u, n)
  }

  /** A step within one tick that leaves young node `n` alone, wherever it is queued. */
  ghost predicate Kept(p: Pool, q: Pool, u: nat, n: Node) {
    q.tick == p.tick && |q.threads| == |p.threads| && VecKept(p, q, u, n) && DbKept(p, q, u, n)
  }

  lemma KeptBoth(p: Pool, q: Pool, r: Pool, u: nat, n: Node)
    requires Kept(p, q, u, n) && Kept(q, r, u, n)
    ensures Kept(p, r, u, n)
  {
  }

  // ---------------------------------------------------------------- what is parked

  /** A young node parks a vec that is on no other list and not with the client. */
  lemma ParkedVecApart(p: Pool, u: nat, n: Node)
    requires Good(p) && u < |p.threads| && n in p.threads[u].vbuf && Young(p.tick, n)
    ensures n.id != SPT_NULL && n.id !in p.liveVecs && n.id !in p.vecs
    ensures VecShare(p.threads[u], n.id) == 1 && multiset(Parked(p.threads[u].vbuf))[n.id] == 1
  {
    var b := p.threads[u].vbuf;
    var i :| 0 <= i < |b| && b[i] == n;
    assert QueuesOk(p.tick, p.threads[u]);
    if Spent(b) {
      assert Ids(b[1..])[i - 1] == n.id;
    } else {
      assert Ids(b)[i] == n.id;
    }
    assert n.id in Parked(b);
    ShareExcludes(p, u, n.id);
  }

  lemma ParkedDbApart(p: Pool, u: nat, n: Node)
    requires Good(p) && u < |p.threads| && n in p.threads[u].dbuf
    ensures n.id !in p.liveDbs && n.id !in p.dbs
  {
    var b := p.threads[u].dbuf;
    var i :| 0 <= i < |b| && b[i] == n;
    assert Ids(b)[i] == n.id;
    ShareExcludes(p, u, n.id);
  }

  // ---------------------------------------------------------------- single steps

  lemma TakeKept(p: Pool, u: nat, n: Node)
    requires Good(p)
    ensures p.vecs != [] ==> Kept(p, TakeVec(p), u, n)
    ensures p.dbs != [] ==> Kept(p, TakeDb(p), u, n)
  {
    if u < |p.threads| && n in p.threads[u].dbuf { ParkedDbApart(p, u, n); }
  }

  lemma VecAllocKept(p: Pool, env: Env, u: nat, n: Node)
    requires Good(p)
    ensures Kept(p, VecAlloc(p, env).0, u, n)
  {
    var p1 := RefillVecs(p, env);
    RefillKeeps(p, env);
    RefillBodies(p, env);
    assert Kept(p, p1, u, n);
    TakeKept(p1, u, n);
  }

  lemma DbAllocKept(p: Pool, env: Env, u: nat, n: Node)
    requires Good(p)
    ensures Kept(p, DbAlloc(p, env).0, u, n)
  {
    var p1 := RefillDbs(p, env);
    RefillKeeps(p, env);
    RefillBodies(p, env);
    assert Kept(p, p1, u, n);
    TakeKept(p1, u, n);
  }

  lemma VecFreeKept(p: Pool, v: nat, u: nat, n: Node)
    requires Good(p) && v in p.liveVecs
    ensures Kept(p, VecFree(p, v), u, n)
  {
    if u < |p.threads| && n in p.threads[u].vbuf && Young(p.tick, n) { ParkedVecApart(p, u, n); }
  }

  lemma DbFreeKept(p: Pool, d: nat, u: nat, n: Node)
    requires Good(p) && d in p.liveDbs
    ensures Kept(p, DbFree(p, d), u, n)
  {
    if u < |p.threads| && n in p.threads[u].dbuf { ParkedDbApart(p, u, n); }
  }

  lemma UnlinkVecKept(p: Pool, t: nat, u: nat, n: Node)
    requires t < |p.threads| && p.threads[t].vbuf != [] && !Young(p.tick, p.threads[t].vbuf[0])
    ensures Kept(p, UnlinkVec(p, t), u, n)
  {
    var b := p.threads[t].vbuf;
    assert b == [b[0]] + b[1..];
  }

  lemma UnlinkDbKept(p: Pool, t: nat, u: nat, n: Node)
    requires t < |p.threads| && p.threads[t].dbuf != [] && !Young(p.tick, p.threads[t].dbuf[0])
    ensures Kept(p, UnlinkDb(p, t), u, n)
  {
    var b := p.threads[t].dbuf;
    assert b == [b[0]] + b[1..];
  }

  lemma VecAllocFromBufKept(p: Pool, t: nat, u: nat, n: Node)
    requires Good(p) && t < |p.threads|
    ensures Kept(p, VecAllocFromBuf(p, t).0, u, n)
  {
    var b := p.threads[t].vbuf;
    if b != [] {
      assert b == [b[0]] + b[1..];
      assert QueuesOk(p.tick, p.threads[t]);
      T.ExpiredIsAge(p.tick, b[0].stamp);
    }
  }

  lemma DbAllocFromBufKept(p: Pool, t: nat, u: nat, n: Node)
    requires Good(p) && t < |p.threads|
    ensures Kept(p, DbAllocFromBuf(p, t).0, u, n)
  {
    if DbAllocFromBuf(p, t).1.Some? {
      var c, q := p.threads[t].dbuf[0], UnlinkDb(p, t);
      assert QueuesOk(p.tick, p.threads[t]);
      T.ExpiredIsAge(p.tick, c.stamp);
      UnlinkDbKept(p, t, u, n);
      UnlinkDbGood(p, t);
      DbAllocFromBufSteps(p, t);
      var q1 := q.(freed := p.freed + FreeData(p, c.id), dbBody := p.dbBody[c.id := p.dbBody[c.id].(rsv := 0)]);
      if u < |q.threads| && n in q.threads[u].dbuf { ParkedDbApart(q, u, n); }
      assert Kept(q, q1, u, n);
      GoodIgnoresData(q, q1);
      VecFreeKept(q1, c.carrier, u, n);
    }
  }

  lemma RsvPushKept(p: Pool, t: nat, v: nat, u: nat, n: Node)
    requires Good(p) && t < |p.threads| && v in p.liveVecs
    ensures Kept(p, RsvPush(p, t, v), u, n)
  {
    if u < |p.threads| && n in p.threads[u].vbuf && Young(p.tick, n) { ParkedVecApart(p, u, n); }
  }

  lemma MarkVecKept(p: Pool, id: nat, u: nat, n: Node)
    requires Good(p) && id in p.liveVecs
    ensures Kept(p, MarkVec(p, id), u, n)
  {
    if u < |p.threads| && n in p.threads[u].vbuf && Young(p.tick, n) { ParkedVecApart(p, u, n); }
  }

  lemma ParkVecKept(p: Pool, t: nat, id: nat, u: nat, n: Node)
    requires Good(p) && t < |p.threads| && p.threads[t].rsv != [] && id in p.liveVecs
    ensures Kept(p, ParkVec(p, t, id), u, n)
  {
    MarkVecKept(p, id, u, n);
  }

  lemma ParkDbKept(p: Pool, t: nat, id: nat, u: nat, n: Node)
    requires t < |p.threads| && p.threads[t].rsv != []
    ensures Kept(p, ParkDb(p, t, id), u, n)
  {
  }

  // ---------------------------------------------------------------- walks

  lemma ReleaseVecKept(p: Pool, t: nat, u: nat, n: Node)
    requires Good(p) && t < |p.threads| && p.threads[t].vbuf != [] && !Young(p.tick, p.threads[t].vbuf[0])
    ensures Kept(p, ReleaseVec(p, t), u, n)
  {
    var c, q := p.threads[t].vbuf[0], UnlinkVec(p, t);
    UnlinkVecKept(p, t, u, n);
    UnlinkVecGood(p, t);
    ReleaseVecSteps(p, t);
    if c.id != SPT_NULL {
      VecFreeKept(q, c.id, u, n);
      VecFreeGood(q, c.id);
      VecFreeKept(VecFree(q, c.id), c.carrier, u, n);
    } else {
      VecFreeKept(q, c.carrier, u, n);
    }
  }

  lemma ReleaseDbKept(p: Pool, t: nat, u: nat, n: Node)
    requires Good(p) && t < |p.threads| && p.threads[t].dbuf != [] && !Young(p.tick, p.threads[t].dbuf[0])
    ensures Kept(p, ReleaseDb(p, t), u, n)
  {
    var c, q := p.threads[t].dbuf[0], UnlinkDb(p, t);
    var q1 := q.(freed := p.freed + FreeData(p, c.id));
    UnlinkDbKept(p, t, u, n);
    UnlinkDbGood(p, t);
    GoodIgnoresData(q, q1);
    ReleaseDbSteps(p, t);
    assert Kept(q, q1, u, n);
    DbFreeKept(q1, c.id, u, n);
    DbFreeGood(q1, c.id);
    VecFreeKept(DbFree(q1, c.id), c.carrier, u, n);
  }

  lemma {:induction false} ReleaseVecsKept(p: Pool, t: nat, k: nat, u: nat, n: Node)
    requires Good(p) && t < |p.threads| && k <= |p.threads[t].vbuf|
    requires forall i :: 0 <= i < k ==> !Young(p.tick, p.threads[t].vbuf[i])
    ensures Kept(p, ReleaseVecs(p, t, k), u, n)
    decreases k
  {
    if k > 0 {
      ReleaseVecKept(p, t, u, n);
      ReleaseVecGood(p, t);
      ReleaseVecsKept(ReleaseVec(p, t), t, k - 1, u, n);
    }
  }

  lemma {:induction false} ReleaseDbsKept(p: Pool, t: nat, k: nat, u: nat, n: Node)
    requires Good(p) && t < |p.threads| && k <= |p.threads[t].dbuf|
    requires forall i :: 0 <= i < k ==> !Young(p.tick, p.threads[t].dbuf[i])
    ensures Kept(p, ReleaseDbs(p, t, k), u, n)
    decreases k
  {
    if k > 0 {
      ReleaseDbKept(p, t, u, n);
      ReleaseDbGood(p, t);
      ReleaseDbsKept(ReleaseDb(p, t), t, k - 1, u, n);
    }
  }

  /** A walk over these nodes frees aged nodes only, exactly when it does not slip. */
  lemma CalmWalk(now: nat, f: seq<Node>)
    requires Ordered(now, f)
    ensures !T.Slips(now, Stamps(f)) <==>
              forall i :: 0 <= i < T.Walk(T.Masked(now), T.MaskedAll(Stamps(f))) ==> !Young(now, f[i])
  {
    var s := Stamps(f);
    assert forall i :: 0 <= i < |f| ==> s[i] == f[i].stamp;
    T.SlipsExactly(now, s);
    var y, k := T.Aged(now, s), T.Walk(T.Masked(now), T.MaskedAll(s));
    if T.Slips(now, s) {
      assert Young(now, f[y]);
    } else {
      forall i | 0 <= i < k ensures !Young(now, f[i]) { assert i < y; }
    }
  }

  /** The vec queue is not long enough to be walked, or the walk does not slip. */
  ghost predicate VecTrimCalm(p: Pool, t: nat)
    requires t < |p.threads|
  {
    |p.threads[t].vbuf| > VEC_WATERMARK ==> !T.Slips(p.tick, Stamps(Front(p.threads[t].vbuf)))
  }

  ghost predicate DbTrimCalm(p: Pool, t: nat)
    requires t < |p.threads|
  {
    |p.threads[t].dbuf| > DATA_WATERMARK ==> !T.Slips(p.tick, Stamps(Front(p.threads[t].dbuf)))
  }

  lemma FrontOrdered(now: nat, buf: seq<Node>)
    requires Ordered(now, buf)
    ensures Ordered(now, Front(buf)) && WalkStamps(buf) == T.MaskedAll(Stamps(Front(buf)))
  {
  }

  lemma TrimVecsKept(p: Pool, t: nat, u: nat, n: Node)
    requires Good(p) && t < |p.threads| && VecTrimCalm(p, t)
    ensures Kept(p, TrimVecs(p, t), u, n)
  {
    var b := p.threads[t].vbuf;
    if |b| > VEC_WATERMARK {
      assert QueuesOk(p.tick, p.threads[t]);
      FrontOrdered(p.tick, b);
      CalmWalk(p.tick, Front(b));
      ReleaseVecsKept(p, t, T.Walk(T.Masked(p.tick), WalkStamps(b)), u, n);
    }
  }

  lemma TrimDbsKept(p: Pool, t: nat, u: nat, n: Node)
    requires Good(p) && t < |p.threads| && DbTrimCalm(p, t)
    ensures Kept(p, TrimDbs(p, t), u, n)
  {
    var b := p.threads[t].dbuf;
    if |b| > DATA_WATERMARK {
      assert QueuesOk(p.tick, p.threads[t]);
      FrontOrdered(p.tick, b);
      CalmWalk(p.tick, Front(b));
      ReleaseDbsKept(p, t, T.Walk(T.Masked(p.tick), WalkStamps(b)), u, n);
    }
  }

  // ---------------------------------------------------------------- calls

  lemma VecAllocComboKept(p: Pool, env: Env, t: nat, u: nat, n: Node)
    requires Good(p) && t < |p.threads|
    ensures Kept(p, VecAllocCombo(p, env, t).0, u, n)
  {
    VecAllocFromBufKept(p, t, u, n);
    VecAllocKept(p, env, u, n);
  }

  lemma DataAllocComboKept(p: Pool, env: Env, t: nat, u: nat, n: Node)
    requires Good(p) && t < |p.threads|
    ensures Kept(p, DataAllocCombo(p, env, t).0, u, n)
  {
    DbAllocFromBufKept(p, t, u, n);
    DbAllocKept(p, env, u, n);
  }

  lemma FillStepKept(p: Pool, env: Env, t: nat, u: nat, n: Node)
    requires Good(p) && t < |p.threads|
    ensures var (p1, v) := VecAllocCombo(p, env, t);
      && Kept(p, p1, u, n)
      && (v.Some? ==> Kept(p, RsvPush(p1, t, v.value), u, n) && Good(RsvPush(p1, t, v.value)))
  {
    var (p1, v) := VecAllocCombo(p, env, t);
    VecAllocComboKept(p, env, t, u, n);
    VecAllocComboGood(p, env, t);
    if v.Some? {
      RsvPushKept(p1, t, v.value, u, n);
      FillStepGood(p, env, t);
      KeptBoth(p, p1, RsvPush(p1, t, v.value), u, n);
    }
  }

  /** The fill ends in `q`; a gate (see `FirstEnds`). */
  ghost predicate FillEnds(p: Pool, env: Env, t: nat, nr: int, q: Pool) {
    forall on: bool :: FillEndsIf(on, p, env, t, nr, q)
  }

  ghost predicate FillEndsIf(on: bool, p: Pool, env: Env, t: nat, nr: int, q: Pool) {
    on && t < |p.threads| ==> q == Fill(p, env, t, nr).0
  }

  /** The first turn of a fill that ends in `q`: it ends there, or goes on from `p2`. */
  lemma FillTurn(p: Pool, env: Env, t: nat, nr: int, q: Pool, u: nat, n: Node) returns (p2: Pool, more: bool)
    requires Good(p) && t < |p.threads| && FillEnds(p, env, t, nr, q)
    ensures more ==> nr > 0 && Kept(p, p2, u, n) && Good(p2) && t < |p2.threads| && FillEnds(p2, env, t, nr - 1, q)
    ensures !more ==> Kept(p, q, u, n)
  {
    assert FillEndsIf(true, p, env, t, nr, q);
    p2, more := p, false;
    if nr > 0 {
      var r := VecAllocCombo(p, env, t);
      FillStepKept(p, env, t, u, n);
      more := r.1.Some?;
      if more { p2 := RsvPush(r.0, t, r.1.value); }
    }
  }

  lemma {:induction false} FillEndsKept(p: Pool, env: Env, t: nat, nr: int, q: Pool, u: nat, n: Node)
    requires Good(p) && t < |p.threads| && FillEnds(p, env, t, nr, q)
    ensures Kept(p, q, u, n)
    decreases if nr < 0 then 0 else nr
  {
    var p2, more := FillTurn(p, env, t, nr, q, u, n);
    if more {
      FillEndsKept(p2, env, t, nr - 1, q, u, n);
      KeptBoth(p, p2, q, u, n);
    }
  }

  lemma FillKept(p: Pool, env: Env, t: nat, nr: int, u: nat, n: Node)
    requires Good(p) && t < |p.threads|
    ensures Kept(p, Fill(p, env, t, nr).0, u, n)
  {
    FillEndsKept(p, env, t, nr, Fill(p, env, t, nr).0, u, n);
  }

  lemma VecFreeToBufKept(p: Pool, env: Env, t: nat, id: nat, u: nat, n: Node)
    requires Good(p) && t < |p.threads| && p.threads[t].rsv != [] && id in p.liveVecs
    requires VecTrimCalm(ParkVec(p, t, id), t)
    ensures Kept(p, VecFreeToBuf(p, env, t, id).0, u, n)
  {
    var p1 := ParkVec(p, t, id);
    ParkVecKept(p, t, id, u, n);
    ParkVecGood(p, t, id);
    TrimVecsKept(p1, t, u, n);
    TrimGood(p1, t);
    FillKept(TrimVecs(p1, t), env, t, 1, u, n);
  }

  lemma DbFreeToBufKept(p: Pool, env: Env, t: nat, id: nat, u: nat, n: Node)
    requires Good(p) && t < |p.threads| && p.threads[t].rsv != [] && id in p.liveDbs
    requires DbTrimCalm(ParkDb(p, t, id), t)
    ensures Kept(p, DbFreeToBuf(p, env, t, id).0, u, n)
  {
    var p1 := ParkDb(p, t, id);
    ParkDbKept(p, t, id, u, n);
    ParkDbGood(p, t, id);
    TrimDbsKept(p1, t, u, n);
    TrimGood(p1, t);
    FillKept(TrimDbs(p1, t), env, t, 1, u, n);
  }

  lemma FillRsvListKept(p: Pool, env: Env, t: nat, nr: int, u: nat, n: Node)
    requires Good(p) && t < |p.threads| && VecTrimCalm(p, t) && DbTrimCalm(p, t)
    ensures Kept(p, FillRsvList(p, env, t, nr).0, u, n)
  {
    var p1 := TrimVecs(p, t);
    TrimVecsKept(p, t, u, n);
    TrimGood(p, t);
    TrimEffect(p, t);
    TrimDbsKept(p1, t, u, n);
    TrimGood(p1, t);
    FillKept(TrimDbs(p1, t), env, t, nr, u, n);
  }

  /** No walk the call makes slips.  Most calls walk nothing; a retirement walks its own
      queue, and only above the watermark; the watched fill may walk both. */
  ghost predicate CalmFor(p: Pool, c: Call)
    requires Legal(p, c)
  {
    match c
    case RetireVec(t, id) => VecTrimCalm(ParkVec(p, t, id), t)
    case RetireDb(t, id) => DbTrimCalm(ParkDb(p, t, id), t)
    case FillWatched(t, _) => VecTrimCalm(p, t) && DbTrimCalm(p, t)
    case _ => true
  }

  /** In terms of the queue before the call: a retirement that finds the queue below its
      watermark is calm, and one that does not is calm if the queue as it stands is. */
  lemma CalmBefore(p: Pool, t: nat, id: nat)
    requires t < |p.threads| && p.threads[t].rsv != []
    ensures VecTrimCalm(ParkVec(p, t, id), t) <==>
              (|p.threads[t].vbuf| >= VEC_WATERMARK ==> !T.Slips(p.tick, Stamps(p.threads[t].vbuf)))
    ensures DbTrimCalm(ParkDb(p, t, id), t) <==>
              (|p.threads[t].dbuf| >= DATA_WATERMARK ==> !T.Slips(p.tick, Stamps(p.threads[t].dbuf)))
  {
    assert Front(ParkVec(p, t, id).threads[t].vbuf) == p.threads[t].vbuf;
    assert Front(ParkDb(p, t, id).threads[t].dbuf) == p.threads[t].dbuf;
  }

  /** Node `n` of either queue of `u` is queued still, its contents as they were. */
  ghost predicate Waits(p: Pool, q: Pool, u: nat, n: Node) {
    && u < |p.threads|
    && (n in p.threads[u].vbuf ==> VecStays(p, q, u, n))
    && (n in p.threads[u].dbuf ==> DbStays(p, q, u, n))
  }

  lemma CallKept(p: Pool, env: Env, c: Call, u: nat, n: Node)
    requires Good(p) && Legal(p, c) && CalmFor(p, c) && !c.PassTick?
    ensures Kept(p, Perform(p, env, c), u, n)
  {
    match c
    case AllocRoot => VecAllocKept(p, env, u, n);
    case FillSimple(t, nr) => FillKept(p, env, t, nr, u, n);
    case FillWatched(t, nr) => FillRsvListKept(p, env, t, nr, u, n);
    case AllocVec(t) => VecAllocComboKept(p, env, t, u, n);
    case AllocDb(t) => DataAllocComboKept(p, env, t, u, n);
    case RetireVec(t, id) => VecFreeToBufKept(p, env, t, id, u, n);
    case RetireDb(t, id) => DbFreeToBufKept(p, env, t, id, u, n);
    case RetireVecSimple(t, id) => ParkVecKept(p, t, id, u, n);
    case RetireDbSimple(t, id) => ParkDbKept(p, t, id, u, n);
    case WriteVec(v, bits) =>
      if u < |p.threads| && n in p.threads[u].vbuf && Young(p.tick, n) { ParkedVecApart(p, u, n); }
    case WriteDb(d, rsv, pdata) =>
      if u < |p.threads| && n in p.threads[u].dbuf { ParkedDbApart(p, u, n); }
  }

  /** Whatever call any thread makes, unless it walks a queue and slips, a node queued less
      than two ticks ago stays queued, and the contents of the vec or db it parks stay as
      its client left them. */
  lemma YoungWaits(p: Pool, env: Env, c: Call, u: nat, n: Node)
    requires Good(p) && Legal(p, c) && CalmFor(p, c) && u < |p.threads| && Young(p.tick, n)
    ensures Waits(p, Perform(p, env, c), u, n)
  {
    if !c.PassTick? { CallKept(p, env, c, u, n); }
  }

  // ---------------------------------------------------------------- and not otherwise

  /** Taking a vec takes a node off the front or spends it; it queues none. */
  lemma ComboQueue(p: Pool, env: Env, t: nat, n: Node)
    requires t < |p.threads| && n in VecAllocCombo(p, env, t).0.threads[t].vbuf && n.id != SPT_NULL
    ensures n in p.threads[t].vbuf
  {
    var b := p.threads[t].vbuf;
    if b != [] { assert b == [b[0]] + b[1..]; }
    assert n in VecAllocFromBuf(p, t).0.threads[t].vbuf;
  }

  lemma FillTurnQueue(p: Pool, env: Env, t: nat, nr: int, q: Pool, n: Node) returns (p2: Pool, more: bool)
    requires t < |p.threads| && FillEnds(p, env, t, nr, q) && n.id != SPT_NULL
    ensures more ==> nr > 0 && t < |p2.threads| && FillEnds(p2, env, t, nr - 1, q)
    ensures more && n in p2.threads[t].vbuf ==> n in p.threads[t].vbuf
    ensures !more && t < |q.threads| && n in q.threads[t].vbuf ==> n in p.threads[t].vbuf
  {
    assert FillEndsIf(true, p, env, t, nr, q);
    p2, more := p, false;
    if nr > 0 {
      var r := VecAllocCombo(p, env, t);
      if n in r.0.threads[t].vbuf { ComboQueue(p, env, t, n); }
      more := r.1.Some?;
      if more { p2 := RsvPush(r.0, t, r.1.value); }
    }
  }

  /** So does a whole fill. */
  lemma {:induction false} FillQueues(p: Pool, env: Env, t: nat, nr: int, q: Pool, n: Node)
    requires t < |p.threads| && FillEnds(p, env, t, nr, q) && t < |q.threads| && n in q.threads[t].vbuf && n.id != SPT_NULL
    ensures n in p.threads[t].vbuf
    decreases if nr < 0 then 0 else nr
  {
    var p2, more := FillTurnQueue(p, env, t, nr, q, n);
    if more { FillQueues(p2, env, t, nr - 1, q, n); }
  }

  /** Nodes of one queue with the same parked id are the same node. */
  lemma NodesDiffer(p: Pool, t: nat, i: nat, j: nat)
    requires Good(p) && t < |p.threads|
    ensures i < j < |p.threads[t].vbuf| ==> p.threads[t].vbuf[i] != p.threads[t].vbuf[j]
    ensures i < j < |p.threads[t].dbuf| ==> p.threads[t].dbuf[i] != p.threads[t].dbuf[j]
  {
    if i < j < |p.threads[t].vbuf| {
      TwiceIn(Carriers(p.threads[t].vbuf), i, j);
      ShareExcludes(p, t, p.threads[t].vbuf[i].carrier);
    }
    if i < j < |p.threads[t].dbuf| {
      TwiceIn(Carriers(p.threads[t].dbuf), i, j);
      ShareExcludes(p, t, p.threads[t].dbuf[i].carrier);
    }
  }

  /** A walk that slips takes a young node. */
  lemma SlippedNode(now: nat, buf: seq<Node>) returns (i: nat)
    requires Ordered(now, buf) && T.Slips(now, Stamps(Front(buf)))
    ensures i < T.Walk(T.Masked(now), WalkStamps(buf)) && i < |Front(buf)| && Young(now, buf[i])
  {
    FrontOrdered(now, buf);
    CalmWalk(now, Front(buf));
    i :| 0 <= i < T.Walk(T.Masked(now), T.MaskedAll(Stamps(Front(buf)))) && Young(now, Front(buf)[i]);
  }

  /** What has left the front of a queue is not further back. */
  lemma NotBehind(p: Pool, t: nat, i: nat, k: nat)
    requires Good(p) && t < |p.threads| && i < k
    ensures k <= |p.threads[t].vbuf| ==> p.threads[t].vbuf[i] !in p.threads[t].vbuf[k..]
    ensures k <= |p.threads[t].dbuf| ==> p.threads[t].dbuf[i] !in p.threads[t].dbuf[k..]
  {
    var v, d := p.threads[t].vbuf, p.threads[t].dbuf;
    if k <= |v| { forall j | 0 <= j < |v[k..]| ensures v[k..][j] != v[i] { NodesDiffer(p, t, i, k + j); } }
    if k <= |d| { forall j | 0 <= j < |d[k..]| ensures d[k..][j] != d[i] { NodesDiffer(p, t, i, k + j); } }
  }

  /** A walk that slips unlinks a young node of its queue. */
  lemma SlipUnlinksVec(p: Pool, t: nat) returns (n: Node)
    requires Good(p) && t < |p.threads| && !VecTrimCalm(p, t)
    ensures n in Front(p.threads[t].vbuf) && Young(p.tick, n) && n.id != SPT_NULL
    ensures n !in TrimVecs(p, t).threads[t].vbuf
  {
    var b := p.threads[t].vbuf;
    assert QueuesOk(p.tick, p.threads[t]);
    var i := SlippedNode(p.tick, b);
    n := b[i];
    assert Front(b)[i] == n;
    NotBehind(p, t, i, T.Walk(T.Masked(p.tick), WalkStamps(b)));
    ReleaseVecsEffect(p, t, T.Walk(T.Masked(p.tick), WalkStamps(b)));
  }

  lemma SlipUnlinksDb(p: Pool, t: nat) returns (n: Node)
    requires Good(p) && t < |p.threads| && !DbTrimCalm(p, t)
    ensures n in Front(p.threads[t].dbuf) && Young(p.tick, n)
    ensures n !in TrimDbs(p, t).threads[t].dbuf
  {
    var b := p.threads[t].dbuf;
    assert QueuesOk(p.tick, p.threads[t]);
    var i := SlippedNode(p.tick, b);
    n := b[i];
    assert Front(b)[i] == n;
    NotBehind(p, t, i, T.Walk(T.Masked(p.tick), WalkStamps(b)));
    ReleaseDbsEffect(p, t, T.Walk(T.Masked(p.tick), WalkStamps(b)));
  }

  lemma RetireVecMoves(p: Pool, env: Env, t: nat, id: nat) returns (n: Node)
    requires Good(p) && Legal(p, RetireVec(t, id)) && !CalmFor(p, RetireVec(t, id))
    ensures Young(p.tick, n) && !Waits(p, VecFreeToBuf(p, env, t, id).0, t, n)
  {
    var p1 := ParkVec(p, t, id);
    ParkVecGood(p, t, id);
    n := SlipUnlinksVec(p1, t);
    assert Front(p1.threads[t].vbuf) == p.threads[t].vbuf;
    var q := VecFreeToBuf(p, env, t, id).0;
    if n in q.threads[t].vbuf { FillQueues(TrimVecs(p1, t), env, t, 1, q, n); }
  }

  lemma RetireDbMoves(p: Pool, env: Env, t: nat, id: nat) returns (n: Node)
    requires Good(p) && Legal(p, RetireDb(t, id)) && !CalmFor(p, RetireDb(t, id))
    ensures Young(p.tick, n) && !Waits(p, DbFreeToBuf(p, env, t, id).0, t, n)
  {
    var p1 := ParkDb(p, t, id);
    ParkDbGood(p, t, id);
    n := SlipUnlinksDb(p1, t);
    assert Front(p1.threads[t].dbuf) == p.threads[t].dbuf;
    FillEffect(TrimDbs(p1, t), env, t, 1);
  }

  lemma FillMovesVec(p: Pool, env: Env, t: nat, nr: int) returns (n: Node)
    requires Good(p) && t < |p.threads| && !VecTrimCalm(p, t)
    ensures Young(p.tick, n) && !Waits(p, FillRsvList(p, env, t, nr).0, t, n)
  {
    var p2 := TrimDbs(TrimVecs(p, t), t);
    var q := FillRsvList(p, env, t, nr).0;
    TrimEffect(TrimVecs(p, t), t);
    n := SlipUnlinksVec(p, t);
    if n in q.threads[t].vbuf { FillQueues(p2, env, t, nr, q, n); }
  }

  lemma FillMovesDb(p: Pool, env: Env, t: nat, nr: int) returns (n: Node)
    requires Good(p) && t < |p.threads| && VecTrimCalm(p, t) && !DbTrimCalm(p, t)
    ensures Young(p.tick, n) && !Waits(p, FillRsvList(p, env, t, nr).0, t, n)
  {
    var p1 := TrimVecs(p, t);
    TrimEffect(p, t);
    TrimGood(p, t);
    TrimVecsKept(p, t, 0, Node(0, 0, 0));
    n := SlipUnlinksDb(p1, t);
    FillEffect(TrimDbs(p1, t), env, t, nr);
  }

  lemma CallMoves(p: Pool, env: Env, c: Call) returns (n: Node)
    requires Good(p) && Legal(p, c) && !CalmFor(p, c)
    ensures c.t < |p.threads| && Young(p.tick, n) && !Waits(p, Perform(p, env, c), c.t, n)
  {
    match c
    case RetireVec(t, id) => n := RetireVecMoves(p, env, t, id);
    case RetireDb(t, id) => n := RetireDbMoves(p, env, t, id);
    case FillWatched(t, nr) =>
      if VecTrimCalm(p, t) { n := FillMovesDb(p, env, t, nr); } else { n := FillMovesVec(p, env, t, nr); }
  }

  /** A call leaves every young node of every queue alone if and only if no walk it makes
      slips. */
  lemma CallKeepsExactly(p: Pool, env: Env, c: Call)
    requires Good(p) && Legal(p, c)
    ensures (forall u: nat, n :: u < |p.threads| && Young(p.tick, n) ==> Waits(p, Perform(p, env, c), u, n)) <==> CalmFor(p, c)
  {
    if CalmFor(p, c) {
      forall u: nat, n | u < |p.threads| && Young(p.tick, n) ensures Waits(p, Perform(p, env, c), u, n) {
        YoungWaits(p, env, c, u, n);
      }
    } else {
      var n := CallMoves(p, env, c);
    }
  }

  // ---------------------------------------------------------------- runs

  /** A step of a run whose call makes no walk that slips. */
  ghost predicate CalmNext(env: Env, p: Pool, q: Pool) {
    exists c :: Legal(p, c) && CalmFor(p, c) && q == Perform(p, env, c)
  }

  ghost predicate CalmWithin(env: Env, run: seq<Pool>, i: nat, j: nat, k: nat) {
    i <= k < j < |run| ==> CalmNext(env, run[k], run[k + 1])
  }

  lemma CalmStepKeeps(p: Pool, env: Env, q: Pool, u: nat, n: Node)
    requires Good(p) && CalmNext(env, p, q)
    ensures p.tick <= q.tick
    ensures u < |p.threads| && Young(p.tick, n) ==> Waits(p, q, u, n)
  {
    var c :| Legal(p, c) && CalmFor(p, c) && q == Perform(p, env, c);
    if !c.PassTick? { CallKept(p, env, c, u, n); }
    if u < |p.threads| && Young(p.tick, n) { YoungWaits(p, env, c, u, n); }
  }

  lemma WaitsOn(p: Pool, q: Pool, r: Pool, u: nat, n: Node)
    requires Waits(p, q, u, n) && (u < |q.threads| ==> Waits(q, r, u, n))
    ensures Waits(p, r, u, n)
  {
  }

  /** What waits is neither with a client nor free. */
  lemma WaitingApart(p: Pool, q: Pool, u: nat, n: Node)
    requires Good(q) && Waits(p, q, u, n) && Young(q.tick, n)
    ensures n in p.threads[u].vbuf ==> n.id !in q.liveVecs && n.id !in q.vecs
    ensures n in p.threads[u].dbuf ==> n.id !in q.liveDbs && n.id !in q.dbs
  {
    if n in p.threads[u].vbuf { ParkedVecApart(q, u, n); }
    if n in p.threads[u].dbuf { ParkedDbApart(q, u, n); }
  }

  /** Over any run of calls by any threads in which no walk slips: until the clock is two
      ticks past its stamp, a queued node stays queued, its contents are untouched, and its
      vec or db is neither with a client nor free. */
  lemma {:induction false} WaitsUntilAged(m: nat, env: Env, run: seq<Pool>, i: nat, j: nat, u: nat, n: Node)
    requires IsRun(m, env, run) && i <= j < |run| && u < |run[i].threads| && Young(run[j].tick, n)
    requires forall k: nat :: CalmWithin(env, run, i, j, k)
    ensures Waits(run[i], run[j], u, n)
    ensures n in run[i].threads[u].vbuf ==> n.id !in run[j].liveVecs && n.id !in run[j].vecs
    ensures n in run[i].threads[u].dbuf ==> n.id !in run[j].liveDbs && n.id !in run[j].dbs
    decreases j
  {
    if i < j {
      var p := run[j - 1];
      RunGood(m, env, run, j - 1);
      assert CalmWithin(env, run, i, j, j - 1);
      var j' := j - 1;
      forall k: nat ensures CalmWithin(env, run, i, j', k) { assert CalmWithin(env, run, i, j, k); }
      CalmStepKeeps(p, env, run[j], u, n);
      WaitsUntilAged(m, env, run, i, j - 1, u, n);
      WaitsOn(run[i], p, run[j], u, n);
    }
    RunGood(m, env, run, j);
    WaitingApart(run[i], run[j], u, n);
  }
}

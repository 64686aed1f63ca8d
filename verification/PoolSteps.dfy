/** The pool between the steps of one call: ids on their way from one list to another are
    in the caller's hands, so the books balance at every step. */
module PoolSteps {
  import opened Options
  import opened Layout
  import opened PoolSpec
  import opened PoolLaws
  import T = TickAge

  /** A vec off the reserved list, on its way into a queue. */
  function RsvPop(p: Pool, t: nat): Pool
    requires t < |p.threads| && p.threads[t].rsv != []
  {
    var th := p.threads[t];
    SetThread(p, t, th.(rsv := th.rsv[1..])).(liveVecs := p.liveVecs + {th.rsv[0]})
  }

  /** The head of the vec queue, unlinked: its carrier and its id are the caller's. */
  function UnlinkVec(p: Pool, t: nat): Pool
    requires t < |p.threads| && p.threads[t].vbuf != []
  {
    var th := p.threads[t];
    var n := th.vbuf[0];
    SetThread(p, t, th.(vbuf := th.vbuf[1..]))
      .(liveVecs := p.liveVecs + {n.carrier} + if n.id == SPT_NULL then {} else {n.id})
  }

  function UnlinkDb(p: Pool, t: nat): Pool
    requires t < |p.threads| && p.threads[t].dbuf != []
  {
    var th := p.threads[t];
    var n := th.dbuf[0];
    SetThread(p, t, th.(dbuf := th.dbuf[1..])).(liveVecs := p.liveVecs + {n.carrier}, liveDbs := p.liveDbs + {n.id})
  }

  lemma RsvShare(th: Thread, x: nat)
    requires th.rsv != []
    ensures VecShare(th.(rsv := th.rsv[1..]), x) == VecShare(th, x) - One(x == th.rsv[0])
  {
    assert th.rsv == [th.rsv[0]] + th.rsv[1..];
  }

  lemma RsvNotLive(p: Pool, t: nat)
    requires Inv(p) && t < |p.threads| && p.threads[t].rsv != []
    ensures p.threads[t].rsv[0] !in p.liveVecs
  {
    HeadShares(p.threads[t]);
    ShareExcludes(p, t, p.threads[t].rsv[0]);
  }

  lemma RsvPopLocal(p: Pool, t: nat, x: nat)
    requires t < |p.threads| && p.threads[t].rsv != [] && p.threads[t].rsv[0] !in p.liveVecs
    ensures VecLocal(RsvPop(p, t), t, x) == VecLocal(p, t, x)
    ensures DbLocal(RsvPop(p, t), t, x) == DbLocal(p, t, x)
  {
    RsvShare(p.threads[t], x);
  }

  lemma RsvPopKeeps(p: Pool, t: nat)
    requires Inv(p) && t < |p.threads| && p.threads[t].rsv != []
    ensures Inv(RsvPop(p, t)) && p.threads[t].rsv[0] !in p.liveVecs
  {
    var q := RsvPop(p, t);
    RsvNotLive(p, t);
    forall x: nat ensures VecLocal(q, t, x) == VecLocal(p, t, x) && DbLocal(q, t, x) == DbLocal(p, t, x) {
      RsvPopLocal(p, t, x);
    }
    Balanced(p, q, t);
  }

  lemma RsvPopGood(p: Pool, t: nat)
    requires Good(p) && t < |p.threads| && p.threads[t].rsv != []
    ensures Good(RsvPop(p, t)) && p.threads[t].rsv[0] !in p.body && p.threads[t].rsv[0] !in p.liveVecs
  {
    RsvPopKeeps(p, t);
    assert p.threads[t].rsv[0] in p.threads[t].rsv;
    FewerListed(p.body, p.vecBlks, p.vecs, p.threads, t, RsvPop(p, t).threads[t]);
  }

  /** Contents stay off the lists when a thread's lists only shrink. */
  lemma FewerListed(body: map<nat, Cell>, vecBlks: set<nat>, vecs: seq<nat>, ths: seq<Thread>, t: nat, th: Thread)
    requires VecBodiesOk(body, vecBlks, vecs, ths) && t < |ths|
    requires forall v :: Unlisted(ths[t], v) ==> Unlisted(th, v)
    ensures VecBodiesOk(body, vecBlks, vecs, ths[t := th])
  {
  }

  lemma UnlinkVecLocal(p: Pool, t: nat, x: nat)
    requires Inv(p) && t < |p.threads| && p.threads[t].vbuf != []
    ensures VecLocal(UnlinkVec(p, t), t, x) == VecLocal(p, t, x)
    ensures p.threads[t].vbuf[0].carrier != p.threads[t].vbuf[0].id
  {
    var th := p.threads[t];
    HeadShares(th);
    DropHead(th.vbuf);
    ShareExcludes(p, t, th.vbuf[0].carrier);
    ShareExcludes(p, t, th.vbuf[0].id);
    if Spent(th.vbuf) { NullNotCarrier(p, t); }
    DropVecHead(th, x);
  }

  lemma NullNotCarrier(p: Pool, t: nat)
    requires Inv(p) && t < |p.threads| && p.threads[t].vbuf != []
    ensures p.threads[t].vbuf[0].carrier < SPT_NULL
  {
    HeadShares(p.threads[t]);
    SharesBound(p.threads, t, p.threads[t].vbuf[0].carrier);
    IdsBelowNull(p, p.threads[t].vbuf[0].carrier);
  }

  lemma UnlinkVecKeeps(p: Pool, t: nat)
    requires Inv(p) && t < |p.threads| && p.threads[t].vbuf != []
    ensures Inv(UnlinkVec(p, t)) && p.threads[t].vbuf[0].carrier != p.threads[t].vbuf[0].id
  {
    var q := UnlinkVec(p, t);
    forall x: nat ensures VecLocal(q, t, x) == VecLocal(p, t, x) { UnlinkVecLocal(p, t, x); }
    UnlinkVecLocal(p, t, 0);
    assert forall x: nat :: DbLocal(q, t, x) == DbLocal(p, t, x);
    QueueTail(p.tick, p.threads[t]);
    Balanced(p, q, t);
  }

  lemma UnlinkVecGood(p: Pool, t: nat)
    requires Good(p) && t < |p.threads| && p.threads[t].vbuf != []
    ensures Good(UnlinkVec(p, t)) && p.threads[t].vbuf[0].carrier !in p.body
    ensures p.threads[t].vbuf[0].carrier != p.threads[t].vbuf[0].id
  {
    var th := p.threads[t];
    UnlinkVecKeeps(p, t);
    DropHead(th.vbuf);
    assert th.vbuf[0].carrier in Carriers(th.vbuf);
    FewerListed(p.body, p.vecBlks, p.vecs, p.threads, t, UnlinkVec(p, t).threads[t]);
  }

  lemma UnlinkDbLocal(p: Pool, t: nat, x: nat)
    requires Inv(p) && t < |p.threads| && p.threads[t].dbuf != []
    ensures VecLocal(UnlinkDb(p, t), t, x) == VecLocal(p, t, x)
    ensures DbLocal(UnlinkDb(p, t), t, x) == DbLocal(p, t, x)
    ensures p.threads[t].dbuf[0].carrier !in p.liveVecs && p.threads[t].dbuf[0].id !in p.liveDbs
  {
    var th := p.threads[t];
    HeadShares(th);
    ShareExcludes(p, t, th.dbuf[0].carrier);
    ShareExcludes(p, t, th.dbuf[0].id);
    DropDbHead(th, x);
  }

  lemma UnlinkDbKeeps(p: Pool, t: nat)
    requires Inv(p) && t < |p.threads| && p.threads[t].dbuf != []
    ensures Inv(UnlinkDb(p, t))
  {
    var q := UnlinkDb(p, t);
    forall x: nat ensures VecLocal(q, t, x) == VecLocal(p, t, x) && DbLocal(q, t, x) == DbLocal(p, t, x) {
      UnlinkDbLocal(p, t, x);
    }
    Balanced(p, q, t);
  }

  lemma UnlinkDbGood(p: Pool, t: nat)
    requires Good(p) && t < |p.threads| && p.threads[t].dbuf != []
    ensures Good(UnlinkDb(p, t)) && p.threads[t].dbuf[0].carrier !in p.body
    ensures p.threads[t].dbuf[0].id in p.dbBody
  {
    var th := p.threads[t];
    UnlinkDbKeeps(p, t);
    DropHead(th.dbuf);
    assert th.dbuf[0].carrier in Carriers(th.dbuf) && th.dbuf[0].id in Ids(th.dbuf);
    FewerListed(p.body, p.vecBlks, p.vecs, p.threads, t, UnlinkDb(p, t).threads[t]);
  }

  lemma FreeKeeps(p: Pool, v: nat, d: nat)
    requires Inv(p)
    ensures v in p.liveVecs ==> Inv(VecFree(p, v))
    ensures d in p.liveDbs ==> Inv(DbFree(p, d))
  {
    if v in p.liveVecs { VecFreeKeeps(p, v); }
    if d in p.liveDbs { DbFreeKeeps(p, d); }
  }

  lemma VecFreeKeeps(p: Pool, v: nat)
    requires Inv(p) && v in p.liveVecs
    ensures Inv(VecFree(p, v))
  {
    var q := VecFree(p, v);
    forall x: nat
      ensures BlkCount(q, x) == BlkCount(p, x) && DbCount(q, x) == DbCount(p, x) && VecCount(q, x) == VecCount(p, x)
    {
    }
  }

  lemma DbFreeKeeps(p: Pool, d: nat)
    requires Inv(p) && d in p.liveDbs
    ensures Inv(DbFree(p, d))
  {
    var q := DbFree(p, d);
    forall x: nat
      ensures BlkCount(q, x) == BlkCount(p, x) && DbCount(q, x) == DbCount(p, x) && VecCount(q, x) == VecCount(p, x)
    {
    }
  }

  lemma VecFreeGood(p: Pool, v: nat)
    requires Good(p) && v in p.liveVecs
    ensures Good(VecFree(p, v))
  {
    FreeKeeps(p, v, 0);
    assert VecBodiesOk(p.body - {v}, p.vecBlks, [v] + p.vecs, p.threads);
  }

  lemma LiveNotQueued(p: Pool, d: nat, t: nat)
    requires Inv(p) && d in p.liveDbs && t < |p.threads|
    ensures d !in Ids(p.threads[t].dbuf)
  {
    SharesBound(p.threads, t, d);
    assert DbCount(p, d) == One(d / DB_PER_BLK in p.dbBlks);
  }

  lemma DbFreeGood(p: Pool, d: nat)
    requires Good(p) && d in p.liveDbs
    ensures Good(DbFree(p, d))
  {
    FreeKeeps(p, 0, d);
    forall t: nat | t < |p.threads| ensures d !in Ids(p.threads[t].dbuf) { LiveNotQueued(p, d, t); }
    assert DbBodiesOk(p.dbBody - {d}, p.dbBlks, [d] + p.dbs, p.liveDbs - {d}, p.threads);
  }

  /** Releasing the head is unlinking it and freeing what it held. */
  lemma ReleaseVecSteps(p: Pool, t: nat)
    requires Good(p) && t < |p.threads| && p.threads[t].vbuf != []
    ensures var n, q := p.threads[t].vbuf[0], UnlinkVec(p, t);
      ReleaseVec(p, t) == VecFree(if n.id == SPT_NULL then q else VecFree(q, n.id), n.carrier)
  {
    UnlinkVecLocal(p, t, 0);
    var n, q := p.threads[t].vbuf[0], UnlinkVec(p, t);
    assert (q.liveVecs - {n.id}) - {n.carrier} == (p.liveVecs - {n.id}) - {n.carrier};
    assert n.id == SPT_NULL ==> q.liveVecs - {n.carrier} == p.liveVecs - {n.carrier};
  }

  /** A spent node is handed out itself. */
  lemma SpentSteps(p: Pool, t: nat)
    requires t < |p.threads| && Spent(p.threads[t].vbuf)
    ensures VecAllocFromBuf(p, t) == (UnlinkVec(p, t), Some(p.threads[t].vbuf[0].carrier))
  {
    assert p.liveVecs + {p.threads[t].vbuf[0].carrier} + {} == p.liveVecs + {p.threads[t].vbuf[0].carrier};
  }

  lemma ReleaseDbSteps(p: Pool, t: nat)
    requires Good(p) && t < |p.threads| && p.threads[t].dbuf != []
    ensures var n, q := p.threads[t].dbuf[0], UnlinkDb(p, t);
      ReleaseDb(p, t) == VecFree(DbFree(q.(freed := p.freed + FreeData(p, n.id)), n.id), n.carrier)
  {
    var n, q := p.threads[t].dbuf[0], UnlinkDb(p, t);
    UnlinkDbLocal(p, t, 0);
    assert q.liveVecs - {n.carrier} == p.liveVecs - {n.carrier};
    assert q.liveDbs - {n.id} == p.liveDbs - {n.id};
  }

  lemma DbAllocFromBufSteps(p: Pool, t: nat)
    requires Good(p) && t < |p.threads| && p.threads[t].dbuf != [] && NodeExpired(p, p.threads[t].dbuf[0])
    ensures var n, q := p.threads[t].dbuf[0], UnlinkDb(p, t);
      && n.id in p.dbBody
      && DbAllocFromBuf(p, t) == (VecFree(q.(freed := p.freed + FreeData(p, n.id),
                                             dbBody := p.dbBody[n.id := p.dbBody[n.id].(rsv := 0)]), n.carrier), Some(n.id))
  {
    var n, q := p.threads[t].dbuf[0], UnlinkDb(p, t);
    UnlinkDbGood(p, t);
    UnlinkDbLocal(p, t, 0);
    assert q.liveVecs - {n.carrier} == p.liveVecs - {n.carrier};
  }

  /** The books ignore what was freed, what contents say and which blocks are on their
      way to be carved. */
  lemma GoodIgnoresData(p: Pool, q: Pool)
    requires Good(p) && q == p.(freed := q.freed, dbBody := q.dbBody)
    requires q.dbBody.Keys == p.dbBody.Keys
    ensures Good(q)
  {
    forall x: nat ensures VecCount(q, x) == VecCount(p, x) && DbCount(q, x) == DbCount(p, x) && BlkCount(q, x) == BlkCount(p, x) {}
    assert forall d: nat :: d in q.dbBody <==> d in p.dbBody;
  }

  // ---------------------------------------------------------------- queuing

  /** The status mark `vec_free_to_buf` leaves in a retired vec. */
  function MarkVec(p: Pool, id: nat): Pool {
    p.(body := if id in p.body then p.body[id := Marked(p.body[id])] else p.body)
  }

  /** Two vecs of the caller's become the tail of the vec queue and what it parks. */
  function QueueVec(p: Pool, t: nat, c: nat, id: nat): Pool
    requires t < |p.threads|
  {
    var th := p.threads[t];
    SetThread(p, t, th.(vbuf := th.vbuf + [Node(c, p.tick, id)])).(liveVecs := p.liveVecs - {c} - {id})
  }

  function QueueDb(p: Pool, t: nat, c: nat, id: nat): Pool
    requires t < |p.threads|
  {
    var th := p.threads[t];
    SetThread(p, t, th.(dbuf := th.dbuf + [Node(c, p.tick, id)]))
      .(liveVecs := p.liveVecs - {c}, liveDbs := p.liveDbs - {id})
  }

  lemma AppendVecShare(th: Thread, n: Node, x: nat)
    requires n.id != SPT_NULL
    ensures VecShare(th.(vbuf := th.vbuf + [n]), x) == VecShare(th, x) + One(x == n.carrier) + One(x == n.id)
  {
    var b := th.vbuf;
    assert Carriers(b + [n]) == Carriers(b) + [n.carrier];
    if Spent(b) { assert (b + [n])[1..] == b[1..] + [n]; }
    var kept := if Spent(b) then b[1..] else b;
    assert Parked(b + [n]) == Ids(kept + [n]) == Parked(b) + [n.id];
  }

  lemma AppendDbShare(th: Thread, n: Node, x: nat)
    ensures VecShare(th.(dbuf := th.dbuf + [n]), x) == VecShare(th, x) + One(x == n.carrier)
    ensures DbShare(th.(dbuf := th.dbuf + [n]), x) == DbShare(th, x) + One(x == n.id)
  {
    assert Carriers(th.dbuf + [n]) == Carriers(th.dbuf) + [n.carrier];
    assert Ids(th.dbuf + [n]) == Ids(th.dbuf) + [n.id];
  }

  lemma QueueVecLocal(p: Pool, t: nat, c: nat, id: nat, x: nat)
    requires t < |p.threads| && c in p.liveVecs && id in p.liveVecs && c != id && id != SPT_NULL
    ensures VecLocal(QueueVec(p, t, c, id), t, x) == VecLocal(p, t, x)
    ensures DbLocal(QueueVec(p, t, c, id), t, x) == DbLocal(p, t, x)
  {
    AppendVecShare(p.threads[t], Node(c, p.tick, id), x);
  }

  lemma QueueDbLocal(p: Pool, t: nat, c: nat, id: nat, x: nat)
    requires t < |p.threads| && c in p.liveVecs && id in p.liveDbs
    ensures VecLocal(QueueDb(p, t, c, id), t, x) == VecLocal(p, t, x)
    ensures DbLocal(QueueDb(p, t, c, id), t, x) == DbLocal(p, t, x)
  {
    AppendDbShare(p.threads[t], Node(c, p.tick, id), x);
  }

  /** Queuing at the present tick keeps the queue in order. */
  lemma AppendQueues(tick: nat, th: Thread, c: nat, id: nat)
    requires QueuesOk(tick, th) && id != SPT_NULL
    ensures QueuesOk(tick, th.(vbuf := th.vbuf + [Node(c, tick, id)]))
    ensures QueuesOk(tick, th.(dbuf := th.dbuf + [Node(c, tick, id)]))
  {
  }

  lemma QueueVecKeeps(p: Pool, t: nat, c: nat, id: nat)
    requires Inv(p) && t < |p.threads| && c in p.liveVecs && id in p.liveVecs && c != id
    ensures Inv(QueueVec(p, t, c, id))
  {
    var q := QueueVec(p, t, c, id);
    SharesNonNegative(p.threads, id);
    IdsBelowNull(p, id);
    AppendQueues(p.tick, p.threads[t], c, id);
    forall x: nat ensures VecLocal(q, t, x) == VecLocal(p, t, x) && DbLocal(q, t, x) == DbLocal(p, t, x) {
      QueueVecLocal(p, t, c, id, x);
    }
    Balanced(p, q, t);
  }

  lemma QueueDbKeeps(p: Pool, t: nat, c: nat, id: nat)
    requires Inv(p) && t < |p.threads| && c in p.liveVecs && id in p.liveDbs
    ensures Inv(QueueDb(p, t, c, id))
  {
    var q := QueueDb(p, t, c, id);
    SharesNonNegative(p.threads, id);
    DbIdsBelowNull(p, id);
    AppendQueues(p.tick, p.threads[t], c, id);
    forall x: nat ensures VecLocal(q, t, x) == VecLocal(p, t, x) && DbLocal(q, t, x) == DbLocal(p, t, x) {
      QueueDbLocal(p, t, c, id, x);
    }
    Balanced(p, q, t);
  }

  lemma QueueVecGood(p: Pool, t: nat, c: nat, id: nat)
    requires Good(p) && t < |p.threads| && c in p.liveVecs && id in p.liveVecs && c != id && c !in p.body
    ensures Good(QueueVec(p, t, c, id))
  {
    QueueVecKeeps(p, t, c, id);
    var b := p.threads[t].vbuf;
    assert Carriers(b + [Node(c, p.tick, id)]) == Carriers(b) + [c];
    assert VecBodiesOk(p.body, p.vecBlks, p.vecs, QueueVec(p, t, c, id).threads);
  }

  lemma QueueDbGood(p: Pool, t: nat, c: nat, id: nat)
    requires Good(p) && t < |p.threads| && c in p.liveVecs && id in p.liveDbs && c !in p.body
    ensures Good(QueueDb(p, t, c, id))
  {
    QueueDbKeeps(p, t, c, id);
    var b := p.threads[t].dbuf;
    var q := QueueDb(p, t, c, id);
    assert Carriers(b + [Node(c, p.tick, id)]) == Carriers(b) + [c];
    assert Ids(b + [Node(c, p.tick, id)]) == Ids(b) + [id];
    assert VecBodiesOk(p.body, p.vecBlks, p.vecs, q.threads);
    assert DbBodiesOk(p.dbBody, p.dbBlks, p.dbs, q.liveDbs, q.threads);
  }

  /** The books do not depend on what contents say. */
  lemma WriteVecGood(p: Pool, v: nat, c: Cell)
    requires Good(p) && v in p.liveVecs
    ensures Good(p.(body := p.body[v := c]))
  {
    var q := p.(body := p.body[v := c]);
    forall x: nat ensures VecCount(q, x) == VecCount(p, x) && DbCount(q, x) == DbCount(p, x) && BlkCount(q, x) == BlkCount(p, x) {}
    LiveUnlisted(p, v);
    assert VecBodiesOk(q.body, p.vecBlks, p.vecs, p.threads);
  }

  lemma MarkVecGood(p: Pool, id: nat)
    requires Good(p) && id in p.liveVecs
    ensures Good(MarkVec(p, id))
  {
    if id in p.body { WriteVecGood(p, id, Marked(p.body[id])); }
  }

  /** Retiring is marking, taking a reserved vec and queuing. */
  lemma ParkSteps(p: Pool, t: nat, id: nat)
    requires Good(p) && t < |p.threads| && p.threads[t].rsv != []
    ensures var c := p.threads[t].rsv[0];
      && ParkVec(p, t, id) == QueueVec(RsvPop(MarkVec(p, id), t), t, c, id)
      && ParkDb(p, t, id) == QueueDb(RsvPop(p, t), t, c, id)
  {
    RsvPopGood(p, t);
    var c := p.threads[t].rsv[0];
    assert (p.liveVecs + {c}) - {c} == p.liveVecs;
  }

  lemma ParkVecGood(p: Pool, t: nat, id: nat)
    requires Good(p) && t < |p.threads| && p.threads[t].rsv != [] && id in p.liveVecs
    ensures Good(ParkVec(p, t, id))
  {
    ParkSteps(p, t, id);
    MarkVecGood(p, id);
    RsvPopGood(MarkVec(p, id), t);
    QueueVecGood(RsvPop(MarkVec(p, id), t), t, p.threads[t].rsv[0], id);
  }

  lemma ParkDbGood(p: Pool, t: nat, id: nat)
    requires Good(p) && t < |p.threads| && p.threads[t].rsv != [] && id in p.liveDbs
    ensures Good(ParkDb(p, t, id))
  {
    ParkSteps(p, t, id);
    RsvPopGood(p, t);
    QueueDbGood(RsvPop(p, t), t, p.threads[t].rsv[0], id);
  }

  // ---------------------------------------------------------------- releasing

  lemma ReleaseVecGood(p: Pool, t: nat)
    requires Good(p) && t < |p.threads| && p.threads[t].vbuf != []
    ensures Good(ReleaseVec(p, t))
  {
    var n, q := p.threads[t].vbuf[0], UnlinkVec(p, t);
    UnlinkVecGood(p, t);
    ReleaseVecSteps(p, t);
    if n.id == SPT_NULL {
      VecFreeGood(q, n.carrier);
    } else {
      VecFreeGood(q, n.id);
      VecFreeGood(VecFree(q, n.id), n.carrier);
    }
  }

  lemma ReleaseDbGood(p: Pool, t: nat)
    requires Good(p) && t < |p.threads| && p.threads[t].dbuf != []
    ensures Good(ReleaseDb(p, t))
  {
    var n, q := p.threads[t].dbuf[0], UnlinkDb(p, t);
    var q1 := q.(freed := p.freed + FreeData(p, n.id));
    UnlinkDbGood(p, t);
    ReleaseDbSteps(p, t);
    GoodIgnoresData(q, q1);
    DbFreeGood(q1, n.id);
    VecFreeGood(DbFree(q1, n.id), n.carrier);
  }

  lemma DbAllocFromBufGood(p: Pool, t: nat)
    requires Good(p) && t < |p.threads|
    ensures Good(DbAllocFromBuf(p, t).0)
  {
    if DbAllocFromBuf(p, t).1.Some? {
      var n, q := p.threads[t].dbuf[0], UnlinkDb(p, t);
      UnlinkDbGood(p, t);
      DbAllocFromBufSteps(p, t);
      var q1 := q.(freed := p.freed + FreeData(p, n.id), dbBody := p.dbBody[n.id := p.dbBody[n.id].(rsv := 0)]);
      GoodIgnoresData(q, q1);
      VecFreeGood(q1, n.carrier);
    }
  }

  // ---------------------------------------------------------------- whole calls

  lemma VecAllocComboGood(p: Pool, env: Env, t: nat)
    requires Good(p) && t < |p.threads|
    ensures Good(VecAllocCombo(p, env, t).0)
    ensures var (q, v) := VecAllocCombo(p, env, t); v.Some? ==> v.value in q.liveVecs && v.value !in p.liveVecs
  {
    VecAllocFromBufKeeps(p, t);
    VecAllocFromBufBodies(p, t);
    VecAllocKeeps(p, env);
    VecAllocBodies(p, env);
    VecAllocComboFresh(p, env, t);
  }

  /** The vec handed out was not the client's before. */
  lemma VecAllocComboFresh(p: Pool, env: Env, t: nat)
    requires Inv(p) && t < |p.threads|
    ensures var v := VecAllocCombo(p, env, t).1; v.Some? ==> v.value !in p.liveVecs
  {
    var th := p.threads[t];
    HeadShares(th);
    if VecAllocFromBuf(p, t).1.Some? {
      ShareExcludes(p, t, VecAllocFromBuf(p, t).1.value);
    } else {
      VecAllocFresh(p, env);
    }
  }

  lemma VecAllocFresh(p: Pool, env: Env)
    requires Inv(p)
    ensures var v := VecAlloc(p, env).1; v.Some? ==> v.value !in p.liveVecs
  {
    RefillKeeps(p, env);
    if RefillVecs(p, env).vecs != [] { TakeVecKeeps(RefillVecs(p, env)); }
  }

  lemma DataAllocComboGood(p: Pool, env: Env, t: nat)
    requires Good(p) && t < |p.threads|
    ensures Good(DataAllocCombo(p, env, t).0)
  {
    DbAllocFromBufGood(p, t);
    DbAllocKeeps(p, env);
    DbAllocBodies(p, env);
  }

  lemma FillStepGood(p: Pool, env: Env, t: nat)
    requires Good(p) && t < |p.threads|
    ensures var (p1, v) := VecAllocCombo(p, env, t);
      Good(p1) && (v.Some? ==> Good(RsvPush(p1, t, v.value)))
  {
    var (p1, v) := VecAllocCombo(p, env, t);
    VecAllocComboGood(p, env, t);
    if v.Some? {
      RsvPushKeeps(p1, t, v.value);
      RsvPushBodies(p1, t, v.value);
    }
  }

  lemma {:induction false} FillGood(p: Pool, env: Env, t: nat, nr: int)
    requires Good(p) && t < |p.threads|
    ensures Good(Fill(p, env, t, nr).0)
    decreases if nr < 0 then 0 else nr
  {
    if nr > 0 {
      FillStepGood(p, env, t);
      var (p1, v) := VecAllocCombo(p, env, t);
      if v.Some? { FillGood(RsvPush(p1, t, v.value), env, t, nr - 1); }
    }
  }

  lemma {:induction false} ReleaseVecsGood(p: Pool, t: nat, k: nat)
    requires Good(p) && t < |p.threads| && k <= |p.threads[t].vbuf|
    ensures Good(ReleaseVecs(p, t, k))
    decreases k
  {
    if k > 0 {
      ReleaseVecGood(p, t);
      ReleaseVecsGood(ReleaseVec(p, t), t, k - 1);
    }
  }

  lemma {:induction false} ReleaseDbsGood(p: Pool, t: nat, k: nat)
    requires Good(p) && t < |p.threads| && k <= |p.threads[t].dbuf|
    ensures Good(ReleaseDbs(p, t, k))
    decreases k
  {
    if k > 0 {
      ReleaseDbGood(p, t);
      ReleaseDbsGood(ReleaseDb(p, t), t, k - 1);
    }
  }

  lemma BufFreeGood(p: Pool, t: nat)
    requires Good(p) && t < |p.threads|
    ensures Good(VecBufFree(p, t)) && Good(DbBufFree(p, t))
  {
    ReleaseVecsGood(p, t, T.Walk(T.Masked(p.tick), WalkStamps(p.threads[t].vbuf)));
    ReleaseDbsGood(p, t, T.Walk(T.Masked(p.tick), WalkStamps(p.threads[t].dbuf)));
  }

  lemma TrimGood(p: Pool, t: nat)
    requires Good(p) && t < |p.threads|
    ensures Good(TrimVecs(p, t)) && Good(TrimDbs(p, t))
  {
    BufFreeGood(p, t);
  }

  lemma VecFreeToBufGood(p: Pool, env: Env, t: nat, id: nat)
    requires Good(p) && t < |p.threads| && p.threads[t].rsv != [] && id in p.liveVecs
    ensures Good(VecFreeToBuf(p, env, t, id).0)
  {
    ParkVecGood(p, t, id);
    TrimGood(ParkVec(p, t, id), t);
    FillGood(TrimVecs(ParkVec(p, t, id), t), env, t, 1);
  }

  lemma DbFreeToBufGood(p: Pool, env: Env, t: nat, id: nat)
    requires Good(p) && t < |p.threads| && p.threads[t].rsv != [] && id in p.liveDbs
    ensures Good(DbFreeToBuf(p, env, t, id).0)
  {
    ParkDbGood(p, t, id);
    TrimGood(ParkDb(p, t, id), t);
    FillGood(TrimDbs(ParkDb(p, t, id), t), env, t, 1);
  }

  lemma FillRsvListGood(p: Pool, env: Env, t: nat, nr: int)
    requires Good(p) && t < |p.threads|
    ensures Good(FillRsvList(p, env, t, nr).0)
  {
    TrimGood(p, t);
    TrimGood(TrimVecs(p, t), t);
    FillGood(TrimDbs(TrimVecs(p, t), t), env, t, nr);
  }
}

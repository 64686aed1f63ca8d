/** The elementary moves of the allocator: each changes a word or a head and is matched
    by one change of the pool. */
module ClusterMoves {
  import opened Layout
  import opened PoolSpec
  import opened PoolLaws
  import opened ClusterRep
  import Sums = ThreadSums
  import T = TickAge

  type Mem = map<nat, Cell>

  // ---------------------------------------------------------------- free words

  /** A block is of one kind. */
  lemma OneKind(p: Pool, b: nat)
    requires Partition(p)
    ensures b in p.vecBlks ==> b !in p.dbBlks && b !in p.blks
    ensures b in p.dbBlks ==> b !in p.blks
  {
    assert BlkCount(p, b) == One(b / BLK_PER_PG in p.pages);
  }

  lemma DbKind(p: Pool, d: nat)
    requires Good(p) && (d in p.dbs || d in p.dbBody)
    ensures d / DB_PER_BLK in p.dbBlks
  {
    assert DbCount(p, d) == One(d / DB_PER_BLK in p.dbBlks);
    SharesNonNegative(p.threads, d);
  }

  /** No word belongs to a vec block and a db block at once. */
  lemma VecNotDb(p: Pool, v: nat, d: nat)
    requires Good(p) && v / VEC_PER_BLK in p.vecBlks && (d in p.dbs || d in p.dbBody)
    ensures d * DB_WORDS != v && d * DB_WORDS + 1 != v
  {
    DbKind(p, d);
    OneKind(p, v / VEC_PER_BLK);
    DbWordBlock(d);
  }

  lemma DbWordBlock(d: nat)
    ensures (d * DB_WORDS) / VEC_PER_BLK == d / DB_PER_BLK
    ensures (d * DB_WORDS + 1) / VEC_PER_BLK == d / DB_PER_BLK
  {
  }

  lemma VecNotBlk(p: Pool, v: nat, b: nat)
    requires Good(p) && v / VEC_PER_BLK in p.vecBlks && b in p.blks
    ensures b * BLK_WORDS != v
  {
    OneKind(p, b);
  }

  lemma LiveVecFree(p: Pool, v: nat)
    requires Good(p) && v in p.liveVecs
    ensures Free(p.(body := p.body - {v}), v)
  {
    LiveUnlisted(p, v);
    forall b | b in p.blks ensures b * BLK_WORDS != v { VecNotBlk(p, v, b); }
    forall d: nat | d in p.dbs || d in p.dbBody ensures d * DB_WORDS != v && d * DB_WORDS + 1 != v {
      VecNotDb(p, v, d);
    }
  }

  /** A word whose block is neither carved nor free is nobody's. */
  lemma UncarvedFree(p: Pool, w: nat)
    requires Good(p) && w / BLK_WORDS !in p.blks && w / BLK_WORDS !in p.vecBlks && w / BLK_WORDS !in p.dbBlks
    ensures Free(p, w)
  {
    SharesNonNegative(p.threads, w);
    assert VecCount(p, w) == One(w / VEC_PER_BLK in p.vecBlks);
    forall t: nat | t < |p.threads| ensures Unlisted(p.threads[t], w) {
      SharesBound(p.threads, t, w);
    }
    forall b | b in p.blks ensures b * BLK_WORDS != w {
      assert (b * BLK_WORDS) / BLK_WORDS == b;
    }
    forall d: nat | d in p.dbs || d in p.dbBody ensures d * DB_WORDS != w && d * DB_WORDS + 1 != w {
      DbKind(p, d);
      DbWordBlock(d);
    }
  }

  lemma OutBlkFree(p: Pool, b: nat, w: nat)
    requires Good(p) && b in p.outBlks && w / BLK_WORDS == b
    ensures Free(p, w)
  {
    assert BlkCount(p, b) == One(b / BLK_PER_PG in p.pages);
    UncarvedFree(p, w);
  }

  /** The two words of a db that is not on the free stack, once its contents are dropped. */
  lemma DbWordsFree(p: Pool, d: nat, dbs: seq<nat>)
    requires Good(p) && d / DB_PER_BLK in p.dbBlks && d !in dbs && forall x :: x in dbs ==> x in p.dbs
    ensures Free(p.(dbs := dbs, dbBody := p.dbBody - {d}), d * DB_WORDS)
    ensures Free(p.(dbs := dbs, dbBody := p.dbBody - {d}), d * DB_WORDS + 1)
  {
    OneKind(p, d / DB_PER_BLK);
    DbWordBlock(d);
    DbWordsUnlisted(p, d * DB_WORDS);
    DbWordsUnlisted(p, d * DB_WORDS + 1);
    DbWordApart(p.blks, dbs, p.dbBody - {d}, d);
  }

  lemma DbWordApart(blks: seq<nat>, dbs: seq<nat>, body: map<nat, DbBody>, d: nat)
    requires d / DB_PER_BLK !in blks && d !in dbs && d !in body
    ensures forall b :: b in blks ==> b * BLK_WORDS != d * DB_WORDS && b * BLK_WORDS != d * DB_WORDS + 1
    ensures forall x :: x in dbs ==> x * DB_WORDS != d * DB_WORDS && x * DB_WORDS != d * DB_WORDS + 1
    ensures forall x: nat :: x in body ==>
              && x * DB_WORDS != d * DB_WORDS && x * DB_WORDS + 1 != d * DB_WORDS
              && x * DB_WORDS != d * DB_WORDS + 1 && x * DB_WORDS + 1 != d * DB_WORDS + 1
  {
  }

  lemma DbWordsUnlisted(p: Pool, w: nat)
    requires Good(p) && w / VEC_PER_BLK !in p.vecBlks
    ensures w !in p.vecs && w !in p.body && forall t: nat :: t < |p.threads| ==> Unlisted(p.threads[t], w)
  {
    SharesNonNegative(p.threads, w);
    assert VecCount(p, w) == One(w / VEC_PER_BLK in p.vecBlks);
    forall t: nat | t < |p.threads| ensures Unlisted(p.threads[t], w) {
      SharesBound(p.threads, t, w);
    }
  }

  /** A vec on one thread's list is on no other thread's. */
  lemma ListedOnce(p: Pool, t: nat, u: nat, c: nat)
    requires Inv(p) && t < |p.threads| && u < |p.threads| && t != u && !Unlisted(p.threads[t], c)
    ensures Unlisted(p.threads[u], c)
  {
    var xs := VecShares(p.threads, c);
    SharesBound(p.threads, t, c);
    PairBound(xs, t, u);
    assert VecCount(p, c) == One(c / VEC_PER_BLK in p.vecBlks);
  }

  lemma PairBound(xs: seq<int>, t: nat, u: nat)
    requires t < |xs| && u < |xs| && t != u && forall i :: 0 <= i < |xs| ==> 0 <= xs[i]
    ensures xs[t] + xs[u] <= Sums.Sum(xs)
  {
    Sums.SumUpdate(xs, t, 0);
    Sums.SumNonNegative(xs[t := 0]);
    assert xs[t := 0][u] == xs[u];
  }


  lemma CarrierApart(p: Pool, t: nat, c: nat)
    requires Good(p) && t < |p.threads| && !Unlisted(p.threads[t], c)
    ensures c !in p.vecs && c !in p.body && c / VEC_PER_BLK in p.vecBlks
    ensures VecShare(p.threads[t], c) == 1
    ensures forall u: nat :: u < |p.threads| && u != t ==> Unlisted(p.threads[u], c)
  {
    ShareExcludes(p, t, c);
    SharesBound(p.threads, t, c);
    assert VecCount(p, c) == One(c / VEC_PER_BLK in p.vecBlks);
    forall u: nat | u < |p.threads| && u != t ensures Unlisted(p.threads[u], c) {
      ListedOnce(p, t, u, c);
    }
  }

  /** A carrier of a queue is free once that queue is taken out of the pool. */
  lemma CarrierFree(p: Pool, t: nat, c: nat)
    requires Good(p) && t < |p.threads|
    ensures c in Carriers(p.threads[t].vbuf) ==> Free(SetThread(p, t, p.threads[t].(vbuf := [])), c)
    ensures c in Carriers(p.threads[t].dbuf) ==> Free(SetThread(p, t, p.threads[t].(dbuf := [])), c)
  {
    var th := p.threads[t];
    if c in Carriers(th.vbuf) || c in Carriers(th.dbuf) {
      CarrierApart(p, t, c);
      forall b | b in p.blks ensures b * BLK_WORDS != c { VecNotBlk(p, c, b); }
      forall d: nat | d in p.dbs || d in p.dbBody ensures d * DB_WORDS != c && d * DB_WORDS + 1 != c {
        VecNotDb(p, c, d);
      }
      if c in Carriers(th.vbuf) { assert Unlisted(th.(vbuf := []), c); }
      if c in Carriers(th.dbuf) { assert Unlisted(th.(dbuf := []), c); }
    }
  }

  // ---------------------------------------------------------------- stack moves

  lemma TakeBlkMove(h: Heap, p: Pool, q: Pool)
    requires HeapRep(h, p) && p.blks != [] && q == p.(blks := p.blks[1..], outBlks := q.outBlks)
    ensures h.blkHead == p.blks[0] && h.blkHead * BLK_WORDS in h.mem && h.mem[h.blkHead * BLK_WORDS].Link?
    ensures HeapRep(h.(blkHead := h.mem[h.blkHead * BLK_WORDS].to), q)
  {
    PopStack(h.mem, BLK_WORDS, h.blkHead, NONE, p.blks);
  }

  lemma TakeVecMove(h: Heap, p: Pool)
    requires HeapRep(h, p) && p.vecs != []
    ensures h.vecHead == p.vecs[0] && h.vecHead in h.mem && h.mem[h.vecHead].Link?
    ensures HeapRep(h.(vecHead := h.mem[h.vecHead].to), TakeVec(p))
  {
    PopStack(h.mem, 1, h.vecHead, NONE, p.vecs);
  }

  /** A db's two words. */
  function DbWords(mem: Mem, d: nat, b: DbBody): Mem {
    mem[d * DB_WORDS := DbHead(b.rsv)][d * DB_WORDS + 1 := DbData(b.pdata)]
  }

  lemma DbWordsWrite(h: Heap, q: Pool, d: nat, b: DbBody)
    requires HeapRep(h, q) && Free(q, d * DB_WORDS) && Free(q, d * DB_WORDS + 1)
    ensures HeapRep(h.(mem := DbWords(h.mem, d, b)), q)
  {
    HeapWrite(h, q, d * DB_WORDS, DbHead(b.rsv));
    HeapWrite(h.(mem := h.mem[d * DB_WORDS := DbHead(b.rsv)]), q, d * DB_WORDS + 1, DbData(b.pdata));
  }

  lemma WriteFreeDb(h: Heap, p: Pool, d: nat, b: DbBody)
    requires HeapRep(h, p)
    requires Free(p.(dbBody := p.dbBody - {d}), d * DB_WORDS) && Free(p.(dbBody := p.dbBody - {d}), d * DB_WORDS + 1)
    ensures HeapRep(h.(mem := DbWords(h.mem, d, b)), p.(dbBody := p.dbBody[d := b]))
  {
    var q := p.(dbBody := p.dbBody - {d});
    var h' := h.(mem := DbWords(h.mem, d, b));
    SwapBodies(h, p, q);
    DbWordsWrite(h, q, d, b);
    AddDbBody(h'.mem, q.dbBody, d, b);
    assert q.dbBody[d := b] == p.dbBody[d := b];
    SwapBodies(h', q, p.(dbBody := p.dbBody[d := b]));
  }

  lemma AddDbBody(mem: Mem, body: map<nat, DbBody>, d: nat, b: DbBody)
    requires DbBodyRep(mem, body) && DbAt(mem, d, b)
    ensures DbBodyRep(mem, body[d := b])
  {
    var body1 := body[d := b];
    forall x: nat | x in body1 ensures DbAt(mem, x, body1[x]) {
      if x != d { assert DbAt(mem, x, body[x]); }
    }
  }

  /** Taking a db clears its header. */
  lemma TakeDbMove(h: Heap, p: Pool)
    requires HeapRep(h, p) && Good(p) && p.dbs != []
    ensures h.dbHead == p.dbs[0] && h.dbHead * DB_WORDS in h.mem && h.mem[h.dbHead * DB_WORDS].Link?
    ensures HeapRep(h.(mem := DbWords(h.mem, h.dbHead, DbBody(0, 0)), dbHead := h.mem[h.dbHead * DB_WORDS].to), TakeDb(p))
  {
    PopStack(h.mem, DB_WORDS, h.dbHead, NONE, p.dbs);
    TakeDbKeeps(p);
    var h1, p1 := h.(dbHead := h.mem[h.dbHead * DB_WORDS].to), p.(dbs := p.dbs[1..]);
    DbWordsFree(p, p.dbs[0], p.dbs[1..]);
    assert p1.(dbBody := p1.dbBody - {p.dbs[0]}) == p.(dbs := p.dbs[1..], dbBody := p.dbBody - {p.dbs[0]});
    WriteFreeDb(h1, p1, p.dbs[0], DbBody(0, 0));
  }

  lemma FreeVecMove(h: Heap, p: Pool, v: nat)
    requires HeapRep(h, p) && Good(p) && v in p.liveVecs
    ensures HeapRep(h.(mem := h.mem[v := Link(h.vecHead)], vecHead := v), VecFree(p, v))
  {
    var mem' := h.mem[v := Link(h.vecHead)];
    WriteVecMove(h, p, v, Link(h.vecHead));
    PushStack(mem', 1, h.vecHead, NONE, p.vecs, v);
  }

  lemma FreeDbMove(h: Heap, p: Pool, d: nat)
    requires HeapRep(h, p) && Good(p) && d in p.liveDbs
    ensures HeapRep(h.(mem := h.mem[d * DB_WORDS := Link(h.dbHead)], dbHead := d), DbFree(p, d))
  {
    var mem' := h.mem[d * DB_WORDS := Link(h.dbHead)];
    LiveDbUnlisted(p, d);
    DbWordsFree(p, d, p.dbs);
    var q := p.(dbBody := p.dbBody - {d});
    assert p.(dbs := p.dbs, dbBody := p.dbBody - {d}) == q;
    HeapWrite(h, q, d * DB_WORDS, Link(h.dbHead));
    PushStack(mem', DB_WORDS, h.dbHead, NONE, p.dbs, d);
  }

  // ---------------------------------------------------------------- client words

  lemma WriteFreeVec(h: Heap, p: Pool, v: nat, c: Cell)
    requires HeapRep(h, p) && Free(p.(body := p.body - {v}), v)
    ensures HeapRep(h.(mem := h.mem[v := c]), p.(body := p.body - {v}))
    ensures HeapRep(h.(mem := h.mem[v := c]), p.(body := p.body[v := c]))
  {
    var q := p.(body := p.body - {v});
    var h' := h.(mem := h.mem[v := c]);
    SwapBodies(h, p, q);
    HeapWrite(h, q, v, c);
    assert forall x :: x in p.body[v := c] && x != v ==> x in q.body && q.body[x] == p.body[x];
    SwapBodies(h', q, p.(body := p.body[v := c]));
  }

  lemma WriteVecMove(h: Heap, p: Pool, v: nat, c: Cell)
    requires HeapRep(h, p) && Good(p) && v in p.liveVecs
    ensures HeapRep(h.(mem := h.mem[v := c]), p.(body := p.body - {v}))
    ensures HeapRep(h.(mem := h.mem[v := c]), p.(body := p.body[v := c]))
  {
    LiveVecFree(p, v);
    WriteFreeVec(h, p, v, c);
  }

  lemma WriteDbMove(h: Heap, p: Pool, d: nat, b: DbBody)
    requires HeapRep(h, p) && Good(p) && d in p.dbBody
    ensures HeapRep(h.(mem := DbWords(h.mem, d, b)), p.(dbBody := p.dbBody[d := b]))
  {
    DbWordsFree(p, d, p.dbs);
    assert p.(dbs := p.dbs, dbBody := p.dbBody - {d}) == p.(dbBody := p.dbBody - {d});
    WriteFreeDb(h, p, d, b);
  }

  // ---------------------------------------------------------------- thread lists

  lemma ThreadOf(h: Heap, p: Pool, t: nat)
    requires HeapRep(h, p) && t < |p.threads|
    ensures t < |h.thrd| && ThreadRep(h.mem, h.thrd[t], p.threads[t])
  {
    assert ThreadAt(h.mem, h.thrd, p.threads, t);
  }

  /** One thread's record and lists change. */
  lemma SetThreadMove(h: Heap, p: Pool, t: nat, td: ThreadData, th: Thread)
    requires HeapRep(h, p) && t < |p.threads| && t < |h.thrd| && ThreadRep(h.mem, td, th)
    ensures HeapRep(h.(thrd := h.thrd[t := td]), SetThread(p, t, th))
  {
    SetThreadRep(h.mem, h.thrd, p.threads, t, td, th);
  }

  lemma RsvPopMove(h: Heap, p: Pool, t: nat)
    requires HeapRep(h, p) && t < |p.threads| && p.threads[t].rsv != []
    ensures t < |h.thrd| && h.thrd[t].rsvList == p.threads[t].rsv[0]
    ensures h.thrd[t].rsvList in h.mem && h.mem[h.thrd[t].rsvList].Link? && h.mem[h.thrd[t].rsvList].to >= 0
    ensures var td, th := h.thrd[t], p.threads[t];
      HeapRep(h.(thrd := h.thrd[t := td.(rsvList := h.mem[td.rsvList].to, rsvCnt := td.rsvCnt - 1)]),
              SetThread(p, t, th.(rsv := th.rsv[1..])))
  {
    ThreadOf(h, p, t);
    var td, th := h.thrd[t], p.threads[t];
    PopStack(h.mem, 1, td.rsvList, SPT_NULL, th.rsv);
    assert CellAt(h.mem, 1, SPT_NULL, th.rsv, 0);
    SetThreadMove(h, p, t, td.(rsvList := h.mem[td.rsvList].to, rsvCnt := td.rsvCnt - 1), th.(rsv := th.rsv[1..]));
  }

  lemma RsvPushMove(h: Heap, p: Pool, t: nat, v: nat)
    requires HeapRep(h, p) && Good(p) && t < |p.threads| && v in p.liveVecs
    ensures t < |h.thrd|
    ensures var td := h.thrd[t];
      HeapRep(h.(mem := h.mem[v := Link(td.rsvList)], thrd := h.thrd[t := td.(rsvList := v, rsvCnt := td.rsvCnt + 1)]),
              RsvPush(p, t, v))
  {
    ThreadOf(h, p, t);
    var td, th := h.thrd[t], p.threads[t];
    var h1 := h.(mem := h.mem[v := Link(td.rsvList)]);
    var q := p.(body := p.body - {v});
    WriteVecMove(h, p, v, Link(td.rsvList));
    ThreadOf(h1, q, t);
    PushStack(h1.mem, 1, td.rsvList, SPT_NULL, th.rsv, v);
    SetThreadMove(h1, q, t, td.(rsvList := v, rsvCnt := td.rsvCnt + 1), th.(rsv := [v] + th.rsv));
  }

  /** The record of a thread whose vec queue lost its head. */
  function DropVecHeadData(mem: Mem, td: ThreadData): ThreadData
    requires td.vecAllocOut in mem && mem[td.vecAllocOut].Buf?
  {
    var node := mem[td.vecAllocOut];
    var td1 := td.(vecListCnt := td.vecListCnt - 1, vecCnt := td.vecCnt - (if node.id == SPT_NULL then 1 else 2));
    if td.vecAllocOut == td.vecFreeIn then td1.(vecAllocOut := SPT_NULL, vecFreeIn := SPT_NULL)
    else td1.(vecAllocOut := node.next)
  }

  /** The record of a thread whose data queue lost its head, `next` being its link. */
  function DroppedData(td: ThreadData, next: nat): ThreadData {
    var td1 := td.(dataListCnt := td.dataListCnt - 1, dataCnt := td.dataCnt - 1);
    if td.dataAllocOut == td.dataFreeIn then td1.(dataAllocOut := SPT_NULL, dataFreeIn := SPT_NULL)
    else td1.(dataAllocOut := next)
  }

  function DropDataHeadData(mem: Mem, td: ThreadData): ThreadData
    requires td.dataAllocOut in mem && mem[td.dataAllocOut].Buf?
  {
    DroppedData(td, mem[td.dataAllocOut].next)
  }

  lemma VecHeadCell(h: Heap, p: Pool, t: nat)
    requires HeapRep(h, p) && Good(p) && t < |p.threads|
    ensures t < |h.thrd| && (h.thrd[t].vecAllocOut == SPT_NULL <==> p.threads[t].vbuf == [])
    ensures h.thrd[t].vecFreeIn == SPT_NULL <==> p.threads[t].vbuf == []
    ensures p.threads[t].vbuf != [] ==>
      var td, n := h.thrd[t], p.threads[t].vbuf[0];
      && td.vecAllocOut == n.carrier && n.carrier in h.mem && h.mem[n.carrier].Buf?
      && h.mem[n.carrier].tick == T.Masked(n.stamp) && h.mem[n.carrier].id == n.id
      && (td.vecAllocOut == td.vecFreeIn <==> |p.threads[t].vbuf| == 1)
  {
    ThreadOf(h, p, t);
    NullUnlisted(p, t);
    var b := p.threads[t].vbuf;
    if b != [] {
      VecEndsMeet(p, t);
      assert Carriers(b)[0] == b[0].carrier && Carriers(b)[|b| - 1] == b[|b| - 1].carrier;
      assert NodeAt(h.mem, b, 0);
    }
  }

  lemma DataHeadCell(h: Heap, p: Pool, t: nat)
    requires HeapRep(h, p) && Good(p) && t < |p.threads|
    ensures t < |h.thrd| && (h.thrd[t].dataAllocOut == SPT_NULL <==> p.threads[t].dbuf == [])
    ensures h.thrd[t].dataFreeIn == SPT_NULL <==> p.threads[t].dbuf == []
    ensures p.threads[t].dbuf != [] ==>
      var td, n := h.thrd[t], p.threads[t].dbuf[0];
      && td.dataAllocOut == n.carrier && n.carrier in h.mem && h.mem[n.carrier].Buf?
      && h.mem[n.carrier].tick == T.Masked(n.stamp) && h.mem[n.carrier].id == n.id
      && (td.dataAllocOut == td.dataFreeIn <==> |p.threads[t].dbuf| == 1)
  {
    ThreadOf(h, p, t);
    NullUnlisted(p, t);
    var b := p.threads[t].dbuf;
    if b != [] {
      DataEndsMeet(p, t);
      assert Carriers(b)[0] == b[0].carrier && Carriers(b)[|b| - 1] == b[|b| - 1].carrier;
      assert NodeAt(h.mem, b, 0);
    }
  }

  lemma DropVecHeadMove(h: Heap, p: Pool, t: nat)
    requires HeapRep(h, p) && Good(p) && t < |p.threads| && p.threads[t].vbuf != []
    ensures t < |h.thrd| && h.thrd[t].vecAllocOut in h.mem && h.mem[h.thrd[t].vecAllocOut].Buf?
    ensures HeapRep(h.(thrd := h.thrd[t := DropVecHeadData(h.mem, h.thrd[t])]),
                    SetThread(p, t, p.threads[t].(vbuf := p.threads[t].vbuf[1..])))
  {
    VecHeadCell(h, p, t);
    ThreadOf(h, p, t);
    var td, th := h.thrd[t], p.threads[t];
    if |th.vbuf| > 1 { PopQueue(h.mem, td.vecFreeIn, td.vecAllocOut, th.vbuf); }
    QueueTail(p.tick, th);
    SetThreadMove(h, p, t, DropVecHeadData(h.mem, td), th.(vbuf := th.vbuf[1..]));
  }

  lemma DropDataHeadMove(h: Heap, p: Pool, t: nat)
    requires HeapRep(h, p) && Good(p) && t < |p.threads| && p.threads[t].dbuf != []
    ensures t < |h.thrd| && h.thrd[t].dataAllocOut in h.mem && h.mem[h.thrd[t].dataAllocOut].Buf?
    ensures HeapRep(h.(thrd := h.thrd[t := DropDataHeadData(h.mem, h.thrd[t])]),
                    SetThread(p, t, p.threads[t].(dbuf := p.threads[t].dbuf[1..])))
  {
    DataHeadCell(h, p, t);
    ThreadOf(h, p, t);
    var td, th := h.thrd[t], p.threads[t];
    if |th.dbuf| > 1 { PopQueue(h.mem, td.dataFreeIn, td.dataAllocOut, th.dbuf); }
    SetThreadMove(h, p, t, DropDataHeadData(h.mem, td), th.(dbuf := th.dbuf[1..]));
  }

  /** Rewriting a carrier's word touches nothing but its own queue. */
  lemma VecCarrierMove(h: Heap, p: Pool, t: nat, c: nat, cell: Cell, td: ThreadData, buf: seq<Node>)
    requires HeapRep(h, p) && t < |p.threads| && t < |h.thrd| && Free(SetThread(p, t, p.threads[t].(vbuf := [])), c)
    requires td == h.thrd[t].(vecFreeIn := td.vecFreeIn, vecAllocOut := td.vecAllocOut,
                              vecCnt := td.vecCnt, vecListCnt := td.vecListCnt)
    requires QueueRep(h.mem[c := cell], td.vecFreeIn, td.vecAllocOut, buf)
    requires td.vecListCnt == |buf| && td.vecCnt == 2 * |buf| - One(Spent(buf))
    ensures HeapRep(h.(mem := h.mem[c := cell], thrd := h.thrd[t := td]),
                    SetThread(p, t, p.threads[t].(vbuf := buf)))
  {
    ThreadOf(h, p, t);
    var th := p.threads[t];
    var td0 := h.thrd[t].(vecFreeIn := SPT_NULL, vecAllocOut := SPT_NULL, vecCnt := 0, vecListCnt := 0);
    var h0, p0 := h.(thrd := h.thrd[t := td0]), SetThread(p, t, th.(vbuf := []));
    SetThreadMove(h, p, t, td0, th.(vbuf := []));
    HeapWrite(h0, p0, c, cell);
    var h1 := h0.(mem := h.mem[c := cell]);
    ThreadOf(h1, p0, t);
    SetThreadMove(h1, p0, t, td, th.(vbuf := buf));
    assert h0.thrd[t := td] == h.thrd[t := td];
    assert p0.threads[t := th.(vbuf := buf)] == p.threads[t := th.(vbuf := buf)];
  }

  lemma DataCarrierMove(h: Heap, p: Pool, t: nat, c: nat, cell: Cell, td: ThreadData, buf: seq<Node>)
    requires HeapRep(h, p) && t < |p.threads| && t < |h.thrd| && Free(SetThread(p, t, p.threads[t].(dbuf := [])), c)
    requires td == h.thrd[t].(dataFreeIn := td.dataFreeIn, dataAllocOut := td.dataAllocOut,
                              dataCnt := td.dataCnt, dataListCnt := td.dataListCnt)
    requires QueueRep(h.mem[c := cell], td.dataFreeIn, td.dataAllocOut, buf)
    requires td.dataListCnt == |buf| && td.dataCnt == |buf|
    ensures HeapRep(h.(mem := h.mem[c := cell], thrd := h.thrd[t := td]),
                    SetThread(p, t, p.threads[t].(dbuf := buf)))
  {
    ThreadOf(h, p, t);
    var th := p.threads[t];
    var td0 := h.thrd[t].(dataFreeIn := SPT_NULL, dataAllocOut := SPT_NULL, dataCnt := 0, dataListCnt := 0);
    var h0, p0 := h.(thrd := h.thrd[t := td0]), SetThread(p, t, th.(dbuf := []));
    SetThreadMove(h, p, t, td0, th.(dbuf := []));
    HeapWrite(h0, p0, c, cell);
    var h1 := h0.(mem := h.mem[c := cell]);
    ThreadOf(h1, p0, t);
    SetThreadMove(h1, p0, t, td, th.(dbuf := buf));
    assert h0.thrd[t := td] == h.thrd[t := td];
    assert p0.threads[t := th.(dbuf := buf)] == p.threads[t := th.(dbuf := buf)];
  }

  // ---------------------------------------------------------------- splices

  ghost predicate SameLists(p: Pool, q: Pool) {
    && q.blks == p.blks && q.vecs == p.vecs && q.dbs == p.dbs && q.threads == p.threads
    && q.body == p.body && q.dbBody == p.dbBody
  }

  lemma SpliceBlks(h: Heap, p: Pool, base: nat, q: Pool)
    requires HeapRep(h, p) && ChainRep(h.mem, BLK_WORDS, base, BLK_PER_PG)
    requires (base + BLK_PER_PG - 1) * BLK_WORDS in h.mem && h.mem[(base + BLK_PER_PG - 1) * BLK_WORDS] == Link(h.blkHead)
    requires SameLists(p.(blks := Carved(base, BLK_PER_PG) + p.blks), q)
    ensures HeapRep(h.(blkHead := base), q)
  {
    PushChain(h.mem, BLK_WORDS, h.blkHead, NONE, p.blks, base, BLK_PER_PG);
  }

  lemma SpliceVecs(h: Heap, p: Pool, base: nat, q: Pool)
    requires HeapRep(h, p) && ChainRep(h.mem, 1, base, VEC_PER_BLK)
    requires base + VEC_PER_BLK - 1 in h.mem && h.mem[base + VEC_PER_BLK - 1] == Link(h.vecHead)
    requires SameLists(p.(vecs := Carved(base, VEC_PER_BLK) + p.vecs), q)
    ensures HeapRep(h.(vecHead := base), q)
  {
    PushChain(h.mem, 1, h.vecHead, NONE, p.vecs, base, VEC_PER_BLK);
  }

  lemma SpliceDbs(h: Heap, p: Pool, base: nat, q: Pool)
    requires HeapRep(h, p) && ChainRep(h.mem, DB_WORDS, base, DB_PER_BLK)
    requires (base + DB_PER_BLK - 1) * DB_WORDS in h.mem && h.mem[(base + DB_PER_BLK - 1) * DB_WORDS] == Link(h.dbHead)
    requires SameLists(p.(dbs := Carved(base, DB_PER_BLK) + p.dbs), q)
    ensures HeapRep(h.(dbHead := base), q)
  {
    PushChain(h.mem, DB_WORDS, h.dbHead, NONE, p.dbs, base, DB_PER_BLK);
  }

  // ---------------------------------------------------------------- queue ends

  lemma {:induction false} DistinctFromCounts(s: seq<nat>)
    requires forall x :: multiset(s)[x] <= 1
    ensures forall i, j :: 0 <= i < j < |s| ==> s[i] != s[j]
  {
    forall i, j | 0 <= i < j < |s| ensures s[i] != s[j] {
      assert s == s[..j] + s[j..];
      assert s[..j][i] == s[i] && s[j..][0] == s[j];
      assert multiset(s)[s[i]] == multiset(s[..j])[s[i]] + multiset(s[j..])[s[i]];
    }
  }

  lemma CarriersDistinct(p: Pool, t: nat)
    requires Inv(p) && t < |p.threads|
    ensures var b := p.threads[t].vbuf; forall i, j :: 0 <= i < j < |b| ==> b[i].carrier != b[j].carrier
    ensures var b := p.threads[t].dbuf; forall i, j :: 0 <= i < j < |b| ==> b[i].carrier != b[j].carrier
  {
    var vs, ds := Carriers(p.threads[t].vbuf), Carriers(p.threads[t].dbuf);
    forall x ensures multiset(vs)[x] <= 1 && multiset(ds)[x] <= 1 {
      if x in vs || x in ds { ShareExcludes(p, t, x); }
    }
    DistinctFromCounts(vs);
    DistinctFromCounts(ds);
    assert forall i :: 0 <= i < |vs| ==> vs[i] == p.threads[t].vbuf[i].carrier;
    assert forall i :: 0 <= i < |ds| ==> ds[i] == p.threads[t].dbuf[i].carrier;
  }

  ghost predicate Distinct(b: seq<Node>) {
    forall i, j :: 0 <= i < j < |b| ==> b[i].carrier != b[j].carrier
  }

  /** Spending the head rewrites its word and nothing else of the queue. */
  lemma SpentQueue(mem: Mem, freeIn: nat, allocOut: nat, b: seq<Node>)
    requires QueueRep(mem, freeIn, allocOut, b) && b != [] && Distinct(b)
    ensures b[0].carrier in mem && mem[b[0].carrier].Buf?
    ensures QueueRep(mem[b[0].carrier := mem[b[0].carrier].(id := SPT_NULL)], freeIn, allocOut,
                     [b[0].(id := SPT_NULL)] + b[1..])
  {
    assert NodeAt(mem, b, 0);
    var c := b[0].carrier;
    var b' := [b[0].(id := SPT_NULL)] + b[1..];
    var mem' := mem[c := mem[c].(id := SPT_NULL)];
    forall i: nat ensures NodeAt(mem', b', i) {
      assert NodeAt(mem, b, i);
    }
  }

  lemma SpendHeadMove(h: Heap, p: Pool, t: nat)
    requires HeapRep(h, p) && Good(p) && t < |p.threads|
    requires p.threads[t].vbuf != [] && !Spent(p.threads[t].vbuf)
    ensures t < |h.thrd| && h.thrd[t].vecAllocOut in h.mem && h.mem[h.thrd[t].vecAllocOut].Buf?
    ensures var td, b := h.thrd[t], p.threads[t].vbuf;
      HeapRep(h.(mem := h.mem[td.vecAllocOut := h.mem[td.vecAllocOut].(id := SPT_NULL)],
                 thrd := h.thrd[t := td.(vecCnt := td.vecCnt - 1)]),
              SetThread(p, t, p.threads[t].(vbuf := [b[0].(id := SPT_NULL)] + b[1..])))
  {
    ThreadOf(h, p, t);
    CarriersDistinct(p, t);
    var td, b := h.thrd[t], p.threads[t].vbuf;
    SpentQueue(h.mem, td.vecFreeIn, td.vecAllocOut, b);
    assert Carriers(b)[0] == b[0].carrier;
    CarrierFree(p, t, b[0].carrier);
    VecCarrierMove(h, p, t, b[0].carrier, h.mem[b[0].carrier].(id := SPT_NULL), td.(vecCnt := td.vecCnt - 1),
                   [b[0].(id := SPT_NULL)] + b[1..]);
  }

  /** Appending links the old tail to the new carrier. */
  lemma AppendedQueue(mem: Mem, freeIn: nat, allocOut: nat, b: seq<Node>, n: Node)
    requires QueueRep(mem, freeIn, allocOut, b) && b != [] && Distinct(b)
    requires n.carrier !in Carriers(b) && n.carrier in mem && mem[n.carrier].Buf?
    requires mem[n.carrier].tick == T.Masked(n.stamp) && mem[n.carrier].id == n.id
    ensures freeIn in mem && mem[freeIn].Buf?
    ensures QueueRep(mem[freeIn := mem[freeIn].(next := n.carrier)], n.carrier, allocOut, b + [n])
  {
    var k := |b| - 1;
    assert NodeAt(mem, b, k) && Carriers(b)[k] == freeIn;
    var mem' := mem[freeIn := mem[freeIn].(next := n.carrier)];
    forall i: nat ensures NodeAt(mem', b + [n], i) {
      assert NodeAt(mem, b, i);
      assert i < |b| ==> Carriers(b)[i] in Carriers(b);
    }
  }

  lemma QueueOfOne(mem: Mem, n: Node)
    requires n.carrier in mem && mem[n.carrier].Buf?
    requires mem[n.carrier].tick == T.Masked(n.stamp) && mem[n.carrier].id == n.id
    ensures QueueRep(mem, n.carrier, n.carrier, [n])
  {
  }

  /** The record after queuing carrier `c`. */
  function QueueVecData(td: ThreadData, c: nat): ThreadData {
    td.(vecAllocOut := if td.vecFreeIn == SPT_NULL then c else td.vecAllocOut, vecFreeIn := c,
        vecListCnt := td.vecListCnt + 1, vecCnt := td.vecCnt + 2)
  }

  function QueueDbData(td: ThreadData, c: nat): ThreadData {
    td.(dataAllocOut := if td.dataFreeIn == SPT_NULL then c else td.dataAllocOut, dataFreeIn := c,
        dataListCnt := td.dataListCnt + 1, dataCnt := td.dataCnt + 1)
  }

  /** The words after queuing: the carrier's, and the old tail's link if there was one. */
  function QueueMem(mem: Mem, freeIn: nat, c: nat, cell: Cell): Mem
  {
    var mem1 := mem[c := cell];
    if freeIn != SPT_NULL && freeIn in mem1 && mem1[freeIn].Buf?
    then mem1[freeIn := mem1[freeIn].(next := c)] else mem1
  }

  /** What queuing carrier `c` at the end of queue `b` relies on. */
  ghost predicate QueueReady(p: Pool, t: nat, freeIn: nat, b: seq<Node>, rest: Pool, c: nat) {
    && Free(p, c) && Distinct(b) && c !in Carriers(b)
    && (freeIn == SPT_NULL <==> b == []) && (b != [] ==> Free(rest, b[|b| - 1].carrier))
  }

  lemma QueueVecRep(h: Heap, p: Pool, t: nat, n: Node, next: nat)
    requires HeapRep(h, p) && t < |p.threads| && t < |h.thrd| && n.id != SPT_NULL
    requires QueueReady(p, t, h.thrd[t].vecFreeIn, p.threads[t].vbuf,
                        SetThread(p, t, p.threads[t].(vbuf := [])), n.carrier)
    ensures h.thrd[t].vecFreeIn != SPT_NULL ==>
              h.thrd[t].vecFreeIn != n.carrier && h.thrd[t].vecFreeIn in h.mem && h.mem[h.thrd[t].vecFreeIn].Buf?
    ensures var td := h.thrd[t];
      HeapRep(h.(mem := QueueMem(h.mem, td.vecFreeIn, n.carrier, Buf(T.Masked(n.stamp), n.id, next)),
                 thrd := h.thrd[t := QueueVecData(td, n.carrier)]),
              SetThread(p, t, p.threads[t].(vbuf := p.threads[t].vbuf + [n])))
  {
    var cell := Buf(T.Masked(n.stamp), n.id, next);
    var h1 := h.(mem := h.mem[n.carrier := cell]);
    HeapWrite(h, p, n.carrier, cell);
    ThreadOf(h1, p, t);
    var td, b := h.thrd[t], p.threads[t].vbuf;
    if b == [] {
      QueueOfOne(h1.mem, n);
      SetThreadMove(h1, p, t, QueueVecData(td, n.carrier), p.threads[t].(vbuf := b + [n]));
    } else {
      AppendedQueue(h1.mem, td.vecFreeIn, td.vecAllocOut, b, n);
      assert Carriers(b)[|b| - 1] == td.vecFreeIn;
      VecCarrierMove(h1, p, t, td.vecFreeIn, h1.mem[td.vecFreeIn].(next := n.carrier), QueueVecData(td, n.carrier), b + [n]);
    }
  }

  lemma QueueDbRep(h: Heap, p: Pool, t: nat, n: Node, next: nat)
    requires HeapRep(h, p) && t < |p.threads| && t < |h.thrd|
    requires QueueReady(p, t, h.thrd[t].dataFreeIn, p.threads[t].dbuf,
                        SetThread(p, t, p.threads[t].(dbuf := [])), n.carrier)
    ensures h.thrd[t].dataFreeIn != SPT_NULL ==>
              h.thrd[t].dataFreeIn != n.carrier && h.thrd[t].dataFreeIn in h.mem && h.mem[h.thrd[t].dataFreeIn].Buf?
    ensures var td := h.thrd[t];
      HeapRep(h.(mem := QueueMem(h.mem, td.dataFreeIn, n.carrier, Buf(T.Masked(n.stamp), n.id, next)),
                 thrd := h.thrd[t := QueueDbData(td, n.carrier)]),
              SetThread(p, t, p.threads[t].(dbuf := p.threads[t].dbuf + [n])))
  {
    var cell := Buf(T.Masked(n.stamp), n.id, next);
    var h1 := h.(mem := h.mem[n.carrier := cell]);
    HeapWrite(h, p, n.carrier, cell);
    ThreadOf(h1, p, t);
    var td, b := h.thrd[t], p.threads[t].dbuf;
    if b == [] {
      QueueOfOne(h1.mem, n);
      SetThreadMove(h1, p, t, QueueDbData(td, n.carrier), p.threads[t].(dbuf := b + [n]));
    } else {
      AppendedQueue(h1.mem, td.dataFreeIn, td.dataAllocOut, b, n);
      assert Carriers(b)[|b| - 1] == td.dataFreeIn;
      DataCarrierMove(h1, p, t, td.dataFreeIn, h1.mem[td.dataFreeIn].(next := n.carrier), QueueDbData(td, n.carrier), b + [n]);
    }
  }

  lemma FreeUnkept(p: Pool, c: nat)
    requires c !in p.body && Free(p.(body := p.body - {c}), c)
    ensures Free(p, c)
  {
    assert p.(body := p.body - {c}) == p;
  }

  lemma TailFree(p: Pool, t: nat)
    requires Good(p) && t < |p.threads|
    ensures var th := p.threads[t];
      && (th.vbuf != [] ==> Free(SetThread(p, t, th.(vbuf := [])), th.vbuf[|th.vbuf| - 1].carrier))
      && (th.dbuf != [] ==> Free(SetThread(p, t, th.(dbuf := [])), th.dbuf[|th.dbuf| - 1].carrier))
  {
    var th := p.threads[t];
    if th.vbuf != [] {
      assert Carriers(th.vbuf)[|th.vbuf| - 1] == th.vbuf[|th.vbuf| - 1].carrier;
      CarrierFree(p, t, th.vbuf[|th.vbuf| - 1].carrier);
    }
    if th.dbuf != [] {
      assert Carriers(th.dbuf)[|th.dbuf| - 1] == th.dbuf[|th.dbuf| - 1].carrier;
      CarrierFree(p, t, th.dbuf[|th.dbuf| - 1].carrier);
    }
  }

  /** Everything a carrier in a client's hands needs to be queued. */
  lemma CarrierReady(h: Heap, p: Pool, t: nat, c: nat)
    requires HeapRep(h, p) && Good(p) && t < |p.threads| && c in p.liveVecs && c !in p.body
    ensures t < |h.thrd|
    ensures QueueReady(p, t, h.thrd[t].vecFreeIn, p.threads[t].vbuf, SetThread(p, t, p.threads[t].(vbuf := [])), c)
    ensures QueueReady(p, t, h.thrd[t].dataFreeIn, p.threads[t].dbuf, SetThread(p, t, p.threads[t].(dbuf := [])), c)
  {
    VecHeadCell(h, p, t);
    DataHeadCell(h, p, t);
    LiveVecFree(p, c);
    FreeUnkept(p, c);
    LiveUnlisted(p, c);
    CarriersDistinct(p, t);
    TailFree(p, t);
  }
}

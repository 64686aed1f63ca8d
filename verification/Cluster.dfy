/** The allocator's state as the source keeps it, words and records updated in place, and
    its calls in the source's loops; each call does to the memory what its function in
    `PoolSpec` does to the lists. */
module ClusterHead {
  import opened Options
  import opened Layout
  import opened PoolSpec
  import opened PoolLaws
  import opened PoolSteps
  import opened ClusterRep
  import opened ClusterMoves
  import opened ClusterWords
  import R = PoolRuns
  import T = TickAge

  /** cluster_head_t and g_thrd_h->tick.  A word's number stands for its address: page,
      block, vec and db ids are scaled to words. */
  class Cluster {
    const env: Env
    var tick: nat
    var cursor: nat
    var mem: map<nat, Cell>
    var blkHead: int
    var vecHead: int
    var dbHead: int
    var freeBlk: int
    var freeVec: int
    var usedVec: int
    var freeDb: int
    var usedDb: int
    var dataTotal: int
    var status: Status
    var thrd: seq<ThreadData>
    var freed: seq<nat>
    /** The lists the memory spells, and the records as they would be if a walk under way
        had already written them back. */
    ghost var pool: Pool
    ghost var view: seq<ThreadData>

    ghost function H(): Heap
      reads this
    {
      Heap(mem, blkHead, vecHead, dbHead, view)
    }

    /** The counters agree with the lists: what is free and what is used add up to what
        was carved; the words are those of the installed pages. */
    ghost predicate Counted()
      reads this
    {
      && |view| == |pool.threads| && tick == pool.tick && cursor == pool.cursor && freed == pool.freed
      && freeBlk == |pool.blks| && freeVec == |pool.vecs| && freeDb == |pool.dbs|
      && freeVec + usedVec == VEC_PER_BLK * |pool.vecBlks|
      && freeDb + usedDb == DB_PER_BLK * |pool.dbBlks|
      && Granted(mem, pool.pages)
    }

    ghost predicate Ready()
      reads this
    {
      Sealed(H(), pool) && Counted()
    }

    ghost predicate Valid()
      reads this
    {
      Ready() && view == thrd
    }

    constructor (env: Env, n: nat)
      ensures Valid() && this.env == env && |thrd| == n && pool == R.Start(n)
      ensures status == Ok && dataTotal == 0
    {
      this.env := env;
      tick, cursor, mem := 0, 0, map[];
      blkHead, vecHead, dbHead := NONE, NONE, NONE;
      freeBlk, freeVec, usedVec, freeDb, usedDb := 0, 0, 0, 0, 0;
      dataTotal, status, freed := 0, Ok, [];
      thrd := seq(n, _ => NewThread());
      pool := R.Start(n);
      view := seq(n, _ => NewThread());
      new;
      R.StartGood(n);
      forall t: nat ensures ThreadAt(mem, thrd, pool.threads, t) {}
      Seal(H(), pool);
    }

    /** cluster_init: every thread's reserve is filled, then the root vec is taken. */
    static method ClusterInit(env: Env, n: nat, rootBits: int) returns (c: Cluster, root: Option<nat>)
      ensures fresh(c) && c.Valid() && c.env == env && |c.thrd| == n
      ensures (c.pool, root) == R.Initial(env, n, rootBits)
    {
      c := new Cluster(env, n);
      var i := 0;
      while i < n
        invariant 0 <= i <= n && fresh(c) && c.Valid() && c.env == env && |c.thrd| == n
        invariant |R.Start(n).threads| == n && c.pool == R.FillFirst(R.Start(n), env, i, RSV_CNT)
      {
        var _ := c.FillInRsvListSimple(RSV_CNT, i);
        i := i + 1;
      }
      root := c.VecAlloc();
      if root.Some? {
        VecAllocTaken(R.FillFirst(R.Start(n), env, n, RSV_CNT), env);
        c.WriteVec(root.value, rootBits);
      }
    }

    // -------------------------------------------------------------- pages and blocks

    /** The loop with which a page is carved into blocks and a block into vecs or dbs: each
        item links to the next, the last to the present head. */
    method LinkItems(base: nat, total: nat, scale: nat, head: int)
      requires total > 0 && scale > 0
      requires forall i: nat :: i < total ==> ItemIn(mem, scale, base, i)
      modifies `mem
      ensures ChainRep(mem, scale, base, total)
      ensures (base + total - 1) * scale in mem && mem[(base + total - 1) * scale] == Link(head)
      ensures WritesWithin(old(mem), mem, base * scale, (base + total - 1) * scale)
    {
      var i := 1;
      while i < total
        invariant 1 <= i <= total
        invariant WritesWithin(old(mem), mem, base * scale, (base + total - 1) * scale)
        invariant ChainRep(mem, scale, base, i)
      {
        ScaledBetween(base, i - 1, total, scale);
        assert ItemIn(old(mem), scale, base, i - 1);
        ChainGrow(mem, scale, base, i, Link(base + i));
        mem := mem[(base + i - 1) * scale := Link(base + i)];
        i := i + 1;
      }
      ScaledBetween(base, total - 1, total, scale);
      assert ItemIn(old(mem), scale, base, total - 1);
      ChainGrow(mem, scale, base, total, Link(head));
      mem := mem[(base + total - 1) * scale := Link(head)];
    }

    /** The second half of cluster_add_page: the granted page is installed, carved into
        blocks and spliced onto their stack. */
    method InstallPage(pgId: nat)
      requires Ready() && pgId < cursor && pgId !in pool.pages
      modifies `mem, `blkHead, `freeBlk, `pool
      ensures Ready()
      ensures pool == PoolSpec.InstallPage(old(pool), pgId)
    {
      ghost var h := H();
      FreshWords(mem, pool.pages, pgId);
      mem := mem + ZeroPage(pgId);
      var id := pgId * BLK_PER_PG;
      LinkItems(id, BLK_PER_PG, BLK_WORDS, blkHead);
      PageCarved(h, h.mem + ZeroPage(pgId), mem, pool, pgId);
      blkHead := id;
      freeBlk := freeBlk + BLK_PER_PG;
      pool := PoolSpec.InstallPage(pool, pgId);
    }

    method AddPage() returns (ok: bool)
      requires Ready()
      modifies `cursor, `mem, `blkHead, `freeBlk, `pool
      ensures Ready()
      ensures (pool, ok) == PoolSpec.AddPage(old(pool), env)
    {
      cursor := cursor + 1;
      var pgId := cursor;
      if PG_NUM_MAX <= pgId {
        cursor := cursor - 1;
        return false;
      }
      Unseal(H(), pool);
      CursorKeeps(pool);
      SwapBodies(H(), pool, pool.(cursor := cursor));
      pool := pool.(cursor := cursor);
      Seal(H(), pool);
      pgId := pgId - 1;
      if !env.grant(pgId) { return false; }
      InstallPage(pgId);
      return true;
    }

    method BlkPop() returns (id: nat)
      requires Ready() && pool.blks != []
      modifies `blkHead, `freeBlk, `pool
      ensures Ready()
      ensures pool == TakeBlk(old(pool)) && id == old(pool).blks[0]
    {
      Unseal(H(), pool);
      TakeBlkMove(H(), pool, TakeBlk(pool));
      TakeGood(pool);
      id := blkHead;
      var newHead := mem[id * BLK_WORDS].to;
      blkHead := newHead;
      freeBlk := freeBlk - 1;
      pool := TakeBlk(pool);
      Seal(H(), pool);
    }

    method BlkAlloc() returns (blk: Option<nat>)
      requires Ready()
      modifies `cursor, `mem, `blkHead, `freeBlk, `pool
      ensures Ready()
      ensures (pool, blk) == PoolSpec.BlkAlloc(old(pool), env)
    {
      var tryCnts := 0;
      HeadsTell(H(), pool);
      while blkHead == NONE
        invariant Ready() && tryCnts <= 1 && (blkHead == NONE <==> pool.blks == [])
        invariant tryCnts == 0 && pool.blks == [] ==> pool == old(pool)
        invariant pool.blks != [] ==> RefillBlks(old(pool), env) == pool
        invariant tryCnts == 1 && pool.blks == [] ==> RefillBlks(old(pool), env) == PoolSpec.AddPage(pool, env).0
        decreases 1 - tryCnts, if blkHead == NONE then 1 else 0
      {
        var ok := AddPage();
        HeadsTell(H(), pool);
        if !ok {
          if tryCnts != 0 { return None; }
          tryCnts := tryCnts + 1;
        }
      }
      var id := BlkPop();
      return Some(id);
    }

    /** The second half of vec_add_blk: the block is carved and spliced. */
    method CarveVecs(b: nat)
      requires Ready() && b in pool.outBlks
      modifies `mem, `vecHead, `freeVec, `pool
      ensures Ready() && pool == PoolSpec.CarveVecs(old(pool), b)
    {
      ghost var h := H();
      OutBlkWords(h, pool, b);
      var id := b * VEC_PER_BLK;
      LinkItems(id, VEC_PER_BLK, 1, vecHead);
      VecsCarved(h, mem, pool, b);
      vecHead := id;
      freeVec := freeVec + VEC_PER_BLK;
      pool := PoolSpec.CarveVecs(pool, b);
    }

    method VecAddBlk() returns (ok: bool)
      requires Ready()
      modifies `cursor, `mem, `blkHead, `vecHead, `freeBlk, `freeVec, `pool
      ensures Ready()
      ensures (pool, ok) == PoolSpec.VecAddBlk(old(pool), env)
    {
      var blk := BlkAlloc();
      if blk.None? { return false; }
      CarveVecs(blk.value);
      return true;
    }

    method CarveDbs(b: nat)
      requires Ready() && b in pool.outBlks
      modifies `mem, `dbHead, `freeDb, `pool
      ensures Ready() && pool == PoolSpec.CarveDbs(old(pool), b)
    {
      ghost var h := H();
      OutBlkWords(h, pool, b);
      var id := b * DB_PER_BLK;
      LinkItems(id, DB_PER_BLK, DB_WORDS, dbHead);
      DbsCarved(h, mem, pool, b);
      dbHead := id;
      freeDb := freeDb + DB_PER_BLK;
      pool := PoolSpec.CarveDbs(pool, b);
    }

    method DbAddBlk() returns (ok: bool)
      requires Ready()
      modifies `cursor, `mem, `blkHead, `dbHead, `freeBlk, `freeDb, `pool
      ensures Ready()
      ensures (pool, ok) == PoolSpec.DbAddBlk(old(pool), env)
    {
      var blk := BlkAlloc();
      if blk.None? { return false; }
      CarveDbs(blk.value);
      return true;
    }

    // -------------------------------------------------------------- vecs and dbs

    method VecPop() returns (id: nat)
      requires Ready() && pool.vecs != []
      modifies `vecHead, `freeVec, `usedVec, `pool
      ensures Ready()
      ensures pool == TakeVec(old(pool)) && id == old(pool).vecs[0]
    {
      Unseal(H(), pool);
      TakeVecMove(H(), pool);
      TakeGood(pool);
      id := vecHead;
      var newHead := mem[id].to;
      vecHead := newHead;
      freeVec := freeVec - 1;
      usedVec := usedVec + 1;
      pool := TakeVec(pool);
      Seal(H(), pool);
    }

    /** The garbage the source leaves in `try_cnts` decides whether a failed block is asked
        for a second time. */
    method VecAlloc() returns (vec: Option<nat>)
      requires Ready()
      modifies `cursor, `mem, `blkHead, `vecHead, `freeBlk, `freeVec, `usedVec, `pool
      ensures Ready()
      ensures (pool, vec) == PoolSpec.VecAlloc(old(pool), env)
    {
      var tryCnts := env.junk(cursor);
      ghost var failed := false;
      HeadsTell(H(), pool);
      while vecHead == NONE
        invariant Ready() && (vecHead == NONE <==> pool.vecs == [])
        invariant !failed && pool.vecs == [] ==> pool == old(pool) && tryCnts == env.junk(old(pool).cursor)
        invariant pool.vecs != [] ==> RefillVecs(old(pool), env) == pool
        invariant failed ==> tryCnts == 0
        invariant failed && pool.vecs == [] ==> RefillVecs(old(pool), env) == PoolSpec.VecAddBlk(pool, env).0
        decreases if failed then 0 else 1, if vecHead == NONE then 1 else 0
      {
        var ok := VecAddBlk();
        HeadsTell(H(), pool);
        if !ok {
          tryCnts := tryCnts + 1;
          if tryCnts != 0 { return None; }
          failed := true;
        }
      }
      var id := VecPop();
      return Some(id);
    }

    method DbPop() returns (id: nat)
      requires Ready() && pool.dbs != []
      modifies `mem, `dbHead, `freeDb, `usedDb, `pool
      ensures Ready()
      ensures pool == TakeDb(old(pool)) && id == old(pool).dbs[0]
    {
      DbPopped(H(), pool);
      id := dbHead;
      var newHead := mem[id * DB_WORDS].to;
      dbHead := newHead;
      freeDb := freeDb - 1;
      usedDb := usedDb + 1;
      mem := mem[id * DB_WORDS := DbHead(0)][id * DB_WORDS + 1 := DbData(0)];
      pool := TakeDb(pool);
    }

    method DbAlloc() returns (db: Option<nat>)
      requires Ready()
      modifies `cursor, `mem, `blkHead, `dbHead, `freeBlk, `freeDb, `usedDb, `pool
      ensures Ready()
      ensures (pool, db) == PoolSpec.DbAlloc(old(pool), env)
    {
      var tryCnts := 0;
      HeadsTell(H(), pool);
      while dbHead == NONE
        invariant Ready() && (dbHead == NONE <==> pool.dbs == []) && tryCnts <= 1
        invariant tryCnts == 0 && pool.dbs == [] ==> pool == old(pool)
        invariant pool.dbs != [] ==> RefillDbs(old(pool), env) == pool
        invariant tryCnts == 1 && pool.dbs == [] ==> RefillDbs(old(pool), env) == PoolSpec.DbAddBlk(pool, env).0
        decreases 1 - tryCnts, if dbHead == NONE then 1 else 0
      {
        var ok := DbAddBlk();
        HeadsTell(H(), pool);
        if !ok {
          if tryCnts != 0 { return None; }
          tryCnts := tryCnts + 1;
        }
      }
      var id := DbPop();
      return Some(id);
    }

    method VecFree(id: nat)
      requires Ready() && id in pool.liveVecs
      modifies `mem, `vecHead, `freeVec, `usedVec, `pool
      ensures Ready()
      ensures pool == PoolSpec.VecFree(old(pool), id)
      ensures mem == old(mem)[id := Link(old(vecHead))]
    {
      Unseal(H(), pool);
      FreeVecMove(H(), pool, id);
      VecFreeGood(pool, id);
      VecWordIn(mem, pool, id, Link(vecHead));
      var oldHead := vecHead;
      mem := mem[id := Link(oldHead)];
      vecHead := id;
      freeVec := freeVec + 1;
      usedVec := usedVec - 1;
      pool := PoolSpec.VecFree(pool, id);
      Seal(H(), pool);
    }

    method DbFree(id: nat)
      requires Ready() && id in pool.liveDbs
      modifies `mem, `dbHead, `freeDb, `usedDb, `pool
      ensures Ready()
      ensures pool == PoolSpec.DbFree(old(pool), id)
      ensures mem == old(mem)[id * DB_WORDS := Link(old(dbHead))]
    {
      Unseal(H(), pool);
      FreeDbMove(H(), pool, id);
      DbFreeGood(pool, id);
      LiveDbWordsIn(mem, pool, id, Link(dbHead));
      var oldHead := dbHead;
      mem := mem[id * DB_WORDS := Link(oldHead)];
      dbHead := id;
      freeDb := freeDb + 1;
      usedDb := usedDb - 1;
      pool := PoolSpec.DbFree(pool, id);
      Seal(H(), pool);
    }

    // -------------------------------------------------------------- queue heads

    /** The head of the vec queue leaves the lists; the record is yet to be written back. */
    ghost method UnlinkVecHead(t: nat)
      requires Ready() && t < |view| && pool.threads[t].vbuf != []
      modifies `view, `pool
      ensures Ready() && pool == UnlinkVec(old(pool), t)
      ensures IsHead(mem, old(pool).threads[t].vbuf, old(view)[t].vecAllocOut, old(view)[t].vecFreeIn)
      ensures view == old(view)[t := DropVecHeadData(mem, old(view)[t])]
    {
      Unseal(H(), pool);
      var q := UnlinkVec(pool, t);
      DropVecHeadMove(H(), pool, t);
      VecHeadCell(H(), pool, t);
      UnlinkVecGood(pool, t);
      view := view[t := DropVecHeadData(mem, view[t])];
      SwapBodies(H(), SetThread(pool, t, q.threads[t]), q);
      pool := q;
      Seal(H(), pool);
    }

    ghost method UnlinkDbHead(t: nat)
      requires Ready() && t < |view| && pool.threads[t].dbuf != []
      modifies `view, `pool
      ensures Ready() && pool == UnlinkDb(old(pool), t)
      ensures IsHead(mem, old(pool).threads[t].dbuf, old(view)[t].dataAllocOut, old(view)[t].dataFreeIn)
      ensures view == old(view)[t := DropDataHeadData(mem, old(view)[t])]
    {
      Unseal(H(), pool);
      var q := UnlinkDb(pool, t);
      DropDataHeadMove(H(), pool, t);
      DataHeadCell(H(), pool, t);
      UnlinkDbGood(pool, t);
      view := view[t := DropDataHeadData(mem, view[t])];
      SwapBodies(H(), SetThread(pool, t, q.threads[t]), q);
      pool := q;
      Seal(H(), pool);
    }

    /** The head's id is taken and its node spent. */
    method SpendVecHead(t: nat, node: Cell)
      requires Valid() && t < |thrd| && pool.threads[t].vbuf != [] && !Spent(pool.threads[t].vbuf)
      requires NodeExpired(pool, pool.threads[t].vbuf[0])
      requires thrd[t].vecAllocOut in mem && mem[thrd[t].vecAllocOut] == node && node.Buf?
      modifies `mem, `thrd, `view, `pool
      ensures Valid() && pool == PoolSpec.VecAllocFromBuf(old(pool), t).0
    {
      Unseal(H(), pool);
      ghost var q := PoolSpec.VecAllocFromBuf(pool, t).0;
      SpendHeadMove(H(), pool, t);
      SpendGood(pool, t);
      GrantedWrite(mem, pool.pages, thrd[t].vecAllocOut, node.(id := SPT_NULL));
      mem := mem[thrd[t].vecAllocOut := node.(id := SPT_NULL)];
      thrd := thrd[t := thrd[t].(vecCnt := thrd[t].vecCnt - 1)];
      view := thrd;
      SwapBodies(H(), SetThread(pool, t, q.threads[t]), q);
      pool := q;
      Seal(H(), pool);
    }

    method VecAllocFromBuf(t: nat) returns (vec: Option<nat>)
      requires Valid() && t < |thrd|
      modifies `mem, `thrd, `view, `pool
      ensures Valid() && |thrd| == old(|thrd|)
      ensures (pool, vec) == PoolSpec.VecAllocFromBuf(old(pool), t)
    {
      VecHeadTells(H(), pool, t);
      var listVecId := thrd[t].vecAllocOut;
      if listVecId == SPT_NULL { return None; }
      var node := mem[listVecId];
      if node.id == SPT_NULL {
        SpentSteps(pool, t);
        UnlinkVecHead(t);
        if thrd[t].vecAllocOut == thrd[t].vecFreeIn {
          thrd := thrd[t := thrd[t].(vecAllocOut := SPT_NULL, vecFreeIn := SPT_NULL)];
        } else {
          thrd := thrd[t := thrd[t].(vecAllocOut := node.next)];
        }
        thrd := thrd[t := thrd[t].(vecCnt := thrd[t].vecCnt - 1, vecListCnt := thrd[t].vecListCnt - 1)];
        return Some(listVecId);
      }
      var tk: nat := T.Masked(tick);
      if tk < node.tick { tk := tk + T.WINDOW; }
      if tk - node.tick < 2 { return None; }
      SpendVecHead(t, node);
      return Some(node.id);
    }

    /** The data of a db goes to the client's callback if it is flagged for it. */
    method FreeDataOf(d: nat)
      requires Ready() && d in pool.dbBody
      modifies `freed, `pool
      ensures Ready() && pool == old(pool).(freed := old(pool).freed + FreeData(old(pool), d))
    {
      Unseal(H(), pool);
      ghost var q := pool.(freed := pool.freed + FreeData(pool, d));
      assert DbAt(mem, d, pool.dbBody[d]);
      GoodIgnoresData(pool, q);
      SwapBodies(H(), pool, q);
      var pdata := mem[d * DB_WORDS + 1].pdata;
      if pdata != 0 && mem[d * DB_WORDS].rsv % 2 == 1 {
        freed := freed + [pdata];
      }
      pool := q;
      Seal(H(), pool);
    }

    /** A db's header is cleared for its next owner. */
    method ClearRsv(d: nat)
      requires Ready() && d in pool.dbBody
      modifies `mem, `pool
      ensures Ready() && pool == old(pool).(dbBody := old(pool).dbBody[d := old(pool).dbBody[d].(rsv := 0)])
      ensures forall w :: w in old(mem) && w / VEC_PER_BLK in pool.vecBlks ==> w in mem && mem[w] == old(mem)[w]
    {
      Unseal(H(), pool);
      ghost var b := pool.dbBody[d].(rsv := 0);
      ghost var q := pool.(dbBody := pool.dbBody[d := b]);
      KeptDbWords(mem, pool, d, b);
      assert DbAt(mem, d, pool.dbBody[d]);
      WriteDbMove(H(), pool, d, b);
      GoodIgnoresData(pool, q);
      SameDbWords(mem, d, b);
      mem := mem[d * DB_WORDS := DbHead(0)];
      pool := q;
      Seal(H(), pool);
    }

    /** The record of a thread whose data queue lost its head. */
    method DropDataHead(t: nat, node: Cell)
      requires t < |thrd| && node.Buf?
      modifies `thrd
      ensures thrd == old(thrd)[t := DroppedData(old(thrd)[t], node.next)]
    {
      if thrd[t].dataAllocOut == thrd[t].dataFreeIn {
        thrd := thrd[t := thrd[t].(dataAllocOut := SPT_NULL, dataFreeIn := SPT_NULL)];
      } else {
        thrd := thrd[t := thrd[t].(dataAllocOut := node.next)];
      }
      thrd := thrd[t := thrd[t].(dataCnt := thrd[t].dataCnt - 1, dataListCnt := thrd[t].dataListCnt - 1)];
    }

    /** The second half of db_alloc_from_buf: the head's db is the caller's and its
        carrier goes back to the free stack. */
    method TakeDbHead(t: nat, listVecId: nat, node: Cell)
      requires Valid() && t < |thrd| && pool.threads[t].dbuf != []
      requires NodeExpired(pool, pool.threads[t].dbuf[0])
      requires thrd[t].dataAllocOut == listVecId && listVecId in mem && mem[listVecId] == node && node.Buf?
      modifies `mem, `vecHead, `freeVec, `usedVec, `thrd, `view, `freed, `pool
      ensures Valid() && |thrd| == old(|thrd|)
      ensures pool == PoolSpec.DbAllocFromBuf(old(pool), t).0
    {
      DbTakenInSteps(H(), pool, t);
      UnlinkDbHead(t);
      FreeDataOf(node.id);
      ClearRsv(node.id);
      DropDataHead(t, node);
      VecFree(listVecId);
    }

    method DbAllocFromBuf(t: nat) returns (db: Option<nat>)
      requires Valid() && t < |thrd|
      modifies `mem, `vecHead, `freeVec, `usedVec, `thrd, `view, `freed, `pool
      ensures Valid() && |thrd| == old(|thrd|)
      ensures (pool, db) == PoolSpec.DbAllocFromBuf(old(pool), t)
    {
      DataHeadTells(H(), pool, t);
      var listVecId := thrd[t].dataAllocOut;
      if listVecId == SPT_NULL { return None; }
      var node := mem[listVecId];
      var tk: nat := T.Masked(tick);
      if tk < node.tick { tk := tk + T.WINDOW; }
      if tk - node.tick < 2 { return None; }
      TakeDbHead(t, listVecId, node);
      return Some(node.id);
    }

    method VecAllocCombo(t: nat) returns (vec: Option<nat>)
      requires Valid() && t < |thrd|
      modifies `cursor, `mem, `blkHead, `vecHead, `freeBlk, `freeVec, `usedVec, `thrd, `view, `pool
      ensures Valid() && |thrd| == old(|thrd|)
      ensures (pool, vec) == PoolSpec.VecAllocCombo(old(pool), env, t)
    {
      vec := VecAllocFromBuf(t);
      if vec.None? { vec := VecAlloc(); }
    }

    method DataAllocCombo(t: nat) returns (db: Option<nat>)
      requires Valid() && t < |thrd|
      modifies `cursor, `mem, `blkHead, `vecHead, `dbHead, `freeBlk, `freeVec, `usedVec, `freeDb, `usedDb,
               `dataTotal, `thrd, `view, `freed, `pool
      ensures Valid() && |thrd| == old(|thrd|)
      ensures (pool, db) == PoolSpec.DataAllocCombo(old(pool), env, t)
      ensures dataTotal == old(dataTotal) + One(db.Some?)
    {
      db := DbAllocFromBuf(t);
      if db.None? {
        db := DbAlloc();
        if db.None? { return None; }
      }
      dataTotal := dataTotal + 1;
    }

    // -------------------------------------------------------------- reserves

    method RsvListFillCnt(t: nat) returns (nr: int)
      requires Valid() && t < |thrd|
      ensures nr == 5 - |pool.threads[t].rsv|
    {
      ListCounts(H(), pool, t);
      return RSV_CNT - thrd[t].rsvCnt;
    }

    method VecAllocFromRsvList(t: nat) returns (id: nat)
      requires Valid() && t < |thrd| && pool.threads[t].rsv != []
      modifies `thrd, `view, `pool
      ensures Valid() && |thrd| == old(|thrd|)
      ensures pool == RsvPop(old(pool), t) && id == old(pool).threads[t].rsv[0]
    {
      Unseal(H(), pool);
      ghost var q := RsvPop(pool, t);
      RsvPopMove(H(), pool, t);
      RsvPopGood(pool, t);
      id := thrd[t].rsvList;
      thrd := thrd[t := thrd[t].(rsvList := mem[id].to, rsvCnt := thrd[t].rsvCnt - 1)];
      view := thrd;
      SwapBodies(H(), SetThread(pool, t, q.threads[t]), q);
      pool := q;
      Seal(H(), pool);
    }

    method RsvPush(t: nat, id: nat)
      requires Valid() && t < |thrd| && id in pool.liveVecs
      modifies `mem, `thrd, `view, `pool
      ensures Valid() && |thrd| == old(|thrd|)
      ensures pool == PoolSpec.RsvPush(old(pool), t, id)
    {
      Unseal(H(), pool);
      RsvPushMove(H(), pool, t, id);
      RsvPushGood(pool, t, id);
      VecWordIn(mem, pool, id, Link(thrd[t].rsvList));
      mem := mem[id := Link(thrd[t].rsvList)];
      thrd := thrd[t := thrd[t].(rsvList := id, rsvCnt := thrd[t].rsvCnt + 1)];
      view := thrd;
      pool := PoolSpec.RsvPush(pool, t, id);
      Seal(H(), pool);
    }

    method FillInRsvListSimple(nr: int, t: nat) returns (st: Status)
      requires Valid() && t < |thrd|
      modifies `cursor, `mem, `blkHead, `vecHead, `freeBlk, `freeVec, `usedVec, `thrd, `view, `pool
      ensures Valid() && |thrd| == old(|thrd|)
      ensures (pool, st) == FillEnd(old(pool), env, t, nr)
    {
      var left := nr;
      while left > 0
        invariant Valid() && |thrd| == old(|thrd|)
        invariant FillEnd(pool, env, t, left) == FillEnd(old(pool), env, t, nr)
        decreases left
      {
        FillStep(pool, env, t, left);
        var vec := VecAllocCombo(t);
        if vec.None? { return NoMem; }
        RsvPush(t, vec.value);
        left := left - 1;
      }
      return Ok;
    }

    // -------------------------------------------------------------- freeing the aged

    /** One turn of the vec_buf_free loop: the node's parked id, then its carrier. */
    method ReleaseVecHead(t: nat, listVecId: nat) returns (next: nat)
      requires Ready() && t < |thrd| && |view| == |thrd| && view == thrd[t := thrd[t].(vecAllocOut := listVecId)]
      requires |pool.threads[t].vbuf| > 1
      modifies `mem, `vecHead, `freeVec, `usedVec, `thrd, `view, `pool
      ensures Ready() && pool == ReleaseVec(old(pool), t)
      ensures |view| == |thrd| == old(|thrd|) && view == thrd[t := thrd[t].(vecAllocOut := next)]
    {
      VecHeadTells(H(), pool, t);
      VecReleasedInSteps(H(), pool, t);
      var node := mem[listVecId];
      UnlinkVecHead(t);
      if node.id != SPT_NULL {
        VecFree(node.id);
        thrd := thrd[t := thrd[t].(vecCnt := thrd[t].vecCnt - 1)];
      }
      next := node.next;
      VecFree(listVecId);
      thrd := thrd[t := thrd[t].(vecListCnt := thrd[t].vecListCnt - 1, vecCnt := thrd[t].vecCnt - 1)];
    }

    method VecBufFree(t: nat)
      requires Valid() && t < |thrd|
      modifies `mem, `vecHead, `freeVec, `usedVec, `thrd, `view, `pool
      ensures Valid() && |thrd| == old(|thrd|)
      ensures pool == PoolSpec.VecBufFree(old(pool), t)
    {
      ghost var goal := PoolSpec.VecBufFree(pool, t);
      WalksStart(pool, t);
      WalkVecs(t, T.Masked(tick), thrd[t].vecAllocOut, goal);
    }

    /** The walk takes node `id`. */
    method VecWalkTakes(t: nat, id: nat, tk: nat, ghost goal: Pool) returns (next: nat)
      requires Ready() && t < |thrd| && |view| == |thrd| && view == thrd[t := thrd[t].(vecAllocOut := id)]
      requires |pool.threads[t].vbuf| > 1 && VecGoesOn(pool, t, tk, goal)
      modifies `mem, `vecHead, `freeVec, `usedVec, `thrd, `view, `pool
      ensures Ready() && VecWalkEnds(pool, t, tk, goal)
      ensures |view| == |thrd| == old(|thrd|) && view == thrd[t := thrd[t].(vecAllocOut := next)]
      ensures |pool.threads[t].vbuf| < |old(pool).threads[t].vbuf|
    {
      assert VecGoesOnIf(true, pool, t, tk, goal);
      next := ReleaseVecHead(t, id);
    }

    method DbWalkTakes(t: nat, id: nat, tk: nat, ghost goal: Pool) returns (next: nat)
      requires Ready() && t < |thrd| && |view| == |thrd| && view == thrd[t := thrd[t].(dataAllocOut := id)]
      requires |pool.threads[t].dbuf| > 1 && DbGoesOn(pool, t, tk, goal)
      modifies `mem, `vecHead, `dbHead, `freeVec, `usedVec, `freeDb, `usedDb, `thrd, `view, `freed, `pool
      ensures Ready() && DbWalkEnds(pool, t, tk, goal)
      ensures |view| == |thrd| == old(|thrd|) && view == thrd[t := thrd[t].(dataAllocOut := next)]
      ensures |pool.threads[t].dbuf| < |old(pool).threads[t].dbuf|
    {
      assert DbGoesOnIf(true, pool, t, tk, goal);
      next := ReleaseDbHead(t, id);
    }

    /** The walk ends at node `id`, which becomes the head. */
    method VecWalkStops(t: nat, id: nat)
      requires Ready() && t < |thrd| && |view| == |thrd| && view == thrd[t := thrd[t].(vecAllocOut := id)]
      modifies `thrd
      ensures Valid() && |thrd| == old(|thrd|)
    {
      thrd := thrd[t := thrd[t].(vecAllocOut := id)];
    }

    method DbWalkStops(t: nat, id: nat)
      requires Ready() && t < |thrd| && |view| == |thrd| && view == thrd[t := thrd[t].(dataAllocOut := id)]
      modifies `thrd
      ensures Valid() && |thrd| == old(|thrd|)
    {
      thrd := thrd[t := thrd[t].(dataAllocOut := id)];
    }

    /** The loop of vec_buf_free, from the tick and the head read before it. */
    method WalkVecs(t: nat, now: nat, head: nat, ghost goal: Pool)
      requires Valid() && t < |thrd| && head == thrd[t].vecAllocOut && VecWalkEnds(pool, t, now, goal)
      modifies `mem, `vecHead, `freeVec, `usedVec, `thrd, `view, `pool
      ensures Valid() && |thrd| == old(|thrd|) && pool == goal
    {
      var tk: nat, listVecId: nat := now, head;
      while listVecId != thrd[t].vecFreeIn
        invariant Ready() && |view| == |thrd| == old(|thrd|)
        invariant view == thrd[t := thrd[t].(vecAllocOut := listVecId)]
        invariant VecWalkEnds(pool, t, tk, goal)
        decreases |pool.threads[t].vbuf|
      {
        VecWalkTurn(H(), pool, t, listVecId, tk, goal);
        var node := mem[listVecId];
        if tk < node.tick { tk := tk + T.WINDOW; }
        if tk - node.tick < 2 {
          VecWalkStops(t, listVecId);
          return;
        }
        listVecId := VecWalkTakes(t, listVecId, tk, goal);
      }
      VecWalkTurn(H(), pool, t, listVecId, tk, goal);
      VecWalkStops(t, listVecId);
    }

    method ReleaseDbHead(t: nat, listVecId: nat) returns (next: nat)
      requires Ready() && t < |thrd| && |view| == |thrd| && view == thrd[t := thrd[t].(dataAllocOut := listVecId)]
      requires |pool.threads[t].dbuf| > 1
      modifies `mem, `vecHead, `dbHead, `freeVec, `usedVec, `freeDb, `usedDb, `thrd, `view, `freed, `pool
      ensures Ready() && pool == ReleaseDb(old(pool), t)
      ensures |view| == |thrd| == old(|thrd|) && view == thrd[t := thrd[t].(dataAllocOut := next)]
    {
      DataHeadTells(H(), pool, t);
      DbReleasedInSteps(H(), pool, t);
      var node := mem[listVecId];
      UnlinkDbHead(t);
      FreeDataOf(node.id);
      DbFree(node.id);
      next := node.next;
      VecFree(listVecId);
      thrd := thrd[t := thrd[t].(dataListCnt := thrd[t].dataListCnt - 1, dataCnt := thrd[t].dataCnt - 1)];
    }

    method DbBufFree(t: nat)
      requires Valid() && t < |thrd|
      modifies `mem, `vecHead, `dbHead, `freeVec, `usedVec, `freeDb, `usedDb, `thrd, `view, `freed, `pool
      ensures Valid() && |thrd| == old(|thrd|)
      ensures pool == PoolSpec.DbBufFree(old(pool), t)
    {
      ghost var goal := PoolSpec.DbBufFree(pool, t);
      WalksStart(pool, t);
      WalkDbs(t, T.Masked(tick), thrd[t].dataAllocOut, goal);
    }

    /** The loop of db_buf_free, from the tick and the head read before it. */
    method WalkDbs(t: nat, now: nat, head: nat, ghost goal: Pool)
      requires Valid() && t < |thrd| && head == thrd[t].dataAllocOut && DbWalkEnds(pool, t, now, goal)
      modifies `mem, `vecHead, `dbHead, `freeVec, `usedVec, `freeDb, `usedDb, `thrd, `view, `freed, `pool
      ensures Valid() && |thrd| == old(|thrd|) && pool == goal
    {
      var tk: nat, listVecId: nat := now, head;
      while listVecId != thrd[t].dataFreeIn
        invariant Ready() && |view| == |thrd| == old(|thrd|)
        invariant view == thrd[t := thrd[t].(dataAllocOut := listVecId)]
        invariant DbWalkEnds(pool, t, tk, goal)
        decreases |pool.threads[t].dbuf|
      {
        DbWalkTurn(H(), pool, t, listVecId, tk, goal);
        var node := mem[listVecId];
        if tk < node.tick { tk := tk + T.WINDOW; }
        if tk - node.tick < 2 {
          DbWalkStops(t, listVecId);
          return;
        }
        listVecId := DbWalkTakes(t, listVecId, tk, goal);
      }
      DbWalkTurn(H(), pool, t, listVecId, tk, goal);
      DbWalkStops(t, listVecId);
    }

    // -------------------------------------------------------------- retiring

    method MarkVec(id: nat)
      requires Ready() && id in pool.liveVecs
      modifies `mem, `pool
      ensures Ready() && pool == PoolSteps.MarkVec(old(pool), id)
    {
      Unseal(H(), pool);
      VecWordIn(mem, pool, id, Zero);
      VecWordIn(mem, pool, id, Marked(mem[id]));
      MarkVecGood(pool, id);
      WriteVecMove(H(), pool, id, Marked(mem[id]));
      UnkeptBody(pool, id);
      mem := mem[id := Marked(mem[id])];
      pool := PoolSteps.MarkVec(pool, id);
      Seal(H(), pool);
    }

    /** A node is written into vec `c` and becomes the tail of the vec queue. */
    method QueueVec(t: nat, c: nat, id: nat)
      requires Valid() && t < |thrd| && c in pool.liveVecs && id in pool.liveVecs && c != id && c !in pool.body
      modifies `mem, `thrd, `view, `pool
      ensures Valid() && |thrd| == old(|thrd|) && pool == PoolSteps.QueueVec(old(pool), t, c, id)
    {
      ghost var h := H();
      VecQueued(h, pool, t, c, id);
      mem := mem[c := Buf(T.Masked(tick), id, SPT_NULL)];
      if thrd[t].vecFreeIn == SPT_NULL {
        thrd := thrd[t := thrd[t].(vecFreeIn := c, vecAllocOut := c)];
      } else {
        var tail := thrd[t].vecFreeIn;
        mem := mem[tail := mem[tail].(next := c)];
        thrd := thrd[t := thrd[t].(vecFreeIn := c)];
      }
      thrd := thrd[t := thrd[t].(vecListCnt := thrd[t].vecListCnt + 1, vecCnt := thrd[t].vecCnt + 2)];
      view := thrd;
      assert thrd == h.thrd[t := QueueVecData(h.thrd[t], c)];
      pool := PoolSteps.QueueVec(pool, t, c, id);
    }

    method QueueDb(t: nat, c: nat, id: nat)
      requires Valid() && t < |thrd| && c in pool.liveVecs && id in pool.liveDbs && c !in pool.body
      modifies `mem, `thrd, `view, `pool
      ensures Valid() && |thrd| == old(|thrd|) && pool == PoolSteps.QueueDb(old(pool), t, c, id)
    {
      ghost var h := H();
      DbQueued(h, pool, t, c, id);
      mem := mem[c := Buf(T.Masked(tick), id, SPT_NULL)];
      if thrd[t].dataFreeIn == SPT_NULL {
        thrd := thrd[t := thrd[t].(dataFreeIn := c, dataAllocOut := c)];
      } else {
        var tail := thrd[t].dataFreeIn;
        mem := mem[tail := mem[tail].(next := c)];
        thrd := thrd[t := thrd[t].(dataFreeIn := c)];
      }
      thrd := thrd[t := thrd[t].(dataListCnt := thrd[t].dataListCnt + 1, dataCnt := thrd[t].dataCnt + 1)];
      view := thrd;
      assert thrd == h.thrd[t := QueueDbData(h.thrd[t], c)];
      pool := PoolSteps.QueueDb(pool, t, c, id);
    }

    method VecFreeToBufSimple(id: nat, t: nat)
      requires Valid() && t < |thrd| && pool.threads[t].rsv != [] && id in pool.liveVecs
      modifies `mem, `thrd, `view, `pool
      ensures Valid() && |thrd| == old(|thrd|) && pool == ParkVec(old(pool), t, id)
    {
      ParkedInSteps(H(), pool, t, id);
      MarkVec(id);
      var listVecId := VecAllocFromRsvList(t);
      QueueVec(t, listVecId, id);
    }

    method DbFreeToBufSimple(id: nat, t: nat)
      requires Valid() && t < |thrd| && pool.threads[t].rsv != [] && id in pool.liveDbs
      modifies `mem, `thrd, `view, `dataTotal, `pool
      ensures Valid() && |thrd| == old(|thrd|) && pool == ParkDb(old(pool), t, id)
      ensures dataTotal == old(dataTotal) - 1
    {
      ParkedInSteps(H(), pool, t, id);
      var listVecId := VecAllocFromRsvList(t);
      QueueDb(t, listVecId, id);
      dataTotal := dataTotal - 1;
    }

    /** Above its watermark the vec queue is walked; `full` says it stayed above. */
    method TrimVecs(t: nat) returns (full: bool)
      requires Valid() && t < |thrd|
      modifies `mem, `vecHead, `freeVec, `usedVec, `thrd, `view, `pool
      ensures Valid() && |thrd| == old(|thrd|) && pool == PoolSpec.TrimVecs(old(pool), t)
      ensures full == (|pool.threads[t].vbuf| > VEC_WATERMARK)
    {
      ListCounts(H(), pool, t);
      if thrd[t].vecListCnt > VEC_WATERMARK { VecBufFree(t); }
      ListCounts(H(), pool, t);
      return thrd[t].vecListCnt > VEC_WATERMARK;
    }

    method TrimDbs(t: nat) returns (full: bool)
      requires Valid() && t < |thrd|
      modifies `mem, `vecHead, `dbHead, `freeVec, `usedVec, `freeDb, `usedDb, `thrd, `view, `freed, `pool
      ensures Valid() && |thrd| == old(|thrd|) && pool == PoolSpec.TrimDbs(old(pool), t)
      ensures full == (|pool.threads[t].dbuf| > DATA_WATERMARK)
    {
      ListCounts(H(), pool, t);
      if thrd[t].dataListCnt > DATA_WATERMARK { DbBufFree(t); }
      ListCounts(H(), pool, t);
      return thrd[t].dataListCnt > DATA_WATERMARK;
    }

    /** Both queues are walked if they are too long; `full` says one stayed so. */
    method TrimBoth(t: nat) returns (full: bool)
      requires Valid() && t < |thrd|
      modifies `mem, `vecHead, `dbHead, `freeVec, `usedVec, `freeDb, `usedDb, `thrd, `view, `freed, `pool
      ensures Valid() && |thrd| == old(|thrd|)
      ensures pool == PoolSpec.TrimDbs(PoolSpec.TrimVecs(old(pool), t), t)
      ensures full == (|pool.threads[t].vbuf| > VEC_WATERMARK || |pool.threads[t].dbuf| > DATA_WATERMARK)
    {
      var _ := TrimVecs(t);
      full := TrimDbs(t);
      ListCounts(H(), pool, t);
      full := thrd[t].vecListCnt > VEC_WATERMARK || full;
    }

    /** The reserve is filled either way; a queue still too long is reported instead of
        the fill's own outcome. */
    method FillOrWait(nr: int, t: nat, full: bool) returns (st: Status)
      requires Valid() && t < |thrd|
      modifies `cursor, `mem, `blkHead, `vecHead, `freeBlk, `freeVec, `usedVec, `status, `thrd, `view, `pool
      ensures Valid() && |thrd| == old(|thrd|)
      ensures pool == FillEnd(old(pool), env, t, nr).0
      ensures st == if full then WaitAmt else FillEnd(old(pool), env, t, nr).1
      ensures status == if full then WaitAmt else old(status)
    {
      st := FillInRsvListSimple(nr, t);
      if full {
        status := WaitAmt;
        return WaitAmt;
      }
    }

    method VecFreeToBuf(id: nat, t: nat) returns (st: Status)
      requires Valid() && t < |thrd| && pool.threads[t].rsv != [] && id in pool.liveVecs
      modifies `cursor, `mem, `blkHead, `vecHead, `freeBlk, `freeVec, `usedVec, `status, `thrd, `view, `pool
      ensures Valid() && |thrd| == old(|thrd|)
      ensures (pool, st) == PoolSpec.VecFreeToBuf(old(pool), env, t, id)
      ensures status == if st == WaitAmt then WaitAmt else old(status)
    {
      VecFreeToBufSimple(id, t);
      var full := TrimVecs(t);
      FillStatus(pool, env, t, 1);
      st := FillOrWait(1, t, full);
    }

    method DbFreeToBuf(id: nat, t: nat) returns (st: Status)
      requires Valid() && t < |thrd| && pool.threads[t].rsv != [] && id in pool.liveDbs
      modifies `cursor, `mem, `blkHead, `vecHead, `dbHead, `freeBlk, `freeVec, `usedVec, `freeDb, `usedDb,
               `dataTotal, `status, `thrd, `view, `freed, `pool
      ensures Valid() && |thrd| == old(|thrd|)
      ensures (pool, st) == PoolSpec.DbFreeToBuf(old(pool), env, t, id)
      ensures status == if st == WaitAmt then WaitAmt else old(status)
      ensures dataTotal == old(dataTotal) - 1
    {
      DbFreeToBufSimple(id, t);
      var full := TrimDbs(t);
      FillStatus(pool, env, t, 1);
      st := FillOrWait(1, t, full);
    }

    method FillInRsvList(nr: int, t: nat) returns (st: Status)
      requires Valid() && t < |thrd|
      modifies `cursor, `mem, `blkHead, `vecHead, `dbHead, `freeBlk, `freeVec, `usedVec, `freeDb, `usedDb,
               `status, `thrd, `view, `freed, `pool
      ensures Valid() && |thrd| == old(|thrd|)
      ensures (pool, st) == PoolSpec.FillRsvList(old(pool), env, t, nr)
      ensures status == if st == WaitAmt then WaitAmt else old(status)
    {
      var full := TrimBoth(t);
      FillStatus(pool, env, t, nr);
      st := FillOrWait(nr, t, full);
    }

    // -------------------------------------------------------------- the outside

    /** A client writes a vec it holds. */
    method WriteVec(v: nat, bits: int)
      requires Valid() && v in pool.liveVecs
      modifies `mem, `pool
      ensures Valid() && pool == old(pool).(body := old(pool).body[v := Client(bits)])
    {
      Unseal(H(), pool);
      VecWordIn(mem, pool, v, Client(bits));
      WriteVecGood(pool, v, Client(bits));
      WriteVecMove(H(), pool, v, Client(bits));
      mem := mem[v := Client(bits)];
      pool := pool.(body := pool.body[v := Client(bits)]);
      Seal(H(), pool);
    }

    method WriteDb(d: nat, rsv: nat, pdata: nat)
      requires Valid() && d in pool.liveDbs
      modifies `mem, `pool
      ensures Valid() && pool == old(pool).(dbBody := old(pool).dbBody[d := DbBody(rsv, pdata)])
    {
      Unseal(H(), pool);
      LiveDbHas(pool, d);
      KeptDbWords(mem, pool, d, DbBody(rsv, pdata));
      GoodIgnoresData(pool, pool.(dbBody := pool.dbBody[d := DbBody(rsv, pdata)]));
      WriteDbMove(H(), pool, d, DbBody(rsv, pdata));
      mem := DbWords(mem, d, DbBody(rsv, pdata));
      pool := pool.(dbBody := pool.dbBody[d := DbBody(rsv, pdata)]);
      Seal(H(), pool);
    }

    /** The clock advances by one tick. */
    method PassTick()
      requires Valid()
      modifies `tick, `pool
      ensures Valid() && pool == old(pool).(tick := old(pool).tick + 1)
    {
      Unseal(H(), pool);
      tick := tick + 1;
      R.PassTickGood(pool);
      SwapBodies(H(), pool, pool.(tick := pool.tick + 1));
      pool := pool.(tick := pool.tick + 1);
      Seal(H(), pool);
    }
  }
}

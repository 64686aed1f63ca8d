/** Which words a call may write: those of installed pages, an item at a time. */
module ClusterWords {
  import opened Options
  import opened Layout
  import opened PoolSpec
  import opened PoolLaws
  import opened PoolSteps
  import opened ClusterRep
  import opened ClusterMoves
  import T = TickAge

  /** A page as spt_alloc_zero_page hands it out. */
  function ZeroPage(pg: nat): (m: Mem)
    ensures forall w: nat :: w in m <==> w / PG_WORDS == pg
  {
    map w: nat {:trigger w / PG_WORDS} | pg * PG_WORDS <= w < (pg + 1) * PG_WORDS :: Zero
  }

  /** The words in memory are those of the installed pages. */
  ghost predicate Granted(mem: Mem, pages: set<nat>) {
    forall w: nat :: WordAt(mem, pages, w)
  }

  ghost predicate WordAt(mem: Mem, pages: set<nat>, w: nat) {
    w in mem <==> w / PG_WORDS in pages
  }

  lemma SameWords(mem: Mem, mem': Mem, pages: set<nat>, lo: nat, hi: nat)
    requires Granted(mem, pages) && WritesWithin(mem, mem', lo, hi)
    ensures Granted(mem', pages)
  {
    forall w: nat ensures WordAt(mem', pages, w) {
      assert WordAt(mem, pages, w);
    }
  }

  lemma MoreWords(mem: Mem, pages: set<nat>, pg: nat)
    requires Granted(mem, pages) && pg !in pages
    ensures Granted(mem + ZeroPage(pg), pages + {pg})
    ensures forall w :: w in mem ==> w in mem + ZeroPage(pg) && (mem + ZeroPage(pg))[w] == mem[w]
  {
    forall w: nat ensures WordAt(mem + ZeroPage(pg), pages + {pg}, w) {
      assert WordAt(mem, pages, w);
    }
    forall w | w in mem ensures w !in ZeroPage(pg) { assert WordAt(mem, pages, w); }
  }

  /** Carving a new page writes no word of an old one. */
  lemma OldWords(mem: Mem, mem0: Mem, mem': Mem, pages: set<nat>, pg: nat)
    requires Granted(mem, pages) && pg !in pages
    requires forall w :: w in mem ==> w in mem0 && mem0[w] == mem[w]
    requires WritesWithin(mem0, mem', pg * BLK_PER_PG * BLK_WORDS, (pg * BLK_PER_PG + BLK_PER_PG - 1) * BLK_WORDS)
    ensures forall w :: w in mem ==> w in mem' && mem'[w] == mem[w]
  {
    forall w | w in mem ensures w in mem' && mem'[w] == mem[w] {
      assert WordAt(mem, pages, w);
    }
  }

  lemma PageWords(mem: Mem, pages: set<nat>, pg: nat)
    requires Granted(mem, pages) && pg in pages
    ensures forall i: nat :: i < BLK_PER_PG ==> ItemIn(mem, BLK_WORDS, pg * BLK_PER_PG, i)
  {
    forall i: nat | i < BLK_PER_PG ensures ItemIn(mem, BLK_WORDS, pg * BLK_PER_PG, i) {
      assert WordAt(mem, pages, (pg * BLK_PER_PG + i) * BLK_WORDS);
    }
  }

  /** The words of a block just taken are there to be written. */
  lemma OutBlkWords(h: Heap, p: Pool, b: nat)
    requires Granted(h.mem, p.pages) && Sealed(h, p) && b in p.outBlks
    ensures forall i: nat :: i < VEC_PER_BLK ==> ItemIn(h.mem, 1, b * VEC_PER_BLK, i)
    ensures forall i: nat :: i < DB_PER_BLK ==> ItemIn(h.mem, DB_WORDS, b * DB_PER_BLK, i)
  {
    var mem := h.mem;
    Unseal(h, p);
    assert BlkCount(p, b) == One(b / BLK_PER_PG in p.pages);
    forall w: nat | w / BLK_WORDS == b ensures w in mem {
      assert WordAt(mem, p.pages, w);
      assert w / PG_WORDS == b / BLK_PER_PG;
    }
  }

  ghost predicate ItemIn(mem: Mem, scale: nat, base: nat, i: nat) {
    (base + i) * scale in mem
  }

  /** The same words, and only those from `lo` to `hi` written. */
  ghost predicate WritesWithin(mem: Mem, mem': Mem, lo: nat, hi: nat) {
    && (forall w :: w in mem && !(lo <= w <= hi) ==> w in mem' && mem'[w] == mem[w])
    && (forall w: nat :: w in mem' <==> w in mem)
  }

  lemma ScaledBetween(base: nat, i: nat, total: nat, scale: nat)
    requires i < total
    ensures base * scale <= (base + i) * scale <= (base + total - 1) * scale
  {
    assert (base + i) * scale == base * scale + i * scale;
    assert (base + total - 1) * scale == (base + i) * scale + (total - 1 - i) * scale;
  }

  lemma BlkWrites(h: Heap, mem': Mem, p: Pool, b: nat)
    requires HeapRep(h, p) && Good(p) && b in p.outBlks
    requires WritesWithin(h.mem, mem', b * BLK_WORDS, b * BLK_WORDS + BLK_WORDS - 1)
    ensures HeapRep(h.(mem := mem'), p)
  {
    forall w: nat | w in h.mem && !Free(p, w) ensures w in mem' && mem'[w] == h.mem[w] {
      if w / BLK_WORDS == b { OutBlkFree(p, b, w); }
    }
    HeapFrame(h, mem', p);
  }

  /** The words of a page just granted. */
  lemma FreshWords(mem: Mem, pages: set<nat>, pg: nat)
    requires Granted(mem, pages) && pg !in pages
    ensures forall i: nat :: i < BLK_PER_PG ==> ItemIn(mem + ZeroPage(pg), BLK_WORDS, pg * BLK_PER_PG, i)
  {
    MoreWords(mem, pages, pg);
    PageWords(mem + ZeroPage(pg), pages + {pg}, pg);
  }

  lemma PageCarved(h: Heap, mem0: Mem, mem': Mem, p: Pool, pg: nat)
    requires Sealed(h, p) && Granted(h.mem, p.pages) && pg < p.cursor && pg !in p.pages && mem0 == h.mem + ZeroPage(pg)
    requires WritesWithin(mem0, mem', pg * BLK_PER_PG * BLK_WORDS, (pg * BLK_PER_PG + BLK_PER_PG - 1) * BLK_WORDS)
    requires ChainRep(mem', BLK_WORDS, pg * BLK_PER_PG, BLK_PER_PG)
    requires var last := (pg * BLK_PER_PG + BLK_PER_PG - 1) * BLK_WORDS; last in mem' && mem'[last] == Link(h.blkHead)
    ensures Sealed(h.(mem := mem', blkHead := pg * BLK_PER_PG), InstallPage(p, pg))
    ensures Granted(mem', p.pages + {pg})
  {
    Unseal(h, p);
    MoreWords(h.mem, p.pages, pg);
    SameWords(mem0, mem', p.pages + {pg}, pg * BLK_PER_PG * BLK_WORDS, (pg * BLK_PER_PG + BLK_PER_PG - 1) * BLK_WORDS);
    OldWords(h.mem, mem0, mem', p.pages, pg);
    assert Agree(h.mem, mem', p);
    HeapFrame(h, mem', p);
    SpliceBlks(h.(mem := mem'), p, pg * BLK_PER_PG, InstallPage(p, pg));
    InstallGood(p, pg);
    Seal(h.(mem := mem', blkHead := pg * BLK_PER_PG), InstallPage(p, pg));
  }

  lemma VecsCarved(h: Heap, mem': Mem, p: Pool, b: nat)
    requires Sealed(h, p) && Granted(h.mem, p.pages) && b in p.outBlks
    requires WritesWithin(h.mem, mem', b * BLK_WORDS, b * BLK_WORDS + BLK_WORDS - 1)
    requires ChainRep(mem', 1, b * VEC_PER_BLK, VEC_PER_BLK)
    requires b * VEC_PER_BLK + VEC_PER_BLK - 1 in mem' && mem'[b * VEC_PER_BLK + VEC_PER_BLK - 1] == Link(h.vecHead)
    ensures Sealed(h.(mem := mem', vecHead := b * VEC_PER_BLK), CarveVecs(p, b))
    ensures Granted(mem', p.pages) && b !in p.vecBlks
  {
    Unseal(h, p);
    SameWords(h.mem, mem', p.pages, b * BLK_WORDS, b * BLK_WORDS + BLK_WORDS - 1);
    BlkWrites(h, mem', p, b);
    SpliceVecs(h.(mem := mem'), p, b * VEC_PER_BLK, CarveVecs(p, b));
    CarveGood(p, b);
    Seal(h.(mem := mem', vecHead := b * VEC_PER_BLK), CarveVecs(p, b));
  }

  lemma DbsCarved(h: Heap, mem': Mem, p: Pool, b: nat)
    requires Sealed(h, p) && Granted(h.mem, p.pages) && b in p.outBlks
    requires WritesWithin(h.mem, mem', b * DB_PER_BLK * DB_WORDS, (b * DB_PER_BLK + DB_PER_BLK - 1) * DB_WORDS)
    requires ChainRep(mem', DB_WORDS, b * DB_PER_BLK, DB_PER_BLK)
    requires (b * DB_PER_BLK + DB_PER_BLK - 1) * DB_WORDS in mem'
          && mem'[(b * DB_PER_BLK + DB_PER_BLK - 1) * DB_WORDS] == Link(h.dbHead)
    ensures Sealed(h.(mem := mem', dbHead := b * DB_PER_BLK), CarveDbs(p, b))
    ensures Granted(mem', p.pages) && b !in p.dbBlks
  {
    Unseal(h, p);
    SameWords(h.mem, mem', p.pages, b * DB_PER_BLK * DB_WORDS, (b * DB_PER_BLK + DB_PER_BLK - 1) * DB_WORDS);
    BlkWrites(h, mem', p, b);
    SpliceDbs(h.(mem := mem'), p, b * DB_PER_BLK, CarveDbs(p, b));
    CarveGood(p, b);
    Seal(h.(mem := mem', dbHead := b * DB_PER_BLK), CarveDbs(p, b));
  }

  lemma InstallGood(p: Pool, pg: nat)
    requires Good(p) && pg < p.cursor && pg !in p.pages
    ensures Good(InstallPage(p, pg))
  {
    InstallPageKeeps(p, pg);
  }

  lemma CarveGood(p: Pool, b: nat)
    requires Good(p) && b in p.outBlks
    ensures Good(CarveVecs(p, b)) && Good(CarveDbs(p, b)) && b !in p.vecBlks && b !in p.dbBlks
  {
    CarveKeeps(p, b);
    CarveBodies(p, b);
    OutBlkFresh(p, b);
  }

  lemma TakeGood(p: Pool)
    requires Good(p)
    ensures p.blks != [] ==> Good(TakeBlk(p))
    ensures p.vecs != [] ==> Good(TakeVec(p))
    ensures p.dbs != [] ==> Good(TakeDb(p))
  {
    if p.blks != [] { TakeBlkKeeps(p); }
    if p.vecs != [] { TakeVecKeeps(p); }
    if p.dbs != [] { TakeDbKeeps(p); TakeDbBodies(p); }
  }

  lemma GrantedWrite(mem: Mem, pages: set<nat>, x: nat, c: Cell)
    requires Granted(mem, pages) && x in mem
    ensures Granted(mem[x := c], pages)
  {
    var mem' := mem[x := c];
    forall w: nat ensures WordAt(mem', pages, w) {
      assert WordAt(mem, pages, w);
    }
  }

  lemma VecWordIn(mem: Mem, p: Pool, v: nat, c: Cell)
    requires Granted(mem, p.pages) && Good(p) && v in p.liveVecs
    ensures v in mem && Granted(mem[v := c], p.pages)
  {
    SharesNonNegative(p.threads, v);
    IdsBelowNull(p, v);
    assert WordAt(mem, p.pages, v);
    GrantedWrite(mem, p.pages, v, c);
  }

  lemma DbWordsIn(mem: Mem, p: Pool, d: nat, b: Cell, c: Cell)
    requires Granted(mem, p.pages) && Inv(p) && d / DB_PER_BLK in p.dbBlks
    ensures d * DB_WORDS in mem && d * DB_WORDS + 1 in mem
    ensures Granted(mem[d * DB_WORDS := b], p.pages)
    ensures Granted(mem[d * DB_WORDS := b][d * DB_WORDS + 1 := c], p.pages)
  {
    assert BlkCount(p, d / DB_PER_BLK) == One(d / DB_PER_BLK / BLK_PER_PG in p.pages);
    assert (d * DB_WORDS) / PG_WORDS == d / DB_PER_BLK / BLK_PER_PG == (d * DB_WORDS + 1) / PG_WORDS;
    assert WordAt(mem, p.pages, d * DB_WORDS) && WordAt(mem, p.pages, d * DB_WORDS + 1);
    GrantedWrite(mem, p.pages, d * DB_WORDS, b);
    GrantedWrite(mem[d * DB_WORDS := b], p.pages, d * DB_WORDS + 1, c);
  }

  lemma LiveDbWordsIn(mem: Mem, p: Pool, d: nat, b: Cell)
    requires Granted(mem, p.pages) && Good(p) && d in p.liveDbs
    ensures d * DB_WORDS in mem && Granted(mem[d * DB_WORDS := b], p.pages)
  {
    LiveDbUnlisted(p, d);
    DbWordsIn(mem, p, d, b, Zero);
  }

  lemma HeadDbWordsIn(mem: Mem, p: Pool)
    requires Granted(mem, p.pages) && Good(p) && p.dbs != []
    ensures var d := p.dbs[0];
      && d * DB_WORDS in mem
      && Granted(mem[d * DB_WORDS := DbHead(0)][d * DB_WORDS + 1 := DbData(0)], p.pages)
  {
    TakeDbKeeps(p);
    DbWordsIn(mem, p, p.dbs[0], DbHead(0), DbData(0));
  }

  /** The first node of queue `b`, read through the ends of the queue. */
  ghost predicate IsHead(mem: Mem, b: seq<Node>, allocOut: nat, freeIn: nat) {
    && b != [] && allocOut == b[0].carrier && allocOut in mem && mem[allocOut].Buf?
    && mem[allocOut].tick == T.Masked(b[0].stamp) && mem[allocOut].id == b[0].id
    && (allocOut == freeIn <==> |b| == 1)
  }

  lemma SpendGood(p: Pool, t: nat)
    requires Good(p) && t < |p.threads|
    ensures Good(VecAllocFromBuf(p, t).0)
  {
    VecAllocFromBufKeeps(p, t);
    VecAllocFromBufBodies(p, t);
  }

  lemma KeptDbWords(mem: Mem, p: Pool, d: nat, b: DbBody)
    requires Granted(mem, p.pages) && Good(p) && d in p.dbBody
    ensures Granted(DbWords(mem, d, b), p.pages)
    ensures forall w :: w in mem && w / VEC_PER_BLK in p.vecBlks ==> w in DbWords(mem, d, b) && DbWords(mem, d, b)[w] == mem[w]
  {
    DbWordsIn(mem, p, d, DbHead(b.rsv), DbData(b.pdata));
    forall w | w in mem && w / VEC_PER_BLK in p.vecBlks ensures DbWords(mem, d, b)[w] == mem[w] {
      VecNotDb(p, w, d);
    }
  }

  /** Rewriting the data word as it was changes nothing. */
  lemma SameDbWords(mem: Mem, d: nat, b: DbBody)
    requires d * DB_WORDS + 1 in mem && mem[d * DB_WORDS + 1] == DbData(b.pdata)
    ensures DbWords(mem, d, b) == mem[d * DB_WORDS := DbHead(b.rsv)]
  {
  }

  lemma RsvPushGood(p: Pool, t: nat, v: nat)
    requires Good(p) && t < |p.threads| && v in p.liveVecs
    ensures Good(RsvPush(p, t, v))
  {
    RsvPushKeeps(p, t, v);
    RsvPushBodies(p, t, v);
  }

  /** Where a fill that still has `nr` vecs to find will end. */
  function FillEnd(p: Pool, env: Env, t: nat, nr: int): (Pool, Status)
    requires t < |p.threads|
  {
    Fill(p, env, t, nr)
  }

  lemma FillStep(p: Pool, env: Env, t: nat, nr: int)
    requires t < |p.threads| && nr > 0
    ensures var (q, v) := VecAllocCombo(p, env, t);
      && (v.Some? ==> v.value in q.liveVecs && FillEnd(p, env, t, nr) == FillEnd(RsvPush(q, t, v.value), env, t, nr - 1))
      && (v.None? ==> FillEnd(p, env, t, nr) == (q, NoMem))
  {
  }

  /** The walk over the vec queue that now carries tick `tk` ends with pool `goal`. */
  ghost predicate VecWalkEnds(p: Pool, t: nat, tk: nat, goal: Pool) {
    forall on: bool :: VecWalkIf(on, p, t, tk, goal)
  }

  ghost predicate VecWalkIf(on: bool, p: Pool, t: nat, tk: nat, goal: Pool) {
    on && t < |p.threads| ==> goal == ReleaseVecs(p, t, T.Walk(tk, WalkStamps(p.threads[t].vbuf)))
  }

  ghost predicate DbWalkEnds(p: Pool, t: nat, tk: nat, goal: Pool) {
    forall on: bool :: DbWalkIf(on, p, t, tk, goal)
  }

  ghost predicate DbWalkIf(on: bool, p: Pool, t: nat, tk: nat, goal: Pool) {
    on && t < |p.threads| ==> goal == ReleaseDbs(p, t, T.Walk(tk, WalkStamps(p.threads[t].dbuf)))
  }

  lemma WalksStart(p: Pool, t: nat)
    requires t < |p.threads|
    ensures VecWalkEnds(p, t, T.Masked(p.tick), VecBufFree(p, t))
    ensures DbWalkEnds(p, t, T.Masked(p.tick), DbBufFree(p, t))
  {
  }

  lemma WalkStampsTail(buf: seq<Node>)
    requires |buf| > 1
    ensures WalkStamps(buf) != [] && WalkStamps(buf)[0] == T.Masked(buf[0].stamp)
    ensures WalkStamps(buf)[1..] == WalkStamps(buf[1..])
  {
    assert buf[..|buf| - 1][1..] == buf[1..][..|buf[1..]| - 1];
  }

  lemma VecWalkStep(p: Pool, t: nat, tk: nat, goal: Pool)
    requires t < |p.threads| && |p.threads[t].vbuf| > 1 && VecWalkEnds(p, t, tk, goal)
    ensures var s := T.Masked(p.threads[t].vbuf[0].stamp); var w := T.Widened(tk, s);
      if w - s < 2 then goal == p else VecWalkEnds(ReleaseVec(p, t), t, w, goal)
  {
    assert VecWalkIf(true, p, t, tk, goal);
    WalkStampsTail(p.threads[t].vbuf);
    var w := WalkStamps(p.threads[t].vbuf);
    assert w == [w[0]] + w[1..];
  }

  lemma DbWalkStep(p: Pool, t: nat, tk: nat, goal: Pool)
    requires t < |p.threads| && |p.threads[t].dbuf| > 1 && DbWalkEnds(p, t, tk, goal)
    ensures var s := T.Masked(p.threads[t].dbuf[0].stamp); var w := T.Widened(tk, s);
      if w - s < 2 then goal == p else DbWalkEnds(ReleaseDb(p, t), t, w, goal)
  {
    assert DbWalkIf(true, p, t, tk, goal);
    WalkStampsTail(p.threads[t].dbuf);
    var w := WalkStamps(p.threads[t].dbuf);
    assert w == [w[0]] + w[1..];
  }

  /** A queue of at most its tail is walked no further. */
  lemma WalksDone(p: Pool, t: nat, tk: nat, goal: Pool)
    requires t < |p.threads|
    ensures |p.threads[t].vbuf| <= 1 && VecWalkEnds(p, t, tk, goal) ==> goal == p
    ensures |p.threads[t].dbuf| <= 1 && DbWalkEnds(p, t, tk, goal) ==> goal == p
  {
    if VecWalkEnds(p, t, tk, goal) { assert VecWalkIf(true, p, t, tk, goal); }
    if DbWalkEnds(p, t, tk, goal) { assert DbWalkIf(true, p, t, tk, goal); }
  }

  lemma LiveBelowNull(p: Pool, v: nat)
    requires Good(p) && v in p.liveVecs
    ensures v < SPT_NULL
  {
    SharesNonNegative(p.threads, v);
    IdsBelowNull(p, v);
  }

  lemma LiveDbHas(p: Pool, d: nat)
    requires Good(p) && d in p.liveDbs
    ensures d in p.dbBody
  {
  }

  /** Forgetting contents that are not kept changes nothing. */
  lemma UnkeptBody(p: Pool, v: nat)
    ensures v !in p.body ==> p.(body := p.body - {v}) == p
  {
    if v !in p.body { assert p.body - {v} == p.body; }
  }

  lemma {:induction false} FillStatus(p: Pool, env: Env, t: nat, nr: int)
    requires t < |p.threads|
    ensures FillEnd(p, env, t, nr).1 != WaitAmt
    decreases if nr < 0 then 0 else nr
  {
    if nr > 0 {
      var (q, v) := VecAllocCombo(p, env, t);
      FillStep(p, env, t, nr);
      if v.Some? { FillStatus(RsvPush(q, t, v.value), env, t, nr - 1); }
    }
  }

  lemma VecAllocTaken(p: Pool, env: Env)
    ensures var (q, v) := VecAlloc(p, env); v.Some? ==> v.value in q.liveVecs
  {
  }

  /** A thread's record as cluster_init sets it. */
  function NewThread(): ThreadData {
    ThreadData(0, 0, 0, 0, SPT_NULL, SPT_NULL, SPT_NULL, SPT_NULL, 0, SPT_NULL)
  }

  // ---------------------------------------------------------------- sealed states

  /** What `Ready` says of lists and memory, kept under a quantifier so that calls which
      only pass it on need not look inside. */
  ghost predicate Sealed(h: Heap, p: Pool) {
    forall on: bool :: SealedIf(on, h, p)
  }

  ghost predicate SealedIf(on: bool, h: Heap, p: Pool) {
    on ==> Good(p) && HeapRep(h, p)
  }

  lemma Unseal(h: Heap, p: Pool)
    requires Sealed(h, p)
    ensures Good(p) && HeapRep(h, p)
  {
    assert SealedIf(true, h, p);
  }

  lemma Seal(h: Heap, p: Pool)
    requires Good(p) && HeapRep(h, p)
    ensures Sealed(h, p)
  {
  }

  lemma HeadsTell(h: Heap, p: Pool)
    requires Sealed(h, p)
    ensures h.blkHead == NONE <==> p.blks == []
    ensures h.vecHead == NONE <==> p.vecs == []
    ensures h.dbHead == NONE <==> p.dbs == []
  {
    Unseal(h, p);
  }

  lemma VecHeadTells(h: Heap, p: Pool, t: nat)
    requires Sealed(h, p) && t < |p.threads|
    ensures t < |h.thrd| && (h.thrd[t].vecAllocOut == SPT_NULL <==> p.threads[t].vbuf == [])
    ensures h.thrd[t].vecFreeIn == SPT_NULL <==> p.threads[t].vbuf == []
    ensures p.threads[t].vbuf != [] ==> IsHead(h.mem, p.threads[t].vbuf, h.thrd[t].vecAllocOut, h.thrd[t].vecFreeIn)
  {
    Unseal(h, p);
    VecHeadCell(h, p, t);
  }

  lemma DataHeadTells(h: Heap, p: Pool, t: nat)
    requires Sealed(h, p) && t < |p.threads|
    ensures t < |h.thrd| && (h.thrd[t].dataAllocOut == SPT_NULL <==> p.threads[t].dbuf == [])
    ensures h.thrd[t].dataFreeIn == SPT_NULL <==> p.threads[t].dbuf == []
    ensures p.threads[t].dbuf != [] ==> IsHead(h.mem, p.threads[t].dbuf, h.thrd[t].dataAllocOut, h.thrd[t].dataFreeIn)
  {
    Unseal(h, p);
    DataHeadCell(h, p, t);
  }

  lemma ListCounts(h: Heap, p: Pool, t: nat)
    requires Sealed(h, p) && t < |p.threads|
    ensures t < |h.thrd| && h.thrd[t].rsvCnt == |p.threads[t].rsv|
    ensures h.thrd[t].vecListCnt == |p.threads[t].vbuf| && h.thrd[t].dataListCnt == |p.threads[t].dbuf|
  {
    Unseal(h, p);
    ThreadOf(h, p, t);
  }

  /** The walk goes on past the head: what ends in `goal` once the head is released. */
  ghost predicate VecGoesOn(p: Pool, t: nat, tk: nat, goal: Pool) {
    forall on: bool :: VecGoesOnIf(on, p, t, tk, goal)
  }

  ghost predicate VecGoesOnIf(on: bool, p: Pool, t: nat, tk: nat, goal: Pool) {
    on && t < |p.threads| && p.threads[t].vbuf != [] ==> VecWalkEnds(ReleaseVec(p, t), t, tk, goal)
  }

  ghost predicate DbGoesOn(p: Pool, t: nat, tk: nat, goal: Pool) {
    forall on: bool :: DbGoesOnIf(on, p, t, tk, goal)
  }

  ghost predicate DbGoesOnIf(on: bool, p: Pool, t: nat, tk: nat, goal: Pool) {
    on && t < |p.threads| && p.threads[t].dbuf != [] ==> DbWalkEnds(ReleaseDb(p, t), t, tk, goal)
  }

  /** One turn of the vec_buf_free loop at node `id` of the record as it would be written
      back: at the tail the walk is over; before it, the node's tick decides. */
  lemma VecWalkTurn(h: Heap, p: Pool, t: nat, id: nat, tk: nat, goal: Pool)
    requires Sealed(h, p) && t < |p.threads| && VecWalkEnds(p, t, tk, goal)
    requires t < |h.thrd| && h.thrd[t].vecAllocOut == id
    ensures id == h.thrd[t].vecFreeIn ==> goal == p
    ensures id != h.thrd[t].vecFreeIn ==>
              && |p.threads[t].vbuf| > 1 && id in h.mem && h.mem[id].Buf?
              && var s := h.mem[id].tick; var w := if tk < s then tk + T.WINDOW else tk;
                 s <= w && if w - s < 2 then goal == p else VecGoesOn(p, t, w, goal)
  {
    VecHeadTells(h, p, t);
    if id == h.thrd[t].vecFreeIn { WalksDone(p, t, tk, goal); } else { VecWalkStep(p, t, tk, goal); }
  }

  lemma DbWalkTurn(h: Heap, p: Pool, t: nat, id: nat, tk: nat, goal: Pool)
    requires Sealed(h, p) && t < |p.threads| && DbWalkEnds(p, t, tk, goal)
    requires t < |h.thrd| && h.thrd[t].dataAllocOut == id
    ensures id == h.thrd[t].dataFreeIn ==> goal == p
    ensures id != h.thrd[t].dataFreeIn ==>
              && |p.threads[t].dbuf| > 1 && id in h.mem && h.mem[id].Buf?
              && var s := h.mem[id].tick; var w := if tk < s then tk + T.WINDOW else tk;
                 s <= w && if w - s < 2 then goal == p else DbGoesOn(p, t, w, goal)
  {
    DataHeadTells(h, p, t);
    if id == h.thrd[t].dataFreeIn { WalksDone(p, t, tk, goal); } else { DbWalkStep(p, t, tk, goal); }
  }

  /** The top db off its stack, its header cleared. */
  lemma DbPopped(h: Heap, p: Pool)
    requires Sealed(h, p) && Granted(h.mem, p.pages) && p.dbs != []
    ensures h.dbHead == p.dbs[0] && h.dbHead * DB_WORDS in h.mem && h.mem[h.dbHead * DB_WORDS].Link?
    ensures var d := h.dbHead; var mem' := h.mem[d * DB_WORDS := DbHead(0)][d * DB_WORDS + 1 := DbData(0)];
      Sealed(h.(mem := mem', dbHead := h.mem[d * DB_WORDS].to), TakeDb(p)) && Granted(mem', p.pages)
  {
    Unseal(h, p);
    TakeDbMove(h, p);
    TakeGood(p);
    HeadDbWordsIn(h.mem, p);
    var d := h.dbHead;
    Seal(h.(mem := DbWords(h.mem, d, DbBody(0, 0)), dbHead := h.mem[d * DB_WORDS].to), TakeDb(p));
  }

  /** The record of a thread's queues: the two ends are null together, exactly when the
      queue is empty; the counters count the nodes and the ids they keep back; only a
      head aged two ticks is ever spent, and stamps never decrease towards the tail. */
  lemma QueueShape(h: Heap, p: Pool, t: nat)
    requires Sealed(h, p) && t < |p.threads|
    ensures t < |h.thrd|
    ensures var td, buf := h.thrd[t], p.threads[t].vbuf;
      && (td.vecFreeIn == SPT_NULL <==> buf == []) && (td.vecAllocOut == SPT_NULL <==> buf == [])
      && td.vecListCnt == |buf| && td.vecCnt == 2 * |buf| - (if Spent(buf) then 1 else 0)
      && (Spent(buf) ==> buf[0].stamp + 2 <= p.tick)
      && (forall i :: 0 < i < |buf| ==> buf[i].id != SPT_NULL)
      && (forall i, j :: 0 <= i < j < |buf| ==> buf[i].stamp <= buf[j].stamp)
    ensures var td, buf := h.thrd[t], p.threads[t].dbuf;
      && (td.dataFreeIn == SPT_NULL <==> buf == []) && (td.dataAllocOut == SPT_NULL <==> buf == [])
      && td.dataListCnt == |buf| && td.dataCnt == |buf|
      && (forall i :: 0 <= i < |buf| ==> buf[i].id != SPT_NULL)
      && (forall i, j :: 0 <= i < j < |buf| ==> buf[i].stamp <= buf[j].stamp)
  {
    VecHeadTells(h, p, t);
    DataHeadTells(h, p, t);
    Unseal(h, p);
    ThreadOf(h, p, t);
    assert QueuesOk(p.tick, p.threads[t]);
  }

  lemma DbTakenInSteps(h: Heap, p: Pool, t: nat)
    requires Sealed(h, p) && t < |p.threads| && p.threads[t].dbuf != [] && NodeExpired(p, p.threads[t].dbuf[0])
    ensures var n, q := p.threads[t].dbuf[0], UnlinkDb(p, t);
      && n.id in p.dbBody && n.carrier / VEC_PER_BLK in p.vecBlks
      && DbAllocFromBuf(p, t) == (VecFree(q.(freed := p.freed + FreeData(p, n.id),
                                             dbBody := p.dbBody[n.id := p.dbBody[n.id].(rsv := 0)]), n.carrier), Some(n.id))
  {
    Unseal(h, p);
    DbAllocFromBufSteps(p, t);
    UnlinkDbGood(p, t);
    LiveUnlisted(UnlinkDb(p, t), p.threads[t].dbuf[0].carrier);
  }

  lemma VecReleasedInSteps(h: Heap, p: Pool, t: nat)
    requires Sealed(h, p) && t < |p.threads| && p.threads[t].vbuf != []
    ensures var n, q := p.threads[t].vbuf[0], UnlinkVec(p, t);
      && n.carrier != n.id
      && ReleaseVec(p, t) == VecFree(if n.id == SPT_NULL then q else VecFree(q, n.id), n.carrier)
  {
    Unseal(h, p);
    ReleaseVecSteps(p, t);
    UnlinkVecGood(p, t);
  }

  lemma DbReleasedInSteps(h: Heap, p: Pool, t: nat)
    requires Sealed(h, p) && t < |p.threads| && p.threads[t].dbuf != []
    ensures var n, q := p.threads[t].dbuf[0], UnlinkDb(p, t);
      && n.id in p.dbBody
      && ReleaseDb(p, t) == VecFree(DbFree(q.(freed := p.freed + FreeData(p, n.id)), n.id), n.carrier)
  {
    Unseal(h, p);
    ReleaseDbSteps(p, t);
    UnlinkDbGood(p, t);
  }

  lemma ParkedInSteps(h: Heap, p: Pool, t: nat, id: nat)
    requires Sealed(h, p) && t < |p.threads| && p.threads[t].rsv != []
    ensures var c := p.threads[t].rsv[0];
      && ParkVec(p, t, id) == QueueVec(RsvPop(MarkVec(p, id), t), t, c, id)
      && ParkDb(p, t, id) == QueueDb(RsvPop(p, t), t, c, id)
      && c !in p.liveVecs && c !in p.body
  {
    Unseal(h, p);
    ParkSteps(p, t, id);
    RsvPopGood(p, t);
  }

  /** Writing a queue's new node leaves words of installed pages only. */
  lemma QueueMemGranted(mem: Mem, pages: set<nat>, freeIn: nat, c: nat, cell: Cell)
    requires Granted(mem, pages) && c in mem
    ensures Granted(QueueMem(mem, freeIn, c, cell), pages)
  {
    GrantedWrite(mem, pages, c, cell);
    var mem1 := mem[c := cell];
    if freeIn in mem1 && mem1[freeIn].Buf? { GrantedWrite(mem1, pages, freeIn, mem1[freeIn].(next := c)); }
  }

  lemma VecQueued(h: Heap, p: Pool, t: nat, c: nat, id: nat)
    requires Sealed(h, p) && Granted(h.mem, p.pages) && t < |p.threads|
    requires c in p.liveVecs && id in p.liveVecs && c != id && c !in p.body
    ensures t < |h.thrd| && (h.thrd[t].vecFreeIn != SPT_NULL ==>
              h.thrd[t].vecFreeIn != c && h.thrd[t].vecFreeIn in h.mem && h.mem[h.thrd[t].vecFreeIn].Buf?)
    ensures var mem' := QueueMem(h.mem, h.thrd[t].vecFreeIn, c, Buf(T.Masked(p.tick), id, SPT_NULL));
      && Sealed(h.(mem := mem', thrd := h.thrd[t := QueueVecData(h.thrd[t], c)]), QueueVec(p, t, c, id))
      && Granted(mem', p.pages)
  {
    Unseal(h, p);
    var q, n := QueueVec(p, t, c, id), Node(c, p.tick, id);
    LiveBelowNull(p, id);
    CarrierReady(h, p, t, c);
    QueueVecGood(p, t, c, id);
    QueueVecRep(h, p, t, n, SPT_NULL);
    VecWordIn(h.mem, p, c, Zero);
    var mem' := QueueMem(h.mem, h.thrd[t].vecFreeIn, c, Buf(T.Masked(p.tick), id, SPT_NULL));
    QueueMemGranted(h.mem, p.pages, h.thrd[t].vecFreeIn, c, Buf(T.Masked(p.tick), id, SPT_NULL));
    var h' := h.(mem := mem', thrd := h.thrd[t := QueueVecData(h.thrd[t], c)]);
    SwapBodies(h', SetThread(p, t, q.threads[t]), q);
    Seal(h', q);
  }

  lemma DbQueued(h: Heap, p: Pool, t: nat, c: nat, id: nat)
    requires Sealed(h, p) && Granted(h.mem, p.pages) && t < |p.threads|
    requires c in p.liveVecs && id in p.liveDbs && c !in p.body
    ensures t < |h.thrd| && (h.thrd[t].dataFreeIn != SPT_NULL ==>
              h.thrd[t].dataFreeIn != c && h.thrd[t].dataFreeIn in h.mem && h.mem[h.thrd[t].dataFreeIn].Buf?)
    ensures var mem' := QueueMem(h.mem, h.thrd[t].dataFreeIn, c, Buf(T.Masked(p.tick), id, SPT_NULL));
      && Sealed(h.(mem := mem', thrd := h.thrd[t := QueueDbData(h.thrd[t], c)]), QueueDb(p, t, c, id))
      && Granted(mem', p.pages)
  {
    Unseal(h, p);
    var q, n := QueueDb(p, t, c, id), Node(c, p.tick, id);
    CarrierReady(h, p, t, c);
    QueueDbGood(p, t, c, id);
    QueueDbRep(h, p, t, n, SPT_NULL);
    VecWordIn(h.mem, p, c, Zero);
    var mem' := QueueMem(h.mem, h.thrd[t].dataFreeIn, c, Buf(T.Masked(p.tick), id, SPT_NULL));
    QueueMemGranted(h.mem, p.pages, h.thrd[t].dataFreeIn, c, Buf(T.Masked(p.tick), id, SPT_NULL));
    var h' := h.(mem := mem', thrd := h.thrd[t := QueueDbData(h.thrd[t], c)]);
    SwapBodies(h', SetThread(p, t, q.threads[t]), q);
    Seal(h', q);
  }
}

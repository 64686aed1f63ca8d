/** How the cluster's words, heads and per-thread records represent a pool. */
module ClusterRep {
  import opened Layout
  import opened PoolSpec
  import opened PoolLaws
  import T = TickAge

  /** The list ends: -1 for the free stacks, SPT_NULL for the per-thread lists. */
  const NONE: int := -1

  /** spt_thrd_data. */
  datatype ThreadData = ThreadData(
    vecCnt: int,
    vecListCnt: int,
    dataCnt: int,
    dataListCnt: int,
    vecFreeIn: nat,
    vecAllocOut: nat,
    dataFreeIn: nat,
    dataAllocOut: nat,
    rsvCnt: int,
    rsvList: nat)

  /** Words per item: the word of block b is 4b, of db d is 2d, of vec v is v. */
  const BLK_WORDS: nat := 4
  const DB_WORDS: nat := 2
  const PG_WORDS: nat := 512

  function LinkTarget(s: seq<nat>, end: int, i: nat): int
    requires i < |s|
  {
    if i + 1 < |s| then s[i + 1] else end
  }

  ghost predicate CellAt(mem: map<nat, Cell>, scale: nat, end: int, s: seq<nat>, i: nat) {
    i < |s| ==> s[i] * scale in mem && mem[s[i] * scale] == Link(LinkTarget(s, end, i))
  }

  /** Following the links from `head` visits exactly `s`. */
  ghost predicate StackRep(mem: map<nat, Cell>, scale: nat, head: int, end: int, s: seq<nat>) {
    && head == (if s == [] then end else s[0])
    && forall i: nat :: CellAt(mem, scale, end, s, i)
  }

  /** The tail's link is never read, so it may be anything. */
  ghost predicate NodeAt(mem: map<nat, Cell>, buf: seq<Node>, i: nat) {
    i < |buf| ==>
      && buf[i].carrier in mem && mem[buf[i].carrier].Buf?
      && mem[buf[i].carrier].tick == T.Masked(buf[i].stamp)
      && mem[buf[i].carrier].id == buf[i].id
      && (i + 1 < |buf| ==> mem[buf[i].carrier].next == buf[i + 1].carrier)
  }

  /** A queue between its two ends, which are null together. */
  ghost predicate QueueRep(mem: map<nat, Cell>, freeIn: nat, allocOut: nat, buf: seq<Node>) {
    && freeIn == (if buf == [] then SPT_NULL else buf[|buf| - 1].carrier)
    && allocOut == (if buf == [] then SPT_NULL else buf[0].carrier)
    && forall i: nat :: NodeAt(mem, buf, i)
  }

  ghost predicate ThreadRep(mem: map<nat, Cell>, td: ThreadData, th: Thread) {
    && StackRep(mem, 1, td.rsvList, SPT_NULL, th.rsv)
    && td.rsvCnt == |th.rsv|
    && QueueRep(mem, td.vecFreeIn, td.vecAllocOut, th.vbuf)
    && td.vecListCnt == |th.vbuf|
    && td.vecCnt == 2 * |th.vbuf| - One(Spent(th.vbuf))
    && QueueRep(mem, td.dataFreeIn, td.dataAllocOut, th.dbuf)
    && td.dataListCnt == |th.dbuf| && td.dataCnt == |th.dbuf|
  }

  ghost predicate ThreadsRep(mem: map<nat, Cell>, thrd: seq<ThreadData>, ths: seq<Thread>) {
    && |thrd| == |ths|
    && forall t: nat :: ThreadAt(mem, thrd, ths, t)
  }

  ghost predicate ThreadAt(mem: map<nat, Cell>, thrd: seq<ThreadData>, ths: seq<Thread>, t: nat) {
    t < |thrd| && t < |ths| ==> ThreadRep(mem, thrd[t], ths[t])
  }

  /** What clients wrote is still there. */
  ghost predicate BodyRep(mem: map<nat, Cell>, body: map<nat, Cell>) {
    forall v :: v in body ==> v in mem && mem[v] == body[v]
  }

  ghost predicate DbBodyRep(mem: map<nat, Cell>, body: map<nat, DbBody>) {
    forall d: nat :: d in body ==> DbAt(mem, d, body[d])
  }

  ghost predicate DbAt(mem: map<nat, Cell>, d: nat, b: DbBody) {
    && d * DB_WORDS in mem && mem[d * DB_WORDS] == DbHead(b.rsv)
    && d * DB_WORDS + 1 in mem && mem[d * DB_WORDS + 1] == DbData(b.pdata)
  }

  /** The cluster's memory: the words of its pages, the three heads and the records. */
  datatype Heap = Heap(mem: map<nat, Cell>, blkHead: int, vecHead: int, dbHead: int, thrd: seq<ThreadData>)

  ghost predicate HeapRep(h: Heap, p: Pool) {
    && StackRep(h.mem, BLK_WORDS, h.blkHead, NONE, p.blks)
    && StackRep(h.mem, 1, h.vecHead, NONE, p.vecs)
    && StackRep(h.mem, DB_WORDS, h.dbHead, NONE, p.dbs)
    && ThreadsRep(h.mem, h.thrd, p.threads)
    && BodyRep(h.mem, p.body) && DbBodyRep(h.mem, p.dbBody)
  }

  // ---------------------------------------------------------------- frames

  /** No list and no client's contents run through the word. */
  ghost predicate Free(p: Pool, w: nat) {
    && w !in p.vecs && w !in p.body
    && (forall b :: b in p.blks ==> b * BLK_WORDS != w)
    && (forall d :: d in p.dbs ==> d * DB_WORDS != w)
    && (forall d: nat :: d in p.dbBody ==> d * DB_WORDS != w && d * DB_WORDS + 1 != w)
    && (forall t: nat :: t < |p.threads| ==> Unlisted(p.threads[t], w))
  }

  /** Only free words differ. */
  ghost predicate Agree(mem: map<nat, Cell>, mem': map<nat, Cell>, p: Pool) {
    forall w :: w in mem && !Free(p, w) ==> w in mem' && mem'[w] == mem[w]
  }

  lemma StackFrame(mem: map<nat, Cell>, mem': map<nat, Cell>, scale: nat, head: int, end: int, s: seq<nat>)
    requires StackRep(mem, scale, head, end, s)
    requires forall x :: x in s && x * scale in mem ==> x * scale in mem' && mem'[x * scale] == mem[x * scale]
    ensures StackRep(mem', scale, head, end, s)
  {
    forall i: nat ensures CellAt(mem', scale, end, s, i) {
      assert CellAt(mem, scale, end, s, i);
      assert i < |s| ==> s[i] in s;
    }
  }

  lemma QueueFrame(mem: map<nat, Cell>, mem': map<nat, Cell>, freeIn: nat, allocOut: nat, buf: seq<Node>)
    requires QueueRep(mem, freeIn, allocOut, buf)
    requires forall c :: c in Carriers(buf) && c in mem ==> c in mem' && mem'[c] == mem[c]
    ensures QueueRep(mem', freeIn, allocOut, buf)
  {
    forall i: nat ensures NodeAt(mem', buf, i) {
      assert NodeAt(mem, buf, i);
      assert i < |buf| ==> Carriers(buf)[i] in Carriers(buf);
    }
  }

  lemma ThreadFrame(mem: map<nat, Cell>, mem': map<nat, Cell>, td: ThreadData, th: Thread)
    requires ThreadRep(mem, td, th)
    requires forall w :: !Unlisted(th, w) && w in mem ==> w in mem' && mem'[w] == mem[w]
    ensures ThreadRep(mem', td, th)
  {
    forall x | x in th.rsv ensures !Unlisted(th, x) {}
    StackFrame(mem, mem', 1, td.rsvList, SPT_NULL, th.rsv);
    QueueFrame(mem, mem', td.vecFreeIn, td.vecAllocOut, th.vbuf);
    QueueFrame(mem, mem', td.dataFreeIn, td.dataAllocOut, th.dbuf);
  }

  lemma StacksFrame(h: Heap, mem': map<nat, Cell>, p: Pool)
    requires Agree(h.mem, mem', p) && HeapRep(h, p)
    ensures StackRep(mem', BLK_WORDS, h.blkHead, NONE, p.blks)
    ensures StackRep(mem', 1, h.vecHead, NONE, p.vecs)
    ensures StackRep(mem', DB_WORDS, h.dbHead, NONE, p.dbs)
  {
    StackFrame(h.mem, mem', BLK_WORDS, h.blkHead, NONE, p.blks);
    StackFrame(h.mem, mem', 1, h.vecHead, NONE, p.vecs);
    StackFrame(h.mem, mem', DB_WORDS, h.dbHead, NONE, p.dbs);
  }

  lemma ThreadsFrame(mem: map<nat, Cell>, mem': map<nat, Cell>, thrd: seq<ThreadData>, p: Pool)
    requires Agree(mem, mem', p) && ThreadsRep(mem, thrd, p.threads)
    ensures ThreadsRep(mem', thrd, p.threads)
  {
    forall t: nat ensures ThreadAt(mem', thrd, p.threads, t) {
      assert ThreadAt(mem, thrd, p.threads, t);
      if t < |thrd| {
        forall w | !Unlisted(p.threads[t], w) ensures !Free(p, w) {}
        ThreadFrame(mem, mem', thrd[t], p.threads[t]);
      }
    }
  }

  lemma ContentsFrame(mem: map<nat, Cell>, mem': map<nat, Cell>, p: Pool)
    requires Agree(mem, mem', p) && BodyRep(mem, p.body) && DbBodyRep(mem, p.dbBody)
    ensures BodyRep(mem', p.body) && DbBodyRep(mem', p.dbBody)
  {
    forall d: nat | d in p.dbBody ensures DbAt(mem', d, p.dbBody[d]) {
      assert DbAt(mem, d, p.dbBody[d]);
    }
  }

  /** Writes to free words change nothing a pool is made of. */
  lemma HeapFrame(h: Heap, mem': map<nat, Cell>, p: Pool)
    requires HeapRep(h, p) && Agree(h.mem, mem', p)
    ensures HeapRep(h.(mem := mem'), p)
  {
    StacksFrame(h, mem', p);
    ThreadsFrame(h.mem, mem', h.thrd, p);
    ContentsFrame(h.mem, mem', p);
  }

  lemma HeapWrite(h: Heap, p: Pool, w: nat, c: Cell)
    requires HeapRep(h, p) && Free(p, w)
    ensures HeapRep(h.(mem := h.mem[w := c]), p)
  {
    assert Agree(h.mem, h.mem[w := c], p);
    HeapFrame(h, h.mem[w := c], p);
  }

  lemma SwapBodies(h: Heap, p: Pool, q: Pool)
    requires HeapRep(h, p) && BodyRep(h.mem, q.body) && DbBodyRep(h.mem, q.dbBody)
    requires q.blks == p.blks && q.vecs == p.vecs && q.dbs == p.dbs && q.threads == p.threads
    ensures HeapRep(h, q)
  {
  }

  // ---------------------------------------------------------------- stack moves

  lemma PopStack(mem: map<nat, Cell>, scale: nat, head: int, end: int, s: seq<nat>)
    requires StackRep(mem, scale, head, end, s) && s != []
    ensures s[0] * scale in mem && mem[s[0] * scale].Link?
    ensures StackRep(mem, scale, mem[s[0] * scale].to, end, s[1..])
  {
    assert CellAt(mem, scale, end, s, 0);
    forall i: nat ensures CellAt(mem, scale, end, s[1..], i) {
      assert CellAt(mem, scale, end, s, i + 1);
    }
  }

  lemma PushStack(mem: map<nat, Cell>, scale: nat, head: int, end: int, s: seq<nat>, x: nat)
    requires StackRep(mem, scale, head, end, s)
    requires x * scale in mem && mem[x * scale] == Link(head)
    ensures StackRep(mem, scale, x, end, [x] + s)
  {
    forall i: nat ensures CellAt(mem, scale, end, [x] + s, i) {
      if i > 0 { assert CellAt(mem, scale, end, s, i - 1); }
    }
  }

  /** A chain of consecutive items, linked up to the last one. */
  ghost predicate ChainRep(mem: map<nat, Cell>, scale: nat, base: nat, total: nat) {
    forall i: nat :: ChainAt(mem, scale, base, total, i)
  }

  ghost predicate ChainAt(mem: map<nat, Cell>, scale: nat, base: nat, total: nat, i: nat) {
    i + 1 < total ==> (base + i) * scale in mem && mem[(base + i) * scale] == Link(base + i + 1)
  }

  lemma ScaledApart(a: nat, b: nat, scale: nat)
    requires a != b && scale > 0
    ensures a * scale != b * scale
  {
    if a < b {
      assert b * scale == a * scale + (b - a) * scale && (b - a) * scale > 0;
    } else {
      assert a * scale == b * scale + (a - b) * scale && (a - b) * scale > 0;
    }
  }

  lemma ChainLonger(mem: map<nat, Cell>, scale: nat, base: nat, total: nat)
    requires ChainRep(mem, scale, base, total) && total > 0
    requires (base + total - 1) * scale in mem && mem[(base + total - 1) * scale] == Link(base + total)
    ensures ChainRep(mem, scale, base, total + 1)
  {
    var more := total + 1;
    forall i: nat ensures ChainAt(mem, scale, base, more, i) {
      assert ChainAt(mem, scale, base, total, i);
    }
  }

  /** Writing the last item's word: a link to the next makes the chain longer. */
  lemma ChainGrow(mem: map<nat, Cell>, scale: nat, base: nat, total: nat, c: Cell)
    requires ChainRep(mem, scale, base, total) && total > 0 && scale > 0
    ensures ChainRep(mem[(base + total - 1) * scale := c], scale, base, total)
    ensures c == Link(base + total) ==> ChainRep(mem[(base + total - 1) * scale := c], scale, base, total + 1)
  {
    var mem' := mem[(base + total - 1) * scale := c];
    forall i: nat ensures ChainAt(mem', scale, base, total, i) {
      assert ChainAt(mem, scale, base, total, i);
      if i + 1 < total { ScaledApart(base + i, base + total - 1, scale); }
    }
    if c == Link(base + total) { ChainLonger(mem', scale, base, total); }
  }

  lemma PushChain(mem: map<nat, Cell>, scale: nat, head: int, end: int, s: seq<nat>, base: nat, total: nat)
    requires StackRep(mem, scale, head, end, s) && total > 0 && ChainRep(mem, scale, base, total)
    requires (base + total - 1) * scale in mem && mem[(base + total - 1) * scale] == Link(head)
    ensures StackRep(mem, scale, base, end, Carved(base, total) + s)
  {
    var l := Carved(base, total) + s;
    forall i: nat ensures CellAt(mem, scale, end, l, i) {
      if i + 1 < total {
        assert ChainAt(mem, scale, base, total, i);
      } else if total <= i {
        assert CellAt(mem, scale, end, s, i - total);
      }
    }
  }

  /** One thread's lists change, the others' do not. */
  lemma SetThreadRep(mem: map<nat, Cell>, thrd: seq<ThreadData>, ths: seq<Thread>, t: nat, td: ThreadData, th: Thread)
    requires ThreadsRep(mem, thrd, ths) && t < |ths| && ThreadRep(mem, td, th)
    ensures ThreadsRep(mem, thrd[t := td], ths[t := th])
  {
    var thrd', ths' := thrd[t := td], ths[t := th];
    forall u: nat ensures ThreadAt(mem, thrd', ths', u) {
      assert ThreadAt(mem, thrd, ths, u);
    }
  }

  // ---------------------------------------------------------------- queue moves

  lemma PopQueue(mem: map<nat, Cell>, freeIn: nat, allocOut: nat, buf: seq<Node>)
    requires QueueRep(mem, freeIn, allocOut, buf) && |buf| > 1
    ensures buf[0].carrier in mem && mem[buf[0].carrier].Buf?
    ensures QueueRep(mem, freeIn, mem[buf[0].carrier].next, buf[1..])
  {
    assert NodeAt(mem, buf, 0);
    forall i: nat ensures NodeAt(mem, buf[1..], i) {
      assert NodeAt(mem, buf, i + 1);
    }
  }

  lemma CarrierTwice(b: seq<Node>)
    requires |b| > 0
    ensures multiset(Carriers(b))[b[0].carrier] >= 1
    ensures |b| > 1 && b[0].carrier == b[|b| - 1].carrier ==> multiset(Carriers(b))[b[0].carrier] >= 2
  {
    DropHead(b);
    if |b| > 1 { assert Carriers(b[1..])[|b| - 2] == b[|b| - 1].carrier; }
  }

  /** A carrier is in its queue once, so the two ends of a longer queue differ. */
  lemma VecEndsMeet(p: Pool, t: nat)
    requires Inv(p) && t < |p.threads| && p.threads[t].vbuf != []
    ensures var b := p.threads[t].vbuf; b[0].carrier == b[|b| - 1].carrier <==> |b| == 1
  {
    var b := p.threads[t].vbuf;
    ShareExcludes(p, t, b[0].carrier);
    CarrierTwice(b);
  }

  lemma DataEndsMeet(p: Pool, t: nat)
    requires Inv(p) && t < |p.threads| && p.threads[t].dbuf != []
    ensures var b := p.threads[t].dbuf; b[0].carrier == b[|b| - 1].carrier <==> |b| == 1
  {
    var b := p.threads[t].dbuf;
    ShareExcludes(p, t, b[0].carrier);
    CarrierTwice(b);
  }

  /** No list of a thread runs through SPT_NULL, so the null ends are unambiguous. */
  lemma NullUnlisted(p: Pool, t: nat)
    requires Inv(p) && t < |p.threads|
    ensures Unlisted(p.threads[t], SPT_NULL)
  {
    if !Unlisted(p.threads[t], SPT_NULL) {
      SharesBound(p.threads, t, SPT_NULL);
      IdsBelowNull(p, SPT_NULL);
    }
  }
}

/** The laws of the allocator's calls: every id is in exactly one place, after any calls. */
module PoolLaws {
  import opened Options
  import opened Layout
  import opened ThreadSums
  import opened PoolSpec
  import T = TickAge

  // ---------------------------------------------------------------- places of an id

  function Carriers(buf: seq<Node>): (s: seq<nat>)
    ensures |s| == |buf|
  {
    seq(|buf|, i requires 0 <= i < |buf| => buf[i].carrier)
  }

  function Ids(buf: seq<Node>): (s: seq<nat>)
    ensures |s| == |buf|
  {
    seq(|buf|, i requires 0 <= i < |buf| => buf[i].id)
  }

  predicate Spent(buf: seq<Node>) {
    buf != [] && buf[0].id == SPT_NULL
  }

  /** The vecs parked in a vec queue; a spent head parks none. */
  function Parked(buf: seq<Node>): seq<nat> {
    Ids(if Spent(buf) then buf[1..] else buf)
  }

  function One(b: bool): nat {
    if b then 1 else 0
  }

  /** How many places of thread `th` hold vec `v`. */
  function VecShare(th: Thread, v: nat): nat {
    multiset(th.rsv)[v] + multiset(Carriers(th.vbuf))[v] + multiset(Parked(th.vbuf))[v]
    + multiset(Carriers(th.dbuf))[v]
  }

  function DbShare(th: Thread, d: nat): nat {
    multiset(Ids(th.dbuf))[d]
  }

  function VecShares(ths: seq<Thread>, v: nat): seq<int> {
    seq(|ths|, i requires 0 <= i < |ths| => VecShare(ths[i], v))
  }

  function DbShares(ths: seq<Thread>, d: nat): seq<int> {
    seq(|ths|, i requires 0 <= i < |ths| => DbShare(ths[i], d))
  }

  /** How many places hold vec `v`: the free stack, the client, and per thread the
      reserved list, the carriers of both queues and the parked ids. */
  function VecCount(p: Pool, v: nat): int {
    multiset(p.vecs)[v] + One(v in p.liveVecs) + Sum(VecShares(p.threads, v))
  }

  function DbCount(p: Pool, d: nat): int {
    multiset(p.dbs)[d] + One(d in p.liveDbs) + Sum(DbShares(p.threads, d))
  }

  function BlkCount(p: Pool, b: nat): int {
    multiset(p.blks)[b] + One(b in p.outBlks) + One(b in p.vecBlks) + One(b in p.dbBlks)
  }

  /** Every block of an installed page is in one place, and so is every vec of a block
      carved into vecs and every db of a block carved into dbs; no other id is anywhere. */
  ghost predicate Partition(p: Pool) {
    && (forall b: nat {:trigger BlkCount(p, b)} :: BlkCount(p, b) == One(b / BLK_PER_PG in p.pages))
    && (forall v: nat {:trigger VecCount(p, v)} :: VecCount(p, v) == One(v / VEC_PER_BLK in p.vecBlks))
    && (forall d: nat {:trigger DbCount(p, d)} :: DbCount(p, d) == One(d / DB_PER_BLK in p.dbBlks))
  }

  ghost predicate PagesOk(p: Pool) {
    p.cursor <= PG_NUM_MAX - 1 && forall pg :: pg in p.pages ==> pg < p.cursor
  }

  /** Queue order: stamps never decrease and never lie ahead of the clock. */
  ghost predicate Ordered(tick: nat, buf: seq<Node>) {
    && (forall i, j :: 0 <= i < j < |buf| ==> buf[i].stamp <= buf[j].stamp)
    && (forall i :: 0 <= i < |buf| ==> buf[i].stamp <= tick)
  }

  /** Only the head of a vec queue is ever spent, and then it is two ticks old; a db
      queue has no spent node. */
  ghost predicate QueuesOk(tick: nat, th: Thread) {
    && Ordered(tick, th.vbuf) && Ordered(tick, th.dbuf)
    && (forall i :: 0 < i < |th.vbuf| ==> th.vbuf[i].id != SPT_NULL)
    && (Spent(th.vbuf) ==> tick >= th.vbuf[0].stamp + 2)
    && (forall i :: 0 <= i < |th.dbuf| ==> th.dbuf[i].id != SPT_NULL)
  }

  /** No list of the allocator runs through `v`. */
  ghost predicate Unlisted(th: Thread, v: nat) {
    v !in th.rsv && v !in Carriers(th.vbuf) && v !in Carriers(th.dbuf)
  }

  /** Client contents are remembered only for words no list runs through. */
  ghost predicate VecBodiesOk(body: map<nat, Cell>, vecBlks: set<nat>, vecs: seq<nat>, ths: seq<Thread>) {
    && (forall v :: v in body ==> v / VEC_PER_BLK in vecBlks && v !in vecs)
    && (forall v, t :: v in body && 0 <= t < |ths| ==> Unlisted(ths[t], v))
  }

  /** Every live or queued db has contents, no free one has. */
  ghost predicate DbBodiesOk(body: map<nat, DbBody>, dbBlks: set<nat>, dbs: seq<nat>, live: set<nat>, ths: seq<Thread>) {
    && (forall d :: d in body ==> d / DB_PER_BLK in dbBlks && d !in dbs)
    && (forall d :: d in live ==> d in body)
    && (forall t, d :: 0 <= t < |ths| && d in Ids(ths[t].dbuf) ==> d in body)
  }

  ghost predicate BodiesOk(p: Pool) {
    && VecBodiesOk(p.body, p.vecBlks, p.vecs, p.threads)
    && DbBodiesOk(p.dbBody, p.dbBlks, p.dbs, p.liveDbs, p.threads)
  }

  ghost predicate Inv(p: Pool) {
    && Partition(p) && PagesOk(p)
    && (forall t :: 0 <= t < |p.threads| ==> QueuesOk(p.tick, p.threads[t]))
  }

  lemma SharesUpdate(ths: seq<Thread>, t: nat, th: Thread, x: nat)
    requires t < |ths|
    ensures Sum(VecShares(ths[t := th], x)) == Sum(VecShares(ths, x)) - VecShare(ths[t], x) + VecShare(th, x)
    ensures Sum(DbShares(ths[t := th], x)) == Sum(DbShares(ths, x)) - DbShare(ths[t], x) + DbShare(th, x)
  {
    VecSharesUpdate(ths, t, th, x);
    DbSharesUpdate(ths, t, th, x);
    SumUpdate(VecShares(ths, x), t, VecShare(th, x));
    SumUpdate(DbShares(ths, x), t, DbShare(th, x));
  }

  lemma VecSharesUpdate(ths: seq<Thread>, t: nat, th: Thread, x: nat)
    requires t < |ths|
    ensures VecShares(ths[t := th], x) == VecShares(ths, x)[t := VecShare(th, x)]
  {
  }

  lemma DbSharesUpdate(ths: seq<Thread>, t: nat, th: Thread, x: nat)
    requires t < |ths|
    ensures DbShares(ths[t := th], x) == DbShares(ths, x)[t := DbShare(th, x)]
  {
  }

  lemma SharesBound(ths: seq<Thread>, t: nat, x: nat)
    requires t < |ths|
    ensures VecShare(ths[t], x) <= Sum(VecShares(ths, x))
    ensures DbShare(ths[t], x) <= Sum(DbShares(ths, x))
  {
    SumNonNegative(VecShares(ths, x));
    SumNonNegative(DbShares(ths, x));
    assert VecShares(ths, x)[t] == VecShare(ths[t], x) && DbShares(ths, x)[t] == DbShare(ths[t], x);
  }

  // ---------------------------------------------------------------- pages and blocks

  lemma CarvedCount(base: nat, total: nat, x: nat)
    ensures multiset(Carved(base, total))[x] == One(base <= x < base + total)
    decreases total
  {
    if total > 0 {
      CarvedCount(base, total - 1, x);
      assert Carved(base, total) == Carved(base, total - 1) + [base + total - 1];
    }
  }

  lemma InstallPageKeeps(p: Pool, pg: nat)
    requires Inv(p) && pg < p.cursor && pg !in p.pages
    ensures Inv(InstallPage(p, pg))
  {
    var q := InstallPage(p, pg);
    forall b: nat ensures BlkCount(q, b) == One(b / BLK_PER_PG in q.pages) {
      CarvedCount(pg * BLK_PER_PG, BLK_PER_PG, b);
      assert BlkCount(p, b) == One(b / BLK_PER_PG in p.pages);
    }
    assert forall v: nat :: VecCount(q, v) == VecCount(p, v);
    assert forall d: nat :: DbCount(q, d) == DbCount(p, d);
  }

  lemma CursorKeeps(p: Pool)
    requires Inv(p) && p.cursor + 1 < PG_NUM_MAX
    ensures Inv(p.(cursor := p.cursor + 1)) && p.cursor !in p.pages
  {
    var q := p.(cursor := p.cursor + 1);
    assert forall x: nat :: BlkCount(q, x) == BlkCount(p, x) && VecCount(q, x) == VecCount(p, x) && DbCount(q, x) == DbCount(p, x);
  }

  lemma AddPageKeeps(p: Pool, env: Env)
    requires Inv(p)
    ensures Inv(AddPage(p, env).0)
  {
    if p.cursor + 1 < PG_NUM_MAX {
      CursorKeeps(p);
      var p1 := p.(cursor := p.cursor + 1);
      if env.grant(p.cursor) { InstallPageKeeps(p1, p.cursor); }
    }
  }

  lemma TakeBlkKeeps(p: Pool)
    requires Inv(p) && p.blks != []
    ensures Inv(TakeBlk(p))
  {
    var q := TakeBlk(p);
    assert p.blks == [p.blks[0]] + q.blks;
    forall b: nat ensures BlkCount(q, b) == One(b / BLK_PER_PG in q.pages) {
      assert BlkCount(p, b) == One(b / BLK_PER_PG in p.pages);
    }
    assert forall v: nat :: VecCount(q, v) == VecCount(p, v);
    assert forall d: nat :: DbCount(q, d) == DbCount(p, d);
  }

  lemma BlkAllocKeeps(p: Pool, env: Env)
    requires Inv(p)
    ensures Inv(BlkAlloc(p, env).0)
  {
    AddPageKeeps(p, env);
    AddPageKeeps(AddPage(p, env).0, env);
    if RefillBlks(p, env).blks != [] { TakeBlkKeeps(RefillBlks(p, env)); }
  }

  lemma CarveKeeps(p: Pool, b: nat)
    requires Inv(p) && b in p.outBlks
    ensures Inv(CarveVecs(p, b)) && Inv(CarveDbs(p, b))
  {
    var q, r := CarveVecs(p, b), CarveDbs(p, b);
    assert BlkCount(p, b) == One(b / BLK_PER_PG in p.pages);
    forall x: nat ensures BlkCount(q, x) == BlkCount(p, x) && BlkCount(r, x) == BlkCount(p, x) {}
    forall v: nat ensures VecCount(q, v) == One(v / VEC_PER_BLK in q.vecBlks)
                  ensures VecCount(r, v) == One(v / VEC_PER_BLK in r.vecBlks) {
      CarvedCount(b * VEC_PER_BLK, VEC_PER_BLK, v);
      assert VecCount(p, v) == One(v / VEC_PER_BLK in p.vecBlks);
    }
    forall d: nat ensures DbCount(q, d) == One(d / DB_PER_BLK in q.dbBlks)
                  ensures DbCount(r, d) == One(d / DB_PER_BLK in r.dbBlks) {
      CarvedCount(b * DB_PER_BLK, DB_PER_BLK, d);
      assert DbCount(p, d) == One(d / DB_PER_BLK in p.dbBlks);
    }
  }

  lemma AddBlkKeeps(p: Pool, env: Env)
    requires Inv(p)
    ensures Inv(VecAddBlk(p, env).0) && Inv(DbAddBlk(p, env).0)
  {
    BlkAllocKeeps(p, env);
    var (p1, b) := BlkAlloc(p, env);
    if b.Some? { CarveKeeps(p1, b.value); }
  }

  // ---------------------------------------------------------------- vecs and dbs

  lemma RefillKeeps(p: Pool, env: Env)
    requires Inv(p)
    ensures Inv(RefillVecs(p, env)) && Inv(RefillDbs(p, env))
  {
    AddBlkKeeps(p, env);
    AddBlkKeeps(VecAddBlk(p, env).0, env);
    AddBlkKeeps(DbAddBlk(p, env).0, env);
  }

  lemma TakeVecKeeps(p: Pool)
    requires Inv(p) && p.vecs != []
    ensures Inv(TakeVec(p)) && p.vecs[0] !in p.liveVecs
  {
    var q := TakeVec(p);
    assert p.vecs == [p.vecs[0]] + q.vecs;
    forall v: nat ensures VecCount(q, v) == One(v / VEC_PER_BLK in q.vecBlks)
                  ensures v == p.vecs[0] ==> v !in p.liveVecs {
      SharesNonNegative(p.threads, v);
      assert VecCount(p, v) == One(v / VEC_PER_BLK in p.vecBlks);
    }
    assert forall b: nat :: BlkCount(q, b) == BlkCount(p, b);
    assert forall d: nat :: DbCount(q, d) == DbCount(p, d);
  }

  lemma TakeDbKeeps(p: Pool)
    requires Inv(p) && p.dbs != []
    ensures Inv(TakeDb(p)) && p.dbs[0] !in p.liveDbs && p.dbs[0] !in p.dbs[1..] && p.dbs[0] / DB_PER_BLK in p.dbBlks
  {
    var q := TakeDb(p);
    assert p.dbs == [p.dbs[0]] + q.dbs;
    forall d: nat ensures DbCount(q, d) == One(d / DB_PER_BLK in q.dbBlks)
                  ensures d == p.dbs[0] ==> d !in p.liveDbs && d !in q.dbs && d / DB_PER_BLK in p.dbBlks {
      SharesNonNegative(p.threads, d);
      assert DbCount(p, d) == One(d / DB_PER_BLK in p.dbBlks);
    }
    assert forall b: nat :: BlkCount(q, b) == BlkCount(p, b);
    assert forall v: nat :: VecCount(q, v) == VecCount(p, v);
  }

  lemma VecAllocKeeps(p: Pool, env: Env)
    requires Inv(p)
    ensures Inv(VecAlloc(p, env).0)
  {
    RefillKeeps(p, env);
    if RefillVecs(p, env).vecs != [] { TakeVecKeeps(RefillVecs(p, env)); }
  }

  lemma DbAllocKeeps(p: Pool, env: Env)
    requires Inv(p)
    ensures Inv(DbAlloc(p, env).0)
  {
    RefillKeeps(p, env);
    if RefillDbs(p, env).dbs != [] { TakeDbKeeps(RefillDbs(p, env)); }
  }

  lemma SharesNonNegative(ths: seq<Thread>, x: nat)
    ensures 0 <= Sum(VecShares(ths, x)) && 0 <= Sum(DbShares(ths, x))
  {
    SumNonNegative(VecShares(ths, x));
    SumNonNegative(DbShares(ths, x));
  }

  // ---------------------------------------------------------------- queues

  /** The places of vec `x` that a call of thread `t` can change. */
  function VecLocal(p: Pool, t: nat, x: nat): int
    requires t < |p.threads|
  {
    multiset(p.vecs)[x] + One(x in p.liveVecs) + VecShare(p.threads[t], x)
  }

  function DbLocal(p: Pool, t: nat, x: nat): int
    requires t < |p.threads|
  {
    multiset(p.dbs)[x] + One(x in p.liveDbs) + DbShare(p.threads[t], x)
  }

  lemma DropHead(buf: seq<Node>)
    requires buf != []
    ensures Carriers(buf) == [buf[0].carrier] + Carriers(buf[1..])
    ensures Ids(buf) == [buf[0].id] + Ids(buf[1..])
  {
  }

  /** Taking the head off a vec queue gives up its carrier and, unless spent, its id. */
  lemma DropVecHead(th: Thread, x: nat)
    requires th.vbuf != [] && !Spent(th.vbuf[1..])
    ensures var n := th.vbuf[0];
      VecShare(th.(vbuf := th.vbuf[1..]), x)
        == VecShare(th, x) - One(x == n.carrier) - One(n.id != SPT_NULL && x == n.id)
  {
    DropHead(th.vbuf);
  }

  lemma DropDbHead(th: Thread, x: nat)
    requires th.dbuf != []
    ensures VecShare(th.(dbuf := th.dbuf[1..]), x) == VecShare(th, x) - One(x == th.dbuf[0].carrier)
    ensures DbShare(th.(dbuf := th.dbuf[1..]), x) == DbShare(th, x) - One(x == th.dbuf[0].id)
  {
    DropHead(th.dbuf);
  }

  /** Spending the head gives up its id alone. */
  lemma SpendHead(th: Thread, x: nat)
    requires th.vbuf != [] && th.vbuf[0].id != SPT_NULL
    ensures VecShare(th.(vbuf := [th.vbuf[0].(id := SPT_NULL)] + th.vbuf[1..]), x)
        == VecShare(th, x) - One(x == th.vbuf[0].id)
  {
    var buf' := [th.vbuf[0].(id := SPT_NULL)] + th.vbuf[1..];
    DropHead(th.vbuf);
    DropHead(buf');
    assert buf'[1..] == th.vbuf[1..];
  }

  /** The largest vec id there can be is below SPT_NULL, because the last page number is
      never given out; so no id is mistaken for the null id, and ids fit in 23 bits. */
  lemma IdsBelowNull(p: Pool, v: nat)
    requires Inv(p) && VecCount(p, v) > 0
    ensures v < SPT_NULL && v / (VEC_PER_BLK * BLK_PER_PG) in p.pages
  {
    assert VecCount(p, v) == One(v / VEC_PER_BLK in p.vecBlks);
    assert BlkCount(p, v / VEC_PER_BLK) == One(v / VEC_PER_BLK / BLK_PER_PG in p.pages);
    assert v / VEC_PER_BLK / BLK_PER_PG == v / (VEC_PER_BLK * BLK_PER_PG);
  }

  lemma DbIdsBelowNull(p: Pool, d: nat)
    requires Inv(p) && DbCount(p, d) > 0
    ensures d < SPT_NULL && d / (DB_PER_BLK * BLK_PER_PG) in p.pages
  {
    assert DbCount(p, d) == One(d / DB_PER_BLK in p.dbBlks);
    assert BlkCount(p, d / DB_PER_BLK) == One(d / DB_PER_BLK / BLK_PER_PG in p.pages);
    assert d / DB_PER_BLK / BLK_PER_PG == d / (DB_PER_BLK * BLK_PER_PG);
  }

  lemma TwiceIn(s: seq<nat>, i: nat, j: nat)
    requires i < j < |s|
    ensures s[i] == s[j] ==> multiset(s)[s[i]] >= 2
  {
    assert s == s[..j] + s[j..];
    assert s[..j][i] == s[i] && s[j..][0] == s[j];
    assert s[i] in multiset(s[..j]) && s[j] in multiset(s[j..]);
  }

  /** A vec on one of a thread's lists is neither with the client nor on the free stack,
      and it is on that list once. */
  lemma ShareExcludes(p: Pool, t: nat, x: nat)
    requires Inv(p) && t < |p.threads|
    ensures VecShare(p.threads[t], x) > 0 ==> VecShare(p.threads[t], x) == 1 && x !in p.liveVecs && x !in p.vecs
    ensures DbShare(p.threads[t], x) > 0 ==> DbShare(p.threads[t], x) == 1 && x !in p.liveDbs && x !in p.dbs
  {
    SharesBound(p.threads, t, x);
    assert VecCount(p, x) == One(x / VEC_PER_BLK in p.vecBlks);
    assert DbCount(p, x) == One(x / DB_PER_BLK in p.dbBlks);
  }

  lemma HeadShares(th: Thread)
    ensures th.vbuf != [] ==> VecShare(th, th.vbuf[0].carrier) > 0
    ensures th.vbuf != [] && th.vbuf[0].id != SPT_NULL ==> VecShare(th, th.vbuf[0].id) > 0
    ensures th.dbuf != [] ==> VecShare(th, th.dbuf[0].carrier) > 0 && DbShare(th, th.dbuf[0].id) > 0
    ensures th.rsv != [] ==> VecShare(th, th.rsv[0]) > 0
  {
    if th.vbuf != [] { DropHead(th.vbuf); }
    if th.dbuf != [] { DropHead(th.dbuf); }
  }

  /** A call of thread `t` that touches no block and no other thread's lists. */
  ghost predicate Touches(p: Pool, q: Pool, t: nat) {
    && t < |p.threads| && |q.threads| == |p.threads| && q.threads == p.threads[t := q.threads[t]]
    && q.tick == p.tick && q.cursor == p.cursor && q.pages == p.pages
    && q.blks == p.blks && q.outBlks == p.outBlks && q.vecBlks == p.vecBlks && q.dbBlks == p.dbBlks
  }

  /** The books balance after a call that only moved ids between a thread's lists, the
      client and the free stacks. */
  lemma Balanced(p: Pool, q: Pool, t: nat)
    requires Inv(p) && Touches(p, q, t) && QueuesOk(q.tick, q.threads[t])
    requires forall x: nat :: VecLocal(q, t, x) == VecLocal(p, t, x)
    requires forall x: nat :: DbLocal(q, t, x) == DbLocal(p, t, x)
    ensures Inv(q)
  {
    assert forall b: nat :: BlkCount(q, b) == BlkCount(p, b);
    forall x: nat
      ensures VecCount(q, x) == One(x / VEC_PER_BLK in q.vecBlks)
      ensures DbCount(q, x) == One(x / DB_PER_BLK in q.dbBlks)
    {
      SharesUpdate(p.threads, t, q.threads[t], x);
      assert VecLocal(q, t, x) == VecLocal(p, t, x) && DbLocal(q, t, x) == DbLocal(p, t, x);
      assert VecCount(p, x) == One(x / VEC_PER_BLK in p.vecBlks);
      assert DbCount(p, x) == One(x / DB_PER_BLK in p.dbBlks);
    }
  }

  lemma QueueTail(tick: nat, th: Thread)
    requires QueuesOk(tick, th) && th.vbuf != []
    ensures QueuesOk(tick, th.(vbuf := th.vbuf[1..])) && !Spent(th.vbuf[1..])
  {
  }

  lemma VecAllocFromBufLocal(p: Pool, t: nat, x: nat)
    requires Inv(p) && t < |p.threads|
    ensures VecLocal(VecAllocFromBuf(p, t).0, t, x) == VecLocal(p, t, x)
  {
    var th := p.threads[t];
    if th.vbuf != [] {
      HeadShares(th);
      ShareExcludes(p, t, th.vbuf[0].carrier);
      ShareExcludes(p, t, th.vbuf[0].id);
      if th.vbuf[0].id == SPT_NULL { DropVecHead(th, x); } else { SpendHead(th, x); }
    }
  }

  /** A node is spent only after the expiry test, so a spent head is two ticks old. */
  lemma VecAllocFromBufQueues(p: Pool, t: nat)
    requires t < |p.threads| && QueuesOk(p.tick, p.threads[t])
    ensures QueuesOk(p.tick, VecAllocFromBuf(p, t).0.threads[t])
  {
    var th := p.threads[t];
    if th.vbuf != [] {
      T.ExpiredIsAge(p.tick, th.vbuf[0].stamp);
      QueueTail(p.tick, th);
    }
  }

  lemma VecAllocFromBufKeeps(p: Pool, t: nat)
    requires Inv(p) && t < |p.threads|
    ensures Inv(VecAllocFromBuf(p, t).0)
  {
    var q := VecAllocFromBuf(p, t).0;
    VecAllocFromBufQueues(p, t);
    forall x: nat ensures VecLocal(q, t, x) == VecLocal(p, t, x) { VecAllocFromBufLocal(p, t, x); }
    assert q.dbs == p.dbs && q.liveDbs == p.liveDbs && q.threads[t].dbuf == p.threads[t].dbuf;
    Balanced(p, q, t);
  }

  lemma RsvPushKeeps(p: Pool, t: nat, v: nat)
    requires Inv(p) && t < |p.threads| && v in p.liveVecs
    ensures Inv(RsvPush(p, t, v))
  {
    var q := RsvPush(p, t, v);
    assert forall x: nat :: VecLocal(q, t, x) == VecLocal(p, t, x);
    assert forall x: nat :: DbLocal(q, t, x) == DbLocal(p, t, x);
    Balanced(p, q, t);
  }

  /** A live vec is on no list of the allocator. */
  lemma LiveUnlisted(p: Pool, v: nat)
    requires Inv(p) && v in p.liveVecs
    ensures v !in p.vecs && v / VEC_PER_BLK in p.vecBlks
    ensures forall t :: 0 <= t < |p.threads| ==> Unlisted(p.threads[t], v)
  {
    assert VecCount(p, v) == One(v / VEC_PER_BLK in p.vecBlks);
    SharesNonNegative(p.threads, v);
    forall t | 0 <= t < |p.threads| ensures Unlisted(p.threads[t], v) {
      SharesBound(p.threads, t, v);
    }
  }

  lemma LiveDbUnlisted(p: Pool, d: nat)
    requires Inv(p) && d in p.liveDbs
    ensures d !in p.dbs && d / DB_PER_BLK in p.dbBlks
  {
    assert DbCount(p, d) == One(d / DB_PER_BLK in p.dbBlks);
    SharesNonNegative(p.threads, d);
  }

  // ---------------------------------------------------------------- client contents

  /** A block just taken belongs to neither kind yet. */
  lemma OutBlkFresh(p: Pool, b: nat)
    requires Inv(p) && b in p.outBlks
    ensures b !in p.vecBlks && b !in p.dbBlks && b !in p.blks && b / BLK_PER_PG in p.pages
  {
    assert BlkCount(p, b) == One(b / BLK_PER_PG in p.pages);
  }

  lemma CarvedVecBodies(body: map<nat, Cell>, vecBlks: set<nat>, vecs: seq<nat>, ths: seq<Thread>, b: nat)
    requires VecBodiesOk(body, vecBlks, vecs, ths) && b !in vecBlks
    ensures VecBodiesOk(body, vecBlks + {b}, Carved(b * VEC_PER_BLK, VEC_PER_BLK) + vecs, ths)
  {
    forall x: nat | x in Carved(b * VEC_PER_BLK, VEC_PER_BLK) ensures x !in body {
      assert x / VEC_PER_BLK == b;
    }
  }

  lemma CarvedDbBodies(body: map<nat, DbBody>, dbBlks: set<nat>, dbs: seq<nat>, live: set<nat>, ths: seq<Thread>, b: nat)
    requires DbBodiesOk(body, dbBlks, dbs, live, ths) && b !in dbBlks
    ensures DbBodiesOk(body, dbBlks + {b}, Carved(b * DB_PER_BLK, DB_PER_BLK) + dbs, live, ths)
  {
    forall x: nat | x in Carved(b * DB_PER_BLK, DB_PER_BLK) ensures x !in body {
      assert x / DB_PER_BLK == b;
    }
  }

  lemma CarveBodies(p: Pool, b: nat)
    requires Inv(p) && BodiesOk(p) && b in p.outBlks
    ensures BodiesOk(CarveVecs(p, b)) && BodiesOk(CarveDbs(p, b))
  {
    OutBlkFresh(p, b);
    CarvedVecBodies(p.body, p.vecBlks, p.vecs, p.threads, b);
    CarvedDbBodies(p.dbBody, p.dbBlks, p.dbs, p.liveDbs, p.threads, b);
  }

  lemma AddBlkBodies(p: Pool, env: Env)
    requires Inv(p) && BodiesOk(p)
    ensures BodiesOk(VecAddBlk(p, env).0) && BodiesOk(DbAddBlk(p, env).0)
  {
    BlkAllocKeeps(p, env);
    var (p1, b) := BlkAlloc(p, env);
    if b.Some? { CarveBodies(p1, b.value); }
  }

  lemma RefillBodies(p: Pool, env: Env)
    requires Inv(p) && BodiesOk(p)
    ensures BodiesOk(RefillVecs(p, env)) && BodiesOk(RefillDbs(p, env))
  {
    AddBlkKeeps(p, env);
    AddBlkBodies(p, env);
    AddBlkBodies(VecAddBlk(p, env).0, env);
    AddBlkBodies(DbAddBlk(p, env).0, env);
  }

  lemma TakeDbBodies(p: Pool)
    requires Inv(p) && BodiesOk(p) && p.dbs != []
    ensures BodiesOk(TakeDb(p))
  {
    TakeDbKeeps(p);
  }

  lemma VecAllocBodies(p: Pool, env: Env)
    requires Inv(p) && BodiesOk(p)
    ensures BodiesOk(VecAlloc(p, env).0)
  {
    RefillBodies(p, env);
  }

  lemma DbAllocBodies(p: Pool, env: Env)
    requires Inv(p) && BodiesOk(p)
    ensures BodiesOk(DbAlloc(p, env).0)
  {
    RefillBodies(p, env);
    RefillKeeps(p, env);
    if RefillDbs(p, env).dbs != [] { TakeDbBodies(RefillDbs(p, env)); }
  }

  lemma VecAllocFromBufBodies(p: Pool, t: nat)
    requires BodiesOk(p) && t < |p.threads|
    ensures BodiesOk(VecAllocFromBuf(p, t).0)
  {
    var th := p.threads[t];
    var th' := VecAllocFromBuf(p, t).0.threads[t];
    if th.vbuf != [] {
      DropHead(th.vbuf);
      if th'.vbuf != [] { DropHead(th'.vbuf); }
      assert forall v :: Unlisted(th, v) ==> Unlisted(th', v);
    }
  }

  lemma RsvPushBodies(p: Pool, t: nat, v: nat)
    requires BodiesOk(p) && t < |p.threads|
    ensures BodiesOk(RsvPush(p, t, v))
  {
  }

  ghost predicate Good(p: Pool) {
    Inv(p) && BodiesOk(p)
  }
}

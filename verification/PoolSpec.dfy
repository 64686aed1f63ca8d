/** What the allocator's calls do, on lists: the free stacks, the reserved vecs and the
    deferred-free queues of every thread, and who owns what.  The class `Cluster`
    implements these functions on linked cells. */
module PoolSpec {
  import opened Options
  import opened Layout
  import T = TickAge

  const RSV_CNT: int := 5
  const VEC_WATERMARK: nat := 200
  const DATA_WATERMARK: nat := 100

  datatype Status = Ok | NoMem | WaitAmt

  /** What the outside decides: whether the page of a slot is granted, and the garbage in
      the uninitialised `try_cnts` of a `vec_alloc` that starts with that cursor. */
  datatype Env = Env(grant: nat -> bool, junk: nat -> bv32)

  /** A node of a deferred-free queue; `id` is SPT_NULL once the parked id is gone. */
  datatype Node = Node(carrier: nat, stamp: nat, id: nat)

  datatype Thread = Thread(rsv: seq<nat>, vbuf: seq<Node>, dbuf: seq<Node>)

  /** One 8-byte word, under the view it was last written through. */
  datatype Cell =
    | Zero
    | Link(to: int)
    | Buf(tick: nat, id: nat, next: nat)
    | Client(bits: int)
    | Marked(of: Cell)
    | DbHead(rsv: nat)
    | DbData(pdata: nat)

  datatype DbBody = DbBody(rsv: nat, pdata: nat)

  datatype Pool = Pool(
    tick: nat,
    cursor: nat,
    pages: set<nat>,
    blks: seq<nat>,
    outBlks: set<nat>,
    vecBlks: set<nat>,
    dbBlks: set<nat>,
    vecs: seq<nat>,
    dbs: seq<nat>,
    liveVecs: set<nat>,
    liveDbs: set<nat>,
    threads: seq<Thread>,
    body: map<nat, Cell>,
    dbBody: map<nat, DbBody>,
    freed: seq<nat>)

  // ---------------------------------------------------------------- pages and blocks

  /** Nothing a client can see has changed: its ids, their contents, its queues. */
  ghost predicate SameClients(p: Pool, q: Pool) {
    && q.threads == p.threads && q.tick == p.tick
    && q.liveVecs == p.liveVecs && q.liveDbs == p.liveDbs
    && q.body == p.body && q.dbBody == p.dbBody && q.freed == p.freed
  }

  /** Nothing carved into vecs or dbs has changed. */
  ghost predicate SameStacks(p: Pool, q: Pool) {
    q.vecs == p.vecs && q.dbs == p.dbs && q.vecBlks == p.vecBlks && q.dbBlks == p.dbBlks
  }

  /** A page whose blocks join the free stack. */
  function InstallPage(p: Pool, pg: nat): (q: Pool)
    ensures SameClients(p, q) && SameStacks(p, q)
  {
    p.(pages := p.pages + {pg}, blks := Carved(pg * BLK_PER_PG, BLK_PER_PG) + p.blks)
  }

  function AddPage(p: Pool, env: Env): (r: (Pool, bool))
    ensures SameClients(p, r.0) && SameStacks(p, r.0)
  {
    if PG_NUM_MAX <= p.cursor + 1 then (p, false)
    else if !env.grant(p.cursor) then (p.(cursor := p.cursor + 1), false)
    else (InstallPage(p.(cursor := p.cursor + 1), p.cursor), true)
  }

  /** A caller finding no block adds a page, and tries once more if that fails. */
  function RefillBlks(p: Pool, env: Env): (q: Pool)
    ensures SameClients(p, q) && SameStacks(p, q)
  {
    if p.blks != [] then p
    else
      var (p1, ok) := AddPage(p, env);
      if ok then p1 else AddPage(p1, env).0
  }

  function TakeBlk(p: Pool): (q: Pool)
    requires p.blks != []
    ensures SameClients(p, q) && SameStacks(p, q)
  {
    p.(blks := p.blks[1..], outBlks := p.outBlks + {p.blks[0]})
  }

  function BlkAlloc(p: Pool, env: Env): (r: (Pool, Option<nat>))
    ensures SameClients(p, r.0) && SameStacks(p, r.0)
  {
    var p1 := RefillBlks(p, env);
    if p1.blks == [] then (p1, None)
    else (TakeBlk(p1), Some(p1.blks[0]))
  }

  function CarveVecs(p: Pool, b: nat): (q: Pool)
    ensures SameClients(p, q)
  {
    p.(outBlks := p.outBlks - {b}, vecBlks := p.vecBlks + {b},
       vecs := Carved(b * VEC_PER_BLK, VEC_PER_BLK) + p.vecs)
  }

  function CarveDbs(p: Pool, b: nat): (q: Pool)
    ensures SameClients(p, q)
  {
    p.(outBlks := p.outBlks - {b}, dbBlks := p.dbBlks + {b},
       dbs := Carved(b * DB_PER_BLK, DB_PER_BLK) + p.dbs)
  }

  function VecAddBlk(p: Pool, env: Env): (r: (Pool, bool))
    ensures SameClients(p, r.0)
  {
    var (p1, b) := BlkAlloc(p, env);
    if b.None? then (p1, false) else (CarveVecs(p1, b.value), true)
  }

  function DbAddBlk(p: Pool, env: Env): (r: (Pool, bool))
    ensures SameClients(p, r.0)
  {
    var (p1, b) := BlkAlloc(p, env);
    if b.None? then (p1, false) else (CarveDbs(p1, b.value), true)
  }

  // ---------------------------------------------------------------- vecs and dbs

  /** A failed block gives up unless the garbage in `try_cnts` wraps to zero. */
  function RefillVecs(p: Pool, env: Env): (q: Pool)
    ensures SameClients(p, q)
  {
    if p.vecs != [] then p
    else
      var (p1, ok) := VecAddBlk(p, env);
      if ok || env.junk(p.cursor) + 1 != 0 then p1 else VecAddBlk(p1, env).0
  }

  function VecAlloc(p: Pool, env: Env): (r: (Pool, Option<nat>))
    ensures r.0.threads == p.threads && r.0.tick == p.tick
  {
    var p1 := RefillVecs(p, env);
    if p1.vecs == [] then (p1, None)
    else (TakeVec(p1), Some(p1.vecs[0]))
  }

  function TakeVec(p: Pool): Pool
    requires p.vecs != []
  {
    p.(vecs := p.vecs[1..], liveVecs := p.liveVecs + {p.vecs[0]})
  }

  function RefillDbs(p: Pool, env: Env): (q: Pool)
    ensures SameClients(p, q)
  {
    if p.dbs != [] then p
    else
      var (p1, ok) := DbAddBlk(p, env);
      if ok then p1 else DbAddBlk(p1, env).0
  }

  function DbAlloc(p: Pool, env: Env): (r: (Pool, Option<nat>))
    ensures r.0.threads == p.threads && r.0.tick == p.tick
  {
    var p1 := RefillDbs(p, env);
    if p1.dbs == [] then (p1, None)
    else (TakeDb(p1), Some(p1.dbs[0]))
  }

  function TakeDb(p: Pool): Pool
    requires p.dbs != []
  {
    p.(dbs := p.dbs[1..], liveDbs := p.liveDbs + {p.dbs[0]}, dbBody := p.dbBody[p.dbs[0] := DbBody(0, 0)])
  }

  function VecFree(p: Pool, v: nat): Pool {
    p.(vecs := [v] + p.vecs, liveVecs := p.liveVecs - {v}, body := p.body - {v})
  }

  function DbFree(p: Pool, d: nat): Pool {
    p.(dbs := [d] + p.dbs, liveDbs := p.liveDbs - {d}, dbBody := p.dbBody - {d})
  }

  // ---------------------------------------------------------------- queues

  function SetThread(p: Pool, t: nat, th: Thread): Pool
    requires t < |p.threads|
  {
    p.(threads := p.threads[t := th])
  }

  predicate NodeExpired(p: Pool, n: Node) {
    T.Expired(T.Masked(p.tick), T.Masked(n.stamp))
  }

  /** A spent head is handed out itself; otherwise the head's parked id, if expired. */
  function VecAllocFromBuf(p: Pool, t: nat): (r: (Pool, Option<nat>))
    requires t < |p.threads|
    ensures |r.0.threads| == |p.threads| && r.0.tick == p.tick
  {
    var th := p.threads[t];
    if th.vbuf == [] then (p, None)
    else
      var n := th.vbuf[0];
      if n.id == SPT_NULL then
        (SetThread(p, t, th.(vbuf := th.vbuf[1..])).(liveVecs := p.liveVecs + {n.carrier}), Some(n.carrier))
      else if !NodeExpired(p, n) then (p, None)
      else
        (SetThread(p, t, th.(vbuf := [n.(id := SPT_NULL)] + th.vbuf[1..])).(liveVecs := p.liveVecs + {n.id}),
         Some(n.id))
  }

  /** The data of a db is passed to `freedata` if it has any and is flagged for it. */
  function FreeData(p: Pool, d: nat): seq<nat>
  {
    if d in p.dbBody && p.dbBody[d].pdata != 0 && p.dbBody[d].rsv % 2 == 1 then [p.dbBody[d].pdata] else []
  }

  function DbAllocFromBuf(p: Pool, t: nat): (r: (Pool, Option<nat>))
    requires t < |p.threads|
    ensures |r.0.threads| == |p.threads| && r.0.tick == p.tick
  {
    var th := p.threads[t];
    if th.dbuf == [] || !NodeExpired(p, th.dbuf[0]) then (p, None)
    else
      var n := th.dbuf[0];
      var p1 := SetThread(p, t, th.(dbuf := th.dbuf[1..]));
      var p2 := p1.(freed := p.freed + FreeData(p, n.id), liveDbs := p.liveDbs + {n.id},
                    dbBody := if n.id in p.dbBody then p.dbBody[n.id := p.dbBody[n.id].(rsv := 0)] else p.dbBody);
      (VecFree(p2, n.carrier), Some(n.id))
  }

  function VecAllocCombo(p: Pool, env: Env, t: nat): (r: (Pool, Option<nat>))
    requires t < |p.threads|
    ensures |r.0.threads| == |p.threads| && r.0.tick == p.tick
  {
    var (p1, v) := VecAllocFromBuf(p, t);
    if v.Some? then (p1, v) else VecAlloc(p1, env)
  }

  function DataAllocCombo(p: Pool, env: Env, t: nat): (r: (Pool, Option<nat>))
    requires t < |p.threads|
    ensures |r.0.threads| == |p.threads| && r.0.tick == p.tick
  {
    var (p1, d) := DbAllocFromBuf(p, t);
    if d.Some? then (p1, d) else DbAlloc(p1, env)
  }

  function RsvPush(p: Pool, t: nat, v: nat): Pool
    requires t < |p.threads|
  {
    SetThread(p, t, p.threads[t].(rsv := [v] + p.threads[t].rsv)).(liveVecs := p.liveVecs - {v}, body := p.body - {v})
  }

  function Fill(p: Pool, env: Env, t: nat, nr: int): (r: (Pool, Status))
    requires t < |p.threads|
    ensures |r.0.threads| == |p.threads| && r.0.tick == p.tick
    decreases if nr < 0 then 0 else nr
  {
    if nr <= 0 then (p, Ok)
    else
      var (p1, v) := VecAllocCombo(p, env, t);
      if v.None? then (p1, NoMem) else Fill(RsvPush(p1, t, v.value), env, t, nr - 1)
  }

  /** The masked stamps of all nodes but the tail. */
  function WalkStamps(buf: seq<Node>): (s: seq<nat>)
    ensures forall x :: x in s ==> x < T.WINDOW
  {
    T.MaskedAll(Stamps(if buf == [] then [] else buf[..|buf| - 1]))
  }

  function Stamps(buf: seq<Node>): (s: seq<nat>)
    ensures |s| == |buf|
  {
    seq(|buf|, i requires 0 <= i < |buf| => buf[i].stamp)
  }

  /** Free the first node of the vec queue: its parked id, unless spent, then itself. */
  function ReleaseVec(p: Pool, t: nat): Pool
    requires t < |p.threads| && p.threads[t].vbuf != []
  {
    var th := p.threads[t];
    var n := th.vbuf[0];
    var p1 := SetThread(p, t, th.(vbuf := th.vbuf[1..]));
    var p2 := if n.id == SPT_NULL then p1 else VecFree(p1, n.id);
    VecFree(p2, n.carrier)
  }

  function ReleaseVecs(p: Pool, t: nat, k: nat): (q: Pool)
    requires t < |p.threads| && k <= |p.threads[t].vbuf|
    ensures |q.threads| == |p.threads|
    decreases k
  {
    if k == 0 then p else ReleaseVecs(ReleaseVec(p, t), t, k - 1)
  }

  function VecBufFree(p: Pool, t: nat): (q: Pool)
    requires t < |p.threads|
    ensures |q.threads| == |p.threads|
  {
    ReleaseVecs(p, t, T.Walk(T.Masked(p.tick), WalkStamps(p.threads[t].vbuf)))
  }

  function ReleaseDb(p: Pool, t: nat): Pool
    requires t < |p.threads| && p.threads[t].dbuf != []
  {
    var th := p.threads[t];
    var n := th.dbuf[0];
    var p1 := SetThread(p, t, th.(dbuf := th.dbuf[1..]));
    VecFree(DbFree(p1.(freed := p.freed + FreeData(p, n.id)), n.id), n.carrier)
  }

  function ReleaseDbs(p: Pool, t: nat, k: nat): (q: Pool)
    requires t < |p.threads| && k <= |p.threads[t].dbuf|
    ensures |q.threads| == |p.threads|
    decreases k
  {
    if k == 0 then p else ReleaseDbs(ReleaseDb(p, t), t, k - 1)
  }

  function DbBufFree(p: Pool, t: nat): (q: Pool)
    requires t < |p.threads|
    ensures |q.threads| == |p.threads|
  {
    ReleaseDbs(p, t, T.Walk(T.Masked(p.tick), WalkStamps(p.threads[t].dbuf)))
  }

  /** Queue a retired vec on the first reserved vec, stamped with the present tick. */
  function ParkVec(p: Pool, t: nat, id: nat): Pool
    requires t < |p.threads| && p.threads[t].rsv != []
  {
    var th := p.threads[t];
    SetThread(p, t, th.(rsv := th.rsv[1..], vbuf := th.vbuf + [Node(th.rsv[0], p.tick, id)]))
      .(liveVecs := p.liveVecs - {id}, body := if id in p.body then p.body[id := Marked(p.body[id])] else p.body)
  }

  function ParkDb(p: Pool, t: nat, id: nat): Pool
    requires t < |p.threads| && p.threads[t].rsv != []
  {
    var th := p.threads[t];
    SetThread(p, t, th.(rsv := th.rsv[1..], dbuf := th.dbuf + [Node(th.rsv[0], p.tick, id)]))
      .(liveDbs := p.liveDbs - {id})
  }

  /** A queue above its watermark has its aged part freed. */
  function TrimVecs(p: Pool, t: nat): (q: Pool)
    requires t < |p.threads|
    ensures |q.threads| == |p.threads|
  {
    if |p.threads[t].vbuf| > VEC_WATERMARK then VecBufFree(p, t) else p
  }

  function TrimDbs(p: Pool, t: nat): (q: Pool)
    requires t < |p.threads|
    ensures |q.threads| == |p.threads|
  {
    if |p.threads[t].dbuf| > DATA_WATERMARK then DbBufFree(p, t) else p
  }

  function VecFreeToBuf(p: Pool, env: Env, t: nat, id: nat): (r: (Pool, Status))
    requires t < |p.threads| && p.threads[t].rsv != []
  {
    var p1 := TrimVecs(ParkVec(p, t, id), t);
    var (p2, st) := Fill(p1, env, t, 1);
    (p2, if |p1.threads[t].vbuf| > VEC_WATERMARK then WaitAmt else st)
  }

  function DbFreeToBuf(p: Pool, env: Env, t: nat, id: nat): (r: (Pool, Status))
    requires t < |p.threads| && p.threads[t].rsv != []
  {
    var p1 := TrimDbs(ParkDb(p, t, id), t);
    var (p2, st) := Fill(p1, env, t, 1);
    (p2, if |p1.threads[t].dbuf| > DATA_WATERMARK then WaitAmt else st)
  }

  function FillRsvList(p: Pool, env: Env, t: nat, nr: int): (r: (Pool, Status))
    requires t < |p.threads|
  {
    var p1 := TrimDbs(TrimVecs(p, t), t);
    var (p2, st) := Fill(p1, env, t, nr);
    (p2, if |p1.threads[t].vbuf| > VEC_WATERMARK || |p1.threads[t].dbuf| > DATA_WATERMARK then WaitAmt else st)
  }
}

/** What becomes of a retired db's data: it stays as the client left it while the db is
    queued, and is passed to `freedata` when the db leaves the queue, if it is flagged. */
module PoolData {
  import opened Options
  import opened Layout
  import opened PoolSpec
  import opened PoolLaws
  import opened PoolSteps
  import opened PoolRuns
  import opened PoolAges
  import opened PoolWaits
  import opened PoolPromises
  import T = TickAge

  /** What these dbs owe to `freedata`, in this order: the data word of each whose flag word
      is odd and whose data word is not zero. */
  function Owed(b: map<nat, DbBody>, ids: seq<nat>): seq<nat> {
    if ids == [] then []
    else (if ids[0] in b && b[ids[0]].pdata != 0 && b[ids[0]].rsv % 2 == 1 then [b[ids[0]].pdata] else []) + Owed(b, ids[1..])
  }

  lemma {:induction false} OwedIsData(p: Pool, ids: seq<nat>)
    ensures Owed(p.dbBody, ids) == DataOf(p, ids)
  {
    if ids != [] { OwedIsData(p, ids[1..]); }
  }

  lemma {:induction false} OwedSplit(b: map<nat, DbBody>, ids: seq<nat>, i: nat)
    requires i < |ids|
    ensures Owed(b, ids) == Owed(b, ids[..i])
      + (if ids[i] in b && b[ids[i]].pdata != 0 && b[ids[i]].rsv % 2 == 1 then [b[ids[i]].pdata] else [])
      + Owed(b, ids[i + 1..])
  {
    if i > 0 {
      OwedSplit(b, ids[1..], i - 1);
      assert ids[1..][..i - 1] == ids[..i][1..] && ids[1..][i..] == ids[i + 1..];
    }
  }

  // ---------------------------------------------------------------- what touches no db

  /** Nothing of any data queue has changed, nor any db's contents. */
  ghost predicate SameDbs(p: Pool, q: Pool) {
    && q.dbBody == p.dbBody && q.freed == p.freed && |q.threads| == |p.threads|
    && forall u :: 0 <= u < |p.threads| ==> q.threads[u].dbuf == p.threads[u].dbuf
  }

  lemma {:induction false} ReleaseVecsSameDbs(p: Pool, t: nat, k: nat)
    requires t < |p.threads| && k <= |p.threads[t].vbuf|
    ensures SameDbs(p, ReleaseVecs(p, t, k))
    decreases k
  {
    if k > 0 { ReleaseVecsSameDbs(ReleaseVec(p, t), t, k - 1); }
  }

  lemma TrimVecsSameDbs(p: Pool, t: nat)
    requires t < |p.threads|
    ensures SameDbs(p, TrimVecs(p, t))
  {
    ReleaseVecsSameDbs(p, t, T.Walk(T.Masked(p.tick), WalkStamps(p.threads[t].vbuf)));
  }

  lemma VecComboSameDbs(p: Pool, env: Env, t: nat)
    requires t < |p.threads|
    ensures SameDbs(p, VecAllocCombo(p, env, t).0)
  {
  }

  lemma {:induction false} FillSameDbs(p: Pool, env: Env, t: nat, nr: int)
    requires t < |p.threads|
    ensures SameDbs(p, Fill(p, env, t, nr).0)
    decreases if nr < 0 then 0 else nr
  {
    if nr > 0 {
      var (p1, v) := VecAllocCombo(p, env, t);
      VecComboSameDbs(p, env, t);
      if v.Some? { FillSameDbs(RsvPush(p1, t, v.value), env, t, nr - 1); }
    }
  }

  lemma RetireVecSameDbs(p: Pool, env: Env, t: nat, id: nat)
    requires Legal(p, RetireVec(t, id))
    ensures SameDbs(p, VecFreeToBuf(p, env, t, id).0)
  {
    var p1 := ParkVec(p, t, id);
    TrimVecsSameDbs(p1, t);
    FillSameDbs(TrimVecs(p1, t), env, t, 1);
  }

  // ---------------------------------------------------------------- what a call passes on

  /** The data queue a call uses, if it uses any, is thread `t`'s. */
  predicate OnQueue(c: Call, t: nat) {
    match c
    case FillWatched(u, _) => u == t
    case AllocDb(u) => u == t
    case RetireDb(u, _) => u == t
    case RetireDbSimple(u, _) => u == t
    case _ => true
  }

  /** What a call adds to the tail of that queue. */
  function Joins(p: Pool, c: Call): seq<Node>
    requires Legal(p, c)
  {
    match c
    case RetireDb(t, id) => [Node(p.threads[t].rsv[0], p.tick, id)]
    case RetireDbSimple(t, id) => [Node(p.threads[t].rsv[0], p.tick, id)]
    case _ => []
  }

  /** The first `k` nodes left `t`'s data queue and `more` joined it; no other data queue
      has changed; `freedata` got exactly what the dbs that left owe. */
  ghost predicate PassedOn(p: Pool, q: Pool, t: nat, k: nat, more: seq<Node>) {
    && t < |p.threads| && |q.threads| == |p.threads| && k <= |p.threads[t].dbuf|
    && q.threads[t].dbuf == p.threads[t].dbuf[k..] + more
    && (forall u :: 0 <= u < |p.threads| && u != t ==> q.threads[u].dbuf == p.threads[u].dbuf)
    && q.freed == p.freed + Owed(p.dbBody, Ids(p.threads[t].dbuf[..k]))
  }

  lemma {:induction false} ReleaseDbsOthers(p: Pool, t: nat, k: nat)
    requires t < |p.threads| && k <= |p.threads[t].dbuf|
    ensures var q := ReleaseDbs(p, t, k);
      |q.threads| == |p.threads| && forall u :: 0 <= u < |p.threads| && u != t ==> q.threads[u].dbuf == p.threads[u].dbuf
    decreases k
  {
    if k > 0 { ReleaseDbsOthers(ReleaseDb(p, t), t, k - 1); }
  }

  /** A walk passes on what the dbs it frees owe. */
  lemma WalkPassesOn(p: Pool, t: nat, k: nat)
    requires Good(p) && t < |p.threads| && k <= |p.threads[t].dbuf|
    ensures PassedOn(p, ReleaseDbs(p, t, k), t, k, [])
  {
    ReleasedData(p, t, k);
    OwedIsData(p, Ids(p.threads[t].dbuf[..k]));
    ReleaseDbsEffect(p, t, k);
    ReleaseDbsOthers(p, t, k);
  }

  lemma TrimPassesOn(p: Pool, t: nat) returns (k: nat)
    requires Good(p) && t < |p.threads|
    ensures PassedOn(p, TrimDbs(p, t), t, k, []) && (p.threads[t].dbuf != [] ==> k < |p.threads[t].dbuf|)
  {
    k := if |p.threads[t].dbuf| > DATA_WATERMARK then T.Walk(T.Masked(p.tick), WalkStamps(p.threads[t].dbuf)) else 0;
    WalkPassesOn(p, t, k);
  }

  lemma QueuedDbPassesOn(p: Pool, t: nat)
    requires Good(p) && t < |p.threads| && DbReady(p, t)
    ensures PassedOn(p, DbAllocFromBuf(p, t).0, t, 1, []) && DbAllocFromBuf(p, t).1.Some?
  {
    var b := p.threads[t].dbuf;
    DbReuseExactly(p, t);
    OwedIsData(p, Ids(b[..1]));
    assert Ids(b[..1]) == [b[0].id];
    assert DataOf(p, [b[0].id]) == FreeData(p, b[0].id);
  }

  lemma StackDbSameQueues(p: Pool, env: Env)
    ensures var q := DbAlloc(p, env).0; q.threads == p.threads && q.freed == p.freed
  {
  }

  lemma AllocDbPassesOn(p: Pool, env: Env, t: nat) returns (k: nat)
    requires Good(p) && t < |p.threads|
    ensures PassedOn(p, DataAllocCombo(p, env, t).0, t, k, [])
  {
    k := if DbReady(p, t) then 1 else 0;
    if DbReady(p, t) {
      QueuedDbPassesOn(p, t);
    } else {
      DbQueueFirst(p, env, t);
      StackDbSameQueues(p, env);
    }
  }

  lemma RetireDbPassesOn(p: Pool, env: Env, t: nat, id: nat) returns (k: nat)
    requires Good(p) && Legal(p, RetireDb(t, id))
    ensures PassedOn(p, DbFreeToBuf(p, env, t, id).0, t, k, Joins(p, RetireDb(t, id)))
  {
    var p1 := ParkDb(p, t, id);
    var b := p.threads[t].dbuf;
    ParkDbGood(p, t, id);
    k := TrimPassesOn(p1, t);
    FillSameDbs(TrimDbs(p1, t), env, t, 1);
    assert (b + Joins(p, RetireDb(t, id)))[..k] == b[..k];
    assert (b + Joins(p, RetireDb(t, id)))[k..] == b[k..] + Joins(p, RetireDb(t, id));
  }

  lemma FillWatchedPassesOn(p: Pool, env: Env, t: nat, nr: int) returns (k: nat)
    requires Good(p) && t < |p.threads|
    ensures PassedOn(p, FillRsvList(p, env, t, nr).0, t, k, [])
  {
    var p1 := TrimVecs(p, t);
    TrimVecsSameDbs(p, t);
    TrimGood(p, t);
    k := TrimPassesOn(p1, t);
    FillSameDbs(TrimDbs(p1, t), env, t, nr);
  }

  /** Every call passes on exactly what is owed by the dbs it takes off the queue, in queue
      order; no call passes on anything else. */
  lemma CallPassesOn(p: Pool, env: Env, c: Call, t: nat) returns (k: nat)
    requires Good(p) && Legal(p, c) && t < |p.threads| && OnQueue(c, t)
    ensures PassedOn(p, Perform(p, env, c), t, k, Joins(p, c))
  {
    k := 0;
    match c
    case FillSimple(u, nr) => FillSameDbs(p, env, u, nr);
    case FillWatched(_, nr) => k := FillWatchedPassesOn(p, env, t, nr);
    case AllocVec(u) => VecComboSameDbs(p, env, u);
    case AllocDb(_) => k := AllocDbPassesOn(p, env, t);
    case RetireVec(u, id) => RetireVecSameDbs(p, env, u, id);
    case RetireDb(_, id) => k := RetireDbPassesOn(p, env, t, id);
    case _ =>
  }

  // ---------------------------------------------------------------- contents while queued

  /** If node `n` is still queued the contents of its db are as they were. */
  ghost predicate QueuedSame(p: Pool, q: Pool, u: nat, n: Node) {
    u < |p.threads| && n in p.threads[u].dbuf && u < |q.threads| && n in q.threads[u].dbuf ==>
      n.id in p.dbBody && n.id in q.dbBody && q.dbBody[n.id] == p.dbBody[n.id]
  }

  lemma QueuedHasBody(p: Pool, u: nat, n: Node)
    requires Good(p) && u < |p.threads| && n in p.threads[u].dbuf
    ensures n.id in p.dbBody && n.id in Ids(p.threads[u].dbuf)
  {
    var b := p.threads[u].dbuf;
    var i :| 0 <= i < |b| && b[i] == n;
    assert Ids(b)[i] == n.id;
  }

  lemma ReleaseDbSame(p: Pool, t: nat, u: nat, n: Node)
    requires Good(p) && t < |p.threads| && p.threads[t].dbuf != []
    ensures QueuedSame(p, ReleaseDb(p, t), u, n)
  {
    if u < |p.threads| && n in p.threads[u].dbuf && n in ReleaseDb(p, t).threads[u].dbuf {
      QueuedHasBody(p, u, n);
      UnlinkDbGood(p, t);
      ParkedDbApart(UnlinkDb(p, t), u, n);
    }
  }

  lemma {:induction false} ReleaseDbsSame(p: Pool, t: nat, k: nat, u: nat, n: Node)
    requires Good(p) && t < |p.threads| && k <= |p.threads[t].dbuf|
    ensures QueuedSame(p, ReleaseDbs(p, t, k), u, n)
    decreases k
  {
    if k == 0 {
      if u < |p.threads| && n in p.threads[u].dbuf { QueuedHasBody(p, u, n); }
    } else {
      var p1, q := ReleaseDb(p, t), ReleaseDbs(p, t, k);
      ReleaseDbSame(p, t, u, n);
      ReleaseDbGood(p, t);
      ReleaseDbsSame(p1, t, k - 1, u, n);
      if u < |q.threads| && n in q.threads[u].dbuf { BehindStays(p1, t, k - 1, u, n); }
    }
  }

  /** What is queued after a walk was queued before. */
  lemma BehindStays(p: Pool, t: nat, k: nat, u: nat, n: Node)
    requires t < |p.threads| && k <= |p.threads[t].dbuf| && u < |p.threads|
    requires n in ReleaseDbs(p, t, k).threads[u].dbuf
    ensures n in p.threads[u].dbuf
  {
    ReleaseDbsEffect(p, t, k);
    ReleaseDbsOthers(p, t, k);
  }

  lemma SameDbsSame(p: Pool, q: Pool, u: nat, n: Node)
    requires Good(p) && SameDbs(p, q)
    ensures QueuedSame(p, q, u, n)
  {
    if u < |p.threads| && n in p.threads[u].dbuf { QueuedHasBody(p, u, n); }
  }

  lemma TrimDbsSame(p: Pool, t: nat, u: nat, n: Node)
    requires Good(p) && t < |p.threads|
    ensures QueuedSame(p, TrimDbs(p, t), u, n)
    ensures u < |p.threads| && n in TrimDbs(p, t).threads[u].dbuf ==> n in p.threads[u].dbuf
  {
    var k := if |p.threads[t].dbuf| > DATA_WATERMARK then T.Walk(T.Masked(p.tick), WalkStamps(p.threads[t].dbuf)) else 0;
    ReleaseDbsSame(p, t, k, u, n);
    if u < |p.threads| && n in TrimDbs(p, t).threads[u].dbuf { BehindStays(p, t, k, u, n); }
  }

  lemma StackDbSame(p: Pool, env: Env, u: nat, n: Node)
    requires Good(p)
    ensures QueuedSame(p, DbAlloc(p, env).0, u, n)
  {
    var p1 := RefillDbs(p, env);
    RefillKeeps(p, env);
    RefillBodies(p, env);
    if u < |p.threads| && n in p.threads[u].dbuf {
      QueuedHasBody(p, u, n);
      ParkedDbApart(p1, u, n);
    }
  }

  lemma QueuedDbSame(p: Pool, t: nat, u: nat, n: Node)
    requires Good(p) && t < |p.threads|
    ensures QueuedSame(p, DbAllocFromBuf(p, t).0, u, n)
  {
    var q := DbAllocFromBuf(p, t).0;
    if u < |p.threads| && n in p.threads[u].dbuf && n in q.threads[u].dbuf {
      QueuedHasBody(p, u, n);
      if q != p {
        UnlinkDbGood(p, t);
        ParkedDbApart(UnlinkDb(p, t), u, n);
      }
    }
  }

  lemma AllocDbSame(p: Pool, env: Env, t: nat, u: nat, n: Node)
    requires Good(p) && t < |p.threads|
    ensures QueuedSame(p, DataAllocCombo(p, env, t).0, u, n)
  {
    QueuedDbSame(p, t, u, n);
    StackDbSame(p, env, u, n);
  }

  lemma RetireDbSame(p: Pool, env: Env, t: nat, id: nat, u: nat, n: Node)
    requires Good(p) && Legal(p, RetireDb(t, id))
    ensures QueuedSame(p, DbFreeToBuf(p, env, t, id).0, u, n)
  {
    var p1 := ParkDb(p, t, id);
    ParkDbGood(p, t, id);
    TrimDbsSame(p1, t, u, n);
    FillSameDbs(TrimDbs(p1, t), env, t, 1);
    if u < |p.threads| && n in p.threads[u].dbuf { QueuedHasBody(p, u, n); }
  }

  lemma FillWatchedSame(p: Pool, env: Env, t: nat, nr: int, u: nat, n: Node)
    requires Good(p) && t < |p.threads|
    ensures QueuedSame(p, FillRsvList(p, env, t, nr).0, u, n)
  {
    var p1 := TrimVecs(p, t);
    TrimVecsSameDbs(p, t);
    TrimGood(p, t);
    TrimDbsSame(p1, t, u, n);
    FillSameDbs(TrimDbs(p1, t), env, t, nr);
  }

  /** No call, not even one whose walk slips, touches the contents of a db it leaves in its
      queue. */
  lemma CallSame(p: Pool, env: Env, c: Call, u: nat, n: Node)
    requires Good(p) && Legal(p, c)
    ensures QueuedSame(p, Perform(p, env, c), u, n)
  {
    match c
    case FillSimple(t, nr) => FillSameDbs(p, env, t, nr); SameDbsSame(p, Perform(p, env, c), u, n);
    case FillWatched(t, nr) => FillWatchedSame(p, env, t, nr, u, n);
    case AllocVec(t) => VecComboSameDbs(p, env, t); SameDbsSame(p, Perform(p, env, c), u, n);
    case AllocDb(t) => AllocDbSame(p, env, t, u, n);
    case RetireVec(t, id) => RetireVecSameDbs(p, env, t, id); SameDbsSame(p, Perform(p, env, c), u, n);
    case RetireDb(t, id) => RetireDbSame(p, env, t, id, u, n);
    case WriteDb(d, rsv, pdata) =>
      if u < |p.threads| && n in p.threads[u].dbuf { QueuedHasBody(p, u, n); ParkedDbApart(p, u, n); }
    case _ =>
      if u < |p.threads| && n in p.threads[u].dbuf { QueuedHasBody(p, u, n); }
  }

  // ---------------------------------------------------------------- runs

  ghost predicate QueuedIn(p: Pool, u: nat, n: Node) {
    u < |p.threads| && n in p.threads[u].dbuf
  }

  ghost predicate QueuedAt(run: seq<Pool>, k: nat, u: nat, n: Node) {
    k < |run| && QueuedIn(run[k], u, n)
  }

  /** Queued at every moment from `i` to `j`. */
  ghost predicate QueuedWithin(run: seq<Pool>, i: nat, j: nat, u: nat, n: Node) {
    i <= j && forall k: nat :: i <= k <= j ==> QueuedAt(run, k, u, n)
  }

  /** A step of a run leaves the contents of a db it leaves queued. */
  lemma StepSame(p: Pool, env: Env, q: Pool, u: nat, n: Node)
    requires Good(p) && (exists c :: Legal(p, c) && q == Perform(p, env, c))
    ensures QueuedSame(p, q, u, n)
  {
    var c :| Legal(p, c) && q == Perform(p, env, c);
    CallSame(p, env, c, u, n);
  }

  lemma {:induction false} ContentsStay(m: nat, env: Env, run: seq<Pool>, i: nat, j: nat, u: nat, n: Node)
    requires IsRun(m, env, run) && j < |run| && QueuedWithin(run, i, j, u, n)
    ensures n.id in run[i].dbBody && n.id in run[j].dbBody && run[j].dbBody[n.id] == run[i].dbBody[n.id]
    decreases j
  {
    assert QueuedAt(run, i, u, n) && QueuedAt(run, j, u, n);
    RunGood(m, env, run, i);
    QueuedHasBody(run[i], u, n);
    if i < j {
      var j' := j - 1;
      assert QueuedAt(run, j', u, n);
      RunGood(m, env, run, j');
      assert NextAt(env, run, j');
      StepSame(run[j'], env, run[j], u, n);
      ContentsStay(m, env, run, i, j', u, n);
    }
  }

  /** From `p` a client writes db `d`'s header and then retires `d` through thread `u`, which
      leaves `q` with node `n` queued; a gate (see `FirstEnds`). */
  ghost predicate WrittenAndRetired(env: Env, p: Pool, q: Pool, u: nat, d: nat, rsv: nat, x: nat, n: Node) {
    forall on: bool :: WrittenAndRetiredIf(on, env, p, q, u, d, rsv, x, n)
  }

  ghost predicate WrittenAndRetiredIf(on: bool, env: Env, p: Pool, q: Pool, u: nat, d: nat, rsv: nat, x: nat, n: Node) {
    on ==>
      && d in p.liveDbs && u < |p.threads| && p.threads[u].rsv != []
      && (var p1 := Perform(p, env, WriteDb(d, rsv, x)); q == Perform(p1, env, RetireDb(u, d)))
      && n == Node(p.threads[u].rsv[0], p.tick, d)
  }

  lemma RetiredAsWritten(env: Env, p: Pool, q: Pool, u: nat, d: nat, rsv: nat, x: nat, n: Node)
    requires Good(p) && WrittenAndRetired(env, p, q, u, d, rsv, x, n)
    ensures n.id == d && QueuedIn(q, u, n) && d in q.dbBody && q.dbBody[d] == DbBody(rsv, x)
  {
    assert WrittenAndRetiredIf(true, env, p, q, u, d, rsv, x, n);
    WriteDbGood(p, d, DbBody(rsv, x));
    RetireDbParks(Perform(p, env, WriteDb(d, rsv, x)), env, u, d);
  }

  /** As long as it is queued, `d` holds what the client wrote, whatever is called. */
  lemma StaysAsWritten(m: nat, env: Env, run: seq<Pool>, p: Pool, i: nat, j: nat, u: nat, d: nat, rsv: nat, x: nat, n: Node)
    requires IsRun(m, env, run) && j < |run| && QueuedWithin(run, i, j, u, n)
    requires Good(p) && WrittenAndRetired(env, p, run[i], u, d, rsv, x, n)
    ensures n.id == d && QueuedIn(run[j], u, n) && d in run[j].dbBody && run[j].dbBody[d] == DbBody(rsv, x)
  {
    RetiredAsWritten(env, p, run[i], u, d, rsv, x, n);
    ContentsStay(m, env, run, i, j, u, n);
    assert QueuedAt(run, j, u, n);
  }

  /** The head, holding this, two ticks old: the thread's next db_alloc. */
  lemma HeadPassesOn(p: Pool, env: Env, u: nat, rsv: nat, x: nat)
    requires Good(p) && u < |p.threads| && DbReady(p, u)
    ensures var d := p.threads[u].dbuf[0].id; var (q, r) := DataAllocCombo(p, env, u);
      d in p.dbBody && p.dbBody[d] == DbBody(rsv, x) ==>
        && r == Some(d) && d in q.dbBody && q.dbBody[d] == DbBody(0, x)
        && q.freed == p.freed + if x != 0 && rsv % 2 == 1 then [x] else []
  {
    var d := p.threads[u].dbuf[0].id;
    DbFromBufHandsOut(p, u);
    QueuedDbPassesOn(p, u);
    assert Ids(p.threads[u].dbuf[..1]) == [d];
    assert Owed(p.dbBody, [d][1..]) == [];
    DbReuseExactly(p, u);
  }

  /** What a client wrote into a db before it retired it decides, whatever any thread calls
      in between, what happens when the thread's db_alloc takes the db from the queue: its
      data goes to `freedata` if it has any and the client set the flag, and then the flag
      word is cleared. */
  lemma ReusePassesOn(m: nat, env: Env, run: seq<Pool>, p: Pool, i: nat, j: nat, u: nat, d: nat, rsv: nat, x: nat, n: Node)
    requires IsRun(m, env, run) && j < |run| && QueuedWithin(run, i, j, u, n)
    requires Good(p) && WrittenAndRetired(env, p, run[i], u, d, rsv, x, n)
    requires u < |run[j].threads| && DbReady(run[j], u) && run[j].threads[u].dbuf[0] == n
    ensures var (q, r) := DataAllocCombo(run[j], env, u);
      && r == Some(d) && d in q.dbBody && q.dbBody[d] == DbBody(0, x)
      && q.freed == run[j].freed + if x != 0 && rsv % 2 == 1 then [x] else []
  {
    RunGood(m, env, run, j);
    StaysAsWritten(m, env, run, p, i, j, u, d, rsv, x, n);
    HeadPassesOn(run[j], env, u, rsv, x);
  }

  lemma InTail(b: seq<Node>, k: nat, a: nat, more: seq<Node>)
    requires k <= a < |b|
    ensures b[a] in b[k..] + more
  {
    assert (b[k..] + more)[a - k] == b[a];
  }

  /** Whatever the call, what leaves the queue passes on its data. */
  lemma NodePassesOn(p: Pool, q: Pool, u: nat, n: Node, k: nat, more: seq<Node>) returns (a: nat)
    requires PassedOn(p, q, u, k, more) && n in p.threads[u].dbuf && n !in q.threads[u].dbuf && n.id in p.dbBody
    ensures var b, x, rsv := p.threads[u].dbuf, p.dbBody[n.id].pdata, p.dbBody[n.id].rsv;
      && a < k && b[a] == n
      && q.freed == p.freed + (Owed(p.dbBody, Ids(b[..a])) + (if x != 0 && rsv % 2 == 1 then [x] else [])
                               + Owed(p.dbBody, Ids(b[a + 1..k])))
  {
    var b := p.threads[u].dbuf;
    a :| a < |b| && b[a] == n;
    if k <= a { InTail(b, k, a, more); }
    var ids := Ids(b[..k]);
    OwedSplit(p.dbBody, ids, a);
    assert ids[..a] == Ids(b[..a]) && ids[a + 1..] == Ids(b[a + 1..k]);
  }

  /** And when any other call takes it off the queue, as a walk does, its data goes to
      `freedata` on the same condition, after what the dbs ahead of it owe and before what
      those behind it do. */
  lemma LeavingPassesOn(m: nat, env: Env, run: seq<Pool>, p: Pool, i: nat, j: nat, u: nat, d: nat, rsv: nat, x: nat, n: Node, c: Call)
    returns (a: nat, k: nat)
    requires IsRun(m, env, run) && j < |run| && QueuedWithin(run, i, j, u, n)
    requires Good(p) && WrittenAndRetired(env, p, run[i], u, d, rsv, x, n)
    requires Legal(run[j], c) && OnQueue(c, u) && !QueuedIn(Perform(run[j], env, c), u, n)
    ensures QueuedIn(run[j], u, n) && PassedOn(run[j], Perform(run[j], env, c), u, k, Joins(run[j], c))
    ensures var b, owner := run[j].threads[u].dbuf, run[j].dbBody;
      && a < k && b[a] == n
      && Perform(run[j], env, c).freed == run[j].freed
           + (Owed(owner, Ids(b[..a])) + (if x != 0 && rsv % 2 == 1 then [x] else []) + Owed(owner, Ids(b[a + 1..k])))
  {
    RunGood(m, env, run, j);
    StaysAsWritten(m, env, run, p, i, j, u, d, rsv, x, n);
    k := CallPassesOn(run[j], env, c, u);
    a := NodePassesOn(run[j], Perform(run[j], env, c), u, n, k, Joins(run[j], c));
  }
}

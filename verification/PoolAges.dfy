/** How much of a queue a walk frees and where it goes, and when a parked id is handed out
    again. */
module PoolAges {
  import opened Options
  import opened Layout
  import opened PoolSpec
  import opened PoolLaws
  import opened PoolSteps
  import opened PoolRuns
  import T = TickAge

  // ---------------------------------------------------------------- exact walks

  /** All nodes but the tail, which no walk frees. */
  function Front(buf: seq<Node>): (f: seq<Node>)
    ensures buf != [] ==> |f| == |buf| - 1 && forall i :: 0 <= i < |f| ==> f[i] == buf[i]
  {
    if buf == [] then [] else buf[..|buf| - 1]
  }

  /** No stamp is a whole window old. */
  ghost predicate Recent(now: nat, buf: seq<Node>) {
    forall i :: 0 <= i < |buf| ==> now < buf[i].stamp + T.WINDOW
  }

  function AgedNodes(now: nat, buf: seq<Node>): (k: nat)
    ensures buf != [] ==> k < |buf|
    ensures k <= |buf|
  {
    T.Aged(now, Stamps(Front(buf)))
  }

  lemma WalkIsAged(now: nat, buf: seq<Node>)
    requires Ordered(now, buf) && Recent(now, Front(buf))
    ensures T.Walk(T.Masked(now), WalkStamps(buf)) == AgedNodes(now, buf) <==> !T.Straddles(now, Stamps(Front(buf)))
    ensures T.Walk(T.Masked(now), WalkStamps(buf)) >= AgedNodes(now, buf)
  {
    var s := Stamps(Front(buf));
    assert forall i :: 0 <= i < |s| ==> s[i] == buf[i].stamp;
    assert T.Queued(now, s);
    T.WalkExactly(now, s);
  }

  /** What freeing the nodes puts on the vec stack, last freed on top: each carrier above
      the id it carried, a spent node its carrier alone. */
  function Returned(b: seq<Node>): seq<nat> {
    if b == [] then []
    else Returned(b[1..]) + if b[0].id == SPT_NULL then [b[0].carrier] else [b[0].carrier, b[0].id]
  }

  lemma {:induction false} ReleasedVecs(p: Pool, t: nat, k: nat)
    requires t < |p.threads| && k <= |p.threads[t].vbuf|
    ensures ReleaseVecs(p, t, k).vecs == Returned(p.threads[t].vbuf[..k]) + p.vecs
    decreases k
  {
    if k > 0 {
      var b, p1 := p.threads[t].vbuf, ReleaseVec(p, t);
      ReleasedVecs(p1, t, k - 1);
      assert b[1..][..k - 1] == b[..k][1..];
      assert p1.vecs == (if b[0].id == SPT_NULL then [b[0].carrier] else [b[0].carrier, b[0].id]) + p.vecs;
    }
  }

  /** Each carrier and each unspent id is given back once. */
  lemma {:induction false} ReturnedOnce(b: seq<Node>)
    requires forall i :: 0 < i < |b| ==> b[i].id != SPT_NULL
    ensures multiset(Returned(b)) == multiset(Carriers(b)) + multiset(Parked(b))
  {
    if b != [] {
      ReturnedOnce(b[1..]);
      DropHead(b);
      assert Parked(b[1..]) == Ids(b[1..]);
    }
  }

  /** The first `k` nodes left the queue, each of their carriers and unspent ids once on
      the free stack. */
  ghost predicate FreedFront(p: Pool, q: Pool, t: nat, k: nat)
    requires t < |p.threads| && t < |q.threads| && k <= |p.threads[t].vbuf|
  {
    var b := p.threads[t].vbuf;
    && q.threads[t].vbuf == b[k..]
    && multiset(q.vecs) == multiset(p.vecs) + multiset(Carriers(b[..k])) + multiset(Parked(b[..k]))
  }

  lemma ReleaseGivesBack(p: Pool, t: nat, k: nat)
    requires Good(p) && t < |p.threads| && k <= |p.threads[t].vbuf|
    ensures |ReleaseVecs(p, t, k).threads| == |p.threads| && FreedFront(p, ReleaseVecs(p, t, k), t, k)
  {
    assert QueuesOk(p.tick, p.threads[t]);
    ReleasedVecs(p, t, k);
    ReleaseVecsEffect(p, t, k);
    ReturnedOnce(p.threads[t].vbuf[..k]);
  }

  /** `vec_buf_free` frees exactly the nodes two ticks old, up to the tail, unless the clock
      wrapped between the head's stamp and the first young node's; it always leaves the
      tail. */
  lemma VecBufFreeExactly(p: Pool, t: nat)
    requires Good(p) && t < |p.threads| && Recent(p.tick, Front(p.threads[t].vbuf))
    ensures var b, q := p.threads[t].vbuf, VecBufFree(p, t);
      && (q == ReleaseVecs(p, t, AgedNodes(p.tick, b)) <==> !T.Straddles(p.tick, Stamps(Front(b))))
      && (b != [] ==> q.threads[t].vbuf != [] && q.threads[t].vbuf[|q.threads[t].vbuf| - 1] == b[|b| - 1])
      && |q.threads[t].vbuf| <= |b| - AgedNodes(p.tick, b)
  {
    var b := p.threads[t].vbuf;
    var k := T.Walk(T.Masked(p.tick), WalkStamps(b));
    assert QueuesOk(p.tick, p.threads[t]);
    WalkIsAged(p.tick, b);
    ReleaseVecsEffect(p, t, k);
    ReleaseVecsEffect(p, t, AgedNodes(p.tick, b));
  }

  /** The data passed to `freedata` when dbs `ids` are released in this order. */
  function DataOf(p: Pool, ids: seq<nat>): seq<nat> {
    if ids == [] then [] else FreeData(p, ids[0]) + DataOf(p, ids[1..])
  }

  lemma {:induction false} DataOfSame(p: Pool, q: Pool, ids: seq<nat>)
    requires forall i :: 0 <= i < |ids| ==> FreeData(p, ids[i]) == FreeData(q, ids[i])
    ensures DataOf(p, ids) == DataOf(q, ids)
  {
    if ids != [] { DataOfSame(p, q, ids[1..]); }
  }

  /** The dbs behind the head are not the head's, so releasing it leaves their data. */
  lemma OthersKeepData(p: Pool, t: nat)
    requires Good(p) && t < |p.threads| && p.threads[t].dbuf != []
    ensures var ids := Ids(p.threads[t].dbuf[1..]);
      forall i :: 0 <= i < |ids| ==> FreeData(ReleaseDb(p, t), ids[i]) == FreeData(p, ids[i])
  {
    var b := p.threads[t].dbuf;
    var ids := Ids(b[1..]);
    DropHead(b);
    ShareExcludes(p, t, b[0].id);
    assert multiset(Ids(b))[b[0].id] == 1 + multiset(ids)[b[0].id];
    forall i | 0 <= i < |ids| ensures FreeData(ReleaseDb(p, t), ids[i]) == FreeData(p, ids[i]) {
      assert ids[i] in ids && ids[i] != b[0].id;
    }
  }

  function Backwards(s: seq<nat>): seq<nat> {
    if s == [] then [] else Backwards(s[1..]) + [s[0]]
  }

  /** Each db and each carrier of the front goes on its stack once, last freed on top. */
  lemma {:induction false} ReleasedDbs(p: Pool, t: nat, k: nat)
    requires t < |p.threads| && k <= |p.threads[t].dbuf|
    ensures var b, q := p.threads[t].dbuf, ReleaseDbs(p, t, k);
      q.dbs == Backwards(Ids(b[..k])) + p.dbs && q.vecs == Backwards(Carriers(b[..k])) + p.vecs
    decreases k
  {
    if k > 0 {
      var b, p1 := p.threads[t].dbuf, ReleaseDb(p, t);
      ReleasedDbs(p1, t, k - 1);
      assert b[1..][..k - 1] == b[..k][1..];
      DropHead(b[..k]);
      assert Ids(b[..k])[1..] == Ids(b[1..][..k - 1]) && Carriers(b[..k])[1..] == Carriers(b[1..][..k - 1]);
      assert p1.dbs == [b[0].id] + p.dbs && p1.vecs == [b[0].carrier] + p.vecs;
    }
  }

  lemma {:induction false} ReleasedData(p: Pool, t: nat, k: nat)
    requires Good(p) && t < |p.threads| && k <= |p.threads[t].dbuf|
    ensures ReleaseDbs(p, t, k).freed == p.freed + DataOf(p, Ids(p.threads[t].dbuf[..k]))
    decreases k
  {
    if k > 0 {
      ReleaseDbGood(p, t);
      ReleasedData(ReleaseDb(p, t), t, k - 1);
      FirstData(p, t, k);
    }
  }

  lemma FirstData(p: Pool, t: nat, k: nat)
    requires Good(p) && t < |p.threads| && 0 < k <= |p.threads[t].dbuf|
    ensures var p1 := ReleaseDb(p, t);
      p1.freed + DataOf(p1, Ids(p1.threads[t].dbuf[..k - 1])) == p.freed + DataOf(p, Ids(p.threads[t].dbuf[..k]))
  {
    var b := p.threads[t].dbuf;
    var ids := Ids(b[1..][..k - 1]);
    RestKeepsData(p, t, k);
    FirstOfData(p, b, k);
    assert (p.freed + FreeData(p, b[0].id)) + DataOf(p, ids) == p.freed + (FreeData(p, b[0].id) + DataOf(p, ids));
  }

  lemma RestKeepsData(p: Pool, t: nat, k: nat)
    requires Good(p) && t < |p.threads| && 0 < k <= |p.threads[t].dbuf|
    ensures var b, p1 := p.threads[t].dbuf, ReleaseDb(p, t); var ids := Ids(b[1..][..k - 1]);
      && p1.threads[t].dbuf == b[1..] && p1.freed == p.freed + FreeData(p, b[0].id)
      && DataOf(p1, ids) == DataOf(p, ids)
  {
    var b, p1 := p.threads[t].dbuf, ReleaseDb(p, t);
    var ids := Ids(b[1..][..k - 1]);
    OthersKeepData(p, t);
    assert forall i :: 0 <= i < |ids| ==> ids[i] == Ids(b[1..])[i];
    DataOfSame(p, p1, ids);
  }

  lemma FirstOfData(p: Pool, b: seq<Node>, k: nat)
    requires 0 < k <= |b|
    ensures DataOf(p, Ids(b[..k])) == FreeData(p, b[0].id) + DataOf(p, Ids(b[1..][..k - 1]))
  {
    assert Ids(b[..k])[1..] == Ids(b[1..][..k - 1]);
  }

  /** `db_buf_free` frees exactly the dbs two ticks old, up to the tail, passing on exactly
      the data flagged for it, unless the clock wrapped inside the queue. */
  lemma DbBufFreeExactly(p: Pool, t: nat)
    requires Good(p) && t < |p.threads| && Recent(p.tick, Front(p.threads[t].dbuf))
    ensures var b, q := p.threads[t].dbuf, DbBufFree(p, t);
      && (q == ReleaseDbs(p, t, AgedNodes(p.tick, b)) <==> !T.Straddles(p.tick, Stamps(Front(b))))
      && (!T.Straddles(p.tick, Stamps(Front(b))) ==>
            q.freed == p.freed + DataOf(p, Ids(b[..AgedNodes(p.tick, b)])))
      && (b != [] ==> q.threads[t].dbuf != [] && q.threads[t].dbuf[|q.threads[t].dbuf| - 1] == b[|b| - 1])
      && |q.threads[t].dbuf| <= |b| - AgedNodes(p.tick, b)
  {
    var b := p.threads[t].dbuf;
    var k := T.Walk(T.Masked(p.tick), WalkStamps(b));
    assert QueuesOk(p.tick, p.threads[t]);
    WalkIsAged(p.tick, b);
    ReleaseDbsEffect(p, t, k);
    ReleaseDbsEffect(p, t, AgedNodes(p.tick, b));
    ReleasedData(p, t, AgedNodes(p.tick, b));
  }

  // ---------------------------------------------------------------- reuse

  /** An unspent head's id is handed out exactly when its age, modulo the clock's window, is
      two ticks or more: never earlier than two ticks, however often the clock wrapped, and
      always from then on until a whole window has passed. */
  lemma VecReuseExactly(p: Pool, t: nat)
    requires Good(p) && t < |p.threads| && p.threads[t].vbuf != [] && !Spent(p.threads[t].vbuf)
    ensures var n, r := p.threads[t].vbuf[0], VecAllocFromBuf(p, t).1; var age := p.tick - n.stamp;
      && (r.Some? <==> age % T.WINDOW >= 2)
      && (r.Some? ==> age >= 2 && r.value == n.id)
      && (age < T.WINDOW ==> (r.Some? <==> age >= 2))
  {
    assert QueuesOk(p.tick, p.threads[t]);
    T.ExpiredIsAge(p.tick, p.threads[t].vbuf[0].stamp);
  }

  /** The same for dbs; the data goes to `freedata` only then. */
  lemma DbReuseExactly(p: Pool, t: nat)
    requires Good(p) && t < |p.threads| && p.threads[t].dbuf != []
    ensures var n, q, r := p.threads[t].dbuf[0], DbAllocFromBuf(p, t).0, DbAllocFromBuf(p, t).1;
      var age := p.tick - n.stamp;
      && (r.Some? <==> age % T.WINDOW >= 2)
      && (r.Some? ==> age >= 2 && r.value == n.id && q.freed == p.freed + FreeData(p, n.id))
      && (r.None? ==> q == p)
      && (age < T.WINDOW ==> (r.Some? <==> age >= 2))
  {
    assert QueuesOk(p.tick, p.threads[t]);
    T.ExpiredIsAge(p.tick, p.threads[t].dbuf[0].stamp);
  }
}

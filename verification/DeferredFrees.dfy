/** The deferred-free queue of one thread, as the stack of free vecs or of free dbs sees it:
    one entry per id of that stack, oldest first, stamped with the tick it was retired at.

    A retired vec waits together with its carrier, both vecs: two entries of one node.  The
    walk of `vec_buf_free` and `db_buf_free` compares masked stamps with a tick it carries
    along; once that tick is widened past a wrap it stays so. */
module DeferredFrees {
  import T = TickAge

  /** `pair`: the next entry belongs to the same node.  `spent`: the id that waited in the
      same node is gone, this one may follow without a test. */
  datatype Entry = Entry(id: nat, stamp: nat, pair: bool, spent: bool)

  function NodeOf(ids: seq<nat>, stamp: nat): seq<Entry>
    requires 1 <= |ids| <= 2
  {
    if |ids| == 1 then [Entry(ids[0], stamp, false, false)]
    else [Entry(ids[0], stamp, true, false), Entry(ids[1], stamp, false, false)]
  }

  /** How many entries lie before the tail node. */
  function FrontLen(buf: seq<Entry>): (k: nat)
    ensures k <= |buf|
  {
    if |buf| >= 2 && buf[|buf| - 2].pair then |buf| - 2 else if buf == [] then 0 else |buf| - 1
  }

  function FrontStamps(buf: seq<Entry>): (s: seq<nat>)
    ensures |s| == FrontLen(buf) && forall i :: 0 <= i < |s| ==> s[i] == buf[i].stamp
  {
    seq(FrontLen(buf), i requires 0 <= i < FrontLen(buf) => buf[i].stamp)
  }

  /** The head's id is handed out; an id of the same node has now passed its test. */
  function AfterHead(buf: seq<Entry>): seq<Entry>
    requires buf != []
  {
    if buf[0].pair && |buf| > 1 then [buf[1].(spent := true)] + buf[2..] else buf[1..]
  }

  /** The test of the two alloc-from-buf functions. */
  predicate HeadExpired(now: nat, buf: seq<Entry>)
    requires buf != []
  {
    T.Expired(T.Masked(now), T.Masked(buf[0].stamp))
  }

  /** The walk frees the head: it is not of the tail node and passes the test. */
  predicate WalkGoesOn(buf: seq<Entry>, tick: nat) {
    FrontLen(buf) > 0 && T.Widened(tick, T.Masked(buf[0].stamp)) - T.Masked(buf[0].stamp) >= 2
  }

  /** The tick carried past the head. */
  function Carried(buf: seq<Entry>, tick: nat): nat
    requires buf != []
  {
    T.Widened(tick, T.Masked(buf[0].stamp))
  }

  ghost predicate EntryOk(now: nat, buf: seq<Entry>, i: nat) {
    i < |buf| ==>
      && buf[i].stamp <= now && (buf[i].spent ==> buf[i].stamp + 2 <= now)
      && (buf[i].pair ==> i + 1 < |buf| && buf[i + 1].stamp == buf[i].stamp)
  }

  ghost predicate OrderAt(buf: seq<Entry>, i: nat, j: nat) {
    i < j < |buf| ==> buf[i].stamp <= buf[j].stamp && buf[i].id != buf[j].id
  }

  /** Entries in order, none in the future, each id once, spent ones two ticks old. */
  ghost predicate InOrder(now: nat, buf: seq<Entry>) {
    && (forall i: nat :: EntryOk(now, buf, i))
    && (forall i: nat, j: nat :: OrderAt(buf, i, j))
  }

  lemma InOrderLater(now: nat, now': nat, buf: seq<Entry>)
    requires InOrder(now, buf) && now <= now'
    ensures InOrder(now', buf)
  {
    forall i: nat ensures EntryOk(now', buf, i) { assert EntryOk(now, buf, i); }
  }

  lemma InOrderTail(now: nat, buf: seq<Entry>)
    requires InOrder(now, buf) && buf != []
    ensures InOrder(now, buf[1..])
  {
    forall i: nat ensures EntryOk(now, buf[1..], i) { assert EntryOk(now, buf, i + 1); }
    forall i: nat, j: nat ensures OrderAt(buf[1..], i, j) { assert OrderAt(buf, i + 1, j + 1); }
  }

  lemma InOrderAfterHead(now: nat, buf: seq<Entry>)
    requires InOrder(now, buf) && buf != [] && buf[0].stamp + 2 <= now
    ensures InOrder(now, AfterHead(buf))
  {
    var b := AfterHead(buf);
    assert EntryOk(now, buf, 0);
    forall i: nat ensures EntryOk(now, b, i) { assert EntryOk(now, buf, i + 1); }
    forall i: nat, j: nat ensures OrderAt(b, i, j) { assert OrderAt(buf, i + 1, j + 1); }
  }

  lemma InOrderAppend(now: nat, buf: seq<Entry>, ids: seq<nat>)
    requires InOrder(now, buf) && 1 <= |ids| <= 2 && (|ids| == 2 ==> ids[0] != ids[1])
    requires forall i: nat :: i < |buf| ==> buf[i].id !in ids
    ensures InOrder(now, buf + NodeOf(ids, now))
  {
    var b := buf + NodeOf(ids, now);
    forall i: nat ensures EntryOk(now, b, i) { assert EntryOk(now, buf, i); }
    forall i: nat, j: nat ensures OrderAt(b, i, j) {
      assert OrderAt(buf, i, j);
      assert EntryOk(now, buf, i);
    }
  }

  /** Either test of a head at least two ticks old in truth. */
  lemma HeadIsAged(now: nat, buf: seq<Entry>)
    requires InOrder(now, buf) && buf != [] && (buf[0].spent || HeadExpired(now, buf))
    ensures buf[0].stamp + 2 <= now
  {
    assert EntryOk(now, buf, 0);
    T.ExpiredIsAge(now, buf[0].stamp);
  }

  // ---------------------------------------------------------------- walks

  /** Everything the walk will free, carrying `tick`, is two ticks old. */
  ghost predicate FreesAged(now: nat, buf: seq<Entry>, tick: nat) {
    var s := FrontStamps(buf);
    forall i: nat :: i < T.Walk(tick, T.MaskedAll(s)) ==> AgedAt(now, s, i)
  }

  ghost predicate AgedAt(now: nat, s: seq<nat>, i: nat) {
    i < |s| ==> s[i] + 2 <= now
  }

  /** A walk over this queue, begun now, would run into young ids. */
  ghost predicate Slips(now: nat, buf: seq<Entry>) {
    T.Slips(now, FrontStamps(buf))
  }

  /** A walk frees aged ids only, exactly when it does not slip. */
  lemma CalmExactly(now: nat, buf: seq<Entry>)
    requires InOrder(now, buf)
    ensures FreesAged(now, buf, T.Masked(now)) <==> !Slips(now, buf)
  {
    var s := FrontStamps(buf);
    forall i: nat | i < |s| ensures s[i] <= now { assert EntryOk(now, buf, i); }
    forall i: nat, j: nat | i < j < |s| ensures s[i] <= s[j] { assert OrderAt(buf, i, j); }
    T.SlipsExactly(now, s);
    var y := T.Aged(now, s);
    if Slips(now, buf) {
      assert !AgedAt(now, s, y);
    } else {
      forall i: nat | i < T.Walk(T.Masked(now), T.MaskedAll(s)) ensures AgedAt(now, s, i) {}
    }
  }

  lemma FreesAgedLater(now: nat, now': nat, buf: seq<Entry>, tick: nat)
    requires FreesAged(now, buf, tick) && now <= now'
    ensures FreesAged(now', buf, tick)
  {
    var s := FrontStamps(buf);
    forall i: nat | i < T.Walk(tick, T.MaskedAll(s)) ensures AgedAt(now', s, i) { assert AgedAt(now, s, i); }
  }

  lemma FrontTail(buf: seq<Entry>)
    requires FrontLen(buf) > 0
    ensures FrontStamps(buf)[1..] == FrontStamps(buf[1..])
  {
  }

  /** One turn of the walk. */
  lemma FreesAgedNext(now: nat, buf: seq<Entry>, tick: nat)
    requires FreesAged(now, buf, tick) && WalkGoesOn(buf, tick)
    ensures buf[0].stamp + 2 <= now
    ensures FreesAged(now, buf[1..], Carried(buf, tick))
  {
    var s := FrontStamps(buf);
    T.WalkHead(tick, s);
    FrontTail(buf);
    assert AgedAt(now, s, 0);
    var r := FrontStamps(buf[1..]);
    forall i: nat | i < T.Walk(Carried(buf, tick), T.MaskedAll(r)) ensures AgedAt(now, r, i) {
      assert AgedAt(now, s, i + 1);
    }
  }
}

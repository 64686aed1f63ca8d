/** The lock-free stacks of free vecs and free dbs, as an interleaving machine.

    One action is one shared-memory access of `vec_alloc`, `vec_free`, `vec_add_blk`
    (or of their db counterparts): a read of the head, a read or write of a link, a
    compare-and-swap, one counter update.  Ids come back from the deferred-free queues by
    the tests of `vec_alloc_from_buf`, `db_alloc_from_buf` and the walks of the two
    buf_free functions, on masked stamps and on the tick a walk carries along.

    Nothing tags the head, so a stale snapshot (head, link) is harmless only because an id
    that left the stack waits two ticks before it can come back, and a section cannot stay
    open that long.  A walk that slips past a wrap of the clock breaks the first half of
    this; what is proved here is proved of runs none of whose walks slips. */
module LockFreePool {
  import opened Layout
  import opened ThreadSums
  import opened LinkedStacks
  import opened DeferredFrees
  import T = TickAge

  datatype Section = Closed | Open(at: nat)

  /** The loop of a buf_free function over one queue, with the tick it carries. */
  datatype Walk = NoWalk | Walking(buf: nat, tick: nat)

  /** Where an id is.  `since` is the tick at which it left the stack or was retired. */
  datatype Place =
    | Listed
    | Taken(who: nat, since: nat)
    | Live(since: nat)
    | Parked(buf: nat, since: nat)
    | Pushing(who: nat)

  /** The program counter of one thread, with the local variables it holds there. */
  datatype Pc =
    | Idle
    | PopHead(h: nat)
    | PopLink(h: nat, n: int)
    | PopTaken(h: nat)
    | PopCounted(h: nat)
    | PushReady(chain: seq<nat>, carving: bool)
    | PushHead(chain: seq<nat>, carving: bool, seen: int)
    | PushLinked(chain: seq<nat>, carving: bool, seen: int)
    | PushSpliced(chain: seq<nat>, carving: bool)
    | PushCounted(id: nat)

  datatype Thread = Thread(sec: Section, pc: Pc, walk: Walk)

  /** Thread `t` owns the queues 2 * t and 2 * t + 1: its vecs' and its data's. */
  datatype State = State(
    head: int,
    link: map<nat, int>,
    list: seq<nat>,
    place: map<nat, Place>,
    tick: nat,
    thr: seq<Thread>,
    bufs: seq<seq<Entry>>,
    freeCnt: nat,
    usedCnt: nat,
    carved: nat)

  datatype Action =
    | OpenSection(t: nat)
    | CloseSection(t: nat)
    | Tick
    | ReadHead(t: nat)
    | ReadLink(t: nat)
    | PopCas(t: nat)
    | PopSubFree(t: nat)
    | PopAddUsed(t: nat)
    | Retire(t: nat, b: nat, ids: seq<nat>)
    | Reuse(t: nat, b: nat)
    | FreeHead(t: nat, b: nat)
    | WalkBegin(t: nat, b: nat)
    | WalkFree(t: nat)
    | WalkEnd(t: nat)
    | Carve(t: nat, base: nat, total: nat)
    | Scribble(id: nat, word: int)
    | PushReadHead(t: nat)
    | PushWriteLink(t: nat)
    | PushCas(t: nat)
    | PushAddFree(t: nat)
    | PushSubUsed(t: nat)

  function SetPc(s: State, t: nat, pc: Pc): State
    requires t < |s.thr|
  {
    s.(thr := s.thr[t := s.thr[t].(pc := pc)])
  }

  function SetWalk(s: State, t: nat, w: Walk): State
    requires t < |s.thr|
  {
    s.(thr := s.thr[t := s.thr[t].(walk := w)])
  }

  function Init(n: nat): State {
    State(NIL, map[], [], map[], 0, seq(n, _ => Thread(Closed, Idle, NoWalk)), seq(2 * n, _ => []), 0, 0, 0)
  }

  /** Thread `t` is inside a section; allocator code runs nowhere else. */
  predicate Inside(s: State, t: nat) {
    t < |s.thr| && s.thr[t].sec.Open?
  }

  /** Thread `t` is inside a section and between two calls. */
  predicate Ready(s: State, t: nat) {
    Inside(s, t) && s.thr[t].pc.Idle? && s.thr[t].walk.NoWalk?
  }

  predicate Owns(s: State, t: nat, b: nat) {
    b < |s.bufs| && b / 2 == t
  }

  /** The grace promise: a tick passes only if every open section was opened in the
      current tick, so the clock never reaches two ticks past an open section. */
  predicate TickAllowed(s: State) {
    forall t :: 0 <= t < |s.thr| && s.thr[t].sec.Open? ==> s.tick <= s.thr[t].sec.at
  }

  predicate Enabled(s: State, a: Action) {
    match a
    case OpenSection(t) => t < |s.thr| && s.thr[t] == Thread(Closed, Idle, NoWalk)
    case CloseSection(t) => Ready(s, t)
    case Tick => TickAllowed(s)
    case ReadHead(t) => Ready(s, t) && s.head >= 0
    case ReadLink(t) => Inside(s, t) && s.thr[t].pc.PopHead? && s.thr[t].pc.h in s.link
    case PopCas(t) => Inside(s, t) && s.thr[t].pc.PopLink?
    case PopSubFree(t) => Inside(s, t) && s.thr[t].pc.PopTaken?
    case PopAddUsed(t) =>
      && Inside(s, t) && s.thr[t].pc.PopCounted?
      && s.thr[t].pc.h in s.place && s.place[s.thr[t].pc.h].Taken?
    case Retire(t, b, ids) =>
      && Ready(s, t) && Owns(s, t, b) && 1 <= |ids| <= 2 && (|ids| == 2 ==> ids[0] != ids[1])
      && forall id :: id in ids ==> id in s.place && s.place[id].Live?
    case Reuse(t, b) =>
      && Ready(s, t) && Owns(s, t, b) && s.bufs[b] != []
      && (s.bufs[b][0].spent || HeadExpired(s.tick, s.bufs[b]))
    case FreeHead(t, b) =>
      Ready(s, t) && Owns(s, t, b) && s.bufs[b] != [] && HeadExpired(s.tick, s.bufs[b])
    case WalkBegin(t, b) => Ready(s, t) && Owns(s, t, b)
    case WalkFree(t) =>
      && Inside(s, t) && s.thr[t].pc.Idle? && s.thr[t].walk.Walking? && s.thr[t].walk.buf < |s.bufs|
      && WalkGoesOn(s.bufs[s.thr[t].walk.buf], s.thr[t].walk.tick)
    case WalkEnd(t) =>
      && Inside(s, t) && s.thr[t].pc.Idle? && s.thr[t].walk.Walking? && s.thr[t].walk.buf < |s.bufs|
      && !WalkGoesOn(s.bufs[s.thr[t].walk.buf], s.thr[t].walk.tick)
    case Carve(t, base, total) =>
      && Ready(s, t) && total > 0
      && forall i :: i in Carved(base, total) ==> i !in s.place
    case Scribble(id, _) => id in s.place && (s.place[id].Live? || s.place[id].Parked?)
    case PushReadHead(t) => Inside(s, t) && s.thr[t].pc.PushReady?
    case PushWriteLink(t) => Inside(s, t) && s.thr[t].pc.PushHead? && s.thr[t].pc.chain != []
    case PushCas(t) => Inside(s, t) && s.thr[t].pc.PushLinked? && s.thr[t].pc.chain != []
    case PushAddFree(t) => Inside(s, t) && s.thr[t].pc.PushSpliced? && s.thr[t].pc.chain != []
    case PushSubUsed(t) => Inside(s, t) && s.thr[t].pc.PushCounted?
  }

  function Apply(s: State, a: Action): State
    requires Enabled(s, a)
  {
    match a
    case OpenSection(t) => s.(thr := s.thr[t := Thread(Open(s.tick), Idle, NoWalk)])
    case CloseSection(t) => s.(thr := s.thr[t := Thread(Closed, Idle, NoWalk)])
    case Tick => s.(tick := s.tick + 1)
    case ReadHead(t) => SetPc(s, t, PopHead(s.head))
    case ReadLink(t) =>
      var h := s.thr[t].pc.h;
      SetPc(s, t, PopLink(h, s.link[h]))
    case PopCas(t) => DoPopCas(s, t)
    case PopSubFree(t) =>
      SetPc(s.(freeCnt := Add32(s.freeCnt, -1)), t, PopCounted(s.thr[t].pc.h))
    case PopAddUsed(t) =>
      var h := s.thr[t].pc.h;
      SetPc(s.(usedCnt := Add32(s.usedCnt, 1), place := s.place[h := Live(s.place[h].since)]), t, Idle)
    case Retire(t, b, ids) =>
      s.(place := s.place + map i | i in ids :: Parked(b, s.tick),
         bufs := s.bufs[b := s.bufs[b] + NodeOf(ids, s.tick)])
    case Reuse(t, b) =>
      s.(place := s.place[s.bufs[b][0].id := Live(s.tick)], bufs := s.bufs[b := AfterHead(s.bufs[b])])
    case FreeHead(t, b) =>
      var id := s.bufs[b][0].id;
      SetPc(s.(place := s.place[id := Pushing(t)], bufs := s.bufs[b := AfterHead(s.bufs[b])]),
            t, PushReady([id], false))
    case WalkBegin(t, b) => SetWalk(s, t, Walking(b, T.Masked(s.tick)))
    case WalkFree(t) =>
      var b := s.thr[t].walk.buf;
      var buf := s.bufs[b];
      SetPc(SetWalk(s.(place := s.place[buf[0].id := Pushing(t)], bufs := s.bufs[b := buf[1..]]),
                    t, Walking(b, Carried(buf, s.thr[t].walk.tick))),
            t, PushReady([buf[0].id], false))
    case WalkEnd(t) => SetWalk(s, t, NoWalk)
    case Carve(t, base, total) =>
      SetPc(s.(place := s.place + map i | i in Carved(base, total) :: Pushing(t),
               link := s.link + map i | i in Carved(base, total) :: i + 1),
            t, PushReady(Carved(base, total), true))
    case Scribble(id, word) => s.(link := s.link[id := word])
    case PushReadHead(t) =>
      SetPc(s, t, PushHead(s.thr[t].pc.chain, s.thr[t].pc.carving, s.head))
    case PushWriteLink(t) =>
      var pc := s.thr[t].pc;
      SetPc(s.(link := s.link[pc.chain[|pc.chain| - 1] := pc.seen]), t, PushLinked(pc.chain, pc.carving, pc.seen))
    case PushCas(t) => DoPushCas(s, t)
    case PushAddFree(t) =>
      var pc := s.thr[t].pc;
      SetPc(s.(freeCnt := Add32(s.freeCnt, |pc.chain|)), t, if pc.carving then Idle else PushCounted(pc.chain[0]))
    case PushSubUsed(t) => SetPc(s.(usedCnt := Add32(s.usedCnt, -1)), t, Idle)
  }

  /** The swap of a pop: on success the snapshot's link becomes the head, unchecked. */
  function DoPopCas(s: State, t: nat): State
    requires Enabled(s, PopCas(t))
  {
    var pc := s.thr[t].pc;
    if s.head == pc.h then
      SetPc(s.(head := pc.n,
               list := if s.list == [] then [] else s.list[1..],
               place := s.place[pc.h := Taken(t, s.tick)]), t, PopTaken(pc.h))
    else
      SetPc(s, t, Idle)
  }

  function DoPushCas(s: State, t: nat): State
    requires Enabled(s, PushCas(t))
  {
    var pc := s.thr[t].pc;
    if s.head == pc.seen then
      SetPc(s.(head := pc.chain[0],
               list := pc.chain + s.list,
               place := s.place + map i | i in pc.chain :: Listed,
               carved := s.carved + if pc.carving then |pc.chain| else 0),
            t, PushSpliced(pc.chain, pc.carving))
    else
      SetPc(s, t, PushReady(pc.chain, pc.carving))
  }

  // ---------------------------------------------------------------- invariant

  /** Head and links spell `list`, which holds exactly the listed ids, once each. */
  ghost predicate StackOk(s: State) {
    && Spells(s.link, s.head, s.list)
    && (forall id :: id in s.list <==> id in s.place && s.place[id].Listed?)
  }

  /** The id is off the stack and `since` is meaningful. */
  ghost predicate Out(p: Place) {
    p.Taken? || p.Live? || p.Parked?
  }

  ghost predicate TimeAt(s: State, id: nat) {
    id in s.place ==> id in s.link && (Out(s.place[id]) ==> s.place[id].since <= s.tick)
  }

  ghost predicate TimesOk(s: State) {
    forall id: nat :: TimeAt(s, id)
  }

  /** An id in a popper's snapshot is either still listed, or left the stack during the
      popper's own section. */
  ghost predicate SnapshotOk(s: State, at: nat, h: nat) {
    && h in s.place
    && (s.place[h].Listed? || (!s.place[h].Pushing? && at <= s.place[h].since))
  }

  ghost predicate ChainOk(s: State, t: nat, chain: seq<nat>) {
    && chain != [] && NoDup(chain)
    && (forall id :: id in chain ==> id in s.place && s.place[id] == Pushing(t))
    && Chained(s.link, chain)
  }

  ghost predicate ThreadOk(s: State, t: nat)
    requires t < |s.thr|
  {
    var sec := s.thr[t].sec;
    var pc := s.thr[t].pc;
    && (sec.Closed? ==> pc.Idle?)
    && (sec.Open? ==> sec.at <= s.tick <= sec.at + 1)
    && match pc
       case Idle => true
       case PopHead(h) => SnapshotOk(s, sec.at, h)
       case PopLink(h, n) =>
         SnapshotOk(s, sec.at, h) && (s.place[h].Listed? ==> h in s.link && s.link[h] == n)
       case PopTaken(h) => h in s.place && s.place[h].Taken? && s.place[h].who == t
       case PopCounted(h) => h in s.place && s.place[h].Taken? && s.place[h].who == t
       case PushReady(chain, carving) => ChainOk(s, t, chain) && (!carving ==> |chain| == 1)
       case PushHead(chain, carving, seen) => ChainOk(s, t, chain) && (!carving ==> |chain| == 1)
       case PushLinked(chain, carving, seen) =>
         && ChainOk(s, t, chain) && (!carving ==> |chain| == 1)
         && chain[|chain| - 1] in s.link && s.link[chain[|chain| - 1]] == seen
       case PushSpliced(chain, carving) => chain != [] && (!carving ==> |chain| == 1)
       case PushCounted(_) => true
  }

  ghost predicate ThreadsOk(s: State) {
    forall t :: 0 <= t < |s.thr| ==> ThreadOk(s, t)
  }


  lemma CarvedFacts(base: nat, total: nat)
    ensures NoDup(Carved(base, total)) && |Carved(base, total)| == total
    ensures forall i :: 0 <= i < total ==> Carved(base, total)[i] == base + i
  {
  }

  // ---------------------------------------------------------------- queues

  /** The action takes the head of a queue. */
  predicate Takes(a: Action) {
    a.Reuse? || a.FreeHead? || a.WalkFree?
  }

  function HeadBuf(s: State, a: Action): nat
    requires Takes(a) && Enabled(s, a)
  {
    if a.WalkFree? then s.thr[a.t].walk.buf else a.b
  }

  /** What the action takes off a queue has waited there for two ticks. */
  ghost predicate Graced(s: State, a: Action)
    requires Enabled(s, a)
  {
    Takes(a) ==> var b := HeadBuf(s, a); var e := s.bufs[b][0];
      e.id in s.place && s.place[e.id] == Parked(b, e.stamp) && e.stamp + 2 <= s.tick
  }

  ghost predicate WaitsAt(place: map<nat, Place>, b: nat, buf: seq<Entry>, i: nat) {
    i < |buf| ==> buf[i].id in place && place[buf[i].id] == Parked(b, buf[i].stamp)
  }

  ghost predicate AllWait(place: map<nat, Place>, b: nat, buf: seq<Entry>) {
    forall i: nat :: WaitsAt(place, b, buf, i)
  }

  ghost predicate QueueAt(s: State, b: nat) {
    b < |s.bufs| ==> InOrder(s.tick, s.bufs[b]) && AllWait(s.place, b, s.bufs[b])
  }

  ghost predicate IsEntry(buf: seq<Entry>, i: nat, id: nat) {
    i < |buf| && buf[i].id == id
  }

  /** A parked id is an entry of the queue it was parked in. */
  ghost predicate QueuedAt(s: State, id: nat) {
    id in s.place && s.place[id].Parked? ==>
      s.place[id].buf < |s.bufs| && exists i: nat :: IsEntry(s.bufs[s.place[id].buf], i, id)
  }

  /** What a walk in progress has still to free is two ticks old. */
  ghost predicate WalkAt(s: State, t: nat) {
    t < |s.thr| && s.thr[t].walk.Walking? ==>
      Owns(s, t, s.thr[t].walk.buf) && FreesAged(s.tick, s.bufs[s.thr[t].walk.buf], s.thr[t].walk.tick)
  }

  ghost predicate QueuesOk(s: State) {
    && |s.bufs| == 2 * |s.thr|
    && (forall b: nat :: QueueAt(s, b)) && (forall t: nat :: WalkAt(s, t)) && (forall id: nat :: QueuedAt(s, id))
  }

  lemma HeadGraced(s: State, a: Action)
    requires Enabled(s, a) && QueuesOk(s)
    ensures Graced(s, a)
  {
    if Takes(a) {
      var b := HeadBuf(s, a);
      assert QueueAt(s, b) && WaitsAt(s.place, b, s.bufs[b], 0);
      if a.WalkFree? {
        assert WalkAt(s, a.t);
        FreesAgedNext(s.tick, s.bufs[b], s.thr[a.t].walk.tick);
      } else {
        HeadIsAged(s.tick, s.bufs[b]);
      }
    }
  }

  /** The thread whose id decides the action, or none. */
  function Actor(a: Action): int {
    match a
    case Tick => -1
    case Scribble(_, _) => -1
    case _ => a.t
  }

  ghost predicate Inv(s: State) {
    StackOk(s) && TimesOk(s) && ThreadsOk(s)
  }

  lemma TimeKeptByTaking(s: State, a: Action, id: nat)
    requires Enabled(s, a) && Takes(a) && Graced(s, a) && TimeAt(s, id) && TimeAt(s, s.bufs[HeadBuf(s, a)][0].id)
    ensures TimeAt(Apply(s, a), id)
  {
    var s', h := Apply(s, a), s.bufs[HeadBuf(s, a)][0].id;
    assert s'.place == s.place[h := s'.place[h]] && s'.link == s.link && s'.tick == s.tick;
  }

  lemma TimeKeptByPush(s: State, a: Action, id: nat)
    requires Enabled(s, a) && (a.PushWriteLink? || a.PushCas?) && ThreadOk(s, a.t) && TimeAt(s, id)
    requires forall x: nat :: TimeAt(s, x)
    ensures TimeAt(Apply(s, a), id)
  {
    var s', chain := Apply(s, a), s.thr[a.t].pc.chain;
    assert s'.tick == s.tick;
    if id in chain { assert s.place[id] == Pushing(a.t); }
  }

  lemma TimeKeptByMoves(s: State, a: Action, id: nat)
    requires Enabled(s, a) && (a.PopCas? || a.PopAddUsed? || a.Retire? || a.Carve? || a.Scribble?)
    requires TimeAt(s, id) && (Actor(a) >= 0 ==> ThreadOk(s, a.t)) && (a.PopAddUsed? ==> TimeAt(s, s.thr[a.t].pc.h))
    ensures TimeAt(Apply(s, a), id)
  {
  }

  lemma TimeKeptQuietly(s: State, a: Action, id: nat)
    requires Enabled(s, a) && TimeAt(s, id) && Quiet(a)
    ensures TimeAt(Apply(s, a), id)
  {
    QuietStep(s, a);
    assert s.tick <= Apply(s, a).tick;
  }

  lemma TimesKept(s: State, a: Action)
    requires Enabled(s, a) && Inv(s) && Graced(s, a)
    ensures TimesOk(Apply(s, a))
  {
    assert Actor(a) >= 0 ==> ThreadOk(s, a.t);
    forall id: nat ensures TimeAt(Apply(s, a), id) {
      assert TimeAt(s, id);
      if Quiet(a) {
        TimeKeptQuietly(s, a, id);
      } else if Takes(a) {
        assert TimeAt(s, s.bufs[HeadBuf(s, a)][0].id);
        TimeKeptByTaking(s, a, id);
      } else if a.PushWriteLink? || a.PushCas? {
        TimeKeptByPush(s, a, id);
      } else {
        assert a.PopAddUsed? ==> TimeAt(s, s.thr[a.t].pc.h);
        TimeKeptByMoves(s, a, id);
      }
    }
  }

  lemma StackKeptPop(s: State, t: nat)
    requires Enabled(s, PopCas(t)) && StackOk(s) && ThreadOk(s, t) && s.head == s.thr[t].pc.h
    ensures s.list != [] && s.list[0] == s.head && s.thr[t].pc.n == First(s.list[1..])
    ensures StackOk(Apply(s, PopCas(t)))
  {
    PopSpells(s.link, s.list);
  }

  lemma StackKeptPush(s: State, t: nat)
    requires Enabled(s, PushCas(t)) && StackOk(s) && ThreadOk(s, t) && s.head == s.thr[t].pc.seen
    ensures StackOk(Apply(s, PushCas(t)))
  {
    PushSpells(s.link, s.thr[t].pc.chain, s.head, s.list);
  }

  lemma StackKeptWriteLink(s: State, t: nat)
    requires Enabled(s, PushWriteLink(t)) && StackOk(s) && ThreadOk(s, t)
    ensures StackOk(Apply(s, PushWriteLink(t)))
  {
    SpellsFrame(s.link, Apply(s, PushWriteLink(t)).link, s.head, s.list);
  }

  /** A step that keeps the head, the contents and the listed ids' links. */
  lemma StackFrame(s: State, s': State)
    requires StackOk(s) && s'.head == s.head && s'.list == s.list
    requires forall id :: id in s.list && id in s.link ==> id in s'.link && s'.link[id] == s.link[id]
    requires forall id :: id in s.list ==> id in s'.place && s'.place[id].Listed?
    requires forall id :: id in s'.place && s'.place[id].Listed? ==> id in s.list
    ensures StackOk(s')
  {
    SpellsFrame(s.link, s'.link, s.head, s.list);
  }

  lemma StackKeptMove(s: State, a: Action)
    requires Enabled(s, a) && StackOk(s)
    requires a.Retire? || Takes(a) || a.Carve? || a.Scribble? || a.PopAddUsed?
    requires Graced(s, a)
    ensures StackOk(Apply(s, a))
  {
    StackFrame(s, Apply(s, a));
  }

  /** Steps that touch neither the stack, nor a link, nor where an id is. */
  predicate Quiet(a: Action) {
    !a.PopCas? && !a.PushCas? && !a.PushWriteLink? && !a.Retire? && !Takes(a) && !a.Carve? && !a.Scribble? && !a.PopAddUsed?
  }

  lemma QuietStep(s: State, a: Action)
    requires Enabled(s, a) && Quiet(a)
    ensures var s' := Apply(s, a); s'.head == s.head && s'.list == s.list && s'.link == s.link && s'.place == s.place
  {
  }

  lemma StackKept(s: State, a: Action)
    requires Enabled(s, a) && StackOk(s) && (Actor(a) >= 0 ==> ThreadOk(s, a.t)) && Graced(s, a)
    ensures StackOk(Apply(s, a))
  {
    if a.PopCas? {
      if s.head == s.thr[a.t].pc.h { StackKeptPop(s, a.t); }
    } else if a.PushCas? {
      if s.head == s.thr[a.t].pc.seen { StackKeptPush(s, a.t); }
    } else if a.PushWriteLink? {
      StackKeptWriteLink(s, a.t);
    } else if Quiet(a) {
      QuietStep(s, a);
    } else {
      StackKeptMove(s, a);
    }
  }

  ghost predicate Mine(p: Place, u: nat) {
    (p.Taken? || p.Pushing?) && p.who == u
  }

  /** What a step must respect for thread `u` to keep its knowledge: its own ids and
      their links, and every id it may hold a snapshot of.  In particular such an id
      does not come back to the stack once it has left. */
  ghost predicate Undisturbed(s: State, s': State, u: nat)
    requires u < |s.thr|
  {
    var at := s.thr[u].sec;
    && |s'.thr| == |s.thr| && s'.thr[u] == s.thr[u]
    && (at.Open? ==> at.at <= s'.tick <= at.at + 1)
    && (forall id: nat :: MineKept(s, s', u, id))
    && (at.Open? ==> forall id: nat :: SnapshotKept(s, s', at.at, id))
  }

  ghost predicate MineKept(s: State, s': State, u: nat, id: nat) {
    id in s.place && Mine(s.place[id], u) ==>
      && id in s'.place && s'.place[id] == s.place[id]
      && (id in s.link ==> id in s'.link && s'.link[id] == s.link[id])
  }

  ghost predicate SnapshotKept(s: State, s': State, at: nat, id: nat) {
    SnapshotOk(s, at, id) ==>
      && SnapshotOk(s', at, id)
      && (s'.place[id].Listed? ==> s.place[id].Listed?)
      && (s'.place[id].Listed? && id in s.link ==> id in s'.link && s'.link[id] == s.link[id])
  }

  /** A chain survives writes to anything but the links inside it. */
  lemma ChainFrame(s: State, s': State, t: nat, chain: seq<nat>)
    requires ChainOk(s, t, chain)
    requires forall id :: id in chain ==> id in s'.place && s'.place[id] == Pushing(t)
    requires forall id :: id in chain && id in s.link && id != chain[|chain| - 1] ==>
               id in s'.link && s'.link[id] == s.link[id]
    ensures ChainOk(s', t, chain)
  {
    ChainedFrame(s.link, s'.link, chain);
  }

  lemma ChainUndisturbed(s: State, s': State, u: nat, chain: seq<nat>)
    requires u < |s.thr| && Undisturbed(s, s', u) && ChainOk(s, u, chain)
    ensures ChainOk(s', u, chain)
    ensures chain[|chain| - 1] in s.link ==>
              chain[|chain| - 1] in s'.link && s'.link[chain[|chain| - 1]] == s.link[chain[|chain| - 1]]
  {
    forall id: nat | id in chain ensures id in s.place && Mine(s.place[id], u) && MineKept(s, s', u, id) {}
    assert chain[|chain| - 1] in chain;
    ChainFrame(s, s', u, chain);
  }

  lemma UndisturbedKeeps(s: State, s': State, u: nat)
    requires u < |s.thr| && ThreadOk(s, u) && Undisturbed(s, s', u)
    ensures ThreadOk(s', u)
  {
    match s.thr[u].pc
    case PopHead(h) => assert SnapshotKept(s, s', s.thr[u].sec.at, h);
    case PopLink(h, n) => assert SnapshotKept(s, s', s.thr[u].sec.at, h);
    case PopTaken(h) => assert MineKept(s, s', u, h);
    case PopCounted(h) => assert MineKept(s, s', u, h);
    case PushReady(chain, _) => ChainUndisturbed(s, s', u, chain);
    case PushHead(chain, _, _) => ChainUndisturbed(s, s', u, chain);
    case PushLinked(chain, _, _) => ChainUndisturbed(s, s', u, chain);
    case _ =>
  }

  /** What thread `u` relies on about one id survives a step of another thread. */
  ghost predicate Keeps(s: State, s': State, u: nat, id: nat)
    requires u < |s.thr|
  {
    MineKept(s, s', u, id) && (s.thr[u].sec.Open? ==> SnapshotKept(s, s', s.thr[u].sec.at, id))
  }

  lemma KeepsByPopCas(s: State, t: nat, u: nat, id: nat)
    requires Enabled(s, PopCas(t)) && StackOk(s) && u < |s.thr| && u != t && ThreadOk(s, u)
    ensures Keeps(s, Apply(s, PopCas(t)), u, id)
  {
    var s', h := Apply(s, PopCas(t)), s.thr[t].pc.h;
    if s.head == h {
      assert s.list[0] == h && s.place[h].Listed?;
      assert s'.place == s.place[h := Taken(t, s.tick)];
    }
  }

  lemma KeepsByPushCas(s: State, t: nat, u: nat, id: nat)
    requires Enabled(s, PushCas(t)) && ThreadOk(s, t) && u < |s.thr| && u != t
    ensures Keeps(s, Apply(s, PushCas(t)), u, id)
  {
    var s' := Apply(s, PushCas(t));
    var chain := s.thr[t].pc.chain;
    if id in chain {
      assert s.place[id] == Pushing(t);
    } else {
      assert id in s.place ==> id in s'.place && s'.place[id] == s.place[id];
    }
  }

  lemma KeepsByLinks(s: State, a: Action, u: nat, id: nat)
    requires Enabled(s, a) && u < |s.thr| && u != Actor(a) && (Actor(a) >= 0 ==> ThreadOk(s, a.t))
    requires a.Carve? || a.PushWriteLink? || a.Scribble?
    ensures Keeps(s, Apply(s, a), u, id)
  {
    if a.PushWriteLink? {
      var chain := s.thr[a.t].pc.chain;
      assert chain[|chain| - 1] in chain;
    }
  }

  lemma KeepsByTaking(s: State, a: Action, u: nat, id: nat)
    requires Enabled(s, a) && Takes(a) && Graced(s, a) && u < |s.thr| && u != a.t && ThreadOk(s, u)
    ensures Keeps(s, Apply(s, a), u, id)
  {
    var s', h := Apply(s, a), s.bufs[HeadBuf(s, a)][0].id;
    assert s'.place == s.place[h := s'.place[h]] && s'.link == s.link;
  }

  lemma KeepsByMoves(s: State, a: Action, u: nat, id: nat)
    requires Enabled(s, a) && (a.PopAddUsed? || a.Retire?) && ThreadOk(s, a.t)
    requires u < |s.thr| && u != a.t && ThreadOk(s, u)
    ensures Keeps(s, Apply(s, a), u, id)
  {
  }

  lemma KeepsByRest(s: State, a: Action, u: nat, id: nat)
    requires Enabled(s, a) && u < |s.thr|
    requires a.OpenSection? || a.CloseSection? || a.Tick? || a.ReadHead? || a.ReadLink? || a.PopSubFree?
          || a.PushReadHead? || a.PushAddFree? || a.PushSubUsed? || a.WalkBegin? || a.WalkEnd?
    ensures Keeps(s, Apply(s, a), u, id)
  {
    assert Apply(s, a).place == s.place && Apply(s, a).link == s.link;
  }

  lemma KeepsAt(s: State, a: Action, u: nat, id: nat)
    requires Enabled(s, a) && Inv(s) && u < |s.thr| && u != Actor(a) && Graced(s, a)
    ensures Keeps(s, Apply(s, a), u, id)
  {
    assert ThreadOk(s, u) && (Actor(a) >= 0 ==> ThreadOk(s, a.t));
    if a.PopCas? {
      KeepsByPopCas(s, a.t, u, id);
    } else if a.PushCas? {
      KeepsByPushCas(s, a.t, u, id);
    } else if a.Carve? || a.PushWriteLink? || a.Scribble? {
      KeepsByLinks(s, a, u, id);
    } else if Takes(a) {
      KeepsByTaking(s, a, u, id);
    } else if a.PopAddUsed? || a.Retire? {
      KeepsByMoves(s, a, u, id);
    } else {
      KeepsByRest(s, a, u, id);
    }
  }

  /** No step moves another thread's record, and the clock stays within its section. */
  lemma OthersStay(s: State, a: Action, u: nat)
    requires Enabled(s, a) && u < |s.thr| && u != Actor(a) && ThreadOk(s, u)
    ensures var s' := Apply(s, a);
      && |s'.thr| == |s.thr| && s'.thr[u] == s.thr[u]
      && (s.thr[u].sec.Open? ==> s.thr[u].sec.at <= s'.tick <= s.thr[u].sec.at + 1)
  {
  }

  lemma OthersUndisturbed(s: State, a: Action, u: nat)
    requires Enabled(s, a) && Inv(s) && u < |s.thr| && u != Actor(a) && Graced(s, a)
    ensures Undisturbed(s, Apply(s, a), u)
  {
    var s' := Apply(s, a);
    assert ThreadOk(s, u);
    OthersStay(s, a, u);
    forall id: nat ensures MineKept(s, s', u, id) && (s.thr[u].sec.Open? ==> SnapshotKept(s, s', s.thr[u].sec.at, id)) {
      KeepsAt(s, a, u, id);
    }
  }

  lemma ActorKeptByPop(s: State, a: Action)
    requires Enabled(s, a) && Inv(s)
    requires a.ReadHead? || a.ReadLink? || a.PopCas? || a.PopSubFree? || a.PopAddUsed?
    ensures ThreadOk(Apply(s, a), a.t)
  {
    assert ThreadOk(s, a.t);
    if a.PopCas? && s.head == s.thr[a.t].pc.h { StackKeptPop(s, a.t); }
  }

  lemma ActorKeptByPush(s: State, a: Action)
    requires Enabled(s, a) && Inv(s)
    requires a.PushReadHead? || a.PushWriteLink? || a.PushCas? || a.PushAddFree? || a.PushSubUsed?
    ensures ThreadOk(Apply(s, a), a.t)
  {
    assert ThreadOk(s, a.t);
    if s.thr[a.t].pc.PushReady? || s.thr[a.t].pc.PushHead? || s.thr[a.t].pc.PushLinked? {
      if Apply(s, a).place == s.place {
        ChainFrame(s, Apply(s, a), a.t, s.thr[a.t].pc.chain);
      }
    }
  }

  lemma ActorKeptByMove(s: State, a: Action)
    requires Enabled(s, a) && Inv(s)
    requires a.OpenSection? || a.CloseSection? || a.Retire? || Takes(a) || a.WalkBegin? || a.WalkEnd?
    ensures ThreadOk(Apply(s, a), a.t)
  {
    assert ThreadOk(s, a.t);
  }

  lemma ActorKeptByCarve(s: State, t: nat, base: nat, total: nat)
    requires Enabled(s, Carve(t, base, total)) && ThreadOk(s, t)
    ensures ThreadOk(Apply(s, Carve(t, base, total)), t)
  {
    CarvedFacts(base, total);
  }

  lemma ActorKept(s: State, a: Action)
    requires Enabled(s, a) && Inv(s) && Actor(a) >= 0
    ensures ThreadOk(Apply(s, a), Actor(a))
  {
    if a.ReadHead? || a.ReadLink? || a.PopCas? || a.PopSubFree? || a.PopAddUsed? {
      ActorKeptByPop(s, a);
    } else if a.PushReadHead? || a.PushWriteLink? || a.PushCas? || a.PushAddFree? || a.PushSubUsed? {
      ActorKeptByPush(s, a);
    } else if a.Carve? {
      assert ThreadOk(s, a.t);
      ActorKeptByCarve(s, a.t, a.base, a.total);
    } else {
      ActorKeptByMove(s, a);
    }
  }

  lemma ThreadsKept(s: State, a: Action)
    requires Enabled(s, a) && Inv(s) && Graced(s, a)
    ensures ThreadsOk(Apply(s, a))
  {
    var s' := Apply(s, a);
    forall u | 0 <= u < |s'.thr| ensures ThreadOk(s', u) {
      assert ThreadOk(s, u);
      if u == Actor(a) {
        ActorKept(s, a);
      } else {
        OthersUndisturbed(s, a, u);
        UndisturbedKeeps(s, s', u);
      }
    }
  }

  // ---------------------------------------------------------------- holders

  /** The ids a thread has in hand between taking them off (or out of a buffer, or out
      of a new block) and giving them away. */
  function Held(pc: Pc): set<nat> {
    match pc
    case PopTaken(h) => {h}
    case PopCounted(h) => {h}
    case PushReady(chain, _) => set i | i in chain
    case PushHead(chain, _, _) => set i | i in chain
    case PushLinked(chain, _, _) => set i | i in chain
    case _ => {}
  }

  /** An id marked as taken or being pushed is in the hands of the thread named. */
  ghost predicate HolderAt(s: State, id: nat) {
    id in s.place && (s.place[id].Taken? || s.place[id].Pushing?) ==>
      s.place[id].who < |s.thr| && id in Held(s.thr[s.place[id].who].pc)
  }

  ghost predicate HoldersOk(s: State) {
    forall id: nat :: HolderAt(s, id)
  }

  /** Whose hands an id is in changes by the acting thread only. */
  lemma HolderFrame(s: State, s': State, t: nat, id: nat)
    requires HolderAt(s, id) && t < |s.thr| && |s'.thr| == |s.thr|
    requires forall u :: 0 <= u < |s.thr| && u != t ==> s'.thr[u] == s.thr[u]
    requires id in s'.place && (s'.place[id].Taken? || s'.place[id].Pushing?) ==> id in s.place && s'.place[id] == s.place[id]
    requires id in Held(s.thr[t].pc) ==>
               id in Held(s'.thr[t].pc) || (id in s'.place && !s'.place[id].Taken? && !s'.place[id].Pushing?)
    ensures HolderAt(s', id)
  {
  }

  lemma HoldersKeptByPopCas(s: State, t: nat, id: nat)
    requires Enabled(s, PopCas(t)) && HolderAt(s, id)
    ensures HolderAt(Apply(s, PopCas(t)), id)
  {
    var s' := Apply(s, PopCas(t));
    if s.head != s.thr[t].pc.h || id != s.thr[t].pc.h { HolderFrame(s, s', t, id); }
  }

  lemma HoldersKeptByPushCas(s: State, t: nat, id: nat)
    requires Enabled(s, PushCas(t)) && HolderAt(s, id)
    ensures HolderAt(Apply(s, PushCas(t)), id)
  {
    var s' := Apply(s, PushCas(t));
    var chain := s.thr[t].pc.chain;
    if s.head == s.thr[t].pc.seen {
      if id in chain { assert s'.place[id] == Listed; } else { HolderFrame(s, s', t, id); }
    } else {
      assert Held(s'.thr[t].pc) == Held(s.thr[t].pc);
      HolderFrame(s, s', t, id);
    }
  }

  lemma HoldersKeptByTaking(s: State, a: Action, id: nat)
    requires Enabled(s, a) && HolderAt(s, id) && Takes(a)
    ensures HolderAt(Apply(s, a), id)
  {
    var s' := Apply(s, a);
    var h := s.bufs[HeadBuf(s, a)][0].id;
    assert Held(s.thr[a.t].pc) == {};
    if id == h {
      if !a.Reuse? { assert h in [h] && s'.thr[a.t].pc == PushReady([h], false); }
    } else {
      HolderFrame(s, s', a.t, id);
    }
  }

  lemma HoldersKeptByCarve(s: State, t: nat, base: nat, total: nat, id: nat)
    requires Enabled(s, Carve(t, base, total)) && HolderAt(s, id)
    ensures HolderAt(Apply(s, Carve(t, base, total)), id)
  {
    var s' := Apply(s, Carve(t, base, total));
    if id !in Carved(base, total) { HolderFrame(s, s', t, id); }
  }

  lemma HoldersKeptByMoves(s: State, a: Action, id: nat)
    requires Enabled(s, a) && HolderAt(s, id) && (a.Retire? || a.PopAddUsed?) && ThreadOk(s, a.t)
    ensures HolderAt(Apply(s, a), id)
  {
    HolderFrame(s, Apply(s, a), a.t, id);
  }

  /** Every other step of a thread leaves every id where it is. */
  lemma HoldersKeptByRest(s: State, a: Action, id: nat)
    requires Enabled(s, a) && HolderAt(s, id) && Actor(a) >= 0
    requires !a.PopCas? && !a.PushCas? && !Takes(a) && !a.Carve? && !a.Retire? && !a.PopAddUsed?
    ensures HolderAt(Apply(s, a), id)
  {
    var s' := Apply(s, a);
    assert s'.place == s.place;
    assert Held(s'.thr[a.t].pc) == Held(s.thr[a.t].pc);
    HolderFrame(s, s', a.t, id);
  }

  lemma HoldersKept(s: State, a: Action)
    requires Enabled(s, a) && Inv(s) && HoldersOk(s)
    ensures HoldersOk(Apply(s, a))
  {
    forall id: nat ensures HolderAt(Apply(s, a), id) {
      assert HolderAt(s, id);
      if a.PopCas? {
        HoldersKeptByPopCas(s, a.t, id);
      } else if a.PushCas? {
        HoldersKeptByPushCas(s, a.t, id);
      } else if Takes(a) {
        HoldersKeptByTaking(s, a, id);
      } else if a.Carve? {
        HoldersKeptByCarve(s, a.t, a.base, a.total, id);
      } else if a.Retire? || a.PopAddUsed? {
        assert ThreadOk(s, a.t);
        HoldersKeptByMoves(s, a, id);
      } else if Actor(a) >= 0 {
        HoldersKeptByRest(s, a, id);
      }
    }
  }

  // ---------------------------------------------------------------- counters

  /** What a thread still owes `free_cnt` (vec or db): its swap is done, its update not. */
  function FreeOwed(pc: Pc): int {
    match pc
    case PopTaken(_) => -1
    case PushSpliced(chain, _) => |chain|
    case _ => 0
  }

  /** What a thread still owes `used_cnt`. */
  function UsedOwed(pc: Pc): int {
    match pc
    case PopTaken(_) => 1
    case PopCounted(_) => 1
    case PushSpliced(_, carving) => if carving then 0 else -1
    case PushCounted(_) => -1
    case _ => 0
  }

  function FreeDebts(s: State): seq<int> {
    seq(|s.thr|, i requires 0 <= i < |s.thr| => FreeOwed(s.thr[i].pc))
  }

  function UsedDebts(s: State): seq<int> {
    seq(|s.thr|, i requires 0 <= i < |s.thr| => UsedOwed(s.thr[i].pc))
  }

  /** The 32-bit counters are right up to what the threads still owe.  `free_cnt` may
      pass through -1, that is 0xffffffff, so the equation holds modulo 2^32 only. */
  ghost predicate CountersOk(s: State) {
    && s.freeCnt == (|s.list| - Sum(FreeDebts(s))) % TWO32
    && s.usedCnt == (s.carved - |s.list| - Sum(UsedDebts(s))) % TWO32
  }

  lemma DebtsUpdate(s: State, s': State, t: nat)
    requires t < |s.thr| && |s'.thr| == |s.thr|
    requires forall u :: 0 <= u < |s.thr| && u != t ==> s'.thr[u].pc == s.thr[u].pc
    ensures Sum(FreeDebts(s')) == Sum(FreeDebts(s)) - FreeOwed(s.thr[t].pc) + FreeOwed(s'.thr[t].pc)
    ensures Sum(UsedDebts(s')) == Sum(UsedDebts(s)) - UsedOwed(s.thr[t].pc) + UsedOwed(s'.thr[t].pc)
  {
    SumUpdate(FreeDebts(s), t, FreeOwed(s'.thr[t].pc));
    SumUpdate(UsedDebts(s), t, UsedOwed(s'.thr[t].pc));
    assert FreeDebts(s') == FreeDebts(s)[t := FreeOwed(s'.thr[t].pc)];
    assert UsedDebts(s') == UsedDebts(s)[t := UsedOwed(s'.thr[t].pc)];
  }

  /** The bookkeeping of one step: each counter moves by what the stack's growth and the
      thread's debts leave over. */
  lemma CountersFrom(s: State, s': State, t: nat, dFree: int, dUsed: int)
    requires CountersOk(s) && t < |s.thr| && |s'.thr| == |s.thr|
    requires forall u :: 0 <= u < |s.thr| && u != t ==> s'.thr[u].pc == s.thr[u].pc
    requires s'.freeCnt == Add32(s.freeCnt, dFree) && s'.usedCnt == Add32(s.usedCnt, dUsed)
    requires dFree == |s'.list| - |s.list| + FreeOwed(s.thr[t].pc) - FreeOwed(s'.thr[t].pc)
    requires dUsed == s'.carved - s.carved - |s'.list| + |s.list|
                      + UsedOwed(s.thr[t].pc) - UsedOwed(s'.thr[t].pc)
    ensures CountersOk(s')
  {
    DebtsUpdate(s, s', t);
  }

  lemma CountersKeptByCas(s: State, a: Action)
    requires Enabled(s, a) && CountersOk(s) && (a.PopCas? || a.PushCas?)
    requires StackOk(s) && ThreadOk(s, a.t)
    ensures CountersOk(Apply(s, a))
  {
    if a.PopCas? && s.head == s.thr[a.t].pc.h { StackKeptPop(s, a.t); }
    CountersFrom(s, Apply(s, a), a.t, 0, 0);
  }

  /** Steps that update no counter and no thread's debts. */
  lemma CountersKeptByQuiet(s: State, a: Action)
    requires Enabled(s, a) && CountersOk(s) && Actor(a) >= 0
    requires !a.PopCas? && !a.PushCas? && !a.PopSubFree? && !a.PopAddUsed? && !a.PushAddFree? && !a.PushSubUsed?
    ensures CountersOk(Apply(s, a))
  {
    var s' := Apply(s, a);
    assert s'.list == s.list && s'.carved == s.carved && s'.freeCnt == s.freeCnt && s'.usedCnt == s.usedCnt;
    assert FreeOwed(s'.thr[a.t].pc) == FreeOwed(s.thr[a.t].pc) && UsedOwed(s'.thr[a.t].pc) == UsedOwed(s.thr[a.t].pc);
    CountersFrom(s, s', a.t, 0, 0);
  }

  lemma CountersKeptByUpdate(s: State, a: Action)
    requires Enabled(s, a) && CountersOk(s) && (a.PopSubFree? || a.PopAddUsed? || a.PushAddFree? || a.PushSubUsed?)
    requires ThreadOk(s, a.t)
    ensures CountersOk(Apply(s, a))
  {
    var s' := Apply(s, a);
    var dFree := if a.PopSubFree? then -1 else if a.PushAddFree? then |s.thr[a.t].pc.chain| else 0;
    var dUsed := if a.PopAddUsed? then 1 else if a.PushSubUsed? then -1 else 0;
    CountersFrom(s, s', a.t, dFree, dUsed);
  }

  lemma CountersKept(s: State, a: Action)
    requires Enabled(s, a) && StackOk(s) && ThreadsOk(s) && CountersOk(s)
    ensures CountersOk(Apply(s, a))
  {
    if Actor(a) < 0 {
      var s' := Apply(s, a);
      assert FreeDebts(s') == FreeDebts(s) && UsedDebts(s') == UsedDebts(s);
    } else if a.PopCas? || a.PushCas? {
      assert ThreadOk(s, a.t);
      CountersKeptByCas(s, a);
    } else if a.PopSubFree? || a.PopAddUsed? || a.PushAddFree? || a.PushSubUsed? {
      assert ThreadOk(s, a.t);
      CountersKeptByUpdate(s, a);
    } else {
      CountersKeptByQuiet(s, a);
    }
  }

  // ---------------------------------------------------------------- queues, step by step

  /** Only ids of no queue move, and the clock does not go back. */
  ghost predicate SameParked(s: State, s': State) {
    forall id: nat :: ParkedAlike(s, s', id)
  }

  ghost predicate ParkedAlike(s: State, s': State, id: nat) {
    (id in s.place && s.place[id].Parked?) || (id in s'.place && s'.place[id].Parked?) ==>
      id in s.place && id in s'.place && s'.place[id] == s.place[id]
  }

  /** A queue nothing was taken from or added to. */
  lemma QueueFrame(s: State, s': State, b: nat)
    requires QueueAt(s, b) && |s'.bufs| == |s.bufs| && (b < |s.bufs| ==> s'.bufs[b] == s.bufs[b]) && s.tick <= s'.tick
    requires forall id: nat :: id in s.place && s.place[id].Parked? && s.place[id].buf == b ==>
               id in s'.place && s'.place[id] == s.place[id]
    ensures QueueAt(s', b)
  {
    if b < |s.bufs| {
      InOrderLater(s.tick, s'.tick, s.bufs[b]);
      forall i: nat ensures WaitsAt(s'.place, b, s'.bufs[b], i) { assert WaitsAt(s.place, b, s.bufs[b], i); }
    }
  }

  /** A walk whose queue nothing was taken from or added to. */
  lemma WalkFrame(s: State, s': State, t: nat)
    requires WalkAt(s, t) && |s'.thr| == |s.thr| && |s'.bufs| == |s.bufs| && s.tick <= s'.tick
    requires t < |s.thr| ==> s'.thr[t].walk == s.thr[t].walk
    requires forall b: nat :: Owns(s, t, b) ==> s'.bufs[b] == s.bufs[b]
    ensures WalkAt(s', t)
  {
    if t < |s.thr| && s.thr[t].walk.Walking? {
      var b := s.thr[t].walk.buf;
      FreesAgedLater(s.tick, s'.tick, s.bufs[b], s.thr[t].walk.tick);
    }
  }

  lemma QueuesFrame(s: State, s': State)
    requires QueuesOk(s) && SameParked(s, s') && s'.bufs == s.bufs && s.tick <= s'.tick && |s'.thr| == |s.thr|
    requires forall t :: 0 <= t < |s.thr| ==> s'.thr[t].walk == s.thr[t].walk
    ensures QueuesOk(s')
  {
    forall b: nat ensures QueueAt(s', b) {
      assert QueueAt(s, b);
      forall id: nat | id in s.place && s.place[id].Parked? ensures id in s'.place && s'.place[id] == s.place[id] {
        assert ParkedAlike(s, s', id);
      }
      QueueFrame(s, s', b);
    }
    forall t: nat ensures WalkAt(s', t) {
      assert WalkAt(s, t);
      WalkFrame(s, s', t);
    }
    forall id: nat ensures QueuedAt(s', id) { assert QueuedAt(s, id) && ParkedAlike(s, s', id); }
  }

  /** Steps of pops and pushes, sections and the clock move no parked id. */
  lemma ParkedStays(s: State, a: Action, id: nat)
    requires Enabled(s, a) && StackOk(s) && (Actor(a) >= 0 ==> ThreadOk(s, a.t))
    requires !Takes(a) && !a.Retire?
    ensures ParkedAlike(s, Apply(s, a), id)
  {
    if a.PopCas? {
      if s.head == s.thr[a.t].pc.h { assert s.list[0] == s.head; }
    } else if a.PushCas? {
      var chain := s.thr[a.t].pc.chain;
      assert id in chain ==> s.place[id] == Pushing(a.t);
    }
  }

  lemma ClockAndQueuesStay(s: State, a: Action)
    requires Enabled(s, a) && !Takes(a) && !a.Retire? && !a.WalkBegin? && !a.WalkEnd?
    ensures var s' := Apply(s, a);
      && s'.bufs == s.bufs && s.tick <= s'.tick && |s'.thr| == |s.thr|
      && forall t :: 0 <= t < |s.thr| ==> s'.thr[t].walk == s.thr[t].walk
  {
  }

  lemma QueuesKeptByStack(s: State, a: Action)
    requires Enabled(s, a) && Inv(s) && QueuesOk(s)
    requires !Takes(a) && !a.Retire? && !a.WalkBegin? && !a.WalkEnd?
    ensures QueuesOk(Apply(s, a))
  {
    var s' := Apply(s, a);
    assert Actor(a) >= 0 ==> ThreadOk(s, a.t);
    forall id: nat ensures ParkedAlike(s, s', id) { ParkedStays(s, a, id); }
    ClockAndQueuesStay(s, a);
    QueuesFrame(s, s');
  }

  /** One queue of thread `t` changed, and only ids of that queue moved. */
  ghost predicate OnlyQueue(s: State, s': State, t: nat, b: nat) {
    && Owns(s, t, b) && |s'.bufs| == |s.bufs| && |s'.thr| == |s.thr| && s'.tick == s.tick
    && (forall c: nat :: c < |s.bufs| && c != b ==> s'.bufs[c] == s.bufs[c])
    && (forall u :: 0 <= u < |s.thr| && u != t ==> s'.thr[u].walk == s.thr[u].walk)
    && (forall id: nat :: MovedWithin(s, s', b, id))
  }

  ghost predicate MovedWithin(s: State, s': State, b: nat, id: nat) {
    || ParkedAlike(s, s', id)
    || (&& (id in s.place && s.place[id].Parked? ==> s.place[id].buf == b)
        && (id in s'.place && s'.place[id].Parked? ==> s'.place[id].buf == b))
  }

  lemma OneQueueKept(s: State, s': State, t: nat, b: nat)
    requires QueuesOk(s) && OnlyQueue(s, s', t, b)
    requires QueueAt(s', b) && WalkAt(s', t)
    requires forall id: nat :: id in s'.place && s'.place[id].Parked? && s'.place[id].buf == b ==> QueuedAt(s', id)
    ensures QueuesOk(s')
  {
    forall c: nat ensures QueueAt(s', c) {
      if c != b {
        assert QueueAt(s, c);
        forall id: nat | id in s.place && s.place[id].Parked? && s.place[id].buf == c
          ensures id in s'.place && s'.place[id] == s.place[id]
        {
          assert MovedWithin(s, s', b, id);
        }
        QueueFrame(s, s', c);
      }
    }
    forall u: nat ensures WalkAt(s', u) {
      if u != t { assert WalkAt(s, u); WalkFrame(s, s', u); }
    }
    forall id: nat ensures QueuedAt(s', id) {
      assert MovedWithin(s, s', b, id) && QueuedAt(s, id);
    }
  }

  /** The ids behind the head stay where they are when the head's moves. */
  lemma OthersWait(place: map<nat, Place>, now: nat, b: nat, buf: seq<Entry>, rest: seq<Entry>, p: Place)
    requires AllWait(place, b, buf) && InOrder(now, buf) && buf != []
    requires |rest| == |buf| - 1
    requires forall i: nat :: i < |rest| ==> rest[i].id == buf[i + 1].id && rest[i].stamp == buf[i + 1].stamp
    ensures AllWait(place[buf[0].id := p], b, rest)
  {
    var place' := place[buf[0].id := p];
    forall i: nat ensures WaitsAt(place', b, rest, i) {
      if i < |rest| { assert WaitsAt(place, b, buf, i + 1) && OrderAt(buf, 0, i + 1); }
    }
  }

  lemma TakenQueued(s: State, s': State, b: nat, id: nat)
    requires QueuedAt(s, id) && b < |s.bufs| && |s'.bufs| == |s.bufs| && s.bufs[b] != []
    requires |s'.bufs[b]| == |s.bufs[b]| - 1
    requires forall i: nat :: i < |s'.bufs[b]| ==> s'.bufs[b][i].id == s.bufs[b][i + 1].id
    requires id in s'.place && s'.place[id].Parked? && s'.place[id].buf == b ==>
               id != s.bufs[b][0].id && id in s.place && s.place[id] == s'.place[id]
    requires id in s'.place && s'.place[id].Parked? && s'.place[id].buf == b
    ensures QueuedAt(s', id)
  {
    var i: nat :| IsEntry(s.bufs[b], i, id);
    assert IsEntry(s'.bufs[b], i - 1, id);
  }

  lemma QueuesKeptByTaking(s: State, a: Action)
    requires Enabled(s, a) && QueuesOk(s) && Takes(a)
    ensures QueuesOk(Apply(s, a))
  {
    var s' := Apply(s, a);
    var b := HeadBuf(s, a);
    var buf, rest := s.bufs[b], s'.bufs[b];
    HeadGraced(s, a);
    assert QueueAt(s, b) && WaitsAt(s.place, b, buf, 0);
    assert WalkAt(s, a.t);
    if a.WalkFree? {
      FreesAgedNext(s.tick, buf, s.thr[a.t].walk.tick);
      InOrderTail(s.tick, buf);
    } else {
      InOrderAfterHead(s.tick, buf);
    }
    OthersWait(s.place, s.tick, b, buf, rest, s'.place[buf[0].id]);
    assert s'.place == s.place[buf[0].id := s'.place[buf[0].id]];
    forall id: nat ensures MovedWithin(s, s', b, id) {}
    forall id: nat | id in s'.place && s'.place[id].Parked? && s'.place[id].buf == b ensures QueuedAt(s', id) {
      assert QueuedAt(s, id);
      TakenQueued(s, s', b, id);
    }
    OneQueueKept(s, s', a.t, b);
  }

  lemma QueuesKeptByRetire(s: State, t: nat, b: nat, ids: seq<nat>)
    requires Enabled(s, Retire(t, b, ids)) && QueuesOk(s)
    ensures QueuesOk(Apply(s, Retire(t, b, ids)))
  {
    var s' := Apply(s, Retire(t, b, ids));
    var buf, buf' := s.bufs[b], s'.bufs[b];
    assert QueueAt(s, b);
    forall i: nat | i < |buf| ensures buf[i].id !in ids { assert WaitsAt(s.place, b, buf, i); }
    InOrderAppend(s.tick, buf, ids);
    forall i: nat ensures WaitsAt(s'.place, b, buf', i) {
      if i < |buf| { assert WaitsAt(s.place, b, buf, i); } else if i < |buf'| { assert buf'[i].id == ids[i - |buf|]; }
    }
    forall id: nat ensures MovedWithin(s, s', b, id) {}
    forall id: nat | id in s'.place && s'.place[id].Parked? && s'.place[id].buf == b ensures QueuedAt(s', id) {
      if id in ids {
        var k :| 0 <= k < |ids| && ids[k] == id;
        assert IsEntry(buf', |buf| + k, id);
      } else {
        assert QueuedAt(s, id);
        var i: nat :| IsEntry(buf, i, id);
        assert IsEntry(buf', i, id);
      }
    }
    OneQueueKept(s, s', t, b);
  }

  /** A walk begun without slipping frees aged ids only, from its first turn to its last. */
  lemma QueuesKeptByWalk(s: State, a: Action)
    requires Enabled(s, a) && QueuesOk(s) && (a.WalkBegin? || a.WalkEnd?)
    requires a.WalkBegin? ==> !Slips(s.tick, s.bufs[a.b])
    ensures QueuesOk(Apply(s, a))
  {
    var s' := Apply(s, a);
    if a.WalkBegin? {
      assert QueueAt(s, a.b);
      CalmExactly(s.tick, s.bufs[a.b]);
    }
    forall b: nat ensures QueueAt(s', b) { assert QueueAt(s, b); }
    forall t: nat ensures WalkAt(s', t) { assert WalkAt(s, t); }
    forall id: nat ensures QueuedAt(s', id) { assert QueuedAt(s, id); }
  }

  ghost predicate StartsWalk(s: State, s': State, t: nat) {
    t < |s.thr| && t < |s'.thr| && s.thr[t].walk.NoWalk? && s'.thr[t].walk.Walking?
  }

  /** The step starts no walk that slips. */
  ghost predicate CalmStep(s: State, s': State) {
    forall t: nat :: StartsWalk(s, s', t) ==>
      var b := s'.thr[t].walk.buf; b < |s.bufs| && !Slips(s.tick, s.bufs[b])
  }

  lemma QueuesKept(s: State, a: Action)
    requires Enabled(s, a) && Inv(s) && QueuesOk(s) && CalmStep(s, Apply(s, a))
    ensures QueuesOk(Apply(s, a))
  {
    if Takes(a) {
      QueuesKeptByTaking(s, a);
    } else if a.Retire? {
      QueuesKeptByRetire(s, a.t, a.b, a.ids);
    } else if a.WalkBegin? || a.WalkEnd? {
      if a.WalkBegin? { assert StartsWalk(s, Apply(s, a), a.t); }
      QueuesKeptByWalk(s, a);
    } else {
      QueuesKeptByStack(s, a);
    }
  }

  // ---------------------------------------------------------------- the whole invariant

  ghost predicate Safe(s: State) {
    Inv(s) && QueuesOk(s) && HoldersOk(s) && CountersOk(s)
  }

  lemma InitSafe(n: nat)
    ensures Safe(Init(n))
  {
    SumZero(FreeDebts(Init(n)));
    SumZero(UsedDebts(Init(n)));
  }

  lemma SafeKept(s: State, a: Action)
    requires Enabled(s, a) && Safe(s) && CalmStep(s, Apply(s, a))
    ensures Safe(Apply(s, a))
  {
    HeadGraced(s, a);
    assert Actor(a) >= 0 ==> ThreadOk(s, a.t);
    TimesKept(s, a);
    StackKept(s, a);
    ThreadsKept(s, a);
    QueuesKept(s, a);
    HoldersKept(s, a);
    CountersKept(s, a);
  }

  // ---------------------------------------------------------------- runs

  ghost predicate Next(s: State, s': State) {
    exists a :: Enabled(s, a) && s' == Apply(s, a)
  }

  ghost predicate NextAt(run: seq<State>, i: nat) {
    i + 1 < |run| ==> Next(run[i], run[i + 1])
  }

  /** Any interleaving of any number of threads, from the empty pool. */
  ghost predicate IsRun(n: nat, run: seq<State>) {
    && run != [] && run[0] == Init(n)
    && forall i: nat :: NextAt(run, i)
  }

  /** No walk of the run slips. */
  ghost predicate CalmRun(run: seq<State>) {
    forall i: nat :: CalmAt(run, i)
  }

  ghost predicate CalmAt(run: seq<State>, i: nat) {
    i + 1 < |run| ==> CalmStep(run[i], run[i + 1])
  }

  lemma {:induction false} RunInv(n: nat, run: seq<State>, k: nat)
    requires IsRun(n, run) && CalmRun(run) && k < |run|
    ensures Safe(run[k])
  {
    if k == 0 {
      InitSafe(n);
    } else {
      RunInv(n, run, k - 1);
      assert NextAt(run, k - 1) && CalmAt(run, k - 1);
      var a :| Enabled(run[k - 1], a) && run[k] == Apply(run[k - 1], a);
      SafeKept(run[k - 1], a);
    }
  }

  lemma HandsDisjoint(s: State)
    requires Inv(s)
    ensures forall t: nat, u: nat, id :: t < u < |s.thr| && id in Held(s.thr[t].pc) ==> id !in Held(s.thr[u].pc)
    ensures forall t: nat, id :: t < |s.thr| && id in Held(s.thr[t].pc) ==>
              id !in s.list && id in s.place && !s.place[id].Live? && !s.place[id].Parked?
  {
    forall t: nat, id | t < |s.thr| && id in Held(s.thr[t].pc)
      ensures id in s.place && Mine(s.place[id], t)
    {
      assert ThreadOk(s, t);
    }
    forall t: nat, u: nat, id | t < u < |s.thr| && id in Held(s.thr[t].pc)
      ensures id !in Held(s.thr[u].pc)
    {
      assert id in s.place && Mine(s.place[id], t);
    }
  }

  /** No id is ever in two hands, and no id in hand is on the stack or in a queue; a
      parked id is in its own queue and no other, once.  Conversely an id that is neither
      listed, live nor parked is in exactly one hand, so none is lost. */
  lemma OneOwner(n: nat, run: seq<State>, k: nat, id: nat)
    requires IsRun(n, run) && CalmRun(run) && k < |run|
    ensures var s := run[k];
      && (forall t, u :: 0 <= t < u < |s.thr| ==> id !in Held(s.thr[t].pc) || id !in Held(s.thr[u].pc))
      && (forall t :: 0 <= t < |s.thr| && id in Held(s.thr[t].pc) ==>
            id !in s.list && id in s.place && !s.place[id].Live? && !s.place[id].Parked?)
      && (id in s.place && id !in s.list && !s.place[id].Live? && !s.place[id].Parked? ==>
            exists t :: 0 <= t < |s.thr| && id in Held(s.thr[t].pc))
      && (id in s.place && s.place[id].Parked? ==>
            s.place[id].buf < |s.bufs| && exists i: nat :: IsEntry(s.bufs[s.place[id].buf], i, id))
      && (forall b: nat, i: nat :: b < |s.bufs| && IsEntry(s.bufs[b], i, id) ==>
            id in s.place && s.place[id] == Parked(b, s.bufs[b][i].stamp))
      && (forall b: nat, i: nat, j: nat :: b < |s.bufs| && IsEntry(s.bufs[b], i, id) && IsEntry(s.bufs[b], j, id) ==> i == j)
  {
    RunInv(n, run, k);
    var s := run[k];
    HandsDisjoint(s);
    assert HolderAt(s, id) && QueuedAt(s, id);
    forall b: nat, i: nat | b < |s.bufs| && IsEntry(s.bufs[b], i, id)
      ensures id in s.place && s.place[id] == Parked(b, s.bufs[b][i].stamp)
    {
      assert QueueAt(s, b) && WaitsAt(s.place, b, s.bufs[b], i);
    }
    forall b: nat, i: nat, j: nat | b < |s.bufs| && IsEntry(s.bufs[b], i, id) && IsEntry(s.bufs[b], j, id)
      ensures i == j
    {
      assert QueueAt(s, b) && OrderAt(s.bufs[b], i, j) && OrderAt(s.bufs[b], j, i);
    }
  }

  /** A compare-and-swap that finds its snapshot's head on top installs the true second
      id: the swap pops exactly the top, whatever happened since the snapshot. */
  lemma PopIsAbaFree(n: nat, run: seq<State>, k: nat, t: nat)
    requires IsRun(n, run) && CalmRun(run) && k < |run|
    requires Enabled(run[k], PopCas(t)) && run[k].head == run[k].thr[t].pc.h
    ensures var s, s' := run[k], Apply(run[k], PopCas(t));
      && s.list != [] && s.list[0] == s.head
      && s'.list == s.list[1..] && s'.head == First(s.list[1..])
  {
    RunInv(n, run, k);
    assert ThreadOk(run[k], t);
    StackKeptPop(run[k], t);
  }

  /** The popper's own steps. */
  lemma SnapshotOwnStep(s: State, a: Action, id: nat)
    requires Enabled(s, a) && Actor(a) >= 0 && ThreadOk(s, a.t) && StackOk(s) && Graced(s, a) && s.thr[a.t].sec.Open?
    requires SnapshotOk(s, s.thr[a.t].sec.at, id) && Apply(s, a).thr[a.t].sec == s.thr[a.t].sec
    ensures SnapshotOk(Apply(s, a), s.thr[a.t].sec.at, id)
    ensures !s.place[id].Listed? ==> !Apply(s, a).place[id].Listed?
  {
    if a.PopCas? && s.head == s.thr[a.t].pc.h { assert s.list[0] == s.head; }
  }

  /** One step keeps an id that `t` may hold a snapshot of off the stack once it is off. */
  lemma SnapshotStep(s: State, a: Action, t: nat, id: nat)
    requires Enabled(s, a) && Inv(s) && QueuesOk(s) && t < |s.thr| && s.thr[t].sec.Open?
    requires SnapshotOk(s, s.thr[t].sec.at, id)
    requires Apply(s, a).thr[t].sec == s.thr[t].sec
    ensures SnapshotOk(Apply(s, a), s.thr[t].sec.at, id)
    ensures !s.place[id].Listed? ==> !Apply(s, a).place[id].Listed?
  {
    HeadGraced(s, a);
    if Actor(a) == t {
      SnapshotOwnStep(s, a, id);
    } else {
      KeepsAt(s, a, t, id);
    }
  }

  lemma SnapshotNext(s: State, s': State, t: nat, id: nat)
    requires Next(s, s') && Inv(s) && QueuesOk(s) && t < |s.thr| && s.thr[t].sec.Open?
    requires SnapshotOk(s, s.thr[t].sec.at, id)
    requires t < |s'.thr| && s'.thr[t].sec == s.thr[t].sec
    ensures SnapshotOk(s', s.thr[t].sec.at, id)
    ensures !s.place[id].Listed? ==> !s'.place[id].Listed?
  {
    var a :| Enabled(s, a) && s' == Apply(s, a);
    SnapshotStep(s, a, t, id);
  }

  ghost predicate StaysOpen(run: seq<State>, i: nat, j: nat, t: nat, at: nat) {
    && i <= j < |run|
    && forall k :: i <= k <= j ==> t < |run[k].thr| && run[k].thr[t].sec == Open(at)
  }

  /** While a thread's section stays open, an id that was on the stack at some moment of
      the section and has left since does not come back. */
  lemma {:induction false} GoneStaysGone(n: nat, run: seq<State>, i: nat, j: nat, t: nat, at: nat, id: nat)
    requires IsRun(n, run) && CalmRun(run) && StaysOpen(run, i, j, t, at) && SnapshotOk(run[i], at, id)
    ensures SnapshotOk(run[j], at, id)
    ensures !run[i].place[id].Listed? ==> !run[j].place[id].Listed?
  {
    if i < j {
      GoneStaysGone(n, run, i, j - 1, t, at, id);
      assert Safe(run[j - 1]) by { RunInv(n, run, j - 1); }
      assert NextAt(run, j - 1);
      SnapshotNext(run[j - 1], run[j], t, id);
    }
  }

  lemma AtomicStep(s: State, a: Action)
    requires Enabled(s, a) && Inv(s)
    ensures StackStep(s.list, Apply(s, a).list)
  {
    var s' := Apply(s, a);
    if a.PopCas? {
      assert ThreadOk(s, a.t); if s.head == s.thr[a.t].pc.h { StackKeptPop(s, a.t); }
    } else if a.PushCas? {
      var chain := s.thr[a.t].pc.chain;
      assert s'.list == s.list || s'.list == chain + s.list;
    } else {
      assert s'.list == s.list;
    }
  }

  /** Every step is a step of an atomic stack: it pops the top, prepends a whole chain,
      or leaves the contents alone. */
  lemma AtomicStack(n: nat, run: seq<State>, k: nat)
    requires IsRun(n, run) && CalmRun(run) && k + 1 < |run|
    ensures StackStep(run[k].list, run[k + 1].list)
  {
    assert Safe(run[k]) by { RunInv(n, run, k); }
    assert NextAt(run, k);
    var a :| Enabled(run[k], a) && run[k + 1] == Apply(run[k], a);
    AtomicStep(run[k], a);
  }

  lemma RestCounters(s: State)
    requires CountersOk(s) && |s.list| < TWO32 && forall t :: 0 <= t < |s.thr| ==> s.thr[t].pc.Idle?
    ensures s.freeCnt == |s.list| && (s.freeCnt + s.usedCnt) % TWO32 == s.carved % TWO32
  {
    SumZero(FreeDebts(s));
    SumZero(UsedDebts(s));
  }

  /** With no allocator call in flight, the counters are the truth: `free_cnt` is the
      stack's length and `free_cnt + used_cnt` everything ever carved. */
  lemma QuiescentCounters(n: nat, run: seq<State>, k: nat)
    requires IsRun(n, run) && CalmRun(run) && k < |run|
    requires forall t :: 0 <= t < |run[k].thr| ==> run[k].thr[t].pc.Idle?
    requires |run[k].list| < TWO32
    ensures run[k].freeCnt == |run[k].list|
    ensures (run[k].freeCnt + run[k].usedCnt) % TWO32 == run[k].carved % TWO32
  {
    RunInv(n, run, k);
    RestCounters(run[k]);
  }
}

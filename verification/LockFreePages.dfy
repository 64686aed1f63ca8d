/** Page reservation, the growing page table and the block stack, as an interleaving
    machine: one action is one shared-memory access of `cluster_add_page`, `blk_alloc`
    or `blk_id_2_ptr`.

    Blocks need no grace period: a block that leaves its stack never returns to it, so a
    stale snapshot's head can not reappear. */
module LockFreePages {
  import opened ThreadSums
  import opened LinkedStacks
  import opened Layout

  /** One pointer cell of the three-level table. */
  datatype Slot = Direct(i: nat) | IndRoot | Ind(i: nat) | DindRoot | Inner(i: nat) | Leaf(i: nat, j: nat)

  /** The cells a lookup of page `pg` reads, in order; an add fills the last one. */
  function Path(pg: nat): (path: seq<Slot>)
    ensures 1 <= |path| <= 3
  {
    if pg < NDIR then [Direct(pg)]
    else if pg < DIND_START then [IndRoot, Ind(pg - NDIR)]
    else [DindRoot, Inner((pg - DIND_START) / PTRS), Leaf((pg - DIND_START) / PTRS, (pg - DIND_START) % PTRS)]
  }

  /** The page whose adder fills the cell. */
  function Founder(slot: Slot): nat {
    match slot
    case Direct(i) => i
    case IndRoot => NDIR
    case Ind(i) => NDIR + i
    case DindRoot => DIND_START
    case Inner(i) => DIND_START + PTRS * i
    case Leaf(i, j) => DIND_START + PTRS * i + j
  }

  datatype PageState = HeldBy(t: nat) | Done | Burnt

  datatype BlockState = Listed | Building(t: nat) | Gone

  datatype Pc =
    | Idle
    | Undo
    | Reserved(pg: nat)
    | Install(pg: nat, stage: nat)
    | PushReady(pg: nat)
    | PushHead(pg: nat, seen: int)
    | PushLinked(pg: nat, seen: int)
    | PushSpliced
    | PopHead(h: nat)
    | PopLink(h: nat, n: int)
    | PopTaken(h: nat)

  datatype State = State(
    cursor: nat,
    pages: map<nat, PageState>,
    table: set<Slot>,
    head: int,
    link: map<nat, int>,
    list: seq<nat>,
    blocks: map<nat, BlockState>,
    freeCnt: nat,
    thr: seq<Pc>)

  datatype Action =
    | Reserve(t: nat)
    | UndoReserve(t: nat)
    | AllocPage(t: nat, granted: bool)
    | InstallNext(t: nat, granted: bool)
    | PushReadHead(t: nat)
    | PushWriteLink(t: nat)
    | PushCas(t: nat)
    | PushAddFree(t: nat)
    | ReadHead(t: nat)
    | ReadLink(t: nat)
    | PopCas(t: nat)
    | PopSubFree(t: nat)
    | Scribble(blk: nat, word: int)

  function Init(n: nat): State {
    State(0, map[], {}, NIL, map[], [], map[], 0, seq(n, _ => Idle))
  }

  /** The blocks of one page, in chain order. */
  function Chain(pg: nat): (chain: seq<nat>)
    ensures |chain| == BLK_PER_PG
  {
    Carved(pg * BLK_PER_PG, BLK_PER_PG)
  }

  function To(s: State, t: nat, pc: Pc): State
    requires t < |s.thr|
  {
    s.(thr := s.thr[t := pc])
  }

  predicate Enabled(s: State, a: Action) {
    match a
    case Reserve(t) => t < |s.thr| && s.thr[t].Idle?
    case UndoReserve(t) => t < |s.thr| && s.thr[t].Undo? && s.cursor > 0
    case AllocPage(t, _) => t < |s.thr| && s.thr[t].Reserved?
    case InstallNext(t, _) =>
      && t < |s.thr| && s.thr[t].Install? && s.thr[t].stage < |Path(s.thr[t].pg)|
      && var slot := Path(s.thr[t].pg)[s.thr[t].stage];
         // the adder of another page spins until the index page is there
         Founder(slot) == s.thr[t].pg || slot in s.table
    case PushReadHead(t) => t < |s.thr| && s.thr[t].PushReady?
    case PushWriteLink(t) => t < |s.thr| && s.thr[t].PushHead?
    case PushCas(t) => t < |s.thr| && s.thr[t].PushLinked?
    case PushAddFree(t) => t < |s.thr| && s.thr[t].PushSpliced?
    case ReadHead(t) => t < |s.thr| && s.thr[t].Idle? && s.head >= 0
    case ReadLink(t) => t < |s.thr| && s.thr[t].PopHead? && s.thr[t].h in s.link
    case PopCas(t) => t < |s.thr| && s.thr[t].PopLink?
    case PopSubFree(t) => t < |s.thr| && s.thr[t].PopTaken?
    case Scribble(b, _) => b in s.blocks && s.blocks[b].Gone?
  }

  function Apply(s: State, a: Action): State
    requires Enabled(s, a)
  {
    match a
    case Reserve(t) =>
      var s1 := s.(cursor := s.cursor + 1);
      if PG_NUM_MAX <= s.cursor + 1 then To(s1, t, Undo)
      else To(s1.(pages := s.pages[s.cursor := HeldBy(t)]), t, Reserved(s.cursor))
    case UndoReserve(t) => To(s.(cursor := s.cursor - 1), t, Idle)
    case AllocPage(t, granted) =>
      var pg := s.thr[t].pg;
      if granted then To(s, t, Install(pg, 0)) else To(s.(pages := s.pages[pg := Burnt]), t, Idle)
    case InstallNext(t, granted) => DoInstall(s, t, granted)
    case PushReadHead(t) => To(s, t, PushHead(s.thr[t].pg, s.head))
    case PushWriteLink(t) =>
      var pc := s.thr[t];
      To(s.(link := s.link[pc.pg * BLK_PER_PG + BLK_PER_PG - 1 := pc.seen]), t, PushLinked(pc.pg, pc.seen))
    case PushCas(t) => DoPushCas(s, t)
    case PushAddFree(t) => To(s.(freeCnt := Add32(s.freeCnt, BLK_PER_PG)), t, Idle)
    case ReadHead(t) => To(s, t, PopHead(s.head))
    case ReadLink(t) => To(s, t, PopLink(s.thr[t].h, s.link[s.thr[t].h]))
    case PopCas(t) => DoPopCas(s, t)
    case PopSubFree(t) => To(s.(freeCnt := Add32(s.freeCnt, -1)), t, Idle)
    case Scribble(b, word) => s.(link := s.link[b := word])
  }

  /** Fill the next cell on the page's path, or find it filled.  A refused index page
      abandons the slot; after the last cell the page's blocks are chained. */
  function DoInstall(s: State, t: nat, granted: bool): State
    requires Enabled(s, InstallNext(t, granted))
  {
    var pg, stage := s.thr[t].pg, s.thr[t].stage;
    var slot := Path(pg)[stage];
    if stage + 1 == |Path(pg)| then
      To(s.(table := s.table + {slot},
            link := s.link + map b | b in Chain(pg) :: b + 1,
            blocks := s.blocks + map b | b in Chain(pg) :: Building(t)), t, PushReady(pg))
    else if Founder(slot) != pg then
      To(s, t, Install(pg, stage + 1))
    else if granted then
      To(s.(table := s.table + {slot}), t, Install(pg, stage + 1))
    else
      To(s.(pages := s.pages[pg := Burnt]), t, Idle)
  }

  function DoPushCas(s: State, t: nat): State
    requires Enabled(s, PushCas(t))
  {
    var pc := s.thr[t];
    if s.head == pc.seen then
      To(s.(head := pc.pg * BLK_PER_PG,
            list := Chain(pc.pg) + s.list,
            blocks := s.blocks + map b | b in Chain(pc.pg) :: Listed,
            pages := s.pages[pc.pg := Done]), t, PushSpliced)
    else
      To(s, t, PushReady(pc.pg))
  }

  function DoPopCas(s: State, t: nat): State
    requires Enabled(s, PopCas(t))
  {
    var pc := s.thr[t];
    if s.head == pc.h then
      To(s.(head := pc.n,
            list := if s.list == [] then [] else s.list[1..],
            blocks := s.blocks[pc.h := Gone]), t, PopTaken(pc.h))
    else
      To(s, t, Idle)
  }

  // ---------------------------------------------------------------- reservation

  function UndoShare(pc: Pc): int {
    if pc.Undo? then 1 else 0
  }

  function Undoers(s: State): seq<int> {
    seq(|s.thr|, t requires 0 <= t < |s.thr| => UndoShare(s.thr[t]))
  }

  /** Page ids are handed out gaplessly from 0; the cursor overshoots by the reservations
      still to be undone, and there are some only once every id is out. */
  ghost predicate CursorOk(s: State) {
    && s.cursor == |s.pages| + Sum(Undoers(s))
    && |s.pages| <= PG_NUM_MAX - 1
    && (forall pg: nat :: pg in s.pages <==> pg < |s.pages|)
    && (Sum(Undoers(s)) > 0 ==> |s.pages| == PG_NUM_MAX - 1)
  }

  /** The page a thread is working on, or -1. */
  function Work(pc: Pc): int {
    if pc.Reserved? || pc.Install? || pc.PushReady? || pc.PushHead? || pc.PushLinked? then pc.pg else -1
  }

  ghost predicate PagesOk(s: State) {
    && (forall t: nat :: t < |s.thr| && Work(s.thr[t]) >= 0 ==>
          Work(s.thr[t]) in s.pages && s.pages[Work(s.thr[t])] == HeldBy(t))
    && (forall pg: nat :: pg in s.pages && s.pages[pg].HeldBy? ==>
          s.pages[pg].t < |s.thr| && Work(s.thr[s.pages[pg].t]) == pg)
  }

  /** Thread `t` has not yet come to filling the cell of its page at `stage`. */
  predicate Before(pc: Pc, stage: nat) {
    pc.Reserved? || (pc.Install? && pc.stage <= stage)
  }

  function StageOf(slot: Slot): nat {
    match slot
    case Direct(_) => 0
    case IndRoot => 0
    case DindRoot => 0
    case Ind(_) => 1
    case Inner(_) => 1
    case Leaf(_, _) => 2
  }

  /** A filled cell was filled by its founder's adder, which is past that point. */
  ghost predicate FilledOk(s: State) {
    forall slot :: slot in s.table ==>
      && Founder(slot) in s.pages
      && (forall t: nat :: t < |s.thr| && Work(s.thr[t]) == Founder(slot) ==> !Before(s.thr[t], StageOf(slot)))
  }

  /** An installing thread has found or filled every earlier cell of its path. */
  ghost predicate StagesOk(s: State) {
    forall t: nat :: t < |s.thr| && s.thr[t].Install? ==>
      s.thr[t].stage < |Path(s.thr[t].pg)| && FilledTo(s.table, s.thr[t].pg, s.thr[t].stage)
  }

  ghost predicate FilledTo(table: set<Slot>, pg: nat, stage: nat) {
    forall k: nat :: k < stage && k < |Path(pg)| ==> Path(pg)[k] in table
  }

  /** A lookup of page `pg` finds every cell it reads filled. */
  ghost predicate Published(s: State, pg: nat) {
    FilledTo(s.table, pg, 3)
  }

  lemma UndoersUpdate(s: State, s': State, t: nat)
    requires t < |s.thr| && |s'.thr| == |s.thr| && s'.thr == s.thr[t := s'.thr[t]]
    ensures Sum(Undoers(s')) == Sum(Undoers(s)) - UndoShare(s.thr[t]) + UndoShare(s'.thr[t])
    ensures UndoShare(s.thr[t]) <= Sum(Undoers(s)) && 0 <= Sum(Undoers(s))
  {
    SumUpdate(Undoers(s), t, UndoShare(s'.thr[t]));
    SumNonNegative(Undoers(s));
    assert Undoers(s)[t] == UndoShare(s.thr[t]);
    assert Undoers(s') == Undoers(s)[t := UndoShare(s'.thr[t])];
  }

  /** Only `t` moved. */
  ghost predicate Moved(s: State, s': State, t: nat) {
    t < |s.thr| && |s'.thr| == |s.thr| && s'.thr == s.thr[t := s'.thr[t]]
  }

  lemma PagesSame(s: State, s': State, t: nat)
    requires PagesOk(s) && Moved(s, s', t) && Work(s'.thr[t]) == Work(s.thr[t]) && s'.pages == s.pages
    ensures PagesOk(s')
  {
  }

  lemma PageGiven(s: State, s': State, t: nat, pg: nat)
    requires PagesOk(s) && Moved(s, s', t) && Work(s.thr[t]) == -1 && Work(s'.thr[t]) == pg
    requires pg !in s.pages && s'.pages == s.pages[pg := HeldBy(t)]
    ensures PagesOk(s')
  {
  }

  lemma PageFinished(s: State, s': State, t: nat, end: PageState)
    requires PagesOk(s) && Moved(s, s', t) && Work(s.thr[t]) >= 0 && Work(s'.thr[t]) == -1
    requires !end.HeldBy? && s'.pages == s.pages[Work(s.thr[t]) := end]
    ensures PagesOk(s') && s'.pages.Keys == s.pages.Keys && |s'.pages| == |s.pages|
  {
    assert Work(s.thr[t]) in s.pages;
    assert s'.pages.Keys == s.pages.Keys;
    assert |s'.pages| == |s'.pages.Keys|;
  }

  /** A reservation within the limit gets the next unused page id. */
  lemma ReserveGives(s: State, s': State, t: nat)
    requires CursorOk(s) && Moved(s, s', t) && s.cursor + 1 < PG_NUM_MAX
    requires UndoShare(s.thr[t]) == UndoShare(s'.thr[t]) == 0
    requires s'.cursor == s.cursor + 1 && s'.pages == s.pages[s.cursor := HeldBy(t)]
    ensures s.cursor !in s.pages && CursorOk(s')
  {
    UndoersUpdate(s, s', t);
    assert s.cursor == |s.pages|;
    assert |s'.pages| == |s.pages| + 1;
    forall pg: nat ensures pg in s'.pages <==> pg < |s'.pages| {
      assert pg in s.pages <==> pg < |s.pages|;
    }
  }

  /** A reservation beyond the limit happens only once every page id is given out. */
  lemma ReserveOverruns(s: State, s': State, t: nat)
    requires CursorOk(s) && Moved(s, s', t) && PG_NUM_MAX <= s.cursor + 1
    requires s.thr[t].Idle? && s'.thr[t].Undo? && s'.cursor == s.cursor + 1 && s'.pages == s.pages
    ensures |s.pages| == PG_NUM_MAX - 1 && CursorOk(s')
  {
    UndoersUpdate(s, s', t);
  }

  lemma ReserveKept(s: State, t: nat)
    requires Enabled(s, Reserve(t)) && CursorOk(s) && PagesOk(s)
    ensures PagesOk(Apply(s, Reserve(t))) && CursorOk(Apply(s, Reserve(t)))
  {
    var s' := Apply(s, Reserve(t));
    if s.cursor + 1 < PG_NUM_MAX {
      ReserveGives(s, s', t);
      PageGiven(s, s', t, s.cursor);
    } else {
      ReserveOverruns(s, s', t);
      PagesSame(s, s', t);
    }
  }

  /** The cursor's equation carries over when the page ids given out stay the same. */
  lemma CursorSame(s: State, s': State, t: nat)
    requires CursorOk(s) && Moved(s, s', t)
    requires s'.pages.Keys == s.pages.Keys && |s'.pages| == |s.pages|
    requires s'.cursor == s.cursor - UndoShare(s.thr[t]) + UndoShare(s'.thr[t])
    requires UndoShare(s'.thr[t]) == 0
    ensures CursorOk(s')
  {
    UndoersUpdate(s, s', t);
    assert forall pg: nat :: pg in s'.pages <==> pg in s'.pages.Keys;
  }

  /** A step after which the thread is still on the same page, or on none as before. */
  lemma BooksSame(s: State, s': State, t: nat)
    requires CursorOk(s) && PagesOk(s) && Moved(s, s', t) && s'.pages == s.pages
    requires Work(s'.thr[t]) == Work(s.thr[t]) && !s'.thr[t].Undo?
    requires s'.cursor == s.cursor - UndoShare(s.thr[t])
    ensures PagesOk(s') && CursorOk(s')
  {
    PagesSame(s, s', t);
    CursorSame(s, s', t);
  }

  /** A step that ends the thread's work on its page. */
  lemma BooksFinished(s: State, s': State, t: nat, end: PageState)
    requires CursorOk(s) && PagesOk(s) && Moved(s, s', t) && Work(s.thr[t]) >= 0 && !end.HeldBy?
    requires Work(s'.thr[t]) == -1 && !s'.thr[t].Undo? && s'.cursor == s.cursor
    requires s'.pages == s.pages[Work(s.thr[t]) := end]
    ensures PagesOk(s') && CursorOk(s')
  {
    PageFinished(s, s', t, end);
    CursorSame(s, s', t);
  }

  lemma BooksByAlloc(s: State, t: nat, granted: bool)
    requires Enabled(s, AllocPage(t, granted)) && CursorOk(s) && PagesOk(s)
    ensures PagesOk(Apply(s, AllocPage(t, granted))) && CursorOk(Apply(s, AllocPage(t, granted)))
  {
    var s' := Apply(s, AllocPage(t, granted));
    if granted { BooksSame(s, s', t); } else { BooksFinished(s, s', t, Burnt); }
  }

  lemma BooksByInstall(s: State, t: nat, granted: bool)
    requires Enabled(s, InstallNext(t, granted)) && CursorOk(s) && PagesOk(s)
    ensures PagesOk(DoInstall(s, t, granted)) && CursorOk(DoInstall(s, t, granted))
  {
    var s' := DoInstall(s, t, granted);
    if s'.thr[t].Idle? { BooksFinished(s, s', t, Burnt); } else { BooksSame(s, s', t); }
  }

  lemma BooksByPushCas(s: State, t: nat)
    requires Enabled(s, PushCas(t)) && CursorOk(s) && PagesOk(s)
    ensures PagesOk(DoPushCas(s, t)) && CursorOk(DoPushCas(s, t))
  {
    var s' := DoPushCas(s, t);
    if s'.thr[t].PushSpliced? { BooksFinished(s, s', t, Done); } else { BooksSame(s, s', t); }
  }

  lemma BooksByRest(s: State, a: Action)
    requires Enabled(s, a) && CursorOk(s) && PagesOk(s)
    requires !a.Scribble? && !a.Reserve? && !a.AllocPage? && !a.InstallNext? && !a.PushCas?
    ensures PagesOk(Apply(s, a)) && CursorOk(Apply(s, a))
  {
    var s' := Apply(s, a);
    assert s'.pages == s.pages && Moved(s, s', a.t) && Work(s'.thr[a.t]) == Work(s.thr[a.t]);
    BooksSame(s, s', a.t);
  }

  /** The page books of one step: who holds which page, and how far the cursor is. */
  lemma PagesKept(s: State, a: Action)
    requires Enabled(s, a) && CursorOk(s) && PagesOk(s)
    ensures PagesOk(Apply(s, a)) && CursorOk(Apply(s, a))
  {
    match a
    case Scribble(_, _) => assert Undoers(Apply(s, a)) == Undoers(s);
    case Reserve(t) => ReserveKept(s, t);
    case AllocPage(t, granted) => BooksByAlloc(s, t, granted);
    case InstallNext(t, granted) => BooksByInstall(s, t, granted);
    case PushCas(t) => BooksByPushCas(s, t);
    case _ => BooksByRest(s, a);
  }

  lemma PathFacts(pg: nat, k: nat)
    requires k < |Path(pg)|
    ensures StageOf(Path(pg)[k]) == k && Founder(Path(pg)[k]) <= pg
    ensures k + 1 == |Path(pg)| ==> Founder(Path(pg)[k]) == pg
  {
  }

  /** A step that fills no cell and lets nobody start over. */
  lemma FilledSame(s: State, s': State, t: nat)
    requires FilledOk(s) && StagesOk(s) && Moved(s, s', t) && s'.table == s.table
    requires s.pages.Keys <= s'.pages.Keys
    requires Work(s'.thr[t]) >= 0 ==>
        Work(s'.thr[t]) !in s.pages
        || (Work(s'.thr[t]) == Work(s.thr[t]) && forall k: nat :: Before(s'.thr[t], k) ==> Before(s.thr[t], k))
    requires s'.thr[t].Install? ==>
        s'.thr[t].stage < |Path(s'.thr[t].pg)| && FilledTo(s'.table, s'.thr[t].pg, s'.thr[t].stage)
    ensures FilledOk(s') && StagesOk(s')
  {
  }

  lemma InstallKept(s: State, t: nat, granted: bool)
    requires Enabled(s, InstallNext(t, granted)) && PagesOk(s) && FilledOk(s) && StagesOk(s)
    ensures FilledOk(Apply(s, InstallNext(t, granted))) && StagesOk(Apply(s, InstallNext(t, granted)))
    ensures Apply(s, InstallNext(t, granted)).thr[t].PushReady? ==>
              Published(Apply(s, InstallNext(t, granted)), s.thr[t].pg)
  {
    var s' := Apply(s, InstallNext(t, granted));
    var pg, stage := s.thr[t].pg, s.thr[t].stage;
    PathFacts(pg, stage);
    assert Work(s.thr[t]) == pg;
    if s'.thr[t].Install? {
      assert FilledTo(s'.table, pg, stage + 1);
    }
  }

  lemma FilledKeptByReserve(s: State, t: nat)
    requires Enabled(s, Reserve(t)) && CursorOk(s) && FilledOk(s) && StagesOk(s)
    ensures FilledOk(Apply(s, Reserve(t))) && StagesOk(Apply(s, Reserve(t)))
  {
    var s' := Apply(s, Reserve(t));
    UndoersUpdate(s, s', t);
    if s.cursor + 1 < PG_NUM_MAX { ReserveGives(s, s', t); }
    FilledSame(s, s', t);
  }

  lemma FilledKeptByRest(s: State, a: Action)
    requires Enabled(s, a) && PagesOk(s) && FilledOk(s) && StagesOk(s)
    requires !a.InstallNext? && !a.Scribble? && !a.Reserve?
    ensures FilledOk(Apply(s, a)) && StagesOk(Apply(s, a))
  {
    FilledSame(s, Apply(s, a), a.t);
  }

  /** The filled cells after one step: each has one founder, which has passed it. */
  lemma FilledKept(s: State, a: Action)
    requires Enabled(s, a) && CursorOk(s) && PagesOk(s) && FilledOk(s) && StagesOk(s)
    ensures FilledOk(Apply(s, a)) && StagesOk(Apply(s, a))
  {
    if a.InstallNext? {
      InstallKept(s, a.t, a.granted);
    } else if a.Reserve? {
      FilledKeptByReserve(s, a.t);
    } else if !a.Scribble? {
      FilledKeptByRest(s, a);
    }
  }

  // ---------------------------------------------------------------- the block stack

  ghost predicate StackOk(s: State) {
    && Spells(s.link, s.head, s.list)
    && (forall b :: b in s.list <==> b in s.blocks && s.blocks[b].Listed?)
  }

  /** A page's blocks exist from the moment its adder chains them, as the adder's own
      until they are spliced. */
  ghost predicate BlocksOk(s: State) {
    && (forall b :: b in s.blocks ==> b in s.link && b / BLK_PER_PG in s.pages)
    && (forall b :: b in s.blocks ==> Published(s, b / BLK_PER_PG))
    && (forall b :: b in s.blocks && s.blocks[b].Building? ==>
          s.pages[b / BLK_PER_PG] == HeldBy(s.blocks[b].t)
          && s.blocks[b].t < |s.thr| && Splicing(s.thr[s.blocks[b].t]))
    && (forall b :: b in s.blocks && !s.blocks[b].Building? ==> s.pages[b / BLK_PER_PG] == Done)
  }

  predicate Splicing(pc: Pc) {
    pc.PushReady? || pc.PushHead? || pc.PushLinked?
  }

  ghost predicate ChainOk(s: State, t: nat, pg: nat) {
    && (forall b :: b in Chain(pg) ==> b in s.blocks && s.blocks[b] == Building(t))
    && Chained(s.link, Chain(pg))
  }

  /** A popper's snapshot: its head has been on the stack, and while it still is, the
      link read is the true one. */
  ghost predicate ThreadOk(s: State, t: nat)
    requires t < |s.thr|
  {
    match s.thr[t]
    case PopHead(h) => h in s.blocks && !s.blocks[h].Building?
    case PopLink(h, n) =>
      && h in s.blocks && !s.blocks[h].Building?
      && (s.blocks[h].Listed? ==> h in s.link && s.link[h] == n)
    case PopTaken(h) => h in s.blocks && s.blocks[h].Gone?
    case PushReady(pg) => ChainOk(s, t, pg)
    case PushHead(pg, _) => ChainOk(s, t, pg)
    case PushLinked(pg, seen) =>
      ChainOk(s, t, pg) && Chain(pg)[BLK_PER_PG - 1] in s.link && s.link[Chain(pg)[BLK_PER_PG - 1]] == seen
    case _ => true
  }

  ghost predicate ThreadsOk(s: State) {
    forall t: nat :: t < |s.thr| ==> ThreadOk(s, t)
  }

  lemma ChainFacts(pg: nat)
    ensures NoDup(Chain(pg)) && Chain(pg)[0] == pg * BLK_PER_PG
    ensures Chain(pg)[BLK_PER_PG - 1] == pg * BLK_PER_PG + BLK_PER_PG - 1
    ensures forall b: nat :: b in Chain(pg) <==> b / BLK_PER_PG == pg
  {
    forall b: nat ensures b in Chain(pg) <==> b / BLK_PER_PG == pg {
      if b / BLK_PER_PG == pg { assert Chain(pg)[b - pg * BLK_PER_PG] == b; }
    }
  }

  lemma PopKept(s: State, t: nat)
    requires Enabled(s, PopCas(t)) && StackOk(s) && ThreadOk(s, t) && s.head == s.thr[t].h
    ensures s.list != [] && s.list[0] == s.head && s.thr[t].n == First(s.list[1..])
    ensures s.blocks[s.head].Listed?
    ensures StackOk(Apply(s, PopCas(t)))
  {
    PopSpells(s.link, s.list);
  }

  lemma PushKept(s: State, t: nat)
    requires Enabled(s, PushCas(t)) && StackOk(s) && ThreadOk(s, t) && s.head == s.thr[t].seen
    ensures StackOk(Apply(s, PushCas(t)))
  {
    var pg := s.thr[t].pg;
    ChainFacts(pg);
    PushSpells(s.link, Chain(pg), s.head, s.list);
  }

  /** A step that keeps the head, the contents and the listed blocks' links. */
  lemma StackFrame(s: State, s': State)
    requires StackOk(s) && s'.head == s.head && s'.list == s.list
    requires forall b :: b in s.list && b in s.link ==> b in s'.link && s'.link[b] == s.link[b]
    requires forall b :: b in s.list ==> b in s'.blocks && s'.blocks[b].Listed?
    requires forall b :: b in s'.blocks && s'.blocks[b].Listed? ==> b in s.list
    ensures StackOk(s')
  {
    SpellsFrame(s.link, s'.link, s.head, s.list);
  }

  /** The blocks of a page still being installed do not exist yet. */
  lemma InstallIsFresh(s: State, t: nat)
    requires t < |s.thr| && s.thr[t].Install? && PagesOk(s) && BlocksOk(s)
    ensures forall b :: b in Chain(s.thr[t].pg) ==> b !in s.blocks
  {
    var pg := s.thr[t].pg;
    ChainFacts(pg);
    assert Work(s.thr[t]) == pg;
  }

  lemma StackKeptByInstall(s: State, t: nat, granted: bool)
    requires Enabled(s, InstallNext(t, granted)) && StackOk(s) && BlocksOk(s) && PagesOk(s)
    requires ThreadOk(s, t)
    ensures StackOk(Apply(s, InstallNext(t, granted)))
  {
    InstallIsFresh(s, t);
    StackFrame(s, Apply(s, InstallNext(t, granted)));
  }

  lemma StackKeptByRest(s: State, a: Action)
    requires Enabled(s, a) && StackOk(s) && BlocksOk(s) && PagesOk(s)
    requires !a.PopCas? && !a.PushCas? && !a.InstallNext?
    requires a.PushWriteLink? ==> ThreadOk(s, a.t)
    ensures StackOk(Apply(s, a))
  {
    if a.PushWriteLink? { ChainFacts(s.thr[a.t].pg); }
    StackFrame(s, Apply(s, a));
  }

  lemma StackKept(s: State, a: Action)
    requires Enabled(s, a) && StackOk(s) && BlocksOk(s) && PagesOk(s)
    requires !a.Scribble? && !a.Reserve? && !a.UndoReserve? && !a.PushAddFree? && !a.ReadHead? && !a.PopSubFree?
             ==> ThreadOk(s, a.t)
    ensures StackOk(Apply(s, a))
  {
    var s' := Apply(s, a);
    match a
    case PopCas(t) => if s.head == s.thr[t].h { PopKept(s, t); } else { StackFrame(s, s'); }
    case PushCas(t) => if s.head == s.thr[t].seen { PushKept(s, t); } else { StackFrame(s, s'); }
    case InstallNext(t, granted) => StackKeptByInstall(s, t, granted);
    case _ => StackKeptByRest(s, a);
  }

  // ------------------------------------------------ blocks and threads after a step

  /** What a step must respect for the facts about blocks to survive in the books. */
  lemma BlocksSame(s: State, s': State)
    requires BlocksOk(s) && s.table <= s'.table && s'.blocks == s.blocks
    requires s.link.Keys <= s'.link.Keys && s.pages.Keys <= s'.pages.Keys
    requires forall b :: b in s.blocks ==> s'.pages[b / BLK_PER_PG] == s.pages[b / BLK_PER_PG]
    requires forall b :: b in s.blocks && s.blocks[b].Building? ==>
               s.blocks[b].t < |s'.thr| && Splicing(s'.thr[s.blocks[b].t])
    ensures BlocksOk(s')
  {
  }

  lemma LastInstallEffect(s: State, t: nat, granted: bool)
    requires Enabled(s, InstallNext(t, granted)) && DoInstall(s, t, granted).thr[t].PushReady?
    ensures var s', pg := DoInstall(s, t, granted), s.thr[t].pg;
      && s'.pages == s.pages && s.link.Keys <= s'.link.Keys
      && (forall b: nat :: b in s'.blocks <==> b in s.blocks || b / BLK_PER_PG == pg)
      && (forall b: nat :: b / BLK_PER_PG == pg ==> b in s'.link && s'.blocks[b] == Building(t))
      && (forall b :: b in s.blocks && b / BLK_PER_PG != pg ==> s'.blocks[b] == s.blocks[b])
  {
    ChainFacts(s.thr[t].pg);
  }

  lemma BlocksKeptByInstall(s: State, t: nat, granted: bool)
    requires Enabled(s, InstallNext(t, granted)) && PagesOk(s) && FilledOk(s) && StagesOk(s) && BlocksOk(s)
    ensures BlocksOk(DoInstall(s, t, granted))
  {
    var s' := DoInstall(s, t, granted);
    var pg := s.thr[t].pg;
    assert Work(s.thr[t]) == pg;
    InstallIsFresh(s, t);
    ChainFacts(pg);
    if s'.thr[t].PushReady? {
      LastInstallEffect(s, t, granted);
      assert Published(s', pg) by { InstallKept(s, t, granted); }
      forall b | b in s'.blocks ensures Published(s', b / BLK_PER_PG) {
        if b in s.blocks { assert Published(s, b / BLK_PER_PG); }
      }
    } else {
      assert forall b :: b in s.blocks ==> b / BLK_PER_PG != pg;
      BlocksSame(s, s');
    }
  }

  lemma SpliceEffect(s: State, t: nat)
    requires Enabled(s, PushCas(t)) && ThreadOk(s, t) && s.head == s.thr[t].seen
    ensures var s', pg := DoPushCas(s, t), s.thr[t].pg;
      && s'.link == s.link && s'.table == s.table && s'.pages == s.pages[pg := Done]
      && s'.blocks.Keys == s.blocks.Keys
      && (forall b :: b in s.blocks ==>
            s'.blocks[b] == if b / BLK_PER_PG == pg then Listed else s.blocks[b])
  {
    ChainFacts(s.thr[t].pg);
  }

  lemma BlocksKeptByPush(s: State, t: nat)
    requires Enabled(s, PushCas(t)) && PagesOk(s) && BlocksOk(s) && ThreadOk(s, t)
    ensures BlocksOk(DoPushCas(s, t))
  {
    var s' := DoPushCas(s, t);
    var pg := s.thr[t].pg;
    assert Work(s.thr[t]) == pg;
    if s.head != s.thr[t].seen {
      BlocksSame(s, s');
    } else {
      SpliceEffect(s, t);
      forall b | b in s'.blocks ensures b in s.blocks && Published(s', b / BLK_PER_PG) {
        assert b in s'.blocks.Keys && Published(s, b / BLK_PER_PG);
      }
    }
  }

  lemma BlocksKeptByPop(s: State, t: nat)
    requires Enabled(s, PopCas(t)) && BlocksOk(s) && ThreadOk(s, t)
    ensures BlocksOk(DoPopCas(s, t))
  {
    var s' := DoPopCas(s, t);
    assert forall b :: b in s'.blocks <==> b in s.blocks;
  }

  lemma BlocksKeptByRest(s: State, a: Action)
    requires Enabled(s, a) && PagesOk(s) && BlocksOk(s)
    requires !a.Scribble? && !a.Reserve? && !a.AllocPage? && !a.InstallNext? && !a.PushCas? && !a.PopCas?
    ensures BlocksOk(Apply(s, a))
  {
    BlocksSame(s, Apply(s, a));
  }

  lemma BlocksKeptByReserve(s: State, a: Action)
    requires Enabled(s, a) && CursorOk(s) && PagesOk(s) && BlocksOk(s) && a.Reserve?
    ensures BlocksOk(Apply(s, a))
  {
    if s.cursor + 1 < PG_NUM_MAX { ReserveGives(s, Apply(s, a), a.t); }
    BlocksSame(s, Apply(s, a));
  }

  lemma BlocksKeptByAllocPage(s: State, a: Action)
    requires Enabled(s, a) && PagesOk(s) && BlocksOk(s) && a.AllocPage?
    ensures BlocksOk(Apply(s, a))
  {
    assert Work(s.thr[a.t]) == s.thr[a.t].pg;
    BlocksSame(s, Apply(s, a));
  }

  lemma BlocksKept(s: State, a: Action)
    requires Enabled(s, a) && CursorOk(s) && PagesOk(s) && FilledOk(s) && StagesOk(s) && BlocksOk(s)
    requires a.PushCas? || a.PopCas? ==> ThreadOk(s, a.t)
    ensures BlocksOk(Apply(s, a))
  {
    match a
    case Scribble(_, _) => BlocksSame(s, Apply(s, a));
    case InstallNext(t, granted) => BlocksKeptByInstall(s, t, granted);
    case PushCas(t) => BlocksKeptByPush(s, t);
    case PopCas(t) => BlocksKeptByPop(s, t);
    case Reserve(t) => BlocksKeptByReserve(s, a);
    case AllocPage(t, _) => BlocksKeptByAllocPage(s, a);
    case _ => BlocksKeptByRest(s, a);
  }

  /** What a step must respect for thread `u` to keep its knowledge of blocks. */
  ghost predicate Undisturbed(s: State, s': State, u: nat) {
    && u < |s.thr| && |s'.thr| == |s.thr| && s'.thr[u] == s.thr[u]
    && s.blocks.Keys <= s'.blocks.Keys
    && (forall b :: b in s.blocks && s.blocks[b] == Building(u) ==>
          && s'.blocks[b] == Building(u)
          && (b in s.link ==> b in s'.link && s'.link[b] == s.link[b]))
    && (forall b :: b in s.blocks && !s.blocks[b].Building? ==>
          && !s'.blocks[b].Building?
          && (s'.blocks[b].Listed? ==> s.blocks[b].Listed?)
          && (s'.blocks[b].Listed? && b in s.link ==> b in s'.link && s'.link[b] == s.link[b]))
  }

  lemma UndisturbedKeeps(s: State, s': State, u: nat)
    requires Undisturbed(s, s', u) && ThreadOk(s, u)
    ensures ThreadOk(s', u)
  {
    if Splicing(s.thr[u]) {
      var pg := s.thr[u].pg;
      ChainFacts(pg);
      ChainedFrame(s.link, s'.link, Chain(pg));
    }
  }

  lemma UndisturbedByCas(s: State, a: Action, u: nat)
    requires Enabled(s, a) && (a.PushCas? || a.PopCas?) && ThreadOk(s, a.t) && u < |s.thr| && u != a.t
    ensures Undisturbed(s, Apply(s, a), u)
  {
    if a.PushCas? && s.head == s.thr[a.t].seen { SpliceEffect(s, a.t); }
  }

  lemma UndisturbedByInstall(s: State, t: nat, granted: bool, u: nat)
    requires Enabled(s, InstallNext(t, granted)) && PagesOk(s) && BlocksOk(s) && u < |s.thr| && u != t
    ensures Undisturbed(s, DoInstall(s, t, granted), u)
  {
    var s' := DoInstall(s, t, granted);
    var pg := s.thr[t].pg;
    InstallIsFresh(s, t);
    ChainFacts(pg);
    if s'.thr[t].PushReady? {
      LastInstallEffect(s, t, granted);
      assert forall b :: b in s.blocks ==> b / BLK_PER_PG != pg;
      assert forall b :: b in s.link && b / BLK_PER_PG != pg ==> s'.link[b] == s.link[b];
    }
  }

  lemma UndisturbedByRest(s: State, a: Action, u: nat)
    requires Enabled(s, a) && !a.PushCas? && !a.PopCas? && !a.InstallNext? && u < |s.thr|
    requires a.Scribble? || u != a.t
    requires a.PushWriteLink? ==> ThreadOk(s, a.t)
    ensures Undisturbed(s, Apply(s, a), u)
  {
    if a.PushWriteLink? {
      ChainFacts(s.thr[a.t].pg);
      assert Chain(s.thr[a.t].pg)[BLK_PER_PG - 1] in Chain(s.thr[a.t].pg);
    }
  }

  lemma ActorKeptByPop(s: State, a: Action)
    requires Enabled(s, a) && StackOk(s) && (a.ReadHead? || a.ReadLink? || a.PopCas? || a.PopSubFree?)
    requires ThreadOk(s, a.t)
    ensures ThreadOk(Apply(s, a), a.t)
  {
    if a.ReadHead? { assert s.head in s.list; }
  }

  lemma ActorKeptByPush(s: State, a: Action)
    requires Enabled(s, a) && (a.PushReadHead? || a.PushWriteLink? || a.PushCas? || a.PushAddFree?)
    requires ThreadOk(s, a.t)
    ensures ThreadOk(Apply(s, a), a.t)
  {
    if a.PushWriteLink? {
      var pg := s.thr[a.t].pg;
      ChainFacts(pg);
      ChainedFrame(s.link, Apply(s, a).link, Chain(pg));
    }
  }

  /** The links the adder writes chain the blocks of its page. */
  lemma FreshChain(link: map<nat, int>, pg: nat)
    ensures Chained(link + map b | b in Chain(pg) :: b + 1, Chain(pg))
  {
    var link' := link + map b | b in Chain(pg) :: b + 1;
    forall i: nat | i + 1 < BLK_PER_PG ensures LinkAt(link', Chain(pg), i) {
      assert Chain(pg)[i] in Chain(pg);
    }
  }

  lemma ActorKeptByInstall(s: State, t: nat, granted: bool)
    requires Enabled(s, InstallNext(t, granted))
    ensures ThreadOk(DoInstall(s, t, granted), t)
  {
    if DoInstall(s, t, granted).thr[t].PushReady? {
      LastInstallEffect(s, t, granted);
      ChainFacts(s.thr[t].pg);
      FreshChain(s.link, s.thr[t].pg);
    }
  }

  lemma ThreadsKept(s: State, a: Action)
    requires Enabled(s, a) && StackOk(s) && PagesOk(s) && BlocksOk(s) && ThreadsOk(s)
    ensures ThreadsOk(Apply(s, a))
  {
    var s' := Apply(s, a);
    assert !a.Scribble? ==> ThreadOk(s, a.t);
    forall u: nat | u < |s'.thr| ensures ThreadOk(s', u) {
      assert ThreadOk(s, u);
      if !a.Scribble? && u == a.t {
        if a.InstallNext? {
          ActorKeptByInstall(s, a.t, a.granted);
        } else if a.ReadHead? || a.ReadLink? || a.PopCas? || a.PopSubFree? {
          ActorKeptByPop(s, a);
        } else if a.PushReadHead? || a.PushWriteLink? || a.PushCas? || a.PushAddFree? {
          ActorKeptByPush(s, a);
        }
      } else {
        if a.InstallNext? {
          UndisturbedByInstall(s, a.t, a.granted, u);
        } else if a.PushCas? || a.PopCas? {
          UndisturbedByCas(s, a, u);
        } else {
          UndisturbedByRest(s, a, u);
        }
        UndisturbedKeeps(s, s', u);
      }
    }
  }

  // ---------------------------------------------------------------- counter

  function FreeOwed(pc: Pc): int {
    match pc
    case PopTaken(_) => -1
    case PushSpliced => BLK_PER_PG
    case _ => 0
  }

  function Debts(s: State): seq<int> {
    seq(|s.thr|, t requires 0 <= t < |s.thr| => FreeOwed(s.thr[t]))
  }

  /** `free_blk_cnt` is the stack's length up to what the threads still owe it. */
  ghost predicate CounterOk(s: State) {
    s.freeCnt == (|s.list| - Sum(Debts(s))) % TWO32
  }

  lemma DebtsMoved(s: State, s': State, t: nat)
    requires Moved(s, s', t)
    ensures Sum(Debts(s')) == Sum(Debts(s)) - FreeOwed(s.thr[t]) + FreeOwed(s'.thr[t])
  {
    assert Debts(s') == Debts(s)[t := FreeOwed(s'.thr[t])];
    SumUpdate(Debts(s), t, FreeOwed(s'.thr[t]));
  }

  lemma CounterFrom(s: State, s': State, t: nat, d: int)
    requires CounterOk(s) && Moved(s, s', t) && s'.freeCnt == Add32(s.freeCnt, d)
    requires d == |s'.list| - |s.list| + FreeOwed(s.thr[t]) - FreeOwed(s'.thr[t])
    ensures CounterOk(s')
  {
    DebtsMoved(s, s', t);
  }

  lemma CounterKeptByPop(s: State, t: nat)
    requires Enabled(s, PopCas(t)) && CounterOk(s) && StackOk(s) && ThreadOk(s, t)
    ensures CounterOk(DoPopCas(s, t))
  {
    if s.head == s.thr[t].h { PopKept(s, t); }
    CounterFrom(s, DoPopCas(s, t), t, 0);
  }

  lemma CounterKeptByPush(s: State, t: nat)
    requires Enabled(s, PushCas(t)) && CounterOk(s)
    ensures CounterOk(DoPushCas(s, t))
  {
    CounterFrom(s, DoPushCas(s, t), t, 0);
  }

  /** Steps that touch neither the stack nor the counter nor a debt. */
  lemma CounterKeptQuietly(s: State, a: Action)
    requires Enabled(s, a) && CounterOk(s)
    requires !a.Scribble? && !a.PopCas? && !a.PushCas? && !a.PushAddFree? && !a.PopSubFree?
    ensures CounterOk(Apply(s, a))
  {
    var s' := Apply(s, a);
    assert s'.list == s.list && s'.freeCnt == s.freeCnt && FreeOwed(s'.thr[a.t]) == FreeOwed(s.thr[a.t]) == 0;
    CounterFrom(s, s', a.t, 0);
  }

  lemma CounterKept(s: State, a: Action)
    requires Enabled(s, a) && CounterOk(s) && StackOk(s)
    requires a.PopCas? ==> ThreadOk(s, a.t)
    ensures CounterOk(Apply(s, a))
  {
    if a.Scribble? {
      assert Debts(Apply(s, a)) == Debts(s);
    } else if a.PopCas? {
      CounterKeptByPop(s, a.t);
    } else if a.PushCas? {
      CounterKeptByPush(s, a.t);
    } else if a.PushAddFree? {
      CounterFrom(s, Apply(s, a), a.t, BLK_PER_PG);
    } else if a.PopSubFree? {
      CounterFrom(s, Apply(s, a), a.t, -1);
    } else {
      CounterKeptQuietly(s, a);
    }
  }

  // ---------------------------------------------------------------- runs

  ghost predicate Inv(s: State) {
    && CursorOk(s) && PagesOk(s) && FilledOk(s) && StagesOk(s)
    && StackOk(s) && BlocksOk(s) && ThreadsOk(s) && CounterOk(s)
  }

  lemma InvKept(s: State, a: Action)
    requires Enabled(s, a) && Inv(s)
    ensures Inv(Apply(s, a))
  {
    assert !a.Scribble? ==> ThreadOk(s, a.t);
    PagesKept(s, a);
    FilledKept(s, a);
    StackKept(s, a);
    BlocksKept(s, a);
    ThreadsKept(s, a);
    CounterKept(s, a);
  }

  ghost predicate Next(s: State, s': State) {
    exists a :: Enabled(s, a) && s' == Apply(s, a)
  }

  ghost predicate NextAt(run: seq<State>, i: nat) {
    i + 1 < |run| ==> Next(run[i], run[i + 1])
  }

  ghost predicate IsRun(n: nat, run: seq<State>) {
    run != [] && run[0] == Init(n) && forall i: nat :: NextAt(run, i)
  }

  lemma InitBooks(n: nat)
    ensures CursorOk(Init(n)) && CounterOk(Init(n))
  {
    SumZero(Undoers(Init(n)));
    SumZero(Debts(Init(n)));
  }

  lemma InitInv(n: nat)
    ensures Inv(Init(n))
  {
    InitBooks(n);
  }

  lemma NextInv(s: State, s': State)
    requires Next(s, s') && Inv(s)
    ensures Inv(s')
  {
    var a :| Enabled(s, a) && s' == Apply(s, a);
    InvKept(s, a);
  }

  lemma {:induction false} RunInv(n: nat, run: seq<State>, k: nat)
    requires IsRun(n, run) && k < |run|
    ensures Inv(run[k])
  {
    if k == 0 {
      InitInv(n);
    } else {
      RunInv(n, run, k - 1);
      assert NextAt(run, k - 1);
      NextInv(run[k - 1], run[k]);
    }
  }

  /** Pages and cells are only ever added, blocks only ever advance to gone. */
  ghost predicate Grows(s: State, s': State) {
    && s.pages.Keys <= s'.pages.Keys && s.table <= s'.table && s.blocks.Keys <= s'.blocks.Keys
    && (forall b :: b in s.blocks && s.blocks[b].Gone? ==> s'.blocks[b].Gone?)
  }

  lemma GrowsByInstall(s: State, t: nat, granted: bool)
    requires Enabled(s, InstallNext(t, granted)) && Inv(s)
    ensures Grows(s, Apply(s, InstallNext(t, granted)))
  {
    assert ThreadOk(s, t);
    InstallIsFresh(s, t);
    ChainFacts(s.thr[t].pg);
    if Apply(s, InstallNext(t, granted)).thr[t].PushReady? { LastInstallEffect(s, t, granted); }
  }

  lemma GrowsByPush(s: State, t: nat)
    requires Enabled(s, PushCas(t)) && Inv(s)
    ensures Grows(s, Apply(s, PushCas(t)))
  {
    assert ThreadOk(s, t);
    if s.head == s.thr[t].seen { SpliceEffect(s, t); }
  }

  lemma GrowsByRest(s: State, a: Action)
    requires Enabled(s, a) && !a.InstallNext? && !a.PushCas?
    ensures Grows(s, Apply(s, a))
  {
  }

  lemma GrowsStep(s: State, a: Action)
    requires Enabled(s, a) && Inv(s)
    ensures Grows(s, Apply(s, a))
  {
    if a.InstallNext? {
      GrowsByInstall(s, a.t, a.granted);
    } else if a.PushCas? {
      GrowsByPush(s, a.t);
    } else {
      GrowsByRest(s, a);
    }
  }

  lemma NextGrows(s: State, s': State)
    requires Next(s, s') && Inv(s)
    ensures Grows(s, s')
  {
    var a :| Enabled(s, a) && s' == Apply(s, a);
    GrowsStep(s, a);
  }

  lemma RunGrowsOnce(n: nat, run: seq<State>, k: nat)
    requires IsRun(n, run) && k + 1 < |run|
    ensures Grows(run[k], run[k + 1])
  {
    RunInv(n, run, k);
    assert NextAt(run, k);
    NextGrows(run[k], run[k + 1]);
  }

  lemma GrowsOn(s: State, s': State, s'': State)
    requires Grows(s, s') && Grows(s', s'')
    ensures Grows(s, s'')
  {
  }

  lemma {:induction false} RunGrows(n: nat, run: seq<State>, i: nat, j: nat)
    requires IsRun(n, run) && i <= j < |run|
    ensures Grows(run[i], run[j])
  {
    if i < j {
      RunGrows(n, run, i, j - 1);
      RunGrowsOnce(n, run, j - 1);
      GrowsOn(run[i], run[j - 1], run[j]);
    }
  }

  /** Page ids go to one caller each, ever: the id a reservation gets was given to nobody
      at any earlier moment of the run, and lies in 0 .. pg_num_max - 2. */
  lemma PageIdGivenOnce(n: nat, run: seq<State>, j: nat, k: nat, t: nat)
    requires IsRun(n, run) && j <= k < |run|
    requires Enabled(run[k], Reserve(t)) && Apply(run[k], Reserve(t)).thr[t].Reserved?
    ensures var pg := Apply(run[k], Reserve(t)).thr[t].pg;
      && pg < PG_NUM_MAX - 1 && pg !in run[j].pages
      && forall u: nat :: u < |run[k].thr| ==> Work(run[k].thr[u]) != pg
  {
    RunInv(n, run, k);
    RunGrows(n, run, j, k);
    ReserveGives(run[k], Apply(run[k], Reserve(t)), t);
  }

  /** The cursor is taken back only when every page id has been given out. */
  lemma UndoMeansFull(n: nat, run: seq<State>, k: nat, t: nat)
    requires IsRun(n, run) && k < |run| && t < |run[k].thr| && run[k].thr[t].Undo?
    ensures forall pg: nat :: pg in run[k].pages <==> pg < PG_NUM_MAX - 1
  {
    RunInv(n, run, k);
    SumNonNegative(Undoers(run[k]));
    assert Undoers(run[k])[t] == 1;
  }

  /** Each pointer cell, index roots included, is filled at most once: its founder finds
      it empty, and nobody ever empties one. */
  lemma CellFilledOnce(n: nat, run: seq<State>, j: nat, k: nat, t: nat, granted: bool)
    requires IsRun(n, run) && j <= k < |run| && Enabled(run[k], InstallNext(t, granted))
    requires Founder(Path(run[k].thr[t].pg)[run[k].thr[t].stage]) == run[k].thr[t].pg
    ensures Path(run[k].thr[t].pg)[run[k].thr[t].stage] !in run[j].table
  {
    RunInv(n, run, k);
    RunGrows(n, run, j, k);
    PathFacts(run[k].thr[t].pg, run[k].thr[t].stage);
    assert Work(run[k].thr[t]) == run[k].thr[t].pg;
  }

  /** A block handed out is never handed out again: later it is not on the stack, so no
      later swap can take it. */
  lemma HandedOutOnce(n: nat, run: seq<State>, j: nat, k: nat, t: nat, b: nat)
    requires IsRun(n, run) && j <= k < |run|
    requires b in run[j].blocks && run[j].blocks[b].Gone?
    ensures b !in run[k].list
    ensures Enabled(run[k], PopCas(t)) && run[k].thr[t].h == b ==> run[k].head != b
  {
    RunInv(n, run, k);
    RunGrows(n, run, j, k);
    assert run[k].head >= 0 ==> run[k].head in run[k].list;
  }

  /** A swap that finds its snapshot's head on top pops exactly the top, with no grace
      period at all, and the lookup of that block met only filled cells. */
  lemma PopIsAbaFree(n: nat, run: seq<State>, k: nat, t: nat)
    requires IsRun(n, run) && k < |run|
    requires Enabled(run[k], PopCas(t)) && run[k].head == run[k].thr[t].h
    ensures var s, s' := run[k], Apply(run[k], PopCas(t));
      && s.list != [] && s.list[0] == s.head
      && s'.list == s.list[1..] && s'.head == First(s.list[1..])
      && s'.blocks[s.head].Gone? && Published(s, s.thr[t].h / BLK_PER_PG)
  {
    RunInv(n, run, k);
    assert ThreadOk(run[k], t);
    PopKept(run[k], t);
  }

  /** Looking up any block that is listed, handed out or in a popper's snapshot never
      waits, although slots of refused pages stay empty for good. */
  lemma LookupNeverWaits(n: nat, run: seq<State>, k: nat, t: nat, b: nat)
    requires IsRun(n, run) && k < |run| && t < |run[k].thr|
    requires b in run[k].list || run[k].thr[t] == PopHead(b) || (b in run[k].blocks && run[k].blocks[b].Gone?)
    ensures Published(run[k], b / BLK_PER_PG)
  {
    RunInv(n, run, k);
    assert ThreadOk(run[k], t);
  }

  lemma AtomicStep(s: State, a: Action)
    requires Enabled(s, a) && Inv(s)
    ensures StackStep(s.list, Apply(s, a).list)
  {
    assert !a.Scribble? ==> ThreadOk(s, a.t);
    match a
    case PopCas(t) => if s.head == s.thr[t].h { PopKept(s, t); }
    case PushCas(t) => if s.head == s.thr[t].seen { assert Chain(s.thr[t].pg) != []; }
    case _ => assert Apply(s, a).list == s.list;
  }

  /** Every step pops the top block, prepends a whole page, or leaves the stack alone. */
  lemma AtomicStack(n: nat, run: seq<State>, k: nat)
    requires IsRun(n, run) && k + 1 < |run|
    ensures StackStep(run[k].list, run[k + 1].list)
  {
    assert Inv(run[k]) by { RunInv(n, run, k); }
    assert NextAt(run, k);
    var a :| Enabled(run[k], a) && run[k + 1] == Apply(run[k], a);
    AtomicStep(run[k], a);
  }

  /** With no call in flight `free_blk_cnt` is the stack's length. */
  lemma QuiescentCounter(n: nat, run: seq<State>, k: nat)
    requires IsRun(n, run) && k < |run|
    requires forall t :: 0 <= t < |run[k].thr| ==> run[k].thr[t].Idle?
    requires |run[k].list| < TWO32
    ensures run[k].freeCnt == |run[k].list|
  {
    RunInv(n, run, k);
    SumZero(Debts(run[k]));
  }
}

/** The page table of a cluster: direct slots, one page of pointers, and a page of pages of
    pointers.  It behaves as a flat map from page numbers to pages. */
module PageTable {
  import opened Layout
  import opened Quotients

  /** Where the two index levels hang in `pglist`. */
  const IND: nat := 320
  const DIND: nat := 321
  const N_PGS: nat := 322

  /** `pglist`, and what the index pages hold, by address; 0 is NULL. */
  datatype Table = Table(pglist: seq<nat>, index: map<nat, seq<nat>>)

  /** Entry `i` of the index page at `a`. */
  function Entry(t: Table, a: nat, i: nat): nat {
    if a in t.index && i < |t.index[a]| then t.index[a][i] else 0
  }

  function Slot(t: Table, i: nat): nat {
    if i < |t.pglist| then t.pglist[i] else 0
  }

  /** Where the inner index page of a page past the first two levels is. */
  function Inner(t: Table, pg: nat): nat
    requires DIND_START <= pg
  {
    Entry(t, Slot(t, DIND), (pg - DIND_START) / PTRS)
  }

  /** The page of number `pg`, or 0. */
  function Lookup(t: Table, pg: nat): nat {
    if pg < NDIR then Slot(t, pg)
    else if pg < DIND_START then Entry(t, Slot(t, IND), pg - NDIR)
    else Entry(t, Inner(t, pg), (pg - DIND_START) % PTRS)
  }

  /** Index pages have their size and are referred to from one place each. */
  ghost predicate Shaped(t: Table) {
    && |t.pglist| == N_PGS && 0 !in t.index
    && (forall a :: a in t.index ==> |t.index[a]| == PTRS)
    && (Slot(t, IND) != 0 ==> Slot(t, IND) in t.index)
    && (Slot(t, DIND) != 0 ==> Slot(t, DIND) in t.index)
    && (Slot(t, IND) != 0 ==> Slot(t, IND) != Slot(t, DIND))
    && (forall i: nat :: InnerOk(t, i))
    && (forall i: nat, j: nat :: InnersApart(t, i, j))
  }

  ghost predicate InnerOk(t: Table, i: nat) {
    var a := Entry(t, Slot(t, DIND), i);
    a != 0 ==> a in t.index && a != Slot(t, IND) && a != Slot(t, DIND)
  }

  ghost predicate InnersApart(t: Table, i: nat, j: nat) {
    i != j && Entry(t, Slot(t, DIND), i) != 0 ==> Entry(t, Slot(t, DIND), i) != Entry(t, Slot(t, DIND), j)
  }

  // ---------------------------------------------------------------- writes

  function SetSlot(t: Table, i: nat, a: nat): Table
    requires i < |t.pglist|
  {
    t.(pglist := t.pglist[i := a])
  }

  function SetEntry(t: Table, a: nat, i: nat, x: nat): Table
    requires a in t.index && i < |t.index[a]|
  {
    var entries: seq<nat> := t.index[a][i := x];
    t.(index := t.index[a := entries])
  }

  function NewIndex(t: Table, a: nat): Table {
    var zeros: seq<nat> := seq(PTRS, _ => 0);
    t.(index := t.index[a := zeros])
  }

  ghost predicate OneSlot(t: Table, t': Table, pg: nat, x: nat) {
    forall q: nat :: Lookup(t', q) == if q == pg then x else Lookup(t, q)
  }

  ghost predicate SameLookups(t: Table, t': Table) {
    forall q: nat :: Lookup(t', q) == Lookup(t, q)
  }

  lemma DirectWrite(t: Table, pg: nat, x: nat)
    requires Shaped(t) && pg < NDIR
    ensures Shaped(SetSlot(t, pg, x)) && OneSlot(t, SetSlot(t, pg, x), pg, x)
  {
    var t' := SetSlot(t, pg, x);
    assert Slot(t', IND) == Slot(t, IND) && Slot(t', DIND) == Slot(t, DIND);
    forall i: nat ensures InnerOk(t', i) { assert InnerOk(t, i); }
    forall i: nat, j: nat ensures InnersApart(t', i, j) { assert InnersApart(t, i, j); }
  }

  /** Writing an index page that is not the root of the third level. */
  lemma LeafWrite(t: Table, a: nat, i: nat, x: nat)
    requires Shaped(t) && a in t.index && i < PTRS && a != Slot(t, DIND)
    ensures Shaped(SetEntry(t, a, i, x))
    ensures forall b: nat, j: nat :: Entry(SetEntry(t, a, i, x), b, j) == if b == a && j == i then x else Entry(t, b, j)
  {
    var t' := SetEntry(t, a, i, x);
    forall k: nat ensures InnerOk(t', k) { assert InnerOk(t, k); }
    forall k: nat, j: nat ensures InnersApart(t', k, j) { assert InnersApart(t, k, j); }
  }

  lemma IndWrite(t: Table, pg: nat, x: nat)
    requires Shaped(t) && NDIR <= pg < DIND_START && Slot(t, IND) != 0
    ensures Shaped(SetEntry(t, Slot(t, IND), pg - NDIR, x))
    ensures OneSlot(t, SetEntry(t, Slot(t, IND), pg - NDIR, x), pg, x)
  {
    var a := Slot(t, IND);
    var t' := SetEntry(t, a, pg - NDIR, x);
    LeafWrite(t, a, pg - NDIR, x);
    forall q: nat ensures Lookup(t', q) == if q == pg then x else Lookup(t, q) {
      if DIND_START <= q { assert InnerOk(t, (q - DIND_START) / PTRS); }
    }
  }

  lemma DindWrite(t: Table, pg: nat, x: nat)
    requires Shaped(t) && DIND_START <= pg && Inner(t, pg) != 0
    ensures Inner(t, pg) in t.index && |t.index[Inner(t, pg)]| == PTRS
    ensures Shaped(SetEntry(t, Inner(t, pg), (pg - DIND_START) % PTRS, x))
    ensures OneSlot(t, SetEntry(t, Inner(t, pg), (pg - DIND_START) % PTRS, x), pg, x)
  {
    var k := (pg - DIND_START) / PTRS;
    assert InnerOk(t, k);
    var a, i := Inner(t, pg), (pg - DIND_START) % PTRS;
    var t' := SetEntry(t, a, i, x);
    LeafWrite(t, a, i, x);
    forall q: nat ensures Lookup(t', q) == if q == pg then x else Lookup(t, q) {
      if DIND_START <= q {
        assert InnerOk(t, (q - DIND_START) / PTRS) && InnersApart(t, k, (q - DIND_START) / PTRS);
        if q != pg { SamePage(q - DIND_START, pg - DIND_START); }
      }
    }
  }

  lemma SamePage(x: nat, y: nat)
    requires x != y
    ensures x / PTRS != y / PTRS || x % PTRS != y % PTRS
  {
    assert x == x / PTRS * PTRS + x % PTRS && y == y / PTRS * PTRS + y % PTRS;
  }

  /** A fresh index page hung at slot IND or DIND: no lookup changes, all were 0 there. */
  lemma RootWrite(t: Table, r: nat, a: nat)
    requires Shaped(t) && (r == IND || r == DIND) && Slot(t, r) == 0 && a != 0 && a !in t.index
    requires a != Slot(t, IND) && a != Slot(t, DIND)
    ensures Shaped(SetSlot(NewIndex(t, a), r, a)) && SameLookups(t, SetSlot(NewIndex(t, a), r, a))
    ensures forall i: nat :: Entry(SetSlot(NewIndex(t, a), r, a), a, i) == 0
  {
    var t' := SetSlot(NewIndex(t, a), r, a);
    assert forall b: nat, i: nat :: b != a ==> Entry(t', b, i) == Entry(t, b, i);
    forall i: nat ensures InnerOk(t', i) { assert InnerOk(t, i); }
    forall i: nat, j: nat ensures InnersApart(t', i, j) { assert InnersApart(t, i, j); }
    forall q: nat ensures Lookup(t', q) == Lookup(t, q) {
      if DIND_START <= q { assert InnerOk(t, (q - DIND_START) / PTRS); }
    }
  }

  /** A fresh index page hung in the root of the third level. */
  lemma InnerWrite(t: Table, k: nat, a: nat)
    requires Shaped(t) && Slot(t, DIND) != 0 && k < PTRS && Entry(t, Slot(t, DIND), k) == 0
    requires a != 0 && a !in t.index
    ensures Slot(t, DIND) in NewIndex(t, a).index
    ensures Shaped(SetEntry(NewIndex(t, a), Slot(t, DIND), k, a))
    ensures SameLookups(t, SetEntry(NewIndex(t, a), Slot(t, DIND), k, a))
    ensures var t' := SetEntry(NewIndex(t, a), Slot(t, DIND), k, a);
      forall i: nat :: Entry(t', Slot(t, DIND), i) == if i == k then a else Entry(t, Slot(t, DIND), i)
  {
    var r := Slot(t, DIND);
    var t' := SetEntry(NewIndex(t, a), r, k, a);
    assert forall b: nat, i: nat :: b != a && b != r ==> Entry(t', b, i) == Entry(t, b, i);
    assert forall i: nat :: Entry(t', a, i) == 0;
    forall i: nat ensures InnerOk(t', i) { assert InnerOk(t, i); }
    forall i: nat, j: nat ensures InnersApart(t', i, j) { assert InnersApart(t, i, j) && InnerOk(t, i) && InnerOk(t, j); }
    forall q: nat ensures Lookup(t', q) == Lookup(t, q) {
      if DIND_START <= q { assert InnerOk(t, (q - DIND_START) / PTRS); }
    }
  }

  // ---------------------------------------------------------------- the cluster's table

  /** Pages are handed out in full and never overlap. */
  ghost predicate Fresh(pages: nat -> nat) {
    forall i: nat, j: nat :: i != j && pages(i) != 0 && pages(j) != 0 ==> PagesApart(pages(i), pages(j))
  }

  predicate PagesApart(a: nat, b: nat) {
    a + PG_SIZE <= b || b + PG_SIZE <= a
  }

  /** The slots whose adder also has to bring an index page. */
  predicate CarriesIndex(s: nat) {
    s == NDIR || (DIND_START <= s && (s - DIND_START) % PTRS == 0)
  }

  /** The slot whose adder brings the index page that slot `s` is installed in. */
  function Carrier(s: nat): nat
    requires NDIR <= s
  {
    if s < DIND_START then NDIR else s - (s - DIND_START) % PTRS
  }

  /** An adder at slot `s` waits for an index page that its adder failed to bring. */
  predicate Blocked(s: nat, burnt: set<nat>, rootBurnt: bool) {
    && NDIR < s
    && ((!CarriesIndex(s) && Carrier(s) in burnt) || (DIND_START < s && rootBurnt))
  }

  /** The system refuses an index page that slot `s` has to bring, asked for from request
      `n` on: slot DIND_START brings two, other carriers one. */
  predicate IndexRefused(pages: nat -> nat, n: nat, s: nat) {
    CarriesIndex(s) && (pages(n) == 0 || (s == DIND_START && pages(n + 1) == 0))
  }

  datatype Added = Installed(pg: nat) | Full | NoMem | Hangs

  /** At slot DIND_START: the page itself or the root of the third level is refused. */
  predicate RootRefused(pages: nat -> nat, n: nat) {
    pages(n) == 0 || pages(n + 1) == 0
  }

  /** What becomes of a granted page for slot `s`, request `n` being the next. */
  function Placed(pages: nat -> nat, n: nat, s: nat, burnt: set<nat>, rootBurnt: bool): Added {
    if Blocked(s, burnt, rootBurnt) then Hangs
    else if IndexRefused(pages, n, s) then NoMem
    else Installed(s)
  }

  /** What becomes of an adder at slot `s`. */
  function Outcome(pages: nat -> nat, n: nat, s: nat, burnt: set<nat>, rootBurnt: bool): Added {
    if PG_NUM_MAX <= s + 1 then Full
    else if pages(n) == 0 then NoMem
    else Placed(pages, n + 1, s, burnt, rootBurnt)
  }

  /** How many index pages the adder at slot `s` asks for once it has its own page. */
  function IndexAsks(pages: nat -> nat, n: nat, s: nat, rootBurnt: bool): nat {
    if s == DIND_START then (if pages(n) == 0 then 1 else 2)
    else if CarriesIndex(s) && (s == NDIR || !rootBurnt) then 1
    else 0
  }

  /** How many pages the adder at slot `s` asks for. */
  function Asks(pages: nat -> nat, n: nat, s: nat, rootBurnt: bool): nat {
    if PG_NUM_MAX <= s + 1 then 0
    else if pages(n) == 0 then 1
    else 1 + IndexAsks(pages, n + 1, s, rootBurnt)
  }

  /** All of an adder's requests, from `n` on, are granted. */
  predicate AllGranted(pages: nat -> nat, n: nat, k: nat)
    decreases k
  {
    k == 0 || (pages(n) != 0 && AllGranted(pages, n + 1, k - 1))
  }

  /** A slot is filled exactly if there is one left, nothing blocks it, and the system grants
      its page and every index page its adder asks for: none but at slot 320, where the
      single indirect page is due, at slot 832, where the root of the third level and its
      first page are, and at every 512th slot from there on. */
  lemma InstalledExactly(pages: nat -> nat, n: nat, s: nat, burnt: set<nat>, rootBurnt: bool)
    ensures var r, k := Outcome(pages, n, s, burnt, rootBurnt), Asks(pages, n, s, rootBurnt);
      && (r.Full? <==> s >= 16383)
      && (r.Installed? <==> s < 16383 && !Blocked(s, burnt, rootBurnt) && AllGranted(pages, n, k))
      && (r.Installed? ==> r.pg == s && k == if s == 832 then 3 else if s == 320 || (s > 832 && (s - 832) % 512 == 0) then 2 else 1)
      && (r.Hangs? ==> Blocked(s, burnt, rootBurnt) && pages(n) != 0)
  {
    assert AllGranted(pages, n, 2) <==> pages(n) != 0 && AllGranted(pages, n + 1, 1);
    assert AllGranted(pages, n, 3) <==> pages(n) != 0 && AllGranted(pages, n + 1, 2);
  }

  // ---------------------------------------------------------------- the books of all slots

  datatype Books = Books(requests: nat, burnt: set<nat>, rootBurnt: bool)

  /** What the adder of slot `s` finds: the requests made and the slots burnt before it. */
  function BooksAt(pages: nat -> nat, s: nat): Books {
    if s == 0 then Books(0, {}, false) else AfterSlot(pages, s - 1, BooksAt(pages, s - 1))
  }

  function AfterSlot(pages: nat -> nat, s: nat, b: Books): Books {
    Books(b.requests + Asks(pages, b.requests, s, b.rootBurnt),
          if Outcome(pages, b.requests, s, b.burnt, b.rootBurnt).Installed? then b.burnt else b.burnt + {s},
          b.rootBurnt || (s == DIND_START && RootRefused(pages, b.requests)))
  }

  /** Slot `s` gets its page and every index page its adder asks for. */
  predicate Granted(pages: nat -> nat, s: nat) {
    var b := BooksAt(pages, s);
    Outcome(pages, b.requests, s, b.burnt, b.rootBurnt).Installed?
  }

  lemma BooksNext(pages: nat -> nat, s: nat, b: Books)
    requires b == BooksAt(pages, s)
    ensures AfterSlot(pages, s, b) == BooksAt(pages, s + 1)
  {
  }

  /** The slots burnt are those not granted. */
  lemma {:induction false} BurntExactly(pages: nat -> nat, k: nat, s: nat)
    ensures s in BooksAt(pages, k).burnt <==> s < k && !Granted(pages, s)
  {
    if k > 0 { BurntExactly(pages, k - 1, s); }
  }

  datatype Found = At(addr: nat) | NeverFound

  /** The `next` word of the block at address `at`. */
  datatype NextWrite = NextWrite(at: nat, next: nat)

  /** Write `i` links block `i` of the page to the next block. */
  ghost predicate LinksNext(w: seq<NextWrite>, i: nat, page: nat, pg: nat) {
    i < |w| && w[i] == NextWrite(page + i * 32, pg * 128 + i + 1)
  }

  /** Write `i` goes where block `i` of the page is looked up. */
  ghost predicate WrittenWhereFound(w: seq<NextWrite>, i: nat, flat: map<nat, nat>, pg: nat) {
    && i < |w| && (pg * 128 + i) / BLK_PER_PG in flat && pg in flat
    && w[i].at == BlkAddr(flat, pg * 128 + i) == flat[pg] + i * 32
  }

  /** Address `a` was handed out among the first `n` requests. */
  ghost predicate Handed(pages: nat -> nat, n: nat, a: nat) {
    a != 0 && exists k: nat :: k < n && pages(k) == a
  }

  /** The table is the flat map `flat`. */
  ghost predicate Flat(t: Table, flat: map<nat, nat>) {
    Shaped(t) && forall q: nat :: LookupIs(t, flat, q)
  }

  ghost predicate LookupIs(t: Table, flat: map<nat, nat>, q: nat) {
    Lookup(t, q) == if q in flat then flat[q] else 0
  }

  /** Every page handed out serves one purpose: it backs one slot or is one index page. */
  ghost predicate OneUse(t: Table, flat: map<nat, nat>, pages: nat -> nat, n: nat) {
    && (forall q: nat :: OwnPage(t, flat, pages, n, q))
    && (forall q: nat, r: nat :: PagesDiffer(flat, q, r))
    && (forall a: nat :: IndexHanded(t, pages, n, a))
  }

  ghost predicate OwnPage(t: Table, flat: map<nat, nat>, pages: nat -> nat, n: nat, q: nat) {
    q in flat ==> Handed(pages, n, flat[q]) && flat[q] !in t.index
  }

  ghost predicate PagesDiffer(flat: map<nat, nat>, q: nat, r: nat) {
    q in flat && r in flat && q != r ==> flat[q] != flat[r]
  }

  ghost predicate IndexHanded(t: Table, pages: nat -> nat, n: nat, a: nat) {
    a in t.index ==> Handed(pages, n, a)
  }

  /** Which index pages there are: those whose slot was not burnt, and the root of the third
      level unless it was refused. */
  ghost predicate Carried(t: Table, flat: map<nat, nat>, cursor: nat, rootBurnt: bool) {
    && (Slot(t, IND) != 0 <==> NDIR in flat)
    && (Slot(t, DIND) != 0 <==> DIND_START < cursor && !rootBurnt) && (rootBurnt ==> DIND_START < cursor)
    && (forall k: nat :: InnerThere(t, flat, k))
  }

  ghost predicate InnerThere(t: Table, flat: map<nat, nat>, k: nat) {
    Entry(t, Slot(t, DIND), k) != 0 <==> DIND_START + PTRS * k in flat
  }

  /** Every slot used up is either installed or burnt. */
  ghost predicate Settled(flat: map<nat, nat>, burnt: set<nat>, cursor: nat) {
    forall q: nat :: SettledAt(flat, burnt, cursor, q)
  }

  ghost predicate SettledAt(flat: map<nat, nat>, burnt: set<nat>, cursor: nat, q: nat) {
    (q in flat <==> q < cursor && q !in burnt) && (q in burnt ==> q < cursor)
  }

  /** Page `x` is handed out and used for nothing yet. */
  ghost predicate Apart(t: Table, flat: map<nat, nat>, pages: nat -> nat, n: nat, x: nat) {
    Handed(pages, n, x) && x !in t.index && forall q: nat :: NotPage(flat, q, x)
  }

  ghost predicate NotPage(flat: map<nat, nat>, q: nat, x: nat) {
    q in flat ==> flat[q] != x
  }

  /** Page `x` is to go into slot `pg`, which is used up but not settled. */
  ghost predicate Loose(t: Table, flat: map<nat, nat>, burnt: set<nat>, pages: nat -> nat, n: nat, pg: nat, x: nat) {
    && x != 0 && Fresh(pages) && Flat(t, flat) && OneUse(t, flat, pages, n) && Apart(t, flat, pages, n, x)
    && Settled(flat, burnt, pg)
  }

  /** `Loose`, with the single indirect page there. */
  ghost predicate LooseInd(t: Table, flat: map<nat, nat>, burnt: set<nat>, pages: nat -> nat, n: nat, pg: nat, x: nat) {
    && Loose(t, flat, burnt, pages, n, pg, x) && NDIR <= pg < DIND_START && (pg != NDIR ==> NDIR in flat)
    && Slot(t, IND) != 0 && Slot(t, DIND) == 0
  }

  /** `Loose`, with the root of the third level there. */
  ghost predicate LooseRoot(t: Table, flat: map<nat, nat>, burnt: set<nat>, pages: nat -> nat, n: nat, pg: nat, x: nat) {
    && Loose(t, flat, burnt, pages, n, pg, x) && DIND_START <= pg < PG_NUM_MAX
    && (Slot(t, IND) != 0 <==> NDIR in flat) && Slot(t, DIND) != 0
    && forall k: nat :: InnerThere(t, flat, k)
  }

  /** `LooseRoot`, with the inner index page there. */
  ghost predicate LooseInner(t: Table, flat: map<nat, nat>, burnt: set<nat>, pages: nat -> nat, n: nat, pg: nat, x: nat) {
    && Loose(t, flat, burnt, pages, n, pg, x) && DIND_START <= pg < PG_NUM_MAX
    && (Slot(t, IND) != 0 <==> NDIR in flat) && Slot(t, DIND) != 0 && Inner(t, pg) != 0
    && (forall k: nat :: k != (pg - DIND_START) / PTRS ==> InnerThere(t, flat, k))
    && (!CarriesIndex(pg) ==> Carrier(pg) in flat)
  }

  /** A settled table: all there is to know about it between calls. */
  ghost predicate Sound(t: Table, flat: map<nat, nat>, burnt: set<nat>, rootBurnt: bool, pages: nat -> nat, n: nat, cursor: nat) {
    && Flat(t, flat) && OneUse(t, flat, pages, n)
    && Carried(t, flat, cursor, rootBurnt) && Settled(flat, burnt, cursor)
  }

  /** A new page differs from all pages handed out before. */
  lemma NewAddress(pages: nat -> nat, n: nat)
    requires Fresh(pages)
    ensures !Handed(pages, n, pages(n))
  {
  }

  lemma StillHanded(t: Table, flat: map<nat, nat>, pages: nat -> nat, n: nat)
    requires OneUse(t, flat, pages, n)
    ensures OneUse(t, flat, pages, n + 1)
  {
    var m := n + 1;
    forall q: nat ensures OwnPage(t, flat, pages, m, q) { assert OwnPage(t, flat, pages, n, q); }
    forall a: nat ensures IndexHanded(t, pages, m, a) { assert IndexHanded(t, pages, n, a); }
  }

  lemma SlotSettles(flat: map<nat, nat>, burnt: set<nat>, pg: nat, x: nat)
    requires Settled(flat, burnt, pg)
    ensures pg !in flat && pg !in burnt
    ensures Settled(flat[pg := x], burnt, pg + 1) && Settled(flat, burnt + {pg}, pg + 1)
  {
    var flat', burnt', next := flat[pg := x], burnt + {pg}, pg + 1;
    assert SettledAt(flat, burnt, pg, pg);
    forall q: nat ensures SettledAt(flat', burnt, next, q) && SettledAt(flat, burnt', next, q) {
      assert SettledAt(flat, burnt, pg, q);
    }
  }

  /** A slot written with a page of its own. */
  lemma SlotFilled(t: Table, t': Table, flat: map<nat, nat>, pages: nat -> nat, n: nat, pg: nat, x: nat)
    requires Flat(t, flat) && OneUse(t, flat, pages, n) && Shaped(t') && OneSlot(t, t', pg, x)
    requires pg !in flat && x != 0 && Apart(t, flat, pages, n, x) && t'.index.Keys == t.index.Keys
    ensures Flat(t', flat[pg := x]) && OneUse(t', flat[pg := x], pages, n)
  {
    var flat' := flat[pg := x];
    assert forall a :: a in t'.index <==> a in t.index.Keys;
    forall q: nat ensures LookupIs(t', flat', q) && OwnPage(t', flat', pages, n, q) {
      assert LookupIs(t, flat, q) && OwnPage(t, flat, pages, n, q);
    }
    forall q: nat, r: nat ensures PagesDiffer(flat', q, r) {
      assert PagesDiffer(flat, q, r) && NotPage(flat, q, x) && NotPage(flat, r, x);
    }
    forall a: nat ensures IndexHanded(t', pages, n, a) { assert IndexHanded(t, pages, n, a); }
  }

  /** Installing a page that carries no index page leaves the index pages accounted for. */
  lemma Recarried(t: Table, t': Table, flat: map<nat, nat>, pg: nat, x: nat, rootBurnt: bool)
    requires Carried(t, flat, pg, rootBurnt) && pg < NDIR
    requires Slot(t', IND) == Slot(t, IND) && Slot(t', DIND) == Slot(t, DIND) && t'.index == t.index
    ensures Carried(t', flat[pg := x], pg + 1, rootBurnt)
  {
    var flat' := flat[pg := x];
    forall k: nat ensures InnerThere(t', flat', k) { assert InnerThere(t, flat, k); }
  }

  /** A new index page is used for nothing else, and is not the page being added. */
  lemma IndexBrought(t: Table, t': Table, flat: map<nat, nat>, pages: nat -> nat, n: nat, x: nat)
    requires Fresh(pages) && Flat(t, flat) && OneUse(t, flat, pages, n) && Apart(t, flat, pages, n, x)
    requires pages(n) != 0 && Shaped(t') && SameLookups(t, t') && t'.index.Keys == t.index.Keys + {pages(n)}
    ensures Flat(t', flat) && OneUse(t', flat, pages, n + 1) && Apart(t', flat, pages, n + 1, x)
  {
    NewAddress(pages, n);
    assert forall a :: a in t'.index <==> a in t.index.Keys || a == pages(n);
    var m := n + 1;
    forall q: nat ensures LookupIs(t', flat, q) && OwnPage(t', flat, pages, m, q) {
      assert LookupIs(t, flat, q) && OwnPage(t, flat, pages, n, q);
    }
    forall a: nat ensures IndexHanded(t', pages, m, a) { assert IndexHanded(t, pages, n, a); }
  }

  /** A page just handed out is no index page yet. */
  lemma NewIsNoIndex(t: Table, flat: map<nat, nat>, pages: nat -> nat, n: nat)
    requires Fresh(pages) && OneUse(t, flat, pages, n)
    ensures pages(n) !in t.index
  {
    NewAddress(pages, n);
    assert IndexHanded(t, pages, n, pages(n));
  }

  lemma DirectInstalled(t: Table, flat: map<nat, nat>, burnt: set<nat>, pages: nat -> nat, n: nat, pg: nat, x: nat)
    requires Loose(t, flat, burnt, pages, n, pg, x) && pg < NDIR && Carried(t, flat, pg, false)
    ensures Sound(SetSlot(t, pg, x), flat[pg := x], burnt, false, pages, n, pg + 1)
  {
    DirectWrite(t, pg, x);
    SlotSettles(flat, burnt, pg, x);
    SlotFilled(t, SetSlot(t, pg, x), flat, pages, n, pg, x);
    Recarried(t, SetSlot(t, pg, x), flat, pg, x, false);
  }

  lemma IndBrought(t: Table, flat: map<nat, nat>, burnt: set<nat>, pages: nat -> nat, n: nat, pg: nat, x: nat)
    requires Loose(t, flat, burnt, pages, n, pg, x) && pg == NDIR && Carried(t, flat, pg, false) && pages(n) != 0
    ensures LooseInd(SetSlot(NewIndex(t, pages(n)), IND, pages(n)), flat, burnt, pages, n + 1, pg, x)
  {
    NewIsNoIndex(t, flat, pages, n);
    SlotSettles(flat, burnt, pg, x);
    assert SettledAt(flat, burnt, pg, NDIR);
    RootWrite(t, IND, pages(n));
    IndexBrought(t, SetSlot(NewIndex(t, pages(n)), IND, pages(n)), flat, pages, n, x);
  }

  lemma IndInstalled(t: Table, flat: map<nat, nat>, burnt: set<nat>, pages: nat -> nat, n: nat, pg: nat, x: nat)
    requires LooseInd(t, flat, burnt, pages, n, pg, x)
    ensures Slot(t, IND) in t.index && |t.index[Slot(t, IND)]| == PTRS
    ensures Sound(SetEntry(t, Slot(t, IND), pg - NDIR, x), flat[pg := x], burnt, false, pages, n, pg + 1)
  {
    var t' := SetEntry(t, Slot(t, IND), pg - NDIR, x);
    IndWrite(t, pg, x);
    SlotSettles(flat, burnt, pg, x);
    SlotFilled(t, t', flat, pages, n, pg, x);
    assert forall k: nat :: Entry(t', 0, k) == 0;
    var flat' := flat[pg := x];
    forall k: nat ensures InnerThere(t', flat', k) {
      assert SettledAt(flat, burnt, pg, DIND_START + PTRS * k);
    }
  }

  lemma RootBrought(t: Table, flat: map<nat, nat>, burnt: set<nat>, pages: nat -> nat, n: nat, pg: nat, x: nat)
    requires Loose(t, flat, burnt, pages, n, pg, x) && pg == DIND_START && Carried(t, flat, pg, false) && pages(n) != 0
    ensures LooseRoot(SetSlot(NewIndex(t, pages(n)), DIND, pages(n)), flat, burnt, pages, n + 1, pg, x)
  {
    var t' := SetSlot(NewIndex(t, pages(n)), DIND, pages(n));
    NewIsNoIndex(t, flat, pages, n);
    RootWrite(t, DIND, pages(n));
    IndexBrought(t, t', flat, pages, n, x);
    forall k: nat ensures InnerThere(t', flat, k) { assert InnerThere(t, flat, k); }
  }

  lemma InnerBrought(t: Table, flat: map<nat, nat>, burnt: set<nat>, pages: nat -> nat, n: nat, pg: nat, x: nat)
    requires LooseRoot(t, flat, burnt, pages, n, pg, x) && CarriesIndex(pg) && pages(n) != 0
    ensures Slot(t, DIND) in NewIndex(t, pages(n)).index && |NewIndex(t, pages(n)).index[Slot(t, DIND)]| == PTRS
    ensures LooseInner(SetEntry(NewIndex(t, pages(n)), Slot(t, DIND), (pg - DIND_START) / PTRS, pages(n)),
                       flat, burnt, pages, n + 1, pg, x)
  {
    var k := (pg - DIND_START) / PTRS;
    NewIsNoIndex(t, flat, pages, n);
    SlotSettles(flat, burnt, pg, x);
    assert InnerThere(t, flat, k) && pg == DIND_START + PTRS * k;
    InnerWrite(t, k, pages(n));
    var t' := SetEntry(NewIndex(t, pages(n)), Slot(t, DIND), k, pages(n));
    IndexBrought(t, t', flat, pages, n, x);
    forall j: nat | j != k ensures InnerThere(t', flat, j) { assert InnerThere(t, flat, j); }
  }

  lemma InnerFound(t: Table, flat: map<nat, nat>, burnt: set<nat>, pages: nat -> nat, n: nat, pg: nat, x: nat)
    requires LooseRoot(t, flat, burnt, pages, n, pg, x) && !CarriesIndex(pg)
    ensures Inner(t, pg) != 0 <==> Carrier(pg) in flat
    ensures Carrier(pg) in flat <==> Carrier(pg) !in burnt
    ensures Inner(t, pg) != 0 ==> LooseInner(t, flat, burnt, pages, n, pg, x)
  {
    assert InnerThere(t, flat, (pg - DIND_START) / PTRS);
    assert SettledAt(flat, burnt, pg, Carrier(pg));
  }

  lemma InnerInstalled(t: Table, flat: map<nat, nat>, burnt: set<nat>, pages: nat -> nat, n: nat, pg: nat, x: nat)
    requires LooseInner(t, flat, burnt, pages, n, pg, x)
    ensures Inner(t, pg) in t.index && |t.index[Inner(t, pg)]| == PTRS
    ensures Sound(SetEntry(t, Inner(t, pg), (pg - DIND_START) % PTRS, x), flat[pg := x], burnt, false, pages, n, pg + 1)
  {
    DindWrite(t, pg, x);
    SlotSettles(flat, burnt, pg, x);
    var t', flat' := SetEntry(t, Inner(t, pg), (pg - DIND_START) % PTRS, x), flat[pg := x];
    SlotFilled(t, t', flat, pages, n, pg, x);
    assert InnerOk(t, (pg - DIND_START) / PTRS);
    assert forall k: nat :: Entry(t', Slot(t', DIND), k) == Entry(t, Slot(t, DIND), k);
    forall k: nat ensures InnerThere(t', flat', k) {
      if k != (pg - DIND_START) / PTRS { assert InnerThere(t, flat, k); }
    }
  }

  /** A slot that is not installed is burnt. */
  lemma SlotBurnt(t: Table, flat: map<nat, nat>, burnt: set<nat>, rootBurnt: bool, pages: nat -> nat, n: nat, pg: nat)
    requires Flat(t, flat) && OneUse(t, flat, pages, n) && Carried(t, flat, pg, rootBurnt) && Settled(flat, burnt, pg)
    ensures Sound(t, flat, burnt + {pg}, rootBurnt || pg == DIND_START, pages, n + 1, pg + 1)
    ensures Sound(t, flat, burnt + {pg}, rootBurnt || pg == DIND_START, pages, n, pg + 1)
  {
    StillHanded(t, flat, pages, n);
    SlotSettles(flat, burnt, pg, 0);
  }

  lemma InnerBurnt(t: Table, flat: map<nat, nat>, burnt: set<nat>, pages: nat -> nat, n: nat, pg: nat, x: nat)
    requires LooseRoot(t, flat, burnt, pages, n, pg, x)
    ensures Sound(t, flat, burnt + {pg}, false, pages, n + 1, pg + 1)
    ensures Sound(t, flat, burnt + {pg}, false, pages, n, pg + 1)
  {
    StillHanded(t, flat, pages, n);
    SlotSettles(flat, burnt, pg, 0);
  }

  lemma IndFound(t: Table, flat: map<nat, nat>, burnt: set<nat>, rootBurnt: bool, pages: nat -> nat, n: nat, pg: nat, x: nat)
    requires Loose(t, flat, burnt, pages, n, pg, x) && NDIR < pg < DIND_START && Carried(t, flat, pg, rootBurnt)
    ensures Slot(t, IND) == 0 <==> NDIR in burnt
    ensures Slot(t, IND) != 0 ==> LooseInd(t, flat, burnt, pages, n, pg, x)
  {
    assert SettledAt(flat, burnt, pg, NDIR);
  }

  class PageList {
    /** The k-th page the system is asked for: its address, or 0. */
    const pages: nat -> nat
    var requests: nat
    var cursor: nat
    const pglist: array<nat>
    var index: map<nat, seq<nat>>
    ghost var flat: map<nat, nat>
    ghost var burnt: set<nat>
    ghost var rootBurnt: bool

    ghost function T(): Table
      reads this, pglist
    {
      Table(pglist[..], index)
    }

    ghost predicate Valid()
      reads this, pglist
    {
      && pglist.Length == N_PGS && Fresh(pages) && cursor < PG_NUM_MAX
      && Sound(T(), flat, burnt, rootBurnt, pages, requests, cursor)
    }

    /** The adders so far, one per slot, account for all requests and all burnt slots. */
    ghost predicate Booked()
      reads this
    {
      Now() == BooksAt(pages, cursor)
    }

    ghost function Now(): Books
      reads this
    {
      Books(requests, burnt, rootBurnt)
    }

    /** Page `page` is to be installed in slot `pg`, which is used up but not settled. */
    ghost predicate Adding(pg: nat, page: nat)
      reads this, pglist
    {
      && pglist.Length == N_PGS && pg + 1 == cursor < PG_NUM_MAX
      && Loose(T(), flat, burnt, pages, requests, pg, page) && Carried(T(), flat, pg, rootBurnt)
    }

    constructor (pages: nat -> nat)
      requires Fresh(pages)
      ensures Valid() && this.pages == pages && requests == 0 && cursor == 0
      ensures fresh(pglist) && flat == map[] && burnt == {} && !rootBurnt && Booked()
    {
      this.pages := pages;
      requests, cursor := 0, 0;
      pglist := new nat[N_PGS](_ => 0);
      index := map[];
      flat, burnt, rootBurnt := map[], {}, false;
      new;
      assert forall i: nat :: Slot(T(), i) == 0;
      forall k: nat ensures InnerOk(T(), k) && InnerThere(T(), flat, k) {}
      forall q: nat ensures LookupIs(T(), flat, q) && OwnPage(T(), flat, pages, 0, q) && SettledAt(flat, burnt, 0, q) {}
      forall i: nat, j: nat ensures InnersApart(T(), i, j) {}
    }

    method AllocZeroPage() returns (a: nat)
      modifies `requests
      ensures requests == old(requests) + 1 && a == pages(old(requests))
    {
      a := pages(requests);
      requests := requests + 1;
    }

    method InstallDirect(pg: nat, page: nat)
      requires Adding(pg, page) && pg < NDIR
      modifies pglist, `flat
      ensures Valid() && flat == old(flat)[pg := page]
    {
      ghost var t := T();
      DirectInstalled(t, flat, burnt, pages, requests, pg, page);
      pglist[pg] := page;
      assert T() == SetSlot(t, pg, page);
      flat := flat[pg := page];
    }

    /** An entry of an index page is written. */
    method WriteEntry(a: nat, i: nat, page: nat)
      requires a in index && i < |index[a]|
      modifies `index
      ensures T() == SetEntry(old(T()), a, i, page)
    {
      var entries: seq<nat> := index[a][i := page];
      index := index[a := entries];
    }

    /** A fresh index page is hung at slot `r`. */
    method HangIndex(r: nat, a: nat)
      requires r < pglist.Length
      modifies `index, pglist
      ensures T() == SetSlot(NewIndex(old(T()), a), r, a)
    {
      var zeros: seq<nat> := seq(PTRS, _ => 0);
      index := index[a := zeros];
      pglist[r] := a;
    }

    /** The slots of the single indirect page; the first of them brings that page. */
    method InstallInd(pg: nat, page: nat) returns (r: Added)
      requires Adding(pg, page) && NDIR <= pg < DIND_START
      modifies `requests, `index, `flat, `burnt, pglist
      ensures Valid() && r == Placed(pages, old(requests), pg, old(burnt), rootBurnt)
      ensures requests == old(requests) + IndexAsks(pages, old(requests), pg, rootBurnt)
      ensures r.Installed? ==> flat == old(flat)[pg := page] && burnt == old(burnt)
      ensures !r.Installed? ==> flat == old(flat) && burnt == old(burnt) + {pg}
    {
      SlotBurnt(T(), flat, burnt, rootBurnt, pages, requests, pg);
      if pg == NDIR {
        ghost var n, t := requests, T();
        var indirPage := AllocZeroPage();
        if indirPage == 0 {
          burnt := burnt + {pg};
          return NoMem;
        }
        IndBrought(t, flat, burnt, pages, n, pg, page);
        HangIndex(IND, indirPage);
      } else {
        IndFound(T(), flat, burnt, rootBurnt, pages, requests, pg, page);
        if pglist[IND] == 0 {
          burnt := burnt + {pg};
          return Hangs;
        }
      }
      IndInstalled(T(), flat, burnt, pages, requests, pg, page);
      WriteEntry(pglist[IND], pg - NDIR, page);
      flat := flat[pg := page];
      return Installed(pg);
    }

    /** The root of the third level, brought by the adder of its first slot. */
    method BringRoot(pg: nat, ghost page: nat) returns (r: Added)
      requires Adding(pg, page) && DIND_START <= pg
      modifies `requests, `index, `burnt, `rootBurnt, pglist
      ensures r == Installed(pg) || r == NoMem || r == Hangs
      ensures r.Installed? ==> LooseRoot(T(), flat, burnt, pages, requests, pg, page)
      ensures r.Installed? ==> burnt == old(burnt) && !rootBurnt && !old(rootBurnt)
      ensures requests == old(requests) + if pg == DIND_START then 1 else 0
      ensures !r.Installed? ==> Valid() && burnt == old(burnt) + {pg} && rootBurnt
      ensures r.NoMem? <==> pg == DIND_START && pages(old(requests)) == 0
      ensures r.Hangs? <==> pg != DIND_START && old(rootBurnt)
    {
      SlotBurnt(T(), flat, burnt, rootBurnt, pages, requests, pg);
      if pg == DIND_START {
        ghost var n, t := requests, T();
        var dindirPage := AllocZeroPage();
        if dindirPage == 0 {
          burnt, rootBurnt := burnt + {pg}, true;
          return NoMem;
        }
        RootBrought(t, flat, burnt, pages, n, pg, page);
        HangIndex(DIND, dindirPage);
      } else if pglist[DIND] == 0 {
        burnt := burnt + {pg};
        return Hangs;
      }
      return Installed(pg);
    }

    /** The inner index page, brought by the adder of its first slot. */
    method BringInner(pg: nat, ghost page: nat) returns (r: Added)
      requires pglist.Length == N_PGS && pg + 1 == cursor < PG_NUM_MAX && !rootBurnt
      requires LooseRoot(T(), flat, burnt, pages, requests, pg, page)
      modifies `requests, `index, `burnt
      ensures r == Installed(pg) || r == NoMem || r == Hangs
      ensures r.Installed? ==> LooseInner(T(), flat, burnt, pages, requests, pg, page) && burnt == old(burnt)
      ensures !r.Installed? ==> Valid() && burnt == old(burnt) + {pg}
      ensures r.NoMem? <==> CarriesIndex(pg) && pages(old(requests)) == 0
      ensures r.Hangs? <==> !CarriesIndex(pg) && Carrier(pg) in old(burnt)
      ensures requests == old(requests) + if CarriesIndex(pg) then 1 else 0
    {
      InnerBurnt(T(), flat, burnt, pages, requests, pg, page);
      var id := pg - DIND_START;
      var dindirPage := pglist[DIND];
      if id % PTRS == 0 {
        ghost var n, t := requests, T();
        var indirPage := AllocZeroPage();
        if indirPage == 0 {
          burnt := burnt + {pg};
          return NoMem;
        }
        InnerBrought(t, flat, burnt, pages, n, pg, page);
        var zeros: seq<nat> := seq(PTRS, _ => 0);
        index := index[indirPage := zeros];
        WriteEntry(dindirPage, id / PTRS, indirPage);
      } else {
        InnerFound(T(), flat, burnt, pages, requests, pg, page);
        if index[dindirPage][id / PTRS] == 0 {
          burnt := burnt + {pg};
          return Hangs;
        }
      }
      return Installed(pg);
    }

    method InstallInner(pg: nat, page: nat) returns (r: Added)
      requires pglist.Length == N_PGS && pg + 1 == cursor < PG_NUM_MAX && !rootBurnt
      requires LooseRoot(T(), flat, burnt, pages, requests, pg, page)
      modifies `requests, `index, `flat, `burnt
      ensures Valid()
      ensures r == Installed(pg) || r == NoMem || r == Hangs
      ensures r.Installed? ==> flat == old(flat)[pg := page] && burnt == old(burnt)
      ensures !r.Installed? ==> flat == old(flat) && burnt == old(burnt) + {pg}
      ensures r.NoMem? <==> CarriesIndex(pg) && pages(old(requests)) == 0
      ensures r.Hangs? <==> !CarriesIndex(pg) && Carrier(pg) in old(burnt)
      ensures requests == old(requests) + if CarriesIndex(pg) then 1 else 0
    {
      r := BringInner(pg, page);
      if !r.Installed? { return; }
      InnerInstalled(T(), flat, burnt, pages, requests, pg, page);
      var id := pg - DIND_START;
      var indirPage := index[pglist[DIND]][id / PTRS];
      WriteEntry(indirPage, id % PTRS, page);
      flat := flat[pg := page];
    }

    /** The slots of the third level: their adder may have to bring its root, their inner
        index page, or both. */
    method InstallDind(pg: nat, page: nat) returns (r: Added)
      requires Adding(pg, page) && DIND_START <= pg
      modifies `requests, `index, `flat, `burnt, `rootBurnt, pglist
      ensures Valid() && r == Placed(pages, old(requests), pg, old(burnt), old(rootBurnt))
      ensures requests == old(requests) + IndexAsks(pages, old(requests), pg, old(rootBurnt))
      ensures r.Installed? ==> flat == old(flat)[pg := page] && burnt == old(burnt)
      ensures !r.Installed? ==> flat == old(flat) && burnt == old(burnt) + {pg}
      ensures rootBurnt == (old(rootBurnt) || (pg == DIND_START && pages(old(requests)) == 0))
    {
      r := BringRoot(pg, page);
      if r.Installed? { r := InstallInner(pg, page); }
    }

    /** The three cases of cluster_add_page by the slot's number. */
    method Place(pg: nat, page: nat) returns (r: Added)
      requires Adding(pg, page)
      modifies `requests, `index, `flat, `burnt, `rootBurnt, pglist
      ensures Valid() && r == Placed(pages, old(requests), pg, old(burnt), old(rootBurnt))
      ensures requests == old(requests) + IndexAsks(pages, old(requests), pg, old(rootBurnt))
      ensures r.Installed? ==> flat == old(flat)[pg := page] && burnt == old(burnt)
      ensures !r.Installed? ==> flat == old(flat) && burnt == old(burnt) + {pg}
      ensures rootBurnt == (old(rootBurnt) || (pg == DIND_START && pages(old(requests)) == 0))
    {
      if pg < NDIR {
        InstallDirect(pg, page);
        return Installed(pg);
      } else if pg - NDIR < PTRS {
        r := InstallInd(pg, page);
      } else {
        r := InstallDind(pg, page);
      }
    }

    /** A slot just used up gets its page, if the system grants one. */
    method FillSlot(pg: nat) returns (r: Added)
      requires pglist.Length == N_PGS && Fresh(pages) && pg + 1 == cursor < PG_NUM_MAX
      requires Sound(T(), flat, burnt, rootBurnt, pages, requests, pg)
      modifies `requests, `index, `flat, `burnt, `rootBurnt, pglist
      ensures Valid() && r == Outcome(pages, old(requests), pg, old(burnt), old(rootBurnt))
      ensures requests == old(requests) + Asks(pages, old(requests), pg, old(rootBurnt))
      ensures flat == if r.Installed? then old(flat)[pg := pages(old(requests))] else old(flat)
      ensures burnt == if r.Installed? then old(burnt) else old(burnt) + {pg}
      ensures rootBurnt == (old(rootBurnt) || (pg == DIND_START && RootRefused(pages, old(requests))))
    {
      SlotBurnt(T(), flat, burnt, rootBurnt, pages, requests, pg);
      ghost var t, n := T(), requests;
      var page := AllocZeroPage();
      if page == 0 {
        burnt, rootBurnt := burnt + {pg}, rootBurnt || pg == DIND_START;
        return NoMem;
      }
      PageIsLoose(t, flat, burnt, pages, n, pg);
      r := Place(pg, page);
    }

    /** cluster_add_page as far as the table is concerned: the cursor's slot is used up
        whatever happens, and an adder that finds no index page waits for ever. */
    method AddPage() returns (r: Added)
      requires Valid()
      modifies this, pglist
      ensures Valid() && r == Outcome(pages, old(requests), old(cursor), old(burnt), old(rootBurnt))
      ensures Now() == if r.Full? then old(Now()) else AfterSlot(pages, old(cursor), old(Now()))
      ensures cursor == if r.Full? then old(cursor) else old(cursor) + 1
      ensures flat == if r.Installed? then old(flat)[old(cursor) := pages(old(requests))] else old(flat)
    {
      cursor := cursor + 1;
      var pg := cursor;
      if PG_NUM_MAX <= pg {
        cursor := cursor - 1;
        return Full;
      }
      ghost var b := Now();
      r := FillSlot(pg - 1);
      assert Now() == AfterSlot(pages, pg - 1, b);
    }

    /** blk_id_2_ptr: the three levels are followed; where a page is missing the source
        waits for it. */
    method BlkIdToPtr(id: nat) returns (r: Found)
      requires Valid()
      ensures r == if id / 128 in flat then At(flat[id / 128] + id % 128 * 32) else NeverFound
    {
      var pg := id / BLK_PER_PG;
      assert LookupIs(T(), flat, pg) && OwnPage(T(), flat, pages, requests, pg);
      var page := 0;
      if pg < NDIR {
        page := pglist[pg];
        if page == 0 { return NeverFound; }
      } else if pg - NDIR < PTRS {
        var indirPage := pglist[IND];
        if indirPage == 0 { return NeverFound; }
        page := index[indirPage][pg - NDIR];
        if page == 0 { return NeverFound; }
      } else if pg - DIND_START < PTRS * PTRS {
        var dindirPage := pglist[DIND];
        if dindirPage == 0 { return NeverFound; }
        var indirPage := index[dindirPage][(pg - DIND_START) / PTRS];
        if indirPage == 0 { return NeverFound; }
        assert InnerOk(T(), (pg - DIND_START) / PTRS);
        page := index[indirPage][(pg - DIND_START) % PTRS];
        if page == 0 { return NeverFound; }
      } else {
        return NeverFound;
      }
      return At(page + id % BLK_PER_PG * BLK_SIZE);
    }

    method VecIdToPtr(id: nat) returns (r: Found)
      requires Valid()
      ensures r == if id / 512 in flat then At(flat[id / 512] + id / 4 % 128 * 32 + id % 4 * 8) else NeverFound
    {
      r := BlkIdToPtr(id / VEC_PER_BLK);
      if r.At? { r := At(r.addr + id % VEC_PER_BLK * VBLK_SIZE); }
    }

    method DbIdToPtr(id: nat) returns (r: Found)
      requires Valid()
      ensures r == if id / 256 in flat then At(flat[id / 256] + id / 2 % 128 * 32 + id % 2 * 16) else NeverFound
    {
      r := BlkIdToPtr(id / DB_PER_BLK);
      if r.At? { r := At(r.addr + id % DB_PER_BLK * DBLK_SIZE); }
    }

    /** The loop that links the blocks of page `pg`, installed at `page`: what it writes
        where, in order.  Following the links by lookup leads through the page, block after
        block, and then to what headed the free list. */
    method LinkBlocks(pg: nat, page: nat, oldHead: nat) returns (w: seq<NextWrite>)
      requires Valid() && pg in flat && flat[pg] == page
      ensures |w| == 128 && w[127].next == oldHead
      ensures forall i :: 0 <= i < 127 ==> LinksNext(w, i, page, pg)
      ensures forall i :: 0 <= i < 128 ==> WrittenWhereFound(w, i, flat, pg)
    {
      var id := pg * BLK_PER_PG;
      var blk := page;
      w := [];
      for i := 1 to BLK_PER_PG
        invariant blk == page + (i - 1) * 32 && |w| == i - 1
        invariant forall j :: 0 <= j < i - 1 ==> LinksNext(w, j, page, pg)
      {
        ghost var before := w;
        w := w + [NextWrite(blk, id + i)];
        forall j | 0 <= j < i ensures LinksNext(w, j, page, pg) { assert j < i - 1 ==> LinksNext(before, j, page, pg); }
        blk := page + i * BLK_SIZE;
      }
      ghost var before := w;
      w := w + [NextWrite(blk, oldHead)];
      forall i | 0 <= i < 128 ensures (i < 127 ==> LinksNext(w, i, page, pg)) && WrittenWhereFound(w, i, flat, pg) {
        BlkOfPage(flat, pg, i);
        assert i < 127 ==> LinksNext(before, i, page, pg);
      }
    }

    /** Two different vecs that are found lie apart, and so do two different dbs. */
    lemma FoundApart(id: nat, jd: nat)
      requires Valid() && id != jd
      ensures id / VEC_PER_BLK / BLK_PER_PG in flat && jd / VEC_PER_BLK / BLK_PER_PG in flat ==>
                Disjoint(ItemAddr(flat, VBLK_SIZE, id), VBLK_SIZE, ItemAddr(flat, VBLK_SIZE, jd), VBLK_SIZE)
      ensures id / DB_PER_BLK / BLK_PER_PG in flat && jd / DB_PER_BLK / BLK_PER_PG in flat ==>
                Disjoint(ItemAddr(flat, DBLK_SIZE, id), DBLK_SIZE, ItemAddr(flat, DBLK_SIZE, jd), DBLK_SIZE)
    {
      TableIsSpread(T(), flat, pages, requests);
      if id / VEC_PER_BLK / BLK_PER_PG in flat && jd / VEC_PER_BLK / BLK_PER_PG in flat {
        ItemsApart(flat, VBLK_SIZE, id, VBLK_SIZE, jd);
      }
      if id / DB_PER_BLK / BLK_PER_PG in flat && jd / DB_PER_BLK / BLK_PER_PG in flat {
        ItemsApart(flat, DBLK_SIZE, id, DBLK_SIZE, jd);
      }
    }

    /** A vec and a db of different blocks that are found lie apart. */
    lemma FoundKindsApart(id: nat, jd: nat)
      requires Valid() && id / VEC_PER_BLK != jd / DB_PER_BLK
      requires id / VEC_PER_BLK / BLK_PER_PG in flat && jd / DB_PER_BLK / BLK_PER_PG in flat
      ensures Disjoint(ItemAddr(flat, VBLK_SIZE, id), VBLK_SIZE, ItemAddr(flat, DBLK_SIZE, jd), DBLK_SIZE)
    {
      TableIsSpread(T(), flat, pages, requests);
      ItemsApart(flat, VBLK_SIZE, id, DBLK_SIZE, jd);
    }
  }

  /** Any number of adds: what became of every slot is what `Granted` says. */
  method AddPages(p: PageList, k: nat)
    requires p.Valid() && p.Booked()
    modifies p, p.pglist
    ensures p.Valid() && p.Booked()
  {
    for i := 0 to k
      invariant p.Valid() && p.Booked()
    {
      BooksNext(p.pages, p.cursor, p.Now());
      var r := p.AddPage();
    }
  }

  /** A system that refuses one page: the index page asked for at slot NDIR. */
  function AllButOne(i: nat): nat {
    if i == NDIR + 1 then 0 else (i + 1) * PG_SIZE
  }

  method FillDirectSlots() returns (p: PageList)
    ensures fresh(p) && fresh(p.pglist) && p.Valid() && p.pages == AllButOne
    ensures p.cursor == NDIR && p.requests == NDIR && p.burnt == {} && !p.rootBurnt
  {
    p := new PageList(AllButOne);
    var i := 0;
    while i < NDIR
      invariant i <= NDIR && p.Valid() && fresh(p) && fresh(p.pglist) && p.pages == AllButOne
      invariant p.cursor == i && p.requests == i && p.burnt == {} && !p.rootBurnt
    {
      var added := p.AddPage();
      i := i + 1;
    }
  }

  lemma RefusedThenBlocked()
    ensures Outcome(AllButOne, NDIR, NDIR, {}, false) == NoMem
    ensures AfterSlot(AllButOne, NDIR, Books(NDIR, {}, false)) == Books(NDIR + 2, {NDIR}, false)
    ensures Outcome(AllButOne, NDIR + 2, NDIR + 1, {NDIR}, false) == Hangs
  {
  }

  /** One refused index page, and the next adder waits for it for ever. */
  method RefusalHangs() returns (r: Added, s: Added)
    ensures r == NoMem && s == Hangs
  {
    RefusedThenBlocked();
    var p := FillDirectSlots();
    r := p.AddPage();
    s := p.AddPage();
  }

  /** The page an adder was just granted is loose. */
  lemma PageIsLoose(t: Table, flat: map<nat, nat>, burnt: set<nat>, pages: nat -> nat, n: nat, pg: nat)
    requires Fresh(pages) && Flat(t, flat) && OneUse(t, flat, pages, n) && Settled(flat, burnt, pg) && pages(n) != 0
    ensures Loose(t, flat, burnt, pages, n + 1, pg, pages(n))
  {
    NewIsNoIndex(t, flat, pages, n);
    StillHanded(t, flat, pages, n);
    NewAddress(pages, n);
    forall q: nat ensures NotPage(flat, q, pages(n)) { assert OwnPage(t, flat, pages, n, q); }
  }

  /** A burnt slot that was to carry an index page blocks exactly the slots of that page
      behind it; a refused root blocks the whole third level.  Nothing else blocks. */
  lemma BlockedExactly(s: nat, burnt: set<nat>, rootBurnt: bool)
    ensures Blocked(s, burnt, rootBurnt) <==>
              (DIND_START < s && rootBurnt) || exists c :: c in burnt && CarriesIndex(c) && c < s < c + PTRS
  {
    if NDIR < s && !CarriesIndex(s) {
      var c := Carrier(s);
      assert CarriesIndex(c) && c < s < c + PTRS;
      forall d: nat | CarriesIndex(d) && d < s < d + PTRS ensures d == c {}
    }
  }

  // ---------------------------------------------------------------- addresses

  function BlkAddr(flat: map<nat, nat>, b: nat): nat
    requires b / BLK_PER_PG in flat
  {
    flat[b / BLK_PER_PG] + b % BLK_PER_PG * BLK_SIZE
  }

  /** Block `i` of a page lies `i` blocks behind the page's start. */
  lemma BlkOfPage(flat: map<nat, nat>, pg: nat, i: nat)
    requires pg in flat && i < 128
    ensures (pg * 128 + i) / 128 == pg && BlkAddr(flat, pg * 128 + i) == flat[pg] + i * 32
  {
    DivModOf(pg, 128, i);
  }

  /** The addresses of vecs and dbs, from the page's. */
  lemma ItemOfPage(flat: map<nat, nat>, id: nat)
    ensures id / 512 == id / 4 / 128 && id / 256 == id / 2 / 128
    ensures id / 512 in flat ==> PerBlk(8) == 4 && ItemAddr(flat, 8, id) == flat[id / 512] + id / 4 % 128 * 32 + id % 4 * 8
    ensures id / 256 in flat ==> PerBlk(16) == 2 && ItemAddr(flat, 16, id) == flat[id / 256] + id / 2 % 128 * 32 + id % 2 * 16
  {
  }

  /** How many items of `size` bytes a block holds; what is left over is wasted. */
  function PerBlk(size: nat): (k: nat)
    requires 0 < size <= BLK_SIZE
    ensures 0 < k && k * size <= BLK_SIZE
  {
    FitsOnce(size);
    BLK_SIZE / size
  }

  lemma FitsOnce(size: nat)
    requires 0 < size <= BLK_SIZE
    ensures 0 < BLK_SIZE / size && BLK_SIZE / size * size <= BLK_SIZE
  {
    assert BLK_SIZE == BLK_SIZE / size * size + BLK_SIZE % size;
  }

  /** The address of item `id` when every block is cut into items of `size` bytes. */
  function ItemAddr(flat: map<nat, nat>, size: nat, id: nat): nat
    requires 0 < size <= BLK_SIZE && id / PerBlk(size) / BLK_PER_PG in flat
  {
    BlkAddr(flat, id / PerBlk(size)) + id % PerBlk(size) * size
  }

  /** Bytes a .. a+n-1 and b .. b+m-1 share none. */
  predicate Disjoint(a: nat, n: nat, b: nat, m: nat) {
    a + n <= b || b + m <= a
  }

  /** The pages of a table lie apart. */
  ghost predicate Spread(flat: map<nat, nat>) {
    forall q: nat, r: nat :: q in flat && r in flat && q != r ==> PagesApart(flat[q], flat[r])
  }

  lemma TableIsSpread(t: Table, flat: map<nat, nat>, pages: nat -> nat, n: nat)
    requires Fresh(pages) && OneUse(t, flat, pages, n)
    ensures Spread(flat)
  {
    forall q: nat, r: nat | q in flat && r in flat && q != r ensures PagesApart(flat[q], flat[r]) {
      assert OwnPage(t, flat, pages, n, q) && OwnPage(t, flat, pages, n, r) && PagesDiffer(flat, q, r);
      var i: nat :| i < n && pages(i) == flat[q];
      var j: nat :| j < n && pages(j) == flat[r];
      assert flat[q] != flat[r];
    }
  }

  /** Blocks lie inside their page, and different blocks apart. */
  lemma BlksApart(flat: map<nat, nat>, b: nat, c: nat)
    requires Spread(flat) && b / BLK_PER_PG in flat && c / BLK_PER_PG in flat
    ensures flat[b / BLK_PER_PG] <= BlkAddr(flat, b) && BlkAddr(flat, b) + BLK_SIZE <= flat[b / BLK_PER_PG] + PG_SIZE
    ensures b != c ==> Disjoint(BlkAddr(flat, b), BLK_SIZE, BlkAddr(flat, c), BLK_SIZE)
  {
    if b / BLK_PER_PG != c / BLK_PER_PG {
      assert PagesApart(flat[b / BLK_PER_PG], flat[c / BLK_PER_PG]);
    }
  }

  /** An item lies inside its block, whether or not its size divides the block's. */
  lemma ItemInBlk(flat: map<nat, nat>, size: nat, id: nat)
    requires 0 < size <= BLK_SIZE && id / PerBlk(size) / BLK_PER_PG in flat
    ensures BlkAddr(flat, id / PerBlk(size)) <= ItemAddr(flat, size, id)
    ensures ItemAddr(flat, size, id) + size <= BlkAddr(flat, id / PerBlk(size)) + BLK_SIZE
  {
    var k, i := PerBlk(size), id % PerBlk(size);
    ScaledGap(i, k, size);
  }

  lemma SameBlkApart(k: nat, size: nat, id: nat, jd: nat)
    requires 0 < k && id != jd && id / k == jd / k
    ensures Disjoint(id % k * size, size, jd % k * size, size)
  {
    assert id == id / k * k + id % k && jd == jd / k * k + jd % k;
    if id % k < jd % k { ScaledGap(id % k, jd % k, size); } else { ScaledGap(jd % k, id % k, size); }
  }

  /** Different items of one size lie apart; items of any sizes in different blocks do. */
  lemma ItemsApart(flat: map<nat, nat>, size: nat, id: nat, other: nat, jd: nat)
    requires Spread(flat) && 0 < size <= BLK_SIZE && 0 < other <= BLK_SIZE
    requires id / PerBlk(size) / BLK_PER_PG in flat && jd / PerBlk(other) / BLK_PER_PG in flat
    requires id / PerBlk(size) != jd / PerBlk(other) || (size == other && id != jd)
    ensures Disjoint(ItemAddr(flat, size, id), size, ItemAddr(flat, other, jd), other)
  {
    ItemInBlk(flat, size, id);
    ItemInBlk(flat, other, jd);
    BlksApart(flat, id / PerBlk(size), jd / PerBlk(other));
    if id / PerBlk(size) == jd / PerBlk(other) { SameBlkApart(PerBlk(size), size, id, jd); }
  }

  /** The i-th item carved out of block `b` has number b * k + i and the address the carving
      loop writes. */
  lemma CarvedAddress(flat: map<nat, nat>, size: nat, b: nat, i: nat)
    requires 0 < size <= BLK_SIZE && b / BLK_PER_PG in flat && i < PerBlk(size)
    ensures (b * PerBlk(size) + i) / PerBlk(size) == b
    ensures ItemAddr(flat, size, b * PerBlk(size) + i) == BlkAddr(flat, b) + i * size
  {
    DivModOf(b, PerBlk(size), i);
  }
}

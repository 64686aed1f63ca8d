/** Ages on an 18-bit clock, and the walk that frees the aged part of a buffer. */
module TickAge {
  /** 1 << SPT_BUF_TICK_BITS. */
  const WINDOW: nat := 0x4_0000

  function Masked(tick: nat): (m: nat)
    ensures m < WINDOW
  {
    tick % WINDOW
  }

  /** The reader's tick, widened by a wrap if it is behind the stamp. */
  function Widened(tick: nat, stamp: nat): (w: nat)
    ensures stamp < WINDOW ==> stamp <= w
  {
    if tick < stamp then tick + WINDOW else tick
  }

  /** The test of the two alloc-from-buf functions, on masked values. */
  predicate Expired(tick: nat, stamp: nat)
    requires stamp < WINDOW
  {
    Widened(tick, stamp) - stamp >= 2
  }

  /** The masked test sees the elapsed ticks modulo the window: it never accepts a young
      stamp, however often the clock wrapped, and accepts every aged one younger than a
      window. */
  lemma ExpiredIsAge(now: nat, stamp: nat)
    requires stamp <= now
    ensures Widened(Masked(now), Masked(stamp)) - Masked(stamp) == (now - stamp) % WINDOW
    ensures Expired(Masked(now), Masked(stamp)) <==> (now - stamp) % WINDOW >= 2
    ensures Expired(Masked(now), Masked(stamp)) ==> now - stamp >= 2
    ensures now - stamp < WINDOW ==> (Expired(Masked(now), Masked(stamp)) <==> now - stamp >= 2)
  {
    var a, b := now / WINDOW, stamp / WINDOW;
    assert now == a * WINDOW + Masked(now) && stamp == b * WINDOW + Masked(stamp);
  }

  /** How many nodes the buf_free loop frees: `stamps` are the masked stamps of all nodes
      but the tail.  The widened tick is kept for the nodes that follow. */
  function Walk(tick: nat, stamps: seq<nat>): (k: nat)
    requires forall s :: s in stamps ==> s < WINDOW
    ensures k <= |stamps|
    decreases |stamps|
  {
    if stamps == [] then 0
    else
      assert forall s :: s in stamps[1..] ==> s in stamps;
      var w := Widened(tick, stamps[0]);
      if w - stamps[0] < 2 then 0 else 1 + Walk(w, stamps[1..])
  }

  /** How many leading stamps are two ticks old or older. */
  function Aged(now: nat, stamps: seq<nat>): (k: nat)
    ensures k <= |stamps|
    ensures forall i :: 0 <= i < k ==> now >= stamps[i] + 2
    ensures k < |stamps| ==> now < stamps[k] + 2
  {
    if stamps == [] || now < stamps[0] + 2 then 0 else 1 + Aged(now, stamps[1..])
  }

  function MaskedAll(stamps: seq<nat>): (m: seq<nat>)
    ensures |m| == |stamps|
    ensures forall s :: s in m ==> s < WINDOW
  {
    seq(|stamps|, i requires 0 <= i < |stamps| => Masked(stamps[i]))
  }

  /** The first turn of the walk. */
  lemma WalkHead(tick: nat, stamps: seq<nat>)
    requires stamps != []
    ensures var m := Masked(stamps[0]); var w := Widened(tick, m);
      Walk(tick, MaskedAll(stamps)) == if w - m < 2 then 0 else 1 + Walk(w, MaskedAll(stamps[1..]))
  {
    assert MaskedAll(stamps)[1..] == MaskedAll(stamps[1..]);
  }

  /** Stamps in queue order, none in the future, none a window old. */
  ghost predicate Queued(now: nat, stamps: seq<nat>) {
    && (forall i, j :: 0 <= i < j < |stamps| ==> stamps[i] <= stamps[j])
    && (forall i :: 0 <= i < |stamps| ==> stamps[i] <= now < stamps[i] + WINDOW)
  }

  /** The clock wrapped between the head's stamp and that of the first young node. */
  ghost predicate Straddles(now: nat, stamps: seq<nat>) {
    var y := Aged(now, stamps);
    y < |stamps| && Masked(now) < Masked(stamps[0]) && Masked(stamps[y]) <= Masked(now)
  }

  /** Once widened the walk stops only at a young stamp of the previous window. */
  lemma {:induction false} WalkWidened(now: nat, stamps: seq<nat>)
    requires Queued(now, stamps)
    ensures Aged(now, stamps) <= Walk(Masked(now) + WINDOW, MaskedAll(stamps))
    ensures Walk(Masked(now) + WINDOW, MaskedAll(stamps)) == Aged(now, stamps) <==>
              var y := Aged(now, stamps); y == |stamps| || Masked(now) < Masked(stamps[y])
  {
    if stamps != [] {
      ExpiredIsAge(now, stamps[0]);
      assert MaskedAll(stamps)[1..] == MaskedAll(stamps[1..]);
      if now >= stamps[0] + 2 { WalkWidened(now, stamps[1..]); }
    }
  }

  lemma {:induction false} WalkFlat(now: nat, stamps: seq<nat>)
    requires Queued(now, stamps)
    requires stamps != [] ==> Masked(stamps[0]) <= Masked(now)
    ensures Walk(Masked(now), MaskedAll(stamps)) == Aged(now, stamps)
  {
    if stamps != [] {
      ExpiredIsAge(now, stamps[0]);
      assert MaskedAll(stamps)[1..] == MaskedAll(stamps[1..]);
      if now >= stamps[0] + 2 {
        if |stamps| > 1 { SameWindow(now, stamps[0], stamps[1]); }
        WalkFlat(now, stamps[1..]);
      }
    }
  }

  lemma SameWindow(now: nat, s: nat, s': nat)
    requires s <= s' <= now < s + WINDOW && Masked(s) <= Masked(now)
    ensures Masked(s') <= Masked(now)
  {
    ExpiredIsAge(now, s);
    ExpiredIsAge(now, s');
  }

  /** The head's stamp is behind the wrap: the walk widens its tick there and then. */
  lemma WalkFirstWidens(tick: nat, stamps: seq<nat>)
    requires stamps != [] && tick < Masked(stamps[0])
    ensures Walk(tick, MaskedAll(stamps)) == Walk(tick + WINDOW, MaskedAll(stamps))
  {
    WalkHead(tick, stamps);
    WalkHead(tick + WINDOW, stamps);
  }

  /** The walk frees at least the aged prefix, and exactly it unless the clock wrapped
      between the head's stamp and the first young node's: then it frees young nodes. */
  lemma WalkExactly(now: nat, stamps: seq<nat>)
    requires Queued(now, stamps)
    ensures Aged(now, stamps) <= Walk(Masked(now), MaskedAll(stamps))
    ensures Walk(Masked(now), MaskedAll(stamps)) == Aged(now, stamps) <==> !Straddles(now, stamps)
  {
    if stamps == [] || Masked(stamps[0]) <= Masked(now) {
      WalkFlat(now, stamps);
    } else {
      WalkFirstWidens(Masked(now), stamps);
      WalkWidened(now, stamps);
    }
  }

  /** A queue stamped within the clock's present window is freed exactly. */
  lemma WalkInOneWindow(now: nat, stamps: seq<nat>)
    requires Queued(now, stamps)
    requires forall s :: s in stamps ==> s / WINDOW == now / WINDOW
    ensures Walk(Masked(now), MaskedAll(stamps)) == Aged(now, stamps)
  {
    if stamps != [] {
      var s := stamps[0];
      assert s in stamps;
      assert now == (now / WINDOW) * WINDOW + Masked(now) && s == (s / WINDOW) * WINDOW + Masked(s);
    }
    WalkExactly(now, stamps);
  }

  // ---------------------------------------------------------------- any stamps

  /** The first stamp behind the wrap as seen from `now`, where the walk widens its tick. */
  function FirstBehind(now: nat, stamps: seq<nat>): (j: nat)
    ensures j <= |stamps|
    ensures forall i :: 0 <= i < j ==> Masked(stamps[i]) <= Masked(now)
    ensures j < |stamps| ==> Masked(now) < Masked(stamps[j])
  {
    if stamps == [] || Masked(now) < Masked(stamps[0]) then 0 else 1 + FirstBehind(now, stamps[1..])
  }

  /** A walk with the plain tick gets past this stamp. */
  predicate PassesPlain(now: nat, stamp: nat) {
    Masked(stamp) + 2 <= Masked(now)
  }

  /** A walk with the widened tick gets past this stamp. */
  predicate PassesWide(now: nat, stamp: nat) {
    Masked(stamp) <= Masked(now) || Masked(stamp) + 2 <= Masked(now) + WINDOW
  }

  /** A walk over these stamps runs into the young ones: it widens its tick on the way to
      the first of them, is not stopped before, and finds that one stamped in the present
      window. */
  ghost predicate Slips(now: nat, stamps: seq<nat>) {
    var y, j := Aged(now, stamps), FirstBehind(now, stamps);
    && y < |stamps| && Masked(stamps[y]) <= Masked(now) && j < y
    && (forall i :: 0 <= i < j ==> PassesPlain(now, stamps[i]))
    && (forall i :: j <= i < y ==> PassesWide(now, stamps[i]))
  }

  /** Stamps in queue order, none in the future, however old. */
  ghost predicate InOrder(now: nat, stamps: seq<nat>) {
    && (forall i, j :: 0 <= i < j < |stamps| ==> stamps[i] <= stamps[j])
    && (forall i :: 0 <= i < |stamps| ==> stamps[i] <= now)
  }

  /** With the widened tick the walk goes past the aged part iff nothing there stops it
      and the first young stamp is of the present window. */
  lemma {:induction false} WideSlips(now: nat, stamps: seq<nat>)
    requires InOrder(now, stamps)
    ensures Aged(now, stamps) < Walk(Masked(now) + WINDOW, MaskedAll(stamps)) <==>
              var y := Aged(now, stamps);
              && y < |stamps| && Masked(stamps[y]) <= Masked(now)
              && (forall i :: 0 <= i < y ==> PassesWide(now, stamps[i]))
  {
    if stamps != [] {
      var rest := stamps[1..];
      ExpiredIsAge(now, stamps[0]);
      assert MaskedAll(stamps)[1..] == MaskedAll(rest);
      if now >= stamps[0] + 2 {
        WideSlips(now, rest);
        assert forall i :: 1 <= i < |stamps| ==> stamps[i] == rest[i - 1];
        assert forall i :: 0 <= i < |rest| ==> rest[i] == stamps[i + 1];
      }
    }
  }

  /** The head is behind the wrap: the walk is wide from there on. */
  lemma SlipsBehind(now: nat, stamps: seq<nat>)
    requires InOrder(now, stamps) && stamps != [] && Masked(now) < Masked(stamps[0])
    ensures Aged(now, stamps) < Walk(Masked(now), MaskedAll(stamps)) <==> Slips(now, stamps)
  {
    WideSlips(now, stamps);
    WalkFirstWidens(Masked(now), stamps);
  }

  /** The head is not: the walk goes on over the rest as it began, if it goes on. */
  lemma SlipsAhead(now: nat, stamps: seq<nat>)
    requires InOrder(now, stamps) && stamps != [] && now >= stamps[0] + 2 && Masked(stamps[0]) <= Masked(now)
    ensures Slips(now, stamps) <==> PassesPlain(now, stamps[0]) && Slips(now, stamps[1..])
  {
    var rest := stamps[1..];
    var y, j := Aged(now, rest), FirstBehind(now, rest);
    assert Aged(now, stamps) == y + 1 && FirstBehind(now, stamps) == j + 1;
    assert forall i :: 1 <= i < |stamps| ==> stamps[i] == rest[i - 1];
    assert forall i :: 0 <= i < |rest| ==> rest[i] == stamps[i + 1];
  }

  /** For stamps of any age: the walk frees young nodes exactly when it slips. */
  lemma {:induction false} SlipsExactly(now: nat, stamps: seq<nat>)
    requires InOrder(now, stamps)
    ensures Aged(now, stamps) < Walk(Masked(now), MaskedAll(stamps)) <==> Slips(now, stamps)
  {
    if stamps != [] {
      if Masked(now) < Masked(stamps[0]) {
        SlipsBehind(now, stamps);
      } else {
        WalkHead(Masked(now), stamps);
        ExpiredIsAge(now, stamps[0]);
        if now >= stamps[0] + 2 {
          SlipsAhead(now, stamps);
          SlipsExactly(now, stamps[1..]);
        }
      }
    }
  }

  /** Among stamps less than a window old, slipping is straddling. */
  lemma SlipsIsStraddles(now: nat, stamps: seq<nat>)
    requires Queued(now, stamps)
    ensures Slips(now, stamps) <==> Straddles(now, stamps)
  {
    SlipsExactly(now, stamps);
    WalkExactly(now, stamps);
  }

  // ---------------------------------------------------------------- a slipping walk

  /** `k` nodes stamped at `now`. */
  function Fresh(now: nat, k: nat): (s: seq<nat>)
    ensures |s| == k && forall i :: 0 <= i < k ==> s[i] == now
  {
    seq(k, _ => now)
  }

  /** With the widened tick the walk frees nodes stamped just now, all of them. */
  lemma {:induction false} WalkFresh(now: nat, k: nat)
    ensures Walk(Masked(now) + WINDOW, MaskedAll(Fresh(now, k))) == k
  {
    if k > 0 {
      assert MaskedAll(Fresh(now, k))[1..] == MaskedAll(Fresh(now, k - 1));
      WalkFresh(now, k - 1);
    }
  }

  /** One aged head stamped before a wrap and, behind it, `k` nodes stamped just now: the
      walk should free one node and frees all k + 1. */
  lemma StraddleExample(k: nat)
    requires k > 0
    ensures var now := WINDOW + 1; var stamps := [WINDOW - 1] + Fresh(now, k);
      && Queued(now, stamps) && Straddles(now, stamps) && Slips(now, stamps)
      && Aged(now, stamps) == 1 && Walk(Masked(now), MaskedAll(stamps)) == 1 + k
  {
    var now := WINDOW + 1;
    var stamps := [WINDOW - 1] + Fresh(now, k);
    assert stamps[1..] == Fresh(now, k);
    assert Aged(now, Fresh(now, k)) == 0;
    assert MaskedAll(stamps)[1..] == MaskedAll(Fresh(now, k));
    assert Masked(now) == 1 && Masked(WINDOW - 1) == WINDOW - 1;
    WalkFresh(now, k);
    SlipsIsStraddles(now, stamps);
  }
}

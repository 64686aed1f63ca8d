/** Stacks of ids threaded through a link table: a head and one link per id. */
module LinkedStacks {
  /** The list terminator, 0xffffffff in the source. */
  const NIL: int := -1
  const TWO32: int := 0x1_0000_0000

  /** atomic_add on an unsigned counter. */
  function Add32(x: nat, d: int): nat {
    (x + d) % TWO32
  }

  function First(list: seq<nat>): int {
    if list == [] then NIL else list[0]
  }

  function LinkOf(list: seq<nat>, i: nat): int
    requires i < |list|
  {
    if i + 1 < |list| then list[i + 1] else NIL
  }

  ghost predicate NoDup(list: seq<nat>) {
    forall i, j :: 0 <= i < j < |list| ==> list[i] != list[j]
  }

  ghost predicate LinkAt(link: map<nat, int>, list: seq<nat>, i: nat) {
    i < |list| ==> list[i] in link && link[list[i]] == LinkOf(list, i)
  }

  /** Following the links from `head` visits exactly `list`, each id once. */
  ghost predicate Spells(link: map<nat, int>, head: int, list: seq<nat>) {
    head == First(list) && NoDup(list) && forall i: nat :: LinkAt(link, list, i)
  }

  /** The links inside a chain, all but the last one's. */
  ghost predicate Chained(link: map<nat, int>, chain: seq<nat>) {
    forall i: nat :: i + 1 < |chain| ==> LinkAt(link, chain, i)
  }

  /** Writes elsewhere leave a stack alone. */
  lemma SpellsFrame(link: map<nat, int>, link': map<nat, int>, head: int, list: seq<nat>)
    requires Spells(link, head, list)
    requires forall id :: id in list && id in link ==> id in link' && link'[id] == link[id]
    ensures Spells(link', head, list)
  {
    forall i: nat ensures LinkAt(link', list, i) {
      assert LinkAt(link, list, i);
      assert i < |list| ==> list[i] in list;
    }
  }

  /** Writes elsewhere, the last link included, leave a chain alone. */
  lemma ChainedFrame(link: map<nat, int>, link': map<nat, int>, chain: seq<nat>)
    requires Chained(link, chain) && NoDup(chain) && chain != []
    requires forall id :: id in chain && id in link && id != chain[|chain| - 1] ==> id in link' && link'[id] == link[id]
    ensures Chained(link', chain)
  {
    forall i: nat | i + 1 < |chain| ensures LinkAt(link', chain, i) {
      assert LinkAt(link, chain, i) && chain[i] in chain;
    }
  }

  lemma PopSpells(link: map<nat, int>, list: seq<nat>)
    requires list != [] && Spells(link, list[0], list)
    ensures list[0] in link && link[list[0]] == First(list[1..])
    ensures Spells(link, First(list[1..]), list[1..])
    ensures forall id :: id in list[1..] <==> id in list && id != list[0]
  {
    var rest := list[1..];
    assert LinkAt(link, list, 0);
    forall i: nat ensures LinkAt(link, rest, i) {
      assert LinkAt(link, list, i + 1);
    }
    assert list == [list[0]] + rest;
  }

  /** Splicing a chain whose last link is the old head. */
  lemma PushSpells(link: map<nat, int>, chain: seq<nat>, head: int, list: seq<nat>)
    requires Spells(link, head, list) && Chained(link, chain) && NoDup(chain) && chain != []
    requires forall id :: id in chain ==> id !in list
    requires chain[|chain| - 1] in link && link[chain[|chain| - 1]] == head
    ensures Spells(link, chain[0], chain + list)
  {
    var l := chain + list;
    forall i: nat ensures LinkAt(link, l, i) {
      if i + 1 < |chain| {
        assert LinkAt(link, chain, i);
      } else if |chain| <= i {
        assert LinkAt(link, list, i - |chain|);
      }
    }
    forall i, j | 0 <= i < j < |l| ensures l[i] != l[j] {
      if i < |chain| <= j { assert l[i] in chain && l[j] in list; }
    }
  }

  /** What a compare-and-swap does to a stack's contents. */
  ghost predicate StackStep(l: seq<nat>, l': seq<nat>) {
    || l' == l
    || (l != [] && l' == l[1..])
    || (exists chain: seq<nat> :: chain != [] && l' == chain + l)
  }
}

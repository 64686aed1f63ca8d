/** The lists of the allocator over the table of its pages: with the pages the table's
    adders were granted, every id the lists know can be looked up, also after refused
    pages, and what two ids stand for shares no byte. */
module PagesOfPool {
  import opened Layout
  import opened PoolSpec
  import opened PoolLaws
  import R = PoolRuns
  import PT = PageTable

  /** The lists are told of a page exactly when its adder got all it asked for. */
  ghost predicate SameGrants(env: Env, pages: nat -> nat) {
    forall s: nat :: SameGrant(env, pages, s)
  }

  ghost predicate SameGrant(env: Env, pages: nat -> nat, s: nat) {
    s + 1 < PG_NUM_MAX ==> (env.grant(s) <==> PT.Granted(pages, s))
  }

  /** The table after as many adds as the run has made. */
  ghost predicate TableOf(p: PT.PageList, env: Env, q: Pool)
    reads p, p.pglist
  {
    p.Valid() && p.Booked() && SameGrants(env, p.pages) && p.cursor == q.cursor
  }

  /** The pages of the lists are those of the table. */
  lemma PagesAgree(p: PT.PageList, n: nat, env: Env, run: seq<Pool>, k: nat)
    requires R.IsRun(n, env, run) && k < |run| && TableOf(p, env, run[k])
    ensures run[k].pages == p.flat.Keys
  {
    R.PagesDense(n, env, run, k);
    R.RunGood(n, env, run, k);
    forall pg: nat ensures pg in run[k].pages <==> pg in p.flat {
      assert PT.SettledAt(p.flat, p.burnt, p.cursor, pg) && SameGrant(env, p.pages, pg);
      PT.BurntExactly(p.pages, p.cursor, pg);
    }
  }

  lemma KnownIds(q: Pool, id: nat)
    requires Inv(q)
    ensures BlkCount(q, id) > 0 ==> id / BLK_PER_PG in q.pages
    ensures VecCount(q, id) > 0 ==> id / VEC_PER_BLK in q.vecBlks && id / VEC_PER_BLK / BLK_PER_PG in q.pages
    ensures DbCount(q, id) > 0 ==> id / DB_PER_BLK in q.dbBlks && id / DB_PER_BLK / BLK_PER_PG in q.pages
  {
    var v, d := id / VEC_PER_BLK, id / DB_PER_BLK;
    assert BlkCount(q, id) == One(id / BLK_PER_PG in q.pages);
    assert VecCount(q, id) == One(v in q.vecBlks) && BlkCount(q, v) == One(v / BLK_PER_PG in q.pages);
    assert DbCount(q, id) == One(d in q.dbBlks) && BlkCount(q, d) == One(d / BLK_PER_PG in q.pages);
  }

  /** Every block, vec and db the allocator knows, wherever it is, is found by its lookup. */
  lemma EveryIdIsFound(p: PT.PageList, n: nat, env: Env, run: seq<Pool>, k: nat, id: nat)
    requires R.IsRun(n, env, run) && k < |run| && TableOf(p, env, run[k])
    ensures BlkCount(run[k], id) > 0 ==> id / BLK_PER_PG in p.flat
    ensures VecCount(run[k], id) > 0 ==> id / VEC_PER_BLK / BLK_PER_PG in p.flat
    ensures DbCount(run[k], id) > 0 ==> id / DB_PER_BLK / BLK_PER_PG in p.flat
  {
    var q := run[k];
    PagesAgree(p, n, env, run, k);
    R.RunGood(n, env, run, k);
    KnownIds(q, id);
  }

  /** A vec and a db never share a block, so what they stand for lies apart, like what two
      vecs or two dbs stand for. */
  lemma KnownIdsApart(p: PT.PageList, n: nat, env: Env, run: seq<Pool>, k: nat, v: nat, d: nat)
    requires R.IsRun(n, env, run) && k < |run| && TableOf(p, env, run[k])
    requires VecCount(run[k], v) > 0 && DbCount(run[k], d) > 0
    ensures v / VEC_PER_BLK / BLK_PER_PG in p.flat && d / DB_PER_BLK / BLK_PER_PG in p.flat
    ensures PT.Disjoint(PT.ItemAddr(p.flat, VBLK_SIZE, v), VBLK_SIZE, PT.ItemAddr(p.flat, DBLK_SIZE, d), DBLK_SIZE)
  {
    var q := run[k];
    R.RunGood(n, env, run, k);
    EveryIdIsFound(p, n, env, run, k, v);
    EveryIdIsFound(p, n, env, run, k, d);
    KnownIds(q, v);
    KnownIds(q, d);
    assert BlkCount(q, v / VEC_PER_BLK) == One(v / VEC_PER_BLK / BLK_PER_PG in q.pages);
    p.FoundKindsApart(v, d);
  }
}

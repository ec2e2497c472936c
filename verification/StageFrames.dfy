/** Which rows each stage of the builder replaces, and the pools a stage queries. */
module StageFrames {
  import opened EdgeIndex
  import opened LoopSpec
  import opened Scopes
  import opened Selection
  import opened Text
  import opened Wrappers

  // ----- which rows a stage replaces -----

  predicate CandidateKey(k: Key, scope: Scope, symbol: string) {
    (k.TokenKey? || k.PairKey? || k.RecKey?) && k.tag.scope == scope && k.tag.symbol == symbol
  }

  predicate ObservationKey(k: Key, scope: Scope, symbol: string) {
    (k.ObsKey? || k.ObsPoolKey?) && k.tag.scope == scope && k.tag.symbol == symbol
  }

  /** A loop row of this market and symbol, or a hop of one. */
  predicate LoopOwned(rows: Tables, scope: Scope, market: string, symbol: string, k: Key) {
    match k
    case LoopKey(s, m, _, _, _) => s == scope && m == market && OwnedBy(rows, k, symbol)
    case HopKey(s, m, a, y, z, _) => s == scope && m == market && OwnedBy(rows, LoopKey(s, m, a, y, z), symbol)
    case _ => false
  }

  predicate OwnedBy(rows: Tables, k: Key, symbol: string) {
    k in rows && rows[k].LoopRow? && rows[k].symbol == symbol
  }

  ghost predicate AfterCandidates(before: Tables, after: Tables, job: Job, pools: seq<Pool>, cs: set<string>) {
    forall k :: Lookup(after, k) ==
                if CandidateKey(k, job.scope, job.symbol) then CandidateRow(job, pools, cs, k) else Lookup(before, k)
  }

  ghost predicate AfterObservations(before: Tables, after: Tables, tag: Tag, pools: seq<Pool>, cs: set<string>) {
    forall k :: Lookup(after, k) ==
                if ObservationKey(k, tag.scope, tag.symbol) then ObservationRow(tag, pools, cs, k)
                else Lookup(before, k)
  }

  ghost predicate AfterLoops(before: Tables, after: Tables, job: Job, symbols: map<string, string>, r: Reading) {
    forall k :: Lookup(after, k) ==
                var row := LoopStageRow(job, symbols, r, Pairs(r.tokens), k);
                if row.Some? then row
                else if LoopOwned(before, job.scope, job.market, job.symbol, k) then None
                else Lookup(before, k)
  }

  /**
   What a loop build does to a stored loop and its hops. Those of another scope or market, or of another
   symbol and another anchor, stay; those of its own market and symbol go, unless they are written again.
   */
  lemma LoopsReplaced(before: Tables, after: Tables, job: Job, symbols: map<string, string>, r: Reading,
                      k: Key, index: nat)
    requires AfterLoops(before, after, job, symbols, r)
    requires k.LoopKey? && k in before && before[k].LoopRow?
    ensures var hop := HopKey(k.scope, k.market, k.anchor, k.y, k.z, index);
            var row := LoopStageRow(job, symbols, r, Pairs(r.tokens), k);
            var elsewhere := k.scope != job.scope || k.market != job.market;
            && (elsewhere || (k.anchor != job.anchor && before[k].symbol != job.symbol) ==>
                  Lookup(after, k) == Lookup(before, k) && Lookup(after, hop) == Lookup(before, hop))
            && (!elsewhere && k.anchor != job.anchor && before[k].symbol == job.symbol ==>
                  k !in after && hop !in after)
            && (!elsewhere && before[k].symbol == job.symbol && row.None? ==> k !in after && hop !in after)
  {
    var hop := HopKey(k.scope, k.market, k.anchor, k.y, k.z, index);
    assert Lookup(after, k).Some? <==> k in after;
    assert Lookup(after, hop).Some? <==> hop in after;
  }

  // ----- pools restricted to what a stage queries -----

  lemma {:induction false} ScanOfFilter(pools: seq<Pool>, keep: Pool -> bool, x: string, y: string)
    requires forall p :: p in pools && Holds(p, x, y) ==> keep(p)
    ensures Scan(Filter(pools, keep), x, y) == Scan(pools, x, y)
  {
    if pools != [] {
      var init, p := pools[..|pools| - 1], pools[|pools| - 1];
      assert p in pools && forall q :: q in init ==> q in pools;
      ScanOfFilter(init, keep, x, y);
      ScanSnoc(Filter(init, keep), p, x, y);
      assert Scan(init, x, y) + [] == Scan(init, x, y) && Filter(init, keep) + [] == Filter(init, keep);
    }
  }

  lemma ScanSnoc(pools: seq<Pool>, p: Pool, x: string, y: string)
    ensures Scan(pools + [p], x, y) == Scan(pools, x, y) + (if Holds(p, x, y) then [p] else [])
  {
  }

  lemma {:induction false} FilterCommutes(pools: seq<Pool>, f: Pool -> bool, g: Pool -> bool)
    ensures Filter(Filter(pools, f), g) == Filter(Filter(pools, g), f)
  {
    if pools != [] {
      var init, p := pools[..|pools| - 1], pools[|pools| - 1];
      FilterCommutes(init, f, g);
      FilterSnoc(Filter(init, f), p, g);
      FilterSnoc(Filter(init, g), p, f);
      assert forall s: seq<Pool> :: s + [] == s;
    }
  }

  lemma FilterSnoc(pools: seq<Pool>, p: Pool, f: Pool -> bool)
    ensures Filter(pools + [p], f) == Filter(pools, f) + (if f(p) then [p] else [])
  {
  }

  /** The index over the queried pools answers a pair as a scan of the whole table would. */
  lemma QueriedPairs(pools: seq<Pool>, queried: Pool -> bool, index: Index, x: string, y: string)
    requires WellStored(pools)
    requires Indexes(index, Filter(Filter(pools, queried), Normal))
    requires forall p :: p in pools && Holds(p, x, y) ==> queried(p)
    requires IsNorm(x) && IsNorm(y)
    ensures PoolsForTokenPair(index, x, y) == NormalPools(pools, x, y)
  {
    var normal := Filter(Filter(pools, queried), Normal);
    forall p | p in normal
      ensures NoColon(Token0(p)) && NoColon(Token1(p)) && Less(Token0(p), Token1(p))
    {
      FilterIn(Filter(pools, queried), Normal, p);
      FilterIn(pools, queried, p);
    }
    LookupIsScan(index, normal, x, y);
    FilterCommutes(pools, queried, Normal);
    forall p | p in Filter(pools, Normal) ensures p in pools {
      FilterIn(pools, Normal, p);
    }
    ScanOfFilter(Filter(pools, Normal), queried, x, y);
  }
}

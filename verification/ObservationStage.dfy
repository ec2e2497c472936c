/** The observation stage: every direction between two tokens with its best confirmed pools. */
module ObservationStage {
  import opened CandidateStage
  import opened EdgeIndex
  import opened LoopSpec
  import opened Selection
  import opened StageFrames
  import opened Text
  import opened Wrappers

  /** Some direction of the set has a usable pool with this id. */
  ghost predicate ServedDirection(pools: seq<Pool>, ds: set<(string, string)>, id: string) {
    exists d, p :: d in ds && p in Usable(pools, d.0, d.1) && Id(p) == id
  }

  /** The observation row under a key when only these directions are written. */
  ghost function DirectedRow(own: Tag, pools: seq<Pool>, ds: set<(string, string)>, k: Key): Option<Row> {
    match k
    case ObsKey(tag, x, y) => if tag == own && (x, y) in ds then Some(ObsRowOf(pools, x, y)) else None
    case ObsPoolKey(tag, id) => if tag == own && ServedDirection(pools, ds, id) then Some(ObsPoolRow) else None
    case _ => None
  }

  lemma DirectionsObserved(own: Tag, pools: seq<Pool>, cs: set<string>, k: Key)
    ensures DirectedRow(own, pools, Directions(cs), k) == ObservationRow(own, pools, cs, k)
  {
    if k.ObsPoolKey? {
      if ServedDirection(pools, Directions(cs), k.poolId) {
        var d, p :| d in Directions(cs) && p in Usable(pools, d.0, d.1) && Id(p) == k.poolId;
        assert ObservedPool(pools, cs, k.poolId);
      }
      if ObservedPool(pools, cs, k.poolId) {
        var x, y, p :| x in cs && y in cs && x != y && p in Usable(pools, x, y) && Id(p) == k.poolId;
        assert (x, y) in Directions(cs);
        var d := (x, y);
        assert p in Usable(pools, d.0, d.1);
      }
    }
  }

  /** The pool rows of one direction. */
  method PoolRows(tag: Tag, confirmed: seq<Pool>) returns (rows: Tables)
    ensures forall k :: Lookup(rows, k) ==
                        if k.ObsPoolKey? && k.tag == tag && k.poolId in Ids(confirmed) then Some(ObsPoolRow) else None
  {
    rows := map[];
    for i := 0 to |confirmed|
      invariant forall k :: Lookup(rows, k) ==
                            if k.ObsPoolKey? && k.tag == tag && k.poolId in Ids(confirmed[..i]) then Some(ObsPoolRow)
                            else None
    {
      assert confirmed[..i + 1] == confirmed[..i] + [confirmed[i]];
      IdsSnoc(confirmed[..i], confirmed[i]);
      rows := rows[ObsPoolKey(tag, Id(confirmed[i])) := ObsPoolRow];
    }
    assert confirmed[..|confirmed|] == confirmed;
  }

  lemma DirectionStep(own: Tag, pools: seq<Pool>, ds: set<(string, string)>, d: (string, string), k: Key)
    ensures DirectedRow(own, pools, ds + {d}, k) ==
            if k == ObsKey(own, d.0, d.1) then Some(ObsRowOf(pools, d.0, d.1))
            else if k.ObsPoolKey? && k.tag == own && k.poolId in Ids(Usable(pools, d.0, d.1)) then Some(ObsPoolRow)
            else DirectedRow(own, pools, ds, k)
  {
  }

  lemma AddDirection(own: Tag, pools: seq<Pool>, ds: set<(string, string)>, d: (string, string),
                     rows: Tables, served: Tables, row: Row)
    requires forall k :: Lookup(rows, k) == DirectedRow(own, pools, ds, k)
    requires forall k :: Lookup(served, k) ==
                         if k.ObsPoolKey? && k.tag == own && k.poolId in Ids(Usable(pools, d.0, d.1))
                         then Some(ObsPoolRow) else None
    requires row == ObsRowOf(pools, d.0, d.1)
    ensures forall k :: Lookup((rows + served)[ObsKey(own, d.0, d.1) := row], k) == DirectedRow(own, pools, ds + {d}, k)
  {
    forall k | true
      ensures Lookup((rows + served)[ObsKey(own, d.0, d.1) := row], k) == DirectedRow(own, pools, ds + {d}, k)
    {
      DirectionStep(own, pools, ds, d, k);
      assert Lookup(rows, k) == DirectedRow(own, pools, ds, k);
      assert Lookup(served, k) ==
             if k.ObsPoolKey? && k.tag == own && k.poolId in Ids(Usable(pools, d.0, d.1)) then Some(ObsPoolRow)
             else None;
    }
  }

  /** The index answers every pair of the tokens as the source table would. */
  ghost predicate AnswersAll(index: Index, pools: seq<Pool>, tokens: set<string>) {
    forall x, y :: x in tokens && y in tokens ==> PoolsForTokenPair(index, x, y) == NormalPools(pools, x, y)
  }

  method ObservationRows(tag: Tag, tokens: set<string>, index: Index, ghost pools: seq<Pool>) returns (rows: Tables)
    requires WellStored(pools) && AnswersAll(index, pools, tokens)
    ensures forall k :: Lookup(rows, k) == ObservationRow(tag, pools, tokens, k)
  {
    rows := map[];
    var left := Pairs(tokens);
    ghost var done: set<(string, string)> := {};
    while left != {}
      invariant done <= Directions(tokens) <= done + left
      invariant left <= Pairs(tokens)
      invariant forall k :: Lookup(rows, k) == DirectedRow(tag, pools, done, k)
      decreases left
    {
      var d :| d in left;
      left := left - {d};
      if d.0 == d.1 {
        continue;
      }
      var confirmed := Confirmed(PoolsForTokenPair(index, d.0, d.1));
      var ids := ObservationPoolIds(confirmed, d.0, d.1);
      assert ids == IdList(Observed(pools, d.0, d.1));
      var row := ObsRow(ids, if ids == [] then "" else ids[0]);
      var served := PoolRows(tag, confirmed);
      AddDirection(tag, pools, done, d, rows, served, row);
      rows := (rows + served)[ObsKey(tag, d.0, d.1) := row];
      done := done + {d};
    }
    forall k | true ensures Lookup(rows, k) == ObservationRow(tag, pools, tokens, k) {
      DirectionsObserved(tag, pools, tokens, k);
      assert done == Directions(tokens);
    }
  }

  /** Both ends of the pool are among the tokens. */
  predicate Within(p: Pool, tokens: set<string>) {
    && (Touches0(p, tokens) || Touches1(p, tokens))
    && Token0(p) in tokens && Token1(p) in tokens
  }

  predicate Touches0(p: Pool, tokens: set<string>) {
    p.token0.Some? && p.token0.value in tokens
  }

  predicate Touches1(p: Pool, tokens: set<string>) {
    p.token1.Some? && p.token1.value in tokens
  }

  lemma WithinAnswers(index: Index, pools: seq<Pool>, tokens: set<string>)
    requires WellStored(pools) && forall t :: t in tokens ==> IsNorm(t)
    requires Indexes(index, Filter(Filter(pools, (p: Pool) => Within(p, tokens)), Normal))
    ensures AnswersAll(index, pools, tokens)
  {
    forall x, y | x in tokens && y in tokens ensures PoolsForTokenPair(index, x, y) == NormalPools(pools, x, y) {
      forall p | p in pools && Holds(p, x, y) ensures Within(p, tokens) {
        StoredTokens(p);
      }
      QueriedPairs(pools, (p: Pool) => Within(p, tokens), index, x, y);
    }
  }

  /** The rows one anchor's observation build writes for these tokens. */
  method ObservationTables(tag: Tag, pools: seq<Pool>, tokens: set<string>) returns (rows: Tables)
    requires WellStored(pools) && forall t :: t in tokens ==> IsNorm(t)
    ensures forall k :: Lookup(rows, k) == ObservationRow(tag, pools, tokens, k)
  {
    var normal := Filter(Filter(pools, (p: Pool) => Within(p, tokens)), Normal);
    var index := PoolsByEdge(normal);
    WithinAnswers(index, pools, tokens);
    rows := ObservationRows(tag, tokens, index, pools);
  }
}

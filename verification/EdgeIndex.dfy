/** The index of pools by the text key of their token pair, and the lookup in either orientation. */
module EdgeIndex {
  import opened Selection
  import opened Text

  type Index = map<string, seq<Pool>>

  predicate HasTokens(p: Pool) {
    Token0(p) != "" && Token1(p) != ""
  }

  function Edge(p: Pool): string {
    PairText(Token0(p), Token1(p))
  }

  /** The pools stored under one edge key, in order. */
  function OnEdge(pools: seq<Pool>, edge: string): seq<Pool> {
    if pools == [] then []
    else
      var p := pools[|pools| - 1];
      OnEdge(pools[..|pools| - 1], edge) + (if HasTokens(p) && Edge(p) == edge then [p] else [])
  }

  /** The index holds exactly the non-empty edges, each with its pools in order. */
  ghost predicate Indexes(index: Index, pools: seq<Pool>) {
    forall edge :: (edge in index <==> OnEdge(pools, edge) != []) &&
                   (edge in index ==> index[edge] == OnEdge(pools, edge))
  }

  method PoolsByEdge(pools: seq<Pool>) returns (index: Index)
    ensures Indexes(index, pools)
  {
    index := map[];
    for i := 0 to |pools|
      invariant Indexes(index, pools[..i])
    {
      var p := pools[i];
      OnEdgeSnoc(pools, i);
      if Token0(p) == "" || Token1(p) == "" {
        continue;
      }
      var edge := Edge(p);
      index := index[edge := (if edge in index then index[edge] else []) + [p]];
    }
    assert pools[..|pools|] == pools;
  }

  lemma OnEdgeSnoc(pools: seq<Pool>, i: nat)
    requires i < |pools|
    ensures forall edge :: OnEdge(pools[..i + 1], edge) ==
                           OnEdge(pools[..i], edge) +
                           (if HasTokens(pools[i]) && Edge(pools[i]) == edge then [pools[i]] else [])
  {
    assert pools[..i + 1][..i] == pools[..i];
  }

  /** `pools_for_token_pair`: the forward key first, and only without it the reverse key. */
  function PoolsForTokenPair(index: Index, tokenX: string, tokenY: string): seq<Pool> {
    var x, y := Norm(tokenX), Norm(tokenY);
    if x == "" || y == "" then []
    else if PairText(x, y) in index then index[PairText(x, y)]
    else if PairText(y, x) in index then index[PairText(y, x)]
    else []
  }

  // ----- against a linear scan -----

  predicate Holds(p: Pool, x: string, y: string) {
    HasTokens(p) && ((Token0(p) == x && Token1(p) == y) || (Token0(p) == y && Token1(p) == x))
  }

  /** The pools whose two tokens are x and y, in order. */
  function Scan(pools: seq<Pool>, x: string, y: string): seq<Pool> {
    if pools == [] then []
    else
      var p := pools[|pools| - 1];
      Scan(pools[..|pools| - 1], x, y) + (if Holds(p, x, y) then [p] else [])
  }

  ghost predicate ColonFree(pools: seq<Pool>) {
    forall p :: p in pools ==> NoColon(Token0(p)) && NoColon(Token1(p))
  }

  /** Tokens are stored in ascending order. */
  ghost predicate Canonical(pools: seq<Pool>) {
    forall p :: p in pools && HasTokens(p) ==> Less(Token0(p), Token1(p))
  }

  lemma {:induction false} ScanCounts(pools: seq<Pool>, x: string, y: string)
    requires ColonFree(pools)
    ensures |Scan(pools, x, y)| ==
            |OnEdge(pools, PairText(x, y))| + (if x == y then 0 else |OnEdge(pools, PairText(y, x))|)
    ensures OnEdge(pools, PairText(y, x)) == [] || x == y ==> Scan(pools, x, y) == OnEdge(pools, PairText(x, y))
    ensures OnEdge(pools, PairText(x, y)) == [] ==> Scan(pools, x, y) == OnEdge(pools, PairText(y, x))
  {
    if pools != [] {
      var init, p := pools[..|pools| - 1], pools[|pools| - 1];
      assert p in pools && forall q :: q in init ==> q in pools;
      ScanCounts(init, x, y);
      PairTextInjective(Token0(p), Token1(p), x, y);
      PairTextInjective(Token0(p), Token1(p), y, x);
    }
  }

  /**
   The lookup returns exactly the pools of the pair, in order, exactly when the pair is not stored
   in both orientations.
   */
  lemma LookupScanIff(index: Index, pools: seq<Pool>, tokenX: string, tokenY: string)
    requires Indexes(index, pools) && ColonFree(pools)
    requires Norm(tokenX) != "" && Norm(tokenY) != ""
    ensures var x, y := Norm(tokenX), Norm(tokenY);
            PoolsForTokenPair(index, tokenX, tokenY) == Scan(pools, x, y) <==>
            x == y || OnEdge(pools, PairText(x, y)) == [] || OnEdge(pools, PairText(y, x)) == []
  {
    var x, y := Norm(tokenX), Norm(tokenY);
    ScanCounts(pools, x, y);
  }

  /** The pool holds x as its first and y as its second token. */
  predicate InOrder(p: Pool, x: string, y: string) {
    Norm(p.token0.GetOr("")) == x && Norm(p.token1.GetOr("")) == y
  }

  lemma {:induction false} EdgeIsOrder(pools: seq<Pool>, x: string, y: string)
    requires ColonFree(pools) && x != "" && y != ""
    ensures OnEdge(pools, PairText(x, y)) == Filter(pools, (p: Pool) => InOrder(p, x, y))
  {
    if pools != [] {
      var init, p := pools[..|pools| - 1], pools[|pools| - 1];
      assert p in pools && forall q :: q in init ==> q in pools;
      EdgeIsOrder(init, x, y);
      PairTextInjective(Token0(p), Token1(p), x, y);
    }
  }

  /** The pools that hold the tokens in the order asked are returned, or only without any the others. */
  lemma LookupPrefersOrder(index: Index, pools: seq<Pool>, tokenX: string, tokenY: string)
    requires Indexes(index, pools) && ColonFree(pools)
    ensures var x, y := Norm(tokenX), Norm(tokenY);
            var own := Filter(pools, (p: Pool) => InOrder(p, x, y));
            PoolsForTokenPair(index, tokenX, tokenY) ==
            if x == "" || y == "" then [] else if own != [] then own else Filter(pools, (p: Pool) => InOrder(p, y, x))
  {
    var x, y := Norm(tokenX), Norm(tokenY);
    if x != "" && y != "" {
      EdgeIsOrder(pools, x, y);
      EdgeIsOrder(pools, y, x);
    }
  }

  lemma {:induction false} CanonicalOneWay(pools: seq<Pool>, x: string, y: string)
    requires Canonical(pools) && ColonFree(pools)
    ensures OnEdge(pools, PairText(x, y)) == [] || Less(x, y)
  {
    if pools != [] {
      var init, p := pools[..|pools| - 1], pools[|pools| - 1];
      assert p in pools && forall q :: q in init ==> q in pools;
      CanonicalOneWay(init, x, y);
      PairTextInjective(Token0(p), Token1(p), x, y);
    }
  }

  lemma {:induction false} ScanSymmetric(pools: seq<Pool>, x: string, y: string)
    ensures Scan(pools, x, y) == Scan(pools, y, x)
  {
    if pools != [] {
      ScanSymmetric(pools[..|pools| - 1], x, y);
    }
  }

  lemma {:induction false} ScanNamed(pools: seq<Pool>, x: string, y: string)
    requires x == "" || y == ""
    ensures Scan(pools, x, y) == []
  {
    if pools != [] {
      ScanNamed(pools[..|pools| - 1], x, y);
    }
  }

  /** For pools stored in canonical order the lookup is the scan, whichever way round it is asked. */
  lemma LookupIsScan(index: Index, pools: seq<Pool>, tokenX: string, tokenY: string)
    requires Indexes(index, pools) && ColonFree(pools) && Canonical(pools)
    ensures PoolsForTokenPair(index, tokenX, tokenY) == Scan(pools, Norm(tokenX), Norm(tokenY))
    ensures PoolsForTokenPair(index, tokenX, tokenY) == PoolsForTokenPair(index, tokenY, tokenX)
  {
    var x, y := Norm(tokenX), Norm(tokenY);
    if x == "" || y == "" {
      ScanNamed(pools, x, y);
    } else {
      CanonicalOneWay(pools, x, y);
      CanonicalOneWay(pools, y, x);
      LessTotal(x, y);
      LookupScanIff(index, pools, tokenX, tokenY);
      LookupScanIff(index, pools, tokenY, tokenX);
      ScanSymmetric(pools, x, y);
    }
  }
}

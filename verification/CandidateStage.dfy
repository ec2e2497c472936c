/** The candidate stage: one anchor's counter tokens, their directed pairs and recommendations. */
module CandidateStage {
  import opened EdgeIndex
  import opened LoopSpec
  import opened Selection
  import opened StageFrames
  import opened Text
  import opened Wrappers

  // ----- small table helpers -----

  /** One direction's recommendation rows: rank by rank, from 1. */
  method RecommendationRows(tag: Tag, counter: string, x: string, y: string, hop: Hop, recs: seq<Pool>)
    returns (rows: Tables)
    requires DistinctIds(recs)
    ensures forall k :: Lookup(rows, k) == RecAt(tag, counter, x, y, hop, recs, k)
  {
    rows := map[];
    for i := 0 to |recs|
      invariant HoldsRanks(rows, tag, counter, x, y, hop, recs, i)
    {
      AddRank(rows, tag, counter, x, y, hop, recs, i);
      rows := rows[RecKey(tag, counter, x, y, hop, Id(recs[i])) := RecRow(i + 1)];
    }
    forall k | true ensures Lookup(rows, k) == RecAt(tag, counter, x, y, hop, recs, k) {
      assert recs[..|recs|] == recs;
      assert RankAt(tag, counter, x, y, hop, recs, |recs|, k) == RecAt(tag, counter, x, y, hop, recs, k);
    }
  }

  /** The row under a key once the first n recommendations are written. */
  function RankAt(tag: Tag, counter: string, x: string, y: string, hop: Hop, recs: seq<Pool>, n: nat, k: Key)
    : Option<Row>
    requires n <= |recs|
  {
    if k.RecKey? && k.poolId in Ids(recs[..n]) then RecAt(tag, counter, x, y, hop, recs, k) else None
  }

  ghost predicate HoldsRanks(rows: Tables, tag: Tag, counter: string, x: string, y: string, hop: Hop,
                             recs: seq<Pool>, n: nat)
    requires n <= |recs|
  {
    forall k :: Lookup(rows, k) == RankAt(tag, counter, x, y, hop, recs, n, k)
  }

  lemma RankStep(tag: Tag, counter: string, x: string, y: string, hop: Hop, recs: seq<Pool>, i: nat, k: Key)
    requires i < |recs| && DistinctIds(recs)
    ensures RankAt(tag, counter, x, y, hop, recs, i + 1, k) ==
            if k == RecKey(tag, counter, x, y, hop, Id(recs[i])) then Some(RecRow(i + 1))
            else RankAt(tag, counter, x, y, hop, recs, i, k)
  {
    assert recs[..i + 1] == recs[..i] + [recs[i]];
    IdsSnoc(recs[..i], recs[i]);
    PlaceOf(recs, i);
    assert Id(recs[i]) in Ids(recs);
  }

  lemma AddRank(rows: Tables, tag: Tag, counter: string, x: string, y: string, hop: Hop, recs: seq<Pool>, i: nat)
    requires i < |recs| && DistinctIds(recs) && HoldsRanks(rows, tag, counter, x, y, hop, recs, i)
    ensures HoldsRanks(rows[RecKey(tag, counter, x, y, hop, Id(recs[i])) := RecRow(i + 1)],
                       tag, counter, x, y, hop, recs, i + 1)
  {
    var more := rows[RecKey(tag, counter, x, y, hop, Id(recs[i])) := RecRow(i + 1)];
    forall k | true ensures Lookup(more, k) == RankAt(tag, counter, x, y, hop, recs, i + 1, k) {
      RankStep(tag, counter, x, y, hop, recs, i, k);
      assert Lookup(rows, k) == RankAt(tag, counter, x, y, hop, recs, i, k);
    }
  }

  function RecAt(tag: Tag, counter: string, x: string, y: string, hop: Hop, recs: seq<Pool>, k: Key): Option<Row> {
    if && k.RecKey? && k.tag == tag && k.counter == counter && k.x == x && k.y == y && k.hop == hop
       && k.poolId in Ids(recs)
    then Some(RecRow(Place(recs, k.poolId)))
    else None
  }

  lemma {:induction false} PlaceOf(s: seq<Pool>, i: nat)
    requires i < |s| && DistinctIds(s)
    ensures Place(s, Id(s[i])) == i + 1
  {
    if i > 0 {
      assert s[1..][i - 1] == s[i];
      PlaceOf(s[1..], i - 1);
    }
  }

  // ----- candidate stage -----

  /** The index answers every pair of the anchor and a listed token as the source table would. */
  ghost predicate Answers(index: Index, pools: seq<Pool>, a: string, tokens: set<string>) {
    forall c :: c in tokens && c != a ==> PoolsForTokenPair(index, a, c) == NormalPools(pools, a, c)
  }

  lemma {:induction false} FilterAll(s: seq<Pool>, keep: Pool -> bool)
    requires forall p :: p in s ==> keep(p)
    ensures Filter(s, keep) == s
  {
    if s != [] {
      assert s[|s| - 1] in s && forall p :: p in s[..|s| - 1] ==> p in s;
      FilterAll(s[..|s| - 1], keep);
      assert s == s[..|s| - 1] + [s[|s| - 1]];
    }
  }

  lemma NormalAgain(pools: seq<Pool>, x: string, y: string)
    ensures Filter(NormalPools(pools, x, y), Normal) == NormalPools(pools, x, y)
  {
    forall p | p in NormalPools(pools, x, y) ensures Normal(p) {
      ScanIn(Filter(pools, Normal), x, y, p);
      FilterIn(pools, Normal, p);
    }
    FilterAll(NormalPools(pools, x, y), Normal);
  }

  lemma RankedDistinct(pools: seq<Pool>, x: string, y: string)
    ensures DistinctIds(Ranked(pools, x, y))
  {
    RecommendBest(Usable(pools, x, y), x, y);
  }

  /** The token row and the two directed pair rows of one counter. */
  function PairRows(tag: Tag, a: string, c: string, n: nat, m: nat, forward: seq<Pool>, reverse: seq<Pool>): Tables {
    map[
      TokenKey(tag, c) := TokenRow(n, FirstId(forward), FirstId(reverse), Backups(forward), Backups(reverse)),
      PairKey(tag, a, c) := PairRow(n, m, FirstId(forward), "", Backups(forward), []),
      PairKey(tag, c, a) := PairRow(n, m, "", FirstId(reverse), [], Backups(reverse))]
  }

  function CounterPairRows(job: Job, pools: seq<Pool>, c: string): Tables {
    PairRows(TagOf(job), job.anchor, c, |NormalPools(pools, job.anchor, c)|, |Usable(pools, job.anchor, c)|,
             Ranked(pools, job.anchor, c), Ranked(pools, c, job.anchor))
  }

  function CounterRec(job: Job, pools: seq<Pool>, c: string, hop: Hop, k: Key): Option<Row> {
    if hop.First? then RecAt(TagOf(job), c, job.anchor, c, First, Ranked(pools, job.anchor, c), k)
    else RecAt(TagOf(job), job.anchor, c, job.anchor, Third, Ranked(pools, c, job.anchor), k)
  }

  lemma CounterRowAt(job: Job, pools: seq<Pool>, c: string, k: Key, base: Tables, first: Tables, third: Tables)
    requires c != job.anchor && base == CounterPairRows(job, pools, c)
    requires Lookup(first, k) == CounterRec(job, pools, c, First, k)
    requires Lookup(third, k) == CounterRec(job, pools, c, Third, k)
    ensures Lookup(base + first + third, k) == CandidateRow(job, pools, {c}, k)
  {
  }

  /** All rows written for one counter token. */
  method CounterRows(job: Job, matched: seq<Pool>, fixed: seq<Pool>, c: string, ghost pools: seq<Pool>)
    returns (rows: Tables)
    requires matched == NormalPools(pools, job.anchor, c) && fixed == Usable(pools, job.anchor, c)
    requires c != job.anchor
    ensures HoldsCounters(rows, job, pools, {c})
  {
    var a, tag := job.anchor, TagOf(job);
    UsableSymmetric(pools, a, c);
    var forward := SelectRecommendations(fixed, a, c);
    var reverse := SelectRecommendations(fixed, c, a);
    RankedDistinct(pools, a, c);
    RankedDistinct(pools, c, a);
    var base := PairRows(tag, a, c, |matched|, |fixed|, forward, reverse);
    var first := RecommendationRows(tag, c, a, c, First, forward);
    var third := RecommendationRows(tag, a, c, a, Third, reverse);
    rows := base + first + third;
    forall k | true ensures Lookup(rows, k) == CandidateRow(job, pools, {c}, k) {
      CounterRowAt(job, pools, c, k, base, first, third);
    }
  }

  lemma CandidateRowStep(job: Job, pools: seq<Pool>, done: set<string>, c: string, k: Key)
    requires c != job.anchor && job.anchor !in done
    ensures CandidateRow(job, pools, done + {c}, k) ==
            if CandidateRow(job, pools, {c}, k).Some? then CandidateRow(job, pools, {c}, k)
            else CandidateRow(job, pools, done, k)
  {
  }

  /** The counters among the tokens that share a usable pool with the anchor. */
  function Counters(pools: seq<Pool>, a: string, tokens: set<string>): set<string> {
    set c | c in tokens && c != a && Usable(pools, a, c) != []
  }

  lemma CountersStep(pools: seq<Pool>, a: string, tokens: set<string>, c: string)
    ensures Counters(pools, a, tokens + {c}) ==
            Counters(pools, a, tokens) + (if c != a && Usable(pools, a, c) != [] then {c} else {})
  {
  }

  /** The table holds exactly the candidate rows for these counters. */
  ghost predicate HoldsCounters(rows: Tables, job: Job, pools: seq<Pool>, cs: set<string>) {
    forall k :: Lookup(rows, k) == CandidateRow(job, pools, cs, k)
  }

  lemma AddCounter(job: Job, pools: seq<Pool>, done: set<string>, c: string, rows: Tables, more: Tables)
    requires c != job.anchor && job.anchor !in done
    requires HoldsCounters(rows, job, pools, done) && HoldsCounters(more, job, pools, {c})
    ensures HoldsCounters(rows + more, job, pools, done + {c})
  {
    forall k | true ensures Lookup(rows + more, k) == CandidateRow(job, pools, done + {c}, k) {
      CandidateRowStep(job, pools, done, c, k);
      assert Lookup(rows, k) == CandidateRow(job, pools, done, k);
      assert Lookup(more, k) == CandidateRow(job, pools, {c}, k);
    }
  }

  lemma NoCounters(job: Job, pools: seq<Pool>)
    ensures HoldsCounters(map[], job, pools, {})
  {
  }

  method CandidateWriteRows(job: Job, tokens: set<string>, index: Index, ghost pools: seq<Pool>)
    returns (rows: Tables)
    requires Answers(index, pools, job.anchor, tokens)
    ensures HoldsCounters(rows, job, pools, Counters(pools, job.anchor, tokens))
  {
    rows := map[];
    NoCounters(job, pools);
    var left := tokens;
    ghost var seen: set<string> := {};
    assert Counters(pools, job.anchor, seen) == {};
    while left != {}
      invariant seen + left == tokens
      invariant HoldsCounters(rows, job, pools, Counters(pools, job.anchor, seen))
      decreases left
    {
      var c :| c in left;
      CountersStep(pools, job.anchor, seen, c);
      ghost var done := Counters(pools, job.anchor, seen);
      left := left - {c};
      seen := seen + {c};
      if c == job.anchor {
        assert done + {} == done;
        continue;
      }
      var matched := PoolsForTokenPair(index, job.anchor, c);
      NormalAgain(pools, job.anchor, c);
      var fixed := Confirmed(Filter(matched, Normal));
      if fixed == [] {
        assert done + {} == done;
        continue;
      }
      var more := CounterRows(job, matched, fixed, c, pools);
      AddCounter(job, pools, done, c, rows, more);
      rows := rows + more;
    }
    assert seen == tokens;
  }

  // ----- resolving the counter tokens -----

  function NormSet(values: seq<string>): set<string> {
    set i | 0 <= i < |values| :: Norm(values[i])
  }

  function UniverseOf(universe: Option<seq<string>>): Option<set<string>> {
    match universe
    case None => None
    case Some(values) => Some(NormSet(values))
  }

  predicate CleanToken(t: string) {
    t != "" && IsNorm(t) && NoColon(t)
  }

  lemma {:induction false} OnEdgeIn(pools: seq<Pool>, edge: string, p: Pool)
    ensures p in OnEdge(pools, edge) <==> p in pools && HasTokens(p) && Edge(p) == edge
  {
    if pools != [] {
      OnEdgeIn(pools[..|pools| - 1], edge, p);
      assert pools == pools[..|pools| - 1] + [pools[|pools| - 1]];
    }
  }

  /** An indexed edge is the key of some indexed pool. */
  lemma EdgeOwner(index: Index, normal: seq<Pool>, edge: string) returns (p: Pool)
    requires Indexes(index, normal) && edge in index
    ensures p in normal && HasTokens(p) && Edge(p) == edge
  {
    p := OnEdge(normal, edge)[0];
    assert p in OnEdge(normal, edge);
    OnEdgeIn(normal, edge, p);
  }

  /** Some indexed pool joins the anchor and the token. */
  ghost predicate Joined(normal: seq<Pool>, a: string, c: string) {
    exists p :: p in normal && Holds(p, a, c)
  }

  lemma StoredTokens(p: Pool)
    requires Stored(p)
    ensures CleanToken(Token0(p)) && CleanToken(Token1(p)) && Less(Token0(p), Token1(p)) && HasTokens(p)
  {
  }

  /** The other end of an edge of the anchor, if the edge key has exactly two parts. */
  function OtherEnd(edge: string, a: string): Option<string> {
    match SplitPair(edge)
    case None => None
    case Some((x, y)) => if x == a then Some(y) else if y == a then Some(x) else None
  }

  lemma OtherEndOf(p: Pool, a: string)
    requires Stored(p)
    ensures OtherEnd(Edge(p), a) ==
            if Token0(p) == a then Some(Token1(p)) else if Token1(p) == a then Some(Token0(p)) else None
  {
    StoredTokens(p);
    SplitPairText(Token0(p), Token1(p));
  }

  /** Without a universe: the other ends of all indexed edges at the anchor. */
  method TokensFromIndex(index: Index, a: string, ghost normal: seq<Pool>) returns (tokens: set<string>)
    requires Indexes(index, normal) && (forall p :: p in normal ==> Stored(p))
    ensures forall c :: c in tokens ==> CleanToken(c)
    ensures forall c :: Joined(normal, a, c) ==> c in tokens
  {
    tokens := {};
    var left := index.Keys;
    ghost var seen: set<string> := {};
    while left != {}
      invariant seen + left == index.Keys
      invariant forall c :: c in tokens ==> CleanToken(c)
      invariant forall edge :: edge in seen && OtherEnd(edge, a).Some? ==> OtherEnd(edge, a).value in tokens
      decreases left
    {
      var edge :| edge in left;
      ghost var p := EdgeOwner(index, normal, edge);
      OtherEndOf(p, a);
      StoredTokens(p);
      left := left - {edge};
      seen := seen + {edge};
      var other := OtherEnd(edge, a);
      if other.Some? {
        tokens := tokens + {other.value};
      }
    }
    forall c | Joined(normal, a, c) ensures c in tokens {
      var p :| p in normal && Holds(p, a, c);
      OnEdgeIn(normal, Edge(p), p);
      OtherEndOf(p, a);
      StoredTokens(p);
      LessTotal(Token0(p), Token1(p));
      assert Edge(p) in seen;
    }
  }

  /** The key a canonical pool of the two tokens has. */
  function CanonicalEdge(a: string, c: string): string {
    if Less(c, a) then PairText(c, a) else PairText(a, c)
  }

  lemma CanonicalEdgeOf(p: Pool, a: string, c: string)
    requires Stored(p)
    ensures Edge(p) == CanonicalEdge(a, c) ==> Holds(p, a, c)
    ensures Holds(p, a, c) ==> Edge(p) == CanonicalEdge(a, c)
  {
    StoredTokens(p);
    LessTotal(Token0(p), Token1(p));
    PairTextInjective(Token0(p), Token1(p), a, c);
    PairTextInjective(Token0(p), Token1(p), c, a);
  }

  /** With a universe: its tokens that have a canonical edge with the anchor. */
  method TokensFromUniverse(index: Index, a: string, universe: set<string>, ghost normal: seq<Pool>)
    returns (tokens: set<string>)
    requires Indexes(index, normal) && (forall p :: p in normal ==> Stored(p))
    ensures tokens <= universe && forall c :: c in tokens ==> CleanToken(c)
    ensures forall c :: c in universe && Joined(normal, a, c) ==> c in tokens
  {
    tokens := set c | c in universe && CanonicalEdge(a, c) in index;
    forall c | c in tokens ensures CleanToken(c) {
      var p := EdgeOwner(index, normal, CanonicalEdge(a, c));
      CanonicalEdgeOf(p, a, c);
      StoredTokens(p);
    }
    forall c | c in universe && Joined(normal, a, c) ensures c in tokens {
      var p :| p in normal && Holds(p, a, c);
      CanonicalEdgeOf(p, a, c);
      OnEdgeIn(normal, Edge(p), p);
    }
  }

  predicate Touches(p: Pool, a: string) {
    p.token0 == Some(a) || p.token1 == Some(a)
  }

  /** Any token list that covers the joined tokens of the universe yields exactly the candidates. */
  lemma CountersAreCandidates(pools: seq<Pool>, normal: seq<Pool>, a: string, tokens: set<string>,
                              universe: Option<set<string>>)
    requires WellStored(pools)
    requires normal == Filter(Filter(pools, (p: Pool) => Touches(p, a)), Normal)
    requires forall c :: c in tokens && universe.Some? ==> c in universe.value
    requires forall c :: Joined(normal, a, c) && (universe.Some? ==> c in universe.value) ==> c in tokens
    ensures Counters(pools, a, tokens) == Candidates(pools, a, universe)
  {
    forall c | Usable(pools, a, c) != [] ensures Joined(normal, a, c) && c in Tokens(pools) {
      var p := Usable(pools, a, c)[0];
      assert p in Usable(pools, a, c);
      UsableIn(pools, a, c, p);
      StoredTokens(p);
      FilterIn(pools, (q: Pool) => Touches(q, a), p);
      FilterIn(Filter(pools, (q: Pool) => Touches(q, a)), Normal, p);
      assert Holds(p, a, c);
      assert Token0(p) in Tokens(pools) && Token1(p) in Tokens(pools);
    }
  }

  lemma IndexAnswers(index: Index, pools: seq<Pool>, a: string, tokens: set<string>)
    requires WellStored(pools) && IsNorm(a) && forall c :: c in tokens ==> CleanToken(c)
    requires Indexes(index, Filter(Filter(pools, (p: Pool) => Touches(p, a)), Normal))
    ensures Answers(index, pools, a, tokens)
  {
    forall c | c in tokens && c != a ensures PoolsForTokenPair(index, a, c) == NormalPools(pools, a, c) {
      QueriedPairs(pools, (p: Pool) => Touches(p, a), index, a, c);
    }
  }

  lemma QueriedStored(pools: seq<Pool>, queried: Pool -> bool)
    requires WellStored(pools)
    ensures forall p :: p in Filter(Filter(pools, queried), Normal) ==> Stored(p)
  {
    forall p | p in Filter(Filter(pools, queried), Normal) ensures Stored(p) {
      FilterIn(Filter(pools, queried), Normal, p);
      FilterIn(pools, queried, p);
    }
  }

  /** The rows one anchor's candidate build writes, from the pool table alone. */
  method CandidateTables(job: Job, pools: seq<Pool>, universe: Option<seq<string>>) returns (rows: Tables)
    requires WellStored(pools) && IsNorm(job.anchor)
    ensures HoldsCounters(rows, job, pools, Candidates(pools, job.anchor, UniverseOf(universe)))
  {
    var a := job.anchor;
    var normal := Filter(Filter(pools, (p: Pool) => Touches(p, a)), Normal);
    QueriedStored(pools, (p: Pool) => Touches(p, a));
    var index := PoolsByEdge(normal);
    var tokens;
    if universe.Some? {
      tokens := TokensFromUniverse(index, a, NormSet(universe.value), normal);
    } else {
      tokens := TokensFromIndex(index, a, normal);
    }
    IndexAnswers(index, pools, a, tokens);
    CountersAreCandidates(pools, normal, a, tokens, UniverseOf(universe));
    rows := CandidateWriteRows(job, tokens, index, pools);
  }
}

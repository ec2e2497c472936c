/** What holds of the tables one anchor's build leaves: real triangles, completeness, counts. */
module LoopTheorems {
  import opened EdgeIndex
  import opened LoopSpec
  import opened Scopes
  import opened Selection
  import opened Text
  import opened Wrappers

  // ----- the pools of a hop -----

  /** A hop's pool has a fixed fee of 1 to 3000, no hook, confirmed liquidity and exactly the hop's tokens. */
  lemma ServesMeans(p: Pool, x: string, y: string)
    ensures Serves(p, x, y) <==>
            && p.fee.Some? && 1 <= p.fee.value <= 3000
            && Norm(p.hooks.GetOr("")) in {"", "0x0000000000000000000000000000000000000000"}
            && p.confirmed
            && (var a, b := Norm(p.token0.GetOr("")), Norm(p.token1.GetOr(""));
                && a != "" && b != "" && ((a == x && b == y) || (a == y && b == x)))
  {
  }

  lemma UpperHex(c: char, u: char)
    requires if 'a' <= c <= 'z' then u as int == c as int - 32 else u == c
    ensures HexDigit(u) <==> c in "0123456789abcdefABCDEF"
    ensures u == 'X' <==> c in {'x', 'X'}
    ensures u == '0' <==> c == '0'
  {
  }

  /** The text reads as 0x and eight hexadecimal digits. */
  predicate AddressLike(s: string) {
    && |s| == 10 && s[0] == '0' && s[1] in {'x', 'X'}
    && forall i :: 2 <= i < 10 ==> s[i] in "0123456789abcdefABCDEF"
  }

  lemma PlaceholderIff(core: string, symbol: string)
    requires |symbol| == |core|
    requires forall i :: 0 <= i < |core| ==>
               if 'a' <= core[i] <= 'z' then symbol[i] as int == core[i] as int - 32 else symbol[i] == core[i]
    ensures Placeholder(symbol) <==> AddressLike(core)
  {
    forall i | 0 <= i < |core|
      ensures HexDigit(symbol[i]) <==> core[i] in "0123456789abcdefABCDEF"
      ensures (symbol[i] == 'X' <==> core[i] in {'x', 'X'}) && (symbol[i] == '0' <==> core[i] == '0')
    {
      UpperHex(core[i], symbol[i]);
    }
    if |symbol| == 10 {
      assert symbol[..2] == "0X" <==> symbol[0] == '0' && symbol[1] == 'X';
    }
  }

  /** A token is named unless its symbol is blank or reads as a shortened address. */
  lemma ResolvedIff(symbols: map<string, string>, token: string, left: string, core: string, right: string)
    requires token in symbols && symbols[token] == left + core + right && Blank(left) && Blank(right)
    requires core != [] ==> !IsWhitespace(core[0]) && !IsWhitespace(core[|core| - 1])
    ensures Resolved(symbols, token) <==> core != "" && !AddressLike(core)
  {
    NormMeans(left, core, right);
    PlaceholderIff(core, Symbol(left + core + right));
  }

  /** Some pool of the table with this id serves the hop. */
  ghost predicate ServedBy(pools: seq<Pool>, id: string, x: string, y: string) {
    id != "" && exists p :: p in pools && Id(p) == id && Serves(p, x, y)
  }

  /** Both selections are non-empty exactly when a usable pool exists, and their heads serve the hop. */
  lemma SelectionHeads(pools: seq<Pool>, x: string, y: string)
    requires WellStored(pools)
    ensures Usable(pools, x, y) == [] ==> Ranked(pools, x, y) == [] && Observed(pools, x, y) == []
    ensures Usable(pools, x, y) != [] ==>
              && Ranked(pools, x, y) != [] && ServedBy(pools, FirstId(Ranked(pools, x, y)), x, y)
              && Observed(pools, x, y) != [] && ServedBy(pools, FirstId(Observed(pools, x, y)), x, y)
              && Observed(pools, x, y)[0] in Usable(pools, x, y)
  {
    var usable := Usable(pools, x, y);
    FilterMembers(usable);
    FilterMembers(Named(usable));
    RecommendBest(usable, x, y);
    ObserveBest(usable, x, y);
    if usable != [] {
      UsableIn(pools, x, y, usable[0]);
      assert usable[0] in Confirmed(usable) && usable[0] in Confirmed(Named(usable));
      var r, o := Ranked(pools, x, y)[0], Observed(pools, x, y)[0];
      assert r in Ranked(pools, x, y) && o in Observed(pools, x, y);
      UsableIn(pools, x, y, r);
      UsableIn(pools, x, y, o);
    }
  }

  /**
   A candidate's two pair rows: the forward one lists all recommendations from the anchor, best
   first, the reverse one all those back, and neither says anything of the other direction.
   */
  lemma CandidatePairRows(job: Job, pools: seq<Pool>, universe: Option<set<string>>, c: string)
    requires c in Candidates(pools, job.anchor, universe)
    ensures var a, cs, tag := job.anchor, Candidates(pools, job.anchor, universe), TagOf(job);
            var forward := CandidateRow(job, pools, cs, PairKey(tag, a, c));
            var reverse := CandidateRow(job, pools, cs, PairKey(tag, c, a));
            && forward.Some? && [forward.value.yc] + forward.value.ycBackups == IdList(Ranked(pools, a, c))
            && forward.value.zc == "" && forward.value.zcBackups == []
            && reverse.Some? && [reverse.value.zc] + reverse.value.zcBackups == IdList(Ranked(pools, c, a))
            && reverse.value.yc == "" && reverse.value.ycBackups == []
            && 0 < forward.value.fixedCount == reverse.value.fixedCount <= forward.value.poolCount
  {
    var a := job.anchor;
    PairRowsStored(job, pools, Candidates(pools, a, universe), c);
    UsableSymmetric(pools, a, c);
    NonEmptyRanked(pools, a, c);
    NonEmptyRanked(pools, c, a);
    ConfirmedShorter(NormalPools(pools, a, c));
    HeadAndBackups(Ranked(pools, a, c));
    HeadAndBackups(Ranked(pools, c, a));
  }

  lemma PairRowsStored(job: Job, pools: seq<Pool>, cs: set<string>, c: string)
    requires c in cs && c != job.anchor
    ensures CandidateRow(job, pools, cs, PairKey(TagOf(job), job.anchor, c)) == Some(ForwardRow(pools, job.anchor, c))
    ensures CandidateRow(job, pools, cs, PairKey(TagOf(job), c, job.anchor)) == Some(ReverseRow(pools, job.anchor, c))
  {
  }

  /** The token row repeats both directions' ranked pools and the number of pools of the pair. */
  lemma CandidateTokenRow(job: Job, pools: seq<Pool>, universe: Option<set<string>>, c: string)
    requires c in Candidates(pools, job.anchor, universe)
    ensures var a, cs := job.anchor, Candidates(pools, job.anchor, universe);
            var row := CandidateRow(job, pools, cs, TokenKey(TagOf(job), c));
            && row.Some? && [row.value.yc] + row.value.ycBackups == IdList(Ranked(pools, a, c))
            && [row.value.zc] + row.value.zcBackups == IdList(Ranked(pools, c, a))
            && row.value.poolCount == |Scan(Filter(pools, Normal), c, a)|
  {
    var a := job.anchor;
    UsableSymmetric(pools, a, c);
    NonEmptyRanked(pools, a, c);
    NonEmptyRanked(pools, c, a);
    ScanSymmetric(Filter(pools, Normal), a, c);
    HeadAndBackups(Ranked(pools, a, c));
    HeadAndBackups(Ranked(pools, c, a));
  }

  lemma NonEmptyRanked(pools: seq<Pool>, x: string, y: string)
    requires Usable(pools, x, y) != []
    ensures Ranked(pools, x, y) != []
  {
    var p := Usable(pools, x, y)[0];
    assert p in Usable(pools, x, y);
    UsableIn(pools, x, y, p);
    RankIsScore(p, x, y);
    HeadHasHighestScore(Usable(pools, x, y), x, y, p, Rank(p, x, y));
  }

  lemma {:induction false} ConfirmedShorter(s: seq<Pool>)
    ensures |Confirmed(s)| <= |s|
  {
    if s != [] {
      ConfirmedShorter(s[..|s| - 1]);
    }
  }

  lemma HeadAndBackups(s: seq<Pool>)
    requires s != []
    ensures [FirstId(s)] + Backups(s) == IdList(s)
  {
  }

  // ----- one loop -----

  /** Three distinct tokens with each hop of a, y, z, a served by the pool of that hop. */
  ghost predicate Triangle(pools: seq<Pool>, a: string, y: string, z: string, p: string, q: string, r: string) {
    && y != a && z != a && y != z
    && ServedBy(pools, p, a, y) && ServedBy(pools, q, y, z) && ServedBy(pools, r, z, a)
  }

  /** The row describes such a triangle from the job's anchor. */
  ghost predicate RealTriangle(pools: seq<Pool>, job: Job, row: Row) {
    && row.LoopRow? && row.symbol == job.symbol
    && |row.path| == 4 && |row.poolPath| == 3
    && row.path[0] == row.path[3] == job.anchor
    && Triangle(pools, job.anchor, row.path[1], row.path[2], row.poolPath[0], row.poolPath[1], row.poolPath[2])
  }

  lemma CandidateUsable(pools: seq<Pool>, a: string, universe: Option<set<string>>, c: string)
    requires WellStored(pools) && c in Candidates(pools, a, universe)
    ensures c != a
    ensures ServedBy(pools, FirstId(Ranked(pools, a, c)), a, c)
    ensures ServedBy(pools, FirstId(Ranked(pools, c, a)), c, a)
  {
    UsableSymmetric(pools, a, c);
    SelectionHeads(pools, a, c);
    SelectionHeads(pools, c, a);
  }

  lemma ExpectedIsTriangle(job: Job, src: Source, universe: Option<set<string>>, y: string, z: string)
    requires WellStored(src.pools)
    requires Expected(job, src, Candidates(src.pools, job.anchor, universe), y, z)
    ensures var path := BestPath(job, src.pools, y, z);
            Triangle(src.pools, job.anchor, y, z, path[0], path[1], path[2])
  {
    CandidateUsable(src.pools, job.anchor, universe, y);
    CandidateUsable(src.pools, job.anchor, universe, z);
    SelectionHeads(src.pools, y, z);
  }

  lemma RowOfTriangle(pools: seq<Pool>, job: Job, y: string, z: string, poolPath: seq<string>)
    requires |poolPath| == 3 && Triangle(pools, job.anchor, y, z, poolPath[0], poolPath[1], poolPath[2])
    ensures RealTriangle(pools, job, LoopRow(job.symbol, Path(job, y, z), poolPath))
  {
  }

  /** Every loop stored for an anchor is a real triangle over its pools. */
  lemma StoredLoopIsTriangle(job: Job, src: Source, universe: Option<set<string>>, k: Key)
    requires WellStored(src.pools)
    requires k.LoopKey? && AnchorRow(job, src, universe, k).Some?
    ensures RealTriangle(src.pools, job, AnchorRow(job, src, universe, k).value)
    ensures AnchorRow(job, src, universe, k).value.path == [k.anchor, k.y, k.z, k.anchor]
  {
    ExpectedIsTriangle(job, src, universe, k.y, k.z);
    RowOfTriangle(src.pools, job, k.y, k.z, BestPath(job, src.pools, k.y, k.z));
  }

  /** A loop is stored for y and z exactly when the source calls for it, over the best pools. */
  lemma LoopStoredIff(job: Job, src: Source, universe: Option<set<string>>, y: string, z: string)
    ensures AnchorRow(job, src, universe, LoopKey(job.scope, job.market, job.anchor, y, z)) ==
            if Expected(job, src, Candidates(src.pools, job.anchor, universe), y, z)
            then Some(LoopRow(job.symbol, [job.anchor, y, z, job.anchor],
                              [FirstId(Ranked(src.pools, job.anchor, y)),
                               FirstId(Observed(src.pools, y, z)),
                               FirstId(Ranked(src.pools, z, job.anchor))]))
            else None
  {
  }

  /** Each stored loop has exactly three hop rows, which chain along its path through its pools. */
  lemma HopsOfLoop(job: Job, src: Source, cs: set<string>, y: string, z: string, index: nat,
                   loop: Option<Row>, hop: Option<Row>)
    requires loop == LoopRowFor(job, src, cs, LoopKey(job.scope, job.market, job.anchor, y, z))
    requires hop == LoopRowFor(job, src, cs, HopKey(job.scope, job.market, job.anchor, y, z, index))
    ensures hop.Some? <==> loop.Some? && 1 <= index <= 3
    ensures hop.Some? ==>
              hop.value == HopRow(loop.value.path[index - 1], loop.value.path[index], loop.value.poolPath[index - 1])
  {
  }

  /** With a faithful reading of the first two stages, the loop stage writes what the source calls for. */
  lemma LoopStageMeetsSource(job: Job, src: Source, universe: Option<set<string>>, r: Reading, k: Key)
    requires WellStored(src.pools)
    requires ReadsBack(r, src.pools, job.anchor, Candidates(src.pools, job.anchor, universe))
    ensures LoopStageRow(job, src.symbols, r, Pairs(r.tokens), k) ==
            LoopRowFor(job, src, Candidates(src.pools, job.anchor, universe), k)
  {
    if k.LoopKey? || k.HopKey? {
      QualifiesIff(job, src, universe, r, k.y, k.z);
    }
  }

  lemma MiddleObserved(pools: seq<Pool>, cs: set<string>, y: string, z: string)
    requires WellStored(pools) && y in cs && z in cs && y != z
    ensures FirstId(Observed(pools, y, z)) != "" <==> Usable(pools, y, z) != []
    ensures Usable(pools, y, z) != [] ==> ObservedPool(pools, cs, FirstId(Observed(pools, y, z)))
  {
    SelectionHeads(pools, y, z);
    if Usable(pools, y, z) != [] {
      var p := Observed(pools, y, z)[0];
      assert p in Usable(pools, y, z);
    }
  }

  lemma QualifiesIff(job: Job, src: Source, universe: Option<set<string>>, r: Reading, y: string, z: string)
    requires WellStored(src.pools)
    requires ReadsBack(r, src.pools, job.anchor, Candidates(src.pools, job.anchor, universe))
    ensures (y, z) in Pairs(r.tokens) && Qualifies(job, src.symbols, r, y, z) <==>
            Expected(job, src, r.tokens, y, z)
    ensures Expected(job, src, r.tokens, y, z) ==>
              PoolPath(job, src.symbols, r, y, z) == BestPath(job, src.pools, y, z)
  {
    var cs := r.tokens;
    if y in cs && z in cs && y != z {
      CandidateUsable(src.pools, job.anchor, universe, y);
      CandidateUsable(src.pools, job.anchor, universe, z);
      MiddleObserved(src.pools, cs, y, z);
      assert (y, z) in Pairs(cs);
    }
  }

  // ----- the migration's integrity count -----

  lemma UnionCount(a: set<(string, string)>, b: set<(string, string)>, c: set<(string, string)>)
    requires a !! b && (a + b) !! c
    ensures |a + b + c| == |a| + |b| + |c|
  {
  }

  function From(c: string, rest: set<string>): set<(string, string)> {
    set y | y in rest :: (c, y)
  }

  function Into(rest: set<string>, c: string): set<(string, string)> {
    set x | x in rest :: (x, c)
  }

  lemma DirectionsSplit(cs: set<string>, c: string)
    requires c in cs
    ensures var rest := cs - {c};
            && Directions(cs) == Directions(rest) + From(c, rest) + Into(rest, c)
            && Directions(rest) !! From(c, rest) && (Directions(rest) + From(c, rest)) !! Into(rest, c)
  {
  }

  /** There are n(n - 1) ordered pairs of n distinct tokens. */
  lemma {:induction false} DirectionsCount(cs: set<string>)
    ensures |Directions(cs)| == |cs| * (|cs| - 1)
    decreases cs
  {
    if cs == {} {
      assert Directions(cs) == {};
    } else {
      var c :| c in cs;
      var rest := cs - {c};
      DirectionsCount(rest);
      PairedCount(rest, c);
      DirectionsSplit(cs, c);
      UnionCount(Directions(rest), From(c, rest), Into(rest, c));
      Triangular(|rest|);
      assert |cs| == |rest| + 1;
    }
  }

  lemma Triangular(n: nat)
    ensures n * (n - 1) + 2 * n == (n + 1) * n
  {
  }

  lemma {:induction false} PairedCount(rest: set<string>, c: string)
    ensures |From(c, rest)| == |rest|
    ensures |Into(rest, c)| == |rest|
    decreases rest
  {
    if rest == {} {
      assert From(c, rest) == {} && Into(rest, c) == {};
    } else {
      var r :| r in rest;
      PairedCount(rest - {r}, c);
      PairedStep(rest, r, c);
    }
  }

  lemma PairedStep(rest: set<string>, r: string, c: string)
    requires r in rest
    ensures |From(c, rest)| == |From(c, rest - {r})| + 1
    ensures |Into(rest, c)| == |Into(rest - {r}, c)| + 1
  {
    assert From(c, rest) == From(c, rest - {r}) + {(c, r)};
    assert Into(rest, c) == Into(rest - {r}, c) + {(r, c)};
  }

  // ----- all anchors -----

  lemma SameLookups(a: Tables, b: Tables)
    requires forall k :: Lookup(a, k) == Lookup(b, k)
    ensures a == b
  {
    forall k | true ensures k in a <==> k in b {
      assert Lookup(a, k) == Lookup(b, k);
    }
    forall k | k in a ensures a[k] == b[k] {
      assert Lookup(a, k) == Lookup(b, k);
    }
  }

  /** Prior rows of the scope do not matter: equal surroundings give equal results. */
  lemma RebuildIgnoresPrior(x: Tables, y: Tables, afterX: Tables, afterY: Tables, scope: Scope, jobs: seq<Job>,
                            src: Source, universe: Option<set<string>>)
    requires Outside(x, scope) == Outside(y, scope)
    requires BuiltFrom(x, afterX, scope, jobs, src, universe) && BuiltFrom(y, afterY, scope, jobs, src, universe)
    ensures afterX == afterY
  {
    forall k | true ensures Lookup(afterX, k) == Lookup(afterY, k) {
      if ScopeOf(k) != scope {
        assert Lookup(x, k) == Lookup(Outside(x, scope), k);
        assert Lookup(y, k) == Lookup(Outside(y, scope), k);
      }
    }
    SameLookups(afterX, afterY);
  }

  /** Building again from the result changes nothing. */
  lemma RebuildAgain(before: Tables, once: Tables, twice: Tables, scope: Scope, jobs: seq<Job>,
                     src: Source, universe: Option<set<string>>)
    requires BuiltFrom(before, once, scope, jobs, src, universe)
    requires BuiltFrom(once, twice, scope, jobs, src, universe)
    ensures twice == once
  {
    forall k | true ensures Lookup(twice, k) == Lookup(once, k) {
      if ScopeOf(k) != scope {
        assert Lookup(once, k) == Lookup(before, k);
      }
    }
    SameLookups(twice, once);
  }

  /** Different jobs have different symbols and different anchor tokens. */
  ghost predicate Apart(jobs: seq<Job>) {
    forall i, j :: 0 <= i < |jobs| && 0 <= j < |jobs| && jobs[i] != jobs[j] ==>
      jobs[i].symbol != jobs[j].symbol && jobs[i].anchor != jobs[j].anchor
  }

  lemma OneJobPerKey(a: Job, b: Job, src: Source, universe: Option<set<string>>, k: Key)
    requires a == b || (a.symbol != b.symbol && a.anchor != b.anchor)
    requires AnchorRow(a, src, universe, k).Some? && AnchorRow(b, src, universe, k).Some?
    ensures a == b
  {
    AnchorKeys(a, src, universe, k);
    AnchorKeys(b, src, universe, k);
  }

  /** Jobs with distinct symbols and anchors give the same content in any order. */
  lemma AnyOrder(xs: seq<Job>, ys: seq<Job>, src: Source, universe: Option<set<string>>, k: Key)
    requires Apart(xs) && forall job :: job in xs <==> job in ys
    ensures Content(xs, src, universe, k) == Content(ys, src, universe, k)
  {
    ContentFromOne(xs, src, universe, k);
    ContentFromOne(ys, src, universe, k);
    if Content(xs, src, universe, k).Some? && Content(ys, src, universe, k).Some? {
      var a :| a in xs && AnchorRow(a, src, universe, k) == Content(xs, src, universe, k);
      var b :| b in ys && AnchorRow(b, src, universe, k) == Content(ys, src, universe, k);
      assert b in xs;
      var i :| 0 <= i < |xs| && xs[i] == a;
      var j :| 0 <= j < |xs| && xs[j] == b;
      OneJobPerKey(a, b, src, universe, k);
    }
  }

  /** Whatever the order of the anchors, the rebuilt tables are the same. */
  lemma RebuildAnyOrder(before: Tables, afterX: Tables, afterY: Tables, scope: Scope, xs: seq<Job>, ys: seq<Job>,
                        src: Source, universe: Option<set<string>>)
    requires Apart(xs) && forall job :: job in xs <==> job in ys
    requires BuiltFrom(before, afterX, scope, xs, src, universe)
    requires BuiltFrom(before, afterY, scope, ys, src, universe)
    ensures afterX == afterY
  {
    forall k | true ensures Lookup(afterX, k) == Lookup(afterY, k) {
      AnyOrder(xs, ys, src, universe, k);
    }
    SameLookups(afterX, afterY);
  }

  /** Every loop in the rebuilt scope is a real triangle over usable pools of the source. */
  lemma AllLoopsAreTriangles(before: Tables, after: Tables, scope: Scope, jobs: seq<Job>,
                             src: Source, universe: Option<set<string>>, k: Key)
    requires WellStored(src.pools) && BuiltFrom(before, after, scope, jobs, src, universe)
    requires k in after && k.LoopKey? && k.scope == scope
    ensures exists job :: job in jobs && RealTriangle(src.pools, job, after[k]) &&
                          after[k].path == [k.anchor, k.y, k.z, k.anchor]
  {
    assert Lookup(after, k) == Content(jobs, src, universe, k);
    ContentFromOne(jobs, src, universe, k);
    var job :| job in jobs && AnchorRow(job, src, universe, k) == Content(jobs, src, universe, k);
    StoredLoopIsTriangle(job, src, universe, k);
  }

  // ----- one anchor's rows among all -----

  /** Jobs that build loops under the same keys. */
  predicate SameLoops(a: Job, b: Job) {
    a.scope == b.scope && a.market == b.market && a.anchor == b.anchor
  }

  /** The last of the jobs that builds the same loops as the given one. */
  function LastAt(jobs: seq<Job>, job: Job): (last: Job)
    ensures SameLoops(last, job)
  {
    if jobs == [] then job
    else if SameLoops(jobs[|jobs| - 1], job) then jobs[|jobs| - 1]
    else LastAt(jobs[..|jobs| - 1], job)
  }

  lemma {:induction false} LastAtListed(jobs: seq<Job>, job: Job)
    requires job in jobs
    ensures LastAt(jobs, job) in jobs
    ensures (forall other :: other in jobs && SameLoops(other, job) ==> other == job) ==> LastAt(jobs, job) == job
  {
    var init, last := jobs[..|jobs| - 1], jobs[|jobs| - 1];
    assert jobs == init + [last];
    if !SameLoops(last, job) {
      LastAtListed(init, job);
    }
  }

  /** Jobs that build the same loops agree on them up to the symbol. */
  lemma SameLoopRows(a: Job, b: Job, src: Source, universe: Option<set<string>>, k: Key)
    requires SameLoops(a, b) && (k.LoopKey? || k.HopKey?)
    ensures AnchorRow(a, src, universe, k).Some? <==> AnchorRow(b, src, universe, k).Some?
    ensures k.HopKey? ==> AnchorRow(a, src, universe, k) == AnchorRow(b, src, universe, k)
  {
  }

  lemma TagContent(jobs: seq<Job>, job: Job, src: Source, universe: Option<set<string>>, k: Key)
    requires Coherent(jobs) && job in jobs && OwnKey(job, k) && !k.LoopKey? && !k.HopKey?
    ensures Content(jobs, src, universe, k) == AnchorRow(job, src, universe, k)
  {
    ContentFromOne(jobs, src, universe, k);
    if Content(jobs, src, universe, k).Some? {
      var other :| other in jobs && AnchorRow(other, src, universe, k) == Content(jobs, src, universe, k);
      AnchorKeys(other, src, universe, k);
      var i :| 0 <= i < |jobs| && jobs[i] == job;
      var j :| 0 <= j < |jobs| && jobs[j] == other;
      assert other == job;
    }
  }

  lemma HopContent(jobs: seq<Job>, job: Job, src: Source, universe: Option<set<string>>, k: Key)
    requires job in jobs && OwnKey(job, k) && k.HopKey?
    ensures Content(jobs, src, universe, k) == AnchorRow(job, src, universe, k)
  {
    ContentFromOne(jobs, src, universe, k);
    if Content(jobs, src, universe, k).Some? {
      var other :| other in jobs && AnchorRow(other, src, universe, k) == Content(jobs, src, universe, k);
      AnchorKeys(other, src, universe, k);
      SameLoopRows(other, job, src, universe, k);
    }
  }

  lemma {:induction false} LoopContent(jobs: seq<Job>, job: Job, src: Source, universe: Option<set<string>>, k: Key)
    requires job in jobs && OwnKey(job, k) && k.LoopKey?
    ensures Content(jobs, src, universe, k) == AnchorRow(LastAt(jobs, job), src, universe, k)
  {
    var init, last := jobs[..|jobs| - 1], jobs[|jobs| - 1];
    assert jobs == init + [last];
    SameLoopRows(LastAt(jobs, job), job, src, universe, k);
    if AnchorRow(job, src, universe, k).None? {
      NoLoopContent(jobs, job, src, universe, k);
    } else if SameLoops(last, job) {
      SameLoopRows(last, job, src, universe, k);
    } else {
      if AnchorRow(last, src, universe, k).Some? {
        AnchorKeys(last, src, universe, k);
      }
      LoopContent(init, job, src, universe, k);
    }
  }

  lemma NoLoopContent(jobs: seq<Job>, job: Job, src: Source, universe: Option<set<string>>, k: Key)
    requires OwnKey(job, k) && k.LoopKey? && AnchorRow(job, src, universe, k).None?
    ensures Content(jobs, src, universe, k).None?
  {
  }

  /**
   The content under a job's own key is that job's row, even when several symbols share an address;
   a loop then carries the symbol of the last job at the address.
   */
  lemma OwnContent(jobs: seq<Job>, job: Job, src: Source, universe: Option<set<string>>, k: Key)
    requires Coherent(jobs) && job in jobs && OwnKey(job, k)
    ensures Content(jobs, src, universe, k) ==
            AnchorRow(if k.LoopKey? then LastAt(jobs, job) else job, src, universe, k)
  {
    if k.LoopKey? {
      LoopContent(jobs, job, src, universe, k);
    } else if k.HopKey? {
      HopContent(jobs, job, src, universe, k);
    } else {
      TagContent(jobs, job, src, universe, k);
    }
  }

  /** The same row, up to the symbol a loop is stored under. */
  predicate SameUpToSymbol(x: Option<Row>, y: Option<Row>) {
    || x == y
    || (x.Some? && y.Some? && x.value.LoopRow? && y.value.LoopRow?
        && x.value.path == y.value.path && x.value.poolPath == y.value.poolPath)
  }

  /**
   Whatever addresses the anchors share, the order of the jobs can change nothing but the symbol of
   a loop, and that only when the last job at its address is another one.
   */
  lemma AnyOrderUpToSymbol(xs: seq<Job>, ys: seq<Job>, job: Job, src: Source, universe: Option<set<string>>, k: Key)
    requires Coherent(xs) && Coherent(ys) && (forall j :: j in xs <==> j in ys)
    requires job in xs && OwnKey(job, k)
    ensures SameUpToSymbol(Content(xs, src, universe, k), Content(ys, src, universe, k))
    ensures Content(xs, src, universe, k) == Content(ys, src, universe, k) <==>
            || !k.LoopKey? || Content(xs, src, universe, k).None?
            || LastAt(xs, job).symbol == LastAt(ys, job).symbol
  {
    OwnContent(xs, job, src, universe, k);
    OwnContent(ys, job, src, universe, k);
    if k.LoopKey? {
      SameLoopRows(LastAt(xs, job), LastAt(ys, job), src, universe, k);
    }
  }

  /** The row stored under a tag key of the job. */
  lemma TagRow(before: Tables, after: Tables, jobs: seq<Job>, job: Job,
               src: Source, universe: Option<set<string>>, k: Key)
    requires Coherent(jobs) && job in jobs && OwnKey(job, k) && !k.LoopKey? && !k.HopKey?
    requires BuiltFrom(before, after, job.scope, jobs, src, universe)
    ensures Lookup(after, k) == AnchorRow(job, src, universe, k)
  {
    TagContent(jobs, job, src, universe, k);
    assert ScopeOf(k) == job.scope;
  }

  /** A job's loop is in the rebuilt tables exactly when the source calls for it. */
  lemma LoopsComplete(before: Tables, after: Tables, jobs: seq<Job>, job: Job,
                      src: Source, universe: Option<set<string>>, y: string, z: string)
    requires job in jobs
    requires BuiltFrom(before, after, job.scope, jobs, src, universe)
    ensures Lookup(after, LoopKey(job.scope, job.market, job.anchor, y, z)) ==
            if Expected(job, src, Candidates(src.pools, job.anchor, universe), y, z)
            then Some(LoopRow(LastAt(jobs, job).symbol, [job.anchor, y, z, job.anchor],
                              [FirstId(Ranked(src.pools, job.anchor, y)),
                               FirstId(Observed(src.pools, y, z)),
                               FirstId(Ranked(src.pools, z, job.anchor))]))
            else None
  {
    var k := LoopKey(job.scope, job.market, job.anchor, y, z);
    LoopStoredIff(LastAt(jobs, job), src, universe, y, z);
    LoopContent(jobs, job, src, universe, k);
  }

  /** The hop row takes the loop's path one step further through the pool of that step. */
  predicate HopOn(loop: Row, hop: Row, index: nat) {
    && loop.LoopRow? && |loop.path| == 4 && |loop.poolPath| == 3 && 1 <= index <= 3
    && hop == HopRow(loop.path[index - 1], loop.path[index], loop.poolPath[index - 1])
  }

  /** In the rebuilt tables a loop has exactly three hop rows, chaining along its path through its pools. */
  lemma StoredHops(before: Tables, after: Tables, jobs: seq<Job>, job: Job,
                   src: Source, universe: Option<set<string>>, y: string, z: string, index: nat)
    requires job in jobs
    requires BuiltFrom(before, after, job.scope, jobs, src, universe)
    ensures var loop := Lookup(after, LoopKey(job.scope, job.market, job.anchor, y, z));
            var hop := Lookup(after, HopKey(job.scope, job.market, job.anchor, y, z, index));
            && (hop.Some? <==> loop.Some? && 1 <= index <= 3)
            && (hop.Some? ==> HopOn(loop.value, hop.value, index))
  {
    var cs, owner := Candidates(src.pools, job.anchor, universe), LastAt(jobs, job);
    var l := LoopKey(job.scope, job.market, job.anchor, y, z);
    var h := HopKey(job.scope, job.market, job.anchor, y, z, index);
    LoopContent(jobs, job, src, universe, l);
    HopContent(jobs, job, src, universe, h);
    SameLoopRows(owner, job, src, universe, h);
    HopsOfLoop(owner, src, cs, y, z, index, LoopRowFor(owner, src, cs, l), LoopRowFor(owner, src, cs, h));
  }

  /** The outer pools are stored as rank 1 of their directions and the middle one as optimal from y to z. */
  ghost predicate PoolsStored(rows: Tables, job: Job, y: string, z: string, poolPath: seq<string>)
    requires |poolPath| == 3
  {
    && Lookup(rows, RecKey(TagOf(job), y, job.anchor, y, First, poolPath[0])) == Some(RecRow(1))
    && Lookup(rows, RecKey(TagOf(job), job.anchor, z, job.anchor, Third, poolPath[2])) == Some(RecRow(1))
    && ObservesBest(rows, TagOf(job), y, z, poolPath[1])
  }

  lemma BestPoolsStored(before: Tables, after: Tables, jobs: seq<Job>, job: Job,
                        src: Source, universe: Option<set<string>>, y: string, z: string)
    requires WellStored(src.pools) && Coherent(jobs) && job in jobs
    requires BuiltFrom(before, after, job.scope, jobs, src, universe)
    requires Expected(job, src, Candidates(src.pools, job.anchor, universe), y, z)
    ensures PoolsStored(after, job, y, z, BestPath(job, src.pools, y, z))
  {
    TopRecStored(before, after, jobs, job, src, universe, y, job.anchor, y, First);
    TopRecStored(before, after, jobs, job, src, universe, z, z, job.anchor, Third);
    MiddleStored(before, after, jobs, job, src, universe, y, z);
  }

  /**
   Across the tables: a stored loop's outer pools are the stored recommendations of rank 1 for
   their directions, and its middle pool is the optimal pool observed from y to z.
   */
  lemma LoopPoolsAcrossTables(before: Tables, after: Tables, jobs: seq<Job>, job: Job,
                              src: Source, universe: Option<set<string>>, y: string, z: string)
    requires WellStored(src.pools) && Coherent(jobs) && job in jobs
    requires BuiltFrom(before, after, job.scope, jobs, src, universe)
    requires LoopKey(job.scope, job.market, job.anchor, y, z) in after
    ensures var row := after[LoopKey(job.scope, job.market, job.anchor, y, z)];
            row.LoopRow? && |row.poolPath| == 3 && PoolsStored(after, job, y, z, row.poolPath)
  {
    LoopsComplete(before, after, jobs, job, src, universe, y, z);
    BestPoolsStored(before, after, jobs, job, src, universe, y, z);
  }

  /** A candidate's best pool for a hop is stored with rank 1. */
  lemma TopRecStored(before: Tables, after: Tables, jobs: seq<Job>, job: Job, src: Source,
                     universe: Option<set<string>>, c: string, x: string, y: string, hop: Hop)
    requires Coherent(jobs) && job in jobs && BuiltFrom(before, after, job.scope, jobs, src, universe)
    requires c in Candidates(src.pools, job.anchor, universe)
    requires (x, y) == if hop.First? then (job.anchor, c) else (c, job.anchor)
    ensures Lookup(after, RecKey(TagOf(job), y, x, y, hop, FirstId(Ranked(src.pools, x, y)))) == Some(RecRow(1))
  {
    UsableSymmetric(src.pools, x, y);
    BestRanked(src.pools, x, y);
    TagRow(before, after, jobs, job, src, universe,
           RecKey(TagOf(job), y, x, y, hop, FirstId(Ranked(src.pools, x, y))));
  }

  lemma MiddleStored(before: Tables, after: Tables, jobs: seq<Job>, job: Job, src: Source,
                     universe: Option<set<string>>, y: string, z: string)
    requires WellStored(src.pools)
    requires Coherent(jobs) && job in jobs && BuiltFrom(before, after, job.scope, jobs, src, universe)
    requires Expected(job, src, Candidates(src.pools, job.anchor, universe), y, z)
    ensures ObservesBest(after, TagOf(job), y, z, FirstId(Observed(src.pools, y, z)))
  {
    var best := FirstId(Observed(src.pools, y, z));
    MiddleRows(job, src, universe, y, z, best);
    TagRow(before, after, jobs, job, src, universe, ObsKey(TagOf(job), y, z));
    TagRow(before, after, jobs, job, src, universe, ObsPoolKey(TagOf(job), best));
  }

  lemma MiddleRows(job: Job, src: Source, universe: Option<set<string>>, y: string, z: string, best: string)
    requires WellStored(src.pools) && Expected(job, src, Candidates(src.pools, job.anchor, universe), y, z)
    requires best == FirstId(Observed(src.pools, y, z))
    ensures AnchorRow(job, src, universe, ObsKey(TagOf(job), y, z)) == Some(ObsRowOf(src.pools, y, z))
    ensures AnchorRow(job, src, universe, ObsPoolKey(TagOf(job), best)) == Some(ObsPoolRow)
  {
    ObservedRows(TagOf(job), src.pools, Candidates(src.pools, job.anchor, universe), y, z);
  }

  lemma ObservedRows(tag: Tag, pools: seq<Pool>, cs: set<string>, y: string, z: string)
    requires WellStored(pools) && y in cs && z in cs && y != z && Usable(pools, y, z) != []
    ensures ObservationRow(tag, pools, cs, ObsKey(tag, y, z)) == Some(ObsRowOf(pools, y, z))
    ensures ObservationRow(tag, pools, cs, ObsPoolKey(tag, FirstId(Observed(pools, y, z)))) == Some(ObsPoolRow)
  {
    MiddleObserved(pools, cs, y, z);
    RowsOfObserved(tag, pools, cs, y, z, FirstId(Observed(pools, y, z)));
  }

  lemma RowsOfObserved(tag: Tag, pools: seq<Pool>, cs: set<string>, y: string, z: string, id: string)
    requires y in cs && z in cs && y != z && ObservedPool(pools, cs, id)
    ensures ObservationRow(tag, pools, cs, ObsKey(tag, y, z)) == Some(ObsRowOf(pools, y, z))
    ensures ObservationRow(tag, pools, cs, ObsPoolKey(tag, id)) == Some(ObsPoolRow)
  {
  }

  /** The observation tables name the pool as optimal for the direction and list it. */
  ghost predicate ObservesBest(rows: Tables, tag: Tag, y: string, z: string, id: string) {
    var k := ObsKey(tag, y, z);
    k in rows && rows[k].ObsRow? && rows[k].optimal == id && ObsPoolKey(tag, id) in rows
  }

  lemma BestRanked(pools: seq<Pool>, x: string, y: string)
    requires Usable(pools, x, y) != []
    ensures FirstId(Ranked(pools, x, y)) in Ids(Ranked(pools, x, y))
    ensures Place(Ranked(pools, x, y), FirstId(Ranked(pools, x, y))) == 1
  {
    NonEmptyRanked(pools, x, y);
    assert Id(Ranked(pools, x, y)[0]) in Ids(Ranked(pools, x, y));
  }

  ghost function TokenKeys(rows: Tables, tag: Tag): set<Key> {
    set k | k in rows && k.TokenKey? && k.tag == tag
  }

  ghost function ObservationKeys(rows: Tables, tag: Tag): set<Key> {
    set k | k in rows && k.ObsKey? && k.tag == tag
  }

  /** An anchor with n candidate tokens has exactly n(n - 1) observation directions. */
  lemma DirectionIntegrity(before: Tables, after: Tables, jobs: seq<Job>, job: Job,
                           src: Source, universe: Option<set<string>>)
    requires Coherent(jobs) && job in jobs
    requires BuiltFrom(before, after, job.scope, jobs, src, universe)
    ensures var n := |TokenKeys(after, TagOf(job))|; |ObservationKeys(after, TagOf(job))| == n * (n - 1)
  {
    var cs := Candidates(src.pools, job.anchor, universe);
    forall k: Key | k.TokenKey? && k.tag == TagOf(job) ensures k in after <==> k.token in cs {
      TagRow(before, after, jobs, job, src, universe, k);
    }
    forall k: Key | k.ObsKey? && k.tag == TagOf(job)
      ensures k in after <==> k.x in cs && k.y in cs && k.x != k.y
    {
      TagRow(before, after, jobs, job, src, universe, k);
    }
    TokenKeyCount(after, TagOf(job), cs);
    ObsKeyCount(after, TagOf(job), cs);
    DirectionsCount(cs);
  }

  lemma TokenKeyCount(rows: Tables, tag: Tag, cs: set<string>)
    requires forall k: Key :: k.TokenKey? && k.tag == tag ==> (k in rows <==> k.token in cs)
    ensures |TokenKeys(rows, tag)| == |cs|
  {
    var keys := set c | c in cs :: TokenKey(tag, c);
    assert TokenKeys(rows, tag) == keys;
    KeyedCount(tag, cs);
  }

  lemma {:induction false} KeyedCount(tag: Tag, cs: set<string>)
    ensures |set c | c in cs :: TokenKey(tag, c)| == |cs|
    decreases cs
  {
    if cs == {} {
      assert (set c | c in cs :: TokenKey(tag, c)) == {};
    } else {
      var c :| c in cs;
      KeyedCount(tag, cs - {c});
      assert (set x | x in cs :: TokenKey(tag, x)) == (set x | x in cs - {c} :: TokenKey(tag, x)) + {TokenKey(tag, c)};
    }
  }

  lemma ObsKeyCount(rows: Tables, tag: Tag, cs: set<string>)
    requires forall k: Key :: k.ObsKey? && k.tag == tag ==> (k in rows <==> k.x in cs && k.y in cs && k.x != k.y)
    ensures |ObservationKeys(rows, tag)| == |Directions(cs)|
  {
    assert ObservationKeys(rows, tag) == (set d | d in Directions(cs) :: ObsKey(tag, d.0, d.1)) by {
      forall k | k in ObservationKeys(rows, tag) ensures k in (set d | d in Directions(cs) :: ObsKey(tag, d.0, d.1)) {
        assert (k.x, k.y) in Directions(cs);
      }
    }
    DirectedCount(tag, Directions(cs));
  }

  lemma {:induction false} DirectedCount(tag: Tag, ds: set<(string, string)>)
    ensures |set d | d in ds :: ObsKey(tag, d.0, d.1)| == |ds|
    decreases ds
  {
    if ds == {} {
      assert (set d | d in ds :: ObsKey(tag, d.0, d.1)) == {};
    } else {
      var d :| d in ds;
      DirectedCount(tag, ds - {d});
      assert (set e | e in ds :: ObsKey(tag, e.0, e.1)) ==
             (set e | e in ds - {d} :: ObsKey(tag, e.0, e.1)) + {ObsKey(tag, d.0, d.1)};
    }
  }

  // ----- a source with a loop -----

  function WitnessPool(id: string, x: string, y: string): Pool {
    Pool(id, Some(x), Some(y), Some(500), None, true, 0, 0)
  }

  function WitnessSource(): Source {
    Source([WitnessPool("p", "a", "b"), WitnessPool("q", "b", "c"), WitnessPool("r", "a", "c")],
           map["b" := "B", "c" := "C"])
  }

  lemma LetterIsNorm(c: char)
    requires 'a' <= c <= 'z'
    ensures IsNorm([c])
  {
  }

  lemma WitnessServes(p: Pool, x: string, y: string)
    requires p.confirmed && p.fee == Some(500) && p.hooks == None
    requires p.token0 == Some(x) && p.token1 == Some(y) && IsNorm(x) && IsNorm(y) && x != "" && y != ""
    ensures Serves(p, x, y) && Token0(p) == x && Token1(p) == y
  {
  }

  lemma TokensIn(pools: seq<Pool>, p: Pool)
    requires p in pools
    ensures Token0(p) in Tokens(pools) && Token1(p) in Tokens(pools)
  {
  }

  lemma ServedUsable(pools: seq<Pool>, p: Pool, x: string, y: string)
    requires p in pools && Serves(p, x, y)
    ensures Usable(pools, x, y) != [] && Usable(pools, y, x) != []
  {
    UsableIn(pools, x, y, p);
    UsableSymmetric(pools, x, y);
  }

  /** Some pool of the table serves the hop. */
  ghost predicate Swappable(pools: seq<Pool>, x: string, y: string) {
    exists p :: p in pools && Serves(p, x, y)
  }

  lemma UsableIff(pools: seq<Pool>, x: string, y: string)
    ensures Usable(pools, x, y) != [] <==> Swappable(pools, x, y)
  {
    if Usable(pools, x, y) != [] {
      UsableIn(pools, x, y, Usable(pools, x, y)[0]);
    }
    if Swappable(pools, x, y) {
      var p :| p in pools && Serves(p, x, y);
      UsableIn(pools, x, y, p);
    }
  }

  /** An anchor's counter tokens are the other tokens of the list that some pool joins to it. */
  lemma CandidateIff(pools: seq<Pool>, a: string, universe: Option<set<string>>, c: string)
    ensures c in Candidates(pools, a, universe) <==>
            c != a && (universe.Some? ==> c in universe.value) && Swappable(pools, a, c)
  {
    UsableIff(pools, a, c);
    if Swappable(pools, a, c) {
      var p :| p in pools && Serves(p, a, c);
      TokensIn(pools, p);
    }
  }

  /** The source calls for a loop exactly when three named, listed, different tokens have a pool for every hop. */
  lemma ExpectedIff(job: Job, src: Source, universe: Option<set<string>>, y: string, z: string)
    ensures Expected(job, src, Candidates(src.pools, job.anchor, universe), y, z) <==>
            && y != job.anchor && z != job.anchor && y != z
            && (universe.Some? ==> y in universe.value && z in universe.value)
            && Resolved(src.symbols, y) && Resolved(src.symbols, z)
            && Swappable(src.pools, job.anchor, y) && Swappable(src.pools, y, z) && Swappable(src.pools, z, job.anchor)
  {
    CandidateIff(src.pools, job.anchor, universe, y);
    CandidateIff(src.pools, job.anchor, universe, z);
    UsableIff(src.pools, y, z);
    UsableSymmetric(src.pools, z, job.anchor);
    UsableIff(src.pools, z, job.anchor);
    UsableIff(src.pools, job.anchor, z);
  }

  lemma WitnessUsable(pools: seq<Pool>, p: Pool, x: string, y: string)
    requires p in pools && p.confirmed && p.fee == Some(500) && p.hooks == None
    requires p.token0 == Some(x) && p.token1 == Some(y) && IsNorm(x) && IsNorm(y) && x != "" && y != ""
    ensures Usable(pools, x, y) != [] && Usable(pools, y, x) != [] && x in Tokens(pools) && y in Tokens(pools)
  {
    WitnessServes(p, x, y);
    TokensIn(pools, p);
    ServedUsable(pools, p, x, y);
  }

  lemma WitnessSymbol(c: char)
    requires 'A' <= c <= 'Z'
    ensures Symbol([c]) == [c] && !Placeholder([c])
  {
  }

  lemma WitnessStored(p: char, x: char, y: char)
    requires 'a' <= p <= 'z' && 'a' <= x < y <= 'z'
    ensures Stored(WitnessPool([p], [x], [y])) && Id(WitnessPool([p], [x], [y])) == [p]
  {
    LetterIsNorm(p);
    LetterIsNorm(x);
    LetterIsNorm(y);
  }

  lemma ThreeIds(s: seq<Pool>)
    requires |s| == 3 && Id(s[0]) != Id(s[1]) && Id(s[0]) != Id(s[2]) && Id(s[1]) != Id(s[2])
    ensures DistinctIds(s)
  {
    forall i, j | 0 <= i < j < |s| ensures Id(s[i]) != Id(s[j]) {
      assert (i == 0 && (j == 1 || j == 2)) || (i == 1 && j == 2);
    }
  }

  lemma ThreeSatisfy(s: seq<Pool>, ok: Pool -> bool)
    requires |s| == 3 && ok(s[0]) && ok(s[1]) && ok(s[2])
    ensures forall p :: p in s ==> ok(p)
  {
  }

  lemma WitnessWellStored()
    ensures WellStored(WitnessSource().pools)
  {
    WitnessStored('p', 'a', 'b');
    WitnessStored('q', 'b', 'c');
    WitnessStored('r', 'a', 'c');
    var s := WitnessSource().pools;
    assert s[0] == WitnessPool("p", "a", "b");
    assert s[1] == WitnessPool("q", "b", "c");
    assert s[2] == WitnessPool("r", "a", "c");
    ThreeIds(s);
    ThreeSatisfy(s, Stored);
  }

  lemma WitnessExpected(job: Job)
    requires job.anchor == "a"
    ensures Expected(job, WitnessSource(), Candidates(WitnessSource().pools, "a", None), "b", "c")
  {
    var src := WitnessSource();
    LetterIsNorm('a');
    LetterIsNorm('b');
    LetterIsNorm('c');
    WitnessUsable(src.pools, src.pools[0], "a", "b");
    WitnessUsable(src.pools, src.pools[1], "b", "c");
    WitnessUsable(src.pools, src.pools[2], "a", "c");
    WitnessSymbol('B');
    WitnessSymbol('C');
  }

  /** Three pools over three tokens already call for a loop. */
  lemma LoopWitness(job: Job)
    requires job.anchor == "a"
    ensures WellStored(WitnessSource().pools)
    ensures AnchorRow(job, WitnessSource(), None, LoopKey(job.scope, job.market, "a", "b", "c")).Some?
  {
    WitnessWellStored();
    WitnessExpected(job);
    LoopStoredIff(job, WitnessSource(), None, "b", "c");
  }
}

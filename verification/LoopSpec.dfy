/**
 What the closed-loop build must leave in the business tables, as a function of the source tables
 alone. All business tables form one map whose keys carry the table and its conflict key; a
 direction key is the ordered pair of its two addresses. A table's required content is given
 key by key: the row stored under the key, or None.
 */
module LoopSpec {
  import opened EdgeIndex
  import opened Scopes
  import opened Selection
  import opened Text
  import opened Wrappers

  // ----- source tables -----

  /** Pools of the scope ordered by id, and the token symbols by address. */
  datatype Source = Source(pools: seq<Pool>, symbols: map<string, string>)

  /**
   A pool in the form the builder counts on: normalized, complete, colon-free, in ascending token
   order. An import establishes the first two; the last two it takes from its payload.
   */
  predicate Stored(p: Pool) {
    && p.id != "" && IsNorm(p.id)
    && p.token0.Some? && p.token0.value != "" && IsNorm(p.token0.value) && NoColon(p.token0.value)
    && p.token1.Some? && p.token1.value != "" && IsNorm(p.token1.value) && NoColon(p.token1.value)
    && Less(p.token0.value, p.token1.value)
  }

  ghost predicate WellStored(pools: seq<Pool>) {
    (forall p :: p in pools ==> Stored(p)) && DistinctIds(pools)
  }

  const DYNAMIC_FEE_FLAG: int := 8_388_608
  const MAX_USABLE_FEE: int := 3000
  const ZERO_ADDRESS := "0x0000000000000000000000000000000000000000"

  predicate FixedFee(fee: Option<int>) {
    fee.Some? && 0 < fee.value <= MAX_USABLE_FEE && fee.value / DYNAMIC_FEE_FLAG % 2 == 0
  }

  predicate NoHook(hooks: Option<string>) {
    var normalized := Norm(hooks.GetOr(""));
    normalized == "" || normalized == ZERO_ADDRESS
  }

  predicate Normal(p: Pool) {
    FixedFee(p.fee) && NoHook(p.hooks)
  }

  /** The fixed-fee pools without hook that hold x and y. */
  function NormalPools(pools: seq<Pool>, x: string, y: string): seq<Pool> {
    Scan(Filter(pools, Normal), x, y)
  }

  /** The usable ones among them. */
  function Usable(pools: seq<Pool>, x: string, y: string): seq<Pool> {
    Confirmed(NormalPools(pools, x, y))
  }

  // ----- business tables -----

  datatype Tag = Tag(scope: Scope, anchorScope: string, symbol: string)

  datatype Hop = First | Third

  datatype Key =
    | TokenKey(tag: Tag, token: string)
    | PairKey(tag: Tag, x: string, y: string)
    | RecKey(tag: Tag, counter: string, x: string, y: string, hop: Hop, poolId: string)
    | ObsKey(tag: Tag, x: string, y: string)
    | ObsPoolKey(tag: Tag, poolId: string)
    | LoopKey(scope: Scope, market: string, anchor: string, y: string, z: string)
    | HopKey(scope: Scope, market: string, anchor: string, y: string, z: string, index: nat)

  datatype Row =
    | TokenRow(poolCount: nat, yc: string, zc: string, ycBackups: seq<string>, zcBackups: seq<string>)
    | PairRow(poolCount: nat, fixedCount: nat, yc: string, zc: string,
              ycBackups: seq<string>, zcBackups: seq<string>)
    | RecRow(rank: nat)
    | ObsRow(poolIds: seq<string>, optimal: string)
    | ObsPoolRow
    | LoopRow(symbol: string, path: seq<string>, poolPath: seq<string>)
    | HopRow(input: string, output: string, poolId: string)

  type Tables = map<Key, Row>

  function ScopeOf(k: Key): Scope {
    if k.LoopKey? || k.HopKey? then k.scope else k.tag.scope
  }

  function Lookup(rows: Tables, k: Key): Option<Row> {
    if k in rows then Some(rows[k]) else None
  }

  function Outside(rows: Tables, scope: Scope): Tables {
    map k | k in rows && ScopeOf(k) != scope :: rows[k]
  }

  /** One anchor's build: where its rows go and which token it starts from. */
  datatype Job = Job(scope: Scope, anchorScope: string, market: string, symbol: string, anchor: string)

  function TagOf(job: Job): Tag {
    Tag(job.scope, job.anchorScope, job.symbol)
  }

  // ----- what the candidate stage writes -----

  function IdList(s: seq<Pool>): (ids: seq<string>)
    ensures |ids| == |s| && forall i :: 0 <= i < |s| ==> ids[i] == Id(s[i])
  {
    seq(|s|, i requires 0 <= i < |s| => Id(s[i]))
  }

  function FirstId(s: seq<Pool>): string {
    if s == [] then "" else Id(s[0])
  }

  function Backups(s: seq<Pool>): seq<string> {
    if s == [] then [] else IdList(s[1..])
  }

  /** The recommendations from x to y. */
  function Ranked(pools: seq<Pool>, x: string, y: string): seq<Pool> {
    Recommend(Usable(pools, x, y), x, y)
  }

  /** The one-based place of an id in a ranking. */
  function Place(s: seq<Pool>, id: string): nat {
    if s == [] then 0 else if Id(s[0]) == id then 1 else 1 + Place(s[1..], id)
  }

  /** The counter tokens of an anchor: those it shares a usable pool with, within the universe. */
  ghost function Candidates(pools: seq<Pool>, a: string, universe: Option<set<string>>): set<string> {
    set c | c in Tokens(pools) && c != a && Usable(pools, a, c) != [] && (universe.Some? ==> c in universe.value)
  }

  function Tokens(pools: seq<Pool>): set<string> {
    (set p | p in pools :: Token0(p)) + (set p | p in pools :: Token1(p))
  }

  function TokenRowOf(pools: seq<Pool>, a: string, c: string): Row {
    var first, third := Ranked(pools, a, c), Ranked(pools, c, a);
    TokenRow(|NormalPools(pools, a, c)|, FirstId(first), FirstId(third), Backups(first), Backups(third))
  }

  function ForwardRow(pools: seq<Pool>, a: string, c: string): Row {
    var first := Ranked(pools, a, c);
    PairRow(|NormalPools(pools, a, c)|, |Usable(pools, a, c)|, FirstId(first), "", Backups(first), [])
  }

  function ReverseRow(pools: seq<Pool>, a: string, c: string): Row {
    var third := Ranked(pools, c, a);
    PairRow(|NormalPools(pools, a, c)|, |Usable(pools, a, c)|, "", FirstId(third), [], Backups(third))
  }

  /** The candidate tables' row under a key, for an anchor with these candidates. */
  function CandidateRow(job: Job, pools: seq<Pool>, cs: set<string>, k: Key): Option<Row> {
    var a := job.anchor;
    match k
    case TokenKey(tag, c) =>
      if tag == TagOf(job) && c in cs then Some(TokenRowOf(pools, a, c)) else None
    case PairKey(tag, x, y) =>
      if tag == TagOf(job) && x == a && y in cs then Some(ForwardRow(pools, a, y))
      else if tag == TagOf(job) && y == a && x in cs then Some(ReverseRow(pools, a, x))
      else None
    case RecKey(tag, counter, x, y, First, id) =>
      if tag == TagOf(job) && counter == y && x == a && y in cs && id in Ids(Ranked(pools, a, y))
      then Some(RecRow(Place(Ranked(pools, a, y), id))) else None
    case RecKey(tag, counter, x, y, Third, id) =>
      if tag == TagOf(job) && counter == a && y == a && x in cs && id in Ids(Ranked(pools, x, a))
      then Some(RecRow(Place(Ranked(pools, x, a), id))) else None
    case _ => None
  }

  // ----- what the observation stage writes -----

  /** The observed pool ids from x to y. */
  function Observed(pools: seq<Pool>, x: string, y: string): seq<Pool> {
    Observe(Usable(pools, x, y), x, y)
  }

  function ObsRowOf(pools: seq<Pool>, x: string, y: string): Row {
    ObsRow(IdList(Observed(pools, x, y)), FirstId(Observed(pools, x, y)))
  }

  /** The pool serves some direction between two different tokens of the set. */
  ghost predicate ObservedPool(pools: seq<Pool>, cs: set<string>, id: string) {
    exists x, y, p :: x in cs && y in cs && x != y && p in Usable(pools, x, y) && Id(p) == id
  }

  /** The observation tables' row under a key: one row per ordered pair of distinct tokens. */
  ghost function ObservationRow(own: Tag, pools: seq<Pool>, cs: set<string>, k: Key): Option<Row> {
    match k
    case ObsKey(tag, x, y) =>
      if tag == own && x in cs && y in cs && x != y then Some(ObsRowOf(pools, x, y)) else None
    case ObsPoolKey(tag, id) =>
      if tag == own && ObservedPool(pools, cs, id) then Some(ObsPoolRow) else None
    case _ => None
  }

  /** All ordered pairs of distinct tokens. */
  function Directions(cs: set<string>): set<(string, string)> {
    set x, y | x in cs && y in cs && x != y :: (x, y)
  }

  // ----- what the loop stage writes -----

  function HexDigit(c: char): bool {
    '0' <= c <= '9' || 'A' <= c <= 'F'
  }

  /** A symbol that is only a shortened address. */
  predicate Placeholder(symbol: string) {
    |symbol| == 10 && symbol[..2] == "0X" && forall i :: 2 <= i < 10 ==> HexDigit(symbol[i])
  }

  predicate Resolved(symbols: map<string, string>, token: string) {
    token in symbols && Symbol(symbols[token]) != "" && !Placeholder(Symbol(symbols[token]))
  }

  /** What the loop stage reads back from the tables of the first two stages. */
  datatype Reading = Reading(
    tokens: set<string>,
    first: map<(string, string), string>,
    third: map<(string, string), string>,
    middle: map<(string, string), string>,
    observed: set<string>)

  predicate Qualifies(job: Job, symbols: map<string, string>, r: Reading, y: string, z: string) {
    && y != job.anchor && Resolved(symbols, y)
    && z != job.anchor && z != y && Resolved(symbols, z)
    && (job.anchor, y) in r.first && (z, job.anchor) in r.third
    && (y, z) in r.middle && r.middle[(y, z)] != "" && r.middle[(y, z)] in r.observed
  }

  function Path(job: Job, y: string, z: string): seq<string> {
    [job.anchor, y, z, job.anchor]
  }

  function PoolPath(job: Job, symbols: map<string, string>, r: Reading, y: string, z: string): seq<string>
    requires Qualifies(job, symbols, r, y, z)
  {
    [r.first[(job.anchor, y)], r.middle[(y, z)], r.third[(z, job.anchor)]]
  }

  /** The loop tables' row under a key, for the pairs in ds. */
  function LoopStageRow(job: Job, symbols: map<string, string>, r: Reading,
                        ds: set<(string, string)>, k: Key): Option<Row>
  {
    match k
    case LoopKey(scope, market, anchor, y, z) =>
      if && scope == job.scope && market == job.market && anchor == job.anchor
         && (y, z) in ds && Qualifies(job, symbols, r, y, z)
      then Some(LoopRow(job.symbol, Path(job, y, z), PoolPath(job, symbols, r, y, z)))
      else None
    case HopKey(scope, market, anchor, y, z, index) =>
      if && scope == job.scope && market == job.market && anchor == job.anchor
         && (y, z) in ds && 1 <= index <= 3 && Qualifies(job, symbols, r, y, z)
      then Some(HopRow(Path(job, y, z)[index - 1], Path(job, y, z)[index],
                       PoolPath(job, symbols, r, y, z)[index - 1]))
      else None
    case _ => None
  }

  function Pairs(cs: set<string>): set<(string, string)> {
    set x, y | x in cs && y in cs :: (x, y)
  }

  // ----- one anchor's whole content -----

  /** The reading that the candidate and observation tables of an anchor amount to. */
  ghost predicate ReadsBack(r: Reading, pools: seq<Pool>, a: string, cs: set<string>) {
    && r.tokens == cs
    && (forall c :: c in cs ==> (a, c) in r.first && r.first[(a, c)] == FirstId(Ranked(pools, a, c)))
    && (forall c :: c in cs ==> (c, a) in r.third && r.third[(c, a)] == FirstId(Ranked(pools, c, a)))
    && (forall y, z :: y in cs && z in cs && y != z ==>
          (y, z) in r.middle && r.middle[(y, z)] == FirstId(Observed(pools, y, z)))
    && (forall id :: id in r.observed <==> ObservedPool(pools, cs, id) && id != "")
  }

  /** The condition, on the source alone, for the loop from the anchor over y and z. */
  ghost predicate Expected(job: Job, src: Source, cs: set<string>, y: string, z: string) {
    && y in cs && z in cs && y != z
    && Resolved(src.symbols, y) && Resolved(src.symbols, z)
    && Usable(src.pools, y, z) != []
  }

  /** The loop's pools: the best first hop, the best observed middle and the best third hop. */
  function BestPath(job: Job, pools: seq<Pool>, y: string, z: string): seq<string> {
    [FirstId(Ranked(pools, job.anchor, y)), FirstId(Observed(pools, y, z)), FirstId(Ranked(pools, z, job.anchor))]
  }

  ghost function LoopRowFor(job: Job, src: Source, cs: set<string>, k: Key): Option<Row> {
    match k
    case LoopKey(scope, market, anchor, y, z) =>
      if && scope == job.scope && market == job.market && anchor == job.anchor && Expected(job, src, cs, y, z)
      then Some(LoopRow(job.symbol, Path(job, y, z), BestPath(job, src.pools, y, z)))
      else None
    case HopKey(scope, market, anchor, y, z, index) =>
      if && scope == job.scope && market == job.market && anchor == job.anchor
         && 1 <= index <= 3 && Expected(job, src, cs, y, z)
      then Some(HopRow(Path(job, y, z)[index - 1], Path(job, y, z)[index],
                       BestPath(job, src.pools, y, z)[index - 1]))
      else None
    case _ => None
  }

  /** The row an anchor's build must leave under a key, from the source alone. */
  ghost function AnchorRow(job: Job, src: Source, universe: Option<set<string>>, k: Key): Option<Row> {
    var cs := Candidates(src.pools, job.anchor, universe);
    match k
    case TokenKey(_, _) => CandidateRow(job, src.pools, cs, k)
    case PairKey(_, _, _) => CandidateRow(job, src.pools, cs, k)
    case RecKey(_, _, _, _, _, _) => CandidateRow(job, src.pools, cs, k)
    case ObsKey(_, _, _) => ObservationRow(TagOf(job), src.pools, cs, k)
    case ObsPoolKey(_, _) => ObservationRow(TagOf(job), src.pools, cs, k)
    case LoopKey(_, _, _, _, _) => LoopRowFor(job, src, cs, k)
    case HopKey(_, _, _, _, _, _) => LoopRowFor(job, src, cs, k)
  }

  /** Whose rows an anchor's tables are: its own tag, or loops of its market and anchor token. */
  predicate OwnKey(job: Job, k: Key) {
    if k.LoopKey? || k.HopKey?
    then k.scope == job.scope && k.market == job.market && k.anchor == job.anchor
    else k.tag == TagOf(job)
  }

  lemma AnchorKeys(job: Job, src: Source, universe: Option<set<string>>, k: Key)
    requires AnchorRow(job, src, universe, k).Some?
    ensures OwnKey(job, k) && ScopeOf(k) == job.scope
  {
  }

  // ----- all anchors -----

  /** The in-scope content after building these jobs: the last job that has a row for the key. */
  ghost function Content(jobs: seq<Job>, src: Source, universe: Option<set<string>>, k: Key): Option<Row> {
    if jobs == [] then None
    else
      var row := AnchorRow(jobs[|jobs| - 1], src, universe, k);
      if row.Some? then row else Content(jobs[..|jobs| - 1], src, universe, k)
  }

  /** `after` has the rows of other scopes from `before`, and in the scope exactly the jobs' content. */
  ghost predicate BuiltFrom(before: Tables, after: Tables, scope: Scope, jobs: seq<Job>,
                            src: Source, universe: Option<set<string>>)
  {
    forall k :: Lookup(after, k) ==
                if ScopeOf(k) == scope then Content(jobs, src, universe, k) else Lookup(before, k)
  }

  /** Jobs of one site in which a symbol always stands for the same anchor. */
  ghost predicate Coherent(jobs: seq<Job>) {
    forall i, j :: 0 <= i < |jobs| && 0 <= j < |jobs| ==>
      && jobs[i].scope == jobs[j].scope
      && (jobs[i].symbol == jobs[j].symbol ==> jobs[i] == jobs[j])
  }

  /** One of the jobs has this row for the key. */
  ghost predicate FromJob(jobs: seq<Job>, src: Source, universe: Option<set<string>>, k: Key, row: Option<Row>) {
    exists job :: job in jobs && AnchorRow(job, src, universe, k) == row
  }

  lemma {:induction false} ContentNone(jobs: seq<Job>, src: Source, universe: Option<set<string>>, k: Key, i: nat)
    requires Content(jobs, src, universe, k).None? && i < |jobs|
    ensures AnchorRow(jobs[i], src, universe, k).None?
  {
    if i < |jobs| - 1 {
      ContentNone(jobs[..|jobs| - 1], src, universe, k, i);
    }
  }

  lemma {:induction false} ContentSome(jobs: seq<Job>, src: Source, universe: Option<set<string>>, k: Key)
    returns (i: nat)
    requires Content(jobs, src, universe, k).Some?
    ensures i < |jobs| && AnchorRow(jobs[i], src, universe, k) == Content(jobs, src, universe, k)
  {
    i := |jobs| - 1;
    if AnchorRow(jobs[i], src, universe, k).None? {
      i := ContentSome(jobs[..i], src, universe, k);
    }
  }

  /** Content is the row of one of the jobs, and there is none exactly when no job has a row. */
  lemma ContentFromOne(jobs: seq<Job>, src: Source, universe: Option<set<string>>, k: Key)
    ensures Content(jobs, src, universe, k).None? ==>
              forall job :: job in jobs ==> AnchorRow(job, src, universe, k).None?
    ensures Content(jobs, src, universe, k).Some? ==>
              FromJob(jobs, src, universe, k, Content(jobs, src, universe, k))
  {
    if Content(jobs, src, universe, k).Some? {
      var i := ContentSome(jobs, src, universe, k);
      assert jobs[i] in jobs;
    } else {
      forall job | job in jobs ensures AnchorRow(job, src, universe, k).None? {
        var i :| 0 <= i < |jobs| && jobs[i] == job;
        ContentNone(jobs, src, universe, k, i);
      }
    }
  }

  // ----- which pools are usable -----

  lemma {:induction false} FilterIn(pools: seq<Pool>, keep: Pool -> bool, p: Pool)
    ensures p in Filter(pools, keep) <==> p in pools && keep(p)
  {
    if pools != [] {
      FilterIn(pools[..|pools| - 1], keep, p);
      assert pools == pools[..|pools| - 1] + [pools[|pools| - 1]];
    }
  }

  lemma {:induction false} ScanIn(pools: seq<Pool>, x: string, y: string, p: Pool)
    ensures p in Scan(pools, x, y) <==> p in pools && Holds(p, x, y)
  {
    if pools != [] {
      ScanIn(pools[..|pools| - 1], x, y, p);
      assert pools == pools[..|pools| - 1] + [pools[|pools| - 1]];
    }
  }

  /** A pool that may serve a hop between x and y. */
  predicate Serves(p: Pool, x: string, y: string) {
    Normal(p) && p.confirmed && Holds(p, x, y)
  }

  lemma UsableIn(pools: seq<Pool>, x: string, y: string, p: Pool)
    ensures p in Usable(pools, x, y) <==> p in pools && Serves(p, x, y)
  {
    FilterIn(pools, Normal, p);
    ScanIn(Filter(pools, Normal), x, y, p);
    FilterMembers(NormalPools(pools, x, y));
  }

  lemma UsableSymmetric(pools: seq<Pool>, x: string, y: string)
    ensures Usable(pools, x, y) == Usable(pools, y, x)
  {
    ScanSymmetric(Filter(pools, Normal), x, y);
  }
}

/** After the first two stages, whatever the loop stage reads is what the source tables determine. */
module ReadBack {
  import opened LoopSpec
  import opened LoopStage
  import opened LoopTheorems
  import opened Selection
  import opened Text
  import opened Wrappers

  lemma CandidateNorm(pools: seq<Pool>, a: string, universe: Option<set<string>>, c: string)
    requires WellStored(pools) && c in Candidates(pools, a, universe)
    ensures IsNorm(c) && c != "" && c != a
  {
    var p := Usable(pools, a, c)[0];
    assert p in Usable(pools, a, c);
    UsableIn(pools, a, c, p);
    NormIdempotent(p.token0.GetOr(""));
    NormIdempotent(p.token1.GetOr(""));
  }

  /** The tables hold an anchor's candidate and observation rows, under its scope and symbol. */
  ghost predicate HoldsStages(rows: Tables, job: Job, pools: seq<Pool>, cs: set<string>) {
    forall k :: ReadKey(k, job.scope, job.symbol) ==>
      Lookup(rows, k) == if k.ObsKey? || k.ObsPoolKey? then ObservationRow(TagOf(job), pools, cs, k)
                         else CandidateRow(job, pools, cs, k)
  }

  lemma TokensLoaded(rows: Tables, job: Job, pools: seq<Pool>, cs: set<string>)
    requires forall k: Key :: k.TokenKey? && ReadKey(k, job.scope, job.symbol) ==>
               Lookup(rows, k) == CandidateRow(job, pools, cs, k)
    requires forall c :: c in cs ==> IsNorm(c) && c != ""
    ensures LoadTokens(rows, job.scope, job.symbol) == cs
  {
    forall c | c in cs ensures c in LoadTokens(rows, job.scope, job.symbol) {
      var k := TokenKey(TagOf(job), c);
      assert Lookup(rows, k) == CandidateRow(job, pools, cs, k);
      assert k in rows && Norm(k.token) == c;
    }
    forall t | t in LoadTokens(rows, job.scope, job.symbol) ensures t in cs {
      var k :| k in rows && k.TokenKey? && ReadKey(k, job.scope, job.symbol) && Norm(k.token) == t;
      assert Lookup(rows, k) == CandidateRow(job, pools, cs, k);
    }
  }

  lemma ObservedIsRead(rows: Tables, job: Job, pools: seq<Pool>, cs: set<string>, id: string)
    requires HoldsStages(rows, job, pools, cs) && ObservedPool(pools, cs, id) && id != ""
    ensures id in LoadObserved(rows, job.scope, job.symbol)
  {
    ObservedNorm(pools, cs, id);
    var k := ObsPoolKey(TagOf(job), id);
    assert Lookup(rows, k) == ObservationRow(TagOf(job), pools, cs, k);
    assert k in rows && Norm(k.poolId) == id;
  }

  lemma ReadIsObserved(rows: Tables, job: Job, pools: seq<Pool>, cs: set<string>, k: Key)
    requires HoldsStages(rows, job, pools, cs)
    requires k in rows && k.ObsPoolKey? && ReadKey(k, job.scope, job.symbol)
    ensures ObservedPool(pools, cs, k.poolId) && IsNorm(k.poolId)
  {
    assert Lookup(rows, k) == ObservationRow(TagOf(job), pools, cs, k);
    ObservedNorm(pools, cs, k.poolId);
  }

  lemma ObservedReadBack(rows: Tables, job: Job, pools: seq<Pool>, cs: set<string>, id: string)
    requires HoldsStages(rows, job, pools, cs)
    ensures id in LoadObserved(rows, job.scope, job.symbol) <==> ObservedPool(pools, cs, id) && id != ""
  {
    if ObservedPool(pools, cs, id) && id != "" {
      ObservedIsRead(rows, job, pools, cs, id);
    }
    if id in LoadObserved(rows, job.scope, job.symbol) {
      var k :| k in rows && k.ObsPoolKey? && ReadKey(k, job.scope, job.symbol) && Norm(k.poolId) == id && id != "";
      ReadIsObserved(rows, job, pools, cs, k);
    }
  }

  lemma ObservedNorm(pools: seq<Pool>, cs: set<string>, id: string)
    requires ObservedPool(pools, cs, id)
    ensures IsNorm(id)
  {
    var x, y, p :| x in cs && y in cs && x != y && p in Usable(pools, x, y) && Id(p) == id;
    NormIdempotent(p.id);
  }

  lemma MiddleReadBack(rows: Tables, job: Job, pools: seq<Pool>, cs: set<string>,
                       middle: map<(string, string), string>, y: string, z: string)
    requires HoldsStages(rows, job, pools, cs) && MiddlesOf(rows, job.scope, job.symbol, middle)
    requires y in cs && z in cs && y != z
    ensures (y, z) in middle && middle[(y, z)] == FirstId(Observed(pools, y, z))
  {
    var k := ObsKey(TagOf(job), y, z);
    assert Lookup(rows, k) == ObservationRow(TagOf(job), pools, cs, k);
    assert ObsFor(rows, job.scope, job.symbol, (y, z), k);
    var l :| ObsFor(rows, job.scope, job.symbol, (y, z), l) && middle[(y, z)] == Optimal(rows[l]);
    assert Lookup(rows, l) == ObservationRow(TagOf(job), pools, cs, l);
    OptimalIsFirst(Observed(pools, y, z));
  }

  lemma OptimalIsFirst(s: seq<Pool>)
    ensures Optimal(ObsRow(IdList(s), FirstId(s))) == FirstId(s)
  {
    if s == [] {
      assert Norm("") == "";
    } else {
      NormIdempotent(s[0].id);
    }
  }

  /** A counter's direction on the first hop, or its direction on the third. */
  function HopDirection(job: Job, hop: Hop, c: string): (string, string) {
    if hop.First? then (job.anchor, c) else (c, job.anchor)
  }

  function RecAtPlace(job: Job, s: seq<Pool>, k: Key): Option<Row>
    requires k.RecKey?
  {
    if k.tag == TagOf(job) && k.counter == k.y && k.poolId in Ids(s) then Some(RecRow(Place(s, k.poolId))) else None
  }

  lemma HeadReadBack(rows: Tables, job: Job, pools: seq<Pool>, cs: set<string>, hop: Hop,
                     best: map<(string, string), string>, c: string, d: (string, string))
    requires HoldsStages(rows, job, pools, cs) && HeadsOf(rows, job.scope, job.symbol, hop, best)
    requires c in cs && d == HopDirection(job, hop, c)
    requires Ranked(pools, d.0, d.1) != []
    ensures d in best && best[d] == FirstId(Ranked(pools, d.0, d.1))
  {
    var s := Ranked(pools, d.0, d.1);
    var top := TopKey(job, d, hop, s);
    StoredRec(rows, job, pools, cs, c, top);
    assert Id(s[0]) in Ids(s);
    assert RecFor(rows, job.scope, job.symbol, hop, d, top);
    var k :| ReadFirst(rows, job.scope, job.symbol, hop, d, k) && best[d] == Norm(k.poolId);
    StoredRec(rows, job, pools, cs, c, k);
    assert !ReadEarlier(rows, top, k);
    PlaceOne(s, k.poolId);
    NormIdempotent(s[0].id);
  }

  function TopKey(job: Job, d: (string, string), hop: Hop, s: seq<Pool>): (k: Key)
    requires s != []
    ensures k.RecKey?
  {
    RecKey(TagOf(job), d.1, d.0, d.1, hop, Id(s[0]))
  }

  lemma StoredRec(rows: Tables, job: Job, pools: seq<Pool>, cs: set<string>, c: string, k: Key)
    requires HoldsStages(rows, job, pools, cs) && ReadKey(k, job.scope, job.symbol)
    requires c in cs && k.RecKey? && (k.x, k.y) == HopDirection(job, k.hop, c)
    ensures Lookup(rows, k) == RecAtPlace(job, Ranked(pools, k.x, k.y), k)
  {
  }

  lemma PlaceOne(s: seq<Pool>, id: string)
    requires s != [] && id in Ids(s) && Place(s, id) <= 1
    ensures id == Id(s[0])
  {
  }

  lemma HeadsReadBack(r: Reading, rows: Tables, job: Job, pools: seq<Pool>, universe: Option<set<string>>)
    requires WellStored(pools)
    requires HoldsStages(rows, job, pools, Candidates(pools, job.anchor, universe))
    requires HeadsOf(rows, job.scope, job.symbol, First, r.first)
    requires HeadsOf(rows, job.scope, job.symbol, Third, r.third)
    ensures var a, cs := job.anchor, Candidates(pools, job.anchor, universe);
            && (forall c :: c in cs ==> (a, c) in r.first && r.first[(a, c)] == FirstId(Ranked(pools, a, c)))
            && (forall c :: c in cs ==> (c, a) in r.third && r.third[(c, a)] == FirstId(Ranked(pools, c, a)))
  {
    var a, cs := job.anchor, Candidates(pools, job.anchor, universe);
    forall c | c in cs
      ensures (a, c) in r.first && r.first[(a, c)] == FirstId(Ranked(pools, a, c))
      ensures (c, a) in r.third && r.third[(c, a)] == FirstId(Ranked(pools, c, a))
    {
      CandidateNorm(pools, a, universe, c);
      UsableSymmetric(pools, a, c);
      SelectionHeads(pools, a, c);
      SelectionHeads(pools, c, a);
      HeadReadBack(rows, job, pools, cs, First, r.first, c, (a, c));
      HeadReadBack(rows, job, pools, cs, Third, r.third, c, (c, a));
    }
  }

  /** The loop stage reads back exactly the source's tokens, best hops and observed middles. */
  lemma StagesReadBack(r: Reading, rows: Tables, job: Job, pools: seq<Pool>, universe: Option<set<string>>)
    requires WellStored(pools)
    requires HoldsStages(rows, job, pools, Candidates(pools, job.anchor, universe))
    requires ReadFrom(r, rows, job.scope, job.symbol)
    ensures ReadsBack(r, pools, job.anchor, Candidates(pools, job.anchor, universe))
  {
    var a, cs := job.anchor, Candidates(pools, job.anchor, universe);
    forall c | c in cs ensures IsNorm(c) && c != "" {
      CandidateNorm(pools, a, universe, c);
    }
    TokensLoaded(rows, job, pools, cs);
    HeadsReadBack(r, rows, job, pools, universe);
    forall y, z | y in cs && z in cs && y != z
      ensures (y, z) in r.middle && r.middle[(y, z)] == FirstId(Observed(pools, y, z))
    {
      MiddleReadBack(rows, job, pools, cs, r.middle, y, z);
    }
    forall id | true ensures id in r.observed <==> ObservedPool(pools, cs, id) && id != "" {
      ObservedReadBack(rows, job, pools, cs, id);
    }
  }
}

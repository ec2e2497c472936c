/** The builder over the stored tables: each stage replaces one anchor's rows, and a full rebuild. */
module BusinessStores {
  import opened CandidateStage
  import opened LoopSpec
  import opened LoopStage
  import opened LoopTheorems
  import opened ObservationStage
  import opened ReadBack
  import opened Scopes
  import opened Selection
  import opened StageFrames
  import opened Text
  import opened Wrappers

  datatype Error = NoAnchorAddress(symbol: string) | DuplicateTokens

  /** Where a build's rows go, apart from the anchor. */
  datatype Site = Site(scope: Scope, anchorScope: string, market: string)

  function JobOf(site: Site, symbol: string, address: string): Job {
    Job(site.scope, site.anchorScope, site.market, symbol, Norm(address))
  }

  // ----- deleting an anchor's rows -----

  function DropCandidates(rows: Tables, scope: Scope, symbol: string): Tables {
    map k | k in rows && !CandidateKey(k, scope, symbol) :: rows[k]
  }

  function DropObservations(rows: Tables, scope: Scope, symbol: string): Tables {
    map k | k in rows && !ObservationKey(k, scope, symbol) :: rows[k]
  }

  function DropLoops(rows: Tables, scope: Scope, market: string, symbol: string): Tables {
    map k | k in rows && !LoopOwned(rows, scope, market, symbol, k) :: rows[k]
  }

  lemma ReplaceCandidates(rows: Tables, more: Tables, job: Job, pools: seq<Pool>, cs: set<string>)
    requires forall k :: Lookup(more, k) == CandidateRow(job, pools, cs, k)
    ensures AfterCandidates(rows, DropCandidates(rows, job.scope, job.symbol) + more, job, pools, cs)
  {
    var after := DropCandidates(rows, job.scope, job.symbol) + more;
    forall k | true
      ensures Lookup(after, k) ==
              if CandidateKey(k, job.scope, job.symbol) then CandidateRow(job, pools, cs, k) else Lookup(rows, k)
    {
      CandidateOnly(job, pools, cs, k);
      assert Lookup(more, k) == CandidateRow(job, pools, cs, k);
    }
  }

  lemma CandidateOnly(job: Job, pools: seq<Pool>, cs: set<string>, k: Key)
    ensures !CandidateKey(k, job.scope, job.symbol) ==> CandidateRow(job, pools, cs, k).None?
  {
  }

  lemma ReplaceObservations(rows: Tables, more: Tables, tag: Tag, pools: seq<Pool>, cs: set<string>)
    requires forall k :: Lookup(more, k) == ObservationRow(tag, pools, cs, k)
    ensures AfterObservations(rows, DropObservations(rows, tag.scope, tag.symbol) + more, tag, pools, cs)
  {
    var after := DropObservations(rows, tag.scope, tag.symbol) + more;
    forall k | true
      ensures Lookup(after, k) ==
              if ObservationKey(k, tag.scope, tag.symbol) then ObservationRow(tag, pools, cs, k) else Lookup(rows, k)
    {
      ObservationOnly(tag, pools, cs, k);
      assert Lookup(more, k) == ObservationRow(tag, pools, cs, k);
    }
  }

  lemma ObservationOnly(tag: Tag, pools: seq<Pool>, cs: set<string>, k: Key)
    ensures !ObservationKey(k, tag.scope, tag.symbol) ==> ObservationRow(tag, pools, cs, k).None?
  {
  }

  lemma NoTokensNoRows(tag: Tag, pools: seq<Pool>, k: Key)
    ensures ObservationRow(tag, pools, {}, k).None?
  {
  }

  // ----- one anchor after another -----

  lemma ContentSnoc(jobs: seq<Job>, job: Job, src: Source, universe: Option<set<string>>, k: Key)
    ensures Content(jobs + [job], src, universe, k) ==
            if AnchorRow(job, src, universe, k).Some? then AnchorRow(job, src, universe, k)
            else Content(jobs, src, universe, k)
  {
  }

  /** Content under a key that names a symbol comes from the job of that symbol. */
  lemma ContentOfSymbol(jobs: seq<Job>, job: Job, src: Source, universe: Option<set<string>>, k: Key)
    requires Coherent(jobs + [job])
    requires !k.LoopKey? && !k.HopKey? && k.tag.symbol == job.symbol && AnchorRow(job, src, universe, k).None?
    ensures Content(jobs, src, universe, k).None?
  {
    ContentFromOne(jobs, src, universe, k);
    if Content(jobs, src, universe, k).Some? {
      var other :| other in jobs && AnchorRow(other, src, universe, k) == Content(jobs, src, universe, k);
      AnchorKeys(other, src, universe, k);
      SameSymbol(jobs, job, other);
    }
  }

  lemma SameSymbol(jobs: seq<Job>, job: Job, other: Job)
    requires Coherent(jobs + [job]) && other in jobs && other.symbol == job.symbol
    ensures other == job
  {
    var i :| 0 <= i < |jobs| && jobs[i] == other;
    assert (jobs + [job])[i] == other && (jobs + [job])[|jobs|] == job;
  }

  /** A stored loop row that carries the job's symbol is a loop of the job itself. */
  lemma LoopOfSymbol(jobs: seq<Job>, job: Job, src: Source, universe: Option<set<string>>, k: Key)
    requires Coherent(jobs + [job]) && k.LoopKey?
    requires Content(jobs, src, universe, k).Some?
    requires Content(jobs, src, universe, k).value.LoopRow?
    requires Content(jobs, src, universe, k).value.symbol == job.symbol
    ensures AnchorRow(job, src, universe, k).Some?
  {
    ContentFromOne(jobs, src, universe, k);
    var other :| other in jobs && AnchorRow(other, src, universe, k) == Content(jobs, src, universe, k);
    SameSymbol(jobs, job, other);
  }

  /** No content sits under a hop index that loops do not have. */
  lemma NoSuchHop(jobs: seq<Job>, src: Source, universe: Option<set<string>>, k: Key)
    requires k.HopKey? && !(1 <= k.index <= 3)
    ensures Content(jobs, src, universe, k).None?
  {
  }

  /** What the loop stage deletes but does not write again was never this build's content. */
  lemma DeletedIsRewritten(rows: Tables, jobs: seq<Job>, job: Job, src: Source, universe: Option<set<string>>, k: Key)
    requires Coherent(jobs + [job])
    requires LoopsHold(rows, jobs, job.scope, src, universe)
    requires LoopOwned(rows, job.scope, job.market, job.symbol, k)
    requires (k.LoopKey? || k.HopKey?) && AnchorRow(job, src, universe, k).None?
    ensures Content(jobs, src, universe, k).None?
  {
    var loop := if k.LoopKey? then k else LoopKey(k.scope, k.market, k.anchor, k.y, k.z);
    assert Lookup(rows, loop) == Content(jobs, src, universe, loop);
    LoopOfSymbol(jobs, job, src, universe, loop);
    if k.HopKey? {
      AnchorKeys(job, src, universe, loop);
      NoSuchHop(jobs, src, universe, k);
    }
  }

  /** One anchor's three stages extend the content by that anchor. */
  lemma StagesExtend(before: Tables, start: Tables, mid: Tables, late: Tables, end: Tables, jobs: seq<Job>, job: Job,
                     src: Source, universe: Option<set<string>>, r: Reading)
    requires WellStored(src.pools) && Coherent(jobs + [job])
    requires BuiltFrom(before, start, job.scope, jobs, src, universe)
    requires AfterCandidates(start, mid, job, src.pools, Candidates(src.pools, job.anchor, universe))
    requires AfterObservations(mid, late, TagOf(job), src.pools, Candidates(src.pools, job.anchor, universe))
    requires ReadFrom(r, late, job.scope, job.symbol)
    requires AfterLoops(late, end, job, src.symbols, r)
    ensures BuiltFrom(before, end, job.scope, jobs + [job], src, universe)
  {
    var cs := Candidates(src.pools, job.anchor, universe);
    StagesHold(start, mid, late, job, src.pools, cs);
    StagesReadBack(r, late, job, src.pools, universe);
    LateLoops(before, start, mid, late, jobs, job, src, universe);
    forall k | true
      ensures Lookup(end, k) ==
              if ScopeOf(k) == job.scope then Content(jobs + [job], src, universe, k) else Lookup(before, k)
    {
      LateRow(before, start, mid, late, jobs, job, src, universe, k);
      if k.LoopKey? || k.HopKey? {
        ContentSnoc(jobs, job, src, universe, k);
        LoopStageMeetsSource(job, src, universe, r, k);
        EndLoopRow(late, end, jobs, job, src, universe, r, k);
      } else {
        KeptByLoops(late, end, job, src.symbols, r, k);
      }
    }
  }

  lemma KeptByLoops(late: Tables, end: Tables, job: Job, symbols: map<string, string>, r: Reading, k: Key)
    requires AfterLoops(late, end, job, symbols, r) && !k.LoopKey? && !k.HopKey?
    ensures Lookup(end, k) == Lookup(late, k)
  {
  }

  /** The first two stages leave the loop tables as the earlier anchors built them. */
  lemma LateLoops(before: Tables, start: Tables, mid: Tables, late: Tables, jobs: seq<Job>, job: Job,
                  src: Source, universe: Option<set<string>>)
    requires Coherent(jobs + [job])
    requires BuiltFrom(before, start, job.scope, jobs, src, universe)
    requires AfterCandidates(start, mid, job, src.pools, Candidates(src.pools, job.anchor, universe))
    requires AfterObservations(mid, late, TagOf(job), src.pools, Candidates(src.pools, job.anchor, universe))
    ensures LoopsHold(late, jobs, job.scope, src, universe)
  {
  }

  /** The loop tables of the scope hold exactly these jobs' loops. */
  ghost predicate LoopsHold(rows: Tables, jobs: seq<Job>, scope: Scope, src: Source, universe: Option<set<string>>) {
    forall l: Key :: (l.LoopKey? || l.HopKey?) && l.scope == scope ==>
      Lookup(rows, l) == Content(jobs, src, universe, l)
  }

  lemma StagesHold(start: Tables, mid: Tables, late: Tables, job: Job, pools: seq<Pool>, cs: set<string>)
    requires AfterCandidates(start, mid, job, pools, cs)
    requires AfterObservations(mid, late, TagOf(job), pools, cs)
    ensures HoldsStages(late, job, pools, cs)
  {
  }

  /** After the first two stages only the loop tables still hold the earlier anchors' content alone. */
  lemma LateRow(before: Tables, start: Tables, mid: Tables, late: Tables, jobs: seq<Job>, job: Job,
                src: Source, universe: Option<set<string>>, k: Key)
    requires Coherent(jobs + [job])
    requires BuiltFrom(before, start, job.scope, jobs, src, universe)
    requires AfterCandidates(start, mid, job, src.pools, Candidates(src.pools, job.anchor, universe))
    requires AfterObservations(mid, late, TagOf(job), src.pools, Candidates(src.pools, job.anchor, universe))
    ensures k.LoopKey? || k.HopKey? ==>
              Lookup(late, k) == if k.scope == job.scope then Content(jobs, src, universe, k) else Lookup(before, k)
    ensures !k.LoopKey? && !k.HopKey? ==>
              Lookup(late, k) == if ScopeOf(k) == job.scope then Content(jobs + [job], src, universe, k)
                                 else Lookup(before, k)
  {
    var cs := Candidates(src.pools, job.anchor, universe);
    ContentSnoc(jobs, job, src, universe, k);
    assert Lookup(start, k) == if ScopeOf(k) == job.scope then Content(jobs, src, universe, k) else Lookup(before, k);
    assert Lookup(mid, k) == if CandidateKey(k, job.scope, job.symbol) then CandidateRow(job, src.pools, cs, k)
                             else Lookup(start, k);
    assert Lookup(late, k) == if ObservationKey(k, job.scope, job.symbol)
                              then ObservationRow(TagOf(job), src.pools, cs, k) else Lookup(mid, k);
    if !k.LoopKey? && !k.HopKey? {
      if k.tag.symbol == job.symbol && AnchorRow(job, src, universe, k).None? {
        ContentOfSymbol(jobs, job, src, universe, k);
      }
      if AnchorRow(job, src, universe, k).Some? {
        AnchorKeys(job, src, universe, k);
      }
    }
  }

  lemma EndLoopRow(late: Tables, end: Tables, jobs: seq<Job>, job: Job, src: Source, universe: Option<set<string>>,
                   r: Reading, k: Key)
    requires Coherent(jobs + [job]) && (k.LoopKey? || k.HopKey?)
    requires LoopsHold(late, jobs, job.scope, src, universe)
    requires LoopStageRow(job, src.symbols, r, Pairs(r.tokens), k) == AnchorRow(job, src, universe, k)
    requires AfterLoops(late, end, job, src.symbols, r)
    ensures Lookup(end, k) == if k.scope == job.scope
                              then (if AnchorRow(job, src, universe, k).Some? then AnchorRow(job, src, universe, k)
                                    else Content(jobs, src, universe, k))
                              else Lookup(late, k)
  {
    var row := AnchorRow(job, src, universe, k);
    if row.Some? {
      AnchorKeys(job, src, universe, k);
    } else if LoopOwned(late, job.scope, job.market, job.symbol, k) {
      DeletedIsRewritten(late, jobs, job, src, universe, k);
    }
  }

  // ----- the anchors of a full rebuild -----

  function AddressFor(addresses: map<string, string>, symbol: string): string {
    if symbol in addresses then addresses[symbol] else ""
  }

  /** One job per listed anchor, with its symbol in stored form and the address known for it. */
  function JobsOf(site: Site, anchors: seq<string>, addresses: map<string, string>): (jobs: seq<Job>)
    ensures |jobs| == |anchors|
    ensures forall i :: 0 <= i < |jobs| ==>
              var symbol := Symbol(anchors[i]);
              jobs[i] == Job(site.scope, site.anchorScope, site.market, symbol,
                             if symbol in addresses then Norm(addresses[symbol]) else "")
  {
    seq(|anchors|, i requires 0 <= i < |anchors| =>
      JobOf(site, Symbol(anchors[i]), AddressFor(addresses, Symbol(anchors[i]))))
  }

  /** How many leading anchors have an address. */
  function Addressed(jobs: seq<Job>): (n: nat)
    ensures n <= |jobs|
    ensures forall i :: 0 <= i < n ==> jobs[i].anchor != ""
    ensures n < |jobs| ==> jobs[n].anchor == ""
  {
    if jobs == [] || jobs[0].anchor == "" then 0 else 1 + Addressed(jobs[1..])
  }

  lemma AddressedStep(jobs: seq<Job>, i: nat)
    requires i <= Addressed(jobs) && i < |jobs|
    ensures if jobs[i].anchor == "" then Addressed(jobs) == i else i + 1 <= Addressed(jobs)
  {
  }

  lemma NormSetSnoc(values: seq<string>, v: string)
    ensures NormSet(values + [v]) == NormSet(values) + {Norm(v)}
  {
    assert (values + [v])[|values|] == v;
    assert forall i :: 0 <= i < |values| ==> (values + [v])[i] == values[i];
    forall t | t in NormSet(values) ensures t in NormSet(values + [v]) {
      var i :| 0 <= i < |values| && Norm(values[i]) == t;
      assert (values + [v])[i] == values[i];
    }
  }

  /** The token universe in normal form, without repetition. */
  method NormalUniverse(values: seq<string>) returns (tokens: seq<string>)
    ensures NormSet(tokens) == NormSet(values) && |NormSet(tokens)| == |tokens|
  {
    tokens := [];
    var seen: set<string> := {};
    for i := 0 to |values|
      invariant NormSet(tokens) == NormSet(values[..i]) == seen && |seen| == |tokens|
    {
      assert values[..i + 1] == values[..i] + [values[i]];
      NormSetSnoc(values[..i], values[i]);
      var token := Norm(values[i]);
      if token !in seen {
        NormSetSnoc(tokens, token);
        NormIdempotent(values[i]);
        tokens := tokens + [token];
        seen := seen + {token};
      }
    }
    assert values[..|values|] == values;
  }

  lemma NothingBuilt(before: Tables, scope: Scope, src: Source, universe: Option<set<string>>)
    ensures BuiltFrom(before, Outside(before, scope), scope, [], src, universe)
  {
  }

  class BusinessStore {
    var source: Source
    var rows: Tables

    ghost predicate Valid()
      reads this
    {
      WellStored(source.pools)
    }

    constructor (source: Source)
      requires WellStored(source.pools)
      ensures Valid() && this.source == source && rows == map[]
    {
      this.source := source;
      rows := map[];
    }

    /** Replaces an anchor's candidate rows, unless it has no address or the token list repeats. */
    method BuildCandidateAnchor(site: Site, symbol: string, address: string, universe: Option<seq<string>>)
      returns (r: Result<(), Error>)
      requires Valid()
      modifies this`rows
      ensures r == if Norm(address) == "" then Err(NoAnchorAddress(symbol))
                   else if !Distinct(universe) then Err(DuplicateTokens)
                   else Ok(())
      ensures r.Err? ==> rows == old(rows)
      ensures r.Ok? ==> AfterCandidates(old(rows), rows, JobOf(site, symbol, address), source.pools,
                                        Candidates(source.pools, Norm(address), UniverseOf(universe)))
    {
      var job := JobOf(site, symbol, address);
      if job.anchor == "" {
        return Err(NoAnchorAddress(symbol));
      }
      if !Distinct(universe) {
        return Err(DuplicateTokens);
      }
      NormIdempotent(address);
      var more := CandidateTables(job, source.pools, universe);
      ReplaceCandidates(rows, more, job, source.pools, Candidates(source.pools, job.anchor, UniverseOf(universe)));
      rows := DropCandidates(rows, site.scope, symbol) + more;
      r := Ok(());
    }

    /** Replaces an anchor's observation rows by all directions among the tokens. */
    method BuildMarketObservationAnchor(site: Site, symbol: string, given: Option<set<string>>)
      requires Valid()
      modifies this`rows
      ensures AfterObservations(old(rows), rows, Tag(site.scope, site.anchorScope, symbol), source.pools,
                                if given.Some? then set t | t in given.value :: Norm(t)
                                else LoadTokens(old(rows), site.scope, symbol))
    {
      var tokens := if given.Some? then set t | t in given.value :: Norm(t) else LoadTokens(rows, site.scope, symbol);
      var tag := Tag(site.scope, site.anchorScope, symbol);
      if tokens == {} {
        forall k | true ensures ObservationRow(tag, source.pools, tokens, k).None? {
          NoTokensNoRows(tag, source.pools, k);
        }
        ReplaceObservations(rows, map[], tag, source.pools, tokens);
        assert DropObservations(rows, site.scope, symbol) + map[] == DropObservations(rows, site.scope, symbol);
        rows := DropObservations(rows, site.scope, symbol);
        return;
      }
      forall t | t in tokens ensures IsNorm(t) {
        NormsAreNorm(rows, site.scope, symbol, given, t);
      }
      var more := ObservationTables(tag, source.pools, tokens);
      ReplaceObservations(rows, more, tag, source.pools, tokens);
      rows := DropObservations(rows, site.scope, symbol) + more;
    }

    /** Replaces an anchor's loops by those the stored candidates and observations join up to. */
    method BuildClosedLoopsAnchor(site: Site, symbol: string, address: string) returns (ghost reading: Reading)
      requires Valid()
      modifies this`rows
      ensures ReadFrom(reading, old(rows), site.scope, symbol)
      ensures AfterLoops(old(rows), rows, JobOf(site, symbol, address), source.symbols, reading)
    {
      var read := LoadReading(rows, site.scope, symbol);
      reading := read;
      if read.tokens == {} {
        rows := DropLoops(rows, site.scope, site.market, symbol);
        return;
      }
      var more := LoopRows(JobOf(site, symbol, address), source.symbols, read);
      rows := DropLoops(rows, site.scope, site.market, symbol) + more;
    }

    /** The three stages of one anchor, on top of the anchors built before it. */
    method BuildAnchor(site: Site, symbol: string, address: string, universe: Option<seq<string>>,
                       ghost before: Tables, ghost jobs: seq<Job>)
      returns (r: Result<(), Error>)
      requires Valid() && Distinct(universe)
      requires Coherent(jobs + [JobOf(site, symbol, address)])
      requires BuiltFrom(before, rows, site.scope, jobs, source, UniverseOf(universe))
      modifies this`rows
      ensures r == if Norm(address) == "" then Err(NoAnchorAddress(symbol)) else Ok(())
      ensures r.Err? ==> rows == old(rows)
      ensures r.Ok? ==>
                BuiltFrom(before, rows, site.scope, jobs + [JobOf(site, symbol, address)], source, UniverseOf(universe))
    {
      ghost var job, uni := JobOf(site, symbol, address), UniverseOf(universe);
      ghost var start := rows;
      r := BuildCandidateAnchor(site, symbol, address, universe);
      if r.Err? {
        return;
      }
      ghost var mid := rows;
      var tokens := LoadTokens(rows, site.scope, symbol);
      LoadedTokens(start, mid, job, source.pools, uni);
      BuildMarketObservationAnchor(site, symbol, Some(tokens));
      ghost var late := rows;
      ghost var reading := BuildClosedLoopsAnchor(site, symbol, address);
      StagesExtend(before, start, mid, late, rows, jobs, job, source, uni, reading);
    }

    /**
     Deletes the scope and builds anchor after anchor; the first anchor without an address stops
     the run and leaves the anchors before it built.
     */
    method BuildAll(site: Site, anchors: seq<string>, addresses: map<string, string>, universe: Option<seq<string>>)
      returns (r: Result<nat, Error>)
      requires Valid()
      modifies this`rows
      ensures var jobs := JobsOf(site, anchors, addresses); var n := Addressed(jobs);
              && r == (if n == |jobs| then Ok(n) else Err(NoAnchorAddress(jobs[n].symbol)))
              && Coherent(jobs[..n]) && BuiltFrom(old(rows), rows, site.scope, jobs[..n], source, UniverseOf(universe))
    {
      ghost var jobs := JobsOf(site, anchors, addresses);
      NothingBuilt(rows, site.scope, source, UniverseOf(universe));
      rows := Outside(rows, site.scope);
      var normal: Option<seq<string>> := None;
      if universe.Some? {
        var tokens := NormalUniverse(universe.value);
        normal := Some(tokens);
      }
      for i := 0 to |anchors|
        invariant i <= Addressed(jobs)
        invariant BuiltFrom(old(rows), rows, site.scope, jobs[..i], source, UniverseOf(universe))
      {
        var symbol := Symbol(anchors[i]);
        var address := AddressFor(addresses, symbol);
        NextCoherent(site, anchors, addresses, i);
        AddressedStep(jobs, i);
        assert jobs[i] == JobOf(site, symbol, address);
        var built := BuildAnchor(site, symbol, address, normal, old(rows), jobs[..i]);
        if built.Err? {
          JobsCoherent(site, anchors, addresses, i);
          return Err(built.error);
        }
      }
      JobsCoherent(site, anchors, addresses, |anchors|);
      assert jobs[..|anchors|] == jobs;
      r := Ok(|anchors|);
    }
  }

  /** The token list has no two entries with the same normal form. */
  predicate Distinct(universe: Option<seq<string>>) {
    universe.Some? ==> |NormSet(universe.value)| == |universe.value|
  }

  /** Anchor jobs are coherent: a symbol always has the one address known for it. */
  lemma JobsCoherent(site: Site, anchors: seq<string>, addresses: map<string, string>, n: nat)
    requires n <= |anchors|
    ensures Coherent(JobsOf(site, anchors, addresses)[..n])
  {
  }

  lemma NextCoherent(site: Site, anchors: seq<string>, addresses: map<string, string>, i: nat)
    requires i < |anchors|
    ensures var jobs := JobsOf(site, anchors, addresses);
            jobs[..i + 1] == jobs[..i] + [jobs[i]] && Coherent(jobs[..i] + [jobs[i]])
  {
  }

  /** Right after the candidate stage, the loaded tokens are the anchor's candidates. */
  lemma LoadedTokens(start: Tables, mid: Tables, job: Job, pools: seq<Pool>, universe: Option<set<string>>)
    requires WellStored(pools)
    requires AfterCandidates(start, mid, job, pools, Candidates(pools, job.anchor, universe))
    ensures (set t | t in LoadTokens(mid, job.scope, job.symbol) :: Norm(t)) == Candidates(pools, job.anchor, universe)
  {
    var cs := Candidates(pools, job.anchor, universe);
    forall c | c in cs ensures IsNorm(c) && c != "" {
      CandidateNorm(pools, job.anchor, universe, c);
    }
    TokensLoaded(mid, job, pools, cs);
  }

  lemma NormsAreNorm(rows: Tables, scope: Scope, symbol: string, given: Option<set<string>>, t: string)
    requires t in if given.Some? then set v | v in given.value :: Norm(v) else LoadTokens(rows, scope, symbol)
    ensures IsNorm(t)
  {
    if given.Some? {
      var v :| v in given.value && Norm(v) == t;
      NormIdempotent(v);
    } else {
      var k :| k in rows && k.TokenKey? && ReadKey(k, scope, symbol) && Norm(k.token) == t;
      NormIdempotent(k.token);
    }
  }
}

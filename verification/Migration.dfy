/**
 The direction migration's steps over its tables: the pair split, the observation backfill with its
 update counter, and the final integrity count.
 */
module Migration {
  import opened LoopSpec
  import opened LoopTheorems
  import PairSplit
  import opened Scopes
  import opened Selection
  import opened Text
  import opened Wrappers

  // ----- observation rows as the migration sees them -----

  /** An element of a stored JSON array: a string, or anything else. */
  datatype Item = Str(text: string) | Other(json: string)

  /** A stored column text: the encoding of an array, another spelling of it, or no array at all. */
  datatype ArrayText = Encoded(items: seq<Item>) | Spelled(items: seq<Item>, spelling: string) | NotArray(text: string)

  datatype Observation = Observation(
    tokenX: string,
    tokenY: string,
    addressPair: string,
    poolIds: Option<ArrayText>,
    optimal: Option<string>,
    hasPool: bool,
    poolCount: int)

  datatype ObservationId = ObservationId(tag: Tag, direction: string)

  type Observations = map<ObservationId, Observation>

  function Items(text: ArrayText): seq<Item> {
    if text.NotArray? then [] else text.items
  }

  function ItemText(item: Item): string {
    if item.Str? then item.text else ""
  }

  /** At most the first pool id. */
  function FirstItem(text: ArrayText): (items: seq<Item>)
    ensures |items| <= 1
  {
    var items := Items(text);
    if items == [] then [] else items[..1]
  }

  function Chosen(optimal: Option<string>, items: seq<Item>): string {
    if optimal.Some? && !Blank(optimal.value) then optimal.value
    else if items == [] then "" else ItemText(items[0])
  }

  function RawIds(o: Observation): ArrayText {
    o.poolIds.GetOr(Encoded([]))
  }

  function DirectionPair(o: Observation): string {
    PairText(Lower(o.tokenX), Lower(o.tokenY))
  }

  predicate UpToDate(o: Observation) {
    var items := FirstItem(RawIds(o));
    && o.addressPair == DirectionPair(o)
    && o.optimal.GetOr("") == Chosen(o.optimal, items)
    && RawIds(o) == Encoded(items)
  }

  /** The values the update statement sets. */
  function Rewritten(o: Observation): Observation {
    var items := FirstItem(RawIds(o));
    Observation(o.tokenX, o.tokenY, DirectionPair(o), Some(Encoded(items)), Some(Chosen(o.optimal, items)),
                items != [], |items|)
  }

  function Backfilled(o: Observation): Observation {
    if UpToDate(o) then o else Rewritten(o)
  }

  ghost predicate BackfilledTo(before: Observations, after: Observations) {
    after.Keys == before.Keys && forall k :: k in before ==> after[k] == Backfilled(before[k])
  }

  /** The rows a backfill has to update. */
  function Stale(t: Observations): set<ObservationId> {
    set k | k in t && !UpToDate(t[k])
  }

  // ----- what a backfill leaves -----

  lemma RewrittenUpToDate(o: Observation)
    ensures UpToDate(Rewritten(o))
  {
  }

  /** After a backfill no row needs an update, so a second pass makes none and changes nothing. */
  lemma BackfillSettles(before: Observations, once: Observations, twice: Observations)
    requires BackfilledTo(before, once) && BackfilledTo(once, twice)
    ensures Stale(once) == {} && twice == once
  {
    forall k | k in once ensures UpToDate(once[k]) {
      RewrittenUpToDate(before[k]);
    }
  }

  /** The ids that a row's column lists: none when it is NULL or holds no array. */
  predicate Lists(o: Observation, items: seq<Item>) {
    match o.poolIds
    case None => items == []
    case Some(NotArray(_)) => items == []
    case Some(Encoded(listed)) => items == listed
    case Some(Spelled(listed, _)) => items == listed
  }

  /** What the three columns that a backfill compares should hold, given the ids listed so far. */
  predicate Settled(o: Observation, pair: string, optimal: string, ids: seq<Item>) {
    && o.addressPair == pair && o.optimal.GetOr("") == optimal
    && (o.poolIds == Some(Encoded(ids)) || (o.poolIds == None && ids == []))
  }

  /**
   The address pair names the row's own direction in its order, at most the first listed id is left,
   spelled canonically, and the optimal pool is the one that was stored or else that id's text.
   */
  lemma BackfillMeaning(o: Observation, items: seq<Item>)
    requires Lists(o, items)
    ensures var b := Backfilled(o);
            && b.tokenX == o.tokenX && b.tokenY == o.tokenY
            && Settled(b, Lower(o.tokenX) + ":" + Lower(o.tokenY),
                       if !Blank(o.optimal.GetOr("")) then o.optimal.value
                       else if items != [] && items[0].Str? then items[0].text else "",
                       if items == [] then [] else [items[0]])
  {
    assert items != [] ==> items[..1] == [items[0]];
    assert o.optimal.None? ==> Blank(o.optimal.GetOr(""));
  }

  /**
   The has-pool flag and the count are not compared, so they are right afterwards exactly when they
   were, or when one of the three columns that are compared was not.
   */
  lemma CountsRightIff(o: Observation, items: seq<Item>)
    requires Lists(o, items)
    ensures var ids := if items == [] then [] else [items[0]];
            var pair := Lower(o.tokenX) + ":" + Lower(o.tokenY);
            var optimal := if !Blank(o.optimal.GetOr("")) then o.optimal.value
                           else if items != [] && items[0].Str? then items[0].text else "";
            var b := Backfilled(o);
            b.poolCount == |ids| && b.hasPool == (ids != []) <==>
            !Settled(o, pair, optimal, ids) || (o.poolCount == |ids| && o.hasPool == (ids != []))
  {
    assert items != [] ==> items[..1] == [items[0]];
    assert o.optimal.None? ==> Blank(o.optimal.GetOr(""));
  }

  /** The pool that the loop stage reads from a row: its optimal pool, else its first listed id. */
  function ReadPool(o: Observation): string {
    var texts := TextItems(Items(RawIds(o)));
    if !Blank(o.optimal.GetOr("")) then Norm(o.optimal.GetOr("")) else if texts == [] then "" else Norm(texts[0])
  }

  function TextItems(items: seq<Item>): seq<string> {
    if items == [] then []
    else (if items[0].Str? then [items[0].text] else []) + TextItems(items[1..])
  }

  /**
   The backfill keeps the pool the loop stage reads, unless a row without optimal pool starts with
   something that is not a string and names a pool after it.
   */
  lemma ReadPoolKeptIff(o: Observation)
    ensures ReadPool(Backfilled(o)) == ReadPool(o) <==>
            || !Blank(o.optimal.GetOr("")) || Items(RawIds(o)) == [] || Items(RawIds(o))[0].Str?
            || ReadPool(o) == ""
  {
    var items := Items(RawIds(o));
    FirstText(o);
    if UpToDate(o) {
      assert items == FirstItem(RawIds(o));
    } else {
      RewrittenReads(o);
    }
  }

  lemma FirstText(o: Observation)
    ensures var items := Items(RawIds(o));
            && (items == [] ==> TextItems(items) == [])
            && (items != [] && items[0].Str? ==> TextItems(items) != [] && TextItems(items)[0] == items[0].text)
            && (|items| == 1 && !items[0].Str? ==> TextItems(items) == [])
  {
  }

  /** What the loop stage reads from a rewritten row. */
  lemma RewrittenReads(o: Observation)
    ensures ReadPool(Rewritten(o)) ==
            if !Blank(o.optimal.GetOr("")) then Norm(o.optimal.GetOr(""))
            else if Items(RawIds(o)) == [] then "" else Norm(ItemText(Items(RawIds(o))[0]))
  {
    var items, r := Items(RawIds(o)), Rewritten(o);
    FirstText(r);
    assert Items(RawIds(r)) == FirstItem(RawIds(o));
    NormBlank("");
    if items != [] {
      assert FirstItem(RawIds(o)) == [items[0]];
      NormBlank(ItemText(items[0]));
    }
  }

  // ----- the integrity count -----

  /** The primary key of a candidate token row. */
  datatype CandidateToken = CandidateToken(tag: Tag, role: string, token: string)

  function DirectionsIn(ids: set<ObservationId>, tag: Tag): set<ObservationId> {
    set k | k in ids && k.tag == tag
  }

  function TokensIn(tokens: set<CandidateToken>, tag: Tag): set<CandidateToken> {
    set t | t in tokens && t.tag == tag
  }

  predicate Balanced(ids: set<ObservationId>, tokens: set<CandidateToken>, tag: Tag) {
    var n := |TokensIn(tokens, tag)|;
    |DirectionsIn(ids, tag)| == n * (n - 1)
  }

  /** The observed groups whose number of directions is not n(n - 1) for their n candidate tokens. */
  function Mismatched(ids: set<ObservationId>, tokens: set<CandidateToken>): set<Tag> {
    set k | k in ids && !Balanced(ids, tokens, k.tag) :: k.tag
  }

  /** A group is reported exactly when it has directions, but not n(n - 1) for its n token rows. */
  lemma MismatchedIff(ids: set<ObservationId>, tokens: set<CandidateToken>, tag: Tag)
    ensures var count := |set k | k in ids && k.tag == tag|;
            var n := |set t | t in tokens && t.tag == tag|;
            tag in Mismatched(ids, tokens) <==> count != 0 && count != n * (n - 1)
  {
    assert DirectionsIn(ids, tag) == set k | k in ids && k.tag == tag;
    assert TokensIn(tokens, tag) == set t | t in tokens && t.tag == tag;
    if tag in Mismatched(ids, tokens) {
      var k :| k in ids && !Balanced(ids, tokens, k.tag) && k.tag == tag;
      assert k in DirectionsIn(ids, tag);
    }
    if |DirectionsIn(ids, tag)| != 0 && !Balanced(ids, tokens, tag) {
      var k :| k in DirectionsIn(ids, tag);
      assert k in ids && k.tag == tag;
    }
  }

  // ----- the migration -----

  class MigrationStore {
    var pairs: seq<PairSplit.Pair>
    var observations: Observations
    var candidateTokens: set<CandidateToken>

    constructor (pairs: seq<PairSplit.Pair>, observations: Observations, candidateTokens: set<CandidateToken>)
      ensures this.pairs == pairs && this.observations == observations && this.candidateTokens == candidateTokens
    {
      this.pairs := pairs;
      this.observations := observations;
      this.candidateTokens := candidateTokens;
    }

    /** Inserts all forward rows, then all reverse rows, then deletes what has no direction. */
    method SplitPairs()
      modifies this`pairs
      ensures pairs == PairSplit.Split(old(pairs))
    {
      var legacy := PairSplit.LegacyRows(pairs);
      var rows := PairSplit.Forwards(legacy) + PairSplit.Reverses(legacy);
      for i := 0 to |rows|
        invariant pairs == PairSplit.PutAll(old(pairs), rows[..i])
      {
        PairSplit.PutAllSnoc(old(pairs), rows, i);
        pairs := PairSplit.Put(pairs, rows[i]);
      }
      assert rows[..|rows|] == rows;
      pairs := PairSplit.Directional(pairs);
    }

    /** Rewrites every row that is not up to date and counts the updates. */
    method BackfillObservations() returns (updates: nat)
      modifies this`observations
      ensures BackfilledTo(old(observations), observations)
      ensures updates == |Stale(old(observations))|
    {
      updates := 0;
      var rows := observations;
      var left := rows.Keys;
      ghost var seen: set<ObservationId> := {};
      while left != {}
        invariant left <= rows.Keys && seen == rows.Keys - left
        invariant observations.Keys == rows.Keys
        invariant forall k :: k in rows ==> observations[k] == if k in seen then Backfilled(rows[k]) else rows[k]
        invariant updates == |StaleIn(rows, seen)|
        decreases left
      {
        var k :| k in left;
        StaleStep(rows, seen, k);
        left := left - {k};
        seen := seen + {k};
        if UpToDate(rows[k]) {
          continue;
        }
        observations := observations[k := Rewritten(rows[k])];
        updates := updates + 1;
      }
      assert StaleIn(rows, seen) == Stale(rows);
    }

    method CheckIntegrity() returns (failed: set<Tag>)
      ensures failed == Mismatched(observations.Keys, candidateTokens)
    {
      failed := {};
      var left := observations.Keys;
      ghost var seen: set<ObservationId> := {};
      while left != {}
        invariant seen + left == observations.Keys
        invariant failed == set k | k in seen && !Balanced(observations.Keys, candidateTokens, k.tag) :: k.tag
        decreases left
      {
        var k :| k in left;
        left := left - {k};
        seen := seen + {k};
        if !Balanced(observations.Keys, candidateTokens, k.tag) {
          failed := failed + {k.tag};
        }
      }
    }

    /** All steps in order; a failed integrity count is reported with the tables already rewritten. */
    method Migrate() returns (r: Result<nat, set<Tag>>)
      modifies this`pairs, this`observations
      ensures pairs == PairSplit.Split(old(pairs)) && BackfilledTo(old(observations), observations)
      ensures var failed := Mismatched(old(observations).Keys, candidateTokens);
              r == if failed == {} then Ok(|Stale(old(observations))|) else Err(failed)
    {
      SplitPairs();
      var updates := BackfillObservations();
      var failed := CheckIntegrity();
      r := if failed == {} then Ok(updates) else Err(failed);
    }
  }

  function StaleIn(t: Observations, ids: set<ObservationId>): set<ObservationId> {
    set k | k in ids && k in t && !UpToDate(t[k])
  }

  lemma StaleStep(t: Observations, ids: set<ObservationId>, k: ObservationId)
    requires k in t && k !in ids
    ensures |StaleIn(t, ids + {k})| == |StaleIn(t, ids)| + if UpToDate(t[k]) then 0 else 1
  {
    assert StaleIn(t, ids + {k}) == StaleIn(t, ids) + if UpToDate(t[k]) then {} else {k};
  }

  /** A second migration changes no table, makes no update, and repeats the first verdict. */
  lemma MigrateAgain(pairs: seq<PairSplit.Pair>, before: Observations, once: Observations, twice: Observations,
                     tokens: set<CandidateToken>)
    requires BackfilledTo(before, once) && BackfilledTo(once, twice)
    ensures PairSplit.Split(PairSplit.Split(pairs)) == PairSplit.Split(pairs) && twice == once
    ensures |Stale(once)| == 0
    ensures Mismatched(once.Keys, tokens) == Mismatched(before.Keys, tokens)
  {
    PairSplit.SplitAgain(pairs);
    BackfillSettles(before, once, twice);
  }

  // ----- the builder's tables -----

  ghost function BuiltDirections(rows: Tables): set<ObservationId> {
    set k | k in rows && k.ObsKey? :: ObservationId(k.tag, PairText(k.x, k.y))
  }

  /** The one role the builder stores tokens under. */
  const BUILDER_ROLE := "yc_zc"

  ghost function BuiltTokens(rows: Tables): set<CandidateToken> {
    set k | k in rows && k.TokenKey? :: CandidateToken(k.tag, BUILDER_ROLE, k.token)
  }

  /** Whatever the builder writes passes the integrity count, in every group of its scope. */
  lemma BuilderPassesIntegrity(before: Tables, after: Tables, scope: Scope, jobs: seq<Job>,
                               src: Source, universe: Option<set<string>>, tag: Tag)
    requires WellStored(src.pools) && Coherent(jobs) && forall job :: job in jobs ==> job.scope == scope
    requires BuiltFrom(before, after, scope, jobs, src, universe)
    requires tag.scope == scope
    ensures tag !in Mismatched(BuiltDirections(after), BuiltTokens(after))
  {
    MismatchedIff(BuiltDirections(after), BuiltTokens(after), tag);
    if DirectionsIn(BuiltDirections(after), tag) != {} {
      var job := DirectionsHaveJob(before, after, scope, jobs, src, universe, tag);
      var cs := Candidates(src.pools, job.anchor, universe);
      GroupBuilt(before, after, jobs, job, src, universe);
      CandidatesColonFree(src.pools, job.anchor, universe);
      NamedCount(tag, Directions(cs));
      DirectionsCount(cs);
      TokenPairCount(tag, cs);
    }
  }

  lemma DirectionsHaveJob(before: Tables, after: Tables, scope: Scope, jobs: seq<Job>,
                          src: Source, universe: Option<set<string>>, tag: Tag) returns (job: Job)
    requires BuiltFrom(before, after, scope, jobs, src, universe)
    requires tag.scope == scope && DirectionsIn(BuiltDirections(after), tag) != {}
    ensures job in jobs && TagOf(job) == tag
  {
    var id :| id in DirectionsIn(BuiltDirections(after), tag);
    var k :| k in after && k.ObsKey? && ObservationId(k.tag, PairText(k.x, k.y)) == id;
    assert Lookup(after, k) == Content(jobs, src, universe, k);
    ContentFromOne(jobs, src, universe, k);
    job :| job in jobs && AnchorRow(job, src, universe, k) == Content(jobs, src, universe, k);
    AnchorKeys(job, src, universe, k);
  }

  function Named(tag: Tag, ds: set<(string, string)>): set<ObservationId> {
    set d | d in ds :: ObservationId(tag, PairText(d.0, d.1))
  }

  function Tagged(tag: Tag, cs: set<string>): set<CandidateToken> {
    set c | c in cs :: CandidateToken(tag, BUILDER_ROLE, c)
  }

  lemma GroupBuilt(before: Tables, after: Tables, jobs: seq<Job>, job: Job,
                   src: Source, universe: Option<set<string>>)
    requires Coherent(jobs) && job in jobs && BuiltFrom(before, after, job.scope, jobs, src, universe)
    ensures var cs := Candidates(src.pools, job.anchor, universe);
            && DirectionsIn(BuiltDirections(after), TagOf(job)) == Named(TagOf(job), Directions(cs))
            && TokensIn(BuiltTokens(after), TagOf(job)) == Tagged(TagOf(job), cs)
  {
    var cs, tag := Candidates(src.pools, job.anchor, universe), TagOf(job);
    forall x, y | true ensures ObsKey(tag, x, y) in after <==> (x, y) in Directions(cs) {
      TagRow(before, after, jobs, job, src, universe, ObsKey(tag, x, y));
    }
    forall c | true ensures TokenKey(tag, c) in after <==> c in cs {
      TagRow(before, after, jobs, job, src, universe, TokenKey(tag, c));
    }
    forall d | d in Directions(cs) ensures ObservationId(tag, PairText(d.0, d.1)) in BuiltDirections(after) {
      assert ObsKey(tag, d.0, d.1) in after;
    }
    forall k | k in DirectionsIn(BuiltDirections(after), tag) ensures k in Named(tag, Directions(cs)) {
      var o :| o in after && o.ObsKey? && ObservationId(o.tag, PairText(o.x, o.y)) == k;
      assert (o.x, o.y) in Directions(cs);
      var d := (o.x, o.y);
      assert k == ObservationId(tag, PairText(d.0, d.1));
    }
    forall c | c in cs ensures CandidateToken(tag, BUILDER_ROLE, c) in BuiltTokens(after) {
      assert TokenKey(tag, c) in after;
    }
    forall t | t in TokensIn(BuiltTokens(after), tag) ensures t in Tagged(tag, cs) {
      var k :| k in after && k.TokenKey? && CandidateToken(k.tag, BUILDER_ROLE, k.token) == t;
      assert TokenKey(tag, k.token) in after;
    }
  }

  lemma CandidatesColonFree(pools: seq<Pool>, a: string, universe: Option<set<string>>)
    requires WellStored(pools)
    ensures forall d :: d in Directions(Candidates(pools, a, universe)) ==> NoColon(d.0) && NoColon(d.1)
  {
  }

  /** Colon-free pairs have different text keys. */
  lemma {:induction false} NamedCount(tag: Tag, ds: set<(string, string)>)
    requires forall d :: d in ds ==> NoColon(d.0) && NoColon(d.1)
    ensures |Named(tag, ds)| == |ds|
    decreases ds
  {
    if ds == {} {
      assert Named(tag, ds) == {};
    } else {
      var d :| d in ds;
      NamedCount(tag, ds - {d});
      assert Named(tag, ds) == Named(tag, ds - {d}) + {ObservationId(tag, PairText(d.0, d.1))};
      forall e | e in ds - {d} ensures PairText(e.0, e.1) != PairText(d.0, d.1) {
        PairTextInjective(e.0, e.1, d.0, d.1);
      }
    }
  }

  lemma {:induction false} TokenPairCount(tag: Tag, cs: set<string>)
    ensures |Tagged(tag, cs)| == |cs|
    decreases cs
  {
    if cs == {} {
      assert Tagged(tag, cs) == {};
    } else {
      var c :| c in cs;
      TokenPairCount(tag, cs - {c});
      assert Tagged(tag, cs) == Tagged(tag, cs - {c}) + {CandidateToken(tag, BUILDER_ROLE, c)};
    }
  }
}

/** The loop stage: reads the first two stages back and joins them into triangular loops. */
module LoopStage {
  import opened LoopSpec
  import opened Scopes
  import opened Text
  import opened Wrappers

  // ----- reading the earlier stages back -----

  predicate ReadKey(k: Key, scope: Scope, symbol: string) {
    !k.LoopKey? && !k.HopKey? && k.tag.scope == scope && k.tag.symbol == symbol
  }

  /** The candidate tokens stored for an anchor symbol. */
  function LoadTokens(rows: Tables, scope: Scope, symbol: string): set<string> {
    set k | k in rows && k.TokenKey? && ReadKey(k, scope, symbol) && Norm(k.token) != "" :: Norm(k.token)
  }

  function LoadObserved(rows: Tables, scope: Scope, symbol: string): set<string> {
    set k | k in rows && k.ObsPoolKey? && ReadKey(k, scope, symbol) && Norm(k.poolId) != "" :: Norm(k.poolId)
  }

  /** A recommendation row for this direction and hop. */
  predicate RecFor(rows: Tables, scope: Scope, symbol: string, hop: Hop, d: (string, string), k: Key) {
    && k in rows && k.RecKey? && rows[k].RecRow? && ReadKey(k, scope, symbol)
    && k.hop == hop && k.x == d.0 && k.y == d.1
  }

  /** The reading order of recommendations: by counter address, then rank. */
  predicate ReadEarlier(rows: Tables, k: Key, l: Key)
    requires k in rows && k.RecKey? && rows[k].RecRow? && l in rows && l.RecKey? && rows[l].RecRow?
  {
    Less(k.counter, l.counter) || (k.counter == l.counter && rows[k].rank < rows[l].rank)
  }

  /** `k` is a first recommendation of its direction in the reading order. */
  ghost predicate ReadFirst(rows: Tables, scope: Scope, symbol: string, hop: Hop, d: (string, string), k: Key) {
    && RecFor(rows, scope, symbol, hop, d, k)
    && forall l :: RecFor(rows, scope, symbol, hop, d, l) ==> !ReadEarlier(rows, l, k)
  }

  /** `best` holds the pool of a first recommendation for every direction that has any. */
  ghost predicate HeadsOf(rows: Tables, scope: Scope, symbol: string, hop: Hop, best: map<(string, string), string>) {
    && (forall k :: k in rows && k.RecKey? && RecFor(rows, scope, symbol, hop, (k.x, k.y), k) ==> (k.x, k.y) in best)
    && (forall d :: d in best ==> exists k :: ReadFirst(rows, scope, symbol, hop, d, k) && best[d] == Norm(k.poolId))
  }

  /** The pool an observation row offers for its direction. */
  function Optimal(row: Row): string
    requires row.ObsRow?
  {
    if Norm(row.optimal) != "" then Norm(row.optimal) else if row.poolIds == [] then "" else Norm(row.poolIds[0])
  }

  predicate ObsFor(rows: Tables, scope: Scope, symbol: string, d: (string, string), k: Key) {
    k in rows && k.ObsKey? && rows[k].ObsRow? && ReadKey(k, scope, symbol) && k.x == d.0 && k.y == d.1
  }

  ghost predicate MiddlesOf(rows: Tables, scope: Scope, symbol: string, middle: map<(string, string), string>) {
    && (forall k :: k in rows && k.ObsKey? && ObsFor(rows, scope, symbol, (k.x, k.y), k) ==> (k.x, k.y) in middle)
    && (forall d :: d in middle ==> exists k :: ObsFor(rows, scope, symbol, d, k) && middle[d] == Optimal(rows[k]))
  }

  /** What the loop stage may read from the tables for an anchor symbol. */
  ghost predicate ReadFrom(r: Reading, rows: Tables, scope: Scope, symbol: string) {
    && r.tokens == LoadTokens(rows, scope, symbol)
    && r.observed == LoadObserved(rows, scope, symbol)
    && HeadsOf(rows, scope, symbol, First, r.first)
    && HeadsOf(rows, scope, symbol, Third, r.third)
    && MiddlesOf(rows, scope, symbol, r.middle)
  }

  /** The keys of an anchor's stored recommendations for a direction and hop. */
  function Recommended(rows: Tables, scope: Scope, symbol: string, hop: Hop, x: string, y: string): set<Key> {
    set k | k in rows && k.RecKey? && rows[k].RecRow? && k.tag.scope == scope && k.tag.symbol == symbol
            && k.hop == hop && k.x == x && k.y == y
  }

  lemma RecommendedIs(rows: Tables, scope: Scope, symbol: string, hop: Hop, x: string, y: string, k: Key)
    ensures k in Recommended(rows, scope, symbol, hop, x, y) <==> RecFor(rows, scope, symbol, hop, (x, y), k)
  {
  }

  /** A pool is read for a direction and hop exactly when it has a recommendation. */
  lemma HeadExistsIff(rows: Tables, scope: Scope, symbol: string, hop: Hop, best: map<(string, string), string>,
                      x: string, y: string)
    requires HeadsOf(rows, scope, symbol, hop, best)
    ensures (x, y) in best <==> Recommended(rows, scope, symbol, hop, x, y) != {}
  {
    if (x, y) in best {
      var k :| ReadFirst(rows, scope, symbol, hop, (x, y), k) && best[(x, y)] == Norm(k.poolId);
      RecommendedIs(rows, scope, symbol, hop, x, y, k);
    }
    if k :| k in Recommended(rows, scope, symbol, hop, x, y) {
      RecommendedIs(rows, scope, symbol, hop, x, y, k);
    }
  }

  /** It is one that no other has an earlier counter than, nor the same counter and a lower rank. */
  lemma HeadIs(rows: Tables, scope: Scope, symbol: string, hop: Hop, best: map<(string, string), string>,
               x: string, y: string) returns (k: Key)
    requires HeadsOf(rows, scope, symbol, hop, best) && (x, y) in best
    ensures k in Recommended(rows, scope, symbol, hop, x, y) && best[(x, y)] == Norm(k.poolId)
    ensures forall l :: l in Recommended(rows, scope, symbol, hop, x, y) && l != k ==>
              Less(k.counter, l.counter) || (l.counter == k.counter && rows[k].rank <= rows[l].rank)
  {
    k :| ReadFirst(rows, scope, symbol, hop, (x, y), k) && best[(x, y)] == Norm(k.poolId);
    RecommendedIs(rows, scope, symbol, hop, x, y, k);
    forall l | l in Recommended(rows, scope, symbol, hop, x, y) && l != k
      ensures Less(k.counter, l.counter) || (l.counter == k.counter && rows[k].rank <= rows[l].rank)
    {
      RecommendedIs(rows, scope, symbol, hop, x, y, l);
      LessTotal(k.counter, l.counter);
      assert !ReadEarlier(rows, l, k);
    }
  }

  /** The keys of an anchor's stored observation rows for a direction. */
  function ObservedIn(rows: Tables, scope: Scope, symbol: string, x: string, y: string): set<Key> {
    set k | k in rows && k.ObsKey? && rows[k].ObsRow? && k.tag.scope == scope && k.tag.symbol == symbol
            && k.x == x && k.y == y
  }

  lemma ObservedIs(rows: Tables, scope: Scope, symbol: string, x: string, y: string, k: Key)
    ensures k in ObservedIn(rows, scope, symbol, x, y) <==> ObsFor(rows, scope, symbol, (x, y), k)
  {
  }

  /** A middle pool is read for a direction exactly when it has an observation row. */
  lemma MiddleExistsIff(rows: Tables, scope: Scope, symbol: string, middle: map<(string, string), string>,
                        x: string, y: string)
    requires MiddlesOf(rows, scope, symbol, middle)
    ensures (x, y) in middle <==> ObservedIn(rows, scope, symbol, x, y) != {}
  {
    if (x, y) in middle {
      var k :| ObsFor(rows, scope, symbol, (x, y), k) && middle[(x, y)] == Optimal(rows[k]);
      ObservedIs(rows, scope, symbol, x, y, k);
    }
    if k :| k in ObservedIn(rows, scope, symbol, x, y) {
      ObservedIs(rows, scope, symbol, x, y, k);
    }
  }

  /** It is such a row's optimal pool, or its first listed pool when that is blank, or empty without either. */
  lemma MiddleIs(rows: Tables, scope: Scope, symbol: string, middle: map<(string, string), string>,
                 x: string, y: string) returns (k: Key)
    requires MiddlesOf(rows, scope, symbol, middle) && (x, y) in middle
    ensures k in ObservedIn(rows, scope, symbol, x, y)
    ensures var pool, row := middle[(x, y)], rows[k];
            if !Blank(row.optimal) then pool == Norm(row.optimal)
            else if row.poolIds != [] then pool == Norm(row.poolIds[0])
            else pool == ""
  {
    k :| ObsFor(rows, scope, symbol, (x, y), k) && middle[(x, y)] == Optimal(rows[k]);
    ObservedIs(rows, scope, symbol, x, y, k);
    NormBlank(rows[k].optimal);
  }

  /** The first recommendation per direction, keeping the earlier one while scanning the rows. */
  method LoadHeads(rows: Tables, scope: Scope, symbol: string, hop: Hop) returns (best: map<(string, string), string>)
    ensures HeadsOf(rows, scope, symbol, hop, best)
  {
    var heads: map<(string, string), Key> := map[];
    var left := rows.Keys;
    ghost var seen: set<Key> := {};
    while left != {}
      invariant seen + left == rows.Keys
      invariant forall k :: k in seen && k.RecKey? && RecFor(rows, scope, symbol, hop, (k.x, k.y), k) ==>
                  (k.x, k.y) in heads
      invariant forall d :: d in heads ==> HeadAmong(rows, scope, symbol, hop, d, heads[d], seen)
      decreases left
    {
      var k :| k in left;
      left := left - {k};
      ghost var before := seen;
      seen := seen + {k};
      forall d | d in heads && !(k.RecKey? && d == (k.x, k.y))
        ensures HeadAmong(rows, scope, symbol, hop, d, heads[d], seen)
      {
      }
      if k.RecKey? && RecFor(rows, scope, symbol, hop, (k.x, k.y), k) {
        var d := (k.x, k.y);
        if d !in heads {
          FirstSeen(rows, scope, symbol, hop, d, k, before);
          heads := heads[d := k];
        } else if ReadEarlier(rows, k, heads[d]) {
          NewHead(rows, scope, symbol, hop, d, k, heads[d], before);
          heads := heads[d := k];
        }
      }
    }
    best := map d | d in heads :: Norm(heads[d].poolId);
    forall d | d in best ensures exists k :: ReadFirst(rows, scope, symbol, hop, d, k) && best[d] == Norm(k.poolId) {
      assert ReadFirst(rows, scope, symbol, hop, d, heads[d]);
    }
  }

  /** No row read so far comes before this one. */
  ghost predicate HeadAmong(rows: Tables, scope: Scope, symbol: string, hop: Hop, d: (string, string), k: Key,
                            seen: set<Key>)
  {
    && RecFor(rows, scope, symbol, hop, d, k)
    && forall l :: l in seen && RecFor(rows, scope, symbol, hop, d, l) ==> !ReadEarlier(rows, l, k)
  }

  lemma FirstSeen(rows: Tables, scope: Scope, symbol: string, hop: Hop, d: (string, string), k: Key, seen: set<Key>)
    requires RecFor(rows, scope, symbol, hop, d, k)
    requires forall l :: l in seen ==> !RecFor(rows, scope, symbol, hop, d, l)
    ensures HeadAmong(rows, scope, symbol, hop, d, k, seen + {k})
  {
    LessTotal(k.counter, k.counter);
  }

  lemma EarlierTransitive(rows: Tables, k: Key, l: Key, m: Key)
    requires k in rows && k.RecKey? && rows[k].RecRow?
    requires l in rows && l.RecKey? && rows[l].RecRow?
    requires m in rows && m.RecKey? && rows[m].RecRow?
    requires ReadEarlier(rows, k, l) && ReadEarlier(rows, l, m)
    ensures ReadEarlier(rows, k, m)
  {
    if Less(k.counter, l.counter) && Less(l.counter, m.counter) {
      LessTransitive(k.counter, l.counter, m.counter);
    }
  }

  lemma NewHead(rows: Tables, scope: Scope, symbol: string, hop: Hop, d: (string, string), k: Key, last: Key,
                seen: set<Key>)
    requires RecFor(rows, scope, symbol, hop, d, k) && HeadAmong(rows, scope, symbol, hop, d, last, seen)
    requires ReadEarlier(rows, k, last)
    ensures HeadAmong(rows, scope, symbol, hop, d, k, seen + {k})
  {
    forall l | l in seen + {k} && RecFor(rows, scope, symbol, hop, d, l) ensures !ReadEarlier(rows, l, k) {
      LessTotal(k.counter, k.counter);
      if ReadEarlier(rows, l, k) {
        EarlierTransitive(rows, l, k, last);
      }
    }
  }

  /** The pool per observed direction. */
  method LoadMiddles(rows: Tables, scope: Scope, symbol: string) returns (middle: map<(string, string), string>)
    ensures MiddlesOf(rows, scope, symbol, middle)
  {
    middle := map[];
    var left := rows.Keys;
    ghost var seen: set<Key> := {};
    while left != {}
      invariant seen + left == rows.Keys
      invariant forall k :: k in seen && k.ObsKey? && ObsFor(rows, scope, symbol, (k.x, k.y), k) ==>
                  (k.x, k.y) in middle
      invariant forall d :: d in middle ==>
                  exists k :: ObsFor(rows, scope, symbol, d, k) && middle[d] == Optimal(rows[k])
      decreases left
    {
      var k :| k in left;
      left := left - {k};
      seen := seen + {k};
      if k.ObsKey? && ObsFor(rows, scope, symbol, (k.x, k.y), k) {
        ghost var before := middle;
        middle := middle[(k.x, k.y) := Optimal(rows[k])];
        forall d | d in middle ensures exists l :: ObsFor(rows, scope, symbol, d, l) && middle[d] == Optimal(rows[l]) {
          if d == (k.x, k.y) {
            assert ObsFor(rows, scope, symbol, d, k);
          } else {
            var l :| ObsFor(rows, scope, symbol, d, l) && before[d] == Optimal(rows[l]);
          }
        }
      }
    }
  }

  method LoadReading(rows: Tables, scope: Scope, symbol: string) returns (r: Reading)
    ensures ReadFrom(r, rows, scope, symbol)
  {
    var first := LoadHeads(rows, scope, symbol, First);
    var third := LoadHeads(rows, scope, symbol, Third);
    var middle := LoadMiddles(rows, scope, symbol);
    r := Reading(LoadTokens(rows, scope, symbol), first, third, middle, LoadObserved(rows, scope, symbol));
  }

  // ----- joining the loops -----

  /** One loop and its three hops. */
  /** A reading gives a loop exactly for two further named tokens with a first, an observed middle and a third pool. */
  lemma StageLoopIff(job: Job, symbols: map<string, string>, r: Reading, y: string, z: string)
    ensures var row := LoopStageRow(job, symbols, r, Pairs(r.tokens), LoopKey(job.scope, job.market, job.anchor, y, z));
            if && {y, z} <= r.tokens && y != job.anchor && z != job.anchor && y != z
               && Resolved(symbols, y) && Resolved(symbols, z)
               && (job.anchor, y) in r.first && (z, job.anchor) in r.third
               && (y, z) in r.middle && r.middle[(y, z)] in r.observed - {""}
            then row == Some(LoopRow(job.symbol, [job.anchor, y, z, job.anchor],
                                     [r.first[(job.anchor, y)], r.middle[(y, z)], r.third[(z, job.anchor)]]))
            else row == None
  {
    assert (y, z) in Pairs(r.tokens) <==> y in r.tokens && z in r.tokens;
  }

  method LoopRows(job: Job, symbols: map<string, string>, r: Reading) returns (rows: Tables)
    ensures forall k :: Lookup(rows, k) == LoopStageRow(job, symbols, r, Pairs(r.tokens), k)
  {
    rows := map[];
    var left := Pairs(r.tokens);
    ghost var done: set<(string, string)> := {};
    while left != {}
      invariant done + left == Pairs(r.tokens)
      invariant forall k :: Lookup(rows, k) == LoopStageRow(job, symbols, r, done, k)
      decreases left
    {
      var d :| d in left;
      left := left - {d};
      ghost var before := rows;
      if Qualifies(job, symbols, r, d.0, d.1) {
        rows := rows + OneLoop(job, symbols, r, d.0, d.1);
      }
      forall k | true ensures Lookup(rows, k) == LoopStageRow(job, symbols, r, done + {d}, k) {
        assert Lookup(before, k) == LoopStageRow(job, symbols, r, done, k);
        if Qualifies(job, symbols, r, d.0, d.1) {
          OneLoopAt(job, symbols, r, d.0, d.1, k);
        }
        LoopStep(job, symbols, r, done, d, k);
      }
      done := done + {d};
    }
    assert done == Pairs(r.tokens);
  }

  function OneLoop(job: Job, symbols: map<string, string>, r: Reading, y: string, z: string): Tables
    requires Qualifies(job, symbols, r, y, z)
  {
    var pools := PoolPath(job, symbols, r, y, z);
    map[
      LoopKey(job.scope, job.market, job.anchor, y, z) := LoopRow(job.symbol, Path(job, y, z), pools),
      HopKey(job.scope, job.market, job.anchor, y, z, 1) := HopRow(job.anchor, y, pools[0]),
      HopKey(job.scope, job.market, job.anchor, y, z, 2) := HopRow(y, z, pools[1]),
      HopKey(job.scope, job.market, job.anchor, y, z, 3) := HopRow(z, job.anchor, pools[2])]
  }

  lemma OneLoopAt(job: Job, symbols: map<string, string>, r: Reading, y: string, z: string, k: Key)
    requires Qualifies(job, symbols, r, y, z)
    ensures Lookup(OneLoop(job, symbols, r, y, z), k) == LoopStageRow(job, symbols, r, {(y, z)}, k)
  {
    if k.LoopKey? {
      assert (k.y, k.z) in {(y, z)} <==> k.y == y && k.z == z;
    } else if k.HopKey? {
      assert (k.y, k.z) in {(y, z)} <==> k.y == y && k.z == z;
    }
  }

  lemma LoopStep(job: Job, symbols: map<string, string>, r: Reading, ds: set<(string, string)>, d: (string, string),
                 k: Key)
    ensures LoopStageRow(job, symbols, r, ds + {d}, k) ==
            if Qualifies(job, symbols, r, d.0, d.1) && LoopStageRow(job, symbols, r, {d}, k).Some?
            then LoopStageRow(job, symbols, r, {d}, k)
            else LoopStageRow(job, symbols, r, ds, k)
  {
  }
}

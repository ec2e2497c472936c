/**
 Ranking pools for a swap direction: the sort key, the stable sort, and the selection of the
 first few distinct confirmed pools. Scores are given as integer ranks, one per direction.
 */
module Selection {
  import opened Wrappers
  import opened Text

  /** A pool row joined with its liquidity evidence. */
  datatype Pool = Pool(
    id: string,
    token0: Option<string>,
    token1: Option<string>,
    fee: Option<int>,
    hooks: Option<string>,
    confirmed: bool,
    rank01: int,
    rank10: int)

  function Id(p: Pool): string {
    Norm(p.id)
  }

  function Token0(p: Pool): string {
    Norm(p.token0.GetOr(""))
  }

  function Token1(p: Pool): string {
    Norm(p.token1.GetOr(""))
  }

  /** The score's rank: 0 unless the pool holds exactly the direction's two tokens. */
  function Rank(p: Pool, input: string, output: string): int {
    if input == "" || output == "" || {input, output} != {Token0(p), Token1(p)} then 0
    else if input == Token0(p) then p.rank01
    else p.rank10
  }

  function Filter(pools: seq<Pool>, keep: Pool -> bool): seq<Pool> {
    if pools == [] then []
    else Filter(pools[..|pools| - 1], keep) + (if keep(pools[|pools| - 1]) then [pools[|pools| - 1]] else [])
  }

  datatype SortKey = SortKey(negRank: int, fee: int, id: string)

  type Order = Pool -> SortKey

  /** Pools with different ids never tie. */
  ghost predicate Identifies(o: Order) {
    forall p :: o(p).id == Id(p)
  }

  /** The order for a swap direction; the fee takes part in it only for recommendations. */
  function DirectionOrder(input: string, output: string, byFee: bool): (o: Order)
    ensures Identifies(o)
  {
    (p: Pool) => SortKey(-Rank(p, input, output), if byFee then p.fee.GetOr(0) else 0, Id(p))
  }

  predicate Before(a: SortKey, b: SortKey) {
    || a.negRank < b.negRank
    || (a.negRank == b.negRank && a.fee < b.fee)
    || (a.negRank == b.negRank && a.fee == b.fee && Less(a.id, b.id))
  }

  lemma BeforeTotal(a: SortKey, b: SortKey)
    ensures a != b ==> Before(a, b) || Before(b, a)
    ensures !(Before(a, b) && Before(b, a)) && !Before(a, a)
  {
    LessTotal(a.id, b.id);
    LessTotal(a.id, a.id);
  }

  lemma BeforeTransitive(a: SortKey, b: SortKey, c: SortKey)
    requires !Before(b, a) && !Before(c, b)
    ensures !Before(c, a)
  {
    BeforeTotal(a, b);
    BeforeTotal(b, c);
    BeforeTotal(a, c);
    if Before(c, a) && a.id != b.id && b.id != c.id && a.negRank == b.negRank == c.negRank && a.fee == b.fee == c.fee {
      LessTransitive(a.id, b.id, c.id);
    }
  }

  predicate Beats(p: Pool, q: Pool, o: Order) {
    Before(o(p), o(q))
  }

  ghost predicate Sorted(s: seq<Pool>, o: Order) {
    forall i, j :: 0 <= i < j < |s| ==> !Beats(s[j], s[i], o)
  }

  // ----- stable sort -----

  /** Puts a pool behind every pool it does not beat. */
  function Insert(s: seq<Pool>, p: Pool, o: Order): (r: seq<Pool>)
    ensures |r| == |s| + 1
  {
    if s == [] || !Beats(p, s[|s| - 1], o) then s + [p]
    else Insert(s[..|s| - 1], p, o) + [s[|s| - 1]]
  }

  function Sort(s: seq<Pool>, o: Order): (r: seq<Pool>)
    ensures |r| == |s|
  {
    if s == [] then [] else Insert(Sort(s[..|s| - 1], o), s[|s| - 1], o)
  }

  lemma {:induction false} InsertMembers(s: seq<Pool>, p: Pool, o: Order)
    ensures multiset(Insert(s, p, o)) == multiset(s) + multiset{p}
  {
    if s != [] && Beats(p, s[|s| - 1], o) {
      InsertMembers(s[..|s| - 1], p, o);
      assert s == s[..|s| - 1] + [s[|s| - 1]];
    }
  }

  lemma {:induction false} InsertKeepsSorted(s: seq<Pool>, p: Pool, o: Order)
    requires Sorted(s, o)
    ensures Sorted(Insert(s, p, o), o)
  {
    if s != [] && Beats(p, s[|s| - 1], o) {
      var init, last := s[..|s| - 1], s[|s| - 1];
      InsertKeepsSorted(init, p, o);
      InsertMembers(init, p, o);
      assert s == init + [last];
      InsertSorted(init, p, last, o);
    } else {
      AppendSorted(s, p, o);
    }
  }

  lemma AppendSorted(s: seq<Pool>, p: Pool, o: Order)
    requires Sorted(s, o) && (s == [] || !Beats(p, s[|s| - 1], o))
    ensures Sorted(s + [p], o)
  {
    forall i | 0 <= i < |s| ensures !Beats(p, s[i], o) {
      if i < |s| - 1 {
        BeforeTransitive(o(s[i]), o(s[|s| - 1]), o(p));
      }
    }
  }

  lemma InsertSorted(init: seq<Pool>, p: Pool, last: Pool, o: Order)
    requires Sorted(init + [last], o) && Beats(p, last, o)
    requires Sorted(Insert(init, p, o), o)
    requires multiset(Insert(init, p, o)) == multiset(init) + multiset{p}
    ensures Sorted(Insert(init, p, o) + [last], o)
  {
    var s, r := init + [last], Insert(init, p, o);
    assert forall i :: 0 <= i < |init| ==> s[i] == init[i];
    forall i | 0 <= i < |r| ensures !Beats(last, r[i], o) {
      assert r[i] in multiset(r);
      if r[i] == p {
        BeforeTotal(o(p), o(last));
      } else {
        assert r[i] in multiset(init);
        var j :| 0 <= j < |init| && init[j] == r[i];
        assert s[j] == r[i] && s[|init|] == last;
      }
    }
  }

  lemma {:induction false} SortSorts(s: seq<Pool>, o: Order)
    ensures Sorted(Sort(s, o), o) && multiset(Sort(s, o)) == multiset(s)
  {
    if s != [] {
      var init, last := s[..|s| - 1], s[|s| - 1];
      SortSorts(init, o);
      InsertMembers(Sort(init, o), last, o);
      InsertKeepsSorted(Sort(init, o), last, o);
      assert s == init + [last];
    }
  }

  lemma SameMembers(a: seq<Pool>, b: seq<Pool>)
    requires multiset(a) == multiset(b)
    ensures |a| == |b| && forall p :: p in a <==> p in b
  {
    assert |multiset(a)| == |a| && |multiset(b)| == |b|;
    forall p | true ensures p in a <==> p in b {
      assert p in a <==> p in multiset(a);
      assert p in b <==> p in multiset(b);
    }
  }

  // ----- selection -----

  function Ids(s: seq<Pool>): set<string> {
    set i | 0 <= i < |s| :: Id(s[i])
  }

  ghost predicate DistinctIds(s: seq<Pool>) {
    forall i, j :: 0 <= i < j < |s| ==> Id(s[i]) != Id(s[j])
  }

  /** Walks the ranking and keeps confirmed pools with a new id until the cap is reached. */
  function Take(s: seq<Pool>, cap: nat): seq<Pool> {
    if s == [] then []
    else
      var kept, p := Take(s[..|s| - 1], cap), s[|s| - 1];
      if |kept| >= cap || !p.confirmed || Id(p) in Ids(kept) then kept else kept + [p]
  }

  function Confirmed(s: seq<Pool>): seq<Pool> {
    if s == [] then []
    else Confirmed(s[..|s| - 1]) + (if s[|s| - 1].confirmed then [s[|s| - 1]] else [])
  }

  const MAX_RECOMMENDED: nat := 5
  const MAX_OBSERVED: nat := 3

  /** `select_recommendations`: the best five by rank, fee and id. */
  function Recommend(pools: seq<Pool>, input: string, output: string): seq<Pool> {
    Take(Sort(Confirmed(pools), DirectionOrder(input, output, true)), MAX_RECOMMENDED)
  }

  /** `observation_pool_ids`: the best three by rank and id, among pools that have an id. */
  function Observe(pools: seq<Pool>, input: string, output: string): seq<Pool> {
    Take(Sort(Named(pools), DirectionOrder(input, output, false)), MAX_OBSERVED)
  }

  function Named(s: seq<Pool>): seq<Pool> {
    if s == [] then []
    else Named(s[..|s| - 1]) + (if Id(s[|s| - 1]) != "" then [s[|s| - 1]] else [])
  }

  lemma {:induction false} FilterMembers(s: seq<Pool>)
    ensures forall p :: p in Confirmed(s) <==> p in s && p.confirmed
    ensures forall p :: p in Named(s) <==> p in s && Id(p) != ""
  {
    if s != [] {
      FilterMembers(s[..|s| - 1]);
      assert s == s[..|s| - 1] + [s[|s| - 1]];
    }
  }

  lemma IdsSnoc(s: seq<Pool>, p: Pool)
    ensures Ids(s + [p]) == Ids(s) + {Id(p)}
  {
    var t := s + [p];
    assert forall i :: 0 <= i < |s| ==> t[i] == s[i];
    assert t[|s|] == p;
    assert forall id :: id in Ids(s) ==> id in Ids(t) by {
      forall id | id in Ids(s) ensures id in Ids(t) {
        var i :| 0 <= i < |s| && Id(s[i]) == id;
        assert Id(t[i]) == id;
      }
    }
  }

  /** Everything the walk guarantees about what it keeps and what it leaves out. */
  ghost predicate Best(kept: seq<Pool>, s: seq<Pool>, o: Order, cap: nat) {
    && |kept| <= cap
    && DistinctIds(kept)
    && Sorted(kept, o)
    && (forall p :: p in kept ==> p in s && p.confirmed)
    && (forall p :: p in s && p.confirmed && Id(p) !in Ids(kept) ==>
          |kept| == cap && forall q :: q in kept ==> !Beats(p, q, o))
    && (forall p, q :: p in s && p.confirmed && q in kept && Id(p) == Id(q) ==> !Beats(p, q, o))
  }

  lemma {:induction false} TakeBest(s: seq<Pool>, o: Order, cap: nat)
    requires Sorted(s, o)
    ensures Best(Take(s, cap), s, o, cap)
  {
    if s != [] {
      var init, p := s[..|s| - 1], s[|s| - 1];
      var kept := Take(init, cap);
      TakeBest(init, o, cap);
      assert s == init + [p];
      forall q | q in init ensures !Beats(p, q, o) {
        var i :| 0 <= i < |init| && init[i] == q;
        assert s[i] == q && s[|s| - 1] == p;
      }
      if |kept| < cap && p.confirmed && Id(p) !in Ids(kept) {
        TakeOneMore(kept, init, p, o, cap);
      }
    }
  }

  lemma KeptStays(kept: seq<Pool>, p: Pool, o: Order)
    requires DistinctIds(kept) && Sorted(kept, o) && Id(p) !in Ids(kept)
    requires forall q :: q in kept ==> !Beats(p, q, o)
    ensures DistinctIds(kept + [p]) && Sorted(kept + [p], o)
  {
  }

  lemma TakeOneMore(kept: seq<Pool>, init: seq<Pool>, p: Pool, o: Order, cap: nat)
    requires Best(kept, init, o, cap) && |kept| < cap && p.confirmed && Id(p) !in Ids(kept)
    requires forall q :: q in init ==> !Beats(p, q, o)
    ensures Best(kept + [p], init + [p], o, cap)
  {
    var more, all := kept + [p], init + [p];
    IdsSnoc(kept, p);
    KeptStays(kept, p, o);
    assert forall q :: q in init && q.confirmed ==> Id(q) in Ids(kept);
    assert forall q :: q in more <==> q in kept || q == p;
    assert forall q :: q in all <==> q in init || q == p;
    BeforeTotal(o(p), o(p));
    forall q, r | q in all && q.confirmed && r in more && Id(q) == Id(r) ensures !Beats(q, r, o) {
      if r != p {
        KeptId(kept, r);
      }
    }
  }

  lemma KeptId(kept: seq<Pool>, q: Pool)
    requires q in kept
    ensures Id(q) in Ids(kept)
  {
  }

  /** What is best of a sequence is best of any other with the same members. */
  lemma BestOfSame(kept: seq<Pool>, s: seq<Pool>, t: seq<Pool>, o: Order, cap: nat)
    requires Best(kept, s, o, cap) && forall p :: p in s <==> p in t
    ensures Best(kept, t, o, cap)
  {
  }

  lemma BestEmptyIff(kept: seq<Pool>, s: seq<Pool>, o: Order, cap: nat)
    requires Best(kept, s, o, cap) && cap > 0
    ensures kept == [] <==> Confirmed(s) == []
  {
    FilterMembers(s);
    if kept != [] {
      assert kept[0] in kept;
      assert kept[0] in Confirmed(s);
    }
    if Confirmed(s) != [] {
      var p := Confirmed(s)[0];
      assert p in Confirmed(s);
      assert kept == [] ==> Id(p) !in Ids(kept);
    }
  }

  lemma BestOfSorted(s: seq<Pool>, o: Order, cap: nat)
    ensures Best(Take(Sort(s, o), cap), s, o, cap)
  {
    SortSorts(s, o);
    SameMembers(Sort(s, o), s);
    TakeBest(Sort(s, o), o, cap);
    BestOfSame(Take(Sort(s, o), cap), Sort(s, o), s, o, cap);
  }

  lemma BestOfConfirmed(kept: seq<Pool>, s: seq<Pool>, o: Order, cap: nat)
    requires Best(kept, Confirmed(s), o, cap)
    ensures Best(kept, s, o, cap)
  {
    FilterMembers(s);
  }

  /**
   The recommendations are the true best: distinct, confirmed, in order, at most five; an omitted
   confirmed pool with an unselected id beats none of them and is omitted only when five are taken.
   */
  lemma RecommendBest(pools: seq<Pool>, input: string, output: string)
    ensures Best(Recommend(pools, input, output), pools, DirectionOrder(input, output, true), 5)
    ensures Recommend(pools, input, output) == [] <==> Confirmed(pools) == []
  {
    var o := DirectionOrder(input, output, true);
    BestOfSorted(Confirmed(pools), o, MAX_RECOMMENDED);
    BestOfConfirmed(Recommend(pools, input, output), pools, o, MAX_RECOMMENDED);
    BestEmptyIff(Recommend(pools, input, output), pools, o, MAX_RECOMMENDED);
  }

  lemma ObserveBest(pools: seq<Pool>, input: string, output: string)
    ensures Best(Observe(pools, input, output), Named(pools), DirectionOrder(input, output, false), 3)
    ensures Observe(pools, input, output) == [] <==> Confirmed(Named(pools)) == []
  {
    var o := DirectionOrder(input, output, false);
    BestOfSorted(Named(pools), o, MAX_OBSERVED);
    BestEmptyIff(Observe(pools, input, output), Named(pools), o, MAX_OBSERVED);
  }

  /** The pool holds exactly the two tokens of the direction, neither of them empty. */
  predicate Joins(p: Pool, input: string, output: string) {
    var first, second := Norm(p.token0.GetOr("")), Norm(p.token1.GetOr(""));
    && input != "" && output != ""
    && ((first == input && second == output) || (first == output && second == input))
  }

  /** The score is the one of the asked direction, and 0 for a pool of other tokens. */
  predicate HasScore(p: Pool, input: string, output: string, score: int) {
    var first := Norm(p.token0.GetOr(""));
    && (Joins(p, input, output) && first == input ==> score == p.rank01)
    && (Joins(p, input, output) && first != input ==> score == p.rank10)
    && (!Joins(p, input, output) ==> score == 0)
  }

  lemma RankIsScore(p: Pool, input: string, output: string)
    ensures HasScore(p, input, output, Rank(p, input, output))
  {
    assert {input, output} == {Token0(p), Token1(p)} ==>
             (input == Token0(p) || input == Token1(p)) && (output == Token0(p) || output == Token1(p))
             && (Token0(p) == input || Token0(p) == output) && (Token1(p) == input || Token1(p) == output) by {
      if {input, output} == {Token0(p), Token1(p)} {
        assert input in {Token0(p), Token1(p)} && output in {Token0(p), Token1(p)};
        assert Token0(p) in {input, output} && Token1(p) in {input, output};
      }
    }
  }

  /** The first pool comes before the second by score, then fee (when it counts), then id. */
  predicate Precedes(p: Pool, score: int, q: Pool, other: int, byFee: bool) {
    || score > other
    || (score == other && byFee && p.fee.GetOr(0) < q.fee.GetOr(0))
    || (score == other && (byFee ==> p.fee.GetOr(0) == q.fee.GetOr(0)) && Less(Norm(p.id), Norm(q.id)))
  }

  /** Recommendations run from higher to lower score in the direction, then from lower to higher fee, then by id. */
  lemma RecommendOrder(pools: seq<Pool>, input: string, output: string, i: nat, j: nat, score: int, other: int)
    requires i < j < |Recommend(pools, input, output)|
    requires HasScore(Recommend(pools, input, output)[i], input, output, score)
    requires HasScore(Recommend(pools, input, output)[j], input, output, other)
    ensures Precedes(Recommend(pools, input, output)[i], score, Recommend(pools, input, output)[j], other, true)
  {
    RecommendBest(pools, input, output);
    RankIsScore(Recommend(pools, input, output)[i], input, output);
    RankIsScore(Recommend(pools, input, output)[j], input, output);
    LessTotal(Id(Recommend(pools, input, output)[i]), Id(Recommend(pools, input, output)[j]));
  }

  /** Observed pools run from higher to lower score in the direction, then by id. */
  lemma ObserveOrder(pools: seq<Pool>, input: string, output: string, i: nat, j: nat, score: int, other: int)
    requires i < j < |Observe(pools, input, output)|
    requires HasScore(Observe(pools, input, output)[i], input, output, score)
    requires HasScore(Observe(pools, input, output)[j], input, output, other)
    ensures Precedes(Observe(pools, input, output)[i], score, Observe(pools, input, output)[j], other, false)
  {
    ObserveBest(pools, input, output);
    RankIsScore(Observe(pools, input, output)[i], input, output);
    RankIsScore(Observe(pools, input, output)[j], input, output);
    LessTotal(Id(Observe(pools, input, output)[i]), Id(Observe(pools, input, output)[j]));
  }

  /** No confirmed pool has a higher score in the direction than the first one selected. */
  lemma HeadHasHighestScore(pools: seq<Pool>, input: string, output: string, q: Pool, score: int)
    requires q in pools && q.confirmed && HasScore(q, input, output, score)
    ensures Recommend(pools, input, output) != []
    ensures exists top :: HasScore(Recommend(pools, input, output)[0], input, output, top) && score <= top
    ensures Norm(q.id) != "" ==>
              && Observe(pools, input, output) != []
              && exists top :: HasScore(Observe(pools, input, output)[0], input, output, top) && score <= top
  {
    FilterMembers(pools);
    FilterMembers(Named(pools));
    RecommendBest(pools, input, output);
    ObserveBest(pools, input, output);
    RankIsScore(q, input, output);
    RankIsScore(Recommend(pools, input, output)[0], input, output);
    HeadUnbeaten(Recommend(pools, input, output), pools, DirectionOrder(input, output, true), MAX_RECOMMENDED, q);
    if Id(q) != "" {
      RankIsScore(Observe(pools, input, output)[0], input, output);
      HeadUnbeaten(Observe(pools, input, output), Named(pools), DirectionOrder(input, output, false), MAX_OBSERVED, q);
    }
  }

  /** The first of the best is beaten by no confirmed pool. */
  lemma HeadUnbeaten(kept: seq<Pool>, s: seq<Pool>, o: Order, cap: nat, q: Pool)
    requires Best(kept, s, o, cap) && kept != [] && q in s && q.confirmed
    ensures !Beats(q, kept[0], o)
  {
    BeforeTotal(o(q), o(kept[0]));
    if Id(q) in Ids(kept) {
      var i :| 0 <= i < |kept| && Id(kept[i]) == Id(q);
      assert kept[i] in kept;
      if i > 0 {
        assert !Beats(kept[i], kept[0], o) && !Beats(q, kept[i], o);
        BeforeTransitive(o(kept[0]), o(kept[i]), o(q));
      }
    } else {
      assert kept[0] in kept;
    }
  }

  // ----- independence of the input order -----

  ghost predicate StrictlySorted(s: seq<Pool>, o: Order) {
    forall i, j :: 0 <= i < j < |s| ==> Beats(s[i], s[j], o)
  }

  lemma DistinctIsStrict(s: seq<Pool>, o: Order)
    requires Identifies(o) && Sorted(s, o) && DistinctIds(s)
    ensures StrictlySorted(s, o)
  {
    forall i, j | 0 <= i < j < |s| ensures Beats(s[i], s[j], o) {
      BeforeTotal(o(s[i]), o(s[j]));
    }
  }

  lemma LastBeatenByAll(s: seq<Pool>, o: Order, p: Pool)
    requires StrictlySorted(s, o) && p in s
    ensures p == s[|s| - 1] || Beats(p, s[|s| - 1], o)
  {
  }

  lemma SameLast(a: seq<Pool>, b: seq<Pool>, o: Order)
    requires StrictlySorted(a, o) && StrictlySorted(b, o) && a != [] && b != []
    requires forall p :: p in a <==> p in b
    ensures a[|a| - 1] == b[|b| - 1]
  {
    var x, y := a[|a| - 1], b[|b| - 1];
    LastBeatenByAll(a, o, y);
    LastBeatenByAll(b, o, x);
    BeforeTotal(o(x), o(y));
  }

  lemma InitMultiset(s: seq<Pool>)
    requires s != []
    ensures multiset(s[..|s| - 1]) == multiset(s) - multiset{s[|s| - 1]}
  {
    assert s == s[..|s| - 1] + [s[|s| - 1]];
  }

  /** One multiset has one strictly sorted arrangement. */
  lemma {:induction false} StrictUnique(a: seq<Pool>, b: seq<Pool>, o: Order)
    requires StrictlySorted(a, o) && StrictlySorted(b, o) && multiset(a) == multiset(b)
    ensures a == b
  {
    SameMembers(a, b);
    if a != [] {
      var m := |a| - 1;
      SameLast(a, b, o);
      InitMultiset(a);
      InitMultiset(b);
      StrictUnique(a[..m], b[..m], o);
      assert a == a[..m] + [a[m]] && b == b[..m] + [b[m]];
    }
  }

  lemma {:induction false} ConfirmedMultiset(s: seq<Pool>, p: Pool)
    ensures multiset(Confirmed(s))[p] == if p.confirmed then multiset(s)[p] else 0
  {
    if s != [] {
      ConfirmedMultiset(s[..|s| - 1], p);
      assert s == s[..|s| - 1] + [s[|s| - 1]];
    }
  }

  lemma DistinctFromMembers(s: seq<Pool>, t: seq<Pool>)
    requires DistinctIds(s) && forall p :: multiset(t)[p] <= multiset(s)[p]
    ensures DistinctIds(t)
  {
    forall i, j | 0 <= i < j < |t| ensures Id(t[i]) != Id(t[j]) {
      if Id(t[i]) == Id(t[j]) {
        assert t[i] in multiset(t) && t[j] in multiset(t);
        assert t[i] in multiset(s) && t[j] in multiset(s);
        var k :| 0 <= k < |s| && s[k] == t[i];
        var l :| 0 <= l < |s| && s[l] == t[j];
        assert t[i] == t[j];
        TwiceInMultiset(t, i, j);
        DistinctOnce(s, t[i]);
      }
    }
  }

  lemma TwiceInMultiset(t: seq<Pool>, i: nat, j: nat)
    requires i < j < |t| && t[i] == t[j]
    ensures multiset(t)[t[i]] >= 2
  {
    assert t == t[..i] + [t[i]] + t[i + 1..j] + [t[j]] + t[j + 1..];
  }

  lemma LastIsNew(s: seq<Pool>)
    requires s != [] && DistinctIds(s)
    ensures s[|s| - 1] !in s[..|s| - 1]
  {
  }

  lemma {:induction false} DistinctOnce(s: seq<Pool>, p: Pool)
    requires DistinctIds(s)
    ensures multiset(s)[p] <= 1
  {
    if s != [] {
      var init, last := s[..|s| - 1], s[|s| - 1];
      DistinctOnce(init, p);
      LastIsNew(s);
      assert s == init + [last];
      assert multiset(s) == multiset(init) + multiset{last};
      assert last !in multiset(init);
    }
  }

  /** With unique ids, the recommendations do not depend on the order of the pools. */
  lemma RecommendAnyOrder(a: seq<Pool>, b: seq<Pool>, input: string, output: string)
    requires DistinctIds(a) && multiset(a) == multiset(b)
    ensures Recommend(a, input, output) == Recommend(b, input, output)
  {
    var o := DirectionOrder(input, output, true);
    var x, y := Sort(Confirmed(a), o), Sort(Confirmed(b), o);
    SortSorts(Confirmed(a), o);
    SortSorts(Confirmed(b), o);
    forall p: Pool | true ensures multiset(x)[p] == multiset(y)[p] <= multiset(a)[p] {
      ConfirmedMultiset(a, p);
      ConfirmedMultiset(b, p);
    }
    assert multiset(x) == multiset(y);
    DistinctFromMembers(a, x);
    DistinctFromMembers(a, y);
    DistinctIsStrict(x, o);
    DistinctIsStrict(y, o);
    StrictUnique(x, y, o);
  }

  // ----- the selecting loops -----

  method SelectRecommendations(pools: seq<Pool>, input: string, output: string) returns (selected: seq<Pool>)
    ensures selected == Recommend(pools, input, output)
  {
    var sorted := Sort(Confirmed(pools), DirectionOrder(input, output, true));
    SortSorts(Confirmed(pools), DirectionOrder(input, output, true));
    SameMembers(sorted, Confirmed(pools));
    FilterMembers(pools);
    selected := TakeFirst(sorted, MAX_RECOMMENDED);
  }

  method ObservationPoolIds(pools: seq<Pool>, input: string, output: string) returns (ids: seq<string>)
    ensures |ids| == |Observe(pools, input, output)|
    ensures forall i :: 0 <= i < |ids| ==> ids[i] == Id(Observe(pools, input, output)[i])
  {
    var scored := Sort(Named(pools), DirectionOrder(input, output, false));
    var selected := TakeFirst(scored, MAX_OBSERVED);
    ids := seq(|selected|, i requires 0 <= i < |selected| => Id(selected[i]));
  }

  /** The loop both selections share: a set of seen ids, stopping once the cap is reached. */
  method TakeFirst(sorted: seq<Pool>, cap: nat) returns (selected: seq<Pool>)
    requires cap > 0
    ensures selected == Take(sorted, cap)
  {
    selected := [];
    var seen: set<string> := {};
    for i := 0 to |sorted|
      invariant selected == Take(sorted[..i], cap) && seen == Ids(selected) && |selected| < cap
    {
      assert sorted[..i + 1][..i] == sorted[..i];
      if !sorted[i].confirmed {
        continue;
      }
      if Id(sorted[i]) !in seen {
        IdsSnoc(selected, sorted[i]);
        seen := seen + {Id(sorted[i])};
        selected := selected + [sorted[i]];
        if |selected| >= cap {
          TakeFull(sorted, i + 1, cap);
          return;
        }
      }
    }
    assert sorted[..|sorted|] == sorted;
  }

  lemma {:induction false} TakeFull(s: seq<Pool>, n: nat, cap: nat)
    requires n <= |s| && |Take(s[..n], cap)| >= cap
    ensures Take(s, cap) == Take(s[..n], cap)
    decreases |s|
  {
    if n < |s| {
      assert s[..|s| - 1][..n] == s[..n];
      TakeFull(s[..|s| - 1], n, cap);
    } else {
      assert s[..n] == s;
    }
  }
}

/** Merging freshly indexed pools into the stored pool list. */
module LiveRefresh {
  import opened Wrappers
  import opened Text

  /** A pool body: the id it gives, the block numbers the merge looks at, and the rest. */
  datatype Pool = Pool(id: string, generated: Option<int>, initialized: Option<int>, body: string)

  datatype Raw = NotObject | Object(pool: Pool)

  datatype Entry = Entry(id: string, pool: Pool)

  function IdsOf(es: seq<Entry>): set<string> {
    set i | 0 <= i < |es| :: es[i].id
  }

  ghost predicate UniqueIds(es: seq<Entry>) {
    forall i, j :: 0 <= i < j < |es| ==> es[i].id != es[j].id
  }

  /** `retain`: the entries whose id is not among these, in order. */
  function Without(es: seq<Entry>, ids: set<string>): seq<Entry> {
    if es == [] then []
    else Without(es[..|es| - 1], ids) + (if es[|es| - 1].id in ids then [] else [es[|es| - 1]])
  }

  /** Stored rows keyed by their lower-case id. */
  function Stored(pools: seq<Pool>): (es: seq<Entry>)
    ensures |es| == |pools|
    ensures forall i :: 0 <= i < |es| ==> es[i] == Entry(Lower(pools[i].id), pools[i])
  {
    seq(|pools|, i requires 0 <= i < |pools| => Entry(Lower(pools[i].id), pools[i]))
  }

  /** The payload's usable entries: objects with a non-empty id. */
  function Accepted(raws: seq<Raw>): seq<Entry> {
    if raws == [] then []
    else
      var init, last := Accepted(raws[..|raws| - 1]), raws[|raws| - 1];
      if last.Object? && last.pool.id != "" then init + [Entry(Lower(last.pool.id), last.pool)] else init
  }

  /** Exactly the payload's objects with a non-empty id are merged, under their id in lower case. */
  lemma {:induction false} AcceptedIff(raws: seq<Raw>, e: Entry)
    ensures e in Accepted(raws) <==>
            Object(e.pool) in raws && e.pool.id != "" && e.id == Lower(e.pool.id)
  {
    if raws != [] {
      AcceptedIff(raws[..|raws| - 1], e);
      assert raws == raws[..|raws| - 1] + [raws[|raws| - 1]];
    }
  }

  /** The payload's order is kept. */
  lemma {:induction false} AcceptedConcat(a: seq<Raw>, b: seq<Raw>)
    ensures Accepted(a + b) == Accepted(a) + Accepted(b)
  {
    if b == [] {
      assert a + b == a;
    } else {
      var m := |b| - 1;
      assert (a + b)[..|a| + m] == a + b[..m];
      AcceptedConcat(a, b[..m]);
    }
  }

  function Put(es: seq<Entry>, e: Entry): seq<Entry> {
    Without(es, {e.id}) + [e]
  }

  function Merge(base: seq<Entry>, es: seq<Entry>): seq<Entry> {
    if es == [] then base else Put(Merge(base, es[..|es| - 1]), es[|es| - 1])
  }

  // ----- closed form -----

  /** Each id's last entry, in the order of those last entries. */
  function Lasts(es: seq<Entry>): seq<Entry> {
    Merge([], es)
  }

  lemma {:induction false} WithoutConcat(a: seq<Entry>, b: seq<Entry>, ids: set<string>)
    ensures Without(a + b, ids) == Without(a, ids) + Without(b, ids)
  {
    if b == [] {
      assert a + b == a;
    } else {
      var m := |b| - 1;
      assert (a + b)[..|a + b| - 1] == a + b[..m];
      WithoutConcat(a, b[..m], ids);
    }
  }

  lemma {:induction false} WithoutTwice(es: seq<Entry>, ids: set<string>, more: set<string>)
    ensures Without(Without(es, ids), more) == Without(es, ids + more)
  {
    if es != [] {
      var m := |es| - 1;
      WithoutTwice(es[..m], ids, more);
      var kept := Without(es[..m], ids);
      if es[m].id in ids {
        assert kept + [] == kept && Without(es[..m], ids + more) + [] == Without(es[..m], ids + more);
      } else {
        WithoutConcat(kept, [es[m]], more);
        assert [es[m]][..0] == [];
      }
    }
  }

  lemma {:induction false} WithoutNone(es: seq<Entry>, ids: set<string>)
    requires forall i :: 0 <= i < |es| ==> es[i].id in ids
    ensures Without(es, ids) == []
  {
    if es != [] {
      WithoutNone(es[..|es| - 1], ids);
    }
  }

  lemma {:induction false} WithoutMembers(es: seq<Entry>, ids: set<string>)
    ensures forall e :: e in Without(es, ids) <==> e in es && e.id !in ids
  {
    if es != [] {
      var m := |es| - 1;
      WithoutMembers(es[..m], ids);
      assert es == es[..m] + [es[m]];
    }
  }

  lemma IdsSnoc(es: seq<Entry>)
    requires es != []
    ensures IdsOf(es) == IdsOf(es[..|es| - 1]) + {es[|es| - 1].id}
  {
  }

  /** A merge keeps the untouched base in order and then shows the last entry of each merged id. */
  lemma {:induction false} MergeClosedForm(base: seq<Entry>, es: seq<Entry>)
    ensures Merge(base, es) == Without(base, IdsOf(es)) + Lasts(es)
  {
    if es == [] {
      WithoutNothing(base);
      assert IdsOf(es) == {} && base + [] == base;
    } else {
      var init, last := es[..|es| - 1], es[|es| - 1];
      MergeClosedForm(base, init);
      IdsSnoc(es);
      WithoutConcat(Without(base, IdsOf(init)), Lasts(init), {last.id});
      WithoutTwice(base, IdsOf(init), {last.id});
    }
  }

  lemma {:induction false} WithoutNothing(es: seq<Entry>)
    ensures Without(es, {}) == es
  {
    if es != [] {
      WithoutNothing(es[..|es| - 1]);
    }
  }

  lemma {:induction false} LastsIds(es: seq<Entry>)
    ensures forall e :: e in Lasts(es) ==> e.id in IdsOf(es)
    ensures UniqueIds(Lasts(es))
  {
    if es != [] {
      var init, last := es[..|es| - 1], es[|es| - 1];
      LastsIds(init);
      IdsSnoc(es);
      WithoutMembers(Lasts(init), {last.id});
      WithoutUnique(Lasts(init), {last.id});
      var kept := Without(Lasts(init), {last.id});
      assert forall i :: 0 <= i < |kept| ==> kept[i] in kept;
    }
  }

  lemma {:induction false} WithoutUnique(es: seq<Entry>, ids: set<string>)
    requires UniqueIds(es)
    ensures UniqueIds(Without(es, ids))
  {
    if es != [] {
      var m := |es| - 1;
      WithoutUnique(es[..m], ids);
      WithoutMembers(es[..m], ids);
      var kept := Without(es[..m], ids);
      forall i | 0 <= i < |kept| ensures kept[i].id != es[m].id {
        assert kept[i] in kept;
        var j :| 0 <= j < m && es[..m][j] == kept[i];
        assert es[j].id == kept[i].id;
      }
    }
  }

  /** Ids are unique after a merge exactly when the untouched base entries have distinct ids. */
  lemma MergeUniqueIff(base: seq<Entry>, es: seq<Entry>)
    ensures UniqueIds(Merge(base, es)) <==> UniqueIds(Without(base, IdsOf(es)))
    ensures UniqueIds(base) ==> UniqueIds(Merge(base, es))
  {
    MergeClosedForm(base, es);
    LastsIds(es);
    WithoutMembers(base, IdsOf(es));
    var a, b := Without(base, IdsOf(es)), Lasts(es);
    assert forall i :: 0 <= i < |a| ==> a[i] in a;
    assert forall i :: 0 <= i < |b| ==> b[i] in b;
    if UniqueIds(a + b) {
      assert forall i :: 0 <= i < |a| ==> (a + b)[i] == a[i];
    }
    if UniqueIds(base) {
      WithoutUnique(base, IdsOf(es));
    }
  }

  // ----- refinement of a map override -----

  /** The pool the list holds for an id: its last entry's. */
  function Lookup(es: seq<Entry>, id: string): Option<Pool> {
    if es == [] then None
    else if es[|es| - 1].id == id then Some(es[|es| - 1].pool)
    else Lookup(es[..|es| - 1], id)
  }

  /** The entry is in the list and none with its id follows it. */
  predicate LastEntry(es: seq<Entry>, e: Entry) {
    exists i :: 0 <= i < |es| && es[i] == e && forall j :: i < j < |es| ==> es[j].id != e.id
  }

  lemma {:induction false} LookupIs(es: seq<Entry>, e: Entry)
    ensures Lookup(es, e.id) == Some(e.pool) <==> LastEntry(es, e)
  {
    if es != [] {
      var m := |es| - 1;
      LookupIs(es[..m], e);
      if es[m].id != e.id && LastEntry(es[..m], e) {
        var i :| 0 <= i < m && es[..m][i] == e && forall j :: i < j < m ==> es[..m][j].id != e.id;
        assert es[i] == e && forall j :: i < j < m ==> es[j].id == es[..m][j].id;
      }
      if es[m].id != e.id && LastEntry(es, e) {
        var i :| 0 <= i < |es| && es[i] == e && forall j :: i < j < |es| ==> es[j].id != e.id;
        assert es[..m][i] == e;
      }
    }
  }

  lemma {:induction false} LookupWithout(es: seq<Entry>, ids: set<string>, id: string)
    ensures Lookup(Without(es, ids), id) == if id in ids then None else Lookup(es, id)
  {
    if es != [] {
      var m := |es| - 1;
      var kept := Without(es[..m], ids);
      LookupWithout(es[..m], ids, id);
      assert (kept + [es[m]])[..|kept|] == kept;
      assert kept + [] == kept;
    }
  }

  lemma {:induction false} LookupMerge(base: seq<Entry>, es: seq<Entry>, id: string)
    ensures Lookup(Merge(base, es), id) == if Lookup(es, id).Some? then Lookup(es, id) else Lookup(base, id)
  {
    if es != [] {
      var init, last := es[..|es| - 1], es[|es| - 1];
      var kept := Without(Merge(base, init), {last.id});
      LookupMerge(base, init, id);
      LookupWithout(Merge(base, init), {last.id}, id);
      assert (kept + [last])[..|kept|] == kept;
    }
  }

  /** A merged list's last entry for an id is the payload's last for it, or the base's when it has none. */
  lemma MergeOverrides(base: seq<Entry>, es: seq<Entry>, e: Entry)
    ensures LastEntry(Merge(base, es), e) <==> LastEntry(es, e) || (e.id !in IdsOf(es) && LastEntry(base, e))
  {
    LookupMerge(base, es, e.id);
    LookupIs(Merge(base, es), e);
    LookupIs(es, e);
    LookupIs(base, e);
    LookupNone(es, e.id);
  }

  lemma {:induction false} LookupNone(es: seq<Entry>, id: string)
    ensures Lookup(es, id).None? <==> id !in IdsOf(es)
  {
    if es != [] {
      LookupNone(es[..|es| - 1], id);
      IdsSnoc(es);
    }
  }

  /** Merging twice is merging the concatenation. */
  lemma {:induction false} MergeConcat(base: seq<Entry>, a: seq<Entry>, b: seq<Entry>)
    ensures Merge(Merge(base, a), b) == Merge(base, a + b)
  {
    if b == [] {
      assert a + b == a;
    } else {
      var m := |b| - 1;
      assert (a + b)[..|a + b| - 1] == a + b[..m];
      MergeConcat(base, a, b[..m]);
    }
  }

  /** Merging the same payload again changes nothing. */
  lemma MergeAgain(base: seq<Entry>, es: seq<Entry>)
    ensures Merge(Merge(base, es), es) == Merge(base, es)
  {
    var ids := IdsOf(es);
    var kept, lasts := Without(base, ids), Lasts(es);
    MergeClosedForm(base, es);
    MergeClosedForm(kept + lasts, es);
    WithoutConcat(kept, lasts, ids);
    WithoutTwice(base, ids, ids);
    assert ids + ids == ids;
    AllLastsMerged(es);
    WithoutNone(lasts, ids);
    assert kept + [] == kept;
  }

  lemma AllLastsMerged(es: seq<Entry>)
    ensures forall i :: 0 <= i < |Lasts(es)| ==> Lasts(es)[i].id in IdsOf(es)
  {
    LastsIds(es);
    assert forall i :: 0 <= i < |Lasts(es)| ==> Lasts(es)[i] in Lasts(es);
  }

  // ----- the merge itself -----

  function Later(a: int, block: Option<int>): int {
    if block.Some? && block.value > a then block.value else a
  }

  function Highest(from: int, es: seq<Entry>): int {
    if es == [] then from
    else
      var pool := es[|es| - 1].pool;
      Later(Later(Highest(from, es[..|es| - 1]), pool.generated), pool.initialized)
  }

  predicate Names(es: seq<Entry>, block: int) {
    exists i :: 0 <= i < |es| && (es[i].pool.generated == Some(block) || es[i].pool.initialized == Some(block))
  }

  /** The highest block is a bound on all block numbers and is itself one of them or the start. */
  lemma {:induction false} HighestIsMaximum(from: int, es: seq<Entry>)
    ensures Highest(from, es) >= from
    ensures forall block :: Names(es, block) ==> block <= Highest(from, es)
    ensures Highest(from, es) == from || Names(es, Highest(from, es))
  {
    if es != [] {
      var m := |es| - 1;
      var init := es[..m];
      HighestIsMaximum(from, init);
      forall block | Names(es, block) ensures block <= Highest(from, es) {
        var i :| 0 <= i < |es| && (es[i].pool.generated == Some(block) || es[i].pool.initialized == Some(block));
        if i < m {
          assert init[i] == es[i];
          assert Names(init, block);
        }
      }
      var top := Highest(from, init);
      if Highest(from, es) == top != from {
        var i :| 0 <= i < |init| && (init[i].pool.generated == Some(top) || init[i].pool.initialized == Some(top));
        assert es[i] == init[i];
      } else if Highest(from, es) != top {
        assert es[m].pool.generated == Some(Highest(from, es)) || es[m].pool.initialized == Some(Highest(from, es));
      }
    }
  }

  method ScanBlocks(es: seq<Entry>, from: int) returns (maxBlock: int)
    ensures maxBlock == Highest(from, es)
  {
    maxBlock := from;
    for i := 0 to |es|
      invariant maxBlock == Highest(from, es[..i])
    {
      assert es[..i + 1][..i] == es[..i];
      maxBlock := Later(Later(maxBlock, es[i].pool.generated), es[i].pool.initialized);
    }
    assert es[..|es|] == es;
  }

  /** What one more accepted entry does to the merge and to the highest block. */
  lemma AcceptedSnoc(base: seq<Entry>, es: seq<Entry>, e: Entry)
    ensures Merge(base, es + [e]) == Without(Merge(base, es), {e.id}) + [e]
    ensures Highest(0, es + [e]) == Later(Later(Highest(0, es), e.pool.generated), e.pool.initialized)
  {
    assert (es + [e])[..|es|] == es;
  }

  method MergePoolIndex(stored: seq<Pool>, raws: seq<Raw>, generated: Option<int>)
    returns (merged: seq<Entry>, block: int)
    ensures merged == Merge(Stored(stored), Accepted(raws))
    ensures block == generated.GetOr(Highest(Highest(0, Accepted(raws)), merged))
  {
    merged := Stored(stored);
    var maxBlock := 0;
    for i := 0 to |raws|
      invariant merged == Merge(Stored(stored), Accepted(raws[..i]))
      invariant maxBlock == Highest(0, Accepted(raws[..i]))
    {
      assert raws[..i + 1][..i] == raws[..i];
      if raws[i].NotObject? {
        continue;
      }
      var pool := raws[i].pool;
      var id := Lower(pool.id);
      if id == "" {
        continue;
      }
      merged := Without(merged, {id});
      merged := merged + [Entry(id, pool)];
      maxBlock := Later(Later(maxBlock, pool.generated), pool.initialized);
      AcceptedSnoc(Stored(stored), Accepted(raws[..i]), Entry(id, pool));
    }
    assert raws[..|raws|] == raws;
    maxBlock := ScanBlocks(merged, maxBlock);
    block := generated.GetOr(maxBlock);
  }
}

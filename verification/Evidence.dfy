/**
 The evidence store: pools, their liquidity snapshots, the upsert that decides which liquidity
 evidence may overwrite which, and the prune that keeps the two tables consistent.
 */
module Evidence {
  import opened Scopes
  import opened Text
  import opened Wrappers

  /** Primary key of both tables. */
  datatype Key = Key(scope: Scope, poolId: string)

  datatype Pool = Pool(token0: string, token1: string, fee: Option<int>, tickSpacing: Option<int>, hooks: string)

  /** A pool payload row after field selection; absent texts are empty. */
  datatype PoolRow = PoolRow(poolId: string, pool: Pool)

  /** The columns of a stored snapshot. */
  datatype Snapshot = Snapshot(
    hasLiquidity: Option<bool>,
    liquidity: string,
    index: Option<real>,
    tvl: Option<real>,
    balances: string,
    depthStatus: string,
    depthBand: string,
    depthScore: Option<real>,
    sqrtPrice: string,
    price: Option<real>,
    tick: Option<int>,
    readAt: Option<string>,
    block: Option<int>,
    swapActive: Option<bool>,
    observedAt: string,
    refreshedAt: string,
    source: Option<string>)

  /** A snapshot payload row after field selection: the raw pool id, raw source text and columns. */
  datatype SnapshotRow = SnapshotRow(poolId: string, source: string, columns: Snapshot)

  // ----- the upsert's CASE and COALESCE columns -----

  function Coalesce<T>(given: Option<T>, stored: Option<T>): Option<T> {
    if given.Some? then given else stored
  }

  function NonEmpty(given: string, stored: string): string {
    if given == "" then stored else given
  }

  /** Evidence with a source or a block number. */
  predicate Strong(s: Snapshot) {
    (s.source.Some? && s.source.value != "") || s.block.Some?
  }

  /** A row that may not replace liquidity evidence which is already known. */
  predicate Blocked(stored: Snapshot, given: Snapshot) {
    !Strong(given) && stored.hasLiquidity.Some?
  }

  function Overwrite(stored: Snapshot, given: Snapshot): Snapshot {
    var blocked := Blocked(stored, given);
    Snapshot(
      if given.hasLiquidity.None? || blocked then stored.hasLiquidity else given.hasLiquidity,
      if given.liquidity == "" || blocked then stored.liquidity else given.liquidity,
      if blocked then stored.index else Coalesce(given.index, stored.index),
      if blocked then stored.tvl else Coalesce(given.tvl, stored.tvl),
      given.balances,
      NonEmpty(given.depthStatus, stored.depthStatus),
      given.depthBand,
      Coalesce(given.depthScore, stored.depthScore),
      NonEmpty(given.sqrtPrice, stored.sqrtPrice),
      Coalesce(given.price, stored.price),
      Coalesce(given.tick, stored.tick),
      Coalesce(given.readAt, stored.readAt),
      Coalesce(given.block, stored.block),
      Coalesce(given.swapActive, stored.swapActive),
      given.observedAt,
      given.refreshedAt,
      Coalesce(given.source, stored.source))
  }

  function Upsert(stored: Option<Snapshot>, given: Snapshot): Snapshot {
    match stored
    case None => given
    case Some(s) => Overwrite(s, given)
  }

  /** A pool's row after a history of upserts. */
  function Replay(stored: Option<Snapshot>, history: seq<Snapshot>): Option<Snapshot> {
    if history == [] then stored
    else Some(Upsert(Replay(stored, history[..|history| - 1]), history[|history| - 1]))
  }

  // ----- closed forms over whole histories -----

  function LastKnown<T>(values: seq<Option<T>>): Option<T> {
    if values == [] then None
    else Coalesce(values[|values| - 1], LastKnown(values[..|values| - 1]))
  }

  function FirstKnown<T>(values: seq<Option<T>>): Option<T> {
    if values == [] then None
    else Coalesce(values[0], FirstKnown(values[1..]))
  }

  function Column<T>(history: seq<Snapshot>, column: Snapshot -> Option<T>): (values: seq<Option<T>>)
    ensures |values| == |history|
    ensures forall i :: 0 <= i < |history| ==> values[i] == column(history[i])
  {
    seq(|history|, i requires 0 <= i < |history| => column(history[i]))
  }

  function Given(s: string): Option<string> {
    if s == "" then None else Some(s)
  }

  /** The i-th row could write liquidity evidence: it is strong, or nothing was known before it. */
  predicate Admitted(history: seq<Snapshot>, i: nat)
    requires i < |history|
  {
    Strong(history[i]) || forall j :: 0 <= j < i ==> history[j].hasLiquidity.None?
  }

  /** A column with the values of rows that could not write it blanked out. */
  function AdmittedColumn<T>(history: seq<Snapshot>, column: Snapshot -> Option<T>): (values: seq<Option<T>>)
    ensures |values| == |history|
    ensures forall i :: 0 <= i < |history| ==>
              values[i] == if Admitted(history, i) then column(history[i]) else None
  {
    seq(|history|, i requires 0 <= i < |history| =>
      if Admitted(history, i) then column(history[i]) else None)
  }

  const HAS := (s: Snapshot) => s.hasLiquidity
  const STRONG_HAS := (s: Snapshot) => if Strong(s) then s.hasLiquidity else None

  lemma LastKnownSnoc<T>(values: seq<Option<T>>, last: Option<T>)
    ensures LastKnown(values + [last]) == Coalesce(last, LastKnown(values))
  {
  }

  lemma {:induction false} FirstKnownSnoc<T>(values: seq<Option<T>>, last: Option<T>)
    ensures FirstKnown(values + [last]) == Coalesce(FirstKnown(values), last)
  {
    if values == [] {
      assert ([] + [last])[1..] == [];
    } else {
      assert (values + [last])[1..] == values[1..] + [last];
      FirstKnownSnoc(values[1..], last);
    }
  }

  lemma {:induction false} FirstKnownNone<T>(values: seq<Option<T>>)
    ensures FirstKnown(values).None? <==> forall i :: 0 <= i < |values| ==> values[i].None?
  {
    if values != [] {
      FirstKnownNone(values[1..]);
      if FirstKnown(values).None? {
        forall i | 0 <= i < |values| ensures values[i].None? {
          if i > 0 {
            assert values[i] == values[1..][i - 1];
          }
        }
      }
    }
  }

  lemma ColumnSnoc<T>(history: seq<Snapshot>, last: Snapshot, column: Snapshot -> Option<T>)
    ensures Column(history + [last], column) == Column(history, column) + [column(last)]
    ensures AdmittedColumn(history + [last], column) ==
            AdmittedColumn(history, column) +
            [if Admitted(history + [last], |history|) then column(last) else None]
  {
    var all := history + [last];
    assert forall j :: 0 <= j < |history| ==> all[j] == history[j];
  }

  /**
   Liquidity evidence after any history from an empty row: the last known value from a row with a
   source or a block number if one exists, else the first known value, else unknown.
   */
  lemma {:induction false} HasLiquidityClosedForm(history: seq<Snapshot>)
    requires history != []
    ensures Replay(None, history).Some?
    ensures Replay(None, history).value.hasLiquidity ==
            Coalesce(LastKnown(Column(history, STRONG_HAS)), FirstKnown(Column(history, HAS)))
  {
    var m := |history| - 1;
    var init, last := history[..m], history[m];
    assert history == init + [last];
    ColumnSnoc(init, last, HAS);
    ColumnSnoc(init, last, STRONG_HAS);
    LastKnownSnoc(Column(init, STRONG_HAS), STRONG_HAS(last));
    FirstKnownSnoc(Column(init, HAS), HAS(last));
    if init != [] {
      HasLiquidityClosedForm(init);
      StrongIsKnown(init);
    }
  }

  lemma {:induction false} StrongIsKnown(history: seq<Snapshot>)
    ensures LastKnown(Column(history, STRONG_HAS)).Some? ==> FirstKnown(Column(history, HAS)).Some?
  {
    if history != [] {
      var m := |history| - 1;
      assert history == history[..m] + [history[m]];
      ColumnSnoc(history[..m], history[m], HAS);
      ColumnSnoc(history[..m], history[m], STRONG_HAS);
      LastKnownSnoc(Column(history[..m], STRONG_HAS), STRONG_HAS(history[m]));
      FirstKnownSnoc(Column(history[..m], HAS), HAS(history[m]));
      StrongIsKnown(history[..m]);
    }
  }

  /** The row gives no source and no block number. */
  predicate Unattributed(s: Snapshot) {
    (s.source == None || s.source == Some("")) && s.block == None
  }

  lemma {:induction false} LastKnownAt<T>(values: seq<Option<T>>, i: nat)
    requires i < |values| && values[i].Some? && forall j :: i < j < |values| ==> values[j].None?
    ensures LastKnown(values) == values[i]
  {
    if i < |values| - 1 {
      LastKnownAt(values[..|values| - 1], i);
    }
  }

  lemma {:induction false} FirstKnownAt<T>(values: seq<Option<T>>, i: nat)
    requires i < |values| && values[i].Some? && forall j :: 0 <= j < i ==> values[j].None?
    ensures FirstKnown(values) == values[i]
  {
    if i > 0 {
      assert values[1..][i - 1] == values[i];
      FirstKnownAt(values[1..], i - 1);
    }
  }

  lemma {:induction false} LastKnownNone<T>(values: seq<Option<T>>)
    requires forall j :: 0 <= j < |values| ==> values[j].None?
    ensures LastKnown(values).None?
  {
    if values != [] {
      LastKnownNone(values[..|values| - 1]);
    }
  }

  /** A known value with a source or block stands until the next one that has either. */
  lemma {:induction false} LastAttributedDecides(history: seq<Snapshot>, i: nat)
    requires i < |history| && history[i].hasLiquidity.Some? && !Unattributed(history[i])
    requires forall j :: i < j < |history| ==> history[j].hasLiquidity.None? || Unattributed(history[j])
    ensures Replay(None, history).Some? && Replay(None, history).value.hasLiquidity == history[i].hasLiquidity
  {
    HasLiquidityClosedForm(history);
    LastKnownAt(Column(history, STRONG_HAS), i);
  }

  /** Without any of those, the first known value stands. */
  lemma {:induction false} FirstUnattributedDecides(history: seq<Snapshot>, i: nat)
    requires i < |history| && history[i].hasLiquidity.Some?
    requires forall j :: 0 <= j < i ==> history[j].hasLiquidity.None?
    requires forall j :: 0 <= j < |history| ==> history[j].hasLiquidity.None? || Unattributed(history[j])
    ensures Replay(None, history).Some? && Replay(None, history).value.hasLiquidity == history[i].hasLiquidity
  {
    HasLiquidityClosedForm(history);
    LastKnownNone(Column(history, STRONG_HAS));
    FirstKnownAt(Column(history, HAS), i);
  }

  /** A non-empty text stays while only empty ones follow it. */
  lemma {:induction false} LastTextStands(history: seq<Snapshot>, i: nat)
    requires i < |history|
    ensures Replay(None, history).Some?
    ensures var s := Replay(None, history).value;
            && (history[i].depthStatus != "" && (forall j :: i < j < |history| ==> history[j].depthStatus == "") ==>
                  s.depthStatus == history[i].depthStatus)
            && (history[i].sqrtPrice != "" && (forall j :: i < j < |history| ==> history[j].sqrtPrice == "") ==>
                  s.sqrtPrice == history[i].sqrtPrice)
  {
    var m := |history| - 1;
    if i < m {
      var init := history[..m];
      assert forall j :: 0 <= j < m ==> init[j] == history[j];
      LastTextStands(init, i);
    }
  }

  lemma {:induction false} KnownIffSome(history: seq<Snapshot>)
    requires history != []
    ensures Replay(None, history).Some?
    ensures Replay(None, history).value.hasLiquidity.None? <==>
            forall i :: 0 <= i < |history| ==> history[i].hasLiquidity.None?
  {
    HasLiquidityClosedForm(history);
    StrongIsKnown(history);
    FirstKnownNone(Column(history, HAS));
  }

  /** The last row is blocked exactly when it is not admitted. */
  lemma BlockedIsNotAdmitted(init: seq<Snapshot>, last: Snapshot)
    requires init != []
    ensures Replay(None, init).Some?
    ensures Blocked(Replay(None, init).value, last) <==> !Admitted(init + [last], |init|)
  {
    KnownIffSome(init);
    var all := init + [last];
    assert forall j :: 0 <= j < |init| ==> all[j] == init[j];
  }

  /**
   The guarded columns: liquidity, index and TVL are the last given value among the rows that were
   strong or came before anything was known.
   */
  lemma {:induction false} GuardedClosedForm(history: seq<Snapshot>)
    requires history != []
    ensures Replay(None, history).Some?
    ensures var s := Replay(None, history).value;
            && Given(s.liquidity) == LastKnown(AdmittedColumn(history, (r: Snapshot) => Given(r.liquidity)))
            && s.index == LastKnown(AdmittedColumn(history, (r: Snapshot) => r.index))
            && s.tvl == LastKnown(AdmittedColumn(history, (r: Snapshot) => r.tvl))
  {
    var m := |history| - 1;
    var init, last := history[..m], history[m];
    assert history == init + [last];
    GuardedSnoc(init, last, (r: Snapshot) => Given(r.liquidity));
    GuardedSnoc(init, last, (r: Snapshot) => r.index);
    GuardedSnoc(init, last, (r: Snapshot) => r.tvl);
    if init != [] {
      GuardedClosedForm(init);
    }
  }

  lemma GuardedSnoc<T>(init: seq<Snapshot>, last: Snapshot, column: Snapshot -> Option<T>)
    ensures init == [] ==> LastKnown(AdmittedColumn(init + [last], column)) == column(last)
    ensures init != [] ==>
              && Replay(None, init).Some?
              && LastKnown(AdmittedColumn(init + [last], column)) ==
                 (if Blocked(Replay(None, init).value, last)
                  then LastKnown(AdmittedColumn(init, column))
                  else Coalesce(column(last), LastKnown(AdmittedColumn(init, column))))
  {
    var given := if Admitted(init + [last], |init|) then column(last) else None;
    ColumnSnoc(init, last, column);
    LastKnownSnoc(AdmittedColumn(init, column), given);
    if init != [] {
      BlockedIsNotAdmitted(init, last);
    }
  }

  lemma PlainSnoc<T>(init: seq<Snapshot>, last: Snapshot, column: Snapshot -> Option<T>)
    ensures LastKnown(Column(init + [last], column)) == Coalesce(column(last), LastKnown(Column(init, column)))
  {
    ColumnSnoc(init, last, column);
    LastKnownSnoc(Column(init, column), column(last));
  }

  /** The other columns keep their last given value; balances and depth band follow the last row. */
  lemma {:induction false} PlainClosedForm(history: seq<Snapshot>)
    requires history != []
    ensures Replay(None, history).Some?
    ensures var s, last := Replay(None, history).value, history[|history| - 1];
            && Given(s.depthStatus) == LastKnown(Column(history, (r: Snapshot) => Given(r.depthStatus)))
            && Given(s.sqrtPrice) == LastKnown(Column(history, (r: Snapshot) => Given(r.sqrtPrice)))
            && s.price == LastKnown(Column(history, (r: Snapshot) => r.price))
            && s.tick == LastKnown(Column(history, (r: Snapshot) => r.tick))
            && s.block == LastKnown(Column(history, (r: Snapshot) => r.block))
            && s.source == LastKnown(Column(history, (r: Snapshot) => r.source))
            && s.swapActive == LastKnown(Column(history, (r: Snapshot) => r.swapActive))
            && s.balances == last.balances && s.depthBand == last.depthBand
  {
    var m := |history| - 1;
    var init, last := history[..m], history[m];
    assert history == init + [last];
    PlainSnoc(init, last, (r: Snapshot) => Given(r.depthStatus));
    PlainSnoc(init, last, (r: Snapshot) => Given(r.sqrtPrice));
    PlainSnoc(init, last, (r: Snapshot) => r.price);
    PlainSnoc(init, last, (r: Snapshot) => r.tick);
    PlainSnoc(init, last, (r: Snapshot) => r.block);
    PlainSnoc(init, last, (r: Snapshot) => r.source);
    PlainSnoc(init, last, (r: Snapshot) => r.swapActive);
    if init != [] {
      PlainClosedForm(init);
    }
  }

  /** Depth score and reading time keep their last given value; the two observation times follow the last row. */
  lemma {:induction false} TimesClosedForm(history: seq<Snapshot>)
    requires history != []
    ensures Replay(None, history).Some?
    ensures var s, last := Replay(None, history).value, history[|history| - 1];
            && s.depthScore == LastKnown(Column(history, (r: Snapshot) => r.depthScore))
            && s.readAt == LastKnown(Column(history, (r: Snapshot) => r.readAt))
            && s.observedAt == last.observedAt && s.refreshedAt == last.refreshedAt
  {
    var m := |history| - 1;
    var init, last := history[..m], history[m];
    assert history == init + [last];
    PlainSnoc(init, last, (r: Snapshot) => r.depthScore);
    PlainSnoc(init, last, (r: Snapshot) => r.readAt);
    if init != [] {
      TimesClosedForm(init);
    }
  }

  /** Once liquidity is known, a row without source and block changes none of the guarded columns. */
  lemma WeakNeverOverrides(stored: Snapshot, given: Snapshot)
    requires stored.hasLiquidity.Some? && Unattributed(given)
    ensures var s := Overwrite(stored, given);
            && s.hasLiquidity == stored.hasLiquidity && s.liquidity == stored.liquidity
            && s.index == stored.index && s.tvl == stored.tvl
  {
  }

  // ----- the tables -----

  type Snapshots = map<Key, Snapshot>
  type Pools = map<Key, Pool>

  /** The stored form of a payload row: an empty source becomes NULL. */
  function Params(row: SnapshotRow): Snapshot {
    row.columns.(source := Given(Norm(row.source)))
  }

  function Lookup<V>(table: map<Key, V>, key: Key): Option<V> {
    if key in table then Some(table[key]) else None
  }

  function PutSnapshot(table: Snapshots, scope: Scope, row: SnapshotRow): Snapshots {
    var key := Key(scope, Norm(row.poolId));
    if key.poolId == "" then table else table[key := Upsert(Lookup(table, key), Params(row))]
  }

  /** Rows without a pool id are skipped. */
  function PutSnapshots(table: Snapshots, scope: Scope, rows: seq<SnapshotRow>): Snapshots {
    if rows == [] then table
    else PutSnapshot(PutSnapshots(table, scope, rows[..|rows| - 1]), scope, rows[|rows| - 1])
  }

  /** A named row's source is stored in normal form, and an empty one leaves the stored source as it was. */
  lemma SourceStored(table: Snapshots, scope: Scope, row: SnapshotRow)
    requires Norm(row.poolId) != ""
    ensures var key := Key(scope, Norm(row.poolId));
            && key in PutSnapshot(table, scope, row)
            && PutSnapshot(table, scope, row)[key].source ==
               (if Norm(row.source) != "" then Some(Norm(row.source))
                else if key in table then table[key].source else None)
  {
  }

  /** The part of a payload that concerns one pool. */
  function History(rows: seq<SnapshotRow>, poolId: string): seq<Snapshot> {
    if rows == [] then []
    else
      var row := rows[|rows| - 1];
      History(rows[..|rows| - 1], poolId) + (if Norm(row.poolId) == poolId then [Params(row)] else [])
  }

  /** Upserting a payload replays, for each pool of the scope, that pool's own rows and no others. */
  lemma {:induction false} PutSnapshotsReplays(table: Snapshots, scope: Scope, rows: seq<SnapshotRow>, key: Key)
    requires key.poolId != ""
    ensures Lookup(PutSnapshots(table, scope, rows), key) ==
            if key.scope == scope then Replay(Lookup(table, key), History(rows, key.poolId)) else Lookup(table, key)
  {
    if rows != [] {
      var m := |rows| - 1;
      var earlier := History(rows[..m], key.poolId);
      PutSnapshotsReplays(table, scope, rows[..m], key);
      assert earlier + [] == earlier;
      assert (earlier + [Params(rows[m])])[..|earlier|] == earlier;
    }
  }

  /** A pool row counts when its id and both tokens are present. */
  predicate Usable(row: PoolRow) {
    Norm(row.poolId) != "" && Norm(row.pool.token0) != "" && Norm(row.pool.token1) != ""
  }

  function PoolParams(row: PoolRow): Pool {
    row.pool.(token0 := Norm(row.pool.token0), token1 := Norm(row.pool.token1), hooks := Norm(row.pool.hooks))
  }

  function PutPools(table: Pools, scope: Scope, rows: seq<PoolRow>): Pools {
    if rows == [] then table
    else
      var before, row := PutPools(table, scope, rows[..|rows| - 1]), rows[|rows| - 1];
      if Usable(row) then before[Key(scope, Norm(row.poolId)) := PoolParams(row)] else before
  }

  function UsableRows(rows: seq<PoolRow>): nat {
    if rows == [] then 0 else UsableRows(rows[..|rows| - 1]) + (if Usable(rows[|rows| - 1]) then 1 else 0)
  }

  function NamedRows(rows: seq<SnapshotRow>): nat {
    if rows == [] then 0
    else NamedRows(rows[..|rows| - 1]) + (if Norm(rows[|rows| - 1].poolId) == "" then 0 else 1)
  }

  /** The row's id and both tokens are more than blanks. */
  predicate Complete(row: PoolRow) {
    !Blank(row.poolId) && !Blank(row.pool.token0) && !Blank(row.pool.token1)
  }

  lemma UsableIsComplete(row: PoolRow)
    ensures Usable(row) <==> Complete(row)
  {
    NormBlank(row.poolId);
    NormBlank(row.pool.token0);
    NormBlank(row.pool.token1);
  }

  /** The last complete row of an id is stored, its texts in normal form and each in its own column. */
  lemma {:induction false} LastRowStored(table: Pools, scope: Scope, rows: seq<PoolRow>, i: nat)
    requires i < |rows| && Complete(rows[i])
    requires forall j :: i < j < |rows| && Norm(rows[j].poolId) == Norm(rows[i].poolId) ==> !Complete(rows[j])
    ensures var key, given := Key(scope, Norm(rows[i].poolId)), rows[i].pool;
            && key in PutPools(table, scope, rows)
            && var p := PutPools(table, scope, rows)[key];
               && p.token0 == Norm(given.token0) && p.token1 == Norm(given.token1) && p.hooks == Norm(given.hooks)
               && p.fee == given.fee && p.tickSpacing == given.tickSpacing
  {
    var m := |rows| - 1;
    UsableIsComplete(rows[m]);
    if i < m {
      LastRowStored(table, scope, rows[..m], i);
    }
  }

  /** Pools that no complete row of the scope names are untouched. */
  lemma {:induction false} OtherPoolsKept(table: Pools, scope: Scope, rows: seq<PoolRow>, key: Key)
    requires key.scope == scope ==>
               forall j :: 0 <= j < |rows| && Norm(rows[j].poolId) == key.poolId ==> !Complete(rows[j])
    ensures Lookup(PutPools(table, scope, rows), key) == Lookup(table, key)
  {
    if rows != [] {
      var m := |rows| - 1;
      UsableIsComplete(rows[m]);
      OtherPoolsKept(table, scope, rows[..m], key);
    }
  }

  function Matching<T>(items: seq<T>, good: T -> bool): set<int> {
    set i | 0 <= i < |items| && good(items[i])
  }

  lemma MatchingSnoc<T>(items: seq<T>, good: T -> bool)
    requires items != []
    ensures var m := |items| - 1;
            |Matching(items, good)| == |Matching(items[..m], good)| + if good(items[m]) then 1 else 0
  {
    var m := |items| - 1;
    assert Matching(items, good) == Matching(items[..m], good) + if good(items[m]) then {m} else {};
  }

  /** The number of pools reported is that of the complete rows. */
  lemma {:induction false} PoolsCounted(rows: seq<PoolRow>)
    ensures UsableRows(rows) == |Matching(rows, Complete)|
  {
    if rows != [] {
      PoolsCounted(rows[..|rows| - 1]);
      UsableIsComplete(rows[|rows| - 1]);
      MatchingSnoc(rows, Complete);
    }
  }

  /** The number of snapshots reported is that of the rows whose id is more than blanks. */
  lemma {:induction false} SnapshotsCounted(rows: seq<SnapshotRow>)
    ensures NamedRows(rows) == |Matching(rows, (row: SnapshotRow) => !Blank(row.poolId))|
  {
    if rows != [] {
      var m := |rows| - 1;
      SnapshotsCounted(rows[..m]);
      NormBlank(rows[m].poolId);
      MatchingSnoc(rows, (row: SnapshotRow) => !Blank(row.poolId));
    }
  }

  predicate NormalKey(key: Key) {
    key.poolId != "" && IsNorm(key.poolId)
  }

  /** Every stored pool id is non-empty and already normalized. */
  ghost predicate NormalKeys<V>(table: map<Key, V>) {
    forall key :: key in table ==> NormalKey(key)
  }

  lemma {:induction false} PutKeepsNormal(snapshots: Snapshots, pools: Pools, scope: Scope,
                                          rows: seq<SnapshotRow>, poolRows: seq<PoolRow>)
    requires NormalKeys(snapshots) && NormalKeys(pools)
    ensures NormalKeys(PutSnapshots(snapshots, scope, rows)) && NormalKeys(PutPools(pools, scope, poolRows))
    decreases |rows| + |poolRows|
  {
    if rows != [] {
      PutKeepsNormal(snapshots, pools, scope, rows[..|rows| - 1], poolRows);
      NormIdempotent(rows[|rows| - 1].poolId);
    } else if poolRows != [] {
      PutKeepsNormal(snapshots, pools, scope, rows, poolRows[..|poolRows| - 1]);
      NormIdempotent(poolRows[|poolRows| - 1].poolId);
    }
  }

  /** Both tokens are present and normalized, as every import leaves them. */
  predicate NormalTokens(p: Pool) {
    p.token0 != "" && IsNorm(p.token0) && p.token1 != "" && IsNorm(p.token1)
  }

  /** Both tokens are colon-free and in ascending order, which an import takes from its payload. */
  predicate CanonicalTokens(p: Pool) {
    NoColon(p.token0) && NoColon(p.token1) && Less(p.token0, p.token1)
  }

  ghost predicate AllPools(pools: Pools, form: Pool -> bool) {
    forall key :: key in pools ==> form(pools[key])
  }

  /**
   An import keeps every stored pool's tokens present and normalized. It neither sorts them nor looks
   for colons: they are stored so when the usable payload rows have them so.
   */
  lemma {:induction false} ImportedForm(pools: Pools, scope: Scope, rows: seq<PoolRow>)
    ensures AllPools(pools, NormalTokens) ==> AllPools(PutPools(pools, scope, rows), NormalTokens)
    ensures && AllPools(pools, CanonicalTokens)
            && (forall i :: 0 <= i < |rows| && Usable(rows[i]) ==> CanonicalTokens(PoolParams(rows[i]))) ==>
              AllPools(PutPools(pools, scope, rows), CanonicalTokens)
  {
    if rows != [] {
      var row := rows[|rows| - 1];
      ImportedForm(pools, scope, rows[..|rows| - 1]);
      NormIdempotent(row.pool.token0);
      NormIdempotent(row.pool.token1);
    }
  }

  /** A payload with descending tokens is stored that way. */
  lemma DescendingWitness(scope: Scope)
    ensures var row := PoolRow("p", Pool("b", "a", None, None, ""));
            !AllPools(PutPools(map[], scope, [row]), CanonicalTokens)
  {
    var row := PoolRow("p", Pool("b", "a", None, None, ""));
    var rows := [row];
    assert TrimStart("p") == "p" && TrimStart("b") == "b" && TrimStart("a") == "a";
    assert TrimEnd("p") == "p" && TrimEnd("b") == "b" && TrimEnd("a") == "a";
    assert Norm("p") == "p" && Norm("b") == "b" && Norm("a") == "a";
    assert rows[..0] == [];
    var key := Key(scope, "p");
    assert key in PutPools(map[], scope, rows) && PutPools(map[], scope, rows)[key].token0 == "b";
  }

  // ----- pruning -----

  /** The snapshots a prune deletes: known zero, and unknown ones when asked. */
  function DeadSnapshots(snapshots: Snapshots, scope: Scope, deleteUnknown: bool): set<Key> {
    set key | key in snapshots && key.scope == scope &&
              (snapshots[key].hasLiquidity == Some(false) || (deleteUnknown && snapshots[key].hasLiquidity.None?))
  }

  /** Pools of the scope that have no snapshot at all. */
  function Orphans(pools: Pools, snapshots: Snapshots, scope: Scope): set<Key> {
    set key | key in pools && key.scope == scope && Norm(key.poolId) !in IdsIn(snapshots, scope)
  }

  function IdsIn(snapshots: Snapshots, scope: Scope): set<string> {
    set key | key in snapshots && key.scope == scope :: Norm(key.poolId)
  }

  function IdsOf(keys: set<Key>): set<string> {
    set key | key in keys && Norm(key.poolId) != "" :: Norm(key.poolId)
  }

  function ZeroSnapshots(snapshots: Snapshots, scope: Scope): set<Key> {
    DeadSnapshots(snapshots, scope, false)
  }

  function Removable(pools: Pools, snapshots: Snapshots, scope: Scope, deleteUnknown: bool): set<string> {
    IdsOf(DeadSnapshots(snapshots, scope, deleteUnknown)) +
    (if deleteUnknown
     then IdsOf(Orphans(pools, snapshots - ZeroSnapshots(snapshots, scope), scope))
     else {})
  }

  function DeadPools(pools: Pools, snapshots: Snapshots, scope: Scope, deleteUnknown: bool): set<Key> {
    PoolsWithIds(pools, scope, Removable(pools, snapshots, scope, deleteUnknown))
  }

  function PoolsWithIds(pools: Pools, scope: Scope, ids: set<string>): set<Key> {
    set key | key in pools && key.scope == scope && key.poolId in ids
  }

  function PruneSnapshots(snapshots: Snapshots, scope: Scope, deleteUnknown: bool): Snapshots {
    snapshots - DeadSnapshots(snapshots, scope, deleteUnknown)
  }

  function PrunePools(pools: Pools, snapshots: Snapshots, scope: Scope, deleteUnknown: bool): Pools {
    pools - DeadPools(pools, snapshots, scope, deleteUnknown)
  }

  /**
   With normalized ids, a full prune leaves exactly the snapshots known to be non-zero, and
   exactly the pools that have such a snapshot; other scopes keep everything.
   */
  lemma PruneLeavesConfirmed(pools: Pools, snapshots: Snapshots, scope: Scope, key: Key)
    requires NormalKeys(pools) && NormalKeys(snapshots)
    ensures key in PruneSnapshots(snapshots, scope, true) <==>
            key in snapshots && (key.scope == scope ==> snapshots[key].hasLiquidity == Some(true))
    ensures key in PrunePools(pools, snapshots, scope, true) <==>
            key in pools && (key.scope == scope ==> key in PruneSnapshots(snapshots, scope, true))
  {
    if key in snapshots {
      var has := snapshots[key].hasLiquidity;
      if has.Some? {
        assert if has.value then has == Some(true) else has == Some(false);
      }
    }
    if key in pools && key.scope == scope {
      RemovableIff(pools, snapshots, scope, true, key);
    }
  }

  /** When a stored pool's id is removable, for normalized ids. */
  lemma RemovableIff(pools: Pools, snapshots: Snapshots, scope: Scope, deleteUnknown: bool, key: Key)
    requires NormalKeys(pools) && NormalKeys(snapshots)
    requires key in pools && key.scope == scope
    ensures key.poolId in Removable(pools, snapshots, scope, deleteUnknown) <==>
            key in DeadSnapshots(snapshots, scope, deleteUnknown) || (deleteUnknown && key !in snapshots)
  {
  }

  /**
   What a prune keeps, with either flag. Of a scope's snapshots the known zeros go, and with the flag
   the unknown ones; of its pools those with a known zero go, and with the flag all that are not
   known to be non-zero. What stays is unchanged, and other scopes keep everything.
   */
  lemma PruneKeeps(pools: Pools, snapshots: Snapshots, scope: Scope, deleteUnknown: bool, key: Key)
    requires NormalKeys(pools) && NormalKeys(snapshots)
    ensures var has := if key in snapshots then snapshots[key].hasLiquidity else None;
            && Lookup(PruneSnapshots(snapshots, scope, deleteUnknown), key) ==
               (if key.scope != scope || has == Some(true) || (has == None && !deleteUnknown)
                then Lookup(snapshots, key) else None)
            && Lookup(PrunePools(pools, snapshots, scope, deleteUnknown), key) ==
               (if key.scope != scope || has == Some(true) || (has == None && !deleteUnknown)
                then Lookup(pools, key) else None)
  {
    if key in pools && key.scope == scope {
      RemovableIff(pools, snapshots, scope, deleteUnknown, key);
    }
    if key in snapshots && snapshots[key].hasLiquidity.Some? {
      var value := snapshots[key].hasLiquidity.value;
      assert value || !value;
    }
  }

  /** A second prune with the same flag finds nothing to delete. */
  lemma PruneAgain(pools: Pools, snapshots: Snapshots, scope: Scope, deleteUnknown: bool)
    requires NormalKeys(pools) && NormalKeys(snapshots)
    ensures var s := PruneSnapshots(snapshots, scope, deleteUnknown);
            var p := PrunePools(pools, snapshots, scope, deleteUnknown);
            && DeadSnapshots(s, scope, deleteUnknown) == {}
            && DeadPools(p, s, scope, deleteUnknown) == {}
  {
  }

  /** Pruning zeros first and everything unconfirmed later ends where one full prune ends. */
  lemma PruneAbsorbs(pools: Pools, snapshots: Snapshots, scope: Scope)
    requires NormalKeys(pools) && NormalKeys(snapshots)
    ensures var s := PruneSnapshots(snapshots, scope, false);
            var p := PrunePools(pools, snapshots, scope, false);
            && PruneSnapshots(s, scope, true) == PruneSnapshots(snapshots, scope, true)
            && PrunePools(p, s, scope, true) == PrunePools(pools, snapshots, scope, true)
  {
    var s := PruneSnapshots(snapshots, scope, false);
    var p := PrunePools(pools, snapshots, scope, false);
    forall key: Key | true
      ensures key in PruneSnapshots(s, scope, true) <==> key in PruneSnapshots(snapshots, scope, true)
      ensures key in PrunePools(p, s, scope, true) <==> key in PrunePools(pools, snapshots, scope, true)
    {
      PruneLeavesConfirmed(pools, snapshots, scope, key);
      PruneLeavesConfirmed(p, s, scope, key);
      if key in pools && key.scope == scope {
        RemovableIff(pools, snapshots, scope, false, key);
      }
    }
  }

  // ----- the store -----

  function CountIn<V>(table: map<Key, V>, scope: Scope): nat {
    |set key | key in table && key.scope == scope|
  }

  lemma CountAfterDelete<V>(table: map<Key, V>, scope: Scope, dead: set<Key>)
    requires dead <= table.Keys && forall key :: key in dead ==> key.scope == scope
    ensures CountIn(table - dead, scope) == CountIn(table, scope) - |dead|
  {
    var all := set key | key in table && key.scope == scope;
    var left := set key | key in table - dead && key.scope == scope;
    assert left == all - dead;
    assert dead <= all;
  }

  datatype Report = Report(beforeSnapshots: nat, beforePools: nat, deletedZero: nat, deletedUnknown: nat,
                           deletedPools: nat, afterSnapshots: nat, afterPools: nat)

  class EvidenceStore {
    var pools: Pools
    var snapshots: Snapshots

    ghost predicate Valid()
      reads this
    {
      NormalKeys(pools) && NormalKeys(snapshots)
    }

    constructor ()
      ensures Valid() && pools == map[] && snapshots == map[]
    {
      pools := map[];
      snapshots := map[];
    }

    method UpsertPools(scope: Scope, rows: seq<PoolRow>) returns (count: nat)
      requires Valid()
      modifies this`pools
      ensures Valid() && pools == PutPools(old(pools), scope, rows)
      ensures count == UsableRows(rows)
    {
      PutKeepsNormal(snapshots, pools, scope, [], rows);
      count := 0;
      for i := 0 to |rows|
        invariant pools == PutPools(old(pools), scope, rows[..i])
        invariant count == UsableRows(rows[..i])
      {
        assert rows[..i + 1][..i] == rows[..i];
        var row := rows[i];
        if Norm(row.poolId) == "" || Norm(row.pool.token0) == "" || Norm(row.pool.token1) == "" {
          continue;
        }
        pools := pools[Key(scope, Norm(row.poolId)) := PoolParams(row)];
        count := count + 1;
      }
      assert rows[..|rows|] == rows;
    }

    method UpsertSnapshots(scope: Scope, rows: seq<SnapshotRow>) returns (count: nat)
      requires Valid()
      modifies this`snapshots
      ensures Valid() && snapshots == PutSnapshots(old(snapshots), scope, rows)
      ensures count == NamedRows(rows)
    {
      PutKeepsNormal(snapshots, pools, scope, rows, []);
      count := 0;
      for i := 0 to |rows|
        invariant snapshots == PutSnapshots(old(snapshots), scope, rows[..i])
        invariant count == NamedRows(rows[..i])
      {
        assert rows[..i + 1][..i] == rows[..i];
        snapshots := PutSnapshot(snapshots, scope, rows[i]);
        if Norm(rows[i].poolId) != "" {
          count := count + 1;
        }
      }
      assert rows[..|rows|] == rows;
    }

    method Clear(scope: Scope)
      requires Valid()
      modifies this
      ensures Valid()
      ensures pools == Outside(old(pools), scope) && snapshots == Outside(old(snapshots), scope)
    {
      snapshots := Outside(snapshots, scope);
      pools := Outside(pools, scope);
    }

    /** One import transaction; with `replace` the scope starts empty. */
    method Import(scope: Scope, poolRows: seq<PoolRow>, rows: seq<SnapshotRow>, indexRows: seq<SnapshotRow>,
                  replace: bool)
      returns (poolCount: nat, count: nat, indexCount: nat)
      requires Valid()
      modifies this
      ensures Valid()
      ensures var p, s := (if replace then Outside(old(pools), scope) else old(pools)),
                          (if replace then Outside(old(snapshots), scope) else old(snapshots));
              && pools == PutPools(p, scope, poolRows)
              && snapshots == PutSnapshots(s, scope, rows + indexRows)
      ensures poolCount == UsableRows(poolRows) && count == NamedRows(rows) && indexCount == NamedRows(indexRows)
    {
      if replace {
        Clear(scope);
      }
      ghost var start := snapshots;
      poolCount := UpsertPools(scope, poolRows);
      count := UpsertSnapshots(scope, rows);
      indexCount := UpsertSnapshots(scope, indexRows);
      PutConcat(start, scope, rows, indexRows);
    }

    method Prune(scope: Scope, deleteUnknown: bool) returns (report: Report)
      requires Valid()
      modifies this
      ensures Valid()
      ensures pools == PrunePools(old(pools), old(snapshots), scope, deleteUnknown)
      ensures snapshots == PruneSnapshots(old(snapshots), scope, deleteUnknown)
      ensures report.beforeSnapshots == |set key | key in old(snapshots) && key.scope == scope|
      ensures report.beforePools == |set key | key in old(pools) && key.scope == scope|
      ensures report.afterSnapshots == |set key | key in snapshots && key.scope == scope|
      ensures report.afterPools == |set key | key in pools && key.scope == scope|
      ensures report.afterSnapshots == report.beforeSnapshots - report.deletedZero - report.deletedUnknown
      ensures report.afterPools == report.beforePools - report.deletedPools
      ensures report.deletedZero == |KnownAs(old(snapshots), scope, Some(false))|
      ensures report.deletedUnknown == if deleteUnknown then |KnownAs(old(snapshots), scope, None)| else 0
    {
      var beforeSnapshots, beforePools := CountIn(snapshots, scope), CountIn(pools, scope);
      DeletionSteps(pools, snapshots, scope);
      DeletionCounts(pools, snapshots, scope, deleteUnknown);
      DeletedAre(snapshots, scope);
      var zero := ZeroSnapshots(snapshots, scope);
      var removable := CollectIds(zero);
      snapshots := snapshots - zero;
      var unknown: set<Key> := {};
      if deleteUnknown {
        unknown := UnknownSnapshots(snapshots, scope);
        var unknownIds := CollectIds(unknown);
        var orphanIds := CollectIds(Orphans(pools, snapshots, scope));
        removable := removable + unknownIds + orphanIds;
        snapshots := snapshots - unknown;
      }
      var dead := PoolsWithIds(pools, scope, removable);
      pools := pools - dead;
      report := Report(beforeSnapshots, beforePools, |zero|, |unknown|, |dead|,
                       CountIn(snapshots, scope), CountIn(pools, scope));
    }
  }

  lemma DeletionCounts(pools: Pools, snapshots: Snapshots, scope: Scope, deleteUnknown: bool)
    ensures var zero := ZeroSnapshots(snapshots, scope);
            var unknown := if deleteUnknown then UnknownSnapshots(snapshots - zero, scope) else {};
            CountIn(PruneSnapshots(snapshots, scope, deleteUnknown), scope) ==
            CountIn(snapshots, scope) - |zero| - |unknown|
    ensures CountIn(PrunePools(pools, snapshots, scope, deleteUnknown), scope) ==
            CountIn(pools, scope) - |DeadPools(pools, snapshots, scope, deleteUnknown)|
  {
    var zero := ZeroSnapshots(snapshots, scope);
    DeletionSteps(pools, snapshots, scope);
    CountAfterDelete(snapshots, scope, zero);
    CountAfterDelete(snapshots - zero, scope, UnknownSnapshots(snapshots - zero, scope));
    CountAfterDelete(pools, scope, DeadPools(pools, snapshots, scope, deleteUnknown));
  }

  function UnknownSnapshots(snapshots: Snapshots, scope: Scope): set<Key> {
    set key | key in snapshots && key.scope == scope && snapshots[key].hasLiquidity.None?
  }

  /** The scope's snapshots with this liquidity flag. */
  function KnownAs(snapshots: Snapshots, scope: Scope, has: Option<bool>): set<Key> {
    set key | key in snapshots && key.scope == scope && snapshots[key].hasLiquidity == has
  }

  lemma DeletedAre(snapshots: Snapshots, scope: Scope)
    ensures ZeroSnapshots(snapshots, scope) == KnownAs(snapshots, scope, Some(false))
    ensures UnknownSnapshots(snapshots - ZeroSnapshots(snapshots, scope), scope) == KnownAs(snapshots, scope, None)
  {
  }

  /** Deleting zeros, then unknowns, deletes what the prune specification deletes. */
  lemma DeletionSteps(pools: Pools, snapshots: Snapshots, scope: Scope)
    ensures var zero := ZeroSnapshots(snapshots, scope);
            var rest := snapshots - zero;
            var unknown := UnknownSnapshots(rest, scope);
            && PruneSnapshots(snapshots, scope, false) == rest
            && PruneSnapshots(snapshots, scope, true) == rest - unknown
            && Removable(pools, snapshots, scope, false) == IdsOf(zero)
            && Removable(pools, snapshots, scope, true) ==
               IdsOf(zero) + IdsOf(unknown) + IdsOf(Orphans(pools, rest, scope))
  {
  }

  function Outside<V>(table: map<Key, V>, scope: Scope): map<Key, V> {
    map key | key in table && key.scope != scope :: table[key]
  }

  /** A replacing import leaves in its scope only what the payload gives, and elsewhere everything as it was. */
  lemma {:induction false} ImportReplaces(pools: Pools, snapshots: Snapshots, scope: Scope,
                                          poolRows: seq<PoolRow>, rows: seq<SnapshotRow>, key: Key)
    requires key.poolId != ""
    ensures Lookup(PutSnapshots(Outside(snapshots, scope), scope, rows), key) ==
            if key.scope == scope then Replay(None, History(rows, key.poolId)) else Lookup(snapshots, key)
    ensures Lookup(PutPools(Outside(pools, scope), scope, poolRows), key) ==
            if key.scope == scope then Lookup(PutPools(map[], scope, poolRows), key) else Lookup(pools, key)
  {
    PutSnapshotsReplays(Outside(snapshots, scope), scope, rows, key);
    if poolRows != [] {
      ImportReplaces(pools, snapshots, scope, poolRows[..|poolRows| - 1], rows, key);
    }
  }

  lemma PutSnoc(table: Snapshots, scope: Scope, rows: seq<SnapshotRow>, row: SnapshotRow)
    ensures PutSnapshots(table, scope, rows + [row]) == PutSnapshot(PutSnapshots(table, scope, rows), scope, row)
  {
  }

  lemma {:induction false} PutConcat(table: Snapshots, scope: Scope, a: seq<SnapshotRow>, b: seq<SnapshotRow>)
    ensures PutSnapshots(PutSnapshots(table, scope, a), scope, b) == PutSnapshots(table, scope, a + b)
  {
    if b == [] {
      assert a + b == a;
    } else {
      var init, last := b[..|b| - 1], b[|b| - 1];
      assert b == init + [last] && a + b == a + init + [last];
      PutConcat(table, scope, a, init);
      PutSnoc(PutSnapshots(table, scope, a), scope, init, last);
      PutSnoc(table, scope, a + init, last);
    }
  }

  /** Collects the normalized, non-empty ids of selected rows one by one. */
  method CollectIds(keys: set<Key>) returns (ids: set<string>)
    ensures ids == IdsOf(keys)
  {
    ids := {};
    var left := keys;
    while left != {}
      invariant left <= keys && ids == IdsOf(keys - left)
      decreases left
    {
      var key :| key in left;
      var poolId := Norm(key.poolId);
      if poolId != "" {
        ids := ids + {poolId};
      }
      assert keys - (left - {key}) == (keys - left) + {key};
      left := left - {key};
    }
    assert keys - {} == keys;
  }
}

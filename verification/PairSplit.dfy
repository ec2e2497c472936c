/**
 The direction migration of the pair table: every row without a direction key is split into a
 forward and a reverse row, and rows that still lack one are deleted. A table is the sequence of
 its rows in insertion order.
 */
module PairSplit {
  import opened LoopSpec
  import opened Text
  import opened Wrappers

  datatype Pair = Pair(
    tag: Tag,
    anchor: string,
    counter: string,
    addressPair: string,
    direction: Option<string>,
    poolCount: int,
    yc: Option<string>,
    zc: Option<string>,
    ycBackups: seq<string>,
    zcBackups: seq<string>)

  type PrimaryKey = (Tag, string)

  /**
   The key by which an inserted row replaces others: the address pair, as in tables from before the
   migration. Where the table is keyed by direction instead, the result is the same, because among
   rows with a direction the two agree and all other rows are deleted (`SplitEitherKey`).
   */
  function KeyOf(p: Pair): PrimaryKey {
    (p.tag, p.addressPair)
  }

  /** A row from before the migration. */
  predicate Legacy(p: Pair) {
    p.direction.None? || p.direction.value == "" || p.addressPair != p.direction.value
  }

  predicate Directed(p: Pair) {
    !Legacy(p)
  }

  function Forward(p: Pair): Pair {
    var key := PairText(Lower(p.anchor), Lower(p.counter));
    Pair(p.tag, Lower(p.anchor), Lower(p.counter), key, Some(key), p.poolCount, p.yc, Some(""), [], [])
  }

  function Reverse(p: Pair): Pair {
    var key := PairText(Lower(p.counter), Lower(p.anchor));
    Pair(p.tag, Lower(p.counter), Lower(p.anchor), key, Some(key), p.poolCount, Some(""), p.zc, [], [])
  }

  // ----- table operations -----

  function Keep(t: seq<Pair>, f: Pair -> bool): seq<Pair> {
    if t == [] then [] else Keep(t[..|t| - 1], f) + (if f(t[|t| - 1]) then [t[|t| - 1]] else [])
  }

  function Differs(r: Pair): (f: Pair -> bool)
    ensures forall s :: f(s) <==> KeyOf(s) != KeyOf(r)
  {
    (s: Pair) => KeyOf(s) != KeyOf(r)
  }

  /** `INSERT OR REPLACE` of one row. */
  function Put(t: seq<Pair>, r: Pair): seq<Pair> {
    Keep(t, Differs(r)) + [r]
  }

  function PutAll(t: seq<Pair>, rows: seq<Pair>): seq<Pair> {
    if rows == [] then t else Put(PutAll(t, rows[..|rows| - 1]), rows[|rows| - 1])
  }

  lemma PutAllSnoc(t: seq<Pair>, rows: seq<Pair>, i: nat)
    requires i < |rows|
    ensures PutAll(t, rows[..i + 1]) == Put(PutAll(t, rows[..i]), rows[i])
  {
    assert rows[..i + 1][..i] == rows[..i];
  }

  function LegacyRows(t: seq<Pair>): seq<Pair> {
    Keep(t, Legacy)
  }

  function Forwards(ps: seq<Pair>): (r: seq<Pair>)
    ensures |r| == |ps| && forall i :: 0 <= i < |ps| ==> r[i] == Forward(ps[i])
  {
    seq(|ps|, i requires 0 <= i < |ps| => Forward(ps[i]))
  }

  function Reverses(ps: seq<Pair>): (r: seq<Pair>)
    ensures |r| == |ps| && forall i :: 0 <= i < |ps| ==> r[i] == Reverse(ps[i])
  {
    seq(|ps|, i requires 0 <= i < |ps| => Reverse(ps[i]))
  }

  /** The rows the migration inserts, in order. */
  function Generated(t: seq<Pair>): seq<Pair> {
    Forwards(LegacyRows(t)) + Reverses(LegacyRows(t))
  }

  function Directional(t: seq<Pair>): seq<Pair> {
    Keep(t, Directed)
  }

  /** The whole pair migration: all inserts, then the deletion of what is left without direction. */
  function Split(t: seq<Pair>): seq<Pair> {
    Directional(PutAll(t, Generated(t)))
  }

  // ----- keeping rows -----

  lemma {:induction false} KeepIn(t: seq<Pair>, f: Pair -> bool, r: Pair)
    ensures r in Keep(t, f) <==> r in t && f(r)
  {
    if t != [] {
      KeepIn(t[..|t| - 1], f, r);
      assert t == t[..|t| - 1] + [t[|t| - 1]];
    }
  }

  lemma {:induction false} KeepAll(t: seq<Pair>, f: Pair -> bool)
    requires forall r :: r in t ==> f(r)
    ensures Keep(t, f) == t
  {
    if t != [] {
      assert t[|t| - 1] in t && forall r :: r in t[..|t| - 1] ==> r in t;
      KeepAll(t[..|t| - 1], f);
      assert t == t[..|t| - 1] + [t[|t| - 1]];
    }
  }

  lemma {:induction false} KeepConcat(s: seq<Pair>, t: seq<Pair>, f: Pair -> bool)
    ensures Keep(s + t, f) == Keep(s, f) + Keep(t, f)
  {
    if t == [] {
      assert s + t == s;
    } else {
      KeepConcat(s, t[..|t| - 1], f);
      assert (s + t)[..|s + t| - 1] == s + t[..|t| - 1];
    }
  }

  lemma {:induction false} KeepTwice(t: seq<Pair>, f: Pair -> bool, g: Pair -> bool, both: Pair -> bool)
    requires forall r :: both(r) <==> f(r) && g(r)
    ensures Keep(Keep(t, f), g) == Keep(t, both)
  {
    if t != [] {
      var init, last := t[..|t| - 1], t[|t| - 1];
      KeepTwice(init, f, g, both);
      KeepConcat(Keep(init, f), if f(last) then [last] else [], g);
      assert Keep([last], g) == if g(last) then [last] else [];
    }
  }

  lemma PutIn(t: seq<Pair>, g: Pair, r: Pair)
    ensures r in Put(t, g) <==> r == g || (r in t && KeyOf(r) != KeyOf(g))
  {
    KeepIn(t, Differs(g), r);
  }

  // ----- what is in the migrated table -----

  /** The row is inserted, and no row with its key is inserted after it. */
  ghost predicate Final(rows: seq<Pair>, r: Pair) {
    exists i :: 0 <= i < |rows| && rows[i] == r && NoneAfter(rows, i)
  }

  ghost predicate NoneAfter(rows: seq<Pair>, i: nat)
    requires i < |rows|
  {
    forall j :: i < j < |rows| ==> KeyOf(rows[j]) != KeyOf(rows[i])
  }

  function Keys(rows: seq<Pair>): set<PrimaryKey> {
    set i | 0 <= i < |rows| :: KeyOf(rows[i])
  }

  lemma FinalSnoc(rows: seq<Pair>, last: Pair, r: Pair)
    ensures Final(rows + [last], r) <==> r == last || (Final(rows, r) && KeyOf(r) != KeyOf(last))
  {
    var more := rows + [last];
    if Final(more, r) && r != last {
      var i :| 0 <= i < |more| && more[i] == r && NoneAfter(more, i);
      assert more[|rows|] == last;
      forall j | i < j < |rows| ensures KeyOf(rows[j]) != KeyOf(rows[i]) {
        assert more[j] == rows[j];
      }
      assert rows[i] == r && NoneAfter(rows, i);
    }
    if r == last {
      assert more[|rows|] == r && NoneAfter(more, |rows|);
    } else if Final(rows, r) && KeyOf(r) != KeyOf(last) {
      var i :| 0 <= i < |rows| && rows[i] == r && NoneAfter(rows, i);
      assert more[i] == r && NoneAfter(more, i);
    }
  }

  lemma KeysSnoc(rows: seq<Pair>, last: Pair)
    ensures Keys(rows + [last]) == Keys(rows) + {KeyOf(last)}
  {
    assert (rows + [last])[|rows|] == last;
    forall k | k in Keys(rows) ensures k in Keys(rows + [last]) {
      var i :| 0 <= i < |rows| && KeyOf(rows[i]) == k;
      assert (rows + [last])[i] == rows[i];
    }
  }

  lemma {:induction false} PutAllIn(t: seq<Pair>, rows: seq<Pair>, r: Pair)
    ensures r in PutAll(t, rows) <==> Final(rows, r) || (r in t && KeyOf(r) !in Keys(rows))
  {
    if rows != [] {
      var init, last := rows[..|rows| - 1], rows[|rows| - 1];
      assert rows == init + [last];
      PutAllIn(t, init, r);
      PutIn(PutAll(t, init), last, r);
      FinalSnoc(init, last, r);
      KeysSnoc(init, last);
    }
  }

  lemma GeneratedIsDirectional(t: seq<Pair>, g: Pair)
    requires g in Generated(t)
    ensures !Legacy(g)
  {
  }

  /** A row is in the migrated table when its key was generated last as it, or never and it had a direction. */
  lemma SplitIn(t: seq<Pair>, r: Pair)
    ensures r in Split(t) <==>
            Final(Generated(t), r) || (r in t && !Legacy(r) && KeyOf(r) !in Keys(Generated(t)))
  {
    PutAllIn(t, Generated(t), r);
    KeepIn(PutAll(t, Generated(t)), Directed, r);
    if Final(Generated(t), r) {
      GeneratedIsDirectional(t, r);
    }
  }

  // ----- no two rows with one key -----

  ghost predicate UniqueKeys(t: seq<Pair>) {
    forall i, j :: 0 <= i < j < |t| ==> KeyOf(t[i]) != KeyOf(t[j])
  }

  /** Every migrated row has a direction, and its address pair is that direction. */
  lemma SplitDirected(t: seq<Pair>, r: Pair)
    requires r in Split(t)
    ensures r.direction.Some? && r.direction.value != "" && r.addressPair == r.direction.value
  {
    SplitIn(t, r);
    AllGeneratedDirected(t);
  }

  lemma {:induction false} KeepUnique(t: seq<Pair>, f: Pair -> bool)
    requires UniqueKeys(t)
    ensures UniqueKeys(Keep(t, f))
  {
    if t != [] {
      var init, last := t[..|t| - 1], t[|t| - 1];
      KeepUnique(init, f);
      forall r | r in Keep(init, f) ensures KeyOf(r) != KeyOf(last) {
        KeepIn(init, f, r);
      }
    }
  }

  lemma PutUnique(t: seq<Pair>, r: Pair)
    requires UniqueKeys(t)
    ensures UniqueKeys(Put(t, r))
  {
    KeepUnique(t, Differs(r));
    forall s | s in Keep(t, Differs(r)) ensures KeyOf(s) != KeyOf(r) {
      KeepIn(t, Differs(r), s);
    }
  }

  lemma {:induction false} PutAllUnique(t: seq<Pair>, rows: seq<Pair>)
    requires UniqueKeys(t)
    ensures UniqueKeys(PutAll(t, rows))
  {
    if rows != [] {
      PutAllUnique(t, rows[..|rows| - 1]);
      PutUnique(PutAll(t, rows[..|rows| - 1]), rows[|rows| - 1]);
    }
  }

  /** Directional rows other than the given one's. */
  function DirectedOthers(r: Pair): (f: Pair -> bool)
    ensures forall s :: f(s) <==> Directed(s) && KeyOf(s) != KeyOf(r)
  {
    (s: Pair) => Directed(s) && KeyOf(s) != KeyOf(r)
  }

  /** Deleting rows without direction may come before an insert just as well. */
  lemma DirectionalPut(t: seq<Pair>, r: Pair)
    requires Directed(r)
    ensures Directional(Put(t, r)) == Put(Directional(t), r)
  {
    KeepConcat(Keep(t, Differs(r)), [r], Directed);
    KeepAll([r], Directed);
    KeepTwice(t, Differs(r), Directed, DirectedOthers(r));
    KeepTwice(t, Directed, Differs(r), DirectedOthers(r));
  }

  lemma {:induction false} DirectionalPutAll(t: seq<Pair>, rows: seq<Pair>)
    requires forall g :: g in rows ==> Directed(g)
    ensures Directional(PutAll(t, rows)) == PutAll(Directional(t), rows)
  {
    if rows != [] {
      var init, last := rows[..|rows| - 1], rows[|rows| - 1];
      assert last in rows && forall g :: g in init ==> g in rows;
      DirectionalPutAll(t, init);
      DirectionalPut(PutAll(t, init), last);
    }
  }

  lemma AllGeneratedDirected(t: seq<Pair>)
    ensures forall g :: g in Generated(t) ==> Directed(g)
  {
    forall g | g in Generated(t) ensures Directed(g) {
      GeneratedIsDirectional(t, g);
    }
  }

  /** No two migrated rows share a key, if no two directional rows did before. */
  lemma SplitUnique(t: seq<Pair>)
    requires UniqueKeys(Directional(t))
    ensures UniqueKeys(Split(t))
  {
    AllGeneratedDirected(t);
    DirectionalPutAll(t, Generated(t));
    PutAllUnique(Directional(t), Generated(t));
  }

  // ----- tables keyed by direction -----

  function DirectionKey(p: Pair): (Tag, Option<string>) {
    (p.tag, p.direction)
  }

  function OtherDirection(r: Pair): (f: Pair -> bool)
    ensures forall s :: f(s) <==> DirectionKey(s) != DirectionKey(r)
  {
    (s: Pair) => DirectionKey(s) != DirectionKey(r)
  }

  /** `INSERT OR REPLACE` of one row where the primary key is the direction. */
  function PutDirection(t: seq<Pair>, r: Pair): seq<Pair> {
    Keep(t, OtherDirection(r)) + [r]
  }

  function PutDirections(t: seq<Pair>, rows: seq<Pair>): seq<Pair> {
    if rows == [] then t else PutDirection(PutDirections(t, rows[..|rows| - 1]), rows[|rows| - 1])
  }

  lemma DirectionIsKey(r: Pair, s: Pair)
    requires Directed(r) && Directed(s)
    ensures DirectionKey(s) == DirectionKey(r) <==> KeyOf(s) == KeyOf(r)
  {
  }

  lemma DirectionalPutDirection(t: seq<Pair>, r: Pair)
    requires Directed(r)
    ensures Directional(PutDirection(t, r)) == Put(Directional(t), r)
  {
    KeepConcat(Keep(t, OtherDirection(r)), [r], Directed);
    KeepAll([r], Directed);
    forall s: Pair | Directed(s) ensures OtherDirection(r)(s) <==> Differs(r)(s) {
      DirectionIsKey(r, s);
    }
    KeepTwice(t, OtherDirection(r), Directed, DirectedOthers(r));
    KeepTwice(t, Directed, Differs(r), DirectedOthers(r));
  }

  lemma {:induction false} DirectionalPutDirections(t: seq<Pair>, rows: seq<Pair>)
    requires forall g :: g in rows ==> Directed(g)
    ensures Directional(PutDirections(t, rows)) == PutAll(Directional(t), rows)
  {
    if rows != [] {
      var init, last := rows[..|rows| - 1], rows[|rows| - 1];
      assert last in rows && forall g :: g in init ==> g in rows;
      DirectionalPutDirections(t, init);
      DirectionalPutDirection(PutDirections(t, init), last);
    }
  }

  /** Whichever of the two keys the inserts replace by, the migrated table is the same. */
  lemma SplitEitherKey(t: seq<Pair>)
    ensures Directional(PutDirections(t, Generated(t))) == Split(t)
  {
    AllGeneratedDirected(t);
    DirectionalPutAll(t, Generated(t));
    DirectionalPutDirections(t, Generated(t));
  }

  ghost predicate UniqueDirections(t: seq<Pair>) {
    forall i, j :: 0 <= i < j < |t| ==> DirectionKey(t[i]) != DirectionKey(t[j])
  }

  /** Either primary key keeps the keys of directional rows apart. */
  lemma {:induction false} EitherKeyUnique(t: seq<Pair>)
    requires UniqueKeys(t) || UniqueDirections(t)
    ensures UniqueKeys(Directional(t))
  {
    if t != [] {
      var init, last := t[..|t| - 1], t[|t| - 1];
      EitherKeyUnique(init);
      forall r | r in Keep(init, Directed) && Directed(last) ensures KeyOf(r) != KeyOf(last) {
        KeepIn(init, Directed, r);
      }
    }
  }

  // ----- when both directions of every pair survive -----

  /** Any two generated rows with one key are the same row. */
  ghost predicate Consistent(rows: seq<Pair>) {
    forall i, j :: 0 <= i < |rows| && 0 <= j < |rows| && KeyOf(rows[i]) == KeyOf(rows[j]) ==> rows[i] == rows[j]
  }

  lemma {:induction false} LastOfKey(rows: seq<Pair>, i: nat) returns (l: nat)
    requires i < |rows|
    ensures i <= l < |rows| && KeyOf(rows[l]) == KeyOf(rows[i]) && NoneAfter(rows, l)
    decreases |rows| - i
  {
    l := i;
    if !NoneAfter(rows, i) {
      var j :| i < j < |rows| && KeyOf(rows[j]) == KeyOf(rows[i]);
      l := LastOfKey(rows, j);
    }
  }

  /** Both rows of every legacy pair are in the migrated table. */
  ghost predicate NothingLost(t: seq<Pair>) {
    forall p :: p in t && Legacy(p) ==> Forward(p) in Split(t) && Reverse(p) in Split(t)
  }

  /** No half of any pair is lost exactly when rows generated under one key are equal. */
  lemma SplitKeepsAllIff(t: seq<Pair>)
    ensures NothingLost(t) <==> Consistent(Generated(t))
  {
    if NothingLost(t) {
      LostNothingConsistent(t);
    }
    if Consistent(Generated(t)) {
      forall p | p in t && Legacy(p) ensures Forward(p) in Split(t) && Reverse(p) in Split(t) {
        PairGenerated(t, p);
        ConsistentSurvives(t, Forward(p));
        ConsistentSurvives(t, Reverse(p));
      }
    }
  }

  lemma ConsistentSurvives(t: seq<Pair>, g: Pair)
    requires Consistent(Generated(t)) && g in Generated(t)
    ensures g in Split(t)
  {
    var rows := Generated(t);
    var i :| 0 <= i < |rows| && rows[i] == g;
    var l := LastOfKey(rows, i);
    assert rows[l] == g;
    SplitIn(t, g);
  }

  lemma FinalUnique(rows: seq<Pair>, r: Pair, s: Pair)
    requires Final(rows, r) && Final(rows, s) && KeyOf(r) == KeyOf(s)
    ensures r == s
  {
    var i :| 0 <= i < |rows| && rows[i] == r && NoneAfter(rows, i);
    var j :| 0 <= j < |rows| && rows[j] == s && NoneAfter(rows, j);
  }

  /** Under a generated key the migrated table holds one row. */
  lemma OneRowPerGeneratedKey(t: seq<Pair>, r: Pair, s: Pair)
    requires r in Split(t) && s in Split(t) && KeyOf(r) == KeyOf(s) && KeyOf(r) in Keys(Generated(t))
    ensures r == s
  {
    SplitIn(t, r);
    SplitIn(t, s);
    FinalUnique(Generated(t), r, s);
  }

  lemma LostNothingConsistent(t: seq<Pair>)
    requires NothingLost(t)
    ensures Consistent(Generated(t))
  {
    var rows := Generated(t);
    forall i, j | 0 <= i < |rows| && 0 <= j < |rows| && KeyOf(rows[i]) == KeyOf(rows[j]) ensures rows[i] == rows[j] {
      GeneratedFrom(t, i);
      GeneratedFrom(t, j);
      assert KeyOf(rows[i]) in Keys(rows);
      OneRowPerGeneratedKey(t, rows[i], rows[j]);
    }
  }

  /** Every generated row is half of a legacy pair of the table. */
  lemma GeneratedFrom(t: seq<Pair>, i: nat)
    requires i < |Generated(t)|
    ensures exists p :: p in t && Legacy(p) && (Generated(t)[i] == Forward(p) || Generated(t)[i] == Reverse(p))
  {
    var legacy := LegacyRows(t);
    var p := legacy[if i < |legacy| then i else i - |legacy|];
    KeepIn(t, Legacy, p);
  }

  lemma PairGenerated(t: seq<Pair>, p: Pair)
    requires p in t && Legacy(p)
    ensures Forward(p) in Generated(t) && Reverse(p) in Generated(t)
  {
    var legacy := LegacyRows(t);
    KeepIn(t, Legacy, p);
    var i :| 0 <= i < |legacy| && legacy[i] == p;
    assert Generated(t)[i] == Forward(p) && Generated(t)[|legacy| + i] == Reverse(p);
  }

  // ----- the exact result for well-separated pairs -----

  predicate Ends(p: Pair, x: string, y: string) {
    (Lower(p.anchor) == x && Lower(p.counter) == y) || (Lower(p.anchor) == y && Lower(p.counter) == x)
  }

  /** Legacy pairs with two different ends, one row per unordered pair. */
  ghost predicate Separated(t: seq<Pair>) {
    var legacy := LegacyRows(t);
    && (forall p :: p in legacy ==>
          NoColon(Lower(p.anchor)) && NoColon(Lower(p.counter)) && Lower(p.anchor) != Lower(p.counter))
    && (forall i, j :: 0 <= i < j < |legacy| && legacy[i].tag == legacy[j].tag ==>
          !Ends(legacy[i], Lower(legacy[j].anchor), Lower(legacy[j].counter)))
  }

  lemma HalfKeysApart(p: Pair, q: Pair)
    requires NoColon(Lower(p.anchor)) && NoColon(Lower(p.counter))
    requires p.tag != q.tag || !Ends(p, Lower(q.anchor), Lower(q.counter))
    ensures KeyOf(Forward(p)) != KeyOf(Forward(q)) && KeyOf(Forward(p)) != KeyOf(Reverse(q))
    ensures KeyOf(Reverse(p)) != KeyOf(Forward(q)) && KeyOf(Reverse(p)) != KeyOf(Reverse(q))
  {
    PairTextInjective(Lower(p.anchor), Lower(p.counter), Lower(q.anchor), Lower(q.counter));
    PairTextInjective(Lower(p.anchor), Lower(p.counter), Lower(q.counter), Lower(q.anchor));
    PairTextInjective(Lower(p.counter), Lower(p.anchor), Lower(q.counter), Lower(q.anchor));
    PairTextInjective(Lower(p.counter), Lower(p.anchor), Lower(q.anchor), Lower(q.counter));
  }

  lemma SeparatedKeys(t: seq<Pair>)
    requires Separated(t)
    ensures UniqueKeys(Generated(t))
  {
    var legacy, rows := LegacyRows(t), Generated(t);
    forall i, j | 0 <= i < j < |rows| ensures KeyOf(rows[i]) != KeyOf(rows[j]) {
      var k, l := (if i < |legacy| then i else i - |legacy|), (if j < |legacy| then j else j - |legacy|);
      assert legacy[k] in legacy && legacy[l] in legacy;
      if k == l {
        EndsApart(legacy[k]);
      } else if k < l {
        HalfKeysApart(legacy[k], legacy[l]);
      } else {
        HalfKeysApart(legacy[l], legacy[k]);
      }
    }
  }

  /** Rows whose key none of the given rows has. */
  function Unkeyed(rows: seq<Pair>): (f: Pair -> bool)
    ensures forall r :: f(r) <==> KeyOf(r) !in Keys(rows)
  {
    (r: Pair) => KeyOf(r) !in Keys(rows)
  }

  lemma UnkeyedSnoc(t: seq<Pair>, init: seq<Pair>, last: Pair)
    ensures Keep(Keep(t, Unkeyed(init)), Differs(last)) == Keep(t, Unkeyed(init + [last]))
  {
    KeysSnoc(init, last);
    KeepTwice(t, Unkeyed(init), Differs(last), Unkeyed(init + [last]));
  }

  lemma OthersDiffer(init: seq<Pair>, last: Pair)
    requires KeyOf(last) !in Keys(init)
    ensures Keep(init, Differs(last)) == init
  {
  }

  lemma PutFresh(t: seq<Pair>, init: seq<Pair>, last: Pair)
    requires KeyOf(last) !in Keys(init)
    ensures Put(Keep(t, Unkeyed(init)) + init, last) == Keep(t, Unkeyed(init + [last])) + init + [last]
  {
    KeepConcat(Keep(t, Unkeyed(init)), init, Differs(last));
    UnkeyedSnoc(t, init, last);
    OthersDiffer(init, last);
  }

  lemma {:induction false} PutAllFresh(t: seq<Pair>, rows: seq<Pair>)
    requires UniqueKeys(rows)
    ensures PutAll(t, rows) == Keep(t, Unkeyed(rows)) + rows
  {
    if rows == [] {
      KeepAll(t, Unkeyed(rows));
    } else {
      var init, last := rows[..|rows| - 1], rows[|rows| - 1];
      assert rows == init + [last];
      PutAllFresh(t, init);
      assert KeyOf(last) !in Keys(init);
      PutFresh(t, init, last);
    }
  }

  /** Directional rows whose keys the migration does not take over. */
  function Untouched(rows: seq<Pair>): (f: Pair -> bool)
    ensures forall r :: f(r) <==> Directed(r) && KeyOf(r) !in Keys(rows)
  {
    (r: Pair) => Directed(r) && KeyOf(r) !in Keys(rows)
  }

  /**
   With distinct ends and one row per unordered pair, the migrated table is exactly the directional
   rows whose keys are not taken over, then each pair's forward row, then each pair's reverse row.
   */
  lemma SplitClosedForm(t: seq<Pair>)
    requires Separated(t)
    ensures Split(t) ==
            Keep(t, Untouched(Generated(t))) + (Forwards(LegacyRows(t)) + Reverses(LegacyRows(t)))
  {
    SeparatedKeys(t);
    AllGeneratedDirected(t);
    DirectedPart(t, Generated(t));
  }

  lemma DirectedPart(t: seq<Pair>, rows: seq<Pair>)
    requires UniqueKeys(rows) && forall g :: g in rows ==> Directed(g)
    ensures Directional(PutAll(t, rows)) == Keep(t, Untouched(rows)) + rows
  {
    PutAllFresh(t, rows);
    KeepConcat(Keep(t, Unkeyed(rows)), rows, Directed);
    KeepTwice(t, Unkeyed(rows), Directed, Untouched(rows));
    KeepAll(rows, Directed);
  }

  /** A legacy pair's two rows are mutual reverses, each keyed by its own direction. */
  lemma HalvesMirror(p: Pair)
    ensures var f, r := Forward(p), Reverse(p);
            && f.anchor == r.counter && f.counter == r.anchor
            && f.direction == Some(f.addressPair) && r.direction == Some(r.addressPair)
            && f.addressPair == PairText(f.anchor, f.counter) && r.addressPair == PairText(r.anchor, r.counter)
            && f.yc == p.yc && f.zc == Some("") && r.zc == p.zc && r.yc == Some("")
  {
  }

  lemma EndsApart(p: Pair)
    requires NoColon(Lower(p.anchor)) && NoColon(Lower(p.counter)) && Lower(p.anchor) != Lower(p.counter)
    ensures KeyOf(Forward(p)) != KeyOf(Reverse(p))
  {
    PairTextInjective(Lower(p.anchor), Lower(p.counter), Lower(p.counter), Lower(p.anchor));
  }

  lemma UniqueIsConsistent(rows: seq<Pair>)
    requires UniqueKeys(rows)
    ensures Consistent(rows)
  {
  }

  lemma SeparatedSurvives(t: seq<Pair>, p: Pair)
    requires Separated(t) && p in t && Legacy(p)
    ensures Forward(p) in Split(t) && Reverse(p) in Split(t)
    ensures KeyOf(Forward(p)) != KeyOf(Reverse(p))
  {
    SeparatedKeys(t);
    UniqueIsConsistent(Generated(t));
    PairGenerated(t, p);
    ConsistentSurvives(t, Forward(p));
    ConsistentSurvives(t, Reverse(p));
    KeepIn(t, Legacy, p);
    EndsApart(p);
  }

  /** Under a legacy pair's two directions the migrated table holds exactly its two rows. */
  lemma ExactlyTwo(t: seq<Pair>, p: Pair, r: Pair)
    requires Separated(t) && p in t && Legacy(p)
    ensures Forward(p) != Reverse(p)
    ensures r in Split(t) && (KeyOf(r) == KeyOf(Forward(p)) || KeyOf(r) == KeyOf(Reverse(p))) <==>
            r == Forward(p) || r == Reverse(p)
  {
    SeparatedSurvives(t, p);
    PairGenerated(t, p);
    KeyGenerated(t, Forward(p));
    KeyGenerated(t, Reverse(p));
    if r in Split(t) && KeyOf(r) == KeyOf(Forward(p)) {
      OneRowPerGeneratedKey(t, r, Forward(p));
    }
    if r in Split(t) && KeyOf(r) == KeyOf(Reverse(p)) {
      OneRowPerGeneratedKey(t, r, Reverse(p));
    }
  }

  lemma KeyGenerated(t: seq<Pair>, g: Pair)
    requires g in Generated(t)
    ensures KeyOf(g) in Keys(Generated(t))
  {
    var i :| 0 <= i < |Generated(t)| && Generated(t)[i] == g;
    assert KeyOf(Generated(t)[i]) == KeyOf(g);
  }

  /** Migrating again changes nothing, whatever the table. */
  lemma SplitAgain(t: seq<Pair>)
    ensures Split(Split(t)) == Split(t)
  {
    var s := Split(t);
    forall r | r in s ensures !Legacy(r) {
      KeepIn(PutAll(t, Generated(t)), Directed, r);
    }
    if LegacyRows(s) != [] {
      KeepIn(s, Legacy, LegacyRows(s)[0]);
    }
    assert Generated(s) == [];
    KeepAll(s, Directed);
  }

  lemma TwoLegacy(p: Pair, q: Pair)
    requires Legacy(p) && Legacy(q)
    ensures Generated([p, q]) == [Forward(p), Forward(q), Reverse(p), Reverse(q)]
  {
    KeepAll([p, q], Legacy);
  }

  lemma FirstIsNotFinal(rows: seq<Pair>)
    requires |rows| == 4 && KeyOf(rows[3]) == KeyOf(rows[0])
    requires rows[1] != rows[0] && rows[2] != rows[0] && rows[3] != rows[0]
    ensures !Final(rows, rows[0])
  {
  }

  /** A row that is generated first, and whose key is generated differently last, is lost. */
  lemma FirstOfFourLost(t: seq<Pair>, rows: seq<Pair>)
    requires rows == Generated(t) && |rows| == 4 && KeyOf(rows[3]) == KeyOf(rows[0])
    requires rows[1] != rows[0] && rows[2] != rows[0] && rows[3] != rows[0]
    ensures rows[0] !in Split(t)
  {
    SplitIn(t, rows[0]);
    KeyGenerated(t, rows[0]);
    FirstIsNotFinal(rows);
  }

  lemma WitnessHalves(p: Pair, q: Pair)
    requires p.tag == q.tag && p.anchor == q.counter == "a" && p.counter == q.anchor == "c" && p.yc != Some("")
    requires p.yc != q.yc
    ensures KeyOf(Forward(p)) == KeyOf(Reverse(q))
    ensures Forward(p) != Forward(q) && Forward(p) != Reverse(p) && Forward(p) != Reverse(q)
  {
  }

  /** Two legacy rows of one pair stored both ways round: one row's yc pool is lost. */
  lemma DuplicateWitness(tag: Tag)
    ensures var p := Pair(tag, "a", "c", "a:c", None, 1, Some("first"), Some("x"), [], []);
            var q := Pair(tag, "c", "a", "c:a", None, 1, Some("second"), Some("y"), [], []);
            UniqueKeys([p, q]) && Forward(p) !in Split([p, q])
  {
    var p := Pair(tag, "a", "c", "a:c", None, 1, Some("first"), Some("x"), [], []);
    var q := Pair(tag, "c", "a", "c:a", None, 1, Some("second"), Some("y"), [], []);
    TwoLegacy(p, q);
    assert p.yc != q.yc && p.addressPair[0] != q.addressPair[0];
    WitnessHalves(p, q);
    FirstOfFourLost([p, q], Generated([p, q]));
  }
}

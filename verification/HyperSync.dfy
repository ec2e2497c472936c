/** The paged log query: a cursor that moves forward until the server's last page. */
module HyperSync {
  import opened Wrappers

  datatype Log = Log(block: nat, data: string)
  datatype Page = Page(logs: seq<Log>, next: Option<nat>)

  /** One page query by its starting block; the other query arguments never change. */
  type Server = nat -> Result<Page, string>

  /** The next cursor, when the page names one that moves forward and stays in range. */
  predicate Continues(page: Page, cursor: nat, toBlock: nat) {
    page.next.Some? && cursor < page.next.value <= toBlock
  }

  function Fetch(server: Server, cursor: nat, toBlock: nat): Result<seq<Log>, string>
    decreases toBlock - cursor
  {
    if cursor > toBlock then Ok([])
    else
      match server(cursor)
      case Err(error) => Err(error)
      case Ok(page) =>
        if !Continues(page, cursor, toBlock) then Ok(page.logs)
        else
          match Fetch(server, page.next.value, toBlock)
          case Err(error) => Err(error)
          case Ok(rest) => Ok(page.logs + rest)
  }

  /** The cursors a fetch asks for, in order. */
  function Cursors(server: Server, cursor: nat, toBlock: nat): seq<nat>
    decreases toBlock - cursor
  {
    if cursor > toBlock then []
    else
      match server(cursor)
      case Err(_) => [cursor]
      case Ok(page) =>
        [cursor] + (if Continues(page, cursor, toBlock) then Cursors(server, page.next.value, toBlock) else [])
  }

  /** Cursors only move forward within the range, so the queries are at most its length. */
  lemma {:induction false} CursorsAdvance(server: Server, cursor: nat, toBlock: nat)
    ensures var cs := Cursors(server, cursor, toBlock);
            && (forall i :: 0 <= i < |cs| ==> cursor <= cs[i] <= toBlock)
            && (forall i, j :: 0 <= i < j < |cs| ==> cs[i] < cs[j])
            && |cs| <= (if cursor <= toBlock then toBlock - cursor + 1 else 0)
    decreases toBlock - cursor
  {
    if cursor <= toBlock && server(cursor).Ok? && Continues(server(cursor).value, cursor, toBlock) {
      CursorsAdvance(server, server(cursor).value.next.value, toBlock);
    }
  }

  /**
   The first page is asked at the start, each further one at the next block that the page before
   names, and a successful last page names none that moves on within the range.
   */
  lemma {:induction false} CursorsFollow(server: Server, from: nat, toBlock: nat)
    requires from <= toBlock
    ensures var cs := Cursors(server, from, toBlock);
            && cs != [] && cs[0] == from
            && (forall i :: 0 <= i < |cs| - 1 ==>
                  server(cs[i]).Ok? && server(cs[i]).value.next == Some(cs[i + 1]))
            && (var last := server(cs[|cs| - 1]);
                last.Ok? ==> last.value.next.None? || last.value.next.value <= cs[|cs| - 1]
                             || last.value.next.value > toBlock)
    decreases toBlock - from
  {
    if server(from).Ok? && Continues(server(from).value, from, toBlock) {
      var rest := Cursors(server, server(from).value.next.value, toBlock);
      CursorsFollow(server, server(from).value.next.value, toBlock);
      var cs := Cursors(server, from, toBlock);
      assert cs == [from] + rest;
      forall i | 0 <= i < |cs| - 1 ensures server(cs[i]).Ok? && server(cs[i]).value.next == Some(cs[i + 1]) {
        if i > 0 {
          assert cs[i] == rest[i - 1] && cs[i + 1] == rest[i];
        }
      }
    }
  }

  /** The logs of the pages asked, one page after another; None when a page failed. */
  function Gathered(server: Server, cs: seq<nat>): Option<seq<Log>> {
    if cs == [] then Some([])
    else if server(cs[0]).Err? || Gathered(server, cs[1..]).None? then None
    else Some(server(cs[0]).value.logs + Gathered(server, cs[1..]).value)
  }

  /** The fetch succeeds exactly when every page asked does, and returns all their logs in order. */
  lemma {:induction false} FetchGathers(server: Server, from: nat, toBlock: nat)
    ensures var got := Gathered(server, Cursors(server, from, toBlock));
            if got.Some? then Fetch(server, from, toBlock) == Ok(got.value) else Fetch(server, from, toBlock).Err?
    ensures Fetch(server, from, toBlock).Err? ==>
              var cs := Cursors(server, from, toBlock);
              cs != [] && server(cs[|cs| - 1]) == Err(Fetch(server, from, toBlock).error)
    decreases toBlock - from
  {
    if from <= toBlock {
      var cs := Cursors(server, from, toBlock);
      if server(from).Ok? && Continues(server(from).value, from, toBlock) {
        var next := server(from).value.next.value;
        FetchGathers(server, next, toBlock);
        CursorsFollow(server, next, toBlock);
        assert cs == [from] + Cursors(server, next, toBlock);
        assert cs[1..] == Cursors(server, next, toBlock);
      } else {
        assert cs == [from] && cs[1..] == [];
        if server(from).Ok? {
          assert server(from).value.logs + [] == server(from).value.logs;
        }
      }
    }
  }

  function Prepend(logs: seq<Log>, r: Result<seq<Log>, string>): Result<seq<Log>, string> {
    match r
    case Err(error) => Err(error)
    case Ok(rest) => Ok(logs + rest)
  }

  /** What was gathered and asked so far, and what a fetch from the cursor would still add. */
  ghost predicate Progress(server: Server, from: nat, toBlock: nat,
                           cursor: nat, logs: seq<Log>, asked: seq<nat>)
  {
    && Fetch(server, from, toBlock) == Prepend(logs, Fetch(server, cursor, toBlock))
    && Cursors(server, from, toBlock) == asked + Cursors(server, cursor, toBlock)
  }

  lemma ProgressStart(server: Server, from: nat, toBlock: nat)
    ensures Progress(server, from, toBlock, from, [], [])
  {
    var r := Fetch(server, from, toBlock);
    if r.Ok? {
      assert [] + r.value == r.value;
    }
  }

  lemma ProgressStep(server: Server, from: nat, toBlock: nat, cursor: nat, logs: seq<Log>, asked: seq<nat>, page: Page)
    requires Progress(server, from, toBlock, cursor, logs, asked)
    requires cursor <= toBlock && server(cursor) == Ok(page) && Continues(page, cursor, toBlock)
    ensures Progress(server, from, toBlock, page.next.value, logs + page.logs, asked + [cursor])
  {
    var r := Fetch(server, page.next.value, toBlock);
    if r.Ok? {
      assert logs + (page.logs + r.value) == logs + page.logs + r.value;
    }
    var cs := Cursors(server, page.next.value, toBlock);
    assert asked + ([cursor] + cs) == asked + [cursor] + cs;
  }

  lemma ProgressEnd(server: Server, from: nat, toBlock: nat, cursor: nat, logs: seq<Log>, asked: seq<nat>)
    requires Progress(server, from, toBlock, cursor, logs, asked)
    requires cursor <= toBlock && server(cursor).Ok? ==> !Continues(server(cursor).value, cursor, toBlock)
    ensures cursor > toBlock ==>
              Fetch(server, from, toBlock) == Ok(logs) && Cursors(server, from, toBlock) == asked
    ensures cursor <= toBlock ==>
              && Cursors(server, from, toBlock) == asked + [cursor]
              && (server(cursor).Ok? ==> Fetch(server, from, toBlock) == Ok(logs + server(cursor).value.logs))
              && (server(cursor).Err? ==> Fetch(server, from, toBlock) == Err(server(cursor).error))
  {
    if cursor > toBlock {
      assert logs + [] == logs && asked + [] == asked;
    }
  }

  method QueryAllLogs(server: Server, from: nat, toBlock: nat)
    returns (result: Result<seq<Log>, string>, ghost asked: seq<nat>)
    ensures result == Fetch(server, from, toBlock)
    ensures asked == Cursors(server, from, toBlock)
  {
    var allLogs: seq<Log> := [];
    var cursor := from;
    asked := [];
    ProgressStart(server, from, toBlock);
    while cursor <= toBlock
      invariant Progress(server, from, toBlock, cursor, allLogs, asked)
      decreases toBlock - cursor
    {
      var page := server(cursor);
      if page.Err? {
        ProgressEnd(server, from, toBlock, cursor, allLogs, asked);
        return Err(page.error), asked + [cursor];
      }
      if !Continues(page.value, cursor, toBlock) {
        ProgressEnd(server, from, toBlock, cursor, allLogs, asked);
        return Ok(allLogs + page.value.logs), asked + [cursor];
      }
      ProgressStep(server, from, toBlock, cursor, allLogs, asked, page.value);
      allLogs := allLogs + page.value.logs;
      asked := asked + [cursor];
      cursor := page.value.next.value;
    }
    ProgressEnd(server, from, toBlock, cursor, allLogs, asked);
    result := Ok(allLogs);
  }

  // ----- against the chain's logs -----

  /** The chain's logs come in block order. */
  ghost predicate Ordered(world: seq<Log>) {
    forall i, j :: 0 <= i < j < |world| ==> world[i].block <= world[j].block
  }

  /** The logs of blocks a up to but not including b, in order. */
  function Window(world: seq<Log>, a: nat, b: nat): seq<Log> {
    if world == [] then []
    else (if a <= world[0].block < b then [world[0]] else []) + Window(world[1..], a, b)
  }

  function Min(a: nat, b: nat): nat {
    if a < b then a else b
  }

  /**
   For every cursor asked, the page holds exactly the logs up to where the server stopped, within
   the range, and a next block past the cursor is that place. Nothing is said of other cursors.
   */
  ghost predicate Honest(server: Server, world: seq<Log>, stops: map<nat, nat>, from: nat, toBlock: nat) {
    forall c :: c in Cursors(server, from, toBlock) && server(c).Ok? ==>
      HonestPage(server(c).value, world, stops, c, toBlock)
  }

  ghost predicate HonestPage(page: Page, world: seq<Log>, stops: map<nat, nat>, c: nat, toBlock: nat) {
    && c in stops && c <= stops[c]
    && page.logs == Window(world, c, Min(stops[c], toBlock + 1))
    && (page.next.Some? && page.next.value > c ==> page.next.value == stops[c])
  }

  lemma {:induction false} WindowEmpty(world: seq<Log>, a: nat, b: nat)
    ensures Window(world, a, b) == [] <==> forall i :: 0 <= i < |world| ==> !(a <= world[i].block < b)
  {
    if world != [] {
      WindowEmpty(world[1..], a, b);
      if Window(world, a, b) == [] {
        forall i | 0 <= i < |world| ensures !(a <= world[i].block < b) {
          if i > 0 {
            assert world[i] == world[1..][i - 1];
          }
        }
      }
    }
  }

  lemma HeadConcat(head: seq<Log>, u: seq<Log>, v: seq<Log>)
    ensures head + u + v == head + (u + v)
  {
  }

  /** In block order, adjacent windows concatenate to the window over both. */
  lemma {:induction false} WindowSplit(world: seq<Log>, a: nat, b: nat, c: nat)
    requires Ordered(world) && a <= b <= c
    ensures Window(world, a, b) + Window(world, b, c) == Window(world, a, c)
  {
    if world != [] {
      var first, rest := world[0], world[1..];
      assert forall i :: 0 <= i < |rest| ==> rest[i] == world[i + 1];
      WindowSplit(rest, a, b, c);
      if b <= first.block {
        WindowEmpty(rest, a, b);
        assert Window(world, a, b) == [] && Window(rest, b, c) == Window(rest, a, c);
        assert [] + Window(world, b, c) == Window(world, b, c);
      } else {
        var head := if a <= first.block then [first] else [];
        assert Window(world, b, c) == Window(rest, b, c);
        HeadConcat(head, Window(rest, a, b), Window(rest, b, c));
      }
    }
  }

  /** Where the last page of a fetch stopped. */
  function Reached(server: Server, stops: map<nat, nat>, from: nat, toBlock: nat): nat {
    var cs := Cursors(server, from, toBlock);
    if cs == [] || cs[|cs| - 1] !in stops then toBlock + 1 else Min(stops[cs[|cs| - 1]], toBlock + 1)
  }

  lemma CursorsStep(server: Server, from: nat, toBlock: nat)
    requires from <= toBlock && server(from).Ok? && Continues(server(from).value, from, toBlock)
    ensures var rest := Cursors(server, server(from).value.next.value, toBlock);
            Cursors(server, from, toBlock) == [from] + rest && rest != []
  {
  }

  /** A fetch returns every log from its start to where the last page stopped, once and in order. */
  lemma {:induction false} FetchIsWindow(server: Server, world: seq<Log>, stops: map<nat, nat>, from: nat, toBlock: nat)
    requires Ordered(world) && Honest(server, world, stops, from, toBlock)
    requires Fetch(server, from, toBlock).Ok?
    ensures from <= toBlock ==> from <= Reached(server, stops, from, toBlock) <= toBlock + 1
    ensures Fetch(server, from, toBlock).value == Window(world, from, Reached(server, stops, from, toBlock))
    decreases toBlock - from
  {
    if from > toBlock {
      WindowEmpty(world, from, toBlock + 1);
    } else {
      var page := server(from).value;
      assert from in Cursors(server, from, toBlock);
      if Continues(page, from, toBlock) {
        var next := page.next.value;
        CursorsStep(server, from, toBlock);
        FetchIsWindow(server, world, stops, next, toBlock);
        WindowSplit(world, from, next, Reached(server, stops, next, toBlock));
      }
    }
  }

  /** Over a given chain the fetch is complete exactly when no log lies between where it stopped and the end. */
  lemma FetchGapIff(server: Server, world: seq<Log>, stops: map<nat, nat>, from: nat, toBlock: nat)
    requires Ordered(world) && Honest(server, world, stops, from, toBlock) && from <= toBlock
    requires Fetch(server, from, toBlock).Ok?
    ensures var reached := Reached(server, stops, from, toBlock);
            Fetch(server, from, toBlock).value == Window(world, from, toBlock + 1) <==>
            forall i :: 0 <= i < |world| ==> !(reached <= world[i].block <= toBlock)
  {
    var reached := Reached(server, stops, from, toBlock);
    FetchIsWindow(server, world, stops, from, toBlock);
    WindowSplit(world, from, reached, toBlock + 1);
    WindowEmpty(world, reached, toBlock + 1);
    if Fetch(server, from, toBlock).value == Window(world, from, toBlock + 1) {
      assert |Window(world, reached, toBlock + 1)| == 0;
    }
  }

  // ----- what the pages themselves tell -----

  /** The last cursor of a fetch; its page is the one the loop stopped on. */
  function LastCursor(server: Server, from: nat, toBlock: nat): nat
    requires from <= toBlock
  {
    CursorsAdvance(server, from, toBlock);
    var cs := Cursors(server, from, toBlock);
    cs[|cs| - 1]
  }

  lemma LastStep(server: Server, from: nat, toBlock: nat)
    requires from <= toBlock && server(from).Ok? && Continues(server(from).value, from, toBlock)
    ensures LastCursor(server, from, toBlock) == LastCursor(server, server(from).value.next.value, toBlock)
  {
  }

  /** The fetch went on after this cursor. */
  predicate WentOn(server: Server, c: nat, toBlock: nat) {
    server(c).Ok? && Continues(server(c).value, c, toBlock)
  }

  lemma {:induction false} LastStops(server: Server, from: nat, toBlock: nat)
    requires from <= toBlock && Fetch(server, from, toBlock).Ok?
    ensures var last := LastCursor(server, from, toBlock);
            && last in Cursors(server, from, toBlock) && from <= last <= toBlock
            && server(last).Ok? && !WentOn(server, last, toBlock)
    ensures forall c :: c in Cursors(server, from, toBlock) && c != LastCursor(server, from, toBlock) ==>
              WentOn(server, c, toBlock)
    decreases toBlock - from
  {
    if WentOn(server, from, toBlock) {
      LastStep(server, from, toBlock);
      CursorsStep(server, from, toBlock);
      LastStops(server, server(from).value.next.value, toBlock);
    } else {
      assert Cursors(server, from, toBlock) == [from];
    }
  }

  /** The guard of the loop's `break` after the end: the last page names a next block past the range. */
  predicate NamesEnd(server: Server, from: nat, toBlock: nat)
    requires from <= toBlock
  {
    var page := server(LastCursor(server, from, toBlock));
    page.Ok? && page.value.next.Some? && page.value.next.value > toBlock
  }

  /** The pages show that the end was reached: a next block past it, or a log of the very last block. */
  predicate EndShown(server: Server, from: nat, toBlock: nat)
    requires from <= toBlock
  {
    var page := server(LastCursor(server, from, toBlock));
    NamesEnd(server, from, toBlock) || (page.Ok? && exists log :: log in page.value.logs && log.block == toBlock)
  }

  /** Whatever chain these pages come from, the fetch has every log of the range. */
  ghost predicate AlwaysComplete(server: Server, from: nat, toBlock: nat) {
    forall world, stops :: Ordered(world) && Honest(server, world, stops, from, toBlock) ==>
      Fetch(server, from, toBlock) == Ok(Window(world, from, toBlock + 1))
  }

  lemma {:induction false} WindowIn(world: seq<Log>, a: nat, b: nat, log: Log)
    ensures log in Window(world, a, b) <==> log in world && a <= log.block < b
  {
    if world != [] {
      WindowIn(world[1..], a, b, log);
      assert world == [world[0]] + world[1..];
    }
  }

  lemma EndReached(server: Server, world: seq<Log>, stops: map<nat, nat>, from: nat, toBlock: nat)
    requires from <= toBlock && Honest(server, world, stops, from, toBlock)
    requires Fetch(server, from, toBlock).Ok? && EndShown(server, from, toBlock)
    ensures Reached(server, stops, from, toBlock) == toBlock + 1
  {
    LastStops(server, from, toBlock);
    var last := LastCursor(server, from, toBlock);
    var page := server(last).value;
    assert HonestPage(page, world, stops, last, toBlock);
    if !NamesEnd(server, from, toBlock) {
      var log :| log in page.logs && log.block == toBlock;
      WindowIn(world, last, Min(stops[last], toBlock + 1), log);
    }
  }

  /** A last page that names a next block past the range makes the fetch complete. */
  lemma FetchComplete(server: Server, world: seq<Log>, stops: map<nat, nat>, from: nat, toBlock: nat)
    requires Ordered(world) && Honest(server, world, stops, from, toBlock)
    requires Fetch(server, from, toBlock).Ok? && (from <= toBlock ==> NamesEnd(server, from, toBlock))
    ensures Fetch(server, from, toBlock).value == Window(world, from, toBlock + 1)
  {
    FetchIsWindow(server, world, stops, from, toBlock);
    if from <= toBlock {
      EndReached(server, world, stops, from, toBlock);
    }
  }

  lemma {:induction false} WindowConcat(u: seq<Log>, v: seq<Log>, a: nat, b: nat)
    ensures Window(u + v, a, b) == Window(u, a, b) + Window(v, a, b)
  {
    if u == [] {
      assert u + v == v;
    } else {
      WindowConcat(u[1..], v, a, b);
      var head := if a <= u[0].block < b then [u[0]] else [];
      assert (u + v)[1..] == u[1..] + v && (u + v)[0] == u[0];
      HeadConcat(head, Window(u[1..], a, b), Window(v, a, b));
    }
  }

  lemma {:induction false} WindowOfWindow(world: seq<Log>, a: nat, b: nat, end: nat)
    requires b <= end
    ensures Window(Window(world, 0, end), a, b) == Window(world, a, b)
  {
    if world != [] {
      WindowOfWindow(world[1..], a, b, end);
      var rest := Window(world[1..], 0, end);
      if world[0].block < end {
        assert Window(world, 0, end)[1..] == rest;
      } else {
        assert Window(world, 0, end) == rest;
      }
    }
  }

  lemma {:induction false} WindowOrdered(world: seq<Log>, end: nat)
    requires Ordered(world)
    ensures Ordered(Window(world, 0, end))
    ensures forall i :: 0 <= i < |Window(world, 0, end)| ==> Window(world, 0, end)[i].block < end
  {
    if world != [] {
      var rest := Window(world[1..], 0, end);
      WindowOrdered(world[1..], end);
      forall i | 0 <= i < |rest| ensures world[0].block <= rest[i].block {
        WindowIn(world[1..], 0, end, rest[i]);
        var k :| 0 <= k < |world[1..]| && world[1..][k] == rest[i];
        assert world[k + 1] == rest[i];
      }
    }
  }

  /** The same chain cut off before the last block, with one log in that block. */
  function OtherWorld(world: seq<Log>, toBlock: nat): seq<Log> {
    Window(world, 0, toBlock) + [Log(toBlock, "")]
  }

  lemma SameBefore(world: seq<Log>, toBlock: nat, a: nat, b: nat)
    requires b <= toBlock
    ensures Window(OtherWorld(world, toBlock), a, b) == Window(world, a, b)
  {
    WindowConcat(Window(world, 0, toBlock), [Log(toBlock, "")], a, b);
    WindowOfWindow(world, a, b, toBlock);
    WindowEmpty([Log(toBlock, "")], a, b);
    assert Window(world, a, b) + [] == Window(world, a, b);
  }

  /** If the pages do not show the end, they also come from a chain with one more log, in the last block. */
  lemma OtherHonest(server: Server, world: seq<Log>, stops: map<nat, nat>, from: nat, toBlock: nat)
    requires Ordered(world) && Honest(server, world, stops, from, toBlock) && from <= toBlock
    requires Fetch(server, from, toBlock).Ok? && !EndShown(server, from, toBlock)
    ensures var last := LastCursor(server, from, toBlock);
            && last in stops
            && Honest(server, OtherWorld(world, toBlock), stops[last := Min(stops[last], toBlock)], from, toBlock)
  {
    LastStops(server, from, toBlock);
    var last := LastCursor(server, from, toBlock);
    var other, less := OtherWorld(world, toBlock), stops[last := Min(stops[last], toBlock)];
    forall c | c in Cursors(server, from, toBlock) && server(c).Ok?
      ensures HonestPage(server(c).value, other, less, c, toBlock)
    {
      assert HonestPage(server(c).value, world, stops, c, toBlock);
      SameBefore(world, toBlock, c, Min(less[c], toBlock));
      if c == last {
        LastPageBefore(server(c).value, world, stops, c, toBlock);
      }
    }
  }

  lemma LastPageBefore(page: Page, world: seq<Log>, stops: map<nat, nat>, c: nat, toBlock: nat)
    requires Ordered(world) && HonestPage(page, world, stops, c, toBlock) && c <= toBlock
    requires forall log :: log in page.logs ==> log.block != toBlock
    ensures page.logs == Window(world, c, Min(stops[c], toBlock))
  {
    if stops[c] > toBlock {
      WindowSplit(world, c, toBlock, toBlock + 1);
      forall i | 0 <= i < |world| ensures !(toBlock <= world[i].block < toBlock + 1) {
        WindowIn(world, c, toBlock + 1, world[i]);
      }
      WindowEmpty(world, toBlock, toBlock + 1);
      assert Window(world, c, toBlock) + [] == Window(world, c, toBlock);
    }
  }

  lemma OtherIncomplete(server: Server, other: seq<Log>, less: map<nat, nat>, world: seq<Log>, from: nat, toBlock: nat)
    requires Ordered(world) && other == OtherWorld(world, toBlock) && Honest(server, other, less, from, toBlock)
    requires from <= toBlock && Fetch(server, from, toBlock).Ok?
    requires var last := LastCursor(server, from, toBlock); last in less && less[last] <= toBlock
    ensures Ordered(other) && Fetch(server, from, toBlock).value != Window(other, from, toBlock + 1)
  {
    WindowOrdered(world, toBlock);
    FetchGapIff(server, other, less, from, toBlock);
    assert other[|other| - 1].block == toBlock;
  }

  lemma ShownIsComplete(server: Server, from: nat, toBlock: nat)
    requires from <= toBlock && Fetch(server, from, toBlock).Ok? && EndShown(server, from, toBlock)
    ensures AlwaysComplete(server, from, toBlock)
  {
    forall world, stops | Ordered(world) && Honest(server, world, stops, from, toBlock)
      ensures Fetch(server, from, toBlock) == Ok(Window(world, from, toBlock + 1))
    {
      FetchIsWindow(server, world, stops, from, toBlock);
      EndReached(server, world, stops, from, toBlock);
    }
  }

  /** A pair of chain and stops that the pages are honest about although logs of the range are missing. */
  lemma Counterexample(server: Server, world: seq<Log>, stops: map<nat, nat>, from: nat, toBlock: nat)
    returns (other: seq<Log>, less: map<nat, nat>)
    requires Ordered(world) && Honest(server, world, stops, from, toBlock) && from <= toBlock
    requires Fetch(server, from, toBlock).Ok? && !EndShown(server, from, toBlock)
    ensures Ordered(other) && Honest(server, other, less, from, toBlock)
    ensures Fetch(server, from, toBlock) != Ok(Window(other, from, toBlock + 1))
  {
    var last := LastCursor(server, from, toBlock);
    OtherHonest(server, world, stops, from, toBlock);
    other, less := OtherWorld(world, toBlock), stops[last := Min(stops[last], toBlock)];
    OtherIncomplete(server, other, less, world, from, toBlock);
  }

  /**
   A successful fetch is complete, whatever chain its pages come from, exactly when the last page
   shows the end of the range. The loop does not check this, so it may return less and succeed.
   */
  lemma FetchCompleteIff(server: Server, world: seq<Log>, stops: map<nat, nat>, from: nat, toBlock: nat)
    requires Ordered(world) && Honest(server, world, stops, from, toBlock) && from <= toBlock
    requires Fetch(server, from, toBlock).Ok?
    ensures AlwaysComplete(server, from, toBlock) <==> EndShown(server, from, toBlock)
  {
    if EndShown(server, from, toBlock) {
      ShownIsComplete(server, from, toBlock);
    } else {
      var other, less := Counterexample(server, world, stops, from, toBlock);
    }
  }

  /** A server that answers with an empty page and no next block ends the fetch without the logs. */
  lemma TruncationWitness(data: string)
    ensures var server: Server := (c: nat) => Ok(Page([], None));
            var world, stops := [Log(5, data)], map[5 := 5];
            && Ordered(world) && Honest(server, world, stops, 5, 9)
            && Fetch(server, 5, 9) == Ok([]) && Window(world, 5, 10) == world
  {
    var server: Server := (c: nat) => Ok(Page([], None));
    var world := [Log(5, data)];
    assert Cursors(server, 5, 9) == [5];
    WindowEmpty(world, 5, 5);
    assert world[1..] == [] && Window(world, 5, 10) == world;
  }
}

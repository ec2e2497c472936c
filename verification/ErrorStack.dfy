/**
 The per-module error stack: pushing, OK stamps, adoption of child results, and what bottom-up
 adoption over a whole tree of modules leaves at the root.
 */
module ErrorStacks {
  import opened Wrappers

  datatype ModuleError = ModuleError(name: string, code: int, message: string)

  /** A result body as a mapping; absent texts are empty, an absent code or module is None. */
  datatype Row = Row(name: Option<string>, source: string, code: Option<int>, message: string, errorKey: string)

  function OrUnknown(name: string): string {
    if name == "" then "unknown" else name
  }

  /** `_from_legacy`. */
  function FromLegacy(row: Row): ModuleError {
    match row.name
    case Some(name) => ModuleError(OrUnknown(name), row.code.GetOr(0), row.message)
    case None =>
      ModuleError(OrUnknown(row.source), row.code.GetOr(0),
                  if row.message != "" then row.message else row.errorKey)
  }

  /** `as_dict`. */
  function AsRow(e: ModuleError): Row {
    Row(Some(e.name), "", Some(e.code), e.message, "")
  }

  function AsRows(es: seq<ModuleError>): (rows: seq<Row>)
    ensures |rows| == |es| && forall i :: 0 <= i < |es| ==> rows[i] == AsRow(es[i])
  {
    seq(|es|, i requires 0 <= i < |es| => AsRow(es[i]))
  }

  /** What a body becomes by going through a mapping and back: an empty name is replaced. */
  function Restamp(e: ModuleError): ModuleError {
    e.(name := OrUnknown(e.name))
  }

  function RestampAll(es: seq<ModuleError>): (r: seq<ModuleError>)
    ensures |r| == |es| && forall i :: 0 <= i < |es| ==> r[i] == Restamp(es[i])
  {
    seq(|es|, i requires 0 <= i < |es| => Restamp(es[i]))
  }

  // ----- one stack as a value -----

  datatype Stack = Stack(errors: seq<ModuleError>, ok: Option<ModuleError>) {
    /** An OK stamp and errors never coexist. */
    predicate Valid() {
      ok.Some? ==> errors == []
    }
  }

  const EMPTY := Stack([], None)

  function MarkOk(s: Stack, e: ModuleError): Stack {
    if s.errors != [] then s else Stack([], Some(e))
  }

  function Push(s: Stack, e: ModuleError): Stack {
    if e.code == 0 then MarkOk(s, e) else Stack(s.errors + [e], None)
  }

  /** Rows whose code is not literally zero, so a row without a code counts as an error. */
  function Failing(rows: seq<Row>): seq<ModuleError> {
    if rows == [] then []
    else
      var last := rows[|rows| - 1];
      Failing(rows[..|rows| - 1]) + (if last.code == Some(0) then [] else [FromLegacy(last)])
  }

  function Adopt(s: Stack, rows: seq<Row>, ok: Option<ModuleError>): Stack {
    if Failing(rows) != [] then Stack(s.errors + Failing(rows), None)
    else if ok.Some? then MarkOk(s, ok.value)
    else s
  }

  function AsList(s: Stack): seq<ModuleError> {
    if s.ok.Some? && s.errors == [] then [s.ok.value] else s.errors
  }

  // ----- whole runs -----

  datatype Op =
    | DoPush(error: ModuleError)
    | DoMarkOk(element: ModuleError)
    | DoAdopt(rows: seq<Row>, stamp: Option<ModuleError>)

  function Step(s: Stack, op: Op): Stack {
    match op
    case DoPush(e) => Push(s, e)
    case DoMarkOk(e) => MarkOk(s, e)
    case DoAdopt(rows, stamp) => Adopt(s, rows, stamp)
  }

  function Run(s: Stack, ops: seq<Op>): Stack {
    if ops == [] then s else Step(Run(s, ops[..|ops| - 1]), ops[|ops| - 1])
  }

  /** The errors one operation brings. */
  function Errors(op: Op): seq<ModuleError> {
    match op
    case DoPush(e) => if e.code == 0 then [] else [e]
    case DoMarkOk(_) => []
    case DoAdopt(rows, _) => Failing(rows)
  }

  /** The OK stamp one operation offers when it brings no error. */
  function Stamp(op: Op): Option<ModuleError> {
    match op
    case DoPush(e) => if e.code == 0 then Some(e) else None
    case DoMarkOk(e) => Some(e)
    case DoAdopt(rows, stamp) => if Failing(rows) == [] then stamp else None
  }

  function AllErrors(ops: seq<Op>): seq<ModuleError> {
    if ops == [] then [] else AllErrors(ops[..|ops| - 1]) + Errors(ops[|ops| - 1])
  }

  function LastStamp(ops: seq<Op>): Option<ModuleError> {
    if ops == [] then None
    else
      var stamp := Stamp(ops[|ops| - 1]);
      if stamp.Some? then stamp else LastStamp(ops[..|ops| - 1])
  }

  /**
   Any run from the empty stack: the errors are all errors in the order they came, and an OK
   stamp stands only when there is none, being then the last one offered.
   */
  lemma {:induction false} RunClosedForm(ops: seq<Op>)
    ensures Run(EMPTY, ops) == Stack(AllErrors(ops), if AllErrors(ops) == [] then LastStamp(ops) else None)
    ensures Run(EMPTY, ops).Valid()
  {
    if ops != [] {
      RunClosedForm(ops[..|ops| - 1]);
    }
  }

  /** Later operations neither lose nor reorder the errors already recorded. */
  lemma {:induction false} RunKeepsErrors(s: Stack, ops: seq<Op>)
    ensures s.errors <= Run(s, ops).errors
    ensures s.Valid() ==> Run(s, ops).Valid()
  {
    if ops != [] {
      RunKeepsErrors(s, ops[..|ops| - 1]);
    }
  }

  // ----- loading a serialized stack -----

  function Load(rows: seq<Row>): Stack {
    if rows == [] then EMPTY else Push(Load(rows[..|rows| - 1]), FromLegacy(rows[|rows| - 1]))
  }

  predicate Coded(es: seq<ModuleError>) {
    forall i :: 0 <= i < |es| ==> es[i].code != 0
  }

  /** The entries whose code is not zero. */
  function NonZero(es: seq<ModuleError>): (r: seq<ModuleError>)
    ensures |r| <= |es| && Coded(r)
  {
    if es == [] then []
    else NonZero(es[..|es| - 1]) + (if es[|es| - 1].code == 0 then [] else [es[|es| - 1]])
  }

  lemma {:induction false} NonZeroAll(es: seq<ModuleError>)
    ensures Coded(es) <==> |NonZero(es)| == |es|
    ensures Coded(es) <==> NonZero(es) == es
  {
    if es != [] {
      NonZeroAll(es[..|es| - 1]);
      assert es == es[..|es| - 1] + [es[|es| - 1]];
    }
  }

  lemma {:induction false} NonZeroConcat(a: seq<ModuleError>, b: seq<ModuleError>)
    ensures NonZero(a + b) == NonZero(a) + NonZero(b)
  {
    if b == [] {
      assert a + b == a;
    } else {
      var m := |b| - 1;
      assert (a + b)[..|a + b| - 1] == a + b[..m];
      NonZeroConcat(a, b[..m]);
    }
  }

  lemma RestampSnoc(es: seq<ModuleError>, e: ModuleError)
    ensures RestampAll(es + [e]) == RestampAll(es) + [Restamp(e)]
  {
  }

  /** What loading a serialized list gives: its coded entries, or the last one when none is coded. */
  lemma {:induction false} LoadForm(es: seq<ModuleError>)
    ensures Load(AsRows(es)) ==
            Stack(RestampAll(NonZero(es)),
                  if NonZero(es) == [] && es != [] then Some(Restamp(es[|es| - 1])) else None)
  {
    if es != [] {
      var m := |es| - 1;
      assert AsRows(es)[..m] == AsRows(es[..m]);
      LoadForm(es[..m]);
      RestampSnoc(NonZero(es[..m]), es[m]);
    }
  }

  /**
   Serializing a stack and loading it again shows the same list, empty names aside, exactly when no
   error has code 0 or there is only one error.
   */
  lemma ReloadKeepsListIff(s: Stack)
    requires s.Valid()
    ensures AsList(Load(AsRows(AsList(s)))) == RestampAll(AsList(s)) <==> Coded(s.errors) || |s.errors| == 1
  {
    var list := AsList(s);
    LoadForm(list);
    NonZeroAll(list);
  }

  // ----- trees of modules -----

  /** A module pushes its own results, then adopts its children's with its OK stamp. */
  datatype Tree = Tree(own: seq<ModuleError>, children: seq<Branch>, stamp: Option<ModuleError>)

  /** A child is a module with a stack of its own, or the rows of a mapping or list from elsewhere. */
  datatype Branch = Module(tree: Tree) | Foreign(rows: seq<Row>)

  function PushAll(s: Stack, es: seq<ModuleError>): Stack {
    if es == [] then s else Push(PushAll(s, es[..|es| - 1]), es[|es| - 1])
  }

  function Build(t: Tree): Stack
    decreases t
  {
    Adopt(PushAll(EMPTY, t.own), ChildRows(t.children), t.stamp)
  }

  /** The rows a child shows to its parent. */
  function Shown(b: Branch): seq<Row>
    decreases b
  {
    match b
    case Module(tree) => AsRows(AsList(Build(tree)))
    case Foreign(rows) => rows
  }

  function ChildRows(bs: seq<Branch>): seq<Row>
    decreases bs
  {
    if bs == [] then [] else ChildRows(bs[..|bs| - 1]) + Shown(bs[|bs| - 1])
  }

  /** Every error in the tree: a module's own first, then its children's from left to right. */
  function TreeErrors(t: Tree): seq<ModuleError>
    decreases t
  {
    NonZero(t.own) + BranchErrors(t.children)
  }

  function ErrorsOf(b: Branch): seq<ModuleError>
    decreases b
  {
    match b
    case Module(tree) => TreeErrors(tree)
    case Foreign(rows) => Failing(rows)
  }

  function BranchErrors(bs: seq<Branch>): seq<ModuleError>
    decreases bs
  {
    if bs == [] then [] else BranchErrors(bs[..|bs| - 1]) + ErrorsOf(bs[|bs| - 1])
  }

  /** The errors of module children only: those that are shown at least twice on their way up. */
  function Below(bs: seq<Branch>): seq<ModuleError> {
    if bs == [] then [] else Below(bs[..|bs| - 1]) + ModuleErrors(bs[|bs| - 1])
  }

  function ModuleErrors(b: Branch): seq<ModuleError> {
    if b.Module? then TreeErrors(b.tree) else []
  }

  /** What is left of a child's errors at its parent: of a module's errors those with a code, restamped. */
  function Passing(b: Branch): seq<ModuleError> {
    match b
    case Module(tree) => RestampAll(NonZero(TreeErrors(tree)))
    case Foreign(rows) => Failing(rows)
  }

  function Arriving(bs: seq<Branch>): seq<ModuleError> {
    if bs == [] then [] else Arriving(bs[..|bs| - 1]) + Passing(bs[|bs| - 1])
  }

  /** No error reaches this module, so that its stamp is what it shows. */
  predicate Bare(t: Tree) {
    NonZero(t.own) == [] && Arriving(t.children) == []
  }

  /** No stamp with a non-zero code is shown by this module or below it. */
  predicate Quiet(t: Tree)
    decreases t
  {
    (Bare(t) && t.stamp.Some? ==> t.stamp.value.code == 0) && AllQuiet(t.children)
  }

  predicate AllQuiet(bs: seq<Branch>)
    decreases bs
  {
    bs == [] || (AllQuiet(bs[..|bs| - 1]) && QuietBranch(bs[|bs| - 1]))
  }

  predicate QuietBranch(b: Branch)
    decreases b
  {
    b.Module? ==> Quiet(b.tree)
  }

  lemma {:induction false} PushAllForm(es: seq<ModuleError>)
    ensures var s := PushAll(EMPTY, es);
            && s.errors == NonZero(es) && s.Valid()
            && (s.ok.Some? ==> s.ok.value.code == 0)
  {
    if es != [] {
      PushAllForm(es[..|es| - 1]);
    }
  }

  /** A built stack: own errors, then the children's failing rows, and a stamp only without either. */
  lemma BuildForm(t: Tree)
    ensures var s, up := Build(t), Failing(ChildRows(t.children));
            && s.errors == NonZero(t.own) + up && s.Valid()
            && (s.errors == [] && t.stamp.Some? ==> s.ok == t.stamp)
            && (s.errors == [] && t.stamp.None? && s.ok.Some? ==> s.ok.value.code == 0)
  {
    PushAllForm(t.own);
    assert NonZero(t.own) + [] == NonZero(t.own);
  }

  lemma {:induction false} FailingConcat(a: seq<Row>, b: seq<Row>)
    ensures Failing(a + b) == Failing(a) + Failing(b)
  {
    if b == [] {
      assert a + b == a;
    } else {
      var m := |b| - 1;
      assert (a + b)[..|a + b| - 1] == a + b[..m];
      FailingConcat(a, b[..m]);
    }
  }

  /** The body that a row gives: its own texts, or without a module its source and, failing that, error key. */
  predicate GivesBody(row: Row, e: ModuleError) {
    && e.code == (if row.code.Some? then row.code.value else 0)
    && match row.name
       case Some(name) => e.name == (if name == "" then "unknown" else name) && e.message == row.message
       case None =>
         && e.name == (if row.source == "" then "unknown" else row.source)
         && e.message == (if row.message == "" then row.errorKey else row.message)
  }

  /** A row brings its body, in its place, exactly when its code is not the number zero. */
  lemma RowBrings(before: seq<Row>, row: Row, after: seq<Row>, e: ModuleError)
    requires GivesBody(row, e)
    ensures Failing(before + [row] + after) ==
            Failing(before) + (if row.code == Some(0) then [] else [e]) + Failing(after)
  {
    FailingConcat(before + [row], after);
    FailingConcat(before, [row]);
    assert [row][..0] == [];
  }

  /** A parent takes from a shown list exactly the entries with a code. */
  lemma {:induction false} FailingShown(es: seq<ModuleError>)
    ensures Failing(AsRows(es)) == RestampAll(NonZero(es))
  {
    if es != [] {
      var m := |es| - 1;
      assert AsRows(es)[..m] == AsRows(es[..m]);
      FailingShown(es[..m]);
      RestampSnoc(NonZero(es[..m]), es[m]);
    }
  }

  lemma RestampConcat(a: seq<ModuleError>, b: seq<ModuleError>)
    ensures RestampAll(a + b) == RestampAll(a) + RestampAll(b)
    ensures RestampAll(RestampAll(a)) == RestampAll(a)
  {
  }

  lemma NonZeroRestamp(es: seq<ModuleError>)
    ensures NonZero(RestampAll(NonZero(es))) == RestampAll(NonZero(es))
  {
    NonZeroAll(RestampAll(NonZero(es)));
  }

  /** Up to restamping, the coded errors that arrive are the coded errors of the children. */
  lemma {:induction false} ArrivingCoded(bs: seq<Branch>)
    ensures RestampAll(NonZero(Arriving(bs))) == RestampAll(NonZero(BranchErrors(bs)))
  {
    if bs != [] {
      var init, last := bs[..|bs| - 1], bs[|bs| - 1];
      ArrivingCoded(init);
      NonZeroConcat(Arriving(init), Passing(last));
      NonZeroConcat(BranchErrors(init), ErrorsOf(last));
      RestampConcat(NonZero(Arriving(init)), NonZero(Passing(last)));
      RestampConcat(NonZero(BranchErrors(init)), NonZero(ErrorsOf(last)));
      if last.Module? {
        NonZeroRestamp(TreeErrors(last.tree));
        RestampConcat(NonZero(TreeErrors(last.tree)), []);
      }
    }
  }

  lemma OwnAndArriving(t: Tree)
    ensures RestampAll(NonZero(NonZero(t.own) + Arriving(t.children))) == RestampAll(NonZero(TreeErrors(t)))
  {
    ArrivingCoded(t.children);
    NonZeroConcat(NonZero(t.own), Arriving(t.children));
    NonZeroConcat(NonZero(t.own), BranchErrors(t.children));
    RestampConcat(NonZero(NonZero(t.own)), NonZero(Arriving(t.children)));
    RestampConcat(NonZero(NonZero(t.own)), NonZero(BranchErrors(t.children)));
  }

  /**
   When no child shows a coded stamp, a module holds its own errors, the failing rows it adopts
   itself, and of all errors further down exactly those with a code, in order.
   */
  lemma {:induction false} BuildGathers(t: Tree)
    requires AllQuiet(t.children)
    ensures Build(t).errors == NonZero(t.own) + Arriving(t.children)
    decreases t
  {
    BuildForm(t);
    BranchesGather(t.children);
  }

  lemma {:induction false} BranchesGather(bs: seq<Branch>)
    requires AllQuiet(bs)
    ensures Failing(ChildRows(bs)) == Arriving(bs)
    decreases bs
  {
    if bs != [] {
      BranchesGather(bs[..|bs| - 1]);
      FailingConcat(ChildRows(bs[..|bs| - 1]), Shown(bs[|bs| - 1]));
      BranchGathers(bs[|bs| - 1]);
    }
  }

  lemma {:induction false} BranchGathers(b: Branch)
    requires QuietBranch(b)
    ensures Failing(Shown(b)) == Passing(b)
    decreases b
  {
    if b.Module? {
      BuildGathers(b.tree);
      QuietPasses(b.tree);
    }
  }

  lemma QuietPasses(t: Tree)
    requires Quiet(t) && Build(t).errors == NonZero(t.own) + Arriving(t.children)
    ensures Failing(AsRows(AsList(Build(t)))) == RestampAll(NonZero(TreeErrors(t)))
  {
    BuildForm(t);
    OwnAndArriving(t);
    FailingShown(AsList(Build(t)));
    if Build(t).ok.Some? {
      assert AsList(Build(t))[..0] == [];
    }
  }

  // ----- stamps with a code -----

  /** A coded stamp that is shown anywhere reaches every module above it as an error. */
  lemma {:induction false} LoudIsHeard(t: Tree)
    requires !Quiet(t)
    ensures NonZero(AsList(Build(t))) != []
    decreases t
  {
    BuildForm(t);
    if AllQuiet(t.children) {
      BuildGathers(t);
      assert AsList(Build(t)) == [t.stamp.value] && [t.stamp.value][..0] == [];
    } else {
      LoudBranchIsHeard(t.children);
      NonZeroConcat(NonZero(t.own), Failing(ChildRows(t.children)));
    }
  }

  lemma {:induction false} LoudBranchIsHeard(bs: seq<Branch>)
    requires !AllQuiet(bs)
    ensures NonZero(Failing(ChildRows(bs))) != []
    decreases bs
  {
    var init := bs[..|bs| - 1];
    FailingConcat(ChildRows(init), Shown(bs[|bs| - 1]));
    NonZeroConcat(Failing(ChildRows(init)), Failing(Shown(bs[|bs| - 1])));
    if AllQuiet(init) {
      LoudChildIsHeard(bs[|bs| - 1]);
    } else {
      LoudBranchIsHeard(init);
    }
  }

  lemma {:induction false} LoudChildIsHeard(b: Branch)
    requires !QuietBranch(b)
    ensures NonZero(Failing(Shown(b))) != []
    decreases b
  {
    LoudIsHeard(b.tree);
    FailingShown(AsList(Build(b.tree)));
    NonZeroRestamp(AsList(Build(b.tree)));
  }

  /** A module holds no error exactly when none reaches it and no coded stamp is shown below it. */
  lemma NoErrorsIff(t: Tree)
    ensures Build(t).errors == [] <==> AllQuiet(t.children) && Bare(t)
  {
    BuildForm(t);
    if AllQuiet(t.children) {
      BuildGathers(t);
    } else {
      LoudBranchIsHeard(t.children);
    }
  }

  /** The root shows exactly its own OK stamp, when it supplies one, in just that case. */
  lemma TreeShowsRootOkIff(t: Tree)
    requires t.stamp.Some?
    ensures Build(t) == Stack([], t.stamp) <==> AllQuiet(t.children) && Bare(t)
    ensures AllQuiet(t.children) && Bare(t) ==> AsList(Build(t)) == [t.stamp.value]
  {
    BuildForm(t);
    NoErrorsIff(t);
  }

  lemma NothingPasses(b: Branch)
    requires Passing(b) == []
    ensures ErrorsOf(b) == ModuleErrors(b) && NonZero(ModuleErrors(b)) == []
  {
  }

  lemma {:induction false} NothingArrives(bs: seq<Branch>)
    requires Arriving(bs) == []
    ensures BranchErrors(bs) == Below(bs) && NonZero(Below(bs)) == []
  {
    if bs != [] {
      var init, last := bs[..|bs| - 1], bs[|bs| - 1];
      NothingArrives(init);
      NothingPasses(last);
      NonZeroConcat(Below(init), ModuleErrors(last));
    }
  }

  /** An error with a code anywhere in the tree leaves no OK stamp at the root. */
  lemma TreeNeverMasks(t: Tree)
    requires NonZero(TreeErrors(t)) != []
    ensures Build(t).ok.None? && AsList(Build(t)) == Build(t).errors != []
  {
    BuildForm(t);
    NoErrorsIff(t);
    if Bare(t) {
      NothingArrives(t.children);
      NonZeroConcat(NonZero(t.own), BranchErrors(t.children));
    }
  }

  /** All errors of a tree are masked exactly when they are uncoded and come from below its children. */
  lemma TreeMasksIff(t: Tree)
    ensures TreeErrors(t) != [] && Build(t).errors == [] <==>
            AllQuiet(t.children) && Bare(t) && Below(t.children) != []
  {
    NoErrorsIff(t);
    if Bare(t) {
      NothingArrives(t.children);
      assert TreeErrors(t) == Below(t.children);
    }
  }

  // ----- when adoption is concatenation -----

  function Zeros(es: seq<ModuleError>): nat {
    |es| - |NonZero(es)|
  }

  lemma ZerosConcat(a: seq<ModuleError>, b: seq<ModuleError>)
    ensures Zeros(a + b) == Zeros(a) + Zeros(b)
  {
    NonZeroConcat(a, b);
  }

  lemma ZerosShown(es: seq<ModuleError>)
    ensures Zeros(Failing(AsRows(es))) == 0
    ensures |Failing(AsRows(es))| == |NonZero(es)|
  {
    FailingShown(es);
    NonZeroRestamp(es);
  }

  /** Errors without a code are lost exactly when they come from below a module child. */
  lemma {:induction false} ZerosLost(bs: seq<Branch>)
    ensures Zeros(Failing(ChildRows(bs))) + Zeros(Below(bs)) == Zeros(BranchErrors(bs))
  {
    if bs != [] {
      var init, last := bs[..|bs| - 1], bs[|bs| - 1];
      ZerosLost(init);
      FailingConcat(ChildRows(init), Shown(last));
      ZerosConcat(Failing(ChildRows(init)), Failing(Shown(last)));
      ZerosConcat(BranchErrors(init), ErrorsOf(last));
      ZerosConcat(Below(init), ModuleErrors(last));
      if last.Module? {
        ZerosShown(AsList(Build(last.tree)));
      }
    }
  }

  /** Without lost errors a module passes on at least as many as its tree has, and more if not quiet. */
  lemma {:induction false} PassesEnough(t: Tree)
    requires Zeros(TreeErrors(t)) == 0
    ensures |NonZero(AsList(Build(t)))| >= |TreeErrors(t)|
    ensures !Quiet(t) ==> |NonZero(AsList(Build(t)))| > |TreeErrors(t)|
    decreases t
  {
    var up := Failing(ChildRows(t.children));
    BuildForm(t);
    ZerosConcat(NonZero(t.own), BranchErrors(t.children));
    ZerosLost(t.children);
    BranchesPassEnough(t.children);
    ZerosConcat(NonZero(t.own), up);
    NonZeroAll(NonZero(t.own));
    NoErrorsIff(t);
    if !Quiet(t) {
      LoudIsHeard(t);
    }
  }

  lemma {:induction false} BranchesPassEnough(bs: seq<Branch>)
    requires Zeros(Below(bs)) == 0
    ensures |Failing(ChildRows(bs))| >= |BranchErrors(bs)|
    ensures !AllQuiet(bs) ==> |Failing(ChildRows(bs))| > |BranchErrors(bs)|
    decreases bs
  {
    if bs != [] {
      var init := bs[..|bs| - 1];
      FailingConcat(ChildRows(init), Shown(bs[|bs| - 1]));
      ZerosConcat(Below(init), ModuleErrors(bs[|bs| - 1]));
      BranchPassesEnough(bs[|bs| - 1]);
      BranchesPassEnough(init);
    }
  }

  lemma {:induction false} BranchPassesEnough(b: Branch)
    requires Zeros(ModuleErrors(b)) == 0
    ensures |Failing(Shown(b))| >= |ErrorsOf(b)|
    ensures !QuietBranch(b) ==> |Failing(Shown(b))| > |ErrorsOf(b)|
    decreases b
  {
    if b.Module? {
      PassesEnough(b.tree);
      ZerosShown(AsList(Build(b.tree)));
    }
  }

  predicate Named(es: seq<ModuleError>) {
    forall i :: 0 <= i < |es| ==> es[i].name != ""
  }

  lemma NamedIff(es: seq<ModuleError>)
    ensures RestampAll(es) == es <==> Named(es)
  {
  }

  lemma NamedConcat(a: seq<ModuleError>, b: seq<ModuleError>)
    ensures Named(a + b) <==> Named(a) && Named(b)
  {
    if Named(a + b) {
      assert forall i :: 0 <= i < |a| ==> (a + b)[i] == a[i];
      assert forall i :: 0 <= i < |b| ==> (a + b)[|a| + i] == b[i];
    }
  }

  /** With codes everywhere below, what arrives is what was there exactly when it all has names. */
  lemma {:induction false} ArrivesUnchangedIff(bs: seq<Branch>)
    requires Zeros(Below(bs)) == 0
    ensures Arriving(bs) == BranchErrors(bs) <==> Named(Below(bs))
    ensures |Arriving(bs)| == |BranchErrors(bs)|
  {
    if bs != [] {
      var init, last := bs[..|bs| - 1], bs[|bs| - 1];
      var es := ModuleErrors(last);
      ZerosConcat(Below(init), es);
      NonZeroAll(es);
      NamedIff(es);
      NamedConcat(Below(init), es);
      ArrivesUnchangedIff(init);
      SplitEqual(Arriving(init), Passing(last), BranchErrors(init), ErrorsOf(last));
    }
  }

  lemma SplitEqual(a: seq<ModuleError>, b: seq<ModuleError>, c: seq<ModuleError>, d: seq<ModuleError>)
    requires |a| == |c| && |b| == |d|
    ensures a + b == c + d <==> a == c && b == d
  {
    assert (a + b)[..|a|] == a && (a + b)[|a|..] == b;
    assert (c + d)[..|c|] == c && (c + d)[|c|..] == d;
  }

  /**
   Bottom-up adoption gives the in-order concatenation of all errors of any tree exactly when below
   the root's module children no coded stamp is shown, and every error has a code and a module name.
   */
  lemma TreeConcatenatesIff(t: Tree)
    ensures Build(t).errors == TreeErrors(t) <==>
            AllQuiet(t.children) && Coded(Below(t.children)) && Named(Below(t.children))
  {
    var own, bs := NonZero(t.own), t.children;
    BuildForm(t);
    NonZeroAll(Below(bs));
    if Build(t).errors == TreeErrors(t) {
      SameSuffix(own, Failing(ChildRows(bs)), BranchErrors(bs));
      ZerosLost(bs);
      BranchesPassEnough(bs);
    }
    if AllQuiet(bs) && Zeros(Below(bs)) == 0 {
      BuildGathers(t);
      ArrivesUnchangedIff(bs);
      SplitEqual(own, Arriving(bs), own, BranchErrors(bs));
    }
  }

  lemma SameSuffix(a: seq<ModuleError>, b: seq<ModuleError>, c: seq<ModuleError>)
    requires a + b == a + c
    ensures b == c
  {
    assert (a + b)[|a|..] == b && (a + c)[|a|..] == c;
  }

  // ----- rows without a code -----

  /** The errors of the rows whose code is present and not zero. */
  function CodedErrors(rows: seq<Row>): seq<ModuleError> {
    if rows == [] then []
    else
      var last := rows[|rows| - 1];
      CodedErrors(rows[..|rows| - 1])
      + (if last.code.Some? && last.code.value != 0 then [FromLegacy(last)] else [])
  }

  lemma {:induction false} CodedRows(rows: seq<Row>)
    ensures NonZero(Failing(rows)) == CodedErrors(rows)
  {
    if rows != [] {
      var init, last := rows[..|rows| - 1], rows[|rows| - 1];
      CodedRows(init);
      NonZeroConcat(Failing(init), if last.code == Some(0) then [] else [FromLegacy(last)]);
      if last.code != Some(0) {
        assert [FromLegacy(last)][..0] == [];
      }
    }
  }

  lemma OneChild(b: Branch)
    ensures ChildRows([b]) == Shown(b)
  {
  }

  lemma ForeignChild(rows: seq<Row>)
    ensures Build(Tree([], [Foreign(rows)], None)) == Stack(Failing(rows), None)
  {
    OneChild(Foreign(rows));
    assert PushAll(EMPTY, []) == EMPTY && [] + Failing(rows) == Failing(rows);
  }

  lemma ModuleChild(child: Tree)
    ensures Build(Tree([], [Module(child)], None)).errors == RestampAll(NonZero(AsList(Build(child))))
  {
    var t := Tree([], [Module(child)], None);
    OneChild(Module(child));
    BuildForm(t);
    FailingShown(AsList(Build(child)));
    assert NonZero(t.own) == [] && [] + Failing(ChildRows(t.children)) == Failing(ChildRows(t.children));
  }

  /** Of rows that a module adopts, its parent sees exactly those with a code that is not zero. */
  lemma RowsSurvive(rows: seq<Row>)
    ensures var child := Tree([], [Foreign(rows)], None);
            && Build(child).errors == Failing(rows)
            && Build(Tree([], [Module(child)], None)).errors == CodedErrors(rows)
  {
    ForeignChild(rows);
    ModuleChild(Tree([], [Foreign(rows)], None));
    CodedRows(rows);
    FailingNamed(rows);
    NamedIff(CodedErrors(rows));
  }

  lemma {:induction false} FailingNamed(rows: seq<Row>)
    ensures Named(CodedErrors(rows))
  {
    if rows != [] {
      FailingNamed(rows[..|rows| - 1]);
    }
  }

  /** A stamp with a non-zero code is taken for an error by the parent. */
  lemma NonzeroStampWitness()
    ensures var stamp := ModuleError("leaf", 7, "done");
            Build(Tree([], [Module(Tree([], [], Some(stamp)))], None)).errors == [stamp]
  {
    var stamp := ModuleError("leaf", 7, "done");
    var leaf := Tree([], [], Some(stamp));
    assert Build(leaf) == Stack([], Some(stamp));
    OneChild(Module(leaf));
    FailingShown([stamp]);
    assert [stamp][..0] == [] && RestampAll([stamp]) == [stamp];
  }

  /** A module's error from a mapping without a code is masked by the OK stamp of its parent. */
  lemma MissingCodeWitness(ok: ModuleError)
    ensures var child := Tree([], [Foreign([Row(Some("m"), "", None, "", "")])], None);
            && Build(child).errors == [ModuleError("m", 0, "")]
            && AsList(Build(Tree([], [Module(child)], Some(ok)))) == [ok]
  {
    var rows := [Row(Some("m"), "", None, "", "")];
    var child := Tree([], [Foreign(rows)], None);
    RowsSurvive(rows);
    assert rows[..0] == [] && CodedErrors(rows) == [] && Failing(rows) == [ModuleError("m", 0, "")];
    OneChild(Foreign(rows));
    OneChild(Module(child));
    BuildForm(child);
    FailingShown(Failing(rows));
    CodedRows(rows);
    BuildForm(Tree([], [Module(child)], Some(ok)));
  }

  // ----- the mutable stack -----

  /** What `adopt_children` accepts; a mapping gives its `errorStack` list or else itself. */
  datatype Child =
    | NoChild
    | StackChild(stack: ErrorStack)
    | MappingChild(rows: Option<seq<Row>>, self: Row)
    | ListChild(list: seq<Row>)

  ghost function StacksOf(children: seq<Child>): set<ErrorStack> {
    set c | c in children && c.StackChild? :: c.stack
  }

  function RowsOf(child: Child): seq<Row>
    reads if child.StackChild? then {child.stack} else {}
  {
    match child
    case NoChild => []
    case StackChild(stack) => stack.List()
    case MappingChild(rows, self) => if rows.Some? then rows.value else [self]
    case ListChild(rows) => rows
  }

  /** The rows of all children, in order. */
  function AllRows(children: seq<Child>): seq<Row>
    reads StacksOf(children)
  {
    if children == [] then []
    else
      var init := children[..|children| - 1];
      assert forall c :: c in init ==> c in children;
      AllRows(init) + RowsOf(children[|children| - 1])
  }

  lemma {:induction false} ChildrenInOrder(a: seq<Child>, b: seq<Child>)
    ensures AllRows(a + b) == AllRows(a) + AllRows(b)
  {
    if b == [] {
      assert a + b == a;
    } else {
      var m := |b| - 1;
      assert (a + b)[..|a + b| - 1] == a + b[..m];
      ChildrenInOrder(a, b[..m]);
    }
  }

  /** A stack counts as its list, a mapping as the list it carries or else as one row, and nothing as no row. */
  lemma ChildForms(stack: ErrorStack, rows: seq<Row>, self: Row)
    ensures AllRows([NoChild]) == [] && AllRows([MappingChild(None, self)]) == [self]
    ensures AllRows([ListChild(rows)]) == rows == AllRows([MappingChild(Some(rows), self)])
    ensures AllRows([StackChild(stack)]) == AsRows(AsList(Stack(stack.errors, stack.okElement)))
  {
    OnlyChild(NoChild);
    OnlyChild(StackChild(stack));
    OnlyChild(MappingChild(None, self));
    OnlyChild(MappingChild(Some(rows), self));
    OnlyChild(ListChild(rows));
  }

  lemma OnlyChild(child: Child)
    ensures AllRows([child]) == RowsOf(child)
  {
    assert [child][..0] == [];
    assert AllRows([]) + RowsOf(child) == RowsOf(child);
  }

  class ErrorStack {
    const traceId: string
    var errors: seq<ModuleError>
    var okElement: Option<ModuleError>

    function Value(): Stack
      reads this
    {
      Stack(errors, okElement)
    }

    /** A stack filled from rows, one push after another. */
    constructor (rows: seq<Row>, traceId: string)
      ensures Value() == Load(rows) && this.traceId == traceId
    {
      this.traceId := traceId;
      errors := [];
      okElement := None;
      new;
      for i := 0 to |rows|
        invariant Value() == Load(rows[..i])
      {
        var _ := PushError(FromLegacy(rows[i]));
        assert rows[..i + 1][..i] == rows[..i];
      }
      assert rows[..|rows|] == rows;
    }

    method PushError(error: ModuleError) returns (item: ModuleError)
      modifies this
      ensures Value() == Push(old(Value()), error) && item == error
    {
      item := error;
      if item.code == 0 {
        MarkOkElement(item);
        return;
      }
      okElement := None;
      errors := errors + [item];
    }

    method MarkOkElement(element: ModuleError)
      modifies this
      ensures Value() == MarkOk(old(Value()), element)
    {
      if errors != [] {
        return;
      }
      okElement := Some(element);
      errors := [];
    }

    /** Collects the children's failing rows first, so a stack may even be its own child. */
    method AdoptChildren(children: seq<Child>, stamp: Option<ModuleError>)
      modifies this
      ensures Value() == Adopt(old(Value()), old(AllRows(children)), stamp)
    {
      var childErrors: seq<ModuleError> := [];
      var rows := AllRows(children);
      for i := 0 to |rows|
        invariant childErrors == Failing(rows[..i])
        invariant Value() == old(Value())
      {
        if rows[i].code != Some(0) {
          childErrors := childErrors + [FromLegacy(rows[i])];
        }
        assert rows[..i + 1][..i] == rows[..i];
      }
      assert rows[..|rows|] == rows;
      if childErrors != [] {
        okElement := None;
        errors := errors + childErrors;
      } else if stamp.Some? {
        MarkOkElement(stamp.value);
      }
    }

    /** `as_list`. */
    function List(): seq<Row>
      reads this
    {
      AsRows(AsList(Value()))
    }
  }
}

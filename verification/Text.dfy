/** Text helpers shared by the tables: trimming, lower-casing, ordering and pair keys. */
module Text {
  import opened Wrappers

  /** Unicode White_Space, which both `trim` and the redaction scanner use. */
  predicate IsWhitespace(c: char) {
    var n := c as int;
    || 0x09 <= n <= 0x0d || n == 0x20 || n == 0x85 || n == 0xa0 || n == 0x1680
    || 0x2000 <= n <= 0x200a || n == 0x2028 || n == 0x2029 || n == 0x202f || n == 0x205f || n == 0x3000
  }

  /** Lower case over the ASCII letters, all that addresses and pool ids contain. */
  function LowerChar(c: char): char {
    if 'A' <= c <= 'Z' then c - 'A' + 'a' else c
  }

  function Lower(s: string): (r: string)
    ensures |r| == |s|
    ensures forall i :: 0 <= i < |s| ==> r[i] == LowerChar(s[i])
  {
    seq(|s|, i requires 0 <= i < |s| => LowerChar(s[i]))
  }

  function TrimStart(s: string): string {
    if s != [] && IsWhitespace(s[0]) then TrimStart(s[1..]) else s
  }

  function TrimEnd(s: string): (r: string)
    ensures r <= s
    ensures r == [] || !IsWhitespace(r[|r| - 1])
  {
    if s != [] && IsWhitespace(s[|s| - 1]) then TrimEnd(s[..|s| - 1]) else s
  }

  /** `norm`: trimmed and lower case; the form every stored address and pool id has. */
  function Norm(s: string): string {
    Lower(TrimEnd(TrimStart(s)))
  }

  function UpperChar(c: char): char {
    if 'a' <= c <= 'z' then c - 'a' + 'A' else c
  }

  /** A symbol's stored form: trimmed and upper case. */
  function Symbol(s: string): string {
    var t := TrimEnd(TrimStart(s));
    seq(|t|, i requires 0 <= i < |t| => UpperChar(t[i]))
  }

  predicate IsNorm(s: string) {
    Norm(s) == s
  }

  lemma TrimStartResult(s: string)
    ensures TrimStart(s) == [] || !IsWhitespace(TrimStart(s)[0])
  {
  }

  lemma NormIdempotent(s: string)
    ensures IsNorm(Norm(s))
  {
    var t := TrimEnd(TrimStart(s));
    TrimStartResult(s);
    assert t != [] ==> t[0] == TrimStart(s)[0];
    assert Lower(Lower(t)) == Lower(t);
  }

  /** The twenty-five white-space characters of Unicode. */
  lemma WhitespaceIs(c: char)
    ensures IsWhitespace(c) <==>
            c as int in [9, 10, 11, 12, 13, 32, 133, 160, 5760, 8192, 8193, 8194, 8195, 8196, 8197, 8198, 8199,
                         8200, 8201, 8202, 8232, 8233, 8239, 8287, 12288]
  {
  }

  predicate Blank(s: string) {
    forall i :: 0 <= i < |s| ==> IsWhitespace(s[i])
  }

  lemma {:induction false} TrimStartDrops(left: string, rest: string)
    requires Blank(left) && (rest == [] || !IsWhitespace(rest[0]))
    ensures TrimStart(left + rest) == rest
  {
    if left != [] {
      assert (left + rest)[1..] == left[1..] + rest;
      TrimStartDrops(left[1..], rest);
    } else {
      assert left + rest == rest;
    }
  }

  lemma {:induction false} TrimEndDrops(rest: string, right: string)
    requires Blank(right) && (rest == [] || !IsWhitespace(rest[|rest| - 1]))
    ensures TrimEnd(rest + right) == rest
  {
    if right != [] {
      assert (rest + right)[..|rest| + |right| - 1] == rest + right[..|right| - 1];
      TrimEndDrops(rest, right[..|right| - 1]);
    } else {
      assert rest + right == rest;
    }
  }

  /** Normal form and symbol ignore blanks around a text; one has small letters only, the other capitals only. */
  lemma NormMeans(left: string, core: string, right: string)
    requires Blank(left) && Blank(right)
    requires core != [] ==> !IsWhitespace(core[0]) && !IsWhitespace(core[|core| - 1])
    ensures var n, u := Norm(left + core + right), Symbol(left + core + right);
            && |n| == |u| == |core|
            && (forall i :: 0 <= i < |core| ==>
                  && (if 'A' <= core[i] <= 'Z' then n[i] as int == core[i] as int + 32 else n[i] == core[i])
                  && (if 'a' <= core[i] <= 'z' then u[i] as int == core[i] as int - 32 else u[i] == core[i]))
  {
    if core == [] {
      assert Blank(left + right) && left + core + right == left + right + [];
      TrimStartDrops(left + right, []);
    } else {
      assert left + core + right == left + (core + right);
      TrimStartDrops(left, core + right);
      TrimEndDrops(core, right);
    }
  }

  lemma {:induction false} TrimBlank(s: string)
    ensures TrimStart(s) == [] <==> Blank(s)
  {
    if s != [] && IsWhitespace(s[0]) {
      TrimBlank(s[1..]);
      assert s == [s[0]] + s[1..];
    }
  }

  lemma {:induction false} TrimEndKeeps(s: string)
    requires s != [] && !IsWhitespace(s[0])
    ensures TrimEnd(s) != []
  {
    if |s| > 1 && IsWhitespace(s[|s| - 1]) {
      TrimEndKeeps(s[..|s| - 1]);
    }
  }

  /** Only blanks have an empty normal form. */
  lemma NormBlank(s: string)
    ensures Norm(s) == "" <==> Blank(s)
  {
    TrimBlank(s);
    TrimStartResult(s);
    if !Blank(s) {
      TrimEndKeeps(TrimStart(s));
    }
  }

  // ----- lexicographic order -----

  /** The first difference decides, and a proper prefix comes first. */
  lemma {:induction false} LessMeans(common: string, a: string, b: string)
    requires a == [] || b == [] || a[0] != b[0]
    ensures Less(common + a, common + b) <==> b != [] && (a == [] || a[0] < b[0])
  {
    if common == [] {
      assert common + a == a && common + b == b;
    } else {
      assert (common + a)[1..] == common[1..] + a && (common + b)[1..] == common[1..] + b;
      LessMeans(common[1..], a, b);
    }
  }

  predicate Less(a: string, b: string) {
    b != [] && (a == [] || a[0] < b[0] || (a[0] == b[0] && Less(a[1..], b[1..])))
  }

  lemma {:induction false} LessTotal(a: string, b: string)
    ensures a != b ==> Less(a, b) || Less(b, a)
    ensures !(Less(a, b) && Less(b, a)) && !Less(a, a)
  {
    if a != [] && b != [] && a[0] == b[0] {
      LessTotal(a[1..], b[1..]);
      LessTotal(a[1..], a[1..]);
      assert a == [a[0]] + a[1..] && b == [b[0]] + b[1..];
    } else if a != [] {
      LessTotal(a[1..], a[1..]);
    }
  }

  lemma {:induction false} LessTransitive(a: string, b: string, c: string)
    requires Less(a, b) && Less(b, c)
    ensures Less(a, c)
  {
    if a != [] && a[0] == b[0] == c[0] {
      LessTransitive(a[1..], b[1..], c[1..]);
    }
  }

  // ----- pair keys -----

  predicate NoColon(s: string) {
    ':' !in s
  }

  /** The text key of an ordered pair of addresses. */
  function PairText(x: string, y: string): string {
    x + ":" + y
  }

  /** A pair without colons shares its key with no other pair, whatever that pair contains. */
  lemma PairTextInjective(x: string, y: string, u: string, v: string)
    requires NoColon(x) && NoColon(y)
    ensures PairText(x, y) == PairText(u, v) <==> x == u && y == v
  {
    if PairText(x, y) == PairText(u, v) {
      var k := PairText(x, y);
      assert k[|u|] == ':';
      assert forall j :: 0 <= j < |x| ==> k[j] == x[j] && k[j] != ':';
      assert forall j :: |x| < j < |k| ==> k[j] == y[j - |x| - 1] && k[j] != ':';
      assert k[..|x|] == x && k[..|u|] == u && k[|x| + 1..] == y && k[|u| + 1..] == v;
    }
  }

  function FirstColon(s: string): (i: nat)
    ensures i <= |s|
  {
    if s == "" || s[0] == ':' then 0 else 1 + FirstColon(s[1..])
  }

  /** `split(':')` into exactly two parts; None when there are fewer or more. */
  function SplitPair(key: string): Option<(string, string)> {
    var i := FirstColon(key);
    if i == |key| || ':' in key[i + 1..] then None else Some((key[..i], key[i + 1..]))
  }

  lemma {:induction false} FirstColonAfter(x: string, rest: string)
    requires NoColon(x)
    ensures FirstColon(x + ":" + rest) == |x|
  {
    var s := x + ":" + rest;
    if x != "" {
      assert x[0] in x && forall c :: c in x[1..] ==> c in x;
      assert s[1..] == x[1..] + ":" + rest;
      FirstColonAfter(x[1..], rest);
    }
  }

  lemma SplitPairText(x: string, y: string)
    requires NoColon(x) && NoColon(y)
    ensures SplitPair(PairText(x, y)) == Some((x, y))
  {
    FirstColonAfter(x, y);
    assert PairText(x, y)[..|x|] == x && PairText(x, y)[|x| + 1..] == y;
  }
}

/** The scanner that hides URL authorities in RPC error text. */
module Redaction {
  import opened Text

  const SCHEME := "://"
  const MARK := "[REDACTED]"

  predicate EndsAuthority(c: char) {
    c == '/' || c == '?' || c == '#' || IsWhitespace(c)
  }

  predicate SchemeAt(s: string, i: int) {
    0 <= i && i + 3 <= |s| && s[i] == ':' && s[i + 1] == '/' && s[i + 2] == '/'
  }

  /** `find("://")`: the first occurrence, or the length when there is none. */
  function FindScheme(s: string): (i: nat)
    ensures i <= |s| && (i < |s| ==> SchemeAt(s, i))
  {
    if s == [] || SchemeAt(s, 0) then 0 else 1 + FindScheme(s[1..])
  }

  lemma {:induction false} FindSchemeFirst(s: string)
    ensures forall j :: 0 <= j < FindScheme(s) ==> !SchemeAt(s, j)
  {
    if s != [] && !SchemeAt(s, 0) {
      FindSchemeFirst(s[1..]);
      assert forall j :: 1 <= j ==> SchemeAt(s, j) == SchemeAt(s[1..], j - 1);
    }
  }

  function AuthorityEnd(s: string): (i: nat)
    ensures i <= |s|
  {
    if s == [] || EndsAuthority(s[0]) then 0 else 1 + AuthorityEnd(s[1..])
  }

  lemma {:induction false} AuthorityEndFirst(s: string)
    ensures AuthorityEnd(s) < |s| ==> EndsAuthority(s[AuthorityEnd(s)])
    ensures forall j :: 0 <= j < AuthorityEnd(s) ==> !EndsAuthority(s[j])
  {
    if s != [] && !EndsAuthority(s[0]) {
      AuthorityEndFirst(s[1..]);
      assert forall j :: 1 <= j < |s| ==> s[j] == s[1..][j - 1];
    }
  }

  // ----- the text as alternating plain stretches and authorities -----

  datatype Doc = Plain(text: string) | Link(before: string, authority: string, after: Doc)

  function Render(d: Doc): string {
    match d
    case Plain(text) => text
    case Link(before, authority, after) => before + SCHEME + authority + Render(after)
  }

  predicate Closed(rest: string) {
    rest == [] || EndsAuthority(rest[0])
  }

  /** Each scheme mark is the first of what remains, and each authority is as long as it can be. */
  predicate WellFormed(d: Doc) {
    match d
    case Plain(text) => FindScheme(text) == |text|
    case Link(before, authority, after) =>
      && FindScheme(before + SCHEME) == |before|
      && AuthorityEnd(authority) == |authority|
      && Closed(Render(after))
      && WellFormed(after)
  }

  /** The document with one link in front. */
  function LinkAt(s: string, i: nat, e: nat, after: Doc): Doc
    requires i + 3 + e <= |s|
  {
    Link(s[..i], s[i + 3..][..e], after)
  }

  function Parse(s: string): Doc
    decreases |s|
  {
    var i := FindScheme(s);
    if i == |s| then Plain(s)
    else
      var tail := s[i + 3..];
      var e := AuthorityEnd(tail);
      LinkAt(s, i, e, Parse(tail[e..]))
  }

  /** The same text with every authority replaced by the mark. */
  function Mask(d: Doc): Doc {
    match d
    case Plain(_) => d
    case Link(before, _, after) => Link(before, MARK, Mask(after))
  }

  lemma FindSchemeIs(s: string, i: nat)
    requires i <= |s| && (i < |s| ==> SchemeAt(s, i))
    requires forall j :: 0 <= j < i ==> !SchemeAt(s, j)
    ensures FindScheme(s) == i
  {
    FindSchemeFirst(s);
  }

  lemma AuthorityEndIs(s: string, i: nat)
    requires i <= |s| && (i < |s| ==> EndsAuthority(s[i]))
    requires forall j :: 0 <= j < i ==> !EndsAuthority(s[j])
    ensures AuthorityEnd(s) == i
  {
    AuthorityEndFirst(s);
  }

  /** Whether a scheme mark starts at a place does not depend on text beyond the mark. */
  lemma SchemeAtPrefix(p: string, s: string, j: int)
    requires j + 3 <= |p|
    ensures SchemeAt(p + s, j) == SchemeAt(p, j)
  {
  }

  lemma FindInPrefix(before: string, s: string)
    ensures FindScheme(before + SCHEME) == |before| <==> FindScheme(before + SCHEME + s) == |before|
  {
    var p := before + SCHEME;
    assert SchemeAt(p, |before|);
    SchemeAtPrefix(p, s, |before|);
    FindSchemeFirst(p);
    FindSchemeFirst(p + s);
    forall j | 0 <= j < |before| ensures SchemeAt(p + s, j) == SchemeAt(p, j) {
      SchemeAtPrefix(p, s, j);
    }
    if FindScheme(p) == |before| {
      FindSchemeIs(p + s, |before|);
    }
    if FindScheme(p + s) == |before| {
      FindSchemeIs(p, |before|);
    }
  }

  lemma TakeScheme(s: string, i: nat)
    requires SchemeAt(s, i)
    ensures s[..i + 3] == s[..i] + SCHEME
    ensures s == s[..i] + SCHEME + s[i + 3..]
  {
  }

  lemma TakeAuthority(tail: string)
    ensures var e := AuthorityEnd(tail);
            && AuthorityEnd(tail[..e]) == e
            && tail == tail[..e] + tail[e..]
            && Closed(tail[e..])
  {
    AuthorityEndFirst(tail);
    AuthorityEndIs(tail[..AuthorityEnd(tail)], AuthorityEnd(tail));
  }

  lemma ConcatAssociative(a: string, b: string, c: string)
    ensures a + (b + c) == a + b + c
  {
  }

  lemma SplitAtScheme(s: string, i: nat, e: nat)
    requires i == FindScheme(s) < |s|
    requires e == AuthorityEnd(s[i + 3..])
    ensures var tail := s[i + 3..];
            && s == s[..i] + SCHEME + tail[..e] + tail[e..]
            && FindScheme(s[..i] + SCHEME) == i
            && AuthorityEnd(tail[..e]) == e
            && Closed(tail[e..])
  {
    var before, tail := s[..i], s[i + 3..];
    FindSchemeFirst(s);
    TakeScheme(s, i);
    FindInPrefix(before, tail);
    TakeAuthority(tail);
    ConcatAssociative(before + SCHEME, tail[..e], tail[e..]);
  }

  lemma {:induction false} ParseRenders(s: string)
    ensures Render(Parse(s)) == s && WellFormed(Parse(s))
    decreases |s|
  {
    var i := FindScheme(s);
    if i < |s| {
      var tail := s[i + 3..];
      var e := AuthorityEnd(tail);
      SplitAtScheme(s, i, e);
      ParseRenders(tail[e..]);
    }
  }

  /** An authority runs up to the first slash, question mark, number sign or white space, or to the end. */
  lemma AuthorityRuns(s: string)
    ensures var e := AuthorityEnd(s);
            && (forall j :: 0 <= j < e ==> s[j] !in {'/', '?', '#'} && !IsWhitespace(s[j]))
            && (e < |s| ==> s[e] in {'/', '?', '#'} || IsWhitespace(s[e]))
  {
    AuthorityEndFirst(s);
  }

  /** A text splits into stretches and authorities in exactly one way. */
  lemma {:induction false} ParseUnique(d: Doc)
    requires WellFormed(d)
    ensures Parse(Render(d)) == d
  {
    match d
    case Plain(text) =>
    case Link(before, authority, after) =>
      var rest := Render(after);
      var s := Render(d);
      FindInPrefix(before, authority + rest);
      assert s == before + SCHEME + (authority + rest);
      assert s[..|before|] == before && s[|before| + 3..] == authority + rest;
      AuthorityEndFirst(authority);
      AuthorityEndIs(authority + rest, |authority|);
      ParseUnique(after);
  }

  lemma MarkHasNoEnd()
    ensures AuthorityEnd(MARK) == |MARK|
  {
    AuthorityEndIs(MARK, |MARK|);
  }

  lemma {:induction false} MaskWellFormed(d: Doc)
    requires WellFormed(d)
    ensures WellFormed(Mask(d)) && Mask(Mask(d)) == Mask(d)
    ensures Closed(Render(d)) ==> Closed(Render(Mask(d)))
  {
    match d
    case Plain(_) =>
    case Link(before, authority, after) =>
      MaskWellFormed(after);
      MarkHasNoEnd();
      assert Render(d)[0] == (before + SCHEME)[0] == Render(Mask(d))[0];
  }

  // ----- the scanner -----

  function Redact(value: string): string {
    Render(Mask(Parse(value)))
  }

  /** One turn of the scan: copy up to the scheme, write the mark, skip the authority. */
  lemma RedactStep(s: string, i: nat, e: nat)
    requires i == FindScheme(s) < |s|
    requires e == AuthorityEnd(s[i + 3..])
    ensures Redact(s) == s[..i + 3] + MARK + Redact(s[i + 3..][e..])
  {
    var before, tail := s[..i], s[i + 3..];
    FindSchemeFirst(s);
    TakeScheme(s, i);
    RenderLink(before, tail[..e], Parse(tail[e..]));
  }

  /** A text without `://` stays as it is. */
  lemma RedactsNothing(s: string)
    requires forall i, j :: 0 <= i && j == i + 3 <= |s| ==> s[i..j] != "://"
    ensures Redact(s) == s
  {
    assert forall i :: SchemeAt(s, i) ==> s[i..i + 3] == "://";
  }

  /** What stands between the first `://` and the next `/`, `?`, `#` or white space becomes the marker. */
  lemma RedactsLink(before: string, authority: string, after: string)
    requires forall i, j :: 0 <= i < |before| && j == i + 3 ==> (before + "://")[i..j] != "://"
    requires forall i :: 0 <= i < |authority| ==> authority[i] !in {'/', '?', '#'} && !IsWhitespace(authority[i])
    requires after == "" || after[0] in {'/', '?', '#'} || IsWhitespace(after[0])
    ensures Redact(before + "://" + authority + after) == before + "://" + "[REDACTED]" + Redact(after)
  {
    var p, tail := before + "://", authority + after;
    assert forall i :: SchemeAt(p, i) ==> p[i..i + 3] == "://";
    FindSchemeIs(p, |before|);
    FindInPrefix(before, tail);
    AuthorityEndIs(tail, |authority|);
    assert tail[|authority|..] == after;
    LinkStep(before, tail, |authority|);
    ConcatAssociative(p, authority, after);
  }

  lemma LinkStep(before: string, tail: string, e: nat)
    requires FindScheme(before + SCHEME + tail) == |before| && e == AuthorityEnd(tail)
    ensures Redact(before + SCHEME + tail) == before + SCHEME + MARK + Redact(tail[e..])
  {
    var s := before + SCHEME + tail;
    assert s[|before| + 3..] == tail && s[..|before| + 3] == before + SCHEME;
    RedactStep(s, |before|, e);
  }

  lemma RenderLink(before: string, authority: string, after: Doc)
    ensures Render(Mask(Link(before, authority, after))) == before + SCHEME + MARK + Render(Mask(after))
  {
  }

  /** The output so far and the redaction of the rest make up the whole redaction. */
  ghost predicate Scanned(value: string, output: string, rest: string) {
    output + Redact(rest) == Redact(value)
  }

  lemma ConcatFour(a: string, b: string, c: string, d: string)
    ensures a + (b + c + d) == a + b + c + d
  {
  }

  lemma ScanStep(value: string, output: string, rest: string, i: nat, e: nat)
    requires Scanned(value, output, rest)
    requires i == FindScheme(rest) < |rest| && e == AuthorityEnd(rest[i + 3..])
    ensures Scanned(value, output + rest[..i + 3] + MARK, rest[i + 3..][e..])
  {
    RedactStep(rest, i, e);
    ConcatFour(output, rest[..i + 3], MARK, Redact(rest[i + 3..][e..]));
  }

  lemma ScanStart(value: string)
    ensures Scanned(value, "", value)
  {
    assert "" + Redact(value) == Redact(value);
  }

  method RedactRpcText(value: string) returns (output: string)
    ensures output == Redact(value)
  {
    output := "";
    var rest := value;
    var i := FindScheme(rest);
    ScanStart(value);
    while i < |rest|
      invariant i == FindScheme(rest)
      invariant Scanned(value, output, rest)
      decreases |rest|
    {
      var afterScheme := rest[i + 3..];
      var e := AuthorityEnd(afterScheme);
      ScanStep(value, output, rest, i, e);
      output := output + rest[..i + 3];
      output := output + MARK;
      rest := afterScheme[e..];
      i := FindScheme(rest);
    }
    output := output + rest;
  }

  predicate Marked(s: string, i: int) {
    0 <= i && i + 3 + |MARK| <= |s| && s[i + 3..i + 3 + |MARK|] == MARK
  }

  /** A stretch whose only scheme mark is at n, whatever text follows it. */
  ghost predicate OnlyScheme(link: string, n: nat) {
    && n + 3 <= |link|
    && (forall i :: 0 <= i < n ==> !SchemeAt(link, i))
    && (forall i :: n < i < |link| ==> link[i] != ':')
  }

  lemma MarkHasNoColon(k: nat)
    requires k < |MARK|
    ensures MARK[k] != ':'
  {
  }

  lemma MaskedLinkOnly(before: string)
    requires FindScheme(before + SCHEME) == |before|
    ensures OnlyScheme(before + SCHEME + MARK, |before|)
  {
    var p := before + SCHEME;
    var link := p + MARK;
    FindSchemeFirst(p);
    forall i | 0 <= i < |before| ensures !SchemeAt(link, i) {
      SchemeAtPrefix(p, MARK, i);
    }
    forall i | |before| < i < |link| ensures link[i] != ':' {
      if i < |p| {
        assert link[i] == p[i] == SCHEME[i - |before|];
      } else {
        MarkHasNoColon(i - |p|);
      }
    }
  }

  lemma SchemeInTail(p: string, rest: string, k: nat)
    requires SchemeAt(p + rest, |p| + k)
    ensures SchemeAt(rest, k)
    ensures Marked(rest, k) ==> Marked(p + rest, |p| + k)
  {
  }

  lemma MarkedAtFirst(before: string, rest: string)
    ensures Marked(before + SCHEME + MARK + rest, |before|)
  {
  }

  ghost predicate AllMarked(s: string) {
    forall i :: SchemeAt(s, i) ==> Marked(s, i)
  }

  lemma LinkAllMarked(link: string, n: nat, rest: string)
    requires OnlyScheme(link, n) && Marked(link + rest, n) && AllMarked(rest)
    ensures AllMarked(link + rest)
  {
    forall i | SchemeAt(link + rest, i) ensures Marked(link + rest, i) {
      if i >= |link| {
        SchemeInTail(link, rest, i - |link|);
      } else {
        assert (link + rest)[i] == link[i];
        if i < n {
          SchemeAtPrefix(link, rest, i);
        }
      }
    }
  }

  lemma {:induction false} MaskedSchemes(d: Doc)
    requires WellFormed(d)
    ensures AllMarked(Render(Mask(d)))
  {
    match d
    case Plain(text) =>
      FindSchemeFirst(text);
    case Link(before, authority, after) =>
      MaskedSchemes(after);
      var rest := Render(Mask(after));
      MaskedLinkOnly(before);
      MarkedAtFirst(before, rest);
      LinkAllMarked(before + SCHEME + MARK, |before|, rest);
  }

  /** In the output every scheme mark is followed at once by the marker. */
  lemma NothingExposed(value: string)
    ensures AllMarked(Redact(value))
  {
    ParseRenders(value);
    MaskedSchemes(Parse(value));
  }

  /** Redacting again changes nothing. */
  lemma RedactIdempotent(value: string)
    ensures Redact(Redact(value)) == Redact(value)
  {
    ParseRenders(value);
    MaskWellFormed(Parse(value));
    ParseUnique(Mask(Parse(value)));
  }

  /** Two texts come out the same exactly when they agree on everything outside authorities. */
  lemma RevealsOnlyOutside(a: string, b: string)
    ensures Redact(a) == Redact(b) <==> Mask(Parse(a)) == Mask(Parse(b))
  {
    ParseRenders(a);
    ParseRenders(b);
    MaskWellFormed(Parse(a));
    MaskWellFormed(Parse(b));
    ParseUnique(Mask(Parse(a)));
    ParseUnique(Mask(Parse(b)));
  }
}

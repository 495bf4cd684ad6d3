/**
  The two regular expressions of the parser (internal/parser/parser.go),
  written as leftmost-first matchers over the text:

    build method   Widget\s+build\s*\(\s*BuildContext\s+context\s*\)\s*{([\s\S]*?)\n}
    return value   return\s+([\s\S]+?);

  Go's regexp reports the match that starts leftmost and, among those, the one
  a backtracking matcher would find first (greedy runs as long as possible,
  lazy runs as short as possible). In its syntax `\s` is `[\t\n\f\r ]`.
*/
module Locate {
  import opened Wrappers
  import opened GoStrings

  /** `\s` of Go's regexp syntax. */
  predicate ReSpace(c: char)
  {
    c == '\t' || c == '\n' || c == '\U{000C}' || c == '\r' || c == ' '
  }

  predicate AllReSpace(x: string)
  {
    forall n :: 0 <= n < |x| ==> ReSpace(x[n])
  }

  /** `lit` occurs in `s` at position `i`. */
  predicate At(s: string, i: nat, lit: string)
  {
    i + |lit| <= |s| && s[i..i + |lit|] == lit
  }

  /** The end of the longest run of `\s` that starts at `i`. */
  function SkipSpaces(s: string, i: nat): (j: nat)
    requires i <= |s|
    ensures i <= j <= |s|
    ensures forall k :: i <= k < j ==> ReSpace(s[k])
    ensures j < |s| ==> !ReSpace(s[j])
    decreases |s| - i
  {
    if i < |s| && ReSpace(s[i]) then SkipSpaces(s, i + 1) else i
  }

  // ---------------------------------------------------------------------------
  // Literal text interleaved with runs of white space
  // ---------------------------------------------------------------------------

  /** A pattern: literal text and runs of `\s*` / `\s+`, in order. */
  datatype Pattern = Done | Lit(text: string, rest: Pattern) | Ws(atLeastOne: bool, rest: Pattern)

  /** The language of a pattern: the texts it matches in full. */
  predicate Matches(p: Pattern, t: string)
    decreases p
  {
    match p
    case Done => t == []
    case Lit(l, rest) => HasPrefix(t, l) && Matches(rest, t[|l|..])
    case Ws(one, rest) =>
      exists k :: (if one then 1 else 0) <= k <= |t| && AllReSpace(t[..k]) && Matches(rest, t[k..])
  }

  /** Every white-space run is followed by text that starts with a non-space. */
  predicate WellFormed(p: Pattern)
  {
    match p
    case Done => true
    case Lit(_, rest) => WellFormed(rest)
    case Ws(_, rest) => rest.Lit? && rest.text != [] && !ReSpace(rest.text[0]) && WellFormed(rest)
  }

  /** Matching from `i` with every white-space run taken as long as it goes. */
  function GreedyMatch(p: Pattern, s: string, i: nat): (r: Option<nat>)
    requires i <= |s|
    ensures r.Some? ==> i <= r.value <= |s|
    decreases p
  {
    match p
    case Done => Some(i)
    case Lit(l, rest) => if At(s, i, l) then GreedyMatch(rest, s, i + |l|) else None
    case Ws(one, rest) =>
      var j := SkipSpaces(s, i);
      if one && j == i then None else GreedyMatch(rest, s, j)
  }

  /** What the greedy matcher consumes is in the pattern's language. */
  lemma {:induction false} GreedySound(p: Pattern, s: string, i: nat)
    requires i <= |s| && GreedyMatch(p, s, i).Some?
    ensures Matches(p, s[i..GreedyMatch(p, s, i).value])
    decreases p
  {
    var j := GreedyMatch(p, s, i).value;
    var t := s[i..j];
    match p
    case Done =>
    case Lit(l, rest) =>
      GreedySound(rest, s, i + |l|);
      assert t[..|l|] == s[i..i + |l|];
      assert t[|l|..] == s[i + |l|..j];
    case Ws(one, rest) =>
      var m := SkipSpaces(s, i);
      GreedySound(rest, s, m);
      var k := m - i;
      assert t[k..] == s[m..j];
      assert AllReSpace(t[..k]) by {
        forall n | 0 <= n < k ensures ReSpace(t[..k][n]) {
          assert t[..k][n] == s[i + n];
        }
      }
  }

  /**
    On a well-formed pattern the greedy matcher is exact: whenever the text
    from `i` to `j` is in the language, greedy matching from `i` ends at `j`.
  */
  lemma {:induction false} GreedyComplete(p: Pattern, s: string, i: nat, j: nat)
    requires WellFormed(p) && i <= j <= |s| && Matches(p, s[i..j])
    ensures GreedyMatch(p, s, i) == Some(j)
    decreases p
  {
    match p
    case Done =>
      assert |s[i..j]| == j - i;
    case Lit(l, rest) =>
      LitStep(l, rest, s, i, j);
      GreedyComplete(rest, s, i + |l|, j);
      GreedyLit(l, rest, s, i);
    case Ws(one, rest) =>
      var k := WsStep(one, rest, s, i, j);
      GreedyComplete(rest, s, i + k, j);
      GreedyWs(one, rest, s, i, k);
  }

  /** The greedy matcher past a literal that is there. */
  lemma GreedyLit(l: string, rest: Pattern, s: string, i: nat)
    requires i + |l| <= |s| && At(s, i, l)
    ensures GreedyMatch(Lit(l, rest), s, i) == GreedyMatch(rest, s, i + |l|)
  {
  }

  /** The greedy matcher past the longest run of white space. */
  lemma GreedyWs(one: bool, rest: Pattern, s: string, i: nat, k: nat)
    requires i + k <= |s| && SkipSpaces(s, i) == i + k && (one ==> k >= 1)
    ensures GreedyMatch(Ws(one, rest), s, i) == GreedyMatch(rest, s, i + k)
  {
  }

  /** A text matched by `l` then `rest` starts with `l`, and `rest` matches what follows. */
  lemma LitStep(l: string, rest: Pattern, s: string, i: nat, j: nat)
    requires i <= j <= |s| && Matches(Lit(l, rest), s[i..j])
    ensures At(s, i, l) && i + |l| <= j && Matches(rest, s[i + |l|..j])
  {
    var t := s[i..j];
    assert s[i..i + |l|] == t[..|l|];
    assert t[|l|..] == s[i + |l|..j];
  }

  /**
    In a text matched by a white-space run then non-space text, the run ends
    where the longest run of white space from `i` ends.
  */
  lemma WsStep(one: bool, rest: Pattern, s: string, i: nat, j: nat) returns (k: nat)
    requires WellFormed(Ws(one, rest)) && i <= j <= |s| && Matches(Ws(one, rest), s[i..j])
    ensures i + k <= j && SkipSpaces(s, i) == i + k && (one ==> k >= 1) && Matches(rest, s[i + k..j])
  {
    var t := s[i..j];
    k :| (if one then 1 else 0) <= k <= |t| && AllReSpace(t[..k]) && Matches(rest, t[k..]);
    assert HasPrefix(t[k..], rest.text);
    assert s[i + k] == rest.text[0];
    forall n | i <= n < i + k ensures ReSpace(s[n]) {
      assert s[n] == t[..k][n - i];
    }
    assert t[k..] == s[i + k..j];
  }

  // ---------------------------------------------------------------------------
  // The build method
  // ---------------------------------------------------------------------------

  /** `Widget\s+build\s*\(\s*BuildContext\s+context\s*\)\s*{` */
  const BuildHeader: Pattern :=
    Lit("Widget", Ws(true, Lit("build", Ws(false, Lit("(", Ws(false,
    Lit("BuildContext", Ws(true, Lit("context", Ws(false, Lit(")", Ws(false,
    Lit("{", Done)))))))))))))

  lemma BuildHeaderWellFormed()
    ensures WellFormed(BuildHeader)
  {
  }

  /** The first "\n}" at or after `h`: where the lazy body `([\s\S]*?)` stops. */
  function CloseBrace(s: string, h: nat): (r: Option<nat>)
    requires h <= |s|
    ensures r.Some? ==> h <= r.value && At(s, r.value, "\n}")
    ensures r.Some? ==> forall q :: h <= q < r.value ==> !At(s, q, "\n}")
    ensures r.None? ==> forall q :: h <= q <= |s| ==> !At(s, q, "\n}")
    decreases |s| - h
  {
    if At(s, h, "\n}") then Some(h)
    else if h == |s| then None
    else CloseBrace(s, h + 1)
  }

  /** Where a match starts, where its captured group starts and where it ends. */
  datatype Span = Span(start: nat, groupStart: nat, groupEnd: nat)

  /** The match of `header([\s\S]*?)\n}` that starts at `i`, if there is one. */
  function BuildMatchAt(header: Pattern, s: string, i: nat): (r: Option<Span>)
    requires i <= |s|
    ensures r.Some? ==> r.value.start == i && i <= r.value.groupStart <= r.value.groupEnd <= |s|
  {
    match GreedyMatch(header, s, i)
    case None => None
    case Some(h) =>
      match CloseBrace(s, h)
      case None => None
      case Some(q) => Some(Span(i, h, q))
  }

  function BuildMatchFrom(header: Pattern, s: string, i: nat): (r: Option<Span>)
    requires i <= |s|
    ensures r.Some? ==> i <= r.value.start <= |s| && BuildMatchAt(header, s, r.value.start) == r
    ensures r.Some? ==> forall n :: i <= n < r.value.start ==> BuildMatchAt(header, s, n).None?
    ensures r.None? ==> forall n :: i <= n <= |s| ==> BuildMatchAt(header, s, n).None?
    decreases |s| - i
  {
    if BuildMatchAt(header, s, i).Some? then BuildMatchAt(header, s, i)
    else if i == |s| then None
    else BuildMatchFrom(header, s, i + 1)
  }

  /** The leftmost match of the build pattern. */
  function LocateBuild(s: string): (r: Option<Span>)
    ensures r.Some? ==> r.value.start <= |s| && BuildMatchAt(BuildHeader, s, r.value.start) == r
    ensures r.Some? ==> forall n :: 0 <= n < r.value.start ==> BuildMatchAt(BuildHeader, s, n).None?
    ensures r.None? ==> forall n :: 0 <= n <= |s| ==> BuildMatchAt(BuildHeader, s, n).None?
  {
    BuildMatchFrom(BuildHeader, s, 0)
  }

  /** findBuildMethod: the captured body, or "" when there is no match. */
  function FindBuildMethod(content: string): string
  {
    match LocateBuild(content)
    case None => ""
    case Some(m) => content[m.groupStart..m.groupEnd]
  }

  /**
    What the located build method is: the header pattern matches from the
    start of the match to the start of the body, the body is followed by
    "\n}" and holds no "\n}" of its own, and no header matched earlier is
    followed by a "\n}".
  */
  lemma BuildMethodMeaning(content: string)
    requires LocateBuild(content).Some?
    ensures var m := LocateBuild(content).value;
      Matches(BuildHeader, content[m.start..m.groupStart])
      && At(content, m.groupEnd, "\n}")
      && FindBuildMethod(content) == content[m.groupStart..m.groupEnd]
      && (forall q :: m.groupStart <= q < m.groupEnd ==> !At(content, q, "\n}"))
  {
    var m := LocateBuild(content).value;
    GreedySound(BuildHeader, content, m.start);
  }

  /** With no header-and-body match anywhere in the text, findBuildMethod gives "". */
  lemma NoBuildMethod(content: string)
    requires forall n :: 0 <= n <= |content| ==> BuildMatchAt(BuildHeader, content, n).None?
    ensures LocateBuild(content).None?
    ensures FindBuildMethod(content) == ""
  {
  }

  /** Where the header pattern matches a text, it matches only one way. */
  lemma BuildHeaderUnique(content: string, i: nat, h: nat)
    requires i <= h <= |content| && Matches(BuildHeader, content[i..h])
    ensures GreedyMatch(BuildHeader, content, i) == Some(h)
  {
    BuildHeaderWellFormed();
    GreedyComplete(BuildHeader, content, i, h);
  }

  // ---------------------------------------------------------------------------
  // The return statement
  // ---------------------------------------------------------------------------

  /**
    One way the return pattern can match at `i`: "return", then the white
    space from `i + 6` to `g` (at least one character), then the group from
    `g` to `e` (at least one character of any kind), then ';' at `e`.
  */
  predicate ReturnInstance(b: string, i: nat, g: int, e: int)
  {
    At(b, i, "return") && i + 6 < g < e < |b| && (forall n :: i + 6 <= n < g ==> ReSpace(b[n])) && b[e] == ';'
  }

  /** The first ';' at or after `k`. */
  function SemicolonFrom(b: string, k: nat): (r: Option<nat>)
    requires k <= |b|
    ensures r.Some? ==> k <= r.value < |b| && b[r.value] == ';'
    ensures r.Some? ==> forall n :: k <= n < r.value ==> b[n] != ';'
    ensures r.None? ==> forall n :: k <= n < |b| ==> b[n] != ';'
    decreases |b| - k
  {
    if k == |b| then None
    else if b[k] == ';' then Some(k)
    else SemicolonFrom(b, k + 1)
  }

  /**
    The match at `i` that Go's regexp prefers: the longest white-space run for
    which some ';' follows, and then the shortest group. Giving back white
    space only helps when the ';' directly follows the run: the run then
    lends its last character to the group.
  */
  function ReturnMatchAt(b: string, i: nat): (r: Option<Span>)
    requires i <= |b|
    ensures r.Some? ==> r.value.start == i && r.value.groupStart < r.value.groupEnd < |b|
    ensures r.Some? ==> forall n :: r.value.groupStart < n < r.value.groupEnd ==> b[n] != ';'
  {
    if !At(b, i, "return") then None
    else
      var g := SkipSpaces(b, i + 6);
      if g == i + 6 || g == |b| then None
      else match SemicolonFrom(b, g + 1)
        case Some(e) => Some(Span(i, g, e))
        case None => if g >= i + 8 && b[g] == ';' then Some(Span(i, g - 1, g)) else None
  }

  /**
    ReturnMatchAt is the preferred instance of the pattern at `i`: it is an
    instance; no instance has a longer white-space run; among those with the
    same run none has a shorter group; and when it finds nothing there is
    no instance at all.
  */
  lemma ReturnMatchAtPreferred(b: string, i: nat)
    requires i <= |b|
    ensures ReturnMatchAt(b, i).Some? ==> var m := ReturnMatchAt(b, i).value;
      m.start == i && ReturnInstance(b, i, m.groupStart, m.groupEnd)
      && forall g, e :: ReturnInstance(b, i, g, e) ==>
        g < m.groupStart || (g == m.groupStart && m.groupEnd <= e)
    ensures ReturnMatchAt(b, i).None? ==> forall g, e :: !ReturnInstance(b, i, g, e)
  {
    if At(b, i, "return") {
      var w := SkipSpaces(b, i + 6);
      forall g, e | ReturnInstance(b, i, g, e) ensures g <= w {
      }
      if w != i + 6 && w != |b| {
        match SemicolonFrom(b, w + 1)
        case Some(e0) =>
          forall g, e | ReturnInstance(b, i, g, e) && g == w ensures e0 <= e {
          }
        case None =>
          forall g, e | ReturnInstance(b, i, g, e) ensures g <= w - 1 && e == w && b[w] == ';' {
          }
      }
    }
  }

  function ReturnMatchFrom(b: string, i: nat): (r: Option<Span>)
    requires i <= |b|
    ensures r.Some? ==> i <= r.value.start <= |b| && ReturnMatchAt(b, r.value.start) == r
    ensures r.Some? ==> forall n :: i <= n < r.value.start ==> ReturnMatchAt(b, n).None?
    ensures r.None? ==> forall n :: i <= n <= |b| ==> ReturnMatchAt(b, n).None?
    decreases |b| - i
  {
    if ReturnMatchAt(b, i).Some? then ReturnMatchAt(b, i)
    else if i == |b| then None
    else ReturnMatchFrom(b, i + 1)
  }

  /** The leftmost match of the return pattern in the body of the build method. */
  function LocateReturn(body: string): (r: Option<Span>)
    ensures r.Some? ==> var m := r.value;
      m.start <= |body| && ReturnMatchAt(body, m.start) == r
      && ReturnInstance(body, m.start, m.groupStart, m.groupEnd)
      && forall n, g, e :: 0 <= n < m.start ==> !ReturnInstance(body, n, g, e)
    ensures r.None? ==> forall n, g, e :: !ReturnInstance(body, n, g, e)
  {
    var r := ReturnMatchFrom(body, 0);
    assert forall n, g, e :: 0 <= n <= |body| && ReturnMatchAt(body, n).None? ==> !ReturnInstance(body, n, g, e) by {
      forall n, g, e | 0 <= n <= |body| && ReturnMatchAt(body, n).None? ensures !ReturnInstance(body, n, g, e) {
        ReturnMatchAtPreferred(body, n);
      }
    }
    assert r.Some? ==> ReturnInstance(body, r.value.start, r.value.groupStart, r.value.groupEnd) by {
      if r.Some? {
        ReturnMatchAtPreferred(body, r.value.start);
      }
    }
    r
  }

  /** The captured return value; non-empty, and the text before its ';'. */
  function ReturnExpression(body: string): (r: Option<string>)
    ensures r.Some? ==> r.value != [] && ';' !in r.value[1..]
    ensures r.None? <==> forall n, g, e :: !ReturnInstance(body, n, g, e)
  {
    match LocateReturn(body)
    case None => None
    case Some(m) =>
      var v := body[m.groupStart..m.groupEnd];
      assert forall n :: 0 <= n < |v[1..]| ==> v[1..][n] == body[m.groupStart + 1 + n];
      Some(v)
  }
}

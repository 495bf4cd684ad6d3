/**
  The parts of Go's `strings` package that the parser and the generator call,
  written over `string` (a sequence of Unicode code points). Go works on UTF-8
  bytes; every delimiter the core looks for is ASCII, and no byte of a
  multi-byte UTF-8 sequence is an ASCII byte, so scanning code points finds the
  same delimiters. Case mapping is modelled for ASCII letters only.
*/
module GoStrings {
  import opened Wrappers

  // ---------------------------------------------------------------------------
  // Whitespace and trimming
  // ---------------------------------------------------------------------------

  /** unicode.IsSpace: the Latin-1 spaces plus the other White_Space code points. */
  predicate IsSpace(c: char)
  {
    c == '\t' || c == '\n' || c == '\U{000B}' || c == '\U{000C}' || c == '\r' || c == ' '
    || c == '\U{0085}' || c == '\U{00A0}' || c == '\U{1680}'
    || ('\U{2000}' <= c <= '\U{200A}')
    || c == '\U{2028}' || c == '\U{2029}' || c == '\U{202F}' || c == '\U{205F}' || c == '\U{3000}'
  }

  function TrimLeftSpace(s: string): (r: string)
    ensures |r| <= |s|
  {
    if s != [] && IsSpace(s[0]) then TrimLeftSpace(s[1..]) else s
  }

  function TrimRightSpace(s: string): (r: string)
    ensures |r| <= |s|
  {
    if s != [] && IsSpace(s[|s| - 1]) then TrimRightSpace(s[..|s| - 1]) else s
  }

  /** strings.TrimSpace: drop leading and trailing white space. */
  function TrimSpace(s: string): (r: string)
    ensures |r| <= |s|
  {
    TrimRightSpace(TrimLeftSpace(s))
  }

  /** TrimLeftSpace drops exactly the leading run of white space. */
  lemma {:induction false} TrimLeftSpaceMeaning(s: string)
    ensures var r := TrimLeftSpace(s);
      r == s[|s| - |r|..] && (forall i :: 0 <= i < |s| - |r| ==> IsSpace(s[i])) && (r != [] ==> !IsSpace(r[0]))
    decreases |s|
  {
    if s != [] && IsSpace(s[0]) {
      TrimLeftSpaceMeaning(s[1..]);
    }
  }

  /** TrimRightSpace drops exactly the trailing run of white space. */
  lemma {:induction false} TrimRightSpaceMeaning(s: string)
    ensures var r := TrimRightSpace(s);
      r == s[..|r|] && (forall i :: |r| <= i < |s| ==> IsSpace(s[i])) && (r != [] ==> !IsSpace(r[|r| - 1]))
    decreases |s|
  {
    if s != [] && IsSpace(s[|s| - 1]) {
      TrimRightSpaceMeaning(s[..|s| - 1]);
    }
  }

  /**
    TrimSpace keeps the slice of its input that starts after the leading
    white space; the slice neither starts nor ends with white space, and it is
    empty exactly when the input is all white space.
  */
  lemma TrimSpaceMeaning(s: string)
    ensures var r, a := TrimSpace(s), |s| - |TrimLeftSpace(s)|;
      a + |r| <= |s| && r == s[a..a + |r|]
      && (r != [] ==> !IsSpace(r[0]) && !IsSpace(r[|r| - 1]))
      && (r == [] <==> forall i :: 0 <= i < |s| ==> IsSpace(s[i]))
  {
    var l := TrimLeftSpace(s);
    TrimLeftSpaceMeaning(s);
    TrimRightSpaceMeaning(l);
    var r := TrimSpace(s);
    var a := |s| - |l|;
    assert r == l[..|r|];
    assert r == s[a..a + |r|];
    if r == [] {
      assert forall i :: 0 <= i < |s| ==> IsSpace(s[i]);
    } else {
      assert s[a] == r[0];
    }
  }

  /** strings.Trim(s, cutset): drop leading and trailing characters of `cut`. */
  function TrimCutset(s: string, cut: set<char>): (r: string)
    ensures |r| <= |s|
    ensures r != [] ==> r[0] !in cut && r[|r| - 1] !in cut
    ensures forall c :: c in r ==> c in s
    decreases |s|
  {
    if s == [] then s
    else if s[0] in cut then TrimCutset(s[1..], cut)
    else if s[|s| - 1] in cut then TrimCutset(s[..|s| - 1], cut)
    else s
  }

  // ---------------------------------------------------------------------------
  // Prefixes, suffixes and searching
  // ---------------------------------------------------------------------------

  predicate HasPrefix(s: string, p: string)
  {
    |p| <= |s| && s[..|p|] == p
  }

  predicate HasSuffix(s: string, p: string)
  {
    |p| <= |s| && s[|s| - |p|..] == p
  }

  /** strings.Contains. */
  predicate Contains(s: string, t: string)
    decreases |s|
  {
    HasPrefix(s, t) || (s != [] && Contains(s[1..], t))
  }

  /** Looking for a one-character string is looking for the character. */
  lemma {:induction false} ContainsChar(s: string, c: char)
    ensures Contains(s, [c]) <==> c in s
    decreases |s|
  {
    if s != [] {
      ContainsChar(s[1..], c);
      assert s == [s[0]] + s[1..];
    }
  }

  /** strings.TrimPrefix. */
  function TrimPrefix(s: string, p: string): (r: string)
    ensures |r| <= |s|
  {
    if HasPrefix(s, p) then s[|p|..] else s
  }

  /** strings.TrimSuffix. */
  function TrimSuffix(s: string, p: string): (r: string)
    ensures |r| <= |s|
  {
    if HasSuffix(s, p) then s[..|s| - |p|] else s
  }

  /** strings.Index / strings.IndexByte for one character: the first position of `c`. */
  function IndexOf(s: string, c: char): (r: Option<nat>)
    ensures r.None? <==> c !in s
    ensures r.Some? ==> r.value < |s| && s[r.value] == c && c !in s[..r.value]
  {
    if s == [] then None
    else if s[0] == c then Some(0)
    else
      match IndexOf(s[1..], c)
      case None => None
      case Some(k) =>
        assert s[..k + 1] == [s[0]] + s[1..][..k];
        Some(k + 1)
  }

  /** strings.ReplaceAll with a one-character pattern and replacement. */
  function ReplaceChar(s: string, a: char, b: char): (r: string)
    ensures |r| == |s|
    ensures forall i :: 0 <= i < |s| ==> r[i] == (if s[i] == a then b else s[i])
  {
    seq(|s|, i requires 0 <= i < |s| => if s[i] == a then b else s[i])
  }

  // ---------------------------------------------------------------------------
  // Joining and splitting
  // ---------------------------------------------------------------------------

  /** strings.Join. */
  function Join(xs: seq<string>, sep: string): string
  {
    if |xs| == 0 then ""
    else if |xs| == 1 then xs[0]
    else xs[0] + sep + Join(xs[1..], sep)
  }

  /** Joining one more element at the end adds a separator and that element. */
  lemma {:induction false} JoinSnoc(xs: seq<string>, x: string, sep: string)
    ensures Join(xs + [x], sep) == if xs == [] then x else Join(xs, sep) + sep + x
  {
    if |xs| >= 2 {
      assert (xs + [x])[1..] == xs[1..] + [x];
      JoinSnoc(xs[1..], x, sep);
    } else if |xs| == 1 {
      assert (xs + [x])[1..] == [x];
    }
  }

  /** strings.Split with a one-character separator. */
  function Split(s: string, sep: char): (r: seq<string>)
    ensures |r| >= 1
    decreases |s|
  {
    match IndexOf(s, sep)
    case None => [s]
    case Some(k) => [s[..k]] + Split(s[k + 1..], sep)
  }

  /** The pieces hold no separator, and joining them with it gives the text back. */
  lemma {:induction false} SplitMeaning(s: string, sep: char)
    ensures Join(Split(s, sep), [sep]) == s
    ensures forall i :: 0 <= i < |Split(s, sep)| ==> sep !in Split(s, sep)[i]
    decreases |s|
  {
    match IndexOf(s, sep)
    case None =>
    case Some(k) =>
      var rest := Split(s[k + 1..], sep);
      SplitMeaning(s[k + 1..], sep);
      assert Split(s, sep) == [s[..k]] + rest;
      assert ([s[..k]] + rest)[1..] == rest;
      assert s == s[..k] + [sep] + s[k + 1..];
      assert forall i :: 1 <= i < |rest| + 1 ==> ([s[..k]] + rest)[i] == rest[i - 1];
  }

  /** Text with no separator is one piece. */
  lemma SplitNone(s: string, sep: char)
    requires sep !in s
    ensures Split(s, sep) == [s]
  {
  }

  /** Text is split first at its first separator. */
  lemma SplitFirst(a: string, b: string, sep: char)
    requires sep !in a
    ensures Split(a + [sep] + b, sep) == [a] + Split(b, sep)
  {
    var s := a + [sep] + b;
    assert s[|a|] == sep;
    var k := IndexOf(s, sep).value;
    assert k == |a|;
    assert s[..k] == a;
    assert s[k + 1..] == b;
  }

  // ---------------------------------------------------------------------------
  // ASCII case mapping
  // ---------------------------------------------------------------------------

  predicate IsAsciiUpper(c: char) { 'A' <= c <= 'Z' }
  predicate IsAsciiLower(c: char) { 'a' <= c <= 'z' }
  predicate IsAsciiDigit(c: char) { '0' <= c <= '9' }

  function LowerChar(c: char): (r: char)
    ensures !IsAsciiUpper(r)
  {
    if IsAsciiUpper(c) then (c as int + 32) as char else c
  }

  function UpperChar(c: char): (r: char)
    ensures !IsAsciiLower(r)
  {
    if IsAsciiLower(c) then (c as int - 32) as char else c
  }

  /** strings.ToLower, for ASCII letters. */
  function ToLower(s: string): (r: string)
    ensures |r| == |s|
    ensures forall i :: 0 <= i < |s| ==> r[i] == LowerChar(s[i])
  {
    seq(|s|, i requires 0 <= i < |s| => LowerChar(s[i]))
  }

  /**
    The word-boundary test of strings.Title: ASCII letters, digits and `_`
    continue a word and every other ASCII character separates words; above
    ASCII, white space separates words and everything else continues one.
  */
  predicate IsTitleSeparator(c: char)
  {
    if c < '\U{0080}' then !IsAsciiUpper(c) && !IsAsciiLower(c) && !IsAsciiDigit(c) && c != '_'
    else IsSpace(c)
  }

  /** What strings.Title makes of the character at `i`. */
  function TitleChar(s: string, i: nat): char
    requires i < |s|
  {
    if i == 0 || IsTitleSeparator(s[i - 1]) then UpperChar(s[i]) else s[i]
  }

  /** strings.Title: upper-case every letter that starts a word. */
  function Title(s: string): (r: string)
    ensures |r| == |s|
    ensures forall i :: 0 <= i < |s| ==> r[i] == TitleChar(s, i)
  {
    seq(|s|, i requires 0 <= i < |s| => TitleChar(s, i))
  }

  // ---------------------------------------------------------------------------
  // A fixed order for iterating over the keys of a map
  // ---------------------------------------------------------------------------

  /** Lexicographic order on code points. */
  predicate LexLeq(a: string, b: string)
  {
    if a == [] then true
    else if b == [] then false
    else if a[0] != b[0] then a[0] < b[0]
    else LexLeq(a[1..], b[1..])
  }

  lemma {:induction false} LexLeqTotal(a: string, b: string)
    ensures LexLeq(a, b) || LexLeq(b, a)
  {
    if a != [] && b != [] && a[0] == b[0] {
      LexLeqTotal(a[1..], b[1..]);
    }
  }

  lemma {:induction false} LexLeqAntisymmetric(a: string, b: string)
    requires LexLeq(a, b) && LexLeq(b, a)
    ensures a == b
  {
    if a != [] && b != [] {
      LexLeqAntisymmetric(a[1..], b[1..]);
      assert a == [a[0]] + a[1..] && b == [b[0]] + b[1..];
    }
  }

  lemma {:induction false} LexLeqTransitive(a: string, b: string, c: string)
    requires LexLeq(a, b) && LexLeq(b, c)
    ensures LexLeq(a, c)
  {
    if a != [] && b != [] && c != [] && a[0] == b[0] && b[0] == c[0] {
      LexLeqTransitive(a[1..], b[1..], c[1..]);
    }
  }

  predicate IsLeast(k: string, s: set<string>)
  {
    k in s && forall j :: j in s ==> LexLeq(k, j)
  }

  lemma {:induction false} LeastExists(s: set<string>)
    requires s != {}
    ensures exists k :: IsLeast(k, s)
    decreases s
  {
    var x :| x in s;
    if s - {x} == {} {
      assert s == {x};
      LexLeqTotal(x, x);
      assert IsLeast(x, s);
    } else {
      LeastExists(s - {x});
      var m :| IsLeast(m, s - {x});
      LexLeqTotal(x, m);
      if LexLeq(x, m) {
        forall j | j in s ensures LexLeq(x, j) {
          if j != x { LexLeqTransitive(x, m, j); } else { LexLeqTotal(x, x); }
        }
        assert IsLeast(x, s);
      } else {
        assert IsLeast(m, s);
      }
    }
  }

  /** The least key of a non-empty set of keys. */
  function LeastKey(s: set<string>): (k: string)
    requires s != {}
    ensures k in s && forall j :: j in s ==> LexLeq(k, j)
  {
    LeastExists(s);
    assert forall a, b :: IsLeast(a, s) && IsLeast(b, s) ==> a == b by {
      forall a, b | IsLeast(a, s) && IsLeast(b, s) ensures a == b {
        LexLeqAntisymmetric(a, b);
      }
    }
    var k :| k in s && IsLeast(k, s);
    k
  }

  predicate NoDuplicates(xs: seq<string>)
  {
    forall i, j :: 0 <= i < j < |xs| ==> xs[i] != xs[j]
  }

  /**
    The iteration order the model uses for a Go map: its keys, each exactly
    once. Every property the model states about rendered maps holds whatever
    the order; the order itself is not part of any promise.
  */
  function SortedKeys(s: set<string>): (r: seq<string>)
    ensures |r| == |s|
    ensures forall k :: k in r <==> k in s
    ensures NoDuplicates(r)
    decreases s
  {
    if s == {} then []
    else
      var k := LeastKey(s);
      var rest := SortedKeys(s - {k});
      assert |s - {k}| == |s| - 1;
      [k] + rest
  }

  // ---------------------------------------------------------------------------
  // Concatenation facts the proofs lean on
  // ---------------------------------------------------------------------------

  /** A prefix one element longer is the prefix and that element. */
  lemma TakeOneMore<T>(s: seq<T>, i: nat)
    requires i < |s|
    ensures s[..i + 1] == s[..i] + [s[i]]
  {
  }

  lemma AppendAssoc<T>(a: seq<T>, b: seq<T>, c: seq<T>)
    ensures a + (b + c) == a + b + c
  {
  }

  lemma AppendAssociative<T>(c: seq<T>, h: seq<T>, r: seq<T>, mid: seq<T>, whole: seq<T>)
    requires mid == c + h && whole == mid + r
    ensures whole == c + (h + r)
  {
  }

  /** An empty text between two others drops out. */
  lemma EmptyDropped(a: string, b: string)
    ensures a + "" + b == a + b
  {
  }

  /** The last part of a right-nested concatenation is its suffix. */
  lemma SuffixReassociate(a: string, b: string, c: string, d: string, e: string)
    ensures a + (b + (c + (d + e))) == (a + (b + (c + d))) + e
    ensures HasSuffix(a + (b + (c + (d + e))), e)
  {
    assert a + (b + (c + (d + e))) == (a + (b + (c + d))) + e;
    assert ((a + (b + (c + d))) + e)[|a + (b + (c + d))|..] == e;
  }

  /** A text that starts with `h` and then `x` starts with `h` and any prefix of `x`. */
  lemma PrefixFront(h: string, x: string, p: string, rest: string)
    requires HasPrefix(x, p)
    ensures HasPrefix(h + x + rest, h + p)
  {
    assert (h + x + rest)[..|h + p|] == h + x[..|p|];
  }

  /** The head and tail of `pre + [x] + post`, with and without `x`. */
  lemma SplicedParts<T>(pre: seq<T>, x: T, post: seq<T>)
    ensures pre == [] ==> (pre + [x] + post)[0] == x && (pre + [x] + post)[1..] == post && pre + post == post
    ensures pre != [] ==> (pre + [x] + post)[0] == pre[0] && (pre + [x] + post)[1..] == pre[1..] + [x] + post
    ensures pre != [] ==> (pre + post)[0] == pre[0] && (pre + post)[1..] == pre[1..] + post
  {
    if pre == [] {
      assert pre + [x] + post == [x] + post;
    } else {
      assert pre + [x] + post == [pre[0]] + (pre[1..] + [x] + post);
      assert pre + post == [pre[0]] + (pre[1..] + post);
    }
  }
}

/**
  toCamelCase (internal/generator/js_generator.go): how the generator turns a
  widget or property name into a JavaScript identifier.

  A fixed table of names is kept (ThemeData alone comes out changed, as
  `themeData`); names of user components (prefix `My` or `Custom`) are kept;
  every other name is cut at '_', its first segment lower-cased and each later
  segment title-cased, and the segments are glued back without separators.
  The first segment is lower-cased throughout, so `appBar` becomes `appbar`.
*/
module Naming {
  import opened Wrappers
  import opened GoStrings

  /** The names toCamelCase answers from its table. */
  const Exceptions: map<string, string> := map[
    "MaterialApp" := "MaterialApp",
    "Scaffold" := "Scaffold",
    "AppBar" := "AppBar",
    "Text" := "Text",
    "Container" := "Container",
    "Row" := "Row",
    "Column" := "Column",
    "Button" := "Button",
    "TextField" := "TextField",
    "Card" := "Card",
    "ThemeData" := "themeData",
    "mainAxisAlignment" := "mainAxisAlignment",
    "fontSize" := "fontSize",
    "fontWeight" := "fontWeight"
  ]

  /** A user component: its name starts with `My` or `Custom`. */
  predicate IsCustomName(s: string)
  {
    HasPrefix(s, "My") || HasPrefix(s, "Custom")
  }

  /** Each segment as toCamelCase rewrites it: the first lower-cased, the others title-cased. */
  function CamelParts(parts: seq<string>): (r: seq<string>)
    ensures |r| == |parts|
    ensures forall i :: 0 <= i < |parts| ==> |r[i]| == |parts[i]|
  {
    seq(|parts|, i requires 0 <= i < |parts| => if i == 0 then ToLower(parts[i]) else Title(parts[i]))
  }

  function ToCamelCase(s: string): string
  {
    if s in Exceptions then Exceptions[s]
    else if IsCustomName(s) then s
    else Join(CamelParts(Split(s, '_')), "")
  }

  /** The loop of toCamelCase, rewriting the segments of `strings.Split` in place. */
  method CamelCase(s: string) returns (r: string)
    ensures r == ToCamelCase(s)
  {
    if s in Exceptions {
      return Exceptions[s];
    }
    if IsCustomName(s) {
      return s;
    }
    var parts := Split(s, '_');
    ghost var original := parts;
    var i := 0;
    while i < |parts|
      invariant 0 <= i <= |parts| == |original|
      invariant forall j :: 0 <= j < i ==> parts[j] == CamelParts(original)[j]
      invariant forall j :: i <= j < |parts| ==> parts[j] == original[j]
    {
      if i == 0 {
        parts := parts[i := ToLower(parts[i])];
      } else {
        parts := parts[i := Title(parts[i])];
      }
      i := i + 1;
    }
    assert parts == CamelParts(original);
    r := Join(parts, "");
  }

  // ---------------------------------------------------------------------------
  // What the result is
  // ---------------------------------------------------------------------------

  /** Total length of the strings of `xs`. */
  function SumLen(xs: seq<string>): nat
    decreases |xs|
  {
    if xs == [] then 0 else |xs[0]| + SumLen(xs[1..])
  }

  lemma {:induction false} SumLenEqual(xs: seq<string>, ys: seq<string>)
    requires |xs| == |ys| && forall i :: 0 <= i < |xs| ==> |xs[i]| == |ys[i]|
    ensures SumLen(xs) == SumLen(ys)
    decreases |xs|
  {
    if xs != [] {
      SumLenEqual(xs[1..], ys[1..]);
    }
  }

  lemma SumLenPrefix(xs: seq<string>, i: nat)
    requires 1 <= i <= |xs|
    ensures SumLen(xs[..i]) == |xs[0]| + SumLen(xs[1..][..i - 1])
  {
    assert xs[..i][1..] == xs[1..][..i - 1];
  }

  /** The strings before the `i`-th and the `i`-th itself fit in the total. */
  lemma {:induction false} SumLenPrefixBound(xs: seq<string>, i: nat)
    requires i < |xs|
    ensures SumLen(xs[..i]) + |xs[i]| <= SumLen(xs)
    decreases i
  {
    if i == 0 {
      assert xs[..0] == [];
    } else {
      SumLenPrefixBound(xs[1..], i - 1);
      SumLenPrefix(xs, i);
    }
  }

  /** Gluing strings together gives a string as long as all of them. */
  lemma {:induction false} GlueLength(xs: seq<string>)
    ensures |Join(xs, "")| == SumLen(xs)
    decreases |xs|
  {
    if |xs| >= 2 {
      GlueLength(xs[1..]);
    } else if |xs| == 1 {
      assert xs[1..] == [];
    }
  }

  /** The `i`-th glued string is the slice that starts where the ones before it end. */
  lemma {:induction false} GlueSlice(xs: seq<string>, i: nat)
    requires i < |xs|
    ensures SumLen(xs[..i]) + |xs[i]| <= |Join(xs, "")|
    ensures Join(xs, "")[SumLen(xs[..i])..SumLen(xs[..i]) + |xs[i]|] == xs[i]
    decreases i
  {
    GlueLength(xs);
    SumLenPrefixBound(xs, i);
    if i == 0 {
      assert xs[..0] == [];
      if |xs| >= 2 {
        assert Join(xs, "") == xs[0] + Join(xs[1..], "");
      }
    } else {
      var rest := xs[1..];
      GlueSlice(rest, i - 1);
      SumLenPrefix(xs, i);
      var j := Join(rest, "");
      var off := SumLen(rest[..i - 1]);
      assert Join(xs, "") == xs[0] + j;
      assert (xs[0] + j)[|xs[0]| + off..|xs[0]| + off + |xs[i]|] == j[off..off + |xs[i]|];
    }
  }

  /** Gluing strings without '_' gives a string without '_'. */
  lemma {:induction false} GlueHasNo(xs: seq<string>, c: char)
    requires forall i :: 0 <= i < |xs| ==> c !in xs[i]
    ensures c !in Join(xs, "")
    decreases |xs|
  {
    if |xs| >= 2 {
      GlueHasNo(xs[1..], c);
    }
  }

  /** Title-casing and lower-casing keep every character but the letters they change. */
  lemma CaseKeepsOther(s: string, c: char)
    requires c == '_' && c !in s
    ensures c !in ToLower(s) && c !in Title(s)
  {
    assert forall i :: 0 <= i < |s| ==> ToLower(s)[i] == LowerChar(s[i]);
    assert forall i :: 0 <= i < |s| ==> Title(s)[i] == TitleChar(s, i);
  }

  /** Table names are kept, all but ThemeData unchanged. */
  lemma ToCamelCaseTable(s: string)
    requires s in Exceptions
    ensures ToCamelCase(s) == if s == "ThemeData" then "themeData" else s
  {
  }

  /** A user component's name is kept as it is. */
  lemma ToCamelCaseCustom(s: string)
    requires IsCustomName(s)
    ensures ToCamelCase(s) == s
  {
    if HasPrefix(s, "My") {
      assert s[0] == 'M' && s[1] == 'y';
    } else {
      assert s[0] == 'C' && s[1] == 'u';
    }
    assert s !in Exceptions;
  }

  /**
    Any other name: the result has no '_'; one character per character of the
    name, less the separators; and each segment between separators is found in
    place, the first lower-cased, every later one title-cased.
  */
  lemma ToCamelCaseSegments(s: string)
    requires s !in Exceptions && !IsCustomName(s)
    ensures '_' !in ToCamelCase(s)
    ensures |ToCamelCase(s)| == |s| - (|Split(s, '_')| - 1)
    ensures forall i :: 0 <= i < |Split(s, '_')| ==> Segment(ToCamelCase(s), Split(s, '_'), i)
  {
    var parts := Split(s, '_');
    SplitMeaning(s, '_');
    ToCamelCaseGeneral(s);
    SegmentsGlued(s, parts, ToCamelCase(s));
  }

  /**
    The `i`-th of `parts` appears rewritten in `r` where the ones before it
    end: lower-cased if it is the first, title-cased otherwise.
  */
  predicate Segment(r: string, parts: seq<string>, i: nat)
    requires i < |parts|
  {
    var at := SumLen(parts[..i]);
    at + |parts[i]| <= |r|
    && r[at..at + |parts[i]|] == if i == 0 then ToLower(parts[0]) else Title(parts[i])
  }

  /** The same, for any cut of `s` at every '_'. */
  lemma SegmentsGlued(s: string, parts: seq<string>, r: string)
    requires parts != [] && Join(parts, "_") == s
    requires forall i :: 0 <= i < |parts| ==> '_' !in parts[i]
    requires r == Join(CamelParts(parts), "")
    ensures '_' !in r
    ensures |r| == |s| - (|parts| - 1)
    ensures forall i :: 0 <= i < |parts| ==> Segment(r, parts, i)
  {
    JoinLength(parts, '_');
    CamelGlue(parts);
  }

  lemma ToCamelCaseGeneral(s: string)
    requires s !in Exceptions && !IsCustomName(s)
    ensures ToCamelCase(s) == Join(CamelParts(Split(s, '_')), "")
  {
  }

  /** The rewritten segments glued together, for segments without '_'. */
  lemma CamelGlue(parts: seq<string>)
    requires forall i :: 0 <= i < |parts| ==> '_' !in parts[i]
    ensures '_' !in Join(CamelParts(parts), "")
    ensures |Join(CamelParts(parts), "")| == SumLen(parts)
    ensures forall i :: 0 <= i < |parts| ==> Segment(Join(CamelParts(parts), ""), parts, i)
  {
    var cp := CamelParts(parts);
    forall i | 0 <= i < |parts| ensures '_' !in cp[i] {
      CaseKeepsOther(parts[i], '_');
    }
    GlueHasNo(cp, '_');
    GlueLength(cp);
    SumLenEqual(cp, parts);
    forall i | 0 <= i < |parts|
      ensures Segment(Join(cp, ""), parts, i)
    {
      CamelSegment(parts, i);
    }
  }

  /** The `i`-th rewritten segment sits where the segments before it end. */
  lemma CamelSegment(parts: seq<string>, i: nat)
    requires i < |parts|
    ensures Segment(Join(CamelParts(parts), ""), parts, i)
  {
    var cp := CamelParts(parts);
    GlueSlice(cp, i);
    SumLenEqual(cp[..i], parts[..i]);
  }

  /** Joining with a one-character separator adds one character per separator. */
  lemma {:induction false} JoinLength(xs: seq<string>, sep: char)
    requires xs != []
    ensures |Join(xs, [sep])| == SumLen(xs) + |xs| - 1
    decreases |xs|
  {
    if |xs| >= 2 {
      JoinLength(xs[1..], sep);
    } else {
      assert xs[1..] == [];
    }
  }

  /** A name with no '_' (outside the table, not a component) is lower-cased whole. */
  lemma ToCamelCaseOneSegment(s: string)
    requires s !in Exceptions && !IsCustomName(s) && '_' !in s
    ensures ToCamelCase(s) == ToLower(s)
  {
    assert Split(s, '_') == [s];
    assert CamelParts([s]) == [ToLower(s)];
  }

  /** `appBar` is not in the table, so it comes out as `appbar`. */
  lemma AppBarLowered()
    ensures ToCamelCase("appBar") == "appbar"
  {
    var s := "appBar";
    assert s !in Exceptions;
    assert s[0] == 'a' && !IsCustomName(s);
    assert '_' !in s by {
      assert forall i :: 0 <= i < |s| ==> s[i] != '_';
    }
    ToCamelCaseOneSegment(s);
    assert ToLower(s) == "appbar" by {
      assert forall i :: 0 <= i < |s| ==> ToLower(s)[i] == LowerChar(s[i]);
    }
  }
}

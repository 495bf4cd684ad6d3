/**
  splitArgsTopLevel (internal/parser/parser.go): cut an argument string at the
  commas that lie outside every `(...)` and `[...]` pair.

  The scanner keeps two running depths that may go negative on unbalanced
  input; a comma splits only when both are zero. The piece left over at the
  end is kept only when it is non-empty.
*/
module Splitter {
  import opened GoStrings

  /** The scanner's variables: the two depths, the finished pieces, the open piece. */
  datatype ScanState = ScanState(paren: int, bracket: int, pieces: seq<string>, current: string)

  /** How a character moves the depth counted by `open` and `close`. */
  function Delta(c: char, open: char, close: char): int
  {
    if c == open then 1 else if c == close then -1 else 0
  }

  /**
    One iteration of the scanning loop: a comma at depth zero ends the open
    piece; any other character updates the depths and joins the open piece.
  */
  function Step(st: ScanState, c: char): ScanState
  {
    if c == ',' && st.paren == 0 && st.bracket == 0 then
      ScanState(st.paren, st.bracket, st.pieces + [st.current], "")
    else
      ScanState(st.paren + Delta(c, '(', ')'), st.bracket + Delta(c, '[', ']'), st.pieces, st.current + [c])
  }

  /** The scanner's variables after reading all of `s`. */
  function Scan(s: string): ScanState
    decreases |s|
  {
    if s == [] then ScanState(0, 0, [], "") else Step(Scan(s[..|s| - 1]), s[|s| - 1])
  }

  /** What splitArgsTopLevel returns; no piece is longer than the input. */
  function SplitTopLevel(s: string): (r: seq<string>)
    ensures s == [] ==> r == []
    ensures forall i :: 0 <= i < |r| ==> |r[i]| <= |s|
  {
    ScanBounded(s);
    var st := Scan(s);
    if |st.current| > 0 then st.pieces + [st.current] else st.pieces
  }

  /** No piece of the scanner is longer than the text read so far. */
  lemma {:induction false} ScanBounded(s: string)
    ensures forall i :: 0 <= i < |Scan(s).pieces| ==> |Scan(s).pieces[i]| <= |s|
    ensures |Scan(s).current| <= |s|
    decreases |s|
  {
    if s != [] {
      ScanBounded(s[..|s| - 1]);
    }
  }

  /** The loop of splitArgsTopLevel, with its `strings.Builder` as a growing string. */
  method SplitArgsTopLevel(s: string) returns (args: seq<string>)
    ensures args == SplitTopLevel(s)
  {
    args := [];
    var current := "";
    var paren, bracket := 0, 0;
    var i := 0;
    while i < |s|
      invariant 0 <= i <= |s|
      invariant Scan(s[..i]) == ScanState(paren, bracket, args, current)
    {
      var c := s[i];
      assert s[..i + 1][..i] == s[..i];
      if c == '(' {
        paren := paren + 1;
        current := current + [c];
      } else if c == ')' {
        paren := paren - 1;
        current := current + [c];
      } else if c == '[' {
        bracket := bracket + 1;
        current := current + [c];
      } else if c == ']' {
        bracket := bracket - 1;
        current := current + [c];
      } else if c == ',' && paren == 0 && bracket == 0 {
        args := args + [current];
        current := "";
      } else {
        current := current + [c];
      }
      i := i + 1;
    }
    assert s[..|s|] == s;
    if |current| > 0 {
      args := args + [current];
    }
  }

  // ---------------------------------------------------------------------------
  // What the split means
  // ---------------------------------------------------------------------------

  /** Number of `open` minus number of `close` characters in `s`. */
  function Depth(s: string, open: char, close: char): int
    decreases |s|
  {
    if s == [] then 0 else Depth(s[..|s| - 1], open, close) + Delta(s[|s| - 1], open, close)
  }

  /** Position `k` holds a comma with both depths zero before it. */
  predicate IsTopComma(s: string, k: nat)
    requires k < |s|
  {
    s[k] == ',' && Depth(s[..k], '(', ')') == 0 && Depth(s[..k], '[', ']') == 0
  }

  function TopCommas(s: string): set<nat>
  {
    set k: nat | k < |s| && IsTopComma(s, k)
  }

  predicate EndsWithTopComma(s: string)
  {
    |s| > 0 && IsTopComma(s, |s| - 1)
  }

  /** The positions of the separators in `Join(xs, ",")`. */
  function Separators(xs: seq<string>): set<nat>
    decreases |xs|
  {
    if |xs| <= 1 then {}
    else Separators(xs[..|xs| - 1]) + {|Join(xs[..|xs| - 1], ",")|}
  }

  lemma SeparatorsSnoc(xs: seq<string>, x: string)
    requires xs != []
    ensures Separators(xs + [x]) == Separators(xs) + {|Join(xs, ",")|}
  {
    assert (xs + [x])[..|xs|] == xs;
  }

  lemma SeparatorsLastReplaced(xs: seq<string>, x: string, y: string)
    ensures Separators(xs + [x]) == Separators(xs + [y])
  {
    if xs != [] {
      SeparatorsSnoc(xs, x);
      SeparatorsSnoc(xs, y);
    }
  }

  /** Adding a character to the text adds at most its own position as a top comma. */
  lemma TopCommasSnoc(s: string, c: char)
    ensures TopCommas(s + [c]) == TopCommas(s) + (if IsTopComma(s + [c], |s|) then {|s|} else {})
  {
    var t := s + [c];
    forall k: nat | k < |s|
      ensures IsTopComma(t, k) == IsTopComma(s, k)
    {
      assert t[..k] == s[..k];
    }
  }

  /** The scanner's two counters are the running depths of the text read so far. */
  lemma {:induction false} ScanDepths(s: string)
    ensures Scan(s).paren == Depth(s, '(', ')') && Scan(s).bracket == Depth(s, '[', ']')
    decreases |s|
  {
    if s != [] {
      ScanDepths(s[..|s| - 1]);
    }
  }

  /** The finished pieces and the open piece, joined with ",", are the text read so far. */
  lemma {:induction false} ScanRebuilds(s: string)
    ensures Join(Scan(s).pieces + [Scan(s).current], ",") == s
    decreases |s|
  {
    if s != [] {
      var p, c := s[..|s| - 1], s[|s| - 1];
      assert s == p + [c];
      ScanRebuilds(p);
      var st := Scan(p);
      assert Scan(s) == Step(st, c);
      if c == ',' && st.paren == 0 && st.bracket == 0 {
        JoinSnoc(st.pieces + [st.current], "", ",");
      } else {
        JoinSnoc(st.pieces, st.current, ",");
        JoinSnoc(st.pieces, st.current + [c], ",");
      }
    }
  }

  /** The open piece is empty exactly when the text read so far ends in a top-level comma. */
  lemma ScanCurrentEmpty(s: string)
    requires s != []
    ensures Scan(s).current == [] <==> EndsWithTopComma(s)
  {
    var p, c := s[..|s| - 1], s[|s| - 1];
    ScanDepths(p);
  }

  /** The separators between the pieces sit exactly at the top-level commas. */
  lemma {:induction false} ScanSeparators(s: string)
    ensures Separators(Scan(s).pieces + [Scan(s).current]) == TopCommas(s)
    decreases |s|
  {
    if s != [] {
      var p, c := s[..|s| - 1], s[|s| - 1];
      assert s == p + [c];
      ScanSeparators(p);
      ScanDepths(p);
      ScanRebuilds(p);
      var st := Scan(p);
      assert Scan(s) == Step(st, c);
      TopCommasSnoc(p, c);
      assert s[..|p|] == p;
      if c == ',' && st.paren == 0 && st.bracket == 0 {
        SeparatorsSnoc(st.pieces + [st.current], "");
      } else {
        SeparatorsLastReplaced(st.pieces, st.current, st.current + [c]);
      }
    } else {
      assert TopCommas(s) == {};
    }
  }

  /**
    Joining the pieces with "," gives back the input; only a final top-level
    comma (whose empty last piece is dropped) is missing.
  */
  lemma SplitRebuildsInput(s: string)
    ensures Join(SplitTopLevel(s), ",") + (if EndsWithTopComma(s) then "," else "") == s
  {
    ScanRebuilds(s);
    var st := Scan(s);
    if s != [] {
      ScanCurrentEmpty(s);
      JoinSnoc(st.pieces, st.current, ",");
    }
  }

  /**
    The commas that separate the pieces are exactly the top-level commas of the
    input (but for a dropped final one): every comma kept inside a piece is at
    a position where a `(` or a `[` is still open.
  */
  lemma SplitCutsAtTopCommasOnly(s: string)
    ensures TopCommas(s) == Separators(SplitTopLevel(s)) + (if EndsWithTopComma(s) then {|s| - 1} else {})
    ensures forall k: nat | k < |s| && s[k] == ',' && k !in Separators(SplitTopLevel(s))
      && !(EndsWithTopComma(s) && k == |s| - 1) ::
        Depth(s[..k], '(', ')') != 0 || Depth(s[..k], '[', ']') != 0
  {
    SplitSeparators(s);
    forall k: nat | k < |s| && s[k] == ',' && k !in Separators(SplitTopLevel(s))
      && !(EndsWithTopComma(s) && k == |s| - 1)
      ensures Depth(s[..k], '(', ')') != 0 || Depth(s[..k], '[', ']') != 0
    {
      assert k !in TopCommas(s);
    }
  }

  /** The separators of the pieces, and a trailing top-level comma, are the top-level commas. */
  lemma SplitSeparators(s: string)
    ensures TopCommas(s) == Separators(SplitTopLevel(s)) + (if EndsWithTopComma(s) then {|s| - 1} else {})
  {
    ScanSeparators(s);
    ScanRebuilds(s);
    var st := Scan(s);
    if s != [] {
      ScanCurrentEmpty(s);
      if |st.current| == 0 {
        JoinSnoc(st.pieces, st.current, ",");
        SeparatorsSnoc(st.pieces, st.current);
      }
    }
  }
}

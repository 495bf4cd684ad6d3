/**
  What the expression parser (internal/parser/parser.go) promises, stated
  about the functions of module Parser without looking at how they compute:
  where the argument list ends, how the arguments fill the node, what a list
  of children yields, and the shape of every tree the parser returns.
*/
module ParserLemmas {
  import opened Wrappers
  import opened GoStrings
  import opened Ast
  import opened Splitter
  import opened Parser
  import Locate

  // ---------------------------------------------------------------------------
  // The matching parenthesis
  // ---------------------------------------------------------------------------

  /** Depth of the text read from the front: the first character, then the rest. */
  lemma {:induction false} DepthCons(c: char, s: string, open: char, close: char)
    ensures Depth([c] + s, open, close) == Delta(c, open, close) + Depth(s, open, close)
    decreases |s|
  {
    if s != [] {
      var p := s[..|s| - 1];
      assert ([c] + s)[..|s|] == [c] + p;
      DepthCons(c, p, open, close);
    }
  }

  /**
    The ')' at `q` closes the '(' just before `a`: the depth of `t[a..q + 1]`
    is -1, and no shorter text from `a` has gone below zero.
  */
  predicate Closes(t: string, a: nat, q: nat)
  {
    a <= q < |t| && Depth(t[a..q + 1], '(', ')') == -1
    && forall m :: a < m <= q ==> Depth(t[a..m], '(', ')') >= 0
  }

  /** No ')' after `a` closes the '(' just before it. */
  predicate NeverCloses(t: string, a: nat)
  {
    forall m :: a < m <= |t| ==> Depth(t[a..m], '(', ')') >= 0
  }

  /** The scan from `i` with `d` parentheses open, stated with depths. */
  lemma {:induction false} CloseFromDepths(t: string, i: nat, d: nat)
    requires i <= |t| && d >= 1
    ensures CloseFrom(t, i, d).Some? ==> var q := CloseFrom(t, i, d).value;
      d + Depth(t[i..q + 1], '(', ')') == 0 && forall m :: i < m <= q ==> d + Depth(t[i..m], '(', ')') > 0
    ensures CloseFrom(t, i, d).None? ==> forall m :: i < m <= |t| ==> d + Depth(t[i..m], '(', ')') > 0
    decreases |t| - i
  {
    if i < |t| {
      var c := t[i];
      forall m | i < m <= |t|
        ensures Depth(t[i..m], '(', ')') == Delta(c, '(', ')') + Depth(t[i + 1..m], '(', ')')
      {
        assert t[i..m] == [c] + t[i + 1..m];
        DepthCons(c, t[i + 1..m], '(', ')');
      }
      if !(c == ')' && d == 1) {
        CloseFromDepths(t, i + 1, d + Delta(c, '(', ')'));
      }
    }
  }

  /**
    The depth scan finds the one ')' that closes the '(' before `a`, and finds
    none exactly when no ')' closes it.
  */
  lemma CloseFromMeaning(t: string, a: nat)
    requires a <= |t|
    ensures CloseFrom(t, a, 1).Some? ==> forall q :: Closes(t, a, q) <==> q == CloseFrom(t, a, 1).value
    ensures CloseFrom(t, a, 1).None? <==> NeverCloses(t, a)
  {
    CloseFromDepths(t, a, 1);
    if CloseFrom(t, a, 1).Some? {
      var q0 := CloseFrom(t, a, 1).value;
      assert forall q :: Closes(t, a, q) ==> q == q0;
      assert !NeverCloses(t, a) by {
        assert Depth(t[a..q0 + 1], '(', ')') == -1;
      }
    }
  }

  /** The first position of a character is the only position with nothing like it before. */
  lemma IndexOfAt(s: string, c: char, p: nat)
    requires p < |s| && s[p] == c && c !in s[..p]
    ensures IndexOf(s, c) == Some(p)
  {
  }

  // ---------------------------------------------------------------------------
  // parseWidgetExpression
  // ---------------------------------------------------------------------------

  /** The argument loop never changes the node's name. */
  lemma {:induction false} ApplyArgsKeepsName(node: WidgetNode, pieces: seq<string>, bound: nat)
    requires Within(pieces, bound)
    ensures ApplyArgs(node, pieces, bound).name == node.name
    decreases |pieces|
  {
    if pieces != [] {
      ApplyArgsKeepsName(ApplyEffect(node, Classify(pieces[0])), pieces[1..], bound);
    }
  }

  /**
    parseWidgetExpression gives no node exactly when the trimmed text is
    empty, when it has no '(' once a leading `const ` is dropped, or when no
    ')' closes that first '('. Otherwise the node is named after the text
    before the '(' and is built from the text strictly between the '(' and
    the ')' that closes it.
  */
  lemma ParseExprOutcome(expr: string)
    ensures var t := StripConst(TrimSpace(expr));
      ParseExpr(expr).None? <==>
        TrimSpace(expr) == [] || '(' !in t || NeverCloses(t, IndexOf(t, '(').value + 1)
    ensures ParseExpr(expr).Some? ==>
      var t := StripConst(TrimSpace(expr));
      var p := IndexOf(t, '(').value;
      var a := p + 1;
      ParseExpr(expr).value.name == NodeName(t[..p])
      && exists q: nat ::
        Closes(t, a, q)
        && ParseExpr(expr).value == ApplyArgs(WidgetNode(NodeName(t[..p]), map[], []), SplitTopLevel(t[a..q]), |t[a..q]|)
  {
    var t := StripConst(TrimSpace(expr));
    assert TrimSpace(expr) != [] ==> ParseExpr(expr) == ParseCall(t);
    if TrimSpace(expr) != [] && '(' in t {
      var p := IndexOf(t, '(').value;
      CloseFromMeaning(t, p + 1);
      match CloseFrom(t, p + 1, 1)
      case None =>
        assert ParseCall(t) == None;
      case Some(q) =>
        ParseCallFound(t, p, q);
        ApplyArgsKeepsName(WidgetNode(NodeName(t[..p]), map[], []), SplitTopLevel(t[p + 1..q]), |t[p + 1..q]|);
        assert Closes(t, p + 1, q);
    } else if TrimSpace(expr) != [] {
      assert IndexOf(t, '(') == None;
    }
  }

  /** Text after the ')' that closes the first '(' plays no part in the result. */
  lemma ParseCallIgnoresTrailing(t: string, q: nat, x: string)
    requires '(' in t && Closes(t, IndexOf(t, '(').value + 1, q)
    ensures ParseCall(t[..q + 1] + x) == ParseCall(t)
  {
    var p := IndexOf(t, '(').value;
    var a := p + 1;
    var u := t[..q + 1] + x;
    assert u[..p] == t[..p];
    IndexOfAt(u, '(', p);
    assert forall m :: a <= m <= q + 1 ==> u[a..m] == t[a..m];
    assert Closes(u, a, q);
    ClosesFound(t, a, q);
    ClosesFound(u, a, q);
    ParseCallFound(t, p, q);
    ParseCallFound(u, p, q);
    assert u[a..q] == t[a..q];
  }

  /** The scan stops at the one place that closes the parenthesis. */
  lemma ClosesFound(t: string, a: nat, q: nat)
    requires Closes(t, a, q)
    ensures CloseFrom(t, a, 1) == Some(q)
  {
    CloseFromMeaning(t, a);
    assert !NeverCloses(t, a) by {
      assert Depth(t[a..q + 1], '(', ')') == -1;
    }
  }

  // ---------------------------------------------------------------------------
  // The arguments
  // ---------------------------------------------------------------------------

  /** A character of the trimmed text is a character of the text. */
  lemma TrimSpaceSubset(s: string, c: char)
    requires c in TrimSpace(s)
    ensures c in s
  {
    TrimSpaceMeaning(s);
  }

  /** Blank and positional (colon-free) arguments add nothing to the node. */
  lemma ClassifyPositional(piece: string)
    requires ':' !in TrimSpace(piece)
    ensures Classify(piece) == Skip
  {
  }

  /**
    What an argument sets is named by the trimmed text before its first ':',
    so no property name holds a ':'; the rest of the argument, colons
    included, is the value.
  */
  lemma ClassifyKey(piece: string)
    requires Classify(piece).SetProperty?
    ensures var arg := TrimSpace(piece);
      ':' in arg && Classify(piece).key == TrimSpace(arg[..IndexOf(arg, ':').value])
      && ':' !in Classify(piece).key
  {
    var arg := TrimSpace(piece);
    if ':' in arg {
      var c := IndexOf(arg, ':').value;
      var key := TrimSpace(arg[..c]);
      var value := TrimSpace(arg[c + 1..]);
      assert KeyValue(arg) == Some((key, value));
      PropertyKey(piece, key, value);
      if ':' in key {
        TrimSpaceSubset(arg[..c], ':');
      }
    } else {
      ClassifyPositional(piece);
    }
  }

  /** A property an argument sets is under the argument's key. */
  lemma PropertyKey(piece: string, key: string, value: string)
    requires KeyValue(TrimSpace(piece)) == Some((key, value))
    ensures Classify(piece).SetProperty? ==> Classify(piece).key == key
  {
    if key == "children" && IsBracketed(value) {
      ChildrenArgument(piece, key, value);
    } else if IsClosure(value) {
      assert Classify(piece) == Skip;
    } else if ParseExpr(value).Some? {
      ClassifyNestedWidget(piece, key, value);
    } else {
      ClassifyText(piece, key, value);
    }
  }

  /** The children an argument contributes: the list of a bracketed `children` value. */
  function ChildrenListOf(piece: string): seq<WidgetNode>
  {
    var arg := TrimSpace(piece);
    if ':' !in arg then []
    else
      var c := IndexOf(arg, ':').value;
      var key := TrimSpace(arg[..c]);
      var value := TrimSpace(arg[c + 1..]);
      if key == "children" && HasPrefix(value, "[") && HasSuffix(value, "]") && !HasPrefix(value, "(")
      then WidgetList(value)
      else []
  }

  /**
    Only a `children` argument whose value starts with '[' and ends with ']'
    appends children, and it appends the widgets of that list.
  */
  lemma ClassifyChildren(piece: string)
    ensures Classify(piece).AppendChildren? ==> Classify(piece).nodes == ChildrenListOf(piece)
    ensures !Classify(piece).AppendChildren? ==> ChildrenListOf(piece) == []
  {
    var arg := TrimSpace(piece);
    if ':' !in arg {
      assert Classify(piece) == Skip;
      assert ChildrenListOf(piece) == [];
    } else {
      var c := IndexOf(arg, ':').value;
      var key := TrimSpace(arg[..c]);
      var value := TrimSpace(arg[c + 1..]);
      assert KeyValue(arg) == Some((key, value));
      if key == "children" && IsBracketed(value) {
        ChildrenArgument(piece, key, value);
      } else {
        ClassifyOtherwise(piece, key, value);
        OtherArgument(piece, key, value);
      }
    }
  }

  /** A bracketed `children` value: its list is appended. */
  lemma ChildrenArgument(piece: string, key: string, value: string)
    requires KeyValue(TrimSpace(piece)) == Some((key, value))
    requires key == "children" && IsBracketed(value)
    ensures Classify(piece) == AppendChildren(WidgetList(value))
    ensures ChildrenListOf(piece) == WidgetList(value)
  {
    assert value[0] == '[';
    assert !HasPrefix(value, "(");
  }

  /** Any other key or value contributes no children. */
  lemma OtherArgument(piece: string, key: string, value: string)
    requires KeyValue(TrimSpace(piece)) == Some((key, value))
    requires !(key == "children" && IsBracketed(value))
    ensures ChildrenListOf(piece) == []
  {
  }

  /** Past the children case, an argument is skipped or sets a property. */
  lemma ClassifyOtherwise(piece: string, key: string, value: string)
    requires KeyValue(TrimSpace(piece)) == Some((key, value))
    requires !(key == "children" && IsBracketed(value))
    ensures Classify(piece).Skip? || Classify(piece).SetProperty?
  {
    if IsClosure(value) {
      assert Classify(piece) == Skip;
    } else if ParseExpr(value).Some? {
      ClassifyNestedWidget(piece, key, value);
    } else {
      ClassifyText(piece, key, value);
    }
  }

  /** The children of the arguments, in the order the arguments come. */
  function ChildrenFrom(pieces: seq<string>): seq<WidgetNode>
    decreases |pieces|
  {
    if pieces == [] then [] else ChildrenListOf(pieces[0]) + ChildrenFrom(pieces[1..])
  }

  lemma ApplyArgsCons(node: WidgetNode, pieces: seq<string>, bound: nat)
    requires pieces != [] && Within(pieces, bound)
    ensures Within(pieces[1..], bound)
    ensures ApplyArgs(node, pieces, bound) == ApplyArgs(ApplyEffect(node, Classify(pieces[0])), pieces[1..], bound)
  {
  }

  lemma EffectChildren(node: WidgetNode, piece: string)
    ensures ApplyEffect(node, Classify(piece)).children == node.children + ChildrenListOf(piece)
  {
    ClassifyChildren(piece);
  }

  lemma ChildrenFromCons(pieces: seq<string>)
    requires pieces != []
    ensures ChildrenFrom(pieces) == ChildrenListOf(pieces[0]) + ChildrenFrom(pieces[1..])
  {
  }

  /** The node's children are its old children, then each argument's list, in order. */
  lemma {:induction false} ApplyArgsChildren(node: WidgetNode, pieces: seq<string>, bound: nat)
    requires Within(pieces, bound)
    ensures ApplyArgs(node, pieces, bound).children == node.children + ChildrenFrom(pieces)
    decreases |pieces|
  {
    if pieces != [] {
      var next := ApplyEffect(node, Classify(pieces[0]));
      ApplyArgsCons(node, pieces, bound);
      EffectChildren(node, pieces[0]);
      ApplyArgsChildren(next, pieces[1..], bound);
      ChildrenFromCons(pieces);
      AppendAssociative(node.children, ChildrenListOf(pieces[0]), ChildrenFrom(pieces[1..]),
        next.children, ApplyArgs(next, pieces[1..], bound).children);
    }
  }

  /** What the last argument that sets `k` sets it to, if any does. */
  function LastSet(pieces: seq<string>, k: string): Option<PropertyValue>
    decreases |pieces|
  {
    if pieces == [] then None
    else match Classify(pieces[|pieces| - 1])
      case SetProperty(key, v) => if key == k then Some(v) else LastSet(pieces[..|pieces| - 1], k)
      case _ => LastSet(pieces[..|pieces| - 1], k)
  }

  /** The argument loop on one more argument runs it after the others. */
  lemma {:induction false} ApplyArgsSnoc(node: WidgetNode, pieces: seq<string>, x: string, bound: nat)
    requires Within(pieces + [x], bound)
    ensures Within(pieces, bound)
    ensures ApplyArgs(node, pieces + [x], bound) == ApplyEffect(ApplyArgs(node, pieces, bound), Classify(x))
    decreases |pieces|
  {
    WithinParts(pieces, [x], bound);
    if pieces != [] {
      assert (pieces + [x])[0] == pieces[0];
      assert (pieces + [x])[1..] == pieces[1..] + [x];
      ApplyArgsSnoc(ApplyEffect(node, Classify(pieces[0])), pieces[1..], x, bound);
    } else {
      assert (pieces + [x])[1..] == [];
    }
  }

  /**
    A property holds what the last argument that sets it gives; a name no
    argument sets keeps what it had (and stays absent when it was absent).
  */
  lemma {:induction false} ApplyArgsProperty(node: WidgetNode, pieces: seq<string>, bound: nat, k: string)
    requires Within(pieces, bound)
    ensures var props := ApplyArgs(node, pieces, bound).properties;
      match LastSet(pieces, k)
      case Some(v) => k in props && props[k] == v
      case None => (k in props <==> k in node.properties) && (k in props ==> props[k] == node.properties[k])
    decreases |pieces|
  {
    if pieces != [] {
      var pre, x := pieces[..|pieces| - 1], pieces[|pieces| - 1];
      assert pieces == pre + [x];
      ApplyArgsSnoc(node, pre, x, bound);
      ApplyArgsProperty(node, pre, bound, k);
    }
  }

  /**
    The fixed order of the classifier: a function literal is skipped, a
    bracketed `children` value gives children, then a value that parses as a
    widget gives that widget, whatever the text also contains.
  */
  lemma ClassifyNestedWidget(piece: string, key: string, value: string)
    requires KeyValue(TrimSpace(piece)) == Some((key, value))
    requires !IsClosure(value) && !(key == "children" && IsBracketed(value)) && ParseExpr(value).Some?
    ensures Classify(piece) == SetProperty(key, WidgetValue(ParseExpr(value).value))
  {
  }

  /**
    The values that do not parse as widgets: another bracketed list is
    dropped, a value with a '$' becomes the placeholder, a quoted value loses
    its quote characters, anything else is kept as it is.
  */
  lemma ClassifyText(piece: string, key: string, value: string)
    requires KeyValue(TrimSpace(piece)) == Some((key, value))
    requires !IsClosure(value) && !(key == "children" && IsBracketed(value)) && ParseExpr(value).None?
    ensures IsBracketed(value) ==> Classify(piece) == Skip
    ensures !IsBracketed(value) && '$' in value ==> Classify(piece) == SetProperty(key, StringValue(InterpolationPlaceholder))
    ensures !IsBracketed(value) && '$' !in value && IsQuoted(value) ==>
      Classify(piece) == SetProperty(key, StringValue(TrimCutset(value, QuoteCutset)))
    ensures !IsBracketed(value) && '$' !in value && !IsQuoted(value) ==> Classify(piece) == SetProperty(key, StringValue(value))
  {
    ContainsChar(value, '$');
  }

  /**
    The classifier's first test after the split: a function literal such as
    `onPressed: () { … }` is skipped, whatever its key and whatever else the
    value would parse as.
  */
  lemma ClassifyClosure(piece: string, key: string, value: string)
    requires KeyValue(TrimSpace(piece)) == Some((key, value))
    requires IsClosure(value)
    ensures Classify(piece) == Skip
  {
    assert TrimSpace(piece) != [];
  }

  /** An argument the classifier skips can be left out of the argument loop. */
  lemma {:induction false} ApplyArgsDropsSkipped(node: WidgetNode, pre: seq<string>, x: string, post: seq<string>, bound: nat)
    requires Within(pre + [x] + post, bound) && Classify(x) == Skip
    ensures Within(pre + post, bound)
    ensures ApplyArgs(node, pre + [x] + post, bound) == ApplyArgs(node, pre + post, bound)
    decreases |pre|
  {
    var whole, rest := pre + [x] + post, pre + post;
    WithinDrop(pre, x, post, bound);
    ApplyArgsCons(node, whole, bound);
    SplicedParts(pre, x, post);
    if pre != [] {
      ApplyArgsCons(node, rest, bound);
      ApplyArgsDropsSkipped(ApplyEffect(node, Classify(pre[0])), pre[1..], x, post, bound);
    }
  }

  lemma WithinDrop(pre: seq<string>, x: string, post: seq<string>, bound: nat)
    requires Within(pre + [x] + post, bound)
    ensures Within(pre + post, bound)
  {
    WithinParts(pre + [x], post, bound);
    WithinParts(pre, [x], bound);
    WithinParts(pre, post, bound);
  }

  /** A function-literal argument leaves the node as the other arguments make it. */
  lemma ClosureArgumentIgnored(node: WidgetNode, pre: seq<string>, piece: string, post: seq<string>, bound: nat,
                               key: string, value: string)
    requires Within(pre + [piece] + post, bound)
    requires KeyValue(TrimSpace(piece)) == Some((key, value)) && IsClosure(value)
    ensures Within(pre + post, bound)
    ensures ApplyArgs(node, pre + [piece] + post, bound) == ApplyArgs(node, pre + post, bound)
  {
    ClassifyClosure(piece, key, value);
    ApplyArgsDropsSkipped(node, pre, piece, post, bound);
  }

  // ---------------------------------------------------------------------------
  // Lists of widgets
  // ---------------------------------------------------------------------------

  /** A run splits into two runs within the bound exactly when it is within it. */
  lemma WithinParts(a: seq<string>, b: seq<string>, bound: nat)
    ensures Within(a + b, bound) <==> Within(a, bound) && Within(b, bound)
  {
    assert forall k :: 0 <= k < |a| ==> a[k] == (a + b)[k];
    assert forall k :: 0 <= k < |b| ==> b[k] == (a + b)[|a| + k];
    assert forall k :: 0 <= k < |a + b| ==> (a + b)[k] == if k < |a| then a[k] else b[k - |a|];
  }

  lemma ParseItemsCons(items: seq<string>, bound: nat)
    requires items != [] && Within(items, bound)
    ensures Within(items[1..], bound)
    ensures ParseItems(items, bound) == ParsedItem(items[0]) + ParseItems(items[1..], bound)
  {
  }

  /** The widgets of two runs of elements are the widgets of each, one after the other. */
  lemma {:induction false} ParseItemsAppend(a: seq<string>, b: seq<string>, bound: nat)
    requires Within(a, bound) && Within(b, bound)
    ensures Within(a + b, bound)
    ensures ParseItems(a + b, bound) == ParseItems(a, bound) + ParseItems(b, bound)
    decreases |a|
  {
    WithinParts(a, b, bound);
    if a == [] {
      assert a + b == b;
    } else {
      var ab := a + b;
      assert ab[1..] == a[1..] + b;
      ParseItemsCons(a, bound);
      ParseItemsAppend(a[1..], b, bound);
      ParseItemsCons(ab, bound);
      assert ab[0] == a[0];
      ghost var h, x, y := ParsedItem(a[0]), ParseItems(a[1..], bound), ParseItems(b, bound);
      assert h + (x + y) == (h + x) + y;
    }
  }

  /** An element that is blank or does not parse is dropped without a trace. */
  lemma ParseItemsDropsFailure(pre: seq<string>, x: string, post: seq<string>, bound: nat)
    requires Within(pre, bound) && Within(post, bound) && |x| <= bound
    requires TrimSpace(x) == [] || ParseExpr(TrimSpace(x)).None?
    ensures Within(pre + [x] + post, bound) && Within(pre + post, bound)
    ensures ParseItems(pre + [x] + post, bound) == ParseItems(pre + post, bound)
  {
    assert Within([x], bound);
    ParseItemsAppend([x], post, bound);
    ParseItemsAppend(pre, [x] + post, bound);
    ParseItemsAppend(pre, post, bound);
    assert pre + [x] + post == pre + ([x] + post);
    ParseItemsCons([x], bound);
    assert [x][1..] == [];
  }

  /** When every element parses, each gives its widget, in the order of the elements. */
  lemma ParseItemsAllParse(items: seq<string>, bound: nat)
    requires Within(items, bound)
    requires forall k :: 0 <= k < |items| ==> TrimSpace(items[k]) != [] && ParseExpr(TrimSpace(items[k])).Some?
    ensures |ParseItems(items, bound)| == |items|
    ensures forall k :: 0 <= k < |items| ==> ParseItems(items, bound)[k] == ParseExpr(TrimSpace(items[k])).value
  {
    forall k | 0 <= k < |items| ensures ParsedItem(items[k]) == [ParseExpr(TrimSpace(items[k])).value] {
      ParsedItemParsed(items[k], ParseExpr(TrimSpace(items[k])));
    }
    ParseItemsSingletons(items, bound);
  }

  /** When every element yields exactly one widget, the `k`-th widget is the `k`-th element's. */
  lemma {:induction false} ParseItemsSingletons(items: seq<string>, bound: nat)
    requires Within(items, bound)
    requires forall k :: 0 <= k < |items| ==> |ParsedItem(items[k])| == 1
    ensures |ParseItems(items, bound)| == |items|
    ensures forall k :: 0 <= k < |items| ==> ParseItems(items, bound)[k] == ParsedItem(items[k])[0]
    decreases |items|
  {
    if items != [] {
      var rest := items[1..];
      assert forall k :: 0 <= k < |rest| ==> rest[k] == items[k + 1];
      ParseItemsSingletons(rest, bound);
      var ws := ParseItems(items, bound);
      assert ws == ParsedItem(items[0]) + ParseItems(rest, bound);
      forall k | 1 <= k < |items| ensures ws[k] == ParsedItem(items[k])[0] {
        assert ws[k] == ParseItems(rest, bound)[k - 1];
        assert items[k] == rest[k - 1];
      }
    }
  }

  // ---------------------------------------------------------------------------
  // The shape of every parsed tree
  // ---------------------------------------------------------------------------

  /**
    A property value as the parser makes it: exactly one field, a String or
    a Widget, and a String holds no '$' unless it is the placeholder.
  */
  predicate ParsedValue(v: PropertyValue)
  {
    PopulatedFields(v) == 1 && (v.str.Some? || v.widget.Some?)
    && (v.str.Some? ==> v.str.value == InterpolationPlaceholder || '$' !in v.str.value)
  }

  /**
    A tree as the parser makes it: no '.' in a node name, no ':' in a property
    name, every value a ParsedValue, and the same for every nested widget
    and every child.
  */
  predicate WellParsed(n: WidgetNode)
    decreases n
  {
    '.' !in n.name
    && (forall i | 0 <= i < |n.children| :: WellParsed(n.children[i]))
    && forall k | k in n.properties ::
      ':' !in k && ParsedValue(n.properties[k])
      && (n.properties[k].widget.Some? ==> WellParsed(n.properties[k].widget.value))
  }

  /** What one argument may do to a tree as the parser makes it. */
  predicate EffectWellParsed(eff: ArgEffect)
  {
    match eff
    case Skip => true
    case AppendChildren(ns) => forall i | 0 <= i < |ns| :: WellParsed(ns[i])
    case SetProperty(k, v) => ':' !in k && ParsedValue(v) && (v.widget.Some? ==> WellParsed(v.widget.value))
  }

  lemma EffectKeepsWellParsed(node: WidgetNode, eff: ArgEffect)
    requires WellParsed(node) && EffectWellParsed(eff)
    ensures WellParsed(ApplyEffect(node, eff))
  {
    match eff
    case Skip =>
    case AppendChildren(ns) =>
      var r := ApplyEffect(node, eff);
      assert forall i | 0 <= i < |r.children| :: r.children[i] == if i < |node.children| then node.children[i] else ns[i - |node.children|];
    case SetProperty(k, v) =>
  }

  lemma {:induction false} ParseExprWellParsed(expr: string)
    ensures ParseExpr(expr).Some? ==> WellParsed(ParseExpr(expr).value)
    decreases |expr|, 1
  {
    var e := TrimSpace(expr);
    if e != [] {
      ParseCallWellParsed(StripConst(e));
    }
  }

  lemma {:induction false} ParseCallWellParsed(t: string)
    ensures ParseCall(t).Some? ==> WellParsed(ParseCall(t).value)
    decreases |t|, 0
  {
    match IndexOf(t, '(')
    case None =>
    case Some(p) =>
      match CloseFrom(t, p + 1, 1)
      case None =>
      case Some(q) =>
        var args := t[p + 1..q];
        ApplyArgsWellParsed(WidgetNode(NodeName(t[..p]), map[], []), SplitTopLevel(args), |args|);
  }

  lemma {:induction false} ApplyArgsWellParsed(node: WidgetNode, pieces: seq<string>, bound: nat)
    requires Within(pieces, bound)
    requires WellParsed(node)
    ensures WellParsed(ApplyArgs(node, pieces, bound))
    decreases bound, 6, |pieces|
  {
    if pieces != [] {
      ClassifyWellParsed(pieces[0]);
      EffectKeepsWellParsed(node, Classify(pieces[0]));
      ApplyArgsWellParsed(ApplyEffect(node, Classify(pieces[0])), pieces[1..], bound);
    }
  }

  lemma {:induction false} ClassifyWellParsed(piece: string)
    ensures EffectWellParsed(Classify(piece))
    decreases |piece|, 5
  {
    var arg := TrimSpace(piece);
    if arg != [] && ':' in arg {
      var c := IndexOf(arg, ':').value;
      var key := TrimSpace(arg[..c]);
      var value := TrimSpace(arg[c + 1..]);
      if ':' in key {
        TrimSpaceSubset(arg[..c], ':');
      }
      if !IsClosure(value) {
        if key == "children" && IsBracketed(value) {
          WidgetListWellParsed(value);
        } else {
          ParseExprWellParsed(value);
          ContainsChar(value, '$');
          if '$' in TrimCutset(value, QuoteCutset) {
            assert '$' in value;
          }
        }
      }
    }
  }

  lemma {:induction false} WidgetListWellParsed(list: string)
    ensures forall i | 0 <= i < |WidgetList(list)| :: WellParsed(WidgetList(list)[i])
    decreases |list|, 4
  {
    var inner := ListInner(list);
    ParseItemsWellParsed(SplitTopLevel(inner), |inner|);
  }

  lemma {:induction false} ParseItemsWellParsed(items: seq<string>, bound: nat)
    requires Within(items, bound)
    ensures forall i | 0 <= i < |ParseItems(items, bound)| :: WellParsed(ParseItems(items, bound)[i])
    decreases bound, 3, |items|
  {
    if items != [] {
      ParsedItemWellParsed(items[0]);
      ParseItemsWellParsed(items[1..], bound);
      var h, r := ParsedItem(items[0]), ParseItems(items[1..], bound);
      assert forall i | 0 <= i < |h + r| :: (h + r)[i] == if i < |h| then h[i] else r[i - |h|];
    }
  }

  lemma {:induction false} ParsedItemWellParsed(raw: string)
    ensures forall i | 0 <= i < |ParsedItem(raw)| :: WellParsed(ParsedItem(raw)[i])
    decreases |raw|, 2
  {
    var item := TrimSpace(raw);
    if item != [] {
      ParseExprWellParsed(item);
    }
  }

  // ---------------------------------------------------------------------------
  // Parse
  // ---------------------------------------------------------------------------

  /** The three ways Parse fails carry three different messages. */
  lemma MessagesDistinct(a: ParseError, b: ParseError)
    requires a != b
    ensures Message(a) != Message(b)
  {
    match a
    case BuildMethodNotFound =>
      assert Message(b)[0] == 'f';
    case ExtractFailed(ca) =>
      match b
      case BuildMethodNotFound =>
        assert Message(a)[0] == 'f';
      case ExtractFailed(cb) =>
        var prefix := "failed to extract widget tree: ";
        assert Message(a)[|prefix|] != Message(b)[|prefix|];
  }

  /**
    Parse fails for want of a build method exactly when the located body is
    empty; for want of a return statement only when the body holds no
    `return <space> ... ;` at all; and when it succeeds the tree has a root
    of the parser's shape.
  */
  lemma ParseSourceOutcome(content: string)
    ensures ParseSource(content) == Failure(BuildMethodNotFound) <==> Locate.FindBuildMethod(content) == ""
    ensures ParseSource(content) == Failure(ExtractFailed(ReturnStatementNotFound)) ==>
      var body := Locate.FindBuildMethod(content);
      body != "" && forall n, g, e :: !Locate.ReturnInstance(body, n, g, e)
    ensures ParseSource(content) == Failure(ExtractFailed(WidgetExpressionUnparseable)) ==>
      var body := Locate.FindBuildMethod(content);
      body != "" && Locate.ReturnExpression(body).Some? && ParseExpr(Locate.ReturnExpression(body).value).None?
    ensures ParseSource(content).Success? ==>
      ParseSource(content).value.root.Some? && WellParsed(ParseSource(content).value.root.value)
  {
    var body := Locate.FindBuildMethod(content);
    if body != "" && Locate.ReturnExpression(body).Some? {
      ParseExprWellParsed(Locate.ReturnExpression(body).value);
    }
  }
}

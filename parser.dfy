/**
  The expression parser (internal/parser/parser.go): `Name(key: value, ...,
  children: [ ... ])` text becomes a WidgetNode tree.

  The functions below say what each step computes; the methods after them
  are the source's loops, each proved to compute its function.
*/
module Parser {
  import opened Wrappers
  import opened GoStrings
  import opened Ast
  import opened Splitter
  import Locate

  // ---------------------------------------------------------------------------
  // Pieces of the text
  // ---------------------------------------------------------------------------

  /** Drop a leading `const ` keyword and the white space after it. */
  function StripConst(e: string): (r: string)
    ensures |r| <= |e|
  {
    if HasPrefix(e, "const ") then TrimSpace(e[5..]) else e
  }

  /** The node name made from the text before the first '(' (`Image.network` gives `Image_network`). */
  function NodeName(prefix: string): (r: string)
    ensures '.' !in r
  {
    ReplaceChar(TrimSpace(prefix), '.', '_')
  }

  /**
    The depth scan: reading from `i` with `depth` parentheses open, the
    position of the ')' that closes the first of them.
  */
  function CloseFrom(t: string, i: nat, depth: nat): (r: Option<nat>)
    requires i <= |t| && depth >= 1
    ensures r.Some? ==> i <= r.value < |t| && t[r.value] == ')'
    decreases |t| - i
  {
    if i == |t| then None
    else if t[i] == '(' then CloseFrom(t, i + 1, depth + 1)
    else if t[i] == ')' then (if depth == 1 then Some(i) else CloseFrom(t, i + 1, depth - 1))
    else CloseFrom(t, i + 1, depth)
  }

  predicate IsBracketed(v: string)
  {
    HasPrefix(v, "[") && HasSuffix(v, "]")
  }

  /** A function literal such as `(context, error) { ... }`. */
  predicate IsClosure(v: string)
  {
    HasPrefix(v, "(") && Contains(v, ") {")
  }

  predicate IsQuoted(v: string)
  {
    (HasPrefix(v, "'") && HasSuffix(v, "'")) || (HasPrefix(v, "\"") && HasSuffix(v, "\""))
  }

  const QuoteCutset: set<char> := {'\'', '"'}

  /** What a value containing `$` is replaced by. */
  const InterpolationPlaceholder: string := "INTERPOLATED_STRING"

  // ---------------------------------------------------------------------------
  // What the parser computes
  // ---------------------------------------------------------------------------

  /** What one argument does to the node being built. */
  datatype ArgEffect =
    | Skip
    | AppendChildren(nodes: seq<WidgetNode>)
    | SetProperty(key: string, value: PropertyValue)

  function ApplyEffect(node: WidgetNode, eff: ArgEffect): WidgetNode
  {
    match eff
    case Skip => node
    case AppendChildren(ns) => node.(children := node.children + ns)
    case SetProperty(k, v) => node.(properties := node.properties[k := v])
  }

  /** parseWidgetExpression: the node, or None where the source returns nil. */
  function ParseExpr(expr: string): Option<WidgetNode>
    decreases |expr|, 1
  {
    var e := TrimSpace(expr);
    if e == [] then None else ParseCall(StripConst(e))
  }

  /** The part of parseWidgetExpression after the `const` keyword is gone. */
  function ParseCall(t: string): Option<WidgetNode>
    decreases |t|, 0
  {
    match IndexOf(t, '(')
    case None => None
    case Some(p) =>
      match CloseFrom(t, p + 1, 1)
      case None => None
      case Some(q) =>
        var args := t[p + 1..q];
        Some(ApplyArgs(WidgetNode(NodeName(t[..p]), map[], []), SplitTopLevel(args), |args|))
  }

  /** Every piece is at most `bound` long (the measure the recursion descends on). */
  predicate Within(pieces: seq<string>, bound: nat)
  {
    forall k :: 0 <= k < |pieces| ==> |pieces[k]| <= bound
  }

  /** The argument loop: each piece, in order, applied to the node. */
  function ApplyArgs(node: WidgetNode, pieces: seq<string>, bound: nat): WidgetNode
    requires Within(pieces, bound)
    decreases bound, 6, |pieces|
  {
    if pieces == [] then node
    else ApplyArgs(ApplyEffect(node, Classify(pieces[0])), pieces[1..], bound)
  }

  /** The key of an argument and its value, split at the first ':'. */
  function KeyValue(arg: string): Option<(string, string)>
  {
    match IndexOf(arg, ':')
    case None => None
    case Some(c) => Some((TrimSpace(arg[..c]), TrimSpace(arg[c + 1..])))
  }

  /** The classifier: the fixed order in which an argument is recognised. */
  function Classify(piece: string): ArgEffect
    decreases |piece|, 5
  {
    var arg := TrimSpace(piece);
    if arg == [] then Skip
    else match IndexOf(arg, ':')
      case None => Skip
      case Some(c) =>
        var key := TrimSpace(arg[..c]);
        var value := TrimSpace(arg[c + 1..]);
        if IsClosure(value) then Skip
        else if key == "children" && IsBracketed(value) then AppendChildren(WidgetList(value))
        else match ParseExpr(value)
          case Some(w) => SetProperty(key, WidgetValue(w))
          case None =>
            if IsBracketed(value) then Skip
            else if Contains(value, "$") then SetProperty(key, StringValue(InterpolationPlaceholder))
            else if IsQuoted(value) then SetProperty(key, StringValue(TrimCutset(value, QuoteCutset)))
            // member-access text (`Colors.blue`, `Colors.grey[300]`) and the
            // fallback both keep the trimmed text as it is
            else SetProperty(key, StringValue(value))
  }

  /** The text between the list's brackets. */
  function ListInner(list: string): (r: string)
    ensures |r| <= |list|
  {
    TrimSuffix(TrimPrefix(TrimSpace(list), "["), "]")
  }

  /** parseWidgetList: the elements of a `[...]` list that parse as widgets. */
  function WidgetList(list: string): seq<WidgetNode>
    decreases |list|, 4
  {
    var inner := ListInner(list);
    ParseItems(SplitTopLevel(inner), |inner|)
  }

  function ParseItems(items: seq<string>, bound: nat): seq<WidgetNode>
    requires Within(items, bound)
    decreases bound, 3, |items|
  {
    if items == [] then [] else ParsedItem(items[0]) + ParseItems(items[1..], bound)
  }

  /** One list element: the widget it parses to, or nothing. */
  function ParsedItem(raw: string): (r: seq<WidgetNode>)
    ensures |r| <= 1
    decreases |raw|, 2
  {
    var item := TrimSpace(raw);
    if item == [] then []
    else match ParseExpr(item)
      case None => []
      case Some(w) => [w]
  }

  /** Why extractWidgetTree fails. */
  datatype ExtractError = ReturnStatementNotFound | WidgetExpressionUnparseable

  /** Why Parse fails. */
  datatype ParseError = BuildMethodNotFound | ExtractFailed(cause: ExtractError)

  function ExtractMessage(e: ExtractError): string
  {
    match e
    case ReturnStatementNotFound => "return statement not found"
    case WidgetExpressionUnparseable => "failed to parse widget expression"
  }

  /** The error text Parse reports. */
  function Message(e: ParseError): string
  {
    match e
    case BuildMethodNotFound => "build method not found"
    case ExtractFailed(cause) => "failed to extract widget tree: " + ExtractMessage(cause)
  }

  /** extractWidgetTree on the body of the build method. */
  function ExtractTree(body: string): Result<WidgetTree, ExtractError>
  {
    match Locate.ReturnExpression(body)
    case None => Failure(ReturnStatementNotFound)
    case Some(e) =>
      match ParseExpr(e)
      case None => Failure(WidgetExpressionUnparseable)
      case Some(w) => Success(WidgetTree(Some(w)))
  }

  /** Parse on a whole Dart source file. */
  function ParseSource(content: string): Result<WidgetTree, ParseError>
  {
    var body := Locate.FindBuildMethod(content);
    if body == "" then Failure(BuildMethodNotFound)
    else match ExtractTree(body)
      case Failure(e) => Failure(ExtractFailed(e))
      case Success(t) => Success(t)
  }

  // ---------------------------------------------------------------------------
  // The parser's loops
  // ---------------------------------------------------------------------------

  /** parseWidgetExpression. */
  method ParseWidgetExpression(expr: string) returns (r: Option<WidgetNode>)
    ensures r == ParseExpr(expr)
    decreases |expr|, 1
  {
    var e := TrimSpace(expr);
    if e == [] {
      return None;
    }
    if HasPrefix(e, "const ") {
      e := TrimSpace(e[5..]);
    }
    assert e == StripConst(TrimSpace(expr));
    var paren := IndexOf(e, '(');
    if paren.None? {
      return None;
    }
    var parenIdx := paren.value;
    var widgetName := NodeName(e[..parenIdx]);
    var argsStart := parenIdx + 1;
    var argsEnd := MatchingParen(e, argsStart);
    if argsEnd == -1 {
      return None;
    }
    var args := e[argsStart..argsEnd];

    var properties: map<string, PropertyValue> := map[];
    var children: seq<WidgetNode> := [];
    var argsList := SplitArgsTopLevel(args);
    var k := 0;
    while k < |argsList|
      invariant 0 <= k <= |argsList|
      invariant ApplyArgs(WidgetNode(widgetName, properties, children), argsList[k..], |args|)
        == ApplyArgs(WidgetNode(widgetName, map[], []), argsList, |args|)
    {
      ghost var before := WidgetNode(widgetName, properties, children);
      ApplyArgsStep(before, argsList, k, |args|);
      var effect := ClassifyArgument(argsList[k]);
      match effect {
        case Skip =>
        case AppendChildren(listed) =>
          children := children + listed;
        case SetProperty(propName, propValue) =>
          properties := properties[propName := propValue];
      }
      assert WidgetNode(widgetName, properties, children) == ApplyEffect(before, effect);
      k := k + 1;
    }
    assert argsList[k..] == [];
    ParseCallFound(e, parenIdx, argsEnd);
    r := Some(WidgetNode(widgetName, properties, children));
  }

  /** The depth scan: the index of the ')' that closes the '(' before `argsStart`, or -1. */
  method MatchingParen(e: string, argsStart: nat) returns (argsEnd: int)
    requires argsStart <= |e|
    ensures argsEnd == -1 <==> CloseFrom(e, argsStart, 1).None?
    ensures argsEnd != -1 ==> CloseFrom(e, argsStart, 1) == Some(argsEnd)
  {
    var parenDepth := 1;
    argsEnd := -1;
    var i := argsStart;
    while i < |e|
      invariant argsStart <= i <= |e|
      invariant parenDepth >= 1 && argsEnd == -1
      invariant CloseFrom(e, i, parenDepth) == CloseFrom(e, argsStart, 1)
    {
      if e[i] == '(' {
        parenDepth := parenDepth + 1;
      } else if e[i] == ')' {
        parenDepth := parenDepth - 1;
        if parenDepth == 0 {
          argsEnd := i;
          break;
        }
      }
      i := i + 1;
    }
  }

  /** One pass of the argument loop: what the argument does to the node. */
  method ClassifyArgument(piece: string) returns (effect: ArgEffect)
    ensures effect == Classify(piece)
    decreases |piece|, 5
  {
    var arg := TrimSpace(piece);
    if arg == [] {
      return Skip;
    }
    var colon := IndexOf(arg, ':');
    if colon.None? {
      return Skip;
    }
    var propName := TrimSpace(arg[..colon.value]);
    var propValue := TrimSpace(arg[colon.value + 1..]);
    if IsClosure(propValue) {
      return Skip;
    }
    if propName == "children" && IsBracketed(propValue) {
      var listed := ParseWidgetList(propValue);
      return AppendChildren(listed);
    }
    var nested := ParseWidgetExpression(propValue);
    if nested.Some? {
      return SetProperty(propName, WidgetValue(nested.value));
    }
    if IsBracketed(propValue) {
      return Skip;
    }
    if Contains(propValue, "$") {
      return SetProperty(propName, StringValue(InterpolationPlaceholder));
    }
    if IsQuoted(propValue) {
      return SetProperty(propName, StringValue(TrimCutset(propValue, QuoteCutset)));
    }
    return SetProperty(propName, StringValue(propValue));
  }

  /** parseWidgetList. */
  method ParseWidgetList(list: string) returns (widgets: seq<WidgetNode>)
    ensures widgets == WidgetList(list)
    decreases |list|, 4
  {
    var inner := TrimSpace(list);
    inner := TrimPrefix(inner, "[");
    inner := TrimSuffix(inner, "]");
    var items := SplitArgsTopLevel(inner);
    widgets := [];
    var k := 0;
    assert items[0..] == items;
    while k < |items|
      invariant 0 <= k <= |items|
      invariant widgets + ParseItems(items[k..], |inner|) == ParseItems(items, |inner|)
    {
      ghost var before := widgets;
      var parsed := ParseListItem(items[k]);
      widgets := widgets + parsed;
      ParseItemsStep(items, k, |inner|, before, widgets);
      k := k + 1;
    }
  }

  /** One pass of parseWidgetList's loop: a blank element is skipped, any other is parsed. */
  method ParseListItem(raw: string) returns (r: seq<WidgetNode>)
    ensures r == ParsedItem(raw)
    decreases |raw|, 2
  {
    var item := TrimSpace(raw);
    r := [];
    if item == [] {
      ParsedItemBlank(raw);
    } else {
      var w := ParseWidgetExpression(item);
      ParsedItemParsed(raw, w);
      if w.Some? {
        r := [w.value];
      }
    }
  }

  /** A blank element of a list yields no widget. */
  lemma ParsedItemBlank(raw: string)
    requires TrimSpace(raw) == []
    ensures ParsedItem(raw) == []
  {
  }

  /** A non-blank element yields the widget its parse gives, if any. */
  lemma ParsedItemParsed(raw: string, w: Option<WidgetNode>)
    requires TrimSpace(raw) != [] && w == ParseExpr(TrimSpace(raw))
    ensures ParsedItem(raw) == if w.Some? then [w.value] else []
  {
  }

  /** One pass of the list loop keeps the loop invariant. */
  lemma ParseItemsStep(items: seq<string>, k: nat, bound: nat, before: seq<WidgetNode>, after: seq<WidgetNode>)
    requires k < |items| && Within(items, bound)
    requires after == before + ParsedItem(items[k])
    ensures before + ParseItems(items[k..], bound) == after + ParseItems(items[k + 1..], bound)
  {
    assert items[k..][1..] == items[k + 1..];
  }

  /** ParseCall once the '(' and its ')' are known. */
  lemma ParseCallFound(t: string, p: nat, q: nat)
    requires IndexOf(t, '(') == Some(p) && p + 1 <= |t| && CloseFrom(t, p + 1, 1) == Some(q)
    ensures ParseCall(t) == Some(ApplyArgs(WidgetNode(NodeName(t[..p]), map[], []), SplitTopLevel(t[p + 1..q]), |t[p + 1..q]|))
  {
  }

  lemma ApplyArgsStep(node: WidgetNode, pieces: seq<string>, k: nat, bound: nat)
    requires k < |pieces| && Within(pieces, bound)
    ensures ApplyArgs(node, pieces[k..], bound)
      == ApplyArgs(ApplyEffect(node, Classify(pieces[k])), pieces[k + 1..], bound)
  {
    assert pieces[k..][1..] == pieces[k + 1..];
  }

  /** extractWidgetTree. */
  method ExtractWidgetTree(buildMethod: string) returns (r: Result<WidgetTree, ExtractError>)
    ensures r == ExtractTree(buildMethod)
  {
    var returnExpr := Locate.ReturnExpression(buildMethod);
    if returnExpr.None? {
      return Failure(ReturnStatementNotFound);
    }
    var widgetNode := ParseWidgetExpression(returnExpr.value);
    if widgetNode.None? {
      return Failure(WidgetExpressionUnparseable);
    }
    return Success(WidgetTree(widgetNode));
  }

  /** Parse. */
  method Parse(content: string) returns (r: Result<WidgetTree, ParseError>)
    ensures r == ParseSource(content)
  {
    var buildMethod := Locate.FindBuildMethod(content);
    if buildMethod == "" {
      return Failure(BuildMethodNotFound);
    }
    var tree := ExtractWidgetTree(buildMethod);
    if tree.Failure? {
      return Failure(ExtractFailed(tree.error));
    }
    return Success(tree.value);
  }
}

# Vortex compiler core, modelled in Dafny

Vortex compiles a Flutter-style Dart UI file into a browser JavaScript
program. Two components of its Go compiler do the translation, and this
project models both:

- **The expression parser** (`compiler-go/internal/parser/parser.go`). It finds
  the `build` method and its `return` expression. It reads the expression
  `Name(key: value, ..., children: [ ... ])` into a `WidgetNode` tree:
  - a depth scan finds the argument list;
  - a top-level comma splitter cuts the arguments;
  - a classifier with a fixed order of cases turns each `key: value` into a
    nested widget, children or a string.
- **The JavaScript generator** (`compiler-go/internal/generator/js_generator.go`).
  It works in four steps:
  - it collects the names of the user components (`My…`, `Custom…`);
  - it renames identifiers with `toCamelCase`;
  - it renders property maps, lists and children, with one lowering rule per
    widget kind;
  - it writes everything into the program template, together with the import
    lines and one stub class per component.

The tree they share (`compiler-go/internal/ast/ast.go`) is the datatype
`Ast.WidgetNode`. Each property value is a record of six optional fields.

Modules, in dependency order:

| module | what it holds |
|---|---|
| `Wrappers` | `Option` and `Result` |
| `GoStrings` | the `strings` functions the core calls, on `seq<char>` |
| `Ast` | the tree |
| `Splitter` | `splitArgsTopLevel` |
| `Locate` | the two regular expressions of the parser, as leftmost-first matchers |
| `Parser` | the parser |
| `ParserLemmas` | what the parser promises |
| `Naming` | `toCamelCase` |
| `Lowering` | the renderers and `findCustomWidgets` |
| `LoweringLemmas` | what the renderers promise |
| `Assembly` | imports, stubs, `fmt.Sprintf`, `Generate` |

The source's loops are proved against functions that state what they compute:
- each loop is a `method` with a `while` loop;
- `ensures` states its result equals a specification function;
- lemmas state what that function means.

The pure switch and recursion code, such as `toCamelCase`, `generatePropertyValue`
and `generateWidgetCode`, is written as functions, with methods mirroring the Go
code where it loops.

Where the code and its documentation differ, the model follows the code:
- A call-free member-access value such as `Colors.blue`, `Colors.grey[300]` or
  `BoxFit.cover` is stored as a String. Nothing marks it as a literal
  (`parser.go:168-171`). A member access that is also a call, such as
  `Theme.of(context)`, never reaches that test: the nested-widget test
  (`parser.go:146`) comes first and parses it as the widget `Theme_of`,
  whatever the comment at `parser.go:167` says
  (`ParserLemmas.ClassifyNestedWidget`).
- An empty `build` body captures `""`. `Parse` then reports "build method not
  found", the same as no match (`parser.go:25`).
- `generatePropsWithoutFAB` and `generatePropsWithoutIcon` skip only their own
  key. A `children` property therefore still appears in those props objects
  (`js_generator.go:929`, `948`).
- `Generate` passes four operands to a program template with five verbs
  (`js_generator.go:660`). `Assembly.Generate` models that call as written, so
  `buildUI` returns `%!s(MISSING)`. `Assembly.GenerateIntended` makes the call
  with the five operands the template stands for (see "## Findings").

## Model

| member | source | states |
|---|---|---|
| Splitter.SplitArgsTopLevel | compiler-go/internal/parser/parser.go:201-229 | The depth-counting loop, with its builder as a growing string, returns exactly `SplitTopLevel(s)` |
| Splitter.SplitTopLevel | compiler-go/internal/parser/parser.go:201-229 | Empty input gives no pieces; no piece is longer than the input |
| Splitter.ScanDepths | compiler-go/internal/parser/parser.go:204-215 | The two counters are the running `(`/`)` and `[`/`]` depths of the text read |
| Splitter.ScanRebuilds | compiler-go/internal/parser/parser.go:205-224 | The finished pieces and the open piece, joined with ",", are the text read |
| Splitter.ScanCurrentEmpty | compiler-go/internal/parser/parser.go:216-227 | The open piece is empty exactly when the text read ends in a top-level comma |
| Splitter.ScanSeparators | compiler-go/internal/parser/parser.go:216-221 | The separators between pieces sit exactly at the top-level commas |
| Splitter.SplitRebuildsInput | compiler-go/internal/parser/parser.go:201-229 | Joining the pieces with "," rebuilds the input, less a final empty piece after a trailing top-level comma |
| Splitter.SplitCutsAtTopCommasOnly | compiler-go/internal/parser/parser.go:205-221 | The cuts are exactly the top-level commas; every comma kept inside a piece has a non-zero `(` or `[` depth before it |
| Splitter.ScanBounded | compiler-go/internal/parser/parser.go:218-226 | No piece is longer than the text read so far |
| Locate.SkipSpaces | compiler-go/internal/parser/parser.go:41 | The longest run of `\s` from a position: all spaces, followed by a non-space or the end |
| Locate.GreedyMatch | compiler-go/internal/parser/parser.go:41 | Matching the build header with each `\s` run taken in full ends inside the text |
| Locate.GreedySound | compiler-go/internal/parser/parser.go:41 | What the greedy matcher consumes is in the header pattern's language |
| Locate.GreedyComplete | compiler-go/internal/parser/parser.go:41 | For a well-formed pattern, any text in its language is what the greedy matcher consumes |
| Locate.LitStep | compiler-go/internal/parser/parser.go:41 | A text matched by a literal then a pattern starts with the literal, and the rest matches the pattern |
| Locate.WsStep | compiler-go/internal/parser/parser.go:41 | A matched white-space run is the longest one there (at least one character for `\s+`) |
| Locate.BuildHeaderWellFormed | compiler-go/internal/parser/parser.go:41 | Every white-space run of the build header is followed by a non-space literal |
| Locate.CloseBrace | compiler-go/internal/parser/parser.go:41 | The first `\n}` at or after a position, or none; the lazy `([\s\S]*?)` stops there |
| Locate.BuildMatchAt | compiler-go/internal/parser/parser.go:41 | A match starting at the given position has its group inside the text |
| Locate.BuildMatchFrom | compiler-go/internal/parser/parser.go:41-42 | The first position from `i` where the build pattern matches, and no match before it |
| Locate.LocateBuild | compiler-go/internal/parser/parser.go:41-42 | The leftmost match of the build pattern, or none anywhere |
| Locate.BuildMethodMeaning | compiler-go/internal/parser/parser.go:39-48 | findBuildMethod returns the group of the leftmost match: after the header, up to the first `\n}` |
| Locate.NoBuildMethod | compiler-go/internal/parser/parser.go:42-45 | When no header-and-body match exists anywhere in the text, there is no leftmost match and findBuildMethod returns `""` |
| Locate.BuildHeaderUnique | compiler-go/internal/parser/parser.go:41 | Any stretch the header pattern matches from a position is exactly the one the greedy matcher consumes, so it matches in one way only |
| Locate.SemicolonFrom | compiler-go/internal/parser/parser.go:54 | The first `;` at or after a position, or none |
| Locate.ReturnMatchAt | compiler-go/internal/parser/parser.go:54 | A match of `return\s+([\s\S]+?);` at a position: a non-empty group with no `;` inside |
| Locate.ReturnMatchAtPreferred | compiler-go/internal/parser/parser.go:54 | Among all ways to match at a position, Go's preference picks this one (longest `\s+`, then shortest group); none exists when it reports none |
| Locate.ReturnMatchFrom | compiler-go/internal/parser/parser.go:54-55 | The first position from `i` where the return pattern matches |
| Locate.LocateReturn | compiler-go/internal/parser/parser.go:54-55 | The leftmost, preferred match of the return pattern, or none anywhere |
| Locate.ReturnExpression | compiler-go/internal/parser/parser.go:54-58 | The captured expression is non-empty and holds no `;` after its first character; none exactly when nothing matches |
| Parser.StripConst | compiler-go/internal/parser/parser.go:79-81 | Dropping `const ` never lengthens the text |
| Parser.NodeName | compiler-go/internal/parser/parser.go:88-89 | A node name never contains `.` |
| Parser.CloseFrom | compiler-go/internal/parser/parser.go:92-109 | The closing position found holds a `)` |
| Parser.MatchingParen | compiler-go/internal/parser/parser.go:92-109 | The depth loop returns -1 exactly when no `)` closes the first `(`, and otherwise the position `CloseFrom` gives |
| Parser.ParseWidgetExpression | compiler-go/internal/parser/parser.go:72-178 | The recursive parse with its argument loop returns exactly `ParseExpr(expr)` |
| Parser.ClassifyArgument | compiler-go/internal/parser/parser.go:120-174 | One pass of the argument loop does what `Classify` says |
| Parser.ParseWidgetList | compiler-go/internal/parser/parser.go:181-198 | The list loop returns exactly `WidgetList(list)` |
| Parser.ParseListItem | compiler-go/internal/parser/parser.go:188-195 | One pass of the list loop yields exactly `ParsedItem(raw)`: nothing for a blank element, else the widget the element parses to, if any |
| Parser.ListInner | compiler-go/internal/parser/parser.go:182-184 | Stripping the brackets never lengthens the text |
| Parser.ParsedItem | compiler-go/internal/parser/parser.go:188-195 | A list element yields at most one widget |
| Parser.ParsedItemBlank | compiler-go/internal/parser/parser.go:189-192 | A blank element yields no widget |
| Parser.ParsedItemParsed | compiler-go/internal/parser/parser.go:193-195 | A non-blank element yields the widget its parse gives, or nothing |
| Parser.ParseItemsStep | compiler-go/internal/parser/parser.go:188-196 | One pass of the list loop keeps the loop's invariant |
| Parser.ParseCallFound | compiler-go/internal/parser/parser.go:84-119 | Once the first `(` and its `)` are known, the node is the argument loop over the split text between them |
| Parser.ApplyArgsStep | compiler-go/internal/parser/parser.go:120-175 | The argument loop applies each argument's effect in turn |
| Parser.ExtractWidgetTree | compiler-go/internal/parser/parser.go:52-69 | extractWidgetTree returns exactly `ExtractTree(body)`, errors included |
| Parser.Parse | compiler-go/internal/parser/parser.go:22-36 | Parse returns exactly `ParseSource(content)`, errors included |
| ParserLemmas.CloseFromDepths | compiler-go/internal/parser/parser.go:92-106 | The depth scan stated with depths: the found `)` brings the depth to zero and none before it does; with none found, the depth stays positive to the end |
| ParserLemmas.CloseFromMeaning | compiler-go/internal/parser/parser.go:92-109 | The found position is the only `)` that closes the first `(`; none is found exactly when no `)` closes it |
| ParserLemmas.ParseExprOutcome | compiler-go/internal/parser/parser.go:73-119 | The parse fails exactly when the text is blank, has no `(`, or no `)` closes it; otherwise it names the node from the text before `(` and applies the arguments strictly between `(` and the closing `)` |
| ParserLemmas.ParseCallIgnoresTrailing | compiler-go/internal/parser/parser.go:95-110 | Text after the closing `)` plays no part in the result |
| ParserLemmas.ApplyArgsKeepsName | compiler-go/internal/parser/parser.go:112-177 | The argument loop never changes the node's name |
| ParserLemmas.ClassifyPositional | compiler-go/internal/parser/parser.go:121-129 | Blank and colon-free arguments add nothing |
| ParserLemmas.ClassifyKey | compiler-go/internal/parser/parser.go:126-131 | A property's key is the trimmed text before the first `:` and holds no `:` |
| ParserLemmas.ClassifyClosure | compiler-go/internal/parser/parser.go:132-136 | A value starting with `(` and containing `) {` is skipped, before any other test: whatever the key, even `children`, and even when the value would parse as a widget |
| ParserLemmas.ApplyArgsDropsSkipped | compiler-go/internal/parser/parser.go:120-175 | An argument the classifier skips can be left out of the argument list: the node comes out the same |
| ParserLemmas.ClosureArgumentIgnored | compiler-go/internal/parser/parser.go:120-136 | A function-literal argument, wherever it stands among the others, leaves the node exactly as the other arguments make it |
| ParserLemmas.ClassifyChildren | compiler-go/internal/parser/parser.go:139-143 | Only a bracketed `children` value contributes children: the list's widgets |
| ParserLemmas.ApplyArgsChildren | compiler-go/internal/parser/parser.go:139-143 | The node's children are its old children, then each argument's list, in argument order |
| ParserLemmas.ApplyArgsSnoc | compiler-go/internal/parser/parser.go:120-175 | The loop on one more argument runs that argument after the others |
| ParserLemmas.ApplyArgsProperty | compiler-go/internal/parser/parser.go:146-174 | A key ends up as the last argument that sets it sets it; untouched keys keep their value |
| ParserLemmas.ClassifyNestedWidget | compiler-go/internal/parser/parser.go:146-149 | A non-closure value that parses as a widget becomes a Widget property, before the member-access test: a dotted call such as `Theme.of(context)` becomes the widget `Theme_of`, not text |
| ParserLemmas.ClassifyText | compiler-go/internal/parser/parser.go:150-174 | Otherwise: other lists are dropped, `$` gives `INTERPOLATED_STRING`, quoted text has its quotes trimmed, anything else is kept as it is |
| ParserLemmas.ParseItemsAppend | compiler-go/internal/parser/parser.go:188-196 | The widgets of two runs of elements are those of each, one after the other |
| ParserLemmas.ParseItemsDropsFailure | compiler-go/internal/parser/parser.go:189-195 | A blank or unparseable element is dropped without a trace |
| ParserLemmas.ParseItemsAllParse | compiler-go/internal/parser/parser.go:188-197 | When every element parses, each gives its widget, in element order |
| ParserLemmas.ClassifyWellParsed | compiler-go/internal/parser/parser.go:133-174 | An argument's effect only ever sets a String or a Widget property or appends parsed widgets |
| ParserLemmas.EffectKeepsWellParsed | compiler-go/internal/parser/parser.go:141-174 | Such an effect keeps a parser-made tree parser-made |
| ParserLemmas.ApplyArgsWellParsed | compiler-go/internal/parser/parser.go:120-175 | So does the argument loop |
| ParserLemmas.ParseExprWellParsed | compiler-go/internal/parser/parser.go:72-178 | A parsed tree holds only String and Widget properties, at every depth |
| ParserLemmas.ParseCallWellParsed | compiler-go/internal/parser/parser.go:84-177 | The same, for the text after `const` |
| ParserLemmas.WidgetListWellParsed | compiler-go/internal/parser/parser.go:181-198 | Every widget of a parsed list is parser-made |
| ParserLemmas.ParseItemsWellParsed | compiler-go/internal/parser/parser.go:188-196 | The same, for the list loop |
| ParserLemmas.ParsedItemWellParsed | compiler-go/internal/parser/parser.go:189-195 | The same, for one element |
| ParserLemmas.MessagesDistinct | compiler-go/internal/parser/parser.go:22-65 | The three failures carry three different messages |
| ParserLemmas.ParseSourceOutcome | compiler-go/internal/parser/parser.go:22-69 | Parse fails with "build method not found" exactly when the body is empty; with "return statement not found" only when nothing matches; with "failed to parse" only when the return expression does not parse; success always carries a non-nil, parser-made root |
| GoStrings.TrimSpaceMeaning | compiler-go/internal/parser/parser.go:73 | strings.TrimSpace keeps a slice of its input that neither starts nor ends with white space, empty exactly when the input is all white space |
| GoStrings.TrimCutset | compiler-go/internal/parser/parser.go:163 | strings.Trim leaves no cutset character at either end and adds no character |
| GoStrings.IndexOf | compiler-go/internal/parser/parser.go:84 | strings.Index of one character: none exactly when absent, else the first position holding it |
| GoStrings.ReplaceChar | compiler-go/internal/parser/parser.go:89 | strings.ReplaceAll of one character: each occurrence replaced, nothing else changed |
| GoStrings.ContainsChar | compiler-go/internal/parser/parser.go:134 | strings.Contains of a one-character string is membership |
| GoStrings.SplitMeaning | compiler-go/internal/generator/js_generator.go:890 | strings.Split pieces hold no separator, and joining them with it gives the text back |
| GoStrings.ToLower | compiler-go/internal/generator/js_generator.go:893 | strings.ToLower maps each character, same length |
| GoStrings.Title | compiler-go/internal/generator/js_generator.go:895 | strings.Title upper-cases each letter that starts a word, same length |
| GoStrings.SortedKeys | compiler-go/internal/generator/js_generator.go:782 | The order the model walks a map in: every key, exactly once |
| Naming.CamelCase | compiler-go/internal/generator/js_generator.go:853-900 | The loop over the split segments returns exactly `ToCamelCase(s)` |
| Naming.ToCamelCaseTable | compiler-go/internal/generator/js_generator.go:855-883 | Table names come back unchanged, except ThemeData, which becomes `themeData` |
| Naming.ToCamelCaseCustom | compiler-go/internal/generator/js_generator.go:886-888 | `My…`/`Custom…` names come back unchanged |
| Naming.ToCamelCaseSegments | compiler-go/internal/generator/js_generator.go:890-898 | Any other name: no `_` in the result; its length is the input's less the separators; each segment is found in place, the first lower-cased and each later one title-cased |
| Naming.ToCamelCaseOneSegment | compiler-go/internal/generator/js_generator.go:890-898 | A name with no `_` is lower-cased whole |
| Naming.AppBarLowered | compiler-go/internal/generator/js_generator.go:860-893 | `appBar` is not in the table and comes out as `appbar` |
| Lowering.GenerateWidgetCode | compiler-go/internal/generator/js_generator.go:710-773 | The Go switch computes exactly `WidgetJs(n)` |
| Lowering.GenerateProps | compiler-go/internal/generator/js_generator.go:776-792 | The props loop (skip set `children`, or those of lines 910, 929, 948) returns exactly `PropsJs(n, skip)` |
| Lowering.GeneratePropertyValue | compiler-go/internal/generator/js_generator.go:795-822 | The switch returns exactly `ValueJs(v)` |
| Lowering.GenerateStyle | compiler-go/internal/generator/js_generator.go:811-818 | The style loop returns exactly `StyleJs(m)` |
| Lowering.StyleEntries | compiler-go/internal/generator/js_generator.go:812-817 | One style entry per key |
| Lowering.GenerateList | compiler-go/internal/generator/js_generator.go:825-836 | The list loop returns exactly `ListJs(l)` |
| Lowering.GenerateChildren | compiler-go/internal/generator/js_generator.go:839-850 | The children loop returns exactly `ChildrenJs(n)` |
| Lowering.Walk | compiler-go/internal/generator/js_generator.go:782-785 | The keys a props loop visits are keys of the node's properties |
| Lowering.KeptMembers | compiler-go/internal/generator/js_generator.go:783-785 | A key is kept exactly when it is visited and not skipped |
| Lowering.PropsStep | compiler-go/internal/generator/js_generator.go:782-789 | One pass of the props loop adds the key's entry unless it is skipped |
| Lowering.FindCustomWidgets | compiler-go/internal/generator/js_generator.go:686-707 | The recursive walk adds to the set exactly `CustomNames(n)` |
| Lowering.FindInChildren | compiler-go/internal/generator/js_generator.go:698-700 | The children loop adds the names below every child |
| Lowering.FindInProperties | compiler-go/internal/generator/js_generator.go:703-707 | The properties loop, in any order, adds the names below every Widget-valued property |
| Lowering.PropertyStep | compiler-go/internal/generator/js_generator.go:703-707 | One pass of the properties loop keeps its invariant |
| Lowering.ChildNamesMeaning | compiler-go/internal/generator/js_generator.go:698-700 | A name is found below the first `i` children exactly when one of them records it |
| Lowering.PropertyNamesMeaning | compiler-go/internal/generator/js_generator.go:703-707 | A name is found below the properties exactly when a Widget-valued one records it |
| Lowering.CustomNamesComplete | compiler-go/internal/generator/js_generator.go:686-707 | Every reachable user component's name is recorded |
| Lowering.CustomNamesSound | compiler-go/internal/generator/js_generator.go:686-707 | Every recorded name is that of a reachable user component |
| Lowering.CustomNamesReach | compiler-go/internal/generator/js_generator.go:686-707 | The recorded names are exactly the `My…`/`Custom…` names reachable through children and Widget-valued properties |
| LoweringLemmas.KeptSorted | compiler-go/internal/generator/js_generator.go:782-785 | Skipping keys during the walk is walking the keys that are left |
| LoweringLemmas.WalkSorted | compiler-go/internal/generator/js_generator.go:782-785 | A props loop visits exactly the keys outside the skip set |
| LoweringLemmas.PropsEntries | compiler-go/internal/generator/js_generator.go:776-792 | `{}` for an empty map; otherwise `{` + entries + `}`, exactly one entry per key outside the skip set, in some order |
| LoweringLemmas.PropsOutsideSkip | compiler-go/internal/generator/js_generator.go:776-792 | A props object depends only on the properties outside the skip set |
| LoweringLemmas.PropsIgnoreSkipped | compiler-go/internal/generator/js_generator.go:783-785 | Setting a skipped key (`children` for generateProps) leaves the props object as it was |
| LoweringLemmas.PropsOfNoShownKeys | compiler-go/internal/generator/js_generator.go:777-791 | With no key outside the skip set, the props object is `{}` |
| LoweringLemmas.ValueFirstFieldWins | compiler-go/internal/generator/js_generator.go:796-821 | Only the first populated field (String, Number, Boolean, Widget, List, Style) decides; a value with none is `null` |
| LoweringLemmas.StringUnescaped | compiler-go/internal/generator/js_generator.go:797-798 | A String is quoted as it is, with no escaping |
| LoweringLemmas.ThemeDataAsProps | compiler-go/internal/generator/js_generator.go:803-807 | A ThemeData widget value is its props object; its children and its `children` property play no part |
| LoweringLemmas.CustomWidgetConstructed | compiler-go/internal/generator/js_generator.go:725-727 | A user component becomes `new <Name>(props, children)` under its own name |
| LoweringLemmas.PlainCallsKeepName | compiler-go/internal/generator/js_generator.go:731-762 | MaterialApp, AppBar, Center, Text, ElevatedButton and FloatingActionButton become `this.<Name>(props, children)` |
| LoweringLemmas.SizedBoxPropsOnly | compiler-go/internal/generator/js_generator.go:759-760 | A SizedBox gets its props only |
| LoweringLemmas.ChildlessWidgets | compiler-go/internal/generator/js_generator.go:759-769 | A SizedBox's or an Icon's children never reach its code |
| LoweringLemmas.OtherWidgetsCalled | compiler-go/internal/generator/js_generator.go:770-771 | An unknown name becomes `this.<toCamelCase(name)>(props, children)` |
| LoweringLemmas.ScaffoldFabSlot | compiler-go/internal/generator/js_generator.go:733-741 | A Scaffold's floatingActionButton widget fills one slot; the text around it does not depend on it |
| LoweringLemmas.FabFilled | compiler-go/internal/generator/js_generator.go:733-741 | That slot is between `floatingActionButton: ` and `}, children)`, after the props without the FAB |
| LoweringLemmas.ScaffoldWithoutFab | compiler-go/internal/generator/js_generator.go:735-741 | With no Widget-valued floatingActionButton the slot is empty |
| LoweringLemmas.ColumnAlignmentSlot | compiler-go/internal/generator/js_generator.go:746-754 | A Column's mainAxisAlignment string fills one slot; the text around it does not depend on it |
| LoweringLemmas.AlignmentFilled | compiler-go/internal/generator/js_generator.go:746-754 | That slot is inside `mainAxisAlignment: '…'`, after the props without children and alignment, before the children |
| LoweringLemmas.ColumnWithoutAlignment | compiler-go/internal/generator/js_generator.go:748-754 | With no String mainAxisAlignment the Column passes `''` |
| LoweringLemmas.IconSlot | compiler-go/internal/generator/js_generator.go:763-769 | An Icon's icon string fills one slot; the text around it does not depend on it |
| LoweringLemmas.IconFilled | compiler-go/internal/generator/js_generator.go:763-769 | That slot is inside `icon: '…'`, after the props without the icon |
| LoweringLemmas.IconWithoutName | compiler-go/internal/generator/js_generator.go:764-769 | With no String icon the Icon passes `''` |
| LoweringLemmas.ChildrenOnlyChildren | compiler-go/internal/generator/js_generator.go:839-850 | The children array depends on the children only |
| LoweringLemmas.ChildrenSmall | compiler-go/internal/generator/js_generator.go:839-850 | No children give `[]`; one child gives its code in brackets |
| LoweringLemmas.ChildrenInOrder | compiler-go/internal/generator/js_generator.go:844-849 | The array of `a + b` is the arrays of `a` and `b` spliced, so children keep their order |
| LoweringLemmas.ListSmall | compiler-go/internal/generator/js_generator.go:825-835 | No items give `[]`; one item gives its code in brackets |
| LoweringLemmas.ListInOrder | compiler-go/internal/generator/js_generator.go:830-835 | The array of `a + b` is the arrays of `a` and `b` spliced, so items keep their order |
| LoweringLemmas.ListsNotSearched | compiler-go/internal/generator/js_generator.go:703-707 | A property holding only a List records no name, whatever widgets the list holds |
| LoweringLemmas.PropertyNamesAgree | compiler-go/internal/generator/js_generator.go:703-707 | Nodes whose properties agree on some keys find the same names below those keys |
| Assembly.ImportLines | compiler-go/internal/generator/js_generator.go:673-683 | Read line by line, the imports are the vortex line first, then the flutterwind line exactly when UseFlutterWind is set |
| Assembly.ImportsText | compiler-go/internal/generator/js_generator.go:673-683 | The imports are the vortex line, or that line, a newline and the flutterwind line |
| Assembly.RenderStep | compiler-go/internal/generator/js_generator.go:93-668 | fmt.Sprintf gives a verb the next operand, or `%!verb(MISSING)` when none is left |
| Assembly.FourOperands | compiler-go/internal/generator/js_generator.go:93-668 | The program template with four operands: the first four verbs are filled, the fifth prints `%!s(MISSING)` |
| Assembly.FiveOperands | compiler-go/internal/generator/js_generator.go:93-668 | With five operands each verb gets its own and nothing is added |
| Assembly.AsWrittenBuildUIMissing | compiler-go/internal/generator/js_generator.go:93-668 | As written, for every tree: `buildUI` returns `%!s(MISSING)`, the widget code sits before the App class, and the stubs come before the FlutterUI class |
| Assembly.AssembleLayout | compiler-go/internal/generator/js_generator.go:93-668 | As intended: the program starts with the vortex import, the FlutterWind flag fills the runtime's test, the stubs follow the runtime, and `buildUI` returns the root's code |
| Assembly.Stub | compiler-go/internal/generator/js_generator.go:45-86 | A component's stub is `\nclass <name>` and the fixed stub text |
| Assembly.StubInjective | compiler-go/internal/generator/js_generator.go:45-86 | Different components get different stubs |
| Assembly.StubsPerName | compiler-go/internal/generator/js_generator.go:39-87 | One stub per recorded name: as many stubs as names, all different, and a name's stub is written exactly when the name is recorded |
| Assembly.StubsForReachable | compiler-go/internal/generator/js_generator.go:39-87 | A program defines a component's stub exactly when the root reaches a component of that name |
| Assembly.WriteStubs | compiler-go/internal/generator/js_generator.go:43-87 | The builder loop writes the stubs of the names in order |
| Assembly.ProgramParts | compiler-go/internal/generator/js_generator.go:35-90 | The imports, the stubs of the recorded components in the model's map order, and the root's code (`null` for a nil root) |
| Assembly.Generate | compiler-go/internal/generator/js_generator.go:28-670 | As written: a config that fails to load gives `error loading config: …`; otherwise the program is the four-operand Sprintf `AssembleAsWritten`, so it ends with `buildUI` returning `%!s(MISSING)` |
| Assembly.GenerateIntended | compiler-go/internal/generator/js_generator.go:28-670 | The same with the operand list the template's five verbs stand for: the program is `Assemble`, and it ends with `buildUI` returning the root's code |

## Left out

- Configuration loading (`config.LoadConfig`, `internal/config/config.go`) is not part of this model. `Generate` takes its outcome as a parameter: a `Result` of a config record or an error text.
- The `fmt.Println` debug output of the parser is not modelled.
- The text of the JavaScript runtime and of the stub class is not modelled character by character. It is a parameter (`Assembly.Texts`), and every statement holds for any such text.
- Go map iteration order is random. The renderers and the stub loop walk keys in one fixed order, `GoStrings.SortedKeys`. The contracts about props only state order-free facts: which keys appear, and one entry per key. `findCustomWidgets` is modelled with an arbitrary order.
- The Number variant's `%v` formatting of a `float64` is not modelled; a number carries its printed text. The parser never produces a Number, Boolean, List or Style.
- `strings.ToLower` and `strings.Title` are modelled for ASCII letters only. Non-ASCII letters keep their case.
- The tree is a value. Go's pointers, aliasing between nodes and nil child pointers are not modelled. Only a nil root is modelled.
- The regular expressions of `findBuildMethod` and `extractWidgetTree` are modelled as hand-written leftmost-first matchers for these two patterns, not as a general regexp engine.
- `parsePropertyValue`, `parseWidget`, `parseWidgetTree` and `stringPtr` (`parser.go:231-318`) are never called and are not modelled. Neither is `pkg/ast`.
- The four props functions are one method, `Lowering.GenerateProps`, parameterised by the set of keys each one skips.
- Strings are sequences of code points, not UTF-8 bytes. Every delimiter the core looks for is ASCII, so the cuts are the same.

## Findings

| source | as written | input that shows it | evidently intended | confidence | as-written member | corrected member |
|---|---|---|---|---|---|---|
| compiler-go/internal/generator/js_generator.go:93-668 | The program template has five verbs: `%s` at lines 93, 95 and 650, `%v` at 138 and `%s` at 659. Generate passes four operands: imports, stubs, flag, widget code. The widget code lands at line 650, outside any function, and `buildUI` returns `%!s(MISSING)`. The stubs land at line 95, before the `FlutterUI` class they extend. | Any tree, e.g. a file whose build method returns `Text('hi')` | Stubs at line 650, after FlutterUI, and the widget code returned by `buildUI` at line 659 | not executed | Assembly.AsWrittenBuildUIMissing (on Assembly.AssembleAsWritten) | Assembly.AssembleLayout (on Assembly.Assemble, used by Assembly.GenerateIntended) |

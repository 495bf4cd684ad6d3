/**
  Generate (internal/generator/js_generator.go): the whole generated program.

  The generator writes the import lines, one stub class per user component
  the tree reaches, and the widget code of the root into one large
  `fmt.Sprintf` template that also carries the FlutterUI runtime and the App
  class whose `buildUI` returns the root's code. The template has five verbs
  and Go passes four arguments; `AssembleAsWritten` models that call and
  `Assemble` the call with the argument list the template evidently expects.

  The runtime text between the verbs is not modelled character by character:
  it is given as `Texts`, and every statement here holds for any such text.
*/
module Assembly {
  import opened Wrappers
  import opened GoStrings
  import opened Ast
  import opened Naming
  import opened Lowering

  // ---------------------------------------------------------------------------
  // Configuration and imports
  // ---------------------------------------------------------------------------

  /** The one field of config.VortexConfig the generator reads: `Compiler.UseFlutterWind`. */
  datatype Config = Config(useFlutterWind: bool)

  const VortexImport: string := "import { createElement } from 'vortex';"
  const FlutterWindImport: string := "import { tw } from 'flutterwind';"

  /** generateImports: the import lines joined with newlines. */
  function GenerateImports(cfg: Config): string
  {
    var lines := if cfg.useFlutterWind then [VortexImport, FlutterWindImport] else [VortexImport];
    Join(lines, "\n")
  }

  lemma ImportsText(cfg: Config)
    ensures GenerateImports(cfg) == if cfg.useFlutterWind then VortexImport + "\n" + FlutterWindImport else VortexImport
  {
    if cfg.useFlutterWind {
      assert [VortexImport, FlutterWindImport][1..] == [FlutterWindImport];
      assert Join([FlutterWindImport], "\n") == FlutterWindImport;
    }
  }

  /**
    Read back line by line, the imports are the vortex line first, then the
    flutterwind line exactly when the configuration asks for FlutterWind.
  */
  lemma ImportLines(cfg: Config)
    ensures Split(GenerateImports(cfg), '\n')[0] == VortexImport
    ensures |Split(GenerateImports(cfg), '\n')| == if cfg.useFlutterWind then 2 else 1
    ensures FlutterWindImport in Split(GenerateImports(cfg), '\n') <==> cfg.useFlutterWind
  {
    ImportConstants();
    ImportsText(cfg);
    if cfg.useFlutterWind {
      TwoLines(VortexImport, FlutterWindImport);
    } else {
      SplitNone(VortexImport, '\n');
    }
  }

  lemma TwoLines(a: string, b: string)
    requires '\n' !in a && '\n' !in b
    ensures Split(a + "\n" + b, '\n') == [a, b]
  {
    SplitFirst(a, b, '\n');
    SplitNone(b, '\n');
  }

  lemma ImportConstants()
    ensures '\n' !in VortexImport && '\n' !in FlutterWindImport && FlutterWindImport != VortexImport
  {
    assert forall i :: 0 <= i < |VortexImport| ==> VortexImport[i] != '\n';
    assert forall i :: 0 <= i < |FlutterWindImport| ==> FlutterWindImport[i] != '\n';
    assert |FlutterWindImport| == 33 && |VortexImport| == 39;
  }

  // ---------------------------------------------------------------------------
  // fmt.Sprintf, for the verbs the generator uses
  // ---------------------------------------------------------------------------

  /** A format string, cut into literal text and verbs (`%s`, `%v`). */
  datatype Piece = Lit(text: string) | Verb(verb: char)

  /** The operands the generator passes: strings and one bool. */
  datatype Arg = StrArg(s: string) | BoolArg(b: bool)

  function BoolText(b: bool): string
  {
    if b then "true" else "false"
  }

  /** One verb applied to one operand, with Go's `%!verb(type=value)` for a bad pairing. */
  function Formatted(verb: char, a: Arg): string
  {
    match a
    case StrArg(s) => if verb == 's' || verb == 'v' then s else "%!" + [verb] + "(string=" + s + ")"
    case BoolArg(b) => if verb == 'v' || verb == 't' then BoolText(b) else "%!" + [verb] + "(bool=" + BoolText(b) + ")"
  }

  /** What Go prints for a verb that has no operand left. */
  function Missing(verb: char): string
  {
    "%!" + [verb] + "(MISSING)"
  }

  /** The text a missing `%s` operand prints. */
  lemma MissingString()
    ensures Missing('s') == "%!s(MISSING)"
  {
  }

  /** The pieces in order, each verb taking the next operand. */
  function Render(pieces: seq<Piece>, args: seq<Arg>): string
    decreases |pieces|
  {
    if pieces == [] then ""
    else match pieces[0]
      case Lit(t) => t + Render(pieces[1..], args)
      case Verb(c) =>
        if args == [] then Missing(c) + Render(pieces[1..], [])
        else Formatted(c, args[0]) + Render(pieces[1..], args[1..])
  }

  /** The operands no verb of `pieces` took. */
  function Leftover(pieces: seq<Piece>, args: seq<Arg>): seq<Arg>
    decreases |pieces|
  {
    if pieces == [] then args
    else match pieces[0]
      case Lit(_) => Leftover(pieces[1..], args)
      case Verb(_) => Leftover(pieces[1..], if args == [] then [] else args[1..])
  }

  function ArgText(a: Arg): string
  {
    match a
    case StrArg(s) => "string=" + s
    case BoolArg(b) => "bool=" + BoolText(b)
  }

  /** Go's `%!(EXTRA type=value, …)` for operands no verb took. */
  function Extra(args: seq<Arg>): string
  {
    if args == [] then ""
    else "%!(EXTRA " + Join(seq(|args|, i requires 0 <= i < |args| => ArgText(args[i])), ", ") + ")"
  }

  /** fmt.Sprintf. */
  function Sprintf(pieces: seq<Piece>, args: seq<Arg>): string
  {
    Render(pieces, args) + Extra(Leftover(pieces, args))
  }

  /** A literal followed by a verb, then the rest of the format. */
  lemma RenderStep(text: string, verb: char, rest: seq<Piece>, args: seq<Arg>)
    ensures Render([Lit(text), Verb(verb)] + rest, args)
      == text + (if args == [] then Missing(verb) else Formatted(verb, args[0]))
        + Render(rest, if args == [] then [] else args[1..])
    ensures Leftover([Lit(text), Verb(verb)] + rest, args) == Leftover(rest, if args == [] then [] else args[1..])
  {
    var p := [Lit(text), Verb(verb)] + rest;
    assert p[0] == Lit(text);
    assert p[1..] == [Verb(verb)] + rest;
    assert p[1..][0] == Verb(verb);
    assert p[1..][1..] == rest;
    var x := if args == [] then Missing(verb) else Formatted(verb, args[0]);
    var tail := if args == [] then [] else args[1..];
    assert Render(p[1..], args) == x + Render(rest, tail);
    assert Render(p, args) == text + (x + Render(rest, tail));
    AppendAssoc(text, x, Render(rest, tail));
  }

  lemma RenderLast(text: string, args: seq<Arg>)
    ensures Render([Lit(text)], args) == text
    ensures Leftover([Lit(text)], args) == args
  {
    assert [Lit(text)][1..] == [];
  }

  // ---------------------------------------------------------------------------
  // The program template and the component stubs
  // ---------------------------------------------------------------------------

  /**
    The literal text of the two templates, between their verbs (`%%` already
    read as `%`).  In the program template: `head` before the imports, `gap`
    between the first two verbs, `runtime` the FlutterUI class up to the
    FlutterWind test, `styles` the rest of the runtime, `app` the App class up
    to `buildUI`'s return, `tail` the rest.  In the stub template: the text
    after the component's name.
  */
  datatype Texts = Texts(
    head: string, gap: string, runtime: string, styles: string, app: string, tail: string,
    stubTail: string)

  /** The program template: five verbs, `%s %s %v %s %s`. */
  function Template(t: Texts): seq<Piece>
  {
    [Lit(t.head), Verb('s')] + ([Lit(t.gap), Verb('s')] + ([Lit(t.runtime), Verb('v')]
      + ([Lit(t.styles), Verb('s')] + ([Lit(t.app), Verb('s')] + [Lit(t.tail)]))))
  }

  /** The stub template: `\nclass %s extends FlutterUI {…}`. */
  function StubTemplate(t: Texts): seq<Piece>
  {
    [Lit("\nclass "), Verb('s')] + [Lit(t.stubTail)]
  }

  /** The stub class for one user component. */
  function Stub(t: Texts, name: string): (r: string)
    ensures r == "\nclass " + name + t.stubTail
  {
    RenderStep("\nclass ", 's', [Lit(t.stubTail)], [StrArg(name)]);
    RenderLast(t.stubTail, []);
    Sprintf(StubTemplate(t), [StrArg(name)])
  }

  /** The stubs of `names`, in that order. */
  function StubList(t: Texts, names: seq<string>): (r: seq<string>)
    ensures |r| == |names|
  {
    seq(|names|, i requires 0 <= i < |names| => Stub(t, names[i]))
  }

  /** Different components get different stubs. */
  lemma StubInjective(t: Texts, a: string, b: string)
    requires Stub(t, a) == Stub(t, b)
    ensures a == b
  {
    var sa := Stub(t, a);
    assert |a| == |b|;
    assert a == sa[7..7 + |a|];
  }

  /** The components `findCustomWidgets` records for the root (none for a nil root). */
  function RootNames(root: Option<WidgetNode>): set<string>
  {
    match root
    case None => {}
    case Some(n) => CustomNames(n)
  }

  /** The stub classes the generator writes, in the model's map order. */
  function StubDefs(t: Texts, root: Option<WidgetNode>): string
  {
    Join(StubList(t, SortedKeys(RootNames(root))), "")
  }

  /**
    One stub per recorded component: the stubs are as many as the names, all
    different, and a name's stub is among them exactly when it was recorded.
  */
  lemma StubsPerName(t: Texts, root: Option<WidgetNode>)
    ensures |StubList(t, SortedKeys(RootNames(root)))| == |RootNames(root)|
    ensures NoDuplicates(StubList(t, SortedKeys(RootNames(root))))
    ensures forall k :: Stub(t, k) in StubList(t, SortedKeys(RootNames(root))) <==> k in RootNames(root)
  {
    var keys := SortedKeys(RootNames(root));
    StubsDistinct(t, keys);
    forall k ensures Stub(t, k) in StubList(t, keys) <==> k in keys {
      StubFound(t, keys, k);
    }
  }

  /**
    A program defines the stub class of a name exactly when some widget the
    root reaches, through children or widget-valued properties, is a user
    component of that name.
  */
  lemma StubsForReachable(t: Texts, n: WidgetNode, k: string)
    ensures Stub(t, k) in StubList(t, SortedKeys(RootNames(Some(n))))
      <==> exists m :: Reaches(n, m) && IsCustomName(m.name) && m.name == k
  {
    StubFound(t, SortedKeys(CustomNames(n)), k);
    CustomNamesReach(n, k);
  }

  lemma StubsDistinct(t: Texts, keys: seq<string>)
    requires NoDuplicates(keys)
    ensures NoDuplicates(StubList(t, keys))
  {
    var stubs := StubList(t, keys);
    forall i, j | 0 <= i < j < |stubs| ensures stubs[i] != stubs[j] {
      if stubs[i] == stubs[j] {
        StubInjective(t, keys[i], keys[j]);
      }
    }
  }

  lemma StubFound(t: Texts, keys: seq<string>, k: string)
    ensures Stub(t, k) in StubList(t, keys) <==> k in keys
  {
    var stubs := StubList(t, keys);
    if Stub(t, k) in stubs {
      var i :| 0 <= i < |stubs| && stubs[i] == Stub(t, k);
      StubInjective(t, keys[i], k);
    }
    if k in keys {
      var i :| 0 <= i < |keys| && keys[i] == k;
      assert stubs[i] == Stub(t, k);
    }
  }

  // ---------------------------------------------------------------------------
  // The program, as written and as intended
  // ---------------------------------------------------------------------------

  /** Generate's final Sprintf as Go calls it: four operands for five verbs. */
  function AssembleAsWritten(t: Texts, cfg: Config, root: Option<WidgetNode>): string
  {
    Sprintf(Template(t), [StrArg(GenerateImports(cfg)), StrArg(StubDefs(t, root)),
      BoolArg(cfg.useFlutterWind), StrArg(RootJs(root))])
  }

  /**
    The same call with the operands the template's verbs stand for: the
    imports, nothing for the second verb, the FlutterWind flag, the stubs
    after the FlutterUI class they extend, and the root's code in `buildUI`.
  */
  function Assemble(t: Texts, cfg: Config, root: Option<WidgetNode>): string
  {
    Sprintf(Template(t), [StrArg(GenerateImports(cfg)), StrArg(""),
      BoolArg(cfg.useFlutterWind), StrArg(StubDefs(t, root)), StrArg(RootJs(root))])
  }

  /** Four operands: every verb but the last is filled, and the last prints `%!s(MISSING)`. */
  lemma FourOperands(t: Texts, a: string, b: string, flag: bool, c: string)
    ensures Sprintf(Template(t), [StrArg(a), StrArg(b), BoolArg(flag), StrArg(c)])
      == t.head + a + (t.gap + b + (t.runtime + BoolText(flag) + (t.styles + c + (t.app + Missing('s') + t.tail))))
  {
    var p5 := [Lit(t.app), Verb('s')] + [Lit(t.tail)];
    var p4 := [Lit(t.styles), Verb('s')] + p5;
    var p3 := [Lit(t.runtime), Verb('v')] + p4;
    var p2 := [Lit(t.gap), Verb('s')] + p3;
    var args := [StrArg(a), StrArg(b), BoolArg(flag), StrArg(c)];
    RenderStep(t.head, 's', p2, args);
    RenderStep(t.gap, 's', p3, args[1..]);
    RenderStep(t.runtime, 'v', p4, args[2..]);
    RenderStep(t.styles, 's', p5, args[3..]);
    RenderStep(t.app, 's', [Lit(t.tail)], []);
    RenderLast(t.tail, []);
    assert args[1..][1..] == args[2..] && args[2..][1..] == args[3..] && args[3..][1..] == [];
  }

  /** Five operands, one per verb: each lands in its place and nothing is added. */
  lemma FiveOperands(t: Texts, a: string, b: string, flag: bool, c: string, d: string)
    ensures Sprintf(Template(t), [StrArg(a), StrArg(b), BoolArg(flag), StrArg(c), StrArg(d)])
      == t.head + a + (t.gap + b + (t.runtime + BoolText(flag) + (t.styles + c + (t.app + d + t.tail))))
  {
    var p5 := [Lit(t.app), Verb('s')] + [Lit(t.tail)];
    var p4 := [Lit(t.styles), Verb('s')] + p5;
    var p3 := [Lit(t.runtime), Verb('v')] + p4;
    var p2 := [Lit(t.gap), Verb('s')] + p3;
    var args := [StrArg(a), StrArg(b), BoolArg(flag), StrArg(c), StrArg(d)];
    RenderStep(t.head, 's', p2, args);
    RenderStep(t.gap, 's', p3, args[1..]);
    RenderStep(t.runtime, 'v', p4, args[2..]);
    RenderStep(t.styles, 's', p5, args[3..]);
    RenderStep(t.app, 's', [Lit(t.tail)], args[4..]);
    RenderLast(t.tail, []);
    assert args[1..][1..] == args[2..] && args[2..][1..] == args[3..] && args[3..][1..] == args[4..];
    assert args[4..][1..] == [];
  }

  /**
    As written, whatever the tree: `buildUI` returns `%!s(MISSING)`, the root's
    code sits in the runtime text before the App class, and the stubs come
    before the FlutterUI class they extend.
  */
  lemma AsWrittenBuildUIMissing(t: Texts, cfg: Config, root: Option<WidgetNode>)
    ensures AssembleAsWritten(t, cfg, root)
      == t.head + GenerateImports(cfg) + (t.gap + StubDefs(t, root) + (t.runtime + BoolText(cfg.useFlutterWind)
        + (t.styles + RootJs(root) + (t.app + "%!s(MISSING)" + t.tail))))
    ensures HasSuffix(AssembleAsWritten(t, cfg, root), t.app + "%!s(MISSING)" + t.tail)
  {
    FourOperands(t, GenerateImports(cfg), StubDefs(t, root), cfg.useFlutterWind, RootJs(root));
    MissingString();
    var tail := t.app + "%!s(MISSING)" + t.tail;
    SuffixReassociate(t.head + GenerateImports(cfg), t.gap + StubDefs(t, root), t.runtime + BoolText(cfg.useFlutterWind),
      t.styles + RootJs(root), tail);
  }

  /**
    As intended: the imports head the program, the stubs follow the runtime,
    and `buildUI` returns the root's code.
  */
  lemma AssembleLayout(t: Texts, cfg: Config, root: Option<WidgetNode>)
    ensures Assemble(t, cfg, root)
      == t.head + GenerateImports(cfg) + (t.gap + (t.runtime + BoolText(cfg.useFlutterWind)
        + (t.styles + StubDefs(t, root) + (t.app + RootJs(root) + t.tail))))
    ensures HasSuffix(Assemble(t, cfg, root), t.app + RootJs(root) + t.tail)
    ensures HasPrefix(Assemble(t, cfg, root), t.head + VortexImport)
  {
    var imports := GenerateImports(cfg);
    FiveOperands(t, imports, "", cfg.useFlutterWind, StubDefs(t, root), RootJs(root));
    assert t.gap + "" == t.gap;
    SuffixReassociate(t.head + imports, t.gap, t.runtime + BoolText(cfg.useFlutterWind),
      t.styles + StubDefs(t, root), t.app + RootJs(root) + t.tail);
    ImportsText(cfg);
    assert HasPrefix(imports, VortexImport);
    PrefixFront(t.head, imports, VortexImport,
      t.gap + (t.runtime + BoolText(cfg.useFlutterWind) + (t.styles + StubDefs(t, root) + (t.app + RootJs(root) + t.tail))));
  }

  // ---------------------------------------------------------------------------
  // Generate
  // ---------------------------------------------------------------------------

  /** The loop over the recorded names, writing one stub each. */
  method WriteStubs(t: Texts, keys: seq<string>) returns (defs: string)
    ensures defs == Join(StubList(t, keys), "")
  {
    defs := "";
    var i := 0;
    while i < |keys|
      invariant 0 <= i <= |keys|
      invariant defs == Join(StubList(t, keys[..i]), "")
    {
      var stub := Sprintf(StubTemplate(t), [StrArg(keys[i])]);
      assert stub == Stub(t, keys[i]);
      StubsStep(t, keys, i);
      defs := defs + stub;
      i := i + 1;
    }
    assert keys[..i] == keys;
  }

  lemma StubsStep(t: Texts, keys: seq<string>, i: nat)
    requires i < |keys|
    ensures Join(StubList(t, keys[..i + 1]), "")
      == Join(StubList(t, keys[..i]), "") + Stub(t, keys[i])
  {
    TakeOneMore(keys, i);
    StubListSnoc(t, keys[..i], keys[i]);
    JoinSnoc(StubList(t, keys[..i]), Stub(t, keys[i]), "");
  }

  lemma StubListSnoc(t: Texts, names: seq<string>, x: string)
    ensures StubList(t, names + [x]) == StubList(t, names) + [Stub(t, x)]
  {
    var before, after := StubList(t, names), StubList(t, names + [x]);
    forall j | 0 <= j < |after| ensures after[j] == (before + [Stub(t, x)])[j] {
      if j < |names| {
        assert (names + [x])[j] == names[j];
      } else {
        assert (names + [x])[j] == x;
      }
    }
  }

  /** The three texts Generate computes: the imports, the stubs and the root's code. */
  method ProgramParts(t: Texts, cfg: Config, tree: WidgetTree) returns (imports: string, defs: string, code: string)
    ensures imports == GenerateImports(cfg)
    ensures defs == StubDefs(t, tree.root)
    ensures code == RootJs(tree.root)
  {
    imports := GenerateImports(cfg);
    var names: set<string> := {};
    if tree.root.Some? {
      names := FindCustomWidgets(tree.root.value, names);
    }
    defs := WriteStubs(t, SortedKeys(names));
    code := "null";
    if tree.root.Some? {
      code := GenerateWidgetCode(tree.root.value);
    }
  }

  /**
    Generate, as written: a configuration that failed to load is reported;
    otherwise the imports, the stubs, the FlutterWind flag and the root's code
    fill the first four verbs of the program template, and `buildUI` returns
    `%!s(MISSING)`.
  */
  method Generate(t: Texts, cfg: Result<Config, string>, tree: WidgetTree) returns (r: Result<string, string>)
    ensures cfg.Failure? ==> r == Failure("error loading config: " + cfg.error)
    ensures cfg.Success? ==> r == Success(AssembleAsWritten(t, cfg.value, tree.root))
    ensures cfg.Success? ==> HasSuffix(r.value, t.app + "%!s(MISSING)" + t.tail)
  {
    if cfg.Failure? {
      return Failure("error loading config: " + cfg.error);
    }
    var imports, defs, code := ProgramParts(t, cfg.value, tree);
    r := Success(Sprintf(Template(t), [StrArg(imports), StrArg(defs),
      BoolArg(cfg.value.useFlutterWind), StrArg(code)]));
    AsWrittenBuildUIMissing(t, cfg.value, tree.root);
  }

  /**
    Generate with the operand list the template's verbs stand for: the
    program starts with the imports and `buildUI` returns the root's code.
  */
  method GenerateIntended(t: Texts, cfg: Result<Config, string>, tree: WidgetTree) returns (r: Result<string, string>)
    ensures cfg.Failure? ==> r == Failure("error loading config: " + cfg.error)
    ensures cfg.Success? ==> r == Success(Assemble(t, cfg.value, tree.root))
    ensures cfg.Success? ==> HasSuffix(r.value, t.app + RootJs(tree.root) + t.tail)
  {
    if cfg.Failure? {
      return Failure("error loading config: " + cfg.error);
    }
    var imports, defs, code := ProgramParts(t, cfg.value, tree);
    r := Success(Sprintf(Template(t), [StrArg(imports), StrArg(""),
      BoolArg(cfg.value.useFlutterWind), StrArg(defs), StrArg(code)]));
    AssembleLayout(t, cfg.value, tree.root);
  }
}

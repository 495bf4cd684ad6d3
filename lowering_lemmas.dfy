/**
  What the widget renderers of internal/generator/js_generator.go promise:
  which property keys reach a props object and which never do, which parts of
  a node a renderer ignores, which field of a property value decides its
  code, and how the children of a node appear in order.
*/
module LoweringLemmas {
  import opened Wrappers
  import opened GoStrings
  import opened Ast
  import opened Naming
  import opened Lowering

  // ---------------------------------------------------------------------------
  // The keys a props object shows
  // ---------------------------------------------------------------------------

  lemma {:induction false} KeptAppend(a: seq<string>, b: seq<string>, skip: set<string>)
    ensures Kept(a + b, skip) == Kept(a, skip) + Kept(b, skip)
    decreases |b|
  {
    if b != [] {
      var init := b[..|b| - 1];
      KeptAppend(a, init, skip);
      assert (a + b)[..|a + b| - 1] == a + init;
      assert b[..|b| - 1] == init;
    } else {
      assert a + b == a;
    }
  }

  lemma {:induction false} KeptNoDuplicates(keys: seq<string>, skip: set<string>)
    requires NoDuplicates(keys)
    ensures NoDuplicates(Kept(keys, skip))
    decreases |keys|
  {
    if keys != [] {
      var init := keys[..|keys| - 1];
      KeptNoDuplicates(init, skip);
      KeptMembers(init, skip);
      assert keys[|keys| - 1] !in init;
    }
  }

  /** The least key of a set is the least key of any subset that holds it. */
  lemma LeastKeyOfSubset(s: set<string>, t: set<string>)
    requires s != {} && t <= s && LeastKey(s) in t
    ensures LeastKey(t) == LeastKey(s)
  {
    LexLeqAntisymmetric(LeastKey(s), LeastKey(t));
  }

  /** Leaving keys out of the walk is sorting the keys that are left. */
  lemma {:induction false} KeptSorted(s: set<string>, skip: set<string>)
    ensures Kept(SortedKeys(s), skip) == SortedKeys(s - skip)
    decreases s
  {
    if s != {} {
      var m := LeastKey(s);
      var rest := s - {m};
      assert SortedKeys(s) == [m] + SortedKeys(rest);
      KeptAppend([m], SortedKeys(rest), skip);
      KeptSorted(rest, skip);
      if m in skip {
        assert Kept([m], skip) == [];
        assert rest - skip == s - skip;
      } else {
        assert Kept([m], skip) == [m];
        LeastShown(s, skip);
      }
    } else {
      assert s - skip == {};
    }
  }

  /** When the least key is not skipped, it comes first among the keys left. */
  lemma LeastShown(s: set<string>, skip: set<string>)
    requires s != {} && LeastKey(s) !in skip
    ensures SortedKeys(s - skip) == [LeastKey(s)] + SortedKeys(s - {LeastKey(s)} - skip)
  {
    var m := LeastKey(s);
    LeastKeyOfSubset(s, s - skip);
    assert s - skip - {m} == s - {m} - skip;
  }

  /** The keys a props renderer walks: the sorted keys outside `skip`. */
  lemma WalkSorted(n: WidgetNode, skip: set<string>)
    ensures Walk(n, skip) == SortedKeys(n.properties.Keys - skip)
  {
    KeptSorted(n.properties.Keys, skip);
  }

  /**
    A props object depends only on the properties outside `skip`: nodes that
    agree on those render the same object, whatever their skipped properties,
    their children or their name.
  */
  lemma PropsOutsideSkip(n: WidgetNode, m: WidgetNode, skip: set<string>)
    requires forall k :: k !in skip ==> (k in n.properties <==> k in m.properties)
    requires forall k :: k !in skip && k in n.properties ==> n.properties[k] == m.properties[k]
    ensures PropsJs(n, skip) == PropsJs(m, skip)
  {
    var shown := n.properties.Keys - skip;
    assert shown == m.properties.Keys - skip;
    WalkSorted(n, skip);
    WalkSorted(m, skip);
    var ks := Walk(n, skip);
    assert Walk(m, skip) == ks;
    EntriesAgree(n, m, ks);
    if |n.properties| == 0 {
      PropsOfNoShownKeys(m, skip);
    } else if |m.properties| == 0 {
      PropsOfNoShownKeys(n, skip);
    }
  }

  /** With no property outside `skip`, a props object is `{}`. */
  lemma PropsOfNoShownKeys(n: WidgetNode, skip: set<string>)
    requires n.properties.Keys - skip == {}
    ensures PropsJs(n, skip) == "{}"
  {
    WalkSorted(n, skip);
    assert Walk(n, skip) == [];
    assert Entries(n, []) == [];
  }

  lemma EntriesAgree(n: WidgetNode, m: WidgetNode, ks: seq<string>)
    requires forall k :: k in ks ==> k in n.properties && k in m.properties
    requires forall k :: k in ks ==> n.properties[k] == m.properties[k]
    ensures Entries(n, ks) == Entries(m, ks)
  {
    forall i | 0 <= i < |ks|
      ensures Entries(n, ks)[i] == Entries(m, ks)[i]
    {
      assert ks[i] in ks;
    }
  }

  /** Setting a skipped property, `children` for generateProps, leaves the props object as it was. */
  lemma PropsIgnoreSkipped(n: WidgetNode, skip: set<string>, k: string, v: PropertyValue)
    requires k in skip
    ensures PropsJs(n.(properties := n.properties[k := v]), skip) == PropsJs(n, skip)
  {
    PropsOutsideSkip(n.(properties := n.properties[k := v]), n, skip);
  }

  /**
    A props object shows one entry per property whose key is not skipped, and
    nothing else, in some order of those keys; without properties it is `{}`.
  */
  lemma PropsEntries(n: WidgetNode, skip: set<string>)
    ensures |n.properties| == 0 ==> PropsJs(n, skip) == "{}"
    ensures |n.properties| > 0 ==>
      exists ks: seq<string> ::
        NoDuplicates(ks)
        && (forall k :: k in ks <==> k in n.properties && k !in skip)
        && PropsJs(n, skip) == "{" + Join(Entries(n, ks), ", ") + "}"
  {
    var ks := Walk(n, skip);
    KeptMembers(SortedKeys(n.properties.Keys), skip);
    KeptNoDuplicates(SortedKeys(n.properties.Keys), skip);
    assert forall k :: k in ks <==> k in n.properties && k !in skip;
  }

  // ---------------------------------------------------------------------------
  // Property values
  // ---------------------------------------------------------------------------

  /** The value with only its first populated field, in the order String, Number, Boolean, Widget, List, Style. */
  function FirstField(v: PropertyValue): (r: PropertyValue)
    ensures PopulatedFields(r) <= 1
  {
    if v.str.Some? then PropertyValue(v.str, None, None, None, None, None)
    else if v.number.Some? then PropertyValue(None, v.number, None, None, None, None)
    else if v.boolean.Some? then PropertyValue(None, None, v.boolean, None, None, None)
    else if v.widget.Some? then PropertyValue(None, None, None, v.widget, None, None)
    else if v.list.Some? then PropertyValue(None, None, None, None, v.list, None)
    else PropertyValue(None, None, None, None, None, v.style)
  }

  /** Only the first populated field of a value decides its code; a value with none is `null`. */
  lemma ValueFirstFieldWins(v: PropertyValue)
    ensures ValueJs(v) == ValueJs(FirstField(v))
    ensures PopulatedFields(v) == 0 ==> ValueJs(v) == "null"
  {
  }

  /** Two nodes with the same children render the same children array. */
  lemma ChildrenOnlyChildren(n: WidgetNode, m: WidgetNode)
    requires n.children == m.children
    ensures ChildrenJs(n) == ChildrenJs(m)
  {
    assert ChildCodes(n) == ChildCodes(m);
  }

  /**
    A ThemeData widget as a property value becomes a props object, not a
    widget call: its children are dropped and so is its `children` property.
  */
  lemma ThemeDataAsProps(w: WidgetNode, cs: seq<WidgetNode>, v: PropertyValue)
    requires w.name == "ThemeData"
    ensures ValueJs(WidgetValue(w)) == PropsJs(w, PropsSkip)
    ensures ValueJs(WidgetValue(w)) == ValueJs(WidgetValue(w.(children := cs)))
    ensures ValueJs(WidgetValue(w)) == ValueJs(WidgetValue(w.(properties := w.properties["children" := v])))
  {
    ThemeDataValue(w);
    ThemeDataValue(w.(children := cs));
    ThemeDataValue(w.(properties := w.properties["children" := v]));
    PropsOutsideSkip(w, w.(children := cs), PropsSkip);
    PropsIgnoreSkipped(w, PropsSkip, "children", v);
  }

  lemma ThemeDataValue(w: WidgetNode)
    requires w.name == "ThemeData"
    ensures ValueJs(WidgetValue(w)) == PropsJs(w, PropsSkip)
  {
  }

  // ---------------------------------------------------------------------------
  // Widget calls
  // ---------------------------------------------------------------------------

  /** A user component becomes `new <Name>(props, children)` under its own name. */
  lemma CustomWidgetConstructed(n: WidgetNode)
    requires IsCustomName(n.name)
    ensures WidgetJs(n) == "new " + n.name + "(" + PropsJs(n, PropsSkip) + ", " + ChildrenJs(n) + ")"
  {
    ToCamelCaseCustom(n.name);
  }

  /** The widgets with a shape of their own are neither user components nor plain calls. */
  lemma ShapedNames(name: string)
    requires name == "Scaffold" || name == "Column" || name == "SizedBox" || name == "Icon"
    ensures !IsCustomName(name) && name !in PlainCalls
  {
    assert name[0] != 'M' && name[1] != 'u';
  }

  /** A SizedBox renders its props object only. */
  lemma SizedBoxPropsOnly(n: WidgetNode)
    requires n.name == "SizedBox"
    ensures WidgetJs(n) == "this.SizedBox(" + PropsJs(n, PropsSkip) + ")"
  {
    ShapedNames(n.name);
  }

  /** The six plain calls keep the Go name, as written, in `this.<Name>(props, children)`. */
  lemma PlainCallsKeepName(n: WidgetNode)
    requires n.name in PlainCalls
    ensures WidgetJs(n) == "this." + n.name + "(" + PropsJs(n, PropsSkip) + ", " + ChildrenJs(n) + ")"
  {
    PlainCallsNotCustom(n.name);
  }

  /** No plain call is named like a user component. */
  lemma PlainCallsNotCustom(s: string)
    requires s in PlainCalls
    ensures !IsCustomName(s)
  {
    assert s[0] != 'M' || s[1] != 'y';
    assert s[0] != 'C' || s[1] != 'u';
  }

  /** A name the switch does not know becomes a call of its camel-cased name. */
  lemma OtherWidgetsCalled(n: WidgetNode)
    requires !IsCustomName(n.name) && n.name !in PlainCalls
    requires n.name != "Scaffold" && n.name != "Column" && n.name != "SizedBox" && n.name != "Icon"
    ensures WidgetJs(n) == "this." + ToCamelCase(n.name) + "(" + PropsJs(n, PropsSkip) + ", " + ChildrenJs(n) + ")"
  {
  }

  /** A Scaffold without a Widget-valued floatingActionButton leaves that slot empty. */
  lemma ScaffoldWithoutFab(n: WidgetNode)
    requires n.name == "Scaffold"
    requires "floatingActionButton" !in n.properties || n.properties["floatingActionButton"].widget.None?
    ensures WidgetJs(n) == "this.Scaffold({..." + PropsJs(n, FabSkip) + ", floatingActionButton: " + "}, " + ChildrenJs(n) + ")"
  {
    ShapedNames(n.name);
    assert FabJs(n) == "";
    assert WidgetJs(n) == ScaffoldJs(n);
    EmptyDropped("this.Scaffold({..." + PropsJs(n, FabSkip) + ", floatingActionButton: ", "}, ");
  }


  /** A Column without a String mainAxisAlignment passes `''`. */
  lemma ColumnWithoutAlignment(n: WidgetNode)
    requires n.name == "Column"
    requires "mainAxisAlignment" !in n.properties || n.properties["mainAxisAlignment"].str.None?
    ensures WidgetJs(n) == "this.Column({..." + PropsJs(n, MainAxisSkip) + ", mainAxisAlignment: '" + "', children: " + ChildrenJs(n) + "})"
  {
    ShapedNames(n.name);
    StringFieldAbsent(n, "mainAxisAlignment");
    assert WidgetJs(n) == ColumnJs(n);
    EmptyDropped("this.Column({..." + PropsJs(n, MainAxisSkip) + ", mainAxisAlignment: '", "', children: ");
  }


  /** A key without a String value reads as `""`. */
  lemma StringFieldAbsent(n: WidgetNode, k: string)
    requires k !in n.properties || n.properties[k].str.None?
    ensures StringField(n, k) == ""
  {
  }

  /** A key just set to a String reads as that string. */
  lemma StringFieldSet(n: WidgetNode, k: string, s: string)
    ensures StringField(n.(properties := n.properties[k := StringValue(s)]), k) == s
  {
  }

  /** An Icon without a String icon passes `''`. */
  lemma IconWithoutName(n: WidgetNode)
    requires n.name == "Icon"
    requires "icon" !in n.properties || n.properties["icon"].str.None?
    ensures WidgetJs(n) == "this.Icon({..." + PropsJs(n, IconSkip) + ", icon: '" + "'})"
  {
    ShapedNames(n.name);
    StringFieldAbsent(n, "icon");
    assert WidgetJs(n) == IconJs(n);
    EmptyDropped("this.Icon({..." + PropsJs(n, IconSkip) + ", icon: '", "'})");
  }


  /** SizedBox and Icon take no children: whatever children the node has, its code is the same. */
  lemma ChildlessWidgets(n: WidgetNode, cs: seq<WidgetNode>)
    requires n.name == "SizedBox" || n.name == "Icon"
    ensures WidgetJs(n.(children := cs)) == WidgetJs(n)
  {
    var m := n.(children := cs);
    ShapedNames(n.name);
    PropsOutsideSkip(m, n, PropsSkip);
    PropsOutsideSkip(m, n, IconSkip);
  }

  /**
    The floatingActionButton of a Scaffold fills one slot of its code: for
    any two widgets put there, the text around the slot is the same.
  */
  lemma ScaffoldFabSlot(n: WidgetNode, w1: WidgetNode, w2: WidgetNode)
    requires n.name == "Scaffold"
    ensures exists pre, post ::
      WidgetJs(WithProperty(n, "floatingActionButton", WidgetValue(w1))) == pre + WidgetJs(w1) + post
      && WidgetJs(WithProperty(n, "floatingActionButton", WidgetValue(w2))) == pre + WidgetJs(w2) + post
  {
    var pre := "this.Scaffold({..." + PropsJs(n, FabSkip) + ", floatingActionButton: ";
    var post := "}, " + ChildrenJs(n) + ")";
    ShapedNames(n.name);
    FabFilled(n, w1, pre, post);
    FabFilled(n, w2, pre, post);
    SlotWitness(WidgetJs(WithProperty(n, "floatingActionButton", WidgetValue(w1))), WidgetJs(w1),
      WidgetJs(WithProperty(n, "floatingActionButton", WidgetValue(w2))), WidgetJs(w2), pre, post);
  }

  /** Proof helper: one shared context around both slot texts witnesses the existential. */
  lemma SlotWitness(a1: string, j1: string, a2: string, j2: string, pre: string, post: string)
    requires a1 == pre + j1 + post && a2 == pre + j2 + post
    ensures exists p, q :: a1 == p + j1 + q && a2 == p + j2 + q
  {
  }

  lemma FabFilled(n: WidgetNode, w: WidgetNode, pre: string, post: string)
    requires n.name == "Scaffold" && !IsCustomName(n.name) && n.name !in PlainCalls
    requires pre == "this.Scaffold({..." + PropsJs(n, FabSkip) + ", floatingActionButton: "
    requires post == "}, " + ChildrenJs(n) + ")"
    ensures WidgetJs(WithProperty(n, "floatingActionButton", WidgetValue(w))) == pre + WidgetJs(w) + post
  {
    var m := WithProperty(n, "floatingActionButton", WidgetValue(w));
    FabParts(n, w);
    assert WidgetJs(m) == ScaffoldJs(m);
    ScaffoldText(PropsJs(n, FabSkip), WidgetJs(w), ChildrenJs(n));
  }

  lemma FabParts(n: WidgetNode, w: WidgetNode)
    ensures PropsJs(WithProperty(n, "floatingActionButton", WidgetValue(w)), FabSkip) == PropsJs(n, FabSkip)
    ensures ChildrenJs(WithProperty(n, "floatingActionButton", WidgetValue(w))) == ChildrenJs(n)
    ensures FabJs(WithProperty(n, "floatingActionButton", WidgetValue(w))) == WidgetJs(w)
  {
    var m := WithProperty(n, "floatingActionButton", WidgetValue(w));
    PropsIgnoreSkipped(n, FabSkip, "floatingActionButton", WidgetValue(w));
    ChildrenOnlyChildren(m, n);
  }

  /** Proof helper: the Scaffold text regrouped around its FAB slot. */
  lemma ScaffoldText(props: string, fab: string, children: string)
    ensures "this.Scaffold({..." + props + ", floatingActionButton: " + fab + "}, " + children + ")"
      == ("this.Scaffold({..." + props + ", floatingActionButton: ") + fab + ("}, " + children + ")")
  {
  }

  /** `n` with property `k` set to `v`. */
  function WithProperty(n: WidgetNode, k: string, v: PropertyValue): (r: WidgetNode)
    ensures r.name == n.name && r.children == n.children && r.properties == n.properties[k := v]
  {
    n.(properties := n.properties[k := v])
  }

  /**
    The `icon` String of an Icon fills one slot of its code: for any two
    strings put there, the text around the slot is the same.
  */
  lemma IconSlot(n: WidgetNode, s1: string, s2: string)
    requires n.name == "Icon"
    ensures exists pre, post ::
      WidgetJs(WithProperty(n, "icon", StringValue(s1))) == pre + s1 + post
      && WidgetJs(WithProperty(n, "icon", StringValue(s2))) == pre + s2 + post
  {
    var pre := "this.Icon({..." + PropsJs(n, IconSkip) + ", icon: '";
    ShapedNames(n.name);
    IconFilled(n, s1, pre);
    IconFilled(n, s2, pre);
    SlotWitness(WidgetJs(WithProperty(n, "icon", StringValue(s1))), s1,
      WidgetJs(WithProperty(n, "icon", StringValue(s2))), s2, pre, "'})");
  }

  lemma IconFilled(n: WidgetNode, s: string, pre: string)
    requires n.name == "Icon" && !IsCustomName(n.name) && n.name !in PlainCalls
    requires pre == "this.Icon({..." + PropsJs(n, IconSkip) + ", icon: '"
    ensures WidgetJs(WithProperty(n, "icon", StringValue(s))) == pre + s + "'})"
  {
    var m := WithProperty(n, "icon", StringValue(s));
    StringFieldSet(n, "icon", s);
    PropsIgnoreSkipped(n, IconSkip, "icon", StringValue(s));
  }

  /**
    The mainAxisAlignment String of a Column fills one slot of its code: for
    any two strings put there, the text around the slot is the same.
  */
  lemma ColumnAlignmentSlot(n: WidgetNode, s1: string, s2: string)
    requires n.name == "Column"
    ensures exists pre, post ::
      WidgetJs(WithProperty(n, "mainAxisAlignment", StringValue(s1))) == pre + s1 + post
      && WidgetJs(WithProperty(n, "mainAxisAlignment", StringValue(s2))) == pre + s2 + post
  {
    var pre := "this.Column({..." + PropsJs(n, MainAxisSkip) + ", mainAxisAlignment: '";
    var post := "', children: " + ChildrenJs(n) + "})";
    ShapedNames(n.name);
    AlignmentFilled(n, s1, pre, post);
    AlignmentFilled(n, s2, pre, post);
    SlotWitness(WidgetJs(WithProperty(n, "mainAxisAlignment", StringValue(s1))), s1,
      WidgetJs(WithProperty(n, "mainAxisAlignment", StringValue(s2))), s2, pre, post);
  }

  lemma AlignmentFilled(n: WidgetNode, s: string, pre: string, post: string)
    requires n.name == "Column" && !IsCustomName(n.name) && n.name !in PlainCalls
    requires pre == "this.Column({..." + PropsJs(n, MainAxisSkip) + ", mainAxisAlignment: '"
    requires post == "', children: " + ChildrenJs(n) + "})"
    ensures WidgetJs(WithProperty(n, "mainAxisAlignment", StringValue(s))) == pre + s + post
  {
    var m := WithProperty(n, "mainAxisAlignment", StringValue(s));
    StringFieldSet(n, "mainAxisAlignment", s);
    PropsIgnoreSkipped(n, MainAxisSkip, "mainAxisAlignment", StringValue(s));
    ChildrenOnlyChildren(m, n);
    assert WidgetJs(m) == ColumnJs(m);
    ColumnText(PropsJs(n, MainAxisSkip), s, ChildrenJs(n));
  }

  /** Proof helper: the Column text regrouped around its alignment slot. */
  lemma ColumnText(props: string, alignment: string, children: string)
    ensures "this.Column({..." + props + ", mainAxisAlignment: '" + alignment + "', children: " + children + "})"
      == ("this.Column({..." + props + ", mainAxisAlignment: '") + alignment + ("', children: " + children + "})")
  {
  }

  // ---------------------------------------------------------------------------
  // Children
  // ---------------------------------------------------------------------------

  lemma {:induction false} JoinAppend(a: seq<string>, b: seq<string>, sep: string)
    requires a != [] && b != []
    ensures Join(a + b, sep) == Join(a, sep) + sep + Join(b, sep)
    decreases |a|
  {
    if |a| == 1 {
      assert (a + b)[1..] == b;
    } else {
      JoinAppend(a[1..], b, sep);
      assert (a + b)[1..] == a[1..] + b;
    }
  }

  /**
    The children array of `a + b` is the array of `a` and the array of `b`
    spliced together: children keep their order.
  */
  lemma ChildrenInOrder(n: WidgetNode, a: seq<WidgetNode>, b: seq<WidgetNode>)
    requires n.children == a + b && a != [] && b != []
    ensures var ja, jb := ChildrenJs(n.(children := a)), ChildrenJs(n.(children := b));
      |ja| >= 2 && |jb| >= 2 && ChildrenJs(n) == ja[..|ja| - 1] + ", " + jb[1..]
  {
    var na, nb := n.(children := a), n.(children := b);
    ChildCodesAppend(n, na, nb);
    ArraysSpliced(ChildCodes(na), ChildCodes(nb));
  }

  lemma ChildCodesAppend(n: WidgetNode, na: WidgetNode, nb: WidgetNode)
    requires n.children == na.children + nb.children
    ensures ChildCodes(n) == ChildCodes(na) + ChildCodes(nb)
  {
    var a := na.children;
    forall i | 0 <= i < |n.children|
      ensures ChildCodes(n)[i] == (ChildCodes(na) + ChildCodes(nb))[i]
    {
      if i < |a| {
        assert n.children[i] == a[i];
      } else {
        assert n.children[i] == nb.children[i - |a|];
      }
    }
  }

  /** No children give `[]`; one child gives its code in brackets. */
  lemma ChildrenSmall(n: WidgetNode)
    ensures |n.children| == 0 ==> ChildrenJs(n) == "[]"
    ensures |n.children| == 1 ==> ChildrenJs(n) == "[" + WidgetJs(n.children[0]) + "]"
  {
  }

  /** A String value is quoted as it is: nothing inside it is escaped. */
  lemma StringUnescaped(s: string)
    ensures ValueJs(StringValue(s)) == "'" + s + "'"
  {
  }

  /** generateList: `[]` for no items, one item's code in brackets for one. */
  lemma ListSmall(a: seq<PropertyValue>)
    ensures |a| == 0 ==> ListJs(PropertyList(a)) == "[]"
    ensures |a| == 1 ==> ListJs(PropertyList(a)) == "[" + ValueJs(a[0]) + "]"
  {
  }

  /** The array of `a + b` is the array of `a` and the array of `b` spliced together. */
  lemma ListInOrder(a: seq<PropertyValue>, b: seq<PropertyValue>)
    requires a != [] && b != []
    ensures var ja, jb := ListJs(PropertyList(a)), ListJs(PropertyList(b));
      |ja| >= 2 && |jb| >= 2 && ListJs(PropertyList(a + b)) == ja[..|ja| - 1] + ", " + jb[1..]
  {
    var la, lb := PropertyList(a), PropertyList(b);
    ItemCodesAppend(la, lb);
    ArraysSpliced(ItemCodes(la), ItemCodes(lb));
  }

  lemma ItemCodesAppend(la: PropertyList, lb: PropertyList)
    ensures ItemCodes(PropertyList(la.items + lb.items)) == ItemCodes(la) + ItemCodes(lb)
  {
    var l := PropertyList(la.items + lb.items);
    forall i | 0 <= i < |l.items|
      ensures ItemCodes(l)[i] == (ItemCodes(la) + ItemCodes(lb))[i]
    {
      if i < |la.items| {
        assert l.items[i] == la.items[i];
      } else {
        assert l.items[i] == lb.items[i - |la.items|];
      }
    }
  }

  /** The JavaScript array of `xs + ys` is the arrays of `xs` and `ys` spliced. */
  lemma ArraysSpliced(xs: seq<string>, ys: seq<string>)
    requires xs != [] && ys != []
    ensures var ja, jb := "[" + Join(xs, ", ") + "]", "[" + Join(ys, ", ") + "]";
      |ja| >= 2 && |jb| >= 2 && "[" + Join(xs + ys, ", ") + "]" == ja[..|ja| - 1] + ", " + jb[1..]
  {
    JoinAppend(xs, ys, ", ");
    Splice(Join(xs, ", "), Join(ys, ", "));
  }

  /** Two bracketed lists spliced at their inner brackets. */
  lemma Splice(x: string, y: string)
    ensures var ja, jb := "[" + x + "]", "[" + y + "]";
      |ja| >= 2 && |jb| >= 2 && ja[..|ja| - 1] + ", " + jb[1..] == "[" + x + ", " + y + "]"
  {
    var ja, jb := "[" + x + "]", "[" + y + "]";
    assert ja[..|ja| - 1] == "[" + x;
    assert jb[1..] == y + "]";
  }

  // ---------------------------------------------------------------------------
  // findCustomWidgets
  // ---------------------------------------------------------------------------

  /**
    findCustomWidgets does not look into List values: adding a property that
    holds only a list, whatever widgets it holds, records no new name.
  */
  lemma ListsNotSearched(n: WidgetNode, p: string, l: PropertyList)
    requires p !in n.properties
    ensures CustomNames(WithProperty(n, p, PropertyValue(None, None, None, None, Some(l), None))) == CustomNames(n)
  {
    var m := WithProperty(n, p, PropertyValue(None, None, None, None, Some(l), None));
    assert ChildNames(m, |m.children|) == ChildNames(n, |n.children|) by {
      ChildNamesSame(m, n, |n.children|);
    }
    assert m.properties.Keys == n.properties.Keys + {p};
    PropertyNamesAdd(m, n.properties.Keys, p);
    PropertyNamesAgree(m, n, n.properties.Keys);
  }

  /** Two nodes whose properties agree on `keys` find the same names below those keys. */
  lemma PropertyNamesAgree(m: WidgetNode, n: WidgetNode, keys: set<string>)
    requires forall q :: q in keys ==> (q in m.properties <==> q in n.properties)
    requires forall q :: q in keys && q in n.properties ==> m.properties[q] == n.properties[q]
    ensures PropertyNames(m, keys) == PropertyNames(n, keys)
  {
    forall k ensures k in PropertyNames(m, keys) <==> k in PropertyNames(n, keys) {
      PropertyNamesMeaning(m, keys, k);
      PropertyNamesMeaning(n, keys, k);
      if k in PropertyNames(m, keys) {
        var q :| q in keys && q in m.properties && m.properties[q].widget.Some?
          && k in CustomNames(m.properties[q].widget.value);
        assert n.properties[q] == m.properties[q];
      }
      if k in PropertyNames(n, keys) {
        var q :| q in keys && q in n.properties && n.properties[q].widget.Some?
          && k in CustomNames(n.properties[q].widget.value);
        assert m.properties[q] == n.properties[q];
      }
    }
  }

  lemma {:induction false} ChildNamesSame(m: WidgetNode, n: WidgetNode, i: nat)
    requires m.children == n.children && i <= |n.children|
    ensures ChildNames(m, i) == ChildNames(n, i)
    decreases i
  {
    if i > 0 {
      ChildNamesSame(m, n, i - 1);
    }
  }
}

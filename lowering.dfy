/**
  The widget renderers of internal/generator/js_generator.go: generateWidgetCode,
  generateProps and its three variants that leave out one more key,
  generatePropertyValue, generateList, generateChildren and findCustomWidgets.

  Each renderer is a function here and, beside it, a method with the loops of
  the Go code proved to return what the function says. A Go map is walked in
  an order Go leaves unspecified; the model walks it in the order of
  `SortedKeys`, and every property stated below about a rendered map holds
  whatever that order is.
*/
module Lowering {
  import opened Wrappers
  import opened GoStrings
  import opened Ast
  import opened Naming

  /** The keys generateProps leaves out. */
  const PropsSkip: set<string> := {"children"}
  /** The keys generatePropsWithoutMainAxis leaves out. */
  const MainAxisSkip: set<string> := {"children", "mainAxisAlignment"}
  /** The key generatePropsWithoutFAB leaves out (it keeps `children`). */
  const FabSkip: set<string> := {"floatingActionButton"}
  /** The key generatePropsWithoutIcon leaves out (it keeps `children`). */
  const IconSkip: set<string> := {"icon"}

  /** The widgets rendered as `this.<Name>(props, children)` with their Go name. */
  const PlainCalls: set<string> := {"MaterialApp", "AppBar", "Center", "Text", "ElevatedButton", "FloatingActionButton"}

  /** The elements of `keys` that are not in `skip`, in their order. */
  function Kept(keys: seq<string>, skip: set<string>): (r: seq<string>)
    decreases |keys|
  {
    if keys == [] then []
    else Kept(keys[..|keys| - 1], skip) + (if keys[|keys| - 1] in skip then [] else [keys[|keys| - 1]])
  }

  /** The order in which the renderers walk the keys of a node's properties. */
  function Walk(n: WidgetNode, skip: set<string>): (r: seq<string>)
    ensures forall k :: k in r ==> k in n.properties
  {
    KeptMembers(SortedKeys(n.properties.Keys), skip);
    Kept(SortedKeys(n.properties.Keys), skip)
  }

  lemma {:induction false} KeptMembers(keys: seq<string>, skip: set<string>)
    ensures forall k :: k in Kept(keys, skip) <==> k in keys && k !in skip
    decreases |keys|
  {
    if keys != [] {
      var init := keys[..|keys| - 1];
      KeptMembers(init, skip);
      assert keys == init + [keys[|keys| - 1]];
    }
  }

  // ---------------------------------------------------------------------------
  // The renderers as functions
  // ---------------------------------------------------------------------------

  /** generateWidgetCode for a non-nil node: user components first, then the switch on the name. */
  function WidgetJs(n: WidgetNode): string
    decreases n, 4
  {
    if IsCustomName(n.name) then ConstructorJs(n)
    else if n.name in PlainCalls then PlainCallJs(n)
    else if n.name == "Scaffold" then ScaffoldJs(n)
    else if n.name == "Column" then ColumnJs(n)
    else if n.name == "SizedBox" then SizedBoxJs(n)
    else if n.name == "Icon" then IconJs(n)
    else DefaultCallJs(n)
  }

  /** `new <jsName>(props, children)`. */
  function ConstructorJs(n: WidgetNode): string
    decreases n, 3
  {
    "new " + ToCamelCase(n.name) + "(" + PropsJs(n, PropsSkip) + ", " + ChildrenJs(n) + ")"
  }

  /** `this.<Name>(props, children)` under the Go name. */
  function PlainCallJs(n: WidgetNode): string
    decreases n, 3
  {
    "this." + n.name + "(" + PropsJs(n, PropsSkip) + ", " + ChildrenJs(n) + ")"
  }

  /** A Scaffold: the floatingActionButton moved to a slot of its own. */
  function ScaffoldJs(n: WidgetNode): string
    decreases n, 3
  {
    "this.Scaffold({..." + PropsJs(n, FabSkip) + ", floatingActionButton: " + FabJs(n) + "}, " + ChildrenJs(n) + ")"
  }

  /** A Column: the alignment and the children inside the props object. */
  function ColumnJs(n: WidgetNode): string
    decreases n, 3
  {
    "this.Column({..." + PropsJs(n, MainAxisSkip) + ", mainAxisAlignment: '" + StringField(n, "mainAxisAlignment")
      + "', children: " + ChildrenJs(n) + "})"
  }

  /** A SizedBox: props only. */
  function SizedBoxJs(n: WidgetNode): string
    decreases n, 3
  {
    "this.SizedBox(" + PropsJs(n, PropsSkip) + ")"
  }

  /** An Icon: the icon name in a slot of its own, no children. */
  function IconJs(n: WidgetNode): string
    decreases n, 3
  {
    "this.Icon({..." + PropsJs(n, IconSkip) + ", icon: '" + StringField(n, "icon") + "'})"
  }

  /** Any other widget: `this.<jsName>(props, children)`. */
  function DefaultCallJs(n: WidgetNode): string
    decreases n, 3
  {
    "this." + ToCamelCase(n.name) + "(" + PropsJs(n, PropsSkip) + ", " + ChildrenJs(n) + ")"
  }

  /** The code of a Scaffold's floatingActionButton: its Widget's code, or "" when there is none. */
  function FabJs(n: WidgetNode): string
    decreases n, 2
  {
    if "floatingActionButton" in n.properties && n.properties["floatingActionButton"].widget.Some?
    then WidgetJs(n.properties["floatingActionButton"].widget.value)
    else ""
  }

  /** The String field of property `key`, or "" when the key is absent or its String is nil. */
  function StringField(n: WidgetNode, key: string): string
  {
    if key in n.properties && n.properties[key].str.Some? then n.properties[key].str.value else ""
  }

  /** One `name: value` entry of a props object. */
  function Entry(n: WidgetNode, k: string): string
    requires k in n.properties
    decreases n, 0
  {
    ToCamelCase(k) + ": " + ValueJs(n.properties[k])
  }

  /** The entries for the keys `ks`, in their order. */
  function Entries(n: WidgetNode, ks: seq<string>): (r: seq<string>)
    requires forall k :: k in ks ==> k in n.properties
    ensures |r| == |ks|
    decreases n, 1
  {
    seq(|ks|, i requires 0 <= i < |ks| => Entry(n, ks[i]))
  }

  /** generateProps (skip = PropsSkip) and its variants, on the properties of `n`. */
  function PropsJs(n: WidgetNode, skip: set<string>): string
    decreases n, 2
  {
    if |n.properties| == 0 then "{}"
    else "{" + Join(Entries(n, Walk(n, skip)), ", ") + "}"
  }

  /** The code of each child of `n`, in order. */
  function ChildCodes(n: WidgetNode): (r: seq<string>)
    ensures |r| == |n.children|
    decreases n, 1
  {
    seq(|n.children|, i requires 0 <= i < |n.children| => WidgetJs(n.children[i]))
  }

  /** generateChildren on the children of `n`. */
  function ChildrenJs(n: WidgetNode): string
    decreases n, 2
  {
    if |n.children| == 0 then "[]"
    else "[" + Join(ChildCodes(n), ", ") + "]"
  }

  /** generatePropertyValue: the first populated field decides. */
  function ValueJs(v: PropertyValue): string
    decreases v, 0
  {
    if v.str.Some? then "'" + v.str.value + "'"
    else if v.number.Some? then v.number.value.formatted
    else if v.boolean.Some? then (if v.boolean.value then "true" else "false")
    else if v.widget.Some? then
      (if v.widget.value.name == "ThemeData" then PropsJs(v.widget.value, PropsSkip) else WidgetJs(v.widget.value))
    else if v.list.Some? then ListJs(v.list.value)
    else if v.style.Some? then StyleJs(v.style.value)
    else "null"
  }

  /** The code of each item of `l`, in order. */
  function ItemCodes(l: PropertyList): (r: seq<string>)
    ensures |r| == |l.items|
    decreases l, 0
  {
    seq(|l.items|, i requires 0 <= i < |l.items| => ValueJs(l.items[i]))
  }

  /** generateList. */
  function ListJs(l: PropertyList): string
    decreases l, 1
  {
    if |l.items| == 0 then "[]"
    else "[" + Join(ItemCodes(l), ", ") + "]"
  }

  /** One `name: 'value'` entry of a style object. */
  function StyleEntry(m: map<string, string>, k: string): string
    requires k in m
  {
    ToCamelCase(k) + ": '" + m[k] + "'"
  }

  /** The entries of a style object, one per key. */
  function StyleEntries(m: map<string, string>): (r: seq<string>)
    ensures |r| == |m|
  {
    var ks := SortedKeys(m.Keys);
    seq(|ks|, i requires 0 <= i < |ks| => StyleEntry(m, ks[i]))
  }

  /** The Style case of generatePropertyValue. */
  function StyleJs(m: map<string, string>): string
  {
    "{style: {" + Join(StyleEntries(m), ", ") + "}}"
  }

  /** generateWidgetCode, nil included. */
  function RootJs(root: Option<WidgetNode>): string
  {
    match root
    case None => "null"
    case Some(n) => WidgetJs(n)
  }

  // ---------------------------------------------------------------------------
  // The renderers as Go writes them
  // ---------------------------------------------------------------------------

  /** generateWidgetCode for a non-nil node. */
  method GenerateWidgetCode(n: WidgetNode) returns (code: string)
    ensures code == WidgetJs(n)
    decreases n, 4
  {
    var jsName := CamelCase(n.name);
    var props := GenerateProps(n, PropsSkip);
    var children := GenerateChildren(n);
    if IsCustomName(n.name) {
      assert WidgetJs(n) == ConstructorJs(n);
      return "new " + jsName + "(" + props + ", " + children + ")";
    }
    if n.name in PlainCalls {
      assert WidgetJs(n) == PlainCallJs(n);
      return "this." + n.name + "(" + props + ", " + children + ")";
    }
    if n.name == "Scaffold" {
      var fab := "";
      if "floatingActionButton" in n.properties && n.properties["floatingActionButton"].widget.Some? {
        fab := GenerateWidgetCode(n.properties["floatingActionButton"].widget.value);
      }
      var propsWithoutFab := GenerateProps(n, FabSkip);
      assert fab == FabJs(n);
      assert WidgetJs(n) == ScaffoldJs(n);
      return "this.Scaffold({..." + propsWithoutFab + ", floatingActionButton: " + fab + "}, " + children + ")";
    }
    if n.name == "Column" {
      var alignment := "";
      if "mainAxisAlignment" in n.properties && n.properties["mainAxisAlignment"].str.Some? {
        alignment := n.properties["mainAxisAlignment"].str.value;
      }
      var propsWithoutMainAxis := GenerateProps(n, MainAxisSkip);
      assert WidgetJs(n) == ColumnJs(n);
      return "this.Column({..." + propsWithoutMainAxis + ", mainAxisAlignment: '" + alignment + "', children: " + children + "})";
    }
    if n.name == "SizedBox" {
      assert WidgetJs(n) == SizedBoxJs(n);
      return "this.SizedBox(" + props + ")";
    }
    if n.name == "Icon" {
      var iconName := "";
      if "icon" in n.properties && n.properties["icon"].str.Some? {
        iconName := n.properties["icon"].str.value;
      }
      var propsWithoutIcon := GenerateProps(n, IconSkip);
      assert WidgetJs(n) == IconJs(n);
      return "this.Icon({..." + propsWithoutIcon + ", icon: '" + iconName + "'})";
    }
    assert WidgetJs(n) == DefaultCallJs(n);
    return "this." + jsName + "(" + props + ", " + children + ")";
  }

  /**
    generateProps, generatePropsWithoutMainAxis, generatePropsWithoutFAB and
    generatePropsWithoutIcon: one loop, which leaves out the keys of `skip`.
  */
  method GenerateProps(n: WidgetNode, skip: set<string>) returns (r: string)
    ensures r == PropsJs(n, skip)
    decreases n, 2
  {
    if |n.properties| == 0 {
      return "{}";
    }
    var keys := SortedKeys(n.properties.Keys);
    var propStrings: seq<string> := [];
    var i := 0;
    KeptMembers(keys[..0], skip);
    while i < |keys|
      invariant 0 <= i <= |keys|
      invariant forall k :: k in Kept(keys[..i], skip) ==> k in n.properties
      invariant propStrings == Entries(n, Kept(keys[..i], skip))
    {
      var name := keys[i];
      PropsStep(n, keys, i, skip);
      if name !in skip {
        var jsName := CamelCase(name);
        var jsValue := GeneratePropertyValue(n.properties[name]);
        propStrings := propStrings + [jsName + ": " + jsValue];
      }
      i := i + 1;
    }
    assert keys[..|keys|] == keys;
    r := "{" + Join(propStrings, ", ") + "}";
  }

  /** One pass of the props loop: the key at `i` adds its entry unless it is skipped. */
  lemma PropsStep(n: WidgetNode, keys: seq<string>, i: nat, skip: set<string>)
    requires i < |keys| && forall k :: k in keys ==> k in n.properties
    ensures forall k :: k in Kept(keys[..i], skip) ==> k in n.properties
    ensures forall k :: k in Kept(keys[..i + 1], skip) ==> k in n.properties
    ensures Entries(n, Kept(keys[..i + 1], skip))
      == Entries(n, Kept(keys[..i], skip)) + (if keys[i] in skip then [] else [Entry(n, keys[i])])
  {
    assert keys[..i + 1][..i] == keys[..i];
    KeptMembers(keys[..i], skip);
    KeptMembers(keys[..i + 1], skip);
    if keys[i] !in skip {
      EntriesSnoc(n, Kept(keys[..i], skip), keys[i]);
    }
  }

  lemma EntriesSnoc(n: WidgetNode, ks: seq<string>, k: string)
    requires forall j :: j in ks ==> j in n.properties
    requires k in n.properties
    ensures Entries(n, ks + [k]) == Entries(n, ks) + [Entry(n, k)]
  {
  }

  /** generatePropertyValue. */
  method GeneratePropertyValue(v: PropertyValue) returns (r: string)
    ensures r == ValueJs(v)
    decreases v, 0
  {
    if v.str.Some? {
      r := "'" + v.str.value + "'";
    } else if v.number.Some? {
      r := v.number.value.formatted;
    } else if v.boolean.Some? {
      r := if v.boolean.value then "true" else "false";
    } else if v.widget.Some? {
      if v.widget.value.name == "ThemeData" {
        r := GenerateProps(v.widget.value, PropsSkip);
      } else {
        r := GenerateWidgetCode(v.widget.value);
      }
    } else if v.list.Some? {
      r := GenerateList(v.list.value);
    } else if v.style.Some? {
      r := GenerateStyle(v.style.value);
    } else {
      r := "null";
    }
  }

  /** The Style case of generatePropertyValue. */
  method GenerateStyle(m: map<string, string>) returns (r: string)
    ensures r == StyleJs(m)
  {
    var keys := SortedKeys(m.Keys);
    var styleStrings: seq<string> := [];
    var i := 0;
    while i < |keys|
      invariant 0 <= i <= |keys|
      invariant styleStrings == StyleEntries(m)[..i]
    {
      var jsName := CamelCase(keys[i]);
      StyleStep(m, keys, i);
      styleStrings := styleStrings + [jsName + ": '" + m[keys[i]] + "'"];
      i := i + 1;
    }
    assert styleStrings == StyleEntries(m);
    r := "{style: {" + Join(styleStrings, ", ") + "}}";
  }

  lemma StyleStep(m: map<string, string>, keys: seq<string>, i: nat)
    requires keys == SortedKeys(m.Keys) && i < |keys|
    ensures keys[i] in m
    ensures StyleEntries(m)[..i + 1] == StyleEntries(m)[..i] + [StyleEntry(m, keys[i])]
  {
    assert keys[i] in keys;
    TakeOneMore(StyleEntries(m), i);
  }

  /** generateList. */
  method GenerateList(l: PropertyList) returns (r: string)
    ensures r == ListJs(l)
    decreases l, 1
  {
    if |l.items| == 0 {
      return "[]";
    }
    var itemStrings: seq<string> := [];
    var i := 0;
    while i < |l.items|
      invariant 0 <= i <= |l.items|
      invariant itemStrings == ItemCodes(l)[..i]
    {
      var item := GeneratePropertyValue(l.items[i]);
      itemStrings := itemStrings + [item];
      i := i + 1;
    }
    assert itemStrings == ItemCodes(l);
    r := "[" + Join(itemStrings, ", ") + "]";
  }

  lemma ChildStep(codes: seq<string>, i: nat)
    requires i < |codes|
    ensures codes[..i + 1] == codes[..i] + [codes[i]]
  {
  }

  /** generateChildren. */
  method GenerateChildren(n: WidgetNode) returns (r: string)
    ensures r == ChildrenJs(n)
    decreases n, 2
  {
    if |n.children| == 0 {
      return "[]";
    }
    var childStrings: seq<string> := [];
    var i := 0;
    while i < |n.children|
      invariant 0 <= i <= |n.children|
      invariant childStrings == ChildCodes(n)[..i]
    {
      var child := GenerateWidgetCode(n.children[i]);
      ChildStep(ChildCodes(n), i);
      childStrings := childStrings + [child];
      i := i + 1;
    }
    assert ChildCodes(n)[..|n.children|] == ChildCodes(n);
    r := "[" + Join(childStrings, ", ") + "]";
  }

  // ---------------------------------------------------------------------------
  // findCustomWidgets
  // ---------------------------------------------------------------------------

  function OwnName(n: WidgetNode): set<string>
  {
    if IsCustomName(n.name) then {n.name} else {}
  }

  /** The names findCustomWidgets records for `n`: its own and those below its children and widget properties. */
  function CustomNames(n: WidgetNode): set<string>
    decreases n, 2
  {
    OwnName(n) + ChildNames(n, |n.children|) + PropertyNames(n, n.properties.Keys)
  }

  /** The names recorded below the first `i` children. */
  function ChildNames(n: WidgetNode, i: nat): set<string>
    requires i <= |n.children|
    decreases n, 1, i
  {
    if i == 0 then {} else ChildNames(n, i - 1) + CustomNames(n.children[i - 1])
  }

  /** The names recorded below the Widget fields of the properties `keys`. */
  function PropertyNames(n: WidgetNode, keys: set<string>): set<string>
    decreases n, 1
  {
    set p, k | p in keys && p in n.properties && n.properties[p].widget.Some?
      && k in CustomNames(n.properties[p].widget.value) :: k
  }

  lemma PropertyNamesAdd(n: WidgetNode, keys: set<string>, p: string)
    requires p in n.properties
    ensures PropertyNames(n, keys + {p})
      == PropertyNames(n, keys) + (if n.properties[p].widget.Some? then CustomNames(n.properties[p].widget.value) else {})
  {
  }

  /** findCustomWidgets: adds to `customWidgets` the names of every user component it reaches. */
  method FindCustomWidgets(n: WidgetNode, customWidgets: set<string>) returns (found: set<string>)
    ensures found == customWidgets + CustomNames(n)
    decreases n, 2
  {
    found := customWidgets;
    if HasPrefix(n.name, "My") || HasPrefix(n.name, "Custom") {
      found := found + {n.name};
    }
    found := FindInChildren(n, found);
    found := FindInProperties(n, found);
  }

  /** The loop of findCustomWidgets over the children. */
  method FindInChildren(n: WidgetNode, start: set<string>) returns (found: set<string>)
    ensures found == start + ChildNames(n, |n.children|)
    decreases n, 1
  {
    found := start;
    var i := 0;
    while i < |n.children|
      invariant 0 <= i <= |n.children|
      invariant found == start + ChildNames(n, i)
    {
      found := FindCustomWidgets(n.children[i], found);
      i := i + 1;
    }
  }

  /** The loop of findCustomWidgets over the properties, in the order Go's map gives. */
  method FindInProperties(n: WidgetNode, start: set<string>) returns (found: set<string>)
    ensures found == start + PropertyNames(n, n.properties.Keys)
    decreases n, 1
  {
    found := start;
    var visited: set<string> := {};
    var remaining := n.properties.Keys;
    while remaining != {}
      invariant visited <= n.properties.Keys && remaining == n.properties.Keys - visited
      invariant found == start + PropertyNames(n, visited)
      decreases |remaining|
    {
      var name :| name in remaining;
      var value := n.properties[name];
      ghost var before := found;
      if value.widget.Some? {
        found := FindCustomWidgets(value.widget.value, found);
      }
      assert found == before + (if value.widget.Some? then CustomNames(value.widget.value) else {});
      PropertyStep(n, start, visited, name, before, found);
      visited := visited + {name};
      remaining := remaining - {name};
    }
    assert visited == n.properties.Keys;
  }

  /** One pass of the properties loop of findCustomWidgets. */
  lemma PropertyStep(n: WidgetNode, above: set<string>, visited: set<string>, p: string,
                     before: set<string>, after: set<string>)
    requires p in n.properties
    requires before == above + PropertyNames(n, visited)
    requires after == before + (if n.properties[p].widget.Some? then CustomNames(n.properties[p].widget.value) else {})
    ensures after == above + PropertyNames(n, visited + {p})
  {
    PropertyNamesAdd(n, visited, p);
  }

  /** `m` is `n`, or is reached from it through children and the Widget field of properties. */
  predicate Reaches(n: WidgetNode, m: WidgetNode)
    decreases n
  {
    n == m
    || (exists i :: 0 <= i < |n.children| && Reaches(n.children[i], m))
    || (exists p :: p in n.properties && n.properties[p].widget.Some? && Reaches(n.properties[p].widget.value, m))
  }

  lemma {:induction false} ChildNamesMeaning(n: WidgetNode, i: nat, k: string)
    requires i <= |n.children|
    ensures k in ChildNames(n, i) <==> exists j :: 0 <= j < i && k in CustomNames(n.children[j])
    decreases i
  {
    if i > 0 {
      ChildNamesMeaning(n, i - 1, k);
    }
  }

  lemma PropertyNamesMeaning(n: WidgetNode, keys: set<string>, k: string)
    ensures k in PropertyNames(n, keys) <==>
      exists p :: p in keys && p in n.properties && n.properties[p].widget.Some?
        && k in CustomNames(n.properties[p].widget.value)
  {
  }

  /** A reachable user component's name is recorded. */
  lemma {:induction false} CustomNamesComplete(n: WidgetNode, m: WidgetNode)
    requires Reaches(n, m) && IsCustomName(m.name)
    ensures m.name in CustomNames(n)
    decreases n
  {
    if n == m {
      assert m.name in OwnName(n);
    } else if exists i :: 0 <= i < |n.children| && Reaches(n.children[i], m) {
      var i :| 0 <= i < |n.children| && Reaches(n.children[i], m);
      CustomNamesComplete(n.children[i], m);
      ChildNamesMeaning(n, |n.children|, m.name);
    } else {
      var p :| p in n.properties && n.properties[p].widget.Some? && Reaches(n.properties[p].widget.value, m);
      CustomNamesComplete(n.properties[p].widget.value, m);
      PropertyNamesMeaning(n, n.properties.Keys, m.name);
    }
  }

  /** A recorded name is the name of a user component reachable from `n`. */
  lemma {:induction false} CustomNamesSound(n: WidgetNode, k: string)
    requires k in CustomNames(n)
    ensures exists m :: Reaches(n, m) && IsCustomName(m.name) && m.name == k
    decreases n
  {
    if k in OwnName(n) {
      assert Reaches(n, n);
    } else if k in ChildNames(n, |n.children|) {
      ChildNamesMeaning(n, |n.children|, k);
      var j :| 0 <= j < |n.children| && k in CustomNames(n.children[j]);
      CustomNamesSound(n.children[j], k);
      var m :| Reaches(n.children[j], m) && IsCustomName(m.name) && m.name == k;
      assert Reaches(n, m);
    } else {
      PropertyNamesMeaning(n, n.properties.Keys, k);
      var p :| p in n.properties && n.properties[p].widget.Some? && k in CustomNames(n.properties[p].widget.value);
      CustomNamesSound(n.properties[p].widget.value, k);
      var m :| Reaches(n.properties[p].widget.value, m) && IsCustomName(m.name) && m.name == k;
      assert Reaches(n, m);
    }
  }

  /** The names recorded for `n` are exactly those of the user components reachable from it. */
  lemma CustomNamesReach(n: WidgetNode, k: string)
    ensures k in CustomNames(n) <==> exists m :: Reaches(n, m) && IsCustomName(m.name) && m.name == k
  {
    if k in CustomNames(n) {
      CustomNamesSound(n, k);
    }
    if exists m :: Reaches(n, m) && IsCustomName(m.name) && m.name == k {
      var m :| Reaches(n, m) && IsCustomName(m.name) && m.name == k;
      CustomNamesComplete(n, m);
    }
  }
}

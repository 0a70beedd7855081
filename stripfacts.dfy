/**
 * The array-select pass of BindData on one control: its data array
 * grouped by label under `data`, then the scope rewrite walked over the
 * detail template at `options.detail.elements`. The rewrite walk is
 * described bottom-up, as for the other walks: every Control of the
 * template gets as its scope the data path after its first "items.",
 * and the walk panics when one Control has none.
 */
module StripFacts {
  import opened Wrappers
  import opened Strings
  import opened JsonTree
  import opened Paths
  import opened Engine
  import opened Runs
  import opened WalkFacts
  import opened PassFacts

  const ControlTest: Match := Equals(Str("Control"))

  predicate IsControl(t: Json) {
    Matches(t, TypeKey, ControlTest)
  }

  /** The scope rewrite walk over a detail template. */
  function StripWalk(t: Json, fuel: nat): Outcome {
    Walk(t, TypeKey, ControlTest, StripDetailScope, fuel)
  }

  /** The scope the rewrite gives a control: its data path after the first "items.", if there is one. */
  function StrippedScope(c: Json): Option<string> {
    AfterFirst(GabsPath(Scope(c), false), ItemsDot)
  }

  /** Some Control of the tree has no "items." in its data path. */
  predicate Unstrippable(t: Json)
    decreases t, 1
  {
    (IsControl(t) && StrippedScope(t).None?) || UnstrippableBelow(t)
  }

  predicate UnstrippableBelow(t: Json)
    decreases t, 0
  {
    match t
    case Arr(a) => exists i :: 0 <= i < |a| && Unstrippable(a[i])
    case Obj(m) => exists k :: k in m && Unstrippable(m[k])
    case _ => false
  }

  /** The template as the rewrite leaves it: the children first, then a Control's scope. */
  function Stripped(t: Json): (r: Json)
    ensures t.Obj? <==> r.Obj?
    ensures t.Arr? <==> r.Arr?
    ensures !t.Obj? && !t.Arr? ==> r == t
    decreases t, 1
  {
    var r := StrippedBelow(t);
    if IsControl(t) && StrippedScope(t).Some? && r.Obj? then Obj(r.fields["scope" := Str(StrippedScope(t).value)])
    else r
  }

  function StrippedBelow(t: Json): (r: Json)
    ensures t.Obj? <==> r.Obj?
    ensures t.Arr? <==> r.Arr?
    ensures !t.Obj? && !t.Arr? ==> r == t
    decreases t, 0
  {
    match t
    case Arr(a) => Arr(seq(|a|, i requires 0 <= i < |a| => Stripped(a[i])))
    case Obj(m) => Obj(map k | k in m :: Stripped(m[k]))
    case _ => t
  }

  lemma ControlIsObject(t: Json)
    requires IsControl(t)
    ensures t.Obj?
  {
    assert Search(t, TypeKey) == Str("Control");
  }

  /** A Control without a string scope has the empty data path, which holds no "items.". */
  lemma EmptyScopeStays(c: Json)
    requires Scope(c) == ""
    ensures StrippedScope(c).None?
  {
    assert TrimLeft("", Paths.Fragment) == "" && TrimRight("", Paths.Fragment) == "";
    assert ReplaceAll("", PropertiesStep, "") == "";
    assert ReplaceAll("", ['/'], ['.']) == "";
  }

  // ---------------------------------------------------------------------
  // One node

  /** The node the walk goes on with: a Control with its rewritten scope, any other node as it is. */
  function Reached(t: Json): Json {
    if IsControl(t) && StrippedScope(t).Some? && t.Obj? then Obj(t.fields["scope" := Str(StrippedScope(t).value)])
    else t
  }

  /** The children of an object rewritten, through any function that rewrites. */
  lemma BelowObject(m: map<string, Json>, f: Json -> Json)
    requires forall x :: f(x) == Stripped(x)
    ensures StrippedBelow(Obj(m)) == Obj(map k | k in m :: f(m[k]))
  {
    var below := map k | k in m :: Stripped(m[k]);
    assert StrippedBelow(Obj(m)) == Obj(below);
    assert below == map k | k in m :: f(m[k]);
  }

  /**
   * The visit of one node: a Control without "items." panics; otherwise
   * the node is left as Reached says, with no error, and the rest of the
   * tree follows from it.
   */
  lemma StripStep(t: Json, fuel: nat)
    ensures (if Matches(t, TypeKey, ControlTest) then Operate(StripDetailScope, t, fuel) else Done(t, false))
         == if IsControl(t) && StrippedScope(t).None? then Panicked else Done(Reached(t), false)
    ensures !(IsControl(t) && StrippedScope(t).None?) ==>
              Stripped(t) == StrippedBelow(Reached(t)) && UnstrippableBelow(Reached(t)) == UnstrippableBelow(t)
  {
    if IsControl(t) {
      ControlIsObject(t);
      StripVisit(t, fuel);
      if StrippedScope(t).Some? {
        ScopeIsString(t);
        StripCommutes(t.fields, StrippedScope(t).value);
      }
    }
  }

  /** The rewrite on a Control: a panic without "items.", else the rewritten scope and no error. */
  lemma StripVisit(t: Json, fuel: nat)
    requires IsControl(t) && t.Obj?
    ensures Operate(StripDetailScope, t, fuel) == if StrippedScope(t).None? then Panicked else Done(Reached(t), false)
  {
    assert Operate(StripDetailScope, t, fuel) == StripNode(t);
    StripScope(t);
  }

  /** A control the rewrite accepts has a string scope. */
  lemma ScopeIsString(t: Json)
    requires t.Obj? && StrippedScope(t).Some?
    ensures "scope" in t.fields && t.fields["scope"].Str?
  {
    if Scope(t) == "" {
      EmptyScopeStays(t);
    }
    SearchKey(t.fields, "scope", []);
    assert ["scope"] + [] == ["scope"];
  }

  /** A string is neither a Control nor holds one. */
  lemma StringsHoldNoControl(s: string)
    ensures !Unstrippable(Str(s))
  {
    assert Search(Str(s), TypeKey) == Null;
    assert !UnstrippableBelow(Str(s));
  }

  /** A string scope put in place of a string scope: the children rewritten, with the new scope as it is. */
  lemma StripCommutes(m: map<string, Json>, s: string)
    requires "scope" in m && m["scope"].Str?
    ensures StrippedBelow(Obj(m["scope" := Str(s)])) == Obj(StrippedBelow(Obj(m)).fields["scope" := Str(s)])
    ensures UnstrippableBelow(Obj(m["scope" := Str(s)])) == UnstrippableBelow(Obj(m))
  {
    var x := Str(s);
    var f := y => Stripped(y);
    BelowObject(m, f);
    BelowObject(m["scope" := x], f);
    MapUpdate(m, m["scope" := x], "scope", x, f);
    var m1 := m["scope" := x];
    StringsHoldNoControl(s);
    StringsHoldNoControl(m["scope"].s);
    if UnstrippableBelow(Obj(m1)) {
      var j :| j in m1 && Unstrippable(m1[j]);
      assert j != "scope" && m1[j] == m[j];
    }
    if UnstrippableBelow(Obj(m)) {
      var j :| j in m && Unstrippable(m[j]);
      assert j != "scope" && m1[j] == m[j];
    }
  }

  // ---------------------------------------------------------------------
  // The whole template

  /**
   * The rewrite walk over a whole detail template: it panics exactly when
   * some Control of the template, at any depth, has no "items." in its
   * data path; otherwise every Control gets the data path after its first
   * "items." as its scope and no error is reported, given the fuel to
   * reach every node.
   */
  lemma {:induction false} StripTree(t: Json, fuel: nat)
    requires Fits(Stripped(t), fuel)
    ensures StripWalk(t, fuel) == if Unstrippable(t) then Panicked else Done(Stripped(t), false)
    decreases fuel, 0
  {
    StripStep(t, fuel);
    var visit := if Matches(t, TypeKey, ControlTest) then Operate(StripDetailScope, t, fuel) else Done(t, false);
    if visit.Done? {
      var t1 := Reached(t);
      StripChildrenTree(t1, fuel - 1);
      WalkVisit(t, TypeKey, ControlTest, StripDetailScope, fuel, visit, WalkChildren(t1, TypeKey, ControlTest, StripDetailScope, fuel - 1));
    } else {
      WalkVisit(t, TypeKey, ControlTest, StripDetailScope, fuel, visit, visit);
    }
  }

  lemma {:induction false} StripChildrenTree(t: Json, fuel: nat)
    requires Fits(StrippedBelow(t), fuel + 1)
    ensures WalkChildren(t, TypeKey, ControlTest, StripDetailScope, fuel)
         == if UnstrippableBelow(t) then Panicked else Done(StrippedBelow(t), false)
    decreases fuel, 2
  {
    var f := x => Stripped(x);
    var bad := x => Unstrippable(x);
    match t
    case Arr(a) =>
      forall i | 0 <= i < |a|
        ensures StripWalk(a[i], fuel) == if bad(a[i]) then Panicked else Done(f(a[i]), false)
      {
        assert StrippedBelow(t).elems[i] == Stripped(a[i]);
        StripTree(a[i], fuel);
      }
      ElementsOr(a, TypeKey, ControlTest, StripDetailScope, fuel, f, bad);
      assert seq(|a|, i requires 0 <= i < |a| => f(a[i])) == StrippedBelow(t).elems;
    case Obj(m) =>
      BelowObject(m, f);
      forall k | k in m
        ensures StripWalk(m[k], fuel) == if bad(m[k]) then Panicked else Done(f(m[k]), false)
      {
        assert StrippedBelow(t).fields[k] == Stripped(m[k]);
        StripTree(m[k], fuel);
      }
      MembersOr(m, TypeKey, ControlTest, StripDetailScope, fuel, f, bad);
    case _ =>
  }

  // ---------------------------------------------------------------------
  // One array-select control

  /** `after` is an object that agrees with the object `before` on every member outside `ks`. */
  predicate KeepsOutside(before: Json, after: Json, ks: set<string>) {
    before.Obj? && after.Obj? &&
    (forall j :: j in before.fields && j !in ks ==> j in after.fields && after.fields[j] == before.fields[j]) &&
    (forall j :: j in after.fields && j !in ks ==> j in before.fields)
  }

  /** The first gabs segment of "data." + a label is "data". */
  lemma DataHead(l: string)
    ensures Segments("data." + l)[0] == "data"
  {
    assert "data." + l == "data" + ['.'] + l;
    SplitAtFirst("data", '.', l);
  }

  /** SetP at a path under `data` changes no other member. */
  lemma SetUnderData(m: map<string, Json>, p: seq<string>, v: Json)
    requires p != [] && p[0] == "data"
    ensures KeepsOutside(Obj(m), SetP(Obj(m), p, v), {"data"})
  {
    assert Set(Obj(m), p, v) == Step(Obj(m), p, v, true);
  }

  /** The grouping changes no member of the control but `data`, whatever the labels are. */
  lemma {:induction false} GroupedKeeps(c: Json, props: seq<Json>, elems: seq<Json>)
    requires c.Obj? && Grouped(c, props, elems).Some?
    ensures KeepsOutside(c, Grouped(c, props, elems).value, {"data"})
  {
    if elems != [] {
      var init := elems[..|elems| - 1];
      var e := elems[|elems| - 1];
      GroupedKeeps(c, props, init);
      var c1 := Grouped(c, props, init).value;
      var l := Join(LabelParts(props, e).value, " ");
      DataHead(l);
      SetUnderData(c1.fields, Segments("data." + l), Boxed(e));
    }
  }

  /** SetP at `options.detail.elements`, where that path leads to an object or an array. */
  lemma SetDetailElements(c: Json, w: Json)
    requires c.Obj? && (Search(c, DetailElements).Obj? || Search(c, DetailElements).Arr?)
    ensures var r := SetP(c, DetailElements, w);
            KeepsOutside(c, r, {"options"}) &&
            KeepsOutside(Search(c, ["options"]), Search(r, ["options"]), {"detail"}) &&
            KeepsOutside(Search(c, ["options", "detail"]), Search(r, ["options", "detail"]), {"elements"}) &&
            Search(r, DetailElements) == w
  {
    DetailShape(c);
    var m := c.fields;
    var o := m["options"].fields;
    var d := o["detail"].fields;
    SetThree(m, w);
    var d1 := d["elements" := w];
    var o1 := o["detail" := Obj(d1)];
    var m1 := m["options" := Obj(o1)];
    SearchKey(m, "options", []);
    SearchKey(m1, "options", []);
    SearchKey(m, "options", ["detail"]);
    SearchKey(m1, "options", ["detail"]);
    SearchKey(o1, "detail", []);
    SearchKey(o, "detail", []);
    SearchKey(m1, "options", ["detail", "elements"]);
    SearchKey(o1, "detail", ["elements"]);
    SearchKey(d1, "elements", []);
    assert ["options"] + [] == ["options"] && ["options"] + ["detail"] == ["options", "detail"];
    assert ["detail"] + [] == ["detail"] && ["elements"] + [] == ["elements"];
    assert ["options"] + ["detail", "elements"] == DetailElements && ["detail"] + ["elements"] == ["detail", "elements"];
  }

  /** A control in which `options.detail.elements` leads to an object or an array has objects along the way. */
  lemma DetailShape(c: Json)
    requires c.Obj? && (Search(c, DetailElements).Obj? || Search(c, DetailElements).Arr?)
    ensures "options" in c.fields && c.fields["options"].Obj?
    ensures "detail" in c.fields["options"].fields && c.fields["options"].fields["detail"].Obj?
  {
    AtoiOfWord("detail");
    AtoiOfWord("elements");
    SearchKey(c.fields, "options", ["detail", "elements"]);
    assert ["options"] + ["detail", "elements"] == DetailElements;
    if "options" in c.fields && c.fields["options"].Obj? {
      SearchKey(c.fields["options"].fields, "detail", ["elements"]);
      assert ["detail"] + ["elements"] == ["detail", "elements"];
    }
  }

  /** SetP three levels down, through members that are objects. */
  lemma SetThree(m: map<string, Json>, w: Json)
    requires "options" in m && m["options"].Obj?
    requires "detail" in m["options"].fields && m["options"].fields["detail"].Obj?
    ensures var o := m["options"].fields;
            var d := o["detail"].fields;
            SetP(Obj(m), DetailElements, w) == Obj(m["options" := Obj(o["detail" := Obj(d["elements" := w])])])
  {
    var o := m["options"].fields;
    var d := o["detail"].fields;
    var p := DetailElements;
    assert p[0] == "options" && p[1..] == ["detail", "elements"] && p[1..][1..] == ["elements"];
    var d1 := d["elements" := w];
    var o1 := o["detail" := Obj(d1)];
    assert Step(Obj(d), ["elements"], w, false) == Some(Obj(d1));
    assert Step(Obj(o), ["detail", "elements"], w, false) == Some(Obj(o1));
    assert Step(Obj(m), p, w, true) == Some(Obj(m["options" := Obj(o1)]));
  }

  /** The members of a control under `options.detail.elements`, `options` and `options.detail` left out. */
  lemma DetailFromGrouped(c: Json, c1: Json)
    requires KeepsOutside(c, c1, {"data"})
    ensures Search(c1, DetailElements) == Search(c, DetailElements)
  {
    SearchKey(c.fields, "options", ["detail", "elements"]);
    SearchKey(c1.fields, "options", ["detail", "elements"]);
    assert ["options"] + ["detail", "elements"] == DetailElements;
  }

  /**
   * The array-select operation, through the grouping: it panics when the
   * grouping does or the rewrite of the detail template does; otherwise
   * the rewritten template is stored back into the grouped control.
   */
  lemma GroupSelectSteps(data: Json, c: Json, fuel: nat)
    requires Matches(c, SchemaTypeKey, Equals(Str("array-select")))
    requires Fits(Stripped(Search(c, DetailElements)), fuel)
    ensures var r := Operate(GroupSelect(data), c, fuel);
            var g := Grouped(c, LabelProps(c), Items(data, Segments(GabsPath(Scope(c), false))));
            var inner := Search(c, DetailElements);
            (r.Panicked? <==> g.None? || Unstrippable(inner)) &&
            (r.Done? ==>
               g.Some? && KeepsOutside(c, g.value, {"data"}) && r.failed == NoScope(c) &&
               r.tree == (if inner.Obj? || inner.Arr? then SetP(g.value, DetailElements, Stripped(inner)) else g.value))
  {
    AtoiOfWord("schema");
    var g := Grouped(c, LabelProps(c), Items(data, Segments(GabsPath(Scope(c), false))));
    var inner := Search(c, DetailElements);
    OperateGroupSelect(data, c, fuel);
    if g.Some? {
      GroupedKeeps(c, LabelProps(c), Items(data, Segments(GabsPath(Scope(c), false))));
      DetailFromGrouped(c, g.value);
      StripTree(inner, fuel);
    }
  }

  /** The array-select operation, read off Operate with the rewrite walk named. */
  lemma OperateGroupSelect(data: Json, c: Json, fuel: nat)
    ensures var g := Grouped(c, LabelProps(c), Items(data, Segments(GabsPath(Scope(c), false))));
            Operate(GroupSelect(data), c, fuel) ==
              if g.None? then Panicked
              else
                var inner := Search(g.value, DetailElements);
                var w := StripWalk(inner, fuel);
                if !w.Done? then w
                else Done(if inner.Obj? || inner.Arr? then SetP(g.value, DetailElements, w.tree) else g.value, NoScope(c) || w.failed)
  {
  }

  /**
   * The array-select operation on one control, whose data array is the
   * one its scope names. It panics exactly when a data element lacks a
   * string label part or a Control of the detail template has no
   * "items." in its data path. Otherwise it reports an error exactly
   * when the control has no string scope, every Control of the template
   * gets its rewritten scope, and nothing else of the control changes
   * but `data`, which an empty data array leaves alone.
   */
  lemma GroupSelectNode(data: Json, c: Json, fuel: nat)
    requires Matches(c, SchemaTypeKey, Equals(Str("array-select")))
    requires Fits(Stripped(Search(c, DetailElements)), fuel)
    ensures var r := Operate(GroupSelect(data), c, fuel);
            var props := LabelProps(c);
            var elems := Items(data, Segments(GabsPath(Scope(c), false)));
            var inner := Search(c, DetailElements);
            (r.Panicked? <==> !AllLabelled(props, elems) || Unstrippable(inner)) &&
            (r.Done? ==>
               r.failed == NoScope(c) &&
               Search(r.tree, DetailElements) == Stripped(inner) &&
               (if inner.Obj? || inner.Arr? then
                  KeepsOutside(c, r.tree, {"data", "options"}) &&
                  KeepsOutside(Search(c, ["options"]), Search(r.tree, ["options"]), {"detail"}) &&
                  KeepsOutside(Search(c, ["options", "detail"]), Search(r.tree, ["options", "detail"]), {"elements"})
                else KeepsOutside(c, r.tree, {"data"})) &&
               (elems == [] ==> Search(r.tree, ["data"]) == Search(c, ["data"])))
  {
    var props := LabelProps(c);
    var elems := Items(data, Segments(GabsPath(Scope(c), false)));
    var inner := Search(c, DetailElements);
    GroupedPanics(c, props, elems);
    GroupSelectSteps(data, c, fuel);
    var r := Operate(GroupSelect(data), c, fuel);
    if r.Done? {
      var c1 := Grouped(c, props, elems).value;
      DetailFromGrouped(c, c1);
      if inner.Obj? || inner.Arr? {
        SetDetailElements(c1, Stripped(inner));
        KeepsBoth(c, c1, r.tree);
        DetailParents(c, c1);
      }
      if elems == [] {
        assert c1 == c;
        if inner.Obj? || inner.Arr? {
          DataKept(c, r.tree, "options");
        }
      }
    }
  }

  /**
   * The data of an array-select control: with labels free of '.', each
   * label holds the last data element that carries it, on top of what
   * `data` held.
   */
  lemma GroupSelectData(data: Json, c: Json, fuel: nat)
    requires Matches(c, SchemaTypeKey, Equals(Str("array-select")))
    requires Fits(Stripped(Search(c, DetailElements)), fuel)
    ensures var r := Operate(GroupSelect(data), c, fuel);
            var props := LabelProps(c);
            var elems := Items(data, Segments(GabsPath(Scope(c), false)));
            r.Done? && DataOpen(c) && elems != [] && AllLabelled(props, elems) &&
            (forall i :: 0 <= i < |elems| ==> '.' !in Label(props, elems[i])) ==>
              Search(r.tree, ["data"]) == Obj(Assign(DataBefore(c), LabelsOf(props, elems), BoxAll(elems)))
  {
    var props := LabelProps(c);
    var elems := Items(data, Segments(GabsPath(Scope(c), false)));
    var inner := Search(c, DetailElements);
    GroupSelectSteps(data, c, fuel);
    var r := Operate(GroupSelect(data), c, fuel);
    if r.Done? && DataOpen(c) && elems != [] && AllLabelled(props, elems) &&
       (forall i :: 0 <= i < |elems| ==> '.' !in Label(props, elems[i])) {
      GroupedForm(c, props, elems);
      var x := Obj(Assign(DataBefore(c), LabelsOf(props, elems), BoxAll(elems)));
      var c1 := Obj(c.fields["data" := x]);
      DataOf(c.fields, x);
      if inner.Obj? || inner.Arr? {
        DetailFromGrouped(c, c1);
        SetDetailElements(c1, Stripped(inner));
        DataKept(c1, r.tree, "options");
      }
    }
  }

  /** The `data` member just set is what a search for "data" finds. */
  lemma DataOf(m: map<string, Json>, x: Json)
    ensures Search(Obj(m["data" := x]), ["data"]) == x
  {
    SearchKey(m["data" := x], "data", []);
    assert ["data"] + [] == ["data"];
  }

  /** Agreement outside `data`, then outside `options`: agreement outside both. */
  lemma KeepsBoth(a: Json, b: Json, c: Json)
    requires KeepsOutside(a, b, {"data"}) && KeepsOutside(b, c, {"options"})
    ensures KeepsOutside(a, c, {"data", "options"})
  {
  }

  /** `options` and `options.detail` are the same in a control and in its grouped form. */
  lemma DetailParents(c: Json, c1: Json)
    requires KeepsOutside(c, c1, {"data"})
    ensures Search(c1, ["options"]) == Search(c, ["options"])
    ensures Search(c1, ["options", "detail"]) == Search(c, ["options", "detail"])
  {
    SearchKey(c.fields, "options", []);
    SearchKey(c1.fields, "options", []);
    SearchKey(c.fields, "options", ["detail"]);
    SearchKey(c1.fields, "options", ["detail"]);
    assert ["options"] + [] == ["options"] && ["options"] + ["detail"] == ["options", "detail"];
  }

  /** A member outside the changed ones reads the same. */
  lemma DataKept(c: Json, r: Json, k: string)
    requires k != "data" && KeepsOutside(c, r, {k})
    ensures Search(r, ["data"]) == Search(c, ["data"])
  {
    SearchKey(c.fields, "data", []);
    SearchKey(r.fields, "data", []);
    assert ["data"] + [] == ["data"];
  }
}

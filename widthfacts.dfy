/**
 * The width walk of setup over a whole ui-schema. Each layout stamps its
 * elements, and the walk then goes on into those stamped elements, so the
 * tree it leaves is described here bottom-up: every node's children are
 * done first, then the node's own layout stamps the elements it holds.
 * The two orders agree because a stamp touches only `schema.col` of an
 * element, which no layout reads.
 */
module WidthFacts {
  import opened Wrappers
  import opened Strings
  import opened JsonTree
  import opened Engine
  import opened Runs
  import opened WalkFacts
  import SetupFacts

  /** The test of each package's width walk on the value at "type". */
  function WidthTest(variant: Variant): Match {
    if variant == Current then Present else Equals(Str("HorizontalLayout"))
  }

  /**
   * The tag a node stamps on its elements: none when it is not one of the
   * layouts of its package, holds no `elements` array, or has an empty row
   * to divide by.
   */
  function LayoutTag(variant: Variant, c: Json): Option<string> {
    var ty := Search(c, ["type"]);
    if variant == Current && ty != Str("HorizontalLayout") && ty != Str("VerticalLayout") then None
    else
      var divide := variant == Legacy || ty == Str("HorizontalLayout");
      match ArrayCount(c, ["elements"])
      case None => None
      case Some(n) => if divide && n == 0 then None else Some(Tag(if divide then 12 / n else 12))
  }

  /** The node with every element of its `elements` array stamped with `tag`. */
  function Restamp(c: Json, tag: string): Json {
    if c.Obj? && "elements" in c.fields && c.fields["elements"].Arr? then
      Obj(c.fields["elements" := Arr(StampChildren(c.fields["elements"].elems, tag))])
    else c
  }

  /** No node the walk tests divides by an empty row. */
  predicate Calm(variant: Variant, t: Json)
    decreases t, 1
  {
    (Matches(t, TypeKey, WidthTest(variant)) ==> StampNode(variant, t) != Panicked) && CalmBelow(variant, t)
  }

  predicate CalmBelow(variant: Variant, t: Json)
    decreases t, 0
  {
    match t
    case Arr(a) => forall i :: 0 <= i < |a| ==> Calm(variant, a[i])
    case Obj(m) => forall k :: k in m ==> Calm(variant, m[k])
    case _ => true
  }

  /**
   * The ui-schema as the width walk leaves it: the children of every node
   * done first, then the node, when the walk tests it and it is a layout,
   * stamps the elements it holds.
   */
  function Stamped(variant: Variant, t: Json): (r: Json)
    ensures t.Obj? <==> r.Obj?
    ensures t.Obj? ==> r.fields.Keys == t.fields.Keys
    ensures t.Arr? <==> r.Arr?
    ensures !t.Obj? && !t.Arr? ==> r == t
    decreases t, 1
  {
    var r := StampedBelow(variant, t);
    if Matches(t, TypeKey, WidthTest(variant)) && LayoutTag(variant, t).Some? then
      Restamp(r, LayoutTag(variant, t).value)
    else r
  }

  /** The node with every child stamped. */
  function StampedBelow(variant: Variant, t: Json): (r: Json)
    ensures t.Obj? <==> r.Obj?
    ensures t.Obj? ==> r.fields.Keys == t.fields.Keys
    ensures t.Arr? <==> r.Arr?
    ensures !t.Obj? && !t.Arr? ==> r == t
    decreases t, 0
  {
    match t
    case Arr(a) => Arr(seq(|a|, i requires 0 <= i < |a| => Stamped(variant, a[i])))
    case Obj(m) => Obj(map k | k in m :: Stamped(variant, m[k]))
    case _ => t
  }

  /** The width operation is the stamp with the node's own tag, when it does not panic. */
  lemma StampNodeByTag(variant: Variant, c: Json)
    requires StampNode(variant, c) != Panicked
    ensures StampNode(variant, c) == Done(if LayoutTag(variant, c).Some? then Restamp(c, LayoutTag(variant, c).value) else c, false)
  {
  }

  /** An array is never a layout: only its elements are stamped. */
  lemma StampedArray(variant: Variant, a: seq<Json>)
    ensures Stamped(variant, Arr(a)) == Arr(seq(|a|, i requires 0 <= i < |a| => Stamped(variant, a[i])))
  {
    assert Search(Arr(a), ["type"]) == Null;
  }

  /** A member other than "type" and "elements" changes neither the test nor the layout of a node. */
  lemma SameLayout(m: map<string, Json>, k: string, x: Json)
    requires k != "type" && k != "elements"
    ensures Search(Obj(m[k := x]), ["type"]) == Search(Obj(m), ["type"])
    ensures Search(Obj(m[k := x]), ["elements"]) == Search(Obj(m), ["elements"])
  {
  }

  /** Setting such a member commutes with stamping, up to stamping the new value. */
  lemma StampedSet(variant: Variant, m: map<string, Json>, k: string, x: Json)
    requires k != "type" && k != "elements"
    ensures Stamped(variant, Obj(m[k := x])) == Obj(Stamped(variant, Obj(m)).fields[k := Stamped(variant, x)])
  {
    var t0, t1 := Obj(m), Obj(m[k := x]);
    var sx := Stamped(variant, x);
    TestSame(variant, m, k, x);
    BelowSet(variant, m, k, x);
    var b0 := StampedBelow(variant, t0);
    if Matches(t0, TypeKey, WidthTest(variant)) && LayoutTag(variant, t0).Some? {
      var tag := LayoutTag(variant, t0).value;
      RestampSet(b0.fields, k, sx, tag);
      assert Stamped(variant, t1) == Restamp(Obj(b0.fields[k := sx]), tag);
      assert Stamped(variant, t0) == Restamp(b0, tag);
    } else {
      assert Stamped(variant, t1) == Obj(b0.fields[k := sx]);
      assert Stamped(variant, t0) == b0;
    }
  }

  /** Such a member changes neither whether the walk tests a node nor its tag. */
  lemma TestSame(variant: Variant, m: map<string, Json>, k: string, x: Json)
    requires k != "type" && k != "elements"
    ensures Matches(Obj(m[k := x]), TypeKey, WidthTest(variant)) == Matches(Obj(m), TypeKey, WidthTest(variant))
    ensures LayoutTag(variant, Obj(m[k := x])) == LayoutTag(variant, Obj(m))
  {
    SameLayout(m, k, x);
  }

  /** Setting a member and then stamping the children stamps the new member in place. */
  lemma BelowSet(variant: Variant, m: map<string, Json>, k: string, x: Json)
    ensures StampedBelow(variant, Obj(m[k := x])) == Obj(StampedBelow(variant, Obj(m)).fields[k := Stamped(variant, x)])
  {
    var f := y => Stamped(variant, y);
    var m1 := m[k := x];
    StampedObject(variant, m, f);
    StampedObject(variant, m1, f);
    MapUpdate(m, m1, k, x, f);
  }

  /** The children of an object stamped, through any function that stamps. */
  lemma StampedObject(variant: Variant, m: map<string, Json>, f: Json -> Json)
    requires forall y :: f(y) == Stamped(variant, y)
    ensures StampedBelow(variant, Obj(m)) == Obj(map k | k in m :: f(m[k]))
  {
    var below := map k | k in m :: Stamped(variant, m[k]);
    assert StampedBelow(variant, Obj(m)) == Obj(below);
    assert below == map k | k in m :: f(m[k]);
  }

  /** Restamping ignores every member but "elements". */
  lemma RestampSet(m: map<string, Json>, k: string, y: Json, tag: string)
    requires k != "elements"
    ensures Restamp(Obj(m[k := y]), tag) == Obj(Restamp(Obj(m), tag).fields[k := y])
  {
  }

  /** Stamping the tree and stamping one element's column commute. */
  lemma StampedChild(variant: Variant, e: Json, tag: string)
    ensures Stamped(variant, StampChild(e, tag)) == StampChild(Stamped(variant, e), tag)
  {
    if e.Obj? {
      var m := e.fields;
      var se := Stamped(variant, e);
      if "schema" in m {
        StampedMember(variant, m, "schema");
      }
      var s := if "schema" in m && m["schema"] != Null then m["schema"] else Obj(map[]);
      if s.Obj? {
        var s1 := Obj(s.fields["col" := Str(tag)]);
        StampedSet(variant, m, "schema", s1);
        StampedSet(variant, s.fields, "col", Str(tag));
        assert Obj(s.fields) == s;
        if s == Obj(map[]) {
          assert Stamped(variant, s) == s;
        }
      }
    }
  }

  /** A stamped object keeps its keys, and every member but "elements" is that member stamped. */
  lemma StampedMember(variant: Variant, m: map<string, Json>, k: string)
    requires k in m && k != "elements"
    ensures Stamped(variant, Obj(m)).fields.Keys == m.Keys
    ensures Stamped(variant, Obj(m)).fields[k] == Stamped(variant, m[k])
  {
  }

  /**
   * A layout stamps its elements and the walk then stamps inside them:
   * the same as stamping inside first and the layout last.
   */
  lemma RestampThenBelow(variant: Variant, c: Json, tag: string)
    requires c.Obj? && "elements" in c.fields && c.fields["elements"].Arr?
    ensures StampedBelow(variant, Restamp(c, tag)) == Restamp(StampedBelow(variant, c), tag)
  {
    var m := c.fields;
    var a := m["elements"].elems;
    var sa := StampChildren(a, tag);
    var below := map k | k in m :: Stamped(variant, m[k]);
    var inner := seq(|a|, i requires 0 <= i < |a| => Stamped(variant, a[i]));
    StampedArray(variant, a);
    StampedArray(variant, sa);
    forall i | 0 <= i < |a| ensures Stamped(variant, sa[i]) == StampChildren(inner, tag)[i] {
      if i <= MaxInt {
        StampedChild(variant, a[i], tag);
      }
    }
    assert Stamped(variant, Arr(sa)) == Arr(StampChildren(inner, tag));
    var m1 := m["elements" := Arr(sa)];
    assert (map k | k in m1 :: Stamped(variant, m1[k])) == below["elements" := Arr(StampChildren(inner, tag))];
  }

  /** A node with a tag holds an `elements` array. */
  lemma TaggedHolds(variant: Variant, c: Json)
    requires LayoutTag(variant, c).Some?
    ensures c.Obj? && "elements" in c.fields && c.fields["elements"].Arr?
  {
    assert Search(c, ["elements"]).Arr?;
  }

  /** Such a member changes neither whether the walk tests a node nor whether it panics. */
  lemma CalmSet(variant: Variant, m: map<string, Json>, k: string, x: Json)
    requires k != "type" && k != "elements"
    requires Calm(variant, Obj(m)) && Calm(variant, x)
    ensures Calm(variant, Obj(m[k := x]))
  {
    TestSame(variant, m, k, x);
    SameLayout(m, k, x);
    var m1 := m[k := x];
    assert StampNode(variant, Obj(m1)).Panicked? == StampNode(variant, Obj(m)).Panicked?;
    forall j | j in m1 ensures Calm(variant, m1[j]) {
      if j != k {
        assert m1[j] == m[j];
      }
    }
  }

  /** Stamping an element's column does not make it panic. */
  lemma CalmChild(variant: Variant, e: Json, tag: string)
    requires Calm(variant, e)
    ensures Calm(variant, StampChild(e, tag))
  {
    if e.Obj? {
      var m := e.fields;
      var s := if "schema" in m && m["schema"] != Null then m["schema"] else Obj(map[]);
      if s.Obj? {
        assert Calm(variant, s) by {
          if s == Obj(map[]) {
            assert Search(s, ["type"]) == Null;
          } else {
            assert s == m["schema"];
          }
        }
        assert Calm(variant, Str(tag)) by {
          assert Search(Str(tag), ["type"]) == Null;
        }
        CalmSet(variant, s.fields, "col", Str(tag));
        assert Obj(s.fields) == s;
        CalmSet(variant, m, "schema", Obj(s.fields["col" := Str(tag)]));
      }
    }
  }

  /** The elements a layout stamps stay calm. */
  lemma CalmRestamp(variant: Variant, c: Json, tag: string)
    requires c.Obj? && "elements" in c.fields && c.fields["elements"].Arr?
    requires CalmBelow(variant, c)
    ensures CalmBelow(variant, Restamp(c, tag))
  {
    var m := c.fields;
    var a := m["elements"].elems;
    var sa := StampChildren(a, tag);
    assert Calm(variant, Arr(a)) by {
      assert m["elements"] == Arr(a);
    }
    assert CalmBelow(variant, Arr(a));
    forall i | 0 <= i < |sa| ensures Calm(variant, sa[i]) {
      assert Calm(variant, a[i]);
      if i <= MaxInt {
        CalmChild(variant, a[i], tag);
      }
    }
    assert Calm(variant, Arr(sa)) by {
      assert Search(Arr(sa), ["type"]) == Null;
    }
    var m1 := m["elements" := Arr(sa)];
    forall j | j in m1 ensures Calm(variant, m1[j]) {
      if j != "elements" {
        assert m1[j] == m[j];
      }
    }
  }

  /**
   * The width walk of each package over a whole ui-schema in which no
   * layout divides by an empty row: it leaves the tree stamped bottom-up
   * and reports no error, given the fuel to reach every node of the result.
   */
  lemma {:induction false} WidthTree(variant: Variant, t: Json, fuel: nat)
    requires Calm(variant, t) && Fits(Stamped(variant, t), fuel)
    ensures Walk(t, TypeKey, WidthTest(variant), StampLayouts(variant), fuel) == Done(Stamped(variant, t), false)
    decreases fuel, 0
  {
    var matched := Matches(t, TypeKey, WidthTest(variant));
    var tag := LayoutTag(variant, t);
    var t1 := if matched && tag.Some? then Restamp(t, tag.value) else t;
    if matched {
      StampNodeByTag(variant, t);
    }
    var first := if matched then Operate(StampLayouts(variant), t, fuel) else Done(t, false);
    assert first == Done(t1, false);
    if matched && tag.Some? {
      TaggedHolds(variant, t);
      CalmRestamp(variant, t, tag.value);
      RestampThenBelow(variant, t, tag.value);
    }
    assert StampedBelow(variant, t1) == Stamped(variant, t);
    WidthChildrenTree(variant, t1, fuel - 1);
  }

  /** No node of the tree has "HorizontalLayout" or "VerticalLayout" as its type. */
  predicate NoLayouts(t: Json) {
    NoneMatch(t, TypeKey, Equals(Str("HorizontalLayout"))) && NoneMatch(t, TypeKey, Equals(Str("VerticalLayout")))
  }

  /** Without layouts the bottom-up stamping changes nothing and nothing divides. */
  lemma {:induction false} UnstampedWithoutLayouts(t: Json)
    requires NoLayouts(t)
    ensures Stamped(Current, t) == t && Calm(Current, t)
    decreases t
  {
    match t
    case Arr(a) =>
      forall i | 0 <= i < |a| ensures Stamped(Current, a[i]) == a[i] && Calm(Current, a[i]) {
        UnstampedWithoutLayouts(a[i]);
      }
      assert StampedBelow(Current, t) == t;
    case Obj(m) =>
      forall k | k in m ensures Stamped(Current, m[k]) == m[k] && Calm(Current, m[k]) {
        UnstampedWithoutLayouts(m[k]);
      }
      var below := map k | k in m :: Stamped(Current, m[k]);
      assert StampedBelow(Current, t) == Obj(below);
      assert below == m;
    case _ =>
  }

  /**
   * The width walk of the current package tests every node that has a
   * type, but only the two layout types stamp anything: over a tree
   * without them it changes nothing and reports no error, given the fuel
   * to reach every node.
   */
  lemma WidthsOnlyForLayouts(t: Json, fuel: nat)
    requires NoLayouts(t) && Fits(t, fuel)
    ensures Walk(t, TypeKey, Present, StampLayouts(Current), fuel) == Done(t, false)
  {
    UnstampedWithoutLayouts(t);
    WidthTree(Current, t, fuel);
    assert WidthTest(Current) == Present;
  }

  lemma {:induction false} WidthChildrenTree(variant: Variant, t: Json, fuel: nat)
    requires CalmBelow(variant, t) && Fits(StampedBelow(variant, t), fuel + 1)
    ensures WalkChildren(t, TypeKey, WidthTest(variant), StampLayouts(variant), fuel) == Done(StampedBelow(variant, t), false)
    decreases fuel, 2
  {
    match t
    case Arr(a) => WidthElementsTree(variant, a, fuel);
    case Obj(m) => WidthMembersTree(variant, m, fuel);
    case _ =>
  }

  lemma {:induction false} WidthElementsTree(variant: Variant, a: seq<Json>, fuel: nat)
    requires CalmBelow(variant, Arr(a)) && Fits(StampedBelow(variant, Arr(a)), fuel + 1)
    ensures WalkElements(a, TypeKey, WidthTest(variant), StampLayouts(variant), fuel) == Done(StampedBelow(variant, Arr(a)), false)
    decreases fuel, 1
  {
    var trees := seq(|a|, i requires 0 <= i < |a| => Stamped(variant, a[i]));
    var flags := seq(|a|, i requires 0 <= i < |a| => false);
    assert StampedBelow(variant, Arr(a)) == Arr(trees);
    forall i | 0 <= i < |a|
      ensures Walk(a[i], TypeKey, WidthTest(variant), StampLayouts(variant), fuel) == Done(trees[i], flags[i])
    {
      assert Fits(trees[i], fuel);
      WidthTree(variant, a[i], fuel);
    }
    ElementsAll(a, TypeKey, WidthTest(variant), StampLayouts(variant), fuel, trees, flags);
  }

  lemma {:induction false} WidthMembersTree(variant: Variant, m: map<string, Json>, fuel: nat)
    requires CalmBelow(variant, Obj(m)) && Fits(StampedBelow(variant, Obj(m)), fuel + 1)
    ensures WalkChildren(Obj(m), TypeKey, WidthTest(variant), StampLayouts(variant), fuel) == Done(StampedBelow(variant, Obj(m)), false)
    decreases fuel, 1
  {
    var test := WidthTest(variant);
    var rs := MemberWalks(m, TypeKey, test, StampLayouts(variant), fuel);
    assert WalkChildren(Obj(m), TypeKey, test, StampLayouts(variant), fuel) == Gather(rs);
    var below := map k | k in m :: Stamped(variant, m[k]);
    assert StampedBelow(variant, Obj(m)) == Obj(below);
    forall k | k in m ensures rs[k] == Done(below[k], false) {
      assert Fits(below[k], fuel);
      assert Calm(variant, m[k]);
      WidthTree(variant, m[k], fuel);
    }
    GatherQuiet(rs, below);
  }

  /** Members that each complete quietly with the given trees. */
  lemma GatherQuiet(rs: map<string, Outcome>, below: map<string, Json>)
    requires rs.Keys == below.Keys
    requires forall k :: k in rs ==> rs[k] == Done(below[k], false)
    ensures Gather(rs) == Done(Obj(below), false)
  {
    GatherAll(rs);
    assert (map k | k in rs :: rs[k].tree) == below;
  }

  // ---------------------------------------------------------------------
  // The keyword walk keeps every layout as calm as it was

  /** Two values the width walk cannot tell apart at "type" or at "elements". */
  predicate Alike(x: Json, y: Json) {
    (x.Obj? <==> y.Obj?) && (x.Arr? <==> y.Arr?) &&
    (x.Arr? ==> |x.elems| == |y.elems|) && (!x.Obj? && !x.Arr? ==> x == y)
  }

  /** Keywording changes the kind of no value and the length of no array. */
  lemma KeywordedAlike(schema: Json, t: Json)
    ensures Alike(SetupFacts.Keyworded(schema, t), t)
  {
    if t.Arr? {
      assert !SetupFacts.IsControl(t) by {
        assert Search(t, TypeKey) == Null;
      }
    }
  }

  /** Nodes alike at "type" and "elements" are tested alike and panic alike. */
  lemma AlikeNodes(variant: Variant, c1: Json, c0: Json)
    requires Alike(Search(c1, ["type"]), Search(c0, ["type"]))
    requires Alike(Search(c1, ["elements"]), Search(c0, ["elements"]))
    ensures Matches(c1, TypeKey, WidthTest(variant)) == Matches(c0, TypeKey, WidthTest(variant))
    ensures StampNode(variant, c1).Panicked? == StampNode(variant, c0).Panicked?
  {
  }

  /** Keywording a node keeps its "type" and "elements" alike. */
  lemma KeywordedSearch(schema: Json, t: Json, k: string)
    requires k != "schema"
    ensures Alike(Search(SetupFacts.Keyworded(schema, t), [k]), Search(t, [k]))
  {
    match t
    case Obj(m) => KeywordedMemberSearch(schema, m, k);
    case Arr(a) => KeywordedElementSearch(schema, a, k);
    case _ =>
  }

  lemma KeywordedMemberSearch(schema: Json, m: map<string, Json>, k: string)
    requires k != "schema"
    ensures Alike(Search(SetupFacts.Keyworded(schema, Obj(m)), [k]), Search(Obj(m), [k]))
  {
    var f := x => SetupFacts.Keyworded(schema, x);
    SetupFacts.KeywordedObject(schema, m, f);
    var below := Obj(map j | j in m :: f(m[j]));
    KeywordedShape(schema, Obj(m));
    WithKeywordsKeeps(below, NodeKeywords(schema, Obj(m)), k);
    if k in m {
      KeywordedAlike(schema, m[k]);
    }
  }

  /** The keywords the walk copies into one node: none unless it is a Control. */
  function NodeKeywords(schema: Json, t: Json): map<string, Json> {
    if SetupFacts.IsControl(t) then Keywords(Engine.Fragment(schema, t)) else map[]
  }

  /** A keyworded node is its keyworded children with the node's own keywords copied in. */
  lemma KeywordedShape(schema: Json, t: Json)
    ensures SetupFacts.Keyworded(schema, t) == WithKeywords(SetupFacts.KeywordedBelow(schema, t), NodeKeywords(schema, t))
  {
  }

  /** Copying keywords into `schema` leaves every other member as it was. */
  lemma WithKeywordsKeeps(c: Json, kw: map<string, Json>, k: string)
    requires c.Obj? && k != "schema"
    ensures WithKeywords(c, kw).Obj?
    ensures k in WithKeywords(c, kw).fields <==> k in c.fields
    ensures k in c.fields ==> WithKeywords(c, kw).fields[k] == c.fields[k]
  {
  }

  lemma KeywordedElementSearch(schema: Json, a: seq<Json>, k: string)
    ensures Alike(Search(SetupFacts.Keyworded(schema, Arr(a)), [k]), Search(Arr(a), [k]))
  {
    assert !SetupFacts.IsControl(Arr(a)) by {
      assert Search(Arr(a), TypeKey) == Null;
    }
    var trees := seq(|a|, i requires 0 <= i < |a| => SetupFacts.Keyworded(schema, a[i]));
    SetupFacts.KeywordedOther(schema, Arr(a));
    assert SetupFacts.KeywordedBelow(schema, Arr(a)) == Arr(trees);
    if Atoi(k).Some? && 0 <= Atoi(k).value < |a| {
      KeywordedAlike(schema, a[Atoi(k).value]);
    }
  }

  /** A node holding only stored containers never panics and holds nothing that does. */
  lemma CalmStored(variant: Variant, kw: map<string, Json>)
    requires forall k :: k in kw ==> kw[k].Boxed?
    ensures Calm(variant, Obj(kw))
  {
    forall k | k in kw ensures Calm(variant, kw[k]) {
      assert Search(kw[k], ["type"]) == Null;
    }
  }

  /**
   * A ui-schema no setup has run on in which no layout divides by an
   * empty row keeps that property through the keyword walk: the keywords
   * go into a `schema` object of stored containers, which no layout reads.
   */
  lemma {:induction false} CalmKeyworded(variant: Variant, schema: Json, t: Json)
    requires SetupFacts.Unset(t) && Calm(variant, t)
    ensures Calm(variant, SetupFacts.Keyworded(schema, t))
    decreases t
  {
    match t
    case Arr(a) =>
      forall i | 0 <= i < |a| ensures Calm(variant, SetupFacts.Keyworded(schema, a[i])) {
        CalmKeyworded(variant, schema, a[i]);
      }
      CalmKeywordedElements(variant, schema, a);
    case Obj(m) =>
      forall k | k in m ensures Calm(variant, SetupFacts.Keyworded(schema, m[k])) {
        CalmKeyworded(variant, schema, m[k]);
      }
      CalmKeywordedMembers(variant, schema, m);
    case _ =>
      KeywordedAlike(schema, t);
  }

  lemma CalmKeywordedElements(variant: Variant, schema: Json, a: seq<Json>)
    requires Calm(variant, Arr(a))
    requires forall i :: 0 <= i < |a| ==> Calm(variant, SetupFacts.Keyworded(schema, a[i]))
    ensures Calm(variant, SetupFacts.Keyworded(schema, Arr(a)))
  {
    var r := SetupFacts.Keyworded(schema, Arr(a));
    KeywordedSearch(schema, Arr(a), "type");
    KeywordedSearch(schema, Arr(a), "elements");
    AlikeNodes(variant, r, Arr(a));
    assert !SetupFacts.IsControl(Arr(a)) by {
      assert Search(Arr(a), TypeKey) == Null;
    }
    var trees := seq(|a|, i requires 0 <= i < |a| => SetupFacts.Keyworded(schema, a[i]));
    SetupFacts.KeywordedOther(schema, Arr(a));
    assert SetupFacts.KeywordedBelow(schema, Arr(a)) == Arr(trees);
  }

  lemma CalmKeywordedMembers(variant: Variant, schema: Json, m: map<string, Json>)
    requires SetupFacts.Unset(Obj(m)) && Calm(variant, Obj(m))
    requires forall k :: k in m ==> Calm(variant, SetupFacts.Keyworded(schema, m[k]))
    ensures Calm(variant, SetupFacts.Keyworded(schema, Obj(m)))
  {
    var t := Obj(m);
    var r := SetupFacts.Keyworded(schema, t);
    KeywordedSearch(schema, t, "type");
    KeywordedSearch(schema, t, "elements");
    AlikeNodes(variant, r, t);
    CalmBelowKeyworded(variant, schema, m);
  }

  /** The members of a keyworded object are calm when the keyworded members are: a stored `schema` is calm. */
  lemma CalmBelowKeyworded(variant: Variant, schema: Json, m: map<string, Json>)
    requires SetupFacts.Unset(Obj(m))
    requires forall k :: k in m ==> Calm(variant, SetupFacts.Keyworded(schema, m[k]))
    ensures CalmBelow(variant, SetupFacts.Keyworded(schema, Obj(m)))
  {
    var t := Obj(m);
    var r := SetupFacts.Keyworded(schema, t);
    var f := x => SetupFacts.Keyworded(schema, x);
    SetupFacts.KeywordedObject(schema, m, f);
    var below := map j | j in m :: f(m[j]);
    assert CalmBelow(variant, Obj(below));
    if SetupFacts.IsControl(t) {
      var kw := Keywords(Engine.Fragment(schema, t));
      assert r == WithKeywords(Obj(below), kw);
      if "schema" in m {
        assert below["schema"] == SetupFacts.Keyworded(schema, Null) == Null;
      }
      CalmWithKeywords(variant, below, kw);
    }
  }

  /** Copying stored keywords into a fresh `schema` keeps the members calm. */
  lemma CalmWithKeywords(variant: Variant, m: map<string, Json>, kw: map<string, Json>)
    requires CalmBelow(variant, Obj(m)) && ("schema" !in m || m["schema"] == Null)
    requires forall k :: k in kw ==> kw[k].Boxed?
    ensures CalmBelow(variant, WithKeywords(Obj(m), kw))
  {
    if kw != map[] {
      SetupFacts.WithKeywordsFresh(m, kw);
      CalmStored(variant, kw);
      var m1 := m["schema" := Obj(kw)];
      forall j | j in m1 ensures Calm(variant, m1[j]) {
        if j != "schema" {
          assert m1[j] == m[j];
        }
      }
    }
  }
}

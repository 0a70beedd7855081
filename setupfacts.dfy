/**
 * When setup reports an error. The keyword walk records "no scope" for
 * every Control without a string scope and goes on walking; the width
 * walk never records an error. So setup's error says exactly whether
 * some Control of the ui-schema lacks a string scope, for a ui-schema no
 * setup has run on yet.
 */
module SetupFacts {
  import opened JsonTree
  import opened Engine
  import opened Runs
  import opened WalkFacts

  /** The nodes the keyword walk operates on: the value at "type" is the string "Control". */
  predicate IsControl(t: Json) {
    Matches(t, TypeKey, Equals(Str("Control")))
  }

  /** Some Control of the tree, the root included, has no string scope. */
  predicate Scopeless(t: Json)
    decreases t, 1
  {
    (IsControl(t) && NoScope(t)) || ChildScopeless(t)
  }

  /** Some Control below the node has no string scope. */
  predicate ChildScopeless(t: Json)
    decreases t, 0
  {
    match t
    case Arr(a) => exists i :: 0 <= i < |a| && Scopeless(a[i])
    case Obj(m) => exists k :: k in m && Scopeless(m[k])
    case _ => false
  }

  /** No Control of the tree carries a `schema` member yet: setup has not run on it. */
  predicate Unset(t: Json)
    decreases t, 1
  {
    (t.Obj? && IsControl(t) ==> "schema" !in t.fields || t.fields["schema"] == Null) && ChildrenUnset(t)
  }

  predicate ChildrenUnset(t: Json)
    decreases t, 0
  {
    match t
    case Arr(a) => forall i :: 0 <= i < |a| ==> Unset(a[i])
    case Obj(m) => forall k :: k in m ==> Unset(m[k])
    case _ => true
  }

  /** The keyword walk of setup. */
  function KeywordWalk(schema: Json, t: Json, fuel: nat): Outcome {
    Walk(t, TypeKey, Equals(Str("Control")), AttachSchema(schema), fuel)
  }

  /** A node holding only stored containers is neither a Control nor holds one. */
  lemma StoredOnly(kw: map<string, Json>)
    requires forall k :: k in kw ==> kw[k].Boxed?
    ensures !Scopeless(Obj(kw)) && Unset(Obj(kw))
  {
    assert !IsControl(Obj(kw));
    forall k | k in kw ensures !Scopeless(kw[k]) && Unset(kw[k]) {
      assert !IsControl(kw[k]);
    }
  }

  /**
   * The keyword operation on a Control that has no schema yet only adds a
   * `schema` object of stored containers: below the node the same
   * Controls lack a scope as before, and none has a schema.
   */
  lemma AttachKeepsChildren(schema: Json, c: Json)
    requires IsControl(c) && Unset(c)
    ensures ChildrenUnset(AttachSchemaNode(schema, c))
    ensures ChildScopeless(AttachSchemaNode(schema, c)) == ChildScopeless(c)
  {
    var kw := Keywords(Engine.Fragment(schema, c));
    var r := AttachSchemaNode(schema, c);
    if kw != map[] {
      var m := c.fields;
      assert r == Obj(m["schema" := Obj(kw)]);
      StoredOnly(kw);
      if "schema" in m {
        assert !Scopeless(m["schema"]);
      }
      if ChildScopeless(r) {
        var k :| k in r.fields && Scopeless(r.fields[k]);
        assert k != "schema" && k in m && Scopeless(m[k]);
      }
      if ChildScopeless(c) {
        var k :| k in m && Scopeless(m[k]);
        assert k != "schema" && k in r.fields && Scopeless(r.fields[k]);
      }
    }
  }

  /**
   * The keyword walk, when it completes on a ui-schema no setup has run
   * on, reports an error exactly when some Control lacks a string scope:
   * an error on one node does not stop the walk of the others.
   */
  lemma {:induction false} KeywordWalkFlags(schema: Json, t: Json, fuel: nat)
    requires Unset(t) && KeywordWalk(schema, t, fuel).Done?
    ensures KeywordWalk(schema, t, fuel).failed == Scopeless(t)
    decreases fuel, 0
  {
    var t1 := if IsControl(t) then AttachSchemaNode(schema, t) else t;
    var first := if IsControl(t) then Operate(AttachSchema(schema), t, fuel) else Done(t, false);
    assert first == Done(t1, IsControl(t) && NoScope(t));
    if IsControl(t) {
      AttachKeepsChildren(schema, t);
    }
    ChildrenFlags(schema, t1, fuel - 1);
  }

  lemma {:induction false} ChildrenFlags(schema: Json, t: Json, fuel: nat)
    requires ChildrenUnset(t)
    requires WalkChildren(t, TypeKey, Equals(Str("Control")), AttachSchema(schema), fuel).Done?
    ensures WalkChildren(t, TypeKey, Equals(Str("Control")), AttachSchema(schema), fuel).failed == ChildScopeless(t)
    decreases fuel, 2
  {
    match t
    case Arr(a) =>
      ElementsFlags(schema, a, fuel);
    case Obj(m) =>
      MembersFailed(m, TypeKey, Equals(Str("Control")), AttachSchema(schema), fuel);
      forall k | k in m ensures KeywordWalk(schema, m[k], fuel).failed == Scopeless(m[k]) {
        KeywordWalkFlags(schema, m[k], fuel);
      }
    case _ =>
  }

  lemma {:induction false} ElementsFlags(schema: Json, a: seq<Json>, fuel: nat)
    requires forall i :: 0 <= i < |a| ==> Unset(a[i])
    requires WalkElements(a, TypeKey, Equals(Str("Control")), AttachSchema(schema), fuel).Done?
    ensures WalkElements(a, TypeKey, Equals(Str("Control")), AttachSchema(schema), fuel).failed
        == exists i :: 0 <= i < |a| && Scopeless(a[i])
    decreases fuel, 1, |a|
  {
    if a != [] {
      var n := |a|;
      var init := a[..n - 1];
      ElementsFlags(schema, init, fuel);
      KeywordWalkFlags(schema, a[n - 1], fuel);
      if exists i :: 0 <= i < n && Scopeless(a[i]) {
        var i :| 0 <= i < n && Scopeless(a[i]);
        if i < n - 1 {
          assert init[i] == a[i];
        }
      }
      if exists i :: 0 <= i < |init| && Scopeless(init[i]) {
        var i :| 0 <= i < |init| && Scopeless(init[i]);
        assert a[i] == init[i];
      }
    }
  }

  /** The width operation never records an error. */
  lemma StampQuiet(variant: Variant, c: Json)
    ensures StampNode(variant, c).Done? ==> !StampNode(variant, c).failed
  {
  }

  /** So a completed width walk reports no error, whatever it tests. */
  lemma {:induction false} StampWalkQuiet(t: Json, key: seq<string>, want: Match, variant: Variant, fuel: nat)
    requires Walk(t, key, want, StampLayouts(variant), fuel).Done?
    ensures !Walk(t, key, want, StampLayouts(variant), fuel).failed
    decreases fuel, 0
  {
    var o := if Matches(t, key, want) then StampNode(variant, t) else Done(t, false);
    StampQuiet(variant, t);
    StampChildrenQuiet(o.tree, key, want, variant, fuel - 1);
  }

  lemma {:induction false} StampChildrenQuiet(t: Json, key: seq<string>, want: Match, variant: Variant, fuel: nat)
    requires WalkChildren(t, key, want, StampLayouts(variant), fuel).Done?
    ensures !WalkChildren(t, key, want, StampLayouts(variant), fuel).failed
    decreases fuel, 2
  {
    match t
    case Arr(a) =>
      StampElementsQuiet(a, key, want, variant, fuel);
    case Obj(m) =>
      var rs := MemberWalks(m, key, want, StampLayouts(variant), fuel);
      forall k | k in m ensures rs[k].Done? && !rs[k].failed {
        assert rs[k] in rs.Values;
        StampWalkQuiet(m[k], key, want, variant, fuel);
      }
    case _ =>
  }

  lemma {:induction false} StampElementsQuiet(a: seq<Json>, key: seq<string>, want: Match, variant: Variant, fuel: nat)
    requires WalkElements(a, key, want, StampLayouts(variant), fuel).Done?
    ensures !WalkElements(a, key, want, StampLayouts(variant), fuel).failed
    decreases fuel, 1, |a|
  {
    if a != [] {
      StampElementsQuiet(a[..|a| - 1], key, want, variant, fuel);
      StampWalkQuiet(a[|a| - 1], key, want, variant, fuel);
    }
  }

  // ---------------------------------------------------------------------
  // The keyword walk over the whole tree

  /**
   * The ui-schema as the keyword walk leaves it: every Control, at any
   * depth, gets the keywords of the schema fragment its own scope names,
   * added as WithKeywords adds them; every other node only has its
   * children done the same way.
   */
  function Keyworded(schema: Json, t: Json): Json
    decreases t, 1
  {
    var r := KeywordedBelow(schema, t);
    if IsControl(t) then WithKeywords(r, Keywords(Engine.Fragment(schema, t))) else r
  }

  /** The node with every child keyworded. */
  function KeywordedBelow(schema: Json, t: Json): Json
    decreases t, 0
  {
    match t
    case Arr(a) => Arr(seq(|a|, i requires 0 <= i < |a| => Keyworded(schema, a[i])))
    case Obj(m) => Obj(map k | k in m :: Keyworded(schema, m[k]))
    case _ => t
  }

  /** A node that is no Control only has its children keyworded. */
  lemma KeywordedOther(schema: Json, t: Json)
    requires !IsControl(t)
    ensures Keyworded(schema, t) == KeywordedBelow(schema, t)
  {
  }

  /** A node of stored containers has nothing for the keyword walk to do. */
  lemma KeywordedStored(schema: Json, kw: map<string, Json>)
    requires forall k :: k in kw ==> kw[k].Boxed?
    ensures Keyworded(schema, Obj(kw)) == Obj(kw)
  {
    assert Search(Obj(kw), TypeKey) == Null || Search(Obj(kw), TypeKey).Boxed?;
    KeywordedOther(schema, Obj(kw));
    forall k | k in kw ensures Keyworded(schema, kw[k]) == kw[k] {
      KeywordedOther(schema, kw[k]);
    }
    assert (map k | k in kw :: Keyworded(schema, kw[k])) == kw;
  }

  /** Keywords onto a node without a schema: a fresh `schema` object holding them. */
  lemma WithKeywordsFresh(m: map<string, Json>, kw: map<string, Json>)
    requires kw != map[] && ("schema" !in m || m["schema"] == Null)
    ensures WithKeywords(Obj(m), kw) == Obj(m["schema" := Obj(kw)])
  {
  }

  /**
   * The children of a Control after its keywords are copied, each
   * keyworded, are the keyworded Control: the copied `schema` object holds
   * only stored containers, and the Control had no schema to lose.
   */
  lemma AttachThenBelow(schema: Json, c: Json)
    requires IsControl(c) && Unset(c)
    ensures KeywordedBelow(schema, AttachSchemaNode(schema, c)) == Keyworded(schema, c)
  {
    var kw := Keywords(Engine.Fragment(schema, c));
    var m := c.fields;
    var f := x => Keyworded(schema, x);
    KeywordedObject(schema, m, f);
    var below := map k | k in m :: f(m[k]);
    assert Keyworded(schema, c) == WithKeywords(Obj(below), kw);
    if kw != map[] {
      WithKeywordsFresh(m, kw);
      if "schema" in m {
        assert below["schema"] == Keyworded(schema, Null) == Null;
      }
      WithKeywordsFresh(below, kw);
      KeywordedStored(schema, kw);
      var m1 := m["schema" := Obj(kw)];
      KeywordedObject(schema, m1, f);
      MapUpdate(m, m1, "schema", Obj(kw), f);
    }
  }

  /** The children of an object keyworded, through any function that keywords. */
  lemma KeywordedObject(schema: Json, m: map<string, Json>, f: Json -> Json)
    requires forall x :: f(x) == Keyworded(schema, x)
    ensures KeywordedBelow(schema, Obj(m)) == Obj(map k | k in m :: f(m[k]))
  {
    var below := map k | k in m :: Keyworded(schema, m[k]);
    assert KeywordedBelow(schema, Obj(m)) == Obj(below);
    assert below == map k | k in m :: f(m[k]);
  }

  /**
   * The keyword walk over a whole ui-schema no setup has run on: it leaves
   * every Control keyworded and reports an error exactly when some Control
   * lacks a string scope, given the fuel to reach every node of the
   * result.
   */
  lemma {:induction false} KeywordTree(schema: Json, t: Json, fuel: nat)
    requires Unset(t) && Fits(Keyworded(schema, t), fuel)
    ensures KeywordWalk(schema, t, fuel) == Done(Keyworded(schema, t), Scopeless(t))
    decreases fuel, 0
  {
    var t1 := if IsControl(t) then AttachSchemaNode(schema, t) else t;
    var first := if IsControl(t) then Operate(AttachSchema(schema), t, fuel) else Done(t, false);
    assert first == Done(t1, IsControl(t) && NoScope(t));
    if IsControl(t) {
      AttachKeepsChildren(schema, t);
      AttachThenBelow(schema, t);
    }
    KeywordChildrenTree(schema, t1, fuel - 1);
  }

  lemma {:induction false} KeywordChildrenTree(schema: Json, t: Json, fuel: nat)
    requires ChildrenUnset(t) && Fits(KeywordedBelow(schema, t), fuel + 1)
    ensures WalkChildren(t, TypeKey, Equals(Str("Control")), AttachSchema(schema), fuel)
         == Done(KeywordedBelow(schema, t), ChildScopeless(t))
    decreases fuel, 2
  {
    match t
    case Arr(a) => KeywordElementsTree(schema, a, fuel);
    case Obj(m) => KeywordMembersTree(schema, m, fuel);
    case _ =>
  }

  lemma {:induction false} KeywordElementsTree(schema: Json, a: seq<Json>, fuel: nat)
    requires ChildrenUnset(Arr(a)) && Fits(KeywordedBelow(schema, Arr(a)), fuel + 1)
    ensures WalkElements(a, TypeKey, Equals(Str("Control")), AttachSchema(schema), fuel)
         == Done(KeywordedBelow(schema, Arr(a)), ChildScopeless(Arr(a)))
    decreases fuel, 1
  {
    var trees := seq(|a|, i requires 0 <= i < |a| => Keyworded(schema, a[i]));
    var flags := seq(|a|, i requires 0 <= i < |a| => Scopeless(a[i]));
    assert KeywordedBelow(schema, Arr(a)) == Arr(trees);
    forall i | 0 <= i < |a|
      ensures Walk(a[i], TypeKey, Equals(Str("Control")), AttachSchema(schema), fuel) == Done(trees[i], flags[i])
    {
      assert Fits(trees[i], fuel);
      KeywordTree(schema, a[i], fuel);
    }
    ElementsAll(a, TypeKey, Equals(Str("Control")), AttachSchema(schema), fuel, trees, flags);
  }

  lemma {:induction false} KeywordMembersTree(schema: Json, m: map<string, Json>, fuel: nat)
    requires ChildrenUnset(Obj(m)) && Fits(KeywordedBelow(schema, Obj(m)), fuel + 1)
    ensures WalkChildren(Obj(m), TypeKey, Equals(Str("Control")), AttachSchema(schema), fuel)
         == Done(KeywordedBelow(schema, Obj(m)), ChildScopeless(Obj(m)))
    decreases fuel, 1
  {
    var rs := MemberWalks(m, TypeKey, Equals(Str("Control")), AttachSchema(schema), fuel);
    var below := map k | k in m :: Keyworded(schema, m[k]);
    assert KeywordedBelow(schema, Obj(m)) == Obj(below);
    forall k | k in m ensures rs[k] == Done(below[k], Scopeless(m[k])) {
      assert Fits(below[k], fuel);
      KeywordTree(schema, m[k], fuel);
    }
    GatherAll(rs);
    assert (map k | k in rs :: rs[k].tree) == below;
  }
}

/**
 * The typed ui-schema of the root package and its two scope searches.
 * Both look at a node's `Elements` in order and then at its
 * `Options.Detail.Elements` in order, going depth first; neither writes
 * to the tree, which the model makes plain by working on values.
 */
module UISchema {
  import opened Wrappers

  datatype UIElement = UIElement(
    typ: string,
    scope: string,
    text: string,
    elements: seq<UIElement>,
    suggestions: seq<string>,
    labelText: string,  // `Label` (the word is reserved in Dafny)
    options: Options)

  datatype Options = Options(elementLabelProp: string, detail: Detail)

  datatype Detail = Detail(typ: string, elements: seq<UIElement>)

  // ---------------------------------------------------------------------
  // The nodes a search can reach, in the order it visits them

  /** The node, then everything under its elements, then everything under its detail elements. */
  function Nodes(e: UIElement): (r: seq<UIElement>)
    ensures r != [] && r[0] == e
    decreases e, 2
  {
    [e] + NodesOfElements(e, 0) + NodesOfDetail(e, 0)
  }

  function NodesOfElements(e: UIElement, i: nat): seq<UIElement>
    requires i <= |e.elements|
    decreases e, 1, |e.elements| - i
  {
    if i == |e.elements| then [] else Nodes(e.elements[i]) + NodesOfElements(e, i + 1)
  }

  function NodesOfDetail(e: UIElement, i: nat): seq<UIElement>
    requires i <= |e.options.detail.elements|
    decreases e, 1, |e.options.detail.elements| - i
  {
    var d := e.options.detail.elements;
    if i == |d| then [] else Nodes(d[i]) + NodesOfDetail(e, i + 1)
  }

  /** The first node of `s` with the scope. */
  function FirstWith(s: seq<UIElement>, scope: string): (r: Option<UIElement>)
    ensures r.Some? ==> r.value in s && r.value.scope == scope
    ensures r.None? <==> forall x :: x in s ==> x.scope != scope
  {
    if s == [] then None
    else if s[0].scope == scope then Some(s[0])
    else FirstWith(s[1..], scope)
  }

  lemma {:induction false} FirstWithAppend(a: seq<UIElement>, b: seq<UIElement>, scope: string)
    ensures FirstWith(a + b, scope) == if FirstWith(a, scope).Some? then FirstWith(a, scope) else FirstWith(b, scope)
  {
    if a != [] {
      assert (a + b)[1..] == a[1..] + b;
      FirstWithAppend(a[1..], b, scope);
    } else {
      assert a + b == b;
    }
  }

  // ---------------------------------------------------------------------
  // FindWithScope

  /** The node itself when its scope matches; else the first match under its elements, then under its detail. */
  function FindWithScope(e: UIElement, scope: string): (r: Option<UIElement>)
    ensures r.Some? ==> r.value.scope == scope
    decreases e, 2
  {
    if e.scope == scope then Some(e)
    else
      match FindInElements(e, 0, scope)
      case Some(x) => Some(x)
      case None => FindInDetail(e, 0, scope)
  }

  /** The loop over `Elements` from index `i`, returning the first child search that finds. */
  function FindInElements(e: UIElement, i: nat, scope: string): (r: Option<UIElement>)
    requires i <= |e.elements|
    ensures r.Some? ==> r.value.scope == scope
    decreases e, 1, |e.elements| - i
  {
    if i == |e.elements| then None
    else
      match FindWithScope(e.elements[i], scope)
      case Some(x) => Some(x)
      case None => FindInElements(e, i + 1, scope)
  }

  /** The loop over `Options.Detail.Elements` from index `i`. */
  function FindInDetail(e: UIElement, i: nat, scope: string): (r: Option<UIElement>)
    requires i <= |e.options.detail.elements|
    ensures r.Some? ==> r.value.scope == scope
    decreases e, 1, |e.options.detail.elements| - i
  {
    var d := e.options.detail.elements;
    if i == |d| then None
    else
      match FindWithScope(d[i], scope)
      case Some(x) => Some(x)
      case None => FindInDetail(e, i + 1, scope)
  }

  /**
   * FindWithScope is the first node in visiting order whose scope is the
   * query: the receiver before any child, the elements before the detail.
   */
  lemma {:induction false} FindIsFirstInOrder(e: UIElement, scope: string)
    ensures FindWithScope(e, scope) == FirstWith(Nodes(e), scope)
    decreases e, 2
  {
    var a, b := NodesOfElements(e, 0), NodesOfDetail(e, 0);
    assert Nodes(e) == [e] + (a + b);
    if e.scope != scope {
      assert ([e] + (a + b))[1..] == a + b;
      FindInElementsIsFirst(e, 0, scope);
      FindInDetailIsFirst(e, 0, scope);
      FirstWithAppend(a, b, scope);
    }
  }

  lemma {:induction false} FindInElementsIsFirst(e: UIElement, i: nat, scope: string)
    requires i <= |e.elements|
    ensures FindInElements(e, i, scope) == FirstWith(NodesOfElements(e, i), scope)
    decreases e, 1, |e.elements| - i
  {
    if i < |e.elements| {
      FindIsFirstInOrder(e.elements[i], scope);
      FindInElementsIsFirst(e, i + 1, scope);
      FirstWithAppend(Nodes(e.elements[i]), NodesOfElements(e, i + 1), scope);
    }
  }

  lemma {:induction false} FindInDetailIsFirst(e: UIElement, i: nat, scope: string)
    requires i <= |e.options.detail.elements|
    ensures FindInDetail(e, i, scope) == FirstWith(NodesOfDetail(e, i), scope)
    decreases e, 1, |e.options.detail.elements| - i
  {
    var d := e.options.detail.elements;
    if i < |d| {
      FindIsFirstInOrder(d[i], scope);
      FindInDetailIsFirst(e, i + 1, scope);
      FirstWithAppend(Nodes(d[i]), NodesOfDetail(e, i + 1), scope);
    }
  }

  /** The search comes back empty exactly when no reachable node has the scope. */
  lemma FindNothing(e: UIElement, scope: string)
    ensures FindWithScope(e, scope).None? <==> forall x :: x in Nodes(e) ==> x.scope != scope
  {
    FindIsFirstInOrder(e, scope);
  }

  // ---------------------------------------------------------------------
  // FindParentWithScope

  /**
   * The `Type` and `Elements` of the node whose direct elements hold the
   * first match (the detail's own `Type` and `Elements` for a match among
   * the detail elements); ("", empty) when there is none. A match found
   * below a child counts only when the `Type` it reports is not empty.
   */
  function FindParentWithScope(e: UIElement, scope: string): (r: (string, seq<UIElement>))
    ensures r == ("", []) || exists k :: 0 <= k < |r.1| && r.1[k].scope == scope
    decreases e, 2
  {
    match ParentInElements(e, 0, scope)
    case Some(p) => p
    case None =>
      match ParentInDetail(e, 0, scope)
      case Some(p) => p
      case None => ("", [])
  }

  function ParentInElements(e: UIElement, i: nat, scope: string): (r: Option<(string, seq<UIElement>)>)
    requires i <= |e.elements|
    ensures r.Some? ==> exists k :: 0 <= k < |r.value.1| && r.value.1[k].scope == scope
    decreases e, 1, |e.elements| - i
  {
    if i == |e.elements| then None
    else if e.elements[i].scope == scope then Some((e.typ, e.elements))
    else
      var inner := FindParentWithScope(e.elements[i], scope);
      if inner.0 != "" then Some(inner) else ParentInElements(e, i + 1, scope)
  }

  function ParentInDetail(e: UIElement, i: nat, scope: string): (r: Option<(string, seq<UIElement>)>)
    requires i <= |e.options.detail.elements|
    ensures r.Some? ==> exists k :: 0 <= k < |r.value.1| && r.value.1[k].scope == scope
    decreases e, 1, |e.options.detail.elements| - i
  {
    var d := e.options.detail;
    if i == |d.elements| then None
    else if d.elements[i].scope == scope then Some((d.typ, d.elements))
    else
      var inner := FindParentWithScope(d.elements[i], scope);
      if inner.0 != "" then Some(inner) else ParentInDetail(e, i + 1, scope)
  }

  /** No node anywhere below `e` has the scope. */
  predicate NoneBelow(e: UIElement, scope: string) {
    forall x :: x in NodesOfElements(e, 0) + NodesOfDetail(e, 0) ==> x.scope != scope
  }

  /** With no match below it, a node reports ("", empty). */
  lemma {:induction false} ParentOfNothing(e: UIElement, scope: string)
    requires NoneBelow(e, scope)
    ensures FindParentWithScope(e, scope) == ("", [])
    decreases e, 2
  {
    ParentOfNothingInElements(e, 0, scope);
    ParentOfNothingInDetail(e, 0, scope);
  }

  lemma {:induction false} ParentOfNothingInElements(e: UIElement, i: nat, scope: string)
    requires i <= |e.elements|
    requires forall x :: x in NodesOfElements(e, i) ==> x.scope != scope
    ensures ParentInElements(e, i, scope).None?
    decreases e, 1, |e.elements| - i
  {
    if i < |e.elements| {
      var c := e.elements[i];
      var here, rest := Nodes(c), NodesOfElements(e, i + 1);
      assert NodesOfElements(e, i) == here + rest;
      assert c == here[0];
      assert NoneBelow(c, scope) by {
        assert here == [c] + (NodesOfElements(c, 0) + NodesOfDetail(c, 0));
      }
      ParentOfNothing(c, scope);
      ParentOfNothingInElements(e, i + 1, scope);
    }
  }

  lemma {:induction false} ParentOfNothingInDetail(e: UIElement, i: nat, scope: string)
    requires i <= |e.options.detail.elements|
    requires forall x :: x in NodesOfDetail(e, i) ==> x.scope != scope
    ensures ParentInDetail(e, i, scope).None?
    decreases e, 1, |e.options.detail.elements| - i
  {
    if i < |e.options.detail.elements| {
      var c := e.options.detail.elements[i];
      var here, rest := Nodes(c), NodesOfDetail(e, i + 1);
      assert NodesOfDetail(e, i) == here + rest;
      assert c == here[0];
      assert NoneBelow(c, scope) by {
        assert here == [c] + (NodesOfElements(c, 0) + NodesOfDetail(c, 0));
      }
      ParentOfNothing(c, scope);
      ParentOfNothingInDetail(e, i + 1, scope);
    }
  }

  /** A parent is only ever reported for a scope that FindWithScope finds too. */
  lemma ParentImpliesFound(e: UIElement, scope: string)
    requires FindParentWithScope(e, scope) != ("", [])
    ensures FindWithScope(e, scope).Some?
  {
    if FindWithScope(e, scope).None? {
      FindNothing(e, scope);
      assert Nodes(e) == [e] + (NodesOfElements(e, 0) + NodesOfDetail(e, 0));
      ParentOfNothing(e, scope);
    }
  }

  /**
   * A direct hit among the elements, with nothing to find under the
   * elements before it, reports this node's `Type` and `Elements`.
   */
  lemma {:induction false} DirectHitInElements(e: UIElement, i: nat, j: nat, scope: string)
    requires j <= i < |e.elements| && e.elements[i].scope == scope
    requires forall k, x :: j <= k < i && x in Nodes(e.elements[k]) ==> x.scope != scope
    ensures ParentInElements(e, j, scope) == Some((e.typ, e.elements))
    decreases i - j
  {
    if j < i {
      var c := e.elements[j];
      assert c == Nodes(c)[0];
      assert NoneBelow(c, scope) by {
        assert Nodes(c) == [c] + (NodesOfElements(c, 0) + NodesOfDetail(c, 0));
      }
      ParentOfNothing(c, scope);
      DirectHitInElements(e, i, j + 1, scope);
    }
  }

  /**
   * With nothing to find under the elements, a direct hit among the detail
   * elements (nothing to find under the detail elements before it)
   * reports the detail's `Type` and `Elements`.
   */
  lemma {:induction false} DirectHitInDetail(e: UIElement, i: nat, j: nat, scope: string)
    requires j <= i < |e.options.detail.elements| && e.options.detail.elements[i].scope == scope
    requires forall k, x :: j <= k < i && x in Nodes(e.options.detail.elements[k]) ==> x.scope != scope
    ensures ParentInDetail(e, j, scope) == Some((e.options.detail.typ, e.options.detail.elements))
    decreases i - j
  {
    if j < i {
      var c := e.options.detail.elements[j];
      assert c == Nodes(c)[0];
      assert NoneBelow(c, scope) by {
        assert Nodes(c) == [c] + (NodesOfElements(c, 0) + NodesOfDetail(c, 0));
      }
      ParentOfNothing(c, scope);
      DirectHitInDetail(e, i, j + 1, scope);
    }
  }

  /** The elements are searched before the detail: a clean elements list hands over to it. */
  lemma DetailAfterElements(e: UIElement, scope: string)
    requires forall x :: x in NodesOfElements(e, 0) ==> x.scope != scope
    ensures FindParentWithScope(e, scope) ==
      match ParentInDetail(e, 0, scope) case Some(p) => p case None => ("", [])
  {
    ParentOfNothingInElements(e, 0, scope);
  }

  /** A node with only a type, a scope and elements. */
  function Node(typ: string, scope: string, elements: seq<UIElement>): UIElement {
    UIElement(typ, scope, "", elements, [], "", Options("", Detail("", [])))
  }

  /**
   * A match whose parent has an empty `Type` is dropped by the caller's
   * `found != ""` test: the group below reports ("", [leaf]), the root
   * passes over it and reports nothing, though the scope is there to find.
   */
  lemma EmptyTypeDiscarded(scope: string, layout: string)
    requires scope != "" && layout != ""
    ensures var leaf := Node(layout, scope, []);
      var group := Node("", "", [leaf]);
      var root := Node(layout, "", [group]);
      FindParentWithScope(group, scope) == ("", [leaf]) &&
      FindParentWithScope(root, scope) == ("", []) &&
      FindWithScope(root, scope) == Some(leaf)
  {
    var leaf := Node(layout, scope, []);
    var group := Node("", "", [leaf]);
    var root := Node(layout, "", [group]);
    assert ParentInElements(group, 0, scope) == Some(("", [leaf]));
    assert ParentInElements(root, 1, scope).None?;
    assert ParentInElements(root, 0, scope).None?;
    assert FindInElements(group, 0, scope) == Some(leaf);
    assert FindInElements(root, 0, scope) == Some(leaf);
  }
}

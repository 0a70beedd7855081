/**
 * The array walk of BindData over a whole ui-schema. Each array control
 * gets its copies in `options` and the walk then goes on into the
 * control as the expansion left it, so the tree it leaves is described
 * here bottom-up: every node's children are done first, then an array
 * control expands. The two orders agree as long as no array control sits
 * inside the `options` of another, where its detail template lives: the
 * top-down walk copies or deletes such a template before it reaches the
 * array control inside it, while the copies themselves are stored
 * containers the walk does not enter.
 */
module ExpandFacts {
  import opened Wrappers
  import opened JsonTree
  import opened Paths
  import opened Engine
  import opened Runs
  import opened WalkFacts
  import opened PassFacts

  /** The test of the array walk: `schema.type` is the container setup stored for "array". */
  const ArrayTest: Match := Equals(Boxed(Str("array")))

  predicate IsArrayControl(t: Json) {
    Matches(t, SchemaTypeKey, ArrayTest)
  }

  /** The array walk of each package. */
  function ExpandWalk(data: Json, variant: Variant, t: Json, fuel: nat): Outcome {
    Walk(t, SchemaTypeKey, ArrayTest, ExpandArray(data, variant), fuel)
  }

  /** No node of the tree is an array control. */
  predicate ArrayFree(t: Json) {
    NoneMatch(t, SchemaTypeKey, ArrayTest)
  }

  /** No array control holds another one in its `options`. */
  predicate Unnested(t: Json)
    decreases t, 1
  {
    (IsArrayControl(t) ==> ArrayFree(Options(t))) && UnnestedBelow(t)
  }

  predicate UnnestedBelow(t: Json)
    decreases t, 0
  {
    match t
    case Arr(a) => forall i :: 0 <= i < |a| ==> Unnested(a[i])
    case Obj(m) => forall k :: k in m ==> Unnested(m[k])
    case _ => true
  }

  /**
   * The ui-schema as the array walk leaves it: the children of every
   * node done first, then every array control gets the `options` member
   * its expansion leaves.
   */
  function Expanded(data: Json, variant: Variant, t: Json): (r: Json)
    ensures t.Obj? <==> r.Obj?
    ensures t.Arr? <==> r.Arr?
    ensures !t.Obj? && !t.Arr? ==> r == t
    decreases t, 1
  {
    var r := ExpandedBelow(data, variant, t);
    if IsArrayControl(t) then ExpandedNode(data, variant, r) else r
  }

  function ExpandedBelow(data: Json, variant: Variant, t: Json): (r: Json)
    ensures t.Obj? <==> r.Obj?
    ensures t.Arr? <==> r.Arr?
    ensures !t.Obj? && !t.Arr? ==> r == t
    decreases t, 0
  {
    match t
    case Arr(a) => Arr(seq(|a|, i requires 0 <= i < |a| => Expanded(data, variant, a[i])))
    case Obj(m) => Obj(map k | k in m :: Expanded(data, variant, m[k]))
    case _ => t
  }

  /** Some array control of the tree has no string scope. */
  predicate ArrayScopeless(t: Json)
    decreases t, 1
  {
    (IsArrayControl(t) && NoScope(t)) || ArrayScopelessBelow(t)
  }

  predicate ArrayScopelessBelow(t: Json)
    decreases t, 0
  {
    match t
    case Arr(a) => exists i :: 0 <= i < |a| && ArrayScopeless(a[i])
    case Obj(m) => exists k :: k in m && ArrayScopeless(m[k])
    case _ => false
  }

  /** An array control is an object: an array has no "schema" step. */
  lemma ArrayControlIsObject(t: Json)
    requires IsArrayControl(t)
    ensures t.Obj?
  {
    AtoiOfWord("schema");
  }

  // ---------------------------------------------------------------------
  // Trees without array controls

  /** A tree without an array control is left as it is and reports nothing. */
  lemma {:induction false} ExpandInert(data: Json, variant: Variant, x: Json)
    requires ArrayFree(x)
    ensures Expanded(data, variant, x) == x && !ArrayScopeless(x) && Unnested(x)
    decreases x
  {
    match x
    case Arr(a) =>
      forall i | 0 <= i < |a| ensures Expanded(data, variant, a[i]) == a[i] && !ArrayScopeless(a[i]) && Unnested(a[i]) {
        ExpandInert(data, variant, a[i]);
      }
      InertElements(data, variant, a);
    case Obj(m) =>
      forall k | k in m ensures Expanded(data, variant, m[k]) == m[k] && !ArrayScopeless(m[k]) && Unnested(m[k]) {
        ExpandInert(data, variant, m[k]);
      }
      InertMembers(data, variant, m);
    case _ =>
  }

  lemma InertElements(data: Json, variant: Variant, a: seq<Json>)
    requires forall i :: 0 <= i < |a| ==> Expanded(data, variant, a[i]) == a[i] && !ArrayScopeless(a[i]) && Unnested(a[i])
    ensures ExpandedBelow(data, variant, Arr(a)) == Arr(a)
  {
  }

  lemma InertMembers(data: Json, variant: Variant, m: map<string, Json>)
    requires forall k :: k in m ==> Expanded(data, variant, m[k]) == m[k]
    ensures ExpandedBelow(data, variant, Obj(m)) == Obj(m)
  {
    var below := map k | k in m :: Expanded(data, variant, m[k]);
    assert below.Keys == m.Keys;
    assert below == m;
  }

  /** An array of free elements is free: an array has no "schema" step. */
  lemma FreeElements(xs: seq<Json>)
    requires forall i :: 0 <= i < |xs| ==> ArrayFree(xs[i])
    ensures ArrayFree(Arr(xs))
  {
    AtoiOfWord("schema");
  }

  /** What ArrayAppend appends to, taken from a free value, is free. */
  lemma FreeExisting(v: Json)
    requires ArrayFree(v)
    ensures forall i :: 0 <= i < |Existing(v)| ==> ArrayFree(Existing(v)[i])
  {
  }

  /** The copies are stored containers, which the walk neither tests nor enters. */
  lemma FreeCopies(detail: Json, n: nat)
    ensures forall i :: 0 <= i < n ==> ArrayFree(Copies(detail, n)[i])
  {
    forall i | 0 <= i < n ensures ArrayFree(Copies(detail, n)[i]) {
      assert Search(Boxed(Copy(detail, i)), SchemaTypeKey) == Null;
    }
  }

  /** A member of a free value is free. */
  lemma FreeMember(v: Json, k: string)
    requires ArrayFree(v)
    ensures ArrayFree(Search(v, [k]))
  {
    assert Search(Null, SchemaTypeKey) == Null;
    if v.Obj? {
      SearchKey(v.fields, k, []);
      assert [k] + [] == [k];
    }
  }

  /** Replacing or dropping a member other than `schema` keeps a free object free. */
  lemma FreeUpdate(base: map<string, Json>, k: string, v: Json)
    requires ArrayFree(Obj(base)) && ArrayFree(v) && k != "schema"
    ensures ArrayFree(Obj(base[k := v])) && ArrayFree(Obj(base - {k}))
  {
    SearchKey(base, "schema", ["type"]);
    SearchKey(base[k := v], "schema", ["type"]);
    SearchKey(base - {k}, "schema", ["type"]);
    assert ["schema"] + ["type"] == SchemaTypeKey;
  }

  /** A sequence of free values stays free when cut. */
  lemma FreeSlice(xs: seq<Json>, j: nat)
    requires forall i :: 0 <= i < |xs| ==> ArrayFree(xs[i])
    requires j <= |xs|
    ensures ArrayFree(Arr(xs[j..]))
  {
    forall i | 0 <= i < |xs[j..]| ensures ArrayFree(xs[j..][i]) {
      assert xs[j..][i] == xs[j + i];
    }
    FreeElements(xs[j..]);
  }

  /** The expansion keeps an `options` member free: it adds stored copies and keeps or drops what was there. */
  lemma OptionsStayFree(variant: Variant, opts: Json, n: nat)
    requires ArrayFree(opts) && ExpandedOptions(variant, opts, n).Some?
    ensures ArrayFree(ExpandedOptions(variant, opts, n).value)
  {
    var base := if opts.Obj? then opts.fields else map[];
    var detail := Search(opts, ["detail"]);
    assert ArrayFree(Obj(base)) by {
      if !opts.Obj? {
        assert Search(Obj(map[]), SchemaTypeKey) == Null;
      }
    }
    FreeMember(opts, "detail");
    FreeMember(opts, "details");
    FreeExisting(detail);
    FreeExisting(Search(opts, ["details"]));
    FreeCopies(detail, n);
    match variant
    case Current =>
      if n == 0 {
        FreeUpdate(base, "detail", Null);
      } else {
        var items := Existing(Search(opts, ["details"])) + Copies(detail, n);
        FreeSlice(items, 0);
        assert items[0..] == items;
        FreeUpdate(base, "details", Arr(items));
        FreeUpdate(base["details" := Arr(items)], "detail", Null);
      }
    case Legacy =>
      if n > 0 {
        var items := Existing(detail) + Copies(detail, n);
        FreeSlice(items, 1);
        FreeUpdate(base, "detail", Arr(items[1..]));
      } else if detail.Arr? && detail.elems != [] {
        FreeSlice(detail.elems, 1);
        FreeUpdate(base, "detail", Arr(detail.elems[1..]));
      }
  }

  // ---------------------------------------------------------------------
  // One array control: expanding it first, or its children first

  /** Doing the children first keeps the node's scope and, when it holds no array control, its `options`. */
  lemma BelowKeeps(data: Json, variant: Variant, m: map<string, Json>)
    requires ArrayFree(Options(Obj(m)))
    ensures Scope(ExpandedBelow(data, variant, Obj(m))) == Scope(Obj(m))
    ensures NoScope(ExpandedBelow(data, variant, Obj(m))) == NoScope(Obj(m))
    ensures Options(ExpandedBelow(data, variant, Obj(m))) == Options(Obj(m))
  {
    var below := ExpandedBelow(data, variant, Obj(m));
    SearchKey(m, "scope", []);
    SearchKey(below.fields, "scope", []);
    SearchKey(m, "options", []);
    SearchKey(below.fields, "options", []);
    assert ["scope"] + [] == ["scope"] && ["options"] + [] == ["options"];
    if "options" in m {
      ExpandInert(data, variant, m["options"]);
    }
  }

  /** The children of an object expanded, through any function that expands. */
  lemma BelowObject(data: Json, variant: Variant, m: map<string, Json>, f: Json -> Json)
    requires forall x :: f(x) == Expanded(data, variant, x)
    ensures ExpandedBelow(data, variant, Obj(m)) == Obj(map k | k in m :: f(m[k]))
  {
    var below := map k | k in m :: Expanded(data, variant, m[k]);
    assert ExpandedBelow(data, variant, Obj(m)) == Obj(below);
    assert below == map k | k in m :: f(m[k]);
  }

  /** A free `options` put in place: the children expanded, with the new `options` as it is. */
  lemma BelowWithOptions(data: Json, variant: Variant, m: map<string, Json>, x: Json)
    requires Expanded(data, variant, x) == x
    ensures ExpandedBelow(data, variant, Obj(m["options" := x]))
         == Obj(ExpandedBelow(data, variant, Obj(m)).fields["options" := x])
  {
    var f := y => Expanded(data, variant, y);
    BelowObject(data, variant, m, f);
    BelowObject(data, variant, m["options" := x], f);
    MapUpdate(m, m["options" := x], "options", x, f);
  }

  /** Replacing a member that reports nothing by another one that reports nothing. */
  lemma ScopelessUpdate(m: map<string, Json>, k: string, x: Json)
    requires !ArrayScopeless(x) && (k in m ==> !ArrayScopeless(m[k]))
    ensures ArrayScopelessBelow(Obj(m[k := x])) == ArrayScopelessBelow(Obj(m))
  {
    var m1 := m[k := x];
    if ArrayScopelessBelow(Obj(m1)) {
      var j :| j in m1 && ArrayScopeless(m1[j]);
      assert j != k && m1[j] == m[j];
    }
    if ArrayScopelessBelow(Obj(m)) {
      var j :| j in m && ArrayScopeless(m[j]);
      assert j != k && m1[j] == m[j];
    }
  }

  /** Replacing a member by one without nested array controls. */
  lemma UnnestedUpdate(m: map<string, Json>, k: string, x: Json)
    requires UnnestedBelow(Obj(m)) && Unnested(x)
    ensures UnnestedBelow(Obj(m[k := x]))
  {
  }

  /**
   * An array control whose `options` holds no array control: expanding
   * it and then its children is expanding its children and then it. The
   * expansion changes only `options`, which holds no array control
   * before or after, and it reads only the scope and `options`, which
   * the children's expansion leaves alone.
   */
  lemma ExpandThenBelow(data: Json, variant: Variant, t: Json)
    requires IsArrayControl(t) && Unnested(t)
    ensures Expanded(data, variant, t) == ExpandedBelow(data, variant, ExpandedNode(data, variant, t))
    ensures ArrayScopelessBelow(ExpandedNode(data, variant, t)) == ArrayScopelessBelow(t)
    ensures UnnestedBelow(ExpandedNode(data, variant, t))
  {
    ArrayControlIsObject(t);
    var m := t.fields;
    BelowKeeps(data, variant, m);
    match ArrayCount(data, Segments(GabsPath(Scope(t), false)))
    case None =>
    case Some(n) =>
      match ExpandedOptions(variant, Options(t), n)
      case None =>
      case Some(x) =>
        OptionsStayFree(variant, Options(t), n);
        ExpandInert(data, variant, x);
        BelowWithOptions(data, variant, m, x);
        SearchKey(m, "options", []);
        assert ["options"] + [] == ["options"];
        if "options" in m {
          ExpandInert(data, variant, m["options"]);
        }
        ScopelessUpdate(m, "options", x);
        UnnestedUpdate(m, "options", x);
  }

  /** The nodes the walk continues with: an array control as its expansion left it, any other node as it is. */
  function Reached(data: Json, variant: Variant, t: Json): Json {
    if IsArrayControl(t) then ExpandedNode(data, variant, t) else t
  }

  /** The visit of one node: what it leaves and reports, and how the rest of the tree follows from it. */
  lemma ExpandStep(data: Json, variant: Variant, t: Json, fuel: nat)
    requires Unnested(t)
    ensures (if Matches(t, SchemaTypeKey, ArrayTest) then Operate(ExpandArray(data, variant), t, fuel) else Done(t, false))
         == Done(Reached(data, variant, t), IsArrayControl(t) && NoScope(t))
    ensures Expanded(data, variant, t) == ExpandedBelow(data, variant, Reached(data, variant, t))
    ensures ArrayScopeless(t) == ((IsArrayControl(t) && NoScope(t)) || ArrayScopelessBelow(Reached(data, variant, t)))
    ensures UnnestedBelow(Reached(data, variant, t))
  {
    if IsArrayControl(t) {
      ArrayControlIsObject(t);
      ExpandByOptions(data, variant, t);
      ExpandThenBelow(data, variant, t);
    }
  }

  // ---------------------------------------------------------------------
  // The whole walk

  /**
   * The array walk of each package over a whole ui-schema in which no
   * array control holds another in its `options`: it leaves every array
   * control expanded, and reports an error exactly when some array
   * control lacks a string scope, given the fuel to reach every node of
   * the result.
   */
  lemma {:induction false} ExpandTree(data: Json, variant: Variant, t: Json, fuel: nat)
    requires Unnested(t) && Fits(Expanded(data, variant, t), fuel)
    ensures ExpandWalk(data, variant, t, fuel) == Done(Expanded(data, variant, t), ArrayScopeless(t))
    decreases fuel, 0
  {
    var t1 := Reached(data, variant, t);
    ExpandStep(data, variant, t, fuel);
    ExpandChildrenTree(data, variant, t1, fuel - 1);
    WalkStep(t, SchemaTypeKey, ArrayTest, ExpandArray(data, variant), fuel, t1, IsArrayControl(t) && NoScope(t));
  }

  lemma {:induction false} ExpandChildrenTree(data: Json, variant: Variant, t: Json, fuel: nat)
    requires UnnestedBelow(t) && Fits(ExpandedBelow(data, variant, t), fuel + 1)
    ensures WalkChildren(t, SchemaTypeKey, ArrayTest, ExpandArray(data, variant), fuel)
         == Done(ExpandedBelow(data, variant, t), ArrayScopelessBelow(t))
    decreases fuel, 2
  {
    match t
    case Arr(a) => ExpandElementsTree(data, variant, a, fuel);
    case Obj(m) => ExpandMembersTree(data, variant, m, fuel);
    case _ =>
  }

  lemma {:induction false} ExpandElementsTree(data: Json, variant: Variant, a: seq<Json>, fuel: nat)
    requires UnnestedBelow(Arr(a)) && Fits(ExpandedBelow(data, variant, Arr(a)), fuel + 1)
    ensures WalkElements(a, SchemaTypeKey, ArrayTest, ExpandArray(data, variant), fuel)
         == Done(ExpandedBelow(data, variant, Arr(a)), ArrayScopelessBelow(Arr(a)))
    decreases fuel, 1
  {
    var trees := seq(|a|, i requires 0 <= i < |a| => Expanded(data, variant, a[i]));
    var flags := seq(|a|, i requires 0 <= i < |a| => ArrayScopeless(a[i]));
    assert ExpandedBelow(data, variant, Arr(a)) == Arr(trees);
    forall i | 0 <= i < |a|
      ensures Walk(a[i], SchemaTypeKey, ArrayTest, ExpandArray(data, variant), fuel) == Done(trees[i], flags[i])
    {
      assert Fits(trees[i], fuel);
      ExpandTree(data, variant, a[i], fuel);
    }
    ElementsAll(a, SchemaTypeKey, ArrayTest, ExpandArray(data, variant), fuel, trees, flags);
  }

  lemma {:induction false} ExpandMembersTree(data: Json, variant: Variant, m: map<string, Json>, fuel: nat)
    requires UnnestedBelow(Obj(m)) && Fits(ExpandedBelow(data, variant, Obj(m)), fuel + 1)
    ensures WalkChildren(Obj(m), SchemaTypeKey, ArrayTest, ExpandArray(data, variant), fuel)
         == Done(ExpandedBelow(data, variant, Obj(m)), ArrayScopelessBelow(Obj(m)))
    decreases fuel, 1
  {
    FitsMembers(data, variant, m, fuel);
    forall k | k in m
      ensures ExpandWalk(data, variant, m[k], fuel) == Done(Expanded(data, variant, m[k]), ArrayScopeless(m[k]))
    {
      ExpandTree(data, variant, m[k], fuel);
    }
    MembersDone(data, variant, m, fuel);
  }

  /** The fuel that reaches the expanded children reaches each expanded member. */
  lemma FitsMembers(data: Json, variant: Variant, m: map<string, Json>, fuel: nat)
    requires Fits(ExpandedBelow(data, variant, Obj(m)), fuel + 1)
    ensures forall k :: k in m ==> Fits(Expanded(data, variant, m[k]), fuel)
  {
    var f := x => Expanded(data, variant, x);
    BelowObject(data, variant, m, f);
    forall k | k in m ensures Fits(Expanded(data, variant, m[k]), fuel) {
      assert ExpandedBelow(data, variant, Obj(m)).fields[k] == f(m[k]);
    }
  }

  /** Members each walked to their expanded tree: the object walked to its expanded children. */
  lemma MembersDone(data: Json, variant: Variant, m: map<string, Json>, fuel: nat)
    requires forall k :: k in m ==>
      ExpandWalk(data, variant, m[k], fuel) == Done(Expanded(data, variant, m[k]), ArrayScopeless(m[k]))
    ensures WalkChildren(Obj(m), SchemaTypeKey, ArrayTest, ExpandArray(data, variant), fuel)
         == Done(ExpandedBelow(data, variant, Obj(m)), ArrayScopelessBelow(Obj(m)))
  {
    var f := x => Expanded(data, variant, x);
    var g := x => ArrayScopeless(x);
    BelowObject(data, variant, m, f);
    MembersAll(m, SchemaTypeKey, ArrayTest, ExpandArray(data, variant), fuel, f, g);
    ScopelessMembers(m, g);
  }

  /** Some member reports "no scope", through any function that tells. */
  lemma ScopelessMembers(m: map<string, Json>, g: Json -> bool)
    requires forall x :: g(x) == ArrayScopeless(x)
    ensures ArrayScopelessBelow(Obj(m)) == exists k :: k in m && g(m[k])
  {
  }
}

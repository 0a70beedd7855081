/**
 * The data walk of BindData over a whole ui-schema. Every Control that is
 * not skipped gets the value its scope names in the data as its `data`
 * member, and the walk then goes on into that value: it leaves the value
 * as it is as long as the data holds no Control of its own.
 */
module DataFacts {
  import opened Strings
  import opened JsonTree
  import opened Paths
  import opened Engine
  import opened Runs
  import opened WalkFacts
  import opened SetupFacts

  /** The data walk of each package. */
  function DataWalk(data: Json, variant: Variant, t: Json, fuel: nat): Outcome {
    Walk(t, TypeKey, Equals(Str("Control")), AttachData(data, variant), fuel)
  }

  /** The value a Control's scope names in the data. */
  function Value(data: Json, c: Json): Json {
    Path(data, GabsPath(Scope(c), false))
  }

  /** Whether the data pass stores a value on a Control: not skipped, and (Current) the value is not null. */
  predicate Binds(data: Json, variant: Variant, c: Json) {
    !Skipped(variant, c) && (variant == Legacy || Value(data, c) != Null)
  }

  /** A Control is an object: its "type" is found by name. */
  lemma ControlIsObject(t: Json)
    requires IsControl(t)
    ensures t.Obj?
  {
    assert Search(t, TypeKey) == Str("Control");
  }

  /**
   * The ui-schema as the data walk leaves it: the children of every node
   * done first, then every Control that binds gets its value as `data`,
   * which replaces whatever `data` member it had.
   */
  function Bound(data: Json, variant: Variant, t: Json): (r: Json)
    ensures t.Obj? <==> r.Obj?
    ensures t.Arr? <==> r.Arr?
    ensures !t.Obj? && !t.Arr? ==> r == t
    decreases t, 1
  {
    var r := BoundBelow(data, variant, t);
    if t.Obj? && IsControl(t) && Binds(data, variant, t) then Obj(r.fields["data" := Value(data, t)]) else r
  }

  function BoundBelow(data: Json, variant: Variant, t: Json): (r: Json)
    ensures t.Obj? <==> r.Obj?
    ensures t.Arr? <==> r.Arr?
    ensures !t.Obj? && !t.Arr? ==> r == t
    decreases t, 0
  {
    match t
    case Arr(a) => Arr(seq(|a|, i requires 0 <= i < |a| => Bound(data, variant, a[i])))
    case Obj(m) => Obj(map k | k in m :: Bound(data, variant, m[k]))
    case _ => t
  }

  /**
   * Some Control the walk reaches, and does not skip, has no string
   * scope. The walk does not reach the `data` member a Control had
   * before its value replaced it.
   */
  predicate Unscoped(data: Json, variant: Variant, t: Json)
    decreases t, 1
  {
    (IsControl(t) && !Skipped(variant, t) && NoScope(t)) ||
    UnscopedBelow(data, variant, t, IsControl(t) && Binds(data, variant, t))
  }

  predicate UnscopedBelow(data: Json, variant: Variant, t: Json, replaced: bool)
    decreases t, 0
  {
    match t
    case Arr(a) => exists i :: 0 <= i < |a| && Unscoped(data, variant, a[i])
    case Obj(m) => exists k :: k in m && !(replaced && k == "data") && Unscoped(data, variant, m[k])
    case _ => false
  }

  /** Data without a Control has none anywhere inside it. */
  lemma {:induction false} SearchNoneMatch(t: Json, key: seq<string>, want: Match, p: seq<string>)
    requires NoneMatch(t, key, want) && !Matches(Null, key, want)
    ensures NoneMatch(Search(t, p), key, want)
    decreases |p|
  {
    if p != [] {
      match t
      case Obj(m) =>
        if p[0] in m {
          SearchNoneMatch(m[p[0]], key, want, p[1..]);
        }
      case Arr(a) =>
        if Atoi(p[0]).Some? && 0 <= Atoi(p[0]).value < |a| {
          SearchNoneMatch(a[Atoi(p[0]).value], key, want, p[1..]);
        }
      case _ =>
    }
  }

  /** A tree without a Control is left as it is and reports nothing. */
  lemma {:induction false} Inert(data: Json, variant: Variant, x: Json)
    requires NoneMatch(x, TypeKey, Equals(Str("Control")))
    ensures Bound(data, variant, x) == x && !Unscoped(data, variant, x)
    decreases x
  {
    assert !IsControl(x);
    match x
    case Arr(a) =>
      forall i | 0 <= i < |a| ensures Bound(data, variant, a[i]) == a[i] && !Unscoped(data, variant, a[i]) {
        Inert(data, variant, a[i]);
      }
      InertElements(data, variant, a);
    case Obj(m) =>
      forall k | k in m ensures Bound(data, variant, m[k]) == m[k] && !Unscoped(data, variant, m[k]) {
        Inert(data, variant, m[k]);
      }
      InertMembers(data, variant, m);
    case _ =>
  }

  lemma InertElements(data: Json, variant: Variant, a: seq<Json>)
    requires forall i :: 0 <= i < |a| ==> Bound(data, variant, a[i]) == a[i] && !Unscoped(data, variant, a[i])
    ensures BoundBelow(data, variant, Arr(a)) == Arr(a) && !UnscopedBelow(data, variant, Arr(a), false)
  {
  }

  lemma InertMembers(data: Json, variant: Variant, m: map<string, Json>)
    requires forall k :: k in m ==> Bound(data, variant, m[k]) == m[k] && !Unscoped(data, variant, m[k])
    ensures BoundBelow(data, variant, Obj(m)) == Obj(m) && !UnscopedBelow(data, variant, Obj(m), false)
  {
    var below := map k | k in m :: Bound(data, variant, m[k]);
    assert below.Keys == m.Keys;
    assert below == m;
  }

  /** The value a Control gets holds no Control when the data holds none. */
  lemma ValueInert(data: Json, variant: Variant, c: Json)
    requires NoneMatch(data, TypeKey, Equals(Str("Control")))
    ensures Bound(data, variant, Value(data, c)) == Value(data, c)
    ensures !Unscoped(data, variant, Value(data, c))
    ensures NoneMatch(Value(data, c), TypeKey, Equals(Str("Control")))
  {
    assert Search(Null, TypeKey) == Null;
    SearchNoneMatch(data, TypeKey, Equals(Str("Control")), Segments(GabsPath(Scope(c), false)));
    Inert(data, variant, Value(data, c));
  }

  /** One Control's operation: its value stored when it binds, "no scope" unless skipped. */
  lemma AttachDataByBinds(data: Json, variant: Variant, c: Json)
    requires IsControl(c)
    ensures AttachDataNode(data, variant, c) ==
      Done(if Binds(data, variant, c) then Obj(c.fields["data" := Value(data, c)]) else c,
           !Skipped(variant, c) && NoScope(c))
  {
    ControlIsObject(c);
    SetField(c.fields, "data", Value(data, c));
  }

  /** A binding Control's children after the store: its own children bound, `data` the value. */
  lemma BoundAfterStore(data: Json, variant: Variant, c: Json)
    requires IsControl(c) && Binds(data, variant, c)
    requires NoneMatch(data, TypeKey, Equals(Str("Control")))
    ensures c.Obj?
    ensures BoundBelow(data, variant, Obj(c.fields["data" := Value(data, c)])) == Bound(data, variant, c)
  {
    ControlIsObject(c);
    var m := c.fields;
    var v := Value(data, c);
    ValueInert(data, variant, c);
    BelowStore(data, variant, m, v);
  }

  /** Storing a value, then binding the children: the value bound in place. */
  lemma BelowStore(data: Json, variant: Variant, m: map<string, Json>, v: Json)
    ensures BoundBelow(data, variant, Obj(m["data" := v]))
         == Obj(BoundBelow(data, variant, Obj(m)).fields["data" := Bound(data, variant, v)])
  {
    var m1 := m["data" := v];
    var f := x => Bound(data, variant, x);
    BelowObject(data, variant, m, f);
    BelowObject(data, variant, m1, f);
    MapUpdate(m, m1, "data", v, f);
  }

  /** The children of an object bound, through any function that binds. */
  lemma BelowObject(data: Json, variant: Variant, m: map<string, Json>, f: Json -> Json)
    requires forall x :: f(x) == Bound(data, variant, x)
    ensures BoundBelow(data, variant, Obj(m)) == Obj(map k | k in m :: f(m[k]))
  {
    var below := map k | k in m :: Bound(data, variant, m[k]);
    assert BoundBelow(data, variant, Obj(m)) == Obj(below);
    assert below == map k | k in m :: f(m[k]);
  }

  /** The `data` member the store replaced is not reached; the stored value reports nothing. */
  lemma UnscopedAfterStore(data: Json, variant: Variant, m: map<string, Json>, v: Json)
    requires !Unscoped(data, variant, v)
    ensures UnscopedBelow(data, variant, Obj(m["data" := v]), false) == UnscopedBelow(data, variant, Obj(m), true)
  {
    var m1 := m["data" := v];
    if UnscopedBelow(data, variant, Obj(m1), false) {
      var k :| k in m1 && Unscoped(data, variant, m1[k]);
      assert k != "data" && m1[k] == m[k];
    }
    if UnscopedBelow(data, variant, Obj(m), true) {
      var k :| k in m && k != "data" && Unscoped(data, variant, m[k]);
      assert m1[k] == m[k];
    }
  }

  /**
   * The data walk of each package over a whole ui-schema, for data that
   * holds no Control of its own: it leaves every binding Control with its
   * value and reports an error exactly when some Control it reaches and
   * does not skip lacks a string scope, given the fuel to reach every
   * node of the result.
   */
  lemma {:induction false} DataTree(data: Json, variant: Variant, t: Json, fuel: nat)
    requires NoneMatch(data, TypeKey, Equals(Str("Control"))) && Fits(Bound(data, variant, t), fuel)
    ensures DataWalk(data, variant, t, fuel) == Done(Bound(data, variant, t), Unscoped(data, variant, t))
    decreases fuel, 0
  {
    var t1 := Attached(data, variant, t);
    var f1 := IsControl(t) && !Skipped(variant, t) && NoScope(t);
    DataNode(data, variant, t, fuel);
    DataChildrenTree(data, variant, t1, fuel - 1);
    WalkStep(t, TypeKey, Equals(Str("Control")), AttachData(data, variant), fuel, t1, f1);
  }

  /** A node as the data pass leaves it, before its children are walked. */
  function Attached(data: Json, variant: Variant, t: Json): Json {
    if IsControl(t) && t.Obj? && Binds(data, variant, t) then Obj(t.fields["data" := Value(data, t)]) else t
  }

  /** The visit of one node: what it stores and reports, and how the rest of the tree follows from it. */
  lemma DataNode(data: Json, variant: Variant, t: Json, fuel: nat)
    requires NoneMatch(data, TypeKey, Equals(Str("Control"))) && fuel > 0
    ensures (if Matches(t, TypeKey, Equals(Str("Control"))) then Operate(AttachData(data, variant), t, fuel) else Done(t, false))
         == Done(Attached(data, variant, t), IsControl(t) && !Skipped(variant, t) && NoScope(t))
    ensures Bound(data, variant, t) == BoundBelow(data, variant, Attached(data, variant, t))
    ensures Unscoped(data, variant, t)
        == ((IsControl(t) && !Skipped(variant, t) && NoScope(t)) || UnscopedBelow(data, variant, Attached(data, variant, t), false))
  {
    if IsControl(t) {
      AttachDataByBinds(data, variant, t);
      if Binds(data, variant, t) {
        DataNodeBinds(data, variant, t);
      }
    }
  }

  /** A binding Control: the bound tree and the report below the value it stores. */
  lemma DataNodeBinds(data: Json, variant: Variant, t: Json)
    requires NoneMatch(data, TypeKey, Equals(Str("Control")))
    requires IsControl(t) && Binds(data, variant, t)
    ensures t.Obj? && Attached(data, variant, t) == Obj(t.fields["data" := Value(data, t)])
    ensures Bound(data, variant, t) == BoundBelow(data, variant, Attached(data, variant, t))
    ensures Unscoped(data, variant, t) == (NoScope(t) || UnscopedBelow(data, variant, Attached(data, variant, t), false))
  {
    ControlIsObject(t);
    BoundAfterStore(data, variant, t);
    ValueInert(data, variant, t);
    UnscopedAfterStore(data, variant, t.fields, Value(data, t));
  }

  lemma {:induction false} DataChildrenTree(data: Json, variant: Variant, t: Json, fuel: nat)
    requires NoneMatch(data, TypeKey, Equals(Str("Control"))) && Fits(BoundBelow(data, variant, t), fuel + 1)
    ensures WalkChildren(t, TypeKey, Equals(Str("Control")), AttachData(data, variant), fuel)
         == Done(BoundBelow(data, variant, t), UnscopedBelow(data, variant, t, false))
    decreases fuel, 2
  {
    match t
    case Arr(a) => DataElementsTree(data, variant, a, fuel);
    case Obj(m) => DataMembersTree(data, variant, m, fuel);
    case _ =>
  }

  lemma {:induction false} DataElementsTree(data: Json, variant: Variant, a: seq<Json>, fuel: nat)
    requires NoneMatch(data, TypeKey, Equals(Str("Control"))) && Fits(BoundBelow(data, variant, Arr(a)), fuel + 1)
    ensures WalkElements(a, TypeKey, Equals(Str("Control")), AttachData(data, variant), fuel)
         == Done(BoundBelow(data, variant, Arr(a)), UnscopedBelow(data, variant, Arr(a), false))
    decreases fuel, 1
  {
    var trees := seq(|a|, i requires 0 <= i < |a| => Bound(data, variant, a[i]));
    var flags := seq(|a|, i requires 0 <= i < |a| => Unscoped(data, variant, a[i]));
    assert BoundBelow(data, variant, Arr(a)) == Arr(trees);
    forall i | 0 <= i < |a|
      ensures Walk(a[i], TypeKey, Equals(Str("Control")), AttachData(data, variant), fuel) == Done(trees[i], flags[i])
    {
      assert Fits(trees[i], fuel);
      DataTree(data, variant, a[i], fuel);
    }
    ElementsAll(a, TypeKey, Equals(Str("Control")), AttachData(data, variant), fuel, trees, flags);
  }

  lemma {:induction false} DataMembersTree(data: Json, variant: Variant, m: map<string, Json>, fuel: nat)
    requires NoneMatch(data, TypeKey, Equals(Str("Control"))) && Fits(BoundBelow(data, variant, Obj(m)), fuel + 1)
    ensures WalkChildren(Obj(m), TypeKey, Equals(Str("Control")), AttachData(data, variant), fuel)
         == Done(BoundBelow(data, variant, Obj(m)), UnscopedBelow(data, variant, Obj(m), false))
    decreases fuel, 1
  {
    FitsMembers(data, variant, m, fuel);
    forall k | k in m
      ensures DataWalk(data, variant, m[k], fuel) == Done(Bound(data, variant, m[k]), Unscoped(data, variant, m[k]))
    {
      DataTree(data, variant, m[k], fuel);
    }
    MembersDone(data, variant, m, fuel);
  }

  /** The fuel that reaches the bound children reaches each bound member. */
  lemma FitsMembers(data: Json, variant: Variant, m: map<string, Json>, fuel: nat)
    requires Fits(BoundBelow(data, variant, Obj(m)), fuel + 1)
    ensures forall k :: k in m ==> Fits(Bound(data, variant, m[k]), fuel)
  {
    var f := x => Bound(data, variant, x);
    BelowObject(data, variant, m, f);
    forall k | k in m ensures Fits(Bound(data, variant, m[k]), fuel) {
      assert BoundBelow(data, variant, Obj(m)).fields[k] == f(m[k]);
    }
  }

  /** Members each walked to their bound tree: the object walked to its bound children. */
  lemma MembersDone(data: Json, variant: Variant, m: map<string, Json>, fuel: nat)
    requires forall k :: k in m ==>
      DataWalk(data, variant, m[k], fuel) == Done(Bound(data, variant, m[k]), Unscoped(data, variant, m[k]))
    ensures WalkChildren(Obj(m), TypeKey, Equals(Str("Control")), AttachData(data, variant), fuel)
         == Done(BoundBelow(data, variant, Obj(m)), UnscopedBelow(data, variant, Obj(m), false))
  {
    var f := x => Bound(data, variant, x);
    var g := x => Unscoped(data, variant, x);
    BelowObject(data, variant, m, f);
    MembersAll(m, TypeKey, Equals(Str("Control")), AttachData(data, variant), fuel, f, g);
    UnscopedMembers(data, variant, m, g);
  }

  /** Some member reports "no scope", through any function that tells. */
  lemma UnscopedMembers(data: Json, variant: Variant, m: map<string, Json>, g: Json -> bool)
    requires forall x :: g(x) == Unscoped(data, variant, x)
    ensures UnscopedBelow(data, variant, Obj(m), false) == exists k :: k in m && g(m[k])
  {
  }

}

/**
 * internal/form: the Form object, its setup and BindData methods as the
 * sequence of walks they run over the ui-schema, and ReadForm, which turns
 * a submitted form into a JSON object.
 */
module InternalForm {
  import opened Wrappers
  import opened Strings
  import opened JsonTree
  import opened Paths
  import opened Engine
  import opened WalkFacts
  import opened Submission
  import opened Runs
  import Walker
  import SetupFacts
  import WidthFacts
  import DataFacts
  import ExpandFacts

  /**
   * setup: schema keywords onto every Control, then column widths onto
   * the elements of every Horizontal and Vertical layout.
   */
  function SetupWalks(schema: Json, ui: Json, fuel: nat): Outcome {
    Then(Walk(ui, TypeKey, Equals(Str("Control")), AttachSchema(schema), fuel),
         t => Walk(t, TypeKey, Present, StampLayouts(Current), fuel))
  }

  /**
   * BindData: expand the array controls (their `schema.type` is the
   * container setup stored, equal to the one `Set("array")` builds), parse
   * the tree again, group the array-select data, then attach data to every
   * other Control.
   */
  function BindWalks(ui: Json, data: Json, fuel: nat): Outcome {
    Then(Walk(ui, SchemaTypeKey, Equals(Boxed(Str("array"))), ExpandArray(data, Current), fuel),
         t1 => Then(Walk(Flatten(t1), SchemaTypeKey, Equals(Str("array-select")), GroupSelect(data), fuel),
                    t2 => Walk(t2, TypeKey, Equals(Str("Control")), AttachData(data, Current), fuel)))
  }

  class Form {
    var schema: Json
    var uiSchema: Json
    var data: Json

    /** The struct literal of NewForm: the data stays nil until BindData. */
    constructor (schema: Json, uiSchema: Json)
      ensures this.schema == schema && this.uiSchema == uiSchema && data == Null
    {
      this.schema := schema;
      this.uiSchema := uiSchema;
      data := Null;
    }

    method Setup(fuel: nat) returns (s: Status)
      modifies this
      ensures (uiSchema, s) == Settle(SetupWalks(schema, old(uiSchema), fuel), old(uiSchema))
      ensures schema == old(schema) && data == old(data)
    {
      var o1 := Walker.IterateObj(uiSchema, TypeKey, Equals(Str("Control")), AttachSchema(schema), fuel);
      if !o1.Done? {
        s := if o1.Panicked? then Crashed else Exhausted;
        return;
      }
      var o2 := Walker.IterateObj(o1.tree, TypeKey, Present, StampLayouts(Current), fuel);
      if !o2.Done? {
        s := if o2.Panicked? then Crashed else Exhausted;
        return;
      }
      uiSchema := o2.tree;
      s := Returned(o1.failed || o2.failed);
    }

    /** The data is stored first and stays whatever the walks do. */
    method BindData(d: Json, fuel: nat) returns (s: Status)
      modifies this
      ensures data == d && schema == old(schema)
      ensures (uiSchema, s) == Settle(BindWalks(old(uiSchema), d, fuel), old(uiSchema))
    {
      data := d;
      var o1 := Walker.IterateObj(uiSchema, SchemaTypeKey, Equals(Boxed(Str("array"))), ExpandArray(d, Current), fuel);
      if !o1.Done? {
        s := if o1.Panicked? then Crashed else Exhausted;
        return;
      }
      var reparsed := Flatten(o1.tree);
      var o2 := Walker.IterateObj(reparsed, SchemaTypeKey, Equals(Str("array-select")), GroupSelect(d), fuel);
      if !o2.Done? {
        s := if o2.Panicked? then Crashed else Exhausted;
        return;
      }
      var o3 := Walker.IterateObj(o2.tree, TypeKey, Equals(Str("Control")), AttachData(d, Current), fuel);
      if !o3.Done? {
        s := if o3.Panicked? then Crashed else Exhausted;
        return;
      }
      uiSchema := o3.tree;
      s := Returned(o1.failed || o2.failed || o3.failed);
    }
  }

  /** NewForm: a form over the two trees, set up. */
  method NewForm(schema: Json, uiSchema: Json, fuel: nat) returns (f: Form, s: Status)
    ensures fresh(f) && f.schema == schema && f.data == Null
    ensures (f.uiSchema, s) == Settle(SetupWalks(schema, uiSchema, fuel), uiSchema)
  {
    f := new Form(schema, uiSchema);
    s := f.Setup(fuel);
  }

  // ---------------------------------------------------------------------
  // What the passes promise

  /**
   * Setup over a ui-schema no setup has run on: every Control gets the
   * keywords of its schema fragment, then every layout the width walk
   * tests stamps the elements it holds, and the method reports an error
   * exactly when some Control lacks a string scope. No layout may divide
   * by an empty row, and the fuel must reach every node of both results.
   */
  lemma SetupTree(schema: Json, ui: Json, fuel: nat)
    requires SetupFacts.Unset(ui) && Fits(SetupFacts.Keyworded(schema, ui), fuel)
    requires WidthFacts.Calm(Current, ui)
    requires Fits(WidthFacts.Stamped(Current, SetupFacts.Keyworded(schema, ui)), fuel)
    ensures SetupWalks(schema, ui, fuel)
         == Done(WidthFacts.Stamped(Current, SetupFacts.Keyworded(schema, ui)), SetupFacts.Scopeless(ui))
  {
    var k := SetupFacts.Keyworded(schema, ui);
    SetupFacts.KeywordTree(schema, ui, fuel);
    WidthFacts.CalmKeyworded(Current, schema, ui);
    WidthFacts.WidthTree(Current, k, fuel);
    assert WidthFacts.WidthTest(Current) == Present;
  }

  /**
   * BindData over a set-up ui-schema in which no array control holds
   * another in its `options`, whose re-parsed expansion has no
   * array-select control, for data that holds no Control of its own:
   * every array control gets the copies of its detail its data array
   * calls for, then every Control of the re-parsed tree, copies included,
   * that is not skipped and whose scope names a non-null value gets that
   * value as `data`, and the method reports an error exactly when an
   * array control, or a Control the data walk reaches and does not skip,
   * lacks a string scope.
   */
  lemma BindTree(ui: Json, data: Json, fuel: nat)
    requires ExpandFacts.Unnested(ui) && Fits(ExpandFacts.Expanded(data, Current, ui), fuel)
    requires NoneMatch(Flatten(ExpandFacts.Expanded(data, Current, ui)), SchemaTypeKey, Equals(Str("array-select")))
    requires Fits(Flatten(ExpandFacts.Expanded(data, Current, ui)), fuel)
    requires NoneMatch(data, TypeKey, Equals(Str("Control")))
    requires Fits(DataFacts.Bound(data, Current, Flatten(ExpandFacts.Expanded(data, Current, ui))), fuel)
    ensures BindWalks(ui, data, fuel)
         == Done(DataFacts.Bound(data, Current, Flatten(ExpandFacts.Expanded(data, Current, ui))),
                 ExpandFacts.ArrayScopeless(ui) || DataFacts.Unscoped(data, Current, Flatten(ExpandFacts.Expanded(data, Current, ui))))
  {
    var flat := Flatten(ExpandFacts.Expanded(data, Current, ui));
    ExpandFacts.ExpandTree(data, Current, ui, fuel);
    WalkUnmatched(flat, SchemaTypeKey, Equals(Str("array-select")), GroupSelect(data), fuel);
    DataFacts.DataTree(data, Current, flat, fuel);
  }

  /**
   * The "no scope" error does not stop the walk: a Control without a
   * string scope at the root makes setup report an error whenever it
   * returns at all.
   */
  lemma SetupFlagsScopelessRoot(schema: Json, ui: Json, fuel: nat)
    requires Search(ui, TypeKey) == Str("Control") && NoScope(ui)
    requires SetupWalks(schema, ui, fuel).Done?
    ensures SetupWalks(schema, ui, fuel).failed
  {
    assert Matches(ui, TypeKey, Equals(Str("Control")));
    Walker.VisitMatched(ui, TypeKey, Equals(Str("Control")), AttachSchema(schema), fuel);
  }

  /**
   * On a ui-schema no setup has run on, setup reports an error exactly
   * when some Control, at any depth, lacks a string scope.
   */
  lemma SetupErrorIff(schema: Json, ui: Json, fuel: nat)
    requires SetupFacts.Unset(ui) && SetupWalks(schema, ui, fuel).Done?
    ensures SetupWalks(schema, ui, fuel).failed <==> SetupFacts.Scopeless(ui)
  {
    var first := Walk(ui, TypeKey, Equals(Str("Control")), AttachSchema(schema), fuel);
    SetupFacts.KeywordWalkFlags(schema, ui, fuel);
    SetupFacts.StampWalkQuiet(first.tree, TypeKey, Present, Current, fuel);
  }

  // ---------------------------------------------------------------------
  // ReadForm

  /** Every key in the order has at least one value. */
  predicate Answered(form: map<string, seq<string>>, order: seq<string>)
    requires Lists(form, order)
  {
    forall i :: 0 <= i < |order| ==> form[order[i]] != []
  }

  /** The gabs path of every key: `gabsPath(key, false)`. */
  function KeyPaths(order: seq<string>): (r: seq<string>)
    ensures |r| == |order| && forall i :: 0 <= i < |order| ==> r[i] == GabsPath(order[i], false)
  {
    seq(|order|, i requires 0 <= i < |order| => GabsPath(order[i], false))
  }

  /** The first value of every key, as number or text. */
  function FirstValues(form: map<string, seq<string>>, order: seq<string>): (r: seq<Json>)
    requires Lists(form, order) && Answered(form, order)
    ensures |r| == |order| && forall i :: 0 <= i < |order| ==> r[i] == FormValue(form[order[i]][0])
  {
    seq(|order|, i requires 0 <= i < |order| => FormValue(form[order[i]][0]))
  }

  /** The object the loop builds from an empty one, one `SetP` after another. */
  function StoreAll(paths: seq<string>, values: seq<Json>): Json
    requires |paths| == |values|
  {
    if paths == [] then Obj(map[])
    else
      var n := |paths|;
      SetP(StoreAll(paths[..n - 1], values[..n - 1]), Segments(paths[n - 1]), values[n - 1])
  }

  /**
   * ReadForm, for the order Go's map iteration picks. None: some key has
   * no value, and `value[0]` panics when the loop reaches it.
   */
  function ReadFormSpec(form: map<string, seq<string>>, order: seq<string>): Option<Json>
    requires Lists(form, order)
  {
    if Answered(form, order) then Some(StoreAll(KeyPaths(order), FirstValues(form, order))) else None
  }

  method ReadForm(form: map<string, seq<string>>, order: seq<string>) returns (r: Option<Json>)
    requires Enumerates(form, order)
    ensures r == ReadFormSpec(form, order)
  {
    var jsonObj := Obj(map[]);
    var i := 0;
    while i < |order|
      invariant 0 <= i <= |order|
      invariant Answered(form, order[..i])
      invariant jsonObj == StoreAll(KeyPaths(order[..i]), FirstValues(form, order[..i]))
    {
      var key := order[i];
      var value := form[key];
      if value == [] {
        assert !Answered(form, order);
        return None;
      }
      ReadFormStep(form, order, i);
      var path := GabsPath(key, false);
      jsonObj := SetP(jsonObj, Segments(path), FormValue(value[0]));
      i := i + 1;
    }
    assert order[..i] == order;
    r := Some(jsonObj);
  }

  /** One more key stored on top of the ones before it. */
  lemma ReadFormStep(form: map<string, seq<string>>, order: seq<string>, i: nat)
    requires Lists(form, order) && i < |order| && Answered(form, order[..i]) && form[order[i]] != []
    ensures Answered(form, order[..i + 1])
    ensures StoreAll(KeyPaths(order[..i + 1]), FirstValues(form, order[..i + 1])) ==
      SetP(StoreAll(KeyPaths(order[..i]), FirstValues(form, order[..i])),
           Segments(GabsPath(order[i], false)), FormValue(form[order[i]][0]))
  {
    var keys := order[..i + 1];
    assert keys[..i] == order[..i];
    var paths, values := KeyPaths(keys), FirstValues(form, keys);
    assert paths[..i] == KeyPaths(order[..i]);
    assert values[..i] == FirstValues(form, order[..i]);
    StoreAllStep(paths, values);
  }

  lemma StoreAllStep(paths: seq<string>, values: seq<Json>)
    requires |paths| == |values| && paths != []
    ensures StoreAll(paths, values) ==
      SetP(StoreAll(paths[..|paths| - 1], values[..|paths| - 1]), Segments(paths[|paths| - 1]), values[|paths| - 1])
  {
  }

  /**
   * The path stored last holds its value afterwards, when it has no
   * append step and the store succeeded.
   */
  lemma StoreAllLast(paths: seq<string>, values: seq<Json>)
    requires |paths| == |values| && paths != []
    requires var n := |paths|;
      "-" !in Segments(paths[n - 1]) &&
      Set(StoreAll(paths[..n - 1], values[..n - 1]), Segments(paths[n - 1]), values[n - 1]).Some?
    ensures Search(StoreAll(paths, values), Segments(paths[|paths| - 1])) == values[|paths| - 1]
  {
    var n := |paths|;
    StoreAllStep(paths, values);
    SetThenSearch(StoreAll(paths[..n - 1], values[..n - 1]), Segments(paths[n - 1]), values[n - 1]);
  }

  /** The members that one-segment paths set, the later path winning. */
  function Members(paths: seq<string>, values: seq<Json>): map<string, Json>
    requires |paths| == |values|
  {
    if paths == [] then map[]
    else
      var n := |paths|;
      Members(paths[..n - 1], values[..n - 1])[paths[n - 1] := values[n - 1]]
  }

  /** The members are exactly the paths. */
  lemma {:induction false} MembersKeys(paths: seq<string>, values: seq<Json>)
    requires |paths| == |values|
    ensures forall x :: x in Members(paths, values) <==> x in paths
  {
    if paths != [] {
      var n := |paths|;
      MembersKeys(paths[..n - 1], values[..n - 1]);
      assert paths == paths[..n - 1] + [paths[n - 1]];
    }
  }

  /** With one-segment paths every store is a plain member update. */
  lemma {:induction false} StoreAllMembers(paths: seq<string>, values: seq<Json>)
    requires |paths| == |values|
    requires forall i :: 0 <= i < |paths| ==> '.' !in paths[i]
    ensures StoreAll(paths, values) == Obj(Members(paths, values))
  {
    if paths != [] {
      var n := |paths|;
      var init := paths[..n - 1];
      assert forall i :: 0 <= i < n - 1 ==> init[i] == paths[i];
      StoreAllMembers(init, values[..n - 1]);
      SplitNoSep(paths[n - 1], '.');
      SetField(Members(init, values[..n - 1]), paths[n - 1], values[n - 1]);
    }
  }

  /** Distinct paths: every path holds its own value. */
  lemma {:induction false} MembersOfDistinct(paths: seq<string>, values: seq<Json>)
    requires |paths| == |values|
    requires forall i, j :: 0 <= i < j < |paths| ==> paths[i] != paths[j]
    ensures forall i :: 0 <= i < |paths| ==> paths[i] in Members(paths, values) && Members(paths, values)[paths[i]] == values[i]
  {
    if paths != [] {
      var n := |paths|;
      var init, vinit := paths[..n - 1], values[..n - 1];
      assert forall i, j :: 0 <= i < j < |init| ==> init[i] != init[j] by {
        forall i, j | 0 <= i < j < |init| ensures init[i] != init[j] {
          assert init[i] == paths[i] && init[j] == paths[j];
        }
      }
      MembersOfDistinct(init, vinit);
      forall i | 0 <= i < n ensures paths[i] in Members(paths, values) && Members(paths, values)[paths[i]] == values[i] {
        if i < n - 1 {
          assert init[i] == paths[i] && vinit[i] == values[i];
          assert paths[i] != paths[n - 1];
        }
      }
    }
  }

  /** Keys that each lead to one segment, no two keys to the same one. */
  predicate Flat(keys: seq<string>) {
    (forall i :: 0 <= i < |keys| ==> '.' !in GabsPath(keys[i], false)) &&
    (forall i, j :: 0 <= i < j < |keys| ==> GabsPath(keys[i], false) != GabsPath(keys[j], false))
  }

  /**
   * Keys that each lead to one segment, no two keys of the form to the
   * same one.
   */
  predicate FlatKeys(form: map<string, seq<string>>) {
    (forall k :: k in form ==> '.' !in GabsPath(k, false)) &&
    (forall k, l :: k in form && l in form && k != l ==> GabsPath(k, false) != GabsPath(l, false))
  }

  /**
   * A flat form whose every key has a value reads, whatever order the map
   * iteration picks, into an object whose members are exactly the paths of
   * the form's keys, each holding its key's first value as number or text.
   */
  lemma ReadFlatForm(form: map<string, seq<string>>, order: seq<string>)
    requires Enumerates(form, order) && (forall k :: k in form ==> form[k] != []) && FlatKeys(form)
    ensures var r := ReadFormSpec(form, order);
      r.Some? && r.value.Obj? &&
      (forall x :: x in r.value.fields <==> exists k :: k in form && GabsPath(k, false) == x) &&
      forall k :: k in form ==> r.value.fields[GabsPath(k, false)] == FormValue(form[k][0])
  {
    assert Flat(order) by {
      forall i, j | 0 <= i < j < |order| ensures GabsPath(order[i], false) != GabsPath(order[j], false) {
        assert order[i] != order[j];
      }
    }
    ReadFlatOrder(form, order);
    var r := ReadFormSpec(form, order);
    forall x ensures x in r.value.fields <==> exists k :: k in form && GabsPath(k, false) == x {
      if x in r.value.fields {
        var i :| 0 <= i < |order| && KeyPaths(order)[i] == x;
        assert order[i] in form && GabsPath(order[i], false) == x;
      }
      if exists k :: k in form && GabsPath(k, false) == x {
        var k :| k in form && GabsPath(k, false) == x;
        var i :| 0 <= i < |order| && order[i] == k;
        assert KeyPaths(order)[i] == x;
      }
    }
    forall k | k in form ensures r.value.fields[GabsPath(k, false)] == FormValue(form[k][0]) {
      var i :| 0 <= i < |order| && order[i] == k;
    }
  }

  /** The same over the order: the members are the paths of the listed keys. */
  lemma ReadFlatOrder(form: map<string, seq<string>>, order: seq<string>)
    requires Lists(form, order) && Answered(form, order) && Flat(order)
    ensures var r := ReadFormSpec(form, order);
      r.Some? && r.value.Obj? &&
      (forall x :: x in r.value.fields <==> x in KeyPaths(order)) &&
      forall i :: 0 <= i < |order| ==> r.value.fields[GabsPath(order[i], false)] == FormValue(form[order[i]][0])
  {
    var paths, values := KeyPaths(order), FirstValues(form, order);
    StoreAllMembers(paths, values);
    MembersKeys(paths, values);
    MembersOfDistinct(paths, values);
  }

  /**
   * The key handled last finds its value at its path afterwards, when its
   * path has no append step and the store succeeded.
   */
  lemma ReadFormLastKey(form: map<string, seq<string>>, order: seq<string>)
    requires Lists(form, order) && Answered(form, order) && order != []
    requires var n := |order|; var paths := KeyPaths(order); var p := Segments(paths[n - 1]);
      "-" !in p && Set(StoreAll(paths[..n - 1], FirstValues(form, order)[..n - 1]), p,
                       FirstValues(form, order)[n - 1]).Some?
    ensures ReadFormSpec(form, order).Some?
    ensures Search(ReadFormSpec(form, order).value, Segments(KeyPaths(order)[|order| - 1]))
         == FormValue(form[order[|order| - 1]][0])
  {
    StoreAllLast(KeyPaths(order), FirstValues(form, order));
  }
}

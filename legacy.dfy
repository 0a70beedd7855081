/**
 * gojsonforms: the older Form of the repository's root package. Its setup
 * stamps widths on HorizontalLayouts only; its BindData appends the
 * expanded copies onto `options.detail` and stores the looked-up data on
 * every Control even when it is null, and it has no array-select pass.
 * Its ReadForm runs the same loop as internal/form's (InternalForm.ReadForm)
 * and returns the object serialised, which this model leaves out.
 */
module LegacyForm {
  import opened JsonTree
  import opened Engine
  import opened WalkFacts
  import opened Runs
  import Walker
  import SetupFacts
  import WidthFacts
  import DataFacts
  import ExpandFacts

  function SetupWalks(schema: Json, ui: Json, fuel: nat): Outcome {
    Then(Walk(ui, TypeKey, Equals(Str("Control")), AttachSchema(schema), fuel),
         t => Walk(t, TypeKey, Equals(Str("HorizontalLayout")), StampLayouts(Legacy), fuel))
  }

  function BindWalks(ui: Json, data: Json, fuel: nat): Outcome {
    Then(Walk(ui, SchemaTypeKey, Equals(Boxed(Str("array"))), ExpandArray(data, Legacy), fuel),
         t => Walk(Flatten(t), TypeKey, Equals(Str("Control")), AttachData(data, Legacy), fuel))
  }

  class Form {
    var schema: Json
    var uiSchema: Json
    var data: Json

    /** The struct the two parsed documents are stored in; the data stays nil until BindData. */
    constructor (schema: Json, uiSchema: Json)
      ensures this.schema == schema && this.uiSchema == uiSchema && data == Null
    {
      this.schema := schema;
      this.uiSchema := uiSchema;
      data := Null;
    }

    method Setup(fuel: nat) returns (s: Status)
      modifies this
      ensures (uiSchema, s) == Settle(SetupWalks(schema, old(uiSchema), fuel), old(uiSchema))
      ensures schema == old(schema) && data == old(data)
    {
      var o1 := Walker.IterateObj(uiSchema, TypeKey, Equals(Str("Control")), AttachSchema(schema), fuel);
      if !o1.Done? {
        s := if o1.Panicked? then Crashed else Exhausted;
        return;
      }
      var o2 := Walker.IterateObj(o1.tree, TypeKey, Equals(Str("HorizontalLayout")), StampLayouts(Legacy), fuel);
      if !o2.Done? {
        s := if o2.Panicked? then Crashed else Exhausted;
        return;
      }
      uiSchema := o2.tree;
      s := Returned(o1.failed || o2.failed);
    }

    /** The data is stored before the walks and stays whatever they do. */
    method BindData(d: Json, fuel: nat) returns (s: Status)
      modifies this
      ensures data == d && schema == old(schema)
      ensures (uiSchema, s) == Settle(BindWalks(old(uiSchema), d, fuel), old(uiSchema))
    {
      data := d;
      var o1 := Walker.IterateObj(uiSchema, SchemaTypeKey, Equals(Boxed(Str("array"))), ExpandArray(d, Legacy), fuel);
      if !o1.Done? {
        s := if o1.Panicked? then Crashed else Exhausted;
        return;
      }
      var reparsed := Flatten(o1.tree);
      var o2 := Walker.IterateObj(reparsed, TypeKey, Equals(Str("Control")), AttachData(d, Legacy), fuel);
      if !o2.Done? {
        s := if o2.Panicked? then Crashed else Exhausted;
        return;
      }
      uiSchema := o2.tree;
      s := Returned(o1.failed || o2.failed);
    }
  }

  /** New, once both documents are parsed: a form over the two trees, set up. */
  method New(schema: Json, uiSchema: Json, fuel: nat) returns (f: Form, s: Status)
    ensures fresh(f) && f.schema == schema && f.data == Null
    ensures (f.uiSchema, s) == Settle(SetupWalks(schema, uiSchema, fuel), uiSchema)
  {
    f := new Form(schema, uiSchema);
    s := f.Setup(fuel);
  }

  /**
   * The width pass only visits HorizontalLayouts: a tree without one
   * (VerticalLayouts included) comes out of it unchanged.
   */
  lemma WidthsOnlyForHorizontal(t: Json, fuel: nat)
    requires NoneMatch(t, TypeKey, Equals(Str("HorizontalLayout"))) && Fits(t, fuel)
    ensures Walk(t, TypeKey, Equals(Str("HorizontalLayout")), StampLayouts(Legacy), fuel) == Done(t, false)
  {
    WalkUnmatched(t, TypeKey, Equals(Str("HorizontalLayout")), StampLayouts(Legacy), fuel);
  }

  /**
   * Setup over a ui-schema no setup has run on: every Control gets the
   * keywords of its schema fragment, then every layout the width walk
   * tests stamps the elements it holds, and the method reports an error
   * exactly when some Control lacks a string scope. No layout may divide
   * by an empty row, and the fuel must reach every node of both results.
   */
  lemma SetupTree(schema: Json, ui: Json, fuel: nat)
    requires SetupFacts.Unset(ui) && Fits(SetupFacts.Keyworded(schema, ui), fuel)
    requires WidthFacts.Calm(Legacy, ui)
    requires Fits(WidthFacts.Stamped(Legacy, SetupFacts.Keyworded(schema, ui)), fuel)
    ensures SetupWalks(schema, ui, fuel)
         == Done(WidthFacts.Stamped(Legacy, SetupFacts.Keyworded(schema, ui)), SetupFacts.Scopeless(ui))
  {
    var k := SetupFacts.Keyworded(schema, ui);
    SetupFacts.KeywordTree(schema, ui, fuel);
    WidthFacts.CalmKeyworded(Legacy, schema, ui);
    WidthFacts.WidthTree(Legacy, k, fuel);
    assert WidthFacts.WidthTest(Legacy) == Equals(Str("HorizontalLayout"));
  }

  /**
   * BindData over a set-up ui-schema in which no array control holds
   * another in its `options`, for data that holds no Control of its own:
   * every array control gets the copies of its detail its data array
   * calls for, then every Control of the re-parsed tree, copies included,
   * that is not an array control gets the value its scope names as
   * `data`, null included, and the method reports an error exactly when
   * an array control or one of those Controls lacks a string scope.
   */
  lemma BindTree(ui: Json, data: Json, fuel: nat)
    requires ExpandFacts.Unnested(ui) && Fits(ExpandFacts.Expanded(data, Legacy, ui), fuel)
    requires NoneMatch(data, TypeKey, Equals(Str("Control")))
    requires Fits(DataFacts.Bound(data, Legacy, Flatten(ExpandFacts.Expanded(data, Legacy, ui))), fuel)
    ensures BindWalks(ui, data, fuel)
         == Done(DataFacts.Bound(data, Legacy, Flatten(ExpandFacts.Expanded(data, Legacy, ui))),
                 ExpandFacts.ArrayScopeless(ui) || DataFacts.Unscoped(data, Legacy, Flatten(ExpandFacts.Expanded(data, Legacy, ui))))
  {
    ExpandFacts.ExpandTree(data, Legacy, ui, fuel);
    DataFacts.DataTree(data, Legacy, Flatten(ExpandFacts.Expanded(data, Legacy, ui)), fuel);
  }

  /** A Control without a string scope at the root makes setup report an error whenever it returns. */
  lemma SetupFlagsScopelessRoot(schema: Json, ui: Json, fuel: nat)
    requires Search(ui, TypeKey) == Str("Control") && NoScope(ui)
    requires SetupWalks(schema, ui, fuel).Done?
    ensures SetupWalks(schema, ui, fuel).failed
  {
    assert Matches(ui, TypeKey, Equals(Str("Control")));
    Walker.VisitMatched(ui, TypeKey, Equals(Str("Control")), AttachSchema(schema), fuel);
  }

  /**
   * On a ui-schema no setup has run on, setup reports an error exactly
   * when some Control, at any depth, lacks a string scope.
   */
  lemma SetupErrorIff(schema: Json, ui: Json, fuel: nat)
    requires SetupFacts.Unset(ui) && SetupWalks(schema, ui, fuel).Done?
    ensures SetupWalks(schema, ui, fuel).failed <==> SetupFacts.Scopeless(ui)
  {
    var first := Walk(ui, TypeKey, Equals(Str("Control")), AttachSchema(schema), fuel);
    SetupFacts.KeywordWalkFlags(schema, ui, fuel);
    SetupFacts.StampWalkQuiet(first.tree, TypeKey, Equals(Str("HorizontalLayout")), Legacy, fuel);
  }
}

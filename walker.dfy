/**
 * The imperative side of the engine: the closures that setup and
 * BindData hand to iterateObj, and iterateObj itself, as methods whose
 * loops update the node step by step the way the Go code does, each
 * proved to end in the state the Engine functions describe.
 */
module Walker {
  import opened Wrappers
  import opened Strings
  import opened JsonTree
  import opened Paths
  import opened Engine
  import opened PassFacts
  import WalkFacts

  // ---------------------------------------------------------------------
  // setup: the keyword loop

  /** `len(v.Children())`. */
  function ChildCount(v: Json): nat {
    match v
    case Arr(a) => |a|
    case Obj(m) => |m|
    case _ => 0
  }

  /** The two tests of the loop body together pick exactly the copyable keywords. */
  lemma CopyableTests(v: Json)
    ensures Copyable(v) <==> ChildCount(v) == 0 || v.Arr?
  {
    if v.Obj? && v.fields != map[] {
      var k :| k in v.fields;
      assert k in v.fields.Keys;
    }
  }

  /** The keywords among the keys `done` of an object fragment. */
  function KeywordsAmong(fragment: map<string, Json>, done: set<string>): map<string, Json> {
    map k | k in done && k in fragment && Copyable(fragment[k]) :: Boxed(fragment[k])
  }

  /** One `c.SetP(v, "schema." + k)` on a node that already has the keywords `kw`. */
  lemma SetKeyword(c: Json, kw: map<string, Json>, k: string, x: Json)
    requires SchemaOpen(c)
    ensures SetP(WithKeywords(c, kw), ["schema", k], x) == WithKeywords(c, kw[k := x])
  {
    var m := c.fields;
    SearchKey(m, "schema", []);
    assert [("schema")] + [] == ["schema"];
    var cur := Search(c, ["schema"]);
    var base := if cur.Obj? then cur.fields else map[];
    assert k in kw[k := x];
    if kw == map[] {
      assert kw[k := x] == map[k := x];
      if cur == Null {
        SetTwoFresh(m, "schema", k, x);
        assert WithKeywords(c, map[k := x]) == Obj(m["schema" := Obj(map[k := x])]);
      } else {
        SetTwo(m, "schema", k, x);
        assert cur.fields[k := x] == cur.fields + map[k := x];
      }
    } else {
      var m1 := m["schema" := Obj(base + kw)];
      if cur == Null {
        assert base + kw == kw;
      }
      assert WithKeywords(c, kw) == Obj(m1);
      SetTwo(m1, "schema", k, x);
      assert (base + kw)[k := x] == base + kw[k := x];
      assert m1["schema" := Obj(base + kw[k := x])] == m["schema" := Obj(base + kw[k := x])];
    }
  }

  /** One more key of the fragment looked at. */
  lemma KeywordsAmongStep(fields: map<string, Json>, done: set<string>, k: string)
    requires k in fields && k !in done
    ensures KeywordsAmong(fields, done + {k}) ==
      if Copyable(fields[k]) then KeywordsAmong(fields, done)[k := Boxed(fields[k])] else KeywordsAmong(fields, done)
  {
  }

  /** All keys looked at: the keywords of the fragment. */
  lemma KeywordsAmongAll(fragment: Json)
    requires fragment.Obj?
    ensures KeywordsAmong(fragment.fields, fragment.fields.Keys) == Keywords(fragment)
  {
  }

  /** Without an object fragment or an open `schema` member, nothing is copied. */
  lemma NothingToCopy(schema: Json, c: Json)
    requires !Engine.Fragment(schema, c).Obj? || !SchemaOpen(c)
    ensures AttachSchemaNode(schema, c) == c
  {
    if c.Obj? && Engine.Fragment(schema, c).Obj? {
      SearchKey(c.fields, "schema", []);
      assert [("schema")] + [] == ["schema"];
    }
  }

  /**
   * The body of setup's first closure: record a missing scope, then copy
   * the keywords of the fragment the scope names.
   */
  method AttachSchemaM(schema: Json, c: Json) returns (r: Json, failed: bool)
    ensures r == AttachSchemaNode(schema, c)
    ensures failed <==> NoScope(c)
  {
    failed := NoScope(c);
    var fragment := Engine.Fragment(schema, c);
    if !fragment.Obj? || !SchemaOpen(c) {
      NothingToCopy(schema, c);
      return c, failed;
    }
    r := CopyKeywords(c, fragment);
  }

  /** One round of the keyword loop: the two tests of the source, each followed by its SetP. */
  method CopyKeyword(c: Json, ghost kw: map<string, Json>, r: Json, k: string, v: Json) returns (r': Json)
    requires SchemaOpen(c) && r == WithKeywords(c, kw)
    ensures r' == WithKeywords(c, if Copyable(v) then kw[k := Boxed(v)] else kw)
  {
    CopyableTests(v);
    r' := r;
    ghost var kw' := kw;
    if ChildCount(v) == 0 {
      SetKeyword(c, kw', k, Boxed(v));
      r' := SetP(r', ["schema", k], Boxed(v));
      kw' := kw'[k := Boxed(v)];
    }
    if v.Arr? {
      SetKeyword(c, kw', k, Boxed(v));
      r' := SetP(r', ["schema", k], Boxed(v));
      kw' := kw'[k := Boxed(v)];
    }
    if ChildCount(v) == 0 && v.Arr? {
      assert kw[k := Boxed(v)][k := Boxed(v)] == kw[k := Boxed(v)];
    }
  }

  /**
   * The keyword loop: every keyword of the fragment that has no children
   * or is an array is set at `schema.<k>`. A `schema` member that is
   * neither missing, null nor an object is left alone (see README).
   */
  method CopyKeywords(c: Json, fragment: Json) returns (r: Json)
    requires fragment.Obj? && SchemaOpen(c)
    ensures r == WithKeywords(c, Keywords(fragment))
  {
    r := c;
    var fields := fragment.fields;
    var todo := fields.Keys;
    ghost var done: set<string> := {};
    assert KeywordsAmong(fields, done) == map[];
    while todo != {}
      invariant todo !! done && todo + done == fields.Keys
      invariant r == WithKeywords(c, KeywordsAmong(fields, done))
      decreases |todo|
    {
      var k :| k in todo;
      KeywordsAmongStep(fields, done, k);
      r := CopyKeyword(c, KeywordsAmong(fields, done), r, k, fields[k]);
      todo := todo - {k};
      done := done + {k};
    }
    KeywordsAmongAll(fragment);
  }

  // ---------------------------------------------------------------------
  // setup: the column loop

  /** The gabs segments of fmt.Sprintf("elements.%d.schema.col", i). */
  lemma ColumnPath(i: nat)
    ensures Segments("elements." + NatToString(i) + ".schema.col") == ["elements", NatToString(i), "schema", "col"]
  {
    var d := NatToString(i);
    NatToStringHasNoDot(i);
    assert "elements." + d + ".schema.col" == "elements" + ['.'] + (d + ['.'] + ("schema" + ['.'] + "col"));
    SplitAtFirst("elements", '.', d + ['.'] + ("schema" + ['.'] + "col"));
    SplitAtFirst(d, '.', "schema" + ['.'] + "col");
    SplitAtFirst("schema", '.', "col");
    SplitNoSep("col", '.');
  }

  /** Atoi rejects a key that starts with a letter. */
  lemma AtoiOfName(s: string)
    requires s != [] && !IsDigit(s[0]) && s[0] != '-' && s[0] != '+'
    ensures Atoi(s) == None
  {
  }

  /** Setting `col` two levels into one element: what StampChild describes. */
  lemma StampElement(e: Json, tag: string)
    requires e != Null
    ensures var r := Step(e, ["schema", "col"], Str(tag), false);
            (r.Some? ==> r.value == StampChild(e, tag)) && (r.None? ==> StampChild(e, tag) == e)
  {
    var q := ["schema", "col"];
    assert q[0] == "schema" && q[1..] == ["col"] && |q| == 2;
    AtoiOfName("schema");
    AtoiOfName("col");
    if e.Obj? {
      var child := if "schema" in e.fields && e.fields["schema"] != Null then e.fields["schema"] else Obj(map[]);
      assert Step(child, ["col"], Str(tag), false) == if child.Obj? then Some(Obj(child.fields["col" := Str(tag)])) else None;
    }
  }

  /** One `c.SetP(tag, "elements.<i>.schema.col")`. */
  lemma StampOne(m: map<string, Json>, b: seq<Json>, i: nat, tag: string)
    requires "elements" in m && m["elements"] == Arr(b) && i < |b|
    ensures SetP(Obj(m), ["elements", NatToString(i), "schema", "col"], Str(tag))
         == Obj(m["elements" := Arr(b[i := if i <= MaxInt then StampChild(b[i], tag) else b[i]])])
  {
    var s := NatToString(i);
    var p := ["elements", s, "schema", "col"];
    var v := Str(tag);
    assert p[0] == "elements" && p[1..] == [s, "schema", "col"] && p[1..][1..] == ["schema", "col"];
    assert s != "-" by { assert IsDigit(s[0]); }
    if i <= MaxInt {
      AtoiNatToString(i);
    } else {
      DigitsOfNatToString(i);
      assert IsDigit(s[0]);
      assert Atoi(s) == None;
    }
    var q := ["schema", "col"];
    var inner := Step(Arr(b), p[1..], v, false);
    if i <= MaxInt && b[i] != Null {
      StampElement(b[i], tag);
      var r2 := Step(b[i], q, v, false);
      assert inner == if r2.Some? then Some(Arr(b[i := r2.value])) else None;
    } else {
      assert inner == None;
    }
    assert Set(Obj(m), p, v) == Step(Obj(m), p, v, true);
    assert Step(Obj(m), p, v, true) == if inner.Some? then Some(Obj(m["elements" := inner.value])) else None;
    if inner.None? {
      assert b[i := if i <= MaxInt then StampChild(b[i], tag) else b[i]] == b;
      assert m["elements" := Arr(b)] == m;
    }
  }

  /**
   * The body of setup's second closure. Current: only "HorizontalLayout"
   * and "VerticalLayout" nodes; the width is 12/n or 12. Legacy: the walk
   * picks the "HorizontalLayout" nodes and the width is 12/n. Then the tag
   * is set on each element in turn.
   */
  method StampM(variant: Variant, c: Json) returns (o: Outcome)
    ensures o == StampNode(variant, c)
  {
    var ty := Search(c, ["type"]);
    if variant == Current && ty != Str("HorizontalLayout") && ty != Str("VerticalLayout") {
      return Done(c, false);
    }
    var count := ArrayCount(c, ["elements"]);
    if count.None? {
      return Done(c, false);
    }
    var n := count.value;
    var divide := variant == Legacy || ty == Str("HorizontalLayout");
    if divide && n == 0 {
      return Panicked;
    }
    var tag := Tag(if divide then 12 / n else 12);
    var r := StampElements(c, tag);
    return Done(r, false);
  }

  /** Stamping element i of the partly stamped array. */
  lemma StampPrefix(b: seq<Json>, i: nat, tag: string)
    requires i < |b|
    ensures (StampChildren(b[..i], tag) + b[i..])[i := if i <= MaxInt then StampChild(b[i], tag) else b[i]]
         == StampChildren(b[..i + 1], tag) + b[i + 1..]
  {
  }

  lemma UpdateTwice(m: map<string, Json>, k: string, x: Json, y: Json)
    ensures m[k := x][k := y] == m[k := y]
  {
  }

  /** One turn of the stamping loop: element i gets the tag, the others stay as they are. */
  lemma StampStep(m: map<string, Json>, b: seq<Json>, i: nat, tag: string)
    requires i < |b|
    ensures SetP(Obj(m["elements" := Arr(StampChildren(b[..i], tag) + b[i..])]),
                 Segments("elements." + NatToString(i) + ".schema.col"), Str(tag))
         == Obj(m["elements" := Arr(StampChildren(b[..i + 1], tag) + b[i + 1..])])
  {
    var cur := StampChildren(b[..i], tag) + b[i..];
    ColumnPath(i);
    StampOne(m["elements" := Arr(cur)], cur, i, tag);
    StampPrefix(b, i, tag);
    UpdateTwice(m, "elements", Arr(cur), Arr(StampChildren(b[..i + 1], tag) + b[i + 1..]));
  }

  /** `for i := range arrayCount { c.SetP(tag, "elements.<i>.schema.col") }`. */
  method StampElements(c: Json, tag: string) returns (r: Json)
    requires c.Obj? && "elements" in c.fields && c.fields["elements"].Arr?
    ensures r == Obj(c.fields["elements" := Arr(StampChildren(c.fields["elements"].elems, tag))])
  {
    var b := c.fields["elements"].elems;
    var n := |b|;
    r := c;
    var i := 0;
    assert StampChildren(b[..0], tag) + b[0..] == b;
    assert c.fields["elements" := Arr(b)] == c.fields;
    while i < n
      invariant 0 <= i <= n
      invariant r == Obj(c.fields["elements" := Arr(StampChildren(b[..i], tag) + b[i..])])
    {
      StampStep(c.fields, b, i, tag);
      r := SetP(r, Segments("elements." + NatToString(i) + ".schema.col"), Str(tag));
      i := i + 1;
    }
    assert StampChildren(b[..n], tag) + b[n..] == StampChildren(b, tag);
  }

  // ---------------------------------------------------------------------
  // BindData: the expansion loop

  /** The copy loop: copy `i` of `options.detail`, its scopes rewritten for element `i`, appended at `target`. */
  method CopiesM(c: Json, target: seq<string>, detail: Json, n: nat) returns (r: Json)
    ensures r == AppendCopies(c, target, detail, n)
  {
    r := c;
    var i := 0;
    while i < n
      invariant 0 <= i <= n
      invariant r == AppendCopies(c, target, detail, i)
    {
      r := ArrayAppend(r, target, Boxed(Copy(detail, i)));
      i := i + 1;
    }
  }

  /**
   * The body of the array pass: count the data elements at the scope,
   * append one rewritten copy of `options.detail` per element, then
   * delete `options.detail` (Current) or remove the first element of it
   * (Legacy).
   */
  method ExpandM(data: Json, variant: Variant, c: Json) returns (o: Outcome)
    ensures o == ExpandNode(data, variant, c)
  {
    var count := ArrayCount(data, Segments(GabsPath(Scope(c), false)));
    if count.None? {
      return Done(c, NoScope(c));
    }
    var n := count.value;
    var detail := Search(c, ["options", "detail"]);
    var target := if variant == Current then ["options", "details"] else ["options", "detail"];
    var r := CopiesM(c, target, detail, n);
    if variant == Current {
      r := Delete(r, ["options", "detail"]);
    } else {
      r := ArrayRemoveFirst(r, ["options", "detail"]);
    }
    return Done(r, NoScope(c));
  }

  // ---------------------------------------------------------------------
  // BindData: the array-select loops

  /** One failed type assertion makes the whole label fail. */
  lemma LabelFails(props: seq<Json>, elem: Json, j: nat)
    requires j < |props| && !Labels(props[j], elem)
    ensures LabelParts(props, elem) == None
  {
  }

  /** A failed type assertion at property `j` fails the label of the properties from `j` on. */
  lemma LabelStop(props: seq<Json>, elem: Json, j: nat)
    requires j < |props| && !Labels(props[j], elem)
    ensures LabelParts(props[j..], elem) == None
  {
    assert props[j..][0] == props[j];
    LabelFails(props[j..], elem, 0);
  }

  /** A label part in front of the parts of the remaining properties. */
  lemma LabelCons(props: seq<Json>, elem: Json, part: string, parts: seq<string>)
    requires props != [] && Labels(props[0], elem) && Str(part) == LabelValue(props[0], elem)
    requires LabelParts(props[1..], elem) == Some(parts)
    ensures LabelParts(props, elem) == Some([part] + parts)
  {
  }

  /** The parts found so far in front of the parts still to come. */
  function Prepend(acc: seq<string>, rest: Option<seq<string>>): Option<seq<string>> {
    if rest.Some? then Some(acc + rest.value) else None
  }

  /** Dropping one label property that passes both type assertions. */
  lemma LabelStep(props: seq<Json>, elem: Json, j: nat)
    requires j < |props| && Labels(props[j], elem)
    ensures LabelParts(props[j..], elem) == Prepend([LabelValue(props[j], elem).s], LabelParts(props[j + 1..], elem))
  {
    assert props[j..][0] == props[j];
    assert props[j..][1..] == props[j + 1..];
  }

  lemma PrependNothing(rest: Option<seq<string>>)
    ensures Prepend([], rest) == rest
  {
    if rest.Some? {
      assert [] + rest.value == rest.value;
    }
  }

  /** Prepending in two steps is prepending once. */
  lemma PrependTwice(acc: seq<string>, v: string, rest: Option<seq<string>>)
    ensures Prepend(acc, Prepend([v], rest)) == Prepend(acc + [v], rest)
  {
    if rest.Some? {
      assert acc + ([v] + rest.value) == acc + [v] + rest.value;
    }
  }

  /**
   * The inner iterateArray: one label part per label property, each a
   * string property whose value in the element is a string. None: one of
   * the two type assertions panics.
   */
  method LabelM(props: seq<Json>, elem: Json) returns (parts: Option<seq<string>>)
    ensures parts == LabelParts(props, elem)
  {
    var acc: seq<string> := [];
    var j := 0;
    assert props[0..] == props;
    PrependNothing(LabelParts(props, elem));
    while j < |props|
      invariant 0 <= j <= |props|
      invariant LabelParts(props, elem) == Prepend(acc, LabelParts(props[j..], elem))
    {
      var prop := props[j];
      if !prop.Str? {
        LabelStop(props, elem, j);
        return None;
      }
      var v := LabelValue(prop, elem);
      if !v.Str? {
        LabelStop(props, elem, j);
        return None;
      }
      LabelStep(props, elem, j);
      PrependTwice(acc, v.s, LabelParts(props[j + 1..], elem));
      acc := acc + [v.s];
      j := j + 1;
    }
    assert acc + [] == acc;
    return Some(acc);
  }

  /** A SetP under `data` leaves the label properties under `options` as they were. */
  lemma GroupKeepsLabelProps(c: Json, name: string, x: Json)
    ensures LabelProps(SetP(c, Segments("data." + name), x)) == LabelProps(c)
  {
    var p := Segments("data." + name);
    assert "data." + name == "data" + ['.'] + name;
    SplitAtFirst("data", '.', name);
    assert p[0] == "data";
    var path := ["options", "elementLabelProps"];
    assert path == ["options"] + ["elementLabelProps"];
    if c.Obj? || c == Null {
      var m := if c.Obj? then c.fields else map[];
      if Set(c, p, x).Some? {
        assert Set(c, p, x) == Set(Obj(m), p, x);
        SetObjFrame(m, p, x);
        var r := Set(c, p, x).value;
        SearchKey(m, "options", ["elementLabelProps"]);
        SearchKey(r.fields, "options", ["elementLabelProps"]);
      }
    } else if c.Arr? {
      assert !IsDigit(p[0][0]);
      assert Atoi(p[0]).None?;
    }
  }

  /** One more data element grouped onto the prefix before it. */
  lemma GroupStep(c: Json, props: seq<Json>, elems: seq<Json>, i: nat, cur: Json, parts: seq<string>)
    requires i < |elems| && Grouped(c, props, elems[..i]) == Some(cur)
    requires LabelParts(props, elems[i]) == Some(parts)
    ensures Grouped(c, props, elems[..i + 1]) == Some(SetP(cur, Segments("data." + Join(parts, " ")), Boxed(elems[i])))
  {
    assert elems[..i + 1][..i] == elems[..i] && elems[..i + 1][i] == elems[i];
  }

  /** An element without its label parts makes the whole grouping panic. */
  lemma GroupFails(c: Json, props: seq<Json>, elems: seq<Json>, i: nat)
    requires i < |elems| && LabelParts(props, elems[i]).None?
    ensures Grouped(c, props, elems) == None
  {
    GroupedPanics(c, props, elems);
  }

  /**
   * The outer iterateArray of the array-select closure: for each data
   * element in index order, read the label properties of the control,
   * build the label and store the element at `data.<label>`.
   */
  method GroupM(c: Json, elems: seq<Json>) returns (r: Option<Json>)
    ensures r == Grouped(c, LabelProps(c), elems)
  {
    var cur := c;
    var i := 0;
    assert elems[..0] == [];
    while i < |elems|
      invariant 0 <= i <= |elems|
      invariant LabelProps(cur) == LabelProps(c)
      invariant Grouped(c, LabelProps(c), elems[..i]) == Some(cur)
    {
      var props := LabelProps(cur);
      var parts := LabelM(props, elems[i]);
      if parts.None? {
        GroupFails(c, props, elems, i);
        return None;
      }
      var name := Join(parts.value, " ");
      GroupKeepsLabelProps(cur, name, Boxed(elems[i]));
      GroupStep(c, props, elems, i, cur, parts.value);
      cur := SetP(cur, Segments("data." + name), Boxed(elems[i]));
      i := i + 1;
    }
    assert elems[..|elems|] == elems;
    return Some(cur);
  }

  // ---------------------------------------------------------------------
  // iterateObj

  /** The closure of a pass, run on one matching node. */
  method OperateM(pass: Pass, c: Json, fuel: nat) returns (o: Outcome)
    ensures o == Operate(pass, c, fuel)
    decreases Rank(pass), fuel, 0
  {
    match pass
    case AttachSchema(schema) =>
      var r, failed := AttachSchemaM(schema, c);
      o := Done(r, failed);
    case StampLayouts(variant) =>
      o := StampM(variant, c);
    case ExpandArray(data, variant) =>
      o := ExpandM(data, variant, c);
    case GroupSelect(data) =>
      var elems := Items(data, Segments(GabsPath(Scope(c), false)));
      var grouped := GroupM(c, elems);
      if grouped.None? {
        return Panicked;
      }
      var c1 := grouped.value;
      var inner := Search(c1, DetailElements);
      var w := IterateObj(inner, ["type"], Equals(Str("Control")), StripDetailScope, fuel);
      if !w.Done? {
        return w;
      }
      var r := if inner.Obj? || inner.Arr? then SetP(c1, DetailElements, w.tree) else c1;
      o := Done(r, NoScope(c) || w.failed);
    case StripDetailScope =>
      o := StripNode(c);
    case AttachData(data, variant) =>
      o := AttachDataNode(data, variant, c);
  }

  /** One visit of a matching node: its closure's outcome, then its children's. */
  lemma VisitMatched(t: Json, key: seq<string>, want: Match, pass: Pass, fuel: nat)
    requires fuel > 0 && Matches(t, key, want)
    ensures var first := Operate(pass, t, fuel);
      Walk(t, key, want, pass, fuel) ==
        if !first.Done? then first
        else
          var rest := WalkChildren(first.tree, key, want, pass, fuel - 1);
          if rest.Done? then Done(rest.tree, first.failed || rest.failed) else rest
  {
  }

  /** A matching node whose closure does not complete: the walk ends with the closure's outcome. */
  lemma VisitStops(t: Json, key: seq<string>, want: Match, pass: Pass, fuel: nat, first: Outcome)
    requires fuel > 0 && Matches(t, key, want)
    requires Operate(pass, t, fuel) == first && !first.Done?
    ensures Walk(t, key, want, pass, fuel) == first
  {
    VisitMatched(t, key, want, pass, fuel);
  }

  /** A matching node whose closure completes: the walk goes on with the children of the node it left. */
  lemma VisitGoesOn(t: Json, key: seq<string>, want: Match, pass: Pass, fuel: nat, t1: Json, f1: bool, rest: Outcome)
    requires fuel > 0 && Matches(t, key, want)
    requires Operate(pass, t, fuel) == Done(t1, f1) && WalkChildren(t1, key, want, pass, fuel - 1) == rest
    ensures Walk(t, key, want, pass, fuel) == if rest.Done? then Done(rest.tree, f1 || rest.failed) else rest
  {
    VisitMatched(t, key, want, pass, fuel);
  }

  /** One visit of a node that does not match: only its children's outcome. */
  lemma VisitUnmatched(t: Json, key: seq<string>, want: Match, pass: Pass, fuel: nat)
    requires fuel > 0 && !Matches(t, key, want)
    ensures var rest := WalkChildren(t, key, want, pass, fuel - 1);
      Walk(t, key, want, pass, fuel) == if rest.Done? then Done(rest.tree, rest.failed) else rest
  {
  }

  /**
   * iterateObj: run the closure on the node when the value at `key`
   * matches, then walk the children of the node the closure left.
   */
  method IterateObj(t: Json, key: seq<string>, want: Match, pass: Pass, fuel: nat) returns (o: Outcome)
    ensures o == Walk(t, key, want, pass, fuel)
    decreases Rank(pass), fuel, 2
  {
    if fuel == 0 {
      return OutOfFuel;
    }
    if Matches(t, key, want) {
      o := OperateThenChildren(t, key, want, pass, fuel);
    } else {
      VisitUnmatched(t, key, want, pass, fuel);
      var rest := IterateChildren(t, key, want, pass, fuel - 1);
      if !rest.Done? {
        return rest;
      }
      return Done(rest.tree, rest.failed);
    }
  }

  /** A matching node: the closure first, then the children of the node it left. */
  method OperateThenChildren(t: Json, key: seq<string>, want: Match, pass: Pass, fuel: nat) returns (o: Outcome)
    requires fuel > 0 && Matches(t, key, want)
    ensures o == Walk(t, key, want, pass, fuel)
    decreases Rank(pass), fuel, 1
  {
    var first := OperateM(pass, t, fuel);
    if !first.Done? {
      VisitStops(t, key, want, pass, fuel, first);
      return first;
    }
    o := ChildrenAfter(first.tree, first.failed, key, want, pass, fuel - 1);
    VisitGoesOn(t, key, want, pass, fuel, first.tree, first.failed, WalkChildren(first.tree, key, want, pass, fuel - 1));
  }

  /** The children of the node a completed closure left, their failure added to the closure's. */
  method ChildrenAfter(t1: Json, f1: bool, key: seq<string>, want: Match, pass: Pass, fuel: nat) returns (o: Outcome)
    ensures var rest := WalkChildren(t1, key, want, pass, fuel);
      o == if rest.Done? then Done(rest.tree, f1 || rest.failed) else rest
    decreases Rank(pass), fuel, 5
  {
    var rest := IterateChildren(t1, key, want, pass, fuel);
    if !rest.Done? {
      return rest;
    }
    return Done(rest.tree, f1 || rest.failed);
  }

  /** `container.Children()` walked one by one: the elements of an array, the members of an object. */
  method IterateChildren(t: Json, key: seq<string>, want: Match, pass: Pass, fuel: nat) returns (o: Outcome)
    ensures o == WalkChildren(t, key, want, pass, fuel)
    decreases Rank(pass), fuel, 4
  {
    match t {
      case Arr(a) =>
        o := IterateElements(a, key, want, pass, fuel);
      case Obj(m) =>
        o := IterateMembers(m, key, want, pass, fuel);
      case _ =>
        o := Done(t, false);
    }
  }

  /**
   * The walk of every element of an array node, in index order, each
   * element's outcome put together with those before it.
   */
  method IterateElements(a: seq<Json>, key: seq<string>, want: Match, pass: Pass, fuel: nat) returns (o: Outcome)
    ensures o == WalkElements(a, key, want, pass, fuel)
    decreases Rank(pass), fuel, 3
  {
    o := Done(Arr([]), false);
    var i := 0;
    while i < |a|
      invariant 0 <= i <= |a|
      invariant o == WalkElements(a[..i], key, want, pass, fuel)
    {
      var r := IterateObj(a[i], key, want, pass, fuel);
      ElementsStep(a, key, want, pass, fuel, i);
      o := Append(o, r);
      i := i + 1;
    }
    assert a[..|a|] == a;
  }

  lemma ElementsStep(a: seq<Json>, key: seq<string>, want: Match, pass: Pass, fuel: nat, i: nat)
    requires i < |a|
    ensures WalkElements(a[..i + 1], key, want, pass, fuel) ==
      Append(WalkElements(a[..i], key, want, pass, fuel), Walk(a[i], key, want, pass, fuel))
  {
    assert a[..i + 1][..i] == a[..i];
  }

  /**
   * The walk of every member of an object node, key by key in whatever
   * order the map gives, each member's outcome recorded under its key.
   */
  method IterateMembers(m: map<string, Json>, key: seq<string>, want: Match, pass: Pass, fuel: nat) returns (o: Outcome)
    ensures o == WalkChildren(Obj(m), key, want, pass, fuel)
    decreases Rank(pass), fuel, 3
  {
    var seen: map<string, Outcome> := map[];
    var todo := m.Keys;
    while todo != {}
      invariant todo <= m.Keys && seen.Keys == m.Keys - todo
      invariant forall k :: k in seen ==> seen[k] == Walk(m[k], key, want, pass, fuel)
      decreases todo
    {
      var k :| k in todo;
      var r := IterateObj(m[k], key, want, pass, fuel);
      seen := seen[k := r];
      todo := todo - {k};
    }
    MembersWalked(m, key, want, pass, fuel, seen);
    o := Gather(seen);
  }

  lemma MembersWalked(m: map<string, Json>, key: seq<string>, want: Match, pass: Pass, fuel: nat, seen: map<string, Outcome>)
    requires seen.Keys == m.Keys
    requires forall k :: k in seen ==> seen[k] == Walk(m[k], key, want, pass, fuel)
    ensures WalkChildren(Obj(m), key, want, pass, fuel) == Gather(seen)
  {
    var all := MemberWalks(m, key, want, pass, fuel);
    forall k | k in m ensures seen[k] == all[k] {
      WalkFacts.MemberWalk(m, key, want, pass, fuel, k);
    }
    assert seen == all;
  }
}

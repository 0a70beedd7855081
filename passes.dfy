/**
 * What each operation of the binding engine does to the one node it is
 * given, stated member by member: the properties the two packages'
 * tests rely on.
 */
module PassFacts {
  import opened Wrappers
  import opened Strings
  import opened JsonTree
  import opened Paths
  import opened Engine

  /** A node whose `schema` member can take keywords: missing, null or an object. */
  predicate SchemaOpen(c: Json) {
    c.Obj? && (Search(c, ["schema"]) == Null || Search(c, ["schema"]).Obj?)
  }

  // ---------------------------------------------------------------------
  // setup: schema keywords

  /**
   * Every copyable keyword of the fragment the scope names ends up under
   * `schema`, stored as the container it was handed out as; every other
   * `schema` entry and every other member of the control is as before.
   */
  lemma AttachSchemaCopiesKeywords(schema: Json, c: Json, k: string)
    requires SchemaOpen(c)
    ensures var r := AttachSchemaNode(schema, c);
            var frag := Engine.Fragment(schema, c);
            r.Obj? &&
            (frag.Obj? && k in frag.fields && Copyable(frag.fields[k]) ==>
               Search(r, ["schema", k]) == Boxed(frag.fields[k])) &&
            (!(frag.Obj? && k in frag.fields && Copyable(frag.fields[k])) ==>
               Search(r, ["schema", k]) == Search(c, ["schema", k]))
  {
    WithKeywordsAt(c, Keywords(Engine.Fragment(schema, c)), k);
  }

  /** The `schema.k` entry after the keywords `kw` are set on an open node. */
  lemma WithKeywordsAt(c: Json, kw: map<string, Json>, k: string)
    requires SchemaOpen(c)
    ensures WithKeywords(c, kw).Obj?
    ensures Search(WithKeywords(c, kw), ["schema", k]) == if k in kw then kw[k] else Search(c, ["schema", k])
  {
    var r := WithKeywords(c, kw);
    assert ["schema", k] == ["schema"] + [k];
    SearchKey(c.fields, "schema", [k]);
    if kw != map[] {
      var cur := Search(c, ["schema"]);
      var s := if cur == Null then Obj(kw) else Obj(cur.fields + kw);
      assert r == Obj(c.fields["schema" := s]);
      SearchKey(r.fields, "schema", [k]);
      SearchKey(s.fields, k, []);
      if cur.Obj? {
        SearchKey(cur.fields, k, []);
      }
    }
  }

  /** One step of a search into an object. */
  lemma SearchKey(m: map<string, Json>, k: string, rest: seq<string>)
    ensures Search(Obj(m), [k] + rest) == if k in m then Search(m[k], rest) else Null
  {
    assert ([k] + rest)[1..] == rest;
  }

  /** Only the `schema` member of a control changes; it is created when a keyword is copied. */
  lemma AttachSchemaFrame(schema: Json, c: Json)
    requires c.Obj?
    ensures var r := AttachSchemaNode(schema, c);
            r.Obj? &&
            (forall k :: k in c.fields && k != "schema" ==> k in r.fields && r.fields[k] == c.fields[k]) &&
            (forall k :: k in r.fields ==> k in c.fields || k == "schema")
  {
    KeywordsFrame(c, Keywords(Engine.Fragment(schema, c)));
  }

  lemma KeywordsFrame(c: Json, kw: map<string, Json>)
    requires c.Obj?
    ensures var r := WithKeywords(c, kw);
            r.Obj? &&
            (forall k :: k in c.fields && k != "schema" ==> k in r.fields && r.fields[k] == c.fields[k]) &&
            (forall k :: k in r.fields ==> k in c.fields || k == "schema")
  {
  }

  /**
   * After the re-parse the copied keyword is the fragment's own value:
   * what the tests compare once the ui-schema is serialised.
   */
  lemma AttachSchemaAfterReparse(schema: Json, c: Json, k: string)
    requires SchemaOpen(c) && Plain(schema)
    requires var frag := Engine.Fragment(schema, c); frag.Obj? && k in frag.fields && Copyable(frag.fields[k])
    ensures Flatten(Search(AttachSchemaNode(schema, c), ["schema", k])) == Engine.Fragment(schema, c).fields[k]
  {
    var frag := Engine.Fragment(schema, c);
    AttachSchemaCopiesKeywords(schema, c, k);
    SearchPlain(schema, Segments(GabsPath(Scope(c), true)));
    SearchPlain(frag, [k]);
    FlattenPlain(frag.fields[k]);
  }

  // ---------------------------------------------------------------------
  // setup: column widths

  /** An element that `elements.<i>.schema.col` can be set on. */
  predicate Stampable(e: Json) {
    e.Obj? && (Search(e, ["schema"]) == Null || Search(e, ["schema"]).Obj?)
  }

  /** The `schema` members of an element, none when it has no schema object. */
  function SchemaFields(e: Json): map<string, Json> {
    if Search(e, ["schema"]).Obj? then Search(e, ["schema"]).fields else map[]
  }

  /**
   * `r` is the element `e` with `schema.col` set to `tag` and nothing else
   * changed, or `e` itself when it cannot hold one.
   */
  predicate ColSet(e: Json, r: Json, tag: string) {
    if !Stampable(e) then r == e
    else
      r.Obj? && r.fields.Keys == e.fields.Keys + {"schema"} &&
      (forall k :: k in e.fields && k != "schema" ==> r.fields[k] == e.fields[k]) &&
      r.fields["schema"] == Obj(SchemaFields(e)["col" := Str(tag)])
  }

  /** Stamping one element sets its `schema.col` and changes nothing else of it. */
  lemma StampChildSetsCol(e: Json, tag: string)
    ensures ColSet(e, StampChild(e, tag), tag)
  {
    if e.Obj? {
      SearchKey(e.fields, "schema", []);
    }
  }

  /** The width a layout of `n` elements gives each of them. */
  function Width(horizontal: bool, n: nat): nat
    requires horizontal ==> n > 0
  {
    if horizontal then 12 / n else 12
  }

  /**
   * Current: a "HorizontalLayout" with n > 0 elements or a
   * "VerticalLayout" gets " column col-<12/n>" or " column col-12" as
   * `schema.col` of every stampable element, nothing else of an element
   * changes, and the number of elements stays; a "HorizontalLayout"
   * without elements panics on the division.
   */
  lemma StampLayoutWidths(c: Json, i: nat)
    requires c.Obj? && "elements" in c.fields && c.fields["elements"].Arr?
    requires Search(c, ["type"]) == Str("HorizontalLayout") || Search(c, ["type"]) == Str("VerticalLayout")
    ensures var a := c.fields["elements"].elems;
            var horizontal := Search(c, ["type"]) == Str("HorizontalLayout");
            (StampNode(Current, c) == Panicked <==> horizontal && |a| == 0) &&
            (StampNode(Current, c).Done? ==>
              var r := StampNode(Current, c).tree;
              !StampNode(Current, c).failed &&
              r.Obj? && r.fields.Keys == c.fields.Keys &&
              (forall k :: k in c.fields && k != "elements" ==> r.fields[k] == c.fields[k]) &&
              Search(r, ["elements"]).Arr? && |Search(r, ["elements"]).elems| == |a| &&
              (forall j :: 0 <= j < |a| ==>
                 if j <= MaxInt then ColSet(a[j], Search(r, ["elements"]).elems[j], Tag(Width(horizontal, |a|)))
                 else Search(r, ["elements"]).elems[j] == a[j]) &&
              (i < |a| && i <= MaxInt && Stampable(a[i]) ==>
                Search(r, ["elements", NatToString(i), "schema", "col"]) == Str(Tag(Width(horizontal, |a|)))))
  {
    var a := c.fields["elements"].elems;
    var r := StampNode(Current, c);
    SearchKey(c.fields, "elements", []);
    if r.Done? {
      var horizontal := Search(c, ["type"]) == Str("HorizontalLayout");
      var tag := Tag(Width(horizontal, |a|));
      assert r.tree == Obj(c.fields["elements" := Arr(StampChildren(a, tag))]);
      SearchKey(r.tree.fields, "elements", []);
      forall j | 0 <= j < |a| && j <= MaxInt ensures ColSet(a[j], Search(r.tree, ["elements"]).elems[j], tag) {
        StampChildSetsCol(a[j], tag);
      }
    }
    if r.Done? && i < |a| && i <= MaxInt && Stampable(a[i]) {
      var horizontal := Search(c, ["type"]) == Str("HorizontalLayout");
      var tag := Tag(Width(horizontal, |a|));
      assert r.tree == Obj(c.fields["elements" := Arr(StampChildren(a, tag))]);
      assert ["elements", NatToString(i), "schema", "col"] == ["elements"] + [NatToString(i), "schema", "col"];
      SearchKey(r.tree.fields, "elements", [NatToString(i), "schema", "col"]);
      StampChildAt(a, tag, i);
    }
  }

  /** Legacy: the walk only reaches "HorizontalLayout" nodes, and every one divides 12 by its count. */
  lemma StampLegacyWidths(c: Json, i: nat)
    requires c.Obj? && "elements" in c.fields && c.fields["elements"].Arr?
    ensures var a := c.fields["elements"].elems;
            (StampNode(Legacy, c) == Panicked <==> |a| == 0) &&
            (StampNode(Legacy, c).Done? ==>
              var r := StampNode(Legacy, c).tree;
              r.Obj? && r.fields.Keys == c.fields.Keys &&
              (forall k :: k in c.fields && k != "elements" ==> r.fields[k] == c.fields[k]) &&
              Search(r, ["elements"]).Arr? && |Search(r, ["elements"]).elems| == |a| &&
              (forall j :: 0 <= j < |a| ==>
                 if j <= MaxInt then ColSet(a[j], Search(r, ["elements"]).elems[j], Tag(12 / |a|))
                 else Search(r, ["elements"]).elems[j] == a[j]) &&
              (i < |a| && i <= MaxInt && Stampable(a[i]) ==>
                Search(r, ["elements", NatToString(i), "schema", "col"]) == Str(Tag(12 / |a|))))
  {
    var a := c.fields["elements"].elems;
    var r := StampNode(Legacy, c);
    SearchKey(c.fields, "elements", []);
    if r.Done? {
      var tag := Tag(12 / |a|);
      assert r.tree == Obj(c.fields["elements" := Arr(StampChildren(a, tag))]);
      SearchKey(r.tree.fields, "elements", []);
      forall j | 0 <= j < |a| && j <= MaxInt ensures ColSet(a[j], Search(r.tree, ["elements"]).elems[j], tag) {
        StampChildSetsCol(a[j], tag);
      }
    }
    if r.Done? && i < |a| && i <= MaxInt && Stampable(a[i]) {
      var horizontal := Search(c, ["type"]) == Str("HorizontalLayout");
      var tag := Tag(12 / |a|);
      assert r.tree == Obj(c.fields["elements" := Arr(StampChildren(a, tag))]);
      assert ["elements", NatToString(i), "schema", "col"] == ["elements"] + [NatToString(i), "schema", "col"];
      SearchKey(r.tree.fields, "elements", [NatToString(i), "schema", "col"]);
      StampChildAt(a, tag, i);
    }
  }

  /** The element at index `i` of a stamped array carries the tag at `schema.col`. */
  lemma StampChildAt(a: seq<Json>, tag: string, i: nat)
    requires i < |a| && i <= MaxInt && Stampable(a[i])
    ensures Search(Arr(StampChildren(a, tag)), [NatToString(i), "schema", "col"]) == Str(tag)
  {
    var e := StampChild(a[i], tag);
    AtoiNatToString(i);
    assert [NatToString(i), "schema", "col"][1..] == ["schema"] + ["col"];
    SearchKey(a[i].fields, "schema", []);
    SearchKey(e.fields, "schema", ["col"]);
    SearchKey(e.fields["schema"].fields, "col", []);
  }

  /** Layouts that are not one of the two exact type strings are left alone ("verticalLayout" included). */
  lemma StampIgnoresOtherTypes(c: Json)
    requires Search(c, ["type"]) != Str("HorizontalLayout") && Search(c, ["type"]) != Str("VerticalLayout")
    ensures StampNode(Current, c) == Done(c, false)
  {
  }

  /** The tags of the repository's tests: two elements side by side, one column. */
  lemma TagExamples()
    ensures Tag(Width(true, 2)) == " column col-6"
    ensures Tag(Width(false, 1)) == " column col-12"
  {
    assert NatToString(6) == "6";
    assert NatToString(1) == "1";
    assert NatToString(12) == NatToString(1) + "2";
  }

  // ---------------------------------------------------------------------
  // BindData: array expansion

  /** SetP two levels down, through an object member that is an object. */
  lemma SetTwo(m: map<string, Json>, a: string, b: string, x: Json)
    requires a in m && m[a].Obj?
    ensures SetP(Obj(m), [a, b], x) == Obj(m[a := Obj(m[a].fields[b := x])])
  {
    var p := [a, b];
    assert p[0] == a && p[1..] == [b] && |p| == 2;
    assert Step(m[a], [b], x, false) == Some(Obj(m[a].fields[b := x]));
    assert Step(Obj(m), p, x, true) == Some(Obj(m[a := Obj(m[a].fields[b := x])]));
  }

  /** Search two levels down, through an object member that is an object. */
  lemma SearchTwo(m: map<string, Json>, a: string, b: string)
    requires a in m && m[a].Obj?
    ensures Search(Obj(m), [a, b]) == if b in m[a].fields then m[a].fields[b] else Null
  {
    SearchKey(m, a, [b]);
    SearchKey(m[a].fields, b, []);
    assert [a, b] == [a] + [b];
  }

  /** The members of the object under `a`: none when `a` is missing, null or not an object. */
  function MembersAt(m: map<string, Json>, a: string): map<string, Json> {
    if a in m && m[a].Obj? then m[a].fields else map[]
  }

  /** The member under `a` is missing, null or an object: SetP can go through it. */
  predicate OpenAt(m: map<string, Json>, a: string) {
    a !in m || m[a] == Null || m[a].Obj?
  }

  /** A word of letters is no index: strconv.Atoi fails on it. */
  lemma AtoiOfWord(s: string)
    requires s != [] && 'a' <= s[0] <= 'z'
    ensures Atoi(s) == None
  {
    assert !IsDigit(s[0]);
  }

  /**
   * The append loop run k >= 1 times at `a.b`, through a member that is
   * missing, null or an object: the member becomes an object holding
   * what was there before (as ArrayAppend sees it) followed by the k
   * copies in index order, and nothing else changes.
   */
  lemma AppendCopiesForm(m: map<string, Json>, a: string, b: string, detail: Json, k: nat)
    requires OpenAt(m, a) && k >= 1
    ensures AppendCopies(Obj(m), [a, b], detail, k) ==
      Obj(m[a := Obj(MembersAt(m, a)[b := Arr(Existing(Search(Obj(m), [a, b])) + Copies(detail, k))])])
  {
    AppendFirst(m, a, b, detail);
    AppendLoop(m, MembersAt(m, a), a, b, Existing(Search(Obj(m), [a, b])), detail, k);
  }

  /** The rounds after the first keep the closed form the first round set up. */
  lemma {:induction false} AppendLoop(m: map<string, Json>, o: map<string, Json>, a: string, b: string, before: seq<Json>, detail: Json, k: nat)
    requires k >= 1
    requires AppendCopies(Obj(m), [a, b], detail, 1) == Obj(m[a := Obj(o[b := Arr(before + Copies(detail, 1))])])
    ensures AppendCopies(Obj(m), [a, b], detail, k) == Obj(m[a := Obj(o[b := Arr(before + Copies(detail, k))])])
  {
    if k > 1 {
      AppendLoop(m, o, a, b, before, detail, k - 1);
      AppendOneMore(m, o, a, b, before, detail, k);
    }
  }

  /** The first round of the append loop, through a member that is missing, null or an object. */
  lemma AppendFirst(m: map<string, Json>, a: string, b: string, detail: Json)
    requires OpenAt(m, a)
    ensures AppendCopies(Obj(m), [a, b], detail, 1) ==
      Obj(m[a := Obj(MembersAt(m, a)[b := Arr(Existing(Search(Obj(m), [a, b])) + Copies(detail, 1))])])
  {
    var before := Existing(Search(Obj(m), [a, b]));
    assert Copies(detail, 1) == [Boxed(Copy(detail, 0))];
    if a in m && m[a].Obj? {
      SetTwo(m, a, b, Arr(before + Copies(detail, 1)));
    } else {
      SearchKey(m, a, [b]);
      assert [a] + [b] == [a, b];
      SetTwoFresh(m, a, b, Arr(before + Copies(detail, 1)));
    }
  }

  /** One more round of the append loop on the closed form of the rounds before it. */
  lemma AppendOneMore(m: map<string, Json>, o: map<string, Json>, a: string, b: string, before: seq<Json>, detail: Json, k: nat)
    requires k >= 1
    ensures var m1 := m[a := Obj(o[b := Arr(before + Copies(detail, k - 1))])];
            ArrayAppend(Obj(m1), [a, b], Boxed(Copy(detail, k - 1)))
              == Obj(m[a := Obj(o[b := Arr(before + Copies(detail, k))])])
  {
    var x := Arr(before + Copies(detail, k - 1));
    var y := Arr(before + Copies(detail, k));
    var m1 := m[a := Obj(o[b := x])];
    SearchTwo(m1, a, b);
    CopiesSnoc(before, detail, k);
    SetTwo(m1, a, b, y);
    assert o[b := x][b := y] == o[b := y];
    assert m1[a := Obj(o[b := y])] == m[a := Obj(o[b := y])];
  }

  /** One more copy extends the copies before it. */
  lemma CopiesSnoc(before: seq<Json>, detail: Json, k: nat)
    requires k >= 1
    ensures before + Copies(detail, k) == before + Copies(detail, k - 1) + [Boxed(Copy(detail, k - 1))]
  {
    assert Copies(detail, k) == Copies(detail, k - 1) + [Boxed(Copy(detail, k - 1))];
  }

  /**
   * Through a member that is neither missing, null nor an object, every
   * ArrayAppend fails: the append loop leaves the control as it is.
   */
  lemma {:induction false} AppendBlocked(m: map<string, Json>, a: string, b: string, detail: Json, k: nat)
    requires !OpenAt(m, a) && Atoi(b) == None && b != "-"
    ensures AppendCopies(Obj(m), [a, b], detail, k) == Obj(m)
  {
    if k > 0 {
      AppendBlocked(m, a, b, detail, k - 1);
      var p := [a, b];
      assert p[0] == a && p[1..] == [b] && |p| == 2;
      var x := Arr(Existing(Search(Obj(m), p)) + [Boxed(Copy(detail, k - 1))]);
      assert Step(m[a], [b], x, false) == None;
    }
  }

  /** A control whose `options` member is an object, and that object. */
  predicate HasOptions(c: Json) {
    c.Obj? && "options" in c.fields && c.fields["options"].Obj?
  }

  /** The `options` member of a control: null when it has none. */
  function Options(c: Json): Json {
    Search(c, ["options"])
  }

  /**
   * The `options` member the expansion leaves on a control whose scope
   * names n data elements, from the `options` it had (null for none);
   * None when the control stays as it is. Current appends the copies to
   * `details` and deletes `detail`; Legacy appends them to `detail` and
   * removes its first element. A missing or null `options` becomes an
   * object holding the copies of the missing template, which are null;
   * an `options` that is not an object makes every step fail.
   */
  function ExpandedOptions(variant: Variant, opts: Json, n: nat): Option<Json> {
    var base := if opts.Obj? then opts.fields else map[];
    var detail := Search(opts, ["detail"]);
    if !opts.Obj? && opts != Null then None
    else
      match variant
      case Current =>
        if n == 0 then (if opts == Null then None else Some(Obj(base - {"detail"})))
        else Some(Obj(base["details" := Arr(Existing(Search(opts, ["details"])) + Copies(detail, n))] - {"detail"}))
      case Legacy =>
        if n > 0 then Some(Obj(base["detail" := Arr((Existing(detail) + Copies(detail, n))[1..])]))
        else if detail.Arr? && detail.elems != [] then Some(Obj(base["detail" := Arr(detail.elems[1..])]))
        else None
  }

  /** The control the expansion leaves: only its `options` member can change. */
  function ExpandedNode(data: Json, variant: Variant, c: Json): Json {
    match ArrayCount(data, Segments(GabsPath(Scope(c), false)))
    case None => c
    case Some(n) =>
      match ExpandedOptions(variant, Options(c), n)
      case None => c
      case Some(o) => if c.Obj? then Obj(c.fields["options" := o]) else c
  }

  /** The two-step searches under `options` are searches in the `options` member. */
  lemma SearchOptions(m: map<string, Json>, b: string)
    ensures Search(Obj(m), ["options", b]) == Search(Options(Obj(m)), [b])
  {
    SearchKey(m, "options", [b]);
    SearchKey(m, "options", []);
    assert ["options"] + [b] == ["options", b];
    assert ["options"] + [] == ["options"];
  }

  /** The expansion on a control changes only its `options` member, as ExpandedOptions says. */
  lemma ExpandByOptions(data: Json, variant: Variant, c: Json)
    requires c.Obj?
    ensures ExpandNode(data, variant, c) == Done(ExpandedNode(data, variant, c), NoScope(c))
  {
    match ArrayCount(data, Segments(GabsPath(Scope(c), false)))
    case None =>
    case Some(n) =>
      SearchOptions(c.fields, "detail");
      SearchOptions(c.fields, "details");
      SearchKey(c.fields, "options", []);
      assert ["options"] + [] == ["options"];
      if variant == Current {
        ExpandCurrentByOptions(c, n);
      } else {
        ExpandLegacyByOptions(c, n);
      }
  }

  lemma ExpandCurrentByOptions(c: Json, n: nat)
    requires c.Obj?
    ensures var after := Delete(AppendCopies(c, ["options", "details"], Search(c, ["options", "detail"]), n), ["options", "detail"]);
            match ExpandedOptions(Current, Options(c), n)
            case None => after == c
            case Some(o) => after == Obj(c.fields["options" := o])
  {
    var m := c.fields;
    var detail := Search(c, ["options", "detail"]);
    SearchOptions(m, "detail");
    SearchOptions(m, "details");
    SearchKey(m, "options", []);
    assert ["options"] + [] == ["options"];
    var p := ["options", "detail"];
    assert p[..|p| - 1] == ["options"] && p[|p| - 1] == "detail";
    if !OpenAt(m, "options") {
      AtoiOfWord("details");
      AtoiOfWord("detail");
      AppendBlocked(m, "options", "details", detail, n);
    } else if n == 0 {
      if HasOptions(c) {
        DeleteTwo(m, "options", "detail");
      }
    } else {
      CurrentAppends(m, detail, n);
    }
  }

  /** Current with n > 0 through an open `options`: the copies go to `details`, `detail` goes. */
  lemma CurrentAppends(m: map<string, Json>, detail: Json, n: nat)
    requires OpenAt(m, "options") && n > 0
    ensures var o1 := MembersAt(m, "options")["details" := Arr(Existing(Search(Obj(m), ["options", "details"])) + Copies(detail, n))];
            Delete(AppendCopies(Obj(m), ["options", "details"], detail, n), ["options", "detail"]) == Obj(m["options" := Obj(o1 - {"detail"})])
  {
    var o1 := MembersAt(m, "options")["details" := Arr(Existing(Search(Obj(m), ["options", "details"])) + Copies(detail, n))];
    AppendCopiesForm(m, "options", "details", detail, n);
    DeleteTwo(m["options" := Obj(o1)], "options", "detail");
    assert m["options" := Obj(o1)]["options" := Obj(o1 - {"detail"})] == m["options" := Obj(o1 - {"detail"})];
  }

  lemma ExpandLegacyByOptions(c: Json, n: nat)
    requires c.Obj?
    ensures var after := ArrayRemoveFirst(AppendCopies(c, ["options", "detail"], Search(c, ["options", "detail"]), n), ["options", "detail"]);
            match ExpandedOptions(Legacy, Options(c), n)
            case None => after == c
            case Some(o) => after == Obj(c.fields["options" := o])
  {
    var m := c.fields;
    var detail := Search(c, ["options", "detail"]);
    SearchOptions(m, "detail");
    SearchKey(m, "options", []);
    assert ["options"] + [] == ["options"];
    if !OpenAt(m, "options") {
      AtoiOfWord("detail");
      AppendBlocked(m, "options", "detail", detail, n);
    } else if n == 0 {
      if detail.Arr? && detail.elems != [] {
        SetTwo(m, "options", "detail", Arr(detail.elems[1..]));
      }
    } else {
      LegacyAppends(m, n);
    }
  }

  /** Legacy with n > 0 through an open `options`: `detail` holds its old elements and the copies, less the first. */
  lemma LegacyAppends(m: map<string, Json>, n: nat)
    requires OpenAt(m, "options") && n > 0
    ensures var detail := Search(Obj(m), ["options", "detail"]);
            var items := Existing(detail) + Copies(detail, n);
            ArrayRemoveFirst(AppendCopies(Obj(m), ["options", "detail"], detail, n), ["options", "detail"])
              == Obj(m["options" := Obj(MembersAt(m, "options")["detail" := Arr(items[1..])])])
  {
    var detail := Search(Obj(m), ["options", "detail"]);
    var base := MembersAt(m, "options");
    var items := Existing(detail) + Copies(detail, n);
    AppendCopiesForm(m, "options", "detail", detail, n);
    assert |Copies(detail, n)| == n;
    RemoveFirstTwo(m, base, "options", "detail", items);
  }

  /** ArrayRemoveFirst two levels down, on an object member holding a non-empty array. */
  lemma RemoveFirstTwo(m: map<string, Json>, o: map<string, Json>, a: string, b: string, items: seq<Json>)
    requires items != []
    ensures ArrayRemoveFirst(Obj(m[a := Obj(o[b := Arr(items)])]), [a, b]) == Obj(m[a := Obj(o[b := Arr(items[1..])])])
  {
    var m1 := m[a := Obj(o[b := Arr(items)])];
    SearchTwo(m1, a, b);
    SetTwo(m1, a, b, Arr(items[1..]));
    assert o[b := Arr(items)][b := Arr(items[1..])] == o[b := Arr(items[1..])];
    assert m1[a := Obj(o[b := Arr(items[1..])])] == m[a := Obj(o[b := Arr(items[1..])])];
  }

  /** The copies of a missing template: n nulls, each stored as a container. */
  function NullCopies(n: nat): seq<Json> {
    seq(n, _ => Boxed(Null))
  }

  lemma CopiesOfNull(n: nat)
    ensures Copies(Null, n) == NullCopies(n)
  {
    forall i | 0 <= i < n ensures Copies(Null, n)[i] == Boxed(Null) {
      assert Copy(Null, i) == Rewrite(Null, ItemsStep, NatToString(i) + "/");
    }
  }

  /**
   * Current: when the data at the control's path is an array of n
   * elements, `options.details` ends with the n copies of
   * `options.detail` in data order, copy i being the template with every
   * "items/" turned into "<i>/"; `options.detail` is deleted (also for
   * n == 0); nothing else changes. A control without `options` (or with a
   * null one) gets `options.details` holding n null copies when n > 0;
   * an `options` that is not an object stays. No array there: the
   * control is left as it is.
   */
  lemma ExpandCurrent(data: Json, c: Json)
    requires c.Obj?
    ensures var r := ExpandNode(data, Current, c);
            var opts := Options(c);
            r.Done? && r.failed == NoScope(c) &&
            match ArrayCount(data, Segments(GabsPath(Scope(c), false)))
            case None => r.tree == c
            case Some(n) =>
              (HasOptions(c) ==> r.tree == ExpandedCurrent(c, n)) &&
              (opts == Null ==> r.tree == if n == 0 then c else Obj(c.fields["options" := Obj(map["details" := Arr(NullCopies(n))])])) &&
              (!opts.Obj? && opts != Null ==> r.tree == c)
  {
    ExpandByOptions(data, Current, c);
    match ArrayCount(data, Segments(GabsPath(Scope(c), false)))
    case None =>
    case Some(n) =>
      CurrentOptionsCases(c, n, ExpandedNode(data, Current, c));
  }

  /** The cases of the Current expansion with n data elements, read off ExpandedOptions. */
  lemma CurrentOptionsCases(c: Json, n: nat, after: Json)
    requires c.Obj?
    requires after == match ExpandedOptions(Current, Options(c), n)
                      case None => c
                      case Some(o) => Obj(c.fields["options" := o])
    ensures var opts := Options(c);
            (HasOptions(c) ==> after == ExpandedCurrent(c, n)) &&
            (opts == Null ==> after == if n == 0 then c else Obj(c.fields["options" := Obj(map["details" := Arr(NullCopies(n))])])) &&
            (!opts.Obj? && opts != Null ==> after == c)
  {
    SearchKey(c.fields, "options", []);
    assert ["options"] + [] == ["options"];
    if HasOptions(c) {
      SearchOptions(c.fields, "detail");
      SearchOptions(c.fields, "details");
    } else if Options(c) == Null && n > 0 {
      CurrentNullOptions(n);
    }
  }

  /** Current on a missing or null `options`: n null copies under `details`. */
  lemma CurrentNullOptions(n: nat)
    requires n > 0
    ensures ExpandedOptions(Current, Null, n) == Some(Obj(map["details" := Arr(NullCopies(n))]))
  {
    CopiesOfNull(n);
    assert Search(Null, ["details"]) == Null && Search(Null, ["detail"]) == Null;
    assert Existing(Null) + Copies(Null, n) == NullCopies(n);
    var o: map<string, Json> := map[];
    assert o["details" := Arr(NullCopies(n))] - {"detail"} == map["details" := Arr(NullCopies(n))];
  }

  /** The control after the Current expansion with n data elements, in closed form. */
  function ExpandedCurrent(c: Json, n: nat): Json
    requires HasOptions(c)
  {
    var o := c.fields["options"].fields;
    var detail := Search(c, ["options", "detail"]);
    var o1 := if n == 0 then o else o["details" := Arr(Existing(Search(c, ["options", "details"])) + Copies(detail, n))];
    Obj(c.fields["options" := Obj(o1 - {"detail"})])
  }

  /** Delete two levels down, through an object member that is an object. */
  lemma DeleteTwo(m: map<string, Json>, a: string, b: string)
    requires a in m && m[a].Obj?
    ensures Delete(Obj(m), [a, b]) == Obj(m[a := Obj(m[a].fields - {b})])
  {
    var p := [a, b];
    assert p[..|p| - 1] == [a] && p[|p| - 1] == b;
    SearchKey(m, a, []);
    assert [a] + [] == [a];
    SetField(m, a, Obj(m[a].fields - {b}));
    if b !in m[a].fields {
      assert m[a].fields - {b} == m[a].fields;
      assert Obj(m[a].fields) == m[a];
      assert m[a := m[a]] == m;
    }
  }

  /**
   * Legacy: the copies are appended to `options.detail` itself and its
   * first element removed; for a template that is an object this leaves
   * exactly the n copies in data order. With n == 0 an array template
   * still loses its first element, and any other template stays. A
   * control without `options` (or with a null one) gets
   * `options.detail` holding n - 1 null copies when n > 0; an `options`
   * that is not an object stays.
   */
  lemma ExpandLegacy(data: Json, c: Json)
    requires c.Obj?
    ensures var detail := Search(c, ["options", "detail"]);
            var opts := Options(c);
            var r := ExpandNode(data, Legacy, c);
            r.Done? && r.failed == NoScope(c) &&
            match ArrayCount(data, Segments(GabsPath(Scope(c), false)))
            case None => r.tree == c
            case Some(n) =>
              (n == 0 && !(detail.Arr? && detail.elems != []) ==> r.tree == c) &&
              (n == 0 && HasOptions(c) && detail.Arr? && detail.elems != [] ==> r.tree == WithDetail(c, detail.elems[1..])) &&
              (n > 0 && HasOptions(c) ==> r.tree == WithDetail(c, (Existing(detail) + Copies(detail, n))[1..])) &&
              (n > 0 && HasOptions(c) && detail.Obj? ==> r.tree == WithDetail(c, Copies(detail, n))) &&
              (n > 0 && opts == Null ==> r.tree == Obj(c.fields["options" := Obj(map["detail" := Arr(NullCopies(n - 1))])])) &&
              (!opts.Obj? && opts != Null ==> r.tree == c)
  {
    ExpandByOptions(data, Legacy, c);
    match ArrayCount(data, Segments(GabsPath(Scope(c), false)))
    case None =>
    case Some(n) =>
      LegacyOptionsCases(c, n, ExpandedNode(data, Legacy, c));
  }

  /** The cases of the Legacy expansion with n data elements, read off ExpandedOptions. */
  lemma LegacyOptionsCases(c: Json, n: nat, after: Json)
    requires c.Obj?
    requires after == match ExpandedOptions(Legacy, Options(c), n)
                      case None => c
                      case Some(o) => Obj(c.fields["options" := o])
    ensures var detail := Search(c, ["options", "detail"]);
            var opts := Options(c);
            (n == 0 && !(detail.Arr? && detail.elems != []) ==> after == c) &&
            (n == 0 && HasOptions(c) && detail.Arr? && detail.elems != [] ==> after == WithDetail(c, detail.elems[1..])) &&
            (n > 0 && HasOptions(c) ==> after == WithDetail(c, (Existing(detail) + Copies(detail, n))[1..])) &&
            (n > 0 && HasOptions(c) && detail.Obj? ==> after == WithDetail(c, Copies(detail, n))) &&
            (n > 0 && opts == Null ==> after == Obj(c.fields["options" := Obj(map["detail" := Arr(NullCopies(n - 1))])])) &&
            (!opts.Obj? && opts != Null ==> after == c)
  {
    var detail := Search(c, ["options", "detail"]);
    SearchKey(c.fields, "options", []);
    assert ["options"] + [] == ["options"];
    SearchOptions(c.fields, "detail");
    if n > 0 {
      if Options(c) == Null {
        LegacyNullOptions(n);
      } else if detail.Obj? {
        assert (Existing(detail) + Copies(detail, n))[1..] == Copies(detail, n);
      }
    }
  }

  /** Legacy on a missing or null `options`: n - 1 null copies under `detail`. */
  lemma LegacyNullOptions(n: nat)
    requires n > 0
    ensures ExpandedOptions(Legacy, Null, n) == Some(Obj(map["detail" := Arr(NullCopies(n - 1))]))
  {
    CopiesOfNull(n);
    assert NullCopies(n)[1..] == NullCopies(n - 1);
    assert Search(Null, ["detail"]) == Null && Existing(Null) + Copies(Null, n) == NullCopies(n);
    var o: map<string, Json> := map[];
    assert o["detail" := Arr(NullCopies(n - 1))] == map["detail" := Arr(NullCopies(n - 1))];
  }

  /** The control with `options.detail` replaced by the array `items`. */
  function WithDetail(c: Json, items: seq<Json>): Json
    requires HasOptions(c)
  {
    Obj(c.fields["options" := Obj(c.fields["options"].fields["detail" := Arr(items)])])
  }

  /** After the re-parse every copy is the rewritten template itself. */
  lemma CopyAfterReparse(detail: Json, i: nat)
    ensures Flatten(Boxed(Copy(detail, i))) == Copy(detail, i)
  {
    FlattenPlain(Copy(detail, i));
  }

  /**
   * A string with one "items/" step, as the scopes inside a detail
   * template are written, gets the index in its place.
   */
  lemma CopyRewritesScope(pre: string, post: string, i: nat)
    requires ItemsStep !in Substrings(pre) && ItemsStep !in Substrings(post)
    ensures Rewrite(Str(pre + ItemsStep + post), ItemsStep, NatToString(i) + "/")
         == Str(pre + NatToString(i) + "/" + post)
  {
    var to := NatToString(i) + "/";
    ItemsStartsOnce(pre, post);
    assert pre + ItemsStep + post == pre + (ItemsStep + post);
    ReplaceAllSkip(pre, ItemsStep + post, ItemsStep, to);
    ReplaceAllHit(ItemsStep, post, to);
    forall j | 0 <= j ensures !OccursAt(post, ItemsStep, j) {
      assert j + |ItemsStep| <= |post| ==> post[j..j + |ItemsStep|] in Substrings(post);
    }
    ReplaceAllAbsent(post, ItemsStep, to);
  }

  /**
   * No "items/" starts inside `pre`: one lying wholly in it is excluded,
   * and one reaching past its end would need an 'i' where "items/" has
   * none, at the second to sixth of its characters.
   */
  lemma ItemsStartsOnce(pre: string, post: string)
    requires ItemsStep !in Substrings(pre)
    ensures forall j :: 0 <= j < |pre| ==> !OccursAt(pre + (ItemsStep + post), ItemsStep, j)
  {
    var s := pre + (ItemsStep + post);
    forall j | 0 <= j < |pre| ensures !OccursAt(s, ItemsStep, j) {
      if j + |ItemsStep| <= |pre| {
        assert s[j..j + |ItemsStep|] == pre[j..j + |ItemsStep|];
        assert pre[j..j + |ItemsStep|] in Substrings(pre);
      } else if j + |ItemsStep| <= |s| {
        var d := |pre| - j;
        assert s[j..j + |ItemsStep|][d] == s[|pre|] == 'i';
        assert ItemsStep[d] != 'i';
      }
    }
  }

  /** The substrings of `s`. */
  function Substrings(s: string): set<string> {
    set i, j | 0 <= i <= j <= |s| :: s[i..j]
  }

  // ---------------------------------------------------------------------
  // BindData: array-select scope rewrite

  /**
   * A control in an array-select detail gets as its scope the part of its
   * data path after the first "items."; without an "items." the source
   * panics. A control that reaches the rewrite always had a string scope.
   */
  lemma StripScope(c: Json)
    requires c.Obj?
    ensures var path := GabsPath(Scope(c), false);
            var r := StripNode(c);
            (r.Panicked? <==> forall i :: 0 <= i ==> !OccursAt(path, ItemsDot, i)) &&
            (r.Done? ==> !r.failed && AfterFirst(path, ItemsDot).Some? &&
                         r.tree == Obj(c.fields["scope" := Str(AfterFirst(path, ItemsDot).value)]))
  {
    var path := GabsPath(Scope(c), false);
    if StripNode(c).Done? {
      SetField(c.fields, "scope", Str(AfterFirst(path, ItemsDot).value));
    }
  }

  /** The repository's example: "comments.items.message" becomes "message". */
  lemma StripExample()
    ensures AfterFirst("comments." + ItemsDot + "message", ItemsDot) == Some("message")
  {
    AfterFirstAt("comments.", ItemsDot, "message");
  }

  // ---------------------------------------------------------------------
  // BindData: data onto the remaining controls

  /**
   * Current: a control whose schema type is neither "array" nor
   * "array-select" gets the value at its scope as `data` when that value
   * is not null; otherwise no `data` member is added. The error flag is
   * raised exactly for an unskipped control without a string scope.
   */
  lemma AttachDataCurrent(data: Json, c: Json)
    requires c.Obj?
    ensures var v := Path(data, GabsPath(Scope(c), false));
            var r := AttachDataNode(data, Current, c);
            r.Done? && (r.failed <==> !Skipped(Current, c) && NoScope(c)) &&
            (Skipped(Current, c) || v == Null ==> r.tree == c) &&
            (!Skipped(Current, c) && v != Null ==> r.tree == Obj(c.fields["data" := v]))
  {
    SetField(c.fields, "data", Path(data, GabsPath(Scope(c), false)));
  }

  /** Legacy: every control whose schema type is not "array" gets `data`, even a null one. */
  lemma AttachDataLegacy(data: Json, c: Json)
    requires c.Obj?
    ensures var v := Path(data, GabsPath(Scope(c), false));
            var r := AttachDataNode(data, Legacy, c);
            r.Done? && (r.failed <==> !Skipped(Legacy, c) && NoScope(c)) &&
            (Skipped(Legacy, c) ==> r.tree == c) &&
            (!Skipped(Legacy, c) ==> r.tree == Obj(c.fields["data" := v]))
    ensures Skipped(Legacy, c) <==> Search(c, ["schema", "type"]) == Str("array")
  {
    SetField(c.fields, "data", Path(data, GabsPath(Scope(c), false)));
  }

  // ---------------------------------------------------------------------
  // BindData: array-select grouping

  /** Every data element has all its label parts. */
  predicate AllLabelled(props: seq<Json>, elems: seq<Json>) {
    forall i :: 0 <= i < |elems| ==> LabelParts(props, elems[i]).Some?
  }

  /** The label of a data element: its label parts joined by single spaces. */
  function Label(props: seq<Json>, e: Json): string
    requires LabelParts(props, e).Some?
  {
    Join(LabelParts(props, e).value, " ")
  }

  /** The grouping panics exactly when some element lacks a label part (a failed type assertion). */
  lemma {:induction false} GroupedPanics(c: Json, props: seq<Json>, elems: seq<Json>)
    ensures Grouped(c, props, elems).Some? <==> AllLabelled(props, elems)
  {
    if elems != [] {
      var n := |elems|;
      var init := elems[..n - 1];
      var last := elems[n - 1];
      GroupedPanics(c, props, init);
      if !AllLabelled(props, init) {
        assert Grouped(c, props, init).None?;
        var i :| 0 <= i < |init| && LabelParts(props, init[i]).None?;
        assert init[i] == elems[i];
      } else if LabelParts(props, last).None? {
        assert Grouped(c, props, elems).None?;
      } else {
        assert Grouped(c, props, elems).Some?;
        forall i | 0 <= i < n ensures LabelParts(props, elems[i]).Some? {
          if i < n - 1 {
            assert init[i] == elems[i];
          }
        }
      }
    }
  }

  /** The labels of the data elements, in index order. */
  function LabelsOf(props: seq<Json>, elems: seq<Json>): (r: seq<string>)
    requires AllLabelled(props, elems)
    ensures |r| == |elems| && forall i :: 0 <= i < |elems| ==> r[i] == Label(props, elems[i])
  {
    seq(|elems|, i requires 0 <= i < |elems| => Label(props, elems[i]))
  }

  /** The data elements as SetP stores them. */
  function BoxAll(elems: seq<Json>): (r: seq<Json>)
    ensures |r| == |elems| && forall i :: 0 <= i < |elems| ==> r[i] == Boxed(elems[i])
  {
    seq(|elems|, i requires 0 <= i < |elems| => Boxed(elems[i]))
  }

  /** `keys[i]` set to `vals[i]` for each index in turn, on top of `d0`. */
  function Assign(d0: map<string, Json>, keys: seq<string>, vals: seq<Json>): map<string, Json>
    requires |keys| == |vals|
  {
    if keys == [] then d0
    else Assign(d0, keys[..|keys| - 1], vals[..|vals| - 1])[keys[|keys| - 1] := vals[|vals| - 1]]
  }

  /**
   * A key is in the result exactly when it was in `d0` or is one of the
   * keys, and its value is the one given with its LAST occurrence: a
   * later assignment overwrites an earlier one.
   */
  lemma {:induction false} AssignLookup(d0: map<string, Json>, keys: seq<string>, vals: seq<Json>, l: string)
    requires |keys| == |vals|
    ensures l in Assign(d0, keys, vals) <==> l in d0 || l in keys
    ensures forall j :: (0 <= j < |keys| && keys[j] == l && l !in keys[j + 1..]) ==>
      Assign(d0, keys, vals)[l] == vals[j]
    ensures l in d0 && l !in keys ==> Assign(d0, keys, vals)[l] == d0[l]
  {
    if keys != [] {
      var n := |keys|;
      var ks := keys[..n - 1];
      var vs := vals[..n - 1];
      AssignLookup(d0, ks, vs, l);
      assert keys == ks + [keys[n - 1]];
      forall j | 0 <= j < n && keys[j] == l && l !in keys[j + 1..]
        ensures Assign(d0, keys, vals)[l] == vals[j]
      {
        if j < n - 1 {
          assert keys[n - 1] in keys[j + 1..];
          assert ks[j] == l && ks[j + 1..] == keys[j + 1..n - 1];
          assert l !in ks[j + 1..];
        }
      }
    }
  }

  /** The `data` member a control already has, as the grouping builds on it. */
  function DataBefore(c: Json): map<string, Json> {
    if c.Obj? && "data" in c.fields && c.fields["data"].Obj? then c.fields["data"].fields else map[]
  }

  /** A control whose `data` member can take the groups: missing, null or an object. */
  predicate DataOpen(c: Json) {
    c.Obj? && (Search(c, ["data"]) == Null || Search(c, ["data"]).Obj?)
  }

  /**
   * With labels free of '.', the grouping of a non-empty array sets
   * `data` to the map from each label to the last element carrying it
   * (on top of what `data` held) and changes nothing else.
   */
  lemma {:induction false} GroupedForm(c: Json, props: seq<Json>, elems: seq<Json>)
    requires DataOpen(c) && AllLabelled(props, elems) && elems != []
    requires forall i :: 0 <= i < |elems| ==> '.' !in Label(props, elems[i])
    ensures Grouped(c, props, elems) ==
      Some(Obj(c.fields["data" := Obj(Assign(DataBefore(c), LabelsOf(props, elems), BoxAll(elems)))]))
  {
    var n := |elems|;
    LabelledPrefix(props, elems);
    if n > 1 {
      GroupedForm(c, props, elems[..n - 1]);
    }
    GroupedLast(c, props, elems);
  }

  /** What the prefix of all but the last element inherits. */
  lemma LabelledPrefix(props: seq<Json>, elems: seq<Json>)
    requires AllLabelled(props, elems) && elems != []
    requires forall i :: 0 <= i < |elems| ==> '.' !in Label(props, elems[i])
    ensures var init := elems[..|elems| - 1];
      AllLabelled(props, init) &&
      (forall i :: 0 <= i < |init| ==> '.' !in Label(props, init[i])) &&
      LabelsOf(props, elems)[..|elems| - 1] == LabelsOf(props, init) &&
      BoxAll(elems)[..|elems| - 1] == BoxAll(init)
  {
    var n := |elems|;
    var init := elems[..n - 1];
    forall i | 0 <= i < n - 1 ensures LabelParts(props, init[i]).Some? && '.' !in Label(props, init[i]) {
      assert init[i] == elems[i];
    }
    assert LabelsOf(props, elems)[..n - 1] == LabelsOf(props, init);
    assert BoxAll(elems)[..n - 1] == BoxAll(init);
  }

  /** The last round, given the form the grouping of the prefix takes. */
  lemma GroupedLast(c: Json, props: seq<Json>, elems: seq<Json>)
    requires DataOpen(c) && AllLabelled(props, elems) && elems != []
    requires forall i :: 0 <= i < |elems| ==> '.' !in Label(props, elems[i])
    requires var init := elems[..|elems| - 1];
      AllLabelled(props, init) &&
      LabelsOf(props, elems)[..|elems| - 1] == LabelsOf(props, init) &&
      BoxAll(elems)[..|elems| - 1] == BoxAll(init) &&
      (init != [] ==>
        Grouped(c, props, init) ==
          Some(Obj(c.fields["data" := Obj(Assign(DataBefore(c), LabelsOf(props, init), BoxAll(init)))])))
    ensures Grouped(c, props, elems) ==
      Some(Obj(c.fields["data" := Obj(Assign(DataBefore(c), LabelsOf(props, elems), BoxAll(elems)))]))
  {
    var n := |elems|;
    var init := elems[..n - 1];
    var last := elems[n - 1];
    var l := Label(props, last);
    GroupedStep(c, props, elems);
    var a := Assign(DataBefore(c), LabelsOf(props, init), BoxAll(init));
    assert Assign(DataBefore(c), LabelsOf(props, elems), BoxAll(elems)) == a[l := Boxed(last)];
    if init == [] {
      SetDataFirst(c, l, Boxed(last));
    } else {
      SetDataOnto(c, a, l, Boxed(last));
    }
  }

  /** Setting `data.<l>` in a control whose `data` is missing, null or an object. */
  lemma SetDataFirst(c: Json, l: string, x: Json)
    requires DataOpen(c)
    ensures SetP(c, ["data", l], x) == Obj(c.fields["data" := Obj(DataBefore(c)[l := x])])
  {
    SearchKey(c.fields, "data", []);
    assert [("data")] + [] == ["data"];
    SetData(c.fields, DataBefore(c), l, x);
  }

  /** Setting `data.<l>` once `data` is the object `a`. */
  lemma SetDataOnto(c: Json, a: map<string, Json>, l: string, x: Json)
    requires c.Obj?
    ensures SetP(Obj(c.fields["data" := Obj(a)]), ["data", l], x) == Obj(c.fields["data" := Obj(a[l := x])])
  {
    var m := c.fields["data" := Obj(a)];
    SetData(m, a, l, x);
    assert m["data" := Obj(a[l := x])] == c.fields["data" := Obj(a[l := x])];
  }

  /** Setting `data.<l>` in an object whose `data` is missing, null or the object `d0`. */
  lemma SetData(m: map<string, Json>, d0: map<string, Json>, l: string, x: Json)
    requires (("data" !in m || m["data"] == Null) && d0 == map[]) || ("data" in m && m["data"] == Obj(d0))
    ensures SetP(Obj(m), ["data", l], x) == Obj(m["data" := Obj(d0[l := x])])
  {
    if "data" in m && m["data"] == Obj(d0) {
      SetTwo(m, "data", l, x);
    } else {
      SetTwoFresh(m, "data", l, x);
      assert map[l := x] == d0[l := x];
    }
  }

  /** The last round of the grouping, on a prefix that had all its labels. */
  lemma GroupedStep(c: Json, props: seq<Json>, elems: seq<Json>)
    requires AllLabelled(props, elems) && elems != []
    requires '.' !in Label(props, elems[|elems| - 1])
    ensures var last := elems[|elems| - 1];
            Grouped(c, props, elems[..|elems| - 1]).Some? &&
            Grouped(c, props, elems) ==
              Some(SetP(Grouped(c, props, elems[..|elems| - 1]).value, ["data", Label(props, last)], Boxed(last)))
  {
    var n := |elems|;
    var init := elems[..n - 1];
    GroupedPanics(c, props, init);
    assert AllLabelled(props, init) by {
      forall i | 0 <= i < n - 1 ensures LabelParts(props, init[i]).Some? {
        assert init[i] == elems[i];
      }
    }
    DataSegments(Label(props, elems[n - 1]));
  }

  /** The gabs segments of "data." + a label without dots. */
  lemma DataSegments(l: string)
    requires '.' !in l
    ensures Segments("data." + l) == ["data", l]
  {
    assert "data." + l == "data" + ['.'] + l;
    SplitAtFirst("data", '.', l);
    SplitNoSep(l, '.');
  }

  /** SetP two levels down, through an object member that is missing or null. */
  lemma SetTwoFresh(m: map<string, Json>, a: string, b: string, x: Json)
    requires a !in m || m[a] == Null
    ensures SetP(Obj(m), [a, b], x) == Obj(m[a := Obj(map[b := x])])
  {
    var p := [a, b];
    assert p[0] == a && p[1..] == [b] && |p| == 2;
    assert Step(Obj(map[]), [b], x, false) == Some(Obj(map[b := x]));
    assert Step(Obj(m), p, x, true) == Some(Obj(m[a := Obj(map[b := x])]));
  }

  /** With one label property the label is that property's value. */
  lemma SingleLabelProp(prop: string, e: Json)
    requires Labels(Str(prop), e)
    ensures LabelParts([Str(prop)], e).Some?
    ensures Str(Label([Str(prop)], e)) == Path(e, GabsPath(prop, false))
  {
  }
}

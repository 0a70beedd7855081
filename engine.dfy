/**
 * The binding engine: the `iterateObj` walk and the operations that the
 * `setup` and `BindData` methods of both packages hand to it, stated as
 * functions on the ui-schema tree. The imperative code that computes the
 * same results lives in module Walker.
 *
 * Every operation gets the node the walk is visiting and returns the node
 * as the operation leaves it. In the source the node is a map that the
 * operation changes in place, so its parent sees the change; here the
 * walk puts the returned node back in its place.
 */
module Engine {
  import opened Wrappers
  import opened Strings
  import opened JsonTree
  import opened Paths

  /**
   * The `value` argument of iterateObj: `nil` accepts any present value,
   * anything else must be reflect.DeepEqual to the value found.
   */
  datatype Match = Present | Equals(value: Json)

  /** internal/form (Current) or the older package gojsonforms (Legacy). */
  datatype Variant = Current | Legacy

  /** The operation closures the two packages pass to iterateObj. */
  datatype Pass =
    | AttachSchema(schema: Json)          // copy schema keywords onto a Control
    | StampLayouts(variant: Variant)      // column width on the elements of a layout
    | ExpandArray(data: Json, variant: Variant)  // one copy of the detail per data element
    | GroupSelect(data: Json)             // array-select: data keyed by label
    | StripDetailScope                    // array-select: scope after "items."
    | AttachData(data: Json, variant: Variant)   // value of the scope onto a Control

  /**
   * What a walk or an operation ends with. `failed` is the Go `err` that
   * setup and BindData return: only the "no scope" errors reach it, and
   * only whether one happened is modelled. Panicked stands for a Go
   * run-time panic (integer division by zero, index out of range, failed
   * type assertion); OutOfFuel for a walk deeper than its fuel, which the
   * source would run without bound.
   */
  datatype Outcome = Done(tree: Json, failed: bool) | Panicked | OutOfFuel

  /**
   * iterateObj's test: the value at `key` is not nil and matches `want`.
   * The key is given as its gabs segments: "type" is ["type"],
   * "schema.type" is ["schema", "type"].
   */
  predicate Matches(t: Json, key: seq<string>, want: Match) {
    var v := Search(t, key);
    v != Null && (want.Present? || v == want.value)
  }

  // ---------------------------------------------------------------------
  // The scope of a control

  /** `scope, ok := c.Path("scope").Data().(string)`: the empty string when not ok. */
  function Scope(c: Json): string {
    match Search(c, ["scope"])
    case Str(s) => s
    case _ => ""
  }

  /** The condition under which the closures record a "no scope" error. */
  predicate NoScope(c: Json) {
    !Search(c, ["scope"]).Str?
  }

  // ---------------------------------------------------------------------
  // setup, first pass: schema keywords onto every Control

  /**
   * A schema keyword is copied when its value has no children
   * (`len(v.Children()) == 0`) or is an array (`v.ArrayCount()` succeeds):
   * everything but a non-empty object.
   */
  predicate Copyable(v: Json) {
    !(v.Obj? && v.fields != map[])
  }

  /** The keywords copied from a schema fragment, each stored as the container ChildrenMap handed out. */
  function Keywords(fragment: Json): (kw: map<string, Json>)
    ensures forall k :: k in kw <==> fragment.Obj? && k in fragment.fields && Copyable(fragment.fields[k])
    ensures forall k :: k in kw ==> kw[k] == Boxed(fragment.fields[k])
  {
    if fragment.Obj? then
      map k | k in fragment.fields && Copyable(fragment.fields[k]) :: Boxed(fragment.fields[k])
    else map[]
  }

  /**
   * `c.SetP(v, "schema." + k)` for every keyword: a missing or null
   * `schema` member becomes an object holding the keywords, an object
   * gains them, anything else is left alone.
   */
  function WithKeywords(c: Json, kw: map<string, Json>): Json {
    if kw == map[] || !c.Obj? then c
    else
      var cur := if "schema" in c.fields then c.fields["schema"] else Null;
      if cur == Null then Obj(c.fields["schema" := Obj(kw)])
      else if cur.Obj? then Obj(c.fields["schema" := Obj(cur.fields + kw)])
      else c
  }

  /** The schema fragment a control's scope names, with its "properties" steps kept. */
  function Fragment(schema: Json, c: Json): Json {
    Path(schema, GabsPath(Scope(c), true))
  }

  function AttachSchemaNode(schema: Json, c: Json): Json {
    WithKeywords(c, Keywords(Fragment(schema, c)))
  }

  // ---------------------------------------------------------------------
  // setup, second pass: column widths

  /** `fmt.Sprintf(" column col-%d", width)`. */
  function Tag(width: nat): string {
    " column col-" + NatToString(width)
  }

  /**
   * `c.SetP(tag, "elements.<i>.schema.col")` on one element: an object
   * element gets `schema.col`, its `schema` created when missing or null;
   * any other element makes Set fail and stays as it is.
   */
  function StampChild(e: Json, tag: string): Json {
    if !e.Obj? then e
    else
      var s := if "schema" in e.fields && e.fields["schema"] != Null then e.fields["schema"] else Obj(map[]);
      if s.Obj? then Obj(e.fields["schema" := Obj(s.fields["col" := Str(tag)])]) else e
  }

  /**
   * Every element stamped. An index beyond what strconv.Atoi can read
   * back would make the path fail; it is kept for faithfulness.
   */
  function StampChildren(a: seq<Json>, tag: string): (r: seq<Json>)
    ensures |r| == |a|
    ensures forall i :: 0 <= i < |a| ==> r[i] == (if i <= MaxInt then StampChild(a[i], tag) else a[i])
  {
    seq(|a|, i requires 0 <= i < |a| => if i <= MaxInt then StampChild(a[i], tag) else a[i])
  }

  /**
   * The width pass on one node. Current: only a node whose type is the
   * string "HorizontalLayout" or "VerticalLayout" is stamped, with 12/n
   * or 12. Legacy: the walk only visits "HorizontalLayout" nodes and the
   * width is always 12/n. No `elements` array: nothing happens; an empty
   * one under a division: the division by zero panics.
   */
  function StampNode(variant: Variant, c: Json): Outcome {
    var ty := Search(c, ["type"]);
    if variant == Current && ty != Str("HorizontalLayout") && ty != Str("VerticalLayout") then Done(c, false)
    else
      var divide := variant == Legacy || ty == Str("HorizontalLayout");
      match ArrayCount(c, ["elements"])
      case None => Done(c, false)
      case Some(n) =>
        if divide && n == 0 then Panicked
        else
          var width := if divide then 12 / n else 12;
          Done(Obj(c.fields["elements" := Arr(StampChildren(c.fields["elements"].elems, Tag(width)))]), false)
  }

  // ---------------------------------------------------------------------
  // BindData, first pass: array expansion

  /** Every string in the tree with `from` replaced by `to`. */
  function Rewrite(t: Json, from: string, to: string): (r: Json)
    requires from != []
    ensures Plain(t) ==> Plain(r)
    ensures t.Arr? <==> r.Arr?
    ensures t.Obj? <==> r.Obj?
  {
    match t
    case Str(s) => Str(ReplaceAll(s, from, to))
    case Arr(a) => Arr(seq(|a|, i requires 0 <= i < |a| => Rewrite(a[i], from, to)))
    case Obj(m) => Obj(map k | k in m :: Rewrite(m[k], from, to))
    case _ => t
  }

  /**
   * Copy `i` of a detail template: serialised, every "items/" in the text
   * replaced by "<i>/", parsed again. "items/" can only occur inside the
   * strings of the serialised text, so this is the replacement inside
   * every string value (object keys are not rewritten; see README).
   */
  const ItemsStep: string := "items/"

  function Copy(detail: Json, i: nat): Json {
    Rewrite(Flatten(detail), ItemsStep, NatToString(i) + "/")
  }

  /** The `n` copies the expansion produces, each stored as the container gabs.ParseJSON returned. */
  function Copies(detail: Json, n: nat): (r: seq<Json>)
    ensures |r| == n && forall i :: 0 <= i < n ==> r[i] == Boxed(Copy(detail, i))
  {
    seq(n, i requires 0 <= i < n => Boxed(Copy(detail, i)))
  }

  /** The state after the first `k` rounds of the loop appending copies at `path`. */
  function AppendCopies(c: Json, path: seq<string>, detail: Json, k: nat): Json {
    if k == 0 then c
    else ArrayAppend(AppendCopies(c, path, detail, k - 1), path, Boxed(Copy(detail, k - 1)))
  }

  /**
   * The expansion on one array control: as many copies of
   * `options.detail` as the data array at the scope has elements.
   * Current appends them to `options.details` and deletes
   * `options.detail`; Legacy appends them to `options.detail` itself and
   * then removes its first element. No array in the data: unchanged.
   */
  function ExpandNode(data: Json, variant: Variant, c: Json): Outcome {
    match ArrayCount(data, Segments(GabsPath(Scope(c), false)))
    case None => Done(c, NoScope(c))
    case Some(n) =>
      var detail := Search(c, ["options", "detail"]);
      match variant
      case Current =>
        Done(Delete(AppendCopies(c, ["options", "details"], detail, n), ["options", "detail"]), NoScope(c))
      case Legacy =>
        Done(ArrayRemoveFirst(AppendCopies(c, ["options", "detail"], detail, n), ["options", "detail"]), NoScope(c))
  }

  // ---------------------------------------------------------------------
  // BindData, array-select pass

  /**
   * iterateArray's view of a container: the elements of the array at
   * `path`, or none when there is no array there (the error is only
   * logged).
   */
  function Items(t: Json, path: seq<string>): (r: seq<Json>)
    ensures Search(t, path).Arr? ==> r == Search(t, path).elems
    ensures !Search(t, path).Arr? ==> r == []
  {
    match Search(t, path)
    case Arr(a) => a
    case _ => []
  }

  /** The value one label property picks out of a data element. */
  function LabelValue(prop: Json, elem: Json): Json {
    if prop.Str? then Path(elem, GabsPath(prop.s, false)) else Null
  }

  /** Both type assertions on one label property succeed. */
  predicate Labels(prop: Json, elem: Json) {
    prop.Str? && LabelValue(prop, elem).Str?
  }

  /**
   * The label parts of one data element: for each label property (which
   * must be a string), the value at that path inside the element (which
   * must be a string too). None: a type assertion panics.
   */
  function LabelParts(props: seq<Json>, elem: Json): (r: Option<seq<string>>)
    ensures r.Some? <==> forall j :: 0 <= j < |props| ==> Labels(props[j], elem)
    ensures r.Some? ==> |r.value| == |props|
    ensures r.Some? ==> forall j :: 0 <= j < |props| ==> Str(r.value[j]) == LabelValue(props[j], elem)
  {
    if props == [] then Some([])
    else if !Labels(props[0], elem) then None
    else
      match LabelParts(props[1..], elem)
      case None =>
        assert !(forall j :: 0 <= j < |props[1..]| ==> Labels(props[1..][j], elem));
        None
      case Some(parts) =>
        Some([LabelValue(props[0], elem).s] + parts)
  }

  /** The label props of a control: `options.elementLabelProps`. */
  function LabelProps(c: Json): seq<Json> {
    Items(c, ["options", "elementLabelProps"])
  }

  /** `c.SetP(dataElement, "data." + label)` for the first `k` data elements, in order. */
  function Grouped(c: Json, props: seq<Json>, elems: seq<Json>): Option<Json>
  {
    if elems == [] then Some(c)
    else
      match Grouped(c, props, elems[..|elems| - 1])
      case None => None
      case Some(c1) =>
        var e := elems[|elems| - 1];
        match LabelParts(props, e)
        case None => None
        case Some(parts) => Some(SetP(c1, Segments("data." + Join(parts, " ")), Boxed(e)))
  }

  /** Where the detail template's controls live. */
  const DetailElements: seq<string> := ["options", "detail", "elements"]

  /**
   * The ranking that lets an operation run a walk of its own: the
   * array-select operation walks its detail elements with the lower-ranked
   * scope-stripping operation.
   */
  function Rank(pass: Pass): nat {
    if pass.GroupSelect? then 1 else 0
  }

  /**
   * The array-select scope rewrite on one control: the data path after
   * its first "items.". None: there is none, and `SplitN(...)[1]` panics.
   */
  const ItemsDot: string := "items."

  function StripNode(c: Json): Outcome {
    match AfterFirst(GabsPath(Scope(c), false), ItemsDot)
    case None => Panicked
    case Some(rest) => Done(SetP(c, ["scope"], Str(rest)), NoScope(c))
  }

  // ---------------------------------------------------------------------
  // BindData, last pass: data onto every other Control

  /** The schema types whose controls the data pass skips. */
  predicate Skipped(variant: Variant, c: Json) {
    var st := Search(c, ["schema", "type"]);
    st == Str("array") || (variant == Current && st == Str("array-select"))
  }

  /**
   * Current: the value at the scope is stored as `data` when it is not
   * null. Legacy: it is stored even when null.
   */
  function AttachDataNode(data: Json, variant: Variant, c: Json): Outcome {
    if Skipped(variant, c) then Done(c, false)
    else
      var v := Path(data, GabsPath(Scope(c), false));
      if variant == Current && v == Null then Done(c, NoScope(c))
      else Done(SetP(c, ["data"], v), NoScope(c))
  }

  // ---------------------------------------------------------------------
  // The walk

  /** The operation of a pass applied to one matching node. */
  function Operate(pass: Pass, c: Json, fuel: nat): Outcome
    decreases Rank(pass), fuel, 1
  {
    match pass
    case AttachSchema(schema) => Done(AttachSchemaNode(schema, c), NoScope(c))
    case StampLayouts(variant) => StampNode(variant, c)
    case ExpandArray(data, variant) => ExpandNode(data, variant, c)
    case GroupSelect(data) =>
      var elems := Items(data, Segments(GabsPath(Scope(c), false)));
      (match Grouped(c, LabelProps(c), elems)
       case None => Panicked
       case Some(c1) =>
         var inner := Search(c1, DetailElements);
         (match Walk(inner, ["type"], Equals(Str("Control")), StripDetailScope, fuel)
          case Done(w, f) =>
            Done(if inner.Obj? || inner.Arr? then SetP(c1, DetailElements, w) else c1, NoScope(c) || f)
          case other => other))
    case StripDetailScope => StripNode(c)
    case AttachData(data, variant) => AttachDataNode(data, variant, c)
  }

  /**
   * iterateObj: operate on the node when it matches, then walk the
   * children of the node as the operation left it, array elements and
   * object members alike. A panic or an exhausted fuel anywhere ends the
   * walk; otherwise it reports whether any operation failed.
   */
  function Walk(t: Json, key: seq<string>, want: Match, pass: Pass, fuel: nat): Outcome
    decreases Rank(pass), fuel, 2
  {
    if fuel == 0 then OutOfFuel
    else
      var o := if Matches(t, key, want) then Operate(pass, t, fuel) else Done(t, false);
      match o
      case Done(t1, f1) =>
        (match WalkChildren(t1, key, want, pass, fuel - 1)
         case Done(t2, f2) => Done(t2, f1 || f2)
         case other => other)
      case other => other
  }

  /** The walk of every child of a node (`container.Children()`). */
  function WalkChildren(t: Json, key: seq<string>, want: Match, pass: Pass, fuel: nat): Outcome
    decreases Rank(pass), fuel, 4
  {
    match t
    case Arr(a) => WalkElements(a, key, want, pass, fuel)
    case Obj(m) => Gather(MemberWalks(m, key, want, pass, fuel))
    case _ => Done(t, false)
  }

  /** The walk of every member of an object, under the member's name. */
  function MemberWalks(m: map<string, Json>, key: seq<string>, want: Match, pass: Pass, fuel: nat): (r: map<string, Outcome>)
    ensures r.Keys == m.Keys
    decreases Rank(pass), fuel, 3
  {
    map k | k in m :: Walk(m[k], key, want, pass, fuel)
  }

  /**
   * The walk of the elements of an array, in index order: an exhausted
   * fuel outranks a panic, and otherwise the elements are replaced by
   * their walked versions.
   */
  function WalkElements(a: seq<Json>, key: seq<string>, want: Match, pass: Pass, fuel: nat): (r: Outcome)
    ensures r.Done? ==> r.tree.Arr? && |r.tree.elems| == |a|
    decreases Rank(pass), fuel, 3, |a|
  {
    if a == [] then Done(Arr([]), false)
    else Append(WalkElements(a[..|a| - 1], key, want, pass, fuel), Walk(a[|a| - 1], key, want, pass, fuel))
  }

  /** The walk of the elements before one more element, then that element's walk. */
  function Append(init: Outcome, last: Outcome): (r: Outcome)
    requires init.Done? ==> init.tree.Arr?
    ensures r.Done? ==> init.Done? && r.tree.Arr? && |r.tree.elems| == |init.tree.elems| + 1
  {
    if init.OutOfFuel? || last.OutOfFuel? then OutOfFuel
    else if init.Panicked? || last.Panicked? then Panicked
    else Done(Arr(init.tree.elems + [last.tree]), init.failed || last.failed)
  }

  /**
   * The walks of the members of an object put together. The members are
   * walked independently, so the order Go's map iteration picks does not
   * matter: an exhausted fuel outranks a panic; otherwise every member is
   * replaced by its walked version and any failure is reported.
   */
  function Gather(rs: map<string, Outcome>): (r: Outcome)
    ensures r.Done? ==> r.tree.Obj? && r.tree.fields.Keys == rs.Keys
  {
    if OutOfFuel in rs.Values then OutOfFuel
    else if Panicked in rs.Values then Panicked
    else Done(Obj(map k | k in rs :: if rs[k].Done? then rs[k].tree else Null),
              exists k :: k in rs && rs[k].Done? && rs[k].failed)
  }
}

/**
 * JSON values and the gabs container operations the binding engine uses
 * (github.com/Jeffail/gabs/v2): dot-path lookup (Path/Search), Set/SetP,
 * DeleteP, ArrayAppendP, ArrayRemoveP, ArrayCountP and ArrayElementP.
 *
 * A gabs container wraps a Go value that is a map, a slice or a scalar;
 * here that value is a `Json`, and each mutating operation returns the
 * updated value instead of changing shared maps in place.
 *
 * gabs stores whatever value it is handed. When the engine hands it a
 * `*gabs.Container` (a schema keyword, a parsed copy, a data element),
 * the tree holds that container as an opaque leaf: `Boxed`. Paths do not
 * lead through it, the walk does not visit inside it, reflect.DeepEqual
 * compares what it points to, and serialising the tree writes its data.
 */
module JsonTree {
  import opened Wrappers
  import opened Strings

  /** A parsed JSON document. Numbers are integers in this model. */
  datatype Json =
    | Null
    | Bool(b: bool)
    | Num(n: int)
    | Str(s: string)
    | Arr(elems: seq<Json>)
    | Obj(fields: map<string, Json>)
    | Boxed(inner: Json)

  /** The tree has no stored container in it: what gabs.ParseJSON produces. */
  predicate Plain(t: Json) {
    match t
    case Boxed(_) => false
    case Arr(a) => forall i :: 0 <= i < |a| ==> Plain(a[i])
    case Obj(m) => forall k :: k in m ==> Plain(m[k])
    case _ => true
  }

  /**
   * Serialising with json.Marshal and parsing again with gabs.ParseJSON:
   * every stored container is replaced by its data.
   */
  function Flatten(t: Json): (r: Json)
    ensures Plain(r)
  {
    match t
    case Boxed(v) => Flatten(v)
    case Arr(a) => Arr(seq(|a|, i requires 0 <= i < |a| => Flatten(a[i])))
    case Obj(m) => Obj(map k | k in m :: Flatten(m[k]))
    case _ => t
  }

  /** Re-parsing an already plain tree gives the same tree back. */
  lemma {:induction false} FlattenPlain(t: Json)
    requires Plain(t)
    ensures Flatten(t) == t
  {
    match t
    case Arr(a) =>
      forall i | 0 <= i < |a| ensures Flatten(a[i]) == a[i] {
        FlattenPlain(a[i]);
      }
      assert Flatten(t).elems == a;
    case Obj(m) =>
      forall k | k in m ensures Flatten(m[k]) == m[k] {
        FlattenPlain(m[k]);
      }
      assert Flatten(t).fields == m;
    case _ =>
  }

  /** Every value found in a plain tree is plain. */
  lemma {:induction false} SearchPlain(t: Json, p: seq<string>)
    requires Plain(t)
    ensures Plain(Search(t, p))
    decreases |p|
  {
    if p != [] {
      match t
      case Obj(m) =>
        if p[0] in m {
          SearchPlain(m[p[0]], p[1..]);
        }
      case Arr(a) =>
        if Atoi(p[0]).Some? && 0 <= Atoi(p[0]).value < |a| {
          SearchPlain(a[Atoi(p[0]).value], p[1..]);
        }
      case _ =>
    }
  }

  /** Re-parsing twice is re-parsing once. */
  lemma FlattenIdempotent(t: Json)
    ensures Flatten(Flatten(t)) == Flatten(t)
  {
    FlattenPlain(Flatten(t));
  }

  /**
   * The nodes the walk visits, each with at most `fuel` levels below it:
   * arrays and objects have children, everything else (a stored container
   * included) is a leaf.
   */
  predicate Fits(t: Json, fuel: nat) {
    fuel > 0 &&
    match t
    case Arr(a) => forall i :: 0 <= i < |a| ==> Fits(a[i], fuel - 1)
    case Obj(m) => forall k :: k in m ==> Fits(m[k], fuel - 1)
    case _ => true
  }

  /** gabs.DotPathToSlice without the ~0/~1 escapes: the path split at every '.'. */
  function Segments(path: string): (r: seq<string>)
    ensures |r| >= 1
  {
    Split(path, '.')
  }

  /**
   * Container.Search: follow `p` through objects by key and through arrays
   * by a segment that strconv.Atoi reads as an index in range. A path
   * that cannot be followed yields Null, which is also what a JSON null
   * yields: `Data() == nil` cannot tell the two apart.
   */
  function Search(t: Json, p: seq<string>): Json
    decreases |p|
  {
    if p == [] then t
    else match t
      case Obj(m) => if p[0] in m then Search(m[p[0]], p[1..]) else Null
      case Arr(a) =>
        (match Atoi(p[0])
         case Some(i) => if 0 <= i < |a| then Search(a[i], p[1..]) else Null
         case None => Null)
      case _ => Null
  }

  /** Container.Path(path).Data(). */
  function Path(t: Json, path: string): Json {
    Search(t, Segments(path))
  }

  /** A path without a '.' is the one key it names. */
  lemma PathOfName(t: Json, k: string)
    requires '.' !in k
    ensures Path(t, k) == Search(t, [k])
  {
    SplitNoSep(k, '.');
  }

  /**
   * Container.Set from the second segment on. In an object a missing or
   * null intermediate becomes a fresh object; in an array a segment must
   * be an index in range naming a non-null element, or "-" (append) when
   * the array is not the root. Any other step fails (None) before
   * anything is changed.
   */
  function Step(t: Json, p: seq<string>, v: Json, atRoot: bool): Option<Json>
    requires p != []
    decreases |p|
  {
    var seg := p[0];
    match t
    case Obj(m) =>
      if |p| == 1 then Some(Obj(m[seg := v]))
      else
        var child := if seg in m && m[seg] != Null then m[seg] else Obj(map[]);
        (match Step(child, p[1..], v, false)
         case Some(c) => Some(Obj(m[seg := c]))
         case None => None)
    case Arr(a) =>
      if seg == "-" then
        if atRoot then None
        else if |p| == 1 then Some(Arr(a + [v]))
        else
          (match Step(Obj(map[]), p[1..], v, false)
           case Some(c) => Some(Arr(a + [c]))
           case None => None)
      else
        (match Atoi(seg)
         case None => None
         case Some(i) =>
           if i < 0 || i >= |a| then None
           else if |p| == 1 then Some(Arr(a[i := v]))
           else if a[i] == Null then None
           else
             (match Step(a[i], p[1..], v, false)
              case Some(c) => Some(Arr(a[i := c]))
              case None => None))
    case _ => None
  }

  /** Container.Set: a null root becomes an object first; an empty path replaces the root. */
  function Set(t: Json, p: seq<string>, v: Json): Option<Json> {
    if p == [] then Some(v)
    else Step(if t == Null then Obj(map[]) else t, p, v, true)
  }

  /** Container.SetP with its error ignored, as every caller in the engine does. */
  function SetP(t: Json, p: seq<string>, v: Json): Json {
    match Set(t, p, v)
    case Some(r) => r
    case None => t
  }

  /** Container.Delete with its error ignored. */
  function Delete(t: Json, p: seq<string>): Json {
    if t == Null || p == [] then t
    else
      var last := p[|p| - 1];
      var prefix := p[..|p| - 1];
      var parent := if |p| > 1 then Search(t, prefix) else t;
      match parent
      case Obj(m) =>
        if last in m then Replace(t, prefix, Obj(m - {last})) else t
      case Arr(a) =>
        if |p| < 2 then t
        else
          (match Atoi(last)
           case Some(i) => if 0 <= i < |a| then Replace(t, prefix, Arr(a[..i] + a[i + 1..])) else t
           case None => t)
      case _ => t
  }

  /** Puts `x` where `prefix` leads (the root itself for an empty prefix). */
  function Replace(t: Json, prefix: seq<string>, x: Json): Json {
    if prefix == [] then x else SetP(t, prefix, x)
  }

  /**
   * Container.ArrayAppend with its error ignored: an existing non-array
   * value becomes the first element of the new array.
   */
  function ArrayAppend(t: Json, p: seq<string>, v: Json): Json {
    SetP(t, p, Arr(Existing(Search(t, p)) + [v]))
  }

  /** What ArrayAppend appends to: an array's elements, any other value alone, nothing for null. */
  function Existing(cur: Json): seq<Json> {
    if cur.Arr? then cur.elems else if cur != Null then [cur] else []
  }

  /** Container.ArrayRemove(0, ...) with its error ignored. */
  function ArrayRemoveFirst(t: Json, p: seq<string>): Json {
    var cur := Search(t, p);
    if cur.Arr? && |cur.elems| > 0 then SetP(t, p, Arr(cur.elems[1..])) else t
  }

  /** Container.ArrayCount: the length of the array at `p`, or an error. */
  function ArrayCount(t: Json, p: seq<string>): (r: Option<nat>)
    ensures r.Some? <==> Search(t, p).Arr?
    ensures r.Some? ==> r.value == |Search(t, p).elems|
  {
    match Search(t, p)
    case Arr(a) => Some(|a|)
    case _ => None
  }

  // ---------------------------------------------------------------------
  // Properties of Set

  /** Whether Set succeeds depends on the path and the tree, never on the value stored. */
  lemma {:induction false} StepSuccessIgnoresValue(t: Json, p: seq<string>, v: Json, w: Json, atRoot: bool)
    requires p != []
    ensures Step(t, p, v, atRoot).Some? == Step(t, p, w, atRoot).Some?
    decreases |p|
  {
    if |p| > 1 {
      match t
      case Obj(m) =>
        var child := if p[0] in m && m[p[0]] != Null then m[p[0]] else Obj(map[]);
        StepSuccessIgnoresValue(child, p[1..], v, w, false);
      case Arr(a) =>
        if p[0] == "-" {
          StepSuccessIgnoresValue(Obj(map[]), p[1..], v, w, false);
        } else if Atoi(p[0]).Some? {
          var i := Atoi(p[0]).value;
          if 0 <= i < |a| && a[i] != Null {
            StepSuccessIgnoresValue(a[i], p[1..], v, w, false);
          }
        }
      case _ =>
    }
  }

  /** Reading back a successful Set: Search along the same path finds the value. */
  lemma {:induction false} StepThenSearch(t: Json, p: seq<string>, v: Json, atRoot: bool)
    requires p != [] && "-" !in p
    requires Step(t, p, v, atRoot).Some?
    ensures Search(Step(t, p, v, atRoot).value, p) == v
    decreases |p|
  {
    var r := Step(t, p, v, atRoot).value;
    match t
    case Obj(m) =>
      if |p| > 1 {
        var child := if p[0] in m && m[p[0]] != Null then m[p[0]] else Obj(map[]);
        assert "-" !in p[1..] by { assert forall x :: x in p[1..] ==> x in p; }
        StepThenSearch(child, p[1..], v, false);
      }
    case Arr(a) =>
      assert p[0] in p;
      var i := Atoi(p[0]).value;
      if |p| > 1 {
        assert "-" !in p[1..] by { assert forall x :: x in p[1..] ==> x in p; }
        StepThenSearch(a[i], p[1..], v, false);
      }
  }

  /** Set and Search are partners: whatever Set stored is what Search returns. */
  lemma SetThenSearch(t: Json, p: seq<string>, v: Json)
    requires "-" !in p
    requires Set(t, p, v).Some?
    ensures Search(Set(t, p, v).value, p) == v
  {
    if p != [] {
      StepThenSearch(if t == Null then Obj(map[]) else t, p, v, true);
    }
  }

  /** A second Set on the same path overwrites the first completely. */
  lemma {:induction false} StepTwice(t: Json, p: seq<string>, v: Json, w: Json, atRoot: bool)
    requires p != [] && "-" !in p
    requires Step(t, p, v, atRoot).Some?
    ensures Step(Step(t, p, v, atRoot).value, p, w, atRoot) == Step(t, p, w, atRoot)
    decreases |p|
  {
    assert p[0] in p;
    if |p| > 1 {
      assert "-" !in p[1..] by { assert forall x :: x in p[1..] ==> x in p; }
    }
    match t
    case Obj(m) =>
      if |p| > 1 {
        var child := if p[0] in m && m[p[0]] != Null then m[p[0]] else Obj(map[]);
        StepTwice(child, p[1..], v, w, false);
        StepTwiceObj(m, p, v, w, atRoot);
      } else {
        assert m[p[0] := v][p[0] := w] == m[p[0] := w];
      }
    case Arr(a) =>
      var i := Atoi(p[0]).value;
      if |p| > 1 {
        StepTwice(a[i], p[1..], v, w, false);
        StepTwiceArr(a, i, p, v, w, atRoot);
      } else {
        assert a[i := v][i := w] == a[i := w];
      }
  }

  /** One object level of StepTwice, given the result one level down. */
  lemma StepTwiceObj(m: map<string, Json>, p: seq<string>, v: Json, w: Json, atRoot: bool)
    requires |p| > 1
    requires var child := if p[0] in m && m[p[0]] != Null then m[p[0]] else Obj(map[]);
      Step(child, p[1..], v, false).Some? &&
      Step(Step(child, p[1..], v, false).value, p[1..], w, false) == Step(child, p[1..], w, false)
    ensures Step(Obj(m), p, v, atRoot).Some?
    ensures Step(Step(Obj(m), p, v, atRoot).value, p, w, atRoot) == Step(Obj(m), p, w, atRoot)
  {
    var child := if p[0] in m && m[p[0]] != Null then m[p[0]] else Obj(map[]);
    var c := Step(child, p[1..], v, false).value;
    StepNotNull(child, p[1..], v, false);
    var m' := m[p[0] := c];
    assert Step(Obj(m), p, v, atRoot) == Some(Obj(m'));
    assert p[0] in m' && m'[p[0]] == c;
    match Step(child, p[1..], w, false)
    case None =>
    case Some(d) =>
      assert m'[p[0] := d] == m[p[0] := d];
  }

  /** One array level of StepTwice, given the result one level down. */
  lemma StepTwiceArr(a: seq<Json>, i: int, p: seq<string>, v: Json, w: Json, atRoot: bool)
    requires |p| > 1 && p[0] != "-" && Atoi(p[0]) == Some(i) && 0 <= i < |a| && a[i] != Null
    requires Step(a[i], p[1..], v, false).Some?
    requires Step(Step(a[i], p[1..], v, false).value, p[1..], w, false) == Step(a[i], p[1..], w, false)
    ensures Step(Arr(a), p, v, atRoot).Some?
    ensures Step(Step(Arr(a), p, v, atRoot).value, p, w, atRoot) == Step(Arr(a), p, w, atRoot)
  {
    var c := Step(a[i], p[1..], v, false).value;
    StepNotNull(a[i], p[1..], v, false);
    assert a[i := c][i] == c;
    if Step(a[i], p[1..], w, false).Some? {
      var d := Step(a[i], p[1..], w, false).value;
      assert a[i := c][i := d] == a[i := d];
    }
  }

  /** Step never produces a null container. */
  lemma StepNotNull(t: Json, p: seq<string>, v: Json, atRoot: bool)
    requires p != [] && Step(t, p, v, atRoot).Some?
    ensures Step(t, p, v, atRoot).value != Null
  {
  }

  lemma SetPTwice(t: Json, p: seq<string>, v: Json, w: Json)
    requires "-" !in p
    ensures SetP(SetP(t, p, v), p, w) == SetP(t, p, w)
  {
    if p == [] {
    } else {
      var t0 := if t == Null then Obj(map[]) else t;
      StepSuccessIgnoresValue(t0, p, v, w, true);
      if Step(t0, p, v, true).Some? {
        StepNotNull(t0, p, v, true);
        StepTwice(t0, p, v, w, true);
      }
    }
  }

  /** On an object, Set only touches the entry named by the first segment. */
  lemma SetObjFrame(m: map<string, Json>, p: seq<string>, v: Json)
    requires p != [] && Set(Obj(m), p, v).Some?
    ensures Set(Obj(m), p, v).value.Obj?
    ensures Set(Obj(m), p, v).value.fields.Keys == m.Keys + {p[0]}
    ensures forall k :: k in m && k != p[0] ==> Set(Obj(m), p, v).value.fields[k] == m[k]
  {
  }

  /** A one-segment Set on an object is a plain map update. */
  lemma SetField(m: map<string, Json>, k: string, v: Json)
    ensures Set(Obj(m), [k], v) == Some(Obj(m[k := v]))
  {
  }
}

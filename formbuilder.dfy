/**
 * formbuilder.go: a submitted form turned into nested Go maps, one map
 * level per '/'-separated step of each key, with the "properties" steps of
 * a schema path skipped. A Go map is an object member map here; nested
 * maps are values, which is exact because every nested map the loop
 * builds is created by it and reachable from one place only.
 */
module FormBuilder {
  import opened Wrappers
  import opened Strings
  import opened JsonTree
  import opened Submission

  const Properties: string := "properties"

  /** The path with one leading "properties" segment dropped. */
  function Stripped(path: seq<string>): (r: seq<string>)
    ensures path != [] && path[0] == Properties ==> r == path[1..]
    ensures path == [] || path[0] != Properties ==> r == path
  {
    if path != [] && path[0] == Properties then path[1..] else path
  }

  /**
   * setNestedKey: the value stored under the stripped path, missing levels
   * created as empty maps and existing ones reused. None: a Go panic, from
   * `path[0]` on a path that is (or becomes) empty, or from the map type
   * assertion on an intermediate value that is not a map.
   */
  function SetNestedKey(data: map<string, Json>, path: seq<string>, value: Json): (r: Option<map<string, Json>>)
    ensures r.Some? ==> Stripped(path) != [] && r.value.Keys == data.Keys + {Stripped(path)[0]}
    ensures r.Some? ==> forall k :: k in data && k != Stripped(path)[0] ==> r.value[k] == data[k]
    decreases |path|
  {
    if path == [] then None
    else
      var p := Stripped(path);
      if |p| == 1 then Some(data[p[0] := value])
      else if p == [] then None
      else
        var child := if p[0] in data then data[p[0]] else Obj(map[]);
        if !child.Obj? then None
        else
          match SetNestedKey(child.fields, p[1..], value)
          case None => None
          case Some(m) => Some(data[p[0] := Obj(m)])
  }

  /** The keys setNestedKey follows: one "properties" dropped at every level. */
  function KeyPath(path: seq<string>): (r: seq<string>)
    decreases |path|
  {
    var p := Stripped(path);
    if p == [] then []
    else if |p| == 1 then p
    else [p[0]] + KeyPath(p[1..])
  }

  /** The value under a path of keys through nested maps, if every step is there. */
  function Lookup(m: map<string, Json>, keys: seq<string>): Option<Json>
    requires keys != []
    decreases |keys|
  {
    if keys[0] !in m then None
    else if |keys| == 1 then Some(m[keys[0]])
    else if m[keys[0]].Obj? then Lookup(m[keys[0]].fields, keys[1..])
    else None
  }

  /** After a successful set, the stripped path leads to the value. */
  lemma {:induction false} SetThenLookup(data: map<string, Json>, path: seq<string>, value: Json)
    requires SetNestedKey(data, path, value).Some?
    ensures KeyPath(path) != []
    ensures Lookup(SetNestedKey(data, path, value).value, KeyPath(path)) == Some(value)
    decreases |path|
  {
    var p := Stripped(path);
    if |p| > 1 {
      var child := if p[0] in data then data[p[0]] else Obj(map[]);
      SetThenLookup(child.fields, p[1..], value);
    }
  }

  /**
   * Nothing off the path changes: a key path that leaves the stripped path
   * at some step finds after the set what it found before.
   */
  lemma {:induction false} SetLeavesOthers(data: map<string, Json>, path: seq<string>, value: Json, q: seq<string>, j: nat)
    requires SetNestedKey(data, path, value).Some?
    requires j < |q| && j < |KeyPath(path)| && q[..j] == KeyPath(path)[..j] && q[j] != KeyPath(path)[j]
    ensures Lookup(SetNestedKey(data, path, value).value, q) == Lookup(data, q)
    decreases |path|
  {
    var p := Stripped(path);
    if j == 0 {
      KeyPathHead(path);
    } else {
      KeyPathStep(path);
      TailAgrees(q, KeyPath(path), j);
      var child := if p[0] in data then data[p[0]] else Obj(map[]);
      SetLeavesOthers(child.fields, p[1..], value, q[1..], j - 1);
    }
  }

  lemma KeyPathHead(path: seq<string>)
    requires KeyPath(path) != []
    ensures Stripped(path) != [] && KeyPath(path)[0] == Stripped(path)[0]
  {
  }

  lemma KeyPathStep(path: seq<string>)
    requires |KeyPath(path)| > 1
    ensures |Stripped(path)| > 1
    ensures KeyPath(path) == [Stripped(path)[0]] + KeyPath(Stripped(path)[1..])
  {
  }

  /** Two key paths that part at step j > 0 share their first key and part one step earlier after it. */
  lemma TailAgrees(q: seq<string>, kp: seq<string>, j: nat)
    requires 0 < j < |q| && j < |kp| && q[..j] == kp[..j] && q[j] != kp[j]
    ensures q[0] == kp[0] && q[1..][..j - 1] == kp[1..][..j - 1] && q[1..][j - 1] != kp[1..][j - 1]
  {
    assert q[0] == q[..j][0];
    assert q[1..][..j - 1] == q[..j][1..];
    assert kp[1..][..j - 1] == kp[..j][1..];
  }

  /**
   * findElement: the map the keys lead to, one nested map per key. None:
   * a step whose value is missing or not a map, where the type assertion
   * panics.
   */
  function FindElement(path: seq<string>, s: map<string, Json>): (r: Option<map<string, Json>>)
    ensures path == [] ==> r == Some(s)
    decreases |path|
  {
    if path == [] then Some(s)
    else if path[0] in s && s[path[0]].Obj? then FindElement(path[1..], s[path[0]].fields)
    else None
  }

  /** findElement on a non-empty path is a lookup that ends on a map. */
  lemma {:induction false} FindElementIsLookup(path: seq<string>, s: map<string, Json>)
    requires path != []
    ensures FindElement(path, s).Some? <==> Lookup(s, path).Some? && Lookup(s, path).value.Obj?
    ensures FindElement(path, s).Some? ==> Obj(FindElement(path, s).value) == Lookup(s, path).value
    decreases |path|
  {
    if path[0] in s && s[path[0]].Obj? && |path| > 1 {
      FindElementIsLookup(path[1..], s[path[0]].fields);
    }
  }

  /** Descending along `a + b` is descending along `a`, then along `b`. */
  lemma {:induction false} FindElementSplits(a: seq<string>, b: seq<string>, s: map<string, Json>)
    ensures FindElement(a + b, s) ==
      match FindElement(a, s) case None => None case Some(t) => FindElement(b, t)
    decreases |a|
  {
    if a == [] {
      assert a + b == b;
    } else {
      assert (a + b)[0] == a[0] && (a + b)[1..] == a[1..] + b;
      if a[0] in s && s[a[0]].Obj? {
        FindElementSplits(a[1..], b, s[a[0]].fields);
      }
    }
  }

  // ---------------------------------------------------------------------
  // ReadForm

  const HashSlash: string := "#/"

  /** The keys of a submitted key: "#/" trimmed once, then split on '/'. */
  function KeysOf(key: string): (r: seq<string>)
    ensures |r| >= 1
    ensures Join(r, "/") == TrimPrefix(key, HashSlash)
    ensures forall i :: 0 <= i < |r| ==> '/' !in r[i]
  {
    JoinSplit(TrimPrefix(key, HashSlash), '/');
    Split(TrimPrefix(key, HashSlash), '/')
  }

  /**
   * ReadForm, for the order Go's map iteration picks: every key's first
   * value, as number or text, set at its keys. None: a key without
   * values (`value[0]` panics) or a panic of setNestedKey.
   */
  function BuildSpec(form: map<string, seq<string>>, order: seq<string>): Option<map<string, Json>>
    requires Lists(form, order)
  {
    if order == [] then Some(map[])
    else
      var n := |order|;
      match BuildSpec(form, order[..n - 1])
      case None => None
      case Some(acc) =>
        if form[order[n - 1]] == [] then None
        else SetNestedKey(acc, KeysOf(order[n - 1]), FormValue(form[order[n - 1]][0]))
  }

  method ReadForm(form: map<string, seq<string>>, order: seq<string>) returns (r: Option<map<string, Json>>)
    requires Enumerates(form, order)
    ensures r == BuildSpec(form, order)
  {
    var result: map<string, Json> := map[];
    var i := 0;
    while i < |order|
      invariant 0 <= i <= |order|
      invariant BuildSpec(form, order[..i]) == Some(result)
    {
      var key := order[i];
      var value := form[key];
      BuildStep(form, order, i);
      if value == [] {
        BuildStops(form, order, i + 1);
        return None;
      }
      var keys := KeysOf(key);
      var next := SetNestedKey(result, keys, FormValue(value[0]));
      if next.None? {
        BuildStops(form, order, i + 1);
        return None;
      }
      result := next.value;
      i := i + 1;
    }
    assert order[..i] == order;
    r := Some(result);
  }

  lemma BuildStep(form: map<string, seq<string>>, order: seq<string>, i: nat)
    requires Lists(form, order) && i < |order|
    ensures BuildSpec(form, order[..i + 1]) ==
      match BuildSpec(form, order[..i])
      case None => None
      case Some(acc) =>
        if form[order[i]] == [] then None
        else SetNestedKey(acc, KeysOf(order[i]), FormValue(form[order[i]][0]))
  {
    assert order[..i + 1][..i] == order[..i];
  }

  /** Once a prefix of the order panics, the whole loop does. */
  lemma {:induction false} BuildStops(form: map<string, seq<string>>, order: seq<string>, i: nat)
    requires Lists(form, order) && i <= |order| && BuildSpec(form, order[..i]).None?
    ensures BuildSpec(form, order).None?
    decreases |order| - i
  {
    if i < |order| {
      BuildStep(form, order, i);
      BuildStops(form, order, i + 1);
    } else {
      assert order[..i] == order;
    }
  }

  /** The key handled last finds its first value at its stripped keys. */
  lemma ReadFormLastKey(form: map<string, seq<string>>, order: seq<string>)
    requires Lists(form, order) && order != [] && BuildSpec(form, order).Some?
    ensures var key := order[|order| - 1];
      form[key] != [] && KeyPath(KeysOf(key)) != [] &&
      Lookup(BuildSpec(form, order).value, KeyPath(KeysOf(key))) == Some(FormValue(form[key][0]))
  {
    var n := |order|;
    BuildStep(form, order, n - 1);
    assert order[..n] == order;
    var acc := BuildSpec(form, order[..n - 1]).value;
    SetThenLookup(acc, KeysOf(order[n - 1]), FormValue(form[order[n - 1]][0]));
  }

  /** Two key paths part somewhere: neither is a prefix of the other. */
  predicate Parted(p: seq<string>, q: seq<string>) {
    exists j :: 0 <= j < |p| && j < |q| && p[j] != q[j]
  }

  /** Two key paths that part do so at a first step, before which they agree. */
  lemma FirstParting(p: seq<string>, q: seq<string>, j0: nat) returns (j: nat)
    requires j0 < |p| && j0 < |q| && p[j0] != q[j0]
    ensures j <= j0 && p[..j] == q[..j] && p[j] != q[j]
    decreases j0
  {
    if p[..j0] == q[..j0] {
      j := j0;
    } else {
      var k :| 0 <= k < j0 && p[k] != q[k];
      j := FirstParting(p, q, k);
    }
  }

  /**
   * ReadForm stores every key of the form: when no key's stripped keys are
   * a prefix of another's and the call does not panic, each key finds its
   * first value at its stripped keys, whatever order the map iteration
   * picks.
   */
  lemma ReadFormAllKeys(form: map<string, seq<string>>, order: seq<string>)
    requires Enumerates(form, order) && BuildSpec(form, order).Some?
    requires forall k, l :: k in form && l in form && k != l ==> Parted(KeyPath(KeysOf(k)), KeyPath(KeysOf(l)))
    ensures forall k :: k in form ==>
      form[k] != [] && KeyPath(KeysOf(k)) != [] &&
      Lookup(BuildSpec(form, order).value, KeyPath(KeysOf(k))) == Some(FormValue(form[k][0]))
  {
    assert order[..|order|] == order;
    forall i, l | 0 <= i < l < |order| ensures Parted(KeyPath(KeysOf(order[i])), KeyPath(KeysOf(order[l]))) {
      assert order[i] in form && order[l] in form && order[i] != order[l];
    }
    BuildKeepsAll(form, order, |order|);
    forall k | k in form
      ensures form[k] != [] && KeyPath(KeysOf(k)) != [] &&
              Lookup(BuildSpec(form, order).value, KeyPath(KeysOf(k))) == Some(FormValue(form[k][0]))
    {
      var i :| 0 <= i < |order| && order[i] == k;
    }
  }

  /** The same for the first `n` keys of the order, by induction on `n`. */
  lemma {:induction false} BuildKeepsAll(form: map<string, seq<string>>, order: seq<string>, n: nat)
    requires Lists(form, order) && n <= |order| && BuildSpec(form, order[..n]).Some?
    requires forall i, l :: 0 <= i < l < |order| ==> Parted(KeyPath(KeysOf(order[i])), KeyPath(KeysOf(order[l])))
    ensures forall i :: 0 <= i < n ==>
      form[order[i]] != [] && KeyPath(KeysOf(order[i])) != [] &&
      Lookup(BuildSpec(form, order[..n]).value, KeyPath(KeysOf(order[i]))) == Some(FormValue(form[order[i]][0]))
    decreases n
  {
    if n > 0 {
      BuildStep(form, order, n - 1);
      BuildKeepsAll(form, order, n - 1);
      BuildKeepsStep(form, order, n);
    }
  }

  /** The `n`-th set keeps what the first `n - 1` sets stored and stores its own value. */
  lemma BuildKeepsStep(form: map<string, seq<string>>, order: seq<string>, n: nat)
    requires Lists(form, order) && 0 < n <= |order| && BuildSpec(form, order[..n]).Some?
    requires forall i, l :: 0 <= i < l < |order| ==> Parted(KeyPath(KeysOf(order[i])), KeyPath(KeysOf(order[l])))
    requires BuildSpec(form, order[..n - 1]).Some?
    requires forall i :: 0 <= i < n - 1 ==>
      form[order[i]] != [] && KeyPath(KeysOf(order[i])) != [] &&
      Lookup(BuildSpec(form, order[..n - 1]).value, KeyPath(KeysOf(order[i]))) == Some(FormValue(form[order[i]][0]))
    ensures forall i :: 0 <= i < n ==>
      form[order[i]] != [] && KeyPath(KeysOf(order[i])) != [] &&
      Lookup(BuildSpec(form, order[..n]).value, KeyPath(KeysOf(order[i]))) == Some(FormValue(form[order[i]][0]))
  {
    var key := order[n - 1];
    BuildStep(form, order, n - 1);
    assert form[key] != [];
    var acc := BuildSpec(form, order[..n - 1]).value;
    var value := FormValue(form[key][0]);
    var next := BuildSpec(form, order[..n]).value;
    assert SetNestedKey(acc, KeysOf(key), value) == Some(next);
    SetThenLookup(acc, KeysOf(key), value);
    forall i | 0 <= i < n - 1
      ensures Lookup(next, KeyPath(KeysOf(order[i]))) == Some(FormValue(form[order[i]][0]))
    {
      KeepsEarlier(acc, KeysOf(key), value, KeyPath(KeysOf(order[i])));
    }
  }

  /** A set leaves a key path that parts from its own as it was. */
  lemma KeepsEarlier(acc: map<string, Json>, keys: seq<string>, value: Json, q: seq<string>)
    requires SetNestedKey(acc, keys, value).Some? && Parted(q, KeyPath(keys))
    ensures Lookup(SetNestedKey(acc, keys, value).value, q) == Lookup(acc, q)
  {
    var kp := KeyPath(keys);
    var j0 :| 0 <= j0 < |q| && j0 < |kp| && q[j0] != kp[j0];
    var j := FirstParting(q, kp, j0);
    SetLeavesOthers(acc, keys, value, q, j);
  }
}

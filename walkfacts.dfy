/**
 * Properties of the iterateObj walk as a whole.
 */
module WalkFacts {
  import opened JsonTree
  import opened Engine

  /** No node of the tree, the root included, passes the walk's test. */
  predicate NoneMatch(t: Json, key: seq<string>, want: Match) {
    !Matches(t, key, want) &&
    match t
    case Arr(a) => forall i :: 0 <= i < |a| ==> NoneMatch(a[i], key, want)
    case Obj(m) => forall k :: k in m ==> NoneMatch(m[k], key, want)
    case _ => true
  }

  /**
   * A walk that finds nothing to operate on leaves the tree as it is and
   * reports no error, provided the fuel reaches every node.
   */
  lemma {:induction false} WalkUnmatched(t: Json, key: seq<string>, want: Match, pass: Pass, fuel: nat)
    requires NoneMatch(t, key, want)
    ensures Walk(t, key, want, pass, fuel) == if Fits(t, fuel) then Done(t, false) else OutOfFuel
    decreases t, 1
  {
    if fuel > 0 {
      WalkSkips(t, key, want, pass, fuel);
      ChildrenUnmatched(t, key, want, pass, fuel - 1);
    }
  }

  /** A node that does not pass the test is only walked through. */
  lemma WalkSkips(t: Json, key: seq<string>, want: Match, pass: Pass, fuel: nat)
    requires fuel > 0 && !Matches(t, key, want)
    ensures Walk(t, key, want, pass, fuel) ==
      match WalkChildren(t, key, want, pass, fuel - 1)
      case Done(t2, f2) => Done(t2, f2)
      case other => other
  {
  }

  /** One step of the walk: a node whose own visit settles to `Done(t1, f1)`
      continues with the walk of `t1`'s children one level down. */
  lemma WalkStep(t: Json, key: seq<string>, want: Match, pass: Pass, fuel: nat, t1: Json, f1: bool)
    requires fuel > 0
    requires (if Matches(t, key, want) then Operate(pass, t, fuel) else Done(t, false)) == Done(t1, f1)
    requires WalkChildren(t1, key, want, pass, fuel - 1).Done?
    ensures Walk(t, key, want, pass, fuel) ==
      Done(WalkChildren(t1, key, want, pass, fuel - 1).tree, f1 || WalkChildren(t1, key, want, pass, fuel - 1).failed)
  {
  }

  /** One step of the walk, whatever the visit gives: a panic or an exhausted visit ends it, else the children's walk decides. */
  lemma WalkVisit(t: Json, key: seq<string>, want: Match, pass: Pass, fuel: nat, visit: Outcome, below: Outcome)
    requires fuel > 0
    requires visit == if Matches(t, key, want) then Operate(pass, t, fuel) else Done(t, false)
    requires visit.Done? ==> below == WalkChildren(visit.tree, key, want, pass, fuel - 1)
    ensures !visit.Done? ==> Walk(t, key, want, pass, fuel) == visit
    ensures visit.Done? && !below.Done? ==> Walk(t, key, want, pass, fuel) == below
    ensures visit.Done? && below.Done? ==> Walk(t, key, want, pass, fuel) == Done(below.tree, visit.failed || below.failed)
  {
  }

  lemma {:induction false} ChildrenUnmatched(t: Json, key: seq<string>, want: Match, pass: Pass, fuel: nat)
    requires NoneMatch(t, key, want)
    ensures WalkChildren(t, key, want, pass, fuel) == if Fits(t, fuel + 1) then Done(t, false) else OutOfFuel
    decreases t, 0
  {
    match t
    case Arr(a) =>
      forall i | 0 <= i < |a|
        ensures Walk(a[i], key, want, pass, fuel) == if Fits(a[i], fuel) then Done(a[i], false) else OutOfFuel
      {
        WalkUnmatched(a[i], key, want, pass, fuel);
      }
      ElementsUnchanged(a, key, want, pass, fuel);
    case Obj(m) =>
      forall k | k in m
        ensures Walk(m[k], key, want, pass, fuel) == if Fits(m[k], fuel) then Done(m[k], false) else OutOfFuel
      {
        WalkUnmatched(m[k], key, want, pass, fuel);
      }
      MembersUnchanged(m, key, want, pass, fuel);
    case _ =>
  }

  /** Array elements each walked to themselves or out of fuel: the array is walked to itself or out of fuel. */
  lemma {:induction false} ElementsUnchanged(a: seq<Json>, key: seq<string>, want: Match, pass: Pass, fuel: nat)
    requires forall i :: 0 <= i < |a| ==>
      Walk(a[i], key, want, pass, fuel) == if Fits(a[i], fuel) then Done(a[i], false) else OutOfFuel
    ensures WalkElements(a, key, want, pass, fuel) == if Fits(Arr(a), fuel + 1) then Done(Arr(a), false) else OutOfFuel
  {
    if a != [] {
      var n := |a|;
      var init := a[..n - 1];
      ElementsUnchanged(init, key, want, pass, fuel);
      FitsSplit(a, fuel);
      AppendUnchanged(init, a[n - 1], fuel, WalkElements(init, key, want, pass, fuel), Walk(a[n - 1], key, want, pass, fuel));
      assert init + [a[n - 1]] == a;
    }
  }

  lemma AppendUnchanged(init: seq<Json>, x: Json, fuel: nat, r: Outcome, w: Outcome)
    requires r == if Fits(Arr(init), fuel + 1) then Done(Arr(init), false) else OutOfFuel
    requires w == if Fits(x, fuel) then Done(x, false) else OutOfFuel
    ensures Append(r, w) == if Fits(Arr(init), fuel + 1) && Fits(x, fuel) then Done(Arr(init + [x]), false) else OutOfFuel
  {
  }

  /** An array fits when all but its last element fit and the last one does. */
  lemma FitsSplit(a: seq<Json>, fuel: nat)
    requires a != []
    ensures Fits(Arr(a), fuel + 1) <==> Fits(Arr(a[..|a| - 1]), fuel + 1) && Fits(a[|a| - 1], fuel)
  {
    var init := a[..|a| - 1];
    if Fits(Arr(init), fuel + 1) && Fits(a[|a| - 1], fuel) {
      forall i | 0 <= i < |a| ensures Fits(a[i], fuel) {
        if i < |a| - 1 {
          assert init[i] == a[i];
        }
      }
    }
    if Fits(Arr(a), fuel + 1) {
      forall i | 0 <= i < |init| ensures Fits(init[i], fuel) {
        assert init[i] == a[i];
      }
    }
  }

  /** The same for the members of an object. */
  lemma MembersUnchanged(m: map<string, Json>, key: seq<string>, want: Match, pass: Pass, fuel: nat)
    requires forall k :: k in m ==>
      Walk(m[k], key, want, pass, fuel) == if Fits(m[k], fuel) then Done(m[k], false) else OutOfFuel
    ensures WalkChildren(Obj(m), key, want, pass, fuel) == if Fits(Obj(m), fuel + 1) then Done(Obj(m), false) else OutOfFuel
  {
    var rs := MemberWalks(m, key, want, pass, fuel);
    if Fits(Obj(m), fuel + 1) {
      assert OutOfFuel !in rs.Values && Panicked !in rs.Values;
      assert (map k | k in rs :: if rs[k].Done? then rs[k].tree else Null) == m;
    } else {
      var k :| k in m && !Fits(m[k], fuel);
      assert rs[k] in rs.Values;
    }
  }

  /** In a tree without stored containers no value found is a stored container. */
  lemma {:induction false} PlainNeverBoxed(t: Json, key: seq<string>, x: Json)
    requires Plain(t)
    ensures NoneMatch(t, key, Equals(Boxed(x)))
    decreases t
  {
    SearchPlain(t, key);
    match t
    case Arr(a) =>
      forall i | 0 <= i < |a| ensures NoneMatch(a[i], key, Equals(Boxed(x))) {
        PlainNeverBoxed(a[i], key, x);
      }
    case Obj(m) =>
      forall k | k in m ensures NoneMatch(m[k], key, Equals(Boxed(x))) {
        PlainNeverBoxed(m[k], key, x);
      }
    case _ =>
  }

  /**
   * The array pass tests `schema.type` against the container its closure
   * built, which only matches the containers setup stored. After the
   * re-parse there are none, so the pass would change nothing: the
   * expansion has to run on the tree as setup left it.
   */
  lemma ArrayPassAfterReparse(t: Json, x: Json, pass: Pass, fuel: nat)
    ensures var r := Walk(Flatten(t), ["schema", "type"], Equals(Boxed(x)), pass, fuel);
            r == Done(Flatten(t), false) || r == OutOfFuel
  {
    PlainNeverBoxed(Flatten(t), ["schema", "type"], x);
    WalkUnmatched(Flatten(t), ["schema", "type"], Equals(Boxed(x)), pass, fuel);
  }

  /** Outcomes that each complete gather to the object of their trees, failed when one of them failed. */
  lemma GatherAll(rs: map<string, Outcome>)
    requires forall k :: k in rs ==> rs[k].Done?
    ensures Gather(rs) == Done(Obj(map k | k in rs :: rs[k].tree), exists k :: k in rs && rs[k].failed)
  {
    assert OutOfFuel !in rs.Values && Panicked !in rs.Values;
  }

  /** Elements that each complete: the array of their trees in order, failed when one of them failed. */
  lemma {:induction false} ElementsAll(a: seq<Json>, key: seq<string>, want: Match, pass: Pass, fuel: nat,
                                        trees: seq<Json>, flags: seq<bool>)
    requires |trees| == |a| && |flags| == |a|
    requires forall i :: 0 <= i < |a| ==> Walk(a[i], key, want, pass, fuel) == Done(trees[i], flags[i])
    ensures WalkElements(a, key, want, pass, fuel) == Done(Arr(trees), exists i :: 0 <= i < |a| && flags[i])
  {
    if a != [] {
      var n := |a|;
      var init := a[..n - 1];
      forall i | 0 <= i < n - 1
        ensures Walk(init[i], key, want, pass, fuel) == Done(trees[..n - 1][i], flags[..n - 1][i])
      {
        assert init[i] == a[i];
      }
      ElementsAll(init, key, want, pass, fuel, trees[..n - 1], flags[..n - 1]);
      assert WalkElements(a, key, want, pass, fuel)
          == Append(WalkElements(init, key, want, pass, fuel), Walk(a[n - 1], key, want, pass, fuel));
      AppendDone(trees, flags, flags[..n - 1]);
    }
  }

  lemma AppendDone(trees: seq<Json>, flags: seq<bool>, initFlags: seq<bool>)
    requires |trees| == |flags| > 0 && initFlags == flags[..|flags| - 1]
    ensures var n := |trees|;
      Append(Done(Arr(trees[..n - 1]), exists i :: 0 <= i < n - 1 && initFlags[i]), Done(trees[n - 1], flags[n - 1]))
      == Done(Arr(trees), exists i :: 0 <= i < n && flags[i])
  {
    var n := |trees|;
    assert trees[..n - 1] + [trees[n - 1]] == trees;
    if exists i :: 0 <= i < n && flags[i] {
      var i :| 0 <= i < n && flags[i];
      if i < n - 1 {
        assert initFlags[i];
      }
    }
  }

  /** Members that each complete: the object of their trees, failed when one of them failed. */
  lemma MembersAll(m: map<string, Json>, key: seq<string>, want: Match, pass: Pass, fuel: nat,
                   f: Json -> Json, g: Json -> bool)
    requires forall k :: k in m ==> Walk(m[k], key, want, pass, fuel) == Done(f(m[k]), g(m[k]))
    ensures WalkChildren(Obj(m), key, want, pass, fuel) == Done(Obj(map k | k in m :: f(m[k])), exists k :: k in m && g(m[k]))
  {
    var rs := MemberWalks(m, key, want, pass, fuel);
    GatherAll(rs);
    assert (map k | k in rs :: rs[k].tree) == map k | k in m :: f(m[k]);
    assert (exists k :: k in rs && rs[k].failed) == exists k :: k in m && g(m[k]);
  }

  /** Applying a function to every member commutes with storing one member. */
  lemma MapUpdate(m: map<string, Json>, m1: map<string, Json>, key: string, v: Json, f: Json -> Json)
    requires m1 == m[key := v]
    ensures (map k | k in m1 :: f(m1[k])) == (map k | k in m :: f(m[k]))[key := f(v)]
  {
    var lhs := map k | k in m1 :: f(m1[k]);
    var rhs := (map k | k in m :: f(m[k]))[key := f(v)];
    assert lhs.Keys == rhs.Keys;
    forall k | k in lhs ensures lhs[k] == rhs[k] {
      if k != key {
        assert m1[k] == m[k];
      }
    }
  }

  /** A completed walk of an object's members: each member completed, and the walk failed when one of them did. */
  lemma MembersFailed(m: map<string, Json>, key: seq<string>, want: Match, pass: Pass, fuel: nat)
    requires WalkChildren(Obj(m), key, want, pass, fuel).Done?
    ensures forall k :: k in m ==> Walk(m[k], key, want, pass, fuel).Done?
    ensures WalkChildren(Obj(m), key, want, pass, fuel).failed == exists k :: k in m && Walk(m[k], key, want, pass, fuel).failed
  {
    var rs := MemberWalks(m, key, want, pass, fuel);
    assert WalkChildren(Obj(m), key, want, pass, fuel) == Gather(rs);
    GatherDone(rs);
    forall k | k in m ensures Walk(m[k], key, want, pass, fuel) == rs[k] {
      MemberWalk(m, key, want, pass, fuel, k);
    }
  }

  /** Outcomes that gather to a completed one: each of them completed, and one failed when the gathering did. */
  lemma GatherDone(rs: map<string, Outcome>)
    requires Gather(rs).Done?
    ensures forall k :: k in rs ==> rs[k].Done?
    ensures Gather(rs).failed == exists k :: k in rs && rs[k].failed
  {
    forall k | k in rs ensures rs[k].Done? {
      assert rs[k] in rs.Values;
    }
  }

  /** Each member's entry is that member's walk. */
  lemma MemberWalk(m: map<string, Json>, key: seq<string>, want: Match, pass: Pass, fuel: nat, k: string)
    requires k in m
    ensures MemberWalks(m, key, want, pass, fuel)[k] == Walk(m[k], key, want, pass, fuel)
  {
  }

  /** Elements that each either panic or complete without failing: the walk panics exactly when one of them does. */
  lemma {:induction false} ElementsOr(a: seq<Json>, key: seq<string>, want: Match, pass: Pass, fuel: nat,
                                       f: Json -> Json, bad: Json -> bool)
    requires forall i :: 0 <= i < |a| ==>
      Walk(a[i], key, want, pass, fuel) == if bad(a[i]) then Panicked else Done(f(a[i]), false)
    ensures WalkElements(a, key, want, pass, fuel) == ElementsOutcome(a, f, bad)
  {
    if a != [] {
      var n := |a|;
      var init := a[..n - 1];
      forall i | 0 <= i < n - 1 ensures init[i] == a[i] {
      }
      ElementsOr(init, key, want, pass, fuel, f, bad);
      assert a == init + [a[n - 1]];
      AppendOr(init, a[n - 1], f, bad);
    }
  }

  /** What ElementsOr promises: a panic when some element is bad, else every element mapped. */
  function ElementsOutcome(a: seq<Json>, f: Json -> Json, bad: Json -> bool): Outcome {
    if exists i :: 0 <= i < |a| && bad(a[i]) then Panicked
    else Done(Arr(seq(|a|, i requires 0 <= i < |a| => f(a[i]))), false)
  }

  lemma AppendOr(init: seq<Json>, x: Json, f: Json -> Json, bad: Json -> bool)
    ensures Append(ElementsOutcome(init, f, bad), if bad(x) then Panicked else Done(f(x), false))
         == ElementsOutcome(init + [x], f, bad)
  {
    var a := init + [x];
    var n := |a|;
    forall i | 0 <= i < n - 1 ensures a[i] == init[i] {
    }
    if exists i :: 0 <= i < n && bad(a[i]) {
      if !bad(x) {
        var i :| 0 <= i < n && bad(a[i]);
        assert i < n - 1 && bad(init[i]);
      }
    } else {
      assert !exists i :: 0 <= i < n - 1 && bad(init[i]);
      var before := seq(n - 1, i requires 0 <= i < n - 1 => f(init[i]));
      var after := seq(n, i requires 0 <= i < n => f(a[i]));
      assert ElementsOutcome(init, f, bad) == Done(Arr(before), false);
      assert ElementsOutcome(a, f, bad) == Done(Arr(after), false);
      assert a[n - 1] == x && !bad(x);
      assert before + [f(x)] == after;
    }
  }

  /** Members that each either panic or complete without failing: the walk panics exactly when one of them does. */
  lemma MembersOr(m: map<string, Json>, key: seq<string>, want: Match, pass: Pass, fuel: nat,
                  f: Json -> Json, bad: Json -> bool)
    requires forall k :: k in m ==>
      Walk(m[k], key, want, pass, fuel) == if bad(m[k]) then Panicked else Done(f(m[k]), false)
    ensures WalkChildren(Obj(m), key, want, pass, fuel) ==
      if exists k :: k in m && bad(m[k]) then Panicked
      else Done(Obj(map k | k in m :: f(m[k])), false)
  {
    var rs := MemberWalks(m, key, want, pass, fuel);
    if exists k :: k in m && bad(m[k]) {
      var k :| k in m && bad(m[k]);
      assert rs[k] == Panicked;
      assert Panicked in rs.Values;
    } else {
      GatherAll(rs);
      assert (map k | k in rs :: rs[k].tree) == map k | k in m :: f(m[k]);
    }
  }
}

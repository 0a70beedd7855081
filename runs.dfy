/**
 * What the Form methods of both packages share: the keys their walks
 * test, how a run of walks ends, and the chaining of one walk after
 * another on the same tree.
 */
module Runs {
  import opened JsonTree
  import opened Engine

  /** The gabs segments of the two keys the walks test. */
  const TypeKey: seq<string> := ["type"]
  const SchemaTypeKey: seq<string> := ["schema", "type"]

  /**
   * How a method that runs walks ends: it returns (with or without an
   * error), or a Go panic crashes it, or the walk needed more depth than
   * its fuel.
   */
  datatype Status = Returned(failed: bool) | Crashed | Exhausted

  /**
   * The tree a method leaves in its field and the status it ends with:
   * a completed run leaves its result, a crashed or exhausted one the tree
   * it started from.
   */
  function Settle(o: Outcome, before: Json): (r: (Json, Status))
    ensures r.1.Returned? <==> o.Done?
    ensures o.Done? ==> r == (o.tree, Returned(o.failed))
    ensures !o.Done? ==> r.0 == before
  {
    match o
    case Done(t, f) => (t, Returned(f))
    case Panicked => (before, Crashed)
    case OutOfFuel => (before, Exhausted)
  }

  /** One walk after another on the tree the first left; the errors add up. */
  function Then(first: Outcome, second: Json -> Outcome): (r: Outcome)
    ensures r.Done? ==> first.Done? && second(first.tree).Done?
    ensures first.Done? && second(first.tree).Done? ==>
      r == Done(second(first.tree).tree, first.failed || second(first.tree).failed)
  {
    match first
    case Done(t1, f1) =>
      (match second(t1)
       case Done(t2, f2) => Done(t2, f1 || f2)
       case other => other)
    case other => other
  }
}

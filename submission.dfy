/**
 * A submitted form value as the three ReadForm functions store it: the
 * first value of a key becomes an integer when strconv.Atoi accepts it,
 * and stays a string otherwise.
 */
module Submission {
  import opened Wrappers
  import opened Strings
  import opened JsonTree

  function FormValue(s: string): (v: Json)
    ensures v.Num? || v == Str(s)
  {
    match Atoi(s)
    case Some(n) => Num(n)
    case None => Str(s)
  }

  /**
   * A number written in decimal within the range of a Go int, with a
   * leading '-' when it is negative, comes back as that number.
   */
  lemma FormValueOfNumber(n: int)
    requires MinInt <= n <= MaxInt
    ensures FormValue(if n < 0 then "-" + NatToString(-n) else NatToString(n)) == Num(n)
  {
    if n < 0 {
      var s := "-" + NatToString(-n);
      assert s[1..] == NatToString(-n);
      DigitsOfNatToString(-n);
    } else {
      AtoiNatToString(n);
    }
  }

  /** A value with a character that is neither a digit nor a sign is kept as text. */
  lemma FormValueOfText(s: string, i: nat)
    requires i < |s| && !IsDigit(s[i]) && s[i] != '+' && s[i] != '-'
    ensures FormValue(s) == Str(s)
  {
    if s[0] == '-' || s[0] == '+' {
      assert s[1..][i - 1] == s[i];
    } else {
      assert !AllDigits(s);
    }
  }

  /** The iteration order lists keys of the submitted form (a prefix of Go's order does). */
  predicate Lists(form: map<string, seq<string>>, order: seq<string>) {
    forall i :: 0 <= i < |order| ==> order[i] in form
  }

  /** The order of a whole `range` over the form: every key exactly once. */
  predicate Enumerates(form: map<string, seq<string>>, order: seq<string>) {
    Lists(form, order) &&
    (forall k :: k in form ==> k in order) &&
    (forall i, j :: 0 <= i < j < |order| ==> order[i] != order[j])
  }
}

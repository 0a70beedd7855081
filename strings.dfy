/**
 * The Go standard-library string operations the binding engine relies on:
 * strings.Trim, strings.TrimPrefix, strings.ReplaceAll, strings.Split,
 * strings.Join, strings.SplitN(s, sep, 2)[1], strconv.Atoi and the `%d`
 * verb of fmt.Sprintf, each stated over `string` (a sequence of characters).
 */
module Strings {
  import opened Wrappers

  const MaxInt: int := 0x7fff_ffff_ffff_ffff
  const MinInt: int := -0x8000_0000_0000_0000

  // ---------------------------------------------------------------------
  // strings.Trim(s, cutset)

  function TrimLeft(s: string, cut: set<char>): string
    decreases |s|
  {
    if s == [] || s[0] !in cut then s else TrimLeft(s[1..], cut)
  }

  function TrimRight(s: string, cut: set<char>): string
    decreases |s|
  {
    if s == [] || s[|s| - 1] !in cut then s else TrimRight(s[..|s| - 1], cut)
  }

  /** Removes every leading and trailing character that belongs to `cut`. */
  function Trim(s: string, cut: set<char>): string {
    TrimRight(TrimLeft(s, cut), cut)
  }

  /** TrimLeft drops the longest prefix made of `cut` characters. */
  lemma {:induction false} TrimLeftFacts(s: string, cut: set<char>)
    ensures var r := TrimLeft(s, cut);
      |r| <= |s| && r == s[|s| - |r|..] && (r == [] || r[0] !in cut) &&
      forall i :: 0 <= i < |s| - |r| ==> s[i] in cut
    decreases |s|
  {
    if s != [] && s[0] in cut {
      TrimLeftFacts(s[1..], cut);
      var r := TrimLeft(s, cut);
      forall i | 0 <= i < |s| - |r| ensures s[i] in cut {
        if i > 0 {
          assert s[i] == s[1..][i - 1];
        }
      }
    }
  }

  /** TrimRight drops the longest suffix made of `cut` characters. */
  lemma {:induction false} TrimRightFacts(s: string, cut: set<char>)
    ensures var r := TrimRight(s, cut);
      |r| <= |s| && r == s[..|r|] && (r == [] || r[|r| - 1] !in cut) &&
      forall i :: |r| <= i < |s| ==> s[i] in cut
    decreases |s|
  {
    if s != [] && s[|s| - 1] in cut {
      TrimRightFacts(s[..|s| - 1], cut);
      var r := TrimRight(s, cut);
      forall i | |r| <= i < |s| ensures s[i] in cut {
        if i < |s| - 1 {
          assert s[i] == s[..|s| - 1][i];
        }
      }
    }
  }

  /**
   * strings.Trim keeps one contiguous piece of `s`: everything before and
   * after it belongs to `cut`, and the piece neither starts nor ends with a
   * `cut` character.
   */
  lemma TrimFacts(s: string, cut: set<char>)
    ensures var r, i := Trim(s, cut), |s| - |TrimLeft(s, cut)|;
      (r == [] || (r[0] !in cut && r[|r| - 1] !in cut)) &&
      0 <= i <= |s| - |r| && r == s[i..i + |r|] &&
      (forall k :: 0 <= k < i ==> s[k] in cut) && forall k :: i + |r| <= k < |s| ==> s[k] in cut
  {
    var l := TrimLeft(s, cut);
    TrimLeftFacts(s, cut);
    TrimRightFacts(l, cut);
    var r := Trim(s, cut);
    var i := |s| - |l|;
    assert r == s[i..i + |r|];
    forall k | i + |r| <= k < |s| ensures s[k] in cut {
      assert s[k] == l[k - i];
    }
  }

  /** strings.TrimPrefix: drops `prefix` once when `s` starts with it. */
  function TrimPrefix(s: string, prefix: string): (r: string)
    ensures |prefix| <= |s| && s[..|prefix|] == prefix ==> prefix + r == s
    ensures !(|prefix| <= |s| && s[..|prefix|] == prefix) ==> r == s
  {
    if |prefix| <= |s| && s[..|prefix|] == prefix then s[|prefix|..] else s
  }

  // ---------------------------------------------------------------------
  // Occurrences of a separator

  predicate OccursAt(s: string, sep: string, i: nat) {
    i + |sep| <= |s| && s[i..i + |sep|] == sep
  }

  function IndexFrom(s: string, sep: string, k: nat): (r: Option<nat>)
    requires k <= |s|
    decreases |s| - k
    ensures r.Some? ==> k <= r.value && OccursAt(s, sep, r.value)
    ensures r.Some? ==> forall j :: k <= j < r.value ==> !OccursAt(s, sep, j)
    ensures r.None? ==> forall j :: k <= j ==> !OccursAt(s, sep, j)
  {
    if OccursAt(s, sep, k) then Some(k)
    else if k == |s| then None
    else IndexFrom(s, sep, k + 1)
  }

  /** The index of the first occurrence of `sep` in `s`, as strings.Index. */
  function IndexOf(s: string, sep: string): (r: Option<nat>)
    ensures r.Some? ==> OccursAt(s, sep, r.value)
    ensures r.Some? ==> forall j :: 0 <= j < r.value ==> !OccursAt(s, sep, j)
    ensures r.None? ==> forall j :: 0 <= j ==> !OccursAt(s, sep, j)
  {
    IndexFrom(s, sep, 0)
  }

  /**
   * strings.SplitN(s, sep, 2)[1]: the text after the first occurrence of
   * `sep`. None stands for the index-out-of-range panic that the Go
   * expression raises when `sep` does not occur.
   */
  function AfterFirst(s: string, sep: string): (r: Option<string>)
    ensures r.Some? <==> exists i :: 0 <= i <= |s| && OccursAt(s, sep, i)
    ensures r.Some? ==> exists i :: 0 <= i <= |s| && OccursAt(s, sep, i)
                            && s == s[..i] + sep + r.value
                            && forall j :: 0 <= j < i ==> !OccursAt(s, sep, j)
  {
    match IndexOf(s, sep)
    case None => None
    case Some(i) =>
      assert s == s[..i] + sep + s[i + |sep|..];
      Some(s[i + |sep|..])
  }

  /** When the separator's first character is not in `a`, the text after `a + sep` is what follows the first occurrence. */
  lemma AfterFirstAt(a: string, sep: string, b: string)
    requires sep != [] && sep[0] !in a
    ensures AfterFirst(a + sep + b, sep) == Some(b)
  {
    var s := a + sep + b;
    assert s[|a|..|a| + |sep|] == sep;
    assert OccursAt(s, sep, |a|);
    forall j | 0 <= j < |a| ensures !OccursAt(s, sep, j) {
      assert s[j] == a[j];
      assert a[j] in a;
    }
    var r := AfterFirst(s, sep);
    var i :| 0 <= i <= |s| && OccursAt(s, sep, i) && s == s[..i] + sep + r.value
             && forall j :: 0 <= j < i ==> !OccursAt(s, sep, j);
    assert i == |a|;
    assert s[i + |sep|..] == r.value;
    assert s[|a| + |sep|..] == b;
  }

  // ---------------------------------------------------------------------
  // strings.ReplaceAll (leftmost, non-overlapping)

  function ReplaceAll(s: string, from: string, to: string): (r: string)
    requires from != []
    decreases |s|
  {
    if |s| < |from| then s
    else if s[..|from|] == from then to + ReplaceAll(s[|from|..], from, to)
    else [s[0]] + ReplaceAll(s[1..], from, to)
  }

  /** Without an occurrence of `from`, ReplaceAll changes nothing. */
  lemma {:induction false} ReplaceAllAbsent(s: string, from: string, to: string)
    requires from != []
    requires forall j :: 0 <= j ==> !OccursAt(s, from, j)
    ensures ReplaceAll(s, from, to) == s
    decreases |s|
  {
    if |s| >= |from| {
      assert !OccursAt(s, from, 0);
      forall j | 0 <= j
        ensures !OccursAt(s[1..], from, j)
      {
        if j + |from| <= |s[1..]| {
          assert s[1..][j..j + |from|] == s[j + 1..j + 1 + |from|];
          assert !OccursAt(s, from, j + 1);
        }
      }
      ReplaceAllAbsent(s[1..], from, to);
    }
  }

  /** An occurrence at the front is replaced, and the search resumes after it. */
  lemma ReplaceAllHit(from: string, b: string, to: string)
    requires from != []
    ensures ReplaceAll(from + b, from, to) == to + ReplaceAll(b, from, to)
  {
    assert (from + b)[..|from|] == from;
    assert (from + b)[|from|..] == b;
  }

  /** A prefix in which no occurrence starts is copied unchanged. */
  lemma {:induction false} ReplaceAllSkip(a: string, b: string, from: string, to: string)
    requires from != []
    requires forall j :: 0 <= j < |a| ==> !OccursAt(a + b, from, j)
    ensures ReplaceAll(a + b, from, to) == a + ReplaceAll(b, from, to)
    decreases |a|
  {
    if a == [] {
      assert a + b == b;
    } else {
      var s := a + b;
      assert s[1..] == a[1..] + b;
      forall j | 0 <= j < |a[1..]| ensures !OccursAt(a[1..] + b, from, j) {
        assert !OccursAt(s, from, j + 1);
        if j + |from| <= |s[1..]| {
          assert s[1..][j..j + |from|] == s[j + 1..j + 1 + |from|];
        }
      }
      ReplaceAllSkip(a[1..], b, from, to);
      assert !OccursAt(s, from, 0);
      if |s| < |from| {
        assert |b| < |from|;
        assert ReplaceAll(b, from, to) == b;
        assert ReplaceAll(a[1..] + b, from, to) == a[1..] + b;
        assert ReplaceAll(s, from, to) == s;
      } else {
        assert s[..|from|] != from;
        var rest := ReplaceAll(b, from, to);
        calc {
          ReplaceAll(s, from, to);
          [s[0]] + ReplaceAll(s[1..], from, to);
          [a[0]] + (a[1..] + rest);
          { assert [a[0]] + a[1..] == a; }
          a + rest;
        }
      }
    }
  }

  /** Replacing one character by another keeps the length and removes every occurrence. */
  lemma {:induction false} ReplaceCharFacts(s: string, c: char, d: char)
    requires c != d
    ensures |ReplaceAll(s, [c], [d])| == |s|
    ensures c !in ReplaceAll(s, [c], [d])
    ensures forall i :: 0 <= i < |s| ==> ReplaceAll(s, [c], [d])[i] == (if s[i] == c then d else s[i])
    decreases |s|
  {
    if s != [] {
      ReplaceCharFacts(s[1..], c, d);
      var rest := ReplaceAll(s[1..], [c], [d]);
      assert ReplaceAll(s, [c], [d]) == (if s[0] == c then [d] else [s[0]]) + rest;
    }
  }

  // ---------------------------------------------------------------------
  // strings.Split with a one-character separator, and strings.Join

  /** strings.Split(s, sep): always at least one piece; "" gives [""]. */
  function Split(s: string, sep: char): (r: seq<string>)
    ensures |r| >= 1
    decreases |s|
  {
    if s == [] then [""]
    else
      var rest := Split(s[1..], sep);
      if s[0] == sep then [""] + rest else [[s[0]] + rest[0]] + rest[1..]
  }

  function Join(parts: seq<string>, sep: string): string {
    if parts == [] then ""
    else if |parts| == 1 then parts[0]
    else parts[0] + sep + Join(parts[1..], sep)
  }

  /** A string without the separator is one piece. */
  lemma {:induction false} SplitNoSep(s: string, sep: char)
    requires sep !in s
    ensures Split(s, sep) == [s]
    decreases |s|
  {
    if s != [] {
      SplitNoSep(s[1..], sep);
      assert [s[0]] + s[1..] == s;
    }
  }

  /** The first separator ends the first piece. */
  lemma {:induction false} SplitAtFirst(a: string, sep: char, b: string)
    requires sep !in a
    ensures Split(a + [sep] + b, sep) == [a] + Split(b, sep)
    decreases |a|
  {
    if a == [] {
      assert a + [sep] + b == [sep] + b;
      assert ([sep] + b)[1..] == b;
    } else {
      var s := a + [sep] + b;
      assert s[1..] == a[1..] + [sep] + b;
      SplitAtFirst(a[1..], sep, b);
      assert [a[0]] + a[1..] == a;
    }
  }

  /** Split undoes Join when no piece contains the separator. */
  lemma {:induction false} SplitJoin(parts: seq<string>, sep: char)
    requires |parts| >= 1
    requires forall i :: 0 <= i < |parts| ==> sep !in parts[i]
    ensures Split(Join(parts, [sep]), sep) == parts
    decreases |parts|
  {
    if |parts| == 1 {
      SplitNoSep(parts[0], sep);
    } else {
      SplitJoin(parts[1..], sep);
      SplitAtFirst(parts[0], sep, Join(parts[1..], [sep]));
      assert [parts[0]] + parts[1..] == parts;
    }
  }

  /** Join undoes Split: the pieces hold no separator and rejoin into the string. */
  lemma {:induction false} JoinSplit(s: string, sep: char)
    ensures Join(Split(s, sep), [sep]) == s
    ensures forall i :: 0 <= i < |Split(s, sep)| ==> sep !in Split(s, sep)[i]
    decreases |s|
  {
    if s != [] {
      var rest := Split(s[1..], sep);
      JoinSplit(s[1..], sep);
      assert [s[0]] + s[1..] == s;
      if s[0] == sep {
        assert ([""] + rest)[1..] == rest;
      } else {
        var r := [[s[0]] + rest[0]] + rest[1..];
        assert r[1..] == rest[1..];
        if |rest| > 1 {
          assert Join(rest, [sep]) == rest[0] + [sep] + Join(rest[1..], [sep]);
        }
        forall i | 0 <= i < |r| ensures sep !in r[i] {
          if i > 0 {
            assert r[i] == rest[i];
          }
        }
      }
    }
  }

  /** Renaming one separator into another keeps the pieces, when the new one was unused. */
  lemma {:induction false} SplitAfterReplace(s: string, c: char, d: char)
    requires c != d && d !in s
    ensures Split(ReplaceAll(s, [c], [d]), d) == Split(s, c)
    decreases |s|
  {
    if s != [] {
      SplitAfterReplace(s[1..], c, d);
      var rest := ReplaceAll(s[1..], [c], [d]);
      var t := ReplaceAll(s, [c], [d]);
      assert t == (if s[0] == c then [d] else [s[0]]) + rest;
      assert t[1..] == rest;
    }
  }

  // ---------------------------------------------------------------------
  // Decimal numbers: fmt's %d on non-negative values and strconv.Atoi

  predicate IsDigit(c: char) { '0' <= c <= '9' }

  predicate AllDigits(s: string) { forall i :: 0 <= i < |s| ==> IsDigit(s[i]) }

  function DigitValue(c: char): nat
    requires IsDigit(c)
  {
    (c as int - '0' as int) as nat
  }

  /** The value of a string of decimal digits, most significant first. */
  function DigitsValue(s: string): nat
    requires AllDigits(s)
  {
    if s == [] then 0 else DigitsValue(s[..|s| - 1]) * 10 + DigitValue(s[|s| - 1])
  }

  /** fmt.Sprintf("%d", n) for n >= 0. */
  function NatToString(n: nat): (r: string)
    ensures |r| >= 1 && AllDigits(r)
  {
    var d := [('0' as int + n % 10) as char];
    if n < 10 then d else NatToString(n / 10) + d
  }

  /**
   * strconv.Atoi: an optional sign followed by at least one decimal digit,
   * whose value fits a 64-bit int; anything else is an error (None).
   */
  function Atoi(s: string): (r: Option<int>)
    ensures r.Some? ==> MinInt <= r.value <= MaxInt
  {
    if s == [] then None
    else
      var signed := s[0] == '-' || s[0] == '+';
      var digits := if signed then s[1..] else s;
      if digits == [] || !AllDigits(digits) then None
      else
        var v: int := if s[0] == '-' then 0 - (DigitsValue(digits) as int) else DigitsValue(digits) as int;
        if MinInt <= v <= MaxInt then Some(v) else None
  }

  lemma {:induction false} DigitsOfNatToString(n: nat)
    ensures DigitsValue(NatToString(n)) == n
  {
    var d := [('0' as int + n % 10) as char];
    if n >= 10 {
      DigitsOfNatToString(n / 10);
      var s := NatToString(n / 10) + d;
      assert s[..|s| - 1] == NatToString(n / 10);
    }
  }

  /** Atoi reads back what %d wrote, for every value that fits an int. */
  lemma AtoiNatToString(n: nat)
    requires n <= MaxInt
    ensures Atoi(NatToString(n)) == Some(n)
  {
    DigitsOfNatToString(n);
  }

  /** A %d rendering never contains the dot that separates gabs path segments. */
  lemma NatToStringHasNoDot(n: nat)
    ensures '.' !in NatToString(n)
  {
  }
}

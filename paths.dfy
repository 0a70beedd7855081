/**
 * gabsPath: turns a JSON-Forms scope such as "#/properties/comments/0/properties/message"
 * into the dot path gabs searches with ("comments.0.message"). The same
 * function appears in both packages of the repository.
 */
module Paths {
  import opened Strings
  import opened JsonTree

  /** The characters strings.Trim(scope, "#/") removes at either end. */
  const Fragment: set<char> := {'#', '/'}

  /**
   * Trim every leading and trailing '#' and '/', drop every "properties/"
   * unless the schema keywords themselves are wanted, then turn each '/'
   * into the '.' that separates gabs path segments.
   */
  function GabsPath(scope: string, withProperties: bool): string
  {
    var trimmed := Trim(scope, Fragment);
    var stripped := if withProperties then trimmed else ReplaceAll(trimmed, PropertiesStep, "");
    ReplaceAll(stripped, ['/'], ['.'])
  }

  /** A gabs path never holds a '/': every one became a '.'. */
  lemma GabsPathNoSlash(scope: string, withProperties: bool)
    ensures '/' !in GabsPath(scope, withProperties)
  {
    var trimmed := Trim(scope, Fragment);
    ReplaceCharFacts(if withProperties then trimmed else ReplaceAll(trimmed, PropertiesStep, ""), '/', '.');
  }

  /**
   * With the schema keywords kept, the path is the trimmed scope with each
   * '/' turned into '.', character for character.
   */
  lemma GabsPathKeepsProperties(scope: string)
    ensures |GabsPath(scope, true)| == |Trim(scope, Fragment)|
    ensures forall i :: 0 <= i < |Trim(scope, Fragment)| ==>
      GabsPath(scope, true)[i] == (if Trim(scope, Fragment)[i] == '/' then '.' else Trim(scope, Fragment)[i])
  {
    ReplaceCharFacts(Trim(scope, Fragment), '/', '.');
  }

  /**
   * The gabs segments of the path are the '/'-separated tokens of the
   * trimmed scope, provided no token holds a '.' of its own.
   */
  lemma GabsPathSegments(scope: string)
    requires '.' !in Trim(scope, Fragment)
    ensures Segments(GabsPath(scope, true)) == Split(Trim(scope, Fragment), '/')
  {
    SplitAfterReplace(Trim(scope, Fragment), '/', '.');
  }

  const PropertiesStep: string := "properties/"

  /**
   * The scope of a field inside an element of an array property, and the
   * data path it leads to: both "properties/" steps are dropped and the
   * three names are joined by '.'. The names hold no 'p' (so no
   * "properties/" hides inside them) and no '#' or '/'.
   */
  lemma GabsPathOfItemScope(arr: string, idx: string, field: string)
    requires field != [] && PlainName(arr) && PlainName(idx) && PlainName(field)
    ensures GabsPath("#/" + PropertiesStep + arr + "/" + idx + "/" + PropertiesStep + field, false)
         == arr + "." + idx + "." + field
  {
    var mid := arr + "/" + idx + "/";
    var scope := "#/" + PropertiesStep + mid + PropertiesStep + field;
    assert scope == "#/" + PropertiesStep + arr + "/" + idx + "/" + PropertiesStep + field;
    assert scope[|scope| - 1] == field[|field| - 1];
    TrimHashSlash(scope);
    assert scope[2..] == PropertiesStep + mid + PropertiesStep + field;
    forall i | 0 <= i < |mid| ensures mid[i] != 'p' {
      if i < |arr| { assert mid[i] == arr[i]; }
      else if |arr| < i < |arr| + 1 + |idx| { assert mid[i] == idx[i - |arr| - 1]; }
    }
    assert 'p' !in field by {
      forall i | 0 <= i < |field| ensures field[i] != 'p' { }
    }
    DropPropertiesSteps(mid, field);
    SlashesToDots(arr, idx, field);
  }

  /** A name of a property or an index: no 'p', '#' or '/'. */
  predicate PlainName(s: string) {
    forall i :: 0 <= i < |s| ==> s[i] != 'p' && s[i] !in Fragment
  }

  /** Both "properties/" steps are dropped and the text between them kept. */
  lemma DropPropertiesSteps(mid: string, field: string)
    requires 'p' !in mid && 'p' !in field
    ensures ReplaceAll(PropertiesStep + mid + PropertiesStep + field, PropertiesStep, "") == mid + field
  {
    assert PropertiesStep + mid + PropertiesStep + field == PropertiesStep + (mid + (PropertiesStep + field));
    ReplaceAllHit(PropertiesStep, mid + (PropertiesStep + field), "");
    NoStart(mid, PropertiesStep + field, PropertiesStep);
    ReplaceAllSkip(mid, PropertiesStep + field, PropertiesStep, "");
    ReplaceAllHit(PropertiesStep, field, "");
    NoStart(field, [], PropertiesStep);
    assert field + [] == field;
    ReplaceAllSkip(field, [], PropertiesStep, "");
  }

  lemma SlashesToDots(arr: string, idx: string, field: string)
    requires PlainName(arr) && PlainName(idx) && PlainName(field)
    ensures ReplaceAll(arr + "/" + idx + "/" + field, "/", ".") == arr + "." + idx + "." + field
  {
    var u := arr + "/" + idx + "/" + field;
    var w := arr + "." + idx + "." + field;
    ReplaceCharFacts(u, '/', '.');
    var r := ReplaceAll(u, "/", ".");
    forall i | 0 <= i < |u| ensures r[i] == w[i] {
      if i < |arr| {
        assert u[i] == arr[i] && w[i] == arr[i];
      } else if i == |arr| {
      } else if i < |arr| + 1 + |idx| {
        assert u[i] == idx[i - |arr| - 1] && w[i] == idx[i - |arr| - 1];
      } else if i == |arr| + 1 + |idx| {
      } else {
        var k := i - |arr| - 2 - |idx|;
        assert u[i] == field[k] && w[i] == field[k];
      }
    }
  }

  /** The nested-array scope of the repository's test case for the current package. */
  lemma GabsPathOfArrayScope()
    ensures GabsPath("#/properties/comments/0/properties/message", false) == "comments.0.message"
  {
    assert "#/properties/comments/0/properties/message"
        == "#/" + PropertiesStep + "comments" + "/" + "0" + "/" + PropertiesStep + "message";
    assert "comments.0.message" == "comments" + "." + "0" + "." + "message";
    GabsPathOfItemScope("comments", "0", "message");
  }

  /** The nested-array scope of the repository's test case for the root package. */
  lemma GabsPathOfLegacyArrayScope()
    ensures GabsPath("#/properties/comments/1/properties/name", false) == "comments.1.name"
  {
    assert "#/properties/comments/1/properties/name"
        == "#/" + PropertiesStep + "comments" + "/" + "1" + "/" + PropertiesStep + "name";
    assert "comments.1.name" == "comments" + "." + "1" + "." + "name";
    GabsPathOfItemScope("comments", "1", "name");
  }

  /** With the schema keywords kept, the "properties" step stays in the path. */
  lemma GabsPathWithProperties()
    ensures GabsPath("#/" + PropertiesStep + "name", true) == "properties.name"
  {
    var scope := "#/" + PropertiesStep + "name";
    TrimHashSlash(scope);
    ReplaceCharFacts(scope[2..], '/', '.');
    assert ReplaceAll(scope[2..], "/", ".") == "properties.name";
  }

  /** A scope starting with "#/" and ending in a letter loses exactly those two characters. */
  lemma TrimHashSlash(s: string)
    requires |s| > 2 && s[0] == '#' && s[1] == '/' && s[2] !in Fragment && s[|s| - 1] !in Fragment
    ensures Trim(s, Fragment) == s[2..]
  {
    assert TrimLeft(s[2..], Fragment) == s[2..];
    assert TrimLeft(s[1..], Fragment) == TrimLeft(s[1..][1..], Fragment);
    assert s[1..][1..] == s[2..];
    assert TrimLeft(s, Fragment) == s[2..];
    assert TrimRight(s[2..], Fragment) == s[2..];
  }

  /** No occurrence of `sep` starts inside `a` when `a` lacks its first character. */
  lemma NoStart(a: string, b: string, sep: string)
    requires sep != [] && sep[0] !in a
    ensures forall j :: 0 <= j < |a| ==> !OccursAt(a + b, sep, j)
  {
    forall j | 0 <= j < |a| ensures !OccursAt(a + b, sep, j) {
      assert (a + b)[j] == a[j];
      assert a[j] in a;
    }
  }
}

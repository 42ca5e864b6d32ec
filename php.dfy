/** The handful of PHP built-ins the snippets controller relies on, specialised to the
    way the controller calls them: truthiness (`empty`, `!`), an anchored prefix test
    (`preg_match('/^...')`) and character-set trimming (`rtrim`, `ltrim`). */
module Php {

  datatype Option<T> = None | Some(value: T)

  /** `empty($v)`, equivalently `!$v`, for a value that is either absent (null) or a
      string: PHP treats null, "" and "0" as false. */
  predicate Falsy(v: Option<string>)
  {
    v.None? || v.value == "" || v.value == "0"
  }

  /** `preg_match('/^prefix/', $s)` for a prefix without regular-expression
      metacharacters: the match is anchored at the start of the subject only. */
  predicate StartsWith(s: string, prefix: string)
  {
    |prefix| <= |s| && s[..|prefix|] == prefix
  }

  /** `rtrim($s, $chars)` where `$chars` holds no `..` range: PHP reads its second
      argument as a SET of characters and removes the longest suffix made only of them. */
  function RTrim(s: string, cs: set<char>): (r: string)
    ensures |r| <= |s| && r == s[..|r|]
    ensures r == [] || r[|r| - 1] !in cs
    ensures forall i :: |r| <= i < |s| ==> s[i] in cs
    decreases |s|
  {
    if |s| > 0 && s[|s| - 1] in cs then RTrim(s[..|s| - 1], cs) else s
  }

  /** `ltrim($s, $chars)`: removes the longest prefix made only of characters of `cs`. */
  function LTrim(s: string, cs: set<char>): (r: string)
    ensures |r| <= |s| && r == s[|s| - |r|..]
    ensures r == [] || r[0] !in cs
    ensures forall i :: 0 <= i < |s| - |r| ==> s[i] in cs
    decreases |s|
  {
    if |s| > 0 && s[0] in cs then LTrim(s[1..], cs) else s
  }

  /** The three properties of RTrim's contract determine its result: any split of `s`
      into a part that does not end in `cs` and a tail drawn from `cs` is RTrim's split. */
  lemma RTrimUnique(s: string, cs: set<char>, p: string)
    requires |p| <= |s| && s[..|p|] == p
    requires p == [] || p[|p| - 1] !in cs
    requires forall i :: |p| <= i < |s| ==> s[i] in cs
    ensures RTrim(s, cs) == p
  {
  }

  /** The same for LTrim: any split into a head drawn from `cs` and a rest that does not
      start with a character of `cs` is LTrim's split. */
  lemma LTrimUnique(s: string, cs: set<char>, q: string)
    requires |q| <= |s| && s[|s| - |q|..] == q
    requires q == [] || q[0] !in cs
    requires forall i :: 0 <= i < |s| - |q| ==> s[i] in cs
    ensures LTrim(s, cs) == q
  {
  }

  /** A non-empty front that ends outside `cs` shields itself from rtrim: only the
      appended part is trimmed. */
  lemma RTrimAppend(p: string, x: string, cs: set<char>)
    requires p != [] && p[|p| - 1] !in cs
    ensures RTrim(p + x, cs) == p + RTrim(x, cs)
  {
    var t := RTrim(x, cs);
    var s := p + x;
    var q := p + t;
    assert s[..|q|] == q by {
      assert x[..|t|] == t;
    }
    assert q[|q| - 1] !in cs by {
      if t == [] { assert q[|q| - 1] == p[|p| - 1]; } else { assert q[|q| - 1] == t[|t| - 1]; }
    }
    forall i | |q| <= i < |s| ensures s[i] in cs {
      assert s[i] == x[i - |p|];
    }
    RTrimUnique(s, cs, q);
  }

  /** Leading characters of `cs` are all removed, however many there are. */
  lemma LTrimSkipsHead(c: char, x: string, cs: set<char>)
    requires c in cs
    ensures LTrim([c] + x, cs) == LTrim(x, cs)
  {
    assert ([c] + x)[1..] == x;
  }
}

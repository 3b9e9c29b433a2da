/** The Python string operations the URL rewrite relies on: `str.startswith`,
    `in` on strings and `str.replace(old, new, 1)`. The last two both rest on a
    first-occurrence search, modelled here as `Find`. */
module Text {
  import opened Wrappers

  /** `sub` occurs in `s` starting at index `i`. */
  predicate OccursAt(s: string, sub: string, i: int)
  {
    0 <= i && i + |sub| <= |s| && s[i..i + |sub|] == sub
  }

  /** Python's `s.startswith(prefix)`: `s` is `prefix` followed by something. */
  predicate StartsWith(s: string, prefix: string)
    ensures StartsWith(s, prefix) <==> exists rest :: s == prefix + rest
  {
    var b := |prefix| <= |s| && s[..|prefix|] == prefix;
    assert b ==> s == prefix + s[|prefix|..];
    b
  }

  /** A prefix of a prefix is a prefix. */
  lemma PrefixTransitive(s: string, t: string, p: string)
    requires StartsWith(s, t) && StartsWith(t, p)
    ensures StartsWith(s, p)
  {
  }

  /** Searches for the first occurrence of `sub` at or after index `i`,
      knowing that none starts before `i`. */
  function FindFrom(s: string, sub: string, i: nat): (r: Option<nat>)
    requires forall j :: 0 <= j < i ==> !OccursAt(s, sub, j)
    ensures r.Some? ==> OccursAt(s, sub, r.value)
    ensures r.Some? ==> forall j :: 0 <= j < r.value ==> !OccursAt(s, sub, j)
    ensures r.None? ==> forall j :: !OccursAt(s, sub, j)
    decreases |s| + 1 - i
  {
    if i + |sub| > |s| then None
    else if s[i..i + |sub|] == sub then Some(i)
    else FindFrom(s, sub, i + 1)
  }

  /** The first-occurrence search behind `in` and `replace`: the lowest index at
      which `sub` occurs, or `None` (like `str.find` returning -1). */
  function Find(s: string, sub: string): (r: Option<nat>)
    ensures r.Some? ==> OccursAt(s, sub, r.value)
    ensures r.Some? ==> forall j :: 0 <= j < r.value ==> !OccursAt(s, sub, j)
    ensures r.None? <==> forall j :: !OccursAt(s, sub, j)
  {
    FindFrom(s, sub, 0)
  }

  /** Python's `sub in s` on two strings: some occurrence exists. */
  predicate Contains(s: string, sub: string)
    ensures Contains(s, sub) <==> exists j :: OccursAt(s, sub, j)
  {
    var r := Find(s, sub);
    assert r.Some? ==> OccursAt(s, sub, r.value);
    r.Some?
  }

  /** For a one-character needle, Python's substring test is character membership. */
  lemma ContainsChar(s: string, c: char)
    ensures Contains(s, [c]) <==> c in s
  {
    if c in s {
      var j :| 0 <= j < |s| && s[j] == c;
      assert s[j..j + 1] == [c];
      assert OccursAt(s, [c], j);
    }
    if Contains(s, [c]) {
      var j := Find(s, [c]).value;
      assert s[j..j + 1][0] == s[j];
    }
  }

  /** A prefix occurrence is the first occurrence, so `Find` reports index 0. */
  lemma FindPrefix(s: string, prefix: string)
    requires StartsWith(s, prefix)
    ensures Find(s, prefix) == Some(0)
  {
  }

  /** Python's `s.replace(old, new, 1)`, which replaces the first occurrence only.
      The contract covers the two cases the URL rewrite reaches: a leading
      occurrence, and no occurrence at all. */
  function ReplaceFirst(s: string, pattern: string, replacement: string): (r: string)
    ensures (forall j :: !OccursAt(s, pattern, j)) ==> r == s
    ensures StartsWith(s, pattern) ==> r == replacement + s[|pattern|..]
  {
    match Find(s, pattern)
    case None => s
    case Some(i) =>
      assert StartsWith(s, pattern) ==> i == 0 by {
        if StartsWith(s, pattern) { FindPrefix(s, pattern); }
      }
      s[..i] + replacement + s[i + |pattern|..]
  }
}

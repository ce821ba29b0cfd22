/**
 * String predicates standing for the regular expressions and string methods
 * of the bundler configuration: prefix (`startsWith`, `^`), suffix (`$`),
 * substring (`includes`, an unanchored regular expression) and the ASCII
 * case folding of a regular expression with the `i` flag.
 */
module Text {

  /** `s.startsWith(p)`. */
  predicate StartsWith(s: string, p: string) {
    p <= s
  }

  /**
   * A rule condition written as a plain string, such as `dependency: "url"` or
   * `mimetype: "text/javascript"`: rspack tests it as a prefix of the value.
   */
  predicate StringCondition(value: string, condition: string) {
    StartsWith(value, condition)
  }

  /** `s` ends with `p`: a regular expression `p$`. */
  predicate EndsWith(s: string, p: string) {
    |p| <= |s| && s[|s| - |p|..] == p
  }

  /** `p` occurs in `s` starting at index `i`. */
  predicate OccursAt(s: string, p: string, i: int) {
    0 <= i && i + |p| <= |s| && s[i..i + |p|] == p
  }

  /** `s.includes(p)`, or an unanchored regular expression that is a plain literal. */
  predicate Contains(s: string, p: string) {
    exists i :: 0 <= i <= |s| - |p| && OccursAt(s, p, i)
  }

  /** True when `s` ends with one of `suffixes`: an alternation `(?:a|b|c)$`. */
  predicate EndsWithAny(s: string, suffixes: seq<string>) {
    exists k :: 0 <= k < |suffixes| && EndsWith(s, suffixes[k])
  }

  /** True when `s` contains one of `needles`: an unanchored alternation `(a|b)`. */
  predicate ContainsAny(s: string, needles: seq<string>) {
    exists k :: 0 <= k < |needles| && Contains(s, needles[k])
  }

  /** A path separator as the character class `[\\/]` writes it: slash or backslash. */
  predicate IsSeparator(c: char) {
    c == '/' || c == '\\'
  }

  /** Prefixes every extension with a dot: `["png"]` becomes `[".png"]`. */
  function Dotted(exts: seq<string>): (r: seq<string>)
    ensures |r| == |exts|
    ensures forall k :: 0 <= k < |exts| ==> r[k] == "." + exts[k]
  {
    seq(|exts|, k requires 0 <= k < |exts| => "." + exts[k])
  }

  /**
   * ASCII case folding. A regular expression with the `i` flag and without the
   * `u` flag folds a character through its upper-case form unless that would take
   * a non-ASCII character into ASCII, so non-ASCII letters such as `é` and `É`
   * also fold among themselves. This mapping folds only `A`-`Z`; it is exact for
   * this configuration because every `i`-flagged pattern in it is plain ASCII, so
   * a non-ASCII character of the path can never match a pattern character either way.
   */
  function LowerChar(c: char): (r: char)
    ensures 'A' <= c <= 'Z' ==> r != c && r as int - c as int == 32
    ensures !('A' <= c <= 'Z') ==> r == c
  {
    if 'A' <= c <= 'Z' then (c as int + 32) as char else c
  }

  function Lower(s: string): (r: string)
    ensures |r| == |s|
    ensures forall i :: 0 <= i < |s| ==> r[i] == LowerChar(s[i])
  {
    seq(|s|, i requires 0 <= i < |s| => LowerChar(s[i]))
  }

  /** A string with no upper-case ASCII letter is its own folding. */
  lemma LowerOfLowerCase(s: string)
    requires forall i :: 0 <= i < |s| ==> !('A' <= s[i] <= 'Z')
    ensures Lower(s) == s
  {
  }

  lemma LowerIdempotent(s: string)
    ensures Lower(Lower(s)) == Lower(s)
  {
  }

  /** Folding commutes with taking a suffix, so a case-sensitive suffix match is also a folded one. */
  lemma EndsWithLower(s: string, p: string)
    requires EndsWith(s, p)
    ensures EndsWith(Lower(s), Lower(p))
  {
    assert Lower(s)[|s| - |p|..] == Lower(p);
  }

  /** `p` occurs in `a + b` whenever it is the whole of `b`. */
  lemma {:induction false} ContainsSuffix(a: string, b: string)
    ensures Contains(a + b, b)
  {
    assert (a + b)[|a|..|a| + |b|] == b;
    assert OccursAt(a + b, b, |a|);
  }

  /** Text added after a string cannot hide an occurrence already in it. */
  lemma {:induction false} ContainsAppend(a: string, b: string, p: string)
    requires Contains(a, p)
    ensures Contains(a + b, p)
  {
    var i :| 0 <= i <= |a| - |p| && OccursAt(a, p, i);
    assert (a + b)[i..i + |p|] == a[i..i + |p|];
    assert OccursAt(a + b, p, i);
  }

  /** A string lacking some character of `p` cannot contain `p`. */
  lemma {:induction false} MissingCharNotContained(s: string, p: string, c: char)
    requires c in p && c !in s
    ensures !Contains(s, p)
  {
    var k :| 0 <= k < |p| && p[k] == c;
    forall i | 0 <= i <= |s| - |p|
      ensures !OccursAt(s, p, i)
    {
      assert s[i + k] != c;
      assert s[i..i + |p|][k] == s[i + k];
    }
  }

  /**
   * Two suffixes that both start with the delimiter `d` and contain no other `d`
   * cannot both end one string unless they are the same suffix. This is why
   * the alternations `\.(?:png|jpg|…)$` of different rules never match the same path.
   */
  lemma DelimitedSuffixUnique(s: string, d: char, a: string, b: string)
    requires d !in a && d !in b
    requires EndsWith(s, [d] + a) && EndsWith(s, [d] + b)
    ensures a == b
  {
    // The last `d` of `s` sits just before each suffix, so both suffixes start at the same index.
    assert s[|s| - |a| - 1] == d && s[|s| - |b| - 1] == d;
    assert forall j :: |s| - |a| <= j < |s| ==> s[j] == a[j - (|s| - |a|)] != d;
    assert forall j :: |s| - |b| <= j < |s| ==> s[j] == b[j - (|s| - |b|)] != d;
    assert |a| == |b|;
    assert a == s[|s| - |a|..] == b;
  }
}

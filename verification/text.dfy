/** Text search and the buffer-consuming split used by the stream matcher.

    The matcher tests a rule with Python's substring operator and then cuts
    the buffer with `re.split(pattern, buffer, maxsplit=1)`, which reads the
    pattern as a regular expression. This module models the substring test
    exactly and the split with two outcomes: a pattern free of regular
    expression metacharacters splits at its first literal occurrence, and
    any other pattern is taken not to split, which clears the buffer.
 */
module Text {

  datatype Option<+T> = None | Some(value: T)

  /** `p` occurs in `s` starting at position `j`. */
  predicate OccursAt(s: string, p: string, j: nat) {
    j + |p| <= |s| && s[j..j + |p|] == p
  }

  /** `t` is a suffix of `s`. */
  predicate IsSuffix(t: string, s: string) {
    |t| <= |s| && s[|s| - |t|..] == t
  }

  lemma SuffixTransitive(a: string, b: string, c: string)
    requires IsSuffix(a, b) && IsSuffix(b, c)
    ensures IsSuffix(a, c)
  {
    assert c[|c| - |a|..] == c[|c| - |b|..][|b| - |a|..];
  }

  /** The first position at or after `from` where `p` occurs in `s`. */
  function FindFrom(s: string, p: string, from: nat): (r: Option<nat>)
    decreases |s| - from
    ensures r.Some? ==> from <= r.value && OccursAt(s, p, r.value)
    ensures r.Some? ==> forall j :: from <= j < r.value ==> !OccursAt(s, p, j)
    ensures r.None? ==> forall j :: from <= j ==> !OccursAt(s, p, j)
  {
    if from + |p| > |s| then None
    else if s[from..from + |p|] == p then Some(from)
    else FindFrom(s, p, from + 1)
  }

  /** The first occurrence of `p` in `s`, if any, as `re.split` finds it for
      a literal pattern. */
  function FindFirst(s: string, p: string): Option<nat> {
    FindFrom(s, p, 0)
  }

  /** Python's substring test `p in s`. */
  function Contains(s: string, p: string): (r: bool)
    ensures r <==> exists j :: 0 <= j <= |s| - |p| && OccursAt(s, p, j)
  {
    var f := FindFirst(s, p);
    if f.Some? then
      assert 0 <= f.value <= |s| - |p| && OccursAt(s, p, f.value);
      true
    else
      false
  }

  /** The characters that make Python's `re` read a pattern as more than a
      literal string. A lone `]` or `}` is literal in Python's `re`. */
  predicate IsRegexMeta(c: char) {
    c in ".^$*+?{[\\|()"
  }

  /** A pattern whose regular-expression reading is the literal string itself. */
  predicate IsRegexLiteral(p: string) {
    forall i :: 0 <= i < |p| ==> !IsRegexMeta(p[i])
  }

  /** The two outcomes of `re.split(pattern, buffer, maxsplit=1)` that the
      model distinguishes: two parts, of which the second is kept, or one. */
  datatype SplitOutcome = Split(rest: string) | Unsplit

  /** The split of a buffer known to contain the pattern. */
  function ReSplit(p: string, s: string): (r: SplitOutcome)
    requires Contains(s, p)
    ensures IsRegexLiteral(p) <==> r.Split?
    ensures r.Split? ==>
              var k := FindFirst(s, p).value;
              s == s[..k] + p + r.rest
              && forall j :: 0 <= j < k ==> !OccursAt(s, p, j)
  {
    if IsRegexLiteral(p) then
      var k := FindFirst(s, p).value;
      assert s == s[..k] + s[k..k + |p|] + s[k + |p|..];
      Split(s[k + |p|..])
    else
      Unsplit
  }

  /** The buffer left after a rule's pattern has matched: the second part of
      the split, or the empty string when the split yields one part. */
  function Consume(p: string, s: string): (r: string)
    requires Contains(s, p)
    ensures IsSuffix(r, s)
    ensures !IsRegexLiteral(p) ==> r == ""
    ensures IsRegexLiteral(p) ==>
              exists k :: 0 <= k <= |s| && s == s[..k] + p + r
                          && forall j :: 0 <= j < k ==> !OccursAt(s, p, j)
  {
    match ReSplit(p, s)
    case Split(rest) =>
      var k := FindFirst(s, p).value;
      assert s == s[..k] + p + rest;
      assert s[|s| - |rest|..] == rest;
      rest
    case Unsplit => ""
  }

  /** A pattern missing from the buffer is missing from every suffix of it:
      cutting a prefix away never makes a pattern appear. */
  lemma AbsentFromSuffix(t: string, s: string, p: string)
    requires IsSuffix(t, s) && !Contains(s, p)
    ensures !Contains(t, p)
  {
    var o := |s| - |t|;
    forall j | 0 <= j <= |t| - |p|
      ensures !OccursAt(t, p, j)
    {
      assert !OccursAt(s, p, o + j);
      assert s[o + j..o + j + |p|] == t[j..j + |p|];
    }
  }

  /** For a literal pattern whose first occurrence is at `k`, the buffer
      left is exactly the text after that occurrence. */
  lemma ConsumeAt(p: string, s: string, k: nat)
    requires IsRegexLiteral(p) && OccursAt(s, p, k)
    requires forall j :: 0 <= j < k ==> !OccursAt(s, p, j)
    ensures Contains(s, p) && Consume(p, s) == s[k + |p|..]
  {
  }
}

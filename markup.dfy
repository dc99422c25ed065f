/**
 * The tag stripping `html.replace(/<[^>]+>/g, '')` that the extractor uses to
 * get a plain-text answer out of answer markup.
 */
module Markup {

  /** Index of the first `>` in `s` at or after `from`, or `|s|` when there is none. */
  function NextClose(s: string, from: nat): (k: nat)
    requires from <= |s|
    ensures from <= k <= |s|
    ensures k < |s| ==> s[k] == '>'
    ensures forall m :: from <= m < k ==> s[m] != '>'
    decreases |s| - from
  {
    if from == |s| || s[from] == '>' then from else NextClose(s, from + 1)
  }

  /** `/<[^>]+>/` matches at index `i`, ending with the `>` at index `k`: a
      `<`, at least one character that is not `>`, then the first `>`. */
  predicate TagAt(s: string, i: int, k: int) {
    0 <= i && i + 2 <= k < |s| && s[i] == '<' && s[k] == '>'
    && forall m :: i < m < k ==> s[m] != '>'
  }

  predicate HasTag(s: string) {
    exists i, k | 0 <= i < k < |s| :: TagAt(s, i, k)
  }

  /** `s.replace(/<[^>]+>/g, '')`: scanning from the left, each match of the
      pattern is deleted and scanning resumes after it; a `<` that starts no
      match is kept. Every character of the result comes from `s`. */
  function StripTags(s: string): (r: string)
    ensures |r| <= |s|
    ensures forall m :: 0 <= m < |r| ==> r[m] in s
    decreases |s|
  {
    if s == [] then []
    else
      var k := NextClose(s, 1);
      if s[0] == '<' && 2 <= k < |s| then
        var r := StripTags(s[k + 1..]);
        assert forall c :: c in s[k + 1..] ==> c in s;
        r
      else
        var r := StripTags(s[1..]);
        assert forall c :: c in s[1..] ==> c in s;
        [s[0]] + r
  }

  /** Markup without a `<` passes through unchanged. */
  lemma {:induction false} StripTagsPlainText(s: string)
    requires '<' !in s
    ensures StripTags(s) == s
    decreases |s|
  {
    if s != [] {
      assert s[0] != '<';
      StripTagsPlainText(s[1..]);
    }
  }

  /** One pass removes every tag: what remains matches the pattern nowhere. */
  lemma {:induction false} StripTagsRemovesAllTags(s: string)
    ensures !HasTag(StripTags(s))
    decreases |s|
  {
    if s != [] {
      var k := NextClose(s, 1);
      if s[0] == '<' && 2 <= k < |s| {
        StripTagsRemovesAllTags(s[k + 1..]);
      } else {
        var rest := StripTags(s[1..]);
        StripTagsRemovesAllTags(s[1..]);
        if s[0] == '<' {
          if k == |s| {
            assert '>' !in s[1..];
          } else {
            assert s[1..][0] == '>';
          }
        }
        NoTagAfterKeptChar(s[0], rest);
      }
    }
  }

  /** A piece cut out of tag-free text is tag-free. */
  lemma NoTagInSlice(s: string, a: nat, b: nat)
    requires a <= b <= |s| && !HasTag(s)
    ensures !HasTag(s[a..b])
  {
    var t := s[a..b];
    forall i, k | 0 <= i < k < |t|
      ensures !TagAt(t, i, k)
    {
      if TagAt(t, i, k) {
        forall m | a + i < m < a + k
          ensures s[m] != '>'
        {
          assert s[m] == t[m - a];
        }
        assert TagAt(s, a + i, a + k);
      }
    }
  }

  /** A character kept in front of tag-free text starts no tag, provided that a
      kept `<` is followed at once by `>` or by no `>` at all. */
  lemma NoTagAfterKeptChar(c: char, rest: string)
    requires !HasTag(rest)
    requires c == '<' ==> (rest != [] && rest[0] == '>') || '>' !in rest
    ensures !HasTag([c] + rest)
  {
    var r := [c] + rest;
    forall i, j | 0 <= i < j < |r|
      ensures !TagAt(r, i, j)
    {
      if i > 0 {
        if TagAt(r, i, j) {
          forall m | i - 1 < m < j - 1
            ensures rest[m] != '>'
          {
            assert r[m + 1] == rest[m];
          }
          assert TagAt(rest, i - 1, j - 1);
        }
      } else if c == '<' && rest != [] && rest[0] == '>' {
        assert r[1] == '>';
      } else if c == '<' {
        assert r[j] == rest[j - 1];
      }
    }
  }
}

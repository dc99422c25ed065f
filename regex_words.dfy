/**
 * Whole-word tests written as regular expressions `/\bw\b/` (no flags), as
 * the extractor uses them on class attributes.
 */
module RegexWords {
  import opened JsText

  /** `\w` without the `u` and `i` flags: `[A-Za-z0-9_]`. */
  predicate IsWordChar(c: char) {
    'a' <= c <= 'z' || 'A' <= c <= 'Z' || '0' <= c <= '9' || c == '_'
  }

  predicate AllWordChars(s: string) {
    forall k :: 0 <= k < |s| ==> IsWordChar(s[k])
  }

  /** Position `p` holds a word character; positions outside `s` do not. */
  predicate WordCharAt(s: string, p: int) {
    0 <= p < |s| && IsWordChar(s[p])
  }

  /** `\b` holds between positions `p - 1` and `p`. */
  predicate IsBoundary(s: string, p: int) {
    WordCharAt(s, p - 1) != WordCharAt(s, p)
  }

  /** `/\bw\b/` matches `s` with the match starting at `i`. */
  predicate WholeWordAt(s: string, w: string, i: int) {
    OccursAt(s, w, i) && IsBoundary(s, i) && IsBoundary(s, i + |w|)
  }

  /** `/\bw\b/.test(s)`. */
  predicate WholeWordOccurs(s: string, w: string) {
    exists i | 0 <= i <= |s| - |w| :: WholeWordAt(s, w, i)
  }

  /** In a run of word characters the only whole word is the run itself: a
      word embedded in a longer word (`correct` in `incorrect`) is no match. */
  lemma WholeWordInWordRun(t: string, w: string)
    requires AllWordChars(t) && w != []
    ensures WholeWordOccurs(t, w) <==> t == w
  {
    if WholeWordOccurs(t, w) {
      var i :| 0 <= i <= |t| - |w| && WholeWordAt(t, w, i);
      assert WordCharAt(t, i);
      assert i == 0;
      assert WordCharAt(t, |w| - 1);
      assert |w| == |t|;
      assert t == t[0..|w|];
    }
    if t == w {
      assert t[0..|w|] == t;
      assert WholeWordAt(t, w, 0);
    }
  }

  lemma WordCharLeftOfSeparator(a: string, c: char, b: string, p: int)
    requires !IsWordChar(c) && p <= |a|
    ensures WordCharAt(a + [c] + b, p) == WordCharAt(a, p)
  {
    if 0 <= p < |a| {
      assert (a + [c] + b)[p] == a[p];
    }
  }

  lemma WordCharRightOfSeparator(a: string, c: char, b: string, p: int)
    requires !IsWordChar(c) && p >= |a|
    ensures WordCharAt(a + [c] + b, p) == WordCharAt(b, p - |a| - 1)
  {
    if p > |a| && p < |a| + 1 + |b| {
      assert (a + [c] + b)[p] == b[p - |a| - 1];
    }
  }

  lemma BoundaryRightOfSeparator(a: string, c: char, b: string, p: int)
    requires !IsWordChar(c) && p > |a|
    ensures IsBoundary(a + [c] + b, p) == IsBoundary(b, p - |a| - 1)
  {
    WordCharRightOfSeparator(a, c, b, p - 1);
    WordCharRightOfSeparator(a, c, b, p);
  }

  /** Splitting a string at a non-word character neither creates nor loses a
      whole-word match of a word. */
  lemma WholeWordAcrossSeparator(a: string, c: char, b: string, w: string)
    requires !IsWordChar(c) && w != [] && AllWordChars(w)
    ensures WholeWordOccurs(a + [c] + b, w) <==> WholeWordOccurs(a, w) || WholeWordOccurs(b, w)
  {
    if WholeWordOccurs(a + [c] + b, w) {
      WholeWordSplits(a, c, b, w);
    }
    if WholeWordOccurs(a, w) {
      WholeWordFromLeft(a, c, b, w);
    }
    if WholeWordOccurs(b, w) {
      WholeWordFromRight(a, c, b, w);
    }
  }

  lemma WholeWordSplits(a: string, c: char, b: string, w: string)
    requires !IsWordChar(c) && w != [] && AllWordChars(w)
    requires WholeWordOccurs(a + [c] + b, w)
    ensures WholeWordOccurs(a, w) || WholeWordOccurs(b, w)
  {
    var s := a + [c] + b;
    var i :| 0 <= i <= |s| - |w| && WholeWordAt(s, w, i);
    if i + |w| <= |a| {
      OccursInLeft(a, [c] + b, w, i);
      WordCharLeftOfSeparator(a, c, b, i - 1);
      WordCharLeftOfSeparator(a, c, b, i);
      WordCharLeftOfSeparator(a, c, b, i + |w| - 1);
      WordCharLeftOfSeparator(a, c, b, i + |w|);
      assert WholeWordAt(a, w, i);
    } else if i > |a| {
      assert s == (a + [c]) + b;
      OccursInRight(a + [c], b, w, i);
      WordCharRightOfSeparator(a, c, b, i - 1);
      WordCharRightOfSeparator(a, c, b, i);
      WordCharRightOfSeparator(a, c, b, i + |w| - 1);
      WordCharRightOfSeparator(a, c, b, i + |w|);
      assert WholeWordAt(b, w, i - |a| - 1);
    } else {
      WindowOverSeparator(a, c, b, w, i);
      assert false;
    }
  }

  lemma WholeWordFromLeft(a: string, c: char, b: string, w: string)
    requires !IsWordChar(c) && w != []
    requires WholeWordOccurs(a, w)
    ensures WholeWordOccurs(a + [c] + b, w)
  {
    var s := a + [c] + b;
    var i :| 0 <= i <= |a| - |w| && WholeWordAt(a, w, i);
    OccursExtended(a, [c] + b, w, i);
    assert s == a + ([c] + b);
    WordCharLeftOfSeparator(a, c, b, i - 1);
    WordCharLeftOfSeparator(a, c, b, i);
    WordCharLeftOfSeparator(a, c, b, i + |w| - 1);
    WordCharLeftOfSeparator(a, c, b, i + |w|);
    assert WholeWordAt(s, w, i);
  }

  lemma WholeWordFromRight(a: string, c: char, b: string, w: string)
    requires !IsWordChar(c) && w != []
    requires WholeWordOccurs(b, w)
    ensures WholeWordOccurs(a + [c] + b, w)
  {
    var i :| 0 <= i <= |b| - |w| && WholeWordAt(b, w, i);
    var j := i + |a| + 1;
    assert a + [c] + b == (a + [c]) + b;
    OccursShifted(a + [c], b, w, i);
    BoundaryRightOfSeparator(a, c, b, j);
    BoundaryRightOfSeparator(a, c, b, j + |w|);
    assert WholeWordAt(a + [c] + b, w, j);
  }

  /** A word matches as a whole word in a space-joined list exactly when it
      matches in one of the parts. */
  lemma {:induction false} WholeWordJoinSpace(ts: seq<string>, w: string)
    requires w != [] && AllWordChars(w)
    ensures WholeWordOccurs(JoinSpace(ts), w) <==> exists t :: t in ts && WholeWordOccurs(t, w)
  {
    if |ts| > 1 {
      assert JoinSpace(ts) == ts[0] + [' '] + JoinSpace(ts[1..]);
      WholeWordAcrossSeparator(ts[0], ' ', JoinSpace(ts[1..]), w);
      WholeWordJoinSpace(ts[1..], w);
      assert forall t :: t in ts <==> t == ts[0] || t in ts[1..];
    }
  }

  /** For class names made of word characters, separated by single spaces,
      `/\bw\b/` matches exactly when `w` is one of the class names. */
  lemma WholeWordIffClassName(ts: seq<string>, w: string)
    requires forall t :: t in ts ==> AllWordChars(t)
    requires w != [] && AllWordChars(w)
    ensures WholeWordOccurs(JoinSpace(ts), w) <==> w in ts
  {
    WholeWordJoinSpace(ts, w);
    forall t | t in ts
      ensures WholeWordOccurs(t, w) <==> t == w
    {
      WholeWordInWordRun(t, w);
    }
  }
}

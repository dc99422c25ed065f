/**
 * An element's class list as the DOM derives it from the `class` attribute
 * (the ordered-set parser of the DOM standard), and the string the extractor
 * rebuilds from it with `Array.from(classList).join(' ')`.
 */
module ClassTokens {
  import opened JsText

  /** ASCII white space in the sense of the Infra standard: tab, line feed,
      form feed, carriage return and space. */
  predicate IsAsciiWhitespace(c: char) {
    c == '\t' || c == '\n' || c == '\U{000C}' || c == '\r' || c == ' '
  }

  predicate NoAsciiWhitespace(s: string) {
    forall k :: 0 <= k < |s| ==> !IsAsciiWhitespace(s[k])
  }

  /** Length of the white-space-free run at the start of `s`. */
  function RunLength(s: string): (n: nat)
    ensures n <= |s|
    ensures forall k :: 0 <= k < n ==> !IsAsciiWhitespace(s[k])
    ensures n < |s| ==> IsAsciiWhitespace(s[n])
  {
    if s == [] || IsAsciiWhitespace(s[0]) then 0 else 1 + RunLength(s[1..])
  }

  /** The maximal white-space-free runs of `s`, in order. */
  function SplitTokens(s: string): (ts: seq<string>)
    ensures forall t :: t in ts ==> t != [] && NoAsciiWhitespace(t)
    decreases |s|
  {
    if s == [] then []
    else if IsAsciiWhitespace(s[0]) then SplitTokens(s[1..])
    else
      var n := RunLength(s);
      [s[..n]] + SplitTokens(s[n..])
  }

  /** `ts` with every repeated entry dropped after its first occurrence. */
  function Dedup(ts: seq<string>): (r: seq<string>)
    ensures forall t :: t in r <==> t in ts
    ensures forall i, j :: 0 <= i < j < |r| ==> r[i] != r[j]
  {
    if ts == [] then []
    else
      var r := Dedup(ts[..|ts| - 1]);
      var last := ts[|ts| - 1];
      assert forall t :: t in ts <==> t in ts[..|ts| - 1] || t == last;
      if last in r then r else r + [last]
  }

  /** `element.classList`. */
  function ClassList(className: string): seq<string> {
    Dedup(SplitTokens(className))
  }

  /** `Array.from(element.classList).join(' ')`. */
  function ClassListString(className: string): string {
    JoinSpace(ClassList(className))
  }

  /** A needle without white space occurs in `s` exactly when it occurs in one
      of the tokens of `s`. */
  lemma {:induction false} ContainsSplitTokens(s: string, w: string)
    requires w != [] && NoAsciiWhitespace(w)
    ensures Contains(s, w) <==> exists t :: t in SplitTokens(s) && Contains(t, w)
    decreases |s|
  {
    if s == [] {
      assert !OccursAt(s, w, 0);
    } else if IsAsciiWhitespace(s[0]) {
      assert s[0] !in w;
      assert s == [] + [s[0]] + s[1..];
      ContainsAcrossSeparator([], s[0], s[1..], w);
      assert !OccursAt([], w, 0);
      ContainsSplitTokens(s[1..], w);
    } else {
      var n := RunLength(s);
      if n == |s| {
        assert s[..n] == s;
        assert SplitTokens(s) == [s];
      } else {
        assert s[n] !in w;
        assert s == s[..n] + [s[n]] + s[n + 1..];
        ContainsAcrossSeparator(s[..n], s[n], s[n + 1..], w);
        assert s[n..][1..] == s[n + 1..];
        assert SplitTokens(s[n..]) == SplitTokens(s[n + 1..]);
        ContainsSplitTokens(s[n + 1..], w);
        assert forall t :: t in SplitTokens(s) <==> t == s[..n] || t in SplitTokens(s[n + 1..]);
      }
    }
  }

  /** The string rebuilt from the class list contains a white-space-free needle
      exactly when the class attribute itself does: the rebuilt string differs
      only in white space and repeated class names. */
  lemma ClassListStringContains(className: string, w: string)
    requires w != [] && NoAsciiWhitespace(w)
    ensures Contains(ClassListString(className), w) <==> Contains(className, w)
  {
    assert ' ' !in w;
    ContainsJoinSpace(ClassList(className), w);
    ContainsSplitTokens(className, w);
  }
}

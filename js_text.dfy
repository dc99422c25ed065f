/**
 * The JavaScript string primitives the quiz extractor is built from:
 * `String.prototype.trim`, the `a || b || ...` fallback chain on strings,
 * `String.prototype.includes`, `Array.prototype.join(' ')`,
 * `Array.prototype.map` with an index, and the decimal rendering of a number
 * in a template literal.
 */
module JsText {
  import opened Options

  // ---------------------------------------------------------------------------
  // trim
  // ---------------------------------------------------------------------------

  /** A code point `trim` removes: WhiteSpace or LineTerminator in the sense of
      sections 12.2 and 12.3 of ECMA-262 (the space separators as of Unicode 15). */
  predicate IsTrimmable(c: char) {
    c == '\t' || c == '\n' || c == '\U{000B}' || c == '\U{000C}' || c == '\r' || c == ' '
    || c == '\U{00A0}' || c == '\U{1680}' || ('\U{2000}' <= c <= '\U{200A}')
    || c == '\U{2028}' || c == '\U{2029}' || c == '\U{202F}' || c == '\U{205F}'
    || c == '\U{3000}' || c == '\U{FEFF}'
  }

  /** No trimmable code point at either end. */
  predicate IsTrimmed(s: string) {
    s == [] || (!IsTrimmable(s[0]) && !IsTrimmable(s[|s| - 1]))
  }

  predicate AllTrimmable(s: string) {
    forall k :: 0 <= k < |s| ==> IsTrimmable(s[k])
  }

  function TrimStart(s: string): (r: string)
    ensures |r| <= |s| && r == s[|s| - |r|..]
    ensures r == [] || !IsTrimmable(r[0])
    ensures forall k :: 0 <= k < |s| - |r| ==> IsTrimmable(s[k])
  {
    if s != [] && IsTrimmable(s[0]) then TrimStart(s[1..]) else s
  }

  function TrimEnd(s: string): (r: string)
    ensures |r| <= |s| && r == s[..|r|]
    ensures r == [] || !IsTrimmable(r[|r| - 1])
    ensures forall k :: |r| <= k < |s| ==> IsTrimmable(s[k])
  {
    if s != [] && IsTrimmable(s[|s| - 1]) then TrimEnd(s[..|s| - 1]) else s
  }

  /** `s.trim()`: drops the trimmable code points at both ends. The result is
      trimmed, empty exactly when `s` is all white space, and a string that is
      already trimmed comes back unchanged. */
  function Trim(s: string): (r: string)
    ensures IsTrimmed(r) && |r| <= |s|
    ensures r == [] <==> AllTrimmable(s)
    ensures IsTrimmed(s) ==> r == s
  {
    TrimEnd(TrimStart(s))
  }

  /** The trimmed string is a piece of the original, starting at `a`. */
  lemma TrimSlice(s: string) returns (a: nat)
    ensures a + |Trim(s)| <= |s| && Trim(s) == s[a..a + |Trim(s)|]
  {
    var t := TrimStart(s);
    var r := TrimEnd(t);
    a := |s| - |t|;
    assert r == t[..|r|];
    assert s[a..][..|r|] == s[a..a + |r|];
  }

  /** The trimmed string is what is left once white-space padding is cut off:
      any string written as padding, a trimmed core and padding trims to that
      core. */
  lemma {:induction false} TrimPadded(a: string, m: string, b: string)
    requires AllTrimmable(a) && AllTrimmable(b) && IsTrimmed(m)
    ensures Trim(a + m + b) == m
  {
    if m == [] {
      assert AllTrimmable(a + m + b);
    } else {
      assert a + m + b == a + (m + b) && (m + b)[0] == m[0];
      TrimStartPadded(a, m + b);
      TrimEndPadded(m, b);
    }
  }

  lemma {:induction false} TrimStartPadded(a: string, t: string)
    requires AllTrimmable(a) && (t == [] || !IsTrimmable(t[0]))
    ensures TrimStart(a + t) == t
  {
    if a != [] {
      assert (a + t)[1..] == a[1..] + t;
      TrimStartPadded(a[1..], t);
    } else {
      assert a + t == t;
    }
  }

  lemma {:induction false} TrimEndPadded(t: string, b: string)
    requires AllTrimmable(b) && (t == [] || !IsTrimmable(t[|t| - 1]))
    ensures TrimEnd(t + b) == t
  {
    if b != [] {
      assert (t + b)[..|t + b| - 1] == t + b[..|b| - 1];
      TrimEndPadded(t, b[..|b| - 1]);
    } else {
      assert t + b == t;
    }
  }

  // ---------------------------------------------------------------------------
  // `a || b || ... || last` on strings
  // ---------------------------------------------------------------------------

  /** JavaScript truthiness of a string that may be `null` or `undefined`:
      present and not empty. */
  predicate Truthy(o: Option<string>) {
    o.Some? && o.value != ""
  }

  /** `c0 || c1 || ... || last`: the first truthy candidate, or `last` when
      none is truthy. */
  function JsOr(cands: seq<Option<string>>, last: string): (r: string)
    ensures (forall i :: 0 <= i < |cands| ==> !Truthy(cands[i])) ==> r == last
    ensures forall i :: 0 <= i < |cands| && Truthy(cands[i]) && (forall j :: 0 <= j < i ==> !Truthy(cands[j]))
                        ==> r == cands[i].value
  {
    if cands == [] then last
    else if Truthy(cands[0]) then cands[0].value
    else
      var r := JsOr(cands[1..], last);
      assert forall i :: 1 <= i < |cands| ==> cands[i] == cands[1..][i - 1];
      r
  }

  // ---------------------------------------------------------------------------
  // includes
  // ---------------------------------------------------------------------------

  /** `w` occurs in `s` starting at index `i`. */
  predicate OccursAt(s: string, w: string, i: int) {
    0 <= i && i + |w| <= |s| && s[i..i + |w|] == w
  }

  /** `s.includes(w)`. */
  predicate Contains(s: string, w: string) {
    exists i | 0 <= i <= |s| - |w| :: OccursAt(s, w, i)
  }

  /** Gluing two strings with a separator that the needle does not contain
      creates no new occurrence and loses none. */
  lemma ContainsAcrossSeparator(a: string, c: char, b: string, w: string)
    requires c !in w
    ensures Contains(a + [c] + b, w) <==> Contains(a, w) || Contains(b, w)
  {
    var s := a + [c] + b;
    if Contains(s, w) {
      var i :| 0 <= i <= |s| - |w| && OccursAt(s, w, i);
      if i + |w| <= |a| {
        OccursInLeft(a, [c] + b, w, i);
        assert OccursAt(a, w, i);
      } else if i > |a| {
        assert s == (a + [c]) + b;
        OccursInRight(a + [c], b, w, i);
        assert OccursAt(b, w, i - |a| - 1);
      } else {
        WindowOverSeparator(a, c, b, w, i);
        assert false;
      }
    }
    if Contains(a, w) {
      var i :| 0 <= i <= |a| - |w| && OccursAt(a, w, i);
      OccursExtended(a, [c] + b, w, i);
      assert s == a + ([c] + b);
      assert OccursAt(s, w, i);
    }
    if Contains(b, w) {
      var i :| 0 <= i <= |b| - |w| && OccursAt(b, w, i);
      OccursShifted(a + [c], b, w, i);
      assert OccursAt(s, w, i + |a| + 1);
    }
  }

  lemma OccursExtended(p: string, q: string, w: string, i: int)
    requires OccursAt(p, w, i)
    ensures OccursAt(p + q, w, i)
  {
    assert (p + q)[i..i + |w|] == p[i..i + |w|];
  }

  lemma OccursShifted(p: string, q: string, w: string, i: int)
    requires OccursAt(q, w, i)
    ensures OccursAt(p + q, w, i + |p|)
  {
    assert (p + q)[i + |p|..i + |p| + |w|] == q[i..i + |w|];
  }

  lemma OccursInLeft(p: string, q: string, w: string, i: int)
    requires OccursAt(p + q, w, i) && i + |w| <= |p|
    ensures OccursAt(p, w, i)
  {
    assert (p + q)[i..i + |w|] == p[i..i + |w|];
  }

  lemma OccursInRight(p: string, q: string, w: string, i: int)
    requires OccursAt(p + q, w, i) && i >= |p|
    ensures OccursAt(q, w, i - |p|)
  {
    assert (p + q)[i..i + |w|] == q[i - |p|..i - |p| + |w|];
  }

  /** An occurrence whose window covers the separator has the separator in it. */
  lemma WindowOverSeparator(a: string, c: char, b: string, w: string, i: int)
    requires OccursAt(a + [c] + b, w, i) && i <= |a| < i + |w|
    ensures w[|a| - i] == c
  {
    assert w[|a| - i] == (a + [c] + b)[i..i + |w|][|a| - i];
  }

  // ---------------------------------------------------------------------------
  // join(' ')
  // ---------------------------------------------------------------------------

  /** `ts.join(' ')`. */
  function JoinSpace(ts: seq<string>): string {
    if ts == [] then ""
    else if |ts| == 1 then ts[0]
    else ts[0] + " " + JoinSpace(ts[1..])
  }

  /** A needle without a space is found in the joined string exactly when it
      is found in one of the parts. */
  lemma {:induction false} ContainsJoinSpace(ts: seq<string>, w: string)
    requires w != [] && ' ' !in w
    ensures Contains(JoinSpace(ts), w) <==> exists t :: t in ts && Contains(t, w)
  {
    if ts == [] {
      assert !OccursAt("", w, 0);
    } else if |ts| == 1 {
    } else {
      ContainsAcrossSeparator(ts[0], ' ', JoinSpace(ts[1..]), w);
      ContainsJoinSpace(ts[1..], w);
      assert ts[0] + " " + JoinSpace(ts[1..]) == ts[0] + [' '] + JoinSpace(ts[1..]);
      assert forall t :: t in ts <==> t == ts[0] || t in ts[1..];
    }
  }

  // ---------------------------------------------------------------------------
  // find(p)
  // ---------------------------------------------------------------------------

  /** `xs[j]` is the first element satisfying `p`. */
  predicate FirstWhere<T>(xs: seq<T>, p: T -> bool, j: int) {
    0 <= j < |xs| && p(xs[j]) && forall i :: 0 <= i < j ==> !p(xs[i])
  }

  /** `xs.find(p)`: the first element satisfying `p`, or none. */
  function Find<T(==)>(xs: seq<T>, p: T -> bool): (r: Option<T>)
    ensures r.None? <==> forall j :: 0 <= j < |xs| ==> !p(xs[j])
    ensures r.Some? ==> exists j :: FirstWhere(xs, p, j) && xs[j] == r.value
  {
    if xs == [] then None
    else if p(xs[0]) then
      assert FirstWhere(xs, p, 0);
      Some(xs[0])
    else
      var r := Find(xs[1..], p);
      assert forall j :: 1 <= j < |xs| ==> xs[j] == xs[1..][j - 1];
      if r.Some? then
        var j :| FirstWhere(xs[1..], p, j) && xs[1..][j] == r.value;
        FirstWhereShifted(xs, p, j);
        r
      else r
  }

  /** The first match in the tail, behind a head that does not match, is the
      first match of the whole sequence. */
  lemma FirstWhereShifted<T>(xs: seq<T>, p: T -> bool, j: int)
    requires xs != [] && !p(xs[0]) && FirstWhere(xs[1..], p, j)
    ensures FirstWhere(xs, p, j + 1) && xs[j + 1] == xs[1..][j]
  {
    forall i | 0 <= i < j + 1
      ensures !p(xs[i])
    {
      if i > 0 {
        assert xs[i] == xs[1..][i - 1];
      }
    }
  }

  // ---------------------------------------------------------------------------
  // map((x, index) => ...)
  // ---------------------------------------------------------------------------

  /** `xs.map((x, index) => f(x, index))`, built left to right. */
  function MapWithIndex<T, U>(f: (T, nat) -> U, xs: seq<T>): seq<U> {
    if xs == [] then []
    else MapWithIndex(f, xs[..|xs| - 1]) + [f(xs[|xs| - 1], |xs| - 1)]
  }

  /** Mapping one more element appends its result. */
  lemma MapWithIndexSnoc<T, U>(f: (T, nat) -> U, xs: seq<T>, i: nat)
    requires i < |xs|
    ensures MapWithIndex(f, xs[..i + 1]) == MapWithIndex(f, xs[..i]) + [f(xs[i], i)]
  {
    assert xs[..i + 1][..i] == xs[..i];
  }

  /** One result per element, in order, each computed from its element and
      its position. */
  lemma {:induction false} MapWithIndexAt<T, U>(f: (T, nat) -> U, xs: seq<T>)
    ensures |MapWithIndex(f, xs)| == |xs|
    ensures forall i :: 0 <= i < |xs| ==> MapWithIndex(f, xs)[i] == f(xs[i], i)
  {
    if xs != [] {
      var n := |xs| - 1;
      MapWithIndexAt(f, xs[..n]);
      assert forall i :: 0 <= i < n ==> xs[..n][i] == xs[i];
    }
  }

  // ---------------------------------------------------------------------------
  // Decimal rendering of a natural number, as in `${n}`
  // ---------------------------------------------------------------------------

  predicate IsDigit(c: char) {
    '0' <= c <= '9'
  }

  function DigitChar(d: nat): (c: char)
    requires d < 10
    ensures IsDigit(c) && c as int - '0' as int == d
  {
    (d + '0' as int) as char
  }

  /** The decimal digits of `n`, as a template literal renders an integer. */
  function Decimal(n: nat): (r: string)
    ensures r != [] && forall k :: 0 <= k < |r| ==> IsDigit(r[k])
    ensures r[0] == '0' ==> n == 0
  {
    if n < 10 then [DigitChar(n)] else Decimal(n / 10) + [DigitChar(n % 10)]
  }

  /** The number a string of decimal digits denotes. */
  function DigitsValue(s: string): nat
    requires forall k :: 0 <= k < |s| ==> IsDigit(s[k])
  {
    if s == [] then 0
    else
      assert IsDigit(s[|s| - 1]);
      DigitsValue(s[..|s| - 1]) * 10 + (s[|s| - 1] as int - '0' as int)
  }

  /** Reading back the digits of `n` gives `n`. */
  lemma {:induction false} DecimalRoundTrip(n: nat)
    ensures DigitsValue(Decimal(n)) == n
  {
    if n >= 10 {
      var r := Decimal(n);
      assert r[..|r| - 1] == Decimal(n / 10);
      DecimalRoundTrip(n / 10);
    }
  }

  /** Different numbers render differently. */
  lemma DecimalInjective(m: nat, n: nat)
    ensures Decimal(m) == Decimal(n) ==> m == n
  {
    DecimalRoundTrip(m);
    DecimalRoundTrip(n);
  }
}

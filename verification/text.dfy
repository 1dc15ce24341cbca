/** String operations the profile borrows from Python's `str`: `strip`,
    `lower`, `replace` and `split`, together with the facts the mapping
    relies on (stripping is idempotent and commutes with lower-casing,
    `split` is the inverse of joining). */
module Text {

  /** Python's `str.isspace` for one character: the ASCII controls
      TAB..CR and FS..US, the space, NEL, NBSP and the Unicode space
      separators, line and paragraph separators. */
  predicate IsSpace(c: char) {
    || c == ' '
    || ('\U{9}' <= c <= '\U{D}')
    || ('\U{1C}' <= c <= '\U{1F}')
    || c == '\U{85}' || c == '\U{A0}' || c == '\U{1680}'
    || ('\U{2000}' <= c <= '\U{200A}')
    || c == '\U{2028}' || c == '\U{2029}' || c == '\U{202F}'
    || c == '\U{205F}' || c == '\U{3000}'
  }

  /** A string with no whitespace at either end. */
  predicate IsStripped(s: string) {
    |s| == 0 || (!IsSpace(s[0]) && !IsSpace(s[|s| - 1]))
  }

  /** The first position at or after `i` that is not whitespace (or the
      end of `s`). */
  function SkipForward(s: string, i: nat): (n: nat)
    requires i <= |s|
    ensures i <= n <= |s|
    ensures forall k :: i <= k < n ==> IsSpace(s[k])
    ensures n < |s| ==> !IsSpace(s[n])
    decreases |s| - i
  {
    if i < |s| && IsSpace(s[i]) then SkipForward(s, i + 1) else i
  }

  /** The end of `s[..j]` once its trailing whitespace is dropped. */
  function SkipBackward(s: string, j: nat): (n: nat)
    requires j <= |s|
    ensures n <= j
    ensures forall k :: n <= k < j ==> IsSpace(s[k])
    ensures 0 < n ==> !IsSpace(s[n - 1])
  {
    if 0 < j && IsSpace(s[j - 1]) then SkipBackward(s, j - 1) else j
  }

  /** Number of leading whitespace characters. */
  function LeadingSpaces(s: string): (n: nat)
    ensures n <= |s|
    ensures forall k :: 0 <= k < n ==> IsSpace(s[k])
    ensures n < |s| ==> !IsSpace(s[n])
  {
    SkipForward(s, 0)
  }

  /** Number of trailing whitespace characters. */
  function TrailingSpaces(s: string): (n: nat)
    ensures n <= |s|
    ensures forall k :: |s| - n <= k < |s| ==> IsSpace(s[k])
    ensures n < |s| ==> !IsSpace(s[|s| - n - 1])
  {
    |s| - SkipBackward(s, |s|)
  }

  /** `r` sits at offset `i` of `s` with only whitespace around it. */
  predicate PaddedAt(s: string, r: string, i: int) {
    && 0 <= i <= |s| - |r|
    && r == s[i..i + |r|]
    && (forall k :: 0 <= k < i ==> IsSpace(s[k]))
    && (forall k :: i + |r| <= k < |s| ==> IsSpace(s[k]))
  }

  /** Python's `s.strip()`: `s` without its leading and trailing
      whitespace. The result neither starts nor ends with whitespace. */
  function Strip(s: string): (r: string)
    ensures IsStripped(r)
    ensures LeadingSpaces(s) == |s| ==> r == ""
    ensures LeadingSpaces(s) < |s| ==>
              && LeadingSpaces(s) < |s| - TrailingSpaces(s)
              && r == s[LeadingSpaces(s)..|s| - TrailingSpaces(s)]
  {
    var n := LeadingSpaces(s);
    if n == |s| then
      ""
    else
      var m := TrailingSpaces(s);
      assert m < |s| - n;
      s[n..|s| - m]
  }

  /** What `Strip` keeps sits at the end of the leading whitespace, and
      only whitespace surrounds it. */
  lemma StripPadded(s: string)
    ensures PaddedAt(s, Strip(s), LeadingSpaces(s))
  {
  }

  /** Stripping a string that is already stripped changes nothing, so
      `Strip` is idempotent. */
  lemma StripStripped(s: string)
    requires IsStripped(s)
    ensures Strip(s) == s
  {
    if |s| > 0 {
      assert LeadingSpaces(s) == 0;
      assert TrailingSpaces(s) == 0;
    }
  }

  /** Python's `str.lower` restricted to ASCII letters. */
  function LowerChar(c: char): char {
    if 'A' <= c <= 'Z' then (c as int + 32) as char else c
  }

  /** A string with no upper-case ASCII letter. */
  predicate IsLower(s: string) {
    forall i :: 0 <= i < |s| ==> !('A' <= s[i] <= 'Z')
  }

  /** Python's `s.lower()`, character by character. */
  function Lower(s: string): (r: string)
    ensures |r| == |s|
    ensures IsLower(r)
    ensures forall i :: 0 <= i < |s| ==> r[i] == LowerChar(s[i])
  {
    seq(|s|, i requires 0 <= i < |s| => LowerChar(s[i]))
  }

  /** Lower-casing never turns a letter into whitespace or back. */
  lemma LowerCharKeepsSpace(c: char)
    ensures IsSpace(LowerChar(c)) <==> IsSpace(c)
  {
  }

  /** A string without upper-case letters is its own lower-case form. */
  lemma LowerOfLower(s: string)
    requires IsLower(s)
    ensures Lower(s) == s
  {
  }

  /** Lower-casing keeps a stripped string stripped. */
  lemma LowerKeepsStripped(s: string)
    requires IsStripped(s)
    ensures IsStripped(Lower(s))
  {
    if |s| > 0 {
      LowerCharKeepsSpace(s[0]);
      LowerCharKeepsSpace(s[|s| - 1]);
    }
  }

  /** `s` and `t` have whitespace at the same positions. */
  predicate SameSpaces(s: string, t: string) {
    |s| == |t| && forall k :: 0 <= k < |s| ==> (IsSpace(s[k]) <==> IsSpace(t[k]))
  }

  /** Strings with whitespace at the same positions have the same amount
      of leading whitespace. */
  lemma SameSpacesSameLeading(s: string, t: string)
    requires SameSpaces(s, t)
    ensures LeadingSpaces(s) == LeadingSpaces(t)
  {
  }

  /** Strings with whitespace at the same positions have the same amount
      of trailing whitespace. */
  lemma SameSpacesSameTrailing(s: string, t: string)
    requires SameSpaces(s, t)
    ensures TrailingSpaces(s) == TrailingSpaces(t)
  {
  }

  /** Lower-casing keeps whitespace exactly where it was. */
  lemma LowerSameSpaces(s: string)
    ensures SameSpaces(s, Lower(s))
  {
    forall k | 0 <= k < |s| ensures IsSpace(s[k]) <==> IsSpace(Lower(s)[k]) {
      LowerCharKeepsSpace(s[k]);
    }
  }

  /** Lower-casing an infix is taking the infix of the lower-cased string. */
  lemma LowerSlice(s: string, i: int, j: int)
    requires 0 <= i <= j <= |s|
    ensures Lower(s[i..j]) == Lower(s)[i..j]
  {
  }

  /** Lower-casing keeps the amount of leading and trailing whitespace. */
  lemma LowerKeepsPadding(s: string)
    ensures LeadingSpaces(Lower(s)) == LeadingSpaces(s)
    ensures TrailingSpaces(Lower(s)) == TrailingSpaces(s)
  {
    LowerSameSpaces(s);
    SameSpacesSameLeading(s, Lower(s));
    SameSpacesSameTrailing(s, Lower(s));
  }

  /** `Strip` cuts exactly the leading and the trailing whitespace. */
  lemma StripCuts(s: string, n: nat, m: nat)
    requires n == LeadingSpaces(s) < |s| && m == TrailingSpaces(s)
    ensures n < |s| - m && Strip(s) == s[n..|s| - m]
  {
  }

  /** `s.strip().lower()` and `s.lower().strip()` agree: lower-casing
      neither creates nor removes whitespace. */
  lemma {:induction false} StripLowerCommute(s: string)
    ensures Strip(Lower(s)) == Lower(Strip(s))
  {
    var t := Lower(s);
    LowerKeepsPadding(s);
    var n, m := LeadingSpaces(s), TrailingSpaces(s);
    if n < |s| {
      StripCuts(s, n, m);
      StripCuts(t, n, m);
      LowerSlice(s, n, |s| - m);
      var u := s[n..|s| - m];
      assert Strip(s) == u;
      assert Strip(t) == Lower(u);
    } else {
      assert Strip(s) == "" == Strip(t);
      assert Lower("") == "";
    }
  }

  /** How often `c` occurs in `s`. */
  function Count(s: string, c: char): nat {
    multiset(s)[c]
  }

  /** Python's `s.replace(pat, rep)`: every occurrence of `pat`, scanning
      left to right without overlap, is replaced by `rep`. */
  function Replace(s: string, pat: string, rep: string): (r: string)
    requires |pat| > 0
    ensures |rep| <= |pat| ==> |r| <= |s|
    ensures |s| < |pat| ==> r == s
    decreases |s|
  {
    if |pat| <= |s| && s[..|pat|] == pat then
      rep + Replace(s[|pat|..], pat, rep)
    else if |s| == 0 then
      ""
    else
      [s[0]] + Replace(s[1..], pat, rep)
  }

  /** Joins `parts` with `sep` between neighbours (Python's `sep.join`). */
  function Join(parts: seq<string>, sep: char): string
    requires |parts| >= 1
  {
    if |parts| == 1 then parts[0] else parts[0] + [sep] + Join(parts[1..], sep)
  }

  /** Counting over a string that starts with `c`. */
  lemma CountCons(c: char, s: string, x: char)
    ensures Count([c] + s, x) == (if c == x then 1 else 0) + Count(s, x)
  {
    assert multiset([c] + s) == multiset([c]) + multiset(s);
  }

  /** Counting over a concatenation. */
  lemma CountAppend(a: string, b: string, x: char)
    ensures Count(a + b, x) == Count(a, x) + Count(b, x)
  {
    assert multiset(a + b) == multiset(a) + multiset(b);
  }

  /** Prepending a character to the first piece prepends it to the join. */
  lemma JoinPrepend(c: char, parts: seq<string>, sep: char)
    requires |parts| >= 1
    ensures Join([[c] + parts[0]] + parts[1..], sep) == [c] + Join(parts, sep)
  {
    var r := [[c] + parts[0]] + parts[1..];
    if |parts| > 1 {
      assert r[1..] == parts[1..];
    }
  }

  /** Python's `s.split(sep)` for a one-character separator: the pieces
      between separators, in order, empty ones included, so there is
      always one more piece than there are separators. */
  function Split(s: string, sep: char): (r: seq<string>)
    ensures |r| == Count(s, sep) + 1
    ensures forall i :: 0 <= i < |r| ==> sep !in r[i]
  {
    if |s| == 0 then
      [""]
    else
      var rest := Split(s[1..], sep);
      assert s == [s[0]] + s[1..];
      CountCons(s[0], s[1..], sep);
      if s[0] == sep then
        [""] + rest
      else
        [[s[0]] + rest[0]] + rest[1..]
  }

  /** Joining the pieces of a split gives back the string. */
  lemma {:induction false} JoinSplit(s: string, sep: char)
    ensures Join(Split(s, sep), sep) == s
  {
    if |s| > 0 {
      var rest := Split(s[1..], sep);
      JoinSplit(s[1..], sep);
      if s[0] == sep {
        assert ([""] + rest)[1..] == rest;
      } else {
        JoinPrepend(s[0], rest, sep);
      }
      assert s == [s[0]] + s[1..];
    }
  }

  /** The separator sits right after the first piece. */
  lemma SeparatorAt(x: string, y: string, sep: char)
    ensures (x + [sep] + y)[|x|] == sep
  {
  }

  /** Two separator-free lists that join to the same string are equal. */
  lemma {:induction false} JoinInjective(a: seq<string>, b: seq<string>, sep: char)
    requires |a| >= 1 && |b| >= 1
    requires forall i :: 0 <= i < |a| ==> sep !in a[i]
    requires forall i :: 0 <= i < |b| ==> sep !in b[i]
    requires Join(a, sep) == Join(b, sep)
    ensures a == b
  {
    var j := Join(a, sep);
    if |a| > 1 && |b| > 1 {
      var ja, jb := Join(a[1..], sep), Join(b[1..], sep);
      assert j == a[0] + [sep] + ja;
      assert j == b[0] + [sep] + jb;
      if |a[0]| < |b[0]| {
        SeparatorAt(a[0], ja, sep);
      } else if |b[0]| < |a[0]| {
        SeparatorAt(b[0], jb, sep);
      } else {
        assert a[0] == j[..|a[0]|] == b[0];
        assert ja == j[|a[0]| + 1..] == jb;
        JoinInjective(a[1..], b[1..], sep);
        assert a == [a[0]] + a[1..];
        assert b == [b[0]] + b[1..];
      }
    }
  }

  /** Splitting undoes joining: the pieces of a separator-free list come
      back unchanged, empty pieces included. */
  lemma SplitJoin(parts: seq<string>, sep: char)
    requires |parts| >= 1
    requires forall i :: 0 <= i < |parts| ==> sep !in parts[i]
    ensures Split(Join(parts, sep), sep) == parts
  {
    JoinSplit(Join(parts, sep), sep);
    JoinInjective(Split(Join(parts, sep), sep), parts, sep);
  }
}

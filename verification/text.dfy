/**
 * The string primitives the workflow relies on: Python's `str.lower()`,
 * `str.strip()` and `sep.join(parts)`.
 */
module Text {

  /** An ASCII upper-case letter. */
  predicate IsUpper(c: char) {
    'A' <= c <= 'Z'
  }

  /** One character of `str.lower()`, restricted to the ASCII letters. */
  function LowerChar(c: char): (r: char)
    ensures IsUpper(c) ==> 'a' <= r <= 'z' && r as int - c as int == 'a' as int - 'A' as int
    ensures !IsUpper(c) ==> r == c
  {
    if IsUpper(c) then (c as int - 'A' as int + 'a' as int) as char else c
  }

  /** `s.lower()`: every ASCII upper-case letter is lowered, nothing else changes. */
  function Lower(s: string): (r: string)
    ensures |r| == |s|
    ensures forall i :: 0 <= i < |s| ==> r[i] == LowerChar(s[i])
  {
    seq(|s|, i requires 0 <= i < |s| => LowerChar(s[i]))
  }

  /** A lower-case ASCII word such as "sufficient", "exit" or "quit". */
  predicate IsLowerWord(w: string) {
    forall i :: 0 <= i < |w| ==> 'a' <= w[i] <= 'z'
  }

  /** `c` spells the lower-case letter `l` in either case. */
  predicate SameLetter(c: char, l: char) {
    c == l || c as int == l as int - ('a' as int - 'A' as int)
  }

  /**
   * Lowering `s` gives the lower-case word `w` exactly when `s` spells `w`
   * letter by letter in any mix of cases.
   */
  lemma LowerMatchesIff(s: string, w: string)
    requires IsLowerWord(w)
    ensures Lower(s) == w <==> |s| == |w| && forall i :: 0 <= i < |s| ==> SameLetter(s[i], w[i])
  {
    if |s| == |w| && forall i :: 0 <= i < |s| ==> SameLetter(s[i], w[i]) {
      forall i | 0 <= i < |s|
        ensures Lower(s)[i] == w[i]
      {
        assert SameLetter(s[i], w[i]);
      }
    }
  }

  /** Python's `str.isspace()` for one character (the whitespace `str.strip()` removes). */
  predicate IsSpace(c: char) {
    || c == ' ' || c == '\t' || c == '\n' || c == '\r'
    || c == '\U{000B}' || c == '\U{000C}'
    || ('\U{001C}' <= c <= '\U{001F}')
    || c == '\U{0085}' || c == '\U{00A0}' || c == '\U{1680}'
    || ('\U{2000}' <= c <= '\U{200A}')
    || c == '\U{2028}' || c == '\U{2029}' || c == '\U{202F}' || c == '\U{205F}' || c == '\U{3000}'
  }

  /** The first index from `from` on that does not hold whitespace, or `|s|` if there is none. */
  function SkipSpace(s: string, from: nat): (n: nat)
    requires from <= |s|
    ensures from <= n <= |s|
    ensures forall k :: from <= k < n ==> IsSpace(s[k])
    ensures n < |s| ==> !IsSpace(s[n])
    decreases |s| - from
  {
    if from < |s| && IsSpace(s[from]) then SkipSpace(s, from + 1) else from
  }

  /** The end of `s[..until]` once its trailing whitespace is dropped. */
  function SkipSpaceBack(s: string, until: nat): (n: nat)
    requires until <= |s|
    ensures n <= until
    ensures forall k :: n <= k < until ==> IsSpace(s[k])
    ensures n > 0 ==> !IsSpace(s[n - 1])
    decreases until
  {
    if until > 0 && IsSpace(s[until - 1]) then SkipSpaceBack(s, until - 1) else until
  }

  /** `s.lstrip()`: the suffix of `s` after its leading whitespace. */
  function TrimStart(s: string): string {
    s[SkipSpace(s, 0)..]
  }

  /** `s.rstrip()`: the prefix of `s` before its trailing whitespace. */
  function TrimEnd(s: string): string {
    s[..SkipSpaceBack(s, |s|)]
  }

  /**
   * `s.strip()`: `r` is the slice of `s` that starts after its leading
   * whitespace, has only whitespace after it, and neither starts nor ends
   * with whitespace.
   */
  function Strip(s: string): (r: string)
    ensures var i := SkipSpace(s, 0);
      && i + |r| <= |s| && r == s[i..i + |r|]
      && (forall k :: 0 <= k < i ==> IsSpace(s[k]))
      && (forall k :: i + |r| <= k < |s| ==> IsSpace(s[k]))
    ensures |r| > 0 ==> !IsSpace(r[0]) && !IsSpace(r[|r| - 1])
  {
    var i := SkipSpace(s, 0);
    var t := s[i..];
    var j := SkipSpaceBack(t, |t|);
    assert t[..j] == s[i..i + j];
    assert forall k :: i + j <= k < |s| ==> s[k] == t[k - i];
    TrimEnd(TrimStart(s))
  }

  /** Lower-casing maps whitespace to whitespace and everything else to non-whitespace. */
  lemma LowerKeepsSpace(c: char)
    ensures IsSpace(LowerChar(c)) == IsSpace(c)
  {
  }

  /** Lower-casing does not move the first non-whitespace index. */
  lemma {:induction false} SkipSpaceLower(x: string, from: nat)
    requires from <= |x|
    ensures SkipSpace(Lower(x), from) == SkipSpace(x, from)
    decreases |x| - from
  {
    if from < |x| {
      LowerKeepsSpace(x[from]);
      if IsSpace(x[from]) {
        SkipSpaceLower(x, from + 1);
      }
    }
  }

  /** Lower-casing does not move the end of the text before its trailing whitespace. */
  lemma {:induction false} SkipSpaceBackLower(x: string, until: nat)
    requires until <= |x|
    ensures SkipSpaceBack(Lower(x), until) == SkipSpaceBack(x, until)
    decreases until
  {
    if until > 0 {
      LowerKeepsSpace(x[until - 1]);
      if IsSpace(x[until - 1]) {
        SkipSpaceBackLower(x, until - 1);
      }
    }
  }

  /** Lower-casing a slice is slicing the lower-cased text. */
  lemma LowerSlice(x: string, a: nat, b: nat)
    requires a <= b <= |x|
    ensures Lower(x)[a..b] == Lower(x[a..b])
  {
  }

  /** Lower-casing does not touch whitespace, so it commutes with stripping. */
  lemma StripLowerCommute(x: string)
    ensures Strip(Lower(x)) == Lower(Strip(x))
  {
    TrimStartLower(x);
    TrimEndLower(TrimStart(x));
  }

  /** Lower-casing commutes with trimming the front, since it keeps every whitespace character. */
  lemma TrimStartLower(x: string)
    ensures TrimStart(Lower(x)) == Lower(TrimStart(x))
  {
    SkipSpaceLower(x, 0);
    LowerSlice(x, SkipSpace(x, 0), |x|);
  }

  /** Lower-casing commutes with trimming the back, since it keeps every whitespace character. */
  lemma TrimEndLower(x: string)
    ensures TrimEnd(Lower(x)) == Lower(TrimEnd(x))
  {
    SkipSpaceBackLower(x, |x|);
    LowerSlice(x, 0, SkipSpaceBack(x, |x|));
  }

  /** Python's `sep.join(parts)`. */
  function Join(parts: seq<string>, sep: string): (r: string)
    decreases |parts|
  {
    if |parts| == 0 then ""
    else if |parts| == 1 then parts[0]
    else parts[0] + sep + Join(parts[1..], sep)
  }

  /** Joining one more part appends the separator and that part to the previous join. */
  lemma {:induction false} JoinSnoc(parts: seq<string>, sep: string, x: string)
    requires |parts| > 0
    ensures Join(parts + [x], sep) == Join(parts, sep) + sep + x
    decreases |parts|
  {
    if |parts| == 1 {
      assert parts + [x] == [parts[0], x];
      assert (parts + [x])[1..] == [x];
    } else {
      assert (parts + [x])[1..] == parts[1..] + [x];
      JoinSnoc(parts[1..], sep, x);
    }
  }

  /** Length of a join: all parts plus one separator between each neighbouring pair. */
  lemma {:induction false} JoinLength(parts: seq<string>, sep: string)
    ensures |parts| > 0 ==> |Join(parts, sep)| == TotalLength(parts) + (|parts| - 1) * |sep|
    decreases |parts|
  {
    if |parts| > 1 {
      JoinLength(parts[1..], sep);
    }
  }

  /** Sum of the lengths of all parts. */
  function TotalLength(parts: seq<string>): nat
    decreases |parts|
  {
    if |parts| == 0 then 0 else |parts[0]| + TotalLength(parts[1..])
  }
}

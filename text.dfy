/**
 * The handful of Python `str` operations the companion's logic relies on:
 * substring test (`w in s`), `lower()`, `strip()` and `"\n".join(...)`, with
 * `split("\n")` as the inverse that reads a joined text back line by line.
 */
module Text {

  // ---------------------------------------------------------------------------
  // Substring test: Python's `needle in hay`
  // ---------------------------------------------------------------------------

  /** `needle` occurs in `hay` at offset `i`. */
  ghost predicate OccursAt(hay: string, needle: string, i: int) {
    0 <= i && i + |needle| <= |hay| && hay[i..i + |needle|] == needle
  }

  /** Python's `needle in hay`: the needle is a prefix of some suffix of hay. */
  predicate Contains(hay: string, needle: string)
    decreases |hay|
  {
    needle <= hay || (|hay| > 0 && Contains(hay[1..], needle))
  }

  /** `Contains` is exactly "occurs at some offset". */
  lemma {:induction false} ContainsIff(hay: string, needle: string)
    ensures Contains(hay, needle) <==> exists i :: OccursAt(hay, needle, i)
    decreases |hay|
  {
    if |hay| > 0 {
      ContainsIff(hay[1..], needle);
    }
    forall i | OccursAt(hay, needle, i)
      ensures Contains(hay, needle)
    {
      if i == 0 {
        assert hay[..|needle|] == needle;
      } else {
        assert hay[1..][i - 1..i - 1 + |needle|] == hay[i..i + |needle|];
        assert OccursAt(hay[1..], needle, i - 1);
      }
    }
    if Contains(hay, needle) {
      if needle <= hay {
        assert hay[0..|needle|] == needle;
        assert OccursAt(hay, needle, 0);
      } else {
        var i :| OccursAt(hay[1..], needle, i);
        assert hay[1..][i..i + |needle|] == hay[i + 1..i + 1 + |needle|];
        assert OccursAt(hay, needle, i + 1);
      }
    }
  }

  /** Python's `any(w in hay for w in words)`. */
  predicate ContainsAny(hay: string, words: seq<string>) {
    exists k :: 0 <= k < |words| && Contains(hay, words[k])
  }

  // ---------------------------------------------------------------------------
  // Case folding: Python's `str.lower()`, on the ASCII letters
  // ---------------------------------------------------------------------------

  function LowerChar(c: char): char {
    if 'A' <= c <= 'Z' then (c as int + 32) as char else c
  }

  function Lower(s: string): (r: string)
    ensures |r| == |s|
  {
    seq(|s|, i requires 0 <= i < |s| => LowerChar(s[i]))
  }

  // ---------------------------------------------------------------------------
  // Whitespace: Python's `str.isspace()` and `str.strip()`
  // ---------------------------------------------------------------------------

  /** The characters for which Python's `str.isspace()` holds. */
  predicate IsSpace(c: char) {
    ('\U{9}' <= c <= '\U{D}') || ('\U{1C}' <= c <= '\U{20}') || c == '\U{85}' || c == '\U{A0}'
    || c == '\U{1680}' || ('\U{2000}' <= c <= '\U{200A}') || c == '\U{2028}' || c == '\U{2029}'
    || c == '\U{202F}' || c == '\U{205F}' || c == '\U{3000}'
  }

  /** Number of leading whitespace characters. */
  function LeadingSpaces(s: string): (n: nat)
    ensures n <= |s|
    ensures forall k :: 0 <= k < n ==> IsSpace(s[k])
    ensures n < |s| ==> !IsSpace(s[n])
  {
    if |s| == 0 || !IsSpace(s[0]) then 0 else 1 + LeadingSpaces(s[1..])
  }

  /** Length of `s` once its trailing whitespace is cut off. */
  function EndOfText(s: string): (n: nat)
    ensures n <= |s|
    ensures forall k :: n <= k < |s| ==> IsSpace(s[k])
    ensures n > 0 ==> !IsSpace(s[n - 1])
  {
    if |s| == 0 || !IsSpace(s[|s| - 1]) then |s| else EndOfText(s[..|s| - 1])
  }

  /** Python's `s.strip()`. */
  function Strip(s: string): string {
    var t := s[LeadingSpaces(s)..];
    t[..EndOfText(t)]
  }

  /**
   * `strip()` keeps a contiguous slice of its input, removes only whitespace
   * on either side of it, and leaves no whitespace at either end.
   */
  lemma StripSpec(s: string)
    ensures exists a, b ::
              && 0 <= a <= b <= |s| && Strip(s) == s[a..b]
              && (forall k :: 0 <= k < a ==> IsSpace(s[k]))
              && (forall k :: b <= k < |s| ==> IsSpace(s[k]))
    ensures |Strip(s)| > 0 ==> !IsSpace(Strip(s)[0]) && !IsSpace(Strip(s)[|Strip(s)| - 1])
  {
    var a := LeadingSpaces(s);
    var t := s[a..];
    var b := a + EndOfText(t);
    assert Strip(s) == s[a..b];
    assert forall k :: b <= k < |s| ==> s[k] == t[k - a];
  }

  /** Leading whitespace stops at the first character that is not whitespace. */
  lemma LeadingBound(s: string, i: int)
    requires 0 <= i < |s| && !IsSpace(s[i])
    ensures LeadingSpaces(s) <= i
  {
  }

  /** Trailing whitespace starts after the last character that is not whitespace. */
  lemma EndBound(t: string, m: int)
    requires 0 <= m < |t| && !IsSpace(t[m])
    ensures m < EndOfText(t)
  {
  }

  /** A slice of a prefix of a suffix is a slice of the whole. */
  lemma SliceOfSlice<T>(s: seq<T>, a: int, e: int, i: int, j: int)
    requires 0 <= a <= i <= j && j - a <= e <= |s| - a
    ensures s[a..][..e][i - a..j - a] == s[i..j]
  {
  }

  /** A slice whose first and last characters are not whitespace survives `strip()` whole. */
  lemma StripKeeps(s: string, i: int, j: int)
    requires 0 <= i < j <= |s| && !IsSpace(s[i]) && !IsSpace(s[j - 1])
    ensures LeadingSpaces(s) <= i && j - LeadingSpaces(s) <= |Strip(s)|
    ensures Strip(s)[i - LeadingSpaces(s)..j - LeadingSpaces(s)] == s[i..j]
  {
    var a := LeadingSpaces(s);
    LeadingBound(s, i);
    var t := s[a..];
    assert t[j - 1 - a] == s[j - 1];
    EndBound(t, j - 1 - a);
    var e := EndOfText(t);
    SliceOfSlice(s, a, e, i, j);
  }

  /** A slice from `p` to `q` equal to `w` is the first `q - p` items of the suffix from `p`. */
  lemma SuffixPrefix<T>(u: seq<T>, p: int, q: int, w: seq<T>)
    requires 0 <= p <= q <= |u| && u[p..q] == w
    ensures q - p <= |u[p..]| && u[p..][..q - p] == w
  {
  }

  /** A piece that starts and ends with non-whitespace still starts where it did, once `strip()` has cut the leading whitespace. */
  lemma StripKeepsPiece(s: string, i: int, w: string)
    requires 0 <= i && i + |w| <= |s| && s[i..i + |w|] == w
    requires |w| > 0 && !IsSpace(w[0]) && !IsSpace(w[|w| - 1])
    ensures LeadingSpaces(s) <= i && i - LeadingSpaces(s) + |w| <= |Strip(s)|
    ensures Strip(s)[i - LeadingSpaces(s)..][..|w|] == w
  {
    assert s[i] == w[0] && s[i + |w| - 1] == w[|w| - 1];
    StripKeeps(s, i, i + |w|);
    SuffixPrefix(Strip(s), i - LeadingSpaces(s), i + |w| - LeadingSpaces(s), w);
  }

  // ---------------------------------------------------------------------------
  // Lines: Python's `"\n".join(parts)` and `s.split("\n")`
  // ---------------------------------------------------------------------------

  /** Python's `sep.join(parts)`. */
  function Join(parts: seq<string>, sep: string): string {
    if |parts| == 0 then ""
    else if |parts| == 1 then parts[0]
    else parts[0] + sep + Join(parts[1..], sep)
  }

  /** Python's `s.split("\n")`: always at least one piece. */
  function SplitLines(s: string): (r: seq<string>)
    ensures |r| >= 1
  {
    if |s| == 0 then [""]
    else
      var rest := SplitLines(s[1..]);
      if s[0] == '\n' then [""] + rest
      else [[s[0]] + rest[0]] + rest[1..]
  }

  /** A piece without a line break is one line. */
  lemma {:induction false} SplitSingleLine(a: string)
    requires '\n' !in a
    ensures SplitLines(a) == [a]
  {
    if |a| > 0 {
      SplitSingleLine(a[1..]);
      assert [a[0]] + a[1..] == a;
    }
  }

  /** Splitting after a line without a break yields that line, then the rest. */
  lemma {:induction false} SplitAfterLine(a: string, b: string)
    requires '\n' !in a
    ensures SplitLines(a + "\n" + b) == [a] + SplitLines(b)
  {
    if |a| == 0 {
      assert a + "\n" + b == "\n" + b;
      assert ("\n" + b)[1..] == b;
    } else {
      var s := a + "\n" + b;
      assert s[1..] == a[1..] + "\n" + b;
      SplitAfterLine(a[1..], b);
      assert [a[0]] + a[1..] == a;
    }
  }

  /** Splitting on line breaks undoes joining with line breaks. */
  lemma {:induction false} SplitJoin(parts: seq<string>)
    requires |parts| >= 1
    requires forall k :: 0 <= k < |parts| ==> '\n' !in parts[k]
    ensures SplitLines(Join(parts, "\n")) == parts
  {
    if |parts| == 1 {
      SplitSingleLine(parts[0]);
    } else {
      SplitJoin(parts[1..]);
      SplitAfterLine(parts[0], Join(parts[1..], "\n"));
      assert [parts[0]] + parts[1..] == parts;
    }
  }
}

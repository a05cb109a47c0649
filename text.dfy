/**
 * The Python `str` operations the news pipeline uses: `strip`, `rstrip`,
 * `lower` and the substring test `needle in haystack`.
 */
module Text {

  /** `c.isspace()` in Python: the Unicode whitespace characters. */
  predicate IsSpace(c: char) {
    var n := c as int;
    || n == 0x20 || (0x09 <= n <= 0x0D) || (0x1C <= n <= 0x1F)
    || n == 0x85 || n == 0xA0 || n == 0x1680 || (0x2000 <= n <= 0x200A)
    || n == 0x2028 || n == 0x2029 || n == 0x202F || n == 0x205F || n == 0x3000
  }

  predicate AllSpace(s: string) {
    forall i :: 0 <= i < |s| ==> IsSpace(s[i])
  }

  /** Where the trailing whitespace of `s[..to]` begins. */
  function TrailingStart(s: string, to: nat): (n: nat)
    requires to <= |s|
    ensures n <= to
    ensures forall i :: n <= i < to ==> IsSpace(s[i])
    ensures n == 0 || !IsSpace(s[n - 1])
  {
    if to == 0 || !IsSpace(s[to - 1]) then to else TrailingStart(s, to - 1)
  }

  /** How many whitespace characters `s[from..]` starts with, counted from `from`. */
  function LeadingEnd(s: string, from: nat): (n: nat)
    requires from <= |s|
    ensures from <= n <= |s|
    ensures forall i :: from <= i < n ==> IsSpace(s[i])
    ensures n == |s| || !IsSpace(s[n])
    decreases |s| - from
  {
    if from == |s| || !IsSpace(s[from]) then from else LeadingEnd(s, from + 1)
  }

  /** `s.rstrip()`: drop trailing whitespace. */
  function RStrip(s: string): (r: string)
    ensures r <= s
    ensures r == [] || !IsSpace(r[|r| - 1])
    ensures AllSpace(s[|r|..])
  {
    s[..TrailingStart(s, |s|)]
  }

  /** `s.lstrip()`: drop leading whitespace. */
  function LStrip(s: string): (r: string)
    ensures |r| <= |s| && r == s[|s| - |r|..]
    ensures r == [] || !IsSpace(r[0])
    ensures AllSpace(s[..|s| - |r|])
  {
    s[LeadingEnd(s, 0)..]
  }

  /** `s.strip()`: the middle of `s` between leading and trailing whitespace. */
  function Strip(s: string): (r: string)
    ensures r == [] || (!IsSpace(r[0]) && !IsSpace(r[|r| - 1]))
    ensures |r| <= |s|
  {
    LStrip(RStrip(s))
  }

  /** `s.rstrip(c)` for a single character `c`. */
  function RStripChar(s: string, c: char): (r: string)
    ensures r <= s
    ensures r == [] || r[|r| - 1] != c
    ensures forall i :: |r| <= i < |s| ==> s[i] == c
  {
    if s == [] || s[|s| - 1] != c then s
    else RStripChar(s[..|s| - 1], c)
  }

  /**
   * `c.lower()` for a single character. Only the ASCII letters are mapped;
   * Python's full Unicode case mapping is not part of this model.
   */
  function LowerChar(c: char): char {
    if 'A' <= c <= 'Z' then (c as int + 32) as char else c
  }

  /** `s.lower()`. */
  function Lower(s: string): (r: string)
    ensures |r| == |s|
    ensures forall i :: 0 <= i < |s| ==> r[i] == LowerChar(s[i])
  {
    if s == [] then [] else [LowerChar(s[0])] + Lower(s[1..])
  }

  /** `needle in hay` for strings. */
  predicate Contains(hay: string, needle: string) {
    needle <= hay || (hay != [] && Contains(hay[1..], needle))
  }

  /** Stripping twice is stripping once. */
  lemma {:induction false} StripIdempotent(s: string)
    ensures Strip(Strip(s)) == Strip(s)
  {
    var t := Strip(s);
    var r := RStrip(s);
    // t has no trailing whitespace: it is a suffix of r, and r has none (unless t is empty)
    assert t == r[|r| - |t|..];
    if t != [] {
      assert t[|t| - 1] == r[|r| - 1];
    }
    RStripNoTrailing(t);
    LStripNoLeading(t);
  }

  lemma RStripNoTrailing(t: string)
    requires t == [] || !IsSpace(t[|t| - 1])
    ensures RStrip(t) == t
  {
  }

  lemma LStripNoLeading(t: string)
    requires t == [] || !IsSpace(t[0])
    ensures LStrip(t) == t
  {
  }

  /** Lower-casing twice is lower-casing once. */
  lemma LowerIdempotent(s: string)
    ensures Lower(Lower(s)) == Lower(s)
  {
    assert forall i :: 0 <= i < |s| ==> LowerChar(LowerChar(s[i])) == LowerChar(s[i]);
  }
}

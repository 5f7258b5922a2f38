/** The string operations of Python and C# that the system relies on. */
module Text {

  /**
   * The characters `str.strip()` removes, those for which `str.isspace()`
   * holds: TAB to CR, the information separators 0x1C-0x1F, the space, NEL,
   * the no-break space and the other Unicode space separators, and the line
   * and paragraph separators.
   */
  predicate IsSpace(c: char) {
    ('\t' <= c <= '\r') || ('\U{1C}' <= c <= ' ') || c == '\U{85}' || c == '\U{A0}' || c == '\U{1680}'
    || ('\U{2000}' <= c <= '\U{200A}') || c == '\U{2028}' || c == '\U{2029}'
    || c == '\U{202F}' || c == '\U{205F}' || c == '\U{3000}'
  }

  predicate AllSpace(s: string) {
    forall i :: 0 <= i < |s| ==> IsSpace(s[i])
  }

  /** The first position from `i` on that is not whitespace, or `|s|`. */
  function SkipSpaces(s: string, i: nat): (n: nat)
    requires i <= |s|
    ensures i <= n <= |s|
    ensures forall k :: i <= k < n ==> IsSpace(s[k])
    ensures n == |s| || !IsSpace(s[n])
    decreases |s| - i
  {
    if i == |s| || !IsSpace(s[i]) then i else SkipSpaces(s, i + 1)
  }

  /** The end of `s[lo..j]` once its trailing whitespace is cut. */
  function TrimEnd(s: string, lo: nat, j: nat): (n: nat)
    requires lo <= j <= |s|
    ensures lo <= n <= j
    ensures forall k :: n <= k < j ==> IsSpace(s[k])
    ensures n == lo || !IsSpace(s[n - 1])
  {
    if j == lo || !IsSpace(s[j - 1]) then j else TrimEnd(s, lo, j - 1)
  }

  /**
   * `s.strip()`: the slice of `s` between its leading and its trailing
   * whitespace. It has no whitespace at either end, and it is empty exactly
   * when `s` is all whitespace.
   */
  function Strip(s: string): (r: string)
    ensures r == [] || (!IsSpace(r[0]) && !IsSpace(r[|r| - 1]))
    ensures r == [] <==> AllSpace(s)
  {
    var i := SkipSpaces(s, 0);
    s[i..TrimEnd(s, i, |s|)]
  }

  /**
   * The stripped string is the slice of `s` that starts after the leading
   * whitespace, with only whitespace before and after it.
   */
  lemma StripSlice(s: string)
    ensures var r, i := Strip(s), SkipSpaces(s, 0);
      0 <= i <= |s| - |r| && r == s[i..i + |r|] && AllSpace(s[..i]) && AllSpace(s[i + |r|..])
  {
    var i := SkipSpaces(s, 0);
    var j := TrimEnd(s, i, |s|);
    assert forall k :: 0 <= k < |s| - j ==> s[j..][k] == s[j + k];
  }

  /** Stripping twice is stripping once. */
  lemma {:induction false} StripIdempotent(s: string)
    ensures Strip(Strip(s)) == Strip(s)
  {
    var r := Strip(s);
    if r != [] {
      assert SkipSpaces(r, 0) == 0;
      assert TrimEnd(r, 0, |r|) == |r|;
      assert r[0..|r|] == r;
    }
  }

  /** `sep.join(parts)` */
  function Join(sep: string, parts: seq<string>): string {
    if parts == [] then ""
    else if |parts| == 1 then parts[0]
    else Join(sep, parts[..|parts| - 1]) + sep + parts[|parts| - 1]
  }

  predicate OccursAt(s: string, sub: string, i: int) {
    0 <= i && i + |sub| <= |s| && s[i..i + |sub|] == sub
  }

  /** `sub in s` */
  predicate Contains(s: string, sub: string) {
    exists i :: 0 <= i <= |s| - |sub| && OccursAt(s, sub, i)
  }

  /**
   * `s.split(sep)[0]`: the part of `s` before the first occurrence of `sep`,
   * or all of `s` when `sep` does not occur.
   */
  function BeforeFirst(s: string, sep: string): (r: string)
    requires sep != []
    ensures r <= s
    ensures !Contains(r, sep)
    ensures r == s || OccursAt(s, sep, |r|)
  {
    if |s| < |sep| then
      assert forall i :: !OccursAt(s, sep, i);
      s
    else if s[..|sep|] == sep then
      assert forall i :: !OccursAt([], sep, i);
      []
    else
      var rest := BeforeFirst(s[1..], sep);
      BeforeFirstStep(s, sep, rest);
      [s[0]] + rest
  }

  /** One step of `BeforeFirst`: no occurrence at position 0 is prepended. */
  lemma BeforeFirstStep(s: string, sep: string, rest: string)
    requires sep != [] && |s| >= |sep| && s[..|sep|] != sep
    requires rest <= s[1..] && !Contains(rest, sep)
    requires rest == s[1..] || OccursAt(s[1..], sep, |rest|)
    ensures !Contains([s[0]] + rest, sep)
    ensures [s[0]] + rest == s || OccursAt(s, sep, |rest| + 1)
  {
    var r := [s[0]] + rest;
    forall i | OccursAt(r, sep, i) ensures false {
      if i > 0 {
        assert r[i..i + |sep|] == rest[i - 1..i - 1 + |sep|];
        assert OccursAt(rest, sep, i - 1);
      }
    }
    if rest != s[1..] {
      var t := s[1..];
      assert OccursAt(t, sep, |rest|);
      assert |r| + |sep| <= |s|;
      forall k | 0 <= k < |sep| ensures s[|r| + k] == sep[k] {
        assert s[|r| + k] == t[|rest| + k] == t[|rest|..|rest| + |sep|][k];
      }
      assert s[|r|..|r| + |sep|] == sep;
    }
  }

  function DigitChar(d: nat): char
    requires d < 10
  {
    "0123456789"[d]
  }

  /** `str(n)` for a natural number. */
  function NatToString(n: nat): (r: string)
    ensures r != []
  {
    if n < 10 then [DigitChar(n)] else NatToString(n / 10) + [DigitChar(n % 10)]
  }
}

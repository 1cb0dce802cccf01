/** The two string operations applied to city names before the city table
    is consulted: `str.strip()` with no argument and `str.upper()`. */
module Text {

  /** The characters Python's `str.isspace` accepts, which is the set that
      `str.strip()` removes. */
  predicate IsSpace(c: char) {
    var n := c as int;
    n == 0x20 || 0x09 <= n <= 0x0D || 0x1C <= n <= 0x1F || n == 0x85 || n == 0xA0 ||
    n == 0x1680 || 0x2000 <= n <= 0x200A || n == 0x2028 || n == 0x2029 ||
    n == 0x202F || n == 0x205F || n == 0x3000
  }

  /** The lower-case letters that upper-case to a single character 0x20
      below them: ASCII a-z and the Latin-1 letters from U+00E0 to U+00FE
      except the division sign U+00F7. */
  predicate IsLower(c: char) {
    ('a' <= c <= 'z') || (0xE0 <= c as int <= 0xFE && c as int != 0xF7)
  }

  function UpperChar(c: char): (r: char)
    ensures !IsLower(r)
    ensures !IsLower(c) ==> r == c
    ensures IsLower(c) ==> r as int + 0x20 == c as int
  {
    if IsLower(c) then (c as int - 0x20) as char else c
  }

  /** `str.upper()` on the characters above. */
  function Upper(s: string): (r: string)
    ensures |r| == |s|
    ensures forall i :: 0 <= i < |s| ==> !IsLower(r[i])
    ensures forall i :: 0 <= i < |s| && !IsLower(s[i]) ==> r[i] == s[i]
    ensures forall i :: 0 <= i < |s| && IsLower(s[i]) ==> r[i] as int + 0x20 == s[i] as int
  {
    seq(|s|, i requires 0 <= i < |s| => UpperChar(s[i]))
  }

  predicate AllSpace(s: string) {
    forall i :: 0 <= i < |s| ==> IsSpace(s[i])
  }

  /** A string `str.strip()` leaves as it is: no white space at either end. */
  predicate Trimmed(s: string) {
    s == [] || (!IsSpace(s[0]) && !IsSpace(s[|s| - 1]))
  }

  /** The number of white-space characters `s` starts with. */
  function LeadingSpaces(s: string): (n: nat)
    ensures n <= |s|
    ensures forall i :: 0 <= i < n ==> IsSpace(s[i])
    ensures n < |s| ==> !IsSpace(s[n])
    decreases |s|
  {
    if |s| > 0 && IsSpace(s[0]) then 1 + LeadingSpaces(s[1..]) else 0
  }

  /** The number of white-space characters `s` ends with. */
  function TrailingSpaces(s: string): (n: nat)
    ensures n <= |s|
    ensures forall i :: |s| - n <= i < |s| ==> IsSpace(s[i])
    ensures n < |s| ==> !IsSpace(s[|s| - 1 - n])
    decreases |s|
  {
    if |s| > 0 && IsSpace(s[|s| - 1]) then 1 + TrailingSpaces(s[..|s| - 1]) else 0
  }

  /** `str.strip()`: the slice between the leading and the trailing white
      space. */
  function Strip(s: string): (r: string)
    ensures Trimmed(r)
    ensures |r| <= |s|
  {
    var t := s[LeadingSpaces(s)..];
    t[..|t| - TrailingSpaces(t)]
  }

  lemma {:induction false} LeadingSpacesPadded(p: string, t: string)
    requires AllSpace(p) && (t == [] || !IsSpace(t[0]))
    ensures LeadingSpaces(p + t) == |p|
    decreases |p|
  {
    if p == [] {
      assert p + t == t;
    } else {
      assert (p + t)[1..] == p[1..] + t;
      LeadingSpacesPadded(p[1..], t);
    }
  }

  lemma {:induction false} TrailingSpacesPadded(t: string, q: string)
    requires AllSpace(q) && (t == [] || !IsSpace(t[|t| - 1]))
    ensures TrailingSpaces(t + q) == |q|
    decreases |q|
  {
    if q == [] {
      assert t + q == t;
    } else {
      assert (t + q)[..|t + q| - 1] == t + q[..|q| - 1];
      TrailingSpacesPadded(t, q[..|q| - 1]);
    }
  }

  /** Stripping removes exactly the white space around a trimmed core. */
  lemma StripPadded(p: string, t: string, q: string)
    requires AllSpace(p) && AllSpace(q) && Trimmed(t)
    ensures Strip(p + t + q) == t
  {
    var s := p + t + q;
    if t == [] {
      assert s == (p + q) + t;
      LeadingSpacesPadded(p + q, t);
      assert s[|p + q|..] == [];
    } else {
      assert s == p + (t + q);
      LeadingSpacesPadded(p, t + q);
      assert s[|p|..] == t + q;
      TrailingSpacesPadded(t, q);
      assert (t + q)[..|t|] == t;
    }
  }

  /** `str.strip()` is idempotent. */
  lemma StripIdempotent(s: string)
    ensures Strip(Strip(s)) == Strip(s)
  {
    var t := Strip(s);
    assert [] + t + [] == t;
    StripPadded([], t, []);
  }

  /** `str.upper()` is idempotent on the characters modelled. */
  lemma UpperIdempotent(s: string)
    ensures Upper(Upper(s)) == Upper(s)
  {
    var u := Upper(s);
    assert forall i :: 0 <= i < |u| ==> Upper(u)[i] == u[i];
  }

  /** Upper-casing of a few city names, accented letters included. */
  lemma UpperExampleRecife()
    ensures Upper("recife") == "RECIFE"
  {
  }

  lemma UpperExampleSaoPaulo()
    ensures Upper("são paulo") == "SÃO PAULO"
  {
  }

  lemma UpperExampleNatal()
    ensures Upper("natal") == "NATAL"
  {
  }
}

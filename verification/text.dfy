/** The two functions of Go's `strings` package that the browser heuristic
    uses, over strings whose characters stand for the bytes of a Go string. */
module Text {

  /** `strings.HasPrefix(s, prefix)`. */
  predicate HasPrefix(s: string, prefix: string) {
    |prefix| <= |s| && s[..|prefix|] == prefix
  }

  /** ASCII white space as `strings.TrimSpace` sees it: tab, newline,
      vertical tab, form feed, carriage return and space. */
  predicate IsSpace(c: char) {
    c == ' ' || c == '\t' || c == '\n' || c == '\U{000B}' || c == '\U{000C}' || c == '\r'
  }

  predicate AllSpace(s: string) {
    forall i :: 0 <= i < |s| ==> IsSpace(s[i])
  }

  /** True when `s` is empty or begins and ends with a non-space character. */
  predicate IsTrimmed(s: string) {
    s == [] || (!IsSpace(s[0]) && !IsSpace(s[|s| - 1]))
  }

  /** Length of the run of white space that starts `s`. */
  function LeadingSpaces(s: string): (n: nat)
    ensures n <= |s|
    ensures AllSpace(s[..n])
    ensures n < |s| ==> !IsSpace(s[n])
  {
    if |s| == 0 || !IsSpace(s[0]) then 0 else 1 + LeadingSpaces(s[1..])
  }

  /** Length of the run of white space that ends `s`. */
  function TrailingSpaces(s: string): (n: nat)
    ensures n <= |s|
    ensures AllSpace(s[|s| - n..])
    ensures n < |s| ==> !IsSpace(s[|s| - n - 1])
  {
    if |s| == 0 || !IsSpace(s[|s| - 1]) then 0 else 1 + TrailingSpaces(s[..|s| - 1])
  }

  /** `strings.TrimSpace(s)`: `s` without its leading and trailing white space. */
  function TrimSpace(s: string): (r: string)
    ensures IsTrimmed(r)
    ensures LeadingSpaces(s) + |r| <= |s|
    ensures r == s[LeadingSpaces(s)..LeadingSpaces(s) + |r|]
    ensures AllSpace(s[LeadingSpaces(s) + |r|..])
  {
    var t := s[LeadingSpaces(s)..];
    t[..|t| - TrailingSpaces(t)]
  }

  /** The leading run of white space of `a + r + b` is exactly `a` when `r`
      starts with a non-space character. */
  lemma LeadingSpacesOfPadded(a: string, t: string)
    requires AllSpace(a)
    requires t != [] && !IsSpace(t[0])
    ensures LeadingSpaces(a + t) == |a|
  {
    assert (a + t)[|a|] == t[0];
  }

  /** The trailing run of white space of `r + b` is exactly `b` when `r` ends
      with a non-space character. */
  lemma TrailingSpacesOfPadded(t: string, b: string)
    requires AllSpace(b)
    requires t != [] && !IsSpace(t[|t| - 1])
    ensures TrailingSpaces(t + b) == |b|
  {
    assert (t + b)[|t| - 1] == t[|t| - 1];
  }

  /** `TrimSpace` removes exactly the white space around a trimmed string: no
      more, no less. */
  lemma TrimSpaceOfPadded(a: string, r: string, b: string)
    requires AllSpace(a) && AllSpace(b) && IsTrimmed(r)
    ensures TrimSpace(a + r + b) == r
  {
    var s := a + r + b;
    if r == [] {
      assert s == a + b;
      assert AllSpace(s) by {
        forall i | 0 <= i < |s| ensures IsSpace(s[i]) {
          if i < |a| { assert s[i] == a[i]; } else { assert s[i] == b[i - |a|]; }
        }
      }
      var t := s[LeadingSpaces(s)..];
      assert LeadingSpaces(s) == |s|;
      assert t == [];
    } else {
      assert s == a + (r + b);
      LeadingSpacesOfPadded(a, r + b);
      var t := s[|a|..];
      assert t == r + b;
      TrailingSpacesOfPadded(r, b);
      assert t[..|t| - |b|] == r;
    }
  }

  /** Trimming twice is the same as trimming once. */
  lemma TrimSpaceIdempotent(s: string)
    ensures TrimSpace(TrimSpace(s)) == TrimSpace(s)
  {
    var r := TrimSpace(s);
    assert [] + r + [] == r;
    TrimSpaceOfPadded([], r, []);
  }
}

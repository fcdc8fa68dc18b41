/** The comment-token matchers of browser.go: the two regular expressions
    `^rv:(.+)$` and `^Trident/([0-9.]+)`, the plain "Trident/" prefix test of
    the legacy Internet Explorer path, and the "first comment that matches"
    scan that every comment loop of the heuristic performs. */
module Matchers {
  import opened Wrappers
  import opened Text

  const RvPrefix := "rv:"
  const TridentPrefix := "Trident/"

  /** A character of the class `[0-9.]`. */
  predicate IsVersionChar(c: char) {
    ('0' <= c <= '9') || c == '.'
  }

  /** Length of the longest run of `[0-9.]` characters that starts `s`: the
      greedy `[0-9.]+` of the Trident pattern, when non-zero. */
  function VersionRun(s: string): (n: nat)
    ensures n <= |s|
    ensures forall i :: 0 <= i < n ==> IsVersionChar(s[i])
    ensures n < |s| ==> !IsVersionChar(s[n])
  {
    if |s| == 0 || !IsVersionChar(s[0]) then 0 else 1 + VersionRun(s[1..])
  }

  /** The capture of `^rv:(.+)$`. In Go's syntax `.` does not match a newline
      and `$` anchors at the end of the text, so the captured remainder is
      everything after "rv:" and must be non-empty and newline-free. */
  function MatchRv(c: string): Option<string> {
    if HasPrefix(c, RvPrefix) && |c| > |RvPrefix| && '\n' !in c[|RvPrefix|..] then
      Some(c[|RvPrefix|..])
    else
      None
  }

  /** The capture of `^Trident/([0-9.]+)`: the maximal non-empty run of digits
      and dots right after "Trident/"; the rest of the token is ignored. */
  function MatchTrident(c: string): Option<string> {
    if HasPrefix(c, TridentPrefix) then
      var rest := c[|TridentPrefix|..];
      var n := VersionRun(rest);
      if n == 0 then None else Some(rest[..n])
    else
      None
  }

  /** The legacy path's `strings.HasPrefix(v, "Trident/")` followed by
      `v[8:]`: everything after the prefix, possibly empty. */
  function MatchTridentToken(c: string): Option<string> {
    if HasPrefix(c, TridentPrefix) then Some(c[|TridentPrefix|..]) else None
  }

  /** Declarative reading of `^rv:(.+)$` capturing `v` from `c`. */
  predicate RvCaptures(c: string, v: string) {
    c == RvPrefix + v && v != [] && '\n' !in v
  }

  /** Declarative reading of `^Trident/([0-9.]+)` capturing `v` from `c`:
      "Trident/" then `v` starts `c`, `v` is a non-empty run of `[0-9.]`, and
      the run cannot be extended by the character that follows it. */
  predicate TridentCaptures(c: string, v: string) {
    && HasPrefix(c, TridentPrefix + v)
    && v != []
    && (forall i :: 0 <= i < |v| ==> IsVersionChar(v[i]))
    && (|c| > |TridentPrefix| + |v| ==> !IsVersionChar(c[|TridentPrefix| + |v|]))
  }

  lemma MatchRvIff(c: string, v: string)
    ensures MatchRv(c) == Some(v) <==> RvCaptures(c, v)
  {
    if RvCaptures(c, v) {
      assert c[..|RvPrefix|] == RvPrefix;
      assert c[|RvPrefix|..] == v;
    }
  }

  lemma {:induction false} MatchTridentIff(c: string, v: string)
    ensures MatchTrident(c) == Some(v) <==> TridentCaptures(c, v)
  {
    var k := |TridentPrefix|;
    if MatchTrident(c) == Some(v) {
      var rest := c[k..];
      var n := VersionRun(rest);
      assert v == rest[..n];
      assert c[..k + |v|] == c[..k] + v;
      if |c| > k + |v| {
        assert c[k + |v|] == rest[n];
      }
    }
    if TridentCaptures(c, v) {
      assert c[..k] == (TridentPrefix + v)[..k] == TridentPrefix;
      var rest := c[k..];
      assert rest[..|v|] == v by {
        assert c[..k + |v|] == TridentPrefix + v;
      }
      var n := VersionRun(rest);
      assert n == |v|;
    }
  }

  /** The three comment patterns the heuristic scans for. */
  datatype Pattern = Rv | Trident | TridentToken

  function Match(p: Pattern, c: string): Option<string> {
    match p
    case Rv => MatchRv(c)
    case Trident => MatchTrident(c)
    case TridentToken => MatchTridentToken(c)
  }

  /** Index of the first comment token `p` matches: the Go loops over a
      comment list that stop at the first match. */
  function FirstMatch(p: Pattern, cs: seq<string>): (r: Option<nat>)
    ensures r.Some? ==> r.value < |cs| && Match(p, cs[r.value]).Some?
    ensures r.Some? ==> forall j :: 0 <= j < r.value ==> Match(p, cs[j]).None?
    ensures r.None? <==> forall j :: 0 <= j < |cs| ==> Match(p, cs[j]).None?
  {
    if |cs| == 0 then None
    else if Match(p, cs[0]).Some? then Some(0)
    else
      match FirstMatch(p, cs[1..])
      case None => None
      case Some(i) => Some(i + 1)
  }

  /** What the first matching comment token captures, if any token matches. */
  function Capture(p: Pattern, cs: seq<string>): (r: Option<string>)
    ensures r.None? <==> forall j :: 0 <= j < |cs| ==> Match(p, cs[j]).None?
    ensures forall i :: (0 <= i < |cs| && Match(p, cs[i]).Some? &&
                         (forall j :: 0 <= j < i ==> Match(p, cs[j]).None?)) ==> r == Match(p, cs[i])
  {
    match FirstMatch(p, cs)
    case None => None
    case Some(i) => Match(p, cs[i])
  }
}

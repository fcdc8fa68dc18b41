/** What each rule of `detectBrowser` produces, one lemma per rule of the
    source's chain, stated over the sections and the prior state. */
module Branches {
  import opened Wrappers
  import opened Text
  import opened Matchers
  import opened BrowserDetect

  /** Opera's own format: not Mozilla-compatible, Presto engine, and the engine
      version only when a second section carries it. */
  lemma OperaBranch(s: seq<Section>, p: UserAgent)
    requires |s| > 0 && s[0].name == "Opera"
    ensures DetectBrowser(s, p) == Success(UserAgent("", Browser(
      "Presto", if |s| > 1 then s[1].version else p.browser.engineVersion, "Opera", s[0].version)))
  {
  }

  /** Chrome without a Mozilla token: always Mozilla 5.0; with three or more
      sections the version is the NAME of the third section and the engine is
      AppleWebKit, otherwise version and engine are left alone. */
  lemma ChromeBranch(s: seq<Section>, p: UserAgent)
    requires |s| > 0 && s[0].name == "Chrome"
    ensures var b := p.browser;
      DetectBrowser(s, p) == Success(UserAgent("5.0",
        if |s| > 2 then Browser("AppleWebKit", b.engineVersion, "Chrome", s[2].name)
        else Browser(b.engine, b.engineVersion, "Chrome", b.version)))
  {
  }

  /** The Windows proxy auto-configuration service. */
  lemma WinHttpAutoproxyBranch(s: seq<Section>, p: UserAgent)
    requires |s| > 0 && s[0].name == "WinHttp-Autoproxy-Service"
    ensures var b := p.browser;
      DetectBrowser(s, p) == Success(UserAgent("",
        Browser(b.engine, b.engineVersion, "WinHttpAutoproxyService", s[0].version)))
  {
  }

  /** The Windows push notification service. */
  lemma WnsBranch(s: seq<Section>, p: UserAgent)
    requires |s| > 0 && s[0].name == "Microsoft-WNS"
    ensures var b := p.browser;
      DetectBrowser(s, p) == Success(UserAgent("", Browser(b.engine, b.engineVersion, "WNS", b.version)))
  {
  }

  /** The Windows network connectivity probe "Microsoft NCSI"; any other
      "Microsoft" section list changes nothing at all. */
  lemma MicrosoftBranch(s: seq<Section>, p: UserAgent)
    requires |s| > 0 && s[0].name == "Microsoft"
    ensures var b := p.browser;
      DetectBrowser(s, p) == Success(
        if |s| > 1 && s[1].name == "NCSI" then UserAgent("", Browser(b.engine, b.engineVersion, "NCSI", b.version))
        else p)
  {
  }

  /** The general path: the Mozilla version is the first section's version
      and the second section is the engine; with exactly two sections the
      browser name and version are left alone. */
  lemma GeneralBranch(s: seq<Section>, p: UserAgent)
    requires |s| > 1 && !IsVendorName(s[0].name)
    ensures DetectBrowser(s, p).Success?
    ensures DetectBrowser(s, p).value.mozilla == s[0].version
    ensures |s| == 2 ==>
      DetectBrowser(s, p).value.browser == Browser(s[1].name, s[1].version, p.browser.name, p.browser.version)
    ensures s[1].name != "AppleWebKit" && !(|s| > 2 && s[1].name == "like" && s[2].name == "Gecko") ==>
      DetectBrowser(s, p).value.Engine() == (s[1].name, s[1].version)
    ensures |s| > 2 && s[1].name != "AppleWebKit" && s[1].name != "Gecko" &&
            !(s[1].name == "like" && s[2].name == "Gecko") ==>
      DetectBrowser(s, p).value.Browser() == (p.browser.name, s[2].version)
  {
  }

  /** WebKit-based browsers, decided by the name of the LAST section: Edge,
      Opera (OPR), and otherwise Chrome when the third section says so and
      Safari when it does not. */
  lemma WebKitBranch(s: seq<Section>, p: UserAgent)
    requires |s| > 2 && !IsVendorName(s[0].name) && s[1].name == "AppleWebKit"
    ensures var last := s[|s| - 1];
      DetectBrowser(s, p) == Success(UserAgent(s[0].version,
        if last.name == "Edge" then Browser("EdgeHTML", "", "Edge", last.version)
        else if last.name == "OPR" then Browser("AppleWebKit", s[1].version, "Opera", last.version)
        else Browser("AppleWebKit", s[1].version, if s[2].name == "Chrome" then "Chrome" else "Safari", s[2].version)))
  {
  }

  /** Gecko-based browsers: the third section names the browser, except that
      the mail agent "MRA" with five or more sections defers to the fifth. */
  lemma GeckoBranch(s: seq<Section>, p: UserAgent)
    requires |s| > 2 && !IsVendorName(s[0].name) && s[1].name == "Gecko"
    ensures var product := if s[2].name == "MRA" && |s| > 4 then s[4] else s[2];
      DetectBrowser(s, p) == Success(UserAgent(s[0].version,
        Browser("Gecko", s[1].version, product.name, product.version)))
  {
  }

  /** Internet Explorer 11's "like Gecko" format: the engine version is the
      capture of the first comment of section 0 matching `^Trident/[0-9.]+`
      (the engine section's version if none does), and the version is the
      capture of the first comment matching `^rv:(.+)$` (empty if none does). */
  lemma Ie11Branch(s: seq<Section>, p: UserAgent)
    requires |s| > 2 && !IsVendorName(s[0].name) && s[1].name == "like" && s[2].name == "Gecko"
    ensures DetectBrowser(s, p).Success?
    ensures var a := DetectBrowser(s, p).value;
      a.mozilla == s[0].version && a.browser.engine == "Trident" && a.browser.name == "Internet Explorer"
    ensures var cs := s[0].comment; var a := DetectBrowser(s, p).value;
      (forall j :: 0 <= j < |cs| ==> MatchTrident(cs[j]).None?) ==> a.browser.engineVersion == s[1].version
    ensures var cs := s[0].comment; var a := DetectBrowser(s, p).value;
      forall i :: (0 <= i < |cs| && MatchTrident(cs[i]).Some? &&
                   (forall j :: 0 <= j < i ==> MatchTrident(cs[j]).None?)) ==>
        a.browser.engineVersion == MatchTrident(cs[i]).value
    ensures var cs := s[0].comment; var a := DetectBrowser(s, p).value;
      (forall j :: 0 <= j < |cs| ==> MatchRv(cs[j]).None?) ==> a.browser.version == ""
    ensures var cs := s[0].comment; var a := DetectBrowser(s, p).value;
      forall i :: (0 <= i < |cs| && MatchRv(cs[i]).Some? &&
                   (forall j :: 0 <= j < i ==> MatchRv(cs[j]).None?)) ==>
        a.browser.version == MatchRv(cs[i]).value
  {
    var cs := s[0].comment;
    assert forall j :: 0 <= j < |cs| ==> Match(Trident, cs[j]) == MatchTrident(cs[j]);
    assert forall j :: 0 <= j < |cs| ==> Match(Rv, cs[j]) == MatchRv(cs[j]);
  }

  /** Old-style Internet Explorer whose comment carries a "Trident/" token:
      only the first such token is looked at; it supplies the engine version
      unless one was already set, and the table maps that engine version to
      the browser version. Without a table entry the prior version stands,
      and an empty one falls back to the MSIE token after its fourth
      character, trimmed. */
  lemma LegacyIeWithTrident(s: seq<Section>, p: UserAgent, i: nat)
    requires |s| == 1 && !IsVendorName(s[0].name) && HasLegacyIeMarkers(s[0].comment)
    requires i < |s[0].comment| && HasPrefix(s[0].comment[i], "Trident/")
    requires forall j :: 0 <= j < i ==> !HasPrefix(s[0].comment[j], "Trident/")
    ensures var cs := s[0].comment; var b := p.browser;
      var ev := if b.engineVersion == "" then cs[i][8..] else b.engineVersion;
      var v := if ev in IeVersionOfTrident then IeVersionOfTrident[ev] else b.version;
      DetectBrowser(s, p) ==
        if v != "" then Success(UserAgent(s[0].version, Browser("Trident", ev, "Internet Explorer", v)))
        else if |cs[1]| < 4 then Failure(SliceOutOfRange)
        else Success(UserAgent(s[0].version, Browser("Trident", ev, "Internet Explorer", TrimSpace(cs[1][4..]))))
  {
    var cs := s[0].comment;
    assert Match(TridentToken, cs[i]) == Some(cs[i][8..]);
    assert forall j :: 0 <= j < i ==> Match(TridentToken, cs[j]).None?;
  }

  /** Old-style Internet Explorer with no "Trident/" token: the engine version
      stays as it was and the version, if empty, falls back to the MSIE token. */
  lemma LegacyIeWithoutTrident(s: seq<Section>, p: UserAgent)
    requires |s| == 1 && !IsVendorName(s[0].name) && HasLegacyIeMarkers(s[0].comment)
    requires forall j :: 0 <= j < |s[0].comment| ==> !HasPrefix(s[0].comment[j], "Trident/")
    ensures var cs := s[0].comment; var b := p.browser;
      DetectBrowser(s, p) ==
        if b.version != "" then Success(UserAgent(s[0].version, Browser("Trident", b.engineVersion, "Internet Explorer", b.version)))
        else if |cs[1]| < 4 then Failure(SliceOutOfRange)
        else Success(UserAgent(s[0].version, Browser("Trident", b.engineVersion, "Internet Explorer", TrimSpace(cs[1][4..]))))
  {
    var cs := s[0].comment;
    assert forall j :: 0 <= j < |cs| ==> Match(TridentToken, cs[j]).None?;
  }

  /** An "MSIE" token is always long enough for the fallback slice, so only
      the shorter "IE" form can make the legacy path fail. */
  lemma MsieTokenNeverFails(s: seq<Section>, p: UserAgent)
    requires |s| == 1 && !IsVendorName(s[0].name) && HasLegacyIeMarkers(s[0].comment)
    requires HasPrefix(s[0].comment[1], "MSIE")
    ensures DetectBrowser(s, p).Success?
  {
  }

  /** A single section without the legacy markers only records the Mozilla
      version; the browser record is untouched. */
  lemma SingleSectionUnrecognized(s: seq<Section>, p: UserAgent)
    requires |s| == 1 && !IsVendorName(s[0].name) && !HasLegacyIeMarkers(s[0].comment)
    ensures DetectBrowser(s, p) == Success(UserAgent(s[0].version, p.browser))
  {
  }
}

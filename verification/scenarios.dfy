/** Concrete user agents and what the model yields for them, read through the
    `Engine()` and `Browser()` accessors. Each starts from an empty record
    unless it names a prior one. */
module Scenarios {
  import opened Wrappers
  import opened Text
  import opened Matchers
  import opened BrowserDetect
  import opened Branches

  const Empty := UserAgent("", Browser("", "", "", ""))

  /** A string whose first character differs from a prefix's does not start
      with it. */
  lemma FirstCharRulesOutPrefix(c: string, prefix: string)
    requires c != [] && prefix != [] && c[0] != prefix[0]
    ensures !HasPrefix(c, prefix)
  {
    if |prefix| <= |c| {
      assert c[..|prefix|][0] == c[0];
    }
  }

  /** `Opera/9.80 Presto/2.12.388` */
  lemma OperaScenario()
    ensures var r := DetectBrowser([Section("Opera", "9.80", []), Section("Presto", "2.12.388", [])], Empty);
      && r.Success?
      && r.value.Browser() == ("Opera", "9.80")
      && r.value.Engine() == ("Presto", "2.12.388")
      && r.value.mozilla == ""
  {
  }

  /** `Mozilla/5.0 (...) AppleWebKit/537.36 Chrome/58.0.3029.110 Safari/537.36`:
      the version comes from the Chrome section, not the last one. */
  lemma ChromeScenario()
    ensures var r := DetectBrowser([
        Section("Mozilla", "5.0", ["Windows NT 10.0"]), Section("AppleWebKit", "537.36", []),
        Section("Chrome", "58.0.3029.110", []), Section("Safari", "537.36", [])], Empty);
      && r.Success?
      && r.value.Browser() == ("Chrome", "58.0.3029.110")
      && r.value.Engine() == ("AppleWebKit", "537.36")
      && r.value.mozilla == "5.0"
  {
  }

  /** `Mozilla/5.0 (Windows NT 10.0; WOW64; Trident/7.0; rv:11.0) like Gecko` */
  lemma Ie11Scenario()
    ensures var r := DetectBrowser([
        Section("Mozilla", "5.0", ["Windows NT 10.0", "WOW64", "Trident/7.0", "rv:11.0"]),
        Section("like", "", []), Section("Gecko", "", [])], Empty);
      && r.Success?
      && r.value.Browser() == ("Internet Explorer", "11.0")
      && r.value.Engine() == ("Trident", "7.0")
  {
    var cs := ["Windows NT 10.0", "WOW64", "Trident/7.0", "rv:11.0"];
    var s := [Section("Mozilla", "5.0", cs), Section("like", "", []), Section("Gecko", "", [])];
    FirstCharRulesOutPrefix(cs[0], TridentPrefix);
    FirstCharRulesOutPrefix(cs[1], TridentPrefix);
    assert MatchTrident(cs[2]) == Some("7.0") by {
      MatchTridentIff(cs[2], "7.0");
    }
    assert MatchRv(cs[3]) == Some("11.0") by {
      MatchRvIff(cs[3], "11.0");
    }
    FirstCharRulesOutPrefix(cs[0], RvPrefix);
    FirstCharRulesOutPrefix(cs[1], RvPrefix);
    FirstCharRulesOutPrefix(cs[2], RvPrefix);
    Ie11Branch(s, Empty);
  }

  /** `Mozilla/4.0 (compatible; MSIE 7.0; Windows NT 6.0; Trident/4.0)`: the
      Trident table says 8.0 although the MSIE token says 7.0. */
  lemma LegacyIeScenario()
    ensures var r := DetectBrowser([
        Section("Mozilla", "4.0", ["compatible", "MSIE 7.0", "Windows NT 6.0", "Trident/4.0"])], Empty);
      && r.Success?
      && r.value.Browser() == ("Internet Explorer", "8.0")
      && r.value.Engine() == ("Trident", "4.0")
  {
    var cs := ["compatible", "MSIE 7.0", "Windows NT 6.0", "Trident/4.0"];
    assert HasPrefix(cs[1], "MSIE");
    FirstCharRulesOutPrefix(cs[0], "Trident/");
    FirstCharRulesOutPrefix(cs[1], "Trident/");
    FirstCharRulesOutPrefix(cs[2], "Trident/");
    assert HasPrefix(cs[3], "Trident/") && cs[3][8..] == "4.0";
    LegacyIeWithTrident([Section("Mozilla", "4.0", cs)], Empty, 3);
  }

  /** `Mozilla/4.0 (compatible; MSIE 6.0; Windows NT 5.1)`: no Trident token,
      so the version is read from the MSIE token. */
  lemma MsieFallbackScenario()
    ensures var r := DetectBrowser([
        Section("Mozilla", "4.0", ["compatible", "MSIE 6.0", "Windows NT 5.1"])], Empty);
      && r.Success?
      && r.value.Browser() == ("Internet Explorer", "6.0")
      && r.value.Engine() == ("Trident", "")
  {
    var cs := ["compatible", "MSIE 6.0", "Windows NT 5.1"];
    assert HasPrefix(cs[1], "MSIE");
    FirstCharRulesOutPrefix(cs[0], "Trident/");
    FirstCharRulesOutPrefix(cs[1], "Trident/");
    FirstCharRulesOutPrefix(cs[2], "Trident/");
    var t := cs[1][4..];
    assert t == " " + "6.0" + "";
    TrimSpaceOfPadded(" ", "6.0", "");
    assert TrimSpace(t) == "6.0";
    var s := [Section("Mozilla", "4.0", cs)];
    LegacyIeWithoutTrident(s, Empty);
    assert DetectBrowser(s, Empty) == Success(UserAgent("4.0", Browser("Trident", "", "Internet Explorer", "6.0")));
  }

  /** The fallback always skips four characters, so an "IE 10.0" token yields
      "0.0" and a bare "IE" token makes the slice fail. */
  lemma IeTokenScenarios()
    ensures var r := DetectBrowser([Section("Mozilla", "4.0", ["compatible", "IE 10.0"])], Empty);
      r.Success? && r.value.Browser() == ("Internet Explorer", "0.0")
    ensures DetectBrowser([Section("Mozilla", "4.0", ["compatible", "IE"])], Empty) == Failure(SliceOutOfRange)
  {
    var cs := ["compatible", "IE 10.0"];
    assert HasPrefix(cs[1], "IE");
    FirstCharRulesOutPrefix(cs[0], "Trident/");
    FirstCharRulesOutPrefix(cs[1], "Trident/");
    LegacyIeWithoutTrident([Section("Mozilla", "4.0", cs)], Empty);
    assert cs[1][4..] == [] + "0.0" + [];
    TrimSpaceOfPadded([], "0.0", []);
    var short := ["compatible", "IE"];
    assert HasPrefix(short[1], "IE");
    assert !HasPrefix(short[0], "Trident/") && !HasPrefix(short[1], "Trident/");
    LegacyIeWithoutTrident([Section("Mozilla", "4.0", short)], Empty);
  }

  /** An empty section list fails. */
  lemma EmptyScenario()
    ensures DetectBrowser([], Empty) == Failure(NoSections)
  {
  }

  /** Chrome with two sections keeps the version of the previous record. */
  lemma ChromePriorVersionScenario()
    ensures var p := UserAgent("", Browser("Gecko", "20100101", "Firefox", "52.0"));
      var r := DetectBrowser([Section("Chrome", "", []), Section("Foo", "", [])], p);
      r.Success? && r.value.Browser() == ("Chrome", "52.0") && r.value.Engine() == ("Gecko", "20100101")
  {
  }
}

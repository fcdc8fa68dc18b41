/** The browser-identification heuristic of browser.go (`detectBrowser`) as a
    pure function: the receiver's `mozilla` string and `browser` record go in
    as prior state and come out updated, and the two Go runtime panics the
    heuristic can hit come out as failures. */
module BrowserDetect {
  import opened Wrappers
  import opened Text
  import opened Matchers

  /** One product token of a User-Agent header: `name/version (comment; ...)`. */
  datatype Section = Section(name: string, version: string, comment: seq<string>)

  /** The browser and engine identity the heuristic fills in. */
  datatype Browser = Browser(engine: string, engineVersion: string, name: string, version: string)

  /** The two fields of a parsed user agent that the heuristic reads and
      writes, with the accessors `Engine()` and `Browser()`. */
  datatype UserAgent = UserAgent(mozilla: string, browser: Browser) {

    /** Engine name and engine version. */
    function Engine(): (r: (string, string))
      ensures r.0 == browser.engine && r.1 == browser.engineVersion
    {
      (browser.engine, browser.engineVersion)
    }

    /** Browser name and browser version. */
    function Browser(): (r: (string, string))
      ensures r.0 == browser.name && r.1 == browser.version
    {
      (browser.name, browser.version)
    }
  }

  /** Go runtime panics the heuristic can raise. */
  datatype Fault =
    | NoSections       // `sections[0]` on an empty section list
    | SliceOutOfRange  // `comment[1][4:]` on an "IE" token shorter than four bytes

  /** The Trident engine version to Internet Explorer version table of the
      legacy path. */
  const IeVersionOfTrident: map<string, string> :=
    map["4.0" := "8.0", "5.0" := "9.0", "6.0" := "10.0", "7.0" := "11.0"]

  /** The section-0 names with a dedicated rule ahead of the general path. */
  predicate IsVendorName(name: string) {
    name in {"Opera", "Chrome", "WinHttp-Autoproxy-Service", "Microsoft-WNS", "Microsoft"}
  }

  /** The markers of an old-style Internet Explorer comment:
      `(compatible; MSIE ...)` or `(compatible; IE ...)`. */
  predicate HasLegacyIeMarkers(comment: seq<string>) {
    && |comment| > 1
    && comment[0] == "compatible"
    && (HasPrefix(comment[1], "MSIE") || HasPrefix(comment[1], "IE"))
  }

  /** `detectBrowser` applied to the user agent `p`. It fails only where the
      source panics: on an empty section list, and on a short "IE" token in
      the legacy Internet Explorer path. */
  function DetectBrowser(sections: seq<Section>, p: UserAgent): (r: Result<UserAgent, Fault>)
    ensures r == Failure(NoSections) <==> |sections| == 0
    ensures r == Failure(SliceOutOfRange) ==>
      |sections| == 1 && HasLegacyIeMarkers(sections[0].comment) && |sections[0].comment[1]| < 4
  {
    if |sections| == 0 then Failure(NoSections)
    else
      var s0 := sections[0];
      var b := p.browser;
      if s0.name == "Opera" then
        var ev := if |sections| > 1 then sections[1].version else b.engineVersion;
        Success(UserAgent("", b.(name := "Opera", version := s0.version, engine := "Presto", engineVersion := ev)))
      else if s0.name == "Chrome" then
        if |sections| > 2 then
          Success(UserAgent("5.0", b.(name := "Chrome", version := sections[2].name, engine := "AppleWebKit")))
        else
          Success(UserAgent("5.0", b.(name := "Chrome")))
      else if s0.name == "WinHttp-Autoproxy-Service" then
        Success(UserAgent("", b.(name := "WinHttpAutoproxyService", version := s0.version)))
      else if s0.name == "Microsoft-WNS" then
        Success(UserAgent("", b.(name := "WNS")))
      else if s0.name == "Microsoft" then
        if |sections| > 1 && sections[1].name == "NCSI" then
          Success(UserAgent("", b.(name := sections[1].name)))
        else
          Success(p)
      else if |sections| > 1 then
        Success(UserAgent(s0.version, MultiSectionBrowser(sections, b)))
      else
        match LegacyIeBrowser(s0.comment, b)
        case Success(b') => Success(UserAgent(s0.version, b'))
        case Failure(e) => Failure(e)
  }

  /** The traditional `Mozilla/x (...) Engine/y Product/z ...` format. */
  function MultiSectionBrowser(sections: seq<Section>, b: Browser): Browser
    requires |sections| > 1
  {
    var engine := sections[1];
    var b1 := b.(engine := engine.name, engineVersion := engine.version);
    if |sections| == 2 then b1
    else
      var b2 := b1.(version := sections[2].version);
      var last := sections[|sections| - 1];
      if engine.name == "AppleWebKit" then
        if last.name == "Edge" then
          b2.(name := "Edge", version := last.version, engine := "EdgeHTML", engineVersion := "")
        else if last.name == "OPR" then
          b2.(name := "Opera", version := last.version)
        else
          b2.(name := if sections[2].name == "Chrome" then "Chrome" else "Safari")
      else if engine.name == "Gecko" then
        if sections[2].name == "MRA" && |sections| > 4 then
          b2.(name := sections[4].name, version := sections[4].version)
        else
          b2.(name := sections[2].name)
      else if engine.name == "like" && sections[2].name == "Gecko" then
        var cs := sections[0].comment;
        b2.(engine := "Trident", name := "Internet Explorer",
            engineVersion := Capture(Trident, cs).GetOr(engine.version),
            version := Capture(Rv, cs).GetOr(""))
      else b2
  }

  /** The old-style Internet Explorer format `Mozilla/4.0 (compatible; MSIE
      7.0; ...)`, reached with a single section. The prior engine version and
      version take part: a non-empty prior engine version is kept and looked
      up in the table, and a non-empty prior version suppresses the fallback. */
  function LegacyIeBrowser(comment: seq<string>, b: Browser): Result<Browser, Fault> {
    if HasLegacyIeMarkers(comment) then
      var b1 := b.(engine := "Trident", name := "Internet Explorer");
      var b2 :=
        match Capture(TridentToken, comment)
        case None => b1
        case Some(tv) =>
          var ev := if b1.engineVersion == "" then tv else b1.engineVersion;
          b1.(engineVersion := ev,
              version := if ev in IeVersionOfTrident then IeVersionOfTrident[ev] else b1.version);
      if b2.version != "" then Success(b2)
      else if |comment[1]| < 4 then Failure(SliceOutOfRange)
      else Success(b2.(version := TrimSpace(comment[1][4..])))
    else
      Success(b)
  }
}

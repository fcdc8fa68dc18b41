/** The rule table behind `detectBrowser`: which rule of the first-match-wins
    chain handles a section list, stated once as the chain itself and once as
    flat, self-contained guards; and, per rule, which fields of the user agent
    it may write and which it determines regardless of the prior state. */
module Rules {
  import opened Wrappers
  import opened Text
  import opened BrowserDetect

  datatype Rule =
    | OperaBare          // "Opera", one section
    | OperaPresto        // "Opera", an engine section follows
    | ChromeBare         // "Chrome", at most two sections
    | ChromeWebKit       // "Chrome", three or more sections
    | WinHttpAutoproxy   // "WinHttp-Autoproxy-Service"
    | Wns                // "Microsoft-WNS"
    | Ncsi               // "Microsoft" then "NCSI"
    | MicrosoftOther     // "Microsoft" without "NCSI"
    | EngineOnly         // general path, exactly two sections
    | WebKitEdge         // AppleWebKit, last section "Edge"
    | WebKitOpr          // AppleWebKit, last section "OPR"
    | WebKit             // AppleWebKit otherwise: Chrome or Safari
    | Gecko              // Gecko engine
    | Ie11               // "like Gecko"
    | VersionOnly        // three or more sections, unknown engine
    | LegacyIe           // one section with "compatible; MSIE|IE" comments
    | Unrecognized       // one section, nothing recognised

  /** The rule that handles `s`, in the order the source tries them. */
  function RuleOf(s: seq<Section>): Rule
    requires |s| > 0
  {
    var n := s[0].name;
    if n == "Opera" then (if |s| > 1 then OperaPresto else OperaBare)
    else if n == "Chrome" then (if |s| > 2 then ChromeWebKit else ChromeBare)
    else if n == "WinHttp-Autoproxy-Service" then WinHttpAutoproxy
    else if n == "Microsoft-WNS" then Wns
    else if n == "Microsoft" then (if |s| > 1 && s[1].name == "NCSI" then Ncsi else MicrosoftOther)
    else if |s| > 1 then
      if |s| == 2 then EngineOnly
      else if s[1].name == "AppleWebKit" then
        if s[|s| - 1].name == "Edge" then WebKitEdge
        else if s[|s| - 1].name == "OPR" then WebKitOpr
        else WebKit
      else if s[1].name == "Gecko" then Gecko
      else if s[1].name == "like" && s[2].name == "Gecko" then Ie11
      else VersionOnly
    else if HasLegacyIeMarkers(s[0].comment) then LegacyIe
    else Unrecognized
  }

  /** The full condition under which `r` handles `s`, with every earlier rule's
      exclusion written out. */
  predicate Guard(r: Rule, s: seq<Section>)
    requires |s| > 0
  {
    var n := s[0].name;
    var general := !IsVendorName(n);
    var webKit := general && |s| > 2 && s[1].name == "AppleWebKit";
    match r
    case OperaBare => n == "Opera" && |s| == 1
    case OperaPresto => n == "Opera" && |s| > 1
    case ChromeBare => n == "Chrome" && |s| <= 2
    case ChromeWebKit => n == "Chrome" && |s| > 2
    case WinHttpAutoproxy => n == "WinHttp-Autoproxy-Service"
    case Wns => n == "Microsoft-WNS"
    case Ncsi => n == "Microsoft" && |s| > 1 && s[1].name == "NCSI"
    case MicrosoftOther => n == "Microsoft" && (|s| == 1 || s[1].name != "NCSI")
    case EngineOnly => general && |s| == 2
    case WebKitEdge => webKit && s[|s| - 1].name == "Edge"
    case WebKitOpr => webKit && s[|s| - 1].name == "OPR"
    case WebKit => webKit && s[|s| - 1].name != "Edge" && s[|s| - 1].name != "OPR"
    case Gecko => general && |s| > 2 && s[1].name == "Gecko"
    case Ie11 => general && |s| > 2 && s[1].name == "like" && s[2].name == "Gecko"
    case VersionOnly =>
      general && |s| > 2 && s[1].name != "AppleWebKit" && s[1].name != "Gecko"
      && !(s[1].name == "like" && s[2].name == "Gecko")
    case LegacyIe => general && |s| == 1 && HasLegacyIeMarkers(s[0].comment)
    case Unrecognized => general && |s| == 1 && !HasLegacyIeMarkers(s[0].comment)
  }

  /** Exactly one rule applies to every non-empty section list: the one the
      chain picks is the only one whose guard holds. */
  lemma ExactlyOneRule(s: seq<Section>, r: Rule)
    requires |s| > 0
    ensures Guard(r, s) <==> RuleOf(s) == r
  {
  }

  /** The user-agent fields that `detectBrowser` writes. */
  datatype Field = Mozilla | Engine | EngineVersion | Name | Version

  function Get(a: UserAgent, f: Field): string {
    match f
    case Mozilla => a.mozilla
    case Engine => a.browser.engine
    case EngineVersion => a.browser.engineVersion
    case Name => a.browser.name
    case Version => a.browser.version
  }

  /** The fields rule `r` may assign. */
  function Writes(r: Rule): set<Field> {
    match r
    case OperaBare => {Mozilla, Engine, Name, Version}
    case OperaPresto => {Mozilla, Engine, EngineVersion, Name, Version}
    case ChromeBare => {Mozilla, Name}
    case ChromeWebKit => {Mozilla, Engine, Name, Version}
    case WinHttpAutoproxy => {Mozilla, Name, Version}
    case Wns => {Mozilla, Name}
    case Ncsi => {Mozilla, Name}
    case MicrosoftOther => {}
    case EngineOnly => {Mozilla, Engine, EngineVersion}
    case WebKitEdge => {Mozilla, Engine, EngineVersion, Name, Version}
    case WebKitOpr => {Mozilla, Engine, EngineVersion, Name, Version}
    case WebKit => {Mozilla, Engine, EngineVersion, Name, Version}
    case Gecko => {Mozilla, Engine, EngineVersion, Name, Version}
    case Ie11 => {Mozilla, Engine, EngineVersion, Name, Version}
    case VersionOnly => {Mozilla, Engine, EngineVersion, Version}
    case LegacyIe => {Mozilla, Engine, EngineVersion, Name, Version}
    case Unrecognized => {Mozilla}
  }

  /** The fields rule `r` sets from the sections alone, whatever the prior
      state: every field it writes, except for the legacy Internet Explorer
      rule, whose engine version and version depend on the prior ones. */
  function Fixes(r: Rule): set<Field> {
    if r == LegacyIe then {Mozilla, Engine, Name} else Writes(r)
  }

  /** Only the legacy Internet Explorer rule can fail, apart from an empty
      section list, and only on an "IE" token shorter than four characters. */
  lemma FailsOnlyOnShortIeToken(s: seq<Section>, p: UserAgent)
    requires |s| > 0
    requires DetectBrowser(s, p).Failure?
    ensures RuleOf(s) == LegacyIe
    ensures DetectBrowser(s, p).error == SliceOutOfRange
    ensures |s[0].comment[1]| < 4 && HasPrefix(s[0].comment[1], "IE")
  {
  }

  /** A rule leaves every field outside its write set as it was. */
  lemma {:induction false} UnwrittenFieldsUnchanged(s: seq<Section>, p: UserAgent, f: Field)
    requires |s| > 0
    requires DetectBrowser(s, p).Success?
    requires f !in Writes(RuleOf(s))
    ensures Get(DetectBrowser(s, p).value, f) == Get(p, f)
  {
    var b := p.browser;
    match RuleOf(s)
    case MicrosoftOther =>
      assert DetectBrowser(s, p) == Success(p);
    case Unrecognized =>
      assert LegacyIeBrowser(s[0].comment, b) == Success(b);
    case EngineOnly =>
      assert MultiSectionBrowser(s, b).name == b.name && MultiSectionBrowser(s, b).version == b.version;
    case VersionOnly =>
      assert MultiSectionBrowser(s, b).name == b.name;
    case _ =>
  }

  /** A rule sets the fields it fixes to the same value from any prior state:
      on those fields, no state from an earlier call survives. */
  lemma {:induction false} FixedFieldsIgnorePrior(s: seq<Section>, p: UserAgent, q: UserAgent, f: Field)
    requires |s| > 0
    requires DetectBrowser(s, p).Success? && DetectBrowser(s, q).Success?
    requires f in Fixes(RuleOf(s))
    ensures Get(DetectBrowser(s, p).value, f) == Get(DetectBrowser(s, q).value, f)
  {
  }
}

# Browser identification heuristic of `user_agent`

This project models `detectBrowser` from the Go package `user_agent`
(browser.go). Given the sections of an already tokenised User-Agent header,
it fills in the browser record: engine name and version, browser name and
version. It also fills in the `mozilla` compatibility string. Each section
is a product name, a version and a list of comment tokens.

The Go method mutates its receiver. Here it is the pure function
`BrowserDetect.DetectBrowser(sections, prior)`, which takes the receiver's
`mozilla` string and `browser` record as prior state. Several rules leave
fields as they were, and the legacy Internet Explorer rule reads the prior
engine version and version, so the prior state is an input. The function
returns `Success(newState)`, or `Failure(fault)` where the Go code would
panic:

- `NoSections`: `sections[0]` on an empty list.
- `SliceOutOfRange`: `comment[1][4:]` on an "IE" token shorter than four
  characters, such as a bare `IE`.

Rules keep the prior value of every field they do not assign: two-section
"Chrome" keeps the prior version and engine
(`Scenarios.ChromePriorVersionScenario`), and the proxy-service rule sets the
version as well as the name.

Modules:

- `Wrappers`: `Option` and `Result`.
- `Text`: `strings.HasPrefix` and `strings.TrimSpace`.
- `Matchers`: the matchers. `^rv:(.+)$` and `^Trident/([0-9.]+)` are written
  as hand-made capture functions, each with a declarative characterisation.
  Go's `.` does not match a newline, so an `rv:` remainder containing one
  does not match. `Matchers` also has the plain "Trident/" prefix test and
  the first-match scan behind every comment loop.
- `BrowserDetect`: the data model (`Section`, `Browser`, `UserAgent` with its
  `Engine()` and `Browser()` accessors) and the rule chain.
- `Rules`: the same chain, stated once as the if-chain `RuleOf` and once as
  flat guards, with per-rule sets of written and prior-independent fields.
- `Branches`: the outcome of each rule.
- `Scenarios`: concrete headers, read back through the accessors.

## Model

| member | source | states |
|---|---|---|
| `BrowserDetect.UserAgent.Engine` | browser.go:181-183 | the engine name and engine version of the record |
| `BrowserDetect.UserAgent.Browser` | browser.go:187-189 | the browser name and browser version of the record |
| `Text.TrimSpace` | browser.go:171 | the result is trimmed (no white space at either end) and is what remains of the input after its leading white-space run, with only white space after it |
| `Text.TrimSpaceOfPadded` | browser.go:171 | trimming removes exactly the surrounding white space: for white-space runs a, b and trimmed r, TrimSpace(a + r + b) == r |
| `Text.TrimSpaceIdempotent` | browser.go:171 | trimming a trimmed string changes nothing |
| `Matchers.VersionRun` | browser.go:14 | the greedy `[0-9.]+` run: every character in it is a digit or dot, and the next character is not |
| `Matchers.MatchRvIff` | browser.go:13 | `^rv:(.+)$` captures v from c exactly when c is "rv:" + v with v non-empty and newline-free |
| `Matchers.MatchTridentIff` | browser.go:14 | `^Trident/([0-9.]+)` captures v from c exactly when c starts with "Trident/" + v, v is a non-empty run of digits and dots, and the run is maximal |
| `Matchers.FirstMatch` | browser.go:120-126 | the index found is the first comment the pattern matches; no index means no comment matches |
| `Matchers.Capture` | browser.go:127-133 | the capture is the one of the first matching comment, and there is none exactly when no comment matches |
| `BrowserDetect.DetectBrowser` | browser.go:38-177 | fails with NoSections exactly on an empty section list; fails with SliceOutOfRange only on one section with legacy IE markers and a second comment shorter than four characters |
| `Rules.ExactlyOneRule` | browser.go:41-176 | the rule the first-match-wins chain picks is the only rule whose full guard holds, so exactly one rule applies to any non-empty section list |
| `Rules.FailsOnlyOnShortIeToken` | browser.go:142-172 | on a non-empty section list, failure happens only under the legacy IE rule, as SliceOutOfRange, with an "IE" token shorter than four characters |
| `Rules.UnwrittenFieldsUnchanged` | browser.go:38-177 | every field outside the applying rule's write set keeps its prior value |
| `Rules.FixedFieldsIgnorePrior` | browser.go:38-177 | the fields a rule determines are the same from any two prior states; only the legacy IE rule's engine version and version depend on the prior record |
| `Branches.OperaBranch` | browser.go:42-52 | "Opera": mozilla cleared, name Opera, version from section 0, engine Presto, engine version from section 1 only when it exists, otherwise unchanged |
| `Branches.ChromeBranch` | browser.go:54-61 | "Chrome": mozilla "5.0", name Chrome; with three or more sections the version is the third section's name and the engine AppleWebKit; otherwise version and engine are unchanged |
| `Branches.WinHttpAutoproxyBranch` | browser.go:63-67 | mozilla cleared, name WinHttpAutoproxyService, version from section 0, engine fields unchanged |
| `Branches.WnsBranch` | browser.go:69-72 | mozilla cleared, name WNS, everything else unchanged |
| `Branches.MicrosoftBranch` | browser.go:74-79 | "Microsoft" then "NCSI": mozilla cleared and name NCSI; any other "Microsoft" input changes nothing at all |
| `Branches.GeneralBranch` | browser.go:83-90 | general path: mozilla is section 0's version; section 1 gives the engine unless a sub-rule overrides it; with two sections name and version are unchanged; with an unknown engine only the version changes |
| `Branches.WebKitBranch` | browser.go:91-108 | AppleWebKit: a last section "Edge" gives Edge/EdgeHTML with empty engine version; "OPR" gives Opera with the last version; otherwise Chrome or Safari by the third section's name, with its version |
| `Branches.GeckoBranch` | browser.go:109-115 | Gecko: name and version from the third section, or from the fifth when the third is "MRA" and a fifth exists |
| `Branches.Ie11Branch` | browser.go:116-134 | "like Gecko": Trident and Internet Explorer; engine version from the first `Trident/` comment match, else section 1's version; version from the first `rv:` match, else empty |
| `Branches.LegacyIeWithTrident` | browser.go:142-172 | legacy IE with a first "Trident/" token: engine version from it unless already set; table 4.0→8.0, 5.0→9.0, 6.0→10.0, 7.0→11.0; otherwise the prior version; if empty, the trimmed token after four characters, or failure when it is shorter |
| `Branches.LegacyIeWithoutTrident` | browser.go:142-172 | legacy IE without a "Trident/" token: engine version unchanged; the version falls back to the trimmed MSIE token only when it was empty |
| `Branches.MsieTokenNeverFails` | browser.go:145-171 | an "MSIE" token is always long enough for the fallback slice |
| `Branches.SingleSectionUnrecognized` | browser.go:142-176 | one section without the legacy markers: only mozilla changes |
| `Scenarios.OperaScenario` | browser.go:42-52 | Opera/9.80 Presto/2.12.388 gives Opera 9.80 on Presto 2.12.388 with mozilla cleared |
| `Scenarios.ChromeScenario` | browser.go:91-108 | a Chrome 58 header gives Chrome 58.0.3029.110 on AppleWebKit 537.36 |
| `Scenarios.Ie11Scenario` | browser.go:116-134 | an IE11 header gives Internet Explorer 11.0 on Trident 7.0 |
| `Scenarios.LegacyIeScenario` | browser.go:151-168 | MSIE 7.0 with Trident/4.0 gives version 8.0 from the table |
| `Scenarios.MsieFallbackScenario` | browser.go:170-172 | MSIE 6.0 without a Trident token gives version 6.0 from the MSIE token |
| `Scenarios.IeTokenScenarios` | browser.go:170-172 | the fallback always skips four characters: "IE 10.0" gives "0.0", and a bare "IE" fails |
| `Scenarios.EmptyScenario` | browser.go:42 | an empty section list fails |
| `Scenarios.ChromePriorVersionScenario` | browser.go:54-61 | two-section Chrome keeps the prior record's version and engine |

## Left out

- The tokenizer that produces sections, and the other fields of the user
  agent (platform, OS, bot flag), are not part of this model; sections are
  plain inputs.
- Regular expressions in general: only the two patterns used are modelled, as
  explicit capture functions.
- `Text.TrimSpace`: trims ASCII white space only (tab, newline, vertical tab,
  form feed, carriage return, space). Go's `strings.TrimSpace` also trims
  Unicode white space such as U+0085 and U+00A0.
- Strings are sequences of characters, each standing for one byte of the Go
  string, so the model's slices `v[8:]` and `comment[1][4:]` count bytes as
  Go's do. Multi-byte white space is therefore not recognised by
  `Text.TrimSpace` (see above).
- Pointer-receiver mutation: the receiver's two fields go in as prior state
  and come out as the result; heap objects are not modelled.

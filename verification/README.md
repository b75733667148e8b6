# Phishing URL detector: a verified model of the scorer and the scan server

This project models the decision logic of a small phishing-detection web
service in Dafny and proves properties of it. It covers two server files.

- `server/phishing-detection.ts` holds `analyzeUrl`. It first looks the URL
  up in two reputation sets: legitimate hostnames, and phishing URLs and
  hostnames. On a hit it returns at once. On a miss it runs a fixed table of
  additive rules from a neutral 50:
  - keywords, −5 each;
  - HTTPS, +10, or its absence, −15;
  - a low-trust TLD, −7;
  - a brand-name mention (typosquatting), −15 per brand;
  - more than three labels, −10;
  - an IPv4-like pattern, −20;
  - special characters in the path, −5;
  - a URL over 100 characters, −10;
  - a random-looking first label, −15;
  - a redirect parameter, −10;
  - many digits, −5.

  The score is clamped to [0, 100]. The verdict is `score >= 50`, and one of
  four messages follows from the thresholds 80, 50 and 30. The same file
  builds the two sets from two line-delimited files (`initializeDatasets`).
- `server/routes.ts` holds the HTTP and WebSocket layer. It keeps its own
  copies of the sets (`loadUrlDatabases`) and an in-memory scan history,
  newest first and capped at 100. It answers `POST /api/scan`, which
  validates, pre-checks the sets, classifies, records and broadcasts, and
  `GET /api/stats`. Over WebSocket it sends a new client the history and
  handles `scan` messages.

Modules:

| file | module | what it holds |
|---|---|---|
| `wrappers.dfy` | `Wrappers` | `Option` |
| `strings.dfy` | `Strings` | The JavaScript string operations the code relies on: `trim`, `split`, `includes`, `endsWith`, ASCII `toLowerCase`, and UTF-16 `length`. |
| `url.dfy` | `Url` | The three URL components that are read, and the parser type. |
| `entropy.dfy` | `Entropy` | `calculateEntropy > 4` stated exactly over the integers. |
| `datasets.dfy` | `Datasets` | Both loaders, as functions of the file contents. |
| `detection.dfy` | `Detection` | The rule table, the clamp, the tiers, and `analyzeUrl`. |
| `detection_properties.dfy` | `DetectionProperties` | Properties of the rules and the worked example. |
| `reported_patterns.dfy` | `ReportedPatterns` | Which patterns a heuristic analysis reports, rule by rule. |
| `history.dfy` | `History` | The capped history and the stats view. |
| `server.dfy` | `Server` | The server as a state machine. Its state is the history, plus each WebSocket client's `readyState` and outbox. Its events are the HTTP scan, a connection, a `readyState` change and an incoming message. |

A URL is parsed by the platform's `URL` constructor, following section 4.4 of
the WHATWG URL Standard. That parser is a parameter, `Url.Parser`:
`None` stands for the constructor throwing. The timestamp (`Date.now()`) and
the contents of the two data files are parameters as well.

Points where the behaviour differs from what a reader might expect:

- **An address-based URL with a keyword lands in the lowest tier.**
  `https://192.168.1.1/account` scores 20: 50 + 10 (HTTPS) − 5 (keyword
  "account") − 10 (four labels) − 20 (address pattern) − 5 (eight digits,
  with a first label shorter than 15). See `DetectionProperties.WorkedExample`.
- **Overlapping brand tokens are all flagged.** `citibank.com` is not
  `citi.com` or `bank.com`, so it is flagged for both of those tokens
  (`DetectionProperties.CitibankIsFlaggedTwice`).
- **A CRLF header is kept as data.** A phishing file whose header line is
  `url` followed by a carriage return is not recognised as having a header.
  Both loaders then store the string `url` as a phishing entry
  (`Datasets.CarriageReturnHeaderIsKept`).
- **The two scan paths agree.** The route's phishing set is a subset of the
  detector's: the detector also adds the hostnames of parsed lines. Both
  modules load the same files, so the HTTP route's pre-check never changes
  the verdict. An HTTP scan and a WebSocket scan of the same URL store the
  same verdict and message (`Server.HttpAgreesWithSocket`).

## Model

| member | source | states |
|---|---|---|
| Strings.Trim | server/phishing-detection.ts:46 | The trimmed line is an infix of the line with no whitespace at either end. |
| Strings.TrimIsWindow | server/phishing-detection.ts:46 | `trim` cuts the line at two positions, and every character outside them is whitespace. |
| Strings.TrimEmptyIffBlank | server/phishing-detection.ts:31-32 | A line trims to the empty string, and so is skipped, exactly when every character is whitespace. |
| Strings.Utf16Length | server/phishing-detection.ts:182 | JavaScript length lies between the number of characters and twice it. It equals the number of characters when none lies outside the Basic Multilingual Plane. |
| Strings.Utf16LengthCount | server/phishing-detection.ts:182 | The JavaScript length is exactly the number of characters plus the number of characters outside the Basic Multilingual Plane. |
| Strings.Lower | server/phishing-detection.ts:115 | Lower-casing keeps the length and maps each character on its own: A–Z go to a–z and everything else is unchanged. |
| Strings.ContainsIffOccurs | server/phishing-detection.ts:118 | `includes` holds exactly when the needle occurs at some position. |
| Strings.Split | server/phishing-detection.ts:161 | `split` yields at least one piece and no piece contains the separator. Joining the pieces with the separator gives back the input. |
| Strings.SplitCount | server/phishing-detection.ts:161-162 | The number of labels is one more than the number of separators. |
| Strings.SplitFirstLine | server/phishing-detection.ts:42-43 | Splitting text whose first line has no separator yields that line, then the pieces of the rest. |
| Strings.Select | server/phishing-detection.ts:175 | Removing the letters and digits keeps exactly the other characters and never lengthens the path. |
| Strings.SelectCounts | server/phishing-detection.ts:175 | Removing the letters and digits keeps every occurrence of every other character, as often as it occurs, and no letter or digit. |
| Strings.SelectConcat | server/phishing-detection.ts:175 | Filtering a concatenation filters each part and keeps their order. |
| Strings.SelectPartition | server/phishing-detection.ts:175 | The characters kept and the characters removed together account for the whole string. |
| Entropy.EntropyExamples | server/phishing-detection.ts:256-274 | "aaaa" has entropy 0 and is not high-entropy; "ab" has exactly one bit per character. |
| Entropy.ShortLabelIsNotHighEntropy | server/phishing-detection.ts:189 | A label of at most 16 characters has at most log2 16 = 4 bits per character, so the entropy test alone never fires on it. |
| Entropy.UniformLabelHasZeroEntropy | server/phishing-detection.ts:261-271 | A label repeating one character has entropy exactly zero. |
| Datasets.AddEntries | server/phishing-detection.ts:30-34 | The legitimate-file loop adds exactly the trimmed non-blank lines to what the set already held. |
| Datasets.AddPhishingEntries | server/phishing-detection.ts:45-57 | The phishing-file loop adds each trimmed non-blank line, plus the hostname of every such line that parses. |
| Datasets.FirstDataLine | server/phishing-detection.ts:43 | Line 0 is skipped exactly when it is three characters spelling "url" in any case. Nothing else counts, not even surrounding whitespace. |
| Datasets.LoadDetectorDatasets | server/phishing-detection.ts:24-62 | With the legitimate file present, its set is the trimmed non-blank lines. The phishing set is the data lines plus their parsed hostnames. A missing file leaves its set empty. A read that throws on the legitimate file leaves both sets empty. |
| Datasets.LoadRouteDatasets | server/routes.ts:25-57 | The route loader has the same reading discipline and header rule, and adds no derived hostnames. |
| Datasets.LoadersAgree | server/routes.ts:39-51 | From the same files the two loaders build the same legitimate set. The detector's phishing set is the route's plus the parsed hostnames, so the route's is contained in the detector's. |
| Datasets.EntriesAreTrimmed | server/phishing-detection.ts:46-48 | Every entry is non-empty, has no whitespace at either end, and is the trimmed form of some line. |
| Datasets.CarriageReturnHeaderIsKept | server/routes.ts:43 | A "url" header that ends in a carriage return is not skipped, and "url" becomes a phishing entry in both loaders. |
| Detection.Filter | server/phishing-detection.ts:117-122 | The matched names are exactly the list entries passing the test, in list order and without repeats, however often each occurs. |
| Detection.PenaltyPerName | server/phishing-detection.ts:119-120 | Each matched name gives one penalty whose reason is the fixed prefix followed by the name. |
| Detection.FiredPenalties | server/phishing-detection.ts:160-209 | The single-condition rows contribute only penalties, never a security indicator. The reported patterns are the reasons of exactly the rows that fire, in table order, and the penalty is the sum of those rows' weights. |
| Detection.Clamp | server/phishing-detection.ts:212 | The clamped score lies in [0, 100] and equals the raw score whenever the raw score is already in range. |
| Detection.TierMessage | server/phishing-detection.ts:218-227 | Each message is chosen exactly on its score band: ≥ 80, [50, 80), [30, 50) and < 30. |
| Detection.PerNameTotals | server/phishing-detection.ts:117-122 | A per-name rule costs its weight times the number of names, and its patterns are prefix + name in order. |
| Detection.HeuristicTotals | server/phishing-detection.ts:124-131 | The only bonus in the table is +10 for `https:`, which is also the only security indicator. Without HTTPS the penalties are at least 15. |
| Detection.PenaltyBreakdown | server/phishing-detection.ts:103-209 | The total penalty is 5 per keyword, 15 without HTTPS, 7 per suspicious TLD, 15 per imitated brand, and the weights of the single-condition rows that fire. |
| Detection.Heuristic | server/phishing-detection.ts:100-237 | The score is clamp(50 + 10·[https] − penalties), in [0, 60]. `isSafe` holds iff the score is at least 50. A URL without HTTPS scores at most 35 and is unsafe. The indicators are exactly the HTTPS one when it applies. |
| Detection.AnalyzeUrl | server/phishing-detection.ts:70-250 | A parse failure gives unsafe, score 0, the error message, and the single pattern "Error parsing URL". A legitimate hostname gives safe, score 100, no pattern and the single trusted-database indicator, even if also listed as phishing. A phishing hostname or raw URL then gives unsafe, score 0, no indicator and the single phishing-database pattern. On a miss the heuristic decides and the score is at most 60. |
| DetectionProperties.TiersPartitionScores | server/phishing-detection.ts:215-227 | Every score gets one of the four messages, and the two upper tiers are exactly the safe scores. |
| DetectionProperties.TopTierIsUnreachable | server/phishing-detection.ts:219-220 | No URL is ever given the "appears to be legitimate" message. A dataset hit has its own message, and the heuristics stop at 60. |
| DetectionProperties.OnlyTrustedScoresAbove60 | server/phishing-detection.ts:76-86 | A score above 60 arises only from a hit in the legitimate set. |
| DetectionProperties.HeuristicBelowTopTier | server/phishing-detection.ts:211-220 | The heuristic path never reaches the 80 threshold. |
| DetectionProperties.KeywordsAreDistinct | server/phishing-detection.ts:106-111 | The keyword list has no duplicates. |
| DetectionProperties.KeywordRule | server/phishing-detection.ts:106-122 | A keyword's pattern is reported iff it occurs in the lower-cased hostname and path. Each keyword is reported once, in list order, at 5 points each. |
| DetectionProperties.TldsAreDistinct | server/phishing-detection.ts:134 | The TLD list has no duplicates. |
| DetectionProperties.NoTldEndsWithAnother | server/phishing-detection.ts:134 | No entry of the TLD list ends with another entry. |
| DetectionProperties.AtMostOneTld | server/phishing-detection.ts:133-140 | At most one suspicious-TLD penalty, of 7 points, applies to any hostname. |
| DetectionProperties.OwnDomainIsNotTyposquat | server/phishing-detection.ts:150-158 | `brand.com` and its subdomains are never flagged for that brand. |
| DetectionProperties.ForeignBrandMentionIsTyposquat | server/phishing-detection.ts:150-158 | Any other hostname containing a brand token is flagged for it and reports the pattern for it. |
| DetectionProperties.CitibankIsFlaggedTwice | server/phishing-detection.ts:143-158 | "citibank.com" is flagged for "citi" and for "bank", though not for "citibank". |
| DetectionProperties.FilterAtMostOne | server/phishing-detection.ts:135-140 | Over a duplicate-free list, if at most one entry can pass then at most one is kept. |
| DetectionProperties.ExampleKeywords | server/phishing-detection.ts:117-122 | In "192.168.1.1/account" the only keyword found is "account". |
| DetectionProperties.ExampleHostLabels | server/phishing-detection.ts:161 | "192.168.1.1" splits into four labels. |
| DetectionProperties.ExampleLabelsMakeQuad | server/phishing-detection.ts:168-169 | A host with those four labels matches the address pattern, and its first label is "192". |
| DetectionProperties.ExampleHostDigits | server/phishing-detection.ts:205 | "192.168.1.1" has eight digits. |
| DetectionProperties.ExamplePathSpecials | server/phishing-detection.ts:175 | "/account" has one special character. |
| DetectionProperties.ExampleUrlHasNoRedirect | server/phishing-detection.ts:195-198 | The example URL carries no redirect parameter and is at most 100 code units long. |
| DetectionProperties.ExampleRowsFire | server/phishing-detection.ts:160-172 | Given the example's labels, address pattern and digits, the label, address and digit rows fire. |
| DetectionProperties.ExampleRowsQuiet | server/phishing-detection.ts:174-202 | The special-character, length, random-label and redirect rows do not fire on the example. |
| DetectionProperties.ThreeRowsFire | server/phishing-detection.ts:160-209 | When exactly the first, second and last rows fire, the rows' penalty is the sum of those three weights. |
| DetectionProperties.ConditionsScore | server/phishing-detection.ts:103-212 | A URL meeting the example's conditions scores exactly 20. |
| DetectionProperties.WorkedExample | server/phishing-detection.ts:70-227 | `https://192.168.1.1/account`, absent from both sets, scores 20 and is unsafe with the "strong indicators" message. |
| ReportedPatterns.HeuristicPatternGroups | server/phishing-detection.ts:103-209 | The heuristic patterns come in rule order: keywords, the missing-HTTPS pattern, the TLD, the brands, then the single-condition rows. |
| ReportedPatterns.FiredReasonIff | server/phishing-detection.ts:160-209 | When the row reasons are distinct, a row's reason is reported exactly when that row fires. |
| ReportedPatterns.RowReasonsAreDistinct | server/phishing-detection.ts:160-209 | The seven single-condition rows have seven different reasons. |
| ReportedPatterns.KeywordReported | server/phishing-detection.ts:115-122 | The pattern for a listed keyword appears in a heuristic analysis exactly when the lower-cased hostname and path contain that keyword. |
| ReportedPatterns.TldReported | server/phishing-detection.ts:133-140 | The pattern for a listed TLD appears exactly when the hostname ends with it. |
| ReportedPatterns.BrandReported | server/phishing-detection.ts:143-158 | The pattern for a listed brand appears exactly when the hostname contains the brand token and is neither `brand.com` nor one of its subdomains. |
| ReportedPatterns.RowReported | server/phishing-detection.ts:160-209 | For each of the seven single-condition rows, its reason appears exactly when its condition holds. |
| History.Append | server/routes.ts:111-112 | The new record goes to index 0 and every kept record moves back one place. The length grows by one, or stays the same once the history would exceed 100. |
| History.NewestFirst | server/routes.ts:111 | Records supplied oldest first come out with the most recent at index 0. |
| History.AppendKeepsBound | server/routes.ts:112 | One append from at most 100 records leaves at most 100. |
| History.AppendAllKeepsNewest | server/routes.ts:111-112 | From a history within the cap, a run of scans leaves the run newest first, followed by the older history, cut to 100. |
| History.HistoryOfScans | server/routes.ts:111-112 | After k scans from empty, the history holds the last min(k, 100) records, newest first. |
| History.OverflowKeepsLatestHundred | server/routes.ts:111-112 | After 105 scans, exactly the 6th through the 105th records remain, newest first. |
| History.SafeRecords | server/routes.ts:140 | The filter keeps exactly the safe records, each as many times as it occurs in the history, and never lengthens it. |
| History.UnsafeRecords | server/routes.ts:139-141 | The records counted as phishing are exactly the unsafe ones, each as many times as it occurs in the history. |
| History.SafeAndUnsafePartition | server/routes.ts:139-141 | Safe and unsafe records together account for the whole history. |
| History.ComputeStats | server/routes.ts:138-155 | The total is the history's length. The safe count is the number of safe records, and the phishing count, total − safe, is the number of unsafe ones. Both percentages are "0" on an empty history. The known-URL counts are the set sizes. |
| History.StatsAfterAppend | server/routes.ts:139-141 | Below the cap, a scan adds one to the total and one to the safe or the phishing count, according to its verdict. |
| Server.Boot | server/routes.ts:59-60 | At start-up the route's sets come from `loadUrlDatabases`, and `analyzeUrl` runs against the sets `initializeDatasets` built from the same files. |
| Server.Broadcast | server/routes.ts:225-234 | Every open client gets the message appended to its outbox. Every other client is untouched, and no client is added or removed. |
| Server.SendIfOpen | server/routes.ts:198-203 | A reply reaches the one client it is addressed to, only when that client is open. |
| Server.RouteVerdict | server/routes.ts:90-101 | A legitimate hostname gives the trusted verdict. Otherwise a phishing hostname or raw URL gives the phishing verdict. Otherwise the verdict is `analyzeUrl`'s. The messages are the detector's own. |
| Server.HttpScan | server/routes.ts:64-128 | A missing or empty `url` gets 400 "URL is required". An unparseable one gets 400 "Invalid URL format…". Either way the state is unchanged. A valid `url` is stored verbatim with the route's verdict and broadcast, and the response is 200. |
| Server.StatsOf | server/routes.ts:138-155 | The stats count the current history, and the known-URL counts are the route's set sizes. |
| Server.Connect | server/routes.ts:162-173 | A new client gets a fresh id, is open, and has received exactly one message: the history as it stood. |
| Server.SetReadyState | server/routes.ts:219-221 | A client's state change sends nothing and touches nothing else. |
| Server.Receive | server/routes.ts:175-217 | Only a `scan` message with a truthy `url` does anything. An unparseable `url` sends the sender alone an error and leaves the history unchanged. A valid one is analysed, recorded, broadcast, then answered to the sender if open. |
| Server.StepPreservesValid | server/routes.ts:111-112 | No event takes the history past 100 records or reuses a client id. |
| Server.RunPreservesValid | server/routes.ts:111-112 | The same holds for any sequence of events. |
| Server.StepOutboxesGrow | server/routes.ts:225-234 | No event removes a client or takes back a message: every outbox only grows at its end. |
| Server.RunOutboxesGrow | server/routes.ts:225-234 | The same holds for any sequence of events. |
| Server.HttpScanBroadcasts | server/routes.ts:104-115 | A valid HTTP scan stores the submitted `url` at index 0. It sends that record as exactly one `new-scan` to each open client and nothing to any other. |
| Server.SenderHearsTwice | server/routes.ts:192-203 | The open sender of a socket scan receives `new-scan` and then `scan-result`, both carrying the stored record. |
| Server.HttpAgreesWithSocket | server/routes.ts:90-101 | With both modules loaded from the same files, the route's pre-check always agrees with `analyzeUrl`. |
| Server.RejectedRequestIsInert | server/routes.ts:68-81 | A rejected request gets status 400 and changes nothing. |

## Left out

- URL parsing (`new URL`, a WHATWG URL Standard parser) is a parameter. Its output is not modelled, so nothing is proved about which strings parse or what hostname they yield.
- `calculateEntropy` is floating point (`Math.log2`). The model decides `entropy > 4` exactly over the integers, so it can differ from the code only where floating-point rounding flips a comparison very close to 4.
- The `toFixed(1)` percentage strings are left abstract. `History.Percentage` records the numerator and denominator, and the literal "0" for an empty history.
- `toLowerCase` lower-cases only ASCII letters in the model. The list keywords are ASCII, but a non-ASCII capital in a hostname or path would lower-case differently.
- File reading, logging, JSON encoding and decoding, Express, the `ws` library and the clock are parameters or left out. Only string values of `url` are modelled: a non-string JSON value is not.
- The 500 branch of `POST /api/scan` is left out. `analyzeUrl` catches its own errors and nothing else in the handler throws once the URL has parsed.
- `GET /api/scan-history` just returns the history field of the state and has no member of its own.
- Concurrency is not modelled. Node runs each handler to completion, so every request and message is one atomic transition.
- A WebSocket message from a client the state does not know is handled totally: a scan is still recorded and the reply goes nowhere. The server never receives such a message.
- The client application, the Python launchers and `server/index.ts` are not part of this model.

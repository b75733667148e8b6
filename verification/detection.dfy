/**
  `analyzeUrl` from server/phishing-detection.ts: an exact lookup in the two
  reputation sets, and on a miss a fixed table of additive rules folded into
  an integer score that is clamped to [0, 100] and mapped to a verdict and one
  of four messages.
 */
module Detection {
  import opened Wrappers
  import opened Strings
  import opened Url
  import opened Entropy
  import opened Datasets

  /** What `analyzeUrl` resolves to; `details.score` is always present in this model. */
  datatype Analysis = Analysis(
    isSafe: bool,
    message: string,
    suspiciousPatterns: seq<string>,
    securityIndicators: seq<string>,
    score: int)

  const Neutral: int := 50
  const SafeThreshold: int := 50

  const LegitimateHitMessage := "This website is recognized as legitimate and safe to visit."
  const PhishingHitMessage := "This website is recognized as a known phishing site."
  const ParseErrorMessage := "Error analyzing URL. The URL may be malformed."
  const AppearsLegitimate := "This website appears to be legitimate and safe to visit."
  const MinorIndicators := "This website seems legitimate but shows some minor suspicious indicators."
  const MultipleSigns := "This website shows multiple signs of being a potential phishing attempt."
  const StrongIndicators := "This website shows strong indicators of being a phishing site."

  const SuspiciousKeywords: seq<string> := [
    "phishing", "scam", "login", "sign-in", "signin", "account",
    "verify", "secure", "security", "update", "confirm", "bank",
    "paypal", "password", "credential", "wallet", "bitcoin", "crypto",
    "authenticate", "verification", "authorize", "recover", "reset"]

  const SuspiciousTlds: seq<string> := [
    ".tk", ".ml", ".ga", ".cf", ".gq", ".xyz", ".top", ".club", ".live", ".site"]

  const PopularDomains: seq<string> := [
    "google", "facebook", "amazon", "apple", "microsoft",
    "netflix", "paypal", "instagram", "twitter", "linkedin",
    "youtube", "outlook", "gmail", "yahoo", "bank", "chase",
    "wellsfargo", "citi", "citibank", "amex", "americanexpress"]

  /**
    A triggered rule. A penalty lowers the score and is reported among the
    suspicious patterns; a bonus raises it and is reported among the security
    indicators.
   */
  datatype Signal = Penalty(reason: string, weight: nat) | Bonus(reason: string, weight: nat)

  /** The sum of the penalty weights. */
  function PenaltyTotal(signals: seq<Signal>): nat
  {
    if |signals| == 0 then 0
    else (if signals[0].Penalty? then signals[0].weight else 0) + PenaltyTotal(signals[1..])
  }

  /** The sum of the bonus weights. */
  function BonusTotal(signals: seq<Signal>): nat
  {
    if |signals| == 0 then 0
    else (if signals[0].Bonus? then signals[0].weight else 0) + BonusTotal(signals[1..])
  }

  /** The reasons of the penalties, in rule order: `suspiciousPatterns`. */
  function Patterns(signals: seq<Signal>): seq<string>
  {
    if |signals| == 0 then []
    else (if signals[0].Penalty? then [signals[0].reason] else []) + Patterns(signals[1..])
  }

  /** The reasons of the bonuses, in rule order: `securityIndicators`. */
  function Indicators(signals: seq<Signal>): seq<string>
  {
    if |signals| == 0 then []
    else (if signals[0].Bonus? then [signals[0].reason] else []) + Indicators(signals[1..])
  }

  predicate Distinct(xs: seq<string>)
  {
    forall i, j :: 0 <= i < j < |xs| ==> xs[i] != xs[j]
  }

  /** `ys` can be obtained from `xs` by deleting entries: the entries of `ys` appear in the order of `xs`. */
  predicate IsSubsequence(ys: seq<string>, xs: seq<string>)
    decreases |xs|
  {
    |ys| == 0 || (|xs| > 0 && if ys[0] == xs[0] then IsSubsequence(ys[1..], xs[1..]) else IsSubsequence(ys, xs[1..]))
  }

  /** Dropping the first entry of a subsequence leaves a subsequence. */
  lemma {:induction false} SubsequenceDropFirst(ys: seq<string>, xs: seq<string>)
    requires |ys| > 0 && IsSubsequence(ys, xs)
    ensures IsSubsequence(ys[1..], xs)
    decreases |xs|, 1
  {
    if ys[0] == xs[0] {
      SubsequenceOfTail(ys[1..], xs);
    } else {
      SubsequenceDropFirst(ys, xs[1..]);
      SubsequenceOfTail(ys[1..], xs);
    }
  }

  /** A subsequence of the tail is a subsequence of the whole list. */
  lemma {:induction false} SubsequenceOfTail(ys: seq<string>, xs: seq<string>)
    requires |xs| > 0 && IsSubsequence(ys, xs[1..])
    ensures IsSubsequence(ys, xs)
    decreases |xs|, 0
  {
    if |ys| > 0 && ys[0] == xs[0] {
      SubsequenceDropFirst(ys, xs[1..]);
    }
  }

  /** The entries of a fixed list that pass a test, in list order, each at most once. */
  function Filter(xs: seq<string>, keep: string -> bool): (ys: seq<string>)
    ensures forall y :: y in ys <==> y in xs && keep(y)
    ensures |ys| <= |xs|
    ensures IsSubsequence(ys, xs)
    ensures Distinct(xs) ==> Distinct(ys)
  {
    if |xs| == 0 then []
    else
      var rest := Filter(xs[1..], keep);
      if keep(xs[0]) then
        var ys := [xs[0]] + rest;
        assert ys[1..] == rest;
        assert Distinct(xs) ==> Distinct(ys) by {
          if Distinct(xs) {
            forall i, j | 0 <= i < j < |ys| ensures ys[i] != ys[j] {
              if i == 0 {
                assert ys[j] in xs[1..];
                var k :| 0 <= k < |xs[1..]| && xs[1..][k] == ys[j];
                assert xs[k + 1] == ys[j];
              } else {
                assert ys[i] == rest[i - 1] && ys[j] == rest[j - 1];
                assert Distinct(xs[1..]);
              }
            }
          }
        }
        ys
      else
        assert Distinct(xs) ==> Distinct(xs[1..]);
        rest
  }

  /** One penalty per name, with the reason `prefix + name`. */
  function PenaltyPerName(prefix: string, names: seq<string>, weight: nat): (signals: seq<Signal>)
    ensures |signals| == |names|
    ensures forall i :: 0 <= i < |names| ==> signals[i] == Penalty(prefix + names[i], weight)
  {
    seq(|names|, i requires 0 <= i < |names| => Penalty(prefix + names[i], weight))
  }

  // ---- The rules, in the order they run ----------------------------------

  /** The keywords found in the lower-cased hostname followed by the path. */
  function MatchedKeywords(hostname: string, pathname: string): seq<string>
  {
    var text := Lower(hostname + pathname);
    Filter(SuspiciousKeywords, kw => Contains(text, kw))
  }

  function KeywordSignals(hostname: string, pathname: string): seq<Signal>
  {
    PenaltyPerName("Contains suspicious keyword: ", MatchedKeywords(hostname, pathname), 5)
  }

  const HttpsProtocol := "https:"

  function TransportSignal(protocol: string): Signal
  {
    if protocol == HttpsProtocol then Bonus("Uses secure HTTPS connection", 10)
    else Penalty("Not using secure HTTPS connection", 15)
  }

  function MatchedTlds(hostname: string): seq<string>
  {
    Filter(SuspiciousTlds, tld => EndsWith(hostname, tld))
  }

  function TldSignals(hostname: string): seq<Signal>
  {
    PenaltyPerName("Using potentially suspicious TLD: ", MatchedTlds(hostname), 7)
  }

  /** The hostname mentions the brand without being `brand.com` or a subdomain of it. */
  predicate ImitatesBrand(hostname: string, brand: string)
  {
    Contains(hostname, brand) && !EndsWith(hostname, "." + brand + ".com") && hostname != brand + ".com"
  }

  function MatchedBrands(hostname: string): seq<string>
  {
    Filter(PopularDomains, brand => ImitatesBrand(hostname, brand))
  }

  function TyposquatSignals(hostname: string): seq<Signal>
  {
    PenaltyPerName("Potential typosquatting of: ", MatchedBrands(hostname), 15)
  }

  /** Between one and three ASCII digits: the `\d{1,3}` of the address pattern. */
  predicate IsOctetText(s: string)
  {
    1 <= |s| <= 3 && forall i :: 0 <= i < |s| ==> IsAsciiDigit(s[i])
  }

  /** The whole of `s` matches `\d{1,3}\.\d{1,3}\.\d{1,3}\.\d{1,3}`. */
  predicate IsDottedQuad(s: string)
  {
    var parts := Split(s, '.');
    |parts| == 4 && forall i :: 0 <= i < 4 ==> IsOctetText(parts[i])
  }

  /** The unanchored address pattern finds a match somewhere in the hostname. */
  predicate HasDottedQuad(hostname: string)
  {
    exists i, j :: 0 <= i <= j <= |hostname| && IsDottedQuad(hostname[i..j])
  }

  /** `domain.split('.')[0]`. */
  function FirstLabel(hostname: string): string
  {
    Split(hostname, '.')[0]
  }

  function IsSpecial(c: char): bool
  {
    !IsAsciiAlphanumeric(c)
  }

  /** The length of the path once every ASCII letter and digit is removed. */
  function SpecialCharLength(pathname: string): nat
  {
    Utf16Length(Select(pathname, IsSpecial))
  }

  function DigitCount(hostname: string): nat
  {
    |Select(hostname, IsAsciiDigit)|
  }

  predicate HasRedirectParameter(url: string)
  {
    Contains(url, "redirect=") || Contains(url, "url=") || Contains(url, "link=") || Contains(url, "goto=")
  }

  predicate LooksRandom(hostname: string)
  {
    var first := FirstLabel(hostname);
    HighEntropy(first) && Utf16Length(first) > 10
  }

  predicate HasManyDigits(hostname: string)
  {
    DigitCount(hostname) > 3 && Utf16Length(FirstLabel(hostname)) < 15
  }

  /** A single-condition row of the rule table: a penalty that applies when `fires` holds. */
  datatype Flag = Flag(fires: bool, reason: string, weight: nat)

  /** The single-condition rows, in evaluation order. */
  function FlagRows(url: string, p: ParsedUrl): seq<Flag>
  {
    var host := p.hostname;
    [ Flag(|Split(host, '.')| > 3, "Excessive number of subdomains", 10),
      Flag(HasDottedQuad(host), "Uses IP address instead of domain name", 20),
      Flag(SpecialCharLength(p.pathname) > 5, "Contains excessive special characters", 5),
      Flag(Utf16Length(url) > 100, "Excessively long URL", 10),
      Flag(LooksRandom(host), "Random-looking domain name", 15),
      Flag(HasRedirectParameter(url), "Contains redirect parameters", 10),
      Flag(HasManyDigits(host), "Unusual number of digits in domain", 5) ]
  }

  /** The reasons of all the rows, in table order. */
  function Reasons(flags: seq<Flag>): (rs: seq<string>)
    ensures |rs| == |flags|
    ensures forall i :: 0 <= i < |flags| ==> rs[i] == flags[i].reason
  {
    seq(|flags|, i requires 0 <= i < |flags| => flags[i].reason)
  }

  /** The weight of every row that fires, added up. */
  function FiredWeight(flags: seq<Flag>): nat
  {
    if |flags| == 0 then 0
    else (if flags[0].fires then flags[0].weight else 0) + FiredWeight(flags[1..])
  }

  /**
    The penalties of the rows that fire, in row order: the reported patterns
    are the reasons of exactly the rows that fire, in table order, and the
    penalty is the sum of their weights.
   */
  function FiredPenalties(flags: seq<Flag>): (signals: seq<Signal>)
    ensures AllPenalties(signals)
    ensures forall x :: x in Patterns(signals) <==> exists i :: 0 <= i < |flags| && flags[i].fires && flags[i].reason == x
    ensures IsSubsequence(Patterns(signals), Reasons(flags))
    ensures PenaltyTotal(signals) == FiredWeight(flags)
  {
    if |flags| == 0 then []
    else
      var rest := FiredPenalties(flags[1..]);
      FiredPenaltiesStep(flags, rest);
      FiredHead(flags[0]) + rest
  }

  /** The penalty of one row, when it fires. */
  function FiredHead(flag: Flag): seq<Signal>
  {
    if flag.fires then [Penalty(flag.reason, flag.weight)] else []
  }

  /** What `FiredPenalties` promises of the rows after the first carries over to the whole table. */
  lemma FiredPenaltiesStep(flags: seq<Flag>, rest: seq<Signal>)
    requires |flags| > 0
    requires AllPenalties(rest)
    requires forall x :: x in Patterns(rest) <==> exists i :: 0 <= i < |flags[1..]| && flags[1..][i].fires && flags[1..][i].reason == x
    requires IsSubsequence(Patterns(rest), Reasons(flags[1..]))
    requires PenaltyTotal(rest) == FiredWeight(flags[1..])
    ensures var signals := FiredHead(flags[0]) + rest;
      && AllPenalties(signals)
      && (forall x :: x in Patterns(signals) <==> exists i :: 0 <= i < |flags| && flags[i].fires && flags[i].reason == x)
      && IsSubsequence(Patterns(signals), Reasons(flags))
      && PenaltyTotal(signals) == FiredWeight(flags)
  {
    var head := FiredHead(flags[0]);
    AllPenaltiesConcat(head, rest);
    TotalsOfConcat(head, rest);
    assert Reasons(flags)[1..] == Reasons(flags[1..]);
    if flags[0].fires {
      assert Patterns(head) == [flags[0].reason];
      assert (Patterns(head) + Patterns(rest))[1..] == Patterns(rest);
    } else {
      assert Patterns(head) == [];
      assert Patterns(head) + Patterns(rest) == Patterns(rest);
      SubsequenceOfTail(Patterns(rest), Reasons(flags));
    }
    forall x | x in Patterns(head + rest)
      ensures exists i :: 0 <= i < |flags| && flags[i].fires && flags[i].reason == x
    {
      if x !in Patterns(head) {
        var j :| 0 <= j < |flags[1..]| && flags[1..][j].fires && flags[1..][j].reason == x;
        assert flags[j + 1] == flags[1..][j];
      }
    }
    forall i | 0 <= i < |flags| && flags[i].fires
      ensures flags[i].reason in Patterns(head + rest)
    {
      if i > 0 {
        assert flags[1..][i - 1] == flags[i];
      }
    }
  }

  /** The rows that follow the keyword and transport rules; every one of them is a penalty. */
  function LaterSignals(url: string, p: ParsedUrl): seq<Signal>
  {
    TldSignals(p.hostname) + TyposquatSignals(p.hostname) + FiredPenalties(FlagRows(url, p))
  }

  /** The whole rule table for one parsed URL, in evaluation order. */
  function HeuristicSignals(url: string, p: ParsedUrl): seq<Signal>
  {
    KeywordSignals(p.hostname, p.pathname) + [TransportSignal(p.protocol)] + LaterSignals(url, p)
  }

  /** `Math.max(0, Math.min(100, x))`. */
  function Clamp(x: int): (r: int)
    ensures 0 <= r <= 100
    ensures 0 <= x <= 100 ==> r == x
    ensures x < 0 ==> r == 0
    ensures x > 100 ==> r == 100
  {
    if x < 0 then 0 else if x > 100 then 100 else x
  }

  /** The four message tiers, selected high to low by the thresholds 80, 50 and 30. */
  function TierMessage(score: int): (m: string)
    ensures m == AppearsLegitimate <==> score >= 80
    ensures m == MinorIndicators <==> 50 <= score < 80
    ensures m == MultipleSigns <==> 30 <= score < 50
    ensures m == StrongIndicators <==> score < 30
  {
    if score >= 80 then AppearsLegitimate
    else if score >= 50 then MinorIndicators
    else if score >= 30 then MultipleSigns
    else StrongIndicators
  }

  // ---- Facts about signal lists ------------------------------------------

  lemma {:induction false} PenaltyTotalConcat(a: seq<Signal>, b: seq<Signal>)
    ensures PenaltyTotal(a + b) == PenaltyTotal(a) + PenaltyTotal(b)
  {
    if |a| > 0 {
      assert (a + b)[1..] == a[1..] + b;
      PenaltyTotalConcat(a[1..], b);
    } else {
      assert a + b == b;
    }
  }

  lemma {:induction false} BonusTotalConcat(a: seq<Signal>, b: seq<Signal>)
    ensures BonusTotal(a + b) == BonusTotal(a) + BonusTotal(b)
  {
    if |a| > 0 {
      assert (a + b)[1..] == a[1..] + b;
      BonusTotalConcat(a[1..], b);
    } else {
      assert a + b == b;
    }
  }

  lemma {:induction false} PatternsConcat(a: seq<Signal>, b: seq<Signal>)
    ensures Patterns(a + b) == Patterns(a) + Patterns(b)
  {
    if |a| > 0 {
      assert (a + b)[1..] == a[1..] + b;
      PatternsConcat(a[1..], b);
    } else {
      assert a + b == b;
    }
  }

  lemma {:induction false} IndicatorsConcat(a: seq<Signal>, b: seq<Signal>)
    ensures Indicators(a + b) == Indicators(a) + Indicators(b)
  {
    if |a| > 0 {
      assert (a + b)[1..] == a[1..] + b;
      IndicatorsConcat(a[1..], b);
    } else {
      assert a + b == b;
    }
  }

  lemma TotalsOfConcat(a: seq<Signal>, b: seq<Signal>)
    ensures PenaltyTotal(a + b) == PenaltyTotal(a) + PenaltyTotal(b)
    ensures BonusTotal(a + b) == BonusTotal(a) + BonusTotal(b)
    ensures Patterns(a + b) == Patterns(a) + Patterns(b)
    ensures Indicators(a + b) == Indicators(a) + Indicators(b)
  {
    PenaltyTotalConcat(a, b);
    BonusTotalConcat(a, b);
    PatternsConcat(a, b);
    IndicatorsConcat(a, b);
  }

  /** A list of penalties carries no bonus and reports nothing among the indicators. */
  lemma {:induction false} PenaltiesOnly(signals: seq<Signal>)
    requires AllPenalties(signals)
    ensures BonusTotal(signals) == 0
    ensures Indicators(signals) == []
    ensures |Patterns(signals)| == |signals|
  {
    if |signals| > 0 {
      PenaltiesOnly(signals[1..]);
    }
  }

  /** The penalty of a per-name rule is its weight times the number of names. */
  lemma {:induction false} PerNameTotals(prefix: string, names: seq<string>, weight: nat)
    ensures PenaltyTotal(PenaltyPerName(prefix, names, weight)) == weight * |names|
    ensures Patterns(PenaltyPerName(prefix, names, weight)) == seq(|names|, i requires 0 <= i < |names| => prefix + names[i])
    ensures BonusTotal(PenaltyPerName(prefix, names, weight)) == 0
    ensures Indicators(PenaltyPerName(prefix, names, weight)) == []
  {
    var signals := PenaltyPerName(prefix, names, weight);
    PenaltiesOnly(signals);
    if |names| > 0 {
      assert signals[1..] == PenaltyPerName(prefix, names[1..], weight);
      PerNameTotals(prefix, names[1..], weight);
    }
  }

  predicate AllPenalties(signals: seq<Signal>)
  {
    forall i :: 0 <= i < |signals| ==> signals[i].Penalty?
  }

  lemma AllPenaltiesConcat(a: seq<Signal>, b: seq<Signal>)
    requires AllPenalties(a) && AllPenalties(b)
    ensures AllPenalties(a + b)
  {
  }

  lemma LaterSignalsArePenalties(url: string, p: ParsedUrl)
    ensures AllPenalties(LaterSignals(url, p))
  {
    var tld, typo := TldSignals(p.hostname), TyposquatSignals(p.hostname);
    AllPenaltiesConcat(tld, typo);
    AllPenaltiesConcat(tld + typo, FiredPenalties(FlagRows(url, p)));
  }

  /** Between two runs of penalties, one signal decides the bonus total and the indicators. */
  lemma OneSignalBetweenPenalties(before: seq<Signal>, t: Signal, after: seq<Signal>)
    requires AllPenalties(before) && AllPenalties(after)
    ensures BonusTotal(before + [t] + after) == if t.Bonus? then t.weight else 0
    ensures Indicators(before + [t] + after) == if t.Bonus? then [t.reason] else []
    ensures PenaltyTotal(before + [t] + after) >= if t.Penalty? then t.weight else 0
  {
    PenaltiesOnly(before);
    PenaltiesOnly(after);
    TotalsOfConcat(before, [t]);
    TotalsOfConcat(before + [t], after);
    assert [t][1..] == [];
  }

  /** The only bonus in the table is the +10 for HTTPS. */
  lemma HeuristicTotals(url: string, p: ParsedUrl)
    ensures BonusTotal(HeuristicSignals(url, p)) == if p.protocol == HttpsProtocol then 10 else 0
    ensures Indicators(HeuristicSignals(url, p))
      == if p.protocol == HttpsProtocol then ["Uses secure HTTPS connection"] else []
    ensures p.protocol != HttpsProtocol ==> PenaltyTotal(HeuristicSignals(url, p)) >= 15
  {
    var kw := KeywordSignals(p.hostname, p.pathname);
    assert AllPenalties(kw);
    LaterSignalsArePenalties(url, p);
    OneSignalBetweenPenalties(kw, TransportSignal(p.protocol), LaterSignals(url, p));
  }

  /** The penalty of a table laid out as the heuristic lays it out, from its parts. */
  lemma TableTotal(keywords: seq<string>, tlds: seq<string>, brands: seq<string>, protocol: string, rows: seq<Signal>)
    ensures var table := PenaltyPerName("Contains suspicious keyword: ", keywords, 5) + [TransportSignal(protocol)]
        + (PenaltyPerName("Using potentially suspicious TLD: ", tlds, 7)
           + PenaltyPerName("Potential typosquatting of: ", brands, 15) + rows);
      PenaltyTotal(table) == 5 * |keywords| + (if protocol == HttpsProtocol then 0 else 15)
        + 7 * |tlds| + 15 * |brands| + PenaltyTotal(rows)
  {
    var kw, t := PenaltyPerName("Contains suspicious keyword: ", keywords, 5), [TransportSignal(protocol)];
    var tld, typo := PenaltyPerName("Using potentially suspicious TLD: ", tlds, 7), PenaltyPerName("Potential typosquatting of: ", brands, 15);
    PerNameTotals("Contains suspicious keyword: ", keywords, 5);
    PerNameTotals("Using potentially suspicious TLD: ", tlds, 7);
    PerNameTotals("Potential typosquatting of: ", brands, 15);
    PenaltyTotalConcat(tld, typo);
    PenaltyTotalConcat(tld + typo, rows);
    PenaltyTotalConcat(kw, t);
    PenaltyTotalConcat(kw + t, tld + typo + rows);
    assert t[1..] == [];
  }

  /**
    The penalty of the whole table, rule by rule: 5 per keyword, 15 without
    HTTPS, 7 per suspicious TLD, 15 per imitated brand, plus the
    single-condition rows.
   */
  lemma PenaltyBreakdown(url: string, p: ParsedUrl)
    ensures PenaltyTotal(HeuristicSignals(url, p))
      == 5 * |MatchedKeywords(p.hostname, p.pathname)| + (if p.protocol == HttpsProtocol then 0 else 15)
         + 7 * |MatchedTlds(p.hostname)| + 15 * |MatchedBrands(p.hostname)| + FiredWeight(FlagRows(url, p))
  {
    TableTotal(MatchedKeywords(p.hostname, p.pathname), MatchedTlds(p.hostname), MatchedBrands(p.hostname),
      p.protocol, FiredPenalties(FlagRows(url, p)));
  }

  // ---- analyzeUrl --------------------------------------------------------

  /** The heuristic path, taken when neither dataset knows the URL. */
  function Heuristic(url: string, p: ParsedUrl): (a: Analysis)
    ensures 0 <= a.score <= 60
    ensures a.isSafe <==> a.score >= SafeThreshold
    ensures a.message == TierMessage(a.score)
    ensures var https := if p.protocol == HttpsProtocol then 10 else 0;
      a.score == Clamp(Neutral + https - PenaltyTotal(HeuristicSignals(url, p)))
    ensures p.protocol != HttpsProtocol ==> a.score <= 35 && !a.isSafe
    ensures a.securityIndicators == if p.protocol == HttpsProtocol then ["Uses secure HTTPS connection"] else []
  {
    var signals := HeuristicSignals(url, p);
    HeuristicTotals(url, p);
    var score := Clamp(Neutral + BonusTotal(signals) - PenaltyTotal(signals));
    Analysis(score >= SafeThreshold, TierMessage(score), Patterns(signals), Indicators(signals), score)
  }

  function ParseErrorAnalysis(): Analysis
  {
    Analysis(false, ParseErrorMessage, ["Error parsing URL"], [], 0)
  }

  function LegitimateHit(): Analysis
  {
    Analysis(true, LegitimateHitMessage, [], ["Domain is in trusted websites database"], 100)
  }

  function PhishingHit(): Analysis
  {
    Analysis(false, PhishingHitMessage, ["Domain is in known phishing database"], [], 0)
  }

  /** The phishing lookup: the hostname, or the URL exactly as submitted. */
  predicate KnownPhishing(d: Datasets, url: string, hostname: string)
  {
    hostname in d.phishing || url in d.phishing
  }

  /** Neither dataset knows the URL, so the heuristics decide. */
  predicate DatasetMiss(d: Datasets, url: string, p: ParsedUrl)
  {
    p.hostname !in d.legitimate && !KnownPhishing(d, url, p.hostname)
  }

  /** `analyzeUrl(url)` against the detector's datasets `d`. */
  function AnalyzeUrl(d: Datasets, parse: Parser, url: string): (a: Analysis)
    ensures 0 <= a.score <= 100
    ensures a.isSafe <==> a.score >= SafeThreshold
    ensures parse(url).None? ==>
      && !a.isSafe && a.score == 0 && a.message == ParseErrorMessage
      && a.suspiciousPatterns == ["Error parsing URL"] && a.securityIndicators == []
    ensures parse(url).Some? && parse(url).value.hostname in d.legitimate ==>
      && a.isSafe && a.score == 100 && a.message == LegitimateHitMessage && a.suspiciousPatterns == []
      && a.securityIndicators == ["Domain is in trusted websites database"]
    ensures (parse(url).Some? && parse(url).value.hostname !in d.legitimate
             && KnownPhishing(d, url, parse(url).value.hostname)) ==>
      && !a.isSafe && a.score == 0 && a.message == PhishingHitMessage && a.securityIndicators == []
      && a.suspiciousPatterns == ["Domain is in known phishing database"]
    ensures parse(url).Some? && DatasetMiss(d, url, parse(url).value) ==>
      a == Heuristic(url, parse(url).value) && a.score <= 60
  {
    if parse(url).None? then ParseErrorAnalysis()
    else
      var p := parse(url).value;
      if p.hostname in d.legitimate then LegitimateHit()
      else if KnownPhishing(d, url, p.hostname) then PhishingHit()
      else Heuristic(url, p)
  }
}

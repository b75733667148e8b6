/**
  Properties of the rule table of `analyzeUrl`: how each rule contributes to
  the score and to the reported patterns, the message tiers, and worked
  examples.
 */
module DetectionProperties {
  import opened Wrappers
  import opened Strings
  import opened Url
  import opened Entropy
  import opened Datasets
  import opened Detection

  // ---- Tiers -------------------------------------------------------------

  /** Exactly one of the four messages is chosen for every score, and the verdict follows the same 50 threshold. */
  lemma TiersPartitionScores(score: int)
    ensures TierMessage(score) in [AppearsLegitimate, MinorIndicators, MultipleSigns, StrongIndicators]
    ensures (TierMessage(score) == AppearsLegitimate || TierMessage(score) == MinorIndicators) <==> score >= SafeThreshold
  {
  }

  /** The top tier needs a score of 80, which the heuristics cannot reach: no URL gets that message. */
  lemma TopTierIsUnreachable(d: Datasets, parse: Parser, url: string)
    ensures AnalyzeUrl(d, parse, url).message != AppearsLegitimate
  {
    match parse(url)
    case None =>
    case Some(p) => HeuristicBelowTopTier(url, p);
  }

  /** Only a hit in the legitimate set scores above 60, and it carries its own message. */
  lemma OnlyTrustedScoresAbove60(d: Datasets, parse: Parser, url: string)
    ensures AnalyzeUrl(d, parse, url).score > 60 ==>
      parse(url).Some? && parse(url).value.hostname in d.legitimate
      && AnalyzeUrl(d, parse, url).message == LegitimateHitMessage
  {
  }

  lemma HeuristicBelowTopTier(url: string, p: ParsedUrl)
    ensures Heuristic(url, p).message != AppearsLegitimate
  {
  }

  // ---- Keyword rule ------------------------------------------------------

  /** Length, first and last character: enough to tell the keywords apart. */
  function Signature(s: string): (int, char, char)
    requires |s| > 0
  {
    (|s|, s[0], s[|s| - 1])
  }

  lemma KeywordsAreDistinct()
    ensures Distinct(SuspiciousKeywords)
  {
    assert forall i, j :: 0 <= i < j < |SuspiciousKeywords| ==>
      Signature(SuspiciousKeywords[i]) != Signature(SuspiciousKeywords[j]);
  }

  lemma PrefixInjective(prefix: string, a: string, b: string)
    requires prefix + a == prefix + b
    ensures a == b
  {
    assert a == (prefix + a)[|prefix|..];
    assert b == (prefix + b)[|prefix|..];
  }

  /**
    Each keyword of the list contributes one pattern entry and a 5-point
    penalty exactly when it occurs in the lower-cased hostname and path,
    however often it occurs; the entries follow the list order.
   */
  lemma KeywordRule(hostname: string, pathname: string)
    ensures var matched := MatchedKeywords(hostname, pathname);
      && IsSubsequence(matched, SuspiciousKeywords)
      && Distinct(Patterns(KeywordSignals(hostname, pathname)))
      && PenaltyTotal(KeywordSignals(hostname, pathname)) == 5 * |matched|
      && |matched| <= |SuspiciousKeywords|
    ensures forall kw :: kw in SuspiciousKeywords ==>
      (("Contains suspicious keyword: " + kw) in Patterns(KeywordSignals(hostname, pathname)) <==>
        Contains(Lower(hostname + pathname), kw))
  {
    var prefix := "Contains suspicious keyword: ";
    var matched := MatchedKeywords(hostname, pathname);
    KeywordsAreDistinct();
    PerNameTotals(prefix, matched, 5);
    var patterns := Patterns(KeywordSignals(hostname, pathname));
    forall i, j | 0 <= i < j < |patterns|
      ensures patterns[i] != patterns[j]
    {
      if patterns[i] == patterns[j] {
        PrefixInjective(prefix, matched[i], matched[j]);
      }
    }
    forall kw | kw in SuspiciousKeywords
      ensures (prefix + kw) in patterns <==> Contains(Lower(hostname + pathname), kw)
    {
      if (prefix + kw) in patterns {
        var i :| 0 <= i < |patterns| && patterns[i] == prefix + kw;
        PrefixInjective(prefix, matched[i], kw);
      }
      if kw in matched {
        var i :| 0 <= i < |matched| && matched[i] == kw;
        assert patterns[i] == prefix + kw;
      }
    }
  }

  // ---- TLD rule ----------------------------------------------------------

  lemma TldsAreDistinct()
    ensures Distinct(SuspiciousTlds)
  {
  }

  /** No suffix in the TLD list ends with another entry of the list. */
  lemma NoTldEndsWithAnother()
    ensures forall a, b :: a in SuspiciousTlds && b in SuspiciousTlds && a != b ==> !EndsWith(b, a)
  {
  }

  /** Two suffixes of one string: the shorter is a suffix of the longer. */
  lemma SuffixesNest(s: string, a: string, b: string)
    ensures EndsWith(s, a) && EndsWith(s, b) && |a| <= |b| ==> EndsWith(b, a)
  {
    if EndsWith(s, a) && EndsWith(s, b) && |a| <= |b| {
      assert b[|b| - |a|..] == s[|s| - |a|..];
    }
  }

  /** At most one suspicious-TLD penalty can apply to a hostname. */
  lemma AtMostOneTld(hostname: string)
    ensures |MatchedTlds(hostname)| <= 1
    ensures PenaltyTotal(TldSignals(hostname)) <= 7
  {
    TldsAreDistinct();
    NoTldEndsWithAnother();
    forall a, b | a in SuspiciousTlds && b in SuspiciousTlds && EndsWith(hostname, a) && EndsWith(hostname, b)
      ensures a == b
    {
      SuffixesNest(hostname, a, b);
      SuffixesNest(hostname, b, a);
    }
    FilterAtMostOne(SuspiciousTlds, tld => EndsWith(hostname, tld));
    PerNameTotals("Using potentially suspicious TLD: ", MatchedTlds(hostname), 7);
  }

  // ---- Typosquatting rule ------------------------------------------------

  /** The brand's own `brand.com` and its subdomains are never flagged for that brand. */
  lemma OwnDomainIsNotTyposquat(hostname: string, brand: string)
    requires hostname == brand + ".com" || EndsWith(hostname, "." + brand + ".com")
    ensures brand !in MatchedBrands(hostname)
  {
  }

  /** A hostname that contains a brand token and is not that brand's domain is flagged. */
  lemma ForeignBrandMentionIsTyposquat(hostname: string, brand: string)
    requires brand in PopularDomains
    requires Contains(hostname, brand)
    requires hostname != brand + ".com" && !EndsWith(hostname, "." + brand + ".com")
    ensures brand in MatchedBrands(hostname)
    ensures ("Potential typosquatting of: " + brand) in Patterns(TyposquatSignals(hostname))
  {
    var m := MatchedBrands(hostname);
    var i :| 0 <= i < |m| && m[i] == brand;
    PerNameTotals("Potential typosquatting of: ", m, 15);
    assert Patterns(TyposquatSignals(hostname))[i] == "Potential typosquatting of: " + brand;
  }

  /**
    The brand tokens overlap: "citibank.com" is flagged as imitating both
    "bank" and "citi", because it is neither `bank.com` nor `citi.com`.
   */
  lemma CitibankIsFlaggedTwice(hostname: string)
    requires hostname == "citibank.com"
    ensures "citi" in MatchedBrands(hostname) && "bank" in MatchedBrands(hostname)
    ensures "citibank" !in MatchedBrands(hostname)
  {
    CitibankImitates(hostname);
    assert PopularDomains[17] == "citi" && PopularDomains[14] == "bank";
    ForeignBrandMentionIsTyposquat(hostname, "citi");
    ForeignBrandMentionIsTyposquat(hostname, "bank");
    OwnDomainIsNotTyposquat(hostname, "citibank");
  }

  lemma CitibankImitates(hostname: string)
    requires hostname == "citibank.com"
    ensures Contains(hostname, "citi") && hostname != "citi.com" && !EndsWith(hostname, ".citi.com")
    ensures Contains(hostname, "bank") && hostname != "bank.com" && !EndsWith(hostname, ".bank.com")
    ensures hostname == "citibank" + ".com"
  {
    ContainsAt(hostname, "citi", 0);
    ContainsAt(hostname, "bank", 4);
    assert hostname[3..][0] != ".citi.com"[0];
    assert hostname[3..][0] != ".bank.com"[0];
  }

  // ---- The worked example ------------------------------------------------

  /** A needle containing a character the haystack lacks is not found. */
  lemma AbsentChar(s: string, sub: string, c: char)
    requires c in sub && c !in s
    ensures !Contains(s, sub)
  {
    ContainsIffOccurs(s, sub);
    forall i | 0 <= i <= |s| - |sub|
      ensures !OccursAt(s, sub, i)
    {
      assert c !in s[i..i + |sub|];
    }
  }

  /** A filter whose every candidate fails is empty. */
  lemma {:induction false} FilterNone(xs: seq<string>, keep: string -> bool)
    requires forall x :: x in xs ==> !keep(x)
    ensures Filter(xs, keep) == []
  {
    if |xs| > 0 {
      FilterNone(xs[1..], keep);
    }
  }

  /** In a duplicate-free list, the entries after the first differ from it. */
  lemma TailAvoidsHead(xs: seq<string>)
    requires Distinct(xs) && |xs| > 0
    ensures xs[0] !in xs[1..]
    ensures Distinct(xs[1..])
  {
    forall y | y in xs[1..]
      ensures y != xs[0]
    {
      var k :| 0 <= k < |xs[1..]| && xs[1..][k] == y;
      assert xs[k + 1] == y;
    }
  }

  /** A filter over a duplicate-free list that at most one candidate passes keeps at most one entry. */
  lemma {:induction false} FilterAtMostOne(xs: seq<string>, keep: string -> bool)
    requires Distinct(xs)
    requires forall a, b :: a in xs && b in xs && keep(a) && keep(b) ==> a == b
    ensures |Filter(xs, keep)| <= 1
  {
    if |xs| > 0 {
      TailAvoidsHead(xs);
      if keep(xs[0]) {
        FilterNone(xs[1..], keep);
      } else {
        FilterAtMostOne(xs[1..], keep);
      }
    }
  }

  /** A filter over a duplicate-free list that exactly one candidate passes. */
  lemma {:induction false} FilterOne(xs: seq<string>, keep: string -> bool, x: string)
    requires Distinct(xs)
    requires x in xs && keep(x)
    requires forall y :: y in xs && y != x ==> !keep(y)
    ensures Filter(xs, keep) == [x]
  {
    TailAvoidsHead(xs);
    if xs[0] == x {
      FilterNone(xs[1..], keep);
    } else {
      FilterOne(xs[1..], keep, x);
    }
  }

  const ExampleUrl := "https://192.168.1.1/account"
  const ExampleHost := "192.168.1.1"

  /** Every character of `s` satisfies `ok`. */
  predicate DrawnFrom(s: string, ok: char -> bool)
  {
    |s| == 0 || (ok(s[0]) && DrawnFrom(s[1..], ok))
  }

  lemma {:induction false} DrawnFromIndex(s: string, ok: char -> bool)
    ensures DrawnFrom(s, ok) <==> forall i :: 0 <= i < |s| ==> ok(s[i])
  {
    if |s| > 0 {
      DrawnFromIndex(s[1..], ok);
      assert forall i :: 1 <= i < |s| ==> s[i] == s[1..][i - 1];
    }
  }

  /** A needle found in a string drawn from a character class is drawn from it too. */
  lemma FoundIsDrawnFrom(s: string, sub: string, ok: char -> bool)
    requires DrawnFrom(s, ok) && Contains(s, sub)
    ensures DrawnFrom(sub, ok)
  {
    ContainsIffOccurs(s, sub);
    var k :| OccursAt(s, sub, k);
    DrawnFromIndex(s, ok);
    DrawnFromIndex(sub, ok);
    forall i | 0 <= i < |sub|
      ensures ok(sub[i])
    {
      assert sub[i] == s[k..k + |sub|][i] == s[k + i];
    }
  }

  /** The characters of the example's lower-cased host and path. */
  predicate ExampleChar(c: char)
  {
    ('0' <= c <= '9') || c == '.' || c == '/' || c == 'a' || c == 'c' || c == 'o' || c == 'u' || c == 'n' || c == 't'
  }

  /** A character outside the class rules the string out. */
  lemma NotDrawnAt(s: string, ok: char -> bool, j: nat)
    requires j < |s| && !ok(s[j])
    ensures !DrawnFrom(s, ok)
  {
    DrawnFromIndex(s, ok);
  }

  lemma FirstKeywordsOutsideExample()
    ensures forall i :: 0 <= i < 11 && i != 5 ==> !DrawnFrom(SuspiciousKeywords[i], ExampleChar)
  {
    NotDrawnAt("phishing", ExampleChar, 0);
    NotDrawnAt("scam", ExampleChar, 0);
    NotDrawnAt("login", ExampleChar, 0);
    NotDrawnAt("sign-in", ExampleChar, 0);
    NotDrawnAt("signin", ExampleChar, 0);
    NotDrawnAt("verify", ExampleChar, 0);
    NotDrawnAt("secure", ExampleChar, 0);
    NotDrawnAt("security", ExampleChar, 0);
    NotDrawnAt("update", ExampleChar, 1);
    NotDrawnAt("confirm", ExampleChar, 3);
  }

  lemma LastKeywordsOutsideExample()
    ensures forall i :: 11 <= i < |SuspiciousKeywords| ==> !DrawnFrom(SuspiciousKeywords[i], ExampleChar)
  {
    NotDrawnAt("bank", ExampleChar, 0);
    NotDrawnAt("paypal", ExampleChar, 0);
    NotDrawnAt("password", ExampleChar, 0);
    NotDrawnAt("credential", ExampleChar, 1);
    NotDrawnAt("wallet", ExampleChar, 0);
    NotDrawnAt("bitcoin", ExampleChar, 0);
    NotDrawnAt("crypto", ExampleChar, 1);
    NotDrawnAt("authenticate", ExampleChar, 3);
    NotDrawnAt("verification", ExampleChar, 0);
    NotDrawnAt("authorize", ExampleChar, 3);
    NotDrawnAt("recover", ExampleChar, 0);
    NotDrawnAt("reset", ExampleChar, 0);
  }

  /** "account" is the only keyword spelled with the example's characters. */
  lemma OnlyAccountInsideExample()
    ensures forall kw :: kw in SuspiciousKeywords && kw != "account" ==> !DrawnFrom(kw, ExampleChar)
  {
    FirstKeywordsOutsideExample();
    LastKeywordsOutsideExample();
  }

  /** The example's lower-cased host and path: spelled with its own characters, and holding "account". */
  lemma ExampleText(text: string)
    requires text == "192.168.1.1/account"
    ensures DrawnFrom(text, ExampleChar)
    ensures Contains(text, "account")
  {
    DrawnFromIndex(text, ExampleChar);
    assert text[12..19] == "account";
    ContainsAt(text, "account", 12);
  }

  /** Of all the keywords, only "account" occurs in the example's lower-cased host and path. */
  lemma ExampleKeywords(text: string)
    requires text == "192.168.1.1/account"
    ensures Filter(SuspiciousKeywords, kw => Contains(text, kw)) == ["account"]
  {
    ExampleText(text);
    KeywordsAreDistinct();
    OnlyAccountInsideExample();
    forall kw | kw in SuspiciousKeywords && kw != "account"
      ensures !Contains(text, kw)
    {
      if Contains(text, kw) {
        FoundIsDrawnFrom(text, kw, ExampleChar);
      }
    }
    assert SuspiciousKeywords[5] == "account";
    FilterOne(SuspiciousKeywords, kw => Contains(text, kw), "account");
  }

  /** A string ending in a different character than `t` does not end with `t`. */
  lemma LastCharDiffers(s: string, t: string)
    requires |t| > 0 && (|s| == 0 || s[|s| - 1] != t[|t| - 1])
    ensures !EndsWith(s, t)
  {
    if |t| <= |s| {
      assert s[|s| - |t|..][|t| - 1] == s[|s| - 1];
    }
  }

  /** No suspicious TLD ends the example's address. */
  lemma ExampleHostTlds(host: string)
    requires host == "192.168.1.1"
    ensures MatchedTlds(host) == []
  {
    forall tld | tld in SuspiciousTlds
      ensures !EndsWith(host, tld)
    {
      LastCharDiffers(host, tld);
    }
    FilterNone(SuspiciousTlds, tld => EndsWith(host, tld));
  }

  predicate DigitOrDot(c: char)
  {
    IsAsciiDigit(c) || c == '.'
  }

  /** No brand, each starting with a letter, occurs in the all-digit address. */
  lemma ExampleHostBrands(host: string)
    requires host == "192.168.1.1"
    ensures MatchedBrands(host) == []
  {
    DrawnFromIndex(host, DigitOrDot);
    forall brand | brand in PopularDomains
      ensures !ImitatesBrand(host, brand)
    {
      NotDrawnAt(brand, DigitOrDot, 0);
      if Contains(host, brand) {
        FoundIsDrawnFrom(host, brand, DigitOrDot);
      }
    }
    FilterNone(PopularDomains, brand => ImitatesBrand(host, brand));
  }

  /** The example's address splits into four labels. */
  lemma ExampleHostLabels(host: string)
    requires host == "192.168.1.1"
    ensures Split(host, '.') == ["192", "168", "1", "1"]
  {
    assert host == "192" + ['.'] + ("168" + ['.'] + ("1" + ['.'] + "1"));
    SplitWithoutSeparator("1", '.');
    SplitFirstLine("1", "1", '.');
    SplitFirstLine("168", "1" + ['.'] + "1", '.');
    SplitFirstLine("192", "168" + ['.'] + ("1" + ['.'] + "1"), '.');
  }

  /** Those four labels of one to three digits make the whole address match the address pattern. */
  lemma ExampleLabelsMakeQuad(host: string)
    requires Split(host, '.') == ["192", "168", "1", "1"]
    ensures IsDottedQuad(host) && HasDottedQuad(host)
    ensures FirstLabel(host) == "192"
  {
    assert IsOctetText("192") && IsOctetText("168") && IsOctetText("1");
    assert host[0..|host|] == host;
  }

  lemma ExampleHostDigits()
    ensures DigitCount("192.168.1.1") == 8
  {
  }

  lemma ExamplePathSpecials()
    ensures SpecialCharLength("/account") == 1
  {
  }

  /** The example URL carries no redirect parameter: it has no '='. */
  lemma ExampleUrlHasNoRedirect(url: string)
    requires url == "https://192.168.1.1/account"
    ensures !HasRedirectParameter(url)
    ensures Utf16Length(url) <= 100
  {
    AbsentChar(url, "redirect=", '=');
    AbsentChar(url, "url=", '=');
    AbsentChar(url, "link=", '=');
    AbsentChar(url, "goto=", '=');
  }

  /** The rows that fire for a four-label dotted quad with eight digits under a three-character first label. */
  lemma ExampleRowsFire(url: string, p: ParsedUrl)
    requires |Split(p.hostname, '.')| == 4 && HasDottedQuad(p.hostname)
    requires FirstLabel(p.hostname) == "192" && DigitCount(p.hostname) == 8
    ensures var flags := FlagRows(url, p);
      flags[0].fires && flags[1].fires && flags[6].fires
  {
    var flags := FlagRows(url, p);
    assert flags[6].fires == HasManyDigits(p.hostname);
    ExampleLabelLength(FirstLabel(p.hostname));
  }

  lemma ExampleLabelLength(first: string)
    requires first == "192"
    ensures Utf16Length(first) == 3
  {
    assert forall i :: 0 <= i < |first| ==> first[i] as int <= 0xFFFF;
  }

  /** The rows that stay quiet: short path punctuation, short URL, short first label, no redirect. */
  lemma ExampleRowsQuiet(url: string, p: ParsedUrl)
    requires FirstLabel(p.hostname) == "192"
    requires SpecialCharLength(p.pathname) == 1
    requires Utf16Length(url) <= 100 && !HasRedirectParameter(url)
    ensures var flags := FlagRows(url, p);
      !flags[2].fires && !flags[3].fires && !flags[4].fires && !flags[5].fires
  {
    QuietRowConditions(url, p);
    ExampleLabelLength(FirstLabel(p.hostname));
  }

  lemma QuietRowConditions(url: string, p: ParsedUrl)
    ensures var flags := FlagRows(url, p);
      && flags[2].fires == (SpecialCharLength(p.pathname) > 5)
      && flags[3].fires == (Utf16Length(url) > 100)
      && flags[4].fires == LooksRandom(p.hostname)
      && flags[5].fires == HasRedirectParameter(url)
  {
  }

  /** Seven rows of which the first, second and last fire cost their three weights. */
  lemma ThreeRowsFire(flags: seq<Flag>)
    requires |flags| == 7
    requires flags[0].fires && flags[1].fires && !flags[2].fires && !flags[3].fires
    requires !flags[4].fires && !flags[5].fires && flags[6].fires
    ensures PenaltyTotal(FiredPenalties(flags)) == flags[0].weight + flags[1].weight + flags[6].weight
  {
    forall k | 2 <= k < 6
      ensures FiredWeight(flags[k..]) == FiredWeight(flags[k + 1..])
    {
      assert flags[k..][1..] == flags[k + 1..];
    }
    assert FiredWeight(flags[6..]) == flags[6].weight;
  }

  /** The conditions of the rule table that the example meets. */
  predicate ExampleConditions(url: string, p: ParsedUrl)
  {
    && p.protocol == HttpsProtocol
    && |MatchedKeywords(p.hostname, p.pathname)| == 1
    && MatchedTlds(p.hostname) == [] && MatchedBrands(p.hostname) == []
    && |Split(p.hostname, '.')| == 4 && HasDottedQuad(p.hostname)
    && FirstLabel(p.hostname) == "192" && DigitCount(p.hostname) == 8
    && SpecialCharLength(p.pathname) == 1
    && Utf16Length(url) <= 100 && !HasRedirectParameter(url)
  }

  lemma ExampleMeetsConditions(url: string, p: ParsedUrl)
    requires url == ExampleUrl && p == ParsedUrl("https:", ExampleHost, "/account")
    ensures ExampleConditions(url, p)
  {
    ExampleLowerText(p.hostname, p.pathname);
    ExampleKeywords(Lower(p.hostname + p.pathname));
    ExampleHostTlds(p.hostname);
    ExampleHostBrands(p.hostname);
    ExampleHostLabels(p.hostname);
    ExampleLabelsMakeQuad(p.hostname);
    ExampleHostDigits();
    ExamplePathSpecials();
    ExampleUrlHasNoRedirect(url);
  }

  lemma ConditionsScore(url: string, p: ParsedUrl)
    requires ExampleConditions(url, p)
    ensures Heuristic(url, p).score == 20
  {
    ExampleRowsFire(url, p);
    ExampleRowsQuiet(url, p);
    ThreeRowsFire(FlagRows(url, p));
    PenaltyBreakdown(url, p);
  }

  /**
    `https://192.168.1.1/account`, unknown to both datasets: 50, -5 for the
    keyword "account", +10 for HTTPS, -10 for four labels, -20 for the address
    pattern and -5 for eight digits under a three-character first label, so 20:
    unsafe, with the strong-indicators message.
   */
  lemma WorkedExample(d: Datasets, parse: Parser)
    requires parse(ExampleUrl) == Some(ParsedUrl("https:", ExampleHost, "/account"))
    requires DatasetMiss(d, ExampleUrl, ParsedUrl("https:", ExampleHost, "/account"))
    ensures AnalyzeUrl(d, parse, ExampleUrl).score == 20
    ensures !AnalyzeUrl(d, parse, ExampleUrl).isSafe
    ensures AnalyzeUrl(d, parse, ExampleUrl).message == StrongIndicators
  {
    ExampleHeuristic(ExampleUrl, ParsedUrl("https:", ExampleHost, "/account"));
    MissScoring20(d, parse, ExampleUrl, ParsedUrl("https:", ExampleHost, "/account"));
  }

  lemma ExampleHeuristic(url: string, p: ParsedUrl)
    requires url == ExampleUrl && p == ParsedUrl("https:", ExampleHost, "/account")
    ensures Heuristic(url, p).score == 20
  {
    ExampleMeetsConditions(url, p);
    ConditionsScore(url, p);
  }

  /** A dataset miss whose heuristic scores 20 is reported unsafe, in the strong-indicators tier. */
  lemma MissScoring20(d: Datasets, parse: Parser, url: string, p: ParsedUrl)
    requires parse(url) == Some(p) && DatasetMiss(d, url, p)
    requires Heuristic(url, p).score == 20
    ensures AnalyzeUrl(d, parse, url).score == 20
    ensures !AnalyzeUrl(d, parse, url).isSafe
    ensures AnalyzeUrl(d, parse, url).message == StrongIndicators
  {
  }

  lemma ExampleLowerText(host: string, path: string)
    requires host == "192.168.1.1" && path == "/account"
    ensures Lower(host + path) == "192.168.1.1/account"
  {
  }
}

/**
  What the heuristic path reports among its suspicious patterns: each entry
  names the rule that produced it, and a rule's entry is present exactly when
  that rule's condition holds. The rule families are told apart by a few
  characters of their reasons.
 */
module ReportedPatterns {
  import opened Strings
  import opened Url
  import opened Detection
  import opened DetectionProperties

  const KeywordPrefix := "Contains suspicious keyword: "
  const TldPrefix := "Using potentially suspicious TLD: "
  const BrandPrefix := "Potential typosquatting of: "

  /** The shape of a keyword reason: "Contains s…". */
  predicate KeywordReason(x: string)
  {
    |x| > 9 && x[0] == 'C' && x[9] == 's'
  }

  /** The shape of a TLD reason: "Usi…". */
  predicate TldReason(x: string)
  {
    |x| > 2 && x[0] == 'U' && x[2] == 'i'
  }

  /** The shape of a typosquatting reason: "P…". */
  predicate BrandReason(x: string)
  {
    |x| > 0 && x[0] == 'P'
  }

  /** A reason of none of the three per-name rules. */
  predicate OtherReason(x: string)
  {
    !KeywordReason(x) && !TldReason(x) && !BrandReason(x)
  }

  /** The patterns of the five rule groups, in evaluation order, with `rows` for the single-condition rows. */
  function GroupPatterns(hostname: string, pathname: string, protocol: string, rows: seq<Signal>): seq<string>
  {
    (Patterns(KeywordSignals(hostname, pathname)) + Patterns([TransportSignal(protocol)]))
    + ((Patterns(TldSignals(hostname)) + Patterns(TyposquatSignals(hostname))) + Patterns(rows))
  }

  /** The heuristic's patterns are those of the five rule groups. */
  lemma HeuristicPatternGroups(url: string, p: ParsedUrl)
    ensures Heuristic(url, p).suspiciousPatterns
      == GroupPatterns(p.hostname, p.pathname, p.protocol, FiredPenalties(FlagRows(url, p)))
  {
    assert Heuristic(url, p).suspiciousPatterns == Patterns(HeuristicSignals(url, p));
    PatternsOfGroups(KeywordSignals(p.hostname, p.pathname), [TransportSignal(p.protocol)],
      TldSignals(p.hostname), TyposquatSignals(p.hostname), FiredPenalties(FlagRows(url, p)));
  }

  lemma PatternsOfGroups(a: seq<Signal>, b: seq<Signal>, c: seq<Signal>, d: seq<Signal>, e: seq<Signal>)
    ensures Patterns(a + b + (c + d + e)) == (Patterns(a) + Patterns(b)) + ((Patterns(c) + Patterns(d)) + Patterns(e))
  {
    PatternsConcat(c, d);
    PatternsConcat(c + d, e);
    PatternsConcat(a, b);
    PatternsConcat(a + b, c + d + e);
  }

  /** Every entry of a per-name rule starts with the rule's prefix. */
  lemma PerNamePrefix(prefix: string, names: seq<string>, weight: nat, x: string)
    requires x in Patterns(PenaltyPerName(prefix, names, weight))
    ensures |prefix| <= |x| && forall k :: 0 <= k < |prefix| ==> x[k] == prefix[k]
  {
    PerNameTotals(prefix, names, weight);
    var ps := Patterns(PenaltyPerName(prefix, names, weight));
    var i :| 0 <= i < |ps| && ps[i] == x;
    assert x == prefix + names[i];
  }

  /**
    For a name of the rule's list, the rule reports `prefix + name` exactly
    when the name passes the rule's test.
   */
  lemma PerNameRule(prefix: string, xs: seq<string>, keep: string -> bool, weight: nat, name: string)
    requires name in xs
    ensures (prefix + name) in Patterns(PenaltyPerName(prefix, Filter(xs, keep), weight)) <==> keep(name)
  {
    var matched := Filter(xs, keep);
    PerNameTotals(prefix, matched, weight);
    var ps := Patterns(PenaltyPerName(prefix, matched, weight));
    if (prefix + name) in ps {
      var i :| 0 <= i < |ps| && ps[i] == prefix + name;
      PrefixInjective(prefix, matched[i], name);
    }
    if keep(name) {
      var i :| 0 <= i < |matched| && matched[i] == name;
      assert ps[i] == prefix + name;
    }
  }

  lemma PrefixShapes()
    ensures KeywordReason(KeywordPrefix) && TldReason(TldPrefix) && BrandReason(BrandPrefix)
  {
  }

  lemma KeywordEntries(hostname: string, pathname: string, x: string)
    requires x in Patterns(KeywordSignals(hostname, pathname))
    ensures KeywordReason(x) && !TldReason(x) && !BrandReason(x)
  {
    PerNamePrefix(KeywordPrefix, MatchedKeywords(hostname, pathname), 5, x);
    PrefixShapes();
  }

  lemma TldEntries(hostname: string, x: string)
    requires x in Patterns(TldSignals(hostname))
    ensures TldReason(x) && !KeywordReason(x) && !BrandReason(x)
  {
    PerNamePrefix(TldPrefix, MatchedTlds(hostname), 7, x);
    PrefixShapes();
  }

  lemma BrandEntries(hostname: string, x: string)
    requires x in Patterns(TyposquatSignals(hostname))
    ensures BrandReason(x) && !KeywordReason(x) && !TldReason(x)
  {
    PerNamePrefix(BrandPrefix, MatchedBrands(hostname), 15, x);
    PrefixShapes();
  }

  /** The transport rule reports at most "Not using secure HTTPS connection". */
  lemma TransportEntries(protocol: string, x: string)
    requires x in Patterns([TransportSignal(protocol)])
    ensures OtherReason(x) && x == "Not using secure HTTPS connection"
  {
    assert [TransportSignal(protocol)][1..] == [];
  }

  /** The reasons of the single-condition rows, in table order. */
  const RowReasonList: seq<string> := [
    "Excessive number of subdomains", "Uses IP address instead of domain name",
    "Contains excessive special characters", "Excessively long URL",
    "Random-looking domain name", "Contains redirect parameters",
    "Unusual number of digits in domain"]

  lemma RowReasons(url: string, p: ParsedUrl)
    ensures Reasons(FlagRows(url, p)) == RowReasonList
  {
  }

  /** The row reasons have seven different lengths, so no two are equal. */
  lemma RowReasonsAreDistinct()
    ensures Distinct(RowReasonList)
  {
    var rs := RowReasonList;
    assert |rs[0]| == 30 && |rs[1]| == 38 && |rs[2]| == 37 && |rs[3]| == 20;
    assert |rs[4]| == 26 && |rs[5]| == 28 && |rs[6]| == 34;
  }

  /** No row reason has the shape of a per-name reason, and none is the transport reason. */
  lemma RowReasonsAreApart()
    ensures forall i :: 0 <= i < |RowReasonList| ==>
      OtherReason(RowReasonList[i]) && RowReasonList[i] != "Not using secure HTTPS connection"
  {
    var rs := RowReasonList;
    assert rs[0][0] == 'E' && rs[3][0] == 'E' && rs[4][0] == 'R';
    assert rs[1][0] == 'U' && rs[1][2] == 'e' && rs[6][0] == 'U' && rs[6][2] == 'u';
    assert rs[2][0] == 'C' && rs[2][9] == 'e' && rs[5][0] == 'C' && rs[5][9] == 'r';
  }

  /** No reported row reason has the shape of a per-name reason or is the transport reason. */
  predicate RowsApart(rows: seq<Signal>)
  {
    forall x :: x in Patterns(rows) ==> OtherReason(x) && x != "Not using secure HTTPS connection"
  }

  lemma FlagRowsApart(url: string, p: ParsedUrl)
    ensures RowsApart(FiredPenalties(FlagRows(url, p)))
  {
    var flags := FlagRows(url, p);
    RowReasons(url, p);
    RowReasonsAreApart();
    forall x | x in Patterns(FiredPenalties(flags))
      ensures OtherReason(x) && x != "Not using secure HTTPS connection"
    {
      var i :| 0 <= i < |flags| && flags[i].fires && flags[i].reason == x;
      assert x == RowReasonList[i];
    }
  }

  /** With distinct reasons, a row's reason is reported exactly when the row fires. */
  lemma FiredReasonIff(flags: seq<Flag>, i: nat)
    requires i < |flags| && Distinct(Reasons(flags))
    ensures flags[i].reason in Patterns(FiredPenalties(flags)) <==> flags[i].fires
  {
    var x := flags[i].reason;
    var fired := Patterns(FiredPenalties(flags));
    if x in fired {
      var j :| 0 <= j < |flags| && flags[j].fires && flags[j].reason == x;
      assert Reasons(flags)[j] == Reasons(flags)[i];
      assert j == i;
    }
    if flags[i].fires {
      assert 0 <= i < |flags| && flags[i].fires && flags[i].reason == x;
      assert x in fired;
    }
  }

  lemma KeywordInGroups(hostname: string, pathname: string, protocol: string, rows: seq<Signal>, kw: string)
    requires kw in SuspiciousKeywords && RowsApart(rows)
    ensures (KeywordPrefix + kw) in GroupPatterns(hostname, pathname, protocol, rows)
      <==> Contains(Lower(hostname + pathname), kw)
  {
    var x := KeywordPrefix + kw;
    PerNameRule(KeywordPrefix, SuspiciousKeywords, k => Contains(Lower(hostname + pathname), k), 5, kw);
    PrefixShapes();
    assert x[0] == KeywordPrefix[0] && x[9] == KeywordPrefix[9];
    if x in Patterns([TransportSignal(protocol)]) { TransportEntries(protocol, x); }
    if x in Patterns(TldSignals(hostname)) { TldEntries(hostname, x); }
    if x in Patterns(TyposquatSignals(hostname)) { BrandEntries(hostname, x); }
  }

  lemma TldInGroups(hostname: string, pathname: string, protocol: string, rows: seq<Signal>, tld: string)
    requires tld in SuspiciousTlds && RowsApart(rows)
    ensures (TldPrefix + tld) in GroupPatterns(hostname, pathname, protocol, rows) <==> EndsWith(hostname, tld)
  {
    var x := TldPrefix + tld;
    PerNameRule(TldPrefix, SuspiciousTlds, t => EndsWith(hostname, t), 7, tld);
    PrefixShapes();
    assert x[0] == TldPrefix[0] && x[2] == TldPrefix[2];
    if x in Patterns(KeywordSignals(hostname, pathname)) { KeywordEntries(hostname, pathname, x); }
    if x in Patterns([TransportSignal(protocol)]) { TransportEntries(protocol, x); }
    if x in Patterns(TyposquatSignals(hostname)) { BrandEntries(hostname, x); }
  }

  lemma BrandInGroups(hostname: string, pathname: string, protocol: string, rows: seq<Signal>, brand: string)
    requires brand in PopularDomains && RowsApart(rows)
    ensures (BrandPrefix + brand) in GroupPatterns(hostname, pathname, protocol, rows) <==> ImitatesBrand(hostname, brand)
  {
    var x := BrandPrefix + brand;
    PerNameRule(BrandPrefix, PopularDomains, b => ImitatesBrand(hostname, b), 15, brand);
    PrefixShapes();
    assert x[0] == BrandPrefix[0];
    if x in Patterns(KeywordSignals(hostname, pathname)) { KeywordEntries(hostname, pathname, x); }
    if x in Patterns([TransportSignal(protocol)]) { TransportEntries(protocol, x); }
    if x in Patterns(TldSignals(hostname)) { TldEntries(hostname, x); }
  }

  /** A reason of no other rule is reported exactly when the rows report it. */
  lemma RowInGroups(hostname: string, pathname: string, protocol: string, rows: seq<Signal>, x: string)
    requires OtherReason(x) && x != "Not using secure HTTPS connection"
    ensures x in GroupPatterns(hostname, pathname, protocol, rows) <==> x in Patterns(rows)
  {
    if x in Patterns(KeywordSignals(hostname, pathname)) { KeywordEntries(hostname, pathname, x); }
    if x in Patterns([TransportSignal(protocol)]) { TransportEntries(protocol, x); }
    if x in Patterns(TldSignals(hostname)) { TldEntries(hostname, x); }
    if x in Patterns(TyposquatSignals(hostname)) { BrandEntries(hostname, x); }
  }

  /**
    A keyword of the list is reported exactly when it occurs in the
    lower-cased hostname and path.
   */
  lemma KeywordReported(url: string, p: ParsedUrl, kw: string)
    requires kw in SuspiciousKeywords
    ensures (KeywordPrefix + kw) in Heuristic(url, p).suspiciousPatterns
      <==> Contains(Lower(p.hostname + p.pathname), kw)
  {
    HeuristicPatternGroups(url, p);
    FlagRowsApart(url, p);
    KeywordInGroups(p.hostname, p.pathname, p.protocol, FiredPenalties(FlagRows(url, p)), kw);
  }

  /** A suffix of the TLD list is reported exactly when the hostname ends with it. */
  lemma TldReported(url: string, p: ParsedUrl, tld: string)
    requires tld in SuspiciousTlds
    ensures (TldPrefix + tld) in Heuristic(url, p).suspiciousPatterns <==> EndsWith(p.hostname, tld)
  {
    HeuristicPatternGroups(url, p);
    FlagRowsApart(url, p);
    TldInGroups(p.hostname, p.pathname, p.protocol, FiredPenalties(FlagRows(url, p)), tld);
  }

  /**
    A brand of the list is reported exactly when the hostname mentions it
    without being the brand's own `.com` domain or a subdomain of it.
   */
  lemma BrandReported(url: string, p: ParsedUrl, brand: string)
    requires brand in PopularDomains
    ensures (BrandPrefix + brand) in Heuristic(url, p).suspiciousPatterns <==> ImitatesBrand(p.hostname, brand)
  {
    HeuristicPatternGroups(url, p);
    FlagRowsApart(url, p);
    BrandInGroups(p.hostname, p.pathname, p.protocol, FiredPenalties(FlagRows(url, p)), brand);
  }

  /** Each single-condition row is reported exactly when its condition holds. */
  lemma RowReported(url: string, p: ParsedUrl, i: nat)
    requires i < 7
    ensures FlagRows(url, p)[i].reason in Heuristic(url, p).suspiciousPatterns <==> FlagRows(url, p)[i].fires
  {
    var flags := FlagRows(url, p);
    HeuristicPatternGroups(url, p);
    RowReasons(url, p);
    RowReasonsAreDistinct();
    RowReasonsAreApart();
    assert flags[i].reason == RowReasonList[i];
    RowInGroups(p.hostname, p.pathname, p.protocol, FiredPenalties(flags), flags[i].reason);
    FiredReasonIff(flags, i);
  }
}

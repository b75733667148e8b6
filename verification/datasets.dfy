/**
  The two reputation datasets and the two loaders that build them from the
  line-delimited files `legitimateurls.csv` and `phishurls.csv`:
  `initializeDatasets` (server/phishing-detection.ts), whose sets the detector
  consults, and `loadUrlDatabases` (server/routes.ts), whose sets the HTTP
  route and the stats view consult. Reading the files is a parameter.
 */
module Datasets {
  import opened Wrappers
  import opened Strings
  import opened Url

  /** The outcome of reading one file: absent (`existsSync` is false), a read that throws, or its text. */
  datatype FileRead = Missing | Unreadable | Contents(text: string)

  datatype Datasets = Datasets(legitimate: set<string>, phishing: set<string>)

  /** The trimmed form of every line that is not blank. */
  function Entries(lines: seq<string>): set<string>
  {
    set l | l in lines && Trim(l) != [] :: Trim(l)
  }

  /** The hostname of every trimmed, non-blank line that parses as a URL. */
  function Hostnames(lines: seq<string>, parse: Parser): set<string>
  {
    set l | l in lines && Trim(l) != [] && parse(Trim(l)).Some? :: parse(Trim(l)).value.hostname
  }

  lemma EntriesCons(lines: seq<string>)
    requires |lines| > 0
    ensures Entries(lines) == Entries([lines[0]]) + Entries(lines[1..])
    ensures Entries([lines[0]]) == if Trim(lines[0]) != [] then {Trim(lines[0])} else {}
  {
    EntriesWithin(lines);
    EntriesCover(lines);
    EntriesSingle(lines[0]);
  }

  lemma EntriesWithin(lines: seq<string>)
    requires |lines| > 0
    ensures Entries(lines) <= Entries([lines[0]]) + Entries(lines[1..])
  {
    forall u | u in Entries(lines)
      ensures u in Entries([lines[0]]) + Entries(lines[1..])
    {
      var l :| l in lines && Trim(l) != [] && Trim(l) == u;
      var i :| 0 <= i < |lines| && lines[i] == l;
      if i == 0 {
        assert l in [lines[0]];
      } else {
        assert lines[1..][i - 1] == l;
      }
    }
  }

  lemma EntriesCover(lines: seq<string>)
    requires |lines| > 0
    ensures Entries([lines[0]]) + Entries(lines[1..]) <= Entries(lines)
  {
    EntriesOfSubset([lines[0]], lines);
    EntriesOfSubset(lines[1..], lines);
  }

  lemma EntriesOfSubset(sub: seq<string>, lines: seq<string>)
    requires forall l :: l in sub ==> l in lines
    ensures Entries(sub) <= Entries(lines)
  {
  }

  lemma EntriesSingle(line: string)
    ensures Entries([line]) == if Trim(line) != [] then {Trim(line)} else {}
  {
    assert forall l :: l in [line] <==> l == line;
  }

  lemma HostnamesCons(lines: seq<string>, parse: Parser)
    requires |lines| > 0
    ensures Hostnames(lines, parse) == Hostnames([lines[0]], parse) + Hostnames(lines[1..], parse)
    ensures var u := Trim(lines[0]);
      Hostnames([lines[0]], parse) == if u != [] && parse(u).Some? then {parse(u).value.hostname} else {}
  {
    assert forall l :: l in lines <==> l == lines[0] || l in lines[1..];
  }

  /** One step of the legitimate-file loop. */
  function EntryStep(acc: set<string>, line: string): set<string>
  {
    if Trim(line) != [] then acc + {Trim(line)} else acc
  }

  /** One step of the detector's phishing-file loop: the trimmed line, and its hostname when it parses. */
  function PhishingStep(acc: set<string>, line: string, parse: Parser): set<string>
  {
    var u := Trim(line);
    if u == [] then acc
    else match parse(u)
      case Some(p) => acc + {u, p.hostname}
      case None => acc + {u}
  }

  lemma EntryStepAdds(acc: set<string>, lines: seq<string>)
    requires |lines| > 0
    ensures EntryStep(acc, lines[0]) + Entries(lines[1..]) == acc + Entries(lines)
  {
    EntriesCons(lines);
  }

  lemma PhishingStepAdds(acc: set<string>, lines: seq<string>, parse: Parser)
    requires |lines| > 0
    ensures PhishingStep(acc, lines[0], parse) + Entries(lines[1..]) + Hostnames(lines[1..], parse)
         == acc + Entries(lines) + Hostnames(lines, parse)
  {
    EntriesCons(lines);
    HostnamesCons(lines, parse);
  }

  /** The legitimate-file loop: each line is trimmed and added when non-empty. */
  function AddEntries(acc: set<string>, lines: seq<string>): (r: set<string>)
    ensures r == acc + Entries(lines)
    decreases |lines|
  {
    if |lines| == 0 then acc
    else
      var r := AddEntries(EntryStep(acc, lines[0]), lines[1..]);
      EntryStepAdds(acc, lines);
      r
  }

  /** The detector's phishing-file loop over the data lines. */
  function AddPhishingEntries(acc: set<string>, lines: seq<string>, parse: Parser): (r: set<string>)
    ensures r == acc + Entries(lines) + Hostnames(lines, parse)
    decreases |lines|
  {
    if |lines| == 0 then acc
    else
      var r := AddPhishingEntries(PhishingStep(acc, lines[0], parse), lines[1..], parse);
      PhishingStepAdds(acc, lines, parse);
      r
  }

  /** Index of the first data line: line 0 is a header, and skipped, only when it lower-cases to exactly "url". */
  function FirstDataLine(lines: seq<string>): (start: nat)
    requires |lines| >= 1
    ensures start == 1 <==> |lines[0]| == 3 && lines[0][0] in "uU" && lines[0][1] in "rR" && lines[0][2] in "lL"
    ensures start <= 1
  {
    if Lower(lines[0]) == "url" then 1 else 0
  }

  /** The data lines of the phishing file. */
  function PhishingLines(text: string): seq<string>
  {
    var lines := Split(text, '\n');
    lines[FirstDataLine(lines)..]
  }

  /**
    `initializeDatasets`. A missing file leaves its set empty; a read that throws
    on the legitimate file abandons the whole load, so both sets stay empty.
   */
  function LoadDetectorDatasets(legit: FileRead, phish: FileRead, parse: Parser): (d: Datasets)
    ensures legit.Contents? ==> d.legitimate == Entries(Split(legit.text, '\n'))
    ensures !legit.Contents? ==> d.legitimate == {}
    ensures !legit.Unreadable? && phish.Contents? ==>
      d.phishing == Entries(PhishingLines(phish.text)) + Hostnames(PhishingLines(phish.text), parse)
    ensures legit.Unreadable? || !phish.Contents? ==> d.phishing == {}
  {
    var phishing := match phish
      case Contents(text) => AddPhishingEntries({}, PhishingLines(text), parse)
      case _ => {};
    match legit
    case Unreadable => Datasets({}, {})
    case Missing => Datasets({}, phishing)
    case Contents(text) => Datasets(AddEntries({}, Split(text, '\n')), phishing)
  }

  /** `loadUrlDatabases`: the same reading discipline, without derived hostnames. */
  function LoadRouteDatasets(legit: FileRead, phish: FileRead): (d: Datasets)
    ensures legit.Contents? ==> d.legitimate == Entries(Split(legit.text, '\n'))
    ensures !legit.Contents? ==> d.legitimate == {}
    ensures !legit.Unreadable? && phish.Contents? ==> d.phishing == Entries(PhishingLines(phish.text))
    ensures legit.Unreadable? || !phish.Contents? ==> d.phishing == {}
  {
    var phishing := match phish
      case Contents(text) => AddEntries({}, PhishingLines(text))
      case _ => {};
    match legit
    case Unreadable => Datasets({}, {})
    case Missing => Datasets({}, phishing)
    case Contents(text) => Datasets(AddEntries({}, Split(text, '\n')), phishing)
  }

  /**
    Loaded from the same files, the two loaders agree on the legitimate set, and
    the detector's phishing set is the route's plus the parsed hostnames.
   */
  lemma LoadersAgree(legit: FileRead, phish: FileRead, parse: Parser)
    ensures LoadRouteDatasets(legit, phish).legitimate == LoadDetectorDatasets(legit, phish, parse).legitimate
    ensures LoadRouteDatasets(legit, phish).phishing <= LoadDetectorDatasets(legit, phish, parse).phishing
    ensures !legit.Unreadable? && phish.Contents? ==>
      LoadDetectorDatasets(legit, phish, parse).phishing
        == LoadRouteDatasets(legit, phish).phishing + Hostnames(PhishingLines(phish.text), parse)
  {
  }

  /** Every set member is a trimmed line: nothing is blank and nothing carries surrounding whitespace. */
  lemma EntriesAreTrimmed(lines: seq<string>, u: string)
    requires u in Entries(lines)
    ensures u != [] && !IsWhitespace(u[0]) && !IsWhitespace(u[|u| - 1])
    ensures exists i :: 0 <= i < |lines| && Trim(lines[i]) == u
  {
    var l :| l in lines && Trim(l) != [] && Trim(l) == u;
    var i :| 0 <= i < |lines| && lines[i] == l;
  }

  /**
    A header written with a Windows line ending, "url" followed by a carriage
    return, is not recognised as a header: it is kept as a data line, and both
    loaders put the string "url" into their phishing sets.
   */
  lemma CarriageReturnHeaderIsKept(rest: string, parse: Parser)
    ensures var text := "url\r" + "\n" + rest;
      && "url" in LoadRouteDatasets(Missing, Contents(text)).phishing
      && "url" in LoadDetectorDatasets(Missing, Contents(text), parse).phishing
  {
    var text := "url\r" + "\n" + rest;
    assert text == "url\r" + ['\n'] + rest;
    SplitFirstLine("url\r", rest, '\n');
    var lines := Split(text, '\n');
    assert lines[0] == "url\r";
    assert PhishingLines(text) == lines;
    TrimCarriageReturn(lines[0]);
    assert "url" in Entries(lines);
  }

  /** The header of a file saved with CRLF line ends trims to "url": `trim` removes the carriage return. */
  lemma TrimCarriageReturn(s: string)
    requires s == "url\r"
    ensures Trim(s) == "url"
  {
    assert !IsWhitespace(s[0]);
    assert TrimStart(s) == s;
    assert IsWhitespace(s[3]);
    var u := s[..3];
    assert u == "url";
    assert TrimEnd(s) == TrimEnd(u);
    assert !IsWhitespace(u[2]);
    assert TrimEnd(u) == u;
  }
}

/**
  The in-memory scan history of server/routes.ts and the `/api/stats` view
  derived from it. The history is newest first and holds at most 100 records:
  a scan is `unshift`ed to the front and, when that makes the history longer
  than 100, the oldest record is `pop`ped from the back.
 */
module History {
  import opened Datasets

  /** `ScanHistoryItem`; `timestamp` is `Date.now()` at the time of the scan, supplied by the caller. */
  datatype ScanRecord = ScanRecord(timestamp: int, url: string, isSafe: bool, message: string)

  const Capacity: nat := 100

  /** The history after one scan: the new record in front, the oldest dropped when the cap is passed. */
  function Append(h: seq<ScanRecord>, r: ScanRecord): (h': seq<ScanRecord>)
    ensures |h'| == if |h| + 1 > Capacity then |h| else |h| + 1
    ensures h'[0] == r
    ensures forall i :: 1 <= i < |h'| ==> h'[i] == h[i - 1]
  {
    var u := [r] + h;
    if |u| > Capacity then u[..|u| - 1] else u
  }

  /** The records in submission order, returned newest first. */
  function NewestFirst(rs: seq<ScanRecord>): (n: seq<ScanRecord>)
    ensures |n| == |rs|
    ensures forall i :: 0 <= i < |rs| ==> n[i] == rs[|rs| - 1 - i]
  {
    if |rs| == 0 then [] else NewestFirst(rs[1..]) + [rs[0]]
  }

  /** The history after the scans `rs`, in submission order, starting from `h`. */
  function AppendAll(h: seq<ScanRecord>, rs: seq<ScanRecord>): seq<ScanRecord>
    decreases |rs|
  {
    if |rs| == 0 then h else AppendAll(Append(h, rs[0]), rs[1..])
  }

  function Min(a: nat, b: nat): nat
  {
    if a <= b then a else b
  }

  /** One append never takes the history past its capacity. */
  lemma AppendKeepsBound(h: seq<ScanRecord>, r: ScanRecord)
    requires |h| <= Capacity
    ensures |Append(h, r)| <= Capacity
    ensures |Append(h, r)| == Min(|h| + 1, Capacity)
  {
  }

  /** One append is the newest-first prefix of the record followed by the old history. */
  lemma AppendIsPrefix(h: seq<ScanRecord>, r: ScanRecord)
    requires |h| <= Capacity
    ensures Append(h, r) == ([r] + h)[..Min(|h| + 1, Capacity)]
  {
  }

  lemma PrefixOfConcat(a: seq<ScanRecord>, b: seq<ScanRecord>, m: nat, k: nat)
    requires m <= |b| && k <= |a| + m
    ensures (a + b[..m])[..k] == (a + b)[..k]
  {
    assert forall i :: 0 <= i < k ==> (a + b[..m])[i] == (a + b)[i];
  }

  /**
    From a history within the cap, a run of scans leaves the newest records
    first, cut to the cap: the newest of the run, then the older history.
   */
  lemma {:induction false} AppendAllKeepsNewest(h: seq<ScanRecord>, rs: seq<ScanRecord>)
    requires |h| <= Capacity
    ensures AppendAll(h, rs) == (NewestFirst(rs) + h)[..Min(|rs| + |h|, Capacity)]
    decreases |rs|
  {
    if |rs| > 0 {
      var r, rest := rs[0], rs[1..];
      var h1 := Append(h, r);
      var m1 := Min(|h| + 1, Capacity);
      AppendKeepsBound(h, r);
      AppendIsPrefix(h, r);
      AppendAllKeepsNewest(h1, rest);
      assert NewestFirst(rs) == NewestFirst(rest) + [r];
      assert NewestFirst(rest) + h1 == NewestFirst(rest) + ([r] + h)[..m1];
      PrefixOfConcat(NewestFirst(rest), [r] + h, m1, Min(|rest| + |h1|, Capacity));
      assert NewestFirst(rest) + ([r] + h) == NewestFirst(rs) + h;
    }
  }

  /**
    After scans from an empty history, it holds the last min(k, 100) of the k
    records, newest first: record i is the (i+1)-th most recent scan.
   */
  lemma HistoryOfScans(rs: seq<ScanRecord>)
    ensures |AppendAll([], rs)| == Min(|rs|, Capacity)
    ensures forall i :: 0 <= i < |AppendAll([], rs)| ==> AppendAll([], rs)[i] == rs[|rs| - 1 - i]
  {
    AppendAllKeepsNewest([], rs);
    assert NewestFirst(rs) + [] == NewestFirst(rs);
  }

  /** 105 scans from an empty history keep exactly the 6th through the 105th, the newest in front. */
  lemma OverflowKeepsLatestHundred(rs: seq<ScanRecord>)
    requires |rs| == 105
    ensures |AppendAll([], rs)| == 100
    ensures AppendAll([], rs)[0] == rs[104] && AppendAll([], rs)[99] == rs[5]
    ensures AppendAll([], rs) == NewestFirst(rs[5..])
  {
    HistoryOfScans(rs);
    var h, n := AppendAll([], rs), NewestFirst(rs[5..]);
    forall i | 0 <= i < 100
      ensures h[i] == n[i]
    {
      assert rs[5..][99 - i] == rs[104 - i];
    }
  }

  // ---- /api/stats --------------------------------------------------------

  /** `scanHistory.filter(scan => scan.isSafe)`. */
  function SafeRecords(h: seq<ScanRecord>): (s: seq<ScanRecord>)
    ensures forall r :: r in s <==> r in h && r.isSafe
    ensures forall r :: multiset(s)[r] == if r.isSafe then multiset(h)[r] else 0
    ensures |s| <= |h|
  {
    if |h| == 0 then []
    else
      assert h == [h[0]] + h[1..];
      if h[0].isSafe then [h[0]] + SafeRecords(h[1..])
      else SafeRecords(h[1..])
  }

  /** The records flagged as phishing, counted independently of the safe ones. */
  function UnsafeRecords(h: seq<ScanRecord>): (s: seq<ScanRecord>)
    ensures forall r :: r in s <==> r in h && !r.isSafe
    ensures forall r :: multiset(s)[r] == if r.isSafe then 0 else multiset(h)[r]
  {
    if |h| == 0 then []
    else
      assert h == [h[0]] + h[1..];
      if !h[0].isSafe then [h[0]] + UnsafeRecords(h[1..])
      else UnsafeRecords(h[1..])
  }

  /** Every record is either safe or not, so the two counts add up to the history's length. */
  lemma {:induction false} SafeAndUnsafePartition(h: seq<ScanRecord>)
    ensures |SafeRecords(h)| + |UnsafeRecords(h)| == |h|
  {
    if |h| > 0 {
      SafeAndUnsafePartition(h[1..]);
    }
  }

  /** A `toFixed(1)` percentage: the literal "0" for an empty history, otherwise `part / whole * 100`. */
  datatype Percentage = NoScans | Share(part: nat, whole: nat)

  datatype Stats = Stats(
    totalScans: nat,
    safeScans: nat,
    phishingScans: int,
    safePercentage: Percentage,
    phishingPercentage: Percentage,
    knownLegitimateUrls: nat,
    knownPhishingUrls: nat)

  /** The `/api/stats` response for history `h`, against the route's datasets `d`. */
  function ComputeStats(h: seq<ScanRecord>, d: Datasets): (s: Stats)
    ensures s.totalScans == |h|
    ensures s.safeScans + s.phishingScans == s.totalScans
    ensures 0 <= s.phishingScans <= s.totalScans
    ensures s.safeScans == |SafeRecords(h)|
    ensures s.phishingScans == |UnsafeRecords(h)|
    ensures s.totalScans == 0 ==> s.safePercentage == NoScans && s.phishingPercentage == NoScans
    ensures s.totalScans > 0 ==>
      && s.safePercentage == Share(s.safeScans, s.totalScans)
      && s.phishingPercentage == Share(s.phishingScans as nat, s.totalScans)
    ensures s.knownLegitimateUrls == |d.legitimate| && s.knownPhishingUrls == |d.phishing|
  {
    var total := |h|;
    var safe := |SafeRecords(h)|;
    var phishing := total - safe;
    SafeAndUnsafePartition(h);
    var safePct := if total > 0 then Share(safe, total) else NoScans;
    var phishingPct := if total > 0 then Share(phishing, total) else NoScans;
    Stats(total, safe, phishing, safePct, phishingPct, |d.legitimate|, |d.phishing|)
  }

  /** Below the cap, one more scan adds one to the total and one to the safe or the phishing count. */
  lemma StatsAfterAppend(h: seq<ScanRecord>, r: ScanRecord, d: Datasets)
    requires |h| < Capacity
    ensures var before, after := ComputeStats(h, d), ComputeStats(Append(h, r), d);
      && after.totalScans == before.totalScans + 1
      && after.safeScans == before.safeScans + (if r.isSafe then 1 else 0)
      && after.phishingScans == before.phishingScans + (if r.isSafe then 0 else 1)
  {
    var h' := Append(h, r);
    assert h' == [r] + h;
    assert h'[1..] == h;
  }
}

/** The SSID-keyed scan pipeline run by the web API (scripts/wifi_scanner_api.py):
    keep the named beacons of a scan, aggregate history and scan per SSID,
    join the two tables, flag the networks whose SSID the anomaly detector
    marked, and compute the summary statistics.

    The anomaly detector (an isolation forest) is not modelled: its verdict
    enters as `labels`, a label per SSID row of the feature table, where -1
    means "anomalous". The CSV history file enters as `previous`, the records
    stored before this scan. */
module ScannerApi {
  import opened Text
  import opened Aggregates
  import opened Lists

  /** One access point as the radio reports it. */
  datatype Beacon = Beacon(ssid: string, bssid: string, signal: int)

  /** One scan record as the script keeps it: stripped SSID and BSSID, signal in dBm. */
  datatype Observation = Observation(ssid: string, bssid: string, signal: int)

  function Normalise(b: Beacon): Observation {
    Observation(Strip(b.ssid), Strip(b.bssid), b.signal)
  }

  /** Hidden networks (SSID blank after stripping) are dropped. */
  predicate Kept(b: Beacon) {
    Strip(b.ssid) != ""
  }

  /** The records a scan keeps, in the order the radio reported them. */
  function KeptObservations(bs: seq<Beacon>): seq<Observation> {
    FilterMap(bs, Kept, Normalise)
  }

  /** A record is kept exactly when some reported beacon with a non-blank
      SSID normalises to it; so every kept record has a non-empty SSID, and
      there are no more records than beacons. */
  lemma KeptObservationsMembership(bs: seq<Beacon>, o: Observation)
    ensures o in KeptObservations(bs) <==> exists b :: b in bs && Kept(b) && Normalise(b) == o
    ensures o in KeptObservations(bs) ==> o.ssid != ""
    ensures |KeptObservations(bs)| <= |bs|
  {
    FilterMapMembership(bs, Kept, Normalise, o);
  }

  /** The loop of `scan_wifi_pywifi` over the radio's scan results. */
  method ScanNetworks(results: seq<Beacon>) returns (networks: seq<Observation>)
    ensures networks == KeptObservations(results)
  {
    networks := [];
    for i := 0 to |results|
      invariant networks == KeptObservations(results[..i])
    {
      var ssid := Strip(results[i].ssid);
      var bssid := Strip(results[i].bssid);
      var signal := results[i].signal;
      if ssid != "" {
        networks := networks + [Observation(ssid, bssid, signal)];
      }
      assert results[..i + 1] == results[..i] + [results[i]];
      FilterMapSnoc(results[..i], results[i], Kept, Normalise);
    }
    assert results[..|results|] == results;
  }

  // ---------------------------------------------------------------------
  // Per-SSID aggregation: distinct BSSIDs and mean signal of each SSID
  // ---------------------------------------------------------------------

  function SsidsOf(rows: seq<Observation>): set<string> {
    set o | o in rows :: o.ssid
  }

  /** The distinct BSSIDs seen under `ssid`. */
  function BssidsFor(rows: seq<Observation>, ssid: string): set<string> {
    set o | o in rows && o.ssid == ssid :: o.bssid
  }

  /** The positions of the rows recorded under `ssid`. */
  function RowsWith(rows: seq<Observation>, ssid: string): set<int> {
    set i | 0 <= i < |rows| && rows[i].ssid == ssid
  }

  /** One more row adds its position exactly when it has the SSID. */
  lemma RowsWithSnoc(rows: seq<Observation>, ssid: string)
    requires rows != []
    ensures |RowsWith(rows, ssid)| ==
      |RowsWith(rows[..|rows| - 1], ssid)| + (if rows[|rows| - 1].ssid == ssid then 1 else 0)
  {
    var n := |rows| - 1;
    var before := RowsWith(rows[..n], ssid);
    var grown := if rows[n].ssid == ssid then before + {n} else before;
    forall i | i in RowsWith(rows, ssid) ensures i in grown {
      if i < n {
        assert rows[..n][i] == rows[i];
      }
    }
    forall i | i in grown ensures i in RowsWith(rows, ssid) {
      if i < n {
        assert rows[..n][i] == rows[i];
      }
    }
    assert RowsWith(rows, ssid) == grown;
    assert n !in before;
  }


  /** The signals recorded under `ssid`, in row order: one for each row with
      that SSID, and none from any other row. */
  function SignalsFor(rows: seq<Observation>, ssid: string): (r: seq<int>)
    ensures |r| == |RowsWith(rows, ssid)| <= |rows|
    ensures forall x :: x in r ==> exists o :: o in rows && o.ssid == ssid && o.signal == x
    ensures forall o :: o in rows && o.ssid == ssid ==> o.signal in r
    ensures ssid in SsidsOf(rows) ==> |r| > 0
  {
    if rows == [] then []
    else
      var init, last := rows[..|rows| - 1], rows[|rows| - 1];
      assert rows == init + [last];
      RowsWithSnoc(rows, ssid);
      var r := SignalsFor(init, ssid) + (if last.ssid == ssid then [last.signal] else []);
      assert ssid in SsidsOf(rows) && last.ssid != ssid ==> ssid in SsidsOf(init) by {
        if ssid in SsidsOf(rows) && last.ssid != ssid {
          var o :| o in rows && o.ssid == ssid;
          assert o in init;
        }
      }
      r
  }

  /** One row of the per-SSID table: `*_bssid_count` and `*_avg_signal`. */
  datatype SsidStats = SsidStats(bssidCount: nat, avgSignal: real)

  /** The per-SSID table of `extract_features`: one row per SSID seen, with
      the number of distinct BSSIDs and the mean signal of that SSID's rows. */
  function GroupBySsid(rows: seq<Observation>): (t: map<string, SsidStats>)
    ensures t.Keys == SsidsOf(rows)
  {
    map s | s in SsidsOf(rows) :: SsidStats(|BssidsFor(rows, s)|, Mean(SignalsFor(rows, s)))
  }

  /** `extract_features`: the per-SSID table of the whole history. */
  function ExtractFeatures(history: seq<Observation>): (t: map<string, SsidStats>)
    ensures t.Keys == SsidsOf(history)
  {
    GroupBySsid(history)
  }

  /** An SSID has no more distinct BSSIDs than rows. */
  lemma {:induction false} BssidsForAtMostPositions(rows: seq<Observation>, ssid: string)
    ensures |BssidsFor(rows, ssid)| <= |RowsWith(rows, ssid)|
  {
    if rows != [] {
      var init, last := rows[..|rows| - 1], rows[|rows| - 1];
      BssidsForAtMostPositions(init, ssid);
      RowsWithSnoc(rows, ssid);
      assert rows == init + [last];
      if last.ssid == ssid {
        assert BssidsFor(rows, ssid) == BssidsFor(init, ssid) + {last.bssid};
      } else {
        assert BssidsFor(rows, ssid) == BssidsFor(init, ssid);
      }
    }
  }

  lemma BssidsForAtMostRows(rows: seq<Observation>, ssid: string)
    ensures |BssidsFor(rows, ssid)| <= |SignalsFor(rows, ssid)|
  {
    BssidsForAtMostPositions(rows, ssid);
  }


  /** The history rows with the SSID, in history order: each such row as
      many times as the history holds it, and no other row. */
  function RowsFor(rows: seq<Observation>, ssid: string): (g: seq<Observation>)
    ensures forall o :: o in g ==> o in rows && o.ssid == ssid
    ensures forall o :: multiset(g)[o] == (if o.ssid == ssid then multiset(rows)[o] else 0)
  {
    if rows == [] then []
    else
      var init, last := rows[..|rows| - 1], rows[|rows| - 1];
      assert rows == init + [last];
      RowsFor(init, ssid) + (if last.ssid == ssid then [last] else [])
  }

  lemma SignalsOfSnoc(init: seq<Observation>, extra: seq<Observation>)
    requires |extra| <= 1
    ensures SignalsOf(init + extra) == SignalsOf(init) + SignalsOf(extra)
  {
  }

  /** The signals grouped under an SSID are exactly the signals of its rows
      (`RowsFor`), in history order and with their multiplicities. */
  lemma {:induction false} SignalsForAreRowSignals(rows: seq<Observation>, ssid: string)
    ensures SignalsFor(rows, ssid) == SignalsOf(RowsFor(rows, ssid))
  {
    if rows != [] {
      var init, last := rows[..|rows| - 1], rows[|rows| - 1];
      var extra := if last.ssid == ssid then [last] else [];
      assert SignalsFor(rows, ssid) == SignalsFor(init, ssid) + SignalsOf(extra);
      assert RowsFor(rows, ssid) == RowsFor(init, ssid) + extra;
      SignalsForAreRowSignals(init, ssid);
      SignalsOfSnoc(RowsFor(init, ssid), extra);
    }
  }

  /** Every row of the per-SSID table describes SSIDs actually seen: its keys
      are exactly the SSIDs of the rows, it counts at least one and at most as
      many distinct BSSIDs as the SSID has rows, and its mean signal lies
      between two of that SSID's recorded signals. */
  lemma GroupBySsidRows(rows: seq<Observation>, ssid: string)
    ensures ssid in GroupBySsid(rows) <==> exists o :: o in rows && o.ssid == ssid
    ensures ssid in GroupBySsid(rows) ==>
      var st := GroupBySsid(rows)[ssid];
      st.bssidCount == |BssidsFor(rows, ssid)| &&
      st.avgSignal == Mean(SignalsFor(rows, ssid)) == Mean(SignalsOf(RowsFor(rows, ssid))) &&
      1 <= st.bssidCount <= |SignalsFor(rows, ssid)| &&
      (exists o :: o in rows && o.ssid == ssid && o.signal as real <= st.avgSignal) &&
      (exists o :: o in rows && o.ssid == ssid && st.avgSignal <= o.signal as real)
  {
    if ssid in GroupBySsid(rows) {
      var o :| o in rows && o.ssid == ssid;
      assert o.bssid in BssidsFor(rows, ssid);
      BssidsForAtMostRows(rows, ssid);
      var xs := SignalsFor(rows, ssid);
      SignalsForAreRowSignals(rows, ssid);
      MeanWithinRange(xs);
      var i :| 0 <= i < |xs| && xs[i] as real <= Mean(xs);
      var j :| 0 <= j < |xs| && Mean(xs) <= xs[j] as real;
      assert xs[i] in xs && xs[j] in xs;
    }
  }

  // ---------------------------------------------------------------------
  // Outer join of history and current scan (`prepare_current_features`)
  // ---------------------------------------------------------------------

  /** One row of the joined feature table; a side with no row for the SSID reads 0. */
  datatype FeatureRow = FeatureRow(histBssidCount: nat, histAvgSignal: real,
                                   currBssidCount: nat, currAvgSignal: real)

  /** The outer join of the historical and the current per-SSID tables, with
      0 in every cell of a side that has no row for the SSID. */
  function OuterJoin(hist: map<string, SsidStats>, curr: map<string, SsidStats>): (t: map<string, FeatureRow>)
    ensures t.Keys == hist.Keys + curr.Keys
  {
    map s | s in hist.Keys + curr.Keys ::
      FeatureRow(if s in hist then hist[s].bssidCount else 0,
                 if s in hist then hist[s].avgSignal else 0.0,
                 if s in curr then curr[s].bssidCount else 0,
                 if s in curr then curr[s].avgSignal else 0.0)
  }

  /** The joined table has a row for every SSID of either side, copies the
      columns of the side that has the SSID and fills the other side with 0. */
  lemma OuterJoinRows(hist: map<string, SsidStats>, curr: map<string, SsidStats>, s: string)
    ensures s in OuterJoin(hist, curr) <==> s in hist || s in curr
    ensures s in OuterJoin(hist, curr) ==>
      var f := OuterJoin(hist, curr)[s];
      (s in hist ==> f.histBssidCount == hist[s].bssidCount && f.histAvgSignal == hist[s].avgSignal) &&
      (s !in hist ==> f.histBssidCount == 0 && f.histAvgSignal == 0.0) &&
      (s in curr ==> f.currBssidCount == curr[s].bssidCount && f.currAvgSignal == curr[s].avgSignal) &&
      (s !in curr ==> f.currBssidCount == 0 && f.currAvgSignal == 0.0)
  {
  }

  /** `prepare_current_features`: the current scan's per-SSID table joined
      onto the historical one. */
  function PrepareCurrentFeatures(networks: seq<Observation>, hist: map<string, SsidStats>): (t: map<string, FeatureRow>)
    ensures t.Keys == hist.Keys + SsidsOf(networks)
  {
    OuterJoin(hist, GroupBySsid(networks))
  }

  lemma SsidsOfAppend(a: seq<Observation>, b: seq<Observation>)
    ensures SsidsOf(a + b) == SsidsOf(a) + SsidsOf(b)
  {
    forall s | s in SsidsOf(a + b) ensures s in SsidsOf(a) + SsidsOf(b) {
      var o :| o in a + b && o.ssid == s;
    }
  }

  lemma SubsetCard<T>(a: set<T>, b: set<T>)
    requires a <= b
    ensures |a| <= |b|
  {
    assert b == a + (b - a);
  }

  /** The scan is written to the history before the history is read back, so
      the joined table is keyed by exactly the history's SSIDs, and for every
      SSID of the scan the history counts at least as many distinct BSSIDs as
      the scan does. */
  lemma HistoryCoversScan(previous: seq<Observation>, networks: seq<Observation>)
    ensures var features := PrepareCurrentFeatures(networks, ExtractFeatures(previous + networks));
      features.Keys == SsidsOf(previous + networks) &&
      forall s :: s in SsidsOf(networks) ==>
        1 <= features[s].currBssidCount <= features[s].histBssidCount
  {
    var all := previous + networks;
    SsidsOfAppend(previous, networks);
    var hist, curr := GroupBySsid(all), GroupBySsid(networks);
    var features := OuterJoin(hist, curr);
    forall s | s in SsidsOf(networks)
      ensures 1 <= features[s].currBssidCount <= features[s].histBssidCount
    {
      var o :| o in networks && o.ssid == s;
      assert o in all;
      GroupBySsidRows(networks, s);
      GroupBySsidRows(all, s);
      OuterJoinRows(hist, curr, s);
      assert o.bssid in BssidsFor(networks, s);
      assert BssidsFor(networks, s) <= BssidsFor(all, s) by {
        forall b | b in BssidsFor(networks, s) ensures b in BssidsFor(all, s) {
          var o' :| o' in networks && o'.ssid == s && o'.bssid == b;
          assert o' in all;
        }
      }
      SubsetCard(BssidsFor(networks, s), BssidsFor(all, s));
    }
  }

  // ---------------------------------------------------------------------
  // Formatting and statistics (the body of `main`)
  // ---------------------------------------------------------------------

  /** SSIDs whose feature-table row the detector labelled -1. */
  function SuspiciousSsids(features: map<string, FeatureRow>, labels: map<string, int>): (r: set<string>)
    ensures r <= features.Keys
    ensures forall s :: s in r ==> s in labels && labels[s] == -1
  {
    set s | s in features && s in labels && labels[s] == -1
  }

  /** The fixed confidence scores the script reports. */
  const SuspiciousConfidence: real := 0.85
  const NormalConfidence: real := 0.92
  /** The fixed `avgBssidCount` the script reports for a non-empty scan. */
  const ReportedAvgBssidCount: real := 1.2

  datatype NetworkEntry = NetworkEntry(ssid: string, bssid: string, signal: int,
                                       suspicious: bool, confidence: real)

  datatype ScanStats = ScanStats(totalNetworks: nat, suspiciousCount: nat,
                                 avgSignal: real, avgBssidCount: real)

  datatype ScanReport = ScanReport(networks: seq<NetworkEntry>, stats: ScanStats)

  /** The entry reported for `n`, given the set of anomalous SSIDs. */
  predicate Reports(e: NetworkEntry, n: Observation, suspicious: set<string>) {
    e.ssid == n.ssid && e.bssid == n.bssid && e.signal == n.signal &&
    (e.suspicious <==> n.ssid in suspicious) &&
    e.confidence == (if e.suspicious then SuspiciousConfidence else NormalConfidence)
  }

  /** The formatting loop of `main`: one entry per scanned network, in scan
      order, flagged exactly when its SSID is anomalous; networks sharing an
      SSID get the same verdict. */
  method FormatNetworks(networks: seq<Observation>, suspicious: set<string>)
    returns (formatted: seq<NetworkEntry>)
    ensures |formatted| == |networks|
    ensures forall i :: 0 <= i < |networks| ==> Reports(formatted[i], networks[i], suspicious)
    ensures forall i, j :: (0 <= i < |networks| && 0 <= j < |networks| &&
      networks[i].ssid == networks[j].ssid) ==> formatted[i].suspicious == formatted[j].suspicious
  {
    formatted := [];
    for i := 0 to |networks|
      invariant |formatted| == i
      invariant forall k :: 0 <= k < i ==> Reports(formatted[k], networks[k], suspicious)
    {
      var network := networks[i];
      var isSuspicious := network.ssid in suspicious;
      var confidence := if isSuspicious then SuspiciousConfidence else NormalConfidence;
      formatted := formatted + [NetworkEntry(network.ssid, network.bssid, network.signal, isSuspicious, confidence)];
    }
  }

  function SignalsOf(networks: seq<Observation>): seq<int> {
    seq(|networks|, i requires 0 <= i < |networks| => networks[i].signal)
  }

  /** The reported average signal of a non-empty scan lies between the
      weakest and the strongest signal of the scan. */
  lemma AvgSignalWithinRange(networks: seq<Observation>)
    requires networks != []
    ensures exists i :: 0 <= i < |networks| && networks[i].signal as real <= Mean(SignalsOf(networks))
    ensures exists j :: 0 <= j < |networks| && Mean(SignalsOf(networks)) <= networks[j].signal as real
  {
    var xs := SignalsOf(networks);
    MeanWithinRange(xs);
    var i :| 0 <= i < |xs| && xs[i] as real <= Mean(xs);
    var j :| 0 <= j < |xs| && Mean(xs) <= xs[j] as real;
    assert xs[i] == networks[i].signal && xs[j] == networks[j].signal;
  }

  /** The report for an empty scan. */
  const EmptyReport := ScanReport([], ScanStats(0, 0, 0.0, 0.0))

  /** `main`: scan, store, analyse, format. `previous` is the stored history,
      `labels` the detector's verdict on the joined feature table. */
  method RunScan(previous: seq<Observation>, scanned: seq<Beacon>, labels: map<string, int>)
    returns (report: ScanReport)
    ensures var networks := KeptObservations(scanned);
      |report.networks| == |networks| == report.stats.totalNetworks &&
      (networks == [] ==> report == EmptyReport) &&
      (networks != [] ==>
        var suspicious := SuspiciousSsids(PrepareCurrentFeatures(networks, ExtractFeatures(previous + networks)), labels);
        (forall i :: 0 <= i < |networks| ==> Reports(report.networks[i], networks[i], suspicious)) &&
        report.stats.suspiciousCount == |suspicious| &&
        report.stats.avgSignal == Mean(SignalsOf(networks)) &&
        report.stats.avgBssidCount == ReportedAvgBssidCount)
  {
    var networks := ScanNetworks(scanned);
    if networks == [] {
      return EmptyReport;
    }
    var history := previous + networks;
    var features := PrepareCurrentFeatures(networks, ExtractFeatures(history));
    var suspicious := SuspiciousSsids(features, labels);
    var formatted := FormatNetworks(networks, suspicious);
    var signals := SignalsOf(networks);
    report := ScanReport(formatted, ScanStats(|formatted|, |suspicious|, Mean(signals), ReportedAvgBssidCount));
  }

  /** The anomalous SSIDs are those of the whole stored history the detector
      labelled -1, whether or not they occur in the current scan. */
  lemma SuspiciousSsidsOfHistory(previous: seq<Observation>, networks: seq<Observation>, labels: map<string, int>)
    ensures SuspiciousSsids(PrepareCurrentFeatures(networks, ExtractFeatures(previous + networks)), labels) ==
      set s | s in SsidsOf(previous + networks) && s in labels && labels[s] == -1
  {
    HistoryCoversScan(previous, networks);
  }

  /** A set holding `base` and one element outside it is larger than `base`. */
  lemma AddedElementCard<T>(base: set<T>, x: T, big: set<T>)
    requires x !in base && base <= big && x in big
    ensures |big| >= |base| + 1
  {
    SubsetCard(base + {x}, big);
  }

  /** The SSIDs of the history labelled -1 include every scanned SSID and one more. */
  lemma HistoryFlagsExceedScan(previous: seq<Observation>, networks: seq<Observation>,
                               labels: map<string, int>, earlier: Observation)
    requires earlier in previous && earlier.ssid !in SsidsOf(networks)
    requires earlier.ssid in labels && labels[earlier.ssid] == -1
    requires forall o :: o in networks ==> o.ssid in labels && labels[o.ssid] == -1
    ensures var flagged := set s | s in SsidsOf(previous + networks) && s in labels && labels[s] == -1;
      |flagged| >= |SsidsOf(networks)| + 1 &&
      (|networks| == 1 ==> |flagged| >= 2)
  {
    var flagged := set s | s in SsidsOf(previous + networks) && s in labels && labels[s] == -1;
    SsidsOfAppend(previous, networks);
    forall s | s in SsidsOf(networks) ensures s in flagged {
      var o :| o in networks && o.ssid == s;
    }
    assert earlier in previous + networks;
    AddedElementCard(SsidsOf(networks), earlier.ssid, flagged);
    if |networks| == 1 {
      assert SsidsOf(networks) == {networks[0].ssid} by {
        assert networks[0] in networks;
      }
    }
  }

  /** `suspiciousCount` can exceed `totalNetworks`: an SSID stored only by an
      earlier scan and labelled -1 is counted on top of the scanned SSIDs, so
      when every scanned SSID is labelled -1 as well, a one-network scan
      counts at least two suspicious SSIDs. */
  lemma SuspiciousCountIncludesHistory(previous: seq<Observation>, networks: seq<Observation>,
                                       labels: map<string, int>, earlier: Observation)
    requires earlier in previous && earlier.ssid !in SsidsOf(networks)
    requires earlier.ssid in labels && labels[earlier.ssid] == -1
    requires forall o :: o in networks ==> o.ssid in labels && labels[o.ssid] == -1
    ensures var count := |SuspiciousSsids(PrepareCurrentFeatures(networks, ExtractFeatures(previous + networks)), labels)|;
      count >= |SsidsOf(networks)| + 1 &&
      (|networks| == 1 ==> count >= 2 > |networks|)
  {
    SuspiciousSsidsOfHistory(previous, networks, labels);
    HistoryFlagsExceedScan(previous, networks, labels, earlier);
  }
}

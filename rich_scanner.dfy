/** The (SSID, BSSID)-keyed scan pipeline of the Flask service
    (scripts/wifi_scanner.py): keep the named beacons of a scan with their
    channel number and vendor, aggregate the whole history per
    (SSID, BSSID) pair, one-hot encode the vendor, and turn the detector's
    per-row labels into results and counts.

    The anomaly detector (an isolation forest) is not modelled: its verdict
    enters as `labels`, one label per row of the aggregated table, where -1
    means "anomalous". The vendor lookup from the BSSID's OUI enters as the
    function `vendorOf`. The CSV history file enters as `history`, the
    records stored before this scan. */
module RichScanner {
  import opened Text
  import opened Aggregates
  import opened Lists

  /** One access point as the radio reports it; `freq` in MHz. */
  datatype RawBeacon = RawBeacon(ssid: string, bssid: string, signal: int, freq: int)

  /** One stored scan record: SSID, BSSID, Signal, Channel, Vendor. */
  datatype Record = Record(ssid: string, bssid: string, signal: int, channel: int, vendor: string)

  // ---------------------------------------------------------------------
  // Channel numbering
  // ---------------------------------------------------------------------

  /** The channel number of a centre frequency, following the 802.11 rule
      `centre = band start + 5 * channel` for the 2.4 GHz channels 1-13
      (start 2407 MHz) and the 5 GHz channels 36-165 (start 5000 MHz);
      every other frequency (channel 14 at 2484 MHz, 6 GHz) gives 0. */
  function ChannelOf(freq: int): (ch: int)
    ensures ch == 0 || 1 <= ch <= 13 || 36 <= ch <= 165
  {
    if 2412 <= freq <= 2472 then (freq - 2407) / 5
    else if 5180 <= freq <= 5825 then (freq - 5000) / 5
    else 0
  }

  /** A channel is 0 (unknown) or lies in one of the two bands, and a
      frequency in a band lies in the 5 MHz step that starts at its
      channel's centre frequency. */
  lemma ChannelOfBands(freq: int)
    ensures 2412 <= freq <= 2472 ==>
      1 <= ChannelOf(freq) <= 13 && 2407 + 5 * ChannelOf(freq) <= freq < 2412 + 5 * ChannelOf(freq)
    ensures 5180 <= freq <= 5825 ==>
      36 <= ChannelOf(freq) <= 165 && 5000 + 5 * ChannelOf(freq) <= freq < 5005 + 5 * ChannelOf(freq)
    ensures !(2412 <= freq <= 2472) && !(5180 <= freq <= 5825) ==> ChannelOf(freq) == 0
    ensures ChannelOf(freq) == 0 || 1 <= ChannelOf(freq) <= 13 || 36 <= ChannelOf(freq) <= 165
  {
  }

  /** The centre frequency of every channel the map knows maps back to that channel. */
  lemma ChannelCentreRoundTrip(ch: int)
    ensures 1 <= ch <= 13 ==> ChannelOf(2407 + 5 * ch) == ch
    ensures 36 <= ch <= 165 ==> ChannelOf(5000 + 5 * ch) == ch
  {
  }

  // ---------------------------------------------------------------------
  // The scan loop of `scan_wifi_pywifi`
  // ---------------------------------------------------------------------

  function Normalise(b: RawBeacon, vendorOf: string -> string): Record {
    var bssid := Strip(b.bssid);
    Record(Strip(b.ssid), bssid, b.signal, ChannelOf(b.freq), vendorOf(bssid))
  }

  /** Hidden networks (SSID blank after stripping) are not kept. */
  predicate Kept(b: RawBeacon) {
    Strip(b.ssid) != ""
  }

  /** The records a scan keeps, in the order the radio reported them. */
  function KeptRecords(bs: seq<RawBeacon>, vendorOf: string -> string): seq<Record> {
    FilterMap(bs, Kept, b => Normalise(b, vendorOf))
  }

  /** One more result: the kept records grow by its record exactly when it is kept. */
  lemma KeptRecordsSnoc(bs: seq<RawBeacon>, vendorOf: string -> string, i: int)
    requires 0 <= i < |bs|
    ensures KeptRecords(bs[..i + 1], vendorOf) ==
      KeptRecords(bs[..i], vendorOf) + (if Kept(bs[i]) then [Normalise(bs[i], vendorOf)] else [])
  {
    assert bs[..i + 1] == bs[..i] + [bs[i]];
    FilterMapSnoc(bs[..i], bs[i], Kept, b => Normalise(b, vendorOf));
  }

  /** A record is kept exactly when a reported beacon with a non-blank SSID
      normalises to it; every kept record has a non-empty SSID and a channel
      that is 0 or lies in one of the two bands. */
  lemma KeptRecordsMembership(bs: seq<RawBeacon>, vendorOf: string -> string, r: Record)
    ensures r in KeptRecords(bs, vendorOf) <==>
      exists b :: b in bs && Kept(b) && Normalise(b, vendorOf) == r
    ensures r in KeptRecords(bs, vendorOf) ==>
      r.ssid != "" && (r.channel == 0 || 1 <= r.channel <= 13 || 36 <= r.channel <= 165)
    ensures |KeptRecords(bs, vendorOf)| <= |bs|
  {
    FilterMapMembership(bs, Kept, b => Normalise(b, vendorOf), r);
    if r in KeptRecords(bs, vendorOf) {
      var b :| b in bs && Kept(b) && Normalise(b, vendorOf) == r;
      ChannelOfBands(b.freq);
    }
  }

  method ScanNetworks(results: seq<RawBeacon>, vendorOf: string -> string) returns (networks: seq<Record>)
    ensures networks == KeptRecords(results, vendorOf)
  {
    networks := [];
    for i := 0 to |results|
      invariant networks == KeptRecords(results[..i], vendorOf)
    {
      var ssid := Strip(results[i].ssid);
      var bssid := Strip(results[i].bssid);
      var signal := results[i].signal;
      var channel := ChannelOf(results[i].freq);
      var vendor := vendorOf(bssid);
      if ssid != "" {
        networks := networks + [Record(ssid, bssid, signal, channel, vendor)];
      }
      KeptRecordsSnoc(results, vendorOf, i);
    }
    assert results[..|results|] == results;
  }

  // ---------------------------------------------------------------------
  // Group keys: `groupby(['SSID', 'BSSID'])`, which sorts its keys
  // ---------------------------------------------------------------------

  datatype Key = Key(ssid: string, bssid: string)

  function KeyOf(r: Record): Key {
    Key(r.ssid, r.bssid)
  }

  function KeysOf(rows: seq<Record>): set<Key> {
    set r | r in rows :: KeyOf(r)
  }

  /** Python's tuple order on (SSID, BSSID). */
  predicate KeyLess(a: Key, b: Key) {
    StrLess(a.ssid, b.ssid) || (a.ssid == b.ssid && StrLess(a.bssid, b.bssid))
  }

  lemma KeyLessIrreflexive(a: Key)
    ensures !KeyLess(a, a)
  {
    StrLessIrreflexive(a.ssid);
    StrLessIrreflexive(a.bssid);
  }

  lemma KeyLessTransitive(a: Key, b: Key, c: Key)
    requires KeyLess(a, b) && KeyLess(b, c)
    ensures KeyLess(a, c)
  {
    if StrLess(a.ssid, b.ssid) && StrLess(b.ssid, c.ssid) {
      StrLessTransitive(a.ssid, b.ssid, c.ssid);
    } else if a.ssid == b.ssid && b.ssid == c.ssid {
      StrLessTransitive(a.bssid, b.bssid, c.bssid);
    }
  }

  lemma KeyLessTotal(a: Key, b: Key)
    ensures a == b || KeyLess(a, b) || KeyLess(b, a)
  {
    StrLessTotal(a.ssid, b.ssid);
    StrLessTotal(a.bssid, b.bssid);
  }

  /** Strictly increasing, hence free of duplicates. */
  predicate StrictlySorted(ks: seq<Key>) {
    forall i, j :: 0 <= i < j < |ks| ==> KeyLess(ks[i], ks[j])
  }

  lemma StrictlySortedDistinct(ks: seq<Key>)
    requires StrictlySorted(ks)
    ensures forall i, j :: 0 <= i < |ks| && 0 <= j < |ks| && ks[i] == ks[j] ==> i == j
  {
    forall i, j | 0 <= i < |ks| && 0 <= j < |ks| && ks[i] == ks[j] ensures i == j {
      KeyLessIrreflexive(ks[i]);
    }
  }

  /** Inserts `k` at its place in a sorted key list, unless it is already there. */
  function InsertKey(k: Key, ks: seq<Key>): seq<Key> {
    if ks == [] then [k]
    else if k == ks[0] then ks
    else if KeyLess(k, ks[0]) then [k] + ks
    else [ks[0]] + InsertKey(k, ks[1..])
  }

  lemma {:induction false} InsertKeySorted(k: Key, ks: seq<Key>)
    requires StrictlySorted(ks)
    ensures StrictlySorted(InsertKey(k, ks))
    ensures forall x :: x in InsertKey(k, ks) <==> x == k || x in ks
  {
    if ks == [] {
    } else if k == ks[0] {
    } else if KeyLess(k, ks[0]) {
      var r := [k] + ks;
      forall i, j | 0 <= i < j < |r| ensures KeyLess(r[i], r[j]) {
        if i == 0 && j > 1 {
          KeyLessTransitive(k, ks[0], ks[j - 1]);
        }
      }
    } else {
      KeyLessTotal(k, ks[0]);
      InsertKeySorted(k, ks[1..]);
      var tail := InsertKey(k, ks[1..]);
      var r := [ks[0]] + tail;
      forall x | x in ks ensures x == ks[0] || x in ks[1..] {
      }
      forall i, j | 0 <= i < j < |r| ensures KeyLess(r[i], r[j]) {
        if i == 0 {
          assert r[j] in tail;
          if r[j] != k {
            var m :| 1 <= m < |ks| && ks[m] == r[j];
          }
        }
      }
    }
  }

  /** The keys of the aggregated table, in the order pandas emits them. */
  function GroupKeys(rows: seq<Record>): seq<Key> {
    if rows == [] then []
    else InsertKey(KeyOf(rows[|rows| - 1]), GroupKeys(rows[..|rows| - 1]))
  }

  /** The aggregated table has exactly one row per distinct (SSID, BSSID)
      pair of the rows, in increasing key order. */
  lemma {:induction false} GroupKeysSortedAndComplete(rows: seq<Record>)
    ensures StrictlySorted(GroupKeys(rows))
    ensures forall k :: k in GroupKeys(rows) <==> k in KeysOf(rows)
  {
    if rows != [] {
      var init, last := rows[..|rows| - 1], rows[|rows| - 1];
      GroupKeysSortedAndComplete(init);
      InsertKeySorted(KeyOf(last), GroupKeys(init));
      assert rows == init + [last];
      forall k | k in KeysOf(rows) ensures k in KeysOf(init) || k == KeyOf(last) {
        var r :| r in rows && KeyOf(r) == k;
        if r != last {
          assert r in init;
        }
      }
      forall k | k in KeysOf(init) ensures k in KeysOf(rows) {
        var r :| r in init && KeyOf(r) == k;
        assert r in rows;
      }
    }
  }

  // ---------------------------------------------------------------------
  // Per-pair aggregation (`Signal`: mean and std, `Channel`: mode, `Vendor`: latest)
  // ---------------------------------------------------------------------

  /** The rows of one (SSID, BSSID) group, in row order: every row of the
      history with that key, as often as it occurs there, and no other row. */
  function GroupOf(rows: seq<Record>, k: Key): (g: seq<Record>)
    ensures forall r :: r in g ==> r in rows && KeyOf(r) == k
    ensures forall r :: multiset(g)[r] == (if KeyOf(r) == k then multiset(rows)[r] else 0)
    ensures k in KeysOf(rows) ==> |g| > 0
  {
    if rows == [] then []
    else
      var init, last := rows[..|rows| - 1], rows[|rows| - 1];
      assert rows == init + [last];
      assert k in KeysOf(rows) && KeyOf(last) != k ==> k in KeysOf(init) by {
        if k in KeysOf(rows) && KeyOf(last) != k {
          var r :| r in rows && KeyOf(r) == k;
          assert r in init;
        }
      }
      GroupOf(init, k) + (if KeyOf(last) == k then [last] else [])
  }

  function SignalsOf(g: seq<Record>): seq<int> {
    seq(|g|, i requires 0 <= i < |g| => g[i].signal)
  }

  function ChannelsOf(g: seq<Record>): seq<int> {
    seq(|g|, i requires 0 <= i < |g| => g[i].channel)
  }

  /** The vendor of the last row with this BSSID
      (the vendor table keeps the last row of each BSSID and is merged on BSSID);
      "" when no row has it, which the aggregated table never asks for. */
  function LatestVendor(rows: seq<Record>, bssid: string): (v: string)
    ensures v == "" || exists r :: r in rows && r.bssid == bssid && r.vendor == v
  {
    if rows == [] then ""
    else if rows[|rows| - 1].bssid == bssid then rows[|rows| - 1].vendor
    else LatestVendor(rows[..|rows| - 1], bssid)
  }

  /** Row `i` is the last row of `rows` with this BSSID. */
  predicate LastWithBssid(rows: seq<Record>, bssid: string, i: int) {
    0 <= i < |rows| && rows[i].bssid == bssid &&
    forall j :: i < j < |rows| ==> rows[j].bssid != bssid
  }

  /** For a BSSID that occurs, the merged vendor is the one of its last occurrence. */
  lemma {:induction false} LatestVendorIsLast(rows: seq<Record>, bssid: string)
    requires exists r :: r in rows && r.bssid == bssid
    ensures exists i :: LastWithBssid(rows, bssid, i) && LatestVendor(rows, bssid) == rows[i].vendor
  {
    var init, last := rows[..|rows| - 1], rows[|rows| - 1];
    if last.bssid == bssid {
      assert LastWithBssid(rows, bssid, |rows| - 1);
    } else {
      var r :| r in rows && r.bssid == bssid;
      assert r in init by {
        assert rows == init + [last];
      }
      LatestVendorIsLast(init, bssid);
      var i :| LastWithBssid(init, bssid, i) && LatestVendor(init, bssid) == init[i].vendor;
      assert LastWithBssid(rows, bssid, i);
    }
  }

  /** One row of the aggregated table. `signalVariance` is the square of
      `Signal_std`; `channel` is `Channel_<lambda>`. */
  datatype GroupRow = GroupRow(ssid: string, bssid: string, signalMean: real,
                               signalVariance: real, channel: int, ssidLen: nat)

  /** The aggregated row of key `k`: it names the key, its spread is never
      negative and vanishes for a single sample, and `SSID_len` is the
      SSID's length. */
  function AggregateGroup(rows: seq<Record>, k: Key): (row: GroupRow)
    ensures row.ssid == k.ssid && row.bssid == k.bssid && row.ssidLen == |k.ssid|
    ensures row.signalVariance >= 0.0
    ensures |GroupOf(rows, k)| <= 1 ==> row.signalVariance == 0.0
  {
    var g := GroupOf(rows, k);
    GroupRow(k.ssid, k.bssid, Mean(SignalsOf(g)), SampleVariance(SignalsOf(g)),
             if g == [] then 0 else Mode(ChannelsOf(g)), |k.ssid|)
  }

  /** `df_agg` after aggregation, one row per key of `GroupKeys`. */
  function GroupTable(rows: seq<Record>): (t: seq<GroupRow>)
    ensures |t| == |GroupKeys(rows)|
    ensures forall i :: 0 <= i < |t| ==> Key(t[i].ssid, t[i].bssid) == GroupKeys(rows)[i]
  {
    var ks := GroupKeys(rows);
    seq(|ks|, i requires 0 <= i < |ks| => AggregateGroup(rows, ks[i]))
  }

  /** The `Vendor` column of `df_agg` after the merge. */
  function GroupVendors(rows: seq<Record>): (v: seq<string>)
    ensures |v| == |GroupKeys(rows)|
  {
    var ks := GroupKeys(rows);
    seq(|ks|, i requires 0 <= i < |ks| => LatestVendor(rows, ks[i].bssid))
  }

  /** Each row of the aggregated table describes its own group, which holds
      every history row with that pair (`GroupOf`): the pair is a pair of the
      history, the mean and the spread are those of the group's signals, the
      mean lies between two of the group's
      signals, a single-sample group has spread 0, the channel is the
      group's most frequent channel (smallest on ties), and `SSID_len` is the
      SSID's length. */
  lemma GroupTableRow(rows: seq<Record>, i: int)
    requires 0 <= i < |GroupTable(rows)|
    ensures var t := GroupTable(rows)[i]; var g := GroupOf(rows, Key(t.ssid, t.bssid));
      Key(t.ssid, t.bssid) in KeysOf(rows) &&
      |g| > 0 &&
      t.signalMean == Mean(SignalsOf(g)) && t.signalVariance == SampleVariance(SignalsOf(g)) &&
      (exists r :: r in g && r.signal as real <= t.signalMean) &&
      (exists r :: r in g && t.signalMean <= r.signal as real) &&
      (|g| == 1 ==> t.signalVariance == 0.0) &&
      t.signalVariance >= 0.0 &&
      t.channel == Mode(ChannelsOf(g)) &&
      t.ssidLen == |t.ssid|
  {
    GroupKeysSortedAndComplete(rows);
    var k := GroupKeys(rows)[i];
    var g := GroupOf(rows, k);
    assert k in GroupKeys(rows);
    var xs := SignalsOf(g);
    MeanWithinRange(xs);
    var a :| 0 <= a < |xs| && xs[a] as real <= Mean(xs);
    var b :| 0 <= b < |xs| && Mean(xs) <= xs[b] as real;
    assert g[a] in g && g[b] in g;
    if |xs| >= 2 {
      SampleVarianceZeroIffConstant(xs);
    }
  }

  /** The `Vendor` column holds, for each row, the vendor last recorded for its BSSID. */
  lemma GroupVendorsAreLatest(rows: seq<Record>, i: int)
    requires 0 <= i < |GroupVendors(rows)|
    ensures exists n :: LastWithBssid(rows, GroupKeys(rows)[i].bssid, n) && GroupVendors(rows)[i] == rows[n].vendor
  {
    GroupKeysSortedAndComplete(rows);
    var k := GroupKeys(rows)[i];
    assert k in KeysOf(rows);
    var r :| r in rows && KeyOf(r) == k;
    LatestVendorIsLast(rows, k.bssid);
  }

  // ---------------------------------------------------------------------
  // One-hot vendor encoding (`encode_vendor`)
  // ---------------------------------------------------------------------

  /** The position of the first occurrence of `x` in `xs`. */
  function FirstIndex(xs: seq<string>, x: string): (i: nat)
    requires x in xs
    ensures i < |xs| && xs[i] == x
    ensures forall j :: 0 <= j < i ==> xs[j] != x
  {
    if xs[0] == x then 0 else 1 + FirstIndex(xs[1..], x)
  }

  /** Appending a value does not move the first occurrence of a value that
      already occurs. */
  lemma FirstIndexSnoc(init: seq<string>, x: string, y: string)
    requires y in init
    ensures y in init + [x] && FirstIndex(init + [x], y) == FirstIndex(init, y)
  {
    var a := FirstIndex(init, y);
    assert (init + [x])[a] == y;
    var b := FirstIndex(init + [x], y);
    assert b <= a;
    assert init[b] == y;
  }

  /** `Series.unique()`: every value of the column once, in order of first
      appearance. */
  function Unique(xs: seq<string>): (u: seq<string>)
    ensures forall x :: x in u <==> x in xs
    ensures forall i, j :: 0 <= i < j < |u| ==> u[i] != u[j]
    ensures forall i, j :: 0 <= i < j < |u| ==> FirstIndex(xs, u[i]) < FirstIndex(xs, u[j])
  {
    if xs == [] then []
    else
      var init := xs[..|xs| - 1];
      var u := Unique(init);
      var x := xs[|xs| - 1];
      assert xs == init + [x];
      assert forall y :: y in xs ==> y in init || y == x;
      UniqueKeepsFirstIndex(init, x, u);
      if x in u then u else u + [x]
  }

  /** The first occurrences of the values of the unique list of `init` do
      not move when `x` is appended, and all lie within `init`. */
  lemma UniqueKeepsFirstIndex(init: seq<string>, x: string, u: seq<string>)
    requires forall i :: 0 <= i < |u| ==> u[i] in init
    ensures forall i :: 0 <= i < |u| ==>
      (u[i] in init + [x] && FirstIndex(init + [x], u[i]) == FirstIndex(init, u[i]) < |init|)
  {
    forall i | 0 <= i < |u|
      ensures u[i] in init + [x] && FirstIndex(init + [x], u[i]) == FirstIndex(init, u[i]) < |init|
    {
      FirstIndexSnoc(init, x, u[i]);
    }
  }




  /** A column `vendor_<v>` holding 1 where the row's vendor is `v`, else 0. */
  datatype VendorColumn = VendorColumn(name: string, values: seq<int>)

  function OneHotColumn(vendors: seq<string>, v: string): VendorColumn {
    VendorColumn("vendor_" + v, seq(|vendors|, i requires 0 <= i < |vendors| => if vendors[i] == v then 1 else 0))
  }

  /** Distinct vendors give distinct column names. */
  lemma ColumnNamesDistinct(u: seq<string>)
    requires forall i, j :: 0 <= i < j < |u| ==> u[i] != u[j]
    ensures forall i, j :: 0 <= i < j < |u| ==> "vendor_" + u[i] != "vendor_" + u[j]
  {
    forall i, j | 0 <= i < j < |u| ensures "vendor_" + u[i] != "vendor_" + u[j] {
      assert ("vendor_" + u[i])[7..] == u[i];
      assert ("vendor_" + u[j])[7..] == u[j];
    }
  }

  /** The vendor columns `encode_vendor` adds, one per distinct vendor. */
  function OneHot(vendors: seq<string>): (cols: seq<VendorColumn>)
    ensures |cols| == |Unique(vendors)|
    ensures forall j :: 0 <= j < |cols| ==> |cols[j].values| == |vendors|
    ensures forall j, k :: 0 <= j < k < |cols| ==> cols[j].name != cols[k].name
  {
    var u := Unique(vendors);
    ColumnNamesDistinct(u);
    seq(|u|, j requires 0 <= j < |u| => OneHotColumn(vendors, u[j]))
  }

  /** Every row has exactly one vendor column equal to 1, the one named after
      its own vendor; all its other vendor columns are 0. */
  lemma OneHotExactlyOne(vendors: seq<string>, i: int)
    requires 0 <= i < |vendors|
    ensures var cols := OneHot(vendors);
      (forall j :: 0 <= j < |cols| ==>
        (|cols[j].values| == |vendors| && (cols[j].values[i] == 1 || cols[j].values[i] == 0))) &&
      (exists j :: 0 <= j < |cols| && cols[j].name == "vendor_" + vendors[i] && cols[j].values[i] == 1) &&
      (forall j, j' :: (0 <= j < |cols| && 0 <= j' < |cols| &&
        cols[j].values[i] == 1 && cols[j'].values[i] == 1) ==> j == j')
  {
    var u := Unique(vendors);
    var cols := OneHot(vendors);
    assert vendors[i] in vendors;
    var j :| 0 <= j < |u| && u[j] == vendors[i];
    assert cols[j].name == "vendor_" + vendors[i] && cols[j].values[i] == 1;
  }

  /** The loop of `encode_vendor`: one new column per distinct vendor. */
  method EncodeVendor(vendors: seq<string>) returns (columns: seq<VendorColumn>)
    ensures columns == OneHot(vendors)
  {
    var u := Unique(vendors);
    columns := [];
    for j := 0 to |u|
      invariant |columns| == j
      invariant forall m :: 0 <= m < j ==> columns[m] == OneHotColumn(vendors, u[m])
    {
      var v := u[j];
      var values := seq(|vendors|, i requires 0 <= i < |vendors| => if vendors[i] == v then 1 else 0);
      columns := columns + [VendorColumn("vendor_" + v, values)];
    }
  }

  /** `extract_features`: the aggregated table and its vendor columns (the
      model's feature matrix is these columns without SSID and BSSID). */
  method ExtractFeatures(history: seq<Record>) returns (table: seq<GroupRow>, vendorColumns: seq<VendorColumn>)
    ensures table == GroupTable(history)
    ensures vendorColumns == OneHot(GroupVendors(history))
    ensures forall c :: c in vendorColumns ==> |c.values| == |table|
  {
    table := GroupTable(history);
    vendorColumns := EncodeVendor(GroupVendors(history));
  }

  // ---------------------------------------------------------------------
  // Results and statistics (the body of `scan_wifi`)
  // ---------------------------------------------------------------------

  /** The detector's label for an anomalous row. */
  const OutlierLabel := -1

  datatype ScanResult = ScanResult(ssid: string, bssid: string, meanSignal: real,
                                   signalVariance: real, channel: int,
                                   suspicious: bool, confidence: real)

  /** `result` is the entry reported for table row `row` labelled `anomaly`:
      suspicious exactly for the outlier label, confidence 1.0 for a
      suspicious row and 0.0 otherwise. */
  predicate Describes(result: ScanResult, row: GroupRow, anomaly: int) {
    result.ssid == row.ssid && result.bssid == row.bssid &&
    result.meanSignal == row.signalMean && result.signalVariance == row.signalVariance &&
    result.channel == row.channel &&
    (result.suspicious <==> anomaly == OutlierLabel) &&
    result.confidence == (if result.suspicious then 1.0 else 0.0)
  }

  /** The loop of `scan_wifi` over the rows of the aggregated table. */
  method BuildResults(table: seq<GroupRow>, labels: seq<int>) returns (results: seq<ScanResult>)
    requires |labels| == |table|
    ensures |results| == |table|
    ensures forall i :: 0 <= i < |table| ==> Describes(results[i], table[i], labels[i])
  {
    results := [];
    for i := 0 to |table|
      invariant |results| == i
      invariant forall m :: 0 <= m < i ==> Describes(results[m], table[m], labels[m])
    {
      var row := table[i];
      var isSuspicious := labels[i] == OutlierLabel;
      var confidence := if isSuspicious then 1.0 else 0.0;
      results := results + [ScanResult(row.ssid, row.bssid, row.signalMean, row.signalVariance,
                                       row.channel, isSuspicious, confidence)];
    }
  }

  /** The number of rows the detector labelled as outliers. */
  function CountOutliers(labels: seq<int>): (n: nat)
    ensures n <= |labels|
    ensures n == 0 <==> OutlierLabel !in labels
  {
    if labels == [] then 0 else (if labels[0] == OutlierLabel then 1 else 0) + CountOutliers(labels[1..])
  }

  /** Number of results flagged suspicious. */
  function CountSuspicious(results: seq<ScanResult>): (n: nat)
    ensures n <= |results|
    ensures n == 0 <==> forall i :: 0 <= i < |results| ==> !results[i].suspicious
  {
    if results == [] then 0 else (if results[0].suspicious then 1 else 0) + CountSuspicious(results[1..])
  }

  /** `suspiciousCount` equals the number of results flagged suspicious. */
  lemma {:induction false} SuspiciousCountAgrees(results: seq<ScanResult>, table: seq<GroupRow>, labels: seq<int>)
    requires |results| == |table| == |labels|
    requires forall i :: 0 <= i < |table| ==> Describes(results[i], table[i], labels[i])
    ensures CountSuspicious(results) == CountOutliers(labels) <= |results|
  {
    if results != [] {
      assert Describes(results[0], table[0], labels[0]);
      SuspiciousCountAgrees(results[1..], table[1..], labels[1..]);
    }
  }

  datatype Stats = Stats(totalNetworks: nat, suspiciousCount: nat)

  /** The HTTP response body: 200 with results, or 500 with an error message. */
  datatype Response = Success(networks: seq<ScanResult>, stats: Stats) | Failure(error: string)

  const NoNetworksMessage := "No networks found."
  /** pandas refuses a label column whose length differs from the table's. */
  const LengthMismatchMessage := "Length of values does not match length of index"

  /** `scan_wifi`: scan, store, aggregate, label, report. */
  method ScanWifi(history: seq<Record>, scanned: seq<RawBeacon>, vendorOf: string -> string, labels: seq<int>)
    returns (response: Response)
    ensures var networks := KeptRecords(scanned, vendorOf);
      var table := GroupTable(history + networks);
      (networks == [] ==> response == Failure(NoNetworksMessage)) &&
      (networks != [] && |labels| != |table| ==> response == Failure(LengthMismatchMessage)) &&
      (networks != [] && |labels| == |table| ==>
        response.Success? &&
        |response.networks| == |table| == response.stats.totalNetworks &&
        (forall i :: 0 <= i < |table| ==> Describes(response.networks[i], table[i], labels[i])) &&
        response.stats.suspiciousCount == CountOutliers(labels) == CountSuspicious(response.networks))
  {
    var networks := ScanNetworks(scanned, vendorOf);
    if networks == [] {
      return Failure(NoNetworksMessage);
    }
    var all := history + networks;
    var table, vendorColumns := ExtractFeatures(all);
    if |labels| != |table| {
      return Failure(LengthMismatchMessage);
    }
    var results := BuildResults(table, labels);
    SuspiciousCountAgrees(results, table, labels);
    response := Success(results, Stats(|table|, CountOutliers(labels)));
  }

  // ---------------------------------------------------------------------
  // `convert_np_types`
  // ---------------------------------------------------------------------

  /** The Python values a response is built from: dicts (key order kept),
      lists, NumPy scalars and the built-in scalars. */
  datatype PyValue =
    | PyDict(entries: seq<(string, PyValue)>)
    | PyList(items: seq<PyValue>)
    | NpInteger(i: int) | NpFloating(x: real) | NpBool(b: bool)
    | PyInt(i: int) | PyFloat(x: real) | PyBool(b: bool) | PyStr(s: string) | PyNone

  /** `convert_np_types`: NumPy scalars become the matching built-in scalars,
      dicts and lists are rebuilt element by element, anything else is kept. */
  function ConvertNpTypes(v: PyValue): (r: PyValue)
    ensures !r.NpInteger? && !r.NpFloating? && !r.NpBool?
    ensures r.PyDict? <==> v.PyDict?
    ensures r.PyList? <==> v.PyList?
    decreases v
  {
    match v
    case PyDict(es) => PyDict(seq(|es|, i requires 0 <= i < |es| => (es[i].0, ConvertNpTypes(es[i].1))))
    case PyList(xs) => PyList(seq(|xs|, i requires 0 <= i < |xs| => ConvertNpTypes(xs[i])))
    case NpInteger(n) => PyInt(n)
    case NpFloating(x) => PyFloat(x)
    case NpBool(b) => PyBool(b)
    case _ => v
  }

  /** No NumPy scalar anywhere inside. */
  predicate Plain(v: PyValue)
    decreases v
  {
    match v
    case PyDict(es) => forall i :: 0 <= i < |es| ==> Plain(es[i].1)
    case PyList(xs) => forall i :: 0 <= i < |xs| ==> Plain(xs[i])
    case NpInteger(_) => false
    case NpFloating(_) => false
    case NpBool(_) => false
    case _ => true
  }

  /** `w` has the structure of `v`: the same dict keys in the same order, the
      same list lengths, and a scalar wherever `v` has a scalar of the same
      value; a NumPy scalar may have become its built-in counterpart. */
  predicate SameShape(v: PyValue, w: PyValue)
    decreases v
  {
    match v
    case PyDict(es) => w.PyDict? && |w.entries| == |es| &&
      forall i :: 0 <= i < |es| ==> w.entries[i].0 == es[i].0 && SameShape(es[i].1, w.entries[i].1)
    case PyList(xs) => w.PyList? && |w.items| == |xs| &&
      forall i :: 0 <= i < |xs| ==> SameShape(xs[i], w.items[i])
    case NpInteger(n) => w == PyInt(n)
    case NpFloating(x) => w == PyFloat(x)
    case NpBool(b) => w == PyBool(b)
    case _ => w == v
  }

  /** Conversion keeps the structure and every value, and leaves no NumPy scalar. */
  lemma {:induction false} ConvertKeepsShape(v: PyValue)
    ensures SameShape(v, ConvertNpTypes(v))
    ensures Plain(ConvertNpTypes(v))
    decreases v
  {
    match v
    case PyDict(es) =>
      forall i | 0 <= i < |es| ensures SameShape(es[i].1, ConvertNpTypes(es[i].1)) && Plain(ConvertNpTypes(es[i].1)) {
        ConvertKeepsShape(es[i].1);
      }
    case PyList(xs) =>
      forall i | 0 <= i < |xs| ensures SameShape(xs[i], ConvertNpTypes(xs[i])) && Plain(ConvertNpTypes(xs[i])) {
        ConvertKeepsShape(xs[i]);
      }
    case _ =>
  }

  /** A value without NumPy scalars is returned unchanged. */
  lemma {:induction false} ConvertPlainIsIdentity(v: PyValue)
    requires Plain(v)
    ensures ConvertNpTypes(v) == v
    decreases v
  {
    match v
    case PyDict(es) =>
      forall i | 0 <= i < |es| ensures ConvertNpTypes(es[i].1) == es[i].1 {
        ConvertPlainIsIdentity(es[i].1);
      }
      assert seq(|es|, i requires 0 <= i < |es| => (es[i].0, ConvertNpTypes(es[i].1))) == es;
    case PyList(xs) =>
      forall i | 0 <= i < |xs| ensures ConvertNpTypes(xs[i]) == xs[i] {
        ConvertPlainIsIdentity(xs[i]);
      }
      assert seq(|xs|, i requires 0 <= i < |xs| => ConvertNpTypes(xs[i])) == xs;
    case _ =>
  }

  /** Converting twice is converting once. */
  lemma ConvertIdempotent(v: PyValue)
    ensures ConvertNpTypes(ConvertNpTypes(v)) == ConvertNpTypes(v)
  {
    ConvertKeepsShape(v);
    ConvertPlainIsIdentity(ConvertNpTypes(v));
  }

  /** One result as the dict `scan_wifi` builds. */
  function ResultValue(r: ScanResult): PyValue {
    PyDict([("ssid", PyStr(r.ssid)), ("bssid", PyStr(r.bssid)),
            ("mean_signal", PyFloat(r.meanSignal)), ("signal_std", PyFloat(r.signalVariance)),
            ("channel", PyInt(r.channel)), ("suspicious", PyBool(r.suspicious)),
            ("confidence", PyFloat(r.confidence))])
  }

  /** The successful response as the dict handed to `convert_np_types`. */
  function ResponseValue(networks: seq<ScanResult>, stats: Stats): PyValue {
    PyDict([("networks", PyList(seq(|networks|, i requires 0 <= i < |networks| => ResultValue(networks[i])))),
            ("stats", PyDict([("totalNetworks", PyInt(stats.totalNetworks)),
                              ("suspiciousCount", PyInt(stats.suspiciousCount))]))])
  }

  /** Every scalar of the response is already converted by `scan_wifi`, so
      `convert_np_types` returns it unchanged. */
  lemma ResponseNeedsNoConversion(networks: seq<ScanResult>, stats: Stats)
    ensures ConvertNpTypes(ResponseValue(networks, stats)) == ResponseValue(networks, stats)
  {
    var v := ResponseValue(networks, stats);
    assert Plain(v.entries[0].1) by {
      forall i | 0 <= i < |networks| ensures Plain(ResultValue(networks[i])) {
        var es := ResultValue(networks[i]).entries;
        assert forall k :: 0 <= k < |es| ==> Plain(es[k].1);
      }
    }
    assert Plain(v.entries[1].1) by {
      var es := v.entries[1].1.entries;
      assert forall k :: 0 <= k < |es| ==> Plain(es[k].1);
    }
    ConvertPlainIsIdentity(v);
  }
}

/** The dashboard page's decision logic (app/page.tsx): the network list
    filter driven by the SSID search box and the type selector, and the
    defensive normalisation of the statistics the scan service returns. */
module Dashboard {
  import opened Text
  import RichScanner

  /** The fields of a network entry the page filters on. */
  datatype Network = Network(ssid: string, bssid: string, suspicious: bool)

  // ---------------------------------------------------------------------
  // `filteredNetworks`
  // ---------------------------------------------------------------------

  /** The search box matches a network whose SSID contains the search text,
      ignoring case on both sides. */
  predicate MatchesSsid(n: Network, filterSsid: string)
    ensures filterSsid == "" ==> MatchesSsid(n, filterSsid)
    ensures MatchesSsid(n, filterSsid) ==> |filterSsid| <= |n.ssid|
  {
    Contains(Lower(n.ssid), Lower(filterSsid))
  }

  /** The type selector: "all", "suspicious" or "normal"; any other value matches nothing. */
  predicate MatchesType(n: Network, filterType: string)
    ensures MatchesType(n, filterType) ==> filterType == "all" || filterType == "suspicious" || filterType == "normal"
  {
    filterType == "all" ||
    (filterType == "suspicious" && n.suspicious) ||
    (filterType == "normal" && !n.suspicious)
  }

  predicate Shown(n: Network, filterSsid: string, filterType: string) {
    MatchesSsid(n, filterSsid) && MatchesType(n, filterType)
  }

  /** `filteredNetworks`: the shown networks, in list order. */
  function FilterNetworks(networks: seq<Network>, filterSsid: string, filterType: string): (r: seq<Network>)
    ensures |r| <= |networks|
    ensures forall n :: n in r <==> n in networks && Shown(n, filterSsid, filterType)
  {
    if networks == [] then []
    else
      (if Shown(networks[0], filterSsid, filterType) then [networks[0]] else []) +
      FilterNetworks(networks[1..], filterSsid, filterType)
  }

  /** `idx` picks, in increasing positions of `b`, the elements of `a`. */
  predicate Embeds(a: seq<Network>, b: seq<Network>, idx: seq<int>) {
    |idx| == |a| &&
    (forall k :: 0 <= k < |idx| ==> 0 <= idx[k] < |b| && a[k] == b[idx[k]]) &&
    (forall k, l :: 0 <= k < l < |idx| ==> idx[k] < idx[l])
  }

  function Shift(idx: seq<int>): (r: seq<int>)
    ensures |r| == |idx|
  {
    seq(|idx|, k requires 0 <= k < |idx| => idx[k] + 1)
  }

  /** An embedding survives putting the same element in front of both lists. */
  lemma EmbedsCons(n: Network, a: seq<Network>, b: seq<Network>, idx: seq<int>)
    requires Embeds(a, b, idx)
    ensures Embeds([n] + a, [n] + b, [0] + Shift(idx))
  {
    var a', b', idx' := [n] + a, [n] + b, [0] + Shift(idx);
    forall k | 1 <= k < |idx'| ensures 0 <= idx'[k] < |b'| && a'[k] == b'[idx'[k]] {
      assert idx'[k] == idx[k - 1] + 1 && a'[k] == a[k - 1];
    }
  }

  /** An embedding survives putting an element in front of the larger list. */
  lemma EmbedsSkip(n: Network, a: seq<Network>, b: seq<Network>, idx: seq<int>)
    requires Embeds(a, b, idx)
    ensures Embeds(a, [n] + b, Shift(idx))
  {
  }

  /** The filtered list is a subsequence of the original: the shown networks
      keep their relative order. */
  lemma {:induction false} FilterIsSubsequence(networks: seq<Network>, filterSsid: string, filterType: string)
    ensures exists idx :: Embeds(FilterNetworks(networks, filterSsid, filterType), networks, idx)
  {
    var r := FilterNetworks(networks, filterSsid, filterType);
    if networks == [] {
      assert Embeds(r, networks, []);
    } else {
      var n, tail := networks[0], networks[1..];
      var tr := FilterNetworks(tail, filterSsid, filterType);
      FilterIsSubsequence(tail, filterSsid, filterType);
      var ti :| Embeds(tr, tail, ti);
      assert networks == [n] + tail;
      if Shown(n, filterSsid, filterType) {
        EmbedsCons(n, tr, tail, ti);
        assert Embeds(r, networks, [0] + Shift(ti));
      } else {
        EmbedsSkip(n, tr, tail, ti);
        assert Embeds(r, networks, Shift(ti));
      }
    }
  }

  /** With an empty search box and type "all" every network is shown. */
  lemma {:induction false} FilterNothing(networks: seq<Network>)
    ensures FilterNetworks(networks, "", "all") == networks
  {
    if networks != [] {
      ContainsEmpty(Lower(networks[0].ssid));
      FilterNothing(networks[1..]);
    }
  }

  /** The search is case-insensitive: the box's contents and their lower-case
      form select the same networks. */
  lemma {:induction false} FilterCaseInsensitive(networks: seq<Network>, filterSsid: string, filterType: string)
    ensures FilterNetworks(networks, Lower(filterSsid), filterType) == FilterNetworks(networks, filterSsid, filterType)
  {
    LowerIdempotent(filterSsid);
    if networks != [] {
      FilterCaseInsensitive(networks[1..], filterSsid, filterType);
    }
  }

  /** A type other than the three the selector offers shows nothing. */
  lemma {:induction false} FilterUnknownType(networks: seq<Network>, filterSsid: string, filterType: string)
    requires filterType != "all" && filterType != "suspicious" && filterType != "normal"
    ensures FilterNetworks(networks, filterSsid, filterType) == []
  {
    if networks != [] {
      FilterUnknownType(networks[1..], filterSsid, filterType);
    }
  }

  /** What the three selector values mean for one network. */
  lemma ShownByType(n: Network, filterSsid: string)
    ensures Shown(n, filterSsid, "all") == MatchesSsid(n, filterSsid)
    ensures Shown(n, filterSsid, "suspicious") == (MatchesSsid(n, filterSsid) && n.suspicious)
    ensures Shown(n, filterSsid, "normal") == (MatchesSsid(n, filterSsid) && !n.suspicious)
  {
  }

  /** For one search text, "suspicious" and "normal" split "all": together
      they hold each shown network as often as "all" does. */
  lemma {:induction false} FilterPartition(networks: seq<Network>, filterSsid: string)
    ensures multiset(FilterNetworks(networks, filterSsid, "suspicious")) +
            multiset(FilterNetworks(networks, filterSsid, "normal")) ==
            multiset(FilterNetworks(networks, filterSsid, "all"))
  {
    if networks != [] {
      var n, tail := networks[0], networks[1..];
      FilterPartition(tail, filterSsid);
      ShownByType(n, filterSsid);
      var s := FilterNetworks(tail, filterSsid, "suspicious");
      var m := FilterNetworks(tail, filterSsid, "normal");
      var a := FilterNetworks(tail, filterSsid, "all");
      var shown := MatchesSsid(n, filterSsid);
      assert FilterNetworks(networks, filterSsid, "suspicious") == (if shown && n.suspicious then [n] else []) + s;
      assert FilterNetworks(networks, filterSsid, "normal") == (if shown && !n.suspicious then [n] else []) + m;
      assert FilterNetworks(networks, filterSsid, "all") == (if shown then [n] else []) + a;
    }
  }

  /** No network is shown both under "suspicious" and under "normal". */
  lemma FilterTypesDisjoint(networks: seq<Network>, filterSsid: string, n: Network)
    ensures !(n in FilterNetworks(networks, filterSsid, "suspicious") && n in FilterNetworks(networks, filterSsid, "normal"))
  {
  }

  /** Filtering the filtered list again with the same settings changes nothing. */
  lemma {:induction false} FilterIdempotent(networks: seq<Network>, filterSsid: string, filterType: string)
    ensures var r := FilterNetworks(networks, filterSsid, filterType);
      FilterNetworks(r, filterSsid, filterType) == r
  {
    if networks != [] {
      var n := networks[0];
      FilterIdempotent(networks[1..], filterSsid, filterType);
      var tail := FilterNetworks(networks[1..], filterSsid, filterType);
      if Shown(n, filterSsid, filterType) {
        var r := [n] + tail;
        assert r[0] == n && r[1..] == tail;
        assert FilterNetworks(r, filterSsid, filterType) == [n] + FilterNetworks(tail, filterSsid, filterType);
      } else {
        assert FilterNetworks(networks, filterSsid, filterType) == tail;
      }
    }
  }

  // ---------------------------------------------------------------------
  // The stats normalisation in `handleScan`
  // ---------------------------------------------------------------------

  /** A JSON value as `response.json()` yields it (numbers are finite). */
  datatype JsValue =
    | JsNumber(n: real)
    | JsString(s: string)
    | JsBool(b: bool)
    | JsNull
    | JsArray(items: seq<JsValue>)
    | JsObject(fields: map<string, JsValue>)

  datatype ScanStats = ScanStats(totalNetworks: real, suspiciousCount: real, avgSignal: real, avgBssidCount: real)

  /** The number stored under `key`, or 0 when the key is missing or holds
      anything other than a number. */
  function NumberOrZero(fields: map<string, JsValue>, key: string): real {
    if key in fields && fields[key].JsNumber? then fields[key].n else 0.0
  }

  /** `x` is what the page reads under `key`: 0, or the number stored there. */
  predicate ReadsAs(fields: map<string, JsValue>, key: string, x: real) {
    x == 0.0 || (key in fields && fields[key] == JsNumber(x))
  }

  /** The statistics the page keeps: every field is 0 or the number the
      service sent under its key, and a number that was sent is kept. */
  function NormaliseStats(fields: map<string, JsValue>): (s: ScanStats)
    ensures ReadsAs(fields, "totalNetworks", s.totalNetworks) && ReadsAs(fields, "suspiciousCount", s.suspiciousCount)
    ensures ReadsAs(fields, "avgSignal", s.avgSignal) && ReadsAs(fields, "avgBssidCount", s.avgBssidCount)
    ensures "totalNetworks" in fields && fields["totalNetworks"].JsNumber? ==> s.totalNetworks == fields["totalNetworks"].n
    ensures "suspiciousCount" in fields && fields["suspiciousCount"].JsNumber? ==> s.suspiciousCount == fields["suspiciousCount"].n
    ensures "avgSignal" in fields && fields["avgSignal"].JsNumber? ==> s.avgSignal == fields["avgSignal"].n
    ensures "avgBssidCount" in fields && fields["avgBssidCount"].JsNumber? ==> s.avgBssidCount == fields["avgBssidCount"].n
  {
    ScanStats(NumberOrZero(fields, "totalNetworks"), NumberOrZero(fields, "suspiciousCount"),
              NumberOrZero(fields, "avgSignal"), NumberOrZero(fields, "avgBssidCount"))
  }

  /** The JSON object of a full set of statistics. */
  function StatsJson(s: ScanStats): map<string, JsValue> {
    map["totalNetworks" := JsNumber(s.totalNetworks), "suspiciousCount" := JsNumber(s.suspiciousCount),
        "avgSignal" := JsNumber(s.avgSignal), "avgBssidCount" := JsNumber(s.avgBssidCount)]
  }

  /** Statistics that arrive complete are taken over unchanged, so
      normalising is idempotent. */
  lemma NormaliseStatsRoundTrip(s: ScanStats, fields: map<string, JsValue>)
    ensures NormaliseStats(StatsJson(s)) == s
    ensures NormaliseStats(StatsJson(NormaliseStats(fields))) == NormaliseStats(fields)
  {
  }

  /** Only the four known keys matter; any other content is ignored. */
  lemma NormaliseStatsIgnoresOtherKeys(fields: map<string, JsValue>, key: string, v: JsValue)
    requires key != "totalNetworks" && key != "suspiciousCount" && key != "avgSignal" && key != "avgBssidCount"
    ensures NormaliseStats(fields[key := v]) == NormaliseStats(fields)
  {
  }

  /** The `stats` object the Flask service sends. */
  function FlaskStatsJson(s: RichScanner.Stats): map<string, JsValue> {
    map["totalNetworks" := JsNumber(s.totalNetworks as real), "suspiciousCount" := JsNumber(s.suspiciousCount as real)]
  }

  /** The Flask service sends no `avgSignal` and no `avgBssidCount`; the page
      shows 0 for both and keeps the two counts. */
  lemma FlaskStatsNormalised(s: RichScanner.Stats)
    ensures NormaliseStats(FlaskStatsJson(s)) ==
      ScanStats(s.totalNetworks as real, s.suspiciousCount as real, 0.0, 0.0)
  {
  }
}

# SecScanner evil-twin detector: a Dafny model of its scan shaping and dashboard logic

SecScanner scans nearby WiFi access points, stores every scan in a history
file, lets an isolation forest pick out anomalous networks, and shows the
verdict on a web dashboard. The detector itself is a statistics library; this
project models the logic around it and proves what that logic promises:

- **`ScannerApi`** (scripts/wifi_scanner_api.py, the script the API route
  runs). It drops hidden networks and aggregates history and scan per SSID:
  the number of distinct BSSIDs and the mean signal. It outer-joins the two
  tables with 0 for missing cells, flags each scanned network whose SSID the
  detector marked, and computes the summary statistics.
- **`RichScanner`** (scripts/wifi_scanner.py, the Flask service the dashboard
  calls). It maps frequencies to 802.11 channel numbers and keeps named
  networks with their vendor. Per (SSID, BSSID) pair it aggregates the mean,
  the spread and the most frequent channel, merges in the latest vendor and
  one-hot encodes it. It turns per-row detector labels into results and
  counts. `convert_np_types` is modelled too.
- **`Dashboard`** (app/page.tsx). It models the network filter behind the
  search box and type selector, and the defensive normalisation of the
  returned statistics.
- **`NetworkCard`** (components/network-card.tsx). It models the signal
  percentage, its colour and the lit bars.
- **`StatsGrid`** (components/stats-grid.tsx). It models the threat level
  and its badge.
- **Shared modules.** `Text` holds Python's `str.strip`, the ASCII part of
  `toLowerCase`, `includes`, and Python's string order. `Aggregates` holds
  the pandas aggregations `mean`, `std` (as a variance) and `mode().iloc[0]`.
  `Lists` holds the "normalise, then append if kept" pattern of both scan
  loops.

The detector's verdict is an input. `ScannerApi` takes a label per SSID row
of the joined table; `RichScanner` takes one label per row of the aggregated
table. In both, -1 means anomalous. Other inputs:

- The stored history is a sequence of records. The scan is appended to it
  before the history is read back.
- The radio's scan results are a sequence of beacons.
- The OUI vendor lookup is an uninterpreted function from BSSID to string.

JavaScript numbers are exact reals, and NaN appears where the card can meet
it.

Three behaviours of the code as written are stated as lemmas:

- **History-only SSIDs count as suspicious.** In `ScannerApi`,
  `suspiciousCount` counts anomalous SSIDs of the whole history, so it can
  exceed `totalNetworks` (`SuspiciousCountIncludesHistory`).
- **The dashboard shows 0 for two statistics.** The page fetches from the
  Flask service, which sends neither `avgSignal` nor `avgBssidCount`
  (`FlaskStatsNormalised`).
- **Every card shows one red bar.** The Flask service's network entries have
  no `signal` field, so each card's indicator comes out as NaN: one
  destructive bar (`MissingSignalShowsOneBar`).

## Model

| member | source | states |
|---|---|---|
| Text.LeadingSpaces | scripts/wifi_scanner_api.py:28 | the count is at most the length; every character before it is whitespace; the character at it is not |
| Text.TrimmedLength | scripts/wifi_scanner_api.py:28 | every character from this length on is whitespace; the last character kept is not |
| Text.Strip | scripts/wifi_scanner_api.py:28 | `strip()` never lengthens a string, and a non-empty result neither starts nor ends with whitespace |
| Text.StripIsTrimmedSlice | scripts/wifi_scanner_api.py:28-29 | `strip()` returns one contiguous piece of the input; only whitespace lies before and after it; the piece neither starts nor ends with whitespace |
| Text.StripEmptyIffAllSpace | scripts/wifi_scanner.py:34-46 | a stripped SSID is empty exactly when the SSID is all whitespace, so exactly those beacons are dropped |
| Text.StripIdempotent | scripts/wifi_scanner.py:34-35 | stripping an already stripped string changes nothing |
| Text.Lower | app/page.tsx:94 | lower-casing keeps the length, leaves no upper-case ASCII letter, and changes a character only by turning an upper-case letter into its lower-case partner (32 code points on); every other character stays as it is |
| Text.LowerIdempotent | app/page.tsx:94 | lower-casing twice is lower-casing once |
| Text.Contains | app/page.tsx:94 | `includes` holds for the empty needle, and only for needles no longer than the haystack |
| Text.ContainsIffOccurs | app/page.tsx:94 | `includes` holds exactly when the needle occurs at some offset of the haystack |
| Text.ContainsEmpty | app/page.tsx:94 | the empty search text occurs in every SSID |
| Text.IsSpace | scripts/wifi_scanner_api.py:28 | the characters Python's `str.strip()` removes; defined by its body (Python's `str.isspace` set); `Text.StripIsTrimmedSlice` states what stripping with it does |
| Text.StrLess | scripts/wifi_scanner.py:77 | Python's `<` on strings, the order groupby sorts its keys in; defined by its body (lexicographic by code point, a proper prefix first); `Text.StrLessIrreflexive`, `Text.StrLessTransitive` and `Text.StrLessTotal` prove it a strict total order |
| Text.StrLessIrreflexive | scripts/wifi_scanner.py:77 | Python's string order: no string precedes itself |
| Text.StrLessTransitive | scripts/wifi_scanner.py:77 | Python's string order is transitive |
| Text.StrLessTotal | scripts/wifi_scanner.py:77 | any two different strings are ordered one way or the other |
| Aggregates.Mean | scripts/wifi_scanner_api.py:56 | the mean of a non-empty column, taken once per value, adds up to the column's sum |
| Aggregates.SumAtLeast | scripts/wifi_scanner_api.py:56 | a lower bound of every value times the count bounds the sum from below |
| Aggregates.SumAtMost | scripts/wifi_scanner_api.py:56 | an upper bound of every value times the count bounds the sum from above |
| Aggregates.MeanWithinRange | scripts/wifi_scanner_api.py:56 | the mean of a non-empty column lies between two of its values |
| Aggregates.SampleVariance | scripts/wifi_scanner.py:78-92 | the spread is never negative, and it is 0 for a single sample, the NaN that line 92 fills with 0; `Aggregates.SampleVarianceIsSquaredDeviations` proves it equal to the textbook sample variance |
| Aggregates.SquaredDeviations | scripts/wifi_scanner.py:78 | reference definition of the spread: the sum of the squared distances of the values from a centre, never negative |
| Aggregates.ScaledSquaresAsReal | scripts/wifi_scanner.py:78 | the integer sum of the deviations scaled by `n` and squared equals the same sum taken over the reals |
| Aggregates.ScaledSquaresAreWeighted | scripts/wifi_scanner.py:78 | term by term, a deviation scaled by `n` and squared is `n * n` times the squared distance from the centre `s / n` |
| Aggregates.WeightFactorsOut | scripts/wifi_scanner.py:78 | a common weight on every squared distance factors out of the sum |
| Aggregates.SampleVarianceIsSquaredDeviations | scripts/wifi_scanner.py:78 | with two or more samples the spread is the sum of the squared distances from the mean divided by `n - 1`, pandas' `std` with ddof = 1, squared |
| Aggregates.ScaledSquaredDeviationsZero | scripts/wifi_scanner.py:78 | the summed squared deviations vanish exactly when every value equals the mean |
| Aggregates.MeanOfConstant | scripts/wifi_scanner.py:78 | a column of one repeated value has that value as its mean |
| Aggregates.SampleVarianceZeroIffConstant | scripts/wifi_scanner.py:78-92 | with two or more samples the spread is non-negative, and it is 0 exactly when all samples are equal |
| Aggregates.BestCandidate | scripts/wifi_scanner.py:79 | the chosen candidate is one of the candidates and outnumbers, or ties and is not larger than, every other |
| Aggregates.Mode | scripts/wifi_scanner.py:79 | `mode().iloc[0]`: a value of the column that no value outnumbers, the smallest among the most frequent |
| Lists.FilterMap | scripts/wifi_scanner_api.py:27-32 | a scan keeps at most as many records as the radio reported |
| Lists.FilterMapMembership | scripts/wifi_scanner_api.py:27-32 | a record is kept exactly when some kept result is normalised into it |
| Lists.FilterMapSnoc | scripts/wifi_scanner_api.py:27-32 | one more result appends its record exactly when it passes the test |
| Lists.FilterMapAppend | scripts/wifi_scanner_api.py:27-32 | filtering two batches in turn equals filtering them together: scan order is kept |
| ScannerApi.Normalise | scripts/wifi_scanner_api.py:28-30 | the record of one beacon: SSID and BSSID stripped, signal as reported; defined by its body; `ScannerApi.KeptObservationsMembership` uses it |
| ScannerApi.Kept | scripts/wifi_scanner_api.py:31 | a beacon is kept exactly when its stripped SSID is not empty; defined by its body; `Text.StripEmptyIffAllSpace` says which SSIDs those are |
| ScannerApi.KeptObservations | scripts/wifi_scanner_api.py:27-32 | the scan loop's output, the kept beacons normalised in radio order; defined by its body; characterised by `ScannerApi.KeptObservationsMembership` and computed by `ScannerApi.ScanNetworks` |
| ScannerApi.KeptObservationsMembership | scripts/wifi_scanner_api.py:27-32 | a record is kept exactly when a beacon with a non-blank SSID normalises to it; every kept SSID is non-empty; no more records than beacons |
| ScannerApi.ScanNetworks | scripts/wifi_scanner_api.py:25-34 | the scan loop yields exactly the kept records, in scan order |
| ScannerApi.SignalsFor | scripts/wifi_scanner_api.py:56 | the signals grouped under an SSID are one per row with that SSID: every such row contributes its signal, no other row does, and their number is the number of such rows; `ScannerApi.SignalsForAreRowSignals` fixes them exactly, multiplicities included |
| ScannerApi.RowsFor | scripts/wifi_scanner_api.py:54 | the history rows of one SSID group: each row with the SSID as many times as the history holds it, and no other row |
| ScannerApi.SignalsForAreRowSignals | scripts/wifi_scanner_api.py:54-56 | the signals averaged for an SSID are exactly the signals of its group's rows, in history order and with their multiplicities |
| ScannerApi.GroupBySsid | scripts/wifi_scanner_api.py:54-57 | the per-SSID table is keyed by exactly the SSIDs seen |
| ScannerApi.ExtractFeatures | scripts/wifi_scanner_api.py:52-58 | `extract_features` is the per-SSID table of the whole history, keyed by exactly its SSIDs; `ScannerApi.GroupBySsidRows` gives each entry |
| ScannerApi.BssidsForAtMostRows | scripts/wifi_scanner_api.py:55 | an SSID's distinct BSSIDs are no more than its rows |
| ScannerApi.GroupBySsidRows | scripts/wifi_scanner_api.py:52-58 | the table is keyed by exactly the seen SSIDs; the BSSID count is the number of distinct BSSIDs seen under the SSID, between 1 and its row count; the mean signal is the mean of the signals of exactly its rows (`ScannerApi.RowsFor`), with their multiplicities, and lies between two of them |
| ScannerApi.OuterJoin | scripts/wifi_scanner_api.py:67 | the joined table is keyed by the SSIDs of either side |
| ScannerApi.OuterJoinRows | scripts/wifi_scanner_api.py:67 | the joined keys are the union of both sides; each side's columns are copied where it has the SSID and 0 where it has not |
| ScannerApi.PrepareCurrentFeatures | scripts/wifi_scanner_api.py:60-68 | the feature table is keyed by the historical SSIDs together with those of the current scan |
| ScannerApi.SsidsOfAppend | scripts/wifi_scanner_api.py:97-101 | the SSIDs of the saved history are those stored before plus those of the scan |
| ScannerApi.HistoryCoversScan | scripts/wifi_scanner_api.py:97-103 | because the scan is saved before the history is read, the joined table is keyed by the history's SSIDs, and for each scanned SSID 1 <= current BSSID count <= historical count |
| ScannerApi.SuspiciousSsids | scripts/wifi_scanner_api.py:107 | the anomalous SSIDs are rows of the feature table, each labelled -1 |
| ScannerApi.FormatNetworks | scripts/wifi_scanner_api.py:111-123 | one entry per scanned network in scan order, with SSID, BSSID and signal copied; flagged exactly when its SSID is anomalous; confidence 0.85 or 0.92; same SSID, same flag |
| ScannerApi.AvgSignalWithinRange | scripts/wifi_scanner_api.py:128 | the average signal of a non-empty scan lies between the weakest and the strongest signal |
| ScannerApi.RunScan | scripts/wifi_scanner_api.py:80-139 | an empty scan gives no networks and all four statistics 0; otherwise one reported entry per network, `totalNetworks` is their number, `suspiciousCount` is the number of anomalous SSIDs of the joined table, `avgSignal` is the mean signal, `avgBssidCount` is 1.2 |
| ScannerApi.SuspiciousSsidsOfHistory | scripts/wifi_scanner_api.py:100-107 | the anomalous SSIDs are the history's SSIDs labelled -1, whether or not they were scanned now |
| ScannerApi.HistoryFlagsExceedScan | scripts/wifi_scanner_api.py:100-107 | when every scanned SSID and one more SSID of the history are labelled -1, the flagged history SSIDs outnumber the scanned SSIDs |
| ScannerApi.SuspiciousCountIncludesHistory | scripts/wifi_scanner_api.py:105-127 | an SSID stored only by an earlier scan and labelled -1 is counted on top of the scanned SSIDs, so a one-network scan whose SSID is also labelled -1 reports a `suspiciousCount` of at least 2, more than `totalNetworks` |
| RichScanner.ChannelOf | scripts/wifi_scanner.py:39-44 | every channel number is 0 (unknown), 1-13 or 36-165 |
| RichScanner.ChannelOfBands | scripts/wifi_scanner.py:39-44 | 2412-2472 MHz maps to channels 1-13 and 5180-5825 MHz to 36-165, each frequency within its channel's 5 MHz step; every other frequency maps to 0 |
| RichScanner.ChannelCentreRoundTrip | scripts/wifi_scanner.py:39-42 | the centre frequency of channels 1-13 and 36-165 maps back to that channel |
| RichScanner.Normalise | scripts/wifi_scanner.py:34-52 | the record of one beacon: SSID and BSSID stripped, signal as reported, channel from the frequency, vendor of the stripped BSSID; defined by its body; `RichScanner.KeptRecordsMembership` uses it |
| RichScanner.Kept | scripts/wifi_scanner.py:46 | a beacon is kept exactly when its stripped SSID is not empty; defined by its body |
| RichScanner.KeptRecords | scripts/wifi_scanner.py:33-53 | the scan loop's output, the kept beacons normalised in radio order; defined by its body; characterised by `RichScanner.KeptRecordsMembership` and `RichScanner.KeptRecordsSnoc`, and computed by `RichScanner.ScanNetworks` |
| RichScanner.KeptRecordsSnoc | scripts/wifi_scanner.py:33-53 | each loop iteration appends the normalised record exactly when its SSID is not blank |
| RichScanner.KeptRecordsMembership | scripts/wifi_scanner.py:33-53 | a record is kept exactly when a beacon with a non-blank SSID normalises to it; kept records have a non-empty SSID and a channel that is 0, 1-13 or 36-165 |
| RichScanner.ScanNetworks | scripts/wifi_scanner.py:32-54 | the scan loop yields exactly the kept records, in scan order |
| RichScanner.KeyLessIrreflexive | scripts/wifi_scanner.py:77 | the (SSID, BSSID) order is irreflexive |
| RichScanner.KeyLessTransitive | scripts/wifi_scanner.py:77 | the (SSID, BSSID) order is transitive |
| RichScanner.KeyLessTotal | scripts/wifi_scanner.py:77 | any two different (SSID, BSSID) pairs are ordered |
| RichScanner.StrictlySortedDistinct | scripts/wifi_scanner.py:77 | a strictly increasing key list has no duplicates |
| RichScanner.InsertKey | scripts/wifi_scanner.py:77 | one step of groupby's sorted key index: put a key in its place unless it is there; defined by its body; characterised by `RichScanner.InsertKeySorted` |
| RichScanner.GroupKeys | scripts/wifi_scanner.py:77-82 | the (SSID, BSSID) index of the aggregated table; defined by its body; characterised by `RichScanner.GroupKeysSortedAndComplete` |
| RichScanner.InsertKeySorted | scripts/wifi_scanner.py:77 | inserting a key keeps the key list strictly sorted and adds exactly that key |
| RichScanner.GroupKeysSortedAndComplete | scripts/wifi_scanner.py:77-82 | the aggregated table has exactly one row per distinct (SSID, BSSID) pair, in increasing key order |
| RichScanner.GroupOf | scripts/wifi_scanner.py:77-80 | a group holds every history row with its key, as often as it occurs there, and no other row; it is non-empty for a key that occurs |
| RichScanner.LatestVendor | scripts/wifi_scanner.py:85-86 | the merged vendor is the vendor of some row with that BSSID, or empty when none has it |
| RichScanner.LatestVendorIsLast | scripts/wifi_scanner.py:85-86 | the merged vendor of a BSSID is the vendor of its last row |
| RichScanner.AggregateGroup | scripts/wifi_scanner.py:77-95 | the aggregated row names its pair, its spread is never negative and 0 for a single sample, and `SSID_len` is the SSID's length |
| RichScanner.GroupTable | scripts/wifi_scanner.py:77-82 | the table has one row per group key, in the keys' order |
| RichScanner.GroupTableRow | scripts/wifi_scanner.py:77-95 | each row's pair occurs in the history; its mean and spread are those of the signals of all of the pair's rows; its mean lies between two of them; a single-sample group has spread 0; the spread is never negative; the channel is the group's mode; `SSID_len` is the SSID's length |
| RichScanner.GroupVendors | scripts/wifi_scanner.py:84-86 | the merged `Vendor` column has one entry per row of the aggregated table; `RichScanner.GroupVendorsAreLatest` says which vendor |
| RichScanner.GroupVendorsAreLatest | scripts/wifi_scanner.py:84-86 | each row's vendor is the one recorded last for its BSSID |
| RichScanner.FirstIndex | scripts/wifi_scanner.py:69 | the position of a value's first occurrence: it holds the value, and no earlier position does |
| RichScanner.Unique | scripts/wifi_scanner.py:69 | `unique()` lists every vendor of the column exactly once, ordered by where each first occurs |
| RichScanner.OneHot | scripts/wifi_scanner.py:67-73 | one column per distinct vendor, each as long as the table, no two with the same name |
| RichScanner.OneHotExactlyOne | scripts/wifi_scanner.py:67-73 | after encoding, each row has exactly one vendor column equal to 1, the one named after its own vendor; all other vendor columns are 0 |
| RichScanner.EncodeVendor | scripts/wifi_scanner.py:67-73 | the encoding loop adds one column per distinct vendor, in the order `Unique` gives (first appearance) |
| RichScanner.ExtractFeatures | scripts/wifi_scanner.py:75-100 | yields the aggregated table and its vendor columns, each column as long as the table |
| RichScanner.BuildResults | scripts/wifi_scanner.py:141-154 | one result per table row in row order, with the row's pair, mean, spread and channel; suspicious exactly for label -1; confidence 1.0 when suspicious, else 0.0 |
| RichScanner.CountOutliers | scripts/wifi_scanner.py:157 | the outlier count is at most the number of rows, and 0 exactly when no row is labelled -1 |
| RichScanner.CountSuspicious | scripts/wifi_scanner.py:143-157 | the number of results flagged suspicious is at most the number of results, and 0 exactly when none is flagged |
| RichScanner.SuspiciousCountAgrees | scripts/wifi_scanner.py:156-157 | the number of -1 labels equals the number of results flagged suspicious, and it is at most the number of results |
| RichScanner.ScanWifi | scripts/wifi_scanner.py:121-173 | no kept network gives the 500 error "No networks found."; otherwise one result per (SSID, BSSID) pair of the saved history; `totalNetworks` is their number; `suspiciousCount` equals both the -1 labels and the flagged results |
| RichScanner.ConvertNpTypes | scripts/wifi_scanner.py:107-119 | the converted value is never a NumPy scalar, and it is a dict or a list exactly when the input is |
| RichScanner.ConvertKeepsShape | scripts/wifi_scanner.py:107-119 | conversion keeps dict keys and their order, list lengths and order, and every value; NumPy scalars become the matching built-in ones and none remain |
| RichScanner.ConvertPlainIsIdentity | scripts/wifi_scanner.py:107-119 | a value without NumPy scalars is returned unchanged |
| RichScanner.ConvertIdempotent | scripts/wifi_scanner.py:107-119 | converting twice is converting once |
| RichScanner.ResultValue | scripts/wifi_scanner.py:146-154 | the dict of one result, with its seven keys; defined by its body; `RichScanner.ResponseNeedsNoConversion` states what converting it does |
| RichScanner.ResponseValue | scripts/wifi_scanner.py:161-167 | the response dict, holding the results and the two counts; defined by its body; characterised by `RichScanner.ResponseNeedsNoConversion` |
| RichScanner.ResponseNeedsNoConversion | scripts/wifi_scanner.py:146-169 | the response `scan_wifi` builds already holds only built-in scalars, so the conversion returns it unchanged |
| Dashboard.MatchesSsid | app/page.tsx:94 | an empty search text matches every network, and a matching search text is no longer than the SSID |
| Dashboard.MatchesType | app/page.tsx:95-98 | only the three selector values "all", "suspicious" and "normal" match anything |
| Dashboard.Shown | app/page.tsx:94-99 | a network passes the filter when it matches both the search text and the type; defined by its body; `Dashboard.FilterNetworks` keeps exactly these networks |
| Dashboard.FilterNetworks | app/page.tsx:93-100 | a network is in the filtered list exactly when it is in the list and matches both the search text and the type; never more networks than given |
| Dashboard.FilterIsSubsequence | app/page.tsx:93-100 | the filtered list is an order-preserving subsequence of the networks |
| Dashboard.FilterNothing | app/page.tsx:94-96 | an empty search text with type "all" shows every network |
| Dashboard.FilterCaseInsensitive | app/page.tsx:94 | the search text and its lower-case form select the same networks |
| Dashboard.FilterUnknownType | app/page.tsx:95-98 | a type other than all, suspicious and normal shows nothing |
| Dashboard.ShownByType | app/page.tsx:95-98 | "all" keeps every SSID match, "suspicious" only flagged matches, "normal" only unflagged ones |
| Dashboard.FilterPartition | app/page.tsx:95-98 | for one search text, the "suspicious" and "normal" lists together hold each network exactly as often as the "all" list |
| Dashboard.FilterTypesDisjoint | app/page.tsx:97-98 | no network is shown both as suspicious and as normal |
| Dashboard.FilterIdempotent | app/page.tsx:93-100 | filtering the filtered list again with the same settings changes nothing |
| Dashboard.NormaliseStats | app/page.tsx:74-79 | every statistic the page keeps is 0 or the number the service sent under its key, and each of the four that was sent as a number is kept |
| Dashboard.NormaliseStatsRoundTrip | app/page.tsx:74-79 | complete numeric statistics are taken over unchanged, so normalising is idempotent |
| Dashboard.NormaliseStatsIgnoresOtherKeys | app/page.tsx:74-79 | only the four statistics keys influence the result |
| Dashboard.FlaskStatsNormalised | app/page.tsx:74-79 | the Flask service's statistics keep both counts and show 0 for `avgSignal` and `avgBssidCount` |
| NetworkCard.SignalPercent | components/network-card.tsx:22-23 | a reading gives a percentage exactly when it is a number, and the percentage lies in [0, 100] |
| NetworkCard.SignalPercentFormula | components/network-card.tsx:22-23 | the percentage is (100 - \|signal\|) * 1.5 for 100/3 <= \|signal\| <= 100, 100 below that and 0 above it |
| NetworkCard.SignalPercentAntitone | components/network-card.tsx:22-23 | a reading of larger magnitude never gives a larger percentage |
| NetworkCard.ColorOf | components/network-card.tsx:25-29 | a NaN strength is shown in the destructive colour, and a yellow or primary colour always comes with at least two bars |
| NetworkCard.BarsOf | components/network-card.tsx:31-36 | the number of bars lies in 1..4 |
| NetworkCard.IndicatorMonotone | components/network-card.tsx:25-36 | a stronger percentage never shows fewer bars or a worse colour |
| NetworkCard.FourBarsIffPrimary | components/network-card.tsx:25-36 | four bars are shown exactly when the colour is primary |
| NetworkCard.Clamp | components/network-card.tsx:23 | `Math.max(0, Math.min(100, x))`: the result lies in 0..100; it is `x` inside that range, 100 above it and 0 below it |
| NetworkCard.Bars | components/network-card.tsx:92-106 | the strip always has four bars; `NetworkCard.BarsLitPrefix` says which are lit |
| NetworkCard.BarsLitPrefix | components/network-card.tsx:92-98 | of the four bars, the first `getSignalBars` are lit in the signal colour and the rest muted; at least one is lit |
| NetworkCard.IndicatorThresholds | components/network-card.tsx:22-36 | in dBm magnitude: four bars and primary below 160/3, at least three bars below 200/3, at least two below 80, yellow from 160/3 to below 220/3 |
| NetworkCard.MissingSignalShowsOneBar | components/network-card.tsx:22-36 | a missing signal shows one destructive bar |
| StatsGrid.ThreatLevel | components/stats-grid.tsx:19 | the level is Low exactly when no network is suspicious |
| StatsGrid.ThreatLevelCases | components/stats-grid.tsx:19 | Low exactly for 0, Medium exactly for a non-zero count up to 2, High exactly above 2 |
| StatsGrid.ThreatLevelOfCount | components/stats-grid.tsx:19 | for counts: 0 is Low, 1-2 Medium, more High |
| StatsGrid.ThreatLevelMonotone | components/stats-grid.tsx:19 | more suspicious networks never lower the threat level |
| StatsGrid.ThreatColor | components/stats-grid.tsx:21 | the destructive badge marks exactly the High level |
| StatsGrid.ThreatColorInjective | components/stats-grid.tsx:21 | different threat levels get different badges (secondary, default, destructive) |

## Left out

- The isolation forest's training and prediction are left out because they are a statistics library. Its labels are an input.
- The radio scan through pywifi is left out: interface lookup, `iface.scan()`, the 3-second sleep and the "no wireless interfaces" exception are hardware I/O. A failed scan in the API script returns an empty list, which the model covers as an empty `scanned` input.
- `get_vendor_oui` is left out because it is a wrapper over netaddr's MAC parser. The model takes the vendor as an uninterpreted function of the BSSID.
- CSV persistence is left out. Writing and re-reading the history file is modelled as "earlier records followed by this scan". pandas' type inference on re-reading is not modelled: an SSID such as "NA" would be read back as a missing value, and a numeric SSID as a number.
- ScannerApi.RunScan: the branch for a history file that is missing after the scan was saved is not modelled, because saving a non-empty scan always creates the file.
- ScannerApi.RunScan: `avgSignal` is the exact mean of the signals. The script rounds it with `round(..., 1)`, which is not modelled.
- The exception handlers are left out: the API script's JSON to stderr with `sys.exit(1)`, and the Flask route's generic 500 `{"error": str(e)}`. So are Flask routing, CORS, printing and `json.dumps`. These are process and transport I/O.
- RichScanner.ScanWifi: the mismatch between label and table lengths is modelled as a failure with a fixed message. The detector always returns one label per row, so this path stands for the exception pandas would raise; the exact pandas message is not modelled.
- RichScanner.GroupTableRow: `Signal_std` is carried as its square, the sample variance with ddof = 1. Square roots of reals are not available. The variance is 0 exactly when the standard deviation is 0, and its ordering agrees with the standard deviation's.
- RichScanner.ScanWifi: the `signal_std` field of each result holds that variance, for the same reason.
- Floating point is left out: pandas' float mean and variance, the binary rounding of the 1.5 multiplier, and JavaScript's `toFixed`. Arithmetic is exact over reals; NaN is modelled only where the card meets it, and Infinity not at all.
- Dashboard.NormaliseStats treats JSON numbers as finite reals. A NaN statistic cannot arrive through `response.json()`, which never yields NaN.
- Text.Lower lower-cases ASCII letters only. JavaScript's `toLowerCase` also maps other Unicode letters.
- Text.Contains and Text.Lower work on code points, one Dafny `char` each. JavaScript's `includes` and `toLowerCase` work on UTF-16 code units, so a character outside the Basic Multilingual Plane counts as two units there; the search result differs only for a needle that splits such a pair.
- `handleScan` in app/page.tsx is left out: fetch, React state setters, timers, the progress animation and `alert` are UI side effects. A response without `stats` raises a TypeError that the catch block turns into an alert.
- app/api/scan-wifi/route.ts only spawns the API script and parses its output, so it is left out.
- components/scan-animation.tsx and all JSX markup and styling are left out because they are presentation only.

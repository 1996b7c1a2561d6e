# Market agent core in Dafny

A model of the rule-based core of a small market-data agent. The agent fetches
crypto prices and EUR exchange rates. It flags the assets whose percentage
move reaches an alert threshold and renders a plain-text summary of those
movers.

Modelled here:

- `Movers` (`anomaly.dfy`): `detect_top_movers`.
  - Records are filtered by absolute change (`abs(change) >= threshold`; a missing key counts as 0.0).
  - The survivors are stably sorted by absolute change, largest first.
  - The first `top_n` are kept, with Python slice semantics, so a negative `top_n` also works.
  - The functional specification is `TopMovers`. The method `DetectTopMovers` copies the flagged records into a fresh array, sorts it in place with an insertion sort (`SortByMagnitude`) and slices it. It is proved equal to `TopMovers`.
- `Summary` (`summary.dfy`): `_format_crypto`, `_format_fx` and `build_rule_based_summary`.
  - The sections are given as line lists (`CryptoLines`, `FxLines`, `ReportLines`). The methods build the text the way the code does.
  - Number formatting (`:.2f`, `:.4f`) and `str.title` are parameters of a `Formatter` value. The model says nothing about their output beyond its being a string.
- `Agent` (`agent.dfy`): `_normalise_crypto`. The price service's mapping becomes a sequence of `(id, fields)` pairs, so its iteration order is explicit.
- `FxData` (`fx_data.dfy`): `fetch_fx_rates` after the XML has been parsed into `(date, rates)` days.
  - The days are sorted newest first.
  - The first two days are the latest and the previous one.
  - For each requested currency quoted on the latest day, the model builds a record with the latest rate, the percent change against the previous day and the latest date.
- `Strings` (`strings.dfy`): `"\n".join`, line splitting, `str.strip` and string order. `Records` and `Wrappers` hold the record types, `Option`/`Result` and `dict.get`. `Sequences` holds the sequence facts both in-place sorts rely on.
- `Scenarios` (`scenarios.dfy`): worked examples on concrete inputs.

## Model

| member | source | states |
|---|---|---|
| Wrappers.DictGet | src/market_agent/agent.py:18-19 | `d.get(key, default)`: the stored value when the key is present, else the default |
| Movers.Magnitude | src/market_agent/anomaly.py:17 | `abs(float(item.get(pct_key, 0.0)))`, the filter's measure and the sort key; never negative, and 0 for a record without the key |
| Movers.Flagged | src/market_agent/anomaly.py:15-18 | the list comprehension: the records whose magnitude reaches the threshold, in input order; never longer than the input (its properties are the Flagged* rows) |
| Movers.InsertLast | src/market_agent/anomaly.py:21 | one step of a stable insertion sort by magnitude, largest first; adds exactly one element |
| Movers.SortDesc | src/market_agent/anomaly.py:21 | `sort(key=magnitude, reverse=True)` as repeated stable insertion; keeps the length (its properties are the SortDesc* rows) |
| Movers.TopMovers | src/market_agent/anomaly.py:5-23 | the list comprehension, then the stable sort by magnitude largest first, then Python's slice `[:top_n]` with `top_n` defaulting to 3; never longer than the input (its properties are the TopMovers* rows) |
| Movers.FlaggedMembers | src/market_agent/anomaly.py:15-18 | a record survives the filter exactly when it is in the input and its absolute change reaches the threshold |
| Movers.FlaggedSubMultiset | src/market_agent/anomaly.py:15-18 | the filter keeps a sub-multiset of the input |
| Movers.FlaggedKeyClass | src/market_agent/anomaly.py:15-18 | for a magnitude at or above the threshold the filter keeps every record of that magnitude in input order; below it, none |
| Movers.SortDescMultiset | src/market_agent/anomaly.py:21 | the sort is a permutation |
| Movers.SortDescSorted | src/market_agent/anomaly.py:21 | the sort orders by absolute change, largest first |
| Movers.SortDescStable | src/market_agent/anomaly.py:21 | the sort is stable: for each magnitude the records of that magnitude keep their input order |
| Movers.SortDescUnique | src/market_agent/anomaly.py:21 | any sequence that is sorted descending and keeps each magnitude's records in input order equals the sort's result, so every stable descending sort gives the same list |
| Movers.SliceEnd | src/market_agent/anomaly.py:23 | the end of the slice `[:top_n]` never exceeds the list's length |
| Movers.TopMoversSelection | src/market_agent/anomaly.py:15-23 | the result holds only input records that reach the threshold, with multiplicities no larger than the input's; there are `min(top_n, #flagged)` of them, or `#flagged + top_n` (at least 0) for a negative `top_n` |
| Movers.TopMoversSorted | src/market_agent/anomaly.py:20-23 | the result is ordered by absolute change, largest first |
| Movers.TopMoversStable | src/market_agent/anomaly.py:21-23 | for each magnitude, the returned records of that magnitude are a prefix of the input's records of that magnitude |
| Movers.PrefixMaximal | src/market_agent/anomaly.py:21-23 | in a list sorted largest first, an element with more copies in the whole list than in a prefix is no larger than any element of the prefix |
| Movers.TopMoversMaximal | src/market_agent/anomaly.py:15-23 | counted with multiplicity: a flagged record with fewer copies returned than flagged is no larger than any returned record, and when fewer than `top_n` records are returned, every flagged copy is returned |
| Movers.TopMoversDefault | src/market_agent/anomaly.py:9-23 | called without `top_n`, which defaults to 3, the detector returns at most three records |
| Movers.TopMoversMissingKey | src/market_agent/anomaly.py:17 | a record without the key counts as 0.0; it is flagged exactly when the threshold is at most 0 |
| Movers.TopMoversEmpty | src/market_agent/anomaly.py:15-23 | an empty input, `top_n == 0`, or a threshold above every magnitude gives an empty result |
| Movers.InsertLastAt | src/market_agent/anomaly.py:21 | the stable insertion puts a record right after the last earlier record whose magnitude is at least its own |
| Movers.InsertStep | src/market_agent/anomaly.py:21 | one insertion step leaves `a[..i+1]` as the stable insertion of `a[i]` into `a[..i]`, with the rest of the array unchanged |
| Movers.SortByMagnitude | src/market_agent/anomaly.py:21 | the in-place sort leaves the array equal to the stable descending sort of its old contents |
| Movers.DetectTopMovers | src/market_agent/anomaly.py:5-23 | the method returns `TopMovers`: sorted, at most `top_n` long for `top_n >= 0` (3 when omitted), and made only of input records that reach the threshold |
| Summary.CryptoBullet | src/market_agent/summary.py:14-17 | the f-string bullet for one crypto record; it starts with `"- "` and ends with `)` |
| Summary.FxBullet | src/market_agent/summary.py:30-33 | the f-string bullet for one FX record; it starts with `"- " + symbol + ": "` and ends with `)` |
| Summary.CryptoLines | src/market_agent/summary.py:9-17 | the lines `_format_crypto` joins; never empty, and the first line is the no-movers sentence exactly when the list is empty |
| Summary.FxLines | src/market_agent/summary.py:25-33 | the lines `_format_fx` joins; never empty, and the first line is the no-movers sentence exactly when the list is empty |
| Summary.ReportLines | src/market_agent/summary.py:42-49 | the crypto lines, a blank line and the FX lines, with a missing key read as an empty list; at least three lines, one of them blank |
| Summary.CryptoBulletsAt | src/market_agent/summary.py:13-17 | the i-th crypto bullet is the bullet of the i-th record |
| Summary.FxBulletsAt | src/market_agent/summary.py:29-33 | the i-th FX bullet is the bullet of the i-th record |
| Summary.CryptoSectionShape | src/market_agent/summary.py:9-18 | an empty list gives exactly the no-movers sentence; otherwise the header, then one bullet per record in list order |
| Summary.FxSectionShape | src/market_agent/summary.py:25-34 | an empty list gives exactly the no-movers sentence; otherwise the header, then one bullet per record in list order |
| Summary.ReportLineCount | src/market_agent/summary.py:42-49 | the report has (1 or 1+#crypto) + 1 + (1 or 1+#fx) lines; a missing key counts as an empty list |
| Summary.ReportSplitLines | src/market_agent/summary.py:51 | when no line holds a newline, splitting the report at newlines gives back exactly its lines |
| Summary.CryptoSectionFramed | src/market_agent/summary.py:9-18 | every crypto section line is non-empty; the section starts with a capital letter and ends with `.` or `)` |
| Summary.FxSectionFramed | src/market_agent/summary.py:25-34 | every FX section line is non-empty; the section starts with a capital letter and ends with `.` or `)` |
| Summary.ReportLayout | src/market_agent/summary.py:45-51 | the report is the crypto text, a blank line and the FX text, and the final `strip()` removes nothing |
| Summary.FormatCrypto | src/market_agent/summary.py:5-18 | the looped text is the newline-join of the crypto section lines; an empty list gives the fixed sentence |
| Summary.FormatFx | src/market_agent/summary.py:21-34 | the looped text is the newline-join of the FX section lines; an empty list gives the fixed sentence |
| Summary.BuildRuleBasedSummary | src/market_agent/summary.py:37-51 | the summary is the newline-join of the report lines, that is both sections joined by `"\n\n"` with nothing stripped |
| Agent.NormaliseCrypto | src/market_agent/agent.py:8-22 | one record per raw entry, in order; each copies the id, and `usd` / `usd_24h_change` when present, 0.0 when missing |
| Agent.NoChangeNeverMoves | src/market_agent/agent.py:19 | an asset quoted without a 24h change is never reported as a mover at a positive threshold |
| FxData.InsertByDate | src/market_agent/fx_data.py:32 | one step of the newest-first insertion sort on dates; adds exactly one day |
| FxData.NewestFirst | src/market_agent/fx_data.py:32 | `daily_rates.sort(reverse=True)` as repeated insertion; keeps the number of days (its properties are the NewestFirst* and InsertByDate* rows) |
| FxData.PctChange | src/market_agent/fx_data.py:44 | the percent change `(latest - prev) / prev * 100`, or 0.0 when `prev` is 0; an unchanged rate gives 0 |
| FxData.FxChange | src/market_agent/fx_data.py:42-52 | the record for one currency quoted on the latest day: its symbol, its latest rate and the latest date |
| FxData.FxChanges | src/market_agent/fx_data.py:37-53 | the records the loop over the requested symbols appends; no more records than symbols (its properties are the FxChanges* rows) |
| FxData.InsertByDateMultiset | src/market_agent/fx_data.py:32 | inserting one day keeps every day exactly once |
| FxData.NewestFirstMultiset | src/market_agent/fx_data.py:32 | the sort is a permutation of the days |
| FxData.InsertByDateOrdered | src/market_agent/fx_data.py:32 | inserting a day with a new date into a strictly newest-first list keeps it strictly newest first |
| FxData.NewestFirstOrdered | src/market_agent/fx_data.py:32 | with distinct dates the sorted days are strictly newest first |
| FxData.DistinctNoClash | src/market_agent/fx_data.py:32 | with distinct dates the sort never compares two rate dictionaries |
| FxData.LatestAndPrevious | src/market_agent/fx_data.py:32-35 | the latest day has the largest date and the previous day the second largest |
| FxData.PctChangeInverse | src/market_agent/fx_data.py:44 | the previous rate grown by the computed change gives back the latest rate |
| FxData.PctChangeSign | src/market_agent/fx_data.py:44 | against a positive previous rate the change is positive exactly when the rate rose, and zero exactly when it held |
| FxData.FxChangeDefaults | src/market_agent/fx_data.py:43-44 | a currency the previous day lacks, or quotes at the same rate, has change 0 |
| FxData.FxChangesSymbols | src/market_agent/fx_data.py:38-40 | the records' symbols are the requested currencies quoted on the latest day, in request order |
| FxData.QuotedSymbolsMembers | src/market_agent/fx_data.py:38-40 | a currency is kept exactly when it was requested and the latest day quotes it |
| FxData.FxChangesRecords | src/market_agent/fx_data.py:38-53 | every record is for a requested, quoted currency, with the latest rate, the latest date and the change against the previous rate (which defaults to the latest) |
| FxData.InsertByDateAt | src/market_agent/fx_data.py:32 | the date insertion puts a day right after the last day that is not older than it |
| FxData.InsertDayStep | src/market_agent/fx_data.py:32 | one insertion step leaves `a[..i+1]` as the insertion of `a[i]` into `a[..i]`, with the rest of the array unchanged |
| FxData.SortNewestFirst | src/market_agent/fx_data.py:32 | the in-place sort leaves the array equal to the newest-first sort of its old contents |
| FxData.ChangesFor | src/market_agent/fx_data.py:37-55 | the loop with `continue` returns exactly the records `FxChanges` describes |
| FxData.LatestChanges | src/market_agent/fx_data.py:31-55 | fails with `TypeError` exactly when two days share a date but not their rates; otherwise fails with `IndexError` exactly when fewer than two days are given; otherwise returns the records for the two newest days |
| Strings.Join | src/market_agent/summary.py:18 | `sep.join(parts)`; a non-empty list's text starts with its first part |
| Strings.Strip | src/market_agent/summary.py:51 | `str.strip()` with Python's white-space set: the result is the part of the input that starts at some position, with only white space before it and only white space after it, and neither of its ends is white space |
| Strings.Before | src/market_agent/fx_data.py:32 | the string order `<` the date sort uses: code point by code point, with a proper prefix first |
| Strings.SplitJoin | src/market_agent/summary.py:18 | splitting a newline-join of newline-free parts gives the parts back |
| Strings.StripUnchanged | src/market_agent/summary.py:51 | `strip()` leaves a string unchanged when it neither starts nor ends with white space |
| Strings.BeforeTotal | src/market_agent/fx_data.py:32 | string order is total on distinct strings; with BeforeIrreflexive, BeforeAsymmetric and BeforeTransitive it is a strict total order |
| Scenarios.CryptoMovers | src/market_agent/anomaly.py:15-23 | with bitcoin +2.5, ethereum -6.0 and solana +7.2 at threshold 5 and the default `top_n`, the result is solana, then ethereum |
| Scenarios.FxMovers | src/market_agent/anomaly.py:15-23 | with USD +0.2 and GBP -0.7 at threshold 0.5, only GBP is reported |
| Scenarios.FxOnlyReport | src/market_agent/summary.py:37-51 | with no crypto movers and GBP as the only FX mover, the report has exactly four lines: the sentence, a blank line, the FX header and the GBP bullet |
| Scenarios.NewestFirstOfHistory | src/market_agent/fx_data.py:32 | three days given out of order come out newest first |
| Scenarios.FxHistory | src/market_agent/fx_data.py:31-55 | the two newest days are compared. A pound quoted at 0 the day before gets change 0. A currency missing on the latest day is dropped. |

## Left out

- HTTP requests and the XML parse of the central bank's history (`fx_data.py:15-29`) are not modelled: they are network I/O. `data_sources.py` is not part of this model for the same reason.
- `run_once` and its timestamp are left out, because they are clock and network glue. So are the LLM client, the file utilities and the command-line script, which are I/O and a foreign service.
- Floating point: changes, prices and rates are exact `real`s. `abs`, the comparisons, the division and the multiplication by 100 are exact, and IEEE rounding, NaN and infinities are not modelled.
- `float(...)`: the raw fields and the parsed rates are already numbers, so a `ValueError` from converting a non-numeric value is not modelled.
- Formatting: `:.2f`, `:.4f` and `str.title` are uninterpreted functions in `Summary.Formatter`. The facts about the summary's frame hold for any formatter whose output keeps the bullets' fixed first and last characters, which is all of them; `Summary.ReportSplitLines` asks that no line contain a newline: no formatted value, FX symbol or date may hold one.
- `Strings.IsSpace` lists the code points Python's `str.isspace` accepts. Characters outside that list are never white space.
- `Summary.Snapshot` has only the two keys the summary reads, `crypto_top` and `fx_top`. A missing key is `None`, and other keys do not affect the summary.
- `Movers.SortByMagnitude` is an insertion sort, where Python uses Timsort. `Movers.SortDescUnique` shows that every stable descending sort gives the same list, so only the result is modelled, not the comparisons made.
- `FxData.SortNewestFirst` is also an insertion sort, on dates. Two days with the same date and the same rates are equal tuples, so their order does not matter. `FxData.LatestChanges` reports a date clash as a `TypeError` before sorting, where Python raises it during the sort.
- FxData.LatestAndPrevious and FxData.NewestFirstOrdered assume distinct dates. For a history that repeats a day identically, the ordering is not stated.
- Agent.NormaliseCrypto takes the raw mapping as a sequence of pairs and does not require its ids to be distinct. A dictionary's keys are unique, but the model does not need that.

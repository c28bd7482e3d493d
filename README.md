# Trade export to CSV

A Dafny model of the trade exporter in `ex.go`. The exporter opens a
read-only store and writes CSV output to `trades-<chainId>.csv`. It writes
the header row first. It then scans every key under the `"M:"` prefix in key
order. For each record it:

- decodes the trade;
- counts it in `TotalTrades`;
- checks buyer and seller against the whitelist, then drops the trade (and
  counts it in `ExcludedTrades`) or keeps it, possibly tagged as a bot;
- picks the market's decimal places;
- writes one 13-column row.

After every `batchSize` records it pauses. A decode error or write error
stops the scan. After the scan, completion is signalled (`wg.Done`, ex.go:114).
The deferred flush of the buffered writer (ex.go:44) runs only after that, when
the function returns.

Modules:

- `Wrappers`: `Option`.
- `Decimal`: the base-10 rendering `strconv.FormatUint(x, 10)` that the
  Size and TickPrice columns use, with a parser that inverts it.
- `KeyScan`: the store's `Seek(prefix)` / `ValidForPrefix(prefix)` iteration
  over entries in ascending byte-wise key order.
- `TradeRows`: the pure parts, which are the trade record, the counterparty
  classifier, the decimal-places lookup, `tradeHeaderToCsvRow`,
  `tradeToCsvRow` and `getTradesCsvFile`.
- `TradeExport`: the state the run changes and the specification fold.
  - `Stats` is the shared counters object.
  - `CsvWriter` is the writer, holding the rows it accepted and whether it was
    flushed.
  - `Run` is the scan as a fold over the visited entries.
  - `ProcessRecord` is the per-record callback.
  - `ScanTrades` is the read-only view's loop.
  - `TradesToCSV` is the whole run.

The methods are proved against `Run`, and the scan's properties are proved
about `Run`.

The store, the decoder and the formatting helpers are parameters:

- The store is a sequence of key/value entries.
- `proto.Unmarshal` is a partial function `Bytes -> Option<Trade>`.
- `GetFormattedStringByDP`, `formatCsvDate`, `BtoI` and `Aggressor.String`
  are the fields of a `Formatters` value.
- Whether the n-th write to the CSV writer succeeds is an oracle
  `accepts(n)`. The header is write 0. A rejected write adds nothing.

Three behaviours of ex.go worth knowing:

- The unknown-market diagnostic is issued only for an unknown market (ex.go:86-89), not for a known market with non-positive decimal places.
- The error from creating the output file is ignored (ex.go:38), so the model has no fatal path for it.
- A failed header write ends the process through `log.Fatal` (ex.go:47-50). Deferred calls do not run on that path, so the writer is not flushed and completion is never signalled. Flushing and completion happen only once the header has been written.

## Model

| member | source | states |
|---|---|---|
| Decimal.DecimalStringShape | ex.go:144 | the decimal rendering (used for Size here and for TickPrice two lines below) is a non-empty string of digits with no leading zero except for 0 itself |
| Decimal.ParseDecimalString | ex.go:144 | reading back a rendered unsigned integer gives the integer |
| Decimal.DecimalStringInjective | ex.go:144 | distinct sizes or prices render as distinct strings |
| KeyScan.SeekFrom | ex.go:57 | `Seek(prefix)` lands on the first entry whose key is not below the prefix |
| KeyScan.PrefixEnd | ex.go:57 | `ValidForPrefix` holds for every entry from the seek position to the returned position, and fails at the returned position |
| KeyScan.ScanIsPrefixFilter | ex.go:55-57 | on a store sorted by key, the entries the scan visits are exactly those whose key has the prefix, in store order |
| TradeRows.Classify | ex.go:69-78 | a trade is kept untagged iff a party is whitelisted; it is dropped iff no party is whitelisted and exclusion is on; it is tagged as a bot iff no party is whitelisted and exclusion is off |
| TradeRows.MarketDecimalPlaces | ex.go:80-89 | the market's decimal places when the market is known and they are positive; 0 for an unknown market or non-positive decimal places |
| TradeRows.HeaderColumns | ex.go:118-134 | the header has 13 column names, no two equal |
| TradeRows.RowMatchesHeader | ex.go:137-153 | a data row has as many fields as the header, and field i is the value the header's i-th name stands for (ChainID is the chain id, Size the rendered size, TickPrice the rendered raw price, and so on) |
| TradeRows.RowNumbersReadBack | ex.go:142-146 | fields 5 and 7 are all digits and read back as the trade's size and raw price |
| TradeRows.TradesCsvFileInjective | ex.go:155-157 | different chain ids give different output file names |
| TradeExport.Stats.IncTotalTrades | ex.go:66 | adds one to the total counter and leaves the excluded counter alone |
| TradeExport.Stats.IncExcludedTrades | ex.go:73 | adds one to the excluded counter and leaves the total counter alone |
| TradeExport.CsvWriter.Write | ex.go:92-95 | the write succeeds as the oracle says; if it succeeds the row is appended, otherwise nothing changes |
| TradeExport.CsvWriter.Flush | ex.go:44 | marks the writer flushed and leaves its rows alone |
| TradeExport.Run | ex.go:57-107 | every counted trade is excluded, written, or the single trade whose write failed |
| TradeExport.StoppedStaysStopped | ex.go:96-101 | once a record fails, no later entry changes anything |
| TradeExport.StopKeepsEarlierWork | ex.go:62-100 | when the scan stops there is an entry k such that the scan was still going before it and had stopped just after it; rows, exclusions and pauses are those before it, and the total includes the failed record only if it decoded |
| TradeExport.CompletedScan | ex.go:57-107 | a scan that finishes without error decoded every entry; it has total = entries scanned, excluded = trades the policy drops, rows = the kept trades' rows in entry order, and row count = total − excluded |
| TradeExport.NoFailureCompletes | ex.go:60-101 | if every value decodes and the data-row writes 1 to the number of entries succeed, the scan finishes without error |
| TradeExport.BatchPosition | ex.go:56-106 | every record moves the batch position, excluded ones included; with a positive batch size, 0 <= pos < batchSize and pauses·batchSize + pos = records scanned; otherwise there are no pauses and pos = records scanned |
| TradeExport.PauseCount | ex.go:102-106 | with a positive batch size, pauses = records scanned / batchSize, rounded down |
| TradeExport.KnownTradeKeptUntagged | ex.go:69-92 | a trade with a whitelisted party is written (or its write fails) with isBot false, and flipping the exclusion policy changes nothing |
| TradeExport.UnknownTrade | ex.go:66-92 | a trade with no whitelisted party adds one to the total. With exclusion on, it also adds one exclusion and no row. With exclusion off, exclusions are unchanged and the trade is written tagged as a bot |
| TradeExport.ExclusionScenario | ex.go:57-106 | with three trades, exclusion on, batch size 2 and only the second trade's buyer whitelisted: total 3, excluded 2, one row (the second trade's), one pause, position 1 |
| TradeExport.EmptyScan | ex.go:57-108 | with nothing under the prefix, the scan writes no rows, counts nothing and takes no pause |
| TradeExport.ProcessRecord | ex.go:60-98 | decode failure: reports failure and changes nothing. Otherwise it counts the trade; if the trade is dropped it counts an exclusion; if kept it writes the row with the market's decimal places and the bot tag, and reports failure exactly when the write is rejected |
| TradeExport.ScanTrades | ex.go:52-109 | the loop leaves the writer, both counters and the pause count exactly as `Run` gives them over the entries the prefix scan visits, and reports whether an error stopped it |
| TradeExport.TradesToCSV | ex.go:38-115 | the writer is for `trades-<chainId>.csv`. A rejected header write is fatal: nothing is written, flushed or counted, and completion is not signalled. Otherwise the writer has accepted the header and then `Run`'s rows, the counters rise by `Run`'s counts, completion is signalled and then the writer is flushed, and the outcome is completed or aborted as `Run` ends |

## Left out

- Opening the store and its read-only transaction and iterator (ex.go:30-36, 52-54) are left out. The store is an already-ordered sequence of entries, and a failure to open it is not modelled.
- `proto.Unmarshal` is a parameter `decode`: a partial function from bytes to a trade.
- `csv.Writer`, `os.Create`, `Flush` and `Close` are file I/O. The writer is the sequence of rows it accepted, with a success oracle; the file's bytes and CSV quoting are not modelled.
- TradeExport.CsvWriter.Flush: always succeeds. The source never checks the writer's error after flushing (ex.go:44). So a failing flush, and the buffered rows it loses, are not modelled. This includes the flush after an aborted scan, when the writer's error stays set after the failed write. `rows` is what the writer accepted, not what reached the file.
- TradeExport.TradesToCSV: signals completion before the deferred flush, as the source does (ex.go:114 runs before the deferred flush from ex.go:44). The model records both effects in that order. It does not model a waiter woken by the completion signal that reads the file before the flush.
- `time.Sleep` is recorded as a pause count; the wait duration is not modelled.
- `sync.WaitGroup.Done` is a `done` flag; concurrency is not modelled.
- Logging (`log.Info`, `log.Warnf`, `log.Error`) is left out, including the unknown-market warning and the final error report.
- `GetFormattedStringByDP`, `formatCsvDate`, `BtoI` and `Aggressor.String` are uninterpreted. Nothing is stated about the Price, Timestamp, Aggressor or IsBot strings beyond which helper produces them, so the model cannot state that Price equals TickPrice when the decimal places are 0 or that the price 2000 at 2 decimal places renders as "20.00".
- The trade's aggressor has three values. Their names come from the uninterpreted `sideName`.
- TradeRows.MarketDecimalPlaces: the decimal places are an unbounded integer. The Go conversion `int(m.DecimalPlaces)` wrapping a very large unsigned value is not modelled.
- TradeExport.BatchPosition: `pos` is an unbounded integer. A Go `int` overflow after 2^63 records with a non-positive batch size is not modelled.
- Running the export twice on an unchanged store gives the same file. This holds because `TradesToCSV`'s final state is a function of its inputs, and it is not stated as a separate lemma.

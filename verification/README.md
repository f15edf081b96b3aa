# stocksearch worker and symbol resolution, modelled in Dafny

`run.py` downloads an exchange listing, resolves the ticker symbols to work on,
and starts one `Stock` worker thread per symbol. Each worker scrapes a crumb
token from the quote page. It then fetches the price history and the options
chain, writes the options contracts and the price history to per-symbol CSV
files, and runs an external `calc` program. This project models the four pieces
of sequential logic in that script:

- **Symbol resolution** (`Symbols`, run.py:92-104). Arguments after the program
  name are taken literally. With no arguments, the listing's `Symbol` column is
  deduplicated in order of first appearance, and any value holding a space is
  dropped.
- **Crumb span extraction** (`Crumb`, run.py:37-39). This is the `str.find` and
  slice arithmetic that cuts the crumb JSON fragment out of the quote page. It
  rests on a model of Python's `find`, `in` and slice-bound normalisation
  (`PyStr`).
- **Options line format** (`OptionsCsv`, run.py:53-61). Each contract becomes
  one line, `side,date,strike,bid,ask,impliedVolatility`. Each date's puts come
  before its calls. The date is rendered by Python's `str()` of an integer
  (`Decimal`). A line reader (`ParseLine`) is the inverse the properties are
  stated against.
- **The worker's control flow** (`Worker`, run.py:33-71). It is a pure
  function from the upstream outcomes to the list of side effects:
  `OpenOptionsFile`, `WriteLine`, `WritePriceFile`, `RunCalc` and
  `CloseOptionsFile`. The calculator call at run.py:71 sits inside the `with`
  block that opened the options file at run.py:51. The options file is
  therefore closed only after the calculator has run.

Two places where the code differs from what a reader might expect; the model
follows the code in both:

- `readin.drop(columns=['Adj Close'])` at run.py:69 discards its result when
  the column exists. The price file therefore keeps the `Adj Close` column, and
  the model does not claim that the column is removed. When the column is
  missing, `drop` raises instead (see "## Left out").
- A failed per-date request (run.py:63-65) returns after the options file has
  been opened and partly written. A symbol can therefore end with the options
  file alone (`Worker.FilesOfRun`), so a symbol does not always end with both
  files or none.

The slice of run.py:38 runs from the first `"CrumbStore` up to the first comma
at or after the first `CrumbStore`. With a quote just before that marker this
is the expected fragment (`Crumb.SpanOfQuotedMarker`). Python's index rules
decide what happens otherwise:

- When the first `CrumbStore` has no quote before it, or starts the page, but a
  comma follows it and a `"CrumbStore` occurs at q, the span runs from q to
  that comma. It is empty, with JSON text `{}`, when q lies at or after the
  comma (`Crumb.SpanFromQuotedMarker`).

- With no `"CrumbStore` anywhere, `find` returns -1. The start bound -1 then
  means the last character, and the span is empty (`Crumb.SpanWithoutQuotedMarker`).
- With no comma after the first `CrumbStore`, and that marker not at index 0,
  the span is empty (`Crumb.SpanWithoutComma`). With the marker at index 0 the
  end bound is `-1 + 0 = -1`, which Python reads as "one before the end". The
  span is then non-empty when a `"CrumbStore` occurs later: it runs from there
  to the page's last character but one (`Crumb.SpanWithoutCommaAtStart`).

## Model

| member | source | states |
|---|---|---|
| `PyStr.Find` | run.py:38 | `str.find` returns -1 exactly when the pattern does not occur; otherwise it returns an index where the pattern occurs, with no occurrence before it |
| `PyStr.Slice` | run.py:38 | `s[a:b]` is `s[a..b]` for in-range bounds; negative bounds count from the end and are clipped; crossed normalised bounds give the empty string |
| `PyStr.SliceFrom` | run.py:38 | `s[a:]` is the suffix from `a` for an in-range `a` |
| `Crumb.CrumbSpan` | run.py:37-38 | there is a span exactly when the page contains `CrumbStore` (the guard of line 37) |
| `Crumb.CrumbJson` | run.py:37-39 | the text given to `json.loads` exists exactly when the page contains `CrumbStore`, and it is the span wrapped in `{` and `}` |
| `Crumb.QuotedAtMarker` | run.py:38 | a quote just before the first `CrumbStore` is where the first `"CrumbStore` starts |
| `Crumb.SpanOfQuotedMarker` | run.py:38-39 | with `"` just before the first `CrumbStore` at c, and the first comma at offset k after c: k is at least 10, the comma is at c+k, the span is `text[c-1..c+k)`, and the JSON text is `{` + span + `}` |
| `Crumb.SpanOfQuotedMarkerShape` | run.py:38 | in that same case the span starts with `"CrumbStore` and contains no comma |
| `Crumb.SpanWithoutComma` | run.py:38 | with the first `CrumbStore` not at index 0 and no comma after it, the span is empty and the JSON text is `{}` |
| `Crumb.SpanWithoutCommaAtStart` | run.py:38 | with `CrumbStore` at index 0, no comma, and a later `"CrumbStore` at q, the span is `text[q..len-1)`, because the end bound -1 wraps to the end |
| `Crumb.SpanWithoutQuotedMarker` | run.py:38-39 | with `CrumbStore` present but no `"CrumbStore`, the span is empty and the JSON text is `{}` |
| `Crumb.SpanFromQuotedMarker` | run.py:38-39 | for any page with a `"CrumbStore` at q and a comma after the first `CrumbStore`, quoted or not: the span is the text from q up to that comma, or empty with JSON text `{}` when q is at or after the comma |
| `Decimal.IntText` | run.py:59 | `str()` of an integer contains no comma and no newline, so the date stays a single column |
| `Decimal.ParseIntText` | run.py:59 | the decimal text of any integer reads back as that integer |
| `OptionsCsv.Line` | run.py:59 | the line written for one contract: side letter, date and the four fields joined by commas, then a newline; `OptionsCsv.LineShape` and `OptionsCsv.ParseLineOfLine` state its properties |
| `OptionsCsv.LineShape` | run.py:59 | whatever the contract's fields hold, its line starts with the side letter, a comma, the date's decimal text and a comma, and ends with a newline |
| `OptionsCsv.ChainLines` | run.py:58-61 | the lines written for one expiration date, every put and then every call; `OptionsCsv.ChainLinesRead` states their number, order and contents |
| `OptionsCsv.SideLines` | run.py:58-61 | one line per contract of a side, at the contract's position, each tagged with the side and the date |
| `OptionsCsv.ParseLineOfLine` | run.py:59 | a contract line, read back, gives its side letter, its date and its four fields unchanged, provided the fields contain no comma |
| `OptionsCsv.ChainLinesRead` | run.py:58-61 | a date has one line per contract; the first lines read back as its puts tagged `P`, the rest as its calls tagged `C`, all with that date |
| `Symbols.FirstAppearancesMembers` | run.py:97-98 | a value is in the listing-derived list if and only if it occurs in the `Symbol` column and contains no space |
| `Symbols.FirstAppearancesDistinct` | run.py:97-98 | the listing-derived list has no duplicates |
| `Symbols.FirstAppearancesOrder` | run.py:96-98 | listed values keep the order of their first appearance in the column, so the list is a subsequence of the column |
| `Symbols.ListingSymbols` | run.py:94-98 | the loop over the listing fails exactly when some row has no `Symbol` entry, and it fails at the first such row; otherwise it yields the space-free values in order of first appearance |
| `Symbols.ArgumentSymbols` | run.py:100-104 | the counting loop keeps every argument after the program name, in order |
| `Symbols.ResolveSymbols` | run.py:92-104 | with at least one argument, the symbols are `argv[1:]` exactly (duplicates and spaced entries kept, listing ignored); otherwise they are the listing-derived list, or the listing error |
| `Worker.Succeeded` | run.py:35-47 | the `success` flag: quote ok, `CrumbStore` on the page, crumb found, price history answered and summary ok; `Worker.Run` states that nothing happens without it |
| `Worker.SucceededHasCrumbJson` | run.py:37-40 | a worker that succeeded had a span and a JSON text to parse, since the guard of line 37 is the one `Crumb.CrumbSpan` uses |
| `Worker.DateLoop` | run.py:53-71 | the effects after the options file is opened: each date's lines until a failed request, then on completion the price file and the calculator; every effect names the worker's symbol, and `Worker.DateLoopClosedForm` gives the closed form |
| `Worker.DateLoopClosedForm` | run.py:53-71 | the date loop writes the lines of the dates before the first failed request, then writes the price file and runs the calculator only when no request failed |
| `Worker.Run` | run.py:33-71 | a bad quote response, a page without `CrumbStore`, a raised price-history request, or a failed options summary leaves `success` false and produces no effect; a successful worker's first effect opens its options file and its last closes it |
| `Worker.FirstFailure` | run.py:53-55 | the count of leading ok per-date replies; every earlier reply is ok and the one at that index is not |
| `Worker.RunClosedForm` | run.py:49-71 | a successful run opens the options file, writes the lines of every date before the first failed request, and then, only if no request failed, writes the price file and runs the calculator |
| `Worker.HistoryStatusIgnored` | run.py:41-45 | the status of the price-history response changes neither `success` nor anything the worker does |
| `Worker.FailedDateAborts` | run.py:51-65 | at the first failed per-date request the run ends: the options file holds only earlier dates' lines, and there is no price file and no calculator run |
| `Worker.NoExpirationDates` | run.py:51-71 | with no expiration dates, the run opens an empty options file, writes the price file, runs the calculator and then closes the options file |
| `Worker.CalcFollowsPriceFile` | run.py:51-71 | the calculator runs if and only if the run succeeded and every per-date request was ok; it then comes right after the price file is written and right before the options file is closed |
| `Worker.OptionsFileClosedLast` | run.py:51-71 | a successful run closes its options file exactly once, as its last effect, whether it completed or left the date loop at a failed request |
| `Worker.CrumblessPageDoesNothing` | run.py:37-41 | on a page with `CrumbStore` but no `"CrumbStore` the JSON text is `{}`, which has no `CrumbStore` key, so no crumb is found and the worker does nothing |
| `Worker.CommalessPageDoesNothing` | run.py:37-41 | on a page whose first `CrumbStore` is not at its start and has no comma after it the JSON text is `{}` too, so no crumb is found and the worker does nothing |
| `Worker.FilesOfRun` | run.py:51-67 | an abandoned run leaves no file; a run with a failed date leaves the options file alone; a completed run leaves both files |
| `Worker.EffectsOwnSymbol` | run.py:51-71 | every effect of a worker names its own symbol, so the files it touches are those of its symbol |
| `Worker.OptionsLinesRead` | run.py:53-61 | the options lines of a list of dates read back, line by line, as its contracts: date after date in summary order, each date's puts before its calls |
| `Worker.OptionsFileContents` | run.py:53-65 | the lines a successful run writes follow the opening of the options file in order; read back, they are the contracts of the dates before the first failed request |

## Left out

- Network I/O: `grequests` sessions, `urllib2`, the URLs and the `time.time()` end date (run.py:31, 34, 41-42, 54, 77). Each response is reduced to its ok flag plus the text or parsed value the worker reads (`Worker.Upstream`).
- The exchange listing download and its block-copy loop (`Exch`, run.py:73-86). This is pure streaming I/O; the model starts from the rows `csv.DictReader` yields.
- Symbols.ResolveSymbols: assumes the listing download succeeded. `main` builds `Exch("nasdaq")` at run.py:90 even when arguments are given, so a raised download ends the program before any symbol is resolved, with or without arguments.
- Raised request errors (connection errors, timeouts). For the quote page and the options summary a raise has the effect of a response that is not ok, and for a per-date request that of a failed reply, so these are covered by the ok flags. A raised price-history request (run.py:41) ends the thread before `success` is set; it has its own flag, `historyArrived`.
- CSV parsing of the listing (run.py:94-96). The rows arrive as maps from column name to cell. A row without a `Symbol` entry stands for both failures of `row['Symbol']`: the missing-column `KeyError`, and the `TypeError` on the `None` a short row yields.
- `json.loads` (run.py:40, 52, 57). The crumb parse and the `["CrumbStore"]["crumb"]` lookup are one boolean, `crumbFound`. The summary and per-date documents arrive already parsed as dates and contracts. A malformed summary or per-date document raises after the options file is open; this is not modelled.
- pandas (run.py:68-70). The price file is modelled as receiving the downloaded history text, and its reserialisation is not modelled. The `drop` at run.py:69 discards its result, so no column removal is claimed. An exception from `read_csv` or `drop` (for example a history text without `Adj Close`, such as the error body of a failed download) leaves an empty price file and no `RunCalc`; this is not modelled, and `Worker.CalcFollowsPriceFile` and `Worker.HistoryStatusIgnored` do not cover it.
- Worker.CalcFollowsPriceFile: assumes that reading the history text and dropping its `Adj Close` column succeed; when they raise, the calculator does not run even though every date was ok.
- Worker.HistoryStatusIgnored: holds for a fixed history text. A failed download usually brings an error body without `Adj Close`, which makes `drop` raise; that exception is not modelled.
- `str()` of the float fields strike, bid, ask and implied volatility (run.py:59, 61). These are opaque strings.
- OptionsCsv.ParseLineOfLine: requires the four float fields to be comma-free (`OptionsCsv.CommaFree`). Python's float rendering guarantees this, but the model does not derive it.
- OptionsCsv.ChainLinesRead: has the same comma-free requirement, for every contract of the date.
- Worker.OptionsLinesRead: has the same comma-free requirement, for every contract of every date (`Worker.AllCommaFree`).
- Worker.OptionsFileContents: has the same comma-free requirement as `Worker.OptionsLinesRead`.
- Threads, `start`/`join` and `setrlimit` (run.py:16, 26, 106-116). Each worker is modelled on its own. `Worker.EffectsOwnSymbol` shows only that each effect names the worker's own symbol. Symbols given as arguments keep their duplicates (`Symbols.ResolveSymbols`), and `main` starts one worker per entry. A symbol given twice therefore has two workers that truncate and write the same two files at the same time; this interleaving is not modelled.
- The crumb text itself. Whether `json.loads` of the span yields `CrumbStore.crumb` is the flag `crumbFound`. Only `Worker.CrumbConsistent` ties that flag to the page, and only for the JSON text `{}`. The other properties of `Worker` hold for any value of the flag.
- The calculator itself (`os.system`, run.py:71) appears only as the `RunCalc` effect. Console output (`print`) is not modelled.

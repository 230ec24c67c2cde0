# Largest-banks ETL: a Dafny model of its own logic

The modelled program is a one-shot batch ETL script. It scrapes a list of the world's largest banks from an HTML table. It converts each bank's market capitalisation from USD to GBP, EUR and INR. It then stores the result in a CSV file and a SQLite table. After each stage it appends a timestamped line to a progress log.

This project models the logic the script adds on top of its libraries:

- **Extractor** (`extract.dfy`, module `Extractor`). This is the row-selection loop of `extract`. The input is the parsed page: the candidate tables, each with an optional `tbody` whose rows are the texts of their `td` cells. With no table, the step fails. With a first table that has no body, it fails too. Otherwise it walks that body's rows in document order and skips rows without cells. From every other row it takes cells 0, 1 and 2 as (Rank, Bank_name, Market_Cap(USD)). The loop ends after ten accepted rows. A row with one or two cells that the loop reaches makes the step fail. `SelectRecords` keeps the source's loop with its `count` and `break`. It is proved equal to `Selection`, an independent definition: the first ten rows that have cells, each projected.
- **Transformer** (`transform.dfy`, module `Transformer`). This covers comma stripping, the rate map and the three converted columns. The rate map is built from the (Currency, Rate) rows of the rate file; when a currency appears twice, the later row wins. Numbers are abstract: a type parameter `Num`, a `parse` function for `float()` (None where it raises), and a `scale` function for `np.round(usd * rate, 2)`. Each column is computed record by record, in the order GBP, EUR, INR. As in the source, the text is parsed before the rate is looked up.
- **Progress logger** (`logging.dfy`, module `Logging`). This covers the message catalog, the `%Y-%m-%d %H:%M:%S` timestamp, the entry `timestamp + ": " + message + "\n"`, and the log file as a class whose `lines` only grow.
- **Stages** (`stages.dfy`). `extract` and `transform` are modelled with their logging. Each appends its catalog message once, and only after it succeeds.
- `banks.dfy` (module `Banks`) holds the shared types: the parsed table, `BankRecord`, the `Result` type and the failure kinds (`NoTable`, `NoTableBody`, `RowTooShort`, `NotNumeric`, `MissingRate`).

Edge cases of the code that the model keeps:

- A missing GBP, EUR or INR rate fails only when there is a record to convert. `Series.apply` on an empty column calls nothing, so with no records the step succeeds, whatever the rate map holds (`TransformEmpty`).
- A row with three or more cells gives its cells 0 to 2, and the rest are ignored. A row with one or two cells fails. A row with none is skipped.
- `float()` is applied before the rate lookup, because it is the left operand of `*`. So when the first record's market cap does not parse, the failure is the parse error, even if the rate is also missing.
- A row with one or two cells after the tenth accepted row is never looked at, so it causes no failure (`RowsAfterLimitIgnored`).

## Model

| member | source | states |
|---|---|---|
| `Extractor.Qualifying` | banks_project_data_engineering.py:55-56 | the rows kept are no more than the input rows, and each has at least one cell |
| `Extractor.Accepted` | banks_project_data_engineering.py:52-65 | the accepted rows are a prefix of the qualifying rows, of length min(10, number of qualifying rows) |
| `Extractor.SelectRecords` | banks_project_data_engineering.py:52-65 | the loop with its counter and `break` returns what `Selection` defines; its invariant keeps `count` equal to the number of records built |
| `Extractor.QualifyingAppend` | banks_project_data_engineering.py:53-56 | filtering out cell-less rows works piecewise over concatenated rows |
| `Extractor.QualifyingStep` | banks_project_data_engineering.py:55-56 | one more row adds itself to the qualifying rows exactly when it has a cell |
| `Extractor.ShortRowRejects` | banks_project_data_engineering.py:57-61 | a row with one or two cells, reached before ten rows are accepted, makes extraction fail |
| `Extractor.AcceptedIsPrefix` | banks_project_data_engineering.py:64-65 | when the loop stops, at the end of the rows or at the tenth accepted row, it has accepted exactly the accepted rows |
| `Extractor.QualifyingSource` | banks_project_data_engineering.py:53-56 | qualifying row i is the input row that has exactly i qualifying rows before it |
| `Extractor.SelectionCount` | banks_project_data_engineering.py:52-65 | a successful extraction has at most 10 records, and exactly min(10, number of rows with a cell) |
| `Extractor.SelectionOrder` | banks_project_data_engineering.py:53-62 | record i holds cells 0, 1 and 2 of the row that has exactly i rows with cells before it (document order) |
| `Extractor.RowYieldsRecord` | banks_project_data_engineering.py:53-63 | conversely, a row with cells that has fewer than ten rows with cells before it yields the record at that count, made of its cells 0, 1 and 2 |
| `Extractor.EmptyRowSkipped` | banks_project_data_engineering.py:55-56 | inserting a row without cells anywhere leaves the result unchanged |
| `Extractor.RowsAfterLimitIgnored` | banks_project_data_engineering.py:64-65 | once ten rows with cells have been seen, whatever follows, even a malformed row, leaves the result unchanged |
| `Extractor.ExtractionFailsIff` | banks_project_data_engineering.py:41-61 | extraction fails exactly when there is no table, the first table has no body, or a row with one or two cells comes before the tenth accepted row |
| `Transformer.EnrichedColumnsOrder` | banks_project_data_engineering.py:79-81 | the output columns are the original three followed by MC_<code>_Billion for GBP, EUR and INR, in that order |
| `Transformer.StripCommas` | banks_project_data_engineering.py:79 | the result has no ',' and holds every other character of the input as often as the input does |
| `Transformer.StripCommasAppend` | banks_project_data_engineering.py:79 | stripping works piecewise over concatenation, so the kept characters stay in their order |
| `Transformer.StripCommasKeepsCommaFree` | banks_project_data_engineering.py:79 | text without commas is unchanged |
| `Transformer.StripCommasIdempotent` | banks_project_data_engineering.py:79-81 | stripping twice gives the same as stripping once |
| `Transformer.RatesOf` | banks_project_data_engineering.py:77-78 | a currency has a rate exactly when some rate row names it, and its rate is the one on its last row |
| `Transformer.ConvertColumn` | banks_project_data_engineering.py:79 | a column succeeds exactly when every market cap parses and, if there are records, the rate exists; value i is record i's amount scaled by that rate; it fails with MissingRate exactly when the first record parses and the rate is absent |
| `Transformer.ConvertColumnFirstUnparseable` | banks_project_data_engineering.py:79 | with the rate present, a failing column reports the first record whose stripped market cap does not parse |
| `Transformer.TransformSucceedsIff` | banks_project_data_engineering.py:78-81 | the transformation succeeds exactly when every market cap parses and, unless there are no records, GBP, EUR and INR all have rates |
| `Transformer.TransformShape` | banks_project_data_engineering.py:79-81 | on success every record keeps its three fields and gains exactly three values, in the order GBP, EUR, INR, each its amount scaled by that currency's rate |
| `Transformer.TransformColumns` | banks_project_data_engineering.py:79-81 | on success each output row lines up with the six column names: the scraped texts under Rank, Bank_name and Market_Cap(USD), then under MC_<code>_Billion for GBP, EUR and INR the market cap scaled by that currency's rate |
| `Transformer.TransformEmpty` | banks_project_data_engineering.py:79-81 | with no records the step succeeds with no records, whatever the rate map holds |
| `Transformer.TransformMissingRate` | banks_project_data_engineering.py:79-81 | when every market cap parses but a rate is missing, the step fails naming the first missing currency in the order GBP, EUR, INR |
| `Transformer.TransformFirstUnparseable` | banks_project_data_engineering.py:79-81 | with all three rates present, the step fails on the first record whose market cap does not parse, reporting its stripped text |
| `Logging.FormatTimestamp` | banks_project_data_engineering.py:17 | the timestamp is 19 characters with '-', '-', ' ', ':', ':' at positions 4, 7, 10, 13 and 16 |
| `Logging.TimestampRoundTrip` | banks_project_data_engineering.py:17 | a formatted timestamp reads back as the clock reading it came from |
| `Logging.EntryRoundTrip` | banks_project_data_engineering.py:18 | a log entry splits back into exactly its timestamp and its message |
| `Logging.ConcatAppend` | banks_project_data_engineering.py:16-19 | the file text after an append is the earlier text followed by the new entry |
| `Logging.AppendKeepsPrefix` | banks_project_data_engineering.py:16-19 | appending keeps the earlier text as a prefix, and what follows it is exactly the new entry |
| `Logging.ProgressLog.constructor` | banks_project_data_engineering.py:16 | opening in append mode keeps the lines already in the file |
| `Logging.ProgressLog.Log` | banks_project_data_engineering.py:13-19 | one entry for the formatted clock reading and the message is appended; the earlier text is a prefix of the new text, and nothing earlier changes |
| `Stages.ExtractStage` | banks_project_data_engineering.py:33-67 | the extract step returns what `Extraction` defines, and it logs the extraction message once, only on success |
| `Stages.TransformStage` | banks_project_data_engineering.py:72-83 | the transform step returns the transformation under the rate map built from the rate rows, and it logs the transformation message once, only on success |

## Left out

- Fetching the page over HTTP (`requests.get`) is not modelled. It is a network call.
- HTML parsing with BeautifulSoup is not modelled: selecting tables by attribute, finding `tbody`, `tr` and `td`, and `get_text(strip=True)`. These are foreign library calls. The model starts from the candidate tables as their rows' stripped cell texts.
- `float()`, the multiplication by the rate and `np.round(..., 2)` are not modelled. They are floating-point numerics. They enter only as the abstract `parse` and `scale` parameters.
- Reading the rate file with `pd.read_csv` is not modelled. The model receives the file's (Currency, Rate) rows. A file without a Currency or Rate column is also not modelled, because that failure comes from pandas.
- The model returns a new sequence instead of adding columns to the DataFrame in place. In the source, `transform` mutates the frame `extract` returned, so the script's `df` and `df_transformed` are one object. That aliasing only matters to the top-level wiring, which is left out.
- `load_to_csv`, `load_to_db` and `run_query` are not modelled. They are thin wrappers over pandas and SQLite I/O. So are their log-before-write ordering, the SQLite connections and the printed output.
- The top-level script wiring is not modelled. This includes the URL, the paths, the query list and the final "Close SQLite3 connection" log line. It is orchestration over module globals.
- The clock (`datetime.datetime.now()`) is not modelled. Its reading is a parameter of `ProgressLog.Log` and of the stages.
- Logging.FormatTimestamp: only four-digit years are modelled, because the padding `%Y` uses for earlier years depends on the platform. Day numbers are checked against 1 to 31, not against the length of the month.

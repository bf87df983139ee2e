# yield_watcher, modelled in Dafny

yield_watcher samples a farm.army position snapshot for one BSC address and the
4Belt token listing, and appends one row per farm to `farm_yield.csv`, once an hour,
forever. This project models the decision logic of one sampling cycle:

- `Belt` (`src/belt.rs`): `get_price` scans the decoded token listing in order, takes the
  first entry whose ticker is `"4BELTPOOLLP"`, parses its price text, substitutes `1.0`
  when the text does not parse, and returns the error `"Can't retrieve 4belt price"`
  when no entry matches or when the request or the JSON decode failed.
- `Snapshot` (`src/main.rs`): the `FarmDetails`/`FarmValue`/`Farm`/`Platform`/`FarmResponse`/`Row`
  records and the per-farm row rule. A farm named `"4BELT"` is valued at
  deposit amount × 4Belt price, overriding the snapshot's own USD value. Every other farm
  keeps the snapshot's `deposit.usd`, or 0 when it is absent. `Reconcile` flattens every
  platform's farms into rows, platform by platform.
- `Store` (`src/main.rs`): the append-only csv file as a sequence of lines and the
  `csv::Writer` over it as a class (`CsvWriter`). The writer is opened once. It owes the
  header only when the file did not exist, and emits it just before the first serialized
  record, as the csv writer does with `has_headers(true)`.
- `Watcher` (`src/main.rs`): one pass of `main`'s loop (`RunCycle`). It looks up the price,
  falls back to 1 when `get_price` fails, and skips the cycle when the snapshot request or
  decode failed. Otherwise it serializes one row per farm, in traversal order, all with the
  one date of the cycle.
- `Wrappers`, `Transport`: Option/Result, and the two ways an HTTP fetch can fail.

The HTTP requests and JSON decoding are inputs: a `Fetched<T>` value is the decoded body
or `RequestFailed`/`JsonParseFailed`. `str::parse::<f64>` is the parameter
`parse: string -> Option<real>`. The cycle's timestamp `now.to_rfc3339()` is the opaque
string `date`. Amounts and prices are `real`. Whether the csv file already exists is the
`Option` passed to `CsvWriter.Open` (`None` means it does not exist yet).

The header appears only in a file this run created, and only together with the first
record written: the csv writer emits it lazily, at its first `serialize`. A run that creates
the file but writes no row leaves it empty. That happens when every snapshot fetch or decode
failed, or when every fetched snapshot held no farms. Later runs find the file and never add
a header (`Store.TwoRuns`: after two runs the header count is 1 exactly when the first run
wrote at least one row).

## Model

| member | source | states |
|---|---|---|
| `Belt.FirstPoolEntry` | src/belt.rs:19-22 | the result is the index of an entry whose ticker is `4BELTPOOLLP`, every earlier entry has a different ticker, and it is None exactly when no entry has that ticker |
| `Belt.PriceOf` | src/belt.rs:14-32 | the value `get_price` returns: Ok exactly when the decoded listing has a pool entry, then the parse-or-1.0 price of the first one; otherwise the error "Can't retrieve 4belt price" |
| `Belt.ParsePrice` | src/belt.rs:21 | the parsed price when the text parses, otherwise 1.0 |
| `Belt.GetPrice` | src/belt.rs:14-32 | a failed request or decode gives `Err("Can't retrieve 4belt price")`; the result is Ok exactly when some entry has the pool ticker, and then it is the parse-or-1.0 price of an entry with that ticker before which no entry has it; it agrees with `PriceOf` |
| `Belt.LaterEntriesIgnored` | src/belt.rs:19-22 | once the listing holds a pool entry, entries appended after it never change the price |
| `Belt.EarlierOtherEntriesSkipped` | src/belt.rs:19-20 | entries with other tickers placed in front of the listing do not change the result |
| `Belt.UnparsablePriceFallsBack` | src/belt.rs:21 | when the first pool entry's price text does not parse, the result is `Ok(1.0)`, not an error |
| `Snapshot.UsdValue` | src/main.rs:106-118 | a `4BELT` farm is valued at deposit amount × price; any other farm at its `deposit.usd`, or 0 when absent |
| `Snapshot.FarmRow` | src/main.rs:104-120 | the row copies the farm id, deposit amount and `farm_rewards` verbatim, carries the given date, and its usd_value is `UsdValue` |
| `Snapshot.FarmRows` | src/main.rs:103-125 | exactly one row per farm, the k-th row being the k-th farm's row |
| `Snapshot.FarmsInOrder` | src/main.rs:100-103 | the flattened farm list has as many farms as all platforms together |
| `Snapshot.FarmCount` | src/main.rs:100-103 | the sum of `farms.len()` over the platforms: at least each platform's farm count, and 0 exactly when no platform has a farm |
| `Snapshot.Reconcile` | src/main.rs:100-126 | the flattening of a snapshot: as many rows as `FarmCount` (one per farm), every row carrying the cycle's single date; `ReconcileAt` proves which row sits where |
| `Snapshot.FarmRowsAppend` | src/main.rs:103-125 | the rows of two farm lists laid end to end are the rows of each, in order |
| `Snapshot.FarmRowsSnoc` | src/main.rs:103-125 | serializing one more farm of a platform adds exactly that farm's row at the end |
| `Snapshot.FarmsInOrderAppend` | src/main.rs:101-103 | a further platform adds its farms after those already flattened |
| `Snapshot.ReconcileStep` | src/main.rs:101-126 | reconciling one more platform appends exactly that platform's rows |
| `Snapshot.ReconcileSnoc` | src/main.rs:101-126 | the rows of platforms `0..i` are those of platforms `0..i-1` followed by platform i's rows |
| `Snapshot.FarmsInOrderAt` | src/main.rs:101-103 | farm f of platform p sits at position (farms of platforms before p) + f of the traversal |
| `Snapshot.ReconcileAt` | src/main.rs:100-126 | the row at that position is the row of farm f of platform p, so rows are in platform-then-farm order |
| `Snapshot.PriceOnlyMovesBeltRows` | src/main.rs:106-118 | two prices give rows that agree in every field except usd_value, and in usd_value too for every farm not named `4BELT` |
| `Snapshot.BeltOverrideIgnoresSnapshotUsd` | src/main.rs:110-112 | for a `4BELT` farm the snapshot's `deposit.usd`, whatever it holds, does not change the row |
| `Store.Emitted` | src/main.rs:86-88 | what one writer appends: one line per row, preceded by the header carrying `Columns` exactly when the header was owed and at least one row was written |
| `Store.Records` | src/main.rs:122 | one record line per serialized row, in order |
| `Store.RecordsAppend` | src/main.rs:122 | serializing one more row appends one record line |
| `Store.HeaderCountAppend` | src/main.rs:86-88 | header lines of a concatenated file add up |
| `Store.RowsInAppend` | src/main.rs:122 | the rows read from a concatenated file are those of its parts, in order |
| `Store.RecordsRoundTrip` | src/main.rs:114-124 | record lines hold no header and read back as exactly the rows serialized |
| `Store.EmittedHeaderOnce` | src/main.rs:77-88 | one writer adds one header line if the file was new and it serialized a row, none otherwise, and its rows read back in order |
| `Store.TwoRuns` | src/main.rs:77-88 | a run creating the file followed by a run finding it: one header at most, and the rows of both runs read back, first run first |
| `Store.CsvWriter.Open` | src/main.rs:76-88 | the opened writer keeps the existing content and owes the header exactly when the file did not exist |
| `Store.CsvWriter.Serialize` | src/main.rs:122-124 | the owed header, then the record, are appended; earlier content is untouched and no header is owed afterwards |
| `Watcher.CyclePrice` | src/main.rs:93 | the price a cycle uses: `get_price`'s value when it succeeds, 1 when the listing failed or holds no pool entry |
| `Watcher.CycleRows` | src/main.rs:95-139 | the rows of one cycle: none when the snapshot request or decode failed, otherwise one per farm of the snapshot, all carrying the cycle's date |
| `Watcher.RunCycle` | src/main.rs:90-139 | the writer gains exactly the cycle's rows (none if the snapshot failed; otherwise the reconciled rows at the looked-up price, or 1 when the lookup failed); the old file content stays a prefix |
| `Watcher.SerializeFarms` | src/main.rs:103-125 | the writer gains exactly one row per farm of the platform, in order, and keeps its old content as a prefix |
| `Watcher.ReconcilePrefixStep` | src/main.rs:101-126 | after a platform's farms are serialized, the rows written so far are those of the platforms traversed |
| `Watcher.PriceFailureFallsBack` | src/main.rs:93 | when `get_price` fails, the cycle still reconciles the snapshot, at price 1 |
| `Watcher.ScenarioListedPrice` | src/belt.rs:19-22 | a listing quoting the pool LP at "1.23" behind another entry gives the price 1.23 |
| `Watcher.ScenarioBeltFarm` | src/main.rs:104-120 | a `4BELT` farm of 100 tokens with no snapshot USD value, rewards 5, at price 2 gives the row (100, 200, 5) |
| `Watcher.ScenarioOtherFarm` | src/main.rs:104-120 | a farm `OtherFarm` with 50 tokens, snapshot USD 75.5, rewards 1.2 gives usd_value 75.5 whatever the price |

## Left out

- HTTP requests (`reqwest::get`) and JSON decoding (`res.json`): inputs of type `Fetched<T>`, not behaviour.
- Logging (`SimpleLogger`, `info!`, `error!`) and command-line parsing (`StructOpt`): no effect on the rows.
- `tokio::time::sleep` and the endless `loop`: the model is one cycle, `RunCycle`; repeated cycles are repeated calls.
- `Utc::now()` and RFC 3339 formatting: the date is an opaque string passed in once per cycle.
- IEEE-754 `f64` arithmetic and `str::parse::<f64>`: amounts are `real`, so rounding in `amount * price` is not covered. Parsing is the parameter `parse: string -> Option<real>`. It cannot return the non-finite values `str::parse::<f64>` accepts ("NaN", "inf", "infinity"), nor the NaN or infinite prices and usd_values those would produce.
- Byte-level csv serialization, including quoting and number formatting. A line is `HeaderLine(Columns)` or `RecordLine(row)`. `Store.Columns` lists the header's names in `Row`'s field order, and the link between the two is by hand, not proved.
- Store.CsvWriter.Serialize: a failing `wtr.serialize` is not modelled. `main` logs it and moves on to the next farm. Every serialize succeeds here.
- `wtr.flush()`: it writes the writer's buffered records into the file, and `lines` is the content once the cycle's flush succeeds. A failed flush (logged, src/main.rs:130-132) is not modelled, and neither is a process killed between a serialize and the flush.
- `Path::exists` and `OpenOptions`: only their outcome, whether the file existed, is modelled, and the fatal `unwrap` on a failed open is left out.

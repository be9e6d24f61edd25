# geocode-server: request handling around the geocoding lookup

This project models the two HTTP handlers of a small geocoding server. The
PostGIS `geocode` lookup itself is opaque here.

- **Single address** (`geocode`): the handler merges the request's options
  over the defaults, runs one lookup, turns an empty answer into the error
  "No results found", and prints any other answer in the requested format.
- **Batch** (`geocode_batch`): the handler runs one lookup per address, all
  with the same result limit. It collects the outcomes in input order and
  logs a warning for each failed lookup. It tags every candidate of every
  successful lookup with its address, flattens the rows in order and prints
  them. Failed lookups never fail the request. Only the encoder can.
- **Options** (`merge`, `Options::default`): the defaults are format `Json`
  and `results = 10`. Each field present in the request overwrites the
  default for that field.
- **Output** (`OutFormat::print`): `Json` encodes the whole vector in one
  call. `Csv` feeds the elements to a CSV writer one by one: a header line
  before the first element, then one data line per element. Printing stops
  at the first failure and never returns partial output.

Modules:
- `Common`: `Option`, `Result`, `i32`, `byte` and the error values.
- `RequestOptions`: models `src/options.rs`.
- `Geocoding`: models `src/geocode.rs`.

How the model is put together:
- The database lookup (`geocode_query`) is a parameter of type
  `Query = (string, i32) -> Result<seq<GeocodeOutput>, DbError>`.
- The encoders (`serde_json`, the CSV header and record serialisers, and
  `into_inner` plus `String::from_utf8`) are the function fields of a
  `Codec<T>`.
- The CSV writer is a class with a byte buffer and a "header written" flag.
- `print` has two forms. `Print` is the imperative method with the writer
  loop. `Printed` is its value-level specification.
- The batch assembly is specified by `Successes`, which lays out the rows,
  and `FailedIndices`, which gives the indices that are warned about.
  `Total(ls[..i])` is the position of the first row of lookup `i`.

Two behaviours of the code that are easy to assume otherwise:
- The batch output holds the successful rows only. There is no `errors`
  field in either format. Failures only reach the log.
- `results` is any `i32`, passed to the lookup unchecked. The code does not
  require it to be positive.

## Model

| member | source | states |
|---|---|---|
| `RequestOptions.Default` | src/options.rs:36-43 | the defaults are format `Json` and `results = 10` |
| `RequestOptions.Options.MergeOpt` | src/options.rs:29 | a field present in the overrides replaces this value's field; an absent one keeps it |
| `RequestOptions.MergeOptIdempotent` | src/options.rs:29 | merging the same overrides a second time changes nothing |
| `RequestOptions.Merge` | src/options.rs:29-49 | each field of the result is the request's value when present and the default (`Json`, `10`) when absent |
| `RequestOptions.MergeAllAbsent` | src/options.rs:36-49 | merging no overrides yields `{Json, 10}` |
| `RequestOptions.MergeAllPresent` | src/options.rs:45-49 | merging overrides with both fields present yields exactly those values |
| `RequestOptions.MergeFieldsIndependent` | src/options.rs:45-49 | each merged field depends only on the same field of the overrides |
| `RequestOptions.MergeOnlyResults` | src/options.rs:36-49 | only `results = 3` yields `{Json, 3}` |
| `RequestOptions.FromEncode` | src/options.rs:17 | the `?` conversion keeps a success's text and wraps an encoder failure as an encoding error |
| `RequestOptions.Printed` | src/options.rs:12-26 | printing can fail only with an encoding error |
| `RequestOptions.CsvWriter.constructor` | src/options.rs:19 | a new writer has an empty buffer and has not written its header |
| `RequestOptions.CsvWriter.Serialize` | src/options.rs:21 | succeeds exactly when the element's lines serialise; then it appends the header line (first element only) and the element's line, and marks the header as written |
| `RequestOptions.Print` | src/options.rs:12-26 | the writer loop computes exactly `Printed`, including the early exit at the first failing element |
| `RequestOptions.PrintDeterministic` | src/options.rs:12-26 | printing the same vector in the same format twice gives the same result |
| `RequestOptions.CsvErrorSticks` | src/options.rs:20-22 | once a prefix fails to serialise, the whole CSV rendering fails with that same error, so there is no partial output |
| `RequestOptions.CsvSucceedsIff` | src/options.rs:20-23 | the CSV rendering succeeds if and only if every element's lines serialise |
| `RequestOptions.RecordLines` | src/options.rs:20-22 | there is one data line per element |
| `RequestOptions.CsvLayout` | src/options.rs:18-24 | a successful CSV rendering is empty for an empty vector; otherwise it is the first element's header line followed by every element's data line in input order |
| `Geocoding.Lookups` | src/geocode.rs:65-71 | there is one lookup outcome per address |
| `Geocoding.Rows` | src/geocode.rs:80-89 | a lookup contributes as many rows as it has records, and none if it failed |
| `Geocoding.Successes` | src/geocode.rs:79-93 | the number of batch rows is the sum of the record counts of the successful lookups |
| `Geocoding.FailedIndices` | src/geocode.rs:75-77 | the warned indices are exactly those whose lookup failed, each once, in increasing order |
| `Geocoding.WarningsExact` | src/geocode.rs:75-77 | every failed lookup is warned about with its own address and error |
| `Geocoding.WarningSource` | src/geocode.rs:75-77 | every warning is about a failed lookup, the one at the warning's position in the failed-index sequence |
| `Geocoding.WarningsInOrder` | src/geocode.rs:75-77 | warnings appear in increasing input order of their failed lookups |
| `Geocoding.RowsOrdered` | src/geocode.rs:79-93 | for an earlier address and a later one, each row of the earlier comes at a smaller position than each row of the later |
| `Geocoding.OffsetsOrdered` | src/geocode.rs:79-93 | all rows of an earlier address come before all rows of a later one |
| `Geocoding.SuccessesAt` | src/geocode.rs:73-93 | record `k` of successful lookup `i` is at position `Total(ls[..i]) + k`, tagged with address `i`, with rating, lon and lat copied unchanged; so one address's rows are contiguous and keep the lookup's record order |
| `Geocoding.SuccessesOrigin` | src/geocode.rs:73-93 | every batch row is a record of some successful lookup, tagged with that lookup's own address |
| `Geocoding.OriginUnique` | src/geocode.rs:79-93 | no two (lookup, record) pairs share a position in the batch output |
| `Geocoding.SuccessesAppend` | src/geocode.rs:79-93 | the rows of a concatenated batch are the rows of its first part followed by those of its second |
| `Geocoding.DropLookup` | src/geocode.rs:80-93 | a lookup with no rows leaves the output as if its address were not in the batch |
| `Geocoding.FailedLookupDropped` | src/geocode.rs:75-81 | a failed lookup is warned about and contributes no rows |
| `Geocoding.EmptyLookupSilentlyAbsent` | src/geocode.rs:75-93 | a lookup that succeeds with zero records is not warned about and contributes no rows |
| `Geocoding.BatchScenario` | src/geocode.rs:73-93 | for `["1 Main St", "", "2 Oak Ave"]` where the middle lookup fails: the rows of the first address come first, then those of the third, and only index 1 is warned about |
| `Geocoding.Dispatch` | src/geocode.rs:65-71 | the push loop yields one outcome per address, in input order, each obtained with the same limit |
| `Geocoding.Geocode` | src/geocode.rs:34-48 | a failed lookup is the handler's error; the result is "No results found" if and only if the lookup succeeded with no records; otherwise the lookup's exact output is printed in the merged format |
| `Geocoding.GeocodeBatch` | src/geocode.rs:58-96 | every lookup gets the merged limit; the result is the merged format's printing of the assembled rows; warnings cover exactly the failed lookups, in order; the only possible error is an encoding error |

## Left out

- `src/main.rs` is not part of this model: logger setup, credentials, the Postgres pool, the router and the TCP listener are process bootstrap.
- The SQL of `geocode_query` and the PostGIS `geocode` function are a parameter, `Query`. It is a function, so within one request the same address and limit give the same answer. Changes to the database between calls are not modelled.
- The concurrency of `FuturesOrdered` is modelled as a sequential, order-preserving loop. The crate collects results in push order whatever the completion order. The shared pool, its size and its acquire timeout are not modelled.
- The encoders in `Codec` are functions, so they are assumed deterministic (as `serde_json` and `csv` are for these structs, whose fields have a fixed order); `RequestOptions.PrintDeterministic` rests on that assumption.
- The byte formats of `serde_json` and the `csv` crate are abstract encoders in `Codec`: header naming, quoting and escaping are library internals.
- `lon` and `lat` are kept as 64-bit patterns (`F64`), since nothing here computes with them.
- The `warn!` call appears only as the returned `Warning` values (address and error). The log text and the logger are not modelled.
- `src/error.rs` is not part of this model. `AppError` is a three-case datatype: a message, a lookup error, an encoding error. These cases label where an error came from; in the source every error reaches `AppError` through `?` or `.into()`, and the conversion and the response text it produces are not modelled. So the "if and only if" in `Geocoding.Geocode` is about the error's origin, not about the response body.
- The axum extractors (`State`, `Query`, `Json`) and the `Deserialize` of `OptionsOpt`, which rejects unknown format names, are HTTP parsing.
- `RequestOptions.CsvWriter.Serialize`: after a failed call, the buffer and the header flag are not specified. The handler abandons the writer at that point, so no result depends on them.

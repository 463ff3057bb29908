# speedport2influxdb — a Dafny model of the poll-and-write core

`speedport_status.py` polls a Speedport router's `Status.json`, turns the
status items into a small dictionary of DSL metrics, and writes them as one
`dsl_status` point to InfluxDB. It does this forever, once per
`LOOP_INTERVAL`. This project models the decision logic of that script:

- **PyValues** (`py_values.dfy`): decoded JSON values, and the two Python
  built-ins the script applies to them. `str(v)` is `PyStr`. `int(v)` in
  base 10 is `PyInt`, with the string grammar written out in
  `ParseIntLiteral`: white space at both ends (ASCII `\t` to `\r` and the
  space, plus the non-ASCII `str.isspace()` characters), an optional sign,
  then digits with single underscores between digits. JSON `true` and
  `false` convert to 1 and 0, because a bool is an int in Python.
- **StatusFetcher** (`status_fetcher.dfy`): the item loop of `get_dsl_info`.
  It is written as the method `GetDslInfo` with a loop over the items. The
  method is proved equal to the table-driven reference fold `Normalise`. The
  lemmas cover the type filter, the five keys, last write wins, both
  coercions, and failure when `int()` raises.
- **MetricWriter** (`metric_writer.dfy`): `validate_influx_env` as a method
  that builds the list of missing names step by step. The snapshot is turned
  into a total five-field point (`ToMeasurement`). `write_to_influx` becomes
  a function that returns its outcome and, in order, the effects it asks of
  the client library: open a client, send the point, close the client.
- **PollLoop** (`poll_loop.dfy`): one iteration of the `__main__` loop
  (`Cycle`) and the loop itself. The loop is the method `RunMonitor`, proved
  equal to the function `Run`. It runs over a finite script of per-cycle
  inputs: the fetch outcome, the store's answer, and whether and where a
  KeyboardInterrupt arrives.

Configuration (`INFLUX_URL`, `INFLUX_TOKEN`, `INFLUX_ORG`, bucket) is passed
in as a value (`InfluxConfig`) instead of being read from the environment.

Three behaviours of the code differ from what a reader might expect; the
model follows the code:

- A non-numeric `varvalue` for `dsl_downstream`/`dsl_upstream` is not
  treated as 0. `int()` raises, the whole `get_dsl_info` call fails, and the
  loop substitutes `{}` (speedport_status.py:39-41, 72-76).
- The client is not closed on every path. `client.close()` runs only after
  `write` returns, so a failing write leaves it open (speedport_status.py:65-66).
- Not every interrupt exits cleanly. An interrupt that arrives in the
  `except Exception` handler (its print or its sleep, speedport_status.py:84-86)
  is not caught by the sibling `except KeyboardInterrupt` clause. It leaves
  the loop as an uncaught exception (`InterruptEscapes`), not through
  "Stopped by user".

## Model

| member | source | states |
|---|---|---|
| `PyValues.ParseIntLiteral` | speedport_status.py:39-41 | `int()` on a string: strip the white space, then an optional sign and a digit string; only a string holding a digit converts, so "" and blank strings raise |
| `PyValues.PyInt` | speedport_status.py:39-41 | `int(v)`: `None` raises, bools and ints always convert, an int converts to what its own text converts to, a string converts only when it holds a digit |
| `PyValues.PyStr` | speedport_status.py:43-47 | `str(v)` is empty only for the empty string, and the text of an int converts back to that int |
| `PyValues.ParseSigned` | speedport_status.py:39-41 | a literal `int()` accepts (after stripping) contains a digit and nothing but digits, signs, white space and underscores |
| `PyValues.ParsedLiteralShape` | speedport_status.py:39-41 | any string `int()` accepts has at least one digit and only digits, white space, signs and underscores |
| `PyValues.NonNumericStringFails` | speedport_status.py:39-41 | `int()` raises on any string with a character outside that set, e.g. "online" or "n/a" |
| `PyValues.IntDecimalRoundTrip` | speedport_status.py:39-41 | `int(str(n)) == n` for every int, negative ones included |
| `PyValues.PaddedDecimalParses` | speedport_status.py:39-41 | `int()` also accepts the decimal text with a `+` sign and white space around it |
| `PyValues.IntToDecimal` | speedport_status.py:43-47 | `str()` of an int is non-empty, starts with a digit or `-` and ends with a digit |
| `PyValues.StrOnline` | speedport_status.py:43-47 | `str(v) == "online"` exactly for the string "online"; never for an int, bool, null, float, list or dict |
| `StatusFetcher.Coerce` | speedport_status.py:38-47 | the conversion of one `varvalue`: only a rate key can raise; a rate key gives an int field, a flag key a bool field |
| `StatusFetcher.Step` | speedport_status.py:35-47 | one loop iteration of the reference fold: an earlier failure stays; a new failure is this item's `int()` raising; a skipped or unmapped item changes nothing; a converting item leaves its key present |
| `StatusFetcher.NormaliseFrom` | speedport_status.py:34-47 | the iterations applied in array order: when it fails from a successful start, the reported item is an item of the array whose `int()` raised |
| `StatusFetcher.Normalise` | speedport_status.py:33-49 | the reference result of `get_dsl_info`'s loop, starting from `{}`: a failure names an item of the array whose `int()` raised |
| `StatusFetcher.GetDslInfo` | speedport_status.py:33-49 | the in-place loop returns exactly the reference fold `Normalise`: the same dictionary, or the same `int()` failure |
| `StatusFetcher.TargetKey` | speedport_status.py:37-47 | the identifier table only ever names one of the five snapshot keys |
| `StatusFetcher.OnlySnapshotKeys` | speedport_status.py:37-47 | a successful result has only the keys downstream, upstream, link, online and connected; the rates hold ints, the flags bools |
| `StatusFetcher.InertItemIgnored` | speedport_status.py:35-47 | an item with a missing or other `vartype`, or an unknown `varid`, can be removed anywhere without changing the result |
| `StatusFetcher.TypeFilter` | speedport_status.py:35-36 | filtering out the items not tagged "value"/"status" first gives the same result |
| `StatusFetcher.PresentIffWritten` | speedport_status.py:34-47 | a key is in the result exactly when some eligible item has the matching `varid` |
| `StatusFetcher.LastWriteWins` | speedport_status.py:34-47 | a key's value is the one converted from the last eligible item with the matching `varid` |
| `StatusFetcher.EarlierDuplicateOverridden` | speedport_status.py:34-47 | an earlier item for a key that converts without raising can be dropped when a later item writes the same key |
| `StatusFetcher.FailsOnFirstUnconvertible` | speedport_status.py:34-41 | the call fails exactly when some eligible rate item makes `int()` raise, and it reports the first such item |
| `StatusFetcher.FlagCoercion` | speedport_status.py:42-47 | link/online/connected are true exactly for the case-sensitive string "online"; "Online", "offline", `true`, `null`, numbers, lists, dicts and a missing `varvalue` give false |
| `StatusFetcher.RateCoercion` | speedport_status.py:38-41 | downstream/upstream: missing `varvalue` gives 0, an int or its decimal text gives that int, `null` and non-numeric strings raise |
| `MetricWriter.ValidateInfluxEnv` | speedport_status.py:16-26 | fails exactly when URL, token or org is unset or empty, and then reports the missing names |
| `MetricWriter.MissingSettings` | speedport_status.py:18-24 | the names the three checks collect: at most three, drawn in order from INFLUX_URL, INFLUX_TOKEN, INFLUX_ORG |
| `MetricWriter.Join` | speedport_status.py:26 | `", ".join(missing)`: every missing name occurs in the joined text (its exact text is given by `JoinSnoc`) |
| `MetricWriter.JoinSnoc` | speedport_status.py:26 | joining one more name appends ", " and that name to the text of the shorter list |
| `MetricWriter.Message` | speedport_status.py:26 | the ValueError text starts with "Missing required environment variables: " and mentions every missing name (its exact text is given by `ValidationMessage`) |
| `MetricWriter.ValidationMessage` | speedport_status.py:18-26 | the exact ValueError text for each of the seven non-empty sets of unset settings: the lead-in, then the missing names in URL, token, organisation order, separated by ", " |
| `MetricWriter.MissingNamesExact` | speedport_status.py:18-24 | the collected names are exactly the unset settings, in the order they are checked |
| `MetricWriter.ValidatorReportsExactlyMissing` | speedport_status.py:18-26 | the list is non-empty iff a setting is unset or empty; it holds exactly those names, ordered INFLUX_URL, INFLUX_TOKEN, INFLUX_ORG; whitespace-only values count as present |
| `MetricWriter.ToMeasurement` | speedport_status.py:57-58 | the point is the measurement `dsl_status` tagged `host=speedport` |
| `MetricWriter.MeasurementIsTotal` | speedport_status.py:59-63 | each of the five fields is the snapshot's value when the key is present, else 0 for the rates and false for the flags; well-typed snapshots give int rates and bool flags |
| `MetricWriter.WriteToInflux` | speedport_status.py:51-66 | validation runs first: a config error has no effects at all; otherwise the effects are exactly: open a client for the configured URL/token/org, send the defaulted point to the bucket, and close the client only when the write succeeded |
| `PollLoop.FetchStage` | speedport_status.py:72-76 | a failed fetch or a raising `get_dsl_info` gives `{}`; otherwise the normalised dictionary; either way well-typed |
| `PollLoop.Cycle` | speedport_status.py:71-86 | an iteration ends the loop exactly when interrupted; unless interrupted during the fetch or its print, it hands the fetch-stage snapshot to the writer; every finished write attempt, failed or not, reaches the print-and-sleep step after it (`sleeps`); an interrupt after a failed write escapes uncaught |
| `PollLoop.Run` | speedport_status.py:70-86 | the reference loop over the script: never more cycles than the script, and the whole script when no cycle ends the loop |
| `PollLoop.RunCycle` | speedport_status.py:71-86 | one pass through the loop body (fetch, print, write, print, sleep, exception handlers) gives exactly the report of `Cycle` |
| `PollLoop.RunMonitor` | speedport_status.py:70-86 | the `while True` loop produces exactly the reports and exit of `Run` |
| `PollLoop.RunStructure` | speedport_status.py:70-86 | the cycles of a run are those of the script, in order; only the last can end the loop; without an exit the whole script runs |
| `PollLoop.OnlyInterruptStops` | speedport_status.py:78-86 | the loop ends iff some cycle is interrupted, at the first such cycle; every earlier cycle reached its sleep step and went on, whatever error it had |
| `PollLoop.FetchFailureStillWrites` | speedport_status.py:72-78 | a failed fetch still calls the writer, with `{}`, which sends the all-default point when the configuration is complete |
| `PollLoop.WrittenFieldFromItems` | speedport_status.py:34-63 | a written field is the value converted from the last item writing its key, or its default when no item does |
| `PollLoop.ScenarioRateAndOnline` | speedport_status.py:33-63 | downstream "50000" and onlinestatus "online" give `{downstream: 50000, online: true}` and the point (50000, 0, false, true, false) |
| `PollLoop.ScenarioTokenUnset` | speedport_status.py:78-86 | with the token unset, a cycle fails validation with no client effects, reports "Missing required environment variables: INFLUX_TOKEN", sleeps and continues |
| `PollLoop.ScenarioInterruptDuringSleep` | speedport_status.py:79-83 | an interrupt during the sleep after a successful write stops the loop cleanly; no later cycle runs |

## Left out

- The HTTP GET, `raise_for_status` and JSON decoding (speedport_status.py:29-31) are network and library calls. The model takes only their outcome: the decoded items, or a failure. A body that is `null`, a bool or a number, or whose iteration yields something other than objects (a non-empty string, a non-empty JSON object, whose keys are strings, or a list holding a non-object), raises TypeError or AttributeError at lines 34-35 and is caught at line 74; it falls under the same failure. An empty JSON object `{}` or an empty string `""` is iterated zero times and gives `{}` without raising, the same as `Fetched([])`.
- The InfluxDB client library is a foreign library. Client construction, `write_api`, the `Point` builder internals and `close()` (speedport_status.py:54-55, 65-66) appear only as the effects `ClientOpened`, `PointSent` and `ClientClosed`. The store's answer is an input.
- Reading the environment at import time, the `SPEEDPORT_URL`/`STATUS_URL` strings and the `int(LOOP_INTERVAL)` parse (speedport_status.py:7-14) are process-start plumbing. The configuration is a parameter. A negative interval, which would make `time.sleep` raise, is not modelled.
- `time.sleep`, `print` logging and the timing of KeyboardInterrupt delivery (speedport_status.py:69-86) involve real time, I/O and signals. Sleeping is a flag in the cycle report (`sleeps`): it says the iteration reached the print-and-sleep step; an `AfterWrite` interrupt may arrive in the print, before `time.sleep` starts. The interrupt is an input naming the stage it hits.
- `RunMonitor`: the `while True` loop never ends without an interrupt. The model runs it over a finite script of cycles, so a run past the script's end is not modelled.
- `PyValues.PyInt`: floats, arrays and objects (`JOther`) are abstract. The model keeps only their `str()` text, constrained to begin as Python prints them (a digit, `-`, `i`, `n`, `[` or `{`), and the result of `int()` on them. Float truncation and repr formatting are not modelled.
- `PyValues.ParseIntLiteral`: the model accepts only ASCII digits, not other Unicode decimal digits. It does not model Python's limit of 4300 digits for string conversion.
- Other exceptions in the main loop (for example `MemoryError`) are not modelled.

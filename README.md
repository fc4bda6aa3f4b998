# Valenbisi collector — a Dafny model

This project models the two collectors of the Valenbisi bike-sharing data in
the Reto-Valencia repository. Both read station records from the Valencia
open-data API and write them to the PostgreSQL table `valenbisi_raw`.

- **The batch collector** (`valenbisi.py`) has three steps.
  - **Extract:** it pages through the API 100 records at a time. It stops at
    the first page that is empty or short, and returns `[]` if a request
    fails.
  - **Transform:** it turns every record into a row. Every row carries the
    same capture time. The status is OPEN only for the flag `"T"` or `True`.
  - **Load:** it inserts the whole batch with one `execute_values` call and
    one commit, so the table gains all the rows or none.
- **The earlier per-row collector** (`VALENCIA/valenbisi.py`) has
  `save_to_db`. It inserts the stations of one API response one at a time
  over a long-lived connection. On any failing station dict it calls
  `conn.rollback()` and continues, and it commits once at the end. It counts
  the successful inserts in `records_inserted`.

## Modules

- `wrappers.dfy`: `Option`.
- `json_value.dfy`:
  - the values Python's JSON decoder yields;
  - `dict.get` with and without a default;
  - truthiness;
  - `int()` of None, bool, int, float and str;
  - `str(n)` and the round trip `int(str(n)) == n`.
- `table.dfy`:
  - the table row;
  - the table, as the class `Store`, which holds the committed rows;
  - a psycopg2 connection, as the class `Connection`. It tracks the rows
    pending in the open transaction and whether a failed statement has
    aborted that transaction. It offers `execute`, `execute_values`,
    `commit`, `rollback`, rollback to a savepoint, and `close`.
  - Whether the server accepts a row (SQL types, NOT NULL) is the store's
    fixed predicate `admits`.
- `collector.dfy`: `extract_data_from_api`, `transform_data` and
  `load_data_to_db`.
  - Extraction takes the API as a function from offset to page and is
    proved against `Flatten`, the concatenation of the pages requested.
  - The transform is proved against `Normalize`, the per-record rule.
- `legacy_collector.dfy`: `save_to_db`.
  - The loop is proved against a per-station outcome sequence
    (`Attempts`).
  - It is also proved against `Survivors`: the rows still pending are the
    rows landed after the last failure.
  - It holds the as-written halves of the three findings below and the
    corrected `save_to_db`; the corrected status rule is `FlagStatus` in
    `collector.dfy`.

`transform_data` calls `int(item.get('available', 0))`, and likewise for
`free` and `total`. A count present with the value `null` therefore raises
a TypeError, and a non-numeric string raises a ValueError. The count does not become 0.
`Normalize` returns `None` there, and `TransformData` returns `None`, which
stands for the exception.

## Model

| member | source | states |
|---|---|---|
| JsonValue.ParseInt | valenbisi.py:123-126 | the string case of `int()`: the model accepts exactly a non-empty run of ASCII decimal digits with an optional leading `+` or `-`, and rejects every other string; a `-` gives a non-positive value, otherwise non-negative |
| JsonValue.IntOf | valenbisi.py:123-126 | `int(v)` per JSON kind: None, a list or a dict raise; `True`/`False` give 1/0; an int is itself; a float gives the integer within one of it on the side of zero; a string is parsed by `ParseInt` |
| JsonValue.Truthy | VALENCIA/valenbisi.py:69-70 | `bool(v)` is false exactly for None, `False`, `0`, `0.0`, `""`, `[]` and `{}` |
| JsonValue.Truncate | valenbisi.py:123-126 | `int(x)` of a float truncates toward zero: the result is within one of `x`, on the side of zero |
| JsonValue.DigitsRoundTrip | valenbisi.py:123-126 | the decimal text of a natural number is a non-empty digit string whose value is that number |
| JsonValue.IntOfDecimalString | valenbisi.py:123-126 | `int(str(n)) == n` for every integer, so a count sent as its decimal string reads back unchanged |
| Table.Store.constructor | valenbisi.py:20-33 | a table with the given acceptance rule and committed rows |
| Table.Connection.Open | valenbisi.py:42-50 | a fresh connection has no pending rows and no aborted transaction |
| Table.Connection.Execute | VALENCIA/valenbisi.py:79-82 | a single-row insert succeeds iff the transaction is not aborted and the row is admitted; success appends the row to the pending rows, failure aborts the transaction |
| Table.Connection.ExecuteBatch | valenbisi.py:144-146 | a multi-row insert appends all rows or none: it succeeds iff the transaction is not aborted and every row is admitted, and failure aborts the transaction |
| Table.Connection.Commit | valenbisi.py:147 | the pending rows are appended to the committed rows in order; an aborted transaction commits nothing; the new transaction is empty |
| Table.Connection.Rollback | VALENCIA/valenbisi.py:87 | every uncommitted row is discarded and the aborted state cleared |
| Table.Connection.RollbackTo | VALENCIA/valenbisi.py:85-88 | rolling back to a savepoint keeps exactly the rows pending when it was taken |
| Table.Connection.Close | valenbisi.py:151-152 | closing ends the transaction without committing it |
| Collector.ExtractDataFromApi | valenbisi.py:68-101 | requests offsets 0, 100, 200, ... and stops at the first page that fails, is empty or is short, with no earlier page doing so; returns the concatenation of all pages fetched, or `[]` if the last request failed |
| Collector.SlicesLastPage | valenbisi.py:85-92 | over a source that serves consecutive 100-record slices of a fixed list, the first page to end the loop is page `len / 100` |
| Collector.SlicesFlatten | valenbisi.py:88 | over such a source, the records of the first `n` pages are the list's first `min(100 n, len)` records |
| Collector.SlicesExtractWhole | valenbisi.py:68-101 | over such a source, extraction stops at page `len / 100`, that page is served, and the records fetched are exactly the whole list, in order |
| Collector.ExtractWholeList | valenbisi.py:68-101 | extraction over a source that serves consecutive 100-record slices of a fixed list returns exactly that list |
| Collector.FourPagesExample | valenbisi.py:85-94 | pages of 100, 100, 100 and 40 records: the fourth page is the last and 340 records are fetched |
| Collector.FlagStatusHonoursFlags | valenbisi.py:114-115 | `"T"` and `True` give OPEN; `"F"`, `False`, a missing flag and `1` give CLOSED |
| Collector.NormalizeFields | valenbisi.py:109-128 | a record's row takes `number`, `address`, `geo_point_2d.lat/lon` (null when absent), the three counts through `int()` (0 when absent), the flag rule and the call's capture time |
| Collector.NormalizeFails | valenbisi.py:109-128 | building a record's tuple raises iff the record is not a dict, `geo_point_2d` is present but not a dict, or a present count is not int-convertible |
| Collector.TransformData | valenbisi.py:104-131 | fails iff some record fails; otherwise one row per record, in order, each the record's normalisation, all with the same timestamp `queryTime` |
| Collector.LoadDataToDb | valenbisi.py:134-152 | no connection for an empty batch or an unreachable database; otherwise a fresh connection, returned closed, and the table gains the whole batch in order iff every row is admitted, and nothing otherwise |
| LegacyCollector.RowOfFields | VALENCIA/valenbisi.py:57-70 | a station's row has the station id `int(number)`, `address`, `position.lat/lon` (null when absent), the three counts through `int()` (0 when absent), OPEN for a missing flag, else OPEN iff the flag is truthy, and the capture time |
| LegacyCollector.RowOfFails | VALENCIA/valenbisi.py:57-67 | the body of the `try` raises iff `int(number)` fails, `position` is present but not a dict, or a present count is not int-convertible |
| LegacyCollector.Attempts | VALENCIA/valenbisi.py:55-88 | one outcome per station visited |
| LegacyCollector.AttemptsAt | VALENCIA/valenbisi.py:55-88 | the outcome at index `j` is station `j`'s own attempt, independent of the others |
| LegacyCollector.LandedRows | VALENCIA/valenbisi.py:83 | no more rows land than stations are visited |
| LegacyCollector.LandedRowsFromOutcomes | VALENCIA/valenbisi.py:79-83 | every landed row is the row of one of the stations |
| LegacyCollector.LandedRowsShareTime | VALENCIA/valenbisi.py:51 | every row one call lands carries that call's single `current_time` |
| LegacyCollector.LastFailure | VALENCIA/valenbisi.py:85-88 | the index of the last failing station: that station failed and every later one landed; when there is none, every station landed |
| LegacyCollector.LandedRowsAppend | VALENCIA/valenbisi.py:83 | the rows landed by two runs in sequence are the first run's followed by the second's |
| LegacyCollector.SurvivorsStep | VALENCIA/valenbisi.py:79-88 | a station that lands appends its row to the uncommitted rows; a failing one (through `conn.rollback()`) empties them |
| LegacyCollector.CounterOverstatesAfterRollback | VALENCIA/valenbisi.py:83-93 | after a last failure at `k`, only the rows landed after `k` remain, and `records_inserted` also counts the rows landed before `k`, which the rollback discarded |
| LegacyCollector.OneBadRowAmongGood | VALENCIA/valenbisi.py:83-88 | when exactly one station fails, the counter counts all the others |
| LegacyCollector.AllLand | VALENCIA/valenbisi.py:79-83 | when no station fails, the counter counts every station |
| LegacyCollector.Iteration | VALENCIA/valenbisi.py:55-86 | what `for item in data['results']` visits before the first insert: a list's items in order, nothing for `""` or `{}`, and a raise for every other value (a non-iterable, or a non-empty string or dict whose first element is a string) |
| LegacyCollector.ObjectPrefix | VALENCIA/valenbisi.py:55-86 | the number of stations the loop processes before a non-dict item is at most the number of items |
| LegacyCollector.ObjectPrefixAt | VALENCIA/valenbisi.py:86 | within the processed prefix, an item is a dict iff the loop has not reached its end; the first non-dict item is where the `except` clause raises |
| LegacyCollector.TryStation | VALENCIA/valenbisi.py:56-88 | one station lands iff its row can be built and is admitted; then the row is appended to the pending rows, otherwise `conn.rollback()` empties them; the transaction is never left aborted |
| LegacyCollector.InsertStations | VALENCIA/valenbisi.py:55-88 | the loop raises iff a non-dict item occurs; the pending rows are the survivors of the outcomes of the stations before it, and the counter is the number of rows landed |
| LegacyCollector.SaveToDb | VALENCIA/valenbisi.py:44-93 | returns early iff there is no data or no `results`; raises iff `results` is not iterable into dicts, with no commit; otherwise commits exactly the rows landed after the last failure; the counter is every row landed |
| LegacyCollector.TruthyStatusOpensClosedFlag | VALENCIA/valenbisi.py:69-70 | the truthiness rule makes a station with flag `"F"` OPEN, where the flag rule makes it CLOSED |
| LegacyCollector.RollbackDiscardsEarlierRows | VALENCIA/valenbisi.py:83-91 | a good station followed by one without `number`: the counter is 1, yet nothing survives to the commit |
| LegacyCollector.NonDictItemAbortsSave | VALENCIA/valenbisi.py:55-88 | results `[{"number": 1}, 5]`: the first station is processed, then the loop raises at the second item, so `save_to_db` ends without a commit |
| LegacyCollector.TryStationIsolated | VALENCIA/valenbisi.py:56-88 | under a savepoint, one item lands iff it is a dict whose row builds and is admitted; an item that fails, dict or not, leaves the earlier pending rows untouched |
| LegacyCollector.InsertStationsIsolated | VALENCIA/valenbisi.py:55-88 | the corrected loop never raises: every item is attempted, the pending rows gain exactly the landed rows, in order, and the counter equals their number |
| LegacyCollector.SaveToDbIsolated | VALENCIA/valenbisi.py:44-93 | the corrected policy raises only when `results` cannot be iterated into items, without inserting; otherwise the commit makes every landed row of every item durable, after the rows pending before the call, and the counter equals the number committed |

## Left out

- HTTP and JSON decoding (`requests.get`, `raise_for_status`,
  `response.json()`). The API is a function from offset to page.
  - A page is the `results` list of the response, with `[]` when the key is
    missing, or a request error.
  - A decoded `results` that is not a list is not modelled.
  - The legacy `fetch_data` is not modelled. `save_to_db` receives the
    decoded response as an optional dict, and a response body that is a
    JSON list or scalar is not modelled.
- `get_db_connection` in both files. The batch loader takes a
  `reachable` flag in its place. The legacy version's retry-every-5-seconds
  loop, which may never end, is left out, and its connection is a parameter.
- `init_db` and the SQL text. A row's acceptance by PostgreSQL (column
  types, `NOT NULL`, numeric precision) is the store's fixed predicate
  `admits`. A transient, non-deterministic server failure is not modelled.
- Both `main` loops, `time.sleep`, logging and `print`.
- `datetime.now()`: it becomes the `queryTime` or `now` parameter.
- `execute_values` sends its rows in statements of 100. They run in one
  transaction, so the model treats them as one all-or-nothing insert.
- A failure of `conn.commit()` or `conn.close()` themselves.
- Floats are exact reals: NaN, infinities and float precision are left out.
- ParseInt (the string case of IntOf): Python's `int()` on a string also
  accepts surrounding whitespace, `_` digit separators and non-ASCII decimal
  digits. The model accepts only an optional sign and ASCII digits, so for
  example a count sent as `" 5"` fails in the model but not in Python.
- ExtractDataFromApi: requires that some page would end the loop. Over a
  source that always serves full pages the Python loop never ends, and that
  behaviour is not modelled.
- ExtractDataFromApi: `requested` records the offsets requested but not the
  `limit=100` query parameter, which is constant.
- SaveToDbIsolated: a `results` value that is a non-empty string or dict
  still counts as raising before any insert. With the corrected `except`
  clause, Python would iterate its characters or keys instead. Each of those
  is a string, which fails as a station, so nothing new would land.
- SaveToDb, InsertStations and TryStation: require that the connection's
  transaction is not aborted on entry. Every call leaves it not aborted, so
  the requirement holds for each connection `main` passes on.

## Findings

| source | as written | input that shows it | evidently intended | confidence | as-written member | corrected member |
|---|---|---|---|---|---|---|
| VALENCIA/valenbisi.py:69-70 | `'OPEN' if is_open else 'CLOSED'` uses Python truthiness | a station with `"open": "F"` is stored as OPEN | the string flag `"F"` means closed, as the batch collector reads it (`"T"` or `True` is OPEN) | not executed | LegacyCollector.TruthyStatusOpensClosedFlag | Collector.FlagStatusHonoursFlags |
| VALENCIA/valenbisi.py:87 | `conn.rollback()` after one failing station discards every uncommitted insert of the call | results `[{"number": 1}, {}]`: the first row is inserted and counted (`records_inserted` = 1), the second raises, the rollback removes the first, and the commit stores nothing | roll back only the failing station (the comment says so: undo so as not to block everything), keeping the earlier rows | not executed | LegacyCollector.RollbackDiscardsEarlierRows | LegacyCollector.SaveToDbIsolated |
| VALENCIA/valenbisi.py:86 | the `except` clause calls `item.get('number')` again, which raises for an item of `results` that is not a dict; the exception leaves `save_to_db` with no rollback and no commit, and `main` has no handler | results `[{"number": 1}, 5]`: the first station is inserted, then the second item raises out of the loop, the call ends without a commit, and the process stops | a malformed record fails like any bad station, and the loop goes on to the rest of the cycle | not executed | LegacyCollector.NonDictItemAbortsSave | LegacyCollector.SaveToDbIsolated |

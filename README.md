# DynamicSQLDataExtractor, modelled in Dafny

DynamicSQLDataExtractor is an interactive report tool. It shows a numbered
catalog of parameterised SQL queries. The operator picks one and types a start
date and an end date. The tool runs the query against MySQL, pulls the result
in batches of 1000 rows and writes it to `reports/<description>_<start>_<end>.csv`.
It then asks whether to run another report.

This project models that interactive loop (`while True` in
`DynamicSQLDataExtractor.py`) as a state machine driven by a scripted console
and an abstract database server, and proves what the loop promises.

- `outcomes.dfy` (`Outcomes`): `Option` and the driver's `Result`.
- `py_builtins.dfy` (`PyBuiltins`): the Python built-ins the loop depends on.
  These are `int(str)` (white space, sign, underscore grouping), `str.lower()`
  and `os.path.join` (POSIX). `str(int)` (`Show`) is there only to state
  which selection texts denote the number n.
- `driver.dfy` (`Driver`): the abstract server and the cursor.
  - The server answers each request with a `Reply`. It also has the message
    of the error `execute` raises once the connection is lost; a request on a
    lost connection never reaches the server (`Answer`).
  - A `Reply` gives, for one request, the column names and the rows.
  - It also names the driver call that raises `Error`, if any: call 0 is
    `execute`, call k is the k-th `fetchmany`.
  - It also says whether the connection is still up afterwards.
  - `Cursor` is a class with `Execute`, `FetchMany` and `Close`.
  - `Chunks` and `Concat` describe the batches and their concatenation.
- `report_loop.dfy` (`ReportLoop`): pure functions that specify the loop.
  - `Iteration` is one pass of the loop body; `RunLoop` is the whole loop.
  - The lemmas state the selection, path, no-data, error, exit and
    close-once properties.
- `session.dfy` (`Session`): the class `ReportSession`. Its fields are the
  catalog, the cursor, the unread console lines, the `connected` flag and the
  log. Its methods carry out the loop step by step. `TryReport`, `Finally`,
  `Iterate` and `Run` are proved equal to the `ReportLoop` functions `Attempt`,
  `Decide`, `Iteration` and `RunLoop`. The fetch loop `FetchChunks` is proved
  equal to `Driver.FetchOutcome` through its loop invariants. `ReadLine`
  states its effect on the script directly.

The log records console messages, the row count, the reports-directory call,
each CSV file as (path, header, rows), and the cursor and connection closes.

Four behaviours of the code are easy to miss:
- The report path is built with `os.path.join`. A description that starts
  with `/` therefore gives an absolute path outside `reports/` (`ReportPath`).
  So the path is not always under `reports/`.
- After "no data" the code does not go straight back to the menu. The
  `continue` is inside `try`, so the `finally` clause still asks the continue
  question (`NoDataStillAsks`).
- The continue question is asked only while `connection.is_connected()`
  holds. Once the connection is lost, the loop cannot end by "n"
  (`DisconnectedNeverFinishes`).
- Nothing reconnects. After the connection is lost, every chosen entry's
  `execute` raises on the dead connection; the error is printed and the menu
  comes back (`LostConnectionFails`).

## Model

| member | source | states |
|---|---|---|
| `PyBuiltins.ParseIntShow` | DynamicSQLDataExtractor.py:69-71 | `int()` reads back the number `str(n)` wrote, whatever white space it skips surrounds it, when it has at most 4300 digits; with more digits it raises |
| `PyBuiltins.ParseInt` | DynamicSQLDataExtractor.py:69-71 | `int()` on the selection line: an accepted line, once stripped of space, HT, LF, VT, FF and CR, ends in a digit and holds 1 to 4300 digits; a negative result was written with a minus |
| `PyBuiltins.ParseIntRejectsSeparator` | DynamicSQLDataExtractor.py:69-71 | the information separators 0x1C-0x1F are not white space to `int()`: a selection line starting with one, such as "\x1c1", raises |
| `PyBuiltins.ParseIntNeedsDigit` | DynamicSQLDataExtractor.py:69-71 | a selection line with no decimal digit makes `int()` raise |
| `PyBuiltins.Lower` | DynamicSQLDataExtractor.py:145-147 | `lower()` keeps the length and lowers each ASCII capital, position by position |
| `PyBuiltins.JoinPath` | DynamicSQLDataExtractor.py:87-89 | `os.path.join(a, b)`: an absolute `b` is the result; otherwise the result starts with `a`, ends with `b`, and has a `/` inserted exactly when `a` is non-empty and does not end in `/` |
| `Driver.Cursor.constructor` | DynamicSQLDataExtractor.py:50 | a fresh cursor is open and has delivered nothing |
| `Driver.Cursor.Execute` | DynamicSQLDataExtractor.py:96 | the answer to the request becomes the current result: the server's reply over a live connection, the lost-connection error over a lost one; the call fails exactly when that answer fails on `execute`; it is called on an open cursor |
| `Driver.Cursor.FetchMany` | DynamicSQLDataExtractor.py:101 | returns the next at most `size` undelivered rows in order, `[]` when none are left, or the driver error, and counts the call; it is called on an open cursor with a positive size, as the loop's `fetchmany(1000)` is |
| `Driver.Cursor.Close` | DynamicSQLDataExtractor.py:149 | the cursor is closed |
| `Driver.Answer` | DynamicSQLDataExtractor.py:96 | a request over a live connection gets the server's reply; over a lost one `execute` raises the lost-connection error and the connection stays down |
| `Driver.FetchOutcome` | DynamicSQLDataExtractor.py:99-106 | the fetch loop fails iff one of the `fetchmany` calls it makes raises; otherwise its chunks concatenate to all the rows, their sizes sum to the row count, and the list is empty iff there are no rows |
| `Driver.Chunks` | DynamicSQLDataExtractor.py:100-106 | the batches repeated `fetchmany(1000)` calls return: there are none exactly when there are no rows (their number and sizes are stated by `ChunksShape`) |
| `Driver.Concat` | DynamicSQLDataExtractor.py:113-115 | `pd.concat(chunks)` has as many rows as the chunks hold together |
| `Driver.ChunksConcat` | DynamicSQLDataExtractor.py:99-106 | concatenating the batches in order gives back exactly the rows fetched |
| `Driver.ChunksShape` | DynamicSQLDataExtractor.py:99-106 | every stored batch is non-empty and holds at most 1000 rows; all but the last hold exactly 1000; there are ceil(rows/1000) of them |
| `Session.ReportSession.FetchChunks` | DynamicSQLDataExtractor.py:99-106 | the loop of `fetchmany(1000)` calls ends at the first empty batch with the chunk list `FetchOutcome` describes, or with the first driver error |
| `ReportLoop.Select` | DynamicSQLDataExtractor.py:69-77 | a selection is rejected as non-numeric iff `int()` raises; it is accepted iff 1 <= n <= catalog size, and then the index is n - 1 |
| `ReportLoop.SelectNumber` | DynamicSQLDataExtractor.py:69-74 | the typed number n, padded or not, picks entry n - 1 when 1 <= n <= count and is rejected otherwise; typed with more than 4300 digits it raises |
| `ReportLoop.SelectNeedsDigit` | DynamicSQLDataExtractor.py:69-71 | a selection line holding no digit is never a number |
| `ReportLoop.ReportPath` | DynamicSQLDataExtractor.py:87-89 | the path is `reports/` + description + `_` + start + `_` + end + `.csv` with the dates verbatim, except that a description starting with `/` drops the `reports/` prefix |
| `ReportLoop.ReportPathsCollide` | DynamicSQLDataExtractor.py:87-89 | two different requests can get the same file name, so the later report replaces the earlier one |
| `ReportLoop.Attempt` | DynamicSQLDataExtractor.py:91-141 | a driver error on `execute` or in the fetch loop logs only "Error executing query: " + message. No rows logs only "No data returned". Otherwise the row count is logged and one file is written holding the reply's columns and all its rows |
| `ReportLoop.AttemptWritesIff` | DynamicSQLDataExtractor.py:109-130 | a file is written iff no driver call raises and at least one row comes back, and that file is (path, columns, every row of the reply, recorded in fetch order) |
| `ReportLoop.WantsExit` | DynamicSQLDataExtractor.py:145-148 | the answer ends the session iff it is exactly "n" or "N"; blank, "y" and " n" do not |
| `ReportLoop.Decide` | DynamicSQLDataExtractor.py:143-151 | the loop quits iff connected and the next line lowers to "n", and it then closes cursor and connection. When disconnected nothing is read. A missing line raises. Any other answer loops back unchanged |
| `ReportLoop.Iteration` | DynamicSQLDataExtractor.py:64-151 | a pass that loops back has consumed input. The log only grows. A quitting pass was connected, ends disconnected and ends its log with the close. A pass never reconnects |
| `ReportLoop.Report` | DynamicSQLDataExtractor.py:83-141 | after a valid selection, exactly the two date lines are read; the log only grows; the connection is never regained |
| `ReportLoop.RunLoop` | DynamicSQLDataExtractor.py:64-151 | a run that ends by `break` leaves the connection closed |
| `ReportLoop.InvalidSelectionRestarts` | DynamicSQLDataExtractor.py:73-77 | an out-of-range number reads only its own line, logs "Invalid selection", executes and writes nothing, skips the continue question and loops back |
| `ReportLoop.NotANumberAborts` | DynamicSQLDataExtractor.py:69-71 | a non-numeric selection ends the loop abnormally with nothing logged |
| `ReportLoop.ChosenEntryRuns` | DynamicSQLDataExtractor.py:73-96 | typing n (at most 4300 digits) runs entry n - 1's query with the two date lines verbatim as parameters and names the report from its description and those lines |
| `ReportLoop.LostConnectionFails` | DynamicSQLDataExtractor.py:91-151 | on a lost connection a chosen entry reads its two date lines, logs only the lost-connection error, writes nothing, skips the continue question and loops back still disconnected |
| `ReportLoop.ChosenPass` | DynamicSQLDataExtractor.py:73-151 | after a valid selection and two date lines, the pass is the `try` block on the server's reply followed by the `finally` decision |
| `ReportLoop.UnchosenPass` | DynamicSQLDataExtractor.py:69-84 | a pass that does not reach the `try` block never quits by `break`, keeps the connection as it was, and logs at most "Invalid selection". There are three such cases: an out-of-range number loops back; a non-numeric line raises `ValueError`; input running out before both dates raises `EOFError` |
| `ReportLoop.GoodReplyWrites` | DynamicSQLDataExtractor.py:99-130 | a reply with rows and no driver error logs the row count, makes the reports directory and writes one file with the columns and every row |
| `ReportLoop.NoDataStillAsks` | DynamicSQLDataExtractor.py:109-151 | with no rows, "No data returned" is logged, no directory is made and no file written, and the continue question is still asked |
| `ReportLoop.DriverErrorCaught` | DynamicSQLDataExtractor.py:91-151 | a driver error is logged, writes no file, does not escape the loop, and the continue question is still asked while connected |
| `ReportLoop.QuitIff` | DynamicSQLDataExtractor.py:143-151 | a pass ends the loop iff an entry ran, the connection is up and the answer lowers to "n"; it then closes cursor and connection; any other answer loops back still connected |
| `ReportLoop.IterationCloses` | DynamicSQLDataExtractor.py:143-151 | a pass closes the connection once if it ends the loop and never otherwise |
| `ReportLoop.RunClosesOnce` | DynamicSQLDataExtractor.py:64-151 | over a whole run the connection is closed exactly once if the loop ends by `break`, and never if it ends by an exception |
| `ReportLoop.DisconnectedNeverFinishes` | DynamicSQLDataExtractor.py:144-151 | once the connection is down, the loop can only end by an exception |
| `ReportLoop.RunExtendsLog` | DynamicSQLDataExtractor.py:64-151 | a run only appends to what was logged before it |
| `ReportLoop.OneReportPass` | DynamicSQLDataExtractor.py:64-151 | a selection picking the only entry, two dates and an answer that lowers to "n" make one pass that writes the one report and quits, closing cursor and connection |
| `ReportLoop.OneReportSession` | DynamicSQLDataExtractor.py:64-151 | the script "1", two dates, "n" on a one-entry catalog whose query returns rows writes exactly one file, `reports/<description>_<start>_<end>.csv`, holding all rows, then closes cursor and connection and finishes |
| `Session.ReportSession.constructor` | DynamicSQLDataExtractor.py:47-54 | the session starts connected, with the catalog, the script and an empty log |
| `Session.ReportSession.ReadLine` | DynamicSQLDataExtractor.py:83-84 | `input()` returns and consumes the next scripted line, or signals end of input |
| `Session.ReportSession.TryReport` | DynamicSQLDataExtractor.py:91-141 | the `try` block appends exactly `Attempt` of the answer to the log (the server's reply, or the lost-connection error when disconnected) and keeps the connection only if it was up and the server kept it |
| `Session.ReportSession.Finally` | DynamicSQLDataExtractor.py:143-151 | the `finally` clause moves the state exactly as `Decide` says; it closes the cursor on exit and leaves it as it was on every other outcome |
| `Session.ReportSession.Iterate` | DynamicSQLDataExtractor.py:64-151 | one pass of the loop body moves the session exactly as `Iteration` says, a quitting pass leaves the cursor closed and every other pass leaves it open |
| `Session.ReportSession.Run` | DynamicSQLDataExtractor.py:64-151 | the loop runs until `break` or an uncaught exception and ends exactly as `RunLoop` says; a run ending by `break` leaves the cursor closed, and one ending by an exception leaves it open |

## Left out

- Credential retrieval from the secret store, with its base64 and JSON decoding (lines 15-23, 39-44): a foreign service call.
- Command-line parsing (lines 26-36): CLI plumbing.
- Opening the MySQL connection and SQL semantics (lines 47-50, 96): the server is an abstract function from request to `Reply`. Whether the server fails, and whether the connection survives, is part of the reply.
- Reading `queries.json` (lines 53-54): the catalog is a given sequence of well-formed entries. Missing keys and non-string descriptions are not modelled.
- pandas and dask (lines 104-105, 113-118, 130): the 10-partition split and the CSV encoding are not modelled. A written file is only (path, header, rows), with the rows in fetch order. Exceptions these libraries raise are not modelled.
- ReportLoop.AttemptWritesIff: the file's rows are recorded in fetch order. `pd.concat` keeps each batch's own index 0..999, so past the first batch the index is not increasing. `dd.from_pandas` then sorts by that index before it partitions, so a reply of more than 1000 rows is written reordered: rows are grouped by their position within their batch, and since the default sort is not stable, the order inside a group is not fixed. That sort is not modelled; the file holds the same rows, and up to 1000 rows the order is the fetch order.
- ReportLoop.ReportPath: `os.path.join` is modelled as POSIX `posixpath.join`. Windows' `ntpath.join`, with its `\` separator and drive or `\` prefixes that count as absolute, is not modelled.
- `ensure_reports_dir_exists` (lines 58-61): only the call is logged (`EnsuredReportsDir`), not whether the directory already existed.
- Timing and console colouring (lines 93, 119, 125-138), the menu listing (lines 66-68) and the prompt texts: console output only. The row count of line 119 is kept as `RowsFetched`.
- Connection loss is observed only after a request, where line 144 asks `is_connected()`. A reconnect by the driver is not modelled; once lost, the connection stays lost and every later `execute` raises. The text of that error is the driver's and is left abstract (`Database.lostMessage`).
- PyBuiltins.ParseInt: only ASCII white space and ASCII digits are accepted. Python's `int()` also takes non-ASCII Unicode digits and spaces. The digit limit is the default 4300. Changing it, with `sys.set_int_max_str_digits` or `PYTHONINTMAXSTRDIGITS`, is not modelled, nor are Python versions that have no limit.
- PyBuiltins.Lower: lowers ASCII letters only. No other character lowers to "n" in Python either, so `WantsExit` decides the same answers.
- Session.ReportSession.ReadLine: the console is a finite script. Running out of lines is modelled as Python's `EOFError`, which ends the loop abnormally.

/** The report program's top-level state as an object: the catalog, the open
 *  connection and its cursor, the console script and what the program has
 *  done so far. `TryReport`, `Finally`, `Iterate` and `Run` are proved against
 *  the `ReportLoop` functions `Attempt`, `Decide`, `Iteration` and `RunLoop`;
 *  the fetch loop `FetchChunks` against `Driver.FetchOutcome`; `ReadLine`
 *  states its effect on the script directly. */
module Session {
  import opened Outcomes
  import opened Driver
  import opened ReportLoop

  class ReportSession {
    const catalog: seq<QueryInfo>
    const cursor: Cursor
    /** The console lines `input()` has not returned yet. */
    var input: seq<string>
    /** What `connection.is_connected()` answers. */
    var connected: bool
    var log: seq<Event>

    ghost predicate Valid()
      reads this, cursor
    {
      cursor.Valid()
    }

    function Snapshot(): State
      reads this
    {
      State(input, connected, log)
    }

    /** The program once connected and with its catalog loaded. */
    constructor (catalog: seq<QueryInfo>, db: Database, script: seq<string>)
      ensures Valid() && fresh(cursor)
      ensures this.catalog == catalog && cursor.db == db && cursor.open
      ensures Snapshot() == State(script, true, [])
    {
      this.catalog := catalog;
      cursor := new Cursor(db);
      input := script;
      connected := true;
      log := [];
    }

    /** `input()`: the next scripted line, or `None` (an `EOFError`) once the
     *  script is exhausted. */
    method ReadLine() returns (line: Option<string>)
      modifies this`input
      ensures old(input) == [] ==> line == None && input == []
      ensures old(input) != [] ==> line == Some(old(input)[0]) && input == old(input)[1..]
    {
      if input == [] {
        line := None;
      } else {
        line := Some(input[0]);
        input := input[1..];
      }
    }

    /** The fetch loop: call `fetchmany(1000)` until a batch comes back empty,
     *  appending every non-empty batch to `chunks`. */
    method FetchChunks() returns (r: Result<seq<seq<Row>>>)
      requires cursor.Valid() && cursor.open && cursor.delivered == 0 && cursor.fetches == 0
      modifies cursor`delivered, cursor`fetches
      ensures cursor.Valid()
      ensures r == FetchOutcome(cursor.reply)
    {
      ghost var rows := cursor.reply.rows;
      var chunks: seq<seq<Row>> := [];
      while true
        invariant cursor.Valid() && cursor.reply.rows == rows
        invariant cursor.fetches == |chunks|
        invariant forall k :: 1 <= k <= cursor.fetches ==> !FailsAt(cursor.reply, k)
        invariant Concat(chunks) == rows[..cursor.delivered]
        invariant Chunks(rows) == chunks + Chunks(rows[cursor.delivered..])
        decreases |rows| - cursor.delivered
      {
        ghost var before := cursor.delivered;
        var batch := cursor.FetchMany(BatchSize);
        if batch.Err? {
          assert |Chunks(rows)| >= |chunks|;
          FetchOutcomeErr(cursor.reply, cursor.fetches);
          return Err(batch.message);
        }
        assert !FailsAt(cursor.reply, cursor.fetches);
        if batch.value == [] {
          assert before == |rows| && rows[before..] == [];
          assert chunks == Chunks(rows);
          FetchOutcomeOk(cursor.reply, cursor.fetches);
          return Ok(chunks);
        }
        FetchStep(rows, chunks, before);
        chunks := chunks + [batch.value];
      }
    }

    /** The `finally` clause: the continue question, asked only while the
     *  connection is up. */
    method Finally() returns (o: Outcome)
      requires Valid()
      modifies this`input, this`connected, this`log, cursor`open
      ensures Valid()
      ensures (o, Snapshot()) == Decide(old(Snapshot()))
      ensures o == Quit ==> !cursor.open
      ensures o != Quit ==> cursor.open == old(cursor.open)
    {
      if !connected {
        return Again;
      }
      var answer := ReadLine();
      if answer.None? {
        return Crash(EndOfInput);
      }
      if WantsExit(answer.value) {
        cursor.Close();
        connected := false;
        log := log + [ClosedCursor, ClosedConnection];
        return Quit;
      }
      return Again;
    }

    /** The `try` block with its `except Error` handler, for `request`,
     *  reporting into `path`. Over a lost connection `execute` raises. */
    method TryReport(request: Request, path: string)
      requires Valid() && cursor.open
      modifies this`connected, this`log, cursor`reply, cursor`delivered, cursor`fetches
      ensures Valid()
      ensures cursor.reply == Answer(cursor.db, old(connected), request)
      ensures log == old(log) + Attempt(cursor.reply, path)
      ensures connected == (old(connected) && cursor.reply.keepsConnection)
    {
      var executed := cursor.Execute(request, connected);
      if executed.Err? {
        log := log + [Said(QueryError(executed.message))];
      } else {
        var fetched := FetchChunks();
        if fetched.Err? {
          log := log + [Said(QueryError(fetched.message))];
        } else if fetched.value == [] {
          log := log + [Said(NoData)];
        } else {
          var rows := Concat(fetched.value);
          log := log + [RowsFetched(|rows|), EnsuredReportsDir, Wrote(path, cursor.reply.columns, rows)];
        }
      }
      // the server may have dropped the link while answering
      connected := connected && cursor.reply.keepsConnection;
    }

    /** One pass of the `while True` body. */
    method Iterate() returns (o: Outcome)
      requires Valid() && cursor.open
      modifies this`input, this`connected, this`log, cursor
      ensures Valid()
      ensures (o, Snapshot()) == Iteration(catalog, cursor.db, old(Snapshot()))
      ensures o == Quit ==> !cursor.open
      ensures o != Quit ==> cursor.open
    {
      var text := ReadLine();
      if text.None? {
        return Crash(EndOfInput);
      }
      var selection := Select(text.value, |catalog|);
      if selection.Unparsable? {
        return Crash(NotANumber(text.value));
      }
      if selection.OutOfRange? {
        log := log + [Said(InvalidSelection)];
        return Again;
      }
      var info := catalog[selection.index];
      var startDate := ReadLine();
      if startDate.None? {
        return Crash(EndOfInput);
      }
      var endDate := ReadLine();
      if endDate.None? {
        return Crash(EndOfInput);
      }
      var path := ReportPath(info.description, startDate.value, endDate.value);
      TryReport(RequestFor(info, startDate.value, endDate.value), path);
      // finally
      o := Finally();
    }

    /** The `while True` loop, until `break` or an uncaught exception. */
    method Run() returns (exit: Exit)
      requires Valid() && cursor.open
      modifies this`input, this`connected, this`log, cursor
      ensures Valid()
      ensures (exit, Snapshot()) == RunLoop(catalog, cursor.db, old(Snapshot()))
      ensures exit == Finished ==> !cursor.open
      ensures exit.Aborted? ==> cursor.open
    {
      while true
        invariant Valid() && cursor.open
        invariant RunLoop(catalog, cursor.db, Snapshot()) == RunLoop(catalog, cursor.db, old(Snapshot()))
        decreases |input|
      {
        var o := Iterate();
        match o
        case Quit => return Finished;
        case Crash(f) => return Aborted(f);
        case Again =>
      }
    }
  }
}

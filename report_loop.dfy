/** The interactive report loop as a state machine over a scripted console:
 *  SELECT, then PARAMETERISE, then EXECUTE inside `try`, then the
 *  continue-or-exit decision of the `finally` clause. These functions are the
 *  specification the `Session` class is proved against. */
module ReportLoop {
  import opened Outcomes
  import opened PyBuiltins
  import opened Driver

  /** One entry of the query catalog. */
  datatype QueryInfo = QueryInfo(description: string, query: string)

  /** What an iteration leaves behind, in order. */
  datatype Event =
    | Said(text: string)                                      // a console message
    | RowsFetched(count: nat)                                 // "Fetched N rows from the database."
    | EnsuredReportsDir                                       // the reports directory is created if absent
    | Wrote(path: string, header: seq<string>, rows: seq<Row>) // one CSV file: header row, then the rows as fetched
    | ClosedCursor
    | ClosedConnection

  const InvalidSelection: string := "Invalid selection, Try again!"
  const NoData: string := "No data returned from the query."

  function QueryError(message: string): string {
    "Error executing query: " + message
  }

  /** Exceptions nothing catches: `ValueError` from `int()` on the selection
   *  line, `EOFError` from `input()` once the script is exhausted. */
  datatype Fault = NotANumber(text: string) | EndOfInput

  /** How one pass of the loop body ends. */
  datatype Outcome = Again | Quit | Crash(fault: Fault)

  /** How the whole loop ends: by `break`, or by an uncaught exception. */
  datatype Exit = Finished | Aborted(fault: Fault)

  /** The console lines not yet read, whether the connection is up, and the log. */
  datatype State = State(input: seq<string>, connected: bool, log: seq<Event>)

  // ---------------------------------------------------------------------------
  // SELECT

  datatype Selection = Unparsable | OutOfRange | Chosen(index: nat)

  /** The selection line: `int(text) - 1` must be a 0-based index of the catalog. */
  function Select(text: string, count: nat): (r: Selection)
    ensures r == Unparsable <==> ParseInt(text) == None
    ensures r.Chosen? <==> ParseInt(text).Some? && 1 <= ParseInt(text).value <= count
    ensures r.Chosen? ==> r.index < count && r.index + 1 == ParseInt(text).value
  {
    match ParseInt(text)
    case None => Unparsable
    case Some(n) =>
      var i := n - 1;
      if 0 <= i < count then Chosen(i) else OutOfRange
  }

  /** A typed number `n`, however padded with white space, picks entry `n - 1`
   *  exactly when 1 <= n <= count, and is rejected otherwise; written with
   *  more than `MaxStrDigits` digits it is not a number at all. */
  lemma SelectNumber(pre: string, n: int, post: string, count: nat)
    requires AllSpace(pre) && AllSpace(post)
    ensures Select(pre + Show(n) + post, count) ==
      if DigitCount(Show(n)) > MaxStrDigits then Unparsable
      else if 1 <= n <= count then Chosen(n - 1) else OutOfRange
  {
    ParseIntShow(pre, n, post);
  }

  /** A line holding no digit at all is not a number. */
  lemma SelectNeedsDigit(text: string, count: nat)
    requires forall i :: 0 <= i < |text| ==> !IsDigit(text[i])
    ensures Select(text, count) == Unparsable
  {
    ParseIntNeedsDigit(text);
  }

  // ---------------------------------------------------------------------------
  // PARAMETERISE

  /** The report's file name: description and both dates verbatim. */
  function ReportFileName(description: string, startDate: string, endDate: string): string {
    description + "_" + startDate + "_" + endDate + ".csv"
  }

  /** `os.path.join("reports", name)`: the file lands under `reports/` unless
   *  the description starts with '/', which makes the name absolute. */
  function ReportPath(description: string, startDate: string, endDate: string): (path: string)
    ensures var name := ReportFileName(description, startDate, endDate);
      if |description| > 0 && description[0] == '/' then path == name
      else path == "reports/" + name
  {
    var name := ReportFileName(description, startDate, endDate);
    assert |description| > 0 ==> name[0] == description[0];
    assert |description| == 0 ==> name[0] == '_';
    JoinPath("reports", name)
  }

  /** The name is not injective: two different requests can name the same file,
   *  and the later report then replaces the earlier one. */
  lemma ReportPathsCollide()
    ensures ReportPath("a_b", "c", "d") == ReportPath("a", "b_c", "d")
  {
    assert ReportFileName("a_b", "c", "d") == ReportFileName("a", "b_c", "d");
  }

  // ---------------------------------------------------------------------------
  // EXECUTE (the `try` block and its `except Error` handler)

  /** The log entries of the `try` block for the server's reply: the execute
   *  call, the fetch loop over `fetchmany(1000)`, and either the error
   *  message, the no-data message, or the row count and the CSV file. */
  function Attempt(reply: Reply, path: string): (events: seq<Event>)
    ensures FailsAt(reply, 0) || FetchOutcome(reply).Err? ==>
      events == [Said(QueryError(reply.failure.value.message))]
    ensures !FailsAt(reply, 0) && FetchOutcome(reply).Ok? && reply.rows == [] ==>
      events == [Said(NoData)]
    ensures !FailsAt(reply, 0) && FetchOutcome(reply).Ok? && reply.rows != [] ==>
      events == [RowsFetched(|reply.rows|), EnsuredReportsDir, Wrote(path, reply.columns, reply.rows)]
  {
    if FailsAt(reply, 0) then [Said(QueryError(reply.failure.value.message))]
    else
      match FetchOutcome(reply)
      case Err(message) => [Said(QueryError(message))]
      case Ok(chunks) =>
        if chunks == [] then [Said(NoData)]
        else
          var rows := Concat(chunks);
          [RowsFetched(|rows|), EnsuredReportsDir, Wrote(path, reply.columns, rows)]
  }

  /** A file is written exactly when no driver call raises and at least one row
   *  comes back; it then holds every row of the reply, as fetched. */
  lemma AttemptWritesIff(reply: Reply, path: string)
    ensures (exists e :: e in Attempt(reply, path) && e.Wrote?) <==>
      !FailsAt(reply, 0) && FetchOutcome(reply).Ok? && reply.rows != []
    ensures forall e :: e in Attempt(reply, path) && e.Wrote? ==>
      e == Wrote(path, reply.columns, reply.rows)
  {
    var events := Attempt(reply, path);
    if !FailsAt(reply, 0) && FetchOutcome(reply).Ok? && reply.rows != [] {
      assert events[2].Wrote?;
    }
  }

  // ---------------------------------------------------------------------------
  // The continue decision (the `finally` clause)

  /** The answer to "execute another report?" ends the session exactly when it
   *  lowers to "n": the answers "n" and "N", and no other. */
  function WantsExit(answer: string): (r: bool)
    ensures r <==> answer == "n" || answer == "N"
  {
    var lowered := Lower(answer);
    assert |answer| == 1 ==> lowered == [LowerChar(answer[0])];
    assert answer == "N" ==> lowered == "n";
    lowered == "n"
  }

  /** The `finally` clause: while the connection is up, read the answer; "n"
   *  closes the cursor and the connection and ends the loop. */
  function Decide(s: State): (r: (Outcome, State))
    ensures r.0 == Quit <==> s.connected && s.input != [] && WantsExit(s.input[0])
    ensures r.0.Crash? <==> s.connected && s.input == []
    ensures r.0.Crash? ==> r.0.fault == EndOfInput
    ensures r.1.log == s.log + (if r.0 == Quit then [ClosedCursor, ClosedConnection] else [])
    ensures r.0 == Quit ==> r.1.input == s.input[1..] && !r.1.connected
    ensures r.0 == Again ==> r.1.connected == s.connected
    ensures r.0.Crash? ==> r.1 == s
    ensures r.0 == Again ==> r.1.input == if s.connected then s.input[1..] else s.input
  {
    if !s.connected then (Again, s)
    else if s.input == [] then (Crash(EndOfInput), s)
    else if WantsExit(s.input[0]) then (Quit, State(s.input[1..], false, s.log + [ClosedCursor, ClosedConnection]))
    else (Again, s.(input := s.input[1..]))
  }

  // ---------------------------------------------------------------------------
  // One pass of `while True`, and the whole loop

  /** The request a chosen catalog entry and two date lines make. */
  function RequestFor(info: QueryInfo, startDate: string, endDate: string): Request {
    Request(info.query, startDate, endDate)
  }

  /** One pass of the loop body. */
  function Iteration(catalog: seq<QueryInfo>, db: Database, s: State): (r: (Outcome, State))
    ensures r.0 == Again ==> |r.1.input| < |s.input|
    ensures |r.1.log| >= |s.log| && r.1.log[..|s.log|] == s.log
    ensures r.0 == Quit ==> !r.1.connected && r.1.log[|s.log|..] != [] && r.1.log[|r.1.log| - 1] == ClosedConnection
    ensures r.0 == Quit ==> s.connected
    ensures r.0 != Quit && !s.connected ==> !r.1.connected
  {
    if s.input == [] then (Crash(EndOfInput), s)
    else
      var text, rest := s.input[0], s.input[1..];
      match Select(text, |catalog|)
      case Unparsable => (Crash(NotANumber(text)), s.(input := rest))
      case OutOfRange => (Again, s.(input := rest, log := s.log + [Said(InvalidSelection)]))
      case Chosen(i) =>
        if |rest| < 2 then (Crash(EndOfInput), s.(input := []))
        else Decide(Report(catalog[i], db, s.(input := rest)))
  }

  /** Reading the two date lines and running the `try` block for `info`: the
   *  state the `finally` clause starts from. */
  function Report(info: QueryInfo, db: Database, s: State): (r: State)
    requires |s.input| >= 2
    ensures r.input == s.input[2..]
    ensures |r.log| >= |s.log| && r.log[..|s.log|] == s.log
    ensures r.connected ==> s.connected
  {
    var startDate, endDate := s.input[0], s.input[1];
    var path := ReportPath(info.description, startDate, endDate);
    var reply := Answer(db, s.connected, RequestFor(info, startDate, endDate));
    State(s.input[2..], s.connected && reply.keepsConnection, s.log + Attempt(reply, path))
  }

  /** The whole `while True` loop from state `s`. Every pass that loops back
   *  has read at least the selection line, so the script bounds the run. */
  function RunLoop(catalog: seq<QueryInfo>, db: Database, s: State): (r: (Exit, State))
    ensures r.0 == Finished ==> !r.1.connected
    decreases |s.input|
  {
    var step := Iteration(catalog, db, s);
    match step.0
    case Again => RunLoop(catalog, db, step.1)
    case Quit => (Finished, step.1)
    case Crash(f) => (Aborted(f), step.1)
  }

  // ---------------------------------------------------------------------------
  // Properties of one pass

  /** An out-of-range number is rejected before anything else happens: only
   *  the selection line is read, nothing is executed or written, the continue
   *  question is not asked (the `continue` is outside the `try`), and the loop
   *  starts over. */
  lemma InvalidSelectionRestarts(catalog: seq<QueryInfo>, db: Database, s: State)
    requires s.input != [] && Select(s.input[0], |catalog|) == OutOfRange
    ensures Iteration(catalog, db, s) == (Again, State(s.input[1..], s.connected, s.log + [Said(InvalidSelection)]))
  {
  }

  /** A selection line that is not a number raises out of the loop; nothing is
   *  logged and the connection is left as it was. */
  lemma NotANumberAborts(catalog: seq<QueryInfo>, db: Database, s: State)
    requires s.input != [] && ParseInt(s.input[0]) == None
    ensures Iteration(catalog, db, s) == (Crash(NotANumber(s.input[0])), s.(input := s.input[1..]))
  {
  }

  /** What the request for the entry the selection line chose gets. */
  function ReplyOf(catalog: seq<QueryInfo>, db: Database, s: State): Reply
    requires |s.input| >= 3 && Select(s.input[0], |catalog|).Chosen?
  {
    Answer(db, s.connected, RequestFor(catalog[Select(s.input[0], |catalog|).index], s.input[1], s.input[2]))
  }

  /** The report path for the entry the selection line chose. */
  function PathOf(catalog: seq<QueryInfo>, s: State): string
    requires |s.input| >= 3 && Select(s.input[0], |catalog|).Chosen?
  {
    ReportPath(catalog[Select(s.input[0], |catalog|).index].description, s.input[1], s.input[2])
  }

  /** After a valid selection and two date lines, the pass is the `try` block
   *  followed by the `finally` clause. */
  lemma ChosenPass(catalog: seq<QueryInfo>, db: Database, s: State)
    requires |s.input| >= 3 && Select(s.input[0], |catalog|).Chosen?
    ensures var reply := ReplyOf(catalog, db, s);
      Iteration(catalog, db, s) ==
        Decide(State(s.input[3..], s.connected && reply.keepsConnection, s.log + Attempt(reply, PathOf(catalog, s))))
  {
    var i := Select(s.input[0], |catalog|).index;
    assert s.input[1..][2..] == s.input[3..];
    assert Iteration(catalog, db, s) == Decide(Report(catalog[i], db, s.(input := s.input[1..])));
  }

  /** Once the connection is lost, a chosen entry never reaches the server:
   *  `execute` raises the lost-connection error, its message is shown, no
   *  file is written, and with the continue question skipped the loop goes
   *  straight back to the menu. */
  lemma LostConnectionFails(catalog: seq<QueryInfo>, db: Database, s: State)
    requires |s.input| >= 3 && Select(s.input[0], |catalog|).Chosen? && !s.connected
    ensures Iteration(catalog, db, s) == (Again, State(s.input[3..], false, s.log + [Said(QueryError(db.lostMessage))]))
  {
    ChosenPass(catalog, db, s);
    var reply := ReplyOf(catalog, db, s);
    assert Attempt(reply, PathOf(catalog, s)) == [Said(QueryError(db.lostMessage))];
  }

  /** Typing the number n (1 <= n <= |catalog|) runs entry n - 1 with the two
   *  date lines as its parameters, verbatim, and names the report after that
   *  entry's description and the same two lines. */
  lemma ChosenEntryRuns(catalog: seq<QueryInfo>, db: Database, s: State, n: int)
    requires |s.input| >= 3 && s.input[0] == Show(n) && 1 <= n <= |catalog|
    requires DigitCount(Show(n)) <= MaxStrDigits
    ensures var info := catalog[n - 1];
      var reply := Answer(db, s.connected, Request(info.query, s.input[1], s.input[2]));
      var path := ReportPath(info.description, s.input[1], s.input[2]);
      Iteration(catalog, db, s) ==
        Decide(State(s.input[3..], s.connected && reply.keepsConnection, s.log + Attempt(reply, path)))
  {
    SelectNumber("", n, "", |catalog|);
    assert "" + Show(n) + "" == Show(n);
    ChosenPass(catalog, db, s);
  }

  /** No rows: "no data" is reported, no directory is made and no file is
   *  written, and the `continue` inside the `try` still runs the `finally`
   *  clause, so the operator is asked whether to go on. */
  lemma NoDataStillAsks(catalog: seq<QueryInfo>, db: Database, s: State)
    requires |s.input| >= 3 && Select(s.input[0], |catalog|).Chosen?
    requires var reply := ReplyOf(catalog, db, s);
      !FailsAt(reply, 0) && FetchOutcome(reply).Ok? && reply.rows == []
    requires s.connected && ReplyOf(catalog, db, s).keepsConnection
    ensures var r := Iteration(catalog, db, s);
      r.1.log == s.log + [Said(NoData)] + (if r.0 == Quit then [ClosedCursor, ClosedConnection] else []) &&
      (|s.input| == 3 ==> r.0 == Crash(EndOfInput)) &&
      (|s.input| > 3 ==> r.1.input == s.input[4..] && (r.0 == Quit <==> WantsExit(s.input[3])))
  {
    var reply := ReplyOf(catalog, db, s);
    assert Attempt(reply, PathOf(catalog, s)) == [Said(NoData)];
    ChosenPass(catalog, db, s);
    var mid := State(s.input[3..], true, s.log + [Said(NoData)]);
    assert Iteration(catalog, db, s) == Decide(mid);
    assert |s.input| > 3 ==> mid.input[0] == s.input[3] && mid.input[1..] == s.input[4..];
  }

  /** A driver error during `execute` or any `fetchmany` is caught: its
   *  message is shown, no file is written, and control reaches the continue
   *  question as long as the connection is up. */
  lemma DriverErrorCaught(catalog: seq<QueryInfo>, db: Database, s: State)
    requires |s.input| >= 3 && Select(s.input[0], |catalog|).Chosen?
    requires var reply := ReplyOf(catalog, db, s);
      FailsAt(reply, 0) || FetchOutcome(reply).Err?
    ensures var r := Iteration(catalog, db, s);
      var message := ReplyOf(catalog, db, s).failure.value.message;
      r.1.log == s.log + [Said(QueryError(message))] + (if r.0 == Quit then [ClosedCursor, ClosedConnection] else []) &&
      (r.0.Crash? ==> r.0.fault == EndOfInput && |s.input| == 3) &&
      (s.connected && ReplyOf(catalog, db, s).keepsConnection && |s.input| > 3 ==>
        r.1.input == s.input[4..] && (r.0 == Quit <==> WantsExit(s.input[3])))
  {
    var reply := ReplyOf(catalog, db, s);
    var said := Said(QueryError(reply.failure.value.message));
    assert Attempt(reply, PathOf(catalog, s)) == [said];
    ChosenPass(catalog, db, s);
    var mid := State(s.input[3..], s.connected && reply.keepsConnection, s.log + [said]);
    assert Iteration(catalog, db, s) == Decide(mid);
    assert |s.input| > 3 ==> mid.input[0] == s.input[3] && mid.input[1..] == s.input[4..];
  }

  /** A pass ends the loop exactly when a valid entry ran, the connection is
   *  still up, and the next line lowers to "n"; it then closes the cursor and
   *  the connection. Any other answer (blank, "y", " n") loops back with the
   *  connection still open. */
  lemma QuitIff(catalog: seq<QueryInfo>, db: Database, s: State)
    ensures var r := Iteration(catalog, db, s);
      r.0 == Quit <==>
        |s.input| >= 4 && Select(s.input[0], |catalog|).Chosen? &&
        s.connected && ReplyOf(catalog, db, s).keepsConnection && WantsExit(s.input[3])
    ensures var r := Iteration(catalog, db, s);
      r.0 == Quit ==> r.1.log[|r.1.log| - 2..] == [ClosedCursor, ClosedConnection]
    ensures var r := Iteration(catalog, db, s);
      |s.input| >= 4 && Select(s.input[0], |catalog|).Chosen? &&
      s.connected && ReplyOf(catalog, db, s).keepsConnection && !WantsExit(s.input[3]) ==>
        r.0 == Again && r.1.connected
  {
    if |s.input| >= 3 && Select(s.input[0], |catalog|).Chosen? {
      ChosenPass(catalog, db, s);
      var reply := ReplyOf(catalog, db, s);
      var mid := State(s.input[3..], s.connected && reply.keepsConnection, s.log + Attempt(reply, PathOf(catalog, s)));
      assert |s.input| >= 4 ==> mid.input[0] == s.input[3];
    } else {
      UnchosenPass(catalog, db, s);
    }
  }

  /** A pass without a valid selection and two date lines never ends the loop
   *  and never closes anything. */
  lemma UnchosenPass(catalog: seq<QueryInfo>, db: Database, s: State)
    requires !(|s.input| >= 3 && Select(s.input[0], |catalog|).Chosen?)
    ensures var r := Iteration(catalog, db, s);
      r.0 != Quit && r.1.connected == s.connected &&
      r.1.log == s.log + (if s.input != [] && Select(s.input[0], |catalog|) == OutOfRange then [Said(InvalidSelection)] else [])
  {
    if s.input != [] {
      var selection := Select(s.input[0], |catalog|);
      if selection == OutOfRange {
        InvalidSelectionRestarts(catalog, db, s);
      } else if selection == Unparsable {
        assert Iteration(catalog, db, s) == (Crash(NotANumber(s.input[0])), s.(input := s.input[1..]));
      } else {
        assert Iteration(catalog, db, s) == (Crash(EndOfInput), s.(input := []));
      }
    }
  }

  // ---------------------------------------------------------------------------
  // Properties of a whole run

  /** How many times the connection was closed. */
  function CloseCount(log: seq<Event>): nat {
    if log == [] then 0 else (if log[0] == ClosedConnection then 1 else 0) + CloseCount(log[1..])
  }

  lemma {:induction false} CloseCountAppend(a: seq<Event>, b: seq<Event>)
    ensures CloseCount(a + b) == CloseCount(a) + CloseCount(b)
  {
    if a == [] {
      assert a + b == b;
    } else {
      assert (a + b)[1..] == a[1..] + b;
      CloseCountAppend(a[1..], b);
    }
  }

  lemma {:induction false} NoCloseInside(log: seq<Event>)
    requires forall k :: 0 <= k < |log| ==> log[k] != ClosedConnection
    ensures CloseCount(log) == 0
  {
    if log != [] {
      NoCloseInside(log[1..]);
    }
  }

  lemma AttemptNeverCloses(reply: Reply, path: string)
    ensures CloseCount(Attempt(reply, path)) == 0
  {
    var events := Attempt(reply, path);
    assert forall k :: 0 <= k < |events| ==> events[k] != ClosedConnection;
    NoCloseInside(events);
  }

  /** A pass closes the connection once if it ends the loop, and never otherwise. */
  lemma IterationCloses(catalog: seq<QueryInfo>, db: Database, s: State)
    ensures var r := Iteration(catalog, db, s);
      CloseCount(r.1.log) == CloseCount(s.log) + (if r.0 == Quit then 1 else 0)
  {
    if |s.input| >= 3 && Select(s.input[0], |catalog|).Chosen? {
      ChosenPassCloses(catalog, db, s);
    } else {
      UnchosenPass(catalog, db, s);
      CloseCountAppend(s.log, [Said(InvalidSelection)]);
    }
  }

  lemma ChosenPassCloses(catalog: seq<QueryInfo>, db: Database, s: State)
    requires |s.input| >= 3 && Select(s.input[0], |catalog|).Chosen?
    ensures var r := Iteration(catalog, db, s);
      CloseCount(r.1.log) == CloseCount(s.log) + (if r.0 == Quit then 1 else 0)
  {
    var reply := ReplyOf(catalog, db, s);
    var events := Attempt(reply, PathOf(catalog, s));
    var mid := State(s.input[3..], s.connected && reply.keepsConnection, s.log + events);
    ChosenPass(catalog, db, s);
    var r := Decide(mid);
    var closes := if r.0 == Quit then [ClosedCursor, ClosedConnection] else [];
    assert r.1.log == s.log + events + closes;
    AttemptNeverCloses(reply, PathOf(catalog, s));
    CloseCountAppend(s.log, events);
    CloseCountAppend(s.log + events, closes);
    assert closes != [] ==> closes[1..] == [ClosedConnection] && CloseCount(closes[1..]) == 1;
  }

  /** Over a whole run starting with no close, the connection is closed exactly
   *  once if the loop ends by `break`, and never if it ends by an exception. */
  lemma {:induction false} RunClosesOnce(catalog: seq<QueryInfo>, db: Database, s: State)
    requires CloseCount(s.log) == 0
    ensures var r := RunLoop(catalog, db, s);
      CloseCount(r.1.log) == if r.0 == Finished then 1 else 0
    decreases |s.input|
  {
    var step := Iteration(catalog, db, s);
    IterationCloses(catalog, db, s);
    if step.0 == Again {
      RunClosesOnce(catalog, db, step.1);
    }
  }

  /** Once the connection is down nothing asks the continue question any more,
   *  so the loop can only end by an exception. */
  lemma {:induction false} DisconnectedNeverFinishes(catalog: seq<QueryInfo>, db: Database, s: State)
    requires !s.connected
    ensures RunLoop(catalog, db, s).0 != Finished
    decreases |s.input|
  {
    var step := Iteration(catalog, db, s);
    if step.0 == Again {
      DisconnectedNeverFinishes(catalog, db, step.1);
    }
  }

  /** The log of a run extends the log it started from. */
  lemma {:induction false} RunExtendsLog(catalog: seq<QueryInfo>, db: Database, s: State)
    ensures var r := RunLoop(catalog, db, s);
      |r.1.log| >= |s.log| && r.1.log[..|s.log|] == s.log
    decreases |s.input|
  {
    var step := Iteration(catalog, db, s);
    if step.0 == Again {
      RunExtendsLog(catalog, db, step.1);
      var r := RunLoop(catalog, db, step.1);
      assert r.1.log[..|s.log|] == r.1.log[..|step.1.log|][..|s.log|];
    }
  }

  /** The log a session with one successful report and the answer "n" leaves. */
  function OneReportLog(path: string, reply: Reply): seq<Event> {
    [RowsFetched(|reply.rows|), EnsuredReportsDir, Wrote(path, reply.columns, reply.rows),
     ClosedCursor, ClosedConnection]
  }

  /** The selection line "1" picks the only entry of a one-entry catalog. */
  lemma SelectOne()
    ensures Select("1", 1) == Chosen(0)
  {
    assert Show(1) == "1" && "" + Show(1) + "" == "1";
    assert DigitCount("1") == 1 by { assert "1"[..0] == []; }
    SelectNumber("", 1, "", 1);
  }

  /** A reply with rows and no failure is written out in full. */
  lemma GoodReplyWrites(reply: Reply, path: string)
    requires reply.failure == None && reply.rows != []
    ensures Attempt(reply, path) == [RowsFetched(|reply.rows|), EnsuredReportsDir, Wrote(path, reply.columns, reply.rows)]
  {
    assert !FailsAt(reply, 0) && FetchOutcome(reply).Ok?;
  }

  /** Answering "n" after a written report closes both handles and ends the
   *  loop with exactly the events of one report. */
  lemma AnswerNoQuits(answer: string, reply: Reply, path: string)
    requires WantsExit(answer) && reply.failure == None && reply.rows != []
    ensures Decide(State([answer], true, Attempt(reply, path))) == (Quit, State([], false, OneReportLog(path, reply)))
  {
    GoodReplyWrites(reply, path);
    var s := State([answer], true, Attempt(reply, path));
    assert s.input[1..] == [];
    assert Decide(s).1.log == Attempt(reply, path) + [ClosedCursor, ClosedConnection] == OneReportLog(path, reply);
  }

  /** The one pass of a one-report session. */
  lemma OneReportPass(info: QueryInfo, selection: string, startDate: string, endDate: string, answer: string, db: Database)
    requires Select(selection, 1) == Chosen(0) && WantsExit(answer)
    requires var reply := db.answer(Request(info.query, startDate, endDate));
      reply.failure == None && reply.rows != [] && reply.keepsConnection
    ensures Iteration([info], db, State([selection, startDate, endDate, answer], true, [])) ==
      (Quit, State([], false, OneReportLog(ReportPath(info.description, startDate, endDate),
                                           db.answer(Request(info.query, startDate, endDate)))))
  {
    var catalog := [info];
    var s := State([selection, startDate, endDate, answer], true, []);
    var reply := db.answer(Request(info.query, startDate, endDate));
    var path := ReportPath(info.description, startDate, endDate);
    ChosenPass(catalog, db, s);
    assert ReplyOf(catalog, db, s) == reply && PathOf(catalog, s) == path;
    var mid := State(s.input[3..], s.connected && reply.keepsConnection, s.log + Attempt(reply, path));
    assert mid == State([answer], true, Attempt(reply, path));
    AnswerNoQuits(answer, reply, path);
  }

  /** A whole session end to end: pick the only entry, give two dates, get rows
   *  back, answer "n". Exactly one file is written, under `reports/` with the
   *  name built from the description and both dates verbatim; then the cursor
   *  and the connection are closed and the loop ends. */
  lemma OneReportSession(info: QueryInfo, startDate: string, endDate: string, db: Database)
    requires !(|info.description| > 0 && info.description[0] == '/')
    requires var reply := db.answer(Request(info.query, startDate, endDate));
      reply.failure == None && reply.rows != [] && reply.keepsConnection
    ensures var reply := db.answer(Request(info.query, startDate, endDate));
      RunLoop([info], db, State(["1", startDate, endDate, "n"], true, [])) ==
        (Finished, State([], false, OneReportLog(
          "reports/" + (info.description + "_" + startDate + "_" + endDate + ".csv"), reply)))
  {
    var s := State(["1", startDate, endDate, "n"], true, []);
    SelectOne();
    assert WantsExit("n");
    OneReportPass(info, "1", startDate, endDate, "n", db);
    assert RunLoop([info], db, s) == (Finished, Iteration([info], db, s).1);
    assert ReportPath(info.description, startDate, endDate) ==
      "reports/" + (info.description + "_" + startDate + "_" + endDate + ".csv");
  }
}

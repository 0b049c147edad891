/** The database seen from the report loop: an abstract server that answers
 *  each parameterised request, and a cursor that hands the answer out through
 *  `execute` and `fetchmany`. */
module Driver {
  import opened Outcomes

  /** One result row; each cell is kept in its textual form. */
  type Row = seq<string>

  /** The batch size the report loop passes to `fetchmany`. */
  const BatchSize: nat := 1000

  /** A query text with its two positional parameters, start date then end date. */
  datatype Request = Request(query: string, startDate: string, endDate: string)

  /** The driver raises `Error(message)` on driver call number `call` of a
   *  request: call 0 is `execute`, call k >= 1 is the k-th `fetchmany`. */
  datatype Failure = Failure(call: nat, message: string)

  /** How the server answers one request: the column names the statement
   *  reports, the rows of the result, the driver call (if any) that raises,
   *  and whether the connection is still up once the request is over. */
  datatype Reply = Reply(columns: seq<string>, rows: seq<Row>, failure: Option<Failure>, keepsConnection: bool)

  /** The abstract server: its answer to every request, and the message of the
   *  driver error that `execute` raises once the connection is lost. */
  datatype Database = Database(answer: Request -> Reply, lostMessage: string)

  /** What a request gets. Over a live connection it is the server's reply.
   *  Over a lost one the server is never asked: `execute` itself raises the
   *  lost-connection error, and the connection stays down. */
  function Answer(db: Database, linkUp: bool, request: Request): (reply: Reply)
    ensures linkUp ==> reply == db.answer(request)
    ensures !linkUp ==> FailsAt(reply, 0) && reply.failure.value.message == db.lostMessage
    ensures !linkUp ==> !reply.keepsConnection
  {
    if linkUp then db.answer(request) else Reply([], [], Some(Failure(0, db.lostMessage)), false)
  }

  predicate FailsAt(reply: Reply, call: nat) {
    reply.failure.Some? && reply.failure.value.call == call
  }

  function Min(a: nat, b: nat): nat {
    if a <= b then a else b
  }

  // ---------------------------------------------------------------------------
  // The batches `fetchmany(BatchSize)` delivers, and their concatenation

  /** The successive non-empty batches that repeated `fetchmany(BatchSize)`
   *  calls return for `rows`; the call after the last one returns `[]`. */
  function Chunks(rows: seq<Row>): (r: seq<seq<Row>>)
    ensures r == [] <==> rows == []
    decreases |rows|
  {
    if rows == [] then []
    else
      var n := Min(BatchSize, |rows|);
      [rows[..n]] + Chunks(rows[n..])
  }

  /** The sum of the chunk sizes. */
  function TotalSize(chunks: seq<seq<Row>>): nat {
    if chunks == [] then 0 else |chunks[0]| + TotalSize(chunks[1..])
  }

  /** `pd.concat(chunks)`: the rows of all chunks, in order; as many rows as
   *  the chunks hold together. */
  function Concat(chunks: seq<seq<Row>>): (r: seq<Row>)
    ensures |r| == TotalSize(chunks)
  {
    if chunks == [] then [] else chunks[0] + Concat(chunks[1..])
  }

  lemma {:induction false} ConcatAppend(chunks: seq<seq<Row>>, c: seq<Row>)
    ensures Concat(chunks + [c]) == Concat(chunks) + c
  {
    if chunks == [] {
      assert chunks + [c] == [c];
    } else {
      assert (chunks + [c])[1..] == chunks[1..] + [c];
      ConcatAppend(chunks[1..], c);
    }
  }

  /** Concatenating the batches gives back the rows, in order. */
  lemma {:induction false} ChunksConcat(rows: seq<Row>)
    ensures Concat(Chunks(rows)) == rows
  {
    if rows != [] {
      var n := Min(BatchSize, |rows|);
      ChunksConcat(rows[n..]);
      assert rows[..n] + rows[n..] == rows;
    }
  }

  /** Every batch is non-empty and holds at most `BatchSize` rows; every batch
   *  but the last is full; there are ceil(|rows| / BatchSize) of them. */
  lemma {:induction false} ChunksShape(rows: seq<Row>)
    ensures |Chunks(rows)| == (|rows| + BatchSize - 1) / BatchSize
    ensures forall i :: 0 <= i < |Chunks(rows)| ==> 0 < |Chunks(rows)[i]| <= BatchSize
    ensures forall i :: 0 <= i < |Chunks(rows)| - 1 ==> |Chunks(rows)[i]| == BatchSize
  {
    if rows != [] {
      var n := Min(BatchSize, |rows|);
      ChunksShape(rows[n..]);
      var cs := Chunks(rows);
      assert cs == [rows[..n]] + Chunks(rows[n..]);
      assert forall i :: 1 <= i < |cs| ==> cs[i] == Chunks(rows[n..])[i - 1];
    }
  }

  /** Past the first `delivered` rows, the next batch is the next at most
   *  `BatchSize` rows. */
  lemma ChunksFrom(rows: seq<Row>, delivered: nat)
    requires delivered < |rows|
    ensures var next := Min(delivered + BatchSize, |rows|);
      Chunks(rows[delivered..]) == [rows[delivered..next]] + Chunks(rows[next..])
  {
    var rest := rows[delivered..];
    var n := Min(BatchSize, |rest|);
    assert rest[..n] == rows[delivered..delivered + n];
    assert rest[n..] == rows[delivered + n..];
  }

  /** What the fetch loop ends with for `reply` once `execute` has succeeded:
   *  the driver error, if one of the `fetchmany` calls the loop makes raises,
   *  and otherwise the list of batches. The loop makes one call per batch and
   *  one more that returns `[]`. */
  function FetchOutcome(reply: Reply): (r: Result<seq<seq<Row>>>)
    ensures r.Err? <==> exists k :: 1 <= k <= |Chunks(reply.rows)| + 1 && FailsAt(reply, k)
    ensures r.Err? ==> r.message == reply.failure.value.message
    ensures r.Ok? ==> Concat(r.value) == reply.rows && TotalSize(r.value) == |reply.rows|
    ensures r.Ok? ==> (r.value == [] <==> reply.rows == [])
  {
    ChunksConcat(reply.rows);
    if reply.failure.Some? && 1 <= reply.failure.value.call <= |Chunks(reply.rows)| + 1 then
      assert FailsAt(reply, reply.failure.value.call);
      Err(reply.failure.value.message)
    else
      Ok(Chunks(reply.rows))
  }

  /** One more non-empty batch keeps the fetch loop's invariant: the chunks so
   *  far are the first batches, and they concatenate to the rows delivered. */
  lemma FetchStep(rows: seq<Row>, chunks: seq<seq<Row>>, before: nat)
    requires before < |rows|
    requires Chunks(rows) == chunks + Chunks(rows[before..])
    requires Concat(chunks) == rows[..before]
    ensures var after := Min(before + BatchSize, |rows|);
      Chunks(rows) == (chunks + [rows[before..after]]) + Chunks(rows[after..]) &&
      Concat(chunks + [rows[before..after]]) == rows[..after]
  {
    var after := Min(before + BatchSize, |rows|);
    var batch := rows[before..after];
    assert Chunks(rows) == (chunks + [batch]) + Chunks(rows[after..]) by {
      ChunksFrom(rows, before);
    }
    assert Concat(chunks + [batch]) == rows[..after] by {
      ConcatAppend(chunks, batch);
      assert rows[..before] + batch == rows[..after];
    }
  }

  lemma FetchOutcomeOk(reply: Reply, fetches: nat)
    requires fetches == |Chunks(reply.rows)| + 1
    requires forall k :: 1 <= k <= fetches ==> !FailsAt(reply, k)
    ensures FetchOutcome(reply) == Ok(Chunks(reply.rows))
  {
  }

  lemma FetchOutcomeErr(reply: Reply, fetches: nat)
    requires 1 <= fetches <= |Chunks(reply.rows)| + 1 && FailsAt(reply, fetches)
    ensures FetchOutcome(reply) == Err(reply.failure.value.message)
  {
  }

  // ---------------------------------------------------------------------------
  // The cursor

  /** The driver cursor: it remembers the reply to the last `execute`, how many
   *  of its rows `fetchmany` has handed out and how many `fetchmany` calls
   *  were made since. */
  class Cursor {
    const db: Database
    var reply: Reply
    var delivered: nat
    var fetches: nat
    var open: bool

    ghost predicate Valid()
      reads this
    {
      delivered <= |reply.rows|
    }

    constructor (db: Database)
      ensures Valid() && this.db == db && open
      ensures reply.rows == [] && fetches == 0
    {
      this.db := db;
      reply := Reply([], [], None, true);
      delivered, fetches := 0, 0;
      open := true;
    }

    /** `cursor.execute(query, (start, end))` over a connection that is up
     *  (`linkUp`) or lost: the answer becomes the current result set, and the
     *  call raises exactly when that answer fails on `execute`. */
    method Execute(request: Request, linkUp: bool) returns (r: Result<()>)
      requires open
      modifies this`reply, this`delivered, this`fetches
      ensures Valid()
      ensures reply == Answer(db, linkUp, request) && delivered == 0 && fetches == 0
      ensures r.Err? <==> FailsAt(reply, 0)
      ensures r.Err? ==> r.message == reply.failure.value.message
    {
      reply := Answer(db, linkUp, request);
      delivered, fetches := 0, 0;
      if FailsAt(reply, 0) {
        r := Err(reply.failure.value.message);
      } else {
        r := Ok(());
      }
    }

    /** `cursor.fetchmany(size)`: the next at most `size` undelivered rows, an
     *  empty list once all are delivered, or the driver error. */
    method FetchMany(size: nat) returns (r: Result<seq<Row>>)
      requires Valid() && open && size > 0
      modifies this`delivered, this`fetches
      ensures Valid() && fetches == old(fetches) + 1
      ensures r.Err? <==> FailsAt(reply, fetches)
      ensures r.Err? ==> r.message == reply.failure.value.message && delivered == old(delivered)
      ensures r.Ok? ==> (delivered == Min(old(delivered) + size, |reply.rows|)
                         && r.value == reply.rows[old(delivered)..delivered])
    {
      fetches := fetches + 1;
      if FailsAt(reply, fetches) {
        r := Err(reply.failure.value.message);
      } else {
        var end := Min(delivered + size, |reply.rows|);
        r := Ok(reply.rows[delivered..end]);
        delivered := end;
      }
    }

    /** `cursor.close()`. */
    method Close()
      modifies this`open
      ensures !open
    {
      open := false;
    }
  }
}

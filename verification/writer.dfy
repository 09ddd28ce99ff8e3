/** `MemSQLDbWriter.write`: one batch, one transaction. The database is an
    abstract store with committed state (the metadata table and the row
    tables) and the uncommitted work of the one open session. JDBC calls
    become store methods; their failures are inputs (`Faults`). */
module Writer {
  import opened Common
  import opened Framing
  import opened Batch
  import Compression
  import Statements
  import Pipe

  /** A loaded row: one line of the load file. */
  type Row = seq<byte>

  /** The committed contents of the database. */
  datatype Db = Db(markers: map<string, nat>, tables: map<string, seq<Row>>)

  /** Which class of aggregator the session is opened against. */
  datatype Endpoint = Ddl | Dml

  /** What `write` does to its session and its output stream, in order. */
  datatype Event =
    | Open(endpoint: Endpoint)
    | AutoCommitOff
    | Execute(sql: string)
    | CloseOutput
    | Commit
    | CloseSession

  datatype Failure =
    | EmptyBatch                     // `records.iterator().next()` on an empty batch
    | TableSetup                     // `createTableIfNeeded` failed
    | Connect                        // opening the connection failed
    | MarkerInsert                   // marker insert failed other than by a duplicate key
    | BadCompression(message: string)
    | StreamIO                       // an IOException while writing the load file
    | LoadData                       // the load statement failed
    | CommitFailed

  datatype Outcome = Committed | Skipped | Failed(failure: Failure)

  /** Which of the calls into the database and the pipe fail on this run. */
  datatype Faults = Faults(
    tableSetup: bool,
    connect: bool,
    markerInsert: bool,
    streamWrite: bool,
    loadData: bool,
    commit: bool)

  /** Code `write` calls but that is not part of this model. */
  datatype Collaborators<!V> = Collaborators(
    render: Record<V> -> string,       // MemSQLDialect.getRecordValue
    columns: Record<V> -> string,      // JdbcHelper.getSchemaTables(first.valueSchema())
    isReferenceTable: string -> bool,  // JdbcHelper.isReferenceTable
    metadataTable: string,             // MemSQLDialect.KAFKA_METADATA_TABLE
    scheduler: nat -> bool,            // which thread runs when both producer and reader could
    faults: Faults)

  /** The committed state after a write, its outcome, and the events it issued. */
  datatype Run = Run(db: Db, outcome: Outcome, events: seq<Event>)

  /** `createTableIfNeeded`: a table that does not exist yet is created empty. */
  function EnsureTable(db: Db, table: string): (r: Db)
    ensures r.markers == db.markers
    ensures table in r.tables
    ensures r.tables.Keys == db.tables.Keys + {table}
    ensures forall t :: t in db.tables ==> t in r.tables && r.tables[t] == db.tables[t]
    ensures forall t :: t in r.tables && t !in db.tables ==> t == table && r.tables[t] == []
  {
    if table in db.tables then db else Db(db.markers, db.tables[table := []])
  }

  /** Reference tables are written through the DDL endpoint, others through DML. */
  function Route(isReference: bool): (e: Endpoint)
    ensures e == Ddl <==> isReference
  {
    if isReference then Ddl else Dml
  }

  /** The UTF-8 bytes of every record's rendered value, in batch order. */
  function EncodedValues<V>(records: seq<Record<V>>, render: Record<V> -> string): (values: seq<Row>)
    ensures |values| == |records|
    ensures forall k :: 0 <= k < |values| ==> values[k] == Utf8Encode(render(records[k]))
    ensures forall k :: 0 <= k < |values| ==> (Newline in values[k] <==> '\n' in render(records[k]))
  {
    EncodedNewlines(records, render);
    seq(|records|, k requires 0 <= k < |records| => Utf8Encode(render(records[k])))
  }

  /** Every encoded value holds a newline byte exactly when its text holds a
      newline. */
  lemma EncodedNewlines<V>(records: seq<Record<V>>, render: Record<V> -> string)
    ensures forall k :: 0 <= k < |records| ==>
              (Newline in Utf8Encode(render(records[k])) <==> '\n' in render(records[k]))
  {
    forall k | 0 <= k < |records|
      ensures Newline in Utf8Encode(render(records[k])) <==> '\n' in render(records[k])
    {
      Utf8NewlineIff(render(records[k]));
    }
  }

  /** The events of a session up to and including the marker insert. */
  function Claim<V>(records: seq<Record<V>>, env: Collaborators<V>): seq<Event>
    requires |records| > 0
  {
    var first := records[0];
    [Open(Route(env.isReferenceTable(first.topic))),
     AutoCommitOff,
     Execute(Statements.MarkerQuery(env.metadataTable, BatchId(first), |records|))]
  }

  /** The load statement for the chosen compression. */
  function DataQuery<V>(records: seq<Record<V>>, c: Compression.Compression, env: Collaborators<V>): string
    requires |records| > 0
  {
    Statements.LoadQuery(Compression.Ext(c), records[0].topic, env.columns(records[0]))
  }

  /** What one call of `write` does, seen from the committed state. */
  function WriteSpec<V>(db: Db, records: seq<Record<V>>, compressionName: string, env: Collaborators<V>): (r: Run)
    ensures r.outcome == Committed <==>
              && |records| > 0
              && env.faults == Faults(false, false, false, false, false, false)
              && BatchId(records[0]) !in db.markers
              && Compression.ParseCompression(compressionName).Success?
    ensures r.outcome == Skipped <==>
              |records| > 0 && !env.faults.tableSetup && !env.faults.connect && BatchId(records[0]) in db.markers
    ensures |records| > 0 && !env.faults.tableSetup ==> records[0].topic in r.db.tables
    ensures r.outcome != Committed ==> r.db.markers == db.markers
  {
    if |records| == 0 then Run(db, Failed(EmptyBatch), [])
    else if env.faults.tableSetup then Run(db, Failed(TableSetup), [])
    else if env.faults.connect then Run(EnsureTable(db, records[0].topic), Failed(Connect), [])
    else SessionSpec(EnsureTable(db, records[0].topic), records, compressionName, env)
  }

  /** The transactional part of a write, from opening the session on. */
  function SessionSpec<V>(db1: Db, records: seq<Record<V>>, compressionName: string, env: Collaborators<V>): (r: Run)
    requires |records| > 0
    ensures r.outcome == Committed <==>
              && BatchId(records[0]) !in db1.markers
              && !env.faults.markerInsert
              && Compression.ParseCompression(compressionName).Success?
              && !env.faults.streamWrite && !env.faults.loadData && !env.faults.commit
    ensures r.outcome != Committed ==> r.db == db1
    ensures r.outcome == Committed ==> Commit in r.events
    ensures r.outcome == Skipped <==> BatchId(records[0]) in db1.markers
    ensures r.outcome == Skipped ==> r.events == Claim(records, env) + [CloseSession]
    ensures Commit in r.events ==>
              && Compression.ParseCompression(compressionName).Success?
              && r.events == Claim(records, env) +
                   [CloseOutput, Execute(DataQuery(records, Compression.ParseCompression(compressionName).value, env)),
                    Commit, CloseSession]
  {
    var claim := Claim(records, env);
    if BatchId(records[0]) in db1.markers then Run(db1, Skipped, claim + [CloseSession])
    else if env.faults.markerInsert then Run(db1, Failed(MarkerInsert), claim + [CloseSession])
    else
      var rest := Proceed(db1, records, compressionName, env);
      assert Commit !in claim;
      Run(rest.db, rest.outcome, claim + rest.events)
  }

  /** After a successful marker insert: choose the compression, then stream,
      load and commit. */
  function Proceed<V>(db1: Db, records: seq<Record<V>>, compressionName: string, env: Collaborators<V>): (r: Run)
    requires |records| > 0
    ensures r.outcome != Committed ==> r.db == db1
    ensures r.outcome == Committed ==> Commit in r.events
    ensures r.outcome != Skipped
    ensures Compression.ParseCompression(compressionName).Failure? ==>
              r == Run(db1, Failed(BadCompression(Compression.InvalidMessage(compressionName))), [CloseSession])
    ensures Compression.ParseCompression(compressionName).Success? ==>
              r == LoadSpec(db1, records, Compression.ParseCompression(compressionName).value, env)
    ensures Commit in r.events ==>
              && Compression.ParseCompression(compressionName).Success?
              && r.events == [CloseOutput, Execute(DataQuery(records, Compression.ParseCompression(compressionName).value, env)),
                              Commit, CloseSession]
  {
    match Compression.ParseCompression(compressionName)
    case Failure(message) => Run(db1, Failed(BadCompression(message)), [CloseSession])
    case Success(c) => LoadSpec(db1, records, c, env)
  }

  /** After the marker insert and the choice of compression: stream the
      payload and close the output. */
  function LoadSpec<V>(db1: Db, records: seq<Record<V>>, c: Compression.Compression, env: Collaborators<V>): (r: Run)
    requires |records| > 0
    ensures r.outcome == Committed <==> !env.faults.streamWrite && !env.faults.loadData && !env.faults.commit
    ensures r.outcome != Committed ==> r.db == db1
    ensures r.outcome == Committed ==> Commit in r.events
    ensures r.outcome != Skipped
    ensures Commit in r.events ==> r.events == [CloseOutput, Execute(DataQuery(records, c, env)), Commit, CloseSession]
  {
    if env.faults.streamWrite then Run(db1, Failed(StreamIO), [CloseOutput, CloseSession])
    else
      var commit := CommitSpec(db1, records, c, env);
      Run(commit.db, commit.outcome, [CloseOutput] + commit.events)
  }

  /** The marker plus the loaded lines of the payload. */
  function Committing<V>(db1: Db, records: seq<Record<V>>, env: Collaborators<V>): (r: Db)
    requires |records| > 0
    ensures r.markers == db1.markers[BatchId(records[0]) := |records|]
    ensures r.tables.Keys == db1.tables.Keys + {records[0].topic}
    ensures forall t :: t in db1.tables && t != records[0].topic ==> r.tables[t] == db1.tables[t]
    ensures r.tables[records[0].topic] ==
              (if records[0].topic in db1.tables then db1.tables[records[0].topic] else []) +
              Unframe(Frame(EncodedValues(records, env.render)))
  {
    var table := records[0].topic;
    var rows := Unframe(Frame(EncodedValues(records, env.render)));
    Db(db1.markers[BatchId(records[0]) := |records|],
       db1.tables[table := (if table in db1.tables then db1.tables[table] else []) + rows])
  }

  /** With the payload complete: run the load statement, then commit. */
  function CommitSpec<V>(db1: Db, records: seq<Record<V>>, c: Compression.Compression, env: Collaborators<V>): (r: Run)
    requires |records| > 0
    ensures r.outcome == Committed <==> !env.faults.loadData && !env.faults.commit
    ensures r.outcome == Committed ==> r.db == Committing(db1, records, env)
    ensures r.outcome != Committed ==> r.db == db1
    ensures Commit in r.events <==> !env.faults.loadData
    ensures Commit in r.events ==> r.events == [Execute(DataQuery(records, c, env)), Commit, CloseSession]
  {
    var loaded := [Execute(DataQuery(records, c, env))];
    if env.faults.loadData then Run(db1, Failed(LoadData), loaded + [CloseSession])
    else if env.faults.commit then Run(db1, Failed(CommitFailed), loaded + [Commit, CloseSession])
    else Run(Committing(db1, records, env), Committed, loaded + [Commit, CloseSession])
  }

  /** Regrouping a trace of events: the session methods use it to match the
      events they issued against the specification's. */
  lemma AppendAssoc<T>(a: seq<T>, b: seq<T>, c: seq<T>)
    ensures (a + b) + c == a + (b + c)
  {
  }

  /** The uncommitted work of the open session. */
  datatype Session = Session(
    endpoint: Endpoint,
    autoCommit: bool,
    marker: Option<(string, nat)>,
    load: Option<(string, seq<Row>)>)

  /** The committed state once a session's pending work is committed. */
  function ApplyPending(db: Db, s: Session): (r: Db)
    ensures r.markers == if s.marker.Some? then db.markers[s.marker.value.0 := s.marker.value.1] else db.markers
    ensures s.load.None? ==> r.tables == db.tables
    ensures s.load.Some? ==>
              var (t, rows) := s.load.value;
              r.tables == db.tables[t := (if t in db.tables then db.tables[t] else []) + rows]
  {
    var markers := if s.marker.Some? then db.markers[s.marker.value.0 := s.marker.value.1] else db.markers;
    var tables :=
      if s.load.Some? then
        var (t, rows) := s.load.value;
        db.tables[t := (if t in db.tables then db.tables[t] else []) + rows]
      else db.tables;
    Db(markers, tables)
  }

  datatype InsertResult = Inserted | Duplicate | InsertError

  /** The compressed output stream over the pipe. The compressed bytes are
      not modelled: the stream keeps the uncompressed bytes it accepted and
      the compression that encodes them. */
  class Envelope {
    const format: Compression.Compression
    const broken: bool  // the pipe raises IOException on every write
    var raw: seq<byte>
    var closed: bool

    constructor (format: Compression.Compression, broken: bool)
      ensures this.format == format && this.broken == broken
      ensures raw == [] && !closed
    {
      this.format := format;
      this.broken := broken;
      raw := [];
      closed := false;
    }

    method Write(bytes: seq<byte>) returns (ok: bool)
      modifies this
      ensures ok == (!broken && !old(closed))
      ensures raw == (if ok then old(raw) + bytes else old(raw))
      ensures closed == old(closed)
    {
      ok := !broken && !closed;
      if ok {
        raw := raw + bytes;
      }
    }

    /** The `forEach` over the encoded values: each value, then a newline.
        The first failing write ends the loop with an IOException. */
    method WriteAll(values: seq<seq<byte>>) returns (ok: bool)
      requires raw == [] && !closed
      modifies this
      ensures closed == old(closed)
      ensures ok == (values == [] || !broken)
      ensures ok ==> raw == Frame(values)
    {
      var i := 0;
      while i < |values|
        invariant 0 <= i <= |values|
        invariant raw == Frame(values[..i]) && !closed
        invariant i > 0 ==> !broken
      {
        ok := Write(values[i]);
        if ok {
          ok := Write([Newline]);
        }
        if !ok {
          return;
        }
        FrameAppend(values[..i], values[i]);
        assert values[..i + 1] == values[..i] + [values[i]];
        i := i + 1;
      }
      assert values[..i] == values;
      ok := true;
    }

    /** Closing flushes the compressor's trailer; afterwards the reader sees
        the end of the stream. */
    method Close()
      modifies this
      ensures closed && raw == old(raw)
    {
      closed := true;
    }
  }

  class Store {
    var markers: map<string, nat>
    var tables: map<string, seq<Row>>
    var events: seq<Event>
    var session: Option<Session>

    function State(): Db
      reads this
    {
      Db(markers, tables)
    }

    predicate Idle()
      reads this
    {
      session.None?
    }

    constructor (db: Db)
      ensures State() == db && Idle() && events == []
    {
      markers := db.markers;
      tables := db.tables;
      events := [];
      session := None;
    }

    /** DDL runs outside any transaction, so a created table stays. */
    method CreateTableIfNeeded(table: string)
      modifies this
      ensures State() == EnsureTable(old(State()), table)
      ensures events == old(events) && session == old(session)
    {
      if table !in tables {
        tables := tables[table := []];
      }
    }

    method OpenSession(endpoint: Endpoint)
      requires Idle()
      modifies this
      ensures session == Some(Session(endpoint, true, None, None))
      ensures State() == old(State()) && events == old(events) + [Open(endpoint)]
    {
      session := Some(Session(endpoint, true, None, None));
      events := events + [Open(endpoint)];
    }

    method SetAutoCommitOff()
      requires session.Some?
      modifies this
      ensures session == Some(old(session.value).(autoCommit := false))
      ensures State() == old(State()) && events == old(events) + [AutoCommitOff]
    {
      session := Some(session.value.(autoCommit := false));
      events := events + [AutoCommitOff];
    }

    /** The metadata table's key is the batch id: inserting an id that is
        already committed is an integrity-constraint violation. With
        auto-commit on, an insert is committed at once. */
    method InsertMarker(sql: string, id: string, count: nat, fails: bool) returns (r: InsertResult)
      requires session.Some?
      modifies this
      ensures r == (if id in old(markers) then Duplicate else if fails then InsertError else Inserted)
      ensures events == old(events) + [Execute(sql)] && tables == old(tables)
      ensures var s := old(session.value);
              if r != Inserted then session == old(session) && markers == old(markers)
              else if s.autoCommit then session == old(session) && markers == old(markers)[id := count]
              else session == Some(s.(marker := Some((id, count)))) && markers == old(markers)
    {
      events := events + [Execute(sql)];
      if id in markers {
        r := Duplicate;
      } else if fails {
        r := InsertError;
      } else {
        r := Inserted;
        if session.value.autoCommit {
          markers := markers[id := count];
        } else {
          session := Some(session.value.(marker := Some((id, count))));
        }
      }
    }

    /** `LOAD DATA LOCAL INFILE`: the statement reads the pipe on its own
        thread, decodes the stream with the decompressor its file extension
        names once the stream has ended, and loads one row per line. */
    method ExecuteLoad(sql: string, table: string, ext: string, source: Envelope, scheduler: nat -> bool, fails: bool)
      returns (ok: bool)
      requires session.Some?
      modifies this
      ensures ok == (!fails && source.closed && Compression.FromExt(ext) == Some(source.format))
      ensures events == old(events) + [Execute(sql)] && markers == old(markers)
      ensures var s := old(session.value);
              if !ok then session == old(session) && tables == old(tables)
              else if s.autoCommit then
                session == old(session) && State() == ApplyPending(old(State()), Session(s.endpoint, true, None, Some((table, Unframe(source.raw)))))
              else session == Some(s.(load := Some((table, Unframe(source.raw))))) && tables == old(tables)
    {
      events := events + [Execute(sql)];
      ok := !fails && source.closed && Compression.FromExt(ext) == Some(source.format);
      if ok {
        var received := Pipe.StreamConcurrently(source.raw, Pipe.BufferSize, scheduler);
        var rows := Unframe(received);
        if session.value.autoCommit {
          tables := tables[table := (if table in tables then tables[table] else []) + rows];
        } else {
          session := Some(session.value.(load := Some((table, rows))));
        }
      }
    }

    method CommitSession(fails: bool) returns (ok: bool)
      requires session.Some?
      modifies this
      ensures ok == !fails
      ensures events == old(events) + [Commit]
      ensures ok ==> State() == ApplyPending(old(State()), old(session.value))
                     && session == Some(old(session.value).(marker := None, load := None))
      ensures !ok ==> State() == old(State()) && session == old(session)
    {
      events := events + [Commit];
      ok := !fails;
      if ok {
        var applied := ApplyPending(State(), session.value);
        markers, tables := applied.markers, applied.tables;
        session := Some(session.value.(marker := None, load := None));
      }
    }

    /** Closing a session that was not committed discards its pending work. */
    method CloseConnection()
      requires session.Some?
      modifies this
      ensures Idle() && State() == old(State())
      ensures events == old(events) + [CloseSession]
    {
      session := None;
      events := events + [CloseSession];
    }

    /** The session state once the marker is inserted. */
    predicate Claimed<V>(records: seq<Record<V>>, env: Collaborators<V>)
      reads this
      requires |records| > 0
    {
      && session == Some(Session(Route(env.isReferenceTable(records[0].topic)), false,
                                 Some((BatchId(records[0]), |records|)), None))
      && records[0].topic in tables
    }

    /** Lines 78-79 of `write`: the load statement, then the commit; the
        session is closed either way. */
    method LoadAndCommit<V>(records: seq<Record<V>>, c: Compression.Compression, env: Collaborators<V>, output: Envelope)
      returns (outcome: Outcome)
      requires |records| > 0 && Claimed(records, env)
      requires output.closed && output.format == c && output.raw == Frame(EncodedValues(records, env.render))
      modifies this
      ensures Idle()
      ensures var run := CommitSpec(old(State()), records, c, env);
              State() == run.db && outcome == run.outcome && events == old(events) + run.events
    {
      var first := records[0];
      var dataQuery := Statements.LoadQuery(Compression.Ext(c), first.topic, env.columns(first));
      Compression.ExtRoundTrip(c);
      var loaded := ExecuteLoad(dataQuery, first.topic, Compression.Ext(c), output, env.scheduler, env.faults.loadData);
      if !loaded {
        CloseConnection();
        return Failed(LoadData);
      }
      var committed := CommitSession(env.faults.commit);
      CloseConnection();
      if !committed {
        return Failed(CommitFailed);
      }
      return Committed;
    }

    /** Lines 59-77 of `write`: a new compressed stream over the pipe, every
        encoded value written into it followed by a newline, then closed. */
    method StreamPayload<V>(records: seq<Record<V>>, c: Compression.Compression, env: Collaborators<V>)
      returns (output: Envelope, written: bool)
      requires |records| > 0
      ensures fresh(output) && output.closed && output.format == c
      ensures written == !env.faults.streamWrite
      ensures written ==> output.raw == Frame(EncodedValues(records, env.render))
    {
      output := new Envelope(c, env.faults.streamWrite);
      written := output.WriteAll(EncodedValues(records, env.render));
      output.Close();
    }

    /** Lines 59-77 of `write`, entered with the marker pending in the
        session and the compression already chosen. */
    method StreamAndLoad<V>(records: seq<Record<V>>, c: Compression.Compression, env: Collaborators<V>) returns (outcome: Outcome)
      requires |records| > 0 && Claimed(records, env)
      modifies this
      ensures Idle()
      ensures var run := LoadSpec(old(State()), records, c, env);
              State() == run.db && outcome == run.outcome && events == old(events) + run.events
    {
      ghost var db1 := State();
      ghost var before := events;
      var output, written := StreamPayload(records, c, env);
      events := events + [CloseOutput];
      if !written {
        CloseConnection();
        AppendAssoc(before, [CloseOutput], [CloseSession]);
        return Failed(StreamIO);
      }
      outcome := LoadAndCommit(records, c, env, output);
      AppendAssoc(before, [CloseOutput], CommitSpec(db1, records, c, env).events);
    }

    /** Lines 43-51 of `write`: open the session on the table's endpoint,
        turn auto-commit off and insert the batch marker. */
    method ClaimBatch<V>(records: seq<Record<V>>, env: Collaborators<V>) returns (inserted: InsertResult)
      requires |records| > 0 && Idle() && records[0].topic in tables
      modifies this
      ensures inserted == (if BatchId(records[0]) in old(markers) then Duplicate
                           else if env.faults.markerInsert then InsertError else Inserted)
      ensures events == old(events) + Claim(records, env) && State() == old(State())
      ensures session.Some?
      ensures inserted == Inserted ==> Claimed(records, env)
    {
      var first := records[0];
      var id := BatchId(first);
      var count := |records|;
      OpenSession(Route(env.isReferenceTable(first.topic)));
      SetAutoCommitOff();
      inserted := InsertMarker(Statements.MarkerQuery(env.metadataTable, id, count), id, count, env.faults.markerInsert);
    }

    /** Lines 43-77 of `write`: claim the batch, skip it if it is already
        committed, choose the compression, then stream and load. */
    method RunSession<V>(records: seq<Record<V>>, compressionName: string, env: Collaborators<V>) returns (outcome: Outcome)
      requires |records| > 0 && Idle() && records[0].topic in tables
      modifies this
      ensures Idle()
      ensures var run := SessionSpec(old(State()), records, compressionName, env);
              State() == run.db && outcome == run.outcome && events == old(events) + run.events
    {
      ghost var db1 := State();
      ghost var before := events;
      var inserted := ClaimBatch(records, env);
      if inserted != Inserted {
        CloseConnection();
        AppendAssoc(before, Claim(records, env), [CloseSession]);
        return if inserted == Duplicate then Skipped else Failed(MarkerInsert);
      }
      outcome := ChooseAndLoad(records, compressionName, env);
      AppendAssoc(before, Claim(records, env), Proceed(db1, records, compressionName, env).events);
    }

    /** Lines 59-80 of `write`: choose the compression (an unknown name ends
        the session), then stream, load and commit. */
    method ChooseAndLoad<V>(records: seq<Record<V>>, compressionName: string, env: Collaborators<V>) returns (outcome: Outcome)
      requires |records| > 0 && Claimed(records, env)
      modifies this
      ensures Idle()
      ensures var run := Proceed(old(State()), records, compressionName, env);
              State() == run.db && outcome == run.outcome && events == old(events) + run.events
    {
      var compression := Compression.ParseCompression(compressionName);
      if compression.Failure? {
        CloseConnection();
        return Failed(BadCompression(compression.error));
      }
      outcome := StreamAndLoad(records, compression.value, env);
    }

    /** `write`: derive the table and the batch identity from the first
        record, make sure the table exists, then run the transaction. */
    method Write<V>(records: seq<Record<V>>, compressionName: string, env: Collaborators<V>) returns (outcome: Outcome)
      requires Idle()
      modifies this
      ensures Idle()
      ensures var run := WriteSpec(old(State()), records, compressionName, env);
              State() == run.db && outcome == run.outcome && events == old(events) + run.events
    {
      if |records| == 0 {
        return Failed(EmptyBatch);
      }
      if env.faults.tableSetup {
        return Failed(TableSetup);
      }
      CreateTableIfNeeded(records[0].topic);
      if env.faults.connect {
        return Failed(Connect);
      }
      outcome := RunSession(records, compressionName, env);
    }
  }
}
